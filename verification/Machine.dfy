// An abstract stack machine for the opcodes that the pattern, condition and
// expression code generators emit.
//
// The stack is a sequence with its TOP AT INDEX 0.  Everything that user code
// can observe or influence (loads, arithmetic, comparisons, class checks,
// stores, statement bodies) goes through one oracle, World.act, which sees the
// whole history; so two runs that reach the same State performed the same
// actions in the same order with the same results.  Truthiness and the
// sequence and mapping protocols are pure.
//
// The instructions around an inlined comprehension need slots, cells and a
// block stack; InlinedComprehension gives them their meaning, and here they
// wedge.
module Machine {

  datatype Option<+T> = None | Some(value: T)

  datatype Value =
    | NoneValue
    | Bool(b: bool)
    | Int(n: int)
    | Str(chars: string)
    | Tuple(items: seq<Value>)
    | List(items: seq<Value>)
    | Dict(addr: nat)
    | Object(id: int)

  datatype Event =
    | Load(id: nat)
    | GetAttr(v: Value, attr: string)
    | Unary(opname: string, v: Value)
    | Binary(op: int, left: Value, right: Value)
    | Comparison(kind: int, left: Value, right: Value)
    | Containment(left: Value, right: Value)
    | ClassMatch(v: Value, cls: Value, names: Value, npos: nat)
    | Stored(name: string, v: Value)
    | RanBody(id: nat)

  datatype Outcome = Return(v: Value) | Fault

  // dicts[a] holds the entries of the dictionary object Dict(a).
  datatype State = State(trace: seq<Event>, dicts: seq<map<Value, Value>>)

  // The type flags that MATCH_SEQUENCE and MATCH_MAPPING test exclude each other.
  datatype Protocol = SequenceProtocol | MappingProtocol | NoProtocol

  datatype World = World(
    act: (State, Event) -> Outcome,
    truthy: Value -> bool,
    protocol: Value -> Protocol,
    elements: Value -> seq<Value>,
    entries: Value -> map<Value, Value>)

  datatype EvalResult = Val(v: Value, s: State) | Exc(s: State)

  // ----- pure protocols -----

  predicate Truth(w: World, v: Value) {
    match v
    case NoneValue => false
    case Bool(b) => b
    case Int(n) => n != 0
    case _ => w.truthy(v)
  }

  predicate IsSequence(w: World, v: Value) {
    match v
    case Tuple(_) => true
    case List(_) => true
    case Object(_) => w.protocol(v) == SequenceProtocol
    case _ => false
  }

  function Elements(w: World, v: Value): seq<Value> {
    match v
    case Tuple(items) => items
    case List(items) => items
    case _ => w.elements(v)
  }

  predicate IsMapping(w: World, s: State, v: Value) {
    match v
    case Dict(a) => a < |s.dicts|
    case Object(_) => w.protocol(v) == MappingProtocol
    case _ => false
  }

  function Entries(w: World, s: State, v: Value): map<Value, Value> {
    if v.Dict? && v.addr < |s.dicts| then s.dicts[v.addr] else w.entries(v)
  }

  // The outcome of looking up the keys of a mapping pattern from left to
  // right; a repeated key is an error as soon as it is reached.
  datatype KeyLookup = Found(values: seq<Value>) | Missing | Repeated

  function LookupKeys(m: map<Value, Value>, keys: seq<Value>, i: nat): (r: KeyLookup)
    requires i <= |keys|
    ensures r.Found? ==> |r.values| == |keys| - i
    decreases |keys| - i
  {
    if i == |keys| then Found([])
    else if keys[i] in keys[..i] then Repeated
    else if keys[i] !in m then Missing
    else
      match LookupKeys(m, keys, i + 1)
      case Found(vs) => Found([m[keys[i]]] + vs)
      case other => other
  }

  // ----- observable actions -----

  function Act(w: World, s: State, e: Event): EvalResult {
    var s' := s.(trace := s.trace + [e]);
    match w.act(s, e)
    case Return(v) => Val(v, s')
    case Fault => Exc(s')
  }

  const NB_SUBTRACT: int := 10
  const NB_SUBSCR: int := 26

  function BinaryResult(w: World, op: int, a: Value, b: Value, s: State): EvalResult {
    if op == NB_SUBTRACT && a.Int? && b.Int? then Val(Int(a.n - b.n), s)
    else if op == NB_SUBSCR && IsSequence(w, a) && b.Int? && 0 <= b.n < |Elements(w, a)| then
      Val(Elements(w, a)[b.n], s)
    else Act(w, s, Binary(op, a, b))
  }

  // Rich comparison: kind is Py_LT .. Py_GE, 0 to 5.
  function CompareResult(w: World, kind: int, a: Value, b: Value, s: State): EvalResult {
    if a.Int? && b.Int? && 0 <= kind <= 5 then
      Val(Bool(
        if kind == 0 then a.n < b.n else if kind == 1 then a.n <= b.n
        else if kind == 2 then a.n == b.n else if kind == 3 then a.n != b.n
        else if kind == 4 then a.n > b.n else a.n >= b.n), s)
    else Act(w, s, Comparison(kind, a, b))
  }

  function ContainsResult(w: World, negate: bool, a: Value, b: Value, s: State): EvalResult {
    match Act(w, s, Containment(a, b))
    case Val(v, s') => Val(Bool(Truth(w, v) != negate), s')
    case Exc(s') => Exc(s')
  }

  // MATCH_CLASS answers None or a tuple with one value per sub-pattern.
  function ClassResult(w: World, v: Value, cls: Value, names: seq<Value>, npos: nat, s: State): (r: EvalResult)
    ensures r.Val? ==> r.v == NoneValue || (r.v.Tuple? && |r.v.items| == npos + |names|)
  {
    match Act(w, s, ClassMatch(v, cls, Tuple(names), npos))
    case Val(r, s') =>
      if r.Tuple? && |r.items| == npos + |names| then Val(r, s') else Val(NoneValue, s')
    case Exc(s') => Exc(s')
  }

  // ----- instructions -----

  type Label = nat

  datatype Pool = CellVars | FreeVars

  datatype Instr =
    | LoadConst(v: Value)
    | LoadLeaf(id: nat)
    | LoadAttr(attr: string)
    | Copy(i: nat)
    | Swap(i: nat)
    | PopTop
    | Nop
    | ToBool
    | UnaryNot
    | UnaryCall(opname: string)
    | BinaryOp(arg: int)
    | CompareOp(arg: int)
    | IsOp(arg: int)
    | ContainsOp(arg: int)
    | GetLen
    | MatchSequenceOp
    | MatchMappingOp
    | MatchKeysOp
    | MatchClassOp(npos: nat)
    | UnpackSequence(n: nat)
    | UnpackEx(counts: nat)
    | BuildTuple(n: nat)
    | BuildMap(n: nat)
    | DictUpdate(i: nat)
    | DeleteSubscr
    | StoreName(name: string)
    | Body(id: nat)
    | Jump(target: Label)
    | JumpNoInterrupt(target: Label)
    | PopJumpIfFalse(target: Label)
    | PopJumpIfTrue(target: Label)
    // around an inlined comprehension
    | LoadFastAndClear(name: string)
    | MakeCell(name: string, pool: Pool)
    | StoreFastMaybeNull(name: string)
    | SetupFinally(handler: Label)
    | PopBlock
    | Reraise
    | CompBody

  predicate IsJump(i: Instr) {
    i.Jump? || i.JumpNoInterrupt? || i.PopJumpIfFalse? || i.PopJumpIfTrue?
  }

  datatype Effect = Done(stack: seq<Value>, s: State) | Raises(s: State) | Wedged

  function Push(r: EvalResult, rest: seq<Value>): Effect {
    match r
    case Val(v, s) => Done([v] + rest, s)
    case Exc(s) => Raises(s)
  }

  function UnpackExResult(w: World, before: nat, after: nat, v: Value): (r: Option<seq<Value>>)
    ensures r.Some? ==> |r.value| == before + 1 + after
  {
    var items := Elements(w, v);
    if |items| < before + after then None
    else Some(items[..before] + [List(items[before .. |items| - after])] + items[|items| - after ..])
  }

  // The effect of one instruction that is not a jump.
  function Exec(w: World, i: Instr, st: seq<Value>, s: State): Effect
    requires !IsJump(i)
  {
    match i
    case LoadConst(v) => Done([v] + st, s)
    case LoadLeaf(id) => Push(Act(w, s, Load(id)), st)
    case Nop => Done(st, s)
    case Body(id) =>
      (match Act(w, s, RanBody(id))
       case Val(_, s') => Done(st, s')
       case Exc(s') => Raises(s'))
    case Copy(k) => if 1 <= k <= |st| then Done([st[k - 1]] + st, s) else Wedged
    case Swap(k) => if 1 <= k <= |st| then Done(st[0 := st[k - 1]][k - 1 := st[0]], s) else Wedged
    case BuildTuple(n) => if n <= |st| then Done([Tuple(Reverse(st[..n]))] + st[n..], s) else Wedged
    case BuildMap(n) =>
      if n == 0 then Done([Dict(|s.dicts|)] + st, s.(dicts := s.dicts + [map[]])) else Wedged
    case _ =>
      if |st| == 0 then Wedged
      else Exec1(w, i, st[0], st[1..], s)
  }

  function Reverse(q: seq<Value>): (r: seq<Value>)
    ensures |r| == |q|
    ensures forall k :: 0 <= k < |q| ==> r[k] == q[|q| - 1 - k]
  {
    if q == [] then [] else Reverse(q[1..]) + [q[0]]
  }

  // Instructions that consume or inspect the top item.
  function Exec1(w: World, i: Instr, top: Value, rest: seq<Value>, s: State): Effect
    requires !IsJump(i)
  {
    match i
    case PopTop => Done(rest, s)
    case LoadAttr(attr) => Push(Act(w, s, GetAttr(top, attr)), rest)
    case ToBool => Done([Bool(Truth(w, top))] + rest, s)
    case UnaryNot => if top.Bool? then Done([Bool(!top.b)] + rest, s) else Wedged
    case UnaryCall(name) => Push(Act(w, s, Unary(name, top)), rest)
    case GetLen =>
      if IsSequence(w, top) then Done([Int(|Elements(w, top)|), top] + rest, s)
      else if IsMapping(w, s, top) then Done([Int(|Entries(w, s, top)|), top] + rest, s)
      else Wedged
    case MatchSequenceOp => Done([Bool(IsSequence(w, top)), top] + rest, s)
    case MatchMappingOp => Done([Bool(IsMapping(w, s, top)), top] + rest, s)
    case UnpackSequence(n) =>
      if !IsSequence(w, top) then Wedged
      else if |Elements(w, top)| == n then Done(Elements(w, top) + rest, s)
      else Raises(s)
    case UnpackEx(counts) =>
      if !IsSequence(w, top) then Wedged
      else (match UnpackExResult(w, counts % 256, counts / 256, top)
            case Some(vs) => Done(vs + rest, s)
            case None => Raises(s))
    case StoreName(name) =>
      (match Act(w, s, Stored(name, top))
       case Val(_, s') => Done(rest, s')
       case Exc(s') => Raises(s'))
    case _ =>
      if |rest| == 0 then Wedged
      else Exec2(w, i, top, rest[0], rest[1..], s)
  }

  // Instructions that consume or inspect the top two items or more.
  function Exec2(w: World, i: Instr, top: Value, under: Value, rest: seq<Value>, s: State): Effect
    requires !IsJump(i)
  {
    match i
    case BinaryOp(arg) => Push(BinaryResult(w, arg, under, top, s), rest)
    case CompareOp(arg) => Push(CompareResult(w, arg / 32, under, top, s), rest)
    case IsOp(arg) => Done([Bool((under == top) != (arg == 1))] + rest, s)
    case ContainsOp(arg) => Push(ContainsResult(w, arg == 1, under, top, s), rest)
    case MatchKeysOp =>
      if !top.Tuple? || !IsMapping(w, s, under) then Wedged
      else (match LookupKeys(Entries(w, s, under), top.items, 0)
            case Found(vs) => Done([Tuple(vs), top, under] + rest, s)
            case Missing => Done([NoneValue, top, under] + rest, s)
            case Repeated => Raises(s))
    case MatchClassOp(npos) =>
      if !top.Tuple? || |rest| == 0 then Wedged
      else Push(ClassResult(w, rest[0], under, top.items, npos, s), rest[1..])
    case DictUpdate(k) =>
      var below := [under] + rest;
      if 1 <= k <= |below| && below[k - 1].Dict? && below[k - 1].addr < |s.dicts| && IsMapping(w, s, top) then
        var a := below[k - 1].addr;
        Done(below, s.(dicts := s.dicts[a := s.dicts[a] + Entries(w, s, top)]))
      else Wedged
    case DeleteSubscr =>
      if under.Dict? && under.addr < |s.dicts| then
        var d := s.dicts[under.addr];
        if top in d then Done(rest, s.(dicts := s.dicts[under.addr := d - {top}])) else Raises(s)
      else Wedged
    case _ => Wedged
  }

  // ----- code with labels -----

  // An instruction sequence under construction: labels maps a bound label to
  // the index of the instruction it stands before; next is the first label id
  // that has not been handed out.
  datatype Code = Code(instrs: seq<Instr>, labels: map<Label, nat>, next: Label)

  function Add(c: Code, i: Instr): Code { c.(instrs := c.instrs + [i]) }

  function AddAll(c: Code, block: seq<Instr>): Code { c.(instrs := c.instrs + block) }

  function Fresh(c: Code): Code { c.(next := c.next + 1) }

  function Use(c: Code, l: Label): Code { c.(labels := c.labels[l := |c.instrs|]) }

  // p contains c: c's instructions come first in p and c's labels are bound
  // in p to the same places.
  ghost predicate Extends(c: Code, p: Code) {
    && c.instrs <= p.instrs
    && forall l :: l in c.labels ==> l in p.labels && p.labels[l] == c.labels[l]
  }

  // Code generation only appends: c2 extends c1, and binds only labels that
  // were handed out in between.
  ghost predicate Grows(c1: Code, c2: Code) {
    && Extends(c1, c2)
    && c1.next <= c2.next
    && forall l :: l in c2.labels && l !in c1.labels ==> c1.next <= l < c2.next
  }

  ghost predicate LabelsInRange(c: Code) { forall l :: l in c.labels ==> l < c.next }

  lemma {:induction false} ExtendsTransitive(a: Code, b: Code, p: Code)
    requires Extends(a, b) && Extends(b, p)
    ensures Extends(a, p)
  {
  }

  lemma {:induction false} GrowsTransitive(a: Code, b: Code, c: Code)
    requires Grows(a, b) && Grows(b, c)
    ensures Grows(a, c)
  {
  }

  lemma {:induction false} InstructionsAt(c: Code, block: seq<Instr>, p: Code)
    requires Extends(AddAll(c, block), p)
    ensures Extends(c, p)
    ensures |c.instrs| + |block| <= |p.instrs|
    ensures forall k :: 0 <= k < |block| ==> p.instrs[|c.instrs| + k] == block[k]
  {
    var all := c.instrs + block;
    assert c.instrs <= all <= p.instrs;
    forall k | 0 <= k < |block| ensures p.instrs[|c.instrs| + k] == block[k] {
      assert all[|c.instrs| + k] == block[k];
    }
  }

  // ----- running -----

  datatype Config = Run(pc: nat, stack: seq<Value>, s: State) | Raised(s: State) | Stuck

  function JumpTo(p: Code, l: Label, st: seq<Value>, s: State): Config {
    if l in p.labels then Run(p.labels[l], st, s) else Stuck
  }

  function Step(w: World, p: Code, c: Config): Config {
    if !c.Run? then c
    else if c.pc >= |p.instrs| then Stuck
    else
      var i := p.instrs[c.pc];
      if i.Jump? || i.JumpNoInterrupt? then JumpTo(p, i.target, c.stack, c.s)
      else if i.PopJumpIfFalse? || i.PopJumpIfTrue? then
        if |c.stack| == 0 then Stuck
        else if Truth(w, c.stack[0]) == i.PopJumpIfTrue? then JumpTo(p, i.target, c.stack[1..], c.s)
        else Run(c.pc + 1, c.stack[1..], c.s)
      else
        match Exec(w, i, c.stack, c.s)
        case Done(st, s) => Run(c.pc + 1, st, s)
        case Raises(s) => Raised(s)
        case Wedged => Stuck
  }

  function Steps(w: World, p: Code, c: Config, n: nat): Config
    decreases n
  {
    if n == 0 then c else Steps(w, p, Step(w, p, c), n - 1)
  }

  ghost predicate Reach(w: World, p: Code, a: Config, b: Config) {
    exists n: nat :: Steps(w, p, a, n) == b
  }

  lemma {:induction false} StepsAdd(w: World, p: Code, a: Config, m: nat, n: nat)
    ensures Steps(w, p, a, m + n) == Steps(w, p, Steps(w, p, a, m), n)
    decreases m
  {
    if m > 0 {
      StepsAdd(w, p, Step(w, p, a), m - 1, n);
    }
  }

  lemma {:induction false} ReachSelf(w: World, p: Code, a: Config)
    ensures Reach(w, p, a, a)
  {
    assert Steps(w, p, a, 0) == a;
  }

  lemma {:induction false} ReachTransitive(w: World, p: Code, a: Config, b: Config, c: Config)
    requires Reach(w, p, a, b) && Reach(w, p, b, c)
    ensures Reach(w, p, a, c)
  {
    var m: nat :| Steps(w, p, a, m) == b;
    var n: nat :| Steps(w, p, b, n) == c;
    StepsAdd(w, p, a, m, n);
  }

  lemma {:induction false} ReachStep(w: World, p: Code, a: Config, b: Config)
    requires Reach(w, p, a, b)
    ensures Reach(w, p, a, Step(w, p, b))
  {
    var m: nat :| Steps(w, p, a, m) == b;
    StepsAdd(w, p, a, m, 1);
    assert Steps(w, p, b, 1) == Steps(w, p, Step(w, p, b), 0);
  }

  // The three ways a run that started at `a` moves on from instruction i.

  lemma {:induction false} Op(w: World, p: Code, a: Config, pc: nat, i: Instr, st: seq<Value>, s: State, st': seq<Value>, s': State)
    requires Reach(w, p, a, Run(pc, st, s))
    requires pc < |p.instrs| && p.instrs[pc] == i && !IsJump(i)
    requires Exec(w, i, st, s).Done? && Exec(w, i, st, s).stack == st' && Exec(w, i, st, s).s == s'
    ensures Reach(w, p, a, Run(pc + 1, st', s'))
  {
    ReachStep(w, p, a, Run(pc, st, s));
  }

  lemma {:induction false} OpRaises(w: World, p: Code, a: Config, pc: nat, i: Instr, st: seq<Value>, s: State, s': State)
    requires Reach(w, p, a, Run(pc, st, s))
    requires pc < |p.instrs| && p.instrs[pc] == i && !IsJump(i)
    requires Exec(w, i, st, s) == Raises(s')
    ensures Reach(w, p, a, Raised(s'))
  {
    ReachStep(w, p, a, Run(pc, st, s));
  }

  lemma {:induction false} OpJump(w: World, p: Code, a: Config, pc: nat, i: Instr, st: seq<Value>, s: State)
    requires Reach(w, p, a, Run(pc, st, s))
    requires pc < |p.instrs| && p.instrs[pc] == i && (i.Jump? || i.JumpNoInterrupt?)
    requires i.target in p.labels
    ensures Reach(w, p, a, Run(p.labels[i.target], st, s))
  {
    ReachStep(w, p, a, Run(pc, st, s));
  }

  lemma {:induction false} OpBranch(w: World, p: Code, a: Config, pc: nat, i: Instr, v: Value, rest: seq<Value>, s: State)
    requires Reach(w, p, a, Run(pc, [v] + rest, s))
    requires pc < |p.instrs| && p.instrs[pc] == i && (i.PopJumpIfFalse? || i.PopJumpIfTrue?)
    requires i.target in p.labels
    ensures Reach(w, p, a,
              if Truth(w, v) == i.PopJumpIfTrue? then Run(p.labels[i.target], rest, s) else Run(pc + 1, rest, s))
  {
    ReachStep(w, p, a, Run(pc, [v] + rest, s));
    assert ([v] + rest)[1..] == rest;
  }

  // ----- steps of single instructions, for proofs about emitted blocks -----

  // block stands at pc.
  ghost predicate At(p: Code, pc: nat, block: seq<Instr>) {
    pc + |block| <= |p.instrs| && forall k :: 0 <= k < |block| ==> p.instrs[pc + k] == block[k]
  }

  lemma {:induction false} BlockAt(c: Code, block: seq<Instr>, p: Code)
    requires Extends(AddAll(c, block), p)
    ensures Extends(c, p) && At(p, |c.instrs|, block)
  {
    InstructionsAt(c, block, p);
  }

  lemma {:induction false} AtOne(p: Code, pc: nat, block: seq<Instr>, k: nat)
    requires At(p, pc, block) && k < |block|
    ensures pc + k < |p.instrs| && p.instrs[pc + k] == block[k]
  {
  }

  lemma {:induction false} AtSplit(p: Code, pc: nat, b1: seq<Instr>, b2: seq<Instr>)
    requires At(p, pc, b1 + b2)
    ensures At(p, pc, b1) && At(p, pc + |b1|, b2)
  {
    forall k | 0 <= k < |b1| ensures p.instrs[pc + k] == b1[k] {
      assert p.instrs[pc + k] == (b1 + b2)[k];
    }
    forall k | 0 <= k < |b2| ensures p.instrs[pc + |b1| + k] == b2[k] {
      assert p.instrs[pc + (|b1| + k)] == (b1 + b2)[|b1| + k];
    }
  }

  lemma {:induction false} PopStep(w: World, p: Code, a: Config, pc: nat, v: Value, st: seq<Value>, s: State)
    requires Reach(w, p, a, Run(pc, [v] + st, s)) && pc < |p.instrs| && p.instrs[pc] == PopTop
    ensures Reach(w, p, a, Run(pc + 1, st, s))
  {
    Op(w, p, a, pc, PopTop, [v] + st, s, st, s);
  }

  lemma {:induction false} CopyStep(w: World, p: Code, a: Config, pc: nat, k: nat, st: seq<Value>, s: State)
    requires Reach(w, p, a, Run(pc, st, s)) && pc < |p.instrs| && p.instrs[pc] == Copy(k) && 1 <= k <= |st|
    ensures Reach(w, p, a, Run(pc + 1, [st[k - 1]] + st, s))
  {
    Op(w, p, a, pc, Copy(k), st, s, [st[k - 1]] + st, s);
  }

  lemma {:induction false} SwapTwoStep(w: World, p: Code, a: Config, pc: nat, x: Value, y: Value, st: seq<Value>, s: State)
    requires Reach(w, p, a, Run(pc, [x, y] + st, s)) && pc < |p.instrs| && p.instrs[pc] == Swap(2)
    ensures Reach(w, p, a, Run(pc + 1, [y, x] + st, s))
  {
    Op(w, p, a, pc, Swap(2), [x, y] + st, s, [y, x] + st, s);
  }

  lemma {:induction false} ConstStep(w: World, p: Code, a: Config, pc: nat, v: Value, st: seq<Value>, s: State)
    requires Reach(w, p, a, Run(pc, st, s)) && pc < |p.instrs| && p.instrs[pc] == LoadConst(v)
    ensures Reach(w, p, a, Run(pc + 1, [v] + st, s))
  {
    Op(w, p, a, pc, LoadConst(v), st, s, [v] + st, s);
  }
}
