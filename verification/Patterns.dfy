// Code generation for match patterns: what each pattern means (Match), and
// what code the compiler emits for it (Gen*).
//
// While a pattern is compiled the context tracks the stack the code will see:
// onTop scratch items, then the values captured so far (in the order of
// stores), then whatever was there when the case was entered.
module Patterns {
  import opened Machine
  import opened Expressions

  datatype Pattern =
    | MatchValue(value: Expr)
    | MatchSingleton(constant: Value)
    | MatchSequence(patterns: seq<Pattern>)
    | MatchMapping(keys: seq<Expr>, values: seq<Pattern>, rest: Option<string>)
    | MatchClass(cls: Expr, positional: seq<Pattern>, kwdAttrs: seq<string>, kwdPatterns: seq<Pattern>)
    | MatchStar(starName: Option<string>)
    | MatchAs(pattern: Option<Pattern>, name: Option<string>)
    | MatchOr(alternatives: seq<Pattern>)

  predicate IsWildcard(p: Pattern) { p.MatchAs? && p.name.None? && p.pattern.None? }

  predicate IsWildcardStar(p: Pattern) { p.MatchStar? && p.starName.None? }

  // The first starred pattern at or after i, or -1.
  function StarFrom(ps: seq<Pattern>, i: nat): (r: int)
    requires i <= |ps|
    ensures r == -1 || (i <= r < |ps| && ps[r].MatchStar?)
    ensures forall k :: i <= k < |ps| && (r == -1 || k < r) ==> !ps[k].MatchStar?
    decreases |ps| - i
  {
    if i == |ps| then -1 else if ps[i].MatchStar? then i else StarFrom(ps, i + 1)
  }

  predicate AllWild(ps: seq<Pattern>) {
    forall k :: 0 <= k < |ps| ==> IsWildcard(ps[k]) || IsWildcardStar(ps[k])
  }

  // ----- meaning -----

  datatype MatchResult =
    | Matched(bindings: map<string, Value>, s: State)
    | NoMatch(s: State)
    | MatchRaised(s: State)

  // The subjects of the n sub-patterns of a sequence pattern: one item each,
  // except that the starred one takes the slice that is left.
  function Parts(items: seq<Value>, star: int, n: nat): (r: seq<Value>)
    requires if star < 0 then |items| == n else star < n && n - 1 <= |items|
    ensures |r| == n
  {
    if star < 0 then items
    else
      var after := n - 1 - star;
      items[..star] + [List(items[star .. |items| - after])] + items[|items| - after ..]
  }

  function Bind(name: Option<string>, v: Value): map<string, Value> {
    match name
    case Some(x) => map[x := v]
    case None => map[]
  }

  function AfterBinding(b: map<string, Value>, r: MatchResult): MatchResult {
    match r
    case Matched(b2, s) => Matched(b + b2, s)
    case other => other
  }

  // r2 is the result of going on after m matched.
  function AndThen(m: MatchResult, r2: MatchResult): MatchResult {
    match m
    case Matched(b, _) => AfterBinding(b, r2)
    case other => other
  }

  // Evaluate the keys and fetch their values, all of which must be there.
  datatype Lookup =
    | LookedUp(keys: seq<Value>, values: seq<Value>, s: State)
    | LookupFailed(s: State)
    | LookupRaised(s: State)

  function LookUp(w: World, keys: seq<Expr>, v: Value, s: State): (r: Lookup)
    ensures r.LookedUp? ==> |r.keys| == |r.values| == |keys|
  {
    if |Entries(w, s, v)| < |keys| then LookupFailed(s)
    else
      match EvalKeys(w, keys, 0, s)
      case KeysRaised(s1) => LookupRaised(s1)
      case Keys(ks, s1) =>
        match LookupKeys(Entries(w, s1, v), ks, 0)
        case Repeated => LookupRaised(s1)
        case Missing => LookupFailed(s1)
        case Found(vs) => LookedUp(ks, vs, s1)
  }

  function RestResult(w: World, rest: Option<string>, v: Value, ks: seq<Value>, s: State): MatchResult {
    if rest.None? then Matched(map[], s)
    else Matched(Bind(rest, Dict(|s.dicts|)), CopyWithout(w, v, ks, s))
  }

  function AsSet(ks: seq<Value>): set<Value> { set k | k in ks }

  // A new dictionary with the entries of v whose keys are not among ks.
  function CopyWithout(w: World, v: Value, ks: seq<Value>, s: State): State {
    s.(dicts := s.dicts + [Entries(w, s, v) - AsSet(ks)])
  }

  function Match(w: World, p: Pattern, v: Value, s: State): MatchResult
    decreases p, 1
  {
    match p
    case MatchValue(e) => MatchEqual(w, e, v, s)
    case MatchSingleton(k) => if v == k then Matched(map[], s) else NoMatch(s)
    case MatchSequence(ps) => MatchItems(w, ps, v, s)
    case MatchMapping(keys, ps, rest) => MatchEntries(w, keys, ps, rest, v, s)
    case MatchClass(cls, ps, attrs, kwds) => MatchInstance(w, p, v, s)
    case MatchStar(name) => Matched(Bind(name, v), s)
    case MatchAs(sub, name) =>
      if sub.None? then Matched(Bind(name, v), s)
      else
        var m := Match(w, sub.value, v, s);
        AndThen(m, Matched(Bind(name, v), m.s))
    case MatchOr(alts) => MatchFirst(w, alts, 0, v, s)
  }

  function MatchEqual(w: World, e: Expr, v: Value, s: State): MatchResult {
    match Eval(w, e, s)
    case Exc(s1) => MatchRaised(s1)
    case Val(x, s1) =>
      match CompareMeaning(w, Eq, v, x, s1)
      case Exc(s2) => MatchRaised(s2)
      case Val(r, s2) => if Truth(w, r) then Matched(map[], s2) else NoMatch(s2)
  }

  predicate LengthFits(star: int, n: nat, items: seq<Value>) {
    if star < 0 then |items| == n else n - 1 <= |items|
  }

  function MatchItems(w: World, ps: seq<Pattern>, v: Value, s: State): MatchResult
    decreases ps, |ps| + 1
  {
    var star, n := StarFrom(ps, 0), |ps|;
    if !IsSequence(w, v) || !LengthFits(star, n, Elements(w, v)) then NoMatch(s)
    else MatchSubs(w, ps, 0, Parts(Elements(w, v), star, n), s)
  }

  function MatchEntries(w: World, keys: seq<Expr>, ps: seq<Pattern>, rest: Option<string>, v: Value, s: State): MatchResult
    decreases ps, |ps| + 1
  {
    if |keys| != |ps| || !IsMapping(w, s, v) then NoMatch(s)
    else
      match LookUp(w, keys, v, s)
      case LookupRaised(s1) => MatchRaised(s1)
      case LookupFailed(s1) => NoMatch(s1)
      case LookedUp(ks, vs, s1) =>
        var m := MatchSubs(w, ps, 0, vs, s1);
        AndThen(m, RestResult(w, rest, v, ks, m.s))
  }

  function MatchInstance(w: World, p: Pattern, v: Value, s: State): MatchResult
    requires p.MatchClass?
    decreases p, 0
  {
    if |p.kwdAttrs| != |p.kwdPatterns| then NoMatch(s)
    else
      match Eval(w, p.cls, s)
      case Exc(s1) => MatchRaised(s1)
      case Val(c, s1) =>
        match ClassResult(w, v, c, Names(p.kwdAttrs), |p.positional|, s1)
        case Exc(s2) => MatchRaised(s2)
        case Val(r, s2) =>
          if r == NoneValue then NoMatch(s2)
          else
            var m := MatchSubs(w, p.positional, 0, r.items[..|p.positional|], s2);
            AndThen(m, MatchSubs(w, p.kwdPatterns, 0, r.items[|p.positional|..], m.s))
  }

  // Sub-patterns i.. against their subjects, left to right, all must match.
  function MatchSubs(w: World, ps: seq<Pattern>, i: nat, vs: seq<Value>, s: State): MatchResult
    requires i <= |ps| == |vs|
    decreases ps, |ps| - i
  {
    if i == |ps| then Matched(map[], s)
    else
      var m := Match(w, ps[i], vs[i], s);
      AndThen(m, MatchSubs(w, ps, i + 1, vs, m.s))
  }

  // The first of alternatives i.. that matches.
  function MatchFirst(w: World, alts: seq<Pattern>, i: nat, v: Value, s: State): MatchResult
    requires i <= |alts|
    decreases alts, |alts| - i
  {
    if i == |alts| then NoMatch(s)
    else
      match Match(w, alts[i], v, s)
      case NoMatch(s1) => MatchFirst(w, alts, i + 1, v, s1)
      case other => other
  }

  datatype KeysResult = Keys(values: seq<Value>, s: State) | KeysRaised(s: State)

  function EvalKeys(w: World, keys: seq<Expr>, i: nat, s: State): (r: KeysResult)
    requires i <= |keys|
    ensures r.Keys? ==> |r.values| == |keys| - i
    decreases |keys| - i
  {
    if i == |keys| then Keys([], s)
    else
      match Eval(w, keys[i], s)
      case Exc(s1) => KeysRaised(s1)
      case Val(k, s1) =>
        match EvalKeys(w, keys, i + 1, s1)
        case Keys(ks, s2) => Keys([k] + ks, s2)
        case other => other
  }

  function Names(attrs: seq<string>): (r: seq<Value>)
    ensures |r| == |attrs|
  {
    seq(|attrs|, i requires 0 <= i < |attrs| => Str(attrs[i]))
  }

  // ----- mapping keys -----

  predicate IsUSubConstant(e: Expr) { e.UnaryOp? && e.uop == USub && e.operand.Constant? }

  predicate IsValidMappingPatternKey(e: Expr) {
    match e
    case Constant(_) => true
    case Attribute(_, _) => true
    case UnaryOp(_, _) => IsUSubConstant(e)
    case BinOp(l, op, r) => (op == AddOp || op == SubOp) && (l.Constant? || IsUSubConstant(l)) && r.Constant?
    case _ => false
  }

  function NumericValue(v: Value): Option<int> {
    match v
    case Bool(b) => Some(if b then 1 else 0)
    case Int(n) => Some(n)
    case _ => None
  }

  function NegateConst(v: Value): Value {
    match NumericValue(v)
    case Some(n) => Int(-n)
    case None => v
  }

  function AddConst(a: Value, b: Value): Value {
    if NumericValue(a).Some? && NumericValue(b).Some? then Int(NumericValue(a).value + NumericValue(b).value) else a
  }

  // The constant a valid key folds to, if it folds at all.
  function FoldedKey(e: Expr): Option<Value> {
    match e
    case Constant(v) => Some(v)
    case UnaryOp(_, x) => if IsUSubConstant(e) then Some(NegateConst(x.v)) else None
    case BinOp(l, op, r) =>
      if !IsValidMappingPatternKey(e) then None
      else
        var lv := if l.Constant? then l.v else NegateConst(l.operand.v);
        Some(AddConst(lv, if op == SubOp then NegateConst(r.v) else r.v))
    case _ => None
  }

  // Constants that compare equal share a bucket: True and 1, say.
  datatype Bucket = NoneBucket | NumberBucket(n: int) | TextBucket(chars: string)

  function KeyBucket(e: Expr): Option<Bucket> {
    match FoldedKey(e)
    case None => None
    case Some(NoneValue) => Some(NoneBucket)
    case Some(Str(x)) => Some(TextBucket(x))
    case Some(v) =>
      match NumericValue(v)
      case Some(n) => Some(NumberBucket(n))
      case None => None
  }

  // ----- emitted code -----

  datatype PatternContext = PatternContext(stores: seq<string>, allowIrrefutable: bool, failPop: seq<Label>, onTop: nat)

  datatype Gen = Rejected | Emitted(code: Code, pc: PatternContext)

  // Make failPop[n] exist, with fresh labels.
  function EnsureFailPop(c: Code, pc: PatternContext, n: nat): (r: (Code, PatternContext))
    ensures n < |r.1.failPop|
    ensures r.1 == pc.(failPop := r.1.failPop)
    ensures r.0.instrs == c.instrs && r.0.labels == c.labels
    decreases n + 1 - |pc.failPop|
  {
    if n < |pc.failPop| then (c, pc)
    else EnsureFailPop(Fresh(c), pc.(failPop := pc.failPop + [c.next]), n)
  }

  // A jump to the block that pops everything the case has pushed so far.
  function JumpToFailPop(c: Code, pc: PatternContext, always: bool): (r: (Code, PatternContext))
    ensures r.1 == pc.(failPop := r.1.failPop)
  {
    var pops := pc.onTop + |pc.stores|;
    var (c1, pc1) := EnsureFailPop(c, pc, pops);
    var l := pc1.failPop[pops];
    (AddAll(c1, [if always then Jump(l) else PopJumpIfFalse(l)]), pc1)
  }

  // failPop[i] .. failPop[0]: each block pops one item and falls into the next.
  function Ladder(c: Code, failPop: seq<Label>, i: nat): Code
    requires i < |failPop|
    decreases i
  {
    if i == 0 then Use(c, failPop[0])
    else Ladder(AddAll(Use(c, failPop[i]), [PopTop]), failPop, i - 1)
  }

  function EmitFailPop(c: Code, failPop: seq<Label>): Code {
    if failPop == [] then c else Ladder(c, failPop, |failPop| - 1)
  }

  // SWAP n, SWAP n-1 .. SWAP 2: the top item slides under the n-1 items below it.
  function RotateCode(n: nat): (r: seq<Instr>)
    ensures |r| == if n == 0 then 0 else n - 1
  {
    if n <= 1 then [] else [Swap(n)] + RotateCode(n - 1)
  }

  function StoreCapture(name: Option<string>, c: Code, pc: PatternContext): (r: Gen)
    ensures r.Emitted? ==> r.pc == pc.(stores := r.pc.stores)
  {
    if name.None? then Emitted(AddAll(c, [PopTop]), pc)
    else if name.value in pc.stores then Rejected
    else Emitted(AddAll(c, RotateCode(pc.onTop + |pc.stores| + 1)), pc.(stores := pc.stores + [name.value]))
  }

  function GenPattern(p: Pattern, c: Code, pc: PatternContext): (r: Gen)
    ensures r.Emitted? ==> r.pc.onTop == pc.onTop && r.pc.allowIrrefutable == pc.allowIrrefutable
    decreases p, 2
  {
    match p
    case MatchValue(e) =>
      if !e.Constant? && !e.Attribute? then Rejected
      else
        (match GenExpr(e, c)
         case None => Rejected
         case Some(c1) =>
           var (c2, pc2) := JumpToFailPop(AddAll(c1, [CompareOp(CMP_EQ), ToBool]), pc, false);
           Emitted(c2, pc2))
    case MatchSingleton(k) =>
      var (c1, pc1) := JumpToFailPop(AddAll(c, [LoadConst(k), IsOp(0)]), pc, false);
      Emitted(c1, pc1)
    case MatchSequence(ps) => GenSequence(ps, c, pc)
    case MatchMapping(keys, values, rest) => GenMapping(p, c, pc)
    case MatchClass(cls, ps, attrs, kwds) => GenClass(p, c, pc)
    case MatchStar(name) => StoreCapture(name, c, pc)
    case MatchAs(sub, name) =>
      if sub.None? then
        if pc.allowIrrefutable then StoreCapture(name, c, pc) else Rejected
      else
        (match GenPattern(sub.value, AddAll(c, [Copy(1)]), pc.(onTop := pc.onTop + 1))
         case Rejected => Rejected
         case Emitted(c1, pc1) => StoreCapture(name, c1, pc1.(onTop := pc1.onTop - 1)))
    case MatchOr(alts) => GenOr(alts, c, pc)
  }

  function GenSubpattern(p: Pattern, c: Code, pc: PatternContext): (r: Gen)
    ensures r.Emitted? ==> r.pc.onTop == pc.onTop && r.pc.allowIrrefutable == pc.allowIrrefutable
    decreases p, 3
  {
    match GenPattern(p, c, pc.(allowIrrefutable := true))
    case Rejected => Rejected
    case Emitted(c1, pc1) => Emitted(c1, pc1.(allowIrrefutable := pc.allowIrrefutable))
  }

  // Sub-patterns i.., whose subjects are the top |ps| - i stack items.
  function GenSubs(ps: seq<Pattern>, i: nat, c: Code, pc: PatternContext): (r: Gen)
    requires i <= |ps| && pc.onTop >= |ps| - i
    ensures r.Emitted? ==> r.pc.onTop == pc.onTop - (|ps| - i) && r.pc.allowIrrefutable == pc.allowIrrefutable
    decreases ps, |ps| - i
  {
    if i == |ps| then Emitted(c, pc)
    else
      match GenSubpattern(ps[i], c, pc.(onTop := pc.onTop - 1))
      case Rejected => Rejected
      case Emitted(c1, pc1) => GenSubs(ps, i + 1, c1, pc1)
  }

  // ----- sequences -----

  // The type and length checks; the subject stays on the stack.
  function GenSequenceGates(star: int, n: nat, c: Code, pc: PatternContext): (r: (Code, PatternContext))
    ensures r.1 == pc.(failPop := r.1.failPop)
  {
    var (c1, pc1) := JumpToFailPop(AddAll(c, [MatchSequenceOp]), pc, false);
    if star < 0 then JumpToFailPop(AddAll(c1, [GetLen, LoadConst(Int(n)), CompareOp(CMP_EQ), ToBool]), pc1, false)
    else if n > 1 then JumpToFailPop(AddAll(c1, [GetLen, LoadConst(Int(n - 1)), CompareOp(CMP_GTE), ToBool]), pc1, false)
    else (c1, pc1)
  }

  function UnpackCode(star: int, n: nat): Instr
    requires star < n
  {
    if star < 0 then UnpackSequence(n) else UnpackEx(star + (n - star - 1) * 256)
  }

  function GenSequence(ps: seq<Pattern>, c: Code, pc: PatternContext): (r: Gen)
    ensures r.Emitted? ==> r.pc.onTop == pc.onTop && r.pc.allowIrrefutable == pc.allowIrrefutable
    decreases ps, |ps| + 2
  {
    var star, n := StarFrom(ps, 0), |ps|;
    if star >= 0 && StarFrom(ps, star + 1) >= 0 then Rejected
    else
      var (c1, pc1) := GenSequenceGates(star, n, c, pc.(onTop := pc.onTop + 1));
      GenSequenceBody(ps, star, c1, pc1.(onTop := pc1.onTop - 1))
  }

  // Past the gates: take the items apart and match them.
  function GenSequenceBody(ps: seq<Pattern>, star: int, c: Code, pc: PatternContext): (r: Gen)
    requires star < |ps|
    ensures r.Emitted? ==> r.pc.onTop == pc.onTop && r.pc.allowIrrefutable == pc.allowIrrefutable
    decreases ps, |ps| + 1
  {
    if AllWild(ps) then Emitted(AddAll(c, [PopTop]), pc)
    else if star >= 0 && IsWildcardStar(ps[star]) then
      (match GenItems(ps, 0, star, c, pc.(onTop := pc.onTop + 1))
       case Rejected => Rejected
       case Emitted(c1, pc1) => Emitted(AddAll(c1, [PopTop]), pc1.(onTop := pc1.onTop - 1)))
    else GenSubs(ps, 0, AddAll(c, [UnpackCode(star, |ps|)]), pc.(onTop := pc.onTop + |ps|))
  }

  // Code that pushes the item for sub-pattern i, counted from the front
  // before the star and from the back after it.
  function ItemCode(n: nat, i: nat, star: int): seq<Instr>
    requires i < n
  {
    if i < star || star < 0 then [Copy(1), LoadConst(Int(i)), BinaryOp(NB_SUBSCR)]
    else [Copy(1), GetLen, LoadConst(Int(n - i)), BinaryOp(NB_SUBTRACT), BinaryOp(NB_SUBSCR)]
  }

  // The indexing strategy for a wildcard star: the subject stays on top.
  function GenItems(ps: seq<Pattern>, i: nat, star: int, c: Code, pc: PatternContext): (r: Gen)
    requires i <= |ps|
    ensures r.Emitted? ==> r.pc.onTop == pc.onTop && r.pc.allowIrrefutable == pc.allowIrrefutable
    decreases ps, |ps| - i
  {
    if i == |ps| then Emitted(c, pc)
    else if IsWildcard(ps[i]) || i == star then GenItems(ps, i + 1, star, c, pc)
    else
      match GenSubpattern(ps[i], AddAll(c, ItemCode(|ps|, i, star)), pc)
      case Rejected => Rejected
      case Emitted(c1, pc1) => GenItems(ps, i + 1, star, c1, pc1)
  }

  // ----- mappings -----

  function GenKeys(keys: seq<Expr>, i: nat, seen: set<Bucket>, c: Code): Option<Code>
    requires i <= |keys|
    decreases |keys| - i
  {
    if i == |keys| then Some(c)
    else if !IsValidMappingPatternKey(keys[i]) then None
    else if KeyBucket(keys[i]).Some? && KeyBucket(keys[i]).value in seen then None
    else
      match GenExpr(keys[i], c)
      case None => None
      case Some(c1) =>
        GenKeys(keys, i + 1, if KeyBucket(keys[i]).Some? then seen + {KeyBucket(keys[i]).value} else seen, c1)
  }

  function GenMappingGates(n: nat, c: Code, pc: PatternContext): (r: (Code, PatternContext))
    ensures r.1 == pc.(failPop := r.1.failPop)
  {
    if n == 0 then (c, pc)
    else JumpToFailPop(AddAll(c, [GetLen, LoadConst(Int(n)), CompareOp(CMP_GTE), ToBool]), pc, false)
  }

  // Delete n keys, which lie above the dictionary copy, from it.
  function DeleteKeysCode(n: nat): seq<Instr> {
    if n == 0 then [] else [Copy(1 + n), Swap(2), DeleteSubscr] + DeleteKeysCode(n - 1)
  }

  function RestCode(n: nat): seq<Instr> {
    [BuildMap(0), Swap(3), DictUpdate(2), UnpackSequence(n)] + DeleteKeysCode(n)
  }

  const NOT_NONE_TEST: seq<Instr> := [Copy(1), LoadConst(NoneValue), IsOp(1)]

  // The size check, the keys and their lookup; the values come out on top.
  function GenMappingLookup(keys: seq<Expr>, c: Code, pc: PatternContext): (r: Gen)
    ensures r.Emitted? ==> r.pc == pc.(onTop := pc.onTop + 2, failPop := r.pc.failPop)
  {
    var n := |keys|;
    var (c2, pc2) := GenMappingGates(n, c, pc);
    match GenKeys(keys, 0, {}, c2)
    case None => Rejected
    case Some(c3) =>
      var (c4, pc4) := JumpToFailPop(AddAll(c3, [BuildTuple(n), MatchKeysOp] + NOT_NONE_TEST), pc2.(onTop := pc2.onTop + 2), false);
      Emitted(c4, pc4)
  }

  function GenMapping(p: Pattern, c: Code, pc: PatternContext): (r: Gen)
    requires p.MatchMapping?
    ensures r.Emitted? ==> r.pc.onTop == pc.onTop && r.pc.allowIrrefutable == pc.allowIrrefutable
    decreases p, 1
  {
    var n := |p.keys|;
    if n != |p.values| then Rejected
    else
      var (c1, pc1) := JumpToFailPop(AddAll(c, [MatchMappingOp]), pc.(onTop := pc.onTop + 1), false);
      if n == 0 && p.rest.None? then Emitted(AddAll(c1, [PopTop]), pc1.(onTop := pc1.onTop - 1))
      else
        match GenMappingLookup(p.keys, c1, pc1)
        case Rejected => Rejected
        case Emitted(c4, pc4) =>
          GenMappingValues(p, c4, pc4)
  }

  // The values tuple, the keys tuple and the subject are on top.
  function GenMappingValues(p: Pattern, c: Code, pc: PatternContext): (r: Gen)
    requires p.MatchMapping? && |p.values| == |p.keys| && 3 <= pc.onTop
    ensures r.Emitted? ==> r.pc.onTop == pc.onTop - 3 && r.pc.allowIrrefutable == pc.allowIrrefutable
    decreases p, 0
  {
    var n := |p.keys|;
    match GenSubs(p.values, 0, AddAll(c, [UnpackSequence(n)]), pc.(onTop := pc.onTop + n - 1))
    case Rejected => Rejected
    case Emitted(c1, pc1) => GenMappingRest(n, p.rest, c1, pc1.(onTop := pc1.onTop - 2))
  }

  // The keys tuple and the subject are on top.
  function GenMappingRest(n: nat, rest: Option<string>, c: Code, pc: PatternContext): (r: Gen)
    ensures r.Emitted? ==> r.pc == pc.(stores := r.pc.stores)
  {
    if rest.Some? then StoreCapture(rest, AddAll(c, RestCode(n)), pc)
    else Emitted(AddAll(c, [PopTop, PopTop]), pc)
  }

  // ----- classes -----

  predicate HasRepeat(attrs: seq<string>) {
    exists i, j :: 0 <= i < j < |attrs| && attrs[i] == attrs[j]
  }

  function ConstCode(vs: seq<Value>): (r: seq<Instr>)
    ensures |r| == |vs|
    ensures forall k :: 0 <= k < |r| ==> r[k] == LoadConst(vs[k])
  {
    seq(|vs|, i requires 0 <= i < |vs| => LoadConst(vs[i]))
  }

  // As GenSubs, but a wildcard is popped on the spot.
  function GenArgs(ps: seq<Pattern>, i: nat, c: Code, pc: PatternContext): (r: Gen)
    requires i <= |ps| && pc.onTop >= |ps| - i
    ensures r.Emitted? ==> r.pc.onTop == pc.onTop - (|ps| - i) && r.pc.allowIrrefutable == pc.allowIrrefutable
    decreases ps, |ps| - i
  {
    if i == |ps| then Emitted(c, pc)
    else if IsWildcard(ps[i]) then GenArgs(ps, i + 1, AddAll(c, [PopTop]), pc.(onTop := pc.onTop - 1))
    else
      match GenSubpattern(ps[i], c, pc.(onTop := pc.onTop - 1))
      case Rejected => Rejected
      case Emitted(c1, pc1) => GenArgs(ps, i + 1, c1, pc1)
  }

  function GenClass(p: Pattern, c: Code, pc: PatternContext): (r: Gen)
    requires p.MatchClass?
    ensures r.Emitted? ==> r.pc.onTop == pc.onTop && r.pc.allowIrrefutable == pc.allowIrrefutable
    decreases p, 1
  {
    var nargs, nattrs := |p.positional|, |p.kwdAttrs|;
    if nargs + nattrs > 0x7fff_ffff || nattrs != |p.kwdPatterns| then Rejected
    else
      match GenExpr(p.cls, c)
      case None => Rejected
      case Some(c1) =>
        if HasRepeat(p.kwdAttrs) then Rejected
        else
          var (c2, pc2) := JumpToFailPop(AddAll(c1, ClassBlock(p)), pc.(onTop := pc.onTop + 1), false);
          GenClassArgs(p, c2, pc2)
  }

  // The tuple of attribute names, MATCH_CLASS, and the test of its answer.
  function ClassBlock(p: Pattern): seq<Instr>
    requires p.MatchClass?
  {
    ConstCode(Names(p.kwdAttrs)) + ([BuildTuple(|p.kwdAttrs|), MatchClassOp(|p.positional|)] + NOT_NONE_TEST)
  }

  // The attribute values come from a tuple on top.
  function GenClassArgs(p: Pattern, c: Code, pc: PatternContext): (r: Gen)
    requires p.MatchClass? && |p.kwdAttrs| == |p.kwdPatterns| && 1 <= pc.onTop
    ensures r.Emitted? ==> r.pc.onTop == pc.onTop - 1 && r.pc.allowIrrefutable == pc.allowIrrefutable
    decreases p, 0
  {
    var n := |p.positional| + |p.kwdAttrs|;
    match GenArgs(p.positional, 0, AddAll(c, [UnpackSequence(n)]), pc.(onTop := pc.onTop + n - 1))
    case Rejected => Rejected
    case Emitted(c1, pc1) => GenArgs(p.kwdPatterns, 0, c1, pc1)
  }

  // ----- alternatives -----

  function IndexOf(s: seq<string>, x: string, i: nat): (r: int)
    requires i <= |s|
    ensures r == -1 || (i <= r < |s| && s[r] == x)
    decreases |s| - i
  {
    if i == |s| then -1 else if s[i] == x then i else IndexOf(s, x, i + 1)
  }

  // The first k items of q move to just after index j - k: q[..k] ends at j.
  function Displace<T>(q: seq<T>, k: nat, j: nat): (r: seq<T>)
    requires k <= j < |q|
    ensures |r| == |q|
  {
    q[k .. j + 1] + q[..k] + q[j + 1 ..]
  }

  // RotateCode(n), k times over.
  function RepeatRotate(n: nat, k: nat): seq<Instr> {
    if k == 0 then [] else RotateCode(n) + RepeatRotate(n, k - 1)
  }

  // Bring stores into the order of control by settling control[j-1], ..,
  // control[0] from the back, with the rotations that do the same on the stack.
  function Reorder(stores: seq<string>, control: seq<string>, j: nat, c: Code): Option<Code>
    requires j <= |control| == |stores|
    decreases j
  {
    if j == 0 then Some(c)
    else
      var icontrol := j - 1;
      var istores := IndexOf(stores, control[icontrol], 0);
      if istores < 0 then None
      else if istores == icontrol then Reorder(stores, control, icontrol, c)
      // a name that sits above its slot would be a slice failure; see ReorderSettles
      else if istores > icontrol then None
      else
        Reorder(Displace(stores, istores + 1, icontrol), control, icontrol,
          AddAll(c, RepeatRotate(icontrol + 1, istores + 1)))
  }

  datatype Alternatives = AltsRejected | Alts(control: seq<string>, code: Code)

  // One alternative: match a copy of the subject, settle the captures in the
  // order of control, leave; a failure falls out of its own ladder.
  function GenAlternative(alt: Pattern, first: bool, allow: bool, control: seq<string>, end: Label, c: Code): Alternatives
    decreases alt, 3
  {
    match GenPattern(alt, AddAll(c, [Copy(1)]), PatternContext([], allow, [], 0))
    case Rejected => AltsRejected
    case Emitted(c1, pc1) =>
      match SettleCaptures(pc1.stores, first, control, c1)
      case AltsRejected => AltsRejected
      case Alts(control', c2) => Alts(control', EmitFailPop(AddAll(c2, [Jump(end)]), pc1.failPop))
  }

  // The first alternative fixes the order, the others follow it.
  function SettleCaptures(stores: seq<string>, first: bool, control: seq<string>, c: Code): Alternatives {
    if first then Alts(stores, c)
    else if |stores| != |control| then AltsRejected
    else
      match Reorder(stores, control, |control|, c)
      case None => AltsRejected
      case Some(c1) => Alts(control, c1)
  }

  // Alternatives i.. of an or-pattern; control holds the names of the first.
  function GenAlternatives(alts: seq<Pattern>, i: nat, control: seq<string>, end: Label, allow: bool, c: Code): Alternatives
    requires i <= |alts|
    decreases alts, |alts| - i
  {
    if i == |alts| then Alts(control, c)
    else
      match GenAlternative(alts[i], i == 0, i == |alts| - 1 && allow, control, end, c)
      case AltsRejected => AltsRejected
      case Alts(control', c1) => GenAlternatives(alts, i + 1, control', end, allow, c1)
  }

  // Sink the captures control[i..] one by one under everything else.
  function GenSink(control: seq<string>, i: nat, nrots: nat, c: Code, pc: PatternContext): (r: Gen)
    requires i <= |control|
    ensures r.Emitted? ==> r.pc == pc.(stores := r.pc.stores)
    decreases |control| - i
  {
    if i == |control| then Emitted(c, pc)
    else if control[i] in pc.stores then Rejected
    else GenSink(control, i + 1, nrots, AddAll(c, RotateCode(nrots)), pc.(stores := pc.stores + [control[i]]))
  }

  function GenOr(alts: seq<Pattern>, c: Code, pc: PatternContext): (r: Gen)
    ensures r.Emitted? ==> r.pc.onTop == pc.onTop && r.pc.allowIrrefutable == pc.allowIrrefutable
    decreases alts, |alts| + 1
  {
    if |alts| < 2 then Rejected
    else
      match GenAlternatives(alts, 0, [], c.next, pc.allowIrrefutable, Fresh(c))
      case AltsRejected => Rejected
      case Alts(control, c1) =>
        var (c2, pc2) := JumpToFailPop(AddAll(c1, [PopTop]), pc, true);
        match GenSink(control, 0, |control| + 1 + pc2.onTop + |pc2.stores|, Use(c2, c.next), pc2)
        case Rejected => Rejected
        case Emitted(c3, pc3) => Emitted(AddAll(c3, [PopTop]), pc3)
  }
}
