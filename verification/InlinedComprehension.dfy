// Comprehensions compiled into the enclosing code object (PEP 709).  The names
// a comprehension binds are saved on the stack and cleared before its body and
// restored after it, on the normal and on the exceptional exit.
//
// The machine here has named fast locals whose slots may be empty, cells, and
// a block stack for the one virtual try/finally.  The body of the
// comprehension is arbitrary: it consumes the iterable on top of the stack and
// may change every local and every cell.
module InlinedComprehension {
  import opened Machine

  datatype Content = Plain(id: int) | CellRef(addr: nat)
  datatype Slot = Null | Has(v: Content)

  datatype Scope = UnknownScope | LocalScope | CellScope | FreeScope | GlobalScope
  datatype Symbol = Symbol(defLocal: bool, defNonlocal: bool, scope: Scope)
  // A symbol of the comprehension, with the scope of its name outside.
  datatype Bound = Bound(name: string, symbol: Symbol, outside: Scope)

  // ----- emitted code -----

  predicate IsPushed(b: Bound, inClassBlock: bool) {
    (b.symbol.defLocal && !b.symbol.defNonlocal) || inClassBlock
  }

  function SaveOne(b: Bound): seq<Instr> {
    [LoadFastAndClear(b.name)]
    + if b.symbol.scope == CellScope then [MakeCell(b.name, if b.outside == FreeScope then FreeVars else CellVars)] else []
  }

  // The bound names that are saved, in order.
  function Saved(bounds: seq<Bound>, inClassBlock: bool): seq<Bound> {
    if bounds == [] then []
    else
      var front, last := Saved(bounds[..|bounds| - 1], inClassBlock), bounds[|bounds| - 1];
      if IsPushed(last, inClassBlock) then front + [last] else front
  }

  function Names(saved: seq<Bound>): (r: seq<string>)
    ensures |r| == |saved|
  {
    seq(|saved|, i requires 0 <= i < |saved| => saved[i].name)
  }

  function SaveCode(saved: seq<Bound>): seq<Instr> {
    if saved == [] then [] else SaveCode(saved[..|saved| - 1]) + SaveOne(saved[|saved| - 1])
  }

  // STORE_FAST_MAYBE_NULL of names[n-1], .., names[0].
  function StoreCode(names: seq<string>, n: nat): (r: seq<Instr>)
    requires n <= |names|
    ensures |r| == n
  {
    if n == 0 then [] else [StoreFastMaybeNull(names[n - 1])] + StoreCode(names, n - 1)
  }

  function RestoreCode(names: seq<string>): seq<Instr> {
    [Swap(|names| + 1)] + StoreCode(names, |names|)
  }

  function CleanupCode(names: seq<string>): seq<Instr> {
    [Swap(2), PopTop] + RestoreCode(names) + [Reraise]
  }

  function EnterCode(saved: seq<Bound>, cleanup: Label): seq<Instr> {
    SaveCode(saved) + if saved == [] then [] else [Swap(|saved| + 1), SetupFinally(cleanup)]
  }

  function Enter(saved: seq<Bound>, c: Code): Code {
    if saved == [] then c else AddAll(c, EnterCode(saved, c.next)).(next := c.next + 1)
  }

  function Leave(saved: seq<Bound>, cleanup: Label, c: Code): Code {
    if saved == [] then c
    else
      var end := c.next;
      var c1 := Use(AddAll(c, [PopBlock, JumpNoInterrupt(end)]).(next := end + 1), cleanup);
      var c2 := AddAll(c1, CleanupCode(Names(saved)));
      AddAll(Use(c2, end), RestoreCode(Names(saved)))
  }

  // The whole comprehension.
  function Inlined(saved: seq<Bound>, c: Code): Code {
    Leave(saved, c.next, AddAll(Enter(saved, c), [CompBody]))
  }

  lemma {:induction false} SavedNext(bounds: seq<Bound>, i: nat, inClassBlock: bool)
    requires i < |bounds|
    ensures var s, b := Saved(bounds[..i], inClassBlock), bounds[i];
            && Saved(bounds[..i + 1], inClassBlock) == (if IsPushed(b, inClassBlock) then s + [b] else s)
            && Names(s + [b]) == Names(s) + [b.name] && SaveCode(s + [b]) == SaveCode(s) + SaveOne(b)
    ensures i == 0 ==> Saved(bounds[..i], inClassBlock) == []
  {
    var s, b := Saved(bounds[..i], inClassBlock), bounds[i];
    assert bounds[..i + 1][..i] == bounds[..i] && bounds[..i + 1][i] == b;
    assert (s + [b])[..|s|] == s;
  }

  lemma NoNames(saved: seq<Bound>)
    ensures Names(saved) == [] <==> saved == []
    ensures Saved([], true) == Saved([], false) == [] && SaveCode([]) == [] && Names([]) == []
  {
  }

  // ----- the code generator -----

  class InlinedState {
    var pushedLocals: seq<string>
    var cleanup: Label

    constructor ()
      ensures pushedLocals == []
    {
      pushedLocals, cleanup := [], 0;
    }
  }

  class Emitter {
    var instrs: seq<Instr>
    var labels: map<Label, nat>
    var nextFreeLabel: Label

    constructor ()
      ensures Contents() == Code([], map[], 0)
    {
      instrs, labels, nextFreeLabel := [], map[], 0;
    }

    function Contents(): Code
      reads this
    {
      Code(instrs, labels, nextFreeLabel)
    }

    method AddOp(i: Instr)
      modifies this
      ensures Contents() == AddAll(old(Contents()), [i])
    {
      instrs := instrs + [i];
    }

    method PushInlinedComprehensionLocals(bounds: seq<Bound>, inClassBlock: bool, state: InlinedState)
      requires state.pushedLocals == []
      modifies this, state
      ensures state.pushedLocals == Names(Saved(bounds, inClassBlock))
      ensures Contents() == Enter(Saved(bounds, inClassBlock), old(Contents()))
      ensures state.pushedLocals != [] ==> state.cleanup == old(nextFreeLabel)
    {
      hide SaveOne, Saved, SaveCode, Names;
      ghost var before := Contents();
      assert bounds[..0] == [];
      NoNames([]);
      for i := 0 to |bounds|
        invariant state.pushedLocals == Names(Saved(bounds[..i], inClassBlock))
        invariant Contents() == AddAll(before, SaveCode(Saved(bounds[..i], inClassBlock)))
      {
        var symbol := bounds[i].symbol;
        ghost var soFar := Contents();
        SavedNext(bounds, i, inClassBlock);
        if (symbol.defLocal && !symbol.defNonlocal) || inClassBlock {
          SaveName(bounds[i]);
          state.pushedLocals := state.pushedLocals + [bounds[i].name];
          assert soFar.instrs + SaveOne(bounds[i]) == before.instrs + (SaveCode(Saved(bounds[..i], inClassBlock)) + SaveOne(bounds[i]));
        }
      }
      assert bounds[..|bounds|] == bounds;
      NoNames(Saved(bounds, inClassBlock));
      if |state.pushedLocals| > 0 {
        AddOp(Swap(|state.pushedLocals| + 1));
        state.cleanup := nextFreeLabel;
        nextFreeLabel := nextFreeLabel + 1;
        AddOp(SetupFinally(state.cleanup));
      }
    }

    // The value, which may be missing, goes on the stack; for a cell that is
    // the cell itself, and a fresh one takes its place.
    method SaveName(b: Bound)
      modifies this
      ensures Contents() == AddAll(old(Contents()), SaveOne(b))
    {
      AddOp(LoadFastAndClear(b.name));
      if b.symbol.scope == CellScope {
        if b.outside == FreeScope {
          AddOp(MakeCell(b.name, FreeVars));
        } else {
          AddOp(MakeCell(b.name, CellVars));
        }
      }
    }

    method PopInlinedComprehensionLocals(state: InlinedState, ghost saved: seq<Bound>)
      requires state.pushedLocals == Names(saved)
      modifies this
      ensures Contents() == Leave(saved, state.cleanup, old(Contents()))
    {
      hide RestoreCode, Names, SaveCode;
      NoNames(saved);
      if |state.pushedLocals| == 0 { return; }
      AddOp(PopBlock);
      var end := nextFreeLabel;
      nextFreeLabel := nextFreeLabel + 1;
      AddOp(JumpNoInterrupt(end));
      labels := labels[state.cleanup := |instrs|];
      ghost var c1 := Contents();
      AddOp(Swap(2));
      AddOp(PopTop);
      RestoreInlinedComprehensionLocals(state.pushedLocals);
      AddOp(Reraise);
      assert Contents() == AddAll(c1, CleanupCode(Names(saved)));
      labels := labels[end := |instrs|];
      RestoreInlinedComprehensionLocals(state.pushedLocals);
    }

    method RestoreInlinedComprehensionLocals(pushedLocals: seq<string>)
      modifies this
      ensures Contents() == AddAll(old(Contents()), RestoreCode(pushedLocals))
    {
      var i: nat := |pushedLocals|;
      AddOp(Swap(i + 1));
      while i > 0
        invariant i <= |pushedLocals|
        invariant instrs + StoreCode(pushedLocals, i) == old(instrs) + RestoreCode(pushedLocals)
        invariant labels == old(labels) && nextFreeLabel == old(nextFreeLabel)
      {
        ghost var was, rest := instrs, StoreCode(pushedLocals, i - 1);
        i := i - 1;
        AddOp(StoreFastMaybeNull(pushedLocals[i]));
        assert was + ([StoreFastMaybeNull(pushedLocals[i])] + rest) == instrs + rest;
      }
      assert instrs + [] == instrs;
    }
  }

  // ----- the machine -----

  // The top of the stack is at index 0.  cells is what the cells hold.
  datatype Frame = Frame(stack: seq<Slot>, locals: map<string, Slot>, cells: seq<Slot>)

  datatype BodyResult =
    | Finishes(result: Slot, locals: map<string, Slot>, cells: seq<Slot>)
    | Fails(exc: Slot, partial: Slot, locals: map<string, Slot>, cells: seq<Slot>)

  // The body sees the iterable, the locals and the cells.
  type Body = (Slot, map<string, Slot>, seq<Slot>) -> BodyResult

  // An active try: where it goes and how much of the stack it keeps.
  datatype Block = Block(handler: Label, depth: nat)

  datatype Point =
    | Running(pc: nat, f: Frame, blocks: seq<Block>)
    | Unwound(exc: Slot, f: Frame)          // left the code with an exception
    | Broken

  function Local(locals: map<string, Slot>, name: string): Slot { if name in locals then locals[name] else Null }

  function Raise(c: Code, exc: Slot, f: Frame, blocks: seq<Block>): Point {
    if blocks == [] then Unwound(exc, f)
    else
      var b := blocks[0];
      if b.depth <= |f.stack| && b.handler in c.labels then
        Running(c.labels[b.handler], f.(stack := [exc] + f.stack[|f.stack| - b.depth ..]), blocks[1..])
      else Broken
  }

  function Step(c: Code, body: Body, k: Point): Point {
    if !k.Running? then k
    else if k.pc >= |c.instrs| then Broken
    else
      var f, st := k.f, k.f.stack;
      match c.instrs[k.pc]
      case LoadFastAndClear(x) =>
        Running(k.pc + 1, f.(stack := [Local(f.locals, x)] + st, locals := f.locals[x := Null]), k.blocks)
      case MakeCell(x, _) =>
        Running(k.pc + 1, f.(cells := f.cells + [Local(f.locals, x)], locals := f.locals[x := Has(CellRef(|f.cells|))]), k.blocks)
      case StoreFastMaybeNull(x) =>
        if st == [] then Broken else Running(k.pc + 1, f.(stack := st[1..], locals := f.locals[x := st[0]]), k.blocks)
      case Swap(n) =>
        if 1 <= n <= |st| then Running(k.pc + 1, f.(stack := st[0 := st[n - 1]][n - 1 := st[0]]), k.blocks) else Broken
      case PopTop => if st == [] then Broken else Running(k.pc + 1, f.(stack := st[1..]), k.blocks)
      case SetupFinally(l) => Running(k.pc + 1, f, [Block(l, |st|)] + k.blocks)
      case PopBlock => if k.blocks == [] then Broken else Running(k.pc + 1, f, k.blocks[1..])
      case JumpNoInterrupt(l) => if l in c.labels then Running(c.labels[l], f, k.blocks) else Broken
      case Reraise => if st == [] then Broken else Raise(c, st[0], f.(stack := st[1..]), k.blocks)
      case CompBody =>
        if st == [] then Broken
        else
          (match body(st[0], f.locals, f.cells)
           case Finishes(v, locals, cells) => Running(k.pc + 1, Frame([v] + st[1..], locals, cells), k.blocks)
           case Fails(exc, partial, locals, cells) => Raise(c, exc, Frame([partial] + st[1..], locals, cells), k.blocks))
      case _ => Broken          // never emitted here
  }

  function Steps(c: Code, body: Body, k: Point, n: nat): Point {
    if n == 0 then k else Step(c, body, Steps(c, body, k, n - 1))
  }

  ghost predicate Reaches(c: Code, body: Body, a: Point, b: Point) {
    exists n: nat :: Steps(c, body, a, n) == b
  }

  lemma {:induction false} StepFrom(c: Code, body: Body, a: Point, b: Point)
    requires Reaches(c, body, a, b)
    ensures Reaches(c, body, a, Step(c, body, b))
  {
    var n: nat :| Steps(c, body, a, n) == b;
    assert Steps(c, body, a, n + 1) == Step(c, body, b);
  }

  lemma {:induction false} AtHead(c: Code, pc: nat, i: Instr, rest: seq<Instr>)
    requires At(c, pc, [i] + rest)
    ensures pc < |c.instrs| && c.instrs[pc] == i && At(c, pc + 1, rest)
  {
    AtSplit(c, pc, [i], rest);
    AtOne(c, pc, [i], 0);
  }

  lemma Exchanged(x: Slot, ys: seq<Slot>, y: Slot, rest: seq<Slot>)
    ensures var st := [x] + ys + [y] + rest;
            st[0] == x && st[|ys| + 1] == y && st[0 := y][|ys| + 1 := x] == [y] + ys + [x] + rest
  {
    var st := [x] + ys + [y] + rest;
    assert st[0 := y][|ys| + 1 := x] == [y] + ys + [x] + rest;
  }

  lemma {:induction false} SwapRun(c: Code, body: Body, a: Point, pc: nat, x: Slot, ys: seq<Slot>, y: Slot, rest: seq<Slot>, f: Frame, blocks: seq<Block>)
    requires pc < |c.instrs| && c.instrs[pc] == Swap(|ys| + 2) && f.stack == [x] + ys + [y] + rest
    requires Reaches(c, body, a, Running(pc, f, blocks))
    ensures Reaches(c, body, a, Running(pc + 1, f.(stack := [y] + ys + [x] + rest), blocks))
  {
    hide Reaches;
    Exchanged(x, ys, y, rest);
    StepFrom(c, body, a, Running(pc, f, blocks));
  }

  lemma {:induction false} PopRun(c: Code, body: Body, a: Point, pc: nat, x: Slot, rest: seq<Slot>, f: Frame, blocks: seq<Block>)
    requires pc < |c.instrs| && c.instrs[pc] == PopTop && f.stack == [x] + rest
    requires Reaches(c, body, a, Running(pc, f, blocks))
    ensures Reaches(c, body, a, Running(pc + 1, f.(stack := rest), blocks))
  {
    hide Steps, Reaches;
    assert f.stack[1..] == rest;
    StepFrom(c, body, a, Running(pc, f, blocks));
  }

  // The last slot moves from the top to the bottom, and x takes its place.
  lemma Rotated(x: Slot, slots: seq<Slot>, rest: seq<Slot>)
    requires 0 < |slots|
    ensures slots + ([x] + rest) == [slots[0]] + slots[1..] + [x] + rest
    ensures [x] + slots[1..] + [slots[0]] + rest == [x] + (slots[1..] + [slots[0]] + rest)
  {
  }

  // ----- saving -----

  // Locals and cells once the names are cleared, and the saved slots with the
  // last one first.
  datatype Cleared = Cleared(locals: map<string, Slot>, cells: seq<Slot>, slots: seq<Slot>)

  function Clear(saved: seq<Bound>, locals: map<string, Slot>, cells: seq<Slot>): (r: Cleared)
    ensures |r.slots| == |saved|
  {
    if saved == [] then Cleared(locals, cells, [])
    else
      var r, b := Clear(saved[..|saved| - 1], locals, cells), saved[|saved| - 1];
      var slots := [Local(r.locals, b.name)] + r.slots;
      if b.symbol.scope == CellScope then
        Cleared(r.locals[b.name := Has(CellRef(|r.cells|))], r.cells + [Null], slots)
      else Cleared(r.locals[b.name := Null], r.cells, slots)
  }

  // A cell that was not there before and holds nothing.
  predicate IsFreshCell(slot: Slot, before: seq<Slot>, cells: seq<Slot>) {
    slot.Has? && slot.v.CellRef? && |before| <= slot.v.addr < |cells| && cells[slot.v.addr] == Null
  }

  // Every name x in the list is a cell of the comprehension, or none is.
  ghost predicate OnlyCells(bounds: seq<Bound>, x: string) {
    forall i :: 0 <= i < |bounds| && bounds[i].name == x ==> bounds[i].symbol.scope == CellScope
  }

  ghost predicate NoCells(bounds: seq<Bound>, x: string) {
    forall i :: 0 <= i < |bounds| && bounds[i].name == x ==> bounds[i].symbol.scope != CellScope
  }

  // The comprehension starts with its names unset, in fresh cells where it
  // needs cells; no other local and no existing cell is touched.
  lemma {:induction false} ClearIsolates(saved: seq<Bound>, locals: map<string, Slot>, cells: seq<Slot>)
    ensures var r := Clear(saved, locals, cells);
            && cells <= r.cells
            && (forall x :: x !in Names(saved) ==> Local(r.locals, x) == Local(locals, x))
            && (forall x :: x in Names(saved) ==> Local(r.locals, x) == Null || IsFreshCell(Local(r.locals, x), cells, r.cells))
            && (forall x :: x in Names(saved) && OnlyCells(saved, x) ==> IsFreshCell(Local(r.locals, x), cells, r.cells))
            && (forall x :: x in Names(saved) && NoCells(saved, x) ==> Local(r.locals, x) == Null)
    decreases |saved|
  {
    if saved != [] {
      var front, b := saved[..|saved| - 1], saved[|saved| - 1];
      ClearIsolates(front, locals, cells);
      assert Names(saved) == Names(front) + [b.name];
      assert forall x :: OnlyCells(saved, x) ==> OnlyCells(front, x);
      assert forall x :: NoCells(saved, x) ==> NoCells(front, x);
      assert saved[|saved| - 1].name == b.name;
    }
  }

  // A fresh cell goes where the enclosing function keeps the name: among its
  // free variables exactly if the name is free there.
  lemma {:induction false} CellsInTheirPool(saved: seq<Bound>, k: nat)
    requires k < |SaveCode(saved)| && SaveCode(saved)[k].MakeCell?
    ensures var made := SaveCode(saved)[k];
            exists i :: 0 <= i < |saved| && saved[i].name == made.name && saved[i].symbol.scope == CellScope
                        && (made.pool == FreeVars <==> saved[i].outside == FreeScope)
    decreases |saved|
  {
    var front, b := saved[..|saved| - 1], saved[|saved| - 1];
    if k < |SaveCode(front)| {
      CellsInTheirPool(front, k);
      var i :| 0 <= i < |front| && front[i].name == SaveCode(front)[k].name && front[i].symbol.scope == CellScope
               && (SaveCode(front)[k].pool == FreeVars <==> front[i].outside == FreeScope);
      assert saved[i] == front[i];
    } else {
      assert SaveCode(saved)[k] == SaveOne(b)[k - |SaveCode(front)|];
      assert saved[|saved| - 1].name == SaveCode(saved)[k].name;
    }
  }

  lemma {:induction false} SaveRun(c: Code, body: Body, a: Point, pc: nat, saved: seq<Bound>, f: Frame, blocks: seq<Block>)
    requires At(c, pc, SaveCode(saved)) && Reaches(c, body, a, Running(pc, f, blocks))
    ensures var r := Clear(saved, f.locals, f.cells);
            Reaches(c, body, a, Running(pc + |SaveCode(saved)|, Frame(r.slots + f.stack, r.locals, r.cells), blocks))
    decreases |saved|
  {
    hide Steps, Reaches, At, SaveOne;
    if saved == [] {
      assert [] + f.stack == f.stack;
    } else {
      var front, b := saved[..|saved| - 1], saved[|saved| - 1];
      AtSplit(c, pc, SaveCode(front), SaveOne(b));
      SaveRun(c, body, a, pc, front, f, blocks);
      var r := Clear(front, f.locals, f.cells);
      SaveOneRun(c, body, a, pc + |SaveCode(front)|, b, Frame(r.slots + f.stack, r.locals, r.cells), blocks);
      var s := Local(r.locals, b.name);
      assert [s] + (r.slots + f.stack) == ([s] + r.slots) + f.stack;
    }
  }

  lemma {:induction false} SaveOneRun(c: Code, body: Body, a: Point, pc: nat, b: Bound, f: Frame, blocks: seq<Block>)
    requires At(c, pc, SaveOne(b)) && Reaches(c, body, a, Running(pc, f, blocks))
    ensures var st := [Local(f.locals, b.name)] + f.stack;
            var g := if b.symbol.scope == CellScope then
                       Frame(st, f.locals[b.name := Has(CellRef(|f.cells|))], f.cells + [Null])
                     else Frame(st, f.locals[b.name := Null], f.cells);
            Reaches(c, body, a, Running(pc + |SaveOne(b)|, g, blocks))
  {
    hide Steps, Reaches, At;
    var make := MakeCell(b.name, if b.outside == FreeScope then FreeVars else CellVars);
    var rest := if b.symbol.scope == CellScope then [make] else [];
    AtHead(c, pc, LoadFastAndClear(b.name), rest);
    StepFrom(c, body, a, Running(pc, f, blocks));
    if b.symbol.scope == CellScope {
      AtHead(c, pc + 1, make, []);
      var st, cleared := [Local(f.locals, b.name)] + f.stack, f.locals[b.name := Null];
      StepFrom(c, body, a, Running(pc + 1, Frame(st, cleared, f.cells), blocks));
      assert cleared[b.name := Has(CellRef(|f.cells|))] == f.locals[b.name := Has(CellRef(|f.cells|))];
    }
  }

  // ----- restoring -----

  // Store slots[0] in names[n-1], slots[1] in names[n-2] and so on.
  function StoreBack(names: seq<string>, n: nat, slots: seq<Slot>, locals: map<string, Slot>): map<string, Slot>
    requires n <= |names| && |slots| == n
  {
    if n == 0 then locals else StoreBack(names, n - 1, slots[1..], locals[names[n - 1] := slots[0]])
  }

  lemma {:induction false} StoreRun(c: Code, body: Body, a: Point, pc: nat, names: seq<string>, n: nat, slots: seq<Slot>,
                                    rest: seq<Slot>, f: Frame, blocks: seq<Block>)
    requires n <= |names| && |slots| == n && At(c, pc, StoreCode(names, n))
    requires f.stack == slots + rest && Reaches(c, body, a, Running(pc, f, blocks))
    ensures Reaches(c, body, a, Running(pc + n, Frame(rest, StoreBack(names, n, slots, f.locals), f.cells), blocks))
    decreases n
  {
    hide Steps, Reaches, At;
    if n == 0 {
      assert f.stack == rest;
    } else {
      AtHead(c, pc, StoreFastMaybeNull(names[n - 1]), StoreCode(names, n - 1));
      StepFrom(c, body, a, Running(pc, f, blocks));
      assert f.stack[1..] == slots[1..] + rest;
      StoreRun(c, body, a, pc + 1, names, n - 1, slots[1..], rest, Frame(f.stack[1..], f.locals[names[n - 1] := slots[0]], f.cells), blocks);
    }
  }

  // The saved slots lie below the top item, the last one at the bottom; the
  // rotation and the stores put every one back where it came from.
  lemma {:induction false} RestoreRun(c: Code, body: Body, a: Point, pc: nat, names: seq<string>, x: Slot, slots: seq<Slot>,
                                      rest: seq<Slot>, f: Frame, blocks: seq<Block>)
    requires 0 < |names| == |slots| && At(c, pc, RestoreCode(names))
    requires f.stack == [x] + slots[1..] + [slots[0]] + rest && Reaches(c, body, a, Running(pc, f, blocks))
    ensures Reaches(c, body, a, Running(pc + |RestoreCode(names)|, Frame([x] + rest, StoreBack(names, |names|, slots, f.locals), f.cells), blocks))
  {
    hide Step, Steps, Reaches, StoreCode, At;
    var n := |names|;
    AtHead(c, pc, Swap(n + 1), StoreCode(names, n));
    SwapRun(c, body, a, pc, x, slots[1..], slots[0], rest, f, blocks);
    Rotated(x, slots, rest);
    StoreRun(c, body, a, pc + 1, names, n, slots, [x] + rest, f.(stack := slots + ([x] + rest)), blocks);
  }

  // After saving and restoring, saved names have their old slots and the other
  // names what the body left in them.
  ghost predicate Restored(names: seq<string>, before: map<string, Slot>, after: map<string, Slot>, now: map<string, Slot>) {
    forall x :: Local(now, x) == if x in names then Local(before, x) else Local(after, x)
  }

  lemma {:induction false} StoresUndoClear(saved: seq<Bound>, locals: map<string, Slot>, cells: seq<Slot>, after: map<string, Slot>)
    ensures Restored(Names(saved), locals, after, StoreBack(Names(saved), |saved|, Clear(saved, locals, cells).slots, after))
    decreases |saved|
  {
    if saved != [] {
      var front, b := saved[..|saved| - 1], saved[|saved| - 1];
      var names := Names(saved);
      assert names == Names(front) + [b.name];
      var r := Clear(front, locals, cells);
      var s := Local(r.locals, b.name);
      assert ([s] + r.slots)[1..] == r.slots;
      StoreBackPrefix(names, Names(front), |front|, r.slots, after[b.name := s]);
      StoresUndoClear(front, locals, cells, after[b.name := s]);
      ClearIsolates(front, locals, cells);
    }
  }

  lemma {:induction false} StoreBackPrefix(names: seq<string>, front: seq<string>, n: nat, slots: seq<Slot>, locals: map<string, Slot>)
    requires front <= names && n <= |front| && |slots| == n
    ensures StoreBack(names, n, slots, locals) == StoreBack(front, n, slots, locals)
    decreases n
  {
    if n > 0 { StoreBackPrefix(names, front, n - 1, slots[1..], locals[names[n - 1] := slots[0]]); }
  }

  // ----- the whole comprehension -----

  // The code of a comprehension that saves names, in one piece.
  function Whole(saved: seq<Bound>, next: Label): seq<Instr> {
    EnterCode(saved, next) + ([CompBody] + ([PopBlock, JumpNoInterrupt(next + 1)] + (CleanupCode(Names(saved)) + RestoreCode(Names(saved)))))
  }

  lemma {:induction false} InlinedCode(saved: seq<Bound>, c: Code)
    requires saved != []
    ensures Inlined(saved, c).instrs == c.instrs + Whole(saved, c.next)
  {
    hide EnterCode, RestoreCode, CleanupCode, Names;
    var restore := RestoreCode(Names(saved));
    Regrouped(c.instrs, EnterCode(saved, c.next), [CompBody], [PopBlock, JumpNoInterrupt(c.next + 1)], CleanupCode(Names(saved)), restore);
  }

  lemma Regrouped(a: seq<Instr>, b: seq<Instr>, c: seq<Instr>, d: seq<Instr>, e: seq<Instr>, f: seq<Instr>)
    ensures a + b + c + d + e + f == a + (b + (c + (d + (e + f))))
  {
  }

  lemma {:induction false} InlinedLabels(saved: seq<Bound>, c: Code)
    requires saved != []
    ensures var n, m := |c.instrs| + |EnterCode(saved, c.next)|, |RestoreCode(Names(saved))|;
            Inlined(saved, c).labels == c.labels[c.next := n + 3][c.next + 1 := n + 6 + m]
  {
    hide EnterCode, RestoreCode, Names;
  }

  lemma {:induction false} PrefixAt(front: seq<Instr>, block: seq<Instr>, p: Code)
    requires front + block <= p.instrs
    ensures At(p, |front|, block)
  {
    forall k | 0 <= k < |block| ensures p.instrs[|front| + k] == block[k] {
      assert p.instrs[|front| + k] == (front + block)[|front| + k];
    }
  }

  // The parts of the emitted code and where they are in a program p that
  // contains it.
  lemma {:induction false} InlinedLayout(saved: seq<Bound>, c: Code, p: Code)
    requires saved != [] && Extends(Inlined(saved, c), p)
    ensures var base := |c.instrs|;
            var n, m := base + |EnterCode(saved, c.next)|, |RestoreCode(Names(saved))|;
            && At(p, base, EnterCode(saved, c.next)) && At(p, n, [CompBody])
            && At(p, n + 1, [PopBlock, JumpNoInterrupt(c.next + 1)]) && At(p, n + 3, CleanupCode(Names(saved)))
            && At(p, n + 6 + m, RestoreCode(Names(saved))) && |Inlined(saved, c).instrs| == n + 6 + 2 * m
            && c.next in p.labels && p.labels[c.next] == n + 3
            && c.next + 1 in p.labels && p.labels[c.next + 1] == n + 6 + m
  {
    hide Inlined, EnterCode, RestoreCode, Names, At, CleanupCode;
    CleanupSize(Names(saved));
    var enter, leave, restore := EnterCode(saved, c.next), [PopBlock, JumpNoInterrupt(c.next + 1)], RestoreCode(Names(saved));
    var cleanup, n := CleanupCode(Names(saved)), |c.instrs| + |enter|;
    InlinedCode(saved, c);
    InlinedLabels(saved, c);
    PrefixAt(c.instrs, Whole(saved, c.next), p);
    FiveParts(p, |c.instrs|, enter, [CompBody], leave, cleanup, restore);
  }

  lemma CleanupSize(names: seq<string>)
    ensures |CleanupCode(names)| == 3 + |RestoreCode(names)|
  {
  }

  lemma {:induction false} FiveParts(p: Code, pc: nat, a: seq<Instr>, b: seq<Instr>, c: seq<Instr>, d: seq<Instr>, e: seq<Instr>)
    requires At(p, pc, a + (b + (c + (d + e))))
    ensures At(p, pc, a) && At(p, pc + |a|, b) && At(p, pc + |a| + |b|, c)
    ensures At(p, pc + |a| + |b| + |c|, d) && At(p, pc + |a| + |b| + |c| + |d|, e)
  {
    hide At;
    AtSplit(p, pc, a, b + (c + (d + e)));
    AtSplit(p, pc + |a|, b, c + (d + e));
    AtSplit(p, pc + |a| + |b|, c, d + e);
    AtSplit(p, pc + |a| + |b| + |c|, d, e);
  }

  // The body has run and failed: handler, clean-up, and out.
  lemma {:induction false} ExceptionalExit(c: Code, body: Body, a: Point, pc: nat, names: seq<string>, exc: Slot, partial: Slot, slots: seq<Slot>,
                                           rest: seq<Slot>, f: Frame, blocks: seq<Block>)
    requires 0 < |names| == |slots| && At(c, pc, CleanupCode(names))
    requires f.stack == [exc, partial] + slots[1..] + [slots[0]] + rest && Reaches(c, body, a, Running(pc, f, blocks))
    ensures Reaches(c, body, a, Raise(c, exc, Frame(rest, StoreBack(names, |names|, slots, f.locals), f.cells), blocks))
  {
    hide Step, Steps, Reaches, RestoreCode, At, StoreBack;
    var restore := RestoreCode(names);
    var tail := slots[1..] + [slots[0]] + rest;
    CleanupShape(exc, partial, slots, rest, restore);
    AtHead(c, pc, Swap(2), [PopTop] + (restore + [Reraise]));
    AtHead(c, pc + 1, PopTop, restore + [Reraise]);
    AtSplit(c, pc + 2, restore, [Reraise]);
    AtHead(c, pc + 2 + |restore|, Reraise, []);
    SwapRun(c, body, a, pc, exc, [], partial, tail, f, blocks);
    PopRun(c, body, a, pc + 1, partial, [exc] + slots[1..] + [slots[0]] + rest, f.(stack := [partial] + [] + [exc] + tail), blocks);
    RestoreRun(c, body, a, pc + 2, names, exc, slots, rest, f.(stack := [exc] + slots[1..] + [slots[0]] + rest), blocks);
    ReraiseRun(c, body, a, pc + 2 + |restore|, exc, rest, StoreBack(names, |names|, slots, f.locals), f.cells, blocks);
  }

  lemma CleanupShape(exc: Slot, partial: Slot, slots: seq<Slot>, rest: seq<Slot>, restore: seq<Instr>)
    requires 0 < |slots|
    ensures var tail := slots[1..] + [slots[0]] + rest;
            && [exc, partial] + slots[1..] + [slots[0]] + rest == [exc] + [] + [partial] + tail
            && [partial] + [] + [exc] + tail == [partial] + ([exc] + slots[1..] + [slots[0]] + rest)
    ensures [Swap(2), PopTop] + restore + [Reraise] == [Swap(2)] + ([PopTop] + (restore + [Reraise]))
    ensures [Reraise] + [] == [Reraise]
  {
  }

  lemma {:induction false} ReraiseRun(c: Code, body: Body, a: Point, pc: nat, exc: Slot, rest: seq<Slot>, locals: map<string, Slot>, cells: seq<Slot>,
                                      blocks: seq<Block>)
    requires pc < |c.instrs| && c.instrs[pc] == Reraise && Reaches(c, body, a, Running(pc, Frame([exc] + rest, locals, cells), blocks))
    ensures Reaches(c, body, a, Raise(c, exc, Frame(rest, locals, cells), blocks))
  {
    hide Steps, Reaches;
    assert ([exc] + rest)[1..] == rest;
    StepFrom(c, body, a, Running(pc, Frame([exc] + rest, locals, cells), blocks));
  }

  // Up to the body: names saved and cleared, the iterable back on top, the
  // clean-up handler armed.
  lemma {:induction false} EnterRun(c: Code, body: Body, a: Point, pc: nat, saved: seq<Bound>, cleanup: Label, it: Slot, rest: seq<Slot>,
                                    locals: map<string, Slot>, cells: seq<Slot>, blocks: seq<Block>)
    requires saved != [] && At(c, pc, EnterCode(saved, cleanup)) && Reaches(c, body, a, Running(pc, Frame([it] + rest, locals, cells), blocks))
    ensures var r := Clear(saved, locals, cells);
            var below := r.slots[1..] + [r.slots[0]] + rest;
            Reaches(c, body, a, Running(pc + |EnterCode(saved, cleanup)|, Frame([it] + below, r.locals, r.cells), [Block(cleanup, 1 + |below|)] + blocks))
  {
    hide Step, Steps, Reaches, SaveCode, At;
    var r, n := Clear(saved, locals, cells), |saved|;
    var f := Frame(r.slots + ([it] + rest), r.locals, r.cells);
    AtSplit(c, pc, SaveCode(saved), [Swap(n + 1), SetupFinally(cleanup)]);
    SaveRun(c, body, a, pc, saved, Frame([it] + rest, locals, cells), blocks);
    var at := pc + |SaveCode(saved)|;
    assert [Swap(n + 1), SetupFinally(cleanup)] == [Swap(n + 1)] + ([SetupFinally(cleanup)] + []);
    AtHead(c, at, Swap(n + 1), [SetupFinally(cleanup)] + []);
    AtHead(c, at + 1, SetupFinally(cleanup), []);
    Rotated(it, r.slots, rest);
    SwapRun(c, body, a, at, r.slots[0], r.slots[1..], it, rest, f, blocks);
    SetupRun(c, body, a, at + 1, cleanup, f.(stack := [it] + (r.slots[1..] + [r.slots[0]] + rest)), blocks);
  }

  lemma {:induction false} SetupRun(c: Code, body: Body, a: Point, pc: nat, cleanup: Label, f: Frame, blocks: seq<Block>)
    requires pc < |c.instrs| && c.instrs[pc] == SetupFinally(cleanup) && Reaches(c, body, a, Running(pc, f, blocks))
    ensures Reaches(c, body, a, Running(pc + 1, f, [Block(cleanup, |f.stack|)] + blocks))
  {
    hide Steps, Reaches;
    StepFrom(c, body, a, Running(pc, f, blocks));
  }

  lemma {:induction false} BodyRun(c: Code, body: Body, a: Point, pc: nat, it: Slot, below: seq<Slot>, locals: map<string, Slot>, cells: seq<Slot>, blocks: seq<Block>)
    requires At(c, pc, [CompBody]) && Reaches(c, body, a, Running(pc, Frame([it] + below, locals, cells), blocks))
    ensures match body(it, locals, cells)
            case Finishes(v, l, m) => Reaches(c, body, a, Running(pc + 1, Frame([v] + below, l, m), blocks))
            case Fails(exc, partial, l, m) => Reaches(c, body, a, Raise(c, exc, Frame([partial] + below, l, m), blocks))
  {
    hide Steps, Reaches;
    AtHead(c, pc, CompBody, []);
    StepFrom(c, body, a, Running(pc, Frame([it] + below, locals, cells), blocks));
    assert ([it] + below)[1..] == below;
  }

  // What a run of an inlined comprehension comes to: the result behind its
  // code, or the exception to the surrounding handlers, with the rest of the
  // stack as it was and the saved names restored.
  ghost predicate Isolated(p: Code, body: Body, a: Point, exit: nat, saved: seq<Bound>, it: Slot, rest: seq<Slot>,
                           locals: map<string, Slot>, cells: seq<Slot>, blocks: seq<Block>)
  {
    var r := Clear(saved, locals, cells);
    match body(it, r.locals, r.cells)
    case Finishes(v, after, m) =>
      exists now :: Restored(Names(saved), locals, after, now) && Reaches(p, body, a, Running(exit, Frame([v] + rest, now, m), blocks))
    case Fails(exc, partial, after, m) =>
      var left := if saved == [] then [partial] + rest else rest;
      exists now :: Restored(Names(saved), locals, after, now) && Reaches(p, body, a, Raise(p, exc, Frame(left, now, m), blocks))
  }

  // For any bound names, any body, any code around the comprehension and any
  // handlers active around it.
  lemma {:induction false} ComprehensionIsolates(saved: seq<Bound>, c: Code, p: Code, body: Body, it: Slot, rest: seq<Slot>,
                                                 locals: map<string, Slot>, cells: seq<Slot>, blocks: seq<Block>)
    requires Extends(Inlined(saved, c), p)
    ensures Isolated(p, body, Running(|c.instrs|, Frame([it] + rest, locals, cells), blocks), |Inlined(saved, c).instrs|,
              saved, it, rest, locals, cells, blocks)
  {
    var pc := |c.instrs|;
    var a := Running(pc, Frame([it] + rest, locals, cells), blocks);
    assert Steps(p, body, a, 0) == a;
    if saved == [] {
      PrefixAt(c.instrs, [CompBody], p);
      BodyRun(p, body, a, pc, it, rest, locals, cells, blocks);
      assert Clear(saved, locals, cells) == Cleared(locals, cells, []);
      var after := body(it, locals, cells).locals;
      assert Restored(Names(saved), locals, after, after);
    } else {
      Saving(saved, c, p, body, a, it, rest, locals, cells, blocks);
    }
  }

  lemma {:induction false} Saving(saved: seq<Bound>, c: Code, p: Code, body: Body, a: Point, it: Slot, rest: seq<Slot>,
                                  locals: map<string, Slot>, cells: seq<Slot>, blocks: seq<Block>)
    requires saved != [] && Extends(Inlined(saved, c), p)
    requires Reaches(p, body, a, Running(|c.instrs|, Frame([it] + rest, locals, cells), blocks))
    ensures Isolated(p, body, a, |Inlined(saved, c).instrs|, saved, it, rest, locals, cells, blocks)
  {
    hide Inlined, EnterCode, RestoreCode, Steps, Reaches, Clear, Raise, Restored, At, Extends, CleanupCode;
    var names, r := Names(saved), Clear(saved, locals, cells);
    var below := r.slots[1..] + [r.slots[0]] + rest;
    var n := |c.instrs| + |EnterCode(saved, c.next)|;
    var block := Block(c.next, 1 + |below|);
    InlinedLayout(saved, c, p);
    EnterRun(p, body, a, |c.instrs|, saved, c.next, it, rest, locals, cells, blocks);
    BodyRun(p, body, a, n, it, below, r.locals, r.cells, [block] + blocks);
    match body(it, r.locals, r.cells) {
      case Finishes(v, after, cs) =>
        NormalExit(p, body, a, n + 1, c.next + 1, names, v, r.slots, rest, Frame([v] + below, after, cs), block, blocks);
        StoresUndoClear(saved, locals, cells, after);
      case Fails(exc, partial, after, cs) =>
        Handled(p, exc, partial, below, after, cs, block, blocks);
        assert [exc] + ([partial] + below) == [exc, partial] + r.slots[1..] + [r.slots[0]] + rest;
        ExceptionalExit(p, body, a, n + 3, names, exc, partial, r.slots, rest, Frame([exc] + ([partial] + below), after, cs), blocks);
        StoresUndoClear(saved, locals, cells, after);
    }
  }

  lemma Handled(c: Code, exc: Slot, partial: Slot, below: seq<Slot>, locals: map<string, Slot>, cells: seq<Slot>, block: Block, blocks: seq<Block>)
    requires block.handler in c.labels && block.depth == 1 + |below|
    ensures Raise(c, exc, Frame([partial] + below, locals, cells), [block] + blocks)
         == Running(c.labels[block.handler], Frame([exc] + ([partial] + below), locals, cells), blocks)
  {
    var st := [partial] + below;
    assert st[|st| - block.depth ..] == st;
    assert ([block] + blocks)[1..] == blocks;
  }

  lemma {:induction false} NormalExit(c: Code, body: Body, a: Point, pc: nat, end: Label, names: seq<string>, v: Slot, slots: seq<Slot>, rest: seq<Slot>,
                                      f: Frame, block: Block, blocks: seq<Block>)
    requires 0 < |names| == |slots| && At(c, pc, [PopBlock, JumpNoInterrupt(end)])
    requires end in c.labels && At(c, c.labels[end], RestoreCode(names))
    requires f.stack == [v] + (slots[1..] + [slots[0]] + rest) && Reaches(c, body, a, Running(pc, f, [block] + blocks))
    ensures Reaches(c, body, a, Running(c.labels[end] + |RestoreCode(names)|, Frame([v] + rest, StoreBack(names, |names|, slots, f.locals), f.cells), blocks))
  {
    hide Steps, Reaches, At, RestoreCode, StoreBack;
    assert [PopBlock, JumpNoInterrupt(end)] == [PopBlock] + [JumpNoInterrupt(end)];
    AtHead(c, pc, PopBlock, [JumpNoInterrupt(end)]);
    AtHead(c, pc + 1, JumpNoInterrupt(end), []);
    StepFrom(c, body, a, Running(pc, f, [block] + blocks));
    assert ([block] + blocks)[1..] == blocks;
    StepFrom(c, body, a, Running(pc + 1, f, blocks));
    assert f.stack == [v] + slots[1..] + [slots[0]] + rest;
    RestoreRun(c, body, a, c.labels[end], names, v, slots, rest, f, blocks);
  }

  // ----- from the symbols to the locals -----

  // The code of a comprehension with these symbols.
  function Comprehension(bounds: seq<Bound>, inClassBlock: bool, c: Code): Code { Inlined(Saved(bounds, inClassBlock), c) }

  // The comprehension knows the name; it is a local there and not nonlocal.
  ghost predicate Mentions(bounds: seq<Bound>, x: string) { exists i :: 0 <= i < |bounds| && bounds[i].name == x }

  ghost predicate Binds(bounds: seq<Bound>, x: string) {
    exists i :: 0 <= i < |bounds| && bounds[i].name == x && bounds[i].symbol.defLocal && !bounds[i].symbol.defNonlocal
  }

  // The names that belong to the comprehension alone: those it binds, and in a
  // class block all it knows.
  ghost predicate Private(bounds: seq<Bound>, inClassBlock: bool, x: string) {
    Binds(bounds, x) || (inClassBlock && Mentions(bounds, x))
  }

  // Running the comprehension writes only names it knows.
  ghost predicate WritesOnly(body: Body, bounds: seq<Bound>) {
    forall it, locals, cells, x :: !Mentions(bounds, x) ==> Local(body(it, locals, cells).locals, x) == Local(locals, x)
  }

  lemma {:induction false} SavedArePrivate(bounds: seq<Bound>, inClassBlock: bool, x: string)
    ensures x in Names(Saved(bounds, inClassBlock)) <==> Private(bounds, inClassBlock, x)
    decreases |bounds|
  {
    if bounds != [] {
      var n := |bounds| - 1;
      var front, last := bounds[..n], bounds[n];
      SavedArePrivate(front, inClassBlock, x);
      SavedNext(bounds, n, inClassBlock);
      assert bounds[..n + 1] == bounds;
      assert Mentions(bounds, x) <==> Mentions(front, x) || last.name == x by { MentionsLast(bounds, x); }
      assert Binds(bounds, x) <==> Binds(front, x) || (last.name == x && last.symbol.defLocal && !last.symbol.defNonlocal) by { MentionsLast(bounds, x); }
    }
  }

  lemma {:induction false} SavedAreBounds(bounds: seq<Bound>, inClassBlock: bool)
    ensures forall b :: b in Saved(bounds, inClassBlock) ==> b in bounds
    decreases |bounds|
  {
    if bounds != [] {
      SavedAreBounds(bounds[..|bounds| - 1], inClassBlock);
      SavedNext(bounds, |bounds| - 1, inClassBlock);
      assert bounds[..|bounds| - 1 + 1] == bounds;
    }
  }

  lemma {:induction false} CellsAlike(bounds: seq<Bound>, saved: seq<Bound>)
    requires forall b :: b in saved ==> b in bounds
    ensures forall x :: OnlyCells(bounds, x) ==> OnlyCells(saved, x)
    ensures forall x :: NoCells(bounds, x) ==> NoCells(saved, x)
  {
    forall i | 0 <= i < |saved| ensures saved[i] in bounds { assert saved[i] in saved; }
  }

  lemma {:induction false} MentionsLast(bounds: seq<Bound>, x: string)
    requires bounds != []
    ensures var front, last := bounds[..|bounds| - 1], bounds[|bounds| - 1];
            && (Mentions(bounds, x) <==> Mentions(front, x) || last.name == x)
            && (Binds(bounds, x) <==> Binds(front, x) || (last.name == x && last.symbol.defLocal && !last.symbol.defNonlocal))
  {
    var front := bounds[..|bounds| - 1];
    assert forall i :: 0 <= i < |front| ==> front[i] == bounds[i];
  }

  // Where the body starts: private names are in fresh empty cells where the
  // comprehension needs cells, else unset; everything else is as outside.
  ghost predicate Inside(bounds: seq<Bound>, inClassBlock: bool, before: map<string, Slot>, cells: seq<Slot>, inside: map<string, Slot>, insideCells: seq<Slot>) {
    && cells <= insideCells
    && (forall x :: !Private(bounds, inClassBlock, x) ==> Local(inside, x) == Local(before, x))
    && (forall x :: Private(bounds, inClassBlock, x) && OnlyCells(bounds, x) ==> IsFreshCell(Local(inside, x), cells, insideCells))
    && (forall x :: Private(bounds, inClassBlock, x) && NoCells(bounds, x) ==> Local(inside, x) == Null)
  }

  // What is left of the locals: private names hold what they held before, the
  // other names the comprehension knows hold what its body wrote, and no other
  // name has changed.
  ghost predicate Outside(bounds: seq<Bound>, inClassBlock: bool, before: map<string, Slot>, after: map<string, Slot>, now: map<string, Slot>) {
    && (forall x :: Private(bounds, inClassBlock, x) || !Mentions(bounds, x) ==> Local(now, x) == Local(before, x))
    && (forall x :: Mentions(bounds, x) && !Private(bounds, inClassBlock, x) ==> Local(now, x) == Local(after, x))
  }

  // The whole way, on both exits.
  lemma {:induction false} ComprehensionKeepsLocals(bounds: seq<Bound>, inClassBlock: bool, c: Code, p: Code, body: Body, it: Slot, rest: seq<Slot>,
                                                    locals: map<string, Slot>, cells: seq<Slot>, blocks: seq<Block>)
    requires Extends(Comprehension(bounds, inClassBlock, c), p) && WritesOnly(body, bounds)
    ensures exists inside, insideCells, now, left ::
              && Inside(bounds, inClassBlock, locals, cells, inside, insideCells)
              && Outside(bounds, inClassBlock, locals, body(it, inside, insideCells).locals, now)
              && Ends(p, body, Running(|c.instrs|, Frame([it] + rest, locals, cells), blocks), |Comprehension(bounds, inClassBlock, c).instrs|,
                   body(it, inside, insideCells), rest, left, now, blocks)
  {
    hide Inlined, Saved, Raise, Reaches, Extends, OnlyCells, NoCells, Local;
    var saved := Saved(bounds, inClassBlock);
    ComprehensionIsolates(saved, c, p, body, it, rest, locals, cells, blocks);
    var r, a := Clear(saved, locals, cells), Running(|c.instrs|, Frame([it] + rest, locals, cells), blocks);
    ClearIsolates(saved, locals, cells);
    forall x ensures x in Names(saved) <==> Private(bounds, inClassBlock, x) { SavedArePrivate(bounds, inClassBlock, x); }
    SavedAreBounds(bounds, inClassBlock);
    CellsAlike(bounds, saved);
    assert Inside(bounds, inClassBlock, locals, cells, r.locals, r.cells);
    var res := body(it, r.locals, r.cells);
    var now, left := IsolatedEnds(p, body, a, |Inlined(saved, c).instrs|, saved, it, rest, locals, cells, blocks);
    assert Outside(bounds, inClassBlock, locals, res.locals, now);
  }

  // The run ends behind the code with the result, or raises to the handlers
  // around it; left is the stack then.
  ghost predicate Ends(p: Code, body: Body, a: Point, exit: nat, res: BodyResult, rest: seq<Slot>, left: seq<Slot>, now: map<string, Slot>, blocks: seq<Block>) {
    match res
    case Finishes(v, _, m) => left == [v] + rest && Reaches(p, body, a, Running(exit, Frame(left, now, m), blocks))
    case Fails(exc, partial, _, m) => (left == rest || left == [partial] + rest) && Reaches(p, body, a, Raise(p, exc, Frame(left, now, m), blocks))
  }

  lemma {:induction false} IsolatedEnds(p: Code, body: Body, a: Point, exit: nat, saved: seq<Bound>, it: Slot, rest: seq<Slot>,
                                        locals: map<string, Slot>, cells: seq<Slot>, blocks: seq<Block>)
    returns (now: map<string, Slot>, left: seq<Slot>)
    requires Isolated(p, body, a, exit, saved, it, rest, locals, cells, blocks)
    ensures var r := Clear(saved, locals, cells);
            var res := body(it, r.locals, r.cells);
            Restored(Names(saved), locals, res.locals, now) && Ends(p, body, a, exit, res, rest, left, now, blocks)
  {
    hide Reaches, Raise, Restored;
    var r := Clear(saved, locals, cells);
    match body(it, r.locals, r.cells) {
      case Finishes(v, after, m) =>
        now :| Restored(Names(saved), locals, after, now) && Reaches(p, body, a, Running(exit, Frame([v] + rest, now, m), blocks));
        left := [v] + rest;
      case Fails(exc, partial, after, m) =>
        left := if saved == [] then [partial] + rest else rest;
        now :| Restored(Names(saved), locals, after, now) && Reaches(p, body, a, Raise(p, exc, Frame(left, now, m), blocks));
    }
  }
}
