// Resolving jumps after flattening: the pseudo unconditional jumps get a
// direction, then every target index becomes a distance in code units.  The
// distances depend on the sizes of the instructions in between, which depend
// on distances, so whole rounds are repeated until no size changes.
module Jumps {
  import opened Bytecode

  const END_SEND_OFFSET: int := 5

  // Code below this size has distances that fit in 32 bits.
  const MAX_UNITS: int := 0x8000_0000 - END_SEND_OFFSET

  // ----- directions -----

  function DirectedOp(op: int, target: int, i: nat): int {
    if op == JUMP then if target > i then JUMP_FORWARD else JUMP_BACKWARD
    else if op == JUMP_NO_INTERRUPT then if target > i then JUMP_FORWARD else JUMP_BACKWARD_NO_INTERRUPT
    else op
  }

  function Directed(instrs: seq<Instr>): (r: seq<Instr>)
    ensures |r| == |instrs|
  {
    seq(|instrs|, i requires 0 <= i < |instrs| => instrs[i].(op := DirectedOp(instrs[i].op, instrs[i].oparg, i)))
  }

  method ResolveUnconditionalJumps(instrs: array<Instr>)
    modifies instrs
    ensures instrs[..] == Directed(old(instrs[..]))
  {
    for i := 0 to instrs.Length
      invariant forall k :: 0 <= k < i ==> instrs[k] == Directed(old(instrs[..]))[k]
      invariant forall k :: i <= k < instrs.Length ==> instrs[k] == old(instrs[k])
    {
      var isForward := instrs[i].oparg > i;
      if instrs[i].op == JUMP {
        instrs[i] := instrs[i].(op := if isForward then JUMP_FORWARD else JUMP_BACKWARD);
      } else if instrs[i].op == JUMP_NO_INTERRUPT {
        instrs[i] := instrs[i].(op := if isForward then JUMP_FORWARD else JUMP_BACKWARD_NO_INTERRUPT);
      }
    }
  }

  // ----- one round -----

  function Targets(instrs: seq<Instr>): (r: seq<Int32>)
    ensures |r| == |instrs|
  {
    seq(|instrs|, i requires 0 <= i < |instrs| => if HasTarget(instrs[i].op) then instrs[i].oparg else 0)
  }

  // Where target t stands; an index outside the sequence counts as 0.
  function TargetOffset(instrs: seq<Instr>, t: int): nat {
    if 0 <= t < |instrs| then Offset(instrs, t) else 0
  }

  function NewOparg(op: int, cur: int, tgtOff: int): Int32 {
    var x := ToInt32(tgtOff);
    if op == END_ASYNC_FOR then ToInt32(cur - x - END_SEND_OFFSET)
    else if x < cur then ToInt32(cur - x)
    else ToInt32(x - cur)
  }

  function Rewritten(instrs: seq<Instr>, t: int, i: nat): Instr
    requires i < |instrs|
  {
    if HasTarget(instrs[i].op) then
      instrs[i].(oparg := NewOparg(instrs[i].op, Offset(instrs, i + 1), TargetOffset(instrs, t)))
    else instrs[i]
  }

  function Round(instrs: seq<Instr>, targets: seq<Int32>): (r: seq<Instr>)
    requires |targets| == |instrs|
    ensures |r| == |instrs|
    ensures forall i :: 0 <= i < |r| ==> r[i].op == instrs[i].op
  {
    seq(|instrs|, i requires 0 <= i < |instrs| => Rewritten(instrs, targets[i], i))
  }

  // The round changed no size: the loop stops here.
  ghost predicate Settled(instrs: seq<Instr>, targets: seq<Int32>)
    requires |targets| == |instrs|
  {
    forall i :: 0 <= i < |instrs| ==> InstrSize(Round(instrs, targets)[i]) == InstrSize(instrs[i])
  }

  // r rounds.
  function Iterate(instrs: seq<Instr>, targets: seq<Int32>, r: nat): (res: seq<Instr>)
    requires |targets| == |instrs|
    ensures |res| == |instrs|
    ensures forall i :: 0 <= i < |res| ==> res[i].op == instrs[i].op
    decreases r
  {
    if r == 0 then instrs else Round(Iterate(instrs, targets, r - 1), targets)
  }

  // The loop ends: some round changes no size.
  ghost predicate Settles(instrs: seq<Instr>, targets: seq<Int32>)
    requires |targets| == |instrs|
  {
    exists r: nat :: Settled(Iterate(instrs, targets, r), targets)
  }

  // The sequence the loop leaves behind.
  ghost predicate IsResolved(instrs: seq<Instr>, targets: seq<Int32>, res: seq<Instr>)
    requires |targets| == |instrs|
  {
    exists r: nat ::
      && Settled(Iterate(instrs, targets, r), targets)
      && (forall q: nat :: q < r ==> !Settled(Iterate(instrs, targets, q), targets))
      && res == Iterate(instrs, targets, r + 1)
  }

  method MeasureOffsets(instrs: array<Instr>, offset: array<nat>)
    requires offset.Length == instrs.Length
    modifies offset
    ensures forall k :: 0 <= k < offset.Length ==> offset[k] == Offset(instrs[..], k)
  {
    hide InstrSize;
    var totsize := 0;
    ghost var before := instrs[..];
    for i := 0 to instrs.Length
      invariant totsize == Offset(before, i) && instrs[..] == before
      invariant forall k :: 0 <= k < i ==> offset[k] == Offset(before, k)
    {
      offset[i] := totsize;
      var size := MeasureInstr(instrs[i]);
      totsize := totsize + size;
    }
  }

  // The body of the loop: rewrites every jump in place.
  method RunRound(instrs: array<Instr>, target: array<Int32>, offset: array<nat>) returns (recompile: bool)
    requires target.Length == offset.Length == instrs.Length
    requires forall k :: 0 <= k < offset.Length ==> offset[k] == Offset(instrs[..], k)
    modifies instrs
    ensures instrs[..] == Round(old(instrs[..]), target[..])
    ensures recompile <==> !Settled(old(instrs[..]), target[..])
  {
    hide InstrSize, NewOparg, HasTarget, Offset, Round;
    recompile := false;
    var curOffset := 0;
    ghost var before, res := instrs[..], Round(instrs[..], target[..]);
    OffsetSteps(before);
    for i := 0 to instrs.Length
      invariant curOffset == Offset(before, i)
      invariant forall k :: 0 <= k < i ==> instrs[k] == res[k]
      invariant forall k :: i <= k < instrs.Length ==> instrs[k] == before[k]
      invariant recompile <==> exists k :: 0 <= k < i && InstrSize(res[k]) != InstrSize(before[k])
    {
      var isize := MeasureInstr(instrs[i]);
      curOffset := curOffset + isize;
      assert curOffset == Offset(before, i + 1);
      RoundAt(before, target[..], i);
      if HasTarget(instrs[i].op) {
        var tgtIdx := target[i];
        var tgtOff := 0;
        if 0 <= tgtIdx < offset.Length { tgtOff := offset[tgtIdx]; }
        var oparg := Distance(instrs[i].op, curOffset, tgtOff);
        instrs[i] := instrs[i].(oparg := oparg);
        var newSize := MeasureInstr(instrs[i]);
        if newSize != isize { recompile := true; }
      }
    }
    assert instrs[..] == res;
  }

  lemma RoundAt(instrs: seq<Instr>, targets: seq<Int32>, i: nat)
    requires |targets| == |instrs| && i < |instrs|
    ensures Round(instrs, targets)[i] == Rewritten(instrs, targets[i], i)
  {
  }

  lemma OffsetSteps(instrs: seq<Instr>)
    ensures Offset(instrs, 0) == 0
    ensures forall k :: 0 <= k < |instrs| ==> Offset(instrs, k + 1) == Offset(instrs, k) + InstrSize(instrs[k])
  {
  }

  method Distance(op: int, cur: int, tgtOff: int) returns (oparg: Int32)
    ensures oparg == NewOparg(op, cur, tgtOff)
  {
    oparg := ToInt32(tgtOff);
    if op == END_ASYNC_FOR {
      oparg := ToInt32(cur - oparg - END_SEND_OFFSET);
    } else if oparg < cur {
      oparg := ToInt32(cur - oparg);
    } else {
      oparg := ToInt32(oparg - cur);
    }
  }

  // The whole pass.  The precondition is that the loop ends at all; see
  // Diverges for an input where it does not, SettlesExactly for when it does,
  // and NarrowStartSettles for what a caller can check.
  method ResolveJumpOffsets(instrs: array<Instr>)
    requires Settles(instrs[..], Targets(instrs[..]))
    modifies instrs
    ensures IsResolved(old(instrs[..]), Targets(old(instrs[..])), instrs[..])
  {
    hide HasTarget, InstrSize, Round, Settled, Offset;
    var target := new Int32[instrs.Length](_ => 0);
    var offset := new nat[instrs.Length](_ => 0);
    ghost var start := instrs[..];
    for i := 0 to instrs.Length
      invariant instrs[..] == start
      invariant forall k :: 0 <= k < i ==> target[k] == Targets(start)[k]
      invariant forall k :: i <= k < target.Length ==> target[k] == 0
    {
      if HasTarget(instrs[i].op) { target[i] := instrs[i].oparg; }
    }
    ghost var targets := Targets(start);
    assert target[..] == targets;
    ghost var last: nat :| Settled(Iterate(start, targets, last), targets);
    ghost var r: nat := 0;
    while true
      invariant target[..] == targets && instrs[..] == Iterate(start, targets, r)
      invariant r <= last
      invariant forall q: nat :: q < r ==> !Settled(Iterate(start, targets, q), targets)
      decreases last - r
    {
      MeasureOffsets(instrs, offset);
      var recompile := RunRound(instrs, target, offset);
      assert instrs[..] == Iterate(start, targets, r + 1);
      if !recompile { break; }
      r := r + 1;
    }
  }

  // ----- landing -----

  // Jumps that the machine takes backwards.
  predicate Backward(op: int) {
    op in {END_ASYNC_FOR, JUMP_BACKWARD, JUMP_BACKWARD_NO_INTERRUPT, 175, 176, 248}
  }

  // The code unit that instruction i jumps to, counted from behind the
  // instruction and its caches.
  function Lands(instrs: seq<Instr>, i: nat): int
    requires i < |instrs|
  {
    if Backward(instrs[i].op) then Offset(instrs, i + 1) - instrs[i].oparg
    else Offset(instrs, i + 1) + instrs[i].oparg
  }

  lemma {:induction false} SettledOffsets(instrs: seq<Instr>, targets: seq<Int32>, k: nat)
    requires |targets| == |instrs| && Settled(instrs, targets) && k <= |instrs|
    ensures Offset(Round(instrs, targets), k) == Offset(instrs, k)
  {
    SameSizesSameOffset(Round(instrs, targets), instrs, k);
  }

  lemma DistanceFits(op: int, cur: nat, tgtOff: nat)
    requires cur < 0x8000_0000 - END_SEND_OFFSET && tgtOff < 0x8000_0000 - END_SEND_OFFSET
    ensures NewOparg(op, cur, tgtOff)
         == if op == END_ASYNC_FOR then cur - tgtOff - END_SEND_OFFSET else if tgtOff < cur then cur - tgtOff else tgtOff - cur
  {
    Int32Exact(tgtOff);
    Int32Exact(cur - tgtOff - END_SEND_OFFSET);
    Int32Exact(cur - tgtOff);
    Int32Exact(tgtOff - cur);
  }

  lemma Int32Exact(x: int)
    ensures ToInt32(x) == x <==> -0x8000_0000 <= x < 0x8000_0000
  {
  }

  lemma JumpSize(ins: Instr)
    requires HasTarget(ins.op)
    ensures InstrSize(ins) >= 1
  {
  }

  // When the loop stops, every jump lands on its target as measured in the
  // final code, provided its opcode goes in the target's direction; and only
  // then.  END_ASYNC_FOR lands END_SEND_OFFSET units behind its target.
  lemma {:induction false} JumpLands(instrs: seq<Instr>, targets: seq<Int32>, i: nat)
    requires |targets| == |instrs| && Settled(instrs, targets) && i < |instrs|
    requires HasTarget(instrs[i].op) && 0 <= targets[i] < |instrs| && Units(instrs) < MAX_UNITS
    ensures var res, t := Round(instrs, targets), targets[i];
            && (res[i].op == END_ASYNC_FOR ==> Lands(res, i) == Offset(res, t) + 5)
            && (res[i].op != END_ASYNC_FOR ==>
                 (Lands(res, i) == Offset(res, t) <==> (Backward(res[i].op) <==> t <= i) || Offset(res, t) == Offset(res, i + 1)))
  {
    hide ToInt32, InstrSize, HasTarget, NewOparg, Settled;
    var res, t := Round(instrs, targets), targets[i];
    SettledOffsets(instrs, targets, i + 1);
    SettledOffsets(instrs, targets, t);
    JumpSize(instrs[i]);
    OffsetMonotone(instrs, t, |instrs|);
    OffsetMonotone(instrs, i + 1, |instrs|);
    DistanceFits(instrs[i].op, Offset(instrs, i + 1), Offset(instrs, t));
    if t <= i {
      OffsetMonotone(instrs, t, i);
    } else {
      OffsetMonotone(instrs, i + 1, t);
    }
  }

  // A jump to the end of the code is resolved as a jump to its beginning: a
  // forward jump then lands twice as far out as it stands.
  lemma {:induction false} PastTheEnd(instrs: seq<Instr>, targets: seq<Int32>, i: nat)
    requires |targets| == |instrs| && Settled(instrs, targets) && i < |instrs|
    requires HasTarget(instrs[i].op) && instrs[i].op != END_ASYNC_FOR && targets[i] == |instrs| && Units(instrs) < MAX_UNITS
    ensures var res := Round(instrs, targets);
            Lands(res, i) == if Backward(res[i].op) then 0 else 2 * Offset(res, i + 1)
  {
    hide ToInt32, InstrSize, HasTarget, NewOparg, Settled;
    SettledOffsets(instrs, targets, i + 1);
    OffsetMonotone(instrs, i + 1, |instrs|);
    OffsetMonotone(instrs, 0, i);
    JumpSize(instrs[i]);
    DistanceFits(instrs[i].op, Offset(instrs, i + 1), 0);
  }

  lemma PastTheEndMisses()
    ensures var instrs := [Instr(JUMP, 1, Pos(1, 1, 0, 0), Handler(-1, -1, -1))];
            var d := Directed(instrs);
            var res := Round(d, Targets(d));
            Settled(d, Targets(d)) && Lands(res, 0) == 2 && Units(res) == 1
  {
    var d := Directed([Instr(JUMP, 1, Pos(1, 1, 0, 0), Handler(-1, -1, -1))]);
    assert d == [Instr(JUMP_FORWARD, 1, Pos(1, 1, 0, 0), Handler(-1, -1, -1))];
    var res := Round(d, Targets(d));
    assert Offset(d, 1) == 1;
    assert res[0] == d[0];
    assert Offset(res, 1) == 1;
  }

  lemma IterateStep(instrs: seq<Instr>, targets: seq<Int32>, r: nat)
    requires |targets| == |instrs|
    ensures Iterate(instrs, targets, r + 1) == Round(Iterate(instrs, targets, r), targets)
  {
  }

  // Directions given by ResolveUnconditionalJumps are right for every target.
  lemma {:induction false} DirectionAgrees(instrs: seq<Instr>, i: nat)
    requires i < |instrs| && instrs[i].op in {JUMP, JUMP_NO_INTERRUPT}
    ensures var d := Directed(instrs);
            HasTarget(d[i].op) && d[i].op != END_ASYNC_FOR && Targets(d)[i] == instrs[i].oparg
    ensures Backward(Directed(instrs)[i].op) <==> instrs[i].oparg <= i
  {
  }

  // Both passes together: whatever the loop leaves, each JUMP and
  // JUMP_NO_INTERRUPT lands on the instruction it named.
  lemma {:induction false} UnconditionalJumpsLand(instrs: seq<Instr>, res: seq<Instr>, i: nat)
    requires i < |instrs| && instrs[i].op in {JUMP, JUMP_NO_INTERRUPT} && 0 <= instrs[i].oparg < |instrs|
    requires IsResolved(Directed(instrs), Targets(Directed(instrs)), res) && Units(res) < MAX_UNITS
    ensures |res| == |instrs| && Lands(res, i) == Offset(res, instrs[i].oparg)
  {
    hide Round, InstrSize, HasTarget, Settled, Targets, Directed;
    var d := Directed(instrs);
    var targets := Targets(d);
    var r: nat :| Settled(Iterate(d, targets, r), targets) && res == Iterate(d, targets, r + 1);
    var last := Iterate(d, targets, r);
    IterateStep(d, targets, r);
    DirectionAgrees(instrs, i);
    SettledOffsets(last, targets, |last|);
    JumpLands(last, targets, i);
  }

  // What both passes may do to an instruction: give a pseudo jump one of its
  // own directions, and rewrite the argument of an instruction with a target.
  // A jump that may not be interrupted backwards stays so, and no other
  // becomes so.
  ghost predicate Relabelled(before: Instr, after: Instr, i: nat) {
    && after.loc == before.loc && after.handler == before.handler
    && (before.op == JUMP ==> after.op == if before.oparg <= i then JUMP_BACKWARD else JUMP_FORWARD)
    && (before.op == JUMP_NO_INTERRUPT ==> after.op == if before.oparg <= i then JUMP_BACKWARD_NO_INTERRUPT else JUMP_FORWARD)
    && (before.op != JUMP && before.op != JUMP_NO_INTERRUPT ==> after.op == before.op && (!HasTarget(before.op) ==> after == before))
  }

  lemma {:induction false} DirectedKeeps(instrs: seq<Instr>, i: nat)
    requires i < |instrs|
    ensures Relabelled(instrs[i], Directed(instrs)[i], i) && Directed(instrs)[i].oparg == instrs[i].oparg
  {
  }

  // A round changes nothing but the arguments of instructions with a target.
  lemma {:induction false} IterateKeeps(instrs: seq<Instr>, targets: seq<Int32>, r: nat, i: nat)
    requires |targets| == |instrs| && i < |instrs|
    ensures var now := Iterate(instrs, targets, r)[i];
            && now == instrs[i].(oparg := now.oparg)
            && (!HasTarget(instrs[i].op) ==> now == instrs[i])
    decreases r
  {
    hide HasTarget, NewOparg, TargetOffset, Offset;
    if r > 0 {
      var prev := Iterate(instrs, targets, r - 1);
      IterateKeeps(instrs, targets, r - 1, i);
      RoundAt(prev, targets, i);
      assert Iterate(instrs, targets, r)[i] == Rewritten(prev, targets[i], i);
    } else {
      assert instrs[i] == instrs[i].(oparg := instrs[i].oparg);
    }
  }

  // The whole of what the two passes leave of the sequence they were given.
  lemma {:induction false} OnlyJumpsChange(instrs: seq<Instr>, res: seq<Instr>, i: nat)
    requires IsResolved(Directed(instrs), Targets(Directed(instrs)), res) && i < |instrs|
    ensures |res| == |instrs| && Relabelled(instrs[i], res[i], i)
  {
    hide Round, InstrSize, HasTarget, Settled, Targets, Directed;
    var d := Directed(instrs);
    var r: nat :| Settled(Iterate(d, Targets(d), r), Targets(d)) && res == Iterate(d, Targets(d), r + 1);
    DirectedKeeps(instrs, i);
    IterateKeeps(d, Targets(d), r + 1, i);
  }
}
