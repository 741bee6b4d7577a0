// When does the jump-resolution loop end?  One round is monotone in the sizes
// of the instructions, so once a round makes no instruction narrower, or none
// wider, the loop stops within three rounds per instruction.  From other
// starting sizes it may never stop: see Diverges.
module JumpProgress {
  import opened Bytecode
  import opened Jumps

  // Every instruction of a is at most as wide as its counterpart in b.
  ghost predicate Narrower(a: seq<Instr>, b: seq<Instr>)
    requires |a| == |b|
  {
    forall i :: 0 <= i < |a| ==> InstrSize(a[i]) <= InstrSize(b[i])
  }

  ghost predicate SameOps(a: seq<Instr>, b: seq<Instr>) {
    |a| == |b| && forall i :: 0 <= i < |a| ==> a[i].op == b[i].op
  }

  // The number of instructions among [lo, hi) that are emitted at all.
  function Emitted(instrs: seq<Instr>, lo: nat, hi: nat): nat
    requires lo <= hi <= |instrs|
  {
    if lo == hi then 0 else Emitted(instrs, lo, hi - 1) + if instrs[hi - 1].op == POP_BLOCK then 0 else 1
  }

  // Each END_ASYNC_FOR closes a loop of at least END_SEND_OFFSET instructions.
  ghost predicate AsyncLoopsLong(instrs: seq<Instr>, targets: seq<Int32>)
    requires |targets| == |instrs|
  {
    forall i :: 0 <= i < |instrs| && instrs[i].op == END_ASYNC_FOR ==> AsyncLoopLong(instrs, targets[i], i)
  }

  ghost predicate AsyncLoopLong(instrs: seq<Instr>, t: int, i: nat)
    requires i < |instrs|
  {
    var from := if 0 <= t < |instrs| then t else 0;
    from <= i && END_SEND_OFFSET <= Emitted(instrs, from, i + 1)
  }

  lemma {:induction false} EmittedSameOps(a: seq<Instr>, b: seq<Instr>, lo: nat, hi: nat)
    requires SameOps(a, b) && lo <= hi <= |a|
    ensures Emitted(a, lo, hi) == Emitted(b, lo, hi)
    decreases hi
  {
    if lo < hi { EmittedSameOps(a, b, lo, hi - 1); }
  }

  // Every emitted instruction takes at least one unit.
  lemma {:induction false} EmittedFits(instrs: seq<Instr>, lo: nat, hi: nat)
    requires lo <= hi <= |instrs|
    ensures Offset(instrs, lo) + Emitted(instrs, lo, hi) <= Offset(instrs, hi)
    decreases hi
  {
    if lo < hi { EmittedFits(instrs, lo, hi - 1); }
  }

  lemma {:induction false} SpanMonotone(a: seq<Instr>, b: seq<Instr>, lo: nat, hi: nat)
    requires SameOps(a, b) && Narrower(a, b) && lo <= hi <= |a|
    ensures 0 <= Offset(a, hi) - Offset(a, lo) <= Offset(b, hi) - Offset(b, lo)
    decreases hi
  {
    hide InstrSize;
    if lo < hi { SpanMonotone(a, b, lo, hi - 1); }
  }

  // The distance that a round computes for jump i, as a plain number.
  function Reach(instrs: seq<Instr>, t: int, i: nat): int
    requires i < |instrs|
  {
    var cur, off := Offset(instrs, i + 1), TargetOffset(instrs, t);
    if instrs[i].op == END_ASYNC_FOR then cur - off - END_SEND_OFFSET else if off < cur then cur - off else off - cur
  }

  lemma {:induction false} RewrittenReach(instrs: seq<Instr>, t: int, i: nat)
    requires i < |instrs| && HasTarget(instrs[i].op) && Units(instrs) < MAX_UNITS
    ensures Rewritten(instrs, t, i).oparg == Reach(instrs, t, i)
  {
    hide NewOparg, HasTarget;
    OffsetMonotone(instrs, i + 1, |instrs|);
    if 0 <= t < |instrs| { OffsetMonotone(instrs, t, |instrs|); }
    DistanceFits(instrs[i].op, Offset(instrs, i + 1), TargetOffset(instrs, t));
  }

  lemma {:induction false} ReachMonotone(a: seq<Instr>, b: seq<Instr>, t: int, i: nat)
    requires SameOps(a, b) && Narrower(a, b) && i < |a| && HasTarget(a[i].op)
    requires a[i].op == END_ASYNC_FOR ==> AsyncLoopLong(a, t, i)
    ensures 0 <= Reach(a, t, i) <= Reach(b, t, i)
  {
    hide HasTarget, InstrSize;
    JumpSize(a[i]);
    JumpSize(b[i]);
    var from := if 0 <= t < |a| then t else 0;
    assert Offset(a, 0) == Offset(b, 0) == 0;
    if from <= i {
      SpanMonotone(a, b, from, i + 1);
      SpanMonotone(a, a, from, i);
      SpanMonotone(b, b, from, i);
      EmittedFits(a, from, i + 1);
    } else {
      SpanMonotone(a, b, i + 1, from);
    }
  }

  lemma {:induction false} SizeOfDistance(ins: Instr)
    requires 0 <= ins.oparg && ins.op != POP_BLOCK
    ensures InstrSize(ins) == Width(ins.oparg) + CacheCount(ins.op)
  {
  }

  // One round is monotone.
  lemma {:induction false} RoundMonotone(a: seq<Instr>, b: seq<Instr>, targets: seq<Int32>)
    requires SameOps(a, b) && Narrower(a, b) && |targets| == |a|
    requires AsyncLoopsLong(a, targets) && Units(b) < MAX_UNITS
    ensures Narrower(Round(a, targets), Round(b, targets))
  {
    SpanMonotone(a, b, 0, |a|);
    forall i | 0 <= i < |a| ensures InstrSize(Round(a, targets)[i]) <= InstrSize(Round(b, targets)[i]) {
      if HasTarget(a[i].op) {
        JumpMonotone(a, b, targets[i], i);
      }
    }
  }

  lemma {:induction false} JumpMonotone(a: seq<Instr>, b: seq<Instr>, t: int, i: nat)
    requires SameOps(a, b) && Narrower(a, b) && i < |a| && HasTarget(a[i].op)
    requires a[i].op == END_ASYNC_FOR ==> AsyncLoopLong(a, t, i)
    requires Units(a) < MAX_UNITS && Units(b) < MAX_UNITS
    ensures InstrSize(Rewritten(a, t, i)) <= InstrSize(Rewritten(b, t, i))
  {
    hide InstrSize, Reach, Width, CacheCount;
    RewrittenReach(a, t, i);
    RewrittenReach(b, t, i);
    ReachMonotone(a, b, t, i);
    WidthMonotone(Reach(a, t, i), Reach(b, t, i));
    SizeOfDistance(Rewritten(a, t, i));
    SizeOfDistance(Rewritten(b, t, i));
  }

  // ----- bounds -----

  // Opcodes alone fix the size of an instruction up to three units.
  lemma {:induction false} SizeWithinThree(a: Instr, b: Instr)
    requires a.op == b.op
    ensures InstrSize(a) <= InstrSize(b) + 3
    ensures InstrSize(a) <= 13
  {
    WidthAtMostFour(ToUint32(a.oparg));
  }

  lemma {:induction false} UnitsWithin(a: seq<Instr>, b: seq<Instr>, k: nat)
    requires SameOps(a, b) && k <= |a|
    ensures Offset(a, k) <= Offset(b, k) + 3 * k
    ensures Offset(a, k) <= 13 * k
  {
    hide InstrSize;
    if k > 0 {
      UnitsWithin(a, b, k - 1);
      SizeWithinThree(a[k - 1], b[k - 1]);
    }
  }

  // Nothing got narrower and something got wider: the code grew.
  lemma {:induction false} StrictlyWider(a: seq<Instr>, b: seq<Instr>, k: nat, j: nat)
    requires SameOps(a, b) && Narrower(a, b) && j < k <= |a| && InstrSize(a[j]) != InstrSize(b[j])
    ensures Offset(a, k) < Offset(b, k)
    decreases k
  {
    hide InstrSize;
    if j == k - 1 {
      SpanMonotone(a, b, 0, j);
    } else {
      StrictlyWider(a, b, k - 1, j);
    }
  }

  lemma {:induction false} Moved(a: seq<Instr>, targets: seq<Int32>) returns (j: nat)
    requires |targets| == |a| && !Settled(a, targets)
    ensures j < |a| && InstrSize(Round(a, targets)[j]) != InstrSize(a[j])
  {
    j :| 0 <= j < |a| && InstrSize(Round(a, targets)[j]) != InstrSize(a[j]);
  }

  lemma {:induction false} AsyncLoopsStay(a: seq<Instr>, b: seq<Instr>, targets: seq<Int32>)
    requires SameOps(a, b) && |targets| == |a| && AsyncLoopsLong(a, targets)
    ensures AsyncLoopsLong(b, targets)
  {
    forall i | 0 <= i < |b| && b[i].op == END_ASYNC_FOR ensures AsyncLoopLong(b, targets[i], i) {
      assert AsyncLoopLong(a, targets[i], i);
      EmittedSameOps(a, b, if 0 <= targets[i] < |a| then targets[i] else 0, i + 1);
    }
  }

  lemma {:induction false} IterateSplit(instrs: seq<Instr>, targets: seq<Int32>, r: nat)
    requires |targets| == |instrs|
    ensures Iterate(Round(instrs, targets), targets, r) == Iterate(instrs, targets, r + 1)
    decreases r
  {
    hide Round;
    if r > 0 { IterateSplit(instrs, targets, r - 1); }
  }

  // ----- the loop ends -----

  // Upward from a round that made nothing narrower.
  lemma {:induction false} Climb(a: seq<Instr>, targets: seq<Int32>, room: nat) returns (r: nat)
    requires |targets| == |a| && 13 * |a| < MAX_UNITS && AsyncLoopsLong(a, targets)
    requires Narrower(a, Round(a, targets))
    requires forall b :: SameOps(a, b) ==> Units(b) <= Units(a) + room
    ensures r <= room && Settled(Iterate(a, targets, r), targets)
    decreases room
  {
    hide Round, InstrSize, Settled, AsyncLoopsLong, Narrower;
    var b := Round(a, targets);
    if Settled(a, targets) { return 0; }
    var j := Moved(a, targets);
    StrictlyWider(a, b, |a|, j);
    assert SameOps(a, b) && SameOps(a, Round(b, targets));
    assert Units(b) <= Units(a) + room;
    UnitsWithin(b, b, |b|);
    RoundMonotone(a, b, targets);
    AsyncLoopsStay(a, b, targets);
    forall c | SameOps(b, c) ensures Units(c) <= Units(b) + (room - 1) {
      assert SameOps(a, c);
    }
    var q := Climb(b, targets, room - 1);
    IterateSplit(a, targets, q);
    r := q + 1;
  }

  // Downward from a round that made nothing wider.
  lemma {:induction false} Descend(a: seq<Instr>, targets: seq<Int32>, room: nat) returns (r: nat)
    requires |targets| == |a| && 13 * |a| < MAX_UNITS && AsyncLoopsLong(a, targets)
    requires Narrower(Round(a, targets), a)
    requires forall b :: SameOps(a, b) ==> Units(a) <= Units(b) + room
    ensures r <= room && Settled(Iterate(a, targets, r), targets)
    decreases room
  {
    hide Round, InstrSize, Settled, AsyncLoopsLong, Narrower;
    var b := Round(a, targets);
    if Settled(a, targets) { return 0; }
    var j := Moved(a, targets);
    StrictlyWider(b, a, |a|, j);
    assert SameOps(a, b) && SameOps(a, Round(b, targets));
    assert Units(a) <= Units(b) + room;
    UnitsWithin(a, a, |a|);
    AsyncLoopsStay(a, b, targets);
    RoundMonotone(b, a, targets);
    forall c | SameOps(b, c) ensures Units(b) <= Units(c) + (room - 1) {
      assert SameOps(a, c);
    }
    var q := Descend(b, targets, room - 1);
    IterateSplit(a, targets, q);
    r := q + 1;
  }

  // Once a round makes no instruction narrower, the loop stops within three
  // more rounds per instruction, and every round on the way keeps growing.
  lemma {:induction false} SettlesUpward(a: seq<Instr>, targets: seq<Int32>) returns (r: nat)
    requires |targets| == |a| && 13 * |a| < MAX_UNITS && AsyncLoopsLong(a, targets)
    requires Narrower(a, Round(a, targets))
    ensures r <= 3 * |a| && Settled(Iterate(a, targets, r), targets)
  {
    forall b | SameOps(a, b) ensures Units(b) <= Units(a) + 3 * |a| {
      UnitsWithin(b, a, |a|);
    }
    r := Climb(a, targets, 3 * |a|);
  }

  lemma {:induction false} SettlesDownward(a: seq<Instr>, targets: seq<Int32>) returns (r: nat)
    requires |targets| == |a| && 13 * |a| < MAX_UNITS && AsyncLoopsLong(a, targets)
    requires Narrower(Round(a, targets), a)
    ensures r <= 3 * |a| && Settled(Iterate(a, targets, r), targets)
  {
    forall b | SameOps(a, b) ensures Units(a) <= Units(b) + 3 * |a| {
      UnitsWithin(a, b, |a|);
    }
    r := Descend(a, targets, 3 * |a|);
  }

  // Every later round moves the same way.
  lemma {:induction false} KeepsClimbing(a: seq<Instr>, targets: seq<Int32>, r: nat)
    requires |targets| == |a| && 13 * |a| < MAX_UNITS && AsyncLoopsLong(a, targets)
    requires Narrower(a, Round(a, targets))
    ensures Narrower(Iterate(a, targets, r), Iterate(a, targets, r + 1))
    decreases r
  {
    hide Round, InstrSize, AsyncLoopsLong, Narrower;
    IterateStep(a, targets, 0);
    if r > 0 {
      KeepsClimbing(a, targets, r - 1);
      var b, c := Iterate(a, targets, r - 1), Iterate(a, targets, r);
      AsyncLoopsStay(a, b, targets);
      UnitsWithin(c, c, |c|);
      RoundMonotone(b, c, targets);
      IterateStep(a, targets, r - 1);
      IterateStep(a, targets, r);
    }
  }

  lemma {:induction false} KeepsDescending(a: seq<Instr>, targets: seq<Int32>, r: nat)
    requires |targets| == |a| && 13 * |a| < MAX_UNITS && AsyncLoopsLong(a, targets)
    requires Narrower(Round(a, targets), a)
    ensures Narrower(Iterate(a, targets, r + 1), Iterate(a, targets, r))
    decreases r
  {
    hide Round, InstrSize, AsyncLoopsLong, Narrower;
    IterateStep(a, targets, 0);
    if r > 0 {
      KeepsDescending(a, targets, r - 1);
      var b, c := Iterate(a, targets, r), Iterate(a, targets, r - 1);
      AsyncLoopsStay(a, b, targets);
      UnitsWithin(c, c, |c|);
      RoundMonotone(b, c, targets);
      IterateStep(a, targets, r - 1);
      IterateStep(a, targets, r);
    }
  }

  // ----- exactly when the loop ends -----

  lemma {:induction false} IterateAdd(a: seq<Instr>, targets: seq<Int32>, q: nat, r: nat)
    requires |targets| == |a|
    ensures Iterate(Iterate(a, targets, q), targets, r) == Iterate(a, targets, q + r)
    decreases r
  {
    hide Round;
    if r > 0 { IterateAdd(a, targets, q, r - 1); }
  }

  // The loop ends if and only if some round makes no instruction narrower, and
  // if and only if some round makes no instruction wider.
  lemma {:induction false} SettlesExactly(a: seq<Instr>, targets: seq<Int32>)
    requires |targets| == |a| && 13 * |a| < MAX_UNITS && AsyncLoopsLong(a, targets)
    ensures Settles(a, targets) <==> exists q: nat :: Narrower(Iterate(a, targets, q), Round(Iterate(a, targets, q), targets))
    ensures Settles(a, targets) <==> exists q: nat :: Narrower(Round(Iterate(a, targets, q), targets), Iterate(a, targets, q))
  {
    hide InstrSize, Round, AsyncLoopsLong;
    if Settles(a, targets) {
      var r: nat :| Settled(Iterate(a, targets, r), targets);
      var b := Iterate(a, targets, r);
      assert Narrower(b, Round(b, targets)) && Narrower(Round(b, targets), b);
    }
    if q: nat :| Narrower(Iterate(a, targets, q), Round(Iterate(a, targets, q), targets)) {
      AsyncLoopsStay(a, Iterate(a, targets, q), targets);
      var r := SettlesUpward(Iterate(a, targets, q), targets);
      IterateAdd(a, targets, q, r);
    }
    if q: nat :| Narrower(Round(Iterate(a, targets, q), targets), Iterate(a, targets, q)) {
      AsyncLoopsStay(a, Iterate(a, targets, q), targets);
      var r := SettlesDownward(Iterate(a, targets, q), targets);
      IterateAdd(a, targets, q, r);
    }
  }

  // No jump can become narrower than an argument of one byte.
  ghost predicate StartsNarrow(instrs: seq<Instr>) {
    forall i :: 0 <= i < |instrs| && HasTarget(instrs[i].op) ==> 0 <= instrs[i].oparg <= 0xff
  }

  lemma {:induction false} NarrowestJump(a: Instr, b: Instr)
    requires HasTarget(a.op) && a.op == b.op && 0 <= a.oparg <= 0xff
    ensures InstrSize(a) <= InstrSize(b)
  {
    WidthAtMostFour(ToUint32(b.oparg));
  }

  // What a caller can check beforehand: if every target fits in one byte, the
  // loop ends.
  lemma {:induction false} NarrowStartSettles(a: seq<Instr>, targets: seq<Int32>)
    requires |targets| == |a| && 13 * |a| < MAX_UNITS && AsyncLoopsLong(a, targets)
    requires StartsNarrow(a)
    ensures Settles(a, targets)
    ensures exists r: nat :: r <= 3 * |a| && Settled(Iterate(a, targets, r), targets)
  {
    hide InstrSize, Rewritten, AsyncLoopsLong;
    forall i | 0 <= i < |a| ensures InstrSize(a[i]) <= InstrSize(Round(a, targets)[i]) {
      RewrittenShape(a, targets[i], i);
      if HasTarget(a[i].op) { NarrowestJump(a[i], Rewritten(a, targets[i], i)); }
    }
    var r := SettlesUpward(a, targets);
  }

  lemma RewrittenShape(a: seq<Instr>, t: int, i: nat)
    requires i < |a|
    ensures Rewritten(a, t, i).op == a[i].op && (!HasTarget(a[i].op) ==> Rewritten(a, t, i) == a[i])
  {
  }

  // So it does on every sequence of at most 256 instructions with its targets
  // inside.
  lemma {:induction false} ShortCodeSettles(instrs: seq<Instr>)
    requires |instrs| <= 256 && AsyncLoopsLong(instrs, Targets(instrs))
    requires forall i :: 0 <= i < |instrs| && HasTarget(instrs[i].op) ==> 0 <= instrs[i].oparg < |instrs|
    ensures Settles(instrs, Targets(instrs))
  {
    NarrowStartSettles(instrs, Targets(instrs));
  }
}
