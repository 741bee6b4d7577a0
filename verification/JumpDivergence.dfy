// A program of no-ops and six jumps on which the jump-resolution loop never
// stops: from the second round on it alternates between two sets of widths.
// In each of them some jumps have just outgrown one byte because others are
// wide, and in the next they have shrunk back because those are narrow.
module JumpDivergence {
  import opened Bytecode
  import opened Jumps

  const NOP: int := 27
  const LENGTH: nat := 515

  // The arguments of the six jumps, in the order of their positions.
  datatype Args = Args(a0: Int32, a1: Int32, a2: Int32, a3: Int32, a4: Int32, a5: Int32)

  const HERE := Pos(1, 1, 0, 0)
  const NO_HANDLER := Handler(-1, -1, -1)

  function Unit(i: nat, a: Args): Instr {
    if i == 5 then Instr(JUMP_FORWARD, a.a0, HERE, NO_HANDLER)
    else if i == 254 then Instr(JUMP_FORWARD, a.a1, HERE, NO_HANDLER)
    else if i == 256 then Instr(JUMP_BACKWARD_NO_INTERRUPT, a.a2, HERE, NO_HANDLER)
    else if i == 257 then Instr(JUMP_BACKWARD_NO_INTERRUPT, a.a3, HERE, NO_HANDLER)
    else if i == 258 then Instr(JUMP_FORWARD, a.a4, HERE, NO_HANDLER)
    else if i == 508 then Instr(JUMP_BACKWARD_NO_INTERRUPT, a.a5, HERE, NO_HANDLER)
    else Instr(NOP, 0, HERE, NO_HANDLER)
  }

  function Program(a: Args): (r: seq<Instr>)
    ensures |r| == LENGTH
  {
    seq(LENGTH, i requires 0 <= i < LENGTH => Unit(i, a))
  }

  // The indices the six jumps name.
  const NAMED := Args(259, 508, 3, 4, 514, 256)

  // What the code generator hands over: undirected jumps to those indices.
  function Source(): (r: seq<Instr>)
    ensures |r| == LENGTH
  {
    seq(LENGTH, i requires 0 <= i < LENGTH =>
      if i in {5, 254, 256, 257, 258, 508} then Unit(i, NAMED).(op := JUMP_NO_INTERRUPT) else Unit(i, NAMED))
  }

  lemma SourceDirected()
    ensures Directed(Source()) == Program(NAMED)
  {
    forall i | 0 <= i < LENGTH ensures Directed(Source())[i] == Program(NAMED)[i] {
    }
  }

  // Extra units of a jump whose argument needs a second byte.
  function Extra(arg: int): nat { if 0 <= arg <= 0xff then 0 else 1 }

  // Arguments of one or two bytes.
  predicate Small(a: Args) {
    && 0 <= a.a0 < 0x1_0000 && 0 <= a.a1 < 0x1_0000 && 0 <= a.a2 < 0x1_0000
    && 0 <= a.a3 < 0x1_0000 && 0 <= a.a4 < 0x1_0000 && 0 <= a.a5 < 0x1_0000
  }

  function ExtraBefore(a: Args, k: nat): nat {
    (if k > 5 then Extra(a.a0) else 0) + (if k > 254 then Extra(a.a1) else 0) + (if k > 256 then Extra(a.a2) else 0)
    + (if k > 257 then Extra(a.a3) else 0) + (if k > 258 then Extra(a.a4) else 0) + (if k > 508 then Extra(a.a5) else 0)
  }

  lemma UnitSize(i: nat, a: Args)
    requires Small(a)
    ensures InstrSize(Unit(i, a)) == 1 + ExtraBefore(a, i + 1) - ExtraBefore(a, i)
  {
    hide Width, ToUint32;
    var arg := Unit(i, a).oparg;
    SmallArg(Unit(i, a));
  }

  lemma SmallArg(ins: Instr)
    requires 0 <= ins.oparg < 0x1_0000 && ins.op != POP_BLOCK
    ensures InstrSize(ins) == 1 + Extra(ins.oparg) + CacheCount(ins.op)
  {
    WidthAtMostFour(ins.oparg);
  }

  lemma {:induction false} ProgramOffset(a: Args, k: nat)
    requires Small(a) && k <= LENGTH
    ensures Offset(Program(a), k) == k + ExtraBefore(a, k)
  {
    hide InstrSize, Unit;
    if k > 0 {
      ProgramOffset(a, k - 1);
      UnitSize(k - 1, a);
    } else {
      assert ExtraBefore(a, 0) == 0;
    }
  }

  // The arguments after a round: the no-ops in each span and the wide jumps
  // among them.
  function Next(a: Args): Args {
    Args(
      253 + Extra(a.a1) + Extra(a.a2) + Extra(a.a3) + Extra(a.a4),
      253 + Extra(a.a2) + Extra(a.a3) + Extra(a.a4),
      254 + Extra(a.a0) + Extra(a.a1) + Extra(a.a2),
      254 + Extra(a.a0) + Extra(a.a1) + Extra(a.a2) + Extra(a.a3),
      255 + Extra(a.a5),
      253 + Extra(a.a2) + Extra(a.a3) + Extra(a.a4) + Extra(a.a5))
  }

  lemma NextInOffsets(a: Args)
    ensures Next(a) == Args(
      259 + ExtraBefore(a, 259) - 6 - ExtraBefore(a, 6),
      508 + ExtraBefore(a, 508) - 255 - ExtraBefore(a, 255),
      257 + ExtraBefore(a, 257) - 3 - ExtraBefore(a, 3),
      258 + ExtraBefore(a, 258) - 4 - ExtraBefore(a, 4),
      514 + ExtraBefore(a, 514) - 259 - ExtraBefore(a, 259),
      509 + ExtraBefore(a, 509) - 256 - ExtraBefore(a, 256))
  {
  }

  lemma ProgramTargets()
    ensures var t := Targets(Program(NAMED));
            t[5] == 259 && t[254] == 508 && t[256] == 3 && t[257] == 4 && t[258] == 514 && t[508] == 256
  {
  }

  lemma {:induction false} RewrittenJump(a: Args, t: nat, i: nat)
    requires Small(a) && i < LENGTH && t < LENGTH && HasTarget(Unit(i, a).op) && Unit(i, a).op != END_ASYNC_FOR
    ensures var cur, off := i + 1 + ExtraBefore(a, i + 1), t + ExtraBefore(a, t);
            Rewritten(Program(a), t, i) == Unit(i, a).(oparg := if off < cur then cur - off else off - cur)
  {
    hide Unit, HasTarget, NewOparg, ToInt32;
    ProgramOffset(a, i + 1);
    ProgramOffset(a, t);
    DistanceFits(Unit(i, a).op, i + 1 + ExtraBefore(a, i + 1), t + ExtraBefore(a, t));
  }

  lemma {:induction false} ProgramRound(a: Args)
    requires Small(a)
    ensures Round(Program(a), Targets(Program(NAMED))) == Program(Next(a))
  {
    hide Round, NewOparg, Targets, Offset, Next;
    NextInOffsets(a);
    var targets := Targets(Program(NAMED));
    ProgramTargets();
    RewrittenJump(a, 259, 5);
    RewrittenJump(a, 508, 254);
    RewrittenJump(a, 3, 256);
    RewrittenJump(a, 4, 257);
    RewrittenJump(a, 514, 258);
    RewrittenJump(a, 256, 508);
    forall i | 0 <= i < LENGTH ensures Rewritten(Program(a), targets[i], i) == Unit(i, Next(a)) {
    }
    RoundByUnits(Program(a), targets, Program(Next(a)));
  }

  lemma RoundByUnits(instrs: seq<Instr>, targets: seq<Int32>, res: seq<Instr>)
    requires |targets| == |instrs| == |res|
    requires forall i :: 0 <= i < |instrs| ==> Rewritten(instrs, targets[i], i) == res[i]
    ensures Round(instrs, targets) == res
  {
  }

  const EVEN := Args(256, 256, 255, 256, 255, 256)
  const ODD := Args(255, 254, 256, 257, 256, 255)

  const FIRST := Args(255, 254, 256, 256, 256, 255)

  lemma NextOf(a: Args, e0: nat, e1: nat, e2: nat, e3: nat, e4: nat, e5: nat)
    requires e0 == Extra(a.a0) && e1 == Extra(a.a1) && e2 == Extra(a.a2)
    requires e3 == Extra(a.a3) && e4 == Extra(a.a4) && e5 == Extra(a.a5)
    ensures Next(a) == Args(253 + e1 + e2 + e3 + e4, 253 + e2 + e3 + e4, 254 + e0 + e1 + e2, 254 + e0 + e1 + e2 + e3, 255 + e5, 253 + e2 + e3 + e4 + e5)
  {
  }

  lemma TwoCycle()
    ensures Next(NAMED) == FIRST && Next(FIRST) == EVEN && Next(EVEN) == ODD && Next(ODD) == EVEN
  {
    hide Next;
    NextOf(NAMED, 1, 1, 0, 0, 1, 1);
    NextOf(FIRST, 0, 0, 1, 1, 1, 0);
    NextOf(EVEN, 1, 1, 0, 1, 0, 1);
    NextOf(ODD, 0, 0, 1, 1, 1, 0);
  }

  // Where the rounds are.
  lemma {:induction false} RoundsAlternate(r: nat)
    ensures var p := Program(NAMED);
            && Iterate(p, Targets(p), 2 * r + 2) == Program(EVEN)
            && Iterate(p, Targets(p), 2 * r + 3) == Program(ODD)
    decreases r
  {
    hide Round, Program, Targets, Next;
    var p := Program(NAMED);
    var t := Targets(p);
    TwoCycle();
    ProgramRound(EVEN);
    ProgramRound(ODD);
    if r == 0 {
      ProgramRound(NAMED);
      ProgramRound(FIRST);
      IterateStep(p, t, 0);
      IterateStep(p, t, 1);
    } else {
      RoundsAlternate(r - 1);
      IterateStep(p, t, 2 * r + 1);
    }
    IterateStep(p, t, 2 * r + 2);
  }

  // No round is the last one: the loop runs for ever.
  lemma {:induction false} Diverges()
    ensures var p := Directed(Source());
            !Settles(p, Targets(p))
  {
    hide Iterate, Round, Targets;
    SourceDirected();
    var p := Program(NAMED);
    forall r: nat ensures !Settled(Iterate(p, Targets(p), r), Targets(p)) {
      Unsettled(r);
    }
  }

  lemma {:induction false} Unsettled(r: nat)
    ensures var p := Program(NAMED);
            !Settled(Iterate(p, Targets(p), r), Targets(p))
  {
    hide Iterate, Targets, Round;
    var p := Program(NAMED);
    var t := Targets(p);
    var now := Iterate(p, t, r);
    IterateStep(p, t, r);
    var next := Iterate(p, t, r + 1);
    if r >= 2 {
      RoundsAlternate((r - 2) / 2);
      if r % 2 == 0 {
        JumpWidths(EVEN, ODD);
      } else {
        RoundsAlternate((r - 2) / 2 + 1);
        JumpWidths(ODD, EVEN);
      }
    } else {
      EarlyRounds();
    }
    assert InstrSize(now[5]) != InstrSize(next[5]);
  }

  lemma {:induction false} EarlyRounds()
    ensures var p := Program(NAMED);
            var t := Targets(p);
            && InstrSize(Iterate(p, t, 0)[5]) != InstrSize(Iterate(p, t, 1)[5])
            && InstrSize(Iterate(p, t, 1)[5]) != InstrSize(Iterate(p, t, 2)[5])
  {
    hide Round, Targets, Program, Next, InstrSize;
    ProgramRound(NAMED);
    TwoCycle();
    IterateStep(Program(NAMED), Targets(Program(NAMED)), 0);
    RoundsAlternate(0);
    JumpWidths(NAMED, FIRST);
    JumpWidths(FIRST, EVEN);
  }

  lemma JumpWidths(a: Args, b: Args)
    requires Small(a) && Small(b)
    ensures InstrSize(Program(a)[5]) == 1 + Extra(a.a0) && InstrSize(Program(b)[5]) == 1 + Extra(b.a0)
  {
    UnitSize(5, a);
    UnitSize(5, b);
  }
}
