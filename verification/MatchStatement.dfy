// The match statement: cases are tried in order, the body of the first one
// whose pattern matches and whose guard holds is run, and every path reaches
// the end at the stack height the statement started from.
module MatchStatement {
  import opened Machine
  import opened Expressions
  import opened ExpressionProofs
  import opened Patterns
  import opened PatternFrames
  import opened PatternSteps
  import opened PatternProofs

  // body names the case's statements, which are compiled elsewhere.
  datatype MatchCase = MatchCase(pattern: Pattern, guard: Option<Expr>, body: nat)

  // ----- meaning -----

  // The names a pattern binds, in the order in which it captures them.
  function BoundNames(p: Pattern): seq<string>
    decreases p, 1
  {
    match p
    case MatchValue(_) => []
    case MatchSingleton(_) => []
    case MatchSequence(ps) => SubNames(ps, 0)
    case MatchMapping(_, ps, rest) => SubNames(ps, 0) + OptName(rest)
    case MatchClass(_, ps, _, kwds) => SubNames(ps, 0) + SubNames(kwds, 0)
    case MatchStar(name) => OptName(name)
    case MatchAs(sub, name) => (if sub.Some? then BoundNames(sub.value) else []) + OptName(name)
    case MatchOr(alts) => if alts == [] then [] else BoundNames(alts[0])
  }

  function SubNames(ps: seq<Pattern>, i: nat): seq<string>
    requires i <= |ps|
    decreases ps, |ps| - i
  {
    if i == |ps| then [] else BoundNames(ps[i]) + SubNames(ps, i + 1)
  }

  function OptName(name: Option<string>): seq<string> {
    if name.Some? then [name.value] else []
  }

  datatype Progress = Going(s: State) | Faulted(s: State)

  // Store names[i..] one after the other.
  function StoreNames(w: World, names: seq<string>, i: nat, b: map<string, Value>, s: State): Progress
    requires i <= |names|
    decreases |names| - i
  {
    if i == |names| then Going(s)
    else
      match Act(w, s, Stored(names[i], if names[i] in b then b[names[i]] else NoneValue))
      case Val(_, s1) => StoreNames(w, names, i + 1, b, s1)
      case Exc(s1) => Faulted(s1)
  }

  datatype CaseResult = Taken(s: State) | Skipped(s: State) | CaseRaised(s: State)

  function RunBody(w: World, body: nat, s: State): CaseResult {
    match Act(w, s, RanBody(body))
    case Val(_, s1) => Taken(s1)
    case Exc(s1) => CaseRaised(s1)
  }

  function RunGuarded(w: World, guard: Option<Expr>, body: nat, s: State): CaseResult {
    if guard.None? then RunBody(w, body, s)
    else
      match Eval(w, guard.value, s)
      case Exc(s1) => CaseRaised(s1)
      case Val(g, s1) => if Truth(w, g) then RunBody(w, body, s1) else Skipped(s1)
  }

  function RunCase(w: World, m: MatchCase, v: Value, s: State): CaseResult { AfterPattern(w, m, Match(w, m.pattern, v, s)) }

  // The case from the result of its pattern on.
  function AfterPattern(w: World, m: MatchCase, r: MatchResult): CaseResult {
    match r
    case MatchRaised(s1) => CaseRaised(s1)
    case NoMatch(s1) => Skipped(s1)
    case Matched(b, s1) =>
      match StoreNames(w, BoundNames(m.pattern), 0, b, s1)
      case Faulted(s2) => CaseRaised(s2)
      case Going(s2) => RunGuarded(w, m.guard, m.body, s2)
  }

  // Cases i.., in order, until one is taken.
  function RunCases(w: World, cases: seq<MatchCase>, i: nat, v: Value, s: State): Progress
    requires i <= |cases|
    decreases |cases| - i
  {
    if i == |cases| then Going(s)
    else
      match RunCase(w, cases[i], v, s)
      case Taken(s1) => Going(s1)
      case Skipped(s1) => RunCases(w, cases, i + 1, v, s1)
      case CaseRaised(s1) => Faulted(s1)
  }

  function RunMatch(w: World, subject: Expr, cases: seq<MatchCase>, s: State): Progress {
    match Eval(w, subject, s)
    case Exc(s1) => Faulted(s1)
    case Val(v, s1) => RunCases(w, cases, 0, v, s1)
  }

  // ----- emitted code -----

  function StoreCode(names: seq<string>): (r: seq<Instr>)
    ensures |r| == |names|
    ensures forall k :: 0 <= k < |r| ==> r[k] == StoreName(names[k])
  {
    seq(|names|, i requires 0 <= i < |names| => StoreName(names[i]))
  }

  // The guard of a refutable case: false goes to the bottom of the ladder.
  function GenGuard(guard: Option<Expr>, c: Code, pc: PatternContext): (r: Gen)
    ensures r.Emitted? ==> r.pc == pc.(failPop := r.pc.failPop)
  {
    if guard.None? then Emitted(c, pc)
    else
      var (c1, pc1) := EnsureFailPop(c, pc, 0);
      match GenExpr(guard.value, c1)
      case None => Rejected
      case Some(c2) => Emitted(AddAll(c2, [PopJumpIfFalse(pc1.failPop[0])]), pc1)
  }

  // Success: drop the spare subject, run the body, leave.
  function TakenCode(notLast: bool, body: nat, end: Label): seq<Instr> {
    (if notLast then [PopTop] else []) + [Body(body), Jump(end)]
  }

  function GenCase(m: MatchCase, notLast: bool, allow: bool, end: Label, c: Code): Option<Code> {
    match GenPattern(m.pattern, AddAll(c, if notLast then [Copy(1)] else []), PatternContext([], allow, [], 0))
    case Rejected => None
    case Emitted(c1, pc1) =>
      match GenGuard(m.guard, AddAll(c1, StoreCode(pc1.stores)), pc1)
      case Rejected => None
      case Emitted(c2, pc2) => Some(EmitFailPop(AddAll(c2, TakenCode(notLast, m.body, end)), pc2.failPop))
  }

  // Refutable cases i .. limit-1; only the very last case of the statement, or
  // a guarded one, may be irrefutable.
  function GenCases(cases: seq<MatchCase>, i: nat, limit: nat, end: Label, c: Code): Option<Code>
    requires i <= limit <= |cases|
    decreases limit - i
  {
    if i == limit then Some(c)
    else
      match GenCase(cases[i], i != limit - 1, cases[i].guard.Some? || i == |cases| - 1, end, c)
      case None => None
      case Some(c1) => GenCases(cases, i + 1, limit, end, c1)
  }

  function GenDefault(m: MatchCase, end: Label, c: Code): Option<Code> {
    var c1 := AddAll(c, [Nop]);
    if m.guard.None? then Some(AddAll(c1, [Body(m.body)]))
    else
      match GenExpr(m.guard.value, c1)
      case None => None
      case Some(c2) => Some(AddAll(c2, [PopJumpIfFalse(end), Body(m.body)]))
  }

  predicate HasDefault(cases: seq<MatchCase>) {
    |cases| > 1 && IsWildcard(cases[|cases| - 1].pattern)
  }

  function GenMatch(subject: Expr, cases: seq<MatchCase>, c: Code): Option<Code> {
    match GenExpr(subject, c)
    case None => None
    case Some(c1) =>
      if cases == [] then None
      else
        var limit := if HasDefault(cases) then |cases| - 1 else |cases|;
        match GenCases(cases, 0, limit, c1.next, Fresh(c1))
        case None => None
        case Some(c2) =>
          match (if HasDefault(cases) then GenDefault(cases[limit], c1.next, c2) else Some(c2))
          case None => None
          case Some(c3) => Some(Use(c3, c1.next))
  }

  // ----- names -----

  lemma {:induction false} GenPatternNames(p: Pattern, c: Code, pc: PatternContext)
    requires GenPattern(p, c, pc).Emitted?
    ensures GenPattern(p, c, pc).pc.stores == pc.stores + BoundNames(p)
    decreases p, 2
  {
    hide GenMapping, GenClass, GenSubpattern, JumpToFailPop, RotateCode;
    match p
    case MatchValue(_) =>
    case MatchSingleton(_) =>
    case MatchSequence(ps) =>
      var star := StarFrom(ps, 0);
      var (c1, pc1) := GenSequenceGates(star, |ps|, c, pc.(onTop := pc.onTop + 1));
      BodyNames(ps, star, c1, pc1.(onTop := pc1.onTop - 1));
    case MatchMapping(_, _, _) => MappingNames(p, c, pc);
    case MatchClass(_, _, _, _) => ClassNames(p, c, pc);
    case MatchStar(_) =>
    case MatchAs(sub, name) =>
      if sub.Some? { GenPatternNames(sub.value, AddAll(c, [Copy(1)]), pc.(onTop := pc.onTop + 1)); }
    case MatchOr(alts) => OrNames(alts, c, pc);
  }

  lemma {:induction false} BodyNames(ps: seq<Pattern>, star: int, c: Code, pc: PatternContext)
    requires star < |ps| && GenSequenceBody(ps, star, c, pc).Emitted?
    ensures GenSequenceBody(ps, star, c, pc).pc.stores == pc.stores + SubNames(ps, 0)
    decreases ps, |ps| + 1
  {
    if AllWild(ps) {
      WildNames(ps, 0);
    } else if star >= 0 && IsWildcardStar(ps[star]) {
      ItemsNames(ps, 0, star, c, pc.(onTop := pc.onTop + 1));
    } else {
      SubsNames(ps, 0, AddAll(c, [UnpackCode(star, |ps|)]), pc.(onTop := pc.onTop + |ps|));
    }
  }

  lemma {:induction false} SubsNames(ps: seq<Pattern>, i: nat, c: Code, pc: PatternContext)
    requires i <= |ps| && pc.onTop >= |ps| - i && GenSubs(ps, i, c, pc).Emitted?
    ensures GenSubs(ps, i, c, pc).pc.stores == pc.stores + SubNames(ps, i)
    decreases ps, |ps| - i
  {
    hide GenSubpattern, BoundNames;
    if i < |ps| {
      var pc1 := pc.(onTop := pc.onTop - 1);
      SubpatternNames(ps[i], c, pc1);
      var r := GenSubpattern(ps[i], c, pc1);
      SubsNames(ps, i + 1, r.code, r.pc);
    }
  }

  lemma {:induction false} ArgsNames(ps: seq<Pattern>, i: nat, c: Code, pc: PatternContext)
    requires i <= |ps| && pc.onTop >= |ps| - i && GenArgs(ps, i, c, pc).Emitted?
    ensures GenArgs(ps, i, c, pc).pc.stores == pc.stores + SubNames(ps, i)
    decreases ps, |ps| - i
  {
    hide GenSubpattern, BoundNames, AddAll;
    if i < |ps| {
      var pc1 := pc.(onTop := pc.onTop - 1);
      if IsWildcard(ps[i]) {
        WildcardNames(ps, i);
        ArgsNames(ps, i + 1, AddAll(c, [PopTop]), pc1);
      } else {
        var r := GenSubpattern(ps[i], c, pc1);
        SubpatternNames(ps[i], c, pc1);
        ArgsNames(ps, i + 1, r.code, r.pc);
        JoinNames(pc.stores, BoundNames(ps[i]), SubNames(ps, i + 1));
      }
    }
  }

  lemma {:induction false} ItemsNames(ps: seq<Pattern>, i: nat, star: nat, c: Code, pc: PatternContext)
    requires i <= |ps| && star < |ps| && IsWildcardStar(ps[star]) && GenItems(ps, i, star, c, pc).Emitted?
    ensures GenItems(ps, i, star, c, pc).pc.stores == pc.stores + SubNames(ps, i)
    decreases ps, |ps| - i
  {
    hide GenSubpattern, BoundNames, AddAll, ItemCode;
    if i == |ps| {
    } else if IsWildcard(ps[i]) || i == star {
      WildcardNames(ps, i);
      ItemsNames(ps, i + 1, star, c, pc);
    } else {
      var c1 := AddAll(c, ItemCode(|ps|, i, star));
      var r := GenSubpattern(ps[i], c1, pc);
      SubpatternNames(ps[i], c1, pc);
      ItemsNames(ps, i + 1, star, r.code, r.pc);
      JoinNames(pc.stores, BoundNames(ps[i]), SubNames(ps, i + 1));
    }
  }

  lemma {:induction false} WildcardNames(ps: seq<Pattern>, i: nat)
    requires i < |ps| && (IsWildcard(ps[i]) || IsWildcardStar(ps[i]))
    ensures SubNames(ps, i) == SubNames(ps, i + 1)
  {
    assert BoundNames(ps[i]) == [];
    assert [] + SubNames(ps, i + 1) == SubNames(ps, i + 1);
  }

  lemma {:induction false} JoinNames(x: seq<string>, y: seq<string>, z: seq<string>)
    ensures x + y + z == x + (y + z)
  {
  }

  lemma {:induction false} SubpatternNames(p: Pattern, c: Code, pc: PatternContext)
    requires GenSubpattern(p, c, pc).Emitted?
    ensures GenSubpattern(p, c, pc).pc.stores == pc.stores + BoundNames(p)
    decreases p, 3
  {
    GenPatternNames(p, c, pc.(allowIrrefutable := true));
  }

  lemma {:induction false} WildNames(ps: seq<Pattern>, i: nat)
    requires i <= |ps| && AllWild(ps)
    ensures SubNames(ps, i) == []
    decreases |ps| - i
  {
    if i < |ps| {
      assert IsWildcard(ps[i]) || IsWildcardStar(ps[i]);
      WildcardNames(ps, i);
      WildNames(ps, i + 1);
    }
  }

  lemma {:induction false} MappingNames(p: Pattern, c: Code, pc: PatternContext)
    requires p.MatchMapping? && GenMapping(p, c, pc).Emitted?
    ensures GenMapping(p, c, pc).pc.stores == pc.stores + BoundNames(p)
    decreases p, 1
  {
    hide JumpToFailPop, GenSubpattern, GenKeys;
    var n := |p.keys|;
    var (c1, pc1) := JumpToFailPop(AddAll(c, [MatchMappingOp]), pc.(onTop := pc.onTop + 1), false);
    if !(n == 0 && p.rest.None?) {
      var r1 := GenMappingLookup(p.keys, c1, pc1);
      SubsNames(p.values, 0, AddAll(r1.code, [UnpackSequence(n)]), r1.pc.(onTop := r1.pc.onTop + n - 1));
    }
  }

  lemma {:induction false} ClassNames(p: Pattern, c: Code, pc: PatternContext)
    requires p.MatchClass? && GenClass(p, c, pc).Emitted?
    ensures GenClass(p, c, pc).pc.stores == pc.stores + BoundNames(p)
    decreases p, 1
  {
    hide JumpToFailPop, ClassBlock;
    var c1 := GenExpr(p.cls, c).value;
    var (c2, pc2) := JumpToFailPop(AddAll(c1, ClassBlock(p)), pc.(onTop := pc.onTop + 1), false);
    var n := |p.positional| + |p.kwdAttrs|;
    var c3, pc3 := AddAll(c2, [UnpackSequence(n)]), pc2.(onTop := pc2.onTop + n - 1);
    ArgsNames(p.positional, 0, c3, pc3);
    var r := GenArgs(p.positional, 0, c3, pc3);
    assert GenClass(p, c, pc) == GenArgs(p.kwdPatterns, 0, r.code, r.pc);
    hide GenClass, GenArgs, SubNames;
    ArgsNames(p.kwdPatterns, 0, r.code, r.pc);
    JoinNames(pc.stores, SubNames(p.positional, 0), SubNames(p.kwdPatterns, 0));
  }

  lemma {:induction false} OrNames(alts: seq<Pattern>, c: Code, pc: PatternContext)
    requires GenOr(alts, c, pc).Emitted?
    ensures GenOr(alts, c, pc).pc.stores == pc.stores + BoundNames(alts[0])
    decreases alts, |alts| + 1
  {
    hide JumpToFailPop, EmitFailPop, Reorder, RotateCode;
    var a := GenAlternatives(alts, 0, [], c.next, pc.allowIrrefutable, Fresh(c));
    var c0, pc0 := AddAll(Fresh(c), [Copy(1)]), PatternContext([], false, [], 0);
    var g := GenAlternative(alts[0], true, false, [], c.next, Fresh(c));
    assert GenAlternatives(alts, 1, g.control, c.next, pc.allowIrrefutable, g.code) == a;
    GenPatternNames(alts[0], c0, pc0);
    assert g.control == [] + BoundNames(alts[0]);
    ControlStays(alts, 1, g.control, c.next, pc.allowIrrefutable, g.code);
    var (c2, pc2) := JumpToFailPop(AddAll(a.code, [PopTop]), pc, true);
    SinkNames(a.control, 0, |a.control| + 1 + pc2.onTop + |pc2.stores|, Use(c2, c.next), pc2);
    assert a.control[0..] == a.control;
  }

  lemma {:induction false} SinkNames(control: seq<string>, i: nat, nrots: nat, c: Code, pc: PatternContext)
    requires i <= |control| && GenSink(control, i, nrots, c, pc).Emitted?
    ensures GenSink(control, i, nrots, c, pc).pc.stores == pc.stores + control[i..]
    decreases |control| - i
  {
    if i < |control| {
      SinkNames(control, i + 1, nrots, AddAll(c, RotateCode(nrots)), pc.(stores := pc.stores + [control[i]]));
      assert control[i..] == [control[i]] + control[i + 1 ..];
    }
  }

  // ----- growth -----

  lemma {:induction false} GenGuardAdvances(guard: Option<Expr>, c: Code, pc: PatternContext, c1: Code, pc1: PatternContext)
    requires Advances(c, pc, c1, pc1) && GenGuard(guard, c1, pc1).Emitted?
    ensures var r := GenGuard(guard, c1, pc1); Advances(c, pc, r.code, r.pc)
  {
    if guard.Some? {
      EnsureFailPopAdvances(c1, pc1, 0);
      var (c2, pc2) := EnsureFailPop(c1, pc1, 0);
      AdvancesTransitive(c, pc, c1, pc1, c2, pc2);
      ExprAdvances(guard.value, c, pc, c2, pc2);
      AddAdvances(c, pc, GenExpr(guard.value, c2).value, pc2, [PopJumpIfFalse(pc2.failPop[0])]);
    }
  }

  lemma {:induction false} GenCaseGrows(m: MatchCase, notLast: bool, allow: bool, end: Label, c: Code)
    requires LabelsInRange(c) && GenCase(m, notLast, allow, end, c).Some?
    ensures Grows(c, GenCase(m, notLast, allow, end, c).value) && LabelsInRange(GenCase(m, notLast, allow, end, c).value)
  {
    var pc0 := PatternContext([], allow, [], 0);
    var copy := if notLast then [Copy(1)] else [];
    var c0 := AddAll(c, copy);
    assert Advances(c, pc0, c, pc0);
    AddAdvances(c, pc0, c, pc0, copy);
    GenPatternAdvances(m.pattern, c0, pc0);
    var g := GenPattern(m.pattern, c0, pc0);
    AdvancesTransitive(c, pc0, c0, pc0, g.code, g.pc);
    AddAdvances(c, pc0, g.code, g.pc, StoreCode(g.pc.stores));
    GenGuardAdvances(m.guard, c, pc0, AddAll(g.code, StoreCode(g.pc.stores)), g.pc);
    var h := GenGuard(m.guard, AddAll(g.code, StoreCode(g.pc.stores)), g.pc);
    AddAdvances(c, pc0, h.code, h.pc, TakenCode(notLast, m.body, end));
    if h.pc.failPop != [] {
      LadderGrows(c, AddAll(h.code, TakenCode(notLast, m.body, end)), h.pc.failPop, |h.pc.failPop| - 1);
    }
  }

  lemma {:induction false} GenCasesGrows(cases: seq<MatchCase>, i: nat, limit: nat, end: Label, c: Code)
    requires i <= limit <= |cases| && LabelsInRange(c) && GenCases(cases, i, limit, end, c).Some?
    ensures Grows(c, GenCases(cases, i, limit, end, c).value) && LabelsInRange(GenCases(cases, i, limit, end, c).value)
    decreases limit - i
  {
    if i < limit {
      var allow := cases[i].guard.Some? || i == |cases| - 1;
      GenCaseGrows(cases[i], i != limit - 1, allow, end, c);
      var c1 := GenCase(cases[i], i != limit - 1, allow, end, c).value;
      GenCasesGrows(cases, i + 1, limit, end, c1);
      GrowsTransitive(c, c1, GenCases(cases, i + 1, limit, end, c1).value);
    }
  }

  lemma {:induction false} GenDefaultGrows(m: MatchCase, end: Label, c: Code)
    requires LabelsInRange(c) && GenDefault(m, end, c).Some?
    ensures Grows(c, GenDefault(m, end, c).value) && LabelsInRange(GenDefault(m, end, c).value)
  {
    var c1 := AddAll(c, [Nop]);
    AddGrows(c, c, [Nop]);
    if m.guard.Some? {
      GenExprGrows(m.guard.value, c1);
      GrowsTransitive(c, c1, GenExpr(m.guard.value, c1).value);
    }
  }

  // ----- correctness -----

  lemma {:induction false} StoresStep(w: World, p: Code, a: Config, pc: nat, names: seq<string>, i: nat, b: map<string, Value>, base: seq<Value>, s: State)
    requires i <= |names| && At(p, pc, StoreCode(names))
    requires Reach(w, p, a, Run(pc + i, Captured(b, names)[i..] + base, s))
    ensures match StoreNames(w, names, i, b, s)
            case Going(s1) => Reach(w, p, a, Run(pc + |names|, base, s1))
            case Faulted(s1) => Reach(w, p, a, Raised(s1))
    decreases |names| - i
  {
    var caps := Captured(b, names);
    if i == |names| {
      assert caps[i..] + base == base;
    } else {
      var x := if names[i] in b then b[names[i]] else NoneValue;
      assert caps[i..] + base == [x] + (caps[i + 1 ..] + base);
      AtOne(p, pc, StoreCode(names), i);
      StoreOne(w, p, a, pc + i, names[i], x, caps[i + 1 ..] + base, s);
      var r := Act(w, s, Stored(names[i], x));
      if r.Val? { StoresStep(w, p, a, pc, names, i + 1, b, base, r.s); }
    }
  }

  lemma {:induction false} StoreOne(w: World, p: Code, a: Config, pc: nat, name: string, x: Value, st: seq<Value>, s: State)
    requires Reach(w, p, a, Run(pc, [x] + st, s)) && pc < |p.instrs| && p.instrs[pc] == StoreName(name)
    ensures var r := Act(w, s, Stored(name, x));
            Reach(w, p, a, if r.Val? then Run(pc + 1, st, r.s) else Raised(r.s))
  {
    assert ([x] + st)[1..] == st;
    ReachStep(w, p, a, Run(pc, [x] + st, s));
  }

  lemma {:induction false} BodyStep(w: World, p: Code, a: Config, pc: nat, body: nat, st: seq<Value>, s: State)
    requires Reach(w, p, a, Run(pc, st, s)) && pc < |p.instrs| && p.instrs[pc] == Body(body)
    ensures match RunBody(w, body, s)
            case Taken(s1) => Reach(w, p, a, Run(pc + 1, st, s1))
            case CaseRaised(s1) => Reach(w, p, a, Raised(s1))
            case Skipped(_) => false
  {
    ReachStep(w, p, a, Run(pc, st, s));
  }

  // Where a case leaves the machine: at the end label with the statement's
  // stack, or behind its ladder with the stack of the next case.
  ghost predicate CaseLeaves(w: World, p: Code, a: Config, r: CaseResult, end: nat, next: nat, st: seq<Value>, base: seq<Value>) {
    match r
    case Taken(s) => Reach(w, p, a, Run(end, st, s))
    case Skipped(s) => Reach(w, p, a, Run(next, base, s))
    case CaseRaised(s) => Reach(w, p, a, Raised(s))
  }

  // POP_TOP when the subject was kept, the body, JUMP end.
  lemma {:induction false} TakenStep(w: World, p: Code, a: Config, pc: nat, notLast: bool, body: nat, end: Label, v: Value, st: seq<Value>, s: State)
    requires At(p, pc, TakenCode(notLast, body, end)) && end in p.labels
    requires Reach(w, p, a, Run(pc, (if notLast then [v] else []) + st, s))
    ensures CaseLeaves(w, p, a, RunBody(w, body, s), p.labels[end], 0, st, [])
  {
    var block := TakenCode(notLast, body, end);
    var k := if notLast then 1 else 0;
    if notLast {
      AtOne(p, pc, block, 0);
      PopStep(w, p, a, pc, v, st, s);
    } else {
      assert [] + st == st;
    }
    AtOne(p, pc, block, k);
    AtOne(p, pc, block, k + 1);
    BodyStep(w, p, a, pc + k, body, st, s);
    var r := RunBody(w, body, s);
    if r.Taken? { OpJump(w, p, a, pc + k + 1, Jump(end), st, r.s); }
  }

  // The guard and what follows it, after the captures were stored.
  lemma {:induction false} GuardCorrect(w: World, p: Code, a: Config, m: MatchCase, notLast: bool, end: Label, c: Code, pc: PatternContext, v: Value, st: seq<Value>, s: State)
    requires GenGuard(m.guard, c, pc).Emitted? && Ready(c, pc) && end in p.labels
    requires var h := GenGuard(m.guard, c, pc);
             && Extends(EmitFailPop(AddAll(h.code, TakenCode(notLast, m.body, end)), h.pc.failPop), p)
    requires Reach(w, p, a, Run(|c.instrs|, (if notLast then [v] else []) + st, s))
    ensures var h := GenGuard(m.guard, c, pc);
            CaseLeaves(w, p, a, RunGuarded(w, m.guard, m.body, s), p.labels[end],
              |EmitFailPop(AddAll(h.code, TakenCode(notLast, m.body, end)), h.pc.failPop).instrs|, st, (if notLast then [v] else []) + st)
  {
    var h := GenGuard(m.guard, c, pc);
    var base := (if notLast then [v] else []) + st;
    var taken := AddAll(h.code, TakenCode(notLast, m.body, end));
    assert Advances(c, pc, c, pc);
    GenGuardAdvances(m.guard, c, pc, c, pc);
    FailPopExtends(taken, h.pc.failPop, p);
    BlockAt(h.code, TakenCode(notLast, m.body, end), p);
    if m.guard.None? {
      TakenStep(w, p, a, |c.instrs|, notLast, m.body, end, v, st, s);
    } else {
      var (c1, pc1) := EnsureFailPop(c, pc, 0);
      var c2 := GenExpr(m.guard.value, c1).value;
      var l := pc1.failPop[0];
      EnsureFailPopAdvances(c, pc, 0);
      BlockAt(c2, [PopJumpIfFalse(l)], p);
      AtOne(p, |c2.instrs|, [PopJumpIfFalse(l)], 0);
      ExprCorrect(w, p, a, m.guard.value, c1, base, s);
      var g := Eval(w, m.guard.value, s);
      if g.Val? {
        OpBranch(w, p, a, |c2.instrs|, PopJumpIfFalse(l), g.v, base, g.s);
        if Truth(w, g.v) {
          TakenStep(w, p, a, |h.code.instrs|, notLast, m.body, end, v, st, g.s);
        } else {
          assert [] + base == base;
          FailPopStep(w, p, a, taken, h.pc.failPop, base, g.s);
        }
      }
    }
  }

  lemma {:induction false} CaseLayout(m: MatchCase, notLast: bool, allow: bool, end: Label, c: Code, p: Code)
    requires LabelsInRange(c) && GenCase(m, notLast, allow, end, c).Some? && Extends(GenCase(m, notLast, allow, end, c).value, p)
    ensures var copy := if notLast then [Copy(1)] else [];
            var pc0 := PatternContext([], allow, [], 0);
            var g := GenPattern(m.pattern, AddAll(c, copy), pc0);
            var c1 := AddAll(g.code, StoreCode(g.pc.stores));
            && At(p, |c.instrs|, copy) && Ready(AddAll(c, copy), pc0) && Extends(g.code, p) && AllBound(g.pc.failPop, p)
            && At(p, |g.code.instrs|, StoreCode(g.pc.stores)) && Ready(c1, g.pc)
            && g.pc.failPop <= GenGuard(m.guard, c1, g.pc).pc.failPop
  {
    var pc0 := PatternContext([], allow, [], 0);
    var copy := if notLast then [Copy(1)] else [];
    var c0 := AddAll(c, copy);
    assert Ready(c0, pc0);
    GenPatternAdvances(m.pattern, c0, pc0);
    var g := GenPattern(m.pattern, c0, pc0);
    var c1 := AddAll(g.code, StoreCode(g.pc.stores));
    assert Advances(c1, g.pc, c1, g.pc);
    GenGuardAdvances(m.guard, c1, g.pc, c1, g.pc);
    var h := GenGuard(m.guard, c1, g.pc);
    var taken := AddAll(h.code, TakenCode(notLast, m.body, end));
    FailPopExtends(taken, h.pc.failPop, p);
    BlockAt(h.code, TakenCode(notLast, m.body, end), p);
    ExtendsTransitive(c1, h.code, p);
    BlockAt(g.code, StoreCode(g.pc.stores), p);
    ExtendsTransitive(c0, g.code, p);
    BlockAt(c, copy, p);
  }

  lemma {:induction false} CaseCorrect(w: World, p: Code, a: Config, m: MatchCase, notLast: bool, allow: bool, end: Label, c: Code, v: Value, st: seq<Value>, s: State)
    requires StarsFit(m.pattern) && LabelsInRange(c) && end in p.labels
    requires GenCase(m, notLast, allow, end, c).Some? && Extends(GenCase(m, notLast, allow, end, c).value, p)
    requires Reach(w, p, a, Run(|c.instrs|, [v] + st, s))
    ensures CaseLeaves(w, p, a, RunCase(w, m, v, s), p.labels[end], |GenCase(m, notLast, allow, end, c).value.instrs|,
              st, (if notLast then [v] else []) + st)
  {
    hide Extends, At, Reach, Distinct, LabelsInRange, GenPattern, Match, StarsFit;
    var pc0 := PatternContext([], allow, [], 0);
    var copy := if notLast then [Copy(1)] else [];
    var base := (if notLast then [v] else []) + st;
    var c0 := AddAll(c, copy);
    var g := GenPattern(m.pattern, c0, pc0);
    CaseLayout(m, notLast, allow, end, c, p);
    if notLast {
      AtOne(p, |c.instrs|, copy, 0);
      CopyStep(w, p, a, |c.instrs|, 1, [v] + st, s);
    } else {
      assert base == st;
    }
    assert [v] + base == [v] + Layout([], [], base);
    PatternCorrect(w, p, a, m.pattern, c0, pc0, v, [], [], base, s);
    CaseStep(w, p, a, m, notLast, end, g, Match(w, m.pattern, v, s), c0, pc0, v, st);
  }

  lemma {:induction false} CaseStep(w: World, p: Code, a: Config, m: MatchCase, notLast: bool, end: Label, g: Gen, r: MatchResult, c0: Code, pc0: PatternContext, v: Value, st: seq<Value>)
    requires end in p.labels && pc0.stores == [] && g == GenPattern(m.pattern, c0, pc0) && g.Emitted?
    requires var c1 := AddAll(g.code, StoreCode(g.pc.stores));
             var h := GenGuard(m.guard, c1, g.pc);
             && h.Emitted? && Ready(c1, g.pc) && At(p, |g.code.instrs|, StoreCode(g.pc.stores))
             && g.pc.failPop <= h.pc.failPop
             && Extends(EmitFailPop(AddAll(h.code, TakenCode(notLast, m.body, end)), h.pc.failPop), p)
    requires Simulates(w, p, a, r, [], g.code, g.pc, [], [], (if notLast then [v] else []) + st)
    ensures var h := GenGuard(m.guard, AddAll(g.code, StoreCode(g.pc.stores)), g.pc);
            CaseLeaves(w, p, a, AfterPattern(w, m, r), p.labels[end],
              |EmitFailPop(AddAll(h.code, TakenCode(notLast, m.body, end)), h.pc.failPop).instrs|, st, (if notLast then [v] else []) + st)
  {
    hide Extends, Reach, At, Ready, GenGuard, GenPattern, EmitFailPop, TakenCode;
    var base := (if notLast then [v] else []) + st;
    var c1 := AddAll(g.code, StoreCode(g.pc.stores));
    GenPatternNames(m.pattern, c0, pc0);
    assert g.pc.stores == BoundNames(m.pattern);
    match r
    case Matched(b, s1) =>
      CaptureNames(b, g.pc.stores, base);
      CaseBound(w, p, a, m, notLast, end, g, b, v, st, s1);
    case NoMatch(s1) =>
      CaseMissed(w, p, a, m.guard, c1, g.pc, TakenCode(notLast, m.body, end), base, s1);
    case MatchRaised(s1) =>
  }

  // The pattern matched: store the captures, then the guard and the body.
  lemma {:induction false} CaseBound(w: World, p: Code, a: Config, m: MatchCase, notLast: bool, end: Label, g: Gen, b: map<string, Value>, v: Value, st: seq<Value>, s: State)
    requires end in p.labels && g.Emitted? && g.pc.stores == BoundNames(m.pattern)
    requires var c1 := AddAll(g.code, StoreCode(g.pc.stores));
             var h := GenGuard(m.guard, c1, g.pc);
             && h.Emitted? && Ready(c1, g.pc) && At(p, |g.code.instrs|, StoreCode(g.pc.stores))
             && Extends(EmitFailPop(AddAll(h.code, TakenCode(notLast, m.body, end)), h.pc.failPop), p)
    requires Reach(w, p, a, Run(|g.code.instrs|, Captured(b, g.pc.stores)[0..] + ((if notLast then [v] else []) + st), s))
    ensures var h := GenGuard(m.guard, AddAll(g.code, StoreCode(g.pc.stores)), g.pc);
            CaseLeaves(w, p, a, AfterPattern(w, m, Matched(b, s)), p.labels[end],
              |EmitFailPop(AddAll(h.code, TakenCode(notLast, m.body, end)), h.pc.failPop).instrs|, st, (if notLast then [v] else []) + st)
  {
    hide Extends, Reach, At, Ready, GenGuard, EmitFailPop, TakenCode;
    var names := g.pc.stores;
    StoresStep(w, p, a, |g.code.instrs|, names, 0, b, (if notLast then [v] else []) + st, s);
    var stored := StoreNames(w, names, 0, b, s);
    if stored.Going? { GuardCorrect(w, p, a, m, notLast, end, AddAll(g.code, StoreCode(names)), g.pc, v, st, stored.s); }
  }

  lemma {:induction false} CaseMissed(w: World, p: Code, a: Config, guard: Option<Expr>, c1: Code, pc: PatternContext, taken: seq<Instr>, base: seq<Value>, s: State)
    requires GenGuard(guard, c1, pc).Emitted? && Ready(c1, pc)
    requires var h := GenGuard(guard, c1, pc);
             Extends(EmitFailPop(AddAll(h.code, taken), h.pc.failPop), p)
    requires FailsTo(w, p, a, pc.failPop, base, s)
    ensures var h := GenGuard(guard, c1, pc);
            Reach(w, p, a, Run(|EmitFailPop(AddAll(h.code, taken), h.pc.failPop).instrs|, base, s))
  {
    var h := GenGuard(guard, c1, pc);
    assert Advances(c1, pc, c1, pc);
    GenGuardAdvances(guard, c1, pc, c1, pc);
    FailsToLonger(w, p, a, pc.failPop, h.pc.failPop, base, s);
    FailPopStep(w, p, a, AddAll(h.code, taken), h.pc.failPop, base, s);
  }

  lemma {:induction false} CaptureNames(b: map<string, Value>, names: seq<string>, base: seq<Value>)
    ensures names[0..] == names
    ensures Layout([], [] + Captured(b, names), base) == Captured(b, names)[0..] + base
  {
  }

  // Refutable cases: taken, raised, or all skipped with the statement's stack.
  lemma {:induction false} CasesCorrect(w: World, p: Code, a: Config, cases: seq<MatchCase>, i: nat, limit: nat, end: Label, c: Code, v: Value, st: seq<Value>, s: State)
    requires i < limit <= |cases| && LabelsInRange(c) && end in p.labels
    requires forall k :: 0 <= k < |cases| ==> StarsFit(cases[k].pattern)
    requires GenCases(cases, i, limit, end, c).Some? && Extends(GenCases(cases, i, limit, end, c).value, p)
    requires Reach(w, p, a, Run(|c.instrs|, [v] + st, s))
    ensures CaseLeaves(w, p, a, FirstTaken(w, cases, i, limit, v, s), p.labels[end], |GenCases(cases, i, limit, end, c).value.instrs|, st, st)
    decreases limit - i
  {
    var notLast, allow := i != limit - 1, cases[i].guard.Some? || i == |cases| - 1;
    var c1 := GenCase(cases[i], notLast, allow, end, c).value;
    GenCaseGrows(cases[i], notLast, allow, end, c);
    GenCasesGrows(cases, i + 1, limit, end, c1);
    ExtendsTransitive(c1, GenCases(cases, i + 1, limit, end, c1).value, p);
    CaseCorrect(w, p, a, cases[i], notLast, allow, end, c, v, st, s);
    var r := RunCase(w, cases[i], v, s);
    if r.Skipped? {
      if notLast {
        CasesCorrect(w, p, a, cases, i + 1, limit, end, c1, v, st, r.s);
      } else {
        assert [] + st == st;
      }
    }
  }

  function FirstTaken(w: World, cases: seq<MatchCase>, i: nat, limit: nat, v: Value, s: State): CaseResult
    requires i <= limit <= |cases|
    decreases limit - i
  {
    if i == limit then Skipped(s)
    else
      match RunCase(w, cases[i], v, s)
      case Skipped(s1) => FirstTaken(w, cases, i + 1, limit, v, s1)
      case other => other
  }

  lemma {:induction false} RunCasesSplit(w: World, cases: seq<MatchCase>, i: nat, limit: nat, v: Value, s: State)
    requires i <= limit <= |cases|
    ensures RunCases(w, cases, i, v, s) ==
            match FirstTaken(w, cases, i, limit, v, s)
            case Taken(s1) => Going(s1)
            case Skipped(s1) => RunCases(w, cases, limit, v, s1)
            case CaseRaised(s1) => Faulted(s1)
    decreases limit - i
  {
    if i < limit {
      var r := RunCase(w, cases[i], v, s);
      if r.Skipped? { RunCasesSplit(w, cases, i + 1, limit, v, r.s); }
    }
  }

  // The trailing wildcard case, entered with the statement's stack.
  lemma {:induction false} DefaultCorrect(w: World, p: Code, a: Config, m: MatchCase, end: Label, c: Code, v: Value, st: seq<Value>, s: State)
    requires IsWildcard(m.pattern) && LabelsInRange(c) && GenDefault(m, end, c).Some? && Extends(GenDefault(m, end, c).value, p)
    requires end in p.labels && p.labels[end] == |GenDefault(m, end, c).value.instrs|
    requires Reach(w, p, a, Run(|c.instrs|, st, s))
    ensures CaseLeaves(w, p, a, RunCase(w, m, v, s), p.labels[end], p.labels[end], st, st)
  {
    hide Extends, At, Reach, GenExpr, CaseLeaves, RunGuarded, RunCase, RunBody;
    WildcardRuns(w, m, v, s);
    if m.guard.None? {
      var c1 := AddAll(c, [Nop]);
      BlockAt(c1, [Body(m.body)], p);
      BlockAt(c, [Nop], p);
      AtOne(p, |c.instrs|, [Nop], 0);
      AtOne(p, |c1.instrs|, [Body(m.body)], 0);
      Op(w, p, a, |c.instrs|, Nop, st, s, st, s);
      BodyLeaves(w, p, a, |c1.instrs|, m.body, st, s);
      BareBody(w, m.guard, m.body, s);
    } else {
      DefaultGuarded(w, p, a, m.guard.value, m.body, end, c, st, s);
    }
  }

  lemma {:induction false} WildcardRuns(w: World, m: MatchCase, v: Value, s: State)
    requires IsWildcard(m.pattern)
    ensures RunCase(w, m, v, s) == RunGuarded(w, m.guard, m.body, s)
  {
  }

  lemma {:induction false} BareBody(w: World, guard: Option<Expr>, body: nat, s: State)
    requires guard.None?
    ensures RunGuarded(w, guard, body, s) == RunBody(w, body, s)
  {
  }

  // The body as the last instruction.
  lemma {:induction false} BodyLeaves(w: World, p: Code, a: Config, pc: nat, body: nat, st: seq<Value>, s: State)
    requires Reach(w, p, a, Run(pc, st, s)) && pc < |p.instrs| && p.instrs[pc] == Body(body)
    ensures CaseLeaves(w, p, a, RunBody(w, body, s), pc + 1, pc + 1, st, st)
  {
    hide Reach;
    BodyStep(w, p, a, pc, body, st, s);
  }

  lemma {:induction false} DefaultGuarded(w: World, p: Code, a: Config, guard: Expr, body: nat, end: Label, c: Code, st: seq<Value>, s: State)
    requires LabelsInRange(c) && GenExpr(guard, AddAll(c, [Nop])).Some?
    requires var r := AddAll(GenExpr(guard, AddAll(c, [Nop])).value, [PopJumpIfFalse(end), Body(body)]);
             Extends(r, p) && end in p.labels && p.labels[end] == |r.instrs|
    requires Reach(w, p, a, Run(|c.instrs|, st, s))
    ensures CaseLeaves(w, p, a, RunGuarded(w, Some(guard), body, s), p.labels[end], p.labels[end], st, st)
  {
    hide Extends, At, Reach, GenExpr, Eval, Truth, RunBody;
    var c1 := AddAll(c, [Nop]);
    var c2 := GenExpr(guard, c1).value;
    var block := [PopJumpIfFalse(end), Body(body)];
    DefaultLayout(guard, block, c, p);
    AtOne(p, |c.instrs|, [Nop], 0);
    AtOne(p, |c2.instrs|, block, 0);
    AtOne(p, |c2.instrs|, block, 1);
    Op(w, p, a, |c.instrs|, Nop, st, s, st, s);
    ExprCorrect(w, p, a, guard, c1, st, s);
    var g := Eval(w, guard, s);
    if g.Val? {
      OpBranch(w, p, a, |c2.instrs|, PopJumpIfFalse(end), g.v, st, g.s);
      if Truth(w, g.v) { BodyStep(w, p, a, |c2.instrs| + 1, body, st, g.s); }
    }
  }

  lemma {:induction false} DefaultLayout(guard: Expr, block: seq<Instr>, c: Code, p: Code)
    requires LabelsInRange(c) && GenExpr(guard, AddAll(c, [Nop])).Some? && Extends(AddAll(GenExpr(guard, AddAll(c, [Nop])).value, block), p)
    ensures var c2 := GenExpr(guard, AddAll(c, [Nop])).value;
            Extends(c2, p) && At(p, |c.instrs|, [Nop]) && At(p, |c2.instrs|, block)
  {
    var c1 := AddAll(c, [Nop]);
    var c2 := GenExpr(guard, c1).value;
    GenExprGrows(guard, c1);
    BlockAt(c2, block, p);
    ExtendsTransitive(c1, c2, p);
    BlockAt(c, [Nop], p);
  }

  // A match statement does what RunMatch says and ends with the stack it
  // started with.
  lemma {:induction false} MatchCorrect(w: World, p: Code, a: Config, subject: Expr, cases: seq<MatchCase>, c: Code, st: seq<Value>, s: State)
    requires LabelsInRange(c) && GenMatch(subject, cases, c).Some? && Extends(GenMatch(subject, cases, c).value, p)
    requires forall k :: 0 <= k < |cases| ==> StarsFit(cases[k].pattern)
    requires Reach(w, p, a, Run(|c.instrs|, st, s))
    ensures match RunMatch(w, subject, cases, s)
            case Going(s1) => Reach(w, p, a, Run(|GenMatch(subject, cases, c).value.instrs|, st, s1))
            case Faulted(s1) => Reach(w, p, a, Raised(s1))
  {
    hide Reach, At, GenExpr, Eval, Extends, LabelsInRange, GenCases, GenDefault, IsWildcard, RunCase;
    var c1 := GenExpr(subject, c).value;
    var end, limit := c1.next, if HasDefault(cases) then |cases| - 1 else |cases|;
    var c2 := GenCases(cases, 0, limit, end, Fresh(c1)).value;
    var c3 := if HasDefault(cases) then GenDefault(cases[limit], end, c2).value else c2;
    MatchLayout(subject, cases, limit, c, c1, c2, c3, p);
    ExprCorrect(w, p, a, subject, c, st, s);
    var r := Eval(w, subject, s);
    if r.Val? {
      CasesCorrect(w, p, a, cases, 0, limit, end, Fresh(c1), r.v, st, r.s);
      RunCasesSplit(w, cases, 0, limit, r.v, r.s);
      var t := FirstTaken(w, cases, 0, limit, r.v, r.s);
      if t.Skipped? && HasDefault(cases) {
        DefaultCorrect(w, p, a, cases[limit], end, c2, r.v, st, t.s);
        assert RunCases(w, cases, |cases|, r.v, RunCase(w, cases[limit], r.v, t.s).s) == Going(RunCase(w, cases[limit], r.v, t.s).s);
      }
    }
  }

  lemma {:induction false} MatchLayout(subject: Expr, cases: seq<MatchCase>, limit: nat, c: Code, c1: Code, c2: Code, c3: Code, p: Code)
    requires LabelsInRange(c) && GenMatch(subject, cases, c).Some? && Extends(GenMatch(subject, cases, c).value, p)
    requires GenExpr(subject, c) == Some(c1) && limit == if HasDefault(cases) then |cases| - 1 else |cases|
    requires GenCases(cases, 0, limit, c1.next, Fresh(c1)) == Some(c2)
    requires (if HasDefault(cases) then GenDefault(cases[limit], c1.next, c2) else Some(c2)) == Some(c3)
    ensures GenMatch(subject, cases, c) == Some(Use(c3, c1.next)) && 0 < limit
    ensures LabelsInRange(Fresh(c1)) && LabelsInRange(c2) && Extends(Fresh(c1), p) && Extends(c2, p) && Extends(c3, p)
    ensures c1.next in p.labels && p.labels[c1.next] == |c3.instrs|
    ensures Extends(c1, p)
  {
    hide GenExpr, GenCases, GenDefault, IsWildcard;
    var end := c1.next;
    GenExprGrows(subject, c);
    GenCasesGrows(cases, 0, limit, end, Fresh(c1));
    if HasDefault(cases) { GenDefaultGrows(cases[limit], end, c2); }
    assert Grows(c2, c3) && end !in c3.labels;
    UseExtends(c3, end, p);
    ExtendsTransitive(c2, c3, p);
    ExtendsTransitive(Fresh(c1), c2, p);
  }
}
