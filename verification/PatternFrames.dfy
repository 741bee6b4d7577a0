// What every pattern leaves unchanged in the compiler's context: names and
// fail-pop labels already recorded stay where they are, new ones are only
// appended, and every fail-pop label stays fresh until its block is emitted.
module PatternFrames {
  import opened Machine
  import opened Expressions
  import opened Patterns

  ghost predicate Distinct<T(!new)>(q: seq<T>) { forall i, j :: 0 <= i < j < |q| ==> q[i] != q[j] }

  ghost predicate Ready(c: Code, pc: PatternContext) {
    && LabelsInRange(c)
    && Distinct(pc.stores)
    && Distinct(pc.failPop)
    && forall k :: 0 <= k < |pc.failPop| ==> pc.failPop[k] < c.next && pc.failPop[k] !in c.labels
  }

  ghost predicate Advances(c: Code, pc: PatternContext, c': Code, pc': PatternContext) {
    && Grows(c, c')
    && Ready(c', pc')
    && pc.stores <= pc'.stores
    && pc.failPop <= pc'.failPop
    && forall k :: |pc.failPop| <= k < |pc'.failPop| ==> c.next <= pc'.failPop[k]
  }

  lemma {:induction false} AdvancesTransitive(c1: Code, p1: PatternContext, c2: Code, p2: PatternContext, c3: Code, p3: PatternContext)
    requires Advances(c1, p1, c2, p2) && Advances(c2, p2, c3, p3)
    ensures Advances(c1, p1, c3, p3)
  {
    GrowsTransitive(c1, c2, c3);
    assert p1.stores <= p2.stores <= p3.stores;
    assert p1.failPop <= p2.failPop <= p3.failPop;
    forall k | |p1.failPop| <= k < |p3.failPop| ensures c1.next <= p3.failPop[k] {
      if k < |p2.failPop| { assert p3.failPop[k] == p2.failPop[k]; }
    }
  }

  lemma {:induction false} AddAdvances(c: Code, pc: PatternContext, c': Code, pc': PatternContext, block: seq<Instr>)
    requires Advances(c, pc, c', pc')
    ensures Advances(c, pc, AddAll(c', block), pc')
  {
    AddGrows(c, c', block);
  }

  lemma {:induction false} EnsureFailPopAdvances(c: Code, pc: PatternContext, n: nat)
    requires Ready(c, pc)
    ensures var r := EnsureFailPop(c, pc, n); Advances(c, pc, r.0, r.1)
    decreases n + 1 - |pc.failPop|
  {
    if n >= |pc.failPop| {
      var c1, pc1 := Fresh(c), pc.(failPop := pc.failPop + [c.next]);
      assert Advances(c, pc, c1, pc1);
      EnsureFailPopAdvances(c1, pc1, n);
      var r := EnsureFailPop(c1, pc1, n);
      AdvancesTransitive(c, pc, c1, pc1, r.0, r.1);
    }
  }

  lemma {:induction false} JumpToFailPopAdvances(c: Code, pc: PatternContext, always: bool)
    requires Ready(c, pc)
    ensures var r := JumpToFailPop(c, pc, always); Advances(c, pc, r.0, r.1)
  {
    EnsureFailPopAdvances(c, pc, pc.onTop + |pc.stores|);
    var (c1, pc1) := EnsureFailPop(c, pc, pc.onTop + |pc.stores|);
    var l := pc1.failPop[pc.onTop + |pc.stores|];
    AddAdvances(c, pc, c1, pc1, [if always then Jump(l) else PopJumpIfFalse(l)]);
  }

  // Advances does not look at onTop and allowIrrefutable.
  lemma {:induction false} Retop(c: Code, pc: PatternContext, c1: Code, pc1: PatternContext, pc2: PatternContext)
    requires Advances(c, pc, c1, pc1) && pc2.stores == pc1.stores && pc2.failPop == pc1.failPop
    ensures Advances(c, pc, c1, pc2) && Ready(c1, pc2)
  {
  }

  // A block, then a jump to the fail-pop ladder.
  lemma {:induction false} GateAdvances(c: Code, pc: PatternContext, c1: Code, pc1: PatternContext, block: seq<Instr>, always: bool)
    requires Advances(c, pc, c1, pc1)
    ensures var r := JumpToFailPop(AddAll(c1, block), pc1, always); Advances(c, pc, r.0, r.1)
  {
    AddAdvances(c, pc, c1, pc1, block);
    JumpToFailPopAdvances(AddAll(c1, block), pc1, always);
    var r := JumpToFailPop(AddAll(c1, block), pc1, always);
    AdvancesTransitive(c, pc, AddAll(c1, block), pc1, r.0, r.1);
  }

  lemma {:induction false} StoreCaptureAdvances(name: Option<string>, c: Code, pc: PatternContext, c1: Code, pc1: PatternContext)
    requires Advances(c, pc, c1, pc1) && StoreCapture(name, c1, pc1).Emitted?
    ensures var r := StoreCapture(name, c1, pc1); Advances(c, pc, r.code, r.pc)
  {
    if name.None? {
      AddAdvances(c, pc, c1, pc1, [PopTop]);
    } else {
      AddAdvances(c, pc, c1, pc1, RotateCode(pc1.onTop + |pc1.stores| + 1));
    }
  }

  lemma {:induction false} ExprAdvances(e: Expr, c: Code, pc: PatternContext, c1: Code, pc1: PatternContext)
    requires Advances(c, pc, c1, pc1) && GenExpr(e, c1).Some?
    ensures Advances(c, pc, GenExpr(e, c1).value, pc1)
  {
    GenExprGrows(e, c1);
    assert Advances(c1, pc1, GenExpr(e, c1).value, pc1);
    AdvancesTransitive(c, pc, c1, pc1, GenExpr(e, c1).value, pc1);
  }

  lemma {:induction false} GenPatternAdvances(p: Pattern, c: Code, pc: PatternContext)
    requires Ready(c, pc) && GenPattern(p, c, pc).Emitted?
    ensures var r := GenPattern(p, c, pc); Advances(c, pc, r.code, r.pc)
    decreases p, 2
  {
    assert Advances(c, pc, c, pc);
    match p
    case MatchValue(e) =>
      ExprAdvances(e, c, pc, c, pc);
      GateAdvances(c, pc, GenExpr(e, c).value, pc, [CompareOp(CMP_EQ), ToBool], false);
    case MatchSingleton(k) =>
      GateAdvances(c, pc, c, pc, [LoadConst(k), IsOp(0)], false);
    case MatchSequence(ps) => GenSequenceAdvances(ps, c, pc);
    case MatchMapping(_, _, _) => GenMappingAdvances(p, c, pc);
    case MatchClass(_, _, _, _) => GenClassAdvances(p, c, pc);
    case MatchStar(name) => StoreCaptureAdvances(name, c, pc, c, pc);
    case MatchAs(sub, name) =>
      if sub.None? {
        StoreCaptureAdvances(name, c, pc, c, pc);
      } else {
        GenAsAdvances(p, c, pc);
      }
    case MatchOr(alts) => GenOrAdvances(alts, c, pc);
  }

  lemma {:induction false} GenAsAdvances(p: Pattern, c: Code, pc: PatternContext)
    requires p.MatchAs? && p.pattern.Some? && Ready(c, pc) && GenPattern(p, c, pc).Emitted?
    ensures var r := GenPattern(p, c, pc); Advances(c, pc, r.code, r.pc)
    decreases p, 1
  {
    var c0, pc0 := AddAll(c, [Copy(1)]), pc.(onTop := pc.onTop + 1);
    AddAdvances(c, pc, c, pc0, [Copy(1)]);
    GenPatternAdvances(p.pattern.value, c0, pc0);
    var r := GenPattern(p.pattern.value, c0, pc0);
    AdvancesTransitive(c, pc, c0, pc0, r.code, r.pc);
    Retop(c, pc, r.code, r.pc, r.pc.(onTop := r.pc.onTop - 1));
    StoreCaptureAdvances(p.name, c, pc, r.code, r.pc.(onTop := r.pc.onTop - 1));
  }

  lemma {:induction false} GenSubpatternAdvances(p: Pattern, c: Code, pc: PatternContext, c1: Code, pc1: PatternContext)
    requires Advances(c, pc, c1, pc1) && GenSubpattern(p, c1, pc1).Emitted?
    ensures var r := GenSubpattern(p, c1, pc1); Advances(c, pc, r.code, r.pc)
    decreases p, 3
  {
    var pc1' := pc1.(allowIrrefutable := true);
    assert Ready(c1, pc1');
    GenPatternAdvances(p, c1, pc1');
    var r := GenPattern(p, c1, pc1');
    assert Advances(c, pc, c1, pc1');
    AdvancesTransitive(c, pc, c1, pc1', r.code, r.pc);
  }

  lemma {:induction false} GenSubsAdvances(ps: seq<Pattern>, i: nat, c: Code, pc: PatternContext, c1: Code, pc1: PatternContext)
    requires i <= |ps| && pc1.onTop >= |ps| - i
    requires Advances(c, pc, c1, pc1) && GenSubs(ps, i, c1, pc1).Emitted?
    ensures var r := GenSubs(ps, i, c1, pc1); Advances(c, pc, r.code, r.pc)
    decreases ps, |ps| - i
  {
    if i < |ps| {
      var pc2 := pc1.(onTop := pc1.onTop - 1);
      assert Advances(c, pc, c1, pc2);
      GenSubpatternAdvances(ps[i], c, pc, c1, pc2);
      var r := GenSubpattern(ps[i], c1, pc2);
      GenSubsAdvances(ps, i + 1, c, pc, r.code, r.pc);
    }
  }

  lemma {:induction false} GenItemsAdvances(ps: seq<Pattern>, i: nat, star: int, c: Code, pc: PatternContext, c1: Code, pc1: PatternContext)
    requires i <= |ps|
    requires Advances(c, pc, c1, pc1) && GenItems(ps, i, star, c1, pc1).Emitted?
    ensures var r := GenItems(ps, i, star, c1, pc1); Advances(c, pc, r.code, r.pc)
    decreases ps, |ps| - i
  {
    if i == |ps| {
    } else if IsWildcard(ps[i]) || i == star {
      GenItemsAdvances(ps, i + 1, star, c, pc, c1, pc1);
    } else {
      var c2 := AddAll(c1, ItemCode(|ps|, i, star));
      AddAdvances(c, pc, c1, pc1, ItemCode(|ps|, i, star));
      GenSubpatternAdvances(ps[i], c, pc, c2, pc1);
      var r := GenSubpattern(ps[i], c2, pc1);
      GenItemsAdvances(ps, i + 1, star, c, pc, r.code, r.pc);
    }
  }

  lemma {:induction false} GenSequenceGatesAdvance(star: int, n: nat, c: Code, pc: PatternContext)
    requires Ready(c, pc)
    ensures var r := GenSequenceGates(star, n, c, pc); Advances(c, pc, r.0, r.1)
  {
    assert Advances(c, pc, c, pc);
    GateAdvances(c, pc, c, pc, [MatchSequenceOp], false);
    var (c1, pc1) := JumpToFailPop(AddAll(c, [MatchSequenceOp]), pc, false);
    if star < 0 {
      GateAdvances(c, pc, c1, pc1, [GetLen, LoadConst(Int(n)), CompareOp(CMP_EQ), ToBool], false);
    } else if n > 1 {
      GateAdvances(c, pc, c1, pc1, [GetLen, LoadConst(Int(n - 1)), CompareOp(CMP_GTE), ToBool], false);
    }
  }

  lemma {:induction false} GenSequenceAdvances(ps: seq<Pattern>, c: Code, pc: PatternContext)
    requires Ready(c, pc) && GenSequence(ps, c, pc).Emitted?
    ensures var r := GenSequence(ps, c, pc); Advances(c, pc, r.code, r.pc)
    decreases ps, |ps| + 2
  {
    var star, n := StarFrom(ps, 0), |ps|;
    var pc0 := pc.(onTop := pc.onTop + 1);
    assert Ready(c, pc0);
    GenSequenceGatesAdvance(star, n, c, pc0);
    var (c1, pc1) := GenSequenceGates(star, n, c, pc0);
    var pc2 := pc1.(onTop := pc1.onTop - 1);
    assert Advances(c, pc, c1, pc2);
    GenSequenceBodyAdvances(ps, star, c, pc, c1, pc2);
  }

  lemma {:induction false} GenSequenceBodyAdvances(ps: seq<Pattern>, star: int, c: Code, pc: PatternContext, c1: Code, pc1: PatternContext)
    requires star < |ps| && Advances(c, pc, c1, pc1) && GenSequenceBody(ps, star, c1, pc1).Emitted?
    ensures var r := GenSequenceBody(ps, star, c1, pc1); Advances(c, pc, r.code, r.pc)
    decreases ps, |ps| + 1
  {
    if AllWild(ps) {
      AddAdvances(c, pc, c1, pc1, [PopTop]);
    } else if star >= 0 && IsWildcardStar(ps[star]) {
      var pc2 := pc1.(onTop := pc1.onTop + 1);
      assert Advances(c, pc, c1, pc2);
      GenItemsAdvances(ps, 0, star, c, pc, c1, pc2);
      var r := GenItems(ps, 0, star, c1, pc2);
      AddAdvances(c, pc, r.code, r.pc, [PopTop]);
    } else {
      var pc2 := pc1.(onTop := pc1.onTop + |ps|);
      AddAdvances(c, pc, c1, pc2, [UnpackCode(star, |ps|)]);
      GenSubsAdvances(ps, 0, c, pc, AddAll(c1, [UnpackCode(star, |ps|)]), pc2);
    }
  }

  lemma {:induction false} GenKeysGrows(keys: seq<Expr>, i: nat, seen: set<Bucket>, c: Code)
    requires i <= |keys| && LabelsInRange(c) && GenKeys(keys, i, seen, c).Some?
    ensures Grows(c, GenKeys(keys, i, seen, c).value) && LabelsInRange(GenKeys(keys, i, seen, c).value)
    decreases |keys| - i
  {
    if i < |keys| {
      GenExprGrows(keys[i], c);
      var c1 := GenExpr(keys[i], c).value;
      var seen' := if KeyBucket(keys[i]).Some? then seen + {KeyBucket(keys[i]).value} else seen;
      GenKeysGrows(keys, i + 1, seen', c1);
      GrowsTransitive(c, c1, GenKeys(keys, i + 1, seen', c1).value);
    }
  }

  lemma {:induction false} GenKeysAdvance(keys: seq<Expr>, c: Code, pc: PatternContext, c1: Code, pc1: PatternContext)
    requires Advances(c, pc, c1, pc1) && GenKeys(keys, 0, {}, c1).Some?
    ensures Advances(c, pc, GenKeys(keys, 0, {}, c1).value, pc1)
  {
    GenKeysGrows(keys, 0, {}, c1);
    assert Advances(c1, pc1, GenKeys(keys, 0, {}, c1).value, pc1);
    AdvancesTransitive(c, pc, c1, pc1, GenKeys(keys, 0, {}, c1).value, pc1);
  }

  lemma {:induction false} GenMappingLookupAdvances(keys: seq<Expr>, c: Code, pc: PatternContext, c1: Code, pc1: PatternContext)
    requires Advances(c, pc, c1, pc1) && GenMappingLookup(keys, c1, pc1).Emitted?
    ensures var r := GenMappingLookup(keys, c1, pc1); Advances(c, pc, r.code, r.pc)
  {
    var n := |keys|;
    if n > 0 {
      GateAdvances(c, pc, c1, pc1, [GetLen, LoadConst(Int(n)), CompareOp(CMP_GTE), ToBool], false);
    }
    var (c2, pc2) := GenMappingGates(n, c1, pc1);
    GenKeysAdvance(keys, c, pc, c2, pc2);
    var c3 := GenKeys(keys, 0, {}, c2).value;
    var pc3 := pc2.(onTop := pc2.onTop + 2);
    assert Advances(c, pc, c3, pc3);
    GateAdvances(c, pc, c3, pc3, [BuildTuple(n), MatchKeysOp] + NOT_NONE_TEST, false);
  }

  lemma {:induction false} GenMappingRestAdvances(n: nat, rest: Option<string>, c: Code, pc: PatternContext, c1: Code, pc1: PatternContext)
    requires Advances(c, pc, c1, pc1) && GenMappingRest(n, rest, c1, pc1).Emitted?
    ensures var r := GenMappingRest(n, rest, c1, pc1); Advances(c, pc, r.code, r.pc)
  {
    if rest.Some? {
      AddAdvances(c, pc, c1, pc1, RestCode(n));
      StoreCaptureAdvances(rest, c, pc, AddAll(c1, RestCode(n)), pc1);
    } else {
      AddAdvances(c, pc, c1, pc1, [PopTop, PopTop]);
    }
  }

  lemma {:induction false} GenMappingAdvances(p: Pattern, c: Code, pc: PatternContext)
    requires p.MatchMapping? && Ready(c, pc) && GenMapping(p, c, pc).Emitted?
    ensures var r := GenMapping(p, c, pc); Advances(c, pc, r.code, r.pc)
    decreases p, 1
  {
    hide GenSubpattern, GenKeys;
    var n := |p.keys|;
    var pc0 := pc.(onTop := pc.onTop + 1);
    assert Advances(c, pc, c, pc0);
    GateAdvances(c, pc, c, pc0, [MatchMappingOp], false);
    var (c1, pc1) := JumpToFailPop(AddAll(c, [MatchMappingOp]), pc0, false);
    if n == 0 && p.rest.None? {
      AddAdvances(c, pc, c1, pc1, [PopTop]);
    } else {
      GenMappingLookupAdvances(p.keys, c, pc, c1, pc1);
      var r1 := GenMappingLookup(p.keys, c1, pc1);
      GenMappingValuesAdvance(p, c, pc, r1.code, r1.pc);
    }
  }

  lemma {:induction false} GenMappingValuesAdvance(p: Pattern, c: Code, pc: PatternContext, c1: Code, pc1: PatternContext)
    requires p.MatchMapping? && |p.values| == |p.keys| && 3 <= pc1.onTop && Advances(c, pc, c1, pc1)
    requires GenMappingValues(p, c1, pc1).Emitted?
    ensures var r := GenMappingValues(p, c1, pc1); Advances(c, pc, r.code, r.pc)
    decreases p, 0
  {
    hide AddAll, EmitFailPop;
    var n := |p.keys|;
    var pc2 := pc1.(onTop := pc1.onTop + n - 1);
    Retop(c, pc, c1, pc1, pc2);
    AddAdvances(c, pc, c1, pc2, [UnpackSequence(n)]);
    GenSubsAdvances(p.values, 0, c, pc, AddAll(c1, [UnpackSequence(n)]), pc2);
    var r := GenSubs(p.values, 0, AddAll(c1, [UnpackSequence(n)]), pc2);
    var pc3 := r.pc.(onTop := r.pc.onTop - 2);
    Retop(c, pc, r.code, r.pc, pc3);
    GenMappingRestAdvances(n, p.rest, c, pc, r.code, pc3);
  }

  lemma {:induction false} GenArgsAdvances(ps: seq<Pattern>, i: nat, c: Code, pc: PatternContext, c1: Code, pc1: PatternContext)
    requires i <= |ps| && pc1.onTop >= |ps| - i
    requires Advances(c, pc, c1, pc1) && GenArgs(ps, i, c1, pc1).Emitted?
    ensures var r := GenArgs(ps, i, c1, pc1); Advances(c, pc, r.code, r.pc)
    decreases ps, |ps| - i
  {
    if i < |ps| {
      var pc2 := pc1.(onTop := pc1.onTop - 1);
      assert Advances(c, pc, c1, pc2);
      if IsWildcard(ps[i]) {
        AddAdvances(c, pc, c1, pc2, [PopTop]);
        GenArgsAdvances(ps, i + 1, c, pc, AddAll(c1, [PopTop]), pc2);
      } else {
        GenSubpatternAdvances(ps[i], c, pc, c1, pc2);
        var r := GenSubpattern(ps[i], c1, pc2);
        GenArgsAdvances(ps, i + 1, c, pc, r.code, r.pc);
      }
    }
  }

  lemma {:induction false} GenClassAdvances(p: Pattern, c: Code, pc: PatternContext)
    requires p.MatchClass? && Ready(c, pc) && GenClass(p, c, pc).Emitted?
    ensures var r := GenClass(p, c, pc); Advances(c, pc, r.code, r.pc)
    decreases p, 1
  {
    assert Advances(c, pc, c, pc);
    ExprAdvances(p.cls, c, pc, c, pc);
    var c1 := GenExpr(p.cls, c).value;
    var pc1 := pc.(onTop := pc.onTop + 1);
    Retop(c, pc, c1, pc, pc1);
    GateAdvances(c, pc, c1, pc1, ClassBlock(p), false);
    var (c2, pc2) := JumpToFailPop(AddAll(c1, ClassBlock(p)), pc1, false);
    GenClassArgsAdvances(p, c, pc, c2, pc2);
  }

  lemma {:induction false} GenClassArgsAdvances(p: Pattern, c: Code, pc: PatternContext, c1: Code, pc1: PatternContext)
    requires p.MatchClass? && |p.kwdAttrs| == |p.kwdPatterns| && 1 <= pc1.onTop && Advances(c, pc, c1, pc1)
    requires GenClassArgs(p, c1, pc1).Emitted?
    ensures var r := GenClassArgs(p, c1, pc1); Advances(c, pc, r.code, r.pc)
    decreases p, 0
  {
    var n := |p.positional| + |p.kwdAttrs|;
    var pc2 := pc1.(onTop := pc1.onTop + n - 1);
    Retop(c, pc, c1, pc1, pc2);
    AddAdvances(c, pc, c1, pc2, [UnpackSequence(n)]);
    GenArgsAdvances(p.positional, 0, c, pc, AddAll(c1, [UnpackSequence(n)]), pc2);
    var r := GenArgs(p.positional, 0, AddAll(c1, [UnpackSequence(n)]), pc2);
    GenArgsAdvances(p.kwdPatterns, 0, c, pc, r.code, r.pc);
  }

  // ----- alternatives -----

  lemma {:induction false} LadderGrows(c0: Code, c: Code, failPop: seq<Label>, i: nat)
    requires i < |failPop| && Grows(c0, c) && LabelsInRange(c) && Distinct(failPop)
    requires forall k :: 0 <= k <= i ==> c0.next <= failPop[k] < c.next && failPop[k] !in c.labels
    ensures Grows(c0, Ladder(c, failPop, i)) && LabelsInRange(Ladder(c, failPop, i))
    decreases i
  {
    UseGrows(c0, c, failPop[i]);
    if i > 0 {
      AddGrows(c0, Use(c, failPop[i]), [PopTop]);
      LadderGrows(c0, AddAll(Use(c, failPop[i]), [PopTop]), failPop, i - 1);
    }
  }

  lemma {:induction false} ReorderGrows(stores: seq<string>, control: seq<string>, j: nat, c: Code)
    requires j <= |control| == |stores| && Reorder(stores, control, j, c).Some?
    ensures var c' := Reorder(stores, control, j, c).value;
            c'.labels == c.labels && c'.next == c.next && c.instrs <= c'.instrs
    decreases j
  {
    hide Displace, RepeatRotate, IndexOf, RotateCode;
    if j > 0 {
      var icontrol := j - 1;
      var istores := IndexOf(stores, control[icontrol], 0);
      if istores == icontrol {
        ReorderGrows(stores, control, icontrol, c);
      } else {
        var k := istores + 1;
        var c1 := AddAll(c, RepeatRotate(j, k));
        ReorderMoves(stores, control, j, k, c);
        ReorderGrows(Displace(stores, k, icontrol), control, icontrol, c1);
        assert c.instrs <= c1.instrs;
      }
    }
  }

  lemma {:induction false} ReorderMoves(stores: seq<string>, control: seq<string>, j: nat, k: nat, c: Code)
    requires 0 < j <= |control| == |stores| && k - 1 == IndexOf(stores, control[j - 1], 0) && 0 < k < j
    ensures Reorder(stores, control, j, c)
         == Reorder(Displace(stores, k, j - 1), control, j - 1, AddAll(c, RepeatRotate(j, k)))
  {
  }

  lemma {:induction false} SettleCapturesGrows(stores: seq<string>, first: bool, control: seq<string>, c: Code)
    requires SettleCaptures(stores, first, control, c).Alts?
    ensures var r := SettleCaptures(stores, first, control, c);
            && r.code.labels == c.labels && r.code.next == c.next && c.instrs <= r.code.instrs
            && |r.control| == |stores| && (first ==> r.control == stores) && (!first ==> r.control == control)
  {
    if !first { ReorderGrows(stores, control, |control|, c); }
  }

  lemma {:induction false} GenAlternativeGrows(alt: Pattern, first: bool, allow: bool, control: seq<string>, end: Label, c: Code)
    requires LabelsInRange(c) && GenAlternative(alt, first, allow, control, end, c).Alts?
    ensures var r := GenAlternative(alt, first, allow, control, end, c); Grows(c, r.code) && LabelsInRange(r.code)
    decreases alt, 3
  {
    var c0, pc0 := AddAll(c, [Copy(1)]), PatternContext([], allow, [], 0);
    assert Ready(c0, pc0);
    GenPatternAdvances(alt, c0, pc0);
    var g := GenPattern(alt, c0, pc0);
    SettleCapturesGrows(g.pc.stores, first, control, g.code);
    var c2 := SettleCaptures(g.pc.stores, first, control, g.code).code;
    AddGrows(c, c, [Copy(1)]);
    GrowsTransitive(c, c0, g.code);
    assert Grows(g.code, c2);
    GrowsTransitive(c, g.code, c2);
    AddGrows(c, c2, [Jump(end)]);
    if g.pc.failPop != [] {
      assert c2.labels == g.code.labels;
      LadderGrows(c, AddAll(c2, [Jump(end)]), g.pc.failPop, |g.pc.failPop| - 1);
    }
  }

  lemma {:induction false} GenAlternativesGrows(alts: seq<Pattern>, i: nat, control: seq<string>, end: Label, allow: bool, c: Code)
    requires i <= |alts| && LabelsInRange(c) && GenAlternatives(alts, i, control, end, allow, c).Alts?
    ensures var r := GenAlternatives(alts, i, control, end, allow, c); Grows(c, r.code) && LabelsInRange(r.code)
    decreases alts, |alts| - i
  {
    if i < |alts| {
      var allow' := i == |alts| - 1 && allow;
      GenAlternativeGrows(alts[i], i == 0, allow', control, end, c);
      var r := GenAlternative(alts[i], i == 0, allow', control, end, c);
      GenAlternativesGrows(alts, i + 1, r.control, end, allow, r.code);
      GrowsTransitive(c, r.code, GenAlternatives(alts, i + 1, r.control, end, allow, r.code).code);
    }
  }

  lemma {:induction false} GenSinkAdvances(control: seq<string>, i: nat, nrots: nat, c: Code, pc: PatternContext, c1: Code, pc1: PatternContext)
    requires i <= |control| && Advances(c, pc, c1, pc1) && GenSink(control, i, nrots, c1, pc1).Emitted?
    ensures var r := GenSink(control, i, nrots, c1, pc1);
            Advances(c, pc, r.code, r.pc) && r.pc.stores == pc1.stores + control[i..]
    decreases |control| - i
  {
    if i < |control| {
      var pc2 := pc1.(stores := pc1.stores + [control[i]]);
      AddAdvances(c, pc, c1, pc2, RotateCode(nrots));
      GenSinkAdvances(control, i + 1, nrots, c, pc, AddAll(c1, RotateCode(nrots)), pc2);
      assert control[i..] == [control[i]] + control[i + 1 ..];
    }
  }

  // After the alternatives the outer context goes on as if nothing happened.
  lemma {:induction false} ResumeAdvances(c: Code, pc: PatternContext, c1: Code)
    requires Ready(c, pc) && Grows(Fresh(c), c1) && LabelsInRange(c1)
    ensures var (c2, pc2) := JumpToFailPop(AddAll(c1, [PopTop]), pc, true);
            c.next !in c2.labels && Advances(c, pc, Use(c2, c.next), pc2)
  {
    assert Advances(c, pc, c1, pc);
    GateAdvances(c, pc, c1, pc, [PopTop], true);
    GateAdvances(c1, pc, c1, pc, [PopTop], true);
    var (c2, pc2) := JumpToFailPop(AddAll(c1, [PopTop]), pc, true);
    assert c.next !in c1.labels;
    assert c.next !in c2.labels;
    UseGrows(c, c2, c.next);
    forall k | 0 <= k < |pc2.failPop| ensures pc2.failPop[k] != c.next {
      if k < |pc.failPop| { assert pc2.failPop[k] == pc.failPop[k]; }
    }
  }

  lemma {:induction false} GenOrAdvances(alts: seq<Pattern>, c: Code, pc: PatternContext)
    requires Ready(c, pc) && GenOr(alts, c, pc).Emitted?
    ensures var r := GenOr(alts, c, pc); Advances(c, pc, r.code, r.pc)
    decreases alts, |alts| + 1
  {
    GenAlternativesGrows(alts, 0, [], c.next, pc.allowIrrefutable, Fresh(c));
    var a := GenAlternatives(alts, 0, [], c.next, pc.allowIrrefutable, Fresh(c));
    ResumeAdvances(c, pc, a.code);
    var (c2, pc2) := JumpToFailPop(AddAll(a.code, [PopTop]), pc, true);
    var nrots := |a.control| + 1 + pc2.onTop + |pc2.stores|;
    GenSinkAdvances(a.control, 0, nrots, c, pc, Use(c2, c.next), pc2);
    var r := GenSink(a.control, 0, nrots, Use(c2, c.next), pc2);
    AddAdvances(c, pc, r.code, r.pc, [PopTop]);
  }
}
