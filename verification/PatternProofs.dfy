// Pattern compilation preserves meaning.  For every pattern the compiler
// accepts, the code falls through exactly when Match succeeds, with the
// subject consumed, the scratch items untouched and the captures below them in
// the order of stores; otherwise it enters failPop[k] with exactly k items
// above the base, or raises what Match raises.
module PatternProofs {
  import opened Machine
  import opened Expressions
  import opened ExpressionProofs
  import opened Patterns
  import opened PatternFrames
  import opened PatternSteps
  import opened MatchFacts

  // UNPACK_EX can name the starred position, if the pattern is unpacked at all.
  ghost predicate StarFits(ps: seq<Pattern>) {
    var star := StarFrom(ps, 0);
    star < 256 || AllWild(ps) || IsWildcardStar(ps[star])
  }

  ghost predicate StarsFit(p: Pattern)
    decreases p, 1
  {
    match p
    case MatchSequence(ps) => StarFits(ps) && AllStarsFit(ps, 0)
    case MatchMapping(_, ps, _) => AllStarsFit(ps, 0)
    case MatchClass(_, ps, _, kwds) => AllStarsFit(ps, 0) && AllStarsFit(kwds, 0)
    case MatchAs(sub, _) => sub.Some? ==> StarsFit(sub.value)
    case MatchOr(alts) => AllStarsFit(alts, 0)
    case _ => true
  }

  ghost predicate AllStarsFit(ps: seq<Pattern>, i: nat)
    requires i <= |ps|
    decreases ps, |ps| - i
  {
    i < |ps| ==> StarsFit(ps[i]) && AllStarsFit(ps, i + 1)
  }

  ghost predicate Simulates(w: World, p: Code, a: Config, r: MatchResult, stores: seq<string>, c: Code, pc: PatternContext,
                            scratch: seq<Value>, caps: seq<Value>, base: seq<Value>)
  {
    match r
    case Matched(b, s) =>
      && stores <= pc.stores
      && b.Keys == (set x | x in pc.stores[|stores|..])
      && Reach(w, p, a, Run(|c.instrs|, Layout(scratch, caps + Captured(b, pc.stores[|stores|..]), base), s))
    case NoMatch(s) => FailsTo(w, p, a, pc.failPop, base, s)
    case MatchRaised(s) => Reach(w, p, a, Raised(s))
  }

  // ----- stack shapes -----

  lemma {:induction false} LayoutJunk(scratch: seq<Value>, caps: seq<Value>, base: seq<Value>)
    ensures Layout(scratch, caps, base) == (scratch + caps) + base
  {
  }

  lemma {:induction false} JunkOfOne(x: Value, scratch: seq<Value>, caps: seq<Value>, base: seq<Value>)
    ensures ([x] + scratch + caps) + base == [x] + Layout(scratch, caps, base)
  {
  }

  lemma {:induction false} JunkOfThree(x: Value, y: Value, z: Value, scratch: seq<Value>, caps: seq<Value>, base: seq<Value>)
    ensures ([x, y, z] + scratch + caps) + base == [x] + ([y, z] + Layout(scratch, caps, base))
  {
  }

  lemma {:induction false} LayoutCons(v: Value, scratch: seq<Value>, caps: seq<Value>, base: seq<Value>)
    ensures [v] + Layout(scratch, caps, base) == Layout([v] + scratch, caps, base)
  {
  }

  lemma {:induction false} LayoutPrefix(vs: seq<Value>, scratch: seq<Value>, caps: seq<Value>, base: seq<Value>)
    ensures Layout(vs + scratch, caps, base) == vs + Layout(scratch, caps, base)
  {
  }

  lemma {:induction false} LayoutSplit(vs: seq<Value>, i: nat, scratch: seq<Value>, caps: seq<Value>, base: seq<Value>)
    requires i < |vs|
    ensures vs[i..] + Layout(scratch, caps, base) == [vs[i]] + Layout(vs[i + 1 ..] + scratch, caps, base)
  {
    LayoutPrefix(vs[i + 1 ..], scratch, caps, base);
    assert vs[i..] == [vs[i]] + vs[i + 1 ..];
  }

  lemma {:induction false} LayoutHalves(vs: seq<Value>, n: nat, scratch: seq<Value>, caps: seq<Value>, base: seq<Value>)
    requires n <= |vs|
    ensures vs + Layout(scratch, caps, base) == vs[..n][0..] + Layout(vs[n..] + scratch, caps, base)
  {
    LayoutPrefix(vs[n..], scratch, caps, base);
    assert vs == vs[..n] + vs[n..] && vs[..n][0..] == vs[..n];
  }

  lemma {:induction false} LayoutUnpacked(vs: seq<Value>, x: Value, y: Value, scratch: seq<Value>, caps: seq<Value>, base: seq<Value>)
    ensures vs + ([x, y] + Layout(scratch, caps, base)) == vs[0..] + Layout([x, y] + scratch, caps, base)
  {
    LayoutPrefix([x, y], scratch, caps, base);
    assert vs[0..] == vs;
  }

  // ----- simulation -----

  lemma {:induction false} CapturedJoin(b1: map<string, Value>, b2: map<string, Value>, n1: seq<string>, n2: seq<string>)
    requires b1.Keys == (set x | x in n1) && b2.Keys == (set x | x in n2)
    requires forall x :: x in n1 ==> x !in n2
    ensures Captured(b1 + b2, n1 + n2) == Captured(b1, n1) + Captured(b2, n2)
    ensures (b1 + b2).Keys == (set x | x in n1 + n2)
  {
    var all := n1 + n2;
    forall k | 0 <= k < |all| ensures Captured(b1 + b2, all)[k] == (Captured(b1, n1) + Captured(b2, n2))[k] {
      if k < |n1| {
        assert all[k] == n1[k] && n1[k] in n1 && n1[k] in b1 && n1[k] !in b2;
      } else {
        assert all[k] == n2[k - |n1|] && all[k] in n2 && all[k] in b2;
      }
    }
  }

  // A first part that bound b1 (the names between stores and stores1),
  // followed by code that simulates r2, simulates AfterBinding(b1, r2).
  lemma {:induction false} SimulatesAfter(w: World, p: Code, a: Config, b1: map<string, Value>, r2: MatchResult, stores: seq<string>, stores1: seq<string>,
                       c: Code, pc: PatternContext, scratch: seq<Value>, caps: seq<Value>, base: seq<Value>)
    requires stores <= stores1 && b1.Keys == (set x | x in stores1[|stores|..])
    requires Distinct(pc.stores)
    requires Simulates(w, p, a, r2, stores1, c, pc, scratch, caps + Captured(b1, stores1[|stores|..]), base)
    ensures Simulates(w, p, a, AfterBinding(b1, r2), stores, c, pc, scratch, caps, base)
  {
    if r2.Matched? {
      var n1, n2 := stores1[|stores|..], pc.stores[|stores1|..];
      SplitNames(stores, stores1, pc.stores);
      CapturedJoin(b1, r2.bindings, n1, n2);
      var k1, k2 := Captured(b1, n1), Captured(r2.bindings, n2);
      assert (caps + k1) + k2 == caps + (k1 + k2);
    }
  }

  lemma {:induction false} SplitNames(stores: seq<string>, stores1: seq<string>, all: seq<string>)
    requires stores <= stores1 <= all && Distinct(all)
    ensures stores <= all && all[|stores|..] == stores1[|stores|..] + all[|stores1|..]
    ensures forall x :: x in stores1[|stores|..] ==> x !in all[|stores1|..]
  {
    var n1, n2 := stores1[|stores|..], all[|stores1|..];
    forall x | x in n1 ensures x !in n2 {
      var i :| 0 <= i < |n1| && n1[i] == x;
      assert all[|stores| + i] == x;
      forall j | 0 <= j < |n2| ensures n2[j] != x { assert all[|stores1| + j] == n2[j]; }
    }
  }

  // m was simulated up to c1, and when it matched the rest simulates r2.
  lemma {:induction false} Sequel(w: World, p: Code, a: Config, m: MatchResult, r2: MatchResult, pc: PatternContext, c1: Code, pc1: PatternContext,
               c2: Code, pc2: PatternContext, scratch1: seq<Value>, scratch2: seq<Value>, caps: seq<Value>, base: seq<Value>)
    requires Simulates(w, p, a, m, pc.stores, c1, pc1, scratch1, caps, base)
    requires Follows(c1, pc1, c2, pc2)
    requires m.Matched? ==>
      Simulates(w, p, a, r2, pc1.stores, c2, pc2, scratch2, caps + Captured(m.bindings, pc1.stores[|pc.stores|..]), base)
    ensures Simulates(w, p, a, AndThen(m, r2), pc.stores, c2, pc2, scratch2, caps, base)
  {
    if m.Matched? {
      SimulatesAfter(w, p, a, m.bindings, r2, pc.stores, pc1.stores, c2, pc2, scratch2, caps, base);
    } else {
      SimulatesFailure(w, p, a, m, pc.stores, c1, pc1, c2, pc2, scratch1, caps, scratch2, caps, base);
    }
  }

  lemma {:induction false} SimulatesFailure(w: World, p: Code, a: Config, r: MatchResult, stores: seq<string>, c: Code, pc: PatternContext,
                         c': Code, pc': PatternContext, scratch: seq<Value>, caps: seq<Value>, scratch': seq<Value>, caps': seq<Value>, base: seq<Value>)
    requires !r.Matched? && Simulates(w, p, a, r, stores, c, pc, scratch, caps, base) && pc.failPop <= pc'.failPop
    ensures forall stores' :: Simulates(w, p, a, r, stores', c', pc', scratch', caps', base)
  {
    if r.NoMatch? { FailsToLonger(w, p, a, pc.failPop, pc'.failPop, base, r.s); }
  }

  lemma {:induction false} SimulatesNothingBound(w: World, p: Code, a: Config, s: State, c: Code, pc: PatternContext,
                              scratch: seq<Value>, caps: seq<Value>, base: seq<Value>)
    requires Reach(w, p, a, Run(|c.instrs|, Layout(scratch, caps, base), s))
    ensures Simulates(w, p, a, Matched(map[], s), pc.stores, c, pc, scratch, caps, base)
  {
    assert caps + [] == caps;
    assert pc.stores[|pc.stores|..] == [];
  }

  // The part of Advances that the induction needs.
  ghost predicate Follows(c: Code, pc: PatternContext, c': Code, pc': PatternContext) {
    Ready(c, pc) && Ready(c', pc') && pc.stores <= pc'.stores && pc.failPop <= pc'.failPop
  }

  lemma {:induction false} AdvancesFollows(c: Code, pc: PatternContext, c': Code, pc': PatternContext)
    requires Ready(c, pc) && Advances(c, pc, c', pc')
    ensures Follows(c, pc, c', pc')
  {
  }

  // ----- what the induction assumes and proves about one pattern -----

  ghost predicate Starts(w: World, p: Code, a: Config, c: Code, pc: PatternContext, onTop: nat, r: Gen, caps: seq<Value>, top: seq<Value>, s: State) {
    && Ready(c, pc)
    && onTop == pc.onTop && |caps| == |pc.stores|
    && r.Emitted? && Extends(r.code, p) && AllBound(r.pc.failPop, p)
    && Reach(w, p, a, Run(|c.instrs|, top, s))
  }

  lemma {:induction false} PatternCorrect(w: World, p: Code, a: Config, pat: Pattern, c: Code, pc: PatternContext, v: Value,
                                          scratch: seq<Value>, caps: seq<Value>, base: seq<Value>, s: State)
    requires StarsFit(pat)
    requires Starts(w, p, a, c, pc, |scratch|, GenPattern(pat, c, pc), caps, [v] + Layout(scratch, caps, base), s)
    ensures var r := GenPattern(pat, c, pc);
            Simulates(w, p, a, Match(w, pat, v, s), pc.stores, r.code, r.pc, scratch, caps, base)
    decreases pat, 2
  {
    match pat
    case MatchValue(_) => ValueCorrect(w, p, a, pat, c, pc, v, scratch, caps, base, s);
    case MatchSingleton(_) => SingletonCorrect(w, p, a, pat, c, pc, v, scratch, caps, base, s);
    case MatchSequence(ps) => SequenceCorrect(w, p, a, ps, c, pc, v, scratch, caps, base, s);
    case MatchMapping(_, _, _) => MappingCorrect(w, p, a, pat, c, pc, v, scratch, caps, base, s);
    case MatchClass(_, _, _, _) => ClassCorrect(w, p, a, pat, c, pc, v, scratch, caps, base, s);
    case MatchStar(name) => CaptureCorrect(w, p, a, name, c, pc, v, scratch, caps, base, s);
    case MatchAs(sub, name) =>
      if sub.None? {
        CaptureCorrect(w, p, a, name, c, pc, v, scratch, caps, base, s);
      } else {
        AsCorrect(w, p, a, pat, c, pc, v, scratch, caps, base, s);
      }
    case MatchOr(alts) => OrCorrect(w, p, a, alts, c, pc, v, scratch, caps, base, s);
  }

  lemma {:induction false} CaptureCorrect(w: World, p: Code, a: Config, name: Option<string>, c: Code, pc: PatternContext, v: Value,
                       scratch: seq<Value>, caps: seq<Value>, base: seq<Value>, s: State)
    requires Starts(w, p, a, c, pc, |scratch|, StoreCapture(name, c, pc), caps, [v] + Layout(scratch, caps, base), s)
    ensures var r := StoreCapture(name, c, pc);
            Simulates(w, p, a, Matched(Bind(name, v), s), pc.stores, r.code, r.pc, scratch, caps, base)
  {
    StoreStep(w, p, a, name, c, pc, v, scratch, caps, base, s);
    var r := StoreCapture(name, c, pc);
    var names := if name.Some? then [name.value] else [];
    assert r.pc.stores[|pc.stores|..] == names;
  }

  lemma {:induction false} ValueCorrect(w: World, p: Code, a: Config, pat: Pattern, c: Code, pc: PatternContext, v: Value,
                     scratch: seq<Value>, caps: seq<Value>, base: seq<Value>, s: State)
    requires pat.MatchValue?
    requires Starts(w, p, a, c, pc, |scratch|, GenPattern(pat, c, pc), caps, [v] + Layout(scratch, caps, base), s)
    ensures var r := GenPattern(pat, c, pc);
            Simulates(w, p, a, Match(w, pat, v, s), pc.stores, r.code, r.pc, scratch, caps, base)
  {
    hide Reach, At, Extends, GenExpr, Eval, JumpToFailPop, CompareMeaning, Layout;
    var c1 := GenExpr(pat.value, c).value;
    var c2, st := AddAll(c1, [CompareOp(CMP_EQ), ToBool]), Layout(scratch, caps, base);
    JumpToFailPopExtends(c2, pc, false, p);
    BlockAt(c1, [CompareOp(CMP_EQ), ToBool], p);
    ExprCorrect(w, p, a, pat.value, c, [v] + st, s);
    var r1 := Eval(w, pat.value, s);
    if r1.Val? {
      ValueTest(w, p, a, c1, pc, v, r1.v, scratch, caps, base, r1.s);
      var r2 := CompareMeaning(w, Eq, v, r1.v, r1.s);
      if r2.Val? && Truth(w, r2.v) {
        var (c3, pc3) := JumpToFailPop(c2, pc, false);
        SimulatesNothingBound(w, p, a, r2.s, c3, pc3, scratch, caps, base);
      }
    }
  }

  // The subject against the value x.
  lemma {:induction false} ValueTest(w: World, p: Code, a: Config, c1: Code, pc: PatternContext, v: Value, x: Value,
                                     scratch: seq<Value>, caps: seq<Value>, base: seq<Value>, s: State)
    requires |scratch| == pc.onTop && |caps| == |pc.stores|
    requires var r := JumpToFailPop(AddAll(c1, [CompareOp(CMP_EQ), ToBool]), pc, false); Extends(r.0, p) && AllBound(r.1.failPop, p)
    requires Reach(w, p, a, Run(|c1.instrs|, [x] + ([v] + Layout(scratch, caps, base)), s))
    ensures var (c3, pc3) := JumpToFailPop(AddAll(c1, [CompareOp(CMP_EQ), ToBool]), pc, false);
            var r := CompareMeaning(w, Eq, v, x, s);
            if r.Exc? then Reach(w, p, a, Raised(r.s))
            else if Truth(w, r.v) then Reach(w, p, a, Run(|c3.instrs|, Layout(scratch, caps, base), r.s))
            else FailsTo(w, p, a, pc3.failPop, base, r.s)
  {
    hide Reach, At, Extends, JumpToFailPop, CompareMeaning, AllBound;
    var block, st := [CompareOp(CMP_EQ), ToBool], Layout(scratch, caps, base);
    var c2 := AddAll(c1, block);
    JumpToFailPopExtends(c2, pc, false, p);
    BlockAt(c1, block, p);
    assert [x] + ([v] + st) == [x, v] + st;
    AtOne(p, |c1.instrs|, block, 0);
    AtOne(p, |c1.instrs|, block, 1);
    CmpStep(w, p, a, |c1.instrs|, Eq, v, x, st, s);
    var r := CompareMeaning(w, Eq, v, x, s);
    if r.Val? {
      var t := Bool(Truth(w, r.v));
      Op(w, p, a, |c1.instrs| + 1, ToBool, [r.v] + st, r.s, [t] + st, r.s);
      LayoutJunk(scratch, caps, base);
      FailBranch(w, p, a, c2, pc, t, scratch + caps, base, r.s);
    }
  }

  lemma {:induction false} SingletonCorrect(w: World, p: Code, a: Config, pat: Pattern, c: Code, pc: PatternContext, v: Value,
                         scratch: seq<Value>, caps: seq<Value>, base: seq<Value>, s: State)
    requires pat.MatchSingleton?
    requires Starts(w, p, a, c, pc, |scratch|, GenPattern(pat, c, pc), caps, [v] + Layout(scratch, caps, base), s)
    ensures var r := GenPattern(pat, c, pc);
            Simulates(w, p, a, Match(w, pat, v, s), pc.stores, r.code, r.pc, scratch, caps, base)
  {
    hide Reach, At, JumpToFailPop;
    var k := pat.constant;
    var block := [LoadConst(k), IsOp(0)];
    var c2 := AddAll(c, block);
    var st := Layout(scratch, caps, base);
    JumpToFailPopExtends(c2, pc, false, p);
    BlockAt(c, block, p);
    AtOne(p, |c.instrs|, block, 0);
    AtOne(p, |c.instrs|, block, 1);
    ConstStep(w, p, a, |c.instrs|, k, [v] + st, s);
    var full := [k] + ([v] + st);
    assert full[1..] == [v] + st && full[1..][1..] == st;
    Op(w, p, a, |c.instrs| + 1, IsOp(0), full, s, [Bool(v == k)] + st, s);
    LayoutJunk(scratch, caps, base);
    FailBranch(w, p, a, c2, pc, Bool(v == k), scratch + caps, base, s);
    if v == k {
      var (c3, pc3) := JumpToFailPop(c2, pc, false);
      SimulatesNothingBound(w, p, a, s, c3, pc3, scratch, caps, base);
    }
  }

  lemma {:induction false} AsCorrect(w: World, p: Code, a: Config, pat: Pattern, c: Code, pc: PatternContext, v: Value,
                                     scratch: seq<Value>, caps: seq<Value>, base: seq<Value>, s: State)
    requires pat.MatchAs? && pat.pattern.Some? && StarsFit(pat)
    requires Starts(w, p, a, c, pc, |scratch|, GenPattern(pat, c, pc), caps, [v] + Layout(scratch, caps, base), s)
    ensures var r := GenPattern(pat, c, pc);
            Simulates(w, p, a, Match(w, pat, v, s), pc.stores, r.code, r.pc, scratch, caps, base)
    decreases pat, 1
  {
    var sub := pat.pattern.value;
    var c0, pc0 := AddAll(c, [Copy(1)]), pc.(onTop := pc.onTop + 1);
    var r1 := GenPattern(sub, c0, pc0);
    var r := GenPattern(pat, c, pc);
    AsLayout(pat, c, pc, p);
    AtOne(p, |c.instrs|, [Copy(1)], 0);
    CopyStep(w, p, a, |c.instrs|, 1, [v] + Layout(scratch, caps, base), s);
    LayoutCons(v, scratch, caps, base);
    PatternCorrect(w, p, a, sub, c0, pc0, v, [v] + scratch, caps, base, s);
    AsStep(w, p, a, pat.name, Match(w, sub, v, s), r1, r, pc, v, scratch, caps, base);
  }

  lemma {:induction false} AsLayout(pat: Pattern, c: Code, pc: PatternContext, p: Code)
    requires pat.MatchAs? && pat.pattern.Some? && Ready(c, pc)
    requires GenPattern(pat, c, pc).Emitted? && Extends(GenPattern(pat, c, pc).code, p) && AllBound(GenPattern(pat, c, pc).pc.failPop, p)
    ensures var c0, pc0 := AddAll(c, [Copy(1)]), pc.(onTop := pc.onTop + 1);
            var r1 := GenPattern(pat.pattern.value, c0, pc0);
            var r := GenPattern(pat, c, pc);
            && Ready(c0, pc0) && At(p, |c.instrs|, [Copy(1)]) && Extends(r1.code, p) && AllBound(r1.pc.failPop, p)
            && pc.stores <= r1.pc.stores && Follows(r1.code, r1.pc, r.code, r.pc)
  {
    hide At, StoreCapture;
    var c0, pc0 := AddAll(c, [Copy(1)]), pc.(onTop := pc.onTop + 1);
    var r1 := GenPattern(pat.pattern.value, c0, pc0);
    AddAdvances(c, pc, c, pc0, [Copy(1)]);
    GenPatternAdvances(pat.pattern.value, c0, pc0);
    var pc1 := r1.pc.(onTop := r1.pc.onTop - 1);
    Retop(c0, pc0, r1.code, r1.pc, pc1);
    assert Advances(r1.code, pc1, r1.code, pc1);
    StoreCaptureAdvances(pat.name, r1.code, pc1, r1.code, pc1);
    StoreCaptureExtends(pat.name, r1.code, pc1, p);
    ExtendsTransitive(c0, r1.code, p);
    BlockAt(c, [Copy(1)], p);
  }

  // The captured subject of an as-pattern goes below what its sub-pattern captured.
  lemma {:induction false} AsStep(w: World, p: Code, a: Config, name: Option<string>, m: MatchResult, r1: Gen, r: Gen, pc: PatternContext, v: Value,
               scratch: seq<Value>, caps: seq<Value>, base: seq<Value>)
    requires r1.Emitted? && r1.pc.onTop == |scratch| + 1 && |caps| == |pc.stores| && pc.stores <= r1.pc.stores
    requires r == StoreCapture(name, r1.code, r1.pc.(onTop := r1.pc.onTop - 1)) && r.Emitted?
    requires Follows(r1.code, r1.pc, r.code, r.pc) && Extends(r.code, p) && AllBound(r.pc.failPop, p)
    requires Simulates(w, p, a, m, pc.stores, r1.code, r1.pc, [v] + scratch, caps, base)
    ensures Simulates(w, p, a, AndThen(m, Matched(Bind(name, v), m.s)), pc.stores, r.code, r.pc, scratch, caps, base)
  {
    var pc1 := r1.pc.(onTop := r1.pc.onTop - 1);
    if m.Matched? {
      var caps1 := caps + Captured(m.bindings, r1.pc.stores[|pc.stores|..]);
      LayoutCons(v, scratch, caps1, base);
      CaptureCorrect(w, p, a, name, r1.code, pc1, v, scratch, caps1, base, m.s);
    }
    Sequel(w, p, a, m, Matched(Bind(name, v), m.s), pc, r1.code, r1.pc, r.code, r.pc, [v] + scratch, scratch, caps, base);
  }

  lemma {:induction false} StoreCaptureExtends(name: Option<string>, c: Code, pc: PatternContext, p: Code)
    requires StoreCapture(name, c, pc).Emitted? && Extends(StoreCapture(name, c, pc).code, p)
    ensures Extends(c, p)
  {
    BlockAt(c, if name.None? then [PopTop] else RotateCode(pc.onTop + |pc.stores| + 1), p);
  }

  // ----- sub-patterns whose subjects lie on the stack -----

  lemma {:induction false} SubpatternCorrect(w: World, p: Code, a: Config, pat: Pattern, c: Code, pc: PatternContext, v: Value,
                                             scratch: seq<Value>, caps: seq<Value>, base: seq<Value>, s: State)
    requires StarsFit(pat)
    requires Starts(w, p, a, c, pc, |scratch|, GenSubpattern(pat, c, pc), caps, [v] + Layout(scratch, caps, base), s)
    ensures var r := GenSubpattern(pat, c, pc);
            Simulates(w, p, a, Match(w, pat, v, s), pc.stores, r.code, r.pc, scratch, caps, base)
    decreases pat, 3
  {
    PatternCorrect(w, p, a, pat, c, pc.(allowIrrefutable := true), v, scratch, caps, base, s);
  }

  lemma {:induction false} SubsCorrect(w: World, p: Code, a: Config, ps: seq<Pattern>, i: nat, c: Code, pc: PatternContext, vs: seq<Value>,
                                       scratch: seq<Value>, caps: seq<Value>, base: seq<Value>, s: State)
    requires i <= |ps| == |vs| && AllStarsFit(ps, i) && pc.onTop >= |ps| - i
    requires Starts(w, p, a, c, pc, |scratch| + |ps| - i, GenSubs(ps, i, c, pc), caps, vs[i..] + Layout(scratch, caps, base), s)
    ensures var r := GenSubs(ps, i, c, pc);
            Simulates(w, p, a, MatchSubs(w, ps, i, vs, s), pc.stores, r.code, r.pc, scratch, caps, base)
    decreases ps, |ps| - i
  {
    var r := GenSubs(ps, i, c, pc);
    if i == |ps| {
      assert vs[i..] == [];
      SimulatesNothingBound(w, p, a, s, c, pc, scratch, caps, base);
    } else {
      var pc0 := pc.(onTop := pc.onTop - 1);
      assert Advances(c, pc, c, pc0);
      GenSubpatternAdvances(ps[i], c, pc, c, pc0);
      var r1 := GenSubpattern(ps[i], c, pc0);
      Retop(c, pc, r1.code, r1.pc, r1.pc);
      GenSubsAdvances(ps, i + 1, r1.code, r1.pc, r1.code, r1.pc);
      ExtendsTransitive(r1.code, r.code, p);
      AdvancesFollows(c, pc, r1.code, r1.pc);
      AdvancesFollows(r1.code, r1.pc, r.code, r.pc);
      SubsStep(w, p, a, ps, i, c, pc, vs, scratch, caps, base, s, r1, r);
    }
  }

  // One sub-pattern and then the rest.
  lemma {:induction false} SubsStep(w: World, p: Code, a: Config, ps: seq<Pattern>, i: nat, c: Code, pc: PatternContext, vs: seq<Value>,
                                    scratch: seq<Value>, caps: seq<Value>, base: seq<Value>, s: State, r1: Gen, r: Gen)
    requires i < |ps| == |vs| && AllStarsFit(ps, i) && pc.onTop >= |ps| - i
    requires Starts(w, p, a, c, pc, |scratch| + |ps| - i, r, caps, vs[i..] + Layout(scratch, caps, base), s)
    requires r1 == GenSubpattern(ps[i], c, pc.(onTop := pc.onTop - 1)) && r1.Emitted?
    requires r == GenSubs(ps, i + 1, r1.code, r1.pc)
    requires Follows(c, pc, r1.code, r1.pc) && Follows(r1.code, r1.pc, r.code, r.pc) && Extends(r1.code, p)
    ensures Simulates(w, p, a, MatchSubs(w, ps, i, vs, s), pc.stores, r.code, r.pc, scratch, caps, base)
    decreases ps, |ps| - i, 0
  {
    var scratch1 := vs[i + 1 ..] + scratch;
    LayoutSplit(vs, i, scratch, caps, base);
    SubpatternCorrect(w, p, a, ps[i], c, pc.(onTop := pc.onTop - 1), vs[i], scratch1, caps, base, s);
    var m := Match(w, ps[i], vs[i], s);
    if m.Matched? {
      var caps1 := caps + Captured(m.bindings, r1.pc.stores[|pc.stores|..]);
      LayoutPrefix(vs[i + 1 ..], scratch, caps1, base);
      SubsCorrect(w, p, a, ps, i + 1, r1.code, r1.pc, vs, scratch, caps1, base, m.s);
    }
    Sequel(w, p, a, m, MatchSubs(w, ps, i + 1, vs, m.s), pc, r1.code, r1.pc, r.code, r.pc, scratch1, scratch, caps, base);
  }

  lemma {:induction false} ArgsCorrect(w: World, p: Code, a: Config, ps: seq<Pattern>, i: nat, c: Code, pc: PatternContext, vs: seq<Value>,
                                       scratch: seq<Value>, caps: seq<Value>, base: seq<Value>, s: State)
    requires i <= |ps| == |vs| && AllStarsFit(ps, i) && pc.onTop >= |ps| - i
    requires Starts(w, p, a, c, pc, |scratch| + |ps| - i, GenArgs(ps, i, c, pc), caps, vs[i..] + Layout(scratch, caps, base), s)
    ensures var r := GenArgs(ps, i, c, pc);
            Simulates(w, p, a, MatchSubs(w, ps, i, vs, s), pc.stores, r.code, r.pc, scratch, caps, base)
    decreases ps, |ps| - i
  {
    hide Reach, Extends, Simulates, GenSubpattern, Layout;
    var r := GenArgs(ps, i, c, pc);
    if i == |ps| {
      assert vs[i..] + Layout(scratch, caps, base) == Layout(scratch, caps, base);
      SimulatesNothingBound(w, p, a, s, c, pc, scratch, caps, base);
    } else if IsWildcard(ps[i]) {
      var c1, pc0 := AddAll(c, [PopTop]), pc.(onTop := pc.onTop - 1);
      ArgsPop(w, p, a, ps, i, c, pc, vs, scratch, caps, base, s);
      ArgsCorrect(w, p, a, ps, i + 1, c1, pc0, vs, scratch, caps, base, s);
      SimulatesAfterNothing(w, p, a, MatchSubs(w, ps, i + 1, vs, s), pc.stores, r.code, r.pc, scratch, caps, base);
    } else {
      ArgsLayout(ps, i, c, pc, p);
      ArgsStep(w, p, a, ps, i, c, pc, vs, scratch, caps, base, s, GenSubpattern(ps[i], c, pc.(onTop := pc.onTop - 1)), r);
    }
  }

  // A wildcard argument is popped.
  lemma {:induction false} ArgsPop(w: World, p: Code, a: Config, ps: seq<Pattern>, i: nat, c: Code, pc: PatternContext, vs: seq<Value>,
                                   scratch: seq<Value>, caps: seq<Value>, base: seq<Value>, s: State)
    requires i < |ps| == |vs| && IsWildcard(ps[i]) && pc.onTop >= |ps| - i
    requires Starts(w, p, a, c, pc, |scratch| + |ps| - i, GenArgs(ps, i, c, pc), caps, vs[i..] + Layout(scratch, caps, base), s)
    ensures var c1, pc0 := AddAll(c, [PopTop]), pc.(onTop := pc.onTop - 1);
            && GenArgs(ps, i, c, pc) == GenArgs(ps, i + 1, c1, pc0)
            && Starts(w, p, a, c1, pc0, |scratch| + |ps| - (i + 1), GenArgs(ps, i + 1, c1, pc0), caps, vs[i + 1 ..] + Layout(scratch, caps, base), s)
  {
    hide Reach, At, Layout, GenSubpattern;
    var c1, pc0, st := AddAll(c, [PopTop]), pc.(onTop := pc.onTop - 1), Layout(scratch, caps, base);
    assert Advances(c, pc, c, pc0) by { AdvancesDown(c, pc); }
    AddAdvances(c, pc, c, pc0, [PopTop]);
    GenArgsAdvances(ps, i + 1, c1, pc0, c1, pc0);
    ExtendsTransitive(c1, GenArgs(ps, i, c, pc).code, p);
    BlockAt(c, [PopTop], p);
    AtOne(p, |c.instrs|, [PopTop], 0);
    assert vs[i..] + st == [vs[i]] + (vs[i + 1 ..] + st);
    PopStep(w, p, a, |c.instrs|, vs[i], vs[i + 1 ..] + st, s);
  }

  lemma {:induction false} AdvancesDown(c: Code, pc: PatternContext)
    requires Ready(c, pc) && pc.onTop > 0
    ensures Advances(c, pc, c, pc.(onTop := pc.onTop - 1))
  {
  }

  lemma {:induction false} ArgsLayout(ps: seq<Pattern>, i: nat, c: Code, pc: PatternContext, p: Code)
    requires i < |ps| && !IsWildcard(ps[i]) && pc.onTop >= |ps| - i && Ready(c, pc)
    requires GenArgs(ps, i, c, pc).Emitted? && Extends(GenArgs(ps, i, c, pc).code, p)
    ensures var r, r1 := GenArgs(ps, i, c, pc), GenSubpattern(ps[i], c, pc.(onTop := pc.onTop - 1));
            && r1.Emitted? && r == GenArgs(ps, i + 1, r1.code, r1.pc)
            && Follows(c, pc, r1.code, r1.pc) && Follows(r1.code, r1.pc, r.code, r.pc) && Extends(r1.code, p)
  {
    hide GenSubpattern;
    var pc0 := pc.(onTop := pc.onTop - 1);
    var r, r1 := GenArgs(ps, i, c, pc), GenSubpattern(ps[i], c, pc0);
    AdvancesDown(c, pc);
    GenSubpatternAdvances(ps[i], c, pc, c, pc0);
    Retop(c, pc, r1.code, r1.pc, r1.pc);
    GenArgsAdvances(ps, i + 1, r1.code, r1.pc, r1.code, r1.pc);
    ExtendsTransitive(r1.code, r.code, p);
    AdvancesFollows(c, pc, r1.code, r1.pc);
    AdvancesFollows(r1.code, r1.pc, r.code, r.pc);
  }

  lemma {:induction false} ArgsStep(w: World, p: Code, a: Config, ps: seq<Pattern>, i: nat, c: Code, pc: PatternContext, vs: seq<Value>,
                                    scratch: seq<Value>, caps: seq<Value>, base: seq<Value>, s: State, r1: Gen, r: Gen)
    requires i < |ps| == |vs| && AllStarsFit(ps, i) && pc.onTop >= |ps| - i
    requires Starts(w, p, a, c, pc, |scratch| + |ps| - i, r, caps, vs[i..] + Layout(scratch, caps, base), s)
    requires r1 == GenSubpattern(ps[i], c, pc.(onTop := pc.onTop - 1)) && r1.Emitted?
    requires r == GenArgs(ps, i + 1, r1.code, r1.pc)
    requires Follows(c, pc, r1.code, r1.pc) && Follows(r1.code, r1.pc, r.code, r.pc) && Extends(r1.code, p)
    ensures Simulates(w, p, a, MatchSubs(w, ps, i, vs, s), pc.stores, r.code, r.pc, scratch, caps, base)
    decreases ps, |ps| - i, 0
  {
    var scratch1 := vs[i + 1 ..] + scratch;
    LayoutSplit(vs, i, scratch, caps, base);
    SubpatternCorrect(w, p, a, ps[i], c, pc.(onTop := pc.onTop - 1), vs[i], scratch1, caps, base, s);
    var m := Match(w, ps[i], vs[i], s);
    if m.Matched? {
      var caps1 := caps + Captured(m.bindings, r1.pc.stores[|pc.stores|..]);
      LayoutPrefix(vs[i + 1 ..], scratch, caps1, base);
      ArgsCorrect(w, p, a, ps, i + 1, r1.code, r1.pc, vs, scratch, caps1, base, m.s);
    }
    Sequel(w, p, a, m, MatchSubs(w, ps, i + 1, vs, m.s), pc, r1.code, r1.pc, r.code, r.pc, scratch1, scratch, caps, base);
  }

  lemma {:induction false} SimulatesAfterNothing(w: World, p: Code, a: Config, r: MatchResult, stores: seq<string>, c: Code, pc: PatternContext,
                              scratch: seq<Value>, caps: seq<Value>, base: seq<Value>)
    requires Simulates(w, p, a, r, stores, c, pc, scratch, caps, base)
    ensures Simulates(w, p, a, AfterBinding(map[], r), stores, c, pc, scratch, caps, base)
  {
    if r.Matched? { assert map[] + r.bindings == r.bindings; }
  }

  // ----- sequences -----

  // MATCH_SEQUENCE and its test.
  lemma {:induction false} TypeGate(w: World, p: Code, a: Config, c: Code, pc: PatternContext, v: Value,
                                    scratch: seq<Value>, caps: seq<Value>, base: seq<Value>, s: State)
    requires |scratch| + 1 == pc.onTop && |caps| == |pc.stores|
    requires var r := JumpToFailPop(AddAll(c, [MatchSequenceOp]), pc, false); Extends(r.0, p) && AllBound(r.1.failPop, p)
    requires Reach(w, p, a, Run(|c.instrs|, [v] + Layout(scratch, caps, base), s))
    ensures var (c1, pc1) := JumpToFailPop(AddAll(c, [MatchSequenceOp]), pc, false);
            if IsSequence(w, v) then Reach(w, p, a, Run(|c1.instrs|, [v] + Layout(scratch, caps, base), s))
            else FailsTo(w, p, a, pc1.failPop, base, s)
  {
    hide JumpToFailPop, Reach, IsSequence, FailsTo, AllBound, Extends, At;
    var st := Layout(scratch, caps, base);
    var c0 := AddAll(c, [MatchSequenceOp]);
    JunkOfOne(v, scratch, caps, base);
    JumpToFailPopExtends(c0, pc, false, p);
    BlockAt(c, [MatchSequenceOp], p);
    AtOne(p, |c.instrs|, [MatchSequenceOp], 0);
    Op(w, p, a, |c.instrs|, MatchSequenceOp, [v] + st, s, [Bool(IsSequence(w, v))] + ([v] + st), s);
    FailBranch(w, p, a, c0, pc, Bool(IsSequence(w, v)), [v] + scratch + caps, base, s);
  }

  // The length and its test.
  lemma {:induction false} LengthGate(w: World, p: Code, a: Config, exact: bool, len: nat, c: Code, pc: PatternContext, v: Value,
                                      scratch: seq<Value>, caps: seq<Value>, base: seq<Value>, s: State)
    requires |scratch| + 1 == pc.onTop && |caps| == |pc.stores| && IsSequence(w, v)
    requires var r := JumpToFailPop(AddAll(c, [GetLen, LoadConst(Int(len)), CompareOp(if exact then CMP_EQ else CMP_GTE), ToBool]), pc, false);
             Extends(r.0, p) && AllBound(r.1.failPop, p)
    requires Reach(w, p, a, Run(|c.instrs|, [v] + Layout(scratch, caps, base), s))
    ensures var (c1, pc1) := JumpToFailPop(AddAll(c, [GetLen, LoadConst(Int(len)), CompareOp(if exact then CMP_EQ else CMP_GTE), ToBool]), pc, false);
            if (if exact then |Elements(w, v)| == len else |Elements(w, v)| >= len)
            then Reach(w, p, a, Run(|c1.instrs|, [v] + Layout(scratch, caps, base), s))
            else FailsTo(w, p, a, pc1.failPop, base, s)
  {
    hide JumpToFailPop, Reach, IsSequence, Elements, FailsTo, AllBound, Extends, At;
    var st, k := Layout(scratch, caps, base), |Elements(w, v)|;
    var block := [GetLen, LoadConst(Int(len)), CompareOp(if exact then CMP_EQ else CMP_GTE), ToBool];
    JunkOfOne(v, scratch, caps, base);
    JumpToFailPopExtends(AddAll(c, block), pc, false, p);
    BlockAt(c, block, p);
    LengthTest(w, p, a, |c.instrs|, k, len, exact, v, st, s);
    FailBranch(w, p, a, AddAll(c, block), pc, Bool(if exact then k == len else k >= len), [v] + scratch + caps, base, s);
  }

  lemma {:induction false} GatesCorrect(w: World, p: Code, a: Config, star: int, n: nat, c: Code, pc: PatternContext, v: Value,
                     scratch: seq<Value>, caps: seq<Value>, base: seq<Value>, s: State)
    requires star < n && |scratch| + 1 == pc.onTop && |caps| == |pc.stores|
    requires var r := GenSequenceGates(star, n, c, pc); Extends(r.0, p) && AllBound(r.1.failPop, p)
    requires Reach(w, p, a, Run(|c.instrs|, [v] + Layout(scratch, caps, base), s))
    ensures var (c1, pc1) := GenSequenceGates(star, n, c, pc);
            if IsSequence(w, v) && LengthFits(star, n, Elements(w, v))
            then Reach(w, p, a, Run(|c1.instrs|, [v] + Layout(scratch, caps, base), s))
            else FailsTo(w, p, a, pc1.failPop, base, s)
  {
    hide JumpToFailPop, Reach, IsSequence, Elements, FailsTo, Extends, At, Layout;
    var (c1, pc1) := JumpToFailPop(AddAll(c, [MatchSequenceOp]), pc, false);
    var exact, len := star < 0, if star < 0 then n else n - 1;
    if exact || n > 1 {
      var block := [GetLen, LoadConst(Int(len)), CompareOp(if exact then CMP_EQ else CMP_GTE), ToBool];
      var (c2, pc2) := JumpToFailPop(AddAll(c1, block), pc1, false);
      assert (c2, pc2) == GenSequenceGates(star, n, c, pc);
      JumpToFailPopExtends(AddAll(c1, block), pc1, false, p);
      BlockAt(c1, block, p);
      assert AllBound(pc1.failPop, p);
      TypeGate(w, p, a, c, pc, v, scratch, caps, base, s);
      if IsSequence(w, v) {
        LengthGate(w, p, a, exact, len, c1, pc1, v, scratch, caps, base, s);
      } else {
        FailsToLonger(w, p, a, pc1.failPop, pc2.failPop, base, s);
      }
    } else {
      TypeGate(w, p, a, c, pc, v, scratch, caps, base, s);
    }
  }

  lemma {:induction false} AllWildMatch(w: World, ps: seq<Pattern>, i: nat, vs: seq<Value>, s: State)
    requires i <= |ps| == |vs| && AllWild(ps)
    ensures MatchSubs(w, ps, i, vs, s) == Matched(map[], s)
    decreases |ps| - i
  {
    if i < |ps| {
      assert IsWildcard(ps[i]) || IsWildcardStar(ps[i]);
      assert Match(w, ps[i], vs[i], s) == Matched(map[], s);
      AllWildMatch(w, ps, i + 1, vs, s);
      var none: map<string, Value> := map[];
      assert none + none == none;
    }
  }

  lemma {:induction false} SequenceCorrect(w: World, p: Code, a: Config, ps: seq<Pattern>, c: Code, pc: PatternContext, v: Value,
                                           scratch: seq<Value>, caps: seq<Value>, base: seq<Value>, s: State)
    requires StarFits(ps) && AllStarsFit(ps, 0)
    requires Starts(w, p, a, c, pc, |scratch|, GenSequence(ps, c, pc), caps, [v] + Layout(scratch, caps, base), s)
    ensures var r := GenSequence(ps, c, pc);
            Simulates(w, p, a, MatchItems(w, ps, v, s), pc.stores, r.code, r.pc, scratch, caps, base)
    decreases ps, |ps| + 3
  {
    var star, n := StarFrom(ps, 0), |ps|;
    var r := GenSequence(ps, c, pc);
    var pc0 := pc.(onTop := pc.onTop + 1);
    var (c1, pc1) := GenSequenceGates(star, n, c, pc0);
    SequenceLayout(ps, c, pc, p);
    GatesCorrect(w, p, a, star, n, c, pc0, v, scratch, caps, base, s);
    if IsSequence(w, v) && LengthFits(star, n, Elements(w, v)) {
      BodyCorrect(w, p, a, ps, star, c1, pc1.(onTop := pc1.onTop - 1), v, scratch, caps, base, s);
    } else {
      FailsToLonger(w, p, a, pc1.failPop, r.pc.failPop, base, s);
    }
  }

  lemma {:induction false} SequenceLayout(ps: seq<Pattern>, c: Code, pc: PatternContext, p: Code)
    requires Ready(c, pc) && GenSequence(ps, c, pc).Emitted?
    requires Extends(GenSequence(ps, c, pc).code, p) && AllBound(GenSequence(ps, c, pc).pc.failPop, p)
    ensures var (c1, pc1) := GenSequenceGates(StarFrom(ps, 0), |ps|, c, pc.(onTop := pc.onTop + 1));
            && Extends(c1, p) && AllBound(pc1.failPop, p) && Ready(c1, pc1)
            && pc1.failPop <= GenSequence(ps, c, pc).pc.failPop
  {
    hide GenSequenceGates, GenSequenceBody, At;
    var star := StarFrom(ps, 0);
    var pc0 := pc.(onTop := pc.onTop + 1);
    assert Advances(c, pc, c, pc0);
    GenSequenceGatesAdvance(star, |ps|, c, pc0);
    var (c1, pc1) := GenSequenceGates(star, |ps|, c, pc0);
    var pc2 := pc1.(onTop := pc1.onTop - 1);
    Retop(c, pc0, c1, pc1, pc2);
    assert Advances(c1, pc2, c1, pc2);
    GenSequenceBodyAdvances(ps, star, c1, pc2, c1, pc2);
    ExtendsTransitive(c1, GenSequence(ps, c, pc).code, p);
  }

  // The second strategy as a whole; the subject is dropped at the end.
  lemma {:induction false} IndexedCorrect(w: World, p: Code, a: Config, ps: seq<Pattern>, star: nat, c: Code, pc: PatternContext, v: Value,
                                          scratch: seq<Value>, caps: seq<Value>, base: seq<Value>, s: State)
    requires star < |ps| && IsWildcardStar(ps[star]) && !AllWild(ps) && AllStarsFit(ps, 0)
    requires IsSequence(w, v) && |ps| - 1 <= |Elements(w, v)|
    requires Starts(w, p, a, c, pc, |scratch|, GenSequenceBody(ps, star, c, pc), caps, [v] + Layout(scratch, caps, base), s)
    ensures var r := GenSequenceBody(ps, star, c, pc);
            Simulates(w, p, a, MatchSubs(w, ps, 0, Parts(Elements(w, v), star, |ps|), s), pc.stores, r.code, r.pc, scratch, caps, base)
    decreases ps, |ps| + 1
  {
    hide Extends, At, Distinct;
    var r := GenSequenceBody(ps, star, c, pc);
    var pc1 := pc.(onTop := pc.onTop + 1);
    var r1 := GenItems(ps, 0, star, c, pc1);
    BlockAt(r1.code, [PopTop], p);
    AtOne(p, |r1.code.instrs|, [PopTop], 0);
    assert Ready(c, pc1);
    ItemsCorrect(w, p, a, ps, 0, star, c, pc1, v, scratch, caps, base, s);
    DropSubject(w, p, a, MatchSubs(w, ps, 0, Parts(Elements(w, v), star, |ps|), s), pc.stores, r1.code, r1.pc, r.pc, v, scratch, caps, base);
  }

  // Nothing to bind: the subject is dropped.
  lemma {:induction false} WildCorrect(w: World, p: Code, a: Config, ps: seq<Pattern>, c: Code, pc: PatternContext, parts: seq<Value>, v: Value,
                                       scratch: seq<Value>, caps: seq<Value>, base: seq<Value>, s: State)
    requires AllWild(ps) && |parts| == |ps|
    requires Starts(w, p, a, c, pc, |scratch|, Emitted(AddAll(c, [PopTop]), pc), caps, [v] + Layout(scratch, caps, base), s)
    ensures Simulates(w, p, a, MatchSubs(w, ps, 0, parts, s), pc.stores, AddAll(c, [PopTop]), pc, scratch, caps, base)
  {
    hide Extends, At, Distinct, Reach;
    BlockAt(c, [PopTop], p);
    AtOne(p, |c.instrs|, [PopTop], 0);
    PopStep(w, p, a, |c.instrs|, v, Layout(scratch, caps, base), s);
    AllWildMatch(w, ps, 0, parts, s);
    SimulatesNothingBound(w, p, a, s, AddAll(c, [PopTop]), pc, scratch, caps, base);
  }

  // Unpacking, then the sub-patterns one by one.
  lemma {:induction false} UnpackedCorrect(w: World, p: Code, a: Config, ps: seq<Pattern>, star: int, c: Code, pc: PatternContext, v: Value,
                                           scratch: seq<Value>, caps: seq<Value>, base: seq<Value>, s: State)
    requires star == StarFrom(ps, 0) < 256 && AllStarsFit(ps, 0)
    requires IsSequence(w, v) && LengthFits(star, |ps|, Elements(w, v))
    requires Starts(w, p, a, c, pc, |scratch|, GenSubs(ps, 0, AddAll(c, [UnpackCode(star, |ps|)]), pc.(onTop := pc.onTop + |ps|)), caps,
               [v] + Layout(scratch, caps, base), s)
    ensures var r := GenSubs(ps, 0, AddAll(c, [UnpackCode(star, |ps|)]), pc.(onTop := pc.onTop + |ps|));
            Simulates(w, p, a, MatchSubs(w, ps, 0, Parts(Elements(w, v), star, |ps|), s), pc.stores, r.code, r.pc, scratch, caps, base)
    decreases ps, |ps| + 1
  {
    hide Extends, At, Distinct, Reach, UnpackCode, GenSubs, Parts, Simulates, AllBound;
    var n, st, parts := |ps|, Layout(scratch, caps, base), Parts(Elements(w, v), star, |ps|);
    var c1, pc1 := AddAll(c, [UnpackCode(star, n)]), pc.(onTop := pc.onTop + n);
    UnpackLayout(ps, star, c, pc, p);
    AtOne(p, |c.instrs|, [UnpackCode(star, n)], 0);
    UnpackStep(w, p, a, |c.instrs|, star, n, v, st, s);
    assert parts[0..] == parts;
    SubsCorrect(w, p, a, ps, 0, c1, pc1, parts, scratch, caps, base, s);
  }

  lemma {:induction false} BodyCorrect(w: World, p: Code, a: Config, ps: seq<Pattern>, star: int, c: Code, pc: PatternContext, v: Value,
                                       scratch: seq<Value>, caps: seq<Value>, base: seq<Value>, s: State)
    requires star == StarFrom(ps, 0) && StarFits(ps) && AllStarsFit(ps, 0)
    requires IsSequence(w, v) && LengthFits(star, |ps|, Elements(w, v))
    requires Starts(w, p, a, c, pc, |scratch|, GenSequenceBody(ps, star, c, pc), caps, [v] + Layout(scratch, caps, base), s)
    ensures var r := GenSequenceBody(ps, star, c, pc);
            Simulates(w, p, a, MatchSubs(w, ps, 0, Parts(Elements(w, v), star, |ps|), s), pc.stores, r.code, r.pc, scratch, caps, base)
    decreases ps, |ps| + 2
  {
    hide Starts, Simulates, GenSubs, GenItems, Layout, UnpackCode;
    if AllWild(ps) {
      WildCorrect(w, p, a, ps, c, pc, Parts(Elements(w, v), star, |ps|), v, scratch, caps, base, s);
    } else if star >= 0 && IsWildcardStar(ps[star]) {
      IndexedCorrect(w, p, a, ps, star, c, pc, v, scratch, caps, base, s);
    } else {
      UnpackedCorrect(w, p, a, ps, star, c, pc, v, scratch, caps, base, s);
    }
  }

  lemma {:induction false} UnpackLayout(ps: seq<Pattern>, star: int, c: Code, pc: PatternContext, p: Code)
    requires star < |ps| && Ready(c, pc)
    requires var r := GenSubs(ps, 0, AddAll(c, [UnpackCode(star, |ps|)]), pc.(onTop := pc.onTop + |ps|));
             r.Emitted? && Extends(r.code, p)
    ensures var c1, pc1 := AddAll(c, [UnpackCode(star, |ps|)]), pc.(onTop := pc.onTop + |ps|);
            Ready(c1, pc1) && At(p, |c.instrs|, [UnpackCode(star, |ps|)])
  {
    var block := [UnpackCode(star, |ps|)];
    var c1, pc1 := AddAll(c, block), pc.(onTop := pc.onTop + |ps|);
    assert Advances(c, pc, c, pc1);
    AddAdvances(c, pc, c, pc1, block);
    assert Advances(c1, pc1, c1, pc1);
    GenSubsAdvances(ps, 0, c1, pc1, c1, pc1);
    ExtendsTransitive(c1, GenSubs(ps, 0, c1, pc1).code, p);
    BlockAt(c, block, p);
  }

  // POP_TOP once the subject is no longer needed.
  lemma {:induction false} DropSubject(w: World, p: Code, a: Config, m: MatchResult, stores: seq<string>, c: Code, pc: PatternContext, pc': PatternContext, v: Value,
                    scratch: seq<Value>, caps: seq<Value>, base: seq<Value>)
    requires Simulates(w, p, a, m, stores, c, pc, [v] + scratch, caps, base)
    requires |c.instrs| < |p.instrs| && p.instrs[|c.instrs|] == PopTop
    requires pc'.stores == pc.stores && pc'.failPop == pc.failPop
    ensures Simulates(w, p, a, m, stores, AddAll(c, [PopTop]), pc', scratch, caps, base)
  {
    if m.Matched? {
      var caps1 := caps + Captured(m.bindings, pc.stores[|stores|..]);
      LayoutCons(v, scratch, caps1, base);
      PopStep(w, p, a, |c.instrs|, v, Layout(scratch, caps1, base), m.s);
    }
  }

  // The indexing strategy; the subject lies on top of scratch all along.
  lemma {:induction false} ItemsCorrect(w: World, p: Code, a: Config, ps: seq<Pattern>, i: nat, star: nat, c: Code, pc: PatternContext, v: Value,
                                        scratch: seq<Value>, caps: seq<Value>, base: seq<Value>, s: State)
    requires i <= |ps| && star < |ps| && IsWildcardStar(ps[star]) && AllStarsFit(ps, i)
    requires IsSequence(w, v) && |ps| - 1 <= |Elements(w, v)|
    requires Starts(w, p, a, c, pc, |scratch| + 1, GenItems(ps, i, star, c, pc), caps, [v] + Layout(scratch, caps, base), s)
    ensures var r := GenItems(ps, i, star, c, pc);
            Simulates(w, p, a, MatchSubs(w, ps, i, Parts(Elements(w, v), star, |ps|), s), pc.stores, r.code, r.pc, [v] + scratch, caps, base)
    decreases ps, |ps| - i
  {
    hide Extends, Distinct, Reach, At, Simulates, GenSubpattern;
    var r := GenItems(ps, i, star, c, pc);
    var parts := Parts(Elements(w, v), star, |ps|);
    LayoutCons(v, scratch, caps, base);
    if i == |ps| {
      SimulatesNothingBound(w, p, a, s, c, pc, [v] + scratch, caps, base);
    } else if IsWildcard(ps[i]) || i == star {
      ItemsCorrect(w, p, a, ps, i + 1, star, c, pc, v, scratch, caps, base, s);
      assert Match(w, ps[i], parts[i], s) == Matched(map[], s);
      SimulatesAfterNothing(w, p, a, MatchSubs(w, ps, i + 1, parts, s), pc.stores, r.code, r.pc, [v] + scratch, caps, base);
    } else {
      var c1 := AddAll(c, ItemCode(|ps|, i, star));
      var r1 := GenSubpattern(ps[i], c1, pc);
      ItemsLayout(ps, i, star, c, pc, p);
      ItemsStep(w, p, a, ps, i, star, c, pc, v, scratch, caps, base, s, r1, r);
    }
  }

  lemma {:induction false} ItemsLayout(ps: seq<Pattern>, i: nat, star: int, c: Code, pc: PatternContext, p: Code)
    requires i < |ps| && !IsWildcard(ps[i]) && i != star && Ready(c, pc)
    requires GenItems(ps, i, star, c, pc).Emitted? && Extends(GenItems(ps, i, star, c, pc).code, p)
    ensures var c1 := AddAll(c, ItemCode(|ps|, i, star));
            var r1 := GenSubpattern(ps[i], c1, pc);
            var r := GenItems(ps, i, star, c, pc);
            Follows(c1, pc, r1.code, r1.pc) && Follows(r1.code, r1.pc, r.code, r.pc) && Extends(c1, p) && Extends(r1.code, p)
  {
    var c1 := AddAll(c, ItemCode(|ps|, i, star));
    var r := GenItems(ps, i, star, c, pc);
    assert Advances(c, pc, c, pc);
    AddAdvances(c, pc, c, pc, ItemCode(|ps|, i, star));
    assert Advances(c1, pc, c1, pc);
    GenSubpatternAdvances(ps[i], c1, pc, c1, pc);
    var r1 := GenSubpattern(ps[i], c1, pc);
    assert Advances(r1.code, r1.pc, r1.code, r1.pc);
    GenItemsAdvances(ps, i + 1, star, r1.code, r1.pc, r1.code, r1.pc);
    ExtendsTransitive(r1.code, r.code, p);
    ExtendsTransitive(c1, r1.code, p);
  }

  lemma {:induction false} FetchItem(w: World, p: Code, a: Config, pc: nat, n: nat, i: nat, star: nat, v: Value,
                  scratch: seq<Value>, caps: seq<Value>, base: seq<Value>, s: State)
    requires IsSequence(w, v) && i < n && star < n && i != star && n - 1 <= |Elements(w, v)|
    requires Reach(w, p, a, Run(pc, [v] + Layout(scratch, caps, base), s)) && At(p, pc, ItemCode(n, i, star))
    ensures var part := Parts(Elements(w, v), star, n)[i];
            Reach(w, p, a, Run(pc + |ItemCode(n, i, star)|, [part] + Layout([v] + scratch, caps, base), s))
  {
    ItemStep(w, p, a, pc, n, i, star, v, Layout(scratch, caps, base), s);
    LayoutCons(v, scratch, caps, base);
  }

  lemma {:induction false} ItemsStep(w: World, p: Code, a: Config, ps: seq<Pattern>, i: nat, star: nat, c: Code, pc: PatternContext, v: Value,
                                     scratch: seq<Value>, caps: seq<Value>, base: seq<Value>, s: State, r1: Gen, r: Gen)
    requires i < |ps| && star < |ps| && i != star && !IsWildcard(ps[i]) && IsWildcardStar(ps[star]) && AllStarsFit(ps, i)
    requires IsSequence(w, v) && |ps| - 1 <= |Elements(w, v)|
    requires Starts(w, p, a, c, pc, |scratch| + 1, r, caps, [v] + Layout(scratch, caps, base), s)
    requires var c1 := AddAll(c, ItemCode(|ps|, i, star));
             && r1 == GenSubpattern(ps[i], c1, pc) && r1.Emitted? && r == GenItems(ps, i + 1, star, r1.code, r1.pc)
             && Follows(c1, pc, r1.code, r1.pc) && Follows(r1.code, r1.pc, r.code, r.pc) && Extends(c1, p) && Extends(r1.code, p)
    ensures Simulates(w, p, a, MatchSubs(w, ps, i, Parts(Elements(w, v), star, |ps|), s), pc.stores, r.code, r.pc, [v] + scratch, caps, base)
    decreases ps, |ps| - i, 0
  {
    hide Extends, Reach, Distinct, ItemCode, Layout;
    var parts := Parts(Elements(w, v), star, |ps|);
    var block := ItemCode(|ps|, i, star);
    var c1 := AddAll(c, block);
    BlockAt(c, block, p);
    FetchItem(w, p, a, |c.instrs|, |ps|, i, star, v, scratch, caps, base, s);
    assert |c1.instrs| == |c.instrs| + |block|;
    SubpatternCorrect(w, p, a, ps[i], c1, pc, parts[i], [v] + scratch, caps, base, s);
    var m := Match(w, ps[i], parts[i], s);
    if m.Matched? {
      var caps1 := caps + Captured(m.bindings, r1.pc.stores[|pc.stores|..]);
      LayoutCons(v, scratch, caps1, base);
      ItemsCorrect(w, p, a, ps, i + 1, star, r1.code, r1.pc, v, scratch, caps1, base, m.s);
    }
    Sequel(w, p, a, m, MatchSubs(w, ps, i + 1, parts, m.s), pc, r1.code, r1.pc, r.code, r.pc, [v] + scratch, [v] + scratch, caps, base);
  }

  // ----- mappings -----

  lemma {:induction false} LookupCorrect(w: World, p: Code, a: Config, keys: seq<Expr>, c: Code, pc: PatternContext, v: Value,
                      scratch: seq<Value>, caps: seq<Value>, base: seq<Value>, s: State)
    requires IsMapping(w, s, v)
    requires Starts(w, p, a, c, pc, |scratch| + 1, GenMappingLookup(keys, c, pc), caps, [v] + Layout(scratch, caps, base), s)
    ensures var r := GenMappingLookup(keys, c, pc);
            match LookUp(w, keys, v, s)
            case LookedUp(ks, vs, s1) =>
              Reach(w, p, a, Run(|r.code.instrs|, [Tuple(vs)] + ([Tuple(ks), v] + Layout(scratch, caps, base)), s1))
            case LookupFailed(s1) => FailsTo(w, p, a, r.pc.failPop, base, s1)
            case LookupRaised(s1) => Reach(w, p, a, Raised(s1))
  {
    var n := |keys|;
    var st := Layout(scratch, caps, base);
    var (c2, pc2) := GenMappingGates(n, c, pc);
    var c3 := GenKeys(keys, 0, {}, c2).value;
    LookupLayout(keys, c, pc, p);
    SizeGate(w, p, a, n, c, pc, v, scratch, caps, base, s);
    if |Entries(w, s, v)| < n {
      FailsToLonger(w, p, a, pc2.failPop, GenMappingLookup(keys, c, pc).pc.failPop, base, s);
    } else {
      KeysAndLookup(w, p, a, keys, c2, pc2.(onTop := pc2.onTop + 2), v, scratch, caps, base, s);
    }
  }

  lemma {:induction false} KeysAndLookup(w: World, p: Code, a: Config, keys: seq<Expr>, c2: Code, pc3: PatternContext, v: Value,
                      scratch: seq<Value>, caps: seq<Value>, base: seq<Value>, s: State)
    requires IsMapping(w, s, v) && pc3.onTop == |scratch| + 3 && |caps| == |pc3.stores|
    requires LabelsInRange(c2) && GenKeys(keys, 0, {}, c2).Some? && Extends(GenKeys(keys, 0, {}, c2).value, p)
    requires var c3 := GenKeys(keys, 0, {}, c2).value;
             var block := [BuildTuple(|keys|), MatchKeysOp] + NOT_NONE_TEST;
             && At(p, |c3.instrs|, [BuildTuple(|keys|), MatchKeysOp]) && At(p, |c3.instrs| + 2, NOT_NONE_TEST)
             && Extends(JumpToFailPop(AddAll(c3, block), pc3, false).0, p)
             && AllBound(JumpToFailPop(AddAll(c3, block), pc3, false).1.failPop, p)
    requires |Entries(w, s, v)| >= |keys|
    requires Reach(w, p, a, Run(|c2.instrs|, [v] + Layout(scratch, caps, base), s))
    ensures var r := JumpToFailPop(AddAll(GenKeys(keys, 0, {}, c2).value, [BuildTuple(|keys|), MatchKeysOp] + NOT_NONE_TEST), pc3, false);
            match LookUp(w, keys, v, s)
            case LookedUp(ks, vs, s1) =>
              Reach(w, p, a, Run(|r.0.instrs|, [Tuple(vs)] + ([Tuple(ks), v] + Layout(scratch, caps, base)), s1))
            case LookupFailed(s1) => FailsTo(w, p, a, r.1.failPop, base, s1)
            case LookupRaised(s1) => Reach(w, p, a, Raised(s1))
  {
    var c3 := GenKeys(keys, 0, {}, c2).value;
    var st := [v] + Layout(scratch, caps, base);
    assert st == [] + st;
    KeysStep(w, p, a, keys, 0, {}, c2, [], st, s);
    var r := EvalKeys(w, keys, 0, s);
    EvalKeysKeepsDicts(w, keys, 0, s);
    if r.Keys? {
      assert Reverse(r.values) + [] == Reverse(r.values);
      KeysFound(w, p, a, c3, pc3, r.values, v, scratch, caps, base, r.s);
    }
  }

  lemma {:induction false} LookupLayout(keys: seq<Expr>, c: Code, pc: PatternContext, p: Code)
    requires Ready(c, pc) && GenMappingLookup(keys, c, pc).Emitted?
    requires Extends(GenMappingLookup(keys, c, pc).code, p) && AllBound(GenMappingLookup(keys, c, pc).pc.failPop, p)
    ensures var (c2, pc2) := GenMappingGates(|keys|, c, pc);
            var c3 := GenKeys(keys, 0, {}, c2).value;
            && LabelsInRange(c2) && Extends(c2, p) && AllBound(pc2.failPop, p) && Extends(c3, p)
            && pc2.failPop <= GenMappingLookup(keys, c, pc).pc.failPop
            && At(p, |c3.instrs|, [BuildTuple(|keys|), MatchKeysOp]) && At(p, |c3.instrs| + 2, NOT_NONE_TEST)
  {
    var n := |keys|;
    var (c2, pc2) := GenMappingGates(n, c, pc);
    var c3 := GenKeys(keys, 0, {}, c2).value;
    var block := [BuildTuple(n), MatchKeysOp] + NOT_NONE_TEST;
    MappingGatesRange(n, c, pc);
    GenKeysGrows(keys, 0, {}, c2);
    JumpToFailPopExtends(AddAll(c3, block), pc2.(onTop := pc2.onTop + 2), false, p);
    BlockAt(c3, block, p);
    AtSplit(p, |c3.instrs|, [BuildTuple(n), MatchKeysOp], NOT_NONE_TEST);
    ExtendsTransitive(c2, c3, p);
  }

  lemma {:induction false} MappingGatesRange(n: nat, c: Code, pc: PatternContext)
    requires Ready(c, pc)
    ensures LabelsInRange(GenMappingGates(n, c, pc).0)
  {
    if n > 0 {
      assert Advances(c, pc, c, pc);
      GateAdvances(c, pc, c, pc, [GetLen, LoadConst(Int(n)), CompareOp(CMP_GTE), ToBool], false);
    }
  }

  lemma {:induction false} SizeGate(w: World, p: Code, a: Config, n: nat, c: Code, pc: PatternContext, v: Value,
                 scratch: seq<Value>, caps: seq<Value>, base: seq<Value>, s: State)
    requires IsMapping(w, s, v)
    requires |scratch| + 1 == pc.onTop && |caps| == |pc.stores|
    requires var r := GenMappingGates(n, c, pc); Extends(r.0, p) && AllBound(r.1.failPop, p)
    requires Reach(w, p, a, Run(|c.instrs|, [v] + Layout(scratch, caps, base), s))
    ensures var (c1, pc1) := GenMappingGates(n, c, pc);
            if |Entries(w, s, v)| < n then FailsTo(w, p, a, pc1.failPop, base, s)
            else Reach(w, p, a, Run(|c1.instrs|, [v] + Layout(scratch, caps, base), s))
  {
    if n > 0 {
      var st := Layout(scratch, caps, base);
      var junk := [v] + scratch + caps;
      JunkOfOne(v, scratch, caps, base);
      var block := [GetLen, LoadConst(Int(n)), CompareOp(CMP_GTE), ToBool];
      JumpToFailPopExtends(AddAll(c, block), pc, false, p);
      BlockAt(c, block, p);
      var len := |Entries(w, s, v)|;
      LengthTest(w, p, a, |c.instrs|, len, n, false, v, st, s);
      FailBranch(w, p, a, AddAll(c, block), pc, Bool(len >= n), junk, base, s);
    }
  }

  lemma {:induction false} Pair(x: Value, y: Value, st: seq<Value>)
    ensures [x] + ([y] + st) == [x, y] + st
  {
  }

  // From the pushed key values to the fetched ones.
  lemma {:induction false} KeysFound(w: World, p: Code, a: Config, c: Code, pc: PatternContext, ks: seq<Value>, v: Value,
                  scratch: seq<Value>, caps: seq<Value>, base: seq<Value>, s: State)
    requires IsMapping(w, s, v) && pc.onTop == |scratch| + 3 && |caps| == |pc.stores|
    requires var block := [BuildTuple(|ks|), MatchKeysOp] + NOT_NONE_TEST;
             && At(p, |c.instrs|, [BuildTuple(|ks|), MatchKeysOp]) && At(p, |c.instrs| + 2, NOT_NONE_TEST)
             && Extends(JumpToFailPop(AddAll(c, block), pc, false).0, p)
             && AllBound(JumpToFailPop(AddAll(c, block), pc, false).1.failPop, p)
    requires Reach(w, p, a, Run(|c.instrs|, Reverse(ks) + ([v] + Layout(scratch, caps, base)), s))
    ensures var r := JumpToFailPop(AddAll(c, [BuildTuple(|ks|), MatchKeysOp] + NOT_NONE_TEST), pc, false);
            match LookupKeys(Entries(w, s, v), ks, 0)
            case Found(vs) => Reach(w, p, a, Run(|r.0.instrs|, [Tuple(vs)] + ([Tuple(ks), v] + Layout(scratch, caps, base)), s))
            case Missing => FailsTo(w, p, a, r.1.failPop, base, s)
            case Repeated => Reach(w, p, a, Raised(s))
  {
    var at := |c.instrs|;
    var st := Layout(scratch, caps, base);
    AtOne(p, at, [BuildTuple(|ks|), MatchKeysOp], 0);
    AtOne(p, at, [BuildTuple(|ks|), MatchKeysOp], 1);
    TupleStep(w, p, a, at, ks, [v] + st, s);
    Pair(Tuple(ks), v, st);
    MatchKeysStep(w, p, a, at + 1, ks, v, st, s);
    var found := LookupKeys(Entries(w, s, v), ks, 0);
    if !found.Repeated? {
      var x := if found.Found? then Tuple(found.values) else NoneValue;
      NotNoneStep(w, p, a, at + 2, x, [Tuple(ks), v] + st, s);
      var junk := [x, Tuple(ks), v] + scratch + caps;
      JunkOfThree(x, Tuple(ks), v, scratch, caps, base);
      FailBranch(w, p, a, AddAll(c, [BuildTuple(|ks|), MatchKeysOp] + NOT_NONE_TEST), pc, Bool(x != NoneValue), junk, base, s);
    }
  }

  // The keys tuple and the subject are dropped, or turned into the rest.
  lemma {:induction false} RestCorrect(w: World, p: Code, a: Config, n: nat, rest: Option<string>, c: Code, pc: PatternContext, ks: seq<Value>, v: Value,
                    scratch: seq<Value>, caps: seq<Value>, base: seq<Value>, s: State)
    requires IsMapping(w, s, v) && |ks| == n
    requires forall k :: 0 <= k < |ks| ==> ks[k] in Entries(w, s, v) && ks[k] !in ks[..k]
    requires Starts(w, p, a, c, pc, |scratch|, GenMappingRest(n, rest, c, pc), caps, [Tuple(ks), v] + Layout(scratch, caps, base), s)
    ensures var r := GenMappingRest(n, rest, c, pc);
            Simulates(w, p, a, RestResult(w, rest, v, ks, s), pc.stores, r.code, r.pc, scratch, caps, base)
  {
    hide Reach, At, IsMapping, Entries, RestCode, Extends;
    var st := Layout(scratch, caps, base);
    if rest.Some? {
      var c1 := AddAll(c, RestCode(n));
      StoreCaptureExtends(rest, c1, pc, p);
      BlockAt(c, RestCode(n), p);
      RestStep(w, p, a, |c.instrs|, ks, v, st, s);
      assert Ready(c1, pc);
      CaptureCorrect(w, p, a, rest, c1, pc, Dict(|s.dicts|), scratch, caps, base, CopyWithout(w, v, ks, s));
    } else {
      var block := [PopTop, PopTop];
      BlockAt(c, block, p);
      AtOne(p, |c.instrs|, block, 0);
      AtOne(p, |c.instrs|, block, 1);
      assert [Tuple(ks), v] + st == [Tuple(ks)] + ([v] + st);
      PopStep(w, p, a, |c.instrs|, Tuple(ks), [v] + st, s);
      PopStep(w, p, a, |c.instrs| + 1, v, st, s);
      SimulatesNothingBound(w, p, a, s, AddAll(c, block), pc, scratch, caps, base);
    }
  }

  lemma {:induction false} ValuesLayout(pat: Pattern, c: Code, pc: PatternContext, p: Code)
    requires pat.MatchMapping? && |pat.values| == |pat.keys| && pc.onTop >= 3 && Ready(c, pc)
    requires GenMappingValues(pat, c, pc).Emitted? && Extends(GenMappingValues(pat, c, pc).code, p)
    ensures var n := |pat.keys|;
            var c1, pc1 := AddAll(c, [UnpackSequence(n)]), pc.(onTop := pc.onTop + n - 1);
            var r1 := GenSubs(pat.values, 0, c1, pc1);
            var pc2, r := r1.pc.(onTop := r1.pc.onTop - 2), GenMappingValues(pat, c, pc);
            && r1.Emitted? && r1.pc.onTop >= 2 && r == GenMappingRest(n, pat.rest, r1.code, pc2)
            && Follows(c1, pc1, r1.code, pc2) && Follows(r1.code, pc2, r.code, r.pc) && Extends(r1.code, p)
            && At(p, |c.instrs|, [UnpackSequence(n)])
  {
    hide GenSubpattern, GenKeys, JumpToFailPop;
    var n := |pat.keys|;
    var c1, pc1 := AddAll(c, [UnpackSequence(n)]), pc.(onTop := pc.onTop + n - 1);
    var r1 := GenSubs(pat.values, 0, c1, pc1);
    var pc2 := r1.pc.(onTop := r1.pc.onTop - 2);
    var r := GenMappingRest(n, pat.rest, r1.code, pc2);
    assert Advances(c, pc, c, pc1);
    AddAdvances(c, pc, c, pc1, [UnpackSequence(n)]);
    assert Advances(c1, pc1, c1, pc1);
    GenSubsAdvances(pat.values, 0, c1, pc1, c1, pc1);
    Retop(c1, pc1, r1.code, r1.pc, pc2);
    assert Advances(r1.code, pc2, r1.code, pc2);
    GenMappingRestAdvances(n, pat.rest, r1.code, pc2, r1.code, pc2);
    AdvancesFollows(c1, pc1, r1.code, pc2);
    AdvancesFollows(r1.code, pc2, r.code, r.pc);
    ExtendsTransitive(r1.code, r.code, p);
    ExtendsTransitive(c1, r1.code, p);
    BlockAt(c, [UnpackSequence(n)], p);
  }

  lemma {:induction false} ValuesStep(w: World, p: Code, a: Config, pat: Pattern, c: Code, c1: Code, pc1: PatternContext, r1: Gen, pc2: PatternContext, r: Gen,
                                      ks: seq<Value>, vs: seq<Value>, v: Value, scratch: seq<Value>, caps: seq<Value>, base: seq<Value>, s: State)
    requires pat.MatchMapping? && |pat.values| == |pat.keys| == |ks| == |vs| && AllStarsFit(pat.values, 0)
    requires IsMapping(w, s, v) && LookupKeys(Entries(w, s, v), ks, 0) == Found(vs)
    requires c1 == AddAll(c, [UnpackSequence(|ks|)]) && |c.instrs| < |p.instrs| && p.instrs[|c.instrs|] == UnpackSequence(|ks|)
    requires pc1.onTop >= |ks| && r1 == GenSubs(pat.values, 0, c1, pc1) && r1.Emitted? && r1.pc.onTop >= 2
    requires pc2 == r1.pc.(onTop := r1.pc.onTop - 2) && r == GenMappingRest(|ks|, pat.rest, r1.code, pc2) && r.Emitted?
    requires pc1.onTop == |scratch| + 2 + |ks| && |caps| == |pc1.stores|
    requires Follows(c1, pc1, r1.code, pc2) && Follows(r1.code, pc2, r.code, r.pc)
    requires Extends(r1.code, p) && Extends(r.code, p) && AllBound(r.pc.failPop, p)
    requires Reach(w, p, a, Run(|c.instrs|, [Tuple(vs)] + ([Tuple(ks), v] + Layout(scratch, caps, base)), s))
    ensures var m := MatchSubs(w, pat.values, 0, vs, s);
            Simulates(w, p, a, AndThen(m, RestResult(w, pat.rest, v, ks, m.s)), pc1.stores, r.code, r.pc, scratch, caps, base)
    decreases pat.values, |pat.values| + 1
  {
    hide Reach, At, GenSubs;
    var n := |ks|;
    var scratch1 := [Tuple(ks), v] + scratch;
    var st := [Tuple(ks), v] + Layout(scratch, caps, base);
    Op(w, p, a, |c.instrs|, UnpackSequence(n), [Tuple(vs)] + st, s, vs + st, s);
    LayoutUnpacked(vs, Tuple(ks), v, scratch, caps, base);
    SubsCorrect(w, p, a, pat.values, 0, c1, pc1, vs, scratch1, caps, base, s);
    var m := MatchSubs(w, pat.values, 0, vs, s);
    if m.Matched? {
      var caps1 := caps + Captured(m.bindings, r1.pc.stores[|pc1.stores|..]);
      LayoutPrefix([Tuple(ks), v], scratch, caps1, base);
      MatchSubsKeepsDicts(w, pat.values, 0, vs, s);
      FoundKeys(Entries(w, s, v), ks, 0);
      assert Entries(w, m.s, v) == Entries(w, s, v) && IsMapping(w, m.s, v);
      RestCorrect(w, p, a, n, pat.rest, r1.code, pc2, ks, v, scratch, caps1, base, m.s);
    }
    Sequel(w, p, a, m, RestResult(w, pat.rest, v, ks, m.s), pc1, r1.code, pc2, r.code, r.pc, scratch1, scratch, caps, base);
  }

  lemma {:induction false} MappingCorrect(w: World, p: Code, a: Config, pat: Pattern, c: Code, pc: PatternContext, v: Value,
                                          scratch: seq<Value>, caps: seq<Value>, base: seq<Value>, s: State)
    requires pat.MatchMapping? && StarsFit(pat)
    requires Starts(w, p, a, c, pc, |scratch|, GenMapping(pat, c, pc), caps, [v] + Layout(scratch, caps, base), s)
    ensures var r := GenMapping(pat, c, pc);
            Simulates(w, p, a, MatchEntries(w, pat.keys, pat.values, pat.rest, v, s), pc.stores, r.code, r.pc, scratch, caps, base)
    decreases pat, 1
  {
    hide GenSubpattern, GenKeys, Reach, GenMappingLookup, GenMappingValues, JumpToFailPop, At;
    var pc0 := pc.(onTop := pc.onTop + 1);
    var (c1, pc1) := JumpToFailPop(AddAll(c, [MatchMappingOp]), pc0, false);
    if |pat.keys| == 0 && pat.rest.None? {
      AnyMappingCorrect(w, p, a, pat, c, pc, v, scratch, caps, base, s);
    } else {
      var r := GenMapping(pat, c, pc);
      var r1 := GenMappingLookup(pat.keys, c1, pc1);
      MappingLayout(pat, c, pc, p);
      MappingGate(w, p, a, c, pc0, v, scratch, caps, base, s);
      if IsMapping(w, s, v) {
        MappingStep(w, p, a, pat, c1, pc1, r1, r, v, scratch, caps, base, s);
      } else {
        FailsToLonger(w, p, a, pc1.failPop, r.pc.failPop, base, s);
      }
    }
  }

  lemma {:induction false} MappingLayout(pat: Pattern, c: Code, pc: PatternContext, p: Code)
    requires pat.MatchMapping? && Ready(c, pc) && !(|pat.keys| == 0 && pat.rest.None?)
    requires GenMapping(pat, c, pc).Emitted? && Extends(GenMapping(pat, c, pc).code, p) && AllBound(GenMapping(pat, c, pc).pc.failPop, p)
    ensures var (c1, pc1) := JumpToFailPop(AddAll(c, [MatchMappingOp]), pc.(onTop := pc.onTop + 1), false);
            var r1 := GenMappingLookup(pat.keys, c1, pc1);
            var r := GenMapping(pat, c, pc);
            && Ready(c1, pc1) && Extends(c1, p) && AllBound(pc1.failPop, p) && pc1.failPop <= r.pc.failPop
            && Extends(r1.code, p) && Advances(c1, pc1, r1.code, r1.pc) && Advances(r1.code, r1.pc, r.code, r.pc)
  {
    hide JumpToFailPop, GenSubpattern, GenKeys;
    var r := GenMapping(pat, c, pc);
    var pc0 := pc.(onTop := pc.onTop + 1);
    var (c1, pc1) := JumpToFailPop(AddAll(c, [MatchMappingOp]), pc0, false);
    assert Advances(c, pc, c, pc0);
    GateAdvances(c, pc, c, pc0, [MatchMappingOp], false);
    assert Advances(c1, pc1, c1, pc1);
    var r1 := GenMappingLookup(pat.keys, c1, pc1);
    GenMappingLookupAdvances(pat.keys, c1, pc1, c1, pc1);
    assert Advances(r1.code, r1.pc, r1.code, r1.pc);
    GenMappingValuesAdvance(pat, r1.code, r1.pc, r1.code, r1.pc);
    ExtendsTransitive(r1.code, r.code, p);
    ExtendsTransitive(c1, r1.code, p);
  }

  // The pattern {} matches every mapping.
  lemma {:induction false} AnyMappingCorrect(w: World, p: Code, a: Config, pat: Pattern, c: Code, pc: PatternContext, v: Value,
                          scratch: seq<Value>, caps: seq<Value>, base: seq<Value>, s: State)
    requires pat.MatchMapping? && |pat.keys| == 0 && pat.rest.None?
    requires Starts(w, p, a, c, pc, |scratch|, GenMapping(pat, c, pc), caps, [v] + Layout(scratch, caps, base), s)
    ensures var r := GenMapping(pat, c, pc);
            Simulates(w, p, a, MatchEntries(w, pat.keys, pat.values, pat.rest, v, s), pc.stores, r.code, r.pc, scratch, caps, base)
  {
    hide Reach, At, IsMapping, GenSubpattern, GenKeys, GenMappingLookup, GenMappingValues;
    var r := GenMapping(pat, c, pc);
    var pc0 := pc.(onTop := pc.onTop + 1);
    var (c1, pc1) := JumpToFailPop(AddAll(c, [MatchMappingOp]), pc0, false);
    BlockAt(c1, [PopTop], p);
    AtOne(p, |c1.instrs|, [PopTop], 0);
    MappingGate(w, p, a, c, pc0, v, scratch, caps, base, s);
    if IsMapping(w, s, v) {
      PopStep(w, p, a, |c1.instrs|, v, Layout(scratch, caps, base), s);
      var none: map<string, Value> := map[];
      assert none + none == none;
      assert MatchEntries(w, pat.keys, pat.values, pat.rest, v, s) == Matched(none, s);
      SimulatesNothingBound(w, p, a, s, r.code, r.pc, scratch, caps, base);
    }
  }

  lemma {:induction false} MappingGate(w: World, p: Code, a: Config, c: Code, pc: PatternContext, v: Value,
                    scratch: seq<Value>, caps: seq<Value>, base: seq<Value>, s: State)
    requires pc.onTop == |scratch| + 1 && |caps| == |pc.stores|
    requires var r := JumpToFailPop(AddAll(c, [MatchMappingOp]), pc, false); Extends(r.0, p) && AllBound(r.1.failPop, p)
    requires Reach(w, p, a, Run(|c.instrs|, [v] + Layout(scratch, caps, base), s))
    ensures var r := JumpToFailPop(AddAll(c, [MatchMappingOp]), pc, false);
            if IsMapping(w, s, v) then Reach(w, p, a, Run(|r.0.instrs|, [v] + Layout(scratch, caps, base), s))
            else FailsTo(w, p, a, r.1.failPop, base, s)
  {
    var st := Layout(scratch, caps, base);
    var junk := [v] + scratch + caps;
    JunkOfOne(v, scratch, caps, base);
    JumpToFailPopExtends(AddAll(c, [MatchMappingOp]), pc, false, p);
    BlockAt(c, [MatchMappingOp], p);
    AtOne(p, |c.instrs|, [MatchMappingOp], 0);
    Op(w, p, a, |c.instrs|, MatchMappingOp, [v] + st, s, [Bool(IsMapping(w, s, v))] + ([v] + st), s);
    FailBranch(w, p, a, AddAll(c, [MatchMappingOp]), pc, Bool(IsMapping(w, s, v)), junk, base, s);
  }

  lemma {:induction false} MappingStep(w: World, p: Code, a: Config, pat: Pattern, c1: Code, pc1: PatternContext, r1: Gen, r: Gen, v: Value,
                                       scratch: seq<Value>, caps: seq<Value>, base: seq<Value>, s: State)
    requires pat.MatchMapping? && |pat.values| == |pat.keys| && AllStarsFit(pat.values, 0) && IsMapping(w, s, v)
    requires r1 == GenMappingLookup(pat.keys, c1, pc1) && r1.Emitted? && r1.pc.onTop >= 3
    requires r == GenMappingValues(pat, r1.code, r1.pc)
    requires Starts(w, p, a, c1, pc1, |scratch| + 1, r, caps, [v] + Layout(scratch, caps, base), s)
    requires Extends(r1.code, p) && Advances(c1, pc1, r1.code, r1.pc) && Advances(r1.code, r1.pc, r.code, r.pc)
    ensures Simulates(w, p, a, MatchEntries(w, pat.keys, pat.values, pat.rest, v, s), pc1.stores, r.code, r.pc, scratch, caps, base)
    decreases pat, 1, 0
  {
    hide Extends, At, Reach, GenMappingRest, GenSubs, AllStarsFit, Distinct, StarsFit, Match, GenMappingLookup;
    assert AllBound(r1.pc.failPop, p);
    LookupCorrect(w, p, a, pat.keys, c1, pc1, v, scratch, caps, base, s);
    var l := LookUp(w, pat.keys, v, s);
    LookUpKeepsDicts(w, pat.keys, v, s);
    if l.LookedUp? {
      assert IsMapping(w, l.s, v);
      var n := |pat.keys|;
      var c2, pc2 := AddAll(r1.code, [UnpackSequence(n)]), r1.pc.(onTop := r1.pc.onTop + n - 1);
      var r2 := GenSubs(pat.values, 0, c2, pc2);
      ValuesLayout(pat, r1.code, r1.pc, p);
      AtOne(p, |r1.code.instrs|, [UnpackSequence(n)], 0);
      ValuesStep(w, p, a, pat, r1.code, c2, pc2, r2, r2.pc.(onTop := r2.pc.onTop - 2), r, l.keys, l.values, v, scratch, caps, base, l.s);
    } else if l.LookupFailed? {
      FailsToLonger(w, p, a, r1.pc.failPop, r.pc.failPop, base, l.s);
    }
  }

  // ----- classes -----

  // The class check raised, failed, or left the attribute tuple on top.
  ghost predicate ClassTested(w: World, p: Code, a: Config, x: EvalResult, failPop: seq<Label>, pc: nat, st: seq<Value>, base: seq<Value>) {
    match x
    case Exc(s) => Reach(w, p, a, Raised(s))
    case Val(r, s) => if r == NoneValue then FailsTo(w, p, a, failPop, base, s) else Reach(w, p, a, Run(pc, [r] + st, s))
  }

  // From the subject to the tuple of its attributes.
  lemma {:induction false} ClassHead(w: World, p: Code, a: Config, pat: Pattern, c: Code, pc: PatternContext, v: Value,
                  scratch: seq<Value>, caps: seq<Value>, base: seq<Value>, s: State)
    requires pat.MatchClass? && GenExpr(pat.cls, c).Some? && LabelsInRange(c)
    requires |scratch| + 1 == pc.onTop && |caps| == |pc.stores|
    requires var c2 := AddAll(GenExpr(pat.cls, c).value, ClassBlock(pat));
             Extends(JumpToFailPop(c2, pc, false).0, p) && AllBound(JumpToFailPop(c2, pc, false).1.failPop, p)
    requires Reach(w, p, a, Run(|c.instrs|, [v] + Layout(scratch, caps, base), s))
    ensures var r := JumpToFailPop(AddAll(GenExpr(pat.cls, c).value, ClassBlock(pat)), pc, false);
            var e := Eval(w, pat.cls, s);
            if e.Exc? then Reach(w, p, a, Raised(e.s))
            else ClassTested(w, p, a, ClassResult(w, v, e.v, Names(pat.kwdAttrs), |pat.positional|, e.s),
                   r.1.failPop, |r.0.instrs|, Layout(scratch, caps, base), base)
  {
    var c1 := GenExpr(pat.cls, c).value;
    var block := ClassBlock(pat);
    JumpToFailPopExtends(AddAll(c1, block), pc, false, p);
    BlockAt(c1, block, p);
    ExprCorrect(w, p, a, pat.cls, c, [v] + Layout(scratch, caps, base), s);
    var e := Eval(w, pat.cls, s);
    if e.Val? {
      ClassTest(w, p, a, pat, c1, pc, e.v, v, scratch, caps, base, e.s);
    }
  }

  lemma {:induction false} ClassTest(w: World, p: Code, a: Config, pat: Pattern, c1: Code, pc: PatternContext, cls: Value, v: Value,
                  scratch: seq<Value>, caps: seq<Value>, base: seq<Value>, s: State)
    requires pat.MatchClass? && |scratch| + 1 == pc.onTop && |caps| == |pc.stores|
    requires At(p, |c1.instrs|, ClassBlock(pat))
    requires var r := JumpToFailPop(AddAll(c1, ClassBlock(pat)), pc, false); Extends(r.0, p) && AllBound(r.1.failPop, p)
    requires Reach(w, p, a, Run(|c1.instrs|, [cls] + ([v] + Layout(scratch, caps, base)), s))
    ensures var r := JumpToFailPop(AddAll(c1, ClassBlock(pat)), pc, false);
            ClassTested(w, p, a, ClassResult(w, v, cls, Names(pat.kwdAttrs), |pat.positional|, s),
              r.1.failPop, |r.0.instrs|, Layout(scratch, caps, base), base)
  {
    var names, nattrs, nargs := Names(pat.kwdAttrs), |pat.kwdAttrs|, |pat.positional|;
    var at := |c1.instrs|;
    NamesStep(w, p, a, pat, at, cls, v, Layout(scratch, caps, base), s);
    var x := ClassResult(w, v, cls, names, nargs, s);
    if x.Val? {
      NotNoneStep(w, p, a, at + nattrs + 2, x.v, Layout(scratch, caps, base), x.s);
      var junk := [x.v] + scratch + caps;
      JunkOfOne(x.v, scratch, caps, base);
      FailBranch(w, p, a, AddAll(c1, ClassBlock(pat)), pc, Bool(x.v != NoneValue), junk, base, x.s);
    }
  }

  // The names are pushed and packed, and MATCH_CLASS answers.
  lemma {:induction false} NamesStep(w: World, p: Code, a: Config, pat: Pattern, at: nat, cls: Value, v: Value, st: seq<Value>, s: State)
    requires pat.MatchClass? && At(p, at, ClassBlock(pat))
    requires Reach(w, p, a, Run(at, [cls] + ([v] + st), s))
    ensures At(p, at + |pat.kwdAttrs| + 2, NOT_NONE_TEST)
    ensures Finishes(w, p, a, ClassResult(w, v, cls, Names(pat.kwdAttrs), |pat.positional|, s), at + |pat.kwdAttrs| + 2, st)
  {
    var names, nattrs, nargs := Names(pat.kwdAttrs), |pat.kwdAttrs|, |pat.positional|;
    var mid := [BuildTuple(nattrs), MatchClassOp(nargs)];
    assert ClassBlock(pat) == ConstCode(names) + (mid + NOT_NONE_TEST);
    AtSplit(p, at, ConstCode(names), mid + NOT_NONE_TEST);
    AtSplit(p, at + nattrs, mid, NOT_NONE_TEST);
    AtOne(p, at + nattrs, mid, 0);
    AtOne(p, at + nattrs, mid, 1);
    PushTuple(w, p, a, at, names, [cls] + ([v] + st), s);
    MatchClassStep(w, p, a, at + nattrs + 1, nargs, names, cls, v, st, s);
  }

  lemma {:induction false} PushTuple(w: World, p: Code, a: Config, at: nat, vs: seq<Value>, st: seq<Value>, s: State)
    requires At(p, at, ConstCode(vs)) && at + |vs| < |p.instrs| && p.instrs[at + |vs|] == BuildTuple(|vs|)
    requires Reach(w, p, a, Run(at, st, s))
    ensures Reach(w, p, a, Run(at + |vs| + 1, [Tuple(vs)] + st, s))
  {
    assert Reverse(vs[..0]) + st == st;
    ConstsStep(w, p, a, at, vs, 0, st, s);
    TupleStep(w, p, a, at + |vs|, vs, st, s);
  }

  lemma {:induction false} ClassCorrect(w: World, p: Code, a: Config, pat: Pattern, c: Code, pc: PatternContext, v: Value,
                                        scratch: seq<Value>, caps: seq<Value>, base: seq<Value>, s: State)
    requires pat.MatchClass? && StarsFit(pat)
    requires Starts(w, p, a, c, pc, |scratch|, GenClass(pat, c, pc), caps, [v] + Layout(scratch, caps, base), s)
    ensures var r := GenClass(pat, c, pc);
            Simulates(w, p, a, Match(w, pat, v, s), pc.stores, r.code, r.pc, scratch, caps, base)
    decreases pat, 1
  {
    var r := GenClass(pat, c, pc);
    var pc1 := pc.(onTop := pc.onTop + 1);
    assert Advances(c, pc, c, pc);
    ExprAdvances(pat.cls, c, pc, c, pc);
    var c1 := GenExpr(pat.cls, c).value;
    Retop(c, pc, c1, pc, pc1);
    GateAdvances(c, pc, c1, pc1, ClassBlock(pat), false);
    var (c2, pc2) := JumpToFailPop(AddAll(c1, ClassBlock(pat)), pc1, false);
    assert r == GenClassArgs(pat, c2, pc2);
    assert Advances(c2, pc2, c2, pc2);
    GenClassArgsAdvances(pat, c2, pc2, c2, pc2);
    ExtendsTransitive(c2, r.code, p);
    assert AllBound(pc2.failPop, p);
    ClassHead(w, p, a, pat, c, pc1, v, scratch, caps, base, s);
    var e := Eval(w, pat.cls, s);
    if e.Val? {
      var x := ClassResult(w, v, e.v, Names(pat.kwdAttrs), |pat.positional|, e.s);
      if x.Val? {
        if x.v == NoneValue {
          FailsToLonger(w, p, a, pc2.failPop, r.pc.failPop, base, x.s);
        } else {
          ClassArgsCorrect(w, p, a, pat, c2, pc2, x.v.items, scratch, caps, base, x.s);
        }
      }
    }
  }

  lemma {:induction false} ClassArgsCorrect(w: World, p: Code, a: Config, pat: Pattern, c: Code, pc: PatternContext, items: seq<Value>,
                                            scratch: seq<Value>, caps: seq<Value>, base: seq<Value>, s: State)
    requires pat.MatchClass? && |pat.kwdAttrs| == |pat.kwdPatterns| && StarsFit(pat) && pc.onTop >= 1
    requires |items| == |pat.positional| + |pat.kwdAttrs|
    requires Starts(w, p, a, c, pc, |scratch| + 1, GenClassArgs(pat, c, pc), caps, [Tuple(items)] + Layout(scratch, caps, base), s)
    ensures var r := GenClassArgs(pat, c, pc);
            var m := MatchSubs(w, pat.positional, 0, items[..|pat.positional|], s);
            Simulates(w, p, a, AndThen(m, MatchSubs(w, pat.kwdPatterns, 0, items[|pat.positional|..], m.s)), pc.stores, r.code, r.pc, scratch, caps, base)
    decreases pat, 0
  {
    hide At, Reach, GenArgs, StarsFit, Layout;
    var r := GenClassArgs(pat, c, pc);
    var nargs, n := |pat.positional|, |items|;
    var pc1 := pc.(onTop := pc.onTop + n - 1);
    var c1 := AddAll(c, [UnpackSequence(n)]);
    var r1 := GenArgs(pat.positional, 0, c1, pc1);
    assert Advances(c, pc, c, pc1);
    AddAdvances(c, pc, c, pc1, [UnpackSequence(n)]);
    assert Advances(c1, pc1, c1, pc1);
    GenArgsAdvances(pat.positional, 0, c1, pc1, c1, pc1);
    assert Advances(r1.code, r1.pc, r1.code, r1.pc);
    GenArgsAdvances(pat.kwdPatterns, 0, r1.code, r1.pc, r1.code, r1.pc);
    ExtendsTransitive(r1.code, r.code, p);
    ExtendsTransitive(c1, r1.code, p);
    BlockAt(c, [UnpackSequence(n)], p);
    AtOne(p, |c.instrs|, [UnpackSequence(n)], 0);
    AdvancesFollows(c1, pc1, r1.code, r1.pc);
    AdvancesFollows(r1.code, r1.pc, r.code, r.pc);
    var st := Layout(scratch, caps, base);
    Op(w, p, a, |c.instrs|, UnpackSequence(n), [Tuple(items)] + st, s, items + st, s);
    ClassArgsStep(w, p, a, pat, c1, pc1, r1, r, items, scratch, caps, base, s);
  }

  lemma {:induction false} ClassArgsStep(w: World, p: Code, a: Config, pat: Pattern, c1: Code, pc1: PatternContext, r1: Gen, r: Gen, items: seq<Value>,
                                         scratch: seq<Value>, caps: seq<Value>, base: seq<Value>, s: State)
    requires pat.MatchClass? && |pat.kwdAttrs| == |pat.kwdPatterns| && StarsFit(pat)
    requires |items| == |pat.positional| + |pat.kwdAttrs| && pc1.onTop == |scratch| + |items| && |caps| == |pc1.stores|
    requires r1 == GenArgs(pat.positional, 0, c1, pc1) && r1.Emitted?
    requires r1.pc.onTop == |scratch| + |pat.kwdAttrs| && r == GenArgs(pat.kwdPatterns, 0, r1.code, r1.pc) && r.Emitted?
    requires Follows(c1, pc1, r1.code, r1.pc) && Follows(r1.code, r1.pc, r.code, r.pc)
    requires Extends(r1.code, p) && Extends(r.code, p) && AllBound(r.pc.failPop, p)
    requires Reach(w, p, a, Run(|c1.instrs|, items + Layout(scratch, caps, base), s))
    ensures var m := MatchSubs(w, pat.positional, 0, items[..|pat.positional|], s);
            Simulates(w, p, a, AndThen(m, MatchSubs(w, pat.kwdPatterns, 0, items[|pat.positional|..], m.s)), pc1.stores, r.code, r.pc, scratch, caps, base)
    decreases pat, 0, 0
  {
    var pos, kwd := items[..|pat.positional|], items[|pat.positional|..];
    var scratch1 := kwd + scratch;
    LayoutHalves(items, |pat.positional|, scratch, caps, base);
    ArgsCorrect(w, p, a, pat.positional, 0, c1, pc1, pos, scratch1, caps, base, s);
    var m := MatchSubs(w, pat.positional, 0, pos, s);
    if m.Matched? {
      var caps1 := caps + Captured(m.bindings, r1.pc.stores[|pc1.stores|..]);
      LayoutPrefix(kwd, scratch, caps1, base);
      assert kwd[0..] == kwd;
      ArgsCorrect(w, p, a, pat.kwdPatterns, 0, r1.code, r1.pc, kwd, scratch, caps1, base, m.s);
    }
    Sequel(w, p, a, m, MatchSubs(w, pat.kwdPatterns, 0, kwd, m.s), pc1, r1.code, r1.pc, r.code, r.pc, scratch1, scratch, caps, base);
  }

  // ----- alternatives -----

  ghost predicate SameNames(s1: seq<string>, s2: seq<string>) {
    forall x :: x in s1 <==> x in s2
  }

  lemma {:induction false} DisplaceKeeps(stores: seq<string>, k: nat, j: nat)
    requires k <= j < |stores| && Distinct(stores)
    ensures Distinct(Displace(stores, k, j)) && SameNames(stores, Displace(stores, k, j))
    ensures forall i :: j < i < |stores| ==> Displace(stores, k, j)[i] == stores[i]
    ensures 0 < k ==> Displace(stores, k, j)[j] == stores[k - 1]
  {
    hide Displace;
    var d := Displace(stores, k, j);
    DisplacedFrom(stores, k, j);
    forall x | x in stores ensures x in d {
      var i :| 0 <= i < |stores| && stores[i] == x;
      assert d[if i < k then i + (j - k + 1) else if i <= j then i - k else i] == x;
    }
  }

  lemma {:induction false} DisplacedFrom(stores: seq<string>, k: nat, j: nat)
    requires k <= j < |stores|
    ensures forall i :: 0 <= i < |stores| ==>
              Displace(stores, k, j)[i] == stores[if i <= j - k then i + k else if i <= j then i - (j - k + 1) else i]
  {
  }

  // The reordering never asks for a name above its slot, so it succeeds
  // exactly when the two alternatives bind the same names.
  lemma {:induction false} ReorderSettles(stores: seq<string>, control: seq<string>, j: nat, c: Code)
    requires j <= |control| == |stores| && Distinct(stores) && Distinct(control)
    requires forall k :: j <= k < |control| ==> stores[k] == control[k]
    ensures Reorder(stores, control, j, c).Some? <==> Covers(stores, control, j)
    decreases j
  {
    if j > 0 {
      var icontrol := j - 1;
      var istores := IndexOf(stores, control[icontrol], 0);
      CoversLast(stores, control, j);
      IndexOfFinds(stores, control[icontrol]);
      if istores >= 0 {
        assert istores <= icontrol;
        if istores == icontrol {
          ReorderSettles(stores, control, icontrol, c);
        } else {
          var stores', c' := Displace(stores, istores + 1, icontrol), AddAll(c, RepeatRotate(icontrol + 1, istores + 1));
          DisplaceKeeps(stores, istores + 1, icontrol);
          ReorderSettles(stores', control, icontrol, c');
          CoversSame(stores, stores', control, icontrol);
          ReorderMoves(stores, control, j, istores + 1, c);
        }
      }
    }
  }

  ghost predicate Covers(stores: seq<string>, control: seq<string>, j: nat)
    requires j <= |control|
  {
    forall k :: 0 <= k < j ==> control[k] in stores
  }

  lemma {:induction false} CoversLast(stores: seq<string>, control: seq<string>, j: nat)
    requires 0 < j <= |control|
    ensures Covers(stores, control, j) == (control[j - 1] in stores && Covers(stores, control, j - 1))
  {
  }

  lemma {:induction false} CoversSame(s1: seq<string>, s2: seq<string>, control: seq<string>, j: nat)
    requires SameNames(s1, s2) && j <= |control|
    ensures Covers(s1, control, j) == Covers(s2, control, j)
  {
    forall k | 0 <= k < j ensures control[k] in s1 <==> control[k] in s2 {
    }
  }

  lemma {:induction false} IndexOfFinds(s: seq<string>, x: string)
    ensures IndexOf(s, x, 0) >= 0 <==> x in s
  {
    if IndexOf(s, x, 0) < 0 { IndexOfMisses(s, x, 0); }
  }

  lemma {:induction false} IndexOfMisses(s: seq<string>, x: string, i: nat)
    requires i <= |s| && IndexOf(s, x, i) < 0
    ensures forall k :: i <= k < |s| ==> s[k] != x
    decreases |s| - i
  {
    if i < |s| { IndexOfMisses(s, x, i + 1); }
  }

  // The rotations do to the captured values what the slice surgery does to
  // the names, and both end in the order of control.
  lemma {:induction false} ReorderCorrect(w: World, p: Code, a: Config, stores: seq<string>, control: seq<string>, j: nat, c: Code,
                                          b: map<string, Value>, st: seq<Value>, s: State)
    requires j <= |control| == |stores| && Distinct(stores) && Distinct(control)
    requires forall k :: j <= k < |control| ==> stores[k] == control[k]
    requires Reorder(stores, control, j, c).Some? && Extends(Reorder(stores, control, j, c).value, p)
    requires Reach(w, p, a, Run(|c.instrs|, Captured(b, stores) + st, s))
    ensures SameNames(stores, control)
    ensures Reach(w, p, a, Run(|Reorder(stores, control, j, c).value.instrs|, Captured(b, control) + st, s))
    decreases j
  {
    hide Displace, RepeatRotate, IndexOf, Extends;
    if j == 0 {
      assert stores == control;
    } else {
      var icontrol := j - 1;
      var istores := IndexOf(stores, control[icontrol], 0);
      if istores == icontrol {
        ReorderCorrect(w, p, a, stores, control, icontrol, c, b, st, s);
      } else {
        var k := istores + 1;
        var stores', c' := Displace(stores, k, icontrol), AddAll(c, RepeatRotate(j, k));
        ReorderMoves(stores, control, j, k, c);
        DisplaceKeeps(stores, k, icontrol);
        ReorderStep(w, p, a, stores, control, j, k, c, b, st, s);
        ReorderCorrect(w, p, a, stores', control, icontrol, c', b, st, s);
      }
    }
  }

  lemma {:induction false} ReorderStep(w: World, p: Code, a: Config, stores: seq<string>, control: seq<string>, j: nat, k: nat, c: Code,
                    b: map<string, Value>, st: seq<Value>, s: State)
    requires 0 < k < j <= |control| == |stores|
    requires Reorder(Displace(stores, k, j - 1), control, j - 1, AddAll(c, RepeatRotate(j, k))).Some?
    requires Extends(Reorder(Displace(stores, k, j - 1), control, j - 1, AddAll(c, RepeatRotate(j, k))).value, p)
    requires Reach(w, p, a, Run(|c.instrs|, Captured(b, stores) + st, s))
    ensures Reach(w, p, a, Run(|AddAll(c, RepeatRotate(j, k)).instrs|, Captured(b, Displace(stores, k, j - 1)) + st, s))
  {
    hide Displace, RepeatRotate, IndexOf, Reorder;
    var c', stores' := AddAll(c, RepeatRotate(j, k)), Displace(stores, k, j - 1);
    ReorderGrows(stores', control, j - 1, c');
    ExtendsTransitive(c', Reorder(stores', control, j - 1, c').value, p);
    BlockAt(c, RepeatRotate(j, k), p);
    DisplaceStep(w, p, a, stores, k, j - 1, |c.instrs|, b, st, s);
    assert |c'.instrs| == |c.instrs| + |RepeatRotate(j, k)|;
  }

  lemma {:induction false} DisplaceStep(w: World, p: Code, a: Config, stores: seq<string>, k: nat, j: nat, pc: nat, b: map<string, Value>, st: seq<Value>, s: State)
    requires k <= j < |stores| && At(p, pc, RepeatRotate(j + 1, k))
    requires Reach(w, p, a, Run(pc, Captured(b, stores) + st, s))
    ensures Reach(w, p, a, Run(pc + |RepeatRotate(j + 1, k)|, Captured(b, Displace(stores, k, j)) + st, s))
  {
    hide Reach, At, RepeatRotate, Captured;
    var caps := Captured(b, stores);
    var top, rest := caps[..j + 1], caps[j + 1 ..];
    assert caps + st == top + (rest + st);
    RepeatRotateStep(w, p, a, pc, top, k, rest + st, s);
    assert top[k..] + top[..k] + (rest + st) == Displace(caps, k, j) + st;
    DisplaceCaptured(b, stores, k, j);
  }

  lemma {:induction false} DisplaceCaptured(b: map<string, Value>, stores: seq<string>, k: nat, j: nat)
    requires k <= j < |stores|
    ensures Displace(Captured(b, stores), k, j) == Captured(b, Displace(stores, k, j))
  {
  }

  // Where the alternatives i.. leave the machine.
  ghost predicate Alternates(w: World, p: Code, a: Config, r: MatchResult, control: seq<string>, end: nat, fall: nat, st: seq<Value>) {
    match r
    case Matched(b, s) => b.Keys == (set x | x in control) && Reach(w, p, a, Run(end, Captured(b, control) + st, s))
    case NoMatch(s) => Reach(w, p, a, Run(fall, st, s))
    case MatchRaised(s) => Reach(w, p, a, Raised(s))
  }

  lemma {:induction false} NoneLeft(w: World, p: Code, a: Config, v: Value, s: State, rest: seq<Value>, control: seq<string>, end: nat, fall: nat)
    requires Reach(w, p, a, Run(fall, [v] + rest, s))
    ensures Alternates(w, p, a, NoMatch(s), control, end, fall, [v] + rest)
  {
  }

  // Where the code goes after a failure matters only to a failure.
  lemma {:induction false} LeavesAlike(w: World, p: Code, a: Config, r: MatchResult, control: seq<string>, end: nat, fall: nat, fall': nat, st: seq<Value>)
    requires Alternates(w, p, a, r, control, end, fall, st)
    ensures if r.NoMatch? then Reach(w, p, a, Run(fall, st, r.s)) else Alternates(w, p, a, r, control, end, fall', st)
  {
  }

  lemma {:induction false} AlternativesCorrect(w: World, p: Code, a: Config, alts: seq<Pattern>, i: nat, control: seq<string>, end: Label, allow: bool,
                                               c: Code, v: Value, rest: seq<Value>, s: State)
    requires i <= |alts| && AllStarsFit(alts, i) && LabelsInRange(c) && Distinct(control)
    requires GenAlternatives(alts, i, control, end, allow, c).Alts?
    requires Extends(GenAlternatives(alts, i, control, end, allow, c).code, p) && end in p.labels
    requires Reach(w, p, a, Run(|c.instrs|, [v] + rest, s))
    ensures var r := GenAlternatives(alts, i, control, end, allow, c);
            && Distinct(r.control) && (0 < i ==> r.control == control)
            && Alternates(w, p, a, MatchFirst(w, alts, i, v, s), r.control, p.labels[end], |r.code.instrs|, [v] + rest)
    decreases alts, |alts| - i
  {
    hide At, Reach, LabelsInRange, StarsFit, Extends, Match, Alternates, GenAlternative;
    if i == |alts| {
      NoneLeft(w, p, a, v, s, rest, control, p.labels[end], |c.instrs|);
    } else {
      var r, last := GenAlternatives(alts, i, control, end, allow, c), i == |alts| - 1 && allow;
      var g, m := GenAlternative(alts[i], i == 0, last, control, end, c), Match(w, alts[i], v, s);
      AlternativesLayout(alts, i, control, end, allow, c, p);
      AlternativeCorrect(w, p, a, alts[i], i == 0, last, control, end, c, v, rest, s);
      LeavesAlike(w, p, a, m, g.control, p.labels[end], |g.code.instrs|, |r.code.instrs|, [v] + rest);
      if m.NoMatch? {
        AlternativesCorrect(w, p, a, alts, i + 1, g.control, end, allow, g.code, v, rest, m.s);
      }
    }
  }

  lemma {:induction false} AlternativesLayout(alts: seq<Pattern>, i: nat, control: seq<string>, end: Label, allow: bool, c: Code, p: Code)
    requires i < |alts| && LabelsInRange(c)
    requires GenAlternatives(alts, i, control, end, allow, c).Alts? && Extends(GenAlternatives(alts, i, control, end, allow, c).code, p)
    ensures var r, g := GenAlternatives(alts, i, control, end, allow, c), GenAlternative(alts[i], i == 0, i == |alts| - 1 && allow, control, end, c);
            && g.Alts? && LabelsInRange(g.code) && Extends(g.code, p)
            && r == GenAlternatives(alts, i + 1, g.control, end, allow, g.code) && r.control == g.control && (0 < i ==> r.control == control)
  {
    hide LabelsInRange, Extends, GenAlternative;
    var g := GenAlternative(alts[i], i == 0, i == |alts| - 1 && allow, control, end, c);
    GenAlternativeGrows(alts[i], i == 0, i == |alts| - 1 && allow, control, end, c);
    GenAlternativesGrows(alts, i + 1, g.control, end, allow, g.code);
    ExtendsTransitive(g.code, GenAlternatives(alts, i, control, end, allow, c).code, p);
    ControlStays(alts, i + 1, g.control, end, allow, g.code);
    if i > 0 { ControlStays(alts, i, control, end, allow, c); }
  }

  lemma {:induction false} ControlStays(alts: seq<Pattern>, i: nat, control: seq<string>, end: Label, allow: bool, c: Code)
    requires 0 < i <= |alts| && GenAlternatives(alts, i, control, end, allow, c).Alts?
    ensures GenAlternatives(alts, i, control, end, allow, c).control == control
    decreases |alts| - i
  {
    if i < |alts| {
      var g := GenAlternative(alts[i], false, i == |alts| - 1 && allow, control, end, c);
      ControlStays(alts, i + 1, control, end, allow, g.code);
    }
  }

  lemma {:induction false} AlternativeCorrect(w: World, p: Code, a: Config, alt: Pattern, first: bool, allow: bool, control: seq<string>, end: Label,
                                              c: Code, v: Value, rest: seq<Value>, s: State)
    requires StarsFit(alt) && LabelsInRange(c) && end in p.labels && Distinct(control)
    requires GenAlternative(alt, first, allow, control, end, c).Alts?
    requires Extends(GenAlternative(alt, first, allow, control, end, c).code, p)
    requires Reach(w, p, a, Run(|c.instrs|, [v] + rest, s))
    ensures var r := GenAlternative(alt, first, allow, control, end, c);
            Distinct(r.control) && Alternates(w, p, a, Match(w, alt, v, s), r.control, p.labels[end], |r.code.instrs|, [v] + rest)
    decreases alt, 3
  {
    hide Reach, At, Alternates, SettleCaptures, Layout, GenPattern, Match, EmitFailPop, StarsFit;
    var c0, pc0 := AddAll(c, [Copy(1)]), PatternContext([], allow, [], 0);
    assert Ready(c0, pc0);
    GenPatternAdvances(alt, c0, pc0);
    var g := GenPattern(alt, c0, pc0);
    var settled := SettleCaptures(g.pc.stores, first, control, g.code);
    SettleCapturesGrows(g.pc.stores, first, control, g.code);
    AlternativeLayout(c, c0, pc0, g, settled.code, end, p);
    AtOne(p, |c.instrs|, [Copy(1)], 0);
    CopyStep(w, p, a, |c.instrs|, 1, [v] + rest, s);
    LayoutOfCopy(v, rest);
    PatternCorrect(w, p, a, alt, c0, pc0, v, [], [], [v] + rest, s);
    SettleAlternative(w, p, a, Match(w, alt, v, s), first, control, end, g, settled.control, settled.code, [v] + rest);
  }

  lemma {:induction false} LayoutOfCopy(v: Value, rest: seq<Value>)
    ensures [v] + ([v] + rest) == [v] + Layout([], [], [v] + rest)
  {
  }

  lemma {:induction false} AlternativeLayout(c: Code, c0: Code, pc0: PatternContext, g: Gen, c2: Code, end: Label, p: Code)
    requires c0 == AddAll(c, [Copy(1)]) && g.Emitted? && Advances(c0, pc0, g.code, g.pc)
    requires c2.labels == g.code.labels && g.code.instrs <= c2.instrs
    requires Extends(EmitFailPop(AddAll(c2, [Jump(end)]), g.pc.failPop), p)
    ensures Extends(g.code, p) && Extends(c2, p) && AllBound(g.pc.failPop, p)
    ensures At(p, |c.instrs|, [Copy(1)]) && At(p, |c2.instrs|, [Jump(end)])
  {
    FailPopExtends(AddAll(c2, [Jump(end)]), g.pc.failPop, p);
    BlockAt(c2, [Jump(end)], p);
    assert Extends(g.code, c2);
    ExtendsTransitive(g.code, c2, p);
    ExtendsTransitive(c0, g.code, p);
    BlockAt(c, [Copy(1)], p);
  }

  lemma {:induction false} SettleAlternative(w: World, p: Code, a: Config, m: MatchResult, first: bool, control: seq<string>, end: Label,
                          g: Gen, control': seq<string>, c2: Code, base: seq<Value>)
    requires end in p.labels && Distinct(control) && g.Emitted? && Ready(g.code, g.pc)
    requires SettleCaptures(g.pc.stores, first, control, g.code) == Alts(control', c2)
    requires c2.labels == g.code.labels && Extends(c2, p)
    requires Extends(EmitFailPop(AddAll(c2, [Jump(end)]), g.pc.failPop), p) && At(p, |c2.instrs|, [Jump(end)])
    requires Simulates(w, p, a, m, [], g.code, g.pc, [], [], base)
    ensures Distinct(control')
    ensures Alternates(w, p, a, m, control', p.labels[end], |EmitFailPop(AddAll(c2, [Jump(end)]), g.pc.failPop).instrs|, base)
  {
    if m.Matched? {
      SettleMatched(w, p, a, m, first, control, end, g, control', c2, base);
    } else if m.NoMatch? {
      FailPopStep(w, p, a, AddAll(c2, [Jump(end)]), g.pc.failPop, base, m.s);
    }
  }

  lemma {:induction false} SettleMatched(w: World, p: Code, a: Config, m: MatchResult, first: bool, control: seq<string>, end: Label,
                      g: Gen, control': seq<string>, c2: Code, base: seq<Value>)
    requires end in p.labels && Distinct(control) && g.Emitted? && Distinct(g.pc.stores) && m.Matched?
    requires SettleCaptures(g.pc.stores, first, control, g.code) == Alts(control', c2)
    requires Extends(c2, p) && At(p, |c2.instrs|, [Jump(end)])
    requires Simulates(w, p, a, m, [], g.code, g.pc, [], [], base)
    ensures m.bindings.Keys == (set x | x in control')
    ensures Reach(w, p, a, Run(p.labels[end], Captured(m.bindings, control') + base, m.s))
  {
    hide Reach, At;
    var names, caps := g.pc.stores, Captured(m.bindings, g.pc.stores);
    assert names[0..] == names;
    assert Layout([], [] + caps, base) == caps + base;
    if !first {
      ReorderCorrect(w, p, a, names, control, |control|, g.code, m.bindings, base, m.s);
      SameNamesSet(names, control);
    }
    AtOne(p, |c2.instrs|, [Jump(end)], 0);
    OpJump(w, p, a, |c2.instrs|, Jump(end), Captured(m.bindings, control') + base, m.s);
  }

  lemma {:induction false} SameNamesSet(s1: seq<string>, s2: seq<string>)
    requires SameNames(s1, s2)
    ensures (set x | x in s1) == (set x | x in s2)
  {
  }

  // The stack while the captures cs sink below under: i of them have sunk.
  function Sinking(cs: seq<Value>, i: nat, under: seq<Value>, base: seq<Value>): seq<Value>
    requires i <= |cs|
  {
    cs[i..] + (under + (cs[..i] + base))
  }

  lemma {:induction false} SinkOne(w: World, p: Code, a: Config, pc: nat, cs: seq<Value>, i: nat, under: seq<Value>, base: seq<Value>, s: State)
    requires i < |cs| && At(p, pc, RotateCode(|cs| + |under|))
    requires Reach(w, p, a, Run(pc, Sinking(cs, i, under, base), s))
    ensures Reach(w, p, a, Run(pc + |cs| + |under| - 1, Sinking(cs, i + 1, under, base), s))
  {
    var below := cs[i + 1 ..] + (under + cs[..i]);
    SinkShape(cs, i, under, base);
    assert |below| + 1 == |cs| + |under|;
    RotateStep(w, p, a, pc, cs[i], below, base, s);
  }

  lemma {:induction false} SinkShape(cs: seq<Value>, i: nat, under: seq<Value>, base: seq<Value>)
    requires i < |cs|
    ensures var below := cs[i + 1 ..] + (under + cs[..i]);
            && Sinking(cs, i, under, base) == [cs[i]] + below + base
            && Sinking(cs, i + 1, under, base) == below + ([cs[i]] + base)
  {
    assert cs[i..] == [cs[i]] + cs[i + 1 ..];
    assert cs[..i + 1] == cs[..i] + [cs[i]];
    Associate(cs[i + 1 ..], under, cs[..i], base);
    Associate(cs[i + 1 ..], under, cs[..i], [cs[i]] + base);
    assert cs[..i] + ([cs[i]] + base) == cs[..i + 1] + base;
    assert [cs[i]] + (cs[i + 1 ..] + (under + (cs[..i] + base))) == cs[i..] + (under + (cs[..i] + base));
    assert [cs[i]] + ((cs[i + 1 ..] + (under + cs[..i])) + base) == [cs[i]] + (cs[i + 1 ..] + (under + cs[..i])) + base;
  }

  lemma {:induction false} Associate(x: seq<Value>, y: seq<Value>, z: seq<Value>, t: seq<Value>)
    ensures (x + (y + z)) + t == x + (y + (z + t))
  {
  }

  lemma {:induction false} SinkCorrect(w: World, p: Code, a: Config, control: seq<string>, i: nat, nrots: nat, c: Code, pc: PatternContext,
                                       cs: seq<Value>, under: seq<Value>, base: seq<Value>, s: State)
    requires i <= |control| == |cs| && 0 < |under| && nrots == |cs| + |under|
    requires GenSink(control, i, nrots, c, pc).Emitted? && Extends(GenSink(control, i, nrots, c, pc).code, p)
    requires Reach(w, p, a, Run(|c.instrs|, Sinking(cs, i, under, base), s))
    ensures var r := GenSink(control, i, nrots, c, pc);
            && Reach(w, p, a, Run(|r.code.instrs|, Sinking(cs, |cs|, under, base), s))
            && r.pc.stores == pc.stores + control[i..]
    decreases |control| - i
  {
    hide Reach, At, Extends, Sinking, RotateCode;
    if i < |control| {
      var c1, pc1 := AddAll(c, RotateCode(nrots)), pc.(stores := pc.stores + [control[i]]);
      SinkExtends(control, i + 1, nrots, c1, pc1, p);
      BlockAt(c, RotateCode(nrots), p);
      SinkOne(w, p, a, |c.instrs|, cs, i, under, base, s);
      SinkCorrect(w, p, a, control, i + 1, nrots, c1, pc1, cs, under, base, s);
      assert control[i..] == [control[i]] + control[i + 1 ..];
    }
  }

  lemma {:induction false} SinkExtends(control: seq<string>, i: nat, nrots: nat, c: Code, pc: PatternContext, p: Code)
    requires i <= |control| && GenSink(control, i, nrots, c, pc).Emitted? && Extends(GenSink(control, i, nrots, c, pc).code, p)
    ensures Extends(c, p)
    decreases |control| - i
  {
    if i < |control| {
      SinkExtends(control, i + 1, nrots, AddAll(c, RotateCode(nrots)), pc.(stores := pc.stores + [control[i]]), p);
      BlockAt(c, RotateCode(nrots), p);
    }
  }

  lemma {:induction false} OrCorrect(w: World, p: Code, a: Config, alts: seq<Pattern>, c: Code, pc: PatternContext, v: Value,
                                     scratch: seq<Value>, caps: seq<Value>, base: seq<Value>, s: State)
    requires AllStarsFit(alts, 0)
    requires Starts(w, p, a, c, pc, |scratch|, GenOr(alts, c, pc), caps, [v] + Layout(scratch, caps, base), s)
    ensures var r := GenOr(alts, c, pc);
            Simulates(w, p, a, MatchFirst(w, alts, 0, v, s), pc.stores, r.code, r.pc, scratch, caps, base)
    decreases alts, |alts| + 1
  {
    hide Extends, Distinct, GenOr, Reach, GenAlternatives, At, Layout, GenSink, MatchFirst, JumpToFailPop;
    EmptyDistinct();
    var alt := GenAlternatives(alts, 0, [], c.next, pc.allowIrrefutable, Fresh(c));
    GenOrParts(alts, c, pc);
    GenAlternativesGrows(alts, 0, [], c.next, pc.allowIrrefutable, Fresh(c));
    ResumeAdvances(c, pc, alt.code);
    var (c2, pc2) := JumpToFailPop(AddAll(alt.code, [PopTop]), pc, true);
    var sink := GenSink(alt.control, 0, |alt.control| + 1 + pc2.onTop + |pc2.stores|, Use(c2, c.next), pc2);
    OrLayout(alt.control, alt.code, c.next, pc, c2, pc2, sink, p);
    AlternativesCorrect(w, p, a, alts, 0, [], c.next, pc.allowIrrefutable, Fresh(c), v, Layout(scratch, caps, base), s);
    OrStep(w, p, a, MatchFirst(w, alts, 0, v, s), alt.control, alt.code, c2, pc, pc2, sink, c.next, v, scratch, caps, base);
  }

  lemma EmptyDistinct()
    ensures Distinct<string>([])
  {
  }

  lemma {:induction false} GenOrParts(alts: seq<Pattern>, c: Code, pc: PatternContext)
    requires GenOr(alts, c, pc).Emitted?
    ensures var alt := GenAlternatives(alts, 0, [], c.next, pc.allowIrrefutable, Fresh(c));
            var (c2, pc2) := JumpToFailPop(AddAll(alt.code, [PopTop]), pc, true);
            var sink := GenSink(alt.control, 0, |alt.control| + 1 + pc2.onTop + |pc2.stores|, Use(c2, c.next), pc2);
            && alt.Alts? && sink.Emitted? && 2 <= |alts|
            && GenOr(alts, c, pc) == Emitted(AddAll(sink.code, [PopTop]), sink.pc)
  {
  }

  lemma {:induction false} OrLayout(control: seq<string>, c1: Code, end: Label, pc: PatternContext, c2: Code, pc2: PatternContext, sink: Gen, p: Code)
    requires (c2, pc2) == JumpToFailPop(AddAll(c1, [PopTop]), pc, true) && end !in c2.labels
    requires sink == GenSink(control, 0, |control| + 1 + pc2.onTop + |pc2.stores|, Use(c2, end), pc2) && sink.Emitted?
    requires Extends(AddAll(sink.code, [PopTop]), p)
    ensures Extends(sink.code, p) && Extends(c2, p) && end in p.labels && p.labels[end] == |c2.instrs|
    ensures Extends(c1, p) && At(p, |c1.instrs|, [PopTop]) && At(p, |sink.code.instrs|, [PopTop])
  {
    BlockAt(sink.code, [PopTop], p);
    SinkExtends(control, 0, |control| + 1 + pc2.onTop + |pc2.stores|, Use(c2, end), pc2, p);
    UseExtends(c2, end, p);
    JumpToFailPopExtends(AddAll(c1, [PopTop]), pc, true, p);
    BlockAt(c1, [PopTop], p);
  }

  lemma {:induction false} UseExtends(c: Code, l: Label, p: Code)
    requires l !in c.labels && Extends(Use(c, l), p)
    ensures Extends(c, p) && l in p.labels && p.labels[l] == |c.instrs|
  {
    assert l in Use(c, l).labels;
    assert Extends(c, Use(c, l));
    ExtendsTransitive(c, Use(c, l), p);
  }

  lemma {:induction false} OrStep(w: World, p: Code, a: Config, m: MatchResult, control: seq<string>, c1: Code, c2: Code, pc: PatternContext, pc2: PatternContext, sink: Gen,
               end: Label, v: Value, scratch: seq<Value>, caps: seq<Value>, base: seq<Value>)
    requires pc.onTop == |scratch| && |caps| == |pc.stores|
    requires (c2, pc2) == JumpToFailPop(AddAll(c1, [PopTop]), pc, true) && Extends(c2, p)
    requires sink == GenSink(control, 0, |control| + 1 + pc2.onTop + |pc2.stores|, Use(c2, end), pc2) && sink.Emitted?
    requires AllBound(sink.pc.failPop, p)
    requires Extends(sink.code, p) && At(p, |c1.instrs|, [PopTop]) && At(p, |sink.code.instrs|, [PopTop])
    requires Alternates(w, p, a, m, control, |c2.instrs|, |c1.instrs|, [v] + Layout(scratch, caps, base))
    ensures Simulates(w, p, a, m, pc.stores, AddAll(sink.code, [PopTop]), sink.pc, scratch, caps, base)
  {
    if m.Matched? {
      SinkCaptures(w, p, a, m, control, Use(c2, end), pc, pc2, sink, v, scratch, caps, base);
    } else if m.NoMatch? {
      AtOne(p, |c1.instrs|, [PopTop], 0);
      PopStep(w, p, a, |c1.instrs|, v, Layout(scratch, caps, base), m.s);
      LayoutJunk(scratch, caps, base);
      FailAlways(w, p, a, AddAll(c1, [PopTop]), pc, scratch + caps, base, m.s);
    }
  }

  lemma {:induction false} SinkingEnds(cs: seq<Value>, v: Value, scratch: seq<Value>, caps: seq<Value>, base: seq<Value>)
    ensures var under := [v] + (scratch + caps);
            && Sinking(cs, 0, under, base) == cs + ([v] + Layout(scratch, caps, base))
            && Sinking(cs, |cs|, under, base) == [v] + Layout(scratch, caps + cs, base)
  {
    assert cs[0..] == cs && cs[..0] == [] && cs[|cs|..] == [] && cs[..|cs|] == cs;
  }

  lemma {:induction false} SinkCaptures(w: World, p: Code, a: Config, m: MatchResult, control: seq<string>, c: Code, pc: PatternContext, pc2: PatternContext, sink: Gen,
                     v: Value, scratch: seq<Value>, caps: seq<Value>, base: seq<Value>)
    requires m.Matched? && pc.onTop == |scratch| && |caps| == |pc.stores| && pc2 == pc.(failPop := pc2.failPop)
    requires sink == GenSink(control, 0, |control| + 1 + pc2.onTop + |pc2.stores|, c, pc2) && sink.Emitted?
    requires Extends(sink.code, p) && At(p, |sink.code.instrs|, [PopTop]) && m.bindings.Keys == (set x | x in control)
    requires Reach(w, p, a, Run(|c.instrs|, Captured(m.bindings, control) + ([v] + Layout(scratch, caps, base)), m.s))
    ensures Simulates(w, p, a, m, pc.stores, AddAll(sink.code, [PopTop]), sink.pc, scratch, caps, base)
  {
    var nrots := |control| + 1 + pc2.onTop + |pc2.stores|;
    var cs := Captured(m.bindings, control);
    SinkRun(w, p, a, control, nrots, c, pc2, sink, cs, v, scratch, caps, base, m.s);
    NamesAppended(pc.stores, control, sink.pc.stores);
    SimulatesBinding(w, p, a, m, control, pc.stores, AddAll(sink.code, [PopTop]), sink.pc, scratch, caps, base);
  }

  lemma {:induction false} SimulatesBinding(w: World, p: Code, a: Config, m: MatchResult, names: seq<string>, stores: seq<string>, c: Code, pc: PatternContext,
                         scratch: seq<Value>, caps: seq<Value>, base: seq<Value>)
    requires m.Matched? && stores <= pc.stores && pc.stores[|stores|..] == names && m.bindings.Keys == (set x | x in names)
    requires Reach(w, p, a, Run(|c.instrs|, Layout(scratch, caps + Captured(m.bindings, names), base), m.s))
    ensures Simulates(w, p, a, m, stores, c, pc, scratch, caps, base)
  {
  }

  lemma {:induction false} SinkRun(w: World, p: Code, a: Config, control: seq<string>, nrots: nat, c: Code, pc: PatternContext, sink: Gen, cs: seq<Value>,
                v: Value, scratch: seq<Value>, caps: seq<Value>, base: seq<Value>, s: State)
    requires |cs| == |control| && nrots == |control| + 1 + |scratch| + |caps|
    requires sink == GenSink(control, 0, nrots, c, pc) && sink.Emitted? && Extends(sink.code, p)
    requires At(p, |sink.code.instrs|, [PopTop])
    requires Reach(w, p, a, Run(|c.instrs|, cs + ([v] + Layout(scratch, caps, base)), s))
    ensures Reach(w, p, a, Run(|AddAll(sink.code, [PopTop]).instrs|, Layout(scratch, caps + cs, base), s))
    ensures sink.pc.stores == pc.stores + control[0..]
  {
    var under := [v] + (scratch + caps);
    assert |under| == 1 + |scratch| + |caps|;
    SinkingEnds(cs, v, scratch, caps, base);
    SinkCorrect(w, p, a, control, 0, nrots, c, pc, cs, under, base, s);
    AtOne(p, |sink.code.instrs|, [PopTop], 0);
    PopStep(w, p, a, |sink.code.instrs|, v, Layout(scratch, caps + cs, base), s);
    assert |AddAll(sink.code, [PopTop]).instrs| == |sink.code.instrs| + 1;
  }

  lemma {:induction false} NamesAppended(stores: seq<string>, control: seq<string>, all: seq<string>)
    requires all == stores + control[0..]
    ensures stores <= all && all[|stores|..] == control
  {
  }
}
