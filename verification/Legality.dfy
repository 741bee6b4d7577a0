// What compiles: conditions on the syntax alone under which the generator
// emits code for an expression, a pattern and a match statement, and outside
// of which it reports an error.
module Legality {
  import opened Machine
  import opened Expressions
  import opened Patterns
  import opened PatternFrames
  import opened PatternProofs
  import opened MatchStatement

  // ----- expressions -----

  // The value form compiles: operators have their operands.
  ghost predicate Compiles(e: Expr)
    decreases e, 0
  {
    match e
    case Constant(_) => true
    case Other(_) => true
    case Attribute(x, _) => Compiles(x)
    case BoolOp(_, values) => 2 <= |values| && forall k :: 0 <= k < |values| ==> Compiles(values[k])
    case BinOp(l, _, r) => Compiles(l) && Compiles(r)
    case UnaryOp(_, x) => Compiles(x)
    case Compare(head, ops, cs) => 0 < |ops| == |cs| && Compiles(head) && forall k :: 0 <= k < |cs| ==> Compiles(cs[k])
    case IfExp(test, body, orelse) => Tests(test) && Compiles(body) && Compiles(orelse)
  }

  // The branch form compiles.  It looks through the operators that it turns
  // into branches, and asks less of them: one operand is enough for and/or,
  // and a chain may have comparators to spare.
  ghost predicate Tests(e: Expr)
    decreases e, 1
  {
    if e.UnaryOp? && e.uop == Not then Tests(e.operand)
    else if e.BoolOp? && e.values != [] then forall k :: 0 <= k < |e.values| ==> Tests(e.values[k])
    else if e.IfExp? then Tests(e.test) && Tests(e.body) && Tests(e.orelse)
    else if e.Compare? && 1 < |e.ops| then
      |e.ops| <= |e.comparators| && Compiles(e.head) && forall k :: 0 <= k < |e.ops| ==> Compiles(e.comparators[k])
    else Compiles(e)
  }

  // What a parser builds.
  ghost predicate WellFormed(e: Expr) {
    match e
    case Constant(_) => true
    case Other(_) => true
    case Attribute(x, _) => WellFormed(x)
    case BoolOp(_, values) => 2 <= |values| && forall k :: 0 <= k < |values| ==> WellFormed(values[k])
    case BinOp(l, _, r) => WellFormed(l) && WellFormed(r)
    case UnaryOp(_, x) => WellFormed(x)
    case Compare(head, ops, cs) => 0 < |ops| == |cs| && WellFormed(head) && forall k :: 0 <= k < |cs| ==> WellFormed(cs[k])
    case IfExp(test, body, orelse) => WellFormed(test) && WellFormed(body) && WellFormed(orelse)
  }

  // Every expression a parser builds compiles, in both forms.
  lemma {:induction false} WellFormedCompiles(e: Expr)
    requires WellFormed(e)
    ensures Compiles(e) && Tests(e)
    decreases e
  {
    match e
    case Constant(_) =>
    case Other(_) =>
    case Attribute(x, _) => WellFormedCompiles(x);
    case BoolOp(_, values) => forall k | 0 <= k < |values| ensures Compiles(values[k]) && Tests(values[k]) { WellFormedCompiles(values[k]); }
    case BinOp(l, _, r) =>
      WellFormedCompiles(l);
      WellFormedCompiles(r);
    case UnaryOp(_, x) => WellFormedCompiles(x);
    case Compare(head, _, cs) =>
      WellFormedCompiles(head);
      forall k | 0 <= k < |cs| ensures Compiles(cs[k]) { WellFormedCompiles(cs[k]); }
    case IfExp(test, body, orelse) =>
      WellFormedCompiles(test);
      WellFormedCompiles(body);
      WellFormedCompiles(orelse);
  }

  // The generator emits the value form exactly if it compiles.
  lemma {:induction false} ExprEmits(e: Expr, c: Code)
    ensures GenExpr(e, c).Some? <==> Compiles(e)
    decreases e, 1
  {
    hide AddAll, Use, CmpInstr, EndChain, UnaryCode;
    match e
    case Constant(_) =>
    case Other(_) =>
    case Attribute(x, _) => ExprEmits(x, c);
    case BoolOp(isOr, values) =>
      if 2 <= |values| { BoolEmits(values, 0, isOr, c.next, Fresh(c)); }
    case BinOp(l, _, r) =>
      ExprEmits(l, c);
      if GenExpr(l, c).Some? { ExprEmits(r, GenExpr(l, c).value); }
    case UnaryOp(_, x) => ExprEmits(x, c);
    case Compare(_, _, _) => CompareEmits(e, c);
    case IfExp(test, body, orelse) => IfExpEmits(e, c);
  }

  lemma {:induction false} IfExpEmits(e: Expr, c: Code)
    requires e.IfExp?
    ensures GenExpr(e, c).Some? <==> Compiles(e)
    decreases e, 0
  {
    hide AddAll, Use;
    var r1 := GenJumpIf(e.test, c.next, false, c.(next := c.next + 2));
    TestEmits(e.test, c.next, false, c.(next := c.next + 2));
    if r1.Some? {
      ExprEmits(e.body, r1.value);
      var r2 := GenExpr(e.body, r1.value);
      if r2.Some? { ExprEmits(e.orelse, Use(AddAll(r2.value, [Jump(c.next + 1)]), c.next)); }
    }
  }

  lemma {:induction false} CompareEmits(e: Expr, c: Code)
    requires e.Compare?
    ensures GenExpr(e, c).Some? <==> Compiles(e)
    decreases e, 0
  {
    hide AddAll, Use, CmpInstr, EndChain;
    if 0 < |e.ops| == |e.comparators| {
      ExprEmits(e.head, c);
      var r := GenExpr(e.head, c);
      if r.Some? && |e.ops| == 1 {
        ExprEmits(e.comparators[0], r.value);
      } else if r.Some? {
        var c1' := r.value.(next := r.value.next + 2);
        RungsEmit(e.ops, e.comparators, 0, r.value.next, c1');
        var r2 := GenRungs(e.ops, e.comparators, 0, r.value.next, c1');
        if r2.Some? { ExprEmits(e.comparators[|e.ops| - 1], r2.value); }
      }
    }
  }

  lemma {:induction false} BoolEmits(values: seq<Expr>, i: nat, isOr: bool, end: Label, c: Code)
    requires i < |values|
    ensures GenBool(values, i, isOr, end, c).Some? <==> forall k :: i <= k < |values| ==> Compiles(values[k])
    decreases values, |values| - i
  {
    hide AddAll;
    ExprEmits(values[i], c);
    var r := GenExpr(values[i], c);
    if r.Some? && i < |values| - 1 {
      BoolEmits(values, i + 1, isOr, end, AddAll(r.value, [Copy(1), ToBool, Branch(isOr, end), PopTop]));
    }
  }

  lemma {:induction false} RungsEmit(ops: seq<Cmpop>, cs: seq<Expr>, i: nat, cleanup: Label, c: Code)
    requires i < |ops| <= |cs|
    ensures GenRungs(ops, cs, i, cleanup, c).Some? <==> forall k :: i <= k < |ops| - 1 ==> Compiles(cs[k])
    decreases cs, |ops| - i
  {
    hide AddAll, CmpInstr;
    if i < |ops| - 1 {
      ExprEmits(cs[i], c);
      var r := GenExpr(cs[i], c);
      if r.Some? {
        RungsEmit(ops, cs, i + 1, cleanup,
          AddAll(r.value, [Swap(2), Copy(2), CmpInstr(ops[i]), Copy(1), ToBool, PopJumpIfFalse(cleanup), PopTop]));
      }
    }
  }

  // The generator emits the branch form exactly if it compiles.
  lemma {:induction false} TestEmits(e: Expr, next: Label, cond: bool, c: Code)
    ensures GenJumpIf(e, next, cond, c).Some? <==> Tests(e)
    decreases e, 2
  {
    hide AddAll, Use, GenExpr, EndJumpChain;
    if e.UnaryOp? && e.uop == Not {
      TestEmits(e.operand, next, !cond, c);
    } else if e.BoolOp? && e.values != [] {
      var inverted := e.isOr != cond;
      OperandsEmit(e.values, 0, if inverted then c.next else next, e.isOr, next, cond, if inverted then Fresh(c) else c);
    } else if e.IfExp? {
      IfExpTests(e, next, cond, c);
    } else if e.Compare? && 1 < |e.ops| {
      ChainTests(e, next, cond, c);
    } else {
      ExprEmits(e, c);
    }
  }

  lemma {:induction false} IfExpTests(e: Expr, next: Label, cond: bool, c: Code)
    requires e.IfExp?
    ensures GenJumpIf(e, next, cond, c).Some? <==> Tests(e)
    decreases e, 0
  {
    hide AddAll, Use, GenExpr;
    var c0 := c.(next := c.next + 2);
    TestEmits(e.test, c.next + 1, false, c0);
    var r1 := GenJumpIf(e.test, c.next + 1, false, c0);
    if r1.Some? {
      TestEmits(e.body, next, cond, r1.value);
      var r2 := GenJumpIf(e.body, next, cond, r1.value);
      if r2.Some? { TestEmits(e.orelse, next, cond, Use(AddAll(r2.value, [JumpNoInterrupt(c.next)]), c.next + 1)); }
    }
  }

  lemma {:induction false} ChainTests(e: Expr, next: Label, cond: bool, c: Code)
    requires e.Compare? && 1 < |e.ops|
    ensures GenJumpIf(e, next, cond, c).Some? <==> Tests(e)
    decreases e, 0
  {
    hide AddAll, Use, GenExpr, EndJumpChain;
    if |e.ops| <= |e.comparators| {
      ExprEmits(e.head, Fresh(c));
      var r1 := GenExpr(e.head, Fresh(c));
      if r1.Some? {
        JumpRungsEmit(e.ops, e.comparators, 0, c.next, r1.value);
        var r2 := GenJumpRungs(e.ops, e.comparators, 0, c.next, r1.value);
        if r2.Some? { ExprEmits(e.comparators[|e.ops| - 1], r2.value); }
      }
    }
  }

  lemma {:induction false} OperandsEmit(values: seq<Expr>, i: nat, next2: Label, cond2: bool, next: Label, cond: bool, c: Code)
    requires i < |values|
    ensures GenJumpOperands(values, i, next2, cond2, next, cond, c).Some? <==> forall k :: i <= k < |values| ==> Tests(values[k])
    decreases values, |values| - i
  {
    hide GenExpr;
    if i == |values| - 1 {
      TestEmits(values[i], next, cond, c);
    } else {
      TestEmits(values[i], next2, cond2, c);
      var r := GenJumpIf(values[i], next2, cond2, c);
      if r.Some? { OperandsEmit(values, i + 1, next2, cond2, next, cond, r.value); }
    }
  }

  lemma {:induction false} JumpRungsEmit(ops: seq<Cmpop>, cs: seq<Expr>, i: nat, cleanup: Label, c: Code)
    requires i < |ops| <= |cs|
    ensures GenJumpRungs(ops, cs, i, cleanup, c).Some? <==> forall k :: i <= k < |ops| - 1 ==> Compiles(cs[k])
    decreases cs, |ops| - i
  {
    hide AddAll, CmpInstr;
    if i < |ops| - 1 {
      ExprEmits(cs[i], c);
      var r := GenExpr(cs[i], c);
      if r.Some? {
        JumpRungsEmit(ops, cs, i + 1, cleanup, AddAll(r.value, [Swap(2), Copy(2), CmpInstr(ops[i]), ToBool, PopJumpIfFalse(cleanup)]));
      }
    }
  }

  // ----- mapping keys -----

  // The expressions that the grammar has as keys: a literal, a dotted name, a
  // negative number, a sum or difference of a signed number and a number.
  ghost predicate IsKey(e: Expr) {
    || (exists v :: e == Constant(v))
    || (exists x, a :: e == Attribute(x, a))
    || IsNegative(e)
    || (exists l, op, v :: e == BinOp(l, op, Constant(v)) && (op == AddOp || op == SubOp) && (IsNegative(l) || exists u :: l == Constant(u)))
  }

  ghost predicate IsNegative(e: Expr) { exists v :: e == UnaryOp(USub, Constant(v)) }

  lemma {:induction false} KeyShapes(e: Expr)
    ensures IsValidMappingPatternKey(e) <==> IsKey(e)
  {
    if IsValidMappingPatternKey(e) {
      match e
      case Constant(v) =>
      case Attribute(x, a) =>
      case UnaryOp(_, x) => assert e == UnaryOp(USub, Constant(x.v));
      case BinOp(l, op, r) =>
        assert e == BinOp(l, op, Constant(r.v));
        if l.Constant? { assert l == Constant(l.v); } else { assert l == UnaryOp(USub, Constant(l.operand.v)); }
    }
  }

  // The number that a constant is; truth values are numbers.
  ghost predicate IsNumber(v: Value, n: int) { v == Int(n) || (v == Bool(true) && n == 1) || (v == Bool(false) && n == 0) }

  ghost predicate SpellsSigned(e: Expr, n: int) {
    (e.Constant? && IsNumber(e.v, n)) || (e.UnaryOp? && e.uop == USub && e.operand.Constant? && IsNumber(e.operand.v, -n))
  }

  // The key spells the number n.
  ghost predicate Spells(e: Expr, n: int) {
    || SpellsSigned(e, n)
    || (e.BinOp? && e.right.Constant? && exists a, b :: SpellsSigned(e.left, a) && IsNumber(e.right.v, b)
                                                     && ((e.op == AddOp && n == a + b) || (e.op == SubOp && n == a - b)))
  }

  // Numbers where the grammar wants numbers.
  ghost predicate SpellsOrStands(e: Expr) { e.Constant? || e.Attribute? || exists n :: Spells(e, n) }

  // The two keys are one constant.
  ghost predicate Clash(a: Expr, b: Expr) {
    || (exists n :: Spells(a, n) && Spells(b, n))
    || (a == b && a.Constant? && (a.v.Str? || a.v == NoneValue))
  }

  predicate SameBucket(a: Expr, b: Expr) { KeyBucket(a).Some? && KeyBucket(a) == KeyBucket(b) }

  lemma {:induction false} NumberOf(v: Value, n: int)
    ensures IsNumber(v, n) <==> NumericValue(v) == Some(n)
  {
  }

  lemma {:induction false} BucketOfNumber(e: Expr, n: int)
    requires Spells(e, n)
    ensures KeyBucket(e) == Some(NumberBucket(n))
  {
    if !SpellsSigned(e, n) {
      var a, b :| SpellsSigned(e.left, a) && IsNumber(e.right.v, b) && ((e.op == AddOp && n == a + b) || (e.op == SubOp && n == a - b));
      SumFolds(e, a, b);
    }
  }

  lemma {:induction false} SumFolds(e: Expr, a: int, b: int)
    requires e.BinOp? && e.right.Constant? && SpellsSigned(e.left, a) && IsNumber(e.right.v, b) && (e.op == AddOp || e.op == SubOp)
    ensures KeyBucket(e) == Some(NumberBucket(if e.op == AddOp then a + b else a - b))
  {
    hide NumericValue, NegateConst, AddConst, IsNumber;
    assert IsValidMappingPatternKey(e);
    SignedNumber(e.left, a);
    Negated(e.right.v, b);
    var l := if e.left.Constant? then e.left.v else NegateConst(e.left.operand.v);
    var r := if e.op == SubOp then NegateConst(e.right.v) else e.right.v;
    Added(l, r, a, if e.op == SubOp then -b else b);
  }

  lemma {:induction false} SignedNumber(e: Expr, n: int)
    requires SpellsSigned(e, n)
    ensures NumericValue(if e.Constant? then e.v else NegateConst(e.operand.v)) == Some(n)
  {
  }

  lemma {:induction false} Negated(v: Value, n: int)
    requires IsNumber(v, n)
    ensures NumericValue(v) == Some(n) && NumericValue(NegateConst(v)) == Some(-n)
  {
  }

  lemma {:induction false} Added(x: Value, y: Value, a: int, b: int)
    requires NumericValue(x) == Some(a) && NumericValue(y) == Some(b)
    ensures AddConst(x, y) == Int(a + b) && NumericValue(Int(a + b)) == Some(a + b)
  {
  }

  lemma {:induction false} BucketOfOther(e: Expr)
    requires SpellsOrStands(e) && forall n :: !Spells(e, n)
    ensures KeyBucket(e) == if e.Constant? && e.v.Str? then Some(TextBucket(e.v.chars)) else if e == Constant(NoneValue) then Some(NoneBucket) else None
  {
    if e.Constant? && NumericValue(e.v).Some? {
      NumberOf(e.v, NumericValue(e.v).value);
      assert Spells(e, NumericValue(e.v).value);
    }
  }

  // Keys are taken for repeated exactly if they are one constant.
  lemma {:induction false} SameBucketIsClash(a: Expr, b: Expr)
    requires SpellsOrStands(a) && SpellsOrStands(b)
    ensures SameBucket(a, b) <==> Clash(a, b)
  {
    hide KeyBucket, Spells;
    BucketIs(a);
    BucketIs(b);
    if SameBucket(a, b) {
      match KeyBucket(a).value
      case NoneBucket =>
      case NumberBucket(n) => assert Spells(a, n) && Spells(b, n);
      case TextBucket(x) => assert a == Constant(Str(x)) && b == Constant(Str(x));
    }
    if Clash(a, b) {
      if n :| Spells(a, n) && Spells(b, n) {
        assert KeyBucket(a) == Some(NumberBucket(n));
      } else if a.v.Str? {
        assert a == Constant(Str(a.v.chars));
      } else {
        assert a == Constant(NoneValue);
      }
    }
  }

  lemma {:induction false} BucketIs(e: Expr)
    requires SpellsOrStands(e)
    ensures forall n :: Spells(e, n) <==> KeyBucket(e) == Some(NumberBucket(n))
    ensures forall x :: KeyBucket(e) == Some(TextBucket(x)) <==> e == Constant(Str(x))
    ensures KeyBucket(e) == Some(NoneBucket) <==> e == Constant(NoneValue)
  {
    hide KeyBucket, Spells;
    if n :| Spells(e, n) {
      BucketOfNumber(e, n);
      forall m | Spells(e, m) ensures m == n { BucketOfNumber(e, m); }
      NumbersStand(e, n);
    } else {
      BucketOfOther(e);
    }
  }

  lemma {:induction false} NumbersStand(e: Expr, n: int)
    requires Spells(e, n)
    ensures e.Constant? ==> !e.v.Str? && e.v != NoneValue
  {
  }

  ghost predicate KeysLegal(keys: seq<Expr>, i: nat)
    requires i <= |keys|
  {
    && (forall k :: i <= k < |keys| ==> IsKey(keys[k]) && Compiles(keys[k]))
    && (forall j, k :: i <= j < k < |keys| ==> !SameBucket(keys[j], keys[k]))
  }

  lemma {:induction false} KeysEmit(keys: seq<Expr>, i: nat, seen: set<Bucket>, c: Code)
    requires i <= |keys|
    ensures GenKeys(keys, i, seen, c).Some? <==>
            KeysLegal(keys, i) && forall k :: i <= k < |keys| && KeyBucket(keys[k]).Some? ==> KeyBucket(keys[k]).value !in seen
    decreases |keys| - i
  {
    hide KeyBucket, IsValidMappingPatternKey, IsKey, Compiles, GenExpr;
    if i < |keys| {
      KeyShapes(keys[i]);
      ExprEmits(keys[i], c);
      var r := GenExpr(keys[i], c);
      var b := KeyBucket(keys[i]);
      if r.Some? { KeysEmit(keys, i + 1, if b.Some? then seen + {b.value} else seen, r.value); }
    }
  }

  // ----- patterns -----

  // The names are all different, and none is there already.
  ghost predicate NewNames(stores: seq<string>, names: seq<string>) {
    Distinct(names) && forall k :: 0 <= k < |names| ==> names[k] !in stores
  }

  ghost predicate OneStar(ps: seq<Pattern>) { forall i, j :: 0 <= i < j < |ps| ==> !(ps[i].MatchStar? && ps[j].MatchStar?) }

  // The shape of a pattern is allowed.  A bare name or wildcard is where an
  // irrefutable pattern is, and inside other patterns.
  ghost predicate Legal(p: Pattern, irrefutable: bool)
    decreases p, 1
  {
    match p
    case MatchValue(e) => (e.Constant? || e.Attribute?) && Compiles(e)
    case MatchSingleton(_) => true
    case MatchSequence(ps) => OneStar(ps) && LegalFrom(ps, 0)
    case MatchMapping(keys, ps, _) => |keys| == |ps| && KeysLegal(keys, 0) && LegalFrom(ps, 0)
    case MatchClass(cls, ps, attrs, kwds) =>
      && |ps| + |attrs| <= 0x7fff_ffff && |attrs| == |kwds| && Distinct(attrs)
      && Compiles(cls) && LegalFrom(ps, 0) && LegalFrom(kwds, 0)
    case MatchStar(_) => true
    case MatchAs(sub, _) => if sub.None? then irrefutable else Legal(sub.value, irrefutable)
    case MatchOr(alts) =>
      && 2 <= |alts|
      && (forall k :: 0 <= k < |alts| ==> Legal(alts[k], irrefutable && k == |alts| - 1))
      && (forall k :: 0 <= k < |alts| ==> NewNames([], BoundNames(alts[k])) && SameNames(BoundNames(alts[k]), BoundNames(alts[0])))
  }

  ghost predicate LegalFrom(ps: seq<Pattern>, i: nat)
    decreases ps, 0
  {
    forall k :: i <= k < |ps| ==> Legal(ps[k], true)
  }

  // ... and it binds no name twice, nor one that is bound already.
  ghost predicate Fits(p: Pattern, irrefutable: bool, stores: seq<string>) {
    Legal(p, irrefutable) && NewNames(stores, BoundNames(p))
  }

  ghost predicate FitFrom(ps: seq<Pattern>, i: nat, stores: seq<string>)
    requires i <= |ps|
  {
    LegalFrom(ps, i) && NewNames(stores, SubNames(ps, i))
  }

  lemma {:induction false} NewAppend(stores: seq<string>, x: seq<string>, y: seq<string>)
    ensures NewNames(stores, x + y) <==> NewNames(stores, x) && NewNames(stores + x, y)
  {
    var all := x + y;
    if NewNames(stores, all) {
      assert forall k :: 0 <= k < |x| ==> x[k] == all[k];
      assert forall k :: 0 <= k < |y| ==> y[k] == all[|x| + k];
      forall k | 0 <= k < |y| ensures y[k] !in stores + x {
        assert forall j :: 0 <= j < |x| ==> all[j] != all[|x| + k];
      }
    }
    if NewNames(stores, x) && NewNames(stores + x, y) {
      forall i, j | 0 <= i < j < |all| ensures all[i] != all[j] {
        if i < |x| && |x| <= j { assert y[j - |x|] !in stores + x; }
      }
      forall k | 0 <= k < |all| ensures all[k] !in stores {
        if |x| <= k { assert y[k - |x|] !in stores + x; }
      }
    }
  }

  lemma {:induction false} FitsFirst(ps: seq<Pattern>, i: nat, stores: seq<string>)
    requires i < |ps|
    ensures FitFrom(ps, i, stores) <==> Fits(ps[i], true, stores) && FitFrom(ps, i + 1, stores + BoundNames(ps[i]))
  {
    hide Legal, BoundNames, NewNames;
    NewAppend(stores, BoundNames(ps[i]), SubNames(ps, i + 1));
    assert LegalFrom(ps, i) <==> Legal(ps[i], true) && LegalFrom(ps, i + 1);
  }

  lemma FitsNone(ps: seq<Pattern>, stores: seq<string>)
    ensures FitFrom(ps, |ps|, stores)
  {
  }

  lemma {:induction false} WildFits(p: Pattern, stores: seq<string>)
    requires IsWildcard(p) || IsWildcardStar(p)
    ensures Fits(p, true, stores) && BoundNames(p) == [] && stores + [] == stores
  {
  }

  // The generator emits code for a pattern exactly if it fits.
  lemma {:induction false} PatternEmits(p: Pattern, c: Code, pc: PatternContext)
    ensures GenPattern(p, c, pc).Emitted? <==> Fits(p, pc.allowIrrefutable, pc.stores)
    decreases p, 2
  {
    hide AddAll, JumpToFailPop, GenExpr, Compiles, KeysLegal, GenMapping, GenClass, GenOr, GenSequence, NewNames;
    match p
    case MatchValue(e) =>
      ExprEmits(e, c);
      NoNames(pc.stores);
    case MatchSingleton(_) => NoNames(pc.stores);
    case MatchSequence(ps) => SequenceEmits(ps, c, pc);
    case MatchMapping(_, _, _) => MappingEmits(p, c, pc);
    case MatchClass(_, _, _, _) => ClassEmits(p, c, pc);
    case MatchStar(name) => CaptureEmits(name, c, pc);
    case MatchAs(sub, name) => AsEmits(p, c, pc);
    case MatchOr(alts) => OrEmits(alts, c, pc);
  }

  lemma NoNames(stores: seq<string>)
    ensures NewNames(stores, [])
  {
  }

  lemma {:induction false} CaptureEmits(name: Option<string>, c: Code, pc: PatternContext)
    ensures StoreCapture(name, c, pc).Emitted? <==> NewNames(pc.stores, OptName(name))
  {
    if name.Some? { assert OptName(name)[0] == name.value; }
  }

  lemma {:induction false} AsEmits(p: Pattern, c: Code, pc: PatternContext)
    requires p.MatchAs?
    ensures GenPattern(p, c, pc).Emitted? <==> Fits(p, pc.allowIrrefutable, pc.stores)
    decreases p, 1
  {
    hide AddAll, JumpToFailPop, NewNames, StoreCapture;
    if p.pattern.None? {
      CaptureEmits(p.name, c, pc);
      assert [] + OptName(p.name) == OptName(p.name);
    } else {
      var c0, pc0 := AddAll(c, [Copy(1)]), pc.(onTop := pc.onTop + 1);
      PatternEmits(p.pattern.value, c0, pc0);
      var r := GenPattern(p.pattern.value, c0, pc0);
      NewAppend(pc.stores, BoundNames(p.pattern.value), OptName(p.name));
      if r.Emitted? {
        GenPatternNames(p.pattern.value, c0, pc0);
        CaptureEmits(p.name, r.code, r.pc.(onTop := r.pc.onTop - 1));
      }
    }
  }

  lemma {:induction false} SubpatternEmits(p: Pattern, c: Code, pc: PatternContext)
    ensures GenSubpattern(p, c, pc).Emitted? <==> Fits(p, true, pc.stores)
    ensures GenSubpattern(p, c, pc).Emitted? ==> GenSubpattern(p, c, pc).pc.stores == pc.stores + BoundNames(p)
    decreases p, 3
  {
    hide Fits, GenPattern, BoundNames;
    PatternEmits(p, c, pc.(allowIrrefutable := true));
    if GenSubpattern(p, c, pc).Emitted? { SubpatternNames(p, c, pc); }
  }

  lemma {:induction false} SubsEmit(ps: seq<Pattern>, i: nat, c: Code, pc: PatternContext)
    requires i <= |ps| && pc.onTop >= |ps| - i
    ensures GenSubs(ps, i, c, pc).Emitted? <==> FitFrom(ps, i, pc.stores)
    decreases ps, |ps| - i
  {
    hide GenSubpattern, Fits, FitFrom, BoundNames;
    if i == |ps| {
      FitsNone(ps, pc.stores);
    } else {
      var pc1 := pc.(onTop := pc.onTop - 1);
      SubpatternEmits(ps[i], c, pc1);
      FitsFirst(ps, i, pc.stores);
      var r := GenSubpattern(ps[i], c, pc1);
      if r.Emitted? { SubsEmit(ps, i + 1, r.code, r.pc); }
    }
  }

  lemma {:induction false} ArgsEmit(ps: seq<Pattern>, i: nat, c: Code, pc: PatternContext)
    requires i <= |ps| && pc.onTop >= |ps| - i
    ensures GenArgs(ps, i, c, pc).Emitted? <==> FitFrom(ps, i, pc.stores)
    decreases ps, |ps| - i
  {
    hide GenSubpattern, Fits, FitFrom, BoundNames, AddAll;
    if i == |ps| {
      FitsNone(ps, pc.stores);
    } else {
      var pc1 := pc.(onTop := pc.onTop - 1);
      FitsFirst(ps, i, pc.stores);
      if IsWildcard(ps[i]) {
        WildFits(ps[i], pc.stores);
        ArgsEmit(ps, i + 1, AddAll(c, [PopTop]), pc1);
      } else {
        SubpatternEmits(ps[i], c, pc1);
        var r := GenSubpattern(ps[i], c, pc1);
        if r.Emitted? { ArgsEmit(ps, i + 1, r.code, r.pc); }
      }
    }
  }

  lemma {:induction false} ItemsEmit(ps: seq<Pattern>, i: nat, star: nat, c: Code, pc: PatternContext)
    requires i <= |ps| && star < |ps| && IsWildcardStar(ps[star])
    ensures GenItems(ps, i, star, c, pc).Emitted? <==> FitFrom(ps, i, pc.stores)
    decreases ps, |ps| - i
  {
    hide GenSubpattern, Fits, FitFrom, BoundNames, AddAll, ItemCode;
    if i == |ps| {
      FitsNone(ps, pc.stores);
    } else {
      FitsFirst(ps, i, pc.stores);
      if IsWildcard(ps[i]) || i == star {
        WildFits(ps[i], pc.stores);
        ItemsEmit(ps, i + 1, star, c, pc);
      } else {
        var c1 := AddAll(c, ItemCode(|ps|, i, star));
        SubpatternEmits(ps[i], c1, pc);
        var r := GenSubpattern(ps[i], c1, pc);
        if r.Emitted? { ItemsEmit(ps, i + 1, star, r.code, r.pc); }
      }
    }
  }

  lemma {:induction false} WildsFit(ps: seq<Pattern>, i: nat, stores: seq<string>)
    requires i <= |ps| && AllWild(ps)
    ensures FitFrom(ps, i, stores)
    decreases |ps| - i
  {
    hide Fits, FitFrom, BoundNames;
    if i == |ps| {
      FitsNone(ps, stores);
    } else {
      assert IsWildcard(ps[i]) || IsWildcardStar(ps[i]);
      WildFits(ps[i], stores);
      WildsFit(ps, i + 1, stores);
      FitsFirst(ps, i, stores);
    }
  }

  lemma {:induction false} StarsAreOne(ps: seq<Pattern>)
    ensures OneStar(ps) <==> !(StarFrom(ps, 0) >= 0 && StarFrom(ps, StarFrom(ps, 0) + 1) >= 0)
  {
  }

  lemma {:induction false} SequenceEmits(ps: seq<Pattern>, c: Code, pc: PatternContext)
    ensures GenSequence(ps, c, pc).Emitted? <==> OneStar(ps) && FitFrom(ps, 0, pc.stores)
    decreases ps, |ps| + 2
  {
    hide GenSequenceGates, GenSubs, GenItems, FitFrom, OneStar, AddAll, UnpackCode;
    var star := StarFrom(ps, 0);
    StarsAreOne(ps);
    var (c1, pc0) := GenSequenceGates(star, |ps|, c, pc.(onTop := pc.onTop + 1));
    var pc1 := pc0.(onTop := pc0.onTop - 1);
    if AllWild(ps) {
      WildsFit(ps, 0, pc.stores);
    } else if star >= 0 && IsWildcardStar(ps[star]) {
      ItemsEmit(ps, 0, star, c1, pc1.(onTop := pc1.onTop + 1));
    } else {
      SubsEmit(ps, 0, AddAll(c1, [UnpackCode(star, |ps|)]), pc1.(onTop := pc1.onTop + |ps|));
    }
  }

  lemma {:induction false} MappingEmits(p: Pattern, c: Code, pc: PatternContext)
    requires p.MatchMapping?
    ensures GenMapping(p, c, pc).Emitted? <==> Fits(p, pc.allowIrrefutable, pc.stores)
    decreases p, 1
  {
    hide JumpToFailPop, GenSubs, GenKeys, GenMappingLookup, GenMappingValues, AddAll, KeysLegal, SubNames, LegalFrom, NewNames;
    var n := |p.keys|;
    if n == |p.values| {
      var (c1, pc1) := JumpToFailPop(AddAll(c, [MatchMappingOp]), pc.(onTop := pc.onTop + 1), false);
      if n == 0 && p.rest.None? {
        NoEntries(p, pc.stores);
      } else {
        LookupEmits(p.keys, c1, pc1);
        var r := GenMappingLookup(p.keys, c1, pc1);
        if r.Emitted? { ValuesEmit(p, r.code, r.pc); }
      }
    }
  }

  lemma NoEntries(p: Pattern, stores: seq<string>)
    requires p.MatchMapping? && |p.keys| == |p.values| == 0 && p.rest.None?
    ensures KeysLegal(p.keys, 0) && LegalFrom(p.values, 0) && NewNames(stores, SubNames(p.values, 0) + OptName(p.rest))
  {
  }

  lemma {:induction false} LookupEmits(keys: seq<Expr>, c: Code, pc: PatternContext)
    ensures GenMappingLookup(keys, c, pc).Emitted? <==> KeysLegal(keys, 0)
  {
    hide JumpToFailPop, KeysLegal, GenMappingGates, GenKeys, AddAll;
    KeysEmit(keys, 0, {}, GenMappingGates(|keys|, c, pc).0);
  }

  lemma {:induction false} ValuesEmit(p: Pattern, c: Code, pc: PatternContext)
    requires p.MatchMapping? && |p.values| == |p.keys| && 3 <= pc.onTop
    ensures GenMappingValues(p, c, pc).Emitted? <==> LegalFrom(p.values, 0) && NewNames(pc.stores, SubNames(p.values, 0) + OptName(p.rest))
    decreases p, 0
  {
    hide GenSubs, AddAll, RestCode, SubNames, LegalFrom, NewNames, StoreCapture;
    var n := |p.keys|;
    var c0, pc0 := AddAll(c, [UnpackSequence(n)]), pc.(onTop := pc.onTop + n - 1);
    SubsEmit(p.values, 0, c0, pc0);
    var r := GenSubs(p.values, 0, c0, pc0);
    NewAppend(pc.stores, SubNames(p.values, 0), OptName(p.rest));
    if r.Emitted? {
      SubsNames(p.values, 0, c0, pc0);
      NoNames(r.pc.stores);
      CaptureEmits(p.rest, AddAll(r.code, RestCode(n)), r.pc.(onTop := r.pc.onTop - 2));
    }
  }

  lemma {:induction false} ClassEmits(p: Pattern, c: Code, pc: PatternContext)
    requires p.MatchClass?
    ensures GenClass(p, c, pc).Emitted? <==> Fits(p, pc.allowIrrefutable, pc.stores)
    decreases p, 1
  {
    hide JumpToFailPop, GenArgs, GenExpr, GenClassArgs, AddAll, SubNames, LegalFrom, NewNames, Compiles, ClassBlock;
    ExprEmits(p.cls, c);
    assert HasRepeat(p.kwdAttrs) <==> !Distinct(p.kwdAttrs);
    if |p.positional| + |p.kwdAttrs| <= 0x7fff_ffff && |p.kwdAttrs| == |p.kwdPatterns| && GenExpr(p.cls, c).Some? {
      var (c2, pc2) := JumpToFailPop(AddAll(GenExpr(p.cls, c).value, ClassBlock(p)), pc.(onTop := pc.onTop + 1), false);
      ClassArgsEmit(p, c2, pc2);
    }
  }

  lemma {:induction false} ClassArgsEmit(p: Pattern, c: Code, pc: PatternContext)
    requires p.MatchClass? && |p.kwdAttrs| == |p.kwdPatterns| && 1 <= pc.onTop
    ensures GenClassArgs(p, c, pc).Emitted? <==>
            LegalFrom(p.positional, 0) && LegalFrom(p.kwdPatterns, 0) && NewNames(pc.stores, SubNames(p.positional, 0) + SubNames(p.kwdPatterns, 0))
    decreases p, 0
  {
    hide GenArgs, AddAll, SubNames, LegalFrom, NewNames;
    var n := |p.positional| + |p.kwdAttrs|;
    var c0, pc0 := AddAll(c, [UnpackSequence(n)]), pc.(onTop := pc.onTop + n - 1);
    ArgsEmit(p.positional, 0, c0, pc0);
    NewAppend(pc.stores, SubNames(p.positional, 0), SubNames(p.kwdPatterns, 0));
    var r := GenArgs(p.positional, 0, c0, pc0);
    if r.Emitted? {
      ArgsNames(p.positional, 0, c0, pc0);
      ArgsEmit(p.kwdPatterns, 0, r.code, r.pc);
    }
  }

  // ----- alternatives -----

  ghost predicate AltFits(alt: Pattern, irrefutable: bool) { Fits(alt, irrefutable, []) }

  lemma {:induction false} NamesOf(x: seq<string>)
    requires Distinct(x)
    ensures |set n | n in x| == |x|
    decreases |x|
  {
    if x != [] {
      var front, last := x[..|x| - 1], x[|x| - 1];
      NamesOf(front);
      assert last !in front;
      assert (set n | n in x) == (set n | n in front) + {last};
    }
  }

  // Two lists of different names have the same names exactly if they are of
  // one length and the first has all names of the second.
  lemma {:induction false} CoverIsSame(x: seq<string>, y: seq<string>)
    requires Distinct(x) && Distinct(y)
    ensures (|x| == |y| && Covers(x, y, |y|)) <==> SameNames(x, y)
  {
    var sx, sy := set n | n in x, set n | n in y;
    NamesOf(x);
    NamesOf(y);
    if |x| == |y| && Covers(x, y, |y|) {
      forall n | n in sy ensures n in sx {
        var k :| 0 <= k < |y| && y[k] == n;
      }
      assert sy <= sx;
      SubsetSame(sy, sx);
      forall n ensures n in x <==> n in y { assert n in x <==> n in sx; }
    }
    if SameNames(x, y) {
      assert sx == sy;
      assert |x| == |sx| == |sy| == |y|;
      forall k | 0 <= k < |y| ensures y[k] in x { assert y[k] in y; }
    }
  }

  lemma SubsetSame(a: set<string>, b: set<string>)
    requires a <= b && |a| == |b|
    ensures a == b
  {
    assert |b - a| == |b| - |a|;
  }

  lemma {:induction false} AlternativeEmits(alt: Pattern, first: bool, irrefutable: bool, control: seq<string>, end: Label, c: Code)
    requires Distinct(control)
    ensures var r := GenAlternative(alt, first, irrefutable, control, end, c);
            && (r.Alts? <==> Fits(alt, irrefutable, []) && (first || SameNames(BoundNames(alt), control)))
            && (r.Alts? ==> r.control == if first then BoundNames(alt) else control)
    decreases alt, 3
  {
    hide GenPattern, AddAll, EmitFailPop, BoundNames, Legal, Covers, SameNames;
    var c0, pc0 := AddAll(c, [Copy(1)]), PatternContext([], irrefutable, [], 0);
    PatternEmits(alt, c0, pc0);
    var g := GenPattern(alt, c0, pc0);
    if g.Emitted? {
      GenPatternNames(alt, c0, pc0);
      assert [] + BoundNames(alt) == BoundNames(alt);
      CoverIsSame(g.pc.stores, control);
      if |g.pc.stores| == |control| { ReorderSettles(g.pc.stores, control, |control|, g.code); }
    }
  }

  lemma {:induction false} AlternativesEmit(alts: seq<Pattern>, i: nat, control: seq<string>, end: Label, irrefutable: bool, c: Code)
    requires 0 < i <= |alts| && Distinct(control)
    ensures GenAlternatives(alts, i, control, end, irrefutable, c).Alts? <==>
            forall k :: i <= k < |alts| ==> Fits(alts[k], irrefutable && k == |alts| - 1, []) && SameNames(BoundNames(alts[k]), control)
    decreases alts, |alts| - i
  {
    hide GenAlternative, Fits, BoundNames, SameNames, Distinct;
    if i < |alts| {
      var last := i == |alts| - 1 && irrefutable;
      AlternativeEmits(alts[i], false, last, control, end, c);
      var g := GenAlternative(alts[i], false, last, control, end, c);
      if g.Alts? { AlternativesEmit(alts, i + 1, control, end, irrefutable, g.code); }
    }
  }

  lemma {:induction false} SinkEmits(control: seq<string>, i: nat, nrots: nat, c: Code, pc: PatternContext)
    requires i <= |control| && Distinct(control)
    ensures GenSink(control, i, nrots, c, pc).Emitted? <==> forall k :: i <= k < |control| ==> control[k] !in pc.stores
    decreases |control| - i
  {
    hide AddAll, RotateCode;
    if i < |control| {
      SinkEmits(control, i + 1, nrots, AddAll(c, RotateCode(nrots)), pc.(stores := pc.stores + [control[i]]));
    }
  }

  lemma {:induction false} OrEmits(alts: seq<Pattern>, c: Code, pc: PatternContext)
    ensures GenOr(alts, c, pc).Emitted? <==> Fits(MatchOr(alts), pc.allowIrrefutable, pc.stores)
    decreases alts, |alts| + 1
  {
    hide GenAlternative, JumpToFailPop, GenSink, AddAll, Use, SameNames, Distinct, Legal;
    EmptyDistinct();
    OrLegal(alts, pc.allowIrrefutable, pc.stores);
    if 2 <= |alts| {
      var control := BoundNames(alts[0]);
      AlternativeEmits(alts[0], true, false, [], c.next, Fresh(c));
      var g := GenAlternative(alts[0], true, false, [], c.next, Fresh(c));
      SameAsItself(control);
      if g.Alts? {
        AlternativesEmit(alts, 1, control, c.next, pc.allowIrrefutable, g.code);
        var r := GenAlternatives(alts, 1, control, c.next, pc.allowIrrefutable, g.code);
        if r.Alts? {
          ControlStays(alts, 1, control, c.next, pc.allowIrrefutable, g.code);
          var (c2, pc2) := JumpToFailPop(AddAll(r.code, [PopTop]), pc, true);
          SinkEmits(control, 0, |control| + 1 + pc2.onTop + |pc2.stores|, Use(c2, c.next), pc2);
        }
      }
    }
  }

  // Legal for an or-pattern, split at its first alternative.
  lemma {:induction false} OrLegal(alts: seq<Pattern>, irrefutable: bool, stores: seq<string>)
    ensures Fits(MatchOr(alts), irrefutable, stores) <==>
            && 2 <= |alts| && Fits(alts[0], false, [])
            && (forall k :: 1 <= k < |alts| ==> Fits(alts[k], irrefutable && k == |alts| - 1, []) && SameNames(BoundNames(alts[k]), BoundNames(alts[0])))
            && Distinct(BoundNames(alts[0])) && forall k :: 0 <= k < |BoundNames(alts[0])| ==> BoundNames(alts[0])[k] !in stores
  {
    hide SameNames, Distinct;
    if 2 <= |alts| { SameAsItself(BoundNames(alts[0])); }
  }

  lemma SameAsItself(x: seq<string>)
    ensures SameNames(x, x)
  {
  }

  // ----- match statements -----

  ghost predicate LegalCase(m: MatchCase, irrefutable: bool) {
    Fits(m.pattern, irrefutable, []) && (m.guard.Some? ==> Compiles(m.guard.value))
  }

  // A match statement compiles: every pattern fits, and only the last case or
  // a guarded one is irrefutable.
  ghost predicate LegalMatch(subject: Expr, cases: seq<MatchCase>) {
    && Compiles(subject) && cases != []
    && forall k :: 0 <= k < |cases| ==> LegalCase(cases[k], cases[k].guard.Some? || k == |cases| - 1)
  }

  lemma {:induction false} CaseEmits(m: MatchCase, notLast: bool, irrefutable: bool, end: Label, c: Code)
    ensures GenCase(m, notLast, irrefutable, end, c).Some? <==> LegalCase(m, irrefutable)
  {
    hide GenPattern, AddAll, EmitFailPop, Fits, Compiles, GenExpr, EnsureFailPop;
    var c0 := AddAll(c, if notLast then [Copy(1)] else []);
    var pc0 := PatternContext([], irrefutable, [], 0);
    PatternEmits(m.pattern, c0, pc0);
    var g := GenPattern(m.pattern, c0, pc0);
    if g.Emitted? && m.guard.Some? {
      ExprEmits(m.guard.value, EnsureFailPop(AddAll(g.code, StoreCode(g.pc.stores)), g.pc, 0).0);
    }
  }

  lemma {:induction false} CasesEmit(cases: seq<MatchCase>, i: nat, limit: nat, end: Label, c: Code)
    requires i <= limit <= |cases|
    ensures GenCases(cases, i, limit, end, c).Some? <==>
            forall k :: i <= k < limit ==> LegalCase(cases[k], cases[k].guard.Some? || k == |cases| - 1)
    decreases limit - i
  {
    hide GenCase, LegalCase;
    if i < limit {
      var irrefutable := cases[i].guard.Some? || i == |cases| - 1;
      CaseEmits(cases[i], i != limit - 1, irrefutable, end, c);
      var r := GenCase(cases[i], i != limit - 1, irrefutable, end, c);
      if r.Some? { CasesEmit(cases, i + 1, limit, end, r.value); }
    }
  }

  lemma {:induction false} DefaultEmits(m: MatchCase, end: Label, c: Code)
    requires IsWildcard(m.pattern)
    ensures GenDefault(m, end, c).Some? <==> LegalCase(m, true)
  {
    hide AddAll, Compiles, GenExpr, Fits;
    WildFits(m.pattern, []);
    if m.guard.Some? { ExprEmits(m.guard.value, AddAll(c, [Nop])); }
  }

  // The generator emits code for a match statement exactly if it is legal.
  lemma {:induction false} MatchEmits(subject: Expr, cases: seq<MatchCase>, c: Code)
    ensures GenMatch(subject, cases, c).Some? <==> LegalMatch(subject, cases)
  {
    hide GenExpr, GenCases, GenDefault, Compiles, LegalCase, Use;
    ExprEmits(subject, c);
    if GenExpr(subject, c).Some? && cases != [] {
      var c1, n := GenExpr(subject, c).value, |cases|;
      var limit := if HasDefault(cases) then n - 1 else n;
      CasesEmit(cases, 0, limit, c1.next, Fresh(c1));
      var r := GenCases(cases, 0, limit, c1.next, Fresh(c1));
      if r.Some? && HasDefault(cases) { DefaultEmits(cases[n - 1], c1.next, r.value); }
    }
  }
}
