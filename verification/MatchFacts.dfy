// Facts about the meaning of patterns: matching never changes an existing
// dictionary, and a mapping lookup that succeeds names distinct present keys.
module MatchFacts {
  import opened Machine
  import opened Expressions
  import opened Patterns

  lemma {:induction false} EvalKeepsDicts(w: World, e: Expr, s: State)
    ensures Eval(w, e, s).s.dicts == s.dicts
    decreases e, 1
  {
    match e
    case Constant(v) =>
    case Other(id) =>
    case Attribute(value, attr) => EvalKeepsDicts(w, value, s);
    case BoolOp(isOr, values) => if values != [] { EvalBoolKeepsDicts(w, isOr, values, 0, s); }
    case BinOp(left, op, right) =>
      EvalKeepsDicts(w, left, s);
      if Eval(w, left, s).Val? { EvalKeepsDicts(w, right, Eval(w, left, s).s); }
    case UnaryOp(op, operand) => EvalKeepsDicts(w, operand, s);
    case Compare(head, ops, comparators) =>
      EvalKeepsDicts(w, head, s);
      var r := Eval(w, head, s);
      if ops != [] && |ops| <= |comparators| && r.Val? {
        EvalChainKeepsDicts(w, r.v, ops, comparators, 0, r.s);
      }
    case IfExp(test, body, orelse) =>
      EvalKeepsDicts(w, test, s);
      var r := Eval(w, test, s);
      if r.Val? {
        EvalKeepsDicts(w, body, r.s);
        EvalKeepsDicts(w, orelse, r.s);
      }
  }

  lemma {:induction false} EvalBoolKeepsDicts(w: World, isOr: bool, values: seq<Expr>, i: nat, s: State)
    requires i < |values|
    ensures EvalBool(w, isOr, values, i, s).s.dicts == s.dicts
    decreases values, |values| - i
  {
    EvalKeepsDicts(w, values[i], s);
    var r := Eval(w, values[i], s);
    if r.Val? && i < |values| - 1 { EvalBoolKeepsDicts(w, isOr, values, i + 1, r.s); }
  }

  lemma {:induction false} EvalChainKeepsDicts(w: World, a: Value, ops: seq<Cmpop>, comparators: seq<Expr>, i: nat, s: State)
    requires i < |ops| <= |comparators|
    ensures EvalChain(w, a, ops, comparators, i, s).s.dicts == s.dicts
    decreases comparators, |ops| - i
  {
    EvalKeepsDicts(w, comparators[i], s);
    var rb := Eval(w, comparators[i], s);
    if rb.Val? {
      var r := CompareMeaning(w, ops[i], a, rb.v, rb.s);
      if r.Val? && i < |ops| - 1 { EvalChainKeepsDicts(w, rb.v, ops, comparators, i + 1, r.s); }
    }
  }

  lemma {:induction false} EvalKeysKeepsDicts(w: World, keys: seq<Expr>, i: nat, s: State)
    requires i <= |keys|
    ensures EvalKeys(w, keys, i, s).s.dicts == s.dicts
    decreases |keys| - i
  {
    if i < |keys| {
      EvalKeepsDicts(w, keys[i], s);
      var r := Eval(w, keys[i], s);
      if r.Val? { EvalKeysKeepsDicts(w, keys, i + 1, r.s); }
    }
  }

  lemma {:induction false} LookUpKeepsDicts(w: World, keys: seq<Expr>, v: Value, s: State)
    ensures LookUp(w, keys, v, s).s.dicts == s.dicts
  {
    EvalKeysKeepsDicts(w, keys, 0, s);
  }

  lemma {:induction false} MatchKeepsDicts(w: World, p: Pattern, v: Value, s: State)
    ensures s.dicts <= Match(w, p, v, s).s.dicts
    decreases p, 1
  {
    hide Eval, IsSequence, Elements, IsMapping, LookUp, Parts;
    match p
    case MatchValue(e) => EvalKeepsDicts(w, e, s);
    case MatchSingleton(k) =>
    case MatchSequence(ps) =>
      var star, n := StarFrom(ps, 0), |ps|;
      if IsSequence(w, v) && LengthFits(star, n, Elements(w, v)) {
        MatchSubsKeepsDicts(w, ps, 0, Parts(Elements(w, v), star, n), s);
      }
    case MatchMapping(keys, ps, rest) =>
      if |keys| == |ps| && IsMapping(w, s, v) {
        LookUpKeepsDicts(w, keys, v, s);
        var r := LookUp(w, keys, v, s);
        if r.LookedUp? { MatchSubsKeepsDicts(w, ps, 0, r.values, r.s); }
      }
    case MatchClass(_, _, _, _) => MatchClassKeepsDicts(w, p, v, s);
    case MatchStar(name) =>
    case MatchAs(sub, name) => if sub.Some? { MatchKeepsDicts(w, sub.value, v, s); }
    case MatchOr(alts) => MatchFirstKeepsDicts(w, alts, 0, v, s);
  }

  lemma {:induction false} MatchClassKeepsDicts(w: World, p: Pattern, v: Value, s: State)
    requires p.MatchClass?
    ensures s.dicts <= Match(w, p, v, s).s.dicts
    decreases p, 0
  {
    hide Eval, ClassResult;
    EvalKeepsDicts(w, p.cls, s);
    var r := Eval(w, p.cls, s);
    if |p.kwdAttrs| == |p.kwdPatterns| && r.Val? {
      var r2 := ClassResult(w, v, r.v, Names(p.kwdAttrs), |p.positional|, r.s);
      ClassKeepsDicts(w, v, r.v, Names(p.kwdAttrs), |p.positional|, r.s);
      if r2.Val? && r2.v != NoneValue {
        MatchSubsKeepsDicts(w, p.positional, 0, r2.v.items[..|p.positional|], r2.s);
        var r3 := MatchSubs(w, p.positional, 0, r2.v.items[..|p.positional|], r2.s);
        MatchSubsKeepsDicts(w, p.kwdPatterns, 0, r2.v.items[|p.positional|..], r3.s);
      }
    }
  }

  lemma ClassKeepsDicts(w: World, v: Value, cls: Value, names: seq<Value>, npos: nat, s: State)
    ensures ClassResult(w, v, cls, names, npos, s).s.dicts == s.dicts
  {
  }

  lemma {:induction false} MatchSubsKeepsDicts(w: World, ps: seq<Pattern>, i: nat, vs: seq<Value>, s: State)
    requires i <= |ps| == |vs|
    ensures s.dicts <= MatchSubs(w, ps, i, vs, s).s.dicts
    decreases ps, |ps| - i
  {
    if i < |ps| {
      MatchKeepsDicts(w, ps[i], vs[i], s);
      MatchSubsKeepsDicts(w, ps, i + 1, vs, Match(w, ps[i], vs[i], s).s);
    }
  }

  lemma {:induction false} MatchFirstKeepsDicts(w: World, alts: seq<Pattern>, i: nat, v: Value, s: State)
    requires i <= |alts|
    ensures s.dicts <= MatchFirst(w, alts, i, v, s).s.dicts
    decreases alts, |alts| - i
  {
    if i < |alts| {
      MatchKeepsDicts(w, alts[i], v, s);
      MatchFirstKeepsDicts(w, alts, i + 1, v, Match(w, alts[i], v, s).s);
    }
  }

  lemma {:induction false} FoundKeys(m: map<Value, Value>, keys: seq<Value>, i: nat)
    requires i <= |keys| && LookupKeys(m, keys, i).Found?
    ensures forall k :: i <= k < |keys| ==> keys[k] in m && keys[k] !in keys[..k]
    decreases |keys| - i
  {
    if i < |keys| { FoundKeys(m, keys, i + 1); }
  }
}
