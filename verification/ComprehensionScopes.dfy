// Compiling the body of an inlined comprehension with its own view of names:
// the enclosing scope's symbols are overridden on entry and put back on exit.
module ComprehensionScopes {
  import opened InlinedComprehension

  // What a scope answers for a name it does not know.
  const NO_SYMBOL := Symbol(false, false, UnknownScope)

  // The part of a scope and its unit that is overridden.
  datatype View = View(symbols: map<string, Symbol>, fastHidden: map<string, bool>)

  function Lookup(v: View, name: string): Symbol { if name in v.symbols then v.symbols[name] else NO_SYMBOL }

  predicate IsHidden(v: View, name: string) { name in v.fastHidden && v.fastHidden[name] }

  // What is needed to undo.
  datatype Undo = Undo(tempSymbols: map<string, Symbol>, fastHidden: seq<string>)

  // A name of the comprehension with its flags there.
  datatype Entry = Entry(name: string, symbol: Symbol)

  predicate Overrides(e: Entry, outside: Symbol, inClassBlock: bool) {
    || (e.symbol.scope != outside.scope && e.symbol.scope != FreeScope && (e.symbol.scope != CellScope || outside.scope != FreeScope))
    || inClassBlock
  }

  predicate Hides(e: Entry, v: View, inClassBlock: bool, functionLike: bool) {
    ((e.symbol.defLocal && !e.symbol.defNonlocal) || inClassBlock) && !functionLike && !IsHidden(v, e.name)
  }

  function TweakOne(v: View, u: Undo, e: Entry, inClassBlock: bool, functionLike: bool): (View, Undo) {
    var outside := Lookup(v, e.name);
    var v1, u1 := if Overrides(e, outside, inClassBlock) then v.(symbols := v.symbols[e.name := e.symbol]) else v,
                  if Overrides(e, outside, inClassBlock) then u.(tempSymbols := u.tempSymbols[e.name := outside]) else u;
    if Hides(e, v, inClassBlock, functionLike) then
      (v1.(fastHidden := v1.fastHidden[e.name := true]), u1.(fastHidden := u1.fastHidden + [e.name]))
    else (v1, u1)
  }

  function Tweaked(v: View, entries: seq<Entry>, n: nat, inClassBlock: bool, functionLike: bool): (View, Undo)
    requires n <= |entries|
  {
    if n == 0 then (v, Undo(map[], []))
    else
      var (v1, u1) := Tweaked(v, entries, n - 1, inClassBlock, functionLike);
      TweakOne(v1, u1, entries[n - 1], inClassBlock, functionLike)
  }

  function Reverted(v: View, u: Undo): View {
    View(v.symbols + u.tempSymbols, Demoted(v.fastHidden, u.fastHidden, |u.fastHidden|))
  }

  function Demoted(hidden: map<string, bool>, names: seq<string>, n: nat): map<string, bool>
    requires n <= |names|
  {
    if n == 0 then hidden else Demoted(hidden, names, n - 1)[names[n - 1] := false]
  }

  lemma {:induction false} DemotedAt(hidden: map<string, bool>, names: seq<string>, n: nat, x: string)
    requires n <= |names|
    ensures var d := Demoted(hidden, names, n);
            (x in d && d[x]) <==> (x in hidden && hidden[x] && x !in names[..n])
  {
    if n > 0 {
      DemotedAt(hidden, names, n - 1, x);
      assert names[..n] == names[..n - 1] + [names[n - 1]];
    }
  }

  class Unit {
    var symbols: map<string, Symbol>
    var fastHidden: map<string, bool>
    var inInlinedComp: int

    constructor (symbols: map<string, Symbol>)
      ensures Value() == View(symbols, map[]) && inInlinedComp == 0
    {
      this.symbols, fastHidden, inInlinedComp := symbols, map[], 0;
    }

    function Value(): View
      reads this
    {
      View(symbols, fastHidden)
    }

    method TweakInlinedComprehensionScopes(entries: seq<Entry>, classScope: bool, functionLike: bool) returns (undo: Undo)
      modifies this
      ensures (Value(), undo) == Tweaked(old(Value()), entries, |entries|, classScope && old(inInlinedComp) == 0, functionLike)
      ensures inInlinedComp == old(inInlinedComp) + 1
    {
      var inClassBlock := classScope && inInlinedComp == 0;
      inInlinedComp := inInlinedComp + 1;
      undo := Undo(map[], []);
      for i := 0 to |entries|
        invariant (Value(), undo) == Tweaked(old(Value()), entries, i, inClassBlock, functionLike)
        invariant inInlinedComp == old(inInlinedComp) + 1
      {
        undo := TweakName(entries[i], undo, inClassBlock, functionLike);
      }
    }

    method TweakName(e: Entry, undo: Undo, inClassBlock: bool, functionLike: bool) returns (undo': Undo)
      modifies this
      ensures (Value(), undo') == TweakOne(old(Value()), undo, e, inClassBlock, functionLike)
      ensures inInlinedComp == old(inInlinedComp)
    {
      undo' := undo;
      var scope, outside := e.symbol.scope, Lookup(Value(), e.name);
      if (scope != outside.scope && scope != FreeScope && (scope != CellScope || outside.scope != FreeScope)) || inClassBlock {
        symbols := symbols[e.name := e.symbol];
        undo' := undo'.(tempSymbols := undo'.tempSymbols[e.name := outside]);
      }
      if (e.symbol.defLocal && !e.symbol.defNonlocal) || inClassBlock {
        if !functionLike {
          if e.name !in fastHidden || !fastHidden[e.name] {
            fastHidden := fastHidden[e.name := true];
            undo' := undo'.(fastHidden := undo'.fastHidden + [e.name]);
          }
        }
      }
    }

    method RevertInlinedComprehensionScopes(undo: Undo)
      modifies this
      ensures Value() == Reverted(old(Value()), undo)
      ensures inInlinedComp == old(inInlinedComp) - 1
    {
      inInlinedComp := inInlinedComp - 1;
      symbols := symbols + undo.tempSymbols;
      for i := 0 to |undo.fastHidden|
        invariant symbols == old(symbols) + undo.tempSymbols && inInlinedComp == old(inInlinedComp) - 1
        invariant fastHidden == Demoted(old(fastHidden), undo.fastHidden, i)
      {
        fastHidden := fastHidden[undo.fastHidden[i] := false];
      }
    }
  }

  // Two views answer every question alike.
  ghost predicate Alike(v: View, w: View) {
    forall x :: Lookup(v, x) == Lookup(w, x) && IsHidden(v, x) == IsHidden(w, x)
  }

  ghost predicate DistinctNames(entries: seq<Entry>) {
    forall i, j :: 0 <= i < j < |entries| ==> entries[i].name != entries[j].name
  }

  lemma {:induction false} TweakInvariant(v: View, entries: seq<Entry>, n: nat, inClassBlock: bool, functionLike: bool, x: string)
    requires DistinctNames(entries) && n <= |entries|
    ensures var (w, u) := Tweaked(v, entries, n, inClassBlock, functionLike);
            && (x in u.tempSymbols ==> u.tempSymbols[x] == Lookup(v, x))
            && (x !in u.tempSymbols ==> Lookup(w, x) == Lookup(v, x))
            && (x in u.fastHidden ==> !IsHidden(v, x))
            && (x !in u.fastHidden ==> IsHidden(w, x) == IsHidden(v, x))
    ensures var (_, u) := Tweaked(v, entries, n, inClassBlock, functionLike);
            (forall k :: 0 <= k < n ==> entries[k].name != x) ==> x !in u.tempSymbols && x !in u.fastHidden
    decreases n
  {
    if n > 0 {
      TweakInvariant(v, entries, n - 1, inClassBlock, functionLike, x);
    }
  }

  // Leaving puts every name back, also when comprehensions inside, or
  // anything else that changes no answer, came in between.
  lemma {:induction false} RevertUndoesTweak(v: View, entries: seq<Entry>, inClassBlock: bool, functionLike: bool, now: View)
    requires DistinctNames(entries)
    requires Alike(now, Tweaked(v, entries, |entries|, inClassBlock, functionLike).0)
    ensures Alike(Reverted(now, Tweaked(v, entries, |entries|, inClassBlock, functionLike).1), v)
  {
    var (w, u) := Tweaked(v, entries, |entries|, inClassBlock, functionLike);
    forall x ensures Lookup(Reverted(now, u), x) == Lookup(v, x) && IsHidden(Reverted(now, u), x) == IsHidden(v, x) {
      TweakInvariant(v, entries, |entries|, inClassBlock, functionLike, x);
      DemotedAt(now.fastHidden, u.fastHidden, |u.fastHidden|, x);
      assert u.fastHidden[..|u.fastHidden|] == u.fastHidden;
      assert Lookup(now, x) == Lookup(w, x) && IsHidden(now, x) == IsHidden(w, x);
    }
  }

  // While the body is compiled, every name resolves as the comprehension says,
  // but for names that are free there and cells whose name is free outside.
  lemma {:induction false} BodySeesItsOwnScope(v: View, entries: seq<Entry>, n: nat, k: nat, inClassBlock: bool, functionLike: bool)
    requires DistinctNames(entries) && k < n <= |entries|
    ensures var (e, w) := (entries[k], Tweaked(v, entries, n, inClassBlock, functionLike).0);
            Lookup(w, e.name).scope == e.symbol.scope
            || e.symbol.scope == FreeScope || (e.symbol.scope == CellScope && Lookup(v, e.name).scope == FreeScope)
    decreases n
  {
    hide IsHidden, TweakOne, DistinctNames;
    var (v1, u1) := Tweaked(v, entries, n - 1, inClassBlock, functionLike);
    TweakInvariant(v, entries, n - 1, inClassBlock, functionLike, entries[k].name);
    LookupTweaked(v1, u1, entries[n - 1], entries[k].name, inClassBlock, functionLike);
    EarlierDiffer(entries, n - 1);
    if k < n - 1 { BodySeesItsOwnScope(v, entries, n - 1, k, inClassBlock, functionLike); }
  }

  lemma LookupTweaked(v: View, u: Undo, e: Entry, x: string, inClassBlock: bool, functionLike: bool)
    ensures Lookup(TweakOne(v, u, e, inClassBlock, functionLike).0, x)
         == if x == e.name && Overrides(e, Lookup(v, e.name), inClassBlock) then e.symbol else Lookup(v, x)
  {
  }

  // The entries up to n know x as a name of the comprehension alone.
  ghost predicate PrivateEntry(entries: seq<Entry>, n: nat, inClassBlock: bool, x: string)
    requires n <= |entries|
  {
    exists k :: 0 <= k < n && entries[k].name == x && (inClassBlock || (entries[k].symbol.defLocal && !entries[k].symbol.defNonlocal))
  }

  // A name is reached in the same way inside and outside: its scopes agree, or
  // it goes through a cell either way.
  predicate SameAccess(inside: Symbol, outside: Symbol) {
    || inside.scope == outside.scope
    || inside.scope == FreeScope
    || (inside.scope == CellScope && outside.scope == FreeScope)
  }

  // While the body is compiled, a name is hidden if it was before or, outside
  // functions, if it is private to the comprehension; names the comprehension
  // does not know resolve as before, and those it knows as it says if they are
  // reached in another way there or in a class block, else as before too.
  lemma {:induction false} ViewInside(v: View, entries: seq<Entry>, n: nat, inClassBlock: bool, functionLike: bool, x: string)
    requires DistinctNames(entries) && n <= |entries|
    ensures var w := Tweaked(v, entries, n, inClassBlock, functionLike).0;
            && (IsHidden(w, x) <==> IsHidden(v, x) || (!functionLike && PrivateEntry(entries, n, inClassBlock, x)))
            && ((forall k :: 0 <= k < n ==> entries[k].name != x) ==> Lookup(w, x) == Lookup(v, x))
            && forall k :: 0 <= k < n && entries[k].name == x ==>
                 Lookup(w, x) == if inClassBlock || !SameAccess(entries[k].symbol, Lookup(v, x)) then entries[k].symbol else Lookup(v, x)
  {
    hide Tweaked, PrivateEntry, SameAccess, DistinctNames;
    HiddenInside(v, entries, n, inClassBlock, functionLike, x);
    LookupInside(v, entries, n, inClassBlock, functionLike, x);
  }

  lemma {:induction false} HiddenInside(v: View, entries: seq<Entry>, n: nat, inClassBlock: bool, functionLike: bool, x: string)
    requires n <= |entries|
    ensures IsHidden(Tweaked(v, entries, n, inClassBlock, functionLike).0, x)
            <==> IsHidden(v, x) || (!functionLike && PrivateEntry(entries, n, inClassBlock, x))
    decreases n
  {
    hide PrivateEntry, Overrides;
    if n > 0 {
      HiddenInside(v, entries, n - 1, inClassBlock, functionLike, x);
      PrivateLast(entries, n, inClassBlock, x);
    } else {
      NonePrivate(entries, inClassBlock, x);
    }
  }

  lemma {:induction false} LookupInside(v: View, entries: seq<Entry>, n: nat, inClassBlock: bool, functionLike: bool, x: string)
    requires DistinctNames(entries) && n <= |entries|
    ensures var w := Tweaked(v, entries, n, inClassBlock, functionLike).0;
            && ((forall k :: 0 <= k < n ==> entries[k].name != x) ==> Lookup(w, x) == Lookup(v, x))
            && forall k :: 0 <= k < n && entries[k].name == x ==>
                 Lookup(w, x) == if inClassBlock || !SameAccess(entries[k].symbol, Lookup(v, x)) then entries[k].symbol else Lookup(v, x)
    decreases n
  {
    hide DistinctNames, TweakOne, Lookup;
    if n > 0 {
      var (v1, u1) := Tweaked(v, entries, n - 1, inClassBlock, functionLike);
      LookupInside(v, entries, n - 1, inClassBlock, functionLike, x);
      LookupTweaked(v1, u1, entries[n - 1], x, inClassBlock, functionLike);
      EarlierDiffer(entries, n - 1);
    }
  }

  lemma NonePrivate(entries: seq<Entry>, inClassBlock: bool, x: string)
    ensures !PrivateEntry(entries, 0, inClassBlock, x)
  {
  }

  lemma {:induction false} PrivateLast(entries: seq<Entry>, n: nat, inClassBlock: bool, x: string)
    requires 0 < n <= |entries|
    ensures var e := entries[n - 1];
            PrivateEntry(entries, n, inClassBlock, x) <==>
            PrivateEntry(entries, n - 1, inClassBlock, x)
            || (e.name == x && (inClassBlock || (e.symbol.defLocal && !e.symbol.defNonlocal)))
  {
  }

  lemma EarlierDiffer(entries: seq<Entry>, n: nat)
    requires DistinctNames(entries) && n < |entries|
    ensures forall k :: 0 <= k < n ==> entries[k].name != entries[n].name
  {
  }
}
