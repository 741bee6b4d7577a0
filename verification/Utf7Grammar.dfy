// What the UTF-7 decoder accepts, as a grammar over bytes and bits that does
// not mention the decoder: which inputs are texts, what they mean, and where
// and why the others are refused.
module Utf7Grammar {
  import opened Bytes
  import opened ErrorHandlers
  import opened Utf7
  import opened Utf7Proofs

  // ----- alphabets -----

  // n code points from first on.
  function Range(first: int, n: nat): (r: seq<int>)
    ensures |r| == n && forall k :: 0 <= k < n ==> r[k] == first + k
  {
    if n == 0 then [] else Range(first, n - 1) + [first + n - 1]
  }

  // RFC 4648, section 4: A to Z, a to z, 0 to 9, plus and slash.
  function Alphabet(): (r: seq<int>)
    ensures |r| == 64
  {
    Range(65, 26) + Range(97, 26) + Range(48, 10) + [43, 47]
  }

  lemma {:induction false} AlphabetIs(c: Byte)
    ensures IsBase64(c) <==> exists v :: 0 <= v < 64 && Alphabet()[v] == c
    ensures IsBase64(c) ==> Alphabet()[FromBase64(c)] == c
  {
    if IsBase64(c) { assert Alphabet()[FromBase64(c)] == c; }
  }

  lemma {:induction false} AlphabetBack(v: nat)
    requires v < 64
    ensures ToBase64(v) == Alphabet()[v] && FromBase64(Alphabet()[v]) == v
  {
  }

  // The shift character, the one that ends a shift, and the padding.
  lemma {:induction false} ShiftCharacters()
    ensures PLUS as char == '+' && MINUS as char == '-' && PAD as char == '='
  {
  }

  // RFC 2152: letters and digits with this punctuation are set D, the second
  // string is set O; with white space they are what an encoder may leave as it
  // is.
  const PUNCTUATION: string := "'(),-./:?"
  const OPTIONAL: string := "!\"#$%&*;<=>@[]^_`{|}"
  const WHITE: string := "\t\n\r "

  // The encoder leaves all of them, and the tilde, which the RFC excludes.
  lemma {:induction false} DirectIs(c: char)
    ensures IsDirect(c as int) <==>
            || 'A' <= c <= 'Z' || 'a' <= c <= 'z' || '0' <= c <= '9'
            || c in PUNCTUATION || c in OPTIONAL || c in WHITE || c == '~'
  {
  }

  // ----- bits -----

  // The n low bits of v, the highest first.
  function Bits(v: nat, n: nat): (x: seq<bool>)
    ensures |x| == n
  {
    if n == 0 then [] else Bits(v / 2, n - 1) + [v % 2 == 1]
  }

  // The number that bits spell.
  function Val(x: seq<bool>): nat {
    if x == [] then 0 else 2 * Val(x[..|x| - 1]) + if x[|x| - 1] then 1 else 0
  }

  function AllBits(vs: seq<nat>): (x: seq<bool>)
    ensures |x| == 6 * |vs|
  {
    if vs == [] then [] else Bits(vs[0], 6) + AllBits(vs[1..])
  }

  // Sixteen bits make a code unit; fewer than sixteen are left over.
  function Units(x: seq<bool>): seq<int> { if |x| < 16 then [] else [Val(x[..16])] + Units(x[16..]) }

  function Rest(x: seq<bool>): (r: seq<bool>)
    ensures |r| < 16
  {
    if |x| < 16 then x else Rest(x[16..])
  }

  predicate AllZero(x: seq<bool>) { forall k :: 0 <= k < |x| ==> !x[k] }

  // ----- pieces -----

  // The values of the base64 characters from i on: their places in the alphabet.
  function RunFrom(b: seq<Byte>, i: nat): (vs: seq<nat>)
    requires i <= |b|
    ensures i + |vs| <= |b| && (i + |vs| < |b| ==> !IsBase64(b[i + |vs|]))
    ensures forall j :: i <= j < i + |vs| ==> IsBase64(b[j]) && vs[j - i] == FromBase64(b[j])
    decreases |b| - i
  {
    if i < |b| && IsBase64(b[i]) then
      [FromBase64(b[i])] + RunFrom(b, i + 1)
    else []
  }

  // A shifted run that leaves no more than padding: fewer than six bits, all
  // of them zero.
  predicate Padded(x: seq<bool>) { |Rest(x)| < 6 && AllZero(Rest(x)) }

  predicate EndsHigh(u: seq<int>) { u != [] && IsHigh(u[|u| - 1]) }

  // A piece of text stands at s, ends at t and means out.
  ghost predicate PieceAt(b: seq<Byte>, s: nat, t: nat, out: seq<int>) {
    && s < t <= |b|
    && (|| AsciiAt(b, s, t, out)
        || PlusAt(b, s, t, out)
        || RunAt(b, s, t, out))
  }

  // An ASCII character other than plus stands for itself.
  ghost predicate AsciiAt(b: seq<Byte>, s: nat, t: nat, out: seq<int>)
    requires s < t <= |b|
  {
    t == s + 1 && b[s] < 0x80 && b[s] != PLUS && out == [b[s]]
  }

  // "+-" stands for plus.
  ghost predicate PlusAt(b: seq<Byte>, s: nat, t: nat, out: seq<int>)
    requires s < t <= |b|
  {
    t == s + 2 && b[s] == PLUS && b[s + 1] == MINUS && out == [PLUS]
  }

  // A plus, base64 characters that leave only padding, and the end of the
  // run: the end of the input with no surrogate waiting for its second half, a
  // minus, which belongs to the run, or another ASCII character, which does
  // not.
  ghost predicate RunAt(b: seq<Byte>, s: nat, t: nat, out: seq<int>)
    requires s < t <= |b|
  {
    var vs := RunFrom(b, s + 1);
    var x, q := AllBits(vs), s + 1 + |vs|;
    && b[s] == PLUS && Padded(x) && out == Joined(Units(x))
    && (if q == |b| then t == q && !EndsHigh(Units(x))
        else vs != [] && b[q] < 0x80 && t == if b[q] == MINUS then q + 1 else q)
  }

  // b from s on is a concatenation of pieces and means out.
  ghost predicate Means(b: seq<Byte>, s: nat, out: seq<int>)
    requires s <= |b|
    decreases |b| - s
  {
    if s == |b| then out == []
    else exists t: nat, x :: PieceAt(b, s, t, x) && x <= out && Means(b, t, out[|x|..])
  }

  // What stands at s is no piece; the bytes from start up to end are to blame.
  ghost predicate OffendsAt(b: seq<Byte>, s: nat, reason: string, start: nat, end: nat) {
    && s < |b|
    && (if b[s] >= 0x80 then reason == UNEXPECTED && start == s && end == s + 1
        else b[s] == PLUS && BadRun(b, s, reason, start, end))
  }

  ghost predicate BadRun(b: seq<Byte>, s: nat, reason: string, start: nat, end: nat)
    requires s < |b|
  {
    var vs := RunFrom(b, s + 1);
    var x, q := AllBits(vs), s + 1 + |vs|;
    if vs == [] && q < |b| then
      b[q] != MINUS && reason == ILL_FORMED && start == s && end == s + 2
    else if q < |b| then
      && start == q && end == q + 1
      && (if |Rest(x)| >= 6 then reason == PARTIAL
          else if !AllZero(Rest(x)) then reason == PADDING
          else b[q] >= 0x80 && reason == UNEXPECTED)
    else
      && (!Padded(x) || EndsHigh(Units(x)))
      && reason == UNTERMINATED && start == |b| && end == |b|
  }

  // Behind a concatenation of pieces from s on comes the first offence.
  ghost predicate Refused(b: seq<Byte>, s: nat, reason: string, start: nat, end: nat)
    requires s <= |b|
    decreases |b| - s
  {
    || OffendsAt(b, s, reason, start, end)
    || exists t: nat, x :: PieceAt(b, s, t, x) && Refused(b, t, reason, start, end)
  }

  // ----- numbers and bits -----

  lemma {:induction false} ValAppend(x: seq<bool>, y: seq<bool>)
    ensures Val(x + y) == Val(x) * Pow2(|y|) + Val(y) && Val(y) < Pow2(|y|)
    decreases |y|
  {
    if y == [] {
      assert x + y == x;
    } else {
      var front, last := y[..|y| - 1], y[|y| - 1];
      ValAppend(x, front);
      assert (x + y)[..|x + y| - 1] == x + front;
      assert Pow2(|y|) == 2 * Pow2(|front|);
      Doubled(Val(x), Pow2(|front|), Val(front));
    }
  }

  lemma Doubled(a: int, p: int, r: int)
    ensures 2 * (a * p + r) == a * (2 * p) + 2 * r
  {
  }

  lemma {:induction false} ValBits(v: nat, n: nat)
    requires v < Pow2(n)
    ensures Val(Bits(v, n)) == v
    decreases n
  {
    if n > 0 {
      ValBits(v / 2, n - 1);
      assert Bits(v, n)[..n - 1] == Bits(v / 2, n - 1);
    }
  }

  lemma {:induction false} ValZero(x: seq<bool>)
    ensures Val(x) == 0 <==> AllZero(x)
    decreases |x|
  {
    if x != [] {
      var front := x[..|x| - 1];
      ValZero(front);
      assert AllZero(x) ==> AllZero(front);
      if AllZero(front) && !x[|x| - 1] {
        forall k | 0 <= k < |x| ensures !x[k] {
          if k < |x| - 1 { assert !front[k]; }
        }
      }
    }
  }

  lemma {:induction false} Powers()
    ensures Pow2(6) == 64 && Pow2(16) == 0x1_0000
  {
    assert Pow2(3) == 8 && Pow2(5) == 32;
    assert Pow2(8) == 4 * Pow2(6) == 256;
    assert Pow2(11) == 2048 && Pow2(14) == 8 * Pow2(11) == 0x4000;
  }

  lemma DivMod(a: nat, p: nat, r: nat)
    requires r < p && p in {1, 2, 4, 8, 16, 32}
    ensures (a * p + r) / p == a && (a * p + r) % p == r
  {
  }

  lemma {:induction false} SmallPower(k: nat)
    requires k < 6
    ensures Pow2(k) in {1, 2, 4, 8, 16, 32}
  {
    assert Pow2(1) == 2 && Pow2(2) == 4 && Pow2(3) == 8 && Pow2(4) == 16;
  }

  // ----- reading a run -----

  // The decoder between two characters of a run, with the bits x collected.
  function Collected(x: seq<bool>, surr: int): Shift { Shift(true, |x|, Val(x), surr) }

  // Six more bits.
  lemma {:induction false} CollectBits(x: seq<bool>, surr: int, v: nat)
    requires |x| < 16 && v < 64
    ensures var y := x + Bits(v, 6);
            Collect(Collected(x, surr), v) ==
            if |y| < 16 then (Collected(y, surr), [])
            else (Collected(y[16..], Unit(surr, Val(y[..16])).1), Unit(surr, Val(y[..16])).0)
  {
    hide Unit, Bits, Val, Pow2;
    var y := x + Bits(v, 6);
    Powers();
    ValAppend(x, Bits(v, 6));
    ValBits(v, 6);
    if |y| >= 16 {
      var hi, lo := y[..16], y[16..];
      assert y == hi + lo;
      ValAppend(hi, lo);
      ValAppend([], hi);
      assert [] + hi == hi;
      SmallPower(|lo|);
      DivMod(Val(hi), Pow2(|lo|), Val(lo));
    }
  }

  lemma {:induction false} RunReads(b: seq<Byte>, i: nat, x: seq<bool>, surr: int, e: Errors)
    requires i <= |b| && |x| < 16
    ensures var (vs, y) := (RunFrom(b, i), x + AllBits(RunFrom(b, i)));
            var (out, waits) := Feed(Units(y), surr);
            DecodeFrom(b, i, Collected(x, surr), e) == Prepend(out, DecodeFrom(b, i + |vs|, Collected(Rest(y), waits), e))
    decreases |b| - i
  {
    hide DecodeFrom, Collect, Unit, Bits, Val, FromBase64, Units, Rest, Feed;
    var vs := RunFrom(b, i);
    if vs == [] {
      assert x + AllBits(vs) == x;
      FewBits(x, surr);
      PrependNothing(DecodeFrom(b, i, Collected(x, surr), e));
    } else {
      var v, rest := vs[0], RunFrom(b, i + 1);
      assert vs[1..] == rest;
      var y := x + Bits(v, 6);
      assert x + AllBits(vs) == y + AllBits(rest);
      CollectBits(x, surr, v);
      TakeSextet(b, i, Collected(x, surr), e);
      if |y| < 16 {
        RunReads(b, i + 1, y, surr, e);
        PrependNothing(DecodeFrom(b, i + 1, Collected(y, surr), e));
      } else {
        var u := Unit(surr, Val(y[..16]));
        RunReads(b, i + 1, y[16..], u.1, e);
        UnitsCons(y, AllBits(rest), surr);
        var z := y[16..] + AllBits(rest);
        PrependTwice(u.0, Feed(Units(z), u.1).0, DecodeFrom(b, i + |vs|, Collected(Rest(z), Feed(Units(z), u.1).1), e));
      }
    }
  }

  lemma {:induction false} FewBits(x: seq<bool>, surr: int)
    requires |x| < 16
    ensures Units(x) == [] && Rest(x) == x && Feed([], surr) == ([], surr)
  {
  }

  lemma {:induction false} UnitsCons(y: seq<bool>, more: seq<bool>, surr: int)
    requires 16 <= |y|
    ensures var z, u := y[16..] + more, Unit(surr, Val(y[..16]));
            && Rest(y + more) == Rest(z)
            && Feed(Units(y + more), surr) == (u.0 + Feed(Units(z), u.1).0, Feed(Units(z), u.1).1)
  {
    hide Unit, Val;
    var all := y + more;
    assert all[..16] == y[..16] && all[16..] == y[16..] + more;
    var us := Units(all);
    assert us[0] == Val(y[..16]) && us[1..] == Units(all[16..]);
  }

  // A base64 character inside a run.
  lemma {:induction false} TakeSextet(b: seq<Byte>, i: nat, d: Shift, e: Errors)
    requires i < |b| && IsBase64(b[i]) && d.inShift && Settled(d)
    ensures var (d', out) := Collect(d, FromBase64(b[i]));
            DecodeFrom(b, i, d, e) == Prepend(out, DecodeFrom(b, i + 1, d', e))
  {
    hide Collect, FromBase64;
  }

  // ----- code points of a run -----

  lemma {:induction false} UnitsSmall(x: seq<bool>)
    ensures forall k :: 0 <= k < |Units(x)| ==> 0 <= Units(x)[k] < 0x1_0000
    decreases |x|
  {
    hide Val, Pow2;
    if |x| >= 16 {
      UnitsSmall(x[16..]);
      ValAppend([], x[..16]);
      assert [] + x[..16] == x[..16];
      Powers();
    }
  }

  lemma {:induction false} UnitsAlone(u: seq<int>)
    requires forall k :: 0 <= k < |u| ==> 0 <= u[k] < 0x1_0000
    ensures AllCodePoints(u) && AllUtf16(u) == u
    decreases |u|
  {
    if u != [] { UnitsAlone(u[1..]); }
  }

  // A surrogate waits behind the units exactly when the last one is high.
  lemma {:induction false} FeedWaits(u: seq<int>, surr: int)
    requires forall k :: 0 <= k < |u| ==> 0 <= u[k] < 0x1_0000
    ensures Feed(u, surr).1 == if u == [] then surr else if IsHigh(u[|u| - 1]) then u[|u| - 1] else 0
    decreases |u|
  {
    if |u| > 1 { FeedWaits(u[1..], Unit(surr, u[0]).1); }
  }

  // What a whole run gives, with the surrogate that waits behind it.
  lemma {:induction false} FeedRun(x: seq<bool>)
    ensures var u := Units(x);
            var (out, surr) := Feed(u, 0);
            && out + Waiting(surr) == Joined(u)
            && surr == (if EndsHigh(u) then u[|u| - 1] else 0)
            && (!EndsHigh(u) ==> out == Joined(u))
  {
    hide Feed, Joined, Units, AllUtf16, IsHigh, Waiting;
    var u := Units(x);
    UnitsSmall(x);
    UnitsAlone(u);
    FeedJoins(u, 0);
    FeedWaits(u, 0);
    NoneWaits(u, Feed(u, 0).0);
  }

  lemma NoneWaits(u: seq<int>, out: seq<int>)
    ensures Waiting(0) + u == u && out + Waiting(0) == out
  {
  }

  // From the plus to the end of the characters.
  lemma {:induction false} RunCollects(b: seq<Byte>, s: nat, e: Errors)
    requires s < |b| && b[s] == PLUS && (s + 1 < |b| ==> IsBase64(b[s + 1]))
    ensures var vs := RunFrom(b, s + 1);
            var x := AllBits(vs);
            var (out, surr) := Feed(Units(x), 0);
            DecodeFrom(b, s, OUTSIDE, e) == Prepend(out, DecodeFrom(b, s + 1 + |vs|, Collected(Rest(x), surr), e))
  {
    hide DecodeFrom, Collect, Units, Rest, Feed;
    var x := AllBits(RunFrom(b, s + 1));
    OpenRun(b, s, e);
    RunReads(b, s + 1, [], 0, e);
    assert [] + x == x;
  }

  lemma {:induction false} OpenRun(b: seq<Byte>, s: nat, e: Errors)
    requires s < |b| && b[s] == PLUS && (s + 1 < |b| ==> IsBase64(b[s + 1]))
    ensures DecodeFrom(b, s, OUTSIDE, e) == DecodeFrom(b, s + 1, Collected([], 0), e)
  {
    PrependNothing(DecodeFrom(b, s + 1, Shift(true, 0, 0, 0), e));
    assert s + 1 < |b| ==> b[s + 1] != MINUS;
  }

  // ----- pieces decode -----

  // Every piece decodes to what it means, under any handler.
  lemma {:induction false} PieceDecodes(b: seq<Byte>, s: nat, t: nat, out: seq<int>, e: Errors)
    requires PieceAt(b, s, t, out)
    ensures DecodeFrom(b, s, OUTSIDE, e) == Prepend(out, DecodeFrom(b, t, OUTSIDE, e))
  {
    hide DecodeFrom, RunAt;
    if AsciiAt(b, s, t, out) {
      DirectStep(b, s, e);
    } else if PlusAt(b, s, t, out) {
      PlusStep(b, s, e);
    } else {
      RunMeans(b, s, t, out, e);
    }
  }

  lemma {:induction false} DirectStep(b: seq<Byte>, s: nat, e: Errors)
    requires s < |b| && b[s] < 0x80 && b[s] != PLUS
    ensures DecodeFrom(b, s, OUTSIDE, e) == Prepend([b[s]], DecodeFrom(b, s + 1, OUTSIDE, e))
  {
  }

  lemma {:induction false} PlusStep(b: seq<Byte>, s: nat, e: Errors)
    requires s + 1 < |b| && b[s] == PLUS && b[s + 1] == MINUS
    ensures DecodeFrom(b, s, OUTSIDE, e) == Prepend([PLUS], DecodeFrom(b, s + 2, OUTSIDE, e))
  {
  }

  lemma {:induction false} RunMeans(b: seq<Byte>, s: nat, t: nat, out: seq<int>, e: Errors)
    requires s < t <= |b| && RunAt(b, s, t, out)
    ensures DecodeFrom(b, s, OUTSIDE, e) == Prepend(out, DecodeFrom(b, t, OUTSIDE, e))
  {
    hide DecodeFrom, Feed, Units, Rest, Joined, Val;
    var vs := RunFrom(b, s + 1);
    var x, q := AllBits(vs), s + 1 + |vs|;
    var (part, surr) := Feed(Units(x), 0);
    RunCollects(b, s, e);
    FeedRun(x);
    ValZero(Rest(x));
    if q == |b| {
      AtEnd(b, |Rest(x)|, e);
    } else {
      LeaveRun(b, q, |Rest(x)|, surr, e);
      OutsideAlike(b, t, |Rest(x)|, e);
      PrependTwice(part, Waiting(surr), DecodeFrom(b, t, OUTSIDE, e));
    }
  }

  // An open run with nothing pending ends with the input.
  lemma {:induction false} AtEnd(b: seq<Byte>, left: nat, e: Errors)
    requires left < 6
    ensures DecodeFrom(b, |b|, Shift(true, left, 0, 0), e) == Decoded([]) == DecodeFrom(b, |b|, OUTSIDE, e)
  {
  }

  // ----- offences are refused -----

  lemma {:induction false} OffenceFails(b: seq<Byte>, s: nat, reason: string, start: nat, end: nat)
    requires OffendsAt(b, s, reason, start, end)
    ensures DecodeFrom(b, s, OUTSIDE, Strict) == Failed(UnicodeError(reason, start, end))
  {
    hide DecodeFrom, Feed, Units, Rest, AllZero, BadRun;
    if b[s] >= 0x80 {
      HighFails(b, s);
    } else {
      BadRunFails(b, s, reason, start, end);
    }
  }

  lemma {:induction false} HighFails(b: seq<Byte>, s: nat)
    requires s < |b| && b[s] >= 0x80
    ensures DecodeFrom(b, s, OUTSIDE, Strict) == Failed(UnicodeError(UNEXPECTED, s, s + 1))
  {
  }

  lemma {:induction false} BadRunFails(b: seq<Byte>, s: nat, reason: string, start: nat, end: nat)
    requires s < |b| && b[s] == PLUS && BadRun(b, s, reason, start, end)
    ensures DecodeFrom(b, s, OUTSIDE, Strict) == Failed(UnicodeError(reason, start, end))
  {
    hide DecodeFrom, Feed, Units, Rest, AllZero, Val;
    var vs := RunFrom(b, s + 1);
    var x, q := AllBits(vs), s + 1 + |vs|;
    if vs == [] && q < |b| {
      IllFormedFails(b, s);
    } else {
      var (part, surr) := Feed(Units(x), 0);
      RunCollects(b, s, Strict);
      FeedRun(x);
      ValZero(Rest(x));
      if q < |b| {
        BadCloseFails(b, q, Rest(x), surr);
      } else {
        BadEndFails(b, Rest(x), surr);
      }
    }
  }

  lemma {:induction false} IllFormedFails(b: seq<Byte>, s: nat)
    requires s + 1 < |b| && b[s] == PLUS && b[s + 1] != MINUS && !IsBase64(b[s + 1])
    ensures DecodeFrom(b, s, OUTSIDE, Strict) == Failed(UnicodeError(ILL_FORMED, s, s + 2))
  {
  }

  lemma {:induction false} BadCloseFails(b: seq<Byte>, q: nat, x: seq<bool>, surr: int)
    requires q < |b| && !IsBase64(b[q]) && |x| < 16
    ensures |x| >= 6 ==> DecodeFrom(b, q, Collected(x, surr), Strict) == Failed(UnicodeError(PARTIAL, q, q + 1))
    ensures |x| < 6 && Val(x) != 0 ==> DecodeFrom(b, q, Collected(x, surr), Strict) == Failed(UnicodeError(PADDING, q, q + 1))
    ensures |x| < 6 && Val(x) == 0 && b[q] >= 0x80 ==> DecodeFrom(b, q, Collected(x, surr), Strict) == Failed(UnicodeError(UNEXPECTED, q, q + 1))
  {
    if |x| < 6 && Val(x) == 0 && b[q] >= 0x80 {
      HighFails(b, q);
      OutsideAlike(b, q, |x|, Strict);
    }
  }

  lemma {:induction false} BadEndFails(b: seq<Byte>, x: seq<bool>, surr: int)
    requires |x| < 16 && (surr != 0 || |x| >= 6 || Val(x) != 0)
    ensures DecodeFrom(b, |b|, Collected(x, surr), Strict) == Failed(UnicodeError(UNTERMINATED, |b|, |b|))
  {
  }

  // ----- the grammar decides -----

  // A piece or an offence stands wherever the input goes on.
  lemma {:induction false} PieceOrOffence(b: seq<Byte>, s: nat)
    requires s < |b|
    ensures (exists t: nat, x :: PieceAt(b, s, t, x)) || (exists reason, start: nat, end: nat :: OffendsAt(b, s, reason, start, end))
  {
    hide RunAt, BadRun;
    if b[s] >= 0x80 {
      assert OffendsAt(b, s, UNEXPECTED, s, s + 1);
    } else if b[s] != PLUS {
      assert AsciiAt(b, s, s + 1, [b[s]]);
      assert PieceAt(b, s, s + 1, [b[s]]);
    } else if s + 1 < |b| && b[s + 1] == MINUS {
      assert PlusAt(b, s, s + 2, [PLUS]);
      assert PieceAt(b, s, s + 2, [PLUS]);
    } else {
      RunOrBadRun(b, s);
    }
  }

  lemma {:induction false} RunOrBadRun(b: seq<Byte>, s: nat)
    requires s < |b| && b[s] == PLUS && !(s + 1 < |b| && b[s + 1] == MINUS)
    ensures (exists t: nat, x :: PieceAt(b, s, t, x)) || (exists reason, start: nat, end: nat :: OffendsAt(b, s, reason, start, end))
  {
    hide Units, Rest, AllZero, Joined;
    var vs := RunFrom(b, s + 1);
    var x, q := AllBits(vs), s + 1 + |vs|;
    var u := Units(x);
    if vs == [] && q < |b| {
      assert OffendsAt(b, s, ILL_FORMED, s, s + 2);
    } else if q < |b| {
      if |Rest(x)| >= 6 {
        assert OffendsAt(b, s, PARTIAL, q, q + 1);
      } else if !AllZero(Rest(x)) {
        assert OffendsAt(b, s, PADDING, q, q + 1);
      } else if b[q] >= 0x80 {
        assert OffendsAt(b, s, UNEXPECTED, q, q + 1);
      } else {
        assert PieceAt(b, s, if b[q] == MINUS then q + 1 else q, Joined(u));
      }
    } else if Padded(x) && !EndsHigh(u) {
      assert PieceAt(b, s, q, Joined(u));
    } else {
      assert OffendsAt(b, s, UNTERMINATED, |b|, |b|);
    }
  }

  lemma DecodesAtEnd(b: seq<Byte>)
    ensures DecodeFrom(b, |b|, OUTSIDE, Strict) == Decoded([])
  {
  }

  lemma {:induction false} MeansDecodes(b: seq<Byte>, s: nat, out: seq<int>)
    requires s <= |b| && Means(b, s, out)
    ensures DecodeFrom(b, s, OUTSIDE, Strict) == Decoded(out)
    decreases |b| - s
  {
    hide DecodeFrom, AsciiAt, PlusAt, RunAt, OffendsAt;
    if s == |b| {
      DecodesAtEnd(b);
    } else {
      var t: nat, x :| PieceAt(b, s, t, x) && x <= out && Means(b, t, out[|x|..]);
      PieceInside(b, s, t, x);
      PieceDecodes(b, s, t, x, Strict);
      MeansDecodes(b, t, out[|x|..]);
      assert x + out[|x|..] == out;
    }
  }

  lemma PieceInside(b: seq<Byte>, s: nat, t: nat, out: seq<int>)
    requires PieceAt(b, s, t, out)
    ensures s < t <= |b|
  {
  }

  lemma {:induction false} DecodesMeans(b: seq<Byte>, s: nat, out: seq<int>)
    requires s <= |b| && DecodeFrom(b, s, OUTSIDE, Strict) == Decoded(out)
    ensures Means(b, s, out)
    decreases |b| - s
  {
    hide DecodeFrom, PieceAt, OffendsAt;
    if s == |b| {
      DecodesAtEnd(b);
    } else {
      PieceOrOffence(b, s);
      if t: nat, x :| PieceAt(b, s, t, x) {
        PieceInside(b, s, t, x);
        PieceDecodes(b, s, t, x, Strict);
        var rest := DecodeFrom(b, t, OUTSIDE, Strict).text;
        DecodesMeans(b, t, rest);
        assert out[|x|..] == rest;
      } else {
        var reason, start: nat, end: nat :| OffendsAt(b, s, reason, start, end);
        OffenceFails(b, s, reason, start, end);
      }
    }
  }

  lemma {:induction false} RefusedFails(b: seq<Byte>, s: nat, reason: string, start: nat, end: nat)
    requires s <= |b| && Refused(b, s, reason, start, end)
    ensures DecodeFrom(b, s, OUTSIDE, Strict) == Failed(UnicodeError(reason, start, end))
    decreases |b| - s
  {
    hide DecodeFrom, AsciiAt, PlusAt, RunAt, OffendsAt;
    if OffendsAt(b, s, reason, start, end) {
      OffenceFails(b, s, reason, start, end);
    } else {
      var t: nat, x :| PieceAt(b, s, t, x) && Refused(b, t, reason, start, end);
      PieceInside(b, s, t, x);
      PieceDecodes(b, s, t, x, Strict);
      RefusedFails(b, t, reason, start, end);
    }
  }

  lemma {:induction false} FailsRefused(b: seq<Byte>, s: nat)
    requires s <= |b| && DecodeFrom(b, s, OUTSIDE, Strict).Failed?
    ensures var why := DecodeFrom(b, s, OUTSIDE, Strict).why;
            why.UnicodeError? && Refused(b, s, why.reason, why.start, why.end)
    decreases |b| - s
  {
    hide DecodeFrom, PieceAt, OffendsAt;
    if s == |b| {
      DecodesAtEnd(b);
    } else {
      PieceOrOffence(b, s);
      if t: nat, x :| PieceAt(b, s, t, x) {
        PieceInside(b, s, t, x);
        PieceDecodes(b, s, t, x, Strict);
        FailsRefused(b, t);
      } else {
        var reason, start: nat, end: nat :| OffendsAt(b, s, reason, start, end);
        OffenceFails(b, s, reason, start, end);
      }
    }
  }

  // Strict decoding accepts exactly the concatenations of pieces, as what they
  // mean, and refuses the rest for the first offence.
  lemma {:induction false} StrictExactly(b: seq<Byte>)
    ensures forall out :: Decode(b, Strict) == Decoded(out) <==> Means(b, 0, out)
    ensures forall reason, start: nat, end: nat :: Decode(b, Strict) == Failed(UnicodeError(reason, start, end)) <==> Refused(b, 0, reason, start, end)
    ensures Decode(b, Strict).Failed? ==> Decode(b, Strict).why.UnicodeError?
  {
    hide DecodeFrom, Means, Refused;
    forall out ensures Decode(b, Strict) == Decoded(out) <==> Means(b, 0, out) {
      if Means(b, 0, out) { MeansDecodes(b, 0, out); }
      if Decode(b, Strict) == Decoded(out) { DecodesMeans(b, 0, out); }
    }
    if Decode(b, Strict).Failed? { FailsRefused(b, 0); }
    forall reason, start: nat, end: nat
      ensures Decode(b, Strict) == Failed(UnicodeError(reason, start, end)) <==> Refused(b, 0, reason, start, end)
    {
      if Refused(b, 0, reason, start, end) { RefusedFails(b, 0, reason, start, end); }
    }
  }

  // ----- what the encoder writes -----

  lemma {:induction false} InAlphabet(r: int)
    ensures IsBase64(r) <==> exists v :: 0 <= v < 64 && Alphabet()[v] == r
  {
    if 0 <= r < 256 { AlphabetIs(r); }
    if IsBase64(r) { assert 0 <= r < 256; }
  }

  // A run goes up to the next character that need not be shifted, and is
  // closed by a minus exactly at the end and where what follows would be read
  // as part of it.
  lemma {:induction false} ClosesWhenNeeded(runes: seq<int>, i: nat)
    requires AllCodePoints(runes) && i < |runes| && !IsDirect(runes[i]) && runes[i] != PLUS
    ensures var (p, j) := Piece(runes, i);
            && i < j <= |runes| && p != [] && p[0] == PLUS
            && (forall k :: i <= k < j ==> !IsDirect(runes[k]) && runes[k] != PLUS)
            && (j < |runes| ==> IsDirect(runes[j]) || runes[j] == PLUS)
            && (p[|p| - 1] == MINUS <==> j == |runes| || runes[j] == MINUS || exists v :: 0 <= v < 64 && Alphabet()[v] == runes[j])
  {
    hide IsDirect, IsBase64, Alphabet, Base64, Stripped, UnitBytes, RunUnits, Chars;
    var (p, j) := Piece(runes, i);
    var u := RunUnits(runes, i, j);
    var chars, close := Stripped(Base64(UnitBytes(u))), Closing(runes, j);
    assert p == [PLUS] + chars + close;
    if j < |runes| { InAlphabet(runes[j]); }
    RunIsChars(u);
    CharsAreBase64(u);
    MinusIsNone();
  }

  lemma MinusIsNone()
    ensures !IsBase64(MINUS) && PLUS != MINUS
  {
  }

  // Other characters stand as they are, and a plus as "+-".
  lemma {:induction false} PlainPieces(runes: seq<int>, i: nat)
    requires AllCodePoints(runes) && i < |runes|
    ensures runes[i] == PLUS ==> Piece(runes, i) == ([PLUS, MINUS], i + 1)
    ensures runes[i] != PLUS && IsDirect(runes[i]) ==> Piece(runes, i) == ([runes[i]], i + 1)
  {
    hide Base64, Stripped, UnitBytes, RunUnits;
  }
}
