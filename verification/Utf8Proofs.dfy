// What the UTF-8 codec promises: it accepts exactly the well-formed strings of
// the Unicode Standard, replaces maximal subparts, loses no byte under
// surrogateescape (PEP 383), and does not care how the input is cut into
// chunks.
module Utf8Proofs {
  import opened Bytes
  import opened ErrorHandlers
  import opened Utf8

  // ----- well-formed byte sequences (section 3.9, Table 3-7) -----

  predicate Between(x: int, lo: int, hi: int) { lo <= x <= hi }

  // The rows of the table.
  predicate IsUnit(u: seq<Byte>) {
    || (|u| == 1 && Between(u[0], 0x00, 0x7F))
    || (|u| == 2 && Between(u[0], 0xC2, 0xDF) && Between(u[1], 0x80, 0xBF))
    || (|u| == 3 && Between(u[2], 0x80, 0xBF) &&
        (|| (u[0] == 0xE0 && Between(u[1], 0xA0, 0xBF))
         || (Between(u[0], 0xE1, 0xEC) && Between(u[1], 0x80, 0xBF))
         || (u[0] == 0xED && Between(u[1], 0x80, 0x9F))
         || (Between(u[0], 0xEE, 0xEF) && Between(u[1], 0x80, 0xBF))))
    || (|u| == 4 && Between(u[2], 0x80, 0xBF) && Between(u[3], 0x80, 0xBF) &&
        (|| (u[0] == 0xF0 && Between(u[1], 0x90, 0xBF))
         || (Between(u[0], 0xF1, 0xF3) && Between(u[1], 0x80, 0xBF))
         || (u[0] == 0xF4 && Between(u[1], 0x80, 0x8F))))
  }

  // The scalar value of a well-formed sequence (Table 3-6).
  function Scalar(u: seq<Byte>): int
    requires IsUnit(u)
  {
    if |u| == 1 then u[0]
    else if |u| == 2 then Two(u[0], u[1])
    else if |u| == 3 then Three(u[0], u[1], u[2])
    else Four(u[0], u[1], u[2], u[3])
  }

  ghost predicate AllUnits(us: seq<seq<Byte>>) { forall k :: 0 <= k < |us| ==> IsUnit(us[k]) }

  function Join(us: seq<seq<Byte>>): seq<Byte> { if us == [] then [] else us[0] + Join(us[1..]) }

  function Scalars(us: seq<seq<Byte>>): (r: seq<int>)
    requires AllUnits(us)
    ensures |r| == |us|
  {
    seq(|us|, i requires 0 <= i < |us| => Scalar(us[i]))
  }

  ghost predicate WellFormed(b: seq<Byte>) { exists us :: AllUnits(us) && Join(us) == b }

  // ----- characters are units -----

  lemma {:induction false} UnitIsChar(b: seq<Byte>, i: nat, n: nat)
    requires i < i + n <= |b| && IsUnit(b[i .. i + n])
    ensures Scan(b, i) == Char(Scalar(b[i .. i + n]), n)
  {
    hide Two, Three, Four;
    var u := b[i .. i + n];
    assert forall k :: 0 <= k < n ==> u[k] == b[i + k];
    assert u[0] == b[i];
    if n == 4 { FourScalar(b[i], b[i + 1], b[i + 2], b[i + 3]); }
  }

  lemma {:induction false} CharIsUnit(b: seq<Byte>, i: nat)
    requires i < |b| && Scan(b, i).Char?
    ensures var n := Scan(b, i).n;
            IsUnit(b[i .. i + n]) && Scalar(b[i .. i + n]) == Scan(b, i).cp && RuneBytes(Scan(b, i).cp) == b[i .. i + n]
  {
    hide Two, Three, Four, RuneBytes;
    var n := Scan(b, i).n;
    var u := b[i .. i + n];
    assert forall k :: 0 <= k < n ==> u[k] == b[i + k];
    UnitBytes(u);
  }

  // Encoding the scalar value gives the sequence back.
  lemma UnitBytes(u: seq<Byte>)
    requires IsUnit(u)
    ensures IsScalar(Scalar(u)) && RuneBytes(Scalar(u)) == u
  {
    hide Two, Three, Four;
    if |u| == 2 {
      TwoBits(u[0], u[1]);
    } else if |u| == 3 {
      ThreeBits(u[0], u[1], u[2]);
    } else if |u| == 4 {
      FourBits(u[0], u[1], u[2], u[3]);
    }
  }

  lemma TwoBits(a: int, b: int)
    requires 0xC2 <= a <= 0xDF && IsCont(b)
    ensures var r := Two(a, b);
            0x80 <= r < 0x800 && 0xC0 + r / 0x40 == a && 0x80 + r % 0x40 == b
  {
  }

  lemma ThreeBits(a: int, b: int, c: int)
    requires 0xE0 <= a <= 0xEF && Low(a) <= b <= High(a) && IsCont(c)
    ensures var r := Three(a, b, c);
            && 0x800 <= r < 0x1_0000 && !IsSurrogate(r)
            && 0xE0 + r / 0x1000 == a && 0x80 + r / 0x40 % 0x40 == b && 0x80 + r % 0x40 == c
  {
    assert 0x80 <= b <= 0xBF;
    FourDigits(0, a - 0xE0, b - 0x80, c - 0x80);
    assert a % 0x10 == a - 0xE0 && b % 0x40 == b - 0x80 && c % 0x40 == c - 0x80;
  }

  lemma FourBits(a: int, b: int, c: int, d: int)
    requires 0xF0 <= a <= 0xF4 && Low(a) <= b <= High(a) && IsCont(c) && IsCont(d)
    ensures var r := Four(a, b, c, d);
            && 0x1_0000 <= r <= 0x10_FFFF
            && 0xF0 + r / 0x4_0000 == a && 0x80 + r / 0x1000 % 0x40 == b && 0x80 + r / 0x40 % 0x40 == c && 0x80 + r % 0x40 == d
  {
    assert 0x80 <= b <= 0xBF;
    FourDigits(a - 0xF0, b - 0x80, c - 0x80, d - 0x80);
    assert a % 8 == a - 0xF0 && b % 0x40 == b - 0x80 && c % 0x40 == c - 0x80 && d % 0x40 == d - 0x80;
  }

  lemma FourDigits(p: int, q: int, s: int, t: int)
    requires 0 <= p < 8 && 0 <= q < 0x40 && 0 <= s < 0x40 && 0 <= t < 0x40
    ensures var r := p * 0x4_0000 + q * 0x1000 + s * 0x40 + t;
            r / 0x4_0000 == p && r / 0x1000 % 0x40 == q && r / 0x40 % 0x40 == s && r % 0x40 == t
  {
    var r := p * 0x4_0000 + q * 0x1000 + s * 0x40 + t;
    assert r / 0x40 == p * 0x1000 + q * 0x40 + s;
    assert r / 0x1000 == p * 0x40 + q;
  }

  // ----- strict decoding -----

  lemma {:induction false} StrictUnits(b: seq<Byte>, i: nat) returns (us: seq<seq<Byte>>)
    requires i <= |b| && DecodeFrom(b, i, Strict).Decoded?
    ensures AllUnits(us) && Join(us) == b[i..]
    decreases |b| - i
  {
    hide Scan, IsUnit, RuneBytes;
    if i == |b| { return []; }
    CharIsUnit(b, i);
    var n := Scan(b, i).n;
    var rest := StrictUnits(b, i + n);
    us := [b[i .. i + n]] + rest;
    assert us[1..] == rest;
    assert b[i..] == b[i .. i + n] + b[i + n ..];
  }

  // Under any handler.
  lemma {:induction false} UnitsDecode(b: seq<Byte>, i: nat, us: seq<seq<Byte>>, e: Errors)
    requires i <= |b| && AllUnits(us) && b[i..] == Join(us)
    ensures DecodeFrom(b, i, e) == Decoded(b[i..])
    decreases |us|
  {
    hide Scan, RuneBytes;
    if us != [] {
      var u, rest := us[0], Join(us[1..]);
      var n := |u|;
      assert b[i..] == u + rest;
      assert b[i .. i + n] == b[i..][..n] == u;
      assert b[i + n ..] == b[i..][n..] == rest;
      UnitIsChar(b, i, n);
      CharIsUnit(b, i);
      UnitsDecode(b, i + n, us[1..], e);
    }
  }

  // Strict decoding succeeds exactly on well-formed input, which is then its
  // own text.
  lemma {:induction false} StrictIffWellFormed(b: seq<Byte>)
    ensures DecodeFrom(b, 0, Strict).Decoded? <==> WellFormed(b)
    ensures WellFormed(b) ==> DecodeFrom(b, 0, Strict) == Decoded(b)
  {
    assert b[0..] == b;
    if DecodeFrom(b, 0, Strict).Decoded? {
      var us := StrictUnits(b, 0);
      assert AllUnits(us) && Join(us) == b;
    }
    if WellFormed(b) {
      var us :| AllUnits(us) && Join(us) == b;
      UnitsDecode(b, 0, us, Strict);
    }
  }

  lemma {:induction false} WellFormedDecodes(b: seq<Byte>, e: Errors)
    requires WellFormed(b)
    ensures DecodeFrom(b, 0, e) == Decoded(b)
  {
    var us :| AllUnits(us) && Join(us) == b;
    assert b[0..] == b;
    UnitsDecode(b, 0, us, e);
  }

  lemma {:induction false} UnitsRead(b: seq<Byte>, i: nat, us: seq<seq<Byte>>)
    requires i <= |b| && AllUnits(us) && b[i..] == Join(us)
    ensures RunesFrom(b, i) == Scalars(us)
    decreases |us|
  {
    hide LenientStep, RuneBytes, Scalar, IsUnit;
    if us == [] {
    } else {
      var u, rest := us[0], Join(us[1..]);
      var n := |u|;
      assert b[i..] == u + rest;
      assert b[i .. i + n] == b[i..][..n] == u;
      assert b[i + n ..] == b[i..][n..] == rest;
      UnitBytes(u);
      UnitNonempty(u);
      LenientStepBack(b, i, Scalar(u));
      UnitsRead(b, i + n, us[1..]);
      assert Scalars(us) == [Scalar(u)] + Scalars(us[1..]);
    }
  }

  lemma UnitNonempty(u: seq<Byte>)
    requires IsUnit(u)
    ensures 0 < |u|
  {
  }

  // ... and the text reads as the scalar values of the input's sequences.
  lemma {:induction false} StrictReturnsScalars(us: seq<seq<Byte>>)
    requires AllUnits(us)
    ensures DecodeFrom(Join(us), 0, Strict) == Decoded(Join(us))
    ensures RunesFrom(Join(us), 0) == Scalars(us)
  {
    assert Join(us)[0..] == Join(us);
    UnitsDecode(Join(us), 0, us, Strict);
    UnitsRead(Join(us), 0, us);
  }

  // ----- maximal subparts -----

  // s begins some well-formed sequence.
  ghost predicate Initial(s: seq<Byte>) { 0 < |s| && exists u :: IsUnit(u) && s <= u }

  // No well-formed sequence starts at i, and [i, end) is one byte, or begins a
  // well-formed sequence; and nothing longer does.
  ghost predicate MaximalSubpart(b: seq<Byte>, i: nat, end: nat)
    requires i <= |b|
  {
    && i < end <= |b|
    && (forall k: nat :: i <= k <= |b| ==> !IsUnit(b[i .. k]))
    && (end == i + 1 || Initial(b[i .. end]))
    && (forall f: nat :: end < f <= |b| ==> !Initial(b[i .. f]))
  }

  // Initial, read off the bytes.
  predicate Begins(s: seq<Byte>) {
    && 0 < |s| <= 4
    && (|s| == 1 ==> s[0] < 0x80 || 0xC2 <= s[0] < 0xF5)
    && (|s| > 1 ==> 0xC2 <= s[0] < 0xF5 && Low(s[0]) <= s[1] <= High(s[0]) && (s[0] < 0xE0 ==> |s| == 2) && (s[0] < 0xF0 ==> |s| <= 3))
    && (|s| > 2 ==> IsCont(s[2]))
    && (|s| > 3 ==> IsCont(s[3]))
  }

  lemma {:induction false} BeginsIsInitial(s: seq<Byte>)
    ensures Begins(s) <==> Initial(s)
  {
    if Begins(s) {
      var t := if |s| > 1 || s[0] < 0x80 then s else s + [Low(s[0])];
      var u := if t[0] < 0xE0 then t
               else if t[0] < 0xF0 then (if |t| == 2 then t + [0x80] else t)
               else if |t| == 2 then t + [0x80, 0x80] else if |t| == 3 then t + [0x80] else t;
      assert IsUnit(u) && s <= u;
    }
    if Initial(s) {
      var u :| IsUnit(u) && s <= u;
      assert forall k :: 0 <= k < |s| ==> s[k] == u[k];
    }
  }

  lemma {:induction false} ScanIsMaximal(b: seq<Byte>, i: nat)
    requires i < |b| && Scan(b, i).Bad?
    ensures MaximalSubpart(b, i, Scan(b, i).end)
  {
    hide Two, Three, Four;
    var end := Scan(b, i).end;
    forall k: nat | i <= k <= |b| ensures !IsUnit(b[i .. k]) {
      if IsUnit(b[i .. k]) {
        UnitNonempty(b[i .. k]);
        assert b[i .. i + (k - i)] == b[i .. k];
        UnitIsChar(b, i, k - i);
      }
    }
    BadBegins(b, i);
    if end > i + 1 { BeginsIsInitial(b[i .. end]); }
    forall f: nat | end < f <= |b| ensures !Initial(b[i .. f]) {
      BadEnds(b, i, f);
      BeginsIsInitial(b[i .. f]);
    }
  }

  lemma {:induction false} BadBegins(b: seq<Byte>, i: nat)
    requires i < |b| && Scan(b, i).Bad?
    ensures Scan(b, i).end > i + 1 ==> Begins(b[i .. Scan(b, i).end])
  {
    hide Two, Three, Four;
    var end := Scan(b, i).end;
    var s := b[i .. end];
    assert forall k :: 0 <= k < |s| ==> s[k] == b[i + k];
    NeverFour(b, i);
  }

  // Four bytes in range always make a character.
  lemma {:induction false} NeverFour(b: seq<Byte>, i: nat)
    requires i < |b| && Scan(b, i).Bad?
    ensures Scan(b, i).end <= i + 3
  {
    hide Two, Three, Four;
    if 0xF0 <= b[i] < 0xF5 && i + 1 < |b| && Low(b[i]) <= b[i + 1] <= High(b[i]) {
      var j := ContEnd(b, i + 2, i + 4);
      if j == i + 4 { FourScalar(b[i], b[i + 1], b[i + 2], b[i + 3]); }
    }
  }

  lemma {:induction false} BadEnds(b: seq<Byte>, i: nat, f: nat)
    requires i < |b| && Scan(b, i).Bad? && Scan(b, i).end < f <= |b|
    ensures !Begins(b[i .. f])
  {
    hide Two, Three, Four;
    var s := b[i .. f];
    assert forall k :: 0 <= k < |s| ==> s[k] == b[i + k];
    NeverFour(b, i);
  }

  // What a decoder reads at one place: a well-formed sequence or a region.
  datatype Segment = Unit(u: seq<Byte>) | Subpart(s: seq<Byte>)

  function Segments(b: seq<Byte>, i: nat): seq<Segment>
    requires i <= |b|
    decreases |b| - i
  {
    if i == |b| then []
    else
      match Scan(b, i)
      case Char(_, n) => [Unit(b[i .. i + n])] + Segments(b, i + n)
      case Bad(end, _) => [Subpart(b[i .. end])] + Segments(b, end)
  }

  function SourceBytes(s: Segment): seq<Byte> { if s.Unit? then s.u else s.s }

  function SegmentBytes(segs: seq<Segment>): seq<Byte> { if segs == [] then [] else SourceBytes(segs[0]) + SegmentBytes(segs[1..]) }

  // Each region gives one U+FFFD, everything else itself.
  function Replaced(segs: seq<Segment>): seq<Byte> {
    if segs == [] then [] else (if segs[0].Unit? then segs[0].u else RuneBytes(RUNE_ERROR)) + Replaced(segs[1..])
  }

  // segs cuts b from i on into well-formed sequences and maximal subparts.
  ghost predicate Cuts(b: seq<Byte>, i: nat, segs: seq<Segment>)
    requires i <= |b|
    decreases |segs|
  {
    if segs == [] then i == |b|
    else
      var n := |SourceBytes(segs[0])|;
      && i + n <= |b| && b[i .. i + n] == SourceBytes(segs[0])
      && (if segs[0].Unit? then IsUnit(segs[0].u) else MaximalSubpart(b, i, i + n))
      && Cuts(b, i + n, segs[1..])
  }

  // One step of the decoder.
  lemma {:induction false} DecodeStep(b: seq<Byte>, i: nat, e: Errors)
    requires i < |b|
    ensures var step := Scan(b, i);
            && (step.Char? ==> DecodeFrom(b, i, e) == Prepend(RuneBytes(step.cp), DecodeFrom(b, i + step.n, e)))
            && (step.Bad? && e == Replace ==> DecodeFrom(b, i, e) == Prepend(RuneBytes(RUNE_ERROR), DecodeFrom(b, step.end, e)))
            && (step.Bad? && e == SurrogateEscape && AllHigh(b[i .. step.end]) ==>
                 var runes := EscapeRunes(b[i .. step.end]);
                 DecodeFrom(b, i, e) == Prepend(Text(runes, |runes|), DecodeFrom(b, step.end, e)))
  {
    hide Scan, RuneBytes, Text;
  }

  lemma CutsNothing(b: seq<Byte>)
    ensures Cuts(b, |b|, []) && Replaced([]) == []
  {
  }

  lemma {:induction false} CutsCons(b: seq<Byte>, i: nat, seg: Segment, rest: seq<Segment>)
    requires var n := |SourceBytes(seg)|;
             i + n <= |b| && b[i .. i + n] == SourceBytes(seg) && Cuts(b, i + n, rest)
             && (if seg.Unit? then IsUnit(seg.u) else MaximalSubpart(b, i, i + n))
    ensures Cuts(b, i, [seg] + rest)
    ensures Replaced([seg] + rest) == (if seg.Unit? then seg.u else RuneBytes(RUNE_ERROR)) + Replaced(rest)
  {
    hide IsUnit, MaximalSubpart, RuneBytes;
    assert ([seg] + rest)[1..] == rest;
  }

  // Under replace, decoding gives one U+FFFD per maximal subpart of an
  // ill-formed subsequence and keeps all well-formed sequences.
  lemma {:induction false} ReplacesMaximalSubparts(b: seq<Byte>, i: nat)
    requires i <= |b|
    ensures Cuts(b, i, Segments(b, i)) && DecodeFrom(b, i, Replace) == Decoded(Replaced(Segments(b, i)))
    decreases |b| - i
  {
    hide Scan, IsUnit, MaximalSubpart, RuneBytes, DecodeFrom, Cuts, Replaced;
    if i == |b| {
      DecodeEnd(b, Replace);
      CutsNothing(b);
    } else {
      var step := Scan(b, i);
      DecodeStep(b, i, Replace);
      if step.Char? {
        CharIsUnit(b, i);
        ReplacesMaximalSubparts(b, i + step.n);
        CutsCons(b, i, Unit(b[i .. i + step.n]), Segments(b, i + step.n));
      } else {
        ScanIsMaximal(b, i);
        ReplacesMaximalSubparts(b, step.end);
        CutsCons(b, i, Subpart(b[i .. step.end]), Segments(b, step.end));
      }
    }
  }

  lemma DecodeEnd(b: seq<Byte>, e: Errors)
    ensures DecodeFrom(b, |b|, e) == Decoded([])
  {
  }

  // ----- PEP 383 -----

  // Code points of b from i on, undecodable bytes as lone surrogates.
  function SmuggledRunes(b: seq<Byte>, i: nat): (r: seq<int>)
    requires i <= |b|
    ensures forall k :: 0 <= k < |r| ==> IsScalar(r[k]) || 0xDC00 <= r[k] <= 0xDCFF
    decreases |b| - i
  {
    if i == |b| then []
    else
      match Scan(b, i)
      case Char(cp, n) => [cp] + SmuggledRunes(b, i + n)
      case Bad(end, _) => EscapeRunes(b[i .. end]) + SmuggledRunes(b, end)
  }

  lemma {:induction false} RegionsAreHigh(b: seq<Byte>, i: nat)
    requires i < |b| && Scan(b, i).Bad?
    ensures AllHigh(b[i .. Scan(b, i).end])
  {
    hide Two, Three, Four;
    NeverFour(b, i);
    var end := Scan(b, i).end;
    forall k | 0 <= k < end - i ensures 0x80 <= b[i .. end][k] {
      assert b[i .. end][k] == b[i + k];
    }
  }



  lemma {:induction false} TextJoin(x: seq<int>, y: seq<int>, n: nat)
    requires AllCodePoints(x) && AllCodePoints(y) && n <= |y|
    ensures AllCodePoints(x + y) && Text(x + y, |x| + n) == Text(x, |x|) + Text(y, n)
    decreases n
  {
    hide RuneBytes;
    if n == 0 {
      TextOfPrefix(x, y, |x|);
      assert Text(x, |x|) + [] == Text(x, |x|);
    } else {
      TextJoin(x, y, n - 1);
      assert (x + y)[|x| + n - 1] == y[n - 1];
      assert Text(x, |x|) + (Text(y, n - 1) + RuneBytes(y[n - 1])) == Text(x, |x|) + Text(y, n - 1) + RuneBytes(y[n - 1]);
    }
  }

  lemma {:induction false} TextOfPrefix(x: seq<int>, y: seq<int>, n: nat)
    requires AllCodePoints(x) && AllCodePoints(y) && n <= |x|
    ensures AllCodePoints(x + y) && Text(x + y, n) == Text(x, n)
    decreases n
  {
    hide RuneBytes;
    if n > 0 {
      TextOfPrefix(x, y, n - 1);
      assert (x + y)[n - 1] == x[n - 1];
    }
  }

  lemma {:induction false} EscapeDecodes(b: seq<Byte>, i: nat)
    requires i <= |b|
    ensures var rs := SmuggledRunes(b, i);
            AllCodePoints(rs) && DecodeFrom(b, i, SurrogateEscape) == Decoded(Text(rs, |rs|))
    decreases |b| - i
  {
    hide Scan, RuneBytes, DecodeFrom, Text, EscapeRunes;
    if i == |b| {
      DecodeEnd(b, SurrogateEscape);
      NoText();
    } else {
      var step := Scan(b, i);
      DecodeStep(b, i, SurrogateEscape);
      if step.Char? {
        EscapeDecodes(b, i + step.n);
        var rest := SmuggledRunes(b, i + step.n);
        TextJoin([step.cp], rest, |rest|);
        OneRune(step.cp);
      } else {
        RegionsAreHigh(b, i);
        EscapeDecodes(b, step.end);
        var rest := SmuggledRunes(b, step.end);
        TextJoin(EscapeRunes(b[i .. step.end]), rest, |rest|);
      }
    }
  }

  lemma NoText()
    ensures Text([], 0) == []
  {
  }

  lemma OneRune(r: int)
    requires IsCodePoint(r)
    ensures Text([r], 1) == RuneBytes(r)
  {
    assert Text([r], 0) + RuneBytes(r) == RuneBytes(r);
  }

  // What surrogateescape makes of code points: bytes of scalars, and the byte
  // behind each smuggled surrogate.
  function Unsmuggled(rs: seq<int>): seq<Byte>
    requires forall k :: 0 <= k < |rs| ==> IsScalar(rs[k]) || 0xDC80 <= rs[k] <= 0xDCFF
  {
    if rs == [] then []
    else (if IsScalar(rs[0]) then RuneBytes(rs[0]) else [rs[0] - 0xDC00]) + Unsmuggled(rs[1..])
  }

  ghost predicate Smuggles(rs: seq<int>) { forall k :: 0 <= k < |rs| ==> IsScalar(rs[k]) || 0xDC80 <= rs[k] <= 0xDCFF }

  lemma {:induction false} EncodesUnsmuggled(rs: seq<int>, i: nat)
    requires i <= |rs| && Smuggles(rs)
    ensures EncodeFrom(rs, i, SurrogateEscape) == Decoded(Unsmuggled(rs[i..]))
    decreases |rs| - i
  {
    hide RuneBytes;
    if i < |rs| {
      EncodesUnsmuggled(rs, i + 1);
      assert rs[i..][1..] == rs[i + 1 ..];
    }
  }

  lemma {:induction false} UnsmuggledEscapes(s: seq<Byte>, rest: seq<int>)
    requires AllHigh(s) && Smuggles(rest)
    ensures Smuggles(EscapeRunes(s) + rest) && Unsmuggled(EscapeRunes(s) + rest) == s + Unsmuggled(rest)
    decreases |s|
  {
    var all := EscapeRunes(s) + rest;
    if s == [] {
      assert all == rest;
    } else {
      UnsmuggledEscapes(s[1..], rest);
      assert EscapeRunes(s)[1..] == EscapeRunes(s[1..]);
      assert all[1..] == EscapeRunes(s)[1..] + rest;
      assert [s[0]] + (s[1..] + Unsmuggled(rest)) == s + Unsmuggled(rest);
    }
  }

  lemma {:induction false} SmuggledBack(b: seq<Byte>, i: nat)
    requires i <= |b|
    ensures Smuggles(SmuggledRunes(b, i)) && Unsmuggled(SmuggledRunes(b, i)) == b[i..]
    decreases |b| - i
  {
    hide Scan, RuneBytes, Unsmuggled, EscapeRunes;
    NothingSmuggled();
    if i < |b| {
      var step := Scan(b, i);
      if step.Char? {
        CharIsUnit(b, i);
        SmuggledBack(b, i + step.n);
        UnsmuggledScalar(step.cp, SmuggledRunes(b, i + step.n));
        Rejoin(b, i, i + step.n);
      } else {
        RegionsAreHigh(b, i);
        SmuggledBack(b, step.end);
        UnsmuggledEscapes(b[i .. step.end], SmuggledRunes(b, step.end));
        Rejoin(b, i, step.end);
      }
    } else {
      assert b[i..] == [];
    }
  }

  lemma NothingSmuggled()
    ensures Unsmuggled([]) == []
  {
  }

  lemma UnsmuggledScalar(cp: int, rest: seq<int>)
    requires IsScalar(cp) && Smuggles(rest)
    ensures Smuggles([cp] + rest) && Unsmuggled([cp] + rest) == RuneBytes(cp) + Unsmuggled(rest)
  {
    assert ([cp] + rest)[1..] == rest;
  }

  lemma Rejoin(b: seq<Byte>, i: nat, j: nat)
    requires i <= j <= |b|
    ensures b[i .. j] + b[j..] == b[i..]
  {
  }

  // Every byte string comes back: decode and encode with surrogateescape.
  lemma {:induction false} SurrogateEscapeRoundTrip(b: seq<Byte>)
    ensures DecodeFrom(b, 0, SurrogateEscape).Decoded?
    ensures Encode(DecodeFrom(b, 0, SurrogateEscape).text, SurrogateEscape) == Decoded(b)
  {
    var rs := SmuggledRunes(b, 0);
    EscapeDecodes(b, 0);
    TextRoundTrip(rs);
    SmuggledBack(b, 0);
    EncodesUnsmuggled(rs, 0);
    assert rs[0..] == rs && b[0..] == b;
  }

  // ----- chunks -----

  // Equal texts, or both refused.
  predicate Same(r: Outcome<Byte>, s: Outcome<Byte>) { if r.Decoded? then r == s else s.Failed? }

  // First r, then s.
  function Then(r: Outcome<Byte>, s: Outcome<Byte>): Outcome<Byte> { if r.Decoded? then Prepend(r.text, s) else r }

  // b can be cut at p: what stands before p reads the same without the rest.
  ghost predicate CanCut(b: seq<Byte>, p: nat) {
    p <= |b| && (p == |b| || !IsCont(b[p]) || Trail(b[..p]) == 0)
  }

  // Looking back over continuation bytes finds the start byte.
  lemma {:induction false} TrailFinds(x: seq<Byte>, i: nat, k: nat)
    requires i <= k < |x| <= i + 3 && 0xC0 <= x[i] && forall m :: i < m <= k ==> IsCont(x[m])
    ensures TrailFrom(x, k) == if |x| - i < Needed(x[i]) then |x| - i else 0
    decreases k - i
  {
    if i < k { TrailFinds(x, i, k - 1); }
  }

  // A start byte with only continuation bytes up to a cut: too few for it to
  // reach across.
  lemma {:induction false} NothingPends(b: seq<Byte>, p: nat, i: nat)
    requires CanCut(b, p) && i < p < |b| && 0xC0 <= b[i] && p <= i + 3
    requires forall m :: i < m <= p ==> IsCont(b[m])
    ensures Needed(b[i]) <= p - i
  {
    var x := b[..p];
    assert x[i] == b[i] && forall m :: i < m < p ==> x[m] == b[m];
    TrailFinds(x, i, p - 1);
  }

  // Scanning before a cut does not see across it.
  lemma {:induction false} ScanBeforeCut(b: seq<Byte>, p: nat, i: nat)
    requires CanCut(b, p) && i < p
    ensures var s, t := Scan(b, i), Scan(b[..p], i);
            && (s.Char? ==> i + s.n <= p && t == s)
            && (s.Bad? ==> s.end <= p && t.Bad? && t.end == s.end)
  {
    hide Two, Three, Four, Trail;
    var x := b[..p];
    assert forall m :: 0 <= m < p ==> x[m] == b[m];
    if 0xC2 <= b[i] < 0xE0 {
      if i + 1 == p < |b| && IsCont(b[p]) { NothingPends(b, p, i); }
    } else if 0xE0 <= b[i] < 0xF0 {
      ThreeBeforeCut(b, p, i);
    } else if 0xF0 <= b[i] < 0xF5 {
      FourBeforeCut(b, p, i);
    }
  }

  lemma {:induction false} ThreeBeforeCut(b: seq<Byte>, p: nat, i: nat)
    requires CanCut(b, p) && i < p && 0xE0 <= b[i] < 0xF0
    ensures var s, t := ScanThree(b, i), ScanThree(b[..p], i);
            && (s.Char? ==> i + s.n <= p && t == s)
            && (s.Bad? ==> s.end <= p && t.Bad? && t.end == s.end)
  {
    hide Two, Three, Four, Trail;
    var x := b[..p];
    assert forall m :: 0 <= m < p ==> x[m] == b[m];
    if i + 1 == p < |b| && IsCont(b[p]) { NothingPends(b, p, i); }
    if i + 2 == p < |b| && IsCont(b[p - 1]) && IsCont(b[p]) { NothingPends(b, p, i); }
  }

  lemma {:induction false} FourBeforeCut(b: seq<Byte>, p: nat, i: nat)
    requires CanCut(b, p) && i < p && 0xF0 <= b[i] < 0xF5
    ensures var s, t := ScanFour(b, i), ScanFour(b[..p], i);
            && (s.Char? ==> i + s.n <= p && t == s)
            && (s.Bad? ==> s.end <= p && t.Bad? && t.end == s.end)
  {
    hide Two, Three, Four, Trail;
    var x := b[..p];
    assert forall m :: 0 <= m < p ==> x[m] == b[m];
    if i + 1 == p < |b| && IsCont(b[p]) { NothingPends(b, p, i); }
    if i + 2 <= p && Low(b[i]) <= b[i + 1] <= High(b[i]) {
      ContEndBeforeCut(b, p, i);
    }
  }

  lemma {:induction false} ContEndBeforeCut(b: seq<Byte>, p: nat, i: nat)
    requires CanCut(b, p) && i + 2 <= p && 0xF0 <= b[i] < 0xF5 && IsCont(b[i + 1])
    ensures ContEnd(b, i + 2, i + 4) <= p && ContEnd(b[..p], i + 2, i + 4) == ContEnd(b, i + 2, i + 4)
  {
    hide Trail;
    var j := ContEnd(b, i + 2, i + 4);
    if j > p { NothingPends(b, p, i); }
    ContEndCut(b, p, i + 2, i + 4);
  }

  lemma {:induction false} ContEndCut(b: seq<Byte>, p: nat, j: nat, limit: nat)
    requires j <= p <= |b| && j <= limit && ContEnd(b, j, limit) <= p
    ensures ContEnd(b[..p], j, limit) == ContEnd(b, j, limit)
    decreases limit - j
  {
    if j < |b| && j < limit && IsCont(b[j]) { ContEndCut(b, p, j + 1, limit); }
  }

  // Handlers look at the bytes of their region only; surrogatepass also at the
  // two bytes behind its first, and then it takes them all.
  lemma {:induction false} HandleBeforeCut(b: seq<Byte>, p: nat, i: nat, end: nat, e: Errors, r1: string, r2: string)
    requires CanCut(b, p) && i < end <= p
    ensures var s, t := HandleDecode(e, r1, b, i, end), HandleDecode(e, r2, b[..p], i, end);
            if s.Answer? then t == s && s.newpos <= p else t.Raised?
  {
    hide Three, RuneBytes, Text, EscapedBytes, Trail;
    var x := b[..p];
    assert x[i .. end] == b[i .. end];
    assert forall m :: 0 <= m < p ==> x[m] == b[m];
    if e == SurrogatePass && b[i] == 0xED && p < i + 3 <= |b| && IsCont(b[i + 1]) && IsCont(b[i + 2]) {
      NothingPends(b, p, i);
    }
  }

  lemma {:induction false} DecodeBeforeCut(b: seq<Byte>, p: nat, i: nat, e: Errors)
    requires CanCut(b, p) && i <= p
    ensures Same(Then(DecodeFrom(b[..p], i, e), DecodeFrom(b, p, e)), DecodeFrom(b, i, e))
    decreases p - i
  {
    hide Scan, HandleDecode, RuneBytes, CanCut;
    if i == p {
      CutBounds(b, p);
      assert forall t: seq<Byte> :: [] + t == t;
    } else {
      CutBounds(b, p);
      ScanBeforeCut(b, p, i);
      var s, t := Scan(b, i), Scan(b[..p], i);
      if s.Char? {
        DecodeBeforeCut(b, p, i + s.n, e);
        ThenPrepend(RuneBytes(s.cp), DecodeFrom(b[..p], i + s.n, e), DecodeFrom(b, p, e));
      } else {
        HandleBeforeCut(b, p, i, s.end, e, s.reason, t.reason);
        var h := HandleDecode(e, s.reason, b, i, s.end);
        if h.Answer? {
          DecodeBeforeCut(b, p, h.newpos, e);
          ThenPrepend(h.rep, DecodeFrom(b[..p], h.newpos, e), DecodeFrom(b, p, e));
        }
      }
    }
  }

  lemma CutBounds(b: seq<Byte>, p: nat)
    requires CanCut(b, p)
    ensures p <= |b|
  {
  }

  lemma ThenPrepend(s: seq<Byte>, r: Outcome<Byte>, t: Outcome<Byte>)
    ensures Then(Prepend(s, r), t) == Prepend(s, Then(r, t))
  {
    if r.Decoded? { PrependTwice(s, r.text, t); }
  }

  // Decoding starts afresh behind a cut.
  lemma {:induction false} ScanShift(b: seq<Byte>, p: nat, i: nat)
    requires p <= |b| && i < |b| - p
    ensures var s, t := Scan(b, p + i), Scan(b[p..], i);
            if s.Char? then t == s else t.Bad? && t.end + p == s.end && t.reason == s.reason
  {
    hide Two, Three, Four;
    var y := b[p..];
    assert forall m :: 0 <= m < |y| ==> y[m] == b[p + m];
    if 0xF0 <= b[p + i] < 0xF5 && i + 2 <= |y| { ContEndShift(b, p, i + 2, i + 4); }
  }

  lemma {:induction false} ContEndShift(b: seq<Byte>, p: nat, j: nat, limit: nat)
    requires p + j <= |b| && j <= limit
    ensures ContEnd(b[p..], j, limit) + p == ContEnd(b, p + j, p + limit)
    decreases limit - j
  {
    if p + j < |b| && j < limit && IsCont(b[p + j]) { ContEndShift(b, p, j + 1, limit); }
  }

  lemma {:induction false} DecodeShift(b: seq<Byte>, p: nat, i: nat, e: Errors)
    requires p <= |b| && i <= |b| - p
    ensures Same(DecodeFrom(b[p..], i, e), DecodeFrom(b, p + i, e))
    decreases |b| - p - i
  {
    hide Scan, HandleDecode, RuneBytes;
    if i < |b| - p {
      ScanShift(b, p, i);
      var s, t := Scan(b, p + i), Scan(b[p..], i);
      if s.Char? {
        DecodeShift(b, p, i + s.n, e);
      } else {
        HandleShift(b, p, i, t.end, e, t.reason);
        var h := HandleDecode(e, t.reason, b[p..], i, t.end);
        if h.Answer? { DecodeShift(b, p, h.newpos, e); }
      }
    }
  }

  lemma {:induction false} HandleShift(b: seq<Byte>, p: nat, i: nat, end: nat, e: Errors, reason: string)
    requires p <= |b| && i < end <= |b| - p
    ensures var s, t := HandleDecode(e, reason, b[p..], i, end), HandleDecode(e, reason, b, p + i, p + end);
            if s.Answer? then t == Answer(s.rep, p + s.newpos) else t.Raised?
  {
    hide Three, RuneBytes, Text, EscapedBytes;
    assert b[p..][i .. end] == b[p + i .. p + end];
    assert forall m :: 0 <= m < |b| - p ==> b[p..][m] == b[p + m];
  }

  // One buffer: decode up to the unfinished trail, keep the trail.
  lemma {:induction false} IncrementalStep(x: seq<Byte>, y: seq<Byte>, e: Errors)
    ensures var (r, rest) := Incremental(x, e, false);
            Same(Then(r, DecodeFrom(rest + y, 0, e)), DecodeFrom(x + y, 0, e))
  {
    hide DecodeFrom;
    var p := |x| - Trail(x);
    var b := x + y;
    TrailCut(x, y);
    DecodeBeforeCut(b, p, 0, e);
    DecodeShift(b, p, 0, e);
    assert b[..p] == x[..p];
    assert b[p..] == x[p..] + y;
  }

  lemma {:induction false} TrailCut(x: seq<Byte>, y: seq<Byte>)
    ensures CanCut(x + y, |x| - Trail(x))
  {
    var p := |x| - Trail(x);
    var b := x + y;
    if Trail(x) == 0 {
      assert b[..p] == x;
    } else {
      TrailIsStart(x, |x| - 1);
      assert b[p] == x[p];
    }
  }

  lemma {:induction false} TrailIsStart(x: seq<Byte>, i: int)
    requires -1 <= i < |x| && TrailFrom(x, i) > 0
    ensures 0xC0 <= x[|x| - TrailFrom(x, i)]
    decreases i + 1
  {
    if i >= 0 && 0x80 <= x[i] < 0xC0 { TrailIsStart(x, i - 1); }
  }

  // Feeding chunks one by one, each behind what the last call returned, the
  // last one as final.
  function Feed(chunks: seq<seq<Byte>>, pending: seq<Byte>, e: Errors): Outcome<Byte>
    requires 0 < |chunks|
    decreases |chunks|
  {
    if |chunks| == 1 then Incremental(pending + chunks[0], e, true).0
    else
      var (r, rest) := Incremental(pending + chunks[0], e, false);
      Then(r, Feed(chunks[1..], rest, e))
  }

  // However the input is cut, and whatever the error handler, the texts of the
  // pieces make up the text of the whole, and one is refused iff the other is.
  lemma {:induction false} ChunksDoNotMatter(chunks: seq<seq<Byte>>, pending: seq<Byte>, e: Errors)
    requires 0 < |chunks|
    ensures Same(Feed(chunks, pending, e), DecodeFrom(pending + Join(chunks), 0, e))
    decreases |chunks|
  {
    hide DecodeFrom;
    var x := pending + chunks[0];
    if |chunks| == 1 {
      assert Join(chunks) == chunks[0] + [] == chunks[0];
    } else {
      var (r, rest) := Incremental(x, e, false);
      var y := Join(chunks[1..]);
      ChunksDoNotMatter(chunks[1..], rest, e);
      IncrementalStep(x, y, e);
      assert pending + Join(chunks) == x + y;
    }
  }

  // ----- what is held back -----

  // How many bytes a start byte announces, itself included: the number of
  // leading ones in it, of which the decoder reads no more than four.
  function Announced(c: Byte): nat { if c / 0x20 == 6 then 2 else if c / 0x10 == 14 then 3 else 4 }

  // The last n bytes are a start byte and fewer continuation bytes than it
  // announces.
  ghost predicate Unfinished(b: seq<Byte>, n: nat) {
    && 0 < n <= |b| && 0xC0 <= b[|b| - n] && n < Announced(b[|b| - n])
    && forall k :: |b| - n < k < |b| ==> IsCont(b[k])
  }

  // Before a continuation byte at the end of the walk there is no tail.
  lemma {:induction false} NotUnfinished(b: seq<Byte>, i: nat, n: nat)
    requires i < |b| && Unfinished(b, n) && forall k :: i < k < |b| ==> IsCont(b[k])
    ensures |b| - n <= i && (|b| - n < i ==> IsCont(b[i]))
  {
  }

  lemma {:induction false} TrailBack(b: seq<Byte>, i: int)
    requires -1 <= i < |b| && forall k :: i < k < |b| ==> IsCont(b[k])
    ensures var n := TrailFrom(b, i); n > 0 ==> Unfinished(b, n)
    ensures forall n :: Unfinished(b, n) ==> TrailFrom(b, i) == n
    decreases i + 1
  {
    if i >= 0 && i >= |b| - 4 && IsCont(b[i]) {
      TrailBack(b, i - 1);
    } else {
      forall n | Unfinished(b, n) ensures TrailFrom(b, i) == n {
        if i >= 0 { NotUnfinished(b, i, n); }
      }
    }
  }

  // What is held back is exactly the unfinished tail.
  lemma {:induction false} TrailExactly(b: seq<Byte>)
    ensures Trail(b) > 0 ==> Unfinished(b, Trail(b))
    ensures forall n :: Unfinished(b, n) ==> Trail(b) == n
  {
    TrailBack(b, |b| - 1);
  }

  // ... in the terms of one call: a rest is an unfinished tail of the input,
  // and an input with such a tail gives back just that.
  lemma {:induction false} HoldsBackUnfinished(x: seq<Byte>, e: Errors)
    ensures var rest := Incremental(x, e, false).1;
            && (rest != [] ==> Unfinished(x, |rest|) && x[|x| - |rest| ..] == rest)
            && (forall n :: Unfinished(x, n) ==> rest == x[|x| - n ..])
  {
    TrailExactly(x);
  }

  lemma {:induction false} UnitsEnd(us: seq<seq<Byte>>)
    requires AllUnits(us) && us != []
    ensures var u := us[|us| - 1]; 0 < |u| <= |Join(us)| && Join(us)[|Join(us)| - |u| ..] == u
    decreases |us|
  {
    hide IsUnit;
    UnitNonempty(us[|us| - 1]);
    if |us| == 1 {
      assert us[1..] == [] && Join(us) == us[0];
    } else {
      var rest, u := Join(us[1..]), us[|us| - 1];
      UnitsEnd(us[1..]);
      assert us[1..][|us[1..]| - 1] == u;
      assert (us[0] + rest)[|us[0]| + (|rest| - |u|) ..] == rest[|rest| - |u| ..];
    }
  }

  lemma {:induction false} UnitIsFinished(u: seq<Byte>)
    requires IsUnit(u)
    ensures u[0] < 0xC0 ==> |u| == 1 && u[0] < 0x80
    ensures 0xC0 <= u[0] ==> Announced(u[0]) == |u|
    ensures forall k :: 0 < k < |u| ==> IsCont(u[k])
  {
  }

  // Nothing of a well-formed text is unfinished.
  lemma {:induction false} WellFormedIsFinished(x: seq<Byte>, n: nat)
    requires WellFormed(x)
    ensures !Unfinished(x, n)
  {
    hide IsUnit, Announced, Join;
    var us :| AllUnits(us) && Join(us) == x;
    if us != [] {
      UnitsEnd(us);
      var u := us[|us| - 1];
      var at := |x| - |u|;
      assert forall k :: 0 <= k < |u| ==> x[at + k] == x[at..][k] == u[k];
      UnitIsFinished(u);
      assert forall k :: at < k < |x| ==> x[k] == u[k - at] && IsCont(x[k]);
      assert x[at] == u[0];
      if Unfinished(x, n) { NotUnfinished(x, at, n); }
    } else {
      NoneJoined();
    }
  }

  lemma NoneJoined()
    ensures Join([]) == []
  {
  }

  // Finished characters are not held back, whatever the handler.
  lemma {:induction false} WellFormedAtOnce(x: seq<Byte>, e: Errors)
    requires WellFormed(x)
    ensures Incremental(x, e, false) == (Decoded(x), [])
  {
    TrailExactly(x);
    WellFormedIsFinished(x, Trail(x));
    assert x[..|x|] == x && x[|x|..] == [];
    WellFormedDecodes(x, e);
  }

  // ----- surrogatepass -----

  lemma RuneIsUnit(r: int)
    requires IsScalar(r)
    ensures IsUnit(RuneBytes(r)) && Scalar(RuneBytes(r)) == r
  {
    hide Two, Three, Four;
    if 0x80 <= r < 0x800 {
      TwoBack(r);
    } else if 0x800 <= r < 0x1_0000 {
      ThreeBack(r);
    } else if 0x1_0000 <= r {
      FourBack(r);
    }
  }

  lemma SurrogatePasses(b: seq<Byte>, i: nat, r: int)
    requires IsSurrogate(r) && Holds(b, i, RuneBytes(r))
    ensures DecodeFrom(b, i, SurrogatePass) == Prepend(RuneBytes(r), DecodeFrom(b, i + |RuneBytes(r)|, SurrogatePass))
  {
    hide Three;
    var block := RuneBytes(r);
    HoldsAt(b, i, block, 0);
    HoldsAt(b, i, block, 1);
    HoldsAt(b, i, block, 2);
    ThreeBack(r);
  }

  lemma {:induction false} PassDecodes(rs: seq<int>, n: nat)
    requires AllCodePoints(rs) && n <= |rs|
    ensures var b := Text(rs, |rs|);
            |Text(rs, n)| <= |b| && DecodeFrom(b, |Text(rs, n)|, SurrogatePass) == Decoded(b[|Text(rs, n)|..])
    decreases |rs| - n
  {
    hide RuneBytes, Scan, DecodeFrom, IsUnit, Scalar;
    var b := Text(rs, |rs|);
    if n == |rs| {
      DecodeEnd(b, SurrogatePass);
      assert b[|b|..] == [];
    } else {
      var i, next, block := |Text(rs, n)|, Text(rs, n + 1), RuneBytes(rs[n]);
      PassDecodes(rs, n + 1);
      TextPrefix(rs, n + 1, |rs|);
      assert b[i .. i + |block|] == next[i..] == block;
      if IsScalar(rs[n]) {
        RuneIsUnit(rs[n]);
        UnitIsChar(b, i, |block|);
        DecodeStep(b, i, SurrogatePass);
      } else {
        SurrogatePasses(b, i, rs[n]);
      }
      assert block + b[i + |block| ..] == b[i..];
    }
  }

  lemma {:induction false} PassEncodes(rs: seq<int>, i: nat)
    requires AllCodePoints(rs) && i <= |rs|
    ensures EncodeFrom(rs, i, SurrogatePass).Decoded?
    ensures Text(rs, i) + EncodeFrom(rs, i, SurrogatePass).text == Text(rs, |rs|)
    decreases |rs| - i
  {
    hide RuneBytes;
    if i == |rs| {
      assert Text(rs, i) + [] == Text(rs, i);
    } else {
      PassEncodes(rs, i + 1);
      var rest := EncodeFrom(rs, i + 1, SurrogatePass).text;
      assert Text(rs, i) + (RuneBytes(rs[i]) + rest) == Text(rs, i) + RuneBytes(rs[i]) + rest;
    }
  }

  // Under surrogatepass every string, lone surrogates included, is encoded and
  // decoded as itself.
  lemma {:induction false} SurrogatePassRoundTrip(rs: seq<int>)
    requires AllCodePoints(rs)
    ensures var t := Text(rs, |rs|);
            Encode(t, SurrogatePass) == Decoded(t) && DecodeFrom(t, 0, SurrogatePass) == Decoded(t)
  {
    var t := Text(rs, |rs|);
    TextRoundTrip(rs);
    PassEncodes(rs, 0);
    assert Text(rs, 0) + EncodeFrom(rs, 0, SurrogatePass).text == EncodeFrom(rs, 0, SurrogatePass).text;
    PassDecodes(rs, 0);
    assert t[0..] == t;
  }
}
