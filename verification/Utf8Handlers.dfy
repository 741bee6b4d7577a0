// What the error handlers make of UTF-8 text: the answer of each one in terms
// of the bytes and code points it is asked about, and the result of decoding
// and encoding as a whole.
module Utf8Handlers {
  import opened Bytes
  import opened ErrorHandlers
  import opened Utf8
  import opened Utf8Proofs

  // ----- decoding -----

  // The four handlers that answer every ill-formed region.
  predicate AlwaysAnswers(e: Errors) { e == Ignore || e == Replace || e == BackslashReplace || e == SurrogateEscape }

  // out is the answer for a region: nothing; U+FFFD; each byte as a backslash,
  // an x and two digits; each byte as the surrogate U+DC00 above it.
  ghost predicate AnswerIs(e: Errors, region: seq<Byte>, out: seq<Byte>) {
    match e
    case Ignore => out == []
    case Replace => out == [0xEF, 0xBF, 0xBD]
    case BackslashReplace =>
      && |out| == 4 * |region|
      && forall k :: 0 <= k < |region| ==> EscapeIs(region[k], out[4 * k .. 4 * k + 4])
    case SurrogateEscape =>
      && |out| == 3 * |region|
      && forall k :: 0 <= k < |region| ==> 0x80 <= region[k] && out[3 * k .. 3 * k + 3] == Smuggled(region[k])
    case _ => false
  }

  ghost predicate EscapeIs(c: Byte, s: seq<Byte>) {
    |s| == 4 && s[0] as char == '\\' && s[1] as char == 'x' && s[2] as char == HEX_DIGITS[c / 16] && s[3] as char == HEX_DIGITS[c % 16]
  }

  lemma {:induction false} EscapedIs(region: seq<Byte>)
    ensures AnswerIs(BackslashReplace, region, EscapedBytes(region))
    decreases |region|
  {
    hide Hex;
    if region != [] {
      var front, c := region[..|region| - 1], region[|region| - 1];
      EscapedIs(front);
      HexTwo(c);
      var out, last := EscapedBytes(region), [BACKSLASH, 120] + Hex(c, 2);
      assert out == EscapedBytes(front) + last;
      forall k | 0 <= k < |region| ensures EscapeIs(region[k], out[4 * k .. 4 * k + 4]) {
        if k == |front| {
          assert out[4 * k .. 4 * k + 4] == last;
        } else {
          assert out[4 * k .. 4 * k + 4] == EscapedBytes(front)[4 * k .. 4 * k + 4];
        }
      }
    }
  }

  lemma HexTwo(c: Byte)
    ensures EscapeIs(c, [BACKSLASH, 120] + Hex(c, 2))
  {
    DigitIs(c / 16);
    DigitIs(c % 16);
    assert Hex(c, 2) == [HexDigit(c / 16), HexDigit(c % 16)] by { assert Hex(c / 16, 1) == [HexDigit(c / 16)]; }
  }

  // The three bytes of U+DC00 + c.
  function Smuggled(c: Byte): seq<Byte>
    requires 0x80 <= c
  {
    [0xED, 0xB0 + c / 0x40, 0x80 + c % 0x40]
  }

  lemma {:induction false} SmuggledIs(region: seq<Byte>, n: nat)
    requires AllHigh(region) && n <= |region|
    ensures |Text(EscapeRunes(region), n)| == 3 * n
    ensures forall k :: 0 <= k < n ==> Text(EscapeRunes(region), n)[3 * k .. 3 * k + 3] == Smuggled(region[k])
    decreases n
  {
    hide RuneBytes, Smuggled;
    if n > 0 {
      SmuggledIs(region, n - 1);
      var c := region[n - 1];
      SmuggledByte(c);
      var before, out := Text(EscapeRunes(region), n - 1), Text(EscapeRunes(region), n);
      assert out == before + Smuggled(c);
      forall k | 0 <= k < n ensures out[3 * k .. 3 * k + 3] == Smuggled(region[k]) {
        if k < n - 1 { assert out[3 * k .. 3 * k + 3] == before[3 * k .. 3 * k + 3]; }
      }
    }
  }

  lemma SmuggledByte(c: Byte)
    requires 0x80 <= c
    ensures RuneBytes(0xDC00 + (c as int)) == Smuggled(c) && |Smuggled(c)| == 3
  {
  }

  // The handler gives that answer and goes on behind the region.
  lemma {:induction false} HandlerAnswers(e: Errors, reason: string, b: seq<Byte>, i: nat, end: nat)
    requires AlwaysAnswers(e) && i < end <= |b| && AllHigh(b[i .. end])
    ensures var a := HandleDecode(e, reason, b, i, end); a.Answer? && a.newpos == end && AnswerIs(e, b[i .. end], a.rep)
  {
    hide Text, EscapedBytes, EscapeIs;
    var region := b[i .. end];
    if e == BackslashReplace { EscapedIs(region); }
    if e == SurrogateEscape { SmuggledIs(region, |region|); }
  }

  // The text of the segments: well-formed sequences as they are, regions as
  // the handler answers.
  ghost predicate Patched(e: Errors, segs: seq<Segment>, out: seq<Byte>)
    decreases |segs|
  {
    if segs == [] then out == []
    else if segs[0].Unit? then segs[0].u <= out && Patched(e, segs[1..], out[|segs[0].u|..])
    else exists a :: AnswerIs(e, segs[0].s, a) && a <= out && Patched(e, segs[1..], out[|a|..])
  }

  // Decoding under these handlers never fails; the segments are the
  // well-formed sequences and maximal subparts of the input.
  lemma {:induction false} DecodesPatched(b: seq<Byte>, i: nat, e: Errors)
    requires i <= |b| && AlwaysAnswers(e)
    ensures DecodeFrom(b, i, e).Decoded? && Patched(e, Segments(b, i), DecodeFrom(b, i, e).text)
    decreases |b| - i
  {
    hide Scan, IsUnit, RuneBytes, DecodeFrom, AnswerIs, HandleDecode, Patched;
    if i == |b| {
      DecodeEnd(b, e);
      PatchedNothing(e);
    } else {
      var step := Scan(b, i);
      OneStep(b, i, e);
      if step.Char? {
        CharIsUnit(b, i);
        DecodesPatched(b, i + step.n, e);
        PatchedUnit(e, b[i .. i + step.n], Segments(b, i + step.n), DecodeFrom(b, i + step.n, e).text);
      } else {
        RegionsAreHigh(b, i);
        HandlerAnswers(e, step.reason, b, i, step.end);
        DecodesPatched(b, step.end, e);
        PatchedRegion(e, b[i .. step.end], HandleDecode(e, step.reason, b, i, step.end).rep, Segments(b, step.end), DecodeFrom(b, step.end, e).text);
      }
    }
  }

  lemma {:induction false} OneStep(b: seq<Byte>, i: nat, e: Errors)
    requires i < |b|
    ensures match Scan(b, i)
            case Char(cp, n) => DecodeFrom(b, i, e) == Prepend(RuneBytes(cp), DecodeFrom(b, i + n, e))
            case Bad(end, reason) =>
              var a := HandleDecode(e, reason, b, i, end);
              DecodeFrom(b, i, e) == if a.Raised? then Failed(a.why) else Prepend(a.rep, DecodeFrom(b, a.newpos, e))
  {
    hide Scan, RuneBytes, HandleDecode;
  }

  lemma PatchedNothing(e: Errors)
    ensures Patched(e, [], [])
  {
  }

  lemma {:induction false} PatchedUnit(e: Errors, u: seq<Byte>, segs: seq<Segment>, out: seq<Byte>)
    requires Patched(e, segs, out)
    ensures Patched(e, [Unit(u)] + segs, u + out)
  {
    assert ([Unit(u)] + segs)[1..] == segs && (u + out)[|u|..] == out;
  }

  lemma {:induction false} PatchedRegion(e: Errors, region: seq<Byte>, a: seq<Byte>, segs: seq<Segment>, out: seq<Byte>)
    requires Patched(e, segs, out) && AnswerIs(e, region, a)
    ensures Patched(e, [Subpart(region)] + segs, a + out)
  {
    hide AnswerIs;
    assert ([Subpart(region)] + segs)[1..] == segs && (a + out)[|a|..] == out;
  }

  // ----- strict failures -----

  // Why a region is ill-formed: its first byte starts nothing; or the input
  // ends; or the byte behind it does not go on.
  function RegionReason(b: seq<Byte>, start: nat, end: nat): string
    requires start < end <= |b|
  {
    if b[start] < 0xC2 || 0xF5 <= b[start] then INVALID_START else if end == |b| then UNEXPECTED_END else INVALID_CONT
  }

  lemma {:induction false} ScanReason(b: seq<Byte>, i: nat)
    requires i < |b| && Scan(b, i).Bad?
    ensures Scan(b, i).reason == RegionReason(b, i, Scan(b, i).end)
  {
    hide Two, Three, Four;
    NeverFour(b, i);
  }

  // Strict decoding fails at the first maximal subpart, with only well-formed
  // text before it.
  lemma {:induction false} StrictFailsAtFirst(b: seq<Byte>, i: nat)
    requires i <= |b| && DecodeFrom(b, i, Strict).Failed?
    ensures exists start: nat, end: nat ::
              && i <= start < end <= |b| && MaximalSubpart(b, start, end) && WellFormed(b[i .. start])
              && DecodeFrom(b, i, Strict) == Failed(UnicodeError(RegionReason(b, start, end), start, end))
    decreases |b| - i
  {
    hide Scan, IsUnit, RuneBytes, DecodeFrom, MaximalSubpart, WellFormed;
    if i == |b| {
      DecodeEnd(b, Strict);
    } else {
      var step := Scan(b, i);
      OneStep(b, i, Strict);
      if step.Char? {
        CharIsUnit(b, i);
        StrictFailsAtFirst(b, i + step.n);
        var start: nat, end: nat :| i + step.n <= start < end <= |b| && MaximalSubpart(b, start, end) && WellFormed(b[i + step.n .. start])
                                    && DecodeFrom(b, i + step.n, Strict) == Failed(UnicodeError(RegionReason(b, start, end), start, end));
        UnitThenText(b[i .. i + step.n], b[i + step.n .. start]);
        assert b[i .. start] == b[i .. i + step.n] + b[i + step.n .. start];
      } else {
        ScanIsMaximal(b, i);
        ScanReason(b, i);
        assert i < step.end <= |b|;
        EmptyIsWellFormed();
        assert b[i .. i] == [];
      }
    }
  }

  lemma {:induction false} UnitThenText(u: seq<Byte>, t: seq<Byte>)
    requires IsUnit(u) && WellFormed(t)
    ensures WellFormed(u + t)
  {
    hide IsUnit;
    var us :| AllUnits(us) && Join(us) == t;
    assert ([u] + us)[1..] == us;
    assert AllUnits([u] + us) && Join([u] + us) == u + t;
  }

  lemma EmptyIsWellFormed()
    ensures WellFormed([])
  {
    var none: seq<seq<Byte>> := [];
    assert AllUnits(none) && Join(none) == [];
  }

  // ----- surrogatepass -----

  // A well-formed sequence, or the three bytes of a surrogate.
  ghost predicate IsPassed(u: seq<Byte>) { IsUnit(u) || (|u| == 3 && u[0] == 0xED && 0xA0 <= u[1] <= 0xBF && IsCont(u[2])) }

  ghost predicate PassedText(b: seq<Byte>, i: nat)
    requires i <= |b|
    decreases |b| - i
  {
    i == |b| || exists t: nat :: i < t <= |b| && IsPassed(b[i .. t]) && PassedText(b, t)
  }

  // Under surrogatepass, decoding accepts exactly the concatenations of those
  // and returns them unchanged.
  lemma {:induction false} PassExactly(b: seq<Byte>, i: nat)
    requires i <= |b|
    ensures DecodeFrom(b, i, SurrogatePass).Decoded? <==> PassedText(b, i)
    ensures PassedText(b, i) ==> DecodeFrom(b, i, SurrogatePass) == Decoded(b[i..])
    decreases |b| - i
  {
    hide Scan, RuneBytes, DecodeFrom, IsPassed, HandleDecode;
    if i == |b| {
      DecodeEnd(b, SurrogatePass);
    } else {
      forall t: nat | i < t <= |b| && IsPassed(b[i .. t])
        ensures DecodeFrom(b, i, SurrogatePass) == Prepend(b[i .. t], DecodeFrom(b, t, SurrogatePass))
        ensures DecodeFrom(b, t, SurrogatePass).Decoded? <==> PassedText(b, t)
        ensures PassedText(b, t) ==> DecodeFrom(b, t, SurrogatePass) == Decoded(b[t..]) && b[i .. t] + b[t..] == b[i..]
      {
        PassedStep(b, i, t - i);
        PassExactly(b, t);
      }
      if DecodeFrom(b, i, SurrogatePass).Decoded? {
        var n := SomePassed(b, i);
        assert IsPassed(b[i .. i + n]) && PassedText(b, i + n);
      }
    }
  }

  lemma {:induction false} PassedStep(b: seq<Byte>, i: nat, n: nat)
    requires 0 < n && i + n <= |b| && IsPassed(b[i .. i + n])
    ensures DecodeFrom(b, i, SurrogatePass) == Prepend(b[i .. i + n], DecodeFrom(b, i + n, SurrogatePass))
  {
    hide Scan, RuneBytes, DecodeFrom, HandleDecode, Scalar, IsUnit;
    OneStep(b, i, SurrogatePass);
    if IsUnit(b[i .. i + n]) {
      UnitIsChar(b, i, n);
      CharIsUnit(b, i);
    } else {
      assert b[i .. i + n] == [b[i], b[i + 1], b[i + 2]];
      TripleIsBad(b, i);
      PassesTriple(b, i, Scan(b, i).reason, Scan(b, i).end);
    }
  }

  lemma {:induction false} TripleIsBad(b: seq<Byte>, i: nat)
    requires i + 3 <= |b| && b[i] == 0xED && 0xA0 <= b[i + 1] <= 0xBF
    ensures Scan(b, i).Bad?
  {
  }

  lemma {:induction false} PassesTriple(b: seq<Byte>, i: nat, reason: string, end: nat)
    requires i + 3 <= |b| && b[i] == 0xED && 0xA0 <= b[i + 1] <= 0xBF && IsCont(b[i + 2]) && i < end <= |b|
    ensures HandleDecode(SurrogatePass, reason, b, i, end) == Answer([b[i], b[i + 1], b[i + 2]], i + 3)
  {
    hide Three, RuneBytes;
    TripleBack(b[i + 1], b[i + 2]);
  }

  lemma TripleBack(c: Byte, d: Byte)
    requires 0xA0 <= c <= 0xBF && IsCont(d)
    ensures var r := Three(0xED, c, d); IsSurrogate(r) && RuneBytes(r) == [0xED, c, d]
  {
    hide Three, RuneBytes;
    TripleValue(c, d);
    TripleParts(c - 0x80, d - 0x80);
  }

  lemma TripleValue(c: int, d: int)
    requires 0xA0 <= c <= 0xBF && IsCont(d)
    ensures Three(0xED, c, d) == 0xD000 + (c - 0x80) * 0x40 + (d - 0x80)
  {
    assert c % 0x40 == c - 0x80 && d % 0x40 == d - 0x80;
  }

  lemma TripleParts(x: int, y: int)
    requires 0x20 <= x < 0x40 && 0 <= y < 0x40
    ensures var r := 0xD000 + x * 0x40 + y; IsSurrogate(r) && RuneBytes(r) == [0xED, 0x80 + x, 0x80 + y]
  {
    var r := 0xD000 + x * 0x40 + y;
    assert r / 0x40 == 0x340 + x && r % 0x40 == y;
    assert (0x340 + x) % 0x40 == x;
    assert r / 0x1000 == 0xD;
  }

  lemma {:induction false} SomePassed(b: seq<Byte>, i: nat) returns (n: nat)
    requires i < |b| && DecodeFrom(b, i, SurrogatePass).Decoded?
    ensures 0 < n && i + n <= |b| && IsPassed(b[i .. i + n])
  {
    hide Scan, RuneBytes, DecodeFrom, IsUnit, Three;
    OneStep(b, i, SurrogatePass);
    var step := Scan(b, i);
    if step.Char? {
      CharIsUnit(b, i);
      n := step.n;
    } else {
      n := 3;
      assert b[i .. i + 3] == [b[i], b[i + 1], b[i + 2]];
    }
  }

  // ----- encoding -----

  // out is what the handler writes for the code point r, which has no UTF-8
  // form of its own: nothing; a question mark; a backslash escape; the byte
  // behind a smuggled surrogate; the three bytes of a surrogate.
  ghost predicate Stands(e: Errors, r: int, out: seq<Byte>)
    requires 0 <= r
  {
    match e
    case Ignore => out == []
    case Replace => out == [63]
    case BackslashReplace =>
      |out| >= 2 && out[0] as char == '\\'
      && (if r < 0x1_0000 then out[1] as char == 'u' && SpellsHex(out[2..], r, 4) else out[1] as char == 'U' && SpellsHex(out[2..], r, 8))
    case SurrogateEscape => 0xDC80 <= r <= 0xDCFF && out == [r - 0xDC00]
    case SurrogatePass => IsSurrogate(r) && out == RuneBytes(r)
    case _ => false
  }

  // What is written for r: its UTF-8 form, or what stands for it.
  ghost predicate Writes(e: Errors, r: int, out: seq<Byte>)
    requires 0 <= r
  {
    if IsScalar(r) then out == RuneBytes(r) else Stands(e, r, out)
  }

  ghost predicate WritesAll(e: Errors, runes: seq<int>, i: nat, out: seq<Byte>)
    requires i <= |runes| && forall k :: 0 <= k < |runes| ==> 0 <= runes[k]
    decreases |runes| - i
  {
    if i == |runes| then out == []
    else exists x :: Writes(e, runes[i], x) && x <= out && WritesAll(e, runes, i + 1, out[|x|..])
  }

  // Where the code points from k on that surrogateescape cannot write end.
  ghost predicate SpanEnds(runes: seq<int>, k: nat, end: nat) {
    && k <= end <= |runes|
    && (forall j :: k <= j < end ==> IsSurrogate(runes[j]) && !(0xDC80 <= runes[j] <= 0xDCFF))
    && (end < |runes| ==> !IsSurrogate(runes[end]) || 0xDC80 <= runes[end] <= 0xDCFF)
  }

  // The failure at code point k.
  ghost predicate BlamesAt(e: Errors, runes: seq<int>, k: nat, why: Failure) {
    if e == Unregistered then why == LookupFailed
    else
      && why.UnicodeError? && why.reason == "surrogates not allowed" && why.start == k
      && (if e == SurrogateEscape then SpanEnds(runes, k, why.end) else why.end == k + 1)
  }

  lemma {:induction false} HandlerWrites(e: Errors, runes: seq<int>, i: nat)
    requires i < |runes| && 0 <= runes[i] && !IsScalar(runes[i])
    ensures var a := HandleEncode(e, "surrogates not allowed", runes, i);
            if a.Answer? then a.newpos == i + 1 && Stands(e, runes[i], a.rep)
            else BlamesAt(e, runes, i, a.why) && forall x :: !Stands(e, runes[i], x)
  {
    hide RuneBytes, Hex, SpellsHex;
    var r := runes[i];
    assert 0xD800 <= r;
    if e == BackslashReplace {
      HexSpells(r, 4);
      HexSpells(r, 8);
      assert ([BACKSLASH] + ([117] + Hex(r, 4)))[2..] == Hex(r, 4);
      assert ([BACKSLASH] + ([85] + Hex(r, 8)))[2..] == Hex(r, 8);
    } else if e == SurrogateEscape {
      SpanIs(runes, i);
    }
  }

  lemma {:induction false} SpanIs(runes: seq<int>, i: nat)
    requires i <= |runes|
    ensures SpanEnds(runes, i, UnescapableEnd(runes, i))
    decreases |runes| - i
  {
    if i < |runes| && IsSurrogate(runes[i]) && !(0xDC80 <= runes[i] <= 0xDCFF) { SpanIs(runes, i + 1); }
  }

  ghost predicate Writable(e: Errors, r: int)
    requires 0 <= r
  {
    exists x :: Writes(e, r, x)
  }

  // Code point k is the first from i on that nothing stands for.
  ghost predicate FailsFirst(e: Errors, runes: seq<int>, i: nat, k: nat, why: Failure)
    requires forall k :: 0 <= k < |runes| ==> 0 <= runes[k]
  {
    && i <= k < |runes| && BlamesAt(e, runes, k, why) && !Writable(e, runes[k])
    && forall j :: i <= j < k ==> Writable(e, runes[j])
  }

  // Encoding writes every code point, or fails at the first one that nothing
  // stands for.
  lemma {:induction false} EncodesEach(e: Errors, runes: seq<int>, i: nat)
    requires i <= |runes| && forall k :: 0 <= k < |runes| ==> 0 <= runes[k]
    ensures match EncodeFrom(runes, i, e)
            case Decoded(out) => WritesAll(e, runes, i, out)
            case Failed(why) => exists k: nat :: FailsFirst(e, runes, i, k, why)
    decreases |runes| - i
  {
    hide Stands, BlamesAt, RuneBytes, HandleEncode, EncodeFrom, FailsFirst;
    EncodeStep(e, runes, i);
    if i < |runes| {
      var r := runes[i];
      if !IsScalar(r) { HandlerWrites(e, runes, i); }
      EncodesEach(e, runes, i + 1);
      var a := HandleEncode(e, "surrogates not allowed", runes, i);
      if !IsScalar(r) && a.Raised? {
        FailsHere(e, runes, i, a.why);
      } else {
        var x := if IsScalar(r) then RuneBytes(r) else a.rep;
        assert Writes(e, r, x);
        match EncodeFrom(runes, i + 1, e) {
          case Decoded(rest) => assert (x + rest)[|x|..] == rest;
          case Failed(why) =>
            var k: nat :| FailsFirst(e, runes, i + 1, k, why);
            FailsLater(e, runes, i, k, why, x);
        }
      }
    }
  }

  lemma {:induction false} FailsHere(e: Errors, runes: seq<int>, i: nat, why: Failure)
    requires i < |runes| && forall k :: 0 <= k < |runes| ==> 0 <= runes[k]
    requires !IsScalar(runes[i]) && BlamesAt(e, runes, i, why) && forall x :: !Stands(e, runes[i], x)
    ensures FailsFirst(e, runes, i, i, why)
  {
    hide BlamesAt, Stands;
  }

  lemma {:induction false} FailsLater(e: Errors, runes: seq<int>, i: nat, k: nat, why: Failure, x: seq<Byte>)
    requires i < |runes| && forall k :: 0 <= k < |runes| ==> 0 <= runes[k]
    requires FailsFirst(e, runes, i + 1, k, why) && Writes(e, runes[i], x)
    ensures FailsFirst(e, runes, i, k, why)
  {
    hide BlamesAt, Writes;
    assert Writable(e, runes[i]);
  }

  lemma {:induction false} EncodeStep(e: Errors, runes: seq<int>, i: nat)
    requires i <= |runes| && forall k :: 0 <= k < |runes| ==> 0 <= runes[k]
    ensures i == |runes| ==> EncodeFrom(runes, i, e) == Decoded([])
    ensures i < |runes| && IsScalar(runes[i]) ==> EncodeFrom(runes, i, e) == Prepend(RuneBytes(runes[i]), EncodeFrom(runes, i + 1, e))
    ensures i < |runes| && !IsScalar(runes[i]) ==>
              var a := HandleEncode(e, "surrogates not allowed", runes, i);
              EncodeFrom(runes, i, e) == if a.Raised? then Failed(a.why) else Prepend(a.rep, EncodeFrom(runes, i + 1, e))
  {
    hide RuneBytes;
  }
}
