// The UTF-8 decoder and encoder, one shot and incremental.
module Utf8 {
  import opened Bytes
  import opened ErrorHandlers

  // ----- scanning one character -----

  // A character, or an ill-formed region of the input from i up to end.
  datatype Scanned = Char(cp: int, n: nat) | Bad(end: nat, reason: string)

  const INVALID_START: string := "invalid start byte"
  const INVALID_CONT: string := "invalid continuation byte"
  const UNEXPECTED_END: string := "unexpected end of data"

  function Lacking(b: seq<Byte>, at: nat): string { if at >= |b| then UNEXPECTED_END else INVALID_CONT }

  // The continuation bytes from j on, up to limit.
  function ContEnd(b: seq<Byte>, j: nat, limit: nat): (r: nat)
    requires j <= |b| && j <= limit
    ensures j <= r <= |b| && r <= limit
    ensures forall k :: j <= k < r ==> IsCont(b[k])
    ensures r < limit && r < |b| ==> !IsCont(b[r])
    decreases limit - j
  {
    if j < |b| && j < limit && IsCont(b[j]) then ContEnd(b, j + 1, limit) else j
  }

  function Scan(b: seq<Byte>, i: nat): (r: Scanned)
    requires i < |b|
    ensures r.Char? ==> 1 <= r.n && i + r.n <= |b| && IsScalar(r.cp)
    ensures r.Bad? ==> i < r.end <= |b|
  {
    var c := b[i];
    if c < 0x80 then Char(c, 1)
    else if c < 0xC2 then Bad(i + 1, INVALID_START)
    else if c < 0xE0 then
      if i + 1 < |b| && IsCont(b[i + 1]) then Char(Two(c, b[i + 1]), 2) else Bad(i + 1, Lacking(b, i + 1))
    else if c < 0xF0 then ScanThree(b, i)
    else if c < 0xF5 then ScanFour(b, i)
    else Bad(i + 1, INVALID_START)
  }

  // The least and the greatest second byte after a start byte.
  function Low(c: int): int { if c == 0xE0 then 0xA0 else if c == 0xF0 then 0x90 else 0x80 }

  function High(c: int): int { if c == 0xED then 0x9F else if c == 0xF4 then 0x8F else 0xBF }

  function ScanThree(b: seq<Byte>, i: nat): (r: Scanned)
    requires i < |b| && 0xE0 <= b[i] < 0xF0
    ensures r.Char? ==> 1 <= r.n && i + r.n <= |b| && IsScalar(r.cp)
    ensures r.Bad? ==> i < r.end <= |b|
  {
    var c := b[i];
    if i + 1 >= |b| || b[i + 1] < Low(c) || b[i + 1] > High(c) then Bad(i + 1, Lacking(b, i + 1))
    else if i + 2 < |b| && IsCont(b[i + 2]) then
      ThreeScalar(c, b[i + 1], b[i + 2]);
      Char(Three(c, b[i + 1], b[i + 2]), 3)
    else Bad(i + 2, Lacking(b, i + 2))
  }

  function ScanFour(b: seq<Byte>, i: nat): (r: Scanned)
    requires i < |b| && 0xF0 <= b[i] < 0xF5
    ensures r.Char? ==> 1 <= r.n && i + r.n <= |b| && IsScalar(r.cp)
    ensures r.Bad? ==> i < r.end <= |b|
  {
    var c := b[i];
    if i + 1 >= |b| || b[i + 1] < Low(c) || b[i + 1] > High(c) then Bad(i + 1, Lacking(b, i + 1))
    else
      var j := ContEnd(b, i + 2, i + 4);
      if j == i + 4 && 0x1_0000 <= Four(c, b[i + 1], b[i + 2], b[i + 3]) <= 0x10_FFFF then
        Char(Four(c, b[i + 1], b[i + 2], b[i + 3]), 4)
      else Bad(j, Lacking(b, j))
  }

  lemma ThreeScalar(c: int, d: int, e: int)
    requires 0xE0 <= c < 0xF0 && Low(c) <= d <= High(c) && IsCont(e)
    ensures IsScalar(Three(c, d, e)) && 0x800 <= Three(c, d, e) < 0x1_0000
  {
    assert 0x80 <= d <= 0xBF;
    assert 0 <= c - 0xE0 < 0x10 && 0 <= d - 0x80 < 0x40 && 0 <= e - 0x80 < 0x40;
  }

  lemma FourScalar(c: int, d: int, e: int, f: int)
    requires 0xF0 <= c < 0xF5 && Low(c) <= d <= High(c) && IsCont(e) && IsCont(f)
    ensures 0x1_0000 <= Four(c, d, e, f) <= 0x10_FFFF
  {
    assert 0x80 <= d <= 0xBF;
  }

  // ----- decoding -----

  function DecodeFrom(b: seq<Byte>, i: nat, e: Errors): Outcome<Byte>
    requires i <= |b|
    decreases |b| - i
  {
    if i == |b| then Decoded([])
    else
      match Scan(b, i)
      case Char(cp, n) => Prepend(RuneBytes(cp), DecodeFrom(b, i + n, e))
      case Bad(end, reason) =>
        match HandleDecode(e, reason, b, i, end)
        case Raised(why) => Failed(why)
        case Answer(rep, newpos) => Prepend(rep, DecodeFrom(b, newpos, e))
  }

  method DecodeUtf8(input: seq<Byte>, e: Errors) returns (r: Outcome<Byte>)
    ensures r == DecodeFrom(input, 0, e)
  {
    hide HandleDecode, Scan, RuneBytes;
    var out: seq<Byte> := [];
    var i := 0;
    while i < |input|
      invariant i <= |input|
      invariant DecodeFrom(input, 0, e) == Prepend(out, DecodeFrom(input, i, e))
      decreases |input| - i
    {
      ghost var was, rest := out, DecodeFrom(input, i, e);
      var cp, n, errEnd, reason := ScanBytes(input, i);
      if n > 0 {
        out := out + RuneBytes(cp);
        i := i + n;
        PrependTwice(was, RuneBytes(cp), DecodeFrom(input, i, e));
        continue;
      }
      var answer := HandleDecodeError(e, reason, input, i, errEnd);
      match answer {
        case Raised(why) => return Failed(why);
        case Answer(rep, newpos) =>
          out := out + rep;
          i := newpos;
          PrependTwice(was, rep, DecodeFrom(input, i, e));
      }
    }
    assert out + [] == out;
    r := Decoded(out);
  }

  // The branches of the loop body: n > 0 for a character, or the region.
  method ScanBytes(input: seq<Byte>, i: nat) returns (cp: int, n: nat, errEnd: nat, reason: string)
    requires i < |input|
    ensures n > 0 ==> Scan(input, i) == Char(cp, n)
    ensures n == 0 ==> Scan(input, i) == Bad(errEnd, reason)
  {
    hide Two, Three, Four;
    var c := input[i];
    if c < 0x80 { return c, 1, i, ""; }
    cp, n, errEnd := 0, 0, i + 1;
    if c < 0xC2 {
      reason := INVALID_START;
    } else if c < 0xE0 {
      if i + 1 < |input| && 0x80 <= input[i + 1] < 0xC0 {
        return Two(c, input[i + 1]), 2, errEnd, "";
      }
      reason := if i + 1 >= |input| then UNEXPECTED_END else INVALID_CONT;
    } else if c < 0xF0 {
      var cb1Lo, cb1Hi := 0x80, 0xBF;
      if c == 0xE0 { cb1Lo := 0xA0; } else if c == 0xED { cb1Hi := 0x9F; }
      if i + 1 >= |input| {
        reason := UNEXPECTED_END;
      } else if input[i + 1] < cb1Lo || input[i + 1] > cb1Hi {
        reason := INVALID_CONT;
      } else if i + 2 < |input| && 0x80 <= input[i + 2] < 0xC0 {
        return Three(c, input[i + 1], input[i + 2]), 3, errEnd, "";
      } else {
        errEnd := i + 2;
        reason := if i + 2 >= |input| then UNEXPECTED_END else INVALID_CONT;
      }
    } else if c < 0xF5 {
      cp, n, errEnd, reason := ScanFourBytes(input, i);
    } else {
      reason := INVALID_START;
    }
  }

  method ScanFourBytes(input: seq<Byte>, i: nat) returns (cp: int, n: nat, errEnd: nat, reason: string)
    requires i < |input| && 0xF0 <= input[i] < 0xF5
    ensures n > 0 ==> ScanFour(input, i) == Char(cp, n)
    ensures n == 0 ==> ScanFour(input, i) == Bad(errEnd, reason)
  {
    hide Four;
    var c := input[i];
    cp, n, errEnd := 0, 0, i + 1;
    var cb1Lo, cb1Hi := 0x80, 0xBF;
    if c == 0xF0 { cb1Lo := 0x90; } else if c == 0xF4 { cb1Hi := 0x8F; }
    if i + 1 >= |input| {
      reason := UNEXPECTED_END;
    } else if input[i + 1] < cb1Lo || input[i + 1] > cb1Hi {
      reason := INVALID_CONT;
    } else {
      var j := i + 2;
      while j < |input| && j < i + 4 && 0x80 <= input[j] < 0xC0
        invariant i + 2 <= j <= |input| && j <= i + 4
        invariant ContEnd(input, j, i + 4) == ContEnd(input, i + 2, i + 4)
      {
        j := j + 1;
      }
      if j == i + 4 {
        cp := Four(c, input[i + 1], input[i + 2], input[i + 3]);
        if 0x1_0000 <= cp <= 0x10_FFFF {
          return cp, 4, errEnd, "";
        }
      }
      errEnd := j;
      reason := if j >= |input| then UNEXPECTED_END else INVALID_CONT;
    }
  }

  // ----- encoding -----

  function EncodeFrom(runes: seq<int>, i: nat, e: Errors): Outcome<Byte>
    requires i <= |runes| && forall k :: 0 <= k < |runes| ==> 0 <= runes[k]
    decreases |runes| - i
  {
    if i == |runes| then Decoded([])
    else if IsScalar(runes[i]) then Prepend(RuneBytes(runes[i]), EncodeFrom(runes, i + 1, e))
    else
      match HandleEncode(e, "surrogates not allowed", runes, i)
      case Raised(why) => Failed(why)
      case Answer(rep, newpos) => Prepend(rep, EncodeFrom(runes, newpos, e))
  }

  function Encode(text: seq<Byte>, e: Errors): Outcome<Byte> { EncodeFrom(RunesFrom(text, 0), 0, e) }

  method EncodeUtf8(text: seq<Byte>, e: Errors) returns (r: Outcome<Byte>)
    ensures r == Encode(text, e)
  {
    hide HandleEncode, RuneBytes;
    var runes := LenientRunes(text);
    var out: seq<Byte> := [];
    var i := 0;
    while i < |runes|
      invariant i <= |runes|
      invariant EncodeFrom(runes, 0, e) == Prepend(out, EncodeFrom(runes, i, e))
    {
      ghost var was := out;
      if IsScalar(runes[i]) {
        out := out + RuneBytes(runes[i]);
        PrependTwice(was, RuneBytes(runes[i]), EncodeFrom(runes, i + 1, e));
        i := i + 1;
        continue;
      }
      var answer := HandleEncodeError(e, "surrogates not allowed", runes, i);
      match answer {
        case Raised(why) => return Failed(why);
        case Answer(rep, newpos) =>
          out := out + rep;
          PrependTwice(was, rep, EncodeFrom(runes, newpos, e));
          i := if newpos > i then newpos else i + 1;
      }
    }
    assert out + [] == out;
    r := Decoded(out);
  }

  // ----- chunks -----

  function Needed(c: int): nat { if c < 0xE0 then 2 else if c < 0xF0 then 3 else 4 }

  // Length of the unfinished sequence at the end of b, looking back from
  // position i, at most to position |b| - 4.
  function TrailFrom(b: seq<Byte>, i: int): (r: nat)
    requires -1 <= i < |b|
    ensures r <= |b|
    decreases i + 1
  {
    if i < 0 || i < |b| - 4 || b[i] < 0x80 then 0
    else if b[i] >= 0xC0 then
      if |b| - i < Needed(b[i]) then |b| - i else 0
    else TrailFrom(b, i - 1)
  }

  function Trail(b: seq<Byte>): (r: nat)
    ensures r <= |b|
  {
    TrailFrom(b, |b| - 1)
  }

  method Utf8IncompleteTrail(b: seq<Byte>) returns (trim: nat)
    ensures trim == Trail(b)
  {
    var n := |b|;
    if n == 0 { return 0; }
    var i := n - 1;
    while i >= n - 4 && i >= 0
      invariant -1 <= i < n
      invariant TrailFrom(b, i) == Trail(b)
    {
      var c := b[i];
      if c < 0x80 { return 0; }
      if c >= 0xC0 {
        var need: nat;
        if c < 0xE0 { need := 2; } else if c < 0xF0 { need := 3; } else { need := 4; }
        var have := n - i;
        if have < need { return have; }
        return 0;
      }
      i := i - 1;
    }
    trim := 0;
  }

  // The text of what can be decoded now, and the bytes to put before the next
  // chunk.
  function Incremental(input: seq<Byte>, e: Errors, final: bool): (Outcome<Byte>, seq<Byte>) {
    if final then (DecodeFrom(input, 0, e), [])
    else
      var cut := |input| - Trail(input);
      (DecodeFrom(input[..cut], 0, e), input[cut..])
  }

  method DecodeUtf8Incremental(input: seq<Byte>, e: Errors, final: bool) returns (r: Outcome<Byte>, rest: seq<Byte>)
    ensures (r, if r.Decoded? then rest else Incremental(input, e, final).1) == Incremental(input, e, final)
  {
    if final {
      r := DecodeUtf8(input, e);
      return r, [];
    }
    var trim := Utf8IncompleteTrail(input);
    r := DecodeUtf8(input[..|input| - trim], e);
    if r.Failed? { return r, []; }
    rest := input[|input| - trim ..];
  }
}
