// Text as the codecs keep it: byte strings in which a lone surrogate is stored
// as three bytes, like any other code point of its size.  The lenient reader
// of such strings, and the error handlers that are called for bytes that do
// not decode and code points that do not encode.
module ErrorHandlers {
  import opened Bytes

  predicate IsSurrogate(r: int) { 0xD800 <= r <= 0xDFFF }

  predicate IsCodePoint(r: int) { 0 <= r <= 0x10FFFF }

  ghost predicate AllCodePoints(rs: seq<int>) { forall k :: 0 <= k < |rs| ==> IsCodePoint(rs[k]) }

  // utf8.ValidRune.
  predicate IsScalar(r: int) { IsCodePoint(r) && !IsSurrogate(r) }

  predicate IsCont(b: int) { 0x80 <= b <= 0xBF }

  // ----- code points to bytes -----

  // The bit distribution of UTF-8 (Unicode Standard, section 3.9, Table 3-6),
  // surrogates included.
  function RuneBytes(r: int): (s: seq<Byte>)
    requires IsCodePoint(r)
    ensures 1 <= |s| <= 4
  {
    if r < 0x80 then [r]
    else if r < 0x800 then [0xC0 + r / 0x40, 0x80 + r % 0x40]
    else if r < 0x1_0000 then [0xE0 + r / 0x1000, 0x80 + r / 0x40 % 0x40, 0x80 + r % 0x40]
    else [0xF0 + r / 0x4_0000, 0x80 + r / 0x1000 % 0x40, 0x80 + r / 0x40 % 0x40, 0x80 + r % 0x40]
  }

  function SurrogateToBytes(r: int): (s: seq<Byte>)
    requires IsSurrogate(r)
    ensures s == RuneBytes(r)
  {
    [0xE0 + r / 0x1000, 0x80 + r / 0x40 % 0x40, 0x80 + r % 0x40]
  }

  function Text(runes: seq<int>, n: nat): seq<Byte>
    requires n <= |runes| && AllCodePoints(runes)
  {
    if n == 0 then [] else Text(runes, n - 1) + RuneBytes(runes[n - 1])
  }

  // ----- bytes to code points -----

  const RUNE_ERROR: int := 0xFFFD

  // The value bits of sequences of two, three and four bytes.
  function Two(a: int, b: int): (r: nat) { a % 0x20 * 0x40 + b % 0x40 }

  function Three(a: int, b: int, c: int): (r: nat) { a % 0x10 * 0x1000 + b % 0x40 * 0x40 + c % 0x40 }

  function Four(a: int, b: int, c: int, d: int): (r: nat) {
    a % 0x8 * 0x4_0000 + b % 0x40 * 0x1000 + c % 0x40 * 0x40 + d % 0x40
  }

  lemma TwoBack(r: int)
    requires 0x80 <= r < 0x800
    ensures Two(0xC0 + r / 0x40, 0x80 + r % 0x40) == r
  {
  }

  lemma ThreeBack(r: int)
    requires 0x800 <= r < 0x1_0000
    ensures Three(0xE0 + r / 0x1000, 0x80 + r / 0x40 % 0x40, 0x80 + r % 0x40) == r
  {
    var m := r / 0x40;
    assert r / 0x1000 == m / 0x40 && r == 0x40 * m + r % 0x40 && m == 0x40 * (m / 0x40) + m % 0x40;
  }

  lemma FourBack(r: int)
    requires 0x1_0000 <= r < 0x20_0000
    ensures Four(0xF0 + r / 0x4_0000, 0x80 + r / 0x1000 % 0x40, 0x80 + r / 0x40 % 0x40, 0x80 + r % 0x40) == r
  {
    assert r / 0x1000 == r / 0x4_0000 * 0x40 + r / 0x1000 % 0x40;
    assert r / 0x40 == r / 0x1000 * 0x40 + r / 0x40 % 0x40;
  }

  // One code point of a lenient string and the bytes it takes.
  function LenientStep(b: seq<Byte>, i: nat): (r: (int, nat))
    requires i < |b|
    ensures 1 <= r.1 && i + r.1 <= |b| && 0 <= r.0
  {
    if b[i] < 0x80 then (b[i], 1)
    else if 0xC0 <= b[i] < 0xE0 && i + 1 < |b| && IsCont(b[i + 1]) then
      (Two(b[i], b[i + 1]), 2)
    else if 0xE0 <= b[i] < 0xF0 && i + 2 < |b| && IsCont(b[i + 1]) && IsCont(b[i + 2]) then
      (Three(b[i], b[i + 1], b[i + 2]), 3)
    else if 0xF0 <= b[i] < 0xF8 && i + 3 < |b| && IsCont(b[i + 1]) && IsCont(b[i + 2]) && IsCont(b[i + 3]) then
      (Four(b[i], b[i + 1], b[i + 2], b[i + 3]), 4)
    else (RUNE_ERROR, 1)
  }

  function RunesFrom(b: seq<Byte>, i: nat): (r: seq<int>)
    requires i <= |b|
    ensures forall k :: 0 <= k < |r| ==> 0 <= r[k]
    decreases |b| - i
  {
    if i == |b| then []
    else
      var (r, n) := LenientStep(b, i);
      [r] + RunesFrom(b, i + n)
  }

  method LenientRunes(b: seq<Byte>) returns (out: seq<int>)
    ensures out == RunesFrom(b, 0)
  {
    hide Two, Three, Four;
    out := [];
    var i := 0;
    while i < |b|
      invariant i <= |b|
      invariant out + RunesFrom(b, i) == RunesFrom(b, 0)
      decreases |b| - i
    {
      ghost var rest := RunesFrom(b, i + LenientStep(b, i).1);
      Regrouped(out, LenientStep(b, i).0, rest);
      if b[i] < 0x80 {
        out := out + [b[i]];
        i := i + 1;
        continue;
      }
      if 0xC0 <= b[i] < 0xE0 && i + 1 < |b| && IsCont(b[i + 1]) {
        out := out + [Two(b[i], b[i + 1])];
        i := i + 2;
        continue;
      }
      if 0xE0 <= b[i] < 0xF0 && i + 2 < |b| && IsCont(b[i + 1]) && IsCont(b[i + 2]) {
        out := out + [Three(b[i], b[i + 1], b[i + 2])];
        i := i + 3;
        continue;
      }
      if 0xF0 <= b[i] < 0xF8 && i + 3 < |b| && IsCont(b[i + 1]) && IsCont(b[i + 2]) && IsCont(b[i + 3]) {
        out := out + [Four(b[i], b[i + 1], b[i + 2], b[i + 3])];
        i := i + 4;
        continue;
      }
      out := out + [RUNE_ERROR];
      i := i + 1;
    }
    assert out + [] == out;
  }

  lemma Regrouped(x: seq<int>, r: int, y: seq<int>)
    ensures x + [r] + y == x + ([r] + y)
  {
  }

  // utf8.AppendRune writes U+FFFD for what is not a code point.
  function AnyRuneBytes(r: int): seq<Byte> { RuneBytes(if IsCodePoint(r) then r else RUNE_ERROR) }

  function AnyText(runes: seq<int>, n: nat): (s: seq<Byte>)
    requires n <= |runes|
    ensures AllCodePoints(runes) ==> s == Text(runes, n)
  {
    if n == 0 then [] else AnyText(runes, n - 1) + AnyRuneBytes(runes[n - 1])
  }

  method RunesToWtf8(runes: seq<int>) returns (b: seq<Byte>)
    ensures b == AnyText(runes, |runes|)
  {
    b := [];
    for i := 0 to |runes|
      invariant b == AnyText(runes, i)
    {
      if IsSurrogate(runes[i]) {
        b := b + SurrogateToBytes(runes[i]);
      } else {
        b := b + AnyRuneBytes(runes[i]);
      }
    }
  }

  lemma {:induction false} LenientStepBack(b: seq<Byte>, i: nat, r: int)
    requires IsCodePoint(r) && Holds(b, i, RuneBytes(r))
    ensures i < |b| && LenientStep(b, i) == (r, |RuneBytes(r)|)
  {
    hide Two, Three, Four;
    var block := RuneBytes(r);
    HoldsAt(b, i, block, 0);
    if r >= 0x80 { HoldsAt(b, i, block, 1); }
    if r >= 0x800 { HoldsAt(b, i, block, 2); }
    if r >= 0x1_0000 { HoldsAt(b, i, block, 3); }
    if r < 0x80 {
    } else if r < 0x800 {
      TwoBack(r);
    } else if r < 0x1_0000 {
      ThreeBack(r);
    } else {
      FourBack(r);
    }
  }

  lemma {:induction false} RunesFromText(runes: seq<int>, n: nat)
    requires n <= |runes| && AllCodePoints(runes)
    ensures |Text(runes, n)| <= |Text(runes, |runes|)|
    ensures RunesFrom(Text(runes, |runes|), |Text(runes, n)|) == runes[n..]
    decreases |runes| - n
  {
    hide RuneBytes, LenientStep;
    var b := Text(runes, |runes|);
    if n < |runes| {
      RunesFromText(runes, n + 1);
      TextPrefix(runes, n + 1, |runes|);
      var i, next := |Text(runes, n)|, Text(runes, n + 1);
      assert b[i .. i + |RuneBytes(runes[n])|] == next[i..] == RuneBytes(runes[n]);
      LenientStepBack(b, i, runes[n]);
    }
  }

  lemma {:induction false} TextPrefix(runes: seq<int>, m: nat, n: nat)
    requires m <= n <= |runes| && AllCodePoints(runes)
    ensures Text(runes, m) <= Text(runes, n)
    decreases n
  {
    hide RuneBytes;
    if m < n { TextPrefix(runes, m, n - 1); }
  }

  // Every sequence of code points, lone surrogates included, survives being
  // stored as a string.
  lemma {:induction false} TextRoundTrip(runes: seq<int>)
    requires AllCodePoints(runes)
    ensures RunesFrom(Text(runes, |runes|), 0) == runes
  {
    RunesFromText(runes, 0);
    assert runes[0..] == runes;
  }

  // ----- handlers -----

  datatype Errors = Strict | Ignore | Replace | BackslashReplace | SurrogateEscape | SurrogatePass | Unregistered

  datatype Failure = UnicodeError(reason: string, start: nat, end: nat) | LookupFailed

  // A handler answers a replacement and where to go on, or raises.
  datatype Answer = Answer(rep: seq<Byte>, newpos: nat) | Raised(why: Failure)

  // What a codec returns: its output, or the first failure.
  datatype Outcome<+T> = Decoded(text: seq<T>) | Failed(why: Failure)

  function Prepend<T>(x: seq<T>, r: Outcome<T>): Outcome<T> { if r.Decoded? then Decoded(x + r.text) else r }

  lemma PrependTwice<T>(x: seq<T>, y: seq<T>, r: Outcome<T>)
    ensures Prepend(x, Prepend(y, r)) == Prepend(x + y, r)
  {
    if r.Decoded? { assert x + (y + r.text) == (x + y) + r.text; }
  }

  lemma PrependNothing<T>(r: Outcome<T>)
    ensures Prepend([], r) == r
  {
    if r.Decoded? { assert [] + r.text == r.text; }
  }

  function HexDigit(d: int): Byte
    requires 0 <= d < 16
  {
    if d < 10 then 48 + d else 87 + d
  }

  // n lower-case hexadecimal digits.
  function Hex(v: nat, n: nat): (r: seq<Byte>)
    ensures |r| == n
  {
    if n == 0 then [] else Hex(v / 16, n - 1) + [HexDigit(v % 16)]
  }

  function Pow16(n: nat): (p: nat)
    ensures 0 < p
  {
    if n == 0 then 1 else 16 * Pow16(n - 1)
  }

  const HEX_DIGITS: string := "0123456789abcdef"

  // s spells v in n hexadecimal digits.
  ghost predicate SpellsHex(s: seq<Byte>, v: nat, n: nat) {
    |s| == n && forall k :: 0 <= k < n ==> s[k] as char == HEX_DIGITS[v / Pow16(n - 1 - k) % 16]
  }

  lemma {:induction false} HexSpells(v: nat, n: nat)
    ensures SpellsHex(Hex(v, n), v, n)
    decreases n
  {
    if n > 0 {
      HexSpells(v / 16, n - 1);
      var s := Hex(v, n);
      forall k | 0 <= k < n ensures s[k] as char == HEX_DIGITS[v / Pow16(n - 1 - k) % 16] {
        if k == n - 1 {
          DigitIs(v % 16);
        } else {
          assert s[k] == Hex(v / 16, n - 1)[k];
          DivideTwice(v, Pow16(n - 2 - k));
        }
      }
    }
  }

  lemma DigitIs(d: int)
    requires 0 <= d < 16
    ensures HexDigit(d) as char == HEX_DIGITS[d]
  {
  }

  lemma DivideTwice(v: nat, p: nat)
    requires 0 < p
    ensures v / 16 / p == v / (16 * p)
  {
    var q, r := v / (16 * p), v % (16 * p);
    assert v == 16 * (p * q) + r && 0 <= r / 16 < p;
    assert v / 16 == p * q + r / 16;
    Quotient(q, p, r / 16);
  }

  lemma Quotient(q: nat, p: nat, r: nat)
    requires r < p
    ensures (p * q + r) / p == q
  {
    var m: int, d: int := p, (p * q + r) / p - q;
    assert m * d == r - (p * q + r) % p;
    assert d > 0 ==> m * d >= m;
    assert d < 0 ==> m * d <= 0 - m;
  }

  const BACKSLASH: Byte := 92

  // \xHH of the bytes.
  function EscapedBytes(b: seq<Byte>): seq<Byte> {
    if b == [] then [] else EscapedBytes(b[..|b| - 1]) + ([BACKSLASH, 120] + Hex(b[|b| - 1], 2))
  }

  // The lone surrogates that stand for bytes which did not decode (PEP 383).
  function EscapeRunes(b: seq<Byte>): (r: seq<int>)
    ensures |r| == |b|
    ensures forall k :: 0 <= k < |r| ==> r[k] == 0xDC00 + (b[k] as int)
  {
    seq(|b|, i requires 0 <= i < |b| => 0xDC00 + (b[i] as int))
  }

  predicate AllHigh(b: seq<Byte>) { forall k :: 0 <= k < |b| ==> 0x80 <= b[k] }

  // A handler for bytes start up to end.
  function HandleDecode(e: Errors, reason: string, input: seq<Byte>, start: nat, end: nat): (r: Answer)
    requires start <= end <= |input|
    ensures r.Answer? && start < end ==> start < r.newpos <= |input|
  {
    var region := input[start .. end];
    match e
    case Strict => Raised(UnicodeError(reason, start, end))
    case Ignore => Answer([], end)
    case Replace => Answer(RuneBytes(RUNE_ERROR), end)
    case BackslashReplace => Answer(EscapedBytes(region), end)
    case SurrogateEscape =>
      if start < end && AllHigh(region) then Answer(Text(EscapeRunes(region), |region|), end)
      else Raised(UnicodeError(reason, start, end))
    case SurrogatePass =>
      if start + 3 <= |input| && input[start] == 0xED && 0xA0 <= input[start + 1] <= 0xBF && IsCont(input[start + 2]) then
        Answer(RuneBytes(Three(input[start], input[start + 1], input[start + 2])), start + 3)
      else Raised(UnicodeError(reason, start, end))
    case Unregistered => Raised(LookupFailed)
  }

  // surrogatepass knows UTF-8 only and is strict for the other codecs.
  function HandleElsewhere(e: Errors, reason: string, input: seq<Byte>, start: nat, end: nat): (r: Answer)
    requires start <= end <= |input|
    ensures r.Answer? ==> r.newpos == end
  {
    if e == SurrogatePass then Raised(UnicodeError(reason, start, end)) else HandleDecode(e, reason, input, start, end)
  }

  // How far the surrogates that cannot be escaped go on.
  function UnescapableEnd(runes: seq<int>, i: nat): nat
    requires i <= |runes|
    decreases |runes| - i
  {
    if i < |runes| && IsSurrogate(runes[i]) && !(0xDC80 <= runes[i] <= 0xDCFF) then UnescapableEnd(runes, i + 1) else i
  }

  // A handler for code point i of a string.
  function HandleEncode(e: Errors, reason: string, runes: seq<int>, i: nat): (r: Answer)
    requires i < |runes| && 0 <= runes[i]
    ensures r.Answer? ==> r.newpos == i + 1
  {
    var r := runes[i];
    match e
    case Strict => Raised(UnicodeError(reason, i, i + 1))
    case Ignore => Answer([], i + 1)
    case Replace => Answer([63], i + 1)
    case BackslashReplace =>
      Answer([BACKSLASH] + if r < 0x100 then [120] + Hex(r, 2) else if r < 0x1_0000 then [117] + Hex(r, 4) else [85] + Hex(r, 8), i + 1)
    case SurrogateEscape =>
      if 0xDC80 <= r <= 0xDCFF then Answer([r - 0xDC00], i + 1) else Raised(UnicodeError(reason, i, UnescapableEnd(runes, i)))
    case SurrogatePass =>
      if IsSurrogate(r) then Answer(SurrogateToBytes(r), i + 1) else Raised(UnicodeError(reason, i, i + 1))
    case Unregistered => Raised(LookupFailed)
  }

  // ----- the handlers as they run -----

  method HandleDecodeError(e: Errors, reason: string, input: seq<Byte>, start: nat, end: nat) returns (a: Answer)
    requires start <= end <= |input|
    ensures a == HandleDecode(e, reason, input, start, end)
  {
    hide RuneBytes, Three;
    match e {
      case Strict => a := Raised(UnicodeError(reason, start, end));
      case Ignore => a := Answer([], end);
      case Replace => a := Answer(RuneBytes(RUNE_ERROR), end);
      case BackslashReplace => a := BackslashReplaceDecode(reason, input, start, end);
      case SurrogateEscape => a := SurrogateEscapeDecode(reason, input, start, end);
      case SurrogatePass =>
        if start + 3 > |input| || input[start] != 0xED || input[start + 1] < 0xA0 || input[start + 1] > 0xBF
           || input[start + 2] < 0x80 || input[start + 2] > 0xBF {
          return Raised(UnicodeError(reason, start, end));
        }
        PassedIsSurrogate(input[start + 1], input[start + 2]);
        a := Answer(SurrogateToBytes(Three(input[start], input[start + 1], input[start + 2])), start + 3);
      case Unregistered => a := Raised(LookupFailed);
    }
  }

  method HandleErrorElsewhere(e: Errors, reason: string, input: seq<Byte>, start: nat, end: nat) returns (a: Answer)
    requires start <= end <= |input|
    ensures a == HandleElsewhere(e, reason, input, start, end)
  {
    if e == SurrogatePass { return Raised(UnicodeError(reason, start, end)); }
    a := HandleDecodeError(e, reason, input, start, end);
  }

  lemma PassedIsSurrogate(c: int, d: int)
    requires 0xA0 <= c <= 0xBF && IsCont(d)
    ensures IsSurrogate(Three(0xED, c, d))
  {
    assert c % 0x40 == c - 0x80 && d % 0x40 == d - 0x80;
  }

  method HandleEncodeError(e: Errors, reason: string, runes: seq<int>, i: nat) returns (a: Answer)
    requires i < |runes| && 0 <= runes[i]
    ensures a == HandleEncode(e, reason, runes, i)
  {
    hide Hex, SurrogateToBytes;
    var r := runes[i];
    match e {
      case Strict => a := Raised(UnicodeError(reason, i, i + 1));
      case Ignore => a := Answer([], i + 1);
      case Replace => a := Answer([63], i + 1);
      case BackslashReplace =>
        if r < 0x100 {
          a := Answer([BACKSLASH] + ([120] + Hex(r, 2)), i + 1);
        } else if r < 0x1_0000 {
          a := Answer([BACKSLASH] + ([117] + Hex(r, 4)), i + 1);
        } else {
          a := Answer([BACKSLASH] + ([85] + Hex(r, 8)), i + 1);
        }
      case SurrogateEscape =>
        if r < 0xDC80 || r > 0xDCFF {
          var actualEnd := UnescapableSpan(runes, i);
          return Raised(UnicodeError(reason, i, actualEnd));
        }
        a := Answer([r - 0xDC00], i + 1);
      case SurrogatePass =>
        if r < 0xD800 || r > 0xDFFF { return Raised(UnicodeError(reason, i, i + 1)); }
        a := Answer(SurrogateToBytes(r), i + 1);
      case Unregistered => a := Raised(LookupFailed);
    }
  }

  method SurrogateEscapeDecode(reason: string, input: seq<Byte>, start: nat, end: nat) returns (a: Answer)
    requires start <= end <= |input|
    ensures a == HandleDecode(SurrogateEscape, reason, input, start, end)
  {
    hide RuneBytes, SurrogateToBytes, Hex;
    if start >= end { return Raised(UnicodeError(reason, start, end)); }
    var b: seq<Byte> := [];
    ghost var region := input[start .. end];
    ghost var runes := EscapeRunes(region);
    for i := start to end
      invariant forall k :: 0 <= k < i - start ==> 0x80 <= region[k]
      invariant b == Text(runes, i - start)
    {
      assert region[i - start] == input[i];
      if input[i] < 0x80 {
        return Raised(UnicodeError(reason, start, end));
      }
      assert runes[i - start] == 0xDC00 + (input[i] as int);
      b := b + SurrogateToBytes(0xDC00 + (input[i] as int));
    }
    a := Answer(b, end);
  }

  method BackslashReplaceDecode(reason: string, input: seq<Byte>, start: nat, end: nat) returns (a: Answer)
    requires start <= end <= |input|
    ensures a == HandleDecode(BackslashReplace, reason, input, start, end)
  {
    var out: seq<Byte> := [];
    ghost var region := input[start .. end];
    for i := start to end
      invariant out == EscapedBytes(region[..i - start])
    {
      ghost var done := region[..i - start + 1];
      assert done[..|done| - 1] == region[..i - start] && done[|done| - 1] == input[i];
      out := out + ([BACKSLASH, 120] + Hex(input[i], 2));
    }
    assert region[..|region|] == region;
    a := Answer(out, end);
  }

  method UnescapableSpan(runes: seq<int>, start: nat) returns (actualEnd: nat)
    requires start <= |runes|
    ensures actualEnd == UnescapableEnd(runes, start)
  {
    actualEnd := start;
    while actualEnd < |runes|
      invariant start <= actualEnd <= |runes|
      invariant UnescapableEnd(runes, actualEnd) == UnescapableEnd(runes, start)
    {
      var r := runes[actualEnd];
      var escapable := 0xDC80 <= r <= 0xDCFF;
      if !IsSurrogate(r) || escapable { break; }
      actualEnd := actualEnd + 1;
    }
  }
}
