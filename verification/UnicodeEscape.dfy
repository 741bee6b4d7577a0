// The unicode-escape codec: text as printable ASCII with backslash escapes.
module UnicodeEscape {
  import opened Bytes
  import opened Bytecode
  import opened ErrorHandlers
  import opened Utf8
  import opened Utf8Proofs

  // ----- encoding -----

  // The runes a Go range loop sees: a byte that starts no well-formed sequence
  // counts as U+FFFD.
  function RangeRunes(b: seq<Byte>, i: nat): (r: seq<int>)
    requires i <= |b|
    ensures forall k :: 0 <= k < |r| ==> IsScalar(r[k])
    decreases |b| - i
  {
    if i == |b| then []
    else
      match Scan(b, i)
      case Char(cp, n) => [cp] + RangeRunes(b, i + n)
      case Bad(_, _) => [RUNE_ERROR] + RangeRunes(b, i + 1)
  }

  function Escape(r: int): (s: seq<Byte>)
    requires IsCodePoint(r)
    ensures 0 < |s|
  {
    if r == 92 then [92, 92]
    else if r == 9 then [92, 116]
    else if r == 10 then [92, 110]
    else if r == 13 then [92, 114]
    else if 0x20 <= r < 0x7F then [r]
    else if r < 0x100 then [92, 120] + Hex(r, 2)
    else if r < 0x1_0000 then [92, 117] + Hex(r, 4)
    else [92, 85] + Hex(r, 8)
  }

  function Escapes(runes: seq<int>, i: nat): seq<Byte>
    requires i <= |runes| && AllCodePoints(runes)
    decreases |runes| - i
  {
    if i == |runes| then [] else Escape(runes[i]) + Escapes(runes, i + 1)
  }

  function Encode(text: seq<Byte>): seq<Byte> { Escapes(RangeRunes(text, 0), 0) }

  method EncodeUnicodeEscape(text: seq<Byte>) returns (out: seq<Byte>)
    ensures out == Encode(text)
  {
    hide Scan, Escape;
    out := [];
    var i := 0;
    ghost var runes, k := RangeRunes(text, 0), 0;
    while i < |text|
      invariant i <= |text| && k <= |runes| && runes[k..] == RangeRunes(text, i)
      invariant out + Escapes(runes, k) == Encode(text)
      decreases |text| - i
    {
      var cp, n, _, _ := ScanBytes(text, i);
      var r := if n > 0 then cp else RUNE_ERROR;
      ghost var was := out;
      assert runes[k] == runes[k..][0] == r && runes[k + 1 ..] == runes[k..][1..];
      out := out + Escape(r);
      assert was + (Escape(r) + Escapes(runes, k + 1)) == out + Escapes(runes, k + 1);
      i := i + if n > 0 then n else 1;
      k := k + 1;
    }
    assert runes[k..] == [] && |runes[k..]| == |runes| - k;
    assert out + [] == out;
  }

  // ----- decoding -----

  // The value of a hexadecimal digit, or -1.
  function FromHex(c: int): (v: int)
    ensures -1 <= v < 16
  {
    if 48 <= c <= 57 then c - 48 else if 97 <= c <= 102 then c - 97 + 10 else if 65 <= c <= 70 then c - 65 + 10 else -1
  }

  // count digits from s on, in 32-bit arithmetic; where reading stopped.
  datatype HexRead = HexRead(ok: bool, ch: int, s: nat)

  function ReadHex(b: seq<Byte>, s: nat, count: nat, ch: int): (r: HexRead)
    requires s <= |b|
    ensures s <= r.s <= |b|
    decreases count
  {
    if count == 0 then HexRead(true, ch, s)
    else if s >= |b| || FromHex(b[s]) < 0 then HexRead(false, ch, s)
    else ReadHex(b, s + 1, count - 1, ToInt32(ch * 16 + FromHex(b[s])))
  }

  predicate IsOctal(c: int) { 48 <= c <= 55 }

  function ReadOctal(b: seq<Byte>, s: nat, count: nat, ch: nat): (r: (nat, nat))
    requires s <= |b|
    ensures s <= r.1 <= |b|
    decreases count
  {
    if count > 0 && s < |b| && IsOctal(b[s]) then ReadOctal(b, s + 1, count - 1, ch * 8 + (b[s] - 48)) else (ch, s)
  }

  function NameEnd(b: seq<Byte>, s: nat): (j: nat)
    requires s <= |b|
    ensures s <= j <= |b|
    ensures j < |b| ==> b[j] == 125
    decreases |b| - s
  {
    if s < |b| && b[s] != 125 then NameEnd(b, s + 1) else s
  }

  // One element of the input: what it writes, or a failure of bytes start up
  // to s.
  datatype Element = Write(out: seq<Byte>, s: nat) | Error(message: string, start: nat, s: nat)

  // The code point of a Unicode name, or a negative number.
  type Names = seq<Byte> -> int

  function SimpleEscape(c: int): int {
    if c == 92 || c == 39 || c == 34 then c
    else if c == 98 then 8 else if c == 102 then 12 else if c == 116 then 9 else if c == 110 then 10
    else if c == 114 then 13 else if c == 118 then 11 else if c == 97 then 7 else -1
  }

  function NumericEscape(b: seq<Byte>, start: nat, s: nat, count: nat, message: string): (e: Element)
    requires start < s <= |b|
    ensures start < e.s <= |b| && (e.Error? ==> e.start == start)
  {
    var r := ReadHex(b, s, count, 0);
    if !r.ok then Error(message, start, r.s)
    else if r.ch > 0x10_FFFF then Error("illegal Unicode character", start, r.s)
    else Write(AnyRuneBytes(r.ch), r.s)
  }

  function NamedEscape(b: seq<Byte>, start: nat, s: nat, names: Names): (e: Element)
    requires start < s <= |b|
    ensures start < e.s <= |b| && (e.Error? ==> e.start == start)
  {
    if s < |b| && b[s] == 123 then
      var j := NameEnd(b, s + 1);
      if j >= |b| || j == s + 1 then Error("malformed \\N character escape", start, j)
      else if names(b[s + 1 .. j]) >= 0 then Write(AnyRuneBytes(names(b[s + 1 .. j])), j + 1)
      else Error("unknown Unicode character name", start, j + 1)
    else Error("malformed \\N character escape", start, s)
  }

  function ReadElement(b: seq<Byte>, s: nat, names: Names): (e: Element)
    requires s < |b|
    ensures s < e.s <= |b| && (e.Error? ==> e.start == s)
  {
    if b[s] != 92 then Write(AnyRuneBytes(b[s]), s + 1)
    else if s + 1 >= |b| then Error("\\ at end of string", s, s + 1)
    else
      var c := b[s + 1];
      if c == 10 then Write([], s + 2)
      else if SimpleEscape(c) >= 0 then Write(AnyRuneBytes(SimpleEscape(c)), s + 2)
      else if IsOctal(c) then
        var (ch, t) := ReadOctal(b, s + 2, 2, c - 48);
        Write(AnyRuneBytes(ch), t)
      else if c == 120 then NumericEscape(b, s, s + 2, 2, "truncated \\xXX escape")
      else if c == 117 then NumericEscape(b, s, s + 2, 4, "truncated \\uXXXX escape")
      else if c == 85 then NumericEscape(b, s, s + 2, 8, "truncated \\UXXXXXXXX escape")
      else if c == 78 then NamedEscape(b, s, s + 2, names)
      else Write(AnyRuneBytes(92) + AnyRuneBytes(c), s + 2)
  }

  function DecodeFrom(b: seq<Byte>, s: nat, e: Errors, names: Names): Outcome<Byte>
    requires s <= |b|
    decreases |b| - s
  {
    if s == |b| then Decoded([])
    else
      match ReadElement(b, s, names)
      case Write(out, t) => Prepend(out, DecodeFrom(b, t, e, names))
      case Error(message, start, t) =>
        match HandleElsewhere(e, message, b, start, t)
        case Raised(why) => Failed(why)
        case Answer(rep, newpos) => Prepend(rep, DecodeFrom(b, newpos, e, names))
  }

  function Decode(b: seq<Byte>, e: Errors, names: Names): Outcome<Byte> {
    if e == Unregistered then Failed(LookupFailed) else DecodeFrom(b, 0, e, names)
  }

  // The loop over the digits of a numeric escape.
  method ReadHexDigits(b: seq<Byte>, start: nat, count: nat) returns (ok: bool, ch: int, s: nat)
    requires start <= |b|
    ensures HexRead(ok, ch, s) == ReadHex(b, start, count, 0)
  {
    ok, ch, s := true, 0, start;
    var left: nat := count;
    while left > 0
      invariant start <= s <= |b| && ok
      invariant ReadHex(b, s, left, ch) == ReadHex(b, start, count, 0)
    {
      if s >= |b| { return false, ch, s; }
      var d := FromHex(b[s]);
      if d < 0 { return false, ch, s; }
      ch := ToInt32(ch * 16 + d);
      s := s + 1;
      left := left - 1;
    }
  }

  method ReadNumericEscape(b: seq<Byte>, start: nat, s: nat, count: nat, message: string) returns (e: Element)
    requires start < s <= |b|
    ensures e == NumericEscape(b, start, s, count, message)
  {
    var ok, ch, t := ReadHexDigits(b, s, count);
    if !ok { return Error(message, start, t); }
    if ch > 0x10_FFFF { return Error("illegal Unicode character", start, t); }
    e := Write(AnyRuneBytes(ch), t);
  }

  // One to three octal digits, the first of which is b[s - 1].
  method ReadOctalEscape(b: seq<Byte>, s: nat) returns (ch: int, t: nat)
    requires 0 < s <= |b| && IsOctal(b[s - 1])
    ensures (ch, t) == ReadOctal(b, s, 2, b[s - 1] - 48) && 0 <= ch
  {
    ch, t := b[s - 1] - 48, s;
    if t < |b| && 48 <= b[t] <= 55 {
      ch, t := ch * 8 + (b[t] - 48), t + 1;
      if t < |b| && 48 <= b[t] <= 55 {
        ch, t := ch * 8 + (b[t] - 48), t + 1;
      }
    }
  }

  method ReadNamedEscape(b: seq<Byte>, start: nat, at: nat, names: Names) returns (e: Element)
    requires start < at <= |b|
    ensures e == NamedEscape(b, start, at, names)
  {
    hide AnyRuneBytes;
    var message := "malformed \\N character escape";
    var s := at;
    if s < |b| && b[s] == 123 {
      s := s + 1;
      var nameStart := s;
      while s < |b| && b[s] != 125
        invariant nameStart <= s <= |b|
        invariant NameEnd(b, s) == NameEnd(b, nameStart)
      {
        s := s + 1;
      }
      if s < |b| {
        var namelen := s - nameStart;
        if namelen > 0 {
          var name := b[nameStart .. s];
          s := s + 1;
          if names(name) >= 0 { return Write(AnyRuneBytes(names(name)), s); }
          message := "unknown Unicode character name";
        }
      }
    }
    e := Error(message, start, s);
  }

  // The branches of the loop body.
  method ReadOne(b: seq<Byte>, start: nat, names: Names) returns (e: Element)
    requires start < |b|
    ensures e == ReadElement(b, start, names)
  {
    hide NumericEscape, NamedEscape, ReadOctal, AnyRuneBytes;
    var c, s := b[start], start + 1;
    if c != 92 { return Write(AnyRuneBytes(c), s); }
    if s >= |b| { return Error("\\ at end of string", start, s); }
    c, s := b[s], s + 1;
    if c == 10 {
      e := Write([], s);
    } else if c == 92 || c == 39 || c == 34 {
      e := Write(AnyRuneBytes(c), s);
    } else if c == 98 {
      e := Write(AnyRuneBytes(8), s);
    } else if c == 102 {
      e := Write(AnyRuneBytes(12), s);
    } else if c == 116 {
      e := Write(AnyRuneBytes(9), s);
    } else if c == 110 {
      e := Write(AnyRuneBytes(10), s);
    } else if c == 114 {
      e := Write(AnyRuneBytes(13), s);
    } else if c == 118 {
      e := Write(AnyRuneBytes(11), s);
    } else if c == 97 {
      e := Write(AnyRuneBytes(7), s);
    } else if 48 <= c <= 55 {
      var ch, t := ReadOctalEscape(b, s);
      e := Write(AnyRuneBytes(ch), t);
    } else if c == 120 {
      e := ReadNumericEscape(b, start, s, 2, "truncated \\xXX escape");
    } else if c == 117 {
      e := ReadNumericEscape(b, start, s, 4, "truncated \\uXXXX escape");
    } else if c == 85 {
      e := ReadNumericEscape(b, start, s, 8, "truncated \\UXXXXXXXX escape");
    } else if c == 78 {
      e := ReadNamedEscape(b, start, s, names);
    } else {
      e := Write(AnyRuneBytes(92) + AnyRuneBytes(c), s);
    }
  }

  method DecodeUnicodeEscape(input: seq<Byte>, e: Errors, names: Names) returns (r: Outcome<Byte>)
    ensures r == Decode(input, e, names)
  {
    hide ReadElement, HandleElsewhere;
    if e == Unregistered { return Failed(LookupFailed); }
    var out: seq<Byte> := [];
    var s := 0;
    assert Prepend([], DecodeFrom(input, 0, e, names)) == DecodeFrom(input, 0, e, names) by {
      PrependNothing(DecodeFrom(input, 0, e, names));
    }
    while s < |input|
      invariant s <= |input|
      invariant DecodeFrom(input, 0, e, names) == Prepend(out, DecodeFrom(input, s, e, names))
      decreases |input| - s
    {
      ghost var was := out;
      var element := ReadOne(input, s, names);
      match element {
        case Write(bytes, t) =>
          out := out + bytes;
          s := t;
          PrependTwice(was, bytes, DecodeFrom(input, s, e, names));
        case Error(message, start, t) =>
          var answer := HandleErrorElsewhere(e, message, input, start, t);
          match answer {
            case Raised(why) => return Failed(why);
            case Answer(rep, newpos) =>
              out := out + rep;
              s := newpos;
              PrependTwice(was, rep, DecodeFrom(input, s, e, names));
          }
      }
    }
    assert out + [] == out;
    r := Decoded(out);
  }

  // ----- the round trip -----

  lemma HexDigitBack(d: int)
    requires 0 <= d < 16
    ensures FromHex(HexDigit(d)) == d
  {
  }

  // Reading m digits and then n more.
  lemma {:induction false} ReadHexSplit(b: seq<Byte>, s: nat, m: nat, n: nat, ch: int)
    requires s <= |b|
    ensures var r := ReadHex(b, s, m, ch);
            r.ok ==> ReadHex(b, s, m + n, ch) == ReadHex(b, r.s, n, r.ch)
    decreases m
  {
    hide ToInt32, FromHex;
    if m > 0 && s < |b| && FromHex(b[s]) >= 0 {
      ReadHexSplit(b, s + 1, m - 1, n, ToInt32(ch * 16 + FromHex(b[s])));
    }
  }

  lemma {:induction false} HexBack(b: seq<Byte>, s: nat, v: nat, n: nat)
    requires s <= |b| && Holds(b, s, Hex(v, n)) && v < Pow16(n) && v < 0x8000_0000
    ensures ReadHex(b, s, n, 0) == HexRead(true, v, s + n)
    decreases n
  {
    if n > 0 {
      HoldsSplit(b, s, Hex(v / 16, n - 1), [HexDigit(v % 16)]);
      HexBack(b, s, v / 16, n - 1);
      ReadHexSplit(b, s, n - 1, 1, 0);
      HoldsAt(b, s + n - 1, [HexDigit(v % 16)], 0);
      HexDigitBack(v % 16);
      assert v / 16 * 16 + v % 16 == v;
      assert ReadHex(b, s + n - 1, 1, v / 16) == ReadHex(b, s + n, 0, ToInt32(v));
    }
  }

  lemma {:induction false} EscapeBack(b: seq<Byte>, s: nat, r: int, names: Names)
    requires IsCodePoint(r) && Holds(b, s, Escape(r))
    ensures s < |b| && ReadElement(b, s, names) == Write(RuneBytes(r), s + |Escape(r)|)
  {
    hide RuneBytes, ReadHex, Hex, Holds;
    var block := Escape(r);
    HoldsAt(b, s, block, 0);
    if !(0x20 <= r < 0x7F) || r == 92 { HoldsAt(b, s, block, 1); }
    if r != 92 && r != 9 && r != 10 && r != 13 && !(0x20 <= r < 0x7F) {
      NumericBack(b, s, r);
    }
  }

  lemma {:induction false} NumericBack(b: seq<Byte>, s: nat, r: int)
    requires IsCodePoint(r) && Holds(b, s, Escape(r))
    requires r != 92 && r != 9 && r != 10 && r != 13 && !(0x20 <= r < 0x7F)
    ensures var n := if r < 0x100 then 2 else if r < 0x1_0000 then 4 else 8;
            s + 2 + n <= |b| && ReadHex(b, s + 2, n, 0) == HexRead(true, r, s + 2 + n)
  {
    hide ReadHex, Hex;
    var n := if r < 0x100 then 2 else if r < 0x1_0000 then 4 else 8;
    var head := [92, if r < 0x100 then 120 else if r < 0x1_0000 then 117 else 85];
    assert Escape(r) == head + Hex(r, n);
    HoldsSplit(b, s, head, Hex(r, n));
    assert Pow16(2) == 0x100 && Pow16(4) == 0x1_0000 && Pow16(8) == 0x1_0000_0000 by { PowersOf16(); }
    HexBack(b, s + 2, r, n);
  }

  lemma PowersOf16()
    ensures Pow16(2) == 0x100 && Pow16(4) == 0x1_0000 && Pow16(8) == 0x1_0000_0000
  {
    assert Pow16(1) == 16 && Pow16(3) == 0x1000 && Pow16(5) == 0x10_0000 && Pow16(6) == 0x100_0000 && Pow16(7) == 0x1000_0000;
  }

  lemma {:induction false} EscapesBack(b: seq<Byte>, s: nat, runes: seq<int>, i: nat, e: Errors, names: Names)
    requires i <= |runes| && AllCodePoints(runes) && s <= |b|
    requires Holds(b, s, Escapes(runes, i)) && s + |Escapes(runes, i)| == |b|
    ensures var r := DecodeFrom(b, s, e, names);
            r.Decoded? && Text(runes, i) + r.text == Text(runes, |runes|)
    decreases |runes| - i
  {
    hide Escape, ReadElement, RuneBytes, Holds;
    if i == |runes| {
      assert Text(runes, i) + [] == Text(runes, i);
    } else {
      var block := Escape(runes[i]);
      HoldsSplit(b, s, block, Escapes(runes, i + 1));
      EscapeBack(b, s, runes[i], names);
      EscapesBack(b, s + |block|, runes, i + 1, e, names);
      var rest := DecodeFrom(b, s + |block|, e, names).text;
      assert Text(runes, i) + (RuneBytes(runes[i]) + rest) == Text(runes, i) + RuneBytes(runes[i]) + rest;
    }
  }

  // Decoding what was encoded gives the text as the range loop saw it.
  lemma {:induction false} DecodesEncoded(text: seq<Byte>, e: Errors, names: Names)
    requires e != Unregistered
    ensures var runes := RangeRunes(text, 0);
            Decode(Encode(text), e, names) == Decoded(Text(runes, |runes|))
  {
    var runes := RangeRunes(text, 0);
    var b := Encode(text);
    assert b[0 .. 0 + |b|] == b;
    EscapesBack(b, 0, runes, 0, e, names);
    var out := DecodeFrom(b, 0, e, names).text;
    assert Text(runes, 0) + out == out;
  }

  lemma {:induction false} TextIsUnits(runes: seq<int>, n: nat) returns (us: seq<seq<Byte>>)
    requires n <= |runes| && AllCodePoints(runes) && forall k :: 0 <= k < |runes| ==> IsScalar(runes[k])
    ensures AllUnits(us) && Join(us) == Text(runes, n)
    decreases n
  {
    hide RuneBytes, IsUnit;
    if n == 0 { return []; }
    var front := TextIsUnits(runes, n - 1);
    RuneIsUnit(runes[n - 1]);
    us := front + [RuneBytes(runes[n - 1])];
    JoinSnoc(front, RuneBytes(runes[n - 1]));
  }

  lemma {:induction false} JoinSnoc(us: seq<seq<Byte>>, u: seq<Byte>)
    ensures Join(us + [u]) == Join(us) + u
    decreases |us|
  {
    if us == [] {
      assert (us + [u])[1..] == [] && u + [] == u && [] + u == u;
    } else {
      assert (us + [u])[1..] == us[1..] + [u];
      JoinSnoc(us[1..], u);
      assert us[0] + (Join(us[1..]) + u) == us[0] + Join(us[1..]) + u;
    }
  }

  lemma {:induction false} UnitsRange(b: seq<Byte>, i: nat, us: seq<seq<Byte>>)
    requires i <= |b| && AllUnits(us) && b[i..] == Join(us)
    ensures RangeRunes(b, i) == Scalars(us)
    decreases |us|
  {
    hide Scan, Scalar, IsUnit;
    if us == [] {
    } else {
      var u, rest := us[0], Join(us[1..]);
      var n := |u|;
      assert b[i..] == u + rest;
      assert b[i .. i + n] == b[i..][..n] == u;
      assert b[i + n ..] == b[i..][n..] == rest;
      UnitNonempty(u);
      UnitIsChar(b, i, n);
      UnitsRange(b, i + n, us[1..]);
      assert Scalars(us) == [Scalar(u)] + Scalars(us[1..]);
    }
  }

  lemma {:induction false} ScalarsText(us: seq<seq<Byte>>)
    requires AllUnits(us)
    ensures AllCodePoints(Scalars(us)) && Text(Scalars(us), |us|) == Join(us)
    decreases |us|
  {
    hide RuneBytes, Scalar, IsUnit;
    forall k | 0 <= k < |us| ensures IsCodePoint(Scalars(us)[k]) { UnitBytes(us[k]); }
    if us != [] {
      var front, u := us[..|us| - 1], us[|us| - 1];
      ScalarsText(front);
      UnitBytes(u);
      assert us == front + [u];
      JoinSnoc(front, u);
      assert Scalars(us) == Scalars(front) + [Scalar(u)];
      TextOfPrefix(Scalars(front), [Scalar(u)], |front|);
    }
  }

  // A text survives the trip exactly when it is well-formed UTF-8: a lone
  // surrogate in it comes back as three replacement characters.
  lemma {:induction false} UnicodeEscapeRoundTrip(text: seq<Byte>, names: Names)
    ensures Decode(Encode(text), Strict, names) == Decoded(text) <==> WellFormed(text)
  {
    var runes := RangeRunes(text, 0);
    DecodesEncoded(text, Strict, names);
    assert text[0..] == text;
    if WellFormed(text) {
      var us :| AllUnits(us) && Join(us) == text;
      UnitsRange(text, 0, us);
      ScalarsText(us);
    }
    if Text(runes, |runes|) == text {
      var us := TextIsUnits(runes, |runes|);
      assert AllUnits(us) && Join(us) == text;
    }
  }

  // ----- eight-digit escapes -----

  // The number that n hexadecimal digits from s on spell.
  function HexValue(b: seq<Byte>, s: nat, n: nat): (v: nat)
    requires s + n <= |b| && forall k :: s <= k < s + n ==> FromHex(b[k]) >= 0
  {
    if n == 0 then 0 else HexValue(b, s, n - 1) * 16 + FromHex(b[s + n - 1])
  }

  lemma {:induction false} HexValueBelow(b: seq<Byte>, s: nat, n: nat)
    requires s + n <= |b| && forall k :: s <= k < s + n ==> FromHex(b[k]) >= 0
    ensures HexValue(b, s, n) < Pow16(n)
    decreases n
  {
    hide FromHex;
    if n > 0 {
      HexValueBelow(b, s, n - 1);
      assert FromHex(b[s + n - 1]) < 16;
    }
  }

  lemma WrapsAgain(x: int, d: int)
    ensures ToInt32(ToInt32(x) * 16 + d) == ToInt32(x * 16 + d)
  {
    var q := (x - ToInt32(x)) / 0x1_0000_0000;
    assert x == ToInt32(x) + q * 0x1_0000_0000;
    assert x * 16 + d == ToInt32(x) * 16 + d + q * 16 * 0x1_0000_0000;
    WrapPeriod(ToInt32(x) * 16 + d, q * 16);
  }

  lemma WrapPeriod(y: int, k: int)
    ensures ToInt32(y + k * 0x1_0000_0000) == ToInt32(y)
  {
  }

  // The digit loop computes the number in 32 bits.
  lemma {:induction false} HexReadWraps(b: seq<Byte>, s: nat, n: nat)
    requires s + n <= |b| && forall k :: s <= k < s + n ==> FromHex(b[k]) >= 0
    ensures ReadHex(b, s, n, 0) == HexRead(true, ToInt32(HexValue(b, s, n)), s + n)
    decreases n
  {
    hide ToInt32, FromHex;
    if n == 0 {
      assert ToInt32(0) == 0 by { WrapsNothing(0); }
    } else {
      HexReadWraps(b, s, n - 1);
      ReadHexSplit(b, s, n - 1, 1, 0);
      var v, d := HexValue(b, s, n - 1), FromHex(b[s + n - 1]);
      WrapsAgain(v, d);
      assert ReadHex(b, s + n - 1, 1, ToInt32(v)) == ReadHex(b, s + n, 0, ToInt32(ToInt32(v) * 16 + d));
    }
  }

  lemma WrapsNothing(x: int)
    ensures -0x8000_0000 <= x < 0x8000_0000 ==> ToInt32(x) == x
    ensures 0x8000_0000 <= x < 0x1_0000_0000 ==> ToInt32(x) == x - 0x1_0000_0000
  {
  }

  // A number behind \U is refused exactly from 0x110000 up to 2^31 - 1: from
  // 2^31 on it is negative in 32 bits, passes the range check and is written
  // as U+FFFD.
  lemma {:induction false} EightDigits(b: seq<Byte>, s: nat, names: Names)
    requires s + 10 <= |b| && b[s] == 92 && b[s + 1] == 85
    requires forall k :: s + 2 <= k < s + 10 ==> FromHex(b[k]) >= 0
    ensures var v, e := HexValue(b, s + 2, 8), ReadElement(b, s, names);
            && (e.Error? <==> 0x10_FFFF < v < 0x8000_0000)
            && (v <= 0x10_FFFF ==> e == Write(RuneBytes(v), s + 10))
            && (0x8000_0000 <= v ==> e == Write(RuneBytes(RUNE_ERROR), s + 10))
  {
    hide ReadHex, FromHex, ToInt32, RuneBytes, HexValue;
    var v := HexValue(b, s + 2, 8);
    HexReadWraps(b, s + 2, 8);
    HexValueBelow(b, s + 2, 8);
    PowersOf16();
    WrapsNothing(v);
  }

  // Printable ASCII stays as it is, but for the backslash; four characters have
  // a letter; everything else takes the shortest of the three numeric forms.
  lemma {:induction false} EscapeIs(r: int)
    requires IsCodePoint(r)
    ensures 0x20 <= r < 0x7F && r != 92 ==> Escape(r) == [r]
    ensures r in {92, 9, 10, 13} ==> |Escape(r)| == 2 && Escape(r)[0] == 92 && Escape(r)[1] as char == (if r == 9 then 't' else if r == 10 then 'n' else if r == 13 then 'r' else '\\')
    ensures !(0x20 <= r < 0x7F) && r !in {9, 10, 13} ==>
              var n := if r < 0x100 then 2 else if r < 0x1_0000 then 4 else 8;
              && |Escape(r)| == 2 + n && Escape(r)[0] == 92
              && Escape(r)[1] as char == (if n == 2 then 'x' else if n == 4 then 'u' else 'U') && SpellsHex(Escape(r)[2..], r, n)
  {
    hide Hex, SpellsHex;
    if !(0x20 <= r < 0x7F) && r !in {9, 10, 13} {
      var n := if r < 0x100 then 2 else if r < 0x1_0000 then 4 else 8;
      HexSpells(r, n);
      assert Escape(r)[2..] == Hex(r, n);
    }
  }

  // ----- the other escapes -----

  // The characters that stand for themselves or a control character behind a
  // backslash, and what they stand for.
  const LETTERS: string := "\\'\"abfnrtv"
  const MEANINGS: seq<int> := [92, 39, 34, 7, 8, 12, 10, 13, 9, 11]

  predicate IsSpecial(c: int) { c == 10 || 48 <= c <= 55 || c == 120 || c == 117 || c == 85 || c == 78 }

  // One of them, a backslash before a line feed, any other character behind a
  // backslash, a lone backslash at the end, and a character of its own.
  lemma {:induction false} SimpleEscapes(b: seq<Byte>, s: nat, names: Names)
    requires s < |b|
    ensures b[s] != 92 ==> ReadElement(b, s, names) == Write(RuneBytes(b[s]), s + 1)
    ensures b[s] == 92 && s + 1 == |b| ==> ReadElement(b, s, names) == Error("\\ at end of string", s, |b|)
    ensures b[s] == 92 && s + 1 < |b| && b[s + 1] == 10 ==> ReadElement(b, s, names) == Write([], s + 2)
    ensures b[s] == 92 && s + 1 < |b| ==>
              forall k :: 0 <= k < |LETTERS| && b[s + 1] == LETTERS[k] as int ==> ReadElement(b, s, names) == Write([MEANINGS[k]], s + 2)
    ensures b[s] == 92 && s + 1 < |b| && !IsSpecial(b[s + 1]) && b[s + 1] as char !in LETTERS ==>
              ReadElement(b, s, names) == Write([92] + RuneBytes(b[s + 1]), s + 2)
  {
    hide NumericEscape, NamedEscape, ReadOctal;
  }

  function OctalDigit(c: Byte): int { c as int - 48 }

  // The number that up to three octal digits spell.
  function OctalValue(d: seq<Byte>): int { if d == [] then 0 else 8 * OctalValue(d[..|d| - 1]) + OctalDigit(d[|d| - 1]) }

  // One to three octal digits, as many as there are.
  lemma {:induction false} OctalEscape(b: seq<Byte>, s: nat, n: nat, names: Names)
    requires 1 <= n <= 3 && s + 1 + n <= |b| && b[s] == 92 && forall k :: s + 1 <= k < s + 1 + n ==> IsOctal(b[k])
    requires n == 3 || s + 1 + n == |b| || !IsOctal(b[s + 1 + n])
    ensures 0 <= OctalValue(b[s + 1 .. s + 1 + n]) < 0x200
    ensures ReadElement(b, s, names) == Write(RuneBytes(OctalValue(b[s + 1 .. s + 1 + n])), s + 1 + n)
  {
    hide NumericEscape, NamedEscape, RuneBytes;
    var d := b[s + 1 .. s + 1 + n];
    OctalDigits(d);
    assert d[0] == b[s + 1];
    if n > 1 { assert d[1] == b[s + 2]; }
    if n > 2 { assert d[2] == b[s + 3]; }
    OctalReads(b, s + 2, n - 1, OctalDigit(b[s + 1]));
  }

  lemma {:induction false} OctalDigits(d: seq<Byte>)
    requires 1 <= |d| <= 3
    ensures |d| == 1 ==> OctalValue(d) == OctalDigit(d[0])
    ensures |d| == 2 ==> OctalValue(d) == 8 * OctalDigit(d[0]) + OctalDigit(d[1])
    ensures |d| == 3 ==> OctalValue(d) == 64 * OctalDigit(d[0]) + 8 * OctalDigit(d[1]) + OctalDigit(d[2])
  {
    assert OctalValue(d[..1]) == OctalDigit(d[0]) by { assert d[..1][..0] == []; }
    if |d| >= 2 { assert d[..2][..1] == d[..1] && OctalValue(d[..2]) == 8 * OctalValue(d[..1]) + OctalDigit(d[1]); }
    if |d| == 3 { assert d[..3] == d && OctalValue(d) == 8 * OctalValue(d[..2]) + OctalDigit(d[2]); }
    assert d[..|d|] == d;
  }

  lemma OctalReads(b: seq<Byte>, t: nat, n: nat, first: nat)
    requires n <= 2 && t + n <= |b| && forall k :: t <= k < t + n ==> IsOctal(b[k])
    requires n == 2 || t + n == |b| || !IsOctal(b[t + n])
    ensures ReadOctal(b, t, 2, first) ==
            (if n == 0 then first else if n == 1 then 8 * first + OctalDigit(b[t]) else 64 * first + 8 * OctalDigit(b[t]) + OctalDigit(b[t + 1]), t + n)
  {
    if n > 0 { assert ReadOctal(b, t, 2, first) == ReadOctal(b, t + 1, 1, first * 8 + OctalDigit(b[t])); }
    if n == 2 { assert ReadOctal(b, t + 1, 1, first * 8 + OctalDigit(b[t])) == ReadOctal(b, t + 2, 0, (first * 8 + OctalDigit(b[t])) * 8 + OctalDigit(b[t + 1])); }
  }

  // \N{name}: j is the closing brace, or the end of the input.
  lemma {:induction false} NamedEscapes(b: seq<Byte>, s: nat, j: nat, names: Names)
    requires s + 3 <= j <= |b| && b[s] == 92 && b[s + 1] == 78 && b[s + 2] == 123
    requires (forall k :: s + 3 <= k < j ==> b[k] != 125) && (j < |b| ==> b[j] == 125)
    ensures var e, cp := ReadElement(b, s, names), names(b[s + 3 .. j]);
            && (j == |b| || j == s + 3 ==> e == Error("malformed \\N character escape", s, j))
            && (s + 3 < j < |b| && 0 <= cp <= 0x10_FFFF ==> e == Write(RuneBytes(cp), j + 1))
            && (s + 3 < j < |b| && cp < 0 ==> e == Error("unknown Unicode character name", s, j + 1))
  {
    hide NumericEscape, ReadOctal, RuneBytes;
    NameEnds(b, s + 3, j);
  }

  lemma {:induction false} NameEnds(b: seq<Byte>, i: nat, j: nat)
    requires i <= j <= |b| && (forall k :: i <= k < j ==> b[k] != 125) && (j < |b| ==> b[j] == 125)
    ensures NameEnd(b, i) == j
    decreases j - i
  {
    if i < j { NameEnds(b, i + 1, j); }
  }

  // Without the opening brace there is no name.
  lemma {:induction false} NamelessEscape(b: seq<Byte>, s: nat, names: Names)
    requires s + 2 <= |b| && b[s] == 92 && b[s + 1] == 78 && (s + 2 == |b| || b[s + 2] != 123)
    ensures ReadElement(b, s, names) == Error("malformed \\N character escape", s, s + 2)
  {
    hide NumericEscape, ReadOctal, AnyRuneBytes;
  }

  // The digits that an escape asks for, and what is said of it when some are
  // missing.
  function DigitsAsked(c: int): nat { if c == 120 then 2 else if c == 117 then 4 else 8 }

  function Truncated(c: int): string {
    if c == 120 then "truncated \\xXX escape" else if c == 117 then "truncated \\uXXXX escape" else "truncated \\UXXXXXXXX escape"
  }

  // Fewer digits than asked for are refused, up to the first that is none.
  lemma {:induction false} ShortEscape(b: seq<Byte>, s: nat, n: nat, names: Names)
    requires s + 2 + n <= |b| && b[s] == 92 && (b[s + 1] == 120 || b[s + 1] == 117 || b[s + 1] == 85)
    requires n < DigitsAsked(b[s + 1]) && (forall k :: s + 2 <= k < s + 2 + n ==> FromHex(b[k]) >= 0)
    requires s + 2 + n == |b| || FromHex(b[s + 2 + n]) < 0
    ensures ReadElement(b, s, names) == Error(Truncated(b[s + 1]), s, s + 2 + n)
  {
    hide FromHex, ReadOctal, AnyRuneBytes, NamedEscape;
    ShortRead(b, s + 2, n, DigitsAsked(b[s + 1]), 0);
  }

  lemma {:induction false} ShortRead(b: seq<Byte>, t: nat, n: nat, count: nat, ch: int)
    requires n < count && t + n <= |b| && (forall k :: t <= k < t + n ==> FromHex(b[k]) >= 0)
    requires t + n == |b| || FromHex(b[t + n]) < 0
    ensures !ReadHex(b, t, count, ch).ok && ReadHex(b, t, count, ch).s == t + n
    decreases n
  {
    hide FromHex, ToInt32;
    if n > 0 { ShortRead(b, t + 1, n - 1, count - 1, ToInt32(ch * 16 + FromHex(b[t]))); }
  }

  // Two or four digits always give their code point.
  lemma {:induction false} ShortDigits(b: seq<Byte>, s: nat, names: Names)
    requires s + 2 <= |b| && b[s] == 92 && (b[s + 1] == 120 || b[s + 1] == 117)
    requires var n := DigitsAsked(b[s + 1]); s + 2 + n <= |b| && forall k :: s + 2 <= k < s + 2 + n ==> FromHex(b[k]) >= 0
    ensures var n := DigitsAsked(b[s + 1]);
            HexValue(b, s + 2, n) < 0x1_0000 && ReadElement(b, s, names) == Write(RuneBytes(HexValue(b, s + 2, n)), s + 2 + n)
  {
    hide ReadHex, FromHex, ToInt32, RuneBytes, HexValue, ReadOctal, NamedEscape;
    var n := DigitsAsked(b[s + 1]);
    HexReadWraps(b, s + 2, n);
    HexValueBelow(b, s + 2, n);
    PowersOf16();
    WrapsNothing(HexValue(b, s + 2, n));
  }

  // The value of a digit, upper or lower case.
  lemma {:induction false} DigitValue(c: Byte)
    ensures FromHex(c) >= 0 <==> (c as char in HEX_DIGITS || c as char in "ABCDEF")
    ensures forall k :: 0 <= k < 16 && c as char == HEX_DIGITS[k] ==> FromHex(c) == k
    ensures forall k :: 0 <= k < 6 && c as char == "ABCDEF"[k] ==> FromHex(c) == 10 + k
  {
  }
}
