// UTF-7 (RFC 2152): the encoder, and the decoder with its bit accumulator.
module Utf7 {
  import opened Bytes
  import opened ErrorHandlers

  const PLUS: int := 43
  const MINUS: int := 45

  // ----- alphabets -----

  predicate IsAlnum(r: int) { 65 <= r <= 90 || 97 <= r <= 122 || 48 <= r <= 57 }

  // Characters that stand for themselves: letters, digits, most printable
  // ASCII, tab, line feed, carriage return and space.
  predicate IsDirect(r: int) {
    IsAlnum(r) || r in {9, 10, 13, 32, 39, 40, 41, 44, 45, 46, 47, 58, 63, 34, 91, 93, 33, 35, 36, 37, 38, 42,
                        59, 60, 61, 62, 64, 94, 95, 96, 123, 124, 125, 126}
  }

  // The alphabet of RFC 4648, section 4.
  predicate IsBase64(r: int) { IsAlnum(r) || r == 43 || r == 47 }

  function FromBase64(c: int): (v: nat)
    ensures v < 64
  {
    if 65 <= c <= 90 then c - 65
    else if 97 <= c <= 122 then c - 97 + 26
    else if 48 <= c <= 57 then c - 48 + 52
    else if c == 43 then 62
    else 63
  }

  function ToBase64(v: nat): (c: Byte)
    requires v < 64
    ensures IsBase64(c) && FromBase64(c) == v
  {
    if v < 26 then 65 + v else if v < 52 then 97 + (v - 26) else if v < 62 then 48 + (v - 52) else if v == 62 then 43 else 47
  }

  // ----- encoding -----

  function Utf16(r: int): (u: seq<int>)
    requires 0 <= r
    ensures forall k :: 0 <= k < |u| ==> 0 <= u[k] < 0x1_0000
  {
    if r < 0x1_0000 then [r]
    else if r > 0x10_FFFF then [RUNE_ERROR, RUNE_ERROR]
    else [0xD800 + (r - 0x1_0000) / 0x400, 0xDC00 + (r - 0x1_0000) % 0x400]
  }

  // The code units of runes i up to j.
  function RunUnits(runes: seq<int>, i: nat, j: nat): (u: seq<int>)
    requires i <= j <= |runes| && forall k :: 0 <= k < |runes| ==> 0 <= runes[k]
    ensures forall k :: 0 <= k < |u| ==> 0 <= u[k] < 0x1_0000
  {
    if i == j then [] else RunUnits(runes, i, j - 1) + Utf16(runes[j - 1])
  }

  // Big-endian bytes.
  function UnitBytes(units: seq<int>): (b: seq<Byte>)
    requires forall k :: 0 <= k < |units| ==> 0 <= units[k] < 0x1_0000
    ensures |b| == 2 * |units|
  {
    if units == [] then [] else [units[0] / 0x100, units[0] % 0x100] + UnitBytes(units[1..])
  }

  const PAD: Byte := 61

  // Base64 with padding, as the library's StdEncoding gives it.
  function Base64(b: seq<Byte>): seq<Byte> {
    if |b| == 0 then []
    else if |b| == 1 then [ToBase64(b[0] / 4), ToBase64(b[0] % 4 * 16), PAD, PAD]
    else if |b| == 2 then [ToBase64(b[0] / 4), ToBase64(b[0] % 4 * 16 + b[1] / 16), ToBase64(b[1] % 16 * 4), PAD]
    else
      [ToBase64(b[0] / 4), ToBase64(b[0] % 4 * 16 + b[1] / 16), ToBase64(b[1] % 16 * 4 + b[2] / 64), ToBase64(b[2] % 64)]
      + Base64(b[3..])
  }

  function Stripped(enc: seq<Byte>): seq<Byte> {
    if enc != [] && enc[|enc| - 1] == PAD then Stripped(enc[..|enc| - 1]) else enc
  }

  predicate Breaks(r: int) { IsDirect(r) || r == PLUS }

  // The end of the run of characters that must be shifted.
  function RunEnd(runes: seq<int>, i: nat): (j: nat)
    requires i <= |runes|
    ensures i <= j <= |runes|
    ensures forall k :: i <= k < j ==> !Breaks(runes[k])
    ensures j < |runes| ==> Breaks(runes[j])
    decreases |runes| - i
  {
    if i < |runes| && !Breaks(runes[i]) then RunEnd(runes, i + 1) else i
  }

  // The closing minus is written only where what follows could be read as part
  // of the shifted run.
  function Closing(runes: seq<int>, j: nat): seq<Byte>
    requires j <= |runes|
  {
    if j >= |runes| || IsBase64(runes[j]) || runes[j] == MINUS then [MINUS] else []
  }

  // What is written for the character at i, or for the run that starts there,
  // and where to go on.
  function Piece(runes: seq<int>, i: nat): (r: (seq<Byte>, nat))
    requires i < |runes| && forall k :: 0 <= k < |runes| ==> 0 <= runes[k]
    ensures i < r.1 <= |runes|
  {
    if runes[i] == PLUS then ([PLUS, MINUS], i + 1)
    else if IsDirect(runes[i]) then ([runes[i]], i + 1)
    else
      var j := RunEnd(runes, i);
      ([PLUS] + Stripped(Base64(UnitBytes(RunUnits(runes, i, j)))) + Closing(runes, j), j)
  }

  function EncodeFrom(runes: seq<int>, i: nat): seq<Byte>
    requires i <= |runes| && forall k :: 0 <= k < |runes| ==> 0 <= runes[k]
    decreases |runes| - i
  {
    if i == |runes| then []
    else
      var (p, j) := Piece(runes, i);
      p + EncodeFrom(runes, j)
  }

  method EncodeUtf7(text: seq<Byte>) returns (out: seq<Byte>, n: nat)
    ensures out == EncodeFrom(RunesFrom(text, 0), 0) && n == |RunesFrom(text, 0)|
  {
    hide Piece;
    var runes := LenientRunes(text);
    out := [];
    var i := 0;
    while i < |runes|
      invariant i <= |runes|
      invariant out + EncodeFrom(runes, i) == EncodeFrom(runes, 0)
      decreases |runes| - i
    {
      ghost var was := out;
      var p, j := EncodePiece(runes, i);
      out := out + p;
      i := j;
      assert was + (p + EncodeFrom(runes, i)) == out + EncodeFrom(runes, i);
    }
    assert out + [] == out;
    n := |runes|;
  }

  method EncodePiece(runes: seq<int>, i: nat) returns (p: seq<Byte>, j: nat)
    requires i < |runes| && forall k :: 0 <= k < |runes| ==> 0 <= runes[k]
    ensures (p, j) == Piece(runes, i)
  {
    hide Base64, UnitBytes, Stripped, RunUnits, IsDirect, IsBase64;
    var r := runes[i];
    if r == PLUS { return [PLUS, MINUS], i + 1; }
    if IsDirect(r) {
      DirectIsAscii(r);
      return [r], i + 1;
    }
    p, j := EncodeRun(runes, i);
    p := [PLUS] + p;
    assert p + [] == p;
    if j >= |runes| || IsBase64(runes[j]) || runes[j] == MINUS {
      p := p + [MINUS];
    }
  }

  lemma DirectIsAscii(r: int)
    requires IsDirect(r)
    ensures 0 <= r < 0x80 && r != PLUS
  {
  }

  // A run of characters that are not direct, as unpadded base64.
  method EncodeRun(runes: seq<int>, i: nat) returns (enc: seq<Byte>, j: nat)
    requires i < |runes| && !Breaks(runes[i]) && forall k :: 0 <= k < |runes| ==> 0 <= runes[k]
    ensures j == RunEnd(runes, i) && i < j
    ensures enc == Stripped(Base64(UnitBytes(RunUnits(runes, i, j))))
  {
    hide Base64, UnitBytes;
    var u16: seq<int> := [];
    j := i;
    while j < |runes| && !IsDirect(runes[j]) && runes[j] != PLUS
      invariant i <= j <= |runes|
      invariant RunEnd(runes, j) == RunEnd(runes, i)
      invariant u16 == RunUnits(runes, i, j)
    {
      u16 := u16 + Utf16(runes[j]);
      j := j + 1;
    }
    enc := Base64(UnitBytes(u16));
    while enc != [] && enc[|enc| - 1] == PAD
      invariant Stripped(enc) == Stripped(Base64(UnitBytes(u16)))
      decreases |enc|
    {
      enc := enc[..|enc| - 1];
    }
  }

  // ----- decoding -----

  // The state of the decoder between input bytes: in a shift sequence or not,
  // the bits collected, and a first surrogate waiting for its second (0: none).
  datatype Shift = Shift(inShift: bool, bits: nat, buffer: nat, surrogate: int)

  const OUTSIDE := Shift(false, 0, 0, 0)

  function Pow2(n: nat): (p: nat)
    ensures 0 < p
  {
    if n == 0 then 1 else 2 * Pow2(n - 1)
  }

  predicate Settled(d: Shift) { d.bits < 16 }

  predicate IsHigh(u: int) { 0xD800 <= u <= 0xDBFF }

  predicate IsLow(u: int) { 0xDC00 <= u <= 0xDFFF }

  function Combine(hi: int, lo: int): int { 0x1_0000 + (hi - 0xD800) * 0x400 + (lo - 0xDC00) }

  // One code unit: what it adds to the output, and the surrogate that waits.
  function Unit(surrogate: int, u: int): (seq<int>, int) {
    if surrogate != 0 && IsLow(u) then ([Combine(surrogate, u)], 0)
    else
      var before := if surrogate != 0 then [surrogate] else [];
      if IsHigh(u) then (before, u) else (before + [u], 0)
  }

  // Six more bits; sixteen make a unit.
  function Collect(d: Shift, v: nat): (r: (Shift, seq<int>))
    requires Settled(d) && v < 64
    ensures Settled(r.0)
  {
    var buffer, bits := d.buffer * 64 + v, d.bits + 6;
    if bits < 16 then (d.(bits := bits, buffer := buffer), [])
    else
      var u := buffer / Pow2(bits - 16) % 0x1_0000;
      var (out, surrogate) := Unit(d.surrogate, u);
      (d.(bits := bits - 16, buffer := buffer % Pow2(bits - 16), surrogate := surrogate), out)
  }

  predicate DecodesDirect(c: int) { c <= 127 && c != PLUS }

  // What one turn of the decoding loop does.
  datatype Turn = Go(s: nat, d: Shift, out: seq<int>) | Error(reason: string, start: nat, s: nat, d: Shift)

  const PARTIAL: string := "partial character in shift sequence"
  const PADDING: string := "non-zero padding bits in shift sequence"
  const ILL_FORMED: string := "ill-formed sequence"
  const UNEXPECTED: string := "unexpected special character"
  const UNTERMINATED: string := "unterminated shift sequence"

  function TakeTurn(b: seq<Byte>, s: nat, d: Shift): (t: Turn)
    requires s < |b| && Settled(d)
    ensures Settled(t.d) && s <= t.s <= |b|
    ensures t.s == s ==> t.Go? && d.inShift && !t.d.inShift
    ensures t.Error? ==> t.start < t.s
  {
    var ch := b[s];
    if d.inShift then
      if IsBase64(ch) then
        var (d', out) := Collect(d, FromBase64(ch));
        Go(s + 1, d', out)
      else if d.bits >= 6 then Error(PARTIAL, s, s + 1, d.(inShift := false))
      else if d.bits > 0 && d.buffer != 0 then Error(PADDING, s, s + 1, d.(inShift := false))
      else
        var out := if d.surrogate != 0 && DecodesDirect(ch) then [d.surrogate] else [];
        Go(if ch == MINUS then s + 1 else s, d.(inShift := false, surrogate := 0), out)
    else if ch == PLUS then
      if s + 1 < |b| && b[s + 1] == MINUS then Go(s + 2, d, [PLUS])
      else if s + 1 < |b| && !IsBase64(b[s + 1]) then Error(ILL_FORMED, s, s + 2, d)
      else Go(s + 1, Shift(true, 0, 0, 0), [])
    else if DecodesDirect(ch) then Go(s + 1, d, [ch])
    else Error(UNEXPECTED, s, s + 1, d)
  }

  // A shift sequence that the input leaves open.
  predicate Unfinished(d: Shift) { d.inShift && (d.surrogate != 0 || d.bits >= 6 || (d.bits > 0 && d.buffer != 0)) }

  function DecodeFrom(b: seq<Byte>, s: nat, d: Shift, e: Errors): Outcome<int>
    requires s <= |b| && Settled(d)
    decreases |b| - s, if d.inShift then 1 else 0
  {
    if s == |b| then
      if Unfinished(d) then
        match HandleElsewhere(e, UNTERMINATED, b, |b|, |b|)
        case Raised(why) => Failed(why)
        case Answer(rep, _) => Decoded(RunesFrom(rep, 0))
      else Decoded([])
    else
      match TakeTurn(b, s, d)
      case Go(s', d', out) => Prepend(out, DecodeFrom(b, s', d', e))
      case Error(reason, start, s', d') =>
        match HandleElsewhere(e, reason, b, start, s')
        case Raised(why) => Failed(why)
        case Answer(rep, newpos) => Prepend(RunesFrom(rep, 0), DecodeFrom(b, newpos, d', e))
  }

  function Decode(b: seq<Byte>, e: Errors): Outcome<int> {
    if e == Unregistered then Failed(LookupFailed) else DecodeFrom(b, 0, OUTSIDE, e)
  }

  // The decoder as it runs.
  class Decoder {
    var out: seq<int>
    var inShift: bool
    var base64bits: nat
    var base64buffer: nat
    var surrogate: int
    var s: nat

    constructor ()
      ensures State() == OUTSIDE && out == [] && s == 0
    {
      out, inShift, base64bits, base64buffer, surrogate, s := [], false, 0, 0, 0, 0;
    }

    function State(): Shift
      reads this
    {
      Shift(inShift, base64bits, base64buffer, surrogate)
    }

    // Six bits of a base64 character.
    method Consume(v: nat)
      requires Settled(State()) && v < 64
      modifies this
      ensures (State(), out) == (Collect(old(State()), v).0, old(out) + Collect(old(State()), v).1)
      ensures s == old(s) + 1
    {
      base64buffer := base64buffer * 64 + v;
      base64bits := base64bits + 6;
      s := s + 1;
      if base64bits >= 16 {
        var outCh := base64buffer / Pow2(base64bits - 16) % 0x1_0000;
        base64bits := base64bits - 16;
        base64buffer := base64buffer % Pow2(base64bits);
        if surrogate != 0 {
          if 0xDC00 <= outCh <= 0xDFFF {
            out := out + [Combine(surrogate, outCh)];
            surrogate := 0;
            return;
          }
          out := out + [surrogate];
          surrogate := 0;
        }
        if 0xD800 <= outCh <= 0xDBFF {
          surrogate := outCh;
        } else {
          out := out + [outCh];
        }
      }
      assert out == old(out) + Collect(old(State()), v).1;
    }

    // One turn of the loop, up to the call of the error handler.
    method Turn(input: seq<Byte>) returns (reason: string, start: nat)
      requires s < |input| && Settled(State())
      modifies this
      ensures var t := TakeTurn(input, old(s), old(State()));
              && s == t.s && State() == t.d
              && (reason == "" <==> t.Go?)
              && out == old(out) + (if t.Go? then t.out else [])
              && (t.Error? ==> reason == t.reason && start == t.start)
    {
      hide Collect, FromBase64;
      reason, start := "", s;
      var ch := input[s];
      if inShift {
        if IsBase64(ch) {
          Consume(FromBase64(ch));
          return;
        }
        inShift := false;
        if base64bits > 0 {
          if base64bits >= 6 {
            s := s + 1;
            return PARTIAL, start;
          }
          if base64buffer != 0 {
            s := s + 1;
            return PADDING, start;
          }
        }
        if surrogate != 0 && DecodesDirect(ch) {
          out := out + [surrogate];
        }
        surrogate := 0;
        if ch == MINUS { s := s + 1; }
      } else if ch == PLUS {
        s := s + 1;
        if s < |input| && input[s] == MINUS {
          s := s + 1;
          out := out + [PLUS];
        } else if s < |input| && !IsBase64(input[s]) {
          s := s + 1;
          return ILL_FORMED, start;
        } else {
          inShift, surrogate, base64bits, base64buffer := true, 0, 0, 0;
        }
      } else if DecodesDirect(ch) {
        s := s + 1;
        out := out + [ch];
      } else {
        s := s + 1;
        return UNEXPECTED, start;
      }
    }

    // Call the handler for input[start .. end].
    method Fail(e: Errors, reason: string, input: seq<Byte>, start: nat, end: nat) returns (failure: seq<Failure>)
      requires start <= end <= |input|
      modifies this
      ensures State() == old(State())
      ensures var a := HandleElsewhere(e, reason, input, start, end);
              if a.Answer? then failure == [] && out == old(out) + RunesFrom(a.rep, 0) && s == a.newpos
              else failure == [a.why] && out == old(out)
    {
      var answer := HandleErrorElsewhere(e, reason, input, start, end);
      match answer {
        case Raised(why) => failure := [why];
        case Answer(rep, newpos) =>
          var runes := LenientRunes(rep);
          out := out + runes;
          s := newpos;
          failure := [];
      }
    }

    method Run(input: seq<Byte>, e: Errors) returns (r: Outcome<int>)
      requires State() == OUTSIDE && out == [] && s == 0
      modifies this
      ensures r == DecodeFrom(input, 0, OUTSIDE, e)
    {
      hide TakeTurn, HandleElsewhere;
      assert forall x: Outcome<int> :: Prepend([], x) == if x.Decoded? then Decoded([] + x.text) else x;
      while s < |input|
        invariant s <= |input| && Settled(State())
        invariant DecodeFrom(input, 0, OUTSIDE, e) == Prepend(out, DecodeFrom(input, s, State(), e))
        decreases |input| - s, if inShift then 1 else 0
      {
        ghost var was, turn := out, TakeTurn(input, s, State());
        var reason, start := Turn(input);
        if reason == "" {
          PrependTwice(was, turn.out, DecodeFrom(input, s, State(), e));
        } else {
          assert out == was;
          ghost var a := HandleElsewhere(e, reason, input, start, s);
          var failure := Fail(e, reason, input, start, s);
          if failure != [] { return Failed(failure[0]); }
          PrependTwice(was, RunesFrom(a.rep, 0), DecodeFrom(input, s, State(), e));
        }
      }
      if inShift {
        if surrogate != 0 || base64bits >= 6 || (base64bits > 0 && base64buffer != 0) {
          var failure := Fail(e, UNTERMINATED, input, |input|, |input|);
          if failure != [] { return Failed(failure[0]); }
          return Decoded(out);
        }
      }
      assert out + [] == out;
      r := Decoded(out);
    }
  }

  method DecodeUtf7(input: seq<Byte>, e: Errors) returns (text: seq<Byte>, failure: seq<Failure>)
    ensures match Decode(input, e)
            case Decoded(rs) => failure == [] && text == AnyText(rs, |rs|)
            case Failed(why) => failure == [why]
  {
    if e == Unregistered { return [], [LookupFailed]; }
    var d := new Decoder();
    var r := d.Run(input, e);
    match r {
      case Failed(why) => return [], [why];
      case Decoded(rs) =>
        text := RunesToWtf8(rs);
        failure := [];
    }
  }
}
