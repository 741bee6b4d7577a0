// UTF-7 is its own inverse up to surrogate pairs: strict decoding of an
// encoded string gives it back with every high surrogate that is directly
// followed by a low one joined with it, and so gives it back unchanged exactly
// when there is no such pair.
module Utf7Proofs {
  import opened Bytes
  import opened ErrorHandlers
  import opened Utf7

  ghost predicate AllUnits(u: seq<int>) { forall k :: 0 <= k < |u| ==> 0 <= u[k] < 0x1_0000 }



  // ----- base64 characters of whole code units -----

  // Sixteen bits at a time: three units fill eight characters; one or two left
  // over leave two or four zero bits.
  function Chars(u: seq<int>): (r: seq<Byte>)
    requires AllUnits(u)
  {
    if |u| == 0 then []
    else if |u| == 1 then [ToBase64(u[0] / 0x400), ToBase64(u[0] / 16 % 64), ToBase64(u[0] % 16 * 4)]
    else if |u| == 2 then
      [ToBase64(u[0] / 0x400), ToBase64(u[0] / 16 % 64), ToBase64(u[0] % 16 * 4 + u[1] / 0x4000),
       ToBase64(u[1] / 0x100 % 64), ToBase64(u[1] / 4 % 64), ToBase64(u[1] % 4 * 16)]
    else Eight(u[0], u[1], u[2]) + Chars(u[3..])
  }

  function Eight(x: int, y: int, z: int): (r: seq<Byte>)
    requires 0 <= x < 0x1_0000 && 0 <= y < 0x1_0000 && 0 <= z < 0x1_0000
    ensures |r| == 8
  {
    [ToBase64(x / 0x400), ToBase64(x / 16 % 64), ToBase64(x % 16 * 4 + y / 0x4000), ToBase64(y / 0x100 % 64),
     ToBase64(y / 4 % 64), ToBase64(y % 4 * 16 + z / 0x1000), ToBase64(z / 64 % 64), ToBase64(z % 64)]
  }

  // The two bytes of a code unit, and where its bits go in the first, second
  // and third place of a block of three.
  lemma FirstUnit(x: int)
    requires 0 <= x < 0x1_0000
    ensures var h, l := x / 0x100, x % 0x100;
            h / 4 == x / 0x400 && h % 4 * 16 + l / 16 == x / 16 % 64 && l % 16 == x % 16
  {
    var h, l := x / 0x100, x % 0x100;
    assert x == 0x100 * h + l;
    assert x / 16 == 16 * h + l / 16;
  }

  lemma SecondUnit(x: int)
    requires 0 <= x < 0x1_0000
    ensures var h, l := x / 0x100, x % 0x100;
            h / 64 == x / 0x4000 && h % 64 == x / 0x100 % 64 && l / 4 == x / 4 % 64 && l % 4 == x % 4
  {
    var h, l := x / 0x100, x % 0x100;
    assert x == 0x100 * h + l;
    assert x / 4 == 64 * h + l / 4;
  }

  lemma ThirdUnit(x: int)
    requires 0 <= x < 0x1_0000
    ensures var h, l := x / 0x100, x % 0x100;
            h / 16 == x / 0x1000 && h % 16 * 4 + l / 64 == x / 64 % 64 && l % 64 == x % 64
  {
    var h, l := x / 0x100, x % 0x100;
    assert x == 0x100 * h + l;
    assert x / 64 == 4 * h + l / 64;
  }

  lemma {:induction false} Base64OfEight(x: int, y: int, z: int, rest: seq<Byte>)
    requires 0 <= x < 0x1_0000 && 0 <= y < 0x1_0000 && 0 <= z < 0x1_0000
    ensures Base64([x / 0x100, x % 0x100, y / 0x100, y % 0x100, z / 0x100, z % 0x100] + rest) == Eight(x, y, z) + Base64(rest)
  {
    hide ToBase64, Base64;
    FirstUnit(x);
    SecondUnit(y);
    ThirdUnit(z);
    var xh, xl, yh, yl, zh, zl := x / 0x100, x % 0x100, y / 0x100, y % 0x100, z / 0x100, z % 0x100;
    Base64Group(xh, xl, yh, [yl, zh, zl] + rest);
    Base64Group(yl, zh, zl, rest);
    assert [xh, xl, yh, yl, zh, zl] + rest == [xh, xl, yh] + ([yl, zh, zl] + rest);
  }

  lemma Base64Group(p: Byte, q: Byte, r: Byte, rest: seq<Byte>)
    ensures Base64([p, q, r] + rest) == [ToBase64(p / 4), ToBase64(p % 4 * 16 + q / 16), ToBase64(q % 16 * 4 + r / 64), ToBase64(r % 64)] + Base64(rest)
  {
    hide ToBase64;
    assert ([p, q, r] + rest)[3..] == rest;
  }

  lemma {:induction false} StrippedRun(u: seq<int>)
    requires AllUnits(u)
    ensures exists pad :: Padding(pad) && Base64(UnitBytes(u)) == Chars(u) + pad
    decreases |u|
  {
    hide ToBase64, IsBase64, Eight;
    if |u| == 0 {
      assert Padding([]) && Base64(UnitBytes(u)) == Chars(u) + [];
    } else if |u| == 1 {
      OneUnitBytes(u);
      assert Padding([PAD]);
    } else if |u| == 2 {
      TwoUnits(u);
      assert Padding([PAD, PAD]);
    } else {
      StrippedRun(u[3..]);
      var pad :| Padding(pad) && Base64(UnitBytes(u[3..])) == Chars(u[3..]) + pad;
      SixBytes(u);
      Base64OfEight(u[0], u[1], u[2], UnitBytes(u[3..]));
      assert Eight(u[0], u[1], u[2]) + (Chars(u[3..]) + pad) == Chars(u) + pad;
    }
  }

  lemma {:induction false} CharsAreBase64(u: seq<int>)
    requires AllUnits(u)
    ensures |u| > 0 ==> 0 < |Chars(u)|
    ensures forall k :: 0 <= k < |Chars(u)| ==> IsBase64(Chars(u)[k])
    decreases |u|
  {
    hide ToBase64, IsBase64;
    if |u| >= 3 { CharsAreBase64(u[3..]); }
  }

  lemma {:induction false} TwoUnits(u: seq<int>)
    requires AllUnits(u) && |u| == 2
    ensures Base64(UnitBytes(u)) == Chars(u) + [PAD, PAD]
  {
    hide ToBase64, UnitBytes;
    FirstUnit(u[0]);
    SecondUnit(u[1]);
    TwoUnitBytes(u);
    Base64Group(u[0] / 0x100, u[0] % 0x100, u[1] / 0x100, [u[1] % 0x100]);
  }

  lemma {:induction false} TwoUnitBytes(u: seq<int>)
    requires AllUnits(u) && |u| == 2
    ensures UnitBytes(u) == [u[0] / 0x100, u[0] % 0x100, u[1] / 0x100] + [u[1] % 0x100]
  {
    assert u[1..] == [u[1]] && u[1..][1..] == [];
    assert UnitBytes(u[1..]) == [u[1] / 0x100, u[1] % 0x100] + UnitBytes([]);
  }

  lemma {:induction false} OneUnitBytes(u: seq<int>)
    requires AllUnits(u) && |u| == 1
    ensures Base64(UnitBytes(u)) == Chars(u) + [PAD]
  {
    hide ToBase64;
    FirstUnit(u[0]);
    assert u[1..] == [];
    assert UnitBytes(u) == [u[0] / 0x100, u[0] % 0x100] + UnitBytes([]) == [u[0] / 0x100, u[0] % 0x100];
  }

  lemma {:induction false} SixBytes(u: seq<int>)
    requires AllUnits(u) && |u| >= 3
    ensures UnitBytes(u) == [u[0] / 0x100, u[0] % 0x100, u[1] / 0x100, u[1] % 0x100, u[2] / 0x100, u[2] % 0x100] + UnitBytes(u[3..])
  {
    assert u[1..][1..] == u[2..] && u[2..][1..] == u[3..];
    assert UnitBytes(u[2..]) == [u[2] / 0x100, u[2] % 0x100] + UnitBytes(u[3..]);
    assert UnitBytes(u[1..]) == [u[1] / 0x100, u[1] % 0x100] + UnitBytes(u[2..]);
  }

  ghost predicate Padding(pad: seq<Byte>) { forall k :: 0 <= k < |pad| ==> pad[k] == PAD }

  lemma {:induction false} StripPadding(x: seq<Byte>, pad: seq<Byte>)
    requires Padding(pad) && (x == [] || x[|x| - 1] != PAD)
    ensures Stripped(x + pad) == x
    decreases |pad|
  {
    if pad == [] {
      assert x + pad == x;
    } else {
      StripPadding(x, pad[..|pad| - 1]);
      assert (x + pad)[..|x + pad| - 1] == x + pad[..|pad| - 1];
    }
  }

  // The encoder's run is the characters of its code units.
  lemma {:induction false} RunIsChars(u: seq<int>)
    requires AllUnits(u)
    ensures Stripped(Base64(UnitBytes(u))) == Chars(u)
  {
    hide Chars, Base64, UnitBytes;
    CharsAreBase64(u);
    StrippedRun(u);
    var pad :| Padding(pad) && Base64(UnitBytes(u)) == Chars(u) + pad;
    StripPadding(Chars(u), pad);
  }

  // ----- decoding the characters -----

  // The code units of a run one by one.
  function Feed(u: seq<int>, surrogate: int): (r: (seq<int>, int)) {
    if u == [] then ([], surrogate)
    else
      var (out, s) := Unit(surrogate, u[0]);
      var (rest, t) := Feed(u[1..], s);
      (out + rest, t)
  }

  ghost predicate Chr(b: seq<Byte>, s: nat, v: nat) { s < |b| && v < 64 && b[s] == ToBase64(v) }

  lemma {:induction false} TakeChar(b: seq<Byte>, s: nat, d: Shift, v: nat, e: Errors)
    requires Chr(b, s, v) && d.inShift && Settled(d)
    ensures DecodeFrom(b, s, d, e) == Prepend(Collect(d, v).1, DecodeFrom(b, s + 1, Collect(d, v).0, e))
  {
    hide Collect, FromBase64;
  }

  // A character that completes no unit, and one that does.
  lemma {:induction false} CollectMore(d: Shift, v: nat)
    requires d.bits < 10 && v < 64
    ensures Collect(d, v) == (d.(bits := d.bits + 6, buffer := d.buffer * 64 + v), [])
  {
  }

  lemma {:induction false} CollectUnit(d: Shift, v: nat, keep: nat, u: int)
    requires 10 <= d.bits < 16 && v < 64 && 0 <= u < 0x1_0000
    requires keep < Pow2(d.bits - 10) && d.buffer * 64 + v == u * Pow2(d.bits - 10) + keep
    requires d.bits in {10, 12, 14}
    ensures Collect(d, v) == (d.(bits := d.bits - 10, buffer := keep, surrogate := Unit(d.surrogate, u).1), Unit(d.surrogate, u).0)
  {
    hide Pow2, Unit;
    PowersOfFour();
    var total := d.buffer * 64 + v;
    if d.bits == 10 {
      assert total / 1 == u && total % 1 == 0;
    } else if d.bits == 12 {
      assert total / 4 == u && total % 4 == keep;
    } else {
      assert total / 16 == u && total % 16 == keep;
    }
  }

  // Six bits behind the ones before them.
  lemma SixBits(x: int)
    requires 0 <= x < 0x1_0000
    ensures x / 0x400 * 64 + x / 16 % 64 == x / 16 && x / 16 * 64 + x % 16 * 4 == x * 4
    ensures x / 0x4000 * 64 + x / 0x100 % 64 == x / 0x100 && x / 0x100 * 64 + x / 4 % 64 == x / 4 && x / 4 * 64 + x % 4 * 16 == x * 16
    ensures x / 0x1000 * 64 + x / 64 % 64 == x / 64 && x / 64 * 64 + x % 64 == x
  {
    assert x / 0x400 == x / 16 / 64 && x / 0x1000 == x / 64 / 64;
    assert x / 0x4000 == x / 0x100 / 64 && x / 0x100 == x / 4 / 64;
  }

  // Three characters from an empty buffer: one unit, two bits kept.
  lemma {:induction false} ThreeChars(b: seq<Byte>, s: nat, surr: int, x: int, keep: nat, e: Errors)
    requires 0 <= x < 0x1_0000 && keep < 4
    requires Chr(b, s, x / 0x400) && Chr(b, s + 1, x / 16 % 64) && Chr(b, s + 2, x % 16 * 4 + keep)
    ensures DecodeFrom(b, s, Shift(true, 0, 0, surr), e)
         == Prepend(Unit(surr, x).0, DecodeFrom(b, s + 3, Shift(true, 2, keep, Unit(surr, x).1), e))
  {
    hide Collect, Unit, DecodeFrom, ToBase64, Pow2;
    var d0 := Shift(true, 0, 0, surr);
    var d1, d2 := Shift(true, 6, x / 0x400, surr), Shift(true, 12, x / 16, surr);
    SixBits(x);
    CollectMore(d0, x / 0x400);
    CollectMore(d1, x / 16 % 64);
    PowersOfFour();
    CollectUnit(d2, x % 16 * 4 + keep, keep, x);
    TakeChar(b, s, d0, x / 0x400, e);
    TakeChar(b, s + 1, d1, x / 16 % 64, e);
    TakeChar(b, s + 2, d2, x % 16 * 4 + keep, e);
    PrependNothing(DecodeFrom(b, s + 2, d2, e));
  }

  // Three more characters with two bits in the buffer: one unit, four kept.
  lemma {:induction false} SixthChar(b: seq<Byte>, s: nat, surr: int, y: int, keep: nat, e: Errors)
    requires 0 <= y < 0x1_0000 && keep < 16
    requires Chr(b, s, y / 0x100 % 64) && Chr(b, s + 1, y / 4 % 64) && Chr(b, s + 2, y % 4 * 16 + keep)
    ensures DecodeFrom(b, s, Shift(true, 2, y / 0x4000, surr), e)
         == Prepend(Unit(surr, y).0, DecodeFrom(b, s + 3, Shift(true, 4, keep, Unit(surr, y).1), e))
  {
    hide Collect, Unit, DecodeFrom, ToBase64, Pow2;
    var d0 := Shift(true, 2, y / 0x4000, surr);
    var d1, d2 := Shift(true, 8, y / 0x100, surr), Shift(true, 14, y / 4, surr);
    SixBits(y);
    CollectMore(d0, y / 0x100 % 64);
    CollectMore(d1, y / 4 % 64);
    PowersOfFour();
    CollectUnit(d2, y % 4 * 16 + keep, keep, y);
    TakeChar(b, s, d0, y / 0x100 % 64, e);
    TakeChar(b, s + 1, d1, y / 4 % 64, e);
    TakeChar(b, s + 2, d2, y % 4 * 16 + keep, e);
    PrependNothing(DecodeFrom(b, s + 2, d2, e));
  }

  // The last two of eight characters: one unit, nothing kept.
  lemma {:induction false} EighthChar(b: seq<Byte>, s: nat, surr: int, z: int, e: Errors)
    requires 0 <= z < 0x1_0000 && Chr(b, s, z / 64 % 64) && Chr(b, s + 1, z % 64)
    ensures DecodeFrom(b, s, Shift(true, 4, z / 0x1000, surr), e)
         == Prepend(Unit(surr, z).0, DecodeFrom(b, s + 2, Shift(true, 0, 0, Unit(surr, z).1), e))
  {
    hide Collect, Unit, DecodeFrom, ToBase64, Pow2;
    var d0, d1 := Shift(true, 4, z / 0x1000, surr), Shift(true, 10, z / 64, surr);
    SixBits(z);
    CollectMore(d0, z / 64 % 64);
    PowersOfFour();
    CollectUnit(d1, z % 64, 0, z);
    TakeChar(b, s, d0, z / 64 % 64, e);
    TakeChar(b, s + 1, d1, z % 64, e);
    PrependNothing(DecodeFrom(b, s + 1, d1, e));
  }

  lemma PowersOfFour()
    ensures Pow2(0) == 1 && Pow2(2) == 4 && Pow2(4) == 16
  {
    assert Pow2(1) == 2 && Pow2(3) == 8;
  }

  // The bits of zero that a run leaves over.
  function LeftOver(n: nat): nat { if n % 3 == 0 then 0 else if n % 3 == 1 then 2 else 4 }

  lemma {:induction false} HoldsChar(b: seq<Byte>, s: nat, block: seq<Byte>, k: nat, v: nat)
    requires Holds(b, s, block) && k < |block| && v < 64 && block[k] == ToBase64(v)
    ensures Chr(b, s + k, v)
  {
    HoldsAt(b, s, block, k);
  }

  // A whole run: every unit comes out, and only zero bits are left.
  lemma {:induction false} RunDecodes(b: seq<Byte>, s: nat, u: seq<int>, surr: int, e: Errors)
    requires AllUnits(u) && Holds(b, s, Chars(u))
    ensures DecodeFrom(b, s, Shift(true, 0, 0, surr), e)
         == Prepend(Feed(u, surr).0, DecodeFrom(b, s + |Chars(u)|, Shift(true, LeftOver(|u|), 0, Feed(u, surr).1), e))
    decreases |u|
  {
    hide Unit, DecodeFrom, ToBase64, Feed, Chars, Eight;
    RunShape(u, surr);
    if |u| == 0 {
      PrependNothing(DecodeFrom(b, s, Shift(true, 0, 0, surr), e));
    } else if |u| == 1 {
      OneUnit(b, s, u, surr, e);
    } else if |u| == 2 {
      TwoUnitsDecode(b, s, u, surr, e);
    } else {
      HoldsSplit(b, s, Eight(u[0], u[1], u[2]), Chars(u[3..]));
      EightDecode(b, s, u[0], u[1], u[2], surr, e);
      var s1, s2 := Unit(surr, u[0]).1, Unit(Unit(surr, u[0]).1, u[1]).1;
      RunDecodes(b, s + 8, u[3..], Unit(s2, u[2]).1, e);
      FeedThree(u, surr);
      PrependTwice(Unit(surr, u[0]).0 + Unit(s1, u[1]).0 + Unit(s2, u[2]).0, Feed(u[3..], Unit(s2, u[2]).1).0,
        DecodeFrom(b, s + |Chars(u)|, Shift(true, LeftOver(|u|), 0, Feed(u, surr).1), e));
    }
  }

  lemma RunShape(u: seq<int>, surr: int)
    requires AllUnits(u)
    ensures |u| == 0 ==> Chars(u) == [] && Feed(u, surr) == ([], surr)
    ensures |u| == 1 ==> |Chars(u)| == 3
    ensures |u| == 2 ==> |Chars(u)| == 6
    ensures |u| >= 3 ==> Chars(u) == Eight(u[0], u[1], u[2]) + Chars(u[3..])
  {
    hide Eight, ToBase64;
  }

  lemma {:induction false} FeedThree(u: seq<int>, surr: int)
    requires |u| >= 3
    ensures var (o1, s1) := Unit(surr, u[0]);
            var (o2, s2) := Unit(s1, u[1]);
            var (o3, s3) := Unit(s2, u[2]);
            && Feed(u, surr).0 == o1 + o2 + o3 + Feed(u[3..], s3).0
            && Feed(u, surr).1 == Feed(u[3..], s3).1
  {
    hide Unit;
    var a := Unit(surr, u[0]);
    var b := Unit(a.1, u[1]);
    var c := Unit(b.1, u[2]);
    assert u[1..][0] == u[1] && u[1..][1..] == u[2..] && u[2..][0] == u[2] && u[2..][1..] == u[3..];
    assert Feed(u[2..], b.1) == (c.0 + Feed(u[3..], c.1).0, Feed(u[3..], c.1).1);
    assert Feed(u[1..], a.1) == (b.0 + (c.0 + Feed(u[3..], c.1).0), Feed(u[3..], c.1).1);
    assert a.0 + (b.0 + (c.0 + Feed(u[3..], c.1).0)) == a.0 + b.0 + c.0 + Feed(u[3..], c.1).0;
  }

  lemma {:induction false} OneUnit(b: seq<Byte>, s: nat, u: seq<int>, surr: int, e: Errors)
    requires AllUnits(u) && |u| == 1 && Holds(b, s, Chars(u))
    ensures DecodeFrom(b, s, Shift(true, 0, 0, surr), e) == Prepend(Feed(u, surr).0, DecodeFrom(b, s + 3, Shift(true, 2, 0, Feed(u, surr).1), e))
  {
    hide Unit, DecodeFrom, ToBase64, Holds, Chr;
    var block := Chars(u);
    HoldsChar(b, s, block, 0, u[0] / 0x400);
    HoldsChar(b, s, block, 1, u[0] / 16 % 64);
    HoldsChar(b, s, block, 2, u[0] % 16 * 4);
    ThreeChars(b, s, surr, u[0], 0, e);
    FeedOne(u, surr);
  }

  lemma FeedOne(u: seq<int>, surr: int)
    requires |u| == 1
    ensures Feed(u, surr) == Unit(surr, u[0])
  {
    hide Unit;
    assert u[1..] == [] && Feed(u[1..], Unit(surr, u[0]).1) == ([], Unit(surr, u[0]).1);
    assert Unit(surr, u[0]).0 + [] == Unit(surr, u[0]).0;
  }

  lemma {:induction false} TwoUnitsDecode(b: seq<Byte>, s: nat, u: seq<int>, surr: int, e: Errors)
    requires AllUnits(u) && |u| == 2 && Holds(b, s, Chars(u))
    ensures DecodeFrom(b, s, Shift(true, 0, 0, surr), e) == Prepend(Feed(u, surr).0, DecodeFrom(b, s + 6, Shift(true, 4, 0, Feed(u, surr).1), e))
  {
    hide Unit, DecodeFrom, ToBase64, Holds, Chr;
    var block, x, y := Chars(u), u[0], u[1];
    HoldsChar(b, s, block, 0, x / 0x400);
    HoldsChar(b, s, block, 1, x / 16 % 64);
    HoldsChar(b, s, block, 2, x % 16 * 4 + y / 0x4000);
    HoldsChar(b, s, block, 3, y / 0x100 % 64);
    HoldsChar(b, s, block, 4, y / 4 % 64);
    HoldsChar(b, s, block, 5, y % 4 * 16);
    ThreeChars(b, s, surr, x, y / 0x4000, e);
    var s1 := Unit(surr, x).1;
    SixthChar(b, s + 3, s1, y, 0, e);
    PrependTwice(Unit(surr, x).0, Unit(s1, y).0, DecodeFrom(b, s + 6, Shift(true, 4, 0, Unit(s1, y).1), e));
    assert u[1..] == [y];
    FeedOne([y], s1);
  }

  lemma {:induction false} EightDecode(b: seq<Byte>, s: nat, x: int, y: int, z: int, surr: int, e: Errors)
    requires 0 <= x < 0x1_0000 && 0 <= y < 0x1_0000 && 0 <= z < 0x1_0000 && Holds(b, s, Eight(x, y, z))
    ensures var s1 := Unit(surr, x).1;
            var s2 := Unit(s1, y).1;
            DecodeFrom(b, s, Shift(true, 0, 0, surr), e) ==
            Prepend(Unit(surr, x).0 + Unit(s1, y).0 + Unit(s2, z).0, DecodeFrom(b, s + 8, Shift(true, 0, 0, Unit(s2, z).1), e))
  {
    hide Unit, DecodeFrom, ToBase64, Holds, Chr;
    var block := Eight(x, y, z);
    HoldsChar(b, s, block, 0, x / 0x400);
    HoldsChar(b, s, block, 1, x / 16 % 64);
    HoldsChar(b, s, block, 2, x % 16 * 4 + y / 0x4000);
    HoldsChar(b, s, block, 3, y / 0x100 % 64);
    HoldsChar(b, s, block, 4, y / 4 % 64);
    HoldsChar(b, s, block, 5, y % 4 * 16 + z / 0x1000);
    HoldsChar(b, s, block, 6, z / 64 % 64);
    HoldsChar(b, s, block, 7, z % 64);
    var s1 := Unit(surr, x).1;
    var s2 := Unit(s1, y).1;
    ThreeChars(b, s, surr, x, y / 0x4000, e);
    SixthChar(b, s + 3, s1, y, z / 0x1000, e);
    EighthChar(b, s + 6, s2, z, e);
    var end := DecodeFrom(b, s + 8, Shift(true, 0, 0, Unit(s2, z).1), e);
    PrependTwice(Unit(s1, y).0, Unit(s2, z).0, end);
    PrependTwice(Unit(surr, x).0, Unit(s1, y).0 + Unit(s2, z).0, end);
    assert Unit(surr, x).0 + (Unit(s1, y).0 + Unit(s2, z).0) == Unit(surr, x).0 + Unit(s1, y).0 + Unit(s2, z).0;
  }

  // ----- code points -----

  // Each high surrogate directly followed by a low one joined with it.
  function Joined(rs: seq<int>): (r: seq<int>) {
    if rs == [] then []
    else if |rs| >= 2 && IsHigh(rs[0]) && IsLow(rs[1]) then [Combine(rs[0], rs[1])] + Joined(rs[2..])
    else [rs[0]] + Joined(rs[1..])
  }

  ghost predicate NoPairs(rs: seq<int>) { forall k :: 0 < k < |rs| ==> !(IsHigh(rs[k - 1]) && IsLow(rs[k])) }

  lemma {:induction false} JoinedShorter(rs: seq<int>)
    ensures |Joined(rs)| <= |rs|
    decreases |rs|
  {
    if |rs| >= 2 && IsHigh(rs[0]) && IsLow(rs[1]) {
      JoinedShorter(rs[2..]);
    } else if rs != [] {
      JoinedShorter(rs[1..]);
    }
  }

  // Joining changes nothing exactly when there is nothing to join.
  lemma {:induction false} JoinedSame(rs: seq<int>)
    ensures Joined(rs) == rs <==> NoPairs(rs)
    decreases |rs|
  {
    if |rs| >= 2 && IsHigh(rs[0]) && IsLow(rs[1]) {
      JoinedShorter(rs[2..]);
      assert IsHigh(rs[1 - 1]) && IsLow(rs[1]);
    } else if rs != [] {
      JoinedSame(rs[1..]);
      NoPairsTail(rs);
      assert ([rs[0]] + Joined(rs[1..]))[1..] == Joined(rs[1..]);
      assert [rs[0]] + rs[1..] == rs;
    }
  }

  lemma NoPairsTail(rs: seq<int>)
    requires rs != []
    ensures NoPairs(rs) <==> NoPairs(rs[1..]) && (|rs| >= 2 ==> !(IsHigh(rs[0]) && IsLow(rs[1])))
  {
    var t := rs[1..];
    if NoPairs(t) && (|rs| >= 2 ==> !(IsHigh(rs[0]) && IsLow(rs[1]))) {
      forall k | 0 < k < |rs| ensures !(IsHigh(rs[k - 1]) && IsLow(rs[k])) {
        if k > 1 { assert t[k - 1] == rs[k] && t[k - 1 - 1] == rs[k - 1]; }
      }
    }
    if NoPairs(rs) {
      forall k | 0 < k < |t| ensures !(IsHigh(t[k - 1]) && IsLow(t[k])) {
        assert t[k] == rs[k + 1] && t[k - 1] == rs[k + 1 - 1];
      }
    }
  }

  // Code units of code points, front first.
  function AllUtf16(rs: seq<int>): (u: seq<int>)
    requires AllCodePoints(rs)
    ensures AllUnits(u)
  {
    if rs == [] then [] else Utf16(rs[0]) + AllUtf16(rs[1..])
  }

  lemma {:induction false} UnitsAreUtf16(runes: seq<int>, i: nat, j: nat)
    requires AllCodePoints(runes) && i <= j <= |runes|
    ensures RunUnits(runes, i, j) == AllUtf16(runes[i .. j])
    decreases j - i
  {
    hide Utf16;
    if i < j {
      UnitsAreUtf16(runes, i, j - 1);
      var a, r := runes[i .. j - 1], runes[j - 1];
      assert runes[i .. j] == a + [r];
      Utf16Snoc(a, r);
    }
  }

  lemma {:induction false} Utf16Snoc(a: seq<int>, r: int)
    requires AllCodePoints(a) && IsCodePoint(r)
    ensures AllUtf16(a + [r]) == AllUtf16(a) + Utf16(r)
    decreases |a|
  {
    hide Utf16;
    if a == [] {
      assert (a + [r])[1..] == [] && a + [r] == [r];
      assert AllUtf16([r]) == Utf16(r) + [] == Utf16(r);
    } else {
      assert (a + [r])[1..] == a[1..] + [r];
      Utf16Snoc(a[1..], r);
      assert Utf16(a[0]) + (AllUtf16(a[1..]) + Utf16(r)) == Utf16(a[0]) + AllUtf16(a[1..]) + Utf16(r);
    }
  }

  function Waiting(surrogate: int): seq<int> { if surrogate == 0 then [] else [surrogate] }

  // What the decoder makes of a run's units, with the surrogate that waits at
  // the end put out as well.
  lemma {:induction false} FeedJoins(rs: seq<int>, surr: int)
    requires AllCodePoints(rs) && (surr == 0 || IsHigh(surr))
    ensures var (out, s) := Feed(AllUtf16(rs), surr);
            (s == 0 || IsHigh(s)) && out + Waiting(s) == Joined(Waiting(surr) + rs)
    decreases |rs|
  {
    hide Unit, Joined, Utf16, Waiting;
    if rs == [] {
      FeedNothing(surr);
    } else {
      var r, rest := rs[0], rs[1..];
      assert rs == [r] + rest;
      if r < 0x1_0000 {
        JoinSmall(r, rest, surr);
        FeedJoins(rest, Unit(surr, r).1);
        FeedJoinsSmall(r, rest, surr);
      } else {
        FeedJoins(rest, 0);
        FeedJoinsLarge(r, rest, surr);
      }
    }
  }

  lemma FeedNothing(surr: int)
    ensures Feed([], surr) == ([], surr) && [] + Waiting(surr) == Joined(Waiting(surr) + [])
  {
    JoinedNothing();
    if surr != 0 { JoinedOne(surr, []); }
    assert Waiting(surr) + [] == Waiting(surr) && [surr] + [] == [surr];
  }

  lemma {:induction false} FeedJoinsSmall(r: int, rest: seq<int>, surr: int)
    requires 0 <= r < 0x1_0000 && AllCodePoints(rest) && (surr == 0 || IsHigh(surr))
    requires var (out, s) := Feed(AllUtf16(rest), Unit(surr, r).1); out + Waiting(s) == Joined(Waiting(Unit(surr, r).1) + rest)
    ensures var (out, s) := Feed(Utf16(r) + AllUtf16(rest), surr);
            s == Feed(AllUtf16(rest), Unit(surr, r).1).1 && out + Waiting(s) == Joined(Waiting(surr) + ([r] + rest))
  {
    hide Unit, Joined, Utf16, Feed, AllUtf16;
    FeedSmall(r, AllUtf16(rest), surr);
    JoinSmall(r, rest, surr);
    var (out, s) := Feed(AllUtf16(rest), Unit(surr, r).1);
    assert Unit(surr, r).0 + out + Waiting(s) == Unit(surr, r).0 + (out + Waiting(s));
  }

  lemma {:induction false} FeedJoinsLarge(r: int, rest: seq<int>, surr: int)
    requires 0x1_0000 <= r <= 0x10_FFFF && AllCodePoints(rest) && (surr == 0 || IsHigh(surr))
    requires var (out, s) := Feed(AllUtf16(rest), 0); out + Waiting(s) == Joined(Waiting(0) + rest)
    ensures var (out, s) := Feed(Utf16(r) + AllUtf16(rest), surr);
            s == Feed(AllUtf16(rest), 0).1 && out + Waiting(s) == Joined(Waiting(surr) + ([r] + rest))
  {
    hide Unit, Joined, Utf16, Feed, AllUtf16;
    FeedLarge(r, AllUtf16(rest), surr);
    JoinLarge(r, rest, surr);
    var (out, s) := Feed(AllUtf16(rest), 0);
    assert Waiting(0) + rest == rest;
    assert Waiting(surr) + [r] + out + Waiting(s) == Waiting(surr) + [r] + (out + Waiting(s));
  }

  lemma {:induction false} FeedSmall(r: int, rest: seq<int>, surr: int)
    requires 0 <= r < 0x1_0000
    ensures Feed(Utf16(r) + rest, surr) == (Unit(surr, r).0 + Feed(rest, Unit(surr, r).1).0, Feed(rest, Unit(surr, r).1).1)
  {
    assert (Utf16(r) + rest)[1..] == rest;
  }

  lemma {:induction false} FeedLarge(r: int, rest: seq<int>, surr: int)
    requires 0x1_0000 <= r <= 0x10_FFFF && (surr == 0 || IsHigh(surr))
    ensures Feed(Utf16(r) + rest, surr) == (Waiting(surr) + [r] + Feed(rest, 0).0, Feed(rest, 0).1)
  {
    var u := Utf16(r) + rest;
    var hi, lo := u[0], u[1];
    assert u[1..][1..] == rest && u[1..][0] == lo;
    assert IsHigh(hi) && IsLow(lo) && Combine(hi, lo) == r;
    assert Unit(surr, hi) == (Waiting(surr), hi);
    assert Unit(hi, lo) == ([r], 0);
    assert Feed(u[1..], hi) == ([r] + Feed(rest, 0).0, Feed(rest, 0).1);
    assert Waiting(surr) + ([r] + Feed(rest, 0).0) == Waiting(surr) + [r] + Feed(rest, 0).0;
  }

  lemma JoinedPair(x: int, y: int, rest: seq<int>)
    requires IsHigh(x) && IsLow(y)
    ensures Joined([x] + ([y] + rest)) == [Combine(x, y)] + Joined(rest)
  {
    assert ([x] + ([y] + rest))[2..] == rest;
  }

  lemma JoinedOne(x: int, rest: seq<int>)
    requires !IsHigh(x) || rest == [] || !IsLow(rest[0])
    ensures Joined([x] + rest) == [x] + Joined(rest)
  {
    assert ([x] + rest)[1..] == rest;
  }

  lemma {:induction false} JoinSmall(r: int, rest: seq<int>, surr: int)
    requires 0 <= r < 0x1_0000 && (surr == 0 || IsHigh(surr))
    ensures var (out, s) := Unit(surr, r);
            (s == 0 || IsHigh(s)) && Joined(Waiting(surr) + ([r] + rest)) == out + Joined(Waiting(s) + rest)
  {
    hide Joined, Combine;
    var one := [r] + rest;
    assert [] + rest == rest && [] + one == one && [] + [r] == [r] && [] + Joined(one) == Joined(one);
    if !IsHigh(r) { JoinedOne(r, rest); }
    if surr != 0 {
      if IsLow(r) {
        JoinedPair(surr, r, rest);
      } else {
        JoinedOne(surr, one);
        assert [surr] + ([r] + Joined(rest)) == [surr] + [r] + Joined(rest);
      }
    }
  }

  lemma {:induction false} JoinLarge(r: int, rest: seq<int>, surr: int)
    requires 0x1_0000 <= r && (surr == 0 || IsHigh(surr))
    ensures Joined(Waiting(surr) + ([r] + rest)) == Waiting(surr) + [r] + Joined(rest)
  {
    hide Joined;
    var one := [r] + rest;
    JoinedOne(r, rest);
    assert [] + one == one && [] + [r] == [r];
    if surr != 0 {
      JoinedOne(surr, one);
      assert [surr] + ([r] + Joined(rest)) == [surr] + [r] + Joined(rest);
    }
  }

  // Joining works piece by piece where a piece cannot begin with a low
  // surrogate.
  lemma {:induction false} JoinedSplit(a: seq<int>, b: seq<int>)
    requires b == [] || !IsLow(b[0])
    ensures Joined(a + b) == Joined(a) + Joined(b)
    decreases |a|
  {
    hide Joined, Combine;
    if a == [] {
      JoinedNothing();
      assert a + b == b && [] + Joined(b) == Joined(b);
    } else if |a| >= 2 && IsHigh(a[0]) && IsLow(a[1]) {
      assert a == [a[0]] + ([a[1]] + a[2..]) && a + b == [a[0]] + ([a[1]] + (a[2..] + b));
      JoinedPair(a[0], a[1], a[2..]);
      JoinedPair(a[0], a[1], a[2..] + b);
      JoinedSplit(a[2..], b);
      assert [Combine(a[0], a[1])] + (Joined(a[2..]) + Joined(b)) == [Combine(a[0], a[1])] + Joined(a[2..]) + Joined(b);
    } else {
      assert a == [a[0]] + a[1..] && a + b == [a[0]] + (a[1..] + b);
      JoinedOne(a[0], a[1..]);
      JoinedOne(a[0], a[1..] + b);
      JoinedSplit(a[1..], b);
      assert [a[0]] + (Joined(a[1..]) + Joined(b)) == [a[0]] + Joined(a[1..]) + Joined(b);
    }
  }

  // ----- the round trip -----

  lemma {:induction false} HoldsTwo(b: seq<Byte>, s: nat, x: Byte, y: Byte)
    requires Holds(b, s, [x, y])
    ensures s + 1 < |b| && b[s] == x && b[s + 1] == y
  {
    HoldsAt(b, s, [x, y], 0);
    HoldsAt(b, s, [x, y], 1);
  }

  // Behind the run, with only zero bits left: a minus is taken, a character
  // that cannot belong to the run is not; a waiting surrogate comes out.
  lemma {:induction false} LeaveRun(b: seq<Byte>, s: nat, left: nat, surr: int, e: Errors)
    requires s < |b| && left < 6 && !IsBase64(b[s]) && b[s] <= 127 && b[s] != PLUS
    ensures DecodeFrom(b, s, Shift(true, left, 0, surr), e)
         == Prepend(Waiting(surr), DecodeFrom(b, if b[s] == MINUS then s + 1 else s, Shift(false, left, 0, 0), e))
  {
  }

  // Outside a run the collected bits do not matter.
  lemma {:induction false} OutsideAlike(b: seq<Byte>, s: nat, left: nat, e: Errors)
    requires s <= |b| && left < 16
    ensures DecodeFrom(b, s, Shift(false, left, 0, 0), e) == DecodeFrom(b, s, OUTSIDE, e)
    decreases |b| - s
  {
    hide HandleElsewhere, RunesFrom;
    if s < |b| {
      var t, t0 := TakeTurn(b, s, Shift(false, left, 0, 0)), TakeTurn(b, s, OUTSIDE);
      if t.Go? && !t.d.inShift {
        OutsideAlike(b, t.s, left, e);
      } else if t.Error? {
        var a := HandleElsewhere(e, t.reason, b, t.start, t.s);
        if a.Answer? { OutsideAlike(b, a.newpos, left, e); }
      }
    }
  }

  // The encoding of runes i.. stands at s: it decodes to them, joined.
  lemma {:induction false} DecodesFrom(b: seq<Byte>, s: nat, runes: seq<int>, i: nat, e: Errors)
    requires AllCodePoints(runes) && i <= |runes| && s <= |b|
    requires Holds(b, s, EncodeFrom(runes, i)) && s + |EncodeFrom(runes, i)| == |b|
    ensures DecodeFrom(b, s, OUTSIDE, e) == Decoded(Joined(runes[i..]))
    decreases |runes| - i
  {
    hide Piece, Holds, Joined, TakeTurn, HandleElsewhere, RunesFrom, HandleDecode;
    if i == |runes| {
      JoinedNothing();
      assert runes[i..] == [];
    } else {
      var (p, j) := Piece(runes, i);
      HoldsSplit(b, s, p, EncodeFrom(runes, j));
      DecodesFrom(b, s + |p|, runes, j, e);
      PieceDecodes(b, s, runes, i, e);
      PieceJoins(runes, i);
    }
  }

  lemma JoinedNothing()
    ensures Joined([]) == []
  {
  }

  lemma {:induction false} PieceJoins(runes: seq<int>, i: nat)
    requires AllCodePoints(runes) && i < |runes|
    ensures var j := Piece(runes, i).1;
            Joined(runes[i..]) == Joined(runes[i .. j]) + Joined(runes[j..])
  {
    hide Base64, UnitBytes, Stripped, RunUnits;
    var j := Piece(runes, i).1;
    assert runes[i..] == runes[i .. j] + runes[j..];
    if Breaks(runes[i]) {
      JoinedFirst(runes[i], runes[j..]);
      assert runes[i .. j] == [runes[i]];
    } else {
      if j < |runes| { assert Breaks(runes[j]) && runes[j..][0] == runes[j]; }
      JoinedSplit(runes[i .. j], runes[j..]);
    }
  }

  lemma JoinedFirst(r: int, rest: seq<int>)
    requires !IsHigh(r)
    ensures Joined([r] + rest) == Joined([r]) + Joined(rest) && Joined([r]) == [r]
  {
    assert ([r] + rest)[1..] == rest;
    assert [r] + Joined([]) == [r];
  }

  // One piece of the encoding.
  lemma {:induction false} PieceDecodes(b: seq<Byte>, s: nat, runes: seq<int>, i: nat, e: Errors)
    requires AllCodePoints(runes) && i < |runes|
    requires var (p, j) := Piece(runes, i);
             Holds(b, s, p) && Holds(b, s + |p|, EncodeFrom(runes, j)) && s + |p| + |EncodeFrom(runes, j)| == |b|
    ensures var (p, j) := Piece(runes, i);
            DecodeFrom(b, s, OUTSIDE, e) == Prepend(Joined(runes[i .. j]), DecodeFrom(b, s + |p|, OUTSIDE, e))
  {
    hide Base64, UnitBytes, Stripped, RunUnits, EncodeFrom, IsDirect, DecodeFrom, Joined, Closing, RunEnd;
    var (p, j) := Piece(runes, i);
    var r := runes[i];
    if Breaks(r) {
      assert runes[i .. j] == [r];
      BreakNotHigh(r);
      JoinedFirst(r, []);
      if r == PLUS {
        HoldsTwo(b, s, PLUS, MINUS);
        LiteralPlus(b, s, e);
      } else {
        DirectIsAscii(r);
        HoldsAt(b, s, p, 0);
        LiteralDirect(b, s, e);
      }
    } else {
      RunPiece(b, s, runes, i, e);
    }
  }

  lemma LiteralPlus(b: seq<Byte>, s: nat, e: Errors)
    requires s + 1 < |b| && b[s] == PLUS && b[s + 1] == MINUS
    ensures DecodeFrom(b, s, OUTSIDE, e) == Prepend([PLUS], DecodeFrom(b, s + 2, OUTSIDE, e))
  {
  }

  lemma LiteralDirect(b: seq<Byte>, s: nat, e: Errors)
    requires s < |b| && DecodesDirect(b[s])
    ensures DecodeFrom(b, s, OUTSIDE, e) == Prepend([b[s]], DecodeFrom(b, s + 1, OUTSIDE, e))
  {
  }

  lemma BreakNotHigh(r: int)
    requires Breaks(r)
    ensures !IsHigh(r)
  {
  }

  lemma {:induction false} RunPiece(b: seq<Byte>, s: nat, runes: seq<int>, i: nat, e: Errors)
    requires AllCodePoints(runes) && i < |runes| && !Breaks(runes[i])
    requires var (p, j) := Piece(runes, i);
             Holds(b, s, p) && Holds(b, s + |p|, EncodeFrom(runes, j)) && s + |p| + |EncodeFrom(runes, j)| == |b|
    ensures var (p, j) := Piece(runes, i);
            DecodeFrom(b, s, OUTSIDE, e) == Prepend(Joined(runes[i .. j]), DecodeFrom(b, s + |p|, OUTSIDE, e))
  {
    hide Base64, UnitBytes, Stripped, RunUnits, EncodeFrom, DecodeFrom, Chars, Feed, Joined, Holds, IsDirect, Closing;
    var (p, j) := Piece(runes, i);
    var u := RunUnits(runes, i, j);
    var chars, close := Chars(u), Closing(runes, j);
    RunIsChars(u);
    UnitsAreUtf16(runes, i, j);
    assert p == [PLUS] + (chars + close);
    HoldsSplit(b, s, [PLUS], chars + close);
    HoldsSplit(b, s + 1, chars, close);
    SomeUnits(runes, i, j);
    CharsAreBase64(u);
    HoldsAt(b, s, [PLUS], 0);
    HoldsAt(b, s + 1, chars, 0);
    EnterRun(b, s, e);
    RunDecodes(b, s + 1, u, 0, e);
    FeedJoins(runes[i .. j], 0);
    assert Waiting(0) + runes[i .. j] == runes[i .. j];
    var (out, surr) := Feed(u, 0);
    var at := s + 1 + |chars|;
    CloseRun(b, at, runes, j, LeftOver(|u|), surr, e);
    PrependTwice(out, Waiting(surr), DecodeFrom(b, at + |close|, OUTSIDE, e));
  }

  lemma {:induction false} SomeUnits(runes: seq<int>, i: nat, j: nat)
    requires AllCodePoints(runes) && i < j <= |runes|
    ensures |RunUnits(runes, i, j)| > 0
  {
    hide Utf16;
    Utf16Nonempty(runes[j - 1]);
  }

  lemma Utf16Nonempty(r: int)
    requires 0 <= r
    ensures |Utf16(r)| > 0
  {
  }

  lemma {:induction false} EnterRun(b: seq<Byte>, s: nat, e: Errors)
    requires s + 1 < |b| && b[s] == PLUS && IsBase64(b[s + 1])
    ensures DecodeFrom(b, s, OUTSIDE, e) == DecodeFrom(b, s + 1, Shift(true, 0, 0, 0), e)
  {
    PrependNothing(DecodeFrom(b, s + 1, Shift(true, 0, 0, 0), e));
  }

  // Whether or not the closing minus was written, the run ends here.
  lemma {:induction false} CloseRun(b: seq<Byte>, at: nat, runes: seq<int>, j: nat, left: nat, surr: int, e: Errors)
    requires AllCodePoints(runes) && j <= |runes| && (j < |runes| ==> Breaks(runes[j])) && left < 6
    requires var close := Closing(runes, j);
             Holds(b, at, close) && Holds(b, at + |close|, EncodeFrom(runes, j))
    ensures var close := Closing(runes, j);
            at + |close| <= |b|
            && DecodeFrom(b, at, Shift(true, left, 0, surr), e) == Prepend(Waiting(surr), DecodeFrom(b, at + |close|, OUTSIDE, e))
  {
    hide DecodeFrom, Waiting;
    if Closing(runes, j) == [MINUS] {
      HoldsAt(b, at, [MINUS], 0);
      LeaveRun(b, at, left, surr, e);
      OutsideAlike(b, at + 1, left, e);
    } else {
      NextIsItself(runes, j);
      HoldsAt(b, at, EncodeFrom(runes, j), 0);
      LeaveRun(b, at, left, surr, e);
      OutsideAlike(b, at, left, e);
    }
  }

  lemma {:induction false} NextIsItself(runes: seq<int>, j: nat)
    requires AllCodePoints(runes) && j < |runes| && Breaks(runes[j]) && !IsBase64(runes[j])
    ensures |EncodeFrom(runes, j)| > 0 && EncodeFrom(runes, j)[0] == runes[j] && runes[j] <= 127 && runes[j] != PLUS
  {
    hide IsDirect;
    DirectIsAscii(runes[j]);
  }

  // Decoding what was encoded, with any handler: none is ever called.
  lemma {:induction false} DecodesEncoded(runes: seq<int>, e: Errors)
    requires AllCodePoints(runes) && e != Unregistered
    ensures Decode(EncodeFrom(runes, 0), e) == Decoded(Joined(runes))
  {
    hide EncodeFrom, DecodeFrom;
    var b := EncodeFrom(runes, 0);
    assert b[0 .. 0 + |b|] == b && runes[0..] == runes;
    DecodesFrom(b, 0, runes, 0, e);
  }

  // A string survives the trip exactly when no high surrogate in it is
  // directly followed by a low one.
  lemma {:induction false} Utf7RoundTrip(runes: seq<int>)
    requires AllCodePoints(runes)
    ensures Decode(EncodeFrom(runes, 0), Strict) == Decoded(runes) <==> NoPairs(runes)
  {
    DecodesEncoded(runes, Strict);
    JoinedSame(runes);
  }
}
