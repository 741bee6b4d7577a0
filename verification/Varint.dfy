// Six-bit variable-length integers, least significant group first, as the
// location table uses them; and their reader.
module Varint {
  import opened Bytes
  import opened Bytecode

  // Bit 6 of a byte says that more bytes follow.
  function VarintBytes(v: nat): (r: seq<Byte>)
    ensures 0 < |r|
    ensures forall k :: 0 <= k < |r| ==> r[k] < 0x80
  {
    if v >= 0x40 then [v % 0x40 + 0x40] + VarintBytes(v / 0x40) else [v]
  }

  method WriteVarint(buf: seq<Byte>, value: nat) returns (out: seq<Byte>)
    requires value < 0x1_0000_0000
    ensures out == buf + VarintBytes(value)
  {
    out := buf;
    var v := value;
    while v >= 0x40
      invariant out + VarintBytes(v) == buf + VarintBytes(value)
    {
      ghost var before, rest := out, VarintBytes(v / 0x40);
      out := out + [v % 0x40 + 0x40];
      assert before + ([v % 0x40 + 0x40] + rest) == out + rest;
      v := v / 0x40;
    }
    out := out + [v];
  }

  // The sign in bit 0, the magnitude above it, both in 32 bits.
  function SignedCode(v: Int32): (r: nat)
    ensures r < 0x1_0000_0000
  {
    if v < 0 then 2 * ToUint32(ToInt32(-(v as int))) % 0x1_0000_0000 + 1 else 2 * ToUint32(v) % 0x1_0000_0000
  }

  method WriteSignedVarint(buf: seq<Byte>, v: Int32) returns (out: seq<Byte>)
    ensures out == buf + VarintBytes(SignedCode(v))
  {
    var u: nat;
    if v < 0 {
      u := 2 * ToUint32(ToInt32(-(v as int))) % 0x1_0000_0000 + 1;
    } else {
      u := 2 * ToUint32(v) % 0x1_0000_0000;
    }
    out := WriteVarint(buf, u);
  }

  // ----- reading -----

  datatype VarintResult = Broken | Number(val: int, n: nat)

  function ReadVarint(b: seq<Byte>, pos: nat): (r: VarintResult)
    ensures r.Number? ==> 0 <= r.val
    decreases |b| - pos
  {
    if pos >= |b| then Broken
    else if b[pos] / 0x40 % 2 == 0 then Number(b[pos] % 0x40, 1)
    else
      match ReadVarint(b, pos + 1)
      case Broken => Broken
      case Number(v, n) => Number(b[pos] % 0x40 + 0x40 * v, n + 1)
  }

  function ReadSignedVarint(b: seq<Byte>, pos: nat): VarintResult {
    match ReadVarint(b, pos)
    case Broken => Broken
    case Number(u, n) => Number(if u % 2 == 1 then -(u / 2) else u / 2, n)
  }

  lemma {:induction false} VarintRoundTrip(b: seq<Byte>, pos: nat, v: nat)
    requires Holds(b, pos, VarintBytes(v))
    ensures ReadVarint(b, pos) == Number(v, |VarintBytes(v)|)
    decreases v
  {
    if v >= 0x40 {
      HoldsSplit(b, pos, [v % 0x40 + 0x40], VarintBytes(v / 0x40));
      HoldsAt(b, pos, [v % 0x40 + 0x40], 0);
      VarintRoundTrip(b, pos + 1, v / 0x40);
    } else {
      HoldsAt(b, pos, [v], 0);
    }
  }

  // Every 32-bit value but the least one comes back.
  lemma {:induction false} SignedRoundTrip(b: seq<Byte>, pos: nat, v: Int32)
    requires Holds(b, pos, VarintBytes(SignedCode(v)))
    ensures ReadSignedVarint(b, pos) == Number(if v == -0x8000_0000 then 0 else v, |VarintBytes(SignedCode(v))|)
  {
    hide SignedCode, ReadVarint, VarintBytes, Holds;
    VarintRoundTrip(b, pos, SignedCode(v));
    SignedCodeIs(v);
  }

  lemma SignedCodeIs(v: Int32)
    ensures SignedCode(v) == if v == -0x8000_0000 then 1 else if v < 0 then 2 * -(v as int) + 1 else 2 * v
  {
    var u := ToUint32(if v < 0 then ToInt32(-(v as int)) else v);
    assert u == if v < 0 then -(v as int) else v;
  }

  // ----- no number has a shorter form -----

  lemma {:induction false} LongerNumber(u: nat, v: nat)
    requires u <= v
    ensures |VarintBytes(u)| <= |VarintBytes(v)|
    decreases u
  {
    if u >= 0x40 { LongerNumber(u / 0x40, v / 0x40); }
  }

  lemma {:induction false} VarintShortest(b: seq<Byte>, pos: nat)
    ensures var r := ReadVarint(b, pos); r.Number? ==> |VarintBytes(r.val)| <= r.n
    decreases |b| - pos
  {
    if pos < |b| && b[pos] / 0x40 % 2 == 1 {
      VarintShortest(b, pos + 1);
      var r := ReadVarint(b, pos + 1);
      if r.Number? { assert (b[pos] % 0x40 + 0x40 * r.val) / 0x40 == r.val; }
    }
  }

  // Whatever bytes read as a number, the writer takes no more of them.
  lemma {:induction false} SignedShortest(b: seq<Byte>, pos: nat)
    ensures var r := ReadSignedVarint(b, pos);
            r.Number? && -0x8000_0000 < r.val < 0x8000_0000 ==> |VarintBytes(SignedCode(r.val))| <= r.n
  {
    hide SignedCode, VarintBytes;
    VarintShortest(b, pos);
    var r := ReadVarint(b, pos);
    if r.Number? {
      var d := if r.val % 2 == 1 then -(r.val / 2) else r.val / 2;
      if -0x8000_0000 < d < 0x8000_0000 {
        SignedCodeIs(d);
        LongerNumber(SignedCode(d), r.val);
      }
    }
  }
}
