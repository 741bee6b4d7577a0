// Packing instructions into code units.  Reading the bytes back as the
// interpreter does (gather EXTENDED_ARG prefixes, skip inline caches) recovers
// every instruction, and every instruction starts where the sizes say.
module Emission {
  import opened Bytes
  import opened Bytecode

  // ----- what one instruction becomes -----

  // An argument's bytes, the most significant first, without leading zeros.
  function ArgBytes(arg: nat): (r: seq<Byte>)
    ensures |r| == Width(arg)
  {
    if arg > 0xff then ArgBytes(arg / 256) + [arg % 256] else [arg]
  }

  function WithOpcode(op: Byte, bytes: seq<Byte>): (r: seq<Byte>)
    ensures |r| == 2 * |bytes|
  {
    if bytes == [] then [] else [op, bytes[0]] + WithOpcode(op, bytes[1..])
  }

  function Zeros(n: nat): (r: seq<Byte>)
    ensures |r| == n
  {
    if n == 0 then [] else Zeros(n - 1) + [0]
  }

  // EXTENDED_ARG prefixes, the opcode with the low byte, the caches.
  function Packed(ins: Instr): seq<Byte> {
    if ins.op == POP_BLOCK then []
    else
      var bytes := ArgBytes(ToUint32(ins.oparg));
      WithOpcode(EXTENDED_ARG, bytes[..|bytes| - 1]) + [ins.op % 256, bytes[|bytes| - 1]] + Zeros(2 * CacheCount(ins.op))
  }

  function PackedAll(instrs: seq<Instr>, k: nat): seq<Byte>
    requires k <= |instrs|
  {
    if k == 0 then [] else PackedAll(instrs, k - 1) + Packed(instrs[k - 1])
  }

  // ----- the assembler -----

  class Assembler {
    var code: seq<Byte>

    constructor ()
      ensures code == []
    {
      code := [];
    }

    method EmitInstr(ins: Instr)
      modifies this
      ensures code == old(code) + Packed(ins)
    {
      if ins.op == POP_BLOCK { return; }
      var arg := ToUint32(ins.oparg);
      if arg > 0xff {
        var prefixes := Prefixes(arg);
        EmitPrefixes(prefixes);
      }
      code := code + [ins.op % 256, arg % 256];
      EmitCaches(CacheCount(ins.op));
      ghost var bytes := ArgBytes(arg);
      assert bytes[|bytes| - 1] == arg % 256;
      assert arg <= 0xff ==> WithOpcode(EXTENDED_ARG, bytes[..|bytes| - 1]) == [];
      assert code == old(code) + Packed(ins);
    }

    // The non-zero high bytes and all that follow them, down to bits 8 to 15.
    method Prefixes(arg: nat) returns (prefixes: seq<Byte>)
      requires 0xff < arg < 0x1_0000_0000
      ensures prefixes == ArgBytes(arg)[..|ArgBytes(arg)| - 1]
    {
      prefixes := [];
      var scale, shift := 0x100_0000, 24;
      while shift > 0
        invariant shift in {0, 8, 16, 24}
        invariant scale == if shift == 24 then 0x100_0000 else if shift == 16 then 0x1_0000 else if shift == 8 then 0x100 else 1
        invariant prefixes == HighBytes(arg / scale / 256)
        decreases shift
      {
        HighBytesStep(arg, scale);
        var b := arg / scale % 256;
        if b != 0 || |prefixes| > 0 {
          prefixes := prefixes + [b];
        }
        scale, shift := scale / 256, shift - 8;
      }
      assert prefixes == HighBytes(arg / 256);
    }

    method EmitPrefixes(prefixes: seq<Byte>)
      modifies this
      ensures code == old(code) + WithOpcode(EXTENDED_ARG, prefixes)
    {
      for i := 0 to |prefixes|
        invariant code + WithOpcode(EXTENDED_ARG, prefixes[i..]) == old(code) + WithOpcode(EXTENDED_ARG, prefixes)
      {
        ghost var before, rest := code, WithOpcode(EXTENDED_ARG, prefixes[i + 1 ..]);
        assert prefixes[i..][1..] == prefixes[i + 1 ..];
        code := code + [EXTENDED_ARG, prefixes[i]];
        assert before + ([EXTENDED_ARG, prefixes[i]] + rest) == code + rest;
      }
      assert code + [] == code;
    }

    method EmitCaches(n: nat)
      modifies this
      ensures code == old(code) + Zeros(2 * n)
    {
      for i := 0 to n
        invariant code == old(code) + Zeros(2 * i)
      {
        code := code + [0, 0];
        assert Zeros(2 * i + 2) == Zeros(2 * i) + [0] + [0];
      }
    }

    method Emit(instrs: seq<Instr>)
      modifies this
      ensures code == old(code) + PackedAll(instrs, |instrs|)
    {
      hide Packed;
      for i := 0 to |instrs|
        invariant code == old(code) + PackedAll(instrs, i)
      {
        EmitInstr(instrs[i]);
      }
    }
  }

  // The bytes of v without leading zeros; none for zero.
  function HighBytes(v: nat): seq<Byte> { if v == 0 then [] else ArgBytes(v) }

  lemma HighBytesStep(arg: nat, scale: nat)
    requires scale in {0x100_0000, 0x1_0000, 0x100}
    ensures HighBytes(arg / (scale / 256) / 256)
         == HighBytes(arg / scale / 256) + if arg / scale % 256 != 0 || |HighBytes(arg / scale / 256)| > 0 then [arg / scale % 256] else []
    ensures scale / 256 > 0
  {
    var v := arg / scale;
    assert arg / (scale / 256) / 256 == v;
    if v > 0xff {
      assert v / 256 > 0;
    }
  }

  // ----- sizes -----

  lemma {:induction false} PackedSize(ins: Instr)
    ensures |Packed(ins)| == 2 * InstrSize(ins)
  {
  }

  // Instruction k starts at byte 2 * Offset(k).
  lemma {:induction false} StartsAt(instrs: seq<Instr>, k: nat)
    requires k <= |instrs|
    ensures |PackedAll(instrs, k)| == 2 * Offset(instrs, k)
  {
    hide Packed, InstrSize;
    if k > 0 {
      StartsAt(instrs, k - 1);
      PackedSize(instrs[k - 1]);
    }
  }

  lemma {:induction false} PackedPrefix(instrs: seq<Instr>, j: nat, k: nat)
    requires j <= k <= |instrs|
    ensures PackedAll(instrs, j) <= PackedAll(instrs, k)
    decreases k - j
  {
    hide Packed;
    if j < k { PackedPrefix(instrs, j, k - 1); }
  }

  // ----- reading -----

  datatype Decoded = Decoded(op: int, arg: nat)

  // The instruction stream from byte pos on; ext is the value of the
  // EXTENDED_ARG prefixes read so far.  None on a stream that breaks off.
  function Read(code: seq<Byte>, pos: nat, ext: nat): (r: seq<Decoded>)
    decreases |code| - pos
  {
    if pos + 2 > |code| then []
    else
      var op, arg := code[pos], 256 * ext + code[pos + 1];
      if op == EXTENDED_ARG then Read(code, pos + 2, arg)
      else [Decoded(op, arg)] + Read(code, pos + 2 + 2 * CacheCount(op), 0)
  }

  // An opcode that can stand in a final code object.
  predicate Real(ins: Instr) {
    0 <= ins.op < 256 && ins.op != EXTENDED_ARG
  }

  function Listing(instrs: seq<Instr>, k: nat): seq<Decoded>
    requires k <= |instrs|
    requires forall i :: 0 <= i < |instrs| ==> instrs[i].op == POP_BLOCK || Real(instrs[i])
    decreases |instrs| - k
  {
    if k == |instrs| then []
    else if instrs[k].op == POP_BLOCK then Listing(instrs, k + 1)
    else [Decoded(instrs[k].op, ToUint32(instrs[k].oparg))] + Listing(instrs, k + 1)
  }

  // The number whose bytes these are, after the prefix value ext.
  function Number(bytes: seq<Byte>, ext: nat): nat {
    if bytes == [] then ext else Number(bytes[1..], 256 * ext + bytes[0])
  }

  lemma {:induction false} NumberSnoc(bytes: seq<Byte>, b: Byte, ext: nat)
    ensures Number(bytes + [b], ext) == 256 * Number(bytes, ext) + b
    decreases |bytes|
  {
    if bytes != [] {
      assert (bytes + [b])[1..] == bytes[1..] + [b];
      NumberSnoc(bytes[1..], b, 256 * ext + bytes[0]);
    } else {
      assert ([] + [b])[1..] == [];
    }
  }

  lemma {:induction false} ArgBytesNumber(arg: nat)
    ensures Number(ArgBytes(arg), 0) == arg
    ensures ArgBytes(arg)[Width(arg) - 1] == arg % 256
    ensures Number(ArgBytes(arg)[..Width(arg) - 1], 0) == arg / 256
  {
    var bytes := ArgBytes(arg);
    if arg > 0xff {
      ArgBytesNumber(arg / 256);
      NumberSnoc(ArgBytes(arg / 256), arg % 256, 0);
      assert bytes[..|bytes| - 1] == ArgBytes(arg / 256);
    } else {
      assert bytes[..0] == [] && bytes[1..] == [];
      assert Number(bytes, 0) == Number(bytes[1..], bytes[0]);
    }
  }

  lemma {:induction false} ReadPrefixes(code: seq<Byte>, pos: nat, bytes: seq<Byte>, ext: nat)
    requires Holds(code, pos, WithOpcode(EXTENDED_ARG, bytes))
    ensures Read(code, pos, ext) == Read(code, pos + 2 * |bytes|, Number(bytes, ext))
    decreases |bytes|
  {
    if bytes != [] {
      var head, rest := [EXTENDED_ARG, bytes[0]], WithOpcode(EXTENDED_ARG, bytes[1..]);
      HoldsSplit(code, pos, head, rest);
      var window := code[pos .. pos + 2];
      assert window[0] == code[pos] && window[1] == code[pos + 1];
      ReadPrefixes(code, pos + 2, bytes[1..], 256 * ext + bytes[0]);
    }
  }

  lemma ReadUnit(code: seq<Byte>, at: nat, ext: nat, op: Byte, low: Byte)
    requires at + 2 <= |code| && code[at] == op && code[at + 1] == low && op != EXTENDED_ARG
    ensures Read(code, at, ext) == [Decoded(op, 256 * ext + low)] + Read(code, at + 2 + 2 * CacheCount(op), 0)
  {
  }

  lemma {:induction false} PackedParts(ins: Instr)
    requires ins.op != POP_BLOCK
    ensures var bytes := ArgBytes(ToUint32(ins.oparg));
            Packed(ins) == WithOpcode(EXTENDED_ARG, bytes[..|bytes| - 1]) + ([ins.op % 256, bytes[|bytes| - 1]] + Zeros(2 * CacheCount(ins.op)))
  {
    hide ArgBytes, WithOpcode, Zeros, ToUint32, CacheCount;
  }

  lemma {:induction false} ReadInstr(code: seq<Byte>, pos: nat, ins: Instr)
    requires Real(ins) && Holds(code, pos, Packed(ins))
    ensures Read(code, pos, 0) == [Decoded(ins.op, ToUint32(ins.oparg))] + Read(code, pos + |Packed(ins)|, 0)
  {
    hide ArgBytes, WithOpcode, Zeros, Number, ToUint32, Holds, Read, CacheCount, Width, Packed;
    var arg := ToUint32(ins.oparg);
    var bytes := ArgBytes(arg);
    var high := bytes[..|bytes| - 1];
    var prefix, unit, caches := WithOpcode(EXTENDED_ARG, high), [ins.op % 256, bytes[|bytes| - 1]], Zeros(2 * CacheCount(ins.op));
    PackedParts(ins);
    HoldsSplit(code, pos, prefix, unit + caches);
    HoldsSplit(code, pos + |prefix|, unit, caches);
    ReadPrefixes(code, pos, high, 0);
    ArgBytesNumber(arg);
    var at := pos + |prefix|;
    HoldsAt(code, at, unit, 0);
    HoldsAt(code, at, unit, 1);
    ReadUnit(code, at, arg / 256, ins.op, arg % 256);
  }

  lemma {:induction false} ReadEnd(code: seq<Byte>, pos: nat)
    requires |code| <= pos
    ensures Read(code, pos, 0) == []
  {
  }

  lemma {:induction false} ReadFrom(instrs: seq<Instr>, k: nat)
    requires k <= |instrs|
    requires forall i :: 0 <= i < |instrs| ==> instrs[i].op == POP_BLOCK || Real(instrs[i])
    ensures Read(PackedAll(instrs, |instrs|), 2 * Offset(instrs, k), 0) == Listing(instrs, k)
    decreases |instrs| - k
  {
    hide Packed, Read;
    var code := PackedAll(instrs, |instrs|);
    StartsAt(instrs, k);
    if k == |instrs| {
      ReadEnd(code, 2 * Offset(instrs, k));
    } else {
      ReadFrom(instrs, k + 1);
      StartsAt(instrs, k + 1);
      PackedPrefix(instrs, k + 1, |instrs|);
      PackedSize(instrs[k]);
      var pos := 2 * Offset(instrs, k);
      var next := PackedAll(instrs, k + 1);
      assert code[pos .. pos + |Packed(instrs[k])|] == next[pos..] == Packed(instrs[k]);
      if instrs[k].op != POP_BLOCK { ReadInstr(code, pos, instrs[k]); }
    }
  }

  // Reading what was emitted gives back every instruction but the POP_BLOCK
  // markers, each with its 32-bit argument.
  lemma {:induction false} EmissionRoundTrip(instrs: seq<Instr>)
    requires forall i :: 0 <= i < |instrs| ==> instrs[i].op == POP_BLOCK || Real(instrs[i])
    ensures Read(PackedAll(instrs, |instrs|), 0, 0) == Listing(instrs, 0)
    ensures |PackedAll(instrs, |instrs|)| == 2 * Units(instrs)
  {
    ReadFrom(instrs, 0);
    StartsAt(instrs, |instrs|);
  }

  // The caches of an instruction are zero throughout, behind the unit with its
  // opcode.
  lemma {:induction false} CachesAreZero(instrs: seq<Instr>, k: nat, j: nat)
    requires k < |instrs| && instrs[k].op != POP_BLOCK && j < 2 * CacheCount(instrs[k].op)
    ensures var code, end := PackedAll(instrs, |instrs|), 2 * Offset(instrs, k + 1);
            end <= |code| && 0 <= end - 2 * CacheCount(instrs[k].op) + j && code[end - 2 * CacheCount(instrs[k].op) + j] == 0
  {
    hide Packed, CacheCount;
    StartsAt(instrs, k);
    StartsAt(instrs, k + 1);
    PackedPrefix(instrs, k + 1, |instrs|);
    EndsInCaches(instrs[k], j);
    var next, packed := PackedAll(instrs, k + 1), Packed(instrs[k]);
    var at := |packed| - 2 * CacheCount(instrs[k].op) + j;
    assert next[|PackedAll(instrs, k)| + at] == packed[at];
  }

  lemma {:induction false} EndsInCaches(ins: Instr, j: nat)
    requires ins.op != POP_BLOCK && j < 2 * CacheCount(ins.op)
    ensures var n := 2 * CacheCount(ins.op); n <= |Packed(ins)| && Packed(ins)[|Packed(ins)| - n + j] == 0
  {
    hide ArgBytes, WithOpcode, CacheCount;
    var n := 2 * CacheCount(ins.op);
    AllZeros(n, j);
    var bytes := ArgBytes(ToUint32(ins.oparg));
    var front := WithOpcode(EXTENDED_ARG, bytes[..|bytes| - 1]) + [ins.op % 256, bytes[|bytes| - 1]];
    assert Packed(ins) == front + Zeros(n);
  }

  lemma {:induction false} AllZeros(n: nat, j: nat)
    requires j < n
    ensures Zeros(n)[j] == 0
    decreases n
  {
    if j < n - 1 { AllZeros(n - 1, j); }
  }
}
