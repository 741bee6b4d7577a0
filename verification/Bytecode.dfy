// The instruction record that the assembler reads, the tables it consults
// about opcodes, and the size of one instruction in code units.
module Bytecode {
  import opened Bytes

  type Int32 = x: int | -0x8000_0000 <= x < 0x8000_0000

  // Conversions of Go: int32(x) and uint32(x).
  function ToUint32(x: int): (r: nat)
    ensures r < 0x1_0000_0000
  {
    x % 0x1_0000_0000
  }

  function ToInt32(x: int): Int32 {
    var m := x % 0x1_0000_0000;
    if m < 0x8000_0000 then m else m - 0x1_0000_0000
  }

  const NO_LINE: int := -1

  datatype Pos = Pos(line: int, endLine: int, col: int, endCol: int)

  // entry (Label in the source) is the index of the handler's first instruction; negative: none.
  datatype Handler = Handler(entry: int, startDepth: int, preserveLasti: int)

  datatype Instr = Instr(op: int, oparg: Int32, loc: Pos, handler: Handler)

  const END_ASYNC_FOR: int := 68
  const EXTENDED_ARG: int := 69
  const JUMP_BACKWARD: int := 75
  const JUMP_BACKWARD_NO_INTERRUPT: int := 76
  const JUMP_FORWARD: int := 77
  const JUMP: int := 257
  const JUMP_NO_INTERRUPT: int := 260
  const POP_BLOCK: int := 262

  // The opcodes whose oparg is a jump target: END_ASYNC_FOR, FOR_ITER, the
  // JUMP_* family, POP_JUMP_IF_*, SEND and their specialised forms.
  predicate HasTarget(op: int) {
    op in {68, 70, 75, 76, 77, 100, 101, 102, 103, 106, 172, 173, 174, 175, 176, 237, 248}
  }

  // Number of inline cache units behind an opcode.
  function CacheCount(op: int): nat {
    if op == 80 then 9                                   // LOAD_ATTR
    else if op == 44 then 5                              // BINARY_OP
    else if op in {92, 110} then 4                       // LOAD_GLOBAL, STORE_ATTR
    else if op in {39, 52, 55} then 3                    // TO_BOOL, CALL, CALL_KW
    else if op in {38, 56, 57, 70, 75, 96, 100, 101, 102, 103, 106, 119} then 1
    else 0
  }

  // The number of bytes an argument needs, at least one: the opcode's own unit
  // and one EXTENDED_ARG unit for each further byte.
  function Width(arg: nat): (r: nat)
    ensures 1 <= r
  {
    if arg > 0xff then 1 + Width(arg / 256) else 1
  }

  function InstrSize(ins: Instr): (r: nat)
    ensures ins.op != POP_BLOCK ==> 1 + CacheCount(ins.op) <= r
  {
    if ins.op == POP_BLOCK then 0 else Width(ToUint32(ins.oparg)) + CacheCount(ins.op)
  }

  lemma {:induction false} WidthMonotone(a: nat, b: nat)
    requires a <= b
    ensures Width(a) <= Width(b)
    decreases b
  {
    if a > 0xff { WidthMonotone(a / 256, b / 256); }
  }

  lemma WidthAtMostFour(arg: nat)
    requires arg < 0x1_0000_0000
    ensures Width(arg) == if arg < 0x100 then 1 else if arg < 0x1_0000 then 2 else if arg < 0x100_0000 then 3 else 4
  {
    assert Width(arg / 256 / 256 / 256) == 1;
  }

  method MeasureInstr(ins: Instr) returns (n: nat)
    ensures n == InstrSize(ins)
  {
    if ins.op == POP_BLOCK { return 0; }
    n := 1;
    var arg := ToUint32(ins.oparg);
    while arg > 0xff
      invariant n + Width(arg) == 1 + Width(ToUint32(ins.oparg))
    {
      n := n + 1;
      arg := arg / 256;
    }
    n := n + CacheCount(ins.op);
  }

  // ----- offsets in code units -----

  function Offset(instrs: seq<Instr>, k: nat): nat
    requires k <= |instrs|
  {
    if k == 0 then 0 else Offset(instrs, k - 1) + InstrSize(instrs[k - 1])
  }

  // All of it.
  function Units(instrs: seq<Instr>): nat { Offset(instrs, |instrs|) }

  lemma {:induction false} OffsetMonotone(instrs: seq<Instr>, j: nat, k: nat)
    requires j <= k <= |instrs|
    ensures Offset(instrs, j) <= Offset(instrs, k)
    decreases k - j
  {
    if j < k { OffsetMonotone(instrs, j, k - 1); }
  }

  // Only sizes matter.
  lemma {:induction false} SameSizesSameOffset(a: seq<Instr>, b: seq<Instr>, k: nat)
    requires k <= |a| && k <= |b|
    requires forall j :: 0 <= j < k ==> InstrSize(a[j]) == InstrSize(b[j])
    ensures Offset(a, k) == Offset(b, k)
  {
    if k > 0 { SameSizesSameOffset(a, b, k - 1); }
  }
}
