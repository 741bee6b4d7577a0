// The exception table: runs of instructions with one handler, written as
// records of six-bit groups, and the search that the interpreter makes in it.
// Looking up a byte offset finds the handler of the instruction there.
module ExceptionTable {
  import opened Bytes
  import opened Bytecode

  const CONTINUATION: Byte := 0x40
  const ENTRY_START: Byte := 0x80

  // ----- writing numbers -----

  // b | bit, for a power of two.
  function WithBit(b: Byte, bit: nat): (r: Byte)
    requires bit in {0x40, 0x80}
    ensures r / bit % 2 == 1
  {
    if b / bit % 2 == 1 then b else b + bit
  }

  function WithMsb(b: Byte, msb: Byte): Byte
    requires msb in {0, ENTRY_START}
  {
    if msb == 0 then b else WithBit(b, ENTRY_START)
  }

  // The last k + 1 groups of v, the most significant first.
  function Groups(v: nat, k: nat): (r: seq<Byte>)
    ensures |r| == k + 1
    ensures forall j :: 0 <= j < |r| ==> r[j] < 0x80
  {
    if k == 0 then [v % 0x40] else [v / Scale(k) % 0x40 + 0x40] + Groups(v, k - 1)
  }

  function Scale(k: nat): (r: nat)
    ensures 0 < r
  {
    if k == 0 then 1 else 0x40 * Scale(k - 1)
  }

  function ItemGroups(v: nat): (r: seq<Byte>)
    requires v < 0x1_0000_0000
    ensures 0 < |r|
    ensures forall j :: 0 < j < |r| ==> r[j] < 0x80
    ensures v < 0x8000_0000 ==> r[0] < 0x80
  {
    if v >= 0x100_0000 then [WithBit(v / 0x100_0000, CONTINUATION)] + Groups(v, 3)
    else Groups(v, if v >= 0x4_0000 then 3 else if v >= 0x1000 then 2 else if v >= 0x40 then 1 else 0)
  }

  function ItemBytes(value: int, msb: Byte): (r: seq<Byte>)
    requires msb in {0, ENTRY_START}
    ensures 0 < |r|
  {
    var g := ItemGroups(ToUint32(value));
    [WithMsb(g[0], msb)] + g[1..]
  }

  method WriteExcItem(buf: seq<Byte>, value: int, msb: Byte) returns (out: seq<Byte>)
    requires msb in {0, ENTRY_START}
    ensures out == buf + ItemBytes(value, msb)
  {
    hide WithMsb, WithBit, Groups, ToUint32, ItemBytes;
    var v, m := ToUint32(value), msb;
    ghost var added: seq<Byte> := [];
    out := buf;
    if v >= 0x100_0000 {
      out, added := Extend(out, buf, added, WithMsb(WithBit(v / 0x100_0000, CONTINUATION), m));
      m := 0;
    }
    if v >= 0x4_0000 {
      out, added := Extend(out, buf, added, WithMsb(v / 0x4_0000 % 0x40 + CONTINUATION, m));
      m := 0;
    }
    if v >= 0x1000 {
      out, added := Extend(out, buf, added, WithMsb(v / 0x1000 % 0x40 + CONTINUATION, m));
      m := 0;
    }
    if v >= 0x40 {
      out, added := Extend(out, buf, added, WithMsb(v / 0x40 % 0x40 + CONTINUATION, m));
      m := 0;
    }
    out, added := Extend(out, buf, added, WithMsb(v % 0x40, m));
    NoMsb();
    ItemCases(value, msb);
  }

  // append(out, b), with a record of what has been appended to buf.
  method Extend(out: seq<Byte>, ghost buf: seq<Byte>, ghost added: seq<Byte>, b: Byte) returns (out': seq<Byte>, ghost added': seq<Byte>)
    requires out == buf + added
    ensures out' == out + [b] && added' == added + [b] && out' == buf + added'
  {
    out' := out + [b];
    added' := added + [b];
  }

  lemma ItemCases(value: int, msb: Byte)
    requires msb in {0, ENTRY_START}
    ensures var v := ToUint32(value);
            var g0, g1, g2, g3 := v % 0x40, v / 0x40 % 0x40 + 0x40, v / 0x1000 % 0x40 + 0x40, v / 0x4_0000 % 0x40 + 0x40;
            ItemBytes(value, msb) ==
            if v >= 0x100_0000 then [WithMsb(WithBit(v / 0x100_0000, CONTINUATION), msb), g3, g2, g1, g0]
            else if v >= 0x4_0000 then [WithMsb(g3, msb), g2, g1, g0]
            else if v >= 0x1000 then [WithMsb(g2, msb), g1, g0]
            else if v >= 0x40 then [WithMsb(g1, msb), g0]
            else [WithMsb(g0, msb)]
  {
    hide Groups, WithMsb, WithBit;
    GroupsUnfold(ToUint32(value));
  }

  lemma NoMsb()
    ensures forall b: Byte :: WithMsb(b, 0) == b
  {
  }

  lemma GroupsUnfold(v: nat)
    ensures Groups(v, 0) == [v % 0x40]
    ensures Groups(v, 1) == [v / 0x40 % 0x40 + 0x40, v % 0x40]
    ensures Groups(v, 2) == [v / 0x1000 % 0x40 + 0x40, v / 0x40 % 0x40 + 0x40, v % 0x40]
    ensures Groups(v, 3) == [v / 0x4_0000 % 0x40 + 0x40, v / 0x1000 % 0x40 + 0x40, v / 0x40 % 0x40 + 0x40, v % 0x40]
  {
    assert Scale(1) == 0x40 && Scale(2) == 0x1000 && Scale(3) == 0x4_0000;
  }

  // ----- reading numbers -----

  datatype ExcNumber = Broken | Number(val: int, n: nat)

  // Groups from pos on, after those that made up acc.
  function ReadExcVarint(b: seq<Byte>, pos: nat, acc: nat): (r: ExcNumber)
    ensures r.Number? ==> 0 < r.n && 0 <= r.val
    decreases |b| - pos
  {
    if pos >= |b| then Broken
    else
      var val := 0x40 * acc + b[pos] % 0x40;
      if b[pos] / 0x40 % 2 == 0 then Number(val, 1)
      else
        match ReadExcVarint(b, pos + 1, val)
        case Broken => Broken
        case Number(v, n) => Number(v, n + 1)
  }

  lemma {:induction false} GroupsBack(b: seq<Byte>, pos: nat, v: nat, k: nat, acc: nat)
    requires k <= 3 && Holds(b, pos, Groups(v, k))
    ensures ReadExcVarint(b, pos, acc) == Number(acc * Scale(k + 1) + v % Scale(k + 1), k + 1)
    decreases k
  {
    hide Holds, ReadExcVarint;
    HoldsAt(b, pos, Groups(v, k), 0);
    assert Scale(1) == 0x40 && Scale(2) == 0x1000 && Scale(3) == 0x4_0000 && Scale(4) == 0x100_0000;
    if k == 0 {
      ReadLast(b, pos, v % 0x40, acc);
    } else {
      var g := v / Scale(k) % 0x40;
      HoldsSplit(b, pos, [g + 0x40], Groups(v, k - 1));
      ReadGroup(b, pos, g, acc);
      GroupsBack(b, pos + 1, v, k - 1, 0x40 * acc + g);
      DigitSplit(v, Scale(k), acc);
    }
  }

  lemma ReadGroup(b: seq<Byte>, pos: nat, g: nat, acc: nat)
    requires pos < |b| && g < 0x40 && b[pos] == g + 0x40
    ensures var r := ReadExcVarint(b, pos + 1, 0x40 * acc + g);
            ReadExcVarint(b, pos, acc) == if r.Broken? then Broken else Number(r.val, r.n + 1)
  {
  }

  lemma ReadLast(b: seq<Byte>, pos: nat, g: nat, acc: nat)
    requires pos < |b| && g < 0x40 && b[pos] == g
    ensures ReadExcVarint(b, pos, acc) == Number(0x40 * acc + g, 1)
  {
  }

  lemma DigitSplit(v: nat, s: nat, acc: nat)
    requires s in {0x40, 0x1000, 0x4_0000}
    ensures (0x40 * acc + v / s % 0x40) * s + v % s == acc * (0x40 * s) + v % (0x40 * s)
  {
    if s == 0x40 {
    } else if s == 0x1000 {
    } else {
    }
  }

  // A number reads back modulo 2^30: five groups are all that is written.
  lemma {:induction false} ItemBack(b: seq<Byte>, pos: nat, value: int, msb: Byte)
    requires msb in {0, ENTRY_START} && Holds(b, pos, ItemBytes(value, msb))
    ensures ReadExcVarint(b, pos, 0) == Number(ToUint32(value) % 0x4000_0000, |ItemBytes(value, msb)|)
  {
    hide ToUint32, Groups, ReadExcVarint;
    var v := ToUint32(value);
    var g := ItemGroups(v);
    assert Scale(1) == 0x40 && Scale(2) == 0x1000 && Scale(3) == 0x4_0000 && Scale(4) == 0x100_0000;
    MsbIgnored(b, pos, g, msb);
    var bare := b[..pos] + g + b[pos + |g| ..];
    if v >= 0x100_0000 {
      HoldsSplit(bare, pos, [g[0]], Groups(v, 3));
      GroupsBack(bare, pos + 1, v, 3, v / 0x100_0000 % 0x40);
      HoldsAt(bare, pos, g, 0);
      TopGroup(v);
      ReadMore(bare, pos);
    } else {
      var k := if v >= 0x4_0000 then 3 else if v >= 0x1000 then 2 else if v >= 0x40 then 1 else 0;
      GroupsBack(bare, pos, v, k, 0);
    }
  }

  lemma TopGroup(v: nat)
    requires v < 0x1_0000_0000
    ensures v / 0x100_0000 % 0x40 * 0x100_0000 + v % 0x100_0000 == v % 0x4000_0000
    ensures WithBit(v / 0x100_0000, CONTINUATION) % 0x40 == v / 0x100_0000 % 0x40
  {
  }

  lemma ReadMore(b: seq<Byte>, pos: nat)
    requires pos < |b| && b[pos] / CONTINUATION % 2 == 1
    ensures var r := ReadExcVarint(b, pos + 1, b[pos] % 0x40);
            ReadExcVarint(b, pos, 0) == if r.Broken? then Broken else Number(r.val, r.n + 1)
  {
  }

  // The reader does not look at bit 7.
  lemma {:induction false} MsbIgnored(b: seq<Byte>, pos: nat, g: seq<Byte>, msb: Byte)
    requires msb in {0, ENTRY_START} && 0 < |g| && Holds(b, pos, [WithMsb(g[0], msb)] + g[1..])
    ensures var bare := b[..pos] + g + b[pos + |g| ..];
            Holds(bare, pos, g) && ReadExcVarint(b, pos, 0) == ReadExcVarint(bare, pos, 0)
  {
    var bare := b[..pos] + g + b[pos + |g| ..];
    var written := [WithMsb(g[0], msb)] + g[1..];
    assert bare[pos .. pos + |g|] == g;
    forall k | pos < k < |b| ensures bare[k] == b[k] {
      if k < pos + |g| { HoldsAt(b, pos, written, k - pos); }
    }
    HoldsAt(b, pos, written, 0);
    assert bare[pos] == g[0];
    SameTail(b, bare, pos + 1, g[0] % 0x40);
  }

  lemma {:induction false} SameTail(b: seq<Byte>, c: seq<Byte>, pos: nat, acc: nat)
    requires |b| == |c| && forall k :: pos <= k < |b| ==> b[k] == c[k]
    ensures ReadExcVarint(b, pos, acc) == ReadExcVarint(c, pos, acc)
    decreases |b| - pos
  {
    if pos < |b| { SameTail(b, c, pos + 1, 0x40 * acc + b[pos] % 0x40); }
  }

  // ----- records -----

  // The byte offset of instruction k.
  function ByteOffset(instrs: seq<Instr>, k: nat): nat
    requires k <= |instrs|
  {
    2 * Offset(instrs, k)
  }

  function Depth(h: Handler): nat {
    var depth := h.startDepth - 1 - if h.preserveLasti > 0 then 1 else 0;
    if depth < 0 then 0 else depth
  }

  // The flag occupies bit 0 below the depth.
  function DepthLasti(h: Handler): int
    requires h.preserveLasti in {0, 1}
  {
    2 * Depth(h) + h.preserveLasti
  }

  function EntryBytes(start: nat, end: nat, target: nat, h: Handler): seq<Byte>
    requires h.preserveLasti in {0, 1}
  {
    ItemBytes(start, ENTRY_START) + (ItemBytes(end - start, 0) + (ItemBytes(target, 0) + ItemBytes(DepthLasti(h), 0)))
  }

  method WriteExcEntry(buf: seq<Byte>, start: nat, end: nat, target: nat, h: Handler) returns (out: seq<Byte>)
    requires h.preserveLasti in {0, 1}
    ensures out == buf + EntryBytes(start, end, target, h)
  {
    hide ItemBytes;
    var depth := h.startDepth - 1;
    if h.preserveLasti > 0 { depth := depth - 1; }
    if depth < 0 { depth := 0; }
    var depthLasti := 2 * depth + h.preserveLasti;
    out := WriteExcItem(buf, start, ENTRY_START);
    out := WriteExcItem(out, end - start, 0);
    out := WriteExcItem(out, target, 0);
    out := WriteExcItem(out, depthLasti, 0);
    Associate(buf, ItemBytes(start, ENTRY_START), ItemBytes(end - start, 0), ItemBytes(target, 0), ItemBytes(DepthLasti(h), 0));
  }

  lemma Associate(a: seq<Byte>, b: seq<Byte>, c: seq<Byte>, d: seq<Byte>, e: seq<Byte>)
    ensures a + b + c + d + e == a + (b + (c + (d + e)))
  {
  }

  // ----- the table -----

  const NO_HANDLER := Handler(-1, -1, -1)

  predicate Valid(instrs: seq<Instr>, h: Handler) { 0 <= h.entry < |instrs| }

  // Handlers that are used carry a proper flag.
  ghost predicate FlagsProper(instrs: seq<Instr>) {
    forall i :: 0 <= i < |instrs| && Valid(instrs, instrs[i].handler) ==> instrs[i].handler.preserveLasti in {0, 1}
  }

  ghost predicate Usable(instrs: seq<Instr>, h: Handler) { Valid(instrs, h) ==> h.preserveLasti in {0, 1} }

  // The record of a run from byte start up to byte end.
  function RunBytes(instrs: seq<Instr>, h: Handler, start: nat, end: nat): seq<Byte>
    requires Usable(instrs, h)
  {
    if Valid(instrs, h) then EntryBytes(start, end, ByteOffset(instrs, h.entry), h) else []
  }

  // The records for instructions i.., while a run of h from start is open.
  function TableBytes(instrs: seq<Instr>, i: nat, h: Handler, start: nat): seq<Byte>
    requires i <= |instrs| && FlagsProper(instrs) && Usable(instrs, h)
    decreases |instrs| - i
  {
    if i == |instrs| then RunBytes(instrs, h, start, ByteOffset(instrs, i))
    else if instrs[i].handler.entry != h.entry then
      RunBytes(instrs, h, start, ByteOffset(instrs, i)) + TableBytes(instrs, i + 1, instrs[i].handler, ByteOffset(instrs, i))
    else TableBytes(instrs, i + 1, h, start)
  }

  method AssembleExceptionTable(instrs: seq<Instr>) returns (buf: seq<Byte>)
    requires FlagsProper(instrs)
    ensures buf == TableBytes(instrs, 0, NO_HANDLER, 0)
  {
    hide Offset, InstrSize, EntryBytes;
    buf := [];
    if |instrs| == 0 { return; }
    var offsets, totalBytes := ByteOffsets(instrs);
    var handler := NO_HANDLER;
    var start: nat := 0;
    ghost var all := TableBytes(instrs, 0, NO_HANDLER, 0);
    for i := 0 to |instrs|
      invariant Usable(instrs, handler)
      invariant buf + TableBytes(instrs, i, handler, start) == all
    {
      if instrs[i].handler.entry != handler.entry {
        ghost var before, run := buf, RunBytes(instrs, handler, start, ByteOffset(instrs, i));
        if 0 <= handler.entry < |instrs| {
          buf := WriteExcEntry(buf, start, offsets[i], offsets[handler.entry], handler);
        }
        ghost var rest := TableBytes(instrs, i + 1, instrs[i].handler, ByteOffset(instrs, i));
        assert before + (run + rest) == buf + rest;
        start := offsets[i];
        handler := instrs[i].handler;
      }
    }
    if 0 <= handler.entry < |instrs| {
      buf := WriteExcEntry(buf, start, totalBytes, offsets[handler.entry], handler);
    }
  }

  method ByteOffsets(instrs: seq<Instr>) returns (offsets: seq<nat>, totalBytes: nat)
    ensures |offsets| == |instrs| && totalBytes == ByteOffset(instrs, |instrs|)
    ensures forall k :: 0 <= k < |instrs| ==> offsets[k] == ByteOffset(instrs, k)
  {
    offsets, totalBytes := [], 0;
    for i := 0 to |instrs|
      invariant |offsets| == i && totalBytes == ByteOffset(instrs, i)
      invariant forall k :: 0 <= k < i ==> offsets[k] == ByteOffset(instrs, k)
    {
      offsets := offsets + [totalBytes];
      var n := MeasureInstr(instrs[i]);
      totalBytes := totalBytes + 2 * n;
    }
  }

  // ----- searching -----

  datatype Entry = Entry(start: int, end: int, target: int, depth: int, preserveLasti: bool)

  datatype EntryResult = NoEntry | Read(entry: Entry, n: nat)

  function ReadEntry(tab: seq<Byte>, pos: nat): (r: EntryResult)
    ensures r.Read? ==> 0 < r.n
  {
    match ReadExcVarint(tab, pos, 0)
    case Broken => NoEntry
    case Number(start, n1) =>
      match ReadExcVarint(tab, pos + n1, 0)
      case Broken => NoEntry
      case Number(size, n2) =>
        match ReadExcVarint(tab, pos + n1 + n2, 0)
        case Broken => NoEntry
        case Number(target, n3) =>
          match ReadExcVarint(tab, pos + n1 + n2 + n3, 0)
          case Broken => NoEntry
          case Number(depthLasti, n4) =>
            Read(Entry(start, start + size, target, depthLasti / 2, depthLasti % 2 == 1), n1 + n2 + n3 + n4)
  }

  datatype Search = NotFound | Found(entry: Entry)

  // The first record from byte pos on whose range contains pc.
  function FindExcHandler(tab: seq<Byte>, pos: nat, pc: int): Search
    decreases |tab| - pos
  {
    if pos >= |tab| then NotFound
    else if tab[pos] < 0x80 then FindExcHandler(tab, pos + 1, pc)
    else
      match ReadEntry(tab, pos)
      case NoEntry => NotFound
      case Read(e, n) => if e.start <= pc < e.end then Found(e) else FindExcHandler(tab, pos + n, pc)
  }

  // All records, as the search would meet them.
  function Records(tab: seq<Byte>, pos: nat): seq<Entry>
    decreases |tab| - pos
  {
    if pos >= |tab| then []
    else if tab[pos] < 0x80 then Records(tab, pos + 1)
    else
      match ReadEntry(tab, pos)
      case NoEntry => []
      case Read(e, n) => [e] + Records(tab, pos + n)
  }

  function First(entries: seq<Entry>, pc: int): Search {
    if entries == [] then NotFound
    else if entries[0].start <= pc < entries[0].end then Found(entries[0])
    else First(entries[1..], pc)
  }

  lemma {:induction false} SearchIsFirst(tab: seq<Byte>, pos: nat, pc: int)
    ensures FindExcHandler(tab, pos, pc) == First(Records(tab, pos), pc)
    decreases |tab| - pos
  {
    hide ReadEntry;
    if pos >= |tab| {
    } else if tab[pos] < ENTRY_START {
      SearchIsFirst(tab, pos + 1, pc);
    } else {
      var r := ReadEntry(tab, pos);
      if r.Read? {
        SearchIsFirst(tab, pos + r.n, pc);
        assert ([r.entry] + Records(tab, pos + r.n))[1..] == Records(tab, pos + r.n);
      }
    }
  }

  // ----- reading a record back -----

  const LIMIT: int := 0x4000_0000

  lemma {:induction false} ItemExact(b: seq<Byte>, pos: nat, value: int, msb: Byte)
    requires msb in {0, ENTRY_START} && Holds(b, pos, ItemBytes(value, msb)) && 0 <= value < 0x1_0000_0000
    ensures ReadExcVarint(b, pos, 0) == Number(value % LIMIT, |ItemBytes(value, msb)|)
    ensures ReadExcVarint(b, pos, 0).val == value <==> value < LIMIT
  {
    hide ItemBytes, ReadExcVarint, Holds, ToUint32;
    ItemBack(b, pos, value, msb);
    FitsWord(value);
  }

  lemma FitsWord(value: int)
    requires 0 <= value < 0x1_0000_0000
    ensures ToUint32(value) == value
    ensures value % LIMIT == value <==> value < LIMIT
  {
  }

  lemma {:induction false} EntryBack(tab: seq<Byte>, pos: nat, start: nat, end: nat, target: nat, h: Handler)
    requires h.preserveLasti in {0, 1} && Holds(tab, pos, EntryBytes(start, end, target, h))
    requires start <= end < LIMIT && target < LIMIT && DepthLasti(h) < LIMIT
    ensures pos < |tab| && ENTRY_START <= tab[pos]
    ensures ReadEntry(tab, pos) == Read(Entry(start, end, target, Depth(h), h.preserveLasti == 1), |EntryBytes(start, end, target, h)|)
  {
    hide ItemBytes, ReadExcVarint, Holds, Depth;
    var b1, b2, b3, b4 := ItemBytes(start, ENTRY_START), ItemBytes(end - start, 0), ItemBytes(target, 0), ItemBytes(DepthLasti(h), 0);
    HoldsSplit(tab, pos, b1, b2 + (b3 + b4));
    HoldsSplit(tab, pos + |b1|, b2, b3 + b4);
    HoldsSplit(tab, pos + |b1| + |b2|, b3, b4);
    ItemExact(tab, pos, start, ENTRY_START);
    ItemExact(tab, pos + |b1|, end - start, 0);
    ItemExact(tab, pos + |b1| + |b2|, target, 0);
    ItemExact(tab, pos + |b1| + |b2| + |b3|, DepthLasti(h), 0);
    HoldsAt(tab, pos, b1, 0);
    FirstMarked(start);
  }

  lemma FirstMarked(value: int)
    ensures ENTRY_START <= ItemBytes(value, ENTRY_START)[0]
  {
  }

  // ----- the table refines the handlers of the instructions -----

  function EntryFor(instrs: seq<Instr>, h: Handler, start: nat, end: nat): Entry
    requires Valid(instrs, h)
  {
    Entry(start, end, ByteOffset(instrs, h.entry), Depth(h), h.preserveLasti == 1)
  }

  function RunEntries(instrs: seq<Instr>, h: Handler, start: nat, end: nat): seq<Entry> {
    if Valid(instrs, h) then [EntryFor(instrs, h, start, end)] else []
  }

  // The maximal runs of instructions with one handler label.
  function Runs(instrs: seq<Instr>, i: nat, h: Handler, start: nat): seq<Entry>
    requires i <= |instrs|
    decreases |instrs| - i
  {
    if i == |instrs| then RunEntries(instrs, h, start, ByteOffset(instrs, i))
    else if instrs[i].handler.entry != h.entry then
      RunEntries(instrs, h, start, ByteOffset(instrs, i)) + Runs(instrs, i + 1, instrs[i].handler, ByteOffset(instrs, i))
    else Runs(instrs, i + 1, h, start)
  }

  // All numbers of the table are below 2^30.
  ghost predicate Small(instrs: seq<Instr>) {
    && ByteOffset(instrs, |instrs|) < LIMIT
    && forall i :: 0 <= i < |instrs| ==> Depth(instrs[i].handler) < LIMIT / 2
  }

  lemma {:induction false} RunBack(tab: seq<Byte>, pos: nat, instrs: seq<Instr>, h: Handler, start: nat, end: nat)
    requires Usable(instrs, h) && Small(instrs) && Depth(h) < LIMIT / 2 && start <= end <= ByteOffset(instrs, |instrs|)
    requires Holds(tab, pos, RunBytes(instrs, h, start, end))
    ensures Records(tab, pos) == RunEntries(instrs, h, start, end) + Records(tab, pos + |RunBytes(instrs, h, start, end)|)
  {
    hide EntryBytes, ReadEntry, Holds, Offset;
    if Valid(instrs, h) {
      OffsetMonotone(instrs, h.entry, |instrs|);
      EntryBack(tab, pos, start, end, ByteOffset(instrs, h.entry), h);
    }
  }

  lemma {:induction false} TableBack(tab: seq<Byte>, pos: nat, instrs: seq<Instr>, i: nat, h: Handler, start: nat)
    requires i <= |instrs| && FlagsProper(instrs) && Usable(instrs, h) && Small(instrs) && Depth(h) < LIMIT / 2
    requires start <= ByteOffset(instrs, i)
    requires Holds(tab, pos, TableBytes(instrs, i, h, start)) && pos + |TableBytes(instrs, i, h, start)| == |tab|
    ensures Records(tab, pos) == Runs(instrs, i, h, start)
    decreases |instrs| - i
  {
    hide Offset, RunBytes, Holds, RunEntries, Depth;
    OffsetMonotone(instrs, i, |instrs|);
    if i == |instrs| {
      RunBack(tab, pos, instrs, h, start, ByteOffset(instrs, i));
    } else {
      OffsetMonotone(instrs, i, i + 1);
      if instrs[i].handler.entry != h.entry {
        var at := ByteOffset(instrs, i);
        HoldsSplit(tab, pos, RunBytes(instrs, h, start, at), TableBytes(instrs, i + 1, instrs[i].handler, at));
        RunBack(tab, pos, instrs, h, start, at);
        TableBack(tab, pos + |RunBytes(instrs, h, start, at)|, instrs, i + 1, instrs[i].handler, at);
      } else {
        TableBack(tab, pos, instrs, i + 1, h, start);
      }
    }
  }

  // The records decode to the runs, in order and without overlap.
  lemma {:induction false} TableRoundTrip(instrs: seq<Instr>)
    requires FlagsProper(instrs) && Small(instrs)
    ensures Records(TableBytes(instrs, 0, NO_HANDLER, 0), 0) == Runs(instrs, 0, NO_HANDLER, 0)
    ensures Ordered(Runs(instrs, 0, NO_HANDLER, 0), 0)
  {
    var tab := TableBytes(instrs, 0, NO_HANDLER, 0);
    assert tab[0 .. 0 + |tab|] == tab;
    TableBack(tab, 0, instrs, 0, NO_HANDLER, 0);
    RunsOrdered(instrs, 0, NO_HANDLER, 0);
  }

  // Each record starts where the one before it ended, or later.
  ghost predicate Ordered(entries: seq<Entry>, from: int) {
    entries == [] || (from <= entries[0].start <= entries[0].end && Ordered(entries[1..], entries[0].end))
  }

  lemma {:induction false} OrderedLater(entries: seq<Entry>, from: int, from': int)
    requires Ordered(entries, from) && from' <= from
    ensures Ordered(entries, from')
  {
  }

  lemma {:induction false} RunsOrdered(instrs: seq<Instr>, i: nat, h: Handler, start: nat)
    requires i <= |instrs| && start <= ByteOffset(instrs, i)
    ensures Ordered(Runs(instrs, i, h, start), start)
    decreases |instrs| - i
  {
    hide Offset, EntryFor;
    if i < |instrs| {
      OffsetMonotone(instrs, i, i + 1);
      var at := ByteOffset(instrs, i);
      if instrs[i].handler.entry != h.entry {
        RunsOrdered(instrs, i + 1, instrs[i].handler, at);
        var rest := Runs(instrs, i + 1, instrs[i].handler, at);
        OrderedRun(instrs, h, start, at, rest);
      } else {
        RunsOrdered(instrs, i + 1, h, start);
      }
    } else {
      OrderedRun(instrs, h, start, ByteOffset(instrs, i), []);
      assert RunEntries(instrs, h, start, ByteOffset(instrs, i)) + [] == RunEntries(instrs, h, start, ByteOffset(instrs, i));
    }
  }

  lemma {:induction false} OrderedRun(instrs: seq<Instr>, h: Handler, start: nat, end: nat, rest: seq<Entry>)
    requires start <= end && Ordered(rest, end)
    ensures Ordered(RunEntries(instrs, h, start, end) + rest, start)
  {
    if Valid(instrs, h) {
      assert (RunEntries(instrs, h, start, end) + rest)[1..] == rest;
    } else {
      assert [] + rest == rest;
      OrderedLater(rest, end, start);
    }
  }

  // The stack that a handler finds below the exception, and below the position
  // of the raise if it is kept: both count as pushed already.
  function StackKept(startDepth: int, lasti: bool): int {
    if lasti && startDepth >= 2 then startDepth - 2
    else if !lasti && startDepth >= 1 then startDepth - 1
    else 0
  }

  lemma DepthIs(h: Handler)
    requires h.preserveLasti in {0, 1}
    ensures Depth(h) == StackKept(h.startDepth, h.preserveLasti == 1)
  {
  }

  // What the search should answer at instruction k: its own handler.
  ghost predicate Answers(instrs: seq<Instr>, k: nat, s: Search)
    requires k < |instrs|
  {
    var h := instrs[k].handler;
    if Valid(instrs, h) then
      && s.Found?
      && s.entry.target == ByteOffset(instrs, h.entry)
      && s.entry.depth == StackKept(h.startDepth, h.preserveLasti == 1)
      && s.entry.preserveLasti == (h.preserveLasti == 1)
    else s == NotFound
  }

  // Neighbours with one label have one handler.
  ghost predicate HandlersAgree(instrs: seq<Instr>) {
    forall i :: 0 < i < |instrs| && instrs[i].handler.entry == instrs[i - 1].handler.entry ==> instrs[i].handler == instrs[i - 1].handler
  }

  lemma {:induction false} BeforeAll(entries: seq<Entry>, from: int, pc: int)
    requires Ordered(entries, from) && pc < from
    ensures First(entries, pc) == NotFound
    decreases |entries|
  {
    if entries != [] { BeforeAll(entries[1..], entries[0].end, pc); }
  }

  lemma FirstOfRun(instrs: seq<Instr>, h: Handler, start: nat, end: nat, rest: seq<Entry>, pc: int)
    ensures First(RunEntries(instrs, h, start, end) + rest, pc)
         == if Valid(instrs, h) && start <= pc < end then Found(EntryFor(instrs, h, start, end)) else First(rest, pc)
  {
    var all := RunEntries(instrs, h, start, end) + rest;
    if Valid(instrs, h) {
      assert all[1..] == rest;
    } else {
      assert all == rest;
    }
  }

  // pc lies in instruction k, at or behind the open run of h.
  lemma {:induction false} LookupFrom(instrs: seq<Instr>, i: nat, h: Handler, start: nat, k: nat, pc: int)
    requires i <= |instrs| && k < |instrs| && HandlersAgree(instrs) && start <= ByteOffset(instrs, i)
    requires FlagsProper(instrs) && Usable(instrs, h)
    requires ByteOffset(instrs, k) <= pc < ByteOffset(instrs, k + 1)
    requires start <= pc
    requires k < i ==> instrs[k].handler == h || (instrs[k].handler.entry == h.entry == -1)
    requires 0 < i ==> h == instrs[i - 1].handler || (h.entry == instrs[i - 1].handler.entry == -1)
    requires i == 0 ==> h.entry == -1
    ensures Answers(instrs, k, First(Runs(instrs, i, h, start), pc))
    decreases |instrs| - i
  {
    hide Offset, EntryFor, Depth;
    if i == |instrs| {
      OffsetMonotone(instrs, k + 1, i);
      FirstOfRun(instrs, h, start, ByteOffset(instrs, i), [], pc);
      assert RunEntries(instrs, h, start, ByteOffset(instrs, i)) + [] == RunEntries(instrs, h, start, ByteOffset(instrs, i));
      EntryForIs(instrs, h, start, ByteOffset(instrs, i));
    } else {
      var at := ByteOffset(instrs, i);
      OffsetMonotone(instrs, i, i + 1);
      if instrs[i].handler.entry != h.entry {
        var rest := Runs(instrs, i + 1, instrs[i].handler, at);
        FirstOfRun(instrs, h, start, at, rest, pc);
        if k < i {
          OffsetMonotone(instrs, k + 1, i);
          RunsOrdered(instrs, i + 1, instrs[i].handler, at);
          BeforeAll(rest, at, pc);
          EntryForIs(instrs, h, start, at);
        } else {
          OffsetMonotone(instrs, i, k);
          LookupFrom(instrs, i + 1, instrs[i].handler, at, k, pc);
        }
      } else {
        LookupFrom(instrs, i + 1, h, start, k, pc);
      }
    }
  }

  lemma EntryForIs(instrs: seq<Instr>, h: Handler, start: nat, end: nat)
    requires Usable(instrs, h)
    ensures Valid(instrs, h) ==>
              EntryFor(instrs, h, start, end) == Entry(start, end, ByteOffset(instrs, h.entry), StackKept(h.startDepth, h.preserveLasti == 1), h.preserveLasti == 1)
  {
  }

  // Looking up any byte of instruction k finds a record exactly when its
  // handler label is valid, and then that handler's target, depth and flag.
  lemma {:induction false} LookupRefinesHandlers(instrs: seq<Instr>, k: nat, pc: int)
    requires FlagsProper(instrs) && Small(instrs) && HandlersAgree(instrs)
    requires k < |instrs| && ByteOffset(instrs, k) <= pc < ByteOffset(instrs, k + 1)
    ensures Answers(instrs, k, FindExcHandler(TableBytes(instrs, 0, NO_HANDLER, 0), 0, pc))
  {
    TableRoundTrip(instrs);
    SearchIsFirst(TableBytes(instrs, 0, NO_HANDLER, 0), 0, pc);
    LookupFrom(instrs, 0, NO_HANDLER, 0, k, pc);
  }

  // ----- no more than needed -----

  // A number takes as many six-bit groups as it needs.
  lemma {:induction false} ItemShortest(value: int, msb: Byte)
    requires msb in {0, ENTRY_START} && 0 <= value < 0x4000_0000
    ensures var n := |ItemBytes(value, msb)|; value < Scale(n) && (n > 1 ==> Scale(n - 1) <= value)
  {
    hide Groups, WithMsb, WithBit;
    FitsWord(value);
    assert Scale(1) == 0x40 && Scale(2) == 0x1000 && Scale(3) == 0x4_0000 && Scale(4) == 0x100_0000 && Scale(5) == 0x4000_0000;
  }

  // The instructions before k that have a handler, and another than the one
  // before them.
  function Beginnings(instrs: seq<Instr>, k: nat): nat
    requires k <= |instrs|
  {
    if k == 0 then 0
    else
      Beginnings(instrs, k - 1)
      + if Valid(instrs, instrs[k - 1].handler) && (k == 1 || instrs[k - 2].handler.entry != instrs[k - 1].handler.entry) then 1 else 0
  }

  lemma {:induction false} RunsCounted(instrs: seq<Instr>, i: nat, h: Handler, start: nat)
    requires i <= |instrs|
    requires if i == 0 then h == NO_HANDLER else h.entry == instrs[i - 1].handler.entry
    ensures |Runs(instrs, i, h, start)| + Beginnings(instrs, i)
         == Beginnings(instrs, |instrs|) + if Valid(instrs, h) then 1 else 0
    decreases |instrs| - i
  {
    hide Offset, EntryFor;
    if i < |instrs| {
      if instrs[i].handler.entry != h.entry {
        RunsCounted(instrs, i + 1, instrs[i].handler, ByteOffset(instrs, i));
      } else {
        RunsCounted(instrs, i + 1, h, start);
      }
    }
  }

  // There is one record for every beginning, and no other.
  lemma {:induction false} OneRecordPerRun(instrs: seq<Instr>)
    requires FlagsProper(instrs) && Small(instrs)
    ensures |Records(TableBytes(instrs, 0, NO_HANDLER, 0), 0)| == Beginnings(instrs, |instrs|)
  {
    TableRoundTrip(instrs);
    RunsCounted(instrs, 0, NO_HANDLER, 0);
  }
}
