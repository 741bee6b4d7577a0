// The location table (PEP 626, PEP 657): its writer, its reader, and the proof
// that the reader assigns to every code unit the location of the instruction
// that the unit belongs to.
module LocationTable {
  import opened Bytes
  import opened Bytecode
  import opened Varint

  const LOC_ONE_LINE0: nat := 10
  const LOC_NO_COLS: nat := 13
  const LOC_LONG: nat := 14
  const LOC_NONE: nat := 15

  // ----- the five forms -----

  // Bit 7 marks the start of an entry, four bits hold the form, three the
  // number of code units less one.
  function EntryStart(code: nat, length: nat): Byte
    requires code < 16 && 1 <= length <= 8
  {
    0x80 + code * 8 + (length - 1)
  }

  function ShortForm(length: nat, column: nat, endColumn: nat): seq<Byte>
    requires 1 <= length <= 8 && column <= endColumn < column + 16 && column < 80
  {
    [EntryStart(column / 8, length), column % 8 * 16 + (endColumn - column)]
  }

  function OneLineForm(length: nat, lineDelta: nat, column: nat, endColumn: nat): seq<Byte>
    requires 1 <= length <= 8 && lineDelta < 3 && column < 128 && endColumn < 128
  {
    [EntryStart(LOC_ONE_LINE0 + lineDelta, length), column, endColumn]
  }

  function LongForm(loc: Pos, cursor: int, length: nat): seq<Byte>
    requires 1 <= length <= 8
  {
    [EntryStart(LOC_LONG, length)]
    + (VarintBytes(SignedCode(ToInt32(loc.line - cursor)))
       + (VarintBytes(ToUint32(loc.endLine - loc.line))
          + (VarintBytes(ToUint32(loc.col + 1)) + VarintBytes(ToUint32(loc.endCol + 1)))))
  }

  method WriteLongForm(buf: seq<Byte>, loc: Pos, cursor: int, length: nat) returns (out: seq<Byte>)
    requires 1 <= length <= 8
    ensures out == buf + LongForm(loc, cursor, length)
  {
    hide ToInt32, ToUint32, VarintBytes, SignedCode, EntryStart;
    out := buf + [EntryStart(LOC_LONG, length)];
    out := WriteSignedVarint(out, ToInt32(loc.line - cursor));
    out := WriteVarint(out, ToUint32(loc.endLine - loc.line));
    out := WriteVarint(out, ToUint32(loc.col + 1));
    out := WriteVarint(out, ToUint32(loc.endCol + 1));
  }

  function NoneForm(length: nat): seq<Byte>
    requires 1 <= length <= 8
  {
    [EntryStart(LOC_NONE, length)]
  }

  function NoColumnForm(length: nat, lineDelta: int): seq<Byte>
    requires 1 <= length <= 8
  {
    [EntryStart(LOC_NO_COLS, length)] + VarintBytes(SignedCode(ToInt32(lineDelta)))
  }

  datatype Form = NoneKind | NoColumnKind | ShortKind | OneLineKind | LongKind

  // The smallest form that can say it.
  function Choose(loc: Pos, cursor: int): Form {
    var lineDelta := loc.line - cursor;
    if loc.line == NO_LINE then NoneKind
    else if loc.col < 0 || loc.endCol < 0 then
      if loc.endLine == loc.line || loc.endLine < 0 then NoColumnKind else LongKind
    else if loc.endLine == loc.line then
      if lineDelta == 0 && loc.col < 80 && loc.endCol - loc.col < 16 && loc.endCol >= loc.col then ShortKind
      else if 0 <= lineDelta < 3 && loc.col < 128 && loc.endCol < 128 then OneLineKind
      else LongKind
    else LongKind
  }

  function EntryBytes(loc: Pos, cursor: int, length: nat): seq<Byte>
    requires 1 <= length <= 8
  {
    match Choose(loc, cursor)
    case NoneKind => NoneForm(length)
    case NoColumnKind => NoColumnForm(length, loc.line - cursor)
    case ShortKind => ShortForm(length, loc.col, loc.endCol)
    case OneLineKind => OneLineForm(length, loc.line - cursor, loc.col, loc.endCol)
    case LongKind => LongForm(loc, cursor, length)
  }

  // The line cursor moves to the entry's line, if it has one.
  function Moved(loc: Pos, cursor: int): int { if loc.line == NO_LINE then cursor else loc.line }

  method WriteLocationInfoEntry(buf: seq<Byte>, loc: Pos, cursor: int, length: nat) returns (out: seq<Byte>, cursor': int)
    requires 1 <= length <= 8
    ensures out == buf + EntryBytes(loc, cursor, length)
    ensures cursor' == Moved(loc, cursor)
  {
    if loc.line == NO_LINE {
      return buf + NoneForm(length), cursor;
    }
    var lineDelta := loc.line - cursor;
    var col, endCol := loc.col, loc.endCol;
    if col < 0 || endCol < 0 {
      if loc.endLine == loc.line || loc.endLine < 0 {
        return buf + NoColumnForm(length, lineDelta), loc.line;
      }
    } else if loc.endLine == loc.line {
      if lineDelta == 0 && col < 80 && endCol - col < 16 && endCol >= col {
        return buf + ShortForm(length, col, endCol), cursor;
      }
      if lineDelta >= 0 && lineDelta < 3 && col < 128 && endCol < 128 {
        return buf + OneLineForm(length, lineDelta, col, endCol), loc.line;
      }
    }
    out := WriteLongForm(buf, loc, cursor, length);
    cursor' := loc.line;
  }

  // ----- spans and the table -----

  // Entries for length units, eight at a time.
  function SpanBytes(loc: Pos, cursor: int, length: nat): seq<Byte>
    decreases length
  {
    if length == 0 then []
    else if length > 8 then EntryBytes(loc, cursor, 8) + SpanBytes(loc, Moved(loc, cursor), length - 8)
    else EntryBytes(loc, cursor, length)
  }

  function SpanCursor(loc: Pos, cursor: int, length: nat): int { if length == 0 then cursor else Moved(loc, cursor) }

  method AssembleEmitLocation(buf: seq<Byte>, loc: Pos, cursor: int, length: nat) returns (out: seq<Byte>, cursor': int)
    ensures out == buf + SpanBytes(loc, cursor, length)
    ensures cursor' == SpanCursor(loc, cursor, length)
  {
    hide EntryBytes;
    out, cursor' := buf, cursor;
    if length == 0 { return; }
    var rest: nat := length;
    while rest > 8
      invariant 0 < rest <= length
      invariant cursor' == if rest == length then cursor else Moved(loc, cursor)
      invariant out + SpanBytes(loc, cursor', rest) == buf + SpanBytes(loc, cursor, length)
    {
      ghost var before, old_cursor := out, cursor';
      out, cursor' := WriteLocationInfoEntry(out, loc, cursor', 8);
      assert before + (EntryBytes(loc, old_cursor, 8) + SpanBytes(loc, cursor', rest - 8)) == out + SpanBytes(loc, cursor', rest - 8);
      rest := rest - 8;
    }
    out, cursor' := WriteLocationInfoEntry(out, loc, cursor', rest);
  }

  // The table for instructions i.., while size units at loc are pending.
  function TableBytes(instrs: seq<Instr>, i: nat, loc: Pos, size: nat, cursor: int): seq<Byte>
    requires i <= |instrs|
    decreases |instrs| - i
  {
    if i == |instrs| then SpanBytes(loc, cursor, size)
    else if instrs[i].op == POP_BLOCK then TableBytes(instrs, i + 1, loc, size, cursor)
    else if loc != instrs[i].loc then
      SpanBytes(loc, cursor, size)
      + TableBytes(instrs, i + 1, instrs[i].loc, InstrSize(instrs[i]), SpanCursor(loc, cursor, size))
    else TableBytes(instrs, i + 1, loc, size + InstrSize(instrs[i]), cursor)
  }

  const NOWHERE := Pos(NO_LINE, NO_LINE, -1, -1)

  function StartCursor(firstLine: int): int { if firstLine <= 0 then 1 else firstLine }

  lemma NoSpan(loc: Pos, cursor: int)
    ensures SpanBytes(loc, cursor, 0) == [] && SpanCursor(loc, cursor, 0) == cursor
  {
  }

  method AssembleLocationInfo(instrs: seq<Instr>, firstLine: int) returns (buf: seq<Byte>)
    ensures buf == TableBytes(instrs, 0, NOWHERE, 0, StartCursor(firstLine))
  {
    hide SpanBytes, SpanCursor, InstrSize;
    buf := [];
    if |instrs| == 0 {
      NoSpan(NOWHERE, StartCursor(firstLine));
      return;
    }
    var cursor := firstLine;
    if firstLine <= 0 { cursor := 1; }
    var loc := NOWHERE;
    var size: nat := 0;
    ghost var all := TableBytes(instrs, 0, NOWHERE, 0, StartCursor(firstLine));
    for i := 0 to |instrs|
      invariant buf + TableBytes(instrs, i, loc, size, cursor) == all
    {
      if instrs[i].op == POP_BLOCK { continue; }
      if loc != instrs[i].loc {
        ghost var before, span := buf, SpanBytes(loc, cursor, size);
        buf, cursor := AssembleEmitLocation(buf, loc, cursor, size);
        ghost var rest := TableBytes(instrs, i + 1, instrs[i].loc, InstrSize(instrs[i]), cursor);
        assert before + (span + rest) == buf + rest;
        loc := instrs[i].loc;
        size := 0;
      }
      var n := MeasureInstr(instrs[i]);
      size := size + n;
    }
    buf, cursor := AssembleEmitLocation(buf, loc, cursor, size);
  }

  // ----- the reader -----

  // start and end are byte offsets into the code.
  datatype PositionEntry = PositionEntry(start: nat, end: nat, loc: Pos)

  // One decoded entry, or the end of what can be read.
  datatype Step = Halt | Decoded(loc: Pos, line: int, n: nat)

  function ReadLong(tab: seq<Byte>, pos: nat, line: int): Step {
    match ReadSignedVarint(tab, pos)
    case Broken => Halt
    case Number(delta, n1) =>
      match ReadVarint(tab, pos + n1)
      case Broken => Halt
      case Number(endDelta, n2) =>
        match ReadVarint(tab, pos + n1 + n2)
        case Broken => Halt
        case Number(col, n3) =>
          match ReadVarint(tab, pos + n1 + n2 + n3)
          case Broken => Halt
          case Number(endCol, n4) =>
            Decoded(Pos(line + delta, line + delta + endDelta, col - 1, endCol - 1), line + delta, n1 + n2 + n3 + n4)
  }

  function ReadNoColumn(tab: seq<Byte>, pos: nat, line: int): Step {
    match ReadSignedVarint(tab, pos)
    case Broken => Halt
    case Number(delta, n) => Decoded(Pos(line + delta, line + delta, -1, -1), line + delta, n)
  }

  // The body of an entry of the given form, from the byte behind its start.
  function ReadEntry(tab: seq<Byte>, pos: nat, line: int, code: nat): Step {
    if code == 15 then Decoded(NOWHERE, line, 0)
    else if code == 14 then ReadLong(tab, pos, line)
    else if code == 13 then ReadNoColumn(tab, pos, line)
    else if 10 <= code <= 12 then
      var l := line + (code - 10);
      if pos + 1 >= |tab| then Halt else Decoded(Pos(l, l, tab[pos], tab[pos + 1]), l, 2)
    else if pos >= |tab| then Halt
    else
      var column := code * 8 + tab[pos] / 16;
      Decoded(Pos(line, line, column, column + tab[pos] % 16), line, 1)
  }

  function PositionsFrom(tab: seq<Byte>, pos: nat, line: int, end: nat): seq<PositionEntry>
    decreases |tab| - pos
  {
    if pos >= |tab| then []
    else if tab[pos] < 0x80 then PositionsFrom(tab, pos + 1, line, end)
    else
      var code, length := tab[pos] / 8 % 16, tab[pos] % 8 + 1;
      match ReadEntry(tab, pos + 1, line, code)
      case Halt => []
      case Decoded(loc, line', n) =>
        [PositionEntry(end, end + 2 * length, loc)] + PositionsFrom(tab, pos + 1 + n, line', end + 2 * length)
  }

  function CoPositions(tab: seq<Byte>, firstLine: int): seq<PositionEntry> {
    PositionsFrom(tab, 0, if firstLine <= 0 then 1 else firstLine, 0)
  }

  // ----- one entry -----

  // What an entry can say about loc.
  function Normal(loc: Pos): Pos {
    if loc.line == NO_LINE then NOWHERE
    else if (loc.col < 0 || loc.endCol < 0) && (loc.endLine == loc.line || loc.endLine < 0) then Pos(loc.line, loc.line, -1, -1)
    else loc
  }

  // The numbers of an entry for loc fit in its fields.
  ghost predicate Fits(loc: Pos, cursor: int) {
    loc.line == NO_LINE ||
    (&& -0x8000_0000 < loc.line - cursor < 0x8000_0000
     && (((loc.col < 0 || loc.endCol < 0) && (loc.endLine == loc.line || loc.endLine < 0)) ||
         (&& loc.line <= loc.endLine < loc.line + 0x1_0000_0000
          && -1 <= loc.col < 0xffff_ffff && -1 <= loc.endCol < 0xffff_ffff)))
  }

  lemma {:induction false} ReadStart(tab: seq<Byte>, pos: nat, code: nat, length: nat, line: int, end: nat)
    requires code < 16 && 1 <= length <= 8 && Holds(tab, pos, [EntryStart(code, length)])
    ensures PositionsFrom(tab, pos, line, end) ==
            match ReadEntry(tab, pos + 1, line, code)
            case Halt => []
            case Decoded(loc, line', n) =>
              [PositionEntry(end, end + 2 * length, loc)] + PositionsFrom(tab, pos + 1 + n, line', end + 2 * length)
  {
    HoldsAt(tab, pos, [EntryStart(code, length)], 0);
    assert tab[pos] / 8 % 16 == code && tab[pos] % 8 + 1 == length;
  }

  // The four numbers of the long form come back as they went in, up to the
  // width of their fields.
  lemma {:induction false} LongBack(tab: seq<Byte>, pos: nat, loc: Pos, cursor: int, length: nat)
    requires 1 <= length <= 8 && Holds(tab, pos, LongForm(loc, cursor, length))
    ensures var d := ToInt32(loc.line - cursor);
            var line := cursor + if d == -0x8000_0000 then 0 else d;
            ReadLong(tab, pos + 1, cursor) ==
            Decoded(Pos(line, line + ToUint32(loc.endLine - loc.line), ToUint32(loc.col + 1) - 1, ToUint32(loc.endCol + 1) - 1),
              line, |LongForm(loc, cursor, length)| - 1)
  {
    hide SignedCode, ToInt32, ToUint32, ReadVarint, VarintBytes, ReadSignedVarint, Holds;
    var b1 := VarintBytes(SignedCode(ToInt32(loc.line - cursor)));
    var b2, b3, b4 := VarintBytes(ToUint32(loc.endLine - loc.line)), VarintBytes(ToUint32(loc.col + 1)), VarintBytes(ToUint32(loc.endCol + 1));
    HoldsSplit(tab, pos, [EntryStart(LOC_LONG, length)], b1 + (b2 + (b3 + b4)));
    HoldsSplit(tab, pos + 1, b1, b2 + (b3 + b4));
    HoldsSplit(tab, pos + 1 + |b1|, b2, b3 + b4);
    HoldsSplit(tab, pos + 1 + |b1| + |b2|, b3, b4);
    SignedRoundTrip(tab, pos + 1, ToInt32(loc.line - cursor));
    VarintRoundTrip(tab, pos + 1 + |b1|, ToUint32(loc.endLine - loc.line));
    VarintRoundTrip(tab, pos + 1 + |b1| + |b2|, ToUint32(loc.col + 1));
    VarintRoundTrip(tab, pos + 1 + |b1| + |b2| + |b3|, ToUint32(loc.endCol + 1));
  }

  lemma {:induction false} NoColumnBack(tab: seq<Byte>, pos: nat, delta: int, cursor: int, length: nat)
    requires 1 <= length <= 8 && Holds(tab, pos, NoColumnForm(length, delta))
    ensures var d := ToInt32(delta);
            var line := cursor + if d == -0x8000_0000 then 0 else d;
            ReadNoColumn(tab, pos + 1, cursor) == Decoded(Pos(line, line, -1, -1), line, |NoColumnForm(length, delta)| - 1)
  {
    hide SignedCode, ToInt32, ToUint32, ReadVarint, VarintBytes, ReadSignedVarint, Holds;
    HoldsSplit(tab, pos, [EntryStart(LOC_NO_COLS, length)], VarintBytes(SignedCode(ToInt32(delta))));
    SignedRoundTrip(tab, pos + 1, ToInt32(delta));
  }

  lemma Int32Back(x: int)
    ensures (if ToInt32(x) == -0x8000_0000 then 0 else ToInt32(x)) == x <==> -0x8000_0000 < x < 0x8000_0000
  {
  }

  lemma Uint32Back(x: int)
    ensures ToUint32(x) == x <==> 0 <= x < 0x1_0000_0000
  {
  }

  // One entry reads back as its location exactly when its numbers fit.
  lemma {:induction false} EntryBack(tab: seq<Byte>, pos: nat, loc: Pos, cursor: int, length: nat)
    requires 1 <= length <= 8 && Holds(tab, pos, EntryBytes(loc, cursor, length))
    ensures var bytes := EntryBytes(loc, cursor, length);
            var code := bytes[0] / 8 % 16;
            && bytes[0] == EntryStart(code, length)
            && ReadEntry(tab, pos + 1, cursor, code).Decoded?
            && (Fits(loc, cursor) <==> ReadEntry(tab, pos + 1, cursor, code).loc == Normal(loc))
            && (Fits(loc, cursor) ==> ReadEntry(tab, pos + 1, cursor, code) == Decoded(Normal(loc), Moved(loc, cursor), |bytes| - 1))
  {
    hide VarintBytes, SignedCode, ToInt32, ToUint32, Holds, ReadLong, ReadNoColumn, LongForm, NoColumnForm, Fits, Normal;
    match Choose(loc, cursor) {
      case NoneKind => FlatFits(loc, cursor);
      case NoColumnKind =>
        FormStart(loc, cursor, length);
        NoColumnExact(tab, pos, loc, cursor, length);
      case ShortKind =>
        ShortBack(tab, pos, loc, cursor, length);
        FlatFits(loc, cursor);
      case OneLineKind =>
        OneLineBack(tab, pos, loc, cursor, length);
        FlatFits(loc, cursor);
      case LongKind =>
        FormStart(loc, cursor, length);
        LongExact(tab, pos, loc, cursor, length);
    }
  }

  lemma {:induction false} ShortBack(tab: seq<Byte>, pos: nat, loc: Pos, cursor: int, length: nat)
    requires 1 <= length <= 8 && Choose(loc, cursor) == ShortKind && Holds(tab, pos, EntryBytes(loc, cursor, length))
    ensures var bytes := EntryBytes(loc, cursor, length);
            var code := bytes[0] / 8 % 16;
            && |bytes| == 2 && bytes[0] == EntryStart(code, length)
            && ReadEntry(tab, pos + 1, cursor, code) == Decoded(loc, cursor, 1)
            && Moved(loc, cursor) == cursor
  {
    hide Holds, ReadLong, ReadNoColumn, LongForm, NoColumnForm;
    HoldsAt(tab, pos, ShortForm(length, loc.col, loc.endCol), 1);
  }

  lemma {:induction false} OneLineBack(tab: seq<Byte>, pos: nat, loc: Pos, cursor: int, length: nat)
    requires 1 <= length <= 8 && Choose(loc, cursor) == OneLineKind && Holds(tab, pos, EntryBytes(loc, cursor, length))
    ensures var bytes := EntryBytes(loc, cursor, length);
            var code := bytes[0] / 8 % 16;
            && |bytes| == 3 && bytes[0] == EntryStart(code, length)
            && ReadEntry(tab, pos + 1, cursor, code) == Decoded(loc, loc.line, 2)
            && Moved(loc, cursor) == loc.line
  {
    hide Holds, ReadLong, ReadNoColumn, LongForm, NoColumnForm;
    var bytes := OneLineForm(length, loc.line - cursor, loc.col, loc.endCol);
    HoldsAt(tab, pos, bytes, 1);
    HoldsAt(tab, pos, bytes, 2);
  }

  // The forms without varints fit always.
  lemma FlatFits(loc: Pos, cursor: int)
    requires Choose(loc, cursor) in {NoneKind, ShortKind, OneLineKind}
    ensures Fits(loc, cursor) && Normal(loc) == if loc.line == NO_LINE then NOWHERE else loc
  {
  }

  lemma FormStart(loc: Pos, cursor: int, length: nat)
    requires 1 <= length <= 8
    ensures |NoColumnForm(length, loc.line - cursor)| > 0 && NoColumnForm(length, loc.line - cursor)[0] == EntryStart(LOC_NO_COLS, length)
    ensures |LongForm(loc, cursor, length)| > 0 && LongForm(loc, cursor, length)[0] == EntryStart(LOC_LONG, length)
    ensures EntryStart(LOC_NO_COLS, length) / 8 % 16 == LOC_NO_COLS && EntryStart(LOC_LONG, length) / 8 % 16 == LOC_LONG
  {
    hide VarintBytes, SignedCode, ToInt32, ToUint32;
  }

  lemma {:induction false} NoColumnExact(tab: seq<Byte>, pos: nat, loc: Pos, cursor: int, length: nat)
    requires 1 <= length <= 8 && Choose(loc, cursor) == NoColumnKind && Holds(tab, pos, NoColumnForm(length, loc.line - cursor))
    ensures var r := ReadNoColumn(tab, pos + 1, cursor);
            && r.Decoded? && (Fits(loc, cursor) <==> r.loc == Normal(loc))
            && (Fits(loc, cursor) ==> r == Decoded(Normal(loc), loc.line, |NoColumnForm(length, loc.line - cursor)| - 1))
  {
    hide ToInt32, ReadNoColumn, Holds, NoColumnForm;
    NoColumnBack(tab, pos, loc.line - cursor, cursor, length);
    Int32Back(loc.line - cursor);
  }

  lemma {:induction false} LongExact(tab: seq<Byte>, pos: nat, loc: Pos, cursor: int, length: nat)
    requires 1 <= length <= 8 && Choose(loc, cursor) == LongKind && Holds(tab, pos, LongForm(loc, cursor, length))
    ensures var r := ReadLong(tab, pos + 1, cursor);
            && r.Decoded? && (Fits(loc, cursor) <==> r.loc == Normal(loc))
            && (Fits(loc, cursor) ==> r == Decoded(Normal(loc), loc.line, |LongForm(loc, cursor, length)| - 1))
  {
    hide ToInt32, ToUint32, ReadLong, Holds, LongForm;
    LongBack(tab, pos, loc, cursor, length);
    Int32Back(loc.line - cursor);
    Uint32Back(loc.endLine - loc.line);
    Uint32Back(loc.col + 1);
    Uint32Back(loc.endCol + 1);
  }

  // ----- the whole table -----

  function Repeat(loc: Pos, n: nat): (r: seq<Pos>)
    ensures |r| == n
  {
    seq(n, i requires 0 <= i < n => loc)
  }

  // The location of every code unit, as the reader reports it.
  function PerUnit(entries: seq<PositionEntry>): seq<Pos> {
    if entries == [] then []
    else
      var e := entries[0];
      Repeat(e.loc, if e.start <= e.end then (e.end - e.start) / 2 else 0) + PerUnit(entries[1..])
  }

  // The location of every code unit, as the instructions say.
  function UnitLocations(instrs: seq<Instr>, i: nat): seq<Pos>
    requires i <= |instrs|
    decreases |instrs| - i
  {
    if i == |instrs| then []
    else if instrs[i].op == POP_BLOCK then UnitLocations(instrs, i + 1)
    else Repeat(Normal(instrs[i].loc), InstrSize(instrs[i])) + UnitLocations(instrs, i + 1)
  }

  // All locations fit; each line is told relative to the last one before it.
  ghost predicate FitsFrom(instrs: seq<Instr>, i: nat, cursor: int)
    requires i <= |instrs|
    decreases |instrs| - i
  {
    i == |instrs| ||
    if instrs[i].op == POP_BLOCK then FitsFrom(instrs, i + 1, cursor)
    else Fits(instrs[i].loc, cursor) && FitsFrom(instrs, i + 1, Moved(instrs[i].loc, cursor))
  }

  lemma RepeatJoin(loc: Pos, m: nat, n: nat)
    ensures Repeat(loc, m) + Repeat(loc, n) == Repeat(loc, m + n)
  {
  }

  lemma {:induction false} EntryStep(tab: seq<Byte>, pos: nat, loc: Pos, cursor: int, length: nat, end: nat)
    requires 1 <= length <= 8 && Holds(tab, pos, EntryBytes(loc, cursor, length)) && Fits(loc, cursor)
    ensures PerUnit(PositionsFrom(tab, pos, cursor, end))
         == Repeat(Normal(loc), length) + PerUnit(PositionsFrom(tab, pos + |EntryBytes(loc, cursor, length)|, Moved(loc, cursor), end + 2 * length))
  {
    hide EntryBytes, ReadEntry, Fits, Normal, Moved;
    var bytes := EntryBytes(loc, cursor, length);
    EntryBack(tab, pos, loc, cursor, length);
    var code := bytes[0] / 8 % 16;
    HoldsAt(tab, pos, bytes, 0);
    assert tab[pos .. pos + 1] == [EntryStart(code, length)];
    ReadStart(tab, pos, code, length, cursor, end);
    var rest := PositionsFrom(tab, pos + |bytes|, Moved(loc, cursor), end + 2 * length);
    PerUnitCons(PositionEntry(end, end + 2 * length, Normal(loc)), length, rest);
  }

  lemma PerUnitCons(e: PositionEntry, length: nat, rest: seq<PositionEntry>)
    requires e.end == e.start + 2 * length
    ensures PerUnit([e] + rest) == Repeat(e.loc, length) + PerUnit(rest)
  {
    assert ([e] + rest)[1..] == rest;
  }

  lemma {:induction false} SpanBack(tab: seq<Byte>, pos: nat, loc: Pos, cursor: int, length: nat, end: nat)
    requires Holds(tab, pos, SpanBytes(loc, cursor, length)) && (length > 0 ==> Fits(loc, cursor))
    ensures PerUnit(PositionsFrom(tab, pos, cursor, end))
         == Repeat(Normal(loc), length)
            + PerUnit(PositionsFrom(tab, pos + |SpanBytes(loc, cursor, length)|, SpanCursor(loc, cursor, length), end + 2 * length))
    decreases length
  {
    hide EntryBytes, PositionsFrom, Normal, Holds, PerUnit;
    if length == 0 {
      assert Repeat(Normal(loc), 0) == [];
    } else if length > 8 {
      var first, cursor' := EntryBytes(loc, cursor, 8), Moved(loc, cursor);
      var rest := SpanBytes(loc, cursor', length - 8);
      HoldsSplit(tab, pos, first, rest);
      EntryStep(tab, pos, loc, cursor, 8, end);
      SpanBack(tab, pos + |first|, loc, cursor', length - 8, end + 16);
      RepeatJoin(Normal(loc), 8, length - 8);
      var tail := PerUnit(PositionsFrom(tab, pos + |first| + |rest|, Moved(loc, cursor'), end + 2 * length));
      assert Repeat(Normal(loc), 8) + (Repeat(Normal(loc), length - 8) + tail) == Repeat(Normal(loc), length) + tail;
    } else {
      EntryStep(tab, pos, loc, cursor, length, end);
    }
  }

  lemma {:induction false} TableBack(tab: seq<Byte>, pos: nat, instrs: seq<Instr>, i: nat, loc: Pos, size: nat, cursor: int, end: nat)
    requires i <= |instrs| && (size > 0 ==> Fits(loc, cursor))
    requires FitsFrom(instrs, i, SpanCursor(loc, cursor, size))
    requires Holds(tab, pos, TableBytes(instrs, i, loc, size, cursor)) && pos + |TableBytes(instrs, i, loc, size, cursor)| == |tab|
    ensures PerUnit(PositionsFrom(tab, pos, cursor, end)) == Repeat(Normal(loc), size) + UnitLocations(instrs, i)
    decreases |instrs| - i
  {
    hide PositionsFrom, SpanBytes, InstrSize, Holds, PerUnit, Normal, Fits;
    if i == |instrs| {
      SpanBack(tab, pos, loc, cursor, size, end);
      ReadEnd(tab, SpanCursor(loc, cursor, size), end + 2 * size);
    } else if instrs[i].op == POP_BLOCK {
      TableBack(tab, pos, instrs, i + 1, loc, size, cursor, end);
    } else if loc != instrs[i].loc {
      var span, cursor' := SpanBytes(loc, cursor, size), SpanCursor(loc, cursor, size);
      var n := InstrSize(instrs[i]);
      var rest := TableBytes(instrs, i + 1, instrs[i].loc, n, cursor');
      HoldsSplit(tab, pos, span, rest);
      SpanBack(tab, pos, loc, cursor, size, end);
      Occupies(instrs[i]);
      TableBack(tab, pos + |span|, instrs, i + 1, instrs[i].loc, n, cursor', end + 2 * size);
    } else {
      var n := InstrSize(instrs[i]);
      Occupies(instrs[i]);
      StaysFit(loc, cursor);
      TableBack(tab, pos, instrs, i + 1, loc, size + n, cursor, end);
      RepeatJoin(Normal(loc), size, n);
      assert Repeat(Normal(loc), size + n) + UnitLocations(instrs, i + 1)
          == Repeat(Normal(loc), size) + (Repeat(Normal(loc), n) + UnitLocations(instrs, i + 1));
    }
  }

  lemma ReadEnd(tab: seq<Byte>, line: int, end: nat)
    ensures PerUnit(PositionsFrom(tab, |tab|, line, end)) == []
  {
  }

  lemma Occupies(ins: Instr)
    requires ins.op != POP_BLOCK
    ensures InstrSize(ins) > 0
  {
  }

  lemma StaysFit(loc: Pos, cursor: int)
    ensures Moved(loc, Moved(loc, cursor)) == Moved(loc, cursor)
  {
  }

  lemma {:induction false} UnitLocationsSize(instrs: seq<Instr>, i: nat)
    requires i <= |instrs|
    ensures Offset(instrs, i) + |UnitLocations(instrs, i)| == Units(instrs)
    decreases |instrs| - i
  {
    if i < |instrs| { UnitLocationsSize(instrs, i + 1); }
  }

  // The reader gives every code unit of every emitted instruction that
  // instruction's location, and covers exactly the emitted code.
  lemma {:induction false} LocationRoundTrip(instrs: seq<Instr>, firstLine: int)
    requires FitsFrom(instrs, 0, StartCursor(firstLine))
    ensures var tab := TableBytes(instrs, 0, NOWHERE, 0, StartCursor(firstLine));
            PerUnit(CoPositions(tab, firstLine)) == UnitLocations(instrs, 0)
    ensures |UnitLocations(instrs, 0)| == Units(instrs)
  {
    hide TableBytes, PositionsFrom, UnitLocations, PerUnit;
    var tab := TableBytes(instrs, 0, NOWHERE, 0, StartCursor(firstLine));
    assert tab[0 .. 0 + |tab|] == tab;
    TableBack(tab, 0, instrs, 0, NOWHERE, 0, StartCursor(firstLine), 0);
    assert Repeat(Normal(NOWHERE), 0) + UnitLocations(instrs, 0) == UnitLocations(instrs, 0);
    UnitLocationsSize(instrs, 0);
  }

  // The entries follow each other without gaps from byte offset end on.
  ghost predicate Contiguous(entries: seq<PositionEntry>, end: nat) {
    && (entries != [] ==> entries[0].start == end)
    && forall k :: 0 < k < |entries| ==> entries[k].start == entries[k - 1].end
  }

  lemma {:induction false} ContiguousCons(e: PositionEntry, rest: seq<PositionEntry>)
    requires Contiguous(rest, e.end)
    ensures Contiguous([e] + rest, e.start)
  {
    var all := [e] + rest;
    forall k | 0 < k < |all| ensures all[k].start == all[k - 1].end {
      assert all[k] == rest[k - 1];
      if k > 1 { assert all[k - 1] == rest[k - 2]; }
    }
  }

  // They do, whatever the bytes.
  lemma {:induction false} EntriesContiguous(tab: seq<Byte>, pos: nat, line: int, end: nat)
    ensures Contiguous(PositionsFrom(tab, pos, line, end), end)
    decreases |tab| - pos
  {
    hide ReadEntry, Contiguous;
    if pos >= |tab| {
      NoEntries(end);
    } else if tab[pos] < 0x80 {
      EntriesContiguous(tab, pos + 1, line, end);
    } else {
      var code, length := tab[pos] / 8 % 16, tab[pos] % 8 + 1;
      var step := ReadEntry(tab, pos + 1, line, code);
      if step.Decoded? {
        EntriesContiguous(tab, pos + 1 + step.n, step.line, end + 2 * length);
        ContiguousCons(PositionEntry(end, end + 2 * length, step.loc), PositionsFrom(tab, pos + 1 + step.n, step.line, end + 2 * length));
      } else {
        NoEntries(end);
      }
    }
  }

  lemma NoEntries(end: nat)
    ensures Contiguous([], end)
  {
  }
}
