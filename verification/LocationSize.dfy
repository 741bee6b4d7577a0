// The location table is as short as it can be: no entry that reads as the same
// location takes fewer bytes, and no list of entries that gives every code unit
// the same location has fewer entries.
module LocationSize {
  import opened Bytes
  import opened Bytecode
  import opened Varint
  import opened LocationTable

  // ----- one entry -----

  // The n bytes behind an entry's start.
  ghost predicate BodyBytes(tab: seq<Byte>, pos: nat, n: nat) {
    pos + n <= |tab| && forall k :: pos <= k < pos + n ==> tab[k] < 0x80
  }

  lemma {:induction false} FormSize(loc: Pos, cursor: int, length: nat)
    requires 1 <= length <= 8
    ensures var n, delta := |EntryBytes(loc, cursor, length)|, VarintBytes(SignedCode(ToInt32(loc.line - cursor)));
            match Choose(loc, cursor)
            case NoneKind => n == 1
            case NoColumnKind => n == 1 + |delta|
            case ShortKind => n == 2
            case OneLineKind => n == 3
            case LongKind => n == 1 + |delta| + |VarintBytes(ToUint32(loc.endLine - loc.line))|
                                  + |VarintBytes(ToUint32(loc.col + 1))| + |VarintBytes(ToUint32(loc.endCol + 1))|
  {
    hide VarintBytes, SignedCode, ToInt32, ToUint32, EntryStart;
  }

  // Whatever entry reads as the location, the writer's is no longer.
  lemma {:induction false} EntryShortest(tab: seq<Byte>, pos: nat, loc: Pos, cursor: int, length: nat, code: nat)
    requires 1 <= length <= 8 && code < 16 && Fits(loc, cursor)
    requires var r := ReadEntry(tab, pos, cursor, code); r.Decoded? && r.loc == Normal(loc) && BodyBytes(tab, pos, r.n)
    ensures |EntryBytes(loc, cursor, length)| <= 1 + ReadEntry(tab, pos, cursor, code).n
  {
    hide ReadVarint, ReadSignedVarint, VarintBytes, SignedCode, ToInt32, ToUint32, EntryBytes, ReadLong, ReadNoColumn;
    FormSize(loc, cursor, length);
    if code == LOC_LONG {
      LongReads(tab, pos, loc, cursor);
    } else if code == LOC_NO_COLS {
      NoColumnReads(tab, pos, loc, cursor);
    }
  }

  lemma {:induction false} DeltaShortest(tab: seq<Byte>, pos: nat, delta: int)
    requires -0x8000_0000 < delta < 0x8000_0000
    ensures var r := ReadSignedVarint(tab, pos);
            r.Number? && r.val == delta ==> 1 <= |VarintBytes(SignedCode(ToInt32(delta)))| <= r.n
  {
    hide ReadVarint, ReadSignedVarint, VarintBytes, SignedCode, ToInt32;
    SignedShortest(tab, pos);
    Int32Is(delta);
  }

  lemma Int32Is(x: int)
    ensures -0x8000_0000 <= x < 0x8000_0000 ==> ToInt32(x) == x
    ensures 0 <= x < 0x1_0000_0000 ==> ToUint32(x) == x
  {
  }

  lemma {:induction false} NoColumnReads(tab: seq<Byte>, pos: nat, loc: Pos, cursor: int)
    requires Fits(loc, cursor)
    requires var r := ReadNoColumn(tab, pos, cursor); r.Decoded? && r.loc == Normal(loc)
    ensures loc.line != NO_LINE ==>
              && Choose(loc, cursor) == NoColumnKind
              && |VarintBytes(SignedCode(ToInt32(loc.line - cursor)))| <= ReadNoColumn(tab, pos, cursor).n
    ensures loc.line == NO_LINE ==> Choose(loc, cursor) == NoneKind
  {
    hide ReadSignedVarint, VarintBytes, SignedCode, ToInt32;
    if loc.line != NO_LINE { DeltaShortest(tab, pos, loc.line - cursor); }
  }

  lemma {:induction false} LongReads(tab: seq<Byte>, pos: nat, loc: Pos, cursor: int)
    requires Fits(loc, cursor)
    requires var r := ReadLong(tab, pos, cursor); r.Decoded? && r.loc == Normal(loc)
    ensures var n, delta := ReadLong(tab, pos, cursor).n, VarintBytes(SignedCode(ToInt32(loc.line - cursor)));
            && 4 <= n
            && (loc.line != NO_LINE ==> |delta| + 3 <= n)
            && (Choose(loc, cursor) == LongKind ==>
                 |delta| + |VarintBytes(ToUint32(loc.endLine - loc.line))| + |VarintBytes(ToUint32(loc.col + 1))| + |VarintBytes(ToUint32(loc.endCol + 1))| <= n)
  {
    hide ReadVarint, ReadSignedVarint, VarintBytes, SignedCode, ToInt32, ToUint32;
    var r1 := ReadSignedVarint(tab, pos);
    var r2 := ReadVarint(tab, pos + r1.n);
    var r3 := ReadVarint(tab, pos + r1.n + r2.n);
    var r4 := ReadVarint(tab, pos + r1.n + r2.n + r3.n);
    TakesBytes(tab, pos);
    VarintShortest(tab, pos + r1.n);
    VarintShortest(tab, pos + r1.n + r2.n);
    VarintShortest(tab, pos + r1.n + r2.n + r3.n);
    if loc.line != NO_LINE { DeltaShortest(tab, pos, loc.line - cursor); }
    if Choose(loc, cursor) == LongKind {
      Int32Is(loc.endLine - loc.line);
      Int32Is(loc.col + 1);
      Int32Is(loc.endCol + 1);
    }
  }

  lemma TakesBytes(tab: seq<Byte>, pos: nat)
    ensures ReadVarint(tab, pos).Number? ==> 1 <= ReadVarint(tab, pos).n
    ensures ReadSignedVarint(tab, pos).Number? ==> 1 <= ReadSignedVarint(tab, pos).n
  {
  }

  // ----- the number of entries -----

  // An entry covers one to eight units.
  ghost predicate Proper(entries: seq<PositionEntry>) {
    forall k :: 0 <= k < |entries| ==> exists n :: 1 <= n <= 8 && entries[k].end == entries[k].start + 2 * n
  }

  // How many of the first units have the same location, eight at most.
  function Alike(u: seq<Pos>, n: nat): nat
    requires n < |u|
    decreases |u| - n
  {
    if n + 1 < |u| && n + 1 < 8 && u[n + 1] == u[0] then Alike(u, n + 1) else n + 1
  }

  lemma {:induction false} AlikeIs(u: seq<Pos>, n: nat)
    requires n < |u| && n < 8 && forall k :: 0 <= k <= n ==> u[k] == u[0]
    ensures var g := Alike(u, n);
            && n < g <= |u| && g <= 8 && (forall k :: 0 <= k < g ==> u[k] == u[0])
            && (g == |u| || g == 8 || u[g] != u[0])
    decreases |u| - n
  {
    if n + 1 < |u| && n + 1 < 8 && u[n + 1] == u[0] { AlikeIs(u, n + 1); }
  }

  // Entries when each takes as much as it can.
  function Greedy(u: seq<Pos>): nat
    decreases |u|
  {
    if u == [] then 0
    else
      AlikeIs(u, 0);
      1 + Greedy(u[Alike(u, 0) ..])
  }

  lemma {:induction false} GreedyDrop(u: seq<Pos>)
    requires u != []
    ensures Greedy(u[1..]) <= Greedy(u)
    decreases |u|
  {
    var g, v := Alike(u, 0), u[1..];
    AlikeIs(u, 0);
    if g == 1 {
      assert u[g..] == v;
    } else {
      AlikeIs(v, 0);
      var h := Alike(v, 0);
      assert forall k :: 0 <= k < |v| ==> v[k] == u[k + 1];
      if h == g - 1 {
        assert v[h..] == u[g..];
      } else {
        AlikeNext(u, g, h);
        assert v[h..] == u[g..][1..];
        GreedyDrop(u[g..]);
      }
    }
  }

  // One unit less at the front: the same units follow, or one more fits.
  lemma {:induction false} AlikeNext(u: seq<Pos>, g: nat, h: nat)
    requires 1 < g <= |u| && g == Alike(u, 0) && h == Alike(u[1..], 0) && h != g - 1
    ensures h == g == 8 && g < |u|
  {
    AlikeIs(u, 0);
    AlikeIs(u[1..], 0);
    assert forall k :: 0 <= k < |u| - 1 ==> u[1..][k] == u[k + 1];
  }

  lemma {:induction false} GreedyDropMany(u: seq<Pos>, m: nat)
    requires m <= |u|
    ensures Greedy(u[m..]) <= Greedy(u)
    decreases m
  {
    if m == 0 {
      assert u[0..] == u;
    } else {
      GreedyDropMany(u, m - 1);
      GreedyDrop(u[m - 1 ..]);
      assert u[m - 1 ..][1..] == u[m..];
    }
  }

  // No list of entries for the same units is shorter.
  lemma {:induction false} GreedyLeast(entries: seq<PositionEntry>)
    requires Proper(entries)
    ensures Greedy(PerUnit(entries)) <= |entries|
    decreases |entries|
  {
    hide Greedy;
    if entries != [] {
      var e, rest := entries[0], PerUnit(entries[1..]);
      var n :| 1 <= n <= 8 && e.end == e.start + 2 * n;
      var u := Repeat(e.loc, n) + rest;
      assert PerUnit(entries) == u;
      GreedyLeast(entries[1..]);
      GreedyStep(u, n, rest, e.loc);
    } else {
      GreedyNone();
    }
  }

  lemma GreedyNone()
    ensures Greedy([]) == 0
  {
  }

  lemma {:induction false} GreedyStep(u: seq<Pos>, n: nat, rest: seq<Pos>, loc: Pos)
    requires 1 <= n <= 8 && u == Repeat(loc, n) + rest
    ensures Greedy(u) <= 1 + Greedy(rest)
  {
    AlikeIs(u, 0);
    var g := Alike(u, 0);
    assert forall k :: 0 <= k < n ==> u[k] == loc;
    assert n <= g;
    assert u[g..] == rest[g - n ..];
    GreedyDropMany(rest, g - n);
  }

  // ----- the writer is greedy -----

  lemma {:induction false} AlikeSpan(loc: Pos, n: nat, rest: seq<Pos>)
    requires 0 < n && (rest == [] || rest[0] != loc)
    ensures Alike(Repeat(loc, n) + rest, 0) == if n > 8 then 8 else n
  {
    var u := Repeat(loc, n) + rest;
    AlikeIs(u, 0);
    assert forall k :: 0 <= k < n ==> u[k] == loc;
    assert n < |u| ==> u[n] == rest[0];
  }

  lemma {:induction false} GreedySpan(loc: Pos, n: nat, rest: seq<Pos>)
    requires rest == [] || rest[0] != loc
    ensures Greedy(Repeat(loc, n) + rest) == (n + 7) / 8 + Greedy(rest)
    decreases n
  {
    hide Alike;
    var u := Repeat(loc, n) + rest;
    if n == 0 {
      assert u == rest;
    } else {
      AlikeSpan(loc, n, rest);
      var g := if n > 8 then 8 else n;
      assert u[g..] == Repeat(loc, n - g) + rest;
      GreedySpan(loc, n - g, rest);
    }
  }

  lemma {:induction false} SpanCount(tab: seq<Byte>, pos: nat, loc: Pos, cursor: int, length: nat, end: nat)
    requires Holds(tab, pos, SpanBytes(loc, cursor, length)) && (length > 0 ==> Fits(loc, cursor))
    ensures |PositionsFrom(tab, pos, cursor, end)|
         == (length + 7) / 8 + |PositionsFrom(tab, pos + |SpanBytes(loc, cursor, length)|, SpanCursor(loc, cursor, length), end + 2 * length)|
    decreases length
  {
    hide EntryBytes, PositionsFrom, Holds;
    if length > 8 {
      var first, cursor' := EntryBytes(loc, cursor, 8), Moved(loc, cursor);
      HoldsSplit(tab, pos, first, SpanBytes(loc, cursor', length - 8));
      EntryCount(tab, pos, loc, cursor, 8, end);
      SpanCount(tab, pos + |first|, loc, cursor', length - 8, end + 16);
    } else if length > 0 {
      EntryCount(tab, pos, loc, cursor, length, end);
    }
  }

  lemma {:induction false} EntryCount(tab: seq<Byte>, pos: nat, loc: Pos, cursor: int, length: nat, end: nat)
    requires 1 <= length <= 8 && Holds(tab, pos, EntryBytes(loc, cursor, length)) && Fits(loc, cursor)
    ensures |PositionsFrom(tab, pos, cursor, end)|
         == 1 + |PositionsFrom(tab, pos + |EntryBytes(loc, cursor, length)|, Moved(loc, cursor), end + 2 * length)|
  {
    hide EntryBytes, ReadEntry, Fits, Normal, Moved;
    var bytes := EntryBytes(loc, cursor, length);
    EntryBack(tab, pos, loc, cursor, length);
    HoldsAt(tab, pos, bytes, 0);
    assert tab[pos .. pos + 1] == [EntryStart(bytes[0] / 8 % 16, length)];
    ReadStart(tab, pos, bytes[0] / 8 % 16, length, cursor, end);
  }

  // Every location is one that an entry can say.
  ghost predicate AllNormal(instrs: seq<Instr>) { forall i :: 0 <= i < |instrs| ==> Normal(instrs[i].loc) == instrs[i].loc }

  lemma {:induction false} TableCount(tab: seq<Byte>, pos: nat, instrs: seq<Instr>, i: nat, loc: Pos, size: nat, cursor: int, end: nat)
    requires i <= |instrs| && (size > 0 ==> Fits(loc, cursor)) && AllNormal(instrs) && Normal(loc) == loc
    requires FitsFrom(instrs, i, SpanCursor(loc, cursor, size))
    requires Holds(tab, pos, TableBytes(instrs, i, loc, size, cursor)) && pos + |TableBytes(instrs, i, loc, size, cursor)| == |tab|
    ensures |PositionsFrom(tab, pos, cursor, end)| == Greedy(Repeat(loc, size) + UnitLocations(instrs, i))
    decreases |instrs| - i
  {
    hide PositionsFrom, SpanBytes, InstrSize, Holds, Normal, Fits, Greedy;
    if i == |instrs| {
      SpanCount(tab, pos, loc, cursor, size, end);
      NothingLeft(tab, SpanCursor(loc, cursor, size), end + 2 * size);
      GreedySpan(loc, size, []);
      GreedyNone();
    } else if instrs[i].op == POP_BLOCK {
      TableCount(tab, pos, instrs, i + 1, loc, size, cursor, end);
    } else {
      var n := InstrSize(instrs[i]);
      Occupies(instrs[i]);
      if loc != instrs[i].loc {
        var span, cursor' := SpanBytes(loc, cursor, size), SpanCursor(loc, cursor, size);
        HoldsSplit(tab, pos, span, TableBytes(instrs, i + 1, instrs[i].loc, n, cursor'));
        SpanCount(tab, pos, loc, cursor, size, end);
        TableCount(tab, pos + |span|, instrs, i + 1, instrs[i].loc, n, cursor', end + 2 * size);
        assert UnitLocations(instrs, i)[0] == instrs[i].loc;
        GreedySpan(loc, size, UnitLocations(instrs, i));
      } else {
        StaysFit(loc, cursor);
        TableCount(tab, pos, instrs, i + 1, loc, size + n, cursor, end);
        RepeatJoin(loc, size, n);
        assert Repeat(loc, size + n) + UnitLocations(instrs, i + 1) == Repeat(loc, size) + UnitLocations(instrs, i);
      }
    }
  }

  lemma NothingLeft(tab: seq<Byte>, line: int, end: nat)
    ensures PositionsFrom(tab, |tab|, line, end) == []
  {
  }

  // No list of entries that gives every code unit the same location is shorter
  // than the one that the table decodes to.
  lemma {:induction false} FewestEntries(instrs: seq<Instr>, firstLine: int, entries: seq<PositionEntry>)
    requires FitsFrom(instrs, 0, StartCursor(firstLine)) && AllNormal(instrs)
    requires Proper(entries) && PerUnit(entries) == UnitLocations(instrs, 0)
    ensures |CoPositions(TableBytes(instrs, 0, NOWHERE, 0, StartCursor(firstLine)), firstLine)| <= |entries|
  {
    hide TableBytes, PositionsFrom, UnitLocations, PerUnit, Greedy;
    var tab := TableBytes(instrs, 0, NOWHERE, 0, StartCursor(firstLine));
    assert tab[0 .. 0 + |tab|] == tab;
    TableCount(tab, 0, instrs, 0, NOWHERE, 0, StartCursor(firstLine), 0);
    assert Repeat(NOWHERE, 0) + UnitLocations(instrs, 0) == UnitLocations(instrs, 0);
    GreedyLeast(entries);
  }
}
