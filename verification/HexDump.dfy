/** The hex dump of memory, and a reader that recovers addresses and bytes from it. */
module HexDump {
  import opened Bytes
  import opened Wrappers

  // --- numbers ---

  function HexDigit(d: nat): char
    requires d < 16
  {
    if d < 10 then '0' + d as char else 'a' + (d - 10) as char
  }

  function ParseDigit(c: char): Option<nat> {
    if '0' <= c <= '9' then Some((c - '0') as nat)
    else if 'a' <= c <= 'f' then Some((c - 'a') as nat + 10)
    else None
  }

  function Hex(n: nat): string {
    if n < 16 then [HexDigit(n)] else Hex(n / 16) + [HexDigit(n % 16)]
  }

  /** Zeroes in front, up to a width. */
  function Padded(s: string, width: nat): string
    decreases width - |s|
  {
    if |s| >= width then s else Padded("0" + s, width)
  }

  function ParseHex(s: string): Option<nat> {
    if s == "" then Some(0)
    else
      var (front, last) := (ParseHex(s[..|s| - 1]), ParseDigit(s[|s| - 1]));
      if front.Some? && last.Some? then Some(16 * front.value + last.value) else None
  }

  predicate IsHex(s: string) {
    forall i | 0 <= i < |s| :: ParseDigit(s[i]).Some?
  }

  lemma DigitParses(d: nat)
    requires d < 16
    ensures ParseDigit(HexDigit(d)) == Some(d)
  {
  }

  /** Digits are in lower case. */
  lemma DigitShape(d: nat)
    requires d < 16
    ensures d < 10 ==> '0' <= HexDigit(d) <= '9' && (HexDigit(d) - '0') as nat == d
    ensures d >= 10 ==> 'a' <= HexDigit(d) <= 'f' && (HexDigit(d) - 'a') as nat == d - 10
  {
  }

  lemma {:induction false} HexParses(n: nat)
    ensures ParseHex(Hex(n)) == Some(n) && IsHex(Hex(n)) && Hex(n) != ""
  {
    if n >= 16 {
      HexParses(n / 16);
      DigitParses(n % 16);
      assert Hex(n)[..|Hex(n)| - 1] == Hex(n / 16);
    } else {
      DigitParses(n);
      assert Hex(n)[..0] == "";
    }
  }

  lemma {:induction false} ZeroDoesNotMatter(s: string)
    ensures ParseHex("0" + s) == ParseHex(s)
  {
    if s != "" {
      ZeroDoesNotMatter(s[..|s| - 1]);
      assert ("0" + s)[..|"0" + s| - 1] == "0" + s[..|s| - 1];
    } else {
      assert ("0" + s)[..0] == "";
    }
  }

  lemma {:induction false} PaddedParses(s: string, width: nat)
    requires IsHex(s)
    ensures ParseHex(Padded(s, width)) == ParseHex(s) && IsHex(Padded(s, width)) && |Padded(s, width)| >= width
    ensures |Padded(s, width)| == if |s| < width then width else |s|
    decreases width - |s|
  {
    if |s| < width {
      ZeroDoesNotMatter(s);
      PaddedParses("0" + s, width);
    }
  }

  // --- one row ---

  function Cell(row: seq<byte>, i: nat): string {
    if i < |row| then Padded(Hex(row[i] as nat), 2) + " " else "   "
  }

  function Cells(row: seq<byte>): seq<string> {
    seq(COLUMNS, i requires 0 <= i < COLUMNS => Cell(row, i))
  }

  /** The first `n` byte columns side by side, with a space more before column 8. */
  function Laid(cells: seq<string>, n: nat): string
    requires n <= |cells|
  {
    if n == 0 then "" else Laid(cells, n - 1) + (if n - 1 == 8 then " " else "") + cells[n - 1]
  }

  function Columns(row: seq<byte>): string {
    Laid(Cells(row), COLUMNS)
  }

  function Shown(b: byte): char {
    if 0x20 <= b <= 0x7E then b as int as char else '.'
  }

  function Gutter(row: seq<byte>, n: nat): string {
    if n == 0 then "" else Gutter(row, n - 1) + [if n - 1 < |row| then Shown(row[n - 1]) else ' ']
  }

  const COLUMNS: nat := 16

  function Label(address: nat): string {
    "0x" + Padded(Hex(address), 8)
  }

  function Row(address: nat, row: seq<byte>): string {
    Label(address) + ": " + Columns(row) + " |" + Gutter(row, COLUMNS) + "|"
  }

  function RowAt(data: seq<byte>, offset: nat): seq<byte>
    requires offset <= |data|
  {
    data[offset..if offset + 16 < |data| then offset + 16 else |data|]
  }

  /** The rows from `offset` on. */
  function Dump(data: seq<byte>, start: nat, offset: nat): string
    decreases |data| - offset
  {
    if offset >= |data| then ""
    else
      Row((start + offset) % U64_LIMIT, RowAt(data, offset))
      + if offset + 16 < |data| then "\n" + Dump(data, start, offset + 16) else ""
  }

  method FormatHexDump(data: seq<byte>, startAddr: nat) returns (sb: string)
    ensures sb == Dump(data, startAddr, 0)
  {
    sb := "";
    var offset := 0;
    while offset < |data|
      invariant sb + Dump(data, startAddr, offset) == Dump(data, startAddr, 0)
    {
      ghost var before := sb;
      var end := if offset + 16 < |data| then offset + 16 else |data|;
      sb := AppendRow(sb, (startAddr + offset) % U64_LIMIT, data[offset..end]);
      if offset + 16 < |data| {
        sb := sb + "\n";
      }
      Appended(before, Row((startAddr + offset) % U64_LIMIT, RowAt(data, offset)), "\n",
          Dump(data, startAddr, offset + 16));
      offset := offset + 16;
    }
  }

  lemma Appended(before: string, row: string, separator: string, rest: string)
    ensures before + row + separator + rest == before + (row + (separator + rest))
    ensures before + row == before + (row + "") == before + row + ""
  {
  }

  method AppendRow(before: string, address: nat, row: seq<byte>) returns (sb: string)
    ensures sb == before + Row(address, row)
  {
    var prefix := Padded(Hex(address), 8);
    sb := before + "0x" + prefix + ": ";
    var columns := FormatColumns(row);
    sb := sb + columns + " |";
    var gutter := FormatGutter(row);
    sb := sb + gutter + "|";
    Joined(before, "0x", prefix, ": ", columns, " |", gutter, "|");
  }

  lemma Joined(s: string, a: string, b: string, c: string, d: string, e: string, f: string, g: string)
    ensures s + a + b + c + d + e + f + g == s + (a + b + c + d + e + f + g)
  {
    assert s + a + b == s + (a + b);
    assert s + (a + b) + c == s + (a + b + c);
    assert s + (a + b + c) + d == s + (a + b + c + d);
    assert s + (a + b + c + d) + e == s + (a + b + c + d + e);
    assert s + (a + b + c + d + e) + f == s + (a + b + c + d + e + f);
  }

  method FormatColumns(row: seq<byte>) returns (sb: string)
    ensures sb == Columns(row)
  {
    sb := "";
    for i := 0 to COLUMNS
      invariant sb == Laid(Cells(row), i)
    {
      if i == 8 {
        sb := sb + " ";
      }
      var cell := FormatCell(row, i);
      sb := sb + cell;
    }
  }

  method FormatCell(row: seq<byte>, i: nat) returns (cell: string)
    requires i < COLUMNS
    ensures cell == Cells(row)[i]
  {
    if i < |row| {
      cell := Padded(Hex(row[i] as nat), 2) + " ";
    } else {
      cell := "   ";
    }
  }

  method FormatGutter(row: seq<byte>) returns (sb: string)
    ensures sb == Gutter(row, COLUMNS)
  {
    sb := "";
    for i := 0 to COLUMNS
      invariant sb == Gutter(row, i)
    {
      if i < |row| {
        var b := row[i];
        sb := sb + [if 0x20 <= b <= 0x7E then b as int as char else '.'];
      } else {
        sb := sb + " ";
      }
    }
  }

  // --- reading a dump ---

  /** Where byte column `k` starts. */
  function ColumnStart(k: nat): nat {
    3 * k + if k >= 8 then 1 else 0
  }

  /** The bytes of columns `k` and on, up to the first blank one. */
  function ReadColumns(columns: string, k: nat): Option<seq<byte>>
    decreases COLUMNS - k
  {
    if k >= COLUMNS then Some([])
    else if ColumnStart(k) + 2 > |columns| then None
    else
      var cell := columns[ColumnStart(k)..ColumnStart(k) + 2];
      if cell == "  " then Some([])
      else
        var (value, rest) := (ParseHex(cell), ReadColumns(columns, k + 1));
        if value.None? || value.value >= 0x100 || rest.None? then None else Some([value.value as byte] + rest.value)
  }

  function Find(s: string, c: char): (p: nat)
    ensures p <= |s|
  {
    if s == "" || s[0] == c then 0 else 1 + Find(s[1..], c)
  }

  datatype DumpRow = DumpRow(address: nat, bytes: seq<byte>)

  /** The address up to the colon, and the fixed-width columns after the space. */
  function ReadRow(line: string): Option<DumpRow> {
    var colon := Find(line, ':');
    if colon < 2 || colon + 2 > |line| then None
    else
      var (address, bytes) := (ParseHex(line[2..colon]), ReadColumns(line[colon + 2..], 0));
      if address.None? || bytes.None? then None else Some(DumpRow(address.value, bytes.value))
  }

  function ReadDump(text: string): Option<seq<DumpRow>>
    decreases |text|
  {
    if text == "" then Some([])
    else
      var end := Find(text, '\n');
      var row := ReadRow(text[..end]);
      var rest := ReadDump(if end < |text| then text[end + 1..] else "");
      if row.None? || rest.None? then None else Some([row.value] + rest.value)
  }

  // --- the round trip ---

  lemma CellReads(row: seq<byte>, k: nat)
    ensures |Cell(row, k)| == 3
    ensures k < |row| ==> Cell(row, k)[..2] != "  " && ParseHex(Cell(row, k)[..2]) == Some(row[k] as nat)
    ensures k >= |row| ==> Cell(row, k)[..2] == "  "
    ensures '\n' !in Cell(row, k)
  {
    if k < |row| {
      var hex := Hex(row[k] as nat);
      HexParses(row[k] as nat);
      PaddedParses(hex, 2);
      TwoDigits(row[k]);
      assert Cell(row, k)[..2] == Padded(hex, 2);
      assert ParseDigit(Padded(hex, 2)[0]).Some?;
    }
  }

  lemma TwoDigits(b: byte)
    ensures |Hex(b as nat)| <= 2
  {
    assert b as nat / 16 < 16;
  }

  lemma {:induction false} LaidShape(cells: seq<string>, n: nat)
    requires n <= |cells| && forall i | 0 <= i < |cells| :: |cells[i]| == 3 && '\n' !in cells[i]
    ensures |Laid(cells, n)| == 3 * n + (if n > 8 then 1 else 0)
    ensures '\n' !in Laid(cells, n)
  {
    if n > 0 {
      LaidShape(cells, n - 1);
    }
  }

  lemma SliceBack(front: string, cell: string)
    requires |cell| == 3
    ensures (front + cell)[|front|..|front| + 3] == cell
  {
  }

  lemma SliceFront(front: string, more: string, i: nat)
    requires i + 3 <= |front|
    ensures (front + more)[i..i + 3] == front[i..i + 3]
  {
  }

  lemma {:induction false} CellAt(cells: seq<string>, n: nat, k: nat)
    requires k < n <= |cells| && forall i | 0 <= i < |cells| :: |cells[i]| == 3 && '\n' !in cells[i]
    ensures ColumnStart(k) + 3 <= |Laid(cells, n)|
    ensures Laid(cells, n)[ColumnStart(k)..ColumnStart(k) + 3] == cells[k]
  {
    LaidShape(cells, n - 1);
    var gap := if n - 1 == 8 then " " else "";
    var front := Laid(cells, n - 1) + gap;
    SliceBack(front, cells[n - 1]);
    if k < n - 1 {
      CellAt(cells, n - 1, k);
      SliceFront(Laid(cells, n - 1), gap, ColumnStart(k));
      SliceFront(front, cells[n - 1], ColumnStart(k));
    }
  }

  lemma CellsShape(row: seq<byte>)
    ensures |Cells(row)| == COLUMNS && forall i | 0 <= i < |Cells(row)| ::
        |Cells(row)[i]| == 3 && '\n' !in Cells(row)[i]
  {
    forall i | 0 <= i < COLUMNS
      ensures |Cells(row)[i]| == 3 && '\n' !in Cells(row)[i]
    {
      CellReads(row, i);
    }
  }

  lemma ColumnReads(row: seq<byte>, after: string, k: nat)
    requires k < COLUMNS
    ensures ColumnStart(k) + 2 <= |Columns(row) + after|
    ensures |Cell(row, k)| == 3 && (Columns(row) + after)[ColumnStart(k)..ColumnStart(k) + 2] == Cell(row, k)[..2]
  {
    var (cells, text) := (Cells(row), Columns(row) + after);
    CellsShape(row);
    CellAt(cells, COLUMNS, k);
    SliceFront(Columns(row), after, ColumnStart(k));
    assert text[ColumnStart(k)..ColumnStart(k) + 3] == cells[k];
    assert text[ColumnStart(k)..ColumnStart(k) + 2] == text[ColumnStart(k)..ColumnStart(k) + 3][..2];
  }

  /** What column `k` contributes. */
  lemma ColumnStep(row: seq<byte>, text: string, k: nat)
    requires k < COLUMNS && Columns(row) <= text
    ensures k < |row| && ReadColumns(text, k + 1).Some? ==>
              ReadColumns(text, k) == Some([row[k]] + ReadColumns(text, k + 1).value)
    ensures k >= |row| ==> ReadColumns(text, k) == Some([])
  {
    var after := text[|Columns(row)|..];
    assert text == Columns(row) + after;
    ColumnReads(row, after, k);
    CellReads(row, k);
  }

  lemma {:induction false} ColumnsRead(row: seq<byte>, text: string, k: nat)
    requires k <= |row| <= COLUMNS && Columns(row) <= text
    ensures ReadColumns(text, k) == Some(row[k..])
    decreases COLUMNS - k
  {
    if k < |row| {
      ColumnsRead(row, text, k + 1);
      ColumnStep(row, text, k);
      assert row[k..] == [row[k]] + row[k + 1..];
    } else {
      assert row[k..] == [];
      if k < COLUMNS {
        ColumnStep(row, text, k);
      }
    }
  }

  lemma {:induction false} GutterShape(row: seq<byte>, n: nat)
    ensures |Gutter(row, n)| == n && '\n' !in Gutter(row, n)
    ensures forall k | 0 <= k < n ::
              Gutter(row, n)[k] == if k >= |row| then ' '
                                   else if 0x20 <= row[k] <= 0x7E then row[k] as int as char
                                   else '.'
  {
    if n > 0 {
      GutterShape(row, n - 1);
    }
  }

  lemma {:induction false} FindsFirst(before: string, c: char, after: string)
    requires c !in before
    ensures Find(before + [c] + after, c) == |before|
    ensures Find(before, c) == |before|
  {
    if before != "" {
      FindsFirst(before[1..], c, after);
      assert (before + [c] + after)[1..] == before[1..] + [c] + after;
    }
  }

  lemma LabelReads(address: nat)
    ensures ':' !in Label(address) && '\n' !in Label(address)
    ensures |Label(address)| == 2 + if |Hex(address)| < 8 then 8 else |Hex(address)|
    ensures ParseHex(Label(address)[2..]) == Some(address)
  {
    HexParses(address);
    PaddedParses(Hex(address), 8);
    var digits := Padded(Hex(address), 8);
    assert Label(address)[2..] == digits;
    assert ':' !in digits && '\n' !in digits;
  }

  /** What the reader finds in a line of the right shape. */
  lemma ShapeReads(head: string, tail: string, line: string)
    requires ':' !in head && |head| >= 2 && line == head + ":" + (" " + tail)
    ensures Find(line, ':') == |head| && |head| + 2 <= |line|
    ensures line[2..|head|] == head[2..] && line[|head| + 2..] == tail
  {
    FindsFirst(head, ':', " " + tail);
  }

  lemma ShapedLineReads(head: string, address: nat, tail: string, row: seq<byte>, line: string)
    requires ':' !in head && |head| >= 2 && line == head + ":" + (" " + tail)
    requires ParseHex(head[2..]) == Some(address) && ReadColumns(tail, 0) == Some(row)
    ensures ReadRow(line) == Some(DumpRow(address, row))
  {
    ShapeReads(head, tail, line);
  }

  lemma RowReads(address: nat, row: seq<byte>)
    requires |row| <= COLUMNS
    ensures ReadRow(Row(address, row)) == Some(DumpRow(address, row))
  {
    var tail := Columns(row) + (" |" + Gutter(row, COLUMNS) + "|");
    LabelReads(address);
    RowSplits(Label(address), Columns(row), " |", Gutter(row, COLUMNS), "|");
    ColumnsRead(row, tail, 0);
    assert row[0..] == row;
    ShapedLineReads(Label(address), address, tail, row, Row(address, row));
  }

  /** The fixed parts of a row: label, columns of a fixed width, and the gutter between bars. */
  lemma RowLooks(address: nat, row: seq<byte>)
    ensures var (n, text) := (|Label(address)|, Row(address, row));
            && |text| == n + 2 + 49 + 2 + 16 + 1
            && text[..2] == "0x" && text[n..n + 2] == ": "
            && text[n + 51..n + 53] == " |" && text[n + 53..n + 69] == Gutter(row, COLUMNS) && text[n + 69] == '|'
  {
    CellsShape(row);
    LaidShape(Cells(row), COLUMNS);
    GutterShape(row, COLUMNS);
  }

  lemma RowIsOneLine(address: nat, row: seq<byte>)
    ensures '\n' !in Row(address, row) && Row(address, row) != "" && Row(address, row)[|Row(address, row)| - 1] == '|'
  {
    LabelReads(address);
    CellsShape(row);
    LaidShape(Cells(row), COLUMNS);
    GutterShape(row, COLUMNS);
    assert '\n' !in ": " && '\n' !in " |" && '\n' !in "|";
  }

  lemma RowSplits(prefix: string, columns: string, bar: string, gutter: string, end: string)
    ensures prefix + ": " + columns + bar + gutter + end == prefix + ":" + (" " + (columns + (bar + gutter + end)))
  {
  }

  /** The rows a dump must show: 16 bytes each but the last, labelled by their wrapped address. */
  function Rows(data: seq<byte>, start: nat, offset: nat): (rows: seq<DumpRow>)
    decreases |data| - offset
  {
    if offset >= |data| then []
    else [DumpRow((start + offset) % U64_LIMIT, RowAt(data, offset))] + Rows(data, start, offset + 16)
  }

  lemma LineReads(line: string, row: DumpRow, rest: string)
    requires '\n' !in line && line != "" && ReadRow(line) == Some(row)
    ensures ReadDump(line) == Some([row])
    ensures ReadDump(rest).Some? ==> ReadDump(line + "\n" + rest) == Some([row] + ReadDump(rest).value)
  {
    FindsFirst(line, '\n', rest);
    var text := line + "\n" + rest;
    assert text[..|line|] == line && text[|line| + 1..] == rest;
    assert line[..|line|] == line;
    assert ReadDump("") == Some([]);
    assert [row] + [] == [row];
  }

  /** The text of some rows. */
  function Printed(rows: seq<DumpRow>): string {
    if rows == [] then ""
    else Row(rows[0].address, rows[0].bytes) + if |rows| > 1 then "\n" + Printed(rows[1..]) else ""
  }

  lemma RowLine(row: DumpRow) returns (line: string)
    requires |row.bytes| <= COLUMNS
    ensures line == Row(row.address, row.bytes)
    ensures ReadRow(line) == Some(row) && '\n' !in line && line != "" && line[|line| - 1] != '\n'
  {
    line := Row(row.address, row.bytes);
    RowReads(row.address, row.bytes);
    RowIsOneLine(row.address, row.bytes);
  }

  lemma LinesEnd(line: string, rest: string)
    requires rest != "" && rest[|rest| - 1] != '\n'
    ensures line + "\n" + rest != "" && (line + "\n" + rest)[|line + "\n" + rest| - 1] != '\n'
    ensures line + ("\n" + rest) == line + "\n" + rest
  {
  }

  lemma {:induction false} PrintedReads(rows: seq<DumpRow>)
    requires forall row <- rows :: |row.bytes| <= COLUMNS
    ensures ReadDump(Printed(rows)) == Some(rows)
    ensures rows != [] ==> Printed(rows) != "" && Printed(rows)[|Printed(rows)| - 1] != '\n'
  {
    if rows != [] {
      var rest := rows[1..];
      assert rows[0] in rows && rows == [rows[0]] + rest;
      PrintedReads(rest);
      var line := RowLine(rows[0]);
      LineReads(line, rows[0], Printed(rest));
      if rest != [] {
        LinesEnd(line, Printed(rest));
      } else {
        assert Printed(rows) == line + "" == line;
      }
    }
  }

  lemma {:induction false} DumpIsPrinted(data: seq<byte>, start: nat, offset: nat)
    ensures Dump(data, start, offset) == Printed(Rows(data, start, offset))
    ensures forall row <- Rows(data, start, offset) :: |row.bytes| <= COLUMNS
    ensures Rows(data, start, offset) == [] <==> offset >= |data|
    decreases |data| - offset
  {
    if offset < |data| {
      DumpIsPrinted(data, start, offset + 16);
      var rows := Rows(data, start, offset);
      assert rows[1..] == Rows(data, start, offset + 16);
      assert rows == [rows[0]] + rows[1..];
    }
  }

  function Recovered(rows: seq<DumpRow>): seq<byte> {
    if rows == [] then [] else rows[0].bytes + Recovered(rows[1..])
  }

  lemma {:induction false} RowsHold(data: seq<byte>, start: nat, offset: nat)
    requires offset <= |data|
    ensures |Rows(data, start, offset)| == (|data| - offset + 15) / 16
    ensures Recovered(Rows(data, start, offset)) == data[offset..]
    decreases |data| - offset
  {
    if offset < |data| {
      if offset + 16 <= |data| {
        RowsHold(data, start, offset + 16);
        assert data[offset..] == data[offset..offset + 16] + data[offset + 16..];
      } else {
        assert Rows(data, start, offset + 16) == [];
      }
    }
  }

  lemma {:induction false} RowLabelled(data: seq<byte>, start: nat, offset: nat, address: nat, k: nat)
    requires address == start + offset && k < |Rows(data, start, offset)|
    ensures Rows(data, start, offset)[k].address == (address + 16 * k) % U64_LIMIT
    decreases k
  {
    if k > 0 {
      RowLabelled(data, start, offset + 16, address + 16, k - 1);
    }
  }

  /**
   * Reading a dump gives back the data: its rows joined are the bytes, there is one for every 16
   * bytes begun, row `k` is labelled `start + 16k` modulo 2^64, and the text does not end in a
   * line feed.
   */
  lemma HexDumpRoundTrip(data: seq<byte>, start: nat, text: string) returns (rows: seq<DumpRow>)
    requires text == Dump(data, start, 0)
    ensures ReadDump(text) == Some(rows)
    ensures Recovered(rows) == data
    ensures |rows| == (|data| + 15) / 16
    ensures forall k | 0 <= k < |rows| :: rows[k].address == (start + 16 * k) % U64_LIMIT
    ensures text != "" ==> text[|text| - 1] != '\n'
  {
    rows := Rows(data, start, 0);
    DumpIsPrinted(data, start, 0);
    PrintedReads(rows);
    RowsHold(data, start, 0);
    forall k | 0 <= k < |rows|
      ensures rows[k].address == (start + 16 * k) % U64_LIMIT
    {
      RowLabelled(data, start, 0, start, k);
    }
    assert data[0..] == data;
  }
}
