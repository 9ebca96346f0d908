/**
 * The fixed-column table widget: a bold header line of column names, then
 * one line per data row, each cell left-aligned in its column and cut to the
 * column width and to the region's right edge.
 */
module Tables {
  import opened Base
  import opened Cells
  import opened Regions
  import opened Pages
  import opened RegionWidgets

  datatype ColumnDef = ColumnDef(name: string, width: U16)

  /** Where the column and row loops start. */
  const FIRST: nat := 0

  datatype Table = Table(columns: seq<ColumnDef>, rows: seq<seq<string>>)

  /** `Table::new`: columns and rows as given. */
  function NewTable(columns: seq<ColumnDef>, rows: seq<seq<string>>): (t: Table)
    ensures t.columns == columns && t.rows == rows
  {
    Table(columns, rows)
  }

  /** Where column j starts, relative to the table's left edge: the widths before it. */
  function Offset(columns: seq<ColumnDef>, j: nat): nat
    requires j <= |columns|
  {
    if j == 0 then 0 else Offset(columns, j - 1) + columns[j - 1].width
  }

  lemma {:induction false} OffsetMono(columns: seq<ColumnDef>, i: nat, j: nat)
    requires i <= j <= |columns|
    ensures Offset(columns, i) <= Offset(columns, j)
    decreases j
  {
    if i < j {
      OffsetMono(columns, i, j - 1);
    }
  }

  /**
   * The characters drawn in column j of a line whose cells hold `texts`:
   * none once the column starts at or past `right`; otherwise the cell text
   * cut to the column width and to the room left before `right`.
   */
  function Drawn(columns: seq<ColumnDef>, texts: seq<string>, x0: nat, right: nat, j: nat): (n: nat)
    requires |texts| == |columns| && j < |columns|
    ensures n <= |texts[j]| && n <= columns[j].width
    ensures n > 0 ==> x0 + Offset(columns, j) + n <= right
    ensures x0 + Offset(columns, j) >= right ==> n == 0
    ensures x0 + Offset(columns, j) < right ==>
      n == |texts[j]| || n == columns[j].width || x0 + Offset(columns, j) + n == right
  {
    var start := x0 + Offset(columns, j);
    if start < right then Min(Min(columns[j].width, right - start), |texts[j]|) else 0
  }

  /**
   * The character a table line puts at column cx, if any: the one from the
   * first column j >= k whose drawn part covers cx.
   */
  function LineChar(columns: seq<ColumnDef>, texts: seq<string>, x0: nat, right: nat, k: nat, cx: int): Option<char>
    requires |texts| == |columns| && k <= |columns|
    decreases |columns| - k
  {
    if k == |columns| then None
    else
      var start := x0 + Offset(columns, k);
      if start <= cx < start + Drawn(columns, texts, x0, right, k) then Some(texts[k][cx - start])
      else LineChar(columns, texts, x0, right, k + 1, cx)
  }

  /** Columns from k + 1 on start at or after the end of column k. */
  lemma {:induction false} LaterColumnsAfter(columns: seq<ColumnDef>, texts: seq<string>, x0: nat, right: nat, k: nat, cx: int)
    requires |texts| == |columns| && k < |columns|
    requires cx < x0 + Offset(columns, k) + columns[k].width
    ensures LineChar(columns, texts, x0, right, k + 1, cx) == None
  {
    NoCharBefore(columns, texts, x0, right, k + 1, cx);
  }

  /** Nothing is drawn left of column k's start. */
  lemma {:induction false} NoCharBefore(columns: seq<ColumnDef>, texts: seq<string>, x0: nat, right: nat, k: nat, cx: int)
    requires |texts| == |columns| && k <= |columns|
    requires cx < x0 + Offset(columns, k)
    ensures LineChar(columns, texts, x0, right, k, cx) == None
    decreases |columns| - k
  {
    if k < |columns| {
      NoCharBefore(columns, texts, x0, right, k + 1, cx);
    }
  }

  /** Once a column starts at or past `right`, nothing more is drawn. */
  lemma {:induction false} NothingFrom(columns: seq<ColumnDef>, texts: seq<string>, x0: nat, right: nat, k: nat, cx: int)
    requires |texts| == |columns| && k <= |columns|
    requires k == |columns| || x0 + Offset(columns, k) >= right
    ensures LineChar(columns, texts, x0, right, k, cx) == None
    decreases |columns| - k
  {
    if k < |columns| {
      assert Offset(columns, k) <= Offset(columns, k + 1);
      NothingFrom(columns, texts, x0, right, k + 1, cx);
    }
  }

  /**
   * What a line shows, column by column: inside the drawn part of column j
   * the character is the one at the same position of its text, and every
   * drawn character lies in [x0, right).
   */
  lemma {:induction false} LineCharSpec(columns: seq<ColumnDef>, texts: seq<string>, x0: nat, right: nat, k: nat, cx: int)
    requires |texts| == |columns| && k <= |columns|
    ensures LineChar(columns, texts, x0, right, k, cx).Some? ==> x0 <= cx < right
    ensures forall j | k <= j < |columns| && x0 + Offset(columns, j) <= cx < x0 + Offset(columns, j) + Drawn(columns, texts, x0, right, j) ::
      LineChar(columns, texts, x0, right, k, cx) == Some(texts[j][cx - x0 - Offset(columns, j)])
    decreases |columns| - k
  {
    if k < |columns| {
      LineCharSpec(columns, texts, x0, right, k + 1, cx);
      var start := x0 + Offset(columns, k);
      if start <= cx < start + Drawn(columns, texts, x0, right, k) {
        forall j | k < j < |columns| && x0 + Offset(columns, j) <= cx
          ensures false
        {
          OffsetMono(columns, k + 1, j);
        }
      }
    }
  }
  /** Character i of column j's drawn text is what the line shows there. */
  lemma ColumnChar(columns: seq<ColumnDef>, texts: seq<string>, x0: nat, right: nat, j: nat, i: nat)
    requires |texts| == |columns| && j < |columns|
    requires i < Drawn(columns, texts, x0, right, j)
    ensures LineChar(columns, texts, x0, right, FIRST, x0 + Offset(columns, j) + i) == Some(texts[j][i])
  {
    var cx := x0 + Offset(columns, j) + i;
    LineCharSpec(columns, texts, x0, right, FIRST, cx);
    assert cx - x0 - Offset(columns, j) == i;
  }


  /**
   * The column loop of one table line on row y: column k onward, starting at
   * `x0 + Offset(columns, k)`, stopping at the first column that starts at or
   * past `right`. Exactly the cells `LineChar` names change.
   */
  function DrawCells(b: PageBuilder, columns: seq<ColumnDef>, texts: seq<string>, x0: nat, right: nat, y: nat,
                     style: StyleFlags, k: nat): (r: PageBuilder)
    requires |texts| == |columns| && k <= |columns|
    ensures forall cx, cy | InGrid(cx, cy) ::
      r.cells[cy][cx] ==
        (if cy == y && LineChar(columns, texts, x0, right, k, cx).Some?
         then NewCell(LineChar(columns, texts, x0, right, k, cx).value, style)
         else b.cells[cy][cx])
    decreases |columns| - k
  {
    var colX := x0 + Offset(columns, k);
    if k == |columns| || colX >= right then
      assert forall cx :: LineChar(columns, texts, x0, right, k, cx) == None by {
        forall cx { NothingFrom(columns, texts, x0, right, k, cx); }
      }
      b
    else
      var n := Drawn(columns, texts, x0, right, k);
      var b1 := WriteRun(b, colX, y, texts[k][..n], style);
      var next := k + 1;
      assert forall cx | colX <= cx < colX + n :: LineChar(columns, texts, x0, right, next, cx) == None by {
        forall cx | colX <= cx < colX + n
          ensures LineChar(columns, texts, x0, right, next, cx) == None
        {
          LaterColumnsAfter(columns, texts, x0, right, k, cx);
        }
      }
      DrawCells(b1, columns, texts, x0, right, y, style, k + 1)
  }

  /** The text of cell j of a data row; a row shorter than the columns reads as empty. */
  function CellText(row: seq<string>, j: nat): (s: string)
    ensures j < |row| ==> s == row[j]
    ensures j >= |row| ==> s == ""
  {
    if j < |row| then row[j] else ""
  }

  function HeaderTexts(t: Table): (ts: seq<string>)
    ensures |ts| == |t.columns|
    ensures forall j | 0 <= j < |ts| :: ts[j] == t.columns[j].name
  {
    seq(|t.columns|, j requires 0 <= j < |t.columns| => t.columns[j].name)
  }

  function RowTexts(t: Table, row: nat): (ts: seq<string>)
    requires row < |t.rows|
    ensures |ts| == |t.columns|
    ensures forall j | 0 <= j < |ts| :: ts[j] == CellText(t.rows[row], j)
  {
    seq(|t.columns|, j requires 0 <= j < |t.columns| => CellText(t.rows[row], j))
  }

  /** Right edge of the region. */
  function Right(region: Region): nat
  {
    region.x + region.width
  }

  /** Data row `row` is on screen: it goes on line `region.y + 1 + row`, which must be inside the region. */
  predicate RowShown(t: Table, region: Region, row: int)
  {
    0 <= row < |t.rows| && 1 + row < region.height
  }

  /** The character the header puts at (cx, cy), if any. */
  function HeaderChar(t: Table, region: Region, cx: int, cy: int): Option<char>
  {
    if region.height > 0 && cy == region.y then LineChar(t.columns, HeaderTexts(t), region.x, Right(region), FIRST, cx)
    else None
  }

  /** The character a data row puts at (cx, cy), if any. */
  function DataChar(t: Table, region: Region, cx: int, cy: int): Option<char>
  {
    var d := cy - region.y - 1;
    if RowShown(t, region, d) then LineChar(t.columns, RowTexts(t, d), region.x, Right(region), FIRST, cx)
    else None
  }

  /** The data-row loop, from row `row` onward, stopping at the region's bottom. */
  function DrawDataRows(b: PageBuilder, t: Table, region: Region, row: nat): (r: PageBuilder)
    requires row <= |t.rows|
    ensures forall cx, cy | InGrid(cx, cy) ::
      r.cells[cy][cx] ==
        (if region.y + 1 + row <= cy && DataChar(t, region, cx, cy).Some?
         then NewCell(DataChar(t, region, cx, cy).value, NONE)
         else b.cells[cy][cx])
    decreases |t.rows| - row
  {
    if row == |t.rows| || region.y + 1 + row >= region.y + region.height then b
    else
      var b1 := DrawCells(b, t.columns, RowTexts(t, row), region.x, Right(region), region.y + 1 + row, NONE, FIRST);
      DrawDataRows(b1, t, region, row + 1)
  }

  /**
   * `Table::render`: nothing for a zero-height region. Otherwise the column
   * names in bold on the region's first line and data row d on line
   * `region.y + 1 + d` while that is inside the region, unstyled; every other
   * cell keeps its content, and nothing outside the region changes.
   */
  function RenderTable(b: PageBuilder, t: Table, region: Region): (r: PageBuilder)
    ensures region.height == 0 ==> r == b
    ensures Confined(b, r, region)
    ensures forall cx, cy | InGrid(cx, cy) ::
      r.cells[cy][cx] ==
        (if HeaderChar(t, region, cx, cy).Some? then NewCell(HeaderChar(t, region, cx, cy).value, BOLD)
         else if DataChar(t, region, cx, cy).Some? then NewCell(DataChar(t, region, cx, cy).value, NONE)
         else b.cells[cy][cx])
  {
    if region.height == 0 then b
    else
      var b1 := DrawCells(b, t.columns, HeaderTexts(t), region.x, Right(region), region.y, BOLD, FIRST);
      var r := DrawDataRows(b1, t, region, FIRST);
      assert Confined(b, r, region) by {
        forall cx, cy | InGrid(cx, cy) && !region.Contains(cx, cy)
          ensures r.cells[cy][cx] == b.cells[cy][cx]
        {
          LineCharSpec(t.columns, HeaderTexts(t), region.x, Right(region), FIRST, cx);
          var d := cy - region.y - 1;
          if RowShown(t, region, d) {
            LineCharSpec(t.columns, RowTexts(t, d), region.x, Right(region), FIRST, cx);
          }
        }
      }
      r
  }


  /** The header line lands on the region's first row, in bold. */
  lemma HeaderCell(b: PageBuilder, t: Table, region: Region, cx: int, c: char)
    requires region.height > 0 && InGrid(cx, region.y)
    requires LineChar(t.columns, HeaderTexts(t), region.x, Right(region), FIRST, cx) == Some(c)
    ensures RenderTable(b, t, region).cells[region.y][cx] == NewCell(c, BOLD)
  {
    assert HeaderChar(t, region, cx, region.y) == Some(c);
  }


  /** Data row d's line lands on row `region.y + 1 + d` while that is inside the region, unstyled. */
  lemma DataCell(b: PageBuilder, t: Table, region: Region, d: nat, cx: int, c: char)
    requires RowShown(t, region, d) && InGrid(cx, region.y + 1 + d)
    requires LineChar(t.columns, RowTexts(t, d), region.x, Right(region), FIRST, cx) == Some(c)
    ensures RenderTable(b, t, region).cells[region.y + 1 + d][cx] == NewCell(c, NONE)
  {
    assert HeaderChar(t, region, cx, region.y + 1 + d) == None;
    assert DataChar(t, region, cx, region.y + 1 + d) == Some(c);
  }

  /** A cell longer than its column is cut at the column width; the cell after it stays empty. */
  lemma TableCellTruncation(b: PageBuilder, t: Table, region: Region)
    requires b == NewBuilder()
    requires t == NewTable([ColumnDef("Name", 5)], [["VeryLongName"]])
    requires region == Region(0, 0, 10, 5)
    ensures At(RenderTable(b, t, region), 4, 1) == NewCell('L', NONE)
    ensures At(RenderTable(b, t, region), 5, 1) == EMPTY
    ensures At(RenderTable(b, t, region), 0, 0) == NewCell('N', BOLD)
  {
    assert Offset(t.columns, 0) == 0;
    assert At(RenderTable(b, t, region), 4, 1) == NewCell('L', NONE) by {
      var texts := RowTexts(t, 0);
      assert texts[0] == "VeryLongName" && Drawn(t.columns, texts, 0, 10, 0) == 5;
      ColumnChar(t.columns, texts, 0, 10, 0, 4);
      DataCell(b, t, region, 0, 4, 'L');
    }
    assert At(RenderTable(b, t, region), 0, 0) == NewCell('N', BOLD) by {
      var texts := HeaderTexts(t);
      assert texts[0] == "Name" && Drawn(t.columns, texts, 0, 10, 0) == 4;
      ColumnChar(t.columns, texts, 0, 10, 0, 0);
      HeaderCell(b, t, region, 0, 'N');
    }
    assert DataChar(t, region, 5, 1) == None by {
      assert LineChar(t.columns, RowTexts(t, 0), 0, 10, 1, 5) == None;
    }
    assert InGrid(5, 1);
  }
}
