/**
 * The 160x51 cell grid, the builder that writes into it, and the immutable
 * page it becomes. Writes outside the grid are silently ignored.
 */
module Pages {
  import opened Base
  import opened Cells
  import opened Regions

  predicate IsGrid(g: seq<seq<Cell>>)
  {
    |g| == 51 && forall r | 0 <= r < |g| :: |g[r]| == 160
  }

  /** 51 rows of 160 cells, row-major. */
  type Grid = g: seq<seq<Cell>> | IsGrid(g) witness seq(51, _ => seq(160, _ => EMPTY))

  /** (x, y) names a cell of the grid. */
  predicate InGrid(x: int, y: int)
  {
    0 <= x < PAGE_WIDTH as int && 0 <= y < PAGE_HEIGHT as int
  }

  datatype PageBuilder = PageBuilder(cells: Grid)

  datatype Page = Page(cells: Grid)

  /** `PageBuilder::new`: every cell is `Cell::EMPTY`. */
  function NewBuilder(): (b: PageBuilder)
    ensures forall x, y | InGrid(x, y) :: b.cells[y][x] == EMPTY
  {
    PageBuilder(seq(51, _ => seq(160, _ => EMPTY)))
  }

  /**
   * `write_at`: the cell at (x, y) becomes `Cell::new(ch, style)` when it is
   * on the grid; no other cell changes, and an off-grid write changes nothing.
   */
  function WriteAt(b: PageBuilder, x: nat, y: nat, ch: char, style: StyleFlags): (r: PageBuilder)
    ensures forall cx, cy | InGrid(cx, cy) ::
      r.cells[cy][cx] == (if cx == x && cy == y then NewCell(ch, style) else b.cells[cy][cx])
  {
    if x < 160 && y < 51 then PageBuilder(b.cells[y := b.cells[y][x := NewCell(ch, style)]])
    else b
  }

  /**
   * `write_str`: the characters of `text` go into consecutive cells of row y
   * from column x; whatever would fall at column 160 or beyond is dropped.
   */
  function WriteStr(b: PageBuilder, x: nat, y: nat, text: string, style: StyleFlags): (r: PageBuilder)
    ensures forall cx, cy | InGrid(cx, cy) ::
      r.cells[cy][cx] ==
        (if cy == y && x <= cx < x + |text| then NewCell(text[cx - x], style) else b.cells[cy][cx])
    decreases |text|
  {
    if |text| == 0 || x >= 160 then b
    else WriteStr(WriteAt(b, x, y, text[0], style), x + 1, y, text[1..], style)
  }

  /** Columns [x, xEnd) of row y are filled with `Cell::new(ch, style)`. */
  function FillRow(b: PageBuilder, x: nat, xEnd: nat, y: nat, ch: char, style: StyleFlags): (r: PageBuilder)
    ensures forall cx, cy | InGrid(cx, cy) ::
      r.cells[cy][cx] == (if cy == y && x <= cx < xEnd then NewCell(ch, style) else b.cells[cy][cx])
    decreases xEnd - x
  {
    if x >= xEnd then b else FillRow(WriteAt(b, x, y, ch, style), x + 1, xEnd, y, ch, style)
  }

  /** Rows [row, region bottom) of the region are filled. */
  function FillRows(b: PageBuilder, region: Region, row: nat, ch: char, style: StyleFlags): (r: PageBuilder)
    requires region.y <= row
    ensures forall cx, cy | InGrid(cx, cy) ::
      r.cells[cy][cx] ==
        (if region.Contains(cx, cy) && row <= cy then NewCell(ch, style) else b.cells[cy][cx])
    decreases region.y + region.height - row
  {
    if row >= region.y + region.height then b
    else
      var b' := FillRow(b, region.x, region.x + region.width, row, ch, style);
      FillRows(b', region, row + 1, ch, style)
  }

  /**
   * `fill_region`: every grid cell of the region becomes `Cell::new(ch, style)`,
   * every other cell is unchanged.
   */
  function FillRegion(b: PageBuilder, region: Region, ch: char, style: StyleFlags): (r: PageBuilder)
    ensures forall cx, cy | InGrid(cx, cy) ::
      r.cells[cy][cx] == (if region.Contains(cx, cy) then NewCell(ch, style) else b.cells[cy][cx])
  {
    FillRows(b, region, region.y, ch, style)
  }

  /** `build`: the page holds exactly the builder's cells. */
  function Build(b: PageBuilder): (p: Page)
    ensures forall x, y | InGrid(x, y) :: p.cells[y][x] == b.cells[y][x]
  {
    Page(b.cells)
  }

  /** `get_cell`: the cell at (x, y), or None off the grid. */
  function GetCell(p: Page, x: U16, y: U16): (r: Option<Cell>)
    ensures r.Some? <==> InGrid(x, y)
    ensures r.Some? ==> r.value == p.cells[y][x]
  {
    if x < 160 && y < 51 then Some(p.cells[y][x]) else None
  }

  /** Reading back a written cell gives `Cell::new` of what was written. */
  lemma WriteThenGet(b: PageBuilder, x: U16, y: U16, ch: char, style: StyleFlags, qx: U16, qy: U16)
    requires InGrid(qx, qy)
    ensures GetCell(Build(WriteAt(b, x, y, ch, style)), qx, qy)
      == Some(if qx == x && qy == y then NewCell(ch, style) else b.cells[qy][qx])
  {
  }

  /** Text no wider than the row reads back character by character. */
  lemma WriteStrThenGet(b: PageBuilder, x: U16, y: U16, text: string, i: nat)
    requires InGrid(x + i, y) && i < |text|
    requires forall k | 0 <= k < |text| :: IsPrintableAscii(text[k])
    ensures GetCell(Build(WriteStr(b, x, y, text, NONE)), x + i, y).Some?
    ensures GetCell(Build(WriteStr(b, x, y, text, NONE)), x + i, y).value.character as int == text[i] as int
  {
  }

  /** The cell a builder holds at a grid position. */
  function At(b: PageBuilder, x: int, y: int): Cell
    requires InGrid(x, y)
  {
    b.cells[y][x]
  }

  lemma WriteStrExample(b: PageBuilder, text: string)
    requires b == NewBuilder() && text == "Hello"
    ensures At(WriteStr(b, 0, 0, text, NONE), 0, 0).character == 'H' as int
    ensures At(WriteStr(b, 0, 0, text, NONE), 4, 0).character == 'o' as int
  {
    assert text[0] == 'H' && text[4] == 'o';
  }

  lemma WriteStrClipExample(b: PageBuilder, text: string)
    requires b == NewBuilder() && text == seq(200, _ => 'A')
    ensures At(WriteStr(b, 0, 0, text, NONE), 159, 0).character == 'A' as int
  {
    assert text[159] == 'A';
  }

  lemma FillRegionExample(b: PageBuilder, region: Region)
    requires b == NewBuilder() && region == Region(0, 0, 5, 3)
    ensures var r := FillRegion(b, region, '-', NONE);
      At(r, 4, 2).character == '-' as int && At(r, 5, 0) == EMPTY && At(r, 0, 3) == EMPTY
  {
  }

  lemma OffGridExample(b: PageBuilder)
    requires b == NewBuilder()
    ensures WriteAt(b, 200, 0, 'X', NONE) == b
    ensures GetCell(Build(b), 200, 0).None?
  {
  }
}
