/**
 * The bordered box widget and the content it can hold. A box draws a frame
 * of `+`, `-` and `|` around its region, an optional title in the top edge,
 * and renders its content one cell in from every side. Content is any of
 * the region widgets, including another box.
 */
module Boxes {
  import opened Base
  import opened Cells
  import opened Regions
  import opened Pages
  import opened RegionWidgets
  import opened Tables
  import opened Text

  /** The widgets a box can hold. */
  datatype Content =
    | LabelContent(textLabel: TextLabel)
    | BlockContent(block: TextBlock)
    | KeyValueContent(list: KeyValueList)
    | ParagraphContent(paragraph: Paragraph)
    | TableContent(table: Table)
    | BoxContent(ascii: ASCIIBox)

  datatype ASCIIBox = ASCIIBox(title: Option<string>, content: Content)

  /** `ASCIIBox::new`: no title. */
  function NewBox(content: Content): (bx: ASCIIBox)
    ensures bx.title == None && bx.content == content
  {
    ASCIIBox(None, content)
  }

  /** `with_title` sets (or replaces) the title. */
  function WithTitle(bx: ASCIIBox, title: string): (r: ASCIIBox)
    ensures r.title == Some(title) && r.content == bx.content
  {
    bx.(title := Some(title))
  }

  /** Title characters shown: at most `width - 4` (saturating), leaving the corners and a dash each side. */
  function TitleCount(width: U16, title: string): (n: nat)
    ensures n <= |title|
    ensures width >= 4 ==> n + 4 <= width
    ensures width < 4 ==> n == 0
    ensures width >= 4 ==> n == |title| || n + 4 == width
  {
    Min(SaturatingSub16(width, 4), |title|)
  }

  /** The cells of the region's outermost ring. */
  predicate OnFrame(region: Region, cx: int, cy: int)
  {
    region.Contains(cx, cy)
    && (cx == region.x || cx == region.x + region.width - 1 || cy == region.y || cy == region.y + region.height - 1)
  }

  /**
   * What the frame shows at a ring cell: `+` at the four corners, the title
   * from two cells right of the top-left corner, `-` along the rest of the
   * top and bottom edges, and `|` down the sides.
   */
  function FrameChar(title: Option<string>, region: Region, cx: int, cy: int): char
    requires OnFrame(region, cx, cy)
  {
    var right := region.x + region.width - 1;
    var bottom := region.y + region.height - 1;
    if (cx == region.x || cx == right) && (cy == region.y || cy == bottom) then '+'
    else if cy == region.y && title.Some? && region.x + 2 <= cx < region.x + 2 + TitleCount(region.width, title.value)
    then title.value[cx - region.x - 2]
    else if cy == region.y || cy == bottom then '-'
    else '|'
  }

  /** The `for dx in 1..width - 1` loop: dashes along the top and bottom edges from column dx on. */
  function HorizontalEdges(b: PageBuilder, region: Region, dx: nat): (r: PageBuilder)
    requires region.width >= 3 && region.height >= 3 && 1 <= dx <= region.width - 1
    ensures forall cx, cy | InGrid(cx, cy) ::
      r.cells[cy][cx] ==
        (if (cy == region.y || cy == region.y + region.height - 1)
            && region.x + dx <= cx < region.x + region.width - 1
         then NewCell('-', NONE) else b.cells[cy][cx])
    decreases region.width - dx
  {
    if dx == region.width - 1 then b
    else
      var b1 := WriteAt(b, region.x + dx, region.y, '-', NONE);
      var b2 := WriteAt(b1, region.x + dx, region.y + region.height - 1, '-', NONE);
      HorizontalEdges(b2, region, dx + 1)
  }

  /** The `for dy in 1..height - 1` loop: bars down the left and right edges from row dy on. */
  function VerticalEdges(b: PageBuilder, region: Region, dy: nat): (r: PageBuilder)
    requires region.width >= 3 && region.height >= 3 && 1 <= dy <= region.height - 1
    ensures forall cx, cy | InGrid(cx, cy) ::
      r.cells[cy][cx] ==
        (if (cx == region.x || cx == region.x + region.width - 1)
            && region.y + dy <= cy < region.y + region.height - 1
         then NewCell('|', NONE) else b.cells[cy][cx])
    decreases region.height - dy
  {
    if dy == region.height - 1 then b
    else
      var b1 := WriteAt(b, region.x, region.y + dy, '|', NONE);
      var b2 := WriteAt(b1, region.x + region.width - 1, region.y + dy, '|', NONE);
      VerticalEdges(b2, region, dy + 1)
  }

  /** The four corners, written first. */
  function Corners(b: PageBuilder, region: Region): (r: PageBuilder)
    requires region.width >= 3 && region.height >= 3
    ensures forall cx, cy | InGrid(cx, cy) ::
      r.cells[cy][cx] ==
        (if (cx == region.x || cx == region.x + region.width - 1)
            && (cy == region.y || cy == region.y + region.height - 1)
         then NewCell('+', NONE) else b.cells[cy][cx])
  {
    var right := region.x + region.width - 1;
    var bottom := region.y + region.height - 1;
    WriteAt(WriteAt(WriteAt(WriteAt(b, region.x, region.y, '+', NONE), right, region.y, '+', NONE),
                    region.x, bottom, '+', NONE), right, bottom, '+', NONE)
  }

  /** Corners first, then the edges: the ring without its title. */
  function Border(b: PageBuilder, region: Region): (r: PageBuilder)
    requires region.width >= 3 && region.height >= 3
    ensures forall cx, cy | InGrid(cx, cy) ::
      r.cells[cy][cx] ==
        (if OnFrame(region, cx, cy) then NewCell(FrameChar(None, region, cx, cy), NONE) else b.cells[cy][cx])
  {
    var b1 := Corners(b, region);
    var b2 := HorizontalEdges(b1, region, 1);
    VerticalEdges(b2, region, 1)
  }

  /**
   * Corners, edges and title in the order the box draws them. Exactly the
   * ring cells change, and each shows its `FrameChar`: the title overwrites
   * dashes only, never a corner.
   */
  function DrawFrame(b: PageBuilder, title: Option<string>, region: Region): (r: PageBuilder)
    requires region.width >= 3 && region.height >= 3
    ensures forall cx, cy | InGrid(cx, cy) ::
      r.cells[cy][cx] ==
        (if OnFrame(region, cx, cy) then NewCell(FrameChar(title, region, cx, cy), NONE) else b.cells[cy][cx])
  {
    var bordered := Border(b, region);
    if title.Some? then
      WriteRun(bordered, region.x + 2, region.y, title.value[..TitleCount(region.width, title.value)], NONE)
    else bordered
  }

  /** Every widget that can sit in a box, rendered into a region; none writes outside it. */
  function RenderContent(b: PageBuilder, c: Content, region: Region): (r: PageBuilder)
    requires region.InPage()
    ensures Confined(b, r, region)
    decreases c
  {
    match c
    case LabelContent(l) => RenderLabel(b, l, region)
    case BlockContent(t) => RenderTextBlock(b, t, region)
    case KeyValueContent(kv) => RenderKeyValue(b, kv, region)
    case ParagraphContent(p) => RenderParagraph(b, p, region)
    case TableContent(t) => RenderTable(b, t, region)
    case BoxContent(bx) => RenderBox(b, bx, region)
  }

  /** The region one cell in from every side, where a box puts its content. */
  function Inner(region: Region): (inner: Region)
    requires region.InPage() && region.width >= 3 && region.height >= 3
    ensures inner.InPage()
    ensures forall cx, cy :: inner.Contains(cx, cy) <==> region.Contains(cx, cy) && !OnFrame(region, cx, cy)
  {
    var padded := WithPadding(region, 1, 1, 1, 1);
    padded.value
  }

  /**
   * `ASCIIBox::render`: nothing when the region is narrower or shorter
   * than 3. Otherwise every ring cell shows its frame character, unstyled,
   * the content is rendered into the inner region, and nothing outside the
   * region changes.
   */
  function RenderBox(b: PageBuilder, bx: ASCIIBox, region: Region): (r: PageBuilder)
    requires region.InPage()
    ensures region.width < 3 || region.height < 3 ==> r == b
    ensures Confined(b, r, region)
    ensures region.width >= 3 && region.height >= 3 ==> forall cx, cy | InGrid(cx, cy) && OnFrame(region, cx, cy) ::
      r.cells[cy][cx] == NewCell(FrameChar(bx.title, region, cx, cy), NONE)
    decreases bx
  {
    if region.width < 3 || region.height < 3 then b
    else
      var framed := DrawFrame(b, bx.title, region);
      var inner := Inner(region);
      RenderContent(framed, bx.content, inner)
  }

  /** A ring cell of a rendered box shows its frame character. */
  lemma FrameCell(b: PageBuilder, bx: ASCIIBox, region: Region, cx: int, cy: int)
    requires region.InPage() && region.width >= 3 && region.height >= 3
    requires InGrid(cx, cy) && OnFrame(region, cx, cy)
    ensures RenderBox(b, bx, region).cells[cy][cx] == NewCell(FrameChar(bx.title, region, cx, cy), NONE)
  {
  }

  /**
   * The title sits in the top edge from two cells right of the corner:
   * character i of it for each i below `TitleCount`, and a dash from there
   * to the top-right corner.
   */
  lemma TitleCells(b: PageBuilder, bx: ASCIIBox, region: Region, cx: int)
    requires region.InPage() && region.width >= 3 && region.height >= 3 && bx.title.Some?
    requires region.x + 2 <= cx < region.x + region.width - 1
    ensures var n := TitleCount(region.width, bx.title.value);
      var r := RenderBox(b, bx, region);
      (cx < region.x + 2 + n ==> r.cells[region.y][cx] == NewCell(bx.title.value[cx - region.x - 2], NONE))
      && (cx >= region.x + 2 + n ==> r.cells[region.y][cx] == NewCell('-', NONE))
  {
    FrameCell(b, bx, region, cx, region.y);
  }

  /**
   * A title longer than `width - 4` is cut, and the top edge resumes with
   * dashes after it: in a 10-wide box "Very Long Title ..." shows as
   * "Very L". `FrameCell` puts these characters on the page.
   */
  lemma BoxTitleTruncation(title: string, region: Region)
    requires title == "Very Long Title That Will Be Truncated"
    requires region == Region(0, 0, 10, 3)
    ensures FrameChar(Some(title), region, 2, 0) == 'V'
    ensures FrameChar(Some(title), region, 6, 0) == ' '
    ensures FrameChar(Some(title), region, 7, 0) == 'L'
    ensures FrameChar(Some(title), region, 8, 0) == '-'
  {
    assert title[0] == 'V' && title[4] == ' ' && title[5] == 'L' && |title| == 38;
    assert TitleCount(region.width, title) == 6;
  }

  /** A box of at least 3 by 3 is its frame with the content rendered inside. */
  lemma BoxUnfold(b: PageBuilder, bx: ASCIIBox, region: Region)
    requires region.InPage() && region.width >= 3 && region.height >= 3
    ensures RenderBox(b, bx, region) == RenderContent(DrawFrame(b, bx.title, region), bx.content, Inner(region))
  {
  }

  /** The inner region is the box shrunk by one cell on every side. */
  lemma InnerShape(region: Region)
    requires region.InPage() && region.width >= 3 && region.height >= 3
    ensures Inner(region) == Region(region.x + 1, region.y + 1, region.width - 2, region.height - 2)
  {
  }

  /** Content starts one cell in from the top-left corner. */
  lemma BoxContentInside(b: PageBuilder, bx: ASCIIBox, region: Region)
    requires bx == NewBox(LabelContent(NewTextLabel("Hi")))
    requires region == Region(0, 0, 6, 3)
    ensures At(RenderBox(b, bx, region), 1, 1) == NewCell('H', NONE)
    ensures At(RenderBox(b, bx, region), 2, 1) == NewCell('i', NONE)
  {
    var framed := DrawFrame(b, None, region);
    BoxUnfold(b, bx, region);
    InnerShape(region);
    LabelHi(framed, bx.content.textLabel, Inner(region));
  }

  lemma LabelHi(b: PageBuilder, l: TextLabel, region: Region)
    requires l == NewTextLabel("Hi") && region == Region(1, 1, 4, 1)
    ensures At(RenderLabel(b, l, region), 1, 1) == NewCell('H', NONE)
    ensures At(RenderLabel(b, l, region), 2, 1) == NewCell('i', NONE)
  {
    assert l.text[0] == 'H' && l.text[1] == 'i' && l.style == NONE;
    TakeCountHi();
    assert InGrid(1, 1) && InGrid(2, 1);
  }

  lemma TakeCountHi()
    ensures TakeCount(4, "Hi") == 2
  {
    assert IsAscii("Hi");
  }
}
