/**
 * Region-based content widgets that write text into a rectangle of a page
 * builder: a one-line label, a block of lines, a key/value list and a
 * word-wrapped paragraph. Each writes only inside its region.
 */
module RegionWidgets {
  import opened Base
  import opened Cells
  import opened Text
  import opened Regions
  import opened Pages
  import opened Wrapping

  /** No cell outside the region changed. */
  ghost predicate Confined(before: PageBuilder, after: PageBuilder, region: Region)
  {
    forall cx, cy | InGrid(cx, cy) && !region.Contains(cx, cy) :: after.cells[cy][cx] == before.cells[cy][cx]
  }

  /**
   * `min(width, text.len() as u16)` characters of the text, where `len` is
   * the UTF-8 byte length; `chars().take` never yields more than the text has.
   */
  function TakeCount(width: U16, text: string): (n: nat)
    ensures n <= width && n <= |text|
    ensures IsAscii(text) && |text| <= U16_MAX ==> n == Min(width, |text|)
  {
    if IsAscii(text) then
      AsciiUtf8Len(text);
      Min(Min(width, TruncU16(Utf8Len(text))), |text|)
    else
      Min(Min(width, TruncU16(Utf8Len(text))), |text|)
  }

  /**
   * `write_at` for each character at consecutive columns of row y. Unlike
   * `write_str` it does not stop at the page edge; writes past it are
   * ignored by `write_at`.
   */
  function WriteRun(b: PageBuilder, x: nat, y: nat, chars: string, style: StyleFlags): (r: PageBuilder)
    ensures forall cx, cy | InGrid(cx, cy) ::
      r.cells[cy][cx] ==
        (if cy == y && x <= cx < x + |chars| then NewCell(chars[cx - x], style) else b.cells[cy][cx])
    decreases |chars|
  {
    if |chars| == 0 then b
    else WriteRun(WriteAt(b, x, y, chars[0], style), x + 1, y, chars[1..], style)
  }

  /** Characters drawn of one line: truncated to the region width, or the whole line. */
  function LineCount(line: string, width: U16, truncate: bool): (n: nat)
    ensures n <= |line|
  {
    if truncate then TakeCount(width, line) else |line|
  }

  /**
   * The shared row loop of the multi-line widgets: line i goes on row
   * `region.y + i` from column `region.x`, for i below the region height;
   * later lines are dropped.
   */
  function DrawRows(b: PageBuilder, lines: seq<string>, region: Region, style: StyleFlags, truncate: bool, i: nat): (r: PageBuilder)
    requires i <= |lines|
    ensures forall cx, cy | InGrid(cx, cy) ::
      r.cells[cy][cx] ==
        (if region.y + i <= cy < region.y + Min(region.height, |lines|)
            && region.x <= cx < region.x + LineCount(lines[cy - region.y], region.width, truncate)
         then NewCell(lines[cy - region.y][cx - region.x], style)
         else b.cells[cy][cx])
    decreases |lines| - i
  {
    if i == |lines| || i >= region.height then b
    else
      var line := lines[i];
      var b1 := WriteRun(b, region.x, region.y + i, line[..LineCount(line, region.width, truncate)], style);
      DrawRows(b1, lines, region, style, truncate, i + 1)
  }

  /** Drawn lines no wider than the region stay inside it. */
  lemma DrawRowsConfined(b: PageBuilder, lines: seq<string>, region: Region, style: StyleFlags, truncate: bool)
    requires forall k | 0 <= k < |lines| :: LineCount(lines[k], region.width, truncate) <= region.width
    ensures Confined(b, DrawRows(b, lines, region, style, truncate, 0), region)
  {
    var r := DrawRows(b, lines, region, style, truncate, 0);
    forall cx, cy | InGrid(cx, cy) && !region.Contains(cx, cy)
      ensures r.cells[cy][cx] == b.cells[cy][cx]
    {
      if region.y <= cy < region.y + Min(region.height, |lines|) {
        assert LineCount(lines[cy - region.y], region.width, truncate) <= region.width;
      }
    }
  }

  // ---------------------------------------------------------------------
  // Label

  datatype TextLabel = TextLabel(text: string, style: StyleFlags)

  /** `Label::new`: the text, unstyled. */
  function NewTextLabel(text: string): (l: TextLabel)
    ensures l.text == text && l.style == NONE
  {
    TextLabel(text, NONE)
  }

  /** `with_style` replaces the style (it does not combine with the old one). */
  function LabelWithStyle(l: TextLabel, style: StyleFlags): (r: TextLabel)
    ensures r.text == l.text && r.style == style
  {
    l.(style := style)
  }

  /**
   * `Label::render`: nothing for an empty region; otherwise the first
   * `min(width, len)` characters on the region's first row, in the label's
   * style, and nothing else.
   */
  function RenderLabel(b: PageBuilder, l: TextLabel, region: Region): (r: PageBuilder)
    ensures region.width == 0 || region.height == 0 ==> r == b
    ensures Confined(b, r, region)
    ensures region.width > 0 && region.height > 0 ==> forall cx, cy | InGrid(cx, cy) ::
      r.cells[cy][cx] ==
        (if cy == region.y && region.x <= cx < region.x + TakeCount(region.width, l.text)
         then NewCell(l.text[cx - region.x], l.style)
         else b.cells[cy][cx])
  {
    if region.width == 0 || region.height == 0 then b
    else WriteRun(b, region.x, region.y, l.text[..TakeCount(region.width, l.text)], l.style)
  }

  /** A long label is cut at the region's width. */
  lemma LabelTruncates()
    ensures var r := RenderLabel(NewBuilder(), NewTextLabel("Hello, World"), Region(0, 0, 5, 1));
      r.cells[0][4] == NewCell('o', NONE) && r.cells[0][5] == EMPTY
  {
    var text := "Hello, World";
    assert IsAscii(text);
    assert TakeCount(5, text) == 5;
    var r := RenderLabel(NewBuilder(), NewTextLabel(text), Region(0, 0, 5, 1));
    assert InGrid(4, 0) && InGrid(5, 0);
    assert r.cells[0][4] == NewCell(text[4], NONE);
  }

  // ---------------------------------------------------------------------
  // TextBlock

  datatype TextBlock = TextBlock(lines: seq<string>)

  /** `TextBlock::new`: the lines as given. */
  function NewTextBlock(lines: seq<string>): (t: TextBlock)
    ensures t.lines == lines
  {
    TextBlock(lines)
  }

  /** `TextBlock::from_text`: the text's lines, as `str::lines` splits them. */
  function TextBlockFromText(text: string): (t: TextBlock)
    ensures (|t.lines| == 0) == (|text| == 0)
  {
    TextBlock(Lines(text))
  }

  lemma FromTextExample()
    ensures TextBlockFromText("Line 1\nLine 2\nLine 3").lines == ["Line 1", "Line 2", "Line 3"]
  {
    assert "Line 1\nLine 2\nLine 3" == "Line 1" + "\n" + ("Line 2" + "\n" + "Line 3");
    LinesOfThree("Line 1", "Line 2", "Line 3");
    assert StripCr("Line 1") == "Line 1" && StripCr("Line 2") == "Line 2";
  }

  /**
   * `TextBlock::render`: line i on row `region.y + i` for i below the region
   * height, each cut to `min(width, len)` characters, unstyled.
   */
  function RenderTextBlock(b: PageBuilder, t: TextBlock, region: Region): (r: PageBuilder)
    ensures region.width == 0 || region.height == 0 ==> r == b
    ensures Confined(b, r, region)
    ensures region.width > 0 && region.height > 0 ==> ShowsTruncated(b, r, t.lines, region, NONE)
  {
    if region.width == 0 || region.height == 0 then b
    else
      DrawTruncated(b, t.lines, region, NONE)
  }

  // ---------------------------------------------------------------------
  // KeyValueList

  datatype KeyValueList = KeyValueList(entries: seq<(string, string)>, separator: string)

  /** `KeyValueList::new`: the default separator is ": ". */
  function NewKeyValueList(entries: seq<(string, string)>): (kv: KeyValueList)
    ensures kv.entries == entries && kv.separator == ": "
  {
    KeyValueList(entries, ": ")
  }

  /** `with_separator` replaces the separator. */
  function WithSeparator(kv: KeyValueList, separator: string): (r: KeyValueList)
    ensures r.entries == kv.entries && r.separator == separator
  {
    kv.(separator := separator)
  }

  /** The line of entry i: key, separator, value. */
  function EntryLine(kv: KeyValueList, i: nat): string
    requires i < |kv.entries|
  {
    kv.entries[i].0 + kv.separator + kv.entries[i].1
  }

  function EntryLines(kv: KeyValueList): (ls: seq<string>)
    ensures |ls| == |kv.entries|
    ensures forall i | 0 <= i < |ls| :: ls[i] == EntryLine(kv, i)
  {
    seq(|kv.entries|, i requires 0 <= i < |kv.entries| => EntryLine(kv, i))
  }

  /**
   * `KeyValueList::render`: entry i as "key{separator}value" on row
   * `region.y + i` for i below the region height, cut to the region width,
   * unstyled.
   */
  function RenderKeyValue(b: PageBuilder, kv: KeyValueList, region: Region): (r: PageBuilder)
    ensures region.width == 0 || region.height == 0 ==> r == b
    ensures Confined(b, r, region)
    ensures region.width > 0 && region.height > 0 ==> ShowsTruncated(b, r, EntryLines(kv), region, NONE)
  {
    if region.width == 0 || region.height == 0 then b
    else
      DrawTruncated(b, EntryLines(kv), region, NONE)
  }

  // ---------------------------------------------------------------------
  // Paragraph

  /** Lines cut to the region width, drawn from its first row. */
  function DrawTruncated(b: PageBuilder, lines: seq<string>, region: Region, style: StyleFlags): (r: PageBuilder)
    ensures Confined(b, r, region)
    ensures ShowsTruncated(b, r, lines, region, style)
  {
    DrawRowsConfined(b, lines, region, style, true);
    DrawRows(b, lines, region, style, true, 0)
  }

  /**
   * The first `TakeCount` characters of line i sit on row `region.y + i`,
   * from the left edge, for i below the region height; every other cell is
   * as before.
   */
  ghost predicate ShowsTruncated(b: PageBuilder, r: PageBuilder, lines: seq<string>, region: Region, style: StyleFlags)
  {
    forall cx, cy | InGrid(cx, cy) ::
      r.cells[cy][cx] ==
        (if region.y <= cy < region.y + Min(region.height, |lines|)
            && region.x <= cx < region.x + TakeCount(region.width, lines[cy - region.y])
         then NewCell(lines[cy - region.y][cx - region.x], style)
         else b.cells[cy][cx])
  }

  /** Lines no wider than the region, drawn whole from its first row. */
  function DrawWhole(b: PageBuilder, lines: seq<string>, region: Region, style: StyleFlags): (r: PageBuilder)
    requires forall i | 0 <= i < |lines| :: |lines[i]| <= region.width
    ensures Confined(b, r, region)
    ensures ShowsLines(b, r, lines, region, style)
  {
    assert forall k | 0 <= k < |lines| :: LineCount(lines[k], region.width, false) <= region.width;
    DrawRowsConfined(b, lines, region, style, false);
    DrawRows(b, lines, region, style, false, 0)
  }

  /**
   * Line i sits on row `region.y + i`, from the left edge, for i below the
   * region height; every other cell is as before.
   */
  ghost predicate ShowsLines(b: PageBuilder, r: PageBuilder, lines: seq<string>, region: Region, style: StyleFlags)
  {
    forall cx, cy | InGrid(cx, cy) ::
      r.cells[cy][cx] ==
        (if region.y <= cy < region.y + Min(region.height, |lines|)
            && region.x <= cx < region.x + |lines[cy - region.y]|
         then NewCell(lines[cy - region.y][cx - region.x], style)
         else b.cells[cy][cx])
  }

  datatype Paragraph = Paragraph(text: string, style: StyleFlags)

  /** `Paragraph::new`: the text, unstyled. */
  function NewParagraph(text: string): (p: Paragraph)
    ensures p.text == text && p.style == NONE
  {
    Paragraph(text, NONE)
  }

  /** `with_style` replaces the style. */
  function ParagraphWithStyle(p: Paragraph, style: StyleFlags): (r: Paragraph)
    ensures r.text == p.text && r.style == style
  {
    p.(style := style)
  }

  /**
   * `Paragraph::render`: the text wrapped to the region width; wrapped line i
   * on row `region.y + i` for i below the region height, in the paragraph's
   * style. Wrapped lines are never wider than the region, so nothing is
   * written outside it.
   */
  function RenderParagraph(b: PageBuilder, p: Paragraph, region: Region): (r: PageBuilder)
    ensures region.width == 0 || region.height == 0 ==> r == b
    ensures Confined(b, r, region)
    ensures region.width > 0 && region.height > 0 ==> ShowsLines(b, r, WrapText(p.text, region.width), region, p.style)
  {
    if region.width == 0 || region.height == 0 then b
    else
      DrawWhole(b, WrapText(p.text, region.width), region, p.style)
  }
}
