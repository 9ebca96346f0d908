# escp-layout in Dafny

A model of the core of `escp-layout`. It is a deterministic layout engine
for a fixed 160 × 51 character page on an Epson dot-matrix printer,
with three parts:

- a serializer that turns a multi-page document into an Epson ESC/P byte
  stream, using ESC @, SI, ESC E / ESC F, ESC - n, CR, LF and FF;
- a thin ESC/P2 command driver;
- the widget and region machinery that fills pages.

Every part is pure once I/O is taken away, so each operation is a Dafny
function over immutable datatypes:

- **Values.** A `Cell` holds one normalised printable byte and a two-bit
  style. A `Region` is a bounds-checked rectangle on the page. A page is a
  51 × 160 grid of cells, written as `seq<seq<Cell>>` with its size as an
  invariant.
- **Serializer.** `Escp` models the style state machine and
  `render_document` byte for byte. `EscpDecode` gives the byte stream a
  meaning:
  - a decoder reads the stream back into commands;
  - a small printer executes those commands into printed sheets.

  `EscpProofs` then proves that the printer reproduces every page exactly.
- **Widget tree.**
  - `WidgetTree` models the composable tree: `Rect` containers with
    validated children, and single-line `Label`s.
  - `Layouts` models the `Column`/`Row` cursors and the `Stack`.
  - `WidgetRender` models depth-first rendering through a `RenderContext`
    that checks only the start of each write.
- **Region-based widgets.**
  - `RegionWidgets` models `Label`, `TextBlock`, `KeyValueList` and
    `Paragraph`.
  - `Wrapping` models the greedy word wrap.
  - `Tables` models `Table` and `Boxes` models `ASCIIBox`.
  - The common property is that a widget never writes outside its region.
- **Driver.**
  - `Status` models the DLE EOT status byte.
  - `Printers` models the connection, as a log of the bytes sent.
  - `Commands` models every command encoder and its validation. It also
    holds a parser for the same byte language, with the proof that each
    command is read back from its encoding.

The helper modules are:
- `Base`: options, results, 16-bit and 8-bit ranges, and Rust's
  checked and saturating arithmetic;
- `Seqs`: sequence identities;
- `Text`: UTF-8 length, `split_whitespace` and `lines`;
- `Words`: little-endian and two's-complement parameters.

Bytes are integers in 0..255 (`U8`). Two values are `bv8`, because the
source defines them by bit masks: the status byte read by `from_byte` and
the two style bits of a cell (`StyleBits`).

### Where the code and its documentation differ (the model follows the code)

- **Initialisation.** The serializer's initialisation is the three bytes
  1B 40 0F. Some example programs and one integration test assume an
  extra ESC C 50 page-length command, which `render_document` does not
  emit.
- **Zero-size splits.** `split_vertical` and `split_horizontal` accept a
  split at 0 or at the full size, and hand back a zero-size region.
  `Region::new` would reject such a region.
- **`add_child` errors.** `Rect::add_child` is documented as possibly
  returning `OutOfBounds`, but it never does. `WidgetTree.AddChild`
  proves this.
- **Style reset position.** The per-row style reset is emitted after CR LF,
  not before.
- **No rollback.** Widget rendering stops at the first error without
  rolling back. Cells written by earlier children stay in the page
  builder (`WidgetRender.PageRender`, `WidgetRender.TallRootFails`).

## Model

| member | source | states |
|---|---|---|
| Base.CheckedAdd16 | src/region.rs:54-68 | `checked_add` on u16: present exactly when the sum fits in 16 bits, and then it is the sum |
| Base.SaturatingAdd16 | src/region.rs:253-254 | `saturating_add` on u16: the sum when it fits, otherwise 65535, and never more than the true sum |
| Base.SaturatingSub16 | src/region.rs:258-259 | `saturating_sub` on u16: the difference when it is non-negative, otherwise 0 |
| Base.TruncU16 | src/widget/label.rs:99 | the `as u16` cast: the unique 16-bit value congruent to the argument modulo 65536, so the identity below 65536 |
| Cells.StyleConstants | src/cell.rs:12-30 | NONE has neither flag, BOLD only bold, UNDERLINE only underline |
| Cells.WithBold | src/cell.rs:34-36 | `with_bold` sets bold and leaves underline as it was |
| Cells.WithUnderline | src/cell.rs:40-42 | `with_underline` sets underline and leaves bold as it was |
| Cells.StyleOf | src/cell.rs:8-30 | the style with given bold and underline flags reports exactly those flags |
| Cells.StyleDeterminedByFlags | src/cell.rs:8-30 | a style is determined by its two flags, so style equality is flag equality |
| Cells.StyleBuildersCommute | src/cell.rs:145-149 | `with_bold` and `with_underline` are idempotent and commute |
| Cells.NewCell | src/cell.rs:81-90 | `Cell::new` stores the character's byte exactly when it is ASCII 32..126, otherwise `?`, and keeps the style |
| Cells.NewCellEquality | src/cell.rs:180-187 | two cells built from printable characters are equal exactly when character and style are equal |
| Regions.New | src/region.rs:47-85 | `Region::new` succeeds exactly when both sizes are non-zero and the rectangle fits in 160 × 51; zero size gives `InvalidDimensions`, checked first, and anything else `RegionOutOfBounds` |
| Regions.FullPage | src/region.rs:98-105 | the full page contains exactly the cells of the 160 × 51 grid |
| Regions.SplitVertical | src/region.rs:150-175 | fails with `InvalidSplit(height, h)` exactly when h > height; otherwise the two parts keep the width, the top is h high at (x, y), the bottom starts at (x, y + h) and the heights add up |
| Regions.SplitHorizontal | src/region.rs:196-221 | the same on the x axis: fails exactly when w > width; otherwise the left part is w wide at (x, y), the right part starts at (x + w, y), the widths add up and the heights are kept |
| Regions.SplitVerticalTiles | src/region.rs:158-174 | top and bottom cover the parent exactly, without overlap |
| Regions.SplitHorizontalTiles | src/region.rs:204-220 | left and right cover the parent exactly, without overlap |
| Regions.WithPadding | src/region.rs:246-272 | fails exactly when the saturating horizontal or vertical padding reaches the size, with the saturating remainders as error; on success the result is non-empty and contains exactly the parent's cells inside the padding |
| Regions.RegionExamples | src/region.rs:280-373 | the unit tests: valid and invalid `new`, zero dimensions, the padding and split cases |
| Pages.NewBuilder | src/page.rs:67-71 | every cell of a fresh builder is `Cell::EMPTY` |
| Pages.WriteAt | src/page.rs:89-95 | writing inside the grid sets exactly that cell to `Cell::new(ch, style)`; off the grid nothing changes |
| Pages.WriteStr | src/page.rs:109-119 | character i lands at column x+i of row y while that is on the grid; no other cell changes |
| Pages.FillRow | src/page.rs:141-143 | the inner loop of `fill_region` sets exactly the row's cells in the column range |
| Pages.FillRows | src/page.rs:140-144 | the outer loop sets exactly the region's cells from the given row down |
| Pages.FillRegion | src/page.rs:134-146 | every cell of the region becomes `Cell::new(ch, style)` and no cell outside it changes |
| Pages.Build | src/page.rs:220-222 | `build` keeps every cell |
| Pages.GetCell | src/page.rs:44-50 | `get_cell` is present exactly for coordinates on the grid, and then it is the page's cell at row y, column x |
| Pages.WriteThenGet | src/page.rs:89-95 | reading a cell back after `write_at` gives the new cell at the written position and the old one elsewhere |
| Pages.WriteStrThenGet | src/page.rs:109-119 | reading back after `write_str` of printable text gives the text's characters |
| Pages.WriteStrExample | src/page.rs:256-266 | "Hello" written at the origin reads back H at 0 and o at 4 |
| Pages.WriteStrClipExample | src/page.rs:268-278 | 200 A's are clipped, and column 159 holds an A |
| Pages.FillRegionExample | src/page.rs:280-297 | a 5 × 3 fill covers (4, 2) and leaves (5, 0) and (0, 3) empty |
| Pages.OffGridExample | src/page.rs:247-254 | a write at column 200 changes nothing and `get_cell(200, 0)` is none |
| Documents.NewDocumentBuilder | src/document.rs:69-71 | a new builder holds no pages |
| Documents.AddPage | src/document.rs:87-90 | `add_page` appends the page after the existing ones |
| Documents.AddPagesOrder | src/document.rs:87-90 | adding pages one by one keeps them in insertion order |
| Documents.BuildDocument | src/document.rs:105-107 | `build` keeps the page sequence, and the page count is its length |
| Documents.PageCount | src/document.rs:33-35 | `page_count` is the number of pages |
| Documents.Render | src/document.rs:57-59 | the rendered bytes decode and print as exactly the document's pages, and hold one form feed per page |
| Documents.BuiltDocument | src/document.rs:105-107 | building from a page list keeps the list, counts it, and renders as `render_document` of it |
| Documents.EmptyDocumentRender | src/document.rs:165-169 | an empty document renders to exactly 1B 40 0F |
| Escp.CodesAvoidFormFeed | src/escp/constants.rs:4-28 | no initialisation or style code contains 0C, and CR and LF differ from FF |
| Escp.Transition | src/escp/state.rs:26-49 | `transition_to` ends in the target style, emits nothing exactly when the state already matches, starts with the bold code when bold changes and ends with the underline code when underline changes |
| Escp.Reset | src/escp/state.rs:52-61 | `reset` ends with both flags off, emits nothing exactly when they were off, and starts with bold-off when bold was on |
| Escp.RenderLine | src/escp/renderer.rs:48-56 | a line ends in the style of its last cell and emits at least one byte per cell |
| Escp.RenderRow | src/escp/renderer.rs:36-43 | a row, with CR LF and the reset, ends with both flags off |
| Escp.RenderRows | src/escp/renderer.rs:35-44 | after any non-empty run of rows both flags are off, and rows of 160 cells take at least 162 bytes each |
| Escp.RenderPage | src/escp/renderer.rs:31-45 | a page's 51 rows of 160 cells render to at least 51 × 162 bytes |
| EscpProofs.RenderPageRoundTrip | src/escp/renderer.rs:31-45 | a page's bytes hold no form feed, and after ESC @ SI and before one FF they print exactly that page as one sheet |
| Escp.RenderDocument | src/escp/renderer.rs:13-28 | the output starts with 1B 40 0F, and an empty document is exactly those bytes |
| Escp.RenderDocumentAppend | src/escp/renderer.rs:21-25 | one more page appends that page's bytes and one FF |
| EscpDecode.Encode | src/escp/constants.rs:4-28 | each serializer command is one to three bytes, none ending in ESC |
| EscpDecode.EncodeAllAppend | src/escp/renderer.rs:13-28 | encoding distributes over concatenation of command lists |
| EscpDecode.DecodeOne | src/escp/constants.rs:4-28 | a decoded command and its length are exactly a prefix of the stream |
| EscpDecode.DecodeOneEncode | src/escp/constants.rs:4-28 | every command is read back from its own bytes, whatever follows |
| EscpDecode.DecodeEncode | src/escp/constants.rs:4-28 | decoding the encoding of any command list gives the list back |
| EscpDecode.EncodeDecode | src/escp/constants.rs:4-28 | a stream that decodes is the encoding of what it decodes to |
| EscpDecode.DecodeAppend | src/escp/renderer.rs:13-28 | decoding distributes over concatenation of decodable streams |
| EscpDecode.CommandCounts | src/escp/constants.rs:10-28 | only FF contains 0C, only bold-on contains 1B 45, only bold-off contains 1B 46 |
| EscpDecode.FormFeedBytes | src/escp/constants.rs:28 | the 0C bytes of an encoding are exactly its form-feed commands |
| EscpDecode.BoldOnWindows | src/escp/constants.rs:10 | the 1B 45 pairs of an encoding are exactly its bold-on commands |
| EscpDecode.BoldOffWindows | src/escp/constants.rs:13 | the 1B 46 pairs of an encoding are exactly its bold-off commands |
| EscpDecode.Put | src/escp/renderer.rs:54 | the printer puts a cell at the carriage column and leaves the other columns alone |
| EscpDecode.ExecuteAppend | src/escp/renderer.rs:13-28 | running two command lists is running the first and then the second |
| EscpDecode.SheetsCountFormFeeds | src/escp/renderer.rs:24 | each form feed ejects exactly one sheet |
| EscpDecode.Run | src/escp/renderer.rs:13-28 | a byte stream runs on the printer exactly when it decodes |
| EscpProofs.TransitionEncodes | src/escp/state.rs:26-49 | the transition bytes are the encoding of its bold and underline commands |
| EscpProofs.ResetEncodes | src/escp/state.rs:52-61 | the reset bytes are the encoding of its off commands |
| EscpProofs.LineEncodes | src/escp/renderer.rs:48-56 | a line's bytes are the encoding of transitions and printed characters |
| EscpProofs.RowEncodes | src/escp/renderer.rs:35-44 | a row's bytes are the line, CR, LF, then the reset |
| EscpProofs.RowsEncode | src/escp/renderer.rs:35-44 | a page's rows are encoded row after row |
| EscpProofs.PagesEncode | src/escp/renderer.rs:21-25 | the pages are encoded page after page, each followed by FF |
| EscpProofs.DocumentEncodes | src/escp/renderer.rs:13-28 | `render_document` is the encoding of its command list |
| EscpProofs.DocumentDecodes | src/escp/renderer.rs:13-28 | the rendered bytes decode to the document's command list |
| EscpProofs.ExecuteTransition | src/escp/state.rs:26-49 | on a printer in the state's style, a transition leaves the printer in the target style |
| EscpProofs.ExecuteReset | src/escp/state.rs:52-61 | on a printer in the state's style, a reset turns both flags off |
| EscpProofs.ExecutePrint | src/escp/renderer.rs:54 | printing a character in the current style appends that cell to the line |
| EscpProofs.ExecuteFirstCell | src/escp/renderer.rs:49-55 | the first cell of a line is printed in its own style before the rest |
| EscpProofs.ExecuteLine | src/escp/renderer.rs:48-56 | a rendered line prints exactly its cells, in their styles |
| EscpProofs.ExecuteRow | src/escp/renderer.rs:35-44 | a rendered row adds exactly that row to the sheet and returns to column 0 with styles off |
| EscpProofs.ExecuteRows | src/escp/renderer.rs:35-44 | a page's rows add exactly those rows, in order |
| EscpProofs.Sheets | src/page.rs:53-55 | the sheets of a document are its pages' grids, in order |
| EscpProofs.ExecutePage | src/escp/renderer.rs:21-25 | a page followed by FF ejects exactly that page's grid |
| EscpProofs.ExecutePages | src/escp/renderer.rs:21-25 | the pages eject exactly their grids, in order |
| EscpProofs.ExecuteDocument | src/escp/renderer.rs:13-28 | from power-on, the document's commands print exactly its pages and leave the printer idle with styles off |
| EscpProofs.RenderDocumentRoundTrip | src/escp/renderer.rs:13-28 | the rendered bytes, run on a freshly powered printer, print exactly the document's pages |
| EscpProofs.RenderDocumentInjective | src/escp/renderer.rs:143-158 | equal output means equal documents, so the output determines the pages |
| EscpProofs.FormFeedCount | src/escp/renderer.rs:21-25 | the number of 0C bytes equals the number of pages |
| EscpProofs.TransitionBoldCount | src/escp/state.rs:30-38 | a transition emits bold-on exactly when bold turns on and bold-off exactly when it turns off |
| EscpProofs.LineBoldCommands | src/escp/renderer.rs:48-56 | a line's bold-on and bold-off counts are its bold starts and bold ends |
| EscpProofs.LineEndsBold | src/escp/renderer.rs:48-56 | a line leaves bold on exactly when its last cell is bold |
| EscpProofs.StartsBalanceEnds | src/escp/renderer.rs:42-43 | bold starts and bold ends balance once the final reset is counted |
| EscpProofs.RowBoldCodes | src/escp/renderer.rs:35-56 | a row emits exactly one 1B 45 and one 1B 46 per maximal run of bold cells |
| EscpProofs.BoldStartsAppend | src/escp/state.rs:30-38 | bold starts of a concatenation add up, the second part starting from the first part's last style |
| EscpProofs.BoldStretch | src/escp/state.rs:30-38 | an all-bold stretch starts bold at most once |
| EscpProofs.PlainStretch | src/escp/state.rs:30-38 | an all-plain stretch never starts bold |
| EscpProofs.FiveBoldCells | tests/integration/style_tests.rs:94-129 | five adjacent bold cells give exactly one 1B 45 and one 1B 46 |
| EscpProofs.SplitBoldRun | tests/integration/style_tests.rs:254-305 | bold, bold, plain, bold, bold gives two 1B 45 |
| EscpProofs.PlainLine | src/escp/renderer.rs:48-56 | a plain line is one byte per cell, with no ESC |
| EscpProofs.PlainRows | src/escp/renderer.rs:35-44 | plain 160-cell rows are 162 bytes each, with no ESC |
| EscpProofs.PlainPage | tests/integration/style_tests.rs:201-226 | an all-NONE page is exactly 51 × 162 bytes with no style code |
| EscpProofs.EmptyDocument | src/escp/renderer.rs:63-74 | the empty document is 1B 40 0F and holds no form feed |
| WidgetTree.NewNode | src/widget/tree.rs:35-42 | a node records the child's declared size and the given position |
| WidgetTree.NewRect | src/widget/rect.rs:53-60 | a new container has no children and the given size, and is well formed |
| WidgetTree.CheckExisting | src/widget/rect.rs:133-162 | the overlap scan fails only with overflow or overlap; it passes exactly when no existing child strictly overlaps; it names the first overlapping child |
| WidgetTree.WFEdgesFit | src/widget/rect.rs:134-143 | in a well-formed container no existing child's edge overflows |
| WidgetTree.AddChild | src/widget/rect.rs:91-168 | overflow first (x, then y), then containment, then overlap; on failure the container is unchanged, on success the child is appended; never `OutOfBounds`; preserves well-formedness, and succeeds exactly when the child fits and overlaps nothing |
| WidgetTree.AddChildNamesFirstOverlap | src/widget/rect.rs:151-160 | an overlap error names the first overlapping child as child1 and the new child as child2 |
| WidgetTree.AddChildren | src/widget/rect.rs:91-168 | a sequence of `add_child` calls keeps the container's size |
| WidgetTree.AddChildrenKeepsWF | src/widget/rect.rs:121-167 | after any sequence of calls, children lie inside the container and do not overlap |
| WidgetTree.NewLabel | src/widget/label.rs:66-73 | a new label has no text, NONE style, and height 1 |
| WidgetTree.AddText | src/widget/label.rs:93-114 | accepted exactly when the byte length fits the width and there is no newline, and then stored unchanged; otherwise `TextExceedsWidth` with the byte length |
| WidgetTree.LabelBold | src/widget/label.rs:130-133 | `bold` sets bold, keeps underline and the text |
| WidgetTree.LabelUnderline | src/widget/label.rs:149-152 | `underline` sets underline, keeps bold and the text |
| WidgetTree.LabelStyleOrder | src/widget/label.rs:130-152 | `bold` and `underline` commute and are idempotent |
| WidgetTree.LabelExamples | src/widget/label.rs:97-110 | "Hello" fits width 5 and not 4; "a\nb" is rejected; a lone "\r" is accepted |
| WidgetTree.AddChildExamples | tests/widget_basic_test.rs:73-103 | touching labels are accepted, overlapping ones are rejected naming both, and the exceed and overflow cases |
| Layouts.NewColumn | src/widget/layout/column.rs:36-38 | a new column starts at row 0 |
| Layouts.ColumnArea | src/widget/layout/column.rs:60-75 | fails with `InsufficientSpace(remaining, h, "Column")` exactly when h does not fit, state unchanged; otherwise an empty width × h container at (0, cursor), cursor advanced by h |
| Layouts.ColumnAreas | src/widget/layout/column.rs:61-74 | the cursor stays within the height across any sequence of requests |
| Layouts.ColumnAreasContiguous | src/widget/layout/column.rs:61-74 | successive column areas are contiguous from the start cursor to the end cursor |
| Layouts.ContiguousDisjoint | src/widget/layout/column.rs:69-72 | contiguous areas are pairwise disjoint and ordered |
| Layouts.ContiguousBounds | src/widget/layout/column.rs:61-67 | contiguous areas stay between the start and end cursors |
| Layouts.ColumnExamples | examples/05_column_layout.rs:133-153 | three areas of 10 in a 30-high column succeed at rows 0, 10, 20, and a further area of 1 fails |
| Layouts.NewRow | src/widget/layout/row.rs:36-38 | a new row starts at column 0 |
| Layouts.RowArea | src/widget/layout/row.rs:60-75 | fails with `InsufficientSpace(remaining, w, "Row")` exactly when w does not fit, state unchanged; otherwise an empty w × height container at (cursor, 0), cursor advanced by w |
| Layouts.RowAreas | src/widget/layout/row.rs:61-74 | the cursor stays within the width across any sequence of requests |
| Layouts.RowAreasContiguous | src/widget/layout/row.rs:61-74 | successive row areas are contiguous |
| Layouts.RowExamples | examples/06_row_layout.rs:142-156 | in a width-80 row, 30 and 40 succeed and a further 20 is rejected with 10 remaining |
| Layouts.NewStack | src/widget/layout/stack.rs:31-33 | a stack only records its size |
| Layouts.StackArea | src/widget/layout/stack.rs:48-52 | `area` is an empty full-size container at the origin, which an empty container of that size accepts |
| Layouts.StackLayersOverlap | examples/07_stack_layout.rs:192-193 | a second stack layer in the same container is rejected as overlapping, and the container is unchanged |
| Layouts.ColumnAreasFitParent | src/widget/layout/column.rs:60-75 | two column areas that fit are both accepted by a container of the column's size |
| WidgetRender.NewContext | src/widget/context.rs:57-62 | a new context has clip bounds (0, 0, 160, 51) |
| WidgetRender.WriteStyled | src/widget/context.rs:134-153 | fails with `OutOfBounds(position, clip)` exactly when the start is outside, leaving the page alone; otherwise it is `write_str` with the style |
| WidgetRender.WriteText | src/widget/context.rs:92-106 | the same with NONE style |
| WidgetRender.RenderTo | src/widget/rect.rs:175-186 | rendering never changes the clip bounds |
| WidgetRender.RenderChildren | src/widget/rect.rs:181-184 | the children loop never changes the clip bounds |
| WidgetRender.RunWrites | src/widget/label.rs:166-171 | a run of label writes never changes the clip bounds |
| WidgetRender.RunWritesAppend | src/widget/rect.rs:181-184 | running two write lists stops at the first failure of the first, or continues with the second |
| WidgetRender.RenderToRunsWrites | src/widget/rect.rs:175-186 | rendering a tree is running its labels' writes in depth-first order at cumulative offsets |
| WidgetRender.RenderChildrenRunsWrites | src/widget/rect.rs:181-184 | rendering children from index i is running their writes in insertion order |
| WidgetRender.RunWritesAllStart | src/widget/context.rs:94-104 | if every write starts inside the clip, all of them land and the result is success |
| WidgetRender.RunWritesFirstOutside | src/widget/context.rs:94-99 | the first write starting outside fails with `OutOfBounds`; earlier writes stay, later ones are not done |
| WidgetRender.PageRender | src/page.rs:199-205 | `render` succeeds exactly when every write starts on the page, and then applies all of them; otherwise it keeps the writes before the first outside one and reports it |
| WidgetRender.FirstOutside | src/widget/context.rs:94-99 | the first write that starts outside the clip |
| WidgetRender.NestedOffsets | examples/04_nested_boxes.rs:105-130 | a leaf at (10, 8) in a box at (15, 5) in a box at (5, 2) is written at (30, 15) |
| WidgetRender.TallRootFails | examples/printer_test.rs:183 | a root 66 rows high with a child at row 60 keeps its first label and fails with `OutOfBounds((0, 60), page)` |
| WidgetRender.LongWriteClipped | src/widget/context.rs:93-104 | a 20-character write at column 150 succeeds and is clipped after column 159 |
| Text.Utf8Len | src/widget/label.rs:97 | the byte length of a string is between its length and four times its length |
| Text.Utf8LenAppend | src/widget/label.rs:97 | byte length adds up over concatenation |
| Text.AsciiUtf8Len | src/widgets/label.rs:70 | for ASCII text the byte length is the character count |
| Text.SplitWhitespace | src/widgets/paragraph.rs:102 | `split_whitespace` yields non-empty words without whitespace |
| Text.SplitWhitespaceKeepsText | src/widgets/paragraph.rs:102 | the words, concatenated, are the text without its whitespace |
| Text.StripCr | src/widgets/text_block.rs:54 | a line ending in a carriage return loses exactly that one character; any other line is kept unchanged |
| Text.Lines | src/widgets/text_block.rs:54 | `lines` of a string is empty exactly when the string is |
| Text.LinesStep | src/widgets/text_block.rs:54 | a newline ends the current line, minus a trailing carriage return |
| Wrapping.Chunks | src/widgets/paragraph.rs:112-114 | chunks concatenate back to the word; each is non-empty and at most the width; all but the last are full |
| Wrapping.WrapWord | src/widgets/paragraph.rs:104-135 | a fitting word starts a new line exactly when the current line, a space and the word exceed the width; otherwise it is appended after one space; earlier lines are kept |
| Wrapping.WrapWordStep | src/widgets/paragraph.rs:102-136 | each word keeps every line within the width and appends exactly that word's characters |
| Wrapping.LongWordStep | src/widgets/paragraph.rs:104-116 | an over-long word closes the open line (when it is non-empty), is appended as its `Chunks`, and leaves no open line; the step keeps every line within the width and places exactly the word's characters |
| Wrapping.NewLineStep | src/widgets/paragraph.rs:119-135 | a word that does not fit after a space closes the open line, and the word alone becomes the new open line; every line still fits |
| Wrapping.SameLineStep | src/widgets/paragraph.rs:119-135 | a word that fits adds no line: it is joined to the open line after one space, or opens the line when none is open; every line still fits |
| Wrapping.JoinStep | src/widgets/paragraph.rs:132-135 | joining with one space keeps the line within the width |
| Wrapping.WrapWordsStep | src/widgets/paragraph.rs:102-136 | any sequence of words keeps the lines within the width and places all words in order |
| Wrapping.FinishLines | src/widgets/paragraph.rs:139-141 | the final non-empty line is flushed, keeping width and content |
| Wrapping.WrapText | src/widgets/paragraph.rs:94-144 | width 0 gives no lines; every line is non-empty and at most the width; the lines' non-whitespace characters are the text's, in order |
| Wrapping.OpenLine | src/widgets/paragraph.rs:131-135 | a fitting word on an empty line becomes the line |
| Wrapping.BreakLine | src/widgets/paragraph.rs:125-135 | a word that does not fit flushes the line and starts the next |
| Wrapping.GreedyExample | src/widgets/paragraph.rs:118-135 | "The quick brown fox" at width 10 packs as "The quick" then "brown fox" |
| Wrapping.ChunkExample | src/widgets/paragraph.rs:104-116 | "abcdefghij" at width 4 is "abcd", "efgh", "ij" |
| RegionWidgets.TakeCount | src/widgets/label.rs:70-71 | at most the width and the text length; for ASCII text exactly their minimum |
| RegionWidgets.WriteRun | src/widgets/label.rs:71-73 | character i lands at column x+i of row y; nothing else changes |
| RegionWidgets.LineCount | src/widgets/text_block.rs:71 | a line never draws more characters than it has |
| RegionWidgets.DrawRows | src/widgets/text_block.rs:66-80 | line i is drawn on row y+i for i below the height, clipped to its count; nothing else changes |
| RegionWidgets.DrawRowsConfined | src/widgets/text_block.rs:60-81 | drawing rows never changes a cell outside the region |
| RegionWidgets.NewTextLabel | src/widgets/label.rs:39-44 | a new label has the text and NONE style |
| RegionWidgets.LabelWithStyle | src/widgets/label.rs:56-59 | `with_style` replaces the style and keeps the text |
| RegionWidgets.RenderLabel | src/widgets/label.rs:63-74 | zero-size regions get no writes; only row y, columns x .. x+min(width, len)−1, change, in the label's style; nothing outside the region changes |
| RegionWidgets.LabelTruncates | src/widgets/label.rs:69-73 | "Hello, World" in a width-5 region shows "Hello" and nothing at column 5 |
| RegionWidgets.NewTextBlock | src/widgets/text_block.rs:39-41 | `new` keeps the lines |
| RegionWidgets.TextBlockFromText | src/widgets/text_block.rs:52-56 | `from_text` has no lines exactly when the text is empty |
| RegionWidgets.FromTextExample | src/widgets/text_block.rs:95-102 | "Line 1\nLine 2\nLine 3" gives three lines |
| RegionWidgets.RenderTextBlock | src/widgets/text_block.rs:60-81 | zero-size regions get no writes; line i on row y+i for i below the height, truncated to the width, NONE style; nothing outside changes |
| RegionWidgets.NewKeyValueList | src/widgets/key_value.rs:44-49 | the default separator is ": " |
| RegionWidgets.WithSeparator | src/widgets/key_value.rs:62-65 | `with_separator` replaces the separator and keeps the entries |
| RegionWidgets.EntryLines | src/widgets/key_value.rs:80-81 | one line per entry: key, separator, value |
| RegionWidgets.RenderKeyValue | src/widgets/key_value.rs:69-93 | entry i on row y+i for i below the height, truncated to the width, NONE style; nothing outside changes |
| RegionWidgets.DrawTruncated | src/widgets/text_block.rs:66-80 | lines truncated to the width, inside the region |
| RegionWidgets.DrawWhole | src/widgets/paragraph.rs:71-84 | lines no wider than the region are drawn whole, inside the region |
| RegionWidgets.NewParagraph | src/widgets/paragraph.rs:39-44 | a new paragraph has NONE style |
| RegionWidgets.ParagraphWithStyle | src/widgets/paragraph.rs:56-59 | `with_style` replaces the style |
| RegionWidgets.RenderParagraph | src/widgets/paragraph.rs:63-86 | zero-size regions get no writes; wrapped line i on row y+i for i below the height, in the paragraph's style; nothing outside changes |
| Tables.NewTable | src/widgets/table.rs:67-69 | `new` keeps columns and rows |
| Tables.OffsetMono | src/widgets/table.rs:93 | column start offsets never decrease |
| Tables.Drawn | src/widgets/table.rs:86-91 | nothing once the column starts at or past the right edge; otherwise as much as fits: the whole text, a full column width, or up to the right edge, never more than any of the three |
| Tables.LineCharSpec | src/widgets/table.rs:80-94 | a character appears only inside the region, and character i of column j is at x + offset(j) + i while drawn |
| Tables.ColumnChar | src/widgets/table.rs:86-91 | each drawn character of a column is found at its position on the line |
| Tables.DrawCells | src/widgets/table.rs:103-119 | a line of cells changes exactly the positions where a column draws a character |
| Tables.CellText | src/widgets/table.rs:109 | a missing cell reads as the empty string |
| Tables.HeaderTexts | src/widgets/table.rs:81-89 | the header line is the column names |
| Tables.RowTexts | src/widgets/table.rs:104-109 | a data line has one text per column |
| Tables.DrawDataRows | src/widgets/table.rs:97-120 | data rows from r on are drawn on their rows with NONE style; nothing else changes |
| Tables.RenderTable | src/widgets/table.rs:73-121 | zero height draws nothing; header characters BOLD, data characters NONE, every other cell unchanged; nothing outside the region changes |
| Tables.HeaderCell | src/widgets/table.rs:89-91 | a header character is drawn BOLD on the first row |
| Tables.DataCell | src/widgets/table.rs:114-116 | a data character is drawn with NONE style on row y+1+r |
| Tables.TableCellTruncation | src/widgets/table.rs:204-223 | "VeryLongName" in a width-5 column shows up to column 4 and nothing at column 5; the header is bold |
| Boxes.NewBox | src/widgets/ascii_box.rs:41-46 | a new box has no title |
| Boxes.WithTitle | src/widgets/ascii_box.rs:59-62 | `with_title` sets the title and keeps the content |
| Boxes.TitleCount | src/widgets/ascii_box.rs:97-99 | none below width 4; otherwise as much as fits: the whole title or exactly width−4 characters, never more than either |
| Boxes.HorizontalEdges | src/widgets/ascii_box.rs:84-87 | top and bottom edges become `-` between the corners |
| Boxes.VerticalEdges | src/widgets/ascii_box.rs:90-93 | side edges become `\|` between the corners |
| Boxes.Corners | src/widgets/ascii_box.rs:78-81 | the four corners become `+` |
| Boxes.Border | src/widgets/ascii_box.rs:77-93 | exactly the frame cells change, to their border characters |
| Boxes.DrawFrame | src/widgets/ascii_box.rs:77-102 | exactly the frame cells change, with the title on the top edge |
| Boxes.RenderContent | src/widgets/ascii_box.rs:105-107 | the content never writes outside its region |
| Boxes.Inner | src/widgets/ascii_box.rs:105 | `with_padding(1, 1, 1, 1)` contains exactly the region's cells not on the frame |
| Boxes.RenderBox | src/widgets/ascii_box.rs:66-108 | below 3 × 3 nothing is written; nothing outside the region changes; every frame cell shows its border or title character in NONE |
| Boxes.FrameCell | src/widgets/ascii_box.rs:77-102 | each frame cell survives the content rendering |
| Boxes.TitleCells | src/widgets/ascii_box.rs:96-102 | the title starts at x+2, truncated, and the edge continues after it |
| Boxes.BoxTitleTruncation | src/widgets/ascii_box.rs:180-201 | a long title in a width-10 box keeps 6 characters |
| Boxes.BoxUnfold | src/widgets/ascii_box.rs:77-107 | a box is the frame, then the content in the inner region |
| Boxes.InnerShape | src/widgets/ascii_box.rs:105 | the inner region is the box minus one cell on each side |
| Boxes.BoxContentInside | src/widgets/ascii_box.rs:165-178 | a label "Hi" in a 6 × 3 box appears at (1, 1) |
| Status.FromByte | src/types/status.rs:21-27 | the status read from a byte is the one whose canonical byte is that byte's bits 3, 5 and 6 |
| Status.IsReady | src/types/status.rs:30-32 | ready exactly when the status is the one the all-clear byte 0 reads as: online, paper in, no error |
| Status.ToByte | src/types/status.rs:21-27 | the canonical status byte uses only bits 3, 5 and 6 |
| Status.FromToByte | src/types/status.rs:21-27 | every status is read back from its canonical byte |
| Status.FromByteIgnoresOtherBits | src/types/status.rs:21-27 | `from_byte` reads only bits 3, 5 and 6 |
| Status.ReadyByte | src/types/status.rs:30-32 | a byte means ready exactly when bits 3, 5 and 6 are clear |
| Status.StatusExamples | src/types/status.rs:39-67 | 00 is ready; 08 offline, 20 paper out, 40 error; other bits are ignored |
| Printers.NewPrinter | src/printer.rs:27-33 | nothing has been sent, and the graphics limit is recorded |
| Printers.MaxGraphicsWidth | src/printer.rs:83-85 | the limit given at construction, whatever was sent since |
| Printers.Send | src/printer.rs:38-41 | the bytes go out after everything sent before; nothing else changes |
| Printers.SendSend | src/printer.rs:38-41 | two sends are one send of the concatenation |
| Printers.Esc | src/printer.rs:46-51 | ESC, then the data |
| Printers.Reset | src/printer.rs:78-80 | 1B 40, byte for byte the serializer's `ESC_RESET` |
| Printers.QueryStatus | src/printer.rs:57-73 | sends 10 04 01 and decodes the answer byte with `from_byte` |
| Commands.FontByte | src/commands/text.rs:75-77 | the font parameter is 0..4 |
| Commands.FontOf | src/commands/text.rs:75-77 | each font number 0..4 names exactly one font |
| Commands.ModeOf | src/commands/graphics.rs:60-67 | exactly 4B, 4C and 59 are graphics modes, each naming one |
| Commands.Encode | src/commands/text.rs:12-77 | every command encodes to at least one byte |
| Commands.ParseEscape | src/commands/text.rs:12-77 | a parsed escape command consumes between 2 bytes and the whole input |
| Commands.ParseOne | src/commands/layout.rs:53-69 | a parsed command consumes at least one byte of the input |
| Commands.ParseEncode | src/commands/text.rs:12-77 | every sendable command is read back from its bytes, whatever follows |
| Commands.ParseBare | src/commands/text.rs:12-70 | the parameterless commands read back |
| Commands.ParseByteParameter | src/commands/layout.rs:21-109 | commands with one parameter byte read back as 3 bytes |
| Commands.ParseGraphics | src/commands/graphics.rs:60-67 | a graphics command reads back as 4 + width bytes |
| Commands.GraphicsEscape | src/commands/graphics.rs:63-65 | a graphics header's nL + 256·nH is the data length that follows |
| Commands.ParseMoveAbsolute | src/commands/positioning.rs:57-61 | ESC $ nL nH reads back as the position |
| Commands.ParseMoveRelative | src/commands/positioning.rs:70-75 | ESC \ nL nH reads back as the signed offset |
| Commands.ParsePageLengthDots | src/commands/layout.rs:39-48 | ESC ( C 02 00 nL nH reads back as the dot count |
| Commands.ParseEncodeAll | src/commands/layout.rs:21-109 | any list of sendable commands is read back from its encoding |
| Commands.EncodeAllInjective | src/commands/text.rs:12-77 | different command lists never send the same bytes |
| Commands.DriverMatchesSerializer | src/commands/text.rs:12-35 | reset, bold and underline commands send the serializer's constants |
| Commands.DriverControlsMatchSerializer | src/commands/layout.rs:53-69 | FF, LF and CR send 0C, 0A and 0D |
| Commands.PitchesAreCommands | src/commands/text.rs:54-70 | each pitch sends its own distinct command |
| Commands.SpacingsAreCommands | src/commands/layout.rs:78-87 | each line spacing sends its own distinct command |
| Commands.Issue | src/printer.rs:38-51 | a command's bytes are appended and read back as that command |
| Commands.Session | src/printer.rs:38-41 | a session's log is the encoding of its commands after what came before |
| Commands.SessionParses | src/printer.rs:27-41 | a session from a new printer parses back to its commands |
| Commands.PrintGraphics | src/commands/graphics.rs:35-68 | width above the limit fails first, then width ≠ data length; both send nothing; otherwise 4 + width bytes go out |
| Commands.MicroForwardCmd | src/commands/positioning.rs:21-26 | 0 fails with `MicroFeedZero` and sends nothing; otherwise ESC J n |
| Commands.MicroReverseCmd | src/commands/positioning.rs:43-48 | 0 fails with `MicroFeedZero` and sends nothing; otherwise ESC j n |
| Commands.MoveAbsoluteXCmd | src/commands/positioning.rs:57-61 | the sent nL + 256·nH is the position |
| Commands.MoveRelativeXCmd | src/commands/positioning.rs:70-75 | the sent nL nH, read as signed 16-bit, is the offset |
| Commands.PageLengthLinesCmd | src/commands/layout.rs:21-26 | 0 fails with `InvalidPageLength(0)`; otherwise ESC C n |
| Commands.PageLengthDotsCmd | src/commands/layout.rs:39-48 | 0 fails with `InvalidPageLength(0)`; otherwise ESC ( C with the little-endian count |
| Commands.SelectFontCmd | src/commands/text.rs:75-77 | ESC k with a font number of at most 4 |
| Commands.TextByte | src/commands/text.rs:82-90 | ASCII characters pass through, anything else becomes `?` |
| Commands.TextBytes | src/commands/text.rs:82-90 | one byte per character |
| Commands.WriteText | src/commands/text.rs:82-90 | the text goes out as one byte per character |
| Commands.TextBytesVersusCells | src/commands/text.rs:86 | printable characters agree with `Cell::new`; control characters pass through where `Cell::new` gives `?` |
| Commands.TextExample | src/commands/text.rs:82-90 | "Aé\n" sends 41 3F 0A |
| Words.LittleEndianRoundTrip | src/commands/positioning.rs:58-60 | splitting a 16-bit value into nL, nH and reading it back is the identity, both ways |
| Words.TwosComplementRoundTrip | src/commands/positioning.rs:71-73 | 16-bit two's complement and its signed reading are inverse, and the sign is the top bit |

## Left out

- I/O: the write-retry loop, the timeouts and the mock devices are left out (src/io). `send` is an append to a byte log that cannot fail.
- `Printer::open_device`, and the read and error-mapping half of `query_status`, are left out because they are device files and timeouts. The status byte is an input.
- `Display` implementations and error message strings are left out. Errors are datatypes whose fields mirror the source's.
- Const generics and `dyn Widget` dispatch become runtime sizes in a `Widget` datatype. The `debug_assert`s for zero size and label height 1 become preconditions: `WidgetTree.NewRect` and `WidgetTree.NewLabel`.
- The example programs' ESC C 50 initialisation is not modelled, because `render_document` does not emit it.
- The design drafts under `specs/` are not modelled: runtime-sized boxes, a fallible `Stack::area` and `ZeroSizeParent` never reached the code.
- Font, pitch, spacing and graphics-mode tables are written out only as far as the encoders use them.
- WidgetRender.RenderTo: positions are unbounded integers. The u16 additions `position + child.position` (src/widget/rect.rs:182), `current_y + H` and `current_x + W` (src/widget/layout/column.rs:61, src/widget/layout/row.rs:61), and the table's column and row sums (src/widgets/table.rs:93, 98, 118) are not checked for wrap-around.
- WidgetRender.RenderTo: its own contract only keeps the clip bounds. The traversal itself is stated by WidgetRender.RenderToRunsWrites.
- WidgetRender.RenderChildren: like `RenderTo`, its own contract only keeps the clip bounds. WidgetRender.RenderChildrenRunsWrites states the order.
- WidgetRender.RunWrites: its own contract only keeps the clip bounds. WidgetRender.RunWritesAllStart and WidgetRender.RunWritesFirstOutside state its effect.
- Layouts.ColumnArea: requires a non-zero width and height, as the container's `debug_assert` does. It also requires the cursor within the height, which every reachable cursor satisfies.
- Layouts.RowArea: requires the same of the row.
- Text.Utf8Len: byte lengths are modelled as UTF-8 lengths of code points. Widgets that compare `len()` with a width are exact for ASCII text, which is what `RegionWidgets.TakeCount` states.
- The decoder in `EscpDecode` reads only the commands the serializer emits (ESC @, SI, ESC E/F, ESC - 0/1, CR, LF, FF and printable bytes). Other ESC/P commands are not decoded.
- Escp.RenderLine, Escp.RenderRow and Escp.RenderRows: their own contracts give the end state and sizes only. The exact bytes are stated by EscpProofs.LineEncodes, EscpProofs.RowEncodes and EscpProofs.RowsEncode. Their printed meaning is stated by EscpProofs.ExecuteLine, EscpProofs.ExecuteRow and EscpProofs.ExecuteRows.
- Commands.Encode and Commands.ParseOne: their own contracts are about lengths. The round trip is stated by Commands.ParseEncode and Commands.ParseEncodeAll.
- Text.Lines: its own contract only relates emptiness. Its line-by-line behaviour is Text.LinesStep, checked on the three-line example by RegionWidgets.FromTextExample.
- Boxes.RenderContent: its own contract states confinement only. The content widgets' own contracts state what they draw.
- `PageBuilder::render_widget` (src/page.rs:161-168) is not modelled separately, because it only calls the region widget's `render`.
