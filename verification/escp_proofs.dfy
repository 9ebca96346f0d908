/**
 * What the serializer's output means to a printer that reads the ESC/P
 * subset: the byte stream is a well-formed command sequence, replaying it
 * reproduces every page cell for cell (characters and styles), there is one
 * form feed per page, and style codes are minimal.
 */
module EscpProofs {
  import opened Seqs
  import opened Base
  import opened Cells
  import opened Pages
  import opened Escp
  import opened EscpDecode

  // ---------------------------------------------------------------------
  // The serializer's output as commands

  function TransitionCommands(s: RenderState, t: StyleFlags): seq<Command>
  {
    (if s.bold == t.Bold() then [] else if t.Bold() then [BoldOn] else [BoldOff])
    + (if s.underline == t.Underline() then [] else if t.Underline() then [UnderlineOn] else [UnderlineOff])
  }

  function ResetCommands(s: RenderState): seq<Command>
  {
    (if s.bold then [BoldOff] else []) + (if s.underline then [UnderlineOff] else [])
  }

  function LineCommands(cells: seq<Cell>, s: RenderState): seq<Command>
    decreases |cells|
  {
    if |cells| == 0 then []
    else
      TransitionCommands(s, cells[0].style) + [Print(cells[0].character)]
      + LineCommands(cells[1..], Target(cells[0].style))
  }

  function RowCommands(row: seq<Cell>, s: RenderState): seq<Command>
  {
    LineCommands(row, s) + [CarriageReturn, LineFeed] + ResetCommands(RenderLine(row, s).0)
  }

  function RowsCommands(rows: seq<seq<Cell>>, s: RenderState): seq<Command>
    decreases |rows|
  {
    if |rows| == 0 then [] else RowCommands(rows[0], s) + RowsCommands(rows[1..], INITIAL)
  }

  function PagesCommands(pages: seq<Page>): seq<Command>
  {
    if |pages| == 0 then []
    else
      PagesCommands(pages[..|pages| - 1])
      + RowsCommands(pages[|pages| - 1].cells, INITIAL) + [FormFeed]
  }

  function DocumentCommands(pages: seq<Page>): seq<Command>
  {
    [Initialize, Condensed] + PagesCommands(pages)
  }

  lemma EncodeAllSingle(c: Command)
    ensures EncodeAll([c]) == Encode(c)
  {
  }

  lemma EncodeAllOptional(a: seq<Command>, b: seq<Command>)
    requires |a| <= 1 && |b| <= 1
    ensures EncodeAll(a + b) == EncodeAll(a) + EncodeAll(b)
  {
    EncodeAllAppend(a, b);
  }

  lemma TransitionEncodes(s: RenderState, t: StyleFlags)
    ensures Transition(s, t).1 == EncodeAll(TransitionCommands(s, t))
  {
    var a := if s.bold == t.Bold() then [] else if t.Bold() then [BoldOn] else [BoldOff];
    var b := if s.underline == t.Underline() then [] else if t.Underline() then [UnderlineOn] else [UnderlineOff];
    EncodeAllOptional(a, b);
  }

  lemma ResetEncodes(s: RenderState)
    ensures Reset(s).1 == EncodeAll(ResetCommands(s))
  {
    var a := if s.bold then [BoldOff] else [];
    var b := if s.underline then [UnderlineOff] else [];
    EncodeAllOptional(a, b);
  }

  lemma {:induction false} LineEncodes(cells: seq<Cell>, s: RenderState)
    ensures RenderLine(cells, s).1 == EncodeAll(LineCommands(cells, s))
    decreases |cells|
  {
    if |cells| > 0 {
      var t := cells[0].style;
      var tc := TransitionCommands(s, t);
      var p := [Print(cells[0].character)];
      var rest := LineCommands(cells[1..], Target(t));
      TransitionEncodes(s, t);
      LineEncodes(cells[1..], Target(t));
      EncodeAllAppend(tc + p, rest);
      EncodeAllAppend(tc, p);
      EncodeAllSingle(Print(cells[0].character));
    }
  }

  lemma EncodeLineEnd()
    ensures EncodeAll([CarriageReturn, LineFeed]) == [CR, LF]
  {
    assert [CarriageReturn, LineFeed][1..] == [LineFeed];
  }

  lemma RowEncodes(row: seq<Cell>, s: RenderState)
    ensures RenderRow(row, s).1 == EncodeAll(RowCommands(row, s))
  {
    var s1 := RenderLine(row, s).0;
    var line := LineCommands(row, s);
    var reset := ResetCommands(s1);
    var end := [CarriageReturn, LineFeed];
    LineEncodes(row, s);
    ResetEncodes(s1);
    EncodeLineEnd();
    EncodeAllAppend(line + end, reset);
    EncodeAllAppend(line, end);
    assert RenderRow(row, s).1 == RenderLine(row, s).1 + [CR, LF] + Reset(s1).1;
  }

  lemma {:induction false} RowsEncode(rows: seq<seq<Cell>>, s: RenderState)
    ensures RenderRows(rows, s).1 == EncodeAll(RowsCommands(rows, s))
    decreases |rows|
  {
    if |rows| > 0 {
      RowEncodes(rows[0], s);
      RowsEncode(rows[1..], INITIAL);
      EncodeAllAppend(RowCommands(rows[0], s), RowsCommands(rows[1..], INITIAL));
    }
  }

  /** The commands of all pages but the last, then the last page's rows and its form feed. */
  lemma EncodeLastPage(a: seq<Command>, b: seq<Command>)
    ensures EncodeAll(a + b + [FormFeed]) == EncodeAll(a) + EncodeAll(b) + [FF]
  {
    EncodeAllAppend(a + b, [FormFeed]);
    EncodeAllAppend(a, b);
    EncodeAllSingle(FormFeed);
  }

  lemma {:induction false} PagesEncode(pages: seq<Page>)
    ensures RenderPages(pages) == EncodeAll(PagesCommands(pages))
    decreases |pages|
  {
    if |pages| > 0 {
      var init := pages[..|pages| - 1];
      var last := pages[|pages| - 1];
      PagesEncode(init);
      RowsEncode(last.cells, INITIAL);
      EncodeLastPage(PagesCommands(init), RowsCommands(last.cells, INITIAL));
    }
  }

  /** The serializer's bytes are exactly the encoding of the document's commands. */
  lemma DocumentEncodes(pages: seq<Page>)
    ensures RenderDocument(pages) == EncodeAll(DocumentCommands(pages))
  {
    var head := [Initialize, Condensed];
    calc {
      EncodeAll(DocumentCommands(pages));
      { EncodeAllAppend(head, PagesCommands(pages)); }
      EncodeAll(head) + EncodeAll(PagesCommands(pages));
      { PagesEncode(pages); EncodeAllAppend([Initialize], [Condensed]); assert [Initialize] + [Condensed] == head; }
      ESC_RESET + SI_CONDENSED + RenderPages(pages);
    }
  }

  /** Decoding the serializer's bytes recovers the document's commands. */
  lemma DocumentDecodes(pages: seq<Page>)
    ensures Decode(RenderDocument(pages)) == Some(DocumentCommands(pages))
  {
    DocumentEncodes(pages);
    DecodeEncode(DocumentCommands(pages));
  }

  // ---------------------------------------------------------------------
  // Replaying the commands on a printer

  /** The printer's style flags agree with the serializer's state. */
  predicate InStyle(m: Printer, s: RenderState)
  {
    m.bold == s.bold && m.underline == s.underline
  }

  lemma ExecuteTransition(m: Printer, s: RenderState, t: StyleFlags)
    requires InStyle(m, s)
    ensures Execute(m, TransitionCommands(s, t)) == m.(bold := t.Bold(), underline := t.Underline())
  {
    var a := if s.bold == t.Bold() then [] else if t.Bold() then [BoldOn] else [BoldOff];
    var b := if s.underline == t.Underline() then [] else if t.Underline() then [UnderlineOn] else [UnderlineOff];
    ExecuteAppend(m, a, b);
  }

  lemma ExecuteReset(m: Printer, s: RenderState)
    requires InStyle(m, s)
    ensures Execute(m, ResetCommands(s)) == m.(bold := false, underline := false)
  {
    var a := if s.bold then [BoldOff] else [];
    var b := if s.underline then [UnderlineOff] else [];
    ExecuteAppend(m, a, b);
  }

  /** Printing a cell whose style is already selected appends exactly that cell. */
  lemma ExecutePrint(m: Printer, c: Cell)
    requires m.bold == c.style.Bold() && m.underline == c.style.Underline()
    requires m.column == |m.line|
    ensures Execute(m, [Print(c.character)]) == m.(line := m.line + [c], column := m.column + 1)
  {
    StyleDeterminedByFlags(c.style);
    assert seq(m.column - |m.line|, _ => EMPTY) == [];
  }

  /** The first cell of a line: its transition and its character. */
  lemma ExecuteFirstCell(m: Printer, cells: seq<Cell>, s: RenderState)
    requires InStyle(m, s) && m.column == |m.line| && |cells| > 0
    ensures var t := cells[0].style;
      Execute(m, LineCommands(cells, s))
        == Execute(m.(bold := t.Bold(), underline := t.Underline(), line := m.line + [cells[0]], column := m.column + 1),
                   LineCommands(cells[1..], Target(t)))
  {
    var t := cells[0].style;
    var tc := TransitionCommands(s, t);
    var p := [Print(cells[0].character)];
    var rest := LineCommands(cells[1..], Target(t));
    var m1 := m.(bold := t.Bold(), underline := t.Underline());
    ExecuteAppend(m, tc + p, rest);
    ExecuteAppend(m, tc, p);
    ExecuteTransition(m, s, t);
    ExecutePrint(m1, cells[0]);
  }

  /** The style state after a line: the last cell's, or the one before an empty line. */
  function After(cells: seq<Cell>, s: RenderState): (s': RenderState)
    ensures s' == RenderLine(cells, s).0
  {
    if |cells| == 0 then s else Target(cells[|cells| - 1].style)
  }

  /** Replaying a rendered line appends its cells to the printer's line, in order. */
  lemma {:induction false} ExecuteLine(m: Printer, cells: seq<Cell>, s: RenderState)
    requires InStyle(m, s) && m.column == |m.line|
    ensures var s' := After(cells, s);
      Execute(m, LineCommands(cells, s))
        == m.(bold := s'.bold, underline := s'.underline, line := m.line + cells, column := m.column + |cells|)
    decreases |cells|
  {
    if |cells| == 0 {
      assert m.line + cells == m.line;
    } else {
      var t := cells[0].style;
      var m2 := m.(bold := t.Bold(), underline := t.Underline(), line := m.line + [cells[0]], column := m.column + 1);
      ExecuteFirstCell(m, cells, s);
      ExecuteLine(m2, cells[1..], Target(t));
      AfterTail(cells, s);
      ConsTail(m.line, cells);
    }
  }

  lemma AfterTail(cells: seq<Cell>, s: RenderState)
    requires |cells| > 0
    ensures After(cells[1..], Target(cells[0].style)) == After(cells, s)
  {
    if |cells| > 1 {
      assert cells[1..][|cells| - 2] == cells[|cells| - 1];
    }
  }

  /** A printer between lines: style off, carriage home, nothing pending. */
  predicate AtLineStart(m: Printer)
  {
    !m.bold && !m.underline && m.column == 0 && m.line == []
  }

  lemma ExecuteRow(m: Printer, row: seq<Cell>)
    requires AtLineStart(m)
    ensures Execute(m, RowCommands(row, INITIAL)) == m.(lines := m.lines + [row])
  {
    var s' := RenderLine(row, INITIAL).0;
    var line := LineCommands(row, INITIAL);
    ExecuteAppend(m, line + [CarriageReturn, LineFeed], ResetCommands(s'));
    ExecuteAppend(m, line, [CarriageReturn, LineFeed]);
    ExecuteLine(m, row, INITIAL);
    assert m.line + row == row;
    var m1 := m.(bold := s'.bold, underline := s'.underline, line := row, column := |row|);
    var m2 := m1.(column := 0).(lines := m.lines + [row], line := []);
    assert Execute(m1, [CarriageReturn, LineFeed]) == m2;
    ExecuteReset(m2, s');
  }

  lemma {:induction false} ExecuteRows(m: Printer, rows: seq<seq<Cell>>)
    requires AtLineStart(m)
    ensures Execute(m, RowsCommands(rows, INITIAL)) == m.(lines := m.lines + rows)
    decreases |rows|
  {
    if |rows| == 0 {
      assert m.lines + rows == m.lines;
    } else {
      ExecuteAppend(m, RowCommands(rows[0], INITIAL), RowsCommands(rows[1..], INITIAL));
      ExecuteRow(m, rows[0]);
      ExecuteRows(m.(lines := m.lines + [rows[0]]), rows[1..]);
      assert m.lines + [rows[0]] + rows[1..] == m.lines + rows;
    }
  }

  /** The grids of the pages, in order: what the printer should end up holding. */
  function Sheets(pages: seq<Page>): (r: seq<seq<seq<Cell>>>)
    ensures |r| == |pages|
    ensures forall i | 0 <= i < |pages| :: r[i] == pages[i].cells
  {
    seq(|pages|, i requires 0 <= i < |pages| => pages[i].cells)
  }

  /** One page's rows, then its form feed: the page is ejected as a sheet. */
  lemma ExecutePage(m: Printer, rows: seq<seq<Cell>>)
    requires AtLineStart(m) && m.lines == []
    ensures Execute(m, RowsCommands(rows, INITIAL) + [FormFeed]) == m.(sheets := m.sheets + [rows])
  {
    ExecuteAppend(m, RowsCommands(rows, INITIAL), [FormFeed]);
    ExecuteRows(m, rows);
    assert m.lines + rows == rows;
  }

  lemma SheetsSnoc(pages: seq<Page>)
    requires |pages| > 0
    ensures Sheets(pages) == Sheets(pages[..|pages| - 1]) + [pages[|pages| - 1].cells]
  {
  }

  lemma {:induction false} ExecutePages(m: Printer, pages: seq<Page>)
    requires AtLineStart(m) && m.lines == []
    ensures Execute(m, PagesCommands(pages)) == m.(sheets := m.sheets + Sheets(pages))
    decreases |pages|
  {
    if |pages| == 0 {
      assert m.sheets + Sheets(pages) == m.sheets;
    } else {
      var init := pages[..|pages| - 1];
      var last := pages[|pages| - 1];
      var rows := RowsCommands(last.cells, INITIAL);
      AppendAssociative(PagesCommands(init), rows, [FormFeed]);
      ExecuteAppend(m, PagesCommands(init), rows + [FormFeed]);
      ExecutePages(m, init);
      ExecutePage(m.(sheets := m.sheets + Sheets(init)), last.cells);
      SheetsSnoc(pages);
      AppendAssociative(m.sheets, Sheets(init), [last.cells]);
    }
  }

  /** From power-on, the document's commands leave the printer condensed, styles off, holding the pages. */
  lemma ExecuteDocument(pages: seq<Page>)
    ensures Execute(POWER_ON, DocumentCommands(pages)) == Printer(false, false, true, 0, [], [], Sheets(pages))
  {
    var m := Execute(POWER_ON, [Initialize, Condensed]);
    assert m == Printer(false, false, true, 0, [], [], []);
    ExecuteAppend(POWER_ON, [Initialize, Condensed], PagesCommands(pages));
    ExecutePages(m, pages);
    assert [] + Sheets(pages) == Sheets(pages);
  }

  /**
   * Round trip: a printer that reads the rendered document from power-on ends
   * in condensed mode with styles off and holds exactly the document's pages,
   * cell for cell, characters and styles, in order.
   */
  lemma RenderDocumentRoundTrip(pages: seq<Page>)
    ensures Run(POWER_ON, RenderDocument(pages))
      == Some(Printer(false, false, true, 0, [], [], Sheets(pages)))
  {
    DocumentDecodes(pages);
    ExecuteDocument(pages);
  }

  /**
   * A single page, framed as `render_document` frames it, prints as exactly
   * that page; its own bytes hold no form feed, so only the trailing one
   * ejects the sheet.
   */
  lemma RenderPageRoundTrip(p: Page)
    ensures Run(POWER_ON, ESC_RESET + SI_CONDENSED + RenderPage(p) + [FF])
      == Some(Printer(false, false, true, 0, [], [], [p.cells]))
    ensures CountByte(RenderPage(p), FF) == 0
  {
    assert [p][..0] == [];
    assert RenderPages([p]) == RenderPage(p) + [FF];
    AppendAssociative(ESC_RESET + SI_CONDENSED, RenderPage(p), [FF]);
    assert RenderDocument([p]) == ESC_RESET + SI_CONDENSED + RenderPage(p) + [FF];
    RenderDocumentRoundTrip([p]);
    assert Sheets([p]) == [p.cells];
    FormFeedCount([p]);
    CountByteAppend(ESC_RESET + SI_CONDENSED + RenderPage(p), [FF], FF);
    CountByteAppend(ESC_RESET + SI_CONDENSED, RenderPage(p), FF);
    assert CountByte(ESC_RESET + SI_CONDENSED, FF) == 0 by {
      assert ESC_RESET + SI_CONDENSED == [0x1B, 0x40, 0x0F];
      assert CountByte([0x0F], FF) == 0;
      assert CountByte([0x40, 0x0F], FF) == 0;
    }
  }

  /** Different documents render to different bytes (rendering loses nothing). */
  lemma RenderDocumentInjective(a: seq<Page>, b: seq<Page>)
    requires RenderDocument(a) == RenderDocument(b)
    ensures a == b
  {
    RenderDocumentRoundTrip(a);
    RenderDocumentRoundTrip(b);
    assert Sheets(a) == Sheets(b);
    assert forall i | 0 <= i < |a| :: a[i] == Page(Sheets(a)[i]);
  }

  /** The output holds exactly one form-feed byte per page. */
  lemma FormFeedCount(pages: seq<Page>)
    ensures CountByte(RenderDocument(pages), FF) == |pages|
  {
    DocumentEncodes(pages);
    FormFeedBytes(DocumentCommands(pages));
    SheetsCountFormFeeds(POWER_ON, DocumentCommands(pages));
    ExecuteDocument(pages);
  }

  // ---------------------------------------------------------------------
  // Minimal style codes

  /** Cells that start a bold run, given whether the cell before was bold. */
  function BoldStarts(cells: seq<Cell>, prevBold: bool): nat
    decreases |cells|
  {
    if |cells| == 0 then 0
    else (if cells[0].style.Bold() && !prevBold then 1 else 0) + BoldStarts(cells[1..], cells[0].style.Bold())
  }

  /** Cells that end a bold run (the first non-bold cell after bold ones). */
  function BoldEnds(cells: seq<Cell>, prevBold: bool): nat
    decreases |cells|
  {
    if |cells| == 0 then 0
    else (if !cells[0].style.Bold() && prevBold then 1 else 0) + BoldEnds(cells[1..], cells[0].style.Bold())
  }

  /** The number of maximal runs of consecutive bold cells in a row. */
  function BoldRuns(row: seq<Cell>): nat
  {
    BoldStarts(row, false)
  }

  function LastBold(cells: seq<Cell>, prevBold: bool): bool
  {
    if |cells| == 0 then prevBold else cells[|cells| - 1].style.Bold()
  }

  lemma TransitionBoldCount(s: RenderState, t: StyleFlags)
    ensures CountCommand(TransitionCommands(s, t), BoldOn) == (if t.Bold() && !s.bold then 1 else 0)
    ensures CountCommand(TransitionCommands(s, t), BoldOff) == (if !t.Bold() && s.bold then 1 else 0)
  {
    var a := if s.bold == t.Bold() then [] else if t.Bold() then [BoldOn] else [BoldOff];
    var b := if s.underline == t.Underline() then [] else if t.Underline() then [UnderlineOn] else [UnderlineOff];
    CountCommandAppend(a, b, BoldOn);
    CountCommandAppend(a, b, BoldOff);
  }

  lemma LineCommandsCount(cells: seq<Cell>, s: RenderState, c: Command)
    requires |cells| > 0 && !c.Print?
    ensures CountCommand(LineCommands(cells, s), c)
      == CountCommand(TransitionCommands(s, cells[0].style), c) + CountCommand(LineCommands(cells[1..], Target(cells[0].style)), c)
  {
    var tc := TransitionCommands(s, cells[0].style);
    var p := [Print(cells[0].character)];
    CountCommandAppend(tc + p, LineCommands(cells[1..], Target(cells[0].style)), c);
    CountCommandAppend(tc, p, c);
  }

  lemma {:induction false} LineBoldCommands(cells: seq<Cell>, s: RenderState)
    ensures CountCommand(LineCommands(cells, s), BoldOn) == BoldStarts(cells, s.bold)
    ensures CountCommand(LineCommands(cells, s), BoldOff) == BoldEnds(cells, s.bold)
    decreases |cells|
  {
    if |cells| > 0 {
      var t := cells[0].style;
      LineBoldCommands(cells[1..], Target(t));
      TransitionBoldCount(s, t);
      LineCommandsCount(cells, s, BoldOn);
      LineCommandsCount(cells, s, BoldOff);
    }
  }

  /** The state after a line is bold exactly when its last cell is. */
  lemma LineEndsBold(cells: seq<Cell>, s: RenderState)
    ensures RenderLine(cells, s).0.bold == LastBold(cells, s.bold)
  {
  }

  /** Every bold run is closed: starts and ends balance against the final flag. */
  lemma {:induction false} StartsBalanceEnds(cells: seq<Cell>, prevBold: bool)
    ensures BoldStarts(cells, prevBold) + (if prevBold then 1 else 0)
      == BoldEnds(cells, prevBold) + (if LastBold(cells, prevBold) then 1 else 0)
    decreases |cells|
  {
    if |cells| > 0 {
      StartsBalanceEnds(cells[1..], cells[0].style.Bold());
      if |cells| > 1 {
        assert cells[1..][|cells| - 2] == cells[|cells| - 1];
      }
    }
  }

  /**
   * Run minimisation: a row's bytes hold one `1B 45` (bold on) per maximal run
   * of bold cells and exactly as many `1B 46` (bold off), the last one coming
   * from the reset after the line ending when the row ends bold.
   */
  lemma RowBoldCodes(row: seq<Cell>)
    ensures CountPair(RenderRow(row, INITIAL).1, 0x1B, 0x45) == BoldRuns(row)
    ensures CountPair(RenderRow(row, INITIAL).1, 0x1B, 0x46) == BoldRuns(row)
  {
    var cs := RowCommands(row, INITIAL);
    RowEncodes(row, INITIAL);
    BoldOnWindows(cs);
    BoldOffWindows(cs);
    LineBoldCommands(row, INITIAL);
    LineEndsBold(row, INITIAL);
    StartsBalanceEnds(row, false);
    RowCommandsCount(row, BoldOn);
    RowCommandsCount(row, BoldOff);
  }

  lemma RowCommandsCount(row: seq<Cell>, c: Command)
    requires c == BoldOn || c == BoldOff
    ensures var s' := RenderLine(row, INITIAL).0;
      CountCommand(RowCommands(row, INITIAL), c)
        == CountCommand(LineCommands(row, INITIAL), c) + (if c == BoldOff && s'.bold then 1 else 0)
  {
    var line := LineCommands(row, INITIAL);
    var s' := RenderLine(row, INITIAL).0;
    var a := if s'.bold then [BoldOff] else [];
    var b := if s'.underline then [UnderlineOff] else [];
    CountCommandAppend(line + [CarriageReturn, LineFeed], ResetCommands(s'), c);
    CountCommandAppend(line, [CarriageReturn, LineFeed], c);
    CountCommandAppend(a, b, c);
  }

  lemma {:induction false} BoldStartsAppend(a: seq<Cell>, b: seq<Cell>, prevBold: bool)
    ensures BoldStarts(a + b, prevBold) == BoldStarts(a, prevBold) + BoldStarts(b, LastBold(a, prevBold))
    decreases |a|
  {
    if |a| == 0 {
      assert a + b == b;
    } else {
      assert (a + b)[0] == a[0] && (a + b)[1..] == a[1..] + b;
      BoldStartsAppend(a[1..], b, a[0].style.Bold());
      if |a| > 1 {
        assert a[1..][|a| - 2] == a[|a| - 1];
      }
    }
  }

  /** A non-empty stretch of bold cells is one run (or continues the previous one). */
  lemma {:induction false} BoldStretch(cells: seq<Cell>, prevBold: bool)
    requires forall i | 0 <= i < |cells| :: cells[i].style.Bold()
    ensures BoldStarts(cells, prevBold) == (if |cells| > 0 && !prevBold then 1 else 0)
    decreases |cells|
  {
    if |cells| > 0 {
      BoldStretch(cells[1..], true);
    }
  }

  /** A stretch without bold cells starts no run. */
  lemma {:induction false} PlainStretch(cells: seq<Cell>, prevBold: bool)
    requires forall i | 0 <= i < |cells| :: !cells[i].style.Bold()
    ensures BoldStarts(cells, prevBold) == 0
    decreases |cells|
  {
    if |cells| > 0 {
      PlainStretch(cells[1..], false);
    }
  }

  /** Five adjacent bold cells, then blanks: one bold-on and one bold-off code. */
  lemma FiveBoldCells()
    ensures var row := seq(5, _ => Cell('A' as int, BOLD)) + seq(155, _ => EMPTY);
      CountPair(RenderRow(row, INITIAL).1, 0x1B, 0x45) == 1
      && CountPair(RenderRow(row, INITIAL).1, 0x1B, 0x46) == 1
  {
    var bold := seq(5, _ => Cell('A' as int, BOLD));
    var blank := seq(155, _ => EMPTY);
    BoldStartsAppend(bold, blank, false);
    BoldStretch(bold, false);
    PlainStretch(blank, true);
    RowBoldCodes(bold + blank);
  }

  /** Bold, bold, plain, bold, bold: the plain cell splits the run, two bold-on codes. */
  lemma SplitBoldRun()
    ensures var b := Cell('A' as int, BOLD);
      var row := [b, b, Cell('C' as int, NONE), b, b] + seq(155, _ => EMPTY);
      CountPair(RenderRow(row, INITIAL).1, 0x1B, 0x45) == 2
  {
    var b := Cell('A' as int, BOLD);
    var blank := seq(155, _ => EMPTY);
    var head := [b, b, Cell('C' as int, NONE), b, b];
    var plain := [Cell('C' as int, NONE)];
    assert head == [b, b] + (plain + [b, b]);
    BoldStartsAppend([b, b], plain + [b, b], false);
    BoldStartsAppend(plain, [b, b], true);
    BoldStretch([b, b], false);
    BoldStretch([b, b], true);
    PlainStretch(plain, true);
    BoldStartsAppend(head, blank, false);
    PlainStretch(blank, true);
    RowBoldCodes(head + blank);
  }

  // ---------------------------------------------------------------------
  // Plain pages

  predicate AllPlain(cells: seq<Cell>)
  {
    forall i | 0 <= i < |cells| :: cells[i].style == NONE
  }

  /** Unstyled cells encode as their character bytes alone. */
  lemma {:induction false} PlainLine(cells: seq<Cell>)
    requires AllPlain(cells)
    ensures RenderLine(cells, INITIAL).0 == INITIAL
    ensures |RenderLine(cells, INITIAL).1| == |cells|
    ensures CountByte(RenderLine(cells, INITIAL).1, 0x1B) == 0
    decreases |cells|
  {
    if |cells| > 0 {
      PlainLine(cells[1..]);
      var rest := RenderLine(cells[1..], INITIAL).1;
      assert RenderLine(cells, INITIAL).1 == [cells[0].character] + rest;
      CountByteAppend([cells[0].character], rest, 0x1B);
    }
  }

  lemma {:induction false} PlainRows(rows: seq<seq<Cell>>)
    requires forall y | 0 <= y < |rows| :: AllPlain(rows[y]) && |rows[y]| == 160
    ensures |RenderRows(rows, INITIAL).1| == 162 * |rows|
    ensures CountByte(RenderRows(rows, INITIAL).1, 0x1B) == 0
    decreases |rows|
  {
    if |rows| > 0 {
      PlainLine(rows[0]);
      PlainRows(rows[1..]);
      var line := RenderLine(rows[0], INITIAL).1;
      var rest := RenderRows(rows[1..], INITIAL).1;
      assert RenderRow(rows[0], INITIAL).1 == line + [CR, LF];
      assert RenderRows(rows, INITIAL).1 == line + [CR, LF] + rest;
      CountByteAppend(line + [CR, LF], rest, 0x1B);
      CountByteAppend(line, [CR, LF], 0x1B);
      assert CountByte([CR, LF], 0x1B) == 0 by {
        assert [CR, LF][1..] == [LF] && [LF][1..] == [];
        assert CountByte([LF], 0x1B) == 0;
      }
    }
  }

  /**
   * A page with no styled cell encodes to exactly 51 x 162 bytes (160
   * characters, CR and LF per row) with no escape sequence at all.
   */
  lemma PlainPage(p: Page)
    requires forall x, y | InGrid(x, y) :: p.cells[y][x].style == NONE
    ensures |RenderPage(p)| == 51 * 162
    ensures CountByte(RenderPage(p), 0x1B) == 0
  {
    forall y | 0 <= y < 51
      ensures AllPlain(p.cells[y])
    {
      forall x | 0 <= x < 160
        ensures p.cells[y][x].style == NONE
      {
        assert InGrid(x, y);
      }
    }
    PlainRows(p.cells);
  }

  /** An empty document is exactly ESC @ SI. */
  lemma EmptyDocument()
    ensures RenderDocument([]) == [0x1B, 0x40, 0x0F]
    ensures CountByte(RenderDocument([]), FF) == 0
  {
    FormFeedCount([]);
  }
}
