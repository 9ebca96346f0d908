/**
 * The ESC/P serializer: a two-flag style state machine that emits only
 * changes, and the page/document encoders built on it.
 */
module Escp {
  import opened Seqs
  import opened Base
  import opened Cells
  import opened Pages

  /** ESC @: printer reset and initialisation. */
  const ESC_RESET: seq<U8> := [0x1B, 0x40]
  /** SI: condensed mode. */
  const SI_CONDENSED: seq<U8> := [0x0F]
  /** ESC E / ESC F: bold on / off. */
  const ESC_BOLD_ON: seq<U8> := [0x1B, 0x45]
  const ESC_BOLD_OFF: seq<U8> := [0x1B, 0x46]
  /** ESC - 1 / ESC - 0: underline on / off. */
  const ESC_UNDERLINE_ON: seq<U8> := [0x1B, 0x2D, 0x01]
  const ESC_UNDERLINE_OFF: seq<U8> := [0x1B, 0x2D, 0x00]
  const CR: U8 := 0x0D
  const LF: U8 := 0x0A
  const FF: U8 := 0x0C

  /** No initialisation or style code contains the form-feed byte. */
  lemma CodesAvoidFormFeed()
    ensures FF !in ESC_RESET + SI_CONDENSED + ESC_BOLD_ON + ESC_BOLD_OFF
    ensures FF !in ESC_UNDERLINE_ON + ESC_UNDERLINE_OFF
    ensures CR != FF && LF != FF
  {
  }

  /** The printer's style as last set by the serializer. */
  datatype RenderState = RenderState(bold: bool, underline: bool)

  /** `RenderState::new`: both flags off. */
  const INITIAL := RenderState(false, false)

  /** The state a style asks for. */
  function Target(style: StyleFlags): RenderState
  {
    RenderState(style.Bold(), style.Underline())
  }

  /**
   * `transition_to`: moves to the target's flags, emitting the bold code
   * (only if bold changes) and then the underline code (only if underline
   * changes).
   */
  function Transition(s: RenderState, target: StyleFlags): (r: (RenderState, seq<U8>))
    ensures r.0 == Target(target)
    ensures r.1 == [] <==> s == Target(target)
    ensures s.bold != target.Bold() ==>
      (if target.Bold() then ESC_BOLD_ON else ESC_BOLD_OFF) <= r.1
    ensures s.bold == target.Bold() && s.underline != target.Underline() ==>
      r.1 == (if target.Underline() then ESC_UNDERLINE_ON else ESC_UNDERLINE_OFF)
    ensures s.underline != target.Underline() ==>
      |r.1| >= 3 && r.1[|r.1| - 3..] == (if target.Underline() then ESC_UNDERLINE_ON else ESC_UNDERLINE_OFF)
  {
    var boldCode :=
      if target.Bold() == s.bold then []
      else if target.Bold() then ESC_BOLD_ON else ESC_BOLD_OFF;
    var underlineCode :=
      if target.Underline() == s.underline then []
      else if target.Underline() then ESC_UNDERLINE_ON else ESC_UNDERLINE_OFF;
    (Target(target), boldCode + underlineCode)
  }

  /**
   * `reset`: bold off if it was on, then underline off if it was on; both
   * flags end off.
   */
  function Reset(s: RenderState): (r: (RenderState, seq<U8>))
    ensures r.0 == INITIAL
    ensures r.1 == [] <==> s == INITIAL
    ensures s.bold ==> ESC_BOLD_OFF <= r.1
    ensures !s.bold ==> r.1 == (if s.underline then ESC_UNDERLINE_OFF else [])
  {
    (INITIAL, (if s.bold then ESC_BOLD_OFF else []) + (if s.underline then ESC_UNDERLINE_OFF else []))
  }

  /**
   * `render_line`: for each cell, the transition to its style and then its
   * character byte. Returns the state after the last cell.
   */
  function RenderLine(cells: seq<Cell>, s: RenderState): (r: (RenderState, seq<U8>))
    ensures |cells| == 0 ==> r == (s, [])
    ensures |cells| > 0 ==> r.0 == Target(cells[|cells| - 1].style)
    ensures |r.1| >= |cells|
    decreases |cells|
  {
    if |cells| == 0 then (s, [])
    else
      var (s1, codes) := Transition(s, cells[0].style);
      var (s2, rest) := RenderLine(cells[1..], s1);
      (s2, codes + [cells[0].character] + rest)
  }

  /**
   * One iteration of `render_page`'s loop: the row's cells, CR, LF, and then
   * the reset codes (the reset comes after the line ending).
   */
  function RenderRow(row: seq<Cell>, s: RenderState): (r: (RenderState, seq<U8>))
    ensures r.0 == INITIAL
    ensures |r.1| >= |row| + 2
  {
    var (s1, line) := RenderLine(row, s);
    var (s2, reset) := Reset(s1);
    (s2, line + [CR, LF] + reset)
  }

  /** `render_page`'s loop over its rows, threading the style state. */
  function RenderRows(rows: seq<seq<Cell>>, s: RenderState): (r: (RenderState, seq<U8>))
    ensures |rows| > 0 ==> r.0 == INITIAL
    ensures |rows| == 0 ==> r == (s, [])
    ensures (forall i | 0 <= i < |rows| :: |rows[i]| == 160) ==> |r.1| >= 162 * |rows|
    decreases |rows|
  {
    if |rows| == 0 then (s, [])
    else
      var (s1, row) := RenderRow(rows[0], s);
      var (s2, rest) := RenderRows(rows[1..], s1);
      (s2, row + rest)
  }

  /** `render_page`: all 51 rows, from a fresh all-off state. */
  function RenderPage(p: Page): (r: seq<U8>)
    ensures |r| >= 51 * 162
  {
    RenderRows(p.cells, INITIAL).1
  }

  /**
   * `render_document`'s loop: each page's bytes followed by a form feed, in
   * order (written as "the earlier pages, then the last one").
   */
  function RenderPages(pages: seq<Page>): seq<U8>
  {
    if |pages| == 0 then []
    else RenderPages(pages[..|pages| - 1]) + RenderPage(pages[|pages| - 1]) + [FF]
  }

  /** `render_document`: ESC @, SI, then every page and its form feed. */
  function RenderDocument(pages: seq<Page>): (r: seq<U8>)
    ensures ESC_RESET + SI_CONDENSED <= r
    ensures |pages| == 0 ==> r == ESC_RESET + SI_CONDENSED
  {
    ESC_RESET + SI_CONDENSED + RenderPages(pages)
  }

  /**
   * Appending a page appends its bytes and a form feed, whatever came before:
   * a page's encoding depends only on that page.
   */
  lemma RenderDocumentAppend(pages: seq<Page>, p: Page)
    ensures RenderDocument(pages + [p]) == RenderDocument(pages) + RenderPage(p) + [FF]
  {
    assert (pages + [p])[..|pages|] == pages;
    var page := RenderPage(p);
    assert RenderPages(pages + [p]) == RenderPages(pages) + page + [FF];
    AppendAssociative(ESC_RESET + SI_CONDENSED, RenderPages(pages), page);
    AppendAssociative(ESC_RESET + SI_CONDENSED, RenderPages(pages) + page, [FF]);
  }
}
