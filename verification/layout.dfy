/**
 * Layout helpers that hand out empty containers: `Column` stacks rows top to
 * bottom, `Row` places columns left to right, and `Stack` gives full-size
 * layers.
 */
module Layouts {
  import opened Base
  import opened WidgetTree

  /** A column of the given size and the next free row. */
  datatype Column = Column(width: U16, height: U16, currentY: U16)

  /** `Column::new`: nothing allocated yet. */
  function NewColumn(width: U16, height: U16): (c: Column)
    ensures c.currentY == 0 && (c.width, c.height) == (width, height)
  {
    Column(width, height, 0)
  }

  /**
   * `Column::area(H)`: an empty `width` x `h` container placed at the next
   * free row, which then moves down by `h`. When fewer than `h` rows remain
   * it fails with `InsufficientSpace` and nothing changes.
   */
  function ColumnArea(c: Column, h: U16): (r: (Column, Result<(Widget, (U16, U16)), RenderError>))
    requires c.width > 0 && h > 0
    requires c.currentY <= c.height
    ensures r.1.Err? <==> c.currentY + h > c.height
    ensures r.1.Err? ==> r.0 == c && r.1.error == InsufficientSpace(c.height - c.currentY, h, "Column")
    ensures r.1.Ok? ==> r.1.value == (NewRect(c.width, h), (0, c.currentY))
    ensures r.1.Ok? ==> r.0 == c.(currentY := c.currentY + h)
    ensures r.0.currentY <= r.0.height && (r.0.width, r.0.height) == (c.width, c.height)
  {
    if c.currentY as int + h as int > c.height as int then
      (c, Err(InsufficientSpace(c.height - c.currentY, h, "Column")))
    else
      (c.(currentY := c.currentY + h), Ok((NewRect(c.width, h), (0, c.currentY))))
  }

  /** A strip [start, start + size) of an axis. */
  datatype Span = Span(start: U16, size: U16)

  /** The spans tile [start, end) in order, each starting where the previous ended. */
  predicate Contiguous(spans: seq<Span>, start: int, end: int)
    decreases |spans|
  {
    if |spans| == 0 then start == end
    else spans[0].start as int == start && Contiguous(spans[1..], start + spans[0].size, end)
  }

  /** A sequence of `area` calls on a column: the final column and the spans handed out. */
  function ColumnAreas(c: Column, hs: seq<U16>): (r: (Column, seq<Span>))
    requires c.width > 0 && c.currentY <= c.height
    requires forall k | 0 <= k < |hs| :: hs[k] > 0
    ensures r.0.currentY <= r.0.height && (r.0.width, r.0.height) == (c.width, c.height)
    decreases |hs|
  {
    if |hs| == 0 then (c, [])
    else
      var (c1, res) := ColumnArea(c, hs[0]);
      var (c2, rest) := ColumnAreas(c1, hs[1..]);
      (c2, (if res.Ok? then [Span(res.value.1.1, hs[0])] else []) + rest)
  }

  /**
   * Whatever is asked for, the rows handed out are contiguous, run from where
   * the column started to its final cursor, and never pass its height.
   */
  lemma {:induction false} ColumnAreasContiguous(c: Column, hs: seq<U16>)
    requires c.width > 0 && c.currentY <= c.height
    requires forall k | 0 <= k < |hs| :: hs[k] > 0
    ensures Contiguous(ColumnAreas(c, hs).1, c.currentY as int, ColumnAreas(c, hs).0.currentY as int)
    decreases |hs|
  {
    if |hs| > 0 {
      var (c1, res) := ColumnArea(c, hs[0]);
      ColumnAreasContiguous(c1, hs[1..]);
      var head: seq<Span> := if res.Ok? then [Span(res.value.1.1, hs[0])] else [];
      var rest := ColumnAreas(c1, hs[1..]).1;
      assert ColumnAreas(c, hs).1 == head + rest;
      if res.Ok? {
        assert (head + rest)[1..] == rest;
      } else {
        assert head + rest == rest;
      }
    }
  }

  /** Contiguous spans are pairwise disjoint and lie within [start, end). */
  lemma {:induction false} ContiguousDisjoint(spans: seq<Span>, start: int, end: int, i: nat, j: nat)
    requires Contiguous(spans, start, end)
    requires i < j < |spans|
    ensures start <= spans[i].start as int
    ensures spans[i].start + spans[i].size <= spans[j].start as int
    ensures spans[j].start + spans[j].size <= end
    decreases |spans|
  {
    ContiguousBounds(spans, start, end);
    if i == 0 {
      ContiguousBounds(spans[1..], start + spans[0].size, end);
      assert spans[1..][j - 1] == spans[j];
    } else {
      ContiguousDisjoint(spans[1..], start + spans[0].size, end, i - 1, j - 1);
      assert spans[1..][i - 1] == spans[i] && spans[1..][j - 1] == spans[j];
    }
  }

  lemma {:induction false} ContiguousBounds(spans: seq<Span>, start: int, end: int)
    requires Contiguous(spans, start, end)
    ensures start <= end
    ensures forall k | 0 <= k < |spans| :: start <= spans[k].start as int && spans[k].start + spans[k].size <= end
    decreases |spans|
  {
    if |spans| > 0 {
      ContiguousBounds(spans[1..], start + spans[0].size, end);
      forall k | 0 <= k < |spans|
        ensures start <= spans[k].start as int && spans[k].start + spans[k].size <= end
      {
        if k > 0 { assert spans[k] == spans[1..][k - 1]; }
      }
    }
  }

  /** Allocations summing to the height succeed; any further one fails. */
  lemma ColumnExamples()
    ensures var c0 := NewColumn(80, 30);
      var (c1, a) := ColumnArea(c0, 10);
      var (c2, b) := ColumnArea(c1, 10);
      var (c3, d) := ColumnArea(c2, 10);
      a.Ok? && b.Ok? && d.Ok? && b.value.1 == (0, 10) && d.value.1 == (0, 20)
      && ColumnArea(c3, 1).1 == Err(InsufficientSpace(0, 1, "Column"))
  {
  }

  /** A row of the given size and the next free column. */
  datatype Row = Row(width: U16, height: U16, currentX: U16)

  /** `Row::new`: nothing allocated yet. */
  function NewRow(width: U16, height: U16): (r: Row)
    ensures r.currentX == 0 && (r.width, r.height) == (width, height)
  {
    Row(width, height, 0)
  }

  /**
   * `Row::area(W)`: an empty `w` x `height` container at the next free
   * column, which then moves right by `w`; `InsufficientSpace` and no change
   * when fewer than `w` columns remain.
   */
  function RowArea(row: Row, w: U16): (r: (Row, Result<(Widget, (U16, U16)), RenderError>))
    requires row.height > 0 && w > 0
    requires row.currentX <= row.width
    ensures r.1.Err? <==> row.currentX + w > row.width
    ensures r.1.Err? ==> r.0 == row && r.1.error == InsufficientSpace(row.width - row.currentX, w, "Row")
    ensures r.1.Ok? ==> r.1.value == (NewRect(w, row.height), (row.currentX, 0))
    ensures r.1.Ok? ==> r.0 == row.(currentX := row.currentX + w)
    ensures r.0.currentX <= r.0.width && (r.0.width, r.0.height) == (row.width, row.height)
  {
    if row.currentX as int + w as int > row.width as int then
      (row, Err(InsufficientSpace(row.width - row.currentX, w, "Row")))
    else
      (row.(currentX := row.currentX + w), Ok((NewRect(w, row.height), (row.currentX, 0))))
  }

  /** A sequence of `area` calls on a row. */
  function RowAreas(row: Row, ws: seq<U16>): (r: (Row, seq<Span>))
    requires row.height > 0 && row.currentX <= row.width
    requires forall k | 0 <= k < |ws| :: ws[k] > 0
    ensures r.0.currentX <= r.0.width && (r.0.width, r.0.height) == (row.width, row.height)
    decreases |ws|
  {
    if |ws| == 0 then (row, [])
    else
      var (r1, res) := RowArea(row, ws[0]);
      var (r2, rest) := RowAreas(r1, ws[1..]);
      (r2, (if res.Ok? then [Span(res.value.1.0, ws[0])] else []) + rest)
  }

  /** The columns handed out are contiguous from the start to the final cursor. */
  lemma {:induction false} RowAreasContiguous(row: Row, ws: seq<U16>)
    requires row.height > 0 && row.currentX <= row.width
    requires forall k | 0 <= k < |ws| :: ws[k] > 0
    ensures Contiguous(RowAreas(row, ws).1, row.currentX as int, RowAreas(row, ws).0.currentX as int)
    decreases |ws|
  {
    if |ws| > 0 {
      var (r1, res) := RowArea(row, ws[0]);
      RowAreasContiguous(r1, ws[1..]);
      var head: seq<Span> := if res.Ok? then [Span(res.value.1.0, ws[0])] else [];
      var rest := RowAreas(r1, ws[1..]).1;
      assert RowAreas(row, ws).1 == head + rest;
      if res.Ok? {
        assert (head + rest)[1..] == rest;
      } else {
        assert head + rest == rest;
      }
    }
  }

  /** In a width-80 row, 30 and 40 fit and a further 20 does not. */
  lemma RowExamples()
    ensures var r0 := NewRow(80, 30);
      var (r1, a) := RowArea(r0, 30);
      var (r2, b) := RowArea(r1, 40);
      a.Ok? && b.Ok? && b.value.1 == (30, 0)
      && RowArea(r2, 20).1 == Err(InsufficientSpace(10, 20, "Row"))
  {
  }

  /** A stack of the given size; it keeps no state. */
  datatype Stack = Stack(width: U16, height: U16)

  function NewStack(width: U16, height: U16): (s: Stack)
    ensures (s.width, s.height) == (width, height)
  {
    Stack(width, height)
  }

  /** `Stack::area`: always an empty full-size container at the origin. */
  function StackArea(s: Stack): (r: (Widget, (U16, U16)))
    requires s.width > 0 && s.height > 0
    ensures r.0.Rect? && r.0.children == [] && (r.0.width, r.0.height) == (s.width, s.height)
    ensures r.1 == (0, 0)
    ensures AddChild(NewRect(s.width, s.height), r.0, r.1.0, r.1.1).1 == Pass
  {
    (NewRect(s.width, s.height), (0, 0))
  }

  /**
   * Stack layers cannot both be children of one container: every layer
   * covers the whole area, so the second is rejected as overlapping the
   * first, and the container keeps only the first.
   */
  lemma StackLayersOverlap(s: Stack)
    requires s.width > 0 && s.height > 0
    ensures var (layer, pos) := StackArea(s);
      var (p1, o1) := AddChild(NewRect(s.width, s.height), layer, pos.0, pos.1);
      var (p2, o2) := AddChild(p1, layer, pos.0, pos.1);
      o1 == Pass && p2 == p1
      && o2 == Fail(OverlappingChildren((0, 0, s.width, s.height), (0, 0, s.width, s.height)))
  {
    var (layer, pos) := StackArea(s);
    var (p1, o1) := AddChild(NewRect(s.width, s.height), layer, pos.0, pos.1);
    assert p1.children == [NewNode(layer, 0, 0)];
    assert Overlaps(p1.children[0], 0, 0, s.width, s.height);
  }

  /** Areas handed out by a column can all be added to a container of its size. */
  lemma ColumnAreasFitParent(width: U16, height: U16, h1: U16, h2: U16)
    requires width > 0 && height > 0 && h1 > 0 && h2 > 0
    requires h1 as int + h2 as int <= height as int
    ensures var c0 := NewColumn(width, height);
      var (c1, a) := ColumnArea(c0, h1);
      var (c2, b) := ColumnArea(c1, h2);
      var (p1, o1) := AddChild(NewRect(width, height), a.value.0, a.value.1.0, a.value.1.1);
      var (p2, o2) := AddChild(p1, b.value.0, b.value.1.0, b.value.1.1);
      o1 == Pass && o2 == Pass
  {
    var c0 := NewColumn(width, height);
    var (c1, a) := ColumnArea(c0, h1);
    var (p1, o1) := AddChild(NewRect(width, height), a.value.0, a.value.1.0, a.value.1.1);
    assert p1.children == [NewNode(a.value.0, 0, 0)];
  }
}
