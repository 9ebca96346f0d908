/**
 * Rendering a widget tree into a page builder: a render context that checks
 * only where a write starts, depth-first traversal with cumulative offsets,
 * fail-fast without rollback.
 */
module WidgetRender {
  import opened Base
  import opened Cells
  import opened Pages
  import opened WidgetTree

  /** The page builder being written and the clip bounds (x, y, width, height). */
  datatype Context = Context(builder: PageBuilder, clip: Bounds)

  /** The page's bounds. */
  const PAGE_BOUNDS: Bounds := (0, 0, 160, 51)

  /** `RenderContext::new`: clip bounds are the whole page. */
  function NewContext(b: PageBuilder): (c: Context)
    ensures c.builder == b && ClipBounds(c) == (0, 0, 160, 51)
  {
    Context(b, PAGE_BOUNDS)
  }

  /** `clip_bounds`. */
  function ClipBounds(c: Context): Bounds
  {
    c.clip
  }

  /**
   * `write_styled`: fails with `OutOfBounds` when the start column is at or
   * past the clip width or the start row at or past the clip height, and then
   * the builder is untouched. Otherwise the text goes in through `write_str`,
   * which drops whatever falls off the right edge.
   */
  function WriteStyled(c: Context, text: string, x: nat, y: nat, style: StyleFlags): (r: (Context, Outcome<RenderError>))
    ensures r.0.clip == c.clip
    ensures r.1.Fail? <==> x >= c.clip.2 as int || y >= c.clip.3 as int
    ensures r.1.Fail? ==> r.0 == c && r.1.error == OutOfBounds((x, y), c.clip)
    ensures r.1.Pass? ==> forall cx, cy | InGrid(cx, cy) ::
      r.0.builder.cells[cy][cx] ==
        (if cy == y && x <= cx < x + |text| then NewCell(text[cx - x], style) else c.builder.cells[cy][cx])
  {
    if x >= c.clip.2 as int || y >= c.clip.3 as int then (c, Fail(OutOfBounds((x, y), c.clip)))
    else (c.(builder := WriteStr(c.builder, x, y, text, style)), Pass)
  }

  /** `write_text`: `write_styled` with no style. */
  function WriteText(c: Context, text: string, x: nat, y: nat): (r: (Context, Outcome<RenderError>))
    ensures r.1.Fail? <==> x >= c.clip.2 as int || y >= c.clip.3 as int
    ensures r.1.Fail? ==> r.0 == c && r.1.error == OutOfBounds((x, y), c.clip)
    ensures r.1.Pass? ==> forall cx, cy | InGrid(cx, cy) ::
      r.0.builder.cells[cy][cx] ==
        (if cy == y && x <= cx < x + |text| then NewCell(text[cx - x], NONE) else c.builder.cells[cy][cx])
  {
    WriteStyled(c, text, x, y, NONE)
  }

  /**
   * `render_to`. A label with text makes one styled write at its absolute
   * position and one without text does nothing; a container renders its
   * children in insertion order, each at the container's position plus the
   * child's offset, and stops at the first failure (earlier writes stay).
   */
  function RenderTo(c: Context, w: Widget, x: nat, y: nat): (r: (Context, Outcome<RenderError>))
    ensures r.0.clip == c.clip
    decreases w, 1
  {
    match w
    case Label(_, _, text, style) =>
      if text.None? then (c, Pass) else WriteStyled(c, text.value, x, y, style)
    case Rect(_, _, _) => RenderChildren(c, w, 0, x, y)
  }

  function RenderChildren(c: Context, w: Widget, i: nat, x: nat, y: nat): (r: (Context, Outcome<RenderError>))
    requires w.Rect? && i <= |w.children|
    ensures r.0.clip == c.clip
    decreases w, 0, |w.children| - i
  {
    if i == |w.children| then (c, Pass)
    else
      var n := w.children[i];
      var (c1, o) := RenderTo(c, n.widget, x + n.x, y + n.y);
      if o.Fail? then (c1, o) else RenderChildren(c1, w, i + 1, x, y)
  }

  // ---------------------------------------------------------------------
  // Reference semantics: the list of writes a tree makes

  /** One text write at an absolute position. */
  datatype Write = Write(text: string, x: nat, y: nat, style: StyleFlags)

  /** The labels of a tree in depth-first order, at absolute positions. */
  function Flatten(w: Widget, x: nat, y: nat): seq<Write>
    decreases w, 1
  {
    match w
    case Label(_, _, text, style) => if text.None? then [] else [Write(text.value, x, y, style)]
    case Rect(_, _, _) => FlattenFrom(w, 0, x, y)
  }

  function FlattenFrom(w: Widget, i: nat, x: nat, y: nat): seq<Write>
    requires w.Rect? && i <= |w.children|
    decreases w, 0, |w.children| - i
  {
    if i == |w.children| then []
    else
      var n := w.children[i];
      Flatten(n.widget, x + n.x, y + n.y) + FlattenFrom(w, i + 1, x, y)
  }

  /** Performing writes in order through the context, stopping at the first failure. */
  function RunWrites(c: Context, ws: seq<Write>): (r: (Context, Outcome<RenderError>))
    ensures r.0.clip == c.clip
    decreases |ws|
  {
    if |ws| == 0 then (c, Pass)
    else
      var (c1, o) := WriteStyled(c, ws[0].text, ws[0].x, ws[0].y, ws[0].style);
      if o.Fail? then (c1, o) else RunWrites(c1, ws[1..])
  }

  /** The writes applied directly to a builder. */
  function ApplyWrites(b: PageBuilder, ws: seq<Write>): PageBuilder
    decreases |ws|
  {
    if |ws| == 0 then b
    else ApplyWrites(WriteStr(b, ws[0].x, ws[0].y, ws[0].text, ws[0].style), ws[1..])
  }

  predicate Starts(wr: Write, clip: Bounds)
  {
    wr.x < clip.2 as int && wr.y < clip.3 as int
  }

  lemma {:induction false} RunWritesAppend(c: Context, a: seq<Write>, b: seq<Write>)
    ensures RunWrites(c, a + b) ==
      (var (c1, o) := RunWrites(c, a); if o.Fail? then (c1, o) else RunWrites(c1, b))
    decreases |a|
  {
    if |a| == 0 {
      assert a + b == b;
    } else {
      assert (a + b)[0] == a[0] && (a + b)[1..] == a[1..] + b;
      var (c1, o) := WriteStyled(c, a[0].text, a[0].x, a[0].y, a[0].style);
      if o.Pass? {
        RunWritesAppend(c1, a[1..], b);
      }
    }
  }

  /** Traversing the tree is running its flattened writes. */
  lemma {:induction false} RenderToRunsWrites(c: Context, w: Widget, x: nat, y: nat)
    ensures RenderTo(c, w, x, y) == RunWrites(c, Flatten(w, x, y))
    decreases w, 1
  {
    match w
    case Label(_, _, text, style) =>
      if text.Some? {
        var ws := [Write(text.value, x, y, style)];
        assert ws[1..] == [];
      }
    case Rect(_, _, _) =>
      RenderChildrenRunsWrites(c, w, 0, x, y);
  }

  lemma {:induction false} RenderChildrenRunsWrites(c: Context, w: Widget, i: nat, x: nat, y: nat)
    requires w.Rect? && i <= |w.children|
    ensures RenderChildren(c, w, i, x, y) == RunWrites(c, FlattenFrom(w, i, x, y))
    decreases w, 0, |w.children| - i
  {
    if i < |w.children| {
      var n := w.children[i];
      var a := Flatten(n.widget, x + n.x, y + n.y);
      RenderToRunsWrites(c, n.widget, x + n.x, y + n.y);
      RunWritesAppend(c, a, FlattenFrom(w, i + 1, x, y));
      var (c1, o) := RunWrites(c, a);
      if o.Pass? {
        RenderChildrenRunsWrites(c1, w, i + 1, x, y);
      }
    }
  }

  /** When every write starts inside the clip, all succeed and each lands in order. */
  lemma {:induction false} RunWritesAllStart(c: Context, ws: seq<Write>)
    requires forall k | 0 <= k < |ws| :: Starts(ws[k], c.clip)
    ensures RunWrites(c, ws) == (c.(builder := ApplyWrites(c.builder, ws)), Pass)
    decreases |ws|
  {
    if |ws| > 0 {
      var c1 := c.(builder := WriteStr(c.builder, ws[0].x, ws[0].y, ws[0].text, ws[0].style));
      RunWritesAllStart(c1, ws[1..]);
    }
  }

  /**
   * At the first write that starts outside the clip the run fails with that
   * write's `OutOfBounds`; the writes before it remain (no rollback).
   */
  lemma {:induction false} RunWritesFirstOutside(c: Context, ws: seq<Write>, k: nat)
    requires k < |ws| && !Starts(ws[k], c.clip)
    requires forall j | 0 <= j < k :: Starts(ws[j], c.clip)
    ensures RunWrites(c, ws)
      == (c.(builder := ApplyWrites(c.builder, ws[..k])), Fail(OutOfBounds((ws[k].x, ws[k].y), c.clip)))
    decreases k
  {
    if k == 0 {
      assert ws[..0] == [];
    } else {
      var c1 := c.(builder := WriteStr(c.builder, ws[0].x, ws[0].y, ws[0].text, ws[0].style));
      RunWritesFirstOutside(c1, ws[1..], k - 1);
      assert ws[1..][..k - 1] == ws[..k][1..];
    }
  }

  /**
   * `PageBuilder::render`: renders the root at (0, 0) through a context
   * clipped to the page. It succeeds exactly when every label with text
   * starts on the page, and then the builder holds the labels' writes in
   * depth-first order. Otherwise it reports the first label that starts off
   * the page and keeps the writes made before it.
   */
  function PageRender(b: PageBuilder, root: Widget): (r: (PageBuilder, Outcome<RenderError>))
    ensures var ws := Flatten(root, 0, 0);
      r.1.Pass? <==> forall k | 0 <= k < |ws| :: Starts(ws[k], PAGE_BOUNDS)
    ensures r.1.Pass? ==> r.0 == ApplyWrites(b, Flatten(root, 0, 0))
    ensures var ws := Flatten(root, 0, 0);
      r.1.Fail? ==> exists k | 0 <= k < |ws| ::
        !Starts(ws[k], PAGE_BOUNDS) && (forall j | 0 <= j < k :: Starts(ws[j], PAGE_BOUNDS))
        && r == (ApplyWrites(b, ws[..k]), Fail(OutOfBounds((ws[k].x, ws[k].y), PAGE_BOUNDS)))
  {
    var c := NewContext(b);
    var ws := Flatten(root, 0, 0);
    RenderToRunsWrites(c, root, 0, 0);
    var r := RenderTo(c, root, 0, 0);
    if forall k | 0 <= k < |ws| :: Starts(ws[k], PAGE_BOUNDS) then
      RunWritesAllStart(c, ws);
      (r.0.builder, r.1)
    else
      var k := FirstOutside(ws, PAGE_BOUNDS);
      RunWritesFirstOutside(c, ws, k);
      (r.0.builder, r.1)
  }

  /** The index of the first write that starts outside the clip. */
  function FirstOutside(ws: seq<Write>, clip: Bounds): (k: nat)
    requires exists k | 0 <= k < |ws| :: !Starts(ws[k], clip)
    ensures k < |ws| && !Starts(ws[k], clip)
    ensures forall j | 0 <= j < k :: Starts(ws[j], clip)
    decreases |ws|
  {
    if !Starts(ws[0], clip) then 0
    else
      var k :| 0 <= k < |ws| && !Starts(ws[k], clip);
      assert ws[1..][k - 1] == ws[k];
      1 + FirstOutside(ws[1..], clip)
  }

  /**
   * Offsets accumulate: a label at (10, 8) inside a container at (15, 5)
   * inside a container at (5, 2) writes at (30, 15).
   */
  lemma NestedOffsets()
    ensures var leaf := Label(10, 1, Some("Deep"), NONE);
      var inner := Rect(40, 20, [Node(leaf, 10, 8, 10, 1)]);
      var middle := Rect(60, 30, [Node(inner, 15, 5, 40, 20)]);
      var root := Rect(80, 40, [Node(middle, 5, 2, 60, 30)]);
      Flatten(root, 0, 0) == [Write("Deep", 30, 15, NONE)]
  {
    var leaf := Label(10, 1, Some("Deep"), NONE);
    var inner := Rect(40, 20, [Node(leaf, 10, 8, 10, 1)]);
    var middle := Rect(60, 30, [Node(inner, 15, 5, 40, 20)]);
    var root := Rect(80, 40, [Node(middle, 5, 2, 60, 30)]);
    var w := [Write("Deep", 30, 15, NONE)];
    assert Flatten(leaf, 30, 15) == w;
    assert FlattenFrom(inner, 1, 20, 7) == [];
    assert FlattenFrom(inner, 0, 20, 7) == w + [];
    assert FlattenFrom(middle, 1, 5, 2) == [];
    assert FlattenFrom(middle, 0, 5, 2) == Flatten(inner, 20, 7) + [];
    assert FlattenFrom(root, 1, 0, 0) == [];
    assert FlattenFrom(root, 0, 0, 0) == Flatten(middle, 5, 2) + [];
  }

  /**
   * A root taller than the page is accepted by `add_child`, but a label on a
   * row past the page fails at render time with `OutOfBounds`, and the label
   * before it has already been written.
   */
  lemma TallRootFails()
    ensures var first := Label(5, 1, Some("Top"), NONE);
      var low := Label(5, 1, Some("Low"), NONE);
      var root := Rect(80, 66, [Node(first, 0, 0, 5, 1), Node(low, 0, 60, 5, 1)]);
      ChildrenWF(root)
      && PageRender(NewBuilder(), root)
        == (WriteStr(NewBuilder(), 0, 0, "Top", NONE), Fail(OutOfBounds((0, 60), (0, 0, 160, 51))))
  {
    var first := Label(5, 1, Some("Top"), NONE);
    var low := Label(5, 1, Some("Low"), NONE);
    var root := Rect(80, 66, [Node(first, 0, 0, 5, 1), Node(low, 0, 60, 5, 1)]);
    var ws := Flatten(root, 0, 0);
    assert FlattenFrom(root, 2, 0, 0) == [];
    assert FlattenFrom(root, 1, 0, 0) == [Write("Low", 0, 60, NONE)] + [];
    assert FlattenFrom(root, 0, 0, 0) == [Write("Top", 0, 0, NONE)] + FlattenFrom(root, 1, 0, 0);
    assert ws == [Write("Top", 0, 0, NONE), Write("Low", 0, 60, NONE)];
    assert !Starts(ws[1], PAGE_BOUNDS) && Starts(ws[0], PAGE_BOUNDS);
    assert ws[..1] == [Write("Top", 0, 0, NONE)];
    var b := NewBuilder();
    assert ApplyWrites(b, ws[..1]) == ApplyWrites(WriteStr(b, 0, 0, "Top", NONE), []);
    var r := PageRender(b, root);
    assert r.1.Fail?;
    var k :| 0 <= k < |ws| && !Starts(ws[k], PAGE_BOUNDS) && (forall j | 0 <= j < k :: Starts(ws[j], PAGE_BOUNDS))
      && r == (ApplyWrites(b, ws[..k]), Fail(OutOfBounds((ws[k].x, ws[k].y), PAGE_BOUNDS)));
    assert k == 1;
  }

  /** Only the start is checked: a write from column 150 succeeds and is cut at column 159. */
  lemma LongWriteClipped()
    ensures var r := WriteText(NewContext(NewBuilder()), seq(20, _ => 'A'), 150, 0);
      r.1.Pass? && r.0.builder.cells[0][159] == Cell('A' as int, NONE)
  {
    assert InGrid(159, 0);
  }
}
