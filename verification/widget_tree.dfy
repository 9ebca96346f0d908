/**
 * The widget composition tree: containers (`Rect`) holding positioned
 * children, and single-line text leaves (`Label`). Sizes are fixed when a
 * widget is made; `add_child` validates a child before appending it.
 */
module WidgetTree {
  import opened Base
  import opened Cells
  import opened Text

  /** What an `IntegerOverflow` error names as the overflowing computation. */
  datatype Operation =
    | ChildRightEdge(x: U16, width: U16)
    | ChildBottomEdge(y: U16, height: U16)
    | ExistingChildBounds

  /** Bounds written as (x, y, width, height). */
  type Bounds = (U16, U16, U16, U16)

  datatype RenderError =
    | ChildExceedsParent(parentWidth: U16, parentHeight: U16, childWidth: U16, childHeight: U16, position: (U16, U16))
    | OutOfBounds(start: (nat, nat), bounds: Bounds)
    | OverlappingChildren(child1: Bounds, child2: Bounds)
    | InsufficientSpace(available: U16, required: U16, layoutType: string)
    | IntegerOverflow(operation: Operation)
    | TextExceedsWidth(textLength: U16, widgetWidth: U16)

  /**
   * A widget and its fixed size. `Rect` is the container; `Label` is the
   * single-line text leaf.
   */
  datatype Widget =
    | Rect(width: U16, height: U16, children: seq<Node>)
    | Label(width: U16, height: U16, text: Option<string>, style: StyleFlags)

  /** A child: the widget, its position relative to the parent, its cached size. */
  datatype Node = Node(widget: Widget, x: U16, y: U16, width: U16, height: U16)

  /** `WidgetNode::new`: the cached size is the widget's own, the position the given one. */
  function NewNode(w: Widget, x: U16, y: U16): (n: Node)
    ensures n.widget == w && (n.x, n.y) == (x, y)
    ensures n.width == w.width && n.height == w.height
  {
    Node(w, x, y, w.width, w.height)
  }

  function NodeBounds(n: Node): Bounds
  {
    (n.x, n.y, n.width, n.height)
  }

  /** `Rect::new`: no children. */
  function NewRect(width: U16, height: U16): (w: Widget)
    requires width > 0 && height > 0
    ensures w.Rect? && w.children == [] && (w.width, w.height) == (width, height)
    ensures ChildrenWF(w)
  {
    Rect(width, height, [])
  }

  /** Strict AABB intersection of a node with the box (x, y, w, h); shared edges do not count. */
  predicate Overlaps(a: Node, x: int, y: int, w: int, h: int)
  {
    x + w > a.x && x < a.x + a.width && y + h > a.y && y < a.y + a.height
  }

  /** The node lies inside a parent of the given size. */
  predicate NodeFits(n: Node, parentWidth: int, parentHeight: int)
  {
    n.x + n.width <= parentWidth && n.y + n.height <= parentHeight
  }

  /**
   * The container invariant: every child lies inside the container, carries
   * its widget's size, and no two children overlap.
   */
  predicate ChildrenWF(w: Widget)
    requires w.Rect?
  {
    var cs := w.children;
    (forall i | 0 <= i < |cs| ::
      NodeFits(cs[i], w.width, w.height)
      && cs[i].width == cs[i].widget.width && cs[i].height == cs[i].widget.height)
    && (forall i, j | 0 <= i < j < |cs| :: !Overlaps(cs[i], cs[j].x, cs[j].y, cs[j].width, cs[j].height))
  }

  /** Every node's far edges are representable as u16. */
  predicate EdgesFit(cs: seq<Node>)
  {
    forall i | 0 <= i < |cs| :: NodeFits(cs[i], U16_MAX as int, U16_MAX as int)
  }

  /**
   * The overlap scan of `add_child`: existing children in insertion order;
   * for each, its edges are computed with checked u16 addition, then it is
   * tested against the new child's box. With representable edges, the scan
   * passes exactly when nothing overlaps and otherwise reports the first
   * overlapping child.
   */
  function CheckExisting(cs: seq<Node>, x: U16, y: U16, w: U16, h: U16): (r: Outcome<RenderError>)
    ensures r.Fail? ==> r.error == IntegerOverflow(ExistingChildBounds) || r.error.OverlappingChildren?
    ensures EdgesFit(cs) ==> (r.Pass? <==> forall i | 0 <= i < |cs| :: !Overlaps(cs[i], x, y, w, h))
    ensures EdgesFit(cs) && r.Fail? ==>
      exists i | 0 <= i < |cs| ::
        Overlaps(cs[i], x, y, w, h)
        && r.error == OverlappingChildren(NodeBounds(cs[i]), (x, y, w, h))
        && forall j | 0 <= j < i :: !Overlaps(cs[j], x, y, w, h)
    decreases |cs|
  {
    if |cs| == 0 then Pass
    else
      var e := cs[0];
      if CheckedAdd16(e.x, e.width).None? || CheckedAdd16(e.y, e.height).None? then
        Fail(IntegerOverflow(ExistingChildBounds))
      else if Overlaps(e, x, y, w, h) then
        Fail(OverlappingChildren(NodeBounds(e), (x, y, w, h)))
      else
        var r := CheckExisting(cs[1..], x, y, w, h);
        assert EdgesFit(cs) ==> EdgesFit(cs[1..]) by {
          if EdgesFit(cs) {
            forall i | 0 <= i < |cs[1..]| ensures NodeFits(cs[1..][i], U16_MAX as int, U16_MAX as int) {
              assert cs[1..][i] == cs[i + 1];
            }
          }
        }
        if EdgesFit(cs) && r.Fail? then
          var i :| 0 <= i < |cs[1..]| && Overlaps(cs[1..][i], x, y, w, h)
            && r.error == OverlappingChildren(NodeBounds(cs[1..][i]), (x, y, w, h))
            && forall j | 0 <= j < i :: !Overlaps(cs[1..][j], x, y, w, h);
          assert cs[1..][i] == cs[i + 1];
          assert forall j | 0 <= j < i + 1 :: !Overlaps(cs[j], x, y, w, h) by {
            forall j | 0 <= j < i + 1 ensures !Overlaps(cs[j], x, y, w, h) {
              if j > 0 { assert cs[j] == cs[1..][j - 1]; }
            }
          }
          r
        else
          assert EdgesFit(cs) && r.Pass? ==> forall i | 0 <= i < |cs| :: !Overlaps(cs[i], x, y, w, h) by {
            if EdgesFit(cs) && r.Pass? {
              forall i | 0 <= i < |cs| ensures !Overlaps(cs[i], x, y, w, h) {
                if i > 0 { assert cs[i] == cs[1..][i - 1]; }
              }
            }
          }
          r
  }

  /** A well-formed container's children have representable edges. */
  lemma WFEdgesFit(w: Widget)
    requires w.Rect? && ChildrenWF(w)
    ensures EdgesFit(w.children)
  {
  }

  /**
   * `Rect::add_child`. Checks, in order: the child's right edge and then its
   * bottom edge must not overflow u16; the child must lie inside the
   * container; it must not overlap any existing child. On failure the
   * container is returned unchanged; on success the child is appended.
   * It never reports `OutOfBounds`.
   */
  function AddChild(parent: Widget, child: Widget, x: U16, y: U16): (r: (Widget, Outcome<RenderError>))
    requires parent.Rect?
    ensures r.1.Fail? ==> r.0 == parent
    ensures r.1.Pass? ==> r.0 == parent.(children := parent.children + [NewNode(child, x, y)])
    ensures x + child.width > U16_MAX ==> r.1 == Fail(IntegerOverflow(ChildRightEdge(x, child.width)))
    ensures x + child.width <= U16_MAX < y + child.height ==>
      r.1 == Fail(IntegerOverflow(ChildBottomEdge(y, child.height)))
    ensures (x + child.width <= U16_MAX && y + child.height <= U16_MAX
      && !NodeFits(NewNode(child, x, y), parent.width, parent.height)) ==>
      r.1 == Fail(ChildExceedsParent(parent.width, parent.height, child.width, child.height, (x, y)))
    ensures !(r.1.Fail? && r.1.error.OutOfBounds?)
    ensures ChildrenWF(parent) ==>
      (r.1.Pass? <==>
        (NodeFits(NewNode(child, x, y), parent.width, parent.height)
         && forall i | 0 <= i < |parent.children| :: !Overlaps(parent.children[i], x, y, child.width, child.height)))
    ensures ChildrenWF(parent) ==> ChildrenWF(r.0)
  {
    match (CheckedAdd16(x, child.width), CheckedAdd16(y, child.height))
    case (None, _) => (parent, Fail(IntegerOverflow(ChildRightEdge(x, child.width))))
    case (_, None) => (parent, Fail(IntegerOverflow(ChildBottomEdge(y, child.height))))
    case (Some(right), Some(bottom)) =>
      if right > parent.width || bottom > parent.height then
        (parent, Fail(ChildExceedsParent(parent.width, parent.height, child.width, child.height, (x, y))))
      else
        match CheckExisting(parent.children, x, y, child.width, child.height)
        case Fail(e) => (parent, Fail(e))
        case Pass =>
          var r := parent.(children := parent.children + [NewNode(child, x, y)]);
          assert ChildrenWF(parent) ==> ChildrenWF(r) by {
            if ChildrenWF(parent) {
              WFEdgesFit(parent);
              var cs := r.children;
              assert forall i | 0 <= i < |parent.children| :: cs[i] == parent.children[i];
            }
          }
          (r, Pass)
  }

  /**
   * An overlap failure on a well-formed container names the first existing
   * child (in insertion order) that overlaps, and then the new child.
   */
  lemma AddChildNamesFirstOverlap(parent: Widget, child: Widget, x: U16, y: U16)
    requires parent.Rect? && ChildrenWF(parent)
    requires AddChild(parent, child, x, y).1.Fail?
    requires AddChild(parent, child, x, y).1.error.OverlappingChildren?
    ensures var e := AddChild(parent, child, x, y).1.error;
      var cs := parent.children;
      e.child2 == (x, y, child.width, child.height)
      && exists i | 0 <= i < |cs| ::
        Overlaps(cs[i], x, y, child.width, child.height) && e.child1 == NodeBounds(cs[i])
        && forall j | 0 <= j < i :: !Overlaps(cs[j], x, y, child.width, child.height)
  {
    WFEdgesFit(parent);
  }

  /** A sequence of `add_child` calls; failed calls leave the container as it was. */
  function AddChildren(parent: Widget, kids: seq<(Widget, U16, U16)>): (r: Widget)
    requires parent.Rect?
    ensures r.Rect? && (r.width, r.height) == (parent.width, parent.height)
    decreases |kids|
  {
    if |kids| == 0 then parent
    else AddChildren(AddChild(parent, kids[0].0, kids[0].1, kids[0].2).0, kids[1..])
  }

  /**
   * Whatever calls are made, a container built from `Rect::new` keeps every
   * child inside itself and no two children overlap.
   */
  lemma {:induction false} AddChildrenKeepsWF(parent: Widget, kids: seq<(Widget, U16, U16)>)
    requires parent.Rect? && ChildrenWF(parent)
    ensures ChildrenWF(AddChildren(parent, kids))
    decreases |kids|
  {
    if |kids| > 0 {
      AddChildrenKeepsWF(AddChild(parent, kids[0].0, kids[0].1, kids[0].2).0, kids[1..]);
    }
  }

  // ---------------------------------------------------------------------
  // Labels

  /** `Label::new` (and `label_new!`, which fixes the height at 1): no text, no style. */
  function NewLabel(width: U16, height: U16): (l: Widget)
    requires height == 1
    ensures l.Label? && l.text == None && l.style == NONE
    ensures (l.width, l.height) == (width, height)
  {
    Label(width, height, None, NONE)
  }

  /**
   * `add_text`: rejected when its UTF-8 byte length exceeds the width, or when
   * it contains a line feed (a lone carriage return is accepted); both
   * failures report the length (truncated to u16) and the width. Accepted
   * text is stored unchanged.
   */
  function AddText(l: Widget, text: string): (r: Result<Widget, RenderError>)
    requires l.Label?
    ensures r.Ok? <==> Utf8Len(text) <= l.width && '\n' !in text
    ensures r.Ok? ==> r.value == l.(text := Some(text))
    ensures r.Err? ==> r.error == TextExceedsWidth(TruncU16(Utf8Len(text)), l.width)
  {
    if Utf8Len(text) > l.width as int then Err(TextExceedsWidth(TruncU16(Utf8Len(text)), l.width))
    else if '\n' in text then Err(TextExceedsWidth(TruncU16(Utf8Len(text)), l.width))
    else Ok(l.(text := Some(text)))
  }

  /** `Label::bold`: adds bold to the style, nothing else changes. */
  function LabelBold(l: Widget): (r: Widget)
    requires l.Label?
    ensures r.Label? && r.text == l.text && r.width == l.width && r.height == l.height
    ensures r.style.Bold() && r.style.Underline() == l.style.Underline()
  {
    l.(style := l.style.WithBold())
  }

  /** `Label::underline`: adds underline to the style, nothing else changes. */
  function LabelUnderline(l: Widget): (r: Widget)
    requires l.Label?
    ensures r.Label? && r.text == l.text && r.width == l.width && r.height == l.height
    ensures r.style.Underline() && r.style.Bold() == l.style.Bold()
  {
    l.(style := l.style.WithUnderline())
  }

  /** Style builders commute and are idempotent. */
  lemma LabelStyleOrder(l: Widget)
    requires l.Label?
    ensures LabelBold(LabelUnderline(l)) == LabelUnderline(LabelBold(l))
    ensures LabelBold(LabelBold(l)) == LabelBold(l)
    ensures LabelUnderline(LabelUnderline(l)) == LabelUnderline(l)
  {
    StyleBuildersCommute(l.style);
  }

  lemma LabelExamples()
    ensures AddText(NewLabel(5, 1), "Hello") == Ok(Label(5, 1, Some("Hello"), NONE))
    ensures AddText(NewLabel(4, 1), "Hello") == Err(TextExceedsWidth(5, 4))
    ensures AddText(NewLabel(20, 1), "a\nb") == Err(TextExceedsWidth(3, 20))
    ensures AddText(NewLabel(20, 1), "a\rb").Ok?
  {
    AsciiUtf8Len("Hello");
    AsciiUtf8Len("a\nb");
    AsciiUtf8Len("a\rb");
  }

  /** Shared edges are not overlap; a real intersection is rejected. */
  lemma AddChildExamples()
    ensures var l := Label(20, 1, None, NONE);
      var p := AddChild(NewRect(80, 30), l, 0, 0).0;
      AddChild(p, l, 20, 0).1 == Pass
      && AddChild(p, l, 10, 0).1 == Fail(OverlappingChildren((0, 0, 20, 1), (10, 0, 20, 1)))
    ensures AddChild(NewRect(80, 30), Label(20, 1, None, NONE), 70, 0).1
      == Fail(ChildExceedsParent(80, 30, 20, 1, (70, 0)))
    ensures AddChild(NewRect(80, 30), Label(20, 1, None, NONE), 65530, 0).1
      == Fail(IntegerOverflow(ChildRightEdge(65530, 20)))
  {
  }
}
