/**
 * Rectangular areas of the 160x51 page, with checked construction,
 * splitting and padding.
 */
module Regions {
  import opened Base

  /** Page width in characters (condensed mode, 160 columns). */
  const PAGE_WIDTH: U16 := 160
  /** Page height in lines. */
  const PAGE_HEIGHT: U16 := 51

  datatype LayoutError =
    | RegionOutOfBounds(x: U16, y: U16, width: U16, height: U16)
    | InvalidDimensions(width: U16, height: U16)
    | InvalidSplit(parentSize: U16, splitSize: U16)

  datatype Region = Region(x: U16, y: U16, width: U16, height: U16)
  {
    /** Lies within the page. Zero width or height is allowed (splits can make them). */
    predicate InPage()
    {
      x + width <= PAGE_WIDTH as int && y + height <= PAGE_HEIGHT as int
    }

    /** Cell (cx, cy) lies inside the region. */
    predicate Contains(cx: int, cy: int)
    {
      x <= cx < x + width && y <= cy < y + height
    }
  }

  /**
   * `Region::new`: zero width or height is rejected first; then a region whose
   * end overflows u16 or passes the page edge is out of bounds.
   */
  function New(x: U16, y: U16, width: U16, height: U16): (r: Result<Region, LayoutError>)
    ensures r.Ok? <==> 0 < width && 0 < height && x + width <= 160 && y + height <= 51
    ensures r.Ok? ==> r.value == Region(x, y, width, height) && r.value.InPage()
    ensures (width == 0 || height == 0) ==> r == Err(InvalidDimensions(width, height))
    ensures r.Err? && width > 0 && height > 0 ==> r == Err(RegionOutOfBounds(x, y, width, height))
  {
    if width == 0 || height == 0 then Err(InvalidDimensions(width, height))
    else match (CheckedAdd16(x, width), CheckedAdd16(y, height))
      case (None, _) => Err(RegionOutOfBounds(x, y, width, height))
      case (_, None) => Err(RegionOutOfBounds(x, y, width, height))
      case (Some(endX), Some(endY)) =>
        if endX > PAGE_WIDTH || endY > PAGE_HEIGHT then
          Err(RegionOutOfBounds(x, y, width, height))
        else
          Ok(Region(x, y, width, height))
  }

  /** `Region::full_page`: every cell of the page. */
  function FullPage(): (r: Region)
    ensures r.InPage()
    ensures forall cx, cy :: r.Contains(cx, cy) <==> 0 <= cx < 160 && 0 <= cy < 51
  {
    Region(0, 0, PAGE_WIDTH, PAGE_HEIGHT)
  }

  /**
   * `split_vertical`: the top `topHeight` lines and the rest. Fails exactly
   * when `topHeight` exceeds the height; zero-height halves are allowed.
   */
  function SplitVertical(r: Region, topHeight: U16): (res: Result<(Region, Region), LayoutError>)
    requires r.InPage()
    ensures res.Err? <==> topHeight > r.height
    ensures res.Err? ==> res.error == InvalidSplit(r.height, topHeight)
    ensures res.Ok? ==> res.value.0.InPage() && res.value.1.InPage()
    ensures res.Ok? ==> res.value.0.height == topHeight
    ensures res.Ok? ==> res.value.0.width == r.width && res.value.1.width == r.width
    ensures res.Ok? ==> res.value.0.height + res.value.1.height == r.height
    ensures res.Ok? ==> res.value.0.x == r.x && res.value.0.y == r.y
    ensures res.Ok? ==> res.value.1.x == r.x && res.value.1.y == r.y + topHeight
  {
    if topHeight > r.height then Err(InvalidSplit(r.height, topHeight))
    else
      Ok((Region(r.x, r.y, r.width, topHeight),
          Region(r.x, r.y + topHeight, r.width, r.height - topHeight)))
  }

  /**
   * `split_horizontal`: the left `leftWidth` columns and the rest. Fails
   * exactly when `leftWidth` exceeds the width.
   */
  function SplitHorizontal(r: Region, leftWidth: U16): (res: Result<(Region, Region), LayoutError>)
    requires r.InPage()
    ensures res.Err? <==> leftWidth > r.width
    ensures res.Err? ==> res.error == InvalidSplit(r.width, leftWidth)
    ensures res.Ok? ==> res.value.0.InPage() && res.value.1.InPage()
    ensures res.Ok? ==> res.value.0.width == leftWidth
    ensures res.Ok? ==> res.value.0.height == r.height && res.value.1.height == r.height
    ensures res.Ok? ==> res.value.0.width + res.value.1.width == r.width
    ensures res.Ok? ==> res.value.0.x == r.x && res.value.0.y == r.y
    ensures res.Ok? ==> res.value.1.x == r.x + leftWidth && res.value.1.y == r.y
  {
    if leftWidth > r.width then Err(InvalidSplit(r.width, leftWidth))
    else
      Ok((Region(r.x, r.y, leftWidth, r.height),
          Region(r.x + leftWidth, r.y, r.width - leftWidth, r.height)))
  }

  /**
   * The two halves of a split tile the parent: every cell of the parent is in
   * exactly one half, and neither half has a cell outside the parent.
   */
  lemma SplitVerticalTiles(r: Region, topHeight: U16, cx: int, cy: int)
    requires r.InPage()
    requires SplitVertical(r, topHeight).Ok?
    ensures var (top, bottom) := SplitVertical(r, topHeight).value;
      (r.Contains(cx, cy) <==> top.Contains(cx, cy) || bottom.Contains(cx, cy))
      && !(top.Contains(cx, cy) && bottom.Contains(cx, cy))
  {
  }

  lemma SplitHorizontalTiles(r: Region, leftWidth: U16, cx: int, cy: int)
    requires r.InPage()
    requires SplitHorizontal(r, leftWidth).Ok?
    ensures var (left, right) := SplitHorizontal(r, leftWidth).value;
      (r.Contains(cx, cy) <==> left.Contains(cx, cy) || right.Contains(cx, cy))
      && !(left.Contains(cx, cy) && right.Contains(cx, cy))
  {
  }

  /**
   * `with_padding(top, right, bottom, left)`: shrinks the region by the given
   * margins. The margin sums are saturating; the call fails with the
   * (saturating) remaining size unless both remaining sizes are positive.
   */
  function WithPadding(r: Region, top: U16, right: U16, bottom: U16, left: U16): (res: Result<Region, LayoutError>)
    requires r.InPage()
    ensures res.Ok? <==> left + right < r.width && top + bottom < r.height
    ensures res.Err? ==> res.error == InvalidDimensions(
      SaturatingSub16(r.width, SaturatingAdd16(left, right)),
      SaturatingSub16(r.height, SaturatingAdd16(top, bottom)))
    ensures res.Ok? ==> res.value.InPage() && res.value.width > 0 && res.value.height > 0
    ensures res.Ok? ==> forall cx, cy :: res.value.Contains(cx, cy) <==>
      r.Contains(cx, cy) && r.x + left <= cx < r.x + r.width - right
      && r.y + top <= cy < r.y + r.height - bottom
  {
    var horizontal := SaturatingAdd16(left, right);
    var vertical := SaturatingAdd16(top, bottom);
    if horizontal >= r.width || vertical >= r.height then
      Err(InvalidDimensions(SaturatingSub16(r.width, horizontal), SaturatingSub16(r.height, vertical)))
    else
      Ok(Region(r.x + left, r.y + top, r.width - horizontal, r.height - vertical))
  }

  lemma RegionExamples()
    ensures New(0, 0, 160, 51).Ok? && New(159, 50, 1, 1).Ok?
    ensures New(100, 0, 80, 25).Err? && New(0, 40, 160, 20).Err?
    ensures New(0, 0, 161, 51).Err? && New(0, 0, 160, 52).Err?
    ensures New(0, 0, 0, 10) == Err(InvalidDimensions(0, 10))
    ensures WithPadding(Region(0, 0, 100, 50), 2, 5, 2, 5) == Ok(Region(5, 2, 90, 46))
    ensures WithPadding(Region(0, 0, 20, 10), 5, 0, 10, 0) == Err(InvalidDimensions(20, 0))
    ensures SplitVertical(FullPage(), 10) == Ok((Region(0, 0, 160, 10), Region(0, 10, 160, 41)))
    ensures SplitHorizontal(FullPage(), 40) == Ok((Region(0, 0, 40, 51), Region(40, 0, 120, 51)))
    ensures SplitVertical(FullPage(), 60).Err?
  {
  }
}
