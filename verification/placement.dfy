/** Where the widget sits inside the panel (src/ClockWidget.cpp): the anchors
    `configureLayerShell` chooses, the range `calculateBounds` derives, the
    rule `randomPosition` draws by, and the margins `repositionClock` sets. */
module Placement {
  import opened Cpp
  import opened KdeConfig
  import opened Layout

  /** `Config::HorizontalPadding`: the least distance from the panel's ends. */
  const Padding := 20

  /** Layer-shell anchors. */
  datatype Anchor = AnchorTop | AnchorBottom | AnchorLeft | AnchorRight

  /** `QMargins(left, top, right, bottom)`. */
  datatype Margins = Margins(left: int, top: int, right: int, bottom: int)

  /** The anchor pair `configureLayerShell` sets for a location code. */
  function AnchorsFor(location: int): set<Anchor>
  {
    if location == 3 then {AnchorTop, AnchorLeft}
    else if location == 5 then {AnchorLeft, AnchorTop}
    else if location == 6 then {AnchorRight, AnchorTop}
    else {AnchorBottom, AnchorLeft}
  }

  function EdgeAnchor(e: Edge): Anchor
  {
    match e
    case Top => AnchorTop
    case Bottom => AnchorBottom
    case Left => AnchorLeft
    case Right => AnchorRight
  }

  /** The widget is anchored to the panel's edge and to the start of the
      panel's long side: the left end of a horizontal panel, the top end of a
      vertical one. */
  lemma AnchorsFollowEdge(location: int)
    ensures AnchorsFor(location) ==
      {EdgeAnchor(EdgeOf(location)), if IsVertical(location) then AnchorTop else AnchorLeft}
    ensures |AnchorsFor(location)| == 2
  {
  }

  /** The lowest position of the range. */
  const MinPos := Padding

  /** The highest position `calculateBounds` derives: the panel's long side
      less the widget's extent along it and the padding. It is not corrected
      when it falls below `MinPos`. */
  function MaxPos(panelRect: Rect, vertical: bool, width: int, height: int): int
  {
    if vertical then panelRect.height - height - Padding
    else panelRect.width - width - Padding
  }

  /** The positions `randomPosition` may return: `minPos` alone when the
      range is empty, and otherwise any value in `[minPos, maxPos]`. */
  predicate Drawable(minPos: int, maxPos: int, pos: int)
  {
    if maxPos <= minPos then pos == minPos else minPos <= pos <= maxPos
  }

  /** Every drawable position is at least the padding, and when the widget
      fits between the two paddings it stays inside the panel's long side. */
  lemma DrawnInsidePanel(panelRect: Rect, vertical: bool, width: int, height: int, pos: int)
    requires Drawable(MinPos, MaxPos(panelRect, vertical, width, height), pos)
    ensures pos >= Padding
    ensures MaxPos(panelRect, vertical, width, height) >= MinPos ==>
      pos + (if vertical then height else width) + Padding <= (if vertical then panelRect.height else panelRect.width)
  {
  }

  /** The offset that centres the widget across the panel: half of the
      panel's thickness less the widget's extent, rounded toward zero, and
      never negative. */
  function CentreOffset(thickness: int, extent: int): (off: int)
    ensures off >= 0
    ensures thickness >= extent ==> 0 <= thickness - extent - 2 * off <= 1
    ensures thickness < extent ==> off == 0
  {
    var off := Half(thickness - extent);
    if off < 0 then 0 else off
  }

  /** The margins `repositionClock` sets for a position along the panel. */
  function MarginsFor(location: int, thickness: int, width: int, height: int, pos: int): Margins
  {
    if IsVertical(location) then
      var hOffset := CentreOffset(thickness, width);
      if location == 5 then Margins(hOffset, pos, 0, 0) else Margins(0, pos, hOffset, 0)
    else
      var vOffset := CentreOffset(thickness, height);
      if location == 3 then Margins(pos, vOffset, 0, 0) else Margins(pos, 0, 0, vOffset)
  }

  /** The position goes into the margin at the start of the panel's long
      side, the centring offset into the margin on the panel's edge, and the
      other two margins are 0; only anchored sides get a margin. */
  lemma MarginsOnAnchoredSides(location: int, thickness: int, width: int, height: int, pos: int)
    ensures var mg := MarginsFor(location, thickness, width, height, pos);
      var off := CentreOffset(thickness, if IsVertical(location) then width else height);
      match EdgeOf(location)
      case Top => mg == Margins(pos, off, 0, 0)
      case Bottom => mg == Margins(pos, 0, 0, off)
      case Left => mg == Margins(off, pos, 0, 0)
      case Right => mg == Margins(0, pos, off, 0)
    ensures var mg := MarginsFor(location, thickness, width, height, pos);
      var anchors := AnchorsFor(location);
      && (mg.left != 0 ==> AnchorLeft in anchors)
      && (mg.top != 0 ==> AnchorTop in anchors)
      && (mg.right != 0 ==> AnchorRight in anchors)
      && (mg.bottom != 0 ==> AnchorBottom in anchors)
  {
  }

  /** With a non-negative position every margin is non-negative. */
  lemma MarginsNonNegative(location: int, thickness: int, width: int, height: int, pos: int)
    requires pos >= 0
    ensures var mg := MarginsFor(location, thickness, width, height, pos);
      mg.left >= 0 && mg.top >= 0 && mg.right >= 0 && mg.bottom >= 0
  {
  }
}
