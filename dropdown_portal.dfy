/**
 * Where the floating panel opens: just below its anchor, left-aligned with it, or
 * right-aligned with it when a left-aligned panel would run past the viewport.
 */
module DropdownPortal {
  import opened Wrappers

  /** The anchor's bounding client rectangle, in whole pixels. */
  datatype Rect = Rect(left: int, top: int, right: int, bottom: int)

  datatype Pos = Pos(top: int, left: int)

  const DropdownWidth: int := 260
  const GapBelow: int := 6

  /** The position before the effect has run. */
  const InitialPos: Pos := Pos(0, 0)

  /** The position the effect stores, given the anchor element (if mounted) and the viewport width. */
  function PositionFor(anchor: Option<Rect>, viewportWidth: int, previous: Pos): (p: Pos)
    ensures anchor.None? ==> p == previous
    ensures anchor.Some? ==> p.top == anchor.value.bottom + GapBelow
    ensures anchor.Some? && anchor.value.left + DropdownWidth <= viewportWidth ==>
      p.left == anchor.value.left && p.left + DropdownWidth <= viewportWidth
    ensures anchor.Some? && anchor.value.left + DropdownWidth > viewportWidth ==>
      p.left == anchor.value.right - DropdownWidth && p.left + DropdownWidth == anchor.value.right
  {
    match anchor
    case None => previous
    case Some(rect) =>
      var left := if rect.left + DropdownWidth > viewportWidth then rect.right - DropdownWidth else rect.left;
      Pos(rect.bottom + GapBelow, left)
  }

  /** An anchor that lies inside the viewport keeps the panel's right edge inside it too. */
  lemma RightEdgeInside(rect: Rect, viewportWidth: int, previous: Pos)
    requires rect.left <= rect.right <= viewportWidth
    ensures PositionFor(Some(rect), viewportWidth, previous).left + DropdownWidth <= viewportWidth
  {
  }

  /** The panel never starts right of its anchor's left edge. */
  lemma NeverRightOfAnchor(rect: Rect, viewportWidth: int, previous: Pos)
    requires rect.left <= rect.right <= viewportWidth
    ensures PositionFor(Some(rect), viewportWidth, previous).left <= rect.left
  {
  }

  /** With no anchor the panel stays at the top-left corner. */
  lemma NoAnchorStaysAtOrigin(viewportWidth: int)
    ensures PositionFor(None, viewportWidth, InitialPos) == Pos(0, 0)
  {
  }

  /** Flipped next to a narrow anchor in a narrow viewport, the panel starts left of the screen. */
  lemma FlipCanStartOffScreen()
    ensures PositionFor(Some(Rect(10, 0, 50, 20)), 200, InitialPos).left == -210
  {
  }
}
