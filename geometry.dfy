/** Integer axis-aligned rectangles, as the game uses pygame's Rect, and the
    overlap test (Rect.colliderect) that collision handling relies on. */
module Geometry {

  /** Size of the window the game runs in (main.py: SCREEN_WIDTH, SCREEN_HEIGHT). */
  const ScreenWidth: int := 500
  const ScreenHeight: int := 500

  /** A rectangle given by its top-left corner and its size; y grows downwards. */
  datatype Rect = Rect(x: int, y: int, w: int, h: int) {
    function Left(): int { x }
    function Right(): int { x + w }
    function Top(): int { y }
    function Bottom(): int { y + h }

    /** Assigning `rect.bottom`: moves the rectangle vertically, keeping its size. */
    function WithBottom(bottom: int): (r: Rect)
      ensures r.Bottom() == bottom
      ensures r.x == x && r.w == w && r.h == h
    {
      Rect(x, bottom - h, w, h)
    }

    /** Assigning `rect.top`. */
    function WithTop(top: int): (r: Rect)
      ensures r.Top() == top
      ensures r.x == x && r.w == w && r.h == h
    {
      Rect(x, top, w, h)
    }

    /** Assigning `rect.left`: moves the rectangle horizontally, keeping its size. */
    function WithLeft(left: int): (r: Rect)
      ensures r.Left() == left
      ensures r.y == y && r.w == w && r.h == h
    {
      Rect(left, y, w, h)
    }

    /** Assigning `rect.right`. */
    function WithRight(right: int): (r: Rect)
      ensures r.Right() == right
      ensures r.y == y && r.w == w && r.h == h
    {
      Rect(right - w, y, w, h)
    }
  }

  /** The pixel (px, py) belongs to r: r covers the columns x .. x + w - 1
      and the rows y .. y + h - 1. */
  predicate HasPixel(r: Rect, px: int, py: int) {
    r.Left() <= px < r.Right() && r.Top() <= py < r.Bottom()
  }

  /** Rect.colliderect: the open intervals of both axes intersect, so
      rectangles that only share an edge do not collide. For integer
      rectangles of positive size this is the same as having a pixel in common. */
  predicate Collides(a: Rect, b: Rect): (c: bool)
    ensures c && a.w > 0 && a.h > 0 && b.w > 0 && b.h > 0 ==>
      var px, py := Max(a.x, b.x), Max(a.y, b.y);
      HasPixel(a, px, py) && HasPixel(b, px, py)
    ensures forall px, py :: HasPixel(a, px, py) && HasPixel(b, px, py) ==> c
  {
    a.Left() < b.Right() && b.Left() < a.Right() &&
    a.Top() < b.Bottom() && b.Top() < a.Bottom()
  }

  function Max(m: int, n: int): int {
    if m < n then n else m
  }

  /** The rectangle lies entirely within the window. */
  predicate OnScreen(r: Rect) {
    0 <= r.Left() && r.Right() <= ScreenWidth && 0 <= r.Top() && r.Bottom() <= ScreenHeight
  }

  /** Lies within the window's horizontal extent, the band the movement keys keep the player in. */
  predicate WithinScreenWidth(r: Rect) {
    0 <= r.Left() && r.Right() <= ScreenWidth
  }

  /** Overlap does not depend on which rectangle is asked about which. */
  lemma CollidesSymmetric(a: Rect, b: Rect)
    ensures Collides(a, b) <==> Collides(b, a)
  {
  }

  /** A rectangle resting with its bottom on another's top does not collide with it. */
  lemma StackedDoNotCollide(a: Rect, b: Rect)
    requires a.Bottom() == b.Top()
    ensures !Collides(a, b) && !Collides(b, a)
  {
  }
}
