/** Axis-aligned rectangles with integer coordinates, as the game uses them
    for every position and size, and the constants of the window. */
module Geometry {

  /** Window size in pixels. */
  const WIDTH: int := 1000
  const HEIGHT: int := 800
  /** Ticks per second. */
  const FPS: int := 60
  /** Horizontal speed of the player, pixels per tick. */
  const PLAYER_VEL: int := 5
  /** Size of one level-grid cell in pixels. */
  const BLOCK_SIZE: int := 96

  /** A rectangle: top-left corner (x, y), width w and height h; y grows downwards. */
  datatype Rect = Rect(x: int, y: int, w: nat, h: nat) {

    function Left(): int { x }
    function Right(): int { x + w }
    function Top(): int { y }
    function Bottom(): int { y + h }

    /** Assigning the bottom edge moves the rectangle vertically and keeps its size. */
    function WithBottom(b: int): (r: Rect)
      ensures r.Bottom() == b && r.x == x && r.w == w && r.h == h
    {
      Rect(x, b - h, w, h)
    }

    /** Assigning the top edge moves the rectangle vertically and keeps its size. */
    function WithTop(t: int): (r: Rect)
      ensures r.Top() == t && r.x == x && r.w == w && r.h == h
    {
      Rect(x, t, w, h)
    }

    /** Strict overlap of two rectangles: they share interior area. */
    predicate Colliderect(o: Rect) {
      x < o.x + o.w && y < o.y + o.h && x + w > o.x && y + h > o.y
    }

    /** The pixel (px, py) lies inside the rectangle. */
    predicate Contains(px: int, py: int) {
      x <= px < x + w && y <= py < y + h
    }

    predicate NonEmpty() { w > 0 && h > 0 }
  }

  lemma ColliderectSymmetric(a: Rect, b: Rect)
    ensures a.Colliderect(b) <==> b.Colliderect(a)
  {
  }

  /** For rectangles with area, the strict-inequality overlap test holds
      exactly when the two rectangles share a pixel. */
  lemma ColliderectIffCommonPixel(a: Rect, b: Rect)
    requires a.NonEmpty() && b.NonEmpty()
    ensures a.Colliderect(b) <==> exists px, py :: a.Contains(px, py) && b.Contains(px, py)
  {
    if a.Colliderect(b) {
      var px := if a.x < b.x then b.x else a.x;
      var py := if a.y < b.y then b.y else a.y;
      assert a.Contains(px, py) && b.Contains(px, py);
    }
  }
}
