/** The camera: the world offset subtracted from every position when drawing.
    It follows the player only while the player is moving and near an edge
    of the window, and it never shows anything left of the world's origin. */
module Camera {
  import opened Geometry

  /** Margins, in pixels from each window edge, inside which a moving player
      drags the camera along. */
  const SCROLL_AREA_WIDTH: int := 200
  const SCROLL_AREA_HEIGHT: int := 200

  /** The camera follows horizontally: the player moves right with its right
      edge within `areaW` of the window's right side, or moves left with its
      left edge within `areaW` of the window's left side. */
  predicate FollowsX(offsetX: int, rect: Rect, xVel: int, areaW: int) {
    (rect.Right() - offsetX >= WIDTH - areaW && xVel > 0) ||
    (rect.Left() - offsetX <= areaW && xVel < 0)
  }

  /** The horizontal offset after one tick: it moves by the player's speed
      exactly when the camera follows, and is then clamped at 0. */
  function ScrollX(offsetX: int, rect: Rect, xVel: int, areaW: int): (r: int)
    ensures r >= 0
    ensures FollowsX(offsetX, rect, xVel, areaW) ==> r == if offsetX + xVel < 0 then 0 else offsetX + xVel
    ensures !FollowsX(offsetX, rect, xVel, areaW) ==> r == if offsetX < 0 then 0 else offsetX
    ensures offsetX >= 0 && xVel == 0 ==> r == offsetX
    ensures offsetX >= 0 && areaW < rect.Left() - offsetX && rect.Right() - offsetX < WIDTH - areaW ==> r == offsetX
    ensures xVel > 0 ==> r >= offsetX
    ensures xVel < 0 && offsetX >= 0 ==> r <= offsetX
  {
    var moved := if FollowsX(offsetX, rect, xVel, areaW) then offsetX + xVel else offsetX;
    if moved < 0 then 0 else moved
  }

  /** The camera follows vertically: the player moves down with its bottom
      edge within `areaH` of the window's bottom, or moves up with its top
      edge within `areaH` of the window's top. */
  predicate FollowsY(offsetY: real, rect: Rect, yVel: real, areaH: int) {
    (rect.Bottom() as real - offsetY >= (HEIGHT - areaH) as real && yVel > 0.0) ||
    (rect.Top() as real - offsetY <= areaH as real && yVel < 0.0)
  }

  /** The vertical offset after one tick: it moves by exactly the player's
      vertical speed when the camera follows, stays otherwise, and is never
      clamped. */
  function ScrollY(offsetY: real, rect: Rect, yVel: real, areaH: int): (r: real)
    ensures FollowsY(offsetY, rect, yVel, areaH) ==> r == offsetY + yVel
    ensures !FollowsY(offsetY, rect, yVel, areaH) ==> r == offsetY
    ensures yVel == 0.0 ==> r == offsetY
    ensures areaH as real < rect.Top() as real - offsetY && rect.Bottom() as real - offsetY < (HEIGHT - areaH) as real
            ==> r == offsetY
  {
    if FollowsY(offsetY, rect, yVel, areaH) then offsetY + yVel else offsetY
  }

  /** While the camera follows, the player keeps its place on the screen:
      moving by the speed it follows with leaves the screen position unchanged. */
  lemma FollowingKeepsScreenPosition(offsetX: int, rect: Rect, xVel: int, areaW: int)
    requires offsetX >= 0 && xVel > 0 && rect.Right() - offsetX >= WIDTH - areaW
    ensures (rect.x + xVel) - ScrollX(offsetX, rect, xVel, areaW) == rect.x - offsetX
  {
  }
}
