/** `rectangularCollision` of web/src/pages/Space/utils/collision.ts (and
    the identical copy inside web/src/pages/Space.tsx): two rectangles
    collide when their closed x-ranges and their closed y-ranges both
    overlap. Coordinates are integers. */
module Collision {

  /** A rectangle: its top-left corner, its width and its height. */
  datatype Rect = Rect(x: int, y: int, width: int, height: int)

  predicate RectangularCollision(r1: Rect, r2: Rect) {
    && r1.x + r1.width >= r2.x
    && r1.x <= r2.x + r2.width
    && r1.y <= r2.y + r2.height
    && r1.y + r1.height >= r2.y
  }

  /** The closed interval from `lo` to `lo + len` contains `p`. */
  predicate InRange(p: int, lo: int, len: int) {
    lo <= p <= lo + len
  }

  /** For rectangles of non-negative size, colliding is sharing a point of
      the two closed regions. */
  lemma CollisionIsCommonPoint(r1: Rect, r2: Rect)
    requires r1.width >= 0 && r1.height >= 0 && r2.width >= 0 && r2.height >= 0
    ensures RectangularCollision(r1, r2) <==>
      exists px, py :: InRange(px, r1.x, r1.width) && InRange(px, r2.x, r2.width)
                    && InRange(py, r1.y, r1.height) && InRange(py, r2.y, r2.height)
  {
    if RectangularCollision(r1, r2) {
      var px := if r1.x >= r2.x then r1.x else r2.x;
      var py := if r1.y >= r2.y then r1.y else r2.y;
      assert InRange(px, r1.x, r1.width) && InRange(px, r2.x, r2.width);
      assert InRange(py, r1.y, r1.height) && InRange(py, r2.y, r2.height);
    }
  }

  /** The order of the arguments does not matter. */
  lemma CollisionSymmetric(r1: Rect, r2: Rect)
    ensures RectangularCollision(r1, r2) <==> RectangularCollision(r2, r1)
  {
  }

  /** Rectangles that only touch, the left edge of one on the right edge of
      the other, collide: the comparisons include equality. */
  lemma TouchingEdgesCollide(r1: Rect, r2: Rect)
    requires r1.width >= 0 && r2.width >= 0
    requires r2.x == r1.x + r1.width
    requires r1.y <= r2.y + r2.height && r2.y <= r1.y + r1.height
    ensures RectangularCollision(r1, r2)
  {
  }

  /** A rectangle whose right edge is left of the other's left edge does
      not collide with it; the same holds for the other three sides. */
  lemma SeparatedDoNotCollide(r1: Rect, r2: Rect)
    requires r1.x + r1.width < r2.x || r2.x + r2.width < r1.x || r1.y + r1.height < r2.y || r2.y + r2.height < r1.y
    ensures !RectangularCollision(r1, r2)
  {
  }

  /** A rectangle of non-negative size collides with itself. */
  lemma SelfCollision(r: Rect)
    requires r.width >= 0 && r.height >= 0
    ensures RectangularCollision(r, r)
  {
  }

  function Translate(r: Rect, dx: int, dy: int): Rect {
    r.(x := r.x + dx, y := r.y + dy)
  }

  /** Moving both rectangles by the same vector does not change whether they
      collide. */
  lemma CollisionTranslationInvariant(r1: Rect, r2: Rect, dx: int, dy: int)
    ensures RectangularCollision(Translate(r1, dx, dy), Translate(r2, dx, dy)) <==> RectangularCollision(r1, r2)
  {
  }

  /** Moving one rectangle by a vector is moving the other by its
      opposite. */
  lemma CollisionRelativeMove(r1: Rect, r2: Rect, dx: int, dy: int)
    ensures RectangularCollision(r1, Translate(r2, dx, dy)) <==> RectangularCollision(Translate(r1, -dx, -dy), r2)
  {
  }
}
