/** java.awt.Rectangle and its intersects test, on unbounded integers. */
module Geometry {

  datatype Rect = Rect(x: int, y: int, width: int, height: int)

  /** Rectangle.intersects: an empty rectangle (a side not positive) meets
      nothing; otherwise the two must overlap strictly on both axes, so
      rectangles that only share an edge do not intersect. */
  predicate Intersects(a: Rect, b: Rect) {
    if a.width <= 0 || a.height <= 0 || b.width <= 0 || b.height <= 0 then false
    else b.x + b.width > a.x && b.y + b.height > a.y && a.x + a.width > b.x && a.y + a.height > b.y
  }

  /** The pixel (px, py) lies inside r. */
  predicate Covers(r: Rect, px: int, py: int) {
    r.x <= px < r.x + r.width && r.y <= py < r.y + r.height
  }

  /** Two rectangles intersect exactly when some pixel lies in both. */
  lemma IntersectsIffSharedPixel(a: Rect, b: Rect)
    ensures Intersects(a, b) <==> exists px, py :: Covers(a, px, py) && Covers(b, px, py)
  {
    if Intersects(a, b) {
      var px := if a.x < b.x then b.x else a.x;
      var py := if a.y < b.y then b.y else a.y;
      assert Covers(a, px, py) && Covers(b, px, py);
    }
  }
}
