/** The corner layout get_projection builds from a raster's bounds. */
module Corners {

  datatype Point<T> = Point(x: T, y: T)

  /** A raster's `bounds`: (left, bottom, right, top). */
  datatype Bounds<T> = Bounds(left: T, bottom: T, right: T, top: T)

  /** The `geo_ref_points`: upper-left, upper-right, lower-left, lower-right. */
  datatype GeoRefPoints<T> = GeoRefPoints(ul: Point<T>, ur: Point<T>, ll: Point<T>, lr: Point<T>)

  /** Corners of an axis-aligned rectangle: a shared top, bottom, left and right. */
  predicate IsRectangle<T(==)>(c: GeoRefPoints<T>) {
    && c.ul.y == c.ur.y && c.ll.y == c.lr.y
    && c.ul.x == c.ll.x && c.ur.x == c.lr.x
  }

  function CornersOf<T>(b: Bounds<T>): GeoRefPoints<T> {
    GeoRefPoints(
      Point(b.left, b.top),
      Point(b.right, b.top),
      Point(b.left, b.bottom),
      Point(b.right, b.bottom))
  }

  /** The bounds read back from the corners: lower-left gives left and bottom, upper-right right and top. */
  function BoundsOf<T>(c: GeoRefPoints<T>): Bounds<T> {
    Bounds(c.ll.x, c.ll.y, c.ur.x, c.ur.y)
  }

  /** The layout is a rectangle that keeps all four bounds. */
  lemma CornersKeepBounds<T>(b: Bounds<T>)
    ensures IsRectangle(CornersOf(b))
    ensures BoundsOf(CornersOf(b)) == b
  {
  }

  /** Every rectangle's corners are the layout of its bounds. */
  lemma RectangleIsLayout<T>(c: GeoRefPoints<T>)
    requires IsRectangle(c)
    ensures CornersOf(BoundsOf(c)) == c
  {
  }
}
