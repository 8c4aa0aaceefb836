/**
 Plane geometry used by the gesture button: the location a drag gesture
 reports and the size of the button it reports it in. Coordinates are exact
 reals; the button's own frame has its origin at the top-left corner.
 */
module Geometry {

  /** A location in the button's own coordinate space. */
  datatype Point = Point(x: real, y: real)

  /** The size of the button, as the layout system reports it at release time. */
  datatype Size = Size(width: real, height: real)

  /** The open rectangle (0, width) x (0, height): the boundary is not part of it. */
  predicate InInterior(size: Size, p: Point)
  {
    0.0 < p.x < size.width && 0.0 < p.y < size.height
  }

  /** True if the point lies on one of the four lines that bound the button. */
  predicate OnEdge(size: Size, p: Point)
  {
    p.x == 0.0 || p.x == size.width || p.y == 0.0 || p.y == size.height
  }

  /**
   The containment test a release is classified with, written as the two
   guards the button uses: first reject non-positive coordinates, then
   coordinates not below the size. It accepts exactly the open interior.
   */
  function Contains(size: Size, p: Point): (r: bool)
    ensures r <==> InInterior(size, p)
    ensures OnEdge(size, p) ==> !r
  {
    if !(p.x > 0.0 && p.y > 0.0) then false
    else if !(p.x < size.width && p.y < size.height) then false
    else true
  }
}
