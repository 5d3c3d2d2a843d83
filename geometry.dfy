/** Points, optional values and the distance the connection engine measures with. */
module Geometry {

  /** A 2D coordinate; it has no identity beyond its value. */
  datatype Point = Point(x: real, y: real)

  /** A value the host may fail to deliver (a `null` point, a property left unset). */
  datatype Option<T> = None | Some(value: T)

  /** The Euclidean length of `p - q`, supplied by the host. */
  type Distance = (Point, Point) -> real

  /** What the model relies on about the host's distance. */
  ghost predicate IsDistance(dist: Distance) {
    && (forall p, q :: dist(p, q) >= 0.0)
    && (forall p :: dist(p, p) == 0.0)
  }
}
