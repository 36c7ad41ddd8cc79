/** IRay: a position in the horizontal plane and the squared distance between two of them. */
module Ray {
  import RealMath

  /** The (x, z) position of a ray's origin. */
  datatype Point = Point(x: real, z: real)

  /** distance2: the squared Euclidean distance between two origins. */
  function Distance2(a: Point, b: Point): (d: real)
    ensures 0.0 <= d
    ensures d == 0.0 <==> a == b
  {
    var dx := a.x - b.x;
    var dz := a.z - b.z;
    RealMath.SumOfSquaresZero(dx, dz);
    dx * dx + dz * dz
  }

  /** distance2 does not depend on which ray it is called on. */
  lemma Distance2Symmetric(a: Point, b: Point)
    ensures Distance2(a, b) == Distance2(b, a)
  {
    assert (a.x - b.x) * (a.x - b.x) == (b.x - a.x) * (b.x - a.x);
    assert (a.z - b.z) * (a.z - b.z) == (b.z - a.z) * (b.z - a.z);
  }
}
