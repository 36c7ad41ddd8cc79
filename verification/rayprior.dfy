/**
 * RayApproximatedPrior: a prior computed only on the chunks inside a narrow
 * wedge around one ray, found by a scan over chunk lines perpendicular to
 * the ray's major axis.
 */
module RayPrior {
  import opened Wrappers
  import RealMath
  import Ray
  import opened Stronghold
  import Approximated

  /** How far along the ray, in chunks, the scan reaches. */
  const Range: real := 5000.0 / 16.0

  /** The tolerance of the short constructor: one degree, in radians. */
  const DefaultTolerance: real := 1.0 / 180.0 * RealMath.Pi

  // ---------------------------------------------------------------------------
  // strongholdDensity

  /**
   * The weight of a chunk: the closed-form density, scaled by the
   * divine-context weighting when there is a context and the chunk lies
   * within ring 0's post-snapping outer radius.
   */
  function StrongholdDensity(e: RealMath.Elementary, p: Placement, dc: Option<DivineContext>,
                             cx: real, cz: real): (w: real)
    ensures dc.None? || p.ring0OuterPostSnapping < e.sqrt(cx * cx + cz * cz) ==> w == p.density(cx, cz)
    ensures dc.Some? && e.sqrt(cx * cx + cz * cz) <= p.ring0OuterPostSnapping ==>
      w == DivineWeight(dc.value, p, cx, cz, e.sqrt(cx * cx + cz * cz)) * p.density(cx, cz)
  {
    var d2 := cx * cx + cz * cz;
    var relativeWeight :=
      if dc.Some? && e.sqrt(d2) <= p.ring0OuterPostSnapping then DivineWeight(dc.value, p, cx, cz, e.sqrt(d2))
      else 1.0;
    relativeWeight * p.density(cx, cz)
  }

  /** With non-negative densities the weight is non-negative and at most the density times max(1, relativeDensity). */
  lemma DensityBounds(e: RealMath.Elementary, p: Placement, dc: Option<DivineContext>, cx: real, cz: real)
    requires 0.0 <= p.density(cx, cz)
    requires dc.Some? ==> 0.0 <= dc.value.relativeDensity
    ensures 0.0 <= StrongholdDensity(e, p, dc, cx, cz)
    ensures dc.Some? ==> StrongholdDensity(e, p, dc, cx, cz) <= RealMath.Max(1.0, dc.value.relativeDensity) * p.density(cx, cz)
  {
    var d2 := cx * cx + cz * cz;
    if dc.Some? && e.sqrt(d2) <= p.ring0OuterPostSnapping {
      var w := DivineWeight(dc.value, p, cx, cz, e.sqrt(d2));
      RealMath.MulNonNegative(w, p.density(cx, cz));
      RealMath.MulNonNegative(RealMath.Max(1.0, dc.value.relativeDensity) - w, p.density(cx, cz));
    } else if dc.Some? {
      RealMath.MulNonNegative(RealMath.Max(1.0, dc.value.relativeDensity) - 1.0, p.density(cx, cz));
    }
  }

  /**
   * Within ring 0's post-snapping radius, in any ring's band or outside all
   * of them, a context gives half the relative density times the density at
   * the centre of the sector, all of it a full tolerance before the sector and
   * none a full tolerance past it.
   */
  lemma DensityAroundSector(e: RealMath.Elementary, p: Placement, dc: DivineContext, cx: real, cz: real)
    requires e.sqrt(cx * cx + cz * cz) <= p.ring0OuterPostSnapping
    ensures var w := StrongholdDensity(e, p, Some(dc), cx, cz);
      var offset := dc.angleOffsetFromSector(p.getPhi(cx, cz));
      var r := e.sqrt(cx * cx + cz * cz);
      && (offset == 0.0 ==> w == 0.5 * dc.relativeDensity * p.density(cx, cz))
      && (0.0 < r && offset <= -Tolerance(r, p.snappingRadius) ==> w == dc.relativeDensity * p.density(cx, cz))
      && (0.0 < r && Tolerance(r, p.snappingRadius) <= offset ==> w == 0.0)
  {
  }

  /**
   * Of two contexts with the same relative density, the one that puts the
   * chunk's heading further past the sector gives it no more weight.
   */
  lemma DensityFallsWithOffset(e: RealMath.Elementary, p: Placement, near: DivineContext, far: DivineContext,
                               cx: real, cz: real)
    requires near.relativeDensity == far.relativeDensity && 0.0 <= near.relativeDensity
    requires 0.0 <= p.density(cx, cz)
    requires near.angleOffsetFromSector(p.getPhi(cx, cz)) <= far.angleOffsetFromSector(p.getPhi(cx, cz))
    ensures StrongholdDensity(e, p, Some(far), cx, cz) <= StrongholdDensity(e, p, Some(near), cx, cz)
  {
    var r := e.sqrt(cx * cx + cz * cz);
    DivineWeightMonotone(near, far, p, cx, cz, r);
    if r <= p.ring0OuterPostSnapping {
      Approximated.MulOrdered(DivineWeight(far, p, cx, cz, r), DivineWeight(near, p, cx, cz, r), p.density(cx, cz));
    }
  }

  /**
   * Inside ring 0's band and radius the ray prior weighs a chunk exactly as
   * the grid prior does: the same clamped factor, the same relative density.
   */
  lemma SameWeightAsGridPrior(e: RealMath.Elementary, p: Placement, dc: Option<DivineContext>,
                              cx: real, cz: real, ring: Ring)
    requires ring.ring == 0
    requires Approximated.InBand(p, ring, cx * cx + cz * cz)
    requires e.sqrt(cx * cx + cz * cz) <= p.ring0OuterPostSnapping
    ensures StrongholdDensity(e, p, dc, cx, cz) == Approximated.StrongholdDensity(e, p, dc, cx, cz, ring)
  {
    if dc.Some? {
      Approximated.DivinedDensity(e, p, dc.value, cx, cz, ring);
    }
  }

  // ---------------------------------------------------------------------------
  // Vector helpers

  /**
   * orthogonalComponent: the signed length of the part of a orthogonal to the
   * unit vector u, positive to the right. Whatever u is, it is the cross
   * product u x a.
   */
  function OrthogonalComponent(ax: real, az: real, ux: real, uz: real): (m: real)
    ensures m == ux * az - uz * ax
  {
    var uParMag := ux * ax + uz * az;
    var uParX := ux * uParMag;
    var uParZ := uz * uParMag;
    var uOrthX := uParX - ax;
    var uOrthZ := uParZ - az;
    uz * uOrthX - ux * uOrthZ
  }

  /** A vector along u has no orthogonal part. */
  lemma OrthogonalOfMultiple(k: real, ux: real, uz: real)
    ensures OrthogonalComponent(k * ux, k * uz, ux, uz) == 0.0
  {
    assert ux * (k * uz) == uz * (k * ux);
  }

  /** Negating the vector negates its orthogonal part. */
  lemma OrthogonalOfNegated(ax: real, az: real, ux: real, uz: real)
    ensures OrthogonalComponent(-ax, -az, ux, uz) == -OrthogonalComponent(ax, az, ux, uz)
  {
  }

  /** The major coordinate of a point: x when the major axis is X, else z. */
  function Major(q: Ray.Point, majorX: bool): real {
    if majorX then q.x else q.z
  }

  /**
   * projectAndGetMajorComponent: the major coordinate of the projection of a
   * onto the unit vector u. A vector along u projects onto itself; a vector
   * orthogonal to u projects onto 0.
   */
  function ProjectAndGetMajorComponent(ax: real, az: real, ux: real, uz: real, majorX: bool): (m: real)
    ensures ux * ux + uz * uz == 1.0 && OrthogonalComponent(ax, az, ux, uz) == 0.0 ==> m == Major(Ray.Point(ax, az), majorX)
    ensures ax * ux + az * uz == 0.0 ==> m == 0.0
  {
    var projMag := ax * ux + az * uz;
    ProjectionAlongUnit(ax, az, ux, uz);
    if majorX then ux * projMag else uz * projMag
  }

  lemma ProjectionAlongUnit(ax: real, az: real, ux: real, uz: real)
    ensures ux * ux + uz * uz == 1.0 && ux * az == uz * ax ==>
      (ax * ux + az * uz) * ux == ax && (ax * ux + az * uz) * uz == az
  {
    if ux * ux + uz * uz == 1.0 && ux * az == uz * ax {
      assert (ax * ux + az * uz) * ux == ax * (ux * ux) + uz * (ux * az);
      assert uz * (ux * az) == uz * (uz * ax);
      assert (ax * ux + az * uz) * ux == ax * (ux * ux + uz * uz);
      assert (ax * ux + az * uz) * uz == ux * (uz * ax) + az * (uz * uz);
      assert ux * (uz * ax) == ux * (ux * az);
      assert (ax * ux + az * uz) * uz == az * (ux * ux + uz * uz);
    }
  }

  /**
   * The first point where the line o + b u meets the circle of radius r
   * about the origin (the smaller root b = -o.u - sqrt(a)), or None when
   * the discriminant a = (o.u)^2 + r^2 - |o|^2 is negative. The point lies
   * on the line, and on the circle when u is a unit vector.
   */
  function CircleIntersection(e: RealMath.Elementary, ox: real, oz: real, ux: real, uz: real, r: real): (q: Option<Ray.Point>)
    ensures q.None? <==> Discriminant(ox, oz, ux, uz, r) < 0.0
    ensures q.Some? ==> OrthogonalComponent(q.value.x - ox, q.value.z - oz, ux, uz) == 0.0
    ensures q.Some? && e.Valid() && ux * ux + uz * uz == 1.0 ==> q.value.x * q.value.x + q.value.z * q.value.z == r * r
  {
    var oDotU := ox * ux + oz * uz;
    var a := Discriminant(ox, oz, ux, uz, r);
    if a < 0.0 then None
    else
      var b := -oDotU - e.sqrt(a);
      OrthogonalOfMultiple(b, ux, uz);
      CircleAlgebra(e, ox, oz, ux, uz, r);
      Some(Ray.Point(ox + b * ux, oz + b * uz))
  }

  function Discriminant(ox: real, oz: real, ux: real, uz: real, r: real): real {
    var oDotU := ox * ux + oz * uz;
    oDotU * oDotU + r * r - ox * ox - oz * oz
  }

  lemma CircleAlgebra(e: RealMath.Elementary, ox: real, oz: real, ux: real, uz: real, r: real)
    ensures var a := Discriminant(ox, oz, ux, uz, r);
      var b := -(ox * ux + oz * uz) - e.sqrt(a);
      e.Valid() && ux * ux + uz * uz == 1.0 && 0.0 <= a ==>
        (ox + b * ux) * (ox + b * ux) + (oz + b * uz) * (oz + b * uz) == r * r
  {
    var a := Discriminant(ox, oz, ux, uz, r);
    if e.Valid() && ux * ux + uz * uz == 1.0 && 0.0 <= a {
      var d := ox * ux + oz * uz;
      var s := e.sqrt(a);
      assert s * s == a;
      var b := -d - s;
      assert (ox + b * ux) * (ox + b * ux) + (oz + b * uz) * (oz + b * uz)
          == ox * ox + oz * oz + 2.0 * b * d + b * b * (ux * ux + uz * uz);
      assert b * b == d * d + 2.0 * d * s + s * s;
    }
  }

  /** findCircleIntersection: the major coordinate of the crossing, 0 when there is none. */
  function FindCircleIntersection(e: RealMath.Elementary, ox: real, oz: real, ux: real, uz: real, r: real, majorX: bool): (m: real)
    ensures CircleIntersection(e, ox, oz, ux, uz, r).None? ==> m == 0.0
    ensures CircleIntersection(e, ox, oz, ux, uz, r).Some? ==> m == Major(CircleIntersection(e, ox, oz, ux, uz, r).value, majorX)
  {
    match CircleIntersection(e, ox, oz, ux, uz, r)
    case None => 0.0
    case Some(q) => Major(q, majorX)
  }

  /**
   * The point of the circle of radius r nearest to o (o scaled to length r):
   * on the circle and along o.
   */
  function NearestCirclePoint(e: RealMath.Elementary, ox: real, oz: real, r: real): (q: Ray.Point)
    requires e.Valid() && (ox != 0.0 || oz != 0.0)
    ensures q.x * q.x + q.z * q.z == r * r
    ensures OrthogonalComponent(q.x, q.z, ox, oz) == 0.0
  {
    RealMath.SumOfSquaresZero(ox, oz);
    RealMath.SqrtNonZero(e, ox * ox + oz * oz);
    var oMag := e.sqrt(ox * ox + oz * oz);
    NearestAlgebra(ox, oz, oMag, r, ox / oMag * r, oz / oMag * r);
    OrthogonalOfMultiple(r / oMag, ox, oz);
    Ray.Point(ox / oMag * r, oz / oMag * r)
  }

  lemma NearestAlgebra(ox: real, oz: real, m: real, r: real, qx: real, qz: real)
    requires m != 0.0 && m * m == ox * ox + oz * oz
    requires qx == ox / m * r && qz == oz / m * r
    ensures qx * qx + qz * qz == r * r
    ensures qx == r / m * ox && qz == r / m * oz
  {
    var k := r / m;
    assert m * k == r;
    assert qx == ox * k && qz == oz * k;
    assert qx * qx + qz * qz == (ox * ox + oz * oz) * (k * k);
    assert (m * m) * (k * k) == (m * k) * (m * k);
  }

  /**
   * The candidate reached first when walking along the major axis in the
   * scan's direction: the smaller one walking forwards, the larger one
   * walking backwards (majorPositive ^ a > b ? a : b).
   */
  function Earlier(a: real, b: real, majorPositive: bool): (c: real)
    ensures majorPositive ==> c == RealMath.Min(a, b)
    ensures !majorPositive ==> c == RealMath.Max(a, b)
  {
    if majorPositive != (a > b) then a else b
  }

  /** The origin in (x, z) from its major and minor coordinates. */
  function Unswap(major: real, minor: real, majorX: bool): (q: Ray.Point)
    ensures Major(q, majorX) == major
  {
    if majorX then Ray.Point(major, minor) else Ray.Point(minor, major)
  }

  /** Whether the origin, in chunks, lies within the maxChunk disk. */
  predicate InsideDisk(p: Placement, oMajor: real, oMinor: real) {
    oMajor * oMajor + oMinor * oMinor <= (p.maxChunk * p.maxChunk) as real
  }

  /** Whether (0, 0) lies right of the boundary u and left of the boundary v, seen from o. */
  predicate InFrustum(o: Ray.Point, ux: real, uz: real, vx: real, vz: real) {
    OrthogonalComponent(-o.x, -o.z, ux, uz) > 0.0 && OrthogonalComponent(-o.x, -o.z, vx, vz) < 0.0
  }

  /** Where the boundary ray through u enters the disk when the disk centre is in the wedge. */
  function FrustumEntry(e: RealMath.Elementary, p: Placement, o: Ray.Point, oMajor: real, ux: real, uz: real, majorX: bool): real
    requires e.Valid() && (o.x != 0.0 || o.z != 0.0)
  {
    var i := NearestCirclePoint(e, o.x, o.z, p.maxChunk as real);
    oMajor + ProjectAndGetMajorComponent(i.x - o.x, i.z - o.z, ux, uz, majorX)
  }

  /**
   * getIterStartMajor: the major coordinate where the scan starts. Inside
   * the disk, the origin itself; with the disk centre in the wedge, the
   * earlier of the two boundary entries; otherwise the earlier of the
   * boundary crossings with the disk's circle, and the origin when neither
   * boundary meets it (a crossing whose major coordinate is exactly 0 counts
   * as none).
   */
  function GetIterStartMajor(e: RealMath.Elementary, p: Placement, oMajor: real, oMinor: real,
                             ux: real, uz: real, vx: real, vz: real, majorX: bool, majorPositive: bool): (s: real)
    requires e.Valid()
    ensures InsideDisk(p, oMajor, oMinor) ==> s == oMajor
    ensures var o := Unswap(oMajor, oMinor, majorX);
      !InsideDisk(p, oMajor, oMinor) && InFrustum(o, ux, uz, vx, vz) ==>
        (o.x != 0.0 || o.z != 0.0) &&
        s == Earlier(FrustumEntry(e, p, o, oMajor, ux, uz, majorX), FrustumEntry(e, p, o, oMajor, vx, vz, majorX), majorPositive)
    ensures var o := Unswap(oMajor, oMinor, majorX);
      var r := p.maxChunk as real;
      !InsideDisk(p, oMajor, oMinor) && !InFrustum(o, ux, uz, vx, vz) ==>
        && (CircleIntersection(e, o.x, o.z, ux, uz, r).None? && CircleIntersection(e, o.x, o.z, vx, vz, r).None? ==> s == oMajor)
        && (var iu, iv := FindCircleIntersection(e, o.x, o.z, ux, uz, r, majorX), FindCircleIntersection(e, o.x, o.z, vx, vz, r, majorX);
            iu != 0.0 && iv != 0.0 ==> s == Earlier(iu, iv, majorPositive))
  {
    if InsideDisk(p, oMajor, oMinor) then oMajor
    else
      var o := Unswap(oMajor, oMinor, majorX);
      assert o.x * o.x + o.z * o.z == oMajor * oMajor + oMinor * oMinor;
      RealMath.MulNonNegative(p.maxChunk as real, p.maxChunk as real);
      if InFrustum(o, ux, uz, vx, vz) then
        var m1 := FrustumEntry(e, p, o, oMajor, ux, uz, majorX);
        var m2 := FrustumEntry(e, p, o, oMajor, vx, vz, majorX);
        Earlier(m1, m2, majorPositive)
      else
        var iu := FindCircleIntersection(e, o.x, o.z, ux, uz, p.maxChunk as real, majorX);
        var iv := FindCircleIntersection(e, o.x, o.z, vx, vz, p.maxChunk as real, majorX);
        if iu != 0.0 || iv != 0.0 then
          if iu != 0.0 && iv != 0.0 then Earlier(iu, iv, majorPositive)
          else if iu != 0.0 then iu
          else iv
        else oMajor
  }

  // ---------------------------------------------------------------------------
  // The wedge scan

  /**
   * What construct derives from the ray before its loops: the major axis
   * and the walking directions, the major component of the ray's direction,
   * the origin in chunk units, the start of the major walk and the slopes of
   * the two boundaries.
   */
  datatype Scan = Scan(
    majorX: bool, majorPositive: bool, rightPositive: bool,
    dMajor: real, originMajor: real, originMinor: real,
    start: real, uk: real, vk: real, maxChunk: nat)
  {
    /** The major walk goes the way the ray points, and the ray's major component is a non-zero part of a unit vector. */
    ghost predicate Valid() {
      dMajor != 0.0 && (majorPositive <==> 0.0 < dMajor) && -1.0 <= dMajor <= 1.0
    }

    function Step(): int {
      if majorPositive then 1 else -1
    }

    function MinorStep(): int {
      if rightPositive then 1 else -1
    }

    /** The minor index k steps from j in the minor walking direction. */
    function MinorWalk(j: int, k: int): int {
      if rightPositive then j + k else j - k
    }

    /** How far along the ray, in chunks, the major line i lies from the start. */
    function Progress(i: int): real
      requires Valid()
    {
      (i as real - start) / dMajor
    }

    /** The first major line: the start rounded in the walking direction. */
    function FirstMajor(): int {
      if majorPositive then RealMath.Ceil(start) else RealMath.Floor(start)
    }

    /** Where the boundary u crosses major line i. */
    function MinorU(i: int): real {
      originMinor + uk * (i as real - originMajor)
    }

    /** Where the boundary v crosses major line i. */
    function MinorV(i: int): real {
      originMinor + vk * (i as real - originMajor)
    }

    /** The first minor index of line i: u's crossing rounded towards v, clamped to [-(maxChunk as int), maxChunk]. */
    function LineStart(i: int): (j: int)
      ensures -(maxChunk as int) <= j <= maxChunk
      ensures var j0 := if rightPositive then RealMath.Ceil(MinorU(i)) else RealMath.Floor(MinorU(i));
        -(maxChunk as int) <= j0 <= maxChunk ==> j == j0
    {
      var j0 := if rightPositive then RealMath.Ceil(MinorU(i)) else RealMath.Floor(MinorU(i));
      var j1 := if j0 < -(maxChunk as int) then -(maxChunk as int) else j0;
      if j1 > maxChunk then maxChunk else j1
    }

    /**
     * The inner loop's guard as the source's ?: precedence reads it: the
     * +-(maxChunk as int) bound is only part of the leftward case.
     */
    predicate InnerGuard(i: int, j: int) {
      if rightPositive then (j as real) < MinorV(i)
      else (j as real) > MinorV(i) && j <= maxChunk && j >= -(maxChunk as int)
    }

    /** The minor index of a chunk. */
    function MinorOf(c: Chunk): int {
      if majorX then c.z else c.x
    }

    /** The major index of a chunk. */
    function MajorOf(c: Chunk): int {
      if majorX then c.x else c.z
    }

    /** A guarded line index can only move a bounded number of steps. */
    function LineMeasure(i: int, j: int): int {
      if rightPositive then RealMath.Ceil(MinorV(i)) - j else j + maxChunk
    }
  }

  /** The chunk at major index i and minor index j, weighted by its own density. */
  function Cell(s: Scan, weight: (int, int) -> real, i: int, j: int): (c: Chunk)
    ensures s.MajorOf(c) == i && s.MinorOf(c) == j
    ensures c.weight == weight(c.x, c.z)
  {
    var x, z := if s.majorX then i else j, if s.majorX then j else i;
    Chunk(x, z, weight(x, z))
  }

  /** The chunks the inner loop appends on major line i from minor index j on. */
  function Line(s: Scan, weight: (int, int) -> real, i: int, j: int): seq<Chunk>
    decreases s.LineMeasure(i, j)
  {
    if s.InnerGuard(i, j) then [Cell(s, weight, i, j)] + Line(s, weight, i, j + s.MinorStep())
    else []
  }

  /** Each major step moves at least one chunk further along the ray. */
  lemma ProgressStep(s: Scan, i: int)
    requires s.Valid()
    ensures s.Progress(i) + 1.0 <= s.Progress(i + s.Step())
  {
    var a := i as real - s.start;
    var d := s.dMajor;
    var q := 1.0 / d;
    assert q * d == 1.0;
    if s.majorPositive {
      assert (a + 1.0) / d == a / d + q;
      if q < 1.0 {
        RealMath.MulPositive(1.0 - q, d);
      }
    } else {
      assert (a - 1.0) / d == a / d - q;
      if -q < 1.0 {
        RealMath.MulPositive(1.0 + q, -d);
      }
    }
  }

  /** The chunks the outer loop appends from major line i on. */
  function Outer(s: Scan, weight: (int, int) -> real, i: int): seq<Chunk>
    requires s.Valid()
    decreases RealMath.Floor(Range - s.Progress(i))
  {
    if s.Progress(i) < Range then
      ProgressStep(s, i);
      Line(s, weight, i, s.LineStart(i)) + Outer(s, weight, i + s.Step())
    else []
  }

  /**
   * Everything construct computes before its loops, or None when a boundary
   * is parallel to the minor axis and its slope would divide by zero.
   */
  function Setup(e: RealMath.Elementary, p: Placement, origin: Ray.Point, alpha: real, tolerance: real): (r: Option<Scan>)
    requires e.Valid()
    ensures r.Some? ==> r.value.Valid() && r.value.maxChunk == p.maxChunk
    ensures r.Some? ==> var phi := alpha / 180.0 * RealMath.Pi;
      r.value.dMajor == (if r.value.majorX then -e.sin(phi) else e.cos(phi))
  {
    var phi := alpha / 180.0 * RealMath.Pi;
    var dx, dz := -e.sin(phi), e.cos(phi);
    var ux, uz := -e.sin(phi - tolerance), e.cos(phi - tolerance);
    var vx, vz := -e.sin(phi + tolerance), e.cos(phi + tolerance);
    var majorX := e.cos(phi) * e.cos(phi) < 0.5;
    var majorPositive := if majorX then -e.sin(phi) > 0.0 else e.cos(phi) > 0.0;
    var chunkCoord := p.strongholdChunkCoord as real;
    var originMajor := ((if majorX then origin.x else origin.z) - chunkCoord) / 16.0;
    var originMinor := ((if majorX then origin.z else origin.x) - chunkCoord) / 16.0;
    var start := GetIterStartMajor(e, p, originMajor, originMinor, ux, uz, vx, vz, majorX, majorPositive);
    if (majorX && (ux == 0.0 || vx == 0.0)) || (!majorX && (uz == 0.0 || vz == 0.0)) then None
    else
      var uk := if majorX then uz / ux else ux / uz;
      var vk := if majorX then vz / vx else vx / vz;
      var rightPositive := if majorPositive then vk - uk > 0.0 else uk - vk > 0.0;
      DirectionOnMajorAxis(e, phi);
      Some(Scan(majorX, majorPositive, rightPositive, if majorX then dx else dz,
                originMajor, originMinor, start, uk, vk, p.maxChunk))
  }

  /** The component of the direction along the major axis is a non-zero part of a unit vector. */
  lemma DirectionOnMajorAxis(e: RealMath.Elementary, phi: real)
    requires e.Valid()
    ensures var s, c := e.sin(phi), e.cos(phi);
      && -1.0 <= s <= 1.0 && -1.0 <= c <= 1.0
      && (c * c < 0.5 ==> s != 0.0)
      && (!(c * c < 0.5) ==> c != 0.0)
  {
    var s, c := e.sin(phi), e.cos(phi);
    assert s * s + c * c == 1.0;
    UnitBound(s, c);
    UnitBound(c, s);
  }

  lemma UnitBound(a: real, b: real)
    requires a * a + b * b == 1.0
    ensures -1.0 <= a <= 1.0
    ensures b * b < 0.5 ==> a != 0.0
  {
    RealMath.SquareZero(b);
    if 1.0 < a {
      RealMath.SquareStrictlyIncreasing(a, 1.0);
    }
    if a < -1.0 {
      RealMath.SquareStrictlyIncreasing(-a, 1.0);
    }
  }

  /** The weight construct gives the chunk at chunk coordinates (x, z): strongholdDensity there. */
  function Weights(e: RealMath.Elementary, p: Placement, dc: Option<DivineContext>): (int, int) -> real {
    (x: int, z: int) => StrongholdDensity(e, p, dc, x as real, z as real)
  }

  /** The chunks construct collects for a ray from origin with heading alpha. */
  function ScanChunks(e: RealMath.Elementary, p: Placement, dc: Option<DivineContext>,
                      origin: Ray.Point, alpha: real, tolerance: real): seq<Chunk>
    requires e.Valid()
  {
    match Setup(e, p, origin, alpha, tolerance)
    case None => []
    case Some(s) => Outer(s, Weights(e, p, dc), s.FirstMajor())
  }

  /**
   * The k-th chunk of a line is the cell k minor steps from where the line
   * starts, every one of them passes the guard, and the line ends at the
   * first index that does not.
   */
  lemma {:induction false} LineCells(s: Scan, weight: (int, int) -> real, i: int, j: int)
    ensures var l := Line(s, weight, i, j);
      && (forall k :: 0 <= k < |l| ==> l[k] == Cell(s, weight, i, s.MinorWalk(j, k)))
      && (forall k :: 0 <= k < |l| ==> s.InnerGuard(i, s.MinorWalk(j, k)))
      && !s.InnerGuard(i, s.MinorWalk(j, |l|))
    decreases s.LineMeasure(i, j)
  {
    var l := Line(s, weight, i, j);
    if s.InnerGuard(i, j) {
      var j' := j + s.MinorStep();
      LineCells(s, weight, i, j');
      var rest := Line(s, weight, i, j');
      assert l == [Cell(s, weight, i, j)] + rest;
      forall k | 0 < k < |l|
        ensures l[k] == Cell(s, weight, i, s.MinorWalk(j, k))
        ensures s.InnerGuard(i, s.MinorWalk(j, k))
      {
        assert l[k] == rest[k - 1];
        assert s.MinorWalk(j', k - 1) == s.MinorWalk(j, k);
      }
      assert s.MinorWalk(j', |rest|) == s.MinorWalk(j, |l|);
    }
  }

  /**
   * Every chunk of a line lies on that major line and carries its own
   * density; walking leftwards it also stays within +-maxChunk.
   */
  lemma {:induction false} LineChunks(s: Scan, weight: (int, int) -> real, i: int, j: int)
    ensures forall c :: c in Line(s, weight, i, j) ==>
      && s.MajorOf(c) == i
      && c.weight == weight(c.x, c.z)
      && (!s.rightPositive ==> -(s.maxChunk as int) <= s.MinorOf(c) <= s.maxChunk)
  {
    LineCells(s, weight, i, j);
    var l := Line(s, weight, i, j);
    forall c | c in l
      ensures s.MajorOf(c) == i
      ensures !s.rightPositive ==> -(s.maxChunk as int) <= s.MinorOf(c) <= s.maxChunk
    {
      var k :| 0 <= k < |l| && l[k] == c;
      assert s.InnerGuard(i, s.MinorWalk(j, k));
    }
  }

  /**
   * Walking rightwards the bound is not part of the guard: when the boundary
   * v lies beyond maxChunk + 1, the line runs past maxChunk.
   */
  lemma {:induction false} RightwardLineOverruns(s: Scan, weight: (int, int) -> real, i: int, j: int)
    requires s.rightPositive
    requires j <= s.maxChunk + 1 && ((s.maxChunk + 1) as real) < s.MinorV(i)
    ensures Cell(s, weight, i, s.maxChunk + 1) in Line(s, weight, i, j)
    decreases s.maxChunk + 1 - j
  {
    assert s.InnerGuard(i, j);
    if j < s.maxChunk + 1 {
      RightwardLineOverruns(s, weight, i, j + 1);
    }
  }

  /**
   * Every chunk the outer loop appends from line i on lies on a major line
   * at or after i in the walking direction and short of the range, and
   * carries its own density.
   */
  lemma {:induction false} OuterChunks(s: Scan, weight: (int, int) -> real, i: int)
    requires s.Valid()
    ensures forall c :: c in Outer(s, weight, i) ==>
      && s.Progress(s.MajorOf(c)) < Range
      && (s.majorPositive ==> i <= s.MajorOf(c))
      && (!s.majorPositive ==> s.MajorOf(c) <= i)
      && c.weight == weight(c.x, c.z)
      && (!s.rightPositive ==> -(s.maxChunk as int) <= s.MinorOf(c) <= s.maxChunk)
    decreases RealMath.Floor(Range - s.Progress(i))
  {
    if s.Progress(i) < Range {
      ProgressStep(s, i);
      LineChunks(s, weight, i, s.LineStart(i));
      OuterChunks(s, weight, i + s.Step());
    }
  }

  /**
   * Every chunk of the prior carries the density of its own coordinates,
   * lies within the range along the ray, and on a major line the walk
   * reached from its first line.
   */
  lemma ScanChunksSound(e: RealMath.Elementary, p: Placement, dc: Option<DivineContext>,
                        origin: Ray.Point, alpha: real, tolerance: real)
    requires e.Valid()
    ensures forall c :: c in ScanChunks(e, p, dc, origin, alpha, tolerance) ==>
      c.weight == StrongholdDensity(e, p, dc, c.x as real, c.z as real)
    ensures var r := Setup(e, p, origin, alpha, tolerance);
      r.Some? ==> forall c :: c in ScanChunks(e, p, dc, origin, alpha, tolerance) ==>
        && r.value.Progress(r.value.MajorOf(c)) < Range
        && (r.value.majorPositive ==> r.value.FirstMajor() <= r.value.MajorOf(c))
        && (!r.value.majorPositive ==> r.value.MajorOf(c) <= r.value.FirstMajor())
  {
    var r := Setup(e, p, origin, alpha, tolerance);
    if r.Some? {
      OuterChunks(r.value, Weights(e, p, dc), r.value.FirstMajor());
    }
  }

  /** The outer loop's measure is non-negative while it runs and drops with every major step. */
  lemma OuterMeasureDrops(s: Scan, i: int)
    requires s.Valid() && s.Progress(i) < Range
    ensures 0 <= RealMath.Floor(Range - s.Progress(i))
    ensures RealMath.Floor(Range - s.Progress(i + s.Step())) < RealMath.Floor(Range - s.Progress(i))
  {
    ProgressStep(s, i);
  }

  /** The inner loop's measure is non-negative while it runs and drops with every minor step. */
  lemma InnerMeasureDrops(s: Scan, i: int, j: int)
    requires s.InnerGuard(i, j)
    ensures 0 <= s.LineMeasure(i, j)
    ensures s.LineMeasure(i, j + s.MinorStep()) < s.LineMeasure(i, j)
  {
  }

  /** One step of the outer loop: the line at i, then everything after it. */
  lemma OuterUnfold(s: Scan, weight: (int, int) -> real, i: int)
    requires s.Valid() && s.Progress(i) < Range
    ensures Outer(s, weight, i) == Line(s, weight, i, s.LineStart(i)) + Outer(s, weight, i + s.Step())
  {
  }

  /** One step of the inner loop, regrouped around an accumulated prefix. */
  lemma LineUnfold(s: Scan, weight: (int, int) -> real, i: int, j: int,
                   acc: seq<Chunk>, rest: seq<Chunk>)
    requires s.InnerGuard(i, j)
    ensures acc + Line(s, weight, i, j) + rest
         == (acc + [Cell(s, weight, i, j)]) + Line(s, weight, i, j + s.MinorStep()) + rest
  {
  }

  // ---------------------------------------------------------------------------
  // The prior object

  /** RayApproximatedPrior: the chunks of the wedge around one ray and the divine context that weighted them. */
  class RayApproximatedPrior {
    var chunks: seq<Chunk>
    var divineContext: Option<DivineContext>

    /** The prior for a ray with the default one-degree tolerance. */
    constructor WithDefaultTolerance(e: RealMath.Elementary, p: Placement, origin: Ray.Point, alpha: real, dc: Option<DivineContext>)
      requires e.Valid()
      ensures divineContext == dc
      ensures chunks == ScanChunks(e, p, dc, origin, alpha, DefaultTolerance)
    {
      divineContext := dc;
      chunks := [];
      new;
      Construct(e, p, origin, alpha, DefaultTolerance);
    }

    /** The prior for a ray with a wedge of the given half-angle, in radians. */
    constructor (e: RealMath.Elementary, p: Placement, origin: Ray.Point, alpha: real, tolerance: real, dc: Option<DivineContext>)
      requires e.Valid()
      ensures divineContext == dc
      ensures chunks == ScanChunks(e, p, dc, origin, alpha, tolerance)
    {
      divineContext := dc;
      chunks := [];
      new;
      Construct(e, p, origin, alpha, tolerance);
    }

    /**
     * construct: walk the major lines from the start in the ray's direction
     * until the range is reached, and on each line append, from the clamped
     * crossing of u towards v, every chunk the guard lets through.
     */
    method Construct(e: RealMath.Elementary, p: Placement, origin: Ray.Point, alpha: real, tolerance: real)
      requires e.Valid()
      modifies this
      ensures divineContext == old(divineContext)
      ensures chunks == ScanChunks(e, p, divineContext, origin, alpha, tolerance)
    {
      chunks := [];
      var setup := Setup(e, p, origin, alpha, tolerance);
      if setup.Some? {
        Walk(setup.value, Weights(e, p, divineContext));
      }
    }

    /**
     * The outer loop of construct: walk the major lines from the first one
     * in the ray's direction until the range is reached.
     */
    method Walk(s: Scan, weight: (int, int) -> real)
      requires s.Valid()
      modifies this
      ensures divineContext == old(divineContext)
      ensures chunks == old(chunks) + Outer(s, weight, s.FirstMajor())
    {
      ghost var all := old(chunks) + Outer(s, weight, s.FirstMajor());
      var i := s.FirstMajor();
      while s.Progress(i) < Range
        invariant divineContext == old(divineContext)
        invariant chunks + Outer(s, weight, i) == all
        decreases RealMath.Floor(Range - s.Progress(i))
      {
        OuterUnfold(s, weight, i);
        AppendLine(s, weight, i);
        OuterMeasureDrops(s, i);
        i := i + s.Step();
      }
      assert chunks + [] == chunks;
    }

    /**
     * The inner loop of construct: on major line i append, from the clamped
     * crossing of u towards v, every chunk the guard lets through, each
     * weighted by its own density.
     */
    method AppendLine(s: Scan, weight: (int, int) -> real, i: int)
      modifies this
      ensures divineContext == old(divineContext)
      ensures chunks == old(chunks) + Line(s, weight, i, s.LineStart(i))
    {
      ghost var all := old(chunks) + Line(s, weight, i, s.LineStart(i));
      var j := s.LineStart(i);
      while s.InnerGuard(i, j)
        invariant divineContext == old(divineContext)
        invariant chunks + Line(s, weight, i, j) == all
        decreases s.LineMeasure(i, j)
      {
        var chunk := Cell(s, weight, i, j);
        LineUnfold(s, weight, i, j, chunks, []);
        chunks := chunks + [chunk];
        InnerMeasureDrops(s, i, j);
        j := j + s.MinorStep();
      }
      assert chunks + [] == chunks;
    }

    /** getChunks: the chunks construct appended. */
    function GetChunks(): (r: seq<Chunk>)
      reads this
      ensures r == chunks
    {
      chunks
    }
  }
}
