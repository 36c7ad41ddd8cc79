/**
 * The collaborators the two priors call but whose code is not part of this
 * model: the chunk record, the divine context, the ring descriptor and the
 * placement constants. Each unseen function is a field, so the proofs hold
 * for every choice of it.
 */
module Stronghold {
  import RealMath

  type Positive = n: int | n > 0 witness 1

  /** A chunk of the prior grid: its chunk coordinates and its weight. */
  datatype Chunk = Chunk(x: int, z: int, weight: real)

  /** The parsed fossil hint; only its x offset is kept. */
  datatype Fossil = Fossil(x: int)

  /**
   * DivineContext: the fossil it was built from, the signed angular distance
   * of a heading from the hinted sector, and the relative density of ring 0.
   */
  datatype DivineContext = DivineContext(
    fossil: Fossil,
    angleOffsetFromSector: real -> real,
    relativeDensity: real)

  /** Ring: its index and its pre-snapping radii, in chunks. */
  datatype Ring = Ring(ring: nat, innerRadius: real, outerRadius: real)

  /**
   * StrongholdConstants, ApproximatedDensity.density, Coords.getPhi and
   * Ring.get(0).outerRadiusPostSnapping.
   */
  datatype Placement = Placement(
    density: (real, real) -> real,
    getPhi: (real, real) -> real,
    snappingRadius: Positive,
    maxChunk: nat,
    strongholdChunkCoord: int,
    ring0OuterPostSnapping: real)

  /**
   * The divine-context factor of a chunk at distance r from the origin whose
   * heading lies offset away from the hinted sector: one minus the offset
   * over the tolerance 1.5 * snappingRadius / r, halved and clamped to [0, 1].
   * At r = 0, the least value a square root takes, the tolerance is infinite
   * and the offset term vanishes.
   */
  function SectorFactor(offset: real, r: real, snap: Positive): (f: real)
    ensures 0.0 <= f <= 1.0
    ensures offset == 0.0 || r <= 0.0 ==> f == 0.5
    ensures 0.0 < r && offset <= -Tolerance(r, snap) ==> f == 1.0
    ensures 0.0 < r && Tolerance(r, snap) <= offset ==> f == 0.0
  {
    if r <= 0.0 then RealMath.Clamp01((1.0 + 0.0) * 0.5)
    else
      OffsetRatio(offset, Tolerance(r, snap));
      RealMath.Clamp01((1.0 + -offset / Tolerance(r, snap)) * 0.5)
  }

  /** The angular half-width of the band over which the factor falls from 1 to 0. */
  function Tolerance(r: real, snap: Positive): (t: real)
    requires 0.0 < r
    ensures 0.0 < t
  {
    PositiveQuotient(snap as real * 1.5, r);
    snap as real * 1.5 / r
  }

  lemma PositiveQuotient(a: real, b: real)
    requires 0.0 < a && 0.0 < b
    ensures 0.0 < a / b
  {
    var q := a / b;
    assert q * b == a;
    if q <= 0.0 {
      RealMath.MulNonNegative(-q, b);
    }
  }

  /** Where the offset sits against the tolerance t, the ratio -offset / t sits against 1. */
  lemma OffsetRatio(offset: real, t: real)
    requires 0.0 < t
    ensures offset <= -t ==> 1.0 <= -offset / t
    ensures t <= offset ==> -offset / t <= -1.0
  {
    var q := -offset / t;
    assert q * t == -offset;
    if offset <= -t && q < 1.0 {
      RealMath.MulPositive(1.0 - q, t);
    }
    if t <= offset && -1.0 < q {
      RealMath.MulPositive(q + 1.0, t);
    }
  }

  lemma QuotientMonotone(a: real, b: real, t: real)
    requires a <= b && 0.0 < t
    ensures a / t <= b / t
  {
    var p, q := a / t, b / t;
    assert p * t == a && q * t == b;
    if q < p {
      RealMath.MulPositive(p - q, t);
    }
  }

  /** The factor never grows as the heading moves away from the sector. */
  lemma {:induction false} SectorFactorMonotone(o1: real, o2: real, r: real, snap: Positive)
    requires o1 <= o2
    ensures SectorFactor(o2, r, snap) <= SectorFactor(o1, r, snap)
  {
    if 0.0 < r {
      QuotientMonotone(-o2, -o1, Tolerance(r, snap));
      RealMath.Clamp01Monotone((1.0 + -o2 / Tolerance(r, snap)) * 0.5, (1.0 + -o1 / Tolerance(r, snap)) * 0.5);
    }
  }

  /** The factor times the relative density: the whole ring-0 weighting. */
  function DivineWeight(dc: DivineContext, p: Placement, cx: real, cz: real, r: real): (w: real)
    ensures 0.0 <= dc.relativeDensity ==> 0.0 <= w <= dc.relativeDensity
  {
    var f := SectorFactor(dc.angleOffsetFromSector(p.getPhi(cx, cz)), r, p.snappingRadius);
    ScaledByFraction(f, dc.relativeDensity);
    f * dc.relativeDensity
  }

  /**
   * Of two contexts with the same non-negative relative density, the one
   * that puts the heading further past the sector weighs it no more.
   */
  lemma DivineWeightMonotone(near: DivineContext, far: DivineContext, p: Placement, cx: real, cz: real, r: real)
    requires near.relativeDensity == far.relativeDensity && 0.0 <= near.relativeDensity
    requires near.angleOffsetFromSector(p.getPhi(cx, cz)) <= far.angleOffsetFromSector(p.getPhi(cx, cz))
    ensures DivineWeight(far, p, cx, cz, r) <= DivineWeight(near, p, cx, cz, r)
  {
    var fNear := SectorFactor(near.angleOffsetFromSector(p.getPhi(cx, cz)), r, p.snappingRadius);
    var fFar := SectorFactor(far.angleOffsetFromSector(p.getPhi(cx, cz)), r, p.snappingRadius);
    SectorFactorMonotone(near.angleOffsetFromSector(p.getPhi(cx, cz)), far.angleOffsetFromSector(p.getPhi(cx, cz)), r, p.snappingRadius);
    RealMath.MulNonNegative(fNear - fFar, near.relativeDensity);
  }

  lemma ScaledByFraction(f: real, k: real)
    requires 0.0 <= f <= 1.0
    ensures 0.0 <= k ==> 0.0 <= f * k <= k
  {
    if 0.0 <= k {
      RealMath.MulNonNegative(f, k);
      RealMath.MulNonNegative(1.0 - f, k);
    }
  }
}
