/**
 * ApproximatedPrior: the grid prior that replaces biome snapping by a
 * closed-form density cut off outside each ring's widened band.
 */
module Approximated {
  import opened Wrappers
  import RealMath
  import opened Stronghold

  /** Inner radius of a ring's band once snapping may have moved a stronghold inwards. */
  function BandInner(p: Placement, ring: Ring): real {
    ring.innerRadius - 2.0 * p.snappingRadius as real
  }

  /** Outer radius of a ring's band once snapping may have moved a stronghold outwards. */
  function BandOuter(p: Placement, ring: Ring): real {
    ring.outerRadius + 2.0 * p.snappingRadius as real
  }

  /** Whether a squared distance from the origin falls inside the widened band. */
  predicate InBand(p: Placement, ring: Ring, d2: real) {
    !(d2 < BandInner(p, ring) * BandInner(p, ring) || d2 > BandOuter(p, ring) * BandOuter(p, ring))
  }

  /** Whether the divine context weights this ring: only ring 0, only with a context. */
  predicate Divined(dc: Option<DivineContext>, ring: Ring) {
    ring.ring == 0 && dc.Some?
  }

  /**
   * strongholdDensity: zero outside the band; inside it, the closed-form
   * density, scaled for ring 0 by the divine-context weighting.
   */
  function StrongholdDensity(e: RealMath.Elementary, p: Placement, dc: Option<DivineContext>,
                             cx: real, cz: real, ring: Ring): (w: real)
    ensures !InBand(p, ring, cx * cx + cz * cz) ==> w == 0.0
    ensures InBand(p, ring, cx * cx + cz * cz) && !Divined(dc, ring) ==> w == p.density(cx, cz)
  {
    var d2 := cx * cx + cz * cz;
    var relativeWeight := if Divined(dc, ring) then DivineWeight(dc.value, p, cx, cz, e.sqrt(d2)) else 1.0;
    if !InBand(p, ring, d2) then 0.0 else relativeWeight * p.density(cx, cz)
  }

  /**
   * In ring 0 with a context and inside the band, the weight is half the
   * relative density times the density at the centre of the sector, all of it
   * a full tolerance before the sector and none a full tolerance past it.
   */
  lemma DensityAroundSector(e: RealMath.Elementary, p: Placement, dc: DivineContext,
                            cx: real, cz: real, ring: Ring)
    requires ring.ring == 0 && InBand(p, ring, cx * cx + cz * cz)
    ensures var w := StrongholdDensity(e, p, Some(dc), cx, cz, ring);
      var offset := dc.angleOffsetFromSector(p.getPhi(cx, cz));
      var r := e.sqrt(cx * cx + cz * cz);
      && (offset == 0.0 ==> w == 0.5 * dc.relativeDensity * p.density(cx, cz))
      && (0.0 < r && offset <= -Tolerance(r, p.snappingRadius) ==> w == dc.relativeDensity * p.density(cx, cz))
      && (0.0 < r && Tolerance(r, p.snappingRadius) <= offset ==> w == 0.0)
  {
    DivinedDensity(e, p, dc, cx, cz, ring);
  }

  /** The weight is never negative when the density and the relative density are not. */
  lemma DensityNonNegative(e: RealMath.Elementary, p: Placement, dc: Option<DivineContext>,
                           cx: real, cz: real, ring: Ring)
    requires 0.0 <= p.density(cx, cz)
    requires dc.Some? ==> 0.0 <= dc.value.relativeDensity
    ensures 0.0 <= StrongholdDensity(e, p, dc, cx, cz, ring)
  {
    var d2 := cx * cx + cz * cz;
    if InBand(p, ring, d2) && Divined(dc, ring) {
      RealMath.MulNonNegative(DivineWeight(dc.value, p, cx, cz, e.sqrt(d2)), p.density(cx, cz));
    }
  }

  /** Ring 0 with a context never receives more than the relative density times the density. */
  lemma DensityAtMostRelative(e: RealMath.Elementary, p: Placement, dc: DivineContext,
                              cx: real, cz: real, ring: Ring)
    requires ring.ring == 0
    requires 0.0 <= p.density(cx, cz) && 0.0 <= dc.relativeDensity
    ensures StrongholdDensity(e, p, Some(dc), cx, cz, ring) <= dc.relativeDensity * p.density(cx, cz)
  {
    var d2 := cx * cx + cz * cz;
    var w := DivineWeight(dc, p, cx, cz, e.sqrt(d2));
    RealMath.MulNonNegative(dc.relativeDensity - w, p.density(cx, cz));
    RealMath.MulNonNegative(dc.relativeDensity, p.density(cx, cz));
  }

  /**
   * Of two contexts with the same relative density, the one that puts the
   * chunk's heading further past the sector gives it no more weight.
   */
  lemma {:induction false} DensityFallsWithOffset(e: RealMath.Elementary, p: Placement,
                                                  near: DivineContext, far: DivineContext,
                                                  cx: real, cz: real, ring: Ring)
    requires ring.ring == 0
    requires near.relativeDensity == far.relativeDensity && 0.0 <= near.relativeDensity
    requires 0.0 <= p.density(cx, cz)
    requires near.angleOffsetFromSector(p.getPhi(cx, cz)) <= far.angleOffsetFromSector(p.getPhi(cx, cz))
    ensures StrongholdDensity(e, p, Some(far), cx, cz, ring) <= StrongholdDensity(e, p, Some(near), cx, cz, ring)
  {
    var r := e.sqrt(cx * cx + cz * cz);
    var wNear, wFar := DivineWeight(near, p, cx, cz, r), DivineWeight(far, p, cx, cz, r);
    DivineWeightMonotone(near, far, p, cx, cz, r);
    DivinedDensity(e, p, near, cx, cz, ring);
    DivinedDensity(e, p, far, cx, cz, ring);
    if InBand(p, ring, cx * cx + cz * cz) {
      MulOrdered(wFar, wNear, p.density(cx, cz));
    }
  }

  /** In ring 0 with a context, the weight is the divine weighting times the density, or 0 off the band. */
  lemma DivinedDensity(e: RealMath.Elementary, p: Placement, dc: DivineContext, cx: real, cz: real, ring: Ring)
    requires ring.ring == 0
    ensures StrongholdDensity(e, p, Some(dc), cx, cz, ring) ==
      if InBand(p, ring, cx * cx + cz * cz) then DivineWeight(dc, p, cx, cz, e.sqrt(cx * cx + cz * cz)) * p.density(cx, cz) else 0.0
  {
  }

  lemma MulOrdered(a: real, b: real, k: real)
    requires a <= b && 0.0 <= k
    ensures a * k <= b * k
  {
    RealMath.MulNonNegative(b - a, k);
  }

  /** discretisationPointsPerChunkSide: the approximation samples 2 points per chunk side. */
  function DiscretisationPointsPerChunkSide(): (n: int)
    ensures n == 2
  {
    2
  }

  /** margin: the grid is widened by the snapping radius, which is positive. */
  function Margin(p: Placement): (m: int)
    ensures m == p.snappingRadius && 0 < m
  {
    p.snappingRadius
  }

  /** smoothWeights: the snapping pass is skipped, so the weights are left as they are. */
  function SmoothWeights(chunks: seq<Chunk>): (r: seq<Chunk>)
    ensures r == chunks
  {
    chunks
  }
}
