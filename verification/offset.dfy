/**
 * OffsetThrow: a measurement taken while standing next to a thrown eye,
 * re-expressed as a throw from the position the eye was thrown from. The
 * measured ray is intersected with the circle of radius 12 (the distance an
 * eye flies) around the throw position.
 */
module Offset {
  import opened Wrappers
  import RealMath
  import Ray
  import EyeThrow

  type Throw = EyeThrow.Throw
  type Point = Ray.Point

  /** eyeDist: how far a thrown eye travels before it hovers. */
  const EyeDist: real := 12.0

  /** The quantisation variance one rounded coordinate adds: (0.01^2 / 12) (360 / (2 pi eyeDist))^2. */
  const VarPerPosition: real :=
    (0.01 * 0.01 / 12.0) * ((360.0 / (EyeDist * 2.0 * RealMath.Pi)) * (360.0 / (EyeDist * 2.0 * RealMath.Pi)))

  /** The pitch, in radians, at which the configured deviations are taken to be measured. */
  const ReferenceInclineRadians: real := -0.55

  function Position(t: Throw): Point {
    Ray.Point(t.x, t.z)
  }

  function Dot(a: Point, b: Point): real {
    a.x * b.x + a.z * b.z
  }

  function Scale(k: real, a: Point): Point {
    Ray.Point(k * a.x, k * a.z)
  }

  function Sub(a: Point, b: Point): Point {
    Ray.Point(a.x - b.x, a.z - b.z)
  }

  /** The horizontal direction a heading in degrees points to: (-sin, cos). */
  function Direction(e: RealMath.Elementary, degrees: real): Point {
    var phi := RealMath.ToRadians(degrees);
    Ray.Point(-e.sin(phi), e.cos(phi))
  }

  lemma DirectionIsUnit(e: RealMath.Elementary, degrees: real)
    requires e.Valid()
    ensures Dot(Direction(e, degrees), Direction(e, degrees)) == 1.0
  {
    var phi := RealMath.ToRadians(degrees);
    assert e.sin(phi) * e.sin(phi) + e.cos(phi) * e.cos(phi) == 1.0;
  }

  /** The two positions are more than eyeDist apart. */
  predicate OutsideCircle(throwPos: Point, measurement: Point) {
    Ray.Distance2(throwPos, measurement) > EyeDist * EyeDist
  }

  /** The squared distance from the throw position to the measured ray's line. */
  function MissDistance2(throwPos: Point, measurement: Point, d: Point): real {
    var u := Sub(throwPos, measurement);
    var w := Sub(u, Scale(Dot(d, u), d));
    Dot(w, w)
  }

  /**
   * The point at signed distance m along d from the foot of the
   * perpendicular dropped from the throw position onto the measured ray,
   * relative to the measurement position.
   */
  function ChordEnd(throwPos: Point, measurement: Point, d: Point, m: real): Point {
    var up := Scale(Dot(d, Sub(throwPos, measurement)), d);
    Ray.Point(up.x + m * d.x, up.z + m * d.z)
  }

  /**
   * computeEyeVec with the ray direction d given: the eye position relative
   * to the measurement position, or None when the ray (taken only forwards
   * when the positions are far apart) misses the circle.
   */
  function EyeVec(e: RealMath.Elementary, throwPos: Point, measurement: Point, passedEyeTangent: bool, d: Point): (r: Option<Point>)
  {
    var outside := OutsideCircle(throwPos, measurement);
    var useFirst := passedEyeTangent && outside;
    if outside && Dot(d, Sub(throwPos, measurement)) < 0.0 then None
    else
      var m2 := EyeDist * EyeDist - MissDistance2(throwPos, measurement, d);
      if m2 < 0.0 then None
      else Some(ChordEnd(throwPos, measurement, d, if useFirst then -e.sqrt(m2) else e.sqrt(m2)))
  }

  /** The eye vector is missing exactly in the two cases the source rejects. */
  lemma EyeVecAbsent(e: RealMath.Elementary, throwPos: Point, measurement: Point, passedEyeTangent: bool, d: Point)
    ensures EyeVec(e, throwPos, measurement, passedEyeTangent, d).None? <==>
      (OutsideCircle(throwPos, measurement) && Dot(d, Sub(throwPos, measurement)) < 0.0)
      || EyeDist * EyeDist - MissDistance2(throwPos, measurement, d) < 0.0
  {
  }

  /**
   * Writing u = (u.d) d + w for a unit d, the point (u.d + m) d - u is m d - w,
   * whose squared length is m^2 + |w|^2 because w is orthogonal to d.
   */
  lemma OnCircleAlgebra(dx: real, dz: real, ux: real, uz: real, m: real)
    requires dx * dx + dz * dz == 1.0
    ensures var ud := dx * ux + dz * uz;
      var wx := ux - ud * dx;
      var wz := uz - ud * dz;
      var px := ud * dx + m * dx - ux;
      var pz := ud * dz + m * dz - uz;
      px * px + pz * pz == m * m + (wx * wx + wz * wz)
  {
    var ud := dx * ux + dz * uz;
    var wx := ux - ud * dx;
    var wz := uz - ud * dz;
    var px := ud * dx + m * dx - ux;
    var pz := ud * dz + m * dz - uz;
    assert px == m * dx - wx;
    assert pz == m * dz - wz;
    assert dx * wx + dz * wz == ud - ud * (dx * dx + dz * dz);
    assert dx * wx + dz * wz == 0.0;
    assert px * px + pz * pz == m * m * (dx * dx + dz * dz) - 2.0 * m * (dx * wx + dz * wz) + (wx * wx + wz * wz);
  }

  /**
   * For a unit direction, the eye position found lies exactly eyeDist from
   * the throw position: ev - u is the vector angleFromEyeVec hands to atan2.
   */
  lemma EyeOnCircle(e: RealMath.Elementary, throwPos: Point, measurement: Point, passedEyeTangent: bool, d: Point)
    requires e.Valid() && Dot(d, d) == 1.0
    requires EyeVec(e, throwPos, measurement, passedEyeTangent, d).Some?
    ensures var ev := EyeVec(e, throwPos, measurement, passedEyeTangent, d).value;
      var p := Sub(ev, Sub(throwPos, measurement));
      Dot(p, p) == EyeDist * EyeDist
  {
    var m2 := EyeDist * EyeDist - MissDistance2(throwPos, measurement, d);
    var sm := e.sqrt(m2);
    var m := if passedEyeTangent && OutsideCircle(throwPos, measurement) then -sm else sm;
    RealMath.SqrtSquared(e, m2);
    assert m * m == sm * sm by {
      assert (-sm) * (-sm) == sm * sm;
    }
    ChordOnCircle(throwPos, measurement, d, m);
  }

  /** Both ends of the chord through the circle lie eyeDist from the throw position. */
  lemma ChordOnCircle(throwPos: Point, measurement: Point, d: Point, m: real)
    requires Dot(d, d) == 1.0
    requires m * m == EyeDist * EyeDist - MissDistance2(throwPos, measurement, d)
    ensures var p := Sub(ChordEnd(throwPos, measurement, d, m), Sub(throwPos, measurement));
      Dot(p, p) == EyeDist * EyeDist
  {
    var u := Sub(throwPos, measurement);
    OnCircleAlgebra(d.x, d.z, u.x, u.z, m);
  }

  /** |u - (u.d) d|^2 == |u|^2 - (u.d)^2 for a unit d. */
  lemma MissBelowDistance(dx: real, dz: real, ux: real, uz: real)
    requires dx * dx + dz * dz == 1.0
    ensures var ud := dx * ux + dz * uz;
      var wx := ux - ud * dx;
      var wz := uz - ud * dz;
      wx * wx + wz * wz <= ux * ux + uz * uz
  {
    var ud := dx * ux + dz * uz;
    var wx := ux - ud * dx;
    var wz := uz - ud * dz;
    assert wx * wx + wz * wz == ux * ux + uz * uz - 2.0 * ud * (dx * ux + dz * uz) + ud * ud * (dx * dx + dz * dz);
    assert wx * wx + wz * wz == ux * ux + uz * uz - ud * ud;
    RealMath.SquareZero(ud);
  }

  /** Measured from within eyeDist of the throw, the ray always meets the circle. */
  lemma EyeVecInside(e: RealMath.Elementary, throwPos: Point, measurement: Point, passedEyeTangent: bool, d: Point)
    requires Dot(d, d) == 1.0
    requires !OutsideCircle(throwPos, measurement)
    ensures EyeVec(e, throwPos, measurement, passedEyeTangent, d).Some?
  {
    var u := Sub(throwPos, measurement);
    MissBelowDistance(d.x, d.z, u.x, u.z);
    assert Dot(u, u) == Ray.Distance2(throwPos, measurement);
  }

  /**
   * Measured from the throw position itself, the eye lies eyeDist along the
   * measured direction.
   */
  lemma EyeVecAtThrowPosition(e: RealMath.Elementary, throwPos: Point, measurement: Point, passedEyeTangent: bool, d: Point)
    requires e.Valid() && throwPos == measurement
    ensures EyeVec(e, throwPos, measurement, passedEyeTangent, d) == Some(Scale(EyeDist, d))
  {
    RealMath.SqrtOfSquare(e, EyeDist);
    EyeVecOfFullChord(e, throwPos, measurement, passedEyeTangent, d);
  }

  /** The same, given only that sqrt takes eyeDist^2 to eyeDist. */
  lemma EyeVecOfFullChord(e: RealMath.Elementary, throwPos: Point, measurement: Point, passedEyeTangent: bool, d: Point)
    requires throwPos == measurement && e.sqrt(EyeDist * EyeDist) == EyeDist
    ensures EyeVec(e, throwPos, measurement, passedEyeTangent, d) == Some(Scale(EyeDist, d))
  {
    NoOffsetGeometry(throwPos, d);
    EyeVecWithoutMiss(e, throwPos, measurement, passedEyeTangent, d);
    ChordEndFromItself(throwPos, d, EyeDist);
  }

  /** Inside the circle and on a line through the throw position, the chord end is a full sqrt(eyeDist^2) along d. */
  lemma EyeVecWithoutMiss(e: RealMath.Elementary, throwPos: Point, measurement: Point, passedEyeTangent: bool, d: Point)
    requires !OutsideCircle(throwPos, measurement) && MissDistance2(throwPos, measurement, d) == 0.0
    ensures EyeVec(e, throwPos, measurement, passedEyeTangent, d) == Some(ChordEnd(throwPos, measurement, d, e.sqrt(EyeDist * EyeDist)))
  {
    assert EyeDist * EyeDist - MissDistance2(throwPos, measurement, d) == EyeDist * EyeDist;
  }

  /**
   * Measured from the throw position itself, atan2 is handed eyeDist times
   * the measured direction: the corrected heading is the raw heading's own.
   */
  lemma AngleAtThrowPosition(e: RealMath.Elementary, throwPos: Point, measurement: Point, passedEyeTangent: bool, d: Point)
    requires e.Valid() && throwPos == measurement
    ensures AngleFromEyeVec(e, EyeVec(e, throwPos, measurement, passedEyeTangent, d), throwPos, measurement)
      == Some(RealMath.ToDegrees(-e.atan2(EyeDist * d.x, EyeDist * d.z)))
  {
    EyeVecAtThrowPosition(e, throwPos, measurement, passedEyeTangent, d);
    AngleFromItself(e, Scale(EyeDist, d), throwPos);
  }

  /** From the throw position itself, atan2 is handed the eye vector unchanged. */
  lemma AngleFromItself(e: RealMath.Elementary, v: Point, throwPos: Point)
    ensures AngleFromEyeVec(e, Some(v), throwPos, throwPos) == Some(RealMath.ToDegrees(-e.atan2(v.x, v.z)))
  {
    assert v.x + (throwPos.x - throwPos.x) == v.x;
    assert v.z + (throwPos.z - throwPos.z) == v.z;
  }

  /** With no offset the positions are not apart, the ray passes through the throw position, and it misses by nothing. */
  lemma NoOffsetGeometry(throwPos: Point, d: Point)
    ensures !OutsideCircle(throwPos, throwPos)
    ensures Dot(d, Sub(throwPos, throwPos)) == 0.0
    ensures MissDistance2(throwPos, throwPos, d) == 0.0
  {
    assert Sub(throwPos, throwPos) == Ray.Point(0.0, 0.0);
  }

  /** From the throw position itself, the chord end at distance m is m times the direction. */
  lemma ChordEndFromItself(throwPos: Point, d: Point, m: real)
    ensures ChordEnd(throwPos, throwPos, d, m) == Scale(m, d)
  {
    assert Sub(throwPos, throwPos) == Ray.Point(0.0, 0.0);
  }

  /** angleFromEyeVec: the heading from the throw position to the eye, NaN without an eye. */
  function AngleFromEyeVec(e: RealMath.Elementary, ev: Option<Point>, throwPos: Point, measurement: Point): (r: Option<real>)
    ensures r.Some? <==> ev.Some?
  {
    match ev
    case None => None
    case Some(v) =>
      var px := v.x + (measurement.x - throwPos.x);
      var pz := v.z + (measurement.z - throwPos.z);
      Some(RealMath.ToDegrees(-e.atan2(px, pz)))
  }

  /**
   * computeStdFactor: the incline factor times the distance-and-angle
   * conversion factor. None when there is no eye vector or a cosine in a
   * denominator is zero (the source then yields NaN or an infinity).
   */
  function StdFactor(e: RealMath.Elementary, ev: Option<Point>, measuredBeta: real, measuredAlpha: real, alpha: Option<real>): (r: Option<real>)
    ensures ev.None? || alpha.None? ==> r.None?
  {
    match (ev, alpha)
    case (Some(v), Some(a)) =>
      var cb := e.cos(RealMath.ToRadians(measuredBeta));
      var theta := RealMath.ToRadians(a - measuredAlpha);
      var ct := e.cos(theta);
      if cb == 0.0 || ct == 0.0 then None
      else
        var incline := e.cos(ReferenceInclineRadians) / cb;
        var radius := e.sqrt(v.x * v.x + v.z * v.z);
        var conversion := RealMath.Abs(radius / (EyeDist * ct));
        Some(incline * conversion)
    case _ => None
  }

  /** isInaccuratePosition: a coordinate that is not 0.3, 0.5 or 0.7. */
  predicate IsInaccuratePosition(p: Point) {
    (p.x != 0.3 && p.x != 0.5 && p.x != 0.7) || (p.z != 0.3 && p.z != 0.5 && p.z != 0.7)
  }

  function Indicator(b: bool): nat {
    if b then 1 else 0
  }

  /** computeVarAdd: one quantisation variance per inaccurate position, none for the same spot. */
  function VarAdd(throwPos: Point, measurement: Point): (r: real)
    ensures measurement.x == throwPos.x && measurement.z == throwPos.z ==> r == 0.0
    ensures !(measurement.x == throwPos.x && measurement.z == throwPos.z) ==>
      r == (Indicator(IsInaccuratePosition(measurement)) + Indicator(IsInaccuratePosition(throwPos))) as real * VarPerPosition
  {
    if measurement.x == throwPos.x && measurement.z == throwPos.z then 0.0
    else
      var v := 0.0;
      var v := if IsInaccuratePosition(measurement) then v + VarPerPosition else v;
      var v := if IsInaccuratePosition(throwPos) then v + VarPerPosition else v;
      v
  }

  /** The added variance is one of 0, v and 2v, and so never negative. */
  lemma VarAddRange(throwPos: Point, measurement: Point)
    ensures var r := VarAdd(throwPos, measurement);
      (r == 0.0 || r == VarPerPosition || r == 2.0 * VarPerPosition) && 0.0 <= r
  {
    VarPerPositionPositive();
  }

  lemma VarPerPositionPositive()
    ensures 0.0 < VarPerPosition
  {
    var q := 360.0 / (EyeDist * 2.0 * RealMath.Pi);
    assert 0.0 < q;
    RealMath.MulPositive(q, q);
    RealMath.MulPositive(0.01 * 0.01 / 12.0, q * q);
  }

  /** VarAdd looks at the two positions only, and in either order. */
  lemma VarAddSymmetric(a: Point, b: Point)
    ensures VarAdd(a, b) == VarAdd(b, a)
  {
  }

  /** Adding a square under sqrt never makes it smaller. */
  lemma SqrtGrows(e: RealMath.Elementary, v: real, s: real)
    ensures e.Valid() && 0.0 <= v ==> e.sqrt(v) <= e.sqrt(v + s * s)
  {
    RealMath.SquareZero(s);
    if e.Valid() && 0.0 <= v {
      RealMath.SqrtMonotone(e, v, v + s * s);
    }
  }

  datatype OffsetThrow = OffsetThrow(
    throwPos: Throw,
    measurement: Throw,
    passedEyeTangent: bool,
    alpha0: Option<real>,
    alpha: Option<real>,
    stdFactor: Option<real>,
    varAdd: real)
  {
    /** x(): the throw position. */
    function X(): real { throwPos.x }

    function Z(): real { throwPos.z }

    /** beta(), correction(), altStd() and manualInput() come from the measurement. */
    function Beta(): real { measurement.beta }

    function Correction(): real { measurement.correction }

    function AltStd(): bool { measurement.altStd }

    function ManualInput(): bool { measurement.manualInput }

    /** An offset throw never counts as a below-horizon throw, nor as a nether one. */
    predicate LookingBelowHorizon() { false }

    predicate IsNether() { false }

    /** isValid: both headings are numbers. */
    predicate IsValid() {
      alpha.Some? && alpha0.Some?
    }

    /** getStd: sqrt(var_add + (std_factor * sigma)^2); None where std_factor is not a number. */
    function GetStd(e: RealMath.Elementary, stds: EyeThrow.StdSettings): (r: Option<real>)
      ensures r.Some? <==> stdFactor.Some?
      ensures e.Valid() && 0.0 <= varAdd && r.Some? ==> e.sqrt(varAdd) <= r.value
    {
      match stdFactor
      case None => None
      case Some(f) =>
        var s := f * measurement.GetStd(stds);
        SqrtGrows(e, varAdd, s);
        Some(e.sqrt(varAdd + s * s))
    }

    /** withAddedCorrection: the same throw position, the measurement corrected. */
    function WithAddedCorrection(e: RealMath.Elementary, delta: real): (r: OffsetThrow)
      ensures r == MakeOffsetThrow(e, throwPos, measurement.WithAddedCorrection(delta), passedEyeTangent)
      ensures r.throwPos == throwPos && r.passedEyeTangent == passedEyeTangent
    {
      MakeOffsetThrow(e, throwPos, measurement.WithAddedCorrection(delta), passedEyeTangent)
    }

    /** withToggledSTD: the same throw position, the measurement's flag toggled. */
    function WithToggledStd(e: RealMath.Elementary): (r: OffsetThrow)
      ensures r == MakeOffsetThrow(e, throwPos, measurement.WithToggledStd(), passedEyeTangent)
      ensures r.throwPos == throwPos && r.passedEyeTangent == passedEyeTangent
    {
      MakeOffsetThrow(e, throwPos, measurement.WithToggledStd(), passedEyeTangent)
    }
  }

  /** The constructor: every derived field computed once from the two throws. */
  function MakeOffsetThrow(e: RealMath.Elementary, throwPos: Throw, measurement: Throw, passedEyeTangent: bool): (o: OffsetThrow)
    ensures o.throwPos == throwPos && o.measurement == measurement && o.passedEyeTangent == passedEyeTangent
    ensures o.varAdd == VarAdd(Position(throwPos), Position(measurement))
    ensures o.alpha0.Some? <==> EyeVec(e, Position(throwPos), Position(measurement), passedEyeTangent, Direction(e, measurement.alpha0)).Some?
    ensures o.alpha.Some? <==> EyeVec(e, Position(throwPos), Position(measurement), passedEyeTangent, Direction(e, measurement.Alpha())).Some?
    ensures o.alpha.None? ==> o.stdFactor.None?
  {
    var tp := Position(throwPos);
    var mp := Position(measurement);
    var ev0 := EyeVec(e, tp, mp, passedEyeTangent, Direction(e, measurement.alpha0));
    var ev := EyeVec(e, tp, mp, passedEyeTangent, Direction(e, measurement.Alpha()));
    var alpha := AngleFromEyeVec(e, ev, tp, mp);
    OffsetThrow(
      throwPos, measurement, passedEyeTangent,
      AngleFromEyeVec(e, ev0, tp, mp),
      alpha,
      StdFactor(e, ev, measurement.beta, measurement.Alpha(), alpha),
      VarAdd(tp, mp))
  }

  /**
   * Measured from the throw position itself, both headings are taken from
   * eyeDist times the measurement's own direction, and no variance is added.
   */
  lemma SamePositionRoundTrip(e: RealMath.Elementary, throwPos: Throw, measurement: Throw, passedEyeTangent: bool)
    requires e.Valid() && Position(throwPos) == Position(measurement)
    ensures var o := MakeOffsetThrow(e, throwPos, measurement, passedEyeTangent);
      var d0 := Direction(e, measurement.alpha0);
      var d := Direction(e, measurement.Alpha());
      && o.alpha0 == Some(RealMath.ToDegrees(-e.atan2(EyeDist * d0.x, EyeDist * d0.z)))
      && o.alpha == Some(RealMath.ToDegrees(-e.atan2(EyeDist * d.x, EyeDist * d.z)))
      && o.varAdd == 0.0
  {
    var tp := Position(throwPos);
    AngleAtThrowPosition(e, tp, tp, passedEyeTangent, Direction(e, measurement.alpha0));
    AngleAtThrowPosition(e, tp, tp, passedEyeTangent, Direction(e, measurement.Alpha()));
  }

  /** A measurement taken within eyeDist of the throw position always gives a valid offset throw. */
  lemma ValidInsideCircle(e: RealMath.Elementary, throwPos: Throw, measurement: Throw, passedEyeTangent: bool)
    requires e.Valid()
    requires Ray.Distance2(Position(throwPos), Position(measurement)) <= EyeDist * EyeDist
    ensures MakeOffsetThrow(e, throwPos, measurement, passedEyeTangent).IsValid()
  {
    var tp := Position(throwPos);
    var mp := Position(measurement);
    DirectionIsUnit(e, measurement.alpha0);
    DirectionIsUnit(e, measurement.Alpha());
    EyeVecInside(e, tp, mp, passedEyeTangent, Direction(e, measurement.alpha0));
    EyeVecInside(e, tp, mp, passedEyeTangent, Direction(e, measurement.Alpha()));
  }

  /** The invalid cases: no eye vector for the corrected or the uncorrected heading. */
  lemma InvalidWhenNoEye(e: RealMath.Elementary, throwPos: Throw, measurement: Throw, passedEyeTangent: bool)
    ensures !MakeOffsetThrow(e, throwPos, measurement, passedEyeTangent).IsValid() <==>
      EyeVec(e, Position(throwPos), Position(measurement), passedEyeTangent, Direction(e, measurement.alpha0)).None?
      || EyeVec(e, Position(throwPos), Position(measurement), passedEyeTangent, Direction(e, measurement.Alpha())).None?
  {
  }

  /**
   * Toggling the measurement's deviation flag keeps both headings, the
   * deviation factor and the added variance; only altStd changes.
   */
  lemma ToggleKeepsGeometry(e: RealMath.Elementary, o: OffsetThrow)
    requires o.measurement.Valid()
    requires o == MakeOffsetThrow(e, o.throwPos, o.measurement, o.passedEyeTangent)
    ensures var r := o.WithToggledStd(e);
      && r.alpha0 == o.alpha0 && r.alpha == o.alpha && r.stdFactor == o.stdFactor
      && r.varAdd == o.varAdd && r.AltStd() == !o.AltStd()
      && r.X() == o.X() && r.Z() == o.Z() && r.Beta() == o.Beta() && r.Correction() == o.Correction()
  {
    var m' := o.measurement.WithToggledStd();
    assert Position(m') == Position(o.measurement);
    assert m'.alpha0 == o.measurement.alpha0 && m'.Alpha() == o.measurement.Alpha() && m'.beta == o.measurement.beta;
  }

  /** Adding a correction keeps the uncorrected heading and the added variance. */
  lemma CorrectionKeepsAlpha0(e: RealMath.Elementary, o: OffsetThrow, delta: real)
    requires o.measurement.Valid()
    requires o == MakeOffsetThrow(e, o.throwPos, o.measurement, o.passedEyeTangent)
    ensures var r := o.WithAddedCorrection(e, delta);
      && r.alpha0 == o.alpha0 && r.varAdd == o.varAdd
      && r.Correction() == o.Correction() + delta
      && r.X() == o.X() && r.Z() == o.Z()
  {
    var m' := o.measurement.WithAddedCorrection(delta);
    assert Position(m') == Position(o.measurement);
    assert m'.alpha0 == o.measurement.alpha0;
  }
}
