/**
 * IThrow: what the history and the solver see of a throw, whether it is a
 * plain Throw or an OffsetThrow.
 */
module Observations {
  import opened Wrappers
  import RealMath
  import Ray
  import EyeThrow
  import Offset

  datatype Observation =
    | Plain(t: EyeThrow.Throw)
    | Shifted(o: Offset.OffsetThrow)
  {
    function X(): real {
      match this
      case Plain(t) => t.x
      case Shifted(o) => o.X()
    }

    function Z(): real {
      match this
      case Plain(t) => t.z
      case Shifted(o) => o.Z()
    }

    /** alpha(): None where the offset throw's heading is NaN. */
    function Alpha(): Option<real> {
      match this
      case Plain(t) => Some(t.Alpha())
      case Shifted(o) => o.alpha
    }

    function Beta(): real {
      match this
      case Plain(t) => t.beta
      case Shifted(o) => o.Beta()
    }

    function Correction(): real {
      match this
      case Plain(t) => t.correction
      case Shifted(o) => o.Correction()
    }

    predicate AltStd() {
      match this
      case Plain(t) => t.altStd
      case Shifted(o) => o.AltStd()
    }

    predicate LookingBelowHorizon() {
      match this
      case Plain(t) => t.LookingBelowHorizon()
      case Shifted(o) => o.LookingBelowHorizon()
    }

    predicate IsNether() {
      match this
      case Plain(t) => t.nether
      case Shifted(o) => o.IsNether()
    }

    /** distance2 between the positions of two observations. */
    function Distance2(other: Observation): real {
      Ray.Distance2(Ray.Point(X(), Z()), Ray.Point(other.X(), other.Z()))
    }

    /** Every plain throw has its heading normalised. */
    ghost predicate Valid() {
      match this
      case Plain(t) => t.Valid()
      case Shifted(o) => o.measurement.Valid()
    }

    /** withAddedCorrection, dispatched to the throw kind. */
    function WithAddedCorrection(e: RealMath.Elementary, delta: real): (r: Observation)
      ensures r.Valid()
      ensures r.Plain? <==> this.Plain?
      ensures Valid() ==> r.Correction() == Correction() + delta && r.X() == X() && r.Z() == Z()
    {
      match this
      case Plain(t) => Plain(t.WithAddedCorrection(delta))
      case Shifted(o) => Shifted(o.WithAddedCorrection(e, delta))
    }

    /** withToggledSTD, dispatched to the throw kind. */
    function WithToggledStd(e: RealMath.Elementary): (r: Observation)
      ensures r.Valid()
      ensures r.Plain? <==> this.Plain?
      ensures Valid() ==> r.AltStd() == !AltStd() && r.X() == X() && r.Z() == Z() && r.Correction() == Correction()
      ensures r.LookingBelowHorizon() == LookingBelowHorizon()
    {
      match this
      case Plain(t) => Plain(t.WithToggledStd())
      case Shifted(o) => Shifted(o.WithToggledStd(e))
    }
  }

  /** An offset throw built from two throws, as the history builds them. */
  function OffsetOf(e: RealMath.Elementary, throwPos: EyeThrow.Throw, measurement: EyeThrow.Throw): (r: Observation)
    ensures r.Shifted? && !r.LookingBelowHorizon()
    ensures measurement.Valid() ==> r.Valid()
  {
    Shifted(Offset.MakeOffsetThrow(e, throwPos, measurement, false))
  }

  /** Toggling the deviation flag of an observation twice gives back its fields. */
  lemma ToggleTwiceKeepsFlag(e: RealMath.Elementary, ob: Observation)
    requires ob.Valid()
    ensures ob.WithToggledStd(e).WithToggledStd(e).AltStd() == ob.AltStd()
    ensures ob.Plain? ==> ob.WithToggledStd(e).WithToggledStd(e) == ob
  {
    if ob.Plain? {
      EyeThrow.ToggleTwice(ob.t);
    }
  }
}
