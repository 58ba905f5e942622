/**
 * `get_landing_longitude` as LonTargeting.py and longitude_targeting.py both
 * define it: the predicted impact longitude, else the current longitude as a
 * fallback, else an exception.  Neither script catches that exception inside
 * its loop.
 */
module ImpactPrediction {
  import opened Commands

  /** What the host answers to the reads of one `get_landing_longitude` call. */
  datatype Prediction =
    | Impact(longitude: real)         // `impact_point` found a point: its normalized longitude
    | NoImpact(current: Option<real>) // no impact point: the fallback `rocket_longitude()` read
    | NoPlanet                        // `planet()` answered nothing, so the call raises

  /**
   * The landing longitude the pass goes on with, or None when the pass
   * raises.  It raises either in `get_landing_longitude` itself or, when the
   * fallback read returned None, in `calculate_longitude_difference`, which
   * cannot reduce None modulo 360.
   */
  function Predicted(p: Prediction): (l: Option<real>)
    ensures l.None? <==> p.NoPlanet? || p == NoImpact(None)
    ensures l.Some? ==> l.value == (if p.Impact? then p.longitude else p.current.value)
  {
    match p
    case Impact(longitude) => Some(longitude)
    case NoImpact(current) => current
    case NoPlanet => None
  }
}
