/** Configuration constants and the motion-status enumeration. */
module Constants {
  import opened Wrappers

  /** `ACTIVITY_CONFIG.MAX_ACTIVITIES`: how many samples a user's history keeps. */
  const MaxActivities: nat := 10

  /** `ACTIVITY_CONFIG.INACTIVITY_THRESHOLD_HOURS`. The check endpoint does not read it:
      its threshold comes from the environment, defaulting to 18 hours. */
  const InactivityThresholdHours: nat := 24

  /** The `MotionStatus` enum. */
  datatype MotionStatus = Walking | Running | Moving | Stationary | Unknown | Active | Inactive

  /** The string value each enum member carries. */
  function Text(m: MotionStatus): string
  {
    match m
    case Walking => "walking"
    case Running => "running"
    case Moving => "moving"
    case Stationary => "stationary"
    case Unknown => "unknown"
    case Active => "active"
    case Inactive => "inactive"
  }

  /** `z.nativeEnum(MotionStatus)`: a string is accepted iff it is one of the enum's values. */
  function Parse(s: string): (r: Option<MotionStatus>)
    ensures r.Some? ==> Text(r.value) == s
  {
    if s == "walking" then Some(Walking)
    else if s == "running" then Some(Running)
    else if s == "moving" then Some(Moving)
    else if s == "stationary" then Some(Stationary)
    else if s == "unknown" then Some(Unknown)
    else if s == "active" then Some(Active)
    else if s == "inactive" then Some(Inactive)
    else None
  }

  /** Every enum member's value is accepted back as that member. */
  lemma ParseText(m: MotionStatus)
    ensures Parse(Text(m)) == Some(m)
  {
  }

  /** `ACTIVE_MOTION_STATUSES`. */
  const ActiveMotionStatuses: seq<MotionStatus> := [Walking, Running, Moving, Unknown, Active]

  /** `ACTIVE_MOTION_STATUSES.includes(status)`. */
  predicate IsActiveMotion(m: MotionStatus)
  {
    m in ActiveMotionStatuses
  }

  /** The active set is exactly walking, running, moving, unknown and active: stationary and
      inactive are the only members outside it, and unknown counts as active. */
  lemma ActiveSetExact(m: MotionStatus)
    ensures IsActiveMotion(m) <==> m != Stationary && m != Inactive
    ensures IsActiveMotion(Unknown)
  {
  }
}
