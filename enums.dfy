/**
 The two enumerations of the dashboard backend: the drive mode reported in
 byte 0 of the status frame and the two-valued status used by the other
 four switch fields. Each comes with its integer value, the Python-style
 lookup `DriveMode(v)` / `Status(v)` that fails on a value with no member,
 and the member name that the getters hand to the user interface.
 */
module Enums {

  datatype Option<+T> = None | Some(value: T)

  datatype DriveMode = Neutral | Forward | Reverse | ForwardMap | Manual

  datatype Status = Disengaged | Engaged

  /** The value attached to each drive-mode member. */
  function DriveModeValue(m: DriveMode): (v: nat)
    ensures v <= 4
  {
    match m
    case Neutral => 0
    case Forward => 1
    case Reverse => 2
    case ForwardMap => 3
    case Manual => 4
  }

  /** `DriveMode(v)`: the member whose value is `v`, or None where the
      enumeration lookup raises ValueError. */
  function DriveModeOf(v: int): (r: Option<DriveMode>)
    ensures r.Some? <==> 0 <= v <= 4
    ensures r.Some? ==> DriveModeValue(r.value) == v
  {
    if v == 0 then Some(Neutral)
    else if v == 1 then Some(Forward)
    else if v == 2 then Some(Reverse)
    else if v == 3 then Some(ForwardMap)
    else if v == 4 then Some(Manual)
    else None
  }

  /** The value attached to each status member. */
  function StatusValue(s: Status): (v: nat)
    ensures v <= 1
  {
    match s
    case Disengaged => 0
    case Engaged => 1
  }

  /** `Status(v)`: the member whose value is `v`, or None where the
      enumeration lookup raises ValueError. */
  function StatusOf(v: int): (r: Option<Status>)
    ensures r.Some? <==> 0 <= v <= 1
    ensures r.Some? ==> StatusValue(r.value) == v
  {
    if v == 0 then Some(Disengaged)
    else if v == 1 then Some(Engaged)
    else None
  }

  /** Looking a member up by its own value gives the member back. */
  lemma DriveModeRoundTrip(m: DriveMode)
    ensures DriveModeOf(DriveModeValue(m)) == Some(m)
  {
  }

  lemma StatusRoundTrip(s: Status)
    ensures StatusOf(StatusValue(s)) == Some(s)
  {
  }

  /** `.name` of a drive-mode member, as the driveMode getter returns it. */
  function DriveModeName(m: DriveMode): string
  {
    match m
    case Neutral => "Neutral"
    case Forward => "Forward"
    case Reverse => "Reverse"
    case ForwardMap => "ForwardMap"
    case Manual => "Manual"
  }

  /** `.name` of a status member, as the dbw, brake, autopark and emergency
      getters return it. */
  function StatusName(s: Status): string
  {
    match s
    case Disengaged => "Disengaged"
    case Engaged => "Engaged"
  }

  /** Distinct members have distinct names, so the user interface can tell
      every state apart from the getter's string alone. */
  lemma NamesDistinguishMembers(m1: DriveMode, m2: DriveMode, s1: Status, s2: Status)
    ensures DriveModeName(m1) == DriveModeName(m2) <==> m1 == m2
    ensures StatusName(s1) == StatusName(s2) <==> s1 == s2
  {
  }
}
