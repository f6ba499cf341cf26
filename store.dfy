/**
 The dashboard's seven stored fields as a value, the per-field setters as
 functions on that value, and the frame handler as the sequence of setter
 calls it makes. The emitted change signals are a list of `Signal`s, in
 the order in which they are emitted.

 Speed is kept as the raw 16-bit count of 0.01 km/h. The source stores
 `raw * 0.01` as a float; that scaling maps distinct counts 0..65535 to
 distinct floats and 0 to the initial 0.0, so comparing raw counts makes
 the same decisions as comparing the scaled floats.
 */
module Store {
  import opened Enums
  import opened Layout

  /** The fields whose setters emit a change signal. */
  datatype Field =
    | SpeedField | DriveModeField | DbwField | BrakeField
    | AutoparkField | EmergencyField | BatteryField

  /** One emitted change signal: `Changed(SpeedField)` is speedChanged, and so on. */
  datatype Signal = Changed(field: Field)

  datatype State = State(
    speed: nat,              // hundredths of km/h
    driveMode: DriveMode,
    dbw: Status,
    brake: Status,
    autopark: Status,
    emergency: Status,
    battery: int)            // percent

  /** The values the backend starts with. */
  const Initial: State := State(0, Neutral, Disengaged, Disengaged, Disengaged, Disengaged, 100)

  /** One setter call: which setter, with which value. */
  datatype Update =
    | SpeedTo(speed: nat)
    | DriveModeTo(driveMode: DriveMode)
    | DbwTo(dbw: Status)
    | BrakeTo(brake: Status)
    | AutoparkTo(autopark: Status)
    | EmergencyTo(emergency: Status)
    | BatteryTo(battery: int)

  function FieldOf(u: Update): Field
  {
    match u
    case SpeedTo(_) => SpeedField
    case DriveModeTo(_) => DriveModeField
    case DbwTo(_) => DbwField
    case BrakeTo(_) => BrakeField
    case AutoparkTo(_) => AutoparkField
    case EmergencyTo(_) => EmergencyField
    case BatteryTo(_) => BatteryField
  }

  /** `s` with the field that `u` names holding `u`'s value. */
  function Put(s: State, u: Update): State
  {
    match u
    case SpeedTo(v) => s.(speed := v)
    case DriveModeTo(v) => s.(driveMode := v)
    case DbwTo(v) => s.(dbw := v)
    case BrakeTo(v) => s.(brake := v)
    case AutoparkTo(v) => s.(autopark := v)
    case EmergencyTo(v) => s.(emergency := v)
    case BatteryTo(v) => s.(battery := v)
  }

  /** The setter's guard `self._x != value`. */
  predicate Differs(s: State, u: Update)
  {
    match u
    case SpeedTo(v) => s.speed != v
    case DriveModeTo(v) => s.driveMode != v
    case DbwTo(v) => s.dbw != v
    case BrakeTo(v) => s.brake != v
    case AutoparkTo(v) => s.autopark != v
    case EmergencyTo(v) => s.emergency != v
    case BatteryTo(v) => s.battery != v
  }

  /** The order in which the frame handler sets the fields. */
  const FrameOrder: seq<Field> :=
    [DriveModeField, DbwField, BrakeField, AutoparkField, EmergencyField, SpeedField, BatteryField]

  /** Whether `s` and `t` hold the same value in field `f`. */
  predicate Same(s: State, t: State, f: Field)
  {
    match f
    case SpeedField => s.speed == t.speed
    case DriveModeField => s.driveMode == t.driveMode
    case DbwField => s.dbw == t.dbw
    case BrakeField => s.brake == t.brake
    case AutoparkField => s.autopark == t.autopark
    case EmergencyField => s.emergency == t.emergency
    case BatteryField => s.battery == t.battery
  }

  /** `Changed(f)` for each of the first `k` fields of FrameOrder that hold
      different values in `s` and `t`, in that order. */
  function DiffUpTo(s: State, t: State, k: nat): seq<Signal>
    requires k <= |FrameOrder|
  {
    if k == 0 then []
    else DiffUpTo(s, t, k - 1) + (if Same(s, t, FrameOrder[k - 1]) then [] else [Changed(FrameOrder[k - 1])])
  }

  /** A reference for the signal list of a frame: one `Changed(f)` for each
      field that holds different values in `s` and `t`, in the handler's
      order. */
  function Diff(s: State, t: State): seq<Signal>
  {
    DiffUpTo(s, t, |FrameOrder|)
  }

  /** One setter: assign and emit the field's signal only if the value
      differs from the stored one. The field named by `u` ends up holding
      `u`'s value, and `u`'s signal is emitted exactly when that changes
      the state. */
  function Set(s: State, u: Update): (r: (State, seq<Signal>))
    ensures r.0 == Put(s, u)
    ensures r.1 == if r.0 == s then [] else [Changed(FieldOf(u))]
  {
    if Differs(s, u) then (Put(s, u), [Changed(FieldOf(u))]) else (s, [])
  }

  /** `max(0, battery - 1)`, the simulated drain. */
  function Drain(battery: int): (r: int)
    ensures r >= 0
    ensures r < battery <==> battery > 0
    ensures battery > 0 ==> battery - r == 1
    ensures battery <= 0 ==> r == 0
  {
    if battery - 1 > 0 then battery - 1 else 0
  }

  /** How one call of the handler ended: returned early for a foreign id,
      ran to its end, or raised at some byte. */
  datatype Outcome = Ignored | Processed | Raised(error: FrameError)

  /** What one call of the handler leaves behind: the new state, the
      signals it emitted, and how it ended. */
  datatype Effect = Effect(state: State, signals: seq<Signal>, outcome: Outcome)

  /** The argument the handler evaluates for the setter of field `f`; the
      battery's argument reads the stored battery at that point. */
  function Argument(data: seq<Byte>, f: Field, s: State): Result<Update>
  {
    match f
    case DriveModeField =>
      (match ReadDriveMode(data) case Ok(m) => Ok(DriveModeTo(m)) case Err(x) => Err(x))
    case DbwField =>
      (match ReadStatus(data, 1) case Ok(v) => Ok(DbwTo(v)) case Err(x) => Err(x))
    case BrakeField =>
      (match ReadStatus(data, 2) case Ok(v) => Ok(BrakeTo(v)) case Err(x) => Err(x))
    case AutoparkField =>
      (match ReadAutopark(data) case Ok(v) => Ok(AutoparkTo(v)) case Err(x) => Err(x))
    case EmergencyField =>
      (match ReadStatus(data, 4) case Ok(v) => Ok(EmergencyTo(v)) case Err(x) => Err(x))
    case SpeedField =>
      (match ReadSpeed(data) case Ok(v) => Ok(SpeedTo(v)) case Err(x) => Err(x))
    case BatteryField => Ok(BatteryTo(Drain(s.battery)))
  }

  /** One statement of the handler: evaluate the argument for field `f` and
      call its setter, unless an earlier statement has already raised. */
  function Call(e: Effect, data: seq<Byte>, f: Field): Effect
  {
    if !e.outcome.Processed? then e
    else match Argument(data, f, e.state)
      case Err(x) => e.(outcome := Raised(x))
      case Ok(u) => var (t, sig) := Set(e.state, u); Effect(t, e.signals + sig, Processed)
  }

  /** The first `k` statements of the handler: the setter calls for the
      first `k` fields of FrameOrder, each skipped once an earlier one has
      raised. */
  function Steps(s: State, data: seq<Byte>, k: nat): Effect
    requires k <= |FrameOrder|
  {
    if k == 0 then Effect(s, [], Processed)
    else Call(Steps(s, data, k - 1), data, FrameOrder[k - 1])
  }

  /** The frame handler: return for any id other than the status frame's,
      otherwise the seven setter calls in source order. An exception leaves
      the effects of the calls before it in place. */
  function Handle(s: State, id: int, data: seq<Byte>): Effect
  {
    if id != StatusFrameId then Effect(s, [], Ignored)
    else Steps(s, data, |FrameOrder|)
  }

  /** One frame as the bus delivers it. */
  datatype Frame = Frame(id: int, data: seq<Byte>)

  /** The handler called once per frame, in delivery order; the state and
      all signals emitted along the way. */
  function Replay(s: State, frames: seq<Frame>): (State, seq<Signal>)
    decreases |frames|
  {
    if frames == [] then (s, [])
    else
      var e := Handle(s, frames[0].id, frames[0].data);
      var (t, rest) := Replay(e.state, frames[1..]);
      (t, e.signals + rest)
  }
}
