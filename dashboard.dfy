/**
 The dashboard backend as an object: seven stored fields that its setters
 update in place, and the list of change signals it has emitted so far.
 `HandleFrame` is the bus callback; it makes the setter calls one after
 the other, so an exception leaves the effects of the calls before it in
 place. Each method is tied to the value-level model in `Store`.
 */
module Backend {
  import opened Enums
  import opened Layout
  import opened Store

  /** The seven statements of the handler, in source order, each a
      `Call` on the effect the previous one left. */
  function Chain(e: Effect, data: seq<Byte>): Effect
  {
    Call(Call(Call(Call(Call(Call(Call(e,
      data, DriveModeField), data, DbwField), data, BrakeField), data, AutoparkField),
      data, EmergencyField), data, SpeedField), data, BatteryField)
  }

  /** A statement appends to the signal list and leaves what is already
      there alone. */
  lemma CallKeepsPrefix(e: Effect, p: seq<Signal>, data: seq<Byte>, f: Field)
    ensures var c := Call(e, data, f);
      Call(e.(signals := p + e.signals), data, f) == c.(signals := p + c.signals)
  {
  }

  /** Running the seven statements on an object that has already emitted
      `p` leaves `p` followed by the handler's own signals. */
  lemma HandleIsChain(s: State, p: seq<Signal>, data: seq<Byte>)
    ensures var h := Handle(s, StatusFrameId, data);
      Chain(Effect(s, p, Processed), data) == h.(signals := p + h.signals)
  {
    var e0 := Effect(s, [], Processed);
    var e1 := Call(e0, data, DriveModeField);
    var e2 := Call(e1, data, DbwField);
    var e3 := Call(e2, data, BrakeField);
    var e4 := Call(e3, data, AutoparkField);
    var e5 := Call(e4, data, EmergencyField);
    var e6 := Call(e5, data, SpeedField);
    assert Steps(s, data, 6) == e6 by {
      assert Steps(s, data, 1) == e1;
      assert Steps(s, data, 2) == e2;
      assert Steps(s, data, 3) == e3;
      assert Steps(s, data, 4) == e4;
      assert Steps(s, data, 5) == e5;
    }
    assert e0.(signals := p + e0.signals) == Effect(s, p, Processed);
    CallKeepsPrefix(e0, p, data, DriveModeField);
    CallKeepsPrefix(e1, p, data, DbwField);
    CallKeepsPrefix(e2, p, data, BrakeField);
    CallKeepsPrefix(e3, p, data, AutoparkField);
    CallKeepsPrefix(e4, p, data, EmergencyField);
    CallKeepsPrefix(e5, p, data, SpeedField);
    CallKeepsPrefix(e6, p, data, BatteryField);
  }

  /** A statement whose argument evaluates: its setter is called. */
  lemma Proceeds(e: Effect, data: seq<Byte>, f: Field, u: Update)
    requires e.outcome == Processed
    requires Argument(data, f, e.state) == Ok(u)
    ensures Call(e, data, f) == Effect(Set(e.state, u).0, e.signals + Set(e.state, u).1, Processed)
  {
  }

  /** A statement whose argument raises `x`: the handler stops there. */
  lemma Stops(e: Effect, data: seq<Byte>, f: Field, x: FrameError)
    requires e.outcome == Processed
    requires Argument(data, f, e.state) == Err(x)
    ensures Call(e, data, f) == e.(outcome := Raised(x))
  {
  }

  class Dashboard {
    var speed: nat              // hundredths of km/h
    var driveMode: DriveMode
    var dbw: Status
    var brake: Status
    var autopark: Status
    var emergency: Status
    var battery: int            // percent
    /** Every change signal emitted so far, oldest first. */
    var signals: seq<Signal>

    /** The stored fields as a value. */
    function Snapshot(): State
      reads this
    {
      State(speed, driveMode, dbw, brake, autopark, emergency, battery)
    }

    // The getters the user interface reads: the enumeration fields are
    // handed over by member name, speed and battery as stored.

    function DriveModeText(): string
      reads this
    {
      DriveModeName(driveMode)
    }

    function DbwText(): string
      reads this
    {
      StatusName(dbw)
    }

    function BrakeText(): string
      reads this
    {
      StatusName(brake)
    }

    function AutoparkText(): string
      reads this
    {
      StatusName(autopark)
    }

    function EmergencyText(): string
      reads this
    {
      StatusName(emergency)
    }

    /** The default values; no signal has been emitted. */
    constructor ()
      ensures Snapshot() == Initial
      ensures signals == []
    {
      speed, driveMode := 0, Neutral;
      dbw, brake, autopark, emergency := Disengaged, Disengaged, Disengaged, Disengaged;
      battery := 100;
      signals := [];
    }

    // The seven setters: each assigns its field and appends the field's
    // change signal only when the new value differs from the stored one,
    // which is `Store.Set` carried out on the object.

    method SetSpeed(value: nat)
      modifies this
      ensures Snapshot() == old(Snapshot()).(speed := value)
      ensures signals == old(signals) + if old(speed) != value then [Changed(SpeedField)] else []
      ensures Snapshot() == Set(old(Snapshot()), SpeedTo(value)).0
      ensures signals == old(signals) + Set(old(Snapshot()), SpeedTo(value)).1
    {
      if speed != value {
        speed := value;
        signals := signals + [Changed(SpeedField)];
      }
    }

    method SetDriveMode(value: DriveMode)
      modifies this
      ensures Snapshot() == old(Snapshot()).(driveMode := value)
      ensures signals == old(signals) + if old(driveMode) != value then [Changed(DriveModeField)] else []
      ensures Snapshot() == Set(old(Snapshot()), DriveModeTo(value)).0
      ensures signals == old(signals) + Set(old(Snapshot()), DriveModeTo(value)).1
    {
      if driveMode != value {
        driveMode := value;
        signals := signals + [Changed(DriveModeField)];
      }
    }

    method SetDbw(value: Status)
      modifies this
      ensures Snapshot() == old(Snapshot()).(dbw := value)
      ensures signals == old(signals) + if old(dbw) != value then [Changed(DbwField)] else []
      ensures Snapshot() == Set(old(Snapshot()), DbwTo(value)).0
      ensures signals == old(signals) + Set(old(Snapshot()), DbwTo(value)).1
    {
      if dbw != value {
        dbw := value;
        signals := signals + [Changed(DbwField)];
      }
    }

    method SetBrake(value: Status)
      modifies this
      ensures Snapshot() == old(Snapshot()).(brake := value)
      ensures signals == old(signals) + if old(brake) != value then [Changed(BrakeField)] else []
      ensures Snapshot() == Set(old(Snapshot()), BrakeTo(value)).0
      ensures signals == old(signals) + Set(old(Snapshot()), BrakeTo(value)).1
    {
      if brake != value {
        brake := value;
        signals := signals + [Changed(BrakeField)];
      }
    }

    method SetAutopark(value: Status)
      modifies this
      ensures Snapshot() == old(Snapshot()).(autopark := value)
      ensures signals == old(signals) + if old(autopark) != value then [Changed(AutoparkField)] else []
      ensures Snapshot() == Set(old(Snapshot()), AutoparkTo(value)).0
      ensures signals == old(signals) + Set(old(Snapshot()), AutoparkTo(value)).1
    {
      if autopark != value {
        autopark := value;
        signals := signals + [Changed(AutoparkField)];
      }
    }

    method SetEmergency(value: Status)
      modifies this
      ensures Snapshot() == old(Snapshot()).(emergency := value)
      ensures signals == old(signals) + if old(emergency) != value then [Changed(EmergencyField)] else []
      ensures Snapshot() == Set(old(Snapshot()), EmergencyTo(value)).0
      ensures signals == old(signals) + Set(old(Snapshot()), EmergencyTo(value)).1
    {
      if emergency != value {
        emergency := value;
        signals := signals + [Changed(EmergencyField)];
      }
    }

    method SetBattery(value: int)
      modifies this
      ensures Snapshot() == old(Snapshot()).(battery := value)
      ensures signals == old(signals) + if old(battery) != value then [Changed(BatteryField)] else []
      ensures Snapshot() == Set(old(Snapshot()), BatteryTo(value)).0
      ensures signals == old(signals) + Set(old(Snapshot()), BatteryTo(value)).1
    {
      if battery != value {
        battery := value;
        signals := signals + [Changed(BatteryField)];
      }
    }

    /** The bus callback for one frame. The new fields, the signals
        appended and the way the call ends are those of `Store.Handle`. */
    method HandleFrame(id: int, data: seq<Byte>) returns (outcome: Outcome)
      modifies this
      ensures var e := Handle(old(Snapshot()), id, data);
        Snapshot() == e.state && signals == old(signals) + e.signals && outcome == e.outcome
    {
      if id != StatusFrameId {
        return Ignored;
      }
      ghost var s0, sig0 := Snapshot(), signals;
      // `e` is the object as the value-level effect of the statements so
      // far; each `Proceeds` or `Stops` says what the next statement does
      ghost var e := Effect(Snapshot(), signals, Processed);

      var mode := ReadDriveMode(data);
      if mode.Err? {
        Stops(e, data, DriveModeField, mode.error);
        HandleIsChain(s0, sig0, data);
        return Raised(mode.error);
      }
      Proceeds(e, data, DriveModeField, DriveModeTo(mode.value));
      SetDriveMode(mode.value);
      e := Effect(Snapshot(), signals, Processed);

      var dbwValue := ReadStatus(data, 1);
      if dbwValue.Err? {
        Stops(e, data, DbwField, dbwValue.error);
        HandleIsChain(s0, sig0, data);
        return Raised(dbwValue.error);
      }
      Proceeds(e, data, DbwField, DbwTo(dbwValue.value));
      SetDbw(dbwValue.value);
      e := Effect(Snapshot(), signals, Processed);

      var brakeValue := ReadStatus(data, 2);
      if brakeValue.Err? {
        Stops(e, data, BrakeField, brakeValue.error);
        HandleIsChain(s0, sig0, data);
        return Raised(brakeValue.error);
      }
      Proceeds(e, data, BrakeField, BrakeTo(brakeValue.value));
      SetBrake(brakeValue.value);
      e := Effect(Snapshot(), signals, Processed);

      var autoparkValue := ReadAutopark(data);
      if autoparkValue.Err? {
        Stops(e, data, AutoparkField, autoparkValue.error);
        HandleIsChain(s0, sig0, data);
        return Raised(autoparkValue.error);
      }
      Proceeds(e, data, AutoparkField, AutoparkTo(autoparkValue.value));
      SetAutopark(autoparkValue.value);
      e := Effect(Snapshot(), signals, Processed);

      var emergencyValue := ReadStatus(data, 4);
      if emergencyValue.Err? {
        Stops(e, data, EmergencyField, emergencyValue.error);
        HandleIsChain(s0, sig0, data);
        return Raised(emergencyValue.error);
      }
      Proceeds(e, data, EmergencyField, EmergencyTo(emergencyValue.value));
      SetEmergency(emergencyValue.value);
      e := Effect(Snapshot(), signals, Processed);

      var rawSpeed := ReadSpeed(data);
      if rawSpeed.Err? {
        Stops(e, data, SpeedField, rawSpeed.error);
        HandleIsChain(s0, sig0, data);
        return Raised(rawSpeed.error);
      }
      Proceeds(e, data, SpeedField, SpeedTo(rawSpeed.value));
      SetSpeed(rawSpeed.value);
      e := Effect(Snapshot(), signals, Processed);

      Proceeds(e, data, BatteryField, BatteryTo(Drain(battery)));
      SetBattery(Drain(battery));
      HandleIsChain(s0, sig0, data);
      return Processed;
    }
  }
}
