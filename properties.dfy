/**
 What the frame handler guarantees, stated over the value model in
 `Store` and proved for all states and payloads. The proofs go through
 one invariant of the handler's first `k` statements (`StepsInvariant`).
 */
module Properties {
  import opened Enums
  import opened Layout
  import opened Store

  // ---------------------------------------------------------------------
  // The field order and the reference signal list
  // ---------------------------------------------------------------------

  /** Where each field stands in FrameOrder. */
  function Position(f: Field): (i: nat)
    ensures i < |FrameOrder| && FrameOrder[i] == f
  {
    match f
    case DriveModeField => 0
    case DbwField => 1
    case BrakeField => 2
    case AutoparkField => 3
    case EmergencyField => 4
    case SpeedField => 5
    case BatteryField => 6
  }

  /** Every field stands in FrameOrder once: the field at position `j`
      has Position `j`. */
  lemma PositionOf(j: nat)
    requires j < |FrameOrder|
    ensures Position(FrameOrder[j]) == j
  {
  }

  /** The reference list names each field at most once: exactly once if
      it is among the first `k` of FrameOrder and differs. */
  lemma {:induction false} DiffUpToCount(s: State, t: State, k: nat, f: Field)
    requires k <= |FrameOrder|
    ensures multiset(DiffUpTo(s, t, k))[Changed(f)] ==
      if Position(f) < k && !Same(s, t, f) then 1 else 0
    decreases k
  {
    if k > 0 {
      DiffStepCount(s, t, k, f);
      DiffUpToCount(s, t, k - 1, f);
      PositionOf(k - 1);
    }
  }

  /** The `k`-th field adds its signal to the count exactly when it is
      `f` and differs. */
  lemma DiffStepCount(s: State, t: State, k: nat, f: Field)
    requires 1 <= k <= |FrameOrder|
    ensures multiset(DiffUpTo(s, t, k))[Changed(f)] ==
      multiset(DiffUpTo(s, t, k - 1))[Changed(f)] + (if FrameOrder[k - 1] == f && !Same(s, t, f) then 1 else 0)
  {
    var g := FrameOrder[k - 1];
    var last := if Same(s, t, g) then [] else [Changed(g)];
    assert DiffUpTo(s, t, k) == DiffUpTo(s, t, k - 1) + last;
    assert multiset(DiffUpTo(s, t, k)) == multiset(DiffUpTo(s, t, k - 1)) + multiset(last);
  }

  /** A field is signalled in `Diff(s, t)` exactly when it differs. */
  lemma DiffNamesChangedFields(s: State, t: State, f: Field)
    ensures multiset(Diff(s, t))[Changed(f)] == if Same(s, t, f) then 0 else 1
    ensures Changed(f) in Diff(s, t) <==> !Same(s, t, f)
  {
    DiffUpToCount(s, t, |FrameOrder|, f);
  }

  /** The reference list only looks at the first `k` fields. */
  lemma {:induction false} DiffUpToAgree(s: State, t: State, t': State, k: nat)
    requires k <= |FrameOrder|
    requires forall i :: 0 <= i < k ==> Same(t, t', FrameOrder[i])
    ensures DiffUpTo(s, t, k) == DiffUpTo(s, t', k)
    decreases k
  {
    if k > 0 {
      DiffUpToAgree(s, t, t', k - 1);
    }
  }

  /** When `t` differs from `s` at most in field `f`, the reference list
      is `[Changed(f)]` or empty. */
  lemma {:induction false} DiffOfOneField(s: State, t: State, f: Field, k: nat)
    requires k <= |FrameOrder|
    requires forall g :: g != f ==> Same(s, t, g)
    ensures DiffUpTo(s, t, k) == if Position(f) < k && !Same(s, t, f) then [Changed(f)] else []
    decreases k
  {
    if k > 0 {
      DiffOfOneField(s, t, f, k - 1);
      PositionOf(k - 1);
    }
  }

  /** `s` with field `f` set by `u` agrees with `s` on every other field. */
  lemma PutTouchesOneField(s: State, u: Update)
    ensures forall g :: g != FieldOf(u) ==> Same(s, Put(s, u), g)
  {
  }

  /** A setter changes no field but its own, and the signals it emits are
      exactly the fields that changed: its own signal when the new value
      differs from the stored one, nothing otherwise. */
  lemma SetterEmitsExactlyTheChange(s: State, u: Update)
    ensures Set(s, u).0 == Put(s, u)
    ensures forall g :: g != FieldOf(u) ==> Same(s, Set(s, u).0, g)
    ensures Set(s, u).1 == Diff(s, Set(s, u).0)
    ensures Set(s, u).1 == if Differs(s, u) then [Changed(FieldOf(u))] else []
  {
    PutTouchesOneField(s, u);
    DiffOfOneField(s, Put(s, u), FieldOf(u), |FrameOrder|);
  }

  // ---------------------------------------------------------------------
  // The invariant of the handler's first k statements
  // ---------------------------------------------------------------------

  /** The payload bytes the first `k` setter arguments read lie below
      `ReadBound(k)`: one byte per field for the first five, bytes 6 and 7
      for the speed, none for the battery. */
  function ReadBound(k: nat): nat
  {
    if k <= 5 then k else 8
  }

  /** Field `f` of `t` holds the value its bytes of `data` decode to (for
      the battery: the drain of the battery of `s`). */
  predicate Decoded(t: State, s: State, data: seq<Byte>, f: Field)
  {
    match f
    case DriveModeField => 0 < |data| && DriveModeValue(t.driveMode) == data[0]
    case DbwField => 1 < |data| && StatusValue(t.dbw) == data[1]
    case BrakeField => 2 < |data| && StatusValue(t.brake) == data[2]
    case AutoparkField => 3 < |data| && StatusValue(t.autopark) == data[3] % 2
    case EmergencyField => 4 < |data| && StatusValue(t.emergency) == data[4]
    case SpeedField => 7 < |data| && t.speed == data[6] as int + 256 * data[7] as int
    case BatteryField => t.battery == Drain(s.battery)
  }

  /** What the first `k` statements leave behind, started from `s`: the
      signals so far are the fields changed so far; fields not reached yet
      are untouched; the run is still going exactly when every read so far
      succeeded, and otherwise has raised the first fault; each field
      reached holds its decoded value if all reads up to and including its
      own succeeded, and its old value otherwise. */
  predicate StepsInvariant(s: State, data: seq<Byte>, k: nat, e: Effect)
    requires k <= |FrameOrder|
  {
    && e.signals == DiffUpTo(s, e.state, k)
    && (forall i :: k <= i < |FrameOrder| ==> Same(s, e.state, FrameOrder[i]))
    && (e.outcome.Processed? <==> GoodBefore(data, ReadBound(k)))
    && !e.outcome.Ignored?
    && (e.outcome.Raised? ==> FirstFault(data, e.outcome.error))
    && (forall i :: 0 <= i < k ==>
          if GoodBefore(data, ReadBound(i + 1)) then Decoded(e.state, s, data, FrameOrder[i])
          else Same(s, e.state, FrameOrder[i]))
  }

  /** The argument of the `k`-th setter call, once the earlier reads have
      succeeded: it raises the first fault, or it yields an update of the
      `k`-th field whose value is the decoded one. */
  lemma ArgumentDecodes(s: State, t: State, data: seq<Byte>, k: nat)
    requires 1 <= k <= |FrameOrder|
    requires GoodBefore(data, ReadBound(k - 1))
    requires Same(s, t, BatteryField)
    ensures var a := Argument(data, FrameOrder[k - 1], t);
      && (a.Ok? <==> GoodBefore(data, ReadBound(k)))
      && (a.Err? ==> FirstFault(data, a.error))
      && (a.Ok? ==> FieldOf(a.value) == FrameOrder[k - 1]
                    && Decoded(Put(t, a.value), s, data, FrameOrder[k - 1]))
  {
    if k == 1 {
      assert FrameOrder[0] == DriveModeField;
    } else if k == 2 {
      assert FrameOrder[1] == DbwField;
    } else if k == 3 {
      assert FrameOrder[2] == BrakeField;
    } else if k == 4 {
      assert FrameOrder[3] == AutoparkField;
    } else if k == 5 {
      assert FrameOrder[4] == EmergencyField;
    } else if k == 6 {
      assert FrameOrder[5] == SpeedField;
    } else {
      assert FrameOrder[6] == BatteryField;
    }
  }

  /** A statement after one that raised changes nothing. */
  lemma SkipKeepsInvariant(s: State, data: seq<Byte>, k: nat, e: Effect)
    requires 1 <= k <= |FrameOrder|
    requires StepsInvariant(s, data, k - 1, e)
    requires !e.outcome.Processed?
    ensures StepsInvariant(s, data, k, e)
  {
    assert Same(s, e.state, FrameOrder[k - 1]);
    assert !GoodBefore(data, ReadBound(k));
  }

  /** A setter argument that raises ends the run with the first fault. */
  lemma RaiseKeepsInvariant(s: State, data: seq<Byte>, k: nat, e: Effect)
    requires 1 <= k <= |FrameOrder|
    requires StepsInvariant(s, data, k - 1, e)
    requires e.outcome.Processed?
    requires Argument(data, FrameOrder[k - 1], e.state).Err?
    ensures StepsInvariant(s, data, k, e.(outcome := Raised(Argument(data, FrameOrder[k - 1], e.state).error)))
  {
    assert Same(s, e.state, FrameOrder[k - 1]);
    assert Same(s, e.state, BatteryField) by {
      assert FrameOrder[6] == BatteryField;
    }
    ArgumentDecodes(s, e.state, data, k);
  }

  /** A setter for the field at position `k` of FrameOrder leaves the
      fields at every other position alone. */
  lemma SetOthersSame(t: State, u: Update, k: nat)
    requires k < |FrameOrder| && FieldOf(u) == FrameOrder[k]
    ensures forall i :: 0 <= i < |FrameOrder| && i != k ==> Same(t, Set(t, u).0, FrameOrder[i])
  {
    SetterEmitsExactlyTheChange(t, u);
    PositionOf(k);
  }

  /** Appending the signals of the setter for position `k` to the
      reference list of the first `k` fields gives the reference list of
      the first `k + 1`, provided field `k` has not changed before. */
  lemma SetExtendsDiff(s: State, t: State, u: Update, k: nat)
    requires k < |FrameOrder| && FieldOf(u) == FrameOrder[k]
    requires Same(s, t, FrameOrder[k])
    ensures DiffUpTo(s, t, k) + Set(t, u).1 == DiffUpTo(s, Set(t, u).0, k + 1)
  {
    var t' := Set(t, u).0;
    SetOthersSame(t, u, k);
    DiffUpToAgree(s, t, t', k);
    SetterEmitsExactlyTheChange(t, u);
    assert Same(s, t', FrameOrder[k]) <==> !Differs(t, u);
  }

  /** A setter call that runs sets its field to the decoded value and
      appends exactly that field's change to the signals. */
  lemma SetKeepsInvariant(s: State, data: seq<Byte>, k: nat, e: Effect)
    requires 1 <= k <= |FrameOrder|
    requires StepsInvariant(s, data, k - 1, e)
    requires e.outcome.Processed?
    requires Argument(data, FrameOrder[k - 1], e.state).Ok?
    ensures var u := Argument(data, FrameOrder[k - 1], e.state).value;
      StepsInvariant(s, data, k, Effect(Set(e.state, u).0, e.signals + Set(e.state, u).1, Processed))
  {
    var f := FrameOrder[k - 1];
    var u := Argument(data, f, e.state).value;
    assert Same(s, e.state, f);
    assert Same(s, e.state, BatteryField) by {
      assert FrameOrder[6] == BatteryField;
    }
    ArgumentDecodes(s, e.state, data, k);
    SetOthersSame(e.state, u, k - 1);
    SetExtendsDiff(s, e.state, u, k - 1);
  }

  /** Every prefix of the handler keeps StepsInvariant. */
  lemma {:induction false} StepsKeepInvariant(s: State, data: seq<Byte>, k: nat)
    requires k <= |FrameOrder|
    ensures StepsInvariant(s, data, k, Steps(s, data, k))
    decreases k
  {
    if k > 0 {
      StepsKeepInvariant(s, data, k - 1);
      var e := Steps(s, data, k - 1);
      if !e.outcome.Processed? {
        SkipKeepsInvariant(s, data, k, e);
      } else if Argument(data, FrameOrder[k - 1], e.state).Err? {
        RaiseKeepsInvariant(s, data, k, e);
      } else {
        SetKeepsInvariant(s, data, k, e);
      }
    }
  }

  /** StepsInvariant for the whole handler on the status frame's id. */
  lemma HandleInvariant(s: State, data: seq<Byte>)
    ensures StepsInvariant(s, data, |FrameOrder|, Handle(s, StatusFrameId, data))
  {
    StepsKeepInvariant(s, data, |FrameOrder|);
  }

  // ---------------------------------------------------------------------
  // Faults
  // ---------------------------------------------------------------------

  /** The first fault marks how far the reads get: the reads before
      position `m` all succeed exactly when `m` is at most the fault's
      position. */
  lemma FaultMarksTheBound(data: seq<Byte>, x: FrameError)
    requires FirstFault(data, x)
    ensures ErrorIndex(x) <= 7
    ensures forall m :: 0 <= m <= 8 ==> (GoodBefore(data, m) <==> m <= ErrorIndex(x))
  {
  }

  /** A payload has at most one first fault. */
  lemma FirstFaultUnique(data: seq<Byte>, x: FrameError, y: FrameError)
    requires FirstFault(data, x) && FirstFault(data, y)
    ensures x == y
  {
    FaultMarksTheBound(data, x);
    FaultMarksTheBound(data, y);
    assert ErrorIndex(x) == ErrorIndex(y) by {
      assert GoodBefore(data, ErrorIndex(x)) && !GoodBefore(data, ErrorIndex(x) + 1);
    }
  }

  // ---------------------------------------------------------------------
  // One frame
  // ---------------------------------------------------------------------

  /** A frame with any other arbitration id changes nothing and emits nothing. */
  lemma ForeignFrameIgnored(s: State, id: int, data: seq<Byte>)
    requires id != StatusFrameId
    ensures Handle(s, id, data) == Effect(s, [], Ignored)
  {
  }

  /** The handler raises exactly when the whole-frame decoder fails, and
      with the same error; it runs to its end exactly when the decoder
      succeeds. */
  lemma OutcomeIsDecodeVerdict(s: State, id: int, data: seq<Byte>)
    ensures Handle(s, id, data).outcome ==
      if id != StatusFrameId then Ignored
      else match DecodeFrame(data)
        case Ok(_) => Processed
        case Err(x) => Raised(x)
  {
    if id == StatusFrameId {
      HandleInvariant(s, data);
      var e := Handle(s, id, data);
      if e.outcome.Raised? {
        FirstFaultUnique(data, e.outcome.error, DecodeFrame(data).error);
      }
    }
  }

  /** Each field is set at most once per frame, in a fixed order, so the
      signals of one frame are exactly the fields whose value changed, in
      the order driveMode, dbw, brake, autopark, emergency, speed, battery,
      whether the frame ran to its end or raised part-way. */
  lemma SignalsAreTheChangedFields(s: State, id: int, data: seq<Byte>)
    ensures Handle(s, id, data).signals == Diff(s, Handle(s, id, data).state)
  {
    if id == StatusFrameId {
      HandleInvariant(s, data);
    } else {
      DiffOfOneField(s, s, BatteryField, |FrameOrder|);
    }
  }

  /** Field-by-field reading of StepsInvariant for the whole handler. */
  lemma HandleFields(s: State, data: seq<Byte>)
    ensures var e := Handle(s, StatusFrameId, data);
      && (if GoodBefore(data, 1) then Decoded(e.state, s, data, DriveModeField) else e.state.driveMode == s.driveMode)
      && (if GoodBefore(data, 2) then Decoded(e.state, s, data, DbwField) else e.state.dbw == s.dbw)
      && (if GoodBefore(data, 3) then Decoded(e.state, s, data, BrakeField) else e.state.brake == s.brake)
      && (if GoodBefore(data, 4) then Decoded(e.state, s, data, AutoparkField) else e.state.autopark == s.autopark)
      && (if GoodBefore(data, 5) then Decoded(e.state, s, data, EmergencyField) else e.state.emergency == s.emergency)
      && (if GoodBefore(data, 8) then Decoded(e.state, s, data, SpeedField) else e.state.speed == s.speed)
      && (if GoodBefore(data, 8) then Decoded(e.state, s, data, BatteryField) else e.state.battery == s.battery)
  {
    HandleInvariant(s, data);
    assert FrameOrder[0] == DriveModeField && FrameOrder[1] == DbwField && FrameOrder[2] == BrakeField;
    assert FrameOrder[3] == AutoparkField && FrameOrder[4] == EmergencyField;
    assert FrameOrder[5] == SpeedField && FrameOrder[6] == BatteryField;
  }

  /** A payload of at least eight bytes whose enumeration bytes are in
      range is decoded field by field and the battery drains by one. */
  lemma ValidFrameSetsEveryField(s: State, data: seq<Byte>)
    requires GoodBefore(data, 8)
    ensures var e := Handle(s, StatusFrameId, data);
      && e.outcome == Processed
      && |data| >= 8
      && DriveModeValue(e.state.driveMode) == data[0]
      && StatusValue(e.state.dbw) == data[1]
      && StatusValue(e.state.brake) == data[2]
      && StatusValue(e.state.autopark) == data[3] % 2
      && StatusValue(e.state.emergency) == data[4]
      && e.state.speed == data[6] as int + 256 * data[7] as int
      && e.state.battery == Drain(s.battery)
  {
    HandleInvariant(s, data);
    HandleFields(s, data);
  }

  /** The stored state after committing a whole decoded candidate. */
  function Commit(s: State, c: Candidate): State
  {
    State(c.speed, c.driveMode, c.dbw, c.brake, c.autopark, c.emergency, Drain(s.battery))
  }

  /** On a frame that decodes, setting the fields one by one is the same as
      decoding the whole candidate first and then committing it with one
      signal per changed field. */
  lemma SequentialIsDecodeThenDiff(s: State, data: seq<Byte>)
    requires DecodeFrame(data).Ok?
    ensures var t := Commit(s, DecodeFrame(data).value);
      Handle(s, StatusFrameId, data) == Effect(t, Diff(s, t), Processed)
  {
    ValidFrameSetsEveryField(s, data);
    SignalsAreTheChangedFields(s, StatusFrameId, data);
  }

  /** The handler is not atomic: when a read raises at byte `k`, the fields
      read before `k` keep their new values, and the field at `k`, every
      later field, the speed and the battery keep their old ones. */
  lemma RaisedFrameKeepsPrefix(s: State, data: seq<Byte>)
    requires Handle(s, StatusFrameId, data).outcome.Raised?
    ensures var e := Handle(s, StatusFrameId, data);
      var k := ErrorIndex(e.outcome.error);
      && FirstFault(data, e.outcome.error)
      && (if k > 0 then DriveModeValue(e.state.driveMode) == data[0] else e.state.driveMode == s.driveMode)
      && (if k > 1 then StatusValue(e.state.dbw) == data[1] else e.state.dbw == s.dbw)
      && (if k > 2 then StatusValue(e.state.brake) == data[2] else e.state.brake == s.brake)
      && (if k > 3 then StatusValue(e.state.autopark) == data[3] % 2 else e.state.autopark == s.autopark)
      && (if k > 4 then StatusValue(e.state.emergency) == data[4] else e.state.emergency == s.emergency)
      && e.state.speed == s.speed
      && e.state.battery == s.battery
  {
    HandleInvariant(s, data);
    HandleFields(s, data);
    FaultMarksTheBound(data, Handle(s, StatusFrameId, data).outcome.error);
  }

  /** A payload that holds bytes 0..4 but ends before byte 6 or byte 7
      applies those five fields and raises IndexError at the speed read,
      leaving speed and battery as they were. */
  lemma ShortPayloadSetsFiveFields(s: State, data: seq<Byte>)
    requires 5 <= |data| < 8 && GoodBefore(data, 5)
    ensures var e := Handle(s, StatusFrameId, data);
      && e.outcome == Raised(IndexError(if |data| == 7 then 7 else 6))
      && DriveModeValue(e.state.driveMode) == data[0]
      && StatusValue(e.state.dbw) == data[1]
      && StatusValue(e.state.brake) == data[2]
      && StatusValue(e.state.autopark) == data[3] % 2
      && StatusValue(e.state.emergency) == data[4]
      && e.state.speed == s.speed
      && e.state.battery == s.battery
  {
    HandleInvariant(s, data);
    HandleFields(s, data);
    var x := IndexError(if |data| == 7 then 7 else 6);
    assert FirstFault(data, x);
    FirstFaultUnique(data, x, Handle(s, StatusFrameId, data).outcome.error);
  }

  /** Two payloads agree on everything the handler reads: the same bytes
      present at positions 0..4, 6 and 7, equal there, except that at
      byte 3 only bit 0 has to agree. Byte 5, bits 1..7 of byte 3 and any
      byte past 7 are left free. */
  predicate SameReads(d1: seq<Byte>, d2: seq<Byte>)
  {
    forall p: nat :: p < 8 && IsRead(p) ==>
      && (p < |d1| <==> p < |d2|)
      && (p < |d1| && p != 3 ==> d1[p] == d2[p])
      && (p < |d1| && p == 3 ==> LowBit(d1[3]) == LowBit(d2[3]))
  }

  /** Every setter argument evaluates alike on payloads with the same reads. */
  lemma ArgumentSameReads(d1: seq<Byte>, d2: seq<Byte>, f: Field, t: State)
    requires SameReads(d1, d2)
    ensures Argument(d1, f, t) == Argument(d2, f, t)
  {
    assert IsRead(0) && IsRead(1) && IsRead(2) && IsRead(3) && IsRead(4) && IsRead(6) && IsRead(7);
  }

  /** The first `k` statements leave the same effect on payloads with the
      same reads. */
  lemma {:induction false} StepsSameReads(s: State, d1: seq<Byte>, d2: seq<Byte>, k: nat)
    requires SameReads(d1, d2)
    requires k <= |FrameOrder|
    ensures Steps(s, d1, k) == Steps(s, d2, k)
    decreases k
  {
    if k > 0 {
      StepsSameReads(s, d1, d2, k - 1);
      ArgumentSameReads(d1, d2, FrameOrder[k - 1], Steps(s, d1, k - 1).state);
    }
  }

  /** The handler never looks at byte 5, at bits 1..7 of byte 3 or at any
      byte past 7: payloads that agree on the rest give the same state,
      the same signals and the same outcome. */
  lemma UnreadBitsAreIgnored(s: State, id: int, d1: seq<Byte>, d2: seq<Byte>)
    requires SameReads(d1, d2)
    ensures Handle(s, id, d1) == Handle(s, id, d2)
  {
    StepsSameReads(s, d1, d2, |FrameOrder|);
  }

  /** Byte 3 is masked before the lookup, so it never raises ValueError. */
  lemma ByteThreeNeverRaises(s: State, id: int, data: seq<Byte>)
    ensures var o := Handle(s, id, data).outcome;
      o.Raised? && o.error.ValueError? ==> o.error.index != 3
  {
    if id == StatusFrameId {
      HandleInvariant(s, data);
    }
  }

  /** The battery's change signal of a frame that runs to its end fires
      exactly when the stored battery is not 0; for a battery in 0..100
      that is: exactly while it is above 0. */
  lemma BatterySignalWhileAboveZero(s: State, data: seq<Byte>)
    requires Handle(s, StatusFrameId, data).outcome == Processed
    ensures Changed(BatteryField) in Handle(s, StatusFrameId, data).signals <==> s.battery != 0
  {
    var e := Handle(s, StatusFrameId, data);
    HandleInvariant(s, data);
    HandleFields(s, data);
    SignalsAreTheChangedFields(s, StatusFrameId, data);
    DiffNamesChangedFields(s, e.state, BatteryField);
  }

  // ---------------------------------------------------------------------
  // Sequences of frames
  // ---------------------------------------------------------------------

  /** A frame that the handler processes to its end. */
  predicate Accepted(f: Frame)
  {
    f.id == StatusFrameId && DecodeFrame(f.data).Ok?
  }

  function AcceptedCount(frames: seq<Frame>): nat
  {
    if frames == [] then 0
    else (if Accepted(frames[0]) then 1 else 0) + AcceptedCount(frames[1..])
  }

  /** One frame drains the battery exactly when it is accepted, and emits
      batteryChanged exactly when that drain changes the value. */
  lemma BatteryOfOneFrame(s: State, f: Frame)
    ensures var e := Handle(s, f.id, f.data);
      && e.state.battery == (if Accepted(f) then Drain(s.battery) else s.battery)
      && multiset(e.signals)[Changed(BatteryField)] == if e.state.battery == s.battery then 0 else 1
  {
    var e := Handle(s, f.id, f.data);
    if f.id == StatusFrameId {
      HandleFields(s, f.data);
    }
    SignalsAreTheChangedFields(s, f.id, f.data);
    DiffNamesChangedFields(s, e.state, BatteryField);
  }

  /** The battery loses one point per accepted frame, never below 0; any
      other frame leaves it alone. From battery `B` after `N` accepted
      frames it is `max(0, B - N)` (or `B` itself when `N` is 0). */
  lemma {:induction false} BatteryAfterReplay(s: State, frames: seq<Frame>)
    ensures var n := AcceptedCount(frames);
      Replay(s, frames).0.battery ==
        if n == 0 then s.battery else if s.battery - n > 0 then s.battery - n else 0
    decreases |frames|
  {
    if frames != [] {
      var e := Handle(s, frames[0].id, frames[0].data);
      BatteryOfOneFrame(s, frames[0]);
      BatteryAfterReplay(e.state, frames[1..]);
    }
  }

  /** Starting anywhere in 0..100 the battery stays in 0..100. */
  lemma BatteryStaysInRange(s: State, frames: seq<Frame>)
    requires 0 <= s.battery <= 100
    ensures 0 <= Replay(s, frames).0.battery <= 100
  {
    BatteryAfterReplay(s, frames);
  }

  /** From battery `B >= 0`, the number of batteryChanged signals emitted
      over a sequence of frames is `min(B, N)` for `N` accepted frames:
      one per accepted frame until the battery reaches 0, none after. */
  lemma {:induction false} BatterySignalCount(s: State, frames: seq<Frame>)
    requires s.battery >= 0
    ensures var n := AcceptedCount(frames);
      multiset(Replay(s, frames).1)[Changed(BatteryField)] == if s.battery < n then s.battery else n
    decreases |frames|
  {
    if frames != [] {
      var e := Handle(s, frames[0].id, frames[0].data);
      BatteryOfOneFrame(s, frames[0]);
      BatterySignalCount(e.state, frames[1..]);
      var rest := Replay(e.state, frames[1..]).1;
      assert Replay(s, frames).1 == e.signals + rest;
      assert multiset(e.signals + rest) == multiset(e.signals) + multiset(rest);
    }
  }

  // ---------------------------------------------------------------------
  // Concrete frames
  // ---------------------------------------------------------------------

  /** The payload `[1, 1, 0, 1, 0, 0, 0x39, 0x30]` from the initial state:
      Forward, drive-by-wire and automatic parking brake engaged, raw
      speed 0x3039 = 12345 (123.45 km/h), battery 99. */
  lemma ExampleStatusFrame()
    ensures Handle(Initial, StatusFrameId, [1, 1, 0, 1, 0, 0, 0x39, 0x30]) ==
      Effect(State(12345, Forward, Engaged, Disengaged, Engaged, Disengaged, 99),
             [Changed(DriveModeField), Changed(DbwField), Changed(AutoparkField),
              Changed(SpeedField), Changed(BatteryField)],
             Processed)
  {
    var data: seq<Byte> := [1, 1, 0, 1, 0, 0, 0x39, 0x30];
    var t := State(12345, Forward, Engaged, Disengaged, Engaged, Disengaged, 99);
    ExampleStatusFrameDecodes();
    assert Commit(Initial, DecodeFrame(data).value) == t;
    SequentialIsDecodeThenDiff(Initial, data);
    ExampleStatusFrameDiff();
  }

  /** The example payload decodes field by field. */
  lemma ExampleStatusFrameDecodes()
    ensures DecodeFrame([1, 1, 0, 1, 0, 0, 0x39, 0x30]) ==
      Ok(Candidate(Forward, Engaged, Disengaged, Engaged, Disengaged, 12345))
  {
  }

  /** Against the defaults, the example's state differs in driveMode,
      dbw, autopark, speed and battery. */
  lemma ExampleStatusFrameDiff()
    ensures Diff(Initial, State(12345, Forward, Engaged, Disengaged, Engaged, Disengaged, 99)) ==
      [Changed(DriveModeField), Changed(DbwField), Changed(AutoparkField),
       Changed(SpeedField), Changed(BatteryField)]
  {
    var t := State(12345, Forward, Engaged, Disengaged, Engaged, Disengaged, 99);
    assert DiffUpTo(Initial, t, 2) == [Changed(DriveModeField), Changed(DbwField)];
    assert DiffUpTo(Initial, t, 4) == [Changed(DriveModeField), Changed(DbwField), Changed(AutoparkField)];
    assert DiffUpTo(Initial, t, 6) ==
      [Changed(DriveModeField), Changed(DbwField), Changed(AutoparkField), Changed(SpeedField)];
  }

  /** A drive-mode byte of 5 raises ValueError before any setter runs. */
  lemma ExampleBadDriveMode(s: State)
    ensures Handle(s, StatusFrameId, [5, 0, 0, 0, 0, 0, 0, 0]) == Effect(s, [], Raised(ValueError(0, 5)))
  {
    var data: seq<Byte> := [5, 0, 0, 0, 0, 0, 0, 0];
    OutcomeIsDecodeVerdict(s, StatusFrameId, data);
    RaisedFrameKeepsPrefix(s, data);
    SignalsAreTheChangedFields(s, StatusFrameId, data);
    DiffOfOneField(s, s, BatteryField, |FrameOrder|);
  }

  /** A bad drive-by-wire byte after a good drive-mode byte: the drive mode
      is already committed and signalled when the frame raises. */
  lemma ExamplePartialCommit()
    ensures Handle(Initial, StatusFrameId, [1, 7, 0, 0, 0, 0, 0, 0]) ==
      Effect(Initial.(driveMode := Forward), [Changed(DriveModeField)], Raised(ValueError(1, 7)))
  {
  }

  /** Three accepted frames from a full battery: battery 97, three
      batteryChanged signals. */
  lemma ExampleThreeFrames(s: State, frames: seq<Frame>)
    requires s.battery == 100
    requires |frames| == 3 && Accepted(frames[0]) && Accepted(frames[1]) && Accepted(frames[2])
    ensures Replay(s, frames).0.battery == 97
    ensures multiset(Replay(s, frames).1)[Changed(BatteryField)] == 3
  {
    assert AcceptedCount(frames[1..][1..][1..]) == 0 by {
      assert frames[1..][1..][1..] == [];
    }
    assert AcceptedCount(frames[1..][1..]) == 1;
    assert AcceptedCount(frames[1..]) == 2;
    BatteryAfterReplay(s, frames);
    BatterySignalCount(s, frames);
  }
}
