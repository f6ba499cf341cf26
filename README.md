# Dashboard_EV status-frame handler in Dafny

This project models the backend of an electric-vehicle dashboard. The
backend object holds seven values:

- speed;
- drive mode;
- drive-by-wire switch;
- parking brake;
- automatic parking brake;
- emergency status;
- battery percentage.

Each value has a setter. A setter stores the new value and emits that
value's change signal only when the value differs from the stored one.
The backend listens on a CAN bus. For the vehicle status frame
(arbitration id `0x12910109`) it reads the payload in this order:

1. drive mode from byte 0 (values 0..4);
2. drive-by-wire and parking-brake states from bytes 1 and 2 (values 0..1);
3. the automatic parking brake from bit 0 of byte 3;
4. the emergency state from byte 4 (values 0..1);
5. a little-endian 16-bit speed from bytes 6 and 7, in 0.01 km/h.

It passes each value to its setter as soon as it is read. Last, it drains
the simulated battery by one point, never below 0.

The handler has no length check and no validation step. An out-of-range
enumeration byte raises `ValueError`, and a payload too short for the next
read raises `IndexError`, at the statement that reads that byte. The
setters that ran before the exception keep their effect, so the order
above decides what a short or bad frame leaves behind. The model follows
this code behaviour. It does not follow an all-or-nothing reading in which
a bad frame is rejected as a unit with a "malformed frame" error. On a
frame that decodes completely the two readings agree
(`Properties.SequentialIsDecodeThenDiff`). The states they leave can
differ only on a frame that raises after an earlier setter changed a
field; `Properties.ExamplePartialCommit` shows such a frame.

Files:

- `enums.dfy`, module `Enums`: the two enumerations, the value lookups
  that fail on a value with no member, and the member names.
- `layout.dfy`, module `Layout`:
  - the status frame's byte layout;
  - the per-field argument expressions, with the exception each can raise;
  - `DecodeFrame`, a whole-frame decoder used as a reference.
- `store.dfy`, module `Store`:
  - the seven stored values as a `State`;
  - a setter as a function `Set`;
  - the handler as the value-level function `Handle`, built from seven
    `Call`s in source order, with signals as a list of `Changed(field)`;
  - `Replay`, the handler applied to a sequence of frames.
- `properties.dfy`, module `Properties`: the lemmas about `Handle` and
  `Replay`. The proofs rest on one invariant of the handler's first `k`
  statements (`StepsInvariant`).
- `dashboard.dfy`, module `Backend`:
  - the `Dashboard` class, whose fields the setter methods update in place;
  - `signals`, a sequence of every signal emitted so far;
  - `HandleFrame`, the bus callback, proved to leave exactly the state,
    signals and outcome of `Store.Handle`.

Speed is stored as the raw count of 0.01 km/h. The source stores
`raw * 0.01` as a float. Distinct raw counts 0..65535 give distinct
floats, and raw 0 gives the initial `0.0`, so comparing raw counts makes
the same change decisions.

## Model

| member | source | states |
|---|---|---|
| Enums.DriveModeValue | main.py:10-15 | every drive-mode member carries a value in 0..4 |
| Enums.DriveModeOf | main.py:10-15 | `DriveMode(v)` finds a member exactly when 0 <= v <= 4, and that member's value is v; otherwise the lookup fails (ValueError) |
| Enums.StatusValue | main.py:18-20 | every status member carries a value in 0..1 |
| Enums.StatusOf | main.py:18-20 | `Status(v)` finds a member exactly when v is 0 or 1, and that member's value is v |
| Enums.DriveModeRoundTrip | main.py:10-15 | looking a drive mode up by its own value gives the member back |
| Enums.StatusRoundTrip | main.py:18-20 | looking a status up by its own value gives the member back |
| Enums.DriveModeName | main.py:67 | no contract of its own: the member's `.name`; `Enums.NamesDistinguishMembers` states that distinct members get distinct names |
| Enums.StatusName | main.py:74-95 | no contract of its own: the member's `.name`; `Enums.NamesDistinguishMembers` states that distinct members get distinct names |
| Enums.NamesDistinguishMembers | main.py:67-95 | the `.name` strings the getters return are equal exactly when the members are equal |
| Layout.LowBit | main.py:139 | `data[3] & 0x01` is 0 or 1 |
| Layout.LowBitIsMask | main.py:139 | the byte's parity equals its bitwise and with 0x01 |
| Layout.RawSpeed | main.py:143 | the bitwise or of byte 6 with byte 7 shifted left by 8 is below 65536, has byte 6 as its low byte and byte 7 as its high byte |
| Layout.DecodeFrame | main.py:136-143 | whole-frame decoding succeeds exactly when all seven reads succeed; on success each field equals its byte (bit 0 for byte 3, `lo + 256*hi` for speed); on failure the error is the first read that fails, in source order |
| Layout.ReadDriveMode | main.py:136 | `DriveMode(data[0])` succeeds exactly when byte 0 is present and at most 4, with that byte as the member's value; it raises IndexError(0) on an empty payload and ValueError(0, byte) on a byte above 4 |
| Layout.ReadStatus | main.py:137-140 | `Status(data[i])` succeeds exactly when byte i is present and at most 1, with that byte as the member's value; it raises IndexError(i) on a payload too short and ValueError(i, byte) on a byte above 1 |
| Layout.ReadAutopark | main.py:139 | `Status(data[3] & 0x01)` succeeds exactly when byte 3 is present, with the byte's low bit as the value; its only error is IndexError(3) |
| Layout.ReadSpeed | main.py:143 | the speed read succeeds exactly when byte 7 is present, giving `byte6 + 256*byte7`; it raises IndexError(6) on a payload of at most 6 bytes and IndexError(7) on one of 7 bytes |
| Store.Set | main.py:61-106 | a setter leaves its field holding the new value and emits its own signal exactly when the state changed, nothing otherwise |
| Store.Drain | main.py:147 | `max(0, battery - 1)` is never negative, is below the old value exactly when the old value is positive, and is then one less; on a battery of 0 or below it is 0 |
| Store.Argument | main.py:136-147 | no contract of its own: the argument one statement passes to its setter, or the exception evaluating it raises; `Properties.ArgumentDecodes` states that it succeeds exactly when the reads up to its own do, and that its error is then the first fault |
| Store.Call | main.py:136-147 | no contract of its own: one statement of the handler, skipped once an earlier one raised; `Properties.StepsKeepInvariant` states the invariant each call keeps |
| Store.Steps | main.py:136-147 | no contract of its own: the first k statements of the handler; `Properties.StepsKeepInvariant` states the invariant they keep |
| Store.Handle | main.py:129-147 | no contract of its own: the value-level `__call__`; `Properties.OutcomeIsDecodeVerdict`, `Properties.SignalsAreTheChangedFields`, `Properties.HandleFields` and `Properties.RaisedFrameKeepsPrefix` state its properties, and `Backend.Dashboard.HandleFrame` carries it out on the object |
| Store.Replay | main.py:40 | no contract of its own: the handler called once per delivered frame, in order; `Properties.BatteryAfterReplay`, `Properties.BatteryStaysInRange` and `Properties.BatterySignalCount` state its properties |
| Properties.SetterEmitsExactlyTheChange | main.py:61-106 | a setter changes no other field, and its signals are exactly the list of changed fields: its own signal iff the value differs |
| Properties.DiffNamesChangedFields | main.py:136-147 | the reference signal list names a field once if it changed and not at all otherwise |
| Properties.StepsKeepInvariant | main.py:136-147 | after the first k statements: signals are the changed fields in order; untouched later fields; still running iff every read so far succeeded, else raised at the first fault; each reached field decoded or unchanged |
| Properties.HandleInvariant | main.py:129-147 | the invariant holds for the complete handler on the status frame id |
| Properties.FaultMarksTheBound | main.py:136-143 | the first fault lies at byte 0..7, and the reads before position m all succeed exactly when m is at most the fault's byte |
| Properties.FirstFaultUnique | main.py:136-143 | a payload has only one first fault |
| Properties.ForeignFrameIgnored | main.py:130-131 | a frame with any other id changes no field and emits no signal |
| Properties.OutcomeIsDecodeVerdict | main.py:129-147 | the handler ignores foreign ids, and otherwise raises exactly the error that whole-frame decoding reports, or runs to its end exactly when decoding succeeds |
| Properties.SignalsAreTheChangedFields | main.py:136-147 | a frame's signals are exactly the fields whose value changed, in the order driveMode, dbw, brake, autopark, emergency, speed, battery, whether or not the frame raised |
| Properties.HandleFields | main.py:136-147 | each field is decoded from its byte when every read up to its own succeeds, and keeps its old value otherwise |
| Properties.ValidFrameSetsEveryField | main.py:136-147 | for a payload of at least 8 bytes with in-range enumeration bytes: every field equals its byte, speed is `byte6 + 256*byte7`, battery is `max(0, old - 1)` |
| Properties.SequentialIsDecodeThenDiff | main.py:136-147 | on a frame that decodes, setting fields one by one equals decoding the whole candidate and committing it with one signal per changed field |
| Properties.RaisedFrameKeepsPrefix | main.py:136-147 | when a read raises at byte k, fields read before k hold their new values; field k, later fields, speed and battery are unchanged |
| Properties.ShortPayloadSetsFiveFields | main.py:133-143 | a valid 5-, 6- or 7-byte payload applies the five byte-0..4 fields, raises IndexError at byte 6 or 7, and leaves speed and battery alone |
| Properties.UnreadBitsAreIgnored | main.py:139-143 | payloads that differ only in byte 5, bits 1..7 of byte 3 or bytes past 7 give the same state, signals and outcome |
| Properties.ByteThreeNeverRaises | main.py:139 | byte 3 never causes a ValueError |
| Properties.BatterySignalWhileAboveZero | main.py:147 | a frame that runs to its end emits batteryChanged exactly when the stored battery is not 0 |
| Properties.BatteryOfOneFrame | main.py:147 | one frame drains the battery exactly when it runs to its end, and emits batteryChanged exactly when the drain changes the value |
| Properties.BatteryAfterReplay | main.py:147 | after N frames that run to their end, starting from B, the battery is `max(0, B - N)` (B itself when N is 0) |
| Properties.BatteryStaysInRange | main.py:147 | starting in 0..100, the battery stays in 0..100 over any sequence of frames |
| Properties.BatterySignalCount | main.py:147 | starting from B >= 0, N frames that run to their end emit batteryChanged `min(B, N)` times |
| Properties.ExampleStatusFrame | main.py:136-147 | `[1,1,0,1,0,0,0x39,0x30]` from the defaults gives Forward, dbw and autopark engaged, raw speed 12345, battery 99, and signals driveMode, dbw, autopark, speed, battery |
| Properties.ExampleBadDriveMode | main.py:136 | drive-mode byte 5 raises ValueError before any setter runs |
| Properties.ExamplePartialCommit | main.py:136-137 | a bad byte 1 after a good byte 0 raises with the drive mode already set and signalled |
| Properties.ExampleThreeFrames | main.py:147 | three frames that run to their end take a full battery to 97 with three batteryChanged signals |
| Backend.HandleIsChain | main.py:136-147 | the seven statements run one after the other on an object that has already emitted some signals append exactly the handler's signals |
| Backend.Dashboard.constructor | main.py:29-35 | the object starts at the defaults (speed 0, Neutral, all switches Disengaged, battery 100) with no signal emitted |
| Backend.Dashboard.DriveModeText | main.py:67 | no contract of its own: the getter returns `DriveModeName` of the stored drive mode; see `Enums.NamesDistinguishMembers` |
| Backend.Dashboard.DbwText | main.py:74 | no contract of its own: the getter returns `StatusName` of the stored dbw state; see `Enums.NamesDistinguishMembers` |
| Backend.Dashboard.BrakeText | main.py:81 | no contract of its own: the getter returns `StatusName` of the stored brake state; see `Enums.NamesDistinguishMembers` |
| Backend.Dashboard.AutoparkText | main.py:88 | no contract of its own: the getter returns `StatusName` of the stored autopark state; see `Enums.NamesDistinguishMembers` |
| Backend.Dashboard.EmergencyText | main.py:95 | no contract of its own: the getter returns `StatusName` of the stored emergency state; see `Enums.NamesDistinguishMembers` |
| Backend.Dashboard.SetSpeed | main.py:61-64 | only speed changes, to the new value; speedChanged is appended iff it differed; this is `Store.Set` on the object |
| Backend.Dashboard.SetDriveMode | main.py:68-71 | only the drive mode changes; driveModeChanged is appended iff it differed |
| Backend.Dashboard.SetDbw | main.py:75-78 | only dbw changes; dbwChanged is appended iff it differed |
| Backend.Dashboard.SetBrake | main.py:82-85 | only brake changes; brakeChanged is appended iff it differed |
| Backend.Dashboard.SetAutopark | main.py:89-92 | only autopark changes; autoparkChanged is appended iff it differed |
| Backend.Dashboard.SetEmergency | main.py:96-99 | only emergency changes; emergencyChanged is appended iff it differed |
| Backend.Dashboard.SetBattery | main.py:103-106 | only battery changes; batteryChanged is appended iff it differed |
| Backend.Dashboard.HandleFrame | main.py:129-147 | the bus callback leaves the fields, appends the signals and ends (ignored, completed or raised with this error) exactly as `Store.Handle` says, so every property above holds of the object |

## Left out

- Qt property and signal machinery, the QML engine and application startup (main.py:4-6, 49-57, 65, 72, 79, 86, 93, 100, 107, 151-161). Signals are an appended list of `Changed(field)`; connected slots are not modelled.
- The socketcan `Bus` and `Notifier` (main.py:40-41). The model does not cover the receive thread. It also does not cover what the Notifier does with an exception from the handler. `Store.Replay` assumes every frame reaches the handler, including frames that come after one that raised.
- The clock: the timer, `update_clock` and the date and time properties with their setters (main.py:36-37, 44-46, 109-126). They read the wall clock and carry no decoding logic.
- Floating point speed (main.py:29, 60, 144): speed is the raw count of 0.01 km/h. The float scaling is injective on 0..65535 and maps 0 to the initial 0.0.
- The speed and battery getters (main.py:60, 102) return the stored field and are read directly as `Dashboard.speed` and `Dashboard.battery`. The name getters are modelled; see their rows.
- Setter arguments of the wrong type from the user interface are not modelled. Each setter method takes a value of its field's type.
