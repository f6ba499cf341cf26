/**
 The byte layout of the vehicle status frame (extended CAN identifier
 0x12910109), bytes 0..7 of the payload; the handler reads them without
 checking the payload's length:

   byte 0        drive mode, values 0..4
   byte 1        drive-by-wire switch status, values 0..1
   byte 2        parking brake status, values 0..1
   byte 3 bit 0  automatic parking brake status (bits 1..7 are not read)
   byte 4        emergency status, values 0..1
   byte 5        not read
   bytes 6, 7    speed, little-endian unsigned 16 bits, in 0.01 km/h

 A read past the end of the payload raises IndexError and an enumeration
 lookup of a value with no member raises ValueError; both are modelled as
 a `FrameError`. The readers below are the argument expressions of the
 handler's setter calls, one per field.
 */
module Layout {
  import opened Enums

  /** One payload byte; the bus hands the handler a bytearray. */
  type Byte = b: int | 0 <= b < 256

  /** The arbitration id of the vehicle status frame. */
  const StatusFrameId: int := 0x12910109

  /** The two exceptions the handler can raise while decoding. */
  datatype FrameError =
    | IndexError(index: nat)                // `data[index]` past the payload's end
    | ValueError(index: nat, value: Byte)   // no enumeration member has this value

  datatype Result<+T> = Ok(value: T) | Err(error: FrameError) {
    predicate IsFailure() { Err? }
    function PropagateFailure<U>(): Result<U> requires Err? { Err(error) }
    function Extract(): T requires Ok? { value }
  }

  /** The byte position an error was raised at. */
  function ErrorIndex(x: FrameError): nat
  {
    match x
    case IndexError(k) => k
    case ValueError(k, _) => k
  }

  /** `b & 0x01`, the low bit, written as the parity it computes. */
  function LowBit(b: Byte): (r: nat)
    ensures r <= 1
  {
    b % 2
  }

  /** The parity is the bitwise mask of the byte with 0x01. */
  lemma LowBitIsMask(b: Byte)
    ensures LowBit(b) == ((b as bv8) & 1) as nat
  {
  }

  /** `lo | (hi << 8)`, a little-endian 16-bit value. Since `lo < 256`
      the shifted high byte and the low byte share no bit, so the
      bitwise or is the sum written here. */
  function RawSpeed(lo: Byte, hi: Byte): (r: nat)
    ensures r < 65536
    ensures r % 256 == lo && r / 256 == hi
  {
    lo + hi * 256
  }

  /** `DriveMode(data[0])`. */
  function ReadDriveMode(data: seq<Byte>): (r: Result<DriveMode>)
    ensures r.Ok? <==> 0 < |data| && data[0] <= 4
    ensures r.Ok? ==> DriveModeValue(r.value) == data[0]
    ensures |data| == 0 ==> r == Err(IndexError(0))
    ensures 0 < |data| && data[0] > 4 ==> r == Err(ValueError(0, data[0]))
  {
    if |data| <= 0 then Err(IndexError(0))
    else match DriveModeOf(data[0])
      case Some(m) => Ok(m)
      case None => Err(ValueError(0, data[0]))
  }

  /** `Status(data[i])`, used for bytes 1, 2 and 4. */
  function ReadStatus(data: seq<Byte>, i: nat): (r: Result<Status>)
    ensures r.Ok? <==> i < |data| && data[i] <= 1
    ensures r.Ok? ==> StatusValue(r.value) == data[i]
    ensures |data| <= i ==> r == Err(IndexError(i))
    ensures i < |data| && data[i] > 1 ==> r == Err(ValueError(i, data[i]))
  {
    if |data| <= i then Err(IndexError(i))
    else match StatusOf(data[i])
      case Some(s) => Ok(s)
      case None => Err(ValueError(i, data[i]))
  }

  /** `Status(data[3] & 0x01)`: the masked value always has a member. */
  function ReadAutopark(data: seq<Byte>): (r: Result<Status>)
    ensures r.Ok? <==> 3 < |data|
    ensures r.Ok? ==> StatusValue(r.value) == data[3] % 2
    ensures r.Err? ==> r.error == IndexError(3)
  {
    if |data| <= 3 then Err(IndexError(3))
    else Ok(StatusOf(LowBit(data[3])).value)
  }

  /** `data[6] | (data[7] << 8)`: byte 6 is indexed first. */
  function ReadSpeed(data: seq<Byte>): (r: Result<nat>)
    ensures r.Ok? <==> 7 < |data|
    ensures r.Ok? ==> r.value == data[6] as int + 256 * data[7] as int
    ensures |data| <= 6 ==> r == Err(IndexError(6))
    ensures |data| == 7 ==> r == Err(IndexError(7))
  {
    if |data| <= 6 then Err(IndexError(6))
    else if |data| <= 7 then Err(IndexError(7))
    else Ok(RawSpeed(data[6], data[7]))
  }

  /** The byte positions the handler indexes, in the order it indexes them. */
  predicate IsRead(p: nat)
  {
    p <= 7 && p != 5
  }

  /** Whether a byte at position `p` can be decoded without ValueError. */
  predicate InDomain(p: nat, v: Byte)
  {
    if p == 0 then v <= 4
    else if p == 1 || p == 2 || p == 4 then v <= 1
    else true
  }

  /** Every position read before position `k` is present and decodable. */
  predicate GoodBefore(data: seq<Byte>, k: nat)
  {
    && (k > 0 ==> 0 < |data| && InDomain(0, data[0]))
    && (k > 1 ==> 1 < |data| && InDomain(1, data[1]))
    && (k > 2 ==> 2 < |data| && InDomain(2, data[2]))
    && (k > 3 ==> 3 < |data|)
    && (k > 4 ==> 4 < |data| && InDomain(4, data[4]))
    && (k > 6 ==> 6 < |data|)
    && (k > 7 ==> 7 < |data|)
  }

  /** `x` is the error the handler raises first on `data`: every earlier
      read succeeded and the read at `x`'s position fails in `x`'s way. */
  predicate FirstFault(data: seq<Byte>, x: FrameError)
  {
    && GoodBefore(data, ErrorIndex(x))
    && match x
       case IndexError(k) => IsRead(k) && |data| <= k
       case ValueError(k, v) => k < |data| && data[k] == v && !InDomain(k, v)
  }

  /** The six wire fields of one status frame, decoded as a unit. */
  datatype Candidate = Candidate(
    driveMode: DriveMode, dbw: Status, brake: Status,
    autopark: Status, emergency: Status, speed: nat)

  /** Decodes a whole payload in the handler's byte order, stopping at the
      first read that raises. */
  function DecodeFrame(data: seq<Byte>): (r: Result<Candidate>)
    ensures r.Ok? <==> GoodBefore(data, 8)
    ensures r.Ok? ==> |data| >= 8
    ensures r.Err? ==> FirstFault(data, r.error)
    ensures r.Ok? ==>
      && DriveModeValue(r.value.driveMode) == data[0]
      && StatusValue(r.value.dbw) == data[1]
      && StatusValue(r.value.brake) == data[2]
      && StatusValue(r.value.autopark) == data[3] % 2
      && StatusValue(r.value.emergency) == data[4]
      && r.value.speed == data[6] as int + 256 * data[7] as int
  {
    var mode :- ReadDriveMode(data);
    var dbw :- ReadStatus(data, 1);
    var brake :- ReadStatus(data, 2);
    var autopark :- ReadAutopark(data);
    var emergency :- ReadStatus(data, 4);
    var speed :- ReadSpeed(data);
    Ok(Candidate(mode, dbw, brake, autopark, emergency, speed))
  }
}
