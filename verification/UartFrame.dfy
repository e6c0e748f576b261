/** The frame codec of the AEROLINK UART protocol. The CRC-32 is any function from bytes to 32-bit numbers. */
module UartFrame {
  import opened Words
  import opened Outcomes
  import opened Octets

  const MAGIC_A: byte := 0x41
  const MAGIC_L: byte := 0x4C
  const VERSION: int := 1
  const MAX_PAYLOAD: nat := 512
  const HEADER_SIZE: nat := 17
  const CRC_SIZE: nat := 4
  const MAX_FRAME: nat := HEADER_SIZE + MAX_PAYLOAD + CRC_SIZE

  datatype MessageType =
    | Hello | Capabilities | Heartbeat | SetMode | SetStabilizedSetpoint | SetPayloadState | NodeStatus | Health | Ack
    | Fault

  datatype RejectCode =
    | BadMagic | UnsupportedVersion | UnsupportedType | BadLength | BadCrc | VehicleMismatch | Duplicate | Reordered
    | OutOfRange

  datatype Frame = Frame(
    messageType: MessageType, vehicleId: int, formationId: int, sequence: int, uptimeMs: int, payload: Bytes,
    version: int)

  type Crc32 = Bytes -> nat

  function TypeCode(t: MessageType): (r: nat)
    ensures r < 256
  {
    match t
    case Hello => 0x01 case Capabilities => 0x02 case Heartbeat => 0x03 case SetMode => 0x10
    case SetStabilizedSetpoint => 0x11
    case SetPayloadState => 0x12 case NodeStatus => 0x20 case Health => 0x21 case Ack => 0x22 case Fault => 0x23
  }

  function TypeOf(code: nat): Option<MessageType> {
    if code == 0x01 then Some(Hello) else if code == 0x02 then Some(Capabilities)
    else if code == 0x03 then Some(Heartbeat)
    else if code == 0x10 then Some(SetMode) else if code == 0x11 then Some(SetStabilizedSetpoint)
    else if code == 0x12 then Some(SetPayloadState) else if code == 0x20 then Some(NodeStatus)
    else if code == 0x21 then Some(Health)
    else if code == 0x22 then Some(Ack) else if code == 0x23 then Some(Fault) else None
  }

  lemma TypeRoundTrip(t: MessageType)
    ensures TypeOf(TypeCode(t)) == Some(t)
  {
  }

  lemma CodeRoundTrip(code: nat)
    requires TypeOf(code).Some?
    ensures TypeCode(TypeOf(code).value) == code
  {
  }

  /** `_validate_fields`: the first rule that is broken decides. */
  function ValidateFields(f: Frame): Option<RejectCode> {
    if f.version != VERSION then Some(UnsupportedVersion)
    else if !(0 <= f.vehicleId <= 15) then Some(OutOfRange)
    else if !(0 <= f.formationId <= 0xFFFF) then Some(OutOfRange)
    else if !(0 <= f.sequence <= 0xFFFF_FFFF) || !(0 <= f.uptimeMs <= 0xFFFF_FFFF) then Some(OutOfRange)
    else if |f.payload| > MAX_PAYLOAD then Some(BadLength)
    else None
  }

  /** The CRC as it is written: `& 0xFFFFFFFF`, low byte first. */
  function CrcOf(crc: Crc32, body: Bytes): (r: nat)
    ensures r < 0x1_0000_0000
  {
    crc(body) % 0x1_0000_0000
  }

  function PackHeader(f: Frame): (r: Bytes)
    requires ValidateFields(f) == None
    ensures |r| == HEADER_SIZE
  {
    [MAGIC_A, MAGIC_L, AsByte(f.version), AsByte(TypeCode(f.messageType))] + Pack2(|f.payload|) + [AsByte(f.vehicleId)]
      + Pack2(f.formationId) + Pack4(f.sequence) + Pack4(f.uptimeMs)
  }

  function Body(f: Frame): Bytes
    requires ValidateFields(f) == None
  {
    PackHeader(f) + f.payload
  }

  /** `Frame.encode` */
  function Encode(crc: Crc32, f: Frame): Result<Bytes, RejectCode> {
    match ValidateFields(f)
    case Some(code) => Err(code)
    case None => Ok(Body(f) + Pack4(CrcOf(crc, Body(f))))
  }

  // The fields of a header.

  function LengthOf(data: Bytes): nat requires |data| >= 6 { Read2(data[4], data[5]) }

  function HeaderFrame(data: Bytes, t: MessageType): Frame
    requires |data| >= HEADER_SIZE && |data| >= HEADER_SIZE + LengthOf(data)
  {
    Frame(t, Value(data[6]), Read2(data[7], data[8]), Read4(data[9], data[10], data[11], data[12]),
          Read4(data[13], data[14], data[15], data[16]), data[HEADER_SIZE..HEADER_SIZE + LengthOf(data)],
          Value(data[2]))
  }

  /** `Frame.decode`: the checks in their order. */
  function Decode(crc: Crc32, data: Bytes, expectedVehicle: Option<int>): Result<Frame, RejectCode> {
    if |data| < HEADER_SIZE + CRC_SIZE then Err(BadLength)
    else if data[0] != MAGIC_A || data[1] != MAGIC_L then Err(BadMagic)
    else if Value(data[2]) != VERSION then Err(UnsupportedVersion)
    else if LengthOf(data) > MAX_PAYLOAD || |data| != HEADER_SIZE + LengthOf(data) + CRC_SIZE then Err(BadLength)
    else
      var n := HEADER_SIZE + LengthOf(data);
      if Read4(data[n], data[n + 1], data[n + 2], data[n + 3]) != CrcOf(crc, data[..n]) then Err(BadCrc)
      else match TypeOf(Value(data[3]))
        case None => Err(UnsupportedType)
        case Some(t) =>
          var f := HeaderFrame(data, t);
          match ValidateFields(f)
          case Some(code) => Err(code)
          case None =>
            if expectedVehicle.Some? && f.vehicleId != expectedVehicle.value then Err(VehicleMismatch) else Ok(f)
  }

  predicate ForVehicle(f: Frame, expectedVehicle: Option<int>) {
    expectedVehicle.Some? ==> f.vehicleId == expectedVehicle.value
  }

  // ---------------------------------------------------------------- the two are inverse

  /** The header bytes hold the fields. */
  lemma HeaderHolds(f: Frame, rest: Bytes)
    requires ValidateFields(f) == None
    ensures (var d := PackHeader(f) + rest;
      && d[0] == MAGIC_A && d[1] == MAGIC_L && Value(d[2]) == f.version && Value(d[3]) == TypeCode(f.messageType)
      && LengthOf(d) == |f.payload| && Value(d[6]) == f.vehicleId && Read2(d[7], d[8]) == f.formationId
      && Read4(d[9], d[10], d[11], d[12]) == f.sequence && Read4(d[13], d[14], d[15], d[16]) == f.uptimeMs)
  {
    hide Value, AsByte, Read2, Pack2, Read4, Pack4, TypeCode;
    ValueOfByte(f.version);
    ValueOfByte(TypeCode(f.messageType));
    ValueOfByte(f.vehicleId);
    Read2Pack2(|f.payload|);
    Read2Pack2(f.formationId);
    Read4Pack4(f.sequence);
    Read4Pack4(f.uptimeMs);
    var length, formation, sequence, uptime :=
        Pack2(|f.payload|), Pack2(f.formationId), Pack4(f.sequence), Pack4(f.uptimeMs);
    HeaderBytes(AsByte(f.version), AsByte(TypeCode(f.messageType)), length, AsByte(f.vehicleId), formation, sequence,
                uptime, rest);
  }

  lemma HeaderBytes(version: byte, t: byte, length: Bytes, vehicle: byte, formation: Bytes, sequence: Bytes,
                    uptime: Bytes, rest: Bytes)
    requires |length| == 2 && |formation| == 2 && |sequence| == 4 && |uptime| == 4
    ensures (var d := [MAGIC_A, MAGIC_L, version, t] + length + [vehicle] + formation + sequence + uptime + rest;
      && d[0] == MAGIC_A && d[1] == MAGIC_L && d[2] == version && d[3] == t && d[4] == length[0] && d[5] == length[1]
         && d[6] == vehicle
      && d[7] == formation[0] && d[8] == formation[1]
      && d[9] == sequence[0] && d[10] == sequence[1] && d[11] == sequence[2] && d[12] == sequence[3]
      && d[13] == uptime[0] && d[14] == uptime[1] && d[15] == uptime[2] && d[16] == uptime[3])
  {
  }

  /** The bytes of a frame apart. */
  lemma BodyThenSum(f: Frame, sum: Bytes)
    requires ValidateFields(f) == None && |sum| == 4
    ensures (var data, n := Body(f) + sum, HEADER_SIZE + |f.payload|;
      && |data| == n + 4 && data[..n] == Body(f) && data[HEADER_SIZE..n] == f.payload
      && data[n] == sum[0] && data[n + 1] == sum[1] && data[n + 2] == sum[2] && data[n + 3] == sum[3]
      && data == PackHeader(f) + (f.payload + sum))
  {
    hide PackHeader, ValidateFields;
  }

  /** What is encoded is decoded, for its own vehicle and where no vehicle is expected. */
  lemma DecodeEncode(crc: Crc32, f: Frame, expectedVehicle: Option<int>)
    requires ValidateFields(f) == None
    ensures Decode(crc, Encode(crc, f).value, expectedVehicle)
         == if ForVehicle(f, expectedVehicle) then Ok(f) else Err(VehicleMismatch)
  {
    hide Value, AsByte, Read2, Pack2, Read4, Pack4, TypeCode, TypeOf, PackHeader, CrcOf, LengthOf, Body;
    var sum := CrcOf(crc, Body(f));
    Read4Pack4(sum);
    TypeRoundTrip(f.messageType);
    HeaderHolds(f, f.payload + Pack4(sum));
    BodyThenSum(f, Pack4(sum));
  }

  /** The header of a decoded frame is the one that was read. */
  lemma HeaderIsRead(data: Bytes, t: MessageType)
    requires |data| >= HEADER_SIZE + CRC_SIZE && LengthOf(data) <= MAX_PAYLOAD
             && |data| == HEADER_SIZE + LengthOf(data) + CRC_SIZE
    requires data[0] == MAGIC_A && data[1] == MAGIC_L && TypeOf(Value(data[3])) == Some(t)
    requires ValidateFields(HeaderFrame(data, t)) == None
    ensures PackHeader(HeaderFrame(data, t)) == data[..HEADER_SIZE]
  {
    hide Value, AsByte, Read2, Pack2, Read4, Pack4, TypeCode, TypeOf;
    CodeRoundTrip(Value(data[3]));
    ByteOfValue(data[2]);
    ByteOfValue(data[3]);
    Pack2Read2(data[4], data[5]);
    ByteOfValue(data[6]);
    Pack2Read2(data[7], data[8]);
    Pack4Read4(data[9], data[10], data[11], data[12]);
    Pack4Read4(data[13], data[14], data[15], data[16]);
    Seventeen(data);
  }

  lemma Seventeen(d: Bytes)
    requires |d| >= HEADER_SIZE
    ensures [d[0], d[1], d[2], d[3]] + [d[4], d[5]] + [d[6]] + [d[7], d[8]] + [d[9], d[10], d[11], d[12]]
            + [d[13], d[14], d[15], d[16]] == d[..HEADER_SIZE]
  {
  }

  /** What is decoded is exactly what encoding the frame gives: no second byte string decodes to it. */
  lemma EncodeDecode(crc: Crc32, data: Bytes, expectedVehicle: Option<int>)
    requires Decode(crc, data, expectedVehicle).Ok?
    ensures (var f := Decode(crc, data, expectedVehicle).value;
      Encode(crc, f) == Ok(data) && ForVehicle(f, expectedVehicle) && |data| == HEADER_SIZE + |f.payload| + CRC_SIZE)
  {
    hide Value, AsByte, Read2, Pack2, Read4, Pack4, TypeCode, TypeOf, PackHeader, CrcOf, LengthOf;
    var f := Decode(crc, data, expectedVehicle).value;
    var n := HEADER_SIZE + LengthOf(data);
    HeaderIsRead(data, TypeOf(Value(data[3])).value);
    Pack4Read4(data[n], data[n + 1], data[n + 2], data[n + 3]);
    assert data[..HEADER_SIZE] + data[HEADER_SIZE..n] == data[..n];
    assert data[..n] + [data[n], data[n + 1], data[n + 2], data[n + 3]] == data;
  }

  /** A byte string decodes exactly when it is the encoding of a frame for this vehicle. */
  lemma DecodesExactly(crc: Crc32, data: Bytes, expectedVehicle: Option<int>)
    ensures Decode(crc, data, expectedVehicle).Ok? <==>
      exists f :: Encode(crc, f) == Ok(data) && ForVehicle(f, expectedVehicle)
  {
    hide Decode, Body, TypeOf;
    if Decode(crc, data, expectedVehicle).Ok? {
      EncodeDecode(crc, data, expectedVehicle);
    }
    if f :| Encode(crc, f) == Ok(data) && ForVehicle(f, expectedVehicle) {
      DecodeEncode(crc, f, expectedVehicle);
    }
  }

  /** Exactly these frames can be encoded. */
  lemma EncodesExactly(crc: Crc32, f: Frame)
    ensures Encode(crc, f).Ok?
            <==> && f.version == 1 && 0 <= f.vehicleId <= 15 && 0 <= f.formationId <= 0xFFFF
                 && 0 <= f.sequence <= 0xFFFF_FFFF && 0 <= f.uptimeMs <= 0xFFFF_FFFF && |f.payload| <= 512
    ensures Encode(crc, f) == Err(UnsupportedVersion) <==> f.version != 1
    ensures Encode(crc, f) == Err(BadLength)
            <==> && f.version == 1 && 0 <= f.vehicleId <= 15 && 0 <= f.formationId <= 0xFFFF
                 && 0 <= f.sequence <= 0xFFFF_FFFF && 0 <= f.uptimeMs <= 0xFFFF_FFFF && |f.payload| > 512
    ensures Encode(crc, f).Err? ==> Encode(crc, f).error in {UnsupportedVersion, OutOfRange, BadLength}
  {
    hide Body, CrcOf, Pack4;
  }

  /** The messages in the order of their numbers: those of both sides, commands, and reports. */
  const GROUPS: seq<seq<MessageType>> := [
    [Hello, Capabilities, Heartbeat],
    [SetMode, SetStabilizedSetpoint, SetPayloadState],
    [NodeStatus, Health, Ack, Fault]]

  /** Both sides' messages are numbered from 1, the commands from 16 and the reports from 32. */
  lemma NumbersAre(t: MessageType)
    ensures exists g, i :: 0 <= g < 3 && 0 <= i < |GROUPS[g]| && GROUPS[g][i] == t
    ensures forall g, i :: 0 <= g < 3 && 0 <= i < |GROUPS[g]| && GROUPS[g][i] == t
                           ==> TypeCode(t) == 16 * g + i + if g == 0 then 1 else 0
  {
    var where := map[Hello := (0, 0), Capabilities := (0, 1), Heartbeat := (0, 2), SetMode := (1, 0),
                     SetStabilizedSetpoint := (1, 1), SetPayloadState := (1, 2), NodeStatus := (2, 0), Health := (2, 1),
                     Ack := (2, 2), Fault := (2, 3)];
    assert GROUPS[where[t].0][where[t].1] == t;
  }

  /** Where everything stands in the bytes of a frame, each number with its low byte first. */
  lemma EncodedLayout(crc: Crc32, f: Frame)
    requires ValidateFields(f) == None
    ensures (var d := Encode(crc, f).value;
      && |d| == 21 + |f.payload| && d[0] == 0x41 && d[1] == 0x4C && Value(d[2]) == 1
      && Value(d[3]) == TypeCode(f.messageType) && Value(d[4]) + 0x100 * Value(d[5]) == |f.payload|
      && Value(d[6]) == f.vehicleId && Value(d[7]) + 0x100 * Value(d[8]) == f.formationId
      && Value(d[9]) + 0x100 * Value(d[10]) + 0x1_0000 * (Value(d[11]) + 0x100 * Value(d[12])) == f.sequence
      && Value(d[13]) + 0x100 * Value(d[14]) + 0x1_0000 * (Value(d[15]) + 0x100 * Value(d[16])) == f.uptimeMs
      && d[17..17 + |f.payload|] == f.payload)
  {
    hide Value, AsByte, Pack4, PackHeader, TypeCode, CrcOf;
    var d, sum := Encode(crc, f).value, Pack4(CrcOf(crc, Body(f)));
    HeaderHolds(f, f.payload + sum);
    assert d == PackHeader(f) + (f.payload + sum);
    assert |PackHeader(f)| == 17;
    hide ValidateFields, Encode, Body;
    assert d[17..17 + |f.payload|] == (f.payload + sum)[..|f.payload|] == f.payload;
  }

  /** How bytes that decode look: "AL", version 1, a payload of at most 512 bytes behind 17, and 4 of checksum. */
  lemma DecodedShape(crc: Crc32, data: Bytes, expectedVehicle: Option<int>)
    requires Decode(crc, data, expectedVehicle).Ok?
    ensures 21 <= |data| <= 533 && data[0] == 0x41 && data[1] == 0x4C && Value(data[2]) == 1
    ensures |data| == 21 + Value(data[4]) + 0x100 * Value(data[5])
    ensures Read4(data[|data| - 4], data[|data| - 3], data[|data| - 2], data[|data| - 1])
         == crc(data[..|data| - 4]) % 0x1_0000_0000
    ensures (var f := Decode(crc, data, expectedVehicle).value; 0 <= f.vehicleId <= 15 && |f.payload| <= 512)
  {
    hide Value, Read4, TypeOf;
  }

  /** The bytes are whole: marked, of this version, as long as they say, with their own checksum. */
  predicate Intact(crc: Crc32, data: Bytes) {
    && 21 <= |data| <= 533 && data[0] == 0x41 && data[1] == 0x4C && Value(data[2]) == 1
    && |data| == 21 + Value(data[4]) + 0x100 * Value(data[5])
    && Read4(data[|data| - 4], data[|data| - 3], data[|data| - 2], data[|data| - 1])
       == crc(data[..|data| - 4]) % 0x1_0000_0000
  }

  /** What is refused, and for what. */
  lemma RefusedExactly(crc: Crc32, data: Bytes, expectedVehicle: Option<int>)
    ensures Decode(crc, data, expectedVehicle).Ok?
            <==> && Intact(crc, data) && Value(data[3]) in {1, 2, 3, 16, 17, 18, 32, 33, 34, 35} && Value(data[6]) <= 15
                 && expectedVehicle in {None, Some(Value(data[6]))}
    ensures Decode(crc, data, expectedVehicle) == Err(BadMagic)
            <==> |data| >= 21 && (data[0] != 0x41 || data[1] != 0x4C)
    ensures Decode(crc, data, expectedVehicle) == Err(UnsupportedVersion)
            <==> |data| >= 21 && data[0] == 0x41 && data[1] == 0x4C && Value(data[2]) != 1
    ensures Intact(crc, data)
            ==> && Decode(crc, data, expectedVehicle) != Err(BadLength)
                && Decode(crc, data, expectedVehicle) != Err(BadCrc)
                && (Decode(crc, data, expectedVehicle) == Err(UnsupportedType)
                    <==> Value(data[3]) !in {1, 2, 3, 16, 17, 18, 32, 33, 34, 35})
                && (Decode(crc, data, expectedVehicle) == Err(OutOfRange)
                    <==> Value(data[3]) in {1, 2, 3, 16, 17, 18, 32, 33, 34, 35} && Value(data[6]) > 15)
  {
    hide Value, Read4;
  }

  /** With any other checksum the bytes of a frame are refused for it. */
  lemma WrongCrc(crc: Crc32, f: Frame, expectedVehicle: Option<int>, sum: Bytes)
    requires ValidateFields(f) == None && |sum| == 4 && Encode(crc, f) != Ok(Body(f) + sum)
    ensures Decode(crc, Body(f) + sum, expectedVehicle) == Err(BadCrc)
  {
    hide Value, AsByte, Read2, Pack2, Read4, Pack4, TypeCode, TypeOf, PackHeader, CrcOf, LengthOf, Body;
    HeaderHolds(f, f.payload + sum);
    BodyThenSum(f, sum);
    Pack4Read4(sum[0], sum[1], sum[2], sum[3]);
    assert sum == [sum[0], sum[1], sum[2], sum[3]];
  }
}
