/** The byte-at-a-time MAVLink parser, as a step function and as the method that works in place. */
module MavParser {
  import opened Words
  import opened Outcomes
  import opened Octets
  import opened MavCrc
  import opened MavMessages

  // ---------------------------------------------------------------- state

  datatype Phase =
    | Uninit | Idle | GotStx | GotLength | GotIncompatFlags | GotCompatFlags | GotSeq | GotSysid | GotCompid
    | GotMsgid1 | GotMsgid2 | GotMsgid3 | GotPayload | GotCrc1 | GotBadCrc1 | SignatureWait | SignatureWaitBadCrc

  datatype Framing = Incomplete | FramingOk | BadCrc

  const BUFFER: nat := 264
  const SIGNATURE_LENGTH: nat := 13

  /** `mavlink_message_t` */
  datatype Message = Message(
    checksum: bv16, magic: byte, len: nat, incompatFlags: byte, compatFlags: byte, seqno: byte, sysid: byte,
    compid: byte,
    msgid: nat, payload: Bytes, ck0: byte, ck1: byte, signature: Bytes)
  {
    predicate Valid() { len < 256 && |payload| == BUFFER && |signature| == SIGNATURE_LENGTH }
  }

  /** The part of `mavlink_status_t` that parsing depends on, with the message under construction. */
  datatype State = State(m: Message, phase: Phase, packetIdx: nat, signatureWait: nat, inMavlink1: bool)

  /** What one byte leads to: the new state, the result, and the message handed out, if any. */
  datatype Outcome = Outcome(state: State, framing: Framing, delivered: Option<Message>)

  // ---------------------------------------------------------------- one byte

  function Quiet(s: State): Outcome { Outcome(s, Incomplete, None) }

  function Sum(m: Message, c: byte): Message { m.(checksum := Accumulate(c, m.checksum)) }

  function Next(s: State, m: Message, c: byte, phase: Phase): Outcome { Quiet(s.(m := Sum(m, c), phase := phase)) }

  function AfterHeader(m: Message): Phase { if m.len > 0 then GotMsgid3 else GotPayload }

  function Start(s: State, c: byte): Outcome {
    if c == STX || c == STX_MAVLINK1 then
      Quiet(s.(m := s.m.(len := 0, magic := c, checksum := CRC_INIT), phase := GotStx, inMavlink1 := c == STX_MAVLINK1))
    else Quiet(s)
  }

  function TakeLength(s: State, c: byte): Outcome {
    var m := s.m.(len := Value(c));
    if s.inMavlink1 then Next(s.(packetIdx := 0), m.(incompatFlags := 0, compatFlags := 0), c, GotCompatFlags)
    else Next(s.(packetIdx := 0), m, c, GotLength)
  }

  function TakeIncompatFlags(s: State, c: byte): Outcome {
    var m := s.m.(incompatFlags := c);
    if NotUnderstood(c) then Quiet(s.(m := m, phase := Idle)) else Next(s, m, c, GotIncompatFlags)
  }

  /** `rxmsg->msgid |= c << 8` and `<< 16`: the bits are disjoint. */
  function TakeId(s: State, c: byte, weight: nat, phase: Phase): Outcome {
    Next(s, s.m.(msgid := s.m.msgid + weight * Value(c)), c, phase)
  }

  function Poke(bytes: Bytes, i: nat, b: byte): (r: Bytes)
    ensures |r| == |bytes|
  {
    if i < |bytes| then bytes[i := b] else bytes
  }

  /** `memset` to zero from `from` up to `to`. */
  function ZeroFill(bytes: Bytes, from: nat, to: nat): (r: Bytes)
    ensures |r| == |bytes|
    decreases if from < |bytes| then |bytes| - from else 0
  {
    if from < to && from < |bytes| then ZeroFill(bytes[from := 0], from + 1, to) else bytes
  }

  function TakePayload(s: State, c: byte): Outcome {
    var m := s.m.(payload := Poke(s.m.payload, s.packetIdx, c));
    Next(s.(packetIdx := s.packetIdx + 1), m, c, if s.packetIdx + 1 == m.len then GotPayload else GotMsgid3)
  }

  function TakeCrc1(table: seq<Entry>, s: State, c: byte): Outcome {
    match Lookup(table, s.m.msgid)
    case None => Quiet(s.(m := s.m.(ck0 := c), phase := GotBadCrc1))
    case Some(e) =>
      var m := Sum(s.m, e.crcExtra);
      var m' := m.(ck0 := c, payload := ZeroFill(m.payload, s.packetIdx, e.maxLength));
      Quiet(s.(m := m', phase := if c != LowByte(m.checksum) then GotBadCrc1 else GotCrc1))
  }

  /** The CRC on the wire replaces the computed one in a message that is handed out as bad. */
  function HandOut(m: Message, bad: bool): Message { if bad then m.(checksum := FromWire(m.ck0, m.ck1)) else m }

  function FromWire(low: byte, high: byte): bv16 { low as bv16 | (high as bv16 << 8) }

  function TakeCrc2(s: State, c: byte): Outcome {
    var bad := s.phase == GotBadCrc1 || c != HighByte(s.m.checksum);
    var m := s.m.(ck1 := c);
    if Signed(m.incompatFlags) then
      Outcome(s.(m := m, signatureWait := SIGNATURE_LENGTH,
                 phase := if bad then SignatureWaitBadCrc else SignatureWait),
              if bad then BadCrc else Incomplete, None)
    else Outcome(s.(m := m, phase := Idle), if bad then BadCrc else FramingOk, Some(HandOut(m, bad)))
  }

  /** Without signing keys every signature is accepted. */
  function TakeSignature(s: State, c: byte): Outcome {
    if s.signatureWait == 0 || s.signatureWait > SIGNATURE_LENGTH then Quiet(s) else
    var m := s.m.(signature := Poke(s.m.signature, SIGNATURE_LENGTH - s.signatureWait, c));
    var bad := s.phase == SignatureWaitBadCrc;
    if s.signatureWait > 1 then Quiet(s.(m := m, signatureWait := s.signatureWait - 1))
    else Outcome(s.(m := m, signatureWait := 0, phase := Idle), if bad then BadCrc else FramingOk,
                 Some(HandOut(m, bad)))
  }

  /** `mavlink_frame_char_buffer` */
  function Step(table: seq<Entry>, s: State, c: byte): Outcome {
    match s.phase
    case Uninit => Start(s, c)
    case Idle => Start(s, c)
    case GotStx => TakeLength(s, c)
    case GotLength => TakeIncompatFlags(s, c)
    case GotIncompatFlags => Next(s, s.m.(compatFlags := c), c, GotCompatFlags)
    case GotCompatFlags => Next(s, s.m.(seqno := c), c, GotSeq)
    case GotSeq => Next(s, s.m.(sysid := c), c, GotSysid)
    case GotSysid => Next(s, s.m.(compid := c), c, GotCompid)
    case GotCompid => Next(s, s.m.(msgid := Value(c)), c, if s.inMavlink1 then AfterHeader(s.m) else GotMsgid1)
    case GotMsgid1 => TakeId(s, c, 0x100, GotMsgid2)
    case GotMsgid2 => TakeId(s, c, 0x1_0000, AfterHeader(s.m))
    case GotMsgid3 => TakePayload(s, c)
    case GotPayload => TakeCrc1(table, s, c)
    case GotCrc1 => TakeCrc2(s, c)
    case GotBadCrc1 => TakeCrc2(s, c)
    case SignatureWait => TakeSignature(s, c)
    case SignatureWaitBadCrc => TakeSignature(s, c)
  }

  // ---------------------------------------------------------------- the state tells the bytes

  /** The state after `n` bytes of header and payload. */
  function BodyPhase(v1: bool, len: nat, n: nat): Phase {
    var h := if v1 then 6 else 10;
    if n >= h + len then GotPayload
    else if n >= h then GotMsgid3
    else if v1 then (match n case 1 => GotStx case 2 => GotCompatFlags case 3 => GotSeq case 4 => GotSysid
                     case _ => GotCompid)
    else (match n
          case 1 => GotStx case 2 => GotLength case 3 => GotIncompatFlags case 4 => GotCompatFlags case 5 => GotSeq
          case 6 => GotSysid case 7 => GotCompid case 8 => GotMsgid1 case _ => GotMsgid2)
  }

  predicate FlagsTold(m: Message, f: Bytes)
    requires f != []
  {
    if IsV1(f) then |f| > 1 ==> m.incompatFlags == 0 && m.compatFlags == 0
    else (|f| > 2 ==> m.incompatFlags == f[2] && !NotUnderstood(f[2])) && (|f| > 3 ==> m.compatFlags == f[3])
  }

  predicate IdsTold(m: Message, f: Bytes)
    requires f != []
  {
    var q := SeqAt(f);
    && (|f| > q ==> m.seqno == f[q]) && (|f| > q + 1 ==> m.sysid == f[q + 1]) && (|f| > q + 2 ==> m.compid == f[q + 2])
  }

  predicate IdTold(m: Message, f: Bytes)
    requires f != []
  {
    if IsV1(f) then |f| > 5 ==> m.msgid == Value(f[5])
    else |f| > 7 ==>
      m.msgid == Value(f[7]) + (if |f| > 8 then 0x100 * Value(f[8]) else 0)
                 + (if |f| > 9 then 0x1_0000 * Value(f[9]) else 0)
  }

  /** Everything the header bytes so far say is in the message. */
  predicate HeaderTold(m: Message, f: Bytes)
    requires f != []
  {
    m.Valid() && m.magic == f[0] && f[0] in {STX, STX_MAVLINK1} && (|f| > 1 ==> m.len == Value(f[1]))
      && FlagsTold(m, f) && IdsTold(m, f) && IdTold(m, f)
  }

  /** In the middle of header or payload. */
  predicate InBody(s: State, f: Bytes) {
    && f != [] && HeaderTold(s.m, f) && s.inMavlink1 == IsV1(f)
    && (|f| > 1 ==> |f| <= BodyLength(f))
    && s.phase == BodyPhase(IsV1(f), s.m.len, |f|) && (|f| == 1 ==> s.phase == GotStx)
    && s.m.checksum == Crc(f[1..])
    && (|f| > 1 ==> s.packetIdx == if |f| < HeaderLength(f) then 0 else |f| - HeaderLength(f))
    && (|f| >= HeaderLength(f) ==> s.m.payload[..|f| - HeaderLength(f)] == f[HeaderLength(f)..])
  }

  /** The first byte of the CRC matches. */
  predicate FirstCrcOk(table: seq<Entry>, f: Bytes)
    requires |f| >= 6 && |f| > BodyLength(f)
  {
    match Lookup(table, FrameId(f))
    case None => false
    case Some(e) => f[BodyLength(f)] == LowByte(FrameCrc(f, e.crcExtra))
  }

  /** The payload of a frame with zeros after it, up to the length its message type can have. */
  predicate PayloadFilled(table: seq<Entry>, m: Message, f: Bytes)
    requires |f| >= 6 && |f| >= BodyLength(f)
  {
    var h, n := HeaderLength(f), PayloadLength(f);
    && |m.payload| == BUFFER && m.payload[..n] == f[h..h + n]
    && (match Lookup(table, FrameId(f))
        case None => true
        case Some(e) =>
          && m.checksum == FrameCrc(f, e.crcExtra)
          && forall i :: n <= i < e.maxLength && i < BUFFER ==> m.payload[i] == 0)
  }

  /** After the first byte of the CRC. */
  predicate InCrc(table: seq<Entry>, s: State, f: Bytes) {
    && |f| >= 6 && |f| == BodyLength(f) + 1 && HeaderTold(s.m, f)
    && PayloadFilled(table, s.m, f) && s.m.ck0 == f[BodyLength(f)]
    && s.phase == if FirstCrcOk(table, f) then GotCrc1 else GotBadCrc1
  }

  predicate CrcOk(table: seq<Entry>, f: Bytes)
    requires |f| >= 6 && |f| > BodyLength(f) + 1
  {
    match Lookup(table, FrameId(f))
    case None => false
    case Some(e) =>
      f[BodyLength(f)] == LowByte(FrameCrc(f, e.crcExtra)) && f[BodyLength(f) + 1] == HighByte(FrameCrc(f, e.crcExtra))
  }

  /** In the signature. */
  predicate InSignature(table: seq<Entry>, s: State, f: Bytes) {
    && |f| >= 6 && BodyLength(f) + 2 <= |f| < BodyLength(f) + 15 && SignedFrame(f) && HeaderTold(s.m, f)
    && PayloadFilled(table, s.m, f) && s.m.ck0 == f[BodyLength(f)] && s.m.ck1 == f[BodyLength(f) + 1]
    && s.phase == (if CrcOk(table, f) then SignatureWait else SignatureWaitBadCrc)
    && s.signatureWait == SIGNATURE_LENGTH - (|f| - BodyLength(f) - 2)
    && s.m.signature[..|f| - BodyLength(f) - 2] == f[BodyLength(f) + 2..]
  }

  /** The state is what the bytes since the start of the frame make it. */
  predicate Tracks(table: seq<Entry>, s: State, f: Bytes) {
    if f == [] then (s.phase == Idle || s.phase == Uninit) && s.m.Valid()
    else InBody(s, f) || InCrc(table, s, f) || InSignature(table, s, f)
  }

  /** The message of a complete frame. */
  predicate MessageOf(table: seq<Entry>, m: Message, f: Bytes) {
    && CompleteFrame(table, f) && HeaderTold(m, f) && PayloadFilled(table, m, f)
    && m.ck0 == f[BodyLength(f)] && m.ck1 == f[BodyLength(f) + 1]
    && (SignedFrame(f) ==> m.signature == f[BodyLength(f) + 2..])
  }

  // ---------------------------------------------------------------- one byte keeps track

  lemma CrcMore(f: Bytes, c: byte)
    requires f != []
    ensures Crc((f + [c])[1..]) == Accumulate(c, Crc(f[1..]))
  {
    hide Accumulate;
    assert (f + [c])[1..] == f[1..] + [c];
    assert (f[1..] + [c])[..|f| - 1] == f[1..];
  }

  lemma {:induction false} ZeroFilled(bytes: Bytes, from: nat, to: nat, i: nat)
    requires i < |bytes|
    ensures ZeroFill(bytes, from, to)[i] == if from <= i < to then 0 else bytes[i]
    decreases if from < |bytes| then |bytes| - from else 0
  {
    if from < to && from < |bytes| { ZeroFilled(bytes[from := 0], from + 1, to, i); }
  }

  /** What was told stays told when bytes are added that it does not depend on. */
  lemma Started(table: seq<Entry>, s: State, c: byte)
    requires Tracks(table, s, [])
    ensures var o := Step(table, s, c);
      && o.framing == Incomplete && o.delivered == None
      && Tracks(table, o.state, if c in {STX, STX_MAVLINK1} then [c] else [])
  {
    hide Accumulate;
    assert [c][1..] == [];
  }

  lemma TookLength(table: seq<Entry>, s: State, f: Bytes, c: byte)
    requires InBody(s, f) && |f| == 1
    ensures var o := Step(table, s, c); o.framing == Incomplete && o.delivered == None && InBody(o.state, f + [c])
  {
    hide Accumulate, Value;
    CrcMore(f, c);
    assert f == [f[0]];
  }

  lemma TookHeaderV1(table: seq<Entry>, s: State, f: Bytes, c: byte)
    requires InBody(s, f) && IsV1(f) && 2 <= |f| < 6
    ensures var o := Step(table, s, c); o.framing == Incomplete && o.delivered == None && InBody(o.state, f + [c])
  {
    hide Accumulate, Value;
    CrcMore(f, c);
    assert (f + [c])[..|f|] == f && (f + [c])[|f|] == c;
    if |f| == 5 { assert (f + [c])[6..] == []; }
  }

  lemma TookFlags(table: seq<Entry>, s: State, f: Bytes, c: byte)
    requires InBody(s, f) && !IsV1(f) && 2 <= |f| < 4
    ensures var o := Step(table, s, c);
      && o.framing == Incomplete && o.delivered == None
      && if |f| == 2 && NotUnderstood(c) then Tracks(table, o.state, []) else InBody(o.state, f + [c])
  {
    hide Accumulate, Value, NotUnderstood;
    CrcMore(f, c);
    assert (f + [c])[..|f|] == f && (f + [c])[|f|] == c;
  }

  lemma TookSender(table: seq<Entry>, s: State, f: Bytes, c: byte)
    requires InBody(s, f) && !IsV1(f) && 4 <= |f| < 7
    ensures var o := Step(table, s, c); o.framing == Incomplete && o.delivered == None && InBody(o.state, f + [c])
  {
    hide Accumulate, Value, NotUnderstood;
    CrcMore(f, c);
    assert (f + [c])[..|f|] == f && (f + [c])[|f|] == c;
  }

  lemma TookId(table: seq<Entry>, s: State, f: Bytes, c: byte)
    requires InBody(s, f) && !IsV1(f) && 7 <= |f| < 10
    ensures var o := Step(table, s, c); o.framing == Incomplete && o.delivered == None && InBody(o.state, f + [c])
  {
    hide Accumulate, Value, NotUnderstood, Start, TakeLength, TakeIncompatFlags, TakePayload, TakeCrc1, TakeCrc2,
      TakeSignature;
    CrcMore(f, c);
    assert (f + [c])[..|f|] == f && (f + [c])[|f|] == c;
    if |f| == 9 { assert (f + [c])[10..] == []; }
  }

  /** The header says what it said when more bytes come. */
  lemma HeaderStays(m: Message, m': Message, f: Bytes, c: byte)
    requires |f| >= 6 && |f| >= HeaderLength(f) && HeaderTold(m, f)
    requires m' == m.(checksum := m'.checksum, payload := m'.payload, ck0 := m'.ck0, ck1 := m'.ck1,
                      signature := m'.signature)
    requires m'.Valid()
    ensures HeaderTold(m', f + [c])
  {
    hide Value, NotUnderstood;
    assert (f + [c])[..|f|] == f;
  }

  lemma FrameStays(f: Bytes, c: byte)
    requires |f| >= 6 && |f| >= HeaderLength(f)
    ensures (var g := f + [c];
      && IsV1(g) == IsV1(f) && HeaderLength(g) == HeaderLength(f) && PayloadLength(g) == PayloadLength(f)
      && FrameId(g) == FrameId(f) && SignedFrame(g) == SignedFrame(f) && FrameLength(g) == FrameLength(f))
  {
    hide Value, Signed;
    var g := f + [c];
    assert g[..|f|] == f;
  }

  lemma CrcStays(f: Bytes, c: byte, extra: byte)
    requires |f| >= 6 && |f| >= HeaderLength(f) && |f| >= BodyLength(f)
    ensures |f + [c]| >= BodyLength(f + [c]) && FrameCrc(f + [c], extra) == FrameCrc(f, extra)
  {
    hide Value, Accumulate, Crc;
    FrameStays(f, c);
    assert (f + [c])[1..BodyLength(f)] == f[1..BodyLength(f)];
  }

  lemma TookPayload(table: seq<Entry>, s: State, f: Bytes, c: byte)
    requires InBody(s, f) && |f| >= 6 && HeaderLength(f) <= |f| < BodyLength(f)
    ensures var o := Step(table, s, c); o.framing == Incomplete && o.delivered == None && InBody(o.state, f + [c])
  {
    hide Accumulate, Value, NotUnderstood, HeaderTold, Crc;
    CrcMore(f, c);
    FrameStays(f, c);
    var o, g, h, k := Step(table, s, c), f + [c], HeaderLength(f), |f| - HeaderLength(f);
    BodyFacts(s, f);
    HeaderStays(s.m, o.state.m, f, c);
    assert g[h..] == f[h..] + [c];
    assert o.state.m.payload[..k + 1] == s.m.payload[..k] + [c];
  }

  lemma BodyFacts(s: State, f: Bytes)
    requires InBody(s, f) && |f| > 1
    ensures s.m.len == PayloadLength(f) && s.m.Valid()
    ensures |f| >= HeaderLength(f) ==> s.m.msgid == FrameId(f)
  {
    hide Value, NotUnderstood, Crc;
  }

  /** The first byte of the CRC fills the payload with zeros and completes the checksum. */
  lemma FilledAfter(table: seq<Entry>, m: Message, f: Bytes, c: byte, e: Entry)
    requires TableOk(table) && |f| >= 6 && |f| == BodyLength(f) && m.Valid() && Lookup(table, FrameId(f)) == Some(e)
    requires m.payload[..PayloadLength(f)] == f[HeaderLength(f)..] && m.checksum == Crc(f[1..])
    ensures var m' := Sum(m, e.crcExtra).(ck0 := c, payload := ZeroFill(m.payload, PayloadLength(f), e.maxLength));
      PayloadFilled(table, m', f + [c])
  {
    hide Accumulate, Value, NotUnderstood, Crc, Lookup, ZeroFill;
    var n, h := PayloadLength(f), HeaderLength(f);
    var filled := ZeroFill(m.payload, n, e.maxLength);
    FrameStays(f, c);
    CrcStays(f, c, e.crcExtra);
    assert f[1..BodyLength(f)] == f[1..] && (f + [c])[h..h + n] == f[h..];
    forall i | 0 <= i < BUFFER ensures filled[i] == if n <= i < e.maxLength then 0 else m.payload[i] {
      ZeroFilled(m.payload, n, e.maxLength, i);
    }
    assert filled[..n] == m.payload[..n];
  }

  lemma UnknownAfter(table: seq<Entry>, m: Message, f: Bytes, c: byte)
    requires |f| >= 6 && |f| == BodyLength(f) && m.Valid() && Lookup(table, FrameId(f)) == None
    requires m.payload[..PayloadLength(f)] == f[HeaderLength(f)..]
    ensures PayloadFilled(table, m.(ck0 := c), f + [c])
  {
    hide Accumulate, Value, NotUnderstood, Crc, Lookup;
    FrameStays(f, c);
    assert (f + [c])[HeaderLength(f)..HeaderLength(f) + PayloadLength(f)] == f[HeaderLength(f)..];
  }

  lemma InCrcIf(table: seq<Entry>, s: State, f: Bytes, c: byte)
    requires |f| >= 6 && |f| == BodyLength(f) && HeaderTold(s.m, f + [c]) && PayloadFilled(table, s.m, f + [c])
             && s.m.ck0 == c
    requires s.phase == (match Lookup(table, FrameId(f))
                         case None => GotBadCrc1
                         case Some(e) => if c == LowByte(FrameCrc(f, e.crcExtra)) then GotCrc1 else GotBadCrc1)
    ensures InCrc(table, s, f + [c])
  {
    hide Accumulate, Value, Signed, NotUnderstood, Lookup, Crc, LowByte, HighByte, PayloadFilled, HeaderTold, FrameCrc;
    FrameStays(f, c);
    match Lookup(table, FrameId(f)) {
      case None =>
      case Some(e) => CrcStays(f, c, e.crcExtra);
    }
  }

  lemma AtPayload(table: seq<Entry>, s: State, f: Bytes, c: byte)
    requires InBody(s, f) && |f| >= 6 && |f| == BodyLength(f)
    ensures s.packetIdx == PayloadLength(f) && s.m.checksum == Crc(f[1..]) && s.m.msgid == FrameId(f) && s.m.Valid()
    ensures s.m.payload[..PayloadLength(f)] == f[HeaderLength(f)..] && HeaderTold(s.m, f)
    ensures Step(table, s, c) == TakeCrc1(table, s, c)
  {
    hide Value, NotUnderstood, Crc, TakeCrc1;
  }

  lemma TookCrc1(table: seq<Entry>, s: State, f: Bytes, c: byte)
    requires TableOk(table) && InBody(s, f) && |f| >= 6 && |f| == BodyLength(f)
    ensures var o := Step(table, s, c); o.framing == Incomplete && o.delivered == None && InCrc(table, o.state, f + [c])
  {
    hide Accumulate, Value, Signed, NotUnderstood, Lookup, Crc, LowByte, HighByte, ZeroFill, PayloadFilled, HeaderTold,
      TableOk, InBody, Step, InCrc, IsV1;
    AtPayload(table, s, f, c);
    var o := Step(table, s, c);
    HeaderStays(s.m, o.state.m, f, c);
    match Lookup(table, FrameId(f)) {
      case None =>
        UnknownAfter(table, s.m, f, c);
      case Some(e) =>
        FilledAfter(table, s.m, f, c, e);
        assert f[1..BodyLength(f)] == f[1..];
        assert Sum(s.m, e.crcExtra).checksum == FrameCrc(f, e.crcExtra);
    }
    InCrcIf(table, o.state, f, c);
  }

  lemma FilledStays(table: seq<Entry>, m: Message, m': Message, f: Bytes, c: byte)
    requires |f| >= 6 && |f| >= HeaderLength(f) && |f| >= BodyLength(f) && PayloadFilled(table, m, f)
    requires m' == m.(ck0 := m'.ck0, ck1 := m'.ck1, signature := m'.signature)
    ensures PayloadFilled(table, m', f + [c])
  {
    hide Accumulate, Value, NotUnderstood, Crc, Lookup, FrameCrc;
    FrameStays(f, c);
    assert (f + [c])[HeaderLength(f)..HeaderLength(f) + PayloadLength(f)]
           == f[HeaderLength(f)..HeaderLength(f) + PayloadLength(f)];
    if Lookup(table, FrameId(f)).Some? { CrcStays(f, c, Lookup(table, FrameId(f)).value.crcExtra); }
  }

  /** With the second byte the CRC of the frame is decided. */
  lemma CrcDecided(table: seq<Entry>, s: State, f: Bytes, c: byte)
    requires InCrc(table, s, f)
    ensures var g := f + [c];
      CrcOk(table, g) <==> s.phase == GotCrc1 && c == HighByte(s.m.checksum)
  {
    hide Accumulate, Value, Signed, NotUnderstood, Lookup, Crc, LowByte, HighByte, HeaderTold, FrameCrc;
    FrameStays(f, c);
    assert (f + [c])[..|f|] == f;
    if Lookup(table, FrameId(f)).Some? { CrcStays(f, c, Lookup(table, FrameId(f)).value.crcExtra); }
  }

  lemma AtCrc2(table: seq<Entry>, s: State, f: Bytes, c: byte)
    requires InCrc(table, s, f)
    ensures Step(table, s, c) == TakeCrc2(s, c) && s.m.Valid()
    ensures Signed(s.m.incompatFlags) == SignedFrame(f) && HeaderTold(s.m, f)
    ensures f[0] in {STX, STX_MAVLINK1} && (!IsV1(f) ==> !NotUnderstood(f[2]))
  {
    hide Value, Crc, TakeCrc2, PayloadFilled, FirstCrcOk, NotUnderstood;
    NoFlags();
  }

  lemma NoFlags()
    ensures !Signed(0)
  {
  }

  /** The second byte of the CRC ends an unsigned frame: it is handed out as good exactly when it is complete. */
  lemma TookCrc2(table: seq<Entry>, s: State, f: Bytes, c: byte)
    requires InCrc(table, s, f)
    ensures (var o, g := Step(table, s, c), f + [c];
      if SignedFrame(f)
      then o.framing == (if CrcOk(table, g) then Incomplete else BadCrc) && o.delivered == None
           && InSignature(table, o.state, g)
      else
        && Tracks(table, o.state, []) && o.framing != Incomplete
        && (o.framing == FramingOk <==> CompleteFrame(table, g))
        && (o.framing == FramingOk ==> o.delivered.Some? && MessageOf(table, o.delivered.value, g)))
  {
    hide Accumulate, Value, Signed, NotUnderstood, Lookup, Crc, LowByte, HighByte, PayloadFilled, HeaderTold, FrameCrc,
      Step, FirstCrcOk, CrcOk, CompleteFrame, FromWire, SignedFrame;
    AtCrc2(table, s, f, c);
    FrameStays(f, c);
    CrcDecided(table, s, f, c);
    var o, g := Step(table, s, c), f + [c];
    HeaderStays(s.m, s.m.(ck1 := c), f, c);
    FilledStays(table, s.m, s.m.(ck1 := c), f, c);
    if SignedFrame(f) {
      assert o.state.m.signature[..0] == g[|g|..];
    } else {
      CompleteIf(table, g);
    }
  }

  /** A frame that is long enough and has the right CRC is complete. */
  lemma CompleteIf(table: seq<Entry>, f: Bytes)
    requires |f| >= 6 && |f| > BodyLength(f) + 1 && f[0] in {STX, STX_MAVLINK1} && (!IsV1(f) ==> !NotUnderstood(f[2]))
    ensures CompleteFrame(table, f) <==> |f| == FrameLength(f) && CrcOk(table, f)
  {
    hide Accumulate, Value, Signed, NotUnderstood, Lookup, Crc, LowByte, HighByte, FrameCrc;
  }

  lemma AtSignature(table: seq<Entry>, s: State, f: Bytes, c: byte)
    requires InSignature(table, s, f)
    ensures Step(table, s, c) == TakeSignature(s, c) && s.m.Valid() && HeaderTold(s.m, f)
    ensures f[0] in {STX, STX_MAVLINK1} && (!IsV1(f) ==> !NotUnderstood(f[2]))
  {
    hide Value, Crc, TakeSignature, PayloadFilled, CrcOk, NotUnderstood, Signed;
  }

  lemma CrcOkStays(table: seq<Entry>, f: Bytes, c: byte)
    requires |f| >= 6 && |f| > BodyLength(f) + 1
    ensures |f + [c]| > BodyLength(f + [c]) + 1 && CrcOk(table, f + [c]) == CrcOk(table, f)
  {
    hide Accumulate, Value, Signed, NotUnderstood, Lookup, Crc, LowByte, HighByte, FrameCrc;
    FrameStays(f, c);
    assert (f + [c])[..|f|] == f;
    if Lookup(table, FrameId(f)).Some? { CrcStays(f, c, Lookup(table, FrameId(f)).value.crcExtra); }
  }

  /** The message under construction after a byte of the signature. */
  function WithSignature(s: State, c: byte): Message
    requires s.signatureWait <= SIGNATURE_LENGTH
  {
    s.m.(signature := Poke(s.m.signature, SIGNATURE_LENGTH - s.signatureWait, c))
  }

  lemma SignatureTold(table: seq<Entry>, s: State, f: Bytes, c: byte)
    requires InSignature(table, s, f) && s.m.Valid()
    ensures (var m, g, n := WithSignature(s, c), f + [c], BodyLength(f) + 2;
             HeaderTold(m, g) && PayloadFilled(table, m, g) && m.ck0 == g[n - 2] && m.ck1 == g[n - 1] && m.Valid()
             && m.signature[..|g| - n] == g[n..])
  {
    hide Value, Signed, NotUnderstood, Lookup, PayloadFilled, HeaderTold, CrcOk, IsV1, FrameId;
    FrameStays(f, c);
    var m, k := WithSignature(s, c), |f| - BodyLength(f) - 2;
    HeaderStays(s.m, m, f, c);
    FilledStays(table, s.m, m, f, c);
    assert (f + [c])[BodyLength(f) + 2..] == f[BodyLength(f) + 2..] + [c];
    assert m.signature[..k + 1] == s.m.signature[..k] + [c];
  }

  lemma SignatureParts(table: seq<Entry>, s: State, f: Bytes)
    requires InSignature(table, s, f)
    ensures |f| >= 6 && BodyLength(f) + 2 <= |f| < BodyLength(f) + 15 && SignedFrame(f)
    ensures FrameLength(f) == BodyLength(f) + 15 && s.signatureWait == 15 - (|f| - BodyLength(f))
    ensures s.phase == if CrcOk(table, f) then SignatureWait else SignatureWaitBadCrc
  {
    hide Value, Signed, PayloadFilled, HeaderTold, CrcOk;
  }

  lemma SignatureIf(table: seq<Entry>, s: State, g: Bytes)
    requires |g| >= 6 && BodyLength(g) + 2 <= |g| < BodyLength(g) + 15 && SignedFrame(g)
    requires HeaderTold(s.m, g) && PayloadFilled(table, s.m, g)
    requires s.m.ck0 == g[BodyLength(g)] && s.m.ck1 == g[BodyLength(g) + 1]
    requires s.phase == if CrcOk(table, g) then SignatureWait else SignatureWaitBadCrc
    requires s.signatureWait == 15 - (|g| - BodyLength(g))
    requires s.m.signature[..|g| - BodyLength(g) - 2] == g[BodyLength(g) + 2..]
    ensures InSignature(table, s, g)
  {
    hide Value, Signed, PayloadFilled, HeaderTold, CrcOk;
  }

  lemma SignatureGoesOn(table: seq<Entry>, s: State, f: Bytes, c: byte)
    requires InSignature(table, s, f) && |f| + 1 < FrameLength(f)
    ensures var o := Step(table, s, c);
      o.framing == Incomplete && o.delivered == None && InSignature(table, o.state, f + [c])
  {
    SignatureParts(table, s, f);
    AtSignature(table, s, f, c);
    FrameStays(f, c);
    CrcOkStays(table, f, c);
    SignatureTold(table, s, f, c);
    assert BodyLength(f + [c]) == BodyLength(f);
    hide PayloadFilled, HeaderTold, Step, CrcOk, Poke, HandOut, InSignature, BodyLength, SignedFrame, FrameLength;
    SignatureIf(table, Step(table, s, c).state, f + [c]);
  }

  /** The last byte of the signature hands the frame out. */
  lemma SignatureDone(table: seq<Entry>, s: State, f: Bytes, c: byte)
    requires InSignature(table, s, f) && |f| + 1 == FrameLength(f)
    ensures (var o, g := Step(table, s, c), f + [c];
      && Tracks(table, o.state, []) && o.framing != Incomplete
      && (o.framing == FramingOk <==> CompleteFrame(table, g))
      && (o.framing == FramingOk ==> o.delivered.Some? && MessageOf(table, o.delivered.value, g)))
  {
    AtSignature(table, s, f, c);
    SignatureParts(table, s, f);
    FrameStays(f, c);
    CrcOkStays(table, f, c);
    SignatureTold(table, s, f, c);
    CompleteIf(table, f + [c]);
    assert BodyLength(f + [c]) == BodyLength(f);
    hide Value, Signed, NotUnderstood, Lookup, PayloadFilled, HeaderTold, FrameCrc, Step, CrcOk, CompleteFrame,
      FromWire, IsV1, FrameId, BodyLength, FrameLength, HeaderLength, PayloadLength, Poke, InBody, InCrc, InSignature;
    var m := WithSignature(s, c);
    assert m.signature[..13] == m.signature;
  }

  /** A byte of the signature; the last one ends a signed frame. */
  lemma TookSignature(table: seq<Entry>, s: State, f: Bytes, c: byte)
    requires InSignature(table, s, f)
    ensures (var o, g := Step(table, s, c), f + [c];
      if |g| < FrameLength(f) then o.framing == Incomplete && o.delivered == None && InSignature(table, o.state, g)
      else
        && Tracks(table, o.state, []) && o.framing != Incomplete
        && (o.framing == FramingOk <==> CompleteFrame(table, g))
        && (o.framing == FramingOk ==> o.delivered.Some? && MessageOf(table, o.delivered.value, g)))
  {
    SignatureParts(table, s, f);
    hide InSignature, FrameLength, Step, Tracks, CompleteFrame, MessageOf;
    if |f| + 1 < FrameLength(f) { SignatureGoesOn(table, s, f, c); } else { SignatureDone(table, s, f, c); }
  }

  // ---------------------------------------------------------------- any run of bytes

  predicate AtRest(s: State) { s.phase == Idle || s.phase == Uninit }

  /** The bytes of the frame under way after one more byte. */
  function Underway(s: State, f: Bytes, c: byte): Bytes { if AtRest(s) then [] else f + [c] }

  /** The state keeps track of the frame under way; a good frame is handed out exactly when a complete frame ends. */
  predicate Follows(table: seq<Entry>, o: Outcome, f: Bytes, c: byte) {
    && Tracks(table, o.state, Underway(o.state, f, c))
    && (o.framing == FramingOk <==> CompleteFrame(table, f + [c]))
    && (o.framing == FramingOk ==> o.delivered.Some? && MessageOf(table, o.delivered.value, f + [c]) && AtRest(o.state))
  }

  /** The frame is not over yet. */
  predicate GoesOn(table: seq<Entry>, o: Outcome, f: Bytes, c: byte) {
    o.framing == Incomplete && o.delivered == None && !AtRest(o.state) && Tracks(table, o.state, f + [c])
  }

  lemma NotYet(table: seq<Entry>, g: Bytes)
    requires |g| < 6 || |g| <= BodyLength(g) + 1
    ensures !CompleteFrame(table, g)
  {
    hide Value, Signed, NotUnderstood, Lookup, FrameCrc;
  }

  lemma StartByte(table: seq<Entry>, s: State, c: byte)
    requires Tracks(table, s, [])
    ensures Follows(table, Step(table, s, c), [], c)
    ensures c in {STX, STX_MAVLINK1} ==> GoesOn(table, Step(table, s, c), [], c)
  {
    Started(table, s, c);
    NotYet(table, [c]);
    assert [] + [c] == [c];
    hide CompleteFrame, MessageOf, InBody, InCrc, InSignature;
  }

  lemma BodyPhases(v1: bool, len: nat, n: nat)
    requires n >= 1
    ensures BodyPhase(v1, len, n) != Idle && BodyPhase(v1, len, n) != Uninit
  {
  }

  lemma InBodyByte(table: seq<Entry>, o: Outcome, f: Bytes, c: byte)
    requires f != [] && o.framing == Incomplete && o.delivered == None && InBody(o.state, f + [c])
    ensures Follows(table, o, f, c) && GoesOn(table, o, f, c)
  {
    var g := f + [c];
    BodyPhases(IsV1(g), o.state.m.len, |g|);
    assert o.state.phase == BodyPhase(IsV1(g), o.state.m.len, |g|);
    assert |g| <= BodyLength(g);
    hide CompleteFrame, MessageOf, InBody, InCrc, InSignature, BodyPhase;
    NotYet(table, g);
  }

  /** A byte of header or payload. */
  lemma BodyByte(table: seq<Entry>, s: State, f: Bytes, c: byte)
    requires TableOk(table) && InBody(s, f) && (|f| < 6 || |f| < BodyLength(f))
    ensures Follows(table, Step(table, s, c), f, c)
    ensures !(|f| == 2 && !IsV1(f) && NotUnderstood(c)) ==> GoesOn(table, Step(table, s, c), f, c)
  {
    BodySizes(s, f);
    hide InBody, Step, Follows, GoesOn, NotUnderstood, Value, TableOk;
    var o := Step(table, s, c);
    if |f| == 1 {
      TookLength(table, s, f, c);
    } else if HeaderLength(f) <= |f| {
      TookPayload(table, s, f, c);
    } else if IsV1(f) {
      TookHeaderV1(table, s, f, c);
    } else if |f| < 4 {
      TookFlags(table, s, f, c);
      if |f| == 2 && NotUnderstood(c) { RejectedByte(table, s, f, c); }
    } else if |f| < 7 {
      TookSender(table, s, f, c);
    } else {
      TookId(table, s, f, c);
    }
    if InBody(o.state, f + [c]) && o.framing == Incomplete && o.delivered == None { InBodyByte(table, o, f, c); }
  }

  lemma BodySizes(s: State, f: Bytes)
    requires InBody(s, f)
    ensures f != [] && (HeaderLength(f) <= |f| ==> |f| >= 6)
  {
  }

  lemma RejectedByte(table: seq<Entry>, s: State, f: Bytes, c: byte)
    requires |f| == 2
    requires Step(table, s, c).framing == Incomplete && Tracks(table, Step(table, s, c).state, [])
    ensures Follows(table, Step(table, s, c), f, c)
  {
    NotYet(table, f + [c]);
    hide CompleteFrame, MessageOf, InBody, InCrc, InSignature, Step;
  }

  /** The first byte of the CRC. */
  lemma Crc1Byte(table: seq<Entry>, s: State, f: Bytes, c: byte)
    requires TableOk(table) && InBody(s, f) && |f| >= 6 && |f| == BodyLength(f)
    ensures Follows(table, Step(table, s, c), f, c) && GoesOn(table, Step(table, s, c), f, c)
  {
    TookCrc1(table, s, f, c);
    var o, g := Step(table, s, c), f + [c];
    assert InCrc(table, o.state, g);
    assert |g| == BodyLength(g) + 1 && !AtRest(o.state);
    NotYet(table, g);
    hide CompleteFrame, MessageOf, InBody, InCrc, InSignature, Step;
  }

  /** The second byte of the CRC. */
  lemma Crc2Byte(table: seq<Entry>, s: State, f: Bytes, c: byte)
    requires InCrc(table, s, f)
    ensures Follows(table, Step(table, s, c), f, c)
    ensures SignedFrame(f) && CrcOk(table, f + [c]) ==> GoesOn(table, Step(table, s, c), f, c)
  {
    TookCrc2(table, s, f, c);
    FrameStays(f, c);
    var o, g := Step(table, s, c), f + [c];
    if SignedFrame(f) {
      SignedLonger(table, g);
      assert !AtRest(o.state) && Tracks(table, o.state, g);
    }
    hide CompleteFrame, MessageOf, InBody, InCrc, InSignature, Step, CrcOk;
  }

  lemma SignedLonger(table: seq<Entry>, g: Bytes)
    requires |g| >= 6 && SignedFrame(g) && |g| < BodyLength(g) + 15
    ensures !CompleteFrame(table, g)
  {
    hide Value, Signed, NotUnderstood, Lookup, FrameCrc;
  }

  /** A byte of the signature. */
  lemma SignatureByte(table: seq<Entry>, s: State, f: Bytes, c: byte)
    requires InSignature(table, s, f)
    ensures Follows(table, Step(table, s, c), f, c)
    ensures |f| + 1 < FrameLength(f) ==> GoesOn(table, Step(table, s, c), f, c)
  {
    TookSignature(table, s, f, c);
    FrameStays(f, c);
    var o, g := Step(table, s, c), f + [c];
    if |g| < FrameLength(f) {
      SignedLonger(table, g);
      assert !AtRest(o.state) && Tracks(table, o.state, g);
    }
    hide CompleteFrame, MessageOf, InBody, InCrc, InSignature, Step, CrcOk;
  }

  /** One byte of any stream. */
  lemma AnyByte(table: seq<Entry>, s: State, f: Bytes, c: byte)
    requires TableOk(table) && Tracks(table, s, f)
    ensures Follows(table, Step(table, s, c), f, c)
  {
    hide Follows, GoesOn, InCrc, InSignature, Step, TableOk, NotUnderstood, Value, HeaderTold;
    if f == [] {
      StartByte(table, s, c);
    } else if InBody(s, f) {
      if |f| < 6 || |f| < BodyLength(f) { BodyByte(table, s, f, c); } else { Crc1Byte(table, s, f, c); }
    } else if InCrc(table, s, f) {
      Crc2Byte(table, s, f, c);
    } else {
      SignatureByte(table, s, f, c);
    }
  }
}
