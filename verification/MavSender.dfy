/** Packing a message in place and serializing it; what is sent is a complete frame that gives the payload back. */
module MavSender {
  import opened Words
  import opened Outcomes
  import opened Octets
  import opened MavCrc
  import opened MavMessages
  import opened MavParser
  import opened MavStream

  // ---------------------------------------------------------------- trimming

  /** The length without trailing zero bytes, but at least one byte of a payload that is not empty. */
  function TrimLength(payload: Bytes, length: nat): (r: nat)
    requires length <= |payload|
    ensures r <= length
    ensures forall i :: r <= i < length ==> payload[i] == 0
    ensures r > 1 ==> payload[r - 1] != 0
    ensures length > 0 ==> r > 0
  {
    if length > 1 && payload[length - 1] == 0 then TrimLength(payload, length - 1) else length
  }

  /** Trimming what is trimmed changes nothing, whatever follows it in the buffer. */
  lemma TrimTwice(payload: Bytes, other: Bytes, length: nat)
    requires length <= |payload| && TrimLength(payload, length) <= |other|
    requires other[..TrimLength(payload, length)] == payload[..TrimLength(payload, length)]
    ensures TrimLength(other, TrimLength(payload, length)) == TrimLength(payload, length)
  {
    var r := TrimLength(payload, length);
    if r > 1 { assert other[..r][r - 1] == payload[..r][r - 1]; }
  }

  // ---------------------------------------------------------------- what is sent

  function HeaderBytes(v1: bool, len: nat, seqno: byte, sysid: byte, compid: byte, msgid: nat): (r: Bytes)
    requires len < 256
    ensures |r| == if v1 then 6 else 10
  {
    if v1 then [STX_MAVLINK1, AsByte(len), seqno, sysid, compid, IdByte(msgid, 0)]
    else [STX, AsByte(len), 0, 0, seqno, sysid, compid, IdByte(msgid, 0), IdByte(msgid, 1), IdByte(msgid, 2)]
  }

  function SentCrc(header: Bytes, payload: Bytes, crcExtra: byte): bv16
    requires header != []
  {
    Accumulate(crcExtra, Crc(header[1..] + payload))
  }

  function SentFrame(header: Bytes, payload: Bytes, crcExtra: byte): Bytes
    requires header != []
  {
    var crc := SentCrc(header, payload, crcExtra);
    header + payload + [LowByte(crc), HighByte(crc)]
  }

  /** A message that can be sent: its id fits the version, and its type is in the table with this extra byte. */
  predicate Sendable(table: seq<Entry>, v1: bool, msgid: nat, len: nat, crcExtra: byte) {
    && len < 256 && msgid < (if v1 then 256 else 0x100_0000)
    && Lookup(table, msgid).Some? && Lookup(table, msgid).value.crcExtra == crcExtra
  }

  lemma HeaderReads(v1: bool, len: nat, seqno: byte, sysid: byte, compid: byte, msgid: nat, rest: Bytes)
    requires len < 256 && msgid < (if v1 then 256 else 0x100_0000)
    ensures (var f := HeaderBytes(v1, len, seqno, sysid, compid, msgid) + rest;
      && IsV1(f) == v1 && HeaderLength(f) == |HeaderBytes(v1, len, seqno, sysid, compid, msgid)|
      && PayloadLength(f) == len && FrameId(f) == msgid && f[0] in {STX, STX_MAVLINK1}
      && (!v1 ==> f[2] == 0 && f[3] == 0) && !SignedFrame(f)
      && f[SeqAt(f)] == seqno && f[SeqAt(f) + 1] == sysid && f[SeqAt(f) + 2] == compid)
  {
    Markers();
    NoFlags();
    hide Value, AsByte, Signed;
    ValueOfByte(len);
    IdRoundTrip(msgid);
  }

  lemma Markers()
    ensures STX != STX_MAVLINK1
  {
  }

  lemma NoUnknownFlags()
    ensures !NotUnderstood(0)
  {
  }

  /** The parts of what is sent. */
  lemma SentParts(header: Bytes, payload: Bytes, crcExtra: byte)
    requires |header| >= 6 && |payload| == Value(header[1])
    requires (var f := header + (payload + [0, 0]); HeaderLength(f) == |header| && !SignedFrame(f))
    ensures (var f, crc := SentFrame(header, payload, crcExtra), SentCrc(header, payload, crcExtra);
      && BodyLength(f) == |header| + |payload| && |f| == FrameLength(f) && FrameCrc(f, crcExtra) == crc
      && f[BodyLength(f)] == LowByte(crc) && f[BodyLength(f) + 1] == HighByte(crc)
      && HeaderLength(f) == |header| && PayloadLength(f) == |payload| && f[HeaderLength(f)..BodyLength(f)] == payload
      && f == header + (payload + [LowByte(crc), HighByte(crc)]))
  {
    hide Accumulate, Crc, Value, Signed, LowByte, HighByte;
    var crc := SentCrc(header, payload, crcExtra);
    var f := SentFrame(header, payload, crcExtra);
    assert f[..|header|] == header && (header + (payload + [0, 0]))[..|header|] == header;
    assert f[1..|header| + |payload|] == header[1..] + payload;
  }

  /** What is sent is a complete frame. */
  lemma SentIsComplete(table: seq<Entry>, v1: bool, payload: Bytes, seqno: byte, sysid: byte, compid: byte, msgid: nat,
                       crcExtra: byte)
    requires Sendable(table, v1, msgid, |payload|, crcExtra)
    ensures CompleteFrame(table, SentFrame(HeaderBytes(v1, |payload|, seqno, sysid, compid, msgid), payload, crcExtra))
  {
    hide HeaderBytes, Accumulate, Crc, Value, Signed, NotUnderstood, LowByte, HighByte, Lookup, FrameCrc, FrameId,
      SentCrc, SentFrame, BodyLength, IsV1, SignedFrame, FrameLength;
    NoUnknownFlags();
    var header := HeaderBytes(v1, |payload|, seqno, sysid, compid, msgid);
    var crc := SentCrc(header, payload, crcExtra);
    HeaderReads(v1, |payload|, seqno, sysid, compid, msgid, payload + [0, 0]);
    SentParts(header, payload, crcExtra);
    HeaderReads(v1, |payload|, seqno, sysid, compid, msgid, payload + [LowByte(crc), HighByte(crc)]);
  }

  /** The message read from it has the same header, and the payload with zeros up to the longest its type can have. */
  lemma SentIsReceived(table: seq<Entry>, v1: bool, payload: Bytes, seqno: byte, sysid: byte, compid: byte, msgid: nat,
                       crcExtra: byte, m: Message)
    requires Sendable(table, v1, msgid, |payload|, crcExtra)
    requires MessageOf(table, m, SentFrame(HeaderBytes(v1, |payload|, seqno, sysid, compid, msgid), payload, crcExtra))
    ensures m.len == |payload| && m.seqno == seqno && m.sysid == sysid && m.compid == compid && m.msgid == msgid
    ensures m.incompatFlags == m.compatFlags == 0
    ensures m.checksum == SentCrc(HeaderBytes(v1, |payload|, seqno, sysid, compid, msgid), payload, crcExtra)
    ensures |m.payload| == BUFFER && m.payload[..|payload|] == payload
    ensures forall i :: |payload| <= i < Lookup(table, msgid).value.maxLength && i < BUFFER ==> m.payload[i] == 0
  {
    hide HeaderBytes, Accumulate, Crc, Value, Signed, NotUnderstood, LowByte, HighByte, Lookup, CompleteFrame, SentCrc,
      SentFrame, FrameCrc, BodyLength;
    var header := HeaderBytes(v1, |payload|, seqno, sysid, compid, msgid);
    var f, crc := SentFrame(header, payload, crcExtra), SentCrc(header, payload, crcExtra);
    HeaderReads(v1, |payload|, seqno, sysid, compid, msgid, payload + [0, 0]);
    SentParts(header, payload, crcExtra);
    HeaderReads(v1, |payload|, seqno, sysid, compid, msgid, payload + [LowByte(crc), HighByte(crc)]);
    ToldFields(table, m, f);
    ToldPayload(table, m, f, crcExtra);
  }

  lemma ToldFields(table: seq<Entry>, m: Message, f: Bytes)
    requires |f| >= 6 && |f| >= HeaderLength(f) && MessageOf(table, m, f)
    ensures m.len == PayloadLength(f) && m.msgid == FrameId(f)
    ensures m.seqno == f[SeqAt(f)] && m.sysid == f[SeqAt(f) + 1] && m.compid == f[SeqAt(f) + 2]
    ensures if IsV1(f) then m.incompatFlags == m.compatFlags == 0 else m.incompatFlags == f[2] && m.compatFlags == f[3]
  {
    hide Value, PayloadFilled, CompleteFrame, NotUnderstood;
  }

  lemma ToldPayload(table: seq<Entry>, m: Message, f: Bytes, crcExtra: byte)
    requires |f| >= 6 && |f| >= BodyLength(f) && MessageOf(table, m, f)
    requires Lookup(table, FrameId(f)).Some? && Lookup(table, FrameId(f)).value.crcExtra == crcExtra
    ensures m.checksum == FrameCrc(f, crcExtra) && |m.payload| == BUFFER
    ensures m.payload[..PayloadLength(f)] == f[HeaderLength(f)..BodyLength(f)]
    ensures forall i ::
              PayloadLength(f) <= i < Lookup(table, FrameId(f)).value.maxLength && i < BUFFER
              ==> m.payload[i] == 0
  {
    hide Value, HeaderTold, CompleteFrame, NotUnderstood, Lookup, FrameCrc;
  }

  // ---------------------------------------------------------------- from sender to receiver

  /** The payload a receiver has to see: what was meant to be sent, and zeros up to the longest its type can have. */
  predicate SamePayload(received: Bytes, original: Bytes, length: nat, maxLength: nat)
    requires length <= |original| && |received| == BUFFER
  {
    forall i :: 0 <= i < maxLength && i < BUFFER ==> received[i] == if i < length then original[i] else 0
  }

  /** Trimming by the sender and filling by the receiver undo each other: any MAVLink 2 message that is finalized,
      serialized and fed byte by byte into a parser at rest makes it report nothing before the last byte, and then the
      same header fields and the original payload. */
  lemma TrimAndFill(table: seq<Entry>, s: State, original: Bytes, length: nat, seqno: byte, sysid: byte, compid: byte,
                    msgid: nat, crcExtra: byte, k: nat)
    requires TableOk(table) && Ready(s) && length <= |original| && length < 256
    requires Sendable(table, false, msgid, TrimLength(original, length), crcExtra)
             && length <= Lookup(table, msgid).value.maxLength
    requires (var payload := original[..TrimLength(original, length)];
      k < |SentFrame(HeaderBytes(false, |payload|, seqno, sysid, compid, msgid), payload, crcExtra)|)
    ensures (var payload := original[..TrimLength(original, length)];
      var frame := SentFrame(HeaderBytes(false, |payload|, seqno, sysid, compid, msgid), payload, crcExtra);
      var o := Step(table, Feed(table, s, frame[..k]), frame[k]);
      if k + 1 < |frame| then o.framing == Incomplete && o.delivered == None
      else
        && o.framing == FramingOk && o.delivered.Some? && Ready(o.state)
        && (var m := o.delivered.value;
            && m.len == |payload| && m.seqno == seqno && m.sysid == sysid && m.compid == compid && m.msgid == msgid
            && m.incompatFlags == m.compatFlags == 0
            && m.checksum == SentCrc(HeaderBytes(false, |payload|, seqno, sysid, compid, msgid), payload, crcExtra)
            && |m.payload| == BUFFER && SamePayload(m.payload, original, length, Lookup(table, msgid).value.maxLength)))
  {
    hide HeaderBytes, SentFrame, SentCrc, Lookup, Step, Feed, Tracks, CompleteFrame, MessageOf, TableOk, Ready,
      Accumulate, TrimLength;
    var payload := original[..TrimLength(original, length)];
    var frame := SentFrame(HeaderBytes(false, |payload|, seqno, sysid, compid, msgid), payload, crcExtra);
    SentIsComplete(table, false, payload, seqno, sysid, compid, msgid, crcExtra);
    EveryFrameRead(table, s, frame, k);
    if k + 1 == |frame| {
      var m := Step(table, Feed(table, s, frame[..k]), frame[k]).delivered.value;
      SentIsReceived(table, false, payload, seqno, sysid, compid, msgid, crcExtra, m);
      Filled(m.payload, original, length, Lookup(table, msgid).value.maxLength);
    }
  }

  lemma Filled(received: Bytes, original: Bytes, length: nat, maxLength: nat)
    requires length <= |original| && length <= maxLength && |received| == BUFFER && length < 256
    requires (var n := TrimLength(original, length); received[..n] == original[..n])
    requires forall i :: TrimLength(original, length) <= i < maxLength && i < BUFFER ==> received[i] == 0
    ensures SamePayload(received, original, length, maxLength)
  {
    var n := TrimLength(original, length);
    forall i | 0 <= i < maxLength && i < BUFFER ensures received[i] == if i < length then original[i] else 0 {
      if i < n { assert received[..n][i] == original[..n][i]; }
    }
  }
}
