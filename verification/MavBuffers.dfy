/** The message buffer that packing and parsing work on in place. */
module MavBuffers {
  import opened Words
  import opened Outcomes
  import opened Octets
  import opened MavCrc
  import opened MavMessages
  import opened MavParser
  import opened MavStream
  import opened MavSender

  class MessageBuffer {
    var checksum: bv16
    var magic: byte
    var len: nat
    var incompatFlags: byte
    var compatFlags: byte
    var seqno: byte
    var sysid: byte
    var compid: byte
    var msgid: nat
    var ck0: byte
    var ck1: byte
    const payload: array<byte>
    const signature: array<byte>

    ghost predicate Valid()
      reads this
    {
      payload.Length == BUFFER && signature.Length == SIGNATURE_LENGTH && payload != signature && len < 256
    }

    /** A copy of the message, as `memcpy` makes one. */
    function Content(): Message
      reads this, payload, signature
    {
      Message(checksum, magic, len, incompatFlags, compatFlags, seqno, sysid, compid, msgid, payload[..], ck0, ck1,
              signature[..])
    }

    constructor ()
      ensures Valid() && fresh(payload) && fresh(signature)
    {
      checksum, magic, len, incompatFlags, compatFlags, seqno, sysid, compid, msgid, ck0, ck1 :=
          0, 0, 0, 0, 0, 0, 0, 0, 0, 0, 0;
      payload := new byte[BUFFER];
      signature := new byte[SIGNATURE_LENGTH];
    }

    // -------------------------------------------------------------- sending

    /** `_mav_trim_payload` */
    method TrimPayload(length: nat) returns (trimmed: nat)
      requires length <= payload.Length
      ensures trimmed == TrimLength(payload[..], length)
    {
      trimmed := length;
      while trimmed > 1 && payload[trimmed - 1] == 0
        invariant trimmed <= length && TrimLength(payload[..], trimmed) == TrimLength(payload[..], length)
      {
        trimmed := trimmed - 1;
      }
    }

    /** The header in the order it is sent. */
    method PutHeader(buf: array<byte>, v1: bool, length: nat)
      requires Valid() && buf.Length >= 10 && buf != payload && buf != signature && length < 256
      requires magic == (if v1 then STX_MAVLINK1 else STX) && incompatFlags == 0 && compatFlags == 0
      modifies buf
      ensures buf[..if v1 then 6 else 10] == HeaderBytes(v1, length, seqno, sysid, compid, msgid)
    {
      hide AsByte, IdByte;
      buf[0] := magic;
      buf[1] := AsByte(length);
      if v1 {
        buf[2] := seqno;
        buf[3] := sysid;
        buf[4] := compid;
        buf[5] := IdByte(msgid, 0);
      } else {
        buf[2] := incompatFlags;
        buf[3] := compatFlags;
        buf[4] := seqno;
        buf[5] := sysid;
        buf[6] := compid;
        buf[7] := IdByte(msgid, 0);
        buf[8] := IdByte(msgid, 1);
        buf[9] := IdByte(msgid, 2);
      }
    }

    /** The CRC over header, payload and the extra byte. */
    method ComputeCrc(v1: bool, crcExtra: byte) returns (sum: bv16)
      requires Valid() && magic == (if v1 then STX_MAVLINK1 else STX) && incompatFlags == 0 && compatFlags == 0
      ensures sum == SentCrc(HeaderBytes(v1, len, seqno, sysid, compid, msgid), payload[..len], crcExtra)
    {
      hide Accumulate, HeaderBytes, Crc, AccumulateAll;
      var headerLen := if v1 then 6 else 10;
      var buf := new byte[10];
      PutHeader(buf, v1, len);
      ghost var header := buf[..headerLen];
      assert buf[1..headerLen] == header[1..];
      sum := Calculate(buf, 1, headerLen - 1);
      sum := AccumulateBuffer(sum, payload, 0, len);
      assert payload[0..len] == payload[..len];
      CrcOfBoth(header[1..], payload[..len]);
      sum := Accumulate(crcExtra, sum);
    }

    /** `mavlink_finalize_message_buffer` without signing. The two bytes of the CRC go right behind the payload that is
        sent, over whatever was trimmed. */
    method Finalize(systemId: byte, componentId: byte, v1: bool, txSeq: byte, minLength: nat, length: nat,
                    crcExtra: byte)
      returns (total: nat, nextSeq: byte)
      requires Valid() && minLength < 256 && length < 256
      modifies this, payload
      ensures Valid() && len == if v1 then minLength else TrimLength(old(payload[..]), length)
      ensures sysid == systemId && compid == componentId && seqno == txSeq && msgid == old(msgid)
              && nextSeq == txSeq + 1
      ensures magic == (if v1 then STX_MAVLINK1 else STX) && incompatFlags == 0 && compatFlags == 0
      ensures payload[..len] == old(payload[..])[..len]
      ensures checksum == SentCrc(HeaderBytes(v1, len, txSeq, systemId, componentId, msgid), payload[..len], crcExtra)
      ensures payload[len] == LowByte(checksum) && payload[len + 1] == HighByte(checksum)
      ensures total == len + (if v1 then 6 else 10) + 2
    {
      hide TrimLength, Accumulate, LowByte, HighByte, HeaderBytes, Crc, SentCrc;
      magic := if v1 then STX_MAVLINK1 else STX;
      var trimmed := TrimPayload(length);
      len := if v1 then minLength else trimmed;
      sysid, compid, incompatFlags, compatFlags, seqno := systemId, componentId, 0, 0, txSeq;
      nextSeq := txSeq + 1;
      checksum := ComputeCrc(v1, crcExtra);
      payload[len] := LowByte(checksum);
      payload[len + 1] := HighByte(checksum);
      total := len + (if v1 then 6 else 10) + 2;
    }

    /** `mavlink_msg_to_send_buffer` for a message that is not signed. */
    method ToSendBuffer(buf: array<byte>) returns (total: nat)
      requires Valid() && buf.Length >= 10 + 255 + 2 && buf != payload && buf != signature
      requires magic in {STX, STX_MAVLINK1} && incompatFlags == 0 && compatFlags == 0
      modifies buf
      ensures var v1 := magic == STX_MAVLINK1;
        var length := if v1 then len else TrimLength(payload[..], len);
        && total == (if v1 then 6 else 10) + length + 2
        && buf[..total] == HeaderBytes(v1, length, seqno, sysid, compid, msgid) + payload[..length]
                           + [LowByte(checksum), HighByte(checksum)]
    {
      hide TrimLength, LowByte, HighByte, HeaderBytes;
      var v1 := magic == STX_MAVLINK1;
      var length := len;
      if !v1 {
        length := TrimPayload(length);
      }
      var headerLen := if v1 then 6 else 10;
      PutHeader(buf, v1, length);
      ghost var header := buf[..headerLen];
      for i := 0 to length
        invariant buf[..headerLen + i] == header + payload[..i]
      {
        buf[headerLen + i] := payload[i];
        assert buf[..headerLen + i + 1] == buf[..headerLen + i] + [payload[i]];
      }
      var ck := headerLen + length;
      buf[ck] := LowByte(checksum);
      buf[ck + 1] := HighByte(checksum);
      total := headerLen + length + 2;
      assert buf[..total] == buf[..ck] + [buf[ck], buf[ck + 1]];
    }
  }

  lemma CrcOfBoth(a: Bytes, b: Bytes)
    ensures AccumulateAll(b, Crc(a)) == Crc(a + b)
  {
    AccumulateBoth(a, b, CRC_INIT);
  }

  /** Finalizing and serializing a message puts one frame into the buffer: that of the payload without its trailing
      zeros. */
  method Pack(msg: MessageBuffer, buf: array<byte>, systemId: byte, componentId: byte, v1: bool, txSeq: byte,
              minLength: nat, length: nat, crcExtra: byte) returns (total: nat)
    requires msg.Valid() && buf.Length >= 10 + 255 + 2 && buf != msg.payload && buf != msg.signature
    requires minLength < 256 && length < 256
    modifies msg, msg.payload, buf
    ensures var payload := old(msg.payload[..])[..if v1 then minLength else TrimLength(old(msg.payload[..]), length)];
      total <= buf.Length
      && buf[..total] == SentFrame(HeaderBytes(v1, |payload|, txSeq, systemId, componentId, old(msg.msgid)), payload,
                                   crcExtra)
  {
    hide TrimLength, Accumulate, LowByte, HighByte, HeaderBytes, Crc, SentCrc;
    ghost var original, id := msg.payload[..], msg.msgid;
    var ignored, next := msg.Finalize(systemId, componentId, v1, txSeq, minLength, length, crcExtra);
    VersionMarks(v1);
    if !v1 { TrimTwice(original, msg.payload[..], length); }
    total := msg.ToSendBuffer(buf);
  }

  lemma VersionMarks(v1: bool)
    ensures ((if v1 then STX_MAVLINK1 else STX) == STX_MAVLINK1) == v1
  {
    Markers();
  }

  // ---------------------------------------------------------------- receiving

  /** A channel's receive buffer and parsing status. */
  class Receiver {
    const table: seq<Entry>
    const rxmsg: MessageBuffer
    var phase: Phase
    var packetIdx: nat
    var signatureWait: nat
    var inMavlink1: bool

    function View(): State
      reads this, rxmsg, rxmsg.payload, rxmsg.signature
    {
      State(rxmsg.Content(), phase, packetIdx, signatureWait, inMavlink1)
    }

    /** The state is one that some bytes lead to. */
    ghost predicate Valid()
      reads this, rxmsg, rxmsg.payload, rxmsg.signature
    {
      && TableOk(table) && rxmsg.Valid() && (exists f :: Tracks(table, View(), f))
    }

    constructor (messageTypes: seq<Entry>)
      requires TableOk(messageTypes)
      ensures Valid() && table == messageTypes && Ready(View()) && fresh(rxmsg) && fresh(rxmsg.payload)
              && fresh(rxmsg.signature)
    {
      table := messageTypes;
      rxmsg := new MessageBuffer();
      phase, packetIdx, signatureWait, inMavlink1 := Uninit, 0, 0, false;
      new;
      assert Tracks(table, View(), []);
    }

    method UpdateChecksum(c: byte)
      modifies rxmsg`checksum
      ensures rxmsg.checksum == Accumulate(c, old(rxmsg.checksum))
    {
      rxmsg.checksum := Accumulate(c, rxmsg.checksum);
    }

    method StartFrame(c: byte)
      requires rxmsg.Valid()
      modifies `phase, `inMavlink1, rxmsg`len, rxmsg`magic, rxmsg`checksum
      ensures rxmsg.Valid() && View() == Start(old(View()), c).state
    {
      if c == STX {
        phase := GotStx;
        rxmsg.len := 0;
        rxmsg.magic := c;
        inMavlink1 := false;
        rxmsg.checksum := CRC_INIT;
        Markers();
      } else if c == STX_MAVLINK1 {
        phase := GotStx;
        rxmsg.len := 0;
        rxmsg.magic := c;
        inMavlink1 := true;
        rxmsg.checksum := CRC_INIT;
      }
    }

    method GetLength(c: byte)
      requires rxmsg.Valid()
      modifies `phase, `packetIdx, rxmsg`len, rxmsg`incompatFlags, rxmsg`compatFlags, rxmsg`checksum
      ensures rxmsg.Valid() && View() == TakeLength(old(View()), c).state
    {
      hide Accumulate, Value;
      rxmsg.len := Value(c);
      packetIdx := 0;
      UpdateChecksum(c);
      if inMavlink1 {
        rxmsg.incompatFlags := 0;
        rxmsg.compatFlags := 0;
        phase := GotCompatFlags;
      } else {
        phase := GotLength;
      }
    }

    method GetIncompatFlags(c: byte)
      requires rxmsg.Valid()
      modifies `phase, rxmsg`incompatFlags, rxmsg`checksum
      ensures rxmsg.Valid() && View() == TakeIncompatFlags(old(View()), c).state
    {
      hide Accumulate, NotUnderstood;
      rxmsg.incompatFlags := c;
      if NotUnderstood(c) {
        phase := Idle;
      } else {
        UpdateChecksum(c);
        phase := GotIncompatFlags;
      }
    }

    method GetId(c: byte, weight: nat, next: Phase)
      requires rxmsg.Valid()
      modifies `phase, rxmsg`msgid, rxmsg`checksum
      ensures rxmsg.Valid() && View() == TakeId(old(View()), c, weight, next).state
    {
      hide Accumulate, Value;
      rxmsg.msgid := rxmsg.msgid + weight * Value(c);
      UpdateChecksum(c);
      phase := next;
    }

    method GetPayload(c: byte)
      requires rxmsg.Valid() && packetIdx < BUFFER && phase == GotMsgid3
      modifies `phase, `packetIdx, rxmsg`checksum, rxmsg.payload
      ensures rxmsg.Valid() && View() == TakePayload(old(View()), c).state
    {
      hide Accumulate;
      ghost var before := rxmsg.payload[..];
      rxmsg.payload[packetIdx] := c;
      assert rxmsg.payload[..] == before[packetIdx := c];
      packetIdx := packetIdx + 1;
      UpdateChecksum(c);
      if packetIdx == rxmsg.len {
        phase := MavParser.GotPayload;
      }
    }

    /** `memset` of the rest of the payload. */
    method ZeroPayload(from: nat, to: nat)
      requires rxmsg.Valid() && from <= to <= BUFFER
      modifies rxmsg.payload
      ensures rxmsg.payload[..] == ZeroFill(old(rxmsg.payload[..]), from, to)
    {
      for i := from to to
        invariant ZeroFill(rxmsg.payload[..], i, to) == ZeroFill(old(rxmsg.payload[..]), from, to)
      {
        ghost var before := rxmsg.payload[..];
        rxmsg.payload[i] := 0;
        assert rxmsg.payload[..] == before[i := 0];
      }
    }

    method GetCrc1(c: byte)
      requires TableOk(table) && rxmsg.Valid()
      modifies `phase, rxmsg`checksum, rxmsg`ck0, rxmsg.payload
      ensures rxmsg.Valid() && View() == TakeCrc1(table, old(View()), c).state
    {
      hide Accumulate, LowByte, Lookup, ZeroFill, Sorted;
      var e := GetMsgEntry(table, rxmsg.msgid);
      if e.None? {
        phase := GotBadCrc1;
        rxmsg.ck0 := c;
      } else {
        EntryLengths(table, rxmsg.msgid);
        UpdateChecksum(e.value.crcExtra);
        phase := if c != LowByte(rxmsg.checksum) then GotBadCrc1 else GotCrc1;
        rxmsg.ck0 := c;
        if packetIdx < e.value.maxLength {
          ZeroPayload(packetIdx, e.value.maxLength);
        } else {
          NoZeros(rxmsg.payload[..], packetIdx, e.value.maxLength);
        }
      }
    }

    method GetCrc2(c: byte) returns (framing: Framing, delivered: Option<Message>)
      requires rxmsg.Valid()
      modifies `phase, `signatureWait, rxmsg`ck1
      ensures rxmsg.Valid()
      ensures Outcome(View(), framing, delivered) == TakeCrc2(old(View()), c)
    {
      hide HighByte, Signed, FromWire;
      framing := if phase == GotBadCrc1 || c != HighByte(rxmsg.checksum) then BadCrc else FramingOk;
      rxmsg.ck1 := c;
      delivered := None;
      if Signed(rxmsg.incompatFlags) {
        if framing == BadCrc {
          phase := SignatureWaitBadCrc;
        } else {
          phase := SignatureWait;
          framing := Incomplete;
        }
        signatureWait := SIGNATURE_LENGTH;
      } else {
        phase := Idle;
        delivered := Some(HandOut(rxmsg.Content(), framing == BadCrc));
      }
    }

    method GetSignature(c: byte) returns (framing: Framing, delivered: Option<Message>)
      requires rxmsg.Valid() && 0 < signatureWait <= SIGNATURE_LENGTH
      modifies `phase, `signatureWait, rxmsg.signature
      ensures rxmsg.Valid()
      ensures Outcome(View(), framing, delivered) == TakeSignature(old(View()), c)
    {
      hide FromWire;
      ghost var before := rxmsg.signature[..];
      rxmsg.signature[SIGNATURE_LENGTH - signatureWait] := c;
      assert rxmsg.signature[..] == before[SIGNATURE_LENGTH - signatureWait := c];
      signatureWait := signatureWait - 1;
      framing, delivered := Incomplete, None;
      if signatureWait == 0 {
        framing := if phase == SignatureWaitBadCrc then BadCrc else FramingOk;
        phase := Idle;
        delivered := Some(HandOut(rxmsg.Content(), framing == BadCrc));
      }
    }

    /** A byte that only goes into the header and the checksum. */
    method GetHeaderByte(c: byte)
      requires rxmsg.Valid() && phase in {GotIncompatFlags, GotCompatFlags, GotSeq, GotSysid, GotCompid}
      modifies `phase, rxmsg`compatFlags, rxmsg`seqno, rxmsg`sysid, rxmsg`compid, rxmsg`msgid, rxmsg`checksum
      ensures rxmsg.Valid() && View() == Step(table, old(View()), c).state
    {
      hide Accumulate, Value, Start, TakeLength, TakeIncompatFlags, TakeId, TakePayload, TakeCrc1, TakeCrc2,
        TakeSignature;
      UpdateChecksum(c);
      if phase == GotIncompatFlags {
        rxmsg.compatFlags := c;
        phase := GotCompatFlags;
      } else if phase == GotCompatFlags {
        rxmsg.seqno := c;
        phase := GotSeq;
      } else if phase == GotSeq {
        rxmsg.sysid := c;
        phase := GotSysid;
      } else if phase == GotSysid {
        rxmsg.compid := c;
        phase := GotCompid;
      } else {
        rxmsg.msgid := Value(c);
        phase := if !inMavlink1 then GotMsgid1 else if rxmsg.len > 0 then GotMsgid3 else MavParser.GotPayload;
      }
    }

    /** `mavlink_frame_char_buffer`, for a channel without signing keys. */
    method FrameChar(c: byte) returns (framing: Framing, delivered: Option<Message>)
      requires Valid()
      modifies this, rxmsg, rxmsg.payload, rxmsg.signature
      ensures Valid() && Outcome(View(), framing, delivered) == Step(table, old(View()), c)
    {
      hide Tracks, Start, TakeLength, TakeIncompatFlags, TakeId, TakePayload, TakeCrc1, TakeCrc2, TakeSignature,
        TableOk, Accumulate, Value;
      ghost var s := View();
      ghost var f :| Tracks(table, s, f);
      Bounds(table, s, f);
      QuietSteps(table, s, c);
      framing, delivered := Incomplete, None;
      if phase == Uninit || phase == Idle {
        StartFrame(c);
      } else if phase == GotStx {
        GetLength(c);
      } else if phase == MavParser.GotLength {
        GetIncompatFlags(c);
      } else if phase in {GotIncompatFlags, GotCompatFlags, GotSeq, GotSysid, GotCompid} {
        GetHeaderByte(c);
      } else if phase == GotMsgid1 {
        GetId(c, 0x100, GotMsgid2);
      } else if phase == GotMsgid2 {
        GetId(c, 0x1_0000, if rxmsg.len > 0 then GotMsgid3 else MavParser.GotPayload);
      } else if phase == GotMsgid3 {
        GetPayload(c);
      } else if phase == MavParser.GotPayload {
        GetCrc1(c);
      } else if phase == GotCrc1 || phase == GotBadCrc1 {
        framing, delivered := GetCrc2(c);
      } else {
        framing, delivered := GetSignature(c);
      }
      StillTracked(table, s, f, c);
    }
  }

  /** In the middle of a frame nothing is reported. */
  lemma QuietSteps(table: seq<Entry>, s: State, c: byte)
    ensures !(s.phase in {GotCrc1, GotBadCrc1, SignatureWait, SignatureWaitBadCrc}) ==>
      Step(table, s, c).framing == Incomplete && Step(table, s, c).delivered == None
  {
    hide Accumulate, Value, Lookup, NotUnderstood, ZeroFill;
  }

  lemma Bounds(table: seq<Entry>, s: State, f: Bytes)
    requires Tracks(table, s, f)
    ensures s.phase == GotMsgid3 ==> s.packetIdx < BUFFER
    ensures s.phase in {SignatureWait, SignatureWaitBadCrc} ==> 0 < s.signatureWait <= SIGNATURE_LENGTH
  {
    hide Value, Crc, CrcOk, FirstCrcOk, PayloadFilled, SignedFrame;
    if s.phase == GotMsgid3 { InPayload(table, s, f); }
  }

  lemma StillTracked(table: seq<Entry>, s: State, f: Bytes, c: byte)
    requires TableOk(table) && Tracks(table, s, f)
    ensures exists g :: Tracks(table, Step(table, s, c).state, g)
    ensures Step(table, s, c).state.m.Valid()
  {
    hide Tracks, CompleteFrame, MessageOf, TableOk, Step;
    AnyByte(table, s, f, c);
    TrackedValid(table, Step(table, s, c).state, Underway(Step(table, s, c).state, f, c));
  }

  lemma TrackedValid(table: seq<Entry>, s: State, f: Bytes)
    requires Tracks(table, s, f)
    ensures s.m.Valid()
  {
    hide Value, Crc, CrcOk, FirstCrcOk, PayloadFilled, SignedFrame, FlagsTold, IdsTold, IdTold;
  }

  lemma EntryLengths(table: seq<Entry>, msgid: nat)
    requires TableOk(table) && Lookup(table, msgid).Some?
    ensures Lookup(table, msgid).value.maxLength <= 255
  {
    LookupIn(table, msgid);
  }

  lemma NoZeros(bytes: Bytes, from: nat, to: nat)
    requires from >= to
    ensures ZeroFill(bytes, from, to) == bytes
  {
  }
}
