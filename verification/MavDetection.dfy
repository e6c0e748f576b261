/** What a frame looks like on the line, and which changes its checksum is sure to detect. */
module MavDetection {
  import opened Words
  import opened Octets
  import opened Outcomes
  import opened MavCrc
  import opened MavMessages
  import opened MavParser
  import opened MavStream

  /** A complete frame begins with one of the two markers, has only the flag that is understood, and is as long as its
      second byte and that flag say. */
  lemma FrameShape(table: seq<Entry>, f: Bytes)
    requires CompleteFrame(table, f)
    ensures |f| >= 8 && (f[0] == 0xFD || f[0] == 0xFE)
    ensures f[0] == 0xFE ==> |f| == 8 + Value(f[1])
    ensures f[0] == 0xFD ==> f[2] & 0xFE == 0 && |f| == 12 + Value(f[1]) + if f[2] & 1 == 1 then 13 else 0
  {
    hide Value, FrameCrc, Lookup, LowByte, HighByte, FrameId;
    FlagBit(f[2]);
  }

  lemma FlagBit(flags: bv8)
    ensures flags & 1 != 0 <==> flags & 1 == 1
  {
  }

  lemma ShrOfHigh(crc: bv16)
    ensures Shr8(crc) == HighByte(crc) as bv16
  {
  }

  lemma HalvesTell(c: bv16, d: bv16)
    requires LowByte(c) == LowByte(d) && HighByte(c) == HighByte(d)
    ensures c == d
  {
    hide LowByte, HighByte, Joined, Shr8;
    JoinedHalves(c);
    JoinedHalves(d);
    ShrOfHigh(c);
    ShrOfHigh(d);
  }

  /** A complete frame carries both halves of the checksum its type gives. */
  lemma CrcTold(table: seq<Entry>, f: Bytes)
    requires CompleteFrame(table, f)
    ensures |f| >= 8 && |f| >= BodyLength(f) + 2 && BodyLength(f) >= HeaderLength(f) >= 6
            && Lookup(table, FrameId(f)).Some?
    ensures (var crc := FrameCrc(f, Lookup(table, FrameId(f)).value.crcExtra);
             f[BodyLength(f)] == LowByte(crc) && f[BodyLength(f) + 1] == HighByte(crc))
  {
    hide Value, Lookup, LowByte, HighByte, FrameId, FrameCrc, Signed, NotUnderstood;
  }

  /** A frame of another dialect, whose type has another extra byte there, is not taken. */
  lemma OtherDialect(table: seq<Entry>, other: seq<Entry>, f: Bytes)
    requires CompleteFrame(table, f) && Lookup(other, FrameId(f)).Some?
    requires Lookup(other, FrameId(f)).value.crcExtra != Lookup(table, FrameId(f)).value.crcExtra
    ensures !CompleteFrame(other, f)
  {
    hide CompleteFrame, Value, Lookup, LowByte, HighByte, FrameId, Accumulate, BodyLength, Crc;
    CrcTold(table, f);
    var a, b := Lookup(table, FrameId(f)).value.crcExtra, Lookup(other, FrameId(f)).value.crcExtra;
    OtherByteDiffers(a, b, Crc(f[1..BodyLength(f)]));
    if CompleteFrame(other, f) { CrcTold(other, f); }
  }

  lemma ExtraLast(bytes: Bytes, extra: byte)
    ensures Crc(bytes + [extra]) == Accumulate(extra, Crc(bytes))
  {
    hide Accumulate;
    assert (bytes + [extra])[..|bytes|] == bytes;
  }

  /** The checksum goes over the body, and the extra byte behind it. */
  lemma FrameCrcIs(f: Bytes, extra: byte)
    requires |f| >= 6 && |f| >= BodyLength(f)
    ensures FrameCrc(f, extra) == Crc(f[1..BodyLength(f)] + [extra])
  {
    hide Value, Accumulate, Crc;
    ExtraLast(f[1..BodyLength(f)], extra);
  }

  lemma Joins(a: Bytes, b: Bytes, c: Bytes, extra: byte)
    ensures a + b + c + [extra] == a + b + (c + [extra])
  {
  }

  /** A change of the payload leaves where everything is, and what type the frame has. */
  lemma ChangedPayload(f: Bytes, i: nat, x: Bytes)
    requires |f| >= 6 && |f| >= BodyLength(f) && HeaderLength(f) <= i && i + |x| <= BodyLength(f)
    ensures (var g := f[..i] + x + f[i + |x|..];
             |g| == |f| && HeaderLength(g) == HeaderLength(f) && BodyLength(g) == BodyLength(f)
             && FrameId(g) == FrameId(f)
             && g[1..BodyLength(f)] == f[1..i] + x + f[i + |x|..BodyLength(f)]
             && f[1..BodyLength(f)] == f[1..i] + f[i..i + |x|] + f[i + |x|..BodyLength(f)]
             && g[BodyLength(f)..] == f[BodyLength(f)..])
  {
    hide Value, IdOf;
    var g := f[..i] + x + f[i + |x|..];
    assert forall k :: 0 <= k < i ==> g[k] == f[k];
    assert g[0] == f[0] && g[1] == f[1] && g[5] == f[5] && (!IsV1(f) ==> g[7] == f[7] && g[8] == f[8] && g[9] == f[9]);
    Slices(f, i, x, BodyLength(f));
  }

  lemma Slices(f: Bytes, i: nat, x: Bytes, n: nat)
    requires 1 <= i && i + |x| <= n <= |f|
    ensures (var g := f[..i] + x + f[i + |x|..];
             g[1..n] == f[1..i] + x + f[i + |x|..n] && g[n..] == f[n..]
             && f[1..n] == f[1..i] + f[i..i + |x|] + f[i + |x|..n])
  {
  }

  /** Any change of the payload within two adjacent bytes is noticed. */
  lemma DamageDetected(table: seq<Entry>, f: Bytes, i: nat, x: Bytes)
    requires CompleteFrame(table, f) && |x| <= 2 && HeaderLength(f) <= i && i + |x| <= BodyLength(f) <= |f|
    requires x != f[i..i + |x|]
    ensures !CompleteFrame(table, f[..i] + x + f[i + |x|..])
  {
    hide CompleteFrame, Value, Lookup, LowByte, HighByte, FrameCrc, FrameId, BodyLength, HeaderLength, Crc;
    CrcTold(table, f);
    var g, n, old' := f[..i] + x + f[i + |x|..], BodyLength(f), f[i..i + |x|];
    ChangedPayload(f, i, x);
    var extra := Lookup(table, FrameId(f)).value.crcExtra;
    var front, back := f[1..i], f[i + |x|..n] + [extra];
    Joins(front, old', f[i + |x|..n], extra);
    Joins(front, x, f[i + |x|..n], extra);
    FrameCrcIs(f, extra);
    FrameCrcIs(g, extra);
    BurstDetected(front, old', x, back);
    assert g[n] == g[n..][0] == f[n] && g[n + 1] == g[n..][1] == f[n + 1];
    if CompleteFrame(table, g) {
      CrcTold(table, g);
      HalvesTell(FrameCrc(f, extra), FrameCrc(g, extra));
    }
  }

  // ---------------------------------------------------------------- what the parser reports

  /** Bytes that are framed as a frame is, whatever their checksum and message type. */
  predicate Framed(f: Bytes) {
    && |f| >= 6 && f[0] in {STX, STX_MAVLINK1} && |f| == FrameLength(f) && (!IsV1(f) ==> !NotUnderstood(f[2]))
  }

  lemma CompleteIsFramed(table: seq<Entry>, f: Bytes)
    requires CompleteFrame(table, f)
    ensures Framed(f)
  {
    hide Value, NotUnderstood, Lookup, LowByte, HighByte, FrameCrc;
  }

  lemma FramedFront(frame: Bytes, k: nat)
    requires Framed(frame) && 0 < k < |frame|
    ensures (var f := frame[..k];
             f[0] in {STX, STX_MAVLINK1} && IsV1(f) == IsV1(frame)
             && (k >= 2 ==> BodyLength(f) == BodyLength(frame))
             && (k >= 6 ==> FrameLength(f) == |frame| && SignedFrame(f) == SignedFrame(frame))
             && (k == 2 && !IsV1(f) ==> !NotUnderstood(frame[2]))
             && frame[..k + 1] == f + [frame[k]])
  {
    hide Value, Signed, NotUnderstood;
    assert frame[..k][0] == frame[0];
    if k >= 3 { assert frame[..k][2] == frame[2]; }
  }

  /** In the middle of bytes that are framed the parser goes on and reports no good frame. */
  predicate Busy(table: seq<Entry>, o: Outcome, f: Bytes) {
    o.framing != FramingOk && o.delivered == None && !AtRest(o.state) && Tracks(table, o.state, f)
  }

  lemma OnwardsIsBusy(table: seq<Entry>, o: Outcome, f: Bytes, c: byte)
    requires GoesOn(table, o, f, c)
    ensures Busy(table, o, f + [c])
  {
    hide Tracks;
  }

  lemma SignatureIsBusy(table: seq<Entry>, o: Outcome, f: Bytes)
    requires o.framing != FramingOk && o.delivered == None && InSignature(table, o.state, f)
    ensures Busy(table, o, f)
  {
    hide CrcOk, HeaderTold, PayloadFilled;
  }

  lemma InsideFramed(table: seq<Entry>, s: State, frame: Bytes, k: nat)
    requires TableOk(table) && Framed(frame) && k + 1 < |frame| && Tracks(table, s, frame[..k])
    ensures Busy(table, Step(table, s, frame[k]), frame[..k + 1])
  {
    var f, c := frame[..k], frame[k];
    assert k > 0 ==> frame[..k + 1] == f + [c] by { if k > 0 { FramedFront(frame, k); } }
    assert k == 0 ==> f == [] && frame[..1] == [c] == f + [c] && c in {STX, STX_MAVLINK1};
    hide Busy, GoesOn, Follows, Step, TableOk, Framed, InCrc, InSignature, InBody;
    if k == 0 {
      StartByte(table, s, c);
      OnwardsIsBusy(table, Step(table, s, c), f, c);
    } else {
      FramedFront(frame, k);
      if InBody(s, f) {
        BodyOnwards(table, s, frame, k);
      } else if InCrc(table, s, f) {
        CrcSizes(table, s, f);
        TookCrc2(table, s, f, c);
        CrcOnwards(frame, k);
        SignatureIsBusy(table, Step(table, s, c), f + [c]);
      } else {
        SignatureSizes(table, s, f);
        SignatureByte(table, s, f, c);
        OnwardsIsBusy(table, Step(table, s, c), f, c);
      }
    }
  }

  /** Behind its checksum only a signed frame goes on. */
  lemma CrcOnwards(frame: Bytes, k: nat)
    requires Framed(frame) && 6 <= k && k + 1 < |frame| && k == BodyLength(frame[..k]) + 1
    ensures SignedFrame(frame[..k])
  {
    FramedFront(frame, k);
    hide Value, Signed, NotUnderstood;
  }

  lemma BodyOnwards(table: seq<Entry>, s: State, frame: Bytes, k: nat)
    requires TableOk(table) && Framed(frame) && 0 < k && k + 1 < |frame| && InBody(s, frame[..k])
    ensures Busy(table, Step(table, s, frame[k]), frame[..k] + [frame[k]])
  {
    hide Busy, GoesOn, Follows, Step, TableOk, Framed, Value, HeaderTold, Signed, NotUnderstood, Crc;
    var f, c := frame[..k], frame[k];
    FramedFront(frame, k);
    if |f| < 6 || |f| < BodyLength(f) { BodyByte(table, s, f, c); } else { Crc1Byte(table, s, f, c); }
    OnwardsIsBusy(table, Step(table, s, c), f, c);
  }

  /** The two bytes after the body. */
  predicate WireCrc(m: Message, f: Bytes) {
    |f| >= 6 && |f| >= BodyLength(f) + 2 && LowByte(m.checksum) == f[BodyLength(f)]
    && HighByte(m.checksum) == f[BodyLength(f) + 1]
  }

  lemma FromWireHalves(low: byte, high: byte)
    ensures LowByte(FromWire(low, high)) == low && HighByte(FromWire(low, high)) == high
  {
  }

  /** The last byte of bytes that are framed: the frame is handed out, as a good one exactly if it is complete; a bad
      one carries the checksum that stood on the line. */
  lemma LastOfFramed(table: seq<Entry>, s: State, frame: Bytes)
    requires TableOk(table) && Framed(frame) && Tracks(table, s, frame[..|frame| - 1])
    ensures Ended(table, Step(table, s, frame[|frame| - 1]), frame)
  {
    var k := |frame| - 1;
    var f, c := frame[..k], frame[k];
    FramedFront(frame, k);
    FramedLong(frame);
    assert frame == f + [c];
    hide CompleteFrame, Framed, Step, InBody, InCrc, InSignature, Ended, TableOk, MessageOf, NotUnderstood,
      Value;
    if InBody(s, f) {
      BodyIsShort(s, f);
    } else if InCrc(table, s, f) {
      CrcSizes(table, s, f);
      LastOfCrc(table, s, frame);
    } else {
      LastOfSignature(table, s, frame);
    }
  }

  lemma FramedLong(frame: Bytes)
    requires Framed(frame)
    ensures |frame| >= 8 && |frame| >= BodyLength(frame) + 2
  {
    hide Value, NotUnderstood, Signed;
  }

  lemma BodyIsShort(s: State, f: Bytes)
    requires InBody(s, f) && |f| > 1
    ensures |f| <= BodyLength(f)
  {
    hide Value, Crc, HeaderTold;
  }

  /** A frame that ends is handed out; a bad one with these two bytes for its checksum. */
  predicate HandedOut(o: Outcome, low: byte, high: byte) {
    && o.delivered.Some? && o.framing in {FramingOk, BadCrc}
    && (o.framing == BadCrc
        ==> LowByte(o.delivered.value.checksum) == low && HighByte(o.delivered.value.checksum) == high)
  }

  lemma CrcEnds(s: State, c: byte)
    requires !Signed(s.m.incompatFlags)
    ensures HandedOut(TakeCrc2(s, c), s.m.ck0, c)
  {
    FromWireHalves(s.m.ck0, c);
    hide FromWire, LowByte, HighByte, Signed;
  }

  lemma SignatureEnds(s: State, c: byte)
    requires s.signatureWait == 1 && |s.m.signature| == SIGNATURE_LENGTH
    ensures HandedOut(TakeSignature(s, c), s.m.ck0, s.m.ck1)
  {
    FromWireHalves(s.m.ck0, s.m.ck1);
    hide FromWire, LowByte, HighByte;
  }

  /** The end of bytes that are framed. */
  predicate Ended(table: seq<Entry>, o: Outcome, frame: Bytes) {
    && o.framing == (if CompleteFrame(table, frame) then FramingOk else BadCrc) && o.delivered.Some?
    && Ready(o.state) && (o.framing == BadCrc ==> WireCrc(o.delivered.value, frame))
  }

  lemma EndedIf(table: seq<Entry>, o: Outcome, frame: Bytes, low: byte, high: byte)
    requires HandedOut(o, low, high) && Tracks(table, o.state, []) && |frame| >= 6 && |frame| >= BodyLength(frame) + 2
    requires o.framing == FramingOk <==> CompleteFrame(table, frame)
    requires low == frame[BodyLength(frame)] && high == frame[BodyLength(frame) + 1]
    ensures Ended(table, o, frame)
  {
    hide CompleteFrame, LowByte, HighByte, BodyLength;
  }

  lemma LastOfCrc(table: seq<Entry>, s: State, frame: Bytes)
    requires Framed(frame) && InCrc(table, s, frame[..|frame| - 1])
    ensures Ended(table, Step(table, s, frame[|frame| - 1]), frame)
  {
    var f, c := frame[..|frame| - 1], frame[|frame| - 1];
    FramedLong(frame);
    FramedFront(frame, |f|);
    CrcSizes(table, s, f);
    NotSigned(frame);
    hide Framed, Value, Signed, BodyLength, HeaderLength, IsV1, InCrc;
    assert frame == f + [c];
    CrcIsLast(table, s, f, c);
  }

  lemma CrcIsLast(table: seq<Entry>, s: State, f: Bytes, c: byte)
    requires |f| >= 6 && InCrc(table, s, f) && !SignedFrame(f)
    ensures Ended(table, Step(table, s, c), f + [c])
  {
    CrcSizes(table, s, f);
    FirstCrcByte(table, s, f);
    FrameStays(f, c);
    assert BodyLength(f + [c]) == BodyLength(f);
    hide CompleteFrame, MessageOf, InCrc, InSignature, NotUnderstood, Value, Signed, Step, Ended, Tracks, BodyLength,
      HeaderLength, FrameLength, SignedFrame, HandedOut, TakeCrc2;
    TookCrc2(table, s, f, c);
    AtCrc2(table, s, f, c);
    CrcEnds(s, c);
    EndedIf(table, Step(table, s, c), f + [c], s.m.ck0, c);
  }

  lemma NotSigned(frame: Bytes)
    requires Framed(frame)
    ensures |frame| == BodyLength(frame) + 2 ==> !SignedFrame(frame)
    ensures |frame| <= BodyLength(frame) + 15 && (SignedFrame(frame) ==> |frame| == BodyLength(frame) + 15)
  {
    hide Value, NotUnderstood, Signed;
  }

  lemma FirstCrcByte(table: seq<Entry>, s: State, f: Bytes)
    requires InCrc(table, s, f)
    ensures s.m.ck0 == f[BodyLength(f)]
  {
  }

  lemma BothCrcBytes(table: seq<Entry>, s: State, f: Bytes)
    requires InSignature(table, s, f)
    ensures |f| >= BodyLength(f) + 2 && s.m.ck0 == f[BodyLength(f)] && s.m.ck1 == f[BodyLength(f) + 1]
    ensures s.signatureWait == 13 - (|f| - BodyLength(f) - 2) && SignedFrame(f)
  {
    hide HeaderTold, PayloadFilled, CrcOk, Value;
  }

  lemma LastOfSignature(table: seq<Entry>, s: State, frame: Bytes)
    requires Framed(frame) && InSignature(table, s, frame[..|frame| - 1])
    ensures Ended(table, Step(table, s, frame[|frame| - 1]), frame)
  {
    var f, c := frame[..|frame| - 1], frame[|frame| - 1];
    FramedLong(frame);
    FramedFront(frame, |f|);
    SignatureSizes(table, s, f);
    BothCrcBytes(table, s, f);
    NotSigned(frame);
    hide Framed, Value, Signed, BodyLength, HeaderLength, IsV1;
    assert frame == f + [c] && frame[BodyLength(f)] == f[BodyLength(f)];
    assert frame[BodyLength(f) + 1] == f[BodyLength(f) + 1];
    SignatureIsLast(table, s, f, c);
  }

  lemma SignatureIsLast(table: seq<Entry>, s: State, f: Bytes, c: byte)
    requires |f| >= 6 && InSignature(table, s, f) && |f| + 1 == FrameLength(f) && s.signatureWait == 1
    requires |f| >= BodyLength(f) + 2 && s.m.ck0 == f[BodyLength(f)] && s.m.ck1 == f[BodyLength(f) + 1]
    ensures Ended(table, Step(table, s, c), f + [c])
  {
    FrameStays(f, c);
    assert BodyLength(f + [c]) == BodyLength(f);
    hide CompleteFrame, MessageOf, InCrc, InSignature, NotUnderstood, Value, Signed, Step, Ended, Tracks, BodyLength,
      HeaderLength, FrameLength, SignedFrame, HandedOut, TakeSignature;
    TookSignature(table, s, f, c);
    AtSignature(table, s, f, c);
    SignatureEnds(s, c);
    EndedIf(table, Step(table, s, c), f + [c], s.m.ck0, s.m.ck1);
  }

  /** Bytes that are framed, fed to a parser at rest, keep it busy up to the last; then they are reported as good if
      they are a complete frame, and as bad otherwise. */
  lemma {:induction false} FramedRead(table: seq<Entry>, s: State, frame: Bytes, k: nat)
    requires TableOk(table) && Ready(s) && Framed(frame) && k < |frame|
    ensures (var o := Step(table, Feed(table, s, frame[..k]), frame[k]);
             Tracks(table, Feed(table, s, frame[..k]), frame[..k])
             && if k + 1 < |frame| then Busy(table, o, frame[..k + 1]) else Ended(table, o, frame))
  {
    hide TableOk, CompleteFrame, Framed, InBody, InCrc, InSignature, Step, Ended;
    if k > 0 {
      FramedRead(table, s, frame, k - 1);
      assert frame[..k][..k - 1] == frame[..k - 1] && frame[..k][k - 1] == frame[k - 1];
    }
    var t := Feed(table, s, frame[..k]);
    hide Feed, Ready, Tracks;
    if k + 1 < |frame| { InsideFramed(table, t, frame, k); } else { LastOfFramed(table, t, frame); }
  }

  /** A complete frame whose payload is damaged within two adjacent bytes is reported as bad, at its last byte. */
  lemma DamageReported(table: seq<Entry>, s: State, f: Bytes, i: nat, x: Bytes)
    requires TableOk(table) && Ready(s) && CompleteFrame(table, f)
    requires |x| <= 2 && HeaderLength(f) <= i && i + |x| <= BodyLength(f) <= |f| && x != f[i..i + |x|]
    ensures (var g := f[..i] + x + f[i + |x|..];
             |g| == |f| && Step(table, Feed(table, s, g[..|g| - 1]), g[|g| - 1]).framing == BadCrc)
  {
    hide TableOk, Ready, Step, Feed, CompleteFrame, Framed, Tracks, Busy, WireCrc;
    var g := f[..i] + x + f[i + |x|..];
    DamageDetected(table, f, i, x);
    CompleteIsFramed(table, f);
    ChangedPayload(f, i, x);
    StaysFramed(f, g, i);
    FramedRead(table, s, g, |g| - 1);
  }

  lemma StaysFramed(f: Bytes, g: Bytes, i: nat)
    requires Framed(f) && |g| == |f| && HeaderLength(f) <= i <= |f| && g[..i] == f[..i]
    ensures Framed(g)
  {
    hide Value, NotUnderstood, Signed;
    assert g[0] == g[..i][0] == f[0] && g[1] == g[..i][1] == f[1] && g[2] == g[..i][2] == f[2];
  }
}
