/** What the parser makes of any stream, and of a stream of complete frames. */
module MavStream {
  import opened Words
  import opened Outcomes
  import opened Octets
  import opened MavCrc
  import opened MavMessages
  import opened MavParser

  /** The state after some bytes. */
  function Feed(table: seq<Entry>, s: State, bytes: Bytes): State {
    if bytes == [] then s else Step(table, Feed(table, s, bytes[..|bytes| - 1]), bytes[|bytes| - 1]).state
  }

  /** The bytes since the start of the frame under way. */
  function Since(table: seq<Entry>, s: State, bytes: Bytes): Bytes {
    if bytes == [] then []
    else Underway(Feed(table, s, bytes), Since(table, s, bytes[..|bytes| - 1]), bytes[|bytes| - 1])
  }

  predicate Ready(s: State) { AtRest(s) && s.m.Valid() }

  lemma {:induction false} FeedTracks(table: seq<Entry>, s: State, bytes: Bytes)
    requires TableOk(table) && Ready(s)
    ensures Tracks(table, Feed(table, s, bytes), Since(table, s, bytes))
  {
    hide Step, TableOk, InBody, InCrc, InSignature, CompleteFrame, MessageOf;
    if bytes != [] {
      var before, c := bytes[..|bytes| - 1], bytes[|bytes| - 1];
      FeedTracks(table, s, before);
      AnyByte(table, Feed(table, s, before), Since(table, s, before), c);
    }
  }

  lemma {:induction false} SinceIsSuffix(table: seq<Entry>, s: State, bytes: Bytes)
    ensures var f := Since(table, s, bytes); |f| <= |bytes| && f == bytes[|bytes| - |f|..]
  {
    hide Step;
    if bytes != [] {
      var before, c := bytes[..|bytes| - 1], bytes[|bytes| - 1];
      SinceIsSuffix(table, s, before);
      var g := Since(table, s, before);
      assert bytes[|bytes| - |g| - 1..] == before[|before| - |g|..] + [c];
      assert bytes[|bytes|..] == [];
    }
  }

  /** From any stream, a good frame is reported only when the last bytes are a complete frame with a known message id
      and the right CRC, and the message handed out is the one of exactly those bytes. */
  lemma OnlyCompleteFrames(table: seq<Entry>, s: State, bytes: Bytes, c: byte)
    requires TableOk(table) && Ready(s)
    ensures (var o := Step(table, Feed(table, s, bytes), c);
      o.framing == FramingOk ==>
        var f := Since(table, s, bytes) + [c];
        CompleteFrame(table, f) && o.delivered.Some? && MessageOf(table, o.delivered.value, f)
        && |f| <= |bytes| + 1 && f == (bytes + [c])[|bytes| + 1 - |f|..])
  {
    hide Step, TableOk, InBody, InCrc, InSignature, CompleteFrame, MessageOf, Feed;
    FeedTracks(table, s, bytes);
    var f := Since(table, s, bytes);
    AnyByte(table, Feed(table, s, bytes), f, c);
    SinceIsSuffix(table, s, bytes);
    assert (bytes + [c])[|bytes| - |f|..] == bytes[|bytes| - |f|..] + [c];
  }

  /** In every reachable state the payload index is within the announced length, and so within the buffer. */
  lemma IndexInBounds(table: seq<Entry>, s: State, bytes: Bytes)
    requires TableOk(table) && Ready(s)
    ensures (var r := Feed(table, s, bytes); r.phase == GotMsgid3 ==> r.packetIdx < r.m.len < BUFFER == |r.m.payload|)
  {
    FeedTracks(table, s, bytes);
    var r, f := Feed(table, s, bytes), Since(table, s, bytes);
    hide Feed, Since;
    if r.phase == GotMsgid3 { InPayload(table, r, f); }
  }

  lemma InPayload(table: seq<Entry>, r: State, f: Bytes)
    requires Tracks(table, r, f) && r.phase == GotMsgid3
    ensures r.packetIdx < r.m.len < BUFFER == |r.m.payload|
  {
    hide Value, Crc, CrcOk, FirstCrcOk, PayloadFilled, SignedFrame;
    assert InBody(r, f);
  }

  // ---------------------------------------------------------------- complete frames

  /** In the middle of a complete frame the parser goes on. */
  lemma InsideFrame(table: seq<Entry>, s: State, frame: Bytes, k: nat)
    requires TableOk(table) && CompleteFrame(table, frame) && k + 1 < |frame| && Tracks(table, s, frame[..k])
    ensures GoesOn(table, Step(table, s, frame[k]), frame[..k], frame[k])
  {
    hide Follows, GoesOn, InCrc, InSignature, Step, TableOk, NotUnderstood, Value, HeaderTold, Signed, Lookup, FrameCrc,
      LowByte, HighByte, Crc;
    var f, c := frame[..k], frame[k];
    if f == [] {
      StartByte(table, s, c);
    } else if InBody(s, f) {
      if |f| < 6 || |f| < BodyLength(f) { BodyByte(table, s, f, c); } else { Crc1Byte(table, s, f, c); }
    } else if InCrc(table, s, f) {
      CrcSizes(table, s, f);
      EarlyAgrees(table, frame, k);
      Crc2Byte(table, s, f, c);
    } else {
      SignatureSizes(table, s, f);
      EarlyAgrees(table, frame, k);
      SignatureByte(table, s, f, c);
    }
  }

  lemma CrcSizes(table: seq<Entry>, s: State, f: Bytes)
    requires InCrc(table, s, f)
    ensures |f| >= 6 && |f| == BodyLength(f) + 1
  {
  }

  lemma SignatureSizes(table: seq<Entry>, s: State, f: Bytes)
    requires InSignature(table, s, f)
    ensures |f| >= 6
  {
  }

  /** The beginning of a frame says what the frame says. */
  lemma EarlyAgrees(table: seq<Entry>, frame: Bytes, k: nat)
    requires CompleteFrame(table, frame) && 6 <= k < |frame|
    ensures (var f := frame[..k];
      && FrameLength(f) == |frame|
      && (k >= HeaderLength(f) && k == BodyLength(f) + 1 && k + 1 < |frame|
          ==> SignedFrame(f) && CrcOk(table, f + [frame[k]])))
  {
    hide Value, Signed, NotUnderstood, Lookup, LowByte, HighByte, Accumulate, Crc;
    var f := frame[..k];
    assert f[0] == frame[0] && f[1] == frame[1] && f[2] == frame[2];
    if k >= HeaderLength(f) && k == BodyLength(f) + 1 && k + 1 < |frame| {
      var g := f + [frame[k]];
      assert g == frame[..k + 1];
      assert g[1..BodyLength(g)] == frame[1..BodyLength(frame)];
      assert FrameId(g) == FrameId(frame);
    }
  }

  /** A complete frame keeps the parser busy up to its last byte, which makes it hand out the frame's message. */
  lemma {:induction false} EveryFrameRead(table: seq<Entry>, s: State, frame: Bytes, k: nat)
    requires TableOk(table) && Ready(s) && CompleteFrame(table, frame) && k < |frame|
    ensures (var o := Step(table, Feed(table, s, frame[..k]), frame[k]);
      && Tracks(table, Feed(table, s, frame[..k]), frame[..k])
      && (k + 1 < |frame| ==> o.framing == Incomplete && o.delivered == None)
      && (k + 1 == |frame|
          ==> o.framing == FramingOk && o.delivered.Some? && MessageOf(table, o.delivered.value, frame)
              && Ready(o.state)))
  {
    hide TableOk, CompleteFrame, MessageOf, InBody, InCrc, InSignature, Step;
    if k > 0 {
      EveryFrameRead(table, s, frame, k - 1);
      InsideFrame(table, Feed(table, s, frame[..k - 1]), frame, k - 1);
      assert frame[..k][..k - 1] == frame[..k - 1] && frame[..k] == frame[..k - 1] + [frame[k - 1]];
    }
    var t := Feed(table, s, frame[..k]);
    AnyByte(table, t, frame[..k], frame[k]);
    if k + 1 < |frame| {
      InsideFrame(table, t, frame, k);
    } else {
      assert frame[..k] + [frame[k]] == frame;
    }
  }

  /** The good messages of a stream, in order. */
  function Messages(table: seq<Entry>, s: State, bytes: Bytes): seq<Message>
    decreases |bytes|
  {
    if bytes == [] then []
    else
      var o := Step(table, s, bytes[0]);
      (if o.framing == FramingOk && o.delivered.Some? then [o.delivered.value] else [])
          + Messages(table, o.state, bytes[1..])
  }

  /** The rest of a frame yields its message. */
  lemma {:induction false} RestOfFrame(table: seq<Entry>, s: State, frame: Bytes, k: nat, later: Bytes)
    requires TableOk(table) && Ready(s) && CompleteFrame(table, frame) && k < |frame|
    ensures (var t := Feed(table, s, frame[..k]);
      var last := Step(table, Feed(table, s, frame[..|frame| - 1]), frame[|frame| - 1]);
      last.delivered.Some? && Messages(table, t, frame[k..] + later)
          == [last.delivered.value] + Messages(table, last.state, later))
    decreases |frame| - k
  {
    hide TableOk, CompleteFrame, MessageOf, Step, Tracks;
    var t := Feed(table, s, frame[..k]);
    var bytes := frame[k..] + later;
    EveryFrameRead(table, s, frame, k);
    assert bytes[0] == frame[k] && bytes[1..] == frame[k + 1..] + later;
    if k + 1 < |frame| {
      RestOfFrame(table, s, frame, k + 1, later);
      assert frame[..k + 1][..k] == frame[..k];
      assert Feed(table, s, frame[..k + 1]) == Step(table, t, frame[k]).state;
      assert [] + Messages(table, Step(table, t, frame[k]).state, bytes[1..])
             == Messages(table, Step(table, t, frame[k]).state, bytes[1..]);
    } else {
      assert frame[..k] == frame[..|frame| - 1] && bytes[1..] == later;
    }
  }

  function Concat(frames: seq<Bytes>): Bytes { if frames == [] then [] else frames[0] + Concat(frames[1..]) }

  lemma FrameRead(table: seq<Entry>, s: State, frame: Bytes, later: Bytes) returns (m: Message, next: State)
    requires TableOk(table) && Ready(s) && CompleteFrame(table, frame)
    ensures Messages(table, s, frame + later) == [m] + Messages(table, next, later) && MessageOf(table, m, frame)
            && Ready(next)
  {
    hide TableOk, MessageOf, Step, Tracks, Messages, CompleteFrame, Ready, Feed;
    NotEmpty(table, frame);
    FeedNothing(table, s);
    RestOfFrame(table, s, frame, 0, later);
    EveryFrameRead(table, s, frame, |frame| - 1);
    assert frame[0..] == frame && frame[..0] == [];
    var last := Step(table, Feed(table, s, frame[..|frame| - 1]), frame[|frame| - 1]);
    m, next := last.delivered.value, last.state;
  }

  /** Complete frames one after the other are read one by one, each as its own message. */
  lemma {:induction false} FramesRead(table: seq<Entry>, s: State, frames: seq<Bytes>)
    requires TableOk(table) && Ready(s) && forall i :: 0 <= i < |frames| ==> CompleteFrame(table, frames[i])
    ensures (var ms := Messages(table, s, Concat(frames));
      |ms| == |frames| && forall i :: 0 <= i < |frames| ==> MessageOf(table, ms[i], frames[i]))
    decreases |frames|
  {
    hide TableOk, MessageOf, Step, Tracks, CompleteFrame, Ready;
    if frames != [] {
      var m, next := FrameRead(table, s, frames[0], Concat(frames[1..]));
      FramesRead(table, next, frames[1..]);
      var ms, rest := Messages(table, s, Concat(frames)), Messages(table, next, Concat(frames[1..]));
      hide Messages;
      forall i | 0 <= i < |frames| ensures MessageOf(table, ms[i], frames[i]) {
        if i > 0 { assert ms[i] == rest[i - 1] && frames[i] == frames[1..][i - 1]; }
      }
    }
  }

  lemma FeedNothing(table: seq<Entry>, s: State)
    ensures Feed(table, s, []) == s
  {
  }

  lemma NotEmpty(table: seq<Entry>, frame: Bytes)
    requires CompleteFrame(table, frame)
    ensures |frame| >= 6
  {
  }
}
