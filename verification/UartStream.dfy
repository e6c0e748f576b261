/** The resynchronizing stream decoder: what it makes of a stream does not depend on how the stream is cut, and noise
    cannot hide a valid frame. */
module UartStream {
  import opened Words
  import opened Outcomes
  import opened Octets
  import opened UartFrame

  // ---------------------------------------------------------------- one round

  predicate MagicAt(s: Bytes, i: nat) { i + 1 < |s| && s[i] == MAGIC_A && s[i + 1] == MAGIC_L }

  /** `find`: the first occurrence of the magic, or the length when there is none. */
  function FindMagic(s: Bytes): (r: nat)
    ensures r <= |s|
    ensures r < |s| ==> MagicAt(s, r)
    ensures forall i :: 0 <= i < r ==> !MagicAt(s, i)
  {
    if s == [] then 0 else if MagicAt(s, 0) then 0
    else (assert forall i :: 0 < i < |s| ==> MagicAt(s, i) == MagicAt(s[1..], i - 1); 1 + FindMagic(s[1..]))
  }

  /** What one round of the loop does with the buffer: it stops, takes a frame, or rejects and drops one byte. */
  datatype Round = Stop(residual: Bytes) | Take(frame: Frame, rest: Bytes) | Reject(code: RejectCode, rest: Bytes)

  /** A round that finds the magic at the front. */
  function AtMagic(crc: Crc32, vehicle: Option<int>, s: Bytes): Round {
    if |s| < HEADER_SIZE then Stop(s)
    else if LengthOf(s) > MAX_PAYLOAD then Reject(BadLength, s[1..])
    else
      var total := HEADER_SIZE + LengthOf(s) + CRC_SIZE;
      if |s| < total then Stop(s)
      else match Decode(crc, s[..total], vehicle)
        case Ok(f) => Take(f, s[total..])
        case Err(code) => Reject(code, s[1..])
  }

  function OneRound(crc: Crc32, vehicle: Option<int>, s: Bytes): Round {
    var start := FindMagic(s);
    if start == |s| then Stop(if s != [] && s[|s| - 1] == MAGIC_A then [MAGIC_A] else [])
    else AtMagic(crc, vehicle, s[start..])
  }

  datatype Scan = Scan(frames: seq<Frame>, rejections: seq<RejectCode>, residual: Bytes)

  function AddFrame(f: Frame, s: Scan): Scan { s.(frames := [f] + s.frames) }

  function AddRejection(code: RejectCode, s: Scan): Scan { s.(rejections := [code] + s.rejections) }

  /** All rounds. */
  function ScanAll(crc: Crc32, vehicle: Option<int>, s: Bytes): Scan
    decreases |s|
  {
    match OneRound(crc, vehicle, s)
    case Stop(residual) => Scan([], [], residual)
    case Take(f, rest) => if |rest| < |s| then AddFrame(f, ScanAll(crc, vehicle, rest)) else Scan([], [], [])
    case Reject(code, rest) =>
      if |rest| < |s| then AddRejection(code, ScanAll(crc, vehicle, rest)) else Scan([], [], [])
  }

  /** Every round that does not end the loop shortens the buffer. */
  lemma RoundShortens(crc: Crc32, vehicle: Option<int>, s: Bytes)
    ensures (var r := OneRound(crc, vehicle, s); !r.Stop? ==> |r.rest| < |s|)
  {
    hide Decode, LengthOf;
  }

  /** The loop ends with fewer bytes than the longest frame has, so the final trim of the buffer never does anything. */
  lemma {:induction false} ResidualIsShort(crc: Crc32, vehicle: Option<int>, s: Bytes)
    ensures |ScanAll(crc, vehicle, s).residual| < MAX_FRAME
    decreases |s|
  {
    StopIsShort(crc, vehicle, s);
    RoundShortens(crc, vehicle, s);
    hide OneRound;
    match OneRound(crc, vehicle, s) {
      case Stop(_) =>
      case Take(_, rest) => ResidualIsShort(crc, vehicle, rest);
      case Reject(_, rest) => ResidualIsShort(crc, vehicle, rest);
    }
  }

  lemma StopIsShort(crc: Crc32, vehicle: Option<int>, s: Bytes)
    ensures (var r := OneRound(crc, vehicle, s); r.Stop? ==> |r.residual| < MAX_FRAME)
  {
    hide Decode, LengthOf;
  }

  // ---------------------------------------------------------------- cutting the stream

  lemma {:induction false} FindInMore(a: Bytes, b: Bytes)
    ensures FindMagic(a) < |a| ==> FindMagic(a + b) == FindMagic(a)
    ensures FindMagic(a) == |a| && (a == [] || a[|a| - 1] != MAGIC_A) ==> FindMagic(a + b) == |a| + FindMagic(b)
    ensures FindMagic(a) == |a| && a != [] && a[|a| - 1] == MAGIC_A
            ==> FindMagic(a + b) == |a| - 1 + FindMagic([MAGIC_A] + b)
  {
    if a == [] {
      assert a + b == b;
    } else if |a| == 1 {
      assert (a + b)[1..] == b;
      assert a == [a[0]];
    } else if !MagicAt(a, 0) {
      assert (a + b)[1..] == a[1..] + b;
      FindInMore(a[1..], b);
    }
  }

  /** Frames and rejections of a first part, then those of the rest. */
  function Then(first: Scan, second: Scan): Scan {
    Scan(first.frames + second.frames, first.rejections + second.rejections, second.residual)
  }

  lemma ThenAdds(first: Scan, second: Scan, f: Frame, code: RejectCode)
    ensures Then(AddFrame(f, first), second) == AddFrame(f, Then(first, second))
    ensures Then(AddRejection(code, first), second) == AddRejection(code, Then(first, second))
    ensures Then(Scan([], [], first.residual), second) == second
  {
    assert [f] + first.frames + second.frames == [f] + (first.frames + second.frames);
    assert [code] + first.rejections + second.rejections == [code] + (first.rejections + second.rejections);
  }

  /** A round that does not stop is the same round when more bytes have arrived. */
  lemma RoundInMore(crc: Crc32, vehicle: Option<int>, a: Bytes, b: Bytes)
    ensures match OneRound(crc, vehicle, a)
      case Stop(residual) => OneRound(crc, vehicle, a + b) == OneRound(crc, vehicle, residual + b)
      case Take(f, rest) => OneRound(crc, vehicle, a + b) == Take(f, rest + b)
      case Reject(code, rest) => OneRound(crc, vehicle, a + b) == Reject(code, rest + b)
  {
    hide AtMagic, FindMagic, OneRound, MagicAt;
    FindInMore(a, b);
    var start := FindMagic(a);
    if start < |a| {
      var s := a[start..];
      assert (a + b)[start..] == s + b;
      RoundFound(crc, vehicle, a);
      RoundFound(crc, vehicle, a + b);
      AtMagicInMore(crc, vehicle, s, b);
      FrontMagic(a, start, b);
      RoundFound(crc, vehicle, s + b);
    } else if a != [] && a[|a| - 1] == MAGIC_A {
      RoundNone(crc, vehicle, a);
      assert (a + b)[|a| - 1..] == [MAGIC_A] + b;
      RoundOfSuffix(crc, vehicle, a + b, [MAGIC_A] + b, |a| - 1);
    } else {
      RoundNone(crc, vehicle, a);
      assert (a + b)[|a|..] == b && [] + b == b;
      if b == [] {
        assert a + b == a;
        RoundNone(crc, vehicle, []) by { assert FindMagic([]) == 0 by { NoMagic(); } }
      } else {
        RoundOfSuffix(crc, vehicle, a + b, b, |a|);
      }
    }
  }

  lemma NoMagic()
    ensures FindMagic([]) == 0
  {
  }

  lemma RoundFound(crc: Crc32, vehicle: Option<int>, s: Bytes)
    requires FindMagic(s) < |s|
    ensures OneRound(crc, vehicle, s) == AtMagic(crc, vehicle, s[FindMagic(s)..])
  {
    hide AtMagic;
  }

  lemma RoundNone(crc: Crc32, vehicle: Option<int>, s: Bytes)
    requires FindMagic(s) == |s|
    ensures OneRound(crc, vehicle, s) == Stop(if s != [] && s[|s| - 1] == MAGIC_A then [MAGIC_A] else [])
  {
    hide AtMagic;
  }

  lemma RoundOfSuffix(crc: Crc32, vehicle: Option<int>, s: Bytes, t: Bytes, n: nat)
    requires n < |s| && s[n..] == t && FindMagic(s) == n + FindMagic(t)
    ensures OneRound(crc, vehicle, s) == OneRound(crc, vehicle, t)
  {
    hide AtMagic, FindMagic, OneRound;
    assert t[|t| - 1] == s[|s| - 1];
    if FindMagic(t) < |t| {
      assert s[FindMagic(s)..] == t[FindMagic(t)..];
      RoundFound(crc, vehicle, s);
      RoundFound(crc, vehicle, t);
    } else {
      assert FindMagic(t) == |t| by { FindBound(t); }
      RoundNone(crc, vehicle, s);
      RoundNone(crc, vehicle, t);
    }
  }

  lemma FindBound(s: Bytes)
    ensures FindMagic(s) <= |s|
  {
  }

  lemma FrontMagic(a: Bytes, start: nat, b: Bytes)
    requires start < |a| && start == FindMagic(a)
    ensures a[start..] != [] && FindMagic(a[start..] + b) == 0 && (a[start..] + b)[0..] == a[start..] + b
  {
    assert MagicAt(a[start..], 0) && MagicAt(a[start..] + b, 0);
  }

  lemma AtMagicInMore(crc: Crc32, vehicle: Option<int>, s: Bytes, b: Bytes)
    requires s != []
    ensures match AtMagic(crc, vehicle, s)
      case Stop(residual) => residual == s
      case Take(f, rest) => AtMagic(crc, vehicle, s + b) == Take(f, rest + b)
      case Reject(code, rest) => AtMagic(crc, vehicle, s + b) == Reject(code, rest + b)
  {
    hide Decode, Read2;
    var t := s + b;
    assert t[1..] == s[1..] + b;
    if |s| >= HEADER_SIZE {
      assert LengthOf(t) == LengthOf(s);
      var total := HEADER_SIZE + LengthOf(s) + CRC_SIZE;
      if |s| >= total { assert t[..total] == s[..total] && t[total..] == s[total..] + b; }
    }
  }

  /** Chunks do not matter: scanning a stream is scanning its beginning, and then what is left of it with the rest. */
  lemma {:induction false} ScanInTwo(crc: Crc32, vehicle: Option<int>, a: Bytes, b: Bytes)
    ensures ScanAll(crc, vehicle, a + b)
            == Then(ScanAll(crc, vehicle, a), ScanAll(crc, vehicle, ScanAll(crc, vehicle, a).residual + b))
    decreases |a|
  {
    RoundInMore(crc, vehicle, a, b);
    RoundShortens(crc, vehicle, a);
    RoundShortens(crc, vehicle, a + b);
    hide OneRound;
    match OneRound(crc, vehicle, a) {
      case Stop(residual) =>
        SameScan(crc, vehicle, a + b, residual + b);
        ThenAdds(ScanAll(crc, vehicle, a), ScanAll(crc, vehicle, residual + b), SomeFrame(), BadCrc);
      case Take(f, rest) =>
        ScanInTwo(crc, vehicle, rest, b);
        ThenAdds(ScanAll(crc, vehicle, rest), ScanAll(crc, vehicle, ScanAll(crc, vehicle, rest).residual + b), f,
                 BadCrc);
      case Reject(code, rest) =>
        ScanInTwo(crc, vehicle, rest, b);
        ThenAdds(ScanAll(crc, vehicle, rest), ScanAll(crc, vehicle, ScanAll(crc, vehicle, rest).residual + b),
                 SomeFrame(), code);
    }
  }

  function SomeFrame(): Frame { Frame(Hello, 0, 0, 0, 0, [], 1) }

  /** Buffers with the same first round are scanned alike. */
  lemma SameScan(crc: Crc32, vehicle: Option<int>, s: Bytes, t: Bytes)
    requires OneRound(crc, vehicle, s) == OneRound(crc, vehicle, t)
    ensures ScanAll(crc, vehicle, s) == ScanAll(crc, vehicle, t)
  {
    RoundShortens(crc, vehicle, s);
    RoundShortens(crc, vehicle, t);
    hide OneRound;
  }

  /** The scan of a stream that comes in chunks, each fed after what was left of the ones before. */
  function ScanChunks(crc: Crc32, vehicle: Option<int>, residual: Bytes, chunks: seq<Bytes>): Scan
    decreases |chunks|
  {
    if chunks == [] then Scan([], [], residual)
    else
      var first := ScanAll(crc, vehicle, residual + chunks[0]);
      Then(first, ScanChunks(crc, vehicle, first.residual, chunks[1..]))
  }

  function Concat(chunks: seq<Bytes>): Bytes { if chunks == [] then [] else chunks[0] + Concat(chunks[1..]) }

  /** A buffer that a scan has left is left alone by another scan. */
  lemma {:induction false} ResidualIsStable(crc: Crc32, vehicle: Option<int>, s: Bytes)
    ensures ScanAll(crc, vehicle, ScanAll(crc, vehicle, s).residual) == Scan([], [], ScanAll(crc, vehicle, s).residual)
    decreases |s|
  {
    var r := OneRound(crc, vehicle, s);
    RoundShortens(crc, vehicle, s);
    if r.Stop? {
      RoundInMore(crc, vehicle, s, []);
      assert s + [] == s && r.residual + [] == r.residual;
    } else {
      ResidualIsStable(crc, vehicle, r.rest);
    }
  }

  /** Any way to cut a stream gives the same frames, the same rejections and the same bytes left over as one feed. */
  lemma {:induction false} ChunksDoNotMatter(crc: Crc32, vehicle: Option<int>, residual: Bytes, chunks: seq<Bytes>)
    requires ScanAll(crc, vehicle, residual) == Scan([], [], residual)
    ensures ScanChunks(crc, vehicle, residual, chunks) == ScanAll(crc, vehicle, residual + Concat(chunks))
    decreases |chunks|
  {
    hide ScanAll, Then;
    if chunks == [] {
      assert residual + [] == residual;
    } else {
      var s, rest := residual + chunks[0], Concat(chunks[1..]);
      var first := ScanAll(crc, vehicle, s);
      assert residual + (chunks[0] + rest) == s + rest;
      ResidualIsStable(crc, vehicle, s);
      ScanInTwo(crc, vehicle, s, rest);
      ChunksDoNotMatter(crc, vehicle, first.residual, chunks[1..]);
    }
  }

  // ---------------------------------------------------------------- what is rejected

  lemma FrontRound(crc: Crc32, vehicle: Option<int>, s: Bytes)
    requires MagicAt(s, 0)
    ensures OneRound(crc, vehicle, s) == AtMagic(crc, vehicle, s)
  {
    assert FindMagic(s) == 0 && s[0..] == s;
  }

  /** A header that announces more than 512 bytes is rejected for its length, and one byte of it is dropped. */
  lemma TooLongIsRejected(crc: Crc32, vehicle: Option<int>, s: Bytes)
    requires |s| >= 17 && s[0] == 0x41 && s[1] == 0x4C && Value(s[4]) + 0x100 * Value(s[5]) > 512
    ensures ScanAll(crc, vehicle, s) == AddRejection(BadLength, ScanAll(crc, vehicle, s[1..]))
  {
    FrontRound(crc, vehicle, s);
    hide Decode, Value, OneRound;
  }

  /** The beginning of a frame, whatever follows its body. */
  lemma FrontOfBody(f: Frame, rest: Bytes)
    requires ValidateFields(f) == None
    ensures (var s := Body(f) + rest;
             |s| >= HEADER_SIZE && MagicAt(s, 0) && LengthOf(s) == |f.payload| <= MAX_PAYLOAD)
  {
    hide Value, AsByte, Read2, Pack2, Read4, Pack4, TypeCode, TypeOf, PackHeader;
    HeaderHolds(f, f.payload + rest);
    assert Body(f) + rest == PackHeader(f) + (f.payload + rest);
  }

  /** A frame with another checksum than its own is rejected for that, and one byte of it is dropped. */
  lemma DamagedIsRejected(crc: Crc32, vehicle: Option<int>, f: Frame, sum: Bytes, rest: Bytes)
    requires ValidateFields(f) == None && |sum| == 4 && Encode(crc, f) != Ok(Body(f) + sum)
    ensures (var s := Body(f) + sum + rest;
             ScanAll(crc, vehicle, s) == AddRejection(BadCrc, ScanAll(crc, vehicle, s[1..])))
  {
    hide Decode, Encode, LengthOf, Body, ScanAll;
    var s, data := Body(f) + sum + rest, Body(f) + sum;
    WrongCrc(crc, f, vehicle, sum);
    BodySize(f);
    FrontOfBody(f, sum + rest);
    assert s == Body(f) + (sum + rest) && s[..|data|] == data;
    RejectedAtFront(crc, vehicle, s, BadCrc);
  }

  lemma BodySize(f: Frame)
    requires ValidateFields(f) == None
    ensures |Body(f)| == HEADER_SIZE + |f.payload|
  {
    hide PackHeader;
  }

  lemma RejectedAtFront(crc: Crc32, vehicle: Option<int>, s: Bytes, code: RejectCode)
    requires |s| >= HEADER_SIZE && MagicAt(s, 0) && LengthOf(s) <= MAX_PAYLOAD
    requires (var total := HEADER_SIZE + LengthOf(s) + CRC_SIZE;
              |s| >= total && Decode(crc, s[..total], vehicle) == Err(code))
    ensures ScanAll(crc, vehicle, s) == AddRejection(code, ScanAll(crc, vehicle, s[1..]))
  {
    FrontRound(crc, vehicle, s);
    hide Decode, LengthOf, OneRound;
  }

  // ---------------------------------------------------------------- noise hides nothing

  /** A frame the decoder emitted, and where it stood in the stream. */
  datatype Emission = Emission(at: nat, size: nat, frame: Frame)

  /** The emissions of a scan of the bytes from position `at` on. */
  function Emissions(crc: Crc32, vehicle: Option<int>, s: Bytes, at: nat): seq<Emission>
    decreases |s|
  {
    match OneRound(crc, vehicle, s)
    case Stop(_) => []
    case Take(f, rest) =>
      if |rest| < |s| then
        var next := at + |s| - |rest|;
        [Emission(at + FindMagic(s), |s| - |rest| - FindMagic(s), f)] + Emissions(crc, vehicle, rest, next)
      else []
    case Reject(_, rest) => if |rest| < |s| then Emissions(crc, vehicle, rest, at + |s| - |rest|) else []
  }

  function FramesOf(es: seq<Emission>): seq<Frame> { if es == [] then [] else [es[0].frame] + FramesOf(es[1..]) }

  /** The emissions are the frames of the scan. */
  lemma {:induction false} EmissionsAreFrames(crc: Crc32, vehicle: Option<int>, s: Bytes, at: nat)
    ensures FramesOf(Emissions(crc, vehicle, s, at)) == ScanAll(crc, vehicle, s).frames
    decreases |s|
  {
    RoundShortens(crc, vehicle, s);
    hide OneRound, FindMagic;
    match OneRound(crc, vehicle, s) {
      case Stop(_) =>
      case Take(_, rest) =>
        EmissionsAreFrames(crc, vehicle, rest, at + |s| - |rest|);
        assert Emissions(crc, vehicle, s, at)[1..] == Emissions(crc, vehicle, rest, at + |s| - |rest|);
      case Reject(_, rest) => EmissionsAreFrames(crc, vehicle, rest, at + |s| - |rest|);
    }
  }

  /** A frame for this vehicle stands at position `p`. */
  predicate FrameAt(crc: Crc32, vehicle: Option<int>, s: Bytes, p: nat, f: Frame) {
    var total := HEADER_SIZE + |f.payload| + CRC_SIZE;
    p + total <= |s| && Decode(crc, s[p..p + total], vehicle) == Ok(f)
  }

  /** It was emitted, or stands strictly inside a frame that was. */
  predicate Accounted(es: seq<Emission>, p: nat, f: Frame) {
    exists e :: e in es && ((e.at == p && e.frame == f) || e.at < p < e.at + e.size)
  }

  lemma FrameStandsOut(crc: Crc32, vehicle: Option<int>, s: Bytes, p: nat, f: Frame)
    requires FrameAt(crc, vehicle, s, p, f)
    ensures MagicAt(s, p) && |f.payload| <= MAX_PAYLOAD && p + 6 <= |s| && LengthOf(s[p..]) == |f.payload|
  {
    hide Read2, Read4, Value, CrcOf, TypeOf, Encode;
    var total := HEADER_SIZE + |f.payload| + CRC_SIZE;
    var d := s[p..p + total];
    EncodeDecode(crc, d, vehicle);
    assert d[0] == s[p] && d[1] == s[p + 1] && d[4] == s[p..][4] && d[5] == s[p..][5];
  }

  /** With the frame at the front, the round takes it. */
  lemma TakesFront(crc: Crc32, vehicle: Option<int>, s: Bytes, f: Frame)
    requires FrameAt(crc, vehicle, s, 0, f)
    ensures OneRound(crc, vehicle, s) == Take(f, s[HEADER_SIZE + |f.payload| + CRC_SIZE..]) && FindMagic(s) == 0
  {
    FrameStandsOut(crc, vehicle, s, 0, f);
    assert s[0..] == s;
    hide Decode, LengthOf;
    var total := HEADER_SIZE + |f.payload| + CRC_SIZE;
    assert s[0..total] == s[..total];
  }

  /** Frames one after the other, as they are sent. */
  function Sent(crc: Crc32, frames: seq<Frame>): Bytes {
    if frames == [] then []
    else (match Encode(crc, frames[0]) case Ok(data) => data case Err(_) => []) + Sent(crc, frames[1..])
  }

  /** A clean stream gives exactly the frames that were sent, and nothing is rejected or left over. */
  lemma {:induction false} CleanStream(crc: Crc32, vehicle: Option<int>, frames: seq<Frame>)
    requires forall f :: f in frames ==> Encode(crc, f).Ok? && ForVehicle(f, vehicle)
    ensures ScanAll(crc, vehicle, Sent(crc, frames)) == Scan(frames, [], [])
  {
    hide Encode, Decode, OneRound;
    if frames == [] {
      NothingToScan(crc, vehicle);
    } else {
      var f := frames[0];
      assert f in frames;
      var data, rest := Encode(crc, f).value, Sent(crc, frames[1..]);
      CleanStream(crc, vehicle, frames[1..]);
      FrontOfStream(crc, vehicle, f, rest);
      TakesFront(crc, vehicle, data + rest, f);
      assert (data + rest)[|data|..] == rest;
    }
  }

  lemma NothingToScan(crc: Crc32, vehicle: Option<int>)
    ensures ScanAll(crc, vehicle, []) == Scan([], [], [])
  {
    assert FindMagic([]) == 0;
  }

  lemma FrontOfStream(crc: Crc32, vehicle: Option<int>, f: Frame, rest: Bytes)
    requires Encode(crc, f).Ok? && ForVehicle(f, vehicle)
    ensures |Encode(crc, f).value| == HEADER_SIZE + |f.payload| + CRC_SIZE
    ensures FrameAt(crc, vehicle, Encode(crc, f).value + rest, 0, f)
  {
    var data := Encode(crc, f).value;
    DecodeEncode(crc, f, vehicle);
    hide Decode, Encode;
    EncodeDecode(crc, data, vehicle);
    var total := HEADER_SIZE + |f.payload| + CRC_SIZE;
    assert (data + rest)[0..total] == data;
  }

  /** Where the rest after a round begins: behind the frame, or one byte after the magic. */
  lemma RestOfRound(crc: Crc32, vehicle: Option<int>, s: Bytes)
    ensures (var r, n := OneRound(crc, vehicle, s), |s| - |OneRest(OneRound(crc, vehicle, s))|;
      !r.Stop? ==> FindMagic(s) < n <= |s| && r.rest == s[n..] && (r.Reject? ==> n == FindMagic(s) + 1))
  {
    hide FindMagic, AtMagic, OneRound;
    FindBound(s);
    var start := FindMagic(s);
    if start < |s| {
      RoundFound(crc, vehicle, s);
      RestAtMagic(crc, vehicle, s[start..]);
      var r := OneRound(crc, vehicle, s);
      if !r.Stop? {
        var n := |s[start..]| - |r.rest|;
        assert s[start..][n..] == s[start + n..];
      }
    } else {
      RoundNone(crc, vehicle, s);
    }
  }

  function OneRest(r: Round): Bytes { if r.Stop? then [] else r.rest }

  lemma RestAtMagic(crc: Crc32, vehicle: Option<int>, s: Bytes)
    requires s != []
    ensures (var r, n := AtMagic(crc, vehicle, s), |s| - |OneRest(AtMagic(crc, vehicle, s))|;
      !r.Stop? ==> 0 < n <= |s| && r.rest == s[n..] && (r.Reject? ==> n == 1))
    ensures |s| >= MAX_FRAME ==> !AtMagic(crc, vehicle, s).Stop?
  {
    hide Decode, LengthOf;
  }

  /** With a frame further on and enough bytes after its start, the round does not stop before it. */
  lemma GoesOnBefore(crc: Crc32, vehicle: Option<int>, s: Bytes, p: nat, f: Frame)
    requires FrameAt(crc, vehicle, s, p, f) && p + MAX_FRAME <= |s|
    ensures FindMagic(s) <= p && (FindMagic(s) < p ==> !OneRound(crc, vehicle, s).Stop?)
  {
    FrameStandsOut(crc, vehicle, s, p, f);
    FindNotAfter(s, p);
    hide FindMagic, AtMagic, OneRound, FrameAt, MagicAt;
    var start := FindMagic(s);
    if start < p {
      RoundFound(crc, vehicle, s);
      RestAtMagic(crc, vehicle, s[start..]);
    }
  }

  lemma FindNotAfter(s: Bytes, p: nat)
    requires MagicAt(s, p)
    ensures FindMagic(s) <= p
  {
  }

  lemma FirstEmission(crc: Crc32, vehicle: Option<int>, s: Bytes, at: nat)
    requires !OneRound(crc, vehicle, s).Stop?
    ensures (var r, es := OneRound(crc, vehicle, s), Emissions(crc, vehicle, s, at);
      var n := |s| - |r.rest|;
      var later := Emissions(crc, vehicle, r.rest, at + n);
      && n > 0 && (r.Take? ==> es == [Emission(at + FindMagic(s), n - FindMagic(s), r.frame)] + later)
         && (r.Reject? ==> es == later))
  {
    RoundShortens(crc, vehicle, s);
    hide OneRound, FindMagic;
  }

  /** However the bytes before it look, a valid frame for this vehicle with at least `MAX_FRAME` bytes from its start on
      is emitted, unless its first byte lies strictly inside another frame that is emitted. */
  lemma {:induction false} NoiseHidesNothing(crc: Crc32, vehicle: Option<int>, s: Bytes, at: nat, p: nat, f: Frame)
    requires FrameAt(crc, vehicle, s, p, f) && p + MAX_FRAME <= |s|
    ensures Accounted(Emissions(crc, vehicle, s, at), at + p, f)
    decreases |s|
  {
    hide OneRound, FindMagic, Emissions, FrameAt, Accounted;
    var start, r := FindMagic(s), OneRound(crc, vehicle, s);
    GoesOnBefore(crc, vehicle, s, p, f);
    if start == p {
      FrontFrame(crc, vehicle, s, p, f);
      FirstEmission(crc, vehicle, s, at);
      AccountedNow(Emissions(crc, vehicle, s, at), at + p, f);
    } else {
      RestOfRound(crc, vehicle, s);
      FirstEmission(crc, vehicle, s, at);
      var n := |s| - |r.rest|;
      if n <= p {
        LaterFrame(crc, vehicle, s, n, p, f);
        NoiseHidesNothing(crc, vehicle, r.rest, at + n, p - n, f);
        AccountedLater(Emissions(crc, vehicle, r.rest, at + n), Emissions(crc, vehicle, s, at), at + p, f);
      } else {
        AccountedNow(Emissions(crc, vehicle, s, at), at + p, f);
      }
    }
  }

  lemma AccountedNow(es: seq<Emission>, p: nat, f: Frame)
    requires es != [] && ((es[0].at == p && es[0].frame == f) || es[0].at < p < es[0].at + es[0].size)
    ensures Accounted(es, p, f)
  {
    assert es[0] in es;
  }

  lemma AccountedLater(later: seq<Emission>, es: seq<Emission>, p: nat, f: Frame)
    requires Accounted(later, p, f) && (es == later || (es != [] && es[1..] == later))
    ensures Accounted(es, p, f)
  {
    var e :| e in later && ((e.at == p && e.frame == f) || e.at < p < e.at + e.size);
    assert e in es;
  }

  lemma LaterFrame(crc: Crc32, vehicle: Option<int>, s: Bytes, n: nat, p: nat, f: Frame)
    requires FrameAt(crc, vehicle, s, p, f) && n <= p
    ensures FrameAt(crc, vehicle, s[n..], p - n, f)
  {
    hide Decode;
    var total := HEADER_SIZE + |f.payload| + CRC_SIZE;
    assert s[n..][p - n..p - n + total] == s[p..p + total];
  }

  lemma FrontFrame(crc: Crc32, vehicle: Option<int>, s: Bytes, p: nat, f: Frame)
    requires FrameAt(crc, vehicle, s, p, f) && FindMagic(s) == p
    ensures p < |s| && OneRound(crc, vehicle, s) == Take(f, s[p + HEADER_SIZE + |f.payload| + CRC_SIZE..])
  {
    hide AtMagic, OneRound, Decode, FindMagic;
    var total := HEADER_SIZE + |f.payload| + CRC_SIZE;
    LaterFrame(crc, vehicle, s, p, p, f);
    TakesFront(crc, vehicle, s[p..], f);
    RoundFound(crc, vehicle, s);
    RoundFound(crc, vehicle, s[p..]);
    assert s[p..][0..] == s[p..] && s[p..][total..] == s[p + total..];
  }

  // ---------------------------------------------------------------- the decoder

  class StreamDecoder {
    const crc: Crc32
    const expectedVehicleId: Option<int>
    var buffer: Bytes
    var rejections: seq<RejectCode>

    /** The buffer is one that a scan has left. */
    ghost predicate Valid()
      reads this
    {
      ScanAll(crc, expectedVehicleId, buffer) == Scan([], [], buffer)
    }

    constructor (crc: Crc32, expectedVehicleId: Option<int>)
      ensures Valid() && buffer == [] && rejections == [] && this.crc == crc
              && this.expectedVehicleId == expectedVehicleId
    {
      this.crc := crc;
      this.expectedVehicleId := expectedVehicleId;
      buffer, rejections := [], [];
      new;
      NoMagic();
    }

    /** `feed`: it leaves what a scan of the old buffer and the chunk leaves. The trim at the end never removes
        anything. */
    method Feed(chunk: Bytes) returns (frames: seq<Frame>)
      requires Valid()
      modifies this
      ensures Valid() && |buffer| < MAX_FRAME
      ensures var scan := ScanAll(crc, expectedVehicleId, old(buffer) + chunk);
        frames == scan.frames && rejections == old(rejections) + scan.rejections && buffer == scan.residual
    {
      hide ScanAll, Then;
      ghost var whole, scan := buffer + chunk, ScanAll(crc, expectedVehicleId, buffer + chunk);
      ghost var goal := Then(Scan([], rejections, []), scan);
      StartScan(rejections, scan);
      buffer := buffer + chunk;
      frames := [];
      var going := true;
      while going
        invariant going ==> Then(Scan(frames, rejections, []), ScanAll(crc, expectedVehicleId, buffer)) == goal
        invariant !going ==> Scan(frames, rejections, buffer) == goal
        decreases if going then 1 else 0, |buffer|
      {
        frames, going := Iterate(frames);
      }
      ResidualIsShort(crc, expectedVehicleId, whole);
      ResidualIsStable(crc, expectedVehicleId, whole);
      buffer := Trimmed(buffer);
    }

    /** One pass through the loop of `feed`. */
    method Iterate(frames: seq<Frame>) returns (frames': seq<Frame>, going: bool)
      modifies this
      ensures going ==> |buffer| < |old(buffer)|
      ensures (var goal := Then(Scan(frames, old(rejections), []), ScanAll(crc, expectedVehicleId, old(buffer)));
        if going then Then(Scan(frames', rejections, []), ScanAll(crc, expectedVehicleId, buffer)) == goal
        else Scan(frames', rejections, buffer) == goal)
    {
      hide Decode, FindMagic, ScanAll, Then, LengthOf;
      frames', going := frames, false;
      ghost var s := buffer;
      var start := FindMagic(buffer);
      FindBound(buffer);
      if start == |buffer| {
        buffer := if |buffer| > 0 && buffer[|buffer| - 1] == MAGIC_A then [MAGIC_A] else [];
        RoundNone(crc, expectedVehicleId, s);
        Stopped(crc, expectedVehicleId, s, frames, rejections);
        return;
      }
      RoundFound(crc, expectedVehicleId, s);
      buffer := buffer[start..];
      if |buffer| < HEADER_SIZE {
        Stopped(crc, expectedVehicleId, s, frames, rejections);
        return;
      }
      var length := LengthOf(buffer);
      if length > MAX_PAYLOAD {
        Rejected(crc, expectedVehicleId, s, frames, rejections);
        rejections := rejections + [BadLength];
        buffer := buffer[1..];
        return frames, true;
      }
      var total := HEADER_SIZE + length + CRC_SIZE;
      if |buffer| < total {
        Stopped(crc, expectedVehicleId, s, frames, rejections);
        return;
      }
      match Decode(crc, buffer[..total], expectedVehicleId) {
        case Ok(f) =>
          Taken(crc, expectedVehicleId, s, frames, rejections);
          frames' := frames + [f];
          buffer := buffer[total..];
        case Err(code) =>
          Rejected(crc, expectedVehicleId, s, frames, rejections);
          rejections := rejections + [code];
          buffer := buffer[1..];
      }
      going := true;
    }
  }

  /** At most the last `MAX_FRAME` bytes. */
  function Trimmed(s: Bytes): Bytes { if |s| > MAX_FRAME then s[|s| - MAX_FRAME..] else s }

  lemma StartScan(codes: seq<RejectCode>, scan: Scan)
    ensures Then(Scan([], codes, []), scan) == Scan(scan.frames, codes + scan.rejections, scan.residual)
  {
  }

  lemma Stopped(crc: Crc32, vehicle: Option<int>, s: Bytes, frames: seq<Frame>, codes: seq<RejectCode>)
    requires OneRound(crc, vehicle, s).Stop?
    ensures Scan(frames, codes, OneRound(crc, vehicle, s).residual)
            == Then(Scan(frames, codes, []), ScanAll(crc, vehicle, s))
  {
    hide OneRound;
    assert frames + [] == frames && codes + [] == codes;
  }

  lemma Rejected(crc: Crc32, vehicle: Option<int>, s: Bytes, frames: seq<Frame>, codes: seq<RejectCode>)
    requires OneRound(crc, vehicle, s).Reject?
    ensures (var r := OneRound(crc, vehicle, s);
      && |r.rest| < |s|
      && Then(Scan(frames, codes + [r.code], []), ScanAll(crc, vehicle, r.rest))
         == Then(Scan(frames, codes, []), ScanAll(crc, vehicle, s)))
  {
    RoundShortens(crc, vehicle, s);
    hide OneRound;
    var r := OneRound(crc, vehicle, s);
    assert (codes + [r.code]) + ScanAll(crc, vehicle, r.rest).rejections
           == codes + ([r.code] + ScanAll(crc, vehicle, r.rest).rejections);
  }

  lemma Taken(crc: Crc32, vehicle: Option<int>, s: Bytes, frames: seq<Frame>, codes: seq<RejectCode>)
    requires OneRound(crc, vehicle, s).Take?
    ensures (var r := OneRound(crc, vehicle, s);
      && |r.rest| < |s|
      && Then(Scan(frames + [r.frame], codes, []), ScanAll(crc, vehicle, r.rest))
         == Then(Scan(frames, codes, []), ScanAll(crc, vehicle, s)))
  {
    RoundShortens(crc, vehicle, s);
    hide OneRound;
    var r := OneRound(crc, vehicle, s);
    assert (frames + [r.frame]) + ScanAll(crc, vehicle, r.rest).frames
           == frames + ([r.frame] + ScanAll(crc, vehicle, r.rest).frames);
  }
}
