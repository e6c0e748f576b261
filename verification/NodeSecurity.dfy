/** Admission of node requests: a token bucket and a nonce cache for each node. */
module NodeSecurity {
  import opened Outcomes

  const MAX_BODY: nat := 16384
  const KEEP: real := 60.0

  type Key = string

  /** A request as its headers give it; a node or time that is no number is none. */
  datatype Request =
    Request(size: nat, node: Option<int>, timestamp: Option<int>, nonce: string, signature: string, content: string)

  /** `sign_message` over the request's digest */
  type Signer = (Key, Request) -> string

  datatype Bucket = Bucket(tokens: real, last: real)

  /** A request that was accepted, with the two clocks at that time; kept only to speak about a run. */
  datatype Accepted = Accepted(node: int, request: Request, wall: int, time: real)

  /** It is an acceptance of this nonce from this node at this time. */
  predicate Is(a: Accepted, node: int, nonce: string, time: real) {
    a.node == node && a.request.nonce == nonce && a.time == time
  }

  datatype Security = Security(keys: map<int, Key>, previous: map<int, Key>, buckets: map<int, Bucket>,
                               seen: map<int, map<string, real>>, history: seq<Accepted>)

  /** The limiter's rate and burst. */
  datatype Limits = Limits(rate: real, burst: real)

  datatype Refusal =
    | TooLarge | Malformed | UnknownNode | OutsideWindow | RateExceeded | Replay | BadSignature | KeyTooShort

  function Min(a: real, b: real): real { if a <= b then a else b }

  /** The tokens that come back in a time `dt`. */
  function Gain(lim: Limits, dt: real): real { dt * lim.rate }

  /** The tokens a node has at `now`. */
  function Level(lim: Limits, s: Security, node: int, now: real): real {
    if node in s.buckets
    then Min(lim.burst, s.buckets[node].tokens + Gain(lim, now - s.buckets[node].last))
    else Min(lim.burst, lim.burst)
  }

  /** The nonces of a node that are still remembered at `now`. */
  function Remembered(s: Security, node: int, now: real): map<string, real> {
    if node in s.seen then map n | n in s.seen[node] && s.seen[node][n] > now :: s.seen[node][n] else map[]
  }

  /** What must hold before a request reaches the limiter. */
  function Screen(s: Security, r: Request, expected: int, wall: int): Option<Refusal> {
    if r.size > MAX_BODY then Some(TooLarge)
    else if r.node.None? || r.timestamp.None? then Some(Malformed)
    else if r.node.value != expected || r.node.value !in s.keys then Some(UnknownNode)
    else if wall - r.timestamp.value > 30 || r.timestamp.value - wall > 30 then Some(OutsideWindow)
    else None
  }

  /** The request reaches the limiter and passes it. */
  predicate Passes(lim: Limits, s: Security, r: Request, expected: int, wall: int, now: real) {
    Screen(s, r, expected, wall) == None && Level(lim, s, expected, now) >= 1.0
  }

  /** One token is taken and forgotten nonces are dropped, whatever becomes of the request. */
  function Charged(lim: Limits, s: Security, node: int, now: real): Security {
    s.(buckets := s.buckets[node := Bucket(Level(lim, s, node, now) - 1.0, now)],
       seen := s.seen[node := Remembered(s, node, now)])
  }

  function PreviousKey(s: Security, node: int): Key { if node in s.previous then s.previous[node] else "" }

  predicate Signed(sign: Signer, s: Security, r: Request)
    requires r.node.Some? && r.node.value in s.keys
  {
    r.signature == sign(s.keys[r.node.value], r) || r.signature == sign(PreviousKey(s, r.node.value), r)
  }

  /** `verify_node`: what is refused, and the tables afterwards. */
  function Verify(sign: Signer, lim: Limits, s: Security, r: Request, expected: int, wall: int, now: real)
    : (Security, Option<Refusal>) {
    if Screen(s, r, expected, wall).Some? then (s, Screen(s, r, expected, wall))
    else if Level(lim, s, expected, now) < 1.0 then (s, Some(RateExceeded))
    else
      var t := Charged(lim, s, expected, now);
      if r.nonce == "" || r.nonce in t.seen[expected] then (t, Some(Replay))
      else if !Signed(sign, s, r) then (t, Some(BadSignature))
      else
        (t.(seen := t.seen[expected := t.seen[expected][r.nonce := now + KEEP]],
            history := t.history + [Accepted(expected, r, wall, now)]), None)
  }

  /** `rotate_node_key`; an unknown node is refused where the source fails on the missing key. */
  function Rotate(s: Security, node: int, key: Key): (Security, Option<Refusal>) {
    if |key| < 32 then (s, Some(KeyTooShort))
    else if node !in s.keys then (s, Some(UnknownNode))
    else (s.(previous := s.previous[node := s.keys[node]], keys := s.keys[node := key]), None)
  }

  // ---------------------------------------------------------------- runs

  datatype Op =
    | RequestOp(request: Request, expected: int, wall: int)
    | RotateOp(node: int, key: Key)

  /** An operation and the reading of the clock it happens at. */
  datatype Timed = Timed(op: Op, now: real)

  function Step(sign: Signer, lim: Limits, s: Security, e: Timed): Security {
    match e.op
    case RequestOp(r, expected, wall) => Verify(sign, lim, s, r, expected, wall, e.now).0
    case RotateOp(node, key) => Rotate(s, node, key).0
  }

  function Run(sign: Signer, lim: Limits, s: Security, run: seq<Timed>): Security {
    if run == [] then s else Step(sign, lim, Run(sign, lim, s, run[..|run| - 1]), run[|run| - 1])
  }

  /** The clock does not run backwards, and starts no earlier than `from`. */
  predicate Forward(run: seq<Timed>, from: real) {
    && (forall i :: 0 <= i < |run| ==> from <= run[i].now)
    && (forall i, j :: 0 <= i < j < |run| ==> run[i].now <= run[j].now)
  }

  // ---------------------------------------------------------------- the limiter

  predicate LimitsOk(lim: Limits) { lim.rate >= 0.0 && lim.burst >= 0.0 }

  /** Every bucket was last charged by `now` and is not overdrawn. */
  predicate BucketsOk(lim: Limits, s: Security, now: real) {
    forall n :: n in s.buckets ==> s.buckets[n].last <= now && s.buckets[n].tokens >= 0.0
  }

  /** The step is a request of this node that passes the limiter. */
  predicate Counted(lim: Limits, s: Security, e: Timed, node: int) {
    e.op.RequestOp? && e.op.expected == node && Passes(lim, s, e.op.request, node, e.op.wall, e.now)
  }

  /** How many requests of the node pass the limiter in the run. */
  function Count(sign: Signer, lim: Limits, s: Security, run: seq<Timed>, node: int): nat {
    if run == [] then 0
    else
      var before := run[..|run| - 1];
      Count(sign, lim, s, before, node) + if Counted(lim, Run(sign, lim, s, before), run[|run| - 1], node) then 1 else 0
  }

  lemma GainFacts(lim: Limits, dt: real, du: real)
    requires lim.rate >= 0.0 && dt >= 0.0
    ensures Gain(lim, dt) >= 0.0 && Gain(lim, 0.0) == 0.0
    ensures Gain(lim, dt + du) == Gain(lim, dt) + Gain(lim, du)
  {
  }

  /** Between two readings of the clock a node gains at most what the rate gives, and never more than the burst. */
  lemma LevelGrows(lim: Limits, s: Security, node: int, t: real, u: real)
    requires LimitsOk(lim) && BucketsOk(lim, s, t) && t <= u
    ensures 0.0 <= Level(lim, s, node, t) <= Level(lim, s, node, u) <= Level(lim, s, node, t) + Gain(lim, u - t)
    ensures Level(lim, s, node, u) <= lim.burst
  {
    hide Gain;
    GainFacts(lim, u - t, 0.0);
    if node in s.buckets {
      var last := s.buckets[node].last;
      GainFacts(lim, t - last, u - t);
      assert (t - last) + (u - t) == u - last;
    }
  }

  /** Only a request that passes the limiter changes a bucket, and only its own node's. */
  lemma StepBuckets(sign: Signer, lim: Limits, s: Security, e: Timed)
    ensures Step(sign, lim, s, e).buckets
         == if e.op.RequestOp? && Counted(lim, s, e, e.op.expected)
            then s.buckets[e.op.expected := Bucket(Level(lim, s, e.op.expected, e.now) - 1.0, e.now)] else s.buckets
  {
    hide Level, Remembered, Signed;
  }

  /** A step takes exactly one token for a request that passes and none otherwise; other nodes are not touched. */
  lemma StepTakes(sign: Signer, lim: Limits, s: Security, e: Timed, node: int)
    requires LimitsOk(lim) && BucketsOk(lim, s, e.now)
    ensures BucketsOk(lim, Step(sign, lim, s, e), e.now)
    ensures Level(lim, Step(sign, lim, s, e), node, e.now)
         == Level(lim, s, node, e.now) - if Counted(lim, s, e, node) then 1.0 else 0.0
  {
    hide Remembered, Signed, Gain, Step, Screen;
    StepBuckets(sign, lim, s, e);
    LevelGrows(lim, s, node, e.now, e.now);
    GainFacts(lim, 0.0, 0.0);
    assert e.now - e.now == 0.0;
  }

  lemma BucketsLater(lim: Limits, s: Security, t: real, u: real)
    requires BucketsOk(lim, s, t) && t <= u
    ensures BucketsOk(lim, s, u)
  {
  }

  /** The tokens spent in a run are covered by what was there and what was gained. */
  lemma {:induction false} RunTakes(sign: Signer, lim: Limits, s: Security, run: seq<Timed>, node: int, from: real,
                                    to: real)
    requires LimitsOk(lim) && BucketsOk(lim, s, from) && Forward(run, from) && from <= to
    requires run != [] ==> run[|run| - 1].now <= to
    ensures BucketsOk(lim, Run(sign, lim, s, run), to)
    ensures Count(sign, lim, s, run, node) as real + Level(lim, Run(sign, lim, s, run), node, to)
         <= Level(lim, s, node, from) + Gain(lim, to - from)
    decreases |run|
  {
    hide Level, Step, BucketsOk, Counted, Gain;
    if run == [] {
      BucketsLater(lim, s, from, to);
      LevelGrows(lim, s, node, from, to);
    } else {
      var before, e := run[..|run| - 1], run[|run| - 1];
      var mid := Run(sign, lim, s, before);
      RunTakes(sign, lim, s, before, node, from, e.now);
      StepTakes(sign, lim, mid, e, node);
      BucketsLater(lim, Step(sign, lim, mid, e), e.now, to);
      LevelGrows(lim, Step(sign, lim, mid, e), node, e.now, to);
      GainFacts(lim, e.now - from, to - e.now);
      assert (e.now - from) + (to - e.now) == to - from;
    }
  }

  /** In any window of length `d`, at most `burst + rate * d` requests of a node pass the limiter. */
  lemma WindowBound(sign: Signer, lim: Limits, s: Security, run: seq<Timed>, node: int, from: real, d: real)
    requires LimitsOk(lim) && BucketsOk(lim, s, from) && Forward(run, from) && d >= 0.0
    requires run != [] ==> run[|run| - 1].now <= from + d
    ensures Count(sign, lim, s, run, node) as real <= lim.burst + lim.rate * d
  {
    hide Level, Count, BucketsOk, Forward, Run;
    RunTakes(sign, lim, s, run, node, from, from + d);
    LevelGrows(lim, s, node, from, from);
    LevelGrows(lim, Run(sign, lim, s, run), node, from + d, from + d);
  }

  /** With room for one token, a node that was let through is let through again once the rate has given one back. */
  lemma Recovers(lim: Limits, s: Security, node: int, now: real)
    requires LimitsOk(lim) && lim.burst >= 1.0 && node in s.buckets && s.buckets[node].tokens >= 0.0
    requires Gain(lim, now - s.buckets[node].last) >= 1.0
    ensures Level(lim, s, node, now) >= 1.0
  {
  }

  // ---------------------------------------------------------------- the nonce cache

  /** `now` is still within the 60 time units after `t`. */
  predicate Recent(t: real, now: real) { now < t + KEEP }

  /** The node accepted this nonce not long ago. */
  predicate Used(s: Security, node: int, nonce: string, now: real) {
    exists i :: 0 <= i < |s.history| && s.history[i].node == node && s.history[i].request.nonce == nonce
        && Recent(s.history[i].time, now)
  }

  /** What is remembered was accepted 60 before it expires. */
  ghost predicate NothingInvented(s: Security) {
    forall node, nonce :: node in s.seen && nonce in s.seen[node]
      ==> exists i :: 0 <= i < |s.history| && Is(s.history[i], node, nonce, s.seen[node][nonce] - KEEP)
  }

  /** Accepted entry `i` is remembered for its 60 time units. */
  predicate Kept(s: Security, i: nat, now: real)
    requires i < |s.history|
  {
    var a := s.history[i];
    Recent(a.time, now)
    ==> a.node in s.seen && a.request.nonce in s.seen[a.node] && s.seen[a.node][a.request.nonce] >= a.time + KEEP
  }

  ghost predicate NoncesOk(s: Security, now: real) {
    NothingInvented(s) && (forall i :: 0 <= i < |s.history| ==> Kept(s, i, now) && s.history[i].time <= now)
  }

  /** The cache answers the question it is for: a nonce is remembered exactly when it was accepted less than 60 ago. */
  lemma RememberedIsUsed(s: Security, node: int, nonce: string, now: real)
    requires NoncesOk(s, now)
    ensures nonce in Remembered(s, node, now) <==> Used(s, node, nonce, now)
  {
    if nonce in Remembered(s, node, now) {
      var i :| 0 <= i < |s.history| && Is(s.history[i], node, nonce, s.seen[node][nonce] - KEEP);
      assert Recent(s.history[i].time, now);
    }
    if Used(s, node, nonce, now) {
      var i :| 0 <= i < |s.history| && s.history[i].node == node && s.history[i].request.nonce == nonce
          && Recent(s.history[i].time, now);
      assert Kept(s, i, now);
    }
  }

  /** A request that passes the limiter is called a replay exactly when it has no nonce or the node used it within
      60. */
  lemma ReplayExactly(sign: Signer, lim: Limits, s: Security, r: Request, expected: int, wall: int, now: real)
    requires NoncesOk(s, now) && Passes(lim, s, r, expected, wall, now)
    ensures Verify(sign, lim, s, r, expected, wall, now).1 == Some(Replay)
            <==> r.nonce == "" || Used(s, expected, r.nonce, now)
  {
    hide Level, Remembered, Used, NoncesOk, Signed;
    RememberedIsUsed(s, expected, r.nonce, now);
  }

  lemma NoncesLater(s: Security, t: real, u: real)
    requires NoncesOk(s, t) && t <= u
    ensures NoncesOk(s, u)
  {
    forall i | 0 <= i < |s.history| ensures Kept(s, i, u) { assert Kept(s, i, t); }
  }

  lemma ChargedKeepsNonces(lim: Limits, s: Security, node: int, now: real)
    requires NoncesOk(s, now)
    ensures NoncesOk(Charged(lim, s, node, now), now)
  {
    hide Level;
    var t := Charged(lim, s, node, now);
    forall i | 0 <= i < |t.history| ensures Kept(t, i, now) { assert Kept(s, i, now); }
  }

  lemma AcceptKeepsNonces(s: Security, node: int, r: Request, wall: int, now: real)
    requires NoncesOk(s, now) && node in s.seen
    ensures NoncesOk(s.(seen := s.seen[node := s.seen[node][r.nonce := now + KEEP]],
                        history := s.history + [Accepted(node, r, wall, now)]), now)
  {
    var t := s.(seen := s.seen[node := s.seen[node][r.nonce := now + KEEP]],
                history := s.history + [Accepted(node, r, wall, now)]);
    forall i | 0 <= i < |t.history| ensures Kept(t, i, now) && t.history[i].time <= now {
      if i < |s.history| { assert Kept(s, i, now) && t.history[i] == s.history[i]; }
    }
    forall m, n | m in t.seen && n in t.seen[m]
      ensures exists i :: 0 <= i < |t.history| && Is(t.history[i], m, n, t.seen[m][n] - KEEP)
    {
      if m == node && n == r.nonce {
        assert Is(t.history[|s.history|], m, n, t.seen[m][n] - KEEP);
      } else {
        var i :| 0 <= i < |s.history| && Is(s.history[i], m, n, s.seen[m][n] - KEEP);
        assert t.history[i] == s.history[i];
      }
    }
  }

  lemma StepKeepsNonces(sign: Signer, lim: Limits, s: Security, e: Timed)
    requires NoncesOk(s, e.now)
    ensures NoncesOk(Step(sign, lim, s, e), e.now)
  {
    hide Level, Remembered, NothingInvented, Signed;
    if e.op.RequestOp? {
      ChargedKeepsNonces(lim, s, e.op.expected, e.now);
      AcceptKeepsNonces(Charged(lim, s, e.op.expected, e.now), e.op.expected, e.op.request, e.op.wall, e.now);
    } else {
      forall i | 0 <= i < |s.history| ensures Kept(Step(sign, lim, s, e), i, e.now) { assert Kept(s, i, e.now); }
      RotateKeepsNonces(s, e.op.node, e.op.key);
    }
  }

  lemma RotateKeepsNonces(s: Security, node: int, key: Key)
    requires NothingInvented(s)
    ensures NothingInvented(Rotate(s, node, key).0)
  {
  }

  lemma {:induction false} RunKeepsNonces(sign: Signer, lim: Limits, s: Security, run: seq<Timed>, from: real, to: real)
    requires NoncesOk(s, from) && Forward(run, from) && from <= to && (run != [] ==> run[|run| - 1].now <= to)
    ensures NoncesOk(Run(sign, lim, s, run), to)
    decreases |run|
  {
    hide NoncesOk, Step;
    if run == [] {
      NoncesLater(s, from, to);
    } else {
      var e := run[|run| - 1];
      var mid := Run(sign, lim, s, run[..|run| - 1]);
      RunKeepsNonces(sign, lim, s, run[..|run| - 1], from, e.now);
      StepKeepsNonces(sign, lim, mid, e);
      NoncesLater(Step(sign, lim, mid, e), e.now, to);
    }
  }

  /** In every run no node has a nonce accepted twice within 60 time units. */
  ghost predicate Spaced(s: Security) {
    forall i, j ::
      && 0 <= i < j < |s.history| && s.history[i].node == s.history[j].node
      && s.history[i].request.nonce == s.history[j].request.nonce
      ==> s.history[j].time >= s.history[i].time + KEEP
  }

  lemma StepKeepsSpaced(sign: Signer, lim: Limits, s: Security, e: Timed)
    requires Spaced(s) && NoncesOk(s, e.now)
    ensures Spaced(Step(sign, lim, s, e))
  {
    hide Level, Remembered, NoncesOk, Signed;
    if e.op.RequestOp? {
      RememberedIsUsed(s, e.op.expected, e.op.request.nonce, e.now);
    }
  }

  lemma {:induction false} NoNonceTwice(sign: Signer, lim: Limits, s: Security, run: seq<Timed>, from: real)
    requires Spaced(s) && NoncesOk(s, from) && Forward(run, from)
    ensures Spaced(Run(sign, lim, s, run))
    decreases |run|
  {
    hide NoncesOk, Spaced, Step;
    if run != [] {
      var e := run[|run| - 1];
      var before := run[..|run| - 1];
      NoNonceTwice(sign, lim, s, before, from);
      RunKeepsNonces(sign, lim, s, before, from, e.now);
      StepKeepsSpaced(sign, lim, Run(sign, lim, s, before), e);
    }
  }

  /** A context as it is made. */
  function Made(keys: map<int, Key>): Security { Security(keys, map[], map[], map[], []) }

  /** From the start of the server on, whatever is requested and however keys are changed. */
  lemma NoNonceTwiceEver(sign: Signer, lim: Limits, keys: map<int, Key>, run: seq<Timed>, from: real)
    requires Forward(run, from)
    ensures Spaced(Run(sign, lim, Made(keys), run))
  {
    hide Run, Forward;
    NoNonceTwice(sign, lim, Made(keys), run, from);
  }

  // ---------------------------------------------------------------- sending an accepted request again

  /** Whatever is accepted is small enough, for the node expected, and stamped within 30 of the wall clock. */
  lemma AcceptedInTime(sign: Signer, lim: Limits, s: Security, r: Request, expected: int, wall: int, now: real)
    requires Verify(sign, lim, s, r, expected, wall, now).1 == None
    ensures r.size <= 16384 && r.node == Some(expected) && r.nonce != ""
    ensures r.timestamp.Some? && -30 <= wall - r.timestamp.value <= 30
  {
    hide Level, Remembered, Signed;
  }

  predicate InTime(a: Accepted) {
    && a.request.node == Some(a.node) && a.request.size <= 16384 && a.request.nonce != ""
    && a.request.timestamp.Some? && -30 <= a.wall - a.request.timestamp.value <= 30
  }

  predicate AllInTime(s: Security) { forall i :: 0 <= i < |s.history| ==> InTime(s.history[i]) }

  /** The wall clock goes with the clock and is read in whole seconds. */
  predicate ReadsWall(wall: int, now: real, offset: real) { wall == (now + offset).Floor }

  predicate WallGoes(run: seq<Timed>, offset: real) {
    forall i :: 0 <= i < |run| && run[i].op.RequestOp? ==> ReadsWall(run[i].op.wall, run[i].now, offset)
  }

  predicate WallWent(s: Security, offset: real) {
    forall i :: 0 <= i < |s.history| ==> ReadsWall(s.history[i].wall, s.history[i].time, offset)
  }

  lemma StepHistory(sign: Signer, lim: Limits, s: Security, e: Timed)
    ensures (var t := Step(sign, lim, s, e);
             t.history == s.history
             || (e.op.RequestOp? && Verify(sign, lim, s, e.op.request, e.op.expected, e.op.wall, e.now).1 == None
                 && t.history == s.history + [Accepted(e.op.expected, e.op.request, e.op.wall, e.now)]))
  {
    hide Level, Remembered, Signed;
  }

  lemma {:induction false} RunInTime(sign: Signer, lim: Limits, s: Security, run: seq<Timed>)
    requires AllInTime(s)
    ensures AllInTime(Run(sign, lim, s, run))
    decreases |run|
  {
    hide Step, Verify;
    if run != [] {
      var e := run[|run| - 1];
      var mid := Run(sign, lim, s, run[..|run| - 1]);
      RunInTime(sign, lim, s, run[..|run| - 1]);
      StepHistory(sign, lim, mid, e);
      if Step(sign, lim, mid, e).history != mid.history {
        AcceptedInTime(sign, lim, mid, e.op.request, e.op.expected, e.op.wall, e.now);
      }
    }
  }

  lemma {:induction false} RunWall(sign: Signer, lim: Limits, s: Security, run: seq<Timed>, offset: real)
    requires WallWent(s, offset) && WallGoes(run, offset)
    ensures WallWent(Run(sign, lim, s, run), offset)
    decreases |run|
  {
    hide Step, Verify, ReadsWall;
    if run != [] {
      var e := run[|run| - 1];
      RunWall(sign, lim, s, run[..|run| - 1], offset);
      StepHistory(sign, lim, Run(sign, lim, s, run[..|run| - 1]), e);
      assert e.op.RequestOp? ==> ReadsWall(e.op.wall, e.now, offset);
    }
  }

  /** In every run: when one request is accepted twice, at least 60 passed on the clock between the two and at most 60
      on the wall. */
  lemma AcceptedTwice(sign: Signer, lim: Limits, keys: map<int, Key>, run: seq<Timed>, from: real, i: nat, j: nat)
    requires Forward(run, from)
    requires (var h := Run(sign, lim, Made(keys), run).history; i < j < |h| && h[i].request == h[j].request)
    ensures (var h := Run(sign, lim, Made(keys), run).history;
             h[j].time - h[i].time >= 60.0 && h[j].wall - h[i].wall <= 60)
  {
    hide Run, Forward;
    NoNonceTwiceEver(sign, lim, keys, run, from);
    RunInTime(sign, lim, Made(keys), run);
    var h := Run(sign, lim, Made(keys), run).history;
    assert InTime(h[i]) && InTime(h[j]);
  }

  lemma FloorApart(x: real, y: real)
    ensures y >= x + 60.0 ==> y.Floor >= x.Floor + 60
    ensures y.Floor <= x.Floor + 60 ==> y < x + 61.0
  {
  }

  /** If the wall clock goes with the clock, only a request stamped exactly 30 ahead can be accepted twice, and only in
      the second that begins 60 after. */
  lemma AcceptedTwiceWhen(sign: Signer, lim: Limits, keys: map<int, Key>, run: seq<Timed>, from: real, offset: real,
                          i: nat, j: nat)
    requires Forward(run, from) && WallGoes(run, offset)
    requires (var h := Run(sign, lim, Made(keys), run).history; i < j < |h| && h[i].request == h[j].request)
    ensures (var h := Run(sign, lim, Made(keys), run).history;
             60.0 <= h[j].time - h[i].time < 61.0 && h[j].wall == h[i].wall + 60
             && h[i].request.timestamp == Some(h[i].wall + 30))
  {
    hide Run, Forward, WallGoes;
    AcceptedTwice(sign, lim, keys, run, from, i, j);
    RunInTime(sign, lim, Made(keys), run);
    RunWall(sign, lim, Made(keys), run, offset);
    var h := Run(sign, lim, Made(keys), run).history;
    assert InTime(h[i]) && InTime(h[j]);
    assert ReadsWall(h[i].wall, h[i].time, offset) && ReadsWall(h[j].wall, h[j].time, offset);
    FloorApart(h[i].time + offset, h[j].time + offset);
  }

  /** The nonce was last accepted as entry `i`. */
  predicate LastUse(s: Security, i: nat)
    requires i < |s.history|
  {
    forall j :: i < j < |s.history| ==>
      s.history[j].node != s.history[i].node || s.history[j].request.nonce != s.history[i].request.nonce
  }

  lemma UsedByLast(s: Security, i: nat, now: real)
    requires i < |s.history| && Spaced(s) && LastUse(s, i)
    ensures Used(s, s.history[i].node, s.history[i].request.nonce, now) <==> Recent(s.history[i].time, now)
  {
    if Recent(s.history[i].time, now) { assert s.history[i].node == s.history[i].node; }
  }

  /**
   * Sent once more, an accepted request that is still signed and has room in the limiter is accepted again exactly in
   * that case: 60 have passed, the wall clock reads 60 more, and the request was stamped exactly 30 ahead.
   */
  lemma AcceptedAgainExactly(sign: Signer, lim: Limits, keys: map<int, Key>, run: seq<Timed>, from: real, offset: real,
                             i: nat, wall: int, now: real)
    requires Forward(run, from) && from <= now && (run != [] ==> run[|run| - 1].now <= now)
    requires WallGoes(run, offset) && ReadsWall(wall, now, offset)
    requires (var s := Run(sign, lim, Made(keys), run);
              i < |s.history| && LastUse(s, i)
              && (var a := s.history[i];
                  a.node in s.keys && a.request.node == Some(a.node) && Signed(sign, s, a.request)
                  && Level(lim, s, a.node, now) >= 1.0))
    ensures (var s := Run(sign, lim, Made(keys), run);
             var a := s.history[i];
             Verify(sign, lim, s, a.request, a.node, wall, now).1 == None
             <==> now - a.time >= 60.0 && wall == a.wall + 60 && a.request.timestamp == Some(a.wall + 30))
  {
    hide Run, Forward, WallGoes, Level, Remembered, Used, NoncesOk, Signed, Spaced, LastUse;
    var s := Run(sign, lim, Made(keys), run);
    var a := s.history[i];
    NoNonceTwiceEver(sign, lim, keys, run, from);
    RunInTime(sign, lim, Made(keys), run);
    RunWall(sign, lim, Made(keys), run, offset);
    assert InTime(a) && ReadsWall(a.wall, a.time, offset);
    FloorApart(a.time + offset, now + offset);
    MadeOk(keys, from);
    RunKeepsNonces(sign, lim, Made(keys), run, from, now);
    RememberedIsUsed(s, a.node, a.request.nonce, now);
    UsedByLast(s, i, now);
  }

  /** It does happen: any signed request is accepted 30 before its stamp, and again 60 later. */
  lemma AcceptedAgainHappens(sign: Signer, lim: Limits, keys: map<int, Key>, r: Request, node: int)
    requires lim.rate >= 0.0 && lim.burst >= 2.0 && node in keys && r.node == Some(node)
             && r.signature == sign(keys[node], r)
    requires r.size <= 16384 && r.timestamp.Some? && r.nonce != ""
    ensures (var early := Timed(RequestOp(r, node, r.timestamp.value - 30), 0.0);
             var late := Timed(RequestOp(r, node, r.timestamp.value + 30), 60.0);
             WallGoes([early, late], (r.timestamp.value - 30) as real)
             && |Run(sign, lim, Made(keys), [early, late]).history| == 2)
  {
    var t := r.timestamp.value;
    var early, late := Timed(RequestOp(r, node, t - 30), 0.0), Timed(RequestOp(r, node, t + 30), 60.0);
    WholeFloor(t);
    var s := Step(sign, lim, Made(keys), early);
    assert [early, late][..1] == [early] && [early][..0] == [];
    assert Run(sign, lim, Made(keys), [early]) == s;
    GainFacts(lim, 60.0, 0.0);
    assert s.buckets[node] == Bucket(lim.burst - 1.0, 0.0) && s.seen[node] == map[r.nonce := 60.0];
    hide Gain;
    assert Step(sign, lim, s, late).history == s.history + [Accepted(node, r, t + 30, 60.0)];
  }

  lemma WholeFloor(t: int)
    ensures (0.0 + (t - 30) as real).Floor == t - 30 && (60.0 + (t - 30) as real).Floor == t + 30
  {
    assert 60.0 + (t - 30) as real == (t + 30) as real;
  }

  /** The bound for any stretch of a run, whatever happened before it. */
  lemma WindowBoundEver(sign: Signer, lim: Limits, keys: map<int, Key>, before: seq<Timed>, window: seq<Timed>,
                        node: int, start: real, from: real, d: real)
    requires LimitsOk(lim) && d >= 0.0 && start <= from && Forward(before, start) && Forward(window, from)
    requires before != [] ==> before[|before| - 1].now <= from
    requires window != [] ==> window[|window| - 1].now <= from + d
    ensures Count(sign, lim, Run(sign, lim, Made(keys), before), window, node) as real <= lim.burst + lim.rate * d
  {
    hide Run, Forward, Count;
    RunTakes(sign, lim, Made(keys), before, node, start, from);
    WindowBound(sign, lim, Run(sign, lim, Made(keys), before), window, node, from, d);
  }

  // ---------------------------------------------------------------- the keys

  /** The keys a node has had, the one it was made with first. */
  function KeysHad(keys: map<int, Key>, run: seq<Timed>, node: int): seq<Key> {
    if run == [] then (if node in keys then [keys[node]] else [])
    else
      var before := KeysHad(keys, run[..|run| - 1], node);
      var op := run[|run| - 1].op;
      if op.RotateOp? && op.node == node && |op.key| >= 32 && before != [] then before + [op.key] else before
  }

  /** The key tried beside the newest: the one before it, or the empty key while there has been no other. */
  function SecondKey(had: seq<Key>): Key { if |had| >= 2 then had[|had| - 2] else "" }

  lemma StepKeepsKeys(sign: Signer, lim: Limits, s: Security, e: Timed)
    ensures e.op.RequestOp? ==> Step(sign, lim, s, e).keys == s.keys && Step(sign, lim, s, e).previous == s.previous
  {
    hide Level, Remembered, Signed;
  }

  lemma {:induction false} KeysAre(sign: Signer, lim: Limits, keys: map<int, Key>, run: seq<Timed>, node: int)
    ensures (var s, had := Run(sign, lim, Made(keys), run), KeysHad(keys, run, node);
             (node in s.keys <==> had != []) && (had != [] ==> s.keys[node] == had[|had| - 1])
                 && PreviousKey(s, node) == SecondKey(had))
    decreases |run|
  {
    if run != [] {
      hide Verify;
      var e := run[|run| - 1];
      KeysAre(sign, lim, keys, run[..|run| - 1], node);
      StepKeepsKeys(sign, lim, Run(sign, lim, Made(keys), run[..|run| - 1]), e);
    }
  }

  lemma MadeOk(keys: map<int, Key>, from: real)
    ensures NoncesOk(Made(keys), from)
  {
  }

  /**
   * In any run, a request past the limiter that is no replay is accepted exactly when it is signed under the newest key
   * of its node or the one before it; before the first rotation the empty key stands in for that one.
   */
  lemma AcceptedUnder(sign: Signer, lim: Limits, keys: map<int, Key>, run: seq<Timed>, from: real,
                      r: Request, expected: int, wall: int, now: real)
    requires Forward(run, from) && from <= now && (run != [] ==> run[|run| - 1].now <= now)
    requires (var s := Run(sign, lim, Made(keys), run);
              Passes(lim, s, r, expected, wall, now) && r.nonce != "" && !Used(s, expected, r.nonce, now))
    ensures (var s, had := Run(sign, lim, Made(keys), run), KeysHad(keys, run, expected);
             had != [] && (Verify(sign, lim, s, r, expected, wall, now).1 == None
                           <==> r.signature == sign(had[|had| - 1], r) || r.signature == sign(SecondKey(had), r)))
  {
    hide Run, Level, Remembered, Used, NoncesOk, Forward;
    MadeOk(keys, from);
    RunKeepsNonces(sign, lim, Made(keys), run, from, now);
    KeysAre(sign, lim, keys, run, expected);
    RememberedIsUsed(Run(sign, lim, Made(keys), run), expected, r.nonce, now);
  }

  // ---------------------------------------------------------------- the context, updated in place

  class SecurityContext {
    const sign: Signer
    const limits: Limits
    var keys: map<int, Key>
    var previous: map<int, Key>
    var buckets: map<int, Bucket>
    var seen: map<int, map<string, real>>
    ghost var history: seq<Accepted>

    ghost function View(): Security
      reads this
    {
      Security(keys, previous, buckets, seen, history)
    }

    constructor (keys: map<int, Key>, sign: Signer, limits: Limits)
      ensures this.sign == sign && this.limits == limits && View() == Security(keys, map[], map[], map[], [])
    {
      this.sign, this.limits, this.keys := sign, limits, keys;
      previous, buckets, seen, history := map[], map[], map[], [];
    }

    /** `rotate_node_key` */
    method RotateNodeKey(node: int, key: Key) returns (error: Option<Refusal>)
      modifies this
      ensures (View(), error) == Rotate(old(View()), node, key)
    {
      if |key| < 32 { return Some(KeyTooShort); }
      if node !in keys { return Some(UnknownNode); }
      previous := previous[node := keys[node]];
      keys := keys[node := key];
      return None;
    }

    /** The node's nonces that have expired are dropped. */
    method Forget(node: int, now: real)
      modifies this`seen
      ensures seen == old(seen)[node := Remembered(old(View()), node, now)]
    {
      if node !in seen { seen := seen[node := map[]]; }
      ghost var all := seen[node];
      var left := seen[node].Keys;
      while left != {}
        invariant node in seen && left <= seen[node].Keys && seen == old(seen)[node := seen[node]]
        invariant forall n :: n in seen[node] ==> n in all && seen[node][n] == all[n]
        invariant forall n :: n in all && n !in left ==> (n in seen[node] <==> all[n] > now)
        decreases |left|
      {
        var nonce :| nonce in left;
        left := left - {nonce};
        if seen[node][nonce] <= now { seen := seen[node := seen[node] - {nonce}]; }
      }
      assert seen[node] == Remembered(old(View()), node, now);
    }

    /** `verify_node` */
    method VerifyNode(r: Request, expected: int, wall: int, now: real) returns (error: Option<Refusal>)
      modifies this
      ensures (View(), error) == Verify(sign, limits, old(View()), r, expected, wall, now)
    {
      hide Remembered;
      if r.size > MAX_BODY { return Some(TooLarge); }
      if r.node.None? || r.timestamp.None? { return Some(Malformed); }
      var node := r.node.value;
      if node != expected || node !in keys { return Some(UnknownNode); }
      if wall - r.timestamp.value > 30 || r.timestamp.value - wall > 30 { return Some(OutsideWindow); }
      var bucket := if node in buckets then buckets[node] else Bucket(limits.burst, now);
      var tokens := Min(limits.burst, bucket.tokens + (now - bucket.last) * limits.rate);
      assert tokens == Level(limits, View(), node, now) by { NothingGained(limits.rate, now); }
      if tokens < 1.0 { return Some(RateExceeded); }
      Forget(node, now);
      buckets := buckets[node := Bucket(tokens - 1.0, now)];
      if r.nonce == "" || r.nonce in seen[node] { return Some(Replay); }
      var older := if node in previous then previous[node] else "";
      if r.signature != sign(keys[node], r) && r.signature != sign(older, r) { return Some(BadSignature); }
      seen := seen[node := seen[node][r.nonce := now + KEEP]];
      history := history + [Accepted(node, r, wall, now)];
      return None;
    }
  }

  lemma NothingGained(rate: real, now: real)
    ensures (now - now) * rate == 0.0
  {
  }
}
