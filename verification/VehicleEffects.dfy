/** What the commands of the server lead to at the vehicle and at its flight controller. */
module VehicleEffects {
  import opened Outcomes
  import opened Words
  import opened Octets
  import UartFrame
  import opened VehicleNode
  import opened VehicleSafety

  /** Exactly the packets that are well-formed, signed, for this vehicle, in time and newer than all before are
      accepted. */
  lemma AcceptExactly(id: Identity, newest: Newest, p: Packet, now: int)
    ensures Accept(id, newest, p, now).Ok?
            <==> && p.body.version == 1 && p.body.sender == id.server && p.body.vehicle == id.vehicle
                 && !p.body.command.OtherKind? && 1 <= p.body.ttl <= 1000 && id.size(p.body) <= 4096
                 && p.signature == id.sign(p.body) && p.body.issued - 10 <= now <= p.body.issued + p.body.ttl
                 && Before(newest, KeyOf(p))
  {
  }

  // ---------------------------------------------------------------- the mission

  /** The states of a mission in their order. */
  const PLAN: seq<MissionState> :=
    [Idle, Authorized, Launch, Form, TransitToLocker, Pickup, TransitToDestination, Deliver, Return, Land, Idle]

  /** The moves are those of the plan, into ABORT from anywhere between start and landing, and from there to rest
      again. */
  lemma MovesExactly(from: MissionState, to: MissionState)
    ensures MayMove(from, to)
            <==> || (exists i :: 0 <= i < 10 && PLAN[i] == from && PLAN[i + 1] == to)
                 || (to == Abort && exists i :: 1 <= i < 9 && PLAN[i] == from)
                 || (from == Abort && (to == Land || to == Fault))
                 || (from == Fault && to == Idle)
  {
    if MayMove(from, to) && to != Abort && from != Abort && from != Fault {
      var i := Place(from);
      assert PLAN[i] == from && PLAN[i + 1] == to;
    }
    if MayMove(from, Abort) { assert PLAN[Place(from)] == from; }
  }

  /** Where a state stands in the plan. */
  function Place(s: MissionState): (i: nat)
    ensures i < 10 && (s != Abort && s != Fault ==> PLAN[i] == s)
  {
    match s
    case Idle => 0 case Authorized => 1 case Launch => 2 case Form => 3 case TransitToLocker => 4 case Pickup => 5
    case TransitToDestination => 6 case Deliver => 7 case Return => 8 case Land => 9 case Abort => 0 case Fault => 0
  }

  /** The commands lead along the plan from place `i`: the assignment first, then the transitions. */
  predicate Follows(queue: seq<Packet>, i: nat) {
    && i + |queue| <= 10
    && forall j :: 0 <= j < |queue| ==>
         var c := queue[j].body.command;
         if i + j == 0 then c.Assign? && c.mission.Some? else c == Transition(Some(PLAN[i + j + 1]))
  }

  /** Commands that follow the plan are all carried out. */
  lemma {:induction false} PlanIsFlown(su: Setup, n: Node, i: nat, now: int)
    requires Follows(n.queue, i) && n.state == PLAN[i]
    ensures (var o := Drain(su, n, now); o.error == None && o.node.state == PLAN[i + |n.queue|] && o.node.queue == [])
    decreases |n.queue|
  {
    hide Perform, PLAN, MayMove;
    if n.queue != [] {
      var o := Perform(su, Take(n), n.queue[0], now);
      PerformKeepsQueue(su, Take(n), n.queue[0], now);
      FirstMove(su, n, i, now);
      RestFollows(n.queue, i);
      PlanIsFlown(su, o.node, i + 1, now);
    }
  }

  lemma RestFollows(queue: seq<Packet>, i: nat)
    requires queue != [] && Follows(queue, i)
    ensures Follows(queue[1..], i + 1)
  {
    assert |PLAN| == 11;
    hide PLAN;
    forall j | 0 <= j < |queue| - 1
      ensures queue[1..][j].body.command == Transition(Some(PLAN[i + 1 + j + 1]))
    {
      assert queue[1..][j] == queue[j + 1];
    }
  }

  lemma FirstMove(su: Setup, n: Node, i: nat, now: int)
    requires n.queue != [] && Follows(n.queue, i) && n.state == PLAN[i]
    ensures (var o := Perform(su, Take(n), n.queue[0], now); o.error == None && o.node.state == PLAN[i + 1])
  {
    MovesExactly(PLAN[i], PLAN[i + 1]);
    assert PLAN[1] == Authorized && PLAN[0] == Idle && |PLAN| == 11;
    hide PLAN, MayMove;
    assert i > 0 ==> n.queue[0].body.command == Transition(Some(PLAN[i + 0 + 1]));
  }

  /** An assignment is carried out exactly at rest; refused elsewhere, it has replaced the mission all the same. */
  lemma AssignExactly(su: Setup, n: Node, p: Packet, now: int)
    requires p.body.command.Assign? && p.body.command.mission.Some?
    ensures (var o := Perform(su, n, p, now);
             o.node.mission == p.body.command.mission && (o.error == None <==> n.state == Idle)
             && (o.error == None ==> o.node.state == Authorized) && (o.error != None ==> o.node.state == n.state))
  {
    hide FcReceive, SetpointPayload, InBounds;
  }

  // ---------------------------------------------------------------- aborts

  /** An abort packet at the head of the queue takes effect at once, and without failing. */
  lemma AbortAtOnce(su: Setup, n: Node, now: int)
    requires n.queue != [] && n.queue[0].body.command.AbortNow?
    ensures (var p, o := n.queue[0], Tick(su, n, now);
             p in o.node.applied && n.marks + [Taken(p), Entered(Abort)] <= o.node.marks
             && (|n.queue| == 1 ==> o.error == None && o.node.state == Abort))
  {
    var p := n.queue[0];
    var m := Perform(su, Take(n), p, now).node;
    assert m.marks == n.marks + [Taken(p), Entered(Abort)] && p == m.applied[|n.applied|];
    hide Perform;
    PerformKeepsQueue(su, Take(n), p, now);
    DrainAdds(su, m, now);
    DrainTakes(su, m, now);
    var o := Drain(su, n, now).node;
    assert o.applied[|n.applied|] == (m.applied + m.queue)[|n.applied|] || |o.applied| <= |n.applied|;
  }

  /** Working off the queue only adds to the marks and to what was applied. */
  lemma {:induction false} DrainAdds(su: Setup, n: Node, now: int)
    ensures (var o := Drain(su, n, now).node; n.marks <= o.marks && n.applied <= o.applied && o.cache == n.cache)
    decreases |n.queue|
  {
    hide Perform;
    if n.queue != [] {
      PerformAdds(su, Take(n), n.queue[0], now);
      PerformKeepsQueue(su, Take(n), n.queue[0], now);
      var o := Perform(su, Take(n), n.queue[0], now);
      if o.error.None? { DrainAdds(su, o.node, now); }
    }
  }

  lemma PerformAdds(su: Setup, n: Node, p: Packet, now: int)
    ensures (var o := Perform(su, n, p, now).node; n.marks <= o.marks && o.cache == n.cache)
  {
    hide FcReceive, SetpointPayload, InBounds, MayMove, MaySteer;
  }

  /** When the last packet of a queue that is worked off is an abort, the vehicle is in ABORT afterwards. */
  lemma {:induction false} AbortLast(su: Setup, n: Node, now: int)
    requires n.queue != [] && n.queue[|n.queue| - 1].body.command.AbortNow? && Tick(su, n, now).error == None
    ensures Tick(su, n, now).node.state == Abort
    decreases |n.queue|
  {
    var p := n.queue[0];
    if |n.queue| == 1 {
      AbortAtOnce(su, n, now);
    } else {
      hide Perform;
      PerformKeepsQueue(su, Take(n), p, now);
      AbortLast(su, Perform(su, Take(n), p, now).node, now);
    }
  }

  // ---------------------------------------------------------------- the silent line

  /** A tick gives the line up exactly if every queued command succeeds and nothing was heard for more than 300 ms; then
      the vehicle is in ABORT. */
  lemma TimeoutExactly(su: Setup, n: Node, now: int)
    requires n.cache.healthy
    ensures (var o := Tick(su, n, now);
             (!o.node.cache.healthy <==> o.error == None && now > n.cache.lastSeen + 300)
             && (!o.node.cache.healthy
                 ==> o.node.state == Abort && o.node.marks != [] && o.node.marks[|o.node.marks| - 1] == Entered(Abort)))
  {
    hide Drain;
    DrainAdds(su, n, now);
  }

  /** The line is still trusted since then, or has been given up with an abort. */
  predicate Watched(n: Node, since: Node) {
    && since.marks <= n.marks && n.cache.lastSeen == since.cache.lastSeen
    && (!n.cache.healthy ==> exists i :: |since.marks| <= i < |n.marks| && n.marks[i] == Entered(Abort))
  }

  lemma WatchedLater(n: Node, m: Node, since: Node)
    requires Watched(n, since) && n.marks <= m.marks && m.cache == n.cache
    ensures Watched(m, since)
  {
    if !n.cache.healthy {
      var i :| |since.marks| <= i < |n.marks| && n.marks[i] == Entered(Abort);
      assert m.marks[i] == Entered(Abort);
    }
  }

  lemma StepWatches(su: Setup, n: Node, op: Op, since: Node)
    requires Watched(n, since) && !op.ConnectOp?
    ensures Watched(Step(su, n, op), since)
  {
    hide Watched, Accept, Drain;
    match op
    case ReceiveOp(p, now) => WatchedLater(n, Step(su, n, op), since);
    case LineOp(online) => WatchedLater(n, Step(su, n, op), since);
    case TickOp(now) =>
      DrainAdds(su, n, now);
      var o := Drain(su, n, now).node;
      WatchedLater(n, o, since);
      GivenUp(o, now, since);
  }

  lemma GivenUp(n: Node, now: int, since: Node)
    requires Watched(n, since)
    ensures Watched(CheckLine(n, now), since)
  {
    var m := CheckLine(n, now);
    if n.cache.healthy && !m.cache.healthy {
      assert m.marks[|n.marks|] == Entered(Abort);
    } else {
      WatchedLater(n, m, since);
    }
  }

  lemma {:induction false} RunWatches(su: Setup, n: Node, ops: seq<Op>, since: Node)
    requires Watched(n, since) && forall op :: op in ops ==> !op.ConnectOp?
    ensures Watched(Run(su, n, ops), since)
    decreases |ops|
  {
    hide Watched, Step;
    if ops != [] {
      StepWatches(su, n, ops[0], since);
      RunWatches(su, Step(su, n, ops[0]), ops[1..], since);
    }
  }

  /** Whatever happens short of a new connection: by the first tick that succeeds more than 300 ms after the flight
      controller was last heard, the vehicle has entered ABORT. */
  lemma SilenceAborts(su: Setup, n: Node, ops: seq<Op>, now: int)
    requires n.cache.healthy && (forall op :: op in ops ==> !op.ConnectOp?)
    requires now > n.cache.lastSeen + 300 && Tick(su, Run(su, n, ops), now).error == None
    ensures (var m := Tick(su, Run(su, n, ops), now).node;
             exists i :: |n.marks| <= i < |m.marks| && m.marks[i] == Entered(Abort))
  {
    hide Run, Tick;
    RunWatches(su, n, ops, n);
    var r := Run(su, n, ops);
    StepWatches(su, r, TickOp(now), n);
    TickIs(su, r, now);
    if r.cache.healthy { TimeoutExactly(su, r, now); } else { StaysGivenUp(su, r, now); }
  }

  lemma TickIs(su: Setup, n: Node, now: int)
    ensures Step(su, n, TickOp(now)) == Tick(su, n, now).node
  {
  }

  lemma StaysGivenUp(su: Setup, n: Node, now: int)
    requires !n.cache.healthy
    ensures !Tick(su, n, now).node.cache.healthy
  {
    hide Drain;
    DrainAdds(su, n, now);
  }

  // ---------------------------------------------------------------- setpoints

  /** A signed 16-bit field, low byte first. */
  function ReadSigned2(a: byte, b: byte): int {
    if Read2(a, b) < 0x8000 then Read2(a, b) else Read2(a, b) - 0x1_0000
  }

  lemma ReadSigned2Pack(v: int)
    requires -0x8000 <= v < 0x8000
    ensures (var s := Pack2Signed(v); ReadSigned2(s[0], s[1]) == v)
  {
    hide Read2, Pack2;
    Read2Pack2(if v < 0 then v + 0x1_0000 else v);
  }

  /** The payload of a setpoint carries these values in these places. */
  predicate Carries(d: Bytes, session: nat, v: Values, validFor: int) {
    && |d| == 18 && Read8(d[..8]) == session
    && ReadSigned2(d[8], d[9]) == v.roll && ReadSigned2(d[10], d[11]) == v.pitch
    && ReadSigned2(d[12], d[13]) == v.yaw && ReadSigned2(d[14], d[15]) == v.vertical
    && Read2(d[16], d[17]) == validFor
  }

  /** All that was put into a setpoint is read back, each from its place. */
  lemma SetpointReadsBack(session: nat, v: Values, validFor: int)
    requires session < MAX_SESSION && InBounds(v, validFor)
    ensures Carries(SetpointPayload(session, v, validFor), session, v, validFor)
  {
    hide Read2, Pack2, Pack2Signed, ReadSigned2, Read8, Pack8;
    Read8Pack8(session);
    ReadSigned2Pack(v.roll);
    ReadSigned2Pack(v.pitch);
    ReadSigned2Pack(v.yaw);
    ReadSigned2Pack(v.vertical);
    Read2Pack2(validFor);
    var a, r, p, y, t, e :=
      Pack8(session), Pack2Signed(v.roll), Pack2Signed(v.pitch), Pack2Signed(v.yaw), Pack2Signed(v.vertical),
          Pack2(validFor);
    var d := SetpointPayload(session, v, validFor);
    assert d == a + r + p + y + t + e;
    assert d[8] == r[0] && d[9] == r[1] && d[10] == p[0] && d[11] == p[1];
    assert d[12] == y[0] && d[13] == y[1] && d[14] == t[0] && d[15] == t[1] && d[16] == e[0] && d[17] == e[1];
  }

  /** A setpoint that gets through is the last frame at the flight controller, with the values of the command and valid
      for as long as the packet lives, at most 100 ms. */
  lemma SteeringDelivers(su: Setup, n: Node, v: Values, ttl: int, now: int)
    requires n.session < MAX_SESSION && SteerBy(su, n, v, ttl, now).error == None
    ensures (var fc := SteerBy(su, n, v, ttl, now).node.line;
             |fc.frames| == |n.line.frames| + 1 && fc.session == n.line.session
             && (var f := fc.frames[|n.line.frames|];
                 f.messageType == UartFrame.SetStabilizedSetpoint && v.formation == Some(f.formationId)
                 && f.sequence == n.seq_ + 1 && f.uptimeMs == now && f.vehicleId == su.id.vehicle
                 && Carries(f.payload, n.session, v, if ttl < 100 then ttl else 100)))
  {
    hide FcReceive, Read8, Carries, InBounds, SetpointPayload, Pack8;
    var validFor := if ttl < 100 then ttl else 100;
    SetpointReadsBack(n.session, v, validFor);
    ReceivedAsSent(su.crc, n.line,
                   UartFrame.Frame(UartFrame.SetStabilizedSetpoint, su.id.vehicle, v.formation.value, n.seq_ + 1, now,
                                   SetpointPayload(n.session, v, validFor), UartFrame.VERSION));
  }

  /** The frame greets with role and version 1 and a session. */
  predicate Greets(f: UartFrame.Frame, session: nat) {
    && f.messageType == UartFrame.Hello && f.formationId == 0 && |f.payload| == 11
    && Value(f.payload[0]) == 1 && Value(f.payload[1]) == 1 && Value(f.payload[2]) == 1
    && Read8(f.payload[3..]) == session
  }

  /** A connection leaves the flight controller with one frame, which greets it with the new session. */
  lemma GreetingArrives(su: Setup, n: Node, draws: seq<nat>, now: int)
    requires (forall d :: d in draws ==> d < MAX_SESSION) && Connect(su, n, draws, now).error == None
    ensures (var m := Connect(su, n, draws, now).node;
             |m.line.frames| == 1 && Greets(m.line.frames[0], m.session) && m.line.frames[0].sequence == n.seq_ + 1
             && m.line.frames[0].uptimeMs == now && m.line.frames[0].vehicleId == su.id.vehicle)
  {
    hide FcReceive, Greets, HelloPayload, NewSession, Pack8, Read8;
    NewSessionIs(draws, n.session);
    var session := NewSession(draws, n.session).value;
    HelloArrives(su, n.(session := session), session, now);
  }

  lemma HelloArrives(su: Setup, n: Node, session: nat, now: int)
    requires session < MAX_SESSION && Send(su, n, UartFrame.Hello, 0, HelloPayload(session), now).error == None
    ensures (var m := Send(su, n, UartFrame.Hello, 0, HelloPayload(session), now).node;
             |m.line.frames| == 1 && Greets(m.line.frames[0], session) && m.line.frames[0].sequence == n.seq_ + 1
             && m.line.frames[0].uptimeMs == now && m.line.frames[0].vehicleId == su.id.vehicle
             && m.session == n.session)
  {
    hide FcReceive, Greets, HelloPayload, Read8;
    var f := UartFrame.Frame(UartFrame.Hello, su.id.vehicle, 0, n.seq_ + 1, now, HelloPayload(session),
                             UartFrame.VERSION);
    ReceivedAsSent(su.crc, n.line, f);
    GreetsBy(f, session);
  }

  lemma Greeting(session: nat)
    requires session < MAX_SESSION
    ensures (var d := HelloPayload(session);
             Value(d[0]) == 1 && Value(d[1]) == 1 && Value(d[2]) == 1 && Read8(d[3..]) == session)
  {
    hide Read8, Pack8;
    Read8Pack8(session);
    assert HelloPayload(session)[3..] == Pack8(session);
  }

  lemma GreetsBy(f: UartFrame.Frame, session: nat)
    requires session < MAX_SESSION && f.messageType == UartFrame.Hello && f.formationId == 0
    requires f.payload == HelloPayload(session)
    ensures Greets(f, session)
  {
    hide HelloPayload, Value, Read8;
    Greeting(session);
  }

  /** A setpoint is refused for its values exactly if an angle, a rate or the time it lives is outside these bounds. */
  lemma OutOfRangeExactly(su: Setup, n: Node, v: Values, ttl: int, now: int)
    ensures SteerBy(su, n, v, ttl, now).error == Some(SetpointOutOfRange)
            <==> || v.roll < -3000 || v.roll > 3000 || v.pitch < -3000 || v.pitch > 3000
                 || v.yaw < -18000 || v.yaw > 18000 || v.vertical < -300 || v.vertical > 300 || ttl <= 0
  {
    hide UartFrame.Encode, UartFrame.Decode, SetpointPayload, Read8;
  }

  /** A setpoint packet steers in exactly these states, and is refused in all others. */
  lemma SteeredExactlyIn(su: Setup, n: Node, p: Packet, now: int)
    requires p.body.command.Setpoint?
    ensures n.state !in {Launch, Form, TransitToLocker, TransitToDestination, Return, Land}
            ==> Perform(su, n, p, now) == Outcome(n, Some(SetpointNotAllowed))
    ensures n.state in {Launch, Form, TransitToLocker, TransitToDestination, Return, Land}
            && p.body.command.values.Some?
            ==> Perform(su, n, p, now) == SteerBy(su, n, p.body.command.values.value, p.body.ttl, now)
  {
    hide FcReceive, SetpointPayload, InBounds, Pack8;
  }
}
