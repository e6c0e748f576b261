/** What holds in every run of a vehicle node. */
module VehicleSafety {
  import opened Outcomes
  import opened Words
  import opened Octets
  import UartFrame
  import opened VehicleNode

  // ---------------------------------------------------------------- packets are applied in order, at most once

  /** Each packet is newer than every packet before it. */
  predicate Ascending(s: seq<Packet>) { forall i, j :: 0 <= i < j < |s| ==> Before(KeyOf(s[i]), KeyOf(s[j])) }

  predicate NoneAfter(s: seq<Packet>, newest: Newest) { forall p :: p in s ==> !Before(newest, KeyOf(p)) }

  predicate AllIn(s: seq<Packet>, t: seq<Packet>) { forall p :: p in s ==> p in t }

  /** What was applied, with what is still queued behind it, ascends, was accepted, and is not newer than the newest. */
  predicate OrderOk(su: Setup, n: Node) {
    && Ascending(n.applied + n.queue) && NoneAfter(n.applied + n.queue, n.newest)
       && AllIn(n.applied + n.queue, n.accepted)
    && Ascending(n.accepted) && NoneAfter(n.accepted, n.newest)
  }

  /** An accepted packet is signed for this vehicle by its server, within its life, and newer than all before it. */
  lemma AcceptedIsNewer(id: Identity, newest: Newest, p: Packet, now: int)
    requires Accept(id, newest, p, now).Ok?
    ensures Before(newest, KeyOf(p)) && Accept(id, newest, p, now).value == KeyOf(p)
    ensures p.signature == id.sign(p.body) && p.body.sender == id.server && p.body.vehicle == id.vehicle
    ensures p.body.issued - 10 <= now <= p.body.issued + p.body.ttl <= p.body.issued + 1000
  {
  }

  lemma AppendNewer(s: seq<Packet>, newest: Newest, p: Packet)
    requires Ascending(s) && NoneAfter(s, newest) && Before(newest, KeyOf(p))
    ensures Ascending(s + [p]) && NoneAfter(s + [p], KeyOf(p)) && NoneAfter(s, KeyOf(p))
  {
    var t := s + [p];
    forall i, j | 0 <= i < j < |t| ensures Before(KeyOf(t[i]), KeyOf(t[j])) {
      if j == |s| { assert s[i] in s; }
    }
  }

  lemma ReceiveKeepsOrder(su: Setup, n: Node, p: Packet, now: int)
    requires OrderOk(su, n)
    ensures OrderOk(su, Receive(su, n, p, now).node)
  {
    hide Ascending, NoneAfter;
    if Accept(su.id, n.newest, p, now).Ok? {
      AcceptedIsNewer(su.id, n.newest, p, now);
      AppendNewer(n.accepted, n.newest, p);
      AppendNewer(n.applied + n.queue, n.newest, p);
      assert (n.applied + n.queue) + [p] == n.applied + (n.queue + [p]);
    }
  }

  lemma TakeKeepsOrder(su: Setup, n: Node)
    requires OrderOk(su, n) && n.queue != []
    ensures OrderOk(su, Take(n))
  {
    hide Ascending, NoneAfter, AllIn;
    assert (n.applied + [n.queue[0]]) + n.queue[1..] == n.applied + n.queue;
  }

  lemma {:induction false} DrainKeepsOrder(su: Setup, n: Node, now: int)
    requires OrderOk(su, n)
    ensures OrderOk(su, Drain(su, n, now).node)
    decreases |n.queue|
  {
    hide Ascending, NoneAfter, AllIn, Perform;
    if n.queue != [] {
      TakeKeepsOrder(su, n);
      PerformKeepsQueue(su, Take(n), n.queue[0], now);
      var o := Perform(su, Take(n), n.queue[0], now);
      if o.error.None? { DrainKeepsOrder(su, o.node, now); }
    }
  }

  lemma ConnectKeepsOrder(su: Setup, n: Node, draws: seq<nat>, now: int)
    requires OrderOk(su, n)
    ensures OrderOk(su, Connect(su, n, draws, now).node)
  {
    hide FcReceive, HelloPayload, NewSession, Before;
    var o := Connect(su, n, draws, now);
    if o.error.None? {
      assert o.node.applied + o.node.queue == n.applied;
      forall i | 0 <= i < |n.applied| ensures (n.applied + n.queue)[i] == n.applied[i] {}
    }
  }

  lemma StepKeepsOrder(su: Setup, n: Node, op: Op)
    requires OrderOk(su, n)
    ensures OrderOk(su, Step(su, n, op))
  {
    hide Ascending, NoneAfter, AllIn, Receive, Drain, Connect;
    match op
    case ReceiveOp(p, now) => ReceiveKeepsOrder(su, n, p, now);
    case TickOp(now) => DrainKeepsOrder(su, n, now);
    case ConnectOp(draws, now) => ConnectKeepsOrder(su, n, draws, now);
    case LineOp(online) =>
  }

  lemma {:induction false} RunKeepsOrder(su: Setup, n: Node, ops: seq<Op>)
    requires OrderOk(su, n)
    ensures OrderOk(su, Run(su, n, ops))
    decreases |ops|
  {
    hide OrderOk, Step;
    if ops != [] {
      StepKeepsOrder(su, n, ops[0]);
      RunKeepsOrder(su, Step(su, n, ops[0]), ops[1..]);
    }
  }

  /** In every run each packet applied was accepted, and packets are applied in strictly ascending order: none twice. */
  lemma AppliedInOrder(su: Setup, session: nat, ops: seq<Op>)
    ensures (var n := Run(su, Fresh(su, session), ops); AllIn(n.applied, n.accepted) && Ascending(n.applied))
  {
    hide Run, Before;
    RunKeepsOrder(su, Fresh(su, session), ops);
    var n := Run(su, Fresh(su, session), ops);
    forall i | 0 <= i < |n.applied| ensures (n.applied + n.queue)[i] == n.applied[i] {}
    forall p | p in n.applied ensures p in n.applied + n.queue {}
  }

  /** Nothing that is applied or queued has this key. */
  predicate Absent(n: Node, key: Newest) { forall p :: p in n.applied + n.queue ==> KeyOf(p) != key }

  lemma ReceiveKeepsAbsent(su: Setup, n: Node, key: Newest, p: Packet, now: int)
    requires Absent(n, key) && !Before(n.newest, key)
    ensures Absent(Receive(su, n, p, now).node, key) && !Before(Receive(su, n, p, now).node.newest, key)
  {
  }

  lemma {:induction false} DrainKeepsAbsent(su: Setup, n: Node, key: Newest, now: int)
    requires Absent(n, key)
    ensures Absent(Drain(su, n, now).node, key) && Drain(su, n, now).node.newest == n.newest
    decreases |n.queue|
  {
    hide Perform;
    if n.queue != [] {
      PerformKeepsQueue(su, Take(n), n.queue[0], now);
      var o := Perform(su, Take(n), n.queue[0], now);
      assert (n.applied + [n.queue[0]]) + n.queue[1..] == n.applied + n.queue;
      if o.error.None? { DrainKeepsAbsent(su, o.node, key, now); }
    }
  }

  lemma StepKeepsAbsent(su: Setup, n: Node, key: Newest, op: Op)
    requires Absent(n, key) && !Before(n.newest, key)
    ensures Absent(Step(su, n, op), key) && !Before(Step(su, n, op).newest, key)
  {
    hide FcReceive, HelloPayload, NewSession, Before, Drain, Receive;
    match op
    case ReceiveOp(p, now) => ReceiveKeepsAbsent(su, n, key, p, now);
    case TickOp(now) => DrainKeepsAbsent(su, n, key, now);
    case ConnectOp(draws, now) =>
    case LineOp(online) =>
  }

  lemma {:induction false} RunKeepsAbsent(su: Setup, n: Node, key: Newest, ops: seq<Op>)
    requires Absent(n, key) && !Before(n.newest, key)
    ensures Absent(Run(su, n, ops), key)
    decreases |ops|
  {
    hide Absent, Step, Before;
    if ops != [] {
      StepKeepsAbsent(su, n, key, ops[0]);
      RunKeepsAbsent(su, Step(su, n, ops[0]), key, ops[1..]);
    }
  }

  /** A packet that found the queue full is lost for good: whatever is sent afterwards, its number is never applied. */
  lemma DroppedIsNeverApplied(su: Setup, n: Node, p: Packet, now: int, ops: seq<Op>)
    requires OrderOk(su, n) && Receive(su, n, p, now).error == Some(QueueFull)
    ensures Absent(Run(su, Receive(su, n, p, now).node, ops), KeyOf(p))
  {
    hide Run, Ascending, AllIn;
    AcceptedIsNewer(su.id, n.newest, p, now);
    RunKeepsAbsent(su, Receive(su, n, p, now).node, KeyOf(p), ops);
  }

  // What is queued can still be applied.

  /** Draining moves packets from the queue to what was applied, and at least one if there is any. */
  lemma {:induction false} DrainTakes(su: Setup, n: Node, now: int)
    ensures (var m := Drain(su, n, now).node;
             m.applied + m.queue == n.applied + n.queue && (n.queue != [] ==> |m.queue| < |n.queue|))
    decreases |n.queue|
  {
    hide Perform;
    if n.queue != [] {
      PerformKeepsQueue(su, Take(n), n.queue[0], now);
      var o := Perform(su, Take(n), n.queue[0], now);
      assert (n.applied + [n.queue[0]]) + n.queue[1..] == n.applied + n.queue;
      if o.error.None? { DrainTakes(su, o.node, now); }
    }
  }

  lemma TickTakes(su: Setup, n: Node, now: int)
    ensures (var m := Step(su, n, TickOp(now));
             m.applied + m.queue == n.applied + n.queue && (n.queue != [] ==> |m.queue| < |n.queue|))
  {
    hide Drain;
    DrainTakes(su, n, now);
  }

  /** Ticks alone work off the queue. */
  lemma {:induction false} QueuedIsApplied(su: Setup, n: Node, p: Packet, now: int) returns (ops: seq<Op>)
    requires p in n.applied + n.queue
    ensures (forall o :: o in ops ==> o == TickOp(now)) && p in Run(su, n, ops).applied
    decreases |n.queue|
  {
    hide Step;
    if n.queue == [] {
      ops := [];
    } else {
      TickTakes(su, n, now);
      var more := QueuedIsApplied(su, Step(su, n, TickOp(now)), p, now);
      ops := [TickOp(now)] + more;
      assert ops[1..] == more;
    }
  }

  /** An accepted packet can still come to be applied exactly when the queue was not full: the guard of
      `receive_server`. */
  lemma KeptExactly(su: Setup, n: Node, p: Packet, now: int)
    requires OrderOk(su, n) && Accept(su.id, n.newest, p, now).Ok?
    ensures (exists ops :: p in Run(su, Receive(su, n, p, now).node, ops).applied) <==> |n.queue| != su.queueLimit
  {
    hide Run, Accept, OrderOk, Absent;
    var m := Receive(su, n, p, now).node;
    if |n.queue| != su.queueLimit {
      assert p == m.queue[|n.queue|] && p in m.applied + m.queue;
      var ops := QueuedIsApplied(su, m, p, now);
    } else {
      forall ops ensures p !in Run(su, m, ops).applied {
        DroppedIsNeverApplied(su, n, p, now, ops);
        AbsentIsNotApplied(Run(su, m, ops), p);
      }
    }
  }

  lemma AbsentIsNotApplied(n: Node, p: Packet)
    requires Absent(n, KeyOf(p))
    ensures p !in n.applied
  {
    assert p in n.applied ==> p in n.applied + n.queue;
  }

  // A queue can fill up.

  function PingBody(id: Identity, i: nat): Body { Body(PACKET_VERSION, id.server, id.vehicle, 0, i, 0, 1000, Ping) }

  function PingPacket(id: Identity, i: nat): Packet { Packet(PingBody(id, i), id.sign(PingBody(id, i))) }

  function Pings(id: Identity, k: nat): seq<Op> {
    if k == 0 then [] else Pings(id, k - 1) + [ReceiveOp(PingPacket(id, k - 1), 0)]
  }

  lemma {:induction false} RunAppend(su: Setup, n: Node, ops: seq<Op>, op: Op)
    ensures Run(su, n, ops + [op]) == Step(su, Run(su, n, ops), op)
    decreases |ops|
  {
    hide Step;
    if ops == [] {
      assert ([] + [op])[1..] == [];
      assert Run(su, Step(su, n, op), []) == Step(su, n, op);
    } else {
      assert (ops + [op])[1..] == ops[1..] + [op];
      RunAppend(su, Step(su, n, ops[0]), ops[1..], op);
    }
  }

  lemma {:induction false} PingsQueue(su: Setup, session: nat, k: nat)
    requires k <= su.queueLimit
    requires forall i :: 0 <= i <= su.queueLimit ==> su.id.size(PingBody(su.id, i)) <= MAX_CANONICAL_BYTES
    ensures (var n := Run(su, Fresh(su, session), Pings(su.id, k)); |n.queue| == k && n.newest == Newest(0, k - 1))
  {
    hide Run;
    if k == 0 {
      RunNothing(su, Fresh(su, session));
    } else {
      PingsQueue(su, session, k - 1);
      RunAppend(su, Fresh(su, session), Pings(su.id, k - 1), ReceiveOp(PingPacket(su.id, k - 1), 0));
    }
  }

  lemma RunNothing(su: Setup, n: Node)
    ensures Run(su, n, []) == n
  {
  }

  /** Whatever the limit, a node just made can be brought to where the next packet is accepted and lost. */
  lemma DropHappens(su: Setup, session: nat)
    requires forall i :: 0 <= i <= su.queueLimit ==> su.id.size(PingBody(su.id, i)) <= MAX_CANONICAL_BYTES
    ensures (var n := Run(su, Fresh(su, session), Pings(su.id, su.queueLimit));
             var p := PingPacket(su.id, su.queueLimit);
             Accept(su.id, n.newest, p, 0).Ok? && Receive(su, n, p, 0).error == Some(QueueFull))
  {
    hide Run, Pings;
    PingsQueue(su, session, su.queueLimit);
  }

  // ---------------------------------------------------------------- no steering after an abort

  /** How far the vehicle is from flying again: aborted; idle since; authorized since, or never aborted. */
  datatype Clearance = Aborted | Rested | Cleared

  function ClearanceAfter(marks: seq<Mark>): Clearance {
    if marks == [] then Cleared
    else
      var before := ClearanceAfter(marks[..|marks| - 1]);
      match marks[|marks| - 1]
      case Taken(_) => before
      case Steered(_) => before
      case Entered(s) =>
        if s == Abort then Aborted
        else if before == Aborted && s == Idle then Rested
        else if before == Rested && s == Authorized then Cleared
        else before
  }

  lemma ClearanceNext(marks: seq<Mark>, m: Mark)
    ensures (var before := ClearanceAfter(marks);
             ClearanceAfter(marks + [m])
             == match m
                case Taken(_) => before
                case Steered(_) => before
                case Entered(s) =>
                  if s == Abort then Aborted
                  else if before == Aborted && s == Idle then Rested
                  else if before == Rested && s == Authorized then Cleared
                  else before)
  {
    assert (marks + [m])[..|marks|] == marks;
  }

  /** Steering happens only in the states that allow it, and before clearance only while landing. */
  predicate SteeredWell(marks: seq<Mark>, i: nat)
    requires i < |marks|
  {
    marks[i].Steered? ==> MaySteer(marks[i].state) && (ClearanceAfter(marks[..i]) != Cleared ==> marks[i].state == Land)
  }

  predicate FlightOk(n: Node) {
    && (ClearanceAfter(n.marks) == Aborted ==> n.state == Abort || n.state == Land || n.state == Fault)
    && (ClearanceAfter(n.marks) == Rested ==> n.state == Idle)
    && forall i :: 0 <= i < |n.marks| ==> SteeredWell(n.marks, i)
  }

  lemma MarkKeeps(marks: seq<Mark>, m: Mark)
    requires forall i :: 0 <= i < |marks| ==> SteeredWell(marks, i)
    requires m.Steered? ==> MaySteer(m.state) && (ClearanceAfter(marks) != Cleared ==> m.state == Land)
    ensures forall i :: 0 <= i < |marks + [m]| ==> SteeredWell(marks + [m], i)
  {
    hide MaySteer, ClearanceAfter;
    var t := marks + [m];
    assert t[..|marks|] == marks;
    forall i | 0 <= i < |t| ensures SteeredWell(t, i) {
      if i < |marks| { assert SteeredWell(marks, i) && t[..i] == marks[..i]; }
    }
  }

  lemma EnterKeepsFlight(n: Node, to: MissionState)
    requires FlightOk(n) && (MayMove(n.state, to) || to == Abort)
    ensures FlightOk(Enter(n, to))
  {
    hide SteeredWell, ClearanceAfter;
    ClearanceNext(n.marks, Entered(to));
    MarkKeeps(n.marks, Entered(to));
  }

  lemma SteerKeepsFlight(n: Node)
    requires FlightOk(n) && MaySteer(n.state)
    ensures FlightOk(n.(marks := n.marks + [Steered(n.state)]))
  {
    hide SteeredWell, ClearanceAfter;
    ClearanceNext(n.marks, Steered(n.state));
    MarkKeeps(n.marks, Steered(n.state));
  }

  lemma TakeKeepsFlight(n: Node)
    requires FlightOk(n) && n.queue != []
    ensures FlightOk(Take(n))
  {
    hide SteeredWell, ClearanceAfter;
    ClearanceNext(n.marks, Taken(n.queue[0]));
    MarkKeeps(n.marks, Taken(n.queue[0]));
  }

  /** Sending changes neither the state nor the marks. */
  lemma SendIs(su: Setup, n: Node, t: UartFrame.MessageType, formation: int, payload: Bytes, now: int)
    ensures (var o := Send(su, n, t, formation, payload, now).node; o.state == n.state && o.marks == n.marks)
  {
    hide FcReceive;
  }

  lemma PerformKeepsFlight(su: Setup, n: Node, p: Packet, now: int)
    requires FlightOk(n)
    ensures FlightOk(Perform(su, n, p, now).node)
  {
    hide SteeredWell, ClearanceAfter, Send, SetpointPayload, InBounds, MayMove, MaySteer, Enter;
    match p.body.command
    case Assign(mission) =>
      if mission.Some? {
        if MayMove(n.state, Authorized) { EnterKeepsFlight(n.(mission := mission), Authorized); }
      }
    case Transition(target) =>
      if target.Some? {
        if MayMove(n.state, target.value) { EnterKeepsFlight(n, target.value); }
      }
    case AbortNow => EnterKeepsFlight(n, Abort);
    case Setpoint(values) =>
      if MaySteer(n.state) && values.Some? { SteerByKeepsFlight(su, n, values.value, p.body.ttl, now); }
    case Ping =>
    case OtherKind(_) =>
  }

  lemma SteerByKeepsFlight(su: Setup, n: Node, v: Values, ttl: int, now: int)
    requires FlightOk(n) && MaySteer(n.state)
    ensures FlightOk(SteerBy(su, n, v, ttl, now).node)
  {
    hide SteeredWell, ClearanceAfter, Send, SetpointPayload, InBounds, MaySteer;
    var validFor := if ttl < 100 then ttl else 100;
    if InBounds(v, validFor) && v.formation.Some? {
      SteerKeepsFlight(n);
      SendIs(su, n.(marks := n.marks + [Steered(n.state)]), UartFrame.SetStabilizedSetpoint, v.formation.value,
             SetpointPayload(n.session, v, validFor), now);
    }
  }

  lemma {:induction false} DrainKeepsFlight(su: Setup, n: Node, now: int)
    requires FlightOk(n)
    ensures FlightOk(Drain(su, n, now).node)
    decreases |n.queue|
  {
    hide SteeredWell, ClearanceAfter, Perform;
    if n.queue != [] {
      TakeKeepsFlight(n);
      PerformKeepsFlight(su, Take(n), n.queue[0], now);
      PerformKeepsQueue(su, Take(n), n.queue[0], now);
      var o := Perform(su, Take(n), n.queue[0], now);
      if o.error.None? { DrainKeepsFlight(su, o.node, now); }
    }
  }

  lemma StepKeepsFlight(su: Setup, n: Node, op: Op)
    requires FlightOk(n)
    ensures FlightOk(Step(su, n, op))
  {
    hide SteeredWell, ClearanceAfter, Drain, Send, Accept, Enter, NewSession, HelloPayload;
    match op
    case ReceiveOp(p, now) =>
    case TickOp(now) =>
      DrainKeepsFlight(su, n, now);
      var o := Drain(su, n, now).node;
      EnterKeepsFlight(o.(cache := o.cache.(healthy := false)), Abort);
    case ConnectOp(draws, now) =>
      var session := NewSession(draws, n.session);
      if session.Some? {
        SendIs(su, n.(session := session.value), UartFrame.Hello, 0, HelloPayload(session.value), now);
      }
    case LineOp(online) =>
  }

  lemma {:induction false} RunKeepsFlight(su: Setup, n: Node, ops: seq<Op>)
    requires FlightOk(n)
    ensures FlightOk(Run(su, n, ops))
    decreases |ops|
  {
    hide FlightOk, Step;
    if ops != [] {
      StepKeepsFlight(su, n, ops[0]);
      RunKeepsFlight(su, Step(su, n, ops[0]), ops[1..]);
    }
  }

  /** Between an abort and its clearance the vehicle entered IDLE and then AUTHORIZED. */
  lemma {:induction false} ClearedBetween(marks: seq<Mark>, i: nat, j: nat)
    requires i < j <= |marks| && marks[i] == Entered(Abort)
    ensures ClearanceAfter(marks[..j]) != Aborted ==> exists a :: i < a < j && marks[a] == Entered(Idle)
    ensures ClearanceAfter(marks[..j]) == Cleared
            ==> exists a, b :: i < a < b < j && marks[a] == Entered(Idle) && marks[b] == Entered(Authorized)
    decreases j
  {
    var last := j - 1;
    ClearanceNext(marks[..last], marks[last]);
    assert marks[..j] == marks[..last] + [marks[last]];
    if i < last {
      ClearedBetween(marks, i, last);
      if ClearanceAfter(marks[..j]) == Cleared && ClearanceAfter(marks[..last]) != Cleared {
        var a :| i < a < last && marks[a] == Entered(Idle);
        assert marks[last] == Entered(Authorized);
      }
    }
  }

  /** The packets taken. */
  function TakenIn(marks: seq<Mark>): seq<Packet> {
    if marks == [] then []
    else
      var before := TakenIn(marks[..|marks| - 1]);
      if marks[|marks| - 1].Taken? then before + [marks[|marks| - 1].packet] else before
  }

  predicate IsAbort(m: Mark) { m.Taken? && m.packet.body.command.AbortNow? }

  /** An abort packet that was taken was obeyed at once. */
  predicate Obeyed(marks: seq<Mark>, i: nat)
    requires i < |marks|
  {
    IsAbort(marks[i]) ==> i + 1 < |marks| && marks[i + 1] == Entered(Abort)
  }

  /** The state entered last. */
  function LastEntered(marks: seq<Mark>): MissionState {
    if marks == [] then Idle
    else if marks[|marks| - 1].Entered? then marks[|marks| - 1].state
    else LastEntered(marks[..|marks| - 1])
  }

  /** The marks tell what was applied and the state, and every abort packet taken was obeyed. */
  predicate AbortsOk(n: Node) {
    && n.applied == TakenIn(n.marks) && n.state == LastEntered(n.marks)
    && forall i :: 0 <= i < |n.marks| ==> Obeyed(n.marks, i)
  }

  lemma TakenNext(marks: seq<Mark>, m: Mark)
    ensures TakenIn(marks + [m]) == if m.Taken? then TakenIn(marks) + [m.packet] else TakenIn(marks)
    ensures LastEntered(marks + [m]) == if m.Entered? then m.state else LastEntered(marks)
  {
    assert (marks + [m])[..|marks|] == marks;
  }

  lemma MoreObeyed(marks: seq<Mark>, m: Mark)
    requires (forall i :: 0 <= i < |marks| ==> Obeyed(marks, i)) && !IsAbort(m)
    ensures forall i :: 0 <= i < |marks + [m]| ==> Obeyed(marks + [m], i)
  {
    hide IsAbort;
    forall i | 0 <= i < |marks + [m]|
      ensures Obeyed(marks + [m], i)
    {
      if i < |marks| { assert Obeyed(marks, i) && (marks + [m])[i] == marks[i]; }
    }
  }

  /** The one mark that is added tells the state. */
  predicate Adds(n: Node, m: Mark, o: Node) {
    !m.Taken? && o.marks == n.marks + [m] && o.state == if m.Entered? then m.state else n.state
  }

  lemma SteerByMarks(su: Setup, n: Node, v: Values, ttl: int, now: int)
    ensures (var o := SteerBy(su, n, v, ttl, now).node;
             (o.state == n.state && o.marks == n.marks) || Adds(n, Steered(n.state), o))
  {
    hide FcReceive, SetpointPayload, InBounds, Pack8;
  }

  /** What a packet adds to the marks, if anything. */
  lemma PerformMarks(su: Setup, n: Node, p: Packet, now: int)
    ensures (var o := Perform(su, n, p, now).node;
             if p.body.command.AbortNow? then o.state == Abort && o.marks == n.marks + [Entered(Abort)]
             else (o.state == n.state && o.marks == n.marks)
                  || exists m: Mark :: Adds(n, m, o))
  {
    hide SteerBy, MayMove, MaySteer;
    var o := Perform(su, n, p, now).node;
    match p.body.command
    case Assign(mission) => assert o.marks != n.marks ==> Adds(n, Entered(Authorized), o);
    case Transition(target) => assert o.marks != n.marks ==> Adds(n, Entered(target.value), o);
    case Setpoint(values) =>
      if values.Some? { SteerByMarks(su, n, values.value, p.body.ttl, now); }
    case AbortNow =>
    case Ping =>
    case OtherKind(_) =>
  }

  lemma TakePerformAborts(su: Setup, n: Node, now: int)
    requires AbortsOk(n) && n.queue != []
    ensures AbortsOk(Perform(su, Take(n), n.queue[0], now).node)
  {
    hide Perform, Obeyed, TakenIn, LastEntered;
    var p := n.queue[0];
    PerformMarks(su, Take(n), p, now);
    PerformKeepsQueue(su, Take(n), p, now);
    TakenNext(n.marks, Taken(p));
    var o := Perform(su, Take(n), p, now).node;
    if p.body.command.AbortNow? {
      TakenNext(Take(n).marks, Entered(Abort));
      AbortObeyedAtOnce(n.marks, p);
    } else {
      MoreObeyed(n.marks, Taken(p));
      if o.marks != Take(n).marks {
        var m: Mark :| Adds(Take(n), m, o);
        TakenNext(Take(n).marks, m);
        MoreObeyed(Take(n).marks, m);
      }
    }
  }

  lemma AbortObeyedAtOnce(marks: seq<Mark>, p: Packet)
    requires forall i :: 0 <= i < |marks| ==> Obeyed(marks, i)
    ensures (var all := marks + [Taken(p)] + [Entered(Abort)]; forall i :: 0 <= i < |all| ==> Obeyed(all, i))
  {
    hide IsAbort;
    var all := marks + [Taken(p)] + [Entered(Abort)];
    forall i | 0 <= i < |all|
      ensures Obeyed(all, i)
    {
      if i < |marks| { assert Obeyed(marks, i) && all[i] == marks[i]; }
      assert !IsAbort(Entered(Abort)) by { NoAbortMark(); }
    }
  }

  lemma NoAbortMark()
    ensures !IsAbort(Entered(Abort))
  {
  }

  lemma {:induction false} DrainAborts(su: Setup, n: Node, now: int)
    requires AbortsOk(n)
    ensures AbortsOk(Drain(su, n, now).node)
    decreases |n.queue|
  {
    hide Perform, AbortsOk;
    if n.queue != [] {
      TakePerformAborts(su, n, now);
      PerformKeepsQueue(su, Take(n), n.queue[0], now);
      var o := Perform(su, Take(n), n.queue[0], now);
      if o.error.None? { DrainAborts(su, o.node, now); }
    }
  }

  lemma StepAborts(su: Setup, n: Node, op: Op)
    requires AbortsOk(n)
    ensures AbortsOk(Step(su, n, op))
  {
    hide Drain, Send, Accept, NewSession, HelloPayload, Obeyed, TakenIn, LastEntered;
    match op
    case ReceiveOp(p, now) =>
    case TickOp(now) =>
      DrainAborts(su, n, now);
      var o := Drain(su, n, now).node;
      TakenNext(o.marks, Entered(Abort));
      MoreObeyed(o.marks, Entered(Abort));
    case ConnectOp(draws, now) =>
      var session := NewSession(draws, n.session);
      if session.Some? {
        SendKeepsMarks(su, n.(session := session.value), UartFrame.Hello, 0, HelloPayload(session.value), now);
      }
    case LineOp(online) =>
  }

  lemma SendKeepsMarks(su: Setup, n: Node, t: UartFrame.MessageType, formation: int, payload: Bytes, now: int)
    ensures (var o := Send(su, n, t, formation, payload, now).node;
             o.marks == n.marks && o.applied == n.applied && o.state == n.state)
  {
    hide FcReceive;
  }

  lemma {:induction false} RunKeepsAborts(su: Setup, n: Node, ops: seq<Op>)
    requires AbortsOk(n)
    ensures AbortsOk(Run(su, n, ops))
    decreases |ops|
  {
    hide AbortsOk, Step;
    if ops != [] {
      StepAborts(su, n, ops[0]);
      RunKeepsAborts(su, Step(su, n, ops[0]), ops[1..]);
    }
  }

  /** In every run each abort packet that was applied put the vehicle into ABORT at once, before anything else
      happened. */
  lemma AbortsAreObeyed(su: Setup, session: nat, ops: seq<Op>)
    ensures AbortsOk(Run(su, Fresh(su, session), ops))
  {
    hide Run;
    RunKeepsAborts(su, Fresh(su, session), ops);
  }

  /** In every run: after an abort packet was taken, or ABORT entered otherwise, no setpoint goes out except while
      landing until IDLE and then AUTHORIZED were entered. */
  lemma NoSteeringAfterAbort(su: Setup, session: nat, ops: seq<Op>, i: nat, j: nat)
    requires (var marks := Run(su, Fresh(su, session), ops).marks;
              i < j < |marks| && (IsAbort(marks[i]) || marks[i] == Entered(Abort))
              && marks[j].Steered? && marks[j].state != Land)
    ensures (var marks := Run(su, Fresh(su, session), ops).marks;
             exists a, b :: i < a < b < j && marks[a] == Entered(Idle) && marks[b] == Entered(Authorized))
  {
    hide Run, ClearanceAfter, MaySteer, IsAbort, TakenIn, LastEntered;
    assert ClearanceAfter([]) == Cleared by { NoMarks(); }
    RunKeepsFlight(su, Fresh(su, session), ops);
    AbortsAreObeyed(su, session, ops);
    var marks := Run(su, Fresh(su, session), ops).marks;
    assert SteeredWell(marks, j) && Obeyed(marks, i);
    ClearedBetween(marks, if marks[i] == Entered(Abort) then i else i + 1, j);
  }

  lemma NoMarks()
    ensures ClearanceAfter([]) == Cleared
  {
  }

  // ---------------------------------------------------------------- what reaches the flight controller

  predicate FrameOk(su: Setup, n: Node, f: UartFrame.Frame) {
    && f.vehicleId == su.id.vehicle && f.sequence <= n.seq_
    && (f.messageType == UartFrame.SetStabilizedSetpoint
        ==> |f.payload| >= 8 && Read8(f.payload[..8]) == n.line.session)
  }

  /** Every frame received is for this vehicle, numbered upwards, and every setpoint carries the session agreed on. */
  predicate LineOk(su: Setup, n: Node) {
    && n.line.vehicle == su.id.vehicle
    && (forall f :: f in n.line.frames ==> FrameOk(su, n, f))
    && (forall i, j :: 0 <= i < j < |n.line.frames| ==> n.line.frames[i].sequence < n.line.frames[j].sequence)
  }

  /** The bytes on the line lose nothing: what the other end gets is the frame that was sent. */
  lemma ReceivedAsSent(crc: UartFrame.Crc32, fc: Fc, frame: UartFrame.Frame)
    requires FcReceive(crc, fc, frame).Ok?
    ensures (var g := FcReceive(crc, fc, frame).value;
             frame.vehicleId == fc.vehicle && g.vehicle == fc.vehicle
             && (frame.messageType == UartFrame.Hello
                 ==> |frame.payload| >= 11 && g.frames == [frame] && g.session == Read8(frame.payload[3..11])
                     && g.standby)
             && (frame.messageType != UartFrame.Hello ==> g.frames == fc.frames + [frame] && g.session == fc.session)
             && (frame.messageType == UartFrame.SetStabilizedSetpoint
                 ==> |frame.payload| >= 8 && Read8(frame.payload[..8]) == fc.session))
  {
    hide UartFrame.Decode, UartFrame.Body, UartFrame.CrcOf, Pack4, Read8;
    UartFrame.DecodeEncode(crc, frame, Some(fc.vehicle));
  }

  lemma SendKeepsLine(su: Setup, n: Node, t: UartFrame.MessageType, formation: int, payload: Bytes, now: int)
    requires LineOk(su, n)
    ensures LineOk(su, Send(su, n, t, formation, payload, now).node)
  {
    hide FcReceive, Read8;
    var frame := UartFrame.Frame(t, su.id.vehicle, formation, n.seq_ + 1, now, payload, UartFrame.VERSION);
    var m := Send(su, n, t, formation, payload, now).node;
    if FcReceive(su.crc, n.line, frame).Ok? {
      ReceivedAsSent(su.crc, n.line, frame);
      forall f | f in m.line.frames ensures FrameOk(su, m, f) {
        if f != frame { assert FrameOk(su, n, f); }
      }
      forall i | 0 <= i < |n.line.frames|
        ensures n.line.frames[i].sequence < frame.sequence
      {
        assert FrameOk(su, n, n.line.frames[i]);
      }
    } else {
      forall f | f in m.line.frames ensures FrameOk(su, m, f) { assert FrameOk(su, n, f); }
    }
  }

  /** The parts of a node `LineOk` reads. */
  lemma LineOkReads(su: Setup, n: Node, m: Node)
    requires LineOk(su, n) && m.line.vehicle == n.line.vehicle && m.line.frames == n.line.frames
             && m.line.session == n.line.session
    requires m.seq_ >= n.seq_
    ensures LineOk(su, m)
  {
    hide Read8;
    forall f | f in m.line.frames ensures FrameOk(su, m, f) { assert FrameOk(su, n, f); }
  }

  lemma PerformKeepsLine(su: Setup, n: Node, p: Packet, now: int)
    requires LineOk(su, n)
    ensures LineOk(su, Perform(su, n, p, now).node)
  {
    hide LineOk, Send, SetpointPayload, InBounds, MayMove, MaySteer, SteerBy;
    if p.body.command.Setpoint? && MaySteer(n.state) && p.body.command.values.Some? {
      SteerByKeepsLine(su, n, p.body.command.values.value, p.body.ttl, now);
    } else {
      LineOkReads(su, n, Perform(su, n, p, now).node);
    }
  }

  lemma SteerByKeepsLine(su: Setup, n: Node, v: Values, ttl: int, now: int)
    requires LineOk(su, n)
    ensures LineOk(su, SteerBy(su, n, v, ttl, now).node)
  {
    hide LineOk, Send, SetpointPayload, InBounds;
    var validFor := if ttl < 100 then ttl else 100;
    LineOkReads(su, n, n.(seq_ := n.seq_ + 1));
    if InBounds(v, validFor) && v.formation.Some? {
      var m := n.(marks := n.marks + [Steered(n.state)]);
      LineOkReads(su, n, m);
      SendKeepsLine(su, m, UartFrame.SetStabilizedSetpoint, v.formation.value, SetpointPayload(n.session, v, validFor),
                    now);
    }
  }

  lemma {:induction false} DrainKeepsLine(su: Setup, n: Node, now: int)
    requires LineOk(su, n)
    ensures LineOk(su, Drain(su, n, now).node)
    decreases |n.queue|
  {
    hide LineOk, Perform;
    if n.queue != [] {
      LineOkReads(su, n, Take(n));
      PerformKeepsLine(su, Take(n), n.queue[0], now);
      PerformKeepsQueue(su, Take(n), n.queue[0], now);
      var o := Perform(su, Take(n), n.queue[0], now);
      if o.error.None? { DrainKeepsLine(su, o.node, now); }
    }
  }

  lemma StepKeepsLine(su: Setup, n: Node, op: Op)
    requires LineOk(su, n)
    ensures LineOk(su, Step(su, n, op))
  {
    hide LineOk, Drain, Send, Accept, Enter, NewSession, HelloPayload;
    match op
    case ReceiveOp(p, now) => LineOkReads(su, n, Step(su, n, op));
    case TickOp(now) =>
      DrainKeepsLine(su, n, now);
      var o := Drain(su, n, now).node;
      CheckLineReads(su, o, now);
    case ConnectOp(draws, now) =>
      var session := NewSession(draws, n.session);
      if session.Some? {
        var m := n.(session := session.value);
        LineOkReads(su, n, m);
        SendKeepsLine(su, m, UartFrame.Hello, 0, HelloPayload(session.value), now);
        var o := Send(su, m, UartFrame.Hello, 0, HelloPayload(session.value), now).node;
        LineOkReads(su, o, o.(cache := FcCache(true, true, now, session.value), queue := []));
      }
    case LineOp(online) => LineOkReads(su, n, Step(su, n, op));
  }

  lemma CheckLineReads(su: Setup, n: Node, now: int)
    requires LineOk(su, n)
    ensures LineOk(su, CheckLine(n, now))
  {
    hide LineOk;
    LineOkReads(su, n, CheckLine(n, now));
  }

  lemma {:induction false} RunKeepsLine(su: Setup, n: Node, ops: seq<Op>)
    requires LineOk(su, n)
    ensures LineOk(su, Run(su, n, ops))
    decreases |ops|
  {
    hide LineOk, Step;
    if ops != [] {
      StepKeepsLine(su, n, ops[0]);
      RunKeepsLine(su, Step(su, n, ops[0]), ops[1..]);
    }
  }

  /** In every run: frames arrive with ascending numbers, and setpoints only under the session the flight controller
      has. */
  lemma LineIsOrdered(su: Setup, session: nat, ops: seq<Op>)
    ensures LineOk(su, Run(su, Fresh(su, session), ops))
  {
    RunKeepsLine(su, Fresh(su, session), ops);
  }

  /** Connecting agrees on a session that is not the one before, drops what was queued, and uses one number. */
  lemma ConnectAgrees(su: Setup, n: Node, draws: seq<nat>, now: int)
    requires (forall d :: d in draws ==> d < MAX_SESSION) && Connect(su, n, draws, now).error.None?
    ensures (var m := Connect(su, n, draws, now).node;
             m.session == m.line.session && m.session != n.session && m.session != 0 && m.queue == []
                 && m.seq_ == n.seq_ + 1
             && |m.line.frames| == 1 && m.line.frames[0].messageType == UartFrame.Hello
             && m.line.standby && m.cache.standby && m.cache.healthy && m.cache.lastSeen == now)
  {
    hide FcReceive, Read8, Pack8;
    NewSessionIs(draws, n.session);
    var session := NewSession(draws, n.session).value;
    var payload := HelloPayload(session);
    assert payload[3..11] == Pack8(session);
    Read8Pack8(session);
    ReceivedAsSent(su.crc, n.line,
                   UartFrame.Frame(UartFrame.Hello, su.id.vehicle, 0, n.seq_ + 1, now, payload, UartFrame.VERSION));
  }

  lemma {:induction false} NewSessionIs(draws: seq<nat>, previous: nat)
    requires NewSession(draws, previous).Some?
    ensures (var s := NewSession(draws, previous).value; s in draws && s != 0 && s != previous)
  {
    if !(draws[0] != 0 && draws[0] != previous) { NewSessionIs(draws[1..], previous); }
  }

  /** A setpoint gets through exactly when the line is up, its numbers fit a frame, and both ends agree on the
      session. */
  lemma SteeringArrives(su: Setup, n: Node, v: Values, ttl: int, now: int)
    requires n.line.vehicle == su.id.vehicle && n.session < MAX_SESSION && n.line.session < MAX_SESSION
    requires 0 <= su.id.vehicle <= 15 && ttl > 0 && v.formation.Some?
    ensures (var validFor := if ttl < 100 then ttl else 100;
             SteerBy(su, n, v, ttl, now).error.None?
             <==> InBounds(v, validFor) && n.line.online && n.session == n.line.session
                  && 0 <= v.formation.value <= 0xFFFF && n.seq_ < 0xFFFF_FFFF && 0 <= now <= 0xFFFF_FFFF)
  {
    hide UartFrame.Decode, UartFrame.Body, UartFrame.CrcOf, Pack4, Read8, Pack8, InBounds, Pack2Signed, Pack2;
    var validFor := if ttl < 100 then ttl else 100;
    if InBounds(v, validFor) {
      var payload := SetpointPayload(n.session, v, validFor);
      var frame := UartFrame.Frame(UartFrame.SetStabilizedSetpoint, su.id.vehicle, v.formation.value, n.seq_ + 1, now,
                                   payload,
                                   UartFrame.VERSION);
      Read8Pack8(n.session);
      if UartFrame.ValidateFields(frame) == None { UartFrame.DecodeEncode(su.crc, frame, Some(n.line.vehicle)); }
    }
  }
}
