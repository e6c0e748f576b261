/** The vehicle node: which packets are accepted, and what each call does, failures included. */
module VehicleNode {
  import opened Outcomes
  import opened Words
  import opened Octets
  import UartFrame

  // ---------------------------------------------------------------- packets

  datatype MissionState =
    | Idle | Authorized | Launch | Form | TransitToLocker | Pickup | TransitToDestination | Deliver | Return | Land
    | Abort | Fault

  /** A setpoint's values. `formation` is none when the value given is no number. */
  datatype Values = Values(roll: int, pitch: int, yaw: int, vertical: int, formation: Option<int>)

  /** A packet's kind with the part of the payload it uses; none when that part is missing or malformed. */
  datatype Command =
    | Assign(mission: Option<string>)
    | Transition(target: Option<MissionState>)
    | Setpoint(values: Option<Values>)
    | AbortNow
    | Ping
    | OtherKind(name: string)

  datatype Body =
    Body(version: int, sender: string, vehicle: int, epoch: int, sequence: int, issued: int, ttl: int, command: Command)

  datatype Packet = Packet(body: Body, signature: string)

  /** Who the node is and listens to; `sign` is the keyed hash, and `size` the length, of a body's canonical text. */
  datatype Identity = Identity(vehicle: int, server: string, sign: Body -> string, size: Body -> nat)

  const PACKET_VERSION: int := 1
  const MAX_CANONICAL_BYTES: nat := 4096

  /** The newest epoch and sequence accepted. */
  datatype Newest = Newest(epoch: int, sequence: int)

  function KeyOf(p: Packet): Newest { Newest(p.body.epoch, p.body.sequence) }

  /** The lexicographic order. */
  predicate Before(a: Newest, b: Newest) { a.epoch < b.epoch || (a.epoch == b.epoch && a.sequence < b.sequence) }

  datatype Error =
    | BadVersion | BadIdentity | BadKindOrBounds | TooLarge | BadSignature | Stale | Replayed
    | QueueFull | MissingField | InvalidTransition | SetpointNotAllowed | SetpointOutOfRange
    | NoSession | Offline | BadFrame | WrongSession

  /** `FleetValidator.accept` */
  function Accept(id: Identity, newest: Newest, p: Packet, now: int): Result<Newest, Error> {
    var b := p.body;
    if b.version != PACKET_VERSION then Err(BadVersion)
    else if b.sender != id.server || b.vehicle != id.vehicle then Err(BadIdentity)
    else if b.command.OtherKind? || !(0 < b.ttl <= 1000) then Err(BadKindOrBounds)
    else if id.size(b) > MAX_CANONICAL_BYTES then Err(TooLarge)
    else if p.signature != id.sign(b) then Err(BadSignature)
    else if b.issued > now + 10 || now - b.issued > b.ttl then Err(Stale)
    else if b.epoch < newest.epoch || (b.epoch == newest.epoch && b.sequence <= newest.sequence) then Err(Replayed)
    else Ok(Newest(b.epoch, b.sequence))
  }

  // ---------------------------------------------------------------- the flight controller's end

  const MAX_SESSION: nat := 0x1_0000_0000_0000_0000

  function Pack8(n: nat): (r: Bytes)
    ensures |r| == 8
  {
    Pack4(n % 0x1_0000_0000) + Pack4(n / 0x1_0000_0000)
  }

  function Read8(d: Bytes): nat
    requires |d| == 8
  {
    Read4(d[0], d[1], d[2], d[3]) + 0x1_0000_0000 * Read4(d[4], d[5], d[6], d[7])
  }

  lemma Read8Pack8(n: nat)
    requires n < MAX_SESSION
    ensures Read8(Pack8(n)) == n
  {
    hide Read4, Pack4;
    Read4Pack4(n % 0x1_0000_0000);
    Read4Pack4(n / 0x1_0000_0000);
  }

  /** `encode_hello(1, session)` */
  function HelloPayload(session: nat): (r: Bytes)
    ensures |r| == 11
  {
    [1, 1, 1] + Pack8(session)
  }

  /** A signed 16-bit field. */
  function Pack2Signed(v: int): (r: Bytes)
    requires -0x8000 <= v < 0x8000
    ensures |r| == 2
  {
    Pack2(if v < 0 then v + 0x1_0000 else v)
  }

  predicate InBounds(v: Values, validFor: int) {
    && -3000 <= v.roll <= 3000 && -3000 <= v.pitch <= 3000
    && -18000 <= v.yaw <= 18000 && -300 <= v.vertical <= 300 && 0 < validFor <= 100
  }

  /** `encode_setpoint`, within its bounds */
  function SetpointPayload(session: nat, v: Values, validFor: int): (r: Bytes)
    requires InBounds(v, validFor)
    ensures |r| == 18 && r[..8] == Pack8(session)
  {
    Pack8(session) + Pack2Signed(v.roll) + Pack2Signed(v.pitch) + Pack2Signed(v.yaw) + Pack2Signed(v.vertical)
        + Pack2(validFor)
  }

  /** The other end of the serial line. */
  datatype Fc = Fc(vehicle: int, online: bool, session: nat, standby: bool, frames: seq<UartFrame.Frame>)

  /** `FakeFc.receive`: the frame travels as bytes. */
  function FcReceive(crc: UartFrame.Crc32, fc: Fc, frame: UartFrame.Frame): Result<Fc, Error> {
    if !fc.online then Err(Offline)
    else match UartFrame.Encode(crc, frame)
      case Err(_) => Err(BadFrame)
      case Ok(wire) =>
        match UartFrame.Decode(crc, wire, Some(fc.vehicle))
        case Err(_) => Err(BadFrame)
        case Ok(f) =>
          if f.messageType == UartFrame.Hello then
            if |f.payload| < 11 then Err(BadFrame)
            else Ok(fc.(session := Read8(f.payload[3..11]), standby := true, frames := [f]))
          else if f.messageType == UartFrame.SetStabilizedSetpoint then
            if |f.payload| < 8 then Err(BadFrame)
            else if Read8(f.payload[..8]) != fc.session then Err(WrongSession)
            else Ok(fc.(frames := fc.frames + [f]))
          else Ok(fc.(frames := fc.frames + [f]))
  }

  // ---------------------------------------------------------------- the node

  /** `TRANSITIONS` */
  predicate MayMove(from: MissionState, to: MissionState) {
    match from
    case Idle => to == Authorized
    case Authorized => to == Launch || to == Abort
    case Launch => to == Form || to == Abort
    case Form => to == TransitToLocker || to == Abort
    case TransitToLocker => to == Pickup || to == Abort
    case Pickup => to == TransitToDestination || to == Abort
    case TransitToDestination => to == Deliver || to == Abort
    case Deliver => to == Return || to == Abort
    case Return => to == Land || to == Abort
    case Land => to == Idle
    case Abort => to == Land || to == Fault
    case Fault => to == Idle
  }

  predicate MaySteer(s: MissionState) {
    s == Launch || s == Form || s == TransitToLocker || s == TransitToDestination || s == Return || s == Land
  }

  /** What the node knows of the flight controller. */
  datatype FcCache = FcCache(standby: bool, healthy: bool, lastSeen: int, session: nat)

  /** One thing that happened: a packet taken from the queue, a state entered, or a setpoint handed to the serial line
      in a state. */
  datatype Mark = Taken(packet: Packet) | Entered(state: MissionState) | Steered(state: MissionState)

  /**
   * The node's fields, the other end of its line, and the history of the run:
   * the packets accepted, those taken from the queue, and the marks.
   */
  datatype Node = Node(newest: Newest, queue: seq<Packet>, state: MissionState, cache: FcCache, session: nat, seq_: nat,
                       mission: Option<string>, line: Fc, accepted: seq<Packet>, applied: seq<Packet>, marks: seq<Mark>)

  /** A call's effect, which stays even when the call fails. */
  datatype Outcome = Outcome(node: Node, error: Option<Error>)

  function Enter(n: Node, s: MissionState): Node { n.(state := s, marks := n.marks + [Entered(s)]) }

  /** `_transition` */
  function Move(n: Node, to: MissionState): Outcome {
    if MayMove(n.state, to) then Outcome(Enter(n, to), None) else Outcome(n, Some(InvalidTransition))
  }

  /** The fixed part of a node's surroundings. */
  datatype Setup = Setup(id: Identity, crc: UartFrame.Crc32, queueLimit: nat)

  /** A frame goes out under the next sequence number, which is used up even when the frame cannot be delivered. */
  function Send(su: Setup, n: Node, t: UartFrame.MessageType, formation: int, payload: Bytes, now: int): Outcome {
    var next := n.(seq_ := n.seq_ + 1);
    match FcReceive(su.crc, n.line,
                    UartFrame.Frame(t, su.id.vehicle, formation, n.seq_ + 1, now, payload, UartFrame.VERSION))
    case Err(e) => Outcome(next, Some(e))
    case Ok(line) => Outcome(next.(line := line), None)
  }

  function SteerBy(su: Setup, n: Node, v: Values, ttl: int, now: int): Outcome {
    var validFor := if ttl < 100 then ttl else 100;
    if !InBounds(v, validFor) then Outcome(n, Some(SetpointOutOfRange))
    else if v.formation.None? then Outcome(n.(seq_ := n.seq_ + 1), Some(MissingField))
    else
      Send(su, n.(marks := n.marks + [Steered(n.state)]), UartFrame.SetStabilizedSetpoint, v.formation.value,
           SetpointPayload(n.session, v, validFor), now)
  }

  /** What one packet does once it has left the queue. */
  function Perform(su: Setup, n: Node, p: Packet, now: int): Outcome {
    match p.body.command
    case Assign(mission) =>
      if mission.None? then Outcome(n, Some(MissingField)) else Move(n.(mission := mission), Authorized)
    case Transition(target) => if target.None? then Outcome(n, Some(MissingField)) else Move(n, target.value)
    case AbortNow => Outcome(Enter(n, Abort), None)
    case Setpoint(values) =>
      if !MaySteer(n.state) then Outcome(n, Some(SetpointNotAllowed))
      else if values.None? then Outcome(n, Some(MissingField))
      else SteerBy(su, n, values.value, p.body.ttl, now)
    case Ping => Outcome(n, None)
    case OtherKind(_) => Outcome(n, None)
  }

  /** The head of the queue is taken, and counts as applied whatever comes of it. */
  function Take(n: Node): Node
    requires n.queue != []
  {
    n.(queue := n.queue[1..], applied := n.applied + [n.queue[0]], marks := n.marks + [Taken(n.queue[0])])
  }

  lemma PerformKeepsQueue(su: Setup, n: Node, p: Packet, now: int)
    ensures (var o := Perform(su, n, p, now).node;
             o.queue == n.queue && o.applied == n.applied && o.accepted == n.accepted && o.newest == n.newest)
  {
    hide FcReceive, SetpointPayload, InBounds, MayMove, MaySteer;
  }

  /** Packets are performed in order; the first failure ends the call and leaves the rest queued. */
  function Drain(su: Setup, n: Node, now: int): Outcome
    decreases |n.queue|
  {
    if n.queue == [] then Outcome(n, None)
    else
      var o := Perform(su, Take(n), n.queue[0], now);
      PerformKeepsQueue(su, Take(n), n.queue[0], now);
      if o.error.Some? then o else Drain(su, o.node, now)
  }

  /** Without news from the flight controller for 300 ms the mission is aborted. */
  function CheckLine(n: Node, now: int): Node {
    if n.cache.healthy && now - n.cache.lastSeen > 300 then Enter(n.(cache := n.cache.(healthy := false)), Abort) else n
  }

  /** `tick` */
  function Tick(su: Setup, n: Node, now: int): Outcome {
    var o := Drain(su, n, now);
    if o.error.Some? then o else Outcome(CheckLine(o.node, now), None)
  }

  /** `receive_server`: a packet is accepted before the queue is looked at. */
  function Receive(su: Setup, n: Node, p: Packet, now: int): Outcome {
    match Accept(su.id, n.newest, p, now)
    case Err(e) => Outcome(n, Some(e))
    case Ok(newest) =>
      var m := n.(newest := newest, accepted := n.accepted + [p]);
      if |n.queue| == su.queueLimit then Outcome(m, Some(QueueFull)) else Outcome(m.(queue := n.queue + [p]), None)
  }

  /** The first of the numbers drawn that is a new session. */
  function NewSession(draws: seq<nat>, previous: nat): Option<nat> {
    if draws == [] then None
    else if draws[0] != 0 && draws[0] != previous then Some(draws[0])
    else NewSession(draws[1..], previous)
  }

  /** `connect_fc`, with the random numbers it draws */
  function Connect(su: Setup, n: Node, draws: seq<nat>, now: int): Outcome {
    match NewSession(draws, n.session)
    case None => Outcome(n, Some(NoSession))
    case Some(session) =>
      var o := Send(su, n.(session := session), UartFrame.Hello, 0, HelloPayload(session), now);
      if o.error.Some? then o
      else Outcome(o.node.(cache := FcCache(true, true, now, session), queue := []), None)
  }

  // ---------------------------------------------------------------- runs

  /** What can happen to a node; `Line` is the serial line failing or coming back. */
  datatype Op =
    | ReceiveOp(packet: Packet, now: int)
    | TickOp(now: int)
    | ConnectOp(draws: seq<nat>, now: int)
    | LineOp(online: bool)

  function Step(su: Setup, n: Node, op: Op): Node {
    match op
    case ReceiveOp(p, now) => Receive(su, n, p, now).node
    case TickOp(now) => Tick(su, n, now).node
    case ConnectOp(draws, now) => Connect(su, n, draws, now).node
    case LineOp(online) => n.(line := n.line.(online := online))
  }

  function Run(su: Setup, n: Node, ops: seq<Op>): Node
    decreases |ops|
  {
    if ops == [] then n else Run(su, Step(su, n, ops[0]), ops[1..])
  }

  /** A node as it is made, beside a flight controller of the same vehicle. */
  function Fresh(su: Setup, session: nat): Node {
    Node(Newest(0, -1), [], Idle, FcCache(false, false, 0, 0), session, 0, None, Fc(su.id.vehicle, true, 0, false, []),
         [], [], [])
  }
}
