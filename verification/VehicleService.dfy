/** The vehicle node as objects: the validator, the simulated flight controller and the service, updated in place. */
module VehicleService {
  import opened Outcomes
  import opened Words
  import opened Octets
  import UartFrame
  import opened VehicleNode
  import opened VehicleSafety

  class FleetValidator {
    const id: Identity
    var epoch: int
    var lastSequence: int

    ghost function View(): Newest
      reads this
    {
      Newest(epoch, lastSequence)
    }

    constructor (id: Identity)
      ensures this.id == id && View() == Newest(0, -1)
    {
      this.id, epoch, lastSequence := id, 0, -1;
    }

    /** `accept`: the first check that fails is reported, and then nothing is changed. */
    method Check(p: Packet, now: int) returns (error: Option<Error>)
      modifies this
      ensures match Accept(id, old(View()), p, now)
              case Ok(newest) => error == None && View() == newest
              case Err(e) => error == Some(e) && View() == old(View())
    {
      var b := p.body;
      if b.version != PACKET_VERSION { return Some(BadVersion); }
      if b.sender != id.server || b.vehicle != id.vehicle { return Some(BadIdentity); }
      if b.command.OtherKind? || !(0 < b.ttl <= 1000) { return Some(BadKindOrBounds); }
      if id.size(b) > MAX_CANONICAL_BYTES { return Some(TooLarge); }
      if p.signature != id.sign(b) { return Some(BadSignature); }
      if b.issued > now + 10 || now - b.issued > b.ttl { return Some(Stale); }
      if b.epoch < epoch || (b.epoch == epoch && b.sequence <= lastSequence) { return Some(Replayed); }
      if b.epoch > epoch {
        epoch := b.epoch;
        lastSequence := -1;
      }
      lastSequence := b.sequence;
      return None;
    }
  }

  class FakeFc {
    const vehicle: int
    const crc: UartFrame.Crc32
    var online: bool
    var session: nat
    var standby: bool
    var frames: seq<UartFrame.Frame>

    ghost function View(): Fc
      reads this
    {
      Fc(vehicle, online, session, standby, frames)
    }

    constructor (vehicle: int, crc: UartFrame.Crc32)
      ensures this.crc == crc && View() == Fc(vehicle, true, 0, false, [])
    {
      this.vehicle, this.crc := vehicle, crc;
      online, session, standby, frames := true, 0, false, [];
    }

    /** `receive` */
    method Receive(frame: UartFrame.Frame) returns (error: Option<Error>)
      modifies this
      ensures match FcReceive(crc, old(View()), frame)
              case Ok(fc) => error == None && View() == fc
              case Err(e) => error == Some(e) && View() == old(View())
    {
      hide UartFrame.Encode, UartFrame.Decode, Read8;
      if !online { return Some(Offline); }
      var wire := UartFrame.Encode(crc, frame);
      if wire.Err? { return Some(BadFrame); }
      var decoded := UartFrame.Decode(crc, wire.value, Some(vehicle));
      if decoded.Err? { return Some(BadFrame); }
      var f := decoded.value;
      if f.messageType == UartFrame.Hello {
        if |f.payload| < 11 { return Some(BadFrame); }
        session := Read8(f.payload[3..11]);
        standby := true;
        frames := [];
      } else if f.messageType == UartFrame.SetStabilizedSetpoint {
        if |f.payload| < 8 { return Some(BadFrame); }
        if Read8(f.payload[..8]) != session { return Some(WrongSession); }
      }
      frames := frames + [f];
      return None;
    }
  }

  class Service {
    const setup: Setup
    const validator: FleetValidator
    const uart: FakeFc
    var queue: seq<Packet>
    var state: MissionState
    var cache: FcCache
    var session: nat
    var sequence: nat
    var mission: Option<string>
    ghost var accepted: seq<Packet>
    ghost var applied: seq<Packet>
    ghost var marks: seq<Mark>

    ghost function View(): Node
      reads this, validator, uart
    {
      Node(validator.View(), queue, state, cache, session, sequence, mission, uart.View(), accepted, applied, marks)
    }

    /** The parts belong together, and what holds in every run holds. */
    ghost predicate Valid()
      reads this, validator, uart
    {
      && validator.id == setup.id && uart.crc == setup.crc
      && OrderOk(setup, View()) && FlightOk(View()) && LineOk(setup, View())
    }

    constructor (setup: Setup, session: nat)
      ensures Valid() && this.setup == setup && View() == Fresh(setup, session) && fresh(validator) && fresh(uart)
    {
      hide MaySteer;
      NoMarks();
      this.setup, this.session := setup, session;
      validator := new FleetValidator(setup.id);
      uart := new FakeFc(setup.id.vehicle, setup.crc);
      queue, state, cache, sequence, mission := [], Idle, FcCache(false, false, 0, 0), 0, None;
      accepted, applied, marks := [], [], [];
    }

    /** What every run keeps is kept by a step. */
    ghost predicate Kept(n: Node)
    {
      OrderOk(setup, n) && FlightOk(n) && LineOk(setup, n)
    }

    lemma StepKeeps(n: Node, op: Op)
      requires Kept(n)
      ensures Kept(Step(setup, n, op))
    {
      hide OrderOk, FlightOk, LineOk, Step;
      StepKeepsOrder(setup, n, op);
      StepKeepsFlight(setup, n, op);
      StepKeepsLine(setup, n, op);
    }

    /** `receive_server` */
    method ReceiveServer(p: Packet, now: int) returns (error: Option<Error>)
      requires Valid()
      modifies this, validator, uart
      ensures Valid() && Outcome(View(), error) == Receive(setup, old(View()), p, now)
    {
      hide OrderOk, FlightOk, LineOk, Accept;
      StepKeeps(View(), ReceiveOp(p, now));
      error := validator.Check(p, now);
      if error.Some? { return; }
      accepted := accepted + [p];
      if |queue| == setup.queueLimit { return Some(QueueFull); }
      queue := queue + [p];
    }

    /** `_transition` */
    method TransitionTo(to: MissionState) returns (error: Option<Error>)
      modifies this`state, this`marks
      ensures Outcome(View(), error) == Move(old(View()), to)
    {
      if !MayMove(state, to) { return Some(InvalidTransition); }
      state := to;
      marks := marks + [Entered(to)];
      return None;
    }

    /** The next number is used, and the frame handed to the serial line. */
    method SendFrame(t: UartFrame.MessageType, formation: int, payload: Bytes, now: int) returns (error: Option<Error>)
      requires uart.crc == setup.crc
      modifies this`sequence, uart
      ensures Outcome(View(), error) == Send(setup, old(View()), t, formation, payload, now)
    {
      hide FcReceive;
      sequence := sequence + 1;
      error := uart.Receive(UartFrame.Frame(t, setup.id.vehicle, formation, sequence, now, payload, UartFrame.VERSION));
    }

    /** The setpoint branch of `tick`. */
    method Steer(values: Option<Values>, ttl: int, now: int) returns (error: Option<Error>)
      requires uart.crc == setup.crc
      modifies this`sequence, this`marks, uart
      ensures Outcome(View(), error)
           == if !MaySteer(old(state)) then Outcome(old(View()), Some(SetpointNotAllowed))
              else if values.None? then Outcome(old(View()), Some(MissingField))
              else SteerBy(setup, old(View()), values.value, ttl, now)
    {
      hide Send, SetpointPayload, InBounds, MaySteer, Pack8, FcReceive;
      if !MaySteer(state) { return Some(SetpointNotAllowed); }
      if values.None? { return Some(MissingField); }
      var v := values.value;
      var validFor := if ttl < 100 then ttl else 100;
      if !InBounds(v, validFor) { return Some(SetpointOutOfRange); }
      var payload := SetpointPayload(session, v, validFor);
      if v.formation.None? {
        sequence := sequence + 1;
        return Some(MissingField);
      }
      marks := marks + [Steered(state)];
      error := SendFrame(UartFrame.SetStabilizedSetpoint, v.formation.value, payload, now);
    }

    /** One packet that has left the queue. */
    method PerformPacket(p: Packet, now: int) returns (error: Option<Error>)
      requires uart.crc == setup.crc
      modifies this`state, this`marks, this`mission, this`sequence, uart
      ensures Outcome(View(), error) == Perform(setup, old(View()), p, now)
    {
      hide SteerBy, Move, MaySteer;
      var c := p.body.command;
      if c.Assign? {
        if c.mission.None? { return Some(MissingField); }
        mission := c.mission;
        error := TransitionTo(Authorized);
      } else if c.Transition? {
        if c.target.None? { return Some(MissingField); }
        error := TransitionTo(c.target.value);
      } else if c.AbortNow? {
        state := Abort;
        marks := marks + [Entered(Abort)];
        error := None;
      } else if c.Setpoint? {
        error := Steer(c.values, p.body.ttl, now);
      } else {
        error := None;
      }
    }

    /** `tick` */
    method DoTick(now: int) returns (error: Option<Error>)
      requires Valid()
      modifies this, uart
      ensures Valid() && Outcome(View(), error) == Tick(setup, old(View()), now)
    {
      hide OrderOk, FlightOk, LineOk, Perform;
      StepKeeps(View(), TickOp(now));
      while queue != []
        invariant uart.crc == setup.crc && Drain(setup, View(), now) == Drain(setup, old(View()), now)
        decreases |queue|
      {
        var p := queue[0];
        ghost var n := View();
        queue := queue[1..];
        applied := applied + [p];
        marks := marks + [Taken(p)];
        assert View() == Take(n);
        PerformKeepsQueue(setup, View(), p, now);
        error := PerformPacket(p, now);
        if error.Some? { return; }
      }
      if cache.healthy && now - cache.lastSeen > 300 {
        cache := cache.(healthy := false);
        state := Abort;
        marks := marks + [Entered(Abort)];
      }
      error := None;
    }

    /** `connect_fc`, drawing at most as many numbers as `draws` has */
    method ConnectFc(draws: seq<nat>, now: int) returns (error: Option<Error>)
      requires Valid()
      modifies this, uart
      ensures Valid() && Outcome(View(), error) == Connect(setup, old(View()), draws, now)
    {
      hide OrderOk, FlightOk, LineOk, Send, HelloPayload;
      StepKeeps(View(), ConnectOp(draws, now));
      var i := 0;
      while i < |draws| && !(draws[i] != 0 && draws[i] != session)
        invariant 0 <= i <= |draws| && NewSession(draws[i..], session) == NewSession(draws, session)
      {
        i := i + 1;
      }
      if i == |draws| { return Some(NoSession); }
      session := draws[i];
      error := SendFrame(UartFrame.Hello, 0, HelloPayload(session), now);
      if error.Some? { return; }
      cache := FcCache(true, true, now, session);
      queue := [];
    }
  }
}
