/** What each operation of the fleet server does to its tables, as functions on the whole state. */
module FleetOperations {
  import opened Outcomes
  import opened FleetGraph
  import opened FleetAudit

  datatype FleetState = Online | Offline | Degraded | Maintenance | Available | Assigned

  datatype Vehicle =
    Vehicle(state: FleetState, healthy: bool, battery: int, lastSeen: int, mission: Option<nat>, session: int)

  const NEW_VEHICLE := Vehicle(Offline, false, 0, 0, None, 0)

  /** The repository's tables, but for the audit log. */
  datatype Saved = Saved(vehicles: map<int, Vehicle>, missions: map<nat, Mission>, epoch: nat)

  /** The server's tables; `boot` is the epoch found at the last restart. */
  datatype Fleet = Fleet(vehicles: map<int, Vehicle>, missions: map<nat, Mission>, reservations: map<Node, nat>,
                         epoch: nat,
                         log: seq<Entry>, saved: Saved, boot: nat)

  datatype Error =
    | NoOperator
    | UnknownVehicle
    | UnknownMission
    | StillAssigned
    | TooFewVehicles
    | Conflict(missions: set<nat>)
    | IllegalTransition(from: MissionState, to: MissionState)

  const IDS: set<int> := set i: int | 1 <= i <= 15

  predicate Allowed(from: MissionState, to: MissionState) {
    match from
    case Planned => to == Authorized || to == AbortRequested
    case Authorized => to == AbortRequested || to == Completed
    case AbortRequested => to == Aborted
    case Aborted => false
    case Completed => false
  }

  /** A mission that can still move. */
  predicate Active(state: MissionState) { state != Aborted && state != Completed }

  // ---------------------------------------------------------------- the parts operations are made of

  function Logged(h: Hasher, f: Fleet, event: Event): Fleet { f.(log := Appended(h, f.log, event)) }

  /** A vehicle is changed and saved. */
  function WithVehicle(f: Fleet, id: int, v: Vehicle): Fleet {
    f.(vehicles := f.vehicles[id := v], saved := f.saved.(vehicles := f.saved.vehicles[id := v]))
  }

  /** A mission is changed and saved. */
  function WithMission(f: Fleet, m: Mission): Fleet {
    f.(missions := f.missions[m.number := m], saved := f.saved.(missions := f.saved.missions[m.number := m]))
  }

  /** The vehicle no mission holds any more. */
  function Freed(v: Vehicle): Vehicle { v.(mission := None, state := if v.healthy then Available else Offline) }

  /** The vehicles listed that still belong to mission `k`. */
  function HeldBy(vehicles: map<int, Vehicle>, listed: seq<int>, k: nat): set<int> {
    set i | i in listed && i in vehicles && vehicles[i].mission == Some(k)
  }

  /** The vehicles in `ids` are changed in both tables. */
  function FreedAll(f: Fleet, ids: set<int>): Fleet
    requires ids <= f.vehicles.Keys
  {
    f.(vehicles := map i | i in f.vehicles :: if i in ids then Freed(f.vehicles[i]) else f.vehicles[i],
    saved := f.saved.(vehicles := f.saved.vehicles + map i | i in ids :: Freed(f.vehicles[i])))
  }

  /** `_release` */
  function Released(f: Fleet, m: Mission): Fleet {
    FreedAll(f, HeldBy(f.vehicles, m.vehicles, m.number))
    .(reservations := map n | n in f.reservations && f.reservations[n] != m.number :: f.reservations[n])
  }

  // ---------------------------------------------------------------- telemetry and maintenance

  function AfterTelemetry(v: Vehicle, healthy: bool, battery: int, now: int): Vehicle {
    v.(healthy := healthy, battery := battery, lastSeen := now,
    state := if v.mission.Some? then (if healthy then Assigned else Degraded)
             else (if healthy && battery >= 30 then Available else Degraded))
  }

  function Ingest(h: Hasher, f: Fleet, id: int, healthy: bool, battery: int, now: int): Result<Fleet, Error> {
    if id !in f.vehicles then Err(UnknownVehicle)
    else if f.vehicles[id].state == Maintenance then Ok(Logged(h, f, Remark("telemetry", id, "maintenance")))
    else Ok(Logged(h, WithVehicle(f, id, AfterTelemetry(f.vehicles[id], healthy, battery, now)),
                   Remark("telemetry", id, "")))
  }

  function AfterUpdate(v: Vehicle, session: int, healthy: bool): Vehicle {
    v.(session := session, healthy := healthy,
    state := if v.mission.Some? then (if healthy then Assigned else Degraded)
             else (if healthy then Available else Offline))
  }

  function UpdateSimNode(h: Hasher, f: Fleet, id: int, session: int, healthy: bool): Result<Fleet, Error> {
    if id !in f.vehicles then Err(UnknownVehicle)
    else if f.vehicles[id].state == Maintenance then Ok(Logged(h, f, Remark("sim_node", id, "maintenance")))
    else Ok(Logged(h, WithVehicle(f, id, AfterUpdate(f.vehicles[id], session, healthy)), Remark("sim_node", id, "")))
  }

  function SetMaintenance(h: Hasher, f: Fleet, id: int, operator: string, note: string): Result<Fleet, Error> {
    if operator == "" then Err(NoOperator)
    else if id !in f.vehicles then Err(UnknownVehicle)
    else if f.vehicles[id].mission.Some? then Err(StillAssigned)
    else Ok(Logged(h, WithVehicle(f, id, f.vehicles[id].(state := Maintenance)), Remark("maintenance_set", id, note)))
  }

  function ClearMaintenance(h: Hasher, f: Fleet, id: int, operator: string): Result<Fleet, Error> {
    if operator == "" then Err(NoOperator)
    else if id !in f.vehicles then Err(UnknownVehicle)
    else Ok(Logged(h, WithVehicle(f, id, f.vehicles[id].(state := Offline)), Remark("maintenance_cleared", id, "")))
  }

  // ---------------------------------------------------------------- missions

  /** The available, healthy vehicles from `i` up, in order. */
  function Eligible(vehicles: map<int, Vehicle>, i: int): seq<int>
    decreases 15 - i
  {
    if i > 15 then []
    else if i in vehicles && vehicles[i].state == Available && vehicles[i].healthy then [i] + Eligible(vehicles, i + 1)
    else Eligible(vehicles, i + 1)
  }

  function Allocate(vehicles: map<int, Vehicle>, count: int): Result<seq<int>, Error> {
    var eligible := Eligible(vehicles, 1);
    if !(1 <= count <= 15) || |eligible| < count then Err(TooFewVehicles) else Ok(eligible[..count])
  }

  /** The missions holding a node of the route. */
  function Conflicts(reservations: map<Node, nat>, route: seq<Node>): set<nat> {
    set n | n in route && n in reservations :: reservations[n]
  }

  function Reserved(reservations: map<Node, nat>, route: seq<Node>, k: nat): map<Node, nat> {
    map n | n in reservations.Keys + (set r | r in route) :: if n in route then k else reservations[n]
  }

  function AssignedTo(v: Vehicle, k: nat): Vehicle { v.(state := Assigned, mission := Some(k)) }

  /** The mission of the next epoch, with its vehicles assigned, its route reserved and everything saved. */
  function WithNewMission(f: Fleet, selected: seq<int>): Fleet
    requires forall i :: i in selected ==> i in f.vehicles
  {
    var k := f.epoch + 1;
    var m := Mission(k, selected, MISSION_ROUTE, Planned, false);
    var taken := (map i | i in selected :: AssignedTo(f.vehicles[i], k));
    Fleet(f.vehicles + taken, f.missions[k := m], Reserved(f.reservations, MISSION_ROUTE, k), k, f.log,
          Saved(f.saved.vehicles + taken, f.saved.missions[k := m], k), f.boot)
  }

  lemma {:induction false} EligibleAre(vehicles: map<int, Vehicle>, i: int)
    requires i >= 1
    ensures forall j :: j in Eligible(vehicles, i)
                   <==> i <= j <= 15 && j in vehicles && vehicles[j].state == Available && vehicles[j].healthy
    decreases 15 - i
  {
    if i <= 15 { EligibleAre(vehicles, i + 1); }
  }

  lemma {:induction false} EligibleAscend(vehicles: map<int, Vehicle>, i: int, a: nat, b: nat)
    requires 1 <= i && a < b < |Eligible(vehicles, i)|
    ensures Eligible(vehicles, i)[a] < Eligible(vehicles, i)[b]
    decreases 15 - i
  {
    var rest := Eligible(vehicles, i + 1);
    EligibleAre(vehicles, i + 1);
    if Eligible(vehicles, i) == rest {
      EligibleAscend(vehicles, i + 1, a, b);
    } else if a > 0 {
      EligibleAscend(vehicles, i + 1, a - 1, b - 1);
    } else {
      assert rest[b - 1] in rest;
    }
  }

  /** `create_mission` */
  function Create(h: Hasher, f: Fleet, count: int): Result<Fleet, Error> {
    match Allocate(f.vehicles, count)
    case Err(e) => Err(e)
    case Ok(selected) =>
      EligibleAre(f.vehicles, 1);
      if Conflicts(f.reservations, MISSION_ROUTE) != {} then Err(Conflict(Conflicts(f.reservations, MISSION_ROUTE)))
      else
        var g := WithNewMission(f, selected);
        Ok(Logged(h, g, MissionCreated(g.missions[g.epoch])))
  }

  function Authorize(h: Hasher, f: Fleet, k: nat, operator: string): Result<Fleet, Error> {
    if operator == "" then Err(NoOperator)
    else if k !in f.missions then Err(UnknownMission)
    else if !Allowed(f.missions[k].state, Authorized) then Err(IllegalTransition(f.missions[k].state, Authorized))
    else
      var m := f.missions[k].(state := Authorized, authorized := true);
      Ok(Logged(h, WithMission(f, m), OperatorAuthorize(k, operator)))
  }

  function RequestAbort(h: Hasher, f: Fleet, k: nat, operator: string): Result<Fleet, Error> {
    if operator == "" then Err(NoOperator)
    else if k !in f.missions then Err(UnknownMission)
    else if !Allowed(f.missions[k].state, AbortRequested)
    then Err(IllegalTransition(f.missions[k].state, AbortRequested))
    else
      var m := f.missions[k].(state := AbortRequested);
      Ok(Logged(h, WithMission(f, m), OperatorAbortRequest(k, operator)))
  }

  function ConfirmAbort(h: Hasher, f: Fleet, k: nat, operator: string): Result<Fleet, Error> {
    if operator == "" then Err(NoOperator)
    else if k !in f.missions then Err(UnknownMission)
    else if !Allowed(f.missions[k].state, Aborted) then Err(IllegalTransition(f.missions[k].state, Aborted))
    else
      var m := f.missions[k].(state := Aborted);
      Ok(Logged(h, WithMission(Released(f, m), m), OperatorAbortConfirm(k, operator)))
  }

  function Complete(h: Hasher, f: Fleet, k: nat): Result<Fleet, Error> {
    if k !in f.missions then Err(UnknownMission)
    else if !Allowed(f.missions[k].state, Completed) then Err(IllegalTransition(f.missions[k].state, Completed))
    else
      var m := f.missions[k].(state := Completed);
      Ok(Logged(h, WithMission(Released(f, m), m), MissionCompleted(k)))
  }

  // ---------------------------------------------------------------- restart

  /** A mission that was planned or authorized is moved towards its abort; the others stay. */
  function Reconciled(m: Mission): Mission {
    if m.state == Planned || m.state == Authorized then m.(state := AbortRequested) else m
  }

  function ReconciledAll(missions: map<nat, Mission>): map<nat, Mission> {
    map k | k in missions :: Reconciled(missions[k])
  }

  /** The missions that were still active, in the order the repository lists them. */
  function Interrupted(missions: map<nat, Mission>, order: seq<nat>): seq<nat> {
    if order == [] then []
    else
      var before := Interrupted(missions, order[..|order| - 1]);
      var k := order[|order| - 1];
      if k in missions && Active(missions[k].state) then before + [k] else before
  }

  function LoggedInterrupted(h: Hasher, log: seq<Entry>, missions: map<nat, Mission>, order: seq<nat>): seq<Entry> {
    if order == [] then log
    else
      var before := LoggedInterrupted(h, log, missions, order[..|order| - 1]);
      var k := order[|order| - 1];
      if k in missions && Active(missions[k].state)
      then Appended(h, before, RestartReconciliation(k, missions[k].state, AbortRequested)) else before
  }

  /** The repository lists its missions in some order, each once. */
  predicate Lists(order: seq<nat>, missions: map<nat, Mission>) {
    (forall k :: k in order ==> k in missions) && (forall k :: k in missions ==> k in order)
    && forall i, j :: 0 <= i < j < |order| ==> order[i] != order[j]
  }

  function LoadedVehicles(saved: map<int, Vehicle>): map<int, Vehicle> {
    map i | i in IDS :: if i in saved then saved[i] else NEW_VEHICLE
  }

  function HeldByAny(vehicles: map<int, Vehicle>, missions: seq<nat>): set<int> {
    set i | i in vehicles && vehicles[i].mission.Some? && vehicles[i].mission.value in missions
  }

  /** `_reconcile`: only what was saved, and the log, come back. */
  function Restarted(h: Hasher, f: Fleet, order: seq<nat>): Fleet {
    var missions := ReconciledAll(f.saved.missions);
    var loaded := Fleet(LoadedVehicles(f.saved.vehicles), missions, map[], f.saved.epoch,
                        LoggedInterrupted(h, f.log, f.saved.missions, order), f.saved.(missions := missions),
                        f.saved.epoch);
    var reconciled := Interrupted(f.saved.missions, order);
    Logged(h, FreedAll(loaded, HeldByAny(loaded.vehicles, reconciled)), ServerReady(f.saved.epoch, reconciled))
  }

  /** The server started on an empty repository. */
  function Booted(h: Hasher): Fleet { Restarted(h, Fleet(map[], map[], map[], 0, [], Saved(map[], map[], 0), 0), []) }

  // ---------------------------------------------------------------- runs

  datatype Op =
    | IngestOp(id: int, healthy: bool, battery: int, now: int)
    | SimNodeOp(id: int, session: int, healthy: bool)
    | SetMaintenanceOp(id: int, operator: string, note: string)
    | ClearMaintenanceOp(id: int, operator: string)
    | CreateOp(count: int)
    | AuthorizeOp(number: nat, operator: string)
    | RequestAbortOp(number: nat, operator: string)
    | ConfirmAbortOp(number: nat, operator: string)
    | CompleteOp(number: nat)
    | AdviseOp(text: string)
    | RestartOp(order: seq<nat>)

  function Apply(h: Hasher, f: Fleet, op: Op): Result<Fleet, Error>
    requires !op.RestartOp?
  {
    match op
    case IngestOp(id, healthy, battery, now) => Ingest(h, f, id, healthy, battery, now)
    case SimNodeOp(id, session, healthy) => UpdateSimNode(h, f, id, session, healthy)
    case SetMaintenanceOp(id, operator, note) => SetMaintenance(h, f, id, operator, note)
    case ClearMaintenanceOp(id, operator) => ClearMaintenance(h, f, id, operator)
    case CreateOp(count) => Create(h, f, count)
    case AuthorizeOp(k, operator) => Authorize(h, f, k, operator)
    case RequestAbortOp(k, operator) => RequestAbort(h, f, k, operator)
    case ConfirmAbortOp(k, operator) => ConfirmAbort(h, f, k, operator)
    case CompleteOp(k) => Complete(h, f, k)
    case AdviseOp(text) => Ok(Logged(h, f, Remark("ai_proposal", 0, text)))
  }

  /** One step of a run: an operation that fails changes nothing, and a restart can list the missions in any order. */
  function Step(h: Hasher, f: Fleet, op: Op): Fleet {
    if op.RestartOp? then (if Lists(op.order, f.saved.missions) then Restarted(h, f, op.order) else f)
    else match Apply(h, f, op)
      case Ok(g) => g
      case Err(_) => f
  }

  function Run(h: Hasher, f: Fleet, ops: seq<Op>): Fleet
    decreases |ops|
  {
    if ops == [] then f else Run(h, Step(h, f, ops[0]), ops[1..])
  }
}
