/** Whole runs of the fleet server, through any operations and restarts. */
module FleetRuns {
  import opened Outcomes
  import opened FleetGraph
  import opened FleetAudit
  import opened FleetOperations
  import opened FleetInvariant

  // ---------------------------------------------------------------- every operation keeps the invariant

  lemma IngestKeeps(h: Hasher, f: Fleet, id: int, healthy: bool, battery: int, now: int)
    requires Invariant(h, f) && Ingest(h, f, id, healthy, battery, now).Ok?
    ensures Invariant(h, Ingest(h, f, id, healthy, battery, now).value)
  {
    hide LogOk, Ownership, SavedOk, Logged, WithVehicle;
    if f.vehicles[id].state == Maintenance {
      RemarkKeeps(h, f, f, "telemetry", id, "maintenance");
    } else {
      var v := AfterTelemetry(f.vehicles[id], healthy, battery, now);
      WithVehicleKeeps(f, id, v);
      VehicleOnly(f, id, v);
      RemarkKeeps(h, WithVehicle(f, id, v), f, "telemetry", id, "");
    }
  }

  lemma VehicleOnly(f: Fleet, id: int, v: Vehicle)
    ensures WithVehicle(f, id, v).log == f.log && WithVehicle(f, id, v).missions == f.missions
  {
  }

  lemma UpdateKeeps(h: Hasher, f: Fleet, id: int, session: int, healthy: bool)
    requires Invariant(h, f) && UpdateSimNode(h, f, id, session, healthy).Ok?
    ensures Invariant(h, UpdateSimNode(h, f, id, session, healthy).value)
  {
    hide LogOk, Ownership, SavedOk, Logged, WithVehicle;
    if f.vehicles[id].state == Maintenance {
      RemarkKeeps(h, f, f, "sim_node", id, "maintenance");
    } else {
      var v := AfterUpdate(f.vehicles[id], session, healthy);
      WithVehicleKeeps(f, id, v);
      VehicleOnly(f, id, v);
      RemarkKeeps(h, WithVehicle(f, id, v), f, "sim_node", id, "");
    }
  }

  lemma SetMaintenanceKeeps(h: Hasher, f: Fleet, id: int, operator: string, note: string)
    requires Invariant(h, f) && SetMaintenance(h, f, id, operator, note).Ok?
    ensures Invariant(h, SetMaintenance(h, f, id, operator, note).value)
  {
    hide LogOk, Ownership, SavedOk, Logged, WithVehicle;
    var v := f.vehicles[id].(state := Maintenance);
    WithVehicleKeeps(f, id, v);
    VehicleOnly(f, id, v);
    RemarkKeeps(h, WithVehicle(f, id, v), f, "maintenance_set", id, note);
  }

  lemma ClearMaintenanceKeeps(h: Hasher, f: Fleet, id: int, operator: string)
    requires Invariant(h, f) && ClearMaintenance(h, f, id, operator).Ok?
    ensures Invariant(h, ClearMaintenance(h, f, id, operator).value)
  {
    hide LogOk, Ownership, SavedOk, Logged, WithVehicle;
    var v := f.vehicles[id].(state := Offline);
    WithVehicleKeeps(f, id, v);
    VehicleOnly(f, id, v);
    RemarkKeeps(h, WithVehicle(f, id, v), f, "maintenance_cleared", id, "");
  }

  lemma CreateKeeps(h: Hasher, f: Fleet, count: int)
    requires Invariant(h, f) && Create(h, f, count).Ok?
    ensures Invariant(h, Create(h, f, count).value)
  {
    EligibleAre(f.vehicles, 1);
    var selected := Allocate(f.vehicles, count).value;
    var g := WithNewMission(f, selected);
    CreatedOwnership(f, selected);
    CreatedSaved(f, selected);
    CreatedRest(f, selected);
    hide MISSION_ROUTE, Ownership, SavedOk, Appended, Replay, Verifies, WithNewMission, Eligible;
    StatesUpdated(f.missions, g.epoch, g.missions[g.epoch]);
    LoggingKeeps(h, g, f, MissionCreated(g.missions[g.epoch]));
    LoggedKeepsRest(h, g, MissionCreated(g.missions[g.epoch]));
  }

  lemma CreatedRest(f: Fleet, selected: seq<int>)
    requires forall i :: i in selected ==> i in f.vehicles
    ensures (var g := WithNewMission(f, selected);
             var m := Mission(f.epoch + 1, selected, MISSION_ROUTE, Planned, false);
             g.epoch == f.epoch + 1 && g.boot == f.boot && g.log == f.log && g.missions == f.missions[g.epoch := m])
  {
    hide MISSION_ROUTE;
  }

  /** A mission's new state is recorded by an event that replays to it. */
  lemma MovedLog(h: Hasher, f: Fleet, g: Fleet, k: nat, m: Mission, event: Event)
    requires LogOk(h, f) && g.log == f.log && g.missions == f.missions[k := m]
    requires Replayed(Replay(f.log), event) == Replay(f.log)[k := m.state]
    ensures LogOk(h, Logged(h, g, event))
  {
    hide Appended, Replay, Verifies, Replayed;
    StatesUpdated(f.missions, k, m);
    LoggingKeeps(h, g, f, event);
  }

  lemma AuthorizeKeeps(h: Hasher, f: Fleet, k: nat, operator: string)
    requires Invariant(h, f) && Authorize(h, f, k, operator).Ok?
    ensures Invariant(h, Authorize(h, f, k, operator).value)
  {
    var m := f.missions[k].(state := Authorized, authorized := true);
    NumberIs(f, k);
    WithMissionKeeps(f, k, m);
    hide Ownership, SavedOk, LogOk, Logged, Replay;
    MovedLog(h, f, WithMission(f, m), k, m, OperatorAuthorize(k, operator));
    LoggedKeepsRest(h, WithMission(f, m), OperatorAuthorize(k, operator));
  }

  lemma RequestAbortKeeps(h: Hasher, f: Fleet, k: nat, operator: string)
    requires Invariant(h, f) && RequestAbort(h, f, k, operator).Ok?
    ensures Invariant(h, RequestAbort(h, f, k, operator).value)
  {
    var m := f.missions[k].(state := AbortRequested);
    NumberIs(f, k);
    WithMissionKeeps(f, k, m);
    hide Ownership, SavedOk, LogOk, Logged, Replay;
    MovedLog(h, f, WithMission(f, m), k, m, OperatorAbortRequest(k, operator));
    LoggedKeepsRest(h, WithMission(f, m), OperatorAbortRequest(k, operator));
  }

  lemma EndedKeeps(h: Hasher, f: Fleet, k: nat, m: Mission, event: Event)
    requires Invariant(h, f) && k in f.missions && Allowed(f.missions[k].state, m.state) && !Active(m.state)
    requires m == f.missions[k].(state := m.state) && Replayed(Replay(f.log), event) == Replay(f.log)[k := m.state]
    ensures Invariant(h, Logged(h, WithMission(Released(f, m), m), event))
  {
    NumberIs(f, k);
    EndedOwnership(f, k, m);
    EndedSaved(f, m);
    ReleasedTables(f, m);
    hide Ownership, SavedOk, LogOk, Logged, Replay, Released;
    MovedLog(h, f, WithMission(Released(f, m), m), k, m, event);
    LoggedKeepsRest(h, WithMission(Released(f, m), m), event);
  }

  lemma StepKeeps(h: Hasher, f: Fleet, op: Op)
    requires Invariant(h, f)
    ensures Invariant(h, Step(h, f, op))
  {
    hide Invariant, Lists, Restarted, Logged, WithMission, Released, WithVehicle, Ingest, UpdateSimNode, SetMaintenance,
         ClearMaintenance, Create, Authorize, RequestAbort;
    match op
    case IngestOp(id, healthy, battery, now) =>
      if Apply(h, f, op).Ok? { IngestKeeps(h, f, id, healthy, battery, now); }
    case SimNodeOp(id, session, healthy) =>
      if Apply(h, f, op).Ok? { UpdateKeeps(h, f, id, session, healthy); }
    case SetMaintenanceOp(id, operator, note) =>
      if Apply(h, f, op).Ok? { SetMaintenanceKeeps(h, f, id, operator, note); }
    case ClearMaintenanceOp(id, operator) =>
      if Apply(h, f, op).Ok? { ClearMaintenanceKeeps(h, f, id, operator); }
    case CreateOp(count) =>
      if Apply(h, f, op).Ok? { CreateKeeps(h, f, count); }
    case AuthorizeOp(k, operator) =>
      if Apply(h, f, op).Ok? { AuthorizeKeeps(h, f, k, operator); }
    case RequestAbortOp(k, operator) =>
      if Apply(h, f, op).Ok? { RequestAbortKeeps(h, f, k, operator); }
    case ConfirmAbortOp(k, operator) =>
      if Apply(h, f, op).Ok? {
        EndedKeeps(h, f, k, f.missions[k].(state := Aborted), OperatorAbortConfirm(k, operator));
      }
    case CompleteOp(k) =>
      if Apply(h, f, op).Ok? { EndedKeeps(h, f, k, f.missions[k].(state := Completed), MissionCompleted(k)); }
    case AdviseOp(text) =>
      AdviseKeeps(h, f, text);
    case RestartOp(order) =>
      if Lists(order, f.saved.missions) { RestartKeeps(h, f, order); }
  }

  lemma AdviseKeeps(h: Hasher, f: Fleet, text: string)
    requires Invariant(h, f)
    ensures Invariant(h, Logged(h, f, Remark("ai_proposal", 0, text)))
  {
    RemarkKeeps(h, f, f, "ai_proposal", 0, text);
  }

  lemma {:induction false} RunKeeps(h: Hasher, f: Fleet, ops: seq<Op>)
    requires Invariant(h, f)
    ensures Invariant(h, Run(h, f, ops))
    decreases |ops|
  {
    hide Invariant, Step;
    if ops != [] {
      StepKeeps(h, f, ops[0]);
      RunKeeps(h, Step(h, f, ops[0]), ops[1..]);
    }
  }

  /** In every state the server can reach, through any operations and restarts, the invariant holds. */
  lemma EveryRun(h: Hasher, ops: seq<Op>)
    ensures Invariant(h, Run(h, Booted(h), ops))
  {
    hide Invariant, Booted, Run;
    BootHolds(h);
    RunKeeps(h, Booted(h), ops);
  }
}
