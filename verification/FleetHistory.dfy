/** What later states of the fleet server still know of earlier ones. */
module FleetHistory {
  import opened Outcomes
  import opened FleetGraph
  import opened FleetAudit
  import opened FleetOperations
  import opened FleetInvariant
  import opened FleetRuns

  /** `to` is `from` or can follow it. */
  predicate Reaches(from: MissionState, to: MissionState) {
    from == to || from == Planned || (from == Authorized && to != Planned) || (from == AbortRequested && to == Aborted)
  }

  predicate MissionLater(f: Fleet, g: Fleet, k: nat)
    requires k in f.missions && k in g.missions
  {
    && Reaches(f.missions[k].state, g.missions[k].state)
    && (f.missions[k].authorized ==> g.missions[k].authorized)
    && g.missions[k] == f.missions[k].(state := g.missions[k].state, authorized := g.missions[k].authorized)
  }

  /** Missions are never lost or changed but in state, numbers are never used again, and the log only grows. */
  predicate Later(f: Fleet, g: Fleet) {
    && f.epoch <= g.epoch && f.boot <= g.boot && f.log <= g.log
    && (forall k :: k in f.missions ==> k in g.missions && MissionLater(f, g, k))
    && (forall k :: k in g.missions && k !in f.missions ==> f.epoch < k <= g.epoch)
  }

  lemma LaterIsTransitive(f: Fleet, g: Fleet, e: Fleet)
    requires Later(f, g) && Later(g, e)
    ensures Later(f, e)
  {
    forall k | k in f.missions ensures k in e.missions && MissionLater(f, e, k) {
      assert MissionLater(f, g, k) && MissionLater(g, e, k);
    }
  }

  lemma LoggedIsLater(h: Hasher, f: Fleet, g: Fleet, event: Event)
    requires Later(f, g)
    ensures Later(f, Logged(h, g, event))
  {
    hide Reaches;
    forall k | k in f.missions ensures MissionLater(f, Logged(h, g, event), k) { assert MissionLater(f, g, k); }
  }

  lemma SameMissionsIsLater(f: Fleet, g: Fleet)
    requires g.missions == f.missions && g.epoch == f.epoch && g.boot == f.boot && g.log == f.log
    ensures Later(f, g)
  {
  }

  lemma MovedIsLater(f: Fleet, g: Fleet, k: nat, m: Mission)
    requires k in f.missions && g.missions == f.missions[k := m] && g.epoch == f.epoch && g.boot == f.boot
             && g.log == f.log
    requires Allowed(f.missions[k].state, m.state) && (f.missions[k].authorized ==> m.authorized)
    requires m == f.missions[k].(state := m.state, authorized := m.authorized)
    ensures Later(f, g)
  {
  }

  lemma AddedIsLater(f: Fleet, g: Fleet, m: Mission)
    requires f.epoch + 1 !in f.missions && g.missions == f.missions[f.epoch + 1 := m]
    requires g.epoch == f.epoch + 1 && g.boot == f.boot && g.log == f.log
    ensures Later(f, g)
  {
  }

  lemma CreatedIsLater(h: Hasher, f: Fleet, count: int)
    requires Invariant(h, f) && Create(h, f, count).Ok?
    ensures Later(f, Create(h, f, count).value)
  {
    hide MISSION_ROUTE, Ownership, SavedOk, LogOk, WithNewMission, Eligible, Later, Logged;
    EligibleAre(f.vehicles, 1);
    var selected := Allocate(f.vehicles, count).value;
    var g := WithNewMission(f, selected);
    CreatedOwnership(f, selected);
    CreatedRest(f, selected);
    AddedIsLater(f, g, g.missions[g.epoch]);
    LoggedIsLater(h, f, g, MissionCreated(g.missions[g.epoch]));
  }

  lemma {:induction false} LoggedInterruptedGrows(h: Hasher, log: seq<Entry>, missions: map<nat, Mission>,
                                                  order: seq<nat>)
    ensures log <= LoggedInterrupted(h, log, missions, order)
  {
    if order != [] { LoggedInterruptedGrows(h, log, missions, order[..|order| - 1]); }
  }

  lemma FreedTables(f: Fleet, ids: set<int>)
    requires ids <= f.vehicles.Keys
    ensures (var g := FreedAll(f, ids);
             g.missions == f.missions && g.epoch == f.epoch && g.boot == f.boot && g.log == f.log)
  {
  }

  lemma RestartedIsLater(h: Hasher, f: Fleet, order: seq<nat>)
    requires Ownership(f) && SavedOk(f)
    ensures Later(f, Restarted(h, f, order))
  {
    hide LoggedInterrupted, Interrupted, HeldByAny, LoadedVehicles, IDS, FreedAll, MISSION_ROUTE, Restarted, Reconciled;
    var g := Loaded(h, f, order);
    var ids := HeldByAny(g.vehicles, Interrupted(f.saved.missions, order));
    RestartedIs(h, f, order);
    LoggedInterruptedGrows(h, f.log, f.missions, order);
    forall k | k in f.missions ensures MissionLater(f, g, k) { RestartedMission(f.missions[k]); }
    FreedTables(g, ids);
    LoggedIsLater(h, f, FreedAll(g, ids), ServerReady(f.saved.epoch, Interrupted(f.saved.missions, order)));
  }

  lemma ReleasedIsLater(h: Hasher, f: Fleet, k: nat, m: Mission, event: Event)
    requires k in f.missions && f.missions[k].number == k && Allowed(f.missions[k].state, m.state)
    requires m == f.missions[k].(state := m.state)
    ensures Later(f, Logged(h, WithMission(Released(f, m), m), event))
  {
    hide Released;
    ReleasedTables(f, m);
    MovedIsLater(f, WithMission(Released(f, m), m), k, m);
    LoggedIsLater(h, f, WithMission(Released(f, m), m), event);
  }

  lemma MissionOpIsLater(h: Hasher, f: Fleet, op: Op)
    requires Ownership(f) && (op.AuthorizeOp? || op.RequestAbortOp? || op.ConfirmAbortOp? || op.CompleteOp?)
    requires Apply(h, f, op).Ok?
    ensures Later(f, Apply(h, f, op).value)
  {
    hide Logged, Later, Released, MISSION_ROUTE;
    var k := op.number;
    NumberIs(f, k);
    match op
    case AuthorizeOp(_, operator) =>
      var m := f.missions[k].(state := Authorized, authorized := true);
      MovedIsLater(f, WithMission(f, m), k, m);
      LoggedIsLater(h, f, WithMission(f, m), OperatorAuthorize(k, operator));
    case RequestAbortOp(_, operator) =>
      var m := f.missions[k].(state := AbortRequested);
      MovedIsLater(f, WithMission(f, m), k, m);
      LoggedIsLater(h, f, WithMission(f, m), OperatorAbortRequest(k, operator));
    case ConfirmAbortOp(_, operator) =>
      ReleasedIsLater(h, f, k, f.missions[k].(state := Aborted), OperatorAbortConfirm(k, operator));
    case CompleteOp(_) =>
      ReleasedIsLater(h, f, k, f.missions[k].(state := Completed), MissionCompleted(k));
  }

  lemma VehicleOpIsLater(h: Hasher, f: Fleet, op: Op)
    requires op.IngestOp? || op.SimNodeOp? || op.SetMaintenanceOp? || op.ClearMaintenanceOp? || op.AdviseOp?
    requires Apply(h, f, op).Ok?
    ensures Later(f, Apply(h, f, op).value)
  {
    hide Reaches;
    SameMissionsIsLater(f, f);
  }

  lemma StepIsLater(h: Hasher, f: Fleet, op: Op)
    requires Invariant(h, f)
    ensures Later(f, Step(h, f, op))
  {
    SameMissionsIsLater(f, f);
    hide Later, Apply, Restarted, Ownership, SavedOk, LogOk;
    if op.RestartOp? {
      RestartedIsLater(h, f, op.order);
    } else if Apply(h, f, op).Ok? {
      if op.CreateOp? {
        CreateIs(h, f, op.count);
        CreatedIsLater(h, f, op.count);
      } else if op.AuthorizeOp? || op.RequestAbortOp? || op.ConfirmAbortOp? || op.CompleteOp? {
        MissionOpIsLater(h, f, op);
      } else {
        VehicleOpIsLater(h, f, op);
      }
    }
  }

  lemma CreateIs(h: Hasher, f: Fleet, count: int)
    ensures Apply(h, f, CreateOp(count)) == Create(h, f, count)
  {
  }

  /** Over any run missions are kept, numbers are fresh, and the log is only added to. */
  lemma {:induction false} RunIsLater(h: Hasher, f: Fleet, ops: seq<Op>)
    requires Invariant(h, f)
    ensures Later(f, Run(h, f, ops))
    decreases |ops|
  {
    SameMissionsIsLater(f, f);
    hide Invariant, Step, Later;
    if ops != [] {
      var g := Step(h, f, ops[0]);
      StepKeeps(h, f, ops[0]);
      StepIsLater(h, f, ops[0]);
      RunIsLater(h, g, ops[1..]);
      LaterIsTransitive(f, g, Run(h, g, ops[1..]));
    }
  }

  /** A mission still active at a restart is never executed again: it can only end aborted. */
  lemma InterruptedEndsAborted(h: Hasher, f: Fleet, order: seq<nat>, ops: seq<Op>, k: nat)
    requires Invariant(h, f) && Lists(order, f.saved.missions) && k in f.missions && Active(f.missions[k].state)
    ensures (var g := Run(h, Restarted(h, f, order), ops);
             k in g.missions && (g.missions[k].state == AbortRequested || g.missions[k].state == Aborted))
  {
    var r := Restarted(h, f, order);
    RestartKeeps(h, f, order);
    RestartedMission(f.missions[k]);
    assert k in r.missions && r.missions[k].state == AbortRequested;
    RunIsLater(h, r, ops);
    hide Ownership, SavedOk, LogOk, Restarted, Run;
    assert MissionLater(r, Run(h, r, ops), k);
  }

  /** Confirming the abort of a mission from before the restart takes nothing from the missions of now. */
  lemma StaleConfirmTakesNothing(h: Hasher, f: Fleet, k: nat, operator: string)
    requires Invariant(h, f) && k <= f.boot && ConfirmAbort(h, f, k, operator).Ok?
    ensures (var g := ConfirmAbort(h, f, k, operator).value;
             g.vehicles == f.vehicles && g.reservations == f.reservations && g.saved.vehicles == f.saved.vehicles)
  {
    hide LogOk, MISSION_ROUTE, Appended, Released, HeldBy, MissionOk, OwnsAll, IDS;
    var m := f.missions[k].(state := Aborted);
    NumberOfStale(f, k);
    forall i | i in f.vehicles ensures f.vehicles[i].mission != Some(k) { assert VehicleOk(f, i); }
    forall n | n in f.reservations ensures f.reservations[n] != k { assert ReservationOk(f, n); }
    NothingReleased(f, m);
  }

  lemma NumberOfStale(f: Fleet, k: nat)
    requires Ownership(f) && k in f.missions
    ensures f.missions[k].number == k
  {
    hide MISSION_ROUTE, IDS;
    assert MissionOk(f, k);
  }

  /** A mission that holds nothing releases nothing. */
  lemma NothingReleased(f: Fleet, m: Mission)
    requires forall i :: i in f.vehicles ==> f.vehicles[i].mission != Some(m.number)
    requires forall n :: n in f.reservations ==> f.reservations[n] != m.number
    ensures (var g := Released(f, m);
             g.vehicles == f.vehicles && g.reservations == f.reservations && g.saved.vehicles == f.saved.vehicles)
  {
    var held := HeldBy(f.vehicles, m.vehicles, m.number);
    forall i ensures i !in held {}
    assert held == {};
  }

  /** Two live missions are one mission. */
  lemma OneLiveMission(h: Hasher, f: Fleet, j: nat, k: nat)
    requires Invariant(h, f) && j in f.missions && k in f.missions && Live(f, j) && Live(f, k)
    ensures j == k
  {
    assert MISSION_ROUTE[0] == Home;
    hide IDS, LogOk;
    assert MissionOk(f, j) && MissionOk(f, k) && OwnsAll(f, j) && OwnsAll(f, k);
    assert Home in MISSION_ROUTE;
  }

  /** A mission is created exactly when no mission is live and enough healthy vehicles are available. */
  lemma CreateExactly(h: Hasher, f: Fleet, count: int)
    requires Invariant(h, f)
    ensures Create(h, f, count).Ok?
            <==> 1 <= count <= 15 && count <= |Eligible(f.vehicles, 1)| && forall k :: k in f.missions ==> !Live(f, k)
  {
    NoConflict(f);
    hide Invariant, MISSION_ROUTE, Live, Conflicts, Eligible;
  }

  /** The vehicle stays with its mission until that mission ends or the server restarts. */
  lemma HeldUntilTheEnd(h: Hasher, f: Fleet, i: int, k: nat, op: Op)
    requires Invariant(h, f) && i in f.vehicles && f.vehicles[i].mission == Some(k)
    requires !op.RestartOp? && !(op.ConfirmAbortOp? && op.number == k) && !(op.CompleteOp? && op.number == k)
    ensures (var g := Step(h, f, op); i in g.vehicles && g.vehicles[i].mission == Some(k))
  {
    hide LogOk, MISSION_ROUTE, Appended, SavedOk, IDS, MissionOk, OwnsAll, ReservationOk, Reserved, Eligible, Restarted,
      Lists;
    assert VehicleOk(f, i);
    if op.CreateOp? {
      EligibleAre(f.vehicles, 1);
    } else if op.ConfirmAbortOp? && op.number in f.missions {
      NumberIs(f, op.number);
    } else if op.CompleteOp? && op.number in f.missions {
      NumberIs(f, op.number);
    }
  }

  // ---------------------------------------------------------------- authorization

  /** An operator who gave a name authorized mission `k`. */
  predicate Signed(log: seq<Entry>, k: nat) {
    exists i :: 0 <= i < |log| && log[i].body.event.OperatorAuthorize?
                && log[i].body.event.number == k && log[i].body.event.operator != ""
  }

  predicate AuthorizedOk(f: Fleet) { forall k :: k in f.missions && f.missions[k].authorized ==> Signed(f.log, k) }

  lemma SignedStays(a: seq<Entry>, b: seq<Entry>, k: nat)
    requires a <= b && Signed(a, k)
    ensures Signed(b, k)
  {
    var i :| 0 <= i < |a| && a[i].body.event.OperatorAuthorize?
             && a[i].body.event.number == k && a[i].body.event.operator != "";
    assert b[i] == a[i];
  }

  lemma AuthorizeSigns(h: Hasher, f: Fleet, k: nat, operator: string)
    requires Authorize(h, f, k, operator).Ok?
    ensures Signed(Authorize(h, f, k, operator).value.log, k)
  {
    assert Authorize(h, f, k, operator).value.log[|f.log|].body.event == OperatorAuthorize(k, operator);
  }

  lemma RestartSigns(h: Hasher, f: Fleet, order: seq<nat>, k: nat)
    requires f.saved.missions == f.missions && k in Restarted(h, f, order).missions
    requires Restarted(h, f, order).missions[k].authorized
    ensures k in f.missions && f.missions[k].authorized
  {
    hide LoggedInterrupted, Interrupted, HeldByAny, LoadedVehicles, IDS, Appended;
  }

  lemma CreateSigns(h: Hasher, f: Fleet, count: int, k: nat)
    requires Create(h, f, count).Ok? && k in Create(h, f, count).value.missions
             && Create(h, f, count).value.missions[k].authorized
    ensures k in f.missions && f.missions[k].authorized
  {
    hide MISSION_ROUTE, Appended, WithNewMission, Eligible;
    EligibleAre(f.vehicles, 1);
    CreatedRest(f, Allocate(f.vehicles, count).value);
  }

  lemma MissionOpSigns(h: Hasher, f: Fleet, op: Op, k: nat)
    requires Ownership(f) && (op.AuthorizeOp? || op.RequestAbortOp? || op.ConfirmAbortOp? || op.CompleteOp?)
    requires Apply(h, f, op).Ok? && k in Apply(h, f, op).value.missions && Apply(h, f, op).value.missions[k].authorized
    requires !(op.AuthorizeOp? && op.number == k)
    ensures k in f.missions && f.missions[k].authorized
  {
    hide MISSION_ROUTE, Appended, Released;
    NumberIs(f, op.number);
    ReleasedTables(f, f.missions[op.number].(state := Aborted));
    ReleasedTables(f, f.missions[op.number].(state := Completed));
  }

  lemma VehicleOpSigns(h: Hasher, f: Fleet, op: Op)
    requires op.IngestOp? || op.SimNodeOp? || op.SetMaintenanceOp? || op.ClearMaintenanceOp? || op.AdviseOp?
    requires Apply(h, f, op).Ok?
    ensures Apply(h, f, op).value.missions == f.missions
  {
  }

  /** Only `authorize` sets the flag. */
  lemma OnlyAuthorizeSigns(h: Hasher, f: Fleet, op: Op, k: nat)
    requires Invariant(h, f) && k in Step(h, f, op).missions && Step(h, f, op).missions[k].authorized
    requires !(op.AuthorizeOp? && op.number == k)
    ensures k in f.missions && f.missions[k].authorized
  {
    hide Apply, Restarted, Ownership, LogOk, Lists;
    if op.RestartOp? {
      if Lists(op.order, f.saved.missions) { RestartSigns(h, f, op.order, k); }
    } else if Apply(h, f, op).Ok? {
      if op.CreateOp? {
        CreateIs(h, f, op.count);
        CreateSigns(h, f, op.count, k);
      } else if op.AuthorizeOp? || op.RequestAbortOp? || op.ConfirmAbortOp? || op.CompleteOp? {
        MissionOpSigns(h, f, op, k);
      } else {
        VehicleOpSigns(h, f, op);
      }
    }
  }

  lemma StepKeepsAuthorized(h: Hasher, f: Fleet, op: Op)
    requires Invariant(h, f) && AuthorizedOk(f)
    ensures AuthorizedOk(Step(h, f, op))
  {
    StepIsLater(h, f, op);
    hide Invariant, Step, Signed, Authorize;
    var g := Step(h, f, op);
    forall k | k in g.missions && g.missions[k].authorized ensures Signed(g.log, k) {
      if !(op.AuthorizeOp? && op.number == k) { OnlyAuthorizeSigns(h, f, op, k); }
      if k in f.missions && f.missions[k].authorized {
        SignedStays(f.log, g.log, k);
      } else {
        AuthorizeStep(h, f, op);
        AuthorizeSigns(h, f, k, op.operator);
      }
    }
  }

  lemma AuthorizeStep(h: Hasher, f: Fleet, op: Op)
    requires op.AuthorizeOp? && Invariant(h, f)
    ensures Step(h, f, op)
            == if Authorize(h, f, op.number, op.operator).Ok? then Authorize(h, f, op.number, op.operator).value else f
  {
  }

  /** In any run a mission that was executed or completed was authorized by a named operator, and the log says so. */
  lemma {:induction false} RunKeepsAuthorized(h: Hasher, f: Fleet, ops: seq<Op>)
    requires Invariant(h, f) && AuthorizedOk(f)
    ensures AuthorizedOk(Run(h, f, ops))
    decreases |ops|
  {
    hide Invariant, Step, AuthorizedOk;
    if ops != [] {
      StepKeeps(h, f, ops[0]);
      StepKeepsAuthorized(h, f, ops[0]);
      RunKeepsAuthorized(h, Step(h, f, ops[0]), ops[1..]);
    }
  }

  lemma CompletedWasAuthorized(h: Hasher, ops: seq<Op>, k: nat)
    requires (var f := Run(h, Booted(h), ops);
              k in f.missions && (f.missions[k].state == Authorized || f.missions[k].state == Completed))
    ensures Signed(Run(h, Booted(h), ops).log, k)
  {
    assert AuthorizedOk(Booted(h));
    hide Booted, Run, Signed, SavedOk, LogOk;
    BootHolds(h);
    RunKeepsAuthorized(h, Booted(h), ops);
    EveryRun(h, ops);
    assert MissionOk(Run(h, Booted(h), ops), k);
  }
}
