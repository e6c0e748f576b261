/** The fleet server as an object: every method has exactly the effect its operation describes. */
module FleetServer {
  import opened Outcomes
  import opened FleetGraph
  import opened FleetAudit
  import opened FleetOperations
  import opened FleetInvariant
  import opened FleetRuns

  /** An operation that succeeds leaves the state it describes; one that fails reports why and changes nothing. */
  predicate Did(expected: Result<Fleet, Error>, error: Option<Error>, before: Fleet, after: Fleet) {
    match expected
    case Ok(g) => error == None && after == g
    case Err(e) => error == Some(e) && after == before
  }

  class Server {
    const hash: Hasher
    const arrange: seq<Node> -> seq<Node>
    const audit: AuditLog
    var vehicles: map<int, Vehicle>
    var missions: map<nat, Mission>
    var reservations: map<Node, nat>
    var epoch: nat
    var saved: Saved
    ghost var boot: nat

    ghost predicate Valid()
      reads this, audit
    {
      audit.Valid() && Arranges(arrange) && Invariant(hash, State())
    }

    ghost function State(): Fleet
      reads this, audit
    {
      Fleet(vehicles, missions, reservations, epoch, audit.entries, saved, boot)
    }

    // -------------------------------------------------------------- start

    /** The server started on what a server before it, in state `f`, left in the repository: `_reconcile`. */
    constructor (hash: Hasher, arrange: seq<Node> -> seq<Node>, repository: Saved, stored: seq<Entry>, order: seq<nat>,
                 ghost f: Fleet)
      requires Arranges(arrange) && Lists(order, repository.missions)
      requires Invariant(hash, f) && repository == f.saved && stored == f.log
      ensures Valid() && this.hash == hash && this.arrange == arrange && fresh(audit)
      ensures State() == Restarted(hash, f, order)
    {
      hide Restarted, LoadedVehicles, Interrupted, LoggedInterrupted, FreedAll, Appended, HeldByAny, Lists, Arranges,
        IDS, Ownership, LogOk, ReconciledAll;
      this.hash, this.arrange := hash, arrange;
      audit := new AuditLog(stored);
      vehicles, missions, reservations, epoch, saved := map[], map[], map[], 0, repository;
      boot := repository.epoch;
      new;
      LoadVehicles();
      audit.LoadFrom();
      epoch := saved.epoch;
      var reconciled := Reconcile(order);
      ghost var loaded := State();
      FreeHeld(reconciled);
      audit.Append(hash, ServerReady(epoch, reconciled));
      StartedIs(hash, f, order, loaded, State());
      RestartKeeps(hash, f, order);
    }

    /** Fifteen new vehicles take over what was saved of them. */
    method LoadVehicles()
      requires saved.vehicles.Keys <= IDS
      modifies this`vehicles
      ensures vehicles == LoadedVehicles(saved.vehicles) && vehicles.Keys == IDS
    {
      vehicles := map i | i in IDS :: NEW_VEHICLE;
      var left := saved.vehicles.Keys;
      while left != {}
        invariant left <= saved.vehicles.Keys && vehicles.Keys == IDS
        invariant forall i :: i in IDS ==>
          vehicles[i] == if i in saved.vehicles && i !in left then saved.vehicles[i] else NEW_VEHICLE
        decreases |left|
      {
        var i :| i in left;
        left := left - {i};
        vehicles := vehicles[i := saved.vehicles[i]];
      }
    }

    /** Every saved mission comes back, those in flight as abort requests. */
    method Reconcile(order: seq<nat>) returns (reconciled: seq<nat>)
      requires audit.Valid() && missions == map[] && Lists(order, saved.missions)
      modifies this`missions, this`saved, audit
      ensures audit.Valid() && missions == ReconciledAll(old(saved.missions))
      ensures saved == old(saved).(missions := missions)
      ensures audit.entries == LoggedInterrupted(hash, old(audit.entries), old(saved.missions), order)
      ensures reconciled == Interrupted(old(saved.missions), order)
    {
      hide Appended, Lists, ReconciledUpTo, Interrupted, LoggedInterrupted;
      reconciled := [];
      ReconciledNone(saved.missions);
      LoggedNone(hash, audit.entries, saved.missions);
      ghost var before := saved.missions;
      var n := 0;
      while n < |order|
        invariant 0 <= n <= |order| && audit.Valid()
        invariant ReconciledUpTo(before, order[..n], missions, saved.missions)
        invariant saved == old(saved).(missions := saved.missions)
        invariant audit.entries == LoggedInterrupted(hash, old(audit.entries), before, order[..n])
        invariant reconciled == Interrupted(before, order[..n])
      {
        var k := order[n];
        NextListed(before, order, n);
        ReconciledNext(before, order[..n], missions, saved.missions, k);
        var m := saved.missions[k];
        LoggedNext(hash, old(audit.entries), before, order, n);
        ghost var already := missions;
        missions := missions[k := m];
        if m.state == Planned || m.state == Authorized {
          missions := missions[k := m.(state := AbortRequested)];
          assert missions == already[k := Reconciled(m)];
          saved := saved.(missions := saved.missions[k := m.(state := AbortRequested)]);
          audit.Append(hash, RestartReconciliation(k, m.state, AbortRequested));
          reconciled := reconciled + [k];
        } else if m.state == AbortRequested {
          audit.Append(hash, RestartReconciliation(k, m.state, m.state));
          reconciled := reconciled + [k];
        }
        n := n + 1;
      }
      assert order[..n] == order;
      ReconciledEvery(before, order, missions, saved.missions);
    }

    /** Vehicles on a reconciled mission become free. */
    method FreeHeld(reconciled: seq<nat>)
      requires vehicles.Keys == IDS
      modifies this`vehicles, this`saved
      ensures (var f := old(State());
               var g := FreedAll(f, HeldByAny(f.vehicles, reconciled));
               vehicles == g.vehicles && saved == g.saved)
    {
      hide FreedUpTo, HeldByAny, HeldBelow, IDS, FreedAll;
      ghost var was, kept := vehicles, saved.vehicles;
      FreedNone(was, kept);
      HeldBelowEnds(was, reconciled);
      for i := 1 to 16
        invariant saved == old(saved).(vehicles := saved.vehicles)
        invariant FreedUpTo(was, kept, HeldBelow(was, reconciled, i), vehicles, saved.vehicles)
      {
        HeldBelowNext(was, kept, reconciled, i, vehicles, saved.vehicles);
        var v := vehicles[i];
        if v.mission.Some? && v.mission.value in reconciled {
          FreedOne(was, kept, HeldBelow(was, reconciled, i), i, vehicles, saved.vehicles);
          Put(i, v.(state := if v.healthy then Available else Offline, mission := None));
        }
      }
      FreedEvery(old(State()), HeldByAny(was, reconciled), vehicles, saved.vehicles);
    }

    // -------------------------------------------------------------- telemetry and maintenance

    /** A vehicle is changed and saved. */
    method Put(i: int, v: Vehicle)
      modifies this`vehicles, this`saved
      ensures vehicles == old(vehicles)[i := v]
      ensures saved == old(saved).(vehicles := old(saved.vehicles)[i := v])
    {
      vehicles := vehicles[i := v];
      saved := saved.(vehicles := saved.vehicles[i := v]);
    }

    /** `ingest` */
    method TakeTelemetry(id: int, healthy: bool, battery: int, now: int) returns (error: Option<Error>)
      requires Valid()
      modifies this, audit
      ensures Valid() && Did(Ingest(hash, old(State()), id, healthy, battery, now), error, old(State()), State())
    {
      hide Invariant, Appended, Arranges;
      if Ingest(hash, State(), id, healthy, battery, now).Ok? { IngestKeeps(hash, State(), id, healthy, battery, now); }
      if id !in vehicles { return Some(UnknownVehicle); }
      var v := vehicles[id];
      if v.state == Maintenance {
        audit.Append(hash, Remark("telemetry", id, "maintenance"));
        return None;
      }
      v := v.(healthy := healthy, battery := battery, lastSeen := now);
      if v.mission.Some? {
        v := v.(state := if healthy then Assigned else Degraded);
      } else {
        v := v.(state := if healthy && battery >= 30 then Available else Degraded);
      }
      Put(id, v);
      audit.Append(hash, Remark("telemetry", id, ""));
      return None;
    }

    /** `update_sim_node` */
    method TakeNodeUpdate(id: int, session: int, healthy: bool) returns (error: Option<Error>)
      requires Valid()
      modifies this, audit
      ensures Valid() && Did(UpdateSimNode(hash, old(State()), id, session, healthy), error, old(State()), State())
    {
      hide Invariant, Appended, Arranges;
      if UpdateSimNode(hash, State(), id, session, healthy).Ok? { UpdateKeeps(hash, State(), id, session, healthy); }
      if id !in vehicles { return Some(UnknownVehicle); }
      var v := vehicles[id];
      if v.state == Maintenance {
        audit.Append(hash, Remark("sim_node", id, "maintenance"));
        return None;
      }
      v := v.(session := session, healthy := healthy);
      if v.mission.Some? {
        v := v.(state := if healthy then Assigned else Degraded);
      } else {
        v := v.(state := if healthy then Available else Offline);
      }
      Put(id, v);
      audit.Append(hash, Remark("sim_node", id, ""));
      return None;
    }

    /** `set_maintenance` */
    method StartMaintenance(id: int, operator: string, note: string) returns (error: Option<Error>)
      requires Valid()
      modifies this, audit
      ensures Valid() && Did(SetMaintenance(hash, old(State()), id, operator, note), error, old(State()), State())
    {
      hide Invariant, Appended, Arranges;
      if SetMaintenance(hash, State(), id, operator, note).Ok? {
        SetMaintenanceKeeps(hash, State(), id, operator, note);
      }
      if operator == "" { return Some(NoOperator); }
      if id !in vehicles { return Some(UnknownVehicle); }
      var v := vehicles[id];
      if v.mission.Some? { return Some(StillAssigned); }
      Put(id, v.(state := Maintenance));
      audit.Append(hash, Remark("maintenance_set", id, note));
      return None;
    }

    /** `clear_maintenance` */
    method EndMaintenance(id: int, operator: string) returns (error: Option<Error>)
      requires Valid()
      modifies this, audit
      ensures Valid() && Did(ClearMaintenance(hash, old(State()), id, operator), error, old(State()), State())
    {
      hide Invariant, Appended, Arranges;
      if ClearMaintenance(hash, State(), id, operator).Ok? { ClearMaintenanceKeeps(hash, State(), id, operator); }
      if operator == "" { return Some(NoOperator); }
      if id !in vehicles { return Some(UnknownVehicle); }
      Put(id, vehicles[id].(state := Offline));
      audit.Append(hash, Remark("maintenance_cleared", id, ""));
      return None;
    }

    // -------------------------------------------------------------- missions

    /** `allocate`: the first vehicles, in order, that are available and healthy. */
    method Choose(count: int) returns (r: Result<seq<int>, Error>)
      requires vehicles.Keys == IDS
      ensures r == Allocate(vehicles, count)
    {
      var eligible := [];
      for i := 1 to 16
        invariant eligible + Eligible(vehicles, i) == Eligible(vehicles, 1)
      {
        if vehicles[i].state == Available && vehicles[i].healthy {
          assert eligible + Eligible(vehicles, i) == (eligible + [i]) + Eligible(vehicles, i + 1);
          eligible := eligible + [i];
        }
      }
      assert eligible + Eligible(vehicles, 16) == eligible;
      if !(1 <= count <= 15) || |eligible| < count { return Err(TooFewVehicles); }
      return Ok(eligible[..count]);
    }

    /** The joined route of a mission. A leg with no route would be reported, and there is none. */
    method PlanRoute() returns (route: seq<Node>)
      requires Arranges(arrange)
      ensures route == MISSION_ROUTE && Validate(BUILDING, route)
    {
      hide BUILDING, Shortest, Arranges, Validate, Reachable, MISSION_ROUTE;
      LegsReachable();
      var p := Route(BUILDING, arrange, Home, LockerF1);
      var q := Route(BUILDING, arrange, LockerF1, RoboticsLabF2);
      var r := Route(BUILDING, arrange, RoboticsLabF2, Home);
      MissionRouteIs(p.value, q.value, r.value);
      NotEmpty(q.value, LockerF1, RoboticsLabF2);
      NotEmpty(r.value, RoboticsLabF2, Home);
      route := p.value + q.value[1..] + r.value[1..];
    }

    /** `create_mission`. The route is valid, so the source's "invalid route" error is never raised. */
    method CreateMission(count: int) returns (error: Option<Error>)
      requires Valid()
      modifies this, audit
      ensures Valid() && Did(Create(hash, old(State()), count), error, old(State()), State())
    {
      hide Ownership, SavedOk, LogOk, Appended, Arranges, Eligible, BUILDING, MISSION_ROUTE, Reserved, Validate,
        WithNewMission;
      ghost var f := State();
      KnownVehicles(f);
      EligibleAre(vehicles, 1);
      if Create(hash, f, count).Ok? { CreateKeeps(hash, f, count); }
      var chosen := Choose(count);
      if chosen.Err? { return Some(chosen.error); }
      var selected := chosen.value;
      var route := PlanRoute();
      var conflicts := set n | n in route && n in reservations :: reservations[n];
      if conflicts != {} { return Some(Conflict(conflicts)); }
      var m := Enter(selected, route);
      audit.Append(hash, MissionCreated(m));
      return None;
    }

    /** The mission of the next epoch is entered everywhere. */
    method Enter(selected: seq<int>, route: seq<Node>) returns (m: Mission)
      requires route == MISSION_ROUTE && forall i :: i in selected ==> i in vehicles
      modifies this
      ensures State() == WithNewMission(old(State()), selected) && m == missions[epoch]
    {
      hide MISSION_ROUTE, Reserved;
      epoch := epoch + 1;
      saved := saved.(epoch := epoch);
      m := Mission(epoch, selected, route, Planned, false);
      missions := missions[epoch := m];
      Reserve(route, epoch);
      AssignAll(selected, epoch);
      saved := saved.(missions := saved.missions[epoch := m]);
    }

    /** Every node of the route is reserved for mission `k`. */
    method Reserve(route: seq<Node>, k: nat)
      modifies this`reservations
      ensures reservations == Reserved(old(reservations), route, k)
    {
      var n := 0;
      while n < |route|
        invariant 0 <= n <= |route| && reservations == Reserved(old(reservations), route[..n], k)
      {
        ReservedNext(old(reservations), route, k, n);
        reservations := reservations[route[n] := k];
        n := n + 1;
      }
      assert route[..n] == route;
    }

    /** The selected vehicles are assigned to mission `k`. */
    method AssignAll(selected: seq<int>, k: nat)
      requires forall i :: i in selected ==> i in vehicles
      modifies this`vehicles, this`saved
      ensures vehicles == old(vehicles) + Taken(old(vehicles), selected, k)
      ensures saved == old(saved).(vehicles := old(saved.vehicles) + Taken(old(vehicles), selected, k))
    {
      hide Taken;
      ghost var was, kept := vehicles, saved.vehicles;
      TakenNone(was, k);
      var n := 0;
      while n < |selected|
        invariant 0 <= n <= |selected| && vehicles == was + Taken(was, selected[..n], k)
        invariant saved == old(saved).(vehicles := kept + Taken(was, selected[..n], k))
      {
        TakenNext(was, kept, selected, k, n);
        var v := vehicles[selected[n]];
        Put(selected[n], v.(state := Assigned, mission := Some(k)));
        n := n + 1;
      }
      assert selected[..n] == selected;
    }

    /** What mission `k` reserved is free again. */
    method ReleaseRoute(k: nat)
      modifies this`reservations
      ensures reservations == map n | n in old(reservations) && old(reservations)[n] != k :: old(reservations)[n]
    {
      var left := reservations.Keys;
      while left != {}
        invariant left <= old(reservations).Keys && left <= reservations.Keys
        invariant forall n :: n in reservations ==> n in old(reservations) && reservations[n] == old(reservations)[n]
        invariant forall n ::
                    n in old(reservations) && n !in left
                    ==> (n in reservations <==> old(reservations)[n] != k)
        decreases |left|
      {
        var n :| n in left;
        left := left - {n};
        if reservations[n] == k { reservations := reservations - {n}; }
      }
    }

    /** The vehicles listed become free if they still belong to mission `k`. */
    method ReleaseVehicles(listed: seq<int>, k: nat)
      requires forall i :: i in listed ==> i in vehicles
      modifies this`vehicles, this`saved
      ensures (var f := old(State());
               var g := FreedAll(f, HeldBy(f.vehicles, listed, k));
               vehicles == g.vehicles && saved == g.saved)
    {
      hide FreedUpTo, HeldAmong, FreedAll;
      ghost var was, kept := vehicles, saved.vehicles;
      FreedNone(was, kept);
      HeldAmongEnds(was, listed, k);
      var n := 0;
      while n < |listed|
        invariant 0 <= n <= |listed| && saved == old(saved).(vehicles := saved.vehicles)
        invariant FreedUpTo(was, kept, HeldAmong(was, listed, k, n), vehicles, saved.vehicles)
      {
        var i := listed[n];
        HeldAmongNext(was, kept, listed, k, n, vehicles, saved.vehicles);
        var v := vehicles[i];
        if v.mission == Some(k) {
          FreedOne(was, kept, HeldAmong(was, listed, k, n), i, vehicles, saved.vehicles);
          Put(i, v.(mission := None, state := if v.healthy then Available else Offline));
        }
        n := n + 1;
      }
      FreedEvery(old(State()), HeldBy(was, listed, k), vehicles, saved.vehicles);
    }

    /** `_release` */
    method Release(m: Mission)
      requires forall i :: i in m.vehicles ==> i in vehicles
      modifies this`vehicles, this`saved, this`reservations
      ensures (var g := Released(old(State()), m);
               vehicles == g.vehicles && saved == g.saved && reservations == g.reservations)
    {
      hide FreedAll;
      ghost var f := State();
      ReleaseRoute(m.number);
      FreedIgnoresRoute(f, reservations, HeldBy(vehicles, m.vehicles, m.number));
      ReleaseVehicles(m.vehicles, m.number);
    }

    /** `Mission.transition` */
    method Transition(k: nat, to: MissionState) returns (error: Option<Error>)
      requires k in missions
      modifies this`missions
      ensures error
              == if Allowed(old(missions)[k].state, to) then None
                 else Some(IllegalTransition(old(missions)[k].state, to))
      ensures missions == if error == None then old(missions)[k := old(missions)[k].(state := to)] else old(missions)
    {
      var m := missions[k];
      if !Allowed(m.state, to) { return Some(IllegalTransition(m.state, to)); }
      missions := missions[k := m.(state := to)];
      return None;
    }

    method SaveMission(k: nat)
      requires k in missions
      modifies this`saved
      ensures saved == old(saved).(missions := old(saved.missions)[missions[k].number := missions[k]])
    {
      saved := saved.(missions := saved.missions[missions[k].number := missions[k]]);
    }

    /** `authorize` */
    method AuthorizeMission(k: nat, operator: string) returns (error: Option<Error>)
      requires Valid()
      modifies this, audit
      ensures Valid() && Did(Authorize(hash, old(State()), k, operator), error, old(State()), State())
    {
      hide Invariant, Appended, Arranges;
      ghost var f := State();
      if Authorize(hash, f, k, operator).Ok? { AuthorizeKeeps(hash, f, k, operator); }
      if operator == "" { return Some(NoOperator); }
      if k !in missions { return Some(UnknownMission); }
      NumberOf(hash, f, k);
      error := Transition(k, Authorized);
      if error.Some? { return; }
      missions := missions[k := missions[k].(authorized := true)];
      SaveMission(k);
      assert missions == f.missions[k := missions[k]];
      audit.Append(hash, OperatorAuthorize(k, operator));
    }

    /** `request_abort` */
    method RequestAbortOf(k: nat, operator: string) returns (error: Option<Error>)
      requires Valid()
      modifies this, audit
      ensures Valid() && Did(RequestAbort(hash, old(State()), k, operator), error, old(State()), State())
    {
      hide Invariant, Appended, Arranges;
      ghost var f := State();
      if RequestAbort(hash, f, k, operator).Ok? { RequestAbortKeeps(hash, f, k, operator); }
      if operator == "" { return Some(NoOperator); }
      if k !in missions { return Some(UnknownMission); }
      NumberOf(hash, f, k);
      error := Transition(k, AbortRequested);
      if error.Some? { return; }
      SaveMission(k);
      audit.Append(hash, OperatorAbortRequest(k, operator));
    }

    /** `confirm_abort` */
    method ConfirmAbortOf(k: nat, operator: string) returns (error: Option<Error>)
      requires Valid()
      modifies this, audit
      ensures Valid() && Did(ConfirmAbort(hash, old(State()), k, operator), error, old(State()), State())
    {
      hide Invariant, Appended, Arranges, Released;
      ghost var f := State();
      if operator == "" { return Some(NoOperator); }
      if k !in missions { return Some(UnknownMission); }
      NumberOf(hash, f, k);
      error := Transition(k, Aborted);
      if error.Some? { return; }
      Release(missions[k]);
      ReleaseIs(f, f.missions[k].(state := Aborted), missions);
      SaveMission(k);
      EndedKeeps(hash, f, k, f.missions[k].(state := Aborted), OperatorAbortConfirm(k, operator));
      audit.Append(hash, OperatorAbortConfirm(k, operator));
    }

    /** `complete_mission` */
    method CompleteMission(k: nat) returns (error: Option<Error>)
      requires Valid()
      modifies this, audit
      ensures Valid() && Did(Complete(hash, old(State()), k), error, old(State()), State())
    {
      hide Invariant, Appended, Arranges, Released;
      ghost var f := State();
      if k !in missions { return Some(UnknownMission); }
      NumberOf(hash, f, k);
      error := Transition(k, Completed);
      if error.Some? { return; }
      Release(missions[k]);
      ReleaseIs(f, f.missions[k].(state := Completed), missions);
      SaveMission(k);
      EndedKeeps(hash, f, k, f.missions[k].(state := Completed), MissionCompleted(k));
      audit.Append(hash, MissionCompleted(k));
    }
  }

  lemma KnownVehicles(f: Fleet)
    requires Ownership(f)
    ensures f.vehicles.Keys == IDS
  {
  }

  /** A mission is kept under its own number, and its vehicles are known. */
  lemma NumberOf(h: Hasher, f: Fleet, k: nat)
    requires Invariant(h, f) && k in f.missions
    ensures f.missions[k].number == k && forall i :: i in f.missions[k].vehicles ==> i in f.vehicles
  {
    hide IDS, MISSION_ROUTE;
    assert MissionOk(f, k);
  }

  /** Releasing reads nothing of the missions. */
  lemma ReleaseIs(f: Fleet, m: Mission, missions: map<nat, Mission>)
    ensures (var g := f.(missions := missions); Released(g, m) == Released(f, m).(missions := missions))
    ensures (var r := Released(f, m); r == f.(vehicles := r.vehicles, saved := r.saved, reservations := r.reservations))
  {
  }

  lemma FreedIgnoresRoute(f: Fleet, reservations: map<Node, nat>, ids: set<int>)
    requires ids <= f.vehicles.Keys
    ensures (var g := FreedAll(f.(reservations := reservations), ids);
             g.vehicles == FreedAll(f, ids).vehicles && g.saved == FreedAll(f, ids).saved)
  {
  }

  lemma ReservedNext(reservations: map<Node, nat>, route: seq<Node>, k: nat, n: nat)
    requires n < |route|
    ensures Reserved(reservations, route[..n + 1], k) == Reserved(reservations, route[..n], k)[route[n] := k]
  {
    assert route[..n + 1] == route[..n] + [route[n]];
  }

  /** The selected vehicles as mission `k` takes them. */
  function Taken(vehicles: map<int, Vehicle>, selected: seq<int>, k: nat): map<int, Vehicle>
    requires forall i :: i in selected ==> i in vehicles
  {
    map i | i in selected :: AssignedTo(vehicles[i], k)
  }

  lemma TakenNone(was: map<int, Vehicle>, k: nat)
    ensures Taken(was, [], k) == map[]
  {
  }

  lemma TakenNext(was: map<int, Vehicle>, kept: map<int, Vehicle>, selected: seq<int>, k: nat, n: nat)
    requires n < |selected| && forall i :: i in selected ==> i in was
    ensures (var i := selected[n];
             var now := was + Taken(was, selected[..n], k);
             i in now && was + Taken(was, selected[..n + 1], k) == now[i := AssignedTo(now[i], k)]
             && kept + Taken(was, selected[..n + 1], k)
                == (kept + Taken(was, selected[..n], k))[i := AssignedTo(now[i], k)])
  {
    assert selected[..n + 1] == selected[..n] + [selected[n]];
    var i := selected[n];
    assert i in selected && i in was;
    assert Taken(was, selected[..n + 1], k) == Taken(was, selected[..n], k)[i := AssignedTo(was[i], k)];
  }

  lemma HeldAmongEnds(was: map<int, Vehicle>, listed: seq<int>, k: nat)
    ensures HeldAmong(was, listed, k, 0) == {} && HeldAmong(was, listed, k, |listed|) == HeldBy(was, listed, k)
  {
    assert listed[..|listed|] == listed;
  }

  lemma NotEmpty(p: seq<Node>, a: Node, b: Node)
    requires Shortest(BUILDING, p, a, b)
    ensures p != []
  {
  }

  lemma LegsReachable()
    ensures Reachable(BUILDING, Home, LockerF1) && Reachable(BUILDING, LockerF1, RoboticsLabF2)
            && Reachable(BUILDING, RoboticsLabF2, Home)
  {
    WalkSteps(BUILDING, [Home, LockerF1]);
    WalkSteps(BUILDING, [LockerF1, StairF1F2, RoboticsLabF2]);
    WalkSteps(BUILDING, [RoboticsLabF2, StairF1F2, LockerF1, Home]);
    assert WalkFromTo(BUILDING, [Home, LockerF1], Home, LockerF1);
    assert WalkFromTo(BUILDING, [LockerF1, StairF1F2, RoboticsLabF2], LockerF1, RoboticsLabF2);
    assert WalkFromTo(BUILDING, [RoboticsLabF2, StairF1F2, LockerF1, Home], RoboticsLabF2, Home);
  }

  lemma StartedIs(h: Hasher, f: Fleet, order: seq<nat>, e: Fleet, g: Fleet)
    requires e == Fleet(LoadedVehicles(f.saved.vehicles), ReconciledAll(f.saved.missions), map[], f.saved.epoch,
                        LoggedInterrupted(h, f.log, f.saved.missions, order),
                        f.saved.(missions := ReconciledAll(f.saved.missions)), f.saved.epoch)
    requires (var reconciled := Interrupted(f.saved.missions, order);
              var freed := FreedAll(e, HeldByAny(e.vehicles, reconciled));
              g == e.(vehicles := freed.vehicles, saved := freed.saved,
                      log := Appended(h, e.log, ServerReady(f.saved.epoch, reconciled))))
    ensures g == Restarted(h, f, order)
  {
    hide LoadedVehicles, LoggedInterrupted, Interrupted, Appended, ReconciledAll, HeldByAny;
  }

  // ---------------------------------------------------------------- the loops of a start

  /** The missions of `done` have been reconciled, in memory and in the repository. */
  predicate ReconciledUpTo(before: map<nat, Mission>, done: seq<nat>, missions: map<nat, Mission>,
                           saved: map<nat, Mission>) {
    && saved.Keys == before.Keys
    && (forall k :: k in missions ==> k in done) && (forall k :: k in done ==> k in missions)
    && (forall k :: k in missions ==> k in before && missions[k] == Reconciled(before[k]))
    && (forall k :: k in before ==> saved[k] == if k in done then Reconciled(before[k]) else before[k])
  }

  lemma ReconciledNone(before: map<nat, Mission>)
    ensures ReconciledUpTo(before, [], map[], before)
  {
  }

  lemma NextListed(before: map<nat, Mission>, order: seq<nat>, n: nat)
    requires Lists(order, before) && n < |order|
    ensures order[n] in before && order[n] !in order[..n]
  {
    assert order[n] in order;
  }

  lemma ReconciledNext(before: map<nat, Mission>, done: seq<nat>, missions: map<nat, Mission>, saved: map<nat, Mission>,
                       k: nat)
    requires ReconciledUpTo(before, done, missions, saved) && k in before && k !in done
    ensures k in saved && saved[k] == before[k]
    ensures (var m := Reconciled(before[k]); ReconciledUpTo(before, done + [k], missions[k := m], saved[k := m]))
    ensures Reconciled(before[k]) == before[k]
            ==> ReconciledUpTo(before, done + [k], missions[k := before[k]], saved)
  {
    assert k in done + [k];
    assert forall j :: j in done + [k] <==> j in done || j == k;
  }

  lemma ReconciledEvery(before: map<nat, Mission>, order: seq<nat>, missions: map<nat, Mission>,
                        saved: map<nat, Mission>)
    requires ReconciledUpTo(before, order, missions, saved) && Lists(order, before)
    ensures missions == ReconciledAll(before) && saved == missions
  {
  }

  lemma LoggedNone(h: Hasher, log: seq<Entry>, missions: map<nat, Mission>)
    ensures LoggedInterrupted(h, log, missions, []) == log && Interrupted(missions, []) == []
  {
  }

  lemma LoggedNext(h: Hasher, log: seq<Entry>, missions: map<nat, Mission>, order: seq<nat>, n: nat)
    requires n < |order| && order[n] in missions
    ensures order[..n + 1] == order[..n] + [order[n]]
    ensures (var k := order[n];
             var before := LoggedInterrupted(h, log, missions, order[..n]);
             LoggedInterrupted(h, log, missions, order[..n + 1])
             == if Active(missions[k].state)
                then Appended(h, before, RestartReconciliation(k, missions[k].state, AbortRequested)) else before)
    ensures (var k := order[n];
             var before := Interrupted(missions, order[..n]);
             Interrupted(missions, order[..n + 1]) == if Active(missions[k].state) then before + [k] else before)
  {
    hide Appended;
    assert order[..n + 1][..n] == order[..n];
  }

  /** The vehicles of `part` have been freed, in memory and in the repository. */
  predicate FreedUpTo(was: map<int, Vehicle>, kept: map<int, Vehicle>, part: set<int>,
                      vehicles: map<int, Vehicle>, saved: map<int, Vehicle>) {
    && vehicles.Keys == was.Keys && part <= was.Keys
    && (forall j :: j in vehicles ==> vehicles[j] == if j in part then Freed(was[j]) else was[j])
    && saved.Keys == kept.Keys + part
    && (forall j :: j in saved ==> saved[j] == if j in part then Freed(was[j]) else kept[j])
  }

  lemma FreedNone(was: map<int, Vehicle>, kept: map<int, Vehicle>)
    ensures FreedUpTo(was, kept, {}, was, kept)
  {
  }

  lemma FreedOne(was: map<int, Vehicle>, kept: map<int, Vehicle>, part: set<int>, i: int,
                 vehicles: map<int, Vehicle>, saved: map<int, Vehicle>)
    requires FreedUpTo(was, kept, part, vehicles, saved) && i in vehicles && vehicles[i] == was[i]
    ensures FreedUpTo(was, kept, part + {i}, vehicles[i := Freed(vehicles[i])], saved[i := Freed(vehicles[i])])
  {
  }

  lemma FreedEvery(f: Fleet, part: set<int>, vehicles: map<int, Vehicle>, saved: map<int, Vehicle>)
    requires FreedUpTo(f.vehicles, f.saved.vehicles, part, vehicles, saved)
    ensures (var g := FreedAll(f, part);
             vehicles == g.vehicles && saved == g.saved.vehicles && g.saved == f.saved.(vehicles := saved))
  {
    var g := FreedAll(f, part);
    assert g.vehicles.Keys == f.vehicles.Keys;
    assert vehicles.Keys == g.vehicles.Keys;
    forall i | i in vehicles ensures vehicles[i] == g.vehicles[i] {}
    assert saved.Keys == g.saved.vehicles.Keys;
    forall i | i in saved ensures saved[i] == g.saved.vehicles[i] {}
    assert vehicles == g.vehicles;
  }

  /** The held vehicles below `i`. */
  function HeldBelow(was: map<int, Vehicle>, reconciled: seq<nat>, i: int): set<int> {
    set j | j in HeldByAny(was, reconciled) && j < i
  }

  lemma HeldBelowEnds(was: map<int, Vehicle>, reconciled: seq<nat>)
    requires was.Keys == IDS
    ensures HeldBelow(was, reconciled, 1) == {} && HeldBelow(was, reconciled, 16) == HeldByAny(was, reconciled)
  {
    forall j | j in HeldByAny(was, reconciled) ensures 1 <= j < 16 { assert j in IDS; }
  }

  lemma HeldBelowNext(was: map<int, Vehicle>, kept: map<int, Vehicle>, reconciled: seq<nat>, i: int,
                      vehicles: map<int, Vehicle>, saved: map<int, Vehicle>)
    requires was.Keys == IDS && 1 <= i < 16 && FreedUpTo(was, kept, HeldBelow(was, reconciled, i), vehicles, saved)
    ensures i in vehicles && vehicles[i] == was[i]
    ensures was[i].mission.Some? && was[i].mission.value in reconciled
            ==> HeldBelow(was, reconciled, i + 1) == HeldBelow(was, reconciled, i) + {i}
    ensures !(was[i].mission.Some? && was[i].mission.value in reconciled)
            ==> HeldBelow(was, reconciled, i + 1) == HeldBelow(was, reconciled, i)
  {
    assert i in IDS;
  }

  /** The vehicles of the first `n` listed that still belong to mission `k`. */
  function HeldAmong(was: map<int, Vehicle>, listed: seq<int>, k: nat, n: nat): set<int>
    requires n <= |listed|
  {
    HeldBy(was, listed[..n], k)
  }

  lemma HeldAmongNext(was: map<int, Vehicle>, kept: map<int, Vehicle>, listed: seq<int>, k: nat, n: nat,
                      vehicles: map<int, Vehicle>, saved: map<int, Vehicle>)
    requires n < |listed| && listed[n] in was && FreedUpTo(was, kept, HeldAmong(was, listed, k, n), vehicles, saved)
    ensures (var i := listed[n];
             i in vehicles
             && (vehicles[i].mission == Some(k) ==> vehicles[i] == was[i]
                                                    && HeldAmong(was, listed, k, n + 1)
                                                       == HeldAmong(was, listed, k, n) + {i})
             && (vehicles[i].mission != Some(k) ==> HeldAmong(was, listed, k, n + 1) == HeldAmong(was, listed, k, n)))
  {
    var i := listed[n];
    assert listed[..n + 1] == listed[..n] + [i];
    assert i in listed[..n + 1];
  }
}
