/** When the operations of the fleet server succeed, what they lead to, and that no mission is ever stuck. */
module FleetEffects {
  import opened Outcomes
  import opened FleetGraph
  import opened FleetAudit
  import opened FleetOperations
  import opened FleetInvariant
  import opened FleetRuns
  import opened FleetHistory

  // ---------------------------------------------------------------- missions

  /** Exactly a planned mission can be authorized. */
  lemma AuthorizeExactly(h: Hasher, f: Fleet, k: nat, operator: string)
    requires Invariant(h, f)
    ensures Authorize(h, f, k, operator).Ok? <==> operator != "" && k in f.missions && f.missions[k].state == Planned
    ensures Authorize(h, f, k, operator).Ok?
            ==> (var g := Authorize(h, f, k, operator).value;
                 g.missions == f.missions[k := f.missions[k].(state := Authorized, authorized := true)]
                 && g.vehicles == f.vehicles && g.reservations == f.reservations)
  {
    NumberWhere(f, k);
    hide Ownership, SavedOk, LogOk, Appended;
  }

  /** The abort of exactly a planned or an authorized mission can be requested. */
  lemma RequestAbortExactly(h: Hasher, f: Fleet, k: nat, operator: string)
    requires Invariant(h, f)
    ensures RequestAbort(h, f, k, operator).Ok?
            <==> operator != "" && k in f.missions
                 && (f.missions[k].state == Planned || f.missions[k].state == Authorized)
    ensures RequestAbort(h, f, k, operator).Ok?
            ==> (var g := RequestAbort(h, f, k, operator).value;
                 g.missions == f.missions[k := f.missions[k].(state := AbortRequested)]
                 && g.vehicles == f.vehicles && g.reservations == f.reservations)
  {
    NumberWhere(f, k);
    hide Ownership, SavedOk, LogOk, Appended;
  }

  /** Exactly a requested abort can be confirmed; then nothing belongs to the mission any more. */
  lemma ConfirmAbortExactly(h: Hasher, f: Fleet, k: nat, operator: string)
    requires Invariant(h, f)
    ensures ConfirmAbort(h, f, k, operator).Ok?
            <==> operator != "" && k in f.missions && f.missions[k].state == AbortRequested
    ensures ConfirmAbort(h, f, k, operator).Ok?
            ==> (var g := ConfirmAbort(h, f, k, operator).value;
                 g.missions == f.missions[k := f.missions[k].(state := Aborted)] && HoldsNothing(g, k))
  {
    NumberWhere(f, k);
    if k in f.missions && f.missions[k].state == AbortRequested { NothingHeld(f, k, Aborted); }
    hide Ownership, SavedOk, LogOk, Appended, Released;
  }

  /** Exactly an authorized mission can be completed; then nothing belongs to it any more. */
  lemma CompleteExactly(h: Hasher, f: Fleet, k: nat)
    requires Invariant(h, f)
    ensures Complete(h, f, k).Ok? <==> k in f.missions && f.missions[k].state == Authorized
    ensures Complete(h, f, k).Ok?
            ==> (var g := Complete(h, f, k).value;
                 g.missions == f.missions[k := f.missions[k].(state := Completed)] && HoldsNothing(g, k))
  {
    NumberWhere(f, k);
    if k in f.missions && f.missions[k].state == Authorized { NothingHeld(f, k, Completed); }
    hide Ownership, SavedOk, LogOk, Appended, Released;
  }

  predicate HoldsNothing(f: Fleet, k: nat) {
    && (forall i :: i in f.vehicles ==> f.vehicles[i].mission != Some(k))
    && forall n :: n in f.reservations ==> f.reservations[n] != k
  }

  lemma NumberWhere(f: Fleet, k: nat)
    requires Ownership(f)
    ensures k in f.missions ==> f.missions[k].number == k
  {
    hide MISSION_ROUTE, IDS;
    if k in f.missions { assert MissionOk(f, k); }
  }

  lemma NothingHeld(f: Fleet, k: nat, state: MissionState)
    requires Ownership(f) && k in f.missions
    ensures (var g := Released(f, f.missions[k].(state := state));
             HoldsNothing(g, k) && g.missions == f.missions)
  {
    hide MISSION_ROUTE, IDS;
    var m := f.missions[k].(state := state);
    NumberWhere(f, k);
    forall i | i in f.vehicles && f.vehicles[i].mission == Some(k)
      ensures i in m.vehicles
    {
      assert VehicleOk(f, i);
    }
  }

  // No mission is stuck.

  /** However the server got where it is, any mission that has not ended can be aborted by two operations at most. */
  lemma AbortAlways(h: Hasher, before: seq<Op>, k: nat, operator: string) returns (ops: seq<Op>)
    requires operator != "" && k in Run(h, Booted(h), before).missions
    requires Active(Run(h, Booted(h), before).missions[k].state)
    ensures |ops| <= 2
    ensures forall op :: op in ops ==> op == RequestAbortOp(k, operator) || op == ConfirmAbortOp(k, operator)
    ensures (var g := Run(h, Run(h, Booted(h), before), ops); k in g.missions && g.missions[k].state == Aborted)
  {
    hide Booted, Invariant;
    EveryRun(h, before);
    var f := Run(h, Booted(h), before);
    if f.missions[k].state == AbortRequested {
      ops := [ConfirmAbortOp(k, operator)];
      ConfirmLeads(h, f, k, operator);
      OneStep(h, f, ops[0]);
    } else {
      ops := [RequestAbortOp(k, operator), ConfirmAbortOp(k, operator)];
      RequestLeads(h, f, k, operator);
      StepKeeps(h, f, ops[0]);
      ConfirmLeads(h, Step(h, f, ops[0]), k, operator);
      TwoSteps(h, f, ops[0], ops[1]);
    }
  }

  /** However the server got where it is, a planned mission can be authorized and completed. */
  lemma CompleteAlways(h: Hasher, before: seq<Op>, k: nat, operator: string)
    requires operator != "" && k in Run(h, Booted(h), before).missions
    requires Run(h, Booted(h), before).missions[k].state == Planned
    ensures (var g := Run(h, Run(h, Booted(h), before), [AuthorizeOp(k, operator), CompleteOp(k)]);
             k in g.missions && g.missions[k].state == Completed && g.missions[k].authorized)
  {
    hide Booted, Invariant;
    EveryRun(h, before);
    var f := Run(h, Booted(h), before);
    AuthorizeLeads(h, f, k, operator);
    StepKeeps(h, f, AuthorizeOp(k, operator));
    CompleteLeads(h, Step(h, f, AuthorizeOp(k, operator)), k);
    TwoSteps(h, f, AuthorizeOp(k, operator), CompleteOp(k));
  }

  lemma OneStep(h: Hasher, f: Fleet, op: Op)
    ensures Run(h, f, [op]) == Step(h, f, op)
  {
    hide Step;
    assert [op][1..] == [];
    assert Run(h, Step(h, f, op), []) == Step(h, f, op);
  }

  lemma TwoSteps(h: Hasher, f: Fleet, a: Op, b: Op)
    ensures Run(h, f, [a, b]) == Step(h, Step(h, f, a), b)
  {
    hide Step;
    assert [a, b][1..] == [b];
    OneStep(h, Step(h, f, a), b);
  }

  lemma AuthorizeLeads(h: Hasher, f: Fleet, k: nat, operator: string)
    requires Invariant(h, f) && operator != "" && k in f.missions && f.missions[k].state == Planned
    ensures (var g := Step(h, f, AuthorizeOp(k, operator));
             k in g.missions && g.missions[k].state == Authorized && g.missions[k].authorized)
  {
    AuthorizeExactly(h, f, k, operator);
    hide Invariant, Authorize;
  }

  lemma RequestLeads(h: Hasher, f: Fleet, k: nat, operator: string)
    requires Invariant(h, f) && operator != "" && k in f.missions
    requires f.missions[k].state == Planned || f.missions[k].state == Authorized
    ensures (var g := Step(h, f, RequestAbortOp(k, operator));
             k in g.missions && g.missions[k].state == AbortRequested)
  {
    RequestAbortExactly(h, f, k, operator);
    hide Invariant, RequestAbort;
  }

  lemma ConfirmLeads(h: Hasher, f: Fleet, k: nat, operator: string)
    requires Invariant(h, f) && operator != "" && k in f.missions && f.missions[k].state == AbortRequested
    ensures (var g := Step(h, f, ConfirmAbortOp(k, operator)); k in g.missions && g.missions[k].state == Aborted)
  {
    ConfirmAbortExactly(h, f, k, operator);
    hide Invariant, ConfirmAbort;
  }

  lemma CompleteLeads(h: Hasher, f: Fleet, k: nat)
    requires Invariant(h, f) && k in f.missions && f.missions[k].state == Authorized
    ensures (var g := Step(h, f, CompleteOp(k));
             k in g.missions && g.missions[k].state == Completed
                 && g.missions[k].authorized == f.missions[k].authorized)
  {
    CompleteExactly(h, f, k);
    hide Invariant, Complete;
  }

  // ---------------------------------------------------------------- a restart

  lemma FreedVehicles(f: Fleet, held: set<int>)
    requires held <= f.vehicles.Keys && forall i :: i in f.vehicles ==> (i in held <==> f.vehicles[i].mission.Some?)
    ensures (var g := FreedAll(f, held);
             g.vehicles.Keys == f.vehicles.Keys && g.missions == f.missions && g.reservations == f.reservations
             && g.epoch == f.epoch
             && forall i :: i in f.vehicles ==>
                  g.vehicles[i] == if f.vehicles[i].mission == None then f.vehicles[i]
                                   else f.vehicles[i].(mission := None,
                                                       state := if f.vehicles[i].healthy then Available else Offline))
  {
  }

  /** A restart leaves of every mission that had not ended a requested abort, frees every vehicle, to be chosen again if
      it is healthy, and forgets the reservations. */
  lemma RestartExactly(h: Hasher, f: Fleet, order: seq<nat>)
    requires Invariant(h, f) && Lists(order, f.missions)
    ensures (var g := Restarted(h, f, order);
             g.missions.Keys == f.missions.Keys && g.vehicles.Keys == f.vehicles.Keys
             && g.reservations == map[] && g.epoch == f.epoch
             && (forall k :: k in f.missions ==>
                   g.missions[k] == if f.missions[k].state in {Aborted, Completed} then f.missions[k]
                                    else f.missions[k].(state := AbortRequested))
             && (forall i :: i in f.vehicles ==>
                   g.vehicles[i] == if f.vehicles[i].mission == None then f.vehicles[i]
                                    else f.vehicles[i].(mission := None,
                                                        state := if f.vehicles[i].healthy then Available
                                                                 else Offline)))
  {
    hide LoggedInterrupted, Interrupted, MISSION_ROUTE, HeldByAny, Appended, Restarted, LoadedVehicles, IDS, LogOk,
      Ownership, FreedAll;
    var g := Loaded(h, f, order);
    var held := HeldByAny(g.vehicles, Interrupted(f.saved.missions, order));
    AllHeldAreFreed(h, f, order);
    HeldHaveMission(g.vehicles, Interrupted(f.saved.missions, order));
    RestartedIs(h, f, order);
    FreedVehicles(g, held);
  }

  lemma HeldHaveMission(vehicles: map<int, Vehicle>, missions: seq<nat>)
    ensures forall i :: i in HeldByAny(vehicles, missions) ==> i in vehicles && vehicles[i].mission.Some?
  {
  }

  // ---------------------------------------------------------------- which vehicles can be chosen

  lemma KnownVehicles(f: Fleet)
    requires Ownership(f)
    ensures forall i :: i in f.vehicles <==> 1 <= i <= 15
  {
    hide MISSION_ROUTE;
  }

  /** A new mission is planned for the first vehicles that can be chosen; they are assigned to it, and all others
      stay. */
  lemma CreateEffect(h: Hasher, f: Fleet, count: int)
    requires Invariant(h, f) && Create(h, f, count).Ok?
    ensures (var g, k := Create(h, f, count).value, f.epoch + 1;
             var chosen := Eligible(f.vehicles, 1)[..count];
             g.missions == f.missions[k := Mission(k, chosen, MISSION_ROUTE, Planned, false)]
             && g.vehicles.Keys == f.vehicles.Keys
             && (forall i :: i in f.vehicles ==>
                   g.vehicles[i] == if i in chosen then f.vehicles[i].(state := Assigned, mission := Some(k))
                                    else f.vehicles[i]))
  {
    hide MISSION_ROUTE, Ownership, SavedOk, LogOk, Appended, Eligible, WithNewMission;
    EligibleAre(f.vehicles, 1);
    var chosen := Eligible(f.vehicles, 1)[..count];
    NewMissionEffect(f, chosen);
  }

  lemma NewMissionEffect(f: Fleet, chosen: seq<int>)
    requires forall i :: i in chosen ==> i in f.vehicles
    ensures (var g, k := WithNewMission(f, chosen), f.epoch + 1;
             g.missions == f.missions[k := Mission(k, chosen, MISSION_ROUTE, Planned, false)]
             && g.vehicles.Keys == f.vehicles.Keys
             && (forall i :: i in f.vehicles ==>
                   g.vehicles[i] == if i in chosen then f.vehicles[i].(state := Assigned, mission := Some(k))
                                    else f.vehicles[i]))
  {
    hide MISSION_ROUTE, Reserved;
    var g := WithNewMission(f, chosen);
    assert forall i :: i in g.vehicles <==> i in f.vehicles;
  }

  /** Maintenance begins exactly for a vehicle without a mission and a named operator; then it cannot be chosen. It ends
      for a named operator, and leaves the vehicle offline. */
  lemma MaintenanceExactly(h: Hasher, f: Fleet, id: int, operator: string, note: string)
    requires Invariant(h, f)
    ensures SetMaintenance(h, f, id, operator, note).Ok?
            <==> operator != "" && 1 <= id <= 15 && f.vehicles[id].mission == None
    ensures SetMaintenance(h, f, id, operator, note).Ok?
            ==> SetMaintenance(h, f, id, operator, note).value.vehicles
                == f.vehicles[id := f.vehicles[id].(state := Maintenance)]
    ensures ClearMaintenance(h, f, id, operator).Ok? <==> operator != "" && 1 <= id <= 15
    ensures ClearMaintenance(h, f, id, operator).Ok?
            ==> ClearMaintenance(h, f, id, operator).value.vehicles
                == f.vehicles[id := f.vehicles[id].(state := Offline)]
  {
    KnownVehicles(f);
    hide LogOk, Ownership, SavedOk, Appended;
  }

  /** What telemetry makes of a vehicle that is not in maintenance. */
  lemma StateAfterTelemetry(h: Hasher, f: Fleet, id: int, healthy: bool, battery: int, now: int)
    requires Invariant(h, f) && 1 <= id <= 15
    ensures id in f.vehicles && Ingest(h, f, id, healthy, battery, now).Ok?
    ensures f.vehicles[id].state != Maintenance
            ==> (var v := Ingest(h, f, id, healthy, battery, now).value.vehicles[id];
                 v.healthy == healthy && v.battery == battery && v.lastSeen == now
                     && v.mission == f.vehicles[id].mission
                 && (v.state == Assigned <==> v.mission.Some? && healthy)
                 && (v.state == Available <==> v.mission.None? && healthy && battery >= 30)
                 && (v.state == Degraded <==> !healthy || (v.mission.None? && battery < 30)))
  {
    KnownVehicles(f);
    hide LogOk, Ownership, SavedOk, Appended;
  }

  /** What a node update makes of a vehicle that is not in maintenance. */
  lemma StateAfterUpdate(h: Hasher, f: Fleet, id: int, session: int, healthy: bool)
    requires Invariant(h, f) && 1 <= id <= 15
    ensures id in f.vehicles && UpdateSimNode(h, f, id, session, healthy).Ok?
    ensures f.vehicles[id].state != Maintenance
            ==> (var v := UpdateSimNode(h, f, id, session, healthy).value.vehicles[id];
                 v.healthy == healthy && v.session == session && v.mission == f.vehicles[id].mission
                 && v.battery == f.vehicles[id].battery && v.lastSeen == f.vehicles[id].lastSeen
                 && (v.state == Assigned <==> v.mission.Some? && healthy)
                 && (v.state == Available <==> v.mission.None? && healthy)
                 && (v.state == Degraded <==> v.mission.Some? && !healthy))
  {
    KnownVehicles(f);
    hide LogOk, Ownership, SavedOk, Appended;
  }

  lemma FirstIn(s: seq<int>)
    ensures s == [] || s[0] in s
  {
  }

  /** A server started on nothing has fifteen vehicles, all offline and free, and nothing else. */
  lemma StartsEmpty(h: Hasher)
    ensures (var f := Booted(h);
             (forall i :: i in f.vehicles <==> 1 <= i <= 15)
             && (forall i :: i in f.vehicles ==> f.vehicles[i] == Vehicle(Offline, false, 0, 0, None, 0))
             && f.missions == map[] && f.reservations == map[] && f.epoch == 0
             && Eligible(f.vehicles, 1) == [])
  {
    hide MISSION_ROUTE, Eligible, Appended;
    var f := Booted(h);
    LoadedIds();
    var loaded := LoadedVehicles(map[]);
    assert HeldByAny(loaded, []) == {} && ReconciledAll(map[]) == map[];
    assert f.vehicles == loaded;
    EligibleAre(f.vehicles, 1);
    FirstIn(Eligible(f.vehicles, 1));
  }

  /** After telemetry a vehicle can be chosen exactly if it is healthy, has at least 30 percent, belongs to no mission
      and is not in maintenance. */
  lemma EligibleAfterTelemetry(h: Hasher, f: Fleet, id: int, healthy: bool, battery: int, now: int)
    requires Invariant(h, f) && Ingest(h, f, id, healthy, battery, now).Ok?
    ensures id in Eligible(Ingest(h, f, id, healthy, battery, now).value.vehicles, 1)
            <==> healthy && battery >= 30 && f.vehicles[id].mission == None && f.vehicles[id].state != Maintenance
  {
    var g := Ingest(h, f, id, healthy, battery, now).value;
    KnownVehicles(f);
    EligibleAre(g.vehicles, 1);
    hide LogOk, Ownership, SavedOk, Appended, Eligible;
  }

  /** After a node update, exactly if it is online, belongs to no mission and is not in maintenance. */
  lemma EligibleAfterUpdate(h: Hasher, f: Fleet, id: int, session: int, healthy: bool)
    requires Invariant(h, f) && UpdateSimNode(h, f, id, session, healthy).Ok?
    ensures id in Eligible(UpdateSimNode(h, f, id, session, healthy).value.vehicles, 1)
            <==> healthy && f.vehicles[id].mission == None && f.vehicles[id].state != Maintenance
  {
    var g := UpdateSimNode(h, f, id, session, healthy).value;
    KnownVehicles(f);
    EligibleAre(g.vehicles, 1);
    hide LogOk, Ownership, SavedOk, Appended, Eligible;
  }

  /** When a mission ends, each vehicle it held can be chosen again exactly if it is healthy. */
  lemma EligibleAfterEnd(h: Hasher, f: Fleet, k: nat, operator: string, i: int)
    requires Invariant(h, f) && i in f.vehicles && f.vehicles[i].mission == Some(k)
    ensures ConfirmAbort(h, f, k, operator).Ok?
            ==> (i in Eligible(ConfirmAbort(h, f, k, operator).value.vehicles, 1) <==> f.vehicles[i].healthy)
    ensures Complete(h, f, k).Ok?
            ==> (i in Eligible(Complete(h, f, k).value.vehicles, 1) <==> f.vehicles[i].healthy)
  {
    KnownVehicles(f);
    NumberWhere(f, k);
    if k in f.missions {
      FreedWhere(f, f.missions[k].(state := Aborted), i);
      FreedWhere(f, f.missions[k].(state := Completed), i);
    }
    hide LogOk, Ownership, SavedOk, Appended, Released, Eligible;
    if ConfirmAbort(h, f, k, operator).Ok? { EligibleAre(ConfirmAbort(h, f, k, operator).value.vehicles, 1); }
    if Complete(h, f, k).Ok? { EligibleAre(Complete(h, f, k).value.vehicles, 1); }
  }

  lemma FreedWhere(f: Fleet, m: Mission, i: int)
    requires Ownership(f) && m.number in f.missions && m.vehicles == f.missions[m.number].vehicles
    requires i in f.vehicles && f.vehicles[i].mission == Some(m.number)
    ensures (var g := Released(f, m);
             i in g.vehicles && g.vehicles[i].healthy == f.vehicles[i].healthy
             && (g.vehicles[i].state == Available <==> f.vehicles[i].healthy))
  {
    hide MISSION_ROUTE, IDS;
    assert VehicleOk(f, i);
  }
}
