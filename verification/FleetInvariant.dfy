/** What every operation of the fleet server keeps, restarts included. */
module FleetInvariant {
  import opened Outcomes
  import opened FleetGraph
  import opened FleetAudit
  import opened FleetOperations

  /** The mission was created since the last restart and can still move: only such missions hold anything. */
  predicate Live(f: Fleet, k: nat) { k in f.missions && k > f.boot && Active(f.missions[k].state) }

  predicate MissionOk(f: Fleet, k: nat)
    requires k in f.missions
  {
    var m := f.missions[k];
    && m.number == k && 1 <= k <= f.epoch
    && (forall i :: i in m.vehicles ==> i in IDS)
    && m.route == MISSION_ROUTE
    && (k <= f.boot ==> m.state != Planned && m.state != Authorized)
    && (m.state == Authorized || m.state == Completed ==> m.authorized)
  }

  /** A vehicle's mission is live and lists it, and an available vehicle has none. */
  predicate VehicleOk(f: Fleet, i: int)
    requires i in f.vehicles
  {
    var v := f.vehicles[i];
    && (v.mission.Some? ==> Live(f, v.mission.value) && i in f.missions[v.mission.value].vehicles)
    && (v.state == Available ==> v.mission.None?)
  }

  /** A live mission has all its vehicles and all its route. */
  predicate OwnsAll(f: Fleet, k: nat)
    requires k in f.missions
  {
    && (forall i :: i in f.missions[k].vehicles ==> i in f.vehicles && f.vehicles[i].mission == Some(k))
    && (forall n :: n in f.missions[k].route ==> n in f.reservations && f.reservations[n] == k)
  }

  predicate ReservationOk(f: Fleet, n: Node)
    requires n in f.reservations
  {
    Live(f, f.reservations[n]) && n in f.missions[f.reservations[n]].route
  }

  predicate Ownership(f: Fleet) {
    && f.vehicles.Keys == IDS && f.boot <= f.epoch
    && (forall k :: k in f.missions ==> MissionOk(f, k))
    && (forall i :: i in f.vehicles ==> VehicleOk(f, i))
    && (forall k :: k in f.missions && Live(f, k) ==> OwnsAll(f, k))
    && (forall n :: n in f.reservations ==> ReservationOk(f, n))
  }

  /** What the repository would bring back is what the server has. */
  predicate SavedOk(f: Fleet) {
    && f.saved.missions == f.missions && f.saved.epoch == f.epoch
    && f.saved.vehicles.Keys <= IDS && f.vehicles == LoadedVehicles(f.saved.vehicles)
  }

  function States(missions: map<nat, Mission>): map<nat, MissionState> { map k | k in missions :: missions[k].state }

  /** The audit log verifies, and replaying it gives the ids and states of the missions. */
  predicate LogOk(h: Hasher, f: Fleet) { Verifies(h, f.log) && Replay(f.log) == States(f.missions) }

  predicate Invariant(h: Hasher, f: Fleet) { Ownership(f) && SavedOk(f) && LogOk(h, f) }

  // ---------------------------------------------------------------- logging

  lemma LoggingKeeps(h: Hasher, f: Fleet, before: Fleet, event: Event)
    requires Verifies(h, f.log) && f.log == before.log && Replayed(Replay(before.log), event) == States(f.missions)
    ensures LogOk(h, Logged(h, f, event))
  {
    hide Appended, Replay, Verifies, Replayed, States;
    AppendedVerifies(h, f.log, event);
    ReplayAppended(h, f.log, event);
  }

  lemma LoggedKeepsRest(h: Hasher, f: Fleet, event: Event)
    ensures Ownership(Logged(h, f, event)) <==> Ownership(f)
    ensures SavedOk(Logged(h, f, event)) <==> SavedOk(f)
  {
    hide Appended, MISSION_ROUTE, IDS, LoadedVehicles;
    var g := Logged(h, f, event);
    assert forall k :: k in f.missions ==> (MissionOk(g, k) <==> MissionOk(f, k));
    assert forall k :: k in f.missions ==> (OwnsAll(g, k) <==> OwnsAll(f, k)) && (Live(g, k) <==> Live(f, k));
    assert forall i :: i in f.vehicles ==> (VehicleOk(g, i) <==> VehicleOk(f, i));
    assert forall n :: n in f.reservations ==> (ReservationOk(g, n) <==> ReservationOk(f, n));
  }

  /** A remark changes no mission. */
  lemma RemarkKeeps(h: Hasher, f: Fleet, before: Fleet, kind: string, i: int, text: string)
    requires Ownership(f) && SavedOk(f) && LogOk(h, before) && f.log == before.log && f.missions == before.missions
    ensures Invariant(h, Logged(h, f, Remark(kind, i, text)))
  {
    hide Ownership, SavedOk, Appended, Replay, Verifies, States;
    LoggedKeepsRest(h, f, Remark(kind, i, text));
    LoggingKeeps(h, f, before, Remark(kind, i, text));
  }

  // ---------------------------------------------------------------- one vehicle

  /** A vehicle may change anything but its mission, and may become available only without one. */
  lemma WithVehicleKeeps(f: Fleet, id: int, v: Vehicle)
    requires Ownership(f) && SavedOk(f) && id in f.vehicles
    requires v.mission == f.vehicles[id].mission && (v.state == Available ==> v.mission.None?)
    ensures Ownership(WithVehicle(f, id, v)) && SavedOk(WithVehicle(f, id, v))
  {
    hide MISSION_ROUTE, LoadedVehicles, IDS;
    var g := WithVehicle(f, id, v);
    forall k | k in f.missions ensures MissionOk(g, k) { assert MissionOk(f, k); }
    forall i | i in g.vehicles ensures VehicleOk(g, i) { assert VehicleOk(f, i); }
    forall k | k in g.missions && Live(g, k) ensures OwnsAll(g, k) { assert Live(f, k) && OwnsAll(f, k); }
    forall n | n in g.reservations ensures ReservationOk(g, n) { assert ReservationOk(f, n); }
    WithVehicleSaved(f, id, v);
  }

  lemma WithVehicleSaved(f: Fleet, id: int, v: Vehicle)
    requires SavedOk(f) && id in f.vehicles
    ensures SavedOk(WithVehicle(f, id, v))
  {
    var g := WithVehicle(f, id, v);
    assert g.vehicles == LoadedVehicles(g.saved.vehicles);
  }

  // ---------------------------------------------------------------- one mission

  lemma StatesUpdated(missions: map<nat, Mission>, k: nat, m: Mission)
    ensures States(missions[k := m]) == States(missions)[k := m.state]
  {
  }

  /** A mission moves on without ending. */
  lemma WithMissionKeeps(f: Fleet, k: nat, m: Mission)
    requires Ownership(f) && SavedOk(f) && k in f.missions && Allowed(f.missions[k].state, m.state) && Active(m.state)
    requires m == f.missions[k].(state := m.state, authorized := m.authorized)
             && (m.state == Authorized ==> m.authorized)
    ensures Ownership(WithMission(f, m)) && SavedOk(WithMission(f, m))
  {
    hide MISSION_ROUTE, IDS, LoadedVehicles;
    assert MissionOk(f, k);
    var g := WithMission(f, m);
    forall j | j in g.missions ensures MissionOk(g, j) && (Live(g, j) <==> Live(f, j)) { assert MissionOk(f, j); }
    forall i | i in g.vehicles ensures VehicleOk(g, i) { assert VehicleOk(f, i); }
    forall j | j in g.missions && Live(g, j) ensures OwnsAll(g, j) { assert OwnsAll(f, j); }
    forall n | n in g.reservations ensures ReservationOk(g, n) { assert ReservationOk(f, n); }
  }

  /** A mission ends and gives back what it held; the others keep what they hold. */
  lemma EndedOwnership(f: Fleet, k: nat, m: Mission)
    requires Ownership(f) && k in f.missions && Allowed(f.missions[k].state, m.state) && !Active(m.state)
    requires m == f.missions[k].(state := m.state)
    ensures Ownership(WithMission(Released(f, m), m))
  {
    hide MISSION_ROUTE, IDS, Released, MissionOk, VehicleOk, OwnsAll, ReservationOk, Live;
    var g := WithMission(Released(f, m), m);
    ReleasedTables(f, m);
    NumberIs(f, k);
    forall j | j in g.missions
      ensures MissionOk(g, j) && (Live(g, j) <==> j != k && Live(f, j))
    {
      EndedMission(f, k, m, j);
    }
    forall i | i in g.vehicles ensures VehicleOk(g, i) { EndedVehicle(f, k, m, i); }
    forall j | j in g.missions && Live(g, j) ensures OwnsAll(g, j) { EndedOthers(f, k, m, j); }
    forall n | n in g.reservations ensures ReservationOk(g, n) { EndedReservation(f, k, m, n); }
  }

  lemma NumberIs(f: Fleet, k: nat)
    requires k in f.missions && MissionOk(f, k)
    ensures f.missions[k].number == k
  {
  }

  lemma ReleasedTables(f: Fleet, m: Mission)
    ensures (var g := Released(f, m);
             g.vehicles.Keys == f.vehicles.Keys && g.missions == f.missions && g.epoch == f.epoch && g.boot == f.boot
             && g.reservations.Keys <= f.reservations.Keys && g.log == f.log)
  {
  }

  lemma EndedMission(f: Fleet, k: nat, m: Mission, j: nat)
    requires k in f.missions && Allowed(f.missions[k].state, m.state) && !Active(m.state)
             && m == f.missions[k].(state := m.state)
    requires MissionOk(f, k) && j in f.missions && MissionOk(f, j)
    ensures (var g := WithMission(Released(f, m), m); MissionOk(g, j) && (Live(g, j) <==> j != k && Live(f, j)))
  {
    hide MISSION_ROUTE, IDS, Released;
    ReleasedTables(f, m);
  }

  lemma EndedVehicle(f: Fleet, k: nat, m: Mission, i: int)
    requires k in f.missions && !Active(m.state) && m == f.missions[k].(state := m.state)
    requires MissionOk(f, k) && i in f.vehicles && VehicleOk(f, i)
    ensures VehicleOk(WithMission(Released(f, m), m), i)
  {
    hide MISSION_ROUTE, IDS;
  }

  lemma EndedOthers(f: Fleet, k: nat, m: Mission, j: nat)
    requires k in f.missions && m == f.missions[k].(state := m.state)
    requires MissionOk(f, k) && j in f.missions && j != k && OwnsAll(f, j)
    ensures OwnsAll(WithMission(Released(f, m), m), j)
  {
    hide MISSION_ROUTE, IDS, MissionOk;
    NumberIs(f, k);
  }

  lemma EndedReservation(f: Fleet, k: nat, m: Mission, n: Node)
    requires k in f.missions && m == f.missions[k].(state := m.state)
    requires MissionOk(f, k) && n in Released(f, m).reservations && ReservationOk(f, n)
    ensures ReservationOk(WithMission(Released(f, m), m), n)
  {
    hide MISSION_ROUTE, IDS, MissionOk;
    NumberIs(f, k);
  }

  lemma FreedAllSaved(f: Fleet, ids: set<int>)
    requires SavedOk(f) && ids <= f.vehicles.Keys
    ensures SavedOk(FreedAll(f, ids))
  {
  }

  lemma EndedSaved(f: Fleet, m: Mission)
    requires SavedOk(f)
    ensures SavedOk(WithMission(Released(f, m), m))
  {
    hide LoadedVehicles, FreedAll, IDS;
    FreedAllSaved(f, HeldBy(f.vehicles, m.vehicles, m.number));
  }

  // ---------------------------------------------------------------- creation

  /** Every mission has the same route, so while one is live nothing else is free. */
  lemma NoConflict(f: Fleet)
    requires Ownership(f)
    ensures Conflicts(f.reservations, MISSION_ROUTE) == {} <==> f.reservations == map[]
    ensures Conflicts(f.reservations, MISSION_ROUTE) == {} <==> forall k :: k in f.missions ==> !Live(f, k)
  {
    hide IDS, Live, VehicleOk;
    if f.reservations == map[] {
      forall k | k in f.missions ensures !Live(f, k) { HoldsHome(f, k); }
    } else {
      var n :| n in f.reservations;
      Holder(f, n);
      assert f.reservations[n] in Conflicts(f.reservations, MISSION_ROUTE);
    }
  }

  lemma HoldsHome(f: Fleet, k: nat)
    requires k in f.missions && MissionOk(f, k)
    ensures OwnsAll(f, k) ==> Home in f.reservations
  {
    assert MISSION_ROUTE[0] in f.missions[k].route;
  }

  lemma Holder(f: Fleet, n: Node)
    requires Ownership(f) && n in f.reservations
    ensures f.reservations[n] in f.missions && Live(f, f.reservations[n]) && n in MISSION_ROUTE
  {
    hide MISSION_ROUTE, IDS, VehicleOk, OwnsAll;
    assert ReservationOk(f, n) && MissionOk(f, f.reservations[n]);
  }

  lemma CreatedOwnership(f: Fleet, selected: seq<int>)
    requires Ownership(f) && Conflicts(f.reservations, MISSION_ROUTE) == {}
    requires forall i :: i in selected ==> i in f.vehicles && f.vehicles[i].state == Available
    ensures f.epoch + 1 !in f.missions && Ownership(WithNewMission(f, selected))
  {
    hide MISSION_ROUTE, IDS, Conflicts, MissionOk, VehicleOk, OwnsAll, ReservationOk, Live;
    var k := f.epoch + 1;
    var g := WithNewMission(f, selected);
    NoConflict(f);
    if k in f.missions { WithinEpoch(f, k); }
    CreatedMission(f, selected);
    forall j | j in g.missions ensures MissionOk(g, j) && (Live(g, j) <==> j == k) {
      if j != k { CreatedOther(f, selected, j); }
    }
    forall i | i in g.vehicles ensures VehicleOk(g, i) { CreatedVehicle(f, selected, i); }
    forall n | n in g.reservations ensures ReservationOk(g, n) { CreatedReservation(f, selected, n); }
  }

  lemma WithinEpoch(f: Fleet, k: nat)
    requires k in f.missions && MissionOk(f, k)
    ensures k <= f.epoch
  {
  }

  lemma CreatedMission(f: Fleet, selected: seq<int>)
    requires forall i :: i in selected ==> i in f.vehicles
    requires f.vehicles.Keys == IDS && f.boot <= f.epoch
    ensures (var g := WithNewMission(f, selected);
             MissionOk(g, f.epoch + 1) && Live(g, f.epoch + 1) && OwnsAll(g, f.epoch + 1))
  {
    hide MISSION_ROUTE, IDS;
  }

  lemma CreatedOther(f: Fleet, selected: seq<int>, j: nat)
    requires forall i :: i in selected ==> i in f.vehicles
    requires j in f.missions && j != f.epoch + 1 && MissionOk(f, j)
    ensures (var g := WithNewMission(f, selected); MissionOk(g, j) && (Live(g, j) <==> Live(f, j)))
  {
    hide MISSION_ROUTE, IDS, Reserved;
  }

  lemma CreatedVehicle(f: Fleet, selected: seq<int>, i: int)
    requires forall i :: i in selected ==> i in f.vehicles
    requires f.boot <= f.epoch && f.epoch + 1 !in f.missions && i in f.vehicles && VehicleOk(f, i)
    ensures VehicleOk(WithNewMission(f, selected), i)
  {
    hide MISSION_ROUTE, IDS, Reserved;
  }

  lemma CreatedReservation(f: Fleet, selected: seq<int>, n: Node)
    requires forall i :: i in selected ==> i in f.vehicles
    requires f.reservations == map[] && f.boot <= f.epoch && n in WithNewMission(f, selected).reservations
    ensures ReservationOk(WithNewMission(f, selected), n)
  {
    hide MISSION_ROUTE, IDS;
  }

  lemma CreatedSaved(f: Fleet, selected: seq<int>)
    requires SavedOk(f) && forall i :: i in selected ==> i in f.vehicles
    ensures SavedOk(WithNewMission(f, selected))
  {
    hide MISSION_ROUTE;
    var g := WithNewMission(f, selected);
    assert g.vehicles == LoadedVehicles(g.saved.vehicles);
  }

  // ---------------------------------------------------------------- restart

  lemma {:induction false} InterruptedAre(missions: map<nat, Mission>, order: seq<nat>, k: nat)
    ensures k in Interrupted(missions, order) <==> k in order && k in missions && Active(missions[k].state)
  {
    if order != [] { InterruptedAre(missions, order[..|order| - 1], k); }
  }

  /** The states after the missions of `order` have been reconciled. */
  function StatesAfter(missions: map<nat, Mission>, order: seq<nat>): map<nat, MissionState> {
    map k | k in missions :: if k in order && Active(missions[k].state) then AbortRequested else missions[k].state
  }

  lemma {:induction false} ReconciliationIsReplayed(h: Hasher, log: seq<Entry>, missions: map<nat, Mission>,
                                                    order: seq<nat>)
    requires Verifies(h, log) && Replay(log) == States(missions)
    ensures Verifies(h, LoggedInterrupted(h, log, missions, order))
    ensures Replay(LoggedInterrupted(h, log, missions, order)) == StatesAfter(missions, order)
  {
    hide Verifies, Appended, Replay;
    if order != [] {
      var rest, k := order[..|order| - 1], order[|order| - 1];
      ReconciliationIsReplayed(h, log, missions, rest);
      var before := LoggedInterrupted(h, log, missions, rest);
      assert order == rest + [k];
      if k in missions && Active(missions[k].state) {
        var event := RestartReconciliation(k, missions[k].state, AbortRequested);
        AppendedVerifies(h, before, event);
        ReplayAppended(h, before, event);
      }
    }
  }

  lemma RestartedMission(m: Mission)
    ensures Reconciled(m).state == if Active(m.state) then AbortRequested else m.state
    ensures Reconciled(m) == m.(state := Reconciled(m).state)
  {
  }

  /** The tables a restart starts from. */
  function Loaded(h: Hasher, f: Fleet, order: seq<nat>): Fleet {
    var missions := ReconciledAll(f.saved.missions);
    Fleet(LoadedVehicles(f.saved.vehicles), missions, map[], f.saved.epoch,
          LoggedInterrupted(h, f.log, f.saved.missions, order), f.saved.(missions := missions), f.saved.epoch)
  }

  /** Every vehicle on a mission is freed: its mission was active, so it is one of those reconciled. */
  lemma AllHeldAreFreed(h: Hasher, f: Fleet, order: seq<nat>)
    requires Ownership(f) && SavedOk(f) && Lists(order, f.missions)
    ensures (var g := Loaded(h, f, order);
             forall i :: i in g.vehicles && g.vehicles[i].mission.Some?
                         ==> i in HeldByAny(g.vehicles, Interrupted(f.saved.missions, order)))
  {
    hide LoggedInterrupted, MISSION_ROUTE, IDS, LoadedVehicles;
    var g := Loaded(h, f, order);
    forall i | i in g.vehicles && g.vehicles[i].mission.Some?
      ensures i in HeldByAny(g.vehicles, Interrupted(f.saved.missions, order))
    {
      assert i in f.vehicles && VehicleOk(f, i);
      InterruptedAre(f.missions, order, f.vehicles[i].mission.value);
    }
  }

  lemma RestartedIs(h: Hasher, f: Fleet, order: seq<nat>)
    ensures (var g := Loaded(h, f, order);
             var r := Restarted(h, f, order);
             HeldByAny(g.vehicles, Interrupted(f.saved.missions, order)) <= g.vehicles.Keys
             && r == Logged(h, FreedAll(g, HeldByAny(g.vehicles, Interrupted(f.saved.missions, order))),
                            ServerReady(f.saved.epoch, Interrupted(f.saved.missions, order))))
  {
    hide LoggedInterrupted, Interrupted, Appended;
  }

  lemma RestartedVehicles(h: Hasher, f: Fleet, order: seq<nat>)
    requires Ownership(f) && SavedOk(f) && Lists(order, f.missions)
    ensures (var g := Restarted(h, f, order);
             g.vehicles.Keys == IDS && forall i :: i in g.vehicles ==> g.vehicles[i].mission.None?)
  {
    hide LoggedInterrupted, Interrupted, MISSION_ROUTE, HeldByAny, Appended, Restarted, LoadedVehicles, IDS, Reconciled;
    AllHeldAreFreed(h, f, order);
    RestartedIs(h, f, order);
  }

  lemma RestartedMissions(h: Hasher, f: Fleet, order: seq<nat>)
    requires Ownership(f) && SavedOk(f)
    ensures (var g := Restarted(h, f, order);
             g.missions.Keys == f.missions.Keys && forall k :: k in g.missions ==> MissionOk(g, k) && !Live(g, k))
  {
    hide LoggedInterrupted, Interrupted, MISSION_ROUTE, HeldByAny, Appended, Restarted, LoadedVehicles, IDS, Reconciled;
    RestartedIs(h, f, order);
    var g := Restarted(h, f, order);
    forall k | k in g.missions ensures MissionOk(g, k) && !Live(g, k) {
      assert MissionOk(f, k);
      RestartedMission(f.missions[k]);
    }
  }

  /** After a restart nothing is live, no vehicle is on a mission and nothing is reserved. */
  lemma RestartedIsIdle(h: Hasher, f: Fleet, order: seq<nat>)
    requires Ownership(f) && SavedOk(f) && Lists(order, f.missions)
    ensures (var g := Restarted(h, f, order);
             Ownership(g) && g.reservations == map[] && (forall i :: i in g.vehicles ==> g.vehicles[i].mission.None?)
             && forall k :: k in g.missions ==> !Live(g, k))
  {
    RestartedVehicles(h, f, order);
    RestartedMissions(h, f, order);
    hide LoggedInterrupted, Interrupted, MISSION_ROUTE, HeldByAny, Appended, Restarted, LoadedVehicles, IDS, MissionOk,
      Live;
    RestartedIs(h, f, order);
  }

  lemma LoadedSaved(h: Hasher, f: Fleet, order: seq<nat>)
    requires f.saved.vehicles.Keys <= IDS
    ensures SavedOk(Loaded(h, f, order))
  {
    hide LoggedInterrupted, LoadedVehicles, IDS;
  }

  lemma RestartedSaved(h: Hasher, f: Fleet, order: seq<nat>)
    requires f.saved.vehicles.Keys <= IDS
    ensures SavedOk(Restarted(h, f, order))
  {
    hide LoggedInterrupted, Interrupted, HeldByAny, Appended, LoadedVehicles, IDS, FreedAll, Loaded, Restarted;
    var g := Loaded(h, f, order);
    LoadedSaved(h, f, order);
    RestartedIs(h, f, order);
    FreedAllSaved(g, HeldByAny(g.vehicles, Interrupted(f.saved.missions, order)));
  }

  lemma RestartedLog(h: Hasher, f: Fleet, order: seq<nat>)
    requires SavedOk(f) && LogOk(h, f) && Lists(order, f.missions)
    ensures LogOk(h, Restarted(h, f, order))
  {
    hide LoggedInterrupted, Interrupted, HeldByAny, Appended, LoadedVehicles, IDS, Verifies, Replay;
    var log := LoggedInterrupted(h, f.log, f.missions, order);
    ReconciliationIsReplayed(h, f.log, f.missions, order);
    var event := ServerReady(f.epoch, Interrupted(f.missions, order));
    AppendedVerifies(h, log, event);
    ReplayAppended(h, log, event);
    assert StatesAfter(f.missions, order) == States(Restarted(h, f, order).missions);
  }

  lemma RestartKeeps(h: Hasher, f: Fleet, order: seq<nat>)
    requires Invariant(h, f) && Lists(order, f.saved.missions)
    ensures Invariant(h, Restarted(h, f, order))
  {
    hide Ownership, LogOk, Restarted;
    RestartedIsIdle(h, f, order);
    RestartedSaved(h, f, order);
    RestartedLog(h, f, order);
  }

  /** The vehicles in memory before a restart do not matter. */
  lemma RestartForgets(h: Hasher, f: Fleet, vehicles: map<int, Vehicle>, order: seq<nat>)
    ensures Restarted(h, f, order) == Restarted(h, f.(vehicles := vehicles), order)
  {
  }

  lemma BootHolds(h: Hasher)
    ensures Invariant(h, Booted(h))
  {
    hide Restarted, Verifies, Appended, IDS;
    var f := Fleet(map[], map[], map[], 0, [], Saved(map[], map[], 0), 0);
    var g := f.(vehicles := LoadedVehicles(map[]));
    LoadedIds();
    VerifiesNothing(h);
    assert Replay([]) == States(map[]);
    RestartForgets(h, f, g.vehicles, []);
    assert Ownership(g);
    RestartKeeps(h, g, []);
  }

  lemma LoadedIds()
    ensures LoadedVehicles(map[]).Keys == IDS
    ensures forall i :: i in LoadedVehicles(map[]) ==> LoadedVehicles(map[])[i] == NEW_VEHICLE
  {
  }

  lemma VerifiesNothing(h: Hasher)
    ensures Verifies(h, [])
  {
  }
}
