/** The audit log: every entry carries the hash of the one before it, and missions can be rebuilt from it. */
module FleetAudit {
  import opened FleetGraph

  datatype MissionState = Planned | Authorized | AbortRequested | Aborted | Completed

  /** `mission-<number>`; its group and epoch carry the same number, its revision is always 1. */
  datatype Mission = Mission(number: nat, vehicles: seq<int>, route: seq<Node>, state: MissionState, authorized: bool)

  /** What an entry records. `Remark` stands for the kinds that no other code reads back. */
  datatype Event =
    | MissionCreated(mission: Mission)
    | OperatorAuthorize(number: nat, operator: string)
    | OperatorAbortRequest(number: nat, operator: string)
    | OperatorAbortConfirm(number: nat, operator: string)
    | MissionCompleted(number: nat)
    | RestartReconciliation(number: nat, from: MissionState, to: MissionState)
    | ServerReady(epoch: nat, reconciled: seq<nat>)
    | Remark(kind: string, vehicle: int, text: string)

  type Hash = string

  /** The text that is hashed, as the record it is the text of. */
  datatype Body = Body(index: nat, event: Event, previous: Hash)

  datatype Entry = Entry(body: Body, hash: Hash)

  type Hasher = Body -> Hash

  function Zeros(n: nat): (s: string)
    ensures |s| == n && forall k :: 0 <= k < n ==> s[k] == '0'
  {
    if n == 0 then "" else Zeros(n - 1) + "0"
  }

  const GENESIS: Hash := Zeros(64)

  function LastHash(log: seq<Entry>): Hash { if log == [] then GENESIS else log[|log| - 1].hash }

  function Appended(h: Hasher, log: seq<Entry>, event: Event): seq<Entry> {
    var body := Body(|log|, event, LastHash(log));
    log + [Entry(body, h(body))]
  }

  /** Entry `i` has its own index, the hash before it, and the hash of its body. */
  predicate EntryOk(h: Hasher, log: seq<Entry>, i: nat)
    requires i < |log|
  {
    log[i].body.index == i && log[i].body.previous == LastHash(log[..i]) && log[i].hash == h(log[i].body)
  }

  predicate Verifies(h: Hasher, log: seq<Entry>) { forall i :: 0 <= i < |log| ==> EntryOk(h, log, i) }

  lemma AppendedVerifies(h: Hasher, log: seq<Entry>, event: Event)
    requires Verifies(h, log)
    ensures Verifies(h, Appended(h, log, event))
  {
    var next := Appended(h, log, event);
    forall i | 0 <= i < |next| ensures EntryOk(h, next, i) {
      if i < |log| {
        assert EntryOk(h, log, i) && next[..i] == log[..i];
      } else {
        assert next[..i] == log;
      }
    }
  }

  lemma {:induction false} PrefixVerifies(h: Hasher, log: seq<Entry>, n: nat)
    requires Verifies(h, log) && n <= |log|
    ensures Verifies(h, log[..n])
  {
    forall i | 0 <= i < n ensures EntryOk(h, log[..n], i) {
      assert EntryOk(h, log, i) && log[..n][..i] == log[..i];
    }
  }

  /** The first entry of a log is chained to 64 zeros, and each later one to the hash before it. */
  lemma ChainedTo(h: Hasher, log: seq<Entry>, i: nat)
    requires Verifies(h, log) && i < |log|
    ensures i == 0 ==> |log[i].body.previous| == 64 && forall k :: 0 <= k < 64 ==> log[i].body.previous[k] == '0'
    ensures i > 0 ==> log[i].body.previous == log[i - 1].hash && log[i - 1].hash == h(log[i - 1].body)
  {
    assert EntryOk(h, log, i);
    assert i == 0 ==> log[..i] == [];
    if i > 0 { assert EntryOk(h, log, i - 1) && log[..i][i - 1] == log[i - 1]; }
  }

  ghost predicate Injective(h: Hasher) { forall a, b :: h(a) == h(b) ==> a == b }

  /** Two logs that verify and end in the same hash are the same log, unless just one of them is empty: the last hash
      fixes the whole history. It fixes it without exception when no body has the hash that stands for the empty log. */
  lemma {:induction false} SameHashSameLog(h: Hasher, a: seq<Entry>, b: seq<Entry>)
    requires Injective(h) && Verifies(h, a) && Verifies(h, b) && LastHash(a) == LastHash(b)
    ensures a == b <==> (a == [] <==> b == [])
    ensures (forall body :: h(body) != GENESIS) ==> a == b
    decreases |a|
  {
    assert a != [] ==> EntryOk(h, a, |a| - 1);
    assert b != [] ==> EntryOk(h, b, |b| - 1);
    if a != [] && b != [] {
      var i, j := |a| - 1, |b| - 1;
      assert a[i] == b[j];
      PrefixVerifies(h, a, i);
      PrefixVerifies(h, b, j);
      SameHashSameLog(h, a[..i], b[..j]);
      assert a == a[..i] + [a[i]] && b == b[..j] + [b[j]];
    }
  }

  // ---------------------------------------------------------------- rebuilding the missions

  /** What one recorded event does to the table of mission states. */
  function Replayed(table: map<nat, MissionState>, event: Event): map<nat, MissionState> {
    match event
    case MissionCreated(m) => table[m.number := Planned]
    case OperatorAuthorize(k, _) => table[k := Authorized]
    case OperatorAbortRequest(k, _) => table[k := AbortRequested]
    case OperatorAbortConfirm(k, _) => table[k := Aborted]
    case MissionCompleted(k) => table[k := Completed]
    case RestartReconciliation(k, _, to) => table[k := to]
    case ServerReady(_, _) => table
    case Remark(_, _, _) => table
  }

  function Replay(log: seq<Entry>): map<nat, MissionState> {
    if log == [] then map[] else Replayed(Replay(log[..|log| - 1]), log[|log| - 1].body.event)
  }

  lemma ReplayAppended(h: Hasher, log: seq<Entry>, event: Event)
    ensures Replay(Appended(h, log, event)) == Replayed(Replay(log), event)
  {
    assert Appended(h, log, event)[..|log|] == log;
  }

  // ---------------------------------------------------------------- the log object

  /** `AuditLog`, with `stored` the entries its repository holds. */
  class AuditLog {
    var entries: seq<Entry>
    var current: Hash
    var stored: seq<Entry>

    /** The hash kept beside the entries is that of the last one, and the repository has the same entries. */
    predicate Valid()
      reads this
    {
      current == LastHash(entries) && stored == entries
    }

    constructor (kept: seq<Entry>)
      ensures stored == kept && entries == []
    {
      entries, current, stored := [], GENESIS, kept;
    }

    /** `append` */
    method Append(h: Hasher, event: Event)
      requires Valid()
      modifies this
      ensures Valid() && entries == Appended(h, old(entries), event)
    {
      var body := Body(|entries|, event, current);
      current := h(body);
      var entry := Entry(body, current);
      entries := entries + [entry];
      stored := stored + [entry];
    }

    /** `load_from` */
    method LoadFrom()
      modifies this
      ensures Valid() && entries == old(stored) && stored == old(stored)
    {
      entries := stored;
      current := if entries != [] then entries[|entries| - 1].hash else GENESIS;
    }

    /** `verify` accepts exactly the logs whose every entry is in order. */
    method Verify(h: Hasher) returns (ok: bool)
      ensures ok <==> Verifies(h, entries)
    {
      var previous := GENESIS;
      var index := 0;
      while index < |entries|
        invariant 0 <= index <= |entries| && previous == LastHash(entries[..index])
        invariant forall i :: 0 <= i < index ==> EntryOk(h, entries, i)
      {
        var entry := entries[index];
        if entry.body.index != index || entry.body.previous != previous || h(entry.body) != entry.hash {
          assert !EntryOk(h, entries, index);
          return false;
        }
        assert entries[..index + 1][index] == entry;
        previous := entry.hash;
        index := index + 1;
      }
      return true;
    }
  }
}
