/** The journal as data: its records, the state they replay to, compaction and the restart gate. */
module Ledger {
  import opened Wrappers

  type Key = string
  type Id = string
  type Digest = string

  /** The key an operation is journaled under. */
  function KeyOf(run: string, call: string): Key {
    run + "/" + call
  }

  datatype Binding = Binding(
    project: string, session: string, attachment: string, epoch: int, generation: string,
    journal: string, credential: string, provenance: string, anchor: string)

  datatype Status = Running | Exited | Cancelled | Failed
  datatype Reason = NoReason | ExternalTeardown | OwnershipLost
  datatype HandleState = HandleState(status: Status, reason: Reason, operation: Option<Key>, info: string)

  datatype Receipt = Receipt(run: string, call: string, digest: Digest, completed: bool, payload: string)
  datatype Entry = Entry(request: Digest, receipt: Option<Receipt>, acknowledged: bool)

  datatype Record =
    | Header(binding: Binding, instance: string)
    | Intent(key: Key, request: Digest)
    | Receipted(key: Key, receipt: Receipt)
    | Ack(key: Key)
    | Handle(id: Id, state: HandleState)
    | Clean

  /** What a process holds in memory about the journal. */
  datatype State = State(
    binding: Binding, instance: string, entries: map<Key, Entry>, handles: map<Id, HandleState>, clean: bool)

  function Blank(binding: Binding, instance: string): State {
    State(binding, instance, map[], map[], false)
  }

  /** One record of a journal being read back. A receipt or acknowledgement needs its intent. */
  function Restore(s: State, r: Record): Option<State> {
    match r
    case Header(b, i) => Some(s.(binding := b, instance := i, clean := false))
    case Intent(k, q) => Some(s.(entries := s.entries[k := Entry(q, None, false)]))
    case Receipted(k, v) =>
      if k in s.entries then Some(s.(entries := s.entries[k := s.entries[k].(receipt := Some(v))])) else None
    case Ack(k) =>
      if k in s.entries then Some(s.(entries := s.entries[k := s.entries[k].(acknowledged := true)])) else None
    case Handle(id, h) => Some(s.(handles := s.handles[id := h]))
    case Clean => Some(s.(clean := true))
  }

  function RestoreAll(s: State, rs: seq<Record>): Option<State> {
    if rs == [] then Some(s)
    else match RestoreAll(s, rs[..|rs| - 1])
      case Some(t) => Restore(t, rs[|rs| - 1])
      case None => None
  }

  /** The state a journal file stands for; `None` when it is not a journal. */
  function Replay(log: seq<Record>): Option<State> {
    if log != [] && log[0].Header? then RestoreAll(Blank(log[0].binding, log[0].instance), log[1..]) else None
  }

  // ------------------------------------------------------------ uncertainty

  /** The keys whose effect may or may not have happened. */
  function Uncertain(s: State): set<Key> {
    set k | k in s.entries && s.entries[k].receipt.None?
  }

  function RunningHandles(s: State): set<Id> {
    set id | id in s.handles && s.handles[id].status.Running?
  }

  // ------------------------------------------------------------ restart gate

  predicate SameIdentity(a: Binding, b: Binding) {
    a.(epoch := b.epoch, credential := b.credential) == b
  }

  datatype Verdict = SameProcess | NewProcess | StaleEpoch | Unproven

  /** Whether a process with this binding and instance may take over the journal. */
  function Gate(prior: State, binding: Binding, instance: string, teardownVerified: bool): Verdict {
    if binding == prior.binding && instance == prior.instance then SameProcess
    else if prior.binding.epoch >= binding.epoch then StaleEpoch
    else if SameIdentity(prior.binding, binding) && (prior.clean || teardownVerified) && Uncertain(prior) == {} then
      NewProcess
    else Unproven
  }

  function TornDown(h: HandleState): HandleState {
    h.(status := Cancelled, reason := ExternalTeardown)
  }

  // ------------------------------------------------------------ compaction

  ghost predicate Enumerates<T(!new)>(order: seq<T>, members: set<T>) {
    && (forall x :: x in order <==> x in members)
    && (forall i, j :: 0 <= i < j < |order| ==> order[i] != order[j])
  }

  function EntryRecords(k: Key, e: Entry): seq<Record> {
    [Intent(k, e.request)]
    + (if e.receipt.Some? then [Receipted(k, e.receipt.value)] else [])
    + (if e.acknowledged then [Ack(k)] else [])
  }

  function EntriesRecords(entries: map<Key, Entry>, order: seq<Key>): seq<Record>
    requires forall k <- order :: k in entries
  {
    if order == [] then []
    else
      var k := order[|order| - 1];
      EntriesRecords(entries, order[..|order| - 1]) + EntryRecords(k, entries[k])
  }

  function HandlesRecords(handles: map<Id, HandleState>, order: seq<Id>): seq<Record>
    requires forall id <- order :: id in handles
  {
    if order == [] then []
    else
      var id := order[|order| - 1];
      HandlesRecords(handles, order[..|order| - 1]) + [Handle(id, handles[id])]
  }

  function SnapshotBody(s: State, keys: seq<Key>, ids: seq<Id>): seq<Record>
    requires (forall k <- keys :: k in s.entries) && (forall id <- ids :: id in s.handles)
  {
    [Header(s.binding, s.instance)] + (EntriesRecords(s.entries, keys) + HandlesRecords(s.handles, ids))
  }

  /** The compacted journal, entries and handles written in the given orders. */
  function Snapshot(s: State, keys: seq<Key>, ids: seq<Id>): seq<Record>
    requires (forall k <- keys :: k in s.entries) && (forall id <- ids :: id in s.handles)
  {
    if s.clean then SnapshotBody(s, keys, ids) + [Clean] else SnapshotBody(s, keys, ids)
  }

  // ------------------------------------------------------------ lemmas

  /** The log is a snapshot of this state, in some order. */
  ghost predicate IsSnapshot(log: seq<Record>, s: State) {
    exists keys, ids ::
      && Enumerates(keys, s.entries.Keys) && Enumerates(ids, s.handles.Keys)
      && log == Snapshot(s, keys, ids)
  }

  lemma {:induction false} RestoreAllConcat(s: State, a: seq<Record>, b: seq<Record>)
    ensures RestoreAll(s, a + b) ==
            match RestoreAll(s, a) case Some(t) => RestoreAll(t, b) case None => None
  {
    if b == [] {
      assert a + b == a;
    } else {
      var n := |a + b|;
      assert (a + b)[..n - 1] == a + b[..|b| - 1] && (a + b)[n - 1] == b[|b| - 1];
      RestoreAllConcat(s, a, b[..|b| - 1]);
    }
  }

  /** Appending a record to a journal advances its replay by that record. */
  lemma ReplayAppend(log: seq<Record>, r: Record)
    requires log != []
    ensures Replay(log + [r]) == match Replay(log) case Some(s) => Restore(s, r) case None => None
  {
    var n := |log|;
    assert (log + [r])[0] == log[0];
    assert (log + [r])[1..] == log[1..] + [r];
    assert (log[1..] + [r])[..n - 1] == log[1..];
  }

  /** The part of a map whose keys are listed. */
  ghost function Listed<K, V>(m: map<K, V>, order: seq<K>): map<K, V>
    requires forall k <- order :: k in m
  {
    map k | k in order :: m[k]
  }

  lemma ListedSnoc<K, V>(m: map<K, V>, order: seq<K>)
    requires order != [] && forall k <- order :: k in m
    ensures var k := order[|order| - 1];
            Listed(m, order) == Listed(m, order[..|order| - 1])[k := m[k]]
  {
    var init, k := order[..|order| - 1], order[|order| - 1];
    assert order == init + [k];
  }

  lemma ListedAll<K, V>(m: map<K, V>, order: seq<K>)
    requires forall k :: k in order <==> k in m.Keys
    ensures Listed(m, order) == m
  {
  }

  lemma {:induction false} EntriesReplay(s: State, entries: map<Key, Entry>, order: seq<Key>)
    requires s.entries == map[] && forall k <- order :: k in entries
    ensures RestoreAll(s, EntriesRecords(entries, order)) == Some(s.(entries := Listed(entries, order)))
    decreases |order|
  {
    if order != [] {
      var init, k := order[..|order| - 1], order[|order| - 1];
      EntriesReplay(s, entries, init);
      RestoreAllConcat(s, EntriesRecords(entries, init), EntryRecords(k, entries[k]));
      EntryReplay(s.(entries := Listed(entries, init)), k, entries[k]);
      ListedSnoc(entries, order);
    }
  }

  lemma RestoreSnoc(s: State, rs: seq<Record>, r: Record)
    ensures RestoreAll(s, rs + [r]) == match RestoreAll(s, rs) case Some(t) => Restore(t, r) case None => None
  {
    assert (rs + [r])[..|rs|] == rs;
  }

  lemma EntryReplay(s: State, k: Key, e: Entry)
    ensures RestoreAll(s, EntryRecords(k, e)) == Some(s.(entries := s.entries[k := e]))
  {
    var rs1: seq<Record> := [Intent(k, e.request)];
    var rs2 := rs1 + if e.receipt.Some? then [Receipted(k, e.receipt.value)] else [];
    var rs3 := rs2 + if e.acknowledged then [Ack(k)] else [];
    var s1 := s.(entries := s.entries[k := Entry(e.request, None, false)]);
    assert RestoreAll(s, rs1) == Some(s1) by { RestoreSnoc(s, [], rs1[0]); assert [] + [rs1[0]] == rs1; }
    var s2 := s.(entries := s.entries[k := Entry(e.request, e.receipt, false)]);
    assert RestoreAll(s, rs2) == Some(s2) by {
      if e.receipt.Some? {
        RestoreSnoc(s, rs1, Receipted(k, e.receipt.value));
        assert s1.entries[k := s1.entries[k].(receipt := e.receipt)] == s2.entries;
      } else {
        assert rs2 == rs1;
      }
    }
    assert RestoreAll(s, rs3) == Some(s.(entries := s.entries[k := e])) by {
      if e.acknowledged {
        RestoreSnoc(s, rs2, Ack(k));
        assert s2.entries[k := s2.entries[k].(acknowledged := true)] == s.entries[k := e];
      } else {
        assert rs3 == rs2;
      }
    }
  }

  lemma {:induction false} HandlesReplay(s: State, handles: map<Id, HandleState>, order: seq<Id>)
    requires s.handles == map[] && forall id <- order :: id in handles
    ensures RestoreAll(s, HandlesRecords(handles, order)) == Some(s.(handles := Listed(handles, order)))
    decreases |order|
  {
    if order != [] {
      var init, id := order[..|order| - 1], order[|order| - 1];
      HandlesReplay(s, handles, init);
      RestoreSnoc(s, HandlesRecords(handles, init), Handle(id, handles[id]));
      ListedSnoc(handles, order);
    }
  }

  lemma SnapshotBodyReplays(s: State, keys: seq<Key>, ids: seq<Id>)
    requires Enumerates(keys, s.entries.Keys) && Enumerates(ids, s.handles.Keys)
    ensures Replay(SnapshotBody(s, keys, ids)) == Some(s.(clean := false))
  {
    var blank := Blank(s.binding, s.instance);
    var s1 := blank.(entries := s.entries);
    EntriesReplay(blank, s.entries, keys);
    ListedAll(s.entries, keys);
    HandlesReplay(s1, s.handles, ids);
    ListedAll(s.handles, ids);
    RestoreAllConcat(blank, EntriesRecords(s.entries, keys), HandlesRecords(s.handles, ids));
    assert SnapshotBody(s, keys, ids)[1..] ==
           EntriesRecords(s.entries, keys) + HandlesRecords(s.handles, ids);
  }

  /** Compaction loses nothing: a snapshot replays to exactly the state it was taken of. */
  lemma SnapshotReplays(s: State, keys: seq<Key>, ids: seq<Id>)
    requires Enumerates(keys, s.entries.Keys) && Enumerates(ids, s.handles.Keys)
    ensures Replay(Snapshot(s, keys, ids)) == Some(s)
  {
    SnapshotBodyReplays(s, keys, ids);
    if s.clean {
      ReplayAppend(SnapshotBody(s, keys, ids), Clean);
    }
  }

  /** Everything the state remembers was once a record of the log. */
  ghost predicate Recorded(s: State, log: seq<Record>) {
    && Header(s.binding, s.instance) in log
    && (forall k <- s.entries ::
          && Intent(k, s.entries[k].request) in log
          && (s.entries[k].receipt.Some? ==> Receipted(k, s.entries[k].receipt.value) in log)
          && (s.entries[k].acknowledged ==> Ack(k) in log))
    && (forall id <- s.handles :: Handle(id, s.handles[id]) in log)
    && (s.clean ==> Clean in log)
  }

  lemma RestoreRecorded(s: State, log: seq<Record>, r: Record)
    requires Recorded(s, log) && Restore(s, r).Some?
    ensures Recorded(Restore(s, r).value, log + [r])
  {
    assert forall x <- log :: x in log + [r];
    assert r in log + [r];
  }

  lemma {:induction false} ReplayRecorded(log: seq<Record>)
    requires Replay(log).Some?
    ensures Recorded(Replay(log).value, log)
    decreases |log|
  {
    var init, r := log[..|log| - 1], log[|log| - 1];
    assert log == init + [r];
    if init != [] {
      ReplayAppend(init, r);
      ReplayRecorded(init);
      RestoreRecorded(Replay(init).value, init, r);
    }
  }

  lemma {:induction false} EntriesFromLog(s: State, log: seq<Record>, order: seq<Key>)
    requires Recorded(s, log) && forall k <- order :: k in s.entries
    ensures forall r <- EntriesRecords(s.entries, order) :: r in log
    decreases |order|
  {
    if order != [] {
      EntriesFromLog(s, log, order[..|order| - 1]);
    }
  }

  lemma {:induction false} HandlesFromLog(s: State, log: seq<Record>, order: seq<Id>)
    requires Recorded(s, log) && forall id <- order :: id in s.handles
    ensures forall r <- HandlesRecords(s.handles, order) :: r in log
    decreases |order|
  {
    if order != [] {
      HandlesFromLog(s, log, order[..|order| - 1]);
    }
  }

  /** Compaction writes only records the journal already held, so none of them can be refused for
      its size and nothing is invented. */
  lemma SnapshotFromLog(log: seq<Record>, keys: seq<Key>, ids: seq<Id>)
    requires Replay(log).Some?
    requires var s := Replay(log).value; Enumerates(keys, s.entries.Keys) && Enumerates(ids, s.handles.Keys)
    ensures forall r <- Snapshot(Replay(log).value, keys, ids) :: r in log
  {
    var s := Replay(log).value;
    ReplayRecorded(log);
    EntriesFromLog(s, log, keys);
    HandlesFromLog(s, log, ids);
  }
}
