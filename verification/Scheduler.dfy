/** The executor's live state: what runs, what waits, what was refused, over one journal.
    The service's answers, the lease and process outcomes are arbitrary. */
module Scheduler {
  import opened Wrappers
  import opened Ledger
  import opened Protocol
  import opened JournalFile
  import opened ProcessRegistry

  datatype Op = Op(
    run: string, call: string, epoch: int, generation: string, computeExecute: bool,
    digest: Digest, kind: Method, request: Request)

  datatype Submitted = Recorded | Refused
  datatype Answer = Settled(submitted: Submitted) | Transient | Permanent
  datatype Served = Busy | Idle
  datatype Flight = Flight(op: Op, pending: Pending)

  const MAX_IN_FLIGHT: nat := 4
  const MAX_REFUSALS: nat := 3

  function OperationKey(op: Op): Key {
    KeyOf(op.run, op.call)
  }

  ghost predicate SharedKey(r: string, c: string, s: string, d: string) {
    c != "" && d != "" && (r, c) != (s, d) && KeyOf(r, c) == KeyOf(s, d)
  }

  /** Calls of two runs can share a key, and with it one journal entry, if and only if one run id is
      the other's followed by a slash and more. */
  lemma KeysCollide(r: string, s: string)
    ensures (exists c, d :: SharedKey(r, c, s, d)) <==> r + "/" <= s || s + "/" <= r
  {
    if c, d :| SharedKey(r, c, s, d) {
      SharedKeyNests(r, c, s, d);
    }
    if r + "/" <= s {
      NestedRunsShare(r, s);
    } else if s + "/" <= r {
      NestedRunsShare(s, r);
      assert SharedKey(r, "x", s, r[|s| + 1..] + "/x");
    }
  }

  lemma SharedKeyNests(r: string, c: string, s: string, d: string)
    requires SharedKey(r, c, s, d)
    ensures r + "/" <= s || s + "/" <= r
  {
    var whole := r + "/" + c;
    assert whole[..|r| + 1] == r + "/" && whole[..|s| + 1] == s + "/";
    assert whole[..|r|] == r && whole[..|s|] == s;
    assert c == whole[|r| + 1..] && d == whole[|s| + 1..];
    if |r| < |s| {
      assert whole[..|s|][..|r| + 1] == whole[..|r| + 1];
    } else if |s| < |r| {
      assert whole[..|r|][..|s| + 1] == whole[..|s| + 1];
    }
  }

  lemma NestedRunsShare(r: string, s: string)
    requires r + "/" <= s
    ensures SharedKey(r, s[|r| + 1..] + "/x", s, "x")
  {
    assert s == r + "/" + s[|r| + 1..];
    assert r + "/" + (s[|r| + 1..] + "/x") == s + "/" + "x";
  }

  function Keys(ops: seq<Op>): set<Key> {
    set op | op in ops :: OperationKey(op)
  }

  ghost predicate DistinctKeys(ops: seq<Op>) {
    forall i, j :: 0 <= i < j < |ops| ==> OperationKey(ops[i]) != OperationKey(ops[j])
  }

  predicate ValidOperation(op: Op, b: Binding) {
    && op.epoch == b.epoch && op.generation == b.generation
    && op.computeExecute && op.digest != "" && op.run != "" && op.call != ""
  }

  function MakeReceipt(op: Op, ok: bool, payload: string): Receipt {
    Receipt(op.run, op.call, op.digest, ok, if ok then payload else "native task IO failed")
  }

  ghost predicate ReceiptFor(op: Op, v: Receipt) {
    v.run == op.run && v.call == op.call && v.digest == op.digest
  }

  /** How many times in a row the newest answers for `k` were refusals. */
  function Streak(settled: seq<(Key, Submitted)>, k: Key): nat {
    if settled == [] then 0
    else
      var init, last := settled[..|settled| - 1], settled[|settled| - 1];
      if last.0 != k then Streak(init, k)
      else if last.1.Recorded? then 0
      else Streak(init, k) + 1
  }

  /** What an operation adds to the settled answers: its receipt's fate, if it was delivered. */
  function Reply(k: Key, s: Option<Submitted>): seq<(Key, Submitted)> {
    if s.Some? then [(k, s.value)] else []
  }

  /** A receipt was delivered once, and once more for the repeat that joined unless it was refused. */
  ghost predicate Replied(
    before: seq<(Key, Submitted)>, after: seq<(Key, Submitted)>, k: Key, joined: bool, last: Submitted)
  {
    exists first: Submitted ::
      && after == before + [(k, first)] + (if joined && first.Recorded? then [(k, last)] else [])
      && (!(joined && first.Recorded?) ==> last == first)
  }

  predicate AnyRecorded(news: seq<(Key, Submitted)>) {
    exists n :: n in news && n.1.Recorded?
  }

  predicate AnyRefused(news: seq<(Key, Submitted)>) {
    exists n :: n in news && n.1.Refused?
  }

  lemma NothingNew()
    ensures !AnyRecorded([]) && !AnyRefused([])
  {
  }

  lemma MoreNews(news: seq<(Key, Submitted)>, k: Key, s: Option<Submitted>)
    ensures AnyRecorded(news + Reply(k, s)) <==> AnyRecorded(news) || s == Some(Recorded)
    ensures AnyRefused(news + Reply(k, s)) <==> AnyRefused(news) || s == Some(Refused)
  {
    if s.Some? {
      assert forall n :: n in news + Reply(k, s) <==> n in news || n == (k, s.value);
      assert (k, s.value) in news + Reply(k, s);
    } else {
      assert news + Reply(k, s) == news;
    }
  }

  lemma KeysGrow(a: seq<Op>, b: seq<Op>)
    requires a <= b
    ensures Keys(a) <= Keys(b)
  {
    assert forall op <- a :: op in b;
  }

  /** The turn moves on at once: something was recorded and nothing refused. */
  predicate Moves(news: seq<(Key, Submitted)>) {
    AnyRecorded(news) && !AnyRefused(news)
  }

  /** `later` is what is left of `queued` once some were taken from its front. */
  ghost predicate Behind(later: seq<Op>, queued: seq<Op>) {
    |later| <= |queued| && later == queued[|queued| - |later|..]
  }

  lemma BehindItself(queued: seq<Op>)
    ensures Behind(queued, queued)
  {
  }

  lemma BehindNext(later: seq<Op>, queued: seq<Op>)
    requires Behind(later, queued) && later != []
    ensures Behind(later[1..], queued)
  {
  }

  /** Running operations are exactly the begun effects whose receipt is missing, `ready` the intents
      journaled and about to begin. No intent or receipt slipped past memory: that ends the run. */
  ghost predicate Slots(running: map<Key, bool>, inflight: map<Key, Flight>, p: Process, ready: set<Key>) {
    && p.ready == ready
    && running.Keys == inflight.Keys == p.running
    && ready !! running.Keys
    && ready + running.Keys == Uncertain(p.state)
    && p.owed.intents == map[] && p.owed.receipts == map[]
    && (forall k <- inflight :: OperationKey(inflight[k].op) == k)
    && |running| <= MAX_IN_FLIGHT
  }

  /** Waiting operations are distinct and none of them is running. */
  ghost predicate Line(queued: seq<Op>, taken: set<Key>) {
    DistinctKeys(queued) && Keys(queued) !! taken
  }

  function Acked(entries: map<Key, Entry>, k: Key): map<Key, Entry>
    requires k in entries
  {
    entries[k := entries[k].(acknowledged := true)]
  }

  function Refusals(refusals: map<Key, nat>, k: Key): nat {
    if k in refusals then refusals[k] else 0
  }

  ghost predicate Streaks(refusals: map<Key, nat>, settled: seq<(Key, Submitted)>) {
    forall k :: Streak(settled, k) == Refusals(refusals, k) < MAX_REFUSALS
  }

  lemma StreakSnoc(settled: seq<(Key, Submitted)>, k: Key, s: Submitted, x: Key)
    ensures Streak(settled + [(k, s)], x) ==
            if x != k then Streak(settled, x) else if s.Recorded? then 0 else Streak(settled, k) + 1
  {
    assert (settled + [(k, s)])[..|settled|] == settled;
  }

  lemma SettleStreaks(refusals: map<Key, nat>, settled: seq<(Key, Submitted)>, k: Key, s: Submitted)
    requires Streaks(refusals, settled)
    ensures Streak(settled + [(k, s)], k) == if s.Recorded? then 0 else Refusals(refusals, k) + 1
    ensures s.Recorded? ==> Streaks(refusals - {k}, settled + [(k, s)])
    ensures s.Refused? && Refusals(refusals, k) + 1 < MAX_REFUSALS ==>
              Streaks(refusals[k := Refusals(refusals, k) + 1], settled + [(k, s)])
  {
    hide Streak;
    StreakSnoc(settled, k, s, k);
    forall x ensures Streak(settled + [(k, s)], x) ==
                     if x != k then Streak(settled, x) else if s.Recorded? then 0 else Streak(settled, k) + 1
    {
      StreakSnoc(settled, k, s, x);
    }
  }

  lemma SlotsMeaning(running: map<Key, bool>, inflight: map<Key, Flight>, p: Process, ready: set<Key>)
    requires Slots(running, inflight, p, ready)
    ensures p.ready == ready && running.Keys == p.running && ready + running.Keys == Uncertain(p.state)
    ensures running.Keys == inflight.Keys && |running| <= MAX_IN_FLIGHT
    ensures p.owed.intents == map[] && p.owed.receipts == map[]
  {
  }

  /** With nothing about to begin, an operation that is not running has no effect in doubt. */
  lemma NotUncertain(running: map<Key, bool>, inflight: map<Key, Flight>, p: Process, k: Key)
    requires Slots(running, inflight, p, {}) && k !in running
    ensures k !in Uncertain(p.state)
  {
    assert {} + running.Keys == running.Keys;
  }

  lemma LineTaken(queued: seq<Op>, running: map<Key, bool>, k: Key, v: bool)
    requires Line(queued, running.Keys) && k !in Keys(queued)
    ensures Line(queued, running[k := v].Keys)
  {
    assert running[k := v].Keys == running.Keys + {k};
  }

  lemma LineReleased(queued: seq<Op>, running: map<Key, bool>, k: Key)
    requires Line(queued, running.Keys)
    ensures Line(queued, (running - {k}).Keys)
  {
    assert (running - {k}).Keys <= running.Keys;
  }

  lemma JoinSlots(running: map<Key, bool>, inflight: map<Key, Flight>, p: Process, k: Key)
    requires Slots(running, inflight, p, {}) && k in running
    ensures Slots(running[k := true], inflight, p, {})
    ensures running[k := true].Keys == running.Keys && |running[k := true]| == |running|
  {
    assert running[k := true].Keys == running.Keys;
    assert |running[k := true].Keys| == |running.Keys|;
  }

  lemma IntentUncertain(st: State, k: Key, q: Digest)
    requires k !in st.entries
    ensures Uncertain(SetEntry(st, k, Entry(q, None, false))) == {k} + Uncertain(st)
  {
  }

  lemma IntentSlots(running: map<Key, bool>, inflight: map<Key, Flight>, s: Sys, k: Key, q: Digest)
    requires s.process.Some? && Slots(running, inflight, s.process.value, {})
    requires k !in running && k !in s.process.value.state.entries
    ensures Slots(running, inflight, AfterWrite(s, Intent(k, q)).process.value, {k})
  {
    var p, n := s.process.value, AfterWrite(s, Intent(k, q)).process.value;
    IntentUncertain(p.state, k, q);
    assert n.ready == {k} && n.running == p.running;
    assert {} + running.Keys == running.Keys && {} + {k} == {k};
    hide Append, Live, Uncertain, SetEntry;
  }

  lemma GrowMap<V>(m: map<Key, V>, k: Key, v: V)
    requires k !in m
    ensures m[k := v].Keys == m.Keys + {k} && |m[k := v]| == |m| + 1
  {
    assert |m[k := v].Keys| == |m.Keys + {k}|;
  }

  lemma ShrinkMap<V>(m: map<Key, V>, k: Key)
    requires k in m
    ensures (m - {k}).Keys == m.Keys - {k} && |m - {k}| == |m| - 1
  {
    assert |(m - {k}).Keys| == |m.Keys - {k}|;
  }

  lemma BeginSlots(running: map<Key, bool>, inflight: map<Key, Flight>, s: Sys, k: Key, op: Op, pending: Pending)
    requires s.process.Some? && Slots(running, inflight, s.process.value, {k})
    requires |running| < MAX_IN_FLIGHT && OperationKey(op) == k
    ensures Slots(running[k := false], inflight[k := Flight(op, pending)], AfterBegin(s, k).process.value, {})
    ensures running[k := false].Keys == running.Keys + {k} && |running[k := false]| == |running| + 1
  {
    GrowMap(running, k, false);
    GrowMap(inflight, k, Flight(op, pending));
    assert {} + (running.Keys + {k}) == {k} + running.Keys;
  }

  lemma HandlesSlots(running: map<Key, bool>, inflight: map<Key, Flight>, before: Sys, after: Sys, ready: set<Key>)
    requires OnlyHandles(before, after)
    requires Slots(running, inflight, before.process.value, ready)
    ensures Slots(running, inflight, after.process.value, ready)
  {
    assert Uncertain(before.process.value.state) == Uncertain(after.process.value.state);
    hide Uncertain;
  }

  lemma ReceiptUncertain(st: State, k: Key, v: Receipt)
    requires k in st.entries
    ensures Uncertain(SetEntry(st, k, st.entries[k].(receipt := Some(v)))) == Uncertain(st) - {k}
  {
  }

  lemma ReceiptSlots(running: map<Key, bool>, inflight: map<Key, Flight>, s: Sys, k: Key, v: Receipt)
    requires s.process.Some? && Slots(running, inflight, s.process.value, {})
    requires k in running && k in s.process.value.state.entries
    ensures Slots(running - {k}, inflight - {k}, AfterWrite(s, Receipted(k, v)).process.value, {})
    ensures |running - {k}| == |running| - 1
  {
    ReceiptUncertain(s.process.value.state, k, v);
    ShrinkMap(running, k);
    ShrinkMap(inflight, k);
    assert {} + (running.Keys - {k}) == {} + running.Keys - {k};
    hide Append, Live, Uncertain, SetEntry;
  }

  lemma DeliveriesSlots(running: map<Key, bool>, inflight: map<Key, Flight>, before: Sys, after: Sys)
    requires OnlyDeliveries(before, after)
    requires Slots(running, inflight, before.process.value, {})
    ensures Slots(running, inflight, after.process.value, {})
  {
    DeliveriesMeaning(before, after);
    hide Uncertain;
  }

  lemma LineGrows(queued: seq<Op>, taken: set<Key>, op: Op)
    requires Line(queued, taken) && OperationKey(op) !in Keys(queued) && OperationKey(op) !in taken
    ensures Line(queued + [op], taken) && Keys(queued + [op]) == Keys(queued) + {OperationKey(op)}
  {
    assert forall x <- queued :: OperationKey(x) in Keys(queued);
  }

  lemma LineShrinks(queued: seq<Op>, taken: set<Key>)
    requires Line(queued, taken) && queued != []
    ensures Line(queued[1..], taken) && Keys(queued) == Keys(queued[1..]) + {OperationKey(queued[0])}
    ensures OperationKey(queued[0]) !in Keys(queued[1..]) && OperationKey(queued[0]) !in taken
  {
    assert queued == [queued[0]] + queued[1..];
    assert OperationKey(queued[0]) in Keys(queued);
  }

  class Work {
    const journal: Journal
    const processes: Processes
    var running: map<Key, bool>
    var queued: seq<Op>
    var inflight: map<Key, Flight>
    var refusals: map<Key, nat>
    ghost var settled: seq<(Key, Submitted)>

    /** The process is alive and knows every process its journal calls running. */
    ghost predicate Standing()
      reads journal, processes
    {
      journal.Valid() && processes.Accounts(journal)
    }

    /** Everything that holds once the intents of `ready` are journaled and not yet begun. */
    ghost predicate Base(ready: set<Key>)
      reads this, journal, processes
    {
      && Standing()
      && Slots(running, inflight, journal.sys.process.value, ready)
      && Line(queued, running.Keys)
      && Streaks(refusals, settled)
    }

    /** Everything that holds even while free slots are being refilled. */
    ghost predicate Core()
      reads this, journal, processes
    {
      Base({})
    }

    /** Between steps, operations wait only while every slot is taken. */
    ghost predicate Valid()
      reads this, journal, processes
    {
      Core() && (queued != [] ==> |running| == MAX_IN_FLIGHT)
    }

    /** In hand: journaled, or waiting for a slot. */
    ghost predicate InHand(k: Key)
      reads this, journal
    {
      k in journal.entries || k in Keys(queued)
    }

    constructor (journal: Journal, processes: Processes)
      requires journal.Valid() && processes.Accounts(journal)
      requires journal.sys.process.value.ready == {} && journal.sys.process.value.running == {}
      requires journal.sys.process.value.owed.intents == map[] && journal.sys.process.value.owed.receipts == map[]
      requires Uncertain(journal.Memory()) == {}
      ensures this.journal == journal && this.processes == processes
      ensures Valid() && running == map[] && queued == []
    {
      this.journal, this.processes := journal, processes;
      running, queued, inflight, refusals := map[], [], map[], map[];
      settled := [];
    }

    /** A refusal the service repeats without ever recording the receipt ends the run. */
    method Settle(key: Key, submitted: Submitted) returns (res: Outcome<()>)
      requires Core()
      modifies this`refusals, this`settled
      ensures settled == old(settled) + [(key, submitted)]
      ensures res.Success? ==> Core()
      ensures res.Failure? <==> Streak(settled, key) >= MAX_REFUSALS
      ensures res.Failure? ==> res.error == DeliveryFailed
    {
      hide Slots, Line, Streaks, Streak, AccountedFor, Reachable, FileHolds;
      SettleStreaks(refusals, settled, key, submitted);
      settled := settled + [(key, submitted)];
      if submitted.Recorded? {
        refusals := refusals - {key};
        return Success(());
      }
      var count := Refusals(refusals, key) + 1;
      refusals := refusals[key := count];
      if count >= MAX_REFUSALS {
        return Failure(DeliveryFailed);
      }
      return Success(());
    }

    /** Send one durable receipt until the service settles it or the lease runs out. However that ends,
        it was sent as journaled and is acknowledged exactly on success. */
    method DeliverReceipt(key: Key) returns (res: Outcome<Submitted>)
      requires Standing() && key in journal.entries && journal.entries[key].receipt.Some?
      modifies journal`entries, journal`stream, journal`sys
      ensures journal.Sane() && (res == Failure(Crashed) || Standing())
      ensures res != Failure(Crashed) ==> Delivered(key, old(journal.sys), old(journal.entries))
      ensures journal.entries == if res.Success? then Acked(old(journal.entries), key) else old(journal.entries)
      ensures res.Failure? ==> res.error != UncertainEffect
    {
      hide Reachable, FileHolds, AccountedFor, OnlyDeliveries;
      var patience: int := *;
      AckOnly(journal.sys, key, journal.sys);
      while true
        invariant Standing() && journal.entries == old(journal.entries)
        invariant OnlyDeliveries(old(journal.sys), journal.sys)
        decreases patience
      {
        SubmitReceipt(key, old(journal.sys));
        var answer: Answer := *;
        match answer {
          case Settled(submitted) =>
            ghost var sent := journal.sys;
            var acked := Acknowledge(key);
            if acked == Failure(Crashed) {
              return Failure(Crashed);
            }
            DeliveriesThenMore(old(journal.sys), sent, journal.sys);
            return if acked.Success? then Success(submitted) else Failure(acked.error);
          case Transient =>
            if patience <= 0 {
              return Failure(LeaseExpired);
            }
            patience := patience - 1;
          case Permanent =>
            return Failure(DeliveryFailed);
        }
      }
    }

    /** The receipt was sent as journaled, and nothing else happened but deliveries. */
    ghost predicate Delivered(key: Key, before: Sys, entries: map<Key, Entry>)
      requires key in entries && entries[key].receipt.Some?
      reads journal
    {
      OnlyDeliveries(before, journal.sys) && Event.Submitted(key, entries[key].receipt.value) in journal.sys.trace
    }

    ghost method SubmitReceipt(key: Key, since: Sys)
      requires Standing() && key in journal.entries && journal.entries[key].receipt.Some?
      requires OnlyDeliveries(since, journal.sys)
      modifies journal`sys
      ensures Standing() && OnlyDeliveries(since, journal.sys)
      ensures Event.Submitted(key, journal.entries[key].receipt.value) in journal.sys.trace
    {
      hide Reachable, FileHolds, AccountedFor, OnlyDeliveries, AfterSubmit;
      journal.MarkSubmitted(key);
      SubmitOnly(old(journal.sys), key, journal.entries[key].receipt.value);
      DeliveriesMeaning(old(journal.sys), journal.sys);
      DeliveriesThenMore(since, old(journal.sys), journal.sys);
    }

    method Acknowledge(key: Key) returns (res: Outcome<()>)
      requires Standing() && key in journal.entries && journal.entries[key].receipt.Some?
      requires Event.Submitted(key, journal.entries[key].receipt.value) in journal.sys.trace
      modifies journal`entries, journal`stream, journal`sys
      ensures journal.Sane() && (res == Failure(Crashed) || Standing())
      ensures res != Failure(Crashed) ==>
                OnlyDeliveries(old(journal.sys), journal.sys) && old(journal.sys).trace <= journal.sys.trace
      ensures journal.entries == if res.Success? then Acked(old(journal.entries), key) else old(journal.entries)
      ensures res.Failure? ==> res.error != UncertainEffect
    {
      hide Reachable, FileHolds, AccountedFor, OnlyDeliveries, AfterWrite, AfterSlip;
      res := journal.LogAck(key);
      if res != Failure(Crashed) {
        AckOnly(old(journal.sys), key, journal.sys);
        DeliveriesMeaning(old(journal.sys), journal.sys);
      }
    }

    /** Deliver a durable receipt on the channel when there is one, over HTTP otherwise. */
    method Deliver(key: Key, channel: bool) returns (res: Outcome<Submitted>)
      requires Core() && key in journal.entries && journal.entries[key].receipt.Some?
      modifies journal`entries, journal`stream, journal`sys, this`refusals, this`settled
      ensures journal.Sane() && (res == Failure(Crashed) || Standing())
      ensures res.Success? ==> Core() && settled == old(settled) + [(key, res.value)]
      ensures res != Failure(Crashed) ==> Delivered(key, old(journal.sys), old(journal.entries))
      ensures journal.entries == old(journal.entries) || journal.entries == Acked(old(journal.entries), key)
      ensures res.Success? ==> journal.entries == Acked(old(journal.entries), key)
      ensures res.Failure? ==> res.error != UncertainEffect
    {
      hide Slots, Line, Streaks, AccountedFor, Reachable, FileHolds, OnlyDeliveries;
      var submitted :- Send(key, channel);
      DeliveriesSlots(running, inflight, old(journal.sys), journal.sys);
      var _ :- Settle(key, submitted);
      return Success(submitted);
    }

    method Send(key: Key, channel: bool) returns (res: Outcome<Submitted>)
      requires Standing() && key in journal.entries && journal.entries[key].receipt.Some?
      modifies journal`entries, journal`stream, journal`sys
      ensures journal.Sane() && (res == Failure(Crashed) || Standing())
      ensures res != Failure(Crashed) ==> Delivered(key, old(journal.sys), old(journal.entries))
      ensures journal.entries == if res.Success? then Acked(old(journal.entries), key) else old(journal.entries)
      ensures res.Failure? ==> res.error != UncertainEffect
    {
      hide Reachable, FileHolds, AccountedFor, OnlyDeliveries;
      AckOnly(journal.sys, key, journal.sys);
      if channel {
        SubmitReceipt(key, journal.sys);
        ghost var sent := journal.sys;
        var accepted: bool := *;
        if accepted {
          var acked := Acknowledge(key);
          if acked == Failure(Crashed) {
            return Failure(Crashed);
          }
          DeliveriesThenMore(old(journal.sys), sent, journal.sys);
          return if acked.Success? then Success(Recorded) else Failure(acked.error);
        }
        res := DeliverReceipt(key);
        if res != Failure(Crashed) {
          DeliveriesThenMore(old(journal.sys), sent, journal.sys);
        }
        return;
      }
      res := DeliverReceipt(key);
    }

    /** Whether the operation may start now. A repeat of a running operation joins it; one beyond
        the bound waits in hand. */
    method Admit(op: Op, key: Key) returns (start: bool)
      requires Core() && key == OperationKey(op)
      modifies this`running, this`queued
      ensures Core()
      ensures start <==> key !in old(running) && old(|running|) < MAX_IN_FLIGHT
      ensures running == if key in old(running) then old(running)[key := true] else old(running)
      ensures running.Keys == old(running).Keys && |running| == old(|running|)
      ensures queued == if start || key in old(running) || key in Keys(old(queued)) then old(queued)
                        else old(queued) + [op]
    {
      hide Slots, Line, Streaks, AccountedFor, Reachable, FileHolds;
      if key in running {
        JoinSlots(running, inflight, journal.sys.process.value, key);
        running := running[key := true];
        return false;
      }
      if |running| < MAX_IN_FLIGHT {
        return true;
      }
      Enqueue(op, key);
      return false;
    }

    method Enqueue(op: Op, key: Key)
      requires key == OperationKey(op) && key !in running && Line(queued, running.Keys)
      modifies this`queued
      ensures Line(queued, running.Keys)
      ensures queued == if key in Keys(old(queued)) then old(queued) else old(queued) + [op]
    {
      if !exists i :: 0 <= i < |queued| && OperationKey(queued[i]) == key {
        assert key !in Keys(queued);
        LineGrows(queued, running.Keys, op);
        queued := queued + [op];
      } else {
        assert key in Keys(queued);
      }
    }

    /** Apply the immediate effects of an operation whose intent is durable. */
    method BeginEffects(op: Op, key: Key) returns (res: Outcome<Pending>)
      requires Base({key}) && key == OperationKey(op) && |running| < MAX_IN_FLIGHT
      modifies processes`jobs, journal`handles, journal`stream, journal`sys
      ensures journal.Sane() && (res == Failure(Crashed) || Standing())
      ensures res.Success? ==>
                Slots(running[key := false], inflight[key := Flight(op, res.value)], journal.sys.process.value, {})
      ensures res.Failure? ==> res.error == Crashed
    {
      hide Slots, Line, Streaks, AccountedFor, Reachable, FileHolds, OnlyHandles;
      SlotsMeaning(running, inflight, journal.sys.process.value, {key});
      journal.MarkBegun(key);
      ghost var begun := journal.sys;
      var pending :- processes.Begin(journal, op.kind, key);
      BeginSlots(running, inflight, old(journal.sys), key, op, pending);
      HandlesSlots(running[key := false], inflight[key := Flight(op, pending)], begun, journal.sys, {});
      return Success(pending);
    }

    /** Begin an operation and remember it as running. */
    method Start(op: Op, key: Key) returns (res: Outcome<()>)
      requires Base({key}) && key == OperationKey(op)
      requires |running| < MAX_IN_FLIGHT && key !in Keys(queued) && key !in running
      modifies processes`jobs, journal`handles, journal`stream, journal`sys, this`running, this`inflight
      ensures journal.Sane() && (res == Failure(Crashed) || Standing())
      ensures res.Success? ==>
                && Core() && running == old(running)[key := false]
                && |running| == old(|running|) + 1
      ensures res.Failure? ==> res.error == Crashed
    {
      hide Slots, Line, Streaks, AccountedFor, Reachable, FileHolds;
      LineTaken(queued, running, key, false);
      GrowMap(running, key, false);
      var pending :- BeginEffects(op, key);
      running := running[key := false];
      inflight := inflight[key := Flight(op, pending)];
      return Success(());
    }

    /** Journal the intent of an operation with a free slot, or find its receipt. Within a run this
        never meets an effect whose outcome is uncertain. */
    method Intend(op: Op, key: Key) returns (res: Outcome<Option<Receipt>>)
      requires Standing() && key !in running
      requires Slots(running, inflight, journal.sys.process.value, {})
      modifies journal`entries, journal`stream, journal`sys
      ensures journal.Sane() && (res == Failure(Crashed) || Standing())
      ensures res.Failure? ==> journal.entries == old(journal.entries)
      ensures res == Success(None) ==>
                && Slots(running, inflight, journal.sys.process.value, {key})
                && key !in old(journal.entries)
                && journal.entries.Keys == old(journal.entries).Keys + {key}
      ensures res.Success? && res.value.Some? ==>
                && journal.sys == old(journal.sys) && journal.entries == old(journal.entries)
                && key in journal.entries && journal.entries[key].receipt == res.value
                && journal.entries[key].request == journal.serde.digest(op.request)
      ensures res.Failure? ==> res.error != UncertainEffect
    {
      hide Slots, Reachable, FileHolds, AccountedFor;
      SlotsMeaning(running, inflight, journal.sys.process.value, {});
      NotUncertain(running, inflight, journal.sys.process.value, key);
      res := journal.LogIntent(key, op.request);
      if res == Success(None) {
        IntentSlots(running, inflight, old(journal.sys), key, journal.serde.digest(op.request));
      }
    }

    /** Start an operation with a free slot, or answer it from the journal. */
    method Launch(op: Op, key: Key, channel: bool) returns (res: Outcome<Option<Submitted>>)
      requires Core() && key == OperationKey(op)
      requires |running| < MAX_IN_FLIGHT && key !in running && key !in Keys(queued)
      modifies this`running, this`inflight, this`refusals, this`settled
      modifies processes`jobs, journal`entries, journal`handles, journal`stream, journal`sys
      ensures journal.Sane() && (res == Failure(Crashed) || Standing())
      ensures res.Success? ==> Core() && key in journal.entries
      ensures res.Success? ==> old(journal.entries).Keys <= journal.entries.Keys
      ensures res == Success(None) ==> running == old(running)[key := false] && |running| == old(|running|) + 1
      ensures res.Success? ==> (res.value.Some? <==> key in old(journal.entries))
      ensures res.Success? ==> settled == old(settled) + Reply(key, res.value)
      ensures res.Success? && res.value.Some? ==>
                && running == old(running) && journal.entries[key].receipt.Some?
                && journal.entries[key].request == journal.serde.digest(op.request)
      ensures res.Failure? ==> res.error != UncertainEffect
    {
      hide Slots, Line, Streaks, AccountedFor, Reachable, FileHolds;
      var answer :- Intend(op, key);
      if answer.None? {
        var _ :- Start(op, key);
        return Success(None);
      }
      var submitted :- Deliver(key, channel);
      return Success(Some(submitted));
    }

    /** Start an operation, join it while it runs, let it wait, or answer it from the journal. */
    method Dispatch(op: Op, channel: bool) returns (res: Outcome<Option<Submitted>>)
      requires Core()
      requires |running| < MAX_IN_FLIGHT ==> OperationKey(op) !in Keys(queued)
      modifies this`running, this`queued, this`inflight, this`refusals, this`settled
      modifies processes`jobs, journal`entries, journal`handles, journal`stream, journal`sys
      ensures journal.Sane() && (res == Failure(Crashed) || Standing())
      ensures res.Success? ==> Core() && ValidOperation(op, journal.binding)
      ensures res.Success? ==> old(journal.entries).Keys <= journal.entries.Keys
      ensures res.Success? ==> settled == old(settled) + Reply(OperationKey(op), res.value)
      ensures res.Success? ==> var key := OperationKey(op);
                if key in old(running) then
                  // joined
                  running == old(running)[key := true] && |running| == old(|running|)
                  && queued == old(queued) && res.value.None?
                else if old(|running|) == MAX_IN_FLIGHT then
                  // waits, once
                  running == old(running) && res.value.None?
                  && queued == if key in Keys(old(queued)) then old(queued) else old(queued) + [op]
                else if key in old(journal.entries) then
                  // answered from the journal
                  running == old(running) && queued == old(queued) && res.value.Some?
                else
                  // begun
                  running == old(running)[key := false] && |running| == old(|running|) + 1
                  && queued == old(queued) && res.value.None?
      ensures res.Success? ==> InHand(OperationKey(op))
      ensures res.Success? && res.value.Some? ==>
                && OperationKey(op) in journal.entries && journal.entries[OperationKey(op)].receipt.Some?
                && journal.entries[OperationKey(op)].request == journal.serde.digest(op.request)
      ensures res.Failure? ==> res.error != UncertainEffect
    {
      hide Slots, Line, Streaks, AccountedFor, Reachable, FileHolds;
      SlotsMeaning(running, inflight, journal.sys.process.value, {});
      var lease: bool := *;
      if !lease {
        return Failure(LeaseExpired);
      }
      if !ValidOperation(op, journal.binding) {
        return Failure(BadOperation);
      }
      var key := OperationKey(op);
      var start := Admit(op, key);
      if !start {
        return Success(None);
      }
      res := Launch(op, key, channel);
    }

    /** Complete an operation's effects against the registry. An operation that failed after spawning
        a process is not completed: its outcome is uncertain. */
    method FinishEffects(key: Key) returns (res: Outcome<bool>)
      requires Core() && key in inflight
      modifies processes`jobs, journal`handles, journal`stream, journal`sys
      ensures journal.Sane() && (res == Failure(Crashed) || Standing())
      ensures res.Success? ==> Core()
      ensures res == Success(false) ==>
                forall id <- processes.jobs :: processes.jobs[id].state.operation != Some(key)
      ensures res.Failure? ==> res.error in {Crashed, ObservationFailed}
    {
      hide Slots, Line, Streaks, AccountedFor, Reachable, FileHolds, OnlyHandles;
      var ok :- processes.Finish(journal, inflight[key].pending);
      HandlesSlots(running, inflight, old(journal.sys), journal.sys, {});
      if !ok {
        var owns := processes.OwnsOperation(key);
        if owns {
          return Failure(ObservationFailed);
        }
      }
      return Success(ok);
    }

    /** Make the receipt of a finished operation durable. */
    method Record(key: Key, expired: bool) returns (res: Outcome<Receipt>)
      requires Core() && key in inflight
      modifies processes`jobs, journal`entries, journal`handles, journal`stream, journal`sys
      ensures journal.Sane() && (res == Failure(Crashed) || Standing())
      ensures res.Success? ==> Slots(running - {key}, inflight - {key}, journal.sys.process.value, {})
      ensures res.Success? ==>
                && key in old(journal.entries) && journal.entries.Keys == old(journal.entries).Keys
                && journal.entries[key].receipt == Some(res.value)
      ensures res.Success? ==> ReceiptFor(inflight[key].op, res.value)
      ensures res.Success? && !res.value.completed ==>
                forall id <- processes.jobs :: processes.jobs[id].state.operation != Some(key)
      ensures expired ==> res == Failure(LeaseExpired)
      ensures res.Failure? ==> res.error != UncertainEffect
    {
      hide Slots, Line, Streaks, AccountedFor, Reachable, FileHolds;
      if expired {
        return Failure(LeaseExpired);
      }
      var ok :- FinishEffects(key);
      var payload: string := *;
      var receipt := MakeReceipt(inflight[key].op, ok, payload);
      var _ :- JournalReceipt(key, receipt);
      return Success(receipt);
    }

    method JournalReceipt(key: Key, receipt: Receipt) returns (res: Outcome<()>)
      requires Core() && key in inflight
      modifies journal`entries, journal`stream, journal`sys
      ensures journal.Sane() && (res == Failure(Crashed) || Standing())
      ensures res.Failure? ==> journal.entries == old(journal.entries)
      ensures res.Success? ==> Slots(running - {key}, inflight - {key}, journal.sys.process.value, {})
      ensures res.Success? ==>
                && key in old(journal.entries) && journal.entries.Keys == old(journal.entries).Keys
                && journal.entries[key].receipt == Some(receipt)
      ensures res.Failure? ==> res.error != UncertainEffect
    {
      hide Slots, Line, Streaks, AccountedFor, Reachable, FileHolds;
      SlotsMeaning(running, inflight, journal.sys.process.value, {});
      assert key in Uncertain(journal.Memory());
      ReceiptSlots(running, inflight, journal.sys, key, receipt);
      res := journal.LogReceipt(key, receipt);
    }

    /** Forget a running operation whose receipt is durable. */
    method Release(key: Key)
      requires journal.Valid() && processes.Accounts(journal) && key in running
      requires Slots(running - {key}, inflight - {key}, journal.sys.process.value, {})
      requires Line(queued, running.Keys) && Streaks(refusals, settled)
      modifies this`running, this`inflight
      ensures Core() && running == old(running) - {key} && |running| == old(|running|) - 1
    {
      hide Slots, Line, Streaks, AccountedFor, Reachable, FileHolds;
      ShrinkMap(running, key);
      LineReleased(queued, running, key);
      running, inflight := running - {key}, inflight - {key};
    }

    /** Start waiting operations while slots are free. */
    method Refill(channel: bool) returns (res: Outcome<()>)
      requires Core()
      modifies this`running, this`queued, this`inflight, this`refusals, this`settled
      modifies processes`jobs, journal`entries, journal`handles, journal`stream, journal`sys
      ensures journal.Sane() && (res == Failure(Crashed) || Standing())
      ensures res.Success? ==> Valid() && |running| + |queued| <= old(|running| + |queued|)
      ensures res.Success? ==> old(journal.entries).Keys <= journal.entries.Keys
      ensures res.Success? ==> old(settled) <= settled && Behind(queued, old(queued))
      ensures res.Success? ==> Keys(old(queued)) <= Keys(queued) + journal.entries.Keys
      ensures res.Failure? ==> res.error != UncertainEffect
    {
      hide Slots, Line, Keys, Streaks, AccountedFor, Reachable, FileHolds, Behind, Reply;
      BehindItself(queued);
      while |running| < MAX_IN_FLIGHT && queued != []
        invariant Core() && |running| + |queued| <= old(|running| + |queued|)
        invariant old(journal.entries).Keys <= journal.entries.Keys
        invariant old(settled) <= settled && Behind(queued, old(queued))
        invariant Keys(old(queued)) <= Keys(queued) + journal.entries.Keys
        decreases |queued|
      {
        LineShrinks(queued, running.Keys);
        BehindNext(queued, old(queued));
        var op := queued[0];
        queued := queued[1..];
        var _ :- Dispatch(op, channel);
      }
      SlotsMeaning(running, inflight, journal.sys.process.value, {});
      return Success(());
    }

    /** Journal a finished operation's receipt and free its slot; whether a repeat had joined it. */
    method Retire(key: Key, expired: bool) returns (res: Outcome<bool>)
      requires Core() && key in inflight
      modifies this`running, this`inflight
      modifies processes`jobs, journal`entries, journal`handles, journal`stream, journal`sys
      ensures journal.Sane() && (res == Failure(Crashed) || Standing())
      ensures res.Success? ==> Core() && running == old(running) - {key} && |running| == old(|running|) - 1
      ensures res.Failure? ==> running == old(running) && inflight == old(inflight)
      ensures res.Success? ==> key in old(running) && res.value == old(running)[key]
      ensures res.Success? ==>
                && journal.entries.Keys == old(journal.entries).Keys
                && key in journal.entries && journal.entries[key].receipt.Some?
      ensures res.Failure? ==> res.error != UncertainEffect
    {
      hide Slots, Line, Streaks, AccountedFor, Reachable, FileHolds;
      SlotsMeaning(running, inflight, journal.sys.process.value, {});
      var _ :- Record(key, expired);
      var joined := running[key];
      Release(key);
      return Success(joined);
    }

    /** Deliver a receipt, and once more for the repeat that joined, unless it was refused. */
    method Answer(key: Key, joined: bool, channel: bool) returns (res: Outcome<Submitted>)
      requires Core() && key in journal.entries && journal.entries[key].receipt.Some?
      modifies journal`entries, journal`stream, journal`sys, this`refusals, this`settled
      ensures journal.Sane() && (res == Failure(Crashed) || Standing())
      ensures res.Success? ==> Core() && journal.entries.Keys == old(journal.entries).Keys
      ensures res.Success? ==> journal.entries[key].receipt == old(journal.entries)[key].receipt
      ensures res.Success? ==> Replied(old(settled), settled, key, joined, res.value)
      ensures res.Failure? ==> res.error != UncertainEffect
    {
      hide Slots, Line, Streaks, AccountedFor, Reachable, FileHolds;
      var submitted :- Deliver(key, channel);
      assert Replied(old(settled), settled, key, joined && submitted.Refused?, submitted);
      if joined && submitted.Recorded? {
        var again :- Deliver(key, channel);
        assert settled == old(settled) + [(key, submitted)] + [(key, again)];
        return Success(again);
      }
      assert settled == old(settled) + [(key, submitted)] + [];
      return Success(submitted);
    }

    /** Finish one running operation: its receipt becomes durable, then is delivered, and free slots
        are refilled from the operations in hand. None of those is dropped. */
    method Complete(key: Key, expired: bool, channel: bool) returns (res: Outcome<Submitted>)
      requires Valid() && key in inflight
      modifies this`running, this`queued, this`inflight, this`refusals, this`settled
      modifies processes`jobs, journal`entries, journal`handles, journal`stream, journal`sys
      ensures journal.Sane() && (res == Failure(Crashed) || Standing())
      ensures res.Success? ==> Valid() && |running| + |queued| < old(|running| + |queued|)
      ensures res.Success? ==> old(journal.entries).Keys <= journal.entries.Keys
      ensures res.Success? ==> Keys(old(queued)) <= Keys(queued) + journal.entries.Keys
      ensures res.Success? ==> key in journal.entries && Behind(queued, old(queued))
      ensures res.Success? ==> key in old(running) && exists mid ::
                mid <= settled && Replied(old(settled), mid, key, old(running)[key], res.value)
      ensures res.Failure? ==> res.error != UncertainEffect
    {
      hide Slots, Line, Streaks, AccountedFor, Reachable, FileHolds, Replied, Behind;
      var joined :- Retire(key, expired);
      var submitted :- Answer(key, joined, channel);
      ghost var mid := settled;
      var _ :- Refill(channel);
      assert mid <= settled && Replied(old(settled), mid, key, joined, submitted);
      return Success(submitted);
    }

    /** Finish every running operation. The sweep ends, and leaves nothing running, nothing waiting
        and no effect without its receipt. */
    method Drain() returns (res: Outcome<()>)
      requires Valid()
      modifies this`running, this`queued, this`inflight, this`refusals, this`settled
      modifies processes`jobs, journal`entries, journal`handles, journal`stream, journal`sys
      ensures journal.Sane() && (res == Failure(Crashed) || Standing())
      ensures res.Success? ==> Valid() && running == map[] && queued == [] && Uncertain(journal.Memory()) == {}
      ensures res.Success? ==> old(journal.entries).Keys + Keys(old(queued)) <= journal.entries.Keys
      ensures res.Failure? ==> res.error != UncertainEffect
    {
      hide Slots, Line, Streaks, AccountedFor, Reachable, FileHolds;
      while inflight.Keys != {}
        invariant Valid()
        invariant old(journal.entries).Keys <= journal.entries.Keys
        invariant Keys(old(queued)) <= Keys(queued) + journal.entries.Keys
        decreases |running| + |queued|
      {
        var key :| key in inflight;
        var expired: bool := *;
        var _ :- Complete(key, expired, false);
      }
      SlotsMeaning(running, inflight, journal.sys.process.value, {});
      assert running == map[] && |running| == 0;
      return Success(());
    }

    /** Dispatch one operation of a page. Nothing already in hand is let go. */
    method DispatchNext(op: Op, channel: bool) returns (res: Outcome<Option<Submitted>>)
      requires Valid()
      modifies this`running, this`queued, this`inflight, this`refusals, this`settled
      modifies processes`jobs, journal`entries, journal`handles, journal`stream, journal`sys
      ensures journal.Sane() && (res == Failure(Crashed) || Standing())
      ensures res.Success? ==> Valid() && InHand(OperationKey(op)) && ValidOperation(op, journal.binding)
      ensures res.Success? ==> old(journal.entries).Keys <= journal.entries.Keys && Keys(old(queued)) <= Keys(queued)
      ensures res.Success? ==> settled == old(settled) + Reply(OperationKey(op), res.value)
      ensures res.Failure? ==> res.error != UncertainEffect
    {
      hide Slots, Line, Streaks, AccountedFor, Reachable, FileHolds, Reply;
      res := Dispatch(op, channel);
      if res.Success? {
        KeysGrow(old(queued), queued);
        SlotsMeaning(running, inflight, journal.sys.process.value, {});
      }
    }

    /** Serve a page: every operation on it is afterwards in hand. The turn moves on at once only
        when something was recorded and nothing refused. */
    method DispatchPage(ops: seq<Op>, channel: bool) returns (res: Outcome<Served>)
      requires Valid()
      modifies this`running, this`queued, this`inflight, this`refusals, this`settled
      modifies processes`jobs, journal`entries, journal`handles, journal`stream, journal`sys
      ensures journal.Sane() && (res == Failure(Crashed) || Standing())
      ensures res.Success? ==> Valid() && forall op <- ops :: InHand(OperationKey(op))
      ensures res.Success? ==> forall k :: old(InHand(k)) ==> InHand(k)
      ensures res.Success? ==> forall op <- ops :: ValidOperation(op, journal.binding)
      ensures ops == [] ==> res == Success(Idle)
      ensures res.Success? ==> exists news ::
                settled == old(settled) + news && (res.value.Busy? <==> Moves(news))
      ensures res.Failure? ==> res.error != UncertainEffect
    {
      hide Slots, Line, Keys, Streaks, AccountedFor, Reachable, FileHolds;
      hide AnyRecorded, AnyRefused, Reply, ValidOperation;
      NothingNew();
      ghost var news: seq<(Key, Submitted)> := [];
      assert settled == old(settled) + news;
      if ops == [] {
        return Success(Idle);
      }
      var answered, refused := false, false;
      for i := 0 to |ops|
        invariant Valid()
        invariant forall n :: 0 <= n < i ==> InHand(OperationKey(ops[n])) && ValidOperation(ops[n], journal.binding)
        invariant settled == old(settled) + news
        invariant (answered <==> AnyRecorded(news)) && (refused <==> AnyRefused(news))
        invariant Keys(old(queued)) <= Keys(queued) && old(journal.entries).Keys <= journal.entries.Keys
      {
        var submitted :- DispatchNext(ops[i], channel);
        MoreNews(news, OperationKey(ops[i]), submitted);
        news := news + Reply(OperationKey(ops[i]), submitted);
        match submitted {
          case Some(Recorded) => answered := true;
          case Some(Refused) => refused := true;
          case None =>
        }
      }
      return Success(if answered && !refused then Busy else Idle);
    }
  }
}
