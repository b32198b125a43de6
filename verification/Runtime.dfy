/** The executor's life over one journal: reconcile, serve, clean up, and say how it ended. */
module Runtime {
  import opened Wrappers
  import opened Framing
  import opened Ledger
  import opened Protocol
  import opened JournalFile
  import opened ProcessRegistry
  import opened Scheduler

  /** An operation the service says it issued to this executor. */
  datatype Issued = Issued(run: string, call: string, digest: Digest)

  function IssuedKey(i: Issued): Key {
    KeyOf(i.run, i.call)
  }

  ghost predicate Answered(entries: map<Key, Entry>, i: Issued) {
    IssuedKey(i) in entries && entries[IssuedKey(i)].receipt.Some?
  }

  /** The issued operations without a journaled receipt, or an error when a receipt answers a
      different request than the one issued. */
  method UncertainOperations(issued: seq<Issued>, journal: Journal) returns (res: Outcome<seq<Issued>>)
    ensures res.Success? ==> forall i :: i in res.value <==> i in issued && !Answered(journal.entries, i)
    ensures res.Failure? <==> exists i :: i in issued && Answered(journal.entries, i)
                                 && journal.entries[IssuedKey(i)].receipt.value.digest != i.digest
    ensures res.Failure? ==> res.error == BadOperation
  {
    var uncertain: seq<Issued> := [];
    for n := 0 to |issued|
      invariant forall i :: i in uncertain <==> i in issued[..n] && !Answered(journal.entries, i)
      invariant forall i <- issued[..n] :: Answered(journal.entries, i) ==>
                  journal.entries[IssuedKey(i)].receipt.value.digest == i.digest
    {
      var i := issued[n];
      assert issued[..n + 1] == issued[..n] + [i];
      var key := IssuedKey(i);
      if key !in journal.entries || journal.entries[key].receipt.None? {
        uncertain := uncertain + [i];
      } else if journal.entries[key].receipt.value.digest != i.digest {
        assert i in issued;
        return Failure(BadOperation);
      }
    }
    assert issued[..|issued|] == issued;
    return Success(uncertain);
  }

  /** Whether a receipt is still owed to the service: never acknowledged, or issued again. */
  predicate Outstanding(entries: map<Key, Entry>, issued: seq<Issued>, k: Key) {
    && k in entries && entries[k].receipt.Some?
    && (!entries[k].acknowledged || exists i :: i in issued && IssuedKey(i) == k)
  }

  lemma NoDeliveries(s: Sys)
    requires s.process.Some?
    ensures OnlyDeliveries(s, s)
  {
  }

  /** Submit every outstanding receipt as journaled and acknowledge it. */
  method ReplayReceipts(issued: seq<Issued>, journal: Journal) returns (res: Outcome<()>)
    requires journal.Valid()
    modifies journal`entries, journal`stream, journal`sys
    ensures journal.Sane() && (res == Failure(Crashed) <==> !journal.Valid())
    ensures res != Failure(Crashed) ==> OnlyDeliveries(old(journal.sys), journal.sys)
    ensures res.Success? ==> forall k <- journal.entries ::
              journal.entries[k].receipt.Some? ==> journal.entries[k].acknowledged
    ensures res.Success? ==> forall k <- old(journal.entries) :: Outstanding(old(journal.entries), issued, k) ==>
              Event.Submitted(k, old(journal.entries)[k].receipt.value) in journal.sys.trace
    ensures res.Failure? ==> res.error in {Crashed, Io, Replaced, TooLarge, NoIntent, DeliveryFailed}
  {
    hide Reachable, FileHolds, OnlyDeliveries;
    var pending := set k | k in journal.entries && Outstanding(journal.entries, issued, k);
    ghost var all := pending;
    NoDeliveries(journal.sys);
    while pending != {}
      invariant journal.Valid() && OnlyDeliveries(old(journal.sys), journal.sys)
      invariant pending <= all <= journal.entries.Keys == old(journal.entries).Keys
      invariant forall k <- journal.entries :: k !in all ==> journal.entries[k] == old(journal.entries)[k]
      invariant forall k <- all :: journal.entries[k].receipt == old(journal.entries)[k].receipt
      invariant forall k <- all - pending ::
                  && journal.entries[k].acknowledged
                  && Event.Submitted(k, old(journal.entries)[k].receipt.value) in journal.sys.trace
      decreases pending
    {
      var key :| key in pending;
      ghost var before := journal.sys;
      res := Resubmit(key, journal);
      if res == Failure(Crashed) {
        return;
      }
      DeliveriesThenMore(old(journal.sys), before, journal.sys);
      if res.Failure? {
        return;
      }
      pending := pending - {key};
    }
    return Success(());
  }

  method Resubmit(key: Key, journal: Journal) returns (res: Outcome<()>)
    requires journal.Valid() && key in journal.entries && journal.entries[key].receipt.Some?
    modifies journal`entries, journal`stream, journal`sys
    ensures journal.Sane() && (res == Failure(Crashed) <==> !journal.Valid())
    ensures res != Failure(Crashed) ==> OnlyDeliveries(old(journal.sys), journal.sys)
    ensures journal.entries == if res.Success? then Acked(old(journal.entries), key) else old(journal.entries)
    ensures res.Success? ==> Event.Submitted(key, journal.entries[key].receipt.value) in journal.sys.trace
    ensures res.Failure? ==> res.error in {Crashed, Io, Replaced, TooLarge, NoIntent, DeliveryFailed}
  {
    hide Reachable, FileHolds, OnlyDeliveries, AfterSubmit, AfterWrite, AfterSlip;
    journal.MarkSubmitted(key);
    ghost var sent := journal.sys;
    SubmitOnly(old(journal.sys), key, journal.entries[key].receipt.value);
    var delivered: bool := *;
    if !delivered {
      return Failure(DeliveryFailed);
    }
    res := journal.LogAck(key);
    if res != Failure(Crashed) {
      AckOnly(sent, key, journal.sys);
      DeliveriesThenMore(old(journal.sys), sent, journal.sys);
    }
  }

  /** What the service says when this executor asks where they stand. */
  datatype Standing = Standing(issued: seq<Issued>, lost: bool, transient: bool)

  /** The journal answers everything the service issued, as issued, and the answers are acknowledged. */
  ghost predicate AgreedOn(entries: map<Key, Entry>, page: Standing) {
    !page.lost && forall i <- page.issued ::
      && Answered(entries, i) && entries[IssuedKey(i)].receipt.value.digest == i.digest
      && entries[IssuedKey(i)].acknowledged
  }

  /** Agree with the service about every issued operation before any new effect. */
  method Reconcile(page: Standing, journal: Journal) returns (res: Outcome<()>)
    requires journal.Valid()
    modifies journal`entries, journal`stream, journal`sys
    ensures journal.Sane() && (res == Failure(Crashed) <==> !journal.Valid())
    ensures res != Failure(Crashed) ==> OnlyDeliveries(old(journal.sys), journal.sys)
    ensures res.Success? ==> AgreedOn(journal.entries, page)
    ensures (exists i :: i in page.issued && !Answered(old(journal.entries), i)) ==> res.Failure?
    ensures res.Failure? ==> res.error != UncertainEffect
  {
    hide Reachable, FileHolds;
    NoDeliveries(journal.sys);
    var uncertain :- UncertainOperations(page.issued, journal);
    var _ :- ReplayReceipts(page.issued, journal);
    var agreed: bool := *;
    if !agreed {
      return Failure(DeliveryFailed);
    }
    if page.lost || uncertain != [] {
      assert uncertain != [] ==> uncertain[0] in uncertain;
      return Failure(RecoveryRequired(Unproven));
    }
    return Success(());
  }

  /** Connect, reconcile, and be declared ready. */
  method Prepare(page: Standing, journal: Journal) returns (res: Outcome<()>)
    requires journal.Valid()
    modifies journal`entries, journal`stream, journal`sys
    ensures journal.Sane() && (res == Failure(Crashed) <==> !journal.Valid())
    ensures res != Failure(Crashed) ==> OnlyDeliveries(old(journal.sys), journal.sys)
    ensures res.Success? ==> AgreedOn(journal.entries, page)
    ensures res.Failure? ==> res.error != UncertainEffect
  {
    hide Reachable, FileHolds, OnlyDeliveries, AgreedOn;
    NoDeliveries(journal.sys);
    var connected: bool := *;
    if !connected {
      return Failure(DeliveryFailed);
    }
    var _ :- Reconcile(page, journal);
    var ready: bool := *;
    return if ready then Success(()) else Failure(DeliveryFailed);
  }

  // ------------------------------------------------------------ serving

  /** How the service says a run ended, or how this executor says it did. */
  datatype Conclusion = Stopped | NeedsRecovery | Ended(status: string)

  /** What wakes the executor: a page, a finished operation, a lost connection and how the attempts to
      restore it go, or the idle tick. */
  datatype Wake =
    | Page(ops: seq<Op>, completion: Option<Conclusion>, channel: bool)
    | Finished(key: Key, expired: bool, channel: bool)
    | Disconnected(attempts: seq<Standing>)
    | Tick(due: set<Id>)

  /** Receipts first, then agreement with the service, before anything else is served. Transient
      failures are tried again until the lease runs out; what is not settled then ends the run. */
  method Recover(w: Work, attempts: seq<Standing>) returns (res: Outcome<()>, n: nat)
    requires w.Valid()
    modifies w`running, w`queued, w`inflight, w`refusals, w`settled
    modifies w.processes`jobs, w.journal`entries, w.journal`handles, w.journal`stream, w.journal`sys
    ensures w.journal.Sane() && (res == Failure(Crashed) || w.Standing())
    ensures res.Success? ==> w.Valid() && w.running == map[] && w.queued == [] && Uncertain(w.journal.Memory()) == {}
    ensures res.Success? ==> n < |attempts| && AgreedOn(w.journal.entries, attempts[n])
    ensures res.Success? ==> forall i :: 0 <= i < n ==> attempts[i].transient
    ensures res.Success? ==> old(w.journal.entries).Keys + Keys(old(w.queued)) <= w.journal.entries.Keys
    ensures res.Failure? ==> res.error != UncertainEffect
  {
    hide Slots, Line, Streaks, AccountedFor, Reachable, FileHolds, AgreedOn, OnlyDeliveries;
    n := 0;
    var drained := w.Drain();
    if drained.Failure? {
      return drained, n;
    }
    while n < |attempts|
      invariant n <= |attempts|
      invariant w.Valid() && w.running == map[] && w.queued == [] && Uncertain(w.journal.Memory()) == {}
      invariant forall i :: 0 <= i < n ==> attempts[i].transient
      invariant old(w.journal.entries).Keys + Keys(old(w.queued)) <= w.journal.entries.Keys
    {
      res := Reconnect(w, attempts[n]);
      if res != Failure(DeliveryFailed) || !attempts[n].transient {
        return;
      }
      n := n + 1;
    }
    return Failure(LeaseExpired), n;
  }

  method Reconnect(w: Work, page: Standing) returns (res: Outcome<()>)
    requires w.Valid()
    modifies w.journal`entries, w.journal`stream, w.journal`sys
    ensures w.journal.Sane() && (res == Failure(Crashed) || w.Valid())
    ensures res != Failure(Crashed) ==> Uncertain(w.journal.Memory()) == Uncertain(old(w.journal.Memory()))
    ensures res != Failure(Crashed) ==> w.journal.entries.Keys == old(w.journal.entries).Keys
    ensures res.Success? ==> AgreedOn(w.journal.entries, page)
    ensures res.Failure? ==> res.error != UncertainEffect
  {
    hide Slots, Line, Streaks, AccountedFor, Reachable, FileHolds, AgreedOn, OnlyDeliveries, Uncertain;
    res := Prepare(page, w.journal);
    if res != Failure(Crashed) {
      DeliveriesSlots(w.running, w.inflight, old(w.journal.sys), w.journal.sys);
      DeliveriesMeaning(old(w.journal.sys), w.journal.sys);
      SameEntryKeys(old(w.journal.sys), w.journal.sys);
    }
  }

  lemma SameEntryKeys(before: Sys, after: Sys)
    requires OnlyDeliveries(before, after)
    ensures after.process.value.state.entries.Keys == before.process.value.state.entries.Keys
    ensures forall k <- before.process.value.state.entries ::
              after.process.value.state.entries[k].receipt == before.process.value.state.entries[k].receipt
  {
  }

  ghost predicate AllInHand(w: Work, ops: seq<Op>)
    reads w, w.journal
  {
    forall op <- ops :: w.InHand(OperationKey(op))
  }

  /** Answer one wake. A page that ends the run is answered by finishing what runs. */
  method Serve(w: Work, wake: Wake) returns (res: Outcome<Option<Conclusion>>)
    requires w.Valid()
    modifies w`running, w`queued, w`inflight, w`refusals, w`settled
    modifies w.processes`jobs, w.journal`entries, w.journal`handles, w.journal`stream, w.journal`sys
    ensures w.journal.Sane() && (res == Failure(Crashed) || w.Standing())
    ensures res.Success? ==> w.Valid()
    ensures res.Success? ==> forall k :: old(w.InHand(k)) ==> w.InHand(k)
    ensures res.Success? && wake.Page? && wake.completion.None? ==> res.value.None? && AllInHand(w, wake.ops)
    ensures res.Success? && wake.Finished? && wake.key in old(w.inflight) ==>
              && |w.running| + |w.queued| < old(|w.running| + |w.queued|)
              && wake.key in w.journal.entries
    ensures res.Success? && wake.Disconnected? ==>
              w.running == map[] && w.queued == [] && exists page <- wake.attempts :: AgreedOn(w.journal.entries, page)
    ensures res.Success? && (res.value.Some? || (wake.Page? && wake.completion.Some?)) ==>
              && wake.Page? && wake.completion == res.value
              && w.running == map[] && w.queued == [] && Uncertain(w.journal.Memory()) == {}
    ensures res.Failure? ==> res.error != UncertainEffect
  {
    hide Slots, Line, Streaks, AccountedFor, Reachable, FileHolds, AgreedOn;
    match wake {
      case Page(ops, completion, channel) =>
        if completion.Some? {
          var _ :- w.Drain();
          return Success(completion);
        }
        var _ :- w.DispatchPage(ops, channel);
      case Finished(key, expired, channel) =>
        if key in w.inflight {
          var _ :- w.Complete(key, expired, channel);
        }
      case Disconnected(attempts) =>
        var recovered, n := Recover(w, attempts);
        if recovered.Failure? {
          return Failure(recovered.error);
        }
        assert attempts[n] in attempts;
      case Tick(due) =>
        var _ :- Tend(w, due);
    }
    return Success(None);
  }

  /** The idle tick finishes processes that must stop. */
  method Tend(w: Work, due: set<Id>) returns (res: Outcome<()>)
    requires w.Valid()
    modifies w.processes`jobs, w.journal`handles, w.journal`stream, w.journal`sys
    ensures w.journal.Sane() && (res == Failure(Crashed) || w.Standing())
    ensures res.Success? ==> w.Valid() && forall id <- w.processes.jobs :: id in due ==> w.processes.jobs[id].closed
    ensures res.Failure? ==> res.error != UncertainEffect
  {
    hide Slots, Line, Streaks, AccountedFor, Reachable, FileHolds, OnlyHandles;
    var ok :- w.processes.Maintenance(w.journal, due);
    HandlesSlots(w.running, w.inflight, old(w.journal.sys), w.journal.sys, {});
    if !ok {
      return Failure(ObservationFailed);
    }
    return Success(());
  }

  /** The last wake served was a page that ends the run. */
  predicate EndedBy(wakes: seq<Wake>, served: nat, conclusion: Conclusion) {
    0 < served <= |wakes| && wakes[served - 1].Page? && wakes[served - 1].completion == Some(conclusion)
  }

  /** Serve until a page ends the run or the wakes do. Whichever it is, nothing the service put on a
      page that was served is lost: it is journaled or still waits. */
  method WorkLoop(w: Work, wakes: seq<Wake>) returns (res: Outcome<Conclusion>, served: nat)
    requires w.Valid()
    modifies w`running, w`queued, w`inflight, w`refusals, w`settled
    modifies w.processes`jobs, w.journal`entries, w.journal`handles, w.journal`stream, w.journal`sys
    ensures w.journal.Sane() && (res == Failure(Crashed) || w.Standing())
    ensures res.Success? ==> w.Valid() && served <= |wakes|
    ensures res.Success? ==> forall n :: 0 <= n < served && wakes[n].Page? && wakes[n].completion.None? ==>
              AllInHand(w, wakes[n].ops)
    ensures res.Success? ==>
              if EndedBy(wakes, served, res.value)
              then w.running == map[] && w.queued == [] && Uncertain(w.journal.Memory()) == {}
              else served == |wakes| && res.value == Stopped
    ensures res.Success? ==>
              forall n :: 0 <= n < served - 1 && wakes[n].Page? ==> wakes[n].completion.None?
    ensures res.Failure? ==> res.error != UncertainEffect
  {
    hide Slots, Line, Streaks, AccountedFor, Reachable, FileHolds, AgreedOn;
    served := 0;
    while served < |wakes|
      invariant served <= |wakes| && w.Valid()
      invariant forall n :: 0 <= n < served && wakes[n].Page? ==>
                  wakes[n].completion.None? && AllInHand(w, wakes[n].ops)
    {
      var answer := Serve(w, wakes[served]);
      if answer.Failure? {
        return Failure(answer.error), served;
      }
      served := served + 1;
      if answer.value.Some? {
        return Success(answer.value.value), served;
      }
    }
    return Success(Stopped), served;
  }

  // ------------------------------------------------------------ ending

  datatype Report = Report(conclusion: Conclusion, confirmed: bool, cancelAcknowledged: Option<bool>)

  /** Whether a process of a newer epoch can read the journal and take it over without proof of teardown. */
  ghost predicate OpenToSuccessor(s: Sys) {
    && !s.torn && Replay(s.log).Some?
    && var prior := Replay(s.log).value;
       forall b, i :: SameIdentity(prior.binding, b) && prior.binding.epoch < b.epoch ==>
                        Gate(prior, b, i, false).NewProcess?
  }

  /** A clean mark lets a successor in exactly when the file was never torn and no intent slipped past
      the process that wrote the mark. */
  lemma Succession(s: Sys)
    requires Reachable(s) && s.process.Some?
    requires s.process.value.state.clean && Uncertain(s.process.value.state) == {}
    ensures OpenToSuccessor(s) <==> !s.torn && s.process.value.owed.intents == map[]
  {
    hide Reachable;
    LogRefinement(s);
    var p := s.process.value;
    var prior := OnFile(p.state, p.owed);
    if !s.torn {
      if k :| k in p.owed.intents {
        assert k in Uncertain(prior);
        var next := prior.binding.(epoch := prior.binding.epoch + 1);
        assert SameIdentity(prior.binding, next) && !Gate(prior, next, "", false).NewProcess?;
      } else {
        assert p.owed.intents == map[];
        OnlyOwedUncertain(p.state, p.owed);
      }
    }
  }

  lemma OnlyOwedUncertain(st: State, o: Owed)
    requires Uncertain(st) == {} && o.intents == map[]
    ensures Uncertain(OnFile(st, o)) == {}
  {
    assert forall k <- st.entries :: k !in Uncertain(st);
  }

  /** Report how the run ended. The journal is marked clean exactly when local and remote cleanup are
      confirmed and no effect is known to be uncertain; anything else is reported as needing recovery. */
  method Conclude(outcome: Outcome<Conclusion>, localClean: bool, journal: Journal) returns (res: Outcome<Report>)
    requires journal.Valid()
    requires localClean ==> RunningHandles(journal.FileState()) == {}
    modifies journal`clean, journal`stream, journal`sys
    ensures journal.Sane() && (res == Failure(Crashed) <==> !journal.Valid())
    ensures res != Failure(Crashed) ==> OnlyMarks(old(journal.sys), journal.sys)
    ensures res.Success? ==>
              (journal.clean <==> old(journal.clean)
                                  || (localClean && res.value.confirmed && Uncertain(journal.Memory()) == {}))
    ensures res.Success? && res.value.confirmed ==> localClean
    ensures res.Success? ==>
              (res.value.conclusion == NeedsRecovery <==>
                 outcome.Failure? || outcome.value == NeedsRecovery
                 || Uncertain(journal.Memory()) != {} || !res.value.confirmed)
    ensures res.Success? && res.value.conclusion != NeedsRecovery ==>
              && outcome == Success(res.value.conclusion) && journal.clean && Uncertain(journal.Memory()) == {}
              && (OpenToSuccessor(journal.sys) <==>
                    !journal.sys.torn && old(journal.sys).process.value.owed.intents == map[])
    ensures res.Success? ==> (res.value.cancelAcknowledged.Some? <==> outcome == Success(Stopped))
  {
    hide Reachable, FileHolds, OnFile, OpenToSuccessor;
    var conclusion := if outcome.Success? then outcome.value else NeedsRecovery;
    var cancelAck: Option<bool> := None;
    if conclusion == Stopped {
      var ack: bool := *;
      cancelAck := Some(ack);
    }
    var uncertain := journal.HasUncertainEffects();
    if uncertain {
      conclusion := NeedsRecovery;
    }
    var remoteClean: bool := *;
    if localClean && remoteClean && !uncertain {
      var _ :- journal.MarkClean();
      Succession(journal.sys);
    }
    var confirmed := localClean && remoteClean;
    return Success(Report(if confirmed then conclusion else NeedsRecovery, confirmed, cancelAck));
  }

  /** Nothing but the clean mark was journaled. */
  ghost predicate OnlyMarks(before: Sys, after: Sys) {
    && before.process.Some? && after.process.Some?
    && after.process.value.state == before.process.value.state.(clean := after.process.value.state.clean)
    && after.process.value.owed == before.process.value.owed.(clean := after.process.value.owed.clean)
  }

  /** Reconcile again while the workspace is captured; how that goes changes nothing else. */
  method ReconcileAgain(pages: seq<Standing>, journal: Journal) returns (crashed: bool)
    requires journal.Valid()
    modifies journal`entries, journal`stream, journal`sys
    ensures journal.Sane() && (crashed <==> !journal.Valid())
    ensures !crashed ==> OnlyDeliveries(old(journal.sys), journal.sys)
  {
    hide Reachable, FileHolds, OnlyDeliveries, AgreedOn;
    NoDeliveries(journal.sys);
    for n := 0 to |pages|
      invariant journal.Valid() && OnlyDeliveries(old(journal.sys), journal.sys)
    {
      ghost var before := journal.sys;
      var done := Reconcile(pages[n], journal);
      if done == Failure(Crashed) {
        return true;
      }
      DeliveriesThenMore(old(journal.sys), before, journal.sys);
    }
    return false;
  }

  /** The pages served, and every operation on them answered. */
  ghost predicate AllAnswered(entries: map<Key, Entry>, wakes: seq<Wake>, served: nat) {
    forall n :: 0 <= n < served <= |wakes| && wakes[n].Page? && wakes[n].completion.None? ==>
      forall op <- wakes[n].ops :: OperationKey(op) in entries && entries[OperationKey(op)].receipt.Some?
  }

  /** Serve once agreement is reached; without it nothing is served. */
  method Attend(journal: Journal, processes: Processes, page: Standing, wakes: seq<Wake>)
    returns (outcome: Outcome<Conclusion>, served: nat)
    requires journal.Valid() && processes.Accounts(journal)
    requires journal.sys.process.value == Fresh(journal.Memory()) && Uncertain(journal.Memory()) == {}
    modifies processes`jobs, journal`entries, journal`handles, journal`stream, journal`sys
    ensures journal.Sane() && (outcome == Failure(Crashed) || journal.Valid())
    ensures outcome != Failure(Crashed) ==> processes.Accounts(journal)
    ensures outcome.Success? ==> journal.sys.process.value.owed.intents == map[]
    ensures outcome.Success? && outcome.value != Stopped ==>
              EndedBy(wakes, served, outcome.value) && AllAnswered(journal.entries, wakes, served)
  {
    hide Slots, Line, Streaks, AccountedFor, Reachable, FileHolds, AgreedOn, OnlyDeliveries, RunningHandles;
    hide AllAnswered, EndedBy;
    served := 0;
    var prepared := Prepare(page, journal);
    if prepared == Failure(Crashed) {
      return Failure(Crashed), served;
    }
    DeliveriesMeaning(old(journal.sys), journal.sys);
    StillFresh(old(journal.sys), journal.sys);
    if prepared.Failure? {
      return Failure(RecoveryRequired(Unproven)), served;
    }
    var w := new Work(journal, processes);
    outcome, served := WorkLoop(w, wakes);
    if outcome.Success? {
      SlotsMeaning(w.running, w.inflight, journal.sys.process.value, {});
      if outcome.value != Stopped {
        InHandAnswered(w, wakes, served);
      }
    }
  }

  lemma StillFresh(before: Sys, after: Sys)
    requires OnlyDeliveries(before, after) && before.process.value.owed.intents == map[]
    ensures after.process.value.ready == before.process.value.ready
    ensures after.process.value.running == before.process.value.running
    ensures after.process.value.owed.intents == before.process.value.owed.intents
    ensures after.process.value.owed.receipts == before.process.value.owed.receipts
  {
  }

  lemma InHandAnswered(w: Work, wakes: seq<Wake>, served: nat)
    requires w.queued == [] && Uncertain(w.journal.Memory()) == {} && served <= |wakes|
    requires forall n :: 0 <= n < served && wakes[n].Page? && wakes[n].completion.None? ==> AllInHand(w, wakes[n].ops)
    ensures AllAnswered(w.journal.entries, wakes, served)
  {
    forall n, op | 0 <= n < served && wakes[n].Page? && wakes[n].completion.None? && op in wakes[n].ops
      ensures OperationKey(op) in w.journal.entries && w.journal.entries[OperationKey(op)].receipt.Some?
    {
      assert w.InHand(OperationKey(op));
      assert OperationKey(op) !in Uncertain(w.journal.Memory());
    }
  }

  /** One executor's whole life after it opened the journal: agree, serve, stop every owned process,
      reconcile again, report. A run that does not report recovery left no process running and no effect
      in doubt, answered every operation it was given unless it was stopped, and left a journal a
      successor can take over, unless a write was cut, which nothing before the successor notices. */
  method Run(journal: Journal, page: Standing, wakes: seq<Wake>, again: seq<Standing>)
    returns (res: Outcome<Report>, served: nat)
    requires journal.Opened() && Uncertain(journal.Memory()) == {}
    modifies journal`entries, journal`handles, journal`clean, journal`stream, journal`sys
    ensures journal.Sane() && (res == Failure(Crashed) || journal.Valid())
    ensures res.Success? && res.value.conclusion != NeedsRecovery ==>
              && RunningHandles(journal.FileState()) == {} && Uncertain(journal.Memory()) == {} && journal.clean
              && (OpenToSuccessor(journal.sys) <==> !journal.sys.torn)
    ensures res.Success? && res.value.conclusion.Ended? ==>
              EndedBy(wakes, served, res.value.conclusion) && AllAnswered(journal.entries, wakes, served)
  {
    hide AccountedFor, Reachable, FileHolds, OpenToSuccessor, OnlyDeliveries, OnlyHandles;
    hide RunningHandles, EndedBy, OnFile;
    var processes := new Processes(journal);
    var outcome, n := Attend(journal, processes, page, wakes);
    served := n;
    if outcome == Failure(Crashed) {
      return Failure(Crashed), served;
    }
    ghost var attended := journal.sys;
    var cleanup, failed := processes.Cleanup(journal);
    if cleanup == Failure(Crashed) {
      return Failure(Crashed), served;
    }
    HandlesMeaning(attended, journal.sys);
    ghost var cleaned := journal.sys;
    NoDeliveries(cleaned);
    if cleanup.Success? {
      var crashed := ReconcileAgain(again, journal);
      if crashed {
        return Failure(Crashed), served;
      }
    }
    DeliveriesMeaning(cleaned, journal.sys);
    StillRunning(cleaned, journal.sys);
    SameEntryKeys(cleaned, journal.sys);
    ghost var reconciled := journal.sys;
    res := Conclude(outcome, cleanup.Success?, journal);
    if res != Failure(Crashed) {
      MarksMeaning(reconciled, journal.sys);
    }
  }

  lemma HandlesMeaning(before: Sys, after: Sys)
    requires OnlyHandles(before, after)
    ensures after.process.value.owed.intents == before.process.value.owed.intents
    ensures after.process.value.state.entries == before.process.value.state.entries
  {
  }

  lemma StillRunning(before: Sys, after: Sys)
    requires OnlyDeliveries(before, after)
    ensures after.process.value.owed.intents == before.process.value.owed.intents
    ensures RunningHandles(OnFile(after.process.value.state, after.process.value.owed)) ==
            RunningHandles(OnFile(before.process.value.state, before.process.value.owed))
  {
  }

  lemma MarksMeaning(before: Sys, after: Sys)
    requires OnlyMarks(before, after)
    ensures RunningHandles(OnFile(after.process.value.state, after.process.value.owed)) ==
            RunningHandles(OnFile(before.process.value.state, before.process.value.owed))
  {
  }

  // ------------------------------------------------------------ many executors, one file

  /** One executor: who it is, and what it meets. */
  datatype Executor = Executor(
    binding: Binding, instance: string, teardownVerified: bool, page: Standing, wakes: seq<Wake>, again: seq<Standing>)

  /** Any number of executors, one after the other, over one file, each of which can end at any moment.
      Over the whole history no effect is begun twice, none before its intent was journaled or after its
      receipt was, and no receipt reaches the service with two values. The file left behind is empty, or
      restores to what its history says, or is refused as cut: it is never anything else. */
  method Life(serde: Serde, executors: seq<Executor>) returns (stream: seq<byte>, ghost sys: Sys)
    requires Sound(serde.records)
    ensures Reachable(sys) && FileHolds(serde.records, sys.log, sys.torn, stream)
    ensures stream == [] || ReadsAs(serde.records, stream, sys)
    ensures var res := RestoreFile(serde.records, stream); stream == [] || res.Success? || res.error.Unreadable?
    ensures forall k :: multiset(sys.trace)[Began(k)] <= 1
    ensures forall k, i :: 0 <= i < |sys.trace| && sys.trace[i] == Began(k) ==>
              IntentIn(k, sys.trace[..i]) && !ReceiptIn(k, sys.trace[..i])
    ensures forall k, v, w :: Event.Submitted(k, v) in sys.trace && Event.Submitted(k, w) in sys.trace ==> v == w
  {
    hide Reachable, FileHolds, OpenToSuccessor, IntentIn, ReceiptIn;
    stream, sys := [], INIT;
    InitialFile(serde.records);
    for n := 0 to |executors|
      invariant Rests(serde.records, stream, sys)
    {
      stream, sys := OneExecutor(serde, executors[n], stream, sys);
    }
    if stream != [] {
      FileReads(serde.records, stream, sys);
    }
    forall k ensures multiset(sys.trace)[Began(k)] <= 1 {
      AtMostOnce(sys, k);
    }
    forall k, i | 0 <= i < |sys.trace| && sys.trace[i] == Began(k)
      ensures IntentIn(k, sys.trace[..i]) && !ReceiptIn(k, sys.trace[..i])
    {
      AtMostOnce(sys, k);
    }
    forall k, v, w | Event.Submitted(k, v) in sys.trace && Event.Submitted(k, w) in sys.trace ensures v == w {
      ReceiptsImmutable(sys, k);
    }
  }

  /** A journal file nobody holds, and its history. */
  ghost predicate Rests(c: Codec<Record>, stream: seq<byte>, s: Sys) {
    && Reachable(s) && s.process.None?
    && (forall r <- s.log :: Accepted(c, r)) && FileHolds(c, s.log, s.torn, stream)
  }

  lemma InitialFile(c: Codec<Record>)
    requires Sound(c)
    ensures Rests(c, [], INIT)
  {
    Initially();
  }

  /** Open the file, run if that succeeds, and end. A new executor has a new instance, so it never
      returns to effects left uncertain. */
  method OneExecutor(serde: Serde, e: Executor, stream: seq<byte>, ghost sys: Sys)
    returns (after: seq<byte>, ghost history: Sys)
    requires Rests(serde.records, stream, sys)
    ensures Rests(serde.records, after, history)
  {
    hide Reachable, FileHolds, OpenToSuccessor, RunningHandles, EndedBy, AllAnswered;
    var journal := new Journal(serde, e.binding, e.instance, stream, sys);
    var loaded := journal.Load(e.teardownVerified);
    if loaded.Success? {
      var returned := journal.HasUncertainEffects();
      if !returned {
        var report, served := Run(journal, e.page, e.wakes, e.again);
      }
    }
    StopReachable(journal.sys, false);
    return journal.stream, journal.sys.(process := None);
  }
}
