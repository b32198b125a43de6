/** The registry of owned processes and the handles it journals for them. */
module ProcessRegistry {
  import opened Wrappers
  import opened Ledger
  import opened Protocol
  import opened JournalFile

  /** One spawned process group: `owned` until its group is proved dead and released, `closed` once its
      leader is reaped, `cleanupFailed` while its collected output is not known to be durable. */
  datatype Job = Job(state: HandleState, owned: bool, closed: bool, cleanupFailed: bool)

  datatype Method =
    | Run | Start | Cancel(id: Id) | Read | Wait | Immediate

  /** What remains of an operation once its local effects have been applied: nothing, or a wait, after
      which a run also reads a page. */
  datatype Pending = Done(ok: bool) | Observe(read: bool)

  /** How a launch ended: the shell refused, or something failed, perhaps after the process was spawned. */
  datatype Launch = Launched(id: Id) | Rejected | Unlaunched(spawned: Option<Id>)

  /** A closed job was released before, and has a terminal state unless its cleanup failed. */
  predicate Coherent(job: Job) {
    && (job.closed ==> !job.owned)
    && (job.cleanupFailed ==> job.closed)
    && (job.closed && !job.cleanupFailed ==> !job.state.status.Running?)
  }

  /** Nothing of the job is left to finish. */
  predicate Finished(job: Job) {
    job.closed && !job.cleanupFailed
  }

  function Unadopted(h: HandleState): HandleState {
    if h.status.Running? then h.(status := Failed, reason := OwnershipLost) else h
  }

  /** Signal the group, confirm it dead, release it, reap its leader, drain its output. Any of these can
      fail. Before the release a failure leaves everything as it was; after it, the job is never
      reported finished. */
  method FinishJob(job: Job, cancelled: bool) returns (after: Job, ok: bool)
    requires Coherent(job)
    ensures Coherent(after) && after.state.operation == job.state.operation
    ensures ok ==> Finished(after) && !after.owned && !after.state.status.Running?
    ensures Finished(job) ==> ok && after == job
    ensures ok && !job.closed ==> after.state.status == if cancelled then Cancelled else Exited
    ensures !ok ==> after.state == job.state && !Finished(after)
    ensures !ok && after.owned ==> after == job
    ensures !job.owned && !Finished(job) ==> !ok && after == job
  {
    if job.cleanupFailed {
      return job, false;
    }
    if job.closed {
      return job, true;
    }
    if !job.owned {
      return job, false;
    }
    var signalled: bool := *;
    if !signalled {
      return job, false;
    }
    var confirmed: bool := *;
    if !confirmed {
      return job, false;
    }
    after := job.(owned := false);
    var reaped: bool := *;
    if !reaped {
      return after, false;
    }
    after := after.(closed := true, cleanupFailed := true);
    var drained: bool := *;
    if !drained {
      return after, false;
    }
    var status := if cancelled then Cancelled else Exited;
    after := after.(cleanupFailed := false, state := after.state.(status := status));
    return after, true;
  }

  /** Every handle called running is a job of the registry, or known lost. */
  ghost predicate Known(jobs: map<Id, Job>, terminal: map<Id, HandleState>, handles: map<Id, HandleState>) {
    forall id <- handles :: handles[id].status.Running? ==>
      id in jobs || (id in terminal && terminal[id].reason.OwnershipLost?)
  }

  /** Whatever memory or file calls running is known. */
  ghost predicate AccountedFor(
    jobs: map<Id, Job>, terminal: map<Id, HandleState>, handles: map<Id, HandleState>, owed: map<Id, HandleState>)
  {
    && (forall id <- jobs :: Coherent(jobs[id]))
    && Known(jobs, terminal, handles) && Known(jobs, terminal, owed)
  }

  /** The same processes, started by the same operations. */
  ghost predicate SameJobs(before: map<Id, Job>, after: map<Id, Job>) {
    before.Keys == after.Keys && forall id <- before :: after[id].state.operation == before[id].state.operation
  }

  /** The newest word on a process, in memory and on file, is what the registry holds. */
  predicate UpToDate(jobs: map<Id, Job>, handles: map<Id, HandleState>, owed: map<Id, HandleState>, id: Id) {
    id in jobs && id in handles && handles[id] == jobs[id].state && id !in owed
  }

  lemma SameItself(jobs: map<Id, Job>, s: Sys)
    requires s.process.Some?
    ensures SameJobs(jobs, jobs) && OnlyHandles(s, s)
  {
  }

  lemma ThenMore(a: map<Id, Job>, b: map<Id, Job>, c: map<Id, Job>, s: Sys, t: Sys, u: Sys)
    requires SameJobs(a, b) && SameJobs(b, c) && OnlyHandles(s, t) && OnlyHandles(t, u)
    ensures SameJobs(a, c) && OnlyHandles(s, u)
  {
  }

  lemma SameKeys(a: map<Id, Job>, b: map<Id, Job>)
    requires SameJobs(a, b)
    ensures a.Keys == b.Keys
  {
  }

  /** Replacing a job by what finishing made of it accounts for as much as before. */
  lemma FinishAccounts(
    jobs: map<Id, Job>, terminal: map<Id, HandleState>, handles: map<Id, HandleState>, owed: map<Id, HandleState>,
    id: Id, job: Job)
    requires AccountedFor(jobs, terminal, handles, owed) && id in jobs
    requires Coherent(job) && job.state.operation == jobs[id].state.operation
    ensures AccountedFor(jobs[id := job], terminal, handles, owed) && SameJobs(jobs, jobs[id := job])
  {
  }

  /** A handle of a job may be journaled, or slip. */
  lemma HandleAccounts(
    jobs: map<Id, Job>, terminal: map<Id, HandleState>, handles: map<Id, HandleState>, owed: map<Id, HandleState>,
    id: Id, h: HandleState)
    requires AccountedFor(jobs, terminal, handles, owed) && id in jobs
    ensures AccountedFor(jobs, terminal, handles[id := h], owed - {id})
    ensures AccountedFor(jobs, terminal, handles, owed[id := h]) && AccountedFor(jobs, terminal, handles, owed - {id})
  {
  }

  class Processes {
    var jobs: map<Id, Job>
    var terminal: map<Id, HandleState>

    ghost predicate Accounts(j: Journal)
      reads this, j`handles, j`sys
    {
      j.sys.process.Some? && AccountedFor(jobs, terminal, j.handles, j.sys.process.value.owed.handles)
    }

    ghost predicate Current(j: Journal, id: Id)
      requires j.sys.process.Some?
      reads this, j`handles, j`sys
    {
      UpToDate(jobs, j.handles, j.sys.process.value.owed.handles, id)
    }

    /** Processes of earlier executors are never adopted: those still recorded as running are lost. */
    constructor (j: Journal)
      requires j.Opened()
      ensures jobs == map[] && Accounts(j)
      ensures terminal == map id | id in j.handles :: Unadopted(j.handles[id])
    {
      jobs := map[];
      terminal := map id | id in j.handles :: Unadopted(j.handles[id]);
    }

    method OwnsOperation(key: Key) returns (owns: bool)
      ensures owns <==> exists id :: id in jobs && jobs[id].state.operation == Some(key)
    {
      owns := exists id :: id in jobs && jobs[id].state.operation == Some(key);
    }

    /** Journal what the registry holds of a job. A failure other than a crash is the operation's. */
    method JournalJob(j: Journal, id: Id) returns (res: Outcome<bool>)
      requires j.Valid() && Accounts(j) && id in jobs
      modifies j`handles, j`stream, j`sys
      ensures j.Sane() && (res == Failure(Crashed) <==> !j.Valid())
      ensures res.Failure? ==> res.error == Crashed
      ensures res.Success? ==> Accounts(j) && OnlyHandles(old(j.sys), j.sys)
      ensures res == Success(true) ==>
                && Current(j, id) && j.handles == old(j.handles)[id := jobs[id].state]
                && j.sys.process.value.owed.handles == old(j.sys).process.value.owed.handles - {id}
      ensures res == Success(false) ==> j.handles == old(j.handles)
      ensures res.Success? ==> forall k :: k != id && old(Current(j, k)) ==> Current(j, k)
    {
      hide Reachable, FileHolds, AccountedFor, OnlyHandles, AfterWrite, AfterSlip;
      ghost var owed := j.sys.process.value.owed.handles;
      HandleAccounts(jobs, terminal, j.handles, owed, id, jobs[id].state);
      var logged := j.LogHandle(id, jobs[id].state);
      if logged == Failure(Crashed) {
        return Failure(Crashed);
      }
      HandleOnly(old(j.sys), id, jobs[id].state, j.sys);
      return Success(logged.Success?);
    }

    /** Spawn a process for an operation. It is owned before anything about it is journaled, and stays
        owned when that fails. */
    method StartJob(j: Journal, key: Key) returns (res: Outcome<Launch>)
      requires j.Valid() && Accounts(j)
      modifies this`jobs, j`handles, j`stream, j`sys
      ensures j.Sane() && (res == Failure(Crashed) <==> !j.Valid())
      ensures res.Failure? ==> res.error == Crashed
      ensures res.Success? ==> Accounts(j) && OnlyHandles(old(j.sys), j.sys)
      ensures res.Success? ==> match res.value
                case Launched(id) => StartedBy(key, id, old(jobs)) && Current(j, id)
                case Rejected => jobs == old(jobs) && j.sys == old(j.sys)
                case Unlaunched(Some(id)) => StartedBy(key, id, old(jobs)) && j.handles == old(j.handles)
                case Unlaunched(None) => jobs == old(jobs) && j.sys == old(j.sys)
    {
      hide Reachable, FileHolds, OnlyHandles;
      SameItself(jobs, j.sys);
      var fate: Launch := *;
      if !fate.Launched? {
        return Success(if fate.Rejected? then Rejected else Unlaunched(None));
      }
      var id := fate.id;
      if id in jobs || id in terminal || id in j.handles {
        return Success(Unlaunched(None));
      }
      jobs := jobs[id := Job(HandleState(Running, NoReason, Some(key), ""), true, false, false)];
      var ok :- JournalJob(j, id);
      return Success(if ok then Launched(id) else Unlaunched(Some(id)));
    }

    /** One process more than before, running and owned, of this operation. */
    ghost predicate StartedBy(key: Key, id: Id, before: map<Id, Job>)
      reads this
    {
      && id !in before && jobs.Keys == before.Keys + {id} && (forall k <- before :: k in jobs && jobs[k] == before[k])
      && jobs[id].owned && jobs[id].state.operation == Some(key) && jobs[id].state.status.Running?
    }

    /** Finish one job and journal its state. */
    method FinishOne(j: Journal, id: Id, cancelled: bool) returns (res: Outcome<bool>)
      requires j.Valid() && Accounts(j) && id in jobs
      modifies this`jobs, j`handles, j`stream, j`sys
      ensures j.Sane() && (res == Failure(Crashed) <==> !j.Valid())
      ensures res.Failure? ==> res.error == Crashed
      ensures res.Success? ==> Accounts(j) && OnlyHandles(old(j.sys), j.sys)
      ensures SameJobs(old(jobs), jobs)
      ensures forall k <- jobs :: k != id ==> jobs[k] == old(jobs)[k]
      ensures res == Success(true) ==>
                && Finished(jobs[id]) && !jobs[id].state.status.Running? && Current(j, id)
                && j.handles == old(j.handles)[id := jobs[id].state]
                && j.sys.process.value.owed.handles == old(j.sys).process.value.owed.handles - {id}
      ensures res == Success(false) ==> j.handles == old(j.handles)
      ensures res.Success? ==> forall k :: k != id && old(Current(j, k)) ==> Current(j, k)
    {
      hide Reachable, FileHolds, AccountedFor, OnlyHandles;
      SameItself(jobs, j.sys);
      assert Coherent(jobs[id]) by { JobIsCoherent(j, id); }
      var job, ok := FinishJob(jobs[id], cancelled);
      FinishAccounts(jobs, terminal, j.handles, j.sys.process.value.owed.handles, id, job);
      jobs := jobs[id := job];
      if !ok {
        return Success(false);
      }
      res := JournalJob(j, id);
    }

    lemma JobIsCoherent(j: Journal, id: Id)
      requires Accounts(j) && id in jobs
      ensures Coherent(jobs[id])
    {
    }

    /** Finish every job that is due: exited, out of time, or over its output limit. The first failure
        ends the sweep. */
    method Maintenance(j: Journal, due: set<Id>) returns (res: Outcome<bool>)
      requires j.Valid() && Accounts(j)
      modifies this`jobs, j`handles, j`stream, j`sys
      ensures j.Sane() && (res == Failure(Crashed) <==> !j.Valid())
      ensures res.Failure? ==> res.error == Crashed
      ensures res.Success? ==> Accounts(j) && OnlyHandles(old(j.sys), j.sys)
      ensures SameJobs(old(jobs), jobs)
      ensures forall id <- jobs :: id !in due || old(jobs)[id].closed ==> jobs[id] == old(jobs)[id]
      ensures res == Success(true) ==> forall id <- jobs :: id in due ==> jobs[id].closed
      ensures res == Success(true) ==> forall id <- jobs ::
                if id in due && !old(jobs)[id].closed then Finished(jobs[id]) && Current(j, id)
                else old(Current(j, id)) ==> Current(j, id)
    {
      hide Reachable, FileHolds, AccountedFor, OnlyHandles, SameJobs, Finished;
      SameItself(jobs, j.sys);
      var left := jobs.Keys;
      SameKeys(old(jobs), jobs);
      while left != {}
        invariant left <= jobs.Keys == old(jobs).Keys
        invariant j.Valid() && Accounts(j) && OnlyHandles(old(j.sys), j.sys) && SameJobs(old(jobs), jobs)
        invariant forall id <- jobs ::
                    id in left || id !in due || old(jobs)[id].closed ==> jobs[id] == old(jobs)[id]
        invariant forall id <- jobs ::
                    if id !in left && id in due && !old(jobs)[id].closed
                    then jobs[id].closed && Finished(jobs[id]) && Current(j, id)
                    else old(Current(j, id)) ==> Current(j, id)
        decreases left
      {
        var id :| id in left;
        left := left - {id};
        if !jobs[id].closed {
          var looked: bool := *;
          if !looked {
            return Success(false);
          }
          if id in due {
            ghost var before, sys := jobs, j.sys;
            var ok := FinishOne(j, id, false);
            SameKeys(before, jobs);
            if ok.Failure? {
              SameChain(old(jobs), before, jobs);
              return ok;
            }
            ThenMore(old(jobs), before, jobs, old(j.sys), sys, j.sys);
            if !ok.value {
              return Success(false);
            }
            FinishedIsClosed(jobs[id]);
          }
        }
      }
      return Success(true);
    }

    /** Apply an operation's immediate effects. Whatever fails short of a crash becomes the operation's
        result. A process reported started is owned and journaled, one reported cancelled is journaled as
        no longer running; one that could not be journaled is owned still. */
    method Begin(j: Journal, m: Method, key: Key) returns (res: Outcome<Pending>)
      requires j.Valid() && Accounts(j)
      modifies this`jobs, j`handles, j`stream, j`sys
      ensures j.Sane() && (res == Failure(Crashed) <==> !j.Valid())
      ensures res.Failure? ==> res.error == Crashed
      ensures res.Success? ==> Accounts(j) && OnlyHandles(old(j.sys), j.sys)
      ensures res.Success? ==> forall id <- old(jobs) ::
                id in jobs && jobs[id].state.operation == old(jobs)[id].state.operation
      ensures res.Success? && (m.Run? || m.Start?) ==>
                jobs.Keys == old(jobs).Keys || exists id :: jobs.Keys == old(jobs).Keys + {id} && OwnedBy(key, id)
      ensures res.Success? && m.Run? && res.value.Observe? ==>
                exists id :: id !in old(jobs) && OwnedBy(key, id) && Current(j, id)
      ensures m.Run? && res == Success(Done(true)) ==> jobs == old(jobs)
      ensures m.Start? && res == Success(Done(true)) ==>
                jobs == old(jobs) || exists id :: id !in old(jobs) && OwnedBy(key, id) && Current(j, id)
      ensures m.Cancel? && res == Success(Done(true)) ==>
                if m.id in old(jobs) then Current(j, m.id) && !jobs[m.id].state.status.Running?
                else m.id in terminal
    {
      hide Reachable, FileHolds, AccountedFor, OnlyHandles, UpToDate;
      SameItself(jobs, j.sys);
      var valid: bool := *;
      if !valid {
        return Success(Done(false));
      }
      match m {
        case Run =>
          res := RunBegins(j, key);
        case Start =>
          var launch :- StartJob(j, key);
          return Success(Done(!launch.Unlaunched?));
        case Cancel(id) =>
          if id in jobs {
            var ok :- FinishOne(j, id, true);
            return Success(Done(ok));
          }
          return Success(Done(id in terminal));
        case Read =>
          var due: set<Id> := *;
          var ok :- Maintenance(j, due);
          var found: bool := *;
          return Success(Done(ok && found));
        case Wait =>
          var due: set<Id> := *;
          var ok :- Maintenance(j, due);
          var found: bool := *;
          return Success(if ok && found then Observe(false) else Done(false));
        case Immediate =>
          var done: bool := *;
          return Success(Done(done));
      }
    }

    ghost predicate OwnedBy(key: Key, id: Id)
      reads this
    {
      id in jobs && jobs[id].state.operation == Some(key)
    }

    /** Start a process and wait for it. A launch the shell rejects completes the operation at once. */
    method RunBegins(j: Journal, key: Key) returns (res: Outcome<Pending>)
      requires j.Valid() && Accounts(j)
      modifies this`jobs, j`handles, j`stream, j`sys
      ensures j.Sane() && (res == Failure(Crashed) <==> !j.Valid())
      ensures res.Failure? ==> res.error == Crashed
      ensures res.Success? ==> Accounts(j) && OnlyHandles(old(j.sys), j.sys)
      ensures res.Success? ==> forall id <- old(jobs) ::
                id in jobs && jobs[id].state.operation == old(jobs)[id].state.operation
      ensures res.Success? ==>
                jobs.Keys == old(jobs).Keys || exists id :: jobs.Keys == old(jobs).Keys + {id} && OwnedBy(key, id)
      ensures res == Success(Done(true)) ==> jobs == old(jobs)
      ensures res.Success? && res.value.Observe? ==>
                exists id :: id !in old(jobs) && OwnedBy(key, id) && Current(j, id)
    {
      hide Reachable, FileHolds, AccountedFor, OnlyHandles, UpToDate;
      var launch :- StartJob(j, key);
      if !launch.Launched? {
        return Success(Done(launch.Rejected?));
      }
      ghost var before, sys := jobs, j.sys;
      // the sweep of the wait; a process launched just now may be due already
      var due: set<Id> := *;
      var ok :- Maintenance(j, due);
      ThenHandles(old(j.sys), sys, j.sys);
      assert OwnedBy(key, launch.id) && jobs.Keys == old(jobs).Keys + {launch.id};
      assert ok ==> Current(j, launch.id);
      return Success(if ok then Observe(true) else Done(false));
    }

    /** Complete an operation whose wait is over. */
    method Finish(j: Journal, pending: Pending) returns (res: Outcome<bool>)
      requires j.Valid() && Accounts(j)
      modifies this`jobs, j`handles, j`stream, j`sys
      ensures j.Sane() && (res == Failure(Crashed) <==> !j.Valid())
      ensures res.Failure? ==> res.error == Crashed
      ensures res.Success? ==> Accounts(j) && OnlyHandles(old(j.sys), j.sys)
      ensures SameJobs(old(jobs), jobs)
      ensures pending.Done? ==> res == Success(pending.ok) && jobs == old(jobs) && j.sys == old(j.sys)
    {
      hide Reachable, FileHolds, AccountedFor, OnlyHandles, SameJobs;
      SameItself(jobs, j.sys);
      if pending.Done? {
        return Success(pending.ok);
      }
      var due: set<Id> := *;
      var ok :- Maintenance(j, due);
      if !ok || !pending.read {
        return Success(ok);
      }
      ghost var before, sys := jobs, j.sys;
      due := *;
      ok := false;
      var swept := Maintenance(j, due);
      SameChain(old(jobs), before, jobs);
      if swept.Failure? {
        return Failure(Crashed);
      }
      ThenMore(old(jobs), before, jobs, old(j.sys), sys, j.sys);
      // reading the page can fail on its own
      var page: bool := *;
      return Success(swept.value && page);
    }

    /** Stop everything owned. Every job is finished, whatever became of the others; `failed` are those
        that could not be finished or journaled. Success means that neither memory nor file knows of a
        process still running. */
    method Cleanup(j: Journal) returns (res: Outcome<()>, ghost failed: set<Id>)
      requires j.Valid() && Accounts(j)
      modifies this`jobs, j`handles, j`stream, j`sys
      ensures j.Sane() && (res == Failure(Crashed) <==> !j.Valid())
      ensures res.Failure? ==> res.error in {Crashed, CleanupUnconfirmed}
      ensures res != Failure(Crashed) ==> Accounts(j) && OnlyHandles(old(j.sys), j.sys)
      ensures res != Failure(Crashed) ==> forall id <- jobs :: id !in failed ==> Finished(jobs[id]) && Current(j, id)
      ensures res != Failure(Crashed) ==> (res.Success? <==>
                failed == {} && !exists id :: id in terminal && terminal[id].reason.OwnershipLost?)
      ensures res.Success? ==> RunningHandles(j.Memory()) == {} && RunningHandles(j.FileState()) == {}
    {
      hide Reachable, FileHolds, AccountedFor, OnlyHandles, SameJobs, Finished;
      SameItself(jobs, j.sys);
      failed := {};
      var unconfirmed := false;
      var left := jobs.Keys;
      while left != {}
        invariant left <= jobs.Keys == old(jobs).Keys && terminal == old(terminal)
        invariant j.Valid() && Accounts(j) && OnlyHandles(old(j.sys), j.sys) && SameJobs(old(jobs), jobs)
        invariant failed <= jobs.Keys - left && (unconfirmed <==> failed != {})
        invariant forall id <- jobs.Keys - left - failed ::
                    Finished(jobs[id]) && Current(j, id) && !jobs[id].state.status.Running?
        decreases left
      {
        var id :| id in left;
        left := left - {id};
        ghost var before, sys := jobs, j.sys;
        var ok := FinishOne(j, id, true);
        SameKeys(before, jobs);
        if ok.Failure? {
          return Failure(Crashed), failed;
        }
        ThenMore(old(jobs), before, jobs, old(j.sys), sys, j.sys);
        if !ok.value {
          unconfirmed := true;
          failed := failed + {id};
        }
      }
      var lost := exists id :: id in terminal && terminal[id].reason.OwnershipLost?;
      if unconfirmed || lost {
        return Failure(CleanupUnconfirmed), failed;
      }
      NothingRuns(j);
      return Success(()), failed;
    }

    lemma NothingRuns(j: Journal)
      requires j.Valid() && Accounts(j)
      requires forall id <- jobs :: Current(j, id) && !jobs[id].state.status.Running?
      requires !exists id :: id in terminal && terminal[id].reason.OwnershipLost?
      ensures RunningHandles(j.Memory()) == {} && RunningHandles(j.FileState()) == {}
    {
      assert forall id <- j.handles :: !j.handles[id].status.Running?;
      assert forall id <- j.sys.process.value.owed.handles :: !j.sys.process.value.owed.handles[id].status.Running?;
    }
  }

  lemma SameChain(a: map<Id, Job>, b: map<Id, Job>, c: map<Id, Job>)
    requires SameJobs(a, b) && SameJobs(b, c)
    ensures SameJobs(a, c)
  {
  }

  lemma ThenHandles(s: Sys, t: Sys, u: Sys)
    requires OnlyHandles(s, t) && OnlyHandles(t, u)
    ensures OnlyHandles(s, u)
  {
  }

  lemma FinishedIsClosed(job: Job)
    requires Finished(job)
    ensures job.closed
  {
  }
}
