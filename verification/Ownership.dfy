/** One spawned process group shared by two threads: the owner, which finishes the job, and the
    watcher, which collects its output and kills it on exit, deadline or overflow. */
module Ownership {
  import opened Wrappers

  datatype Thread = Owner | Watcher

  /** The group's leader. Until it is reaped its process id cannot be given to anyone else. */
  datatype Leader = Alive | Zombie | Reaped

  /** Where the owner is inside `finish`. */
  datatype OwnerAt = Resting | Entered | Armed | Probing | Proven | Released | Joining

  /** Where the watcher is inside its collecting loop. */
  datatype WatcherAt = Looping | Looking | Striking | Copying | Testing | Ended(ok: bool)

  /** `live` counts the running processes of the group, the leader included, and `missed` those among
      them that the probe for live members no longer comes by: it reads the process table entry by
      entry. `unread` counts the bytes in the output pipe, which a process that left the group can
      still hold. */
  datatype World = World(
    lock: Option<Thread>, group: bool, leader: Leader, live: nat, missed: nat, unread: nat, stop: bool,
    owner: OwnerAt, watcher: WatcherAt, closed: bool, cleanupFailed: bool)

  datatype Step =
    | LeaderExits | MemberExits(missed: bool) | Forks(behind: bool) | Writes(count: nat)
    | Enter | Claim | OwnerSignal(delivered: bool) | Found(late: bool) | Absent | Disown | Reap(ok: bool)
    | Join(ok: bool)
    | Lock | Look(due: bool) | WatcherSignal(delivered: bool)
    | Copy(count: nat) | Retry | Empty | Test | Break

  const SPAWNED := World(None, true, Alive, 1, 0, 0, false, Resting, Looping, false, false)
  const BUFFER: nat := 8192

  /** `finish` gives up: the lock is dropped and the error returned. */
  function GiveUp(w: World): World {
    w.(lock := None, owner := Resting)
  }

  /** What happens on its own: only a running member can fork, into a part of the process table the probe
      has yet to read or behind it; anyone with the pipe can write. */
  function KernelStep(w: World, s: Step): Option<World> {
    match s
    case LeaderExits =>
      if w.leader.Alive? && w.live > w.missed then Some(w.(leader := Zombie, live := w.live - 1)) else None
    case MemberExits(missed) =>
      if missed then
        if 0 < w.missed <= w.live then Some(w.(live := w.live - 1, missed := w.missed - 1)) else None
      else
        if w.live > w.missed + (if w.leader.Alive? then 1 else 0) then Some(w.(live := w.live - 1)) else None
    case Forks(behind) =>
      if w.live == 0 then None
      else if ProbedPast(w) || (behind && w.owner.Probing?) then
        Some(w.(live := w.live + 1, missed := w.missed + 1))
      else Some(w.(live := w.live + 1))
    case Writes(n) => Some(w.(unread := w.unread + n))
    case _ => None
  }

  /** The owner has read the whole process table and found no live member. */
  predicate ProbedPast(w: World) {
    w.owner.Proven? || !w.group
  }

  function OwnerStep(w: World, s: Step): Option<World> {
    match s
    case Enter =>
      if !w.owner.Resting? then None
      else if w.cleanupFailed || w.closed then Some(w)
      else if w.lock.None? then Some(w.(lock := Some(Owner), owner := Entered)) else None
    case Claim =>
      if !w.owner.Entered? then None
      else if w.group then Some(w.(owner := Armed)) else Some(GiveUp(w))
    case OwnerSignal(delivered) =>
      if !w.owner.Armed? then None
      else if delivered || w.live == 0 then Some(w.(owner := Probing, missed := 0)) else Some(GiveUp(w))
    case Found(late) =>
      if !w.owner.Probing? || w.live == w.missed then None
      else if late then Some(GiveUp(w)) else Some(w.(owner := Armed))
    case Absent =>
      if w.owner.Probing? && w.live == w.missed then Some(w.(owner := Proven)) else None
    case Disown =>
      if w.owner.Proven? then Some(w.(group := false, lock := None, owner := Released)) else None
    case Reap(ok) =>
      if !w.owner.Released? then None
      else if !ok then Some(w.(owner := Resting))
      else if w.leader.Alive? then None
      else Some(w.(leader := Reaped, owner := Joining, closed := true, cleanupFailed := true, stop := true))
    case Join(ok) =>
      if !w.owner.Joining? || !w.watcher.Ended? then None
      else Some(w.(owner := Resting, cleanupFailed := !(ok && w.watcher.ok)))
    case _ => None
  }

  function WatcherStep(w: World, s: Step): Option<World> {
    match s
    case Lock =>
      if w.watcher.Looping? && w.lock.None? then Some(w.(lock := Some(Watcher), watcher := Looking)) else None
    case Look(due) =>
      if !w.watcher.Looking? then None
      else if w.group && (due || !w.leader.Alive?) then Some(w.(watcher := Striking))
      else Some(w.(lock := None, watcher := Copying))
    case WatcherSignal(delivered) =>
      if !w.watcher.Striking? then None
      else Some(w.(lock := None, watcher := if delivered || w.live == 0 then Copying else Ended(false)))
    case Copy(n) =>
      if w.watcher.Copying? && 0 < n <= BUFFER && n <= w.unread
      then Some(w.(unread := w.unread - n, watcher := Looping)) else None
    case Retry => if w.watcher.Copying? then Some(w.(watcher := Looping)) else None
    case Empty => if w.watcher.Copying? && w.unread == 0 then Some(w.(watcher := Testing)) else None
    case Test => if w.watcher.Testing? then Some(w.(watcher := if w.stop then Ended(true) else Looping)) else None
    case Break =>
      if w.watcher.Looking? then Some(w.(lock := None, watcher := Ended(false)))
      else if w.watcher.Copying? then Some(w.(watcher := Ended(false))) else None
    case _ => None
  }

  function Next(w: World, s: Step): Option<World> {
    if KernelStep(w, s).Some? then KernelStep(w, s)
    else if OwnerStep(w, s).Some? then OwnerStep(w, s)
    else WatcherStep(w, s)
  }

  function Exec(w: World, run: seq<Step>): Option<World> {
    if run == [] then Some(w)
    else match Exec(w, run[..|run| - 1])
      case Some(m) => Next(m, run[|run| - 1])
      case None => None
  }

  predicate IsSignal(s: Step) {
    s.OwnerSignal? || s.WatcherSignal?
  }

  function Signaller(s: Step): Thread
    requires IsSignal(s)
  {
    if s.OwnerSignal? then Owner else Watcher
  }

  /** The job is finished: reaped, its output collected and its cleanup confirmed. */
  predicate Finished(w: World) {
    w.closed && !w.cleanupFailed
  }

  ghost predicate Inv(w: World) {
    && (w.lock == Some(Owner) <==> w.owner in {Entered, Armed, Probing, Proven})
    && (w.lock == Some(Watcher) <==> w.watcher in {Looking, Striking})
    && (w.owner in {Armed, Probing, Proven} ==> w.group)
    && (w.watcher.Striking? ==> w.group)
    && w.missed <= w.live && (w.leader.Alive? ==> w.missed < w.live)
    && (ProbedPast(w) ==> w.live == w.missed)
    && (w.leader.Reaped? ==> !w.group)
    && (w.closed <==> w.leader.Reaped?)
    && (w.owner.Released? ==> !w.group && !w.closed)
    && (w.owner in {Entered, Armed, Probing, Proven} ==> !w.closed)
    && (w.owner.Joining? ==> w.closed && w.cleanupFailed)
    && (w.stop <==> w.closed)
    && (w.cleanupFailed ==> w.closed)
    && (Finished(w) ==> w.watcher == Ended(true) && w.owner.Resting?)
    && (w.watcher == Ended(true) ==> w.stop)
  }

  lemma KernelKeepsInv(w: World, s: Step)
    requires Inv(w) && KernelStep(w, s).Some?
    ensures Inv(KernelStep(w, s).value)
  {
  }

  lemma OwnerKeepsInv(w: World, s: Step)
    requires Inv(w) && OwnerStep(w, s).Some?
    ensures Inv(OwnerStep(w, s).value)
  {
  }

  lemma WatcherKeepsInv(w: World, s: Step)
    requires Inv(w) && WatcherStep(w, s).Some?
    ensures Inv(WatcherStep(w, s).value)
  {
  }

  lemma StepKeepsInv(w: World, s: Step)
    requires Inv(w) && Next(w, s).Some?
    ensures Inv(Next(w, s).value)
  {
    if KernelStep(w, s).Some? {
      KernelKeepsInv(w, s);
    } else if OwnerStep(w, s).Some? {
      OwnerKeepsInv(w, s);
    } else {
      WatcherKeepsInv(w, s);
    }
  }

  lemma {:induction false} ExecKeepsInv(w: World, run: seq<Step>)
    requires Inv(w) && Exec(w, run).Some?
    ensures Inv(Exec(w, run).value)
  {
    hide Inv, Next;
    if run != [] {
      var init := run[..|run| - 1];
      ExecKeepsInv(w, init);
      StepKeepsInv(Exec(w, init).value, run[|run| - 1]);
    }
  }

  /** In every interleaving a signal is sent only by the thread that holds the lock, while the group
      is owned and its leader unreaped: the id it names can be nobody else's. */
  lemma SignalsAreOwned(run: seq<Step>, s: Step)
    requires Exec(SPAWNED, run).Some? && IsSignal(s) && Next(Exec(SPAWNED, run).value, s).Some?
    ensures var w := Exec(SPAWNED, run).value;
            w.lock == Some(Signaller(s)) && w.group && !w.leader.Reaped?
  {
    ExecKeepsInv(SPAWNED, run);
  }

  /** Disowning is for good: from then on nothing is signalled. */
  lemma DisownedStep(w: World, s: Step)
    requires Inv(w) && !w.group && Next(w, s).Some?
    ensures !Next(w, s).value.group && !IsSignal(s)
    ensures w.live == 0 ==> Next(w, s).value.live == 0 && !s.Forks?
  {
  }

  lemma {:induction false} DisownedForGood(w: World, more: seq<Step>)
    requires Inv(w) && !w.group && Exec(w, more).Some?
    ensures !Exec(w, more).value.group && forall s <- more :: !IsSignal(s)
    ensures w.live == 0 ==> Exec(w, more).value.live == 0
  {
    hide Next, IsSignal;
    if more != [] {
      var init := more[..|more| - 1];
      DisownedForGood(w, init);
      ExecKeepsInv(w, init);
      DisownedStep(Exec(w, init).value, more[|more| - 1]);
      StepKeepsInv(Exec(w, init).value, more[|more| - 1]);
      assert more == init + [more[|more| - 1]];
    }
  }

  /** No fork fell behind the probe. */
  ghost predicate NoneBehind(run: seq<Step>) {
    forall s <- run :: s != Forks(true)
  }

  lemma SeenStep(w: World, s: Step)
    requires Inv(w) && w.missed == 0 && s != Forks(true) && Next(w, s).Some?
    ensures Next(w, s).value.missed == 0
  {
  }

  lemma {:induction false} NoneMissed(run: seq<Step>)
    requires Exec(SPAWNED, run).Some? && NoneBehind(run)
    ensures Exec(SPAWNED, run).value.missed == 0
  {
    hide Next, Inv;
    if run != [] {
      var init := run[..|run| - 1];
      assert NoneBehind(init) by {
        assert forall s <- init :: s in run;
      }
      NoneMissed(init);
      assert Inv(SPAWNED) by { Spawned(); }
      ExecKeepsInv(SPAWNED, init);
      assert run[|run| - 1] in run;
      SeenStep(Exec(SPAWNED, init).value, run[|run| - 1]);
    }
  }

  lemma Spawned()
    ensures Inv(SPAWNED)
  {
  }

  /** When a group is disowned, what may still live of it are members forked behind the probe and theirs:
      without such a fork it is dead. */
  lemma DisownedDead(run: seq<Step>)
    requires Exec(SPAWNED, run).Some? && !Exec(SPAWNED, run).value.group
    ensures Exec(SPAWNED, run).value.live == Exec(SPAWNED, run).value.missed
    ensures NoneBehind(run) ==> Exec(SPAWNED, run).value.live == 0
  {
    ExecKeepsInv(SPAWNED, run);
    if NoneBehind(run) {
      NoneMissed(run);
    }
  }

  const SURVIVING := [Enter, Claim, OwnerSignal(true), Forks(true), LeaderExits, Absent, Disown]

  /** Such a fork is possible, and its child survives: the probe passes the entry the leader then forks
      into, the leader dies of the signal, and the group is disowned as dead with one member alive. */
  lemma MemberCanSurvive()
    ensures var end := Exec(SPAWNED, SURVIVING); end.Some? && !end.value.group && end.value.live == 1
  {
    var w1 := SPAWNED.(lock := Some(Owner), owner := Entered);
    var w3 := w1.(owner := Probing);
    var w4 := w3.(live := 2, missed := 1);
    var w5 := w4.(leader := Zombie, live := 1);
    var w7 := w5.(group := false, lock := None, owner := Released);
    assert Exec(SPAWNED, []) == Some(SPAWNED);
    Then(SPAWNED, [], Enter, SURVIVING[..1], SPAWNED, w1);
    Then(SPAWNED, SURVIVING[..1], Claim, SURVIVING[..2], w1, w1.(owner := Armed));
    Then(SPAWNED, SURVIVING[..2], OwnerSignal(true), SURVIVING[..3], w1.(owner := Armed), w3);
    Then(SPAWNED, SURVIVING[..3], Forks(true), SURVIVING[..4], w3, w4);
    Then(SPAWNED, SURVIVING[..4], LeaderExits, SURVIVING[..5], w4, w5);
    Then(SPAWNED, SURVIVING[..5], Absent, SURVIVING[..6], w5, w5.(owner := Proven));
    Then(SPAWNED, SURVIVING[..6], Disown, SURVIVING, w5.(owner := Proven), w7);
  }

  lemma Then(start: World, run: seq<Step>, s: Step, whole: seq<Step>, w: World, v: World)
    requires Exec(start, run) == Some(w) && Next(w, s) == Some(v) && whole == run + [s]
    ensures Exec(start, whole) == Some(v)
  {
    assert whole[..|run|] == run;
  }

  /** Once `finish` has succeeded no signal is ever sent again, and a group then dead stays dead; it is
      dead unless a fork fell behind the probe. */
  lemma FinishedForGood(run: seq<Step>, more: seq<Step>)
    requires Exec(SPAWNED, run).Some? && Finished(Exec(SPAWNED, run).value)
    requires Exec(Exec(SPAWNED, run).value, more).Some?
    ensures forall s <- more :: !IsSignal(s)
    ensures Finished(Exec(Exec(SPAWNED, run).value, more).value)
    ensures NoneBehind(run) ==> Exec(Exec(SPAWNED, run).value, more).value.live == 0
  {
    ExecKeepsInv(SPAWNED, run);
    DisownedDead(run);
    DisownedForGood(Exec(SPAWNED, run).value, more);
    StaysFinished(Exec(SPAWNED, run).value, more);
  }

  lemma {:induction false} StaysFinished(w: World, more: seq<Step>)
    requires Inv(w) && Finished(w) && Exec(w, more).Some?
    ensures Finished(Exec(w, more).value)
  {
    if more != [] {
      var init := more[..|more| - 1];
      StaysFinished(w, init);
      ExecKeepsInv(w, init);
    }
  }

  /** A leader is reaped only by a `finish` that first read the whole process table without finding a
      live member, and disowned the group. */
  lemma ReapedAfterProof(run: seq<Step>)
    requires Exec(SPAWNED, run).Some? && Exec(SPAWNED, run).value.leader.Reaped?
    ensures !Exec(SPAWNED, run).value.group && (NoneBehind(run) ==> Exec(SPAWNED, run).value.live == 0)
    ensures exists i, j :: 0 <= i < j < |run| && run[i] == Absent && run[j] == Disown
  {
    ExecKeepsInv(SPAWNED, run);
    DisownedDead(run);
    DisownHappened(run);
  }

  lemma ProofStep(w: World, s: Step)
    requires Next(w, s).Some?
    ensures !w.owner.Proven? && Next(w, s).value.owner.Proven? ==> s == Absent
    ensures w.group && !Next(w, s).value.group ==> s == Disown && w.owner.Proven?
  {
  }

  lemma {:induction false} AbsenceSeen(run: seq<Step>)
    requires Exec(SPAWNED, run).Some? && Exec(SPAWNED, run).value.owner.Proven?
    ensures exists i :: 0 <= i < |run| && run[i] == Absent
  {
    hide Next;
    if run != [] {
      var init := run[..|run| - 1];
      if Exec(SPAWNED, init).value.owner.Proven? {
        AbsenceSeen(init);
        var i :| 0 <= i < |init| && init[i] == Absent;
        assert run[i] == Absent;
      } else {
        ProofStep(Exec(SPAWNED, init).value, run[|run| - 1]);
        assert run[|run| - 1] == Absent;
      }
    }
  }

  lemma {:induction false} DisownHappened(run: seq<Step>)
    requires Exec(SPAWNED, run).Some? && !Exec(SPAWNED, run).value.group
    ensures exists i, j :: 0 <= i < j < |run| && run[i] == Absent && run[j] == Disown
  {
    hide Next;
    if run != [] {
      var init := run[..|run| - 1];
      if Exec(SPAWNED, init).value.group {
        ProofStep(Exec(SPAWNED, init).value, run[|run| - 1]);
        assert run[|run| - 1] == Disown && Exec(SPAWNED, init).value.owner.Proven?;
        AbsenceSeen(init);
        var i :| 0 <= i < |init| && init[i] == Absent;
        assert run[i] == Absent && run[|run| - 1] == Disown;
      } else {
        DisownHappened(init);
        var i, j :| 0 <= i < j < |init| && init[i] == Absent && init[j] == Disown;
        assert run[i] == Absent && run[j] == Disown;
      }
    }
  }

  // ------------------------------------------------------------ joining the watcher

  predicate IsWatching(s: Step) {
    s.Lock? || s.Look? || s.WatcherSignal? || s.Copy? || s.Retry? || s.Empty? || s.Test? || s.Break?
  }

  /** How many steps the watcher takes in a run. */
  function Watching(run: seq<Step>): nat {
    if run == [] then 0 else Watching(run[..|run| - 1]) + if IsWatching(run[|run| - 1]) then 1 else 0
  }

  /** How many bytes are written to the pipe in a run. */
  function Written(run: seq<Step>): nat {
    if run == [] then 0 else Written(run[..|run| - 1]) + if run[|run| - 1].Writes? then run[|run| - 1].count else 0
  }

  /** How many reads are interrupted in a run. */
  function Retries(run: seq<Step>): nat {
    if run == [] then 0 else Retries(run[..|run| - 1]) + if run[|run| - 1].Retry? then 1 else 0
  }

  /** How many more steps the watcher takes at most before it ends, once told to stop, if nothing more
      is written and no read is interrupted. */
  function ToEnd(w: World): nat {
    match w.watcher
    case Looping => 3 * w.unread + 4
    case Looking => 3 * w.unread + 3
    case Striking => 3 * w.unread + 3
    case Copying => 3 * w.unread + 2
    case Testing => 1
    case Ended(_) => 0
  }

  /** What a step may add to that. */
  function Added(s: Step): nat {
    match s
    case Writes(n) => 3 * n
    case Retry => 3
    case _ => 0
  }

  lemma JoiningStep(w: World, s: Step)
    requires Inv(w) && w.owner.Joining? && Next(w, s).Some? && Next(w, s).value.owner.Joining?
    ensures ToEnd(Next(w, s).value) + (if IsWatching(s) then 1 else 0) <= ToEnd(w) + Added(s)
  {
  }

  /** The watcher cannot take more steps than the bytes it has yet to read account for: those in the
      pipe when the owner came to join, those written since, and the reads interrupted since. */
  lemma {:induction false} JoinBounded(w: World, more: seq<Step>)
    requires Inv(w) && w.owner.Joining? && Exec(w, more).Some? && Exec(w, more).value.owner.Joining?
    ensures Watching(more) + ToEnd(Exec(w, more).value) <= ToEnd(w) + 3 * (Written(more) + Retries(more))
  {
    hide Next, Inv, ToEnd, IsWatching;
    if more != [] {
      var init, s := more[..|more| - 1], more[|more| - 1];
      ExecKeepsInv(w, init);
      StaysJoining(w, init, s);
      JoinBounded(w, init);
      JoiningStep(Exec(w, init).value, s);
    }
  }

  /** The owner comes to join once only. */
  lemma Rejoins(w: World, s: Step)
    requires Inv(w) && !w.owner.Joining? && Next(w, s).Some? && Next(w, s).value.owner.Joining?
    ensures w.owner.Released? && !w.closed
  {
  }

  lemma {:induction false} LeftJoin(w: World, more: seq<Step>)
    requires Inv(w) && w.closed && Exec(w, more).Some?
    ensures Exec(w, more).value.closed
  {
    if more != [] {
      LeftJoin(w, more[..|more| - 1]);
      ExecKeepsInv(w, more[..|more| - 1]);
    }
  }

  /** While the owner joins, the watcher can always move: nobody keeps the lock from it. */
  lemma JoinNeverStuck(w: World)
    requires Inv(w) && w.owner.Joining? && !w.watcher.Ended?
    ensures exists s :: IsWatching(s) && Next(w, s).Some?
  {
    var s := match w.watcher
      case Looping => Lock
      case Looking => Look(false)
      case Striking => WatcherSignal(true)
      case Copying => if w.unread == 0 then Empty else Copy(1)
      case _ => Test;
    assert w.lock.Some? ==> w.lock.value == Watcher;
    assert IsWatching(s) && KernelStep(w, s).None? && OwnerStep(w, s).None? && WatcherStep(w, s).Some?;
  }

  /** A join ends with all output collected if and only if the watcher found the pipe empty since: after
      that only the test of the stop is left. */
  lemma {:induction false} JoinEndsEmpty(w: World, more: seq<Step>)
    requires Inv(w) && w.owner.Joining? && !Emptied(w)
    requires Exec(w, more).Some? && Exec(w, more).value.owner.Joining?
    ensures Emptied(Exec(w, more).value) <==> Empty in more
  {
    hide Inv, Emptied, Next;
    if more != [] {
      var init, s := more[..|more| - 1], more[|more| - 1];
      ExecKeepsInv(w, init);
      StaysJoining(w, init, s);
      JoinEndsEmpty(w, init);
      EmptyStep(Exec(w, init).value, s);
      assert more == init + [s];
    }
  }

  /** The watcher has found the pipe empty and not gone back to reading. */
  predicate Emptied(w: World) {
    w.watcher.Testing? || w.watcher == Ended(true)
  }

  lemma EmptyStep(w: World, s: Step)
    requires Inv(w) && w.owner.Joining? && Next(w, s).Some? && Next(w, s).value.owner.Joining?
    ensures Emptied(Next(w, s).value) <==> Emptied(w) || s == Empty
  {
  }

  lemma JoiningStops(w: World)
    requires Inv(w) && w.owner.Joining?
    ensures w.stop && !w.group && w.closed
  {
  }

  lemma StaysJoining(w: World, init: seq<Step>, s: Step)
    requires Inv(w) && w.owner.Joining? && Exec(w, init).Some? && Inv(Exec(w, init).value)
    requires Next(Exec(w, init).value, s).Some? && Next(Exec(w, init).value, s).value.owner.Joining?
    ensures Exec(w, init).value.owner.Joining?
  {
    if !Exec(w, init).value.owner.Joining? {
      JoiningStops(w);
      Rejoins(Exec(w, init).value, s);
      LeftJoin(w, init);
    }
  }

  /** In every interleaving a join is never stuck, takes no more of the watcher's steps than the bytes and
      interrupted reads it meets account for, and comes to its end exactly once the pipe is found empty. */
  lemma JoinEnds(run: seq<Step>, more: seq<Step>)
    requires Exec(SPAWNED, run).Some? && Exec(SPAWNED, run).value.owner.Joining?
    requires Exec(Exec(SPAWNED, run).value, more).Some?
    requires Exec(Exec(SPAWNED, run).value, more).value.owner.Joining?
    ensures var w := Exec(SPAWNED, run).value;
            var v := Exec(w, more).value;
            && Watching(more) <= ToEnd(w) + 3 * (Written(more) + Retries(more))
            && (!Emptied(w) ==> (Emptied(v) <==> Empty in more))
            && (v.watcher.Ended? || exists s :: IsWatching(s) && Next(v, s).Some?)
  {
    assert Inv(SPAWNED);
    hide Next, Inv, ToEnd, IsWatching, Emptied;
    ExecKeepsInv(SPAWNED, run);
    var w := Exec(SPAWNED, run).value;
    ExecKeepsInv(w, more);
    JoinBounded(w, more);
    if !Emptied(w) {
      JoinEndsEmpty(w, more);
    }
    if !Exec(w, more).value.watcher.Ended? {
      JoinNeverStuck(Exec(w, more).value);
    }
  }

  /** A round of the watcher while somebody outside the group keeps writing. */
  const ROUND := [Lock, Look(false), Writes(1), Copy(1)]

  function Rounds(n: nat): seq<Step> {
    if n == 0 then [] else Rounds(n - 1) + ROUND
  }

  const FINISHING := [LeaderExits, Enter, Claim, OwnerSignal(true), Absent, Disown, Reap(true)]
  const JOINING := World(None, false, Reaped, 0, 0, 0, true, Joining, Looping, true, true)

  lemma FinishingJoins()
    ensures Exec(SPAWNED, FINISHING) == Some(JOINING)
  {
    var w1 := SPAWNED.(leader := Zombie, live := 0);
    var w2 := w1.(lock := Some(Owner), owner := Entered);
    var w6 := w1.(group := false, owner := Released);
    assert Exec(SPAWNED, []) == Some(SPAWNED);
    Then(SPAWNED, [], LeaderExits, FINISHING[..1], SPAWNED, w1);
    Then(SPAWNED, FINISHING[..1], Enter, FINISHING[..2], w1, w2);
    Then(SPAWNED, FINISHING[..2], Claim, FINISHING[..3], w2, w2.(owner := Armed));
    Then(SPAWNED, FINISHING[..3], OwnerSignal(true), FINISHING[..4], w2.(owner := Armed), w2.(owner := Probing));
    Then(SPAWNED, FINISHING[..4], Absent, FINISHING[..5], w2.(owner := Probing), w2.(owner := Proven));
    Then(SPAWNED, FINISHING[..5], Disown, FINISHING[..6], w2.(owner := Proven), w6);
    Then(SPAWNED, FINISHING[..6], Reap(true), FINISHING, w6, JOINING);
  }

  lemma RoundReturns()
    ensures Exec(JOINING, ROUND) == Some(JOINING)
  {
    var w1 := JOINING.(lock := Some(Watcher), watcher := Looking);
    var w2 := JOINING.(watcher := Copying);
    assert Exec(JOINING, []) == Some(JOINING);
    Then(JOINING, [], Lock, ROUND[..1], JOINING, w1);
    Then(JOINING, ROUND[..1], Look(false), ROUND[..2], w1, w2);
    Then(JOINING, ROUND[..2], Writes(1), ROUND[..3], w2, w2.(unread := 1));
    Then(JOINING, ROUND[..3], Copy(1), ROUND, w2.(unread := 1), JOINING);
  }

  lemma {:induction false} ExecConcat(w: World, a: seq<Step>, b: seq<Step>)
    ensures Exec(w, a + b) == match Exec(w, a) case Some(m) => Exec(m, b) case None => None
  {
    hide Next;
    if b == [] {
      assert a + b == a;
    } else {
      var n := |a + b|;
      assert (a + b)[..n - 1] == a + b[..|b| - 1] && (a + b)[n - 1] == b[|b| - 1];
      ExecConcat(w, a, b[..|b| - 1]);
    }
  }

  /** A join can be drawn out without end: a process outside the group that keeps the pipe and writes as
      fast as it is read keeps the owner joining through any number of rounds. */
  lemma {:induction false} JoinCanBeProlonged(n: nat)
    ensures Exec(SPAWNED, FINISHING + Rounds(n)) == Some(JOINING) && Watching(Rounds(n)) == 3 * n
  {
    hide Exec;
    if n == 0 {
      FinishingJoins();
      assert FINISHING + Rounds(0) == FINISHING;
    } else {
      JoinCanBeProlonged(n - 1);
      RoundReturns();
      ExecConcat(SPAWNED, FINISHING + Rounds(n - 1), ROUND);
      Regroup(FINISHING, Rounds(n - 1), ROUND);
      WatchingRound(Rounds(n - 1));
    }
  }

  lemma Regroup(a: seq<Step>, b: seq<Step>, c: seq<Step>)
    ensures a + (b + c) == a + b + c
  {
  }

  lemma WatchingSnoc(run: seq<Step>, s: Step)
    ensures Watching(run + [s]) == Watching(run) + if IsWatching(s) then 1 else 0
  {
    assert (run + [s])[..|run|] == run;
  }

  lemma WatchingRound(run: seq<Step>)
    ensures Watching(run + ROUND) == Watching(run) + 3
  {
    WatchingSnoc(run, Lock);
    WatchingSnoc(run + [Lock], Look(false));
    WatchingSnoc(run + [Lock] + [Look(false)], Writes(1));
    WatchingSnoc(run + [Lock] + [Look(false)] + [Writes(1)], Copy(1));
    assert run + ROUND == run + [Lock] + [Look(false)] + [Writes(1)] + [Copy(1)];
    hide Watching;
  }

  /** A failed `finish` leaves the job either still owned, so it can be finished later, or disowned
      and never to be reported finished. */
  lemma {:induction false} LostForGood(w: World, more: seq<Step>)
    requires Inv(w) && !w.group && !w.closed && w.owner.Resting? && Exec(w, more).Some?
    ensures var v := Exec(w, more).value;
            !v.group && !v.closed && v.owner in {Resting, Entered}
  {
    if more != [] {
      var init := more[..|more| - 1];
      LostForGood(w, init);
      ExecKeepsInv(w, init);
    }
  }
}
