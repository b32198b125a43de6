/** The resumable controller: one saved snapshot, one service, and any number of runs over both, each
    of which may fail or crash at every save and every call. */
module Controller {
  import opened Wrappers

  type Id = string

  datatype Snap = Snap(
    project: string, agent: string, model: Option<string>, anchor: string, key: Id,
    session: Option<Id>, environment: Option<Id>, attachment: Option<Id>, credential: Option<Id>,
    run: Option<Id>, clean: bool, claimKey: Option<Id>, claim: Option<Id>, started: bool, turnKey: Option<Id>)

  function NewSession(project: string, agent: string, model: Option<string>, anchor: string, key: Id): Snap {
    Snap(project, agent, model, anchor, key, None, None, None, None, None, false, None, None, false, None)
  }

  /** What the service remembers, by idempotency key: a repeated request creates nothing. */
  datatype Server = Server(
    sessions: map<Id, Id>, environments: map<Id, Id>, attachments: map<Id, Id>,
    claims: map<Id, Id>, turns: map<Id, Id>)

  /** An executor begins under a claim, its cleanup is confirmed, the confirmation becomes durable. */
  datatype Event = Serving(claim: Id) | Confirmed(claim: Id) | Recorded

  datatype Phase = Idle | Live(claim: Id) | Quiet

  datatype Stop = Crashed | Failed
  datatype Refusal = OtherIdentity | OtherModel | NotCleaned | OtherAgent
  datatype Args = Args(
    project: string, agent: Option<string>, model: Option<string>, anchor: string, journal: bool, text: Option<string>)

  /** What the outside allows: anything, everything, or everything but the service. */
  datatype Weather = Any | Fair | Down

  /** Whether the executor of a run has begun, and its cleanup been confirmed. */
  datatype Stage = Unbegun | Serves | Done

  /** How far a run got before it ended. */
  datatype Reached = Opened | Claiming | Starting | Served(confirmed: bool)

  /** The phase a legal history is in: executors never overlap, and one follows another only after
      the earlier one's cleanup was confirmed and that confirmation made durable. */
  function PhaseOf(trace: seq<Event>): Option<Phase> {
    if trace == [] then Some(Idle) else
      var before := PhaseOf(trace[..|trace| - 1]);
      match (before, trace[|trace| - 1])
      case (Some(Idle), Serving(k)) => Some(Live(k))
      case (Some(Live(k)), Confirmed(c)) => if k == c then Some(Quiet) else None
      case (Some(Quiet), Recorded) => Some(Idle)
      case _ => None
  }

  lemma PhaseSnoc(trace: seq<Event>, e: Event)
    ensures PhaseOf(trace + [e]) == match (PhaseOf(trace), e)
      case (Some(Idle), Serving(k)) => Some(Live(k))
      case (Some(Live(k)), Confirmed(c)) => if k == c then Some(Quiet) else None
      case (Some(Quiet), Recorded) => Some(Idle)
      case _ => None
  {
    assert (trace + [e])[..|trace|] == trace;
  }

  ghost predicate ServedUnder(trace: seq<Event>, k: Id) {
    Serving(k) in trace
  }

  /** No claim is served under twice. */
  ghost predicate ServedOnce(trace: seq<Event>) {
    forall i, j :: 0 <= i < j < |trace| && trace[i].Serving? && trace[j].Serving? ==> trace[i] != trace[j]
  }

  /** What a snapshot says about the service is so. */
  ghost predicate Faithful(s: Snap, server: Server) {
    && (s.session.Some? ==> s.key in server.sessions && server.sessions[s.key] == s.session.value)
    && (s.environment.Some? ==> s.key in server.environments && server.environments[s.key] == s.environment.value)
    && (s.attachment.Some? ==> s.key in server.attachments && server.attachments[s.key] == s.attachment.value)
    && (s.claim.Some? ==> s.claimKey.Some? && s.claimKey.value in server.claims
                          && server.claims[s.claimKey.value] == s.claim.value)
    && (s.run.Some? ==> s.turnKey.Some? && s.turnKey.value in server.turns
                        && server.turns[s.turnKey.value] == s.run.value)
  }

  /** The service holds nothing this session did not ask for under its own key. */
  ghost predicate Owned(s: Snap, server: Server) {
    && server.sessions.Keys <= {s.key} && server.environments.Keys <= {s.key} && server.attachments.Keys <= {s.key}
    && (s.session.None? ==> server.environments == map[])
    && (s.environment.None? ==> server.attachments == map[])
  }

  /** Every turn the service accepted is either the current one or has its run id on record. */
  ghost predicate TurnsKept(s: Snap, server: Server, recorded: map<Id, Id>) {
    forall k <- server.turns :: s.turnKey == Some(k) || (k in recorded && recorded[k] == server.turns[k])
  }

  /** What a snapshot says about executors is so. */
  ghost predicate Guarded(s: Snap, trace: seq<Event>) {
    && PhaseOf(trace).Some?
    && (s.clean ==> s.started)
    && (PhaseOf(trace) != Some(Idle) ==> s.started)
    && (s.claimKey.Some? && !s.started ==> !ServedUnder(trace, s.claimKey.value))
  }

  /** Its keys were handed out. */
  ghost predicate Named(s: Snap, used: set<Id>) {
    && (s.claimKey.Some? ==> s.claimKey.value in used)
    && (s.turnKey.Some? ==> s.turnKey.value in used)
  }

  /** A snapshot that may be the durable one. */
  ghost predicate Sound(s: Snap, server: Server, trace: seq<Event>, recorded: map<Id, Id>, used: set<Id>) {
    && Faithful(s, server) && Owned(s, server) && TurnsKept(s, server, recorded)
    && Guarded(s, trace) && Named(s, used)
  }

  /** What has happened so far is legal, and used only identities handed out. */
  ghost predicate Lawful(server: Server, trace: seq<Event>, used: set<Id>) {
    && ServedOnce(trace)
    && (forall e <- trace :: e.Serving? ==> e.claim in used)
    && server.turns.Keys <= used
  }

  lemma StartedUnlessIdle(s: Snap, server: Server, trace: seq<Event>, recorded: map<Id, Id>, used: set<Id>)
    requires Sound(s, server, trace, recorded, used)
    ensures PhaseOf(trace) != Some(Idle) ==> s.started
  {
  }

  /** Two snapshots of one session: nothing that identifies it differs. */
  predicate Alike(s: Snap, t: Snap) {
    s.project == t.project && s.agent == t.agent && s.model == t.model && s.anchor == t.anchor && s.key == t.key
  }

  /** What resuming checks, in its order. */
  function ValidateResume(args: Args, s: Snap): Result<(), Refusal> {
    if s.project != args.project || s.anchor != args.anchor then Failure(OtherIdentity)
    else if args.model.Some? && s.model != args.model then Failure(OtherModel)
    else if s.started && (!s.clean || !args.journal) then Failure(NotCleaned)
    else if args.agent.Some? && args.agent != Some(s.agent) then Failure(OtherAgent)
    else Success(())
  }

  /** What a run leaves decides what resuming finds, for whoever could resume before it. A run that
      fails before it claims leaves the session resumable exactly when no executor had been started in
      it: the failure is saved as "not clean", although the last executor is long gone. */
  predicate StillResumable(args: Args, before: Snap, reached: Reached) {
    match reached
    case Opened => !before.started
    case Claiming => true
    case Starting => false
    case Served(confirmed) => confirmed && args.journal
  }

  /** What each ending leaves of a snapshot. */
  ghost predicate Leaves(before: Snap, reached: Reached, after: Snap) {
    && Alike(before, after) && (after.clean <==> reached == Served(true))
    && match reached
       case Opened => after == before.(clean := false, session := after.session,
                                       environment := after.environment, attachment := after.attachment)
       case Claiming => !after.started
       case Starting => after.started
       case Served(_) => after.started
  }

  lemma ResumeFinds(args: Args, before: Snap, reached: Reached, after: Snap)
    requires Leaves(before, reached, after) && ValidateResume(args, before).Success?
    ensures ValidateResume(args, after).Success? <==> StillResumable(args, before, reached)
  {
  }

  /** The service made one thing more under this key, or nothing. */
  ghost predicate Grows(before: map<Id, Id>, after: map<Id, Id>, key: Id) {
    after == before || (key !in before && after.Keys == before.Keys + {key} && before == after - {key})
  }

  lemma ClaimGrows(
    s: Snap, server: Server, claims: map<Id, Id>, trace: seq<Event>, recorded: map<Id, Id>, used: set<Id>)
    requires Sound(s, server, trace, recorded, used) && Lawful(server, trace, used)
    requires s.claimKey.Some? && !s.started && Grows(server.claims, claims, s.claimKey.value)
    ensures Sound(s, server.(claims := claims), trace, recorded, used)
    ensures Lawful(server.(claims := claims), trace, used)
    ensures s.claimKey.value in claims ==>
              Sound(s.(claim := Some(claims[s.claimKey.value])), server.(claims := claims), trace, recorded, used)
  {
    hide PhaseOf, ServedUnder, ServedOnce;
  }

  lemma AttachmentGrows(
    s: Snap, server: Server, made: map<Id, Id>, trace: seq<Event>, recorded: map<Id, Id>, used: set<Id>)
    requires Sound(s, server, trace, recorded, used) && Lawful(server, trace, used)
    requires s.environment.Some? && Grows(server.attachments, made, s.key)
    ensures Sound(s, server.(attachments := made), trace, recorded, used)
    ensures Lawful(server.(attachments := made), trace, used)
    ensures s.key in made ==>
              Sound(s.(attachment := Some(made[s.key])), server.(attachments := made), trace, recorded, used)
  {
    hide PhaseOf, ServedUnder, ServedOnce;
  }

  lemma TurnRecorded(s: Snap, server: Server, trace: seq<Event>, recorded: map<Id, Id>, used: set<Id>)
    requires Sound(s, server, trace, recorded, used) && s.turnKey.Some? && s.turnKey.value in server.turns
    ensures Sound(s.(run := Some(server.turns[s.turnKey.value])), server, trace, recorded, used)
  {
    hide PhaseOf, ServedUnder, ServedOnce;
  }

  lemma TurnGrows(s: Snap, server: Server, turns: map<Id, Id>, trace: seq<Event>, recorded: map<Id, Id>, used: set<Id>)
    requires Sound(s, server, trace, recorded, used) && Lawful(server, trace, used) && s.turnKey.Some?
    requires Grows(server.turns, turns, s.turnKey.value)
    ensures Sound(s, server.(turns := turns), trace, recorded, used)
    ensures Lawful(server.(turns := turns), trace, used)
    ensures s.turnKey.value in turns ==>
              Sound(s.(run := Some(turns[s.turnKey.value])), server.(turns := turns), trace, recorded, used)
  {
    hide PhaseOf, ServedUnder, ServedOnce;
    assert forall k <- server.turns :: k in turns && turns[k] == server.turns[k];
    assert forall k <- turns :: k in server.turns || k == s.turnKey.value;
    assert Sound(s, server.(turns := turns), trace, recorded, used);
    hide Sound, Lawful;
    if s.turnKey.value in turns {
      TurnRecorded(s, server.(turns := turns), trace, recorded, used);
    }
  }

  class Session {
    var value: Snap
    var durable: Snap
    var server: Server
    var used: set<Id>
    var weather: Weather
    ghost var trace: seq<Event>
    ghost var recorded: map<Id, Id>

    /** Holds at every moment, whatever fails or crashes. */
    ghost predicate Inv()
      reads this
    {
      && Sound(durable, server, trace, recorded, used) && Lawful(server, trace, used)
      && (durable.run.Some? ==>
            durable.turnKey.Some? && durable.turnKey.value in recorded
            && recorded[durable.turnKey.value] == durable.run.value)
      && (PhaseOf(trace) != Some(Idle) ==> !durable.clean)
    }

    /** Besides, saving the remembered snapshot would keep it so. */
    ghost predicate Savable()
      reads this
    {
      && Inv() && Alike(value, durable)
      && Sound(value, server, trace, recorded, used)
      && (value.clean && !durable.clean ==> PhaseOf(trace) == Some(Quiet))
      && (value.clean ==> PhaseOf(trace) in {Some(Idle), Some(Quiet)})
    }

    /** Between steps of a run memory and disk agree. */
    ghost predicate Settled()
      reads this
    {
      Savable() && value == durable
    }

    /** No executor is alive or awaiting confirmation. */
    ghost predicate Free()
      reads this
    {
      Settled() && PhaseOf(trace) == Some(Idle)
    }

    constructor (project: string, agent: string, model: Option<string>, anchor: string, key: Id)
      ensures Free() && durable == NewSession(project, agent, model, anchor, key)
      ensures trace == [] && server == Server(map[], map[], map[], map[], map[])
      ensures weather == Any
    {
      value := NewSession(project, agent, model, anchor, key);
      durable := NewSession(project, agent, model, anchor, key);
      server, trace, recorded, used := Server(map[], map[], map[], map[], map[]), [], map[], {};
      weather := Any;
    }

    /** Replace the durable snapshot. A failed or crashed save leaves it wholly old or wholly new. */
    method Save() returns (res: Result<(), Stop>)
      requires Savable()
      modifies this`durable, this`trace, this`recorded
      ensures Savable()
      ensures res.Success? ==> Settled()
      ensures durable == value || durable == old(durable)
      ensures PhaseOf(trace) == if durable == value && value.clean then Some(Idle) else PhaseOf(old(trace))
      ensures forall k :: ServedUnder(trace, k) <==> ServedUnder(old(trace), k)
      ensures !value.clean ==> trace == old(trace)
      ensures !weather.Any? ==> res.Success?
    {
      var replaced: bool := *;
      var stop: bool := *;
      stop := stop && weather.Any?;
      if replaced || !stop {
        if value.run.Some? {
          recorded := recorded[value.turnKey.value := value.run.value];
        }
        if value.clean && !durable.clean {
          PhaseSnoc(trace, Recorded);
          trace := trace + [Recorded];
        }
        durable := value;
      }
      if stop {
        var crash: bool := *;
        return Failure(if crash then Crashed else Failed);
      }
      return Success(());
    }

    /** Ask the service to create something under a key. It may have, whether or not the answer
        arrives; a repeated key is answered with what it made first. */
    method Request(table: map<Id, Id>, key: Id) returns (after: map<Id, Id>, res: Result<Id, Stop>)
      ensures Grows(table, after, key)
      ensures res.Success? ==> key in after && after[key] == res.value
      ensures weather.Fair? ==> res.Success?
      ensures weather.Down? ==> after == table && res == Failure(Failed)
    {
      after := table;
      var arrived: bool := *;
      arrived := (arrived || weather.Fair?) && !weather.Down?;
      if arrived && key !in table {
        var id: Id := *;
        after := table[key := id];
        assert table == after - {key};
      }
      var answered: bool := *;
      if arrived && (answered || weather.Fair?) {
        return after, Success(after[key]);
      }
      var crash: bool := *;
      return after, Failure(if crash && weather.Any? then Crashed else Failed);
    }

    method Identity() returns (id: Id)
      modifies this`used
      ensures id !in old(used) && used == old(used) + {id}
    {
      ghost var unused := Another(used, '0');
      id :| id !in used;
      used := used + {id};
    }

    /** A step that only asks, and may fail. */
    method Ask() returns (res: Result<(), Stop>)
      ensures weather.Fair? ==> res.Success?
      ensures weather.Down? ==> res == Failure(Failed)
    {
      var ok: bool := *;
      var crash: bool := *;
      if weather.Fair? || (ok && weather.Any?) {
        return Success(());
      }
      return Failure(if crash && weather.Any? then Crashed else Failed);
    }

    /** Create the session, the environment and the attachment, each once, each recorded before the next. */
    method Provision() returns (res: Result<(), Stop>)
      requires Free()
      modifies this`value, this`server, this`durable, this`trace, this`recorded
      ensures Savable() && PhaseOf(trace) == Some(Idle)
      ensures value.started == old(value).started && durable.started == old(durable).started
      ensures value.clean == old(value).clean && durable.clean == old(durable).clean
      ensures value == old(value).(session := value.session, environment := value.environment,
                                   attachment := value.attachment)
      ensures old(value).session.Some? ==> value.session == old(value).session
      ensures old(value).environment.Some? ==> value.environment == old(value).environment
      ensures old(value).attachment.Some? ==> value.attachment == old(value).attachment
      ensures res.Success? ==> Free() && value.session.Some? && value.environment.Some? && value.attachment.Some?
      ensures weather.Fair? ==> res.Success?
      ensures weather.Down? && res.Failure? ==> res.error == Failed
      ensures Alike(old(durable), durable)
    {
      if value.session.None? {
        var _ :- CreateSession();
      }
      if value.environment.None? {
        var _ :- CreateEnvironment();
      }
      if value.attachment.Some? {
        return Success(());
      }
      res := CreateAttachment();
    }

    method CreateSession() returns (res: Result<(), Stop>)
      requires Free() && value.session.None?
      modifies this`value, this`server, this`durable, this`trace, this`recorded
      ensures Savable() && PhaseOf(trace) == Some(Idle)
      ensures value == old(value).(session := value.session)
      ensures durable == value || durable == old(durable)
      ensures res.Success? ==> Free() && value.session.Some?
      ensures weather.Fair? ==> res.Success?
      ensures weather.Down? ==> res == Failure(Failed)
    {
      hide Sound, Lawful;
      res := RequestSession();
      if res.Success? {
        res := Save();
      }
    }

    method RequestSession() returns (res: Result<(), Stop>)
      requires Settled() && value.session.None?
      modifies this`value, this`server
      ensures Savable() && value == old(value).(session := value.session)
      ensures res.Success? ==> value.session.Some?
      ensures weather.Fair? ==> res.Success?
      ensures weather.Down? ==> res == Failure(Failed)
    {
      var sessions, id := Request(server.sessions, value.key);
      server := server.(sessions := sessions);
      if id.Failure? {
        return Failure(id.error);
      }
      value := value.(session := Some(id.value));
      return Success(());
    }

    method CreateEnvironment() returns (res: Result<(), Stop>)
      requires Free() && value.session.Some? && value.environment.None?
      modifies this`value, this`server, this`durable, this`trace, this`recorded
      ensures Savable() && PhaseOf(trace) == Some(Idle)
      ensures value == old(value).(environment := value.environment)
      ensures durable == value || durable == old(durable)
      ensures res.Success? ==> Free() && value.environment.Some?
      ensures weather.Fair? ==> res.Success?
      ensures weather.Down? ==> res == Failure(Failed)
    {
      hide Sound, Lawful;
      res := RequestEnvironment();
      if res.Success? {
        res := Save();
      }
    }

    method RequestEnvironment() returns (res: Result<(), Stop>)
      requires Settled() && value.session.Some? && value.environment.None?
      modifies this`value, this`server
      ensures Savable() && value == old(value).(environment := value.environment)
      ensures res.Success? ==> value.environment.Some?
      ensures weather.Fair? ==> res.Success?
      ensures weather.Down? ==> res == Failure(Failed)
    {
      var environments, id := Request(server.environments, value.key);
      server := server.(environments := environments);
      if id.Failure? {
        return Failure(id.error);
      }
      value := value.(environment := Some(id.value));
      return Success(());
    }

    method CreateAttachment() returns (res: Result<(), Stop>)
      requires Free() && value.session.Some? && value.environment.Some?
      modifies this`value, this`server, this`durable, this`trace, this`recorded
      ensures Savable() && PhaseOf(trace) == Some(Idle)
      ensures value == old(value).(attachment := value.attachment)
      ensures durable == value || durable == old(durable)
      ensures res.Success? ==> Free() && value.attachment.Some?
      ensures weather.Fair? ==> res.Success?
      ensures weather.Down? ==> res == Failure(Failed)
    {
      hide Sound, Lawful;
      res := RequestAttachment();
      if res.Success? {
        res := Save();
      }
    }

    method RequestAttachment() returns (res: Result<(), Stop>)
      requires Settled() && value.session.Some? && value.environment.Some?
      modifies this`value, this`server
      ensures Savable() && value == old(value).(attachment := value.attachment)
      ensures res.Success? ==> value.attachment.Some?
      ensures weather.Fair? ==> res.Success?
      ensures weather.Down? ==> res == Failure(Failed)
    {
      hide Sound, Lawful, Grows;
      var attachments, id := Request(server.attachments, value.key);
      AttachmentGrows(value, server, attachments, trace, recorded, used);
      server := server.(attachments := attachments);
      if id.Failure? {
        return Failure(id.error);
      }
      value := value.(attachment := Some(id.value));
      return Success(());
    }

    /** A claim under which no executor has run: a new one, recorded before it is made, when there is
        none or the last one's executor finished cleanly. */
    method AcquireClaim() returns (res: Result<(), Stop>)
      requires Free() && (value.started ==> value.clean)
      modifies this`value, this`server, this`durable, this`trace, this`recorded, this`used
      ensures Savable() && PhaseOf(trace) == Some(Idle)
      ensures !value.started && !value.clean
      ensures res.Success? ==> Free() && value.claim.Some? && value.claimKey.Some?
      ensures res.Success? ==> !ServedUnder(trace, value.claimKey.value)
      ensures old(value).claimKey.Some? && !old(value).clean ==> value.claimKey == old(value).claimKey
      ensures res.Success? && (old(value).claimKey.None? || old(value).clean) ==> value.claimKey.value !in old(used)
      ensures Alike(old(value), value) && (weather.Fair? ==> res.Success?)
    {
      if value.claimKey.None? || value.clean {
        var _ :- ResetClaim();
      }
      if value.claim.None? {
        res := MakeClaim();
      } else {
        res := Success(());
      }
    }

    method ResetClaim() returns (res: Result<(), Stop>)
      requires Free()
      modifies this`value, this`durable, this`trace, this`recorded, this`used
      ensures Savable() && PhaseOf(trace) == Some(Idle)
      ensures !value.started && !value.clean
      ensures value.claimKey.Some? && value.claimKey.value !in old(used) && value.claim.None?
      ensures res.Success? ==> Free()
      ensures Alike(old(value), value) && (!weather.Any? ==> res.Success?)
    {
      var key := Identity();
      assert !ServedUnder(trace, key);
      value := value.(claimKey := Some(key), claim := None, started := false, clean := false);
      res := Save();
    }

    method MakeClaim() returns (res: Result<(), Stop>)
      requires Free() && value.claimKey.Some? && !value.started
      modifies this`value, this`server, this`durable, this`trace, this`recorded
      ensures Savable() && PhaseOf(trace) == Some(Idle)
      ensures value == old(value).(claim := value.claim)
      ensures res.Success? ==> Free() && value.claim.Some?
      ensures weather.Fair? ==> res.Success?
    {
      hide Sound, Lawful;
      res := RequestClaim();
      if res.Success? {
        res := Save();
      }
    }

    method RequestClaim() returns (res: Result<(), Stop>)
      requires Settled() && value.claimKey.Some? && !value.started
      modifies this`value, this`server
      ensures Savable() && value == old(value).(claim := value.claim)
      ensures res.Success? ==> value.claim.Some?
      ensures weather.Fair? ==> res.Success?
    {
      hide Sound, Lawful, Grows;
      var claims, id := Request(server.claims, value.claimKey.value);
      ClaimGrows(value, server, claims, trace, recorded, used);
      server := server.(claims := claims);
      if id.Failure? {
        return Failure(id.error);
      }
      value := value.(claim := Some(id.value));
      return Success(());
    }

    /** Obtain a credential and record, before anything runs, that an executor is being started. */
    method AcquireBootstrap() returns (res: Result<(), Stop>, reached: Reached)
      requires Free() && (value.started ==> value.clean)
      modifies this`value, this`server, this`durable, this`trace, this`recorded, this`used
      ensures Savable() && PhaseOf(trace) == Some(Idle) && !value.clean
      ensures reached in {Claiming, Starting} && (reached.Starting? <==> value.started)
      ensures res.Success? ==> Free() && reached.Starting? && value.claimKey.Some? && value.credential.Some?
      ensures res.Success? ==> !ServedUnder(trace, value.claimKey.value)
      ensures Alike(old(value), value) && (weather.Fair? ==> res.Success?)
    {
      reached := Claiming;
      res := AcquireClaim();
      if res.Failure? {
        return;
      }
      res := Ask();
      if res.Failure? {
        return;
      }
      var credential: Id := *;
      value := value.(credential := Some(credential), clean := false, started := true);
      reached := Starting;
      res := Save();
    }

    /** An executor may serve under this claim: the durable snapshot says one was started. */
    ghost predicate Attached(claim: Id, stage: Stage)
      reads this
    {
      && Savable() && value.started && !value.clean && durable.started && !durable.clean
      && match stage
         case Unbegun => PhaseOf(trace) == Some(Idle) && !ServedUnder(trace, claim) && claim in used
         case Serves => PhaseOf(trace) == Some(Live(claim))
         case Done => PhaseOf(trace) == Some(Quiet)
    }

    /** Serve under the claim and submit the turn, both at once; both end before the result is known. */
    method RunAttached(text: Option<string>) returns (res: Result<Reached, Stop>)
      requires Free() && value.started && !value.clean && value.claimKey.Some?
      requires !ServedUnder(trace, value.claimKey.value)
      modifies this`value, this`server, this`durable, this`trace, this`recorded, this`used
      ensures Inv() && Alike(old(value), value) && Alike(old(durable), durable)
      ensures res != Failure(Crashed) ==> Savable() && value.started && !value.clean
      ensures res.Failure? ==> res.error.Crashed?
      ensures res.Success? ==> res.value in {Starting, Served(true), Served(false)}
      ensures res == Success(Served(true)) ==> PhaseOf(trace) == Some(Quiet)
      ensures res == Success(Starting) ==> PhaseOf(trace) == Some(Idle)
      ensures weather.Fair? ==> res == Success(Served(true))
    {
      hide Sound, Lawful, ServedUnder;
      ghost var claim := value.claimKey.value;
      ClaimInUse();
      var stage := Meanwhile(claim, Unbegun);
      var submitted;
      submitted, stage := Submit(text, claim, stage);
      if submitted == Failure(Crashed) {
        return Failure(Crashed);
      }
      stage := Meanwhile(claim, stage);
      var crash: bool := *;
      if crash && weather.Any? {
        return Failure(Crashed);
      }
      return Success(if stage.Unbegun? then Starting else Served(stage.Done?));
    }

    lemma ClaimInUse()
      requires Savable() && value.claimKey.Some?
      ensures value.claimKey.value in used
    {
    }

    /** Whatever else goes on, the executor may begin now, and its cleanup be confirmed. */
    method Meanwhile(ghost claim: Id, stage: Stage) returns (after: Stage)
      requires Attached(claim, stage)
      modifies this`trace
      ensures Attached(claim, after)
      ensures stage.Serves? ==> !after.Unbegun?
      ensures stage.Done? ==> after.Done?
      ensures weather.Fair? ==> after.Done?
    {
      hide Sound, Lawful, ServedUnder;
      after := stage;
      var begun: bool := *;
      if after.Unbegun? && (begun || weather.Fair?) {
        Begin(claim);
        after := Serves;
      }
      var confirmed: bool := *;
      if after.Serves? && (confirmed || weather.Fair?) {
        Confirm(claim);
        after := Done;
      }
    }

    /** The executor begins: the durable snapshot already says so. */
    ghost method Begin(claim: Id)
      requires Attached(claim, Unbegun)
      modifies this`trace
      ensures Attached(claim, Serves)
    {
      PhaseSnoc(trace, Serving(claim));
      trace := trace + [Serving(claim)];
    }

    /** Its cleanup, local and remote, is confirmed. */
    ghost method Confirm(claim: Id)
      requires Attached(claim, Serves)
      modifies this`trace
      ensures Attached(claim, Done)
    {
      PhaseSnoc(trace, Confirmed(claim));
      trace := trace + [Confirmed(claim)];
    }

    /** Append the turn while the executor goes its way. A new turn key is minted, and recorded, only
        once the last turn's run id is. */
    method Submit(text: Option<string>, ghost claim: Id, stage: Stage) returns (res: Result<(), Stop>, after: Stage)
      requires Settled() && Attached(claim, stage)
      modifies this`value, this`server, this`durable, this`trace, this`recorded, this`used
      ensures Attached(claim, after)
      ensures value == old(value).(turnKey := value.turnKey, run := value.run)
      ensures text.None? ==> value == old(value)
      ensures res.Success? && text.Some? ==> Settled() && value.run.Some?
      ensures old(value).turnKey.Some? && old(value).run.None? ==> value.turnKey == old(value).turnKey
      ensures res.Success? && text.Some? && (old(value).turnKey.None? || old(value).run.Some?) ==>
                value.turnKey.value !in old(used)
      ensures weather.Fair? ==> res.Success?
    {
      hide Sound, Lawful, ServedUnder;
      after := stage;
      if text.None? {
        return Success(()), after;
      }
      res := Ask();
      if res.Failure? {
        return;
      }
      after := Meanwhile(claim, after);
      if value.turnKey.None? || value.run.Some? {
        res := MintTurn(claim, after);
        if res.Failure? {
          return;
        }
      }
      after := Meanwhile(claim, after);
      res := AppendTurn(claim, after);
    }

    method MintTurn(ghost claim: Id, ghost stage: Stage) returns (res: Result<(), Stop>)
      requires Settled() && Attached(claim, stage) && (value.turnKey.None? || value.run.Some?)
      modifies this`value, this`durable, this`trace, this`recorded, this`used
      ensures Attached(claim, stage)
      ensures value == old(value).(turnKey := value.turnKey, run := None)
      ensures value.turnKey.Some? && value.turnKey.value !in old(used)
      ensures res.Success? ==> Settled()
      ensures !weather.Any? ==> res.Success?
    {
      var key := Identity();
      value := value.(turnKey := Some(key), run := None);
      res := Save();
    }

    method AppendTurn(ghost claim: Id, ghost stage: Stage) returns (res: Result<(), Stop>)
      requires Settled() && Attached(claim, stage) && value.turnKey.Some?
      modifies this`value, this`server, this`durable, this`trace, this`recorded
      ensures Attached(claim, stage)
      ensures value == old(value).(run := value.run)
      ensures res.Success? ==> Settled() && value.run.Some?
      ensures weather.Fair? ==> res.Success?
    {
      hide Sound, Lawful, ServedUnder;
      res := RequestTurn();
      if res.Success? {
        res := Save();
      }
    }

    method RequestTurn() returns (res: Result<(), Stop>)
      requires Settled() && !value.clean && value.turnKey.Some?
      modifies this`value, this`server
      ensures Savable() && value == old(value).(run := value.run)
      ensures res.Success? ==> value.run.Some?
      ensures weather.Fair? ==> res.Success?
    {
      hide Sound, Lawful;
      var key := value.turnKey.value;
      var turns, id := Request(server.turns, key);
      TurnGrows(value, server, turns, trace, recorded, used);
      server := server.(turns := turns);
      if id.Failure? {
        return Failure(id.error);
      }
      value := value.(run := Some(id.value));
      return Success(());
    }

    // ------------------------------------------------------------ whole runs

    method ExecuteSaved(text: Option<string>) returns (res: Result<Reached, Stop>, reached: Reached)
      requires Free() && (value.started ==> value.clean)
      modifies this`value, this`server, this`durable, this`trace, this`recorded, this`used
      ensures Inv()
      ensures res != Failure(Crashed) ==> Savable()
      ensures res.Success? ==> reached == res.value && value.started && !value.clean
      ensures res.Success? ==> reached in {Starting, Served(true), Served(false)}
      ensures res == Success(Served(true)) ==> PhaseOf(trace) == Some(Quiet)
      ensures reached.Served? ==> res.Success?
      ensures !reached.Served? && res != Failure(Crashed) ==> PhaseOf(trace) == Some(Idle)
      ensures !old(value).started && text.None? ==> res == Failure(Failed) && reached.Opened?
      ensures reached.Opened? && res == Failure(Failed) ==>
                value == old(value).(session := value.session, environment := value.environment,
                                     attachment := value.attachment)
      ensures Alike(old(value), value) && Alike(old(durable), durable)
      ensures weather.Fair? && (old(value).started || text.Some?) ==> res == Success(Served(true))
      ensures weather.Down? ==> res == Failure(Failed) && reached.Opened?
      ensures reached.Claiming? && res == Failure(Failed) ==> !value.started
      ensures reached.Starting? && res == Failure(Failed) ==> value.started
    {
      hide Sound, Lawful, ServedUnder;
      reached := Opened;
      if !value.started && text.None? {
        return Failure(Failed), reached;
      }
      var provisioned := Provision();
      if provisioned.Failure? {
        return Failure(provisioned.error), reached;
      }
      var same := Ask();
      if same.Failure? {
        return Failure(same.error), reached;
      }
      var ready;
      ready, reached := AcquireBootstrap();
      if ready.Failure? {
        return Failure(ready.error), reached;
      }
      res := RunAttached(text);
      if res.Success? {
        reached := res.value;
      }
    }

    /** One whole run, and the final save that says whether it ended clean: what it leaves, and so who can
        resume it. */
    method Execute(text: Option<string>) returns (res: Result<bool, Stop>, reached: Reached)
      requires Free() && (value.started ==> value.clean)
      modifies this`value, this`server, this`durable, this`trace, this`recorded, this`used
      ensures Inv() && Alike(old(durable), durable)
      ensures res.Success? ==> (res.value <==> reached == Served(true)) && Leaves(old(durable), reached, durable)
      ensures res.Success? ==> forall args :: ValidateResume(args, old(durable)).Success? ==>
                (ValidateResume(args, durable).Success? <==> StillResumable(args, old(durable), reached))
      ensures res.Success? && (res.value || !reached.Served?) ==> PhaseOf(trace) == Some(Idle)
      ensures weather.Fair? && (old(durable).started || text.Some?) ==> res == Success(true)
      ensures weather.Down? ==> res == Success(false) && reached.Opened?
    {
      hide Sound, Lawful, ServedUnder;
      var outcome;
      outcome, reached := ExecuteSaved(text);
      if outcome == Failure(Crashed) {
        return Failure(Crashed), reached;
      }
      assert outcome.Failure? ==> outcome.error == Failed;
      EndWith(reached == Served(true));
      var saved := Save();
      if saved.Failure? {
        return Failure(saved.error), reached;
      }
      forall args | ValidateResume(args, old(durable)).Success?
        ensures ValidateResume(args, durable).Success? <==> StillResumable(args, old(durable), reached)
      {
        ResumeFinds(args, old(durable), reached, durable);
      }
      return Success(reached == Served(true)), reached;
    }

    method EndWith(confirmed: bool)
      requires Savable() && (confirmed ==> value.started && PhaseOf(trace) == Some(Quiet))
      modifies this`value
      ensures Savable() && value == old(value).(clean := confirmed)
    {
      value := value.(clean := confirmed);
    }

    /** Open the snapshot in a new process, which remembers nothing else. It is taken up exactly when
        the checks pass, and then no executor of an earlier run is unaccounted for. */
    method Resume(args: Args) returns (res: Result<Result<(), Refusal>, Stop>)
      requires Inv()
      modifies this`value, this`durable, this`trace, this`recorded
      ensures Inv() && durable == old(durable)
      ensures !durable.clean ==> trace == old(trace)
      ensures res.Success? ==> res.value == ValidateResume(args, durable)
      ensures res == Success(Success(())) ==> Free() && (value.started ==> value.clean)
      ensures !weather.Any? ==> res.Success?
    {
      hide Sound, Lawful;
      value := durable;
      assert PhaseOf(trace) != Some(Idle) ==> durable.started by {
        StartedUnlessIdle(durable, server, trace, recorded, used);
      }
      var _ :- Save();
      return Success(ValidateResume(args, value));
    }

    /** Any number of runs, each resuming what the last one left. Whatever fails or crashes wherever,
        executors never overlap, no claim serves twice, and the service holds at most one session,
        one environment and one attachment. */
    method Life(runs: seq<Args>)
      requires Free() && (value.started ==> value.clean)
      modifies this
      ensures PhaseOf(trace).Some? && ServedOnce(trace)
      ensures PhaseOf(trace).value != Idle ==> durable.started && !durable.clean
      ensures |server.sessions| <= 1 && |server.environments| <= 1 && |server.attachments| <= 1
      ensures TurnsKept(durable, server, recorded) && Alike(old(durable), durable)
    {
      for i := 0 to |runs|
        invariant Inv() && Alike(old(durable), durable)
      {
        var resumed := Resume(runs[i]);
        if resumed == Success(Success(())) {
          var _, _ := Execute(runs[i].text);
        }
      }
      AtMostOne(server.sessions, durable.key);
      AtMostOne(server.environments, durable.key);
      AtMostOne(server.attachments, durable.key);
    }
  }

  /** The run that locks a session out. Its first executor ends cleanly; it is resumed while the service
      is down, which is reported as something to resume after; and then it is refused to everybody. */
  method LockOut(args: Args, key: Id) returns (s: Session, denied: Result<Result<(), Refusal>, Stop>)
    requires args.agent.Some? && args.text.Some? && args.journal
    ensures denied == Success(Failure(NotCleaned))
    ensures PhaseOf(s.trace) == Some(Idle)
    ensures forall other :: ValidateResume(other, s.durable).Failure?
  {
    hide Sound, Lawful, ServedOnce, Guarded, TurnsKept, Faithful, Owned, Named;
    s := new Session(args.project, args.agent.value, args.model, args.anchor, key);
    s.weather := Fair;
    ghost var created := s.durable;
    var first, ended := s.Execute(args.text);
    assert Alike(created, s.durable) && s.durable.started && s.durable.clean;
    s.weather := Down;
    var resumed := s.Resume(args);
    assert resumed == Success(Success(()));
    ghost var finished := s.durable;
    var second, early := s.Execute(args.text);
    assert s.durable.started && !s.durable.clean && Alike(finished, s.durable);
    s.weather := Fair;
    denied := s.Resume(args);
  }

  lemma AtMostOne(table: map<Id, Id>, key: Id)
    requires table.Keys <= {key}
    ensures |table| <= 1
  {
    assert |table.Keys| <= |{key}| by {
      if table.Keys != {} {
        assert table.Keys == {key};
      }
    }
  }
}
