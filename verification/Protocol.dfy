/** The executor as a machine of durable steps, over any number of processes that share one journal.
    An append can fail and its process live on; a process can stop between any two steps, or in the
    middle of an append. */
module Protocol {
  import opened Wrappers
  import opened Ledger

  /** What happened to the outside world and to the journal, in order, over all processes. `Logged`
      says a record was written whole; `Slipped`, right after it, that its append nevertheless failed. */
  datatype Event =
    | Admitted(teardownVerified: bool)
    | Logged(record: Record)
    | Slipped(record: Record)
    | Began(key: Key)
    | Submitted(key: Key, receipt: Receipt)

  /** What slipped records say that memory does not. */
  datatype Owed = Owed(
    intents: map<Key, Digest>, receipts: map<Key, Receipt>, acks: set<Key>, handles: map<Id, HandleState>, clean: bool)

  const NOTHING := Owed(map[], map[], {}, map[], false)

  /** A live process: the journal it remembers, what slipped past it, intents it may begin, and effects
      it has begun. */
  datatype Process = Process(state: State, owed: Owed, ready: set<Key>, running: set<Key>)

  /** `log` is what a reader can read: nothing behind a cut write. */
  datatype Sys = Sys(log: seq<Record>, torn: bool, process: Option<Process>, trace: seq<Event>)

  const INIT := Sys([], false, None, [])

  datatype Action =
    | Create(binding: Binding, instance: string)
    | Attach(binding: Binding, instance: string)
    | TearDown(id: Id, binding: Binding, instance: string)
    | Restart(binding: Binding, instance: string, teardownVerified: bool)
    | Compact(keys: seq<Key>, ids: seq<Id>)
    | Write(record: Record)
    | Slip(record: Record)
    | Cut(record: Record)
    | Begin(key: Key)
    | Submit(key: Key)
    | Stop(torn: bool)

  function Append(s: Sys, r: Record): Sys {
    s.(log := if s.torn then s.log else s.log + [r], trace := s.trace + [Logged(r)])
  }

  function Live(s: Sys, p: Process): Sys {
    s.(process := Some(p))
  }

  /** What the file says of a process's journal: its memory and what slipped past it. */
  function OnFile(st: State, o: Owed): State {
    st.(entries := OnFileEntries(st.entries, o), handles := st.handles + o.handles, clean := st.clean || o.clean)
  }

  function OnFileEntries(entries: map<Key, Entry>, o: Owed): map<Key, Entry> {
    map k | k in entries.Keys + o.intents.Keys ::
      if k in entries then
        Entry(entries[k].request, if k in o.receipts then Some(o.receipts[k]) else entries[k].receipt,
              entries[k].acknowledged || k in o.acks)
      else Entry(o.intents[k], None, false)
  }

  /** What is owed is what memory lacks: no more. */
  ghost predicate Due(st: State, o: Owed) {
    && o.intents.Keys !! st.entries.Keys
    && o.receipts.Keys <= Uncertain(st)
    && (forall k <- o.acks :: k in st.entries && st.entries[k].receipt.Some? && !st.entries[k].acknowledged)
    && (forall id <- o.handles :: id in st.handles ==> st.handles[id] != o.handles[id])
    && (o.clean ==> !st.clean)
  }

  // What each step of a process taking the journal over makes of the situation.

  function Fresh(st: State): Process {
    Process(st, NOTHING, {}, {})
  }

  function AfterCreate(s: Sys, b: Binding, i: string): Sys {
    Live(Append(s, Header(b, i)), Fresh(Blank(b, i)))
  }

  function AfterAttach(s: Sys, prior: State): Sys {
    Live(s, Fresh(prior))
  }

  function AfterTearDown(s: Sys, id: Id, h: HandleState): Sys {
    Append(s, Handle(id, TornDown(h)))
  }

  function AfterRestart(s: Sys, prior: State, b: Binding, i: string, teardownVerified: bool): Sys {
    Live(Append(s.(trace := s.trace + [Admitted(teardownVerified)]), Header(b, i)),
         Fresh(prior.(binding := b, instance := i, clean := false)))
  }

  /** Steps of a process taking the journal over. */
  ghost function Open(s: Sys, a: Action): Option<Sys>
    requires a.Create? || a.Attach? || a.TearDown? || a.Restart?
  {
    if s.process.Some? || s.torn then None
    else if s.log == [] then
      if a.Create? then Some(AfterCreate(s, a.binding, a.instance)) else None
    else if a.Create? || Replay(s.log).None? then None
    else
      var prior := Replay(s.log).value;
      match a
      case Attach(b, i) =>
        if Gate(prior, b, i, false).SameProcess? then Some(AfterAttach(s, prior)) else None
      case TearDown(id, b, i) =>
        if Gate(prior, b, i, true).NewProcess? && id in RunningHandles(prior) then
          Some(AfterTearDown(s, id, prior.handles[id]))
        else None
      case Restart(b, i, teardown) =>
        if Gate(prior, b, i, teardown).NewProcess? && (teardown ==> RunningHandles(prior) == {}) then
          Some(AfterRestart(s, prior, b, i, teardown))
        else None
  }

  // What each step of a live process makes of the situation.

  function SetEntry(st: State, k: Key, e: Entry): State {
    st.(entries := st.entries[k := e])
  }

  /** What a process makes of its own successful append. */
  function Remember(p: Process, r: Record): Process {
    match r
    case Header(_, _) => p
    case Intent(k, q) => p.(state := SetEntry(p.state, k, Entry(q, None, false)), ready := p.ready + {k})
    case Receipted(k, v) =>
      if k !in p.state.entries then p
      else p.(state := SetEntry(p.state, k, p.state.entries[k].(receipt := Some(v))), running := p.running - {k})
    case Ack(k) =>
      if k !in p.state.entries then p
      else p.(state := SetEntry(p.state, k, p.state.entries[k].(acknowledged := true)),
              owed := p.owed.(acks := p.owed.acks - {k}))
    case Handle(id, h) =>
      p.(state := p.state.(handles := p.state.handles[id := h]), owed := p.owed.(handles := p.owed.handles - {id}))
    case Clean => p.(state := p.state.(clean := true), owed := p.owed.(clean := false))
  }

  /** What is owed once a record slipped past memory. */
  function Owe(st: State, o: Owed, r: Record): Owed {
    match r
    case Header(_, _) => o
    case Intent(k, q) => o.(intents := o.intents[k := q])
    case Receipted(k, v) => o.(receipts := o.receipts[k := v])
    case Ack(k) => o.(acks := o.acks + {k})
    case Handle(id, h) =>
      if id in st.handles && st.handles[id] == h then o.(handles := o.handles - {id})
      else o.(handles := o.handles[id := h])
    case Clean => o.(clean := !st.clean)
  }

  /** A record was appended, and its process knows. */
  function AfterWrite(s: Sys, r: Record): Sys
    requires s.process.Some?
  {
    Live(Append(s, r), Remember(s.process.value, r))
  }

  /** A record was written whole and its append failed nevertheless. */
  function AfterSlip(s: Sys, r: Record): Sys
    requires s.process.Some?
  {
    var p := s.process.value;
    Live(Append(s, r).(trace := s.trace + [Logged(r)] + [Slipped(r)]), p.(owed := Owe(p.state, p.owed, r)))
  }

  function AfterBegin(s: Sys, k: Key): Sys
    requires s.process.Some?
  {
    var p := s.process.value;
    Live(s.(trace := s.trace + [Began(k)]), p.(ready := p.ready - {k}, running := p.running + {k}))
  }

  function AfterSubmit(s: Sys, k: Key, v: Receipt): Sys {
    s.(trace := s.trace + [Submitted(k, v)])
  }

  /** What a live process may append: an intent it does not know, unless one slipped before; the receipt
      of an effect it began, unless it slipped before; the acknowledgement of a submitted receipt; a
      handle; the clean mark when it remembers nothing uncertain and no journaled process runs. */
  ghost predicate MayAppend(s: Sys, r: Record) {
    && s.process.Some? && Appendable(s.process.value, r)
    && (r.Ack? ==> Submitted(r.key, s.process.value.state.entries[r.key].receipt.value) in s.trace)
  }

  ghost predicate Appendable(p: Process, r: Record) {
    match r
    case Header(_, _) => false
    case Intent(k, _) => k !in p.state.entries && p.owed.intents == map[]
    case Receipted(k, _) => k in p.running && k !in p.owed.receipts
    case Ack(k) =>
      k in p.state.entries && p.state.entries[k].receipt.Some? && !p.state.entries[k].acknowledged
    case Handle(_, _) => true
    case Clean => Uncertain(p.state) == {} && RunningHandles(OnFile(p.state, p.owed)) == {}
  }

  /** Steps of a live process. */
  ghost function Act(s: Sys, a: Action): Option<Sys>
    requires s.process.Some?
    requires !(a.Create? || a.Attach? || a.TearDown? || a.Restart? || a.Stop?)
  {
    var p := s.process.value;
    var st := p.state;
    match a
    case Compact(keys, ids) =>
      if !s.torn && p.owed == NOTHING && Enumerates(keys, st.entries.Keys) && Enumerates(ids, st.handles.Keys) then
        Some(s.(log := Snapshot(st, keys, ids)))
      else None
    case Write(r) => if MayAppend(s, r) then Some(AfterWrite(s, r)) else None
    case Slip(r) => if MayAppend(s, r) then Some(AfterSlip(s, r)) else None
    case Cut(r) => if MayAppend(s, r) then Some(s.(torn := true)) else None
    case Begin(k) => if k in p.ready then Some(AfterBegin(s, k)) else None
    case Submit(k) =>
      if k in st.entries && st.entries[k].receipt.Some? then Some(AfterSubmit(s, k, st.entries[k].receipt.value))
      else None
  }

  ghost function Apply(s: Sys, a: Action): Option<Sys> {
    match a
    case Create(_, _) => Open(s, a)
    case Attach(_, _) => Open(s, a)
    case TearDown(_, _, _) => Open(s, a)
    case Restart(_, _, _) => Open(s, a)
    case Stop(torn) => Some(s.(process := None, torn := s.torn || torn))
    case _ => if s.process.Some? then Act(s, a) else None
  }

  ghost function Exec(s: Sys, run: seq<Action>): Option<Sys> {
    if run == [] then Some(s)
    else match Exec(s, run[..|run| - 1])
      case Some(t) => Apply(t, run[|run| - 1])
      case None => None
  }

  ghost predicate Reachable(s: Sys) {
    exists run :: Exec(INIT, run) == Some(s)
  }

  // ------------------------------------------------------------ what is safe

  function HandlesOf(trace: seq<Event>): map<Id, HandleState> {
    if trace == [] then map[]
    else
      var before, e := HandlesOf(trace[..|trace| - 1]), trace[|trace| - 1];
      if e.Logged? && e.record.Handle? then before[e.record.id := e.record.state] else before
  }

  ghost predicate NoneRunning(handles: map<Id, HandleState>) {
    forall id <- handles :: !handles[id].status.Running?
  }

  /** Whether the newest header has been followed by a clean mark. */
  predicate CleanSinceHeader(trace: seq<Event>) {
    if trace == [] then false
    else
      var e := trace[|trace| - 1];
      if e.Logged? && e.record.Clean? then true
      else if e.Logged? && e.record.Header? then false
      else CleanSinceHeader(trace[..|trace| - 1])
  }

  ghost predicate IntentIn(k: Key, trace: seq<Event>) {
    exists q :: Logged(Intent(k, q)) in trace
  }

  ghost predicate ReceiptIn(k: Key, trace: seq<Event>) {
    exists v :: Logged(Receipted(k, v)) in trace
  }

  /** An intent is journaled, its receipt is not. */
  ghost predicate Unreceipted(k: Key, trace: seq<Event>) {
    IntentIn(k, trace) && !ReceiptIn(k, trace)
  }

  /** An intent was journaled by an append that failed. */
  ghost predicate Lost(k: Key, trace: seq<Event>) {
    exists q :: Slipped(Intent(k, q)) in trace
  }

  /** Every journaled intent has a journaled receipt. */
  ghost predicate Settled(trace: seq<Event>) {
    forall k :: IntentIn(k, trace) ==> ReceiptIn(k, trace)
  }

  /** What must already have happened, and not have happened, when `e` happens. */
  ghost predicate SafeNext(past: seq<Event>, e: Event) {
    match e
    case Began(k) => Began(k) !in past && IntentIn(k, past) && !ReceiptIn(k, past)
    case Submitted(k, v) => Logged(Receipted(k, v)) in past
    case Admitted(teardown) =>
      Settled(past) && (if teardown then NoneRunning(HandlesOf(past)) else CleanSinceHeader(past))
    case Slipped(r) => past != [] && past[|past| - 1] == Logged(r)
    case Logged(Intent(k, _)) => !IntentIn(k, past)
    case Logged(Receipted(k, _)) => Began(k) in past && !ReceiptIn(k, past)
    case Logged(Ack(k)) => exists v :: Submitted(k, v) in past
    case Logged(Header(b, _)) =>
      && Settled(past)
      && forall b', i' :: Logged(Header(b', i')) in past ==> b'.epoch < b.epoch && SameIdentity(b', b)
    case Logged(Clean) => NoneRunning(HandlesOf(past)) && forall k :: Unreceipted(k, past) <==> Lost(k, past)
    case Logged(Handle(_, _)) => true
  }

  ghost predicate SafeEvent(trace: seq<Event>, i: nat)
    requires i < |trace|
  {
    SafeNext(trace[..i], trace[i])
  }

  ghost predicate Safe(trace: seq<Event>) {
    forall i: nat :: i < |trace| ==> SafeEvent(trace, i)
  }

  // ------------------------------------------------------------ the invariant

  /** The entries remembered are exactly the intents, receipts and acknowledgements of the history. */
  ghost predicate EntriesAgree(entries: map<Key, Entry>, trace: seq<Event>) {
    && (forall k <- entries :: Logged(Intent(k, entries[k].request)) in trace)
    && (forall k, q :: Logged(Intent(k, q)) in trace ==> k in entries && entries[k].request == q)
    && (forall k <- entries ::
          entries[k].receipt.Some? ==> Logged(Receipted(k, entries[k].receipt.value)) in trace)
    && (forall k, v :: Logged(Receipted(k, v)) in trace ==> k in entries && entries[k].receipt == Some(v))
    && (forall k <- entries ::
          entries[k].acknowledged ==> entries[k].receipt.Some? && Logged(Ack(k)) in trace)
    && (forall k :: Logged(Ack(k)) in trace ==> k in entries && entries[k].acknowledged)
  }

  /** The journal's state and the history of events say the same thing. */
  ghost predicate Agrees(st: State, trace: seq<Event>) {
    && EntriesAgree(st.entries, trace)
    && st.handles == HandlesOf(trace)
    && st.clean == CleanSinceHeader(trace)
    && (forall b, i :: Logged(Header(b, i)) in trace ==> b.epoch <= st.binding.epoch && SameIdentity(b, st.binding))
  }

  /** What a live process holds in hand is uncertain, and begun exactly when it runs; none of it was
      lost. */
  ghost predicate Held(p: Process, trace: seq<Event>) {
    && p.ready !! p.running
    && p.ready + p.running <= Uncertain(p.state)
    && p.owed.receipts.Keys <= p.running
    && (forall k <- p.ready :: Began(k) !in trace)
    && (forall k <- p.running :: Began(k) in trace)
    && (forall k <- p.ready + p.running :: !Lost(k, trace))
  }

  /** Everything owed is in a record whose append failed. */
  ghost predicate Justified(o: Owed, trace: seq<Event>) {
    && (forall k <- o.intents :: Slipped(Intent(k, o.intents[k])) in trace)
    && (forall k <- o.receipts :: Slipped(Receipted(k, o.receipts[k])) in trace)
    && (forall k <- o.acks :: Slipped(Ack(k)) in trace)
    && (forall id <- o.handles :: Slipped(Handle(id, o.handles[id])) in trace)
    && (o.clean ==> Slipped(Clean) in trace)
  }

  /** A live process and the history agree, once what it owes is added. */
  ghost predicate Carried(p: Process, trace: seq<Event>) {
    Agrees(OnFile(p.state, p.owed), trace) && Due(p.state, p.owed) && Held(p, trace) && Justified(p.owed, trace)
  }

  ghost predicate BegunAfterIntent(trace: seq<Event>) {
    forall k :: Began(k) in trace ==> IntentIn(k, trace)
  }

  ghost predicate LostForGood(trace: seq<Event>) {
    forall k :: Lost(k, trace) ==> Unreceipted(k, trace)
  }

  ghost predicate Inv(s: Sys) {
    && Safe(s.trace) && BegunAfterIntent(s.trace) && LostForGood(s.trace)
    && (s.log == [] ==> s.trace == [] && s.process.None?)
    && (s.log != [] ==> Replay(s.log).Some?)
    && (s.log != [] && !s.torn ==> Agrees(Replay(s.log).value, s.trace))
    && (s.process.Some? ==>
          && Carried(s.process.value, s.trace)
          && (!s.torn ==> Replay(s.log) == Some(OnFile(s.process.value.state, s.process.value.owed))))
  }

  // ------------------------------------------------------------ preservation

  lemma SafeSnoc(trace: seq<Event>, e: Event)
    requires Safe(trace) && SafeNext(trace, e)
    ensures Safe(trace + [e])
  {
    var t := trace + [e];
    forall i: nat | i < |t|
      ensures SafeEvent(t, i)
    {
      assert t[..i] == trace[..i];
      if i == |trace| {
        assert trace[..i] == trace;
      } else {
        assert SafeEvent(trace, i);
      }
    }
  }

  lemma InSnoc(trace: seq<Event>, e: Event)
    ensures forall x :: x in trace + [e] <==> x in trace || x == e
    ensures HandlesOf(trace + [e]) ==
            if e.Logged? && e.record.Handle? then HandlesOf(trace)[e.record.id := e.record.state]
            else HandlesOf(trace)
    ensures CleanSinceHeader(trace + [e]) ==
            if e.Logged? && e.record.Clean? then true
            else if e.Logged? && e.record.Header? then false
            else CleanSinceHeader(trace)
  {
    assert (trace + [e])[..|trace|] == trace;
  }

  lemma SettledWhenCertain(st: State, trace: seq<Event>)
    requires Agrees(st, trace) && Uncertain(st) == {}
    ensures Settled(trace)
  {
    forall k | IntentIn(k, trace)
      ensures ReceiptIn(k, trace)
    {
      assert k in st.entries;
      assert k !in Uncertain(st);
    }
  }

  lemma UncertainEvents(st: State, trace: seq<Event>, k: Key)
    requires Agrees(st, trace) && k in Uncertain(st)
    ensures IntentIn(k, trace) && !ReceiptIn(k, trace)
  {
    assert Logged(Intent(k, st.entries[k].request)) in trace;
  }

  lemma NoneRunningWhenStopped(st: State, trace: seq<Event>)
    requires Agrees(st, trace) && RunningHandles(st) == {}
    ensures NoneRunning(HandlesOf(trace))
  {
    forall id <- st.handles
      ensures !st.handles[id].status.Running?
    {
      assert id !in RunningHandles(st);
    }
  }

  // How the journal's state keeps agreeing with the history, event by event.

  predicate TouchesEntries(e: Event) {
    e.Logged? && (e.record.Intent? || e.record.Receipted? || e.record.Ack?)
  }

  lemma EntriesOther(entries: map<Key, Entry>, trace: seq<Event>, e: Event)
    requires EntriesAgree(entries, trace) && !TouchesEntries(e)
    ensures EntriesAgree(entries, trace + [e])
  {
    assert forall x :: x in trace + [e] <==> x in trace || x == e;
  }

  lemma AgreesOther(st: State, trace: seq<Event>, e: Event)
    requires Agrees(st, trace) && !e.Logged?
    ensures Agrees(st, trace + [e])
  {
    InSnoc(trace, e);
    EntriesOther(st.entries, trace, e);
  }

  lemma AgreesHeader(st: State, trace: seq<Event>, b: Binding, i: string)
    requires Agrees(st, trace)
    requires forall b', i' :: Logged(Header(b', i')) in trace ==> b'.epoch < b.epoch && SameIdentity(b', b)
    ensures Agrees(st.(binding := b, instance := i, clean := false), trace + [Logged(Header(b, i))])
  {
    InSnoc(trace, Logged(Header(b, i)));
    EntriesOther(st.entries, trace, Logged(Header(b, i)));
  }

  lemma AgreesHandle(st: State, trace: seq<Event>, id: Id, h: HandleState)
    requires Agrees(st, trace)
    ensures Agrees(st.(handles := st.handles[id := h]), trace + [Logged(Handle(id, h))])
  {
    InSnoc(trace, Logged(Handle(id, h)));
    EntriesOther(st.entries, trace, Logged(Handle(id, h)));
  }

  lemma AgreesClean(st: State, trace: seq<Event>)
    requires Agrees(st, trace)
    ensures Agrees(st.(clean := true), trace + [Logged(Clean)])
  {
    InSnoc(trace, Logged(Clean));
    EntriesOther(st.entries, trace, Logged(Clean));
  }

  lemma AgreesIntent(st: State, trace: seq<Event>, k: Key, q: Digest)
    requires Agrees(st, trace) && k !in st.entries
    ensures Agrees(st.(entries := st.entries[k := Entry(q, None, false)]), trace + [Logged(Intent(k, q))])
  {
    InSnoc(trace, Logged(Intent(k, q)));
    EntriesIntent(st.entries, trace, k, q);
  }

  lemma EntriesIntent(entries: map<Key, Entry>, trace: seq<Event>, k: Key, q: Digest)
    requires EntriesAgree(entries, trace) && k !in entries
    ensures EntriesAgree(entries[k := Entry(q, None, false)], trace + [Logged(Intent(k, q))])
  {
    var e := Logged(Intent(k, q));
    var after := entries[k := Entry(q, None, false)];
    assert forall x :: x in trace ==> x in trace + [e];
    assert e in trace + [e];
    assert forall x :: x in trace + [e] ==> x in trace || x == e;
    assert forall x <- entries :: x != k && after[x] == entries[x];
  }

  lemma AgreesReceipt(st: State, trace: seq<Event>, k: Key, v: Receipt)
    requires Agrees(st, trace) && k in st.entries && st.entries[k].receipt.None?
    ensures Agrees(st.(entries := st.entries[k := st.entries[k].(receipt := Some(v))]),
                   trace + [Logged(Receipted(k, v))])
  {
    InSnoc(trace, Logged(Receipted(k, v)));
    EntriesReceipt(st.entries, trace, k, v);
  }

  lemma EntriesReceipt(entries: map<Key, Entry>, trace: seq<Event>, k: Key, v: Receipt)
    requires EntriesAgree(entries, trace) && k in entries && entries[k].receipt.None?
    ensures EntriesAgree(entries[k := entries[k].(receipt := Some(v))], trace + [Logged(Receipted(k, v))])
  {
    var e := Logged(Receipted(k, v));
    var after := entries[k := entries[k].(receipt := Some(v))];
    assert forall x :: x in trace ==> x in trace + [e];
    assert e in trace + [e];
    assert forall x :: x in trace + [e] ==> x in trace || x == e;
    assert forall x <- entries ::
        after[x].request == entries[x].request && after[x].acknowledged == entries[x].acknowledged;
    assert forall x <- entries :: x != k ==> after[x] == entries[x];
  }

  lemma AgreesAck(st: State, trace: seq<Event>, k: Key)
    requires Agrees(st, trace) && k in st.entries && st.entries[k].receipt.Some?
    ensures Agrees(st.(entries := st.entries[k := st.entries[k].(acknowledged := true)]),
                   trace + [Logged(Ack(k))])
  {
    InSnoc(trace, Logged(Ack(k)));
    EntriesAck(st.entries, trace, k);
  }

  lemma EntriesAck(entries: map<Key, Entry>, trace: seq<Event>, k: Key)
    requires EntriesAgree(entries, trace) && k in entries && entries[k].receipt.Some?
    ensures EntriesAgree(entries[k := entries[k].(acknowledged := true)], trace + [Logged(Ack(k))])
  {
    assert forall x :: x in trace + [Logged(Ack(k))] <==> x in trace || x == Logged(Ack(k));
  }

  lemma IntentsStay(trace: seq<Event>, e: Event)
    requires BegunAfterIntent(trace)
    requires e.Began? ==> IntentIn(e.key, trace)
    ensures BegunAfterIntent(trace + [e])
  {
    InSnoc(trace, e);
    forall k | Began(k) in trace + [e]
      ensures IntentIn(k, trace + [e])
    {
      var q :| Logged(Intent(k, q)) in trace;
      assert Logged(Intent(k, q)) in trace + [e];
    }
  }

  // What the file says follows every append, heard or not.

  lemma WriteIntentFile(p: Process, k: Key, q: Digest)
    requires Due(p.state, p.owed) && Appendable(p, Intent(k, q))
    ensures var n := Remember(p, Intent(k, q));
            Due(n.state, n.owed) && Some(OnFile(n.state, n.owed)) == Restore(OnFile(p.state, p.owed), Intent(k, q))
  {
    var n := Remember(p, Intent(k, q));
    assert OnFileEntries(n.state.entries, n.owed) == OnFileEntries(p.state.entries, p.owed)[k := Entry(q, None, false)];
  }

  lemma WriteReceiptFile(p: Process, k: Key, v: Receipt)
    requires Due(p.state, p.owed) && Appendable(p, Receipted(k, v)) && k in p.state.entries
    ensures var n := Remember(p, Receipted(k, v));
            Due(n.state, n.owed) && Some(OnFile(n.state, n.owed)) == Restore(OnFile(p.state, p.owed), Receipted(k, v))
  {
    var n := Remember(p, Receipted(k, v));
    var file := OnFileEntries(p.state.entries, p.owed);
    assert Uncertain(p.state) - {k} == Uncertain(n.state);
    assert OnFileEntries(n.state.entries, n.owed) == file[k := file[k].(receipt := Some(v))];
  }

  lemma WriteAckFile(p: Process, k: Key)
    requires Due(p.state, p.owed) && Appendable(p, Ack(k))
    ensures var n := Remember(p, Ack(k));
            Due(n.state, n.owed) && Some(OnFile(n.state, n.owed)) == Restore(OnFile(p.state, p.owed), Ack(k))
  {
    var n := Remember(p, Ack(k));
    var file := OnFileEntries(p.state.entries, p.owed);
    assert Uncertain(p.state) == Uncertain(n.state);
    assert OnFileEntries(n.state.entries, n.owed) == file[k := file[k].(acknowledged := true)];
  }

  lemma WriteFile(p: Process, r: Record)
    requires Due(p.state, p.owed) && Appendable(p, r) && (r.Receipted? ==> r.key in p.state.entries)
    ensures var n := Remember(p, r);
            Due(n.state, n.owed) && Some(OnFile(n.state, n.owed)) == Restore(OnFile(p.state, p.owed), r)
  {
    match r {
      case Intent(k, q) => WriteIntentFile(p, k, q);
      case Receipted(k, v) => WriteReceiptFile(p, k, v);
      case Ack(k) => WriteAckFile(p, k);
      case Handle(id, h) =>
        assert p.state.handles[id := h] + (p.owed.handles - {id}) == (p.state.handles + p.owed.handles)[id := h];
      case Clean =>
    }
  }

  lemma SlipEntriesFile(p: Process, r: Record)
    requires Due(p.state, p.owed) && Appendable(p, r) && (r.Receipted? ==> r.key in Uncertain(p.state))
    requires r.Intent? || r.Receipted? || r.Ack?
    ensures var o := Owe(p.state, p.owed, r);
            Some(OnFile(p.state, o)) == Restore(OnFile(p.state, p.owed), r)
  {
    var o := Owe(p.state, p.owed, r);
    var file := OnFileEntries(p.state.entries, p.owed);
    match r {
      case Intent(k, q) => assert OnFileEntries(p.state.entries, o) == file[k := Entry(q, None, false)];
      case Receipted(k, v) => assert OnFileEntries(p.state.entries, o) == file[k := file[k].(receipt := Some(v))];
      case Ack(k) => assert OnFileEntries(p.state.entries, o) == file[k := file[k].(acknowledged := true)];
    }
  }

  lemma SlipDue(p: Process, r: Record)
    requires Due(p.state, p.owed) && Appendable(p, r) && (r.Receipted? ==> r.key in Uncertain(p.state))
    ensures Due(p.state, Owe(p.state, p.owed, r))
  {
  }

  lemma SlipHandles(known: map<Id, HandleState>, owed: map<Id, HandleState>, id: Id, h: HandleState)
    ensures id in known && known[id] == h ==> known + (owed - {id}) == (known + owed)[id := h]
    ensures known + owed[id := h] == (known + owed)[id := h]
  {
  }

  lemma SameEntries(st: State, o: Owed, n: Owed)
    requires n.intents == o.intents && n.receipts == o.receipts && n.acks == o.acks
    ensures OnFileEntries(st.entries, n) == OnFileEntries(st.entries, o)
  {
  }

  lemma SlipFile(p: Process, r: Record)
    requires Due(p.state, p.owed) && Appendable(p, r) && (r.Receipted? ==> r.key in Uncertain(p.state))
    ensures var o := Owe(p.state, p.owed, r);
            Due(p.state, o) && Some(OnFile(p.state, o)) == Restore(OnFile(p.state, p.owed), r)
  {
    SlipDue(p, r);
    hide Due, OnFileEntries;
    if r.Handle? || r.Clean? {
      SameEntries(p.state, p.owed, Owe(p.state, p.owed, r));
    }
    if r.Handle? {
      SlipHandles(p.state.handles, p.owed.handles, r.id, r.state);
    } else if !r.Clean? {
      SlipEntriesFile(p, r);
    }
  }

  /** Memory and file say the same exactly when nothing is owed. */
  lemma NothingOwed(st: State, o: Owed)
    requires Due(st, o)
    ensures OnFile(st, o) == st <==> o == NOTHING
  {
    var file := OnFile(st, o);
    if k :| k in o.intents {
      assert k in file.entries && k !in st.entries;
    } else if k :| k in o.receipts {
      assert k in Uncertain(st) && file.entries[k].receipt.Some?;
    } else if k :| k in o.acks {
      assert file.entries[k].acknowledged && !st.entries[k].acknowledged;
    } else if id :| id in o.handles {
      assert file.handles[id] == o.handles[id];
    } else {
      assert o.intents == map[] && o.receipts == map[] && o.acks == {} && o.handles == map[];
      assert file.entries == st.entries && file.handles == st.handles;
    }
  }

  /** What a record needs of the state it is added to. */
  ghost predicate Fits(file: State, r: Record) {
    match r
    case Header(_, _) => false
    case Intent(k, _) => k !in file.entries
    case Receipted(k, _) => k in file.entries && file.entries[k].receipt.None?
    case Ack(k) => k in file.entries && file.entries[k].receipt.Some?
    case Handle(_, _) => true
    case Clean => true
  }

  lemma AppendFits(p: Process, trace: seq<Event>, r: Record)
    requires Carried(p, trace) && Appendable(p, r)
    ensures Fits(OnFile(p.state, p.owed), r)
  {
  }

  lemma AgreesAppend(file: State, trace: seq<Event>, r: Record)
    requires Agrees(file, trace) && Fits(file, r)
    ensures Restore(file, r).Some? && Agrees(Restore(file, r).value, trace + [Logged(r)])
  {
    match r {
      case Intent(k, q) => AgreesIntent(file, trace, k, q);
      case Receipted(k, v) => AgreesReceipt(file, trace, k, v);
      case Ack(k) => AgreesAck(file, trace, k);
      case Handle(id, h) => AgreesHandle(file, trace, id, h);
      case Clean => AgreesClean(file, trace);
    }
  }

  lemma CleanIsSafe(p: Process, trace: seq<Event>)
    requires Carried(p, trace) && Appendable(p, Clean) && LostForGood(trace)
    ensures SafeNext(trace, Logged(Clean))
  {
    var file := OnFile(p.state, p.owed);
    NoneRunningWhenStopped(file, trace);
    forall k | Unreceipted(k, trace) ensures Lost(k, trace) {
      UnreceiptedOnFile(file, trace, k);
      OnlyOwed(p.state, p.owed, k);
    }
  }

  lemma OnlyOwed(st: State, o: Owed, k: Key)
    requires Uncertain(st) == {} && k in OnFile(st, o).entries && OnFile(st, o).entries[k].receipt.None?
    ensures k in o.intents
  {
    assert forall x <- st.entries :: st.entries[x].receipt.None? ==> x in Uncertain(st);
  }

  lemma UnreceiptedOnFile(file: State, trace: seq<Event>, k: Key)
    requires Agrees(file, trace) && Unreceipted(k, trace)
    ensures k in file.entries && file.entries[k].receipt.None?
  {
    assert forall x <- file.entries :: file.entries[x].receipt.Some? ==>
             Logged(Receipted(x, file.entries[x].receipt.value)) in trace;
  }

  lemma AppendIsSafe(s: Sys, r: Record)
    requires Inv(s) && MayAppend(s, r)
    ensures SafeNext(s.trace, Logged(r))
  {
    var p := s.process.value;
    AppendFits(p, s.trace, r);
    match r {
      case Intent(k, _) =>
        assert k !in OnFile(p.state, p.owed).entries;
      case Receipted(k, _) =>
        assert OnFile(p.state, p.owed).entries[k].receipt.None?;
      case Ack(k) =>
      case Handle(_, _) =>
      case Clean => CleanIsSafe(p, s.trace);
    }
  }

  // What a live process holds follows every append.

  lemma LostSnoc(trace: seq<Event>, e: Event, k: Key)
    ensures Lost(k, trace + [e]) <==> Lost(k, trace) || (e.Slipped? && e.record.Intent? && e.record.key == k)
  {
    InSnoc(trace, e);
    if e.Slipped? && e.record.Intent? && e.record.key == k {
      assert Slipped(Intent(k, e.record.request)) in trace + [e];
    }
    if Lost(k, trace) {
      var q :| Slipped(Intent(k, q)) in trace;
      assert Slipped(Intent(k, q)) in trace + [e];
    }
  }

  lemma UnreceiptedSnoc(trace: seq<Event>, e: Event, k: Key)
    requires Unreceipted(k, trace) && !(e.Logged? && e.record.Receipted? && e.record.key == k)
    ensures Unreceipted(k, trace + [e])
  {
    InSnoc(trace, e);
    var q :| Logged(Intent(k, q)) in trace;
    assert Logged(Intent(k, q)) in trace + [e];
  }

  lemma LostStays(trace: seq<Event>, e: Event)
    requires LostForGood(trace) && !e.Slipped?
    requires e.Logged? && e.record.Receipted? ==> !Lost(e.record.key, trace)
    ensures LostForGood(trace + [e])
  {
    forall k | Lost(k, trace + [e]) ensures Unreceipted(k, trace + [e]) {
      LostSnoc(trace, e, k);
      UnreceiptedSnoc(trace, e, k);
    }
  }

  lemma LostSlips(trace: seq<Event>, r: Record)
    requires LostForGood(trace) && (r.Intent? ==> Unreceipted(r.key, trace))
    ensures LostForGood(trace + [Slipped(r)])
  {
    forall k | Lost(k, trace + [Slipped(r)]) ensures Unreceipted(k, trace + [Slipped(r)]) {
      LostSnoc(trace, Slipped(r), k);
      UnreceiptedSnoc(trace, Slipped(r), k);
    }
  }

  lemma JustifiedStays(o: Owed, trace: seq<Event>, e: Event)
    requires Justified(o, trace)
    ensures Justified(o, trace + [e])
  {
    InSnoc(trace, e);
  }

  lemma JustifiedLess(p: Process, trace: seq<Event>, r: Record)
    requires Justified(p.owed, trace)
    ensures Justified(Remember(p, r).owed, trace)
  {
  }

  lemma JustifiedSlips(st: State, o: Owed, trace: seq<Event>, r: Record)
    requires Justified(o, trace)
    ensures Justified(Owe(st, o, r), trace + [Slipped(r)])
  {
    InSnoc(trace, Slipped(r));
  }

  lemma HeldStays(p: Process, trace: seq<Event>, e: Event)
    requires Held(p, trace) && !e.Began? && !e.Slipped?
    ensures Held(p, trace + [e])
  {
    InSnoc(trace, e);
    forall k | k in p.ready + p.running ensures !Lost(k, trace + [e]) {
      LostSnoc(trace, e, k);
    }
  }

  lemma HeldRemembers(p: Process, trace: seq<Event>, r: Record)
    requires Held(p, trace) && Appendable(p, r)
    requires r.Intent? ==> Began(r.key) !in trace && !Lost(r.key, trace)
    ensures Held(Remember(p, r), trace)
  {
    var n := Remember(p, r);
    match r {
      case Intent(k, _) => assert Uncertain(n.state) == Uncertain(p.state) + {k};
      case Receipted(k, _) => assert Uncertain(n.state) == Uncertain(p.state) - {k};
      case Ack(k) => assert Uncertain(n.state) == Uncertain(p.state);
      case Handle(_, _) => assert Uncertain(n.state) == Uncertain(p.state);
      case Clean => assert Uncertain(n.state) == Uncertain(p.state);
    }
  }

  lemma HeldSlips(p: Process, trace: seq<Event>, r: Record)
    requires Held(p, trace) && Appendable(p, r)
    requires r.Intent? ==> r.key !in p.ready + p.running
    ensures Held(p.(owed := Owe(p.state, p.owed, r)), trace + [Slipped(r)])
  {
    InSnoc(trace, Slipped(r));
    forall k | k in p.ready + p.running ensures !Lost(k, trace + [Slipped(r)]) {
      LostSnoc(trace, Slipped(r), k);
    }
  }

  lemma HeldBegin(p: Process, trace: seq<Event>, k: Key)
    requires Held(p, trace) && k in p.ready
    ensures Held(p.(ready := p.ready - {k}, running := p.running + {k}), trace + [Began(k)])
  {
    InSnoc(trace, Began(k));
    forall x | x in p.ready + p.running ensures !Lost(x, trace + [Began(k)]) {
      LostSnoc(trace, Began(k), x);
    }
  }

  // Each step keeps the invariant.

  /** The log a reader finds replays to what it did, and one record more. */
  lemma LogFollows(s: Sys, r: Record)
    requires Inv(s) && s.process.Some?
    requires Restore(OnFile(s.process.value.state, s.process.value.owed), r).Some?
    ensures Append(s, r).log != [] && Replay(Append(s, r).log).Some?
    ensures !s.torn ==> Replay(Append(s, r).log) == Restore(OnFile(s.process.value.state, s.process.value.owed), r)
  {
    ReplayAppend(s.log, r);
  }

  lemma IntentIsNew(p: Process, trace: seq<Event>, k: Key)
    requires Carried(p, trace) && BegunAfterIntent(trace) && LostForGood(trace)
    requires k !in p.state.entries && p.owed.intents == map[]
    ensures !IntentIn(k, trace) && Began(k) !in trace && !Lost(k, trace)
  {
    assert k !in OnFile(p.state, p.owed).entries;
    assert !IntentIn(k, trace);
  }

  lemma WriteKeepsInv(s: Sys, r: Record)
    requires Inv(s) && MayAppend(s, r)
    ensures Inv(AfterWrite(s, r))
  {
    var p, e := s.process.value, Logged(r);
    AppendFits(p, s.trace, r);
    AppendIsSafe(s, r);
    if r.Intent? {
      IntentIsNew(p, s.trace, r.key);
    }
    if r.Receipted? {
      NotLostReceipt(s, r);
    }
    WriteFile(p, r);
    AgreesAppend(OnFile(p.state, p.owed), s.trace, r);
    LogFollows(s, r);
    HeldRemembers(p, s.trace, r);
    HeldStays(Remember(p, r), s.trace, e);
    JustifiedLess(p, s.trace, r);
    JustifiedStays(Remember(p, r).owed, s.trace, e);
    hide Carried, Agrees, Due, Held, Justified, OnFile, Remember, Restore, Appendable, SafeNext, Replay;
    SafeSnoc(s.trace, e);
    IntentsStay(s.trace, e);
    LostStays(s.trace, e);
    WriteCarried(p, s.trace, r);
  }

  lemma WriteCarried(p: Process, trace: seq<Event>, r: Record)
    requires var n := Remember(p, r); Agrees(OnFile(n.state, n.owed), trace + [Logged(r)]) && Due(n.state, n.owed)
    requires Held(Remember(p, r), trace + [Logged(r)]) && Justified(Remember(p, r).owed, trace + [Logged(r)])
    ensures Carried(Remember(p, r), trace + [Logged(r)])
  {
  }

  lemma SlipKeepsInv(s: Sys, r: Record)
    requires Inv(s) && MayAppend(s, r)
    ensures Inv(AfterSlip(s, r))
  {
    var p, e := s.process.value, Logged(r);
    var t := s.trace + [e];
    var n := p.(owed := Owe(p.state, p.owed, r));
    AppendFits(p, s.trace, r);
    AppendIsSafe(s, r);
    if r.Intent? {
      IntentIsNew(p, s.trace, r.key);
    }
    SlipFile(p, r);
    AgreesAppend(OnFile(p.state, p.owed), s.trace, r);
    AgreesOther(OnFile(n.state, n.owed), t, Slipped(r));
    LogFollows(s, r);
    HeldStays(p, s.trace, e);
    HeldSlips(p, t, r);
    JustifiedStays(p.owed, s.trace, e);
    JustifiedSlips(p.state, p.owed, t, r);
    assert Carried(n, t + [Slipped(r)]);
    if r.Receipted? {
      NotLostReceipt(s, r);
    }
    hide Carried, Agrees, Due, Held, Justified, OnFile, Owe, Restore, Appendable, Replay;
    SafeSnoc(s.trace, e);
    SafeSnoc(t, Slipped(r));
    IntentsStay(s.trace, e);
    IntentsStay(t, Slipped(r));
    LostStays(s.trace, e);
    if r.Intent? {
      LoggedIntent(s.trace, r.key, r.request);
    }
    LostSlips(t, r);
  }

  lemma NotLostReceipt(s: Sys, r: Record)
    requires Inv(s) && MayAppend(s, r) && r.Receipted?
    ensures !Lost(r.key, s.trace)
  {
  }

  lemma LoggedIntent(trace: seq<Event>, k: Key, q: Digest)
    requires !IntentIn(k, trace) && SafeNext(trace, Logged(Intent(k, q)))
    requires !ReceiptIn(k, trace)
    ensures Unreceipted(k, trace + [Logged(Intent(k, q))])
  {
    InSnoc(trace, Logged(Intent(k, q)));
    assert Logged(Intent(k, q)) in trace + [Logged(Intent(k, q))];
  }

  /** A journal that holds one header only. */
  lemma FirstHeader(b: Binding, i: string)
    ensures Safe([Logged(Header(b, i))]) && Agrees(Blank(b, i), [Logged(Header(b, i))])
    ensures Replay([Header(b, i)]) == Some(Blank(b, i))
  {
    var e := Logged(Header(b, i));
    SafeSnoc([], e);
    assert [] + [e] == [e] && [e][..0] == [];
  }

  lemma FreshCarried(st: State, trace: seq<Event>)
    requires Agrees(st, trace)
    ensures OnFile(st, NOTHING) == st && Carried(Fresh(st), trace)
  {
    NothingOwed(st, NOTHING);
  }

  lemma CreateKeepsInv(s: Sys, a: Action)
    requires Inv(s) && a.Create? && Open(s, a).Some?
    ensures Inv(Open(s, a).value)
  {
    hide Safe, Agrees, Replay, Settled, Carried, OnFile;
    var h := Header(a.binding, a.instance);
    FirstHeader(a.binding, a.instance);
    FreshCarried(Blank(a.binding, a.instance), [Logged(h)]);
    assert s.log + [h] == [h] && s.trace + [Logged(h)] == [Logged(h)];
  }

  lemma AttachKeepsInv(s: Sys, a: Action)
    requires Inv(s) && a.Attach? && Open(s, a).Some?
    ensures Inv(Open(s, a).value)
  {
    hide Carried, OnFile;
    FreshCarried(Replay(s.log).value, s.trace);
  }

  lemma TearDownKeepsInv(s: Sys, a: Action)
    requires Inv(s) && a.TearDown? && Open(s, a).Some?
    ensures Inv(Open(s, a).value)
  {
    var st := Replay(s.log).value;
    var h := TornDown(st.handles[a.id]);
    ReplayAppend(s.log, Handle(a.id, h));
    AgreesHandle(st, s.trace, a.id, h);
    SafeSnoc(s.trace, Logged(Handle(a.id, h)));
    IntentsStay(s.trace, Logged(Handle(a.id, h)));
    LostStays(s.trace, Logged(Handle(a.id, h)));
  }

  lemma RestartSafe(s: Sys, a: Action)
    requires Inv(s) && a.Restart? && Open(s, a).Some?
    ensures var t := s.trace + [Admitted(a.teardownVerified)];
            && Safe(t) && Agrees(Replay(s.log).value, t)
            && SafeNext(t, Logged(Header(a.binding, a.instance)))
  {
    var prior := Replay(s.log).value;
    var e := Admitted(a.teardownVerified);
    SettledWhenCertain(prior, s.trace);
    if a.teardownVerified {
      NoneRunningWhenStopped(prior, s.trace);
    }
    SafeSnoc(s.trace, e);
    AgreesOther(prior, s.trace, e);
    SettledWhenCertain(prior, s.trace + [e]);
  }

  lemma RestartKeepsInv(s: Sys, a: Action)
    requires Inv(s) && a.Restart? && Open(s, a).Some?
    ensures Inv(Open(s, a).value)
  {
    var h := Header(a.binding, a.instance);
    var t := s.trace + [Admitted(a.teardownVerified)];
    RestartSafe(s, a);
    AgreesHeader(Replay(s.log).value, t, a.binding, a.instance);
    ReplayAppend(s.log, h);
    var st := Restore(Replay(s.log).value, h).value;
    FreshCarried(st, t + [Logged(h)]);
    hide Agrees, Carried, OnFile, Settled, SafeNext;
    SafeSnoc(t, Logged(h));
    IntentsStay(s.trace, Admitted(a.teardownVerified));
    IntentsStay(t, Logged(h));
    LostStays(s.trace, Admitted(a.teardownVerified));
    LostStays(t, Logged(h));
  }

  lemma CompactKeepsInv(s: Sys, a: Action)
    requires Inv(s) && s.process.Some? && a.Compact? && Act(s, a).Some?
    ensures Inv(Act(s, a).value)
  {
    var st := s.process.value.state;
    NothingOwed(st, NOTHING);
    SnapshotReplays(st, a.keys, a.ids);
  }

  lemma BeginKeepsInv(s: Sys, a: Action)
    requires Inv(s) && s.process.Some? && a.Begin? && Act(s, a).Some?
    ensures Inv(Act(s, a).value)
  {
    var p := s.process.value;
    var file := OnFile(p.state, p.owed);
    var e := Began(a.key);
    ReadyIsUnreceipted(p, s.trace, a.key);
    AgreesOther(file, s.trace, e);
    SafeSnoc(s.trace, e);
    IntentsStay(s.trace, e);
    LostStays(s.trace, e);
    JustifiedStays(p.owed, s.trace, e);
    HeldBegin(p, s.trace, a.key);
    if !s.torn {
      assert Agrees(Replay(s.log).value, s.trace + [e]);
    }
  }

  lemma ReadyIsUnreceipted(p: Process, trace: seq<Event>, k: Key)
    requires Carried(p, trace) && k in p.ready
    ensures Began(k) !in trace && Unreceipted(k, trace)
  {
    var file := OnFile(p.state, p.owed);
    assert k in p.state.entries && k !in p.owed.receipts;
    assert file.entries[k].receipt.None?;
    UncertainEvents(file, trace, k);
  }

  lemma SubmitKeepsInv(s: Sys, a: Action)
    requires Inv(s) && s.process.Some? && a.Submit? && Act(s, a).Some?
    ensures Inv(Act(s, a).value)
  {
    var p := s.process.value;
    var file := OnFile(p.state, p.owed);
    var v := p.state.entries[a.key].receipt.value;
    var e := Submitted(a.key, v);
    assert file.entries[a.key].receipt == Some(v);
    AgreesOther(file, s.trace, e);
    SafeSnoc(s.trace, e);
    IntentsStay(s.trace, e);
    LostStays(s.trace, e);
    JustifiedStays(p.owed, s.trace, e);
    HeldStays(p, s.trace, e);
    if !s.torn {
      assert Agrees(Replay(s.log).value, s.trace + [e]);
    }
  }

  lemma StepKeepsInv(s: Sys, a: Action)
    requires Inv(s) && Apply(s, a).Some?
    ensures Inv(Apply(s, a).value)
  {
    hide Inv;
    match a {
      case Create(_, _) => CreateKeepsInv(s, a);
      case Attach(_, _) => AttachKeepsInv(s, a);
      case TearDown(_, _, _) => TearDownKeepsInv(s, a);
      case Restart(_, _, _) => RestartKeepsInv(s, a);
      case Compact(_, _) => CompactKeepsInv(s, a);
      case Write(r) => WriteKeepsInv(s, r);
      case Slip(r) => SlipKeepsInv(s, r);
      case Cut(_) => StopsKeepInv(s);
      case Begin(_) => BeginKeepsInv(s, a);
      case Submit(_) => SubmitKeepsInv(s, a);
      case Stop(_) => StopsKeepInv(s);
    }
  }

  lemma StopsKeepInv(s: Sys)
    requires Inv(s)
    ensures Inv(s.(torn := true)) && Inv(s.(process := None)) && Inv(s.(process := None, torn := true))
  {
  }

  lemma {:induction false} ExecKeepsInv(s: Sys, run: seq<Action>)
    requires Inv(s) && Exec(s, run).Some?
    ensures Inv(Exec(s, run).value)
    decreases |run|
  {
    if run != [] {
      ExecKeepsInv(s, run[..|run| - 1]);
      StepKeepsInv(Exec(s, run[..|run| - 1]).value, run[|run| - 1]);
    }
  }

  /** One more step from a reachable situation is reachable. */
  lemma Extend(s: Sys, a: Action)
    requires Reachable(s) && Apply(s, a).Some?
    ensures Reachable(Apply(s, a).value)
  {
    var run :| Exec(INIT, run) == Some(s);
    assert (run + [a])[..|run|] == run;
    assert Exec(INIT, run + [a]) == Apply(s, a);
  }

  lemma StopReachable(s: Sys, torn: bool)
    requires Reachable(s)
    ensures Reachable(s.(process := None, torn := s.torn || torn))
  {
    Extend(s, Stop(torn));
  }

  lemma ReachableInv(s: Sys)
    requires Reachable(s)
    ensures Inv(s)
  {
    var run :| Exec(INIT, run) == Some(s);
    ExecKeepsInv(INIT, run);
  }

  // Each step, as something a program can take.

  lemma CreateReachable(s: Sys, b: Binding, i: string)
    requires Reachable(s) && s.process.None? && !s.torn && s.log == []
    ensures Reachable(AfterCreate(s, b, i))
  {
    Extend(s, Create(b, i));
  }

  lemma AttachReachable(s: Sys, prior: State, b: Binding, i: string)
    requires Reachable(s) && s.process.None? && !s.torn && s.log != [] && Replay(s.log) == Some(prior)
    requires b == prior.binding && i == prior.instance
    ensures Reachable(AfterAttach(s, prior))
  {
    Extend(s, Attach(b, i));
  }

  lemma TearDownReachable(s: Sys, prior: State, id: Id, b: Binding, i: string)
    requires Reachable(s) && s.process.None? && !s.torn && s.log != [] && Replay(s.log) == Some(prior)
    requires Gate(prior, b, i, true).NewProcess? && id in RunningHandles(prior)
    ensures Reachable(AfterTearDown(s, id, prior.handles[id]))
  {
    Extend(s, TearDown(id, b, i));
  }

  lemma RestartReachable(s: Sys, prior: State, b: Binding, i: string, teardownVerified: bool)
    requires Reachable(s) && s.process.None? && !s.torn && s.log != [] && Replay(s.log) == Some(prior)
    requires Gate(prior, b, i, teardownVerified).NewProcess?
    requires teardownVerified ==> RunningHandles(prior) == {}
    ensures Reachable(AfterRestart(s, prior, b, i, teardownVerified))
  {
    Extend(s, Restart(b, i, teardownVerified));
  }

  lemma CompactReachable(s: Sys, keys: seq<Key>, ids: seq<Id>)
    requires Reachable(s) && s.process.Some? && !s.torn && s.process.value.owed == NOTHING
    requires Enumerates(keys, s.process.value.state.entries.Keys)
    requires Enumerates(ids, s.process.value.state.handles.Keys)
    ensures Reachable(s.(log := Snapshot(s.process.value.state, keys, ids)))
  {
    Extend(s, Compact(keys, ids));
  }

  lemma AppendReachable(s: Sys, r: Record)
    requires Reachable(s) && MayAppend(s, r)
    ensures Reachable(AfterWrite(s, r)) && Reachable(AfterSlip(s, r)) && Reachable(s.(torn := true))
  {
    Extend(s, Write(r));
    Extend(s, Slip(r));
    Extend(s, Cut(r));
  }

  lemma BeginReachable(s: Sys, k: Key)
    requires Reachable(s) && s.process.Some? && k in s.process.value.ready
    ensures Reachable(AfterBegin(s, k))
  {
    Extend(s, Begin(k));
  }

  lemma SubmitReachable(s: Sys, k: Key)
    requires Reachable(s) && s.process.Some?
    requires k in s.process.value.state.entries && s.process.value.state.entries[k].receipt.Some?
    ensures Reachable(AfterSubmit(s, k, s.process.value.state.entries[k].receipt.value))
  {
    Extend(s, Submit(k));
  }

  // ------------------------------------------------------------ theorems over all runs

  lemma {:induction false} BeganAtMostOnce(trace: seq<Event>, k: Key)
    requires Safe(trace)
    ensures multiset(trace)[Began(k)] <= 1
    decreases |trace|
  {
    if trace != [] {
      var init, e := trace[..|trace| - 1], trace[|trace| - 1];
      assert trace == init + [e];
      SafePrefix(trace, |init|);
      BeganAtMostOnce(init, k);
      assert SafeEvent(trace, |init|);
    }
  }

  lemma SafePrefix(trace: seq<Event>, n: nat)
    requires Safe(trace) && n <= |trace|
    ensures Safe(trace[..n])
  {
    forall i: nat | i < n
      ensures SafeEvent(trace[..n], i)
    {
      assert trace[..n][..i] == trace[..i];
      assert SafeEvent(trace, i);
    }
  }

  /** However processes are scheduled, stopped, cut off, restarted and compacted over one journal,
      no operation is begun twice; it is begun only after its intent is durable, and never after
      its receipt. */
  lemma AtMostOnce(s: Sys, k: Key)
    requires Reachable(s)
    ensures multiset(s.trace)[Began(k)] <= 1
    ensures forall i :: 0 <= i < |s.trace| && s.trace[i] == Began(k) ==>
              IntentIn(k, s.trace[..i]) && !ReceiptIn(k, s.trace[..i])
  {
    ReachableInv(s);
    BeganAtMostOnce(s.trace, k);
    forall i | 0 <= i < |s.trace| && s.trace[i] == Began(k)
      ensures IntentIn(k, s.trace[..i]) && !ReceiptIn(k, s.trace[..i])
    {
      SafeAt(s, i);
    }
  }

  lemma UncertainStep(s: Sys, a: Action)
    requires s.process.None? && s.log != [] && Replay(s.log).Some? && Uncertain(Replay(s.log).value) != {}
    requires !a.Attach? && Apply(s, a).Some?
    ensures var t := Apply(s, a).value; t.process.None? && t.log == s.log && t.trace == s.trace
  {
  }

  /** An effect left uncertain is final: until the very same process instance returns, no later
      process is admitted and nothing is ever begun on this journal again. */
  lemma {:induction false} UncertaintyIsFinal(s: Sys, run: seq<Action>)
    requires s.process.None? && s.log != [] && Replay(s.log).Some? && Uncertain(Replay(s.log).value) != {}
    requires forall a <- run :: !a.Attach?
    requires Exec(s, run).Some?
    ensures var t := Exec(s, run).value; t.process.None? && t.log == s.log && t.trace == s.trace
    decreases |run|
  {
    if run != [] {
      UncertaintyIsFinal(s, run[..|run| - 1]);
      UncertainStep(Exec(s, run[..|run| - 1]).value, run[|run| - 1]);
    }
  }

  lemma SafeAt(s: Sys, i: nat)
    requires Reachable(s) && i < |s.trace|
    ensures SafeNext(s.trace[..i], s.trace[i])
  {
    ReachableInv(s);
    assert SafeEvent(s.trace, i);
  }

  /** Nothing is submitted before its receipt record was written. */
  lemma SubmittedReceipted(s: Sys, k: Key, v: Receipt, j: nat)
    requires Reachable(s) && j < |s.trace| && s.trace[j] == Submitted(k, v)
    ensures exists i :: 0 <= i < j && s.trace[i] == Logged(Receipted(k, v))
  {
    SafeAt(s, j);
    var past := s.trace[..j];
    var i :| 0 <= i < |past| && past[i] == Logged(Receipted(k, v));
    assert s.trace[i] == Logged(Receipted(k, v));
  }

  predicate IsReceipt(e: Event, k: Key) {
    e.Logged? && e.record.Receipted? && e.record.key == k
  }

  /** An operation has one receipt record. */
  lemma OneReceipt(s: Sys, k: Key, i: nat)
    requires Reachable(s) && i < |s.trace| && IsReceipt(s.trace[i], k)
    ensures forall m :: 0 <= m < i ==> !IsReceipt(s.trace[m], k)
  {
    var past := s.trace[..i];
    forall m | 0 <= m < i && IsReceipt(s.trace[m], k) ensures ReceiptIn(k, past) {
      assert past[m] == s.trace[m] && past[m] in past;
      assert past[m] == Logged(Receipted(k, past[m].record.receipt));
    }
    SafeAt(s, i);
  }

  /** Every submission of an operation's receipt, by whatever process, carries the value of its only
      receipt record, which was written before. */
  lemma ReceiptsImmutable(s: Sys, k: Key)
    requires Reachable(s)
    ensures forall i, v :: 0 <= i < |s.trace| && s.trace[i] == Submitted(k, v) ==>
              Logged(Receipted(k, v)) in s.trace[..i]
    ensures forall v, w :: Submitted(k, v) in s.trace && Submitted(k, w) in s.trace ==> v == w
  {
    hide Reachable, IsReceipt;
    forall i, v | 0 <= i < |s.trace| && s.trace[i] == Submitted(k, v)
      ensures Logged(Receipted(k, v)) in s.trace[..i]
    {
      SafeAt(s, i);
    }
    forall v, w | Submitted(k, v) in s.trace && Submitted(k, w) in s.trace
      ensures v == w
    {
      var i :| 0 <= i < |s.trace| && s.trace[i] == Submitted(k, v);
      var j :| 0 <= j < |s.trace| && s.trace[j] == Submitted(k, w);
      SameValue(s, k, i, v, j, w);
    }
  }

  lemma SameValue(s: Sys, k: Key, i: nat, v: Receipt, j: nat, w: Receipt)
    requires Reachable(s) && i < |s.trace| && j < |s.trace|
    requires s.trace[i] == Submitted(k, v) && s.trace[j] == Submitted(k, w)
    ensures v == w
  {
    hide Reachable;
    SubmittedReceipted(s, k, v, i);
    SubmittedReceipted(s, k, w, j);
    var m :| 0 <= m < i && s.trace[m] == Logged(Receipted(k, v));
    var n :| 0 <= n < j && s.trace[n] == Logged(Receipted(k, w));
    OneReceipt(s, k, m);
    OneReceipt(s, k, n);
  }

  /** An acknowledgement is journaled only for an operation whose receipt was submitted, and so only
      after that receipt was journaled. */
  lemma AcknowledgedAfterReceipt(s: Sys, k: Key, i: nat)
    requires Reachable(s) && i < |s.trace| && s.trace[i] == Logged(Ack(k))
    ensures exists j, v :: 0 <= j < i && s.trace[j] == Submitted(k, v) && Logged(Receipted(k, v)) in s.trace[..j]
  {
    var past := s.trace[..i];
    SafeAt(s, i);
    var v :| Submitted(k, v) in past;
    var j :| 0 <= j < i && past[j] == Submitted(k, v);
    SafeAt(s, j);
    assert s.trace[j] == Submitted(k, v);
  }

  /** Headers form a chain: epochs strictly increase and nothing but epoch and credential changes. */
  lemma HeaderChain(s: Sys, i: nat, j: nat)
    requires Reachable(s) && i < j < |s.trace|
    requires s.trace[i].Logged? && s.trace[i].record.Header? && s.trace[j].Logged? && s.trace[j].record.Header?
    ensures s.trace[i].record.binding.epoch < s.trace[j].record.binding.epoch
    ensures SameIdentity(s.trace[i].record.binding, s.trace[j].record.binding)
  {
    SafeAt(s, j);
    assert s.trace[i] == s.trace[..j][i];
    assert s.trace[i] == Logged(Header(s.trace[i].record.binding, s.trace[i].record.instance));
  }

  /** A new process is admitted only when every journaled intent has its receipt. The clean mark is
      written only when no journaled process is still running, and past an intent without receipt
      exactly when that intent was lost: journaled by an append that failed. */
  lemma MarksAreEarned(s: Sys, j: nat)
    requires Reachable(s) && j < |s.trace|
    ensures s.trace[j].Logged? && s.trace[j].record.Header? ==> Settled(s.trace[..j])
    ensures s.trace[j] == Logged(Clean) ==>
              && NoneRunning(HandlesOf(s.trace[..j]))
              && forall k :: Unreceipted(k, s.trace[..j]) <==> Lost(k, s.trace[..j])
    ensures s.trace[j] == Admitted(false) ==> Settled(s.trace[..j]) && CleanSinceHeader(s.trace[..j])
    ensures s.trace[j] == Admitted(true) ==> Settled(s.trace[..j]) && NoneRunning(HandlesOf(s.trace[..j]))
  {
    SafeAt(s, j);
  }

  lemma LostEarly(s: Sys, k: Key, j: nat)
    requires Reachable(s) && j <= |s.trace| && Lost(k, s.trace[..j])
    ensures Unreceipted(k, s.trace[..j])
  {
    ReachableInv(s);
    var past := s.trace[..j];
    var q :| Slipped(Intent(k, q)) in past;
    var i :| 0 <= i < |past| && past[i] == Slipped(Intent(k, q));
    assert s.trace[i] == Slipped(Intent(k, q));
    SafeAt(s, i);
    assert s.trace[..i][i - 1] == past[i - 1];
    assert Logged(Intent(k, q)) in past;
    assert Lost(k, s.trace) by {
      assert Slipped(Intent(k, q)) in s.trace;
    }
    assert !ReceiptIn(k, past) by {
      assert forall v :: Logged(Receipted(k, v)) in past ==> Logged(Receipted(k, v)) in s.trace;
    }
  }

  /** A lost intent keeps every later process out: none is admitted and no header written after it. */
  lemma LostKeepsOut(s: Sys, k: Key, j: nat)
    requires Reachable(s) && j < |s.trace| && Lost(k, s.trace[..j])
    ensures !s.trace[j].Admitted? && !(s.trace[j].Logged? && s.trace[j].record.Header?)
  {
    LostEarly(s, k, j);
    SafeAt(s, j);
  }

  /** Once a write was cut and the process gone, nothing more ever happens to the journal. */
  lemma {:induction false} TornForGood(s: Sys, run: seq<Action>)
    requires s.process.None? && s.torn && Exec(s, run).Some?
    ensures Exec(s, run).value == s
  {
    if run != [] {
      TornForGood(s, run[..|run| - 1]);
    }
  }

  /** The journal on disk replays to what the live process remembers with exactly what slipped past it:
      each owed fact is in a record whose append failed after it was written. The two are the same if
      and only if nothing is owed. Behind a cut write the file says nothing more. */
  lemma LogRefinement(s: Sys)
    requires Reachable(s) && s.process.Some?
    ensures var p := s.process.value;
            && s.log != [] && Replay(s.log).Some?
            && (!s.torn ==> Replay(s.log) == Some(OnFile(p.state, p.owed)))
            && (!s.torn ==> (Replay(s.log) == Some(p.state) <==> p.owed == NOTHING))
            && Due(p.state, p.owed) && Justified(p.owed, s.trace)
            && p.ready !! p.running && p.ready + p.running <= Uncertain(p.state)
  {
    ReachableInv(s);
    NothingOwed(s.process.value.state, s.process.value.owed);
  }

  /** When no append ever failed after its record was written, memory and file agree. */
  lemma HeardAllAgrees(s: Sys)
    requires Reachable(s) && s.process.Some? && !s.torn && forall r :: Slipped(r) !in s.trace
    ensures Replay(s.log) == Some(s.process.value.state)
  {
    LogRefinement(s);
    var o := s.process.value.owed;
    assert o.intents == map[] && o.receipts == map[] && o.acks == {} && o.handles == map[];
  }

  /** A journal nobody holds replays to a state too, unless nothing was ever written. */
  lemma RestReplays(s: Sys)
    requires Reachable(s) && s.log != []
    ensures Replay(s.log).Some?
  {
    ReachableInv(s);
  }

  function LostRun(b: Binding, i: string, k: Key, q: Digest): seq<Action> {
    [Create(b, i), Slip(Intent(k, q)), Write(Clean), Stop(false)]
  }

  function LostEnd(b: Binding, i: string, k: Key, q: Digest): Sys {
    var h, intent := Header(b, i), Intent(k, q);
    Sys([h, intent, Clean], false, None, [Logged(h), Logged(intent), Slipped(intent), Logged(Clean)])
  }

  function LostStart(b: Binding, i: string): Sys {
    Sys([Header(b, i)], false, Some(Fresh(Blank(b, i))), [Logged(Header(b, i))])
  }

  function LostMiddle(b: Binding, i: string, k: Key, q: Digest): Sys {
    var h, intent := Header(b, i), Intent(k, q);
    Sys([h, intent], false, Some(Fresh(Blank(b, i)).(owed := NOTHING.(intents := map[k := q]))),
        [Logged(h), Logged(intent), Slipped(intent)])
  }

  lemma LostSlip(b: Binding, i: string, k: Key, q: Digest)
    ensures Apply(LostStart(b, i), Slip(Intent(k, q))) == Some(LostMiddle(b, i, k, q))
  {
    var s, t := AfterSlip(LostStart(b, i), Intent(k, q)), LostMiddle(b, i, k, q);
    assert s.log == t.log && s.trace == t.trace && s.process == t.process;
  }

  lemma LostClean(b: Binding, i: string, k: Key, q: Digest)
    ensures var s := Apply(LostMiddle(b, i, k, q), Write(Clean));
            s.Some? && s.value.(process := None) == LostEnd(b, i, k, q)
  {
    var m := LostMiddle(b, i, k, q);
    var p := m.process.value;
    assert Uncertain(p.state) == {} && RunningHandles(OnFile(p.state, p.owed)) == {};
    var s := AfterWrite(m, Clean);
    assert s.log == LostEnd(b, i, k, q).log && s.trace == LostEnd(b, i, k, q).trace;
  }

  lemma LostRunEnds(b: Binding, i: string, k: Key, q: Digest)
    ensures Exec(INIT, LostRun(b, i, k, q)) == Some(LostEnd(b, i, k, q))
  {
    var intent := Intent(k, q);
    LostSlip(b, i, k, q);
    LostClean(b, i, k, q);
    var s3 := Apply(LostMiddle(b, i, k, q), Write(Clean)).value;
    CreateFirst(b, i);
    hide Apply, Exec;
    Initially();
    Then([], Create(b, i), [Create(b, i)], INIT, LostStart(b, i));
    Then([Create(b, i)], Slip(intent), [Create(b, i), Slip(intent)], LostStart(b, i), LostMiddle(b, i, k, q));
    Then([Create(b, i), Slip(intent)], Write(Clean), [Create(b, i), Slip(intent), Write(Clean)],
         LostMiddle(b, i, k, q), s3);
    Stops(s3);
    Then([Create(b, i), Slip(intent), Write(Clean)], Stop(false), LostRun(b, i, k, q), s3, LostEnd(b, i, k, q));
  }

  lemma Initially()
    ensures Exec(INIT, []) == Some(INIT)
  {
  }

  lemma Stops(s: Sys)
    ensures Apply(s, Stop(false)) == Some(s.(process := None))
  {
  }

  /** A clean mark past a lost intent is a real run: the intent's append failed, the process ended its
      run and, knowing nothing of the intent, marked the journal clean. */
  lemma CleanPastLostIntent(b: Binding, i: string, k: Key, q: Digest)
    ensures var s := LostEnd(b, i, k, q);
            Reachable(s) && Lost(k, s.trace[..3]) && Unreceipted(k, s.trace[..3]) && s.trace[3] == Logged(Clean)
  {
    var s := LostEnd(b, i, k, q);
    LostRunEnds(b, i, k, q);
    assert Reachable(s);
    assert s.trace[..3][2] == Slipped(Intent(k, q));
    assert Lost(k, s.trace[..3]);
    LostEarly(s, k, 3);
  }

  function CutRun(b: Binding, i: string, id: Id, h: HandleState): seq<Action> {
    [Create(b, i), Cut(Handle(id, h)), Write(Clean), Stop(false)]
  }

  function CutEnd(b: Binding, i: string): Sys {
    Sys([Header(b, i)], true, None, [Logged(Header(b, i)), Logged(Clean)])
  }

  /** So is a clean mark behind a cut write: the append of a handle was cut, the process lived on and
      marked the journal clean, and no reader will ever see that. */
  lemma CleanBehindCut(b: Binding, i: string, id: Id, h: HandleState)
    ensures Exec(INIT, CutRun(b, i, id, h)) == Some(CutEnd(b, i)) && Reachable(CutEnd(b, i))
  {
    var s0, cut := LostStart(b, i), Cut(Handle(id, h));
    var s1 := s0.(torn := true);
    CreateFirst(b, i);
    CutStep(b, i, id, h);
    CutClean(b, i);
    var s2 := Apply(s1, Write(Clean)).value;
    hide Apply, Exec;
    Initially();
    Then([], Create(b, i), [Create(b, i)], INIT, s0);
    Then([Create(b, i)], cut, [Create(b, i), cut], s0, s1);
    Then([Create(b, i), cut], Write(Clean), [Create(b, i), cut, Write(Clean)], s1, s2);
    Stops(s2);
    Then([Create(b, i), cut, Write(Clean)], Stop(false), CutRun(b, i, id, h), s2, CutEnd(b, i));
  }

  lemma CutStep(b: Binding, i: string, id: Id, h: HandleState)
    ensures Apply(LostStart(b, i), Cut(Handle(id, h))) == Some(LostStart(b, i).(torn := true))
  {
  }

  lemma CutClean(b: Binding, i: string)
    ensures var s := Apply(LostStart(b, i).(torn := true), Write(Clean));
            s.Some? && s.value.(process := None) == CutEnd(b, i)
  {
    var m := LostStart(b, i).(torn := true);
    var p := m.process.value;
    assert Uncertain(p.state) == {} && RunningHandles(OnFile(p.state, p.owed)) == {};
    var s := AfterWrite(m, Clean);
    assert s.log == CutEnd(b, i).log && s.trace == CutEnd(b, i).trace;
  }

  lemma CreateFirst(b: Binding, i: string)
    ensures Apply(INIT, Create(b, i)) == Some(LostStart(b, i))
  {
    var s := AfterCreate(INIT, b, i);
    assert s.log == [Header(b, i)] && s.trace == [Logged(Header(b, i))];
  }

  lemma Then(run: seq<Action>, a: Action, whole: seq<Action>, s: Sys, t: Sys)
    requires Exec(INIT, run) == Some(s) && Apply(s, a) == Some(t) && whole == run + [a]
    ensures Exec(INIT, whole) == Some(t)
  {
    assert whole[..|run|] == run;
  }

  // ------------------------------------------------------------ what one call leaves alone

  /** The process ended before, during or after the write that takes `s` to `next`. */
  ghost predicate Ended(s: Sys, next: Sys, t: Sys) {
    t == s.(process := None) || t == s.(process := None, torn := true) || t == next.(process := None)
  }

  /** An append failed: nothing was written, all of it, or part. */
  ghost predicate Missed(s: Sys, missed: Sys, t: Sys) {
    t == s || t == missed || t == s.(torn := true)
  }

  /** Between two moments of one live process, only process handles were journaled. */
  ghost predicate OnlyHandles(before: Sys, after: Sys) {
    && before.process.Some? && after.process.Some?
    && before.process.value.ready == after.process.value.ready
    && before.process.value.running == after.process.value.running
    && before.process.value.state ==
       after.process.value.state.(handles := before.process.value.state.handles)
    && before.process.value.owed == after.process.value.owed.(handles := before.process.value.owed.handles)
    && before.trace <= after.trace
  }

  /** Between two moments of one live process, nothing but deliveries of durable receipts happened. */
  ghost predicate OnlyDeliveries(before: Sys, after: Sys) {
    && before.process.Some? && after.process.Some?
    && before.process.value.ready == after.process.value.ready
    && before.process.value.running == after.process.value.running
    && SameReceipts(before.process.value.state, after.process.value.state)
    && before.process.value.owed == after.process.value.owed.(acks := before.process.value.owed.acks)
    && before.trace <= after.trace
  }

  /** Two states that differ in acknowledgements at most, which only accrue. */
  ghost predicate SameReceipts(before: State, after: State) {
    && after == before.(entries := after.entries)
    && after.entries.Keys == before.entries.Keys
    && forall k <- before.entries ::
         && after.entries[k] == before.entries[k].(acknowledged := after.entries[k].acknowledged)
         && (before.entries[k].acknowledged ==> after.entries[k].acknowledged)
  }

  /** What an append of a handle leaves alone, heard or not. */
  lemma HandleOnly(s: Sys, id: Id, h: HandleState, t: Sys)
    requires s.process.Some?
    requires t == AfterWrite(s, Handle(id, h)) || Missed(s, AfterSlip(s, Handle(id, h)), t)
    ensures OnlyHandles(s, t)
    ensures t == AfterWrite(s, Handle(id, h)) ==>
              t.process.value.owed.handles == s.process.value.owed.handles - {id}
    ensures t != AfterWrite(s, Handle(id, h)) ==>
              t.process.value.owed.handles in
              {s.process.value.owed.handles, s.process.value.owed.handles - {id}, s.process.value.owed.handles[id := h]}
  {
  }

  /** What an append of an acknowledgement leaves alone, heard or not. */
  lemma AckOnly(s: Sys, k: Key, t: Sys)
    requires s.process.Some? && k in s.process.value.state.entries
    requires t == s || t == AfterWrite(s, Ack(k)) || Missed(s, AfterSlip(s, Ack(k)), t)
    ensures OnlyDeliveries(s, t)
  {
  }

  lemma SubmitOnly(s: Sys, k: Key, v: Receipt)
    requires s.process.Some?
    ensures OnlyDeliveries(s, AfterSubmit(s, k, v))
  {
  }

  lemma DeliveriesThenMore(a: Sys, b: Sys, c: Sys)
    requires OnlyDeliveries(a, b) && OnlyDeliveries(b, c)
    ensures OnlyDeliveries(a, c) && b.trace <= c.trace
  {
  }

  lemma DeliveriesMeaning(before: Sys, after: Sys)
    requires OnlyDeliveries(before, after)
    ensures Uncertain(after.process.value.state) == Uncertain(before.process.value.state)
    ensures after.process.value.owed.handles == before.process.value.owed.handles
    ensures after.process.value.state.handles == before.process.value.state.handles
    ensures after.process.value.state.clean == before.process.value.state.clean
    ensures before.trace <= after.trace
  {
  }
}
