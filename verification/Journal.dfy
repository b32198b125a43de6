/** The journal a process holds: memory, a file of bytes, and the ghost history both stand for. */
module JournalFile {
  import opened Wrappers
  import opened Framing
  import opened Ledger
  import opened Protocol

  type Request = string

  /** `Crashed` ends every method at once: the process is gone. */
  datatype Error =
    | Crashed
    | Io
    | Replaced
    | TooLarge
    | Unreadable(cause: ReadError)
    | InvalidHeader
    | Orphan
    | RecoveryRequired(verdict: Verdict)
    | Altered
    | UncertainEffect
    | NoIntent
    | Conflict
    | LeaseExpired
    | BadOperation
    | DeliveryFailed
    | ObservationFailed
    | CleanupUnconfirmed

  type Outcome<T> = Result<T, Error>

  /** Serialization and SHA-256, known only through `Sound`. */
  datatype Serde = Serde(records: Codec<Record>, receiptSize: Receipt -> nat, digest: Request -> Digest)

  const RECEIPT_LIMIT: nat := 256 * 1024
  const COMPACT_ABOVE: nat := 64 * 1024 * 1024

  lemma SnapshotFrames(c: Codec<Record>, s: State, keys: seq<Key>, ids: seq<Id>)
    requires (forall k <- keys :: k in s.entries) && (forall id <- ids :: id in s.handles)
    ensures Frames(c, SnapshotBody(s, keys, ids)) ==
            Frame(c, Header(s.binding, s.instance))
            + Frames(c, EntriesRecords(s.entries, keys)) + Frames(c, HandlesRecords(s.handles, ids))
  {
    var es, hs := EntriesRecords(s.entries, keys), HandlesRecords(s.handles, ids);
    FramesFirst(c, SnapshotBody(s, keys, ids));
    assert SnapshotBody(s, keys, ids)[1..] == es + hs;
    FramesAppend(c, es, hs);
  }

  // ------------------------------------------------------------ reading a file back

  /** The rest of a file applied to the state restored so far. */
  function RestoreRest(c: Codec<Record>, st: State, bytes: seq<byte>): Outcome<State>
    decreases |bytes|
  {
    match ReadRecord(c, bytes)
    case End => Success(st)
    case Bad(e) => Failure(Unreadable(e))
    case Got(r, rest) =>
      match Restore(st, r)
      case Some(next) => RestoreRest(c, next, rest)
      case None => Failure(Orphan)
  }

  function RestoreFile(c: Codec<Record>, bytes: seq<byte>): Outcome<State> {
    match ReadRecord(c, bytes)
    case Bad(e) => Failure(Unreadable(e))
    case End => Failure(InvalidHeader)
    case Got(r, rest) =>
      if r.Header? then RestoreRest(c, Blank(r.binding, r.instance), rest) else Failure(InvalidHeader)
  }

  lemma RestoreFirst(st: State, rs: seq<Record>)
    requires rs != []
    ensures RestoreAll(st, rs) ==
            match Restore(st, rs[0]) case Some(t) => RestoreAll(t, rs[1..]) case None => None
  {
    RestoreAllConcat(st, [rs[0]], rs[1..]);
    assert rs == [rs[0]] + rs[1..];
    RestoreSnoc(st, [], rs[0]);
    assert [] + [rs[0]] == [rs[0]];
  }

  lemma {:induction false} RestRestores(c: Codec<Record>, st: State, rs: seq<Record>, tail: seq<byte>)
    requires Sound(c) && (forall r <- rs :: Accepted(c, r)) && RestoreAll(st, rs).Some?
    ensures RestoreRest(c, st, Frames(c, rs) + tail) == RestoreRest(c, RestoreAll(st, rs).value, tail)
    decreases |rs|
  {
    if rs == [] {
      assert Frames(c, rs) + tail == tail;
    } else {
      FramesFirst(c, rs);
      var rest := Frames(c, rs[1..]) + tail;
      assert Frames(c, rs) + tail == Frame(c, rs[0]) + rest;
      ReadFrame(c, rs[0], rest);
      RestoreFirst(st, rs);
      RestRestores(c, Restore(st, rs[0]).value, rs[1..], tail);
    }
  }

  /** A file of whole records restores exactly the state its records replay to. */
  lemma FileRestoresReplay(c: Codec<Record>, log: seq<Record>)
    requires Sound(c) && (forall r <- log :: Accepted(c, r)) && Replay(log).Some?
    ensures RestoreFile(c, Frames(c, log)) == Success(Replay(log).value)
  {
    FramesFirst(c, log);
    ReadFrame(c, log[0], Frames(c, log[1..]));
    RestRestores(c, Blank(log[0].binding, log[0].instance), log[1..], []);
    assert Frames(c, log[1..]) + [] == Frames(c, log[1..]);
  }

  /** A file whose last write was cut short is refused as a whole. */
  lemma TornFileRefused(c: Codec<Record>, log: seq<Record>, r: Record, cut: nat)
    requires Sound(c) && (forall x <- log :: Accepted(c, x)) && (log != [] ==> Replay(log).Some?)
    requires Accepted(c, r) && 0 < cut < |Frame(c, r)|
    ensures RestoreFile(c, Frames(c, log) + Frame(c, r)[..cut]) == Failure(Unreadable(Interrupted))
  {
    hide Inverts, Unmixed, Restore;
    var tail := Frame(c, r)[..cut];
    TornFrame(c, r, cut);
    if log == [] {
      assert Frames(c, log) + tail == tail;
    } else {
      FramesFirst(c, log);
      var rest := Frames(c, log[1..]) + tail;
      assert Frames(c, log) + tail == Frame(c, log[0]) + rest;
      ReadFrame(c, log[0], rest);
      RestRestores(c, Blank(log[0].binding, log[0].instance), log[1..], tail);
    }
  }

  lemma NoFrames(c: Codec<Record>)
    ensures Frames(c, []) == []
  {
  }

  /** A file is refused as a whole once a write was cut, whatever was written before and behind. */
  lemma DebrisFileRefused(c: Codec<Record>, log: seq<Record>, rest: seq<byte>)
    requires Sound(c) && (forall x <- log :: Accepted(c, x)) && (log != [] ==> Replay(log).Some?)
    requires Debris(c, rest)
    ensures var res := RestoreFile(c, Frames(c, log) + rest); res.Failure? && res.error.Unreadable?
  {
    hide Debris, Sound, Frames, ReadRecord;
    DebrisRefused(c, rest);
    if log == [] {
      assert Frames(c, log) + rest == rest by { NoFrames(c); }
    } else {
      FramesFirst(c, log);
      var more := Frames(c, log[1..]) + rest;
      assert Frames(c, log) + rest == Frame(c, log[0]) + more;
      ReadFrame(c, log[0], more);
      RestRestores(c, Blank(log[0].binding, log[0].instance), log[1..], rest);
    }
  }

  /** A file holds exactly a log; once a write was cut, its debris follows. */
  ghost predicate FileHolds(c: Codec<Record>, log: seq<Record>, torn: bool, stream: seq<byte>) {
    && Sound(c)
    && if torn then exists rest :: Debris(c, rest) && stream == Frames(c, log) + rest else stream == Frames(c, log)
  }

  lemma WholeWritten(c: Codec<Record>, log: seq<Record>, torn: bool, stream: seq<byte>, r: Record)
    requires FileHolds(c, log, torn, stream)
    ensures FileHolds(c, if torn then log else log + [r], torn, stream + Frame(c, r))
  {
    hide Debris, Unmixed;
    if torn {
      var rest :| Debris(c, rest) && stream == Frames(c, log) + rest;
      assert Frame(c, r)[..|Frame(c, r)|] == Frame(c, r);
      DebrisGrows(c, rest, r, |Frame(c, r)|);
      assert stream + Frame(c, r) == Frames(c, log) + (rest + Frame(c, r));
    } else {
      WholeFrames(c, log, r);
    }
  }

  lemma PartWritten(c: Codec<Record>, log: seq<Record>, torn: bool, stream: seq<byte>, r: Record, cut: nat)
    requires FileHolds(c, log, torn, stream) && 0 < cut < |Frame(c, r)|
    ensures FileHolds(c, log, true, stream + Frame(c, r)[..cut])
  {
    hide Debris, Unmixed;
    if torn {
      var rest :| Debris(c, rest) && stream == Frames(c, log) + rest;
      DebrisGrows(c, rest, r, cut);
      assert stream + Frame(c, r)[..cut] == Frames(c, log) + (rest + Frame(c, r)[..cut]);
    } else {
      CutIsDebris(c, r, cut);
    }
  }

  /** A history one record longer on file, as far as a reader can tell. */
  ghost predicate Grown(s: Sys, t: Sys, r: Record) {
    t.log == (if s.torn then s.log else s.log + [r]) && t.torn == s.torn
  }

  /** What a reader makes of a file with this history: its log's replay, or nothing once a write was cut. */
  ghost predicate ReadsAs(c: Codec<Record>, stream: seq<byte>, s: Sys) {
    var res := RestoreFile(c, stream);
    if s.torn then res.Failure? && res.error.Unreadable?
    else Replay(s.log).Some? && res == Success(Replay(s.log).value)
  }

  lemma FileReads(c: Codec<Record>, stream: seq<byte>, s: Sys)
    requires Reachable(s) && FileHolds(c, s.log, s.torn, stream) && (forall r <- s.log :: Accepted(c, r))
    requires stream != []
    ensures ReadsAs(c, stream, s) && (!s.torn ==> s.log != [])
  {
    hide Reachable, RestoreFile;
    if s.log != [] {
      RestReplays(s);
    }
    if s.torn {
      var rest :| Debris(c, rest) && stream == Frames(c, s.log) + rest;
      DebrisFileRefused(c, s.log, rest);
    } else {
      FileRestoresReplay(c, s.log);
    }
  }

  /** Handles after a confirmed external teardown: nothing that was running still is. */
  function TornDownAll(handles: map<Id, HandleState>): map<Id, HandleState> {
    map id | id in handles :: if handles[id].status.Running? then TornDown(handles[id]) else handles[id]
  }

  class Journal {
    const serde: Serde
    var binding: Binding
    var instance: string
    var entries: map<Key, Entry>
    var handles: map<Id, HandleState>
    var clean: bool
    var stream: seq<byte>
    ghost var sys: Sys

    ghost function Memory(): State
      reads this
    {
      State(binding, instance, entries, handles, clean)
    }

    ghost predicate OnDisk()
      reads this
    {
      && (forall r <- sys.log :: Accepted(serde.records, r))
      && FileHolds(serde.records, sys.log, sys.torn, stream)
    }

    /** A live process remembers what its part of the history says. */
    ghost predicate Attached()
      reads this
    {
      OnDisk() && sys.process.Some? && sys.process.value.state == Memory()
    }

    /** The file stands for a history the protocol allows. */
    ghost predicate Sane()
      reads this
    {
      OnDisk() && Reachable(sys)
    }

    ghost predicate Valid()
      reads this
    {
      Attached() && Reachable(sys)
    }

    /** Nobody holds the journal. */
    ghost predicate Stopped()
      reads this
    {
      Sane() && sys.process.None?
    }

    /** The file says exactly what memory says. */
    ghost predicate InStep()
      reads this
    {
      Valid() && !sys.torn && sys.process.value.owed == NOTHING
    }

    /** A process has just taken the journal over. */
    ghost predicate Opened()
      reads this
    {
      InStep() && sys.process.value == Fresh(Memory())
    }

    /** What the file says: memory, and what slipped past it. */
    ghost function FileState(): State
      requires sys.process.Some?
      reads this
    {
      OnFile(sys.process.value.state, sys.process.value.owed)
    }

    constructor (serde: Serde, binding: Binding, instance: string, stream: seq<byte>, ghost sys: Sys)
      ensures this.serde == serde && this.binding == binding && this.instance == instance
      ensures this.stream == stream && this.sys == sys
      ensures entries == map[] && handles == map[] && !clean
    {
      this.serde, this.binding, this.instance, this.stream := serde, binding, instance, stream;
      this.sys := sys;
      entries, handles, clean := map[], map[], false;
    }

    // ---------------------------------------------------------- appending

    // What each append asks of its caller for the history to stay one the protocol allows.

    /** No intent slipped past memory before. */
    ghost predicate MayLogIntent()
      reads this
    {
      Valid() && sys.process.value.owed.intents == map[]
    }

    /** A missing receipt is one of an effect this process began, and did not slip past memory before. */
    ghost predicate MayLogReceipt(key: Key)
      reads this
    {
      && Valid()
      && (key in Uncertain(Memory()) ==>
            key in sys.process.value.running && key !in sys.process.value.owed.receipts)
    }

    /** A missing acknowledgement is one of a submitted receipt. */
    ghost predicate MayLogAck(key: Key)
      reads this
    {
      && Valid()
      && (key in entries && !entries[key].acknowledged ==>
            entries[key].receipt.Some? && Submitted(key, entries[key].receipt.value) in sys.trace)
    }

    /** Memory knows of no uncertain effect, nor memory or file of a running process. */
    ghost predicate MayMarkClean()
      reads this
    {
      Valid() && Uncertain(Memory()) == {} && RunningHandles(FileState()) == {}
    }

    /** Append one record. `next` is the history once that succeeded, `missed` once it failed although
        the record was written whole. A write can fail after any number of bytes, the syncs after it
        too, and the process can end at any moment. */
    method Append(r: Record, ghost next: Sys, ghost missed: Sys) returns (res: Outcome<()>)
      requires OnDisk() && Grown(sys, next, r) && Grown(sys, missed, r)
      modifies this`stream, this`sys
      ensures OnDisk()
      ensures res.Success? ==> sys == next
      ensures res == Failure(Io) ==> Missed(old(sys), missed, sys)
      ensures res == Failure(Crashed) ==> Ended(old(sys), next, sys)
      ensures res.Failure? ==> res.error in {Crashed, Io, Replaced, TooLarge}
      ensures res.Failure? && res.error in {Replaced, TooLarge} ==> unchanged(this)
      ensures res == Failure(TooLarge) ==> !Accepted(serde.records, r)
    {
      hide FileHolds;
      var crashed: bool := *;
      var anchored: bool := *;
      if !anchored {
        if crashed {
          sys := sys.(process := None);
          return Failure(Crashed);
        }
        return Failure(Replaced);
      }
      var bytes := WriteRecord(serde.records, r);
      if bytes.Failure? {
        return Failure(TooLarge);
      }
      var frame := bytes.value;
      var written: int := *;
      if 0 <= written < |frame| {
        if written > 0 {
          PartWritten(serde.records, sys.log, sys.torn, stream, r, written);
          stream := stream + frame[..written];
          sys := sys.(torn := true);
        }
        if crashed {
          sys := sys.(process := None);
        }
        return Failure(if crashed then Crashed else Io);
      }
      WholeWritten(serde.records, sys.log, sys.torn, stream, r);
      stream := stream + frame;
      if crashed {
        sys := next.(process := None);
        return Failure(Crashed);
      }
      var synced: bool := *;
      if !synced {
        sys := missed;
        return Failure(Io);
      }
      sys := next;
      return Success(());
    }

    /** Append a record of the live process. Memory is the caller's: it follows on success only. */
    method LogRecord(r: Record) returns (res: Outcome<()>)
      requires Attached()
      modifies this`stream, this`sys
      ensures OnDisk()
      ensures res.Success? ==> sys == AfterWrite(old(sys), r)
      ensures res == Failure(Io) ==> Missed(old(sys), AfterSlip(old(sys), r), sys)
      ensures res == Failure(Crashed) ==> Ended(old(sys), AfterWrite(old(sys), r), sys)
      ensures res.Failure? ==> res.error in {Crashed, Io, Replaced, TooLarge}
      ensures res.Failure? && res.error in {Replaced, TooLarge} ==> unchanged(this)
      ensures res == Failure(TooLarge) ==> !Accepted(serde.records, r)
      ensures old(Valid()) && MayAppend(old(sys), r) ==> Sane()
    {
      hide FileHolds, MayAppend, Remember, Owe;
      ghost var before := sys;
      if Valid() && MayAppend(sys, r) {
        AppendReachable(sys, r);
        StopReachable(sys, false);
        StopReachable(sys, true);
        StopReachable(AfterWrite(sys, r), false);
      }
      res := Append(r, AfterWrite(sys, r), AfterSlip(sys, r));
    }

    /** Journal an intent, or answer it. A known operation is never journaled again: its receipt is
        returned, altered arguments are refused, and an effect without a receipt is refused. */
    method LogIntent(key: Key, request: Request) returns (res: Outcome<Option<Receipt>>)
      requires Attached()
      modifies this`entries, this`stream, this`sys
      ensures OnDisk() && (res == Failure(Crashed) <==> !Attached())
      ensures res == Success(None) ==>
                && key !in old(entries)
                && sys == AfterWrite(old(sys), Intent(key, serde.digest(request)))
                && entries == old(entries)[key := Entry(serde.digest(request), None, false)]
      ensures res.Success? && res.value.Some? ==>
                && unchanged(this) && key in entries
                && entries[key].request == serde.digest(request) && entries[key].receipt == res.value
      ensures res.Failure? ==> entries == old(entries)
      ensures res == Failure(Io) ==>
                && key !in entries
                && Missed(old(sys), AfterSlip(old(sys), Intent(key, serde.digest(request))), sys)
      ensures res == Failure(Crashed) ==>
                sys.process.None? && Ended(old(sys), AfterWrite(old(sys), Intent(key, serde.digest(request))), sys)
      ensures res.Failure? && res.error !in {Crashed, Io} ==> unchanged(this)
      ensures res == Failure(Altered) ==> key in entries && entries[key].request != serde.digest(request)
      ensures res == Failure(UncertainEffect) ==> key in Uncertain(Memory())
      ensures old(MayLogIntent()) ==> Sane()
    {
      hide FileHolds, Reachable;
      var anchored: bool := *;
      if !anchored {
        return Failure(Replaced);
      }
      var digest := serde.digest(request);
      if key in entries {
        if entries[key].request != digest {
          return Failure(Altered);
        }
        if entries[key].receipt.None? {
          return Failure(UncertainEffect);
        }
        return Success(entries[key].receipt);
      }
      var _ :- LogRecord(Intent(key, digest));
      entries := entries[key := Entry(digest, None, false)];
      return Success(None);
    }

    /** Journal the receipt of an effect. A receipt once journaled never changes. */
    method LogReceipt(key: Key, receipt: Receipt) returns (res: Outcome<()>)
      requires Attached()
      modifies this`entries, this`stream, this`sys
      ensures OnDisk() && (res == Failure(Crashed) <==> !Attached())
      ensures res.Success? ==> key in entries && entries[key].receipt == Some(receipt)
      ensures res.Success? && key !in Uncertain(old(Memory())) ==> unchanged(this)
      ensures res.Success? && key in Uncertain(old(Memory())) ==>
                && sys == AfterWrite(old(sys), Receipted(key, receipt))
                && entries == old(entries)[key := old(entries)[key].(receipt := Some(receipt))]
      ensures res.Failure? ==> entries == old(entries)
      ensures res == Failure(Io) ==>
                && key in Uncertain(Memory())
                && Missed(old(sys), AfterSlip(old(sys), Receipted(key, receipt)), sys)
      ensures res == Failure(Crashed) ==>
                sys.process.None? && Ended(old(sys), AfterWrite(old(sys), Receipted(key, receipt)), sys)
      ensures res.Failure? && res.error !in {Crashed, Io} ==> unchanged(this)
      ensures res.Failure? ==> res.error in {Crashed, Io, Replaced, TooLarge, NoIntent, Conflict}
      ensures res == Failure(NoIntent) ==> key !in entries
      ensures res == Failure(Conflict) ==>
                key in entries && entries[key].receipt.Some? && entries[key].receipt.value != receipt
      ensures old(MayLogReceipt(key)) ==> Sane()
    {
      hide FileHolds, Reachable;
      if serde.receiptSize(receipt) > RECEIPT_LIMIT {
        return Failure(TooLarge);
      }
      if key !in entries {
        return Failure(NoIntent);
      }
      if entries[key].receipt.Some? {
        if entries[key].receipt.value != receipt {
          return Failure(Conflict);
        }
        return Success(());
      }
      assert key in Uncertain(Memory());
      var _ :- LogRecord(Receipted(key, receipt));
      entries := entries[key := entries[key].(receipt := Some(receipt))];
      return Success(());
    }

    /** Journal an acknowledgement; once journaled, repeating it does nothing. */
    method LogAck(key: Key) returns (res: Outcome<()>)
      requires Attached()
      modifies this`entries, this`stream, this`sys
      ensures OnDisk() && (res == Failure(Crashed) <==> !Attached())
      ensures res.Success? ==>
                key in old(entries) && entries == old(entries)[key := old(entries)[key].(acknowledged := true)]
      ensures res.Success? && old(entries)[key].acknowledged ==> unchanged(this)
      ensures res.Success? && !old(entries)[key].acknowledged ==> sys == AfterWrite(old(sys), Ack(key))
      ensures res.Failure? ==> entries == old(entries)
      ensures res == Failure(Io) ==>
                && key in entries && !entries[key].acknowledged
                && Missed(old(sys), AfterSlip(old(sys), Ack(key)), sys)
      ensures res == Failure(Crashed) ==> sys.process.None? && Ended(old(sys), AfterWrite(old(sys), Ack(key)), sys)
      ensures res.Failure? && res.error !in {Crashed, Io} ==> unchanged(this)
      ensures res.Failure? ==> res.error in {Crashed, Io, Replaced, TooLarge, NoIntent}
      ensures res == Failure(NoIntent) ==> key !in entries
      ensures old(MayLogAck(key)) ==> Sane()
    {
      hide FileHolds, Reachable;
      if key !in entries {
        return Failure(NoIntent);
      }
      if entries[key].acknowledged {
        assert entries == entries[key := entries[key].(acknowledged := true)];
        return Success(());
      }
      var _ :- LogRecord(Ack(key));
      entries := entries[key := entries[key].(acknowledged := true)];
      return Success(());
    }

    method LogHandle(id: Id, state: HandleState) returns (res: Outcome<()>)
      requires Attached()
      modifies this`handles, this`stream, this`sys
      ensures OnDisk() && (res == Failure(Crashed) <==> !Attached())
      ensures res.Success? ==> sys == AfterWrite(old(sys), Handle(id, state)) && handles == old(handles)[id := state]
      ensures res.Failure? ==> handles == old(handles)
      ensures res == Failure(Io) ==> Missed(old(sys), AfterSlip(old(sys), Handle(id, state)), sys)
      ensures res == Failure(Crashed) ==>
                sys.process.None? && Ended(old(sys), AfterWrite(old(sys), Handle(id, state)), sys)
      ensures res.Failure? && res.error !in {Crashed, Io} ==> unchanged(this)
      ensures old(Valid()) ==> Sane()
    {
      hide FileHolds, Reachable;
      var _ :- LogRecord(Handle(id, state));
      handles := handles[id := state];
      return Success(());
    }

    method MarkClean() returns (res: Outcome<()>)
      requires Attached()
      modifies this`clean, this`stream, this`sys
      ensures OnDisk() && (res == Failure(Crashed) <==> !Attached())
      ensures res.Success? ==> clean && sys == AfterWrite(old(sys), Record.Clean)
      ensures res.Failure? ==> clean == old(clean)
      ensures res == Failure(Io) ==> Missed(old(sys), AfterSlip(old(sys), Record.Clean), sys)
      ensures res == Failure(Crashed) ==>
                sys.process.None? && Ended(old(sys), AfterWrite(old(sys), Record.Clean), sys)
      ensures res.Failure? && res.error !in {Crashed, Io} ==> unchanged(this)
      ensures old(MayMarkClean()) ==> Sane()
    {
      hide FileHolds, Reachable;
      var _ :- LogRecord(Record.Clean);
      clean := true;
      return Success(());
    }

    method HasUncertainEffects() returns (found: bool)
      ensures found <==> Uncertain(Memory()) != {}
    {
      found := exists k :: k in entries && entries[k].receipt.None?;
      if found {
        ghost var k :| k in entries && entries[k].receipt.None?;
        assert k in Uncertain(Memory());
      }
    }

    /** Record in the history that the effect of a journaled intent was begun. */
    ghost method MarkBegun(key: Key)
      requires Valid() && key in sys.process.value.ready
      modifies this`sys
      ensures Valid() && sys == AfterBegin(old(sys), key)
    {
      LogRefinement(sys);
      BeginReachable(sys, key);
      sys := AfterBegin(sys, key);
    }

    /** Record in the history that a journaled receipt was submitted to the service. */
    ghost method MarkSubmitted(key: Key)
      requires Valid() && key in entries && entries[key].receipt.Some?
      modifies this`sys
      ensures Valid() && sys == AfterSubmit(old(sys), key, entries[key].receipt.value)
      ensures Submitted(key, entries[key].receipt.value) in sys.trace
    {
      LogRefinement(sys);
      SubmitReachable(sys, key);
      sys := AfterSubmit(sys, key, entries[key].receipt.value);
    }

    // ---------------------------------------------------------- opening

    /** Read the whole file into memory; the result is the last header's identity. */
    method RestoreRecords() returns (res: Outcome<(Binding, string)>)
      requires entries == map[] && handles == map[] && !clean
      modifies this`entries, this`handles, this`clean
      ensures res.Success? ==>
                RestoreFile(serde.records, stream) ==
                Success(State(res.value.0, res.value.1, entries, handles, clean))
      ensures res.Failure? ==> RestoreFile(serde.records, stream) == Failure(res.error)
    {
      var c := serde.records;
      var first := ReadNext(c, stream);
      if first.Bad? {
        return Failure(Unreadable(first.error));
      }
      if first.End? || !first.record.Header? {
        return Failure(InvalidHeader);
      }
      var found, foundInstance := first.record.binding, first.record.instance;
      var rest := first.rest;
      while true
        invariant RestoreFile(c, stream) ==
                  RestoreRest(c, State(found, foundInstance, entries, handles, clean), rest)
        decreases |rest|
      {
        var next := ReadNext(c, rest);
        match next {
          case End => return Success((found, foundInstance));
          case Bad(e) => return Failure(Unreadable(e));
          case Got(Header(b, i), tail) =>
            found, foundInstance, clean, rest := b, i, false, tail;
          case Got(r, tail) =>
            var ok := RestoreOne(r);
            if !ok {
              return Failure(Orphan);
            }
            rest := tail;
        }
      }
    }

    /** Apply one record that is not a header to memory. */
    method RestoreOne(r: Record) returns (ok: bool)
      requires !r.Header?
      modifies this`entries, this`handles, this`clean
      ensures forall b, i ::
                Restore(State(b, i, old(entries), old(handles), old(clean)), r) ==
                if ok then Some(State(b, i, entries, handles, clean)) else None
      ensures !ok ==> unchanged(this)
    {
      match r {
        case Intent(k, q) =>
          entries := entries[k := Entry(q, None, false)];
        case Receipted(k, v) =>
          if k !in entries {
            return false;
          }
          entries := entries[k := entries[k].(receipt := Some(v))];
        case Ack(k) =>
          if k !in entries {
            return false;
          }
          entries := entries[k := entries[k].(acknowledged := true)];
        case Handle(id, h) =>
          handles := handles[id := h];
        case Clean =>
          clean := true;
      }
      return true;
    }

    /** Nobody holds the journal yet; memory is what its records replay to. */
    ghost predicate Loading(prior: State)
      reads this
    {
      && Stopped() && !sys.torn && sys.log != []
      && Replay(sys.log) == Some(prior)
      && (entries, handles, clean) == (prior.entries, prior.handles, prior.clean)
    }

    /** Open a journal file: create it, return to it as the same process, or take it over as a new
        process if and only if the restart gate allows. A file once torn is refused. */
    method Load(teardownVerified: bool) returns (res: Outcome<()>)
      requires Stopped() && entries == map[] && handles == map[] && !clean
      modifies this`entries, this`handles, this`clean, this`stream, this`sys
      ensures if res.Success? then Opened() else Stopped()
      ensures old(sys).trace <= sys.trace
      ensures res.Success? && old(sys).log == [] ==> entries == map[] && handles == map[] && !clean
      ensures res.Success? && old(sys).log != [] ==> Replay(old(sys).log).Some?
      ensures res.Success? && old(sys).log != [] ==>
                Taken(Replay(old(sys).log).value, teardownVerified)
      ensures old(sys).torn ==>
                res.Failure? && res.error.Unreadable? && stream == old(stream) && sys == old(sys)
      ensures !old(sys).torn && old(sys).log != [] && Replay(old(sys).log).Some? ==>
                var prior := Replay(old(sys).log).value;
                var verdict := Gate(prior, binding, instance, teardownVerified);
                verdict in {StaleEpoch, Unproven} ==>
                  res == Failure(RecoveryRequired(verdict)) && stream == old(stream) && sys == old(sys)
    {
      hide FileHolds, Reachable, Frames, Uncertain;
      if |stream| == 0 {
        EmptyFile();
        res := CreateFile();
        return;
      }
      FileMeaning();
      var prior :- RestoreRecords();
      var _ :- ValidateRestart(prior.0, prior.1, teardownVerified);
      if |stream| > COMPACT_ABOVE {
        var compacted := Compact();
        if compacted.Failure? {
          StopReachable(sys, false);
          sys := sys.(process := None);
          return compacted;
        }
      }
      return Success(());
    }

    /** Begin an empty file with this process's header. */
    method CreateFile() returns (res: Outcome<()>)
      requires Stopped() && !sys.torn && sys.log == [] && entries == map[] && handles == map[] && !clean
      modifies this`stream, this`sys
      ensures if res.Success? then Opened() else Stopped()
      ensures old(sys).trace <= sys.trace
    {
      hide FileHolds, Reachable;
      ghost var next := AfterCreate(sys, binding, instance);
      CreateReachable(sys, binding, instance);
      StopReachable(sys, false);
      StopReachable(sys, true);
      StopReachable(next, false);
      res := Append(Header(binding, instance), next, next.(process := None));
    }

    /** What memory holds after taking over a journal that stood at `prior`. */
    ghost predicate Taken(prior: State, teardownVerified: bool)
      reads this
    {
      match Gate(prior, binding, instance, teardownVerified)
      case SameProcess => Memory() == prior
      case NewProcess =>
        && Uncertain(prior) == {}
        && Memory() == State(binding, instance, prior.entries,
                             if teardownVerified then TornDownAll(prior.handles) else prior.handles, false)
      case StaleEpoch => false
      case Unproven => false
    }

    lemma EmptyFile()
      requires Sane() && |stream| == 0
      ensures sys.log == [] && !sys.torn
    {
      if sys.log != [] {
        FramesFirst(serde.records, sys.log);
      }
      if sys.torn {
        var rest :| Debris(serde.records, rest) && stream == Frames(serde.records, sys.log) + rest;
        DebrisRefused(serde.records, rest);
      }
    }

    /** What reading the file must give, from what is known of its history. */
    lemma FileMeaning()
      requires Sane() && stream != []
      ensures ReadsAs(serde.records, stream, sys)
      ensures !sys.torn ==> sys.log != []
    {
      FileReads(serde.records, stream, sys);
    }

    method ValidateRestart(priorBinding: Binding, priorInstance: string, teardownVerified: bool)
      returns (res: Outcome<()>)
      requires Loading(State(priorBinding, priorInstance, entries, handles, clean))
      modifies this`handles, this`clean, this`stream, this`sys
      ensures if res.Success? then Opened() else Stopped()
      ensures old(sys).trace <= sys.trace
      ensures res.Success? ==>
                Taken(State(priorBinding, priorInstance, entries, old(handles), old(clean)), teardownVerified)
      ensures var verdict := Gate(State(priorBinding, priorInstance, entries, old(handles), old(clean)),
                                  binding, instance, teardownVerified);
              verdict in {StaleEpoch, Unproven} ==>
                res == Failure(RecoveryRequired(verdict)) && stream == old(stream) && sys == old(sys)
    {
      hide FileHolds, Reachable;
      ghost var prior := State(priorBinding, priorInstance, entries, handles, clean);
      if priorBinding == binding && priorInstance == instance {
        AttachReachable(sys, prior, binding, instance);
        sys := AfterAttach(sys, prior);
        return Success(());
      }
      if priorBinding.epoch >= binding.epoch {
        return Failure(RecoveryRequired(StaleEpoch));
      }
      var uncertain := HasUncertainEffects();
      assert uncertain <==> Uncertain(prior) != {};
      if !SameIdentity(priorBinding, binding) || !(clean || teardownVerified) || uncertain {
        return Failure(RecoveryRequired(Unproven));
      }
      if teardownVerified {
        var _ :- RecordExternalTeardown(prior);
      }
      res := StartOver(prior.(handles := handles), teardownVerified);
    }

    /** Append this process's header and begin with its clean mark unset. */
    method StartOver(ghost prior: State, ghost teardownVerified: bool) returns (res: Outcome<()>)
      requires Loading(prior) && Gate(prior, binding, instance, teardownVerified).NewProcess?
      requires teardownVerified ==> RunningHandles(prior) == {}
      modifies this`clean, this`stream, this`sys
      ensures if res.Success? then Opened() else Stopped()
      ensures old(sys).trace <= sys.trace
      ensures res.Success? ==> !clean
      ensures res.Failure? ==> !res.error.RecoveryRequired?
    {
      hide FileHolds, Reachable, Gate, RunningHandles;
      ghost var next := AfterRestart(sys, prior, binding, instance, teardownVerified);
      RestartReachable(sys, prior, binding, instance, teardownVerified);
      StopReachable(sys, true);
      StopReachable(next, false);
      var _ :- Append(Header(binding, instance), next, next.(process := None));
      clean := false;
      return Success(());
    }

    /** Journal every process still recorded as running as cancelled by the confirmed teardown. */
    method RecordExternalTeardown(ghost prior: State) returns (res: Outcome<()>)
      requires Loading(prior) && Gate(prior, binding, instance, true).NewProcess?
      modifies this`handles, this`stream, this`sys
      ensures Stopped() && old(sys).trace <= sys.trace
      ensures res.Success? ==> handles == TornDownAll(old(handles))
      ensures res.Success? ==> Loading(prior.(handles := handles))
      ensures res.Success? ==> RunningHandles(prior.(handles := handles)) == {}
    {
      hide FileHolds, Reachable, Replay;
      var running := set id | id in handles && handles[id].status.Running?;
      while running != {}
        invariant Loading(prior.(handles := handles)) && old(sys).trace <= sys.trace
        invariant handles.Keys == old(handles).Keys
        invariant running <= handles.Keys
        invariant forall id <- handles ::
                    handles[id] == if id in running then old(handles)[id] else TornDownAll(old(handles))[id]
        invariant forall id <- running :: old(handles)[id].status.Running?
        decreases running
      {
        var id :| id in running;
        var _ :- RecordTornDown(id, prior.(handles := handles));
        running := running - {id};
      }
      return Success(());
    }

    method RecordTornDown(id: Id, ghost prior: State) returns (res: Outcome<()>)
      requires Loading(prior) && Gate(prior, binding, instance, true).NewProcess?
      requires id in handles && handles[id].status.Running?
      modifies this`handles, this`stream, this`sys
      ensures Stopped() && old(sys).trace <= sys.trace
      ensures res.Success? ==> handles == old(handles)[id := TornDown(old(handles)[id])]
      ensures res.Success? ==> Loading(prior.(handles := handles))
    {
      hide FileHolds;
      var state := TornDown(handles[id]);
      assert id in RunningHandles(prior);
      TearDownReachable(sys, prior, id, binding, instance);
      ReplayAppend(sys.log, Handle(id, state));
      StopReachable(sys, true);
      var _ :- Append(Handle(id, state), AfterTearDown(sys, id, handles[id]), AfterTearDown(sys, id, handles[id]));
      handles := handles[id := state];
      return Success(());
    }

    // ---------------------------------------------------------- compaction

    /** Replace the file by a snapshot of memory. Nothing remembered changes. */
    method Compact() returns (res: Outcome<()>)
      requires InStep()
      modifies this`stream, this`sys
      ensures InStep() && sys.process == old(sys.process) && sys.trace == old(sys.trace)
      ensures sys.log == old(sys.log) || IsSnapshot(sys.log, Memory())
      ensures res.Success? ==> IsSnapshot(sys.log, Memory())
      ensures res.Failure? ==> res.error in {Io, Replaced}
    {
      hide Reachable, Frames, Enumerates, Replay, Accepted, Snapshot, Due, Justified, OnFile;
      var anchored: bool := *;
      if !anchored {
        return Failure(Replaced);
      }
      var bytes, keys, ids := WriteSnapshot();
      var renamed: bool := *;
      if !renamed {
        return Failure(Io);
      }
      stream := bytes;
      CompactReachable(sys, keys, ids);
      LogRefinement(sys);
      sys := sys.(log := Snapshot(Memory(), keys, ids));
      LogRefinement(sys);
      var synced: bool := *;
      if !synced {
        return Failure(Io);
      }
      return Success(());
    }

    /** Every record of the snapshot was accepted once, so none is refused for its size now. */
    method WriteSnapshot() returns (bytes: seq<byte>, ghost keys: seq<Key>, ghost ids: seq<Id>)
      requires InStep()
      ensures Enumerates(keys, entries.Keys) && Enumerates(ids, handles.Keys)
      ensures bytes == Frames(serde.records, Snapshot(Memory(), keys, ids))
      ensures forall r <- Snapshot(Memory(), keys, ids) :: Accepted(serde.records, r)
    {
      var c := serde.records;
      LogRefinement(sys);
      ReplayRecorded(sys.log);
      var header := WriteRecord(c, Header(binding, instance));
      var middle, order := WriteEntries();
      keys := order;
      var last, idOrder := WriteHandles();
      ids := idOrder;
      bytes := header.value + middle + last;
      SnapshotFrames(c, Memory(), keys, ids);
      if clean {
        var more := WriteRecord(c, Record.Clean);
        bytes := bytes + more.value;
        WholeFrames(c, SnapshotBody(Memory(), keys, ids), Record.Clean);
      }
      SnapshotFromLog(sys.log, keys, ids);
    }

    method WriteEntries() returns (bytes: seq<byte>, ghost keys: seq<Key>)
      requires Recorded(Memory(), sys.log) && forall r <- sys.log :: Accepted(serde.records, r)
      ensures Enumerates(keys, entries.Keys) && bytes == Frames(serde.records, EntriesRecords(entries, keys))
    {
      hide Accepted, Frame;
      bytes, keys := [], [];
      var left := entries.Keys;
      while left != {}
        invariant left <= entries.Keys && Enumerates(keys, entries.Keys - left)
        invariant bytes == Frames(serde.records, EntriesRecords(entries, keys))
        decreases left
      {
        var k :| k in left;
        assert k !in keys;
        var more := WriteEntry(k, entries[k]);
        FramesAppend(serde.records, EntriesRecords(entries, keys), EntryRecords(k, entries[k]));
        bytes := bytes + more;
        assert (keys + [k])[..|keys|] == keys;
        keys := keys + [k];
        left := left - {k};
      }
    }

    method WriteHandles() returns (bytes: seq<byte>, ghost ids: seq<Id>)
      requires Recorded(Memory(), sys.log) && forall r <- sys.log :: Accepted(serde.records, r)
      ensures Enumerates(ids, handles.Keys) && bytes == Frames(serde.records, HandlesRecords(handles, ids))
    {
      bytes, ids := [], [];
      var left := handles.Keys;
      while left != {}
        invariant left <= handles.Keys && Enumerates(ids, handles.Keys - left)
        invariant bytes == Frames(serde.records, HandlesRecords(handles, ids))
        decreases left
      {
        var id :| id in left;
        assert id !in ids;
        var more := WriteRecord(serde.records, Handle(id, handles[id]));
        WholeFrames(serde.records, HandlesRecords(handles, ids), Handle(id, handles[id]));
        bytes := bytes + more.value;
        assert (ids + [id])[..|ids|] == ids;
        ids := ids + [id];
        left := left - {id};
      }
    }

    method WriteEntry(k: Key, e: Entry) returns (bytes: seq<byte>)
      requires forall r <- EntryRecords(k, e) :: Accepted(serde.records, r)
      ensures bytes == Frames(serde.records, EntryRecords(k, e))
    {
      var c := serde.records;
      ghost var rs := [Intent(k, e.request)];
      assert rs[..0] == [];
      assert Intent(k, e.request) in EntryRecords(k, e);
      var intent := WriteRecord(c, Intent(k, e.request));
      bytes := intent.value;
      if e.receipt.Some? {
        assert Receipted(k, e.receipt.value) in EntryRecords(k, e);
        var receipt := WriteRecord(c, Receipted(k, e.receipt.value));
        WholeFrames(c, rs, Receipted(k, e.receipt.value));
        rs := rs + [Receipted(k, e.receipt.value)];
        bytes := bytes + receipt.value;
      }
      if e.acknowledged {
        assert Ack(k) in EntryRecords(k, e);
        var ack := WriteRecord(c, Ack(k));
        WholeFrames(c, rs, Ack(k));
        rs := rs + [Ack(k)];
        bytes := bytes + ack.value;
      }
      assert rs == EntryRecords(k, e);
    }
  }
}
