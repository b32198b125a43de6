/** Compacting a journal on disk: every file a crash can leave restores the same state. */
module Compaction {
  import opened Wrappers
  import opened Framing
  import opened Ledger
  import opened Protocol
  import opened JournalFile
  import opened Replacement

  /** The log as it was and the snapshot that replaces it restore the same state. */
  lemma BothRestore(c: Codec<Record>, s: Sys, keys: seq<Key>, ids: seq<Id>)
    requires Sound(c) && Reachable(s) && s.process.Some? && !s.torn && s.process.value.owed == NOTHING
    requires forall r <- s.log :: Accepted(c, r)
    requires Enumerates(keys, s.process.value.state.entries.Keys)
    requires Enumerates(ids, s.process.value.state.handles.Keys)
    ensures RestoreFile(c, Frames(c, s.log)) == Success(s.process.value.state)
    ensures RestoreFile(c, Frames(c, Snapshot(s.process.value.state, keys, ids))) == Success(s.process.value.state)
  {
    var st := s.process.value.state;
    LogRefinement(s);
    FileRestoresReplay(c, s.log);
    CompactReachable(s, keys, ids);
    LogRefinement(s.(log := Snapshot(st, keys, ids)));
    SnapshotFromLog(s.log, keys, ids);
    FileRestoresReplay(c, Snapshot(st, keys, ids));
  }

  /** The file on disk restores exactly this state, whatever a crash leaves. */
  ghost predicate Restores(c: Codec<Record>, d: Dir, st: State) {
    WellFormed(d) && forall image :: CrashesTo(d, image) ==> image.Some? && RestoreFile(c, image.value) == Success(st)
  }

  lemma WhollyRestores(c: Codec<Record>, d: Dir, before: seq<byte>, after: seq<byte>, st: State)
    requires WellFormed(d) && Wholly(d, {Some(before), Some(after)})
    requires RestoreFile(c, before) == Success(st) && RestoreFile(c, after) == Success(st)
    ensures Restores(c, d, st)
  {
    WhollyMeaning(d, {Some(before), Some(after)});
  }

  lemma StreamIsLog(j: Journal)
    requires j.InStep()
    ensures Sound(j.serde.records) && j.stream == Frames(j.serde.records, j.sys.log)
    ensures forall r <- j.sys.log :: Accepted(j.serde.records, r)
  {
    LogRefinement(j.sys);
  }

  /** Write the snapshot through the staged replacement. At every crash point, before and after, the
      file a new process finds restores what this one remembers. */
  method CompactOnDisk(journal: Journal, store: Store) returns (ok: bool)
    requires journal.InStep() && store.Valid() && Wholly(store.dir, {Some(journal.stream)})
    modifies store
    ensures store.Valid() && |old(store.past)| <= |store.past|
    ensures Restores(journal.serde.records, store.dir, journal.Memory())
    ensures forall i :: |old(store.past)| <= i < |store.past| ==>
              Restores(journal.serde.records, store.past[i], journal.Memory())
  {
    hide Reachable, Wholly, WellFormed, Restores, FileHolds, Enumerates, Snapshot, Frames, RestoreFile;
    var bytes, keys, ids := journal.WriteSnapshot();
    ghost var c := journal.serde.records;
    StreamIsLog(journal);
    BothRestore(c, journal.sys, keys, ids);
    assert Flatten([bytes]) == bytes by {
      assert [bytes][..0] == [] && [] + bytes == bytes;
    }
    ok := store.ReplaceSnapshot([bytes], {Some(journal.stream)});
    assert {Some(journal.stream)} + {Some(bytes)} == {Some(journal.stream), Some(bytes)};
    WhollyRestores(c, store.dir, journal.stream, bytes, journal.Memory());
    forall i | |old(store.past)| <= i < |store.past| ensures Restores(c, store.past[i], journal.Memory()) {
      WhollyRestores(c, store.past[i], journal.stream, bytes, journal.Memory());
    }
  }
}
