/** Replacing a file so that a crash at any moment leaves it wholly old or wholly new. Both the
    controller's snapshot and a compacted journal are written this way. */
module Replacement {
  import opened Wrappers
  import opened Framing

  const SNAPSHOT_LIMIT: nat := 16 * 1024 * 1024
  const RETURN: byte := 13

  /** A file's content; a crash keeps it only if it was synced since the last write. */
  datatype Inode = Inode(data: seq<byte>, synced: bool)

  /** A directory with its authoritative file and a staging file beside it. `maybe` is what a crash
      may leave under the authoritative name: every target it had since the directory was synced. */
  datatype Dir = Dir(inodes: seq<Inode>, current: Option<nat>, staging: Option<nat>, maybe: set<Option<nat>>)

  predicate WellFormed(d: Dir) {
    && d.current in d.maybe
    && (forall i <- d.maybe :: i.Some? ==> i.value < |d.inodes|)
    && (d.staging.Some? ==> d.staging.value < |d.inodes| && d.staging !in d.maybe)
  }

  /** What the authoritative file may hold after a crash; None when it may be missing. */
  ghost predicate CrashesTo(d: Dir, image: Option<seq<byte>>)
    requires WellFormed(d)
  {
    exists i :: i in d.maybe && match i
      case None => image.None?
      case Some(n) => image.Some? && (d.inodes[n].synced ==> image.value == d.inodes[n].data)
  }

  /** After a crash the authoritative file holds one of `images`, whole. */
  ghost predicate Wholly(d: Dir, images: set<Option<seq<byte>>>)
    requires WellFormed(d)
  {
    forall i <- d.maybe :: match i
      case None => None in images
      case Some(n) => d.inodes[n].synced && Some(d.inodes[n].data) in images
  }

  lemma WhollyMeaning(d: Dir, images: set<Option<seq<byte>>>)
    requires WellFormed(d)
    ensures Wholly(d, images) <==> forall image :: CrashesTo(d, image) ==> image in images
  {
    if forall image :: CrashesTo(d, image) ==> image in images {
      forall i | i in d.maybe
        ensures match i case None => None in images
                case Some(n) => d.inodes[n].synced && Some(d.inodes[n].data) in images
      {
        if i.None? {
          assert CrashesTo(d, None);
        } else if d.inodes[i.value].synced {
          assert CrashesTo(d, Some(d.inodes[i.value].data));
        } else {
          var other := Another(set x | x in images && x.Some? :: x.value, NEWLINE);
          assert CrashesTo(d, Some(other));
        }
      }
    }
  }

  /** Nothing that touches only the staging file came between: the authoritative file is the same. */
  ghost predicate KeepsFile(a: Dir, b: Dir) {
    && WellFormed(a) && WellFormed(b)
    && b.maybe == a.maybe && b.current == a.current && |a.inodes| <= |b.inodes|
    && forall i <- a.maybe :: i.Some? ==> b.inodes[i.value] == a.inodes[i.value]
  }

  lemma KeepsWholly(a: Dir, b: Dir, images: set<Option<seq<byte>>>)
    requires KeepsFile(a, b) && Wholly(a, images)
    ensures Wholly(b, images)
  {
  }

  // ------------------------------------------------------------ the steps

  class Store {
    var dir: Dir
    ghost var past: seq<Dir>

    ghost predicate Valid()
      reads this
    {
      WellFormed(dir)
    }

    /** Every moment since there were `n` of them leaves one of `images` after a crash. */
    ghost predicate Throughout(n: nat, images: set<Option<seq<byte>>>)
      reads this
    {
      n <= |past| && forall i :: n <= i < |past| ==> WellFormed(past[i]) && Wholly(past[i], images)
    }

    /** A directory in which the authoritative file was just created, empty; a crash may undo that. */
    constructor ()
      ensures Valid() && past == []
      ensures dir == Dir([Inode([], true)], Some(0), None, {None, Some(0)})
    {
      dir, past := Dir([Inode([], true)], Some(0), None, {None, Some(0)}), [];
    }

    method RemoveStaging() returns (ok: bool)
      requires Valid()
      modifies this
      ensures Valid() && past == old(past) + [dir]
      ensures dir == if ok then old(dir).(staging := None) else old(dir)
    {
      ok := *;
      if ok {
        dir := dir.(staging := None);
      }
      past := past + [dir];
    }

    method CreateStaging() returns (ok: bool)
      requires Valid()
      modifies this
      ensures Valid() && past == old(past) + [dir]
      ensures ok ==> old(dir).staging.None? && dir.staging == Some(|old(dir).inodes|)
                     && dir == old(dir).(inodes := old(dir).inodes + [Inode([], false)], staging := dir.staging)
      ensures !ok ==> dir == old(dir)
    {
      ok := *;
      ok := ok && dir.staging.None?;
      if ok {
        dir := dir.(inodes := dir.inodes + [Inode([], false)], staging := Some(|dir.inodes|));
      }
      past := past + [dir];
    }

    /** A write may stop short; what it wrote is not durable. */
    method WriteStaging(bytes: seq<byte>) returns (ok: bool)
      requires Valid() && dir.staging.Some?
      modifies this
      ensures Valid() && past == old(past) + [dir]
      ensures var n := old(dir).staging.value;
              && dir == old(dir).(inodes := dir.inodes) && |dir.inodes| == |old(dir).inodes|
              && (forall i :: 0 <= i < |dir.inodes| && i != n ==> dir.inodes[i] == old(dir).inodes[i])
              && (ok ==> dir.inodes[n] == Inode(old(dir).inodes[n].data + bytes, false))
    {
      ok := *;
      var written: int := *;
      if ok || !(0 <= written <= |bytes|) {
        ok, written := true, |bytes|;
      }
      var n := dir.staging.value;
      assert bytes[..|bytes|] == bytes;
      dir := dir.(inodes := dir.inodes[n := Inode(dir.inodes[n].data + bytes[..written], false)]);
      past := past + [dir];
    }

    method SyncStaging() returns (ok: bool)
      requires Valid() && dir.staging.Some?
      modifies this
      ensures Valid() && past == old(past) + [dir]
      ensures var n := old(dir).staging.value;
              dir == old(dir).(inodes := if ok then old(dir).inodes[n := old(dir).inodes[n].(synced := true)]
                                         else old(dir).inodes)
    {
      ok := *;
      var n := dir.staging.value;
      if ok {
        dir := dir.(inodes := dir.inodes[n := dir.inodes[n].(synced := true)]);
      }
      past := past + [dir];
    }

    method Rename() returns (ok: bool)
      requires Valid() && dir.staging.Some?
      modifies this
      ensures Valid() && past == old(past) + [dir]
      ensures dir == if ok then old(dir).(current := old(dir).staging, staging := None,
                                          maybe := old(dir).maybe + {old(dir).staging})
                     else old(dir)
    {
      ok := *;
      if ok {
        dir := dir.(current := dir.staging, staging := None, maybe := dir.maybe + {dir.staging});
      }
      past := past + [dir];
    }

    method SyncDirectory() returns (ok: bool)
      requires Valid()
      modifies this
      ensures Valid() && past == old(past) + [dir]
      ensures dir == if ok then old(dir).(maybe := {dir.current}) else old(dir)
    {
      ok := *;
      if ok {
        dir := dir.(maybe := {dir.current});
      }
      past := past + [dir];
    }

    /** The bytes readers see while nothing has crashed. */
    ghost function Visible(): Option<seq<byte>>
      requires Valid()
      reads this
    {
      if dir.current.None? then None else Some(dir.inodes[dir.current.value].data)
    }

    /** Write the new content beside the old, sync it, rename it over, sync the directory. Whatever
        fails or crashes, at every moment the file is wholly one of what it was or wholly new. */
    method ReplaceSnapshot(parts: seq<seq<byte>>, ghost images: set<Option<seq<byte>>>) returns (ok: bool)
      requires Valid() && Wholly(dir, images)
      modifies this
      ensures Valid() && Throughout(|old(past)|, images + {Some(Flatten(parts))})
      ensures Wholly(dir, images + {Some(Flatten(parts))})
      ensures ok ==> Wholly(dir, {Some(Flatten(parts))}) && Visible() == Some(Flatten(parts))
      ensures !ok ==> Visible() == old(Visible()) || Visible() == Some(Flatten(parts))
    {
      ok := Stage(parts);
      KeepsWholly(old(dir), dir, images);
      forall i | |old(past)| <= i < |past| ensures Wholly(past[i], images) {
        KeepsWholly(old(dir), past[i], images);
      }
      if !ok {
        return;
      }
      ok := Rename();
      if !ok {
        return;
      }
      ok := SyncDirectory();
    }

    /** Every moment since there were `n` of them only the staging file differs from `start`. */
    ghost predicate KeptSince(n: nat, start: Dir)
      reads this
    {
      && KeepsFile(start, dir)
      && n <= |past| && forall i :: n <= i < |past| ==> KeepsFile(start, past[i])
    }

    /** Put the whole new content in a fresh staging file and make it durable. */
    method Stage(parts: seq<seq<byte>>) returns (ok: bool)
      requires Valid()
      modifies this
      ensures Valid() && KeptSince(|old(past)|, old(dir))
      ensures ok ==> dir.staging.Some? && dir.inodes[dir.staging.value] == Inode(Flatten(parts), true)
    {
      ok := RemoveStaging();
      if !ok {
        return;
      }
      ok := CreateStaging();
      if !ok {
        return;
      }
      assert parts[..0] == [];
      for i := 0 to |parts|
        invariant Valid() && KeptSince(|old(past)|, old(dir))
        invariant dir.staging.Some? && dir.inodes[dir.staging.value].data == Flatten(parts[..i])
      {
        assert parts[..i + 1][..i] == parts[..i];
        ok := WriteStaging(parts[i]);
        if !ok {
          return;
        }
      }
      assert parts[..|parts|] == parts;
      ok := SyncStaging();
    }
  }

  /** Why the content is synced before the rename: otherwise a crash can leave neither version. */
  lemma UnsyncedRenameIsUnsafe(d: Dir, images: set<seq<byte>>)
    requires WellFormed(d) && d.staging.Some? && !d.inodes[d.staging.value].synced
    ensures var renamed := d.(current := d.staging, staging := None, maybe := d.maybe + {d.staging});
            WellFormed(renamed) && exists image :: image !in images && CrashesTo(renamed, Some(image))
  {
    var renamed := d.(current := d.staging, staging := None, maybe := d.maybe + {d.staging});
    var other := Another(images, NEWLINE);
    assert d.staging in renamed.maybe;
    assert CrashesTo(renamed, Some(other));
  }

  // ------------------------------------------------------------ the controller's snapshot

  /** Compact JSON holds no carriage return either. */
  ghost predicate OneLine<T(!new)>(c: Codec<T>) {
    Sound(c) && forall t :: RETURN !in c.encode(t)
  }

  function SnapshotOf<T>(c: Codec<T>, value: T): seq<byte> {
    c.encode(value) + [NEWLINE]
  }

  /** What follows the last newline. */
  function LastLine(s: seq<byte>): seq<byte> {
    if s == [] || s[|s| - 1] == NEWLINE then [] else LastLine(s[..|s| - 1]) + [s[|s| - 1]]
  }

  function WithoutReturn(s: seq<byte>): seq<byte> {
    if s != [] && s[|s| - 1] == RETURN then s[..|s| - 1] else s
  }

  /** The value of the last line of a file, if the file is whole and within bounds. */
  function LoadValue<T>(c: Codec<T>, file: seq<byte>): Option<T> {
    if |file| > SNAPSHOT_LIMIT || file == [] || file[|file| - 1] != NEWLINE then None
    else c.decode(WithoutReturn(LastLine(file[..|file| - 1])))
  }

  lemma {:induction false} LastLineOf(before: seq<byte>, line: seq<byte>)
    requires NEWLINE !in line && (before != [] ==> before[|before| - 1] == NEWLINE)
    ensures LastLine(before + line) == line
  {
    if line == [] {
      assert before + line == before;
    } else {
      var init := line[..|line| - 1];
      assert (before + line)[..|before + line| - 1] == before + init;
      LastLineOf(before, init);
      assert line == init + [line[|line| - 1]];
    }
  }

  /** Saving and loading give the value back exactly when the snapshot is within the bound, and
      earlier lines of an older file do not matter. */
  lemma LoadGivesSaved<T(!new)>(c: Codec<T>, value: T, before: seq<byte>)
    requires OneLine(c) && (before != [] ==> before[|before| - 1] == NEWLINE)
    ensures LoadValue(c, before + SnapshotOf(c, value)) ==
            if |before| + |SnapshotOf(c, value)| <= SNAPSHOT_LIMIT then Some(value) else None
  {
    hide LastLine;
    var file := before + SnapshotOf(c, value);
    assert file == before + c.encode(value) + [NEWLINE];
    assert file[..|file| - 1] == before + c.encode(value);
    LastLineOf(before, c.encode(value));
  }

  /** The files a reader may find when these values are the durable ones. */
  ghost function Images<T(!new)>(c: Codec<T>, values: set<T>): set<Option<seq<byte>>> {
    set v | v in values :: Some(SnapshotOf(c, v))
  }

  class Saved<T(!new)> {
    const codec: Codec<T>
    const store: Store
    var value: T

    /** `values` are what a reader may find now, after a crash or without one. */
    ghost predicate Durable(values: set<T>)
      reads this, store
    {
      && OneLine(codec) && store.Valid()
      && (forall v <- values :: |SnapshotOf(codec, v)| <= SNAPSHOT_LIMIT)
      && Wholly(store.dir, Images(codec, values))
    }

    constructor (codec: Codec<T>, store: Store, value: T)
      ensures this.codec == codec && this.store == store && this.value == value
    {
      this.codec, this.store, this.value := codec, store, value;
    }

    /** Write the current value over whatever the file held. An oversized snapshot is refused untouched. */
    method Write(ghost images: set<Option<seq<byte>>>) returns (ok: bool)
      requires OneLine(codec) && store.Valid() && Wholly(store.dir, images)
      modifies store
      ensures store.Valid()
      ensures var bytes := SnapshotOf(codec, value);
              if |bytes| <= SNAPSHOT_LIMIT then
                && store.Throughout(|old(store.past)|, images + {Some(bytes)})
                && Wholly(store.dir, images + {Some(bytes)})
                && (ok ==> Wholly(store.dir, {Some(bytes)}) && store.Visible() == Some(bytes))
              else !ok && unchanged(store)
    {
      var bytes := SnapshotOf(codec, value);
      if |bytes| > SNAPSHOT_LIMIT {
        return false;
      }
      assert Flatten([bytes]) == bytes by {
        assert [bytes][..0] == [] && [] + bytes == bytes;
      }
      ok := store.ReplaceSnapshot([bytes], images);
    }

    /** The first save. Until it succeeds a crash leaves no snapshot, an empty file that does not load,
        or the whole initial value. */
    method Create() returns (ok: bool)
      requires OneLine(codec) && store.Valid() && Wholly(store.dir, {None, Some([])})
      modifies store
      ensures ok ==> Durable({value})
      ensures |SnapshotOf(codec, value)| <= SNAPSHOT_LIMIT ==>
                store.Throughout(|old(store.past)|, {None, Some([]), Some(SnapshotOf(codec, value))})
    {
      ok := Write({None, Some([])});
      assert {None, Some([])} + {Some(SnapshotOf(codec, value))} == {None, Some([]), Some(SnapshotOf(codec, value))};
      assert Images(codec, {value}) == {Some(SnapshotOf(codec, value))};
    }

    /** Make the current value the durable one: until the save succeeds a crash leaves an earlier
        durable value or this one, never a mixture. */
    method Save(ghost values: set<T>) returns (ok: bool)
      requires Durable(values)
      modifies store
      ensures ok ==> Durable({value}) && |SnapshotOf(codec, value)| <= SNAPSHOT_LIMIT
      ensures |SnapshotOf(codec, value)| <= SNAPSHOT_LIMIT ==>
                Durable(values + {value}) && store.Throughout(|old(store.past)|, Images(codec, values + {value}))
      ensures |SnapshotOf(codec, value)| > SNAPSHOT_LIMIT ==> !ok && unchanged(store)
    {
      ok := Write(Images(codec, values));
      assert Images(codec, values + {value}) == Images(codec, values) + {Some(SnapshotOf(codec, value))};
      assert Images(codec, {value}) == {Some(SnapshotOf(codec, value))};
    }

    /** Open an existing snapshot: it always loads, as one of the durable values, and is saved again. */
    method Resume(ghost values: set<T>) returns (ok: bool)
      requires Durable(values)
      modifies this`value, store
      ensures ok ==> value in values && Durable({value})
      ensures Durable(values)
    {
      ghost var image := store.Visible();
      assert store.dir.current in store.dir.maybe;
      assert CrashesTo(store.dir, image);
      CrashLoads(values, image);
      var loaded := LoadValue(codec, store.dir.inodes[store.dir.current.value].data);
      value := loaded.value;
      ok := Save(values);
      assert values + {value} == values;
    }

    /** Whatever a crash leaves, loading finds one of the durable values. */
    lemma CrashLoads(values: set<T>, image: Option<seq<byte>>)
      requires Durable(values) && CrashesTo(store.dir, image)
      ensures image.Some? && LoadValue(codec, image.value).Some? && LoadValue(codec, image.value).value in values
    {
      WhollyMeaning(store.dir, Images(codec, values));
      var v :| v in values && Some(SnapshotOf(codec, v)) == image;
      LoadGivesSaved(codec, v, []);
      assert [] + SnapshotOf(codec, v) == SnapshotOf(codec, v);
    }
  }
}
