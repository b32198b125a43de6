/** Incremental search of a growing artifact. A pattern is the set of byte strings it matches, with
    no regard to position: what a regular expression without anchors or word boundaries denotes. */
module LogSearch {
  import opened Wrappers
  import opened Framing
  import opened Capture

  type Pattern = seq<byte> -> bool

  const CARRY: nat := 4096
  const CHUNK: nat := 64 * 1024

  predicate MatchAt(m: Pattern, t: seq<byte>, i: int, j: int) {
    0 <= i <= j <= |t| && m(t[i..j])
  }

  ghost predicate Occurs(m: Pattern, t: seq<byte>) {
    exists i, j :: MatchAt(m, t, i, j)
  }

  lemma SliceOfSlice(t: seq<byte>, a: nat, b: nat, i: nat, j: nat)
    requires a <= b <= |t| && i <= j <= b - a
    ensures t[a..b][i..j] == t[a + i..a + j]
  {
    var u := t[a..b];
    forall k | 0 <= k < j - i ensures u[i..j][k] == t[a + i..a + j][k] {
      assert u[i + k] == t[a + i + k];
    }
  }

  /** What one scan keeps for the next. */
  function Tail(t: seq<byte>): seq<byte> {
    if |t| <= CARRY then t else t[|t| - CARRY..]
  }

  function CarryAfter(chunks: seq<seq<byte>>): seq<byte> {
    if chunks == [] then [] else Tail(CarryAfter(chunks[..|chunks| - 1]) + chunks[|chunks| - 1])
  }

  /** Whether some read, searched together with what was carried into it, shows a match. */
  ghost predicate Reports(m: Pattern, chunks: seq<seq<byte>>) {
    chunks != [] &&
    (Reports(m, chunks[..|chunks| - 1]) ||
     Occurs(m, CarryAfter(chunks[..|chunks| - 1]) + chunks[|chunks| - 1]))
  }

  /** Every match contains one short enough for the carry to bridge. */
  ghost predicate Bridged(m: Pattern) {
    forall w :: m(w) ==> HasShort(m, w)
  }

  ghost predicate HasShort(m: Pattern, w: seq<byte>) {
    exists i, j :: MatchAt(m, w, i, j) && j - i <= CARRY + 1
  }

  lemma BridgedAt(m: Pattern, w: seq<byte>)
    requires Bridged(m) && m(w)
    ensures HasShort(m, w)
  {
    hide HasShort;
  }

  // ------------------------------------------------------------ the carry

  lemma {:induction false} CarryIsTail(chunks: seq<seq<byte>>)
    ensures CarryAfter(chunks) == Tail(Flatten(chunks))
  {
    if chunks != [] {
      var init, last := chunks[..|chunks| - 1], chunks[|chunks| - 1];
      CarryIsTail(init);
      TailStep(Flatten(init), last);
      hide Tail;
    }
  }

  lemma TailStep(a: seq<byte>, b: seq<byte>)
    ensures Tail(Tail(a) + b) == Tail(a + b)
  {
    var whole, part := a + b, Tail(a) + b;
    assert part == whole[|whole| - |part|..];
  }

  lemma OccursWithin(m: Pattern, part: seq<byte>, whole: seq<byte>, at: nat)
    requires at + |part| <= |whole| && part == whole[at..at + |part|] && Occurs(m, part)
    ensures Occurs(m, whole)
  {
    var i, j :| MatchAt(m, part, i, j);
    SliceOfSlice(whole, at, at + |part|, i, j);
    assert MatchAt(m, whole, at + i, at + j);
  }

  /** A report is never wrong. */
  lemma {:induction false} ReportsOnlyMatches(m: Pattern, chunks: seq<seq<byte>>)
    requires Reports(m, chunks)
    ensures Occurs(m, Flatten(chunks))
  {
    var init, last := chunks[..|chunks| - 1], chunks[|chunks| - 1];
    if Reports(m, init) {
      ReportsOnlyMatches(m, init);
      OccursWithin(m, Flatten(init), Flatten(chunks), 0);
    } else {
      CarryIsTail(init);
      var part := CarryAfter(init) + last;
      OccursWithin(m, part, Flatten(chunks), |Flatten(chunks)| - |part|);
    }
  }

  lemma ShortOccurrence(m: Pattern, t: seq<byte>) returns (i: nat, j: nat)
    requires Bridged(m) && Occurs(m, t)
    ensures MatchAt(m, t, i, j) && j - i <= CARRY + 1
  {
    hide Bridged;
    var a, b :| MatchAt(m, t, a, b);
    var w := t[a..b];
    BridgedAt(m, w);
    var c, d :| MatchAt(m, w, c, d) && d - c <= CARRY + 1;
    i, j := a + c, a + d;
    SliceOfSlice(t, a, b, c, d);
  }

  /** When every match contains a short one, no chunking hides a match. */
  lemma {:induction false} NothingMissed(m: Pattern, chunks: seq<seq<byte>>)
    requires Bridged(m) && !m([]) && Occurs(m, Flatten(chunks))
    ensures Reports(m, chunks)
  {
    hide Bridged;
    var t := Flatten(chunks);
    var i, j := ShortOccurrence(m, t);
    if chunks == [] {
      assert false;
      return;
    }
    var init, last := chunks[..|chunks| - 1], chunks[|chunks| - 1];
    var n := |Flatten(init)|;
    if j <= n {
      assert Flatten(init)[i..j] == t[i..j];
      assert MatchAt(m, Flatten(init), i, j);
      NothingMissed(m, init);
    } else {
      CarryIsTail(init);
      var part := CarryAfter(init) + last;
      var skip := |t| - |part|;
      assert skip <= i && part == t[skip..|t|];
      SliceOfSlice(t, skip, |t|, i - skip, j - skip);
      assert MatchAt(m, part, i - skip, j - skip);
    }
  }

  // ------------------------------------------------------------ exactly when

  /** A matching string none of whose proper substrings matches. */
  ghost predicate Minimal(m: Pattern, w: seq<byte>) {
    m(w) && forall i, j :: MatchAt(m, w, i, j) ==> j - i == |w|
  }

  lemma {:induction false} MinimalWithin(m: Pattern, w: seq<byte>) returns (v: seq<byte>)
    requires m(w)
    requires forall i, j :: MatchAt(m, w, i, j) ==> j - i > CARRY + 1
    ensures Minimal(m, v) && |v| > CARRY + 1
    decreases |w|
  {
    if Minimal(m, w) {
      assert w[0..|w|] == w && MatchAt(m, w, 0, |w|);
      return w;
    }
    var a, b :| MatchAt(m, w, a, b) && b - a != |w|;
    var u := w[a..b];
    forall i, j | MatchAt(m, u, i, j) ensures j - i > CARRY + 1 {
      SliceOfSlice(w, a, b, i, j);
      assert MatchAt(m, w, a + i, a + j);
    }
    v := MinimalWithin(m, u);
  }

  /** A string read one byte at a time. */
  function Bytewise(w: seq<byte>): seq<seq<byte>> {
    if w == [] then [] else Bytewise(w[..|w| - 1]) + [[w[|w| - 1]]]
  }

  lemma {:induction false} BytewiseFlat(w: seq<byte>)
    ensures Flatten(Bytewise(w)) == w
  {
    if w != [] {
      BytewiseFlat(w[..|w| - 1]);
      assert w == w[..|w| - 1] + [w[|w| - 1]];
    }
  }

  lemma MinimalPart(m: Pattern, v: seq<byte>, at: nat, n: nat)
    requires Minimal(m, v) && at <= n <= |v| && n - at < |v|
    ensures !Occurs(m, v[at..n])
  {
    hide Minimal, MatchAt;
    if Occurs(m, v[at..n]) {
      var i, j :| MatchAt(m, v[at..n], i, j);
      MinimalAt(m, v, at, n, i, j);
    }
  }

  lemma MinimalAt(m: Pattern, v: seq<byte>, at: nat, n: nat, i: int, j: int)
    requires Minimal(m, v) && at <= n <= |v| && n - at < |v|
    ensures !MatchAt(m, v[at..n], i, j)
  {
    if MatchAt(m, v[at..n], i, j) {
      SliceOfSlice(v, at, n, i, j);
      assert MatchAt(m, v, at + i, at + j);
      assert false;
    }
  }

  lemma BytewiseStep(v: seq<byte>, n: nat)
    requires 0 < n <= |v|
    ensures Bytewise(v[..n]) == Bytewise(v[..n - 1]) + [[v[n - 1]]]
  {
    assert v[..n][..n - 1] == v[..n - 1];
  }

  lemma CarriedSlice(v: seq<byte>, n: nat) returns (at: nat)
    requires 0 < n <= |v|
    ensures at < n && n - at <= CARRY + 1 && Tail(v[..n - 1]) + [v[n - 1]] == v[at..n]
  {
    at := if n - 1 <= CARRY then 0 else n - 1 - CARRY;
    assert Tail(v[..n - 1]) == v[at..n - 1];
  }

  lemma ReportsStep(m: Pattern, init: seq<seq<byte>>, last: seq<byte>)
    ensures Reports(m, init + [last]) <==> Reports(m, init) || Occurs(m, CarryAfter(init) + last)
  {
    hide Occurs, CarryAfter;
    assert (init + [last])[..|init|] == init;
  }

  lemma {:induction false} BytewiseMisses(m: Pattern, v: seq<byte>, n: nat)
    requires Minimal(m, v) && |v| > CARRY + 1 && n <= |v|
    ensures !Reports(m, Bytewise(v[..n]))
  {
    if n > 0 {
      hide Minimal, Occurs, Tail, CarryAfter, Flatten, Bytewise, Reports;
      var init := Bytewise(v[..n - 1]);
      BytewiseMisses(m, v, n - 1);
      BytewiseStep(v, n);
      BytewiseFlat(v[..n - 1]);
      CarryIsTail(init);
      var at := CarriedSlice(v, n);
      MinimalPart(m, v, at, n);
      ReportsStep(m, init, [v[n - 1]]);
    }
  }

  /** For a pattern that cannot match nothing: the scan reports exactly the matches of the whole, for
      every chunking of the reads, if and only if every match contains one of at most CARRY + 1 bytes. */
  lemma ScanIsExact(m: Pattern)
    requires !m([])
    ensures (forall chunks :: Reports(m, chunks) <==> Occurs(m, Flatten(chunks))) <==> Bridged(m)
  {
    if Bridged(m) {
      forall chunks ensures Reports(m, chunks) <==> Occurs(m, Flatten(chunks)) {
        if Reports(m, chunks) {
          ReportsOnlyMatches(m, chunks);
        } else if Occurs(m, Flatten(chunks)) {
          NothingMissed(m, chunks);
        }
      }
    } else {
      var w :| m(w) && !HasShort(m, w);
      var v := MinimalWithin(m, w);
      BytewiseFlat(v);
      BytewiseMisses(m, v, |v|);
      assert v[..|v|] == v && MatchAt(m, v, 0, |v|);
      assert Occurs(m, Flatten(Bytewise(v))) && !Reports(m, Bytewise(v));
    }
  }

  /** For a literal pattern that is: at most CARRY + 1 bytes. */
  lemma LiteralIsExact(p: seq<byte>)
    requires p != []
    ensures var m := (w: seq<byte>) => w == p;
            (forall chunks :: Reports(m, chunks) <==> Occurs(m, Flatten(chunks))) <==> |p| <= CARRY + 1
  {
    var m := (w: seq<byte>) => w == p;
    ScanIsExact(m);
    if |p| <= CARRY + 1 {
      assert p[0..|p|] == p && MatchAt(m, p, 0, |p|);
      assert HasShort(m, p);
    } else {
      assert m(p);
      assert !HasShort(m, p);
    }
  }

  /** A pattern that matches nothing at all is reported on the first read. */
  lemma EmptyMatchReported(m: Pattern, chunks: seq<seq<byte>>)
    requires m([])
    ensures Reports(m, chunks) <==> chunks != []
  {
    if chunks != [] {
      var text := CarryAfter(chunks[..|chunks| - 1]) + chunks[|chunks| - 1];
      assert text[0..0] == [] && MatchAt(m, text, 0, 0);
    }
  }

  // ------------------------------------------------------------ the scanner

  /** A job's output as its watchers see it: time passes, and only the pipe's own steps happen. */
  class Output {
    var pipe: Pipe

    constructor ()
      ensures pipe == OPENED
    {
      pipe := OPENED;
    }

    method Elapse()
      requires Inv(pipe)
      modifies this
      ensures Inv(pipe) && Later(old(pipe), pipe)
    {
      var run: seq<Step> := *;
      if Exec(pipe, run).Some? {
        ExecKeepsInv(pipe, run);
        pipe := Exec(pipe, run).value;
      }
    }
  }

  class LogScanner {
    ghost const pattern: Pattern
    const search: seq<byte> -> bool
    var offset: nat
    var carry: seq<byte>
    ghost var chunks: seq<seq<byte>>

    /** Everything before `offset` was searched in vain. */
    ghost predicate Valid(out: Output)
      reads this, out
    {
      && (forall t :: search(t) <==> Occurs(pattern, t))
      && Inv(out.pipe) && offset <= |Artifact(out.pipe)|
      && Flatten(chunks) == Artifact(out.pipe)[..offset]
      && carry == CarryAfter(chunks)
      && !Reports(pattern, chunks)
    }

    constructor (ghost pattern: Pattern, search: seq<byte> -> bool, ghost out: Output)
      requires Inv(out.pipe) && forall t :: search(t) <==> Occurs(pattern, t)
      ensures Valid(out) && this.pattern == pattern
    {
      this.pattern, this.search := pattern, search;
      offset, carry, chunks := 0, [], [];
    }

    /** The next read: empty only at the end of the artifact; None when it fails. */
    method ReadChunk(out: Output) returns (res: Option<seq<byte>>)
      requires Valid(out)
      modifies out
      ensures Valid(out) && Later(old(out.pipe), out.pipe)
      ensures res.Some? ==> offset + |res.value| <= |Artifact(out.pipe)| && |res.value| <= CHUNK
      ensures res.Some? ==> res.value == Artifact(out.pipe)[offset..offset + |res.value|]
      ensures res.Some? ==> (res.value == [] <==> offset == |Artifact(out.pipe)|)
    {
      out.Elapse();
      ArtifactGrows(old(out.pipe), out.pipe);
      var file := Artifact(out.pipe);
      assert file[..offset] == Artifact(old(out.pipe))[..offset];
      var broken: bool := *;
      if broken {
        return None;
      }
      if offset == |file| {
        return Some([]);
      }
      var count: int := *;
      if !(0 < count <= CHUNK && offset + count <= |file|) {
        count := 1;
      }
      return Some(file[offset..offset + count]);
    }

    /** Search what was appended since the last scan, up to the end; None when a read failed, which loses
        nothing searched so far. It ends because the artifact is bounded. */
    method Scan(out: Output) returns (hit: Option<bool>)
      requires Valid(out)
      modifies this`offset, this`carry, this`chunks, out
      ensures Inv(out.pipe) && Later(old(out.pipe), out.pipe)
      ensures hit == Some(true) ==> Occurs(pattern, Artifact(out.pipe))
      ensures hit != Some(true) ==> Valid(out)
      ensures hit == Some(false) ==> Flatten(chunks) == Artifact(out.pipe)
    {
      hide Occurs, Kept, Tail, Next, Exec;
      while true
        invariant Valid(out) && Later(old(out.pipe), out.pipe)
        decreases ARTIFACT_LIMIT - offset
      {
        ghost var before := out.pipe;
        var read := ReadChunk(out);
        ArtifactGrows(old(out.pipe), out.pipe);
        if read.None? {
          return None;
        }
        var chunk := read.value;
        if chunk == [] {
          return Some(false);
        }
        ghost var more := chunks + [chunk];
        assert more[..|chunks|] == chunks;
        offset := offset + |chunk|;
        var text := carry + chunk;
        if search(text) {
          ReportsOnlyMatches(pattern, more);
          OccursWithin(pattern, Flatten(more), Artifact(out.pipe), 0);
          return Some(true);
        }
        carry := Tail(text);
        chunks := more;
      }
    }
  }

  datatype Watched = Hit | Exited | Broken | Waiting

  /** Scan again whenever something may have changed. The exit flag is sampled before the scan it
      makes the last one, so `Exited` speaks for the whole output. A failed read ends the watch. */
  method WatchLog(out: Output, scanner: LogScanner, live: bool) returns (seen: Watched)
    requires scanner.Valid(out) && !scanner.pattern([])
    modifies out, scanner`offset, scanner`carry, scanner`chunks
    ensures Inv(out.pipe) && Later(old(out.pipe), out.pipe)
    ensures seen.Hit? ==> Occurs(scanner.pattern, Artifact(out.pipe))
    ensures seen.Exited? && Bridged(scanner.pattern) ==> !Occurs(scanner.pattern, Artifact(out.pipe))
    ensures seen.Exited? && live ==> out.pipe.announced
    ensures seen.Exited? && Bridged(scanner.pattern) && out.pipe.drained ==>
              out.pipe.exitAt.Some? && !Occurs(scanner.pattern, LeaderOutput(out.pipe))
  {
    var patience: int := *;
    while patience > 0
      invariant scanner.Valid(out) && Later(old(out.pipe), out.pipe)
      decreases patience
    {
      patience := patience - 1;
      var finished := !live || out.pipe.announced;
      var hit := scanner.Scan(out);
      if hit.None? {
        return Watched.Broken;
      }
      if hit.value {
        return Hit;
      }
      if finished {
        Unmatched(scanner.pattern, scanner.chunks, out.pipe);
        return Exited;
      }
    }
    return Waiting;
  }

  lemma Unmatched(m: Pattern, chunks: seq<seq<byte>>, p: Pipe)
    requires Inv(p) && Flatten(chunks) == Artifact(p) && !Reports(m, chunks) && !m([])
    ensures Bridged(m) ==> !Occurs(m, Artifact(p))
    ensures Bridged(m) && p.drained ==> p.exitAt.Some? && !Occurs(m, LeaderOutput(p))
  {
    if Bridged(m) {
      if Occurs(m, Artifact(p)) {
        NothingMissed(m, chunks);
      }
      if p.drained {
        DrainedHolds(p);
        if Occurs(m, LeaderOutput(p)) {
          OccursWithin(m, LeaderOutput(p), Artifact(p), 0);
        }
      }
    }
  }
}
