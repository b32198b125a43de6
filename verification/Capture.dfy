/** A process's output: collected from a pipe into a bounded artifact, announced as complete, and
    read back in pages. */
module Capture {
  import opened Wrappers
  import opened Framing

  const ARTIFACT_LIMIT: nat := 1024 * 1024
  const PAGE_LIMIT: nat := 24 * 1024
  const BUFFER: nat := 8192
  const MAX_OFFSET: nat := 0x7FFF_FFFF_FFFF_FFFF

  /** What the artifact keeps of everything read: its first mebibyte. */
  function Kept(read: seq<byte>): seq<byte> {
    if |read| <= ARTIFACT_LIMIT then read else read[..ARTIFACT_LIMIT]
  }

  // ------------------------------------------------------------ collecting

  datatype ReadResult = Data(bytes: seq<byte>) | Nothing | Interrupted | Broken

  /** One pass of the collecting loop: what supervision saw, what the pipe gave, whether to stop. */
  datatype Pass = Pass(exited: Option<bool>, read: ReadResult, stop: bool)

  datatype Ending = Running | Closed | Failed

  /** The bytes a list of passes reads from the pipe. */
  function BytesOf(passes: seq<Pass>): seq<byte> {
    if passes == [] then [] else
      var last := passes[|passes| - 1];
      BytesOf(passes[..|passes| - 1]) + if last.read.Data? then last.read.bytes else []
  }

  class Collector {
    var artifact: seq<byte>
    var remaining: nat
    var truncated: bool
    var announced: bool
    ghost var read: seq<byte>

    ghost predicate Valid()
      reads this
    {
      && artifact == Kept(read)
      && remaining == ARTIFACT_LIMIT - |artifact|
      && (truncated <==> |read| > ARTIFACT_LIMIT)
    }

    constructor ()
      ensures Valid() && read == [] && !announced
    {
      artifact, remaining, truncated, announced, read := [], ARTIFACT_LIMIT, false, false, [];
    }

    /** Copy what one read gave; whether there may be more at once, or None on an error. */
    method CopyAvailable(r: ReadResult) returns (more: Option<bool>)
      requires Valid()
      modifies this`artifact, this`remaining, this`truncated, this`read
      ensures Valid()
      ensures read == if r.Data? then old(read) + r.bytes else old(read)
      ensures more == match r case Data(b) => Some(b != []) case Nothing => Some(false)
                              case Interrupted => Some(true) case Broken => None
    {
      match r {
        case Data(bytes) =>
          if bytes == [] {
            assert read + bytes == read;
            return Some(false);
          }
          var keep := if |bytes| <= remaining then |bytes| else remaining;
          artifact := artifact + bytes[..keep];
          remaining := remaining - keep;
          if keep < |bytes| {
            truncated := true;
          }
          read := read + bytes;
          return Some(true);
        case Nothing => return Some(false);
        case Interrupted => return Some(true);
        case Broken => return None;
      }
    }

    /** Collect until told to stop. Whatever the pipe does, the artifact is the first mebibyte of what
        was read, and it is marked truncated if and only if more was read. */
    method CopyOutput(passes: seq<Pass>) returns (ending: Ending, used: nat)
      requires Valid() && read == [] && !announced
      modifies this
      ensures Valid() && used <= |passes| && read == BytesOf(passes[..used])
      ensures ending.Running? ==> used == |passes|
      ensures ending.Closed? ==> used > 0 && passes[used - 1].stop && !Continues(passes[used - 1])
      ensures announced <==> exists i :: 0 <= i < used && Announces(passes[i])
    {
      hide Kept;
      used := 0;
      while used < |passes|
        invariant used <= |passes| && Valid() && read == BytesOf(passes[..used])
        invariant announced <==> exists i :: 0 <= i < used && Announces(passes[i])
      {
        var pass := passes[used];
        assert passes[..used + 1][..used] == passes[..used];
        if pass.exited.None? {
          return Failed, used;
        }
        var more := CopyAvailable(pass.read);
        used := used + 1;
        if more.None? {
          return Failed, used;
        }
        if !more.value {
          if pass.exited.value {
            announced := true;
          }
          if pass.stop {
            return Closed, used;
          }
        }
      }
      return Running, used;
    }
  }

  /** The pass found more than it could take at once. */
  predicate Continues(p: Pass) {
    p.read.Interrupted? || (p.read.Data? && p.read.bytes != [])
  }

  /** The pass announces the exit: it first saw the leader gone and then found the pipe empty. */
  predicate Announces(p: Pass) {
    p.exited == Some(true) && !Continues(p) && !p.read.Broken?
  }

  // ------------------------------------------------------------ announcing exit

  /** Where the collecting thread is inside a pass; `exited` is what supervision saw in it. */
  datatype At = Ticking | Reading(exited: bool) | Deciding(exited: bool) | Done

  /** The pipe between the process group and the collecting thread. `stream` is everything ever
      written, `seen` how much of it was read, `exitAt` where it stood when the leader exited. */
  datatype Pipe = Pipe(
    stream: seq<byte>, seen: nat, exitAt: Option<nat>, stop: bool, at: At, announced: bool, drained: bool)

  datatype Step =
    | Write(bytes: seq<byte>) | LeaderExits | Stop
    | Tick(owned: bool) | Read(count: nat) | Retry | Empty | Decide | Announce

  const OPENED := Pipe([], 0, None, false, Ticking, false, false)

  function Artifact(p: Pipe): seq<byte>
    requires p.seen <= |p.stream|
  {
    Kept(p.stream[..p.seen])
  }

  /** What the artifact must hold for nothing the leader wrote to be missing. */
  function LeaderOutput(p: Pipe): seq<byte>
    requires p.exitAt.Some? && p.exitAt.value <= |p.stream|
  {
    Kept(p.stream[..p.exitAt.value])
  }

  /** `Stop` and `Announce` are the owner's: it stops the collector only once the group is dead, and
      announces the exit again once the collector has ended. */
  function Next(p: Pipe, s: Step): Option<Pipe> {
    match s
    case Write(bytes) => Some(p.(stream := p.stream + bytes))
    case LeaderExits => if p.exitAt.None? then Some(p.(exitAt := Some(|p.stream|))) else None
    case Stop => if p.exitAt.Some? then Some(p.(stop := true)) else None
    case Tick(owned) => if p.at.Ticking? then Some(p.(at := Reading(owned && p.exitAt.Some?))) else None
    case Read(n) =>
      if p.at.Reading? && 0 < n <= BUFFER && p.seen + n <= |p.stream|
      then Some(p.(seen := p.seen + n, at := Ticking)) else None
    case Retry => if p.at.Reading? then Some(p.(at := Ticking)) else None
    case Empty => if p.at.Reading? && p.seen == |p.stream| then Some(p.(at := Deciding(p.at.exited))) else None
    case Decide =>
      if p.at.Deciding?
      then Some(p.(announced := p.announced || p.at.exited, drained := p.drained || p.at.exited,
                   at := if p.stop then Done else Ticking))
      else None
    case Announce => if p.at.Done? then Some(p.(announced := true)) else None
  }

  function Exec(p: Pipe, run: seq<Step>): Option<Pipe> {
    if run == [] then Some(p)
    else match Exec(p, run[..|run| - 1])
      case Some(m) => Next(m, run[|run| - 1])
      case None => None
  }

  ghost predicate Inv(p: Pipe) {
    && p.seen <= |p.stream|
    && (p.exitAt.Some? ==> p.exitAt.value <= |p.stream|)
    && (p.stop ==> p.exitAt.Some?)
    && (p.at.Done? ==> p.stop)
    && (p.at.Reading? && p.at.exited ==> p.exitAt.Some?)
    && (p.at.Deciding? && p.at.exited ==> p.exitAt.Some? && p.exitAt.value <= p.seen)
    && (p.drained ==> p.exitAt.Some? && p.exitAt.value <= p.seen)
    && (p.announced ==> p.drained || p.at.Done?)
  }

  /** One pipe is a later moment of another. */
  ghost predicate Later(a: Pipe, b: Pipe) {
    && a.stream <= b.stream && a.seen <= b.seen
    && (a.exitAt.Some? ==> b.exitAt == a.exitAt)
    && (a.announced ==> b.announced) && (a.drained ==> b.drained) && (a.stop ==> b.stop)
  }

  lemma StepKeepsInv(p: Pipe, s: Step)
    requires Inv(p) && Next(p, s).Some?
    ensures Inv(Next(p, s).value) && Later(p, Next(p, s).value)
  {
  }

  lemma {:induction false} ExecKeepsInv(p: Pipe, run: seq<Step>)
    requires Inv(p) && Exec(p, run).Some?
    ensures Inv(Exec(p, run).value) && Later(p, Exec(p, run).value)
  {
    if run != [] {
      var init := run[..|run| - 1];
      ExecKeepsInv(p, init);
      StepKeepsInv(Exec(p, init).value, run[|run| - 1]);
    }
  }

  /** The artifact only ever grows at its end. */
  lemma ArtifactGrows(a: Pipe, b: Pipe)
    requires Inv(a) && Inv(b) && Later(a, b)
    ensures Artifact(a) <= Artifact(b) && |Artifact(b)| <= ARTIFACT_LIMIT
  {
    assert a.stream[..a.seen] == b.stream[..b.seen][..a.seen];
  }

  lemma DrainedHolds(p: Pipe)
    requires Inv(p) && p.drained
    ensures p.exitAt.Some? && LeaderOutput(p) <= Artifact(p)
  {
    assert p.stream[..p.exitAt.value] == p.stream[..p.seen][..p.exitAt.value];
  }

  /** When the collector itself announces the exit, in whatever interleaving, the artifact holds all
      the output of the leader that it retains. */
  lemma DrainedIsComplete(run: seq<Step>)
    requires Exec(OPENED, run).Some? && Exec(OPENED, run).value.drained
    ensures var p := Exec(OPENED, run).value;
            p.exitAt.Some? && p.seen <= |p.stream| && p.exitAt.value <= |p.stream| && LeaderOutput(p) <= Artifact(p)
  {
    ExecKeepsInv(OPENED, run);
    DrainedHolds(Exec(OPENED, run).value);
  }

  /** The owner's stop reached the collector after it found the pipe empty and before it decided,
      with leader output written in between. */
  predicate StoppedTooEarly(p: Pipe) {
    p.exitAt.Some? && p.at.Deciding? && p.seen < p.exitAt.value
  }

  /** After a stop the collector ends with all of the leader's output unless the stop came in exactly
      that window. */
  lemma {:induction false} StopKeepsOutput(p: Pipe, run: seq<Step>)
    requires Inv(p) && p.exitAt.Some? && !p.at.Done? && Exec(p.(stop := true), run).Some?
    requires Exec(p.(stop := true), run).value.at.Done?
    ensures Exec(p.(stop := true), run).value.seen >= p.exitAt.value <==> !StoppedTooEarly(p)
  {
    StopFate(p.(stop := true), run);
  }

  lemma {:induction false} StopFate(p: Pipe, run: seq<Step>)
    requires Inv(p) && p.stop && !p.at.Done? && Exec(p, run).Some?
    ensures var q := Exec(p, run).value;
            && q.stop && Inv(q) && Later(p, q)
            && (StoppedTooEarly(p) ==> q.seen == p.seen && (q.at == p.at || q.at.Done?))
            && (!StoppedTooEarly(p) && (q.at.Done? || q.at.Deciding?) ==> q.seen >= p.exitAt.value)
  {
    if run != [] {
      var init := run[..|run| - 1];
      StopFate(p, init);
      StepKeepsInv(Exec(p, init).value, run[|run| - 1]);
    }
  }

  /** The window is real: the exit is announced, the collector has ended, and the only byte the leader
      wrote is in no artifact. */
  lemma OutputCanBeMissed(b: byte)
    ensures var run := [Tick(true), Empty, Write([b]), LeaderExits, Stop, Decide, Announce];
            var end := Exec(OPENED, run);
            && end.Some? && end.value.announced && end.value.at.Done? && end.value.exitAt == Some(1)
            && end.value.stream == [b] && end.value.seen == 0 && !end.value.drained
  {
    var p0 := OPENED.(at := Reading(false));
    var p1 := p0.(at := Deciding(false));
    var p2 := p1.(stream := [b]);
    var p3 := p2.(exitAt := Some(1));
    var p4 := p3.(stop := true);
    var p5 := p4.(at := Done);
    assert [] + [b] == [b];
    var w := Write([b]);
    Then([], Tick(true), [Tick(true)], OPENED, p0);
    Then([Tick(true)], Empty, [Tick(true), Empty], p0, p1);
    Then([Tick(true), Empty], w, [Tick(true), Empty, w], p1, p2);
    Then([Tick(true), Empty, w], LeaderExits, [Tick(true), Empty, w, LeaderExits], p2, p3);
    var run := [Tick(true), Empty, w, LeaderExits, Stop];
    Then([Tick(true), Empty, w, LeaderExits], Stop, run, p3, p4);
    Then(run, Decide, [Tick(true), Empty, w, LeaderExits, Stop, Decide], p4, p5);
    Then([Tick(true), Empty, w, LeaderExits, Stop, Decide], Announce,
         [Tick(true), Empty, w, LeaderExits, Stop, Decide, Announce], p5, p5.(announced := true));
  }

  lemma Then(run: seq<Step>, s: Step, whole: seq<Step>, p: Pipe, q: Pipe)
    requires Exec(OPENED, run) == Some(p) && Next(p, s) == Some(q) && whole == run + [s]
    ensures Exec(OPENED, whole) == Some(q)
  {
    assert whole[..|run|] == run;
  }

  // ------------------------------------------------------------ paging

  datatype Page = Page(data: seq<byte>, offset: nat, next: nat, total: nat, before: nat, after: nat)

  function Monus(a: nat, b: nat): nat {
    if a <= b then 0 else a - b
  }

  /** A positional read: nothing past the end, an error past the kernel's offsets. */
  function ReadAt(file: seq<byte>, offset: nat, limit: nat): Option<seq<byte>> {
    if offset > MAX_OFFSET then None
    else if offset >= |file| then Some([])
    else if |file| - offset <= limit then Some(file[offset..])
    else Some(file[offset..offset + limit])
  }

  /** One page of an artifact, by default its tail. */
  function ReadPage(file: seq<byte>, offset: Option<nat>, limit: nat): Option<Page> {
    var start := if offset.Some? then offset.value else Monus(|file|, limit);
    match ReadAt(file, start, limit)
    case None => None
    case Some(data) =>
      var next := start + |data|;
      Some(Page(data, start, next, |file|, if start <= |file| then start else |file|, Monus(|file|, next)))
  }

  /** A page accounts for every byte of the artifact: those before it, its own, and those after it. */
  lemma PageAccounts(file: seq<byte>, offset: Option<nat>, limit: nat)
    requires ReadPage(file, offset, limit).Some?
    ensures var p := ReadPage(file, offset, limit).value;
            && p.before + |p.data| + p.after == p.total == |file|
            && file == file[..p.before] + p.data + file[|file| - p.after..]
            && |p.data| <= limit
  {
    var p := ReadPage(file, offset, limit).value;
    assert p.before + |p.data| == |file| - p.after;
  }

  /** Without an offset a page is the artifact's tail. */
  lemma DefaultIsTail(file: seq<byte>, limit: nat)
    requires |file| <= ARTIFACT_LIMIT
    ensures ReadPage(file, None, limit).Some?
    ensures var p := ReadPage(file, None, limit).value;
            p.after == 0 && |p.data| == (if |file| <= limit then |file| else limit)
  {
  }

  /** The limit an operation may ask for: 16 KiB unless given, never over the page limit, never zero. */
  function PageSize(requested: Option<nat>): Option<nat> {
    var n := if requested.Some? then requested.value else 16384;
    if n == 0 then None else Some(if n <= PAGE_LIMIT then n else PAGE_LIMIT)
  }

  /** Every page starts where the one before it ended, the first at the start. */
  predicate Chained(pages: seq<Page>) {
    && (pages != [] ==> pages[0].offset == 0)
    && forall i :: 0 < i < |pages| ==> pages[i].offset == pages[i - 1].next
  }

  /** Following `next` from the start gives the whole artifact back, with no gap and no overlap, in
      as many pages as it takes. */
  method FollowPages(file: seq<byte>, requested: Option<nat>) returns (pages: seq<Page>, all: seq<byte>)
    requires |file| <= ARTIFACT_LIMIT && PageSize(requested).Some?
    ensures all == file
    ensures forall i :: 0 <= i < |pages| ==> 0 < |pages[i].data| <= PAGE_LIMIT
    ensures Chained(pages)
    ensures pages != [] ==> pages[|pages| - 1].after == 0
  {
    var limit := PageSize(requested).value;
    var offset := 0;
    pages, all := [], [];
    while offset < |file|
      invariant offset <= |file| && all == file[..offset]
      invariant offset == if pages == [] then 0 else pages[|pages| - 1].next
      invariant forall i :: 0 <= i < |pages| ==> 0 < |pages[i].data| <= PAGE_LIMIT
      invariant Chained(pages)
      invariant pages != [] ==> pages[|pages| - 1].after == |file| - offset
    {
      var page := ReadPage(file, Some(offset), limit).value;
      PageAccounts(file, Some(offset), limit);
      pages := pages + [page];
      all := all + page.data;
      offset := page.next;
    }
  }
}
