/** Matching command paths against hook patterns. */
module Glob {
  import opened Wrappers

  type Path = seq<string>

  datatype Segment = Literal(text: string) | Single | Globstar

  function Parse(segments: seq<string>): seq<Segment> {
    seq(|segments|, i requires 0 <= i < |segments| =>
      if segments[i] == "**" then Globstar else if segments[i] == "*" then Single else Literal(segments[i]))
  }

  predicate OnlyGlobstars(pattern: seq<Segment>) {
    forall s <- pattern :: s.Globstar?
  }

  predicate DoMatch(pattern: seq<Segment>, path: Path)
    decreases |pattern| + |path|
  {
    if pattern == [] then path == []
    else match pattern[0]
      case Globstar => DoMatch(pattern[1..], path) || (path != [] && DoMatch(pattern, path[1..]))
      case Literal(text) =>
        if path == [] then OnlyGlobstars(pattern) else text == path[0] && DoMatch(pattern[1..], path[1..])
      case Single =>
        if path == [] then OnlyGlobstars(pattern) else DoMatch(pattern[1..], path[1..])
  }

  /** The empty path is matched by globstars alone. */
  lemma {:induction false} EmptyPath(pattern: seq<Segment>)
    ensures DoMatch(pattern, []) <==> OnlyGlobstars(pattern)
  {
    if pattern != [] {
      EmptyPath(pattern[1..]);
      assert forall s :: s in pattern <==> s == pattern[0] || s in pattern[1..];
    }
  }

  // ------------------------------------------------------------ what matching means

  /** The pieces of a path one segment may take. */
  predicate Takes(s: Segment, piece: Path) {
    match s
    case Literal(text) => piece == [text]
    case Single => |piece| == 1
    case Globstar => true
  }

  predicate SplitBy(pattern: seq<Segment>, path: Path, pieces: seq<Path>) {
    && |pieces| == |pattern| && Flatten(pieces) == path
    && forall i :: 0 <= i < |pattern| ==> Takes(pattern[i], pieces[i])
  }

  lemma ConsSplit(s: Segment, rest: seq<Segment>, piece: Path, tail: Path, pieces: seq<Path>)
    requires Takes(s, piece) && SplitBy(rest, tail, pieces)
    ensures SplitBy([s] + rest, piece + tail, [piece] + pieces)
  {
    FlattenCons(piece, pieces);
  }

  lemma {:induction false} MatchSplits(pattern: seq<Segment>, path: Path) returns (pieces: seq<Path>)
    requires DoMatch(pattern, path)
    ensures SplitBy(pattern, path, pieces)
    decreases |pattern| + |path|
  {
    if pattern == [] {
      return [];
    }
    var rest := pattern[1..];
    assert pattern == [pattern[0]] + rest;
    if pattern[0].Globstar? {
      if DoMatch(rest, path) {
        var more := MatchSplits(rest, path);
        ConsSplit(Globstar, rest, [], path, more);
        assert [] + path == path;
        return [[]] + more;
      }
      var more := MatchSplits(pattern, path[1..]);
      pieces := more[0 := [path[0]] + more[0]];
      assert pieces[1..] == more[1..];
      assert path == [path[0]] + path[1..];
      FlattenFirst(pieces);
      FlattenFirst(more);
    } else {
      var more := MatchSplits(rest, path[1..]);
      ConsSplit(pattern[0], rest, [path[0]], path[1..], more);
      assert [path[0]] + path[1..] == path;
      pieces := [[path[0]]] + more;
    }
  }

  lemma {:induction false} SplitMatches(pattern: seq<Segment>, path: Path, pieces: seq<Path>)
    requires SplitBy(pattern, path, pieces)
    ensures DoMatch(pattern, path)
    decreases |pattern| + |path|
  {
    if pattern == [] {
      return;
    }
    var first, rest := pieces[0], pattern[1..];
    FlattenFirst(pieces);
    if pattern[0].Globstar? && first != [] {
      var shorter := pieces[0 := first[1..]];
      assert shorter[1..] == pieces[1..];
      FlattenFirst(shorter);
      assert path[1..] == first[1..] + Flatten(pieces[1..]);
      SplitMatches(pattern, path[1..], shorter);
    } else {
      assert path[|first|..] == Flatten(pieces[1..]);
      SplitMatches(rest, path[|first|..], pieces[1..]);
      assert first == [] ==> path[|first|..] == path;
    }
  }

  /** A pattern matches a path if and only if the path splits into consecutive pieces, one for each
      segment: an equal name for a literal, any one name for `*`, any number for `**`. */
  lemma MatchIsSplit(pattern: seq<Segment>, path: Path)
    ensures DoMatch(pattern, path) <==> exists pieces :: SplitBy(pattern, path, pieces)
  {
    if DoMatch(pattern, path) {
      var pieces := MatchSplits(pattern, path);
    } else if pieces :| SplitBy(pattern, path, pieces) {
      SplitMatches(pattern, path, pieces);
      assert false;
    }
  }

  /** A pattern written without wildcards matches exactly the path it spells. */
  lemma {:induction false} PlainPattern(segments: seq<string>, path: Path)
    requires "*" !in segments && "**" !in segments
    ensures DoMatch(Parse(segments), path) <==> path == segments
  {
    if segments == [] {
      assert Parse(segments) == [];
    } else {
      var pattern := Parse(segments);
      assert pattern[0] == Literal(segments[0]) && pattern[1..] == Parse(segments[1..]);
      assert pattern[0] in pattern;
      if path != [] {
        PlainPattern(segments[1..], path[1..]);
        assert path == [path[0]] + path[1..] && segments == [segments[0]] + segments[1..];
      }
    }
  }

  // ------------------------------------------------------------ patterns in sequence

  lemma {:induction false} Together(p: seq<Segment>, q: seq<Segment>, a: Path, b: Path)
    requires DoMatch(p, a) && DoMatch(q, b)
    ensures DoMatch(p + q, a + b)
    decreases |p| + |a|
  {
    if p == [] {
      assert p + q == q && a + b == b;
    } else {
      assert (p + q)[1..] == p[1..] + q;
      if p[0].Globstar? && DoMatch(p[1..], a) {
        Together(p[1..], q, a, b);
      } else {
        assert (a + b)[1..] == a[1..] + b;
        Together(if p[0].Globstar? then p else p[1..], q, a[1..], b);
      }
    }
  }

  lemma {:induction false} Apart(p: seq<Segment>, q: seq<Segment>, path: Path) returns (k: nat)
    requires DoMatch(p + q, path)
    ensures k <= |path| && DoMatch(p, path[..k]) && DoMatch(q, path[k..])
    decreases |p| + |path|
  {
    if p == [] {
      assert p + q == q && path[0..] == path;
      return 0;
    }
    assert (p + q)[1..] == p[1..] + q;
    if p[0].Globstar? && DoMatch(p[1..] + q, path) {
      k := Apart(p[1..], q, path);
    } else {
      var rest := path[1..];
      k := Apart(if p[0].Globstar? then p else p[1..], q, rest);
      assert path[..k + 1][1..] == rest[..k] && path[k + 1..] == rest[k..];
      k := k + 1;
    }
  }

  /** Patterns in sequence match a path if and only if some cut of it satisfies both. */
  lemma SequenceIsCut(p: seq<Segment>, q: seq<Segment>, path: Path)
    ensures DoMatch(p + q, path) <==> exists k :: 0 <= k <= |path| && DoMatch(p, path[..k]) && DoMatch(q, path[k..])
  {
    if DoMatch(p + q, path) {
      var k := Apart(p, q, path);
    }
    forall k | 0 <= k <= |path| && DoMatch(p, path[..k]) && DoMatch(q, path[k..])
      ensures DoMatch(p + q, path)
    {
      Together(p, q, path[..k], path[k..]);
      assert path[..k] + path[k..] == path;
    }
  }
}
