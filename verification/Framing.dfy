/** The byte layer of the journal: one serialized record to a line.
    Records are generic; the serializer is a parameter about which only `Sound` is known. */
module Framing {
  import opened Wrappers

  newtype byte = x: int | 0 <= x < 256

  const NEWLINE: byte := 10
  const LIMIT: nat := 1024 * 1024

  datatype Codec<!T> = Codec(encode: T -> seq<byte>, decode: seq<byte> -> Option<T>)

  /** Part of one encoding, from its start. */
  ghost predicate Piece<T(!new)>(c: Codec<T>, p: seq<byte>) {
    p != [] && exists t :: p <= c.encode(t)
  }

  ghost predicate Pieces<T(!new)>(c: Codec<T>, ps: seq<seq<byte>>) {
    forall p <- ps :: Piece(c, p)
  }

  /** Compact JSON: never empty, no raw newline, and decoding inverts encoding. */
  ghost predicate Inverts<T(!new)>(c: Codec<T>) {
    forall t :: c.encode(t) != [] && NEWLINE !in c.encode(t) && c.decode(c.encode(t)) == Some(t)
  }

  /** Objects: one begun anew inside another that was cut short, or behind it, never makes an object. */
  ghost predicate Unmixed<T(!new)>(c: Codec<T>) {
    forall ps :: |ps| >= 2 && Pieces(c, ps) ==> c.decode(Flatten(ps)) == None
  }

  ghost predicate Sound<T(!new)>(c: Codec<T>) {
    Inverts(c) && Unmixed(c)
  }

  datatype ReadError = TooLong | Interrupted | Malformed
  datatype Read<+T> = End | Got(record: T, rest: seq<byte>) | Bad(error: ReadError)

  predicate Accepted<T>(c: Codec<T>, t: T) {
    |c.encode(t)| <= LIMIT
  }

  function Frame<T>(c: Codec<T>, t: T): seq<byte> {
    c.encode(t) + [NEWLINE]
  }

  function Frames<T>(c: Codec<T>, ts: seq<T>): seq<byte> {
    if ts == [] then [] else Frames(c, ts[..|ts| - 1]) + Frame(c, ts[|ts| - 1])
  }

  /** What `take(LIMIT + 2).read_until(b'\n')` consumes: up to the first newline, within the bound. */
  function TakeLine(s: seq<byte>, bound: nat): (line: seq<byte>)
    ensures line <= s && |line| <= bound
  {
    if s == [] || bound == 0 then []
    else if s[0] == NEWLINE then [s[0]]
    else [s[0]] + TakeLine(s[1..], bound - 1)
  }

  /** The next record, skipping blank lines. */
  function ReadRecord<T>(c: Codec<T>, s: seq<byte>): (r: Read<T>)
    ensures r.Got? ==> |r.rest| < |s|
    decreases |s|
  {
    var line := TakeLine(s, LIMIT + 2);
    if line == [] then End
    else if |line| > LIMIT + 1 then Bad(TooLong)
    else if line[|line| - 1] != NEWLINE then Bad(Interrupted)
    else if |line| == 1 then ReadRecord(c, s[1..])
    else match c.decode(line[..|line| - 1])
      case Some(t) => Got(t, s[|line|..])
      case None => Bad(Malformed)
  }

  /** The reader's loop over blank lines computes `ReadRecord`. */
  method ReadNext<T>(c: Codec<T>, s: seq<byte>) returns (r: Read<T>)
    ensures r == ReadRecord(c, s)
  {
    var rest := s;
    while true
      invariant |rest| <= |s|
      invariant ReadRecord(c, rest) == ReadRecord(c, s)
      decreases |rest|
    {
      var line := TakeLine(rest, LIMIT + 2);
      if line == [] {
        return End;
      }
      if |line| > LIMIT + 1 {
        return Bad(TooLong);
      }
      if line[|line| - 1] != NEWLINE {
        return Bad(Interrupted);
      }
      var bytes := line[..|line| - 1];
      if bytes != [] {
        match c.decode(bytes) {
          case Some(t) => return Got(t, rest[|line|..]);
          case None => return Bad(Malformed);
        }
      }
      rest := rest[1..];
    }
  }

  /** Every record of a file, or the first thing wrong with it. */
  function ReadAll<T>(c: Codec<T>, s: seq<byte>): Result<seq<T>, ReadError>
    decreases |s|
  {
    match ReadRecord(c, s)
    case End => Success([])
    case Bad(e) => Failure(e)
    case Got(t, rest) => After([t], ReadAll(c, rest))
  }

  /** `ts` read before whatever `r` reports. */
  function After<T>(ts: seq<T>, r: Result<seq<T>, ReadError>): Result<seq<T>, ReadError> {
    match r
    case Success(us) => Success(ts + us)
    case Failure(e) => Failure(e)
  }

  /** The writer: a record over the limit is refused before any byte is written. */
  method WriteRecord<T>(c: Codec<T>, t: T) returns (r: Result<seq<byte>, ReadError>)
    ensures r.Success? <==> Accepted(c, t)
    ensures r.Success? ==> r.value == Frame(c, t) && |r.value| <= LIMIT + 1
  {
    var bytes := c.encode(t);
    if |bytes| > LIMIT {
      return Failure(TooLong);
    }
    bytes := bytes + [NEWLINE];
    return Success(bytes);
  }

  // ---------------------------------------------------------------- lemmas

  lemma {:induction false} FramesAppend<T>(c: Codec<T>, a: seq<T>, b: seq<T>)
    ensures Frames(c, a + b) == Frames(c, a) + Frames(c, b)
  {
    if b == [] {
      assert a + b == a;
    } else {
      var n := |a + b|;
      FramesAppend(c, a, b[..|b| - 1]);
      assert (a + b)[..n - 1] == a + b[..|b| - 1];
      assert (a + b)[n - 1] == b[|b| - 1];
    }
  }

  lemma WholeFrames<T>(c: Codec<T>, ts: seq<T>, t: T)
    ensures Frames(c, ts + [t]) == Frames(c, ts) + Frame(c, t)
  {
    assert (ts + [t])[..|ts|] == ts;
  }

  lemma {:induction false} TakeLineStops(body: seq<byte>, rest: seq<byte>, bound: nat)
    requires NEWLINE !in body && |body| < bound
    ensures TakeLine(body + [NEWLINE] + rest, bound) == body + [NEWLINE]
  {
    var s := body + [NEWLINE] + rest;
    if body != [] {
      assert s[1..] == body[1..] + [NEWLINE] + rest;
      TakeLineStops(body[1..], rest, bound - 1);
    }
  }

  /** One accepted record in front of anything is read back exactly. */
  lemma ReadFrame<T(!new)>(c: Codec<T>, t: T, rest: seq<byte>)
    requires Sound(c) && Accepted(c, t)
    ensures ReadRecord(c, Frame(c, t) + rest) == Got(t, rest)
  {
    TakeLineStops(c.encode(t), rest, LIMIT + 2);
    var s := Frame(c, t) + rest;
    assert s == c.encode(t) + [NEWLINE] + rest;
    assert s[|Frame(c, t)|..] == rest;
    assert Frame(c, t)[..|Frame(c, t)| - 1] == c.encode(t);
  }

  lemma ReadAllFrame<T(!new)>(c: Codec<T>, t: T, rest: seq<byte>)
    requires Sound(c) && Accepted(c, t)
    ensures ReadAll(c, Frame(c, t) + rest) == After([t], ReadAll(c, rest))
  {
    ReadFrame(c, t, rest);
  }

  lemma FramesFirst<T>(c: Codec<T>, ts: seq<T>)
    requires ts != []
    ensures Frames(c, ts) == Frame(c, ts[0]) + Frames(c, ts[1..])
  {
    FramesAppend(c, [ts[0]], ts[1..]);
    assert ts == [ts[0]] + ts[1..];
    assert Frames(c, [ts[0]]) == Frame(c, ts[0]);
  }

  /** Reading peels whole records off the front of a file, whatever follows them. */
  lemma {:induction false} ReadFrames<T(!new)>(c: Codec<T>, ts: seq<T>, tail: seq<byte>)
    requires Sound(c) && forall t <- ts :: Accepted(c, t)
    ensures ReadAll(c, Frames(c, ts) + tail) == After(ts, ReadAll(c, tail))
    decreases |ts|
  {
    hide Sound, ReadAll, ReadRecord;
    if ts == [] {
      assert Frames(c, ts) + tail == tail;
      assert forall us: seq<T> :: ts + us == us;
    } else {
      var rest := Frames(c, ts[1..]) + tail;
      assert Frames(c, ts) + tail == Frame(c, ts[0]) + rest by { FramesFirst(c, ts); }
      ReadAllFrame(c, ts[0], rest);
      ReadFrames(c, ts[1..], tail);
      AfterAfter(ts[0], ts[1..], ReadAll(c, tail));
      assert [ts[0]] + ts[1..] == ts;
    }
  }

  lemma AfterAfter<T>(t: T, ts: seq<T>, r: Result<seq<T>, ReadError>)
    ensures After([t], After(ts, r)) == After([t] + ts, r)
  {
    if r.Success? {
      assert [t] + (ts + r.value) == [t] + ts + r.value;
    }
  }

  /** Round trip: a file of accepted records reads back as exactly those records. */
  lemma RoundTrip<T(!new)>(c: Codec<T>, ts: seq<T>)
    requires Sound(c) && forall t <- ts :: Accepted(c, t)
    ensures ReadAll(c, Frames(c, ts)) == Success(ts)
  {
    ReadFrames(c, ts, []);
    assert Frames(c, ts) + [] == Frames(c, ts);
    assert ReadAll(c, []) == Success([]);
    assert ts + [] == ts;
  }

  lemma {:induction false} TakeLineWhole(s: seq<byte>, bound: nat)
    requires NEWLINE !in s && |s| <= bound
    ensures TakeLine(s, bound) == s
  {
    if s != [] {
      TakeLineWhole(s[1..], bound - 1);
    }
  }

  /** A write cut short anywhere inside one record is recognised as interrupted. */
  lemma TornFrame<T(!new)>(c: Codec<T>, t: T, cut: nat)
    requires Sound(c) && Accepted(c, t) && 0 < cut < |Frame(c, t)|
    ensures ReadRecord(c, Frame(c, t)[..cut]) == Bad(Interrupted)
    ensures ReadAll(c, Frame(c, t)[..cut]) == Failure(Interrupted)
  {
    var s := Frame(c, t)[..cut];
    assert s == c.encode(t)[..cut];
    TakeLineWhole(s, LIMIT + 2);
  }

  /** A file after a write of `t` onto `ts` was cut after `cut` bytes: the old records, all the
      records, or the interrupted-write error; never a different record. */
  lemma TornAppend<T(!new)>(c: Codec<T>, ts: seq<T>, t: T, cut: nat)
    requires Sound(c) && Accepted(c, t) && forall u <- ts :: Accepted(c, u)
    requires cut <= |Frame(c, t)|
    ensures cut == 0 ==> ReadAll(c, Frames(c, ts) + Frame(c, t)[..cut]) == Success(ts)
    ensures cut == |Frame(c, t)| ==>
              ReadAll(c, Frames(c, ts) + Frame(c, t)[..cut]) == Success(ts + [t])
    ensures 0 < cut < |Frame(c, t)| ==>
              ReadAll(c, Frames(c, ts) + Frame(c, t)[..cut]) == Failure(Interrupted)
  {
    var tail := Frame(c, t)[..cut];
    if cut == 0 {
      assert Frames(c, ts) + tail == Frames(c, ts);
      RoundTrip(c, ts);
    } else if cut == |Frame(c, t)| {
      assert tail == Frame(c, t);
      WholeAppend(c, ts, t);
    } else {
      assert ReadAll(c, tail) == Failure(Interrupted) by { TornFrame(c, t, cut); }
      ReadFrames(c, ts, tail);
    }
  }

  lemma WholeAppend<T(!new)>(c: Codec<T>, ts: seq<T>, t: T)
    requires Sound(c) && Accepted(c, t) && forall u <- ts :: Accepted(c, u)
    ensures Frames(c, ts + [t]) == Frames(c, ts) + Frame(c, t)
    ensures ReadAll(c, Frames(c, ts) + Frame(c, t)) == Success(ts + [t])
  {
    WholeFrames(c, ts, t);
    RoundTrip(c, ts + [t]);
  }

  /** How many whole records lie within the first `cut` bytes. */
  function WholeWithin<T>(c: Codec<T>, ts: seq<T>, cut: nat): (k: nat)
    ensures k <= |ts| && |Frames(c, ts[..k])| <= cut
    ensures k < |ts| ==> cut < |Frames(c, ts[..k + 1])|
  {
    if ts == [] || |Frames(c, ts)| <= cut then
      assert ts[..|ts|] == ts;
      |ts|
    else
      var init := ts[..|ts| - 1];
      var k := WholeWithin(c, init, cut);
      assert init[..k] == ts[..k];
      assert if k < |init| then init[..k + 1] == ts[..k + 1] else ts[..k + 1] == ts;
      k
  }

  /** Every byte prefix of a file of accepted records reads as a prefix of the records when it
      ends at a record boundary, and as an interrupted write everywhere else. */
  lemma EveryPrefix<T(!new)>(c: Codec<T>, ts: seq<T>, cut: nat)
    requires Sound(c) && (forall t <- ts :: Accepted(c, t)) && cut <= |Frames(c, ts)|
    ensures var k := WholeWithin(c, ts, cut);
            ReadAll(c, Frames(c, ts)[..cut]) ==
            if cut == |Frames(c, ts[..k])| then Success(ts[..k]) else Failure(Interrupted)
  {
    hide ReadAll, ReadRecord, Frames;
    var k := WholeWithin(c, ts, cut);
    var whole := Frames(c, ts[..k]);
    if k == |ts| {
      assert ts[..k] == ts && Frames(c, ts)[..cut] == whole;
      RoundTrip(c, ts);
    } else {
      assert ts == ts[..k] + ts[k..] && ts[..k + 1] == ts[..k] + [ts[k]] && ts[k..][1..] == ts[k + 1..];
      assert |Frames(c, ts[..k + 1])| == |whole| + |Frame(c, ts[k])| by { WholeAppend(c, ts[..k], ts[k]); }
      assert Frames(c, ts) == whole + (Frame(c, ts[k]) + Frames(c, ts[k + 1..])) by {
        FramesAppend(c, ts[..k], ts[k..]);
        FramesFirst(c, ts[k..]);
      }
      PrefixOfSum(whole, Frame(c, ts[k]) + Frames(c, ts[k + 1..]), cut);
      assert Frames(c, ts)[..cut] == whole + Frame(c, ts[k])[..cut - |whole|];
      TornAppend(c, ts[..k], ts[k], cut - |whole|);
    }
  }

  lemma PrefixOfSum(a: seq<byte>, b: seq<byte>, cut: nat)
    requires |a| <= cut <= |a| + |b|
    ensures (a + b)[..cut] == a + b[..cut - |a|]
  {
  }

  // ---------------------------------------------------------------- writing on after a cut

  /** What a cut write leaves, and whatever is written behind it: pieces of records on one line, which
      a later whole record may end, and anything after that line. */
  ghost predicate DebrisOf<T(!new)>(c: Codec<T>, rest: seq<byte>, ps: seq<seq<byte>>, more: seq<byte>) {
    && ps != [] && Pieces(c, ps)
    && (rest == Flatten(ps) || (|ps| >= 2 && rest == Flatten(ps) + [NEWLINE] + more))
  }

  ghost predicate Debris<T(!new)>(c: Codec<T>, rest: seq<byte>) {
    exists ps, more :: DebrisOf(c, rest, ps, more)
  }

  lemma {:induction false} PiecesHaveNoNewline<T(!new)>(c: Codec<T>, ps: seq<seq<byte>>)
    requires Sound(c) && Pieces(c, ps)
    ensures NEWLINE !in Flatten(ps) && (ps != [] ==> Flatten(ps) != [])
  {
    if ps != [] {
      var init, last := ps[..|ps| - 1], ps[|ps| - 1];
      PiecesHaveNoNewline(c, init);
      assert Piece(c, last);
      var t :| last <= c.encode(t);
      assert forall b :: b in last ==> b in c.encode(t);
    }
  }

  lemma CutIsDebris<T(!new)>(c: Codec<T>, t: T, cut: nat)
    requires 0 < cut < |Frame(c, t)|
    ensures Debris(c, Frame(c, t)[..cut])
  {
    var p := Frame(c, t)[..cut];
    assert p == c.encode(t)[..cut];
    assert Piece(c, p);
    FlattenSnoc([], p);
    assert [] + [p] == [p] && [] + p == p && Flatten<byte>([]) == [];
    assert DebrisOf(c, p, [p], []);
  }

  lemma PieceAdded<T(!new)>(c: Codec<T>, ps: seq<seq<byte>>, t: T, p: seq<byte>)
    requires Pieces(c, ps) && p != [] && p <= c.encode(t)
    ensures Pieces(c, ps + [p]) && Flatten(ps + [p]) == Flatten(ps) + p
  {
    FlattenSnoc(ps, p);
    assert Piece(c, p);
  }

  lemma DebrisLonger<T(!new)>(c: Codec<T>, ps: seq<seq<byte>>, t: T, cut: nat)
    requires ps != [] && Pieces(c, ps) && c.encode(t) != [] && 0 < cut <= |Frame(c, t)|
    ensures Debris(c, Flatten(ps) + Frame(c, t)[..cut])
  {
    var added := Frame(c, t)[..cut];
    if cut <= |c.encode(t)| {
      PieceAdded(c, ps, t, added);
      assert DebrisOf(c, Flatten(ps) + added, ps + [added], []);
    } else {
      var p := c.encode(t);
      PieceAdded(c, ps, t, p);
      assert Flatten(ps) + added == Flatten(ps + [p]) + [NEWLINE] + [];
      assert DebrisOf(c, Flatten(ps) + added, ps + [p], []);
    }
  }

  /** Nothing written behind a cut record clears it away. */
  lemma DebrisGrows<T(!new)>(c: Codec<T>, rest: seq<byte>, t: T, cut: nat)
    requires Debris(c, rest) && c.encode(t) != [] && cut <= |Frame(c, t)|
    ensures Debris(c, rest + Frame(c, t)[..cut])
  {
    hide Pieces, Flatten;
    var ps, more :| DebrisOf(c, rest, ps, more);
    var added := Frame(c, t)[..cut];
    if cut == 0 {
      assert rest + added == rest;
    } else if rest == Flatten(ps) {
      DebrisLonger(c, ps, t, cut);
    } else {
      assert rest + added == Flatten(ps) + [NEWLINE] + (more + added);
      assert DebrisOf(c, rest + added, ps, more + added);
    }
  }

  lemma {:induction false} TakeLineFull(s: seq<byte>, rest: seq<byte>, bound: nat)
    requires NEWLINE !in s && |s| >= bound
    ensures TakeLine(s + rest, bound) == s[..bound]
  {
    if bound > 0 {
      assert (s + rest)[1..] == s[1..] + rest;
      TakeLineFull(s[1..], rest, bound - 1);
      assert s[..bound] == [s[0]] + s[1..][..bound - 1];
    }
  }

  lemma LongLineRefused<T>(c: Codec<T>, line: seq<byte>, tail: seq<byte>)
    requires NEWLINE !in line && |line| >= LIMIT + 2
    ensures ReadRecord(c, line + tail) == Bad(TooLong)
  {
    TakeLineFull(line, tail, LIMIT + 2);
  }

  lemma OpenLineRefused<T>(c: Codec<T>, line: seq<byte>)
    requires NEWLINE !in line && line != [] && |line| <= LIMIT + 1
    ensures ReadRecord(c, line) == Bad(Interrupted)
  {
    TakeLineWhole(line, LIMIT + 2);
  }

  lemma BadLineRefused<T>(c: Codec<T>, line: seq<byte>, tail: seq<byte>)
    requires NEWLINE !in line && line != [] && |line| <= LIMIT + 1 && c.decode(line) == None
    ensures ReadRecord(c, line + [NEWLINE] + tail).Bad?
  {
    TakeLineStops(line, tail, LIMIT + 2);
    assert (line + [NEWLINE])[..|line|] == line;
  }

  /** Debris is never read as a record. */
  lemma DebrisRefused<T(!new)>(c: Codec<T>, rest: seq<byte>)
    requires Sound(c) && Debris(c, rest)
    ensures ReadRecord(c, rest).Bad?
  {
    hide ReadRecord, Flatten, Inverts;
    var ps, more :| DebrisOf(c, rest, ps, more);
    var line := Flatten(ps);
    PiecesHaveNoNewline(c, ps);
    if rest == line {
      if |line| >= LIMIT + 2 {
        LongLineRefused(c, line, []);
        assert line + [] == line;
      } else {
        OpenLineRefused(c, line);
      }
    } else if |line| >= LIMIT + 2 {
      LongLineRefused(c, line, [NEWLINE] + more);
      assert line + [NEWLINE] + more == line + ([NEWLINE] + more);
    } else {
      BadLineRefused(c, line, more);
    }
  }

  /** Once a write was cut, the file is refused for good, whatever is written behind it. */
  lemma DebrisStays<T(!new)>(c: Codec<T>, ts: seq<T>, rest: seq<byte>)
    requires Sound(c) && (forall t <- ts :: Accepted(c, t)) && Debris(c, rest)
    ensures ReadAll(c, Frames(c, ts) + rest).Failure?
  {
    DebrisRefused(c, rest);
    ReadFrames(c, ts, rest);
  }
}
