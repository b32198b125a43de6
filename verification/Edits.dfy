/** Replacing several texts of one file at once. */
module Edits {
  import opened Wrappers

  datatype Edit = Edit(find: string, put: string)
  datatype EditError = Empty(index: nat) | NotFound(index: nat) | NotUnique(index: nat, count: nat)
                     | Overlap(index: nat) | NoChange

  const BOM := ['\U{FEFF}']

  // ------------------------------------------------------------ line endings

  predicate CrlfAt(s: string, i: int) {
    0 <= i < |s| - 1 && s[i] == '\r' && s[i + 1] == '\n'
  }

  predicate HasCrlf(s: string) {
    exists i :: 0 <= i < |s| - 1 && CrlfAt(s, i)
  }

  /** Every CRLF as LF. */
  function Normalize(s: string): string {
    if s == "" then ""
    else if |s| >= 2 && s[0] == '\r' && s[1] == '\n' then "\n" + Normalize(s[2..])
    else [s[0]] + Normalize(s[1..])
  }

  /** Every LF as CRLF. */
  function Expand(s: string): string {
    if s == "" then "" else (if s[0] == '\n' then "\r\n" else [s[0]]) + Expand(s[1..])
  }

  function Render(crlf: bool, s: string): string {
    if crlf then Expand(s) else s
  }

  predicate Preceded(s: string, i: nat)
    requires i < |s|
  {
    s[i] == '\n' ==> i > 0 && s[i - 1] == '\r'
  }

  /** No line ends in CRLF, or all do. */
  predicate Uniform(s: string) {
    !HasCrlf(s) || forall i :: 0 <= i < |s| ==> Preceded(s, i)
  }

  lemma {:induction false} NormalizeWithout(s: string)
    requires !HasCrlf(s)
    ensures Normalize(s) == s
  {
    if s != "" {
      assert s == [s[0]] + s[1..];
      assert !CrlfAt(s, 0);
      assert forall i :: CrlfAt(s[1..], i) ==> CrlfAt(s, i + 1);
      NormalizeWithout(s[1..]);
    }
  }

  lemma PrecededRest(s: string, k: nat)
    requires 0 < k <= |s| && (k < |s| && s[k] == '\n' ==> s[k - 1] != '\r')
    requires forall i :: 0 <= i < k ==> Preceded(s, i)
    ensures (forall i :: 0 <= i < |s| ==> Preceded(s, i)) <==> forall i :: 0 <= i < |s[k..]| ==> Preceded(s[k..], i)
  {
    if forall i :: 0 <= i < |s| ==> Preceded(s, i) {
      forall i | 0 <= i < |s[k..]| ensures Preceded(s[k..], i) {
        assert Preceded(s, k + i);
      }
    }
    if forall i :: 0 <= i < |s[k..]| ==> Preceded(s[k..], i) {
      forall i | k <= i < |s| ensures Preceded(s, i) {
        assert Preceded(s[k..], i - k);
      }
    }
  }

  lemma {:induction false} ExpandNormalize(s: string)
    ensures Expand(Normalize(s)) == s <==> forall i :: 0 <= i < |s| ==> Preceded(s, i)
  {
    if s == "" {
    } else if |s| >= 2 && s[0] == '\r' && s[1] == '\n' {
      assert ("\n" + Normalize(s[2..]))[1..] == Normalize(s[2..]);
      assert s == "\r\n" + s[2..];
      ExpandNormalize(s[2..]);
      PrecededRest(s, 2);
    } else {
      assert ([s[0]] + Normalize(s[1..]))[1..] == Normalize(s[1..]);
      if s[0] == '\n' {
        assert !Preceded(s, 0);
        assert Expand(Normalize(s))[0] == '\r';
      } else {
        assert s == [s[0]] + s[1..];
        assert Expand(Normalize(s)) == [s[0]] + Expand(Normalize(s[1..]));
        ExpandNormalize(s[1..]);
        PrecededRest(s, 1);
      }
    }
  }

  /** Normalizing and rendering gives a text back if and only if its line endings are uniform. */
  lemma RenderRestores(body: string)
    ensures Render(HasCrlf(body), Normalize(body)) == body <==> Uniform(body)
  {
    if HasCrlf(body) {
      ExpandNormalize(body);
    } else {
      NormalizeWithout(body);
    }
  }

  lemma {:induction false} ExpandAppend(a: string, b: string)
    ensures Expand(a + b) == Expand(a) + Expand(b)
  {
    if a == "" {
      assert a + b == b;
    } else {
      assert (a + b)[1..] == a[1..] + b;
      ExpandAppend(a[1..], b);
    }
  }

  // ------------------------------------------------------------ finding

  predicate At(text: string, pat: string, i: int) {
    0 <= i <= i + |pat| <= |text| && text[i..i + |pat|] == pat
  }

  /** The first place at or after `from`. */
  function Find(text: string, pat: string, from: nat): (r: Option<nat>)
    ensures r.Some? ==> from <= r.value && At(text, pat, r.value)
                        && forall i :: from <= i < r.value ==> !At(text, pat, i)
    ensures r.None? ==> forall i :: from <= i ==> !At(text, pat, i)
    decreases |text| - from
  {
    if from + |pat| > |text| then None
    else if At(text, pat, from) then Some(from)
    else Find(text, pat, from + 1)
  }

  /** The places a left-to-right scan finds, each search starting where the last match ended. */
  function Matches(text: string, pat: string, from: nat): seq<nat>
    requires pat != ""
    decreases |text| - from
  {
    match Find(text, pat, from)
    case None => []
    case Some(i) => [i] + Matches(text, pat, i + |pat|)
  }

  ghost predicate OnlyAt(text: string, pat: string, i: nat) {
    At(text, pat, i) && forall j :: At(text, pat, j) ==> j == i
  }

  /** A proper prefix of the pattern that is also a suffix: what lets two matches overlap. */
  ghost predicate Border(pat: string, k: nat) {
    0 < k < |pat| && pat[k..] == pat[..|pat| - k]
  }

  lemma OverlapIsBorder(text: string, pat: string, i: nat, j: nat)
    requires At(text, pat, i) && At(text, pat, j) && i < j < i + |pat|
    ensures Border(pat, j - i)
  {
    var k := j - i;
    assert pat[k..] == text[j..i + |pat|];
    assert pat[..|pat| - k] == text[j..j + |pat|][..|pat| - k];
  }

  lemma BorderOverlaps(pat: string, k: nat)
    requires Border(pat, k)
    ensures var text := pat[..k] + pat;
            At(text, pat, 0) && At(text, pat, k) && Matches(text, pat, 0) == [0]
  {
    var text := pat[..k] + pat;
    assert pat == pat[..k] + pat[k..];
    assert text[..|pat|] == pat[..k] + pat[..|pat| - k];
    assert text[0..0 + |pat|] == text[..|pat|];
    assert text[k..k + |pat|] == pat;
    assert Matches(text, pat, |pat|) == [];
  }

  /** The promise that an accepted text occurs exactly once is kept for every file if and only if the
      text cannot overlap itself: the scan counts "aa" once in "aaa", where it occurs twice. */
  lemma AcceptedOnce(pat: string)
    requires pat != ""
    ensures (forall text :: |Matches(text, pat, 0)| == 1 <==> exists i :: OnlyAt(text, pat, i))
            <==> forall k: nat :: !Border(pat, k)
  {
    if k: nat :| Border(pat, k) {
      BorderOverlaps(pat, k);
      var text := pat[..k] + pat;
      assert |Matches(text, pat, 0)| == 1 && forall i :: !OnlyAt(text, pat, i);
    } else {
      forall text ensures |Matches(text, pat, 0)| == 1 <==> exists i :: OnlyAt(text, pat, i) {
        OneMatch(text, pat);
      }
    }
  }

  lemma OneMatch(text: string, pat: string)
    requires pat != "" && forall k: nat :: !Border(pat, k)
    ensures |Matches(text, pat, 0)| == 1 <==> exists i :: OnlyAt(text, pat, i)
  {
    var first := Find(text, pat, 0);
    if first.Some? {
      var i := first.value;
      forall j | At(text, pat, j) ensures j == i || j >= i + |pat| {
        if i < j < i + |pat| {
          OverlapIsBorder(text, pat, i, j);
        }
      }
      assert Matches(text, pat, 0) == [i] + Matches(text, pat, i + |pat|);
      if Find(text, pat, i + |pat|).None? {
        assert OnlyAt(text, pat, i);
      } else {
        assert At(text, pat, Find(text, pat, i + |pat|).value);
      }
    }
  }

  // ------------------------------------------------------------ replacing

  datatype Span = Span(start: nat, end: nat, put: string)
  datatype Placed = Placed(span: Span, index: nat)

  predicate Disjoint(a: Span, b: Span) {
    a.end <= b.start || b.end <= a.start
  }

  /** Where an edit goes in a normalized text, and what it puts there. */
  function Place(text: string, e: Edit): Span {
    var find := Normalize(e.find);
    match Find(text, find, 0)
    case Some(i) => Span(i, i + |find|, Normalize(e.put))
    case None => Span(0, 0, "")
  }

  ghost predicate Unique(text: string, e: Edit) {
    Normalize(e.find) != "" && |Matches(text, Normalize(e.find), 0)| == 1
  }

  ghost predicate Apart(spans: seq<Span>) {
    forall i, j :: 0 <= i < j < |spans| ==> Disjoint(spans[i], spans[j])
  }

  ghost predicate Compatible(text: string, edits: seq<Edit>) {
    forall i, j :: 0 <= i < j < |edits| ==> Disjoint(Place(text, edits[i]), Place(text, edits[j]))
  }

  ghost predicate Applicable(text: string, edits: seq<Edit>) {
    (forall e <- edits :: Unique(text, e)) && Compatible(text, edits)
  }

  function SpansOf(text: string, edits: seq<Edit>): set<Span> {
    set e | e in edits :: Place(text, e)
  }

  predicate Begins(s: Span, p: nat, length: nat) {
    s.start == p < s.end <= length
  }

  /** Every span replaced at once, reading the text character by character. */
  ghost function Replaced(text: string, spans: set<Span>, p: nat): string
    requires p <= |text|
    decreases |text| - p
  {
    if exists s :: s in spans && Begins(s, p, |text|) then
      var s :| s in spans && Begins(s, p, |text|);
      s.put + Replaced(text, spans, s.end)
    else if p == |text| then ""
    else [text[p]] + Replaced(text, spans, p + 1)
  }

  function Split(original: string): (string, string) {
    if BOM <= original then (BOM, original[|BOM|..]) else ("", original)
  }

  /** What applying the edits gives: None when they are refused. */
  ghost function Outcome(original: string, edits: seq<Edit>): Option<string> {
    var (bom, body) := Split(original);
    var text := Normalize(body);
    var edited := Replaced(text, SpansOf(text, edits), 0);
    if !Applicable(text, edits) || edited == text then None
    else Some(bom + Render(HasCrlf(body), edited))
  }

  /** Ordered and disjoint within `text[from..]`. */
  predicate Ordered(spans: seq<Span>, from: nat, length: nat) {
    if spans == [] then from <= length
    else from <= spans[0].start < spans[0].end <= length && Ordered(spans[1..], spans[0].end, length)
  }

  /** What the cursor loop builds from ordered spans. */
  function Splice(text: string, spans: seq<Span>, from: nat): string
    requires Ordered(spans, from, |text|)
  {
    if spans == [] then text[from..]
    else text[from..spans[0].start] + spans[0].put + Splice(text, spans[1..], spans[0].end)
  }

  lemma {:induction false} OrderedBounds(spans: seq<Span>, from: nat, length: nat)
    requires Ordered(spans, from, length)
    ensures forall s <- spans :: from <= s.start < s.end <= length
    ensures Apart(spans)
  {
    if spans != [] {
      OrderedBounds(spans[1..], spans[0].end, length);
      assert spans == [spans[0]] + spans[1..];
      forall i, j | 0 <= i < j < |spans| ensures Disjoint(spans[i], spans[j]) {
        assert spans[j] in spans[1..];
        if i > 0 {
          assert spans[i] == spans[1..][i - 1] && spans[j] == spans[1..][j - 1];
        }
      }
    }
  }

  lemma ReplacedHead(text: string, all: set<Span>, s: Span)
    requires s in all && Begins(s, s.start, |text|)
    requires forall t <- all :: t.start == s.start ==> t == s
    ensures Replaced(text, all, s.start) == s.put + Replaced(text, all, s.end)
  {
  }

  lemma ReplacedCopy(text: string, all: set<Span>, p: nat)
    requires p < |text| && forall t <- all :: t.start != p
    ensures Replaced(text, all, p) == [text[p]] + Replaced(text, all, p + 1)
  {
  }

  lemma SpliceStep(text: string, spans: seq<Span>, from: nat)
    requires Ordered(spans, from, |text|) && spans != []
    ensures Splice(text, spans, from) ==
            text[from..spans[0].start] + spans[0].put + Splice(text, spans[1..], spans[0].end)
  {
  }

  lemma SpliceRest(text: string, from: nat)
    requires from <= |text|
    ensures Splice(text, [], from) == text[from..]
  {
  }

  lemma Regroup(a: string, b: string, c: string, d: string)
    ensures a + b + c + d == a + (b + c + d)
  {
  }

  lemma SpliceCopy(text: string, spans: seq<Span>, from: nat)
    requires Ordered(spans, from, |text|) && from < |text| && (spans != [] ==> from < spans[0].start)
    ensures Ordered(spans, from + 1, |text|)
    ensures Splice(text, spans, from) == [text[from]] + Splice(text, spans, from + 1)
  {
    if spans == [] {
      assert text[from..] == [text[from]] + text[from + 1..];
    } else {
      hide Splice;
      SpliceStep(text, spans, from);
      SpliceStep(text, spans, from + 1);
      assert text[from..spans[0].start] == [text[from]] + text[from + 1..spans[0].start];
      Regroup([text[from]], text[from + 1..spans[0].start], spans[0].put, Splice(text, spans[1..], spans[0].end));
    }
  }

  /** The cursor loop is the simultaneous replacement. */
  lemma {:induction false} SpliceIsReplaced(text: string, spans: seq<Span>, all: set<Span>, from: nat)
    requires Ordered(spans, from, |text|)
    requires forall s <- spans :: s in all
    requires forall s <- all :: s in spans || s.start < from
    ensures Splice(text, spans, from) == Replaced(text, all, from)
    decreases |text| - from, 1
  {
    hide Replaced, Apart;
    OrderedBounds(spans, from, |text|);
    if spans == [] && from == |text| {
      ReplacedEnd(text, all);
    } else if spans != [] && spans[0].start == from {
      hide Splice;
      var head := spans[0];
      assert spans == [head] + spans[1..];
      OrderedBounds(spans[1..], head.end, |text|);
      ReplacedHead(text, all, head);
      SpliceStep(text, spans, from);
      SpliceIsReplaced(text, spans[1..], all, head.end);
      assert text[from..from] == "";
    } else {
      SpliceCopies(text, spans, all, from);
    }
  }

  lemma {:induction false} SpliceCopies(text: string, spans: seq<Span>, all: set<Span>, from: nat)
    requires Ordered(spans, from, |text|) && from < |text| && (spans != [] ==> from < spans[0].start)
    requires forall s <- spans :: s in all
    requires forall s <- all :: s in spans || s.start < from
    ensures Splice(text, spans, from) == Replaced(text, all, from)
    decreases |text| - from, 0
  {
    hide Replaced, Apart, Splice;
    SpliceCopy(text, spans, from);
    OrderedBounds(spans, from + 1, |text|);
    ReplacedCopy(text, all, from);
    SpliceIsReplaced(text, spans, all, from + 1);
  }

  lemma ReplacedEnd(text: string, all: set<Span>)
    ensures Replaced(text, all, |text|) == ""
  {
  }

  // ------------------------------------------------------------ ordering

  function Insert(p: Placed, ps: seq<Placed>): seq<Placed> {
    if ps == [] || p.span.start < ps[0].span.start then [p] + ps
    else [ps[0]] + Insert(p, ps[1..])
  }

  /** Stable ordering by start. */
  function SortByStart(ps: seq<Placed>): seq<Placed> {
    if ps == [] then [] else Insert(ps[|ps| - 1], SortByStart(ps[..|ps| - 1]))
  }

  ghost predicate Sorted(ps: seq<Placed>) {
    forall i, j :: 0 <= i < j < |ps| ==> ps[i].span.start <= ps[j].span.start
  }

  lemma {:induction false} InsertAdds(p: Placed, ps: seq<Placed>)
    ensures multiset(Insert(p, ps)) == multiset(ps) + multiset{p}
  {
    if ps != [] && ps[0].span.start <= p.span.start {
      InsertAdds(p, ps[1..]);
      assert ps == [ps[0]] + ps[1..];
    }
  }

  lemma {:induction false} InsertSorts(p: Placed, ps: seq<Placed>)
    requires Sorted(ps)
    ensures Sorted(Insert(p, ps))
  {
    if ps != [] && ps[0].span.start <= p.span.start {
      var rest := Insert(p, ps[1..]);
      InsertSorts(p, ps[1..]);
      forall j | 0 <= j < |rest| ensures ps[0].span.start <= rest[j].span.start {
        InsertAdds(p, ps[1..]);
        assert rest[j] in multiset(rest);
        assert rest[j] in multiset(ps[1..]) || rest[j] == p;
      }
      ConsSorted(ps[0], rest);
    }
  }

  lemma ConsSorted(p: Placed, ps: seq<Placed>)
    requires Sorted(ps) && forall j :: 0 <= j < |ps| ==> p.span.start <= ps[j].span.start
    ensures Sorted([p] + ps)
  {
  }

  lemma {:induction false} SortSorts(ps: seq<Placed>)
    ensures Sorted(SortByStart(ps)) && multiset(SortByStart(ps)) == multiset(ps)
  {
    if ps != [] {
      SortSorts(ps[..|ps| - 1]);
      InsertSorts(ps[|ps| - 1], SortByStart(ps[..|ps| - 1]));
      InsertAdds(ps[|ps| - 1], SortByStart(ps[..|ps| - 1]));
      assert ps == ps[..|ps| - 1] + [ps[|ps| - 1]];
    }
  }

  function Spans(ps: seq<Placed>): seq<Span> {
    seq(|ps|, i requires 0 <= i < |ps| => ps[i].span)
  }

  /** In start order, spans that never reach into their successor are ordered and disjoint. */
  lemma {:induction false} NeighboursSuffice(spans: seq<Span>, from: nat, length: nat)
    requires from <= length && (forall s <- spans :: s.start < s.end <= length)
    requires spans != [] ==> from <= spans[0].start
    requires forall i :: 0 < i < |spans| ==> spans[i - 1].end <= spans[i].start
    ensures Ordered(spans, from, length)
  {
    if spans != [] {
      var rest := spans[1..];
      forall i | 0 < i < |rest| ensures rest[i - 1].end <= rest[i].start {
        assert rest[i - 1] == spans[i] && rest[i] == spans[i + 1];
      }
      assert rest != [] ==> rest[0] == spans[1];
      NeighboursSuffice(rest, spans[0].end, length);
    }
  }

  lemma TwoCopies<T>(s: seq<T>, i: nat, j: nat)
    requires i < j < |s| && s[i] == s[j]
    ensures multiset(s)[s[i]] >= 2
  {
    assert s == s[..j] + [s[j]] + s[j + 1..];
    assert s[i] in s[..j];
  }

  lemma {:induction false} FindCopies<T>(s: seq<T>, x: T) returns (i: nat, j: nat)
    requires multiset(s)[x] >= 2
    ensures i < j < |s| && s[i] == x == s[j]
  {
    var n := |s| - 1;
    assert s == s[..n] + [s[n]];
    if s[n] == x {
      assert x in multiset(s[..n]);
      i :| 0 <= i < n && s[i] == x;
      j := n;
    } else {
      i, j := FindCopies(s[..n], x);
    }
  }

  lemma CompatiblePermutes(text: string, a: seq<Edit>, b: seq<Edit>)
    requires multiset(a) == multiset(b) && Compatible(text, a)
    ensures Compatible(text, b)
  {
    forall i, j | 0 <= i < j < |b| ensures Disjoint(Place(text, b[i]), Place(text, b[j])) {
      var p, q;
      if b[i] == b[j] {
        TwoCopies(b, i, j);
        p, q := FindCopies(a, b[i]);
      } else {
        assert b[i] in multiset(a) && b[j] in multiset(a);
        p :| 0 <= p < |a| && a[p] == b[i];
        q :| 0 <= q < |a| && a[q] == b[j];
      }
      assert p < q || q < p;
    }
  }

  /** The order in which edits are listed changes neither whether they apply nor what they give. */
  lemma OrderIrrelevant(original: string, a: seq<Edit>, b: seq<Edit>)
    requires multiset(a) == multiset(b)
    ensures Outcome(original, a) == Outcome(original, b)
  {
    hide Replaced, Place, Unique, Compatible;
    var text := Normalize(Split(original).1);
    assert forall e :: e in a <==> e in multiset(a);
    assert forall e :: e in b <==> e in multiset(b);
    assert SpansOf(text, a) == SpansOf(text, b);
    if Compatible(text, a) {
      CompatiblePermutes(text, a, b);
    } else if Compatible(text, b) {
      CompatiblePermutes(text, b, a);
    }
  }

  // ------------------------------------------------------------ what stays and what changes

  /** `gaps[0] + fills[0] + gaps[1] + ...`. */
  function Interleave(gaps: seq<string>, fills: seq<string>): string
    requires |gaps| == |fills| + 1
  {
    if fills == [] then gaps[0] else gaps[0] + fills[0] + Interleave(gaps[1..], fills[1..])
  }

  /** The text outside ordered spans. */
  function Gaps(text: string, spans: seq<Span>, from: nat): (gaps: seq<string>)
    requires Ordered(spans, from, |text|)
    ensures |gaps| == |spans| + 1
  {
    if spans == [] then [text[from..]] else [text[from..spans[0].start]] + Gaps(text, spans[1..], spans[0].end)
  }

  function Olds(text: string, spans: seq<Span>, from: nat): (fills: seq<string>)
    requires Ordered(spans, from, |text|)
    ensures |fills| == |spans|
  {
    if spans == [] then [] else [text[spans[0].start..spans[0].end]] + Olds(text, spans[1..], spans[0].end)
  }

  function News(spans: seq<Span>): (fills: seq<string>)
    ensures |fills| == |spans|
  {
    if spans == [] then [] else [spans[0].put] + News(spans[1..])
  }

  function RenderAll(crlf: bool, parts: seq<string>): seq<string> {
    seq(|parts|, i requires 0 <= i < |parts| => Render(crlf, parts[i]))
  }

  lemma {:induction false} GapsStay(text: string, spans: seq<Span>, from: nat)
    requires Ordered(spans, from, |text|)
    ensures text[from..] == Interleave(Gaps(text, spans, from), Olds(text, spans, from))
    ensures Splice(text, spans, from) == Interleave(Gaps(text, spans, from), News(spans))
  {
    if spans != [] {
      var head := spans[0];
      GapsStay(text, spans[1..], head.end);
      assert text[from..] == text[from..head.start] + text[head.start..head.end] + text[head.end..];
    }
  }

  lemma {:induction false} RenderInterleaved(crlf: bool, gaps: seq<string>, fills: seq<string>)
    requires |gaps| == |fills| + 1
    ensures Render(crlf, Interleave(gaps, fills)) == Interleave(RenderAll(crlf, gaps), RenderAll(crlf, fills))
  {
    if fills != [] {
      RenderInterleaved(crlf, gaps[1..], fills[1..]);
      RenderAppend(crlf, gaps[0] + fills[0], Interleave(gaps[1..], fills[1..]));
      RenderAppend(crlf, gaps[0], fills[0]);
      assert RenderAll(crlf, gaps)[1..] == RenderAll(crlf, gaps[1..]);
      assert RenderAll(crlf, fills)[1..] == RenderAll(crlf, fills[1..]);
    }
  }

  lemma RenderAppend(crlf: bool, a: string, b: string)
    ensures Render(crlf, a + b) == Render(crlf, a) + Render(crlf, b)
  {
    if crlf {
      ExpandAppend(a, b);
    }
  }

  /** How much of a raw text its first `n` normalized characters are. A CRLF is never split. */
  function Raw(s: string, n: nat): (r: nat)
    requires n <= |Normalize(s)|
    ensures r <= |s|
  {
    if n == 0 then 0
    else if |s| >= 2 && s[0] == '\r' && s[1] == '\n' then 2 + Raw(s[2..], n - 1)
    else 1 + Raw(s[1..], n - 1)
  }

  lemma NormalizePair(t: string)
    ensures Normalize("\r\n" + t) == "\n" + Normalize(t)
  {
    assert ("\r\n" + t)[2..] == t;
  }

  lemma NormalizeOne(c: char, t: string)
    requires c == '\r' && t != "" ==> t[0] != '\n'
    ensures Normalize([c] + t) == [c] + Normalize(t)
  {
    assert ([c] + t)[1..] == t;
  }

  lemma TakeDrop(head: string, t: string, k: nat)
    requires k <= |t|
    ensures (head + t)[..|head| + k] == head + t[..k] && (head + t)[|head| + k..] == t[k..]
  {
  }

  lemma {:induction false} RawSplits(s: string, n: nat)
    requires n <= |Normalize(s)|
    ensures Normalize(s[..Raw(s, n)]) == Normalize(s)[..n]
    ensures Normalize(s[Raw(s, n)..]) == Normalize(s)[n..]
    decreases |s|, 1
  {
    if n == 0 {
      assert s[..0] == "" && s[0..] == s && Normalize(s)[..0] == "" && Normalize(s)[0..] == Normalize(s);
    } else if |s| >= 2 && s[0] == '\r' && s[1] == '\n' {
      RawSplitsPair(s, n);
    } else {
      RawSplitsOne(s, n);
    }
  }

  lemma RawSplitsPair(s: string, n: nat)
    requires 0 < n <= |Normalize(s)| && |s| >= 2 && s[0] == '\r' && s[1] == '\n'
    ensures Normalize(s[..Raw(s, n)]) == Normalize(s)[..n]
    ensures Normalize(s[Raw(s, n)..]) == Normalize(s)[n..]
    decreases |s|, 0
  {
    hide Normalize, Raw;
    var t := s[2..];
    assert s == "\r\n" + t;
    RawPair(t, n);
    NormalizePair(t);
    RawSplits(t, n - 1);
    NormalizePair(t[..Raw(t, n - 1)]);
    SplitsAfter("\r\n", t, Raw(t, n - 1), "\n", n);
  }

  lemma RawSplitsOne(s: string, n: nat)
    requires 0 < n <= |Normalize(s)| && !(|s| >= 2 && s[0] == '\r' && s[1] == '\n') && s != ""
    ensures Normalize(s[..Raw(s, n)]) == Normalize(s)[..n]
    ensures Normalize(s[Raw(s, n)..]) == Normalize(s)[n..]
    decreases |s|, 0
  {
    hide Normalize, Raw;
    var c, t := s[0], s[1..];
    assert s == [c] + t;
    RawOne(c, t, n);
    NormalizeOne(c, t);
    RawSplits(t, n - 1);
    NormalizeOne(c, t[..Raw(t, n - 1)]);
    SplitsAfter([c], t, Raw(t, n - 1), [c], n);
  }

  lemma RawPair(t: string, n: nat)
    requires 0 < n <= |Normalize("\r\n" + t)|
    ensures n - 1 <= |Normalize(t)| && Raw("\r\n" + t, n) == 2 + Raw(t, n - 1)
  {
    NormalizePair(t);
    assert ("\r\n" + t)[2..] == t;
  }

  lemma RawOne(c: char, t: string, n: nat)
    requires 0 < n <= |Normalize([c] + t)| && (c == '\r' && t != "" ==> t[0] != '\n')
    ensures n - 1 <= |Normalize(t)| && Raw([c] + t, n) == 1 + Raw(t, n - 1)
  {
    assert ([c] + t)[1..] == t;
  }

  lemma SplitsAfter(head: string, t: string, q: nat, shown: string, n: nat)
    requires q <= |t| && |shown| == 1 && 0 < n <= |Normalize(t)| + 1
    requires Normalize(head + t) == shown + Normalize(t)
    requires Normalize(t[..q]) == Normalize(t)[..n - 1] && Normalize(t[q..]) == Normalize(t)[n - 1..]
    requires Normalize(head + t[..q]) == shown + Normalize(t[..q])
    ensures Normalize((head + t)[..|head| + q]) == Normalize(head + t)[..n]
    ensures Normalize((head + t)[|head| + q..]) == Normalize(head + t)[n..]
  {
    hide Normalize;
    TakeDrop(head, t, q);
    TakeDrop(shown, Normalize(t), n - 1);
  }

  /** No line feed without its carriage return. */
  ghost predicate NoBareFeed(s: string) {
    forall i :: 0 <= i < |s| ==> Preceded(s, i)
  }

  lemma {:induction false} RawNotInside(s: string, n: nat)
    requires n <= |Normalize(s)|
    ensures var r := Raw(s, n); 0 < r < |s| && s[r] == '\n' ==> s[r - 1] != '\r'
  {
    if n == 0 {
    } else if |s| >= 2 && s[0] == '\r' && s[1] == '\n' {
      RawNotInside(s[2..], n - 1);
    } else {
      RawNotInside(s[1..], n - 1);
    }
  }

  lemma RawKeepsFeeds(s: string, n: nat)
    requires n <= |Normalize(s)|
    ensures NoBareFeed(s) ==> NoBareFeed(s[..Raw(s, n)]) && NoBareFeed(s[Raw(s, n)..])
    ensures !HasCrlf(s) ==> !HasCrlf(s[..Raw(s, n)]) && !HasCrlf(s[Raw(s, n)..])
  {
    var r := Raw(s, n);
    RawNotInside(s, n);
    if NoBareFeed(s) {
      forall i | 0 <= i < r ensures Preceded(s[..r], i) {
        assert Preceded(s, i);
      }
      forall i | 0 <= i < |s| - r ensures Preceded(s[r..], i) {
        assert Preceded(s, r + i);
      }
    }
    assert forall i :: CrlfAt(s[..r], i) ==> CrlfAt(s, i);
    assert forall i :: CrlfAt(s[r..], i) ==> CrlfAt(s, r + i);
  }

  /** A raw text before, within and after some of its normalized characters. */
  function Parts(raw: string, skip: nat, width: nat): (p: (string, string, string))
    requires skip + width <= |Normalize(raw)|
    ensures |Normalize(p.2)| == |Normalize(raw)| - skip - width
  {
    RawSplits(raw, skip);
    var rest := raw[Raw(raw, skip)..];
    RawSplits(rest, width);
    (raw[..Raw(raw, skip)], rest[..Raw(rest, width)], rest[Raw(rest, width)..])
  }

  lemma PartsAre(raw: string, skip: nat, width: nat)
    requires skip + width <= |Normalize(raw)|
    ensures var p := Parts(raw, skip, width);
            && raw == p.0 + p.1 + p.2
            && Normalize(p.0) == Normalize(raw)[..skip]
            && Normalize(p.1) == Normalize(raw)[skip..skip + width]
            && Normalize(p.2) == Normalize(raw)[skip + width..]
  {
    hide Normalize, Raw;
    RawSplits(raw, skip);
    var rest := raw[Raw(raw, skip)..];
    RawSplits(rest, width);
    Slices(Normalize(raw), skip, width);
    Rejoin(raw, Raw(raw, skip), Raw(rest, width));
  }

  lemma Slices(t: string, skip: nat, width: nat)
    requires skip + width <= |t|
    ensures t[skip..][..width] == t[skip..skip + width] && t[skip..][width..] == t[skip + width..]
  {
  }

  lemma Rejoin(t: string, a: nat, b: nat)
    requires a <= |t| && b <= |t[a..]|
    ensures t == t[..a] + t[a..][..b] + t[a..][b..]
  {
  }

  lemma PartsKeepFeeds(raw: string, skip: nat, width: nat)
    requires skip + width <= |Normalize(raw)|
    ensures var p := Parts(raw, skip, width);
            && (NoBareFeed(raw) ==> NoBareFeed(p.0) && NoBareFeed(p.2))
            && (!HasCrlf(raw) ==> !HasCrlf(p.0) && !HasCrlf(p.2))
  {
    hide NoBareFeed, HasCrlf;
    RawSplits(raw, skip);
    RawKeepsFeeds(raw, skip);
    RawKeepsFeeds(raw[Raw(raw, skip)..], width);
  }

  /** The raw stretches of a file outside ordered spans of its normalized text; `raw` is what follows
      position `from` of that text. */
  function RawGaps(raw: string, spans: seq<Span>, from: nat): (gaps: seq<string>)
    requires Ordered(spans, from, from + |Normalize(raw)|)
    ensures |gaps| == |spans| + 1
    decreases |spans|
  {
    if spans == [] then [raw]
    else
      OrderedBounds(spans, from, from + |Normalize(raw)|);
      var p := Parts(raw, spans[0].start - from, spans[0].end - spans[0].start);
      [p.0] + RawGaps(p.2, spans[1..], spans[0].end)
  }

  /** The raw stretches within the spans. */
  function RawOlds(raw: string, spans: seq<Span>, from: nat): (olds: seq<string>)
    requires Ordered(spans, from, from + |Normalize(raw)|)
    ensures |olds| == |spans|
    decreases |spans|
  {
    if spans == [] then []
    else
      OrderedBounds(spans, from, from + |Normalize(raw)|);
      var p := Parts(raw, spans[0].start - from, spans[0].end - spans[0].start);
      [p.1] + RawOlds(p.2, spans[1..], spans[0].end)
  }

  function NormalizeAll(parts: seq<string>): seq<string> {
    seq(|parts|, i requires 0 <= i < |parts| => Normalize(parts[i]))
  }

  lemma InterleaveCons(gap: string, gaps: seq<string>, fill: string, fills: seq<string>)
    requires |gaps| == |fills| + 1
    ensures Interleave([gap] + gaps, [fill] + fills) == gap + fill + Interleave(gaps, fills)
  {
    assert ([gap] + gaps)[1..] == gaps && ([fill] + fills)[1..] == fills;
  }

  lemma NormalizeCons(part: string, parts: seq<string>)
    ensures NormalizeAll([part] + parts) == [Normalize(part)] + NormalizeAll(parts)
  {
  }

  /** The raw stretches are those of the text before it was normalized, and make up the whole file. */
  lemma {:induction false} RawStretches(raw: string, text: string, spans: seq<Span>, from: nat)
    requires from <= |text| && Normalize(raw) == text[from..] && Ordered(spans, from, |text|)
    ensures raw == Interleave(RawGaps(raw, spans, from), RawOlds(raw, spans, from))
    ensures NormalizeAll(RawGaps(raw, spans, from)) == Gaps(text, spans, from)
    decreases |spans|
  {
    hide Interleave, Normalize, NormalizeAll, Parts, RawGaps, RawOlds, Gaps, Ordered;
    if spans == [] {
      LastStretch(raw, text, from);
    } else {
      var head := spans[0];
      SpanWithin(spans, from, |text|);
      var p := Parts(raw, head.start - from, head.end - head.start);
      RawStep(raw, text, spans, from, p);
      RawStretches(p.2, text, spans[1..], head.end);
      var gaps, olds := RawGaps(p.2, spans[1..], head.end), RawOlds(p.2, spans[1..], head.end);
      InterleaveCons(p.0, gaps, p.1, olds);
      NormalizeCons(p.0, gaps);
    }
  }

  lemma LastStretch(raw: string, text: string, from: nat)
    requires from <= |text| && Normalize(raw) == text[from..]
    ensures raw == Interleave(RawGaps(raw, [], from), RawOlds(raw, [], from))
    ensures NormalizeAll(RawGaps(raw, [], from)) == Gaps(text, [], from)
  {
    hide Normalize;
  }

  lemma RawStep(raw: string, text: string, spans: seq<Span>, from: nat, p: (string, string, string))
    requires spans != [] && Ordered(spans, from, |text|) && Ordered(spans[1..], spans[0].end, |text|)
    requires from <= spans[0].start < spans[0].end <= |text|
    requires |Normalize(raw)| == |text| - from && Normalize(raw) == text[from..]
    requires p == Parts(raw, spans[0].start - from, spans[0].end - spans[0].start)
    ensures raw == p.0 + p.1 + p.2 && Normalize(p.2) == text[spans[0].end..]
    ensures RawGaps(raw, spans, from) == [p.0] + RawGaps(p.2, spans[1..], spans[0].end)
    ensures RawOlds(raw, spans, from) == [p.1] + RawOlds(p.2, spans[1..], spans[0].end)
    ensures Gaps(text, spans, from) == [Normalize(p.0)] + Gaps(text, spans[1..], spans[0].end)
  {
    hide Normalize, Parts;
    PartsAre(raw, spans[0].start - from, spans[0].end - spans[0].start);
    SliceOfRest(text, from, spans[0].start, spans[0].end);
  }

  lemma SpanWithin(spans: seq<Span>, from: nat, length: nat)
    requires Ordered(spans, from, length) && spans != []
    ensures from <= spans[0].start < spans[0].end <= length && Ordered(spans[1..], spans[0].end, length)
  {
    OrderedBounds(spans, from, length);
  }

  lemma SliceOfRest(text: string, from: nat, start: nat, end: nat)
    requires from <= start <= end <= |text|
    ensures text[from..][..start - from] == text[from..start] && text[from..][end - from..] == text[end..]
  {
  }

  /** A stretch comes through an edit unchanged: no line ends in CRLF, or all of its own do. */
  ghost predicate Kept(crlf: bool, gap: string) {
    !crlf || NoBareFeed(gap)
  }

  lemma {:induction false} RawGapsUniform(raw: string, spans: seq<Span>, from: nat)
    requires Ordered(spans, from, from + |Normalize(raw)|)
    ensures NoBareFeed(raw) ==> forall gap <- RawGaps(raw, spans, from) :: NoBareFeed(gap)
    ensures !HasCrlf(raw) ==> forall gap <- RawGaps(raw, spans, from) :: !HasCrlf(gap)
    decreases |spans|
  {
    hide NoBareFeed, HasCrlf, Parts, Normalize;
    if spans != [] {
      var skip, width := spans[0].start - from, spans[0].end - spans[0].start;
      OrderedBounds(spans, from, from + |Normalize(raw)|);
      PartsKeepFeeds(raw, skip, width);
      RawGapsUniform(Parts(raw, skip, width).2, spans[1..], spans[0].end);
    }
  }

  /** What normalizing and rendering does to one stretch of a file. */
  lemma StretchKept(body: string, gap: string)
    requires !HasCrlf(body) ==> !HasCrlf(gap)
    ensures Render(HasCrlf(body), Normalize(gap)) == gap <==> Kept(HasCrlf(body), gap)
  {
    if HasCrlf(body) {
      ExpandNormalize(gap);
    } else {
      NormalizeWithout(gap);
    }
  }

  /** `spans` are the places of these edits, in order. */
  ghost predicate InOrder(text: string, edits: seq<Edit>, spans: seq<Span>) {
    Ordered(spans, 0, |text|) && forall s :: s in spans <==> s in SpansOf(text, edits)
  }

  /** What replacing spans makes of a body: the same stretches around the new texts, each unchanged if
      and only if the body has no CRLF or the stretch no bare line feed. */
  ghost predicate Stretches(body: string, edited: string, spans: seq<Span>)
    requires Ordered(spans, 0, |Normalize(body)|)
  {
    var crlf := HasCrlf(body);
    var gaps := RawGaps(body, spans, 0);
    && body == Interleave(gaps, RawOlds(body, spans, 0))
    && edited == Interleave(RenderAll(crlf, NormalizeAll(gaps)), RenderAll(crlf, News(spans)))
    && forall gap <- gaps :: Render(crlf, Normalize(gap)) == gap <==> Kept(crlf, gap)
  }

  lemma SpansKeep(body: string, spans: seq<Span>)
    requires Ordered(spans, 0, |Normalize(body)|)
    ensures Stretches(body, Render(HasCrlf(body), Splice(Normalize(body), spans, 0)), spans)
  {
    hide HasCrlf, Splice, Normalize, Ordered, Interleave, Gaps, RawGaps, RawOlds, News, RenderAll, NormalizeAll;
    hide Kept, Render;
    var text, crlf := Normalize(body), HasCrlf(body);
    assert text[0..] == text;
    RawStretches(body, text, spans, 0);
    GapsStay(text, spans, 0);
    RenderInterleaved(crlf, Gaps(text, spans, 0), News(spans));
    RawGapsUniform(body, spans, 0);
    forall gap | gap in RawGaps(body, spans, 0)
      ensures Render(crlf, Normalize(gap)) == gap <==> Kept(crlf, gap)
    {
      StretchKept(body, gap);
    }
  }

  /** Outside the edits a file keeps everything but the bare line feeds of a file that has CRLFs too. */
  lemma EditKeeps(original: string, edits: seq<Edit>) returns (spans: seq<Span>, edited: string)
    requires Outcome(original, edits).Some?
    ensures InOrder(Normalize(Split(original).1), edits, spans)
    ensures original == Split(original).0 + Split(original).1
    ensures Outcome(original, edits).value == Split(original).0 + edited
    ensures Stretches(Split(original).1, edited, spans)
  {
    hide Stretches, Splice, Replaced, Applicable, Normalize, Ordered, Render, SpansOf, HasCrlf;
    var (bom, body) := Split(original);
    spans := Placing(Normalize(body), edits);
    edited := Render(HasCrlf(body), Splice(Normalize(body), spans, 0));
    SpansKeep(body, spans);
  }

  /** A file with uniform line endings keeps everything outside the edits, to the character. */
  lemma OutsideUnchanged(original: string, edits: seq<Edit>) returns (spans: seq<Span>)
    requires Outcome(original, edits).Some? && Uniform(Split(original).1)
    ensures InOrder(Normalize(Split(original).1), edits, spans)
    ensures var (bom, body) := Split(original);
            var gaps := RawGaps(body, spans, 0);
            && original == bom + Interleave(gaps, RawOlds(body, spans, 0))
            && Outcome(original, edits).value ==
               bom + Interleave(gaps, RenderAll(HasCrlf(body), News(spans)))
  {
    hide Outcome, Normalize, Uniform, Interleave, HasCrlf, Ordered, Split, RawGaps, RawOlds, RenderAll, NormalizeAll;
    hide News, Kept, Render, NoBareFeed, SpansOf, Stretches;
    var edited;
    spans, edited := EditKeeps(original, edits);
    UniformKept(Split(original).1, edited, spans);
  }

  /** A file with both kinds of line ending: replacing `a` rewrites the feed after `b`, far from the edit,
      while an edit that takes that feed with it changes nothing outside itself. */
  lemma MixedEndings()
    ensures !Uniform("a\r\nb\nc")
    ensures Outcome("a\r\nb\nc", [Edit("a", "x")]) == Some("x\r\nb\r\nc")
    ensures Outcome("a\r\nb\nc", [Edit("b\nc", "d")]) == Some("a\r\nd")
  {
    var body, text := "a\r\nb\nc", "a\nb\nc";
    MixedTexts();
    assert CrlfAt(body, 1) && !Preceded(body, 4);
    hide Normalize, Expand, Outcome;
    OnlyThere(text, "a", 0);
    OnlyThere(text, "b\nc", 2);
    OneEdit(body, text, Edit("a", "x"), 0);
    OneEdit(body, text, Edit("b\nc", "d"), 2);
  }

  lemma MixedTexts()
    ensures Normalize("a\r\nb\nc") == "a\nb\nc" && Normalize("b\nc") == "b\nc"
    ensures Normalize("a") == "a" && Normalize("x") == "x" && Normalize("d") == "d"
    ensures Expand("x\nb\nc") == "x\r\nb\r\nc" && Expand("a\nd") == "a\r\nd"
    ensures "a\nb\nc"[..0] + "x" + "a\nb\nc"[1..] == "x\nb\nc"
    ensures "a\nb\nc"[..2] + "d" + "a\nb\nc"[5..] == "a\nd"
  {
    MixedExpands();
    assert Normalize("") == "";
    hide Expand, Normalize;
    NormalizeOne('c', "");
    NormalizeOne('\n', "c");
    NormalizeOne('b', "\nc");
    NormalizePair("b\nc");
    NormalizeOne('a', "\r\nb\nc");
    assert ['c'] + "" == "c" && ['\n'] + "c" == "\nc" && ['b'] + "\nc" == "b\nc";
    assert "\r\n" + "b\nc" == "\r\nb\nc" && "\n" + "b\nc" == "\nb\nc" && ['a'] + "\r\nb\nc" == "a\r\nb\nc";
    NormalizeOne('a', "");
    NormalizeOne('x', "");
    NormalizeOne('d', "");
  }

  lemma MixedExpands()
    ensures Expand("x\nb\nc") == "x\r\nb\r\nc" && Expand("a\nd") == "a\r\nd"
  {
  }

  lemma OnlyThere(text: string, pat: string, at: nat)
    requires pat != "" && At(text, pat, at) && forall j :: 0 <= j < |text| && text[j] == pat[0] ==> j == at
    ensures OnlyAt(text, pat, at)
  {
    forall j | At(text, pat, j) ensures j == at {
      assert text[j..j + |pat|][0] == text[j];
    }
  }

  /** One edit whose text occurs at one place only. */
  lemma OneEdit(body: string, text: string, e: Edit, at: nat)
    requires !(BOM <= body) && Normalize(body) == text && Normalize(e.find) == e.find && Normalize(e.put) == e.put
    requires e.find != "" && OnlyAt(text, e.find, at) && e.put != e.find
    ensures Outcome(body, [e]) == Some(Render(HasCrlf(body), text[..at] + e.put + text[at + |e.find|..]))
  {
    var span := Span(at, at + |e.find|, e.put);
    hide Normalize, Applicable, Replaced, SpansOf, OnlyAt, HasCrlf, Render;
    OneSpan(text, e, at);
    OneReplaced(text, span);
    assert Split(body) == ("", body);
    assert "" + Render(HasCrlf(body), Replaced(text, {span}, 0)) == Render(HasCrlf(body), Replaced(text, {span}, 0));
  }

  lemma OneSpan(text: string, e: Edit, at: nat)
    requires Normalize(e.find) == e.find && Normalize(e.put) == e.put && e.find != "" && OnlyAt(text, e.find, at)
    ensures Applicable(text, [e]) && SpansOf(text, [e]) == {Span(at, at + |e.find|, e.put)}
    ensures At(text, e.find, at)
  {
    assert Find(text, e.find, 0) == Some(at);
    assert Find(text, e.find, at + |e.find|).None?;
    assert Matches(text, e.find, 0) == [at];
    assert forall s :: s in SpansOf(text, [e]) <==> exists x :: x in [e] && Place(text, x) == s;
    assert e in [e] && Place(text, e) == Span(at, at + |e.find|, e.put);
  }

  lemma OneReplaced(text: string, span: Span)
    requires span.start < span.end <= |text| && text[span.start..span.end] != span.put
    ensures var edited := text[..span.start] + span.put + text[span.end..];
            Replaced(text, {span}, 0) == edited && edited != text
  {
    var edited := text[..span.start] + span.put + text[span.end..];
    assert Splice(text, [span], 0) == edited by {
      assert text[0..span.start] == text[..span.start] && [span][1..] == [];
    }
    hide Replaced, Splice;
    SpliceIsReplaced(text, [span], {span}, 0);
    assert edited[span.start..span.start + |span.put|] == span.put;
  }

  lemma UniformKept(body: string, edited: string, spans: seq<Span>)
    requires Uniform(body) && Ordered(spans, 0, |Normalize(body)|) && Stretches(body, edited, spans)
    ensures var gaps := RawGaps(body, spans, 0);
            body == Interleave(gaps, RawOlds(body, spans, 0))
            && edited == Interleave(gaps, RenderAll(HasCrlf(body), News(spans)))
  {
    hide Normalize, Uniform, Interleave, HasCrlf, Ordered, RawGaps, RawOlds, RenderAll, NormalizeAll;
    hide News, Kept, Render;
    RawGapsUniform(body, spans, 0);
    AllKept(body, RawGaps(body, spans, 0));
  }

  lemma AllKept(body: string, gaps: seq<string>)
    requires Uniform(body) && (NoBareFeed(body) ==> forall gap <- gaps :: NoBareFeed(gap))
    requires forall gap <- gaps :: Render(HasCrlf(body), Normalize(gap)) == gap <==> Kept(HasCrlf(body), gap)
    ensures RenderAll(HasCrlf(body), NormalizeAll(gaps)) == gaps
  {
    assert NoBareFeed(body) || !HasCrlf(body);
    assert forall gap <- gaps :: Kept(HasCrlf(body), gap);
  }

  function Growth(spans: seq<Span>): int {
    if spans == [] then 0 else |spans[0].put| - (spans[0].end - spans[0].start) + Growth(spans[1..])
  }

  /** The length changes by what the new texts have over the old ones. */
  lemma {:induction false} LengthChange(text: string, spans: seq<Span>, from: nat)
    requires Ordered(spans, from, |text|)
    ensures |Splice(text, spans, from)| == |text| - from + Growth(spans)
  {
    if spans != [] {
      LengthChange(text, spans[1..], spans[0].end);
    }
  }

  // ------------------------------------------------------------ the edit itself

  ghost predicate PlacedAs(text: string, edits: seq<Edit>, ps: seq<Placed>) {
    && |ps| <= |edits|
    && forall i :: 0 <= i < |ps| ==> ps[i] == Placed(Place(text, edits[i]), i) && Unique(text, edits[i])
  }

  /** The single place of every edit, or the first edit without one. */
  method PlaceAll(text: string, edits: seq<Edit>) returns (res: Result<seq<Placed>, EditError>)
    ensures res.Success? ==> |res.value| == |edits| && PlacedAs(text, edits, res.value)
    ensures res.Failure? ==> !res.error.NoChange? && !res.error.Overlap? && res.error.index < |edits|
    ensures res.Failure? ==> !Unique(text, edits[res.error.index])
    ensures res.Failure? ==> var find := Normalize(edits[res.error.index].find);
              && (forall i :: 0 <= i < res.error.index ==> Unique(text, edits[i]))
              && (res.error.Empty? <==> find == "")
              && (res.error.NotFound? ==> forall at :: !At(text, find, at))
              && (res.error.NotUnique? ==> res.error.count == |Matches(text, find, 0)| > 1)
  {
    var ps: seq<Placed> := [];
    for i := 0 to |edits|
      invariant |ps| == i && PlacedAs(text, edits, ps)
    {
      var find := Normalize(edits[i].find);
      if find == "" {
        return Failure(Empty(i));
      }
      var found := Matches(text, find, 0);
      if found == [] {
        return Failure(NotFound(i));
      }
      if |found| > 1 {
        return Failure(NotUnique(i, |found|));
      }
      ps := ps + [Placed(Span(found[0], found[0] + |find|, Normalize(edits[i].put)), i)];
    }
    return Success(ps);
  }

  /** The first span reaching into its successor, as the index of that successor's edit. */
  method FirstOverlap(ps: seq<Placed>) returns (found: Option<nat>)
    ensures found.None? ==> forall i :: 0 < i < |ps| ==> ps[i - 1].span.end <= ps[i].span.start
    ensures found.Some? ==> exists i :: 0 < i < |ps| && ps[i].index == found.value
                                        && ps[i].span.start < ps[i - 1].span.end
  {
    var i := 1;
    while i < |ps|
      invariant 1 <= i
      invariant forall j :: 0 < j < i && j < |ps| ==> ps[j - 1].span.end <= ps[j].span.start
    {
      if ps[i].span.start < ps[i - 1].span.end {
        return Some(ps[i].index);
      }
      i := i + 1;
    }
    return None;
  }

  /** Copy the text up to each span, then what the span puts there, then the rest. */
  method Substitute(text: string, spans: seq<Span>) returns (edited: string)
    requires Ordered(spans, 0, |text|)
    ensures edited == Splice(text, spans, 0)
  {
    hide Splice;
    var cursor: nat := 0;
    edited := "";
    for i := 0 to |spans|
      invariant cursor <= |text| && Ordered(spans[i..], cursor, |text|)
      invariant edited + Splice(text, spans[i..], cursor) == Splice(text, spans, 0)
    {
      var span := spans[i];
      assert spans[i..][0] == span && spans[i..][1..] == spans[i + 1..];
      SpliceStep(text, spans[i..], cursor);
      Regroup(edited, text[cursor..span.start], span.put, Splice(text, spans[i + 1..], span.end));
      edited := edited + text[cursor..span.start] + span.put;
      cursor := span.end;
    }
    SpliceRest(text, cursor);
    edited := edited + text[cursor..];
  }

  lemma PlacedWithin(text: string, edits: seq<Edit>, ps: seq<Placed>)
    requires PlacedAs(text, edits, ps)
    ensures forall p <- ps :: p.span.start < p.span.end <= |text|
  {
  }

  lemma MembersSorted(ps: seq<Placed>)
    ensures forall p :: p in SortByStart(ps) <==> p in ps
  {
    SortSorts(ps);
    assert forall p :: p in ps <==> p in multiset(ps);
    assert forall p :: p in SortByStart(ps) <==> p in multiset(SortByStart(ps));
  }

  /** Two neighbours that overlap are two different edits that do. */
  lemma OverlapFound(text: string, edits: seq<Edit>, ps: seq<Placed>, i: nat)
    requires |ps| == |edits| && PlacedAs(text, edits, ps)
    requires 0 < i < |SortByStart(ps)|
    requires SortByStart(ps)[i].span.start < SortByStart(ps)[i - 1].span.end
    ensures var p, q := SortByStart(ps)[i].index, SortByStart(ps)[i - 1].index;
            p < |edits| && q < |edits| && p != q && !Disjoint(Place(text, edits[p]), Place(text, edits[q]))
    ensures !Compatible(text, edits)
  {
    var sorted := SortByStart(ps);
    SortSorts(ps);
    MembersSorted(ps);
    PlacedWithin(text, edits, ps);
    hide Place, Unique, SortByStart;
    var a, b := sorted[i - 1], sorted[i];
    assert a in ps && b in ps;
    assert ps[a.index] == a && ps[b.index] == b;
    if a == b {
      TwoCopies(sorted, i - 1, i);
      var x, y := FindCopies(ps, a);
      assert false;
    }
    assert a.index < b.index || b.index < a.index;
  }

  lemma NoOverlapOrdered(text: string, edits: seq<Edit>, ps: seq<Placed>)
    requires PlacedAs(text, edits, ps)
    requires forall i :: 0 < i < |SortByStart(ps)| ==> SortByStart(ps)[i - 1].span.end <= SortByStart(ps)[i].span.start
    ensures Ordered(Spans(SortByStart(ps)), 0, |text|)
  {
    var sorted := SortByStart(ps);
    var spans := Spans(sorted);
    MembersSorted(ps);
    PlacedWithin(text, edits, ps);
    hide Place, Unique, Matches, SortByStart;
    forall s | s in spans ensures s.start < s.end <= |text| {
      var i :| 0 <= i < |spans| && spans[i] == s;
      assert sorted[i] in ps;
    }
    NeighboursSuffice(spans, 0, |text|);
  }

  lemma OrderedCompatible(text: string, edits: seq<Edit>, ps: seq<Placed>)
    requires |ps| == |edits| && PlacedAs(text, edits, ps) && Ordered(Spans(SortByStart(ps)), 0, |text|)
    ensures Compatible(text, edits)
  {
    hide Unique, Matches, SortByStart;
    var sorted := SortByStart(ps);
    var spans := Spans(sorted);
    MembersSorted(ps);
    OrderedBounds(spans, 0, |text|);
    forall i, j | 0 <= i < j < |edits| ensures Disjoint(Place(text, edits[i]), Place(text, edits[j])) {
      assert ps[i] in sorted && ps[j] in sorted;
      var p :| 0 <= p < |sorted| && sorted[p] == ps[i];
      var q :| 0 <= q < |sorted| && sorted[q] == ps[j];
      assert spans[p] == Place(text, edits[i]) && spans[q] == Place(text, edits[j]);
      assert p < q || q < p;
    }
  }

  lemma SortedSpans(text: string, edits: seq<Edit>, ps: seq<Placed>)
    requires |ps| == |edits| && PlacedAs(text, edits, ps)
    ensures forall s :: s in Spans(SortByStart(ps)) <==> s in SpansOf(text, edits)
  {
    var sorted := SortByStart(ps);
    var spans := Spans(sorted);
    MembersSorted(ps);
    forall s | s in spans ensures s in SpansOf(text, edits) {
      var i :| 0 <= i < |sorted| && sorted[i].span == s;
      assert sorted[i] in ps;
    }
    forall s | s in SpansOf(text, edits) ensures s in spans {
      var i :| 0 <= i < |edits| && Place(text, edits[i]) == s;
      assert ps[i] in sorted;
      var j :| 0 <= j < |sorted| && sorted[j] == ps[i];
      assert spans[j] == s;
    }
  }

  lemma SortedIsReplaced(text: string, edits: seq<Edit>, ps: seq<Placed>)
    requires |ps| == |edits| && PlacedAs(text, edits, ps) && Ordered(Spans(SortByStart(ps)), 0, |text|)
    ensures Splice(text, Spans(SortByStart(ps)), 0) == Replaced(text, SpansOf(text, edits), 0)
  {
    SortedSpans(text, edits, ps);
    SpliceIsReplaced(text, Spans(SortByStart(ps)), SpansOf(text, edits), 0);
  }

  ghost predicate Overlapped(text: string, edits: seq<Edit>, i: nat)
    requires i < |edits|
  {
    exists j :: 0 <= j < |edits| && j != i && !Disjoint(Place(text, edits[i]), Place(text, edits[j]))
  }

  /** All edits at once, or the first reason why not. */
  method ApplyEdits(original: string, edits: seq<Edit>) returns (res: Result<string, EditError>)
    ensures Outcome(original, edits) == if res.Success? then Some(res.value) else None
    ensures res.Failure? ==> var text := Normalize(Split(original).1);
              match res.error
              case Empty(i) => i < |edits| && Normalize(edits[i].find) == ""
              case NotFound(i) => i < |edits| && forall at :: !At(text, Normalize(edits[i].find), at)
              case NotUnique(i, n) => i < |edits| && Normalize(edits[i].find) != ""
                                      && n == |Matches(text, Normalize(edits[i].find), 0)| > 1
              case Overlap(i) => i < |edits| && Overlapped(text, edits, i)
              case NoChange => Applicable(text, edits) && Replaced(text, SpansOf(text, edits), 0) == text
  {
    hide Replaced, Place, Compatible, Splice, SortByStart;
    var (bom, body) := Split(original);
    var crlf := HasCrlf(body);
    var text := Normalize(body);
    var placed := PlaceAll(text, edits);
    if placed.Failure? {
      assert edits[placed.error.index] in edits;
      return Failure(placed.error);
    }
    var sorted := SortByStart(placed.value);
    var overlap := FirstOverlap(sorted);
    if overlap.Some? {
      ghost var i :| 0 < i < |sorted| && sorted[i].index == overlap.value
                     && sorted[i].span.start < sorted[i - 1].span.end;
      OverlapFound(text, edits, placed.value, i);
      return Failure(Overlap(overlap.value));
    }
    NoOverlapOrdered(text, edits, placed.value);
    OrderedCompatible(text, edits, placed.value);
    var edited := Substitute(text, Spans(sorted));
    SortedIsReplaced(text, edits, placed.value);
    if edited == text {
      return Failure(NoChange);
    }
    return Success(bom + Render(crlf, edited));
  }

  // ------------------------------------------------------------ lengths

  lemma {:induction false} InsertGrowth(p: Placed, ps: seq<Placed>)
    ensures Growth(Spans(Insert(p, ps))) == Growth(Spans([p] + ps))
  {
    assert Spans([p] + ps) == [p.span] + Spans(ps);
    if ps != [] && ps[0].span.start <= p.span.start {
      var rest := Insert(p, ps[1..]);
      InsertGrowth(p, ps[1..]);
      assert Spans([p] + ps[1..]) == [p.span] + Spans(ps[1..]);
      assert Spans([ps[0]] + rest) == [ps[0].span] + Spans(rest);
      assert Spans(ps) == [ps[0].span] + Spans(ps[1..]);
    }
  }

  lemma {:induction false} GrowthSnoc(spans: seq<Span>, s: Span)
    ensures Growth(spans + [s]) == Growth([s]) + Growth(spans)
  {
    if spans == [] {
      assert spans + [s] == [s];
    } else {
      assert (spans + [s])[1..] == spans[1..] + [s];
      GrowthSnoc(spans[1..], s);
    }
  }

  lemma {:induction false} SortGrowth(ps: seq<Placed>)
    ensures Growth(Spans(SortByStart(ps))) == Growth(Spans(ps))
  {
    if ps != [] {
      var init, last := ps[..|ps| - 1], ps[|ps| - 1];
      SortGrowth(init);
      InsertGrowth(last, SortByStart(init));
      assert Spans([last] + SortByStart(init)) == [last.span] + Spans(SortByStart(init));
      assert Spans(ps) == Spans(init) + [last.span];
      GrowthSnoc(Spans(init), last.span);
    }
  }

  /** What the edits add, as listed. */
  function Added(edits: seq<Edit>): int {
    if edits == [] then 0
    else Added(edits[..|edits| - 1]) + |Normalize(edits[|edits| - 1].put)| - |Normalize(edits[|edits| - 1].find)|
  }

  lemma PlaceWidth(text: string, e: Edit)
    requires Unique(text, e)
    ensures var s := Place(text, e);
            s.put == Normalize(e.put) && s.end - s.start == |Normalize(e.find)|
  {
  }

  lemma {:induction false} AddedIsGrowth(text: string, edits: seq<Edit>, ps: seq<Placed>)
    requires |ps| == |edits| && PlacedAs(text, edits, ps)
    ensures Growth(Spans(ps)) == Added(edits)
  {
    hide Place, Unique, Normalize;
    if edits != [] {
      var init, last := ps[..|ps| - 1], ps[|ps| - 1];
      PlaceWidth(text, edits[|ps| - 1]);
      AddedIsGrowth(text, edits[..|ps| - 1], init);
      assert Spans(ps) == Spans(init) + [last.span];
      GrowthSnoc(Spans(init), last.span);
    }
  }

  /** The places of edits that apply, in order. */
  lemma Placing(text: string, edits: seq<Edit>) returns (spans: seq<Span>)
    requires Applicable(text, edits)
    ensures InOrder(text, edits, spans) && Splice(text, spans, 0) == Replaced(text, SpansOf(text, edits), 0)
  {
    var ps := seq(|edits|, i requires 0 <= i < |edits| => Placed(Place(text, edits[i]), i));
    assert PlacedAs(text, edits, ps);
    hide Replaced, Place, Unique, Splice, SortByStart;
    var sorted := SortByStart(ps);
    forall i | 0 < i < |sorted| ensures sorted[i - 1].span.end <= sorted[i].span.start {
      if sorted[i].span.start < sorted[i - 1].span.end {
        OverlapFound(text, edits, ps, i);
        assert false;
      }
    }
    NoOverlapOrdered(text, edits, ps);
    SortedIsReplaced(text, edits, ps);
    SortedSpans(text, edits, ps);
    spans := Spans(sorted);
  }

  /** The text grows by exactly what the new texts have over the old ones. */
  lemma EditedLength(text: string, edits: seq<Edit>)
    requires Applicable(text, edits)
    ensures |Replaced(text, SpansOf(text, edits), 0)| == |text| + Added(edits)
  {
    var ps := seq(|edits|, i requires 0 <= i < |edits| => Placed(Place(text, edits[i]), i));
    assert PlacedAs(text, edits, ps);
    hide Replaced, Place, Unique, Splice, SortByStart;
    var sorted := SortByStart(ps);
    forall i | 0 < i < |sorted| ensures sorted[i - 1].span.end <= sorted[i].span.start {
      if sorted[i].span.start < sorted[i - 1].span.end {
        OverlapFound(text, edits, ps, i);
        assert false;
      }
    }
    NoOverlapOrdered(text, edits, ps);
    SortedIsReplaced(text, edits, ps);
    LengthChange(text, Spans(sorted), 0);
    SortGrowth(ps);
    AddedIsGrowth(text, edits, ps);
  }
}
