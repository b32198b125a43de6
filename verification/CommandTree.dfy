/** Merging the command trees several bindings contribute, and finding which binding owns a command. */
module CommandTree {
  import opened Wrappers

  type Path = seq<string>

  datatype Cmd = Cmd(name: string, subs: seq<Cmd>)

  const INTRINSIC := "generate-skills"

  /** The subcommand a merge recurses into: the first of that name. */
  function Find(subs: seq<Cmd>, name: string): (r: Option<nat>)
    ensures r.Some? ==> r.value < |subs| && subs[r.value].name == name
    ensures r.None? <==> forall s <- subs :: s.name != name
  {
    if subs == [] then None
    else if subs[0].name == name then Some(0)
    else match Find(subs[1..], name)
      case Some(i) => Some(i + 1)
      case None => None
  }

  function Merge(parent: Cmd, incoming: Cmd): Cmd
    decreases incoming, 0
  {
    match Find(parent.subs, incoming.name)
    case Some(i) => parent.(subs := parent.subs[i := MergeAll(parent.subs[i], incoming.subs)])
    case None => parent.(subs := parent.subs + [incoming])
  }

  function MergeAll(existing: Cmd, children: seq<Cmd>): Cmd
    decreases children, 1
  {
    if children == [] then existing
    else Merge(MergeAll(existing, children[..|children| - 1]), children[|children| - 1])
  }

  // ------------------------------------------------------------ paths

  /** A path names a node when each step names a child. */
  predicate HasPath(subs: seq<Cmd>, p: Path)
    decreases p
  {
    p != [] && exists s :: s in subs && s.name == p[0] && (|p| == 1 || HasPath(s.subs, p[1..]))
  }

  /** A node with no further subcommands. */
  predicate Leaf(subs: seq<Cmd>, p: Path)
    decreases p
  {
    p != [] && exists s :: s in subs && s.name == p[0] && (if |p| == 1 then s.subs == [] else Leaf(s.subs, p[1..]))
  }

  /** Sibling names are distinct at every level. */
  ghost predicate Distinct(subs: seq<Cmd>)
    decreases subs
  {
    && (forall i, j :: 0 <= i < j < |subs| ==> subs[i].name != subs[j].name)
    && (forall s <- subs :: Distinct(s.subs))
  }

  lemma PathVia(subs: seq<Cmd>, s: Cmd, p: Path)
    requires s in subs && p != [] && s.name == p[0] && (|p| == 1 || HasPath(s.subs, p[1..]))
    ensures HasPath(subs, p)
  {
  }

  lemma HasPathSplit(a: seq<Cmd>, b: seq<Cmd>, p: Path)
    ensures HasPath(a + b, p) <==> HasPath(a, p) || HasPath(b, p)
  {
    if HasPath(a + b, p) {
      var s :| s in a + b && s.name == p[0] && (|p| == 1 || HasPath(s.subs, p[1..]));
      if s in a { PathVia(a, s, p); } else { PathVia(b, s, p); }
    }
    if HasPath(a, p) {
      var s :| s in a && s.name == p[0] && (|p| == 1 || HasPath(s.subs, p[1..]));
      PathVia(a + b, s, p);
    }
    if HasPath(b, p) {
      var s :| s in b && s.name == p[0] && (|p| == 1 || HasPath(s.subs, p[1..]));
      PathVia(a + b, s, p);
    }
  }

  lemma HasPathOne(c: Cmd, p: Path)
    ensures HasPath([c], p) <==> p != [] && c.name == p[0] && (|p| == 1 || HasPath(c.subs, p[1..]))
  {
    if HasPath([c], p) {
      var s :| s in [c] && s.name == p[0] && (|p| == 1 || HasPath(s.subs, p[1..]));
    } else if p != [] && c.name == p[0] && (|p| == 1 || HasPath(c.subs, p[1..])) {
      PathVia([c], c, p);
    }
  }

  /** Merging changes no name. */
  lemma {:induction false} MergeAllName(existing: Cmd, children: seq<Cmd>)
    ensures MergeAll(existing, children).name == existing.name
  {
    if children != [] {
      MergeAllName(existing, children[..|children| - 1]);
    }
  }

  /** The merged tree has exactly the nodes of both. */
  lemma {:induction false} MergeNodes(parent: Cmd, incoming: Cmd, p: Path)
    ensures HasPath(Merge(parent, incoming).subs, p) <==> HasPath(parent.subs, p) || HasPath([incoming], p)
    decreases incoming, 0
  {
    match Find(parent.subs, incoming.name) {
      case None => HasPathSplit(parent.subs, [incoming], p);
      case Some(i) =>
        var before, merged := parent.subs[i], MergeAll(parent.subs[i], incoming.subs);
        MergeAllName(before, incoming.subs);
        var a, b := parent.subs[..i], parent.subs[i + 1..];
        assert parent.subs == a + [before] + b;
        assert parent.subs[i := merged] == a + [merged] + b;
        HasPathSplit(a + [before], b, p);
        HasPathSplit(a, [before], p);
        HasPathSplit(a + [merged], b, p);
        HasPathSplit(a, [merged], p);
        HasPathOne(before, p);
        HasPathOne(merged, p);
        HasPathOne(incoming, p);
        if p != [] {
          MergeAllNodes(before, incoming.subs, p[1..]);
        }
    }
  }

  lemma {:induction false} MergeAllNodes(existing: Cmd, children: seq<Cmd>, p: Path)
    ensures HasPath(MergeAll(existing, children).subs, p) <==> HasPath(existing.subs, p) || HasPath(children, p)
    decreases children, 1
  {
    if children == [] {
    } else {
      var init, last := children[..|children| - 1], children[|children| - 1];
      MergeAllNodes(existing, init, p);
      MergeNodes(MergeAll(existing, init), last, p);
      assert children == init + [last];
      HasPathSplit(init, [last], p);
    }
  }

  lemma {:induction false} MergeDistinct(parent: Cmd, incoming: Cmd)
    requires Distinct(parent.subs) && Distinct(incoming.subs)
    ensures Distinct(Merge(parent, incoming).subs)
    decreases incoming, 0
  {
    match Find(parent.subs, incoming.name) {
      case None =>
      case Some(i) =>
        MergeAllDistinct(parent.subs[i], incoming.subs);
        MergeAllName(parent.subs[i], incoming.subs);
    }
  }

  lemma {:induction false} MergeAllDistinct(existing: Cmd, children: seq<Cmd>)
    requires Distinct(existing.subs) && forall c <- children :: Distinct(c.subs)
    ensures Distinct(MergeAll(existing, children).subs)
    decreases children, 1
  {
    if children != [] {
      MergeAllDistinct(existing, children[..|children| - 1]);
      MergeDistinct(MergeAll(existing, children[..|children| - 1]), children[|children| - 1]);
    }
  }

  // ------------------------------------------------------------ leaves

  ghost predicate Extended(subs: seq<Cmd>, p: Path) {
    exists n :: HasPath(subs, p + [n])
  }

  lemma {:induction false} LeafIsNode(subs: seq<Cmd>, p: Path)
    requires Leaf(subs, p)
    ensures HasPath(subs, p)
    decreases p
  {
    var s :| s in subs && s.name == p[0] && (if |p| == 1 then s.subs == [] else Leaf(s.subs, p[1..]));
    if |p| > 1 {
      LeafIsNode(s.subs, p[1..]);
    }
    PathVia(subs, s, p);
  }

  /** With distinct siblings a leaf is a node nothing extends. */
  lemma {:induction false} LeafIffEnd(subs: seq<Cmd>, p: Path)
    requires Distinct(subs)
    ensures Leaf(subs, p) <==> HasPath(subs, p) && !Extended(subs, p)
    decreases p
  {
    if HasPath(subs, p) {
      var s :| s in subs && s.name == p[0] && (|p| == 1 || HasPath(s.subs, p[1..]));
      OnlyChild(subs, s);
      if |p| == 1 {
        if s.subs != [] {
          assert HasPath(s.subs, [s.subs[0].name]);
          assert (p + [s.subs[0].name])[1..] == [s.subs[0].name];
          PathVia(subs, s, p + [s.subs[0].name]);
        } else {
          forall n ensures !HasPath(subs, p + [n]) {
            assert (p + [n])[1..] == [n];
            assert forall t <- subs :: t.name == p[0] ==> t == s;
            assert !HasPath(s.subs, [n]);
          }
        }
      } else {
        LeafIffEnd(s.subs, p[1..]);
        ExtendedBelow(subs, s, p);
      }
    } else if Leaf(subs, p) {
      LeafIsNode(subs, p);
    }
  }

  lemma OnlyChild(subs: seq<Cmd>, s: Cmd)
    requires Distinct(subs) && s in subs
    ensures forall t <- subs :: t.name == s.name ==> t == s
    ensures Distinct(s.subs)
  {
  }

  lemma ExtendedBelow(subs: seq<Cmd>, s: Cmd, p: Path)
    requires Distinct(subs) && s in subs && |p| > 1 && s.name == p[0]
    ensures Extended(subs, p) <==> Extended(s.subs, p[1..])
  {
    OnlyChild(subs, s);
    forall n ensures HasPath(subs, p + [n]) <==> HasPath(s.subs, p[1..] + [n]) {
      assert (p + [n])[1..] == p[1..] + [n];
      if HasPath(s.subs, p[1..] + [n]) {
        PathVia(subs, s, p + [n]);
      }
    }
    if Extended(subs, p) {
      var n :| HasPath(subs, p + [n]);
      assert HasPath(s.subs, p[1..] + [n]);
    }
    if Extended(s.subs, p[1..]) {
      var n :| HasPath(s.subs, p[1..] + [n]);
      assert HasPath(subs, p + [n]);
    }
  }

  /** Every node leads to a leaf. */
  lemma {:induction false} NodeLeadsToLeaf(subs: seq<Cmd>, p: Path) returns (q: Path)
    requires HasPath(subs, p)
    ensures p <= q && Leaf(subs, q)
    decreases subs
  {
    var s :| s in subs && s.name == p[0] && (|p| == 1 || HasPath(s.subs, p[1..]));
    if s.subs == [] {
      q := p;
    } else {
      var rest := p[1..];
      if |p| == 1 {
        rest := [s.subs[0].name];
        assert HasPath(s.subs, rest);
      }
      var below := NodeLeadsToLeaf(s.subs, rest);
      q := [p[0]] + below;
      assert q[1..] == below;
      assert p <= q by {
        assert |p| == 1 || p == [p[0]] + p[1..];
      }
    }
  }

  // ------------------------------------------------------------ several bindings

  const ROOT := Cmd("__merged_subtree__", [])

  function MergedOf(bindings: seq<Cmd>): Cmd {
    if bindings == [] then ROOT
    else MergeAll(MergedOf(bindings[..|bindings| - 1]), bindings[|bindings| - 1].subs)
  }

  predicate OwnsLeaf(bindings: seq<Cmd>, i: int, p: Path) {
    0 <= i < |bindings| && Leaf(bindings[i].subs, p)
  }

  predicate OwnsNode(bindings: seq<Cmd>, i: int, p: Path) {
    0 <= i < |bindings| && HasPath(bindings[i].subs, p)
  }

  ghost predicate AnyLeaf(bindings: seq<Cmd>, p: Path) {
    exists i :: OwnsLeaf(bindings, i, p)
  }

  ghost predicate AnyNode(bindings: seq<Cmd>, p: Path) {
    exists i :: OwnsNode(bindings, i, p)
  }

  /** No command is a leaf at a path another command extends. */
  ghost predicate NoShadow(bindings: seq<Cmd>) {
    forall i, j, p, q :: OwnsLeaf(bindings, i, p) && OwnsLeaf(bindings, j, q) ==> !(p < q)
  }

  lemma {:induction false} MergedNodes(bindings: seq<Cmd>, p: Path)
    ensures HasPath(MergedOf(bindings).subs, p) <==> AnyNode(bindings, p)
  {
    if bindings != [] {
      var init, last := bindings[..|bindings| - 1], bindings[|bindings| - 1];
      MergedNodes(init, p);
      MergeAllNodes(MergedOf(init), last.subs, p);
      assert forall i :: OwnsNode(init, i, p) ==> OwnsNode(bindings, i, p);
      assert forall i :: OwnsNode(bindings, i, p) ==> OwnsNode(init, i, p) || i == |bindings| - 1;
      assert HasPath(last.subs, p) ==> OwnsNode(bindings, |bindings| - 1, p);
    }
  }

  lemma {:induction false} MergedDistinct(bindings: seq<Cmd>)
    requires forall b <- bindings :: Distinct(b.subs)
    ensures Distinct(MergedOf(bindings).subs)
  {
    if bindings != [] {
      MergedDistinct(bindings[..|bindings| - 1]);
      var last := bindings[|bindings| - 1];
      assert last in bindings;
      MergeAllDistinct(MergedOf(bindings[..|bindings| - 1]), last.subs);
    }
  }

  lemma {:induction false} PrefixIsNode(subs: seq<Cmd>, q: Path, k: nat)
    requires HasPath(subs, q) && 0 < k <= |q|
    ensures HasPath(subs, q[..k])
    decreases q
  {
    var s :| s in subs && s.name == q[0] && (|q| == 1 || HasPath(s.subs, q[1..]));
    if k > 1 {
      PrefixIsNode(s.subs, q[1..], k - 1);
      assert q[..k][1..] == q[1..][..k - 1];
    }
    PathVia(subs, s, q[..k]);
  }

  /** A merged leaf is some binding's leaf. */
  lemma MergedLeafOwned(bindings: seq<Cmd>, p: Path)
    requires (forall b <- bindings :: Distinct(b.subs)) && Leaf(MergedOf(bindings).subs, p)
    ensures AnyLeaf(bindings, p)
  {
    MergedDistinct(bindings);
    LeafIffEnd(MergedOf(bindings).subs, p);
    MergedNodes(bindings, p);
    var i :| OwnsNode(bindings, i, p);
    LeafIffEnd(bindings[i].subs, p);
    if n :| HasPath(bindings[i].subs, p + [n]) {
      assert OwnsNode(bindings, i, p + [n]);
      MergedNodes(bindings, p + [n]);
      assert false;
    }
    assert OwnsLeaf(bindings, i, p);
  }

  /** A binding's leaf stays one unless some other command extends it. */
  lemma OwnedLeafMerged(bindings: seq<Cmd>, i: int, p: Path)
    requires (forall b <- bindings :: Distinct(b.subs)) && OwnsLeaf(bindings, i, p)
    ensures Leaf(MergedOf(bindings).subs, p) <==> forall j, q :: OwnsLeaf(bindings, j, q) ==> !(p < q)
  {
    hide HasPath, Leaf, Distinct, MergedOf;
    MergedDistinct(bindings);
    LeafIffEnd(MergedOf(bindings).subs, p);
    LeafIsNode(bindings[i].subs, p);
    assert OwnsNode(bindings, i, p);
    MergedNodes(bindings, p);
    if Extended(MergedOf(bindings).subs, p) {
      var n :| HasPath(MergedOf(bindings).subs, p + [n]);
      MergedNodes(bindings, p + [n]);
      var j :| OwnsNode(bindings, j, p + [n]);
      var q := NodeLeadsToLeaf(bindings[j].subs, p + [n]);
      assert OwnsLeaf(bindings, j, q) && p < q;
    } else {
      forall j, q | OwnsLeaf(bindings, j, q) ensures !(p < q) {
        if p < q {
          LeafIsNode(bindings[j].subs, q);
          PrefixIsNode(bindings[j].subs, q, |p| + 1);
          assert q[..|p| + 1] == p + [q[|p|]];
          assert OwnsNode(bindings, j, p + [q[|p|]]);
          MergedNodes(bindings, p + [q[|p|]]);
          assert false;
        }
      }
    }
  }

  /** The merged leaves are the union of the bindings' leaves if and only if no command shadows
      another: a leaf of one binding at a prefix of another's path can no longer be run. */
  lemma LeavesUnite(bindings: seq<Cmd>)
    requires forall b <- bindings :: Distinct(b.subs)
    ensures (forall p :: Leaf(MergedOf(bindings).subs, p) <==> AnyLeaf(bindings, p)) <==> NoShadow(bindings)
  {
    forall p | Leaf(MergedOf(bindings).subs, p) ensures AnyLeaf(bindings, p) {
      MergedLeafOwned(bindings, p);
    }
    if NoShadow(bindings) {
      forall p | AnyLeaf(bindings, p) ensures Leaf(MergedOf(bindings).subs, p) {
        var i :| OwnsLeaf(bindings, i, p);
        OwnedLeafMerged(bindings, i, p);
      }
    } else {
      var i, j, p, q :| OwnsLeaf(bindings, i, p) && OwnsLeaf(bindings, j, q) && p < q;
      OwnedLeafMerged(bindings, i, p);
      assert AnyLeaf(bindings, p);
    }
  }

  // ------------------------------------------------------------ ownership

  type LeafMap = seq<(nat, Path)>

  predicate Intrinsic(p: Path) {
    p == [INTRINSIC]
  }

  /** Whether `p` is the path of a leaf at or below `cmd`, which stands at `prefix`. */
  predicate LeafBelow(cmd: Cmd, prefix: Path, p: Path) {
    prefix <= p && (if |p| == |prefix| then cmd.subs == [] else Leaf(cmd.subs, p[|prefix|..]))
  }

  lemma LeafSplit(subs: seq<Cmd>, s: Cmd, prefix: Path, p: Path)
    ensures prefix <= p && Leaf(subs + [s], p[|prefix|..]) <==>
            (prefix <= p && Leaf(subs, p[|prefix|..])) || LeafBelow(s, prefix + [s.name], p)
  {
    if prefix <= p && |p| > |prefix| {
      var r := p[|prefix|..];
      assert p[|prefix| + 1..] == r[1..];
      assert p == prefix + r;
      assert prefix + [s.name] <= p <==> r[0] == s.name;
      assert forall t :: t in subs + [s] <==> t in subs || t == s;
    }
  }

  ghost predicate Tagged(out: LeafMap, i: nat, p: Path) {
    (i, p) in out
  }

  /** Walk a subtree depth first, pushing one entry for each leaf. */
  method CollectLeaves(cmd: Cmd, path: Path, idx: nat, out: LeafMap) returns (after: LeafMap)
    ensures out <= after
    ensures forall i, p :: Tagged(after, i, p) <==> Tagged(out, i, p) || (i == idx && LeafBelow(cmd, path, p))
    decreases cmd
  {
    after := out;
    var hasChild := false;
    for n := 0 to |cmd.subs|
      invariant out <= after && (hasChild <==> n > 0)
      invariant forall i, p :: Tagged(after, i, p) <==>
                  Tagged(out, i, p) || (i == idx && path <= p && Leaf(cmd.subs[..n], p[|path|..]))
    {
      hasChild := true;
      var sub := cmd.subs[n];
      ghost var before := after;
      after := CollectLeaves(sub, path + [sub.name], idx, after);
      assert cmd.subs[..n + 1] == cmd.subs[..n] + [sub];
      forall i, p
        ensures Tagged(after, i, p) <==>
                Tagged(out, i, p) || (i == idx && path <= p && Leaf(cmd.subs[..n + 1], p[|path|..]))
      {
        LeafSplit(cmd.subs[..n], sub, path, p);
      }
    }
    assert cmd.subs[..|cmd.subs|] == cmd.subs;
    if !hasChild {
      ghost var before := after;
      after := after + [(idx, path)];
      assert forall i, p :: Tagged(after, i, p) <==> Tagged(before, i, p) || (i == idx && p == path);
    }
  }

  /** Every leaf of every binding, with its owner. */
  method CollectAll(bindings: seq<Cmd>) returns (out: LeafMap)
    ensures forall i: nat, p :: Tagged(out, i, p) <==> OwnsLeaf(bindings, i, p)
  {
    out := [];
    for b := 0 to |bindings|
      invariant forall i: nat, p :: Tagged(out, i, p) <==> i < b && OwnsLeaf(bindings, i, p)
    {
      var subs := bindings[b].subs;
      for n := 0 to |subs|
        invariant forall i: nat, p :: Tagged(out, i, p) <==>
                    (i < b && OwnsLeaf(bindings, i, p)) || (i == b && Leaf(subs[..n], p))
      {
        ghost var before := out;
        out := CollectLeaves(subs[n], [subs[n].name], b, out);
        assert subs[..n + 1] == subs[..n] + [subs[n]];
        forall i: nat, p
          ensures Tagged(out, i, p) <==> (i < b && OwnsLeaf(bindings, i, p)) || (i == b && Leaf(subs[..n + 1], p))
        {
          LeafSplit(subs[..n], subs[n], [], p);
          assert p[0..] == p && [] + [subs[n].name] == [subs[n].name];
        }
      }
      assert subs[..|subs|] == subs;
    }
  }

  ghost predicate Contested(bindings: seq<Cmd>, p: Path) {
    !Intrinsic(p) && exists i, j :: i != j && OwnsLeaf(bindings, i, p) && OwnsLeaf(bindings, j, p)
  }

  lemma {:induction false} ManyOwners(owners: set<nat>)
    ensures |owners| > 1 <==> exists i, j :: i in owners && j in owners && i != j
  {
    if i :| i in owners {
      var rest := owners - {i};
      assert |owners| == |rest| + 1;
      if rest != {} {
        var j :| j in rest;
      } else {
        assert owners == {i};
      }
    }
  }

  /** The non-intrinsic paths that two bindings declare. */
  method Collisions(leaves: LeafMap) returns (paths: set<Path>)
    ensures forall p :: p in paths <==>
              !Intrinsic(p) && exists i: nat, j: nat :: i != j && Tagged(leaves, i, p) && Tagged(leaves, j, p)
  {
    var owners: map<Path, set<nat>> := map[];
    for n := 0 to |leaves|
      invariant forall p <- owners :: !Intrinsic(p)
      invariant forall i: nat, p ::
                  (i, p) in leaves[..n] && !Intrinsic(p) <==> p in owners && i in owners[p]
    {
      var (idx, path) := leaves[n];
      assert leaves[..n + 1] == leaves[..n] + [(idx, path)];
      if !Intrinsic(path) {
        owners := owners[path := (if path in owners then owners[path] else {}) + {idx}];
      }
    }
    assert leaves[..|leaves|] == leaves;
    paths := set p | p in owners && |owners[p]| > 1;
    forall p
      ensures p in paths <==>
              !Intrinsic(p) && exists i: nat, j: nat :: i != j && Tagged(leaves, i, p) && Tagged(leaves, j, p)
    {
      if p in owners {
        ManyOwners(owners[p]);
        assert forall i: nat :: i in owners[p] <==> Tagged(leaves, i, p);
      }
    }
  }

  /** Merge the bindings' trees, or report exactly the paths two of them declare. On success every
      leaf but the intrinsic one has a single owner. */
  method MergeBindings(bindings: seq<Cmd>) returns (res: Result<(Cmd, LeafMap), set<Path>>)
    ensures res.Failure? ==> res.error != {} && forall p :: p in res.error <==> Contested(bindings, p)
    ensures res.Success? ==> res.value.0 == MergedOf(bindings) && forall p :: !Contested(bindings, p)
    ensures res.Success? ==> forall i: nat, p :: Tagged(res.value.1, i, p) <==> OwnsLeaf(bindings, i, p)
    ensures res.Success? ==> forall i: nat, j: nat, p ::
              !Intrinsic(p) && Tagged(res.value.1, i, p) && Tagged(res.value.1, j, p) ==> i == j
  {
    var leaves := CollectAll(bindings);
    var collisions := Collisions(leaves);
    forall p ensures p in collisions <==> Contested(bindings, p) {
      if Contested(bindings, p) {
        var i, j :| i != j && OwnsLeaf(bindings, i, p) && OwnsLeaf(bindings, j, p);
        assert Tagged(leaves, i, p) && Tagged(leaves, j, p);
      }
    }
    if collisions != {} {
      return Failure(collisions);
    }
    var merged := ROOT;
    for b := 0 to |bindings|
      invariant merged == MergedOf(bindings[..b])
    {
      var subs := bindings[b].subs;
      assert bindings[..b + 1][..b] == bindings[..b];
      for n := 0 to |subs|
        invariant merged == MergeAll(MergedOf(bindings[..b]), subs[..n])
      {
        assert subs[..n + 1][..n] == subs[..n];
        merged := Merge(merged, subs[n]);
      }
      assert subs[..|subs|] == subs;
    }
    assert bindings[..|bindings|] == bindings;
    return Success((merged, leaves));
  }

  /** The leaf a path names, by the first entry for it. */
  method ResolveBinding(path: Path, leaves: LeafMap) returns (owner: Option<nat>)
    ensures owner.None? <==> path == [] || forall i: nat :: !Tagged(leaves, i, path)
    ensures owner.Some? ==> Tagged(leaves, owner.value, path)
    ensures owner.Some? ==> exists n :: 0 <= n < |leaves| && leaves[n] == (owner.value, path)
                                        && forall m :: 0 <= m < n ==> leaves[m].1 != path
  {
    if path == [] {
      return None;
    }
    for n := 0 to |leaves|
      invariant forall m :: 0 <= m < n ==> leaves[m].1 != path
    {
      if leaves[n].1 == path {
        assert Tagged(leaves, leaves[n].0, path);
        return Some(leaves[n].0);
      }
    }
    return None;
  }
}
