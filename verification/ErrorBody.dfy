/** Turning an error response's JSON body into one sentence plus the details it does not carry. */
module ErrorBody {
  import opened Wrappers

  datatype Json =
    | Null | Bool(b: bool) | Number(digits: string) | Str(s: string)
    | Arr(items: seq<Json>) | Obj(fields: seq<Field>)
  datatype Field = Field(key: string, value: Json)

  datatype Seg = Key(key: string) | Index(i: nat)
  datatype Located = Located(text: string, path: seq<Seg>)
  datatype ApiError = ApiError(code: nat, message: string, reason: string, details: Option<Json>)

  // ------------------------------------------------------------ paths

  /** The first field of that name; a parsed object has at most one. */
  function FieldAt(fields: seq<Field>, k: string): (r: Option<nat>)
    ensures r.Some? ==> r.value < |fields| && fields[r.value].key == k
  {
    if fields == [] then None
    else if fields[0].key == k then Some(0)
    else match FieldAt(fields[1..], k)
      case Some(i) => Some(i + 1)
      case None => None
  }

  function Get(v: Json, seg: Seg): Option<Json> {
    match (v, seg)
    case (Obj(fields), Key(k)) =>
      (match FieldAt(fields, k) case Some(i) => Some(fields[i].value) case None => None)
    case (Arr(items), Index(i)) => if i < |items| then Some(items[i]) else None
    case _ => None
  }

  function Resolve(v: Json, path: seq<Seg>): Option<Json> {
    if path == [] then Some(v)
    else match Get(v, path[0])
      case Some(next) => Resolve(next, path[1..])
      case None => None
  }

  function Without<T>(s: seq<T>, i: nat): seq<T>
    requires i < |s|
  {
    s[..i] + s[i + 1..]
  }

  function Delete(v: Json, seg: Seg): Json {
    match (v, seg)
    case (Obj(fields), Key(k)) =>
      (match FieldAt(fields, k) case Some(i) => Obj(Without(fields, i)) case None => v)
    case (Arr(items), Index(i)) => if i < |items| then Arr(Without(items, i)) else v
    case _ => v
  }

  /** `v` with the value one step down replaced. */
  function Put(v: Json, seg: Seg, w: Json): Json
    requires Get(v, seg).Some?
  {
    match (v, seg)
    case (Obj(fields), Key(k)) => Obj(fields[FieldAt(fields, k).value := Field(k, w)])
    case (Arr(items), Index(i)) => Arr(items[i := w])
  }

  /** Everything but the value at `path`; a path that does not resolve changes nothing. */
  function RemoveAt(v: Json, path: seq<Seg>): Json {
    if path == [] then v
    else if |path| == 1 then Delete(v, path[0])
    else match Get(v, path[0])
      case Some(next) => Put(v, path[0], RemoveAt(next, path[1..]))
      case None => v
  }

  // ------------------------------------------------------------ pruning

  function PruneItems(items: seq<Json>): seq<Json>
    decreases items
  {
    if items == [] then []
    else
      var rest := PruneItems(items[..|items| - 1]);
      match Prune(items[|items| - 1])
      case Some(v) => rest + [v]
      case None => rest
  }

  function PruneFields(fields: seq<Field>): seq<Field>
    decreases fields
  {
    if fields == [] then []
    else
      var last := fields[|fields| - 1];
      var rest := PruneFields(fields[..|fields| - 1]);
      match Prune(last.value)
      case Some(v) => rest + [Field(last.key, v)]
      case None => rest
  }

  /** Drop containers that hold nothing. */
  function Prune(v: Json): Option<Json>
    decreases v
  {
    match v
    case Obj(fields) => var kept := PruneFields(fields); if kept == [] then None else Some(Obj(kept))
    case Arr(items) => var kept := PruneItems(items); if kept == [] then None else Some(Arr(kept))
    case _ => Some(v)
  }

  // ------------------------------------------------------------ leaves

  function ItemLeaves(items: seq<Json>): multiset<Json>
    decreases items
  {
    if items == [] then multiset{} else ItemLeaves(items[..|items| - 1]) + Leaves(items[|items| - 1])
  }

  function FieldLeaves(fields: seq<Field>): multiset<Json>
    decreases fields
  {
    if fields == [] then multiset{} else FieldLeaves(fields[..|fields| - 1]) + Leaves(fields[|fields| - 1].value)
  }

  /** The scalars of a document, with multiplicity. */
  function Leaves(v: Json): multiset<Json>
    decreases v
  {
    match v
    case Obj(fields) => FieldLeaves(fields)
    case Arr(items) => ItemLeaves(items)
    case _ => multiset{v}
  }

  predicate Solid(v: Json)
    decreases v
  {
    match v
    case Obj(fields) => fields != [] && forall f <- fields :: Solid(f.value)
    case Arr(items) => items != [] && forall w <- items :: Solid(w)
    case _ => true
  }

  // ------------------------------------------------------------ finding the sentence

  function StrField(scope: Json, k: string): Option<string> {
    match Get(scope, Key(k))
    case Some(Str(s)) => if s != "" then Some(s) else None
    case _ => None
  }

  /** The first non-empty string among these fields, in this order. */
  function FirstField(scope: Json, keys: seq<string>): Option<Located> {
    if keys == [] then None
    else match StrField(scope, keys[0])
      case Some(text) => Some(Located(text, [Key(keys[0])]))
      case None => FirstField(scope, keys[1..])
  }

  /** The first entry of a list under one of these keys. */
  function FirstEntry(scope: Json, keys: seq<string>): Option<(string, Json)> {
    if keys == [] then None
    else match Get(scope, Key(keys[0]))
      case Some(Arr(items)) => if items != [] then Some((keys[0], items[0])) else FirstEntry(scope, keys[1..])
      case _ => FirstEntry(scope, keys[1..])
  }

  const SENTENCES := ["message", "msg", "detail", "title", "error_description", "error"]
  const LISTS := ["errors", "detail"]

  /** The sentence of an error object and where it was found. */
  function MessageFrom(scope: Json): Option<Located>
    decreases scope
  {
    match FirstField(scope, SENTENCES)
    case Some(m) => Some(m)
    case None =>
      match FirstEntry(scope, LISTS)
      case None => None
      case Some((k, first)) =>
        EntrySmaller(scope, LISTS);
        if first.Str? then Some(Located(first.s, [Key(k), Index(0)]))
        else match MessageFrom(first)
          case None => None
          case Some(m) => Some(Located(m.text, [Key(k), Index(0)] + m.path))
  }

  lemma EntrySmaller(scope: Json, keys: seq<string>)
    ensures FirstEntry(scope, keys).Some? ==> FirstEntry(scope, keys).value.1 < scope
  {
  }

  function ScopePrefix(body: Json): seq<Seg> {
    if Get(body, Key("error")).Some? && Get(body, Key("error")).value.Obj? then [Key("error")]
    else if Get(body, Key("detail")).Some? && Get(body, Key("detail")).value.Obj? then [Key("detail")]
    else if body.Arr? && body.items != [] then [Index(0)]
    else []
  }

  function Scope(body: Json): Json {
    match Resolve(body, ScopePrefix(body))
    case Some(v) => v
    case None => body
  }

  function Reason(scope: Json, status: string): string {
    var entry := match FirstEntry(scope, LISTS)
      case Some((_, e)) => StrField(e, "reason")
      case None => None;
    if entry.Some? then entry.value
    else match FirstField(scope, ["reason", "code", "type"])
      case Some(m) => m.text
      case None => status
  }

  predicate IsSpace(c: char) {
    || '\U{0009}' <= c <= '\U{000D}' || c in {' ', '\U{0085}', '\U{00A0}', '\U{1680}'}
    || '\U{2000}' <= c <= '\U{200A}' || c in {'\U{2028}', '\U{2029}', '\U{202F}', '\U{205F}', '\U{3000}'}
  }

  function TrimStart(s: string): string {
    if s != "" && IsSpace(s[0]) then TrimStart(s[1..]) else s
  }

  function TrimEnd(s: string): string {
    if s != "" && IsSpace(s[|s| - 1]) then TrimEnd(s[..|s| - 1]) else s
  }

  function Trim(s: string): string {
    TrimEnd(TrimStart(s))
  }

  /** The error reported for a JSON body; `status` is the reason the HTTP status stands for. */
  function FromBody(code: nat, status: string, digits: string, body: Json): ApiError {
    if body.Str? && Trim(body.s) != "" then ApiError(code, Trim(body.s), status, None)
    else
      var scope := Scope(body);
      var reason := Reason(scope, status);
      match MessageFrom(scope)
      case Some(m) => ApiError(code, m.text, reason, Prune(RemoveAt(body, ScopePrefix(body) + m.path)))
      case None => ApiError(code, "HTTP " + digits + " " + reason, reason, Prune(body))
  }

  // ------------------------------------------------------------ the path leads to the sentence

  lemma {:induction false} FirstFieldResolves(scope: Json, keys: seq<string>)
    requires FirstField(scope, keys).Some?
    ensures var m := FirstField(scope, keys).value;
            |m.path| == 1 && Get(scope, m.path[0]) == Some(Str(m.text)) && m.text != ""
  {
    if StrField(scope, keys[0]).None? {
      FirstFieldResolves(scope, keys[1..]);
    }
  }

  /** The earliest field name that holds a non-empty string wins, whatever the later ones hold. */
  lemma {:induction false} FirstFieldWins(scope: Json, keys: seq<string>, i: nat)
    requires i < |keys| && StrField(scope, keys[i]).Some?
    requires forall j :: 0 <= j < i ==> StrField(scope, keys[j]).None?
    ensures FirstField(scope, keys) == Some(Located(StrField(scope, keys[i]).value, [Key(keys[i])]))
  {
    if i > 0 {
      assert StrField(scope, keys[0]).None?;
      FirstFieldWins(scope, keys[1..], i - 1);
    }
  }

  lemma {:induction false} FirstEntryResolves(scope: Json, keys: seq<string>)
    requires FirstEntry(scope, keys).Some?
    ensures var (k, first) := FirstEntry(scope, keys).value;
            Resolve(scope, [Key(k), Index(0)]) == Some(first)
  {
    var (k, first) := FirstEntry(scope, keys).value;
    match Get(scope, Key(keys[0])) {
      case Some(Arr(items)) =>
        if items != [] {
          assert [Key(k), Index(0)][1..] == [Index(0)];
          assert Resolve(Arr(items), [Index(0)]) == Some(items[0]);
        } else {
          FirstEntryResolves(scope, keys[1..]);
        }
      case _ => FirstEntryResolves(scope, keys[1..]);
    }
  }

  lemma {:induction false} ResolveConcat(v: Json, p: seq<Seg>, q: seq<Seg>)
    requires Resolve(v, p).Some?
    ensures Resolve(v, p + q) == Resolve(Resolve(v, p).value, q)
  {
    if p == [] {
      assert p + q == q;
    } else {
      assert (p + q)[1..] == p[1..] + q;
      ResolveConcat(Get(v, p[0]).value, p[1..], q);
    }
  }

  /** The path found leads to the sentence found. */
  lemma {:induction false} MessageResolves(scope: Json)
    requires MessageFrom(scope).Some?
    ensures var m := MessageFrom(scope).value;
            m.path != [] && Resolve(scope, m.path) == Some(Str(m.text))
    decreases scope
  {
    if FirstField(scope, SENTENCES).Some? {
      FirstFieldResolves(scope, SENTENCES);
    } else {
      var (k, first) := FirstEntry(scope, LISTS).value;
      FirstEntryResolves(scope, LISTS);
      EntrySmaller(scope, LISTS);
      if !first.Str? {
        MessageResolves(first);
        ResolveConcat(scope, [Key(k), Index(0)], MessageFrom(first).value.path);
      }
    }
  }

  lemma ScopeResolves(body: Json)
    ensures Resolve(body, ScopePrefix(body)) == Some(Scope(body))
  {
  }

  // ------------------------------------------------------------ nothing else is lost

  lemma {:induction false} ItemsAppend(a: seq<Json>, b: seq<Json>)
    ensures ItemLeaves(a + b) == ItemLeaves(a) + ItemLeaves(b)
  {
    if b == [] {
      assert a + b == a;
    } else {
      assert (a + b)[..|a + b| - 1] == a + b[..|b| - 1];
      ItemsAppend(a, b[..|b| - 1]);
    }
  }

  lemma {:induction false} FieldsAppend(a: seq<Field>, b: seq<Field>)
    ensures FieldLeaves(a + b) == FieldLeaves(a) + FieldLeaves(b)
  {
    if b == [] {
      assert a + b == a;
    } else {
      assert (a + b)[..|a + b| - 1] == a + b[..|b| - 1];
      FieldsAppend(a, b[..|b| - 1]);
    }
  }

  lemma ItemsAround(a: seq<Json>, x: Json, b: seq<Json>)
    ensures ItemLeaves(a + [x] + b) == ItemLeaves(a + b) + Leaves(x)
  {
    assert ItemLeaves([x]) == Leaves(x);
    hide ItemLeaves, Leaves;
    ItemsAppend(a + [x], b);
    ItemsAppend(a, [x]);
    ItemsAppend(a, b);
  }

  lemma FieldsAround(a: seq<Field>, x: Field, b: seq<Field>)
    ensures FieldLeaves(a + [x] + b) == FieldLeaves(a + b) + Leaves(x.value)
  {
    assert FieldLeaves([x]) == Leaves(x.value);
    hide FieldLeaves, Leaves;
    FieldsAppend(a + [x], b);
    FieldsAppend(a, [x]);
    FieldsAppend(a, b);
  }

  lemma ItemsWithout(items: seq<Json>, i: nat)
    requires i < |items|
    ensures ItemLeaves(items) == ItemLeaves(Without(items, i)) + Leaves(items[i])
  {
    hide ItemLeaves, Leaves;
    ItemsAround(items[..i], items[i], items[i + 1..]);
    assert items == items[..i] + [items[i]] + items[i + 1..];
  }

  lemma FieldsWithout(fields: seq<Field>, i: nat)
    requires i < |fields|
    ensures FieldLeaves(fields) == FieldLeaves(Without(fields, i)) + Leaves(fields[i].value)
  {
    hide FieldLeaves, Leaves;
    FieldsAround(fields[..i], fields[i], fields[i + 1..]);
    assert fields == fields[..i] + [fields[i]] + fields[i + 1..];
  }

  lemma DeleteLeaves(v: Json, seg: Seg)
    requires Get(v, seg).Some?
    ensures Leaves(v) == Leaves(Delete(v, seg)) + Leaves(Get(v, seg).value)
  {
    hide ItemLeaves, FieldLeaves, Without, FieldAt;
    match (v, seg) {
      case (Obj(fields), Key(k)) => FieldsWithout(fields, FieldAt(fields, k).value);
      case (Arr(items), Index(i)) => ItemsWithout(items, i);
    }
  }

  lemma PutLeaves(v: Json, seg: Seg, w: Json)
    requires Get(v, seg).Some?
    ensures Leaves(Put(v, seg, w)) == Leaves(Delete(v, seg)) + Leaves(w)
  {
    match (v, seg) {
      case (Obj(fields), Key(k)) =>
        var i := FieldAt(fields, k).value;
        var after := fields[i := Field(k, w)];
        assert Without(after, i) == Without(fields, i);
        FieldsWithout(after, i);
      case (Arr(items), Index(i)) =>
        var after := items[i := w];
        assert Without(after, i) == Without(items, i);
        ItemsWithout(after, i);
    }
  }

  /** Removing a leaf by its path removes exactly that one. */
  lemma {:induction false} RemoveTakesLeaf(v: Json, path: seq<Seg>, leaf: Json)
    requires path != [] && Resolve(v, path) == Some(leaf)
    ensures Leaves(v) == Leaves(RemoveAt(v, path)) + Leaves(leaf)
    decreases |path|
  {
    DeleteLeaves(v, path[0]);
    if |path| > 1 {
      var next := Get(v, path[0]).value;
      RemoveTakesLeaf(next, path[1..], leaf);
      PutLeaves(v, path[0], RemoveAt(next, path[1..]));
    } else {
      assert path[1..] == [];
    }
  }

  /** Two paths that part before the last step of the first. */
  predicate Diverges(path: seq<Seg>, other: seq<Seg>, at: nat) {
    at + 1 < |path| && at < |other| && path[..at] == other[..at] && path[at] != other[at]
  }

  lemma {:induction false} FieldUpdated(fields: seq<Field>, i: nat, f: Field, k: string)
    requires i < |fields| && f.key == fields[i].key
    ensures FieldAt(fields[i := f], k) == FieldAt(fields, k)
  {
    if i > 0 {
      assert fields[i := f][1..] == fields[1..][i - 1 := f];
      FieldUpdated(fields[1..], i - 1, f, k);
    } else {
      assert fields[i := f][1..] == fields[1..];
    }
  }

  lemma PutElsewhere(v: Json, seg: Seg, w: Json, other: Seg)
    requires Get(v, seg).Some?
    ensures Get(Put(v, seg, w), other) == if other == seg then Some(w) else Get(v, other)
  {
    match (v, seg) {
      case (Obj(fields), Key(k)) =>
        if other.Key? {
          FieldUpdated(fields, FieldAt(fields, k).value, Field(k, w), other.key);
        }
      case (Arr(items), Index(i)) =>
    }
  }

  /** Removal is by path, not by value: whatever lies elsewhere stays where it was, even when it
      reads the same. */
  lemma {:induction false} RemoveElsewhere(v: Json, path: seq<Seg>, other: seq<Seg>, at: nat)
    requires Diverges(path, other, at)
    ensures Resolve(RemoveAt(v, path), other) == Resolve(v, other)
    decreases |path|
  {
    var next := Get(v, path[0]);
    if next.Some? {
      var w := RemoveAt(next.value, path[1..]);
      PutElsewhere(v, path[0], w, other[0]);
      if at > 0 {
        assert path[0] == path[..at][0] && other[0] == other[..at][0];
        assert path[1..][..at - 1] == path[..at][1..] && other[1..][..at - 1] == other[..at][1..];
        RemoveElsewhere(next.value, path[1..], other[1..], at - 1);
      }
    }
  }

  lemma {:induction false} SolidHasLeaf(v: Json)
    requires Solid(v)
    ensures Leaves(v) != multiset{}
    decreases v
  {
    match v {
      case Obj(fields) =>
        assert fields[|fields| - 1] in fields;
        SolidHasLeaf(fields[|fields| - 1].value);
      case Arr(items) =>
        assert items[|items| - 1] in items;
        SolidHasLeaf(items[|items| - 1]);
      case _ => assert v in Leaves(v);
    }
  }

  lemma {:induction false} PruneItemsKeeps(items: seq<Json>)
    ensures ItemLeaves(PruneItems(items)) == ItemLeaves(items)
    ensures forall w <- PruneItems(items) :: Solid(w)
    decreases items
  {
    if items != [] {
      var init, last := items[..|items| - 1], items[|items| - 1];
      PruneItemsKeeps(init);
      PruneKeeps(last);
      if Prune(last).Some? {
        assert PruneItems(items)[..|PruneItems(items)| - 1] == PruneItems(init);
      }
    }
  }

  lemma {:induction false} PruneFieldsKeeps(fields: seq<Field>)
    ensures FieldLeaves(PruneFields(fields)) == FieldLeaves(fields)
    ensures forall f <- PruneFields(fields) :: Solid(f.value)
    decreases fields
  {
    if fields != [] {
      var init, last := fields[..|fields| - 1], fields[|fields| - 1];
      PruneFieldsKeeps(init);
      PruneKeeps(last.value);
      if Prune(last.value).Some? {
        assert PruneFields(fields)[..|PruneFields(fields)| - 1] == PruneFields(init);
      }
    }
  }

  /** Pruning keeps every leaf, leaves no empty container, and gives nothing exactly when there was
      no leaf. */
  lemma {:induction false} PruneKeeps(v: Json)
    ensures Prune(v).Some? ==> Leaves(Prune(v).value) == Leaves(v) && Solid(Prune(v).value)
    ensures Prune(v).None? <==> Leaves(v) == multiset{}
    decreases v
  {
    match v {
      case Obj(fields) => PruneFieldsKeeps(fields);
      case Arr(items) => PruneItemsKeeps(items);
      case _ => assert v in Leaves(v);
    }
    if Prune(v).Some? {
      SolidHasLeaf(Prune(v).value);
    }
  }

  ghost function DetailLeaves(e: ApiError): multiset<Json> {
    if e.details.Some? then Leaves(e.details.value) else multiset{}
  }

  /** For every body but a bare sentence: if a sentence is lifted, its path leads to it, and the details
      with that sentence are the leaves of the body, no more and no fewer; if none is, the details
      are the body's leaves. Details hold no empty container and are absent only when nothing is left. */
  lemma LeavesConserved(code: nat, status: string, digits: string, body: Json)
    requires !(body.Str? && Trim(body.s) != "")
    ensures var e := FromBody(code, status, digits, body);
            && e.code == code
            && (e.details.Some? ==> Solid(e.details.value))
            && (e.details.None? <==> DetailLeaves(e) == multiset{})
            && match MessageFrom(Scope(body))
               case Some(m) =>
                 && Resolve(body, ScopePrefix(body) + m.path) == Some(Str(e.message))
                 && DetailLeaves(e) + multiset{Str(e.message)} == Leaves(body)
               case None => DetailLeaves(e) == Leaves(body)
  {
    match MessageFrom(Scope(body)) {
      case Some(m) =>
        var path := ScopePrefix(body) + m.path;
        ScopeResolves(body);
        MessageResolves(Scope(body));
        ResolveConcat(body, ScopePrefix(body), m.path);
        RemoveTakesLeaf(body, path, Str(m.text));
        PruneKeeps(RemoveAt(body, path));
      case None => PruneKeeps(body);
    }
  }

  predicate Blank(s: string) {
    forall c <- s :: IsSpace(c)
  }

  lemma {:induction false} TrimStartAt(s: string) returns (i: nat)
    ensures i <= |s| && TrimStart(s) == s[i..] && Blank(s[..i]) && (i < |s| ==> !IsSpace(s[i]))
  {
    if s != "" && IsSpace(s[0]) {
      i := TrimStartAt(s[1..]);
      assert s[..i + 1] == [s[0]] + s[1..][..i];
      assert s[i + 1..] == s[1..][i..];
      i := i + 1;
    } else {
      i := 0;
    }
  }

  lemma {:induction false} TrimEndAt(s: string) returns (j: nat)
    ensures j <= |s| && TrimEnd(s) == s[..j] && Blank(s[j..]) && (j > 0 ==> !IsSpace(s[j - 1]))
  {
    if s != "" && IsSpace(s[|s| - 1]) {
      var init := s[..|s| - 1];
      j := TrimEndAt(init);
      assert s[j..] == init[j..] + [s[|s| - 1]];
      assert s[..j] == init[..j];
    } else {
      j := |s|;
    }
  }

  /** Trimming takes blanks off both ends and nothing else. */
  lemma TrimEnds(s: string) returns (i: nat, j: nat)
    ensures i <= j <= |s| && Trim(s) == s[i..j] && Blank(s[..i]) && Blank(s[j..])
    ensures i < j ==> !IsSpace(s[i]) && !IsSpace(s[j - 1])
  {
    i := TrimStartAt(s);
    var rest := s[i..];
    j := TrimEndAt(rest);
    assert rest[..j] == s[i..i + j] && rest[j..] == s[i + j..];
    j := i + j;
  }

  lemma BlankJoin(s: string, i: nat)
    requires i <= |s|
    ensures Blank(s[..i]) && Blank(s[i..]) ==> Blank(s)
  {
    assert s == s[..i] + s[i..];
  }

  /** A body that is one nonblank string is the sentence, without surrounding space and without details. */
  lemma BareSentence(code: nat, status: string, digits: string, text: string) returns (i: nat, j: nat)
    requires !Blank(text)
    ensures i < j <= |text| && Blank(text[..i]) && Blank(text[j..]) && !IsSpace(text[i]) && !IsSpace(text[j - 1])
    ensures FromBody(code, status, digits, Str(text)) == ApiError(code, text[i..j], status, None)
  {
    i, j := TrimEnds(text);
    BlankJoin(text, i);
  }

  lemma {:induction false} OnlyObjects(scope: Json, keys: seq<string>)
    requires !scope.Obj?
    ensures FirstField(scope, keys).None? && FirstEntry(scope, keys).None?
  {
    if keys != [] {
      OnlyObjects(scope, keys[1..]);
    }
  }

  /** A body that is one blank string says nothing, and is kept as it is. */
  lemma BlankKept(code: nat, status: string, digits: string, text: string)
    requires Blank(text)
    ensures FromBody(code, status, digits, Str(text)) ==
            ApiError(code, "HTTP " + digits + " " + status, status, Some(Str(text)))
  {
    var i, j := TrimEnds(text);
    OnlyObjects(Str(text), SENTENCES);
    OnlyObjects(Str(text), LISTS);
    OnlyObjects(Str(text), ["reason", "code", "type"]);
  }
}
