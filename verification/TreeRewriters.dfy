/** The backend writers' rewriting of a search request, in place on the copy they make of it. */
module TreeRewriters {
  import opened Json
  import opened JsonTree
  import opened SearchQuery
  import opened SearchTranslators
  import opened Wrappers

  // ---------------------------------------------------------------- OpenSearch

  ghost function WithoutCandidates(j: Json): Json {
    if j.JObj? then JObj(j.fields - {"num_candidates"}) else j
  }

  /** A kNN clause after the removals made on its bodies. */
  ghost function Popped(clause: Json): Json {
    if clause.JObj? then JObj(map k | k in clause.fields :: WithoutCandidates(clause.fields[k])) else clause
  }

  /** Removing from the bodies first and walking on is stripping the clause. */
  lemma PoppedThenStripped(clause: Json)
    ensures StripIn(Popped(clause), false, false) == StripIn(clause, false, true)
  {
    if clause.JObj? {
      var a, b := StripIn(Popped(clause), false, false), StripIn(clause, false, true);
      forall k | k in clause.fields
        ensures a.fields[k] == b.fields[k]
      {
        BodyStripped(clause.fields[k], k == "knn");
      }
      assert a.fields == b.fields;
    }
  }

  lemma BodyStripped(body: Json, clause: bool)
    ensures StripIn(WithoutCandidates(body), false, clause) == StripIn(body, true, clause)
  {
    if body.JObj? {
      assert StripIn(WithoutCandidates(body), false, clause).fields == StripIn(body, true, clause).fields;
    }
  }

  lemma StripOfDict(j: Json)
    requires j.JObj?
    ensures Strip(j).JObj? && Strip(j).fields.Keys == j.fields.Keys
    ensures forall k | k in j.fields :: Strip(j).fields[k] == StripIn(j.fields[k], false, k == "knn")
  {
  }

  lemma StripOfList(j: Json)
    requires j.JArr?
    ensures Strip(j).JArr? && |Strip(j).items| == |j.items|
    ensures forall i | 0 <= i < |j.items| :: Strip(j).items[i] == Strip(j.items[i])
  {
  }

  lemma ClauseFlagOnPlain(j: Json, clause: bool)
    ensures !j.JObj? || !clause ==> StripIn(j, false, clause) == Strip(j)
  {
  }

  method PopCandidates(body: Val, ghost s: Shape, ghost j: Json)
    requires Shows(body, s, j) && Apart(s)
    modifies Nodes(s)
    ensures Shows(body, s, WithoutCandidates(j))
  {
    if body.Ref? {
      body.node.fields := body.node.fields - {"num_candidates"};
    }
  }

  method PopBodies(clause: DictNode, ghost s: Shape, ghost j: Json)
    requires s.DictShape? && Shows(Ref(clause), s, j) && Apart(s)
    modifies Nodes(s)
    ensures Shows(Ref(clause), s, Popped(j))
  {
    hide *;
    OpenDict(clause, s, j);
    PoppedFields(j);
    ghost var after := Popped(j).fields;
    ghost var fields := clause.fields;
    var rest := clause.fields.Keys;
    ghost var keys := fields.Keys;
    NoKeys(fields, s.kids, after);
    DoneEnds(keys);
    while rest != {}
      invariant rest <= keys && clause.fields == fields
      invariant ShowsKeys(fields, s.kids, j.fields, rest)
      invariant ShowsKeys(fields, s.kids, after, Done(keys, rest))
      decreases |rest|
    {
      var k :| k in rest;
      DoneStep(keys, rest, k);
      TakeKey(fields, s, j.fields, rest, Done(keys, rest), k);
      assert allocated(KidNodes(s.kids, rest - {k})) && allocated(KidNodes(s.kids, Done(keys, rest)));
      PopCandidates(clause.fields[k], s.kids[k], j.fields[k]);
      AddKey(fields, s.kids, after, Done(keys, rest), k);
      rest := rest - {k};
    }
    CloseDict(clause, s, Popped(j));
  }

  lemma PoppedFields(j: Json)
    requires j.JObj?
    ensures Popped(j).JObj? && Popped(j).fields.Keys == j.fields.Keys
    ensures forall k | k in j.fields :: Popped(j).fields[k] == WithoutCandidates(j.fields[k])
  {
  }

  /** `_strip_num_candidates_from_knn`: afterwards the same tree reads as its stripping. */
  method StripNumCandidatesFromKnn(v: Val, ghost s: Shape, ghost j: Json)
    requires Shows(v, s, j) && Apart(s)
    modifies Nodes(s)
    ensures Shows(v, s, Strip(j))
    decreases s, 2
  {
    match v {
      case Plain(_) =>
      case ListOf(items) => StripItems(items, s, j);
      case Ref(node) => StripFields(node, s, j);
    }
  }

  method StripItems(items: seq<Val>, ghost s: Shape, ghost j: Json)
    requires s.ListShape? && Shows(ListOf(items), s, j) && Apart(s)
    modifies Nodes(s)
    ensures Shows(ListOf(items), s, Strip(j))
    decreases s, 1
  {
    hide *;
    OpenList(items, s, j);
    StripOfList(j);
    ghost var after := Strip(j).items;
    NoItems(items, s.parts, after);
    for i := 0 to |items|
      invariant ShowsRange(items, s.parts, j.items, i, |items|)
      invariant ShowsRange(items, s.parts, after, 0, i)
    {
      StripItem(items, s, j.items, after, i);
    }
    CloseList(items, s, Strip(j));
  }

  /** One turn of the loop over a list. */
  method StripItem(items: seq<Val>, ghost s: Shape, ghost js: seq<Json>, ghost after: seq<Json>, i: nat)
    requires s.ListShape? && Apart(s) && i < |items| == |js| == |after| && after[i] == Strip(js[i])
    requires ShowsRange(items, s.parts, js, i, |items|) && ShowsRange(items, s.parts, after, 0, i)
    modifies Nodes(s)
    ensures ShowsRange(items, s.parts, js, i + 1, |items|) && ShowsRange(items, s.parts, after, 0, i + 1)
    decreases s, 0
  {
    hide *;
    TakeFirst(items, s, js, i);
    assert allocated(RangeNodes(s.parts, 0, i)) && allocated(RangeNodes(s.parts, i + 1, |items|));
    StripNumCandidatesFromKnn(items[i], s.parts[i], js[i]);
    AddLast(items, s.parts, after, i);
  }

  method StripFields(node: DictNode, ghost s: Shape, ghost j: Json)
    requires s.DictShape? && Shows(Ref(node), s, j) && Apart(s)
    modifies Nodes(s)
    ensures Shows(Ref(node), s, Strip(j))
    decreases s, 1
  {
    hide *;
    OpenDict(node, s, j);
    StripOfDict(j);
    ghost var after := Strip(j).fields;
    ghost var fields := node.fields;
    var rest := node.fields.Keys;
    ghost var keys := fields.Keys;
    NoKeys(fields, s.kids, after);
    DoneEnds(keys);
    while rest != {}
      invariant rest <= keys && node.fields == fields
      invariant ShowsKeys(fields, s.kids, j.fields, rest)
      invariant ShowsKeys(fields, s.kids, after, Done(keys, rest))
      decreases |rest|
    {
      var k :| k in rest;
      DoneStep(keys, rest, k);
      StripField(node, s, j.fields, after, rest, Done(keys, rest), k);
      rest := rest - {k};
    }
    CloseDict(node, s, Strip(j));
  }

  /** One turn of the loop over a dictionary. */
  method StripField(node: DictNode, ghost s: Shape, ghost js: Dict, ghost after: Dict, ghost rest: set<string>, ghost done: set<string>, k: string)
    requires s.DictShape? && s.node == node && Apart(s) && k in rest && k !in done && k in node.fields
    requires k in js && k in after && after[k] == StripIn(js[k], false, k == "knn")
    requires ShowsKeys(node.fields, s.kids, js, rest) && ShowsKeys(node.fields, s.kids, after, done)
    modifies Nodes(s)
    ensures node.fields == old(node.fields)
    ensures ShowsKeys(node.fields, s.kids, js, rest - {k}) && ShowsKeys(node.fields, s.kids, after, done + {k})
    decreases s, 0
  {
    hide *;
    TakeKey(node.fields, s, js, rest, done, k);
    assert allocated(KidNodes(s.kids, rest - {k})) && allocated(KidNodes(s.kids, done));
    StripEntry(k, node.fields[k], s.kids[k], js[k]);
    AddKey(node.fields, s.kids, after, done, k);
  }

  /** The value of one key: the removals from the bodies of a clause, and then the walk into it. */
  method StripEntry(key: string, value: Val, ghost s: Shape, ghost j: Json)
    requires Shows(value, s, j) && Apart(s)
    modifies Nodes(s)
    ensures Shows(value, s, StripIn(j, false, key == "knn"))
    decreases s, 3
  {
    hide Shows, Nodes, Apart, StripIn, Popped;
    RefIsObject(value, s, j);
    ghost var now := j;
    if key == "knn" && value.Ref? {
      PopBodies(value.node, s, j);
      PoppedThenStripped(j);
      now := Popped(j);
    } else {
      ClauseFlagOnPlain(j, key == "knn");
    }
    StripNumCandidatesFromKnn(value, s, now);
  }

  lemma RefIsObject(v: Val, s: Shape, j: Json)
    requires Shows(v, s, j)
    ensures v.Ref? <==> j.JObj?
    ensures v.Ref? <==> s.DictShape?
  {
  }

  /** `OpenSearchWriter._prepare_search_dsl`: a stripped copy; the caller's tree is not written to. */
  method PrepareOpenSearchDsl(dsl: Val, ghost s: Shape, ghost j: Json) returns (prepared: Val, ghost t: Shape)
    requires Shows(dsl, s, j) && Apart(s)
    ensures Shows(prepared, t, Strip(j)) && fresh(Nodes(t))
    ensures Shows(dsl, s, j)
  {
    hide Shows, Nodes, Apart, StripIn, Strip;
    assert allocated(Nodes(s));
    prepared, t := DeepCopy(dsl, s, j);
    StripNumCandidatesFromKnn(prepared, t, j);
  }

  // ---------------------------------------------------------------- Elasticsearch

  /** What the rewriting makes of the value of a key. */
  ghost function RewriteAt(key: string, j: Json): Json {
    if Convertible(key, j) then JObj(ConvertKnn(j.fields, false).value) else Rewrite(j)
  }

  /** A new dictionary over children taken from one tree is a tree. */
  lemma PickedApart(node: DictNode, kids: map<string, Shape>, s: Shape, origin: map<string, string>)
    requires s.DictShape? && Apart(s) && node !in Nodes(s)
    requires forall k | k in kids :: kids[k] == Leaf || (k in origin && origin[k] in s.kids && kids[k] == s.kids[origin[k]])
    requires forall k, l | k in origin && l in origin && k != l :: origin[k] != origin[l]
    ensures Apart(DictShape(node, kids)) && Nodes(DictShape(node, kids)) <= {node} + Nodes(s)
  {
  }

  /** The entries of a converted clause, under the keys of the body they come from. */
  ghost function Picked(j: Dict, includeK: bool): (origin: map<string, string>)
    ensures forall k, l | k in origin && l in origin && k != l :: origin[k] != origin[l]
  {
    var all := map["query_vector" := "vector", "k" := "k", "num_candidates" := "num_candidates"];
    map k | k in all && all[k] in j && (k == "k" ==> includeK) :: all[k]
  }

  lemma PickedKeys(j: Dict, includeK: bool)
    ensures forall k :: k in Picked(j, includeK) <==>
                        (k == "query_vector" && "vector" in j) || (k == "k" && "k" in j && includeK) || (k == "num_candidates" && k in j)
    ensures forall k | k in Picked(j, includeK) :: Picked(j, includeK)[k] == if k == "query_vector" then "vector" else k
  {
  }

  ghost function BuiltClause(field: string, j: Dict, includeK: bool): Dict
    requires "vector" in j
  {
    var c0: Dict := map["field" := JStr(field), "query_vector" := j["vector"]];
    var c1 := if includeK && "k" in j then c0["k" := j["k"]] else c0;
    if "num_candidates" in j then c1["num_candidates" := j["num_candidates"]] else c1
  }

  method PickEntries(field: string, body: map<string, Val>, includeK: bool, ghost j: Dict) returns (c: map<string, Val>)
    requires "vector" in body && body.Keys == j.Keys
    ensures c.Keys == Picked(j, includeK).Keys + {"field"} && c["field"] == Plain(JStr(field))
    ensures forall k | k in Picked(j, includeK) :: Picked(j, includeK)[k] in body && c[k] == body[Picked(j, includeK)[k]]
  {
    hide Picked;
    PickedKeys(j, includeK);
    c := map["field" := Plain(JStr(field)), "query_vector" := body["vector"]];
    if includeK && "k" in body {
      c := c["k" := body["k"]];
    }
    if "num_candidates" in body {
      c := c["num_candidates" := body["num_candidates"]];
    }
  }

  /** The body's vector and settings, put together as a new dictionary; what they hold is shared. */
  method BuildClause(field: string, body: DictNode, includeK: bool, ghost s: Shape, ghost j: Json) returns (r: Val, ghost t: Shape)
    requires s.DictShape? && Shows(Ref(body), s, j) && Apart(s)
    requires "vector" in body.fields && j.JObj?
    ensures Shows(r, t, JObj(BuiltClause(field, j.fields, includeK)))
    ensures Apart(t) && (forall n <- Nodes(t) :: n in Nodes(s) || fresh(n))
  {
    hide Shows, ShowsKeys, KidNodes, Nodes, Apart, BuiltClause, Picked;
    OpenDict(body, s, j);
    PickedKeys(j.fields, includeK);
    assert allocated(KidNodes(s.kids, body.fields.Keys));
    var c := PickEntries(field, body.fields, includeK, j.fields);
    ghost var origin := Picked(j.fields, includeK);
    ghost var kids := map k | k in c :: if k in origin then s.kids[origin[k]] else Leaf;
    BuiltShows(c, kids, body.fields, s, j, field, includeK);
    assert allocated(Nodes(s)) && allocated(KidNodes(kids, c.Keys));
    var node := new DictNode(c);
    PickedApart(node, kids, s, origin);
    t := DictShape(node, kids);
    CloseDict(node, t, JObj(BuiltClause(field, j.fields, includeK)));
    return Ref(node), t;
  }

  lemma BuiltPicks(field: string, j: Dict, includeK: bool)
    requires "vector" in j
    ensures var built, origin := BuiltClause(field, j, includeK), Picked(j, includeK);
            && built.Keys == origin.Keys + {"field"} && built["field"] == JStr(field)
            && forall k | k in origin :: origin[k] in j && built[k] == j[origin[k]]
    ensures "field" !in Picked(j, includeK)
  {
  }

  lemma BuiltShows(c: map<string, Val>, kids: map<string, Shape>, fields: map<string, Val>, s: Shape, j: Json, field: string, includeK: bool)
    requires s.DictShape? && j.JObj? && "vector" in fields && fields.Keys == j.fields.Keys
    requires ShowsKeys(fields, s.kids, j.fields, fields.Keys)
    requires c.Keys == Picked(j.fields, includeK).Keys + {"field"} && c["field"] == Plain(JStr(field))
    requires forall k | k in Picked(j.fields, includeK) :: Picked(j.fields, includeK)[k] in fields && c[k] == fields[Picked(j.fields, includeK)[k]]
    requires kids.Keys == c.Keys && kids["field"] == Leaf
    requires forall k | k in Picked(j.fields, includeK) ::
               Picked(j.fields, includeK)[k] in s.kids && kids[k] == s.kids[Picked(j.fields, includeK)[k]]
    ensures ShowsKeys(c, kids, BuiltClause(field, j.fields, includeK), c.Keys)
    ensures c.Keys == BuiltClause(field, j.fields, includeK).Keys
  {
    hide Shows, Nodes, KidNodes, Picked, BuiltClause;
    BuiltPicks(field, j.fields, includeK);
    PlainShows(field);
  }

  lemma PlainShows(text: string)
    ensures Shows(Plain(JStr(text)), Leaf, JStr(text))
  {
  }

  /** `_convert_knn_clause`. */
  method ConvertKnnClause(clause: DictNode, includeK: bool, ghost s: Shape, ghost j: Json) returns (r: Option<Val>, ghost t: Shape)
    requires s.DictShape? && Shows(Ref(clause), s, j) && Apart(s)
    ensures j.JObj? && (r.Some? <==> ConvertKnn(j.fields, includeK).Some?)
    ensures r.Some? ==> Shows(r.value, t, JObj(ConvertKnn(j.fields, includeK).value)) && Apart(t) && (forall n <- Nodes(t) :: n in Nodes(s) || fresh(n))
  {
    hide Shows, Nodes, Apart, ShowsKeys, KidNodes;
    t := s;
    var fields := clause.fields;
    OpenDict(clause, s, j);
    assert |fields| == |fields.Keys| == |j.fields.Keys| == |j.fields|;
    if |fields| != 1 {
      return None, t;
    }
    SoleKeyUnique(j.fields);
    var field :| field in fields;
    assert field == SoleKey(j.fields);
    TakeKey(fields, s, j.fields, fields.Keys, {}, field);
    var body := fields[field];
    ghost var jb := j.fields[field];
    ghost var sb := s.kids[field];
    RefIsObject(body, sb, jb);
    if !body.Ref? {
      return None, t;
    }
    OpenDict(body.node, sb, jb);
    if "vector" !in body.node.fields {
      return None, t;
    }
    TakeKey(body.node.fields, sb, jb.fields, body.node.fields.Keys, {}, "vector");
    PlainIsItself(body.node.fields["vector"], sb.kids["vector"], jb.fields["vector"]);
    if body.node.fields["vector"] == Plain(JNull) {
      return None, t;
    }
    var built;
    built, t := BuildClause(field, body.node, includeK, sb, jb);
    return Some(built), t;
  }

  lemma PlainIsItself(v: Val, s: Shape, j: Json)
    requires Shows(v, s, j)
    ensures v == Plain(JNull) <==> j == JNull
  {
  }

  lemma RewriteOfDict(j: Json)
    requires j.JObj?
    ensures Rewrite(j).JObj? && Rewrite(j).fields.Keys == j.fields.Keys
    ensures forall k | k in j.fields :: Rewrite(j).fields[k] == RewriteAt(k, j.fields[k])
  {
  }

  lemma RewriteOfList(j: Json)
    requires j.JArr?
    ensures Rewrite(j).JArr? && |Rewrite(j).items| == |j.items|
    ensures forall i | 0 <= i < |j.items| :: Rewrite(j).items[i] == Rewrite(j.items[i])
  {
  }

  /** `_rewrite_knn_clauses` below the top level; `t` is the layout of the tree afterwards. */
  method RewriteKnnClauses(v: Val, ghost s: Shape, ghost j: Json) returns (ghost t: Shape)
    requires Shows(v, s, j) && Apart(s)
    modifies Nodes(s)
    ensures Shows(v, t, Rewrite(j)) && Apart(t) && (forall n <- Nodes(t) :: n in Nodes(s) || fresh(n))
    decreases s, 2
  {
    t := s;
    match v {
      case Plain(_) =>
      case ListOf(items) => t := RewriteItems(items, s, j);
      case Ref(node) => t := RewriteFields(node, s, j);
    }
  }

  method RewriteItems(items: seq<Val>, ghost s: Shape, ghost j: Json) returns (ghost t: Shape)
    requires s.ListShape? && Shows(ListOf(items), s, j) && Apart(s)
    modifies Nodes(s)
    ensures Shows(ListOf(items), t, Rewrite(j)) && Apart(t) && (forall n <- Nodes(t) :: n in Nodes(s) || fresh(n))
    decreases s, 1
  {
    hide *;
    OpenList(items, s, j);
    RewriteOfList(j);
    ghost var after := Rewrite(j).items;
    t := s;
    NoItems(items, s.parts, after);
    for i := 0 to |items|
      invariant t.ListShape? && Apart(t) && |t.parts| == |items| && t.parts[i..] == s.parts[i..]
      invariant forall n <- Nodes(t) :: n in Nodes(s) || fresh(n)
      invariant ShowsRange(items, t.parts, j.items, i, |items|)
      invariant ShowsRange(items, t.parts, after, 0, i)
    {
      assert t.parts[i] == t.parts[i..][0] == s.parts[i];
      assert t.parts[i + 1..] == t.parts[i..][1..] == s.parts[i + 1..];
      PartWithin(s, i);
      t := RewriteItem(items, s, t, j.items, after, i);
    }
    CloseList(items, t, Rewrite(j));
  }

  /** One turn of the loop over a list. */
  method RewriteItem(items: seq<Val>, ghost s: Shape, ghost t: Shape, ghost js: seq<Json>, ghost after: seq<Json>, i: nat)
    returns (ghost u: Shape)
    requires s.ListShape? && t.ListShape? && Apart(t) && i < |items| == |js| == |after| == |t.parts| == |s.parts|
    requires t.parts[i] == s.parts[i] && after[i] == Rewrite(js[i])
    requires ShowsRange(items, t.parts, js, i, |items|) && ShowsRange(items, t.parts, after, 0, i)
    modifies Nodes(t.parts[i])
    ensures u.ListShape? && |u.parts| == |t.parts| && u.parts[i + 1..] == t.parts[i + 1..]
    ensures Apart(u) && (forall n <- Nodes(u) :: n in Nodes(t) || fresh(n))
    ensures ShowsRange(items, u.parts, js, i + 1, |items|) && ShowsRange(items, u.parts, after, 0, i + 1)
    decreases s, 0
  {
    hide *;
    TakeFirst(items, t, js, i);
    assert allocated(RangeNodes(t.parts, 0, i)) && allocated(RangeNodes(t.parts, i + 1, |items|)) && allocated(Nodes(t));
    ghost var part := RewriteKnnClauses(items[i], t.parts[i], js[i]);
    u := ListShape(t.parts[i := part]);
    ReplacePart(items, t, js, after, i, part);
  }

  /** The dictionary while its keys are being rewritten: `rest` still reads as before, the others as after. */
  ghost predicate Halfway(node: DictNode, s: Shape, t: Shape, js: Dict, after: Dict, rest: set<string>)
    reads node, Nodes(t)
  {
    && s.DictShape? && t.DictShape? && s.node == t.node == node && Apart(t) && t.kids.Keys == s.kids.Keys
    && node.fields.Keys == js.Keys == after.Keys <= s.kids.Keys && rest <= js.Keys
    && (forall k | k in rest :: t.kids[k] == s.kids[k])
    && (forall keys :: KidNodes(t.kids, keys) <= Nodes(t))
    && ShowsKeys(node.fields, t.kids, js, rest) && ShowsKeys(node.fields, t.kids, after, Done(js.Keys, rest))
  }

  lemma StartHalfway(node: DictNode, s: Shape, j: Json, after: Dict)
    requires s.DictShape? && Shows(Ref(node), s, j) && Apart(s) && after.Keys == j.fields.Keys
    ensures j.JObj? && node in Nodes(s) && Halfway(node, s, s, j.fields, after, node.fields.Keys)
  {
    OpenDict(node, s, j);
    NoKeys(node.fields, s.kids, after);
    DoneEnds(node.fields.Keys);
  }

  lemma EndHalfway(node: DictNode, s: Shape, t: Shape, j: Json, js: Dict)
    requires j.JObj? && Halfway(node, s, t, js, j.fields, {})
    ensures t.DictShape? && Shows(Ref(node), t, j) && Apart(t)
  {
    DoneEnds(js.Keys);
    CloseDict(node, t, j);
  }

  method RewriteFields(node: DictNode, ghost s: Shape, ghost j: Json) returns (ghost t: Shape)
    requires s.DictShape? && Shows(Ref(node), s, j) && Apart(s)
    modifies Nodes(s)
    ensures Shows(Ref(node), t, Rewrite(j)) && Apart(t) && (forall n <- Nodes(t) :: n in Nodes(s) || fresh(n))
    ensures t.DictShape?
    decreases s, 1
  {
    hide *;
    OpenDict(node, s, j);
    RewriteOfDict(j);
    ghost var after := Rewrite(j).fields;
    StartHalfway(node, s, j, after);
    var rest := node.fields.Keys;
    t := s;
    while rest != {}
      invariant Halfway(node, s, t, j.fields, after, rest)
      invariant forall n <- Nodes(t) :: n in Nodes(s) || fresh(n)
      decreases |rest|
    {
      var k :| k in rest;
      t := RewriteField(node, s, t, j.fields, after, rest, k);
      rest := rest - {k};
    }
    EndHalfway(node, s, t, Rewrite(j), j.fields);
  }

  /** One turn of the loop over a dictionary: the entry is replaced by its conversion, or walked into. */
  method RewriteField(node: DictNode, ghost s: Shape, ghost t: Shape, ghost js: Dict, ghost after: Dict, ghost rest: set<string>, k: string)
    returns (ghost u: Shape)
    requires Halfway(node, s, t, js, after, rest) && k in rest && node in Nodes(s)
    requires forall l | l in js && l in after :: after[l] == RewriteAt(l, js[l])
    modifies Nodes(s)
    ensures Halfway(node, s, u, js, after, rest - {k}) && (forall n <- Nodes(u) :: n in Nodes(t) || fresh(n))
    decreases s, 0
  {
    hide Shows, Nodes, Apart, ShowsKeys, KidNodes, Done, RewriteAt;
    ghost var done := Done(js.Keys, rest);
    DoneStep(js.Keys, rest, k);
    TakeKey(node.fields, t, js, rest, done, k);
    KidWithin(s, k);
    assert allocated(KidNodes(t.kids, rest - {k})) && allocated(KidNodes(t.kids, done)) && allocated(Nodes(t));
    var converted;
    ghost var kid;
    converted, kid := RewriteEntry(k, node.fields[k], t.kids[k], js[k]);
    u := t.(kids := t.kids[k := kid]);
    ghost var value := if converted.Some? then converted.value else node.fields[k];
    ReplaceKid(node.fields, t, js, after, rest - {k}, done, k, value, kid);
    ghost var fields := node.fields[k := value];
    if converted.Some? {
      node.fields := node.fields[k := converted.value];
    }
    assert node.fields == fields;
    KidsWithin(u);
  }

  /** The value of one key: its conversion if it is a clause, else the value itself, walked into. */
  method RewriteEntry(key: string, value: Val, ghost s: Shape, ghost j: Json) returns (converted: Option<Val>, ghost t: Shape)
    requires Shows(value, s, j) && Apart(s)
    modifies Nodes(s)
    ensures Shows(if converted.Some? then converted.value else value, t, RewriteAt(key, j)) && Apart(t) && (forall n <- Nodes(t) :: n in Nodes(s) || fresh(n))
    decreases s, 3
  {
    hide Shows, Nodes, Apart, Rewrite, ConvertKnn;
    RefIsObject(value, s, j);
    converted, t := None, s;
    assert allocated(Nodes(s));
    if key == "knn" && value.Ref? {
      converted, t := ConvertKnnClause(value.node, false, s, j);
      if converted.None? {
        t := RewriteKnnClauses(value, s, j);
      }
    } else {
      t := RewriteKnnClauses(value, s, j);
    }
  }

  /** What the top level does with the value of a sole "knn" key: converted, left alone, or an exception. */
  method ConvertTopLevel(value: Val, ghost s: Shape, ghost j: Json) returns (r: Result<Option<Val>, string>, ghost t: Shape)
    requires Shows(value, s, j) && Apart(s)
    ensures r.Success? <==> ConvertTop(j).Success?
    ensures r.Success? ==> (r.value.Some? <==> ConvertTop(j).value.Some?)
    ensures r.Failure? ==> r == Failure(ConvertTop(j).error)
    ensures r.Success? && r.value.Some? ==>
              Shows(r.value.value, t, JObj(ConvertTop(j).value.value)) && Apart(t) && (forall n <- Nodes(t) :: n in Nodes(s) || fresh(n))
  {
    t := s;
    match value {
      case Ref(node) =>
        var converted;
        converted, t := ConvertKnnClause(node, true, s, j);
        return Success(converted), t;
      case ListOf(items) =>
        return if |items| == 1 then Failure("AttributeError") else Success(None), t;
      case Plain(j) =>
        return if !j.JStr? then Failure("TypeError") else if |j.s| == 1 then Failure("AttributeError") else Success(None), t;
    }
  }

  /** The query gives way to a clause built from what was below it. */
  lemma QueryReplaced(dsl: DictNode, s: Shape, j: Json, v: Val, kid: Shape, c: Dict)
    requires s.DictShape? && Shows(Ref(dsl), s, j) && Apart(s) && j.JObj? && "query" in dsl.fields && "query" in s.kids
    requires Shows(v, kid, JObj(c)) && Apart(kid) && (Nodes(kid) - Nodes(s.kids["query"])) !! Nodes(s)
    ensures var fields, kids, after := dsl.fields["knn" := v] - {"query"}, s.kids["knn" := kid] - {"query"}, j.fields["knn" := JObj(c)] - {"query"};
            && ShowsKeys(fields, kids, after, fields.Keys) && fields.Keys == after.Keys <= kids.Keys
            && Apart(DictShape(dsl, kids)) && Nodes(DictShape(dsl, kids)) <= Nodes(s) + Nodes(kid)
            && dsl !in KidNodes(kids, fields.Keys)
  {
    OpenDict(dsl, s, j);
    hide Shows;
    var kids := s.kids["knn" := kid] - {"query"};
    assert forall l | l in s.kids :: Nodes(s.kids[l]) <= Nodes(s);
    assert dsl !in Nodes(s.kids["query"]) && dsl !in Nodes(kid);
    forall l | l in kids && l != "knn"
      ensures Nodes(kid) !! Nodes(kids[l])
    {
      assert Nodes(s.kids["query"]) !! Nodes(s.kids[l]);
    }
    assert Apart(DictShape(dsl, kids));
  }

  lemma QueryOf(dsl: DictNode, s: Shape, j: Json)
    requires s.DictShape? && Shows(Ref(dsl), s, j) && Apart(s) && "query" in dsl.fields
    ensures j.JObj? && "query" in j.fields && "query" in s.kids
    ensures var query, sq, jq := dsl.fields["query"], s.kids["query"], j.fields["query"];
            && Shows(query, sq, jq) && Nodes(sq) <= Nodes(s) && Apart(sq)
            && (query.Ref? <==> jq.JObj?)
            && (query.Ref? && query.node.fields.Keys == {"knn"} <==> SoleKnn(j.fields))
            && (SoleKnn(j.fields) ==>
                  && sq.DictShape? && "knn" in sq.kids && Nodes(sq.kids["knn"]) <= Nodes(sq) && Apart(sq.kids["knn"])
                  && Shows(query.node.fields["knn"], sq.kids["knn"], jq.fields["knn"]))
  {
  }

  /** `_rewrite_knn_clauses` with `top_level` set: a query that is just one clause moves up to the top. */
  method RewriteTopLevel(dsl: DictNode, ghost s: Shape, ghost j: Json) returns (r: Result<(), string>, ghost t: Shape)
    requires s.DictShape? && Shows(Ref(dsl), s, j) && Apart(s)
    modifies Nodes(s)
    ensures j.JObj? && (r.Success? <==> PrepareElasticsearch(j.fields).Success?)
    ensures r.Failure? ==> r.error == PrepareElasticsearch(j.fields).error
    ensures r.Success? ==>
              && Shows(Ref(dsl), t, JObj(PrepareElasticsearch(j.fields).value))
              && Apart(t) && (forall n <- Nodes(t) :: n in Nodes(s) || fresh(n))
  {
    hide Shows, Nodes, Apart, Rewrite, ConvertTop, ShowsKeys, KidNodes;
    OpenDict(dsl, s, j);
    if "query" in dsl.fields {
      QueryOf(dsl, s, j);
      var query := dsl.fields["query"];
      if query.Ref? && query.node.fields.Keys == {"knn"} {
        ghost var knn := s.kids["query"].kids["knn"];
        assert allocated(Nodes(s));
        var converted;
        ghost var kid;
        converted, kid := ConvertTopLevel(query.node.fields["knn"], knn, j.fields["query"].fields["knn"]);
        if converted.Failure? {
          return Failure(converted.error), s;
        }
        if converted.value.Some? {
          ghost var c := ConvertTop(j.fields["query"].fields["knn"]).value.value;
          QueryReplaced(dsl, s, j, converted.value.value, kid, c);
          dsl.fields := dsl.fields["knn" := converted.value.value];
          dsl.fields := dsl.fields - {"query"};
          t := DictShape(dsl, s.kids["knn" := kid] - {"query"});
          CloseDict(dsl, t, JObj(j.fields["knn" := JObj(c)] - {"query"}));
          return Success(()), t;
        }
        RewriteOfDict(j);
        t := RewriteFields(dsl, s, j);
        return Success(()), t;
      }
    }
    RewriteOfDict(j);
    t := RewriteFields(dsl, s, j);
    return Success(()), t;
  }

  /** `ElasticsearchWriter._prepare_search_dsl`: a rewritten copy, or an exception; the caller's tree is not written to. */
  method PrepareElasticsearchDsl(dsl: DictNode, ghost s: Shape, ghost j: Json) returns (r: Result<Val, string>, ghost t: Shape)
    requires s.DictShape? && Shows(Ref(dsl), s, j) && Apart(s)
    ensures j.JObj? && (r.Success? <==> PrepareElasticsearch(j.fields).Success?)
    ensures r.Failure? ==> r.error == PrepareElasticsearch(j.fields).error
    ensures r.Success? ==> Shows(r.value, t, JObj(PrepareElasticsearch(j.fields).value)) && fresh(Nodes(t))
    ensures Shows(Ref(dsl), s, j)
  {
    hide Shows, Nodes, Apart, PrepareElasticsearch;
    assert allocated(Nodes(s));
    RefIsObject(Ref(dsl), s, j);
    var prepared;
    ghost var copy;
    prepared, copy := DeepCopy(Ref(dsl), s, j);
    RefIsObject(prepared, copy, j);
    var rewritten;
    rewritten, t := RewriteTopLevel(prepared.node, copy, j);
    if rewritten.Failure? {
      return Failure(rewritten.error), t;
    }
    return Success(prepared), t;
  }
}
