/** What the two backend writers turn a request into, on any JSON tree, and what that does to a search. */
module SearchTranslators {
  import opened Wrappers
  import opened Json
  import opened SearchQuery

  // ---------------------------------------------------------------- OpenSearch

  /**
   Removes the "num_candidates" keys of kNN bodies. `body` says this value is an entry of a kNN
   clause, `clause` that it is the value of a "knn" key.
   */
  function StripIn(j: Json, body: bool, clause: bool): Json
    decreases j
  {
    match j
    case JObj(f) =>
      JObj(map k | k in f && !(body && k == "num_candidates") :: StripIn(f[k], clause, k == "knn"))
    case JArr(items) =>
      JArr(seq(|items|, i requires 0 <= i < |items| => StripIn(items[i], false, false)))
    case _ => j
  }

  function Strip(j: Json): Json {
    StripIn(j, false, false)
  }

  /** `OpenSearchWriter._prepare_search_dsl`. */
  function PrepareOpenSearch(dsl: Dict): Dict {
    Strip(JObj(dsl)).fields
  }

  datatype Seg = Key(key: string) | Pos(pos: nat)

  /** The value at the end of a path of keys and positions. */
  function Resolve(j: Json, p: seq<Seg>): Option<Json>
    decreases |p|
  {
    if p == [] then Some(j)
    else
      match p[0]
      case Key(k) => if j.JObj? && k in j.fields then Resolve(j.fields[k], p[1..]) else None
      case Pos(i) => if j.JArr? && i < |j.items| then Resolve(j.items[i], p[1..]) else None
  }

  /** A "num_candidates" key of a body at place `i`. */
  ghost predicate RemovedAt(p: seq<Seg>, i: nat) {
    2 <= i < |p| && p[i] == Key("num_candidates") && p[i - 1].Key? && p[i - 2] == Key("knn")
  }

  /** The path runs through a "num_candidates" key of a kNN body. */
  ghost predicate Removed(p: seq<Seg>) {
    exists i: nat :: RemovedAt(p, i)
  }

  ghost predicate RemovedIn(p: seq<Seg>, body: bool, clause: bool)
    decreases |p|
  {
    p != []
    && ((body && p[0] == Key("num_candidates"))
        || RemovedIn(p[1..], clause && p[0].Key?, p[0] == Key("knn")))
  }

  lemma RemovedTail(p: seq<Seg>)
    requires p != []
    ensures Removed(p) <==> Removed(p[1..]) || RemovedAt(p, 2)
  {
    if i: nat :| RemovedAt(p[1..], i) { assert RemovedAt(p, i + 1); }
    if i: nat :| RemovedAt(p, i) && i > 2 { assert RemovedAt(p[1..], i - 1); }
  }

  lemma {:induction false} RemovedUnrolled(p: seq<Seg>, body: bool, clause: bool)
    ensures RemovedIn(p, body, clause)
            <==> (|| (body && p != [] && p[0] == Key("num_candidates"))
                  || (clause && |p| > 1 && p[0].Key? && p[1] == Key("num_candidates"))
                  || Removed(p))
    decreases |p|
  {
    if p != [] {
      RemovedTail(p);
      RemovedUnrolled(p[1..], clause && p[0].Key?, p[0] == Key("knn"));
    }
  }

  /** Same kind of value, and the same one where it is neither an object nor a list. */
  ghost predicate SameHead(a: Json, b: Json) {
    match a
    case JObj(_) => b.JObj?
    case JArr(items) => b.JArr? && |b.items| == |items|
    case _ => b == a
  }

  lemma {:induction false} StripInResolves(j: Json, body: bool, clause: bool, p: seq<Seg>)
    ensures var before, after := Resolve(j, p), Resolve(StripIn(j, body, clause), p);
            && (after.Some? <==> before.Some? && !RemovedIn(p, body && j.JObj?, clause && j.JObj?))
            && (after.Some? ==> SameHead(before.value, after.value))
    decreases |p|
  {
    if p != [] {
      match p[0]
      case Key(k) =>
        if j.JObj? && k in j.fields {
          StripInResolves(j.fields[k], clause, k == "knn", p[1..]);
          RemovedOnKinds(p[1..], clause, k == "knn", j.fields[k]);
        }
      case Pos(i) =>
        if j.JArr? && i < |j.items| {
          StripInResolves(j.items[i], false, false, p[1..]);
        }
    }
  }

  /** The flags only matter on objects, where the next step is a key. */
  lemma RemovedOnKinds(p: seq<Seg>, body: bool, clause: bool, j: Json)
    ensures Resolve(j, p).Some? ==> (RemovedIn(p, body, clause) <==> RemovedIn(p, body && j.JObj?, clause && j.JObj?))
  {
    RemovedUnrolled(p, body, clause);
    RemovedUnrolled(p, body && j.JObj?, clause && j.JObj?);
  }

  /** On any JSON tree the translation removes exactly the "num_candidates" keys of kNN bodies. */
  lemma StripRemovesExactly(j: Json, p: seq<Seg>)
    ensures var before, after := Resolve(j, p), Resolve(Strip(j), p);
            && (after.Some? <==> before.Some? && !Removed(p))
            && (after.Some? ==> SameHead(before.value, after.value))
  {
    StripInResolves(j, false, false, p);
    RemovedUnrolled(p, false, false);
  }

  lemma {:induction false} StripIdempotent(j: Json, body: bool, clause: bool)
    ensures StripIn(StripIn(j, body, clause), body, clause) == StripIn(j, body, clause)
    decreases j
  {
    var once := StripIn(j, body, clause);
    var twice := StripIn(once, body, clause);
    match j
    case JObj(f) =>
      forall k | k in once.fields ensures twice.fields[k] == once.fields[k] {
        StripIdempotent(f[k], clause, k == "knn");
      }
      assert twice.fields == once.fields;
    case JArr(items) =>
      forall i | 0 <= i < |items| ensures twice.items[i] == once.items[i] {
        StripIdempotent(items[i], false, false);
      }
      assert twice.items == once.items;
    case _ =>
  }

  /** A kNN body somewhere in the tree has a "num_candidates" key; `body` and `clause` as for `StripIn`. */
  ghost predicate HasCount(j: Json, body: bool, clause: bool)
    decreases j
  {
    match j
    case JObj(f) => exists k | k in f :: (body && k == "num_candidates") || HasCount(f[k], clause, k == "knn")
    case JArr(items) => exists i | 0 <= i < |items| :: HasCount(items[i], false, false)
    case _ => false
  }

  /** The translation leaves a tree alone exactly when no kNN body in it has a candidate count. */
  lemma {:induction false} StripKeepsIff(j: Json, body: bool, clause: bool)
    ensures StripIn(j, body, clause) == j <==> !HasCount(j, body, clause)
    decreases j
  {
    var out := StripIn(j, body, clause);
    match j
    case JObj(f) =>
      forall k | k in out.fields ensures out.fields[k] == f[k] <==> !HasCount(f[k], clause, k == "knn") {
        StripKeepsIff(f[k], clause, k == "knn");
      }
      assert out.fields.Keys == f.Keys <==> !(body && "num_candidates" in f);
      assert out.fields.Keys == f.Keys && (forall k | k in f :: out.fields[k] == f[k]) ==> out.fields == f;
    case JArr(items) =>
      forall i | 0 <= i < |items| ensures out.items[i] == items[i] <==> !HasCount(items[i], false, false) {
        StripKeepsIff(items[i], false, false);
      }
      assert (forall i | 0 <= i < |items| :: out.items[i] == items[i]) ==> out.items == items;
    case _ =>
  }

  // ---------------------------------------------------------------- Elasticsearch

  /** `_convert_knn_clause`: None where the clause is left as it is. */
  ghost function ConvertKnn(clause: Dict, includeK: bool): Option<Dict> {
    if |clause| != 1 then None
    else
      var field := SoleKey(clause);
      var body := clause[field];
      if !body.JObj? || "vector" !in body.fields || body.fields["vector"].JNull? then None
      else
        var c0: Dict := map["field" := JStr(field), "query_vector" := body.fields["vector"]];
        var c1 := if includeK && "k" in body.fields then c0["k" := body.fields["k"]] else c0;
        Some(if "num_candidates" in body.fields then c1["num_candidates" := body.fields["num_candidates"]] else c1)
  }

  ghost predicate Convertible(key: string, value: Json) {
    key == "knn" && value.JObj? && ConvertKnn(value.fields, false).Some?
  }

  /** A clause is converted when its one body is an object with a vector; the count goes along, and the k where it is asked for. */
  lemma ConvertKnnIs(field: string, body: Json, includeK: bool)
    ensures var c := ConvertKnn(map[field := body], includeK);
            if body.JObj? && "vector" in body.fields && body.fields["vector"] != JNull then
              && c.Some?
              && c.value.Keys == {"field", "query_vector"} + (body.fields.Keys * (if includeK then {"k", "num_candidates"} else {"num_candidates"}))
              && c.value["field"] == JStr(field) && c.value["query_vector"] == body.fields["vector"]
              && (forall k <- c.value :: k !in {"field", "query_vector"} ==> c.value[k] == body.fields[k])
            else c.None?
    ensures forall clause: Dict :: |clause| != 1 ==> ConvertKnn(clause, includeK).None?
  {
    SoleKeyOf(field, body);
  }

  /** The value of a sole "knn" key that is no object: it has no length, its one item has no keys, or it is left alone. */
  lemma TopFaults(v: Json)
    requires !v.JObj?
    ensures ConvertTop(v) == if !v.JArr? && !v.JStr? then Failure("TypeError")
                             else if (v.JArr? && |v.items| == 1) || (v.JStr? && |v.s| == 1) then Failure("AttributeError")
                             else Success(None)
  {
  }

  /** `_rewrite_knn_clauses` below the top level. */
  ghost function Rewrite(j: Json): Json
    decreases j
  {
    match j
    case JObj(f) =>
      JObj(map k | k in f :: if Convertible(k, f[k]) then JObj(ConvertKnn(f[k].fields, false).value) else Rewrite(f[k]))
    case JArr(items) =>
      JArr(seq(|items|, i requires 0 <= i < |items| => Rewrite(items[i])))
    case _ => j
  }

  /** The value of a sole top-level "knn" key; its `len` or its items may not exist, which raises. */
  ghost function ConvertTop(v: Json): Result<Option<Dict>, string> {
    match v
    case JObj(f) => Success(ConvertKnn(f, true))
    case JArr(items) => if |items| == 1 then Failure("AttributeError") else Success(None)
    case JStr(s) => if |s| == 1 then Failure("AttributeError") else Success(None)
    case _ => Failure("TypeError")
  }

  ghost predicate SoleKnn(dsl: Dict) {
    "query" in dsl && dsl["query"].JObj? && dsl["query"].fields.Keys == {"knn"}
  }

  /** `ElasticsearchWriter._prepare_search_dsl`. */
  ghost function PrepareElasticsearch(dsl: Dict): Result<Dict, string> {
    if SoleKnn(dsl) then
      match ConvertTop(dsl["query"].fields["knn"])
      case Failure(e) => Failure(e)
      case Success(Some(converted)) => Success(dsl["knn" := JObj(converted)] - {"query"})
      case Success(None) => Success(Rewrite(JObj(dsl)).fields)
    else Success(Rewrite(JObj(dsl)).fields)
  }

  /** Some clause in the tree would be converted. */
  ghost predicate HasClause(j: Json)
    decreases j
  {
    match j
    case JObj(f) => exists k | k in f :: Convertible(k, f[k]) || HasClause(f[k])
    case JArr(items) => exists i | 0 <= i < |items| :: HasClause(items[i])
    case _ => false
  }

  lemma {:induction false} RewriteKeepsIff(j: Json)
    ensures Rewrite(j) == j <==> !HasClause(j)
    decreases j
  {
    match j
    case JObj(f) =>
      forall k | k in f ensures Rewrite(j).fields[k] == f[k] <==> !(Convertible(k, f[k]) || HasClause(f[k])) {
        if Convertible(k, f[k]) {
          ConvertedDiffers(f[k].fields);
        } else {
          RewriteKeepsIff(f[k]);
        }
      }
      assert (forall k | k in f :: Rewrite(j).fields[k] == f[k]) ==> Rewrite(j).fields == f;
    case JArr(items) =>
      forall i | 0 <= i < |items| ensures Rewrite(j).items[i] == items[i] <==> !HasClause(items[i]) {
        RewriteKeepsIff(items[i]);
      }
      assert (forall i | 0 <= i < |items| :: Rewrite(j).items[i] == items[i]) ==> Rewrite(j).items == items;
    case _ =>
  }

  lemma ConvertedDiffers(c: Dict)
    requires ConvertKnn(c, false).Some?
    ensures ConvertKnn(c, false).value != c
    ensures ConvertKnn(ConvertKnn(c, false).value, false).None?
  {
    AtLeastTwo(ConvertKnn(c, false).value, "field", "query_vector");
  }

  lemma AtLeastTwo(d: Dict, a: string, b: string)
    requires a in d && b in d && a != b
    ensures |d| >= 2
  {
    assert {a, b} <= d.Keys;
    assert |{a, b}| == 2;
    SubsetSize({a, b}, d.Keys);
  }

  lemma SubsetSize<T>(a: set<T>, b: set<T>)
    requires a <= b
    ensures |a| <= |b|
  {
    assert b == a + (b - a);
  }

  /** No clause hides inside what a conversion copies: its vector and its candidate count. */
  ghost predicate FlatClauses(j: Json)
    decreases j
  {
    match j
    case JObj(f) =>
      forall k | k in f ::
        if Convertible(k, f[k]) then
          var c := ConvertKnn(f[k].fields, false).value;
          !HasClause(c["query_vector"]) && ("num_candidates" in c ==> !HasClause(c["num_candidates"]))
        else FlatClauses(f[k])
    case JArr(items) => forall i | 0 <= i < |items| :: FlatClauses(items[i])
    case _ => true
  }

  /** Rewriting twice is rewriting once exactly when no clause hides in a copied vector or count. */
  lemma {:induction false} RewriteTwiceIff(j: Json)
    ensures Rewrite(Rewrite(j)) == Rewrite(j) <==> FlatClauses(j)
    decreases j
  {
    var once, twice := Rewrite(j), Rewrite(Rewrite(j));
    match j
    case JObj(f) =>
      forall k | k in f
        ensures twice.fields[k] == once.fields[k]
                <==> if Convertible(k, f[k]) then
                       var c := ConvertKnn(f[k].fields, false).value;
                       !HasClause(c["query_vector"]) && ("num_candidates" in c ==> !HasClause(c["num_candidates"]))
                     else FlatClauses(f[k])
      {
        if Convertible(k, f[k]) {
          ConvertedTwice(f[k].fields);
        } else {
          NotConvertibleAfter(k, f[k]);
          RewriteTwiceIff(f[k]);
        }
      }
      assert (forall k | k in f :: twice.fields[k] == once.fields[k]) ==> twice.fields == once.fields;
    case JArr(items) =>
      forall i | 0 <= i < |items| ensures twice.items[i] == once.items[i] <==> FlatClauses(items[i]) {
        RewriteTwiceIff(items[i]);
      }
      assert (forall i | 0 <= i < |items| :: twice.items[i] == once.items[i]) ==> twice.items == once.items;
    case _ =>
  }

  lemma ConvertedTwice(clause: Dict)
    requires ConvertKnn(clause, false).Some?
    ensures var c := ConvertKnn(clause, false).value;
            && !Convertible("knn", JObj(c))
            && (Rewrite(JObj(c)) == JObj(c)
                <==> !HasClause(c["query_vector"]) && ("num_candidates" in c ==> !HasClause(c["num_candidates"])))
  {
    var c := ConvertKnn(clause, false).value;
    ConvertedDiffers(clause);
    RewriteKeepsIff(JObj(c));
    assert c.Keys <= {"field", "query_vector", "num_candidates"};
    assert forall k <- c :: !Convertible(k, c[k]);
    assert !HasClause(c["field"]);
  }

  /** A clause that is left alone does not become convertible by what happens inside it. */
  lemma NotConvertibleAfter(k: string, v: Json)
    requires !Convertible(k, v)
    ensures !Convertible(k, Rewrite(v))
  {
    if k == "knn" && v.JObj? {
      var w := Rewrite(v);
      assert w.fields.Keys == v.fields.Keys && |w.fields| == |w.fields.Keys| == |v.fields|;
      if |v.fields| == 1 {
        var field := SoleKey(v.fields);
        SoleKeyUnique(v.fields);
        SoleKeyUnique(w.fields);
        assert SoleKey(w.fields) == field;
        var body, body' := v.fields[field], w.fields[field];
        if Convertible(field, body) {
          assert "vector" !in body'.fields;
        } else {
          assert body' == Rewrite(body);
          if body.JObj? && "vector" in body.fields {
            assert body.fields["vector"].JNull?;
            assert body'.fields["vector"] == Rewrite(body.fields["vector"]);
          }
        }
        assert ConvertKnn(w.fields, false).None?;
      }
    }
  }

  lemma SoleKeyUnique(d: Dict)
    requires |d| == 1
    ensures d.Keys == {SoleKey(d)}
  {
    forall other <- d.Keys ensures other == SoleKey(d) {
      if other != SoleKey(d) { AtLeastTwo(d, SoleKey(d), other); }
    }
  }

  // ---------------------------------------------------------------- on searches

  predicate Scalar(j: Json) {
    !j.JObj? && !j.JArr?
  }

  /** Nothing inside a boost or weight, where one is an object or a list, is taken for part of a kNN clause. */
  ghost predicate Inert(d: Dialect, q: Query)
    decreases q
  {
    match q
    case Term(field, _, boost) => InertWeight(d, boost, field == "knn")
    case Match(field, _, boost) => InertWeight(d, boost, field == "knn")
    case Should(clauses) => forall c <- clauses :: Inert(d, c)
    case FunctionScore(query, weight) => Inert(d, query) && InertWeight(d, weight, false)
    case _ => true
  }

  ghost predicate InertWeight(d: Dialect, weight: Json, inKnn: bool) {
    match d
    case Neutral => true
    case OpenSearch => !HasCount(weight, inKnn, false)
    case Elasticsearch => !HasClause(weight)
  }

  /** What the translation makes of a boost or weight. */
  ghost function SentWeight(d: Dialect, weight: Json, inKnn: bool): Json {
    match d
    case Neutral => weight
    case OpenSearch => StripIn(weight, inKnn, false)
    case Elasticsearch => Rewrite(weight)
  }

  /** The query with its boosts and weights translated, which is the query the backend is sent. */
  ghost function Sent(d: Dialect, q: Query): Query
    decreases q
  {
    match q
    case Term(field, value, boost) => Term(field, value, SentWeight(d, boost, field == "knn"))
    case Match(field, value, boost) => Match(field, value, SentWeight(d, boost, field == "knn"))
    case Should(clauses) => Should(SentAll(d, clauses))
    case FunctionScore(query, weight) => FunctionScore(Sent(d, query), SentWeight(d, weight, false))
    case _ => q
  }

  ghost function SentAll(d: Dialect, qs: seq<Query>): (r: seq<Query>)
    ensures |r| == |qs|
    ensures forall i | 0 <= i < |qs| :: r[i] == Sent(d, qs[i])
    decreases qs
  {
    if qs == [] then [] else [Sent(d, qs[0])] + SentAll(d, qs[1..])
  }

  lemma SentWeightIff(d: Dialect, weight: Json, inKnn: bool)
    ensures SentWeight(d, weight, inKnn) == weight <==> InertWeight(d, weight, inKnn)
  {
    StripKeepsIff(weight, inKnn, false);
    RewriteKeepsIff(weight);
  }

  /** What is sent is what was meant, and what a form keeps of the one is what it keeps of the other, exactly when every boost is inert. */
  lemma {:induction false} SentIff(d: Dialect, size: int, q: Query)
    ensures Sent(d, q) == q <==> Inert(d, q)
    ensures Kept(d, size, Sent(d, q)) == Kept(d, size, q) <==> Inert(d, q)
    decreases q
  {
    hide SentWeight, InertWeight;
    match q
    case Term(field, _, boost) => SentWeightIff(d, boost, field == "knn");
    case Match(field, _, boost) => SentWeightIff(d, boost, field == "knn");
    case Should(clauses) =>
      forall i | 0 <= i < |clauses|
        ensures Sent(d, clauses[i]) == clauses[i] <==> Inert(d, clauses[i])
        ensures Kept(d, size, Sent(d, clauses[i])) == Kept(d, size, clauses[i]) <==> Inert(d, clauses[i])
      {
        SentIff(d, size, clauses[i]);
      }
      SentAllIff(d, size, clauses);
    case FunctionScore(query, weight) =>
      SentIff(d, size, query);
      SentWeightIff(d, weight, false);
    case _ =>
  }

  lemma SentAllIff(d: Dialect, size: int, qs: seq<Query>)
    requires forall i | 0 <= i < |qs| :: Sent(d, qs[i]) == qs[i] <==> Inert(d, qs[i])
    requires forall i | 0 <= i < |qs| :: Kept(d, size, Sent(d, qs[i])) == Kept(d, size, qs[i]) <==> Inert(d, qs[i])
    ensures SentAll(d, qs) == qs <==> forall q <- qs :: Inert(d, q)
    ensures KeptAll(d, size, SentAll(d, qs)) == KeptAll(d, size, qs) <==> forall q <- qs :: Inert(d, q)
  {
    hide Sent, Kept, Inert, SentAll, KeptAll;
    assert (forall q <- qs :: Inert(d, q)) <==> forall i | 0 <= i < |qs| :: Inert(d, qs[i]);
    SameItems(SentAll(d, qs), qs);
    SameItems(KeptAll(d, size, SentAll(d, qs)), KeptAll(d, size, qs));
  }

  lemma SameItems<T>(a: seq<T>, b: seq<T>)
    requires |a| == |b|
    ensures a == b <==> forall i | 0 <= i < |a| :: a[i] == b[i]
  {
  }

  lemma ScalarIsInert(d: Dialect, weight: Json, inKnn: bool)
    requires Scalar(weight)
    ensures InertWeight(d, weight, inKnn)
  {
  }

  lemma FlatListKept(j: Json)
    requires j.JArr? && forall x <- j.items :: Scalar(x)
    ensures !HasClause(j)
    ensures forall body, clause :: StripIn(j, body, clause) == j
  {
    forall i | 0 <= i < |j.items| ensures !HasClause(j.items[i]) && StripIn(j.items[i], false, false) == j.items[i] {
      assert Scalar(j.items[i]);
    }
  }

  lemma TextsKept(s: seq<string>)
    ensures !HasClause(Texts(s)) && StripIn(Texts(s), false, false) == Texts(s)
  {
    FlatListKept(Texts(s));
  }

  lemma NumbersKept(v: seq<real>)
    ensures !HasClause(Numbers(v)) && StripIn(Numbers(v), true, false) == Numbers(v)
  {
    FlatListKept(Numbers(v));
  }

  /** A one-key object is stripped by stripping its value, unless it is a body that has only the count. */
  lemma StripObj1(key: string, v: Json, body: bool, clause: bool)
    requires !(body && key == "num_candidates")
    ensures StripIn(Obj1(key, v), body, clause) == Obj1(key, StripIn(v, clause, key == "knn"))
  {
    assert StripIn(Obj1(key, v), body, clause).fields == Obj1(key, StripIn(v, clause, key == "knn")).fields;
  }

  /** A pair of entries under keys that play no part in a kNN clause. */
  function Pair(k: string, v: Json, l: string, w: Json): Json {
    JObj(map[k := v, l := w])
  }

  predicate PlainKeys(k: string, l: string) {
    k != l && k !in {"knn", "num_candidates"} && l !in {"knn", "num_candidates"}
  }

  lemma StripPair(k: string, v: Json, l: string, w: Json, clause: bool)
    requires PlainKeys(k, l)
    ensures StripIn(Pair(k, v, l, w), false, clause) == Pair(k, StripIn(v, clause, false), l, StripIn(w, clause, false))
  {
    var a, b := StripIn(Pair(k, v, l, w), false, clause).fields, Pair(k, StripIn(v, clause, false), l, StripIn(w, clause, false)).fields;
    assert a.Keys == {k, l} == b.Keys;
    assert a[k] == StripIn(v, clause, false) && a[l] == StripIn(w, clause, false);
    SameKeys(a, b);
  }

  function LeafKind(q: Query): string
    requires q.Term? || q.Match?
  {
    if q.Term? then "term" else "match"
  }

  function LeafValue(q: Query): string
    requires q.Term? || q.Match?
  {
    if q.Term? then "value" else "query"
  }

  lemma LeafForm(d: Dialect, q: Query)
    requires q.Term? || q.Match?
    ensures Form(d, q) == Obj1(LeafKind(q), Obj1(q.field, Pair(LeafValue(q), JStr(q.value), "boost", q.boost)))
    ensures PlainKeys(LeafValue(q), "boost")
  {
  }

  lemma StripLeaf(q: Query)
    requires q.Term? || q.Match?
    ensures Strip(Form(Neutral, q)) == Form(OpenSearch, Sent(OpenSearch, q))
  {
    LeafForm(Neutral, q);
    LeafForm(OpenSearch, Sent(OpenSearch, q));
    hide Form, Obj1, Pair;
    var leaf := Pair(LeafValue(q), JStr(q.value), "boost", q.boost);
    StripPair(LeafValue(q), JStr(q.value), "boost", q.boost, q.field == "knn");
    StripObj1(q.field, leaf, false, false);
    StripObj1(LeafKind(q), Obj1(q.field, leaf), false, false);
  }

  lemma StripKnnBody(q: Query)
    requires q.Knn?
    ensures var body := Form(Neutral, q).fields["knn"].fields[q.field];
            StripIn(body, true, q.field == "knn") == Pair("vector", Numbers(q.vector), "k", JInt(q.k))
  {
    NumbersKept(q.vector);
    FlatListKept(Numbers(q.vector));
    var body := Form(Neutral, q).fields["knn"].fields[q.field];
    assert body == JObj(WithCandidates(map["vector" := Numbers(q.vector), "k" := JInt(q.k)], q.numCandidates));
    hide Form, Numbers;
    assert StripIn(body, true, q.field == "knn").fields == Pair("vector", Numbers(q.vector), "k", JInt(q.k)).fields;
  }

  lemma StripKnn(q: Query)
    requires q.Knn?
    ensures Strip(Form(Neutral, q)) == Form(OpenSearch, q)
  {
    StripKnnBody(q);
    var body := Form(Neutral, q).fields["knn"].fields[q.field];
    assert Form(Neutral, q) == Obj1("knn", Obj1(q.field, body));
    assert Form(OpenSearch, q) == Obj1("knn", Obj1(q.field, Pair("vector", Numbers(q.vector), "k", JInt(q.k))));
    hide Form, Numbers, Obj1;
    StripObj1(q.field, body, false, true);
    StripObj1("knn", Obj1(q.field, body), false, false);
  }

  lemma StripText(q: Query)
    requires q.MatchAll? || q.MultiMatch?
    ensures Strip(Form(Neutral, q)) == Form(OpenSearch, q)
  {
    if q.MatchAll? {
      assert StripIn(JObj(map[]), false, false).fields == map[];
      StripObj1("match_all", JObj(map[]), false, false);
    } else {
      TextsKept(q.fields);
      hide Texts;
      var inner: Dict := map["query" := JStr(q.value), "fields" := Texts(q.fields), "type" := JStr(q.kind)];
      assert StripIn(JObj(inner), false, false).fields == inner;
      StripObj1("multi_match", JObj(inner), false, false);
    }
  }

  lemma ShouldForm(d: Dialect, q: Query)
    requires q.Should?
    ensures Form(d, q) == Obj1("bool", Obj1("should", JArr(Forms(d, q.clauses))))
  {
  }

  lemma ScoreForm(d: Dialect, q: Query)
    requires q.FunctionScore?
    ensures Form(d, q) == Obj1("function_score", Pair("query", Form(d, q.query), "weight", q.weight))
    ensures PlainKeys("query", "weight")
  {
  }

  // ---------------------------------------------------------------- clauses inside forms

  lemma ClauseInObj1(key: string, v: Json)
    ensures HasClause(Obj1(key, v)) <==> Convertible(key, v) || HasClause(v)
  {
    var f := Obj1(key, v).fields;
    assert key in f && f[key] == v;
  }

  lemma ClauseInPair(k: string, v: Json, l: string, w: Json)
    requires PlainKeys(k, l)
    ensures HasClause(Pair(k, v, l, w)) <==> HasClause(v) || HasClause(w)
    ensures !Convertible("knn", Pair(k, v, l, w))
  {
    var f := Pair(k, v, l, w).fields;
    assert k in f && l in f && f[k] == v && f[l] == w;
    AtLeastTwo(f, k, l);
  }

  lemma RewriteObj1(key: string, v: Json)
    requires !Convertible(key, v)
    ensures Rewrite(Obj1(key, v)) == Obj1(key, Rewrite(v))
  {
    assert Rewrite(Obj1(key, v)).fields == Obj1(key, Rewrite(v)).fields;
  }

  lemma RewritePair(k: string, v: Json, l: string, w: Json)
    requires PlainKeys(k, l)
    ensures Rewrite(Pair(k, v, l, w)) == Pair(k, Rewrite(v), l, Rewrite(w))
  {
    hide ConvertKnn;
    var a, b := Rewrite(Pair(k, v, l, w)).fields, Pair(k, Rewrite(v), l, Rewrite(w)).fields;
    assert a.Keys == {k, l} == b.Keys;
    assert a[k] == Rewrite(v) && a[l] == Rewrite(w);
    SameKeys(a, b);
  }

  lemma LeafClause(d: Dialect, q: Query)
    requires q.Term? || q.Match?
    ensures HasClause(Form(d, q)) <==> HasClause(q.boost)
  {
    LeafForm(d, q);
    hide Form, Obj1, Pair, ConvertKnn;
    var leaf := Pair(LeafValue(q), JStr(q.value), "boost", q.boost);
    ClauseInPair(LeafValue(q), JStr(q.value), "boost", q.boost);
    ClauseInObj1(q.field, leaf);
    ClauseInObj1(LeafKind(q), Obj1(q.field, leaf));
  }

  lemma TextClause(d: Dialect, q: Query)
    requires q.MatchAll? || q.MultiMatch?
    ensures !HasClause(Form(d, q))
  {
    hide ConvertKnn;
    if q.MatchAll? {
      ClauseInObj1("match_all", JObj(map[]));
    } else {
      TextsKept(q.fields);
      hide Texts;
      var inner := map["query" := JStr(q.value), "fields" := Texts(q.fields), "type" := JStr(q.kind)];
      assert forall k | k in inner :: !Convertible(k, inner[k]) && !HasClause(inner[k]);
      ClauseInObj1("multi_match", JObj(inner));
    }
  }

  /** An Elasticsearch clause is not one to convert, and holds none. */
  lemma ConvertedClause(c: Dict, field: string, vector: seq<real>)
    requires "field" in c && c["field"] == JStr(field) && "query_vector" in c && c["query_vector"] == Numbers(vector)
    requires c.Keys <= {"field", "query_vector", "k", "num_candidates"}
    requires "k" in c ==> Scalar(c["k"])
    requires "num_candidates" in c ==> Scalar(c["num_candidates"])
    ensures !HasClause(JObj(c)) && !Convertible("knn", JObj(c))
  {
    NumbersKept(vector);
    AtLeastTwo(c, "field", "query_vector");
    hide Numbers;
    assert forall k | k in c :: !Convertible(k, c[k]) && !HasClause(c[k]);
  }

  lemma KnnClause(q: Query)
    requires q.Knn?
    ensures !HasClause(Form(Elasticsearch, q))
  {
    var c := WithCandidates(map["field" := JStr(q.field), "query_vector" := Numbers(q.vector)], q.numCandidates);
    assert Form(Elasticsearch, q) == Obj1("knn", JObj(c));
    ConvertedClause(c, q.field, q.vector);
    hide Form, ConvertKnn;
    ClauseInObj1("knn", JObj(c));
  }

  lemma ShouldClause(q: Query)
    requires q.Should?
    requires forall i | 0 <= i < |q.clauses| :: !HasClause(Form(Elasticsearch, q.clauses[i])) <==> Inert(Elasticsearch, q.clauses[i])
    ensures !HasClause(Form(Elasticsearch, q)) <==> Inert(Elasticsearch, q)
  {
    ShouldForm(Elasticsearch, q);
    hide Form, Obj1, ConvertKnn;
    var list := JArr(Forms(Elasticsearch, q.clauses));
    ListClause(q.clauses);
    ClauseInObj1("should", list);
    ClauseInObj1("bool", Obj1("should", list));
  }

  lemma ListClause(clauses: seq<Query>)
    requires forall i | 0 <= i < |clauses| :: !HasClause(Form(Elasticsearch, clauses[i])) <==> Inert(Elasticsearch, clauses[i])
    ensures !HasClause(JArr(Forms(Elasticsearch, clauses))) <==> forall c <- clauses :: Inert(Elasticsearch, c)
  {
    hide Form, Convertible, Inert;
    var list := JArr(Forms(Elasticsearch, clauses));
    assert HasClause(list) <==> exists i | 0 <= i < |clauses| :: HasClause(list.items[i]);
    assert (forall c <- clauses :: Inert(Elasticsearch, c)) <==> forall i | 0 <= i < |clauses| :: Inert(Elasticsearch, clauses[i]);
    assert forall i | 0 <= i < |clauses| :: list.items[i] == Form(Elasticsearch, clauses[i]);
  }

  lemma ScoreClause(q: Query)
    requires q.FunctionScore?
    requires !HasClause(Form(Elasticsearch, q.query)) <==> Inert(Elasticsearch, q.query)
    ensures !HasClause(Form(Elasticsearch, q)) <==> Inert(Elasticsearch, q)
  {
    ScoreForm(Elasticsearch, q);
    hide Form, Obj1, Pair, ConvertKnn;
    var inner := Form(Elasticsearch, q.query);
    ClauseInPair("query", inner, "weight", q.weight);
    ClauseInObj1("function_score", Pair("query", inner, "weight", q.weight));
  }

  /** An Elasticsearch form holds no clause that would be converted again, exactly when no boost or weight does. */
  lemma {:induction false} TranslatedHasNoClauseIff(q: Query)
    ensures !HasClause(Form(Elasticsearch, q)) <==> Inert(Elasticsearch, q)
    decreases q
  {
    hide HasClause, Form;
    match q
    case Term(_, _, _) => LeafClause(Elasticsearch, q);
    case Match(_, _, _) => LeafClause(Elasticsearch, q);
    case Should(clauses) =>
      forall i | 0 <= i < |clauses|
        ensures !HasClause(Form(Elasticsearch, clauses[i])) <==> Inert(Elasticsearch, clauses[i])
      {
        TranslatedHasNoClauseIff(clauses[i]);
      }
      ShouldClause(q);
    case FunctionScore(query, weight) =>
      TranslatedHasNoClauseIff(query);
      ScoreClause(q);
    case Knn(_, _, _, _) => KnnClause(q);
    case _ => TextClause(Elasticsearch, q);
  }

  // ---------------------------------------------------------------- the translations of forms

  lemma RewriteLeaf(q: Query)
    requires q.Term? || q.Match?
    ensures Rewrite(Form(Neutral, q)) == Form(Elasticsearch, Sent(Elasticsearch, q))
  {
    LeafForm(Neutral, q);
    LeafForm(Elasticsearch, Sent(Elasticsearch, q));
    hide Form, Obj1, Pair, ConvertKnn;
    var leaf := Pair(LeafValue(q), JStr(q.value), "boost", q.boost);
    RewritePair(LeafValue(q), JStr(q.value), "boost", q.boost);
    ClauseInPair(LeafValue(q), JStr(q.value), "boost", q.boost);
    RewriteObj1(q.field, leaf);
    RewriteObj1(LeafKind(q), Obj1(q.field, leaf));
  }

  lemma RewriteText(q: Query)
    requires q.MatchAll? || q.MultiMatch?
    ensures Rewrite(Form(Neutral, q)) == Form(Elasticsearch, q)
  {
    assert Form(Neutral, q) == Form(Elasticsearch, q);
    hide Form, Rewrite, HasClause;
    TextClause(Neutral, q);
    RewriteKeepsIff(Form(Neutral, q));
  }

  lemma ConvertNeutral(q: Query, includeK: bool)
    requires q.Knn?
    ensures var c := KnnForm(Neutral, q.field, q.vector, q.k, q.numCandidates);
            ConvertKnn(c.fields, includeK)
              == Some(WithCandidates(if includeK then map["field" := JStr(q.field), "query_vector" := Numbers(q.vector), "k" := JInt(q.k)]
                                     else map["field" := JStr(q.field), "query_vector" := Numbers(q.vector)], q.numCandidates))
  {
    var c := KnnForm(Neutral, q.field, q.vector, q.k, q.numCandidates);
    SoleKeyOf(q.field, c.fields[q.field]);
  }

  lemma RewriteKnn(q: Query)
    requires q.Knn?
    ensures Rewrite(Form(Neutral, q)) == Form(Elasticsearch, q)
  {
    ConvertNeutral(q, false);
    hide ConvertKnn, Numbers;
    assert Rewrite(Form(Neutral, q)).fields == Form(Elasticsearch, q).fields;
  }

  /** What a backend's writer makes of a value below the top level. */
  ghost function Translated(d: Dialect, j: Json): Json {
    match d
    case Neutral => j
    case OpenSearch => Strip(j)
    case Elasticsearch => Rewrite(j)
  }

  lemma TranslatedObj1(d: Dialect, key: string, v: Json)
    requires key != "knn"
    ensures Translated(d, Obj1(key, v)) == Obj1(key, Translated(d, v))
  {
    hide Obj1, Rewrite, StripIn;
    match d
    case Neutral =>
    case OpenSearch => StripObj1(key, v, false, false);
    case Elasticsearch => RewriteObj1(key, v);
  }

  lemma TranslatedShould(d: Dialect, q: Query)
    requires q.Should?
    requires forall i | 0 <= i < |q.clauses| :: Translated(d, Form(Neutral, q.clauses[i])) == Form(d, Sent(d, q.clauses[i]))
    ensures Translated(d, Form(Neutral, q)) == Form(d, Sent(d, q))
  {
    ShouldForm(Neutral, q);
    ShouldForm(d, Sent(d, q));
    hide Form, Forms, Obj1, Sent, SentAll;
    var list, list' := JArr(Forms(Neutral, q.clauses)), JArr(Forms(d, SentAll(d, q.clauses)));
    TranslatedObj1(d, "bool", Obj1("should", list));
    TranslatedObj1(d, "should", list);
    assert Translated(d, list) == list' by {
      TranslatedList(d, list.items);
      SameItems(Translated(d, list).items, list'.items);
    }
  }

  lemma TranslatedList(d: Dialect, items: seq<Json>)
    ensures Translated(d, JArr(items)).JArr? && |Translated(d, JArr(items)).items| == |items|
    ensures forall i | 0 <= i < |items| :: Translated(d, JArr(items)).items[i] == Translated(d, items[i])
  {
  }

  lemma TranslatedScore(d: Dialect, q: Query)
    requires q.FunctionScore?
    requires Translated(d, Form(Neutral, q.query)) == Form(d, Sent(d, q.query))
    ensures Translated(d, Form(Neutral, q)) == Form(d, Sent(d, q))
  {
    ScoreForm(Neutral, q);
    ScoreForm(d, Sent(d, q));
    hide Form, Obj1, Pair, Rewrite, StripIn;
    var inner := Form(Neutral, q.query);
    TranslatedObj1(d, "function_score", Pair("query", inner, "weight", q.weight));
    StripPair("query", inner, "weight", q.weight, false);
    RewritePair("query", inner, "weight", q.weight);
  }

  lemma TranslatedLeaf(d: Dialect, q: Query)
    requires !q.Should? && !q.FunctionScore?
    ensures Translated(d, Form(Neutral, q)) == Form(d, Sent(d, q))
  {
    hide Strip, Rewrite, Form, SentWeight;
    match d
    case Neutral => SentIff(Neutral, 0, q);
    case OpenSearch =>
      if q.Knn? { StripKnn(q); } else if q.Term? || q.Match? { StripLeaf(q); } else { StripText(q); }
    case Elasticsearch =>
      if q.Knn? { RewriteKnn(q); } else if q.Term? || q.Match? { RewriteLeaf(q); } else { RewriteText(q); }
  }

  /** For any query and any field names, translating its neutral form gives the backend's form of the query that is sent. */
  lemma {:induction false} TranslatedForm(d: Dialect, q: Query)
    ensures Translated(d, Form(Neutral, q)) == Form(d, Sent(d, q))
    decreases q
  {
    hide Translated, Form, Sent;
    match q
    case Should(clauses) =>
      forall i | 0 <= i < |clauses| ensures Translated(d, Form(Neutral, clauses[i])) == Form(d, Sent(d, clauses[i])) {
        TranslatedForm(d, clauses[i]);
      }
      TranslatedShould(d, q);
    case FunctionScore(query, weight) =>
      TranslatedForm(d, query);
      TranslatedScore(d, q);
    case _ => TranslatedLeaf(d, q);
  }

  // ---------------------------------------------------------------- whole requests

  lemma RequestKeys(d: Dialect, s: Search)
    requires !(d.Elasticsearch? && s.query.Knn?)
    ensures var dsl := Request(d, s);
            && "query" in dsl && dsl["query"] == Form(d, s.query) && "size" in dsl && dsl["size"] == JInt(s.size)
            && ("_source" in dsl <==> s.source != []) && ("_source" in dsl ==> dsl["_source"] == Texts(s.source))
            && dsl.Keys <= {"query", "size", "_source"}
  {
  }

  lemma SameKeys(a: Dict, b: Dict)
    requires a.Keys == b.Keys && forall k <- a :: a[k] == b[k]
    ensures a == b
  {
  }

  lemma PrepareIsStrip(dsl: Dict)
    ensures Strip(JObj(dsl)) == JObj(PrepareOpenSearch(dsl))
  {
  }

  lemma TopStripped(dsl: Dict)
    ensures PrepareOpenSearch(dsl).Keys == dsl.Keys
    ensures forall k <- dsl :: PrepareOpenSearch(dsl)[k] == StripIn(dsl[k], false, k == "knn")
  {
  }

  lemma NumberKept(n: int)
    ensures StripIn(JInt(n), false, false) == JInt(n)
  {
  }

  /** Whatever its boosts are, the neutral request becomes the OpenSearch request of the search that is sent. */
  lemma StrippedRequest(s: Search)
    ensures PrepareOpenSearch(Request(Neutral, s)) == Request(OpenSearch, s.(query := Sent(OpenSearch, s.query)))
  {
    hide Form, Request, Texts, StripIn, PrepareOpenSearch, Sent;
    var dsl, out := Request(Neutral, s), Request(OpenSearch, s.(query := Sent(OpenSearch, s.query)));
    RequestKeys(Neutral, s);
    RequestKeys(OpenSearch, s.(query := Sent(OpenSearch, s.query)));
    TextsKept(s.source);
    NumberKept(s.size);
    TopStripped(dsl);
    TranslatedForm(OpenSearch, s.query);
    SameKeys(PrepareOpenSearch(dsl), out);
  }

  /** Two requests are equal only if what they keep of their searches is. */
  lemma SameRequestSameSearch(d: Dialect, a: Search, b: Search)
    requires Request(d, a) == Request(d, b)
    ensures KeptSearch(d, a) == KeptSearch(d, b)
  {
    RequestBack(d, a);
    RequestBack(d, b);
  }

  /** Of one search and the search that is sent for it, the request keeps the same exactly when no boost is in the way. */
  lemma SentSearchIff(d: Dialect, s: Search)
    ensures KeptSearch(d, s.(query := Sent(d, s.query))) == KeptSearch(d, s) <==> Inert(d, s.query)
    ensures Inert(d, s.query) ==> Sent(d, s.query) == s.query
  {
    hide Kept, InertWeight, SentWeight;
    SentIff(d, s.size, s.query);
  }

  /**
   Translating the neutral request gives the OpenSearch request exactly when no boost or weight is in
   the way; translating twice is translating once in any case.
   */
  lemma OpenSearchRequestIff(s: Search)
    ensures PrepareOpenSearch(Request(Neutral, s)) == Request(OpenSearch, s) <==> Inert(OpenSearch, s.query)
    ensures PrepareOpenSearch(PrepareOpenSearch(Request(Neutral, s))) == PrepareOpenSearch(Request(Neutral, s))
  {
    hide Form, Request, Texts, Inert, StripIn, Sent, KeptSearch;
    var s' := s.(query := Sent(OpenSearch, s.query));
    StrippedRequest(s);
    SentSearchIff(OpenSearch, s);
    if Request(OpenSearch, s') == Request(OpenSearch, s) { SameRequestSameSearch(OpenSearch, s', s); }
    StripIdempotent(JObj(Request(Neutral, s)), false, false);
    PrepareIsStrip(Request(Neutral, s));
    PrepareIsStrip(PrepareOpenSearch(Request(Neutral, s)));
  }

  lemma SoleKnnIff(s: Search)
    ensures SoleKnn(Request(Neutral, s)) <==> s.query.Knn?
  {
    assert "knn" in Form(Neutral, s.query).fields <==> s.query.Knn?;
  }

  lemma SoleKnnRequest(s: Search)
    requires s.query.Knn?
    ensures PrepareElasticsearch(Request(Neutral, s)) == Success(Request(Elasticsearch, s))
  {
    hide ConvertKnn, Numbers, Texts;
    var dsl, q := Request(Neutral, s), s.query;
    SoleKnnIff(s);
    ConvertNeutral(q, true);
    assert dsl["query"].fields["knn"] == KnnForm(Neutral, q.field, q.vector, q.k, q.numCandidates);
    assert PrepareElasticsearch(dsl).value == Request(Elasticsearch, s);
  }

  lemma OtherRequest(s: Search)
    requires !s.query.Knn?
    ensures Rewrite(JObj(Request(Neutral, s))) == JObj(Request(Elasticsearch, s.(query := Sent(Elasticsearch, s.query))))
  {
    hide Form, Request, Texts, ConvertKnn, HasClause, SentWeight;
    var dsl, out := Request(Neutral, s), Request(Elasticsearch, s.(query := Sent(Elasticsearch, s.query)));
    RequestKeys(Neutral, s);
    RequestKeys(Elasticsearch, s.(query := Sent(Elasticsearch, s.query)));
    TranslatedForm(Elasticsearch, s.query);
    TextsKept(s.source);
    RewriteKeepsIff(Texts(s.source));
    var p := Rewrite(JObj(dsl)).fields;
    assert p.Keys == dsl.Keys == out.Keys;
    assert forall k <- p :: p[k] == Rewrite(dsl[k]);
    SameKeys(p, out);
  }

  /** Whatever its boosts are, the neutral request becomes the Elasticsearch request of the search that is sent. */
  lemma RewrittenRequest(s: Search)
    ensures PrepareElasticsearch(Request(Neutral, s)) == Success(Request(Elasticsearch, s.(query := Sent(Elasticsearch, s.query))))
  {
    hide Rewrite, Request, SentWeight, ConvertTop;
    SoleKnnIff(s);
    if s.query.Knn? {
      SoleKnnRequest(s);
      assert s.(query := Sent(Elasticsearch, s.query)) == s;
    } else {
      OtherRequest(s);
    }
  }

  /** Translating the neutral request gives the Elasticsearch request exactly when no boost or weight is in the way. */
  lemma ElasticsearchRequestIff(s: Search)
    ensures PrepareElasticsearch(Request(Neutral, s)) == Success(Request(Elasticsearch, s)) <==> Inert(Elasticsearch, s.query)
  {
    hide Request, Sent, KeptSearch, Inert, PrepareElasticsearch;
    var s' := s.(query := Sent(Elasticsearch, s.query));
    RewrittenRequest(s);
    SentSearchIff(Elasticsearch, s);
    if Request(Elasticsearch, s') == Request(Elasticsearch, s) { SameRequestSameSearch(Elasticsearch, s', s); }
  }

  lemma TopClauseHasNoClause(s: Search)
    requires s.query.Knn?
    ensures "query" !in Request(Elasticsearch, s) && !HasClause(JObj(Request(Elasticsearch, s)))
  {
    hide ConvertKnn, Numbers, Texts;
    var dsl := Request(Elasticsearch, s);
    ConvertedClause(dsl["knn"].fields, s.query.field, s.query.vector);
    TextsKept(s.source);
    assert forall k | k in dsl :: !Convertible(k, dsl[k]) && !HasClause(dsl[k]);
  }

  lemma TranslatedRequestHasNoClauseIff(s: Search)
    ensures !HasClause(JObj(Request(Elasticsearch, s))) <==> Inert(Elasticsearch, s.query)
  {
    if s.query.Knn? {
      TopClauseHasNoClause(s);
    } else {
      RequestKeys(Elasticsearch, s);
      TextsKept(s.source);
      TranslatedHasNoClauseIff(s.query);
      hide Form, Request, Texts, Inert, ConvertKnn;
      var dsl := Request(Elasticsearch, s);
      assert forall k | k in dsl && k != "query" :: !Convertible(k, dsl[k]) && !HasClause(dsl[k]);
      assert !Convertible("query", dsl["query"]);
    }
  }

  /** Translating an Elasticsearch request again changes nothing, exactly when no boost or weight holds a clause. */
  lemma ElasticsearchTwiceIff(s: Search)
    ensures PrepareElasticsearch(Request(Elasticsearch, s)) == Success(Request(Elasticsearch, s)) <==> Inert(Elasticsearch, s.query)
  {
    var dsl := Request(Elasticsearch, s);
    TranslatedRequestHasNoClauseIff(s);
    RewriteKeepsIff(JObj(dsl));
    assert !SoleKnn(dsl) by {
      if !s.query.Knn? { assert "knn" !in Form(Elasticsearch, s.query).fields; }
    }
    hide Request, HasClause, Rewrite;
    assert Rewrite(JObj(dsl)) == JObj(Rewrite(JObj(dsl)).fields) by { RewriteIsObject(dsl); }
  }

  lemma RewriteIsObject(d: Dict)
    ensures Rewrite(JObj(d)).JObj?
  {
  }

  /** No boost or weight holds a clause inside what the conversion of another clause copies. */
  ghost predicate Settled(q: Query)
    decreases q
  {
    match q
    case Term(_, _, boost) => FlatClauses(boost)
    case Match(_, _, boost) => FlatClauses(boost)
    case Should(clauses) => forall c <- clauses :: Settled(c)
    case FunctionScore(query, weight) => Settled(query) && FlatClauses(weight)
    case _ => true
  }

  lemma RewrittenHasNoClauseIff(j: Json)
    ensures !HasClause(Rewrite(j)) <==> FlatClauses(j)
  {
    RewriteTwiceIff(j);
    RewriteKeepsIff(Rewrite(j));
  }

  lemma {:induction false} SettledIff(q: Query)
    ensures Inert(Elasticsearch, Sent(Elasticsearch, q)) <==> Settled(q)
    decreases q
  {
    hide HasClause, FlatClauses, Rewrite;
    match q
    case Term(_, _, boost) => RewrittenHasNoClauseIff(boost);
    case Match(_, _, boost) => RewrittenHasNoClauseIff(boost);
    case Should(clauses) =>
      forall i | 0 <= i < |clauses| ensures Inert(Elasticsearch, Sent(Elasticsearch, clauses[i])) <==> Settled(clauses[i]) {
        SettledIff(clauses[i]);
      }
      var sent := SentAll(Elasticsearch, clauses);
      assert (forall c <- sent :: Inert(Elasticsearch, c)) <==> forall i | 0 <= i < |sent| :: Inert(Elasticsearch, sent[i]);
      assert (forall c <- clauses :: Settled(c)) <==> forall i | 0 <= i < |clauses| :: Settled(clauses[i]);
    case FunctionScore(query, weight) =>
      SettledIff(query);
      RewrittenHasNoClauseIff(weight);
    case _ =>
  }

  lemma InertIsSettled(q: Query)
    requires Inert(Elasticsearch, q)
    ensures Settled(q)
  {
    SentIff(Elasticsearch, 0, q);
    SettledIff(q);
  }

  /** Translating the neutral request for Elasticsearch twice is translating it once, exactly when its boosts are settled. */
  lemma NeutralTwiceIff(s: Search)
    ensures var once := PrepareElasticsearch(Request(Neutral, s));
            once.Success? && (PrepareElasticsearch(once.value) == once <==> Settled(s.query))
  {
    hide *;
    RewrittenRequest(s);
    SettledIff(s.query);
    ElasticsearchTwiceIff(s.(query := Sent(Elasticsearch, s.query)));
  }

  /**
   For every search, reading what either writer sends gives the search with its boosts translated;
   so it gives back the search (size, fields, boosts, vector, neighbours and weights, whatever the
   fields are called) exactly when no boost or weight is in the way and, in Elasticsearch, a kNN part
   that is not the whole query asks for as many neighbours as hits. Only the search width always goes,
   in OpenSearch.
   */
  lemma TranslationKeepsMeaning(s: Search)
    ensures ReadRequest(Neutral, Request(Neutral, s)) == Some(s)
    ensures var os := ReadRequest(OpenSearch, PrepareOpenSearch(Request(Neutral, s)));
            && os == Some(KeptSearch(OpenSearch, s.(query := Sent(OpenSearch, s.query))))
            && (os == Some(KeptSearch(OpenSearch, s)) <==> Inert(OpenSearch, s.query))
    ensures PrepareElasticsearch(Request(Neutral, s)).Success?
    ensures var es := ReadRequest(Elasticsearch, PrepareElasticsearch(Request(Neutral, s)).value);
            && es == Some(KeptSearch(Elasticsearch, s.(query := Sent(Elasticsearch, s.query))))
            && (es == Some(s) <==> Inert(Elasticsearch, s.query) && (s.query.Knn? || AsksFor(s.query, s.size)))
  {
    hide ReadRequest, Request, Inert, Sent, PrepareOpenSearch, PrepareElasticsearch, Kept;
    StrippedRequest(s);
    RewrittenRequest(s);
    SentSearchIff(OpenSearch, s);
    RequestBack(Neutral, s);
    RequestBack(OpenSearch, s.(query := Sent(OpenSearch, s.query)));
    RequestBack(Elasticsearch, s.(query := Sent(Elasticsearch, s.query)));
    KeptIff(Neutral, s.size, s.query);
    SentAsMeantIff(s);
  }

  lemma SentAsMeantIff(s: Search)
    ensures KeptSearch(Elasticsearch, s.(query := Sent(Elasticsearch, s.query))) == s
            <==> Inert(Elasticsearch, s.query) && (s.query.Knn? || AsksFor(s.query, s.size))
  {
    SentSearchIff(Elasticsearch, s);
    KeptIff(Elasticsearch, s.size, s.query);
    if !s.query.Knn? {
      KeptTwice(Elasticsearch, s.size, Sent(Elasticsearch, s.query));
    }
  }

  /** A form keeps all of what a form keeps. */
  lemma {:induction false} KeptTwice(d: Dialect, size: int, q: Query)
    ensures Kept(d, size, Kept(d, size, q)) == Kept(d, size, q)
    decreases q
  {
    match q
    case Should(clauses) =>
      forall i | 0 <= i < |clauses| ensures Kept(d, size, Kept(d, size, clauses[i])) == Kept(d, size, clauses[i]) {
        KeptTwice(d, size, clauses[i]);
      }
      SameItems(KeptAll(d, size, KeptAll(d, size, clauses)), KeptAll(d, size, clauses));
    case FunctionScore(query, _) => KeptTwice(d, size, query);
    case _ =>
  }

  /** A boost under a field called "knn" that has a candidate count: OpenSearch does not get the search that was meant. */
  lemma BoostTakenForBody(s: Search)
    requires s.query == Term("knn", "", JObj(map["num_candidates" := JInt(1)]))
    ensures !Inert(OpenSearch, s.query)
    ensures ReadRequest(OpenSearch, PrepareOpenSearch(Request(Neutral, s))) != Some(KeptSearch(OpenSearch, s))
  {
    assert "num_candidates" in s.query.boost.fields;
    TranslationKeepsMeaning(s);
  }

  /** A boost that is itself a clause: Elasticsearch does not get the search that was meant. */
  lemma BoostTakenForClause(s: Search)
    requires s.query == Term("f", "", Obj1("knn", Obj1("v", Obj1("vector", JInt(1)))))
    ensures !Inert(Elasticsearch, s.query)
    ensures ReadRequest(Elasticsearch, PrepareElasticsearch(Request(Neutral, s)).value) != Some(s)
    ensures PrepareElasticsearch(Request(Elasticsearch, s)) != Success(Request(Elasticsearch, s))
  {
    SoleKeyOf("v", Obj1("vector", JInt(1)));
    assert "knn" in s.query.boost.fields && Convertible("knn", s.query.boost.fields["knn"]);
    hide Request, ReadRequest, PrepareElasticsearch;
    TranslationKeepsMeaning(s);
    ElasticsearchTwiceIff(s);
  }

  /** A clause whose vector is itself a clause: the second rewriting converts what the first one copied. */
  lemma ClauseInVector() returns (j: Json)
    ensures Rewrite(Rewrite(j)) != Rewrite(j)
  {
    var hidden := Obj1("knn", Obj1("w", Obj1("vector", JInt(1))));
    j := Obj1("knn", Obj1("v", Obj1("vector", hidden)));
    SoleKeyOf("w", Obj1("vector", JInt(1)));
    SoleKeyOf("v", Obj1("vector", hidden));
    assert Convertible("knn", hidden.fields["knn"]) && HasClause(hidden);
    assert "knn" in j.fields && Convertible("knn", j.fields["knn"]);
    RewriteTwiceIff(j);
  }
}
