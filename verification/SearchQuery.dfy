/**
 Abstract searches and their three JSON forms: the backend-neutral one the compiler emits,
 and the ones OpenSearch and Elasticsearch accept. Reading a form back gives the search.
 */
module SearchQuery {
  import opened Wrappers
  import opened Json

  datatype Query =
    | MatchAll
    | Term(field: string, value: string, boost: Json)
    | Match(field: string, value: string, boost: Json)
    | MultiMatch(value: string, fields: seq<string>, kind: string)
    | Should(clauses: seq<Query>)
    | FunctionScore(query: Query, weight: Json)
    | Knn(field: string, vector: seq<real>, k: int, numCandidates: Option<int>)

  /** An empty list of source fields means no filter. */
  datatype Search = Search(size: int, query: Query, source: seq<string>)

  datatype Dialect = Neutral | OpenSearch | Elasticsearch

  // ---------------------------------------------------------------- writing

  function Texts(s: seq<string>): Json {
    JArr(seq(|s|, i requires 0 <= i < |s| => JStr(s[i])))
  }

  function Numbers(v: seq<real>): Json {
    JArr(seq(|v|, i requires 0 <= i < |v| => JFloat(v[i])))
  }

  function Obj1(key: string, value: Json): Json {
    JObj(map[key := value])
  }

  function WithCandidates(body: Dict, n: Option<int>): Dict {
    if n.Some? then body["num_candidates" := JInt(n.value)] else body
  }

  /** The value of the "knn" key, as each dialect spells it inside a query. */
  function KnnForm(d: Dialect, field: string, vector: seq<real>, k: int, n: Option<int>): Json {
    match d
    case Neutral => Obj1(field, JObj(WithCandidates(map["vector" := Numbers(vector), "k" := JInt(k)], n)))
    case OpenSearch => Obj1(field, JObj(map["vector" := Numbers(vector), "k" := JInt(k)]))
    case Elasticsearch => JObj(WithCandidates(map["field" := JStr(field), "query_vector" := Numbers(vector)], n))
  }

  function Form(d: Dialect, q: Query): Json
    decreases q
  {
    match q
    case MatchAll => Obj1("match_all", JObj(map[]))
    case Term(field, value, boost) => Obj1("term", Obj1(field, JObj(map["value" := JStr(value), "boost" := boost])))
    case Match(field, value, boost) => Obj1("match", Obj1(field, JObj(map["query" := JStr(value), "boost" := boost])))
    case MultiMatch(value, fields, kind) =>
      Obj1("multi_match", JObj(map["query" := JStr(value), "fields" := Texts(fields), "type" := JStr(kind)]))
    case Should(clauses) => Obj1("bool", Obj1("should", JArr(Forms(d, clauses))))
    case FunctionScore(query, weight) =>
      Obj1("function_score", JObj(map["query" := Form(d, query), "weight" := weight]))
    case Knn(field, vector, k, n) => Obj1("knn", KnnForm(d, field, vector, k, n))
  }

  function Forms(d: Dialect, qs: seq<Query>): (r: seq<Json>)
    ensures |r| == |qs|
    ensures forall i | 0 <= i < |qs| :: r[i] == Form(d, qs[i])
    decreases qs
  {
    if qs == [] then [] else [Form(d, qs[0])] + Forms(d, qs[1..])
  }

  function WithSource(dsl: Dict, source: seq<string>): Dict {
    if source == [] then dsl else dsl["_source" := Texts(source)]
  }

  /** The whole request. Elasticsearch takes a sole kNN query next to the size, with its k. */
  function Request(d: Dialect, s: Search): Dict {
    if d.Elasticsearch? && s.query.Knn? then
      var q := s.query;
      WithSource(map["size" := JInt(s.size),
                     "knn" := JObj(WithCandidates(map["field" := JStr(q.field), "query_vector" := Numbers(q.vector),
                                                      "k" := JInt(q.k)], q.numCandidates))], s.source)
    else
      WithSource(map["size" := JInt(s.size), "query" := Form(d, s.query)], s.source)
  }

  // ---------------------------------------------------------------- reading

  ghost function SoleKey(d: Dict): string
    requires |d| == 1
  {
    assert d.Keys != {};
    var k :| k in d;
    k
  }

  lemma SoleKeyOf(key: string, value: Json)
    ensures |map[key := value]| == 1 && SoleKey(map[key := value]) == key
  {
    assert (map[key := value]).Keys == {key};
  }

  function FieldOf(j: Json, key: string): Option<Json> {
    if j.JObj? && key in j.fields then Some(j.fields[key]) else None
  }

  function TextOf(j: Option<Json>): Option<string> {
    if j.Some? && j.value.JStr? then Some(j.value.s) else None
  }

  function IntOf(j: Option<Json>): Option<int> {
    if j.Some? && j.value.JInt? then Some(j.value.i) else None
  }

  function TextsOf(j: Option<Json>): Option<seq<string>> {
    if j.Some? && j.value.JArr? && (forall x <- j.value.items :: x.JStr?)
    then Some(seq(|j.value.items|, i requires 0 <= i < |j.value.items| => j.value.items[i].s))
    else None
  }

  function NumbersOf(j: Option<Json>): Option<seq<real>> {
    if j.Some? && j.value.JArr? && (forall x <- j.value.items :: x.JFloat?)
    then Some(seq(|j.value.items|, i requires 0 <= i < |j.value.items| => j.value.items[i].r))
    else None
  }

  /** The value of a "knn" key; a form without a k asks for as many neighbours as the request has hits. */
  ghost function ReadKnn(d: Dialect, size: int, v: Json): Option<Query> {
    if d.Elasticsearch? then
      var field, vector := TextOf(FieldOf(v, "field")), NumbersOf(FieldOf(v, "query_vector"));
      var k := IntOf(FieldOf(v, "k"));
      if field.None? || vector.None? then None
      else Some(Knn(field.value, vector.value, if k.Some? then k.value else size, IntOf(FieldOf(v, "num_candidates"))))
    else if !v.JObj? || |v.fields| != 1 then None
    else
      var field := SoleKey(v.fields);
      var body := v.fields[field];
      var vector, k := NumbersOf(FieldOf(body, "vector")), IntOf(FieldOf(body, "k"));
      if vector.None? || k.None? then None
      else Some(Knn(field, vector.value, k.value, IntOf(FieldOf(body, "num_candidates"))))
  }

  ghost function Read(d: Dialect, size: int, j: Json): Option<Query>
    decreases j
  {
    if !j.JObj? || |j.fields| != 1 then None
    else
      var key := SoleKey(j.fields);
      var v := j.fields[key];
      if key == "match_all" then Some(MatchAll)
      else if key == "knn" then ReadKnn(d, size, v)
      else if !v.JObj? then None
      else if key == "term" || key == "match" then ReadLeaf(key, v.fields)
      else if key == "multi_match" then
        var value, fields, kind := TextOf(FieldOf(v, "query")), TextsOf(FieldOf(v, "fields")), TextOf(FieldOf(v, "type"));
        if value.None? || fields.None? || kind.None? then None
        else Some(MultiMatch(value.value, fields.value, kind.value))
      else if key == "bool" && "should" in v.fields && v.fields["should"].JArr? then
        var qs := ReadAll(d, size, v.fields["should"].items);
        if qs.None? then None else Some(Should(qs.value))
      else if key == "function_score" && "query" in v.fields && "weight" in v.fields then
        var q := Read(d, size, v.fields["query"]);
        if q.None? then None else Some(FunctionScore(q.value, v.fields["weight"]))
      else None
  }

  ghost function ReadLeaf(key: string, v: Dict): Option<Query> {
    if |v| != 1 then None
    else
      var field := SoleKey(v);
      var value := TextOf(FieldOf(v[field], if key == "term" then "value" else "query"));
      var boost := FieldOf(v[field], "boost");
      if value.None? || boost.None? then None
      else Some(if key == "term" then Term(field, value.value, boost.value) else Match(field, value.value, boost.value))
  }

  ghost function ReadAll(d: Dialect, size: int, js: seq<Json>): Option<seq<Query>>
    decreases js
  {
    if js == [] then Some([])
    else
      var q, rest := Read(d, size, js[0]), ReadAll(d, size, js[1..]);
      if q.None? || rest.None? then None else Some([q.value] + rest.value)
  }

  ghost function ReadRequest(d: Dialect, dsl: Dict): Option<Search> {
    var size := IntOf(FieldOf(JObj(dsl), "size"));
    var source := if "_source" in dsl then TextsOf(Some(dsl["_source"])) else Some([]);
    if size.None? || source.None? then None
    else
      var q := if d.Elasticsearch? && "knn" in dsl then ReadKnn(d, size.value, dsl["knn"])
               else if "query" in dsl then Read(d, size.value, dsl["query"])
               else None;
      if q.None? then None else Some(Search(size.value, q.value, source.value))
  }

  // ---------------------------------------------------------------- what each dialect keeps

  /** Every kNN part asks for `size` neighbours, as the compiled ones do. */
  predicate AsksFor(q: Query, size: int)
    decreases q
  {
    match q
    case Should(clauses) => forall c <- clauses :: AsksFor(c, size)
    case FunctionScore(query, _) => AsksFor(query, size)
    case Knn(_, _, k, _) => k == size
    case _ => true
  }

  /**
   The part of a query its form holds: the search width is an index setting in OpenSearch, and the
   number of neighbours is the number of hits in Elasticsearch.
   */
  function Kept(d: Dialect, size: int, q: Query): Query
    decreases q
  {
    match q
    case Should(clauses) => Should(KeptAll(d, size, clauses))
    case FunctionScore(query, weight) => FunctionScore(Kept(d, size, query), weight)
    case Knn(field, vector, k, n) =>
      if d.OpenSearch? then Knn(field, vector, k, None) else if d.Elasticsearch? then Knn(field, vector, size, n) else q
    case _ => q
  }

  function KeptAll(d: Dialect, size: int, qs: seq<Query>): (r: seq<Query>)
    ensures |r| == |qs|
    ensures forall i | 0 <= i < |qs| :: r[i] == Kept(d, size, qs[i])
    decreases qs
  {
    if qs == [] then [] else [Kept(d, size, qs[0])] + KeptAll(d, size, qs[1..])
  }

  /** At the top of an Elasticsearch request a sole kNN query has its own number of neighbours. */
  function KeptSearch(d: Dialect, s: Search): Search {
    if d.Elasticsearch? && s.query.Knn? then s else s.(query := Kept(d, s.size, s.query))
  }

  /** The neutral form keeps everything, the Elasticsearch form exactly the queries that ask for `size` neighbours. */
  lemma {:induction false} KeptIff(d: Dialect, size: int, q: Query)
    requires !d.OpenSearch?
    ensures Kept(d, size, q) == q <==> d.Neutral? || AsksFor(q, size)
    decreases q
  {
    match q
    case Should(clauses) =>
      forall i | 0 <= i < |clauses|
        ensures Kept(d, size, clauses[i]) == clauses[i] <==> d.Neutral? || AsksFor(clauses[i], size)
      {
        KeptIff(d, size, clauses[i]);
      }
      assert KeptAll(d, size, clauses) == clauses <==> forall i | 0 <= i < |clauses| :: Kept(d, size, clauses[i]) == clauses[i];
    case FunctionScore(query, _) => KeptIff(d, size, query);
    case _ =>
  }

  lemma TextsBack(s: seq<string>)
    ensures TextsOf(Some(Texts(s))) == Some(s)
  {
    assert forall x <- Texts(s).items :: x.JStr?;
    assert TextsOf(Some(Texts(s))).value == s;
  }

  lemma NumbersBack(v: seq<real>)
    ensures NumbersOf(Some(Numbers(v))) == Some(v)
  {
    assert forall x <- Numbers(v).items :: x.JFloat?;
    assert NumbersOf(Some(Numbers(v))).value == v;
  }

  lemma KnnBack(d: Dialect, size: int, q: Query)
    requires q.Knn?
    ensures ReadKnn(d, size, KnnForm(d, q.field, q.vector, q.k, q.numCandidates)) == Some(Kept(d, size, q))
  {
    NumbersBack(q.vector);
    var v := KnnForm(d, q.field, q.vector, q.k, q.numCandidates);
    if !d.Elasticsearch? {
      SoleKeyOf(q.field, v.fields[q.field]);
    }
  }

  lemma ShouldBack(d: Dialect, size: int, q: Query)
    requires q.Should? && ReadAll(d, size, Forms(d, q.clauses)) == Some(KeptAll(d, size, q.clauses))
    ensures Read(d, size, Form(d, q)) == Some(Kept(d, size, q))
  {
    SoleKeyOf("bool", Obj1("should", JArr(Forms(d, q.clauses))));
  }

  lemma ScoreBack(d: Dialect, size: int, q: Query)
    requires q.FunctionScore? && Read(d, size, Form(d, q.query)) == Some(Kept(d, size, q.query))
    ensures Read(d, size, Form(d, q)) == Some(Kept(d, size, q))
  {
    SoleKeyOf("function_score", Form(d, q).fields["function_score"]);
  }

  lemma LeavesBack(d: Dialect, size: int, q: Query)
    requires q.MatchAll? || q.MultiMatch? || q.Knn?
    ensures Read(d, size, Form(d, q)) == Some(Kept(d, size, q))
  {
    match q
    case MatchAll =>
      SoleKeyOf("match_all", JObj(map[]));
    case MultiMatch(value, fields, kind) =>
      SoleKeyOf("multi_match", Form(d, q).fields["multi_match"]);
      TextsBack(fields);
    case Knn(field, vector, k, n) =>
      SoleKeyOf("knn", KnnForm(d, field, vector, k, n));
      KnnBack(d, size, q);
  }

  /** Reading the form of any query gives what the form keeps of it, at any nesting and for any field names. */
  lemma {:induction false} FormBack(d: Dialect, size: int, q: Query)
    ensures Read(d, size, Form(d, q)) == Some(Kept(d, size, q))
    decreases q
  {
    hide Read, Form;
    match q
    case Term(field, value, boost) =>
      LeafBack("term", field, value, boost);
    case Match(field, value, boost) =>
      LeafBack("match", field, value, boost);
    case Should(clauses) =>
      FormsBack(d, size, clauses);
      ShouldBack(d, size, q);
    case FunctionScore(query, weight) =>
      FormBack(d, size, query);
      ScoreBack(d, size, q);
    case _ =>
      LeavesBack(d, size, q);
  }

  lemma LeafBack(key: string, field: string, value: string, boost: Json)
    requires key == "term" || key == "match"
    ensures var q := if key == "term" then Term(field, value, boost) else Match(field, value, boost);
            forall d, size :: Read(d, size, Form(d, q)) == Some(q)
  {
    var q := if key == "term" then Term(field, value, boost) else Match(field, value, boost);
    var j := Form(Neutral, q);
    SoleKeyOf(key, j.fields[key]);
    SoleKeyOf(field, j.fields[key].fields[field]);
  }

  lemma {:induction false} FormsBack(d: Dialect, size: int, qs: seq<Query>)
    ensures ReadAll(d, size, Forms(d, qs)) == Some(KeptAll(d, size, qs))
    decreases qs
  {
    hide Read, Form;
    if qs != [] {
      FormBack(d, size, qs[0]);
      FormsBack(d, size, qs[1..]);
      assert Forms(d, qs)[1..] == Forms(d, qs[1..]);
    }
  }

  /** Reading a whole request gives the search back, but for the width OpenSearch keeps in the index and the neighbours Elasticsearch counts as hits. */
  lemma RequestBack(d: Dialect, s: Search)
    ensures ReadRequest(d, Request(d, s)) == Some(KeptSearch(d, s))
  {
    hide Read, Form;
    TextsBack(s.source);
    if d.Elasticsearch? && s.query.Knn? {
      NumbersBack(s.query.vector);
    } else {
      FormBack(d, s.size, s.query);
    }
  }
}
