/** The compiler from a search profile and request parameters to the backend-neutral request. */
module QueryProfileCompiler {
  import opened Wrappers
  import opened Json
  import opened SearchQuery
  import Translators = SearchTranslators

  datatype Reason =
    | UnsupportedType | UnknownKeys | NotADict | MissingEntry | Disabled | BadFieldList
    | BadCandidates | NoFields | NoVector | NoVectorField | BadResponseFields

  /** A rejected profile, or another exception (`KeyError`, `TypeError`, `AttributeError`) on an ill-typed one. */
  datatype Error = Invalid(reason: Reason) | Crash

  const SEARCH_TYPES: set<string> := {"keyword", "title", "text", "vector", "hybrid"}
  const TOP_LEVEL_KEYS: set<string> := {"tag", "search_type_profile", "response_fields"}
  const FIELD_ENTRY_KEYS: set<string> := {"field", "weight"}
  const FLAT_EXTRA_KEYS: set<string> := {"tag", "response_fields"}

  function TypeProfileKeys(searchType: string): set<string> {
    match searchType
    case "keyword" => {"enabled", "term_fields"}
    case "title" => {"enabled", "match_fields"}
    case "text" => {"enabled", "fields", "multi_match_type"}
    case "vector" => {"enabled", "vector_field", "num_candidates"}
    case "hybrid" => {"enabled", "default_vector_weight", "vector_field", "num_candidates", "fields", "match_fields",
                      "multi_match_type"}
    case _ => {}
  }

  function FieldLists(searchType: string): set<string> {
    match searchType
    case "keyword" => {"term_fields"}
    case "title" => {"match_fields"}
    case "text" => {"fields"}
    case "hybrid" => {"fields", "match_fields"}
    case _ => {}
  }

  /** What arithmetic sees; a boolean counts as 0 or 1. */
  function NumberOf(j: Json): Option<real> {
    match j
    case JInt(i) => Some(i as real)
    case JFloat(r) => Some(r)
    case JBool(b) => Some(if b then 1.0 else 0.0)
    case _ => None
  }

  lemma NumbersAre(i: int, r: real)
    ensures NumberOf(JInt(i)) == Some(i as real) && NumberOf(JFloat(r)) == Some(r)
    ensures NumberOf(JBool(true)) == Some(1.0) && NumberOf(JBool(false)) == Some(0.0)
    ensures forall j: Json :: !j.JInt? && !j.JFloat? && !j.JBool? ==> NumberOf(j).None?
  {
  }

  function Number(j: Json): real {
    if NumberOf(j).Some? then NumberOf(j).value else 0.0
  }

  // ---------------------------------------------------------------- validation

  predicate EntryOk(e: Json) {
    e.JObj? && e.fields.Keys <= FIELD_ENTRY_KEYS
  }

  predicate EntriesOk(j: Json) {
    j.JArr? && forall e <- j.items :: EntryOk(e)
  }

  method ValidateFieldEntries(entries: Json) returns (ok: bool)
    ensures ok <==> EntriesOk(entries)
  {
    if !entries.JArr? {
      return false;
    }
    for n := 0 to |entries.items|
      invariant forall i | 0 <= i < n :: EntryOk(entries.items[i])
    {
      var entry := entries.items[n];
      if !entry.JObj? || !(entry.fields.Keys <= FIELD_ENTRY_KEYS) {
        assert entry in entries.items && !EntryOk(entry);
        return false;
      }
    }
    return true;
  }

  predicate PositiveInt(j: Json) {
    j.JInt? && j.i > 0
  }

  function ValidateTypeProfile(searchType: string, profile: Json, extra: set<string>): Option<Error> {
    if !profile.JObj? then Some(Invalid(NotADict))
    else
      var p := profile.fields;
      if !(p.Keys <= TypeProfileKeys(searchType) + extra) then Some(Invalid(UnknownKeys))
      else if exists l <- FieldLists(searchType) :: l in p && !EntriesOk(p[l]) then Some(Invalid(BadFieldList))
      else if "num_candidates" in p && !PositiveInt(p["num_candidates"]) then Some(Invalid(BadCandidates))
      else None
  }

  /** The enabled, validated entry of a wrapper or of a grouped profile. */
  function CheckedEntry(searchType: string, entry: Json): Result<Dict, Error> {
    if !entry.JObj? then Failure(Crash)
    else if !Truthy(GetOr(entry.fields, "enabled", JBool(true))) then Failure(Invalid(Disabled))
    else
      match ValidateTypeProfile(searchType, entry, {})
      case Some(e) => Failure(e)
      case None => Success(entry.fields)
  }

  function ExtractTypeProfile(searchType: string, sp: Dict): Result<Dict, Error> {
    if searchType !in SEARCH_TYPES then Failure(Invalid(UnsupportedType))
    else
      var wrapper := GetOr(sp, "search_type_profile", JNull);
      if !wrapper.JNull? then
        if !(sp.Keys <= TOP_LEVEL_KEYS) then Failure(Invalid(UnknownKeys))
        else if !wrapper.JObj? then Failure(Invalid(NotADict))
        else if !(wrapper.fields.Keys <= SEARCH_TYPES) then Failure(Invalid(UnknownKeys))
        else
          var entry := GetOr(wrapper.fields, searchType, JNull);
          if entry.JNull? then Failure(Invalid(MissingEntry)) else CheckedEntry(searchType, entry)
      else if searchType in sp then
        if !(sp.Keys <= SEARCH_TYPES + FLAT_EXTRA_KEYS) then Failure(Invalid(UnknownKeys))
        else if !sp[searchType].JObj? then Failure(Invalid(NotADict))
        else CheckedEntry(searchType, sp[searchType])
      else
        match ValidateTypeProfile(searchType, JObj(sp), FLAT_EXTRA_KEYS)
        case Some(e) => Failure(e)
        case None => Success(sp)
  }

  // ---------------------------------------------------------------- which entry is taken, and what is refused

  /** What an entry of each type may hold. */
  ghost predicate WellShaped(searchType: string, p: Dict, extra: set<string>) {
    && (p.Keys - extra) <= (match searchType
                            case "keyword" => {"enabled", "term_fields"}
                            case "title" => {"enabled", "match_fields"}
                            case "text" => {"enabled", "fields", "multi_match_type"}
                            case "vector" => {"enabled", "vector_field", "num_candidates"}
                            case _ => {"enabled", "default_vector_weight", "vector_field", "num_candidates", "fields",
                                       "match_fields", "multi_match_type"})
    && (searchType == "keyword" && "term_fields" in p ==> FieldList(p["term_fields"]))
    && (searchType in {"title", "hybrid"} && "match_fields" in p ==> FieldList(p["match_fields"]))
    && (searchType in {"text", "hybrid"} && "fields" in p ==> FieldList(p["fields"]))
    && ("num_candidates" in p ==> p["num_candidates"].JInt? && p["num_candidates"].i > 0)
  }

  ghost predicate FieldList(j: Json) {
    j.JArr? && forall e <- j.items :: e.JObj? && e.fields.Keys <= {"field", "weight"}
  }

  ghost predicate Wrapped(sp: Dict) {
    "search_type_profile" in sp && !sp["search_type_profile"].JNull?
  }

  /** `p` is a well-shaped entry that is not switched off. */
  ghost predicate Usable(searchType: string, entry: Json, p: Dict) {
    entry == JObj(p) && ("enabled" in p ==> Truthy(p["enabled"])) && WellShaped(searchType, p, {})
  }

  /** The profile gives this entry for the search type: in its wrapper, in its group, or by being the entry itself. */
  ghost predicate Gives(searchType: string, sp: Dict, p: Dict) {
    && searchType in {"keyword", "title", "text", "vector", "hybrid"}
    && if Wrapped(sp) then
         && sp.Keys <= {"tag", "search_type_profile", "response_fields"}
         && sp["search_type_profile"].JObj?
         && var types := sp["search_type_profile"].fields;
            && types.Keys <= {"keyword", "title", "text", "vector", "hybrid"}
            && searchType in types && Usable(searchType, types[searchType], p)
       else if searchType in sp then
         && sp.Keys <= {"keyword", "title", "text", "vector", "hybrid", "tag", "response_fields"}
         && Usable(searchType, sp[searchType], p)
       else p == sp && WellShaped(searchType, sp, {"tag", "response_fields"})
  }

  /** Why a profile is refused before any entry of it is compiled. */
  ghost predicate Refuses(searchType: string, sp: Dict, e: Error) {
    if searchType !in {"keyword", "title", "text", "vector", "hybrid"} then e == Invalid(UnsupportedType)
    else if Wrapped(sp) then
      var w := sp["search_type_profile"];
      if !(sp.Keys <= {"tag", "search_type_profile", "response_fields"}) then e == Invalid(UnknownKeys)
      else if !w.JObj? then e == Invalid(NotADict)
      else if !(w.fields.Keys <= {"keyword", "title", "text", "vector", "hybrid"}) then e == Invalid(UnknownKeys)
      else if searchType !in w.fields || w.fields[searchType].JNull? then e == Invalid(MissingEntry)
      else
        && w.fields[searchType].JObj? && "enabled" in w.fields[searchType].fields
        && !Truthy(w.fields[searchType].fields["enabled"]) && e == Invalid(Disabled)
    else if searchType in sp then
      if !(sp.Keys <= {"keyword", "title", "text", "vector", "hybrid", "tag", "response_fields"}) then e == Invalid(UnknownKeys)
      else if !sp[searchType].JObj? then e == Invalid(NotADict)
      else
        && "enabled" in sp[searchType].fields && !Truthy(sp[searchType].fields["enabled"]) && e == Invalid(Disabled)
    else false
  }

  lemma ShapedIff(searchType: string, p: Dict, extra: set<string>)
    requires searchType in SEARCH_TYPES
    ensures ValidateTypeProfile(searchType, JObj(p), extra).None? <==> WellShaped(searchType, p, extra)
  {
    assert forall j :: EntriesOk(j) <==> FieldList(j);
    hide EntriesOk, FieldList;
    assert p.Keys <= TypeProfileKeys(searchType) + extra <==> p.Keys - extra <= TypeProfileKeys(searchType);
    assert (exists l <- FieldLists(searchType) :: l in p && !EntriesOk(p[l]))
      <==> || (searchType == "keyword" && "term_fields" in p && !EntriesOk(p["term_fields"]))
           || (searchType in {"title", "hybrid"} && "match_fields" in p && !EntriesOk(p["match_fields"]))
           || (searchType in {"text", "hybrid"} && "fields" in p && !EntriesOk(p["fields"]));
  }

  lemma GivesIff(searchType: string, sp: Dict, p: Dict)
    ensures ExtractTypeProfile(searchType, sp) == Success(p) <==> Gives(searchType, sp, p)
  {
    hide ValidateTypeProfile, WellShaped;
    if searchType in SEARCH_TYPES {
      ShapedIff(searchType, p, {});
      ShapedIff(searchType, p, FLAT_EXTRA_KEYS);
      if !Wrapped(sp) && searchType !in sp { ShapedIff(searchType, sp, FLAT_EXTRA_KEYS); }
    }
  }

  lemma RefusedIs(searchType: string, sp: Dict, e: Error)
    requires Refuses(searchType, sp, e)
    ensures ExtractTypeProfile(searchType, sp) == Failure(e)
  {
    hide ValidateTypeProfile;
  }

  /** The requested fields that are filtered by the backend: all but the score. */
  ghost function WithoutScore(items: seq<Json>): seq<string>
    requires forall x <- items :: x.JStr?
  {
    if items == [] then []
    else (if items[0].s == "score" then [] else [items[0].s]) + WithoutScore(items[1..])
  }

  ghost function SourceFields(sp: Dict): Result<seq<string>, Error> {
    var fields := GetOr(sp, "response_fields", JArr([]));
    if fields.JArr? && forall x <- fields.items :: x.JStr? then Success(WithoutScore(fields.items))
    else Failure(Invalid(BadResponseFields))
  }

  /** Without response fields nothing is filtered; with a list of texts its texts but the score are asked for; anything else is refused. */
  lemma SourceFieldsAre(sp: Dict)
    ensures "response_fields" !in sp ==> SourceFields(sp) == Success([])
    ensures "response_fields" in sp ==>
              var j := sp["response_fields"];
              if j.JArr? && forall x <- j.items :: x.JStr? then
                SourceFields(sp).Success? && forall f :: f in SourceFields(sp).value <==> f != "score" && JStr(f) in j.items
              else SourceFields(sp) == Failure(Invalid(BadResponseFields))
  {
    if "response_fields" in sp && sp["response_fields"].JArr? && forall x <- sp["response_fields"].items :: x.JStr? {
      forall f ensures f in WithoutScore(sp["response_fields"].items) <==> f != "score" && JStr(f) in sp["response_fields"].items {
        WithoutScoreHas(sp["response_fields"].items, f);
      }
    }
  }

  method ExtractResponseFields(sp: Dict) returns (r: Result<seq<string>, Error>)
    ensures r == SourceFields(sp)
  {
    var fields := GetOr(sp, "response_fields", JArr([]));
    if !fields.JArr? {
      return Failure(Invalid(BadResponseFields));
    }
    var sourceFields := [];
    for n := 0 to |fields.items|
      invariant forall i | 0 <= i < n :: fields.items[i].JStr?
      invariant sourceFields == WithoutScore(fields.items[..n])
    {
      if !fields.items[n].JStr? {
        assert fields.items[n] in fields.items;
        return Failure(Invalid(BadResponseFields));
      }
      WithoutScoreAppend(fields.items[..n], fields.items[n]);
      assert fields.items[..n + 1] == fields.items[..n] + [fields.items[n]];
      if fields.items[n].s != "score" {
        sourceFields := sourceFields + [fields.items[n].s];
      }
    }
    assert fields.items[..|fields.items|] == fields.items;
    return Success(sourceFields);
  }

  lemma {:induction false} WithoutScoreAppend(items: seq<Json>, x: Json)
    requires x.JStr? && forall y <- items :: y.JStr?
    ensures WithoutScore(items + [x]) == WithoutScore(items) + (if x.s == "score" then [] else [x.s])
  {
    if items == [] {
      assert [x][1..] == [];
    } else {
      assert (items + [x])[1..] == items[1..] + [x];
      WithoutScoreAppend(items[1..], x);
    }
  }

  /** The filter keeps exactly the named fields other than the score. */
  lemma {:induction false} WithoutScoreHas(items: seq<Json>, f: string)
    requires forall x <- items :: x.JStr?
    ensures f in WithoutScore(items) <==> f != "score" && JStr(f) in items
  {
    if items != [] {
      WithoutScoreHas(items[1..], f);
      assert items[0].JStr?;
      assert JStr(f) == items[0] <==> f == items[0].s;
      assert items == [items[0]] + items[1..];
      var head := if items[0].s == "score" then [] else [items[0].s];
      assert WithoutScore(items) == head + WithoutScore(items[1..]);
      assert f in head <==> f != "score" && f == items[0].s;
    }
  }

  // ---------------------------------------------------------------- the compilers

  function EntryField(e: Json): Option<string> {
    if e.JObj? && "field" in e.fields && e.fields["field"].JStr? then Some(e.fields["field"].s) else None
  }

  function EntryWeight(e: Json): Json {
    if e.JObj? then GetOr(e.fields, "weight", JFloat(1.0)) else JFloat(1.0)
  }

  /** One clause per entry, in order; an entry without a field name raises. */
  function LeafClauses(kind: string, valueKey: string, query: string, entries: seq<Json>): Result<seq<Json>, Error> {
    if entries == [] then Success([])
    else
      var rest := LeafClauses(kind, valueKey, query, entries[1..]);
      if EntryField(entries[0]).None? || rest.Failure? then Failure(Crash)
      else Success([Obj1(kind, Obj1(EntryField(entries[0]).value,
                                    JObj(map[valueKey := JStr(query), "boost" := EntryWeight(entries[0])])))] + rest.value)
  }

  function OneOrBool(clauses: seq<Json>): Json
    requires clauses != []
  {
    if |clauses| > 1 then Obj1("bool", Obj1("should", JArr(clauses))) else clauses[0]
  }

  /** `str(value)`, given by the caller; texts are themselves. */
  function Shown(str: Json -> string, j: Json): string {
    if j.JStr? then j.s else str(j)
  }

  /** "field^boost" texts; a missing "field" raises. */
  function BoostedFields(str: Json -> string, entries: seq<Json>): Result<seq<string>, Error> {
    if entries == [] then Success([])
    else
      var rest := BoostedFields(str, entries[1..]);
      if !entries[0].JObj? || "field" !in entries[0].fields || rest.Failure? then Failure(Crash)
      else Success([Shown(str, entries[0].fields["field"]) + "^" + Shown(str, EntryWeight(entries[0]))] + rest.value)
  }

  function MultiMatchJson(query: string, fields: seq<string>, kind: Json): Json {
    Obj1("multi_match", JObj(map["query" := JStr(query), "fields" := Texts(fields), "type" := kind]))
  }

  function Entries(p: Dict, key: string): (r: seq<Json>)
    ensures r == if key in p && p[key].JArr? then p[key].items else []
  {
    var l := GetOr(p, key, JArr([]));
    if l.JArr? then l.items else []
  }

  function CompileLeaves(kind: string, valueKey: string, listKey: string, query: string, topK: int, p: Dict): Result<Dict, Error> {
    if Entries(p, listKey) == [] then Failure(Invalid(NoFields))
    else
      match LeafClauses(kind, valueKey, query, Entries(p, listKey))
      case Failure(e) => Failure(e)
      case Success(clauses) =>
        if clauses == [] then Failure(Crash)
        else Success(map["size" := JInt(topK), "query" := OneOrBool(clauses)])
  }

  function CompileText(str: Json -> string, query: string, topK: int, p: Dict): Result<Dict, Error> {
    if Entries(p, "fields") == [] then Failure(Invalid(NoFields))
    else
      match BoostedFields(str, Entries(p, "fields"))
      case Failure(e) => Failure(e)
      case Success(fields) =>
        Success(map["size" := JInt(topK),
                    "query" := MultiMatchJson(query, fields, GetOr(p, "multi_match_type", JStr("most_fields")))])
  }

  /** The kNN clause; a profile without candidates (or with a null) leaves the key out. */
  function KnnJson(topK: int, p: Dict, vector: seq<real>): Result<Json, Error> {
    var field := GetOr(p, "vector_field", JNull);
    if !Truthy(field) then Failure(Invalid(NoVectorField))
    else if !field.JStr? then Failure(Crash)
    else
      var body := map["vector" := Numbers(vector), "k" := JInt(topK)];
      var n := GetOr(p, "num_candidates", JNull);
      Success(Obj1("knn", Obj1(field.s, JObj(if n.JNull? then body else body["num_candidates" := n]))))
  }

  function CompileVector(topK: int, p: Dict, vector: Option<seq<real>>): Result<Dict, Error> {
    if vector.None? then Failure(Invalid(NoVector))
    else
      match KnnJson(topK, p, vector.value)
      case Failure(e) => Failure(e)
      case Success(knn) => Success(map["size" := JInt(topK), "query" := knn])
  }

  /** Rounding half to even at six decimals, on exact numbers. */
  function RoundHalfEven(y: real): int {
    var f := y.Floor;
    var d := y - f as real;
    if d < 0.5 then f else if d > 0.5 then f + 1 else if f % 2 == 0 then f else f + 1
  }

  function Round6(x: real): real {
    RoundHalfEven(x * 1000000.0) as real / 1000000.0
  }

  function TextArm(str: Json -> string, query: string, p: Dict): Result<Json, Error> {
    if Entries(p, "fields") != [] then
      match BoostedFields(str, Entries(p, "fields"))
      case Failure(e) => Failure(e)
      case Success(fields) => Success(MultiMatchJson(query, fields, GetOr(p, "multi_match_type", JStr("most_fields"))))
    else if Entries(p, "match_fields") != [] then
      match LeafClauses("match", "query", query, Entries(p, "match_fields"))
      case Failure(e) => Failure(e)
      case Success(clauses) => if clauses == [] then Failure(Crash) else Success(OneOrBool(clauses))
    else Success(Obj1("match_all", JObj(map[])))
  }

  /** The caller's weight, else the profile's, else 0.6. */
  function VectorWeight(p: Dict, vectorWeight: Option<real>): (r: Json)
    ensures vectorWeight.Some? ==> r == JFloat(vectorWeight.value)
    ensures vectorWeight.None? && "default_vector_weight" in p ==> r == p["default_vector_weight"]
    ensures vectorWeight.None? && "default_vector_weight" !in p ==> r == JFloat(0.6)
  {
    if vectorWeight.Some? then JFloat(vectorWeight.value) else GetOr(p, "default_vector_weight", JFloat(0.6))
  }

  function Scored(q: Json, weight: Json): Json {
    Obj1("function_score", JObj(map["query" := q, "weight" := weight]))
  }

  function CompileHybrid(str: Json -> string, query: string, topK: int, p: Dict, vector: Option<seq<real>>,
                         vectorWeight: Option<real>): Result<Dict, Error> {
    var vw := VectorWeight(p, vectorWeight);
    if vector.None? then Failure(Invalid(NoVector))
    else if NumberOf(vw).None? then Failure(Crash)
    else
      match KnnJson(topK, p, vector.value)
      case Failure(e) => Failure(e)
      case Success(knn) =>
        match TextArm(str, query, p)
        case Failure(e) => Failure(e)
        case Success(text) =>
          var arms := [Scored(text, JFloat(Round6(1.0 - NumberOf(vw).value))), Scored(knn, vw)];
          Success(map["size" := JInt(topK), "query" := Obj1("bool", Obj1("should", JArr(arms)))])
  }

  function CompileType(str: Json -> string, searchType: string, query: string, topK: int, p: Dict,
                       vectorWeight: Option<real>, vector: Option<seq<real>>): Result<Dict, Error> {
    match searchType
    case "keyword" => CompileLeaves("term", "value", "term_fields", query, topK, p)
    case "title" => CompileLeaves("match", "query", "match_fields", query, topK, p)
    case "text" => CompileText(str, query, topK, p)
    case "vector" => CompileVector(topK, p, vector)
    case "hybrid" => CompileHybrid(str, query, topK, p, vector, vectorWeight)
    case _ => Failure(Invalid(UnsupportedType))
  }

  datatype Compiled = Compiled(dsl: Dict, responseFields: Json)

  ghost function Compiling(str: Json -> string, searchType: string, query: string, topK: int, sp: Dict,
                           vectorWeight: Option<real>, vector: Option<seq<real>>): Result<Compiled, Error> {
    match ExtractTypeProfile(searchType, sp)
    case Failure(e) => Failure(e)
    case Success(p) =>
      match CompileType(str, searchType, query, topK, p, vectorWeight, vector)
      case Failure(e) => Failure(e)
      case Success(dsl) =>
        match SourceFields(sp)
        case Failure(e) => Failure(e)
        case Success(source) => Success(Compiled(WithSource(dsl, source), GetOr(sp, "response_fields", JArr([]))))
  }

  // ---------------------------------------------------------------- what a profile means

  function LeafQuery(searchType: string, query: string, e: Json): Query
    requires EntryField(e).Some?
  {
    var boost := if "weight" in e.fields then e.fields["weight"] else JFloat(1.0);
    if searchType == "keyword" then Term(e.fields["field"].s, query, boost) else Match(e.fields["field"].s, query, boost)
  }

  function LeafQueries(searchType: string, query: string, entries: seq<Json>): (r: seq<Query>)
    requires forall e <- entries :: EntryField(e).Some?
    ensures |r| == |entries|
    ensures forall i | 0 <= i < |entries| :: r[i] == LeafQuery(searchType, query, entries[i])
  {
    seq(|entries|, i requires 0 <= i < |entries| => LeafQuery(searchType, query, entries[i]))
  }

  function OneOrShould(qs: seq<Query>): Query {
    if |qs| == 1 then qs[0] else Should(qs)
  }

  function FieldText(str: Json -> string, e: Json): string
    requires EntryField(e).Some?
  {
    var boost := if "weight" in e.fields then e.fields["weight"] else JFloat(1.0);
    e.fields["field"].s + "^" + (if boost.JStr? then boost.s else str(boost))
  }

  function FieldTexts(str: Json -> string, entries: seq<Json>): (r: seq<string>)
    requires forall e <- entries :: EntryField(e).Some?
    ensures |r| == |entries|
  {
    seq(|entries|, i requires 0 <= i < |entries| => FieldText(str, entries[i]))
  }

  function Kind(p: Dict): string {
    var kind := GetOr(p, "multi_match_type", JStr("most_fields"));
    if kind.JStr? then kind.s else ""
  }

  function KnnQuery(topK: int, p: Dict, vector: seq<real>): Query {
    var field, n := GetOr(p, "vector_field", JNull), GetOr(p, "num_candidates", JNull);
    Knn(if field.JStr? then field.s else "", vector, topK, if n.JInt? then Some(n.i) else None)
  }

  /** The entries name their fields, and the match kind is a text. */
  ghost predicate WellTyped(p: Dict) {
    && (forall l, e | l in {"term_fields", "match_fields", "fields"} && e in Entries(p, l) :: EntryField(e).Some?)
    && GetOr(p, "multi_match_type", JStr("most_fields")).JStr?
  }

  /** No boost is an object or a list. */
  ghost predicate PlainBoosts(p: Dict) {
    forall l, e | l in {"term_fields", "match_fields", "fields"} && e in Entries(p, l) :: Translators.Scalar(EntryWeight(e))
  }

  /** The search a well-typed entry asks for, independently of any JSON. */
  ghost function Meaning(str: Json -> string, searchType: string, query: string, topK: int, p: Dict,
                         vectorWeight: Option<real>, vector: Option<seq<real>>): Query
    requires WellTyped(p)
  {
    var v := if vector.Some? then vector.value else [];
    match searchType
    case "keyword" => OneOrShould(LeafQueries(searchType, query, Entries(p, "term_fields")))
    case "title" => OneOrShould(LeafQueries(searchType, query, Entries(p, "match_fields")))
    case "text" => MultiMatch(query, FieldTexts(str, Entries(p, "fields")), Kind(p))
    case "vector" => KnnQuery(topK, p, v)
    case _ =>
      var vw := VectorWeight(p, vectorWeight);
      Should([FunctionScore(TextMeaning(str, query, p), JFloat(Round6(1.0 - Number(vw)))),
              FunctionScore(KnnQuery(topK, p, v), vw)])
  }

  ghost function TextMeaning(str: Json -> string, query: string, p: Dict): Query
    requires WellTyped(p)
  {
    if Entries(p, "fields") != [] then MultiMatch(query, FieldTexts(str, Entries(p, "fields")), Kind(p))
    else if Entries(p, "match_fields") != [] then OneOrShould(LeafQueries("title", query, Entries(p, "match_fields")))
    else MatchAll
  }

  lemma {:induction false} LeafClausesMean(searchType: string, query: string, entries: seq<Json>)
    requires searchType == "keyword" || searchType == "title"
    requires forall e <- entries :: EntryField(e).Some?
    ensures var kind, valueKey := if searchType == "keyword" then "term" else "match", if searchType == "keyword" then "value" else "query";
            LeafClauses(kind, valueKey, query, entries) == Success(Forms(Neutral, LeafQueries(searchType, query, entries)))
  {
    if entries != [] {
      LeafClausesMean(searchType, query, entries[1..]);
      var qs := LeafQueries(searchType, query, entries);
      assert qs[1..] == LeafQueries(searchType, query, entries[1..]);
    }
  }

  lemma {:induction false} BoostedFieldsMean(str: Json -> string, entries: seq<Json>)
    requires forall e <- entries :: EntryField(e).Some?
    ensures BoostedFields(str, entries) == Success(FieldTexts(str, entries))
  {
    if entries != [] {
      BoostedFieldsMean(str, entries[1..]);
      assert entries[0] in entries;
      assert FieldTexts(str, entries) == [FieldText(str, entries[0])] + FieldTexts(str, entries[1..]);
    }
  }

  lemma OneOrBoolMeans(qs: seq<Query>)
    requires qs != []
    ensures OneOrBool(Forms(Neutral, qs)) == Form(Neutral, OneOrShould(qs))
  {
  }

  lemma KnnMeans(topK: int, p: Dict, vector: seq<real>)
    requires KnnJson(topK, p, vector).Success?
    requires "num_candidates" in p ==> PositiveInt(p["num_candidates"])
    ensures KnnJson(topK, p, vector).value == Form(Neutral, KnnQuery(topK, p, vector))
  {
  }

  lemma TextArmMeans(str: Json -> string, query: string, p: Dict)
    requires WellTyped(p)
    ensures TextArm(str, query, p) == Success(Form(Neutral, TextMeaning(str, query, p)))
  {
    if Entries(p, "fields") != [] {
      BoostedFieldsMean(str, Entries(p, "fields"));
    } else if Entries(p, "match_fields") != [] {
      var entries := Entries(p, "match_fields");
      LeafClausesMean("title", query, entries);
      OneOrBoolMeans(LeafQueries("title", query, entries));
    }
  }

  lemma LeavesMean(str: Json -> string, searchType: string, query: string, topK: int, p: Dict,
                   vectorWeight: Option<real>, vector: Option<seq<real>>)
    requires searchType == "keyword" || searchType == "title"
    requires WellTyped(p) && CompileType(str, searchType, query, topK, p, vectorWeight, vector).Success?
    ensures CompileType(str, searchType, query, topK, p, vectorWeight, vector)
         == Success(map["size" := JInt(topK),
                        "query" := Form(Neutral, Meaning(str, searchType, query, topK, p, vectorWeight, vector))])
  {
    var entries := Entries(p, if searchType == "keyword" then "term_fields" else "match_fields");
    LeafClausesMean(searchType, query, entries);
    OneOrBoolMeans(LeafQueries(searchType, query, entries));
  }

  lemma HybridMeans(str: Json -> string, query: string, topK: int, p: Dict,
                    vectorWeight: Option<real>, vector: Option<seq<real>>)
    requires WellTyped(p) && CompileHybrid(str, query, topK, p, vector, vectorWeight).Success?
    requires "num_candidates" in p ==> PositiveInt(p["num_candidates"])
    ensures CompileHybrid(str, query, topK, p, vector, vectorWeight)
         == Success(map["size" := JInt(topK),
                        "query" := Form(Neutral, Meaning(str, "hybrid", query, topK, p, vectorWeight, vector))])
  {
    hide WellTyped, KnnJson, TextArm, KnnQuery, TextMeaning;
    KnnMeans(topK, p, vector.value);
    TextArmMeans(str, query, p);
    var m := Meaning(str, "hybrid", query, topK, p, vectorWeight, vector);
    assert Forms(Neutral, m.clauses) == [Form(Neutral, m.clauses[0]), Form(Neutral, m.clauses[1])];
  }

  /** Every search type compiles to the neutral form of what its entry means. */
  lemma CompiledTypeMeans(str: Json -> string, searchType: string, query: string, topK: int, p: Dict,
                          vectorWeight: Option<real>, vector: Option<seq<real>>)
    requires searchType in SEARCH_TYPES && WellTyped(p)
    requires "num_candidates" in p ==> PositiveInt(p["num_candidates"])
    requires CompileType(str, searchType, query, topK, p, vectorWeight, vector).Success?
    ensures CompileType(str, searchType, query, topK, p, vectorWeight, vector)
         == Success(map["size" := JInt(topK),
                        "query" := Form(Neutral, Meaning(str, searchType, query, topK, p, vectorWeight, vector))])
  {
    if searchType == "keyword" || searchType == "title" {
      LeavesMean(str, searchType, query, topK, p, vectorWeight, vector);
    } else if searchType == "text" {
      BoostedFieldsMean(str, Entries(p, "fields"));
    } else if searchType == "vector" {
      KnnMeans(topK, p, vector.value);
    } else {
      HybridMeans(str, query, topK, p, vectorWeight, vector);
    }
  }

  predicate NamedVectorField(p: Dict) {
    var field := GetOr(p, "vector_field", JNull);
    field.JStr? && field.s != ""
  }

  /** What an entry must hold, and the caller must give, for its search type to compile. */
  predicate Compilable(searchType: string, p: Dict, vectorWeight: Option<real>, vector: Option<seq<real>>) {
    match searchType
    case "keyword" => Entries(p, "term_fields") != []
    case "title" => Entries(p, "match_fields") != []
    case "text" => Entries(p, "fields") != []
    case "vector" => vector.Some? && NamedVectorField(p)
    case _ => vector.Some? && NamedVectorField(p) && NumberOf(VectorWeight(p, vectorWeight)).Some?
  }

  lemma LeavesCompileIff(searchType: string, listKey: string, query: string, topK: int, p: Dict)
    requires searchType == "keyword" || searchType == "title"
    requires forall e <- Entries(p, listKey) :: EntryField(e).Some?
    ensures var kind, valueKey := if searchType == "keyword" then "term" else "match", if searchType == "keyword" then "value" else "query";
            CompileLeaves(kind, valueKey, listKey, query, topK, p).Success? <==> Entries(p, listKey) != []
  {
    LeafClausesMean(searchType, query, Entries(p, listKey));
  }

  lemma KnnCompilesIff(topK: int, p: Dict, vector: seq<real>)
    ensures KnnJson(topK, p, vector).Success? <==> NamedVectorField(p)
  {
  }

  /** A well-typed entry compiles exactly when it has fields or a vector field, and the caller gives the vector. */
  lemma CompilesIff(str: Json -> string, searchType: string, query: string, topK: int, p: Dict,
                    vectorWeight: Option<real>, vector: Option<seq<real>>)
    requires searchType in SEARCH_TYPES && WellTyped(p)
    ensures CompileType(str, searchType, query, topK, p, vectorWeight, vector).Success?
            <==> Compilable(searchType, p, vectorWeight, vector)
  {
    hide KnnJson, TextArm, NamedVectorField, LeafClauses, BoostedFields;
    if searchType == "keyword" {
      LeavesCompileIff(searchType, "term_fields", query, topK, p);
    } else if searchType == "title" {
      LeavesCompileIff(searchType, "match_fields", query, topK, p);
    } else if searchType == "text" {
      BoostedFieldsMean(str, Entries(p, "fields"));
    } else {
      KnnCompilesIff(topK, p, if vector.Some? then vector.value else []);
      TextArmMeans(str, query, p);
    }
  }

  lemma ValidatedEntry(searchType: string, sp: Dict)
    requires ExtractTypeProfile(searchType, sp).Success?
    ensures searchType in SEARCH_TYPES
    ensures var p := ExtractTypeProfile(searchType, sp).value; "num_candidates" in p ==> PositiveInt(p["num_candidates"])
  {
  }

  /** Compiling succeeds exactly when the entry is compilable and the response fields are texts, and gives the neutral request. */
  lemma CompilingMeans(str: Json -> string, searchType: string, query: string, topK: int, sp: Dict,
                       vectorWeight: Option<real>, vector: Option<seq<real>>)
    requires ExtractTypeProfile(searchType, sp).Success? && WellTyped(ExtractTypeProfile(searchType, sp).value)
    ensures var r := Compiling(str, searchType, query, topK, sp, vectorWeight, vector);
            var p := ExtractTypeProfile(searchType, sp).value;
            && (r.Success? <==> Compilable(searchType, p, vectorWeight, vector) && SourceFields(sp).Success?)
            && (r.Success? ==>
                  r.value.dsl == Request(Neutral, Search(topK, Meaning(str, searchType, query, topK, p, vectorWeight, vector), SourceFields(sp).value)))
  {
    hide ExtractTypeProfile, CompileType, Meaning, WellTyped, SourceFields, Form, Compilable;
    ValidatedEntry(searchType, sp);
    var p := ExtractTypeProfile(searchType, sp).value;
    CompilesIff(str, searchType, query, topK, p, vectorWeight, vector);
    if Compilable(searchType, p, vectorWeight, vector) {
      CompiledTypeMeans(str, searchType, query, topK, p, vectorWeight, vector);
      MeaningAsks(str, searchType, query, topK, p, vectorWeight, vector);
    }
  }

  method Compile(str: Json -> string, searchType: string, query: string, topK: int, sp: Dict,
                 vectorWeight: Option<real>, vector: Option<seq<real>>) returns (r: Result<Compiled, Error>)
    ensures r == Compiling(str, searchType, query, topK, sp, vectorWeight, vector)
    ensures forall e | Refuses(searchType, sp, e) :: r == Failure(e)
    ensures r.Success? ==> exists p :: Gives(searchType, sp, p)
    ensures forall p | Gives(searchType, sp, p) && WellTyped(p) ::
              && (r.Success? <==> Compilable(searchType, p, vectorWeight, vector) && SourceFields(sp).Success?)
              && (r.Success? ==>
                    && r.value.responseFields == (if "response_fields" in sp then sp["response_fields"] else JArr([]))
                    && ReadRequest(Neutral, r.value.dsl)
                       == Some(Search(topK, Meaning(str, searchType, query, topK, p, vectorWeight, vector), SourceFields(sp).value)))
  {
    hide CompileType, Meaning, WellTyped, Compilable, ReadRequest, Request, ExtractTypeProfile, SourceFields, Gives, Refuses;
    forall p ensures Gives(searchType, sp, p) <==> ExtractTypeProfile(searchType, sp) == Success(p) {
      GivesIff(searchType, sp, p);
    }
    forall e | Refuses(searchType, sp, e) ensures ExtractTypeProfile(searchType, sp) == Failure(e) {
      RefusedIs(searchType, sp, e);
    }
    if ExtractTypeProfile(searchType, sp).Success? && WellTyped(ExtractTypeProfile(searchType, sp).value) {
      CompilingMeans(str, searchType, query, topK, sp, vectorWeight, vector);
      var p := ExtractTypeProfile(searchType, sp).value;
      if Compiling(str, searchType, query, topK, sp, vectorWeight, vector).Success? {
        RequestBack(Neutral, Search(topK, Meaning(str, searchType, query, topK, p, vectorWeight, vector), SourceFields(sp).value));
        KeptIff(Neutral, topK, Meaning(str, searchType, query, topK, p, vectorWeight, vector));
      }
    }
    var extracted := ExtractTypeProfile(searchType, sp);
    if extracted.Failure? {
      return Failure(extracted.error);
    }
    var responseFields := GetOr(sp, "response_fields", JArr([]));
    var compiled := CompileType(str, searchType, query, topK, extracted.value, vectorWeight, vector);
    if compiled.Failure? {
      return Failure(compiled.error);
    }
    var dsl := compiled.value;
    var source := ExtractResponseFields(sp);
    if source.Failure? {
      return Failure(source.error);
    }
    if source.value != [] {
      dsl := dsl["_source" := Texts(source.value)];
    }
    return Success(Compiled(dsl, responseFields));
  }

  lemma LeavesAsk(searchType: string, query: string, entries: seq<Json>, size: int)
    requires forall e <- entries :: EntryField(e).Some?
    ensures AsksFor(OneOrShould(LeafQueries(searchType, query, entries)), size)
  {
    var qs := LeafQueries(searchType, query, entries);
    assert forall i | 0 <= i < |qs| :: AsksFor(qs[i], size);
  }

  lemma TextAsks(str: Json -> string, query: string, p: Dict, size: int)
    requires WellTyped(p)
    ensures AsksFor(TextMeaning(str, query, p), size)
  {
    LeavesAsk("title", query, Entries(p, "match_fields"), size);
  }

  lemma MeaningAsks(str: Json -> string, searchType: string, query: string, topK: int, p: Dict,
                    vectorWeight: Option<real>, vector: Option<seq<real>>)
    requires WellTyped(p)
    ensures AsksFor(Meaning(str, searchType, query, topK, p, vectorWeight, vector), topK)
  {
    hide TextMeaning, LeafQueries, OneOrShould, WellTyped;
    var q := Meaning(str, searchType, query, topK, p, vectorWeight, vector);
    if searchType == "keyword" || searchType == "title" {
      EntriesNamed(p);
      LeavesAsk(searchType, query, Entries(p, if searchType == "keyword" then "term_fields" else "match_fields"), topK);
    } else if searchType != "text" && searchType != "vector" {
      TextAsks(str, query, p, topK);
      assert AsksFor(q.clauses[0], topK) && AsksFor(q.clauses[1], topK);
    }
  }

  lemma EntriesNamed(p: Dict)
    requires WellTyped(p)
    ensures forall l | l in {"term_fields", "match_fields", "fields"} :: forall e <- Entries(p, l) :: EntryField(e).Some?
  {
  }

  lemma LeavesAreInert(d: Dialect, searchType: string, query: string, entries: seq<Json>)
    requires forall e <- entries :: EntryField(e).Some? && Translators.Scalar(EntryWeight(e))
    ensures Translators.Inert(d, OneOrShould(LeafQueries(searchType, query, entries)))
  {
    var qs := LeafQueries(searchType, query, entries);
    forall i | 0 <= i < |qs| ensures Translators.Inert(d, qs[i]) {
      Translators.ScalarIsInert(d, EntryWeight(entries[i]), EntryField(entries[i]).value == "knn");
    }
  }

  lemma TextIsInert(d: Dialect, str: Json -> string, query: string, p: Dict)
    requires WellTyped(p) && PlainBoosts(p)
    ensures Translators.Inert(d, TextMeaning(str, query, p))
  {
    hide LeafQueries, OneOrShould, FieldTexts;
    LeavesAreInert(d, "title", query, Entries(p, "match_fields"));
  }

  lemma ScoredIsInert(d: Dialect, q: Query, weight: Json)
    requires Translators.Inert(d, q) && Translators.Scalar(weight)
    ensures Translators.Inert(d, FunctionScore(q, weight))
  {
    Translators.ScalarIsInert(d, weight, false);
  }

  /** With plain boosts nothing in the search is in either backend's way. */
  lemma PlainIsInert(d: Dialect, str: Json -> string, searchType: string, query: string, topK: int, p: Dict,
                     vectorWeight: Option<real>, vector: Option<seq<real>>)
    requires WellTyped(p) && PlainBoosts(p) && Compilable(searchType, p, vectorWeight, vector)
    ensures Translators.Inert(d, Meaning(str, searchType, query, topK, p, vectorWeight, vector))
  {
    hide TextMeaning, LeafQueries, OneOrShould, WellTyped, PlainBoosts;
    var q := Meaning(str, searchType, query, topK, p, vectorWeight, vector);
    if searchType == "keyword" || searchType == "title" {
      EntriesNamed(p);
      BoostsPlain(p);
      LeavesAreInert(d, searchType, query, Entries(p, if searchType == "keyword" then "term_fields" else "match_fields"));
    } else if searchType != "text" && searchType != "vector" {
      TextIsInert(d, str, query, p);
      var vw := VectorWeight(p, vectorWeight);
      ScoredIsInert(d, q.clauses[0].query, JFloat(Round6(1.0 - Number(vw))));
      ScoredIsInert(d, q.clauses[1].query, vw);
      assert Translators.Inert(d, q.clauses[0]) && Translators.Inert(d, q.clauses[1]);
    }
  }

  lemma BoostsPlain(p: Dict)
    requires PlainBoosts(p)
    ensures forall l | l in {"term_fields", "match_fields", "fields"} :: forall e <- Entries(p, l) :: Translators.Scalar(EntryWeight(e))
  {
  }

  /**
   Compile, then translate for either backend: reading what is sent gives back the search the
   profile asks for, with size and neighbours equal to the requested number of hits, exactly when no
   boost that is itself an object or a list is in the backend's way. Elasticsearch keeps the search
   width. Translating again changes nothing: always in OpenSearch, in Elasticsearch exactly when no
   boost hides a clause in a clause.
   */
  lemma CompileThenTranslate(str: Json -> string, searchType: string, query: string, topK: int, sp: Dict,
                             vectorWeight: Option<real>, vector: Option<seq<real>>)
    requires Compiling(str, searchType, query, topK, sp, vectorWeight, vector).Success?
    requires WellTyped(ExtractTypeProfile(searchType, sp).value)
    ensures var dsl := Compiling(str, searchType, query, topK, sp, vectorWeight, vector).value.dsl;
            var q := Meaning(str, searchType, query, topK, ExtractTypeProfile(searchType, sp).value, vectorWeight, vector);
            var s := Search(topK, q, SourceFields(sp).value);
            var os, es := Translators.PrepareOpenSearch(dsl), Translators.PrepareElasticsearch(dsl);
            && ReadRequest(Neutral, dsl) == Some(s)
            && (ReadRequest(OpenSearch, os) == Some(KeptSearch(OpenSearch, s)) <==> Translators.Inert(OpenSearch, q))
            && Translators.PrepareOpenSearch(os) == os
            && es.Success?
            && (ReadRequest(Elasticsearch, es.value) == Some(s) <==> Translators.Inert(Elasticsearch, q))
            && (Translators.PrepareElasticsearch(es.value) == es <==> Translators.Settled(q))
    ensures PlainBoosts(ExtractTypeProfile(searchType, sp).value) ==>
              var q := Meaning(str, searchType, query, topK, ExtractTypeProfile(searchType, sp).value, vectorWeight, vector);
              Translators.Settled(q) && forall d :: Translators.Inert(d, q)
  {
    hide Meaning, CompileType, ExtractTypeProfile, WellTyped, PlainBoosts, Request, ReadRequest, SourceFields, Compilable;
    CompilingMeans(str, searchType, query, topK, sp, vectorWeight, vector);
    var p := ExtractTypeProfile(searchType, sp).value;
    var s := Search(topK, Meaning(str, searchType, query, topK, p, vectorWeight, vector), SourceFields(sp).value);
    MeaningAsks(str, searchType, query, topK, p, vectorWeight, vector);
    Translators.TranslationKeepsMeaning(s);
    Translators.OpenSearchRequestIff(s);
    Translators.NeutralTwiceIff(s);
    if PlainBoosts(p) {
      forall d ensures Translators.Inert(d, s.query) {
        PlainIsInert(d, str, searchType, query, topK, p, vectorWeight, vector);
      }
      Translators.InertIsSettled(s.query);
    }
  }

  /** Rounding goes to the nearest, and from the middle to the even neighbour. */
  lemma RoundsToEven(y: real)
    ensures var n := RoundHalfEven(y);
            && -0.5 <= n as real - y <= 0.5
            && (n as real - y == 0.5 || n as real - y == -0.5 ==> n % 2 == 0)
  {
  }

  /** The two hybrid arms weigh one in all, to within half a unit of the sixth decimal. */
  lemma ArmWeightsSumToOne(vw: real)
    ensures -0.0000005 <= Round6(1.0 - vw) + vw - 1.0 <= 0.0000005
  {
    var y := (1.0 - vw) * 1000000.0;
    assert -0.5 <= RoundHalfEven(y) as real - y <= 0.5;
  }
}
