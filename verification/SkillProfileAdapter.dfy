/** The adapter from the flat skill profile, with its "field^boost" texts, to the compiler's profile. */
module SkillProfileAdapter {
  import opened Wrappers
  import opened Json
  import opened SearchQuery
  import opened QueryProfileCompiler
  import Translators = SearchTranslators

  /** `float(text)`, None where it raises, and the order in which a dictionary's keys are walked. */
  datatype Python = Python(float: string -> Option<real>, keys: Dict -> seq<string>) {
    ghost predicate Walks() {
      forall d, k :: k in keys(d) <==> k in d
    }
  }

  const DEFAULT_VECTOR_FIELD := "content_vector"

  // ---------------------------------------------------------------- "field^boost"

  function CaretAt(s: string): (i: nat)
    ensures i <= |s| && '^' !in s[..i] && (i < |s| ==> s[i] == '^')
  {
    if s == "" || s[0] == '^' then 0
    else
      assert s[..1 + CaretAt(s[1..])] == [s[0]] + s[1..][..CaretAt(s[1..])];
      1 + CaretAt(s[1..])
  }

  /** An unreadable boost counts as 1. */
  function ParseFieldBoost(py: Python, spec: string): (string, real) {
    var i := CaretAt(spec);
    if i == |spec| then (spec, 1.0)
    else
      var w := py.float(spec[i + 1..]);
      (spec[..i], if w.Some? then w.value else 1.0)
  }

  function BoostEntry(py: Python, spec: string): Json {
    var (field, weight) := ParseFieldBoost(py, spec);
    JObj(map["field" := JStr(field), "weight" := JFloat(weight)])
  }

  /** The weight is a number and reading its text gives it back: true of a float, and of an integer a float can hold. */
  ghost predicate Reads(str: Json -> string, py: Python, w: Json) {
    (w.JInt? || w.JFloat?) && py.float(str(w)) == Some(Number(w))
  }

  lemma {:induction false} CaretAfter(field: string, rest: string)
    requires '^' !in field
    ensures CaretAt(field + "^" + rest) == |field|
  {
    if field != "" {
      assert (field + "^" + rest)[1..] == field[1..] + "^" + rest;
      CaretAfter(field[1..], rest);
    }
  }

  /** Parsing what the compiler renders gives the pair back exactly when the field has no caret. */
  lemma RenderedBoostParsesIff(str: Json -> string, py: Python, field: string, w: Json)
    requires Reads(str, py, w)
    ensures ParseFieldBoost(py, field + "^" + Shown(str, w)) == (field, Number(w)) <==> '^' !in field
  {
    var s := field + "^" + str(w);
    if '^' !in field {
      CaretAfter(field, str(w));
      assert s[..|field|] == field && s[|field| + 1..] == str(w);
    } else {
      assert s[|field|] == '^';
      assert '^' !in ParseFieldBoost(py, s).0;
    }
  }

  /** The text is the field alone, for a boost of 1, or the field, a caret and the boost, where an unreadable one is 1. */
  ghost predicate Spells(py: Python, spec: string, field: string, boost: real) {
    && '^' !in field
    && ((spec == field && boost == 1.0)
        || exists t :: spec == field + "^" + t && boost == (if py.float(t).Some? then py.float(t).value else 1.0))
  }

  /** Every text spells out exactly one field and boost, the ones it is parsed to. */
  lemma SpellsIff(py: Python, spec: string, field: string, boost: real)
    ensures ParseFieldBoost(py, spec) == (field, boost) <==> Spells(py, spec, field, boost)
  {
    var i := CaretAt(spec);
    if ParseFieldBoost(py, spec) == (field, boost) {
      if i == |spec| {
        assert spec[..i] == spec;
      } else {
        assert spec == spec[..i] + "^" + spec[i + 1..];
      }
    }
    if Spells(py, spec, field, boost) {
      if spec == field && boost == 1.0 {
        assert forall k | 0 <= k < |spec| :: spec[k] in spec && spec[k] != '^';
      } else {
        var t :| spec == field + "^" + t && boost == (if py.float(t).Some? then py.float(t).value else 1.0);
        CaretAfter(field, t);
        assert spec[..|field|] == field && spec[|field| + 1..] == t;
      }
    }
  }

  // ---------------------------------------------------------------- the sections

  predicate AllTexts(j: Json) {
    j.JArr? && forall x <- j.items :: x.JStr?
  }

  /** What a `for` loop over the value goes through: a text's characters, a dictionary's keys; None where it raises. */
  function Walked(py: Python, j: Json): Option<seq<Json>> {
    match j
    case JArr(items) => Some(items)
    case JStr(s) => Some(seq(|s|, i requires 0 <= i < |s| => JStr([s[i]])))
    case JObj(f) => var ks := py.keys(f); Some(seq(|ks|, i requires 0 <= i < |ks| => JStr(ks[i])))
    case _ => None
  }

  /** The fields are truthy and cannot be walked. */
  predicate Unwalkable(section: Dict) {
    var fields := GetOr(section, "fields", JArr([]));
    Truthy(fields) && !fields.JArr? && !fields.JStr? && !fields.JObj?
  }

  /** The fields are truthy and every one walked is a text. */
  predicate TextFields(py: Python, section: Dict) {
    var fields := GetOr(section, "fields", JArr([]));
    && Truthy(fields)
    && Walked(py, fields).Some?
    && forall x <- Walked(py, fields).value :: x.JStr?
  }

  /** The "field^boost" texts of a section. */
  function Specs(py: Python, section: Dict): (r: seq<string>)
    requires TextFields(py, section)
    ensures py.Walks() ==> r != []
  {
    var fields := GetOr(section, "fields", JArr([]));
    var w := Walked(py, fields).value;
    assert py.Walks() && fields.JObj? ==> w != [] by {
      if py.Walks() && fields.JObj? {
        var k :| k in fields.fields;
        assert k in py.keys(fields.fields);
      }
    }
    seq(|w|, i requires 0 <= i < |w| => w[i].s)
  }

  function BoostEntries(py: Python, specs: seq<string>): (r: seq<Json>)
    ensures |r| == |specs|
    ensures forall i | 0 <= i < |specs| :: r[i] == BoostEntry(py, specs[i])
  {
    seq(|specs|, i requires 0 <= i < |specs| => BoostEntry(py, specs[i]))
  }

  function AdaptKeyword(py: Python, kw: Dict): Dict {
    if TextFields(py, kw) then map["term_fields" := JArr(BoostEntries(py, Specs(py, kw)))]
    else kw - {"fields"}
  }

  const DEFAULT_TITLE: Dict := map["match_fields" := JArr([JObj(map["field" := JStr("name"), "weight" := JFloat(1.0)])])]

  function AdaptTitle(py: Python, title: Json): Dict {
    if title.JObj? && TextFields(py, title.fields) then
      map["match_fields" := JArr(BoostEntries(py, Specs(py, title.fields)))]
    else if title.JObj? && Truthy(GetOr(title.fields, "match_fields", JNull)) then
      map["match_fields" := title.fields["match_fields"]]
    else DEFAULT_TITLE
  }

  function AdaptText(py: Python, tx: Dict): Dict {
    var fields := if TextFields(py, tx) then JArr(BoostEntries(py, Specs(py, tx))) else GetOr(tx, "fields", JArr([]));
    var d := map["fields" := fields];
    if "multi_match_type" in tx then d["multi_match_type" := tx["multi_match_type"]] else d
  }

  function AdaptVector(vec: Dict): Dict {
    var d := map["vector_field" := GetOr(vec, "vector_field", JStr(DEFAULT_VECTOR_FIELD))];
    if "num_candidates" in vec then d["num_candidates" := vec["num_candidates"]] else d
  }

  /** `a or b`. */
  function Or(a: Json, b: Json): Json {
    if Truthy(a) then a else b
  }

  /** `float(value)`: None where it raises. */
  function FloatOf(py: Python, j: Json): Option<real> {
    if j.JStr? then py.float(j.s) else NumberOf(j)
  }

  /** The newer name first, then the older one. */
  function HybridWeight(hy: Dict): Json {
    Or(GetOr(hy, "default_vector_weight", JNull), GetOr(hy, "vector_weight", JNull))
  }

  const HYBRID_COPIED: set<string> := {"num_candidates", "fields", "match_fields", "multi_match_type"}

  function AdaptHybrid(py: Python, hy: Dict, vector: Json): Result<Dict, Error> {
    var dvw := HybridWeight(hy);
    var own := GetOr(hy, "vector_field", JNull);
    if !dvw.JNull? && FloatOf(py, dvw).None? then Failure(Crash)
    else if !Truthy(own) && Truthy(vector) && !vector.JObj? then Failure(Crash)
    else
      var sub := if vector.JObj? then vector.fields else map[];
      var field := Or(own, GetOr(sub, "vector_field", JStr(DEFAULT_VECTOR_FIELD)));
      var weight: Dict := if dvw.JNull? then map[] else map["default_vector_weight" := JFloat(FloatOf(py, dvw).value)];
      Success(weight + map["vector_field" := field] + (map k | k in hy && k in HYBRID_COPIED :: hy[k]))
  }

  predicate SectionBad(raw: Dict, name: string) {
    name in raw && raw[name].JObj? && Unwalkable(raw[name].fields)
  }

  /** The whole adapted profile, section by section. */
  ghost function Adapted(py: Python, raw: Dict): Result<Dict, Error> {
    if "search_type_profile" in raw then Success(raw)
    else if SectionBad(raw, "keyword") || SectionBad(raw, "title") || SectionBad(raw, "text") then Failure(Crash)
    else
      var hybrid := if "hybrid" in raw && raw["hybrid"].JObj?
                    then AdaptHybrid(py, raw["hybrid"].fields, GetOr(raw, "vector", JNull))
                    else Success(map[]);
      if hybrid.Failure? then Failure(hybrid.error)
      else Success(map k | k in AdaptedKeys(raw) :: AdaptedSection(py, raw, hybrid.value, k))
  }

  ghost function AdaptedKeys(raw: Dict): set<string> {
    {"title"}
    + (set k | k in {"keyword", "text", "vector", "hybrid"} && k in raw && raw[k].JObj?)
    + (if "response_fields" in raw then {"response_fields"} else {})
  }

  ghost function AdaptedSection(py: Python, raw: Dict, hybrid: Dict, k: string): Json
    requires k in AdaptedKeys(raw)
  {
    if k == "title" then JObj(AdaptTitle(py, GetOr(raw, "title", JNull)))
    else if k == "keyword" then JObj(AdaptKeyword(py, raw[k].fields))
    else if k == "text" then JObj(AdaptText(py, raw[k].fields))
    else if k == "vector" then JObj(AdaptVector(raw[k].fields))
    else if k == "hybrid" then JObj(hybrid)
    else raw[k]
  }

  /** A section of the raw profile that is adapted. */
  predicate HasSection(raw: Dict, name: string) {
    name in raw && raw[name].JObj?
  }

  lemma AdaptedIs(py: Python, raw: Dict, hybrid: Dict, adapted: Dict)
    requires "search_type_profile" !in raw
    requires !SectionBad(raw, "keyword") && !SectionBad(raw, "title") && !SectionBad(raw, "text")
    requires Success(hybrid) == (if HasSection(raw, "hybrid")
                                 then AdaptHybrid(py, raw["hybrid"].fields, GetOr(raw, "vector", JNull))
                                 else Success(map[]))
    requires adapted.Keys <= {"keyword", "title", "text", "vector", "hybrid", "response_fields"}
    requires "title" in adapted && adapted["title"] == JObj(AdaptTitle(py, GetOr(raw, "title", JNull)))
    requires ("keyword" in adapted <==> HasSection(raw, "keyword"))
    requires ("keyword" in adapted ==> adapted["keyword"] == JObj(AdaptKeyword(py, raw["keyword"].fields)))
    requires ("text" in adapted <==> HasSection(raw, "text"))
    requires ("text" in adapted ==> adapted["text"] == JObj(AdaptText(py, raw["text"].fields)))
    requires ("vector" in adapted <==> HasSection(raw, "vector"))
    requires ("vector" in adapted ==> adapted["vector"] == JObj(AdaptVector(raw["vector"].fields)))
    requires ("hybrid" in adapted <==> HasSection(raw, "hybrid"))
    requires ("hybrid" in adapted ==> adapted["hybrid"] == JObj(hybrid))
    requires ("response_fields" in adapted <==> "response_fields" in raw)
    requires ("response_fields" in adapted ==> adapted["response_fields"] == raw["response_fields"])
    ensures Adapted(py, raw) == Success(adapted)
  {
    hide AdaptTitle, AdaptKeyword, AdaptText, AdaptVector, AdaptHybrid, SectionBad;
    assert adapted.Keys == AdaptedKeys(raw);
    assert adapted == map k | k in AdaptedKeys(raw) :: AdaptedSection(py, raw, hybrid, k);
  }

  lemma AdaptedEarly(py: Python, raw: Dict)
    ensures "search_type_profile" in raw ==> Adapted(py, raw) == Success(raw)
    ensures "search_type_profile" !in raw && (SectionBad(raw, "keyword") || SectionBad(raw, "title") || SectionBad(raw, "text")) ==>
              Adapted(py, raw) == Failure(Crash)
    ensures "search_type_profile" !in raw && !SectionBad(raw, "keyword") && !SectionBad(raw, "title") && !SectionBad(raw, "text")
            && "hybrid" in raw && raw["hybrid"].JObj?
            && AdaptHybrid(py, raw["hybrid"].fields, GetOr(raw, "vector", JNull)).Failure? ==>
              Adapted(py, raw) == Failure(AdaptHybrid(py, raw["hybrid"].fields, GetOr(raw, "vector", JNull)).error)
  {
    hide AdaptedKeys, AdaptedSection, AdaptHybrid, SectionBad;
  }

  method AdaptSkillProfile(py: Python, raw: Dict) returns (r: Result<Dict, Error>)
    ensures r == Adapted(py, raw)
  {
    hide AdaptTitle, AdaptKeyword, AdaptText, AdaptVector, AdaptHybrid, SectionBad, Adapted, GetOr;
    AdaptedEarly(py, raw);
    if "search_type_profile" in raw {
      return Success(raw);
    }
    if SectionBad(raw, "keyword") || SectionBad(raw, "title") || SectionBad(raw, "text") {
      return Failure(Crash);
    }
    var adapted: Dict := map[];
    if HasSection(raw, "keyword") {
      adapted := adapted["keyword" := JObj(AdaptKeyword(py, raw["keyword"].fields))];
    }
    adapted := adapted["title" := JObj(AdaptTitle(py, GetOr(raw, "title", JNull)))];
    if HasSection(raw, "text") {
      adapted := adapted["text" := JObj(AdaptText(py, raw["text"].fields))];
    }
    if HasSection(raw, "vector") {
      adapted := adapted["vector" := JObj(AdaptVector(raw["vector"].fields))];
    }
    var hybrid: Result<Dict, Error> := Success(map[]);
    if HasSection(raw, "hybrid") {
      hybrid := AdaptHybrid(py, raw["hybrid"].fields, GetOr(raw, "vector", JNull));
      if hybrid.Failure? {
        return Failure(hybrid.error);
      }
      adapted := adapted["hybrid" := JObj(hybrid.value)];
    }
    if "response_fields" in raw {
      adapted := adapted["response_fields" := raw["response_fields"]];
    }
    AdaptedIs(py, raw, hybrid.value, adapted);
    return Success(adapted);
  }

  // ---------------------------------------------------------------- adapting twice

  /** The hybrid section's weight, which may be under either name, reads as zero. */
  ghost predicate ZeroHybridWeight(py: Python, raw: Dict) {
    && HasSection(raw, "hybrid")
    && var w := HybridWeight(raw["hybrid"].fields);
       !w.JNull? && FloatOf(py, w) == Some(0.0)
  }

  lemma EntriesAreNotTexts(py: Python, specs: seq<string>)
    requires specs != []
    ensures !forall x <- BoostEntries(py, specs) :: x.JStr?
  {
    assert BoostEntries(py, specs)[0] in BoostEntries(py, specs);
  }

  lemma TitleTwice(py: Python, title: Json)
    requires py.Walks()
    ensures AdaptTitle(py, JObj(AdaptTitle(py, title))) == AdaptTitle(py, title)
    ensures !Unwalkable(AdaptTitle(py, title))
  {
    assert DEFAULT_TITLE["match_fields"].items != [];
  }

  lemma KeywordTwice(py: Python, kw: Dict)
    ensures AdaptKeyword(py, AdaptKeyword(py, kw)) == AdaptKeyword(py, kw)
    ensures !Unwalkable(AdaptKeyword(py, kw))
  {
    var a := AdaptKeyword(py, kw);
    assert a - {"fields"} == a;
  }

  lemma TextTwice(py: Python, tx: Dict)
    requires py.Walks() && !Unwalkable(tx)
    ensures AdaptText(py, AdaptText(py, tx)) == AdaptText(py, tx)
    ensures !Unwalkable(AdaptText(py, tx))
  {
    var a := AdaptText(py, tx);
    if TextFields(py, tx) {
      EntriesAreNotTexts(py, Specs(py, tx));
    } else {
      assert a["fields"] == GetOr(tx, "fields", JArr([]));
    }
    assert !TextFields(py, a);
  }

  lemma VectorTwice(vec: Dict)
    ensures AdaptVector(AdaptVector(vec)) == AdaptVector(vec)
  {
  }

  lemma HybridParts(py: Python, hy: Dict, vector: Json)
    requires AdaptHybrid(py, hy, vector).Success?
    ensures var a := AdaptHybrid(py, hy, vector).value;
            && a.Keys <= {"default_vector_weight", "vector_field"} + HYBRID_COPIED
            && "vector_field" in a && "vector_weight" !in a
            && ("default_vector_weight" in a <==> !HybridWeight(hy).JNull?)
            && ("default_vector_weight" in a ==> a["default_vector_weight"] == JFloat(FloatOf(py, HybridWeight(hy)).value))
            && (forall k | k in HYBRID_COPIED :: (k in a <==> k in hy) && (k in a ==> a[k] == hy[k]))
            && a["vector_field"] == Or(GetOr(hy, "vector_field", JNull),
                                       GetOr(if vector.JObj? then vector.fields else map[], "vector_field", JStr(DEFAULT_VECTOR_FIELD)))
  {
    hide HybridWeight, FloatOf;
  }

  lemma SameDict(a: Dict, b: Dict)
    ensures a == b <==> a.Keys == b.Keys && forall k <- a :: a[k] == b[k]
  {
  }

  /** The vector field a hybrid section falls back to is the same before and after adapting. */
  lemma HybridTwiceIff(py: Python, hy: Dict, vector: Json)
    requires AdaptHybrid(py, hy, vector).Success?
    ensures var a := AdaptHybrid(py, hy, vector).value;
            var vector' := if vector.JObj? then JObj(AdaptVector(vector.fields)) else JNull;
            AdaptHybrid(py, a, vector') == Success(a)
            <==> (HybridWeight(hy).JNull? || FloatOf(py, HybridWeight(hy)) != Some(0.0))
  {
    var a := AdaptHybrid(py, hy, vector).value;
    var vector' := if vector.JObj? then JObj(AdaptVector(vector.fields)) else JNull;
    HybridParts(py, hy, vector);
    var again := AdaptHybrid(py, a, vector');
    HybridSucceedsAgain(py, a, vector');
    HybridParts(py, a, vector');
    WeightAgain(py, a);
    hide AdaptHybrid, HybridWeight, FloatOf;
    SameDict(again.value, a);
    assert forall k | k in HYBRID_COPIED && k in a :: again.value[k] == a[k];
    assert again.value["vector_field"] == a["vector_field"];
  }

  lemma HybridSucceedsAgain(py: Python, a: Dict, vector: Json)
    requires vector.JNull? || vector.JObj?
    requires "vector_weight" !in a && ("default_vector_weight" in a ==> a["default_vector_weight"].JFloat?)
    ensures AdaptHybrid(py, a, vector).Success?
  {
  }

  lemma WeightAgain(py: Python, a: Dict)
    requires "vector_weight" !in a && ("default_vector_weight" in a ==> a["default_vector_weight"].JFloat?)
    ensures HybridWeight(a).JNull? <==> "default_vector_weight" !in a || a["default_vector_weight"].r == 0.0
    ensures !HybridWeight(a).JNull? ==> FloatOf(py, HybridWeight(a)) == Some(a["default_vector_weight"].r)
  {
  }

  lemma AdaptedParts(py: Python, raw: Dict)
    requires Adapted(py, raw).Success? && "search_type_profile" !in raw
    ensures var a := Adapted(py, raw).value;
            && a.Keys == AdaptedKeys(raw)
            && "search_type_profile" !in a && !SectionBad(raw, "text")
            && a["title"] == JObj(AdaptTitle(py, GetOr(raw, "title", JNull)))
            && ("keyword" in a ==> raw["keyword"].JObj? && a["keyword"] == JObj(AdaptKeyword(py, raw["keyword"].fields)))
            && ("text" in a ==> raw["text"].JObj? && a["text"] == JObj(AdaptText(py, raw["text"].fields)))
            && ("vector" in a ==> raw["vector"].JObj? && a["vector"] == JObj(AdaptVector(raw["vector"].fields)))
            && ("response_fields" in a ==> a["response_fields"] == raw["response_fields"])
  {
    hide AdaptTitle, AdaptKeyword, AdaptText, AdaptVector, AdaptHybrid, SectionBad;
  }

  lemma AdaptedHybrid(py: Python, raw: Dict)
    requires Adapted(py, raw).Success? && "search_type_profile" !in raw && "hybrid" in Adapted(py, raw).value
    ensures raw["hybrid"].JObj?
    ensures var h := AdaptHybrid(py, raw["hybrid"].fields, GetOr(raw, "vector", JNull));
            h.Success? && Adapted(py, raw).value["hybrid"] == JObj(h.value)
  {
    hide AdaptTitle, AdaptKeyword, AdaptText, AdaptVector, AdaptHybrid, SectionBad;
  }

  lemma KeysTwice(py: Python, raw: Dict, a: Dict)
    requires "search_type_profile" !in raw && Adapted(py, raw) == Success(a)
    ensures AdaptedKeys(a) == a.Keys
    ensures forall k | k in {"keyword", "title", "text", "vector", "hybrid"} && k in a :: a[k].JObj?
  {
    hide AdaptTitle, AdaptKeyword, AdaptText, AdaptVector, AdaptHybrid, Adapted, SectionBad;
    AdaptedParts(py, raw);
    if "hybrid" in a { AdaptedHybrid(py, raw); }
  }

  /** The field texts of a section are its list, or what a walk over a text or a dictionary meets. */
  lemma SpecsAre(py: Python, section: Dict)
    requires "fields" in section && Truthy(section["fields"])
    ensures section["fields"].JStr? ==>
              && TextFields(py, section) && |Specs(py, section)| == |section["fields"].s|
              && forall i | 0 <= i < |section["fields"].s| :: Specs(py, section)[i] == [section["fields"].s[i]]
    ensures section["fields"].JObj? ==> TextFields(py, section) && Specs(py, section) == py.keys(section["fields"].fields)
    ensures section["fields"].JArr? ==> (TextFields(py, section) <==> AllTexts(section["fields"]))
    ensures AllTexts(section["fields"]) ==>
              && |Specs(py, section)| == |section["fields"].items|
              && forall i | 0 <= i < |section["fields"].items| :: JStr(Specs(py, section)[i]) == section["fields"].items[i]
  {
    var f := section["fields"];
    assert AllTexts(f) ==> forall i | 0 <= i < |f.items| :: f.items[i] in f.items;
  }

  /** The adapted profile holds these sections and no other. */
  lemma AdaptedHolds(py: Python, raw: Dict)
    requires "search_type_profile" !in raw && Adapted(py, raw).Success?
    ensures var a := Adapted(py, raw).value;
            && "title" in a && a.Keys <= {"keyword", "title", "text", "vector", "hybrid", "response_fields"}
            && (forall k | k in {"keyword", "text", "vector", "hybrid"} :: k in a <==> k in raw && raw[k].JObj?)
            && ("response_fields" in a <==> "response_fields" in raw)
            && ("response_fields" in a ==> a["response_fields"] == raw["response_fields"])
  {
    AdaptedParts(py, raw);
  }

  /** The adaptation raises exactly on fields it cannot walk, on a weight that is no number, and on a vector section it cannot look into. */
  lemma AdaptFailsIff(py: Python, raw: Dict)
    ensures "search_type_profile" in raw ==> Adapted(py, raw) == Success(raw)
    ensures "search_type_profile" !in raw ==>
              (Adapted(py, raw).Failure?
               <==> || (exists n :: n in {"keyword", "title", "text"} && NumberedFields(raw, n))
                    || (HasSection(raw, "hybrid") && BadHybrid(py, raw["hybrid"].fields, if "vector" in raw then raw["vector"] else JNull)))
  {
    hide *;
    AdaptedFails(py, raw);
    NumberedIsBad(raw, "keyword");
    NumberedIsBad(raw, "title");
    NumberedIsBad(raw, "text");
    assert NumberedFields(raw, "keyword") || NumberedFields(raw, "title") || NumberedFields(raw, "text")
      <==> exists n :: n in {"keyword", "title", "text"} && NumberedFields(raw, n);
    VectorOf(raw);
    if HasSection(raw, "hybrid") {
      HybridFails(py, raw["hybrid"].fields, GetOr(raw, "vector", JNull));
    }
  }

  lemma VectorOf(raw: Dict)
    ensures GetOr(raw, "vector", JNull) == if "vector" in raw then raw["vector"] else JNull
    ensures HasSection(raw, "hybrid") ==> "hybrid" in raw && raw["hybrid"].JObj?
  {
  }

  lemma AdaptedFails(py: Python, raw: Dict)
    ensures "search_type_profile" in raw ==> Adapted(py, raw) == Success(raw)
    ensures "search_type_profile" !in raw ==>
              (Adapted(py, raw).Failure?
               <==> || SectionBad(raw, "keyword") || SectionBad(raw, "title") || SectionBad(raw, "text")
                    || (HasSection(raw, "hybrid") && AdaptHybrid(py, raw["hybrid"].fields, GetOr(raw, "vector", JNull)).Failure?))
  {
    hide AdaptedKeys, AdaptedSection, SectionBad, AdaptHybrid, GetOr;
  }

  lemma NumberedIsBad(raw: Dict, name: string)
    ensures SectionBad(raw, name) <==> NumberedFields(raw, name)
  {
  }

  lemma HybridFails(py: Python, hy: Dict, vector: Json)
    ensures AdaptHybrid(py, hy, vector).Failure? <==> BadHybrid(py, hy, vector)
  {
  }

  /** The section's fields are a number other than zero, or true. */
  ghost predicate NumberedFields(raw: Dict, name: string) {
    && name in raw && raw[name].JObj? && "fields" in raw[name].fields
    && match raw[name].fields["fields"]
       case JInt(i) => i != 0
       case JFloat(r) => r != 0.0
       case JBool(b) => b
       case _ => false
  }

  ghost predicate BadHybrid(py: Python, hy: Dict, vector: Json) {
    var given := if "default_vector_weight" in hy && Truthy(hy["default_vector_weight"]) then hy["default_vector_weight"]
                 else if "vector_weight" in hy then hy["vector_weight"] else JNull;
    || given.JArr? || given.JObj? || (given.JStr? && py.float(given.s).None?)
    || (!("vector_field" in hy && Truthy(hy["vector_field"])) && Truthy(vector) && !vector.JObj?)
  }

  /** Sections that give no field texts, in the form the compiler takes, are passed on. */
  lemma OtherSectionsKept(py: Python, raw: Dict)
    requires "search_type_profile" !in raw && Adapted(py, raw).Success?
    ensures var a := Adapted(py, raw).value;
            && ("keyword" in a && "fields" !in raw["keyword"].fields ==> a["keyword"] == raw["keyword"])
            && ("title" in raw && raw["title"].JObj? && "fields" !in raw["title"].fields ==>
                  "title" in a
                  && a["title"] == JObj(map["match_fields" :=
                       if "match_fields" in raw["title"].fields && Truthy(raw["title"].fields["match_fields"])
                       then raw["title"].fields["match_fields"]
                       else JArr([JObj(map["field" := JStr("name"), "weight" := JFloat(1.0)])])]))
            && ("title" !in raw ==>
                  "title" in a
                  && a["title"] == JObj(map["match_fields" := JArr([JObj(map["field" := JStr("name"), "weight" := JFloat(1.0)])])]))
            && ("text" in a && !TextFields(py, raw["text"].fields) ==>
                  && a["text"].JObj? && "fields" in a["text"].fields
                  && a["text"].fields["fields"] == (if "fields" in raw["text"].fields then raw["text"].fields["fields"] else JArr([])))
            && ("text" in a ==>
                  && a["text"].JObj? && a["text"].fields.Keys - {"fields"} == raw["text"].fields.Keys * {"multi_match_type"}
                  && ("multi_match_type" in a["text"].fields ==>
                        a["text"].fields["multi_match_type"] == raw["text"].fields["multi_match_type"]))
  {
    hide AdaptHybrid, AdaptVector, Specs, BoostEntries, Unwalkable;
    AdaptedParts(py, raw);
    if "keyword" in AdaptedKeys(raw) {
      var kw := raw["keyword"].fields;
      assert "fields" !in kw ==> kw - {"fields"} == kw;
    }
  }

  /** The vector section is its field, by default "content_vector", and its search width, if any. */
  lemma VectorSection(py: Python, raw: Dict)
    requires "search_type_profile" !in raw && Adapted(py, raw).Success? && HasSection(raw, "vector")
    ensures var a, vec := Adapted(py, raw).value, raw["vector"].fields;
            && "vector" in a && a["vector"].JObj?
            && a["vector"].fields.Keys == {"vector_field"} + (vec.Keys * {"num_candidates"})
            && a["vector"].fields["vector_field"] == (if "vector_field" in vec then vec["vector_field"] else JStr("content_vector"))
            && ("num_candidates" in vec ==> a["vector"].fields["num_candidates"] == vec["num_candidates"])
  {
    hide AdaptHybrid, AdaptTitle, AdaptKeyword, AdaptText, SectionBad;
    AdaptedParts(py, raw);
  }

  /** The hybrid section: its weight as a number, its own vector field or the vector section's, and four keys as they are. */
  lemma HybridSection(py: Python, raw: Dict)
    requires "search_type_profile" !in raw && Adapted(py, raw).Success? && HasSection(raw, "hybrid")
    ensures var a, hy := Adapted(py, raw).value, raw["hybrid"].fields;
            && "hybrid" in a && a["hybrid"].JObj?
            && var h := a["hybrid"].fields;
            && h.Keys - {"default_vector_weight", "vector_field"} == hy.Keys * {"num_candidates", "fields", "match_fields", "multi_match_type"}
            && (forall k <- h :: k !in {"default_vector_weight", "vector_field"} ==> h[k] == hy[k])
            && "vector_field" in h
            && h["vector_field"] == (if "vector_field" in hy && Truthy(hy["vector_field"]) then hy["vector_field"]
                                     else if HasSection(raw, "vector") && "vector_field" in raw["vector"].fields
                                     then raw["vector"].fields["vector_field"] else JStr("content_vector"))
            && var given := if "default_vector_weight" in hy && Truthy(hy["default_vector_weight"]) then hy["default_vector_weight"]
                            else if "vector_weight" in hy then hy["vector_weight"] else JNull;
               if given.JNull? then "default_vector_weight" !in h
               else "default_vector_weight" in h && h["default_vector_weight"].JFloat?
                    && (given.JStr? ==> py.float(given.s) == Some(h["default_vector_weight"].r))
                    && (given.JFloat? ==> h["default_vector_weight"] == given)
                    && (given.JInt? ==> h["default_vector_weight"].r == given.i as real)
                    && (given.JBool? ==> h["default_vector_weight"].r == if given.b then 1.0 else 0.0)
  {
    hide AdaptVector, AdaptTitle, AdaptKeyword, AdaptText, SectionBad;
    AdaptedHybrid(py, raw);
  }

  /** Adapting any flat profile makes one whose sections the next adaptation leaves alone, the hybrid one aside. */
  lemma SectionsTwice(py: Python, raw: Dict, a: Dict)
    requires py.Walks() && "search_type_profile" !in raw && Adapted(py, raw) == Success(a)
    ensures AdaptedKeys(a) == a.Keys
    ensures !SectionBad(a, "keyword") && !SectionBad(a, "title") && !SectionBad(a, "text")
    ensures AdaptTitle(py, GetOr(a, "title", JNull)) == a["title"].fields
    ensures "keyword" in a ==> AdaptKeyword(py, a["keyword"].fields) == a["keyword"].fields
    ensures "text" in a ==> AdaptText(py, a["text"].fields) == a["text"].fields
    ensures "vector" in a ==> AdaptVector(a["vector"].fields) == a["vector"].fields
  {
    hide AdaptTitle, AdaptKeyword, AdaptText, AdaptVector, AdaptHybrid, Adapted, Unwalkable;
    KeysTwice(py, raw, a);
    AdaptedParts(py, raw);
    TitleTwice(py, GetOr(raw, "title", JNull));
    if "keyword" in a { KeywordTwice(py, raw["keyword"].fields); }
    if "text" in a { TextTwice(py, raw["text"].fields); }
    if "vector" in a { VectorTwice(raw["vector"].fields); }
  }

  lemma OnlyHybridCanDiffer(a: Dict, b: Dict)
    requires b.Keys == a.Keys
    requires a.Keys <= {"title", "keyword", "text", "vector", "hybrid", "response_fields"}
    requires forall k | k in {"title", "keyword", "text", "vector", "response_fields"} && k in a :: b[k] == a[k]
    ensures b == a <==> ("hybrid" in a ==> b["hybrid"] == a["hybrid"])
  {
  }

  lemma HybridTwice(py: Python, raw: Dict, a: Dict)
    requires "search_type_profile" !in raw && Adapted(py, raw) == Success(a) && "hybrid" in a
    ensures a["hybrid"].JObj?
    ensures AdaptHybrid(py, a["hybrid"].fields, GetOr(a, "vector", JNull)) == Success(a["hybrid"].fields)
            <==> !ZeroHybridWeight(py, raw)
  {
    hide AdaptTitle, AdaptKeyword, AdaptText, AdaptVector, AdaptHybrid, SectionBad, Adapted;
    AdaptedParts(py, raw);
    AdaptedHybrid(py, raw);
    HybridTwiceIff(py, raw["hybrid"].fields, GetOr(raw, "vector", JNull));
    assert GetOr(a, "vector", JNull) ==
           if GetOr(raw, "vector", JNull).JObj? then JObj(AdaptVector(raw["vector"].fields)) else JNull;
  }

  /** Adapting an adapted profile changes nothing, exactly when its hybrid section, if any, gives no weight of zero. */
  lemma AdaptTwiceIff(py: Python, raw: Dict)
    requires py.Walks() && Adapted(py, raw).Success?
    ensures var a := Adapted(py, raw).value;
            Adapted(py, a) == Success(a) <==> "search_type_profile" in raw || !ZeroHybridWeight(py, raw)
  {
    hide AdaptTitle, AdaptKeyword, AdaptText, AdaptVector, AdaptHybrid, SectionBad, AdaptedKeys, AdaptedSection, ZeroHybridWeight;
    if "search_type_profile" !in raw {
      FlatTwiceIff(py, raw);
    }
  }

  lemma FlatTwiceIff(py: Python, raw: Dict)
    requires py.Walks() && Adapted(py, raw).Success? && "search_type_profile" !in raw
    ensures var a := Adapted(py, raw).value;
            Adapted(py, a) == Success(a) <==> !ZeroHybridWeight(py, raw)
  {
    hide AdaptTitle, AdaptKeyword, AdaptText, AdaptVector, AdaptHybrid, SectionBad, Unwalkable;
    var a := Adapted(py, raw).value;
    AdaptedParts(py, raw);
    SectionsTwice(py, raw, a);
    if "hybrid" in a { HybridTwice(py, raw, a); }
    if Adapted(py, a).Success? {
      var b := Adapted(py, a).value;
      AdaptedParts(py, a);
      if "hybrid" in a { AdaptedHybrid(py, a); }
      OnlyHybridCanDiffer(a, b);
    }
  }

  /** A profile whose older hybrid weight is zero: adapted once it has the weight, adapted twice it has not. */
  lemma ZeroWeightIsLost(py: Python) returns (raw: Dict)
    requires py.Walks()
    ensures "search_type_profile" !in raw && Adapted(py, raw).Success?
    ensures Adapted(py, Adapted(py, raw).value) != Adapted(py, raw)
  {
    var hy: Dict := map["vector_weight" := JInt(0), "vector_field" := JStr("v")];
    raw := map["hybrid" := JObj(hy)];
    assert HybridWeight(hy) == JInt(0);
    hide AdaptTitle, AdaptKeyword, AdaptText, AdaptVector, AdaptedKeys, AdaptedSection;
    FlatTwiceIff(py, raw);
  }

  // ---------------------------------------------------------------- adapt, then compile

  ghost predicate CandidatesOk(section: Dict) {
    "num_candidates" in section ==> PositiveInt(section["num_candidates"])
  }

  ghost predicate NonEmptyText(j: Json) {
    j.JStr? && j.s != ""
  }

  ghost predicate FlatList(py: Python, raw: Dict, name: string) {
    name in raw ==> raw[name].JObj? && TextFields(py, raw[name].fields)
  }

  ghost predicate FlatVector(raw: Dict) {
    "vector" in raw ==>
      && raw["vector"].JObj?
      && NonEmptyText(GetOr(raw["vector"].fields, "vector_field", JStr(DEFAULT_VECTOR_FIELD)))
      && CandidatesOk(raw["vector"].fields)
  }

  ghost predicate FlatHybrid(py: Python, raw: Dict) {
    "hybrid" in raw ==>
      && raw["hybrid"].JObj?
      && var hy := raw["hybrid"].fields;
         && "fields" !in hy && "match_fields" !in hy
         && GetOr(hy, "vector_field", JStr("")).JStr?
         && CandidatesOk(hy)
         && var w := HybridWeight(hy);
            w.JNull? || FloatOf(py, w).Some?
  }

  /** The flat skill profile as the upload service writes it: texts for fields, a named vector field. */
  ghost predicate FlatSkillProfile(py: Python, raw: Dict) {
    && "search_type_profile" !in raw
    && FlatList(py, raw, "keyword") && FlatList(py, raw, "title") && FlatList(py, raw, "text")
    && FlatVector(raw) && FlatHybrid(py, raw)
    && ("response_fields" in raw ==> AllTexts(raw["response_fields"]))
  }

  /** Match kinds, where given, are texts. */
  ghost predicate TextKinds(raw: Dict) {
    forall k | k in {"text", "hybrid"} && k in raw && raw[k].JObj? ::
      GetOr(raw[k].fields, "multi_match_type", JStr("")).JStr?
  }

  lemma FlatAdapts(py: Python, raw: Dict)
    requires FlatSkillProfile(py, raw)
    ensures Adapted(py, raw).Success?
    ensures "hybrid" in raw ==> AdaptHybrid(py, raw["hybrid"].fields, GetOr(raw, "vector", JNull)).Success?
  {
  }

  /** The entry the compiler extracts from the adapted profile is the adapted section. */
  lemma AdaptedEntry(py: Python, raw: Dict, searchType: string)
    requires "search_type_profile" !in raw && Adapted(py, raw).Success?
    requires searchType in SEARCH_TYPES && searchType in Adapted(py, raw).value
    requires Adapted(py, raw).value[searchType].JObj?
    requires "enabled" !in Adapted(py, raw).value[searchType].fields
    requires ValidateTypeProfile(searchType, Adapted(py, raw).value[searchType], {}).None?
    ensures ExtractTypeProfile(searchType, Adapted(py, raw).value)
         == Success(Adapted(py, raw).value[searchType].fields)
  {
    AdaptedParts(py, raw);
    var a := Adapted(py, raw).value;
    hide Adapted, ValidateTypeProfile;
    assert a.Keys <= SEARCH_TYPES + FLAT_EXTRA_KEYS;
    assert GetOr(a[searchType].fields, "enabled", JBool(true)) == JBool(true);
  }

  lemma BoostEntryShape(py: Python, spec: string)
    ensures EntryOk(BoostEntry(py, spec))
    ensures EntryField(BoostEntry(py, spec)) == Some(ParseFieldBoost(py, spec).0)
    ensures EntryWeight(BoostEntry(py, spec)) == JFloat(ParseFieldBoost(py, spec).1)
  {
    var e := BoostEntry(py, spec);
    assert e.fields.Keys == {"field", "weight"};
  }

  lemma BoostEntriesShape(py: Python, specs: seq<string>)
    ensures EntriesOk(JArr(BoostEntries(py, specs)))
    ensures forall e <- BoostEntries(py, specs) :: EntryField(e).Some? && EntryWeight(e).JFloat?
  {
    hide BoostEntry;
    forall e <- BoostEntries(py, specs) ensures EntryOk(e) && EntryField(e).Some? && EntryWeight(e).JFloat? {
      var i :| 0 <= i < |specs| && BoostEntries(py, specs)[i] == e;
      BoostEntryShape(py, specs[i]);
    }
  }

  // ---------------------------------------------------------------- the search a flat profile asks for

  function Leaf(py: Python, searchType: string, query: string, spec: string): Query {
    var (field, weight) := ParseFieldBoost(py, spec);
    if searchType == "keyword" then Term(field, query, JFloat(weight)) else Match(field, query, JFloat(weight))
  }

  function Leaves(py: Python, searchType: string, query: string, specs: seq<string>): (r: seq<Query>)
    ensures |r| == |specs|
  {
    seq(|specs|, i requires 0 <= i < |specs| => Leaf(py, searchType, query, specs[i]))
  }

  /** A field text with its boost written out. */
  function Respelled(str: Json -> string, py: Python, spec: string): string {
    var (field, weight) := ParseFieldBoost(py, spec);
    field + "^" + str(JFloat(weight))
  }

  function RespelledAll(str: Json -> string, py: Python, specs: seq<string>): (r: seq<string>)
    ensures |r| == |specs|
  {
    seq(|specs|, i requires 0 <= i < |specs| => Respelled(str, py, specs[i]))
  }

  function VectorField(raw: Dict): string {
    var vec := if HasSection(raw, "vector") then raw["vector"].fields else map[];
    var field := GetOr(vec, "vector_field", JStr(DEFAULT_VECTOR_FIELD));
    if field.JStr? then field.s else ""
  }

  function HybridField(raw: Dict): string {
    var own := if HasSection(raw, "hybrid") then GetOr(raw["hybrid"].fields, "vector_field", JNull) else JNull;
    if own.JStr? && own.s != "" then own.s else VectorField(raw)
  }

  function Candidates(section: Dict): Option<int> {
    var n := GetOr(section, "num_candidates", JNull);
    if n.JInt? then Some(n.i) else None
  }

  function ArmWeight(py: Python, hy: Dict, vectorWeight: Option<real>): real {
    var w := HybridWeight(hy);
    if vectorWeight.Some? then vectorWeight.value
    else if w.JNull? || FloatOf(py, w).None? then 0.6
    else FloatOf(py, w).value
  }

  /** The search read straight off the flat profile, without adapting or compiling. */
  function SkillMeaning(str: Json -> string, py: Python, searchType: string, query: string, topK: int, raw: Dict,
                        vectorWeight: Option<real>, vector: seq<real>): Query {
    var section := if HasSection(raw, searchType) then raw[searchType].fields else map[];
    var specs := if TextFields(py, section) then Specs(py, section) else [];
    match searchType
    case "keyword" => OneOrShould(Leaves(py, "keyword", query, specs))
    case "title" => if "title" in raw then OneOrShould(Leaves(py, "title", query, specs)) else Match("name", query, JFloat(1.0))
    case "text" =>
      var kind := GetOr(section, "multi_match_type", JStr("most_fields"));
      MultiMatch(query, RespelledAll(str, py, specs), if kind.JStr? then kind.s else "")
    case "vector" => Knn(VectorField(raw), vector, topK, Candidates(section))
    case _ =>
      var w := ArmWeight(py, section, vectorWeight);
      Should([FunctionScore(MatchAll, JFloat(Round6(1.0 - w))),
              FunctionScore(Knn(HybridField(raw), vector, topK, Candidates(section)), JFloat(w))])
  }

  lemma RespelledParses(str: Json -> string, py: Python, spec: string)
    requires Reads(str, py, JFloat(ParseFieldBoost(py, spec).1))
    ensures ParseFieldBoost(py, Respelled(str, py, spec)) == ParseFieldBoost(py, spec)
  {
    var (field, weight) := ParseFieldBoost(py, spec);
    RenderedBoostParsesIff(str, py, field, JFloat(weight));
  }

  /**
   Keyword and title search ask for the fields with the boosts their texts spell out, in order; text
   search for texts that spell out the same.
   */
  lemma SkillBoosts(str: Json -> string, py: Python, searchType: string, query: string, topK: int, raw: Dict,
                    vectorWeight: Option<real>, vector: seq<real>, asked: seq<(string, real)>)
    requires searchType in {"keyword", "title", "text"} && HasSection(raw, searchType) && TextFields(py, raw[searchType].fields)
    requires var specs := Specs(py, raw[searchType].fields);
             |asked| == |specs| && forall i | 0 <= i < |specs| :: Spells(py, specs[i], asked[i].0, asked[i].1)
    requires searchType == "text" ==> forall a <- asked :: Reads(str, py, JFloat(a.1))
    ensures var q := SkillMeaning(str, py, searchType, query, topK, raw, vectorWeight, vector);
            match searchType
            case "keyword" => q == OneOrShould(seq(|asked|, i requires 0 <= i < |asked| => Term(asked[i].0, query, JFloat(asked[i].1))))
            case "title" => q == OneOrShould(seq(|asked|, i requires 0 <= i < |asked| => Match(asked[i].0, query, JFloat(asked[i].1))))
            case _ =>
              && q.MultiMatch? && q.value == query && |q.fields| == |asked|
              && forall i | 0 <= i < |asked| :: Spells(py, q.fields[i], asked[i].0, asked[i].1)
  {
    var specs := Specs(py, raw[searchType].fields);
    forall i | 0 <= i < |specs|
      ensures ParseFieldBoost(py, specs[i]) == asked[i]
      ensures searchType == "text" ==> Spells(py, RespelledAll(str, py, specs)[i], asked[i].0, asked[i].1)
    {
      SpellsIff(py, specs[i], asked[i].0, asked[i].1);
      if searchType == "text" {
        RespelledParses(str, py, specs[i]);
        SpellsIff(py, Respelled(str, py, specs[i]), asked[i].0, asked[i].1);
      }
    }
    hide Spells, ParseFieldBoost;
    if searchType == "keyword" {
      assert Leaves(py, searchType, query, specs) == seq(|asked|, i requires 0 <= i < |asked| => Term(asked[i].0, query, JFloat(asked[i].1)));
    } else if searchType == "title" {
      assert Leaves(py, searchType, query, specs) == seq(|asked|, i requires 0 <= i < |asked| => Match(asked[i].0, query, JFloat(asked[i].1)));
    }
  }

  // ---------------------------------------------------------------- each section compiles

  /** The adapted section passes validation, compiles, and its boosts are numbers. */
  ghost predicate CompilesAs(str: Json -> string, searchType: string, p: Dict, vectorWeight: Option<real>, vector: Option<seq<real>>) {
    && ValidateTypeProfile(searchType, JObj(p), {}).None?
    && "enabled" !in p
    && (forall l, e | l in {"term_fields", "match_fields", "fields"} && e in Entries(p, l) :: EntryField(e).Some? && EntryWeight(e).JFloat?)
    && (WellTyped(p) ==> Compilable(searchType, p, vectorWeight, vector))
  }

  lemma EntriesMean(py: Python, searchType: string, query: string, specs: seq<string>)
    requires searchType == "keyword" || searchType == "title"
    requires forall e <- BoostEntries(py, specs) :: EntryField(e).Some?
    ensures LeafQueries(searchType, query, BoostEntries(py, specs)) == Leaves(py, searchType, query, specs)
  {
    var entries := BoostEntries(py, specs);
    forall i | 0 <= i < |specs| ensures LeafQuery(searchType, query, entries[i]) == Leaf(py, searchType, query, specs[i]) {
      BoostEntryShape(py, specs[i]);
    }
  }

  lemma EntriesRespelled(str: Json -> string, py: Python, specs: seq<string>)
    requires forall e <- BoostEntries(py, specs) :: EntryField(e).Some?
    ensures FieldTexts(str, BoostEntries(py, specs)) == RespelledAll(str, py, specs)
  {
    var entries := BoostEntries(py, specs);
    forall i | 0 <= i < |specs| ensures FieldTexts(str, entries)[i] == Respelled(str, py, specs[i]) {
      BoostEntryShape(py, specs[i]);
    }
  }

  lemma KeywordCompiles(str: Json -> string, py: Python, query: string, topK: int, raw: Dict,
                        vectorWeight: Option<real>, vector: Option<seq<real>>)
    requires py.Walks() && HasSection(raw, "keyword") && TextFields(py, raw["keyword"].fields)
    ensures var p := AdaptKeyword(py, raw["keyword"].fields);
            && CompilesAs(str, "keyword", p, vectorWeight, vector) && WellTyped(p)
            && Meaning(str, "keyword", query, topK, p, vectorWeight, vector)
               == SkillMeaning(str, py, "keyword", query, topK, raw, vectorWeight, if vector.Some? then vector.value else [])
  {
    hide BoostEntries, Specs;
    var specs := Specs(py, raw["keyword"].fields);
    BoostEntriesShape(py, specs);
    EntriesMean(py, "keyword", query, specs);
    var p := AdaptKeyword(py, raw["keyword"].fields);
    assert p.Keys == {"term_fields"} && Entries(p, "term_fields") == BoostEntries(py, specs);
  }

  lemma DefaultTitleCompiles(str: Json -> string, py: Python, query: string, topK: int, raw: Dict,
                             vectorWeight: Option<real>, vector: Option<seq<real>>)
    requires "title" !in raw
    ensures var p := DEFAULT_TITLE;
            && CompilesAs(str, "title", p, vectorWeight, vector) && WellTyped(p)
            && Meaning(str, "title", query, topK, p, vectorWeight, vector)
               == SkillMeaning(str, py, "title", query, topK, raw, vectorWeight, if vector.Some? then vector.value else [])
  {
    var e := JObj(map["field" := JStr("name"), "weight" := JFloat(1.0)]);
    var p := DEFAULT_TITLE;
    assert Entries(p, "match_fields") == [e] && e.fields.Keys == {"field", "weight"};
    assert p.Keys == {"match_fields"};
    assert LeafQueries("title", query, [e]) == [Match("name", query, JFloat(1.0))];
  }

  lemma TitleCompiles(str: Json -> string, py: Python, query: string, topK: int, raw: Dict,
                      vectorWeight: Option<real>, vector: Option<seq<real>>)
    requires py.Walks() && FlatList(py, raw, "title")
    ensures var p := AdaptTitle(py, GetOr(raw, "title", JNull));
            && CompilesAs(str, "title", p, vectorWeight, vector) && WellTyped(p)
            && Meaning(str, "title", query, topK, p, vectorWeight, vector)
               == SkillMeaning(str, py, "title", query, topK, raw, vectorWeight, if vector.Some? then vector.value else [])
  {
    hide BoostEntries, Specs, DEFAULT_TITLE;
    if "title" !in raw {
      DefaultTitleCompiles(str, py, query, topK, raw, vectorWeight, vector);
    } else {
      var specs := Specs(py, raw["title"].fields);
      BoostEntriesShape(py, specs);
      EntriesMean(py, "title", query, specs);
      var p := AdaptTitle(py, raw["title"]);
      assert p.Keys == {"match_fields"} && Entries(p, "match_fields") == BoostEntries(py, specs);
    }
  }

  lemma TextParts(py: Python, tx: Dict)
    requires py.Walks() && TextFields(py, tx)
    ensures var p := AdaptText(py, tx);
            && p.Keys <= {"fields", "multi_match_type"} && "fields" in p && EntriesOk(p["fields"])
            && Entries(p, "fields") == BoostEntries(py, Specs(py, tx)) != []
            && Entries(p, "match_fields") == [] && Entries(p, "term_fields") == []
            && (forall e <- Entries(p, "fields") :: EntryField(e).Some? && EntryWeight(e).JFloat?)
            && GetOr(p, "multi_match_type", JStr("most_fields")) == GetOr(tx, "multi_match_type", JStr("most_fields"))
  {
    hide BoostEntries, Specs, TextFields;
    BoostEntriesShape(py, Specs(py, tx));
  }

  lemma TextCompiles(str: Json -> string, py: Python, query: string, topK: int, raw: Dict,
                     vectorWeight: Option<real>, vector: Option<seq<real>>)
    requires py.Walks() && HasSection(raw, "text") && TextFields(py, raw["text"].fields)
    ensures var p := AdaptText(py, raw["text"].fields);
            && CompilesAs(str, "text", p, vectorWeight, vector)
            && CompileType(str, "text", query, topK, p, vectorWeight, vector).Success?
            && (GetOr(raw["text"].fields, "multi_match_type", JStr("")).JStr? ==> WellTyped(p))
  {
    hide BoostEntries, Specs, FieldTexts, RespelledAll, TextFields, AdaptText, Entries, EntriesOk, EntryField, EntryWeight, CompileText;
    TextParts(py, raw["text"].fields);
    NamedTextCompiles(str, query, topK, AdaptText(py, raw["text"].fields));
  }

  lemma NamedTextCompiles(str: Json -> string, query: string, topK: int, p: Dict)
    requires Entries(p, "fields") != [] && forall e <- Entries(p, "fields") :: EntryField(e).Some?
    ensures CompileText(str, query, topK, p).Success?
  {
    hide FieldTexts, Entries, EntryField;
    BoostedFieldsMean(str, Entries(p, "fields"));
  }

  lemma TextMeans(str: Json -> string, py: Python, query: string, topK: int, raw: Dict,
                  vectorWeight: Option<real>, vector: Option<seq<real>>)
    requires py.Walks() && HasSection(raw, "text") && TextFields(py, raw["text"].fields)
    requires GetOr(raw["text"].fields, "multi_match_type", JStr("")).JStr? && WellTyped(AdaptText(py, raw["text"].fields))
    ensures Meaning(str, "text", query, topK, AdaptText(py, raw["text"].fields), vectorWeight, vector)
         == SkillMeaning(str, py, "text", query, topK, raw, vectorWeight, if vector.Some? then vector.value else [])
  {
    hide BoostEntries, Specs, FieldTexts, RespelledAll, TextFields, AdaptText, Entries, EntriesOk;
    TextParts(py, raw["text"].fields);
    EntriesRespelled(str, py, Specs(py, raw["text"].fields));
  }

  lemma VectorCompiles(str: Json -> string, py: Python, query: string, topK: int, raw: Dict,
                       vectorWeight: Option<real>, vector: Option<seq<real>>)
    requires vector.Some? && HasSection(raw, "vector") && FlatVector(raw)
    ensures var p := AdaptVector(raw["vector"].fields);
            && CompilesAs(str, "vector", p, vectorWeight, vector) && WellTyped(p)
            && Meaning(str, "vector", query, topK, p, vectorWeight, vector)
               == SkillMeaning(str, py, "vector", query, topK, raw, vectorWeight, vector.value)
  {
    var p := AdaptVector(raw["vector"].fields);
    assert p.Keys <= {"vector_field", "num_candidates"};
  }

  lemma HybridShape(py: Python, raw: Dict, vectorWeight: Option<real>)
    requires FlatVector(raw) && FlatHybrid(py, raw) && HasSection(raw, "hybrid")
    ensures var h := AdaptHybrid(py, raw["hybrid"].fields, GetOr(raw, "vector", JNull));
            && h.Success?
            && var p := h.value;
            && p.Keys <= {"default_vector_weight", "vector_field", "num_candidates", "multi_match_type"}
            && GetOr(p, "vector_field", JNull) == JStr(HybridField(raw)) && HybridField(raw) != "" && CandidatesOk(p)
            && Candidates(p) == Candidates(raw["hybrid"].fields)
            && VectorWeight(p, vectorWeight) == JFloat(ArmWeight(py, raw["hybrid"].fields, vectorWeight))
            && Entries(p, "fields") == [] && Entries(p, "match_fields") == [] && Entries(p, "term_fields") == []
            && GetOr(p, "multi_match_type", JStr("")) == GetOr(raw["hybrid"].fields, "multi_match_type", JStr(""))
  {
    hide HybridWeight, FloatOf;
    HybridParts(py, raw["hybrid"].fields, GetOr(raw, "vector", JNull));
  }

  lemma HybridCompiles(str: Json -> string, py: Python, query: string, topK: int, raw: Dict,
                       vectorWeight: Option<real>, vector: Option<seq<real>>)
    requires vector.Some? && FlatVector(raw) && FlatHybrid(py, raw) && HasSection(raw, "hybrid")
    ensures var h := AdaptHybrid(py, raw["hybrid"].fields, GetOr(raw, "vector", JNull));
            && h.Success?
            && CompilesAs(str, "hybrid", h.value, vectorWeight, vector)
            && CompileType(str, "hybrid", query, topK, h.value, vectorWeight, vector).Success?
            && (GetOr(raw["hybrid"].fields, "multi_match_type", JStr("")).JStr? ==> WellTyped(h.value))
  {
    hide AdaptHybrid, FlatVector, FlatHybrid, HybridField, ArmWeight, VectorWeight, Round6;
    HybridShape(py, raw, vectorWeight);
  }

  lemma HybridAsks(str: Json -> string, py: Python, query: string, topK: int, raw: Dict, p: Dict,
                   vectorWeight: Option<real>, vector: Option<seq<real>>)
    requires vector.Some? && FlatVector(raw) && FlatHybrid(py, raw) && HasSection(raw, "hybrid") && WellTyped(p)
    requires AdaptHybrid(py, raw["hybrid"].fields, GetOr(raw, "vector", JNull)) == Success(p)
    ensures Meaning(str, "hybrid", query, topK, p, vectorWeight, vector)
         == SkillMeaning(str, py, "hybrid", query, topK, raw, vectorWeight, vector.value)
  {
    hide AdaptHybrid, FlatVector, FlatHybrid, HybridField, ArmWeight, VectorWeight, Round6, WellTyped, Entries;
    HybridShape(py, raw, vectorWeight);
  }

  // ---------------------------------------------------------------- adapt, compile, translate

  /**
   Adapting and then compiling never rejects: each search type the flat profile contains (and
   title search always) compiles, given a query vector; and what it compiles to is the search read
   straight off the profile, boosts included.
   */
  lemma AdaptThenCompile(str: Json -> string, py: Python, searchType: string, query: string, topK: int, raw: Dict,
                         vectorWeight: Option<real>, vector: Option<seq<real>>)
    requires py.Walks() && FlatSkillProfile(py, raw) && vector.Some?
    requires searchType in SEARCH_TYPES && (searchType in raw || searchType == "title")
    ensures Adapted(py, raw).Success?
    ensures var a := Adapted(py, raw).value;
            && Compiling(str, searchType, query, topK, a, vectorWeight, vector).Success?
            && ExtractTypeProfile(searchType, a).Success?
            && (TextKinds(raw) ==>
                  var p := ExtractTypeProfile(searchType, a).value;
                  && WellTyped(p) && PlainBoosts(p)
                  && Meaning(str, searchType, query, topK, p, vectorWeight, vector)
                     == SkillMeaning(str, py, searchType, query, topK, raw, vectorWeight, vector.value))
  {
    hide AdaptTitle, AdaptKeyword, AdaptText, AdaptVector, AdaptHybrid, SectionBad, WellTyped, CompileType, ValidateTypeProfile,
         Meaning, SkillMeaning, TextFields, ExtractTypeProfile, Adapted, Compilable;
    FlatAdapts(py, raw);
    AdaptedParts(py, raw);
    var a := Adapted(py, raw).value;
    assert searchType in AdaptedKeys(raw);
    if searchType == "keyword" {
      KeywordCompiles(str, py, query, topK, raw, vectorWeight, vector);
    } else if searchType == "title" {
      TitleCompiles(str, py, query, topK, raw, vectorWeight, vector);
    } else if searchType == "text" {
      TextCompiles(str, py, query, topK, raw, vectorWeight, vector);
      if TextKinds(raw) { TextMeans(str, py, query, topK, raw, vectorWeight, vector); }
    } else if searchType == "vector" {
      VectorCompiles(str, py, query, topK, raw, vectorWeight, vector);
    } else {
      AdaptedHybrid(py, raw);
      HybridCompiles(str, py, query, topK, raw, vectorWeight, vector);
      if TextKinds(raw) { HybridAsks(str, py, query, topK, raw, a["hybrid"].fields, vectorWeight, vector); }
    }
    var p := a[searchType].fields;
    assert CompilesAs(str, searchType, p, vectorWeight, vector);
    if WellTyped(p) { CompilesIff(str, searchType, query, topK, p, vectorWeight, vector); }
    AdaptedEntry(py, raw, searchType);
    FloatsArePlain(p);
    assert SourceFields(a).Success?;
  }

  lemma FloatsArePlain(p: Dict)
    requires forall l, e | l in {"term_fields", "match_fields", "fields"} && e in Entries(p, l) :: EntryWeight(e).JFloat?
    ensures PlainBoosts(p)
  {
  }

  /** From the flat profile to what either backend is sent: reading it gives back the search the profile asks for. */
  lemma AdaptedSearchReaches(str: Json -> string, py: Python, searchType: string, query: string, topK: int, raw: Dict,
                             vectorWeight: Option<real>, vector: Option<seq<real>>)
    requires py.Walks() && FlatSkillProfile(py, raw) && vector.Some? && TextKinds(raw)
    requires searchType in SEARCH_TYPES && (searchType in raw || searchType == "title")
    ensures Adapted(py, raw).Success?
    ensures var r := Compiling(str, searchType, query, topK, Adapted(py, raw).value, vectorWeight, vector);
            var q := SkillMeaning(str, py, searchType, query, topK, raw, vectorWeight, vector.value);
            && r.Success? && SourceFields(Adapted(py, raw).value).Success?
            && var s := Search(topK, q, SourceFields(Adapted(py, raw).value).value);
            && ReadRequest(OpenSearch, Translators.PrepareOpenSearch(r.value.dsl)) == Some(KeptSearch(OpenSearch, s))
            && Translators.PrepareElasticsearch(r.value.dsl).Success?
            && ReadRequest(Elasticsearch, Translators.PrepareElasticsearch(r.value.dsl).value) == Some(s)
  {
    hide Meaning, SkillMeaning, WellTyped, PlainBoosts, ExtractTypeProfile, CompileType, Adapted, ReadRequest, FlatSkillProfile, TextKinds;
    AdaptThenCompile(str, py, searchType, query, topK, raw, vectorWeight, vector);
    CompileThenTranslate(str, searchType, query, topK, Adapted(py, raw).value, vectorWeight, vector);
  }
}
