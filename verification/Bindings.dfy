/**
 The index bindings: the OpenSearch documents that say which parser, vector model and search profile
 an index was imported with, and the get-or-create steps of the skill and memory imports.
 */
module Bindings {
  import opened Wrappers

  /** SHA-256 of a text, as a function given by the caller; that it never collides is not assumed. */
  type Hash = string -> string

  datatype Binding = Binding(domain: string, kbIndex: string, tag: string, parserSource: string, parserSha: string,
                             vectorModel: Option<string>, profileJson: string, profileSha: string, active: bool)

  datatype Import = Import(kbIndex: string, tag: string, parserSource: string, parserSha: string,
                           vectorModel: Option<string>, profileJson: string)

  /** The fields to overwrite; a profile and its hash always travel together. */
  datatype Patch = Patch(vectorModel: Option<Option<string>>, parserSource: Option<string>, parserSha: Option<string>,
                         profile: Option<(string, string)>)

  const NO_PATCH := Patch(None, None, None, None)
  const SKILL := "skill"
  const MEMORY := "memory"

  type Docs = map<string, Binding>

  function DocId(domain: string, kbIndex: string): string {
    domain + "::" + kbIndex
  }

  function Choose<T>(o: Option<T>, otherwise: T): T {
    if o.Some? then o.value else otherwise
  }

  function Patched(b: Binding, p: Patch): Binding {
    b.(vectorModel := Choose(p.vectorModel, b.vectorModel),
       parserSource := Choose(p.parserSource, b.parserSource),
       parserSha := Choose(p.parserSha, b.parserSha),
       profileJson := if p.profile.Some? then p.profile.value.0 else b.profileJson,
       profileSha := if p.profile.Some? then p.profile.value.1 else b.profileSha)
  }

  // ---------------------------------------------------------------- what an import does

  function NewBinding(hash: Hash, domain: string, i: Import): Binding {
    Binding(domain, i.kbIndex, i.tag, i.parserSource, i.parserSha, i.vectorModel, i.profileJson, hash(i.profileJson), true)
  }

  /** The binding a skill import leaves: its own settings, under the old tag. */
  ghost function SkillStored(hash: Hash, b: Binding, i: Import): Binding {
    NewBinding(hash, b.domain, i).(tag := b.tag, kbIndex := b.kbIndex, active := b.active,
      profileJson := if b.profileSha == hash(i.profileJson) then b.profileJson else i.profileJson)
  }

  /** A memory import only ever fills in a missing model. */
  ghost function MemoryStored(b: Binding, i: Import): Binding {
    if b.vectorModel.None? then b.(vectorModel := i.vectorModel) else b
  }

  datatype Event = SkillImport(i: Import) | MemoryImport(i: Import) | Deactivation(domain: string, kbIndex: string)

  function IdOf(e: Event): string {
    match e
    case SkillImport(i) => DocId(SKILL, i.kbIndex)
    case MemoryImport(i) => DocId(MEMORY, i.kbIndex)
    case Deactivation(domain, kbIndex) => DocId(domain, kbIndex)
  }

  /** The document an event leaves where `o` was; an import that meets a deactivated binding leaves it. */
  ghost function Left(hash: Hash, o: Option<Binding>, e: Event): Option<Binding> {
    match e
    case Deactivation(_, _) => if o.None? then o else Some(o.value.(active := false))
    case SkillImport(i) =>
      if o.None? then Some(NewBinding(hash, SKILL, i))
      else if !o.value.active then o
      else Some(SkillStored(hash, o.value, i))
    case MemoryImport(i) =>
      if o.None? then Some(NewBinding(hash, MEMORY, i))
      else if !o.value.active then o
      else Some(MemoryStored(o.value, i))
  }

  ghost function At(docs: Docs, id: string): Option<Binding> {
    if id in docs then Some(docs[id]) else None
  }

  ghost function Apply(hash: Hash, docs: Docs, e: Event): Docs {
    var left := Left(hash, At(docs, IdOf(e)), e);
    if left.None? then docs else docs[IdOf(e) := left.value]
  }

  ghost function Run(hash: Hash, docs: Docs, es: seq<Event>): Docs
    decreases |es|
  {
    if es == [] then docs else Run(hash, Apply(hash, docs, es[0]), es[1..])
  }

  /** What each event leaves of the document under its id, written out. */
  lemma EventLeaves(hash: Hash, docs: Docs, e: Event)
    ensures var before, after := At(docs, IdOf(e)), At(Apply(hash, docs, e), IdOf(e));
            match e
            case Deactivation(domain, kbIndex) =>
              if before.None? then after.None? else after == Some(before.value.(active := false))
            case SkillImport(i) =>
              if before.Some? && !before.value.active then after == before
              else after.Some? && var b := after.value;
                && b.parserSource == i.parserSource && b.parserSha == i.parserSha && b.vectorModel == i.vectorModel
                && b.profileSha == hash(i.profileJson) && b.active
                && (before.None? ==> b.domain == "skill" && b.kbIndex == i.kbIndex && b.tag == i.tag && b.profileJson == i.profileJson)
                && (before.Some? ==>
                      && b.domain == before.value.domain && b.kbIndex == before.value.kbIndex && b.tag == before.value.tag
                      && b.profileJson == if before.value.profileSha == hash(i.profileJson) then before.value.profileJson else i.profileJson)
            case MemoryImport(i) =>
              if before.None? then
                after == Some(Binding("memory", i.kbIndex, i.tag, i.parserSource, i.parserSha, i.vectorModel, i.profileJson, hash(i.profileJson), true))
              else if before.value.active && before.value.vectorModel.None? then after == Some(before.value.(vectorModel := i.vectorModel))
              else after == before
    ensures Apply(hash, docs, e).Keys <= docs.Keys + {IdOf(e)}
    ensures forall id <- docs :: id != IdOf(e) ==> At(Apply(hash, docs, e), id) == At(docs, id)
    ensures IdOf(e) == (match e
                        case Deactivation(domain, kbIndex) => domain + "::" + kbIndex
                        case SkillImport(i) => "skill" + "::" + i.kbIndex
                        case MemoryImport(i) => "memory" + "::" + i.kbIndex)
  {
    hide DocId;
    IdsAre(e);
  }

  lemma IdsAre(e: Event)
    ensures IdOf(e) == (match e
                        case Deactivation(domain, kbIndex) => domain + "::" + kbIndex
                        case SkillImport(i) => "skill" + "::" + i.kbIndex
                        case MemoryImport(i) => "memory" + "::" + i.kbIndex)
  {
  }

  // ---------------------------------------------------------------- the writer and the two stores

  /** A document as it is handed to the writer, which may lack any of its keys. */
  datatype Draft = Draft(texts: map<string, string>, vectorModel: Option<string>, active: Option<bool>)

  const REQUIRED: set<string> := {"domain_type", "kb_index", "tag", "parser_script_source", "parser_script_sha256",
                                  "search_profile_json", "search_profile_sha256"}

  predicate IsComplete(d: Draft) {
    REQUIRED <= d.texts.Keys
  }

  function Completed(d: Draft): Binding
    requires IsComplete(d)
  {
    Binding(d.texts["domain_type"], d.texts["kb_index"], d.texts["tag"], d.texts["parser_script_source"],
            d.texts["parser_script_sha256"], d.vectorModel, d.texts["search_profile_json"],
            d.texts["search_profile_sha256"], Choose(d.active, true))
  }

  /** What both imports hand over; they leave it to the writer to make the binding active. */
  function DraftOf(b: Binding): Draft {
    Draft(map["domain_type" := b.domain, "kb_index" := b.kbIndex, "tag" := b.tag,
              "parser_script_source" := b.parserSource, "parser_script_sha256" := b.parserSha,
              "search_profile_json" := b.profileJson, "search_profile_sha256" := b.profileSha], b.vectorModel, None)
  }

  lemma DraftIsComplete(b: Binding)
    requires b.active
    ensures IsComplete(DraftOf(b)) && Completed(DraftOf(b)) == b
  {
  }

  class OpenSearchWriter {
    var docs: Docs

    constructor ()
      ensures docs == map[]
    {
      docs := map[];
    }

    method GetBinding(domain: string, kbIndex: string) returns (r: Option<Binding>)
      ensures r == (if DocId(domain, kbIndex) in docs && docs[DocId(domain, kbIndex)].active then Some(docs[DocId(domain, kbIndex)]) else None)
    {
      var id := DocId(domain, kbIndex);
      if id !in docs || !docs[id].active {
        return None;
      }
      return Some(docs[id]);
    }

    /** Creates only, from a complete document: one already there is a conflict, deactivated or not. */
    method CreateIndexBinding(doc: Draft) returns (r: Result<(), string>)
      modifies this
      ensures !IsComplete(doc) ==> r == Failure("DATABASE_INVALID_ARGUMENT") && docs == old(docs)
      ensures IsComplete(doc) ==>
                var b := Completed(doc);
                var id := DocId(b.domain, b.kbIndex);
                if id in old(docs) then r == Failure("INDEX_BINDING_CONFLICT") && docs == old(docs)
                else r == Success(()) && docs == old(docs)[id := b] && b.active == (doc.active.None? || doc.active.value)
    {
      if !IsComplete(doc) {
        return Failure("DATABASE_INVALID_ARGUMENT");
      }
      var b := Completed(doc);
      var id := DocId(b.domain, b.kbIndex);
      if id in docs {
        return Failure("INDEX_BINDING_CONFLICT");
      }
      docs := docs[id := b];
      return Success(());
    }

    method UpdateBinding(domain: string, kbIndex: string, patch: Patch) returns (r: Result<(), string>)
      modifies this
      ensures var id := DocId(domain, kbIndex);
              if id !in old(docs) then r == Failure("INDEX_NOT_BOUND") && docs == old(docs)
              else r == Success(()) && docs == old(docs)[id := Patched(old(docs)[id], patch)]
    {
      var id := DocId(domain, kbIndex);
      if id !in docs {
        return Failure("INDEX_NOT_BOUND");
      }
      docs := docs[id := Patched(docs[id], patch)];
      return Success(());
    }

    method UpgradeBindingVectorModel(domain: string, kbIndex: string, model: string) returns (r: Result<(), string>)
      modifies this
      ensures var id := DocId(domain, kbIndex);
              if id !in old(docs) then r == Failure("INDEX_NOT_BOUND") && docs == old(docs)
              else r == Success(()) && docs == old(docs)[id := old(docs)[id].(vectorModel := Some(model))]
    {
      r := UpdateBinding(domain, kbIndex, NO_PATCH.(vectorModel := Some(Some(model))));
    }

    method DeactivateBinding(domain: string, kbIndex: string) returns (r: Result<(), string>)
      modifies this
      ensures var id := DocId(domain, kbIndex);
              if id !in old(docs) then r == Failure("INDEX_NOT_BOUND") && docs == old(docs)
              else r == Success(()) && docs == old(docs)[id := old(docs)[id].(active := false)]
    {
      var id := DocId(domain, kbIndex);
      if id !in docs {
        return Failure("INDEX_NOT_BOUND");
      }
      docs := docs[id := docs[id].(active := false)];
      return Success(());
    }
  }

  class SkillStorage {
    const writer: OpenSearchWriter

    constructor (writer: OpenSearchWriter)
      ensures this.writer == writer
    {
      this.writer := writer;
    }

    /**
     Patches only what differs. What it returns carries the import's own profile; the document keeps
     an older profile with the same hash.
     */
    method GetOrCreateBinding(hash: Hash, i: Import) returns (r: Result<Binding, string>)
      modifies writer
      ensures writer.docs == Apply(hash, old(writer.docs), SkillImport(i))
      ensures var before := At(old(writer.docs), DocId(SKILL, i.kbIndex));
              if before.Some? && !before.value.active then r == Failure("INDEX_BINDING_CONFLICT")
              else r == Success(writer.docs[DocId(SKILL, i.kbIndex)].(profileJson := i.profileJson))
    {
      var existing := writer.GetBinding(SKILL, i.kbIndex);
      if existing.Some? {
        var b := existing.value;
        var sha := hash(i.profileJson);
        var patch := NO_PATCH;
        if b.vectorModel != i.vectorModel { patch := patch.(vectorModel := Some(i.vectorModel)); }
        if b.parserSource != i.parserSource { patch := patch.(parserSource := Some(i.parserSource)); }
        if b.parserSha != i.parserSha { patch := patch.(parserSha := Some(i.parserSha)); }
        if b.profileSha != sha { patch := patch.(profile := Some((i.profileJson, sha))); }
        if patch != NO_PATCH {
          var _ := writer.UpdateBinding(SKILL, i.kbIndex, patch);
        } else {
          assert writer.docs == writer.docs[DocId(SKILL, i.kbIndex) := b];
        }
        return Success(Binding(b.domain, b.kbIndex, b.tag, i.parserSource, i.parserSha, i.vectorModel, i.profileJson, sha, b.active));
      }
      var b := NewBinding(hash, SKILL, i);
      DraftIsComplete(b);
      var created := writer.CreateIndexBinding(DraftOf(b));
      if created.Failure? {
        return Failure(created.error);
      }
      return Success(b);
    }
  }

  class MemoryStorage {
    const writer: OpenSearchWriter

    constructor (writer: OpenSearchWriter)
      ensures this.writer == writer
    {
      this.writer := writer;
    }

    /** Returns exactly what is stored, which a later import changes only by giving the first model. */
    method GetOrCreateBinding(hash: Hash, i: Import) returns (r: Result<Binding, string>)
      modifies writer
      ensures writer.docs == Apply(hash, old(writer.docs), MemoryImport(i))
      ensures var before := At(old(writer.docs), DocId(MEMORY, i.kbIndex));
              if before.Some? && !before.value.active then r == Failure("INDEX_BINDING_CONFLICT")
              else r == Success(writer.docs[DocId(MEMORY, i.kbIndex)])
    {
      var existing := writer.GetBinding(MEMORY, i.kbIndex);
      if existing.Some? {
        var b := existing.value;
        if b.vectorModel.None? && i.vectorModel.Some? {
          var _ := writer.UpgradeBindingVectorModel(MEMORY, i.kbIndex, i.vectorModel.value);
          return Success(b.(vectorModel := i.vectorModel));
        }
        assert writer.docs == writer.docs[DocId(MEMORY, i.kbIndex) := b];
        return Success(b);
      }
      var b := NewBinding(hash, MEMORY, i);
      DraftIsComplete(b);
      var created := writer.CreateIndexBinding(DraftOf(b));
      if created.Failure? {
        return Failure(created.error);
      }
      return Success(b);
    }
  }

  // ---------------------------------------------------------------- over every sequence of imports

  /** Documents lie under their own id and their profile hash is the hash of their profile. */
  ghost predicate WellFormed(hash: Hash, docs: Docs) {
    forall id | id in docs ::
      && id == DocId(docs[id].domain, docs[id].kbIndex)
      && docs[id].profileSha == hash(docs[id].profileJson)
  }

  lemma {:induction false} RunKeepsWellFormed(hash: Hash, docs: Docs, es: seq<Event>)
    requires WellFormed(hash, docs)
    ensures WellFormed(hash, Run(hash, docs, es))
    decreases |es|
  {
    if es != [] { RunKeepsWellFormed(hash, Apply(hash, docs, es[0]), es[1..]); }
  }

  /** What a skill import returns is what is stored, except when two different profiles have one hash. */
  lemma ReturnedIsStoredIff(hash: Hash, docs: Docs, i: Import)
    requires WellFormed(hash, docs)
    requires DocId(SKILL, i.kbIndex) in docs ==> docs[DocId(SKILL, i.kbIndex)].active
    ensures var id := DocId(SKILL, i.kbIndex);
            var stored := Apply(hash, docs, SkillImport(i))[id];
            stored.(profileJson := i.profileJson) == stored
            <==> !(id in docs && docs[id].profileJson != i.profileJson && hash(docs[id].profileJson) == hash(i.profileJson))
  {
  }

  /** Of two skill imports whose profiles have one hash, the first one's profile stays stored. */
  lemma CollisionKeepsOld(hash: Hash, i: Import, profileJson: string)
    requires profileJson != i.profileJson && hash(profileJson) == hash(i.profileJson)
    ensures var docs := Run(hash, map[], [SkillImport(i), SkillImport(i.(profileJson := profileJson))]);
            DocId(SKILL, i.kbIndex) in docs && docs[DocId(SKILL, i.kbIndex)].profileJson == i.profileJson
  {
    var es := [SkillImport(i), SkillImport(i.(profileJson := profileJson))];
    var id, first := DocId(SKILL, i.kbIndex), NewBinding(hash, SKILL, i);
    assert Apply(hash, map[], es[0]) == map[id := first];
    assert At(map[id := first], id) == Some(first);
    assert es[1..] == [es[1]] && [es[1]][1..] == [];
    assert Run(hash, map[id := first], [es[1]]) == Apply(hash, map[id := first], es[1]);
  }

  /** The document under an id after a run. */
  ghost function Final(hash: Hash, docs: Docs, es: seq<Event>, id: string): Option<Binding> {
    At(Run(hash, docs, es), id)
  }

  lemma {:induction false} RunPieces(hash: Hash, docs: Docs, a: seq<Event>, b: seq<Event>)
    ensures Run(hash, docs, a + b) == Run(hash, Run(hash, docs, a), b)
    decreases |a|
  {
    if a == [] {
      assert a + b == b;
    } else {
      assert (a + b)[1..] == a[1..] + b;
      RunPieces(hash, Apply(hash, docs, a[0]), a[1..], b);
    }
  }

  /** Events about other indexes change nothing here. */
  lemma {:induction false} Untouched(hash: Hash, docs: Docs, es: seq<Event>, id: string)
    requires forall k | 0 <= k < |es| :: IdOf(es[k]) != id
    ensures Final(hash, docs, es, id) == At(docs, id)
    decreases |es|
  {
    if es != [] { Untouched(hash, Apply(hash, docs, es[0]), es[1..], id); }
  }

  ghost predicate NeverDeactivated(docs: Docs, es: seq<Event>, id: string) {
    && (id in docs ==> docs[id].active)
    && forall k | 0 <= k < |es| :: es[k].Deactivation? ==> IdOf(es[k]) != id
  }

  lemma {:induction false} StaysActive(hash: Hash, docs: Docs, es: seq<Event>, id: string)
    requires NeverDeactivated(docs, es, id)
    ensures Final(hash, docs, es, id).Some? ==> Final(hash, docs, es, id).value.active
    decreases |es|
  {
    if es != [] { StaysActive(hash, Apply(hash, docs, es[0]), es[1..], id); }
  }

  /** A skill binding has the settings of the last import of its index, whatever came before. */
  lemma SkillLastImportWins(hash: Hash, docs: Docs, es: seq<Event>, k: nat)
    requires WellFormed(hash, docs)
    requires k < |es| && es[k].SkillImport? && NeverDeactivated(docs, es, IdOf(es[k]))
    requires forall m | k < m < |es| :: IdOf(es[m]) != IdOf(es[k])
    ensures var i := es[k].i;
            var final := Final(hash, docs, es, IdOf(es[k]));
            && final.Some?
            && final.value.vectorModel == i.vectorModel
            && final.value.parserSource == i.parserSource && final.value.parserSha == i.parserSha
            && final.value.profileSha == hash(i.profileJson) == hash(final.value.profileJson)
  {
    var id := IdOf(es[k]);
    var before := Run(hash, docs, es[..k]);
    assert es == es[..k] + ([es[k]] + es[k + 1..]);
    RunPieces(hash, docs, es[..k], [es[k]] + es[k + 1..]);
    StaysActive(hash, docs, es[..k], id);
    assert ([es[k]] + es[k + 1..])[1..] == es[k + 1..];
    Untouched(hash, Apply(hash, before, es[k]), es[k + 1..], id);
    RunKeepsWellFormed(hash, docs, es);
    assert Final(hash, docs, es, id) == At(Apply(hash, before, es[k]), id);
  }

  /** The first vector model a memory import of this index gives. */
  ghost function FirstModel(es: seq<Event>, id: string): Option<string>
    decreases |es|
  {
    if es == [] then None
    else if es[0].MemoryImport? && IdOf(es[0]) == id && es[0].i.vectorModel.Some? then es[0].i.vectorModel
    else FirstModel(es[1..], id)
  }

  /** A memory binding never changes but for its model, and that only while it has none. */
  lemma {:induction false} MemoryFirstModelStays(hash: Hash, docs: Docs, es: seq<Event>, id: string)
    requires id in docs && NeverDeactivated(docs, es, id)
    requires forall k | 0 <= k < |es| :: IdOf(es[k]) == id ==> es[k].MemoryImport?
    ensures Final(hash, docs, es, id)
         == Some(docs[id].(vectorModel := if docs[id].vectorModel.Some? then docs[id].vectorModel else FirstModel(es, id)))
    decreases |es|
  {
    if es != [] {
      MemoryFirstModelStays(hash, Apply(hash, docs, es[0]), es[1..], id);
    }
  }

  lemma {:induction false} SkillIsNotMemory(a: string, b: string)
    ensures DocId(SKILL, a) != DocId(MEMORY, b)
  {
    assert DocId(SKILL, a)[0] == 's' && DocId(MEMORY, b)[0] == 'm';
  }

  /** From the first import on, a memory binding is that import's, with the first model given. */
  lemma MemoryFirstImportWins(hash: Hash, docs: Docs, es: seq<Event>, k: nat)
    requires k < |es| && es[k].MemoryImport? && IdOf(es[k]) !in docs && NeverDeactivated(docs, es, IdOf(es[k]))
    requires forall m | 0 <= m < k :: IdOf(es[m]) != IdOf(es[k])
    ensures Final(hash, docs, es, IdOf(es[k]))
         == Some(NewBinding(hash, MEMORY, es[k].i).(vectorModel := FirstModel(es[k..], IdOf(es[k]))))
  {
    var id := IdOf(es[k]);
    var before := Run(hash, docs, es[..k]);
    var after := Apply(hash, before, es[k]);
    assert es == es[..k] + es[k..] && es[k..][1..] == es[k + 1..];
    RunPieces(hash, docs, es[..k], es[k..]);
    Untouched(hash, docs, es[..k], id);
    var later := es[k + 1..];
    forall m | 0 <= m < |later|
      ensures IdOf(later[m]) == id ==> later[m].MemoryImport?
    {
      assert later[m] == es[k + 1 + m];
      if later[m].SkillImport? { SkillIsNotMemory(later[m].i.kbIndex, es[k].i.kbIndex); }
    }
    assert after[id] == NewBinding(hash, MEMORY, es[k].i);
    MemoryFirstModelStays(hash, after, es[k + 1..], id);
  }

  /** A deactivated binding never comes back: no import of its index changes it or succeeds. */
  lemma {:induction false} DeactivatedStays(hash: Hash, docs: Docs, es: seq<Event>, id: string)
    requires id in docs && !docs[id].active
    ensures Final(hash, docs, es, id) == Some(docs[id])
    decreases |es|
  {
    if es != [] { DeactivatedStays(hash, Apply(hash, docs, es[0]), es[1..], id); }
  }
}
