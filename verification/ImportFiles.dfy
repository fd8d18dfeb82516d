/**
 The files of a memory import, from the manifest to the storage paths in the indexed chunk:
 reading the manifest, setting meta.json apart, planning, saving and filling in the paths.
 */
module ImportFiles {
  import opened FileTree
  import opened Paths
  import opened SkillMarkdown
  import opened StoragePaths
  import opened Wrappers

  /**
   One manifest entry with its texts as `str()` gives them, an absent one being empty, and its size as
   `int()` gives it, None where that raises.
   */
  datatype Item = Item(fileRef: string, filename: string, absPath: string, sizeBytes: Option<int>)

  datatype ManifestError =
    | NoFiles
    | MissingField(index: nat)
    | DuplicateRef(fileRef: string)
    | BadSize(index: nat)
    | MetaCount(count: nat)

  datatype ImportError = BadManifest(error: ManifestError) | BadMeta(path: string) | NotStored(cause: StoreError)

  // ---------------------------------------------------------------- the manifest

  function Entry(i: Item): Item {
    Item(Strip(i.fileRef), Strip(i.filename), Strip(i.absPath), i.sizeBytes)
  }

  predicate Complete(e: Item) {
    e.fileRef != "" && e.filename != "" && e.absPath != ""
  }

  ghost function Entries(files: seq<Item>): (r: seq<Item>)
    ensures |r| == |files|
  {
    seq(|files|, i requires 0 <= i < |files| => Entry(files[i]))
  }

  /** The refs of the first `k` entries. */
  ghost function RefsBefore(files: seq<Item>, k: nat): set<string>
    requires k <= |files|
  {
    set j | 0 <= j < k :: Entry(files[j]).fileRef
  }

  /** What is wrong with entry `k`, in the order it is looked for. */
  ghost function Fault(files: seq<Item>, k: nat): Option<ManifestError>
    requires k < |files|
  {
    var e := Entry(files[k]);
    if !Complete(e) then Some(MissingField(k))
    else if e.fileRef in RefsBefore(files, k) then Some(DuplicateRef(e.fileRef))
    else if e.sizeBytes.None? then Some(BadSize(k))
    else None
  }

  ghost predicate Faultless(files: seq<Item>, k: nat)
    requires k <= |files|
  {
    forall j | 0 <= j < k :: Fault(files, j).None?
  }

  ghost predicate DistinctRefs(files: seq<Item>) {
    forall i, j | 0 <= i < j < |files| :: files[i].fileRef != files[j].fileRef
  }

  lemma FaultlessStep(files: seq<Item>, k: nat)
    requires k < |files| && Faultless(files, k)
    ensures RefsBefore(files, k + 1) == RefsBefore(files, k) + {Entry(files[k]).fileRef}
    ensures Entries(files)[..k + 1] == Entries(files)[..k] + [Entry(files[k])]
    ensures Fault(files, k).None? ==> Faultless(files, k + 1)
  {
  }

  lemma FaultlessIsDistinct(files: seq<Item>)
    requires Faultless(files, |files|)
    ensures DistinctRefs(Entries(files))
  {
    hide Entry;
    forall i, j | 0 <= i < j < |files|
      ensures Entries(files)[i].fileRef != Entries(files)[j].fileRef
    {
      assert Fault(files, j).None?;
    }
  }

  /** Accepts exactly the non-empty lists without a fault; else reports the first faulty entry's fault. */
  method LoadManifest(files: Option<seq<Item>>) returns (r: Result<seq<Item>, ManifestError>)
    ensures files.None? || files.value == [] ==> r == Failure(NoFiles)
    ensures files.Some? && files.value != [] && Faultless(files.value, |files.value|) ==>
              r == Success(Entries(files.value)) && DistinctRefs(r.value)
    ensures r.Success? ==>
              && |r.value| == |files.value|
              && forall i | 0 <= i < |files.value| ::
                   var given := files.value[i];
                   && r.value[i] == Item(Strip(given.fileRef), Strip(given.filename), Strip(given.absPath), given.sizeBytes)
                   && Strip(given.fileRef) != "" && Strip(given.filename) != "" && Strip(given.absPath) != "" && given.sizeBytes.Some?
    ensures files.Some? && files.value != [] && !Faultless(files.value, |files.value|) ==>
              exists k: nat | k < |files.value| ::
                Faultless(files.value, k) && Fault(files.value, k).Some? && r == Failure(Fault(files.value, k).value)
  {
    hide Faultless, Entries, RefsBefore, Entry, DistinctRefs;
    if files.None? || files.value == [] {
      return Failure(NoFiles);
    }
    var items := files.value;
    var out: seq<Item> := [];
    var seenRefs: set<string> := {};
    NothingRead(items);
    for k := 0 to |items|
      invariant out == Entries(items)[..k] && seenRefs == RefsBefore(items, k) && Faultless(items, k)
    {
      var e := Entry(items[k]);
      FaultlessStep(items, k);
      FaultStops(items, k);
      if !Complete(e) {
        return Failure(MissingField(k));
      }
      if e.fileRef in seenRefs {
        return Failure(DuplicateRef(e.fileRef));
      }
      seenRefs := seenRefs + {e.fileRef};
      if e.sizeBytes.None? {
        return Failure(BadSize(k));
      }
      out := out + [e];
    }
    FaultlessIsDistinct(items);
    FaultlessIsComplete(items);
    return Success(out);
  }

  lemma FaultlessIsComplete(files: seq<Item>)
    requires Faultless(files, |files|)
    ensures forall i | 0 <= i < |files| ::
              && Entries(files)[i] == Item(Strip(files[i].fileRef), Strip(files[i].filename), Strip(files[i].absPath), files[i].sizeBytes)
              && Strip(files[i].fileRef) != "" && Strip(files[i].filename) != "" && Strip(files[i].absPath) != "" && files[i].sizeBytes.Some?
  {
    hide Strip, RefsBefore;
    forall i | 0 <= i < |files| ensures Complete(Entries(files)[i]) && files[i].sizeBytes.Some? {
      assert Fault(files, i).None?;
    }
  }

  /** The meta file is the one called meta.json, in whatever case. */
  lemma IsMetaIff(f: Item)
    ensures var name, meta := f.filename, "meta.json";
            IsMeta(f) <==> |name| == 9 && forall i | 0 <= i < 9 :: name[i] == meta[i] || ('A' <= name[i] <= 'Z' && (name[i] as int + 32) as char == meta[i])
  {
    var name, meta := f.filename, "meta.json";
    LowerAt(name);
    assert forall i | 0 <= i < 9 :: !('A' <= meta[i] <= 'Z');
    hide Lower;
    assert Lower(name) == meta <==> |name| == |meta| && forall i | 0 <= i < |name| :: Lower(name)[i] == meta[i];
  }

  lemma {:induction false} LowerAt(s: string)
    ensures |Lower(s)| == |s|
    ensures forall i | 0 <= i < |s| :: Lower(s)[i] == if 'A' <= s[i] <= 'Z' then (s[i] as int + 32) as char else s[i]
  {
    if s != "" {
      LowerAt(s[1..]);
      assert forall i | 0 < i < |s| :: s[i] == s[1..][i - 1];
    }
  }

  lemma NothingRead(files: seq<Item>)
    ensures Entries(files)[..0] == [] && RefsBefore(files, 0) == {} && Faultless(files, 0)
    ensures Entries(files)[..|files|] == Entries(files)
  {
  }

  lemma FaultStops(files: seq<Item>, k: nat)
    requires k < |files|
    ensures Fault(files, k).Some? ==> !Faultless(files, |files|)
  {
  }

  // ---------------------------------------------------------------- meta.json apart

  function Lower(s: string): string {
    if s == "" then ""
    else [if 'A' <= s[0] <= 'Z' then (s[0] as int + 32) as char else s[0]] + Lower(s[1..])
  }

  predicate IsMeta(f: Item) {
    Lower(f.filename) == "meta.json"
  }

  function Metas(files: seq<Item>): seq<Item> {
    if files == [] then [] else (if IsMeta(files[0]) then [files[0]] else []) + Metas(files[1..])
  }

  function OtherThan(files: seq<Item>, fileRef: string): seq<Item> {
    if files == [] then []
    else (if files[0].fileRef != fileRef then [files[0]] else []) + OtherThan(files[1..], fileRef)
  }

  ghost function NotMeta(files: seq<Item>): seq<Item> {
    if files == [] then [] else (if IsMeta(files[0]) then [] else [files[0]]) + NotMeta(files[1..])
  }

  function SplitMetaAndAttachments(files: seq<Item>): Result<(Item, seq<Item>), ManifestError> {
    var metas := Metas(files);
    if |metas| != 1 then Failure(MetaCount(|metas|))
    else Success((metas[0], OtherThan(files, metas[0].fileRef)))
  }

  lemma {:induction false} MetasAre(files: seq<Item>)
    ensures forall m <- Metas(files) :: IsMeta(m) && m in files
    ensures Metas(files) == [] ==> NotMeta(files) == files
    ensures forall f <- files :: IsMeta(f) ==> f in Metas(files)
  {
    if files != [] {
      MetasAre(files[1..]);
      assert files == [files[0]] + files[1..];
    }
  }

  lemma {:induction false} OtherThanAll(files: seq<Item>, fileRef: string)
    requires forall f <- files :: f.fileRef != fileRef
    ensures OtherThan(files, fileRef) == files
  {
    if files != [] {
      OtherThanAll(files[1..], fileRef);
      assert files == [files[0]] + files[1..];
    }
  }

  /** With distinct refs the attachments are exactly the files that are not the one meta.json, in order. */
  lemma {:induction false} AttachmentsAreTheRest(files: seq<Item>)
    requires DistinctRefs(files) && |Metas(files)| == 1
    ensures OtherThan(files, Metas(files)[0].fileRef) == NotMeta(files)
    decreases |files|
  {
    var meta, rest := Metas(files)[0], files[1..];
    MetasAre(rest);
    forall f <- rest
      ensures f.fileRef != files[0].fileRef
    {
      var i :| 0 <= i < |rest| && rest[i] == f;
      assert files[i + 1] == f;
    }
    if IsMeta(files[0]) {
      assert Metas(rest) == [];
      OtherThanAll(rest, meta.fileRef);
    } else {
      assert Metas(files) == Metas(rest);
      AttachmentsAreTheRest(rest);
      assert meta in rest;
    }
  }

  lemma {:induction false} RestIsDistinct(files: seq<Item>)
    requires DistinctRefs(files)
    ensures DistinctRefs(NotMeta(files)) && forall f <- NotMeta(files) :: f in files
  {
    if files != [] {
      var rest := files[1..];
      RestIsDistinct(rest);
      forall f <- NotMeta(rest)
        ensures f.fileRef != files[0].fileRef
      {
        var i :| 0 <= i < |rest| && rest[i] == f;
        assert files[i + 1] == f;
      }
    }
  }

  // ---------------------------------------------------------------- plan, save, hydrate

  datatype PlanFile = PlanFile(fileRef: string, filename: string, sourcePath: string)

  function BuildLocalStoragePlan(attachments: seq<Item>): (r: seq<PlanFile>)
    ensures |r| == |attachments|
  {
    seq(|attachments|, i requires 0 <= i < |attachments| =>
      PlanFile(attachments[i].fileRef, attachments[i].filename, attachments[i].absPath))
  }

  datatype Chunk = Chunk(relatedFileRefs: seq<string>, relatedStoragePaths: seq<string>)

  function BuildSingleMemoryChunk(attachments: seq<Item>): Chunk {
    Chunk(seq(|attachments|, i requires 0 <= i < |attachments| => attachments[i].fileRef), [])
  }

  /** Where an import puts its files; the day is read from the clock for each file. */
  datatype Place = Place(tag: string, kbIndex: string, taskId: string, day: nat -> string) {
    ghost predicate Dated() {
      forall n: nat :: IsDate(day(n))
    }
  }

  function PathFor(at: Place, n: nat, filename: string): string {
    LocalPath(at.tag, at.kbIndex, at.day(n), at.taskId, filename)
  }

  /** The staged files that are there, by path. */
  type Staging = map<string, Bytes>

  predicate Staged(staging: Staging, f: PlanFile) {
    f.sourcePath != "" && f.sourcePath in staging
  }

  function Saved(at: Place, n: nat, f: PlanFile, staging: Staging): Stored
    requires Staged(staging, f)
  {
    Stored(PathFor(at, n, f.filename), |staging[f.sourcePath]|, SanitizeFilename(f.filename))
  }

  ghost function Results(at: Place, plan: seq<PlanFile>, staging: Staging): map<string, Stored>
    decreases |plan|
  {
    if plan == [] then map[]
    else
      var n := |plan| - 1;
      var before := Results(at, plan[..n], staging);
      if Staged(staging, plan[n]) then before[plan[n].fileRef := Saved(at, n, plan[n], staging)] else before
  }

  ghost function TargetOf(root: Path, at: Place, n: nat, filename: string): Path
    requires at.Dated()
  {
    OwnPathResolves(root, at.tag, at.kbIndex, at.day(n), at.taskId, filename);
    ResolveStoragePath(root, PathFor(at, n, filename)).value
  }

  /** The disk after storing the planned files in turn, up to the first that cannot be stored. */
  ghost function Written(root: Path, at: Place, d: Disk, plan: seq<PlanFile>, staging: Staging): (Disk, Option<StoreError>)
    requires at.Dated()
    decreases |plan|
  {
    if plan == [] then (d, None)
    else
      var n := |plan| - 1;
      var (before, failed) := Written(root, at, d, plan[..n], staging);
      if failed.Some? || !Staged(staging, plan[n]) then (before, failed)
      else Placed(before, TargetOf(root, at, n, plan[n].filename), staging[plan[n].sourcePath])
  }

  lemma {:induction false} WrittenInPieces(root: Path, at: Place, d: Disk, plan: seq<PlanFile>, staging: Staging, n: nat)
    requires at.Dated() && n <= |plan|
    ensures Written(root, at, d, plan[..n], staging).1.Some? ==> Written(root, at, d, plan, staging) == Written(root, at, d, plan[..n], staging)
    decreases |plan|
  {
    if n == |plan| {
      assert plan[..n] == plan;
    } else {
      assert plan[..|plan| - 1][..n] == plan[..n];
      WrittenInPieces(root, at, d, plan[..|plan| - 1], staging, n);
    }
  }

  method SaveFilesByPlan(gateway: LocalFileSystemGateway, at: Place, plan: seq<PlanFile>, staging: Staging)
    returns (r: Result<map<string, Stored>, StoreError>)
    requires at.Dated() && gateway.chunkSize > 0
    modifies gateway
    ensures var (d, failed) := Written(gateway.root, at, old(gateway.disk), plan, staging);
            && gateway.disk == d
            && r == if failed.Some? then Failure(failed.value) else Success(Results(at, plan, staging))
  {
    hide Placed, LocalPath, ResolveStoragePath, SanitizeFilename;
    var refToResult: map<string, Stored> := map[];
    for n := 0 to |plan|
      invariant refToResult == Results(at, plan[..n], staging)
      invariant (gateway.disk, None) == Written(gateway.root, at, old(gateway.disk), plan[..n], staging)
    {
      var f := plan[n];
      assert plan[..n + 1][..n] == plan[..n] && plan[..n + 1][n] == f;
      if !Staged(staging, f) {
        continue;
      }
      var stored := gateway.Store(staging[f.sourcePath], at.tag, at.kbIndex, at.day(n), f.filename, at.taskId);
      if stored.Failure? {
        WrittenInPieces(gateway.root, at, old(gateway.disk), plan, staging, n + 1);
        return Failure(stored.error);
      }
      refToResult := refToResult[f.fileRef := stored.value];
    }
    assert plan[..|plan|] == plan;
    return Success(refToResult);
  }

  /** Where every file has been stored with a kb_index, or every one without, all planned files can be stored. */
  lemma {:induction false} PlanNeverClashes(root: Path, at: Place, d: Disk, plan: seq<PlanFile>, staging: Staging)
    requires at.Dated() && Level(root, d, Depth(at.kbIndex))
    ensures var (after, failed) := Written(root, at, d, plan, staging);
            failed.None? && Level(root, after, Depth(at.kbIndex))
    decreases |plan|
  {
    hide Placed, LocalPath, ResolveStoragePath, SanitizeFilename, Level;
    if plan != [] {
      var n := |plan| - 1;
      PlanNeverClashes(root, at, d, plan[..n], staging);
      if Staged(staging, plan[n]) {
        StoresStayLevel(root, Written(root, at, d, plan[..n], staging).0, at.tag, at.kbIndex, at.day(n), at.taskId, plan[n].filename,
                        staging[plan[n].sourcePath]);
      }
    }
  }

  /** The storage paths of the refs that were stored, in the order of the refs. */
  method HydrateChunk(chunk: Chunk, refToResult: map<string, Stored>) returns (r: Chunk)
    ensures r.relatedFileRefs == chunk.relatedFileRefs
    ensures r.relatedStoragePaths
         == (if |refToResult| == 0 || chunk.relatedFileRefs == [] then chunk.relatedStoragePaths
             else PathsOf(chunk.relatedFileRefs, refToResult))
  {
    if |refToResult| == 0 || chunk.relatedFileRefs == [] {
      return chunk;
    }
    var paths := [];
    var refs := chunk.relatedFileRefs;
    for n := 0 to |refs|
      invariant paths == PathsOf(refs[..n], refToResult)
    {
      assert refs[..n + 1][..n] == refs[..n];
      if refs[n] in refToResult {
        paths := paths + [refToResult[refs[n]].storagePath];
      }
    }
    assert refs[..|refs|] == refs;
    return chunk.(relatedStoragePaths := paths);
  }

  ghost function PathsOf(refs: seq<string>, refToResult: map<string, Stored>): seq<string> {
    if refs == [] then []
    else
      var last := refs[|refs| - 1];
      PathsOf(refs[..|refs| - 1], refToResult) + (if last in refToResult then [refToResult[last].storagePath] else [])
  }

  // ---------------------------------------------------------------- the whole of it

  /** The storage paths of the attachments that were there, in manifest order. */
  ghost function ExpectedPaths(at: Place, attachments: seq<Item>, staging: Staging): seq<string> {
    if attachments == [] then []
    else
      var n := |attachments| - 1;
      var last := attachments[n];
      ExpectedPaths(at, attachments[..n], staging)
      + (if last.absPath != "" && last.absPath in staging then [PathFor(at, n, last.filename)] else [])
  }

  ghost predicate DistinctPlan(plan: seq<PlanFile>) {
    forall i, j | 0 <= i < j < |plan| :: plan[i].fileRef != plan[j].fileRef
  }

  lemma {:induction false} ResultKeys(at: Place, plan: seq<PlanFile>, staging: Staging, fileRef: string)
    requires forall i | 0 <= i < |plan| :: plan[i].fileRef != fileRef
    ensures fileRef !in Results(at, plan, staging)
    decreases |plan|
  {
    if plan != [] { ResultKeys(at, plan[..|plan| - 1], staging, fileRef); }
  }

  /** With distinct refs, a ref has a result exactly when its file was there, and that result is its own. */
  lemma {:induction false} ResultAt(at: Place, plan: seq<PlanFile>, staging: Staging, i: nat)
    requires DistinctPlan(plan) && i < |plan|
    ensures var results := Results(at, plan, staging);
            && (plan[i].fileRef in results <==> Staged(staging, plan[i]))
            && (Staged(staging, plan[i]) ==> results[plan[i].fileRef] == Saved(at, i, plan[i], staging))
    decreases |plan|
  {
    var n := |plan| - 1;
    hide Saved;
    if i == n {
      ResultKeys(at, plan[..n], staging, plan[n].fileRef);
    } else {
      ResultAt(at, plan[..n], staging, i);
    }
  }

  ghost function StagedCount(plan: seq<PlanFile>, staging: Staging): nat {
    if plan == [] then 0
    else StagedCount(plan[..|plan| - 1], staging) + (if Staged(staging, plan[|plan| - 1]) then 1 else 0)
  }

  /** `files_stored`: as many results as files that were there. */
  lemma {:induction false} ResultCount(at: Place, plan: seq<PlanFile>, staging: Staging)
    requires DistinctPlan(plan)
    ensures |Results(at, plan, staging)| == StagedCount(plan, staging)
    decreases |plan|
  {
    if plan != [] {
      var n := |plan| - 1;
      ResultCount(at, plan[..n], staging);
      ResultKeys(at, plan[..n], staging, plan[n].fileRef);
    }
  }

  lemma {:induction false} PathsAre(at: Place, attachments: seq<Item>, staging: Staging, k: nat)
    requires DistinctRefs(attachments) && k <= |attachments|
    ensures var plan := BuildLocalStoragePlan(attachments);
            var refs := BuildSingleMemoryChunk(attachments).relatedFileRefs;
            && PathsOf(refs[..k], Results(at, plan, staging)) == ExpectedPaths(at, attachments[..k], staging)
            && |ExpectedPaths(at, attachments[..k], staging)| == StagedCount(plan[..k], staging)
  {
    hide PathFor, Results, SanitizeFilename;
    if k > 0 {
      var plan := BuildLocalStoragePlan(attachments);
      var refs := BuildSingleMemoryChunk(attachments).relatedFileRefs;
      PathsAre(at, attachments, staging, k - 1);
      ResultAt(at, plan, staging, k - 1);
      assert refs[..k][..k - 1] == refs[..k - 1];
      assert attachments[..k][..k - 1] == attachments[..k - 1];
      assert plan[..k][..k - 1] == plan[..k - 1];
    }
  }

  /**
   What saving and hydrating make of an accepted manifest: the chunk's storage paths are those of the
   attachments that were there, in manifest order, and the results number as many.
   */
  lemma HydratedPaths(at: Place, attachments: seq<Item>, staging: Staging)
    requires DistinctRefs(attachments)
    ensures var chunk := BuildSingleMemoryChunk(attachments);
            var results := Results(at, BuildLocalStoragePlan(attachments), staging);
            && |results| == |ExpectedPaths(at, attachments, staging)|
            && (if |results| == 0 || chunk.relatedFileRefs == [] then chunk.relatedStoragePaths
                else PathsOf(chunk.relatedFileRefs, results)) == ExpectedPaths(at, attachments, staging)
  {
    var plan := BuildLocalStoragePlan(attachments);
    var refs := BuildSingleMemoryChunk(attachments).relatedFileRefs;
    var n := |attachments|;
    PathsAre(at, attachments, staging, n);
    ResultCount(at, plan, staging);
    assert attachments[..n] == attachments && plan[..n] == plan && refs[..n] == refs;
  }

  /**
   From manifest to hydrated chunk, with the number of stored files; `parses` says whether the meta
   file at a path is accepted. Nothing is stored unless manifest and meta file are.
   */
  method ImportMemoryFiles(gateway: LocalFileSystemGateway, files: Option<seq<Item>>, parses: string -> bool, at: Place, staging: Staging)
    returns (r: Result<(Chunk, nat), ImportError>)
    requires at.Dated() && gateway.chunkSize > 0
    modifies gateway
    ensures r.Failure? && !r.error.NotStored? ==> gateway.disk == old(gateway.disk)
    ensures Importable(files, parses) <==> r.Success? || r.error.NotStored?
    ensures files.Some? && files.value != [] && Faultless(files.value, |files.value|) ==>
              var metas := Metas(Entries(files.value));
              && (|metas| != 1 ==> r == Failure(BadManifest(MetaCount(|metas|))))
              && (|metas| == 1 && !parses(metas[0].absPath) ==> r == Failure(BadMeta(metas[0].absPath)))
    ensures Importable(files, parses) ==>
              var attachments := NotMeta(Entries(files.value));
              var (d, failed) := Written(gateway.root, at, old(gateway.disk), BuildLocalStoragePlan(attachments), staging);
              && gateway.disk == d
              && (failed.Some? ==> r == Failure(NotStored(failed.value)))
              && (failed.None? ==>
                    && r.Success?
                    && r.value.0.relatedStoragePaths == ExpectedPaths(at, attachments, staging)
                    && r.value.1 == |ExpectedPaths(at, attachments, staging)|)
  {
    hide PathsOf, ExpectedPaths, Results, Written, DistinctRefs, Faultless, SanitizeFilename, Entry, Lower, Strip;
    var loaded := LoadManifest(files);
    if loaded.Failure? {
      return Failure(BadManifest(loaded.error));
    }
    var split := SplitMetaAndAttachments(loaded.value);
    if split.Failure? {
      return Failure(BadManifest(split.error));
    }
    if !parses(split.value.0.absPath) {
      return Failure(BadMeta(split.value.0.absPath));
    }
    var attachments := split.value.1;
    AttachmentsAreTheRest(loaded.value);
    RestIsDistinct(loaded.value);
    var chunk := BuildSingleMemoryChunk(attachments);
    var plan := BuildLocalStoragePlan(attachments);
    HydratedPaths(at, attachments, staging);
    var saved := SaveFilesByPlan(gateway, at, plan, staging);
    if saved.Failure? {
      return Failure(NotStored(saved.error));
    }
    var hydrated := HydrateChunk(chunk, saved.value);
    return Success((hydrated, |saved.value|));
  }

  /** The manifest is accepted, has one meta.json, and that is accepted. */
  ghost predicate Importable(files: Option<seq<Item>>, parses: string -> bool) {
    && files.Some? && files.value != [] && Faultless(files.value, |files.value|)
    && |Metas(Entries(files.value))| == 1
    && parses(Metas(Entries(files.value))[0].absPath)
  }

  // ---------------------------------------------------------------- what the files then hold

  /** Stored on one day under one sanitised name. */
  ghost predicate SamePlace(at: Place, plan: seq<PlanFile>, i: nat, j: nat)
    requires i < |plan| && j < |plan|
  {
    at.day(i) == at.day(j) && SanitizeFilename(plan[i].filename) == SanitizeFilename(plan[j].filename)
  }

  lemma TargetsEqualIff(root: Path, at: Place, plan: seq<PlanFile>, i: nat, j: nat)
    requires at.Dated() && i < |plan| && j < |plan|
    ensures TargetOf(root, at, i, plan[i].filename) == TargetOf(root, at, j, plan[j].filename) <==> SamePlace(at, plan, i, j)
  {
    hide SanitizeFilename, ResolveStoragePath, LocalPath, LocalParts;
    OwnPathResolves(root, at.tag, at.kbIndex, at.day(i), at.taskId, plan[i].filename);
    OwnPathResolves(root, at.tag, at.kbIndex, at.day(j), at.taskId, plan[j].filename);
    SamePathIff(root, at.tag, at.kbIndex, at.taskId, at.day(i), plan[i].filename, at.day(j), plan[j].filename);
  }

  /** No later staged file goes where file `i` went. */
  ghost predicate LastThere(at: Place, plan: seq<PlanFile>, staging: Staging, i: nat)
    requires i < |plan|
  {
    forall j | i < j < |plan| && Staged(staging, plan[j]) :: !SamePlace(at, plan, j, i)
  }

  ghost predicate AllStored(root: Path, at: Place, d: Disk, plan: seq<PlanFile>, staging: Staging)
    requires at.Dated()
  {
    Written(root, at, d, plan, staging).1.None?
  }

  ghost function FilesAfter(root: Path, at: Place, d: Disk, plan: seq<PlanFile>, staging: Staging): map<Path, Bytes>
    requires at.Dated()
  {
    Written(root, at, d, plan, staging).0.files
  }

  lemma LastStored(root: Path, at: Place, d: Disk, plan: seq<PlanFile>, staging: Staging)
    requires at.Dated() && plan != [] && AllStored(root, at, d, plan, staging)
    ensures var n := |plan| - 1;
            && AllStored(root, at, d, plan[..n], staging)
            && FilesAfter(root, at, d, plan, staging)
               == if Staged(staging, plan[n])
                  then FilesAfter(root, at, d, plan[..n], staging)[TargetOf(root, at, n, plan[n].filename) := staging[plan[n].sourcePath]]
                  else FilesAfter(root, at, d, plan[..n], staging)
  {
    hide TargetOf, Placed, SanitizeFilename;
    var n := |plan| - 1;
    if Staged(staging, plan[n]) {
      PlacedIff(Written(root, at, d, plan[..n], staging).0, TargetOf(root, at, n, plan[n].filename), staging[plan[n].sourcePath]);
    }
  }

  /** The last staged file of its place, and no other file, is at its path in the end. */
  lemma {:induction false} LastIsKept(root: Path, at: Place, d: Disk, plan: seq<PlanFile>, staging: Staging, i: nat)
    requires at.Dated() && i < |plan| && Staged(staging, plan[i]) && LastThere(at, plan, staging, i)
    requires AllStored(root, at, d, plan, staging)
    ensures var written := FilesAfter(root, at, d, plan, staging);
            var path := TargetOf(root, at, i, plan[i].filename);
            path in written && written[path] == staging[plan[i].sourcePath]
    decreases |plan|
  {
    hide TargetOf, SanitizeFilename, FilesAfter, AllStored;
    var n := |plan| - 1;
    LastStored(root, at, d, plan, staging);
    if i < n {
      forall j | i < j < n && Staged(staging, plan[..n][j]) ensures !SamePlace(at, plan[..n], j, i) {
        assert !SamePlace(at, plan, j, i);
      }
      LastIsKept(root, at, d, plan[..n], staging, i);
      TargetsEqualIff(root, at, plan, n, i);
    }
  }

  /** The last staged file of the place of file `i`. */
  lemma {:induction false} FindLast(at: Place, plan: seq<PlanFile>, staging: Staging, i: nat) returns (last: nat)
    requires i < |plan| && Staged(staging, plan[i])
    ensures i <= last < |plan| && Staged(staging, plan[last]) && SamePlace(at, plan, i, last) && LastThere(at, plan, staging, last)
    decreases |plan| - i
  {
    hide SanitizeFilename;
    if j :| i < j < |plan| && Staged(staging, plan[j]) && SamePlace(at, plan, j, i) {
      last := FindLast(at, plan, staging, j);
    } else {
      last := i;
    }
  }

  ghost predicate ReadsBack(root: Path, at: Place, written: map<Path, Bytes>, plan: seq<PlanFile>, staging: Staging, i: nat)
    requires at.Dated() && i < |plan| && Staged(staging, plan[i])
  {
    var path := TargetOf(root, at, i, plan[i].filename);
    path in written && written[path] == staging[plan[i].sourcePath]
  }

  /** A stored file reads back as itself exactly when the last one of its place has its contents. */
  lemma ReadsBackIff(root: Path, at: Place, d: Disk, plan: seq<PlanFile>, staging: Staging, i: nat, last: nat)
    requires at.Dated() && i <= last < |plan| && Staged(staging, plan[i]) && Staged(staging, plan[last])
    requires SamePlace(at, plan, i, last) && LastThere(at, plan, staging, last)
    requires AllStored(root, at, d, plan, staging)
    ensures ReadsBack(root, at, FilesAfter(root, at, d, plan, staging), plan, staging, i)
            <==> staging[plan[last].sourcePath] == staging[plan[i].sourcePath]
  {
    hide TargetOf, SamePlace, FilesAfter, AllStored, LastThere;
    LastIsKept(root, at, d, plan, staging, last);
    TargetsEqualIff(root, at, plan, i, last);
  }

  /** Staged files of one place have equal contents. */
  ghost predicate NoneOverwritten(at: Place, plan: seq<PlanFile>, staging: Staging) {
    forall i, j | 0 <= i < j < |plan| && Staged(staging, plan[i]) && Staged(staging, plan[j]) && SamePlace(at, plan, i, j) ::
      staging[plan[i].sourcePath] == staging[plan[j].sourcePath]
  }

  /** Every staged file reads back as itself exactly when those stored on one day under one sanitised name are equal. */
  lemma AllReadBackIff(root: Path, at: Place, d: Disk, plan: seq<PlanFile>, staging: Staging)
    requires at.Dated() && AllStored(root, at, d, plan, staging)
    ensures (forall i | 0 <= i < |plan| && Staged(staging, plan[i]) ::
               ReadsBack(root, at, FilesAfter(root, at, d, plan, staging), plan, staging, i))
            <==> NoneOverwritten(at, plan, staging)
  {
    hide TargetOf, FilesAfter, AllStored, SanitizeFilename, LastThere;
    var written := FilesAfter(root, at, d, plan, staging);
    if NoneOverwritten(at, plan, staging) {
      forall i | 0 <= i < |plan| && Staged(staging, plan[i]) ensures ReadsBack(root, at, written, plan, staging, i) {
        var last := FindLast(at, plan, staging, i);
        ReadsBackIff(root, at, d, plan, staging, i, last);
      }
    } else {
      var i, j :| 0 <= i < j < |plan| && Staged(staging, plan[i]) && Staged(staging, plan[j]) && SamePlace(at, plan, i, j)
                  && staging[plan[i].sourcePath] != staging[plan[j].sourcePath];
      TargetsEqualIff(root, at, plan, i, j);
      assert !(ReadsBack(root, at, written, plan, staging, i) && ReadsBack(root, at, written, plan, staging, j));
    }
  }

  /** Two attachments called alike: both are stored and the first does not read back. */
  lemma TwinIsLost(root: Path, at: Place, d: Disk) returns (plan: seq<PlanFile>, staging: Staging)
    requires at.Dated() && at.day(0) == at.day(1) && Level(root, d, Depth(at.kbIndex))
    ensures |plan| == 2 && plan[0].fileRef != plan[1].fileRef && Staged(staging, plan[0])
    ensures !ReadsBack(root, at, FilesAfter(root, at, d, plan, staging), plan, staging, 0)
  {
    hide TargetOf, FilesAfter, SanitizeFilename, Level;
    plan := [PlanFile("a", "f", "x"), PlanFile("b", "f", "y")];
    staging := map["x" := [0], "y" := [1]];
    assert LastThere(at, plan, staging, 1) && SamePlace(at, plan, 0, 1);
    PlanNeverClashes(root, at, d, plan, staging);
    ReadsBackIff(root, at, d, plan, staging, 0, 1);
  }
}
