/** Where stored files go: sanitised path segments, the storage path, and the local gateway that writes there. */
module StoragePaths {
  import opened FileTree
  import opened Paths
  import opened SkillMarkdown
  import opened Wrappers

  /** The characters the segment pattern lets through. */
  predicate Safe(c: char) {
    'a' <= c <= 'z' || 'A' <= c <= 'Z' || '0' <= c <= '9' || c == '.' || c == '_' || c == '-'
  }

  predicate Mark(c: char) {
    c == '.' || c == '_' || c == '-'
  }

  /** Letters, digits, and the three marks, by their codes. */
  lemma SafeAre(c: char)
    ensures var n := c as int;
            Safe(c) <==> 97 <= n <= 122 || 65 <= n <= 90 || 48 <= n <= 57 || n == 46 || n == 95 || n == 45
    ensures Mark(c) <==> c as int == 46 || c as int == 95 || c as int == 45
  {
  }

  predicate AllSafe(s: string) {
    forall c <- s :: Safe(c)
  }

  function DropUnsafe(s: string): (r: string)
    ensures |r| <= |s| && (forall c <- r :: c in s)
  {
    if s != "" && !Safe(s[0]) then DropUnsafe(s[1..]) else s
  }

  /** Each run of other characters becomes one underscore. */
  function SubRuns(s: string): (r: string)
    ensures AllSafe(r) && (AllSafe(s) ==> r == s) && (s != "" ==> r != "")
    decreases |s|
  {
    if s == "" then ""
    else if Safe(s[0]) then [s[0]] + SubRuns(s[1..])
    else "_" + SubRuns(DropUnsafe(s[1..]))
  }

  /** A run of other characters between safe text and the rest gives one underscore, however long it is. */
  lemma {:induction false} SubRunsOf(safe: string, run: string, rest: string)
    requires AllSafe(safe) && run != "" && (forall c <- run :: !Safe(c)) && (rest != "" ==> Safe(rest[0]))
    ensures SubRuns(safe + run + rest) == safe + "_" + SubRuns(rest)
    decreases |safe|
  {
    hide SubRuns, DropUnsafe;
    var all := safe + run + rest;
    if safe == "" {
      SubUnsafe(run[0], run[1..] + rest);
      assert all == [run[0]] + (run[1..] + rest);
      assert all[0] == run[0] && all[1..] == run[1..] + rest;
      DropsRun(run[1..], rest);
    } else {
      var tail := safe[1..] + run + rest;
      assert all == [safe[0]] + tail && Safe(safe[0]);
      SubRunsOf(safe[1..], run, rest);
      SubSafe(safe[0], tail);
      assert [safe[0]] + (safe[1..] + "_" + SubRuns(rest)) == safe + "_" + SubRuns(rest);
    }
  }

  lemma SubSafe(c: char, tail: string)
    requires Safe(c)
    ensures SubRuns([c] + tail) == [c] + SubRuns(tail)
  {
    assert ([c] + tail)[1..] == tail;
  }

  lemma SubUnsafe(c: char, tail: string)
    requires !Safe(c)
    ensures SubRuns([c] + tail) == "_" + SubRuns(DropUnsafe(tail))
  {
    assert ([c] + tail)[1..] == tail;
  }

  lemma {:induction false} DropsRun(run: string, rest: string)
    requires (forall c <- run :: !Safe(c)) && (rest != "" ==> Safe(rest[0]))
    ensures DropUnsafe(run + rest) == rest
  {
    if run == "" {
      assert run + rest == rest;
    } else {
      assert (run + rest)[1..] == run[1..] + rest;
      DropsRun(run[1..], rest);
    }
  }

  function StripMarksLeft(s: string): (r: string)
    ensures (AllSafe(s) ==> AllSafe(r)) && (r != "" ==> !Mark(r[0]))
    ensures r != "" ==> s != "" && r[|r| - 1] == s[|s| - 1]
    ensures s != "" && !Mark(s[0]) ==> r == s
  {
    if s != "" && Mark(s[0]) then StripMarksLeft(s[1..]) else s
  }

  function StripMarksRight(s: string): (r: string)
    ensures (AllSafe(s) ==> AllSafe(r)) && (r != "" ==> !Mark(r[|r| - 1]))
    ensures r != "" ==> s != "" && r[0] == s[0]
    ensures s != "" && !Mark(s[|s| - 1]) ==> r == s
  {
    if s != "" && Mark(s[|s| - 1]) then StripMarksRight(s[..|s| - 1]) else s
  }

  function Cleaned(value: string): string {
    StripMarksRight(StripMarksLeft(SubRuns(Strip(value))))
  }

  function SanitizeSegment(value: string, fallback: string): string {
    if Strip(value) == "" then fallback
    else if Cleaned(value) == "" then fallback
    else Cleaned(value)
  }

  /** The texts sanitising leaves alone: safe, and not beginning or ending with a mark. */
  predicate IsSegment(s: string) {
    s != "" && AllSafe(s) && !Mark(s[0]) && !Mark(s[|s| - 1])
  }

  lemma SafeIsTrimmed(s: string)
    requires AllSafe(s)
    ensures Strip(s) == s
  {
    if s != "" { assert Safe(s[0]) && Safe(s[|s| - 1]); }
    StripFixes(s);
  }

  /** Sanitising gives a segment or the fallback, and leaves segments alone. */
  lemma SegmentShape(value: string, fallback: string)
    ensures SanitizeSegment(value, fallback) == fallback || IsSegment(SanitizeSegment(value, fallback))
    ensures IsSegment(value) ==> SanitizeSegment(value, fallback) == value
    ensures IsSegment(value) ==> Proper(value)
  {
    hide Strip;
    if IsSegment(value) {
      SafeIsTrimmed(value);
      assert '/' in value ==> Safe('/');
      assert Mark('.');
    }
  }

  /**
   A second sanitising changes nothing exactly when the first had something to keep, or fell back on
   a text that sanitising either cannot clean or leaves alone.
   */
  lemma SegmentTwiceIff(value: string, fallback: string)
    ensures var once := SanitizeSegment(value, fallback);
            SanitizeSegment(once, fallback) == once
            <==> || (Strip(value) != "" && Cleaned(value) != "")
                 || Strip(fallback) == "" || Cleaned(fallback) == "" || Cleaned(fallback) == fallback
  {
    hide Strip, Cleaned, IsSegment;
    SegmentShape(value, fallback);
    SegmentShape(SanitizeSegment(value, fallback), fallback);
    KeptIsSegment(value);
  }

  /** A segment is the stripped text with runs made underscores and marks taken off both ends, or the fallback. */
  lemma SegmentIs(value: string, fallback: string, before: string, core: string, after: string)
    requires SubRuns(Strip(value)) == before + core + after
    requires (forall c <- before :: Mark(c)) && (forall c <- after :: Mark(c))
    requires core != "" ==> !Mark(core[0]) && !Mark(core[|core| - 1])
    ensures SanitizeSegment(value, fallback) == if core == "" then fallback else core
  {
    hide Strip, SubRuns;
    MarksOffLeft(before, core, after);
    if core != "" { MarksOffRight(core, after); }
  }

  lemma {:induction false} MarksOffLeft(before: string, core: string, after: string)
    requires (forall c <- before :: Mark(c)) && (forall c <- after :: Mark(c))
    requires core != "" ==> !Mark(core[0])
    ensures StripMarksLeft(before + core + after) == if core == "" then "" else core + after
    decreases |before| + |after|
  {
    var all := before + core + after;
    if before != "" {
      assert all[1..] == before[1..] + core + after;
      MarksOffLeft(before[1..], core, after);
    } else if core == "" && after != "" {
      assert all[1..] == "" + core + after[1..];
      MarksOffLeft("", core, after[1..]);
    } else {
      assert all == core + after;
    }
  }

  lemma {:induction false} MarksOffRight(core: string, after: string)
    requires core != "" && !Mark(core[|core| - 1]) && forall c <- after :: Mark(c)
    ensures StripMarksRight(core + after) == core
    decreases |after|
  {
    if after == "" {
      assert core + after == core;
    } else {
      assert (core + after)[..|core + after| - 1] == core + after[..|after| - 1];
      MarksOffRight(core, after[..|after| - 1]);
    }
  }

  lemma KeptIsSegment(value: string)
    ensures Cleaned(value) != "" ==> IsSegment(Cleaned(value))
  {
    hide Strip;
  }

  /** A fallback that sanitising would itself change. */
  lemma FallbackChanges()
    ensures var once := SanitizeSegment("", "_x");
            once == "_x" && SanitizeSegment(once, "_x") == "x"
  {
    StripFixes("_x");
    assert StripMarksLeft("_x") == "x";
    assert Cleaned("_x") == "x";
  }

  // ---------------------------------------------------------------- file names

  const UNNAMED := "unnamed.bin"

  function LastNamed(parts: seq<string>): string {
    if parts == [] then ""
    else if parts[|parts| - 1] != "" && parts[|parts| - 1] != "." then parts[|parts| - 1]
    else LastNamed(parts[..|parts| - 1])
  }

  /** `Path(filename).name`: the last element that is neither empty nor ".". */
  function BaseName(filename: string): string {
    LastNamed(Split(filename))
  }

  function SanitizeFilename(filename: string): string {
    var base := Strip(BaseName(filename));
    if base == "" then UNNAMED
    else
      var cleaned := Strip(SubRuns(base));
      if cleaned in {".", "..", ""} then UNNAMED else cleaned
  }

  /** A sanitised name is one safe, proper element; the sanitised names are those sanitising leaves alone. */
  lemma FilenameShape(filename: string)
    ensures var r := SanitizeFilename(filename);
            AllSafe(r) && Proper(r) && SanitizeFilename(r) == r
    ensures SanitizeFilename(filename) == filename <==> AllSafe(filename) && Proper(filename)
  {
    var r := SanitizeFilename(filename);
    SafeIsTrimmed(SubRuns(Strip(BaseName(filename))));
    assert AllSafe(UNNAMED) && Proper(UNNAMED);
    assert '/' in r ==> Safe('/');
    SafeNameKept(r);
    if AllSafe(filename) && Proper(filename) { SafeNameKept(filename); }
  }

  lemma SafeNameKept(name: string)
    requires AllSafe(name) && Proper(name)
    ensures SanitizeFilename(name) == name
  {
    SplitJoin([name]);
    assert JoinSlash([name]) == name;
    SafeIsTrimmed(name);
    assert SubRuns(name) == name;
  }

  /**
   A file name is its last element, stripped, with every run of other characters made one underscore;
   what that leaves nothing of, or only dots, is "unnamed.bin".
   */
  lemma FilenameIs(dir: string, name: string)
    requires '/' !in name && name != "" && name != "."
    ensures SanitizeFilename(dir + "/" + name) == SanitizeFilename(name)
    ensures SanitizeFilename(name)
         == if Strip(name) == "" || SubRuns(Strip(name)) in {".", ".."} then "unnamed.bin" else SubRuns(Strip(name))
  {
    SplitLast(dir, name);
    assert (Split(dir) + [name])[|Split(dir)|] == name;
    SplitPrefix(name, "");
    assert name + "" == name;
    assert Split(name) == [name];
    SafeIsTrimmed(SubRuns(Strip(name)));
    hide Strip, SubRuns;
    assert BaseName(dir + "/" + name) == name == BaseName(name);
  }

  /** Trailing slashes and dots after the last element, and an empty name, do not count. */
  lemma FilenameDefaults(name: string)
    requires '/' !in name
    ensures SanitizeFilename("") == SanitizeFilename(".") == "unnamed.bin"
    ensures SanitizeFilename(name + "/" + "") == SanitizeFilename(name + "/" + ".") == SanitizeFilename(name)
  {
    SplitLast(name, "");
    SplitLast(name, ".");
    SplitPrefix(name, "");
    assert name + "" == name && Split(name) == [name];
    SplitPrefix(".", "");
    assert "." + "" == "." && Split(".") == ["."];
    assert [name, ""][..1] == [name] && [name, "."][..1] == [name] && [""][..0] == [] && ["."][..0] == [];
    assert Split(name) + [""] == [name, ""] && Split(name) + ["."] == [name, "."];
    hide SubRuns;
    assert BaseName(name + "/" + "") == BaseName(name + "/" + ".") == BaseName(name);
  }

  // ---------------------------------------------------------------- the storage path

  predicate IsDate(date: string) {
    |date| == 8 && forall c <- date :: '0' <= c <= '9'
  }

  function Present(parts: seq<string>): (r: seq<string>)
    ensures (forall p <- r :: p in parts && p != "") && (forall p <- parts :: p != "" ==> p in r)
  {
    if parts == [] then []
    else (if parts[0] == "" then [] else [parts[0]]) + Present(parts[1..])
  }

  function OrDefault(taskId: string): string {
    SanitizeSegment(if taskId == "" then "default" else taskId, "default")
  }

  /** The elements of a path that are present, in order. */
  function Located(domain: string, kbIndex: string, date: string, taskId: string, filename: string): (r: seq<string>)
    ensures filename != "" ==> r != [] && r[|r| - 1] == filename
  {
    var all := [domain, kbIndex, date, taskId, filename];
    PresentLast(all);
    Present(all)
  }

  lemma {:induction false} PresentLast(parts: seq<string>)
    requires parts != []
    ensures var r := Present(parts);
            parts[|parts| - 1] != "" ==> r != [] && r[|r| - 1] == parts[|parts| - 1]
  {
    if |parts| > 1 { PresentLast(parts[1..]); }
  }

  lemma LocatedIsProper(domain: string, kbIndex: string, date: string, taskId: string, filename: string)
    requires domain == "" || Proper(domain)
    requires kbIndex == "" || Proper(kbIndex)
    requires Proper(date) && Proper(taskId) && Proper(filename)
    ensures var r := Located(domain, kbIndex, date, taskId, filename);
            AllProper(r) && r != [] && Split(JoinSlash(r)) == r
  {
    var r := Located(domain, kbIndex, date, taskId, filename);
    forall p <- r
      ensures Proper(p) && '/' !in p
    {
      assert p in [domain, kbIndex, date, taskId, filename];
    }
    SplitJoin(r);
  }

  /** The elements of the relative path; absent texts are empty. */
  function StorageParts(domain: string, kbIndex: string, date: string, taskId: string, filename: string): seq<string> {
    Located(if domain == "" then "" else SanitizeSegment(domain, ""),
            if kbIndex == "" then "" else SanitizeSegment(kbIndex, ""),
            date, OrDefault(taskId), SanitizeFilename(filename))
  }

  function BuildStoragePath(domain: string, kbIndex: string, date: string, taskId: string, filename: string): string
  {
    FilenameShape(filename);
    JoinSlash(StorageParts(domain, kbIndex, date, taskId, filename))
  }

  /** The local gateway's own elements: its domain is never absent, and other fallbacks stand in. */
  function LocalParts(domain: string, kbIndex: string, date: string, taskId: string, filename: string): seq<string> {
    Located(if domain == "" then "UNKNOWN" else SanitizeSegment(domain, "UNKNOWN"),
            if kbIndex == "" then "" else SanitizeSegment(kbIndex, "default"),
            date, OrDefault(taskId), SanitizeFilename(filename))
  }

  function LocalPath(domain: string, kbIndex: string, date: string, taskId: string, filename: string): string {
    FilenameShape(filename);
    JoinSlash(LocalParts(domain, kbIndex, date, taskId, filename))
  }

  lemma FallbacksAreSegments()
    ensures IsSegment("UNKNOWN") && IsSegment("default")
  {
  }

  lemma DateIsSegment(date: string)
    requires IsDate(date)
    ensures IsSegment(date) && Proper(date)
  {
    assert date[0] in date && date[7] in date;
    SegmentShape(date, "");
  }

  lemma SegmentOrEmpty(value: string, fallback: string)
    requires fallback == "" || IsSegment(fallback)
    ensures var s := SanitizeSegment(value, fallback);
            s == "" || Proper(s)
  {
    SegmentShape(value, fallback);
    SegmentShape(SanitizeSegment(value, fallback), fallback);
  }

  lemma TaskSegment(taskId: string)
    ensures Proper(OrDefault(taskId))
  {
    FallbacksAreSegments();
    SegmentShape(if taskId == "" then "default" else taskId, "default");
    SegmentShape(OrDefault(taskId), "");
  }

  /** Every element is a proper name, so splitting the path gives the elements back, in order. */
  lemma StoragePathSplits(domain: string, kbIndex: string, date: string, taskId: string, filename: string)
    requires IsDate(date)
    ensures var parts := StorageParts(domain, kbIndex, date, taskId, filename);
            AllProper(parts) && Split(BuildStoragePath(domain, kbIndex, date, taskId, filename)) == parts
  {
    DateIsSegment(date);
    FilenameShape(filename);
    TaskSegment(taskId);
    SegmentOrEmpty(domain, "");
    SegmentOrEmpty(kbIndex, "");
    hide SanitizeSegment, SanitizeFilename, OrDefault, Located;
    LocatedIsProper(if domain == "" then "" else SanitizeSegment(domain, ""),
                    if kbIndex == "" then "" else SanitizeSegment(kbIndex, ""),
                    date, OrDefault(taskId), SanitizeFilename(filename));
  }

  lemma LocalPathSplits(domain: string, kbIndex: string, date: string, taskId: string, filename: string)
    requires IsDate(date)
    ensures var parts := LocalParts(domain, kbIndex, date, taskId, filename);
            AllProper(parts) && parts != [] && Split(JoinSlash(parts)) == parts
            && parts[|parts| - 1] == SanitizeFilename(filename)
  {
    DateIsSegment(date);
    FilenameShape(filename);
    TaskSegment(taskId);
    FallbacksAreSegments();
    SegmentShape("UNKNOWN", "");
    SegmentOrEmpty(domain, "UNKNOWN");
    SegmentOrEmpty(kbIndex, "default");
    hide SanitizeSegment, SanitizeFilename, OrDefault, Located;
    LocatedIsProper(if domain == "" then "UNKNOWN" else SanitizeSegment(domain, "UNKNOWN"),
                    if kbIndex == "" then "" else SanitizeSegment(kbIndex, "default"),
                    date, OrDefault(taskId), SanitizeFilename(filename));
  }

  // ---------------------------------------------------------------- the local gateway

  datatype StoreError = AbsolutePath | EscapesRoot | NotFound | ParentIsFile | StoreFailed

  /** `_resolve_storage_path`: the path below the root, refused when it leaves it. */
  function ResolveStoragePath(root: Path, storagePath: string): Result<Path, StoreError> {
    if IsRooted(storagePath) then Failure(AbsolutePath)
    else
      var target := Join(root, Split(storagePath));
      if Under(root, target) then Success(target) else Failure(EscapesRoot)
  }

  /** The gateway never refuses a path it has built: it resolves to the same elements below the root. */
  lemma OwnPathResolves(root: Path, domain: string, kbIndex: string, date: string, taskId: string, filename: string)
    requires IsDate(date)
    ensures var parts := LocalParts(domain, kbIndex, date, taskId, filename);
            parts != [] && ResolveStoragePath(root, LocalPath(domain, kbIndex, date, taskId, filename)) == Success(Path(root.rooted, root.parts + parts))
  {
    var parts := LocalParts(domain, kbIndex, date, taskId, filename);
    LocalPathSplits(domain, kbIndex, date, taskId, filename);
    CleanKeepsProper(root.rooted, root.parts, parts);
    assert Proper(parts[0]);
    hide LocalParts;
    assert JoinSlash(parts)[0] == parts[0][0];
  }

  /** A path that is not relative, or that leads out of the root, is refused; what resolves is at or below it. */
  lemma ResolvedIsUnder(root: Path, storagePath: string, name: string)
    requires Proper(name)
    ensures storagePath != "" && storagePath[0] == '/' ==> ResolveStoragePath(root, storagePath) == Failure(AbsolutePath)
    ensures ResolveStoragePath(root, storagePath).Success? ==> Under(root, ResolveStoragePath(root, storagePath).value)
    ensures AllProper(root.parts) && root.parts != [] && root.parts[|root.parts| - 1] != name ==>
              ResolveStoragePath(root, "../" + name) == Failure(EscapesRoot)
  {
    if AllProper(root.parts) && root.parts != [] && root.parts[|root.parts| - 1] != name {
      SplitLast("..", name);
      SplitPrefix("..", "");
      assert ".." + "" == ".." && Split("..") == [".."];
      assert ".." + "/" + name == "../" + name;
      var up, last := root.parts[..|root.parts| - 1], root.parts[|root.parts| - 1];
      assert root.parts == up + [last] && Proper(last);
      CleanRules(root.rooted, up, last, [name]);
      CleanRules(root.rooted, up, name, []);
      assert [".."] + [name] == [".."] + [name] && [name] + [] == [name];
      var target := Join(root, Split("../" + name));
      assert target.parts == up + [name] && |target.parts| == |root.parts| && target.parts[|up|] != root.parts[|up|];
    }
  }

  datatype Stored = Stored(storagePath: string, sizeBytes: nat, filename: string)

  /** One store: the disk it leaves, and what it fails with when a file or a directory is in the way. */
  ghost function Placed(d: Disk, target: Path, content: Bytes): (Disk, Option<StoreError>) {
    match MkdirAll(d, Parent(target))
    case None => (d, Some(ParentIsFile))
    case Some(made) =>
      match WriteFile(made, target, content)
      case None => (made, Some(StoreFailed))
      case Some(written) => (written, None)
  }

  lemma PlacedSteps(d: Disk, target: Path, content: Bytes)
    ensures var made := MkdirAll(d, Parent(target));
            if made.None? then Placed(d, target, content) == (d, Some(ParentIsFile))
            else
              var written := WriteFile(made.value, target, content);
              if written.None? then Placed(d, target, content) == (made.value, Some(StoreFailed))
              else Placed(d, target, content) == (written.value, None)
  {
  }

  class LocalFileSystemGateway {
    const root: Path
    const chunkSize: nat
    var disk: Disk

    constructor (root: Path, chunkSize: nat)
      requires chunkSize > 0
      ensures this.root == root && this.chunkSize == chunkSize && disk == Disk(map[], Ancestors(root))
      ensures forall kbIndex :: Level(root, disk, Depth(kbIndex))
    {
      this.root := root;
      this.chunkSize := chunkSize;
      disk := Disk(map[], Ancestors(root));
      forall kbIndex ensures Level(root, Disk(map[], Ancestors(root)), Depth(kbIndex)) {
        FreshIsLevel(root, Depth(kbIndex));
      }
    }

    /**
     Reads the stream chunk by chunk; the whole of it, and nothing else, is then at the resolved path,
     unless a file or a directory is in the way, which leaves every file as it was.
     */
    method Store(stream: Bytes, domain: string, kbIndex: string, date: string, filename: string, taskId: string)
      returns (r: Result<Stored, StoreError>)
      requires IsDate(date) && chunkSize > 0
      modifies this
      ensures var path := LocalPath(domain, kbIndex, date, taskId, filename);
              && ResolveStoragePath(root, path).Success?
              && var (d, e) := Placed(old(disk), ResolveStoragePath(root, path).value, stream);
              && disk == d
              && r == if e.Some? then Failure(e.value) else Success(Stored(path, |stream|, SanitizeFilename(filename)))
    {
      hide *;
      OwnPathResolves(root, domain, kbIndex, date, taskId, filename);
      var relativePath := LocalPath(domain, kbIndex, date, taskId, filename);
      var finalPath := ResolveStoragePath(root, relativePath);
      if finalPath.Failure? {
        assert false;
      }
      PlacedSteps(disk, finalPath.value, stream);
      var made := MkdirAll(disk, Parent(finalPath.value));
      if made.None? {
        return Failure(ParentIsFile);
      }
      disk := made.value;
      var temp: Bytes := [];
      var sizeBytes := 0;
      while sizeBytes < |stream|
        invariant sizeBytes <= |stream| && temp == stream[..sizeBytes]
      {
        var end := if sizeBytes + chunkSize < |stream| then sizeBytes + chunkSize else |stream|;
        temp := temp + stream[sizeBytes..end];
        sizeBytes := end;
      }
      assert temp == stream;
      var written := WriteFile(disk, finalPath.value, temp);
      if written.None? {
        return Failure(StoreFailed);
      }
      disk := written.value;
      return Success(Stored(relativePath, sizeBytes, SanitizeFilename(filename)));
    }

    method OpenRead(storagePath: string) returns (r: Result<Bytes, StoreError>)
      ensures var path := ResolveStoragePath(root, storagePath);
              r == (if path.Failure? then Failure(path.error)
                    else if path.value in disk.files then Success(disk.files[path.value])
                    else Failure(NotFound))
    {
      var path := ResolveStoragePath(root, storagePath);
      if path.Failure? {
        return Failure(path.error);
      }
      if path.value !in disk.files {
        return Failure(NotFound);
      }
      return Success(disk.files[path.value]);
    }
  }

  lemma LocatedIs(domain: string, kbIndex: string, date: string, taskId: string, filename: string)
    requires domain != "" && date != "" && taskId != "" && filename != ""
    ensures Located(domain, kbIndex, date, taskId, filename)
         == (if kbIndex == "" then [domain] else [domain, kbIndex]) + [date, taskId, filename]
  {
    var tail := [date, taskId, filename];
    assert tail[1..] == [taskId, filename] && [taskId, filename][1..] == [filename] && [filename][1..] == [];
    assert Present([filename]) == [filename] && Present([taskId, filename]) == [taskId, filename];
    assert Present(tail) == tail;
    var all := [domain, kbIndex, date, taskId, filename];
    assert all[1..] == [kbIndex] + tail && ([kbIndex] + tail)[1..] == tail;
    assert Present(all[1..]) == (if kbIndex == "" then [] else [kbIndex]) + tail;
    assert Present(all) == [domain] + ((if kbIndex == "" then [] else [kbIndex]) + tail);
  }

  /** The elements of a relative path, in order: absent ones are left out. */
  lemma StoragePartsAre(domain: string, kbIndex: string, date: string, taskId: string, filename: string)
    requires IsDate(date) && IsSegment(domain) && IsSegment(kbIndex)
    ensures StorageParts(domain, kbIndex, date, taskId, filename)
         == [domain, kbIndex, date, if taskId == "" then "default" else SanitizeSegment(taskId, "default"), SanitizeFilename(filename)]
    ensures StorageParts("", "", date, taskId, filename)
         == [date, if taskId == "" then "default" else SanitizeSegment(taskId, "default"), SanitizeFilename(filename)]
  {
    SegmentShape(domain, "");
    SegmentShape(kbIndex, "");
    FilenameShape(filename);
    TaskSegment(taskId);
    TaskIs(taskId);
    hide SanitizeSegment, SanitizeFilename, OrDefault;
    var tail := [date, OrDefault(taskId), SanitizeFilename(filename)];
    LocatedIs(domain, kbIndex, date, OrDefault(taskId), SanitizeFilename(filename));
    assert ["", "", date, OrDefault(taskId), SanitizeFilename(filename)][1..][1..] == tail;
    LocatedIs(domain, "", date, OrDefault(taskId), SanitizeFilename(filename));
    assert [domain, "", date, OrDefault(taskId), SanitizeFilename(filename)][1..] == [""] + tail;
    assert ["", "", date, OrDefault(taskId), SanitizeFilename(filename)][1..] == [""] + tail && ([""] + tail)[1..] == tail;
    assert [domain] + Present([""] + tail) == [domain] + tail;
    assert (([domain] + Present([""] + tail)))[1..] == ([domain] + tail)[1..] == tail;
  }

  lemma TaskIs(taskId: string)
    ensures OrDefault(taskId) == if taskId == "" then "default" else SanitizeSegment(taskId, "default")
  {
    FallbacksAreSegments();
    SegmentShape("default", "default");
  }

  /** The domain's directory of the local gateway. */
  function LocalDomain(domain: string): string {
    if domain == "" then "UNKNOWN" else SanitizeSegment(domain, "UNKNOWN")
  }

  /** How many elements the gateway's own paths have below the root. */
  function Depth(kbIndex: string): nat {
    if kbIndex == "" then 4 else 5
  }

  lemma LocalPartsAre(domain: string, kbIndex: string, date: string, taskId: string, filename: string)
    requires IsDate(date)
    ensures LocalParts(domain, kbIndex, date, taskId, filename)
         == (if kbIndex == "" then [LocalDomain(domain)] else [LocalDomain(domain), SanitizeSegment(kbIndex, "default")])
            + [date, OrDefault(taskId), SanitizeFilename(filename)]
    ensures LocalDomain(domain) == if domain == "" then "UNKNOWN" else SanitizeSegment(domain, "UNKNOWN")
    ensures OrDefault(taskId) == if taskId == "" then "default" else SanitizeSegment(taskId, "default")
    ensures |LocalParts(domain, kbIndex, date, taskId, filename)| == Depth(kbIndex)
  {
    FallbacksAreSegments();
    SegmentShape(domain, "UNKNOWN");
    SegmentShape(kbIndex, "default");
    FilenameShape(filename);
    TaskSegment(taskId);
    TaskIs(taskId);
    hide SanitizeSegment, SanitizeFilename, Located, OrDefault;
    LocatedIs(LocalDomain(domain), if kbIndex == "" then "" else SanitizeSegment(kbIndex, "default"),
              date, OrDefault(taskId), SanitizeFilename(filename));
  }

  lemma LocalEnds(domain: string, kbIndex: string, date: string, taskId: string, filename: string)
    requires IsDate(date)
    ensures var r := LocalParts(domain, kbIndex, date, taskId, filename);
            |r| >= 3 && r[|r| - 3] == date && r[|r| - 1] == SanitizeFilename(filename)
  {
    hide SanitizeSegment, SanitizeFilename, LocalParts, OrDefault, LocalDomain;
    LocalPartsAre(domain, kbIndex, date, taskId, filename);
  }

  lemma EndsOf(a: seq<string>, p: seq<string>, q: seq<string>)
    requires |p| >= 3 && |q| >= 3 && a + p == a + q
    ensures p[|p| - 3] == q[|q| - 3] && p[|p| - 1] == q[|q| - 1]
  {
    assert p == (a + p)[|a|..] == (a + q)[|a|..] == q;
  }

  /** Two files of one task land on one path exactly when they are stored on one day and their sanitised names are equal. */
  lemma SamePathIff(root: Path, domain: string, kbIndex: string, taskId: string, date: string, a: string, day: string, b: string)
    requires IsDate(date) && IsDate(day)
    ensures ResolveStoragePath(root, LocalPath(domain, kbIndex, date, taskId, a))
            == ResolveStoragePath(root, LocalPath(domain, kbIndex, day, taskId, b))
            <==> date == day && SanitizeFilename(a) == SanitizeFilename(b)
  {
    hide SanitizeFilename, SanitizeSegment, ResolveStoragePath, LocalPath, Located;
    var p, q := LocalParts(domain, kbIndex, date, taskId, a), LocalParts(domain, kbIndex, day, taskId, b);
    OwnPathResolves(root, domain, kbIndex, date, taskId, a);
    OwnPathResolves(root, domain, kbIndex, day, taskId, b);
    LocalEnds(domain, kbIndex, date, taskId, a);
    LocalEnds(domain, kbIndex, day, taskId, b);
    if root.parts + p == root.parts + q { EndsOf(root.parts, p, q); }
  }

  // ---------------------------------------------------------------- files in the way

  /** A store goes through exactly when no file is in the place of a directory it needs and no directory in its own. */
  lemma PlacedIff(d: Disk, target: Path, content: Bytes)
    ensures var (d', e) := Placed(d, target, content);
            && (e == Some(ParentIsFile) <==> exists q <- Ancestors(Parent(target)) :: q in d.files)
            && (e.None? <==> target.parts != [] && (forall q <- Ancestors(Parent(target)) :: q !in d.files) && target !in d.dirs)
            && d'.files == (if e.None? then d.files[target := content] else d.files)
            && d.dirs <= d'.dirs <= d.dirs + Ancestors(Parent(target))
  {
    assert target.parts != [] ==> target !in Ancestors(Parent(target));
  }

  /** Below the root every file is at one depth and every directory above it. */
  ghost predicate Level(root: Path, d: Disk, depth: nat) {
    && (forall q <- Ancestors(root) :: q !in d.files)
    && (forall q <- d.files :: Under(root, q) ==> |q.parts| == |root.parts| + depth)
    && (forall q <- d.dirs :: Under(root, q) ==> |q.parts| < |root.parts| + depth)
  }

  lemma FreshIsLevel(root: Path, depth: nat)
    requires depth > 0
    ensures Level(root, Disk(map[], Ancestors(root)), depth)
  {
  }

  /**
   Among files that are all stored with a kb_index, or all without one, no store ever finds a file or
   a directory in its way.
   */
  lemma StoresStayLevel(root: Path, d: Disk, domain: string, kbIndex: string, date: string, taskId: string, filename: string, content: Bytes)
    requires IsDate(date) && Level(root, d, Depth(kbIndex))
    ensures var target := ResolveStoragePath(root, LocalPath(domain, kbIndex, date, taskId, filename));
            target.Success? && var (d', e) := Placed(d, target.value, content);
            e.None? && Level(root, d', Depth(kbIndex))
  {
    OwnPathResolves(root, domain, kbIndex, date, taskId, filename);
    LocalPartsAre(domain, kbIndex, date, taskId, filename);
    hide ResolveStoragePath, LocalPath, LocalParts, Placed, SanitizeSegment, SanitizeFilename, OrDefault, LocalDomain;
    var parts := LocalParts(domain, kbIndex, date, taskId, filename);
    var target := Path(root.rooted, root.parts + parts);
    PlacedIff(d, target, content);
    forall q <- Ancestors(Parent(target))
      ensures |q.parts| < |target.parts| && (Under(root, q) || q in Ancestors(root))
    {
      AboveTarget(root, parts, q);
    }
    assert Under(root, target) && target !in Ancestors(root);
  }

  lemma AboveTarget(root: Path, parts: seq<string>, q: Path)
    requires parts != [] && q in Ancestors(Parent(Path(root.rooted, root.parts + parts)))
    ensures |q.parts| < |root.parts| + |parts| && (Under(root, q) || q in Ancestors(root))
  {
    var all := root.parts + parts;
    var above := all[..|all| - 1];
    assert Parent(Path(root.rooted, all)) == Path(root.rooted, above);
    var n :| 0 < n <= |above| && q == Path(root.rooted, above[..n]);
    assert above[..n] == all[..n];
    if n <= |root.parts| {
      assert all[..n] == root.parts[..n];
    } else {
      assert all[..n][..|root.parts|] == root.parts;
    }
  }

  lemma SegmentStays(s: string)
    requires IsSegment(s)
    ensures s != "" && SanitizeSegment(s, "default") == s && OrDefault(s) == s
  {
    SegmentShape(s, "default");
  }

  lemma MixedScopes(domain: string, day: string, date: string, name: string, other: string)
    requires IsDate(day) && IsDate(date) && IsSegment(name) && SanitizeFilename(name) == name
    ensures LocalParts(domain, day, date, name, other) == LocalParts(domain, "", day, date, name) + [SanitizeFilename(other)]
  {
    hide *;
    DateIsSegment(day);
    DateIsSegment(date);
    SegmentStays(day);
    SegmentStays(date);
    SegmentStays(name);
    LocalPartsAre(domain, "", day, date, name);
    LocalPartsAre(domain, day, date, name, other);
    assert [LocalDomain(domain), day] + [date, name, SanitizeFilename(other)]
        == ([LocalDomain(domain)] + [day, date, name]) + [SanitizeFilename(other)];
  }

  lemma FileInTheWay(root: Path, d: Disk, parts: seq<string>, last: string, content: Bytes)
    requires parts != [] && Path(root.rooted, root.parts + parts) in d.files
    ensures Placed(d, Path(root.rooted, root.parts + (parts + [last])), content).1 == Some(ParentIsFile)
  {
    var all := root.parts + parts;
    var target := Path(root.rooted, root.parts + (parts + [last]));
    assert target.parts == all + [last] && (all + [last])[..|all|] == all == all[..|all|];
    assert Parent(target) == Path(root.rooted, all) && Path(root.rooted, all) in Ancestors(Path(root.rooted, all));
  }

  /**
   With and without a kb_index mixed, a file can take the place of a directory: a file stored without
   one, for a task called like a day, stands in the way of that day's files of a task called like the file.
   */
  lemma MixedScopesClash(root: Path, d: Disk, domain: string, day: string, date: string, name: string, other: string, content: Bytes)
    requires IsDate(day) && IsDate(date) && IsSegment(name) && SanitizeFilename(name) == name
    requires Path(root.rooted, root.parts + LocalParts(domain, "", day, date, name)) in d.files
    ensures Placed(d, Path(root.rooted, root.parts + LocalParts(domain, day, date, name, other)), content).1 == Some(ParentIsFile)
  {
    hide *;
    MixedScopes(domain, day, date, name, other);
    var first := LocalParts(domain, "", day, date, name);
    assert first != [] by { LocalPartsAre(domain, "", day, date, name); DepthPositive(""); }
    FileInTheWay(root, d, first, SanitizeFilename(other), content);
  }

  lemma DepthPositive(kbIndex: string)
    ensures Depth(kbIndex) > 0
  {
  }
}
