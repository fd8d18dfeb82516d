/** Skill packages: packing a directory, validating the entries of an archive, installing them. */
module SkillPackage {
  import opened Wrappers
  import opened Paths
  import opened FileTree

  /** A zip entry, as its header tells it. */
  datatype Entry = Entry(name: string, dirBit: bool, symlink: bool, content: Bytes)

  /** `FileInfo().IsDir()`: the mode says so, or the name ends with a slash. */
  predicate IsDir(e: Entry) {
    e.dirBit || (e.name != "" && e.name[|e.name| - 1] == '/')
  }

  datatype PackageError =
    | UnsafePath | NotUnderTopDir | SymlinkEntry | NotOneTopDir | NoManifest | CannotCreate | CannotWrite | SymlinkInTree

  // ---------------------------------------------------------------- validating

  function TrimSlash(s: string): string {
    if s != "" && s[|s| - 1] == '/' then s[..|s| - 1] else s
  }

  /** The cleaned elements of an entry's name; an empty name is skipped everywhere. */
  function EntryParts(e: Entry): seq<string> {
    Clean(TrimSlash(e.name)).parts
  }

  predicate Skipped(e: Entry) {
    TrimSlash(e.name) == ""
  }

  /** "." is one element to `strings.Split`. */
  function TopOf(e: Entry): string {
    if EntryParts(e) == [] then "." else EntryParts(e)[0]
  }

  function EntryError(e: Entry): Option<PackageError> {
    if IsRooted(e.name) then Some(UnsafePath)
    else if Skipped(e) then None
    else
      var parts := EntryParts(e);
      if parts != [] && parts[0] == ".." then Some(UnsafePath)
      else if |parts| < 2 then (if IsDir(e) then None else Some(NotUnderTopDir))
      else if e.symlink then Some(SymlinkEntry)
      else None
  }

  predicate IsManifest(e: Entry) {
    !Skipped(e) && |EntryParts(e)| == 2 && EntryParts(e)[1] == "SKILL.md" && !IsDir(e)
  }

  ghost function TopDirs(files: seq<Entry>): set<string> {
    set e | e in files && !Skipped(e) :: TopOf(e)
  }

  ghost predicate HasManifest(files: seq<Entry>) {
    exists e <- files :: IsManifest(e)
  }

  ghost function FirstError(files: seq<Entry>): Option<PackageError> {
    if files == [] then None
    else if EntryError(files[0]).Some? then EntryError(files[0])
    else FirstError(files[1..])
  }

  ghost predicate Accepted(files: seq<Entry>, topDir: string) {
    && (forall e <- files :: EntryError(e).None?)
    && TopDirs(files) == {topDir}
    && HasManifest(files)
  }

  method ValidateSkillPackageEntries(files: seq<Entry>) returns (r: Result<string, PackageError>)
    ensures r.Success? ==> Accepted(files, r.value)
    ensures r.Failure? ==>
              if FirstError(files).Some? then r.error == FirstError(files).value
              else if |TopDirs(files)| != 1 then r.error == NotOneTopDir
              else !HasManifest(files) && r.error == NoManifest
  {
    var topDirs: set<string> := {};
    var hasManifest := false;
    for n := 0 to |files|
      invariant forall e <- files[..n] :: EntryError(e).None?
      invariant FirstError(files) == FirstError(files[n..])
      invariant topDirs == TopDirs(files[..n])
      invariant hasManifest <==> HasManifest(files[..n])
    {
      var file := files[n];
      assert files[n..][1..] == files[n + 1..];
      assert files[..n + 1] == files[..n] + [file];
      TopDirsAppend(files[..n], file);
      if IsRooted(file.name) {
        return Failure(UnsafePath);
      }
      if Skipped(file) {
        continue;
      }
      var parts := EntryParts(file);
      if parts != [] && parts[0] == ".." {
        return Failure(UnsafePath);
      }
      if |parts| < 2 {
        if IsDir(file) {
          topDirs := topDirs + {TopOf(file)};
          continue;
        }
        return Failure(NotUnderTopDir);
      }
      topDirs := topDirs + {parts[0]};
      if |parts| == 2 && parts[1] == "SKILL.md" && !IsDir(file) {
        hasManifest := true;
      }
      if file.symlink {
        return Failure(SymlinkEntry);
      }
    }
    assert files[..|files|] == files && FirstError(files[|files|..]).None?;
    if |topDirs| != 1 {
      return Failure(NotOneTopDir);
    }
    var topDir :| topDir in topDirs;
    SoleMember(topDirs, topDir);
    if !hasManifest {
      return Failure(NoManifest);
    }
    return Success(topDir);
  }

  lemma TopDirsAppend(files: seq<Entry>, e: Entry)
    ensures TopDirs(files + [e]) == TopDirs(files) + (if Skipped(e) then {} else {TopOf(e)})
    ensures HasManifest(files + [e]) <==> HasManifest(files) || IsManifest(e)
  {
    if HasManifest(files) {
      var m :| m in files && IsManifest(m);
      assert m in files + [e];
    }
    if IsManifest(e) {
      assert e in files + [e];
    }
  }

  lemma SoleMember<T>(s: set<T>, x: T)
    requires |s| == 1 && x in s
    ensures s == {x}
  {
    assert |s - {x}| == 0;
    assert s == {x} + (s - {x});
  }

  // ---------------------------------------------------------------- what acceptance guarantees

  lemma EntryPartsClean(e: Entry)
    requires !IsRooted(e.name)
    ensures IsClean(false, EntryParts(e))
    ensures !Clean(TrimSlash(e.name)).rooted
  {
    SplitHasNoSlash(TrimSlash(e.name));
    CleanIsClean(false, [], Split(TrimSlash(e.name)));
  }

  lemma AcceptedEntry(files: seq<Entry>, topDir: string, e: Entry)
    requires Accepted(files, topDir) && e in files && !Skipped(e)
    ensures AllProper(EntryParts(e)) && TopOf(e) == topDir
  {
    EntryPartsClean(e);
    assert EntryError(e).None?;
    assert TopOf(e) in TopDirs(files);
    var parts := EntryParts(e);
    forall p <- parts ensures Proper(p) {
      var i :| 0 <= i < |parts| && parts[i] == p;
      CleanWithoutDotDot(false, parts, i);
    }
  }

  /** The top directory of an accepted package is a proper name, and every entry is it or lies below it. */
  lemma AcceptedTopDir(files: seq<Entry>, topDir: string)
    requires Accepted(files, topDir)
    ensures Proper(topDir)
    ensures forall e | e in files && !Skipped(e) :: AllProper(EntryParts(e)) && EntryParts(e) != [] && EntryParts(e)[0] == topDir
  {
    var m :| m in files && IsManifest(m);
    AcceptedEntry(files, topDir, m);
    assert EntryParts(m)[0] in EntryParts(m);
    forall e | e in files && !Skipped(e)
      ensures AllProper(EntryParts(e)) && EntryParts(e) != [] && EntryParts(e)[0] == topDir
    {
      AcceptedEntry(files, topDir, e);
      assert topDir != ".";
    }
  }

  /** An entry of a package with that top directory, said without the order in which it is checked. */
  ghost predicate FitsUnder(e: Entry, topDir: string) {
    var name := if e.name != "" && e.name[|e.name| - 1] == '/' then e.name[..|e.name| - 1] else e.name;
    var parts := Clean(name).parts;
    && (e.name != "" ==> e.name[0] != '/')
    && (name != "" ==>
          && parts != [] && parts[0] == topDir
          && (|parts| == 1 ==> e.dirBit || name != e.name)
          && (|parts| > 1 ==> !e.symlink))
  }

  /** What is wrong with an entry, where something is. */
  lemma EntryFaults(e: Entry)
    ensures e.name != "" && e.name[0] == '/' ==> EntryError(e) == Some(UnsafePath)
    ensures !IsRooted(e.name) && EntryParts(e) != [] && EntryParts(e)[0] == ".." ==> EntryError(e) == Some(UnsafePath)
    ensures !IsRooted(e.name) && !Skipped(e) && |EntryParts(e)| == 1 && EntryParts(e)[0] != ".." ==>
              EntryError(e) == if e.dirBit || e.name[|e.name| - 1] == '/' then None else Some(NotUnderTopDir)
    ensures !IsRooted(e.name) && |EntryParts(e)| > 1 && EntryParts(e)[0] != ".." ==>
              EntryError(e) == if e.symlink then Some(SymlinkEntry) else None
  {
    if Skipped(e) { NamelessHasNoParts(e); }
  }

  lemma NamelessHasNoParts(e: Entry)
    requires Skipped(e)
    ensures EntryParts(e) == []
  {
    assert Split("") == [""];
  }

  /**
   A package is accepted exactly when its entries, the nameless ones aside, are one directory with a
   proper name or lie below it without being links, and a SKILL.md is right below it.
   */
  lemma AcceptedIff(files: seq<Entry>, topDir: string)
    ensures Accepted(files, topDir)
            <==> && Proper(topDir)
                 && (forall e <- files :: FitsUnder(e, topDir))
                 && (exists m <- files :: IsSkillMd(m, topDir))
  {
    if Accepted(files, topDir) {
      AcceptedTopDir(files, topDir);
      forall e <- files ensures FitsUnder(e, topDir) {
        assert EntryError(e).None?;
        if !Skipped(e) { AcceptedEntry(files, topDir, e); }
      }
      var m :| m in files && IsManifest(m);
      AcceptedEntry(files, topDir, m);
      assert IsSkillMd(m, topDir);
    }
    if Proper(topDir) && forall e <- files :: FitsUnder(e, topDir) {
      if m :| m in files && IsSkillMd(m, topDir) {
        FittingIsAccepted(files, topDir, m);
      }
    }
  }

  lemma FittingHasNoError(e: Entry, topDir: string)
    requires Proper(topDir) && FitsUnder(e, topDir)
    ensures EntryError(e).None? && (!Skipped(e) ==> TopOf(e) == topDir)
  {
    hide CleanOnto, Split;
  }

  ghost predicate IsSkillMd(m: Entry, topDir: string) {
    m.name != "" && Clean(m.name).parts == [topDir, "SKILL.md"] && !m.dirBit && m.name[|m.name| - 1] != '/'
  }

  lemma SkillMdIsManifest(m: Entry, topDir: string)
    requires IsSkillMd(m, topDir)
    ensures IsManifest(m) && TopOf(m) == topDir && !Skipped(m)
  {
    hide CleanOnto, Split;
  }

  lemma FittingIsAccepted(files: seq<Entry>, topDir: string, m: Entry)
    requires Proper(topDir) && forall e <- files :: FitsUnder(e, topDir)
    requires m in files && IsSkillMd(m, topDir)
    ensures Accepted(files, topDir)
  {
    hide EntryError, FitsUnder, Skipped, TopOf, IsManifest, IsSkillMd, Proper;
    forall e <- files ensures EntryError(e).None? && (!Skipped(e) ==> TopOf(e) == topDir) {
      FittingHasNoError(e, topDir);
    }
    SkillMdIsManifest(m, topDir);
    assert TopOf(m) in TopDirs(files);
  }

  /** Where an entry goes. */
  function Target(destRoot: Path, e: Entry): Path {
    Join(destRoot, EntryParts(e))
  }

  /** Every target of an accepted package is at or below destRoot/topDir, so the later check never fires. */
  lemma TargetsStayInside(files: seq<Entry>, topDir: string, outputDir: string, e: Entry)
    requires Accepted(files, topDir) && e in files && !Skipped(e)
    ensures var destRoot := Clean(outputDir);
            && Target(destRoot, e) == Path(destRoot.rooted, destRoot.parts + EntryParts(e))
            && Under(Join(destRoot, [topDir]), Target(destRoot, e))
            && IsWithinDirectory(destRoot, Target(destRoot, e))
  {
    var destRoot := Clean(outputDir);
    AcceptedTopDir(files, topDir);
    CleanKeepsProper(destRoot.rooted, destRoot.parts, EntryParts(e));
    CleanKeepsProper(destRoot.rooted, destRoot.parts, [topDir]);
    var target := Target(destRoot, e);
    assert target.parts == destRoot.parts + EntryParts(e);
    assert target.parts[..|destRoot.parts| + 1] == destRoot.parts + [topDir];
    CommonPrefixOf(destRoot.parts, target.parts);
    assert target.parts[|destRoot.parts|..] == EntryParts(e);
    assert seq(0, _ => "..") + EntryParts(e) == EntryParts(e);
  }

  // ---------------------------------------------------------------- the file system

  /** One entry of the install loop: the disk it leaves, and whether it went through. */
  ghost function InstallEntry(d: Disk, destRoot: Path, e: Entry): (Disk, Option<PackageError>) {
    if Skipped(e) then (d, None)
    else
      var target := Target(destRoot, e);
      if !IsWithinDirectory(destRoot, target) then (d, Some(UnsafePath))
      else
        var made := MkdirAll(d, if IsDir(e) then target else Parent(target));
        if made.None? then (d, Some(CannotCreate))
        else if IsDir(e) then (made.value, None)
        else
          var written := WriteFile(made.value, target, e.content);
          if written.None? then (made.value, Some(CannotWrite)) else (written.value, None)
  }

  ghost function InstallAll(d: Disk, destRoot: Path, files: seq<Entry>): (Disk, Option<PackageError>)
    decreases |files|
  {
    if files == [] then (d, None)
    else
      var (d', e) := InstallEntry(d, destRoot, files[0]);
      if e.Some? then (d', e) else InstallAll(d', destRoot, files[1..])
  }

  /** Installing one entry: its directories are made, and its file is written unless something is in the way. */
  lemma EntryInstalled(d: Disk, destRoot: Path, e: Entry)
    requires !Skipped(e) && IsWithinDirectory(destRoot, Target(destRoot, e))
    ensures var target := Target(destRoot, e);
            var isDir := e.dirBit || e.name[|e.name| - 1] == '/';
            var needed := if isDir then Ancestors(target) else Ancestors(Parent(target));
            var (d', failed) := InstallEntry(d, destRoot, e);
            if exists q <- needed :: q in d.files then d' == d && failed == Some(CannotCreate)
            else
              && d'.dirs == d.dirs + needed
              && if isDir then d'.files == d.files && failed.None?
                 else if target in d'.dirs || target.parts == [] then d'.files == d.files && failed == Some(CannotWrite)
                 else d'.files == d.files[target := e.content] && failed.None?
  {
    hide Target, IsWithinDirectory, Ancestors, Parent;
  }

  class FileSystem {
    var disk: Disk

    method CreateDirs(p: Path) returns (ok: bool)
      modifies this
      ensures ok <==> MkdirAll(old(disk), p).Some?
      ensures disk == if ok then MkdirAll(old(disk), p).value else old(disk)
    {
      var made := MkdirAll(disk, p);
      if made.Some? { disk := made.value; }
      ok := made.Some?;
    }

    method Write(p: Path, content: Bytes) returns (ok: bool)
      modifies this
      ensures ok <==> WriteFile(old(disk), p, content).Some?
      ensures disk == if ok then WriteFile(old(disk), p, content).value else old(disk)
    {
      var written := WriteFile(disk, p, content);
      if written.Some? { disk := written.value; }
      ok := written.Some?;
    }
  }

  method InstallSkillPackage(fs: FileSystem, files: seq<Entry>, outputDir: string) returns (r: Result<Path, PackageError>)
    modifies fs
    ensures (exists topDir :: Accepted(files, topDir)) || (r.Failure? && fs.disk == old(fs.disk))
    ensures forall topDir | Accepted(files, topDir) ::
              var (d, e) := InstallAll(old(fs.disk), Clean(outputDir), files);
              fs.disk == d && r == if e.Some? then Failure(e.value) else Success(Join(Clean(outputDir), [topDir]))
  {
    var validated := ValidateSkillPackageEntries(files);
    if validated.Failure? {
      forall topDir ensures !Accepted(files, topDir) {
        if Accepted(files, topDir) { AcceptedHasNoError(files); }
      }
      return Failure(validated.error);
    }
    hide InstallEntry;
    var topDir := validated.value;
    var destRoot := Clean(outputDir);
    for n := 0 to |files|
      invariant InstallAll(old(fs.disk), destRoot, files) == InstallAll(fs.disk, destRoot, files[n..])
    {
      assert files[n..][0] == files[n] && files[n..][1..] == files[n + 1..];
      var failed := InstallOne(fs, destRoot, files[n]);
      if failed.Some? {
        return Failure(failed.value);
      }
    }
    return Success(Join(destRoot, [topDir]));
  }

  method InstallOne(fs: FileSystem, destRoot: Path, file: Entry) returns (failed: Option<PackageError>)
    modifies fs
    ensures (fs.disk, failed) == InstallEntry(old(fs.disk), destRoot, file)
  {
    if Skipped(file) {
      return None;
    }
    var target := Target(destRoot, file);
    if !IsWithinDirectory(destRoot, target) {
      return Some(UnsafePath);
    }
    if IsDir(file) {
      var ok := fs.CreateDirs(target);
      return if ok then None else Some(CannotCreate);
    }
    var ok := fs.CreateDirs(Parent(target));
    if !ok {
      return Some(CannotCreate);
    }
    ok := fs.Write(target, file.content);
    return if ok then None else Some(CannotWrite);
  }

  lemma AcceptedHasNoError(files: seq<Entry>)
    requires forall e <- files :: EntryError(e).None?
    ensures FirstError(files).None?
  {
  }

  // ---------------------------------------------------------------- nothing outside the package directory

  ghost predicate Inside(destRoot: Path, topDir: string, p: Path) {
    Under(Path(destRoot.rooted, destRoot.parts + [topDir]), p)
  }

  /** Every file that differs is inside destRoot/topDir, every new directory is inside it or above it. */
  ghost predicate Confined(d: Disk, d': Disk, destRoot: Path, topDir: string) {
    && (forall p | !Inside(destRoot, topDir, p) :: (p in d'.files <==> p in d.files) && (p in d.files ==> d'.files[p] == d.files[p]))
    && d.dirs <= d'.dirs
    && (forall p <- d'.dirs - d.dirs :: Inside(destRoot, topDir, p) || p in Ancestors(destRoot))
  }

  lemma AncestorsInside(destRoot: Path, topDir: string, target: Path)
    requires Inside(destRoot, topDir, target)
    ensures forall p <- Ancestors(target) :: Inside(destRoot, topDir, p) || p in Ancestors(destRoot)
    ensures forall p <- Ancestors(Parent(target)) :: Inside(destRoot, topDir, p) || p in Ancestors(destRoot)
  {
    var base := destRoot.parts + [topDir];
    forall p <- Ancestors(target) ensures Inside(destRoot, topDir, p) || p in Ancestors(destRoot) {
      var n :| 0 < n <= |target.parts| && p == Path(target.rooted, target.parts[..n]);
      if n < |base| {
        assert target.parts[..n] == destRoot.parts[..n];
      } else {
        assert target.parts[..n][..|base|] == base;
      }
    }
    forall p <- Ancestors(Parent(target)) ensures p in Ancestors(target) {
      var n :| 0 < n <= |Parent(target).parts| && p == Path(target.rooted, Parent(target).parts[..n]);
      assert p.parts == target.parts[..n];
    }
  }

  lemma EntryConfined(d: Disk, destRoot: Path, topDir: string, e: Entry)
    requires AllProper(EntryParts(e)) && (Skipped(e) || (EntryParts(e) != [] && EntryParts(e)[0] == topDir))
    ensures Confined(d, InstallEntry(d, destRoot, e).0, destRoot, topDir)
  {
    if !Skipped(e) {
      CleanKeepsProper(destRoot.rooted, destRoot.parts, EntryParts(e));
      var target := Target(destRoot, e);
      assert target.parts[..|destRoot.parts| + 1] == destRoot.parts + [topDir];
      AncestorsInside(destRoot, topDir, target);
    }
  }

  lemma {:induction false} AllConfined(d: Disk, destRoot: Path, topDir: string, files: seq<Entry>)
    requires forall e <- files :: AllProper(EntryParts(e)) && (Skipped(e) || (EntryParts(e) != [] && EntryParts(e)[0] == topDir))
    ensures Confined(d, InstallAll(d, destRoot, files).0, destRoot, topDir)
    decreases |files|
  {
    hide InstallEntry;
    if files != [] {
      EntryConfined(d, destRoot, topDir, files[0]);
      var (d', e) := InstallEntry(d, destRoot, files[0]);
      AllConfined(d', destRoot, topDir, files[1..]);
    }
  }

  /** Installing an accepted package, even where it fails half way, touches nothing outside destRoot/topDir. */
  lemma InstallIsConfined(d: Disk, outputDir: string, topDir: string, files: seq<Entry>)
    requires Accepted(files, topDir)
    ensures Confined(d, InstallAll(d, Clean(outputDir), files).0, Clean(outputDir), topDir)
  {
    AcceptedTopDir(files, topDir);
    forall e <- files ensures AllProper(EntryParts(e)) {
      if Skipped(e) {
        assert Split("") == [""];
        assert EntryParts(e) == [];
      }
    }
    AllConfined(d, Clean(outputDir), topDir, files);
  }

  // ---------------------------------------------------------------- packing

  /** What the directory walk meets: a directory, a link, or a regular file with its content. */
  datatype Found = Found(rel: seq<string>, isDir: bool, symlink: bool, content: Bytes)

  function PackedName(topDir: string, rel: seq<string>): string {
    Text(Join(Clean(topDir), rel))
  }

  function PackedEntry(topDir: string, f: Found): Entry {
    Entry(PackedName(topDir, f.rel), false, false, f.content)
  }

  /** What is packed for one entry of the walk. */
  ghost function PackedOne(topDir: string, f: Found): seq<Entry> {
    if f.isDir then [] else [PackedEntry(topDir, f)]
  }

  ghost function Packed(topDir: string, walk: seq<Found>): seq<Entry> {
    if walk == [] then []
    else PackedOne(topDir, walk[0]) + Packed(topDir, walk[1..])
  }

  ghost predicate HasLink(walk: seq<Found>) {
    exists f <- walk :: !f.isDir && f.symlink
  }

  method WriteSkillZip(walk: seq<Found>, topDir: string) returns (r: Result<seq<Entry>, PackageError>)
    requires forall f <- walk :: !f.isDir ==> f.rel != []
    ensures r == if HasLink(walk) then Failure(SymlinkInTree) else Success(Packed(topDir, walk))
  {
    var entries := [];
    for n := 0 to |walk|
      invariant !HasLink(walk[..n])
      invariant entries == Packed(topDir, walk[..n])
    {
      assert walk[..n + 1] == walk[..n] + [walk[n]];
      PackedAppend(topDir, walk[..n], walk[n]);
      if walk[n].isDir {
        continue;
      }
      if walk[n].symlink {
        assert walk[n] in walk;
        return Failure(SymlinkInTree);
      }
      entries := entries + [PackedEntry(topDir, walk[n])];
    }
    assert walk[..|walk|] == walk;
    return Success(entries);
  }

  lemma PackedFirst(topDir: string, walk: seq<Found>)
    ensures Packed(topDir, []) == []
    ensures walk != [] ==> Packed(topDir, walk) == PackedOne(topDir, walk[0]) + Packed(topDir, walk[1..])
  {
  }

  lemma {:induction false} PackedAppend(topDir: string, walk: seq<Found>, f: Found)
    ensures Packed(topDir, walk + [f]) == Packed(topDir, walk) + PackedOne(topDir, f)
  {
    hide *;
    PackedFirst(topDir, walk);
    PackedFirst(topDir, walk + [f]);
    if walk == [] {
      assert [] + [f] == [f] && [f][1..] == [];
      assert [] + PackedOne(topDir, f) == PackedOne(topDir, f) == PackedOne(topDir, f) + [];
    } else {
      assert (walk + [f])[1..] == walk[1..] + [f];
      PackedAppend(topDir, walk[1..], f);
      assert PackedOne(topDir, walk[0]) + (Packed(topDir, walk[1..]) + PackedOne(topDir, f))
          == (PackedOne(topDir, walk[0]) + Packed(topDir, walk[1..])) + PackedOne(topDir, f);
    }
  }

  // ---------------------------------------------------------------- the round trip

  /** A regular file of the tree: its elements below the packed directory, and its content. */
  datatype File = File(rel: seq<string>, content: Bytes)

  function AsFound(f: File): Found {
    Found(f.rel, false, false, f.content)
  }

  /** Distinct files with proper names, none of them on the way to another. */
  ghost predicate IsTree(files: seq<File>) {
    && (forall f <- files :: f.rel != [] && AllProper(f.rel))
    && (forall i, j | 0 <= i < |files| && 0 <= j < |files| && i != j :: !(files[i].rel <= files[j].rel))
  }

  /** The walk meets these files in this order; directories, the root of the walk first, come in anywhere. */
  ghost predicate Meets(walk: seq<Found>, files: seq<File>)
    decreases |walk|
  {
    if walk == [] then files == []
    else if walk[0].isDir then Meets(walk[1..], files)
    else files != [] && walk[0] == Found(files[0].rel, false, false, files[0].content) && Meets(walk[1..], files[1..])
  }

  /** Packing such a walk packs the files, and meets no link. */
  lemma {:induction false} PackedFiles(topDir: string, walk: seq<Found>, files: seq<File>)
    requires Meets(walk, files)
    ensures Packed(topDir, walk) == PackedSeq(topDir, files) && !HasLink(walk)
    decreases |walk|
  {
    hide PackedEntry;
    if walk != [] {
      assert walk == [walk[0]] + walk[1..];
      if walk[0].isDir {
        PackedFiles(topDir, walk[1..], files);
      } else {
        PackedFiles(topDir, walk[1..], files[1..]);
        assert PackedSeq(topDir, files) == [PackedEntry(topDir, walk[0])] + PackedSeq(topDir, files[1..]);
      }
    }
  }

  ghost function PackedSeq(base: string, files: seq<File>): seq<Entry> {
    seq(|files|, i requires 0 <= i < |files| => PackedEntry(base, AsFound(files[i])))
  }

  lemma ProperClean(name: string)
    requires Proper(name)
    ensures Clean(name) == Path(false, [name])
  {
    SplitJoin([name]);
    assert JoinSlash([name]) == name;
    CleanKeepsProper(false, [], [name]);
    assert [] + [name] == [name];
  }

  lemma {:induction false} JoinSlashEnds(parts: seq<string>)
    requires parts != [] && AllProper(parts)
    ensures var s := JoinSlash(parts); s != "" && s[0] != '/' && s[|s| - 1] != '/'
  {
    if |parts| > 1 {
      JoinSlashEnds(parts[1..]);
    }
    assert Proper(parts[0]);
    assert parts[0][0] in parts[0] && parts[0][|parts[0]| - 1] in parts[0];
  }

  /** The name of a packed file splits back into the base name and the file's own elements. */
  lemma PackedNameBack(base: string, rel: seq<string>, content: Bytes)
    requires Proper(base) && rel != [] && AllProper(rel)
    ensures var e := Entry(PackedName(base, rel), false, false, content);
            && EntryParts(e) == [base] + rel
            && !Skipped(e) && !IsDir(e) && !IsRooted(e.name)
  {
    ProperClean(base);
    CleanKeepsProper(false, [base], rel);
    var parts := [base] + rel;
    var e := Entry(PackedName(base, rel), false, false, content);
    assert e.name == JoinSlash(parts);
    assert forall p <- parts :: Proper(p);
    JoinSlashEnds(parts);
    SplitJoin(parts);
    CleanKeepsProper(false, [], parts);
    assert [] + parts == parts;
  }

  ghost predicate HasSkillMd(files: seq<File>) {
    exists f <- files :: f.rel == ["SKILL.md"]
  }

  /** For a proper base name the packed tree passes validation, with the base name as its top directory. */
  lemma PackedIsAccepted(base: string, files: seq<File>)
    requires Proper(base) && IsTree(files) && HasSkillMd(files)
    ensures Accepted(PackedSeq(base, files), base)
  {
    hide PackedName, EntryParts, Skipped, IsDir;
    var entries := PackedSeq(base, files);
    forall e <- entries ensures EntryError(e).None? && !Skipped(e) && TopOf(e) == base {
      var i :| 0 <= i < |entries| && entries[i] == e;
      PackedNameBack(base, files[i].rel, files[i].content);
    }
    var m :| m in files && m.rel == ["SKILL.md"];
    var i :| 0 <= i < |files| && files[i] == m;
    PackedNameBack(base, m.rel, m.content);
    assert entries[i] in entries && IsManifest(entries[i]);
    assert TopOf(entries[i]) in TopDirs(entries);
  }

  /** Of the base names a directory can have, exactly the proper ones give packages that pass validation. */
  lemma PackedIsAcceptedIff(base: string, walk: seq<Found>, files: seq<File>)
    requires Proper(base) || base in {".", "..", "/"}
    requires Meets(walk, files) && IsTree(files) && HasSkillMd(files)
    ensures (exists topDir :: Accepted(Packed(base, walk), topDir)) <==> Proper(base)
  {
    PackedFiles(base, walk, files);
    if Proper(base) {
      PackedIsAccepted(base, files);
    } else {
      var entries := PackedSeq(base, files);
      var m :| m in files && m.rel == ["SKILL.md"];
      var i :| 0 <= i < |files| && files[i] == m;
      ImproperManifest(base, m.content);
      assert entries[i] in entries && EntryError(entries[i]).Some?;
    }
  }

  lemma ImproperManifest(base: string, content: Bytes)
    requires base in {".", "..", "/"}
    ensures EntryError(Entry(PackedName(base, ["SKILL.md"]), false, false, content)).Some?
  {
    hide *;
    if base == "/" {
      RootManifest(content);
    } else if base == ".." {
      ParentManifest(content);
    } else {
      DotManifest(content);
    }
  }

  lemma RootManifest(content: Bytes)
    ensures EntryError(Entry(PackedName("/", ["SKILL.md"]), false, false, content)).Some?
  {
    var name := "SKILL.md";
    assert Proper(name) && Split("/")[1..] == Split("");
    CleanKeepsProper(true, [], [name]);
    assert PackedName("/", [name]) == "/" + JoinSlash([] + [name]);
  }

  lemma ParentManifest(content: Bytes)
    ensures EntryError(Entry(PackedName("..", ["SKILL.md"]), false, false, content)).Some?
  {
    var name := "SKILL.md";
    assert Proper(name);
    var e := Entry(PackedName("..", [name]), false, false, content);
    SplitJoin([".."]);
    assert JoinSlash([".."]) == ".." && Split("..") == [".."];
    assert Clean("..").parts == [".."];
    CleanKeepsProper(false, [".."], [name]);
    SplitJoin(["..", name]);
    assert JoinSlash([".."] + [name]) == ".." + "/" + JoinSlash([name]);
    assert JoinSlash(["..", name]) == e.name;
    assert e.name[|e.name| - 1] == 'd';
    assert ["..", name][1..] == [name];
    assert CleanOnto(false, [], ["..", name]) == CleanOnto(false, [".."], ["..", name][1..]);
  }

  lemma DotManifest(content: Bytes)
    ensures EntryError(Entry(PackedName(".", ["SKILL.md"]), false, false, content)).Some?
  {
    var name := "SKILL.md";
    assert Proper(name);
    SplitJoin(["."]);
    assert JoinSlash(["."]) == "." && Clean(".").parts == [];
    CleanKeepsProper(false, [], [name]);
    assert PackedName(".", [name]) == name;
    ProperClean(name);
  }

  /** Where a file of the tree belongs: destRoot/base/rel. */
  function Home(destRoot: Path, base: string, f: File): Path {
    Path(destRoot.rooted, destRoot.parts + ([base] + f.rel))
  }

  /** No directory sits where the file goes, and no file where one of its directories goes. */
  ghost predicate Ready(d: Disk, p: Path) {
    p !in d.dirs && forall q <- Ancestors(Parent(p)) :: q !in d.files
  }

  /** Every file of the tree is at its home with its content, and every other path is as before. */
  ghost predicate Installed(d: Disk, d': Disk, destRoot: Path, base: string, files: seq<File>) {
    && (forall f <- files :: Home(destRoot, base, f) in d'.files && d'.files[Home(destRoot, base, f)] == f.content)
    && (forall p | (forall f <- files :: p != Home(destRoot, base, f)) ::
          (p in d'.files <==> p in d.files) && (p in d.files ==> d'.files[p] == d.files[p]))
  }

  lemma HomeIsWithin(destRoot: Path, base: string, f: File)
    requires Proper(base) && f.rel != [] && AllProper(f.rel)
    ensures IsWithinDirectory(destRoot, Home(destRoot, base, f))
  {
    var home := Home(destRoot, base, f);
    var parts := [base] + f.rel;
    CommonPrefixOf(destRoot.parts, home.parts);
    assert home.parts[|destRoot.parts|..] == parts;
    assert seq(0, _ => "..") + parts == parts;
  }

  lemma TargetIsHome(destRoot: Path, base: string, f: File)
    requires Proper(base) && f.rel != [] && AllProper(f.rel)
    ensures var e := PackedEntry(base, AsFound(f));
            && !Skipped(e) && !IsDir(e) && Target(destRoot, e) == Home(destRoot, base, f)
            && IsWithinDirectory(destRoot, Home(destRoot, base, f))
  {
    hide IsWithinDirectory, CleanOnto;
    PackedNameBack(base, f.rel, f.content);
    var parts := [base] + f.rel;
    assert forall p <- parts :: Proper(p);
    CleanKeepsProper(destRoot.rooted, destRoot.parts, parts);
    HomeIsWithin(destRoot, base, f);
  }

  lemma InstallOneFile(d: Disk, destRoot: Path, base: string, f: File)
    requires Proper(base) && f.rel != [] && AllProper(f.rel) && Ready(d, Home(destRoot, base, f))
    ensures var home := Home(destRoot, base, f);
            InstallEntry(d, destRoot, PackedEntry(base, AsFound(f)))
              == (Disk(d.files[home := f.content], d.dirs + Ancestors(Parent(home))), None)
  {
    TargetIsHome(destRoot, base, f);
    var home := Home(destRoot, base, f);
    hide Home, Target, IsWithinDirectory, IsDir, Skipped, PackedName;
    if home in Ancestors(Parent(home)) {
      AncestorIsPrefix(home, home);
    }
    hide Ancestors;
    assert MkdirAll(d, Parent(home)).Some?;
  }

  lemma AncestorIsPrefix(p: Path, q: Path)
    requires q in Ancestors(Parent(p))
    ensures q.rooted == p.rooted && q.parts <= p.parts && |q.parts| < |p.parts|
  {
    var n :| 0 < n <= |Parent(p).parts| && q == Path(p.rooted, Parent(p).parts[..n]);
    assert q.parts == p.parts[..n];
  }

  lemma HomesApart(destRoot: Path, base: string, f: File, g: File)
    requires Home(destRoot, base, f).parts <= Home(destRoot, base, g).parts
    ensures f.rel <= g.rel
  {
    var k := |destRoot.parts| + 1;
    var p, q := Home(destRoot, base, f).parts, Home(destRoot, base, g).parts;
    assert f.rel == p[k..] && g.rel == q[k..];
    assert p[k..] == q[..|p|][k..] == q[k..][..|f.rel|];
  }

  lemma StillReady(d: Disk, destRoot: Path, base: string, f: File, g: File)
    requires !(f.rel <= g.rel) && !(g.rel <= f.rel) && Ready(d, Home(destRoot, base, g))
    ensures var home := Home(destRoot, base, f);
            Ready(Disk(d.files[home := f.content], d.dirs + Ancestors(Parent(home))), Home(destRoot, base, g))
  {
    var hf, hg := Home(destRoot, base, f), Home(destRoot, base, g);
    if hg in Ancestors(Parent(hf)) {
      AncestorIsPrefix(hf, hg);
      HomesApart(destRoot, base, g, f);
    }
    if hf in Ancestors(Parent(hg)) {
      AncestorIsPrefix(hg, hf);
      HomesApart(destRoot, base, f, g);
    }
  }

  lemma {:induction false} InstallTree(d: Disk, destRoot: Path, base: string, files: seq<File>)
    requires Proper(base) && IsTree(files)
    requires forall f <- files :: Ready(d, Home(destRoot, base, f))
    ensures var (d', e) := InstallAll(d, destRoot, PackedSeq(base, files));
            e.None? && Installed(d, d', destRoot, base, files)
    decreases |files|
  {
    hide InstallEntry, Ready, PackedEntry;
    if files != [] {
      var f, rest := files[0], files[1..];
      var entries := PackedSeq(base, files);
      assert entries[0] == PackedEntry(base, AsFound(f)) && entries[1..] == PackedSeq(base, rest);
      InstallOneFile(d, destRoot, base, f);
      var home := Home(destRoot, base, f);
      var d1 := Disk(d.files[home := f.content], d.dirs + Ancestors(Parent(home)));
      forall g <- rest ensures Ready(d1, Home(destRoot, base, g)) && Home(destRoot, base, g) != home {
        OthersReady(d, destRoot, base, files, g);
      }
      InstallTree(d1, destRoot, base, rest);
      InstalledStep(d, d1, InstallAll(d1, destRoot, PackedSeq(base, rest)).0, destRoot, base, files);
    }
  }

  lemma OthersReady(d: Disk, destRoot: Path, base: string, files: seq<File>, g: File)
    requires IsTree(files) && files != [] && g in files[1..] && Ready(d, Home(destRoot, base, g))
    ensures var home := Home(destRoot, base, files[0]);
            && Ready(Disk(d.files[home := files[0].content], d.dirs + Ancestors(Parent(home))), Home(destRoot, base, g))
            && Home(destRoot, base, g) != home
  {
    var f := files[0];
    var j :| 0 <= j < |files[1..]| && files[1..][j] == g;
    assert files[j + 1] == g;
    StillReady(d, destRoot, base, f, g);
    if Home(destRoot, base, g) == Home(destRoot, base, f) { HomesApart(destRoot, base, f, g); }
  }

  lemma InstalledStep(d: Disk, d1: Disk, d': Disk, destRoot: Path, base: string, files: seq<File>)
    requires files != [] && Installed(d1, d', destRoot, base, files[1..])
    requires d1.files == d.files[Home(destRoot, base, files[0]) := files[0].content]
    requires forall g <- files[1..] :: Home(destRoot, base, g) != Home(destRoot, base, files[0])
    ensures Installed(d, d', destRoot, base, files)
  {
    hide Home;
    var home := Home(destRoot, base, files[0]);
    assert files == [files[0]] + files[1..];
    assert home in d'.files && d'.files[home] == files[0].content;
    forall f <- files ensures Home(destRoot, base, f) in d'.files && d'.files[Home(destRoot, base, f)] == f.content {
      assert f == files[0] || f in files[1..];
    }
    forall p | (forall f <- files :: p != Home(destRoot, base, f))
      ensures (p in d'.files <==> p in d.files) && (p in d.files ==> d'.files[p] == d.files[p])
    {
      assert files[0] in files;
      assert forall f <- files[1..] :: f in files;
    }
  }

  /**
   Packing what the walk of a tree with a SKILL.md meets, directories included, under a proper base
   name and installing the package, wherever nothing is in its way, puts every file at
   destRoot/base/rel with its content and changes no other file.
   */
  lemma PackInstallRoundTrip(base: string, walk: seq<Found>, files: seq<File>, d: Disk, outputDir: string)
    requires Meets(walk, files) && Proper(base) && IsTree(files) && HasSkillMd(files)
    requires forall f <- files :: Ready(d, Home(Clean(outputDir), base, f))
    ensures !HasLink(walk) && Accepted(Packed(base, walk), base)
    ensures var (d', e) := InstallAll(d, Clean(outputDir), Packed(base, walk));
            e.None? && Installed(d, d', Clean(outputDir), base, files)
  {
    PackedIsAccepted(base, files);
    PackedFiles(base, walk, files);
    InstallTree(d, Clean(outputDir), base, files);
  }
}
