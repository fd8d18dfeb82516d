/** Slash-separated paths: splitting, joining and Go's lexical `filepath.Clean`, `Join` and `Rel` on Unix. */
module Paths {
  import opened Wrappers

  /** `strings.Split(s, "/")`: never empty. */
  function Split(s: string): (r: seq<string>)
    ensures r != []
  {
    if s == "" then [""]
    else if s[0] == '/' then [""] + Split(s[1..])
    else
      var rest := Split(s[1..]);
      [[s[0]] + rest[0]] + rest[1..]
  }

  function JoinSlash(parts: seq<string>): string
    requires parts != []
  {
    if |parts| == 1 then parts[0] else parts[0] + "/" + JoinSlash(parts[1..])
  }

  lemma {:induction false} SplitPrefix(a: string, b: string)
    requires '/' !in a
    ensures Split(a + b) == [a + Split(b)[0]] + Split(b)[1..]
  {
    if a == "" {
      assert a + b == b && a + Split(b)[0] == Split(b)[0];
      assert Split(b) == [Split(b)[0]] + Split(b)[1..];
    } else {
      assert (a + b)[0] == a[0] && a[0] != '/' && (a + b)[1..] == a[1..] + b;
      SplitPrefix(a[1..], b);
      assert [a[0]] + (a[1..] + Split(b)[0]) == a + Split(b)[0];
    }
  }

  /** Splitting a joined path gives back its parts. */
  lemma {:induction false} SplitJoin(parts: seq<string>)
    requires parts != [] && forall p <- parts :: '/' !in p
    ensures Split(JoinSlash(parts)) == parts
  {
    if |parts| == 1 {
      SplitPrefix(parts[0], "");
      assert parts[0] + "" == parts[0];
    } else {
      SplitJoin(parts[1..]);
      var rest := JoinSlash(parts[1..]);
      assert parts[0] + "/" + rest == parts[0] + ("/" + rest);
      SplitPrefix(parts[0], "/" + rest);
      assert ("/" + rest)[1..] == rest && parts[0] + "" == parts[0];
      assert Split("/" + rest) == [""] + Split(rest);
      assert parts == [parts[0]] + parts[1..];
    }
  }

  lemma {:induction false} SplitHasNoSlash(s: string)
    ensures forall p <- Split(s) :: '/' !in p
  {
    if s != "" {
      SplitHasNoSlash(s[1..]);
    }
  }

  // ---------------------------------------------------------------- cleaning

  /** A name a directory entry can have. */
  predicate Proper(part: string) {
    part != "" && part != "." && part != ".." && '/' !in part
  }

  predicate AllProper(parts: seq<string>) {
    forall p <- parts :: Proper(p)
  }

  /** A cleaned path. */
  datatype Path = Path(rooted: bool, parts: seq<string>)

  /** Lexical processing of the elements, onto those already kept. */
  function CleanOnto(rooted: bool, kept: seq<string>, parts: seq<string>): seq<string>
    decreases |parts|
  {
    if parts == [] then kept
    else
      var p := parts[0];
      var next :=
        if p == "" || p == "." then kept
        else if p != ".." then kept + [p]
        else if kept != [] && kept[|kept| - 1] != ".." then kept[..|kept| - 1]
        else if rooted then kept
        else kept + [".."];
      CleanOnto(rooted, next, parts[1..])
  }

  predicate IsRooted(s: string) {
    s != "" && s[0] == '/'
  }

  function Clean(s: string): Path {
    Path(IsRooted(s), CleanOnto(IsRooted(s), [], Split(s)))
  }

  function Text(p: Path): string {
    if p.rooted then (if p.parts == [] then "/" else "/" + JoinSlash(p.parts))
    else if p.parts == [] then "." else JoinSlash(p.parts)
  }

  /** `filepath.Join` of a cleaned path and further elements. */
  function Join(base: Path, parts: seq<string>): Path {
    Path(base.rooted, CleanOnto(base.rooted, base.parts, parts))
  }

  /** Going up comes only first, and never from the root. */
  ghost predicate IsClean(rooted: bool, parts: seq<string>) {
    && (forall i | 0 <= i < |parts| :: parts[i] == ".." || Proper(parts[i]))
    && (forall i | 0 < i < |parts| :: parts[i] == ".." ==> parts[i - 1] == "..")
    && (rooted ==> parts == [] || parts[0] != "..")
  }

  lemma {:induction false} CleanIsClean(rooted: bool, kept: seq<string>, parts: seq<string>)
    requires IsClean(rooted, kept) && forall p <- parts :: '/' !in p
    ensures IsClean(rooted, CleanOnto(rooted, kept, parts))
    decreases |parts|
  {
    if parts != [] {
      var p := parts[0];
      var next :=
        if p == "" || p == "." then kept
        else if p != ".." then kept + [p]
        else if kept != [] && kept[|kept| - 1] != ".." then kept[..|kept| - 1]
        else if rooted then kept
        else kept + [".."];
      assert IsClean(rooted, next);
      CleanIsClean(rooted, next, parts[1..]);
    }
  }

  lemma {:induction false} CleanWithoutDotDot(rooted: bool, parts: seq<string>, i: nat)
    requires IsClean(rooted, parts) && parts != [] && parts[0] != ".." && i < |parts|
    ensures Proper(parts[i])
  {
    if i > 0 {
      CleanWithoutDotDot(rooted, parts, i - 1);
    }
  }

  /** Proper elements are kept as they are. */
  lemma {:induction false} CleanKeepsProper(rooted: bool, kept: seq<string>, parts: seq<string>)
    requires AllProper(parts)
    ensures CleanOnto(rooted, kept, parts) == kept + parts
    decreases |parts|
  {
    if parts == [] {
      assert kept + parts == kept;
    } else {
      assert Proper(parts[0]);
      CleanKeepsProper(rooted, kept + [parts[0]], parts[1..]);
      assert kept + [parts[0]] + parts[1..] == kept + parts;
    }
  }

  /** Cleaning goes element by element: "" and "." go, a name stays, and ".." takes back the name before it. */
  lemma CleanRules(rooted: bool, kept: seq<string>, name: string, rest: seq<string>)
    requires Proper(name)
    ensures CleanOnto(rooted, kept, [""] + rest) == CleanOnto(rooted, kept, ["."] + rest) == CleanOnto(rooted, kept, rest)
    ensures CleanOnto(rooted, kept, [name] + rest) == CleanOnto(rooted, kept + [name], rest)
    ensures CleanOnto(rooted, kept + [name], [".."] + rest) == CleanOnto(rooted, kept, rest)
    ensures CleanOnto(true, [], [".."] + rest) == CleanOnto(true, [], rest)
    ensures kept == [] || kept[|kept| - 1] == ".." ==> CleanOnto(false, kept, [".."] + rest) == CleanOnto(false, kept + [".."], rest)
  {
    assert ([""] + rest)[1..] == rest && (["."] + rest)[1..] == rest && ([name] + rest)[1..] == rest && ([".."] + rest)[1..] == rest;
    assert (kept + [name])[..|kept|] == kept;
  }

  /** What is before the last slash and what is behind it are split apart. */
  lemma {:induction false} SplitLast(dir: string, name: string)
    requires '/' !in name
    ensures Split(dir + "/" + name) == Split(dir) + [name]
  {
    if dir == "" {
      assert dir + "/" + name == "/" + name && ("/" + name)[1..] == name;
      SplitPrefix(name, "");
      assert name + "" == name;
    } else {
      assert dir + "/" + name == [dir[0]] + (dir[1..] + "/" + name);
      assert ([dir[0]] + (dir[1..] + "/" + name))[1..] == dir[1..] + "/" + name;
      SplitLast(dir[1..], name);
      var rest := Split(dir[1..]);
      assert (rest + [name])[0] == rest[0] && (rest + [name])[1..] == rest[1..] + [name];
    }
  }

  // ---------------------------------------------------------------- relative paths

  function CommonPrefix(a: seq<string>, b: seq<string>): (n: nat)
    ensures n <= |a| && n <= |b| && a[..n] == b[..n]
    ensures n < |a| && n < |b| ==> a[n] != b[n]
  {
    if a == [] || b == [] || a[0] != b[0] then 0
    else
      var n := CommonPrefix(a[1..], b[1..]);
      assert a[..n + 1] == [a[0]] + a[1..][..n] && b[..n + 1] == [b[0]] + b[1..][..n];
      n + 1
  }

  /** `filepath.Rel` of cleaned paths, as elements ("." is no element); None where it is an error. */
  function Rel(base: Path, target: Path): Option<seq<string>> {
    if base.rooted != target.rooted then None
    else
      var n := CommonPrefix(base.parts, target.parts);
      if n < |base.parts| && base.parts[n] == ".." then None
      else Some(seq(|base.parts| - n, _ => "..") + target.parts[n..])
  }

  predicate IsWithinDirectory(root: Path, path: Path) {
    var rel := Rel(root, path);
    rel.Some? && (rel.value == [] || rel.value[0] != "..")
  }

  /** `path` is `root` itself or below it. */
  predicate Under(root: Path, path: Path) {
    path.rooted == root.rooted && root.parts <= path.parts
  }

  lemma {:induction false} CommonPrefixOf(a: seq<string>, b: seq<string>)
    requires a <= b
    ensures CommonPrefix(a, b) == |a|
  {
    assert forall i | 0 <= i < |a| :: a[i] == b[i];
  }

  /** The lexical check is exact on cleaned paths: it holds just of the paths at or below the root. */
  lemma WithinIff(root: Path, path: Path)
    requires IsClean(root.rooted, root.parts) && IsClean(path.rooted, path.parts)
    ensures IsWithinDirectory(root, path)
            <==> Under(root, path) && (path.parts == root.parts || path.parts[|root.parts|] != "..")
  {
    var n := CommonPrefix(root.parts, path.parts);
    if Under(root, path) {
      CommonPrefixOf(root.parts, path.parts);
      assert seq(0, _ => "..") + path.parts[n..] == path.parts[n..];
    }
  }
}
