/** Where a model's snapshot and its download lock live, and when two names share one but not the other. */
module ModelPaths {

  function ReplaceSlashes(s: string): (r: string)
    ensures '/' !in r
    ensures '/' !in s ==> r == s
  {
    if s == "" then ""
    else (if s[0] == '/' then "--" else [s[0]]) + ReplaceSlashes(s[1..])
  }

  function LockFile(name: string): string {
    ReplaceSlashes(name) + ".lock"
  }

  const DEFAULT_ORG := "sentence-transformers"
  const BARE_PREFIX := DEFAULT_ORG + "--"

  function SnapshotDir(name: string): string {
    if '/' in name then "models--" + ReplaceSlashes(name)
    else "models--" + BARE_PREFIX + name
  }

  /** One snapshot directory guarded by two different lock files. */
  ghost predicate Aliases(a: string, b: string) {
    SnapshotDir(a) == SnapshotDir(b) && LockFile(a) != LockFile(b)
  }

  /** A bare name and the spelled-out name it stands for. */
  ghost predicate BareOf(bare: string, full: string) {
    '/' !in bare && '/' in full && ReplaceSlashes(full) == BARE_PREFIX + bare
  }

  lemma PrefixCancels(p: string, a: string, b: string)
    requires p + a == p + b
    ensures a == b
  {
    assert a == (p + a)[|p|..] == (p + b)[|p|..] == b;
  }

  lemma SameKindNeverAliases(a: string, b: string)
    requires '/' in a <==> '/' in b
    ensures !Aliases(a, b)
  {
    if SnapshotDir(a) == SnapshotDir(b) {
      if '/' in a {
        PrefixCancels("models--", ReplaceSlashes(a), ReplaceSlashes(b));
      } else {
        PrefixCancels("models--" + BARE_PREFIX, a, b);
      }
    }
  }

  lemma MixedKindAliases(bare: string, full: string)
    requires '/' !in bare && '/' in full
    ensures Aliases(bare, full) <==> ReplaceSlashes(full) == BARE_PREFIX + bare
  {
    assert SnapshotDir(bare) == "models--" + (BARE_PREFIX + bare);
    if SnapshotDir(bare) == SnapshotDir(full) {
      PrefixCancels("models--", BARE_PREFIX + bare, ReplaceSlashes(full));
    }
    assert |LockFile(bare)| == |bare| + 5 && |LockFile(full)| == |ReplaceSlashes(full)| + 5;
  }

  /** Exactly the pairs "x" and "sentence-transformers/x" (up to slashes written "--") escape the shared lock. */
  lemma AliasesIff(a: string, b: string)
    ensures Aliases(a, b) <==> BareOf(a, b) || BareOf(b, a)
  {
    if '/' in a && '/' !in b {
      MixedKindAliases(b, a);
    } else if '/' !in a && '/' in b {
      MixedKindAliases(a, b);
    } else {
      SameKindNeverAliases(a, b);
    }
  }

  lemma BareNameHasAlias(bare: string)
    requires '/' !in bare
    ensures Aliases(bare, "sentence-transformers" + "/" + bare)
  {
    ReplaceOneSlash(DEFAULT_ORG, bare);
    AliasesIff(bare, DEFAULT_ORG + "/" + bare);
  }

  /** The directories and lock files of a bare name and of one with an organisation. */
  lemma PlacesOf(org: string, name: string)
    requires '/' !in org && '/' !in name
    ensures SnapshotDir(name) == "models--sentence-transformers--" + name && LockFile(name) == name + ".lock"
    ensures SnapshotDir(org + "/" + name) == "models--" + (org + "--" + name) && LockFile(org + "/" + name) == org + "--" + name + ".lock"
  {
    ReplaceOneSlash(org, name);
    assert "models--" + BARE_PREFIX == "models--sentence-transformers--";
  }

  lemma ReplaceOneSlash(org: string, rest: string)
    requires '/' !in org && '/' !in rest
    ensures '/' in org + "/" + rest
    ensures ReplaceSlashes(org + "/" + rest) == org + "--" + rest
  {
    var slash := "/";
    assert (org + slash + rest)[|org|] == '/';
    ReplaceConcat(org + slash, rest);
    ReplaceConcat(org, slash);
    assert ReplaceSlashes(slash) == "--" + ReplaceSlashes("");
  }

  lemma {:induction false} ReplaceConcat(a: string, b: string)
    ensures ReplaceSlashes(a + b) == ReplaceSlashes(a) + ReplaceSlashes(b)
  {
    if a == "" {
      assert a + b == b;
    } else {
      assert (a + b)[1..] == a[1..] + b;
      ReplaceConcat(a[1..], b);
    }
  }
}
