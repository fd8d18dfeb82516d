/** Flag reordering in front of Go's `flag` package, which stops at the first positional argument. */
module InterspersedFlags {
  import opened Wrappers

  /** The defined flags: whether each one is boolean, and which texts its `Set` accepts. */
  datatype FlagSet = FlagSet(isBool: map<string, bool>, accepts: (string, string) -> bool)

  datatype ParseError =
    | BadSyntax(token: string)
    | Undefined(name: string)
    | NeedsArgument(name: string)
    | InvalidValue(name: string, value: string)

  /** Values set so far, in order; then the error, or the arguments left over. */
  datatype Outcome = Outcome(bindings: seq<(string, string)>, error: Option<ParseError>, rest: seq<string>)

  // ---------------------------------------------------------------- Go's flag package

  predicate FlagShaped(s: string) {
    |s| >= 2 && s[0] == '-'
  }

  function IndexOf(s: string, c: char): (i: nat)
    ensures i <= |s| && c !in s[..i] && (i < |s| ==> s[i] == c)
  {
    if s == "" || s[0] == c then 0
    else
      assert s[..1 + IndexOf(s[1..], c)] == [s[0]] + s[1..][..IndexOf(s[1..], c)];
      1 + IndexOf(s[1..], c)
  }

  /** The name part of a flag token, after one or two dashes. */
  function GoName(s: string): string
    requires FlagShaped(s)
  {
    if s[1] == '-' then s[2..] else s[1..]
  }

  datatype One = Bound(name: string, value: string, used: nat) | Bad(error: ParseError)

  function SetFlag(fs: FlagSet, name: string, value: string, used: nat): One {
    if fs.accepts(name, value) then Bound(name, value, used) else Bad(InvalidValue(name, value))
  }

  /** `FlagSet.parseOne` on a flag-shaped first token other than the terminator. */
  function ParseOne(fs: FlagSet, args: seq<string>): (r: One)
    requires args != [] && FlagShaped(args[0])
    ensures r.Bound? ==> 1 <= r.used <= 2 && r.used <= |args|
  {
    var token := args[0];
    var body := GoName(token);
    if body == "" || body[0] == '-' || body[0] == '=' then Bad(BadSyntax(token))
    else
      var eq := IndexOf(body, '=');
      var name := body[..eq];
      var inline := eq < |body|;
      if name !in fs.isBool then Bad(Undefined(name))
      else if fs.isBool[name] then SetFlag(fs, name, if inline then body[eq + 1..] else "true", 1)
      else if inline then SetFlag(fs, name, body[eq + 1..], 1)
      else if |args| > 1 then SetFlag(fs, name, args[1], 2)
      else Bad(NeedsArgument(name))
  }

  /** How Go reads a flag token: one dash or two, a value behind "=", behind the token, or "true". */
  lemma GoReads(fs: FlagSet, name: string, value: string, rest: seq<string>, two: bool)
    requires name != "" && name[0] != '-' && '=' !in name
    ensures var dashes := if two then "--" else "-";
            var bare, inline := ParseOne(fs, [dashes + name] + rest), ParseOne(fs, [dashes + name + "=" + value] + rest);
            if name !in fs.isBool then bare == inline == Bad(Undefined(name))
            else
              && inline == (if fs.accepts(name, value) then Bound(name, value, 1) else Bad(InvalidValue(name, value)))
              && bare == (if fs.isBool[name] then (if fs.accepts(name, "true") then Bound(name, "true", 1) else Bad(InvalidValue(name, "true")))
                          else if rest == [] then Bad(NeedsArgument(name))
                          else if fs.accepts(name, rest[0]) then Bound(name, rest[0], 2) else Bad(InvalidValue(name, rest[0])))
  {
    var dashes := if two then "--" else "-";
    var bare, inline := dashes + name, dashes + name + "=" + value;
    assert GoName(bare) == name && GoName(inline) == name + "=" + value;
    IndexOfFirst(name, "", '=');
    assert name + "" == name && name[..|name|] == name;
    IndexOfFirst(name, "=" + value, '=');
    assert (name + "=" + value) == name + ("=" + value);
    assert (name + ("=" + value))[..|name|] == name && (name + ("=" + value))[|name| + 1..] == value;
  }

  lemma {:induction false} IndexOfFirst(s: string, rest: string, c: char)
    requires c !in s && (rest == "" || rest[0] == c)
    ensures IndexOf(s + rest, c) == |s|
  {
    if s == "" {
      assert s + rest == rest;
    } else {
      assert (s + rest)[1..] == s[1..] + rest;
      IndexOfFirst(s[1..], rest, c);
    }
  }

  function Prepend(bindings: seq<(string, string)>, o: Outcome): Outcome {
    o.(bindings := bindings + o.bindings)
  }

  /** `FlagSet.Parse`: stops at the first token that is not flag-shaped, or after a terminator. */
  function GoParse(fs: FlagSet, args: seq<string>): Outcome
    decreases |args|
  {
    if args == [] || !FlagShaped(args[0]) then Outcome([], None, args)
    else if args[0] == "--" then Outcome([], None, args[1..])
    else
      match ParseOne(fs, args)
      case Bad(e) => Outcome([], Some(e), [])
      case Bound(name, value, used) => Prepend([(name, value)], GoParse(fs, args[used..]))
  }

  /** What the user means: flags and positionals in any order, read from left to right. */
  function Interspersed(fs: FlagSet, args: seq<string>): Outcome
    decreases |args|
  {
    if args == [] then Outcome([], None, [])
    else if args[0] == "--" then Outcome([], None, args[1..])
    else if !FlagShaped(args[0]) then
      var later := Interspersed(fs, args[1..]);
      if later.error.Some? then later else later.(rest := [args[0]] + later.rest)
    else
      match ParseOne(fs, args)
      case Bad(e) => Outcome([], Some(e), [])
      case Bound(name, value, used) => Prepend([(name, value)], Interspersed(fs, args[used..]))
  }

  // ---------------------------------------------------------------- the reordering

  predicate IsFlagToken(arg: string) {
    "-" <= arg && arg != "-"
  }

  function TrimDashes(s: string): string {
    if s != "" && s[0] == '-' then TrimDashes(s[1..]) else s
  }

  /** The name, and whether a value is attached to it with "=". */
  function FlagName(arg: string): (string, bool) {
    var name := TrimDashes(arg);
    var eq := IndexOf(name, '=');
    (name[..eq], eq < |name|)
  }

  predicate FlagRequiresValue(fs: FlagSet, arg: string) {
    var (name, hasInlineValue) := FlagName(arg);
    !hasInlineValue && name in fs.isBool && !fs.isBool[name]
  }

  /** Where each token goes; a value stays behind its flag, and the terminator goes nowhere. */
  datatype Groups = Groups(flags: seq<string>, positionals: seq<string>)

  ghost function Split(fs: FlagSet, args: seq<string>): Groups
    decreases |args|
  {
    if args == [] then Groups([], [])
    else if args[0] == "--" then Groups([], args[1..])
    else if !IsFlagToken(args[0]) then
      var g := Split(fs, args[1..]);
      g.(positionals := [args[0]] + g.positionals)
    else
      var used := if FlagRequiresValue(fs, args[0]) && |args| > 1 then 2 else 1;
      var g := Split(fs, args[used..]);
      g.(flags := args[..used] + g.flags)
  }

  lemma AppendAssoc<T>(a: seq<T>, b: seq<T>, c: seq<T>)
    ensures a + (b + c) == (a + b) + c
  {
  }

  /** How `Split` treats the token at `i`. */
  lemma SplitAt(fs: FlagSet, args: seq<string>, i: nat)
    requires i < |args|
    ensures var g := Split(fs, args[i..]);
            && (args[i] == "--" ==> g == Groups([], args[i + 1..]))
            && (args[i] != "--" && !IsFlagToken(args[i]) ==>
                  var later := Split(fs, args[i + 1..]);
                  g == Groups(later.flags, [args[i]] + later.positionals))
            && (args[i] != "--" && IsFlagToken(args[i]) ==>
                  if FlagRequiresValue(fs, args[i]) && i + 1 < |args| then
                    var later := Split(fs, args[i + 2..]);
                    g == Groups([args[i], args[i + 1]] + later.flags, later.positionals)
                  else
                    var later := Split(fs, args[i + 1..]);
                    g == Groups([args[i]] + later.flags, later.positionals))
  {
    hide FlagRequiresValue, IsFlagToken;
    assert args[i..][1..] == args[i + 1..] && args[i..][..1] == [args[i]];
    if i + 1 < |args| {
      assert args[i..][2..] == args[i + 2..] && args[i..][..2] == [args[i], args[i + 1]];
    }
  }

  lemma SplitEnd(fs: FlagSet, args: seq<string>)
    ensures Split(fs, args[|args|..]) == Groups([], [])
  {
  }

  method ReorderInterspersedFlags(fs: FlagSet, args: seq<string>) returns (out: seq<string>)
    ensures out == Split(fs, args).flags + Split(fs, args).positionals
  {
    SplitEnd(fs, args);
    hide FlagRequiresValue, IsFlagToken, Split;
    var flags, positionals := [], [];
    var i := 0;
    assert args[0..] == args;
    while i < |args|
      invariant 0 <= i <= |args|
      invariant flags + Split(fs, args[i..]).flags == Split(fs, args).flags
      invariant positionals + Split(fs, args[i..]).positionals == Split(fs, args).positionals
    {
      var arg := args[i];
      SplitAt(fs, args, i);
      if arg == "--" {
        return flags + (positionals + args[i + 1..]);
      }
      if !IsFlagToken(arg) {
        AppendAssoc(positionals, [arg], Split(fs, args[i + 1..]).positionals);
        positionals := positionals + [arg];
        i := i + 1;
        continue;
      }
      if FlagRequiresValue(fs, arg) && i + 1 < |args| {
        AppendAssoc(flags, [arg, args[i + 1]], Split(fs, args[i + 2..]).flags);
        assert flags + [arg] + [args[i + 1]] == flags + [arg, args[i + 1]];
        flags := flags + [arg];
        i := i + 1;
        flags := flags + [args[i]];
      } else {
        AppendAssoc(flags, [arg], Split(fs, args[i + 1..]).flags);
        flags := flags + [arg];
      }
      i := i + 1;
    }
    return flags + positionals;
  }

  // ---------------------------------------------------------------- the two readings of one token

  lemma SameShape(arg: string)
    ensures IsFlagToken(arg) <==> FlagShaped(arg)
  {
    if FlagShaped(arg) {
      assert arg[..1] == "-";
    }
  }

  /** On a token Go can read at all, both sides see the same name and the same inline value. */
  lemma SameName(s: string)
    requires FlagShaped(s) && GoName(s) != "" && GoName(s)[0] != '-'
    ensures TrimDashes(s) == GoName(s)
  {
    assert TrimDashes(s) == TrimDashes(s[1..]);
    if s[1] == '-' {
      assert s[1..][1..] == s[2..];
    }
  }

  /** Which tokens Go pairs with the next one: those the reordering pairs, if Go can read them. */
  lemma OneToken(fs: FlagSet, args: seq<string>, more: seq<string>)
    requires args != [] && FlagShaped(args[0])
    ensures var r, needs := ParseOne(fs, args), FlagRequiresValue(fs, args[0]);
            && (r.Bound? ==> r.used == if needs then 2 else 1)
            && (r.Bad? && r.error.NeedsArgument? ==> needs && |args| == 1)
            && (needs && |args| == 1 ==> r.Bad?)
            && (r.Bad? && r.error.NeedsArgument? && more != [] ==>
                  ParseOne(fs, args + more) == SetFlag(fs, r.error.name, more[0], 2))
            && (!(r.Bad? && r.error.NeedsArgument?) ==> ParseOne(fs, args + more) == r)
            && (needs && |args| > 1 ==> ParseOne(fs, args[..2]) == r)
            && (!needs ==> ParseOne(fs, args[..1]) == r)
  {
    var body := GoName(args[0]);
    assert (args + more)[0] == args[0];
    if body != "" && body[0] != '-' && body[0] != '=' {
      SameName(args[0]);
    }
  }

  // ---------------------------------------------------------------- correctness

  /** The last token is read as a value-taking flag, so nothing is left for its value. */
  ghost predicate Dangling(fs: FlagSet, args: seq<string>)
    decreases |args|
  {
    if args == [] || args[0] == "--" then false
    else if !IsFlagToken(args[0]) then Dangling(fs, args[1..])
    else if FlagRequiresValue(fs, args[0]) then |args| == 1 || Dangling(fs, args[2..])
    else Dangling(fs, args[1..])
  }

  ghost predicate IsRejected(o: Outcome) {
    o.error.Some? && !o.error.value.NeedsArgument?
  }

  /** How Go reads the collected flag tokens, alone or with anything behind them. */
  ghost predicate FlagsThen(fs: FlagSet, args: seq<string>, p: seq<string>) {
    var g, alone := Split(fs, args), GoParse(fs, Split(fs, args).flags);
    && (alone.error.None? ==>
          && GoParse(fs, g.flags + p) == Prepend(alone.bindings, GoParse(fs, p))
          && Interspersed(fs, args) == Outcome(alone.bindings, None, g.positionals)
          && !Dangling(fs, args))
    && (IsRejected(alone) ==> GoParse(fs, g.flags + p) == alone && Interspersed(fs, args) == alone)
    && (alone.error.Some? && !IsRejected(alone) ==>
          && Dangling(fs, args)
          && Interspersed(fs, args) == alone
          && (p != [] ==> GoParse(fs, g.flags + p) != alone))
  }

  lemma PrependInjective(b: seq<(string, string)>, x: Outcome, y: Outcome)
    requires Prepend(b, x) == Prepend(b, y)
    ensures x == y
  {
    assert x.bindings == (b + x.bindings)[|b|..] == (b + y.bindings)[|b|..] == y.bindings;
  }

  lemma {:induction false} FlagsParse(fs: FlagSet, args: seq<string>, p: seq<string>)
    ensures FlagsThen(fs, args, p)
    decreases |args|
  {
    hide FlagRequiresValue, IsFlagToken, FlagShaped, ParseOne;
    if args == [] || args[0] == "--" {
      assert [] + p == p;
    } else if !IsFlagToken(args[0]) {
      SameShape(args[0]);
      FlagsParse(fs, args[1..], p);
    } else {
      SameShape(args[0]);
      FlagStep(fs, args, p);
    }
  }

  lemma PrependTwice(b: seq<(string, string)>, c: seq<(string, string)>, o: Outcome)
    ensures Prepend(b, Prepend(c, o)) == Prepend(b + c, o)
  {
    AppendAssoc(b, c, o.bindings);
  }

  lemma FlagStep(fs: FlagSet, args: seq<string>, p: seq<string>)
    requires args != [] && args[0] != "--" && IsFlagToken(args[0]) && FlagShaped(args[0])
    ensures FlagsThen(fs, args, p)
    decreases |args|, 0
  {
    hide FlagRequiresValue, IsFlagToken, FlagShaped, ParseOne;
    var used := if FlagRequiresValue(fs, args[0]) && |args| > 1 then 2 else 1;
    var first, tail := args[..used], args[used..];
    var later := Split(fs, tail);
    FlagsParse(fs, tail, p);
    var f := first + later.flags;
    AppendAssoc(first, later.flags, p);
    assert args == first + tail;
    OneToken(fs, args, []);
    assert args + [] == args;
    OneToken(fs, first, later.flags);
    OneToken(fs, first, later.flags + p);
    var r := ParseOne(fs, first);
    assert ParseOne(fs, args) == r;
    if r.Bound? {
      var b := [(r.name, r.value)];
      GoParseFirst(fs, first, later.flags);
      GoParseFirst(fs, first, later.flags + p);
      FlagStepBound(fs, args, p, b, tail);
    } else if r.error.NeedsArgument? {
      assert tail == [] && later == Groups([], []);
      assert f == args && f + p == args + p;
      if p != [] {
        OneToken(fs, args, p);
        FlagTakesPositional(fs, args, p, r.error.name);
      }
    }
  }

  /** Go reads a token it accepts, with its value if it needs one, and goes on with the rest. */
  lemma GoParseFirst(fs: FlagSet, first: seq<string>, rest: seq<string>)
    requires first != [] && FlagShaped(first[0]) && first[0] != "--"
    requires ParseOne(fs, first).Bound? && ParseOne(fs, first).used == |first|
    requires ParseOne(fs, first + rest) == ParseOne(fs, first)
    ensures var r := ParseOne(fs, first);
            GoParse(fs, first + rest) == Prepend([(r.name, r.value)], GoParse(fs, rest))
  {
    hide ParseOne, FlagShaped;
    assert (first + rest)[|first|..] == rest;
  }

  lemma FlagTakesPositional(fs: FlagSet, args: seq<string>, p: seq<string>, name: string)
    requires |args| == 1 && FlagShaped(args[0]) && args[0] != "--" && p != []
    requires ParseOne(fs, args) == Bad(NeedsArgument(name))
    requires ParseOne(fs, args + p) == SetFlag(fs, name, p[0], 2)
    ensures GoParse(fs, args + p) != GoParse(fs, args)
  {
    hide ParseOne, FlagShaped;
    assert (args + p)[0] == args[0];
  }

  lemma FlagStepBound(fs: FlagSet, args: seq<string>, p: seq<string>, b: seq<(string, string)>, tail: seq<string>)
    requires FlagsThen(fs, tail, p)
    requires var f, f' := Split(fs, args).flags, Split(fs, tail).flags;
             && GoParse(fs, f) == Prepend(b, GoParse(fs, f'))
             && GoParse(fs, f + p) == Prepend(b, GoParse(fs, f' + p))
    requires Interspersed(fs, args) == Prepend(b, Interspersed(fs, tail))
    requires Split(fs, args).positionals == Split(fs, tail).positionals
    requires Dangling(fs, args) <==> Dangling(fs, tail)
    ensures FlagsThen(fs, args, p)
  {
    hide Split, GoParse, Interspersed, Dangling;
    var f' := Split(fs, tail).flags;
    var alone := GoParse(fs, f');
    if alone.error.None? {
      PrependTwice(b, alone.bindings, GoParse(fs, p));
    } else if !IsRejected(alone) && p != [] && Prepend(b, GoParse(fs, f' + p)) == Prepend(b, alone) {
      PrependInjective(b, GoParse(fs, f' + p), alone);
    }
  }

  /**
   Reordering makes Go's parser read the arguments as the user means them exactly when one of the
   flags is rejected anyway, or no flag is left without its value in front of positionals and the
   first positional is not flag-shaped.
   */
  lemma ReorderCorrectIff(fs: FlagSet, args: seq<string>)
    ensures var g := Split(fs, args);
            GoParse(fs, g.flags + g.positionals) == Interspersed(fs, args)
            <==> (|| IsRejected(GoParse(fs, g.flags))
                  || g.positionals == []
                  || (!Dangling(fs, args) && !FlagShaped(g.positionals[0])))
  {
    var g := Split(fs, args);
    var alone := GoParse(fs, g.flags);
    FlagsParse(fs, args, g.positionals);
    if g.positionals == [] {
      assert g.flags + [] == g.flags;
    } else if alone.error.None? {
      var p := GoParse(fs, g.positionals);
      if FlagShaped(g.positionals[0]) {
        assert p != Outcome([], None, g.positionals);
        if Prepend(alone.bindings, p) == Outcome(alone.bindings, None, g.positionals) {
          PrependInjective(alone.bindings, p, Outcome([], None, g.positionals));
        }
      }
    }
  }

  lemma OneLetter(c: char)
    requires c != '-' && c != '='
    ensures FlagShaped(['-', c]) && GoName(['-', c]) == [c] && TrimDashes(['-', c]) == [c] && IndexOf([c], '=') == 1
    ensures FlagName(['-', c]) == ([c], false) && ['-', c] != "--" && IsFlagToken(['-', c])
  {
    var token := ['-', c];
    assert token[1..] == [c];
    assert [c][..1] == [c] && [c][1..] == [];
  }

  /**
   A value flag left without its value behind a positional: the user should be told so, but once
   reordered the flag takes the positional for its value, and the positional is lost.
   */
  lemma MissingValueTakesPositional(fs: FlagSet, c: char, name: string)
    requires c != '-' && c != '=' && [c] in fs.isBool && !fs.isBool[[c]] && fs.accepts([c], name)
    requires !FlagShaped(name)
    ensures var args := [name, ['-', c]];
            var g := Split(fs, args);
            && Interspersed(fs, args) == Outcome([], Some(NeedsArgument([c])), [])
            && GoParse(fs, g.flags + g.positionals) == Outcome([([c], name)], None, [])
  {
    var flag := ['-', c];
    var args := [name, flag];
    OneLetter(c);
    SameShape(name);
    assert args[1..] == [flag] && [flag][1..] == [];
    assert Split(fs, [flag]) == Groups([flag], []) by { assert [flag][..1] + [] == [flag]; }
    assert Split(fs, args) == Groups([flag], [name]);
    var out := [flag, name];
    assert [flag] + [name] == out && out[2..] == [];
    assert ParseOne(fs, out) == Bound([c], name, 2);
    assert ParseOne(fs, [flag]) == Bad(NeedsArgument([c]));
  }

  /** A flag-shaped positional behind the terminator is read as a flag once the terminator is dropped. */
  lemma TerminatorIsDropped(fs: FlagSet, c: char)
    requires c != '-' && c != '=' && [c] !in fs.isBool
    ensures var args := ["--", ['-', c]];
            var g := Split(fs, args);
            && Interspersed(fs, args) == Outcome([], None, [['-', c]])
            && GoParse(fs, g.flags + g.positionals) == Outcome([], Some(Undefined([c])), [])
  {
    OneLetter(c);
    var args := ["--", ['-', c]];
    assert args[1..] == [['-', c]];
    assert [] + [['-', c]] == [['-', c]];
  }

  /** Without a terminator the first positional is never flag-shaped. */
  lemma PositionalsArePlain(fs: FlagSet, args: seq<string>)
    requires "--" !in args
    ensures forall p <- Split(fs, args).positionals :: !FlagShaped(p)
    decreases |args|
  {
    if args != [] {
      SameShape(args[0]);
      if !IsFlagToken(args[0]) {
        PositionalsArePlain(fs, args[1..]);
      } else if FlagRequiresValue(fs, args[0]) && |args| > 1 {
        PositionalsArePlain(fs, args[2..]);
      } else {
        PositionalsArePlain(fs, args[1..]);
      }
    }
  }

  /** Whether a terminator is read as one, and not as some flag's value. */
  ghost predicate Terminated(fs: FlagSet, args: seq<string>)
    decreases |args|
  {
    if args == [] then false
    else if args[0] == "--" then true
    else if IsFlagToken(args[0]) && FlagRequiresValue(fs, args[0]) && |args| > 1 then Terminated(fs, args[2..])
    else Terminated(fs, args[1..])
  }

  /** The tokens that are read together at the front: a flag with its separate value, or one token. */
  ghost function First(fs: FlagSet, args: seq<string>): (n: nat)
    requires args != []
    ensures 1 <= n <= |args|
  {
    if args[0] != "--" && IsFlagToken(args[0]) && FlagRequiresValue(fs, args[0]) && |args| > 1 then 2 else 1
  }

  lemma SplitFirst(fs: FlagSet, args: seq<string>)
    requires args != [] && args[0] != "--"
    ensures var n := First(fs, args);
            var first, g, later := args[..n], Split(fs, args), Split(fs, args[n..]);
            && (|| g == Groups(first + later.flags, later.positionals)
                || g == Groups(later.flags, first + later.positionals))
            && (Terminated(fs, args) <==> Terminated(fs, args[n..]))
  {
    hide FlagRequiresValue, IsFlagToken;
  }

  /** The tokens read first join one of the two groups. */
  lemma Recount<T>(args: seq<T>, n: nat, f: seq<T>, p: seq<T>, extra: multiset<T>)
    requires n <= |args| && multiset(f) + multiset(p) + extra == multiset(args[n..])
    ensures multiset(args[..n] + f) + multiset(p) + extra == multiset(args)
    ensures multiset(f) + multiset(args[..n] + p) + extra == multiset(args)
  {
    assert args == args[..n] + args[n..];
    assert multiset(args) == multiset(args[..n]) + multiset(args[n..]);
  }

  ghost function Extra(fs: FlagSet, args: seq<string>): multiset<string> {
    if Terminated(fs, args) then multiset{"--"} else multiset{}
  }

  lemma KeptAtEnd(fs: FlagSet, args: seq<string>)
    requires args == [] || args[0] == "--"
    ensures multiset(Split(fs, args).flags) + multiset(Split(fs, args).positionals) + Extra(fs, args) == multiset(args)
  {
    if args != [] {
      assert args == [args[0]] + args[1..];
    }
  }

  /** No token is lost, added or duplicated, but for the one terminator. */
  lemma {:induction false} TokensKept(fs: FlagSet, args: seq<string>)
    ensures multiset(Split(fs, args).flags) + multiset(Split(fs, args).positionals) + Extra(fs, args) == multiset(args)
    decreases |args|
  {
    hide Split, Terminated, First;
    if args == [] || args[0] == "--" {
      KeptAtEnd(fs, args);
    } else {
      SplitFirst(fs, args);
      var n := First(fs, args);
      TokensKept(fs, args[n..]);
      var later := Split(fs, args[n..]);
      Recount(args, n, later.flags, later.positionals, Extra(fs, args));
    }
  }
}
