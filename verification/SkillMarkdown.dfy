/** The SKILL.md parser: name, description and body of a markdown text. */
module SkillMarkdown {
  import opened Wrappers

  /** `str.isspace` of one character. */
  predicate IsSpace(c: char) {
    || '\t' <= c <= '\r' || '\U{1c}' <= c <= '\U{20}' || c == '\U{85}' || c == '\U{a0}' || c == '\U{1680}'
    || '\U{2000}' <= c <= '\U{200a}' || c == '\U{2028}' || c == '\U{2029}' || c == '\U{202f}' || c == '\U{205f}'
    || c == '\U{3000}'
  }

  /** Where `str.splitlines` breaks. */
  predicate IsBreak(c: char) {
    || '\n' <= c <= '\r' || '\U{1c}' <= c <= '\U{1e}' || c == '\U{85}' || c == '\U{2028}' || c == '\U{2029}'
  }

  /** The blanks and the line breaks, one by one. */
  lemma BlanksAre(c: char)
    ensures IsSpace(c)
            <==> || c in {'\t', '\n', '\U{0b}', '\U{0c}', '\r', '\U{1c}', '\U{1d}', '\U{1e}', '\U{1f}', ' ', '\U{85}', '\U{a0}'}
                 || c in {'\U{1680}', '\U{2000}', '\U{2001}', '\U{2002}', '\U{2003}', '\U{2004}', '\U{2005}', '\U{2006}', '\U{2007}'}
                 || c in {'\U{2008}', '\U{2009}', '\U{200a}', '\U{2028}', '\U{2029}', '\U{202f}', '\U{205f}', '\U{3000}'}
    ensures IsBreak(c)
            <==> c in {'\n', '\U{0b}', '\U{0c}', '\r', '\U{1c}', '\U{1d}', '\U{1e}', '\U{85}', '\U{2028}', '\U{2029}'}
  {
  }

  /** What reading in text mode does to line ends. */
  function UniversalNewlines(raw: string): string
    decreases |raw|
  {
    if raw == "" then ""
    else if raw[0] != '\r' then [raw[0]] + UniversalNewlines(raw[1..])
    else if |raw| > 1 && raw[1] == '\n' then "\n" + UniversalNewlines(raw[2..])
    else "\n" + UniversalNewlines(raw[1..])
  }

  predicate OneLine(s: string) {
    forall c <- s :: !IsBreak(c)
  }

  predicate PlainNewlines(s: string) {
    forall c <- s :: IsBreak(c) ==> c == '\n'
  }

  function BreakAt(s: string): (i: nat)
    ensures i <= |s| && OneLine(s[..i]) && (i < |s| ==> IsBreak(s[i]))
  {
    if s == "" || IsBreak(s[0]) then 0
    else
      var i := BreakAt(s[1..]);
      assert s[..i + 1] == [s[0]] + s[1..][..i];
      i + 1
  }

  /** `str.splitlines()` on text without carriage returns. */
  function SplitLines(s: string): seq<string>
    decreases |s|
  {
    if s == "" then []
    else
      var i := BreakAt(s);
      if i == |s| then [s] else [s[..i]] + SplitLines(s[i + 1..])
  }

  function StripLeft(s: string): string {
    if s != "" && IsSpace(s[0]) then StripLeft(s[1..]) else s
  }

  function StripRight(s: string): string {
    if s != "" && IsSpace(s[|s| - 1]) then StripRight(s[..|s| - 1]) else s
  }

  function Strip(s: string): string {
    StripRight(StripLeft(s))
  }

  predicate Trimmed(s: string) {
    s == "" || (!IsSpace(s[0]) && !IsSpace(s[|s| - 1]))
  }

  function JoinWith(sep: string, parts: seq<string>): string {
    if parts == [] then "" else if |parts| == 1 then parts[0] else parts[0] + sep + JoinWith(sep, parts[1..])
  }

  // ---------------------------------------------------------------- the parser

  datatype Skill = Skill(name: string, description: string, body: string)

  datatype ParseError = EmptyFile | NoHeading | EmptyName | NoDescription

  predicate IsHeading(line: string) {
    "# " <= Strip(line) && !("## " <= Strip(line))
  }

  predicate IsText(line: string) {
    Strip(line) != "" && Strip(line)[0] != '#'
  }

  /** The first line from `i` on that is a heading, or the end. */
  ghost function HeadingFrom(lines: seq<string>, i: nat): (j: nat)
    requires i <= |lines|
    ensures i <= j <= |lines| && (j < |lines| ==> IsHeading(lines[j]))
    ensures forall k | i <= k < j :: !IsHeading(lines[k])
    decreases |lines| - i
  {
    if i == |lines| || IsHeading(lines[i]) then i else HeadingFrom(lines, i + 1)
  }

  /** The first line from `i` on that is text (or is not), or the end. */
  ghost function TextFrom(lines: seq<string>, i: nat, want: bool): (j: nat)
    requires i <= |lines|
    ensures i <= j <= |lines| && (j < |lines| ==> IsText(lines[j]) == want)
    ensures forall k | i <= k < j :: IsText(lines[k]) != want
    decreases |lines| - i
  {
    if i == |lines| || IsText(lines[i]) == want then i else TextFrom(lines, i + 1, want)
  }

  ghost function Stripped(lines: seq<string>): (r: seq<string>)
    ensures |r| == |lines| && forall k | 0 <= k < |lines| :: r[k] == Strip(lines[k])
  {
    seq(|lines|, k requires 0 <= k < |lines| => Strip(lines[k]))
  }

  /** The first heading names the skill, the first paragraph after it describes it, the rest is the body. */
  ghost function Parsed(content: string): Result<Skill, ParseError> {
    var lines := SplitLines(content);
    var h := HeadingFrom(lines, 0);
    if Strip(content) == "" then Failure(EmptyFile)
    else if h == |lines| then Failure(NoHeading)
    else
      var name := Strip(Strip(lines[h])[2..]);
      var start := TextFrom(lines, h + 1, true);
      var end := TextFrom(lines, start, false);
      if name == "" then Failure(EmptyName)
      else if start == |lines| then Failure(NoDescription)
      else Success(Skill(name, Strip(JoinWith(" ", Stripped(lines[start..end]))), Strip(JoinWith("\n", lines[end..]))))
  }

  /** The two nested scans: to the first text line, then over the contiguous text lines. */
  method FindParagraph(lines: seq<string>, from: nat) returns (description: Option<string>, end: nat)
    requires from <= |lines|
    ensures var start := TextFrom(lines, from, true);
            && (start == |lines| ==> description.None?)
            && (start < |lines| ==>
                  && end == TextFrom(lines, start, false)
                  && description == Some(Strip(JoinWith(" ", Stripped(lines[start..end])))))
  {
    hide Strip, JoinWith;
    var i := from;
    while i < |lines|
      invariant from <= i <= |lines|
      invariant TextFrom(lines, from, true) == TextFrom(lines, i, true)
    {
      var line := Strip(lines[i]);
      if line != "" && line[0] != '#' {
        ghost var start := i;
        var paraLines := [];
        while i < |lines|
          invariant start <= i <= |lines|
          invariant TextFrom(lines, start, false) == TextFrom(lines, i, false)
          invariant paraLines == Stripped(lines[start..i])
        {
          var current := Strip(lines[i]);
          if current == "" || current[0] == '#' {
            break;
          }
          StrippedAppend(lines, start, i);
          paraLines := paraLines + [current];
          i := i + 1;
        }
        return Some(Strip(JoinWith(" ", paraLines))), i;
      }
      i := i + 1;
    }
    return None, i;
  }

  lemma StrippedAppend(lines: seq<string>, start: nat, i: nat)
    requires start <= i < |lines|
    ensures Stripped(lines[start..i + 1]) == Stripped(lines[start..i]) + [Strip(lines[i])]
  {
    assert lines[start..i + 1] == lines[start..i] + [lines[i]];
  }

  method ParseStandardSkillsMd(raw: string) returns (r: Result<Skill, ParseError>)
    ensures r == Parsed(UniversalNewlines(raw))
  {
    hide SplitLines, UniversalNewlines;
    var content := UniversalNewlines(raw);
    if Strip(content) == "" {
      return Failure(EmptyFile);
    }
    var lines := SplitLines(content);
    var h1 := 0;
    while h1 < |lines|
      invariant 0 <= h1 <= |lines|
      invariant HeadingFrom(lines, 0) == HeadingFrom(lines, h1)
    {
      if IsHeading(lines[h1]) {
        break;
      }
      h1 := h1 + 1;
    }
    if h1 == |lines| {
      return Failure(NoHeading);
    }
    var name := Strip(Strip(lines[h1])[2..]);
    if name == "" {
      return Failure(EmptyName);
    }
    var description, end := FindParagraph(lines, h1 + 1);
    if description.None? {
      return Failure(NoDescription);
    }
    ParagraphNotEmpty(lines, TextFrom(lines, h1 + 1, true), end);
    if description.value == "" {
      return Failure(NoDescription);
    }
    var body := if end < |lines| then Strip(JoinWith("\n", lines[end..])) else "";
    return Success(Skill(name, description.value, body));
  }

  // ---------------------------------------------------------------- stripping

  lemma {:induction false} StripLeftEnds(s: string)
    ensures var r := StripLeft(s);
            && (r != "" ==> !IsSpace(r[0]))
            && |r| <= |s| && r == s[|s| - |r|..]
  {
    if s != "" && IsSpace(s[0]) {
      StripLeftEnds(s[1..]);
    }
  }

  lemma {:induction false} StripRightEnds(s: string)
    ensures var r := StripRight(s);
            && (r != "" ==> !IsSpace(r[|r| - 1]))
            && |r| <= |s| && r == s[..|r|]
  {
    if s != "" && IsSpace(s[|s| - 1]) {
      StripRightEnds(s[..|s| - 1]);
    }
  }

  /** Stripping gives a trimmed part of the text. */
  lemma StripTrims(s: string)
    ensures Trimmed(Strip(s))
    ensures forall c <- Strip(s) :: c in s
  {
    StripLeftEnds(s);
    StripRightEnds(StripLeft(s));
  }

  lemma StripFixes(s: string)
    requires Trimmed(s)
    ensures Strip(s) == s
  {
  }

  /** Stripping takes exactly the blanks off both ends. */
  lemma {:induction false} StripExact(before: string, s: string, after: string)
    requires Trimmed(s) && (forall c <- before :: IsSpace(c)) && (forall c <- after :: IsSpace(c))
    ensures Strip(before + s + after) == s
    decreases |before| + |after|
  {
    if before != "" {
      assert (before + s + after)[1..] == before[1..] + s + after;
      StripExact(before[1..], s, after);
    } else if s == "" {
      if after != "" {
        assert ("" + "" + after)[1..] == "" + "" + after[1..];
        StripExact("", "", after[1..]);
      }
    } else {
      assert "" + s + after == s + after && (s + after)[0] == s[0];
      StripRightOff(s, after);
    }
  }

  lemma {:induction false} StripRightOff(s: string, after: string)
    requires s != "" && !IsSpace(s[|s| - 1]) && forall c <- after :: IsSpace(c)
    ensures StripRight(s + after) == s
    decreases |after|
  {
    if after == "" {
      assert s + after == s;
    } else {
      assert (s + after)[..|s + after| - 1] == s + after[..|after| - 1];
      StripRightOff(s, after[..|after| - 1]);
    }
  }

  lemma StripSpaceBefore(c: char, s: string)
    requires IsSpace(c)
    ensures Strip([c] + s) == Strip(s)
  {
    assert ([c] + s)[1..] == s;
  }

  // ---------------------------------------------------------------- lines

  lemma {:induction false} BreakAfterLine(line: string, rest: string)
    requires OneLine(line)
    ensures BreakAt(line + "\n" + rest) == |line|
  {
    var s := line + "\n" + rest;
    if line != "" {
      assert s[0] == line[0] && s[0] in line;
      assert s[1..] == line[1..] + "\n" + rest;
      BreakAfterLine(line[1..], rest);
    }
  }

  lemma SplitFirstLine(line: string, rest: string)
    requires OneLine(line)
    ensures SplitLines(line + "\n" + rest) == [line] + SplitLines(rest)
  {
    BreakAfterLine(line, rest);
    var s := line + "\n" + rest;
    assert s[..|line|] == line && s[|line| + 1..] == rest;
  }

  lemma {:induction false} LinesAreOneLine(s: string)
    ensures forall l <- SplitLines(s) :: OneLine(l)
    decreases |s|
  {
    if s != "" {
      var i := BreakAt(s);
      if i == |s| {
        assert s[..i] == s;
      } else {
        LinesAreOneLine(s[i + 1..]);
      }
    }
  }

  /** Joining the lines of a text with plain newlines gives it back, when it does not end with one. */
  lemma {:induction false} JoinSplit(s: string)
    requires PlainNewlines(s) && (s != "" ==> s[|s| - 1] != '\n')
    ensures JoinWith("\n", SplitLines(s)) == s
    ensures s != "" ==> SplitLines(s) != []
    decreases |s|
  {
    hide IsBreak, JoinWith, OneLine, BreakAt;
    if s == "" {
      JoinNone("\n");
    } else {
      var i := BreakAt(s);
      if i == |s| {
        JoinFirst("\n", s, []);
        assert [s] + [] == [s];
      } else {
        assert s[i] in s && s[i] == '\n';
        var rest := s[i + 1..];
        assert rest != "" && rest[|rest| - 1] == s[|s| - 1];
        JoinSplit(rest);
        JoinFirst("\n", s[..i], SplitLines(rest));
        assert s == s[..i] + "\n" + rest;
      }
    }
  }

  lemma JoinNone(sep: string)
    ensures JoinWith(sep, []) == ""
  {
  }

  lemma JoinFirst(sep: string, first: string, rest: seq<string>)
    ensures JoinWith(sep, [first] + rest) == if rest == [] then first else first + sep + JoinWith(sep, rest)
  {
    assert ([first] + rest)[1..] == rest;
  }

  lemma {:induction false} JoinChars(sep: string, parts: seq<string>, c: char)
    requires c in JoinWith(sep, parts)
    ensures c in sep || exists p <- parts :: c in p
  {
    if |parts| > 1 {
      var tail := JoinWith(sep, parts[1..]);
      if c in tail {
        JoinChars(sep, parts[1..], c);
        if c !in sep {
          var p :| p in parts[1..] && c in p;
          assert p in parts;
        }
      } else if c in parts[0] {
        assert parts[0] in parts;
      }
    } else if |parts| == 1 {
      assert parts[0] in parts;
    }
  }

  /** A paragraph of stripped text lines starts and ends with one of them. */
  lemma {:induction false} ParagraphShape(parts: seq<string>)
    requires parts != [] && forall p <- parts :: p != "" && Trimmed(p)
    ensures var d := JoinWith(" ", parts); d != "" && Trimmed(d) && d[0] == parts[0][0]
  {
    assert parts[0] in parts;
    if |parts| > 1 {
      assert forall p <- parts[1..] :: p in parts;
      ParagraphShape(parts[1..]);
    }
  }

  lemma ParagraphNotEmpty(lines: seq<string>, start: nat, end: nat)
    requires start < end <= |lines| && forall k | start <= k < end :: IsText(lines[k])
    ensures var d := JoinWith(" ", Stripped(lines[start..end]));
            d != "" && Trimmed(d) && Strip(d) == d && d[0] != '#'
  {
    var parts := Stripped(lines[start..end]);
    forall p <- parts ensures p != "" && Trimmed(p) {
      var k :| 0 <= k < |parts| && parts[k] == p;
      StripTrims(lines[start + k]);
      assert IsText(lines[start + k]);
    }
    ParagraphShape(parts);
    StripFixes(JoinWith(" ", parts));
    assert IsText(lines[start]);
  }

  /** The empty-name error is never raised: a stripped heading always has text behind its mark. */
  lemma HeadingHasName(line: string)
    requires IsHeading(line)
    ensures Strip(Strip(line)[2..]) != ""
  {
    StripTrims(line);
    var s := Strip(line);
    var rest := s[2..];
    assert s[1] == ' ';
    assert |s| > 2;
    StripLeftKeepsEnd(rest);
  }

  lemma {:induction false} StripLeftKeepsEnd(s: string)
    requires s != "" && !IsSpace(s[|s| - 1])
    ensures Strip(s) != ""
  {
    if IsSpace(s[0]) {
      StripLeftKeepsEnd(s[1..]);
    }
  }

  // ---------------------------------------------------------------- print and parse

  function Render(s: Skill): string {
    "# " + s.name + "\n" + ("" + "\n" + (s.description + "\n" + ("" + "\n" + s.body)))
  }

  /** The triples the parser returns, and prints and parses without change. */
  ghost predicate Canonical(s: Skill) {
    && s.name != "" && Trimmed(s.name) && OneLine(s.name)
    && s.description != "" && Trimmed(s.description) && OneLine(s.description) && s.description[0] != '#'
    && Trimmed(s.body) && PlainNewlines(s.body)
  }

  lemma TitleIsOneLine(name: string)
    requires OneLine(name)
    ensures OneLine("# " + name)
  {
    forall c <- "# " + name ensures !IsBreak(c) {
      assert c == '#' || c == ' ' || c in name;
    }
  }

  lemma RenderedLines(s: Skill)
    requires Canonical(s)
    ensures SplitLines(Render(s)) == ["# " + s.name, "", s.description, ""] + SplitLines(s.body)
  {
    hide SplitLines;
    var title := "# " + s.name;
    TitleIsOneLine(s.name);
    var r3 := "" + "\n" + s.body;
    var r2 := s.description + "\n" + r3;
    var r1 := "" + "\n" + r2;
    SplitFirstLine(title, r1);
    SplitFirstLine("", r2);
    SplitFirstLine(s.description, r3);
    SplitFirstLine("", s.body);
    assert Render(s) == title + "\n" + r1;
  }

  lemma {:induction false} NoReturns(s: string)
    requires '\r' !in s
    ensures UniversalNewlines(s) == s
    decreases |s|
  {
    if s != "" {
      NoReturns(s[1..]);
    }
  }

  /** Text up to a line end of either kind is kept, and the line end becomes a newline. */
  lemma {:induction false} LineEndsUnified(line: string, rest: string)
    requires '\r' !in line
    ensures UniversalNewlines(line + "\r\n" + rest) == line + "\n" + UniversalNewlines(rest)
    ensures UniversalNewlines(line + "\n" + rest) == line + "\n" + UniversalNewlines(rest)
    ensures rest == "" || rest[0] != '\n' ==> UniversalNewlines(line + "\r" + rest) == line + "\n" + UniversalNewlines(rest)
    decreases |line|
  {
    if line == "" {
      assert ("\r\n" + rest)[2..] == rest && ("\r" + rest)[1..] == rest && ("\n" + rest)[1..] == rest;
      assert "" + "\r\n" + rest == "\r\n" + rest && "" + "\r" + rest == "\r" + rest && "" + "\n" + rest == "\n" + rest;
    } else {
      var tail := line[1..];
      LineEndsUnified(tail, rest);
      assert (line + "\r\n" + rest)[1..] == tail + "\r\n" + rest;
      assert (line + "\r" + rest)[1..] == tail + "\r" + rest;
      assert (line + "\n" + rest)[1..] == tail + "\n" + rest;
      assert line == [line[0]] + tail;
    }
  }

  lemma RenderedIsPlain(s: Skill)
    requires Canonical(s)
    ensures '\r' !in Render(s)
  {
    var r := Render(s);
    forall c <- r ensures c != '\r' {
      assert c == '#' || c == ' ' || c == '\n' || c in s.name || c in s.description || c in s.body;
    }
  }

  lemma NoLines()
    ensures SplitLines("") == [] && Strip("") == ""
  {
  }

  lemma RenderedBody(body: string)
    requires Trimmed(body) && PlainNewlines(body)
    ensures Strip(JoinWith("\n", [""] + SplitLines(body))) == body
  {
    hide SplitLines, JoinWith, Strip;
    JoinFirst("\n", "", SplitLines(body));
    if body == "" {
      NoLines();
    } else {
      assert body[|body| - 1] != '\n';
      JoinSplit(body);
      assert "" + "\n" + body == ['\n'] + body;
      StripSpaceBefore('\n', body);
      StripFixes(body);
    }
  }

  /** Lines, each with its line end. */
  function Ended(lines: seq<string>): string {
    if lines == [] then "" else lines[0] + "\n" + Ended(lines[1..])
  }

  lemma {:induction false} EndedLines(lines: seq<string>, rest: string)
    requires forall l <- lines :: OneLine(l)
    ensures SplitLines(Ended(lines) + rest) == lines + SplitLines(rest)
  {
    hide SplitLines, OneLine;
    if lines == [] {
      assert Ended(lines) + rest == rest;
    } else {
      EndedLines(lines[1..], rest);
      SplitFirstLine(lines[0], Ended(lines[1..]) + rest);
      assert Ended(lines) + rest == lines[0] + "\n" + (Ended(lines[1..]) + rest);
      assert lines == [lines[0]] + lines[1..];
    }
  }

  lemma {:induction false} EndedIsPlain(lines: seq<string>, rest: string)
    requires (forall l <- lines :: OneLine(l)) && '\r' !in rest
    ensures '\r' !in Ended(lines) + rest
  {
    if lines != [] {
      EndedIsPlain(lines[1..], rest);
      assert Ended(lines) + rest == lines[0] + "\n" + (Ended(lines[1..]) + rest);
      assert IsBreak('\r') && OneLine(lines[0]);
    }
  }

  lemma StripKeepsText(s: string, c: char)
    requires c in s && !IsSpace(c)
    ensures Strip(s) != ""
  {
    StripLeftKeepsText(s, c);
    StripRightKeepsText(StripLeft(s), c);
  }

  lemma {:induction false} StripLeftKeepsText(s: string, c: char)
    requires c in s && !IsSpace(c)
    ensures c in StripLeft(s)
  {
    if IsSpace(s[0]) { StripLeftKeepsText(s[1..], c); }
  }

  lemma {:induction false} StripRightKeepsText(s: string, c: char)
    requires c in s && !IsSpace(c)
    ensures c in StripRight(s)
  {
    if IsSpace(s[|s| - 1]) {
      assert s == s[..|s| - 1] + [s[|s| - 1]];
      StripRightKeepsText(s[..|s| - 1], c);
    }
  }

  /**
   A text parses by its lines: the first heading names it, the first run of text lines after that
   describes it, joined by blanks, and everything behind the run is its body.
   */
  lemma ParsedShape(content: string, h: nat, start: nat, end: nat)
    requires h < start < end <= |SplitLines(content)|
    requires var lines := SplitLines(content);
             && "# " <= Strip(lines[h])
             && (forall k | 0 <= k < h :: !("# " <= Strip(lines[k])))
             && (forall k | h < k < start :: Strip(lines[k]) == "" || Strip(lines[k])[0] == '#')
             && (forall k | start <= k < end :: Strip(lines[k]) != "" && Strip(lines[k])[0] != '#')
             && (end < |lines| ==> Strip(lines[end]) == "" || Strip(lines[end])[0] == '#')
    ensures var lines := SplitLines(content);
            Parsed(content) == Success(Skill(Strip(Strip(lines[h])[2..]),
                                             JoinWith(" ", seq(end - start, i requires 0 <= i < end - start => Strip(lines[start + i]))),
                                             Strip(JoinWith("\n", lines[end..]))))
  {
    hide Strip, JoinWith, SplitLines;
    var lines := SplitLines(content);
    HeadingMark(lines[h]);
    assert HeadingFrom(lines, 0) == h;
    assert IsText(lines[start]) && forall k | h < k < start :: !IsText(lines[k]);
    assert TextFrom(lines, h + 1, true) == start;
    assert forall k | start <= k < end :: IsText(lines[k]);
    assert end < |lines| ==> !IsText(lines[end]);
    assert TextFrom(lines, start, false) == end;
    assert Stripped(lines[start..end]) == seq(end - start, i requires 0 <= i < end - start => Strip(lines[start + i]));
    HeadingHasName(lines[h]);
    ParagraphTrimmed(lines, start, end);
    LineHasText(content, start);
  }

  lemma HeadingMark(line: string)
    ensures IsHeading(line) <==> "# " <= Strip(line)
  {
    hide Strip;
    if "# " <= Strip(line) { assert Strip(line)[1] == ' '; }
  }

  lemma ParagraphTrimmed(lines: seq<string>, start: nat, end: nat)
    requires start < end <= |lines| && forall k | start <= k < end :: IsText(lines[k])
    ensures var d := JoinWith(" ", Stripped(lines[start..end])); Strip(d) == d
  {
    hide Strip, JoinWith;
    var parts := Stripped(lines[start..end]);
    forall p <- parts ensures p != "" && Trimmed(p) {
      var k :| 0 <= k < |parts| && parts[k] == p;
      StripTrims(lines[start + k]);
      assert IsText(lines[start + k]);
    }
    ParagraphShape(parts);
    StripFixes(JoinWith(" ", parts));
  }

  /** A line with text in it makes the whole text one that is not blank. */
  lemma {:induction false} LineHasText(content: string, k: nat)
    requires k < |SplitLines(content)| && Strip(SplitLines(content)[k]) != ""
    ensures Strip(content) != ""
  {
    var line := SplitLines(content)[k];
    StripTrims(line);
    var c := Strip(line)[0];
    assert c in Strip(line) && !IsSpace(c);
    LineWithin(content, k, c);
    StripKeepsText(content, c);
  }

  lemma {:induction false} LineWithin(content: string, k: nat, c: char)
    requires k < |SplitLines(content)| && c in SplitLines(content)[k]
    ensures c in content
    decreases k
  {
    if k > 0 {
      LineWithin(content[BreakAt(content) + 1..], k - 1, c);
    }
  }

  /** Whatever lines without a heading come first, front matter or text, the parse is that of what follows. */
  lemma PreambleIsSkipped(preamble: seq<string>, s: Skill)
    requires Canonical(s) && forall l <- preamble :: OneLine(l) && !IsHeading(l)
    ensures Parsed(UniversalNewlines(Ended(preamble) + Render(s))) == Success(s)
  {
    hide SplitLines, Render, UniversalNewlines, Strip, JoinWith, Ended;
    var content, n := Ended(preamble) + Render(s), |preamble|;
    RenderedIsPlain(s);
    EndedIsPlain(preamble, Render(s));
    NoReturns(content);
    EndedLines(preamble, Render(s));
    RenderedLines(s);
    RenderedBody(s.body);
    var title, lines := "# " + s.name, SplitLines(content);
    assert lines == preamble + (["# " + s.name, "", s.description, ""] + SplitLines(s.body));
    assert lines[n] == title && lines[n + 1] == "" && lines[n + 2] == s.description && lines[n + 3] == "";
    assert lines[n + 3..] == [""] + SplitLines(s.body);
    assert Trimmed(title) && title[2..] == s.name;
    StripFixes(title);
    StripFixes(s.name);
    StripFixes(s.description);
    StripFixes("");
    forall k | 0 <= k < n ensures !("# " <= Strip(lines[k])) {
      assert lines[k] == preamble[k];
      HeadingMark(preamble[k]);
    }
    JoinFirst(" ", s.description, []);
    assert seq(1, i requires 0 <= i < 1 => Strip(lines[n + 2 + i])) == [s.description] == [s.description] + [];
    ParsedShape(content, n, n + 2, n + 3);
  }

  /** Parsing the rendering of a canonical triple gives exactly that triple. */
  lemma PrintParse(s: Skill)
    requires Canonical(s)
    ensures Parsed(UniversalNewlines(Render(s))) == Success(s)
  {
    PreambleIsSkipped([], s);
    assert Ended([]) + Render(s) == Render(s);
  }

  /** "No heading" is said exactly of texts that are not blank and have no line that is one. */
  lemma NoHeadingIff(content: string)
    ensures Parsed(content) == Failure(NoHeading)
            <==> Strip(content) != "" && forall l <- SplitLines(content) :: !IsHeading(l)
    ensures Parsed(content) == Failure(EmptyFile) <==> Strip(content) == ""
  {
    hide IsHeading, SplitLines, Strip, TextFrom;
    var lines := SplitLines(content);
    assert HeadingFrom(lines, 0) == |lines| ==> forall l <- lines :: !IsHeading(l);
  }

  /** Whatever text is accepted, the triple returned is canonical. */
  lemma ParsedIsCanonical(content: string)
    requires Parsed(content).Success?
    ensures Canonical(Parsed(content).value)
  {
    var lines := SplitLines(content);
    LinesAreOneLine(content);
    var h := HeadingFrom(lines, 0);
    var start := TextFrom(lines, h + 1, true);
    var end := TextFrom(lines, start, false);
    var s := Parsed(content).value;
    StripTrims(lines[h]);
    StripTrims(Strip(lines[h])[2..]);
    assert OneLine(lines[h]);
    assert forall c <- s.name :: c in lines[h];
    assert start < end;
    ParagraphNotEmpty(lines, start, end);
    DescriptionIsOneLine(lines, start, end);
    StripTrims(JoinWith("\n", lines[end..]));
    forall c <- s.body ensures IsBreak(c) ==> c == '\n' {
      assert c in JoinWith("\n", lines[end..]);
      JoinChars("\n", lines[end..], c);
      if c !in "\n" {
        var p :| p in lines[end..] && c in p;
        assert OneLine(p);
      }
    }
  }

  lemma DescriptionIsOneLine(lines: seq<string>, start: nat, end: nat)
    requires start <= end <= |lines| && forall l <- lines :: OneLine(l)
    ensures OneLine(JoinWith(" ", Stripped(lines[start..end])))
  {
    var parts := Stripped(lines[start..end]);
    var d := JoinWith(" ", parts);
    forall c <- d ensures !IsBreak(c) {
      JoinChars(" ", parts, c);
      if c !in " " {
        var p :| p in parts && c in p;
        var k :| 0 <= k < |parts| && parts[k] == p;
        StripTrims(lines[start + k]);
        assert OneLine(lines[start + k]);
      }
    }
  }

  /** For every accepted text, printing what was parsed and parsing it again gives the same triple. */
  lemma ParsePrintParse(raw: string)
    requires Parsed(UniversalNewlines(raw)).Success?
    ensures Parsed(UniversalNewlines(Render(Parsed(UniversalNewlines(raw)).value))) == Parsed(UniversalNewlines(raw))
  {
    ParsedIsCanonical(UniversalNewlines(raw));
    PrintParse(Parsed(UniversalNewlines(raw)).value);
  }

  /** A triple is what some text parses to exactly when it is canonical. */
  lemma ReturnedIff(s: Skill)
    ensures (exists raw :: Parsed(UniversalNewlines(raw)) == Success(s)) <==> Canonical(s)
  {
    if Canonical(s) {
      PrintParse(s);
    }
    if raw :| Parsed(UniversalNewlines(raw)) == Success(s) {
      ParsedIsCanonical(UniversalNewlines(raw));
    }
  }
}
