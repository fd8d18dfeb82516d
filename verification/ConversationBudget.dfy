/** The character budget that cuts a conversation down to size before it is sent to a model. */
module ConversationBudget {

  /** A text as `length` and `slice` see it: UTF-16 code units. */
  type Units = seq<bv16>

  datatype Turn = Turn(role: string, content: Units)

  datatype Cut = Cut(turns: seq<Turn>, truncated: bool, totalChars: nat)

  /** A newline, an ellipsis and eleven letters and brackets. */
  const TRUNC_SUFFIX: Units := [0x0a, 0x2026, 0x28, 0x74, 0x72, 0x75, 0x6e, 0x63, 0x61, 0x74, 0x65, 0x64, 0x29]

  function Max(a: int, b: int): int {
    if a <= b then b else a
  }

  /** `slice(0, end)`: a negative end counts back from the end of the string. */
  function Slice(s: Units, end: int): Units {
    if end > |s| then s else if end >= 0 then s[..end] else s[..Max(0, |s| + end)]
  }

  function ClipTurn(t: Turn, max: int): Turn {
    if |t.content| <= max then t
    else t.(content := Slice(t.content, max - |TRUNC_SUFFIX|) + TRUNC_SUFFIX)
  }

  ghost function Clipped(turns: seq<Turn>, max: int): (r: seq<Turn>)
    ensures |r| == |turns|
  {
    seq(|turns|, i requires 0 <= i < |turns| => ClipTurn(turns[i], max))
  }

  ghost function Chars(turns: seq<Turn>): nat {
    if turns == [] then 0 else Chars(turns[..|turns| - 1]) + |turns[|turns| - 1].content|
  }

  /** The turns between the first and the last. */
  ghost function Middle(turns: seq<Turn>): seq<Turn> {
    if |turns| <= 2 then [] else turns[1..|turns| - 1]
  }

  /** `k` turns fit in the budget and one more, if there is one, does not. */
  ghost predicate LongestFit(turns: seq<Turn>, budget: nat, k: nat) {
    && k <= |turns|
    && Chars(turns[..k]) <= budget
    && (k < |turns| ==> Chars(turns[..k + 1]) > budget)
  }

  /** The cut of a conversation: whole when it fits, else its two ends and as much of the middle as fits. */
  ghost predicate IsCut(turns: seq<Turn>, convMaxChars: int, turnMaxChars: int, r: Cut, kept: nat) {
    var all := Clipped(turns, turnMaxChars);
    if turns == [] then r == Cut([], false, 0)
    else if Chars(all) <= convMaxChars then r == Cut(all, all != turns, Chars(all))
    else
      var head, middle, tail := all[0], Middle(all), all[|all| - 1];
      && LongestFit(middle, Max(0, convMaxChars - |head.content| - |tail.content|), kept)
      && r == Cut([head] + middle[..kept] + [tail], true, |head.content| + Chars(middle[..kept]) + |tail.content|)
  }

  /** Each turn clipped by itself. */
  method ClipTurns(turns: seq<Turn>, max: int) returns (perTurn: seq<Turn>, totalChars: nat, someTruncated: bool)
    ensures perTurn == Clipped(turns, max) && totalChars == Chars(perTurn)
    ensures someTruncated <==> perTurn != turns
  {
    hide Chars, ClipTurn;
    perTurn, totalChars, someTruncated := [], 0, false;
    NoChars();
    ghost var all := Clipped(turns, max);
    for n := 0 to |turns|
      invariant perTurn == all[..n] && totalChars == Chars(perTurn)
      invariant someTruncated <==> perTurn != turns[..n]
    {
      var t := ClipTurn(turns[n], max);
      OneMoreTurn(perTurn, t);
      SameContent(turns[n], max);
      assert turns[..n + 1] == turns[..n] + [turns[n]];
      perTurn := perTurn + [t];
      totalChars := totalChars + |t.content|;
      someTruncated := someTruncated || t.content != turns[n].content;
    }
    assert all[..|turns|] == all && turns[..|turns|] == turns;
  }

  /** Takes turns in order until one does not fit. */
  method PickMiddle(middle: seq<Turn>, budget: nat) returns (picked: seq<Turn>, used: nat)
    ensures LongestFit(middle, budget, |picked|)
    ensures picked == middle[..|picked|] && used == Chars(picked)
  {
    picked, used := [], 0;
    var n := 0;
    while n < |middle| && used + |middle[n].content| <= budget
      invariant 0 <= n <= |middle| && picked == middle[..n]
      invariant used == Chars(picked) <= budget
    {
      assert (picked + [middle[n]])[..n] == picked;
      used := used + |middle[n].content|;
      picked := picked + [middle[n]];
      n := n + 1;
    }
    if n < |middle| {
      assert middle[..n + 1][..n] == picked;
    }
  }

  method ApplyConvBudget(turns: seq<Turn>, convMaxChars: int, turnMaxChars: int) returns (r: Cut)
    ensures exists kept: nat :: IsCut(turns, convMaxChars, turnMaxChars, r, kept)
  {
    hide Chars, Clipped;
    if turns == [] {
      r := Cut([], false, 0);
      assert IsCut(turns, convMaxChars, turnMaxChars, r, 0);
      return;
    }
    var perTurn, totalChars, someTruncated := ClipTurns(turns, turnMaxChars);
    if totalChars <= convMaxChars {
      r := Cut(perTurn, someTruncated, totalChars);
      assert IsCut(turns, convMaxChars, turnMaxChars, r, 0);
      return;
    }
    var head, tail := perTurn[0], perTurn[|perTurn| - 1];
    var middleBudget := Max(0, convMaxChars - |head.content| - |tail.content|);
    var middle := if |perTurn| <= 2 then [] else perTurn[1..|perTurn| - 1];
    var picked, used := PickMiddle(middle, middleBudget);
    r := Cut([head] + picked + [tail], true, |head.content| + used + |tail.content|);
    assert IsCut(turns, convMaxChars, turnMaxChars, r, |picked|);
  }

  lemma NoChars()
    ensures Chars([]) == 0
  {
  }

  lemma OneMoreTurn(turns: seq<Turn>, t: Turn)
    ensures Chars(turns + [t]) == Chars(turns) + |t.content|
  {
    assert (turns + [t])[..|turns|] == turns;
  }

  lemma SameContent(t: Turn, max: int)
    ensures ClipTurn(t, max) == t <==> ClipTurn(t, max).content == t.content
  {
  }

  // ---------------------------------------------------------------- one turn

  /** A turn is within the cap exactly when it was already or the cap has room for the mark. */
  lemma WithinCapIff(t: Turn, max: int)
    ensures |ClipTurn(t, max).content| <= max <==> |t.content| <= max || max >= |TRUNC_SUFFIX|
    ensures |TRUNC_SUFFIX| == 13
  {
    assert |TRUNC_SUFFIX| == 13;
  }

  /** Clipping keeps the beginning, marks the cut, and does nothing the second time. */
  lemma ClipKeepsBeginning(t: Turn, max: int)
    requires max >= |TRUNC_SUFFIX|
    ensures TRUNC_SUFFIX == [0x0a, 0x2026] + [0x28, 0x74, 0x72, 0x75, 0x6e, 0x63, 0x61, 0x74, 0x65, 0x64, 0x29]
    ensures var c := ClipTurn(t, max);
            && c.role == t.role
            && ClipTurn(c, max) == c
            && (|t.content| > max ==> c.content == t.content[..max - |TRUNC_SUFFIX|] + TRUNC_SUFFIX && |c.content| == max)
  {
  }

  /** A cap without room for the mark counts the missing places from the end of the text. */
  lemma SmallCapClips(t: Turn, max: int)
    requires max < 13 && |t.content| > max
    ensures var kept := |t.content| + max - 13;
            ClipTurn(t, max).content == (if kept > 0 then t.content[..kept] else []) + TRUNC_SUFFIX
  {
    assert |TRUNC_SUFFIX| == 13;
  }

  predicate High(u: bv16) {
    0xd800 <= u <= 0xdbff
  }

  predicate Low(u: bv16) {
    0xdc00 <= u <= 0xdfff
  }

  /** Every surrogate is one half of a pair. */
  ghost predicate Paired(s: Units) {
    && (forall i | 0 <= i < |s| && High(s[i]) :: i + 1 < |s| && Low(s[i + 1]))
    && (forall i | 0 <= i < |s| && Low(s[i]) :: i > 0 && High(s[i - 1]))
  }

  /** The cut leaves half a character behind exactly when it falls between the halves of a pair. */
  lemma ClipKeepsPairsIff(t: Turn, max: int)
    requires max >= |TRUNC_SUFFIX| && |t.content| > max && Paired(t.content)
    ensures Paired(ClipTurn(t, max).content)
            <==> max == |TRUNC_SUFFIX| || !High(t.content[max - |TRUNC_SUFFIX| - 1])
  {
    var n, c := max - |TRUNC_SUFFIX|, ClipTurn(t, max).content;
    assert forall i | 0 <= i < |TRUNC_SUFFIX| :: !High(TRUNC_SUFFIX[i]) && !Low(TRUNC_SUFFIX[i]);
    assert forall i | 0 <= i < |c| :: c[i] == if i < n then t.content[i] else TRUNC_SUFFIX[i - n];
    if n > 0 && High(t.content[n - 1]) {
      assert !Low(c[n]);
    }
  }

  // ---------------------------------------------------------------- the whole conversation

  lemma {:induction false} CharsJoined(a: seq<Turn>, b: seq<Turn>)
    ensures Chars(a + b) == Chars(a) + Chars(b)
    decreases |b|
  {
    if b == [] {
      assert a + b == a;
    } else {
      assert (a + b)[..|a + b| - 1] == a + b[..|b| - 1];
      CharsJoined(a, b[..|b| - 1]);
    }
  }

  lemma CharsAroundMiddle(all: seq<Turn>)
    requires |all| >= 2
    ensures Chars(all) == |all[0].content| + Chars(Middle(all)) + |all[|all| - 1].content|
  {
    var middle := Middle(all);
    assert all == [all[0]] + middle + [all[|all| - 1]];
    CharsJoined([all[0]] + middle, [all[|all| - 1]]);
    CharsJoined([all[0]], middle);
    assert [all[0]][..0] == [] && [all[|all| - 1]][..0] == [];
    assert Chars([]) == 0;
  }

  /** The reported total is what is returned, and stays in the budget unless the two ends alone exceed it. */
  lemma TotalWithinBudget(turns: seq<Turn>, convMaxChars: int, turnMaxChars: int, r: Cut, kept: nat)
    requires IsCut(turns, convMaxChars, turnMaxChars, r, kept)
    ensures r.totalChars == Chars(r.turns)
    ensures turns != [] ==>
              var head, tail := ClipTurn(turns[0], turnMaxChars), ClipTurn(turns[|turns| - 1], turnMaxChars);
              r.totalChars <= Max(convMaxChars, |head.content| + |tail.content|)
  {
    var all := Clipped(turns, turnMaxChars);
    if turns != [] && Chars(all) > convMaxChars {
      var middle := Middle(all)[..kept];
      assert Middle(r.turns) == middle;
      CharsAroundMiddle(r.turns);
    }
  }

  lemma TurnsWithinCap(turns: seq<Turn>, convMaxChars: int, turnMaxChars: int, r: Cut, kept: nat)
    requires IsCut(turns, convMaxChars, turnMaxChars, r, kept)
    requires turnMaxChars >= |TRUNC_SUFFIX|
    ensures forall i | 0 <= i < |r.turns| :: |r.turns[i].content| <= turnMaxChars
  {
    var all := Clipped(turns, turnMaxChars);
    forall i | 0 <= i < |all|
      ensures |all[i].content| <= turnMaxChars
    {
      WithinCapIff(turns[i], turnMaxChars);
    }
    forall i | 0 <= i < |r.turns|
      ensures r.turns[i] in all
    {
      if Chars(all) > convMaxChars && turns != [] {
        assert r.turns[i] == all[if i == |r.turns| - 1 then |all| - 1 else i];
      } else {
        assert r.turns[i] == all[i];
      }
    }
  }

  /** What is not marked truncated is the input; the mark is set exactly when something had to give. */
  lemma UntruncatedIsInput(turns: seq<Turn>, convMaxChars: int, turnMaxChars: int, r: Cut, kept: nat)
    requires IsCut(turns, convMaxChars, turnMaxChars, r, kept)
    ensures !r.truncated ==> r.turns == turns
    ensures turns != [] ==>
              (r.truncated <==> Chars(Clipped(turns, turnMaxChars)) > convMaxChars
                                || exists i | 0 <= i < |turns| :: ClipTurn(turns[i], turnMaxChars) != turns[i])
  {
    var all := Clipped(turns, turnMaxChars);
    if all != turns {
      var i :| 0 <= i < |turns| && all[i] != turns[i];
      assert ClipTurn(turns[i], turnMaxChars) != turns[i];
    }
  }

  /** What is returned is clipped turns of the conversation, picked in order, none twice. */
  ghost predicate PickedInOrder(turns: seq<Turn>, turnMaxChars: int, r: seq<Turn>, places: seq<nat>) {
    && |places| == |r|
    && (forall i | 0 <= i < |r| :: places[i] < |turns| && r[i] == ClipTurn(turns[places[i]], turnMaxChars))
    && (forall i, j | 0 <= i < j < |r| :: places[i] < places[j])
  }

  /**
   Turns come back in order and none twice, unless the conversation is a single turn over the budget,
   which is returned as both its first and its last turn.
   */
  lemma ReturnedOnceIff(turns: seq<Turn>, convMaxChars: int, turnMaxChars: int, r: Cut, kept: nat)
    requires IsCut(turns, convMaxChars, turnMaxChars, r, kept)
    ensures (exists places :: PickedInOrder(turns, turnMaxChars, r.turns, places))
            <==> !(|turns| == 1 && |ClipTurn(turns[0], turnMaxChars).content| > convMaxChars)
  {
    var all := Clipped(turns, turnMaxChars);
    if |turns| == 1 {
      assert all[..0] == [];
      assert Chars(all) == Chars(all[..0]) + |all[0].content|;
    }
    if turns == [] || Chars(all) <= convMaxChars {
      assert PickedInOrder(turns, turnMaxChars, r.turns, seq(|turns|, i => i));
    } else if |turns| == 1 {
      assert kept == 0 && |r.turns| == 2;
      assert forall places | PickedInOrder(turns, turnMaxChars, r.turns, places) :: places[0] < places[1] < 1;
    } else {
      PickedEnds(turns, convMaxChars, turnMaxChars, r, kept);
    }
  }

  lemma PickedEnds(turns: seq<Turn>, convMaxChars: int, turnMaxChars: int, r: Cut, kept: nat)
    requires IsCut(turns, convMaxChars, turnMaxChars, r, kept)
    requires |turns| >= 2 && Chars(Clipped(turns, turnMaxChars)) > convMaxChars
    ensures exists places :: PickedInOrder(turns, turnMaxChars, r.turns, places)
  {
    hide Chars;
    var all := Clipped(turns, turnMaxChars);
    assert kept <= |Middle(all)| && |r.turns| == kept + 2;
    var places := seq(kept + 2, i requires 0 <= i < kept + 2 => if i == kept + 1 then |turns| - 1 else i);
    forall i | 0 <= i < |r.turns|
      ensures places[i] < |turns| && r.turns[i] == ClipTurn(turns[places[i]], turnMaxChars)
    {
      assert r.turns[i] == all[places[i]];
    }
    assert PickedInOrder(turns, turnMaxChars, r.turns, places);
  }

  /** One turn of two characters, and room for one: it comes back twice. */
  lemma SingleTurnTwice()
    ensures var t := Turn("user", [0x68, 0x69]);
            IsCut([t], 1, 100, Cut([t, t], true, 4), 0)
  {
    var t := Turn("user", [0x68, 0x69]);
    assert Clipped([t], 100) == [t];
    assert [t][..0] == [];
    assert Chars([t]) == 2;
  }

  /** A longer prefix of the middle than the one returned is over the budget. */
  lemma {:induction false} NoLongerFit(turns: seq<Turn>, budget: nat, k: nat, m: nat)
    requires LongestFit(turns, budget, k)
    requires k < m <= |turns|
    ensures Chars(turns[..m]) > budget
    decreases m
  {
    if m > k + 1 {
      NoLongerFit(turns, budget, k, m - 1);
      assert turns[..m][..m - 1] == turns[..m - 1];
    }
  }
}
