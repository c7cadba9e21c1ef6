/** Re-parsing ever longer beginnings of the same output: when do the parsed fields only grow?
    (llama.cpp/common/chat-parser.cpp, try_parse_reasoning) */
module ReasoningStream {
  import opened Wrappers
  import opened Text
  import opened ChatParser
  import PartialStop

  /** Where the thoughts that begin at `from` end, as far as this input shows. */
  ghost function Cut(input: string, isPartial: bool, from: nat, endThink: string): (r: nat)
    requires from <= |input|
    ensures from <= r <= |input|
  {
    var found := FindLiteral(input, isPartial, from, endThink);
    if found.Some? then found.value.begin else |input|
  }

  /** The last `k` characters of the start tag begin the end tag, and the end tag cut at `m` ends in its own
      first `b` characters, which lie after the start tag. */
  ghost predicate Straddles(startThink: string, endThink: string, k: nat, m: nat, b: nat) {
    && 1 <= k <= |startThink| && 1 <= b && k + b <= m <= |endThink|
    && startThink[|startThink| - k..] == endThink[..k]
    && endThink[m - b..m] == endThink[..b]
  }

  /** No end tag can be mistaken for one that began inside the start tag. A condition on the two tags alone. */
  ghost predicate Separated(startThink: string, endThink: string) {
    forall k: nat, m: nat, b: nat :: Straddles(startThink, endThink, k, m, b) ==> Blank(endThink, 0, b)
  }

  /** Thoughts are extracted, and go to a field of their own. */
  predicate Extracts(syntax: Syntax) {
    !syntax.reasoningFormat.NoReasoning? && !syntax.reasoningInContent
  }

  /** An end tag that shows up before the end of the shorter text was already beginning there. */
  lemma CutInsideIsABeginning(s: string, longer: string, isPartial: bool, from: nat, endThink: string)
    requires s <= longer && from <= |s| && Find(s, endThink, from).None?
    requires Cut(longer, isPartial, from, endThink) < |s|
    ensures PartialStop.BeginsAt(s, endThink, Cut(longer, isPartial, from, endThink))
  {
    var cut := Cut(longer, isPartial, from, endThink);
    var whole := Find(longer, endThink, from);
    if whole.Some? {
      OccursInPrefix(s, longer, endThink, cut);
      assert longer[cut..cut + |endThink|][..|s| - cut] == s[cut..];
    } else {
      assert longer[cut..][..|s| - cut] == s[cut..];
      assert endThink[..|longer| - cut][..|s| - cut] == endThink[..|s| - cut];
    }
  }

  /** A later cut that lies before an earlier one means that the tags straddle. */
  lemma RetreatStraddles(s: string, longer: string, isPartial: bool, from: nat, startThink: string, endThink: string)
    returns (k: nat, m: nat, b: nat)
    requires s <= longer && from == |startThink| <= |s| && startThink <= s
    requires Cut(longer, isPartial, from, endThink) < Cut(s, true, from, endThink)
    ensures Straddles(startThink, endThink, k, m, b)
    ensures Cut(s, true, from, endThink) == |s| == Cut(longer, isPartial, from, endThink) + b
    ensures s[|s| - b..] == endThink[..b]
  {
    if Find(s, endThink, from).Some? {
      FindIsStable(s, longer, endThink, from);
      assert false;
    }
    var cut := Cut(longer, isPartial, from, endThink);
    CutInsideIsABeginning(s, longer, isPartial, from, endThink);
    var start := PartialStop.Start(s, endThink).value;
    assert start < from;
    k, m, b := from - start, |s| - start, |s| - cut;
    assert startThink[start..] == s[start..][..k] == endThink[..m][..k] == endThink[..k];
    assert endThink[m - b..m] == endThink[..m][m - b..] == s[start..][m - b..] == s[cut..];
  }

  /** With thinking open from the first character, a later cut is never before an earlier one. */
  lemma CutAdvances(s: string, longer: string, isPartial: bool, endThink: string)
    requires s <= longer
    ensures Cut(s, true, 0, endThink) <= Cut(longer, isPartial, 0, endThink)
  {
    if Cut(longer, isPartial, 0, endThink) < Cut(s, true, 0, endThink) {
      var k, m, b := RetreatStraddles(s, longer, isPartial, 0, "", endThink);
      assert false;
    }
  }

  lemma BlankSlice(s: string, from: nat, kept: nat, end: nat)
    requires from <= kept <= end <= |s| && Blank(s, kept, end)
    ensures Blank(s[from..end], kept - from, end - from)
  {
    forall i | kept - from <= i < end - from ensures IsSpace(s[from..end][i]) {
      assert s[from..end][i] == s[from + i];
    }
  }

  lemma StripOfBlankTail(s: string, from: nat, kept: nat, end: nat)
    requires from <= kept <= end <= |s| && Blank(s, kept, end)
    ensures Strip(s[from..end]) == Strip(s[from..kept])
  {
    BlankSlice(s, from, kept, end);
    assert s[from..end][..kept - from] == s[from..kept];
    StripIgnoresTrailingSpace(s[from..end], kept - from);
  }

  lemma StripOfLongerCut(s: string, longer: string, from: nat, cut: nat, cut': nat)
    requires s <= longer && from <= cut <= |s| && cut <= cut' <= |longer|
    ensures Strip(s[from..cut]) <= Strip(longer[from..cut'])
  {
    assert s[from..cut] == longer[from..cut'][..cut - from];
    StripGrows(s[from..cut], longer[from..cut']);
  }

  lemma StripOfCutGrows(s: string, longer: string, from: nat, cut: nat, cut': nat)
    requires s <= longer && from <= cut <= |s| && from <= cut' <= |longer|
    requires cut' < cut ==> Blank(s, cut', cut)
    ensures Strip(s[from..cut]) <= Strip(longer[from..cut'])
  {
    if cut <= cut' {
      StripOfLongerCut(s, longer, from, cut, cut');
    } else {
      StripOfBlankTail(s, from, cut', cut);
      assert s[from..cut'] == longer[from..cut'];
    }
  }

  /** The thoughts: the stripped text between the opening and the cut. */
  ghost function Thoughts(input: string, isPartial: bool, syntax: Syntax, startThink: string, endThink: string): string {
    var from := ThinkingFrom(input, syntax, 0, startThink);
    if from.None? then "" else Strip(input[from.value..Cut(input, isPartial, from.value, endThink)])
  }

  lemma ReasoningIs(input: string, isPartial: bool, syntax: Syntax, startThink: string, endThink: string)
    requires Extracts(syntax)
    ensures Parse(input, isPartial, syntax, startThink, endThink).reasoning
         == Thoughts(input, isPartial, syntax, startThink, endThink)
  {
    var from := ThinkingFrom(input, syntax, 0, startThink);
    if from.Some? {
      var found := FindLiteral(input, isPartial, from.value, endThink);
      assert found.None? ==> input[from.value..|input|] == input[from.value..];
      var st := State(0, "", "");
      assert ParseReasoning(input, isPartial, syntax, st, startThink, endThink).0.reasoning
          == "" + Strip(input[from.value..Cut(input, isPartial, from.value, endThink)]);
    }
  }

  lemma ForcedThoughtsGrow(s: string, longer: string, isPartial: bool, endThink: string)
    requires s <= longer
    ensures Strip(s[0..Cut(s, true, 0, endThink)]) <= Strip(longer[0..Cut(longer, isPartial, 0, endThink)])
  {
    CutAdvances(s, longer, isPartial, endThink);
    StripOfCutGrows(s, longer, 0, Cut(s, true, 0, endThink), Cut(longer, isPartial, 0, endThink));
  }

  lemma BlankTail(s: string, endThink: string, b: nat)
    requires b <= |s| && b <= |endThink| && s[|s| - b..] == endThink[..b] && Blank(endThink, 0, b)
    ensures Blank(s, |s| - b, |s|)
  {
    forall i | |s| - b <= i < |s|
      ensures IsSpace(s[i])
    {
      assert s[i] == s[|s| - b..][i - (|s| - b)] == endThink[i - (|s| - b)];
    }
  }

  lemma TaggedThoughtsGrow(s: string, longer: string, isPartial: bool, startThink: string, endThink: string)
    requires startThink <= s <= longer && Separated(startThink, endThink)
    ensures var from := |startThink|;
            Strip(s[from..Cut(s, true, from, endThink)]) <= Strip(longer[from..Cut(longer, isPartial, from, endThink)])
  {
    var from := |startThink|;
    var cut, cut' := Cut(s, true, from, endThink), Cut(longer, isPartial, from, endThink);
    if cut' < cut {
      var k, m, b := RetreatStraddles(s, longer, isPartial, from, startThink, endThink);
      BlankTail(s, endThink, b);
    }
    StripOfCutGrows(s, longer, from, cut, cut');
  }

  /** Streaming never takes back a thought: what a partial parse reports is a beginning of what any parse of a
      longer text reports. It holds when thinking is forced open, and for tags that do not straddle. */
  lemma ReasoningGrows(s: string, longer: string, isPartial: bool, syntax: Syntax, startThink: string, endThink: string)
    requires s <= longer && Extracts(syntax)
    requires syntax.thinkingForcedOpen || Separated(startThink, endThink)
    ensures Parse(s, true, syntax, startThink, endThink).reasoning
         <= Parse(longer, isPartial, syntax, startThink, endThink).reasoning
  {
    ReasoningIs(s, true, syntax, startThink, endThink);
    ReasoningIs(longer, isPartial, syntax, startThink, endThink);
    if syntax.thinkingForcedOpen {
      ForcedThoughtsGrow(s, longer, isPartial, endThink);
    } else if OccursAt(s, startThink, 0) {
      OccursInPrefix(s, longer, startThink, 0);
      TaggedThoughtsGrow(s, longer, isPartial, startThink, endThink);
    }
  }

  /** The text after the start tag is the rest of a false end tag, so nothing of it is held back. */
  lemma FalseEndTagIsKept(startThink: string, endThink: string, k: nat, m: nat, b: nat)
    requires Straddles(startThink, endThink, k, m, b)
    ensures var s := startThink + endThink[k..m]; Cut(s, true, |startThink|, endThink) == |s|
  {
    var s := startThink + endThink[k..m];
    var start := |startThink| - k;
    assert s[start..] == startThink[start..] + endThink[k..m] == endThink[..m];
    assert PartialStop.BeginsAt(s, endThink, start);
  }

  /** Where the true end tag is, the search finds it or an earlier one. */
  lemma EndTagIsFound(startThink: string, thoughts: string, endThink: string)
    ensures var from, longer := |startThink|, startThink + thoughts + endThink;
            var cut := Cut(longer, true, from, endThink);
            from <= cut <= from + |thoughts| && longer[from..cut] == thoughts[..cut - from]
  {
    var from, longer := |startThink|, startThink + thoughts + endThink;
    assert longer[from + |thoughts|..] == endThink;
    assert OccursAt(longer, endThink, from + |thoughts|);
  }

  /** The two texts that show it: the rest of a false end tag, and the true end tag starting inside it. */
  lemma StraddlingTexts(startThink: string, endThink: string, k: nat, m: nat, b: nat)
    returns (s: string, longer: string, shown: nat)
    requires Straddles(startThink, endThink, k, m, b)
    ensures startThink <= s <= longer
    ensures var from, thoughts := |startThink|, endThink[k..m];
            && shown <= m - k - b && s[from..Cut(s, true, from, endThink)] == thoughts
            && longer[from..Cut(longer, true, from, endThink)] == thoughts[..shown]
  {
    var from, thoughts, kept := |startThink|, endThink[k..m], m - k - b;
    s := startThink + thoughts;
    longer := startThink + thoughts[..kept] + endThink;
    assert thoughts == thoughts[..kept] + endThink[..b];
    assert longer == s + endThink[b..];
    FalseEndTagIsKept(startThink, endThink, k, m, b);
    assert s[from..|s|] == thoughts;
    EndTagIsFound(startThink, thoughts[..kept], endThink);
    shown := Cut(longer, true, from, endThink) - from;
    assert thoughts[..kept][..shown] == thoughts[..shown];
  }

  /** Tags that straddle do take thoughts back: the true end tag starts inside what was reported. */
  lemma StraddlingTagsRetract(startThink: string, endThink: string, k: nat, m: nat, b: nat)
    returns (s: string, longer: string)
    requires Straddles(startThink, endThink, k, m, b) && !Blank(endThink, 0, b)
    ensures startThink <= s <= longer
    ensures var from := |startThink|;
            !(Strip(s[from..Cut(s, true, from, endThink)]) <= Strip(longer[from..Cut(longer, true, from, endThink)]))
  {
    var shown;
    s, longer, shown := StraddlingTexts(startThink, endThink, k, m, b);
    var thoughts, kept := endThink[k..m], m - k - b;
    var i :| 0 <= i < b && !IsSpace(endThink[i]);
    assert thoughts[kept + i] == endThink[m - b..m][i] == endThink[..b][i];
    StripNoticesTail(thoughts, shown);
  }

  /** No thought reported for `s` is missing from what is reported for `longer`. */
  ghost predicate Keeps(s: string, longer: string, syntax: Syntax, startThink: string, endThink: string) {
    Parse(s, true, syntax, startThink, endThink).reasoning <= Parse(longer, true, syntax, startThink, endThink).reasoning
  }

  lemma StraddlingIsNotKept(syntax: Syntax, startThink: string, endThink: string, k: nat, m: nat, b: nat)
    returns (s: string, longer: string)
    requires Extracts(syntax) && !syntax.thinkingForcedOpen
    requires Straddles(startThink, endThink, k, m, b) && !Blank(endThink, 0, b)
    ensures startThink <= s <= longer && !Keeps(s, longer, syntax, startThink, endThink)
  {
    s, longer := StraddlingTagsRetract(startThink, endThink, k, m, b);
    ReasoningIs(s, true, syntax, startThink, endThink);
    ReasoningIs(longer, true, syntax, startThink, endThink);
  }

  /** Exactly the tags that do not straddle can be streamed. */
  lemma ReasoningGrowsIff(syntax: Syntax, startThink: string, endThink: string)
    requires Extracts(syntax) && !syntax.thinkingForcedOpen
    ensures Separated(startThink, endThink) <==>
            forall s, longer :: s <= longer ==> Keeps(s, longer, syntax, startThink, endThink)
  {
    if Separated(startThink, endThink) {
      forall s: string, longer: string | s <= longer
        ensures Keeps(s, longer, syntax, startThink, endThink)
      {
        ReasoningGrows(s, longer, true, syntax, startThink, endThink);
      }
    } else {
      var k: nat, m: nat, b: nat :| Straddles(startThink, endThink, k, m, b) && !Blank(endThink, 0, b);
      var s, longer := StraddlingIsNotKept(syntax, startThink, endThink, k, m, b);
      assert !Keeps(s, longer, syntax, startThink, endThink);
    }
  }

  lemma StraddlingSharesLastCharacter(startThink: string, endThink: string, k: nat, m: nat, b: nat)
    requires Straddles(startThink, endThink, k, m, b)
    ensures k < |endThink| && endThink[k - 1] == startThink[|startThink| - 1]
  {
    assert startThink[|startThink| - k..][k - 1] == endThink[..k][k - 1];
  }

  /** A simple test: the last character of the start tag occurs in the end tag at its end at most. */
  lemma SeparatedByLastCharacter(startThink: string, endThink: string)
    requires startThink != []
    requires forall i :: 0 <= i < |endThink| - 1 ==> endThink[i] != startThink[|startThink| - 1]
    ensures Separated(startThink, endThink)
  {
    if !Separated(startThink, endThink) {
      var k: nat, m: nat, b: nat :| Straddles(startThink, endThink, k, m, b) && !Blank(endThink, 0, b);
      StraddlingSharesLastCharacter(startThink, endThink, k, m, b);
    }
  }

  /** The tags of the formats in llama.cpp/common/chat.cpp pass the test. */
  lemma TagsInUseAreSeparated()
    ensures Separated("<think>", "</think>")
    ensures Separated("<|START_THINKING|>", "<|END_THINKING|>")
  {
    SeparatedByLastCharacter("<think>", "</think>");
    SeparatedByLastCharacter("<|START_THINKING|>", "<|END_THINKING|>");
  }

  /** Tags that do straddle exist: with these, the thought "a" of the shorter text is gone in the longer one. */
  lemma SeparationIsNeeded()
    ensures !Separated("<a", "aab")
  {
    assert Straddles("<a", "aab", 1, 2, 1);
    assert !IsSpace("aab"[0]);
  }
}
