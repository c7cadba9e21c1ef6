/** A generation streamed to a client: with every new piece of text the whole is parsed again, and the slot is given
    the message (llama.cpp/tools/server/server.cpp, update_chat_msg). */
module ServerStream {
  import opened Wrappers
  import opened Text
  import opened ChatParser
  import opened ChatDiff
  import opened ReasoningStream
  import opened ServerSlot
  import PartialStop

  datatype Format = Format(syntax: Syntax, startThink: string, endThink: string)

  ghost function ParsedMsg(text: string, isPartial: bool, format: Format): Msg {
    var st := Parse(text, isPartial, format.syntax, format.startThink, format.endThink);
    Msg(st.reasoning, st.content, [])
  }

  // ----- content grows as reasoning does -----

  /** The text does not end inside the start tag. Before the first character, and where no tag is looked for, it
      cannot. */
  predicate Settled(format: Format, s: string) {
    || format.syntax.reasoningFormat.NoReasoning? || format.syntax.thinkingForcedOpen
    || s == "" || !(s < format.startThink)
  }

  /** What was taken for content is not going to be the start tag. */
  ghost predicate NotTakenBack(format: Format, s: string, longer: string) {
    Settled(format, s) || !(format.startThink <= longer)
  }

  /** Formats whose two fields can be streamed: no thinking at all, or thoughts in a field of their own and tags
      that cannot be confused. */
  ghost predicate Streamable(format: Format) {
    || format.syntax.reasoningFormat.NoReasoning?
    || (Extracts(format.syntax)
        && (format.syntax.thinkingForcedOpen || Separated(format.startThink, format.endThink)))
  }

  /** The content of a text whose thoughts begin at `from`: what follows the whole end tag and spaces. */
  ghost function Answer(text: string, isPartial: bool, from: nat, endThink: string): string
    requires from <= |text|
  {
    var found := FindLiteral(text, isPartial, from, endThink);
    if found.None? then "" else text[SkipSpaces(text, found.value.end)..]
  }

  lemma ContentIs(text: string, isPartial: bool, format: Format)
    requires format.syntax.reasoningFormat.NoReasoning? || Extracts(format.syntax)
    ensures var from := ThinkingFrom(text, format.syntax, 0, format.startThink);
            ParsedMsg(text, isPartial, format).content
            == if from.None? then text else Answer(text, isPartial, from.value, format.endThink)
  {
    var parsed := ParseReasoning(text, isPartial, format.syntax, State(0, "", ""), format.startThink, format.endThink);
    assert parsed.0.content == "";
    assert "" + text[parsed.0.pos..] == text[parsed.0.pos..];
    assert text[0..] == text;
  }

  lemma SkippedTailGrows(s: string, longer: string, pos: nat)
    requires s <= longer && pos <= |s|
    ensures s[SkipSpaces(s, pos)..] <= longer[SkipSpaces(longer, pos)..]
  {
    var p := SkipSpaces(s, pos);
    if p < |s| {
      assert SkipSpaces(longer, pos) == p;
    }
  }

  lemma AnswerGrows(s: string, longer: string, isPartial: bool, from: nat, endThink: string)
    requires s <= longer && from <= |s|
    ensures Answer(s, true, from, endThink) <= Answer(longer, isPartial, from, endThink)
  {
    var whole := Find(s, endThink, from);
    if whole.Some? {
      FindIsStable(s, longer, endThink, from);
      SkippedTailGrows(s, longer, whole.value + |endThink|);
    }
  }

  lemma ContentGrows(s: string, longer: string, isPartial: bool, format: Format)
    requires s <= longer && (format.syntax.reasoningFormat.NoReasoning? || Extracts(format.syntax))
    requires NotTakenBack(format, s, longer)
    ensures ParsedMsg(s, true, format).content <= ParsedMsg(longer, isPartial, format).content
  {
    ContentIs(s, true, format);
    ContentIs(longer, isPartial, format);
    OccursInPrefix(s, longer, format.startThink, 0);
    var from := ThinkingFrom(s, format.syntax, 0, format.startThink);
    if from.Some? {
      AnswerGrows(s, longer, isPartial, from.value, format.endThink);
    } else if s != "" {
      assert ThinkingFrom(longer, format.syntax, 0, format.startThink).None?;
    }
  }

  lemma MessageGrows(s: string, longer: string, isPartial: bool, format: Format)
    requires s <= longer && Streamable(format)
    requires NotTakenBack(format, s, longer)
    ensures Grows(ParsedMsg(s, true, format), ParsedMsg(longer, isPartial, format))
  {
    ContentGrows(s, longer, isPartial, format);
    if Extracts(format.syntax) {
      ReasoningGrows(s, longer, isPartial, format.syntax, format.startThink, format.endThink);
    }
  }

  /** Tags that enclose nothing, and one character of an answer. */
  lemma NothingThought(startThink: string, endThink: string, c: char)
    requires !IsSpace(c)
    ensures startThink <= startThink + endThink + [c]
    ensures Answer(startThink + endThink + [c], true, |startThink|, endThink) == [c]
  {
    var from, text := |startThink|, startThink + endThink + [c];
    assert text[from..from + |endThink|] == endThink;
    FindIs(text, endThink, from, from);
    assert text[from + |endThink|..] == [c];
  }

  lemma OpenedContent(format: Format, c: char, longer: string)
    requires Extracts(format.syntax) && !format.syntax.thinkingForcedOpen && !IsSpace(c)
    requires longer == format.startThink + format.endThink + [c]
    ensures ParsedMsg(longer, true, format).content == [c]
  {
    NothingThought(format.startThink, format.endThink, c);
    ContentIs(longer, true, format);
    assert ThinkingFrom(longer, format.syntax, 0, format.startThink) == Some(|format.startThink|);
  }

  lemma CutContent(s: string, format: Format)
    requires Extracts(format.syntax) && !Settled(format, s)
    ensures s != "" && s <= format.startThink && ParsedMsg(s, true, format).content == s
  {
    ContentIs(s, true, format);
    assert ThinkingFrom(s, format.syntax, 0, format.startThink).None?;
  }

  /** A character that `s` does not begin with. */
  function OtherThan(s: string): (c: char)
    requires s != ""
    ensures !IsSpace(c) && !(s <= [c])
  {
    if s[0] == 'a' then 'b' else 'a'
  }

  lemma BeginsLonger(s: string, t: string, u: string)
    requires s <= t
    ensures s <= t + u
  {
  }

  /** Text that goes on may complete the tag, and then what was content is thought: here the tags enclose nothing, and
      the answer begins with something else. */
  lemma TakenBack(s: string, format: Format) returns (longer: string)
    requires Streamable(format) && !Settled(format, s)
    ensures s <= longer && ParsedMsg(s, true, format).content == s
    ensures ParsedMsg(longer, true, format).content != "" && !(s <= ParsedMsg(longer, true, format).content)
  {
    CutContent(s, format);
    var c := OtherThan(s);
    longer := format.startThink + format.endThink + [c];
    BeginsLonger(s, format.startThink, format.endThink);
    BeginsLonger(s, format.startThink + format.endThink, [c]);
    OpenedContent(format, c, longer);
  }

  /** One piece of a format that can be streamed: no text that goes on from it, however it does, takes anything back
      exactly when the piece does not end inside the start tag. */
  lemma PieceIsSafeIff(s: string, format: Format)
    requires Streamable(format)
    ensures Settled(format, s)
       <==> forall longer | s <= longer :: Grows(ParsedMsg(s, true, format), ParsedMsg(longer, true, format))
  {
    if Settled(format, s) {
      forall longer | s <= longer ensures Grows(ParsedMsg(s, true, format), ParsedMsg(longer, true, format)) {
        MessageGrows(s, longer, true, format);
      }
    } else {
      var longer := TakenBack(s, format);
      assert !Grows(ParsedMsg(s, true, format), ParsedMsg(longer, true, format));
    }
  }

  /** All such pieces are safe exactly in the formats whose tags cannot be confused. */
  lemma StreamableIff(format: Format)
    requires Extracts(format.syntax)
    ensures Streamable(format)
       <==> forall s, longer | s <= longer && Settled(format, s) ::
              Grows(ParsedMsg(s, true, format), ParsedMsg(longer, true, format))
  {
    if Streamable(format) {
      forall s, longer | s <= longer && Settled(format, s)
        ensures Grows(ParsedMsg(s, true, format), ParsedMsg(longer, true, format))
      {
        MessageGrows(s, longer, true, format);
      }
    } else {
      ReasoningGrowsIff(format.syntax, format.startThink, format.endThink);
      var k: nat, m: nat, b: nat :| Straddles(format.startThink, format.endThink, k, m, b) && !Blank(format.endThink, 0, b);
      var s, longer := StraddlingIsNotKept(format.syntax, format.startThink, format.endThink, k, m, b);
      assert Settled(format, s) && !Grows(ParsedMsg(s, true, format), ParsedMsg(longer, true, format));
    }
  }

  // ----- whole generations -----

  /** The messages the slot is given; only the last text may be final. */
  ghost function Parses(texts: seq<string>, lastIsPartial: bool, format: Format): (r: seq<Msg>)
    ensures |r| == |texts|
    ensures texts != [] ==> r[0] == ParsedMsg(texts[0], lastIsPartial || |texts| > 1, format)
    decreases |texts|
  {
    if texts == [] then []
    else [ParsedMsg(texts[0], lastIsPartial || |texts| > 1, format)] + Parses(texts[1..], lastIsPartial, format)
  }

  /** Texts that go on from one another after `before`, none of them from inside a start tag that it completes. */
  ghost predicate Generation(before: string, texts: seq<string>, format: Format)
    decreases |texts|
  {
    texts == [] ||
    (before <= texts[0] && NotTakenBack(format, before, texts[0]) && Generation(texts[0], texts[1..], format))
  }

  lemma {:induction false} GenerationIsChain(before: string, texts: seq<string>, lastIsPartial: bool, format: Format)
    requires Streamable(format) && Generation(before, texts, format)
    ensures var msgs, first := Parses(texts, lastIsPartial, format), ParsedMsg(before, true, format);
            && Chain(first, msgs)
            && (texts != [] ==> LastSeen(first, msgs) == ParsedMsg(texts[|texts| - 1], lastIsPartial, format))
    decreases |texts|
  {
    if texts != [] {
      MessageGrows(before, texts[0], lastIsPartial || |texts| > 1, format);
      GenerationIsChain(texts[0], texts[1..], lastIsPartial, format);
      assert Parses(texts, lastIsPartial, format)[1..] == Parses(texts[1..], lastIsPartial, format);
    }
  }

  lemma NothingIsParsed(format: Format)
    requires Streamable(format)
    ensures ParsedMsg("", true, format) == NOTHING
  {
    ContentIs("", true, format);
  }

  /** Over every run, however the text was cut into pieces outside the start tag: no update fails, the client is in
      step after each, and the deltas add up to the parse of the whole text. */
  lemma ClientSeesTheParse(texts: seq<string>, lastIsPartial: bool, format: Format, gen: nat -> string)
    requires texts != [] && Streamable(format) && Generation("", texts, format)
    ensures AlwaysInStep(START, Parses(texts, lastIsPartial, format), gen)
    ensures var run := Run(START, Parses(texts, lastIsPartial, format), gen);
            run.Ok? && ApplyAll(NOTHING, run.value.sent) == ParsedMsg(texts[|texts| - 1], lastIsPartial, format)
  {
    NothingIsParsed(format);
    GenerationIsChain("", texts, lastIsPartial, format);
    RunInStepIff(START, NOTHING, Parses(texts, lastIsPartial, format), gen);
  }

  // ----- runs that go on -----

  lemma {:induction false} ChainGoesOn(last: Msg, msgs: seq<Msg>, newMsg: Msg)
    ensures Chain(last, msgs + [newMsg])
       <==> Chain(last, msgs) && (newMsg.Empty() || GrowsButIds(LastSeen(last, msgs), newMsg))
    decreases |msgs|
  {
    if msgs == [] {
      assert msgs + [newMsg] == [newMsg] && [newMsg][1..] == [];
      assert Chain(newMsg, []);
    } else {
      assert (msgs + [newMsg])[1..] == msgs[1..] + [newMsg];
      ChainGoesOn(if msgs[0].Empty() then last else msgs[0], msgs[1..], newMsg);
    }
  }

  lemma {:induction false} ParsesGoOn(texts: seq<string>, text: string, format: Format)
    ensures Parses(texts + [text], true, format) == Parses(texts, true, format) + [ParsedMsg(text, true, format)]
    decreases |texts|
  {
    if texts == [] {
      assert texts + [text] == [text] && [text][1..] == [];
      assert Parses([], true, format) == [];
    } else {
      assert (texts + [text])[1..] == texts[1..] + [text];
      ParsesGoOn(texts[1..], text, format);
    }
  }

  ghost predicate StaysInStep(texts: seq<string>, text: string, format: Format, gen: nat -> string) {
    AlwaysInStep(START, Parses(texts + [text], true, format), gen)
  }

  /** A run that was in step so far stays so, whatever the model writes next, exactly when its last text does not end
      inside the start tag. */
  lemma RunIsSafeIff(texts: seq<string>, format: Format, gen: nat -> string)
    requires texts != [] && Streamable(format) && Generation("", texts, format)
    ensures var s := texts[|texts| - 1];
            Settled(format, s) <==> forall longer | s <= longer :: StaysInStep(texts, longer, format, gen)
  {
    var s := texts[|texts| - 1];
    var msgs := Parses(texts, true, format);
    NothingIsParsed(format);
    GenerationIsChain("", texts, true, format);
    if Settled(format, s) {
      forall longer | s <= longer ensures StaysInStep(texts, longer, format, gen) {
        MessageGrows(s, longer, true, format);
        StepIsJudged(texts, longer, format, gen);
      }
    } else {
      var longer := TakenBack(s, format);
      StepIsJudged(texts, longer, format, gen);
    }
  }

  lemma StepIsJudged(texts: seq<string>, text: string, format: Format, gen: nat -> string)
    requires Chain(NOTHING, Parses(texts, true, format))
    ensures StaysInStep(texts, text, format, gen) <==>
            var newMsg := ParsedMsg(text, true, format);
            newMsg.Empty() || GrowsButIds(LastSeen(NOTHING, Parses(texts, true, format)), newMsg)
  {
    ParsesGoOn(texts, text, format);
    RunInStepIff(START, NOTHING, Parses(texts + [text], true, format), gen);
    ChainGoesOn(NOTHING, Parses(texts, true, format), ParsedMsg(text, true, format));
  }

  // ----- a run that is not safe -----

  /** A piece that ends inside the start tag is taken for content. */
  lemma CutStartTagIsContent(format: Format)
    requires Extracts(format.syntax) && !format.syntax.thinkingForcedOpen && format.startThink == "<think>"
    ensures ParsedMsg("<think", true, format) == Msg("", "<think", [])
  {
    ContentIs("<think", true, format);
    ReasoningIs("<think", true, format.syntax, format.startThink, format.endThink);
  }

  /** A text whose last character is not in a literal holds no beginning of it at its end. */
  lemma NoBeginningWithoutItsCharacter(text: string, literal: string)
    requires text != [] && text[|text| - 1] !in literal
    ensures PartialStop.Start(text, literal).None?
  {
    var start := PartialStop.Start(text, literal);
    if start.Some? {
      PartialStop.LastCharacterMatches(text, literal, start.value);
    }
  }

  lemma WholeStartTagIsFound(format: Format)
    requires Extracts(format.syntax) && !format.syntax.thinkingForcedOpen
    requires format.startThink == "<think>" && format.endThink == "</think>"
    ensures ThinkingFrom("<think>a", format.syntax, 0, format.startThink) == Some(7)
    ensures FindLiteral("<think>a", true, 7, format.endThink).None?
  {
    var text := "<think>a";
    NoBeginningWithoutItsCharacter(text, format.endThink);
    assert text[..7] == format.startThink;
  }

  lemma WholeStartTagIsThought(format: Format)
    requires Extracts(format.syntax) && !format.syntax.thinkingForcedOpen
    requires format.startThink == "<think>" && format.endThink == "</think>"
    ensures ParsedMsg("<think>a", true, format) == Msg("a", "", [])
  {
    WholeStartTagIsFound(format);
    ContentIs("<think>a", true, format);
    ReasoningIs("<think>a", true, format.syntax, format.startThink, format.endThink);
    assert "<think>a"[7..8] == "a";
    StripIs("a", 0, 1);
  }

  /** No update fails, and the client keeps as content what is no longer in the message. */
  lemma CutStartTagIsNotTakenBack(format: Format, gen: nat -> string)
    requires Extracts(format.syntax) && !format.syntax.thinkingForcedOpen
    requires format.startThink == "<think>" && format.endThink == "</think>"
    ensures var run := Run(START, Parses(["<think", "<think>a"], true, format), gen);
            && run.Ok? && run.value.chatMsg == Msg("a", "", [])
            && ApplyAll(NOTHING, run.value.sent) == Msg("a", "<think", [])
  {
    CutStartTagIsContent(format);
    WholeStartTagIsThought(format);
    var first, second := Msg("", "<think", []), Msg("a", "", []);
    var msgs := Parses(["<think", "<think>a"], true, format);
    assert Parses(["<think>a"], true, format) == [second] && ["<think", "<think>a"][1..] == ["<think>a"];
    assert msgs == [first, second] && msgs[1..] == [second] && [second][1..] == [];
    FailsUnlessComparable(NOTHING, first);
    FailsUnlessComparable(first, second);
    var sent, more := Diffs(NOTHING, first).value, Diffs(first, second).value;
    assert [] + sent == sent && WithIds([], []) == [];
    var after := View(first, [], sent);
    assert Receive(START, first, gen) == Ok(after);
    assert Receive(after, second, gen) == Ok(View(second, [], sent + more));
    assert Run(View(second, [], sent + more), [], gen).Ok?;
    assert Run(after, [second], gen) == Run(View(second, [], sent + more), [second][1..], gen);
    assert Run(START, msgs, gen) == Run(after, msgs[1..], gen);
    ReconstructsIffGrows(NOTHING, first);
    AppliedDiffs(first, second);
    ApplyAllConcat(NOTHING, sent, more);
  }
}
