/** What the parser makes of texts of the usual shapes: thoughts between their tags with spaces around them, thoughts
    that are not closed, and no thoughts at all (llama.cpp/common/chat-parser.cpp:131-172). */
module TaggedText {
  import opened Wrappers
  import opened Text
  import opened ChatParser
  import PartialStop

  /** The tag that is read before the thoughts. */
  function Opener(syntax: Syntax, startThink: string): string {
    if syntax.thinkingForcedOpen then "" else startThink
  }

  /** How thoughts are shown in the content: one format has tags of its own for that, the others keep the model's. */
  function Shown(syntax: Syntax, t: string, closed: bool, startThink: string, endThink: string): string {
    if t == "" then ""
    else if syntax.reasoningFormat == Deepseek then "<think>" + t + (if closed then "</think>" else "")
    else startThink + t + (if closed then endThink else "")
  }

  /** Thoughts `t` and content `rest`, or both in the content. */
  ghost predicate Holds(st: State, syntax: Syntax, t: string, closed: bool, startThink: string, endThink: string, rest: string) {
    if syntax.reasoningInContent then
      st.reasoning == "" && st.content == Shown(syntax, t, closed, startThink, endThink) + rest
    else st.reasoning == t && st.content == rest
  }

  /** `literal` does not begin between `from` and `to`. */
  ghost predicate NotBetween(input: string, literal: string, from: nat, to: nat) {
    forall j: nat {:trigger OccursAt(input, literal, j)} :: from <= j < to ==> !OccursAt(input, literal, j)
  }

  lemma ShownIs(syntax: Syntax, t: string, closed: bool, startThink: string, endThink: string, rest: string)
    requires syntax.reasoningInContent && t != ""
    ensures var opening := if syntax.reasoningFormat == Deepseek then "<think>" else startThink;
            var closing := if !closed then "" else if syntax.reasoningFormat == Deepseek then "</think>" else endThink;
            "" + opening + t + closing + rest == Shown(syntax, t, closed, startThink, endThink) + rest
  {
  }

  /** What follows from stripped thoughts alone. */
  lemma Handled(syntax: Syntax, thoughts: string, t: string, closed: bool, startThink: string, endThink: string, rest: string)
    requires Strip(thoughts) == t
    ensures var st := HandleReasoning(syntax, State(0, "", ""), thoughts, closed, startThink, endThink);
            Holds(st.(content := st.content + rest), syntax, t, closed, startThink, endThink, rest)
  {
    assert "" + t == t && "" + rest == rest;
    if t != "" && syntax.reasoningInContent {
      ShownIs(syntax, t, closed, startThink, endThink, rest);
    }
  }

  lemma OpenerIsRead(syntax: Syntax, startThink: string, rest: string)
    requires !syntax.reasoningFormat.NoReasoning?
    ensures ThinkingFrom(Opener(syntax, startThink) + rest, syntax, 0, startThink) == Some(|Opener(syntax, startThink)|)
  {
    assert (Opener(syntax, startThink) + rest)[..|Opener(syntax, startThink)|] == Opener(syntax, startThink);
  }

  /** Thoughts from `from` to `begin`, and content from `next` on. */
  lemma FoundThoughts(input: string, isPartial: bool, syntax: Syntax, startThink: string, endThink: string,
                      from: nat, begin: nat, end: nat, next: nat, t: string)
    requires ThinkingFrom(input, syntax, 0, startThink) == Some(from) && from <= begin <= end <= next <= |input|
    requires FindLiteral(input, isPartial, from, endThink) == Some(Found(input[from..begin], begin, end))
    requires Strip(input[from..begin]) == t && SkipSpaces(input, end) == next
    ensures Holds(Parse(input, isPartial, syntax, startThink, endThink), syntax, t, true, startThink, endThink, input[next..])
  {
    Handled(syntax, input[from..begin], t, true, startThink, endThink, input[next..]);
  }

  lemma EndTagIsFound(input: string, isPartial: bool, before: string, endThink: string, after: string, from: nat)
    requires input == before + endThink + after && from <= |before| && NotBetween(input, endThink, from, |before|)
    ensures FindLiteral(input, isPartial, from, endThink)
         == Some(Found(input[from..|before|], |before|, |before + endThink|))
  {
    assert input[|before|..|before + endThink|] == endThink;
    FindIs(input, endThink, from, |before|);
  }

  /** Where the parts of such a text begin and end. */
  lemma Parts(input: string, opener: string, prelude: string, endThink: string, pad: string, answer: string)
    requires input == opener + prelude + endThink + (pad + answer)
    ensures input == opener + (prelude + endThink + (pad + answer))
    ensures input == (opener + prelude + endThink) + pad + answer
    ensures input[|opener|..|opener + prelude|] == prelude
    ensures input[|opener + prelude + endThink + pad|..] == answer
  {
  }

  /** Closed thoughts: the spaces around them and before the answer are gone, and nothing else is. */
  lemma ClosedThoughts(input: string, isPartial: bool, syntax: Syntax, startThink: string, endThink: string,
                       pad: string, t: string, pad': string, pad'': string, answer: string)
    requires !syntax.reasoningFormat.NoReasoning?
    requires input == Opener(syntax, startThink) + (pad + t + pad') + endThink + (pad'' + answer)
    requires OnlySpaces(pad) && Bare(t) && OnlySpaces(pad') && OnlySpaces(pad'')
    requires answer == "" || !IsOneOfSix(answer[0])
    requires var from := |Opener(syntax, startThink)|; NotBetween(input, endThink, from, from + |pad + t + pad'|)
    ensures Holds(Parse(input, isPartial, syntax, startThink, endThink), syntax, t, true, startThink, endThink, answer)
  {
    var opener, prelude := Opener(syntax, startThink), pad + t + pad';
    var before, end := opener + prelude, |opener + prelude + endThink|;
    Parts(input, opener, prelude, endThink, pad'', answer);
    OpenerIsRead(syntax, startThink, prelude + endThink + (pad'' + answer));
    EndTagIsFound(input, isPartial, before, endThink, pad'' + answer, |opener|);
    StripTakesSpacesOff(pad, t, pad');
    SkipTakesSpaces(before + endThink, pad'', answer);
    FoundThoughts(input, isPartial, syntax, startThink, endThink, |opener|, |before|, end, end + |pad''|, t);
  }

  /** Thoughts of a partial text that ends with a beginning of the end tag: it is taken for the end tag. */
  lemma CutThoughts(input: string, syntax: Syntax, startThink: string, endThink: string,
                    pad: string, t: string, pad': string, tail: string)
    requires !syntax.reasoningFormat.NoReasoning?
    requires input == Opener(syntax, startThink) + (pad + t + pad') + tail && tail != "" && tail <= endThink
    requires OnlySpaces(pad) && Bare(t) && OnlySpaces(pad')
    requires NotBetween(input, endThink, |Opener(syntax, startThink)|, |input| + 1)
    requires forall i: nat :: i < |input| - |tail| ==> !PartialStop.BeginsAt(input, endThink, i)
    ensures Holds(Parse(input, true, syntax, startThink, endThink), syntax, t, true, startThink, endThink, "")
  {
    var opener, prelude := Opener(syntax, startThink), pad + t + pad';
    var from, begin := |opener|, |opener + prelude|;
    assert input == opener + (prelude + tail);
    OpenerIsRead(syntax, startThink, prelude + tail);
    assert input[begin..] == tail;
    assert PartialStop.BeginsAt(input, endThink, begin);
    assert input[from..begin] == prelude && input[|input|..] == "";
    StripTakesSpacesOff(pad, t, pad');
    FoundThoughts(input, true, syntax, startThink, endThink, from, begin, |input|, |input|, t);
  }

  /** Thoughts that are not closed, in a whole text or in a partial one that does not end with a beginning of the end
      tag. Only those of a whole text are shown closed. */
  lemma OpenThoughts(input: string, isPartial: bool, syntax: Syntax, startThink: string, endThink: string,
                     pad: string, t: string, pad': string)
    requires !syntax.reasoningFormat.NoReasoning?
    requires input == Opener(syntax, startThink) + (pad + t + pad')
    requires OnlySpaces(pad) && Bare(t) && OnlySpaces(pad')
    requires NotBetween(input, endThink, |Opener(syntax, startThink)|, |input| + 1)
    requires isPartial ==> forall i: nat :: !PartialStop.BeginsAt(input, endThink, i)
    ensures Holds(Parse(input, isPartial, syntax, startThink, endThink), syntax, t, !isPartial, startThink, endThink, "")
  {
    OpenerIsRead(syntax, startThink, pad + t + pad');
    var from := |Opener(syntax, startThink)|;
    assert input[from..] == pad + t + pad' && input[|input|..] == "";
    StripTakesSpacesOff(pad, t, pad');
    Handled(syntax, input[from..], t, !isPartial, startThink, endThink, "");
  }

  /** No thoughts: none are looked for, or the text does not begin with the start tag. */
  lemma NoThoughts(input: string, isPartial: bool, syntax: Syntax, startThink: string, endThink: string)
    requires syntax.reasoningFormat.NoReasoning? || (!syntax.thinkingForcedOpen && !(startThink <= input))
    ensures Parse(input, isPartial, syntax, startThink, endThink) == State(|input|, input, "")
  {
    assert "" + input[0..] == input;
  }
}
