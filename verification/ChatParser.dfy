/** The cursor over model output and its handling of thinking tags (llama.cpp/common/chat-parser.cpp). */
module ChatParser {
  import opened Wrappers
  import opened Text
  import PartialStop

  datatype ReasoningFormat = NoReasoning | DeepseekLegacy | Deepseek

  datatype Syntax = Syntax(reasoningFormat: ReasoningFormat, reasoningInContent: bool, thinkingForcedOpen: bool)

  /** A literal that was found, whole or cut short by the end of a partial input. */
  datatype Found = Found(prelude: string, begin: nat, end: nat)

  /** What the parser has made of the input up to `pos`. */
  datatype State = State(pos: nat, content: string, reasoning: string)

  // ----- what the operations compute -----

  ghost function FindLiteral(input: string, isPartial: bool, pos: nat, literal: string): (r: Option<Found>)
    requires pos <= |input|
    ensures r.Some? ==> pos <= r.value.begin <= r.value.end <= |input|
    ensures r.Some? ==> r.value.prelude == input[pos..r.value.begin]
  {
    var whole := Find(input, literal, pos);
    if whole.Some? then
      Some(Found(input[pos..whole.value], whole.value, whole.value + |literal|))
    else
      var cut := PartialStop.Start(input, literal);
      if isPartial && cut.Some? && pos <= cut.value then
        Some(Found(input[pos..cut.value], cut.value, |input|))
      else None
  }

  ghost function HandleReasoning(syntax: Syntax, st: State, reasoning: string, closed: bool,
                                 startThink: string, endThink: string): (r: State)
    ensures r.pos == st.pos
  {
    var stripped := Strip(reasoning);
    if stripped == [] then st
    else if syntax.reasoningInContent then
      var opening := if syntax.reasoningFormat.Deepseek? then "<think>" else startThink;
      var closing := if !closed then "" else if syntax.reasoningFormat.Deepseek? then "</think>" else endThink;
      st.(content := st.content + opening + stripped + closing)
    else st.(reasoning := st.reasoning + stripped)
  }

  /** Whether the parser is inside the thinking block, and from where, when it starts at `pos`. */
  ghost function ThinkingFrom(input: string, syntax: Syntax, pos: nat, startThink: string): (r: Option<nat>)
    requires pos <= |input|
    ensures r.Some? ==> pos <= r.value <= |input|
  {
    if syntax.reasoningFormat.NoReasoning? then None
    else if syntax.thinkingForcedOpen then Some(pos)
    else if OccursAt(input, startThink, pos) then Some(pos + |startThink|)
    else None
  }

  ghost function ParseReasoning(input: string, isPartial: bool, syntax: Syntax, st: State,
                                startThink: string, endThink: string): (r: (State, bool))
    requires st.pos <= |input|
    ensures st.pos <= r.0.pos <= |input|
  {
    var from := ThinkingFrom(input, syntax, st.pos, startThink);
    if from.None? then (st, false)
    else
      var found := FindLiteral(input, isPartial, from.value, endThink);
      if found.Some? then
        var handled := HandleReasoning(syntax, st, found.value.prelude, true, startThink, endThink);
        (handled.(pos := SkipSpaces(input, found.value.end)), true)
      else
        var handled := HandleReasoning(syntax, st, input[from.value..], !isPartial, startThink, endThink);
        (handled.(pos := |input|), true)
  }

  /** `common_chat_parse` for the formats that read thoughts and then take the rest as content. */
  ghost function Parse(input: string, isPartial: bool, syntax: Syntax, startThink: string, endThink: string): State {
    var st := ParseReasoning(input, isPartial, syntax, State(0, "", ""), startThink, endThink).0;
    State(|input|, st.content + input[st.pos..], st.reasoning)
  }

  // ----- the parser object -----

  class MsgParser {
    const input: string
    const isPartial: bool
    const syntax: Syntax
    var pos: nat
    var content: string
    var reasoning: string

    ghost predicate Valid()
      reads this
    {
      pos <= |input|
    }

    ghost function Abs(): State
      reads this
    {
      State(pos, content, reasoning)
    }

    constructor (input: string, isPartial: bool, syntax: Syntax)
      ensures Valid() && Abs() == State(0, "", "")
      ensures this.input == input && this.isPartial == isPartial && this.syntax == syntax
    {
      this.input, this.isPartial, this.syntax := input, isPartial, syntax;
      pos, content, reasoning := 0, "", "";
    }

    method ConsumeSpaces() returns (consumed: bool)
      requires Valid()
      modifies this`pos
      ensures Valid() && pos == SkipSpaces(input, old(pos))
      ensures consumed <==> old(pos) < |input| && IsSpace(input[old(pos)])
    {
      consumed := false;
      while pos < |input| && IsSpace(input[pos])
        invariant old(pos) <= pos <= |input| && Blank(input, old(pos), pos)
        invariant consumed <==> old(pos) < pos
      {
        pos := pos + 1;
        consumed := true;
      }
    }

    method TryConsumeLiteral(literal: string) returns (ok: bool)
      requires Valid()
      modifies this`pos
      ensures Valid() && (ok <==> OccursAt(input, literal, old(pos)))
      ensures pos == if ok then old(pos) + |literal| else old(pos)
    {
      var p := pos;
      for i := 0 to |literal|
        invariant p == pos + i <= |input|
        invariant input[pos..p] == literal[..i]
      {
        if p >= |input| || input[p] != literal[i] {
          assert pos + |literal| <= |input| ==> input[pos..pos + |literal|][i] == input[p];
          return false;
        }
        assert input[pos..p + 1] == input[pos..p] + [input[p]] && literal[..i + 1] == literal[..i] + [literal[i]];
        p := p + 1;
      }
      pos := p;
      return true;
    }

    method TryFindLiteral(literal: string) returns (r: Option<Found>)
      requires Valid()
      modifies this`pos
      ensures Valid() && r == FindLiteral(input, isPartial, old(pos), literal)
      ensures pos == if r.Some? then r.value.end else old(pos)
    {
      var idx := Find(input, literal, pos);
      if idx.Some? {
        var end := idx.value + |literal|;
        r := Some(Found(input[pos..idx.value], idx.value, end));
        pos := end;
        return;
      }
      if isPartial {
        idx := PartialStop.FindPartialStop(input, literal);
        if idx.Some? && idx.value >= pos {
          r := Some(Found(input[pos..idx.value], idx.value, |input|));
          pos := |input|;
          return;
        }
      }
      return None;
    }

    method ConsumeRest() returns (rest: string)
      requires Valid()
      modifies this`pos
      ensures Valid() && rest == input[old(pos)..] && pos == |input|
    {
      rest := input[pos..];
      pos := |input|;
    }

    method AddReasoning(text: string, closed: bool, startThink: string, endThink: string)
      modifies this`content, this`reasoning
      ensures Abs() == HandleReasoning(syntax, old(Abs()), text, closed, startThink, endThink)
    {
      var stripped := StripString(text);
      if stripped == [] {
        return;
      }
      if syntax.reasoningInContent {
        content := content + if syntax.reasoningFormat.Deepseek? then "<think>" else startThink;
        content := content + stripped;
        if closed {
          content := content + if syntax.reasoningFormat.Deepseek? then "</think>" else endThink;
        }
      } else {
        reasoning := reasoning + stripped;
      }
    }

    method TryParseReasoning(startThink: string, endThink: string) returns (ok: bool)
      requires Valid()
      modifies this
      ensures Valid()
      ensures (Abs(), ok) == ParseReasoning(input, isPartial, syntax, old(Abs()), startThink, endThink)
    {
      if !syntax.reasoningFormat.NoReasoning? {
        var inside := syntax.thinkingForcedOpen;
        if !inside {
          inside := TryConsumeLiteral(startThink);
        }
        if inside {
          var res := TryFindLiteral(endThink);
          if res.Some? {
            AddReasoning(res.value.prelude, true, startThink, endThink);
            var _ := ConsumeSpaces();
            return true;
          }
          var rest := ConsumeRest();
          if rest != [] {
            AddReasoning(rest, !isPartial, startThink, endThink);
          }
          return true;
        }
      }
      return false;
    }

    /** The body of the formats that parse no tool calls: thoughts, then everything else is content. */
    method ParseThoughtsThenContent(startThink: string, endThink: string)
      requires Valid() && Abs() == State(0, "", "")
      modifies this
      ensures Valid() && Abs() == Parse(input, isPartial, syntax, startThink, endThink)
    {
      var _ := TryParseReasoning(startThink, endThink);
      var rest := ConsumeRest();
      content := content + rest;
    }
  }
}
