/** The deltas sent to a streaming client (llama.cpp/common/chat.cpp, common_chat_msg_diff). */
module ChatDiff {
  import opened Wrappers

  datatype ToolCall = ToolCall(name: string, arguments: string, id: string)

  const NO_CALL := ToolCall("", "", "")

  datatype Msg = Msg(reasoning: string, content: string, toolCalls: seq<ToolCall>) {
    predicate Empty() {
      reasoning == [] && content == [] && toolCalls == []
    }
  }

  datatype Diff = Diff(reasoningDelta: string, contentDelta: string, toolCallIndex: Option<nat>, toolCallDelta: ToolCall)

  datatype DiffError = NotAnExtension | FewerToolCalls | ToolCallMismatch

  /** `string_diff`: what to append to `last` to get `current`; nothing when `last` ended on an erased stop word. */
  function StringDiff(last: string, current: string): Result<string, DiffError> {
    if last == [] then Ok(current)
    else if !(last <= current) then
      if current <= last then Ok("") else Err(NotAnExtension)
    else Ok(current[|last|..])
  }

  // ----- what compute_diffs computes -----

  function TextDiff(last: string, current: string, toDiff: string -> Diff): Result<seq<Diff>, DiffError> {
    if last == current then Ok([])
    else
      var delta := StringDiff(last, current);
      if delta.Err? then Err(delta.error) else Ok([toDiff(delta.value)])
  }

  function LastCallDiff(previous: Msg, current: Msg): Result<seq<Diff>, DiffError>
    requires |previous.toolCalls| <= |current.toolCalls|
  {
    if previous.toolCalls == [] then Ok([])
    else
      var idx := |previous.toolCalls| - 1;
      var pref, newf := previous.toolCalls[idx], current.toolCalls[idx];
      if pref.name != newf.name then Err(ToolCallMismatch)
      else
        var args := StringDiff(pref.arguments, newf.arguments);
        if args.Err? then Err(args.error)
        else if args.value == [] && pref.id == newf.id then Ok([])
        else if pref.id != newf.id then Ok([Diff("", "", Some(idx), ToolCall(newf.name, args.value, newf.id))])
        else Ok([Diff("", "", Some(idx), ToolCall("", args.value, ""))])
  }

  function NewCallDiffs(current: Msg, from: nat): seq<Diff>
    requires from <= |current.toolCalls|
    decreases |current.toolCalls| - from
  {
    if from == |current.toolCalls| then []
    else [Diff("", "", Some(from), current.toolCalls[from])] + NewCallDiffs(current, from + 1)
  }

  function ReasoningDiff(previous: Msg, current: Msg): Result<seq<Diff>, DiffError> {
    TextDiff(previous.reasoning, current.reasoning, delta => Diff(delta, "", None, NO_CALL))
  }

  function ContentDiff(previous: Msg, current: Msg): Result<seq<Diff>, DiffError> {
    TextDiff(previous.content, current.content, delta => Diff("", delta, None, NO_CALL))
  }

  function Diffs(previous: Msg, current: Msg): Result<seq<Diff>, DiffError> {
    var r := ReasoningDiff(previous, current);
    if r.Err? then r else
    var c := ContentDiff(previous, current);
    if c.Err? then c else
    if |current.toolCalls| < |previous.toolCalls| then Err(FewerToolCalls) else
    var l := LastCallDiff(previous, current);
    if l.Err? then l else
    Ok(r.value + c.value + l.value + NewCallDiffs(current, |previous.toolCalls|))
  }

  /** `common_chat_msg_diff::compute_diffs`, appending to a list of deltas. */
  method ComputeDiffs(previousMsg: Msg, newMsg: Msg) returns (r: Result<seq<Diff>, DiffError>)
    ensures r == Diffs(previousMsg, newMsg)
  {
    var diffs := [];
    if previousMsg.reasoning != newMsg.reasoning {
      var delta := StringDiff(previousMsg.reasoning, newMsg.reasoning);
      if delta.Err? {
        return Err(delta.error);
      }
      diffs := diffs + [Diff(delta.value, "", None, NO_CALL)];
    }
    assert diffs == ReasoningDiff(previousMsg, newMsg).value;
    if previousMsg.content != newMsg.content {
      var delta := StringDiff(previousMsg.content, newMsg.content);
      if delta.Err? {
        return Err(delta.error);
      }
      diffs := diffs + [Diff("", delta.value, None, NO_CALL)];
    }
    assert diffs == ReasoningDiff(previousMsg, newMsg).value + ContentDiff(previousMsg, newMsg).value;
    if |newMsg.toolCalls| < |previousMsg.toolCalls| {
      return Err(FewerToolCalls);
    }
    if previousMsg.toolCalls != [] {
      var idx := |previousMsg.toolCalls| - 1;
      var pref, newf := previousMsg.toolCalls[idx], newMsg.toolCalls[idx];
      if pref.name != newf.name {
        return Err(ToolCallMismatch);
      }
      var argsDiff := StringDiff(pref.arguments, newf.arguments);
      if argsDiff.Err? {
        return Err(argsDiff.error);
      }
      if argsDiff.value != [] || pref.id != newf.id {
        var delta := NO_CALL;
        if pref.id != newf.id {
          delta := delta.(id := newf.id, name := newf.name);
        }
        diffs := diffs + [Diff("", "", Some(idx), delta.(arguments := argsDiff.value))];
      }
    }
    ghost var before := diffs;
    assert before == ReasoningDiff(previousMsg, newMsg).value + ContentDiff(previousMsg, newMsg).value
                     + LastCallDiff(previousMsg, newMsg).value;
    for idx := |previousMsg.toolCalls| to |newMsg.toolCalls|
      invariant before + NewCallDiffs(newMsg, |previousMsg.toolCalls|) == diffs + NewCallDiffs(newMsg, idx)
    {
      assert diffs + NewCallDiffs(newMsg, idx)
          == diffs + [Diff("", "", Some(idx), newMsg.toolCalls[idx])] + NewCallDiffs(newMsg, idx + 1);
      diffs := diffs + [Diff("", "", Some(idx), newMsg.toolCalls[idx])];
    }
    assert diffs == diffs + NewCallDiffs(newMsg, |newMsg.toolCalls|);
    r := Ok(diffs);
  }

  // ----- the client at the other end -----

  /** A client appends text deltas, and keeps the name and id of a call unless it is sent others. */
  function Merge(call: ToolCall, delta: ToolCall): ToolCall {
    ToolCall(if delta.name != [] then delta.name else call.name,
             call.arguments + delta.arguments,
             if delta.id != [] then delta.id else call.id)
  }

  function Apply(msg: Msg, diff: Diff): Msg {
    var calls := msg.toolCalls;
    Msg(msg.reasoning + diff.reasoningDelta,
        msg.content + diff.contentDelta,
        if diff.toolCallIndex.None? then calls
        else
          var idx := diff.toolCallIndex.value;
          if idx < |calls| then calls[idx := Merge(calls[idx], diff.toolCallDelta)]
          else calls + [diff.toolCallDelta])
  }

  function ApplyAll(msg: Msg, diffs: seq<Diff>): Msg
    decreases |diffs|
  {
    if diffs == [] then msg else ApplyAll(Apply(msg, diffs[0]), diffs[1..])
  }

  lemma {:induction false} ApplyAllConcat(msg: Msg, first: seq<Diff>, second: seq<Diff>)
    ensures ApplyAll(msg, first + second) == ApplyAll(ApplyAll(msg, first), second)
    decreases |first|
  {
    if first == [] {
      assert first + second == second;
    } else {
      assert (first + second)[1..] == first[1..] + second;
      ApplyAllConcat(Apply(msg, first[0]), first[1..], second);
    }
  }

  lemma {:induction false} ApplyNewCalls(msg: Msg, current: Msg)
    requires |msg.toolCalls| <= |current.toolCalls|
    ensures ApplyAll(msg, NewCallDiffs(current, |msg.toolCalls|))
         == msg.(toolCalls := msg.toolCalls + current.toolCalls[|msg.toolCalls|..])
    decreases |current.toolCalls| - |msg.toolCalls|
  {
    var n := |msg.toolCalls|;
    if n == |current.toolCalls| {
      assert msg.toolCalls + current.toolCalls[n..] == msg.toolCalls;
    } else {
      var next := Apply(msg, Diff("", "", Some(n), current.toolCalls[n]));
      assert next == msg.(toolCalls := msg.toolCalls + [current.toolCalls[n]]);
      ApplyNewCalls(next, current);
      assert next.toolCalls + current.toolCalls[n + 1..] == msg.toolCalls + current.toolCalls[n..];
    }
  }

  // ----- when the client ends up with the message -----

  /** Text only gets longer, earlier calls and the last call's name stay, and an id is not taken away. */
  ghost predicate Grows(previous: Msg, current: Msg) {
    && previous.reasoning <= current.reasoning
    && previous.content <= current.content
    && |previous.toolCalls| <= |current.toolCalls|
    && (previous.toolCalls != [] ==>
          var idx := |previous.toolCalls| - 1;
          && previous.toolCalls[..idx] == current.toolCalls[..idx]
          && CallGrows(previous.toolCalls[idx], current.toolCalls[idx]))
  }

  ghost predicate CallGrows(pref: ToolCall, newf: ToolCall) {
    pref.name == newf.name && pref.arguments <= newf.arguments && (pref.id == newf.id || newf.id != [])
  }

  ghost predicate Comparable(a: string, b: string) {
    a <= b || b <= a
  }

  /** Exactly when the deltas can be computed at all. */
  lemma FailsUnlessComparable(previous: Msg, current: Msg)
    ensures Diffs(previous, current).Ok? <==>
            && Comparable(previous.reasoning, current.reasoning)
            && Comparable(previous.content, current.content)
            && |previous.toolCalls| <= |current.toolCalls|
            && (previous.toolCalls != [] ==>
                  var idx := |previous.toolCalls| - 1;
                  && previous.toolCalls[idx].name == current.toolCalls[idx].name
                  && Comparable(previous.toolCalls[idx].arguments, current.toolCalls[idx].arguments))
  {
  }

  lemma ApplyOne(msg: Msg, diff: Diff)
    ensures ApplyAll(msg, [diff]) == Apply(msg, diff)
  {
    assert ApplyAll(msg, [diff]) == ApplyAll(Apply(msg, diff), []);
  }

  lemma ApplyReasoning(msg: Msg, previous: Msg, current: Msg)
    requires ReasoningDiff(previous, current).Ok?
    ensures ApplyAll(msg, ReasoningDiff(previous, current).value)
         == msg.(reasoning := msg.reasoning + StringDiff(previous.reasoning, current.reasoning).value)
  {
    var d := ReasoningDiff(previous, current).value;
    assert msg.reasoning + "" == msg.reasoning && msg.content + "" == msg.content;
    if d != [] {
      ApplyOne(msg, d[0]);
    }
  }

  lemma ApplyContent(msg: Msg, previous: Msg, current: Msg)
    requires ContentDiff(previous, current).Ok?
    ensures ApplyAll(msg, ContentDiff(previous, current).value)
         == msg.(content := msg.content + StringDiff(previous.content, current.content).value)
  {
    var d := ContentDiff(previous, current).value;
    assert msg.reasoning + "" == msg.reasoning && msg.content + "" == msg.content;
    if d != [] {
      ApplyOne(msg, d[0]);
    }
  }

  /** The last old call, merged with what changed in it. */
  ghost function MergedLast(previous: Msg, current: Msg): ToolCall
    requires 0 < |previous.toolCalls| <= |current.toolCalls| && LastCallDiff(previous, current).Ok?
  {
    var idx := |previous.toolCalls| - 1;
    var pref, newf := previous.toolCalls[idx], current.toolCalls[idx];
    ToolCall(pref.name,
             pref.arguments + StringDiff(pref.arguments, newf.arguments).value,
             if newf.id != [] then newf.id else pref.id)
  }

  lemma ApplyLastCall(msg: Msg, previous: Msg, current: Msg)
    requires |previous.toolCalls| <= |current.toolCalls| && LastCallDiff(previous, current).Ok?
    requires msg.toolCalls == previous.toolCalls
    ensures ApplyAll(msg, LastCallDiff(previous, current).value)
         == if msg.toolCalls == [] then msg
            else msg.(toolCalls := msg.toolCalls[|msg.toolCalls| - 1 := MergedLast(previous, current)])
  {
    if previous.toolCalls != [] {
      var l := LastCallDiff(previous, current).value;
      var idx := |previous.toolCalls| - 1;
      var pref := msg.toolCalls[idx];
      assert msg.reasoning + "" == msg.reasoning && msg.content + "" == msg.content;
      assert pref.arguments + "" == pref.arguments;
      if l == [] {
        assert MergedLast(previous, current) == pref;
      } else {
        ApplyOne(msg, l[0]);
        assert MergedLast(previous, current) == Merge(pref, l[0].toolCallDelta);
      }
    }
  }

  /** The client's calls: the last old one merged with what changed, then the new ones. */
  ghost function ReceivedCalls(previous: Msg, current: Msg): seq<ToolCall>
    requires |previous.toolCalls| <= |current.toolCalls| && LastCallDiff(previous, current).Ok?
  {
    var was := previous.toolCalls;
    (if was == [] then [] else was[|was| - 1 := MergedLast(previous, current)]) + current.toolCalls[|was|..]
  }

  /** What the client holds after the deltas, whether or not the message only grew. */
  lemma AppliedDiffs(previous: Msg, current: Msg)
    requires Diffs(previous, current).Ok?
    ensures ApplyAll(previous, Diffs(previous, current).value)
         == Msg(previous.reasoning + StringDiff(previous.reasoning, current.reasoning).value,
                previous.content + StringDiff(previous.content, current.content).value,
                ReceivedCalls(previous, current))
  {
    var r, c := ReasoningDiff(previous, current).value, ContentDiff(previous, current).value;
    var l, n := LastCallDiff(previous, current).value, NewCallDiffs(current, |previous.toolCalls|);
    ApplyAllConcat(previous, r + c + l, n);
    ApplyAllConcat(previous, r + c, l);
    ApplyAllConcat(previous, r, c);
    ApplyReasoning(previous, previous, current);
    var afterReasoning := ApplyAll(previous, r);
    ApplyContent(afterReasoning, previous, current);
    var afterText := ApplyAll(afterReasoning, c);
    ApplyLastCall(afterText, previous, current);
    ApplyNewCalls(ApplyAll(afterText, l), current);
  }

  lemma AppendedIffPrefix(last: string, current: string)
    requires StringDiff(last, current).Ok?
    ensures last + StringDiff(last, current).value == current <==> last <= current
  {
  }

  lemma ReceivedIffCallsGrow(previous: Msg, current: Msg)
    requires |previous.toolCalls| <= |current.toolCalls| && LastCallDiff(previous, current).Ok?
    ensures ReceivedCalls(previous, current) == current.toolCalls <==>
            (previous.toolCalls != [] ==>
               var idx := |previous.toolCalls| - 1;
               && previous.toolCalls[..idx] == current.toolCalls[..idx]
               && CallGrows(previous.toolCalls[idx], current.toolCalls[idx]))
  {
    var was, calls := previous.toolCalls, current.toolCalls;
    var received := ReceivedCalls(previous, current);
    if was == [] {
      assert received == calls;
    } else {
      var idx := |was| - 1;
      AppendedIffPrefix(was[idx].arguments, calls[idx].arguments);
      assert MergedLast(previous, current) == calls[idx] <==> CallGrows(was[idx], calls[idx]);
      assert received[..idx] == was[..idx];
      assert received[idx] == MergedLast(previous, current);
      assert received[|was|..] == calls[|was|..];
      assert calls == calls[..idx] + [calls[idx]] + calls[|was|..];
      assert received == received[..idx] + [received[idx]] + received[|was|..];
    }
  }

  /** The deltas reconstruct the new message exactly when it grew out of the old one. */
  lemma ReconstructsIffGrows(previous: Msg, current: Msg)
    ensures Grows(previous, current) <==>
            Diffs(previous, current).Ok? && ApplyAll(previous, Diffs(previous, current).value) == current
  {
    FailsUnlessComparable(previous, current);
    if Diffs(previous, current).Ok? {
      AppliedDiffs(previous, current);
      AppendedIffPrefix(previous.reasoning, current.reasoning);
      AppendedIffPrefix(previous.content, current.content);
      ReceivedIffCallsGrow(previous, current);
    }
  }

  // ----- which deltas there are -----

  /** The last old call has changed for the client: it has another id, or arguments it had not before. */
  predicate LastChanged(previous: Msg, current: Msg)
    requires |previous.toolCalls| <= |current.toolCalls|
  {
    previous.toolCalls != [] &&
    var idx := |previous.toolCalls| - 1;
    var pref, newf := previous.toolCalls[idx], current.toolCalls[idx];
    pref.id != newf.id || !(newf.arguments <= pref.arguments)
  }

  /** A delta to a call whose name is only sent along with a new id. */
  predicate CallDelta(diff: Diff, idx: nat, pref: ToolCall, newf: ToolCall) {
    && diff.reasoningDelta == "" && diff.contentDelta == "" && diff.toolCallIndex == Some(idx)
    && diff.toolCallDelta.id == (if pref.id == newf.id then "" else newf.id)
    && diff.toolCallDelta.name == (if pref.id == newf.id then "" else newf.name)
  }

  lemma {:induction false} NewCallsInOrder(current: Msg, from: nat, k: nat)
    requires from <= |current.toolCalls| && k < |current.toolCalls| - from
    ensures |NewCallDiffs(current, from)| == |current.toolCalls| - from
    ensures NewCallDiffs(current, from)[k] == Diff("", "", Some(from + k), current.toolCalls[from + k])
    decreases k
  {
    NewCallCount(current, from);
    if k > 0 {
      NewCallsInOrder(current, from + 1, k - 1);
    }
  }

  lemma {:induction false} NewCallCount(current: Msg, from: nat)
    requires from <= |current.toolCalls|
    ensures |NewCallDiffs(current, from)| == |current.toolCalls| - from
    decreases |current.toolCalls| - from
  {
    if from < |current.toolCalls| {
      NewCallCount(current, from + 1);
    }
  }

  /** There is one delta for each thing that changed, in this order: the reasoning, the content, the last old call, and
      the new calls one by one. */
  lemma OneDeltaForEachChange(previous: Msg, current: Msg, k: nat)
    requires Diffs(previous, current).Ok?
    ensures |previous.toolCalls| <= |current.toolCalls|
    ensures var ds, had := Diffs(previous, current).value, |previous.toolCalls|;
            var r := if previous.reasoning != current.reasoning then 1 else 0;
            var c := if previous.content != current.content then 1 else 0;
            var l := if LastChanged(previous, current) then 1 else 0;
            && |ds| == r + c + l + |current.toolCalls| - had
            && (r == 1 ==> ds[0] == Diff(ds[0].reasoningDelta, "", None, NO_CALL))
            && (c == 1 ==> ds[r] == Diff("", ds[r].contentDelta, None, NO_CALL))
            && (l == 1 ==> CallDelta(ds[r + c], had - 1, previous.toolCalls[had - 1], current.toolCalls[had - 1]))
            && (k < |current.toolCalls| - had ==>
                  ds[r + c + l + k] == Diff("", "", Some(had + k), current.toolCalls[had + k]))
  {
    NewCallCount(current, |previous.toolCalls|);
    if k < |current.toolCalls| - |previous.toolCalls| {
      NewCallsInOrder(current, |previous.toolCalls|, k);
    }
  }

  // ----- whole streams -----

  ghost predicate GrowingChain(msgs: seq<Msg>) {
    forall i :: 0 < i < |msgs| ==> Grows(msgs[i - 1], msgs[i])
  }

  /** All the deltas of a stream of messages, in order. */
  function StreamDiffs(msgs: seq<Msg>): Result<seq<Diff>, DiffError> {
    if |msgs| <= 1 then Ok([])
    else
      var first := Diffs(msgs[0], msgs[1]);
      if first.Err? then first else
      var rest := StreamDiffs(msgs[1..]);
      if rest.Err? then rest else Ok(first.value + rest.value)
  }

  /** Folding every delta of a growing stream over its first message gives its last one; no delta fails. */
  lemma {:induction false} StreamReconstructs(msgs: seq<Msg>)
    requires msgs != [] && GrowingChain(msgs)
    ensures StreamDiffs(msgs).Ok?
    ensures ApplyAll(msgs[0], StreamDiffs(msgs).value) == msgs[|msgs| - 1]
    decreases |msgs|
  {
    if |msgs| > 1 {
      ReconstructsIffGrows(msgs[0], msgs[1]);
      StreamReconstructs(msgs[1..]);
      ApplyAllConcat(msgs[0], Diffs(msgs[0], msgs[1]).value, StreamDiffs(msgs[1..]).value);
    }
  }
}
