/** A slot of the server: parsed messages come in, deltas go out, and a tool call keeps the id it was first sent with
    (llama.cpp/tools/server/server.cpp, update_chat_msg; llama.cpp/common/chat.h, ensure_tool_call_ids_set). */
module ServerSlot {
  import opened Wrappers
  import opened ChatDiff

  const NOTHING := Msg("", "", [])

  // ----- ids -----

  /** The id of a call that is seen for the first time, at place `i`. */
  function OwnId(call: ToolCall, i: nat, gen: nat -> string): string {
    if call.id != "" then call.id else gen(i)
  }

  /** The ids kept after a message: a new call's id is the one it comes with, or a generated one. A place is given
      an id once, so that `gen` may be asked by place. */
  function KnownIds(calls: seq<ToolCall>, ids: seq<string>, gen: nat -> string): (r: seq<string>)
    ensures |r| == if |calls| <= |ids| then |ids| else |calls|
    ensures ids <= r
    ensures forall i :: |ids| <= i < |r| ==> r[i] == OwnId(calls[i], i, gen)
    decreases |calls| - |ids|
  {
    if |calls| <= |ids| then ids
    else
      var id := calls[|ids|].id;
      KnownIds(calls, ids + [if id == "" then gen(|ids|) else id], gen)
  }

  function WithIds(calls: seq<ToolCall>, ids: seq<string>): (r: seq<ToolCall>)
    requires |calls| <= |ids|
    ensures |r| == |calls|
    ensures forall i :: 0 <= i < |calls| ==> r[i] == calls[i].(id := ids[i])
  {
    seq(|calls|, i requires 0 <= i < |calls| => calls[i].(id := ids[i]))
  }

  function Ensured(msg: Msg, ids: seq<string>): Msg
    requires |msg.toolCalls| <= |ids|
  {
    msg.(toolCalls := WithIds(msg.toolCalls, ids))
  }

  // ----- one update -----

  /** What the slot knows, and every delta sent so far. */
  datatype View = View(chatMsg: Msg, ids: seq<string>, sent: seq<Diff>)

  const START := View(NOTHING, [], [])

  /** An empty parse is ignored, any other is given ids and compared with the message so far. */
  function Receive(v: View, newMsg: Msg, gen: nat -> string): Result<View, DiffError> {
    if newMsg.Empty() then Ok(v)
    else
      var ids := KnownIds(newMsg.toolCalls, v.ids, gen);
      var chatMsg := Ensured(newMsg, ids);
      var diffs := Diffs(v.chatMsg, chatMsg);
      if diffs.Err? then Err(diffs.error) else Ok(View(chatMsg, ids, v.sent + diffs.value))
  }

  class Slot {
    const gen: nat -> string
    var chatMsg: Msg
    var generatedToolCallIds: seq<string>
    ghost var sent: seq<Diff>

    constructor (gen: nat -> string)
      ensures this.gen == gen && Knows() == START
    {
      this.gen := gen;
      chatMsg, generatedToolCallIds, sent := NOTHING, [], [];
    }

    ghost function Knows(): View
      reads this
    {
      View(chatMsg, generatedToolCallIds, sent)
    }

    /** `ensure_tool_call_ids_set`, on the calls of a message and the slot's list of ids. */
    method EnsureToolCallIdsSet(toolCalls: seq<ToolCall>) returns (r: seq<ToolCall>)
      modifies this`generatedToolCallIds
      ensures generatedToolCallIds == KnownIds(toolCalls, old(generatedToolCallIds), gen)
      ensures r == WithIds(toolCalls, generatedToolCallIds)
    {
      r := toolCalls;
      for i := 0 to |toolCalls|
        invariant |r| == |toolCalls| && i <= |generatedToolCallIds|
        invariant forall k :: 0 <= k < i ==> r[k] == toolCalls[k].(id := generatedToolCallIds[k])
        invariant forall k :: i <= k < |r| ==> r[k] == toolCalls[k]
        invariant KnownIds(toolCalls, generatedToolCallIds, gen) == KnownIds(toolCalls, old(generatedToolCallIds), gen)
      {
        if |generatedToolCallIds| <= i {
          var id := r[i].id;
          if id == "" {
            id := gen(i);
          }
          generatedToolCallIds := generatedToolCallIds + [id];
        }
        r := r[i := r[i].(id := generatedToolCallIds[i])];
      }
    }

    /** `update_chat_msg`, from the point where the text so far has been parsed: the message is kept even when the
        deltas cannot be computed. */
    method UpdateChatMsg(newMsg: Msg) returns (r: Result<seq<Diff>, DiffError>)
      modifies this
      ensures var next := Receive(old(Knows()), newMsg, gen);
              if r.Ok? then next == Ok(Knows()) && sent == old(sent) + r.value else next == Err(r.error)
      ensures generatedToolCallIds
           == if newMsg.Empty() then old(generatedToolCallIds)
              else KnownIds(newMsg.toolCalls, old(generatedToolCallIds), gen)
      ensures chatMsg == if newMsg.Empty() then old(chatMsg) else Ensured(newMsg, generatedToolCallIds)
    {
      var previousMsg := chatMsg;
      if newMsg.Empty() {
        assert sent + [] == sent;
        return Ok([]);
      }
      var toolCalls := EnsureToolCallIdsSet(newMsg.toolCalls);
      chatMsg := newMsg.(toolCalls := toolCalls);
      r := ComputeDiffs(previousMsg, chatMsg);
      if r.Ok? {
        sent := sent + r.value;
      }
    }
  }

  // ----- whole runs -----

  function Run(v: View, msgs: seq<Msg>, gen: nat -> string): Result<View, DiffError>
    decreases |msgs|
  {
    if msgs == [] then Ok(v)
    else
      var next := Receive(v, msgs[0], gen);
      if next.Err? then next else Run(next.value, msgs[1..], gen)
  }

  /** The client's message, made of all deltas it was sent, is the server's. */
  ghost predicate InStep(v: View) {
    ApplyAll(NOTHING, v.sent) == v.chatMsg
  }

  /** No update fails, and the client is in step after every one. */
  ghost predicate AlwaysInStep(v: View, msgs: seq<Msg>, gen: nat -> string)
    decreases |msgs|
  {
    && InStep(v)
    && (msgs == [] ||
        var next := Receive(v, msgs[0], gen);
        next.Ok? && AlwaysInStep(next.value, msgs[1..], gen))
  }

  predicate SameButId(a: ToolCall, b: ToolCall) {
    a.name == b.name && a.arguments == b.arguments
  }

  /** A message that grew out of another, whatever ids the parser gave the calls of either. */
  ghost predicate GrowsButIds(previous: Msg, current: Msg) {
    && previous.reasoning <= current.reasoning
    && previous.content <= current.content
    && |previous.toolCalls| <= |current.toolCalls|
    && (forall i :: 0 <= i < |previous.toolCalls| - 1 ==> SameButId(previous.toolCalls[i], current.toolCalls[i]))
    && (previous.toolCalls != [] ==>
          var idx := |previous.toolCalls| - 1;
          && previous.toolCalls[idx].name == current.toolCalls[idx].name
          && previous.toolCalls[idx].arguments <= current.toolCalls[idx].arguments)
  }

  /** Every message that is not empty grew out of the one before. */
  ghost predicate Chain(last: Msg, msgs: seq<Msg>)
    decreases |msgs|
  {
    msgs == [] ||
    if msgs[0].Empty() then Chain(last, msgs[1..])
    else GrowsButIds(last, msgs[0]) && Chain(msgs[0], msgs[1..])
  }

  function LastSeen(last: Msg, msgs: seq<Msg>): Msg
    decreases |msgs|
  {
    if msgs == [] then last else LastSeen(if msgs[0].Empty() then last else msgs[0], msgs[1..])
  }

  /** The slot holds the message `last`, its calls under the ids it keeps. */
  ghost predicate Holds(v: View, last: Msg) {
    |last.toolCalls| <= |v.ids| && v.chatMsg == Ensured(last, v.ids)
  }

  lemma {:induction false} SameWithIdsIff(a: seq<ToolCall>, b: seq<ToolCall>, ids: seq<string>, n: nat)
    requires n <= |a| <= |ids| && n <= |b| <= |ids|
    ensures WithIds(a, ids)[..n] == WithIds(b, ids)[..n] <==> forall i :: 0 <= i < n ==> SameButId(a[i], b[i])
  {
    if n > 0 {
      SameWithIdsIff(a, b, ids, n - 1);
      var was, calls := WithIds(a, ids), WithIds(b, ids);
      assert was[..n] == was[..n - 1] + [was[n - 1]] && calls[..n] == calls[..n - 1] + [calls[n - 1]];
    }
  }

  /** With kept ids a message may come with any others and still count as grown. */
  lemma EnsuredGrowsIff(last: Msg, newMsg: Msg, ids: seq<string>, more: seq<string>)
    requires |last.toolCalls| <= |ids| && |newMsg.toolCalls| <= |more| && ids <= more
    ensures Grows(Ensured(last, ids), Ensured(newMsg, more)) <==> GrowsButIds(last, newMsg)
  {
    if 0 < |last.toolCalls| <= |newMsg.toolCalls| {
      SameWithIdsIff(last.toolCalls, newMsg.toolCalls, more, |last.toolCalls| - 1);
    }
    assert WithIds(last.toolCalls, ids) == WithIds(last.toolCalls, more);
  }

  lemma ReceivedInStepIff(v: View, last: Msg, newMsg: Msg, gen: nat -> string)
    requires InStep(v) && Holds(v, last) && !newMsg.Empty()
    ensures var next := Receive(v, newMsg, gen);
            && (next.Ok? && InStep(next.value) <==> GrowsButIds(last, newMsg))
            && (next.Ok? ==> Holds(next.value, newMsg))
  {
    var ids := KnownIds(newMsg.toolCalls, v.ids, gen);
    var chatMsg := Ensured(newMsg, ids);
    EnsuredGrowsIff(last, newMsg, v.ids, ids);
    ReconstructsIffGrows(v.chatMsg, chatMsg);
    if Diffs(v.chatMsg, chatMsg).Ok? {
      ApplyAllConcat(NOTHING, v.sent, Diffs(v.chatMsg, chatMsg).value);
    }
  }

  /** Over every run of parsed messages, with tool calls or without: the client is in step throughout exactly when
      each message grew out of the one before, and then it ends with the last one under the kept ids. */
  lemma {:induction false} RunInStepIff(v: View, last: Msg, msgs: seq<Msg>, gen: nat -> string)
    requires InStep(v) && Holds(v, last)
    ensures AlwaysInStep(v, msgs, gen) <==> Chain(last, msgs)
    ensures Chain(last, msgs) ==>
              var run := Run(v, msgs, gen);
              run.Ok? && InStep(run.value) && Holds(run.value, LastSeen(last, msgs))
    decreases |msgs|
  {
    if msgs != [] {
      if msgs[0].Empty() {
        RunInStepIff(v, last, msgs[1..], gen);
      } else {
        ReceivedInStepIff(v, last, msgs[0], gen);
        var next := Receive(v, msgs[0], gen);
        if next.Ok? && InStep(next.value) {
          RunInStepIff(next.value, msgs[0], msgs[1..], gen);
        }
      }
    }
  }

  /** The ids a client holds never change: those kept before an update are kept after it. */
  lemma {:induction false} IdsAreKept(v: View, msgs: seq<Msg>, gen: nat -> string)
    requires Run(v, msgs, gen).Ok?
    ensures v.ids <= Run(v, msgs, gen).value.ids
    decreases |msgs|
  {
    if msgs != [] {
      IdsAreKept(Receive(v, msgs[0], gen).value, msgs[1..], gen);
    }
  }

  // ----- which id a call has -----

  /** The id that the first message with a call at place `i` gives it. */
  function FirstId(msgs: seq<Msg>, i: nat, gen: nat -> string): Option<string>
    decreases |msgs|
  {
    if msgs == [] then None
    else if i < |msgs[0].toolCalls| then Some(OwnId(msgs[0].toolCalls[i], i, gen))
    else FirstId(msgs[1..], i, gen)
  }

  /** Over every run the id of a place is that of the first message that had the place. */
  lemma {:induction false} IdIsOfFirst(v: View, msgs: seq<Msg>, gen: nat -> string, i: nat)
    requires Run(v, msgs, gen).Ok?
    ensures var ids := Run(v, msgs, gen).value.ids;
            && (i < |ids| <==> i < |v.ids| || FirstId(msgs, i, gen).Some?)
            && (i < |ids| ==> ids[i] == if i < |v.ids| then v.ids[i] else FirstId(msgs, i, gen).value)
    decreases |msgs|
  {
    if msgs != [] {
      IdIsOfFirst(Receive(v, msgs[0], gen).value, msgs[1..], gen, i);
    }
  }

  /** So a client that is in step holds every call under the id of the first message that had it; and if no empty id is
      ever generated, no call of the client has one. */
  lemma ClientHoldsFirstIds(msgs: seq<Msg>, gen: nat -> string, i: nat)
    requires Chain(NOTHING, msgs) && i < |LastSeen(NOTHING, msgs).toolCalls|
    ensures var run := Run(START, msgs, gen);
            && run.Ok? && i < |ApplyAll(NOTHING, run.value.sent).toolCalls|
            && FirstId(msgs, i, gen) == Some(ApplyAll(NOTHING, run.value.sent).toolCalls[i].id)
            && ((forall k :: gen(k) != "") ==> ApplyAll(NOTHING, run.value.sent).toolCalls[i].id != "")
  {
    RunInStepIff(START, NOTHING, msgs, gen);
    IdIsOfFirst(START, msgs, gen, i);
    if forall k :: gen(k) != "" {
      FirstIdIsNotEmpty(msgs, i, gen);
    }
  }

  lemma {:induction false} FirstIdIsNotEmpty(msgs: seq<Msg>, i: nat, gen: nat -> string)
    requires FirstId(msgs, i, gen).Some? && forall k :: gen(k) != ""
    ensures FirstId(msgs, i, gen).value != ""
    decreases |msgs|
  {
    if i >= |msgs[0].toolCalls| {
      FirstIdIsNotEmpty(msgs[1..], i, gen);
    }
  }
}
