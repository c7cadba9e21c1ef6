/** Gathering the expert tensors of a mixture-of-experts model until a block is complete
    (llama.cpp/convert_hf_to_gguf.py:1931-1990 and 2022-2029). */
module Experts {
  import opened Wrappers

  datatype Wid = W1 | W2 | W3

  /** The name of one expert's weight, or any other name that mentions the experts. */
  datatype Name = Expert(bid: nat, xid: nat, wid: Wid) | Other(text: string)

  /** A merged tensor: the list that is stacked, under the name of its block and weight. */
  datatype Emitted<T> = Emitted(bid: nat, wid: Wid, datas: seq<T>)

  datatype ExpertError = NoSuchBlock | MissingExpert | UnprocessedExperts

  type Buffer<T> = map<Name, T>

  // ----- one arrival -----

  function Expected(bid: nat, nExperts: nat): (r: set<Name>)
    ensures forall name :: name in r <==> name.Expert? && name.bid == bid && name.xid < nExperts
  {
    Weight(bid, nExperts, W1) + Weight(bid, nExperts, W2) + Weight(bid, nExperts, W3)
  }

  function Weight(bid: nat, nExperts: nat, wid: Wid): (r: set<Name>)
    ensures forall name :: name in r <==> name.Expert? && name.bid == bid && name.xid < nExperts && name.wid == wid
  {
    set x | 0 <= x < nExperts :: Expert(bid, x, wid)
  }

  /** The experts of one weight, expert `x` at index `x`. */
  function Gathered<T>(buffer: Buffer<T>, bid: nat, nExperts: nat, wid: Wid): (r: seq<T>)
    requires Weight(bid, nExperts, wid) <= buffer.Keys
    ensures |r| == nExperts && forall x :: 0 <= x < nExperts ==> r[x] == buffer[Expert(bid, x, wid)]
  {
    seq(nExperts, x requires 0 <= x < nExperts => buffer[Expert(bid, x, wid)])
  }

  function Merged<T>(buffer: Buffer<T>, bid: nat, nExperts: nat): seq<Emitted<T>>
    requires Expected(bid, nExperts) <= buffer.Keys
  {
    [Emitted(bid, W1, Gathered(buffer, bid, nExperts, W1)),
     Emitted(bid, W2, Gathered(buffer, bid, nExperts, W2)),
     Emitted(bid, W3, Gathered(buffer, bid, nExperts, W3))]
  }

  function Arrive<T>(nExperts: nat, blocks: seq<Buffer<T>>, bid: nat, name: Name, data: T)
    : (r: Result<(seq<Buffer<T>>, seq<Emitted<T>>), ExpertError>)
    ensures r.Ok? ==> |r.value.0| == |blocks|
  {
    if bid >= |blocks| then Err(NoSuchBlock)
    else
      var buffer := blocks[bid][name := data];
      if |buffer| < nExperts * 3 then Ok((blocks[bid := buffer], []))
      else if !(Expected(bid, nExperts) <= buffer.Keys) then Err(MissingExpert)
      else Ok((blocks[bid := buffer - Expected(bid, nExperts)], Merged(buffer, bid, nExperts)))
  }

  // ----- what a failed merge leaves -----

  function Number(wid: Wid): nat {
    match wid case W1 => 0 case W2 => 1 case W3 => 2
  }

  /** The order in which a block is taken apart. */
  predicate NotAfter(a: Name, b: Name)
    requires a.Expert? && b.Expert?
  {
    Number(a.wid) < Number(b.wid) || (a.wid == b.wid && a.xid <= b.xid)
  }

  /** Merging comes to take this name out: it and all names before it are there. */
  ghost predicate TakenOut<T>(buffer: Buffer<T>, bid: nat, nExperts: nat, name: Name) {
    name in Expected(bid, nExperts) &&
    forall other :: other in Expected(bid, nExperts) && NotAfter(other, name) ==> other in buffer
  }

  ghost function LeftOver<T>(buffer: Buffer<T>, bid: nat, nExperts: nat): Buffer<T> {
    map name | name in buffer && !TakenOut(buffer, bid, nExperts, name) :: buffer[name]
  }

  /** The buffers after an arrival, whether it fails or not. */
  ghost function BlocksAfter<T>(nExperts: nat, blocks: seq<Buffer<T>>, bid: nat, name: Name, data: T): seq<Buffer<T>> {
    if bid >= |blocks| then blocks
    else
      var buffer := blocks[bid][name := data];
      blocks[bid := if |buffer| < nExperts * 3 then buffer else LeftOver(buffer, bid, nExperts)]
  }

  /** The names of the weights before this one, and of its first experts. */
  ghost function TakenBefore(bid: nat, nExperts: nat, wid: Wid, xid: nat): set<Name> {
    Taken(bid, nExperts, Number(wid)) + Weight(bid, xid, wid)
  }

  lemma NothingMissing<T>(full: Buffer<T>, bid: nat, nExperts: nat)
    requires Expected(bid, nExperts) <= full.Keys
    ensures LeftOver(full, bid, nExperts) == full - Expected(bid, nExperts)
  {
  }

  lemma StoppedAtMissing<T>(full: Buffer<T>, bid: nat, nExperts: nat, wid: Wid, xid: nat)
    requires xid < nExperts && Expert(bid, xid, wid) !in full
    requires TakenBefore(bid, nExperts, wid, xid) <= full.Keys
    ensures LeftOver(full, bid, nExperts) == full - TakenBefore(bid, nExperts, wid, xid)
  {
    var missing := Expert(bid, xid, wid);
    assert missing in Expected(bid, nExperts);
    forall name | name in full
      ensures TakenOut(full, bid, nExperts, name) <==> name in TakenBefore(bid, nExperts, wid, xid)
    {
      if name in Expected(bid, nExperts) {
        if name in TakenBefore(bid, nExperts, wid, xid) {
          assert forall other :: other in Expected(bid, nExperts) && NotAfter(other, name) ==>
            other in TakenBefore(bid, nExperts, wid, xid);
        } else {
          assert NotAfter(missing, name);
        }
      }
    }
  }

  class ExpertBuffers<T> {
    const nExperts: nat
    const blockCount: nat
    var experts: Option<seq<Buffer<T>>>

    constructor (nExperts: nat, blockCount: nat)
      ensures Valid() && Blocks() == seq(blockCount, _ => map[])
      ensures this.nExperts == nExperts && this.blockCount == blockCount
    {
      this.nExperts, this.blockCount := nExperts, blockCount;
      experts := None;
    }

    ghost predicate Valid()
      reads this
    {
      experts.Some? ==> |experts.value| == blockCount
    }

    function Blocks(): seq<Buffer<T>>
      reads this
    {
      if experts.Some? then experts.value else seq(blockCount, _ => map[])
    }

    /** The inner loop: one weight of every expert, in order, out of the buffer, up to the first that is missing. */
    method TakeWeight(full: Buffer<T>, bid: nat, wid: Wid) returns (buffer: Buffer<T>, datas: seq<T>)
      ensures |datas| <= nExperts && (|datas| < nExperts ==> Expert(bid, |datas|, wid) !in full)
      ensures Weight(bid, |datas|, wid) <= full.Keys && datas == Gathered(full, bid, |datas|, wid)
      ensures buffer == full - Weight(bid, |datas|, wid)
    {
      buffer, datas := full, [];
      for xid := 0 to nExperts
        invariant buffer == full - Weight(bid, xid, wid)
        invariant |datas| == xid
        invariant forall x :: 0 <= x < xid ==> Expert(bid, x, wid) in full && datas[x] == full[Expert(bid, x, wid)]
      {
        var ename := Expert(bid, xid, wid);
        if ename !in buffer {
          assert Weight(bid, xid, wid) <= full.Keys && datas == Gathered(full, bid, xid, wid);
          return;
        }
        datas := datas + [buffer[ename]];
        buffer := buffer - {ename};
      }
      assert Weight(bid, nExperts, wid) <= full.Keys && datas == Gathered(full, bid, nExperts, wid);
    }

    /** The outer loop: the three weights of a block, one merged tensor each. */
    method MergeBlock(full: Buffer<T>, bid: nat) returns (buffer: Buffer<T>, r: Result<seq<Emitted<T>>, ExpertError>)
      ensures r == if Expected(bid, nExperts) <= full.Keys then Ok(Merged(full, bid, nExperts)) else Err(MissingExpert)
      ensures buffer == LeftOver(full, bid, nExperts)
    {
      buffer := full;
      var tensors: seq<Emitted<T>> := [];
      var wids := [W1, W2, W3];
      for i := 0 to |wids|
        invariant buffer == full - Taken(bid, nExperts, i) && Taken(bid, nExperts, i) <= full.Keys
        invariant |tensors| == i
        invariant i > 0 ==> tensors[0] == Emitted(bid, W1, Gathered(full, bid, nExperts, W1))
        invariant i > 1 ==> tensors[1] == Emitted(bid, W2, Gathered(full, bid, nExperts, W2))
        invariant i > 2 ==> tensors[2] == Emitted(bid, W3, Gathered(full, bid, nExperts, W3))
      {
        var wid := wids[i];
        assert Number(wid) == i && Weight(bid, nExperts, wid) !! Taken(bid, nExperts, i);
        var datas;
        buffer, datas := TakeWeight(buffer, bid, wid);
        assert buffer == full - TakenBefore(bid, nExperts, wid, |datas|);
        if |datas| < nExperts {
          StoppedAtMissing(full, bid, nExperts, wid, |datas|);
          assert Expert(bid, |datas|, wid) in Expected(bid, nExperts);
          return buffer, Err(MissingExpert);
        }
        assert datas == Gathered(full, bid, nExperts, wid);
        tensors := tensors + [Emitted(bid, wid, datas)];
      }
      assert Taken(bid, nExperts, 3) == Expected(bid, nExperts);
      NothingMissing(full, bid, nExperts);
      assert tensors == Merged(full, bid, nExperts);
      r := Ok(tensors);
    }

    /** The expert branch of `modify_tensors`: store the tensor, and merge its block once it is full. */
    method ModifyTensor(data: T, name: Name, bid: nat) returns (r: Result<seq<Emitted<T>>, ExpertError>)
      requires Valid()
      modifies this
      ensures Valid() && Blocks() == BlocksAfter(nExperts, old(Blocks()), bid, name, data)
      ensures var step := Arrive(nExperts, old(Blocks()), bid, name, data);
              if step.Err? then r == Err(step.error)
              else r == Ok(step.value.1) && Blocks() == step.value.0
    {
      if experts.None? {
        experts := Some(seq(blockCount, _ => map[]));
      }
      if bid >= blockCount {
        return Err(NoSuchBlock);
      }
      var buffer: Buffer<T> := experts.value[bid][name := data];
      if |buffer| < nExperts * 3 {
        experts := Some(experts.value[bid := buffer]);
        return Ok([]);
      }
      ghost var full := buffer;
      buffer, r := MergeBlock(buffer, bid);
      if r.Ok? {
        NothingMissing(full, bid, nExperts);
      }
      experts := Some(experts.value[bid := buffer]);
    }

    /** The end of `prepare_tensors`: tensors left in a buffer are an error. */
    method PrepareTensors() returns (r: Result<(), ExpertError>)
      requires Valid()
      ensures r.Err? <==> exists b :: 0 <= b < blockCount && Blocks()[b] != map[]
    {
      if experts.Some? {
        for b := 0 to blockCount
          invariant forall b' :: 0 <= b' < b ==> experts.value[b'] == map[]
        {
          if experts.value[b].Keys != {} {
            assert Blocks()[b] != map[];
            return Err(UnprocessedExperts);
          }
        }
      }
      return Ok(());
    }
  }

  /** The names of the first `i` weights of a block. */
  ghost function Taken(bid: nat, nExperts: nat, i: nat): set<Name> {
    (if i > 0 then Weight(bid, nExperts, W1) else {})
    + (if i > 1 then Weight(bid, nExperts, W2) else {})
    + (if i > 2 then Weight(bid, nExperts, W3) else {})
  }

  // ----- a whole checkpoint -----

  /** A tensor handed to `modify_tensors`, with the block number read off its name. */
  datatype Arrival<T> = Arrival(bid: nat, name: Name, data: T)

  /** Expert tensors of existing blocks, none of them twice. */
  ghost predicate Checkpoint<T>(arrivals: seq<Arrival<T>>, nExperts: nat, blockCount: nat) {
    && (forall i :: 0 <= i < |arrivals| ==>
          var a := arrivals[i];
          a.name.Expert? && a.name.bid == a.bid < blockCount && a.name.xid < nExperts)
    && (forall i, j :: 0 <= i < j < |arrivals| ==> arrivals[i].name != arrivals[j].name)
  }

  /** Buffers and outputs after all arrivals: `outputs[i]` is what arrival `i` released. */
  datatype Run<T> = Run(blocks: seq<Buffer<T>>, outputs: seq<seq<Emitted<T>>>)

  function Process<T>(arrivals: seq<Arrival<T>>, nExperts: nat, blockCount: nat): (r: Result<Run<T>, ExpertError>)
    ensures r.Ok? ==> |r.value.blocks| == blockCount && |r.value.outputs| == |arrivals|
  {
    if arrivals == [] then Ok(Run(seq(blockCount, _ => map[]), []))
    else
      var before := Process(arrivals[..|arrivals| - 1], nExperts, blockCount);
      var a := arrivals[|arrivals| - 1];
      if before.Err? then before
      else
        var step := Arrive(nExperts, before.value.blocks, a.bid, a.name, a.data);
        if step.Err? then Err(step.error)
        else Ok(Run(step.value.0, before.value.outputs + [step.value.1]))
  }

  /** What has arrived for a block, whether or not it has been merged. */
  function Received<T>(arrivals: seq<Arrival<T>>, bid: nat): (r: Buffer<T>)
    ensures forall name :: name in r ==> name.Expert? && name.bid == bid
  {
    if arrivals == [] then map[]
    else
      var n := |arrivals| - 1;
      var before, a := Received(arrivals[..n], bid), arrivals[n];
      if a.name.Expert? && a.name.bid == bid then before[a.name := a.data] else before
  }

  ghost predicate Arrived<T>(arrivals: seq<Arrival<T>>, name: Name) {
    exists i :: 0 <= i < |arrivals| && arrivals[i].name == name
  }

  lemma {:induction false} ReceivedIff<T>(arrivals: seq<Arrival<T>>, bid: nat, name: Name)
    ensures name in Received(arrivals, bid) <==> name.Expert? && name.bid == bid && Arrived(arrivals, name)
    decreases |arrivals|
  {
    if arrivals != [] {
      var n := |arrivals| - 1;
      ReceivedIff(arrivals[..n], bid, name);
      assert Arrived(arrivals, name) <==> Arrived(arrivals[..n], name) || arrivals[n].name == name by {
        assert forall i :: 0 <= i < n ==> arrivals[..n][i] == arrivals[i];
      }
    }
  }

  ghost predicate Complete<T>(arrivals: seq<Arrival<T>>, nExperts: nat, bid: nat) {
    Expected(bid, nExperts) <= Received(arrivals, bid).Keys
  }

  lemma {:induction false} WeightSize(bid: nat, nExperts: nat, wid: Wid)
    ensures |Weight(bid, nExperts, wid)| == nExperts
  {
    if nExperts > 0 {
      WeightSize(bid, nExperts - 1, wid);
      assert Weight(bid, nExperts, wid) == Weight(bid, nExperts - 1, wid) + {Expert(bid, nExperts - 1, wid)};
    } else {
      assert Weight(bid, 0, wid) == {};
    }
  }

  lemma ExpectedSize(bid: nat, nExperts: nat)
    ensures |Expected(bid, nExperts)| == nExperts * 3
  {
    WeightSize(bid, nExperts, W1);
    WeightSize(bid, nExperts, W2);
    WeightSize(bid, nExperts, W3);
    var w1, w2, w3 := Weight(bid, nExperts, W1), Weight(bid, nExperts, W2), Weight(bid, nExperts, W3);
    assert w1 !! w2 && (w1 + w2) !! w3;
  }

  lemma SubsetOfSameSize<T>(s: set<T>, t: set<T>)
    requires s <= t && |s| >= |t|
    ensures s == t
  {
    assert |t| == |s| + |t - s|;
  }

  /** The count that triggers the merge is reached exactly when nothing is missing. */
  lemma FullIffComplete<T>(buffer: Buffer<T>, bid: nat, nExperts: nat)
    requires buffer.Keys <= Expected(bid, nExperts)
    ensures |buffer| >= nExperts * 3 <==> buffer.Keys == Expected(bid, nExperts)
  {
    ExpectedSize(bid, nExperts);
    if |buffer.Keys| >= nExperts * 3 {
      SubsetOfSameSize(buffer.Keys, Expected(bid, nExperts));
    }
  }

  lemma ReceivedIsExpected<T>(arrivals: seq<Arrival<T>>, nExperts: nat, blockCount: nat, bid: nat)
    requires Checkpoint(arrivals, nExperts, blockCount)
    ensures Received(arrivals, bid).Keys <= Expected(bid, nExperts)
  {
  }

  /** The buffer of a block holds what arrived for it, unless that was everything. */
  ghost function Pending<T>(arrivals: seq<Arrival<T>>, nExperts: nat, bid: nat): Buffer<T> {
    if Complete(arrivals, nExperts, bid) then map[] else Received(arrivals, bid)
  }

  /** An arrival releases its block when it is the one that completes it, and nothing otherwise. */
  ghost function Released<T>(arrivals: seq<Arrival<T>>, nExperts: nat): seq<Emitted<T>>
    requires arrivals != [] && arrivals[|arrivals| - 1].name.Expert?
  {
    var bid := arrivals[|arrivals| - 1].name.bid;
    if Complete(arrivals, nExperts, bid) then Merged(Received(arrivals, bid), bid, nExperts) else []
  }

  ghost function ReleasedAt<T>(arrivals: seq<Arrival<T>>, nExperts: nat, i: nat): seq<Emitted<T>>
    requires i < |arrivals| && arrivals[i].name.Expert?
  {
    Released(arrivals[..i + 1], nExperts)
  }

  ghost predicate BlocksPending<T>(blocks: seq<Buffer<T>>, arrivals: seq<Arrival<T>>, nExperts: nat) {
    forall b :: 0 <= b < |blocks| ==> blocks[b] == Pending(arrivals, nExperts, b)
  }

  /** A new arrival is one its block was waiting for, and concerns no other block. */
  lemma ReceivedByStep<T>(arrivals: seq<Arrival<T>>, nExperts: nat, blockCount: nat, b: nat)
    requires arrivals != [] && Checkpoint(arrivals, nExperts, blockCount)
    ensures var n := |arrivals| - 1;
            var before, a := arrivals[..n], arrivals[n];
            && Checkpoint(before, nExperts, blockCount)
            && (b != a.name.bid ==> Received(arrivals, b) == Received(before, b))
            && (b == a.name.bid ==> && Received(arrivals, b) == Received(before, b)[a.name := a.data]
                                    && a.name in Expected(b, nExperts) && a.name !in Received(before, b))
  {
    var n := |arrivals| - 1;
    assert forall i :: 0 <= i < n ==> arrivals[..n][i] == arrivals[i];
    ReceivedIff(arrivals[..n], b, arrivals[n].name);
  }

  lemma ArriveOn<T>(nExperts: nat, blocks: seq<Buffer<T>>, bid: nat, name: Name, data: T, buffer: Buffer<T>)
    requires bid < |blocks| && buffer == blocks[bid][name := data] && buffer.Keys <= Expected(bid, nExperts)
    ensures Arrive(nExperts, blocks, bid, name, data)
         == if Expected(bid, nExperts) <= buffer.Keys then Ok((blocks[bid := map[]], Merged(buffer, bid, nExperts)))
            else Ok((blocks[bid := buffer], []))
  {
    FullIffComplete(buffer, bid, nExperts);
    if Expected(bid, nExperts) <= buffer.Keys {
      assert buffer - Expected(bid, nExperts) == map[];
    }
  }

  lemma StepBlock<T>(arrivals: seq<Arrival<T>>, nExperts: nat, blockCount: nat, blocks: seq<Buffer<T>>)
    requires arrivals != [] && Checkpoint(arrivals, nExperts, blockCount) && |blocks| == blockCount
    requires BlocksPending(blocks, arrivals[..|arrivals| - 1], nExperts)
    ensures var a := arrivals[|arrivals| - 1];
            Arrive(nExperts, blocks, a.name.bid, a.name, a.data)
            == Ok((blocks[a.name.bid := Pending(arrivals, nExperts, a.name.bid)], Released(arrivals, nExperts)))
  {
    var n := |arrivals| - 1;
    var bid := arrivals[n].name.bid;
    ReceivedByStep(arrivals, nExperts, blockCount, bid);
    ReceivedIsExpected(arrivals, nExperts, blockCount, bid);
    assert blocks[bid] == Received(arrivals[..n], bid);
    ArriveOn(nExperts, blocks, bid, arrivals[n].name, arrivals[n].data, Received(arrivals, bid));
  }

  lemma StepHoldsPending<T>(arrivals: seq<Arrival<T>>, nExperts: nat, blockCount: nat, blocks: seq<Buffer<T>>)
    requires arrivals != [] && Checkpoint(arrivals, nExperts, blockCount) && |blocks| == blockCount
    requires BlocksPending(blocks, arrivals[..|arrivals| - 1], nExperts)
    ensures var bid := arrivals[|arrivals| - 1].name.bid;
            BlocksPending(blocks[bid := Pending(arrivals, nExperts, bid)], arrivals, nExperts)
  {
    var bid := arrivals[|arrivals| - 1].name.bid;
    forall b | 0 <= b < blockCount && b != bid
      ensures blocks[b] == Pending(arrivals, nExperts, b)
    {
      ReceivedByStep(arrivals, nExperts, blockCount, b);
    }
  }

  ghost predicate OutputsReleased<T>(outputs: seq<seq<Emitted<T>>>, arrivals: seq<Arrival<T>>, nExperts: nat)
    requires |outputs| == |arrivals| && forall i :: 0 <= i < |arrivals| ==> arrivals[i].name.Expert?
  {
    forall i :: 0 <= i < |arrivals| ==> outputs[i] == ReleasedAt(arrivals, nExperts, i)
  }

  lemma ReleasedAtPrefix<T>(arrivals: seq<Arrival<T>>, nExperts: nat, n: nat, i: nat)
    requires i < n <= |arrivals| && arrivals[i].name.Expert?
    ensures ReleasedAt(arrivals[..n], nExperts, i) == ReleasedAt(arrivals, nExperts, i)
  {
    assert arrivals[..n][..i + 1] == arrivals[..i + 1];
  }

  lemma StepReleases<T>(arrivals: seq<Arrival<T>>, nExperts: nat, outputs: seq<seq<Emitted<T>>>)
    requires arrivals != [] && |outputs| == |arrivals| - 1
    requires forall i :: 0 <= i < |arrivals| ==> arrivals[i].name.Expert?
    requires OutputsReleased(outputs, arrivals[..|arrivals| - 1], nExperts)
    ensures OutputsReleased(outputs + [Released(arrivals, nExperts)], arrivals, nExperts)
  {
    var n := |arrivals| - 1;
    var more := outputs + [Released(arrivals, nExperts)];
    forall i | 0 <= i < |arrivals|
      ensures more[i] == ReleasedAt(arrivals, nExperts, i)
    {
      if i < n {
        ReleasedAtPrefix(arrivals, nExperts, n, i);
        assert more[i] == outputs[i];
      } else {
        assert arrivals[..n + 1] == arrivals;
      }
    }
  }

  /** Over every order of arrival, block by block or interleaved: nothing fails, each buffer holds exactly what its
      block is still waiting with, and each arrival releases what it completes. */
  lemma {:induction false} BuffersHoldPending<T>(arrivals: seq<Arrival<T>>, nExperts: nat, blockCount: nat)
    requires Checkpoint(arrivals, nExperts, blockCount)
    ensures Process(arrivals, nExperts, blockCount).Ok?
    ensures var run := Process(arrivals, nExperts, blockCount).value;
            BlocksPending(run.blocks, arrivals, nExperts) && OutputsReleased(run.outputs, arrivals, nExperts)
    decreases |arrivals|
  {
    if arrivals != [] {
      var n := |arrivals| - 1;
      ReceivedByStep(arrivals, nExperts, blockCount, arrivals[n].name.bid);
      BuffersHoldPending(arrivals[..n], nExperts, blockCount);
      var run := Process(arrivals[..n], nExperts, blockCount).value;
      StepBlock(arrivals, nExperts, blockCount, run.blocks);
      StepHoldsPending(arrivals, nExperts, blockCount, run.blocks);
      StepReleases(arrivals, nExperts, run.outputs);
    }
  }

  // ----- each block exactly once -----

  lemma ReceivedGrows<T>(arrivals: seq<Arrival<T>>, bid: nat)
    requires arrivals != []
    ensures Received(arrivals[..|arrivals| - 1], bid).Keys <= Received(arrivals, bid).Keys
  {
  }

  lemma {:induction false} ReceivedLasts<T>(arrivals: seq<Arrival<T>>, bid: nat, i: nat, j: nat)
    requires i <= j <= |arrivals|
    ensures Received(arrivals[..i], bid).Keys <= Received(arrivals[..j], bid).Keys
    decreases j - i
  {
    if i < j {
      var upTo := arrivals[..j];
      assert upTo[..j - 1] == arrivals[..j - 1];
      ReceivedGrows(upTo, bid);
      ReceivedLasts(arrivals, bid, i, j - 1);
    }
  }

  /** A block that is complete stays complete. */
  lemma CompletionLasts<T>(arrivals: seq<Arrival<T>>, nExperts: nat, bid: nat, i: nat, j: nat)
    requires i <= j <= |arrivals| && Complete(arrivals[..i], nExperts, bid)
    ensures Complete(arrivals[..j], nExperts, bid)
  {
    ReceivedLasts(arrivals, bid, i, j);
  }

  /** Arrival `i` releases block `bid` exactly when the block is complete with it and was not without it. */
  ghost predicate Completes<T>(arrivals: seq<Arrival<T>>, nExperts: nat, bid: nat, i: nat)
    requires i < |arrivals|
  {
    Complete(arrivals[..i + 1], nExperts, bid) && !Complete(arrivals[..i], nExperts, bid)
  }

  lemma ReleaseIsCompletion<T>(arrivals: seq<Arrival<T>>, nExperts: nat, blockCount: nat, bid: nat, i: nat)
    requires Checkpoint(arrivals, nExperts, blockCount) && i < |arrivals|
    ensures Completes(arrivals, nExperts, bid, i) <==>
            arrivals[i].name.bid == bid && ReleasedAt(arrivals, nExperts, i) != []
  {
    var upTo := arrivals[..i + 1];
    assert upTo[..i] == arrivals[..i] && upTo[i] == arrivals[i];
    assert Checkpoint(upTo, nExperts, blockCount);
    ReceivedByStep(upTo, nExperts, blockCount, bid);
  }

  lemma NothingIsIncomplete<T>(arrivals: seq<Arrival<T>>, nExperts: nat, bid: nat)
    requires nExperts > 0
    ensures !Complete(arrivals[..0], nExperts, bid)
  {
    assert Expert(bid, 0, W1) in Expected(bid, nExperts);
  }

  lemma {:induction false} SomeArrivalCompletes<T>(arrivals: seq<Arrival<T>>, nExperts: nat, bid: nat, n: nat) returns (i: nat)
    requires nExperts > 0 && n <= |arrivals| && Complete(arrivals[..n], nExperts, bid)
    ensures i < n && Completes(arrivals, nExperts, bid, i)
  {
    NothingIsIncomplete(arrivals, nExperts, bid);
    if Complete(arrivals[..n - 1], nExperts, bid) {
      i := SomeArrivalCompletes(arrivals, nExperts, bid, n - 1);
    } else {
      i := n - 1;
    }
  }

  ghost predicate Releases<T>(arrivals: seq<Arrival<T>>, nExperts: nat, bid: nat, i: nat)
    requires i < |arrivals| && arrivals[i].name.Expert?
  {
    arrivals[i].name.bid == bid && ReleasedAt(arrivals, nExperts, i) != []
  }

  /** A block is released at some point exactly when everything it needs arrives. */
  lemma ReleasedIffComplete<T>(arrivals: seq<Arrival<T>>, nExperts: nat, blockCount: nat, bid: nat)
    requires Checkpoint(arrivals, nExperts, blockCount) && nExperts > 0
    ensures Complete(arrivals, nExperts, bid) <==>
            exists i :: 0 <= i < |arrivals| && Releases(arrivals, nExperts, bid, i)
  {
    assert arrivals[..|arrivals|] == arrivals;
    if Complete(arrivals, nExperts, bid) {
      var i := SomeArrivalCompletes(arrivals, nExperts, bid, |arrivals|);
      ReleaseIsCompletion(arrivals, nExperts, blockCount, bid, i);
      assert Releases(arrivals, nExperts, bid, i);
    }
    if exists i :: 0 <= i < |arrivals| && Releases(arrivals, nExperts, bid, i) {
      var i :| 0 <= i < |arrivals| && Releases(arrivals, nExperts, bid, i);
      ReleaseIsCompletion(arrivals, nExperts, blockCount, bid, i);
      CompletionLasts(arrivals, nExperts, bid, i + 1, |arrivals|);
    }
  }

  /** No block is released twice. */
  lemma ReleasedOnce<T>(arrivals: seq<Arrival<T>>, nExperts: nat, blockCount: nat, bid: nat, i: nat, j: nat)
    requires Checkpoint(arrivals, nExperts, blockCount) && i < |arrivals| && j < |arrivals|
    requires Releases(arrivals, nExperts, bid, i) && Releases(arrivals, nExperts, bid, j)
    ensures i == j
  {
    ReleaseIsCompletion(arrivals, nExperts, blockCount, bid, i);
    ReleaseIsCompletion(arrivals, nExperts, blockCount, bid, j);
    if i < j {
      CompletionLasts(arrivals, nExperts, bid, i + 1, j);
    } else if j < i {
      CompletionLasts(arrivals, nExperts, bid, j + 1, i);
    }
  }

  /** What is released: three tensors, in which index `x` holds the tensor that arrived for expert `x`. */
  lemma ReleasedInOrder<T>(arrivals: seq<Arrival<T>>, nExperts: nat, blockCount: nat, bid: nat, i: nat, x: nat, wid: Wid)
    returns (k: nat)
    requires Checkpoint(arrivals, nExperts, blockCount) && i < |arrivals| && x < nExperts
    requires Releases(arrivals, nExperts, bid, i)
    ensures var out := ReleasedAt(arrivals, nExperts, i);
            var e := if wid == W1 then out[0] else if wid == W2 then out[1] else out[2];
            && |out| == 3 && e.bid == bid && e.wid == wid && |e.datas| == nExperts
            && k <= i && arrivals[k] == Arrival(bid, Expert(bid, x, wid), e.datas[x])
  {
    var upTo := arrivals[..i + 1];
    assert Checkpoint(upTo, nExperts, blockCount);
    assert Expert(bid, x, wid) in Expected(bid, nExperts);
    k := ReceivedFrom(upTo, bid, Expert(bid, x, wid));
  }

  lemma {:induction false} ReceivedFrom<T>(arrivals: seq<Arrival<T>>, bid: nat, name: Name) returns (k: nat)
    requires name in Received(arrivals, bid)
    ensures k < |arrivals| && arrivals[k].name == name && arrivals[k].data == Received(arrivals, bid)[name]
  {
    var n := |arrivals| - 1;
    if arrivals[n].name == name {
      k := n;
    } else {
      k := ReceivedFrom(arrivals[..n], bid, name);
    }
  }

  /** The final check fails exactly when some block has received a part of its experts but not all: a block of
      which nothing arrived goes unnoticed. */
  lemma FinalCheckFailsIff<T>(arrivals: seq<Arrival<T>>, nExperts: nat, blockCount: nat)
    requires Checkpoint(arrivals, nExperts, blockCount)
    ensures Process(arrivals, nExperts, blockCount).Ok?
    ensures var blocks := Process(arrivals, nExperts, blockCount).value.blocks;
            (exists b :: 0 <= b < blockCount && blocks[b] != map[]) <==>
            (exists b :: 0 <= b < blockCount && Received(arrivals, b) != map[] && !Complete(arrivals, nExperts, b))
  {
    BuffersHoldPending(arrivals, nExperts, blockCount);
    var blocks := Process(arrivals, nExperts, blockCount).value.blocks;
    assert forall b :: 0 <= b < blockCount ==>
      (blocks[b] != map[] <==> Received(arrivals, b) != map[] && !Complete(arrivals, nExperts, b));
  }

  /** Such a block: with no arrivals at all nothing is left over, whatever the model should have had. */
  lemma MissingBlockGoesUnnoticed<T>(nExperts: nat, blockCount: nat, b: nat)
    requires nExperts > 0 && b < blockCount
    ensures var arrivals: seq<Arrival<T>> := [];
            && !Complete(arrivals, nExperts, b)
            && Process(arrivals, nExperts, blockCount).Ok?
            && forall b' :: 0 <= b' < blockCount ==> Process(arrivals, nExperts, blockCount).value.blocks[b'] == map[]
  {
    NothingIsIncomplete<T>([], nExperts, b);
  }
}
