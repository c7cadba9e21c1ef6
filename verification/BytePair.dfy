/** Ranked byte-pair merging (llama.cpp/convert_hf_to_gguf.py, QwenModel.bpe). */
module BytePair {
  import opened Wrappers

  type Bytes = seq<bv8>
  type Ranks = map<Bytes, int>

  // ----- one step -----

  function PairRank(ranks: Ranks, parts: seq<Bytes>, i: nat): Option<int>
    requires i + 1 < |parts|
  {
    var pair := parts[i] + parts[i + 1];
    if pair in ranks then Some(ranks[pair]) else None
  }

  datatype Choice = NoPair | Pair(idx: nat, rank: int)

  /** `best` is the leftmost of the lowest-ranked adjacent pairs among the first `n`. */
  ghost predicate IsBest(ranks: Ranks, parts: seq<Bytes>, n: nat, best: Choice)
    requires n == 0 || n < |parts|
  {
    match best
    case NoPair => forall i: nat :: i < n ==> PairRank(ranks, parts, i).None?
    case Pair(idx, rank) =>
      && idx < n && PairRank(ranks, parts, idx) == Some(rank)
      && (forall i: nat :: i < idx && PairRank(ranks, parts, i).Some? ==> rank < PairRank(ranks, parts, i).value)
      && (forall i: nat :: i < n && PairRank(ranks, parts, i).Some? ==> rank <= PairRank(ranks, parts, i).value)
  }

  function BestPair(ranks: Ranks, parts: seq<Bytes>, n: nat): (best: Choice)
    requires n == 0 || n < |parts|
    ensures IsBest(ranks, parts, n, best)
  {
    if n == 0 then NoPair
    else
      var before, rank := BestPair(ranks, parts, n - 1), PairRank(ranks, parts, n - 1);
      if rank.Some? && (before.NoPair? || rank.value < before.rank) then Pair(n - 1, rank.value) else before
  }

  function Best(ranks: Ranks, parts: seq<Bytes>): (best: Choice)
    ensures best.Pair? ==> best.idx + 1 < |parts|
  {
    BestPair(ranks, parts, if parts == [] then 0 else |parts| - 1)
  }

  predicate Below(rank: int, limit: Option<int>) {
    limit.None? || rank < limit.value
  }

  /** Parts `i` and `i + 1` become one. */
  function Merge(parts: seq<Bytes>, i: nat): (r: seq<Bytes>)
    requires i + 1 < |parts|
    ensures |r| == |parts| - 1
  {
    parts[..i] + [parts[i] + parts[i + 1]] + parts[i + 2..]
  }

  /** Merging as long as there is a pair ranked below the limit. */
  function Run(ranks: Ranks, parts: seq<Bytes>, limit: Option<int>): seq<Bytes>
    decreases |parts|
  {
    var best := Best(ranks, parts);
    if best.NoPair? || !Below(best.rank, limit) then parts
    else Run(ranks, Merge(parts, best.idx), limit)
  }

  function Singles(token: Bytes): (r: seq<Bytes>)
    ensures |r| == |token| && forall i :: 0 <= i < |r| ==> r[i] == [token[i]]
  {
    seq(|token|, i requires 0 <= i < |token| => [token[i]])
  }

  /** `QwenModel.bpe`: the inner loop finds the pair, the outer one merges it. */
  method Bpe(mergeableRanks: Ranks, token: Bytes, maxRank: Option<int>) returns (parts: seq<Bytes>)
    ensures parts == Run(mergeableRanks, Singles(token), maxRank)
  {
    parts := Singles(token);
    ghost var goal := Run(mergeableRanks, parts, maxRank);
    while true
      invariant Run(mergeableRanks, parts, maxRank) == goal
      decreases |parts|
    {
      var minIdx: Option<nat>, minRank: Option<int> := None, None;
      var pairs := if parts == [] then 0 else |parts| - 1;
      for i := 0 to pairs
        invariant minIdx.Some? == minRank.Some?
        invariant BestPair(mergeableRanks, parts, i)
               == if minIdx.None? then NoPair else Pair(minIdx.value, minRank.value)
      {
        var pair := parts[i] + parts[i + 1];
        if pair in mergeableRanks {
          var rank := mergeableRanks[pair];
          if minRank.None? || rank < minRank.value {
            minIdx, minRank := Some(i), Some(rank);
          }
        }
      }
      ghost var best := Best(mergeableRanks, parts);
      assert best == if minIdx.None? then NoPair else Pair(minIdx.value, minRank.value);
      if minRank.None? || (maxRank.Some? && minRank.value >= maxRank.value) {
        return;
      }
      ghost var merged := Merge(parts, minIdx.value);
      assert Run(mergeableRanks, parts, maxRank) == Run(mergeableRanks, merged, maxRank);
      parts := parts[..minIdx.value] + [parts[minIdx.value] + parts[minIdx.value + 1]] + parts[minIdx.value + 2..];
      assert parts == merged;
    }
  }

  // ----- what is kept, and where it ends -----

  function Concat(parts: seq<Bytes>): Bytes {
    if parts == [] then [] else parts[0] + Concat(parts[1..])
  }

  lemma {:induction false} ConcatOfAppend(a: seq<Bytes>, b: seq<Bytes>)
    ensures Concat(a + b) == Concat(a) + Concat(b)
  {
    if a == [] {
      assert a + b == b;
    } else {
      assert (a + b)[1..] == a[1..] + b;
      ConcatOfAppend(a[1..], b);
    }
  }

  lemma ConcatOfCons(x: Bytes, b: seq<Bytes>)
    ensures Concat([x] + b) == x + Concat(b)
  {
    assert ([x] + b)[1..] == b;
  }

  lemma ConcatOfJoined(x: Bytes, y: Bytes, b: seq<Bytes>)
    ensures Concat([x + y] + b) == Concat([x, y] + b)
  {
    ConcatOfCons(x + y, b);
    ConcatOfCons(x, [y] + b);
    ConcatOfCons(y, b);
    assert [x, y] + b == [x] + ([y] + b);
    assert x + y + Concat(b) == x + (y + Concat(b));
  }

  lemma SplitAroundPair(parts: seq<Bytes>, i: nat)
    requires i + 1 < |parts|
    ensures parts == parts[..i] + ([parts[i], parts[i + 1]] + parts[i + 2..])
  {
  }

  lemma MergeShape(parts: seq<Bytes>, i: nat)
    requires i + 1 < |parts|
    ensures Merge(parts, i) == parts[..i] + ([parts[i] + parts[i + 1]] + parts[i + 2..])
  {
  }

  lemma ConcatOfMerge(parts: seq<Bytes>, i: nat)
    requires i + 1 < |parts|
    ensures Concat(Merge(parts, i)) == Concat(parts)
  {
    var a, b := parts[..i], parts[i + 2..];
    SplitAroundPair(parts, i);
    MergeShape(parts, i);
    ConcatOfAppend(a, [parts[i], parts[i + 1]] + b);
    ConcatOfAppend(a, [parts[i] + parts[i + 1]] + b);
    ConcatOfJoined(parts[i], parts[i + 1], b);
  }

  /** No byte is lost, added or moved, after any number of merges. */
  lemma {:induction false} RunKeepsBytes(ranks: Ranks, parts: seq<Bytes>, limit: Option<int>)
    ensures Concat(Run(ranks, parts, limit)) == Concat(parts)
    decreases |parts|
  {
    var best := Best(ranks, parts);
    if best.Pair? && Below(best.rank, limit) {
      ConcatOfMerge(parts, best.idx);
      RunKeepsBytes(ranks, Merge(parts, best.idx), limit);
    }
  }

  lemma {:induction false} ConcatOfSingles(token: Bytes)
    ensures Concat(Singles(token)) == token
  {
    if token != [] {
      assert Singles(token)[1..] == Singles(token[1..]);
      ConcatOfSingles(token[1..]);
    }
  }

  ghost predicate Ranked(ranks: Ranks, part: Bytes, limit: Option<int>) {
    part in ranks && Below(ranks[part], limit)
  }

  /** Every part of the result was there at the start or is a ranked entry below the limit. */
  lemma {:induction false} RunPartsAreRanked(ranks: Ranks, parts: seq<Bytes>, limit: Option<int>)
    ensures forall part :: part in Run(ranks, parts, limit) ==> part in parts || Ranked(ranks, part, limit)
    decreases |parts|
  {
    var best := Best(ranks, parts);
    if best.Pair? && Below(best.rank, limit) {
      var merged := Merge(parts, best.idx);
      RunPartsAreRanked(ranks, merged, limit);
      assert forall part :: part in merged ==> part in parts || part == parts[best.idx] + parts[best.idx + 1];
    }
  }

  ghost predicate Exhausted(ranks: Ranks, parts: seq<Bytes>, limit: Option<int>) {
    forall i: nat :: i + 1 < |parts| ==> !Ranked(ranks, parts[i] + parts[i + 1], limit)
  }

  lemma NoBestIsExhausted(ranks: Ranks, parts: seq<Bytes>, limit: Option<int>)
    requires Best(ranks, parts).NoPair? || !Below(Best(ranks, parts).rank, limit)
    ensures Exhausted(ranks, parts, limit)
  {
    forall i: nat | i + 1 < |parts|
      ensures !Ranked(ranks, parts[i] + parts[i + 1], limit)
    {
      assert IsBest(ranks, parts, |parts| - 1, Best(ranks, parts));
      var rank := PairRank(ranks, parts, i);
    }
  }

  /** When it stops, no two neighbours form an entry below the limit. */
  lemma {:induction false} RunIsExhaustive(ranks: Ranks, parts: seq<Bytes>, limit: Option<int>)
    ensures Exhausted(ranks, Run(ranks, parts, limit), limit)
    decreases |parts|
  {
    var best := Best(ranks, parts);
    if best.Pair? && Below(best.rank, limit) {
      RunIsExhaustive(ranks, Merge(parts, best.idx), limit);
    } else {
      NoBestIsExhausted(ranks, parts, limit);
    }
  }

  /** The properties together, for a whole token. */
  lemma BpeSegments(ranks: Ranks, token: Bytes, limit: Option<int>)
    ensures var parts := Run(ranks, Singles(token), limit);
            && Concat(parts) == token
            && (forall part :: part in parts ==> |part| == 1 || Ranked(ranks, part, limit))
            && Exhausted(ranks, parts, limit)
  {
    RunKeepsBytes(ranks, Singles(token), limit);
    ConcatOfSingles(token);
    RunPartsAreRanked(ranks, Singles(token), limit);
    RunIsExhaustive(ranks, Singles(token), limit);
  }

  lemma FewPartsAreTheWhole(parts: seq<Bytes>)
    requires |parts| <= 1
    ensures Concat(parts) == [] || Concat(parts) in parts
  {
    if |parts| == 1 {
      assert parts[1..] == [];
      assert Concat(parts) == parts[0];
    }
  }

  /** With its own rank as the limit a token of several bytes is not put together again: the converter can read
      the merge that makes it off the parts. */
  lemma OwnRankDoesNotCollapse(ranks: Ranks, token: Bytes)
    requires |token| >= 2 && token in ranks
    ensures |Run(ranks, Singles(token), Some(ranks[token]))| >= 2
  {
    var parts := Run(ranks, Singles(token), Some(ranks[token]));
    BpeSegments(ranks, token, Some(ranks[token]));
    if |parts| <= 1 {
      FewPartsAreTheWhole(parts);
    }
  }

  // ----- stages -----

  predicate NotAbove(limit: Option<int>, higher: Option<int>) {
    higher.None? || (limit.Some? && limit.value <= higher.value)
  }

  /** Running to a limit and then on to a higher one is running straight to the higher one. */
  lemma {:induction false} RunIsStaged(ranks: Ranks, parts: seq<Bytes>, limit: Option<int>, higher: Option<int>)
    requires NotAbove(limit, higher)
    ensures Run(ranks, Run(ranks, parts, limit), higher) == Run(ranks, parts, higher)
    decreases |parts|
  {
    var best := Best(ranks, parts);
    if best.Pair? && Below(best.rank, limit) {
      RunIsStaged(ranks, Merge(parts, best.idx), limit, higher);
    }
  }

  // ----- the two parts of a token -----

  ghost predicate NoEmptyPart(parts: seq<Bytes>) {
    forall i :: 0 <= i < |parts| ==> parts[i] != []
  }

  lemma {:induction false} RunHasNoEmptyPart(ranks: Ranks, parts: seq<Bytes>, limit: Option<int>)
    requires NoEmptyPart(parts)
    ensures NoEmptyPart(Run(ranks, parts, limit))
    decreases |parts|
  {
    var best := Best(ranks, parts);
    if best.Pair? && Below(best.rank, limit) {
      var merged := Merge(parts, best.idx);
      assert merged[best.idx] == parts[best.idx] + parts[best.idx + 1];
      assert forall i :: 0 <= i < best.idx ==> merged[i] == parts[i];
      assert forall i :: best.idx < i < |merged| ==> merged[i] == parts[i + 1];
      RunHasNoEmptyPart(ranks, merged, limit);
    }
  }

  lemma ConcatOfTwo(parts: seq<Bytes>)
    requires |parts| == 2
    ensures Concat(parts) == parts[0] + parts[1]
  {
    assert parts[1..][1..] == [];
    assert Concat(parts[1..]) == parts[1] + [];
  }

  lemma {:induction false} PartsAreLong(parts: seq<Bytes>)
    requires NoEmptyPart(parts)
    ensures |parts| <= |Concat(parts)|
  {
    if parts != [] {
      PartsAreLong(parts[1..]);
    }
  }

  lemma AroundPair(a: seq<Bytes>, x: Bytes, y: Bytes, b: seq<Bytes>)
    ensures |Concat(a + ([x, y] + b))| == |Concat(a)| + |x + y| + |Concat(b)|
  {
    ConcatOfAppend(a, [x, y] + b);
    ConcatOfAppend([x, y], b);
    ConcatOfTwo([x, y]);
  }

  /** Two neighbours that are all of the token are all there is. */
  lemma PairIsTheWhole(parts: seq<Bytes>, i: nat)
    requires i + 1 < |parts| && NoEmptyPart(parts) && parts[i] + parts[i + 1] == Concat(parts)
    ensures |parts| == 2
  {
    SplitAroundPair(parts, i);
    AroundPair(parts[..i], parts[i], parts[i + 1], parts[i + 2..]);
    PartsAreLong(parts[..i]);
    PartsAreLong(parts[i + 2..]);
  }

  /** No other entry has the token's rank. */
  ghost predicate OwnsRank(ranks: Ranks, token: Bytes) {
    token in ranks && forall other :: other in ranks && ranks[other] == ranks[token] ==> other == token
  }

  /** The next merge from parts that no lower rank joins is the one that makes the token, or there is none. */
  lemma OnlyTheTokenIsNext(ranks: Ranks, token: Bytes, parts: seq<Bytes>)
    requires OwnsRank(ranks, token) && Exhausted(ranks, parts, Some(ranks[token]))
    ensures var best := Best(ranks, parts);
            best.Pair? && Below(best.rank, Some(ranks[token] + 1)) ==> parts[best.idx] + parts[best.idx + 1] == token
  {
    var best := Best(ranks, parts);
    assert IsBest(ranks, parts, if parts == [] then 0 else |parts| - 1, best);
    if best.Pair? && Below(best.rank, Some(ranks[token] + 1)) {
      assert !Ranked(ranks, parts[best.idx] + parts[best.idx + 1], Some(ranks[token]));
    }
  }

  /** Two parts that make the token are merged next. */
  lemma TwoPartsAreNext(ranks: Ranks, token: Bytes, parts: seq<Bytes>)
    requires token in ranks && |parts| == 2 && parts[0] + parts[1] == token
    ensures Run(ranks, parts, Some(ranks[token] + 1)) == [token]
  {
    var best := Best(ranks, parts);
    assert PairRank(ranks, parts, 0) == Some(ranks[token]);
    assert IsBest(ranks, parts, 1, best) && best == Pair(0, ranks[token]);
    assert Merge(parts, 0) == [token];
    assert Run(ranks, [token], Some(ranks[token] + 1)) == [token];
  }

  /** The converter asserts two parts for every token of several bytes. It gets them exactly when merging one rank
      further makes the token whole again. */
  lemma TwoPartsIff(ranks: Ranks, token: Bytes)
    requires |token| >= 2 && OwnsRank(ranks, token)
    ensures |Run(ranks, Singles(token), Some(ranks[token]))| == 2
       <==> Run(ranks, Singles(token), Some(ranks[token] + 1)) == [token]
  {
    var limit, higher := Some(ranks[token]), Some(ranks[token] + 1);
    var parts := Run(ranks, Singles(token), limit);
    RunIsStaged(ranks, Singles(token), limit, higher);
    BpeSegments(ranks, token, limit);
    OwnRankDoesNotCollapse(ranks, token);
    RunHasNoEmptyPart(ranks, Singles(token), limit);
    OnlyTheTokenIsNext(ranks, token, parts);
    var best := Best(ranks, parts);
    if |parts| == 2 {
      ConcatOfTwo(parts);
      TwoPartsAreNext(ranks, token, parts);
    } else if best.Pair? && Below(best.rank, higher) {
      if parts[best.idx] + parts[best.idx + 1] == token {
        PairIsTheWhole(parts, best.idx);
      }
    }
  }

  /** The places where a segmentation cuts the token. */
  ghost predicate CutsAt(parts: seq<Bytes>, pos: nat) {
    exists k: nat :: k <= |parts| && |Concat(parts[..k])| == pos
  }

  ghost predicate Coarser(coarse: seq<Bytes>, fine: seq<Bytes>) {
    Concat(coarse) == Concat(fine) && forall pos :: CutsAt(coarse, pos) ==> CutsAt(fine, pos)
  }

  /** A beginning that includes the merged pair is that beginning merged. */
  lemma MergeOfPrefix(parts: seq<Bytes>, i: nat, k: nat)
    requires i + 1 < |parts| && i < k < |parts|
    ensures Merge(parts, i)[..k] == Merge(parts[..k + 1], i)
  {
    var pair := parts[..i] + [parts[i] + parts[i + 1]];
    assert parts[i + 2..][..k - i - 1] == parts[..k + 1][i + 2..];
    assert (pair + parts[i + 2..])[..k] == pair + parts[i + 2..][..k - i - 1];
    assert parts[..k + 1][..i] == parts[..i];
  }

  lemma MergeIsCoarser(parts: seq<Bytes>, i: nat)
    requires i + 1 < |parts|
    ensures Coarser(Merge(parts, i), parts)
  {
    var merged := Merge(parts, i);
    ConcatOfMerge(parts, i);
    forall pos | CutsAt(merged, pos)
      ensures CutsAt(parts, pos)
    {
      var k: nat :| k <= |merged| && |Concat(merged[..k])| == pos;
      if k <= i {
        assert merged[..k] == parts[..k];
      } else {
        MergeOfPrefix(parts, i, k);
        ConcatOfMerge(parts[..k + 1], i);
        assert |Concat(parts[..k + 1])| == pos;
      }
    }
  }

  lemma {:induction false} RunIsCoarser(ranks: Ranks, parts: seq<Bytes>, limit: Option<int>)
    ensures Coarser(Run(ranks, parts, limit), parts)
    decreases |parts|
  {
    var best := Best(ranks, parts);
    if best.Pair? && Below(best.rank, limit) {
      MergeIsCoarser(parts, best.idx);
      RunIsCoarser(ranks, Merge(parts, best.idx), limit);
    }
  }

  /** So a higher limit only removes cuts. */
  lemma HigherLimitIsCoarser(ranks: Ranks, token: Bytes, limit: Option<int>, higher: Option<int>)
    requires NotAbove(limit, higher)
    ensures Coarser(Run(ranks, Singles(token), higher), Run(ranks, Singles(token), limit))
  {
    RunIsStaged(ranks, Singles(token), limit, higher);
    RunIsCoarser(ranks, Run(ranks, Singles(token), limit), higher);
  }
}
