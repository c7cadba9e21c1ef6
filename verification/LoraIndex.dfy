/** What an index takes of a factored tensor, and what becomes of an ellipsis
    (llama.cpp/convert_lora_to_gguf.py:57-113). */
module LoraIndex {
  import opened Wrappers
  import opened Tensors
  import opened IndexLaws
  import opened LoraTensor
  import opened LoraSelect
  import opened LoraChain

  // ----- the elements that an index takes -----

  /** The elements of an indexed product are those that the index points at. */
  lemma ItemTakes(l: Lora, indices: Indices, idx: Index, src: Index, r: Lora)
    requires l.WellFormed() && LoraGetItem(l, indices) == Some(r) && ItemSafe(l, indices)
    requires |DenseSels(indices)| <= l.Dims()
    requires Points(AllEntries(DenseSels(indices), l.Dims()), l.Shape(), idx, src)
    ensures r.WellFormed() && Within(idx, r.Shape()) && Within(src, l.Shape()) && Entry(r, idx) == Entry(l, src)
  {
    ItemCommutes(l, indices);
    IndexLaws.ItemAt(Dense(l), DenseSels(indices), idx, src);
    DenseAt(r, idx);
    DenseAt(l, src);
  }

  /** Tuples that keep rows and columns are accepted exactly when they have an entry and torch accepts them. */
  lemma TupleAcceptedIff(l: Lora, sels: seq<Sel>)
    requires l.WellFormed() && |sels| <= l.Dims() && KeepsMatrix(l, sels)
    ensures LoraGetItem(l, Tuple(sels)).Some? <==>
            sels != [] && forall i :: 0 <= i < |sels| ==> Acceptable(sels[i], l.Shape()[i])
  {
    PaddedOkIff(sels, l.Shape());
    if sels != [] && LoraGetItem(l, Tuple(sels)).Some? {
      AcceptedTupleIsOk(l, sels);
    }
    if sels != [] && SelsOk(Padded(l, sels), l.Shape()) {
      MatrixTupleAccepted(l, sels);
    }
  }

  /** The padded tuple by its parts. */
  lemma SplitParts(l: Lora, sels: seq<Sel>, s: Split)
    requires l.WellFormed() && |sels| <= l.Dims() && SplitFor(l, sels) == Some(s)
    ensures Padded(l, sels) == s.leadB + [s.row, s.col] == sels + Wholes(l.Dims() - |sels|)
    ensures Padded(l, sels)[..l.Dims() - 2] == s.leadB
    ensures KeepsMatrix(l, sels) <==> s.row.Span? && s.col.Span?
    ensures SelsOk(Padded(l, sels), l.Shape()) <==> SelsOk(s.leadB, l.LeadB()) && SelOk(s.row, l.Rows()) && SelOk(s.col, l.Cols())
  {
    var all := Padded(l, sels);
    assert all[l.Dims() - 2] == s.row && all[l.Dims() - 1] == s.col;
    assert l.Shape() == l.LeadB() + [l.Rows(), l.Cols()];
    SelsOkSplit(s.leadB, [s.row, s.col], l.LeadB(), [l.Rows(), l.Cols()]);
    PairOk(s.row, s.col, l.Rows(), l.Cols());
  }

  lemma PairOk(x: Sel, y: Sel, n: nat, m: nat)
    ensures SelsOk([x, y], [n, m]) <==> SelOk(x, n) && SelOk(y, m)
  {
    if SelsOk([x, y], [n, m]) {
      assert SelOk([x, y][0], [n, m][0]) && SelOk([x, y][1], [n, m][1]);
    }
  }

  lemma AcceptedTupleIsOk(l: Lora, sels: seq<Sel>)
    requires l.WellFormed() && |sels| <= l.Dims() && KeepsMatrix(l, sels) && LoraGetItem(l, Tuple(sels)).Some?
    ensures SelsOk(Padded(l, sels), l.Shape())
  {
    var s := SplitFor(l, sels).value;
    SplitParts(l, sels, s);
    TupleEntries(l, sels, s);
  }

  lemma {:induction false} EntriesForAExist(sels: seq<Sel>, shape: Shape)
    requires |sels| <= |shape| && forall i :: 0 <= i < |sels| && sels[i].Pick? ==> shape[i] > 0
    ensures EntriesForA(sels, shape).Some?
  {
    if sels != [] {
      EntriesForAExist(sels[1..], shape[1..]);
    }
  }

  lemma LeadForA(l: Lora, lead: seq<Sel>)
    requires l.WellFormed() && |lead| == l.Dims() - 2 && SelsOk(lead, l.LeadB())
    ensures EntriesForA(lead, l.a.shape).Some?
  {
    forall i | 0 <= i < |lead| && lead[i].Pick? ensures l.a.shape[i] > 0 {
      assert SelOk(lead[i], l.LeadB()[i]) && (l.LeadA()[i] == 1 || l.LeadA()[i] == l.LeadB()[i]);
    }
    EntriesForAExist(lead, l.a.shape);
  }

  lemma LeadsKeepDims(l: Lora, s: Split)
    requires l.WellFormed() && |s.leadA| == |s.leadB| == l.Dims() - 2
    requires forall i :: 0 <= i < |s.leadB| ==> EntryForA(s.leadB[i], l.a.shape[i]) == Some(s.leadA[i])
    requires SelsOk(s.leadB, l.LeadB())
    ensures SelsOk(s.leadA, l.LeadA())
    ensures |SelectedShape(s.leadA, l.LeadA())| == |SelectedShape(s.leadB, l.LeadB())|
  {
    forall i | 0 <= i < |s.leadA| ensures SelOk(s.leadA[i], l.LeadA()[i]) {
      assert EntryForA(s.leadB[i], l.a.shape[i]) == Some(s.leadA[i]);
    }
    SpansForA(s.leadA, s.leadB, l.a.shape);
    SelectedDims(s.leadA, l.LeadA());
    SelectedDims(s.leadB, l.LeadB());
  }

  /** The factors of a matrix that is left, whatever its leading dimensions. */
  lemma PairAccepted(t: Tensor<real>, sels: seq<Sel>, lead: seq<Sel>, x: Sel, y: Sel, shape: Shape, n: nat, m: nat)
    returns (r: Tensor<real>)
    requires t.Valid() && t.shape == shape + [n, m] && SelsOk(lead, shape)
    requires x.Span? && SelOk(x, n) && y.Span? && SelOk(y, m)
    requires sels == lead + [x, y] || (y == WHOLE && sels == lead + [x])
    ensures GetItem(t, sels) == Some(r) && r.Valid()
    ensures r.shape == SelectedShape(lead, shape) + [Count(x, n), Count(y, m)]
  {
    SelsOkSplit(lead, [x, y], shape, [n, m]);
    GetItemIs(t, sels, lead + [x, y]);
    PairSelected(x, y, n, m);
    SelectedShapeOfConcat(lead, [x, y], shape, [n, m]);
    r := GetItem(t, sels).value;
  }

  lemma SplitAccepted(l: Lora, s: Split)
    requires l.WellFormed() && |s.leadA| == |s.leadB| == l.Dims() - 2
    requires forall i :: 0 <= i < |s.leadB| ==> EntryForA(s.leadB[i], l.a.shape[i]) == Some(s.leadA[i])
    requires SelsOk(s.leadB, l.LeadB())
    requires s.row.Span? && SelOk(s.row, l.Rows()) && s.col.Span? && SelOk(s.col, l.Cols())
    ensures MakeSome(GetItem(l.a, s.ForA()), GetItem(l.b, s.leadB + [s.row])).Some?
  {
    LeadsKeepDims(l, s);
    assert l.a.shape == l.LeadA() + [l.Rank(), l.Cols()] && l.b.shape == l.LeadB() + [l.Rows(), l.Rank()];
    var a := PairAccepted(l.a, s.ForA(), s.leadA, WHOLE, s.col, l.LeadA(), l.Rank(), l.Cols());
    var b := PairAccepted(l.b, s.leadB + [s.row], s.leadB, s.row, WHOLE, l.LeadB(), l.Rows(), l.Rank());
    WholeIsAll(l.Rank());
  }

  lemma MatrixTupleAccepted(l: Lora, sels: seq<Sel>)
    requires l.WellFormed() && |sels| <= l.Dims() && KeepsMatrix(l, sels)
    requires sels != [] && SelsOk(Padded(l, sels), l.Shape())
    ensures LoraGetItem(l, Tuple(sels)).Some?
  {
    LeadIsOk(l, sels);
    LeadForA(l, Padded(l, sels)[..l.Dims() - 2]);
    var s := SplitFor(l, sels).value;
    SplitParts(l, sels, s);
    SplitAccepted(l, s);
  }

  lemma LeadIsOk(l: Lora, sels: seq<Sel>)
    requires l.WellFormed() && |sels| <= l.Dims() && SelsOk(Padded(l, sels), l.Shape())
    ensures SelsOk(Padded(l, sels)[..l.Dims() - 2], l.LeadB())
  {
    var all := Padded(l, sels);
    assert forall i :: 0 <= i < l.Dims() - 2 ==> SelOk(all[i], l.Shape()[i]) && l.Shape()[i] == l.LeadB()[i];
  }

  lemma WholeIsAll(n: nat)
    ensures SelOk(WHOLE, n) && Count(WHOLE, n) == n
  {
  }

  lemma FirstShapes(t: Tensor<real>, sel: Sel, r: Tensor<real>)
    requires t.Valid() && |t.shape| > 2 && GetItem(t, [sel]) == Some(r)
    ensures |r.shape| == (if sel.Pick? then |t.shape| - 1 else |t.shape|)
    ensures r.shape[|r.shape| - 1] == t.shape[|t.shape| - 1] && r.shape[|r.shape| - 2] == t.shape[|t.shape| - 2]
  {
    var all := [sel] + Wholes(|t.shape| - 1);
    assert all[1..] == Wholes(|t.shape[1..]|);
    WholesSelectAll(t.shape[1..]);
    assert r.shape == if sel.Pick? then t.shape[1..] else [Count(sel, t.shape[0])] + t.shape[1..];
  }

  lemma OneMade(l: Lora, sel: Sel, a: Tensor<real>, b: Tensor<real>)
    requires l.WellFormed() && l.Dims() > 2 && GetItem(l.a, [sel]) == Some(a) && GetItem(l.b, [sel]) == Some(b)
    ensures Make(a, b).Some?
  {
    FirstShapes(l.a, sel, a);
    FirstShapes(l.b, sel, b);
  }

  lemma FirstAccepted(t: Tensor<real>, sel: Sel)
    requires t.Valid() && t.shape != []
    ensures GetItem(t, [sel]).Some? <==> Acceptable(sel, t.shape[0])
  {
    AcceptedIff(t, [sel]);
  }

  /** One slice or integer, with leading dimensions, is accepted exactly when it is by both factors: an integer above 0
      is not where A has one position for all. */
  lemma OneAcceptedIff(l: Lora, sel: Sel)
    requires l.WellFormed() && l.Dims() > 2
    ensures LoraGetItem(l, One(sel)).Some? <==> Acceptable(sel, l.a.shape[0]) && Acceptable(sel, l.b.shape[0])
  {
    FirstAccepted(l.a, sel);
    FirstAccepted(l.b, sel);
    var a, b := GetItem(l.a, [sel]), GetItem(l.b, [sel]);
    assert LoraGetItem(l, One(sel)) == MakeSome(a, b);
    if a.Some? && b.Some? {
      OneMade(l, sel, a.value, b.value);
    }
  }

  // ----- rows of a matrix -----

  lemma RowSplit(l: Lora, sel: Sel)
    requires l.Constructible() && l.Dims() == 2
    ensures SplitFor(l, [sel]) == Some(Split([], [], sel, WHOLE))
  {
    assert Padded(l, [sel]) == [sel, WHOLE] && [sel, WHOLE][..0] == [];
  }

  lemma WholeMatrix(t: Tensor<real>)
    requires t.Valid() && |t.shape| == 2
    ensures GetItem(t, [] + [WHOLE, WHOLE]) == Some(t)
  {
    SelectWholes(t);
    assert [] + [WHOLE, WHOLE] + Wholes(0) == Wholes(2);
  }

  /** A slice of a matrix, alone or in a tuple, keeps A and takes the slice of B. */
  lemma MatrixSliced(l: Lora, sel: Sel)
    requires l.Constructible() && l.Dims() == 2 && sel.Span?
    ensures LoraGetItem(l, One(sel)) == MakeSome(Some(l.a), GetItem(l.b, [sel])) == LoraGetItem(l, Tuple([sel]))
  {
    RowSplit(l, sel);
    WholeMatrix(l.a);
    assert [] + [sel] == [sel];
  }

  lemma MatrixRows(t: Tensor<real>, rows: nat, rank: nat, lo: nat, hi: nat, step: nat, i: nat, pos: nat, k: nat)
      returns (b: Tensor<real>)
    requires t.Valid() && t.shape == [rows, rank] && lo <= hi <= rows && step > 0 && pos == lo + i * step
    ensures GetItem(t, [Span(Some(lo), Some(hi), step)]) == Some(b)
    ensures b.Valid() && |b.shape| == 2 && b.shape[1] == rank && (i < b.shape[0] <==> pos < hi)
    ensures pos < hi && k < rank ==>
              Within([i, k], b.shape) && Within([pos, k], t.shape) && At(b, [i, k]) == At(t, [pos, k])
  {
    assert t.shape[1..] == [rank];
    b := SliceOfFirst(t, lo, hi, step, i, pos, [k]);
    assert b.shape == [b.shape[0]] + b.shape[1..];
    assert [i] + [k] == [i, k] && [pos] + [k] == [pos, k];
  }

  lemma RowsMade(l: Lora, sel: Sel, b: Tensor<real>)
    requires l.WellFormed() && l.Dims() == 2 && sel.Span? && GetItem(l.b, [sel]) == Some(b)
    requires Lora(l.a, b).Constructible()
    ensures LoraGetItem(l, Tuple([sel])) == Some(Lora(l.a, b))
  {
    MatrixSliced(l, sel);
    assert MakeSome(Some(l.a), Some(b)) == Some(Lora(l.a, b));
  }

  /** So rows `lo` to `hi` of a matrix are accepted, and row `i` of them is row `pos` of B. */
  lemma RowOfSlice(l: Lora, lo: nat, hi: nat, step: nat, i: nat, pos: nat, k: nat) returns (b: Tensor<real>)
    requires l.WellFormed() && l.Dims() == 2 && lo <= hi <= l.Rows() && step > 0 && pos == lo + i * step
    ensures LoraGetItem(l, Tuple([Span(Some(lo), Some(hi), step)])) == Some(Lora(l.a, b))
    ensures b.Valid() && |b.shape| == 2 && b.shape[1] == l.Rank() && (i < b.shape[0] <==> pos < hi)
    ensures pos < hi && k < l.Rank() ==>
              Within([i, k], b.shape) && Within([pos, k], l.b.shape) && At(b, [i, k]) == At(l.b, [pos, k])
  {
    b := MatrixRows(l.b, l.Rows(), l.Rank(), lo, hi, step, i, pos, k);
    RowsMade(l, Span(Some(lo), Some(hi), step), b);
  }

  // ----- the ellipsis -----

  /** One entry of a tuple as it is written: `...`, or a slice or integer. */
  datatype Slot = Dots | Given(sel: Sel)

  function Entries(sels: seq<Sel>): (r: seq<Slot>)
    ensures |r| == |sels| && forall i :: 0 <= i < |r| ==> r[i] == Given(sels[i])
  {
    seq(|sels|, i requires 0 <= i < |sels| => Given(sels[i]))
  }

  /** Every ellipsis replaced by `k` slices that take everything. */
  function Expanded(slots: seq<Slot>, k: nat): seq<Sel> {
    if slots == [] then []
    else (if slots[0].Dots? then Wholes(k) else [slots[0].sel]) + Expanded(slots[1..], k)
  }

  /** `__getitem__` on a tuple as it is written: an ellipsis at the end is dropped, and any other stands for one slice
      less than the tuple has entries. */
  function LoraIndexed(l: Lora, slots: seq<Slot>): (r: Option<Lora>)
    requires l.Constructible()
    ensures r.Some? ==> r.value.Constructible()
    decreases |slots|
  {
    if slots == [] then None
    else if slots[|slots| - 1].Dots? then LoraIndexed(l, slots[..|slots| - 1])
    else LoraGetItem(l, Tuple(Expanded(slots, |slots| - 1)))
  }

  /** What torch makes of a tuple with one ellipsis: it stands for the dimensions that the other entries leave. */
  function TorchIndexed(t: Tensor<real>, before: seq<Sel>, after: seq<Sel>): Option<Tensor<real>>
    requires t.Valid()
  {
    var m := |before| + |after|;
    if |t.shape| < m then None else GetItem(t, before + Wholes(|t.shape| - m) + after)
  }

  function Written(before: seq<Sel>, after: seq<Sel>): seq<Slot> {
    Entries(before) + [Dots] + Entries(after)
  }

  lemma {:induction false} ExpandedOfEntries(before: seq<Sel>, rest: seq<Slot>, k: nat)
    ensures Expanded(Entries(before) + rest, k) == before + Expanded(rest, k)
  {
    if before == [] {
      assert Entries(before) + rest == rest;
    } else {
      assert (Entries(before) + rest)[1..] == Entries(before[1..]) + rest;
      ExpandedOfEntries(before[1..], rest, k);
    }
  }

  lemma ExpandedIs(before: seq<Sel>, after: seq<Sel>, k: nat)
    ensures Expanded(Written(before, after), k) == before + Wholes(k) + after
  {
    var rest := [Dots] + Entries(after);
    assert Written(before, after) == Entries(before) + rest && rest[1..] == Entries(after);
    ExpandedOfEntries(before, rest, k);
    assert Entries(after) + [] == Entries(after);
    ExpandedOfEntries(after, [], k);
    assert Expanded([], k) == [] && after + [] == after;
  }

  /** The tuple without the ellipsis. */
  function Used(before: seq<Sel>, after: seq<Sel>): seq<Sel> {
    if after == [] then before else before + Wholes(|before| + |after|) + after
  }

  lemma WrittenEnd(before: seq<Sel>, after: seq<Sel>)
    requires after != []
    ensures var slots := Written(before, after);
            |slots| == |before| + |after| + 1 && slots[|slots| - 1] == Given(after[|after| - 1])
  {
  }

  lemma ExpandedToUsed(before: seq<Sel>, after: seq<Sel>)
    requires after != []
    ensures Expanded(Written(before, after), |before| + |after|) == Used(before, after)
  {
    ExpandedIs(before, after, |before| + |after|);
  }

  lemma LastDotsAreDropped(before: seq<Sel>)
    requires before != []
    ensures var slots := Entries(before); !slots[|slots| - 1].Dots? && Expanded(slots, |slots| - 1) == before
    ensures Written(before, [])[..|before|] == Entries(before) && Written(before, [])[|before|].Dots?
  {
    assert Entries(before) + [] == Entries(before) && before + [] == before;
    ExpandedOfEntries(before, [], |before| - 1);
  }

  lemma LastIsGiven(l: Lora, slots: seq<Slot>, used: seq<Sel>)
    requires l.Constructible() && slots != [] && slots[|slots| - 1].Given? && Expanded(slots, |slots| - 1) == used
    ensures LoraIndexed(l, slots) == LoraGetItem(l, Tuple(used))
  {
  }

  lemma LastIsDots(l: Lora, slots: seq<Slot>, init: seq<Slot>)
    requires l.Constructible() && slots == init + [Dots]
    ensures LoraIndexed(l, slots) == LoraIndexed(l, init)
  {
    assert slots[..|slots| - 1] == init;
  }

  lemma LoraIndexedIs(l: Lora, before: seq<Sel>, after: seq<Sel>)
    requires l.Constructible()
    ensures LoraIndexed(l, Written(before, after)) == LoraGetItem(l, Tuple(Used(before, after)))
  {
    if after != [] {
      WrittenEnd(before, after);
      ExpandedToUsed(before, after);
      LastIsGiven(l, Written(before, after), Used(before, after));
    } else {
      assert Written(before, []) == Entries(before) + [Dots];
      LastIsDots(l, Written(before, []), Entries(before));
      if before != [] {
        LastDotsAreDropped(before);
        LastIsGiven(l, Entries(before), before);
      }
    }
  }

  predicate AllWhole(sels: seq<Sel>) {
    forall i :: 0 <= i < |sels| ==> sels[i] == WHOLE
  }

  /** The ellipsis stands for what it should: it is the last entry, the others take half of the dimensions, or those
      after it take everything. */
  predicate EllipsisFits(n: nat, before: seq<Sel>, after: seq<Sel>) {
    after == [] || 2 * (|before| + |after|) == n || AllWhole(after)
  }

  lemma {:induction false} WholesCommute(k: nat, sels: seq<Sel>)
    requires k > 0
    ensures Wholes(k) + sels == sels + Wholes(k) <==> AllWhole(sels)
    decreases |sels|
  {
    var left, right := Wholes(k) + sels, sels + Wholes(k);
    if left == right && sels != [] {
      assert left[0] == right[0];
      assert left[1..] == Wholes(k - 1) + sels && Wholes(k - 1) + [WHOLE] == Wholes(k);
      assert right[1..] == sels[1..] + Wholes(k) && sels == [WHOLE] + sels[1..];
      assert Wholes(k - 1) + ([WHOLE] + sels[1..]) == (Wholes(k - 1) + [WHOLE]) + sels[1..];
      WholesCommute(k, sels[1..]);
      assert forall i :: 0 < i < |sels| ==> sels[i] == sels[1..][i - 1];
    } else if AllWhole(sels) {
      assert left == Wholes(k + |sels|) == right;
    }
  }

  lemma SameAfter<T>(a: seq<T>, b: seq<T>, c: seq<T>)
    ensures a + b == a + c <==> b == c
  {
    assert (a + b)[|a|..] == b && (a + c)[|a|..] == c;
  }

  lemma WholesSplit(m: nat, k: nat)
    ensures Wholes(m) + Wholes(k) == Wholes(m + k)
  {
  }

  lemma UsedParts(n: nat, before: seq<Sel>, after: seq<Sel>, m: nat, k: nat)
    requires after != [] && m == |before| + |after| && 2 * m + k == n
    ensures AllEntries(Used(before, after), n) == (before + Wholes(m)) + (after + Wholes(k))
    ensures before + Wholes(n - m) + after == (before + Wholes(m)) + (Wholes(k) + after)
  {
    assert Used(before, after) == before + Wholes(m) + after;
    assert AllEntries(Used(before, after), n) == Used(before, after) + Wholes(k);
    WholesSplit(m, k);
  }

  /** The tuple that is used, padded, is torch's exactly when the ellipsis fits. */
  lemma ExpansionIff(n: nat, before: seq<Sel>, after: seq<Sel>)
    requires after != [] && 2 * (|before| + |after|) <= n
    ensures AllEntries(Used(before, after), n) == before + Wholes(n - |before| - |after|) + after
       <==> EllipsisFits(n, before, after)
  {
    var m := |before| + |after|;
    var k := n - 2 * m;
    UsedParts(n, before, after, m, k);
    SameAfter(before + Wholes(m), after + Wholes(k), Wholes(k) + after);
    if k > 0 {
      WholesCommute(k, after);
    } else {
      assert after + Wholes(0) == after == Wholes(0) + after;
    }
  }

  lemma PaddedIsSame(t: Tensor<real>, sels: seq<Sel>)
    requires t.Valid() && |sels| <= |t.shape|
    ensures GetItem(t, AllEntries(sels, |t.shape|)) == GetItem(t, sels)
  {
    var all := AllEntries(sels, |t.shape|);
    assert all == sels + Wholes(|t.shape| - |sels|) && all + Wholes(0) == all;
  }

  lemma UsedIsTorchs(n: nat, before: seq<Sel>, after: seq<Sel>)
    requires EllipsisFits(n, before, after) && |Used(before, after)| <= n
    ensures AllEntries(Used(before, after), n) == before + Wholes(n - |before| - |after|) + after
  {
    if after == [] {
      assert AllEntries(before, n) == before + Wholes(n - |before|) + [];
    } else {
      ExpansionIff(n, before, after);
    }
  }

  lemma FittingIsTorchs(t: Tensor<real>, before: seq<Sel>, after: seq<Sel>)
    requires t.Valid() && EllipsisFits(|t.shape|, before, after) && |Used(before, after)| <= |t.shape|
    ensures TorchIndexed(t, before, after) == GetItem(t, Used(before, after))
  {
    PaddedIsSame(t, Used(before, after));
    UsedIsTorchs(|t.shape|, before, after);
  }

  /** Where it fits, indexing the factors is indexing the product, under the same condition as without it. */
  lemma EllipsisCommutesIff(l: Lora, before: seq<Sel>, after: seq<Sel>, r: Lora)
    requires l.WellFormed() && EllipsisFits(l.Dims(), before, after)
    requires LoraIndexed(l, Written(before, after)) == Some(r)
    ensures r.WellFormed() && TorchIndexed(Dense(l), before, after) == Some(Dense(r)) <==> TupleSafe(l, Used(before, after))
  {
    LoraIndexedIs(l, before, after);
    FittingIsTorchs(Dense(l), before, after);
    TupleCommutesIff(l, Used(before, after));
  }

  lemma FirstRowAccepted(l: Lora, sels: seq<Sel>) returns (r: Lora)
    requires l.WellFormed() && l.Dims() == 3 && l.Rows() > 1 && l.Cols() > 1
    requires sels == [WHOLE, Span(Some(0), Some(1), 1)]
    ensures LoraGetItem(l, Tuple(sels)) == Some(r) && r.WellFormed() && r.Shape() == [l.Shape()[0], 1, l.Cols()]
  {
    MiddleIsSafe(l, sels);
    TupleAcceptedIff(l, sels);
    TupleCommutesIff(l, sels);
    r := LoraGetItem(l, Tuple(sels)).value;
    FirstRowShape(Dense(l), sels);
  }

  lemma FirstColumnMeant(d: Tensor<real>) returns (t: Tensor<real>)
    requires d.Valid() && |d.shape| == 3 && d.shape[2] > 1
    ensures TorchIndexed(d, [], [Span(Some(0), Some(1), 1)]) == Some(t) && t.shape == [d.shape[0], d.shape[1], 1]
  {
    var sel := Span(Some(0), Some(1), 1);
    assert [] + Wholes(2) + [sel] == [WHOLE, WHOLE, sel];
    FirstColumnShape(d, [WHOLE, WHOLE, sel]);
    t := TorchIndexed(d, [], [sel]).value;
  }

  /** Where it does not, another dimension is indexed: `x[..., 0:1]` of three dimensions takes the first row of each
      matrix and not the first column. */
  lemma EllipsisTakesRows(l: Lora) returns (r: Lora, t: Tensor<real>)
    requires l.WellFormed() && l.Dims() == 3 && l.Rows() > 1 && l.Cols() > 1
    ensures LoraIndexed(l, Written([], [Span(Some(0), Some(1), 1)])) == Some(r)
    ensures r.WellFormed() && r.Shape() == [l.Shape()[0], 1, l.Cols()]
    ensures TorchIndexed(Dense(l), [], [Span(Some(0), Some(1), 1)]) == Some(t)
    ensures t.shape == [l.Shape()[0], l.Rows(), 1]
  {
    var sel := Span(Some(0), Some(1), 1);
    LoraIndexedIs(l, [], [sel]);
    assert Used([], [sel]) == [WHOLE, sel];
    r := FirstRowAccepted(l, [WHOLE, sel]);
    t := FirstColumnMeant(Dense(l));
  }

  lemma MiddleIsSafe(l: Lora, sels: seq<Sel>)
    requires l.WellFormed() && l.Dims() == 3 && sels == [WHOLE, Span(Some(0), Some(1), 1)]
    ensures TupleSafe(l, sels)
  {
    var all := Padded(l, sels);
    assert all == [WHOLE, Span(Some(0), Some(1), 1), WHOLE] && all[..1] == [WHOLE];
  }

  lemma FirstRowShape(t: Tensor<real>, sels: seq<Sel>)
    requires t.Valid() && |t.shape| == 3 && t.shape[1] > 1 && sels == [WHOLE, Span(Some(0), Some(1), 1)]
    ensures GetItem(t, sels).Some? && GetItem(t, sels).value.shape == [t.shape[0], 1, t.shape[2]]
  {
    ShapeOfThree(t, WHOLE, sels[1], WHOLE);
    assert sels + Wholes(1) == [WHOLE, sels[1], WHOLE];
  }

  lemma FirstColumnShape(t: Tensor<real>, sels: seq<Sel>)
    requires t.Valid() && |t.shape| == 3 && t.shape[2] > 1 && sels == [WHOLE, WHOLE, Span(Some(0), Some(1), 1)]
    ensures GetItem(t, sels).Some? && GetItem(t, sels).value.shape == [t.shape[0], t.shape[1], 1]
  {
    ShapeOfThree(t, WHOLE, WHOLE, sels[2]);
    assert sels + Wholes(0) == sels == [WHOLE, WHOLE, sels[2]];
  }

  lemma ShapeOfThree(t: Tensor<real>, x: Sel, y: Sel, z: Sel)
    requires t.Valid() && |t.shape| == 3 && x.Span? && y.Span? && z.Span?
    requires SelOk(x, t.shape[0]) && SelOk(y, t.shape[1]) && SelOk(z, t.shape[2])
    ensures SelsOk([x, y, z], t.shape)
    ensures SelectedShape([x, y, z], t.shape) == [Count(x, t.shape[0]), Count(y, t.shape[1]), Count(z, t.shape[2])]
  {
    assert [x, y, z][1..] == [y, z] && t.shape[1..] == [t.shape[1], t.shape[2]];
    PairSelected(y, z, t.shape[1], t.shape[2]);
  }
}
