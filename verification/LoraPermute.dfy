/** Permuting a factored tensor is permuting the product (llama.cpp/convert_lora_to_gguf.py:161-181). */
module LoraPermute {
  import opened Wrappers
  import opened Tensors
  import opened LoraTensor

  // ----- the operation -----

  /** A dimension counted from the end when negative. */
  function Wrap(d: int, n: nat): int {
    if d < 0 then d + n else d
  }

  function Wrapped(dims: seq<int>, n: nat): (r: seq<int>)
    ensures |r| == |dims|
  {
    seq(|dims|, i requires 0 <= i < |dims| => Wrap(dims[i], n))
  }

  /** Dimensions as torch reads them; `None` when it refuses them. */
  function TorchDims(dims: seq<int>, n: nat): (r: Option<seq<nat>>)
    ensures r.Some? ==> Permutation(r.value, n) && r.value == Wrapped(dims, n)
  {
    if |dims| == n && forall i :: 0 <= i < n ==> 0 <= dims[i] + n && dims[i] < n then
      var r: seq<nat> := seq(n, i requires 0 <= i < n => Wrap(dims[i], n));
      if Permutation(r, n) then Some(r) else None
    else None
  }

  function TorchPermute(t: Tensor<real>, dims: seq<int>): (r: Option<Tensor<real>>)
    requires t.Valid()
    ensures r.Some? ==> r.value.Valid()
  {
    var d := TorchDims(dims, |t.shape|);
    if d.None? then None else Some(Permute(t, d.value))
  }

  /** No dimension lies past the last: torch refuses such ones, and a factored tensor counts them from the end. */
  predicate InRange(dims: seq<int>, n: nat) {
    forall i :: 0 <= i < |dims| ==> dims[i] < n
  }

  function FromEnd(dims: seq<int>, n: nat): (r: seq<int>)
    ensures |r| == |dims|
  {
    seq(|dims|, i requires 0 <= i < |dims| => if dims[i] >= 0 then dims[i] - n else dims[i])
  }

  predicate AllOnes(shape: Shape) {
    forall i :: 0 <= i < |shape| ==> shape[i] == 1
  }

  /** `LoraTorchTensor.permute`. */
  function LoraPermuted(l: Lora, dims: seq<int>): (r: Option<Lora>)
    requires l.Constructible()
    ensures r.Some? ==> r.value.Constructible()
  {
    var n := l.Dims();
    var d := FromEnd(dims, n);
    if d == [] then None
    else if d[|d| - 1] == -1 then
      if !AllOnes(l.LeadA()) then None
      else
        var b := TorchPermute(l.b, d);
        if b.None? then None else Make(l.a, b.value)
    else if n == 2 && |d| >= 2 && d[|d| - 1] == -2 && d[|d| - 2] == -1 then
      var a, b := TorchPermute(l.b, d), TorchPermute(l.a, d);
      if a.None? || b.None? then None else Make(a.value, b.value)
    else None
  }

  /** `list(range(n))` with two entries swapped, indexed as Python does. */
  function SwappedDims(n: nat, dim0: int, dim1: int): (r: Option<seq<int>>)
    ensures r.Some? ==> |r.value| == n && InRange(r.value, n)
  {
    if 0 <= dim0 + n && dim0 < n && 0 <= dim1 + n && dim1 < n then
      var i, j := if dim0 < 0 then dim0 + n else dim0, if dim1 < 0 then dim1 + n else dim1;
      var range: seq<int> := seq(n, k => k);
      Some(range[i := j][j := i])
    else None
  }

  /** `LoraTorchTensor.transpose`, also called `swapaxes`. */
  function LoraTransposed(l: Lora, dim0: int, dim1: int): (r: Option<Lora>)
    requires l.Constructible()
    ensures r.Some? ==> r.value.Constructible()
  {
    var dims := SwappedDims(l.Dims(), dim0, dim1);
    if dims.None? then None else LoraPermuted(l, dims.value)
  }

  function TorchTranspose(t: Tensor<real>, dim0: int, dim1: int): (r: Option<Tensor<real>>)
    requires t.Valid()
    ensures r.Some? ==> r.value.Valid()
  {
    var dims := SwappedDims(|t.shape|, dim0, dim1);
    if dims.None? then None else TorchPermute(t, dims.value)
  }

  // ----- the last dimension stays -----

  lemma FromEndSame(dims: seq<int>, n: nat)
    requires InRange(dims, n)
    ensures TorchDims(FromEnd(dims, n), n) == TorchDims(dims, n)
  {
    var d := FromEnd(dims, n);
    assert forall i :: 0 <= i < |dims| ==>
      Wrap(d[i], n) == Wrap(dims[i], n) && d[i] < n && (0 <= d[i] + n <==> 0 <= dims[i] + n);
    if |dims| == n && forall i :: 0 <= i < n ==> 0 <= dims[i] + n {
      var r: seq<nat> := seq(n, i requires 0 <= i < n => Wrap(dims[i], n));
      var r': seq<nat> := seq(n, i requires 0 <= i < n => Wrap(d[i], n));
      assert r == r';
    }
  }

  /** A permutation that keeps the last dimension acts on the dimensions before it. */
  lemma UnpermutedKeepsLast(p: Index, c: nat, dims: seq<nat>)
    requires Permutation(dims, |p| + 1) && dims[|p|] == |p|
    ensures var u := Unpermuted(p + [0], dims)[..|p|];
            Unpermuted(p + [c], dims) == u + [c]
  {
    var n := |p|;
    var u, v := Unpermuted(p + [0], dims), Unpermuted(p + [c], dims);
    assert Position(dims, n) == n;
    forall d | 0 <= d < n
      ensures v[d] == u[d]
    {
      assert Position(dims, d) != n;
    }
    assert v[n] == c;
  }

  lemma AllOnesBroadcasts(leadA: Shape, leadB: Shape)
    requires |leadA| == |leadB| && AllOnes(leadA)
    ensures Broadcasts(leadA, leadB)
    ensures forall p, p' :: |p| == |leadA| == |p'| ==> Broadcast(leadA, p) == Broadcast(leadA, p')
  {
  }

  predicate KeepsLast(dims: seq<nat>, n: nat) {
    n > 0 && Permutation(dims, n) && dims[n - 1] == n - 1
  }

  function PermutedLead(lead: Shape, dims: seq<nat>): (r: Shape)
    requires KeepsLast(dims, |lead| + 1)
    ensures |r| == |lead|
  {
    assert forall i :: 0 <= i < |lead| ==> dims[i] != dims[|lead|];
    seq(|lead|, i requires 0 <= i < |lead| && dims[i] < |lead| => lead[dims[i]])
  }

  lemma PermutedShapeKeepsLast(lead: Shape, x: nat, dims: seq<nat>)
    requires KeepsLast(dims, |lead| + 1)
    ensures PermutedShape(lead + [x], dims) == PermutedLead(lead, dims) + [x]
  {
    assert forall i :: 0 <= i < |lead| ==> dims[i] != dims[|lead|];
  }

  /** Where a row comes from. */
  function SourceLead(p: Index, dims: seq<nat>): (r: Index)
    requires KeepsLast(dims, |p| + 1)
    ensures |r| == |p|
  {
    Unpermuted(p + [0], dims)[..|p|]
  }

  lemma SourceLeadWithin(lead: Shape, dims: seq<nat>, p: Index)
    requires KeepsLast(dims, |lead| + 1) && Within(p, PermutedLead(lead, dims))
    ensures Within(SourceLead(p, dims), lead)
  {
    PermutedShapeKeepsLast(lead, 1, dims);
    UnpermutedWithin(p + [0], lead + [1], dims);
    var u := Unpermuted(p + [0], dims);
    assert forall i :: 0 <= i < |lead| ==> u[i] < (lead + [1])[i];
  }

  lemma PermutedAt(t: Tensor<real>, lead: Shape, x: nat, dims: seq<nat>, p: Index, c: nat)
    requires t.Valid() && t.shape == lead + [x] && KeepsLast(dims, |lead| + 1)
    requires Within(p, PermutedLead(lead, dims)) && c < x
    ensures Within(SourceLead(p, dims), lead) && Within(SourceLead(p, dims) + [c], t.shape)
    ensures Within(p + [c], Permute(t, dims).shape)
    ensures At(Permute(t, dims), p + [c]) == At(t, SourceLead(p, dims) + [c])
  {
    PermutedShapeKeepsLast(lead, x, dims);
    UnpermutedKeepsLast(p, c, dims);
    UnpermutedWithin(p + [c], t.shape, dims);
    var u := SourceLead(p, dims);
    assert forall i :: 0 <= i < |u| ==> u[i] == (u + [c])[i] && lead[i] == t.shape[i];
    PermuteAt(t, dims, p + [c]);
  }

  lemma {:induction false} KeptLastShapes(l: Lora, dims: seq<nat>, r: Lora)
    requires l.WellFormed() && AllOnes(l.LeadA()) && KeepsLast(dims, l.Dims())
    requires r.a == l.a && r.b == Permute(l.b, dims)
    ensures r.WellFormed() && r.Dims() == l.Dims() && r.Rank() == l.Rank()
    ensures r.b.shape[..r.Dims() - 1] == PermutedLead(l.b.shape[..l.Dims() - 1], dims)
    ensures r.Shape() == PermutedShape(l.Shape(), dims)
  {
    var lead := l.b.shape[..l.Dims() - 1];
    assert l.b.shape == lead + [l.Rank()];
    PermutedShapeKeepsLast(lead, l.Rank(), dims);
    PermutedShapeKeepsLast(lead, l.Cols(), dims);
    AllOnesBroadcasts(r.LeadA(), r.LeadB());
  }

  /** The factors when only B's leading dimensions are permuted. */
  function KeptLast(l: Lora, dims: seq<nat>): (r: Lora)
    requires l.WellFormed() && AllOnes(l.LeadA()) && KeepsLast(dims, l.Dims())
    ensures r.WellFormed() && r.a == l.a && r.b == Permute(l.b, dims) && r.Rank() == l.Rank()
    ensures r.b.shape[..r.Dims() - 1] == PermutedLead(l.b.shape[..l.Dims() - 1], dims)
    ensures r.Shape() == PermutedShape(l.Shape(), dims)
  {
    var r := Lora(l.a, Permute(l.b, dims));
    KeptLastShapes(l, dims, r);
    r
  }

  lemma KeptLastB(l: Lora, dims: seq<nat>, p: Index, k: nat)
    requires l.WellFormed() && AllOnes(l.LeadA()) && KeepsLast(dims, l.Dims())
    requires Within(p, PermutedLead(l.b.shape[..l.Dims() - 1], dims)) && k < l.Rank()
    ensures Within(SourceLead(p, dims), l.b.shape[..l.Dims() - 1])
    ensures BAt(KeptLast(l, dims), p, k) == BAt(l, SourceLead(p, dims), k)
  {
    var lead := l.b.shape[..l.Dims() - 1];
    assert l.b.shape == lead + [l.Rank()];
    PermutedAt(l.b, lead, l.Rank(), dims, p, k);
  }

  lemma KeptLastRow(l: Lora, dims: seq<nat>, p: Index)
    requires l.WellFormed() && AllOnes(l.LeadA()) && KeepsLast(dims, l.Dims())
    requires Within(p, PermutedLead(l.b.shape[..l.Dims() - 1], dims))
    ensures Within(SourceLead(p, dims), l.b.shape[..l.Dims() - 1])
    ensures RowOf(KeptLast(l, dims), p) == RowOf(l, SourceLead(p, dims))
  {
    SourceLeadWithin(l.b.shape[..l.Dims() - 1], dims, p);
    forall k: nat | k < l.Rank()
      ensures BAt(KeptLast(l, dims), p, k) == BAt(l, SourceLead(p, dims), k)
    {
      KeptLastB(l, dims, p, k);
    }
  }

  /** One element: the permuted factors and the permuted product read the same row and column. */
  lemma KeptLastEntry(l: Lora, dims: seq<nat>, p: Index, c: nat)
    requires l.WellFormed() && AllOnes(l.LeadA()) && KeepsLast(dims, l.Dims())
    requires Within(p, PermutedLead(l.b.shape[..l.Dims() - 1], dims)) && c < l.Cols()
    ensures Within(SourceLead(p, dims), l.b.shape[..l.Dims() - 1])
    ensures Within(p + [c], KeptLast(l, dims).Shape()) && Within(SourceLead(p, dims) + [c], l.Shape())
    ensures Entry(KeptLast(l, dims), p + [c]) == Entry(l, SourceLead(p, dims) + [c])
  {
    var r, u, n := KeptLast(l, dims), SourceLead(p, dims), l.Dims();
    KeptLastRow(l, dims, p);
    EntryOfRow(r, p, c);
    EntryOfRow(l, u, c);
    AllOnesBroadcasts(l.LeadA(), l.LeadB());
    assert Broadcast(l.LeadA(), p[..n - 2]) == Broadcast(l.LeadA(), u[..n - 2]);
    SameCol(l, r, Broadcast(l.LeadA(), u[..n - 2]), c);
  }

  lemma SameCol(l: Lora, r: Lora, q: Index, c: nat)
    requires l.Constructible() && r.Constructible() && l.a == r.a && l.Rank() == r.Rank()
    requires Within(q, l.LeadA()) && c < l.Cols()
    ensures ColOf(l, q, c) == ColOf(r, q, c)
  {
    assert forall k: nat :: k < l.Rank() ==> AAt(l, q, k, c) == AAt(r, q, k, c);
  }

  lemma KeptLastAt(l: Lora, dims: seq<nat>, p: Index, c: nat)
    requires l.WellFormed() && AllOnes(l.LeadA()) && KeepsLast(dims, l.Dims())
    requires Within(p, PermutedLead(l.b.shape[..l.Dims() - 1], dims)) && c < l.Cols()
    ensures Within(p + [c], PermutedShape(l.Shape(), dims))
    ensures Within(p + [c], KeptLast(l, dims).Shape())
    ensures At(Permute(Dense(l), dims), p + [c]) == Entry(KeptLast(l, dims), p + [c])
  {
    PermutedAt(Dense(l), l.b.shape[..l.Dims() - 1], l.Cols(), dims, p, c);
    KeptLastEntry(l, dims, p, c);
    DenseAt(l, SourceLead(p, dims) + [c]);
  }

  lemma KeptLastCommutes(l: Lora, dims: seq<nat>)
    requires l.WellFormed() && AllOnes(l.LeadA()) && KeepsLast(dims, l.Dims())
    ensures Permute(Dense(l), dims) == Dense(KeptLast(l, dims))
  {
    var lead := l.b.shape[..l.Dims() - 1];
    PermutedShapeKeepsLast(lead, l.Cols(), dims);
    forall idx | Within(idx, PermutedShape(l.Shape(), dims))
      ensures At(Permute(Dense(l), dims), idx) == Entry(KeptLast(l, dims), idx)
    {
      assert idx == idx[..|lead|] + [idx[|lead|]];
      assert Within(idx[..|lead|], PermutedLead(lead, dims)) by {
        assert forall i :: 0 <= i < |lead| ==> PermutedLead(lead, dims)[i] == PermutedShape(l.Shape(), dims)[i];
      }
      KeptLastAt(l, dims, idx[..|lead|], idx[|lead|]);
    }
    DenseIs(Permute(Dense(l), dims), KeptLast(l, dims));
  }

  // ----- two dimensions, swapped -----

  const SWAP: seq<nat> := [1, 0]

  lemma SwapPair(i: nat, j: nat)
    ensures Permutation(SWAP, 2) && Unpermuted([i, j], SWAP) == [j, i] && PermutedShape([i, j], SWAP) == [j, i]
  {
    assert SWAP[0] == 1 && SWAP[1] == 0;
    assert Position(SWAP, 1) == 0;
    assert Position(SWAP, 0) == 1 by {
      assert SWAP[1..] == [0];
    }
  }

  function Transposed(t: Tensor<real>): (r: Tensor<real>)
    requires t.Valid() && |t.shape| == 2
    ensures Permutation(SWAP, 2) && r == Permute(t, SWAP)
    ensures r.Valid() && r.shape == [t.shape[1], t.shape[0]]
  {
    SwapPair(t.shape[0], t.shape[1]);
    assert t.shape == [t.shape[0], t.shape[1]];
    Permute(t, SWAP)
  }

  lemma TransposedAt(t: Tensor<real>, i: nat, j: nat)
    requires t.Valid() && |t.shape| == 2 && i < t.shape[1] && j < t.shape[0]
    ensures Within([i, j], Transposed(t).shape) && Within([j, i], t.shape)
    ensures At(Transposed(t), [i, j]) == At(t, [j, i])
  {
    SwapPair(i, j);
    SwapPair(t.shape[0], t.shape[1]);
    assert t.shape == [t.shape[0], t.shape[1]];
    PermuteAt(t, SWAP, [i, j]);
  }

  /** The transpose of a product is the product of the transposes in the other order. */
  function Swapped(l: Lora): (r: Lora)
    requires l.WellFormed() && l.Dims() == 2
    ensures r.WellFormed() && r.a == Transposed(l.b) && r.b == Transposed(l.a)
    ensures r.Dims() == 2 && r.Rank() == l.Rank() && r.Rows() == l.Cols() && r.Cols() == l.Rows()
  {
    Lora(Transposed(l.b), Transposed(l.a))
  }

  lemma SwappedB(l: Lora, i: nat, k: nat)
    requires l.WellFormed() && l.Dims() == 2 && i < l.Cols() && k < l.Rank()
    ensures Within([i], Swapped(l).b.shape[..1]) && BAt(Swapped(l), [i], k) == AAt(l, [], k, i)
  {
    assert [i] + [k] == [i, k] && [] + [k, i] == [k, i];
    TransposedAt(l.a, i, k);
  }

  lemma SwappedA(l: Lora, k: nat, j: nat)
    requires l.WellFormed() && l.Dims() == 2 && j < l.Rows() && k < l.Rank()
    ensures AAt(Swapped(l), [], k, j) == BAt(l, [j], k)
  {
    assert [j] + [k] == [j, k] && [] + [k, j] == [k, j];
    TransposedAt(l.b, k, j);
  }

  lemma SwappedRow(l: Lora, i: nat)
    requires l.WellFormed() && l.Dims() == 2 && i < l.Cols()
    ensures Within([i], Swapped(l).b.shape[..1]) && RowOf(Swapped(l), [i]) == ColOf(l, [], i)
  {
    var r := Swapped(l);
    forall k: nat | k < l.Rank()
      ensures BAt(r, [i], k) == AAt(l, [], k, i)
    {
      SwappedB(l, i, k);
    }
    assert RowOf(r, [i]) == ColOf(l, [], i);
  }

  lemma SwappedCol(l: Lora, j: nat)
    requires l.WellFormed() && l.Dims() == 2 && j < l.Rows()
    ensures ColOf(Swapped(l), [], j) == RowOf(l, [j])
  {
    forall k: nat | k < l.Rank()
      ensures ColOf(Swapped(l), [], j)[k] == RowOf(l, [j])[k]
    {
      SwappedA(l, k, j);
    }
  }

  lemma SwappedEntry(l: Lora, i: nat, j: nat)
    requires l.WellFormed() && l.Dims() == 2 && i < l.Cols() && j < l.Rows()
    ensures Within([i, j], Swapped(l).Shape()) && Within([j, i], l.Shape())
    ensures Entry(Swapped(l), [i, j]) == Entry(l, [j, i])
  {
    assert [i, j] == [i] + [j] && [j, i] == [j] + [i];
    EntryOfRow(l, [j], i);
    EntryOfRow(Swapped(l), [i], j);
    SwappedRow(l, i);
    SwappedCol(l, j);
    DotCommutes(RowOf(l, [j]), ColOf(l, [], i));
  }

  lemma SwapCommutes(l: Lora)
    requires l.WellFormed() && l.Dims() == 2
    ensures Transposed(Dense(l)) == Dense(Swapped(l))
  {
    var t := Transposed(Dense(l));
    forall idx | Within(idx, t.shape)
      ensures At(t, idx) == Entry(Swapped(l), idx)
    {
      assert idx == [idx[0], idx[1]];
      TransposedAt(Dense(l), idx[0], idx[1]);
      SwappedEntry(l, idx[0], idx[1]);
      DenseAt(l, [idx[1], idx[0]]);
    }
    DenseIs(t, Swapped(l));
  }

  // ----- the whole operation -----

  lemma SwapFromEnd(d: seq<int>)
    requires |d| == 2 && d[0] == -1 && d[1] == -2
    ensures TorchDims(d, 2) == Some(SWAP)
  {
    assert Wrapped(d, 2) == [1, 0];
    SwapPair(0, 0);
    var r: seq<nat> := seq(2, i requires 0 <= i < 2 => Wrap(d[i], 2));
    assert r == SWAP;
  }

  /** Permuting the factors and multiplying is multiplying and permuting the product by the dimensions counted from
      the end, and by the dimensions as given exactly if none lies past the last. */
  lemma PermuteCommutesIff(l: Lora, dims: seq<int>)
    requires l.WellFormed() && LoraPermuted(l, dims).Some?
    ensures var r := LoraPermuted(l, dims).value;
            && r.WellFormed() && TorchPermute(Dense(l), FromEnd(dims, l.Dims())) == Some(Dense(r))
            && (TorchPermute(Dense(l), dims) == Some(Dense(r)) <==> InRange(dims, l.Dims()))
  {
    var n := l.Dims();
    var d := FromEnd(dims, n);
    var td := TorchDims(d, n).value;
    if d[|d| - 1] == -1 {
      assert td[n - 1] == Wrapped(d, n)[n - 1] == n - 1;
      KeptLastCommutes(l, td);
    } else {
      SwapFromEnd(d);
      SwapCommutes(l);
    }
    if InRange(dims, n) {
      FromEndSame(dims, n);
    }
  }

  lemma TransposeCommutes(l: Lora, dim0: int, dim1: int)
    requires l.WellFormed() && LoraTransposed(l, dim0, dim1).Some?
    ensures var r := LoraTransposed(l, dim0, dim1).value;
            r.WellFormed() && TorchTranspose(Dense(l), dim0, dim1) == Some(Dense(r))
  {
    var dims := SwappedDims(l.Dims(), dim0, dim1).value;
    assert LoraTransposed(l, dim0, dim1) == LoraPermuted(l, dims);
    assert TorchTranspose(Dense(l), dim0, dim1) == TorchPermute(Dense(l), dims);
    PermuteCommutesIff(l, dims);
  }

  // ----- what is accepted, and where elements go -----

  /** The positions that dimensions stand for, counted from the end when negative. */
  ghost predicate Stand(dims: seq<int>, pos: seq<nat>, n: nat) {
    && |dims| == |pos| == n && Permutation(pos, n)
    && forall i :: 0 <= i < n ==> dims[i] == pos[i] || dims[i] == pos[i] - n
  }

  lemma StandIs(dims: seq<int>, pos: seq<nat>, n: nat)
    requires Stand(dims, pos, n)
    ensures TorchDims(dims, n) == Some(pos)
  {
    assert forall i :: 0 <= i < n ==> pos[i] < n && Wrap(dims[i], n) == pos[i] && 0 <= dims[i] + n && dims[i] < n;
    var r: seq<nat> := seq(n, i requires 0 <= i < n => Wrap(dims[i], n));
    assert r == pos;
  }

  /** Torch accepts dimensions that stand for all positions, and no others. */
  lemma TorchAcceptsIff(dims: seq<int>, n: nat)
    ensures TorchDims(dims, n).Some? <==> exists pos :: Stand(dims, pos, n)
  {
    if TorchDims(dims, n).Some? {
      var pos := TorchDims(dims, n).value;
      assert forall i :: 0 <= i < n ==> Wrapped(dims, n)[i] == Wrap(dims[i], n);
      assert Stand(dims, pos, n);
    }
    if pos :| Stand(dims, pos, n) {
      StandIs(dims, pos, n);
    }
  }

  /** The permuted product has every element where the dimensions say. */
  lemma PermutedElement(t: Tensor<real>, dims: seq<int>, pos: seq<nat>, src: Index, idx: Index)
    requires t.Valid() && Stand(dims, pos, |t.shape|) && Within(src, t.shape)
    requires |idx| == |src| && forall i :: 0 <= i < |idx| ==> idx[i] == src[pos[i]]
    ensures TorchPermute(t, dims).Some?
    ensures var r := TorchPermute(t, dims).value; Within(idx, r.shape) && At(r, idx) == At(t, src)
  {
    StandIs(dims, pos, |t.shape|);
    PermuteMoves(t, pos, src, idx);
  }

  /** Transposing exchanges the two positions, and nothing else. */
  lemma TransposedElement(t: Tensor<real>, dim0: int, dim1: int, i: nat, j: nat, src: Index)
    requires t.Valid() && Within(src, t.shape) && i < |src| && j < |src|
    requires (dim0 == i || dim0 == i - |src|) && (dim1 == j || dim1 == j - |src|)
    ensures TorchTranspose(t, dim0, dim1).Some?
    ensures var r, idx := TorchTranspose(t, dim0, dim1).value, src[i := src[j]][j := src[i]];
            Within(idx, r.shape) && At(r, idx) == At(t, src)
  {
    var n := |src|;
    var range: seq<nat> := seq(n, k => k);
    var pos := range[i := j][j := i];
    var dims := SwappedDims(n, dim0, dim1).value;
    assert dims == pos;
    ExchangeIsPermutation(n, i, j, pos);
    assert Stand(dims, pos, n);
    PermutedElement(t, dims, pos, src, src[i := src[j]][j := src[i]]);
  }

  lemma ExchangeIsPermutation(n: nat, i: nat, j: nat, pos: seq<nat>)
    requires i < n && j < n && |pos| == n && pos[i] == j && pos[j] == i
    requires forall k :: 0 <= k < n && k != i && k != j ==> pos[k] == k
    ensures Permutation(pos, n)
  {
    forall d | 0 <= d < n ensures d in pos {
      assert pos[if d == i then j else if d == j then i else d] == d;
    }
  }

  lemma KeptLastAccepted(l: Lora, d: seq<int>, pos: seq<nat>)
    requires l.WellFormed() && TorchDims(d, l.Dims()) == Some(pos) && d[|d| - 1] == -1
    ensures TorchPermute(l.b, d).Some? && Make(l.a, TorchPermute(l.b, d).value).Some?
  {
    var n := l.Dims();
    assert pos[n - 1] == Wrapped(d, n)[n - 1] == n - 1;
    assert Permute(l.b, pos).shape[n - 1] == l.b.shape[n - 1];
  }

  lemma SwapAccepted(l: Lora, d: seq<int>)
    requires l.WellFormed() && l.Dims() == 2 && d == [-1, -2]
    ensures TorchPermute(l.b, d) == Some(Transposed(l.b)) && TorchPermute(l.a, d) == Some(Transposed(l.a))
    ensures Make(Transposed(l.b), Transposed(l.a)).Some?
  {
    SwapFromEnd(d);
  }

  /** Factors are permuted when torch would permute the product and the last dimension stays, A's leading dimensions
      being 1, or when a matrix is transposed. */
  lemma PermuteAcceptedIff(l: Lora, dims: seq<int>, d: seq<int>)
    requires l.WellFormed() && d == FromEnd(dims, l.Dims())
    ensures LoraPermuted(l, dims).Some? <==>
              && d != [] && TorchDims(d, l.Dims()).Some?
              && ((d[|d| - 1] == -1 && AllOnes(l.LeadA())) || (l.Dims() == 2 && d == [-1, -2]))
  {
    if d != [] && TorchDims(d, l.Dims()).Some? && d[|d| - 1] == -1 {
      KeptLastAccepted(l, d, TorchDims(d, l.Dims()).value);
    } else if l.Dims() == 2 && d == [-1, -2] {
      SwapAccepted(l, d);
    }
  }
}
