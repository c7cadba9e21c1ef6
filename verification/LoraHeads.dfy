/** The head reordering of a base model, run on an adapter's factors
    (llama.cpp/convert_hf_to_gguf.py:1924-1929 through llama.cpp/convert_lora_to_gguf.py). */
module LoraHeads {
  import opened Wrappers
  import opened Tensors
  import opened LoraTensor
  import opened LoraReshape
  import opened LoraPermute
  import opened LoraJoin
  import opened HeadLayout

  function SplitDims(h: nat, half: nat, cols: nat): (r: seq<nat>)
    ensures |r| == 4 && r[..3] == [h, 2, half] && r[3] == cols && r == [h, 2, half] + [cols]
  {
    [h, 2, half, cols]
  }

  lemma AsShapeIs(shape: Shape, elements: nat)
    ensures ExpandShape(shape, elements) == Some(shape)
  {
    var dims: seq<int> := shape;
    assert forall i :: 0 <= i < |dims| ==> dims[i] != -1;
    assert AsShape(dims).value == shape;
  }

  lemma MiddleSwapIs(n: nat)
    requires n >= 3
    ensures SwappedDims(n, 1, 2).Some? && TorchDims(SwappedDims(n, 1, 2).value, n) == Some(MiddleSwap(n))
  {
    var dims := SwappedDims(n, 1, 2).value;
    assert Wrapped(dims, n) == MiddleSwap(n);
    var r: seq<nat> := seq(n, i requires 0 <= i < n => Wrap(dims[i], n));
    assert r == MiddleSwap(n);
  }

  lemma DenseReshapeIs(t: Tensor<real>, dims: seq<int>, shape: Shape)
    requires t.Valid() && dims == shape && Prod(shape) == |t.data|
    ensures DenseReshape(t, dims) == Some(Tensor(shape, t.data))
  {
    AsShapeIs(shape, |t.data|);
  }

  lemma TransposeIs(t: Tensor<real>)
    requires t.Valid() && |t.shape| >= 3
    ensures TorchTranspose(t, 1, 2) == Some(Permute(t, MiddleSwap(|t.shape|)))
  {
    MiddleSwapIs(|t.shape|);
  }

  /** The reordering of a matrix, one operation at a time. */
  lemma DenseSteps(t: Tensor<real>, h: nat, half: nat, rows: nat, cols: nat, split: seq<int>, flat: seq<int>)
      returns (u: Tensor<real>, v: Tensor<real>, w: Tensor<real>)
    requires t.Valid() && t.shape == [rows, cols] && rows == h * 2 * half
    requires split == SplitDims(h, half, cols) && flat == [rows, cols]
    ensures u.Valid() && v.Valid() && DenseReshape(t, split) == Some(u) && TorchTranspose(u, 1, 2) == Some(v)
    ensures DenseReshape(v, flat) == Some(w) && SwapReshaped(t, h, 2, half) == Some(w)
  {
    u, v := SwapReshapedParts(t, h, 2, half);
    DenseReshapeIs(t, split, u.shape);
    TransposeIs(u);
    DenseReshapeIs(v, flat, t.shape);
    w := SwapReshaped(t, h, 2, half).value;
  }

  lemma StepsCompose(t: Tensor<real>, h: nat, half: nat, rows: nat, cols: nat, split: seq<int>, flat: seq<int>,
                     u: Tensor<real>, v: Tensor<real>, w: Tensor<real>)
    requires t.Valid() && t.shape == [rows, cols] && rows == h * 2 * half && u.Valid() && v.Valid()
    requires split == SplitDims(h, half, cols) && flat == [rows, cols]
    requires DenseReshape(t, split) == Some(u) && TorchTranspose(u, 1, 2) == Some(v) && DenseReshape(v, flat) == Some(w)
    ensures SwapReshaped(t, h, 2, half) == Some(w)
  {
    var _, _, _ := DenseSteps(t, h, half, rows, cols, split, flat);
  }

  // ----- the same steps on the factors are accepted -----

  /** Sizes that fit: those of A as one matrix, of B with as many rows, and of the product. */
  lemma FactorsFit(l: Lora, lead: Shape, n: nat, rank: nat, cols: nat)
    requires l.Constructible() && SharedA(l) && rank == l.Rank() && cols == l.Cols()
    requires Prod(lead) == Prod(l.b.shape[..l.Dims() - 1])
    ensures Prod(Ones(n) + [rank, cols]) == |l.a.data| && Prod(lead + [rank]) == |l.b.data|
    ensures Prod(lead + [cols]) == Prod(l.Shape())
  {
    SizeOfA(l);
    Sizes(l);
    ProdOfConcat(Ones(n), [rank, cols]);
    PairProd(rank, cols);
    SnocProd(lead, rank);
    SnocProd(lead, cols);
  }

  lemma ReshapeAccepted(l: Lora, dims: seq<int>, lead: Shape, n: nat, rank: nat, cols: nat) returns (r: Lora)
    requires l.Constructible() && SharedA(l) && rank == l.Rank() && cols == l.Cols()
    requires dims == lead + [cols] && |lead| == n + 1 && Prod(lead) == Prod(l.b.shape[..l.Dims() - 1])
    ensures r == Lora(Tensor(Ones(n) + [rank, cols], l.a.data), Tensor(lead + [rank], l.b.data))
    ensures LoraReshaped(l, dims) == Some(r)
    ensures r.Constructible() && r.Rank() == rank && r.Cols() == cols && r.LeadA() == Ones(n)
    ensures Prod(r.Shape()) == Prod(l.Shape())
  {
    FactorsFit(l, lead, n, rank, cols);
    var shape: Shape := lead + [cols];
    AsShapeIs(shape, Prod(l.Shape()));
    assert shape[..|shape| - 1] == lead;
    r := Lora(Tensor(Ones(n) + [rank, cols], l.a.data), Tensor(lead + [rank], l.b.data));
    assert r.Shape() == shape;
  }

  lemma TransposeAccepted(l: Lora)
    requires l.Constructible() && l.Dims() >= 4 && AllOnes(l.LeadA())
    ensures LoraTransposed(l, 1, 2) == Some(Lora(l.a, Permute(l.b, MiddleSwap(l.Dims()))))
  {
    var n := l.Dims();
    MiddleSwapIs(n);
    var dims := SwappedDims(n, 1, 2).value;
    FromEndSame(dims, n);
    assert FromEnd(dims, n)[n - 1] == -1;
    assert Permute(l.b, MiddleSwap(n)).shape[n - 1] == l.b.shape[n - 1];
  }

  lemma SplitAccepted(l: Lora, h: nat, half: nat, rank: nat, cols: nat) returns (u: Lora)
    requires l.WellFormed() && l.Dims() == 2 && l.Rows() == h * 2 * half && rank == l.Rank() && cols == l.Cols()
    ensures LoraReshaped(l, SplitDims(h, half, cols)) == Some(u)
    ensures u.Constructible() && u.Rank() == rank && u.Cols() == cols && Prod(u.Shape()) == Prod(l.Shape())
    ensures u.b.shape == [h, 2, half] + [rank] && u.LeadA() == Ones(2)
  {
    assert l.LeadA() == [] && l.b.shape[..1] == [] + [l.Rows()];
    SnocProd([], l.Rows());
    Prod3(h, 2, half);
    u := ReshapeAccepted(l, SplitDims(h, half, cols), [h, 2, half], 2, rank, cols);
  }

  lemma SwapAccepted(u: Lora, h: nat, half: nat) returns (v: Lora)
    requires u.Constructible() && u.LeadA() == Ones(2) && u.b.shape == [h, 2, half] + [u.Rank()]
    ensures LoraTransposed(u, 1, 2) == Some(v)
    ensures v.Constructible() && v.a == u.a && v.Rank() == u.Rank() && v.Cols() == u.Cols()
    ensures v.b.shape == [h, half, 2] + [u.Rank()] && v.LeadA() == Ones(2)
  {
    OnesAreOne(2);
    TransposeAccepted(u);
    MiddleSwapShape(h, 2, half, [u.Rank()]);
    v := LoraTransposed(u, 1, 2).value;
  }

  lemma FlattenAccepted(v: Lora, h: nat, half: nat, rows: nat, rank: nat, cols: nat) returns (r: Lora)
    requires v.Constructible() && v.LeadA() == Ones(2) && v.b.shape == [h, half, 2] + [rank]
    requires rows == h * half * 2 && cols == v.Cols()
    ensures LoraReshaped(v, [rows, cols]) == Some(r) && r.Constructible() && r.Dims() == 2
    ensures Prod(r.Shape()) == Prod(v.Shape())
  {
    Prod3(h, half, 2);
    assert v.b.shape[..3] == [h, half, 2];
    SnocProd([], rows);
    assert [] + [rows] == [rows];
    r := ReshapeAccepted(v, [rows, cols], [rows], 0, rank, cols);
  }

  /** `LlamaModel.permute` on a factored matrix:
      `weights.reshape(h, 2, half, cols).swapaxes(1, 2).reshape(rows, cols)`. */
  function LoraHeadsPermuted(l: Lora, h: nat, half: nat): Option<Lora>
    requires l.Constructible()
  {
    var u := LoraReshaped(l, SplitDims(h, half, l.Cols()));
    if u.None? then None
    else
      var v := LoraTransposed(u.value, 1, 2);
      if v.None? then None else LoraReshaped(v.value, [l.Rows(), l.Cols()])
  }

  lemma SplitCommutes(l: Lora, h: nat, half: nat) returns (u: Lora)
    requires l.WellFormed() && l.Dims() == 2 && l.Rows() == h * 2 * half
    ensures LoraReshaped(l, SplitDims(h, half, l.Cols())) == Some(u)
    ensures u.WellFormed() && u.Rank() == l.Rank() && u.Cols() == l.Cols()
    ensures u.b.shape == [h, 2, half] + [l.Rank()] && u.LeadA() == Ones(2)
    ensures DenseReshape(Dense(l), SplitDims(h, half, l.Cols())) == Some(Dense(u))
  {
    u := SplitAccepted(l, h, half, l.Rank(), l.Cols());
    ReshapeCommutesIff(l, SplitDims(h, half, l.Cols()));
  }

  lemma HalvesCommute(u: Lora, h: nat, half: nat) returns (v: Lora)
    requires u.WellFormed() && u.LeadA() == Ones(2) && u.b.shape == [h, 2, half] + [u.Rank()]
    ensures LoraTransposed(u, 1, 2) == Some(v)
    ensures v.WellFormed() && v.Rank() == u.Rank() && v.Cols() == u.Cols()
    ensures v.b.shape == [h, half, 2] + [u.Rank()] && v.LeadA() == Ones(2)
    ensures TorchTranspose(Dense(u), 1, 2) == Some(Dense(v))
  {
    v := SwapAccepted(u, h, half);
    TransposeCommutes(u, 1, 2);
  }

  lemma FlattenCommutes(v: Lora, h: nat, half: nat, rows: nat) returns (r: Lora)
    requires v.WellFormed() && v.LeadA() == Ones(2) && v.b.shape == [h, half, 2] + [v.Rank()]
    requires rows == h * half * 2
    ensures LoraReshaped(v, [rows, v.Cols()]) == Some(r) && r.WellFormed()
    ensures DenseReshape(Dense(v), [rows, v.Cols()]) == Some(Dense(r))
  {
    r := FlattenAccepted(v, h, half, rows, v.Rank(), v.Cols());
    ReshapeCommutesIff(v, [rows, v.Cols()]);
  }

  lemma HeadsPermutedIs(l: Lora, h: nat, half: nat, u: Lora, v: Lora, r: Lora)
    requires l.Constructible() && u.Constructible() && v.Constructible()
    requires LoraReshaped(l, SplitDims(h, half, l.Cols())) == Some(u)
    requires LoraTransposed(u, 1, 2) == Some(v)
    requires LoraReshaped(v, [l.Rows(), l.Cols()]) == Some(r)
    ensures LoraHeadsPermuted(l, h, half) == Some(r)
  {
  }

  lemma FactorSteps(l: Lora, h: nat, half: nat, rows: nat, split: seq<int>, flat: seq<int>)
      returns (u: Lora, v: Lora, r: Lora)
    requires l.WellFormed() && l.Dims() == 2 && l.Rows() == rows && rows == h * 2 * half && rows == h * half * 2
    requires split == SplitDims(h, half, l.Cols()) && flat == [rows, l.Cols()]
    ensures u.WellFormed() && v.WellFormed() && r.WellFormed() && LoraHeadsPermuted(l, h, half) == Some(r)
    ensures DenseReshape(Dense(l), split) == Some(Dense(u)) && TorchTranspose(Dense(u), 1, 2) == Some(Dense(v))
    ensures DenseReshape(Dense(v), flat) == Some(Dense(r))
  {
    u := SplitCommutes(l, h, half);
    v := HalvesCommute(u, h, half);
    r := FlattenCommutes(v, h, half, rows);
    HeadsPermutedIs(l, h, half, u, v, r);
  }

  lemma StepsCommute(l: Lora, h: nat, half: nat, rows: nat, cols: nat, split: seq<int>, flat: seq<int>) returns (r: Lora)
    requires l.WellFormed() && l.Dims() == 2 && l.Rows() == rows && l.Cols() == cols && l.Shape() == [rows, cols]
    requires rows == h * 2 * half && rows == h * half * 2
    requires split == SplitDims(h, half, cols) && flat == [rows, cols]
    ensures LoraHeadsPermuted(l, h, half) == Some(r)
    ensures r.WellFormed() && SwapReshaped(Dense(l), h, 2, half) == Some(Dense(r))
  {
    var u, v;
    u, v, r := FactorSteps(l, h, half, rows, split, flat);
    StepsCompose(Dense(l), h, half, rows, cols, split, flat, Dense(u), Dense(v), Dense(r));
  }

  /** Every adapter for a weight matrix whose rows divide into heads of two halves goes through the three operations,
      and its factors then stand for the reordered product. */
  lemma PermuteHeadsOnFactors(l: Lora, h: nat, half: nat) returns (r: Lora)
    requires l.WellFormed() && l.Dims() == 2 && l.Rows() == h * 2 * half
    ensures LoraHeadsPermuted(l, h, half) == Some(r)
    ensures r.WellFormed() && SwapReshaped(Dense(l), h, 2, half) == Some(Dense(r))
  {
    RowsEitherWay(h, half);
    assert l.Shape() == [l.Rows(), l.Cols()];
    r := StepsCommute(l, h, half, l.Rows(), l.Cols(), SplitDims(h, half, l.Cols()), [l.Rows(), l.Cols()]);
  }

  lemma RowsEitherWay(h: nat, half: nat)
    ensures h * 2 * half == h * half * 2
  {
    MulAssociates(h, half, 2);
    MulAssociates(h, 2, half);
  }
}
