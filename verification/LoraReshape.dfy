/** Reshaping a factored tensor is reshaping the product (llama.cpp/convert_lora_to_gguf.py:129-159). */
module LoraReshape {
  import opened Wrappers
  import opened Tensors
  import opened LoraTensor

  // ----- the operation -----

  /** The product of the given dimensions, those left open (-1) not counted. */
  function ProdGiven(dims: seq<int>): int {
    if dims == [] then 1 else (if dims[0] == -1 then 1 else dims[0]) * ProdGiven(dims[1..])
  }

  /** Filling in the dimensions left open; `None` stands for a failed assertion or torch's refusal of a shape. */
  function ExpandShape(dims: seq<int>, elements: nat): (r: Option<Shape>)
    ensures r.Some? ==> |r.value| == |dims|
  {
    if -1 !in dims then AsShape(dims)
    else
      var given := ProdGiven(dims);
      if given == 0 || elements % given != 0 then None
      else AsShape(seq(|dims|, i requires 0 <= i < |dims| => if dims[i] != -1 then dims[i] else elements / given))
  }

  function AsShape(dims: seq<int>): (r: Option<Shape>)
    ensures r.Some? ==> |r.value| == |dims|
  {
    if forall i :: 0 <= i < |dims| ==> dims[i] >= 0
    then Some(seq(|dims|, i requires 0 <= i < |dims| && dims[i] >= 0 => dims[i]))
    else None
  }

  /** The product of `k` and what stands in every other place. */
  lemma {:induction false} ProdWithOpen(dims: seq<int>, k: nat, s: Shape)
    requires |dims| == |s| && k < |dims| && dims[k] == -1
    requires forall i :: 0 <= i < |dims| && i != k ==> dims[i] > 0 && s[i] == dims[i]
    ensures ProdGiven(dims) > 0 && Prod(s) == ProdGiven(dims) * s[k]
    decreases k
  {
    if k == 0 {
      ProdGivenIs(dims[1..], s[1..]);
      assert Prod(s) == s[0] * Prod(s[1..]);
    } else {
      ProdWithOpen(dims[1..], k - 1, s[1..]);
      MulPositive(dims[0], ProdGiven(dims[1..]));
      MulAssociates(dims[0], ProdGiven(dims[1..]), s[k]);
    }
  }

  lemma MulPositive(a: int, b: int)
    requires a > 0 && b > 0
    ensures a * b > 0
  {
  }

  lemma {:induction false} ProdGivenIs(dims: seq<int>, s: Shape)
    requires |dims| == |s| && forall i :: 0 <= i < |dims| ==> dims[i] > 0 && s[i] == dims[i]
    ensures ProdGiven(dims) == Prod(s) > 0
  {
    if dims != [] {
      ProdGivenIs(dims[1..], s[1..]);
      MulPositive(dims[0], ProdGiven(dims[1..]));
    }
  }

  ghost predicate Fills(dims: seq<int>, k: nat, s: Shape) {
    |s| == |dims| && forall i :: 0 <= i < |dims| && i != k ==> s[i] == dims[i]
  }

  lemma FilledIs(dims: seq<int>, k: nat, s: Shape)
    requires k < |dims| && dims[k] == -1 && (forall i :: 0 <= i < |dims| && i != k ==> dims[i] > 0) && Fills(dims, k, s)
    ensures ExpandShape(dims, Prod(s)) == Some(s)
  {
    var given := ProdGiven(dims);
    ProdWithOpen(dims, k, s);
    QuotientIs(Prod(s), s[k], 0, given);
    var expanded := seq(|dims|, i requires 0 <= i < |dims| => if dims[i] != -1 then dims[i] else Prod(s) / given);
    assert expanded == s;
    assert AsShape(expanded).value == s;
  }

  /** An open dimension is filled in so that the number of elements is kept, or not at all. */
  lemma OpenIsFilled(dims: seq<int>, k: nat, elements: nat, s: Shape)
    requires k < |dims| && dims[k] == -1 && forall i :: 0 <= i < |dims| && i != k ==> dims[i] > 0
    ensures ExpandShape(dims, elements) == Some(s) <==> Fills(dims, k, s) && Prod(s) == elements
  {
    if ExpandShape(dims, elements) == Some(s) {
      ProdWithOpen(dims, k, s);
      DivMod(elements, ProdGiven(dims));
    }
    if Fills(dims, k, s) && Prod(s) == elements {
      FilledIs(dims, k, s);
    }
  }

  predicate OneOpen(dims: seq<int>) {
    forall i, j :: 0 <= i < j < |dims| && dims[i] == -1 ==> dims[j] != -1
  }

  /** `torch.reshape`, which leaves one dimension open at most. */
  function DenseReshape(t: Tensor<real>, dims: seq<int>): Option<Tensor<real>>
    requires t.Valid()
  {
    var shape := ExpandShape(dims, |t.data|);
    if !OneOpen(dims) || shape.None? then None else Reshape(t, shape.value)
  }

  function Ones(n: nat): (r: Shape)
    ensures |r| == n && Prod(r) == 1
  {
    if n == 0 then [] else [1] + Ones(n - 1)
  }

  /** `LoraTorchTensor.reshape`. */
  function LoraReshaped(l: Lora, dims: seq<int>): (r: Option<Lora>)
    requires l.Constructible()
    ensures r.Some? ==> r.value.Constructible()
  {
    if |dims| < 2 then None
    else
      var shape := ExpandShape(dims, Prod(l.Shape()));
      if shape.None? then None
      else
        var s := shape.value;
        var n := |s|;
        if s[n - 1] != l.Cols() then None
        else
          var a := Reshape(l.a, Ones(n - 2) + [l.Rank(), l.Cols()]);
          var b := Reshape(l.b, s[..n - 1] + [l.Rank()]);
          if a.None? || b.None? then None else Make(a.value, b.value)
  }

  // ----- the product in row-major order depends on the factors' elements only -----

  function FlatRow(data: seq<real>, o: nat, rank: nat): (r: seq<real>)
    requires (o + 1) * rank <= |data|
    ensures |r| == rank
  {
    MulDistributes(o, 1, rank);
    data[o * rank..o * rank + rank]
  }

  function FlatCol(data: seq<real>, rank: nat, cols: nat, c: nat): (r: seq<real>)
    requires |data| == rank * cols && c < cols
    ensures |r| == rank
  {
    seq(rank, k requires 0 <= k < rank => FlatAt(data, rank, cols, k, c))
  }

  function FlatAt(data: seq<real>, rank: nat, cols: nat, k: nat, c: nat): real
    requires |data| == rank * cols && k < rank && c < cols
  {
    RowMajorBound(k, rank, c, cols);
    data[k * cols + c]
  }

  lemma OffsetOfLast(shape: Shape, n: nat, idx: Index, i: nat)
    requires Within(idx, shape) && i < n
    ensures Within(idx + [i], shape + [n]) && Offset(shape + [n], idx + [i]) == Offset(shape, idx) * n + i
    ensures Prod(shape + [n]) == Prod(shape) * n
  {
    OffsetOfConcat(shape, [n], idx, [i]);
    ProdOfConcat(shape, [n]);
    assert [n][1..] == [] && [i][1..] == [];
    assert Prod([n]) == n * Prod([]);
    assert Offset([n], [i]) == i * Prod([]) + Offset([], []);
  }

  lemma FlatRowFits(l: Lora, p: Index)
    requires l.Constructible() && Within(p, l.b.shape[..l.Dims() - 1])
    ensures (Offset(l.b.shape[..l.Dims() - 1], p) + 1) * l.Rank() <= |l.b.data|
  {
    var lead, rank := l.b.shape[..l.Dims() - 1], l.Rank();
    assert l.b.shape == lead + [rank];
    ProdOfConcat(lead, [rank]);
    assert [rank][1..] == [];
    assert Prod([rank]) == rank * Prod([]);
    MulMonotone(Offset(lead, p) + 1, Prod(lead), rank);
  }

  lemma FlatRowElement(data: seq<real>, o: nat, rank: nat, k: nat)
    requires (o + 1) * rank <= |data| && k < rank
    ensures o * rank + k < |data| && FlatRow(data, o, rank)[k] == data[o * rank + k]
  {
    MulDistributes(o, 1, rank);
  }

  /** An element by the number of its row. */
  lemma AtRow(t: Tensor<real>, lead: Shape, n: nat, p: Index, o: nat, k: nat)
    requires t.Valid() && t.shape == lead + [n] && Within(p, lead) && k < n
    requires o == Offset(lead, p) && (o + 1) * n <= |t.data|
    ensures Within(p + [k], t.shape) && At(t, p + [k]) == FlatRow(t.data, o, n)[k]
  {
    OffsetOfLast(lead, n, p, k);
    FlatRowElement(t.data, o, n, k);
  }

  lemma FlatRowAt(l: Lora, lead: Shape, p: Index, o: nat, k: nat)
    requires l.Constructible() && lead == l.b.shape[..l.Dims() - 1] && Within(p, lead) && k < l.Rank()
    requires o == Offset(lead, p) && (o + 1) * l.Rank() <= |l.b.data|
    ensures BAt(l, p, k) == FlatRow(l.b.data, o, l.Rank())[k]
  {
    assert l.b.shape == lead + [l.Rank()];
    AtRow(l.b, lead, l.Rank(), p, o, k);
  }

  lemma FlatRowIs(l: Lora, p: Index)
    requires l.Constructible() && Within(p, l.b.shape[..l.Dims() - 1])
    ensures (Offset(l.b.shape[..l.Dims() - 1], p) + 1) * l.Rank() <= |l.b.data|
    ensures RowOf(l, p) == FlatRow(l.b.data, Offset(l.b.shape[..l.Dims() - 1], p), l.Rank())
  {
    FlatRowFits(l, p);
    var lead := l.b.shape[..l.Dims() - 1];
    var o := Offset(lead, p);
    forall k: nat | k < l.Rank()
      ensures BAt(l, p, k) == FlatRow(l.b.data, o, l.Rank())[k]
    {
      FlatRowAt(l, lead, p, o, k);
    }
  }

  /** A is one matrix, shared by all leading positions. */
  predicate SharedA(l: Lora)
    requires l.Constructible()
  {
    Prod(l.LeadA()) == 1
  }

  lemma SizeOfA(l: Lora)
    requires l.Constructible()
    ensures |l.a.data| == Prod(l.LeadA()) * (l.Rank() * l.Cols())
  {
    var last := [l.Rank(), l.Cols()];
    assert l.a.shape == l.LeadA() + last;
    ProdOfConcat(l.LeadA(), last);
    assert last[1..] == [l.Cols()] && last[1..][1..] == [];
    assert Prod(last[1..]) == l.Cols() * Prod([]);
  }

  lemma PairOffset(n: nat, m: nat, k: nat, c: nat)
    requires k < n && c < m
    ensures Within([k, c], [n, m]) && Offset([n, m], [k, c]) == k * m + c
  {
    OffsetOfLast([n], m, [k], c);
    assert [n] + [m] == [n, m] && [k] + [c] == [k, c];
    OffsetOfLast([], n, [], k);
    assert [] + [n] == [n] && [] + [k] == [k];
  }

  lemma FlatAIs(l: Lora, q: Index, k: nat, c: nat)
    requires l.Constructible() && SharedA(l) && Within(q, l.LeadA()) && k < l.Rank() && c < l.Cols()
    ensures |l.a.data| == l.Rank() * l.Cols()
    ensures AAt(l, q, k, c) == FlatAt(l.a.data, l.Rank(), l.Cols(), k, c)
  {
    SizeOfA(l);
    assert l.a.shape == l.LeadA() + [l.Rank(), l.Cols()];
    OffsetOfConcat(l.LeadA(), [l.Rank(), l.Cols()], q, [k, c]);
    assert Offset(l.LeadA(), q) == 0;
    PairOffset(l.Rank(), l.Cols(), k, c);
  }

  lemma FlatColIs(l: Lora, q: Index, c: nat)
    requires l.Constructible() && SharedA(l) && Within(q, l.LeadA()) && c < l.Cols()
    ensures |l.a.data| == l.Rank() * l.Cols()
    ensures ColOf(l, q, c) == FlatCol(l.a.data, l.Rank(), l.Cols(), c)
  {
    SizeOfA(l);
    forall k: nat | k < l.Rank()
      ensures AAt(l, q, k, c) == FlatAt(l.a.data, l.Rank(), l.Cols(), k, c)
    {
      FlatAIs(l, q, k, c);
    }
  }

  lemma FlatEntryAt(l: Lora, p: Index, i: nat, j: nat)
    requires l.WellFormed() && SharedA(l) && Within(p, l.LeadB()) && i < l.Rows() && j < l.Cols()
    ensures Within(p + [i, j], l.Shape()) && Within(p + [i], l.b.shape[..l.Dims() - 1])
    ensures var o := Offset(l.b.shape[..l.Dims() - 1], p + [i]);
            && Offset(l.Shape(), p + [i, j]) == o * l.Cols() + j
            && (o + 1) * l.Rank() <= |l.b.data| && |l.a.data| == l.Rank() * l.Cols()
            && Entry(l, p + [i, j]) == Dot(FlatRow(l.b.data, o, l.Rank()), FlatCol(l.a.data, l.Rank(), l.Cols(), j))
  {
    EntryAt(l, p, i, j);
    assert p + [i] + [j] == p + [i, j];
    OffsetOfLast(l.b.shape[..l.Dims() - 1], l.Cols(), p + [i], j);
    FlatRowIs(l, p + [i]);
    FlatColIs(l, Broadcast(l.LeadA(), p), j);
  }

  lemma IndexOfElement(l: Lora, k: nat) returns (p: Index, i: nat, j: nat)
    requires l.WellFormed() && k < |Dense(l).data|
    ensures Within(p, l.LeadB()) && i < l.Rows() && j < l.Cols()
    ensures Within(p + [i, j], l.Shape()) && Offset(l.Shape(), p + [i, j]) == k
    ensures Dense(l).data[k] == Entry(l, p + [i, j])
  {
    ElementIsAt(Dense(l), k);
    p, i, j := SplitIndex(l, Unravel(l.Shape(), k));
  }

  /** Element `k` of the product, from the elements of the factors alone. */
  lemma FlatEntry(l: Lora, k: nat) returns (o: nat, j: nat)
    requires l.WellFormed() && SharedA(l) && k < |Dense(l).data|
    ensures j < l.Cols() && k == o * l.Cols() + j
    ensures (o + 1) * l.Rank() <= |l.b.data| && |l.a.data| == l.Rank() * l.Cols()
    ensures Dense(l).data[k] == Dot(FlatRow(l.b.data, o, l.Rank()), FlatCol(l.a.data, l.Rank(), l.Cols(), j))
  {
    var p, i;
    p, i, j := IndexOfElement(l, k);
    FlatEntryAt(l, p, i, j);
    o := Offset(l.b.shape[..l.Dims() - 1], p + [i]);
  }

  /** Factors with the same elements, rank and columns have products with the same elements. */
  lemma SameFlatProduct(l: Lora, r: Lora)
    requires l.WellFormed() && r.WellFormed() && SharedA(l) && SharedA(r)
    requires l.a.data == r.a.data && l.b.data == r.b.data && l.Rank() == r.Rank() && l.Cols() == r.Cols()
    requires |Dense(l).data| == |Dense(r).data|
    ensures Dense(l).data == Dense(r).data
  {
    forall k | 0 <= k < |Dense(l).data|
      ensures Dense(l).data[k] == Dense(r).data[k]
    {
      var o, j := FlatEntry(l, k);
      var o', j' := FlatEntry(r, k);
      QuotientIs(k, o, j, l.Cols());
      QuotientIs(k, o', j', l.Cols());
    }
  }

  lemma CancelFactor(a: nat, b: nat, p: nat)
    requires p > 0 && a * p == b * p
    ensures a == b
  {
    if a < b {
      MulMonotone(a + 1, b, p);
      MulDistributes(a, 1, p);
    } else if b < a {
      MulMonotone(b + 1, a, p);
      MulDistributes(b, 1, p);
    }
  }

  /** The sizes of B and of the product, from B's leading shape. */
  lemma Sizes(l: Lora)
    requires l.Constructible()
    ensures Prod(l.Shape()) == Prod(l.b.shape[..l.Dims() - 1]) * l.Cols()
    ensures |l.b.data| == Prod(l.b.shape[..l.Dims() - 1]) * l.Rank()
  {
    var lead := l.b.shape[..l.Dims() - 1];
    SnocProd(lead, l.Cols());
    SnocProd(lead, l.Rank());
    assert l.b.shape == lead + [l.Rank()];
  }

  lemma SnocProd(shape: Shape, n: nat)
    ensures Prod(shape + [n]) == Prod(shape) * n
  {
    ProdOfConcat(shape, [n]);
    assert [n][1..] == [];
    assert Prod([n]) == n * Prod([]);
  }

  lemma OnesBroadcast(n: nat, lead: Shape)
    requires |lead| == n
    ensures Broadcasts(Ones(n), lead)
  {
    OnesAreOne(n);
  }

  lemma {:induction false} OnesAreOne(n: nat)
    ensures forall i :: 0 <= i < n ==> Ones(n)[i] == 1
  {
    if n > 0 {
      OnesAreOne(n - 1);
    }
  }

  /** Factors of these shapes, A having leading dimensions of 1. */
  lemma ShapedAs(r: Lora, s: Shape, n: nat, rank: nat, cols: nat)
    requires r.Constructible() && |s| == n + 2 && s[n + 1] == cols
    requires r.a.shape == Ones(n) + [rank, cols] && r.b.shape == s[..n + 1] + [rank]
    ensures r.WellFormed() && r.Shape() == s && r.Rank() == rank && r.Cols() == cols && Prod(r.LeadA()) == 1
  {
    assert r.LeadA() == Ones(n);
    OnesBroadcast(n, r.LeadB());
  }

  lemma ReshapedParts(l: Lora, dims: seq<int>, r: Lora) returns (s: Shape)
    requires l.Constructible() && LoraReshaped(l, dims) == Some(r)
    ensures ExpandShape(dims, Prod(l.Shape())) == Some(s) && |s| >= 2 && s[|s| - 1] == l.Cols()
    ensures Reshape(l.a, Ones(|s| - 2) + [l.Rank(), l.Cols()]) == Some(r.a)
    ensures Reshape(l.b, s[..|s| - 1] + [l.Rank()]) == Some(r.b)
  {
    s := ExpandShape(dims, Prod(l.Shape())).value;
  }

  /** The factors after reshaping. */
  lemma ReshapedFactors(l: Lora, dims: seq<int>, r: Lora)
    requires l.WellFormed() && LoraReshaped(l, dims) == Some(r)
    ensures r.WellFormed() && ExpandShape(dims, Prod(l.Shape())) == Some(r.Shape())
    ensures r.a.data == l.a.data && r.b.data == l.b.data && r.Rank() == l.Rank() && r.Cols() == l.Cols()
    ensures Prod(r.LeadA()) == 1
  {
    var s := ReshapedParts(l, dims, r);
    ShapedAs(r, s, |s| - 2, l.Rank(), l.Cols());
  }

  /** With a rank above 0 the size of B tells how many rows there are. */
  lemma RankedSize(l: Lora, r: Lora)
    requires l.Constructible() && r.Constructible() && l.Rank() == r.Rank() > 0 && l.Cols() == r.Cols()
    requires |l.b.data| == |r.b.data|
    ensures Prod(l.Shape()) == Prod(r.Shape())
  {
    Sizes(l);
    Sizes(r);
    CancelFactor(Prod(l.b.shape[..l.Dims() - 1]), Prod(r.b.shape[..r.Dims() - 1]), l.Rank());
  }

  lemma RankedShared(l: Lora, r: Lora)
    requires l.Constructible() && r.Constructible() && l.Rank() == r.Rank() > 0 && l.Cols() == r.Cols() > 0
    requires |l.a.data| == |r.a.data| && SharedA(r)
    ensures SharedA(l)
  {
    SizeOfA(l);
    SizeOfA(r);
    MulMonotone(1, l.Rank(), l.Cols());
    CancelFactor(Prod(l.LeadA()), 1, l.Rank() * l.Cols());
  }

  lemma RankZeroIsZero(l: Lora, k: nat)
    requires l.WellFormed() && l.Rank() == 0 && k < |Dense(l).data|
    ensures Dense(l).data[k] == 0.0
  {
    var p, i, j := IndexOfElement(l, k);
    EntryAt(l, p, i, j);
  }

  lemma SameProduct(l: Lora, r: Lora)
    requires l.WellFormed() && r.WellFormed() && l.Rank() == r.Rank() && l.Cols() == r.Cols()
    requires l.a.data == r.a.data && l.b.data == r.b.data && SharedA(r) && |Dense(l).data| == |Dense(r).data|
    ensures Dense(l).data == Dense(r).data
  {
    if l.Rank() == 0 {
      forall k | 0 <= k < |Dense(l).data| ensures Dense(l).data[k] == Dense(r).data[k] {
        RankZeroIsZero(l, k);
        RankZeroIsZero(r, k);
      }
    } else if l.Cols() == 0 {
      Sizes(l);
    } else {
      RankedShared(l, r);
      SameFlatProduct(l, r);
    }
  }

  /** Nothing checks the size of a reshaped product but the size of B, which says nothing for a rank of 0. */
  predicate SizeChecked(l: Lora, r: Lora)
    requires l.Constructible() && r.Constructible()
  {
    l.Rank() > 0 || Prod(r.Shape()) == Prod(l.Shape())
  }

  /** Reshaping the factors and multiplying is multiplying and reshaping the product, exactly for a rank above 0 or a
      shape of as many elements, and at most one dimension left open. */
  lemma ReshapeCommutesIff(l: Lora, dims: seq<int>)
    requires l.WellFormed() && LoraReshaped(l, dims).Some?
    ensures var r := LoraReshaped(l, dims).value;
            r.WellFormed() && (DenseReshape(Dense(l), dims) == Some(Dense(r)) <==> OneOpen(dims) && SizeChecked(l, r))
  {
    var r := LoraReshaped(l, dims).value;
    ReshapedFactors(l, dims, r);
    if l.Rank() > 0 {
      RankedSize(l, r);
    }
    if Prod(r.Shape()) == Prod(l.Shape()) {
      SameProduct(l, r);
    }
  }

  lemma RowsCancel(rows: nat, n: nat, rank: nat)
    requires rank > 0
    ensures rows * rank == n * rank <==> rows == n
  {
    if rows * rank == n * rank {
      CancelFactor(rows, n, rank);
    }
  }

  /** Factors with a rank above 0, of which A is one matrix, are reshaped exactly to shapes of at least two dimensions
      that keep the columns and the number of rows. */
  lemma ReshapeAcceptedIff(l: Lora, dims: seq<int>, s: Shape)
    requires l.WellFormed() && l.Rank() > 0 && SharedA(l) && ExpandShape(dims, Prod(l.Shape())) == Some(s)
    ensures LoraReshaped(l, dims).Some? <==>
            |s| >= 2 && s[|s| - 1] == l.Cols() && Prod(s[..|s| - 1]) == Prod(l.b.shape[..l.Dims() - 1])
  {
    if |s| >= 2 {
      var n, rows := |s|, Prod(s[..|s| - 1]);
      SizeOfA(l);
      Sizes(l);
      ProdOfConcat(Ones(n - 2), [l.Rank(), l.Cols()]);
      PairProd(l.Rank(), l.Cols());
      SnocProd(s[..n - 1], l.Rank());
      RowsCancel(rows, Prod(l.b.shape[..l.Dims() - 1]), l.Rank());
    }
  }

  /** For a rank of 0, B is empty, and any number of rows passes. */
  lemma RankZeroReshapesToAnySize()
    ensures var l := Lora(Tensor([0, 1], []), Tensor([1, 0], []));
            && l.WellFormed() && l.Rank() == 0
            && LoraReshaped(l, [2, 1]).Some? && DenseReshape(Tensor([1, 1], [0.0]), [2, 1]).None?
  {
    var a: Tensor<real>, b: Tensor<real> := Tensor([0, 1], []), Tensor([1, 0], []);
    PairProd(0, 1);
    PairProd(1, 0);
    PairProd(1, 1);
    PairProd(2, 1);
    PairProd(2, 0);
    var l := Lora(a, b);
    assert l.Shape() == [1, 1];
    var dims: seq<int> := [2, 1];
    assert -1 !in dims;
    assert ExpandShape(dims, 1).value == [2, 1];
    assert Ones(0) + [0, 1] == [0, 1] && [2, 1][..1] + [0] == [2, 0];
  }

  lemma PairProd(n: nat, m: nat)
    ensures Prod([n, m]) == n * m
  {
    SnocProd([n], m);
    SnocProd([], n);
    assert [n] + [m] == [n, m] && [] + [n] == [n];
  }
}
