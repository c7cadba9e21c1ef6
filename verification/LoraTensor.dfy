/** A tensor kept as two factors, with every shape operation done on the factors
    (llama.cpp/convert_lora_to_gguf.py, LoraTorchTensor). */
module LoraTensor {
  import opened Wrappers
  import opened Tensors

  // ----- the dense tensor the factors stand for -----

  function Dot(u: seq<real>, v: seq<real>): real
    requires |u| == |v|
  {
    if u == [] then 0.0 else u[0] * v[0] + Dot(u[1..], v[1..])
  }

  /** A vector that is `x` at `k` and 0 elsewhere. */
  function Unit(n: nat, k: nat, x: real): (r: seq<real>)
    ensures |r| == n
  {
    seq(n, i => if i == k then x else 0.0)
  }

  function Plus(u: seq<real>, v: seq<real>): (r: seq<real>)
    requires |u| == |v|
    ensures |r| == |u|
  {
    seq(|u|, i requires 0 <= i < |u| => u[i] + v[i])
  }

  /** What makes it the product of a row and a column: it adds up what the single entries give. */
  lemma {:induction false} DotAdds(u: seq<real>, v: seq<real>, w: seq<real>)
    requires |u| == |v| == |w|
    ensures Dot(u, Plus(v, w)) == Dot(u, v) + Dot(u, w)
  {
    if u != [] {
      DotAdds(u[1..], v[1..], w[1..]);
      assert Plus(v, w)[1..] == Plus(v[1..], w[1..]);
    }
  }

  lemma {:induction false} DotOfUnit(u: seq<real>, k: nat, x: real)
    requires k < |u|
    ensures Dot(u, Unit(|u|, k, x)) == u[k] * x
    decreases k
  {
    var n := |u| - 1;
    if k == 0 {
      DotOfZeros(u[1..]);
      assert Unit(|u|, 0, x)[1..] == Unit(n, n, 0.0);
    } else {
      DotOfUnit(u[1..], k - 1, x);
      assert Unit(|u|, k, x)[1..] == Unit(n, k - 1, x);
    }
  }

  lemma {:induction false} DotOfZeros(u: seq<real>)
    ensures Dot(u, Unit(|u|, |u|, 0.0)) == 0.0
  {
    if u != [] {
      DotOfZeros(u[1..]);
      assert Unit(|u|, |u|, 0.0)[1..] == Unit(|u| - 1, |u| - 1, 0.0);
    }
  }

  lemma {:induction false} DotCommutes(u: seq<real>, v: seq<real>)
    requires |u| == |v|
    ensures Dot(u, v) == Dot(v, u)
  {
    if u != [] {
      DotCommutes(u[1..], v[1..]);
    }
  }

  /** A leading dimension of size 1 is shared by all positions of the other factor. */
  function Broadcast(lead: Shape, idx: Index): (r: Index)
    requires |lead| == |idx|
    ensures |r| == |idx|
  {
    seq(|lead|, i requires 0 <= i < |lead| => if lead[i] == 1 then 0 else idx[i])
  }

  /** Leading dimensions of A are 1 or those of B. */
  predicate Broadcasts(leadA: Shape, leadB: Shape) {
    |leadA| == |leadB| && forall i :: 0 <= i < |leadA| ==> leadA[i] == 1 || leadA[i] == leadB[i]
  }

  lemma BroadcastWithin(leadA: Shape, leadB: Shape, idx: Index)
    requires Broadcasts(leadA, leadB) && Within(idx, leadB)
    ensures Within(Broadcast(leadA, idx), leadA)
  {
  }

  /** `a` has shape leadA + [rank, cols], `b` has shape leadB + [rows, rank]. */
  datatype Lora = Lora(a: Tensor<real>, b: Tensor<real>) {
    /** What the constructor asserts. */
    predicate Constructible() {
      && a.Valid() && b.Valid()
      && 2 <= |a.shape| == |b.shape|
      && a.shape[|a.shape| - 2] == b.shape[|b.shape| - 1]
    }

    ghost predicate WellFormed() {
      && Constructible()
      && Broadcasts(LeadA(), LeadB())
    }

    function Dims(): nat
      requires Constructible()
    {
      |a.shape|
    }

    function Rank(): nat
      requires Constructible()
    {
      b.shape[|b.shape| - 1]
    }

    function Rows(): nat
      requires Constructible()
    {
      b.shape[|b.shape| - 2]
    }

    function Cols(): nat
      requires Constructible()
    {
      a.shape[|a.shape| - 1]
    }

    function LeadA(): Shape
      requires Constructible()
    {
      a.shape[..|a.shape| - 2]
    }

    function LeadB(): Shape
      requires Constructible()
    {
      b.shape[..|b.shape| - 2]
    }

    /** The `shape` property. */
    function Shape(): (r: Shape)
      requires Constructible()
      ensures |r| == Dims()
    {
      b.shape[..|b.shape| - 1] + [Cols()]
    }
  }

  /** The row of B at leading index and row number `p`. */
  function RowOf(l: Lora, p: Index): (r: seq<real>)
    requires l.Constructible() && Within(p, l.b.shape[..l.Dims() - 1])
    ensures |r| == l.Rank()
  {
    seq(l.Rank(), k requires 0 <= k < l.Rank() => BAt(l, p, k))
  }

  function BAt(l: Lora, p: Index, k: nat): real
    requires l.Constructible() && Within(p, l.b.shape[..l.Dims() - 1]) && k < l.Rank()
  {
    At(l.b, p + [k])
  }

  /** The column `c` of A at leading index `q`. */
  function ColOf(l: Lora, q: Index, c: nat): (r: seq<real>)
    requires l.Constructible() && Within(q, l.LeadA()) && c < l.Cols()
    ensures |r| == l.Rank()
  {
    seq(l.Rank(), k requires 0 <= k < l.Rank() => AAt(l, q, k, c))
  }

  function AAt(l: Lora, q: Index, k: nat, c: nat): real
    requires l.Constructible() && Within(q, l.LeadA()) && k < l.Rank() && c < l.Cols()
  {
    assert Within(q + [k, c], l.a.shape);
    At(l.a, q + [k, c])
  }

  /** An element of B times A. */
  function Entry(l: Lora, idx: Index): real
    requires l.WellFormed() && Within(idx, l.Shape())
  {
    var n := l.Dims();
    BroadcastWithin(l.LeadA(), l.LeadB(), idx[..n - 2]);
    Dot(RowOf(l, idx[..n - 1]), ColOf(l, Broadcast(l.LeadA(), idx[..n - 2]), idx[n - 1]))
  }

  /** The same element, with the index split into leading part, row and column. */
  lemma EntryAt(l: Lora, p: Index, i: nat, j: nat)
    requires l.WellFormed() && Within(p, l.LeadB()) && i < l.Rows() && j < l.Cols()
    ensures Within(p + [i, j], l.Shape()) && Within(p + [i], l.b.shape[..l.Dims() - 1])
    ensures Within(Broadcast(l.LeadA(), p), l.LeadA())
    ensures Entry(l, p + [i, j]) == Dot(RowOf(l, p + [i]), ColOf(l, Broadcast(l.LeadA(), p), j))
  {
    var idx, n := p + [i, j], l.Dims();
    assert idx[..n - 1] == p + [i] && idx[..n - 2] == p && idx[n - 1] == j;
    BroadcastWithin(l.LeadA(), l.LeadB(), p);
  }

  /** The same element, with only the column split off. */
  lemma EntryOfRow(l: Lora, p: Index, c: nat)
    requires l.WellFormed() && Within(p, l.b.shape[..l.Dims() - 1]) && c < l.Cols()
    ensures Within(p + [c], l.Shape()) && Within(Broadcast(l.LeadA(), p[..l.Dims() - 2]), l.LeadA())
    ensures Entry(l, p + [c]) == Dot(RowOf(l, p), ColOf(l, Broadcast(l.LeadA(), p[..l.Dims() - 2]), c))
  {
    var n := l.Dims();
    var lead, i := p[..n - 2], p[n - 2];
    assert Within(lead, l.LeadB());
    EntryAt(l, lead, i, c);
    assert lead + [i] == p && lead + [i, c] == p + [c];
  }

  /** Every index has such a split. */
  lemma SplitIndex(l: Lora, idx: Index) returns (p: Index, i: nat, j: nat)
    requires l.WellFormed() && Within(idx, l.Shape())
    ensures idx == p + [i, j] && Within(p, l.LeadB()) && i < l.Rows() && j < l.Cols()
  {
    var n := l.Dims();
    p, i, j := idx[..n - 2], idx[n - 2], idx[n - 1];
    assert forall d :: 0 <= d < n - 2 ==> p[d] < l.Shape()[d];
  }

  /** The product of the factors. */
  function Dense(l: Lora): (t: Tensor<real>)
    requires l.WellFormed()
    ensures t.Valid() && t.shape == l.Shape()
  {
    Build(l.Shape(), idx requires Within(idx, l.Shape()) => Entry(l, idx))
  }

  lemma DenseAt(l: Lora, idx: Index)
    requires l.WellFormed() && Within(idx, l.Shape())
    ensures At(Dense(l), idx) == Entry(l, idx)
  {
    BuildAt(l.Shape(), i requires Within(i, l.Shape()) => Entry(l, i), idx);
  }

  /** A tensor with the elements of B times A is their product. */
  lemma DenseIs(t: Tensor<real>, l: Lora)
    requires t.Valid() && l.WellFormed() && t.shape == l.Shape()
    requires forall idx :: Within(idx, t.shape) ==> At(t, idx) == Entry(l, idx)
    ensures t == Dense(l)
  {
    forall idx | Within(idx, t.shape)
      ensures At(t, idx) == At(Dense(l), idx)
    {
      DenseAt(l, idx);
    }
    SameElements(t, Dense(l));
  }

  function Make(a: Tensor<real>, b: Tensor<real>): Option<Lora> {
    var l := Lora(a, b);
    if l.Constructible() then Some(l) else None
  }
}
