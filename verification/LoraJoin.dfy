/** Concatenating and stacking factored tensors (llama.cpp/convert_lora_to_gguf.py:186-222). */
module LoraJoin {
  import opened Wrappers
  import opened Tensors
  import opened LoraTensor

  // ----- the operations -----

  function FactorsA(ls: seq<Lora>): (r: seq<Tensor<real>>)
    ensures |r| == |ls| && forall i :: 0 <= i < |ls| ==> r[i] == ls[i].a
  {
    seq(|ls|, i requires 0 <= i < |ls| => ls[i].a)
  }

  function FactorsB(ls: seq<Lora>): (r: seq<Tensor<real>>)
    ensures |r| == |ls| && forall i :: 0 <= i < |ls| ==> r[i] == ls[i].b
  {
    seq(|ls|, i requires 0 <= i < |ls| => ls[i].b)
  }

  predicate AllConstructible(ls: seq<Lora>) {
    forall i :: 0 <= i < |ls| ==> ls[i].Constructible()
  }

  ghost predicate AllWellFormed(ls: seq<Lora>) {
    forall i :: 0 <= i < |ls| ==> ls[i].WellFormed()
  }

  function MakeBoth(a: Option<Tensor<real>>, b: Option<Tensor<real>>): (r: Option<Lora>)
    ensures r.Some? ==> a.Some? && b.Some? && r.value == Lora(a.value, b.value) && r.value.Constructible()
  {
    if a.None? || b.None? then None else Make(a.value, b.value)
  }

  /** `torch.cat` on factored tensors, along dimension 0. */
  function LoraCat(ls: seq<Lora>): (r: Option<Lora>)
    requires AllConstructible(ls)
    ensures r.Some? ==> ls != [] && r.value.Constructible()
  {
    if ls == [] then None
    else if ls[0].Dims() > 2 then MakeBoth(Cat(FactorsA(ls)), Cat(FactorsB(ls)))
    else if forall i :: 0 < i < |ls| ==> ls[0].a == ls[i].a then MakeBoth(Some(ls[0].a), Cat(FactorsB(ls)))
    else None
  }

  /** `torch.stack` on factored tensors, along dimension 0. */
  function LoraStack(ls: seq<Lora>): (r: Option<Lora>)
    requires AllConstructible(ls)
    ensures r.Some? ==> r.value.Constructible()
  {
    MakeBoth(Stack(FactorsA(ls)), Stack(FactorsB(ls)))
  }

  function Products(ls: seq<Lora>): (r: seq<Tensor<real>>)
    requires AllWellFormed(ls)
    ensures |r| == |ls| && forall i :: 0 <= i < |ls| ==> r[i] == Dense(ls[i])
  {
    seq(|ls|, i requires 0 <= i < |ls| => Dense(ls[i]))
  }

  // ----- two tensors with leading dimensions -----

  /** A's first dimension is B's own, not one shared by all of B. */
  predicate OwnFirst(l: Lora)
    requires l.Constructible()
  {
    l.Dims() > 2 && l.LeadA()[0] == l.LeadB()[0]
  }

  ghost predicate Pairable(l: Lora, m: Lora) {
    && l.WellFormed() && m.WellFormed() && OwnFirst(l) && OwnFirst(m)
    && Joinable(l.a, m.a) && Joinable(l.b, m.b)
  }

  function Paired(l: Lora, m: Lora): (r: Lora)
    requires Pairable(l, m)
    ensures r.a == Join(l.a, m.a) && r.b == Join(l.b, m.b)
    ensures r.WellFormed() && OwnFirst(r) && r.Dims() == l.Dims() == m.Dims() && r.Rank() == l.Rank() == m.Rank()
    ensures r.LeadA() == [l.LeadA()[0] + m.LeadA()[0]] + l.LeadA()[1..]
    ensures r.LeadB() == [l.LeadB()[0] + m.LeadB()[0]] + l.LeadB()[1..]
    ensures l.LeadA()[1..] == m.LeadA()[1..] && l.LeadB()[1..] == m.LeadB()[1..]
    ensures r.Rows() == l.Rows() == m.Rows() && r.Cols() == l.Cols() == m.Cols()
  {
    SameTails(l.a.shape, m.a.shape);
    SameTails(l.b.shape, m.b.shape);
    var r := Lora(Join(l.a, m.a), Join(l.b, m.b));
    SameTails(r.a.shape, l.a.shape);
    SameTails(r.b.shape, l.b.shape);
    SameLeads(l.LeadA(), l.LeadB(), r.LeadA(), r.LeadB());
    r
  }

  /** Leading dimensions that broadcast do so with the same first one put in front of both. */
  lemma SameLeads(a: Shape, b: Shape, a': Shape, b': Shape)
    requires Broadcasts(a, b) && |a| == |a'| > 0 && |b| == |b'| && a'[0] == b'[0]
    requires forall i :: 0 < i < |a| ==> a'[i] == a[i] && b'[i] == b[i]
    ensures Broadcasts(a', b')
  {
  }

  lemma SameTails(s: Shape, t: Shape)
    requires s != [] && t != [] && s[1..] == t[1..]
    ensures |s| == |t| && forall i :: 0 < i < |s| ==> s[i] == t[i]
  {
    assert forall i :: 0 < i < |s| ==> s[i] == s[1..][i - 1] && t[i] == t[1..][i - 1];
  }

  function Side(l: Lora, m: Lora, i: nat): Lora
    requires l.Constructible() && OwnFirst(l)
  {
    if i < l.LeadB()[0] then l else m
  }

  lemma MovedWithin(l: Lora, m: Lora, p: Index)
    requires Pairable(l, m) && Within(p, Paired(l, m).LeadB())
    ensures Within(Moved(p, l.LeadB()[0]), Side(l, m, p[0]).LeadB())
  {
    var s := Side(l, m, p[0]);
    assert s.LeadB()[1..] == l.LeadB()[1..];
    SameTails(s.LeadB(), Paired(l, m).LeadB());
  }

  /** An element of two joined tensors, from the side it lies on. */
  lemma JoinSideAt(t: Tensor<real>, u: Tensor<real>, first: nat, p: Index, i: nat, j: nat)
    requires t.Valid() && u.Valid() && Joinable(t, u) && t.shape[0] == first && p != []
    requires Within(p + [i, j], Join(t, u).shape)
    ensures var side := if p[0] < first then t else u;
            && Within(Moved(p, first) + [i, j], side.shape)
            && At(Join(t, u), p + [i, j]) == At(side, Moved(p, first) + [i, j])
  {
    var idx := p + [i, j];
    JoinAt(t, u, idx);
    assert idx[0] == p[0] && Moved(idx, first) == Moved(p, first) + [i, j];
  }

  lemma PairedRow(l: Lora, m: Lora, p: Index, i: nat, k: nat)
    requires Pairable(l, m) && Within(p, Paired(l, m).LeadB()) && i < l.Rows() && k < l.Rank()
    ensures var s, q := Side(l, m, p[0]), Moved(p, l.LeadB()[0]);
            && Within(p + [i, k], Paired(l, m).b.shape) && Within(q + [i, k], s.b.shape)
            && At(Paired(l, m).b, p + [i, k]) == At(s.b, q + [i, k])
  {
    var r := Paired(l, m);
    assert r.b.shape == r.LeadB() + [r.Rows(), r.Rank()];
    JoinSideAt(l.b, m.b, l.LeadB()[0], p, i, k);
  }

  lemma PairedB(l: Lora, m: Lora, p: Index, i: nat, k: nat)
    requires Pairable(l, m) && Within(p, Paired(l, m).LeadB()) && i < l.Rows() && k < l.Rank()
    ensures var s, q := Side(l, m, p[0]), Moved(p, l.LeadB()[0]);
            && Within(p + [i], Paired(l, m).b.shape[..l.Dims() - 1])
            && Within(q + [i], s.b.shape[..l.Dims() - 1])
            && BAt(Paired(l, m), p + [i], k) == BAt(s, q + [i], k)
  {
    PairedRow(l, m, p, i, k);
    RowPrefix(Paired(l, m), p, i, k);
    RowPrefix(Side(l, m, p[0]), Moved(p, l.LeadB()[0]), i, k);
  }

  lemma RowPrefix(l: Lora, p: Index, i: nat, k: nat)
    requires l.Constructible() && Within(p + [i, k], l.b.shape)
    ensures Within(p + [i], l.b.shape[..l.Dims() - 1]) && k < l.Rank() && BAt(l, p + [i], k) == At(l.b, p + [i, k])
  {
    WithinPrefix(p + [i, k], l.b.shape, l.Dims() - 1);
    assert (p + [i, k])[..l.Dims() - 1] == p + [i] && p + [i] + [k] == p + [i, k];
  }

  lemma PairedA(l: Lora, m: Lora, p: Index, k: nat, c: nat)
    requires Pairable(l, m) && Within(p, Paired(l, m).LeadA()) && k < l.Rank() && c < l.Cols()
    ensures var s, q := Side(l, m, p[0]), Moved(p, l.LeadB()[0]);
            Within(q, s.LeadA()) && AAt(Paired(l, m), p, k, c) == AAt(s, q, k, c)
  {
    var r := Paired(l, m);
    var s, q := Side(l, m, p[0]), Moved(p, l.LeadB()[0]);
    var idx := p + [k, c];
    assert r.a.shape == r.LeadA() + [r.Rank(), r.Cols()];
    assert Within(idx, r.a.shape);
    JoinAt(l.a, m.a, idx);
    assert Moved(idx, l.LeadB()[0]) == q + [k, c];
    WithinPrefix(q + [k, c], s.a.shape, l.Dims() - 2);
    assert (q + [k, c])[..l.Dims() - 2] == q;
  }

  /** Choosing a side and broadcasting commute. */
  lemma MovedBroadcast(l: Lora, m: Lora, p: Index)
    requires Pairable(l, m) && Within(p, Paired(l, m).LeadB())
    ensures var s, q := Side(l, m, p[0]), Moved(p, l.LeadB()[0]);
            && Broadcast(Paired(l, m).LeadA(), p)[0] == p[0]
            && Moved(Broadcast(Paired(l, m).LeadA(), p), l.LeadB()[0]) == Broadcast(s.LeadA(), q)
  {
    var r := Paired(l, m);
    var s, q := Side(l, m, p[0]), Moved(p, l.LeadB()[0]);
    MovedWithin(l, m, p);
    SameTails(s.LeadA(), r.LeadA());
  }

  lemma PairedEntry(l: Lora, m: Lora, p: Index, i: nat, j: nat)
    requires Pairable(l, m) && Within(p, Paired(l, m).LeadB()) && i < l.Rows() && j < l.Cols()
    ensures var s, q := Side(l, m, p[0]), Moved(p, l.LeadB()[0]);
            && Within(p + [i, j], Paired(l, m).Shape()) && Within(q + [i, j], s.Shape())
            && Entry(Paired(l, m), p + [i, j]) == Entry(s, q + [i, j])
  {
    var r := Paired(l, m);
    var s, q := Side(l, m, p[0]), Moved(p, l.LeadB()[0]);
    MovedWithin(l, m, p);
    EntryAt(r, p, i, j);
    EntryAt(s, q, i, j);
    forall k: nat | k < l.Rank()
      ensures BAt(r, p + [i], k) == BAt(s, q + [i], k)
    {
      PairedB(l, m, p, i, k);
    }
    assert RowOf(r, p + [i]) == RowOf(s, q + [i]);
    var x := Broadcast(r.LeadA(), p);
    MovedBroadcast(l, m, p);
    forall k: nat | k < l.Rank()
      ensures AAt(r, x, k, j) == AAt(s, Broadcast(s.LeadA(), q), k, j)
    {
      PairedA(l, m, x, k, j);
    }
    assert ColOf(r, x, j) == ColOf(s, Broadcast(s.LeadA(), q), j);
  }

  lemma ShapeParts(l: Lora)
    requires l.Constructible() && l.Dims() > 2
    ensures l.Shape() == l.LeadB() + [l.Rows(), l.Cols()]
    ensures l.Shape()[0] == l.LeadB()[0] && l.Shape()[1..] == l.LeadB()[1..] + [l.Rows(), l.Cols()]
  {
  }

  lemma ProductsJoinable(l: Lora, m: Lora)
    requires Pairable(l, m)
    ensures Joinable(Dense(l), Dense(m)) && Join(Dense(l), Dense(m)).shape == Paired(l, m).Shape()
  {
    ShapeParts(l);
    ShapeParts(m);
    ShapeParts(Paired(l, m));
  }

  lemma PairedAt(l: Lora, m: Lora, p: Index, i: nat, j: nat)
    requires Pairable(l, m) && Within(p, Paired(l, m).LeadB()) && i < l.Rows() && j < l.Cols()
    ensures Joinable(Dense(l), Dense(m)) && Within(p + [i, j], Join(Dense(l), Dense(m)).shape)
    ensures At(Join(Dense(l), Dense(m)), p + [i, j]) == Entry(Paired(l, m), p + [i, j])
  {
    ProductsJoinable(l, m);
    PairedEntry(l, m, p, i, j);
    var first := l.LeadB()[0];
    JoinSideAt(Dense(l), Dense(m), first, p, i, j);
    DenseAt(Side(l, m, p[0]), Moved(p, first) + [i, j]);
  }

  /** Joining the factors and multiplying is multiplying and joining the products. */
  lemma PairCommutes(l: Lora, m: Lora)
    requires Pairable(l, m)
    ensures Joinable(Dense(l), Dense(m)) && Join(Dense(l), Dense(m)) == Dense(Paired(l, m))
  {
    ProductsJoinable(l, m);
    var r := Paired(l, m);
    var t := Join(Dense(l), Dense(m));
    forall idx | Within(idx, r.Shape())
      ensures At(t, idx) == Entry(r, idx)
    {
      var p, i, j := SplitIndex(r, idx);
      PairedAt(l, m, p, i, j);
    }
    DenseIs(t, r);
  }

  // ----- lists of tensors -----

  lemma TailOfProducts(ls: seq<Lora>)
    requires ls != [] && AllWellFormed(ls)
    ensures FactorsA(ls)[1..] == FactorsA(ls[1..]) && FactorsB(ls)[1..] == FactorsB(ls[1..])
    ensures Products(ls)[1..] == Products(ls[1..])
  {
  }

  /** Concatenating tensors with leading dimensions: both factors are concatenated. */
  lemma {:induction false} CatLeadingCommutes(ls: seq<Lora>)
    requires ls != [] && AllWellFormed(ls) && (forall i :: 0 <= i < |ls| ==> OwnFirst(ls[i]))
    requires Cat(FactorsA(ls)).Some? && Cat(FactorsB(ls)).Some?
    ensures var r := Lora(Cat(FactorsA(ls)).value, Cat(FactorsB(ls)).value);
            && r.WellFormed() && OwnFirst(r)
            && Cat(Products(ls)) == Some(Dense(r))
    decreases |ls|
  {
    if |ls| > 1 {
      var rest := ls[1..];
      TailOfProducts(ls);
      CatLeadingCommutes(rest);
      var m := Lora(Cat(FactorsA(rest)).value, Cat(FactorsB(rest)).value);
      assert Pairable(ls[0], m);
      PairCommutes(ls[0], m);
    } else {
      assert Lora(FactorsA(ls)[0], FactorsB(ls)[0]) == ls[0];
    }
  }

  // ----- two dimensions: one A, rows of B concatenated -----

  ghost predicate SharesA(l: Lora, m: Lora) {
    l.WellFormed() && m.WellFormed() && l.Dims() == m.Dims() == 2 && l.a == m.a && Joinable(l.b, m.b)
  }

  function Rowwise(l: Lora, m: Lora): (r: Lora)
    requires SharesA(l, m)
    ensures r.a == l.a && r.b == Join(l.b, m.b) && r.WellFormed() && r.Dims() == 2
    ensures r.b.shape == [l.Rows() + m.Rows(), l.Rank()] && l.b.shape == [l.Rows(), l.Rank()] && m.b.shape == [m.Rows(), l.Rank()]
  {
    assert l.b.shape[1..] == [l.Rank()] && l.b.shape == [l.Rows()] + l.b.shape[1..];
    assert m.b.shape == [m.Rows()] + m.b.shape[1..];
    Lora(l.a, Join(l.b, m.b))
  }

  lemma RowwiseB(l: Lora, m: Lora, i: nat, k: nat)
    requires SharesA(l, m) && i < l.Rows() + m.Rows() && k < l.Rank()
    ensures var s, i' := if i < l.Rows() then l else m, if i < l.Rows() then i else i - l.Rows();
            && Within([i], Rowwise(l, m).b.shape[..1]) && Within([i'], s.b.shape[..1])
            && BAt(Rowwise(l, m), [i], k) == BAt(s, [i'], k)
  {
    var i' := if i < l.Rows() then i else i - l.Rows();
    assert [i] + [k] == [i, k] && [i'] + [k] == [i', k];
    JoinAt(l.b, m.b, [i, k]);
    assert Moved([i, k], l.Rows()) == [i', k];
  }

  lemma RowwiseEntry(l: Lora, m: Lora, i: nat, j: nat)
    requires SharesA(l, m) && i < l.Rows() + m.Rows() && j < l.Cols()
    ensures var s, i' := if i < l.Rows() then l else m, if i < l.Rows() then i else i - l.Rows();
            && Within([i, j], Rowwise(l, m).Shape()) && Within([i', j], s.Shape())
            && Entry(Rowwise(l, m), [i, j]) == Entry(s, [i', j])
  {
    var r := Rowwise(l, m);
    var s, i' := if i < l.Rows() then l else m, if i < l.Rows() then i else i - l.Rows();
    assert [i] + [j] == [i, j] && [i'] + [j] == [i', j];
    EntryOfRow(r, [i], j);
    EntryOfRow(s, [i'], j);
    forall k: nat | k < l.Rank()
      ensures BAt(r, [i], k) == BAt(s, [i'], k)
    {
      RowwiseB(l, m, i, k);
    }
    assert RowOf(r, [i]) == RowOf(s, [i']);
    assert forall k: nat :: k < l.Rank() ==> AAt(r, [], k, j) == AAt(s, [], k, j);
    assert ColOf(r, [], j) == ColOf(s, [], j);
  }

  lemma RowProductsJoinable(l: Lora, m: Lora)
    requires SharesA(l, m)
    ensures l.Shape() == [l.Rows(), l.Cols()] && m.Shape() == [m.Rows(), l.Cols()]
    ensures Joinable(Dense(l), Dense(m))
    ensures Join(Dense(l), Dense(m)).shape == [l.Rows() + m.Rows(), l.Cols()] == Rowwise(l, m).Shape()
  {
    assert l.Shape()[1..] == m.Shape()[1..] == [l.Cols()];
  }

  lemma JoinOfRows(t: Tensor<real>, u: Tensor<real>, n: nat, m: nat, c: nat, i: nat, j: nat)
    requires t.Valid() && u.Valid() && t.shape == [n, c] && u.shape == [m, c] && i < n + m && j < c
    ensures Joinable(t, u) && Within([i, j], Join(t, u).shape)
    ensures if i < n then Within([i, j], t.shape) && At(Join(t, u), [i, j]) == At(t, [i, j])
            else Within([i - n, j], u.shape) && At(Join(t, u), [i, j]) == At(u, [i - n, j])
  {
    assert [n, c][1..] == [m, c][1..] == [c];
    JoinAt(t, u, [i, j]);
    assert Moved([i, j], n) == if i < n then [i, j] else [i - n, j];
  }

  lemma JoinedRowIs(t: Tensor<real>, u: Tensor<real>, n: nat, m: nat, c: nat, i: nat, j: nat, x: real)
    requires t.Valid() && u.Valid() && t.shape == [n, c] && u.shape == [m, c] && i < n + m && j < c
    requires if i < n then Within([i, j], t.shape) && At(t, [i, j]) == x
             else Within([i - n, j], u.shape) && At(u, [i - n, j]) == x
    ensures Joinable(t, u) && Within([i, j], Join(t, u).shape) && At(Join(t, u), [i, j]) == x
  {
    JoinOfRows(t, u, n, m, c, i, j);
  }

  lemma RowwiseAt(l: Lora, m: Lora, i: nat, j: nat)
    requires SharesA(l, m) && i < l.Rows() + m.Rows() && j < l.Cols()
    ensures Joinable(Dense(l), Dense(m)) && Within([i, j], Join(Dense(l), Dense(m)).shape)
    ensures Within([i, j], Rowwise(l, m).Shape())
    ensures At(Join(Dense(l), Dense(m)), [i, j]) == Entry(Rowwise(l, m), [i, j])
  {
    RowwiseEntry(l, m, i, j);
    var n, x := l.Rows(), Entry(Rowwise(l, m), [i, j]);
    if i < n {
      DenseAt(l, [i, j]);
    } else {
      DenseAt(m, [i - n, j]);
    }
    RowProductsJoinable(l, m);
    JoinedRowIs(Dense(l), Dense(m), n, m.Rows(), l.Cols(), i, j, x);
  }

  lemma RowwiseCommutes(l: Lora, m: Lora)
    requires SharesA(l, m)
    ensures Joinable(Dense(l), Dense(m)) && Join(Dense(l), Dense(m)) == Dense(Rowwise(l, m))
  {
    RowProductsJoinable(l, m);
    var t, r := Join(Dense(l), Dense(m)), Rowwise(l, m);
    forall idx | Within(idx, t.shape)
      ensures At(t, idx) == Entry(r, idx)
    {
      assert idx == [idx[0], idx[1]];
      RowwiseAt(l, m, idx[0], idx[1]);
    }
    DenseIs(t, r);
  }

  lemma {:induction false} CatRowsCommutes(ls: seq<Lora>)
    requires ls != [] && AllWellFormed(ls) && Cat(FactorsB(ls)).Some?
    requires forall i :: 0 <= i < |ls| ==> ls[i].Dims() == 2 && ls[i].a == ls[0].a
    ensures var r := Lora(ls[0].a, Cat(FactorsB(ls)).value);
            r.WellFormed() && r.Dims() == 2 && Cat(Products(ls)) == Some(Dense(r))
    decreases |ls|
  {
    if |ls| > 1 {
      var rest := ls[1..];
      TailOfProducts(ls);
      CatRowsCommutes(rest);
      var m := Lora(rest[0].a, Cat(FactorsB(rest)).value);
      assert SharesA(ls[0], m);
      RowwiseCommutes(ls[0], m);
    } else {
      assert Lora(ls[0].a, FactorsB(ls)[0]) == ls[0];
    }
  }

  // ----- stacking -----

  function Lifted(l: Lora): (r: Lora)
    requires l.WellFormed()
    ensures r.a == Unsqueeze(l.a) && r.b == Unsqueeze(l.b)
    ensures r.WellFormed() && OwnFirst(r)
    ensures r.LeadA() == [1] + l.LeadA() && r.LeadB() == [1] + l.LeadB()
    ensures r.Rank() == l.Rank() && r.Rows() == l.Rows() && r.Cols() == l.Cols() && r.Dims() == l.Dims() + 1
  {
    Lora(Unsqueeze(l.a), Unsqueeze(l.b))
  }

  lemma LiftedB(l: Lora, p: Index, i: nat, k: nat)
    requires l.WellFormed() && Within(p, l.LeadB()) && i < l.Rows() && k < l.Rank()
    ensures Within([0] + p + [i], Lifted(l).b.shape[..l.Dims()]) && Within(p + [i], l.b.shape[..l.Dims() - 1])
    ensures BAt(Lifted(l), [0] + p + [i], k) == BAt(l, p + [i], k)
  {
    assert Lifted(l).b.shape[..l.Dims()] == [1] + l.b.shape[..l.Dims() - 1];
    UnsqueezeAt(l.b, [0] + p + [i] + [k]);
    assert ([0] + p + [i] + [k])[1..] == p + [i] + [k];
  }

  lemma LiftedRow(l: Lora, p: Index, i: nat)
    requires l.WellFormed() && Within(p, l.LeadB()) && i < l.Rows()
    ensures Within([0] + p + [i], Lifted(l).b.shape[..l.Dims()]) && Within(p + [i], l.b.shape[..l.Dims() - 1])
    ensures RowOf(Lifted(l), [0] + p + [i]) == RowOf(l, p + [i])
  {
    var r := Lifted(l);
    assert r.b.shape[..l.Dims()] == [1] + l.b.shape[..l.Dims() - 1];
    forall k: nat | k < l.Rank()
      ensures BAt(r, [0] + p + [i], k) == BAt(l, p + [i], k)
    {
      LiftedB(l, p, i, k);
    }
  }

  lemma LiftedA(l: Lora, q: Index, k: nat, j: nat)
    requires l.WellFormed() && Within(q, l.LeadA()) && k < l.Rank() && j < l.Cols()
    ensures Within([0] + q, Lifted(l).LeadA()) && AAt(Lifted(l), [0] + q, k, j) == AAt(l, q, k, j)
  {
    UnsqueezeAt(l.a, [0] + q + [k, j]);
    assert ([0] + q + [k, j])[1..] == q + [k, j];
  }

  lemma LiftedCol(l: Lora, q: Index, j: nat)
    requires l.WellFormed() && Within(q, l.LeadA()) && j < l.Cols()
    ensures Within([0] + q, Lifted(l).LeadA()) && ColOf(Lifted(l), [0] + q, j) == ColOf(l, q, j)
  {
    var r := Lifted(l);
    forall k: nat | k < l.Rank()
      ensures AAt(r, [0] + q, k, j) == AAt(l, q, k, j)
    {
      LiftedA(l, q, k, j);
    }
  }

  lemma LiftedEntry(l: Lora, p: Index, i: nat, j: nat)
    requires l.WellFormed() && Within(p, l.LeadB()) && i < l.Rows() && j < l.Cols()
    ensures Within([0] + p + [i, j], Lifted(l).Shape()) && Within(p + [i, j], l.Shape())
    ensures Entry(Lifted(l), [0] + p + [i, j]) == Entry(l, p + [i, j])
  {
    var r := Lifted(l);
    assert Within([0] + p, r.LeadB());
    EntryAt(l, p, i, j);
    EntryAt(r, [0] + p, i, j);
    LiftedRow(l, p, i);
    var q := Broadcast(l.LeadA(), p);
    assert Broadcast(r.LeadA(), [0] + p) == [0] + q;
    LiftedCol(l, q, j);
  }

  lemma LiftedAt(l: Lora, idx: Index)
    requires l.WellFormed() && Within(idx, [1] + l.Shape())
    ensures Within(idx, Lifted(l).Shape()) && At(Unsqueeze(Dense(l)), idx) == Entry(Lifted(l), idx)
  {
    UnsqueezeAt(Dense(l), idx);
    var p, i, j := SplitIndex(l, idx[1..]);
    LiftedEntry(l, p, i, j);
    assert idx == [0] + p + [i, j];
    DenseAt(l, p + [i, j]);
  }

  lemma LiftCommutes(l: Lora)
    requires l.WellFormed()
    ensures Unsqueeze(Dense(l)) == Dense(Lifted(l))
  {
    var t := Unsqueeze(Dense(l));
    assert t.shape == Lifted(l).Shape();
    forall idx | Within(idx, t.shape)
      ensures At(t, idx) == Entry(Lifted(l), idx)
    {
      LiftedAt(l, idx);
    }
    DenseIs(t, Lifted(l));
  }

  function AllLifted(ls: seq<Lora>): (r: seq<Lora>)
    requires AllWellFormed(ls)
    ensures |r| == |ls| && forall i :: 0 <= i < |ls| ==> r[i] == Lifted(ls[i])
  {
    seq(|ls|, i requires 0 <= i < |ls| => Lifted(ls[i]))
  }

  function Unsqueezed(ts: seq<Tensor<real>>): (r: seq<Tensor<real>>)
    requires forall i :: 0 <= i < |ts| ==> ts[i].Valid()
    ensures |r| == |ts| && forall i :: 0 <= i < |ts| ==> r[i] == Unsqueeze(ts[i])
  {
    seq(|ts|, i requires 0 <= i < |ts| => Unsqueeze(ts[i]))
  }

  lemma StackIs(ts: seq<Tensor<real>>)
    requires forall i :: 0 <= i < |ts| ==> ts[i].Valid()
    ensures (forall t :: t in ts ==> t.Valid()) && (forall t :: t in Unsqueezed(ts) ==> t.Valid())
    ensures Stack(ts) == Cat(Unsqueezed(ts))
  {
    assert Unsqueezed(ts) == seq(|ts|, i requires 0 <= i < |ts| => Unsqueeze(ts[i]));
  }

  /** Stacking the factors and multiplying is multiplying and stacking the products, without any condition. */
  lemma StackCommutes(ls: seq<Lora>)
    requires AllWellFormed(ls) && LoraStack(ls).Some?
    ensures LoraStack(ls).value.WellFormed() && Stack(Products(ls)) == Some(Dense(LoraStack(ls).value))
  {
    var up := AllLifted(ls);
    StackIs(FactorsA(ls));
    StackIs(FactorsB(ls));
    StackIs(Products(ls));
    assert Unsqueezed(FactorsA(ls)) == FactorsA(up);
    assert Unsqueezed(FactorsB(ls)) == FactorsB(up);
    forall i | 0 <= i < |ls|
      ensures Unsqueezed(Products(ls))[i] == Products(up)[i]
    {
      LiftCommutes(ls[i]);
    }
    assert Unsqueezed(Products(ls)) == Products(up);
    CatLeadingCommutes(up);
  }
}
