/** Dense tensors: a shape and the elements in row-major order, with the torch operations the converters use. */
module Tensors {
  import opened Wrappers

  type Shape = seq<nat>
  type Index = seq<nat>

  function Prod(shape: Shape): nat {
    if shape == [] then 1 else shape[0] * Prod(shape[1..])
  }

  predicate Within(idx: Index, shape: Shape) {
    |idx| == |shape| && forall i :: 0 <= i < |idx| ==> idx[i] < shape[i]
  }

  lemma WithinPrefix(idx: Index, shape: Shape, n: nat)
    requires Within(idx, shape) && n <= |shape|
    ensures Within(idx[..n], shape[..n])
  {
  }

  // ----- row-major numbering -----

  lemma MulMonotone(a: nat, b: nat, p: nat)
    requires a <= b
    ensures a * p <= b * p
  {
  }

  lemma MulDistributes(a: int, b: int, p: int)
    ensures (a + b) * p == a * p + b * p
  {
  }

  lemma MulAssociates(a: int, b: int, c: int)
    ensures a * (b * c) == a * b * c
  {
  }

  lemma RowMajorBound(i: nat, n: nat, r: nat, p: nat)
    requires i < n && r < p
    ensures i * p + r < n * p
  {
    MulMonotone(i + 1, n, p);
    MulDistributes(i, 1, p);
  }

  lemma QuotientIs(x: nat, i: nat, r: nat, p: nat)
    requires r < p && x == i * p + r
    ensures x / p == i && x % p == r
  {
    var q := x / p;
    assert x == q * p + x % p;
    if q < i {
      MulMonotone(q + 1, i, p);
      MulDistributes(q, 1, p);
    } else if i < q {
      MulMonotone(i + 1, q, p);
      MulDistributes(i, 1, p);
    }
  }

  lemma DivBound(k: nat, n: nat, p: nat)
    requires k < n * p
    ensures p > 0 && k / p < n
  {
    if p > 0 && n <= k / p {
      MulMonotone(n, k / p, p);
    }
  }

  function Offset(shape: Shape, idx: Index): (r: nat)
    requires Within(idx, shape)
    ensures r < Prod(shape)
  {
    if shape == [] then 0
    else
      var inner := Offset(shape[1..], idx[1..]);
      RowMajorBound(idx[0], shape[0], inner, Prod(shape[1..]));
      idx[0] * Prod(shape[1..]) + inner
  }

  function Unravel(shape: Shape, k: nat): (r: Index)
    requires k < Prod(shape)
    ensures Within(r, shape)
  {
    if shape == [] then []
    else
      var p := Prod(shape[1..]);
      DivBound(k, shape[0], p);
      [k / p] + Unravel(shape[1..], k % p)
  }

  lemma DivMod(k: nat, p: nat)
    requires p > 0
    ensures k / p * p + k % p == k
  {
  }

  lemma {:induction false} OffsetOfUnravel(shape: Shape, k: nat)
    requires k < Prod(shape)
    ensures Offset(shape, Unravel(shape, k)) == k
  {
    if shape != [] {
      var p := Prod(shape[1..]);
      DivBound(k, shape[0], p);
      OffsetOfUnravel(shape[1..], k % p);
      DivMod(k, p);
      var idx := Unravel(shape, k);
      assert idx[0] == k / p && idx[1..] == Unravel(shape[1..], k % p);
    }
  }

  lemma {:induction false} UnravelOfOffset(shape: Shape, idx: Index)
    requires Within(idx, shape)
    ensures Unravel(shape, Offset(shape, idx)) == idx
  {
    if shape != [] {
      var p := Prod(shape[1..]);
      QuotientIs(Offset(shape, idx), idx[0], Offset(shape[1..], idx[1..]), p);
      UnravelOfOffset(shape[1..], idx[1..]);
    }
  }

  lemma {:induction false} ProdOfConcat(a: Shape, b: Shape)
    ensures Prod(a + b) == Prod(a) * Prod(b)
  {
    if a == [] {
      assert a + b == b;
    } else {
      ProdOfConcat(a[1..], b);
      assert (a + b)[1..] == a[1..] + b;
      MulAssociates(a[0], Prod(a[1..]), Prod(b));
    }
  }

  lemma WithinConcat(i: Index, a: Shape, j: Index, b: Shape)
    requires Within(i, a) && Within(j, b)
    ensures Within(i + j, a + b)
  {
  }

  /** One more dimension in front. */
  lemma OffsetStep(first: nat, prodA: nat, prodB: nat, innerA: nat, offB: nat)
    ensures first * (prodA * prodB) + (innerA * prodB + offB) == (first * prodA + innerA) * prodB + offB
  {
    MulAssociates(first, prodA, prodB);
    MulDistributes(first * prodA, innerA, prodB);
  }

  lemma {:induction false} OffsetOfCons(shape: Shape, idx: Index, rest: Shape, inner: Index)
    requires Within(idx, shape) && shape != [] && rest == shape[1..] && inner == idx[1..]
    ensures Within(inner, rest) && Offset(shape, idx) == idx[0] * Prod(rest) + Offset(rest, inner)
  {
  }

  lemma {:induction false} OffsetOfConcat(a: Shape, b: Shape, i: Index, j: Index)
    requires Within(i, a) && Within(j, b)
    ensures Within(i + j, a + b)
    ensures Offset(a + b, i + j) == Offset(a, i) * Prod(b) + Offset(b, j)
  {
    WithinConcat(i, a, j, b);
    if a == [] {
      assert a + b == b && i + j == j;
    } else {
      var rest, inner := a[1..], i[1..];
      OffsetOfCons(a, i, rest, inner);
      OffsetOfCons(a + b, i + j, rest + b, inner + j);
      OffsetOfConcat(rest, b, inner, j);
      ProdOfConcat(rest, b);
      OffsetStep(i[0], Prod(rest), Prod(b), Offset(rest, inner), Offset(b, j));
    }
  }

  // ----- tensors -----

  datatype Tensor<T> = Tensor(shape: Shape, data: seq<T>) {
    predicate Valid() {
      |data| == Prod(shape)
    }
  }

  function At<T>(t: Tensor<T>, idx: Index): T
    requires t.Valid() && Within(idx, t.shape)
  {
    t.data[Offset(t.shape, idx)]
  }

  function Build<T>(shape: Shape, f: Index --> T): (t: Tensor<T>)
    requires forall idx :: Within(idx, shape) ==> f.requires(idx)
    ensures t.Valid() && t.shape == shape
  {
    Tensor(shape, seq(Prod(shape), k requires 0 <= k < Prod(shape) => f(Unravel(shape, k))))
  }

  lemma BuildAt<T>(shape: Shape, f: Index --> T, idx: Index)
    requires Within(idx, shape) && forall i :: Within(i, shape) ==> f.requires(i)
    ensures At(Build(shape, f), idx) == f(idx)
  {
    UnravelOfOffset(shape, idx);
  }

  lemma ElementIsAt<T>(t: Tensor<T>, k: nat)
    requires t.Valid() && k < |t.data|
    ensures Offset(t.shape, Unravel(t.shape, k)) == k && At(t, Unravel(t.shape, k)) == t.data[k]
  {
    OffsetOfUnravel(t.shape, k);
  }

  /** Tensors with the same elements at the same indices are the same. */
  lemma SameElements<T>(t: Tensor<T>, u: Tensor<T>)
    requires t.Valid() && u.Valid() && t.shape == u.shape
    requires forall idx :: Within(idx, t.shape) ==> At(t, idx) == At(u, idx)
    ensures t == u
  {
    forall k | 0 <= k < |t.data|
      ensures t.data[k] == u.data[k]
    {
      OffsetOfUnravel(t.shape, k);
      assert At(t, Unravel(t.shape, k)) == At(u, Unravel(t.shape, k));
    }
  }

  /** `torch.reshape`: the same elements in the same order. */
  function Reshape<T>(t: Tensor<T>, shape: Shape): (r: Option<Tensor<T>>)
    requires t.Valid()
    ensures r.Some? ==> r.value.Valid()
  {
    if Prod(shape) == |t.data| then Some(Tensor(shape, t.data)) else None
  }

  // ----- permuting dimensions -----

  predicate Permutation(dims: seq<nat>, n: nat) {
    && |dims| == n
    && (forall i :: 0 <= i < n ==> dims[i] < n)
    && (forall i, j :: 0 <= i < j < n ==> dims[i] != dims[j])
    && (forall d :: 0 <= d < n ==> d in dims)
  }

  function Position(dims: seq<nat>, d: nat): (r: nat)
    requires d in dims
    ensures r < |dims| && dims[r] == d
  {
    if dims[0] == d then 0 else 1 + Position(dims[1..], d)
  }

  function PermutedShape(shape: Shape, dims: seq<nat>): (r: Shape)
    requires Permutation(dims, |shape|)
    ensures |r| == |shape|
  {
    seq(|shape|, i requires 0 <= i < |shape| => shape[dims[i]])
  }

  /** The index in the source of the element at `idx` in the permuted tensor. */
  function Unpermuted(idx: Index, dims: seq<nat>): (r: Index)
    requires Permutation(dims, |idx|)
    ensures |r| == |idx|
  {
    seq(|idx|, d requires 0 <= d < |idx| => idx[Position(dims, d)])
  }

  lemma UnpermutedWithin(idx: Index, shape: Shape, dims: seq<nat>)
    requires Permutation(dims, |shape|) && Within(idx, PermutedShape(shape, dims))
    ensures Within(Unpermuted(idx, dims), shape)
  {
    forall d | 0 <= d < |shape|
      ensures Unpermuted(idx, dims)[d] < shape[d]
    {
      var p := Position(dims, d);
      assert idx[p] < PermutedShape(shape, dims)[p];
    }
  }

  /** `torch.permute` with dimensions counted from 0. */
  function Permute<T>(t: Tensor<T>, dims: seq<nat>): (r: Tensor<T>)
    requires t.Valid() && Permutation(dims, |t.shape|)
    ensures r.Valid() && r.shape == PermutedShape(t.shape, dims)
  {
    var shape := PermutedShape(t.shape, dims);
    assert forall idx :: Within(idx, shape) ==> Within(Unpermuted(idx, dims), t.shape) by {
      forall idx | Within(idx, shape) ensures Within(Unpermuted(idx, dims), t.shape) {
        UnpermutedWithin(idx, t.shape, dims);
      }
    }
    Build(shape, idx requires Within(idx, shape) && Within(Unpermuted(idx, dims), t.shape) => At(t, Unpermuted(idx, dims)))
  }

  lemma PermuteAt<T>(t: Tensor<T>, dims: seq<nat>, idx: Index)
    requires t.Valid() && Permutation(dims, |t.shape|) && Within(idx, PermutedShape(t.shape, dims))
    ensures Within(Unpermuted(idx, dims), t.shape) && At(Permute(t, dims), idx) == At(t, Unpermuted(idx, dims))
  {
    var shape := PermutedShape(t.shape, dims);
    forall i | Within(i, shape) ensures Within(Unpermuted(i, dims), t.shape) {
      UnpermutedWithin(i, t.shape, dims);
    }
    BuildAt(shape, i requires Within(i, shape) && Within(Unpermuted(i, dims), t.shape) => At(t, Unpermuted(i, dims)), idx);
  }

  /** Where every element goes: its position along dimension `dims[i]` becomes that along dimension `i`. */
  lemma PermuteMoves<T>(t: Tensor<T>, dims: seq<nat>, src: Index, idx: Index)
    requires t.Valid() && Permutation(dims, |t.shape|) && Within(src, t.shape)
    requires |idx| == |src| && forall i :: 0 <= i < |idx| ==> idx[i] == src[dims[i]]
    ensures |Permute(t, dims).shape| == |t.shape| && forall i :: 0 <= i < |dims| ==> Permute(t, dims).shape[i] == t.shape[dims[i]]
    ensures Within(idx, Permute(t, dims).shape) && At(Permute(t, dims), idx) == At(t, src)
  {
    assert Unpermuted(idx, dims) == src;
    PermuteAt(t, dims, idx);
  }

  // ----- selecting along dimensions -----

  /** One entry of an index tuple: an integer, or a slice with a positive step. */
  datatype Sel = Pick(j: int) | Span(start: Option<int>, stop: Option<int>, step: int)

  const WHOLE := Span(None, None, 1)

  function Clamp(x: int, n: nat): (r: nat)
    ensures r <= n
  {
    if x < 0 then (if x + n < 0 then 0 else x + n) else if x < n then x else n
  }

  function Low(sel: Sel, n: nat): (r: nat)
    requires sel.Span?
    ensures r <= n
  {
    if sel.start.None? then 0 else Clamp(sel.start.value, n)
  }

  function High(sel: Sel, n: nat): (r: nat)
    requires sel.Span?
    ensures r <= n
  {
    if sel.stop.None? then n else Clamp(sel.stop.value, n)
  }

  predicate SelOk(sel: Sel, n: nat) {
    match sel
    case Pick(j) => 0 <= j + n && j < n
    case Span(_, _, step) => step > 0
  }

  /** How many positions a slice keeps of a dimension of size `n`. */
  function Count(sel: Sel, n: nat): nat
    requires sel.Span? && SelOk(sel, n)
  {
    var lo, hi := Low(sel, n), High(sel, n);
    if hi <= lo then 0 else (hi - lo - 1) / sel.step + 1
  }

  function PickPos(sel: Sel, n: nat): (r: nat)
    requires sel.Pick? && SelOk(sel, n)
    ensures r < n
  {
    if sel.j < 0 then sel.j + n else sel.j
  }

  /** The position in the source of position `i` of a slice. */
  function SpanPos(sel: Sel, n: nat, i: nat): (r: nat)
    requires sel.Span? && SelOk(sel, n) && i < Count(sel, n)
    ensures r < n
  {
    var lo, hi := Low(sel, n), High(sel, n);
    SpanBound(hi - lo - 1, sel.step, i);
    lo + i * sel.step
  }

  lemma SpanBound(last: nat, step: nat, i: nat)
    requires step > 0 && i <= last / step
    ensures 0 <= i * step <= last
  {
    DivMod(last, step);
    MulMonotone(i, last / step, step);
    MulMonotone(0, i, step);
  }

  predicate SelsOk(sels: seq<Sel>, shape: Shape) {
    |sels| == |shape| && forall i :: 0 <= i < |sels| ==> SelOk(sels[i], shape[i])
  }

  function SelectedShape(sels: seq<Sel>, shape: Shape): Shape
    requires SelsOk(sels, shape)
  {
    if sels == [] then []
    else
      var rest := SelectedShape(sels[1..], shape[1..]);
      if sels[0].Pick? then rest else [Count(sels[0], shape[0])] + rest
  }

  /** The index in the source of the element at `idx` in the selection. */
  function Source(sels: seq<Sel>, shape: Shape, idx: Index): (r: Index)
    requires SelsOk(sels, shape) && Within(idx, SelectedShape(sels, shape))
    ensures Within(r, shape)
  {
    if sels == [] then []
    else if sels[0].Pick? then [PickPos(sels[0], shape[0])] + Source(sels[1..], shape[1..], idx)
    else [SpanPos(sels[0], shape[0], idx[0])] + Source(sels[1..], shape[1..], idx[1..])
  }

  function Wholes(n: nat): (r: seq<Sel>)
    ensures |r| == n && forall i :: 0 <= i < n ==> r[i] == WHOLE
  {
    seq(n, _ => WHOLE)
  }

  /** `t[sels]`, dimensions without an entry being taken whole; `None` is torch's index error. */
  function GetItem<T>(t: Tensor<T>, sels: seq<Sel>): (r: Option<Tensor<T>>)
    requires t.Valid()
    ensures r.Some? ==> r.value.Valid()
  {
    if |t.shape| < |sels| then None
    else
      var all := sels + Wholes(|t.shape| - |sels|);
      if SelsOk(all, t.shape) then Some(Select(t, all)) else None
  }

  function Select<T>(t: Tensor<T>, sels: seq<Sel>): (r: Tensor<T>)
    requires t.Valid() && SelsOk(sels, t.shape)
    ensures r.Valid() && r.shape == SelectedShape(sels, t.shape)
  {
    var shape := SelectedShape(sels, t.shape);
    Build(shape, idx requires Within(idx, shape) => At(t, Source(sels, t.shape, idx)))
  }

  lemma SelectAt<T>(t: Tensor<T>, sels: seq<Sel>, idx: Index)
    requires t.Valid() && SelsOk(sels, t.shape) && Within(idx, SelectedShape(sels, t.shape))
    ensures At(Select(t, sels), idx) == At(t, Source(sels, t.shape, idx))
  {
    var shape := SelectedShape(sels, t.shape);
    BuildAt(shape, i requires Within(i, shape) => At(t, Source(sels, t.shape, i)), idx);
  }

  /** Taking every dimension whole changes nothing. */
  lemma {:induction false} WholesSelectAll(shape: Shape)
    ensures SelsOk(Wholes(|shape|), shape) && SelectedShape(Wholes(|shape|), shape) == shape
    ensures forall idx :: Within(idx, shape) ==> Source(Wholes(|shape|), shape, idx) == idx
  {
    if shape != [] {
      WholesSelectAll(shape[1..]);
      assert Wholes(|shape|)[1..] == Wholes(|shape[1..]|);
    }
  }

  lemma SelectWholes<T>(t: Tensor<T>)
    requires t.Valid()
    ensures SelsOk(Wholes(|t.shape|), t.shape) && Select(t, Wholes(|t.shape|)) == t
  {
    WholesSelectAll(t.shape);
    forall idx | Within(idx, t.shape) ensures At(Select(t, Wholes(|t.shape|)), idx) == At(t, idx) {
      SelectAt(t, Wholes(|t.shape|), idx);
    }
    SameElements(Select(t, Wholes(|t.shape|)), t);
  }

  lemma {:induction false} SelectedShapeOfConcat(s: seq<Sel>, s': seq<Sel>, a: Shape, a': Shape)
    requires SelsOk(s, a) && SelsOk(s', a')
    ensures SelsOk(s + s', a + a')
    ensures SelectedShape(s + s', a + a') == SelectedShape(s, a) + SelectedShape(s', a')
  {
    if s == [] {
      assert s + s' == s' && a + a' == a';
    } else {
      assert (s + s')[1..] == s[1..] + s' && (a + a')[1..] == a[1..] + a';
      SelectedShapeOfConcat(s[1..], s', a[1..], a');
    }
  }

  lemma ConsConcat(p: nat, x: Index, y: Index)
    ensures [p] + (x + y) == ([p] + x) + y
  {
  }

  lemma {:induction false} SourceOfConcat(s: seq<Sel>, s': seq<Sel>, a: Shape, a': Shape, i: Index, i': Index)
    requires SelsOk(s, a) && SelsOk(s', a')
    requires Within(i, SelectedShape(s, a)) && Within(i', SelectedShape(s', a'))
    ensures SelsOk(s + s', a + a') && Within(i + i', SelectedShape(s + s', a + a'))
    ensures Source(s + s', a + a', i + i') == Source(s, a, i) + Source(s', a', i')
  {
    SelectedShapeOfConcat(s, s', a, a');
    if s == [] {
      assert s + s' == s' && a + a' == a' && i + i' == i';
    } else if s[0].Pick? {
      SourceOfConcatPick(s, s', a, a', i, i');
      SourceOfConcat(s[1..], s', a[1..], a', i, i');
      ConsConcat(PickPos(s[0], a[0]), Source(s[1..], a[1..], i), Source(s', a', i'));
    } else {
      SourceOfConcatSpan(s, s', a, a', i, i');
      SourceOfConcat(s[1..], s', a[1..], a', i[1..], i');
      ConsConcat(SpanPos(s[0], a[0], i[0]), Source(s[1..], a[1..], i[1..]), Source(s', a', i'));
    }
  }

  lemma SourceOfConcatPick(s: seq<Sel>, s': seq<Sel>, a: Shape, a': Shape, i: Index, i': Index)
    requires SelsOk(s, a) && SelsOk(s', a') && s != [] && s[0].Pick?
    requires SelsOk(s + s', a + a') && Within(i + i', SelectedShape(s + s', a + a'))
    ensures SelsOk(s[1..] + s', a[1..] + a') && Within(i + i', SelectedShape(s[1..] + s', a[1..] + a'))
    ensures Source(s + s', a + a', i + i') == [PickPos(s[0], a[0])] + Source(s[1..] + s', a[1..] + a', i + i')
  {
    assert (s + s')[1..] == s[1..] + s' && (a + a')[1..] == a[1..] + a';
  }

  lemma SourceOfConcatSpan(s: seq<Sel>, s': seq<Sel>, a: Shape, a': Shape, i: Index, i': Index)
    requires SelsOk(s, a) && SelsOk(s', a') && s != [] && s[0].Span? && i != []
    requires SelsOk(s + s', a + a') && Within(i + i', SelectedShape(s + s', a + a'))
    ensures SelsOk(s[1..] + s', a[1..] + a') && Within(i[1..] + i', SelectedShape(s[1..] + s', a[1..] + a'))
    ensures i[0] < Count(s[0], a[0])
    ensures Source(s + s', a + a', i + i')
         == [SpanPos(s[0], a[0], i[0])] + Source(s[1..] + s', a[1..] + a', i[1..] + i')
  {
    var t, b, j := s + s', a + a', i + i';
    assert t[1..] == s[1..] + s' && b[1..] == a[1..] + a' && j[1..] == i[1..] + i';
    assert t[0] == s[0] && b[0] == a[0] && j[0] == i[0];
    assert SelectedShape(t, b) == [Count(s[0], a[0])] + SelectedShape(t[1..], b[1..]);
    assert j[0] < SelectedShape(t, b)[0];
  }

  // ----- joining along the first dimension -----

  predicate Joinable<T>(t: Tensor<T>, u: Tensor<T>) {
    t.shape != [] && u.shape != [] && t.shape[1..] == u.shape[1..]
  }

  function Join<T>(t: Tensor<T>, u: Tensor<T>): (r: Tensor<T>)
    requires t.Valid() && u.Valid() && Joinable(t, u)
    ensures r.Valid() && r.shape == [t.shape[0] + u.shape[0]] + t.shape[1..]
  {
    var n, m, p := t.shape[0], u.shape[0], Prod(t.shape[1..]);
    MulDistributes(n, m, p);
    var shape := [n + m] + t.shape[1..];
    assert shape[1..] == t.shape[1..];
    Tensor(shape, t.data + u.data)
  }

  /** The index, in the second of two joined tensors when it lies beyond the first. */
  function Moved(idx: Index, n: nat): (r: Index)
    requires idx != []
    ensures |r| == |idx|
  {
    if idx[0] < n then idx else [idx[0] - n] + idx[1..]
  }

  lemma JoinAt<T>(t: Tensor<T>, u: Tensor<T>, idx: Index)
    requires t.Valid() && u.Valid() && Joinable(t, u) && Within(idx, Join(t, u).shape)
    ensures var side := if idx[0] < t.shape[0] then t else u;
            Within(Moved(idx, t.shape[0]), side.shape) && At(Join(t, u), idx) == At(side, Moved(idx, t.shape[0]))
  {
    var n, p := t.shape[0], Prod(t.shape[1..]);
    assert Join(t, u).shape[1..] == t.shape[1..];
    var inner := Offset(t.shape[1..], idx[1..]);
    if idx[0] < n {
      RowMajorBound(idx[0], n, inner, p);
    } else {
      var moved := Moved(idx, n);
      assert moved[1..] == idx[1..];
      MulDistributes(idx[0] - n, n, p);
      assert Offset(Join(t, u).shape, idx) == |t.data| + Offset(u.shape, moved);
    }
  }

  /** `torch.cat` along dimension 0. */
  function Cat<T>(ts: seq<Tensor<T>>): (r: Option<Tensor<T>>)
    requires forall t :: t in ts ==> t.Valid()
    ensures r.Some? ==> r.value.Valid()
  {
    if ts == [] then None
    else if |ts| == 1 then (if ts[0].shape == [] then None else Some(ts[0]))
    else
      var rest := Cat(ts[1..]);
      if rest.None? || !Joinable(ts[0], rest.value) then None else Some(Join(ts[0], rest.value))
  }

  function Unsqueeze<T>(t: Tensor<T>): (r: Tensor<T>)
    requires t.Valid()
    ensures r.Valid() && r.shape == [1] + t.shape
  {
    var shape := [1] + t.shape;
    assert shape[1..] == t.shape;
    Tensor(shape, t.data)
  }

  lemma UnsqueezeAt<T>(t: Tensor<T>, idx: Index)
    requires t.Valid() && Within(idx, Unsqueeze(t).shape)
    ensures idx[0] == 0 && Within(idx[1..], t.shape) && At(Unsqueeze(t), idx) == At(t, idx[1..])
  {
    assert Unsqueeze(t).shape[1..] == t.shape;
  }

  /** `torch.stack` along a new dimension 0, of tensors of one shape. */
  function Stack<T>(ts: seq<Tensor<T>>): (r: Option<Tensor<T>>)
    requires forall t :: t in ts ==> t.Valid()
    ensures r.Some? ==> r.value.Valid()
  {
    Cat(seq(|ts|, i requires 0 <= i < |ts| => Unsqueeze(ts[i])))
  }

  ghost predicate Slices<T>(us: seq<Tensor<T>>) {
    us != [] && forall u :: u in us ==> u.Valid() && u.shape != [] && u.shape[0] == 1
  }

  lemma {:induction false} CatOfSlicesShape<T>(us: seq<Tensor<T>>, x: nat)
    requires Slices(us) && Cat(us).Some? && x < |us|
    ensures Cat(us).value.shape == [|us|] + us[0].shape[1..] && us[x].shape[1..] == us[0].shape[1..]
  {
    if |us| > 1 {
      CatOfSlicesShape(us[1..], if x == 0 then 0 else x - 1);
    }
  }

  /** Position `x` of a first tensor of one slice joined to others. */
  lemma JoinSliceAt<T>(u: Tensor<T>, rest: Tensor<T>, x: nat, idx: Index)
    requires u.Valid() && rest.Valid() && Joinable(u, rest) && u.shape[0] == 1
    requires x < 1 + rest.shape[0] && Within(idx, u.shape[1..])
    ensures Within([x] + idx, Join(u, rest).shape)
    ensures x == 0 ==> Within([0] + idx, u.shape) && At(Join(u, rest), [x] + idx) == At(u, [0] + idx)
    ensures x > 0 ==> Within([x - 1] + idx, rest.shape) && At(Join(u, rest), [x] + idx) == At(rest, [x - 1] + idx)
  {
    assert ([x] + idx)[1..] == idx;
    JoinAt(u, rest, [x] + idx);
    assert x == 0 ==> Moved([x] + idx, 1) == [0] + idx;
    assert x > 0 ==> Moved([x] + idx, 1) == [x - 1] + idx;
  }

  lemma {:induction false} CatOfSlicesAt<T>(us: seq<Tensor<T>>, x: nat, idx: Index)
    requires Slices(us) && Cat(us).Some? && x < |us| && Within(idx, us[0].shape[1..])
    ensures Cat(us).value.shape == [|us|] + us[0].shape[1..] && us[x].shape[1..] == us[0].shape[1..]
    ensures Within([x] + idx, Cat(us).value.shape) && Within([0] + idx, us[x].shape)
    ensures At(Cat(us).value, [x] + idx) == At(us[x], [0] + idx)
  {
    CatOfSlicesShape(us, x);
    if |us| > 1 {
      CatOfSlicesShape(us[1..], 0);
      JoinSliceAt(us[0], Cat(us[1..]).value, x, idx);
      if x > 0 {
        CatOfSlicesAt(us[1..], x - 1, idx);
      }
    }
  }

  /** Stacking puts tensor `x` at index `x` of the new first dimension. */
  lemma StackAt<T>(ts: seq<Tensor<T>>, x: nat, idx: Index)
    requires (forall t :: t in ts ==> t.Valid()) && Stack(ts).Some? && x < |ts| && Within(idx, ts[0].shape)
    ensures Stack(ts).value.shape == [|ts|] + ts[0].shape && ts[x].shape == ts[0].shape
    ensures Within([x] + idx, Stack(ts).value.shape) && At(Stack(ts).value, [x] + idx) == At(ts[x], idx)
  {
    var us := seq(|ts|, i requires 0 <= i < |ts| => Unsqueeze(ts[i]));
    assert us[0].shape[1..] == ts[0].shape;
    CatOfSlicesAt(us, x, idx);
    assert us[x].shape[1..] == ts[x].shape;
    UnsqueezeAt(ts[x], [0] + idx);
    assert ([0] + idx)[1..] == idx;
  }
}
