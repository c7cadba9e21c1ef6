/** What an index takes, in arithmetic alone: positions are counted from the end when negative, bounds of a slice are
    moved to the nearest that there is, and a slice stops before its upper bound. */
module IndexLaws {
  import opened Wrappers
  import opened Tensors

  // ----- one dimension -----

  /** The position that a bound of a slice stands for in a dimension of size `n`. */
  predicate BoundAt(bound: Option<int>, missing: nat, n: nat, pos: nat) {
    match bound
    case None => pos == missing
    case Some(x) =>
      && (0 <= x <= n ==> pos == x) && (x > n ==> pos == n)
      && (x < 0 <= n + x ==> pos == n + x) && (n + x < 0 ==> pos == 0)
  }

  /** Position `pos` of the dimension is position `i` of the slice. */
  ghost predicate SliceAt(sel: Sel, n: nat, i: nat, pos: nat) {
    && sel.Span? && sel.step > 0
    && exists lo: nat, hi: nat ::
         BoundAt(sel.start, 0, n, lo) && BoundAt(sel.stop, n, n, hi) && pos == lo + i * sel.step && pos < hi
  }

  predicate PickAt(sel: Sel, n: nat, pos: nat) {
    sel.Pick? && 0 <= n + sel.j && sel.j < n && pos == if sel.j < 0 then n + sel.j else sel.j
  }

  /** What an entry asks of its dimension. */
  predicate Acceptable(sel: Sel, n: nat) {
    if sel.Pick? then 0 <= n + sel.j && sel.j < n else sel.step > 0
  }

  lemma BoundsAre(sel: Sel, n: nat, lo: nat, hi: nat)
    requires sel.Span?
    ensures BoundAt(sel.start, 0, n, lo) <==> lo == Low(sel, n)
    ensures BoundAt(sel.stop, n, n, hi) <==> hi == High(sel, n)
  {
  }

  lemma UpToQuotient(i: nat, m: nat, step: nat)
    requires step > 0
    ensures i <= m / step <==> i * step <= m
  {
    DivMod(m, step);
    if i <= m / step {
      MulMonotone(i, m / step, step);
    } else {
      MulMonotone(m / step + 1, i, step);
      MulDistributes(m / step, 1, step);
    }
  }

  lemma SliceIs(sel: Sel, n: nat, i: nat, pos: nat)
    requires sel.Span? && SelOk(sel, n)
    ensures SliceAt(sel, n, i, pos) <==> i < Count(sel, n) && pos == SpanPos(sel, n, i)
  {
    var lo, hi := Low(sel, n), High(sel, n);
    BoundsAre(sel, n, lo, hi);
    if lo < hi {
      UpToQuotient(i, hi - lo - 1, sel.step);
    }
    if SliceAt(sel, n, i, pos) {
      var lo': nat, hi': nat :|
        BoundAt(sel.start, 0, n, lo') && BoundAt(sel.stop, n, n, hi') && pos == lo' + i * sel.step && pos < hi';
      BoundsAre(sel, n, lo', hi');
      MulMonotone(0, i, sel.step);
    }
  }

  // ----- all dimensions -----

  /** The element at `idx` of the result is the one at `src`: an integer takes a dimension away. */
  ghost predicate Points(sels: seq<Sel>, shape: Shape, idx: Index, src: Index)
    requires |sels| == |shape|
  {
    if sels == [] then idx == [] && src == []
    else
      && src != []
      && if sels[0].Pick? then PickAt(sels[0], shape[0], src[0]) && Points(sels[1..], shape[1..], idx, src[1..])
         else idx != [] && SliceAt(sels[0], shape[0], idx[0], src[0]) && Points(sels[1..], shape[1..], idx[1..], src[1..])
  }

  lemma {:induction false} PointsIff(sels: seq<Sel>, shape: Shape, idx: Index, src: Index)
    requires SelsOk(sels, shape)
    ensures Points(sels, shape, idx, src) <==> Within(idx, SelectedShape(sels, shape)) && src == Source(sels, shape, idx)
  {
    if sels != [] {
      var s, n, rest, tail := sels[0], shape[0], sels[1..], shape[1..];
      if s.Pick? {
        if src != [] {
          PointsIff(rest, tail, idx, src[1..]);
        }
        PickedPoints(sels, shape, idx, src);
      } else {
        if src != [] && idx != [] {
          PointsIff(rest, tail, idx[1..], src[1..]);
        }
        SlicedPoints(sels, shape, idx, src);
      }
    }
  }

  lemma {:induction false} PickedPoints(sels: seq<Sel>, shape: Shape, idx: Index, src: Index)
    requires SelsOk(sels, shape) && sels != [] && sels[0].Pick?
    requires src != [] ==> (Points(sels[1..], shape[1..], idx, src[1..]) <==>
               Within(idx, SelectedShape(sels[1..], shape[1..])) && src[1..] == Source(sels[1..], shape[1..], idx))
    ensures Points(sels, shape, idx, src) <==> Within(idx, SelectedShape(sels, shape)) && src == Source(sels, shape, idx)
  {
    if src != [] {
      assert src == [src[0]] + src[1..];
    }
  }

  lemma {:induction false} SlicedPoints(sels: seq<Sel>, shape: Shape, idx: Index, src: Index)
    requires SelsOk(sels, shape) && sels != [] && sels[0].Span?
    requires src != [] && idx != [] ==> (Points(sels[1..], shape[1..], idx[1..], src[1..]) <==>
               && Within(idx[1..], SelectedShape(sels[1..], shape[1..]))
               && src[1..] == Source(sels[1..], shape[1..], idx[1..]))
    ensures Points(sels, shape, idx, src) <==> Within(idx, SelectedShape(sels, shape)) && src == Source(sels, shape, idx)
  {
    var selected, rest := SelectedShape(sels, shape), SelectedShape(sels[1..], shape[1..]);
    assert selected[1..] == rest;
    if idx != [] && src != [] {
      SliceIs(sels[0], shape[0], idx[0], src[0]);
      assert src == [src[0]] + src[1..];
      WithinFromTail(idx, selected);
    }
  }

  lemma WithinFromTail(idx: Index, shape: Shape)
    requires idx != [] && shape != []
    ensures Within(idx, shape) <==> idx[0] < shape[0] && Within(idx[1..], shape[1..])
  {
    if Within(idx[1..], shape[1..]) {
      assert forall i :: 0 < i < |idx| ==> idx[i] == idx[1..][i - 1] && shape[i] == shape[1..][i - 1];
    }
  }

  /** The entries of an index for all dimensions: those that are missing take everything. */
  function AllEntries(sels: seq<Sel>, n: nat): (r: seq<Sel>)
    requires |sels| <= n
    ensures |r| == n
  {
    sels + seq(n - |sels|, _ => Span(None, None, 1))
  }

  lemma PaddedOkIff(sels: seq<Sel>, shape: Shape)
    requires |sels| <= |shape|
    ensures SelsOk(sels + Wholes(|shape| - |sels|), shape) <==>
            forall i :: 0 <= i < |sels| ==> Acceptable(sels[i], shape[i])
  {
    var all := sels + Wholes(|shape| - |sels|);
    if SelsOk(all, shape) {
      forall i | 0 <= i < |sels| ensures Acceptable(sels[i], shape[i]) {
        assert all[i] == sels[i] && SelOk(all[i], shape[i]);
      }
    }
  }

  /** What is accepted. */
  lemma AcceptedIff<T>(t: Tensor<T>, sels: seq<Sel>)
    requires t.Valid()
    ensures GetItem(t, sels).Some? <==>
            |sels| <= |t.shape| && forall i :: 0 <= i < |sels| ==> Acceptable(sels[i], t.shape[i])
  {
    if |sels| <= |t.shape| {
      PaddedOkIff(sels, t.shape);
    }
  }

  /** What it takes: the positions of the result are those that point at an element, and hold it. */
  lemma ItemAt<T>(t: Tensor<T>, sels: seq<Sel>, idx: Index, src: Index)
    requires t.Valid() && GetItem(t, sels).Some? && |sels| <= |t.shape|
    ensures var r, all := GetItem(t, sels).value, AllEntries(sels, |t.shape|);
            && (Points(all, t.shape, idx, src) ==> Within(idx, r.shape) && Within(src, t.shape) && At(r, idx) == At(t, src))
            && (Within(idx, r.shape) ==> exists from :: Points(all, t.shape, idx, from))
  {
    var all := AllEntries(sels, |t.shape|);
    assert all == sels + Wholes(|t.shape| - |sels|);
    PointsIff(all, t.shape, idx, src);
    if Within(idx, SelectedShape(all, t.shape)) {
      PointsIff(all, t.shape, idx, Source(all, t.shape, idx));
      SelectAt(t, all, idx);
    }
  }

  // ----- a slice of the first dimension -----

  lemma {:induction false} WholePoints(shape: Shape, idx: Index)
    ensures Points(AllEntries([], |shape|), shape, idx, idx) <==> Within(idx, shape)
  {
    var all := AllEntries([], |shape|);
    assert all == Wholes(|shape|);
    WholesSelectAll(shape);
    PointsIff(all, shape, idx, idx);
  }

  lemma FirstEntry(sel: Sel, n: nat)
    requires n > 0
    ensures AllEntries([sel], n) == [sel] + Wholes(n - 1) && AllEntries([sel], n)[1..] == AllEntries([], n - 1)
  {
    assert Wholes(n - 1) == AllEntries([], n - 1);
  }

  lemma FirstShape<T>(t: Tensor<T>, sel: Sel) returns (r: Tensor<T>)
    requires t.Valid() && t.shape != [] && sel.Span? && SelOk(sel, t.shape[0])
    ensures GetItem(t, [sel]) == Some(r) && r.Valid() && r.shape == [Count(sel, t.shape[0])] + t.shape[1..]
  {
    var all := [sel] + Wholes(|t.shape| - 1);
    assert all[1..] == Wholes(|t.shape[1..]|);
    WholesSelectAll(t.shape[1..]);
    r := GetItem(t, [sel]).value;
  }

  lemma FirstPoints(sel: Sel, shape: Shape, i: nat, pos: nat, rest: Index)
    requires shape != [] && sel.Span? && SliceAt(sel, shape[0], i, pos) && Within(rest, shape[1..])
    ensures Points(AllEntries([sel], |shape|), shape, [i] + rest, [pos] + rest)
  {
    FirstEntry(sel, |shape|);
    WholePoints(shape[1..], rest);
    assert ([i] + rest)[1..] == rest && ([pos] + rest)[1..] == rest;
  }

  lemma BoundedSlice(lo: nat, hi: nat, step: nat, n: nat, i: nat, pos: nat)
    requires lo <= hi <= n && step > 0 && pos == lo + i * step
    ensures var sel := Span(Some(lo), Some(hi), step);
            (i < Count(sel, n) <==> pos < hi) && (pos < hi ==> SliceAt(sel, n, i, pos))
  {
    var sel := Span(Some(lo), Some(hi), step);
    SliceIs(sel, n, i, pos);
    assert BoundAt(sel.start, 0, n, lo) && BoundAt(sel.stop, n, n, hi);
    if i < Count(sel, n) {
      SliceIs(sel, n, i, SpanPos(sel, n, i));
    }
  }

  lemma SliceElement<T>(t: Tensor<T>, sel: Sel, i: nat, pos: nat, rest: Index, r: Tensor<T>)
    requires t.Valid() && t.shape != [] && sel.Span? && GetItem(t, [sel]) == Some(r) && r.Valid()
    requires SliceAt(sel, t.shape[0], i, pos) && Within(rest, t.shape[1..])
    ensures Within([i] + rest, r.shape) && Within([pos] + rest, t.shape) && At(r, [i] + rest) == At(t, [pos] + rest)
  {
    FirstPoints(sel, t.shape, i, pos, rest);
    ItemAt(t, [sel], [i] + rest, [pos] + rest);
  }

  /** `t[lo:hi:step]` with bounds that there are holds every `step`-th part of `t` from `lo` up to but not including
      `hi`, in order: part `i` of it is part `pos` of `t`. */
  lemma SliceOfFirst<T>(t: Tensor<T>, lo: nat, hi: nat, step: nat, i: nat, pos: nat, rest: Index) returns (r: Tensor<T>)
    requires t.Valid() && t.shape != [] && lo <= hi <= t.shape[0] && step > 0 && pos == lo + i * step
    ensures GetItem(t, [Span(Some(lo), Some(hi), step)]) == Some(r)
    ensures r.Valid() && r.shape != [] && r.shape[1..] == t.shape[1..] && (i < r.shape[0] <==> pos < hi)
    ensures Within(rest, t.shape[1..]) && pos < hi ==>
              Within([i] + rest, r.shape) && Within([pos] + rest, t.shape) && At(r, [i] + rest) == At(t, [pos] + rest)
  {
    BoundedSlice(lo, hi, step, t.shape[0], i, pos);
    r := SliceHolds(t, Span(Some(lo), Some(hi), step), hi, i, pos, rest);
  }

  lemma SliceHolds<T>(t: Tensor<T>, sel: Sel, hi: nat, i: nat, pos: nat, rest: Index) returns (r: Tensor<T>)
    requires t.Valid() && t.shape != [] && sel.Span? && SelOk(sel, t.shape[0])
    requires (i < Count(sel, t.shape[0]) <==> pos < hi) && (pos < hi ==> SliceAt(sel, t.shape[0], i, pos))
    ensures GetItem(t, [sel]) == Some(r)
    ensures r.Valid() && r.shape != [] && r.shape[1..] == t.shape[1..] && (i < r.shape[0] <==> pos < hi)
    ensures Within(rest, t.shape[1..]) && pos < hi ==>
              Within([i] + rest, r.shape) && Within([pos] + rest, t.shape) && At(r, [i] + rest) == At(t, [pos] + rest)
  {
    r := FirstShape(t, sel);
    if Within(rest, t.shape[1..]) && pos < hi {
      SliceElement(t, sel, i, pos, rest, r);
    }
  }
}
