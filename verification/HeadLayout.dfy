/** Reordering the rows of attention weights head by head
    (llama.cpp/convert_hf_to_gguf.py, LlamaModel.permute). */
module HeadLayout {
  import opened Wrappers
  import opened Tensors

  // ----- the operation -----

  /** Dimensions 1 and 2 exchanged. */
  function MiddleSwap(n: nat): (r: seq<nat>)
    requires n >= 3
    ensures |r| == n && r[0] == 0 && r[1] == 2 && r[2] == 1 && forall i :: 3 <= i < n ==> r[i] == i
    ensures Permutation(r, n)
  {
    var r := seq(n, i requires 0 <= i < n => if i == 1 then 2 else if i == 2 then 1 else i);
    assert forall d :: 0 <= d < n ==> d in r by {
      forall d | 0 <= d < n ensures d in r {
        assert r[if d == 1 then 2 else if d == 2 then 1 else d] == d;
      }
    }
    r
  }

  /** `t.reshape(a, b, c, *t.shape[1:]).swapaxes(1, 2).reshape(t.shape)`. */
  function SwapReshaped<T>(t: Tensor<T>, a: nat, b: nat, c: nat): (r: Option<Tensor<T>>)
    requires t.Valid() && t.shape != []
    ensures r.Some? ==> r.value.Valid() && r.value.shape == t.shape
  {
    var split := Reshape(t, [a, b, c] + t.shape[1..]);
    if split.None? then None
    else Reshape(Permute(split.value, MiddleSwap(|t.shape| + 2)), t.shape)
  }

  /** The number of heads that counts: that of the keys and values when it is given and differs. */
  function Heads(nHead: nat, nHeadKv: Option<nat>): (r: nat)
    ensures r == if nHeadKv.None? then nHead else nHeadKv.value
  {
    if nHeadKv.Some? && nHead != nHeadKv.value then nHeadKv.value else nHead
  }

  /** `LlamaModel.permute`; `None` stands for a division by zero or a shape that torch refuses. */
  function PermuteHeads<T>(weights: Tensor<T>, nHead: nat, nHeadKv: Option<nat>): (r: Option<Tensor<T>>)
    requires weights.Valid() && weights.shape != []
    ensures r.Some? ==> r.value.Valid() && r.value.shape == weights.shape
  {
    var h := Heads(nHead, nHeadKv);
    if h == 0 then None else SwapReshaped(weights, h, 2, weights.shape[0] / h / 2)
  }

  // ----- where a row goes -----

  /** The row of the split tensor at group `x`, part `y`, offset `z`. */
  function Row3(b: nat, c: nat, x: nat, y: nat, z: nat): nat {
    (x * b + y) * c + z
  }

  lemma Row3Bound(a: nat, b: nat, c: nat, x: nat, y: nat, z: nat)
    requires x < a && y < b && z < c
    ensures Row3(b, c, x, y, z) < a * b * c
  {
    RowMajorBound(x, a, y, b);
    RowMajorBound(x * b + y, a * b, z, c);
  }

  lemma Offset3(a: nat, b: nat, c: nat, x: nat, y: nat, z: nat)
    requires x < a && y < b && z < c
    ensures Within([x, y, z], [a, b, c]) && Offset([a, b, c], [x, y, z]) == Row3(b, c, x, y, z)
    ensures Prod([a, b, c]) == a * b * c
  {
    Prod3(a, b, c);
    assert [a, b, c][1..] == [b, c] && [x, y, z][1..] == [y, z];
    assert [b, c][1..] == [c] && [y, z][1..] == [z];
    assert [c][1..] == [] && [z][1..] == [];
    assert Offset([c], [z]) == z * Prod([]) + Offset([], []) == z;
    assert Offset([b, c], [y, z]) == y * c + z by { assert Prod([c]) == c * Prod([]); }
    assert Prod([b, c]) == b * c by { assert Prod([c]) == c * Prod([]); }
    MulAssociates(x, b, c);
    MulDistributes(x * b, y, c);
  }

  lemma Prod3(a: nat, b: nat, c: nat)
    ensures Prod([a, b, c]) == a * b * c
  {
    assert [a, b, c][1..] == [b, c] && [b, c][1..] == [c] && [c][1..] == [];
    assert Prod([c]) == c * Prod([]);
    assert Prod([b, c]) == b * c;
    MulAssociates(a, b, c);
  }

  /** An element of a tensor whose first dimension was split in three. */
  lemma SplitAt<T>(t: Tensor<T>, u: Tensor<T>, a: nat, b: nat, c: nat, tail: Shape,
                   x: nat, y: nat, z: nat, rest: Index)
    requires t.Valid() && u.Valid() && t.data == u.data
    requires t.shape == [a * b * c] + tail && u.shape == [a, b, c] + tail
    requires x < a && y < b && z < c && Within(rest, tail)
    ensures Within([x, y, z] + rest, u.shape) && Within([Row3(b, c, x, y, z)] + rest, t.shape)
    ensures At(u, [x, y, z] + rest) == At(t, [Row3(b, c, x, y, z)] + rest)
  {
    Row3Bound(a, b, c, x, y, z);
    Offset3(a, b, c, x, y, z);
    OffsetOfConcat([a, b, c], tail, [x, y, z], rest);
    var row := Row3(b, c, x, y, z);
    assert ([a * b * c] + tail)[1..] == tail && ([row] + rest)[1..] == rest;
  }

  lemma MiddleSwapAt(x: nat, y: nat, z: nat, rest: Index)
    ensures Unpermuted([x, y, z] + rest, MiddleSwap(|rest| + 3)) == [x, z, y] + rest
  {
    var idx := [x, y, z] + rest;
    var dims := MiddleSwap(|idx|);
    forall d | 0 <= d < |idx|
      ensures Unpermuted(idx, dims)[d] == ([x, z, y] + rest)[d]
    {
      assert Position(dims, d) == if d == 1 then 2 else if d == 2 then 1 else d;
    }
  }

  lemma MiddleSwapShape(a: nat, b: nat, c: nat, tail: Shape)
    ensures PermutedShape([a, b, c] + tail, MiddleSwap(|tail| + 3)) == [a, c, b] + tail
  {
  }

  lemma RowsOfSplit(n: nat, m: nat, tail: Shape)
    requires n * Prod(tail) == m * Prod(tail) && Prod(tail) > 0
    ensures n == m
  {
    if n < m {
      MulMonotone(n + 1, m, Prod(tail));
      MulDistributes(n, 1, Prod(tail));
    } else if m < n {
      MulMonotone(m + 1, n, Prod(tail));
      MulDistributes(m, 1, Prod(tail));
    }
  }

  /** The split and swapped tensor, before it is flattened again. */
  lemma SwapReshapedParts<T>(t: Tensor<T>, a: nat, b: nat, c: nat) returns (u: Tensor<T>, v: Tensor<T>)
    requires t.Valid() && t.shape != [] && t.shape[0] == a * b * c
    ensures SwapReshaped(t, a, b, c).Some?
    ensures u.Valid() && u.shape == [a, b, c] + t.shape[1..] && u.data == t.data
    ensures v == Permute(u, MiddleSwap(|t.shape| + 2)) && v.shape == [a, c, b] + t.shape[1..]
    ensures SwapReshaped(t, a, b, c).value == Tensor(t.shape, v.data)
  {
    var tail := t.shape[1..];
    Prod3(a, b, c);
    Prod3(a, c, b);
    ProdOfConcat([a, b, c], tail);
    ProdOfConcat([a, c, b], tail);
    u := Tensor([a, b, c] + tail, t.data);
    MiddleSwapShape(a, b, c, tail);
    v := Permute(u, MiddleSwap(|t.shape| + 2));
    assert a * c * b == a * b * c by {
      MulAssociates(a, c, b);
      MulAssociates(a, b, c);
    }
  }

  /** Row `Row3(c, b, x, z, y)` of the result is row `Row3(b, c, x, y, z)` of the source, all columns alike. */
  lemma SwapReshapedAt<T>(t: Tensor<T>, a: nat, b: nat, c: nat, x: nat, y: nat, z: nat, rest: Index)
    requires t.Valid() && t.shape != [] && t.shape[0] == a * b * c
    requires x < a && y < b && z < c && Within(rest, t.shape[1..])
    ensures SwapReshaped(t, a, b, c).Some?
    ensures Within([Row3(c, b, x, z, y)] + rest, t.shape) && Within([Row3(b, c, x, y, z)] + rest, t.shape)
    ensures At(SwapReshaped(t, a, b, c).value, [Row3(c, b, x, z, y)] + rest) == At(t, [Row3(b, c, x, y, z)] + rest)
  {
    var tail := t.shape[1..];
    var u, v := SwapReshapedParts(t, a, b, c);
    var r := SwapReshaped(t, a, b, c).value;
    assert t.shape == [a * b * c] + tail;
    SplitAt(t, u, a, b, c, tail, x, y, z, rest);
    assert a * c * b == a * b * c by {
      MulAssociates(a, c, b);
      MulAssociates(a, b, c);
    }
    SplitAt(r, v, a, c, b, tail, x, z, y, rest);
    MiddleSwapAt(x, z, y, rest);
    PermuteAt(u, MiddleSwap(|t.shape| + 2), [x, z, y] + rest);
  }

  /** Group, part and offset of a row, and back. */
  lemma Row3Parts(b: nat, c: nat, x: nat, y: nat, z: nat)
    requires y < b && z < c
    ensures var row := Row3(b, c, x, y, z); row / c / b == x && row / c % b == y && row % c == z
  {
    QuotientIs(Row3(b, c, x, y, z), x * b + y, z, c);
    QuotientIs(x * b + y, x, y, b);
  }

  lemma Row3Of(a: nat, b: nat, c: nat, row: nat) returns (x: nat, y: nat, z: nat)
    requires row < a * b * c
    ensures x < a && y < b && z < c && row == Row3(b, c, x, y, z)
  {
    DivBound(row, a * b, c);
    DivBound(row / c, a, b);
    x, y, z := row / c / b, row / c % b, row % c;
  }

  /** Splitting the other way round undoes the reordering. */
  lemma SwapReshapedBack<T>(t: Tensor<T>, a: nat, b: nat, c: nat)
    requires t.Valid() && t.shape != [] && t.shape[0] == a * b * c
    ensures SwapReshaped(t, a, b, c).Some?
    ensures SwapReshaped(SwapReshaped(t, a, b, c).value, a, c, b) == Some(t)
  {
    var _, _ := SwapReshapedParts(t, a, b, c);
    var there := SwapReshaped(t, a, b, c).value;
    assert a * c * b == a * b * c by {
      MulAssociates(a, c, b);
      MulAssociates(a, b, c);
    }
    var _, _ := SwapReshapedParts(there, a, c, b);
    var back := SwapReshaped(there, a, c, b).value;
    forall idx | Within(idx, t.shape)
      ensures At(back, idx) == At(t, idx)
    {
      var x, y, z := Row3Of(a, b, c, idx[0]);
      var rest := idx[1..];
      assert idx == [Row3(b, c, x, y, z)] + rest && Within(rest, t.shape[1..]);
      SwapReshapedAt(t, a, b, c, x, y, z, rest);
      SwapReshapedAt(there, a, c, b, x, z, y, rest);
    }
    SameElements(back, t);
  }

  // ----- heads -----

  /** The row of the source that ends up in row `i`, when a head has two halves of `half` rows. */
  function SourceRow(half: nat, i: nat): nat
    requires half > 0
  {
    Row3(2, half, i / 2 / half, i % 2, i / 2 % half)
  }

  function TargetRow(half: nat, i: nat): nat
    requires half > 0
  {
    Row3(half, 2, i / half / 2, i % half, i / half % 2)
  }

  /** Rows are reordered one to one, each inside its own head: the halves are interleaved. */
  lemma RowsPermuteWithinHeads(h: nat, half: nat, i: nat)
    requires half > 0 && i < h * 2 * half
    ensures SourceRow(half, i) < h * 2 * half && TargetRow(half, i) < h * 2 * half
    ensures TargetRow(half, SourceRow(half, i)) == i && SourceRow(half, TargetRow(half, i)) == i
    ensures SourceRow(half, i) / half / 2 == i / 2 / half
    ensures SourceRow(half, i) == i / 2 / half * 2 * half + i % 2 * half + i / 2 % half
  {
    assert h * half * 2 == h * 2 * half by {
      MulAssociates(h, half, 2);
      MulAssociates(h, 2, half);
    }
    var x, z, y := Row3Of(h, half, 2, i);
    Row3Parts(half, 2, x, z, y);
    Row3Parts(2, half, x, y, z);
    Row3Bound(h, 2, half, x, y, z);
    var x', y', z' := Row3Of(h, 2, half, i);
    Row3Parts(2, half, x', y', z');
    Row3Parts(half, 2, x', z', y');
    Row3Bound(h, half, 2, x', z', y');
    MulDistributes(x * 2, y, half);
  }

  /** `LlamaModel.permute` is accepted exactly when every head has two halves of whole rows. */
  lemma PermuteHeadsAccepted<T>(weights: Tensor<T>, nHead: nat, nHeadKv: Option<nat>)
    requires weights.Valid() && weights.shape != [] && Prod(weights.shape[1..]) > 0
    ensures var h, rows := Heads(nHead, nHeadKv), weights.shape[0];
            PermuteHeads(weights, nHead, nHeadKv).Some? <==> h > 0 && rows == h * 2 * (rows / h / 2)
  {
    var h, rows, tail := Heads(nHead, nHeadKv), weights.shape[0], weights.shape[1..];
    if h > 0 {
      var half := rows / h / 2;
      Prod3(h, 2, half);
      ProdOfConcat([h, 2, half], tail);
      if Reshape(weights, [h, 2, half] + tail).Some? {
        RowsOfSplit(h * 2 * half, rows, tail);
      }
      if rows == h * 2 * half {
        var _, _ := SwapReshapedParts(weights, h, 2, half);
      }
    }
  }

  lemma HalfIs(h: nat, half: nat, rows: nat)
    requires h > 0 && rows == h * 2 * half
    ensures rows / h / 2 == half
  {
    MulAssociates(h, 2, half);
    QuotientIs(rows, 2 * half, 0, h);
  }

  /** The same about the three steps alone. */
  lemma SwappedRow<T>(weights: Tensor<T>, h: nat, half: nat, rows: nat, i: nat, rest: Index)
    requires weights.Valid() && weights.shape != [] && weights.shape[0] == rows == h * 2 * half
    requires i < rows && Within(rest, weights.shape[1..])
    ensures h > 0 && half > 0 && SwapReshaped(weights, h, 2, half).Some?
    ensures Within([SourceRow(half, i)] + rest, weights.shape) && Within([i] + rest, weights.shape)
    ensures At(SwapReshaped(weights, h, 2, half).value, [i] + rest) == At(weights, [SourceRow(half, i)] + rest)
  {
    assert h > 0 && half > 0 by {
      DivBound(i, h * 2, half);
    }
    assert h * half * 2 == rows by {
      MulAssociates(h, half, 2);
      MulAssociates(h, 2, half);
    }
    var x, z, y := Row3Of(h, half, 2, i);
    Row3Parts(half, 2, x, z, y);
    SwapReshapedAt(weights, h, 2, half, x, y, z, rest);
  }

  /** Row `i` of the result of `LlamaModel.permute` is row `SourceRow(half, i)` of the weights, whatever the other
      dimensions. */
  lemma PermutedHeadRow<T>(weights: Tensor<T>, nHead: nat, nHeadKv: Option<nat>, half: nat, rows: nat,
                           i: nat, rest: Index) returns (r: Tensor<T>)
    requires weights.Valid() && weights.shape != [] && weights.shape[0] == rows == Heads(nHead, nHeadKv) * 2 * half
    requires i < rows && Within(rest, weights.shape[1..])
    ensures half > 0 && PermuteHeads(weights, nHead, nHeadKv) == Some(r) && r.Valid() && r.shape == weights.shape
    ensures Within([SourceRow(half, i)] + rest, weights.shape) && Within([i] + rest, weights.shape)
    ensures At(r, [i] + rest) == At(weights, [SourceRow(half, i)] + rest)
  {
    var h := Heads(nHead, nHeadKv);
    SwappedRow(weights, h, half, rows, i, rest);
    HalfIs(h, half, rows);
    r := SwapReshaped(weights, h, 2, half).value;
  }
}
