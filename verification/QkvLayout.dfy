/** Taking fused query, key and value rows apart
    (llama.cpp/convert_hf_to_gguf.py, modify_tensors of the GPT-NeoX, BLOOM and Falcon models). */
module QkvLayout {
  import opened Wrappers
  import opened Tensors
  import opened HeadLayout

  // ----- the operations -----

  /** Which parts of every head group are taken, and how many rows they are flattened to; `None` is torch's -1. */
  datatype Piece = Piece(sel: Sel, rows: Option<nat>)

  /** `split[:, sel].reshape(rows, *tail)` of a tensor of shape [groups, parts, offsets] + tail. */
  function Taken<T>(split: Tensor<T>, piece: Piece, tail: Shape): (r: Option<Tensor<T>>)
    requires split.Valid()
    ensures r.Some? ==> r.value.Valid()
  {
    var part := GetItem(split, [WHOLE, piece.sel]);
    if part.None? then None
    else if piece.rows.Some? then Reshape(part.value, [piece.rows.value] + tail)
    else if Prod(tail) == 0 then None
    else Reshape(part.value, [|part.value.data| / Prod(tail)] + tail)
  }

  function Regroup<T>(t: Tensor<T>, a: nat, b: nat, c: nat, tail: Shape, q: Piece, k: Piece, v: Piece):
      (r: Option<Tensor<T>>)
    requires t.Valid()
    ensures r.Some? ==> r.value.Valid()
  {
    var split := Reshape(t, [a, b, c] + tail);
    if split.None? then None
    else
      var q', k', v' := Taken(split.value, q, tail), Taken(split.value, k, tail), Taken(split.value, v, tail);
      if q'.None? || k'.None? || v'.None? then None else Cat([q'.value, k'.value, v'.value])
  }

  /** The weights of GPT-NeoX and BLOOM. */
  function SplitWeights<T>(t: Tensor<T>, nHead: nat, nEmbed: nat): (r: Option<Tensor<T>>)
    requires t.Valid()
    ensures r.Some? ==> r.value.Valid()
  {
    if nHead == 0 then None
    else Regroup(t, nHead, 3, nEmbed / nHead, [nEmbed], Piece(Pick(0), None), Piece(Pick(1), None), Piece(Pick(2), None))
  }

  /** The bias of GPT-NeoX and BLOOM. */
  function SplitBias<T>(t: Tensor<T>, nHead: nat, nEmbed: nat): (r: Option<Tensor<T>>)
    requires t.Valid()
    ensures r.Some? ==> r.value.Valid()
  {
    if nHead == 0 then None
    else Regroup(t, nHead, 3, nEmbed / nHead, [], Piece(Pick(0), Some(nEmbed)), Piece(Pick(1), Some(nEmbed)),
                 Piece(Pick(2), Some(nEmbed)))
  }

  const ALL_BUT_TWO := Span(None, Some(-2), 1)
  const LAST_BUT_ONE := Span(Some(-2), Some(-1), 1)
  const LAST := Span(Some(-1), None, 1)

  /** Falcon, where a group holds several query heads and one key and one value head. The index lists [-2] and [-1]
      keep the dimension, as the slices of one position do. */
  function SplitFalcon<T>(t: Tensor<T>, nHead: nat, nHeadKv: nat, hidden: nat): (r: Option<Tensor<T>>)
    requires t.Valid()
    ensures r.Some? ==> r.value.Valid() && r.value.shape == t.shape
  {
    if nHead == 0 || nHeadKv == 0 then None
    else
      var dim := hidden / nHead;
      var joined := Regroup(t, nHeadKv, nHead / nHeadKv + 2, dim, [dim * nHead],
                            Piece(ALL_BUT_TWO, Some(nHead * dim)), Piece(LAST_BUT_ONE, Some(nHeadKv * dim)),
                            Piece(LAST, Some(nHeadKv * dim)));
      if joined.None? then None else Reshape(joined.value, t.shape)
  }

  // ----- where a row goes -----

  /** Part `y` of a group of `b` belongs to the queries, or is the key, or is the value. */
  datatype Role = Query | Key | Value

  function RoleOf(b: nat, y: nat): Role
    requires y < b
  {
    if y == b - 1 then Value else if y == b - 2 then Key else Query
  }

  function Of<T>(role: Role, q: T, k: T, v: T): T {
    match role case Query => q case Key => k case Value => v
  }

  /** The first part of a role in every group, and the number of its parts. */
  function FirstPart(b: nat, role: Role): nat
    requires b >= 2
  {
    match role case Query => 0 case Key => b - 2 case Value => b - 1
  }

  function Parts(b: nat, role: Role): nat
    requires b >= 2
  {
    match role case Query => b - 2 case Key => 1 case Value => 1
  }

  /** The row of the result where the source row of group `x`, part `y` and offset `z` ends up. */
  function TargetRow(a: nat, b: nat, c: nat, x: nat, y: nat, z: nat): nat
    requires y < b && b >= 2
  {
    var role := RoleOf(b, y);
    a * FirstPart(b, role) * c + Row3(Parts(b, role), c, x, y - FirstPart(b, role), z)
  }

  function Target(a: nat, b: nat, c: nat, row: nat): nat
    requires b >= 2 && c > 0
  {
    TargetRow(a, b, c, row / c / b, row / c % b, row % c)
  }

  lemma RoleRange(a: nat, b: nat, c: nat, x: nat, y: nat, z: nat)
    requires b >= 2 && x < a && y < b && z < c
    ensures var role := RoleOf(b, y); var lo, n := FirstPart(b, role), Parts(b, role);
            && lo <= y < lo + n
            && a * lo * c <= TargetRow(a, b, c, x, y, z) < a * (lo + n) * c
            && a * (lo + n) * c == a * lo * c + a * n * c
  {
    var role := RoleOf(b, y);
    var lo, n := FirstPart(b, role), Parts(b, role);
    Row3Bound(a, n, c, x, y - lo, z);
    BlockSum(a, lo, n, c);
  }

  lemma BlockSum(a: nat, m: nat, n: nat, c: nat)
    ensures a * (m + n) * c == a * m * c + a * n * c
  {
    assert a * (m + n) == a * m + a * n;
    MulDistributes(a * m, a * n, c);
  }

  lemma BlockMonotone(a: nat, m: nat, n: nat, c: nat)
    requires m <= n
    ensures a * m * c <= a * n * c
  {
    BlockSum(a, m, n - m, c);
  }

  /** The queries of all groups come first, then the keys, then the values, and within a role the order is kept. */
  lemma TargetsAreOrdered(a: nat, b: nat, c: nat, i: nat, j: nat)
    requires b >= 2 && i < a * b * c && j < a * b * c
    ensures c > 0 && Target(a, b, c, i) < a * b * c
    ensures var p, q := RoleOf(b, i / c % b), RoleOf(b, j / c % b);
            var first, second := FirstPart(b, p), FirstPart(b, q);
            first < second || (p == q && i < j) ==> Target(a, b, c, i) < Target(a, b, c, j)
  {
    DivBound(i, a * b, c);
    var x, y, z := Row3Of(a, b, c, i);
    Row3Parts(b, c, x, y, z);
    var x', y', z' := Row3Of(a, b, c, j);
    Row3Parts(b, c, x', y', z');
    RoleRange(a, b, c, x, y, z);
    RoleRange(a, b, c, x', y', z');
    var p, q := RoleOf(b, y), RoleOf(b, y');
    var lo, n, lo' := FirstPart(b, p), Parts(b, p), FirstPart(b, q);
    BlockMonotone(a, lo + n, b, c);
    if lo < lo' {
      BlockMonotone(a, lo + n, lo', c);
    } else if p == q && i < j {
      Row3Order(b, c, x, y, z, x', y', z');
      Row3Monotone(n, c, x, y - lo, z, x', y' - lo, z');
    }
  }

  predicate Before(x: nat, y: nat, z: nat, x': nat, y': nat, z': nat) {
    x < x' || (x == x' && (y < y' || (y == y' && z < z')))
  }

  lemma Row3Monotone(b: nat, c: nat, x: nat, y: nat, z: nat, x': nat, y': nat, z': nat)
    requires y < b && z < c && y' < b && z' < c && Before(x, y, z, x', y', z')
    ensures Row3(b, c, x, y, z) < Row3(b, c, x', y', z')
  {
    if x < x' {
      RowMajorBound(x, x', y, b);
    }
    if x * b + y < x' * b + y' {
      RowMajorBound(x * b + y, x' * b + y', z, c);
    }
  }

  lemma Row3Order(b: nat, c: nat, x: nat, y: nat, z: nat, x': nat, y': nat, z': nat)
    requires y < b && z < c && y' < b && z' < c && Row3(b, c, x, y, z) < Row3(b, c, x', y', z')
    ensures Before(x, y, z, x', y', z')
  {
    if !Before(x, y, z, x', y', z') && (x, y, z) != (x', y', z') {
      Row3Monotone(b, c, x', y', z', x, y, z);
    }
  }

  /** No two source rows end up in the same row; with as many rows before as after, every row is taken once. */
  lemma TargetsAreDistinct(a: nat, b: nat, c: nat, i: nat, j: nat)
    requires b >= 2 && i < a * b * c && j < a * b * c && i != j
    ensures c > 0 && Target(a, b, c, i) != Target(a, b, c, j)
  {
    TargetsAreOrdered(a, b, c, i, j);
    TargetsAreOrdered(a, b, c, j, i);
  }

  /** The source of a row of the result. */
  lemma SourceExists(a: nat, b: nat, c: nat, row: nat) returns (i: nat)
    requires b >= 2 && row < a * b * c
    ensures c > 0 && i < a * b * c && Target(a, b, c, i) == row
  {
    DivBound(row, a * b, c);
    BlockSum(a, b - 2, 1, c);
    BlockSum(a, b - 1, 1, c);
    var role := if row < a * (b - 2) * c then Query else if row < a * (b - 1) * c then Key else Value;
    var lo, n := FirstPart(b, role), Parts(b, role);
    BlockSum(a, 0, b - 2, c);
    var x, y, z := Row3Of(a, n, c, row - a * lo * c);
    i := Row3(b, c, x, lo + y, z);
    Row3Bound(a, b, c, x, lo + y, z);
    Row3Parts(b, c, x, lo + y, z);
  }

  // ----- the operations put rows there -----

  /** A selector of the parts `lo` to `lo + n` of every group. */
  predicate Takes(sel: Sel, b: nat, lo: nat, n: nat) {
    && SelOk(sel, b) && lo + n <= b
    && if sel.Pick? then PickPos(sel, b) == lo && n == 1
       else sel.step == 1 && Low(sel, b) == lo && High(sel, b) == lo + n
  }

  lemma SliceTakes(sel: Sel, b: nat, lo: nat, n: nat, y: nat)
    requires Takes(sel, b, lo, n) && sel.Span?
    ensures Count(sel, b) == n && (y < n ==> SpanPos(sel, b, y) == lo + y)
  {
  }

  lemma TakesSlices(b: nat)
    requires b >= 2
    ensures Takes(ALL_BUT_TWO, b, 0, b - 2) && Takes(LAST_BUT_ONE, b, b - 2, 1) && Takes(LAST, b, b - 1, 1)
  {
  }

  lemma WholeOf(n: nat)
    ensures SelOk(WHOLE, n) && Count(WHOLE, n) == n && forall i :: 0 <= i < n ==> SpanPos(WHOLE, n, i) == i
  {
  }

  /** The first two dimensions after the selection, and an index into them. */
  function Left(sel: Sel, a: nat, n: nat): Shape {
    if sel.Pick? then [a] else [a, n]
  }

  function LeftIndex(sel: Sel, x: nat, y: nat): Index {
    if sel.Pick? then [x] else [x, y]
  }

  lemma LeftSelected(sel: Sel, a: nat, b: nat, lo: nat, n: nat)
    requires Takes(sel, b, lo, n)
    ensures SelsOk([WHOLE, sel], [a, b]) && SelectedShape([WHOLE, sel], [a, b]) == Left(sel, a, n)
  {
    WholeOf(a);
    if sel.Span? {
      SliceTakes(sel, b, lo, n, 0);
    }
    assert [WHOLE, sel][1..] == [sel] && [a, b][1..] == [b];
    assert [sel][1..] == [] && [b][1..] == [];
    assert SelectedShape([], []) == [];
    assert SelectedShape([sel], [b]) == if sel.Pick? then [] else [n];
  }

  lemma LeftSource(sel: Sel, a: nat, b: nat, lo: nat, n: nat, x: nat, y: nat)
    requires Takes(sel, b, lo, n) && x < a && y < n
    ensures SelsOk([WHOLE, sel], [a, b]) && Within(LeftIndex(sel, x, y), SelectedShape([WHOLE, sel], [a, b]))
    ensures Source([WHOLE, sel], [a, b], LeftIndex(sel, x, y)) == [x, lo + y]
  {
    LeftSelected(sel, a, b, lo, n);
    WholeOf(a);
    if sel.Span? {
      SliceTakes(sel, b, lo, n, y);
    }
    assert [WHOLE, sel][1..] == [sel] && [a, b][1..] == [b];
    assert [sel][1..] == [] && [b][1..] == [];
    assert Source([], [], []) == [];
    var idx := LeftIndex(sel, x, y);
    assert idx[1..] == if sel.Pick? then [] else [y];
    if sel.Pick? {
      assert Source([sel], [b], []) == [lo];
    } else {
      assert [y][1..] == [];
      assert Source([sel], [b], [y]) == [lo + y];
    }
  }

  /** The product of the left dimensions, and the number of an index among them. */
  lemma LeftOffset(sel: Sel, a: nat, n: nat, x: nat, y: nat)
    requires (sel.Pick? ==> n == 1) && x < a && y < n
    ensures Within(LeftIndex(sel, x, y), Left(sel, a, n))
    ensures Offset(Left(sel, a, n), LeftIndex(sel, x, y)) == x * n + y
  {
    assert [a][1..] == [] && [x][1..] == [] && [a, n][1..] == [n] && [x, y][1..] == [y] && [n][1..] == [] && [y][1..] == [];
    assert Prod([n]) == n * Prod([]);
    if sel.Pick? {
      assert Offset([a], [x]) == x * Prod([]) + Offset([], []);
    } else {
      assert Offset([n], [y]) == y * Prod([]) + Offset([], []) == y;
    }
  }

  lemma LeftProd(sel: Sel, a: nat, n: nat)
    requires sel.Pick? ==> n == 1
    ensures Prod(Left(sel, a, n)) == a * n
  {
    assert [a][1..] == [] && [a, n][1..] == [n] && [n][1..] == [];
    assert Prod([n]) == n * Prod([]);
  }

  /** Flattening makes row `row` of what was taken. */
  lemma FlatMiddle(sel: Sel, a: nat, n: nat, c: nat, rows: nat, tail: Shape, x: nat, y: nat, z: nat, row: nat, rest: Index)
    requires Located(a, n, c, rows, x, y, z, row) && Within(rest, tail) && (sel.Pick? ==> n == 1)
    ensures Within([row] + rest, [rows] + tail)
    ensures Within(LeftIndex(sel, x, y) + ([z] + rest), Left(sel, a, n) + ([c] + tail))
    ensures Offset(Left(sel, a, n) + ([c] + tail), LeftIndex(sel, x, y) + ([z] + rest))
         == Offset([rows] + tail, [row] + rest)
  {
    LeftOffset(sel, a, n, x, y);
    OffsetOfConcat(Left(sel, a, n), [c] + tail, LeftIndex(sel, x, y), [z] + rest);
    OffsetOfHead(c, tail, z, rest);
    OffsetOfHead(rows, tail, row, rest);
    FlatArithmetic(x * n + y, c, z, Prod(tail));
  }

  lemma OffsetOfHead(n: nat, tail: Shape, i: nat, rest: Index)
    requires i < n && Within(rest, tail)
    ensures Within([i] + rest, [n] + tail) && Offset([n] + tail, [i] + rest) == i * Prod(tail) + Offset(tail, rest)
    ensures Prod([n] + tail) == n * Prod(tail)
  {
    assert ([n] + tail)[1..] == tail && ([i] + rest)[1..] == rest;
  }

  lemma FlatArithmetic(k: nat, c: nat, z: nat, p: nat)
    ensures k * (c * p) + z * p == (k * c + z) * p
  {
    MulAssociates(k, c, p);
    MulDistributes(k * c, z, p);
  }

  function MiddleSels(sel: Sel, k: nat): seq<Sel> {
    [WHOLE, sel] + Wholes(k)
  }

  lemma SelectedMiddle(sel: Sel, a: nat, b: nat, rest: Shape, lo: nat, n: nat)
    requires Takes(sel, b, lo, n)
    ensures SelsOk(MiddleSels(sel, |rest|), [a, b] + rest)
    ensures SelectedShape(MiddleSels(sel, |rest|), [a, b] + rest) == Left(sel, a, n) + rest
  {
    LeftSelected(sel, a, b, lo, n);
    WholesSelectAll(rest);
    SelectedShapeOfConcat([WHOLE, sel], Wholes(|rest|), [a, b], rest);
  }

  lemma SourceOfMiddle(sel: Sel, a: nat, b: nat, rest: Shape, lo: nat, n: nat, x: nat, y: nat, i: Index)
    requires Takes(sel, b, lo, n) && x < a && y < n && Within(i, rest)
    ensures SelsOk(MiddleSels(sel, |rest|), [a, b] + rest)
    ensures Within(LeftIndex(sel, x, y) + i, SelectedShape(MiddleSels(sel, |rest|), [a, b] + rest))
    ensures Source(MiddleSels(sel, |rest|), [a, b] + rest, LeftIndex(sel, x, y) + i) == [x, lo + y] + i
  {
    LeftSource(sel, a, b, lo, n, x, y);
    WholesSelectAll(rest);
    SourceOfConcat([WHOLE, sel], Wholes(|rest|), [a, b], rest, LeftIndex(sel, x, y), i);
  }

  lemma FlatProd(sel: Sel, a: nat, n: nat, c: nat, tail: Shape)
    requires sel.Pick? ==> n == 1
    ensures Prod(Left(sel, a, n) + ([c] + tail)) == a * n * c * Prod(tail) == Prod([a * n * c] + tail)
  {
    LeftProd(sel, a, n);
    ProdOfConcat(Left(sel, a, n), [c] + tail);
    assert ([c] + tail)[1..] == tail && ([a * n * c] + tail)[1..] == tail;
    MulAssociates(a * n, c, Prod(tail));
  }

  // ----- rows -----

  predicate Rows<T>(t: Tensor<T>, rows: nat, tail: Shape) {
    t.Valid() && t.shape != [] && t.shape[0] == rows && t.shape[1..] == tail
  }

  function RowAt<T>(t: Tensor<T>, row: nat, rest: Index): T
    requires t.Valid() && t.shape != [] && row < t.shape[0] && Within(rest, t.shape[1..])
  {
    At(t, [row] + rest)
  }

  /** Row `row` of `rows` is at group `x` of `a`, part `y` of `b` and offset `z` of `c`. */
  predicate Located(a: nat, b: nat, c: nat, rows: nat, x: nat, y: nat, z: nat, row: nat) {
    x < a && y < b && z < c && rows == a * b * c && row == Row3(b, c, x, y, z) && row < rows
  }

  lemma LocatedAt(a: nat, b: nat, c: nat, x: nat, y: nat, z: nat)
    requires x < a && y < b && z < c
    ensures Located(a, b, c, a * b * c, x, y, z, Row3(b, c, x, y, z))
  {
    Row3Bound(a, b, c, x, y, z);
  }

  /** A row of a tensor and an element of the same data split in three. */
  lemma SplitRow<T>(t: Tensor<T>, split: Tensor<T>, a: nat, b: nat, c: nat, rows: nat, tail: Shape,
                    x: nat, y: nat, z: nat, row: nat, rest: Index)
    requires Located(a, b, c, rows, x, y, z, row) && Within(rest, tail)
    requires Rows(t, rows, tail) && split.Valid() && split.shape == [a, b] + ([c] + tail) && split.data == t.data
    ensures Within([x, y] + ([z] + rest), split.shape) && RowAt(t, row, rest) == At(split, [x, y] + ([z] + rest))
  {
    assert t.shape == [rows] + tail;
    assert split.shape == [a, b, c] + tail;
    assert [x, y] + ([z] + rest) == [x, y, z] + rest;
    SplitAt(t, split, a, b, c, tail, x, y, z, rest);
  }

  predicate Fits(piece: Piece, rows: nat, tail: Shape) {
    if piece.rows.Some? then piece.rows.value == rows else Prod(tail) > 0
  }

  lemma TakenIs<T>(split: Tensor<T>, piece: Piece, a: nat, b: nat, c: nat, rows: nat, tail: Shape, lo: nat, n: nat)
    requires split.Valid() && split.shape == [a, b] + ([c] + tail) && rows == a * n * c
    requires Takes(piece.sel, b, lo, n) && Fits(piece, rows, tail)
    ensures var sels := MiddleSels(piece.sel, 1 + |tail|);
            && SelsOk(sels, split.shape) && Select(split, sels).shape == Left(piece.sel, a, n) + ([c] + tail)
            && Taken(split, piece, tail) == Some(Tensor([rows] + tail, Select(split, sels).data))
    ensures Rows(Taken(split, piece, tail).value, rows, tail)
  {
    SelectedMiddle(piece.sel, a, b, [c] + tail, lo, n);
    var sels := MiddleSels(piece.sel, 1 + |tail|);
    assert [WHOLE, piece.sel] + Wholes(|split.shape| - 2) == sels;
    var part := Select(split, sels);
    FlatProd(piece.sel, a, n, c, tail);
    if piece.rows.None? {
      QuotientIs(|part.data|, rows, 0, Prod(tail));
    }
  }

  lemma FlatAt<T>(part: Tensor<T>, sel: Sel, a: nat, n: nat, c: nat, rows: nat, tail: Shape,
                  x: nat, y: nat, z: nat, row: nat, rest: Index)
    requires part.Valid() && part.shape == Left(sel, a, n) + ([c] + tail)
    requires Located(a, n, c, rows, x, y, z, row) && Within(rest, tail) && (sel.Pick? ==> n == 1)
    ensures Within(LeftIndex(sel, x, y) + ([z] + rest), part.shape)
    ensures var flat := Tensor([rows] + tail, part.data);
            Rows(flat, rows, tail) && RowAt(flat, row, rest) == At(part, LeftIndex(sel, x, y) + ([z] + rest))
  {
    FlatProd(sel, a, n, c, tail);
    FlatMiddle(sel, a, n, c, rows, tail, x, y, z, row, rest);
  }

  lemma PickedAt<T>(split: Tensor<T>, sel: Sel, a: nat, b: nat, right: Shape, lo: nat, n: nat, x: nat, y: nat, i: Index)
    requires split.Valid() && split.shape == [a, b] + right
    requires Takes(sel, b, lo, n) && x < a && y < n && Within(i, right)
    ensures SelsOk(MiddleSels(sel, |right|), split.shape)
    ensures var part := Select(split, MiddleSels(sel, |right|));
            && Within(LeftIndex(sel, x, y) + i, part.shape) && Within([x, lo + y] + i, split.shape)
            && At(part, LeftIndex(sel, x, y) + i) == At(split, [x, lo + y] + i)
  {
    SourceOfMiddle(sel, a, b, right, lo, n, x, y, i);
    SelectAt(split, MiddleSels(sel, |right|), LeftIndex(sel, x, y) + i);
  }

  /** Row `to` of a piece, in the tensor that was split. */
  lemma PieceAt<T>(split: Tensor<T>, piece: Piece, a: nat, b: nat, c: nat, size: nat, tail: Shape, lo: nat, n: nat,
                   x: nat, y: nat, z: nat, to: nat, rest: Index, taken: Tensor<T>)
    requires Located(a, n, c, size, x, y, z, to) && Within(rest, tail)
    requires split.Valid() && split.shape == [a, b] + ([c] + tail)
    requires Takes(piece.sel, b, lo, n) && Fits(piece, size, tail) && Taken(split, piece, tail) == Some(taken)
    ensures Rows(taken, size, tail) && Within([x, lo + y] + ([z] + rest), split.shape)
    ensures RowAt(taken, to, rest) == At(split, [x, lo + y] + ([z] + rest))
  {
    var right, i, sels := [c] + tail, [z] + rest, MiddleSels(piece.sel, 1 + |tail|);
    TakenIs(split, piece, a, b, c, size, tail, lo, n);
    FlatAt(Select(split, sels), piece.sel, a, n, c, size, tail, x, y, z, to, rest);
    PickedAt(split, piece.sel, a, b, right, lo, n, x, y, i);
  }

  /** Row `to` of a piece is row `from` of the source, `lo` parts further on in the same group. */
  lemma TakenAt<T>(t: Tensor<T>, split: Tensor<T>, piece: Piece, a: nat, b: nat, c: nat, rows: nat, size: nat,
                   tail: Shape, lo: nat, n: nat, x: nat, y: nat, z: nat, from: nat, to: nat, rest: Index,
                   taken: Tensor<T>)
    requires Located(a, b, c, rows, x, lo + y, z, from) && Located(a, n, c, size, x, y, z, to) && Within(rest, tail)
    requires Rows(t, rows, tail) && split.Valid() && split.shape == [a, b] + ([c] + tail) && split.data == t.data
    requires Takes(piece.sel, b, lo, n) && Fits(piece, size, tail) && Taken(split, piece, tail) == Some(taken)
    ensures Rows(taken, size, tail) && RowAt(taken, to, rest) == RowAt(t, from, rest)
  {
    PieceAt(split, piece, a, b, c, size, tail, lo, n, x, y, z, to, rest, taken);
    SplitRow(t, split, a, b, c, rows, tail, x, lo + y, z, from, rest);
  }

  /** Two joined tensors. */
  lemma JoinRow<T>(t: Tensor<T>, u: Tensor<T>, m: nat, n: nat, tail: Shape, row: nat, rest: Index)
    requires Rows(t, m, tail) && Rows(u, n, tail) && row < m + n && Within(rest, tail)
    ensures Joinable(t, u) && Rows(Join(t, u), m + n, tail)
    ensures RowAt(Join(t, u), row, rest) == if row < m then RowAt(t, row, rest) else RowAt(u, row - m, rest)
  {
    var idx := [row] + rest;
    assert idx[1..] == rest;
    assert Within(idx, Join(t, u).shape);
    JoinAt(t, u, idx);
    assert row >= m ==> Moved(idx, m) == [row - m] + rest;
  }

  lemma JoinRows<T>(t: Tensor<T>, u: Tensor<T>, m: nat, n: nat, tail: Shape)
    requires Rows(t, m, tail) && Rows(u, n, tail)
    ensures Joinable(t, u) && Rows(Join(t, u), m + n, tail)
  {
  }

  predicate Joins<T(==)>(j: Tensor<T>, q: Tensor<T>, k: Tensor<T>, v: Tensor<T>, m: nat, n: nat, tail: Shape) {
    && Rows(q, m, tail) && Rows(k, n, tail) && Rows(v, n, tail)
    && Joinable(k, v) && Joinable(q, Join(k, v)) && j == Join(q, Join(k, v))
  }

  /** Three tensors joined. */
  lemma Join3Row<T>(j: Tensor<T>, q: Tensor<T>, k: Tensor<T>, v: Tensor<T>, m: nat, n: nat, tail: Shape,
                    row: nat, rest: Index)
    requires Joins(j, q, k, v, m, n, tail) && row < m + n + n && Within(rest, tail)
    ensures Rows(j, m + n + n, tail)
    ensures RowAt(j, row, rest)
         == if row < m then RowAt(q, row, rest) else if row < m + n then RowAt(k, row - m, rest)
            else RowAt(v, row - m - n, rest)
  {
    JoinRows(k, v, n, n, tail);
    JoinRow(q, Join(k, v), m, n + n, tail, row, rest);
    if row >= m {
      JoinRow(k, v, n, n, tail, row - m, rest);
    }
  }

  lemma CatJoins<T>(q: Tensor<T>, k: Tensor<T>, v: Tensor<T>, m: nat, n: nat, tail: Shape) returns (j: Tensor<T>)
    requires Rows(q, m, tail) && Rows(k, n, tail) && Rows(v, n, tail)
    ensures Joins(j, q, k, v, m, n, tail) && Cat([q, k, v]) == Some(j)
  {
    JoinRows(k, v, n, n, tail);
    JoinRows(q, Join(k, v), m, n + n, tail);
    assert [q, k, v][1..] == [k, v] && [k, v][1..] == [v];
    assert Cat([v]) == Some(v);
    assert Cat([k, v]) == Some(Join(k, v));
    j := Join(q, Join(k, v));
  }

  /** Pieces that take the queries, the keys and the values of every group: `m` rows, and twice `n`. */
  predicate Covers(q: Piece, k: Piece, v: Piece, a: nat, b: nat, c: nat, m: nat, n: nat, tail: Shape) {
    && b >= 2 && m == a * (b - 2) * c && n == a * 1 * c
    && Takes(q.sel, b, 0, b - 2) && Fits(q, m, tail)
    && Takes(k.sel, b, b - 2, 1) && Fits(k, n, tail)
    && Takes(v.sel, b, b - 1, 1) && Fits(v, n, tail)
  }

  lemma CoversAll(q: Piece, k: Piece, v: Piece, a: nat, b: nat, c: nat, m: nat, n: nat, tail: Shape)
    requires Covers(q, k, v, a, b, c, m, n, tail)
    ensures m + n + n == a * b * c && a * FirstPart(b, Query) * c == 0
    ensures a * FirstPart(b, Key) * c == m && a * FirstPart(b, Value) * c == m + n
  {
    BlockSum(a, b - 2, 1, c);
    BlockSum(a, b - 1, 1, c);
  }

  lemma SplitIs<T>(t: Tensor<T>, a: nat, b: nat, c: nat, tail: Shape) returns (split: Tensor<T>)
    requires Rows(t, a * b * c, tail)
    ensures split.Valid() && split.shape == [a, b] + ([c] + tail) && split.data == t.data
    ensures Reshape(t, [a, b, c] + tail) == Some(split)
  {
    Prod3(a, b, c);
    ProdOfConcat([a, b, c], tail);
    split := Tensor([a, b, c] + tail, t.data);
  }

  predicate Pieces<T(==)>(split: Tensor<T>, tail: Shape, q: Piece, k: Piece, v: Piece,
                          q': Tensor<T>, k': Tensor<T>, v': Tensor<T>) {
    && split.Valid()
    && Taken(split, q, tail) == Some(q') && Taken(split, k, tail) == Some(k') && Taken(split, v, tail) == Some(v')
  }

  lemma PiecesOf<T>(split: Tensor<T>, a: nat, b: nat, c: nat, m: nat, n: nat, tail: Shape, q: Piece, k: Piece, v: Piece)
      returns (q': Tensor<T>, k': Tensor<T>, v': Tensor<T>, j: Tensor<T>)
    requires Covers(q, k, v, a, b, c, m, n, tail) && split.Valid() && split.shape == [a, b] + ([c] + tail)
    ensures Pieces(split, tail, q, k, v, q', k', v') && Joins(j, q', k', v', m, n, tail)
  {
    TakenIs(split, q, a, b, c, m, tail, 0, b - 2);
    TakenIs(split, k, a, b, c, n, tail, b - 2, 1);
    TakenIs(split, v, a, b, c, n, tail, b - 1, 1);
    q', k', v' := Taken(split, q, tail).value, Taken(split, k, tail).value, Taken(split, v, tail).value;
    j := CatJoins(q', k', v', m, n, tail);
  }

  lemma RegroupIs<T>(t: Tensor<T>, split: Tensor<T>, a: nat, b: nat, c: nat, tail: Shape, q: Piece, k: Piece, v: Piece,
                     q': Tensor<T>, k': Tensor<T>, v': Tensor<T>, j: Tensor<T>, m: nat, n: nat)
    requires t.Valid() && Reshape(t, [a, b, c] + tail) == Some(split)
    requires Pieces(split, tail, q, k, v, q', k', v') && Joins(j, q', k', v', m, n, tail)
    ensures Regroup(t, a, b, c, tail, q, k, v) == Some(j)
  {
    var j' := CatJoins(q', k', v', m, n, tail);
  }

  /** Where a source row is, and where it is found in the piece of its role and in the result. */
  lemma TargetOf(q: Piece, k: Piece, v: Piece, a: nat, b: nat, c: nat, rows: nat, m: nat, n: nat, tail: Shape, row: nat)
      returns (role: Role, lo: nat, x: nat, y: nat, z: nat, to: nat, target: nat)
    requires Covers(q, k, v, a, b, c, m, n, tail) && rows == a * b * c && row < rows && c > 0
    ensures target == Target(a, b, c, row) && target < rows == m + n + n
    ensures lo == FirstPart(b, role) && target == Of(role, 0, m, m + n) + to
    ensures Located(a, b, c, rows, x, lo + y, z, row) && Located(a, Parts(b, role), c, Of(role, m, n, n), x, y, z, to)
  {
    var part;
    x, part, z := Row3Of(a, b, c, row);
    Row3Parts(b, c, x, part, z);
    CoversAll(q, k, v, a, b, c, m, n, tail);
    role := RoleOf(b, part);
    lo := FirstPart(b, role);
    y := part - lo;
    LocatedAt(a, Parts(b, role), c, x, y, z);
    to, target := Row3(Parts(b, role), c, x, y, z), TargetRow(a, b, c, x, part, z);
  }

  lemma RoleFits(q: Piece, k: Piece, v: Piece, a: nat, b: nat, c: nat, m: nat, n: nat, tail: Shape, role: Role)
    requires Covers(q, k, v, a, b, c, m, n, tail)
    ensures var piece := Of(role, q, k, v);
            Takes(piece.sel, b, FirstPart(b, role), Parts(b, role)) && Fits(piece, Of(role, m, n, n), tail)
  {
  }

  lemma RolePiece<T>(split: Tensor<T>, tail: Shape, q: Piece, k: Piece, v: Piece,
                     q': Tensor<T>, k': Tensor<T>, v': Tensor<T>, role: Role)
    requires Pieces(split, tail, q, k, v, q', k', v')
    ensures Taken(split, Of(role, q, k, v), tail) == Some(Of(role, q', k', v'))
  {
  }

  /** A source row in what its role takes. */
  lemma RoleRow<T>(t: Tensor<T>, split: Tensor<T>, a: nat, b: nat, c: nat, rows: nat, m: nat, n: nat, tail: Shape,
                   q: Piece, k: Piece, v: Piece, q': Tensor<T>, k': Tensor<T>, v': Tensor<T>,
                   role: Role, lo: nat, x: nat, y: nat, z: nat, row: nat, to: nat, rest: Index)
    requires Covers(q, k, v, a, b, c, m, n, tail) && Rows(t, rows, tail) && Within(rest, tail)
    requires split.Valid() && split.shape == [a, b] + ([c] + tail) && split.data == t.data
    requires Pieces(split, tail, q, k, v, q', k', v') && lo == FirstPart(b, role)
    requires Located(a, b, c, rows, x, lo + y, z, row)
    requires Located(a, Parts(b, role), c, Of(role, m, n, n), x, y, z, to)
    ensures Rows(Of(role, q', k', v'), Of(role, m, n, n), tail)
    ensures RowAt(Of(role, q', k', v'), to, rest) == RowAt(t, row, rest)
  {
    RoleFits(q, k, v, a, b, c, m, n, tail, role);
    RolePiece(split, tail, q, k, v, q', k', v', role);
    TakenAt(t, split, Of(role, q, k, v), a, b, c, rows, Of(role, m, n, n), tail, lo, Parts(b, role), x, y, z, row, to,
            rest, Of(role, q', k', v'));
  }

  /** A row of what a role takes among the joined rows: the rows of the roles before it come first. */
  lemma RoleJoined<T>(j: Tensor<T>, q: Tensor<T>, k: Tensor<T>, v: Tensor<T>, m: nat, n: nat, tail: Shape,
                      role: Role, to: nat, rest: Index)
    requires Joins(j, q, k, v, m, n, tail) && to < Of(role, m, n, n) && Within(rest, tail)
    ensures Rows(j, m + n + n, tail) && Of(role, 0, m, m + n) + to < m + n + n
    ensures RowAt(j, Of(role, 0, m, m + n) + to, rest) == RowAt(Of(role, q, k, v), to, rest)
  {
    Join3Row(j, q, k, v, m, n, tail, Of(role, 0, m, m + n) + to, rest);
  }

  lemma PlacedAt<T>(t: Tensor<T>, split: Tensor<T>, a: nat, b: nat, c: nat, rows: nat, m: nat, n: nat, tail: Shape,
                    q: Piece, k: Piece, v: Piece, q': Tensor<T>, k': Tensor<T>, v': Tensor<T>, j: Tensor<T>,
                    role: Role, lo: nat, x: nat, y: nat, z: nat, row: nat, to: nat, rest: Index)
    requires Covers(q, k, v, a, b, c, m, n, tail) && Rows(t, rows, tail) && Within(rest, tail)
    requires split.Valid() && split.shape == [a, b] + ([c] + tail) && split.data == t.data
    requires Pieces(split, tail, q, k, v, q', k', v') && Joins(j, q', k', v', m, n, tail)
    requires lo == FirstPart(b, role) && Located(a, b, c, rows, x, lo + y, z, row)
    requires Located(a, Parts(b, role), c, Of(role, m, n, n), x, y, z, to)
    ensures Rows(j, m + n + n, tail) && Of(role, 0, m, m + n) + to < m + n + n
    ensures RowAt(j, Of(role, 0, m, m + n) + to, rest) == RowAt(t, row, rest)
  {
    RoleRow(t, split, a, b, c, rows, m, n, tail, q, k, v, q', k', v', role, lo, x, y, z, row, to, rest);
    RoleJoined(j, q', k', v', m, n, tail, role, to, rest);
  }

  lemma WidthIsPositive(row: nat, rows: nat, n: nat, c: nat)
    requires row < rows == n * c
    ensures c > 0
  {
  }

  /** Every row of the source is in the result at its target, all columns alike. */
  lemma RegroupAt<T>(t: Tensor<T>, a: nat, b: nat, c: nat, rows: nat, m: nat, n: nat, tail: Shape,
                     q: Piece, k: Piece, v: Piece, row: nat, rest: Index) returns (j: Tensor<T>, target: nat)
    requires Covers(q, k, v, a, b, c, m, n, tail) && rows == a * b * c && Rows(t, rows, tail)
    requires row < rows && Within(rest, tail)
    ensures c > 0 && target == Target(a, b, c, row) && target < rows
    ensures Regroup(t, a, b, c, tail, q, k, v) == Some(j) && Rows(j, rows, tail)
    ensures RowAt(j, target, rest) == RowAt(t, row, rest)
  {
    WidthIsPositive(row, rows, a * b, c);
    var role, lo, x, y, z, to;
    role, lo, x, y, z, to, target := TargetOf(q, k, v, a, b, c, rows, m, n, tail, row);
    j := RegroupTo(t, a, b, c, rows, m, n, tail, q, k, v, role, lo, x, y, z, row, to, rest);
  }

  lemma RegroupTo<T>(t: Tensor<T>, a: nat, b: nat, c: nat, rows: nat, m: nat, n: nat, tail: Shape,
                     q: Piece, k: Piece, v: Piece, role: Role, lo: nat, x: nat, y: nat, z: nat, row: nat, to: nat,
                     rest: Index) returns (j: Tensor<T>)
    requires Covers(q, k, v, a, b, c, m, n, tail) && Rows(t, rows, tail) && Within(rest, tail)
    requires lo == FirstPart(b, role) && Located(a, b, c, rows, x, lo + y, z, row)
    requires Located(a, Parts(b, role), c, Of(role, m, n, n), x, y, z, to)
    ensures Regroup(t, a, b, c, tail, q, k, v) == Some(j)
    ensures Rows(j, m + n + n, tail) && Of(role, 0, m, m + n) + to < m + n + n
    ensures RowAt(j, Of(role, 0, m, m + n) + to, rest) == RowAt(t, row, rest)
  {
    var split := SplitIs(t, a, b, c, tail);
    var q', k', v';
    q', k', v', j := PiecesOf(split, a, b, c, m, n, tail, q, k, v);
    PlacedAt(t, split, a, b, c, rows, m, n, tail, q, k, v, q', k', v', j, role, lo, x, y, z, row, to, rest);
    RegroupIs(t, split, a, b, c, tail, q, k, v, q', k', v', j, m, n);
  }

  // ----- the converters -----

  /** The fused weights of GPT-NeoX and BLOOM: row by row, the queries of all heads, then the keys, then the values. */
  lemma WeightsAt<T>(t: Tensor<T>, nHead: nat, dim: nat, rows: nat, nEmbed: nat, row: nat, rest: Index)
      returns (j: Tensor<T>, target: nat)
    requires nHead > 0 && nEmbed == nHead * dim && rows == nHead * 3 * dim && Rows(t, rows, [nEmbed])
    requires row < rows && Within(rest, [nEmbed])
    ensures dim > 0 && target == Target(nHead, 3, dim, row) && target < rows
    ensures SplitWeights(t, nHead, nEmbed) == Some(j) && Rows(j, rows, [nEmbed])
    ensures RowAt(j, target, rest) == RowAt(t, row, rest)
  {
    DimIs(nHead, dim, nEmbed);
    DivBound(row, nHead * 3, dim);
    MulMonotone(1, nHead, dim);
    assert Prod([nEmbed]) == nEmbed * Prod([]);
    var q, k, v := Piece(Pick(0), None), Piece(Pick(1), None), Piece(Pick(2), None);
    j, target := RegroupAt(t, nHead, 3, dim, rows, nHead * 1 * dim, nHead * 1 * dim, [nEmbed], q, k, v, row, rest);
  }

  lemma DimIs(nHead: nat, dim: nat, nEmbed: nat)
    requires nHead > 0 && nEmbed == nHead * dim
    ensures nEmbed / nHead == dim
  {
    QuotientIs(nEmbed, dim, 0, nHead);
  }

  /** The fused bias of GPT-NeoX and BLOOM. */
  lemma BiasAt<T>(t: Tensor<T>, nHead: nat, dim: nat, rows: nat, nEmbed: nat, row: nat)
      returns (j: Tensor<T>, target: nat)
    requires nHead > 0 && nEmbed == nHead * dim && rows == nHead * 3 * dim && Rows(t, rows, [])
    requires row < rows
    ensures dim > 0 && target == Target(nHead, 3, dim, row) && target < rows
    ensures SplitBias(t, nHead, nEmbed) == Some(j) && Rows(j, rows, [])
    ensures RowAt(j, target, []) == RowAt(t, row, [])
  {
    DimIs(nHead, dim, nEmbed);
    assert nEmbed == nHead * 1 * dim;
    var q, k, v := Piece(Pick(0), Some(nEmbed)), Piece(Pick(1), Some(nEmbed)), Piece(Pick(2), Some(nEmbed));
    j, target := RegroupAt(t, nHead, 3, dim, rows, nEmbed, nEmbed, [], q, k, v, row, []);
  }

  lemma FalconCovers(a: nat, perKv: nat, dim: nat, m: nat, n: nat, tail: Shape)
    requires m == a * perKv * dim && n == a * dim
    ensures Covers(Piece(ALL_BUT_TWO, Some(m)), Piece(LAST_BUT_ONE, Some(n)), Piece(LAST, Some(n)),
                   a, perKv + 2, dim, m, n, tail)
  {
    TakesSlices(perKv + 2);
    assert n == a * 1 * dim;
  }

  lemma FalconIs<T>(t: Tensor<T>, nHeadKv: nat, b: nat, nHead: nat, dim: nat, hidden: nat, m: nat, n: nat, j: Tensor<T>)
    requires nHeadKv > 0 && nHead > 0 && hidden / nHead == dim && nHead / nHeadKv + 2 == b
    requires dim * nHead == hidden && nHead * dim == m && nHeadKv * dim == n
    requires t.Valid() && j.Valid() && j.shape == t.shape
    requires Regroup(t, nHeadKv, b, dim, [hidden], Piece(ALL_BUT_TWO, Some(m)), Piece(LAST_BUT_ONE, Some(n)),
                     Piece(LAST, Some(n))) == Some(j)
    ensures SplitFalcon(t, nHead, nHeadKv, hidden) == Some(j)
  {
  }

  /** Falcon's fused weights, with `perKv` query heads for every key and value head. */
  lemma FalconAt<T>(t: Tensor<T>, nHeadKv: nat, perKv: nat, nHead: nat, dim: nat, hidden: nat, rows: nat,
                    row: nat, rest: Index) returns (j: Tensor<T>, target: nat)
    requires nHeadKv > 0 && perKv > 0 && nHead == nHeadKv * perKv && hidden == dim * nHead
    requires rows == nHeadKv * (perKv + 2) * dim && Rows(t, rows, [hidden])
    requires row < rows && Within(rest, [hidden])
    ensures dim > 0 && target == Target(nHeadKv, perKv + 2, dim, row) && target < rows
    ensures SplitFalcon(t, nHead, nHeadKv, hidden) == Some(j) && Rows(j, rows, [hidden])
    ensures RowAt(j, target, rest) == RowAt(t, row, rest)
  {
    MulMonotone(1, nHeadKv, perKv);
    DimIs(nHead, dim, hidden);
    DimIs(nHeadKv, perKv, nHead);
    var b, m, n := perKv + 2, nHead * dim, nHeadKv * dim;
    var q, k, v := Piece(ALL_BUT_TWO, Some(m)), Piece(LAST_BUT_ONE, Some(n)), Piece(LAST, Some(n));
    FalconCovers(nHeadKv, perKv, dim, m, n, [hidden]);
    j, target := RegroupAt(t, nHeadKv, b, dim, rows, m, n, [hidden], q, k, v, row, rest);
    FalconIs(t, nHeadKv, b, nHead, dim, hidden, m, n, j);
  }
}
