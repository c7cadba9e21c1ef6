/** Longest common prefix and longest common run of two token sequences
    (llama.cpp/common/common.cpp:1214-1268). The header calls the second one a subsequence; the reset to 0 on a
    mismatch makes it a contiguous run. */
module CommonRun {
  type Tokens = seq<int>

  /** The `n` tokens from `i` on in `a` are the `n` tokens from `j` on in `b`. */
  ghost predicate Common(a: Tokens, b: Tokens, i: nat, j: nat, n: nat) {
    i + n <= |a| && j + n <= |b| && a[i..i + n] == b[j..j + n]
  }

  ghost predicate Longest(a: Tokens, b: Tokens, r: nat) {
    && (exists i: nat, j: nat :: Common(a, b, i, j, r))
    && (forall i: nat, j: nat, n: nat :: Common(a, b, i, j, n) ==> n <= r)
  }

  /** Length of the longest common suffix of the first `i` and the first `j` tokens: one cell of the table. */
  ghost function Cell(a: Tokens, b: Tokens, i: nat, j: nat): (r: nat)
    requires i <= |a| && j <= |b|
    ensures r <= i && r <= j
  {
    if i > 0 && j > 0 && a[i - 1] == b[j - 1] then Cell(a, b, i - 1, j - 1) + 1 else 0
  }

  /** A cell is a common run that ends there. */
  lemma {:induction false} CellIsCommon(a: Tokens, b: Tokens, i: nat, j: nat)
    requires i <= |a| && j <= |b|
    ensures var n := Cell(a, b, i, j); Common(a, b, i - n, j - n, n)
  {
    if i > 0 && j > 0 && a[i - 1] == b[j - 1] {
      CellIsCommon(a, b, i - 1, j - 1);
      var n := Cell(a, b, i, j);
      assert a[i - n..i] == a[i - n..i - 1] + [a[i - 1]];
      assert b[j - n..j] == b[j - n..j - 1] + [b[j - 1]];
    }
  }

  /** No common run that ends there is longer. */
  lemma {:induction false} CommonFitsCell(a: Tokens, b: Tokens, i: nat, j: nat, n: nat)
    requires Common(a, b, i, j, n)
    ensures n <= Cell(a, b, i + n, j + n)
  {
    if n > 0 {
      assert a[i..i + n][n - 1] == b[j..j + n][n - 1];
      assert a[i..i + n][..n - 1] == a[i..i + n - 1] && b[j..j + n][..n - 1] == b[j..j + n - 1];
      CommonFitsCell(a, b, i, j, n - 1);
    }
  }

  /** `max` bounds the cells of the rows above `i` and of row `i` left of `j`. */
  ghost predicate Bounds(a: Tokens, b: Tokens, i: nat, j: nat, max: nat)
    requires i <= |a|
  {
    forall p: nat, q: nat :: p <= i && q <= |b| && (p < i || q < j) ==> Cell(a, b, p, q) <= max
  }

  lemma BoundsNext(a: Tokens, b: Tokens, i: nat, j: nat, max: nat, higher: nat)
    requires i <= |a| && j <= |b| && Bounds(a, b, i, j, max) && max <= higher && Cell(a, b, i, j) <= higher
    ensures Bounds(a, b, i, j + 1, higher)
  {
  }

  /** `common_lcs`, keeping two rows of the table. */
  method CommonLcs(a: Tokens, b: Tokens) returns (maxLength: nat)
    ensures Longest(a, b, maxLength)
  {
    maxLength := 0;
    assert Common(a, b, 0, 0, 0);
    if a == [] || b == [] {
      return;
    }
    var prevRow: seq<nat> := seq(|b| + 1, _ => 0);
    var currRow: seq<nat> := seq(|b| + 1, _ => 0);
    for i := 1 to |a| + 1
      invariant |prevRow| == |currRow| == |b| + 1 && currRow[0] == 0
      invariant forall q :: 0 <= q <= |b| ==> prevRow[q] == Cell(a, b, i - 1, q)
      invariant exists p: nat, q: nat :: Common(a, b, p, q, maxLength)
      invariant Bounds(a, b, i - 1, |b| + 1, maxLength)
    {
      for j := 1 to |b| + 1
        invariant |currRow| == |b| + 1 && currRow[0] == 0
        invariant forall q :: 0 < q < j ==> currRow[q] == Cell(a, b, i, q)
        invariant exists p: nat, q: nat :: Common(a, b, p, q, maxLength)
        invariant Bounds(a, b, i, j, maxLength)
      {
        ghost var lower := maxLength;
        if a[i - 1] == b[j - 1] {
          if i == 1 || j == 1 {
            currRow := currRow[j := 1];
          } else {
            currRow := currRow[j := prevRow[j - 1] + 1];
          }
          CellIsCommon(a, b, i, j);
          if currRow[j] > maxLength {
            maxLength := currRow[j];
          }
        } else {
          currRow := currRow[j := 0];
        }
        BoundsNext(a, b, i, j, lower, maxLength);
      }
      prevRow := currRow;
    }
    LongestFromBounds(a, b, maxLength);
  }

  lemma LongestFromBounds(a: Tokens, b: Tokens, max: nat)
    requires Bounds(a, b, |a|, |b| + 1, max)
    requires exists p: nat, q: nat :: Common(a, b, p, q, max)
    ensures Longest(a, b, max)
  {
    forall i: nat, j: nat, n: nat | Common(a, b, i, j, n)
      ensures n <= max
    {
      CommonFitsCell(a, b, i, j, n);
    }
  }

  /** `common_lcp`. */
  method CommonLcp(a: Tokens, b: Tokens) returns (i: nat)
    ensures i <= |a| && i <= |b| && a[..i] == b[..i]
    ensures i < |a| && i < |b| ==> a[i] != b[i]
  {
    i := 0;
    while i < |a| && i < |b| && a[i] == b[i]
      invariant i <= |a| && i <= |b| && a[..i] == b[..i]
    {
      i := i + 1;
    }
  }

  /** The result is determined by the two sequences, whichever comes first, and is at least their common prefix. */
  lemma LongestIsSymmetricAndUnique(a: Tokens, b: Tokens, r: nat, r': nat, prefix: nat)
    requires Longest(a, b, r) && Longest(b, a, r')
    requires prefix <= |a| && prefix <= |b| && a[..prefix] == b[..prefix]
    ensures r == r' && prefix <= r
  {
    var i: nat, j: nat :| Common(a, b, i, j, r);
    assert Common(b, a, j, i, r);
    var i': nat, j': nat :| Common(b, a, i', j', r');
    assert Common(a, b, j', i', r');
    assert a[0..0 + prefix] == a[..prefix] && b[0..0 + prefix] == b[..prefix];
    assert Common(a, b, 0, 0, prefix);
  }
}
