/** Indexing a factored tensor is indexing the product (llama.cpp/convert_lora_to_gguf.py:57-113). */
module LoraSelect {
  import opened Wrappers
  import opened Tensors
  import opened LoraTensor

  /** How an entry of A's index must go with the entry of B's index in the same leading dimension. */
  ghost predicate AlignedAt(x: Sel, a: nat, y: Sel, b: nat) {
    && SelOk(x, a) && SelOk(y, b)
    && (x.Pick? <==> y.Pick?)
    && (if x.Pick? then PickPos(x, a) == if a == 1 then 0 else PickPos(y, b)
        else
          || (a == 1 && Count(x, a) == 1)
          || (Count(x, a) == 0 && Count(y, b) == 0)
          || (a == b && Low(x, a) == Low(y, b) && High(x, a) == High(y, b) && x.step == y.step))
  }

  ghost predicate Aligned(sa: seq<Sel>, a: Shape, sb: seq<Sel>, b: Shape) {
    && |sa| == |a| == |sb| == |b|
    && forall i :: 0 <= i < |sa| ==> AlignedAt(sa[i], a[i], sb[i], b[i])
  }

  lemma BroadcastOfCons(lead: Shape, idx: Index)
    requires |lead| == |idx| > 0
    ensures Broadcast(lead, idx) == [if lead[0] == 1 then 0 else idx[0]] + Broadcast(lead[1..], idx[1..])
  {
  }

  lemma AlignedSpan(x: Sel, a: nat, y: Sel, b: nat, i: nat)
    requires AlignedAt(x, a, y, b) && (a == 1 || a == b) && y.Span? && i < Count(y, b)
    ensures var i' := if Count(x, a) == 1 then 0 else i;
            i' < Count(x, a) && SpanPos(x, a, i') == if a == 1 then 0 else SpanPos(y, b, i)
  {
    assert Count(x, a) == 1 || Count(x, a) == Count(y, b);
    if Count(x, a) == 1 {
      assert 0 * x.step == 0;
    }
  }

  lemma BroadcastSelectedPick(sa: seq<Sel>, a: Shape, sb: seq<Sel>, b: Shape, idx: Index)
    requires Aligned(sa, a, sb, b) && Broadcasts(a, b) && sa != [] && sb[0].Pick?
    requires Within(idx, SelectedShape(sb, b)) && Within(idx, SelectedShape(sb[1..], b[1..]))
    requires |SelectedShape(sa[1..], a[1..])| == |idx|
    requires Within(Broadcast(SelectedShape(sa[1..], a[1..]), idx), SelectedShape(sa[1..], a[1..]))
    requires Source(sa[1..], a[1..], Broadcast(SelectedShape(sa[1..], a[1..]), idx))
          == Broadcast(a[1..], Source(sb[1..], b[1..], idx))
    ensures SelectedShape(sa, a) == SelectedShape(sa[1..], a[1..])
    ensures Source(sa, a, Broadcast(SelectedShape(sa, a), idx)) == Broadcast(a, Source(sb, b, idx))
  {
    assert AlignedAt(sa[0], a[0], sb[0], b[0]);
    assert a[0] == 1 || a[0] == b[0];
    BroadcastOfCons(a, Source(sb, b, idx));
    assert Source(sb, b, idx)[1..] == Source(sb[1..], b[1..], idx);
  }

  lemma SourceOfSpan(s: seq<Sel>, shape: Shape, idx: Index)
    requires SelsOk(s, shape) && Within(idx, SelectedShape(s, shape)) && s != [] && s[0].Span?
    ensures SelectedShape(s, shape) == [Count(s[0], shape[0])] + SelectedShape(s[1..], shape[1..])
    ensures idx != [] && idx[0] < Count(s[0], shape[0]) && Within(idx[1..], SelectedShape(s[1..], shape[1..]))
    ensures Source(s, shape, idx) == [SpanPos(s[0], shape[0], idx[0])] + Source(s[1..], shape[1..], idx[1..])
  {
    assert SelectedShape(s, shape)[1..] == SelectedShape(s[1..], shape[1..]);
  }

  lemma BroadcastOfSource(a: Shape, sb: seq<Sel>, b: Shape, idx: Index)
    requires SelsOk(sb, b) && Within(idx, SelectedShape(sb, b)) && sb != [] && sb[0].Span? && |a| == |b|
    ensures idx != [] && idx[0] < Count(sb[0], b[0]) && Within(idx[1..], SelectedShape(sb[1..], b[1..]))
    ensures Broadcast(a, Source(sb, b, idx))
         == [if a[0] == 1 then 0 else SpanPos(sb[0], b[0], idx[0])] + Broadcast(a[1..], Source(sb[1..], b[1..], idx[1..]))
  {
    SourceOfSpan(sb, b, idx);
    BroadcastOfCons(a, Source(sb, b, idx));
    assert Source(sb, b, idx)[1..] == Source(sb[1..], b[1..], idx[1..]);
  }

  /** The index that broadcasting leaves for a selection that starts with a slice. */
  lemma SpreadOfSpan(s: seq<Sel>, shape: Shape, idx: Index) returns (spread: Index)
    requires SelsOk(s, shape) && s != [] && s[0].Span? && |idx| == |SelectedShape(s[1..], shape[1..])| + 1
    ensures |SelectedShape(s, shape)| == |idx| && spread == Broadcast(SelectedShape(s, shape), idx)
    ensures spread[0] == if Count(s[0], shape[0]) == 1 then 0 else idx[0]
    ensures spread[1..] == Broadcast(SelectedShape(s[1..], shape[1..]), idx[1..])
  {
    var all, rest := SelectedShape(s, shape), SelectedShape(s[1..], shape[1..]);
    assert all == [Count(s[0], shape[0])] + rest;
    assert all[1..] == rest;
    BroadcastOfCons(all, idx);
    spread := Broadcast(all, idx);
    assert spread[1..] == Broadcast(rest, idx[1..]);
  }

  lemma WithinOfCons(idx: Index, shape: Shape)
    requires idx != [] && shape != [] && idx[0] < shape[0] && Within(idx[1..], shape[1..])
    ensures Within(idx, shape)
  {
    assert forall i :: 0 < i < |idx| ==> idx[i] == idx[1..][i - 1] && shape[i] == shape[1..][i - 1];
  }

  lemma {:induction false} BroadcastSelectedSpan(sa: seq<Sel>, a: Shape, sb: seq<Sel>, b: Shape, idx: Index)
    requires Aligned(sa, a, sb, b) && Broadcasts(a, b) && sa != [] && sb[0].Span?
    requires Within(idx, SelectedShape(sb, b)) && idx != [] && Within(idx[1..], SelectedShape(sb[1..], b[1..]))
    requires |SelectedShape(sa[1..], a[1..])| == |idx| - 1
    requires Within(Broadcast(SelectedShape(sa[1..], a[1..]), idx[1..]), SelectedShape(sa[1..], a[1..]))
    requires Source(sa[1..], a[1..], Broadcast(SelectedShape(sa[1..], a[1..]), idx[1..]))
          == Broadcast(a[1..], Source(sb[1..], b[1..], idx[1..]))
    ensures |SelectedShape(sa, a)| == |idx| && Within(Broadcast(SelectedShape(sa, a), idx), SelectedShape(sa, a))
    ensures Source(sa, a, Broadcast(SelectedShape(sa, a), idx)) == Broadcast(a, Source(sb, b, idx))
  {
    assert AlignedAt(sa[0], a[0], sb[0], b[0]);
    assert a[0] == 1 || a[0] == b[0];
    BroadcastOfSource(a, sb, b, idx);
    var spread := SpreadOfSpan(sa, a, idx);
    AlignedSpan(sa[0], a[0], sb[0], b[0], idx[0]);
    assert SelectedShape(sa, a)[1..] == SelectedShape(sa[1..], a[1..]);
    WithinOfCons(spread, SelectedShape(sa, a));
    SourceOfSpan(sa, a, spread);
  }

  /** Selecting and broadcasting leading indices commute. */
  lemma {:induction false} BroadcastSelected(sa: seq<Sel>, a: Shape, sb: seq<Sel>, b: Shape, idx: Index)
    requires Aligned(sa, a, sb, b) && Broadcasts(a, b)
    requires Within(idx, SelectedShape(sb, b))
    ensures |SelectedShape(sa, a)| == |SelectedShape(sb, b)|
    ensures Within(Broadcast(SelectedShape(sa, a), idx), SelectedShape(sa, a))
    ensures Source(sa, a, Broadcast(SelectedShape(sa, a), idx)) == Broadcast(a, Source(sb, b, idx))
  {
    if sa != [] {
      assert AlignedAt(sa[0], a[0], sb[0], b[0]);
      if sb[0].Pick? {
        BroadcastSelected(sa[1..], a[1..], sb[1..], b[1..], idx);
        BroadcastSelectedPick(sa, a, sb, b, idx);
      } else {
        BroadcastSelected(sa[1..], a[1..], sb[1..], b[1..], idx[1..]);
        BroadcastSelectedSpan(sa, a, sb, b, idx);
      }
    }
  }

  lemma {:induction false} SelectedBroadcasts(sa: seq<Sel>, a: Shape, sb: seq<Sel>, b: Shape)
    requires Aligned(sa, a, sb, b) && Broadcasts(a, b)
    ensures Broadcasts(SelectedShape(sa, a), SelectedShape(sb, b))
  {
    if sa != [] {
      assert AlignedAt(sa[0], a[0], sb[0], b[0]);
      SelectedBroadcasts(sa[1..], a[1..], sb[1..], b[1..]);
    }
  }

  /** Index entries for the factors, as `__getitem__` splits them, and for the product. */
  datatype Split = Split(leadA: seq<Sel>, leadB: seq<Sel>, row: Sel, col: Sel) {
    ghost predicate Fits(l: Lora)
      requires l.WellFormed()
    {
      && Aligned(leadA, l.LeadA(), leadB, l.LeadB())
      && row.Span? && SelOk(row, l.Rows())
      && col.Span? && SelOk(col, l.Cols())
    }

    function ForA(): seq<Sel> { leadA + [WHOLE, col] }

    function ForB(): seq<Sel> { leadB + [row, WHOLE] }

    function ForDense(): seq<Sel> { leadB + [row, col] }
  }

  lemma PairSelected(x: Sel, y: Sel, n: nat, m: nat)
    requires x.Span? && y.Span? && SelOk(x, n) && SelOk(y, m)
    ensures SelsOk([x, y], [n, m]) && SelectedShape([x, y], [n, m]) == [Count(x, n), Count(y, m)]
  {
    assert [x, y][1..] == [y] && [n, m][1..] == [m];
    assert [y][1..] == [] && [m][1..] == [];
    assert SelectedShape([y], [m]) == [Count(y, m)] + SelectedShape([], []);
  }

  lemma PairSource(x: Sel, y: Sel, n: nat, m: nat, i: nat, j: nat)
    requires x.Span? && y.Span? && SelOk(x, n) && SelOk(y, m) && i < Count(x, n) && j < Count(y, m)
    ensures SelsOk([x, y], [n, m]) && Within([i, j], SelectedShape([x, y], [n, m]))
    ensures Source([x, y], [n, m], [i, j]) == [SpanPos(x, n, i), SpanPos(y, m, j)]
  {
    PairSelected(x, y, n, m);
    assert [x, y][1..] == [y] && [n, m][1..] == [m];
    assert [y][1..] == [] && [m][1..] == [] && [i, j][1..] == [j] && [j][1..] == [];
    assert Source([y], [m], [j]) == [SpanPos(y, m, j)] + Source([], [], []);
  }

  /** The shape of a selection whose last two entries are slices, and where its elements come from. */
  lemma SelectedPair(lead: seq<Sel>, shape: Shape, x: Sel, y: Sel, n: nat, m: nat, p: Index, i: nat, j: nat)
    requires SelsOk(lead, shape) && x.Span? && y.Span? && SelOk(x, n) && SelOk(y, m)
    requires Within(p, SelectedShape(lead, shape)) && i < Count(x, n) && j < Count(y, m)
    ensures SelsOk(lead + [x, y], shape + [n, m])
    ensures Within(p + [i, j], SelectedShape(lead + [x, y], shape + [n, m]))
    ensures Source(lead + [x, y], shape + [n, m], p + [i, j])
         == Source(lead, shape, p) + [SpanPos(x, n, i), SpanPos(y, m, j)]
  {
    PairSource(x, y, n, m, i, j);
    SourceOfConcat(lead, [x, y], shape, [n, m], p, [i, j]);
  }

  /** An element of a selection whose last two entries are slices. */
  lemma SelectPairAt(t: Tensor<real>, lead: seq<Sel>, shape: Shape, x: Sel, y: Sel, n: nat, m: nat,
                     p: Index, i: nat, j: nat)
    requires t.Valid() && t.shape == shape + [n, m]
    requires SelsOk(lead, shape) && x.Span? && y.Span? && SelOk(x, n) && SelOk(y, m)
    requires Within(p, SelectedShape(lead, shape)) && i < Count(x, n) && j < Count(y, m)
    ensures SelsOk(lead + [x, y], t.shape) && Within(p + [i, j], Select(t, lead + [x, y]).shape)
    ensures Within(Source(lead, shape, p) + [SpanPos(x, n, i), SpanPos(y, m, j)], t.shape)
    ensures At(Select(t, lead + [x, y]), p + [i, j])
         == At(t, Source(lead, shape, p) + [SpanPos(x, n, i), SpanPos(y, m, j)])
  {
    SelectedPair(lead, shape, x, y, n, m, p, i, j);
    SelectAt(t, lead + [x, y], p + [i, j]);
  }

  /** The factors after indexing. */
  function Selected(l: Lora, s: Split): (r: Lora)
    requires l.WellFormed() && s.Fits(l)
    ensures r.WellFormed() && r.Rank() == l.Rank()
    ensures r.a.shape == SelectedShape(s.leadA, l.LeadA()) + [l.Rank(), Count(s.col, l.Cols())]
    ensures r.b.shape == SelectedShape(s.leadB, l.LeadB()) + [Count(s.row, l.Rows()), l.Rank()]
  {
    assert l.a.shape == l.LeadA() + [l.Rank(), l.Cols()];
    assert l.b.shape == l.LeadB() + [l.Rows(), l.Rank()];
    PairSelected(WHOLE, s.col, l.Rank(), l.Cols());
    PairSelected(s.row, WHOLE, l.Rows(), l.Rank());
    SelectedShapeOfConcat(s.leadA, [WHOLE, s.col], l.LeadA(), [l.Rank(), l.Cols()]);
    SelectedShapeOfConcat(s.leadB, [s.row, WHOLE], l.LeadB(), [l.Rows(), l.Rank()]);
    SelectedBroadcasts(s.leadA, l.LeadA(), s.leadB, l.LeadB());
    var r := Lora(Select(l.a, s.ForA()), Select(l.b, s.ForB()));
    assert r.LeadA() == SelectedShape(s.leadA, l.LeadA());
    assert r.LeadB() == SelectedShape(s.leadB, l.LeadB());
    r
  }

  lemma SnocWithin(p: Index, i: nat, lead: Shape, n: nat, shape: Shape)
    requires Within(p, lead) && i < n && shape == lead + [n]
    ensures Within(p + [i], shape)
  {
  }

  lemma SelectedLead(l: Lora, s: Split, p: Index, i: nat)
    requires l.WellFormed() && s.Fits(l)
    requires Within(p, SelectedShape(s.leadB, l.LeadB())) && i < Count(s.row, l.Rows())
    ensures Within(p + [i], Selected(l, s).b.shape[..Selected(l, s).Dims() - 1])
    ensures Within(Source(s.leadB, l.LeadB(), p) + [SpanPos(s.row, l.Rows(), i)], l.b.shape[..l.Dims() - 1])
  {
    var from, row := Source(s.leadB, l.LeadB(), p), SpanPos(s.row, l.Rows(), i);
    SnocWithin(from, row, l.LeadB(), l.Rows(), l.b.shape[..l.Dims() - 1]);
    var shape := Selected(l, s).b.shape;
    SnocWithin(p, i, SelectedShape(s.leadB, l.LeadB()), Count(s.row, l.Rows()), shape[..|shape| - 1]);
  }

  lemma BAtIs(l: Lora, p: Index, i: nat, k: nat)
    requires l.Constructible() && Within(p + [i], l.b.shape[..l.Dims() - 1]) && k < l.Rank()
    ensures Within(p + [i, k], l.b.shape) && BAt(l, p + [i], k) == At(l.b, p + [i, k])
  {
    assert p + [i] + [k] == p + [i, k];
  }

  lemma SelectedB(l: Lora, s: Split, p: Index, i: nat, k: nat)
    requires l.WellFormed() && s.Fits(l)
    requires Within(p, SelectedShape(s.leadB, l.LeadB())) && i < Count(s.row, l.Rows()) && k < l.Rank()
    ensures Within(p + [i], Selected(l, s).b.shape[..Selected(l, s).Dims() - 1])
    ensures var from := Source(s.leadB, l.LeadB(), p) + [SpanPos(s.row, l.Rows(), i)];
            && Within(from, l.b.shape[..l.Dims() - 1])
            && BAt(Selected(l, s), p + [i], k) == BAt(l, from, k)
  {
    SelectedLead(l, s, p, i);
    SelectedElementOfB(l, s, p, i, k);
    BAtIs(Selected(l, s), p, i, k);
    BAtIs(l, Source(s.leadB, l.LeadB(), p), SpanPos(s.row, l.Rows(), i), k);
  }

  lemma SelectedElementOfB(l: Lora, s: Split, p: Index, i: nat, k: nat)
    requires l.Constructible() && SelsOk(s.leadB, l.LeadB()) && s.row.Span? && SelOk(s.row, l.Rows())
    requires Within(p, SelectedShape(s.leadB, l.LeadB())) && i < Count(s.row, l.Rows()) && k < l.Rank()
    ensures SelsOk(s.ForB(), l.b.shape) && Within(p + [i, k], Select(l.b, s.ForB()).shape)
    ensures var from := Source(s.leadB, l.LeadB(), p) + [SpanPos(s.row, l.Rows(), i), k];
            Within(from, l.b.shape) && At(Select(l.b, s.ForB()), p + [i, k]) == At(l.b, from)
  {
    assert l.b.shape == l.LeadB() + [l.Rows(), l.Rank()];
    assert SpanPos(WHOLE, l.Rank(), k) == k;
    SelectPairAt(l.b, s.leadB, l.LeadB(), s.row, WHOLE, l.Rows(), l.Rank(), p, i, k);
  }

  lemma SelectedRow(l: Lora, s: Split, p: Index, i: nat)
    requires l.WellFormed() && s.Fits(l)
    requires Within(p, SelectedShape(s.leadB, l.LeadB())) && i < Count(s.row, l.Rows())
    ensures Within(p + [i], Selected(l, s).b.shape[..Selected(l, s).Dims() - 1])
    ensures var from := Source(s.leadB, l.LeadB(), p) + [SpanPos(s.row, l.Rows(), i)];
            && Within(from, l.b.shape[..l.Dims() - 1])
            && RowOf(Selected(l, s), p + [i]) == RowOf(l, from)
  {
    var r, from := Selected(l, s), Source(s.leadB, l.LeadB(), p) + [SpanPos(s.row, l.Rows(), i)];
    SelectedLead(l, s, p, i);
    forall k: nat | k < l.Rank()
      ensures BAt(r, p + [i], k) == BAt(l, from, k)
    {
      SelectedB(l, s, p, i, k);
    }
    SameSeq(RowOf(r, p + [i]), RowOf(l, from));
  }

  lemma SameSeq(u: seq<real>, v: seq<real>)
    requires |u| == |v| && forall k :: 0 <= k < |u| ==> u[k] == v[k]
    ensures u == v
  {
  }

  lemma SelectedA(l: Lora, s: Split, q: Index, k: nat, j: nat)
    requires l.WellFormed() && s.Fits(l)
    requires Within(q, SelectedShape(s.leadA, l.LeadA())) && k < l.Rank() && j < Count(s.col, l.Cols())
    ensures Within(q, Selected(l, s).LeadA())
    ensures AAt(Selected(l, s), q, k, j)
         == AAt(l, Source(s.leadA, l.LeadA(), q), k, SpanPos(s.col, l.Cols(), j))
  {
    assert l.a.shape == l.LeadA() + [l.Rank(), l.Cols()];
    SelectPairAt(l.a, s.leadA, l.LeadA(), WHOLE, s.col, l.Rank(), l.Cols(), q, k, j);
    assert SpanPos(WHOLE, l.Rank(), k) == k;
  }

  lemma SelectedCol(l: Lora, s: Split, q: Index, j: nat)
    requires l.WellFormed() && s.Fits(l)
    requires Within(q, SelectedShape(s.leadA, l.LeadA())) && j < Count(s.col, l.Cols())
    ensures Within(q, Selected(l, s).LeadA())
    ensures ColOf(Selected(l, s), q, j)
         == ColOf(l, Source(s.leadA, l.LeadA(), q), SpanPos(s.col, l.Cols(), j))
  {
    var r, from := Selected(l, s), Source(s.leadA, l.LeadA(), q);
    assert r.LeadA() == SelectedShape(s.leadA, l.LeadA());
    forall k: nat | k < l.Rank()
      ensures AAt(r, q, k, j) == AAt(l, from, k, SpanPos(s.col, l.Cols(), j))
    {
      SelectedA(l, s, q, k, j);
    }
    SameSeq(ColOf(r, q, j), ColOf(l, from, SpanPos(s.col, l.Cols(), j)));
  }

  /** The product selected directly. */
  function SelectedDense(l: Lora, s: Split): (t: Tensor<real>)
    requires l.WellFormed() && s.Fits(l)
    ensures t.Valid() && t.shape == Selected(l, s).Shape()
    ensures SelsOk(s.ForDense(), l.Shape()) && t == Select(Dense(l), s.ForDense())
  {
    assert l.Shape() == l.LeadB() + [l.Rows(), l.Cols()];
    PairSelected(s.row, s.col, l.Rows(), l.Cols());
    SelectedShapeOfConcat(s.leadB, [s.row, s.col], l.LeadB(), [l.Rows(), l.Cols()]);
    Select(Dense(l), s.ForDense())
  }

  /** What both sides come to: the row and column of the original factors that the index points at. */
  function OriginalEntry(l: Lora, s: Split, p: Index, i: nat, j: nat): real
    requires l.WellFormed() && s.Fits(l)
    requires Within(p, SelectedShape(s.leadB, l.LeadB()))
    requires i < Count(s.row, l.Rows()) && j < Count(s.col, l.Cols())
  {
    var lead := Source(s.leadB, l.LeadB(), p);
    EntryAt(l, lead, SpanPos(s.row, l.Rows(), i), SpanPos(s.col, l.Cols(), j));
    Dot(RowOf(l, lead + [SpanPos(s.row, l.Rows(), i)]),
        ColOf(l, Broadcast(l.LeadA(), lead), SpanPos(s.col, l.Cols(), j)))
  }

  lemma DenseSelectedAt(l: Lora, lead: seq<Sel>, x: Sel, y: Sel, p: Index, i: nat, j: nat)
    requires l.WellFormed() && SelsOk(lead, l.LeadB())
    requires x.Span? && SelOk(x, l.Rows()) && y.Span? && SelOk(y, l.Cols())
    requires Within(p, SelectedShape(lead, l.LeadB())) && i < Count(x, l.Rows()) && j < Count(y, l.Cols())
    ensures SelsOk(lead + [x, y], l.Shape())
    ensures Within(p + [i, j], Select(Dense(l), lead + [x, y]).shape)
    ensures At(Select(Dense(l), lead + [x, y]), p + [i, j])
         == Entry(l, Source(lead, l.LeadB(), p) + [SpanPos(x, l.Rows(), i), SpanPos(y, l.Cols(), j)])
  {
    assert l.Shape() == l.LeadB() + [l.Rows(), l.Cols()];
    SelectPairAt(Dense(l), lead, l.LeadB(), x, y, l.Rows(), l.Cols(), p, i, j);
    DenseAt(l, Source(lead, l.LeadB(), p) + [SpanPos(x, l.Rows(), i), SpanPos(y, l.Cols(), j)]);
  }

  lemma SelectedDenseEntry(l: Lora, s: Split, p: Index, i: nat, j: nat)
    requires l.WellFormed() && s.Fits(l)
    requires Within(p, SelectedShape(s.leadB, l.LeadB()))
    requires i < Count(s.row, l.Rows()) && j < Count(s.col, l.Cols())
    ensures Within(p + [i, j], SelectedDense(l, s).shape)
    ensures At(SelectedDense(l, s), p + [i, j]) == OriginalEntry(l, s, p, i, j)
  {
    DenseSelectedAt(l, s.leadB, s.row, s.col, p, i, j);
    EntryAt(l, Source(s.leadB, l.LeadB(), p), SpanPos(s.row, l.Rows(), i), SpanPos(s.col, l.Cols(), j));
  }

  lemma SelectedFactorsEntry(l: Lora, s: Split, p: Index, i: nat, j: nat)
    requires l.WellFormed() && s.Fits(l)
    requires Within(p, SelectedShape(s.leadB, l.LeadB()))
    requires i < Count(s.row, l.Rows()) && j < Count(s.col, l.Cols())
    ensures Within(p + [i, j], Selected(l, s).Shape())
    ensures Entry(Selected(l, s), p + [i, j]) == OriginalEntry(l, s, p, i, j)
  {
    var r := Selected(l, s);
    assert r.LeadA() == SelectedShape(s.leadA, l.LeadA());
    assert r.LeadB() == SelectedShape(s.leadB, l.LeadB());
    EntryAt(r, p, i, j);
    BroadcastSelected(s.leadA, l.LeadA(), s.leadB, l.LeadB(), p);
    SelectedRow(l, s, p, i);
    SelectedCol(l, s, Broadcast(r.LeadA(), p), j);
  }

  /** Indexing the factors and multiplying is multiplying and indexing the product. */
  lemma SelectCommutes(l: Lora, s: Split)
    requires l.WellFormed() && s.Fits(l)
    ensures Dense(Selected(l, s)) == SelectedDense(l, s)
  {
    var r := Selected(l, s);
    forall idx | Within(idx, r.Shape())
      ensures At(SelectedDense(l, s), idx) == Entry(r, idx)
    {
      var p, i, j := SplitIndex(r, idx);
      assert r.LeadB() == SelectedShape(s.leadB, l.LeadB());
      SelectedDenseEntry(l, s, p, i, j);
      SelectedFactorsEntry(l, s, p, i, j);
    }
    DenseIs(SelectedDense(l, s), r);
  }

  // ----- __getitem__ itself -----

  datatype Indices = One(sel: Sel) | Tuple(sels: seq<Sel>)

  /** A's entry for a leading dimension: an integer wraps to A's size, a slice is not applied. */
  function EntryForA(sel: Sel, size: nat): Option<Sel> {
    if sel.Span? then Some(WHOLE)
    else if size == 0 then None
    else Some(Pick(sel.j % size))
  }

  function EntriesForA(sels: seq<Sel>, shape: Shape): (r: Option<seq<Sel>>)
    requires |sels| <= |shape|
    ensures r.Some? ==> |r.value| == |sels|
    ensures r.Some? ==> forall i :: 0 <= i < |sels| ==> EntryForA(sels[i], shape[i]) == Some(r.value[i])
  {
    if sels == [] then Some([])
    else
      var first, rest := EntryForA(sels[0], shape[0]), EntriesForA(sels[1..], shape[1..]);
      if first.None? || rest.None? then None else Some([first.value] + rest.value)
  }

  function MakeSome(a: Option<Tensor<real>>, b: Option<Tensor<real>>): Option<Lora> {
    if a.None? || b.None? then None else Make(a.value, b.value)
  }

  /** `LoraTorchTensor.__getitem__`; `None` stands for every exception. */
  function LoraGetItem(l: Lora, indices: Indices): (r: Option<Lora>)
    requires l.Constructible()
    ensures r.Some? ==> r.value.Constructible()
  {
    match indices
    case One(sel) =>
      if l.Dims() > 2 then MakeSome(GetItem(l.a, [sel]), GetItem(l.b, [sel]))
      else if sel.Pick? then None
      else MakeSome(Some(l.a), GetItem(l.b, [sel]))
    case Tuple(sels) =>
      if sels == [] || |sels| > l.Dims() then None
      else
        var s := SplitFor(l, sels);
        if s.None? then None
        else MakeSome(GetItem(l.a, s.value.ForA()), GetItem(l.b, s.value.leadB + [s.value.row]))
  }

  /** The tuple padded to all dimensions. */
  function Padded(l: Lora, sels: seq<Sel>): (all: seq<Sel>)
    requires l.Constructible() && |sels| <= l.Dims()
    ensures |all| == l.Dims()
  {
    sels + Wholes(l.Dims() - |sels|)
  }

  /** The padded tuple split into the entries of A and B; A gets all rows of its rank dimension. */
  function SplitFor(l: Lora, sels: seq<Sel>): (r: Option<Split>)
    requires l.Constructible() && |sels| <= l.Dims()
    ensures r.Some? ==> |r.value.leadA| == |r.value.leadB| == l.Dims() - 2
    ensures r.Some? ==> r.value.leadB + [r.value.row, r.value.col] == Padded(l, sels)
    ensures r.Some? ==> forall i :: 0 <= i < l.Dims() - 2 ==>
                          EntryForA(r.value.leadB[i], l.a.shape[i]) == Some(r.value.leadA[i])
  {
    var all := Padded(l, sels);
    var n := |all|;
    var leadForA := EntriesForA(all[..n - 2], l.a.shape);
    if leadForA.None? then None else Some(Split(leadForA.value, all[..n - 2], all[n - 2], all[n - 1]))
  }

  /** The same index tuple on a plain tensor. */
  function DenseSels(indices: Indices): seq<Sel> {
    match indices
    case One(sel) => [sel]
    case Tuple(sels) => sels
  }

  lemma GetItemIs<T>(t: Tensor<T>, sels: seq<Sel>, all: seq<Sel>)
    requires t.Valid() && |sels| <= |t.shape| == |all| && sels <= all
    requires forall i :: |sels| <= i < |all| ==> all[i] == WHOLE
    ensures GetItem(t, sels).Some? <==> SelsOk(all, t.shape)
    ensures GetItem(t, sels).Some? ==> GetItem(t, sels).value == Select(t, all)
  {
    assert all == sels + Wholes(|t.shape| - |sels|);
  }

  lemma SelsOkSplit(s: seq<Sel>, s': seq<Sel>, a: Shape, a': Shape)
    requires |s| == |a| && |s'| == |a'|
    ensures SelsOk(s + s', a + a') <==> SelsOk(s, a) && SelsOk(s', a')
  {
    if SelsOk(s + s', a + a') {
      assert forall i :: 0 <= i < |s| ==> (s + s')[i] == s[i] && (a + a')[i] == a[i];
      assert forall i :: 0 <= i < |s'| ==> (s + s')[|s| + i] == s'[i] && (a + a')[|a| + i] == a'[i];
    }
  }

  lemma DivisionKeepsAll(m: nat, step: nat, b: nat)
    requires step >= 1 && b >= 2 && m < b && m / step == b - 1
    ensures step == 1 && m == b - 1
  {
    assert m == m / step * step + m % step;
    MulDistributes(step - 1, 1, b - 1);
    MulMonotone(1, b - 1, step - 1);
  }

  /** A slice that keeps every position of a dimension of two or more keeps them in place. */
  lemma WholeSpan(y: Sel, b: nat)
    requires y.Span? && SelOk(y, b) && Count(y, b) == b >= 2
    ensures Low(y, b) == 0 && High(y, b) == b && y.step == 1
  {
    DivisionKeepsAll(High(y, b) - Low(y, b) - 1, y.step, b);
  }

  /** The two index tuples that `__getitem__` derives go together, dimension by dimension, exactly where A's
      dimension is shared or the slice takes everything. */
  lemma TupleEntryAligned(y: Sel, a: nat, b: nat)
    requires (a == 1 || a == b) && SelOk(y, b)
    requires EntryForA(y, a).Some? && (y.Span? ==> a == 1 || Count(y, b) == b)
    ensures AlignedAt(EntryForA(y, a).value, a, y, b)
  {
    if y.Span? && a != 1 && b >= 2 {
      WholeSpan(y, b);
    }
  }

  /** Slices in leading dimensions only where A's dimension is shared, or taking everything. */
  ghost predicate SharedWhereSliced(sels: seq<Sel>, leadA: Shape, leadB: Shape)
    requires |sels| == |leadA| == |leadB| && SelsOk(sels, leadB)
  {
    forall i :: 0 <= i < |sels| && sels[i].Span? ==> leadA[i] == 1 || Count(sels[i], leadB[i]) == leadB[i]
  }

  /** Rows and columns are sliced, not picked: a row or column alone has no factors. */
  predicate KeepsMatrix(l: Lora, sels: seq<Sel>)
    requires l.Constructible() && |sels| <= l.Dims()
  {
    var all := Padded(l, sels);
    all[|all| - 2].Span? && all[|all| - 1].Span?
  }

  /** What an accepted index says when its last two entries meet the last two dimensions. */
  lemma AcceptedPair<T>(t: Tensor<T>, sels: seq<Sel>, lead: seq<Sel>, x: Sel, y: Sel, shape: Shape, n: nat, m: nat)
    requires t.Valid() && t.shape == shape + [n, m] && |lead| == |shape|
    requires sels == lead + [x, y] || (y == WHOLE && sels == lead + [x])
    requires GetItem(t, sels).Some?
    ensures SelsOk(lead, shape) && SelOk(x, n) && SelOk(y, m) && SelsOk(lead + [x, y], t.shape)
    ensures GetItem(t, sels) == Some(Select(t, lead + [x, y]))
  {
    var all := lead + [x, y];
    GetItemIs(t, sels, all);
    SelsOkSplit(lead, [x, y], shape, [n, m]);
    assert SelOk([x, y][0], [n, m][0]) && SelOk([x, y][1], [n, m][1]);
  }

  /** The entries of an accepted tuple, and what accepting it says about them. */
  lemma TupleEntries(l: Lora, sels: seq<Sel>, s: Split)
    requires l.WellFormed() && |sels| <= l.Dims() && SplitFor(l, sels) == Some(s) && s.row.Span? && s.col.Span?
    requires LoraGetItem(l, Tuple(sels)).Some?
    ensures SelsOk(s.leadA, l.LeadA()) && SelsOk(s.leadB, l.LeadB())
    ensures SelOk(s.row, l.Rows()) && SelOk(s.col, l.Cols())
    ensures SelsOk(s.ForA(), l.a.shape) && SelsOk(s.ForB(), l.b.shape)
    ensures LoraGetItem(l, Tuple(sels)) == Make(Select(l.a, s.ForA()), Select(l.b, s.ForB()))
  {
    var a, b := GetItem(l.a, s.ForA()), GetItem(l.b, s.leadB + [s.row]);
    assert LoraGetItem(l, Tuple(sels)) == MakeSome(a, b);
    TupleEntriesA(l, s);
    TupleEntriesB(l, s);
  }

  lemma TupleEntriesA(l: Lora, s: Split)
    requires l.WellFormed() && |s.leadA| == l.Dims() - 2 && GetItem(l.a, s.ForA()).Some?
    ensures SelsOk(s.leadA, l.LeadA()) && SelOk(s.col, l.Cols()) && SelsOk(s.ForA(), l.a.shape)
    ensures GetItem(l.a, s.ForA()) == Some(Select(l.a, s.ForA()))
  {
    assert l.a.shape == l.LeadA() + [l.Rank(), l.Cols()];
    AcceptedPair(l.a, s.ForA(), s.leadA, WHOLE, s.col, l.LeadA(), l.Rank(), l.Cols());
  }

  lemma TupleEntriesB(l: Lora, s: Split)
    requires l.WellFormed() && |s.leadB| == l.Dims() - 2 && GetItem(l.b, s.leadB + [s.row]).Some?
    ensures SelsOk(s.leadB, l.LeadB()) && SelOk(s.row, l.Rows()) && SelsOk(s.ForB(), l.b.shape)
    ensures GetItem(l.b, s.leadB + [s.row]) == Some(Select(l.b, s.ForB()))
  {
    assert l.b.shape == l.LeadB() + [l.Rows(), l.Rank()];
    AcceptedPair(l.b, s.leadB + [s.row], s.leadB, s.row, WHOLE, l.LeadB(), l.Rows(), l.Rank());
  }

  /** If the selected leading dimensions still broadcast, slices were shared. */
  lemma {:induction false} BroadcastingWasShared(sa: seq<Sel>, a: Shape, sb: seq<Sel>, b: Shape)
    requires |sa| == |a| == |sb| == |b| && SelsOk(sa, a) && SelsOk(sb, b) && Broadcasts(a, b)
    requires forall i :: 0 <= i < |sb| ==> EntryForA(sb[i], a[i]) == Some(sa[i])
    requires Broadcasts(SelectedShape(sa, a), SelectedShape(sb, b))
    ensures SharedWhereSliced(sb, a, b)
  {
    if sb != [] {
      assert EntryForA(sb[0], a[0]) == Some(sa[0]);
      var ra, rb := SelectedShape(sa, a), SelectedShape(sb, b);
      if sb[0].Span? {
        assert ra[1..] == SelectedShape(sa[1..], a[1..]) && rb[1..] == SelectedShape(sb[1..], b[1..]);
        assert ra[0] == a[0] && rb[0] == Count(sb[0], b[0]);
      }
      BroadcastingWasShared(sa[1..], a[1..], sb[1..], b[1..]);
      assert forall i :: 0 < i < |sb| ==> sb[i] == sb[1..][i - 1] && a[i] == a[1..][i - 1] && b[i] == b[1..][i - 1];
    }
  }

  /** A tuple of slices and integers that keeps rows and columns, and slices leading dimensions only where A shares
      them or nothing is lost. */
  ghost predicate TupleSafe(l: Lora, sels: seq<Sel>)
    requires l.Constructible()
  {
    && |sels| <= l.Dims() && KeepsMatrix(l, sels)
    && var lead := Padded(l, sels)[..l.Dims() - 2];
       SelsOk(lead, l.LeadB()) && SharedWhereSliced(lead, l.LeadA(), l.LeadB())
  }

  /** An accepted index tuple that keeps rows and columns gives factors that can still be multiplied exactly when
      leading dimensions are sliced only where A shares them, and the product is then the indexed product. */
  lemma MatrixTupleCommutesIff(l: Lora, sels: seq<Sel>)
    requires l.WellFormed() && LoraGetItem(l, Tuple(sels)).Some? && KeepsMatrix(l, sels)
    ensures var r := LoraGetItem(l, Tuple(sels)).value;
            && (r.WellFormed() <==> TupleSafe(l, sels))
            && (r.WellFormed() ==> GetItem(Dense(l), sels) == Some(Dense(r)))
  {
    var s := SplitFor(l, sels).value;
    var r := LoraGetItem(l, Tuple(sels)).value;
    var all := Padded(l, sels);
    assert s.row == all[l.Dims() - 2] && s.col == all[l.Dims() - 1];
    TupleEntries(l, sels, s);
    assert all[..l.Dims() - 2] == s.leadB;
    if SharedWhereSliced(s.leadB, l.LeadA(), l.LeadB()) {
      forall i | 0 <= i < |s.leadA|
        ensures AlignedAt(s.leadA[i], l.LeadA()[i], s.leadB[i], l.LeadB()[i])
      {
        TupleEntryAligned(s.leadB[i], l.LeadA()[i], l.LeadB()[i]);
      }
      assert r == Selected(l, s);
      SelectCommutes(l, s);
      GetItemIs(Dense(l), sels, all);
    } else if r.WellFormed() {
      TupleLeads(l, s, r);
      BroadcastingWasShared(s.leadA, l.LeadA(), s.leadB, l.LeadB());
    }
  }

  // ----- tuples that pick a row and a column -----

  /** How many dimensions a selection keeps. */
  function Spans(sels: seq<Sel>): nat {
    if sels == [] then 0 else (if sels[0].Span? then 1 else 0) + Spans(sels[1..])
  }

  lemma {:induction false} SpansOfConcat(s: seq<Sel>, s': seq<Sel>)
    ensures Spans(s + s') == Spans(s) + Spans(s')
  {
    if s == [] {
      assert s + s' == s';
    } else {
      assert (s + s')[1..] == s[1..] + s';
      SpansOfConcat(s[1..], s');
    }
  }

  lemma {:induction false} SelectedDims(sels: seq<Sel>, shape: Shape)
    requires SelsOk(sels, shape)
    ensures |SelectedShape(sels, shape)| == Spans(sels)
  {
    if sels != [] {
      SelectedDims(sels[1..], shape[1..]);
    }
  }

  lemma DimsOfItem<T>(t: Tensor<T>, sels: seq<Sel>, all: seq<Sel>)
    requires t.Valid() && GetItem(t, sels).Some? && |sels| <= |t.shape| && all == sels + Wholes(|t.shape| - |sels|)
    ensures |GetItem(t, sels).value.shape| == Spans(all)
  {
    SelectedDims(all, t.shape);
  }

  lemma {:induction false} SpansForA(leadA: seq<Sel>, leadB: seq<Sel>, shape: Shape)
    requires |leadA| == |leadB| <= |shape|
    requires forall i :: 0 <= i < |leadB| ==> EntryForA(leadB[i], shape[i]) == Some(leadA[i])
    ensures Spans(leadA) == Spans(leadB)
  {
    if leadA != [] {
      assert EntryForA(leadB[0], shape[0]) == Some(leadA[0]);
      SpansForA(leadA[1..], leadB[1..], shape[1..]);
    }
  }

  lemma SpansOfPair(lead: seq<Sel>, x: Sel, y: Sel)
    ensures Spans(lead + [x, y]) == Spans(lead) + Spans([x]) + Spans([y])
    ensures Spans([WHOLE]) == 1
  {
    SpansOfConcat(lead, [x, y]);
    assert [x, y] == [x] + [y];
    SpansOfConcat([x], [y]);
    assert [WHOLE][1..] == [] && Spans([WHOLE]) == 1 + Spans([]);
  }

  lemma DimsOfPair<T>(t: Tensor<T>, sels: seq<Sel>, lead: seq<Sel>, x: Sel, y: Sel)
    requires t.Valid() && |t.shape| == |lead| + 2 && GetItem(t, sels).Some?
    requires sels == lead + [x, y] || (y == WHOLE && sels == lead + [x])
    ensures |GetItem(t, sels).value.shape| == Spans(lead) + Spans([x]) + Spans([y])
  {
    var all := lead + [x, y];
    assert sels + Wholes(|t.shape| - |sels|) == all;
    DimsOfItem(t, sels, all);
    SpansOfPair(lead, x, y);
  }

  /** The dimensions of an accepted tuple's factors. */
  lemma DimsOfTuple(l: Lora, s: Split, a: Tensor<real>, b: Tensor<real>)
    requires l.WellFormed() && |s.leadA| == |s.leadB| == l.Dims() - 2
    requires forall i :: 0 <= i < |s.leadB| ==> EntryForA(s.leadB[i], l.a.shape[i]) == Some(s.leadA[i])
    requires GetItem(l.a, s.ForA()) == Some(a) && GetItem(l.b, s.leadB + [s.row]) == Some(b)
    ensures |a.shape| == Spans(s.leadB) + 1 + Spans([s.col])
    ensures |b.shape| == Spans(s.leadB) + Spans([s.row]) + 1
  {
    SpansForA(s.leadA, s.leadB, l.a.shape);
    DimsOfPair(l.a, s.ForA(), s.leadA, WHOLE, s.col);
    DimsOfPair(l.b, s.leadB + [s.row], s.leadB, s.row, WHOLE);
    SpansOfPair(s.leadB, s.row, s.col);
  }

  /** Factors never lose their last dimensions, so that an index that picks a row and a column is not followed. */
  lemma FollowedKeepsMatrix(l: Lora, sels: seq<Sel>, r: Lora)
    requires l.WellFormed() && LoraGetItem(l, Tuple(sels)) == Some(r) && r.WellFormed()
    requires GetItem(Dense(l), sels) == Some(Dense(r))
    ensures KeepsMatrix(l, sels)
  {
    var s := SplitFor(l, sels).value;
    DimsOfTuple(l, s, r.a, r.b);
    DimsOfItem(Dense(l), sels, Padded(l, sels));
    SpansOfPair(s.leadB, s.row, s.col);
    assert Padded(l, sels)[l.Dims() - 2] == s.row && Padded(l, sels)[l.Dims() - 1] == s.col;
  }

  /** Of all accepted index tuples, exactly these index the product. */
  lemma TupleCommutesIff(l: Lora, sels: seq<Sel>)
    requires l.WellFormed() && LoraGetItem(l, Tuple(sels)).Some?
    ensures var r := LoraGetItem(l, Tuple(sels)).value;
            r.WellFormed() && GetItem(Dense(l), sels) == Some(Dense(r)) <==> TupleSafe(l, sels)
  {
    var r := LoraGetItem(l, Tuple(sels)).value;
    if KeepsMatrix(l, sels) {
      MatrixTupleCommutesIff(l, sels);
    } else if r.WellFormed() && GetItem(Dense(l), sels) == Some(Dense(r)) {
      FollowedKeepsMatrix(l, sels, r);
    }
  }

  /** Such indexes are accepted where a leading dimension of A has the size of the rank: here all are 1. */
  lemma RowAndColumnAccepted(x: real, y: real)
    ensures var l, sels := Lora(Tensor([1, 1, 1], [x]), Tensor([1, 1, 1], [y])), [WHOLE, Pick(0), Pick(0)];
            l.WellFormed() && LoraGetItem(l, Tuple(sels)).Some? && !KeepsMatrix(l, sels)
  {
    OnesValid(x);
    OnesValid(y);
    var l, sels := Lora(Tensor([1, 1, 1], [x]), Tensor([1, 1, 1], [y])), [WHOLE, Pick(0), Pick(0)];
    OnesSplit(l, sels);
    OnesItem(l.a, [WHOLE] + [WHOLE, Pick(0)], [WHOLE, WHOLE, Pick(0)]);
    OnesItem(l.b, [WHOLE] + [Pick(0)], [WHOLE, Pick(0), WHOLE]);
    assert sels + Wholes(0) == sels;
  }

  lemma OnesValid(x: real)
    ensures Tensor([1, 1, 1], [x]).Valid()
  {
    var shape: Shape := [1, 1, 1];
    assert shape[1..] == [1, 1] && [1, 1][1..] == [1] && [1][1..] == [];
    assert Prod([1]) == 1 * Prod([]) && Prod([1, 1]) == 1 * Prod([1]) && Prod(shape) == 1 * Prod([1, 1]);
  }

  lemma OnesSplit(l: Lora, sels: seq<Sel>)
    requires l.Constructible() && l.a.shape == [1, 1, 1] && sels == [WHOLE, Pick(0), Pick(0)]
    ensures SplitFor(l, sels) == Some(Split([WHOLE], [WHOLE], Pick(0), Pick(0)))
  {
    var all := Padded(l, sels);
    assert all == sels && all[..1] == [WHOLE];
    assert [WHOLE][1..] == [] && EntriesForA([], l.a.shape[1..]) == Some([]) && [WHOLE] + [] == [WHOLE];
    assert EntriesForA([WHOLE], l.a.shape) == Some([WHOLE] + []);
  }

  lemma OnesItem(t: Tensor<real>, sels: seq<Sel>, all: seq<Sel>)
    requires t.Valid() && t.shape == [1, 1, 1] && |sels| <= 3 && all == sels + Wholes(3 - |sels|)
    requires all == [WHOLE, WHOLE, Pick(0)] || all == [WHOLE, Pick(0), WHOLE]
    ensures GetItem(t, sels).Some? && GetItem(t, sels).value.shape == [1, 1]
  {
    OnesSelected();
  }

  lemma OnesSelected()
    ensures SelectedShape([WHOLE, WHOLE, Pick(0)], [1, 1, 1]) == [1, 1]
    ensures SelectedShape([WHOLE, Pick(0), WHOLE], [1, 1, 1]) == [1, 1]
  {
    assert Count(WHOLE, 1) == 1;
    var a, b := [WHOLE, WHOLE, Pick(0)], [WHOLE, Pick(0), WHOLE];
    assert a[1..] == [WHOLE, Pick(0)] && [WHOLE, Pick(0)][1..] == [Pick(0)] && [Pick(0)][1..] == [];
    assert b[1..] == [Pick(0), WHOLE] && [Pick(0), WHOLE][1..] == [WHOLE] && [WHOLE][1..] == [];
    assert [1, 1, 1][1..] == [1, 1] && [1, 1][1..] == [1] && [1][1..] == [];
    assert SelectedShape([Pick(0)], [1]) == SelectedShape([], []);
    assert SelectedShape([WHOLE], [1]) == [1] + SelectedShape([], []);
  }

  lemma TupleLeads(l: Lora, s: Split, r: Lora)
    requires l.WellFormed() && r.Constructible()
    requires SelsOk(s.leadA, l.LeadA()) && SelsOk(s.leadB, l.LeadB())
    requires s.row.Span? && SelOk(s.row, l.Rows()) && s.col.Span? && SelOk(s.col, l.Cols())
    requires SelsOk(s.ForA(), l.a.shape) && SelsOk(s.ForB(), l.b.shape)
    requires r == Lora(Select(l.a, s.ForA()), Select(l.b, s.ForB()))
    ensures r.LeadA() == SelectedShape(s.leadA, l.LeadA()) && r.LeadB() == SelectedShape(s.leadB, l.LeadB())
  {
    assert l.a.shape == l.LeadA() + [l.Rank(), l.Cols()];
    assert l.b.shape == l.LeadB() + [l.Rows(), l.Rank()];
    PairSelected(WHOLE, s.col, l.Rank(), l.Cols());
    PairSelected(s.row, WHOLE, l.Rows(), l.Rank());
    SelectedShapeOfConcat(s.leadA, [WHOLE, s.col], l.LeadA(), [l.Rank(), l.Cols()]);
    SelectedShapeOfConcat(s.leadB, [s.row, WHOLE], l.LeadB(), [l.Rows(), l.Rank()]);
  }

  /** A single slice or integer indexes both factors when there are leading dimensions. */
  predicate FirstShared(sel: Sel, a: nat, b: nat)
    requires SelOk(sel, a) && SelOk(sel, b)
  {
    sel.Pick? || a == b || Count(sel, a) == 1 || Count(sel, b) == 0
  }

  /** What an accepted single index says about a tensor with leading dimensions. */
  lemma AcceptedFirst<T>(t: Tensor<T>, sel: Sel, lead: seq<Sel>, shape: Shape, n: nat, m: nat)
    requires t.Valid() && t.shape == shape + [n, m] && shape != [] && lead == [sel] + Wholes(|shape| - 1)
    requires GetItem(t, [sel]).Some?
    ensures SelsOk(lead, shape) && SelOk(sel, shape[0]) && SelsOk(lead + [WHOLE, WHOLE], t.shape)
    ensures GetItem(t, [sel]) == Some(Select(t, lead + [WHOLE, WHOLE]))
  {
    GetItemIs(t, [sel], lead + [WHOLE, WHOLE]);
    SelsOkSplit(lead, [WHOLE, WHOLE], shape, [n, m]);
    assert lead[0] == sel;
  }

  lemma FirstEntries(l: Lora, sel: Sel, s: Split)
    requires l.WellFormed() && l.Dims() > 2 && LoraGetItem(l, One(sel)).Some?
    requires s == Split([sel] + Wholes(l.Dims() - 3), [sel] + Wholes(l.Dims() - 3), WHOLE, WHOLE)
    ensures SelsOk(s.leadA, l.LeadA()) && SelsOk(s.leadB, l.LeadB())
    ensures SelOk(sel, l.LeadA()[0]) && SelOk(sel, l.LeadB()[0])
    ensures SelsOk(s.ForA(), l.a.shape) && SelsOk(s.ForB(), l.b.shape)
    ensures LoraGetItem(l, One(sel)) == Make(Select(l.a, s.ForA()), Select(l.b, s.ForB()))
  {
    assert LoraGetItem(l, One(sel)) == MakeSome(GetItem(l.a, [sel]), GetItem(l.b, [sel]));
    FirstEntriesA(l, sel, s);
    FirstEntriesB(l, sel, s);
  }

  lemma FirstEntriesA(l: Lora, sel: Sel, s: Split)
    requires l.WellFormed() && l.Dims() > 2 && GetItem(l.a, [sel]).Some?
    requires s.leadA == [sel] + Wholes(l.Dims() - 3) && s.col == WHOLE
    ensures SelsOk(s.leadA, l.LeadA()) && SelOk(sel, l.LeadA()[0]) && SelsOk(s.ForA(), l.a.shape)
    ensures GetItem(l.a, [sel]) == Some(Select(l.a, s.ForA()))
  {
    assert l.a.shape == l.LeadA() + [l.Rank(), l.Cols()];
    AcceptedFirst(l.a, sel, s.leadA, l.LeadA(), l.Rank(), l.Cols());
  }

  lemma FirstEntriesB(l: Lora, sel: Sel, s: Split)
    requires l.WellFormed() && l.Dims() > 2 && GetItem(l.b, [sel]).Some?
    requires s.leadB == [sel] + Wholes(l.Dims() - 3) && s.row == WHOLE
    ensures SelsOk(s.leadB, l.LeadB()) && SelOk(sel, l.LeadB()[0]) && SelsOk(s.ForB(), l.b.shape)
    ensures GetItem(l.b, [sel]) == Some(Select(l.b, s.ForB()))
  {
    assert l.b.shape == l.LeadB() + [l.Rows(), l.Rank()];
    AcceptedFirst(l.b, sel, s.leadB, l.LeadB(), l.Rows(), l.Rank());
  }

  /** The entries of one index go together when the first dimension does not show it. */
  lemma FirstFits(l: Lora, sel: Sel, s: Split)
    requires l.WellFormed() && l.Dims() > 2
    requires s == Split([sel] + Wholes(l.Dims() - 3), [sel] + Wholes(l.Dims() - 3), WHOLE, WHOLE)
    requires SelsOk(s.leadA, l.LeadA()) && SelsOk(s.leadB, l.LeadB())
    requires SelOk(sel, l.LeadA()[0]) && SelOk(sel, l.LeadB()[0]) && FirstShared(sel, l.LeadA()[0], l.LeadB()[0])
    ensures s.Fits(l)
  {
    forall i | 0 <= i < |s.leadA|
      ensures AlignedAt(s.leadA[i], l.LeadA()[i], s.leadB[i], l.LeadB()[i])
    {
    }
  }

  /** Indexing by one slice or integer gives factors that can be multiplied exactly when the first dimension is
      not shared by A or the slice does not show it, and the product is then the indexed product. */
  lemma FirstCommutesIff(l: Lora, sel: Sel)
    requires l.WellFormed() && l.Dims() > 2 && LoraGetItem(l, One(sel)).Some?
    ensures var r := LoraGetItem(l, One(sel)).value;
            && SelOk(sel, l.LeadA()[0]) && SelOk(sel, l.LeadB()[0])
            && (r.WellFormed() <==> FirstShared(sel, l.LeadA()[0], l.LeadB()[0]))
            && (r.WellFormed() ==> GetItem(Dense(l), [sel]) == Some(Dense(r)))
  {
    var rest := Wholes(l.Dims() - 3);
    var s := Split([sel] + rest, [sel] + rest, WHOLE, WHOLE);
    FirstEntries(l, sel, s);
    var r := LoraGetItem(l, One(sel)).value;
    if FirstShared(sel, l.LeadA()[0], l.LeadB()[0]) {
      FirstFits(l, sel, s);
      FirstCommutes(l, sel, s, r);
    } else {
      FirstDiffers(l, sel, s, r);
    }
  }

  lemma FirstCommutes(l: Lora, sel: Sel, s: Split, r: Lora)
    requires l.WellFormed() && l.Dims() > 2 && s.Fits(l)
    requires s == Split([sel] + Wholes(l.Dims() - 3), [sel] + Wholes(l.Dims() - 3), WHOLE, WHOLE)
    requires r == Selected(l, s)
    ensures r.WellFormed() && GetItem(Dense(l), [sel]) == Some(Dense(r))
  {
    SelectCommutes(l, s);
    GetItemIs(Dense(l), [sel], s.ForDense());
  }

  lemma FirstDiffers(l: Lora, sel: Sel, s: Split, r: Lora)
    requires l.WellFormed() && l.Dims() > 2 && r.Constructible()
    requires s == Split([sel] + Wholes(l.Dims() - 3), [sel] + Wholes(l.Dims() - 3), WHOLE, WHOLE)
    requires SelsOk(s.leadA, l.LeadA()) && SelsOk(s.leadB, l.LeadB())
    requires SelsOk(s.ForA(), l.a.shape) && SelsOk(s.ForB(), l.b.shape)
    requires r == Lora(Select(l.a, s.ForA()), Select(l.b, s.ForB()))
    requires SelOk(sel, l.LeadA()[0]) && SelOk(sel, l.LeadB()[0]) && !FirstShared(sel, l.LeadA()[0], l.LeadB()[0])
    ensures !Broadcasts(r.LeadA(), r.LeadB())
  {
    TupleLeads(l, s, r);
    assert r.LeadA()[0] == Count(sel, l.LeadA()[0]) && r.LeadB()[0] == Count(sel, l.LeadB()[0]);
  }

  lemma RowsAccepted(l: Lora, sel: Sel, s: Split)
    requires l.WellFormed() && l.Dims() == 2 && LoraGetItem(l, One(sel)).Some? && s == Split([], [], sel, WHOLE)
    ensures s.Fits(l) && LoraGetItem(l, One(sel)) == Some(Selected(l, s))
  {
    assert l.b.shape == [] + [l.Rows(), l.Rank()];
    AcceptedPair(l.b, [sel], [], sel, WHOLE, [], l.Rows(), l.Rank());
    assert s.ForA() == Wholes(2);
    SelectWholes(l.a);
    assert s.ForB() == [] + [sel, WHOLE];
  }

  lemma RowsSelected(l: Lora, sel: Sel, s: Split, r: Lora)
    requires l.WellFormed() && l.Dims() == 2 && s.Fits(l) && s == Split([], [], sel, WHOLE) && r == Selected(l, s)
    ensures r.WellFormed() && GetItem(Dense(l), [sel]) == Some(Dense(r))
  {
    SelectCommutes(l, s);
    GetItemIs(Dense(l), [sel], s.ForDense());
  }

  /** Without leading dimensions a slice takes rows of B. */
  lemma RowsCommute(l: Lora, sel: Sel)
    requires l.WellFormed() && l.Dims() == 2 && LoraGetItem(l, One(sel)).Some?
    ensures var r := LoraGetItem(l, One(sel)).value;
            r.WellFormed() && GetItem(Dense(l), [sel]) == Some(Dense(r))
  {
    var s := Split([], [], sel, WHOLE);
    RowsAccepted(l, sel, s);
    RowsSelected(l, sel, s, LoraGetItem(l, One(sel)).value);
  }
}
