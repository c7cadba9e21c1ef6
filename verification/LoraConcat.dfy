/** Which lists of factored tensors can be concatenated (llama.cpp/convert_lora_to_gguf.py:205-220). */
module LoraConcat {
  import opened Wrappers
  import opened Tensors
  import opened LoraTensor
  import opened LoraJoin

  /** The first dimensions added up. */
  function FirstSum<T>(ts: seq<Tensor<T>>): nat {
    if ts == [] then 0 else (if ts[0].shape == [] then 0 else ts[0].shape[0]) + FirstSum(ts[1..])
  }

  ghost predicate SameTail(s: Shape, t: Shape) {
    s != [] && t != [] && s[1..] == t[1..]
  }

  lemma {:induction false} CatShape<T>(ts: seq<Tensor<T>>)
    requires ts != [] && (forall t :: t in ts ==> t.Valid()) && Cat(ts).Some?
    ensures SameTail(Cat(ts).value.shape, ts[0].shape) && Cat(ts).value.shape[0] == FirstSum(ts)
    ensures forall i :: 0 <= i < |ts| ==> SameTail(ts[i].shape, ts[0].shape)
    decreases |ts|
  {
    if |ts| > 1 {
      CatShape(ts[1..]);
      forall i | 0 < i < |ts| ensures SameTail(ts[i].shape, ts[0].shape) {
        assert SameTail(ts[1..][i - 1].shape, ts[1].shape);
      }
    } else {
      assert FirstSum(ts[1..]) == 0;
    }
  }

  /** Torch concatenates tensors that agree in all dimensions but the first. */
  lemma {:induction false} CatAcceptedIff<T>(ts: seq<Tensor<T>>)
    requires forall t :: t in ts ==> t.Valid()
    ensures Cat(ts).Some? <==> ts != [] && forall i :: 0 <= i < |ts| ==> SameTail(ts[i].shape, ts[0].shape)
    decreases |ts|
  {
    if ts != [] && Cat(ts).Some? {
      CatShape(ts);
    }
    if |ts| > 1 && forall i :: 0 <= i < |ts| ==> SameTail(ts[i].shape, ts[0].shape) {
      var rest := ts[1..];
      assert forall i :: 0 <= i < |rest| ==> rest[i] == ts[i + 1];
      assert SameTail(ts[1].shape, ts[0].shape);
      CatAcceptedIff(rest);
      CatShape(rest);
    }
  }

  lemma CatShapes(ls: seq<Lora>, r: Lora)
    requires AllConstructible(ls) && LoraCat(ls) == Some(r) && ls[0].Dims() > 2
    ensures SameTail(r.a.shape, ls[0].a.shape) && r.a.shape[0] == FirstSum(FactorsA(ls))
    ensures SameTail(r.b.shape, ls[0].b.shape) && r.b.shape[0] == FirstSum(FactorsB(ls))
    ensures forall i :: 0 <= i < |ls| ==> ls[i].Dims() == ls[0].Dims()
  {
    CatShape(FactorsA(ls));
    CatShape(FactorsB(ls));
    forall i | 0 <= i < |ls| ensures ls[i].Dims() == ls[0].Dims() {
      assert SameTail(FactorsA(ls)[i].shape, FactorsA(ls)[0].shape);
    }
  }

  lemma LeadsBroadcastIff(l: Lora, r: Lora)
    requires l.WellFormed() && r.Constructible() && l.Dims() > 2
    requires SameTail(r.a.shape, l.a.shape) && SameTail(r.b.shape, l.b.shape)
    ensures r.WellFormed() <==> r.a.shape[0] == 1 || r.a.shape[0] == r.b.shape[0]
  {
    SameTails(r.a.shape, l.a.shape);
    SameTails(r.b.shape, l.b.shape);
    if r.a.shape[0] == 1 || r.a.shape[0] == r.b.shape[0] {
      forall i | 0 <= i < |r.LeadA()| ensures r.LeadA()[i] == 1 || r.LeadA()[i] == r.LeadB()[i] {
        assert l.LeadA()[i] == 1 || l.LeadA()[i] == l.LeadB()[i];
      }
    } else {
      assert r.LeadA()[0] != 1 && r.LeadA()[0] != r.LeadB()[0];
    }
  }

  /** The concatenated factors can be multiplied exactly when the first dimensions of A add up to 1 or to those of B. */
  lemma CatWellFormedIff(ls: seq<Lora>)
    requires AllWellFormed(ls) && LoraCat(ls).Some? && ls[0].Dims() > 2
    ensures var a, b := FirstSum(FactorsA(ls)), FirstSum(FactorsB(ls));
            LoraCat(ls).value.WellFormed() <==> a == 1 || a == b
  {
    CatShapes(ls, LoraCat(ls).value);
    LeadsBroadcastIff(ls[0], LoraCat(ls).value);
  }

  // ----- what is accepted -----

  ghost predicate TailsAgree(ts: seq<Tensor<real>>) {
    ts != [] && forall i :: 0 <= i < |ts| ==> SameTail(ts[i].shape, ts[0].shape)
  }

  /** Concatenation is refused only where torch refuses that of a factor, or matrices have different A. */
  lemma ConcatAcceptedIff(ls: seq<Lora>)
    requires AllConstructible(ls)
    ensures LoraCat(ls).Some? <==>
            && ls != []
            && (if ls[0].Dims() > 2 then TailsAgree(FactorsA(ls)) && TailsAgree(FactorsB(ls))
                else (forall i :: 0 <= i < |ls| ==> ls[i].a == ls[0].a) && TailsAgree(FactorsB(ls)))
  {
    if ls != [] {
      CatAcceptedIff(FactorsA(ls));
      CatAcceptedIff(FactorsB(ls));
      if Cat(FactorsB(ls)).Some? {
        CatShape(FactorsB(ls));
        SameTails(Cat(FactorsB(ls)).value.shape, ls[0].b.shape);
      }
      if Cat(FactorsA(ls)).Some? {
        CatShape(FactorsA(ls));
        SameTails(Cat(FactorsA(ls)).value.shape, ls[0].a.shape);
      }
    }
  }

  lemma StackedShapes(ts: seq<Tensor<real>>)
    requires forall i :: 0 <= i < |ts| ==> ts[i].Valid()
    ensures forall t :: t in Unsqueezed(ts) ==> t.Valid()
    ensures Cat(Unsqueezed(ts)).Some? <==> ts != [] && forall i :: 0 <= i < |ts| ==> ts[i].shape == ts[0].shape
    ensures Cat(Unsqueezed(ts)).Some? ==> SameTail(Cat(Unsqueezed(ts)).value.shape, [1] + ts[0].shape)
  {
    var us := Unsqueezed(ts);
    CatAcceptedIff(us);
    forall i | 0 <= i < |ts| ensures SameTail(us[i].shape, us[0].shape) <==> ts[i].shape == ts[0].shape {
      assert us[i].shape[1..] == ts[i].shape && us[0].shape[1..] == ts[0].shape;
    }
    if Cat(us).Some? {
      CatShape(us);
    }
  }

  /** Stacking is refused only to tensors whose factors differ in shape. */
  lemma StackAcceptedIff(ls: seq<Lora>)
    requires AllConstructible(ls)
    ensures LoraStack(ls).Some? <==>
            ls != [] && forall i :: 0 <= i < |ls| ==> ls[i].a.shape == ls[0].a.shape && ls[i].b.shape == ls[0].b.shape
  {
    StackIs(FactorsA(ls));
    StackIs(FactorsB(ls));
    StackedShapes(FactorsA(ls));
    StackedShapes(FactorsB(ls));
    var a, b := Stack(FactorsA(ls)), Stack(FactorsB(ls));
    if a.Some? && b.Some? {
      SameTails(a.value.shape, [1] + ls[0].a.shape);
      SameTails(b.value.shape, [1] + ls[0].b.shape);
    }
  }

  // ----- one A for all -----

  lemma JoinWithEmpty<T>(t: Tensor<T>, u: Tensor<T>)
    requires t.Valid() && u.Valid() && Joinable(t, u)
    ensures t.shape[0] == 0 ==> Join(t, u) == u
    ensures u.shape[0] == 0 ==> Join(t, u) == t
  {
    assert t.shape == [t.shape[0]] + t.shape[1..] && u.shape == [u.shape[0]] + u.shape[1..];
    if t.shape[0] == 0 {
      assert t.data == [];
    }
    if u.shape[0] == 0 {
      assert u.data == [];
    }
  }

  lemma ProductsJoin(l: Lora, m: Lora)
    requires l.WellFormed() && m.WellFormed() && l.Dims() > 2
    requires Joinable(l.a, m.a) && Joinable(l.b, m.b)
    ensures Joinable(Dense(l), Dense(m)) && l.Shape()[0] == l.b.shape[0] && m.Shape()[0] == m.b.shape[0]
  {
    SameTails(l.a.shape, m.a.shape);
    SameTails(l.b.shape, m.b.shape);
    assert l.Shape()[1..] == m.Shape()[1..];
  }

  lemma OwnFirstIf(l: Lora)
    requires l.WellFormed() && l.Dims() > 2 && l.a.shape[0] != 1
    ensures OwnFirst(l) && l.b.shape[0] == l.a.shape[0]
  {
    assert l.LeadA()[0] == l.a.shape[0] && l.LeadB()[0] == l.b.shape[0];
  }

  lemma {:induction false} EmptiesAreOwnFirst(ls: seq<Lora>)
    requires AllWellFormed(ls) && (forall i :: 0 <= i < |ls| ==> ls[i].Dims() > 2) && FirstSum(FactorsA(ls)) == 0
    ensures forall i :: 0 <= i < |ls| ==> OwnFirst(ls[i])
  {
    if ls != [] {
      TailOfProducts(ls);
      OwnFirstIf(ls[0]);
      EmptiesAreOwnFirst(ls[1..]);
      assert forall i :: 0 < i < |ls| ==> ls[i] == ls[1..][i - 1];
    }
  }

  /** All first dimensions of A being 0 but one, the others are of tensors with no elements. */
  lemma {:induction false} CatOneCommutes(ls: seq<Lora>)
    requires ls != [] && AllWellFormed(ls) && (forall i :: 0 <= i < |ls| ==> ls[i].Dims() > 2)
    requires FirstSum(FactorsA(ls)) == 1 && Cat(FactorsA(ls)).Some? && Cat(FactorsB(ls)).Some?
    ensures var r := Lora(Cat(FactorsA(ls)).value, Cat(FactorsB(ls)).value);
            r.WellFormed() && Cat(Products(ls)) == Some(Dense(r))
    decreases |ls|
  {
    if |ls| > 1 {
      var l, rest := ls[0], ls[1..];
      TailOfProducts(ls);
      if l.a.shape[0] == 1 {
        EmptiesAreOwnFirst(rest);
        CatLeadingCommutes(rest);
        CatShape(FactorsA(rest));
      } else {
        OwnFirstIf(l);
        CatOneCommutes(rest);
      }
      var m := Lora(Cat(FactorsA(rest)).value, Cat(FactorsB(rest)).value);
      EmptySide(l, m);
    } else {
      assert Lora(FactorsA(ls)[0], FactorsB(ls)[0]) == ls[0];
    }
  }

  /** One of two tensors has no elements, and neither has its product. */
  lemma EmptySide(l: Lora, m: Lora)
    requires l.WellFormed() && m.WellFormed() && l.Dims() > 2 && Joinable(l.a, m.a) && Joinable(l.b, m.b)
    requires (l.a.shape[0] == 0 == l.b.shape[0]) || (m.a.shape[0] == 0 == m.b.shape[0])
    ensures Joinable(Dense(l), Dense(m))
    ensures var r := Lora(Join(l.a, m.a), Join(l.b, m.b)); r.WellFormed() && Join(Dense(l), Dense(m)) == Dense(r)
  {
    ProductsJoin(l, m);
    JoinWithEmpty(l.a, m.a);
    JoinWithEmpty(l.b, m.b);
    JoinWithEmpty(Dense(l), Dense(m));
  }

  // ----- when concatenation is right -----

  /** Without leading dimensions always; with them when every A has B's own first dimension, or one A is all there is. */
  ghost predicate CatSafe(ls: seq<Lora>)
    requires AllConstructible(ls)
  {
    && ls != []
    && (ls[0].Dims() > 2 ==> FirstSum(FactorsA(ls)) == 1 || forall i :: 0 <= i < |ls| ==> OwnFirst(ls[i]))
  }

  /** Concatenating the factors and multiplying is multiplying and concatenating the products. */
  lemma CatCommutes(ls: seq<Lora>)
    requires AllWellFormed(ls) && LoraCat(ls).Some? && CatSafe(ls)
    ensures LoraCat(ls).value.WellFormed() && Cat(Products(ls)) == Some(Dense(LoraCat(ls).value))
  {
    if ls[0].Dims() == 2 {
      CatRowsCommutes(ls);
    } else if FirstSum(FactorsA(ls)) == 1 {
      CatShapes(ls, LoraCat(ls).value);
      CatOneCommutes(ls);
    } else {
      CatLeadingCommutes(ls);
    }
  }

  lemma {:induction false} FirstSums(ls: seq<Lora>)
    requires AllWellFormed(ls) && forall i :: 0 <= i < |ls| ==> ls[i].Dims() > 2 && ls[i].b.shape[0] > 0
    ensures |ls| <= FirstSum(FactorsA(ls)) <= FirstSum(FactorsB(ls))
    ensures FirstSum(FactorsA(ls)) == FirstSum(FactorsB(ls)) <==> forall i :: 0 <= i < |ls| ==> OwnFirst(ls[i])
  {
    if ls != [] {
      TailOfProducts(ls);
      FirstSums(ls[1..]);
      var l := ls[0];
      assert l.LeadA()[0] == l.a.shape[0] && l.LeadB()[0] == l.b.shape[0];
      assert forall i :: 0 < i < |ls| ==> ls[i] == ls[1..][i - 1];
      if forall i :: 0 <= i < |ls| - 1 ==> OwnFirst(ls[1..][i]) {
        assert OwnFirst(l) ==> forall i :: 0 <= i < |ls| ==> OwnFirst(ls[i]);
      }
    }
  }

  /** Leading dimensions being there and not 0, the concatenated factors can be multiplied exactly when there is one
      tensor or every A has B's own first dimension, and then the product is right. */
  lemma CatCommutesIff(ls: seq<Lora>)
    requires AllWellFormed(ls) && LoraCat(ls).Some?
    requires ls[0].Dims() > 2 && forall i :: 0 <= i < |ls| ==> ls[i].b.shape[0] > 0
    ensures LoraCat(ls).value.WellFormed() <==> |ls| == 1 || forall i :: 0 <= i < |ls| ==> OwnFirst(ls[i])
    ensures LoraCat(ls).value.WellFormed() ==> Cat(Products(ls)) == Some(Dense(LoraCat(ls).value))
  {
    CatShapes(ls, LoraCat(ls).value);
    CatWellFormedIff(ls);
    FirstSums(ls);
    if |ls| == 1 {
      assert FactorsA(ls) == [ls[0].a] && FactorsB(ls) == [ls[0].b];
      assert LoraCat(ls).value == ls[0] && Products(ls) == [Dense(ls[0])];
    } else if forall i :: 0 <= i < |ls| ==> OwnFirst(ls[i]) {
      CatCommutes(ls);
    }
  }

  // ----- a first dimension of 0 -----

  /** A 3-dimensional tensor whose last two dimensions are 1. */
  lemma Column(data: seq<real>)
    ensures Tensor([|data|, 1, 1], data).Valid()
    ensures forall i: nat :: i < |data| ==> At(Tensor([|data|, 1, 1], data), [i, 0, 0]) == data[i]
  {
    var shape: Shape := [|data|, 1, 1];
    assert shape[1..] == [1, 1] && [1, 1][1..] == [1] && [1][1..] == [];
    assert Prod([1]) == 1 * Prod([]) && Prod([1, 1]) == 1 * Prod([1]) && Prod(shape) == |data| * Prod([1, 1]);
    forall i: nat | i < |data| ensures Offset(shape, [i, 0, 0]) == i {
      assert [i, 0, 0][1..] == [0, 0] && [0, 0][1..] == [0] && [0][1..] == [];
      assert Offset([1], [0]) == 0 && Offset([1, 1], [0, 0]) == 0;
      assert Offset(shape, [i, 0, 0]) == i * Prod([1, 1]) + Offset([1, 1], [0, 0]);
    }
  }

  function Columns(a: seq<real>, b: seq<real>): Lora {
    Lora(Tensor([|a|, 1, 1], a), Tensor([|b|, 1, 1], b))
  }

  lemma ColumnsFit(a: seq<real>, b: seq<real>)
    requires |a| == 1 || |a| == |b|
    ensures var l := Columns(a, b);
            && l.WellFormed() && l.Dims() == 3 && l.LeadA() == [|a|] && l.LeadB() == [|b|]
            && l.Rank() == l.Rows() == l.Cols() == 1
  {
    Column(a);
    Column(b);
  }

  lemma ColumnsRow(a: seq<real>, b: seq<real>, i: nat)
    requires i < |b| && (|a| == 1 || |a| == |b|)
    ensures Columns(a, b).Constructible() && Within([i] + [0], Columns(a, b).b.shape[..2])
    ensures RowOf(Columns(a, b), [i] + [0]) == [b[i]]
  {
    ColumnsFit(a, b);
    Column(b);
    assert [i] + [0] + [0] == [i, 0, 0];
    assert BAt(Columns(a, b), [i] + [0], 0) == b[i];
  }

  lemma ColumnsCol(a: seq<real>, b: seq<real>, k: nat)
    requires k < |a| && (|a| == 1 || |a| == |b|)
    ensures Columns(a, b).Constructible() && Within([k], Columns(a, b).LeadA())
    ensures ColOf(Columns(a, b), [k], 0) == [a[k]]
  {
    ColumnsFit(a, b);
    Column(a);
    assert [k] + [0, 0] == [k, 0, 0];
    assert AAt(Columns(a, b), [k], 0, 0) == a[k];
  }

  lemma DotOfOne(x: real, y: real)
    ensures Dot([x], [y]) == x * y
  {
    assert [x][1..] == [] && [y][1..] == [];
  }

  lemma ColumnsAt(a: seq<real>, b: seq<real>, i: nat)
    requires i < |b| && (|a| == 1 || |a| == |b|)
    ensures Columns(a, b).WellFormed() && Within([i, 0, 0], Columns(a, b).Shape())
    ensures At(Dense(Columns(a, b)), [i, 0, 0]) == b[i] * a[if |a| == 1 then 0 else i]
  {
    var l, k: nat := Columns(a, b), if |a| == 1 then 0 else i;
    ColumnsFit(a, b);
    assert [i] + [0, 0] == [i, 0, 0] && Broadcast(l.LeadA(), [i]) == [k];
    EntryAt(l, [i], 0, 0);
    ColumnsRow(a, b, i);
    ColumnsCol(a, b, k);
    DotOfOne(b[i], a[k]);
    DenseAt(l, [i, 0, 0]);
  }

  lemma CatOfTwo<T>(t: Tensor<T>, u: Tensor<T>)
    requires t.Valid() && u.Valid() && Joinable(t, u)
    ensures Cat([t, u]) == Some(Join(t, u))
  {
    assert [t, u][1..] == [u] && Cat([u]) == Some(u);
  }

  /** Two tensors, the first without elements: the concatenated products are the product of the second. */
  lemma EmptyFirst(l: Lora, m: Lora)
    requires l.WellFormed() && m.WellFormed() && l.Dims() > 2 && Joinable(l.a, m.a) && Joinable(l.b, m.b)
    requires l.b.shape[0] == 0
    ensures LoraCat([l, m]) == MakeBoth(Some(Join(l.a, m.a)), Some(m.b))
    ensures Cat(Products([l, m])) == Some(Dense(m))
  {
    assert FactorsA([l, m]) == [l.a, m.a] && FactorsB([l, m]) == [l.b, m.b];
    assert Products([l, m]) == [Dense(l), Dense(m)];
    CatOfTwo(l.a, m.a);
    CatOfTwo(l.b, m.b);
    JoinWithEmpty(l.b, m.b);
    ProductsJoin(l, m);
    CatOfTwo(Dense(l), Dense(m));
    JoinWithEmpty(Dense(l), Dense(m));
  }

  lemma ShiftedIsAccepted(x: real, y: real)
    ensures var l, m := Columns([x], []), Columns([y], [1.0, 1.0]);
            && l.WellFormed() && m.WellFormed() && Cat(Products([l, m])) == Some(Dense(m))
            && LoraCat([l, m]) == Some(Columns([x, y], [1.0, 1.0]))
  {
    var l, m, r := Columns([x], []), Columns([y], [1.0, 1.0]), Columns([x, y], [1.0, 1.0]);
    ColumnsFit([x], []);
    ColumnsFit([y], [1.0, 1.0]);
    ColumnsFit([x, y], [1.0, 1.0]);
    assert l.a.shape[1..] == m.a.shape[1..] && l.b.shape[1..] == m.b.shape[1..];
    assert Join(l.a, m.a) == r.a;
    EmptyFirst(l, m);
  }

  lemma ShiftedDiffers(x: real, y: real)
    requires x != y
    ensures Columns([y], [1.0, 1.0]).WellFormed() && Columns([x, y], [1.0, 1.0]).WellFormed()
    ensures Dense(Columns([y], [1.0, 1.0])) != Dense(Columns([x, y], [1.0, 1.0]))
  {
    var b := [1.0, 1.0];
    ColumnsAt([y], b, 0);
    ColumnsAt([x, y], b, 0);
    assert b[0] * y != b[0] * x;
  }

  /** A tensor of no elements, whose A is shared, shifts the A of the next: the factors can be multiplied, and the
      product is wrong. */
  lemma EmptySharedShifts(x: real, y: real)
    requires x != y
    ensures var ls, r := [Columns([x], []), Columns([y], [1.0, 1.0])], Columns([x, y], [1.0, 1.0]);
            AllWellFormed(ls) && LoraCat(ls) == Some(r) && r.WellFormed() && Cat(Products(ls)) != Some(Dense(r))
  {
    ShiftedDiffers(x, y);
    ShiftedIsAccepted(x, y);
  }
}
