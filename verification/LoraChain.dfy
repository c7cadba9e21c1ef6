/** Any chain of operations on factored tensors means the same chain on their products
    (llama.cpp/convert_lora_to_gguf.py, LoraTorchTensor as a stand-in for Tensor). */
module LoraChain {
  import opened Wrappers
  import opened Tensors
  import opened LoraTensor
  import opened LoraSelect
  import opened LoraReshape
  import opened LoraPermute
  import opened LoraJoin
  import opened LoraConcat

  /** What a converter may do with the tensors it is given. */
  datatype Expr =
    | Input(i: nat)
    | Item(e: Expr, indices: Indices)
    | Reshaped(e: Expr, dims: seq<int>)
    | Permuted(e: Expr, dims: seq<int>)
    | Swapped(e: Expr, dim0: int, dim1: int)
    | Cat(es: seq<Expr>)
    | Stack(es: seq<Expr>)

  /** Run on factored tensors; `None` when an operation raises. */
  function EvalLora(e: Expr, env: seq<Lora>): (r: Option<Lora>)
    requires AllConstructible(env)
    ensures r.Some? ==> r.value.Constructible()
    decreases e, 0
  {
    match e
    case Input(i) => if i < |env| then Some(env[i]) else None
    case Item(e1, indices) =>
      var l := EvalLora(e1, env);
      if l.None? then None else LoraGetItem(l.value, indices)
    case Reshaped(e1, dims) =>
      var l := EvalLora(e1, env);
      if l.None? then None else LoraReshaped(l.value, dims)
    case Permuted(e1, dims) =>
      var l := EvalLora(e1, env);
      if l.None? then None else LoraPermuted(l.value, dims)
    case Swapped(e1, dim0, dim1) =>
      var l := EvalLora(e1, env);
      if l.None? then None else LoraTransposed(l.value, dim0, dim1)
    case Cat(es) =>
      var ls := EvalLoras(es, env);
      if ls.None? then None else LoraCat(ls.value)
    case Stack(es) =>
      var ls := EvalLoras(es, env);
      if ls.None? then None else LoraStack(ls.value)
  }

  function EvalLoras(es: seq<Expr>, env: seq<Lora>): (r: Option<seq<Lora>>)
    requires AllConstructible(env)
    ensures r.Some? ==> AllConstructible(r.value) && |r.value| == |es|
    decreases es, 1
  {
    if es == [] then Some([])
    else
      var first, rest := EvalLora(es[0], env), EvalLoras(es[1..], env);
      if first.None? || rest.None? then None else Some([first.value] + rest.value)
  }

  predicate AllValid(ts: seq<Tensor<real>>) {
    forall t :: t in ts ==> t.Valid()
  }

  /** The same chain on plain tensors. */
  function EvalDense(e: Expr, env: seq<Tensor<real>>): (r: Option<Tensor<real>>)
    requires AllValid(env)
    ensures r.Some? ==> r.value.Valid()
    decreases e, 0
  {
    match e
    case Input(i) => if i < |env| then Some(env[i]) else None
    case Item(e1, indices) =>
      var t := EvalDense(e1, env);
      if t.None? then None else GetItem(t.value, DenseSels(indices))
    case Reshaped(e1, dims) =>
      var t := EvalDense(e1, env);
      if t.None? then None else DenseReshape(t.value, dims)
    case Permuted(e1, dims) =>
      var t := EvalDense(e1, env);
      if t.None? then None else TorchPermute(t.value, dims)
    case Swapped(e1, dim0, dim1) =>
      var t := EvalDense(e1, env);
      if t.None? then None else TorchTranspose(t.value, dim0, dim1)
    case Cat(es) =>
      var ts := EvalDenses(es, env);
      if ts.None? then None else Tensors.Cat(ts.value)
    case Stack(es) =>
      var ts := EvalDenses(es, env);
      if ts.None? then None else Tensors.Stack(ts.value)
  }

  function EvalDenses(es: seq<Expr>, env: seq<Tensor<real>>): (r: Option<seq<Tensor<real>>>)
    requires AllValid(env)
    ensures r.Some? ==> AllValid(r.value)
    decreases es, 1
  {
    if es == [] then Some([])
    else
      var first, rest := EvalDense(es[0], env), EvalDenses(es[1..], env);
      if first.None? || rest.None? then None else Some([first.value] + rest.value)
  }

  // ----- what the chain has to respect -----

  /** An index keeps rows and columns, and slices a leading dimension only where A shares it or loses nothing. */
  ghost predicate ItemSafe(l: Lora, indices: Indices)
    requires l.Constructible()
  {
    match indices
    case One(sel) =>
      l.Dims() > 2 ==> SelOk(sel, l.LeadA()[0]) && SelOk(sel, l.LeadB()[0]) && FirstShared(sel, l.LeadA()[0], l.LeadB()[0])
    case Tuple(sels) => TupleSafe(l, sels)
  }

  /** Every operation of the chain that does not raise respects the sharing of A. */
  ghost predicate Safe(e: Expr, env: seq<Lora>)
    requires AllConstructible(env)
    decreases e, 0
  {
    match e
    case Input(i) => true
    case Item(e1, indices) =>
      Safe(e1, env) && (EvalLora(e, env).Some? ==> ItemSafe(EvalLora(e1, env).value, indices))
    case Reshaped(e1, dims) =>
      && Safe(e1, env)
      && (EvalLora(e, env).Some? ==> OneOpen(dims) && SizeChecked(EvalLora(e1, env).value, EvalLora(e, env).value))
    case Permuted(e1, dims) =>
      Safe(e1, env) && (EvalLora(e, env).Some? ==> InRange(dims, EvalLora(e1, env).value.Dims()))
    case Swapped(e1, dim0, dim1) => Safe(e1, env)
    case Cat(es) => AllSafe(es, env) && (EvalLora(e, env).Some? ==> CatSafe(EvalLoras(es, env).value))
    case Stack(es) => AllSafe(es, env)
  }

  ghost predicate AllSafe(es: seq<Expr>, env: seq<Lora>)
    requires AllConstructible(env)
    decreases es, 1
  {
    es == [] || (Safe(es[0], env) && AllSafe(es[1..], env))
  }

  lemma ItemCommutes(l: Lora, indices: Indices)
    requires l.WellFormed() && LoraGetItem(l, indices).Some? && ItemSafe(l, indices)
    ensures var r := LoraGetItem(l, indices).value;
            r.WellFormed() && GetItem(Dense(l), DenseSels(indices)) == Some(Dense(r))
  {
    match indices
    case One(sel) =>
      if l.Dims() > 2 {
        FirstCommutesIff(l, sel);
      } else {
        RowsCommute(l, sel);
      }
    case Tuple(sels) =>
      TupleCommutesIff(l, sels);
  }

  /** The main result: whatever accepted chain is run on the factors, multiplying at the end gives what the
      chain gives on the products. */
  lemma {:induction false} ChainCommutes(e: Expr, env: seq<Lora>)
    requires AllWellFormed(env) && EvalLora(e, env).Some? && Safe(e, env)
    ensures EvalLora(e, env).value.WellFormed()
    ensures AllValid(Products(env)) && EvalDense(e, Products(env)) == Some(Dense(EvalLora(e, env).value))
    decreases e, 0
  {
    match e
    case Input(i) =>
    case Item(e1, indices) =>
      ChainCommutes(e1, env);
      ItemCommutes(EvalLora(e1, env).value, indices);
    case Reshaped(e1, dims) =>
      ChainCommutes(e1, env);
      ReshapeCommutesIff(EvalLora(e1, env).value, dims);
    case Permuted(e1, dims) =>
      ChainCommutes(e1, env);
      PermuteCommutesIff(EvalLora(e1, env).value, dims);
    case Swapped(e1, dim0, dim1) =>
      ChainCommutes(e1, env);
      TransposeCommutes(EvalLora(e1, env).value, dim0, dim1);
    case Cat(es) =>
      ChainsCommute(es, env);
      CatCommutes(EvalLoras(es, env).value);
    case Stack(es) =>
      ChainsCommute(es, env);
      StackCommutes(EvalLoras(es, env).value);
  }

  lemma ProductsOfCons(l: Lora, ls: seq<Lora>)
    requires l.WellFormed() && AllWellFormed(ls)
    ensures AllWellFormed([l] + ls) && Products([l] + ls) == [Dense(l)] + Products(ls)
  {
  }

  lemma {:induction false} ChainsCommute(es: seq<Expr>, env: seq<Lora>)
    requires AllWellFormed(env) && EvalLoras(es, env).Some? && AllSafe(es, env)
    ensures AllWellFormed(EvalLoras(es, env).value)
    ensures AllValid(Products(env)) && EvalDenses(es, Products(env)) == Some(Products(EvalLoras(es, env).value))
    decreases es, 1
  {
    if es != [] {
      ChainCommutes(es[0], env);
      ChainsCommute(es[1..], env);
      ProductsOfCons(EvalLora(es[0], env).value, EvalLoras(es[1..], env).value);
    }
  }
}
