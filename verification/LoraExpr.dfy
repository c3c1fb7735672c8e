/** Expressions over low-rank tensors: whatever is computed on factors, operation by operation, is the
    same computation on the full tensors. */
module LoraExpr {
  import opened Tensors
  import opened LoraTensor
  import opened LoraEllipsis
  import opened LoraOps
  import opened Wrappers

  /** One tensor in, one tensor out. */
  datatype Op =
    | Get(arg: Argument) | GetEllipsis(pre: seq<Subscript>, post: seq<Subscript>)
    | ReshapeTo(dims: seq<int>) | PermuteBy(axes: seq<int>) | SwapAxes(dim0: int, dim1: int)

  datatype Expr = Leaf(l: Lora) | Apply(op: Op, e: Expr) | StackOf(es: seq<Expr>) | CatOf(es: seq<Expr>)

  // ---------------------------------------------------------------- on tensors

  function ApplyTensor(t: Tensor, op: Op): Option<Tensor> {
    match op
    case Get(arg) => Subscripted(t, arg)
    case GetEllipsis(pre, post) =>
      if |pre| + |post| > |t.shape| then None else AtItems(t, Meant(pre, post, |t.shape|))
    case ReshapeTo(dims) => Reshaped(t, dims)
    case PermuteBy(dims) => PermutedBy(t, dims)
    case SwapAxes(i, j) => TransposedBy(t, i, j)
  }

  function StackTensors(ts: seq<Tensor>): Option<Tensor> {
    if ts != [] && AllShaped(ts, ts[0].shape) then Some(Stack(ts)) else None
  }

  function CatTensors(ts: seq<Tensor>): Option<Tensor> {
    if SameTails(ts) then Some(Cat(ts)) else None
  }

  /** The expression on full tensors. */
  function Full(e: Expr): Option<Tensor>
    decreases e
  {
    match e
    case Leaf(l) => if Shaped(l) then Some(Product(l)) else None
    case Apply(op, x) => var t := Full(x); if t.None? then None else ApplyTensor(t.value, op)
    case StackOf(es) => var ts := AllFull(es); if ts.None? then None else StackTensors(ts.value)
    case CatOf(es) => var ts := AllFull(es); if ts.None? then None else CatTensors(ts.value)
  }

  function AllFull(es: seq<Expr>): (r: Option<seq<Tensor>>)
    ensures r.Some? ==> |r.value| == |es|
    decreases es
  {
    if es == [] then Some([])
    else
      var t, ts := Full(es[0]), AllFull(es[1..]);
      if t.None? || ts.None? then None else Some([t.value] + ts.value)
  }

  // ---------------------------------------------------------------- on factors

  /** The constructor's assertions. */
  function Checked(l: Lora): (r: Option<Lora>)
    ensures r.Some? ==> r.value == l && Shaped(l)
  {
    if Shaped(l) then Some(l) else None
  }

  function ApplyLora(l: Lora, op: Op): Option<Lora>
    requires Shaped(l)
  {
    match op
    case Get(arg) => Getitem(l, arg)
    case GetEllipsis(pre, post) => GetitemTuple(l, LoraEllipsis.Written(pre, post))
    case ReshapeTo(dims) => ReshapeLora(l, dims)
    case PermuteBy(dims) => PermuteLora(l, dims)
    case SwapAxes(i, j) => TransposeLora(l, i, j)
  }

  ghost predicate SameA(ls: seq<Lora>) {
    forall i | 0 <= i < |ls| :: Same(ls[0].a, ls[i].a)
  }

  /** Joining: both factors when there are leading axes, B alone for matrices with one and the same A. */
  ghost function CatFactors(ls: seq<Lora>): Option<Lora> {
    if ls == [] then None
    else if |ls[0].b.shape| > 2 then
      if SameTails(As(ls)) && SameTails(Bs(ls)) then Checked(Lora(Cat(As(ls)), Cat(Bs(ls)))) else None
    else if SameA(ls) && SameTails(Bs(ls)) then Checked(Lora(ls[0].a, Cat(Bs(ls))))
    else None
  }

  /** The expression on factors. */
  ghost function Factors(e: Expr): (r: Option<Lora>)
    ensures r.Some? ==> Shaped(r.value)
    decreases e
  {
    match e
    case Leaf(l) => Checked(l)
    case Apply(op, x) =>
      var l := Factors(x);
      if l.None? then None
      else
        var r := ApplyLora(l.value, op);
        if r.None? then None else Checked(r.value)
    case StackOf(es) =>
      var ls := AllFactors(es);
      if ls.None? || !SameShapes(ls.value) then None else Checked(StackLora(ls.value))
    case CatOf(es) => var ls := AllFactors(es); if ls.None? then None else CatFactors(ls.value)
  }

  ghost function AllFactors(es: seq<Expr>): (r: Option<seq<Lora>>)
    ensures r.Some? ==> |r.value| == |es|
    decreases es
  {
    if es == [] then Some([])
    else
      var l, ls := Factors(es[0]), AllFactors(es[1..]);
      if l.None? || ls.None? then None else Some([l.value] + ls.value)
  }

  /** Every operation is one the class supports, every intermediate result can be multiplied, an ellipsis
      lands, and no A is broadcast along a joined axis. */
  ghost predicate Supported(e: Expr)
    decreases e
  {
    Factors(e).Some? && Usable(Factors(e).value) &&
    match e
    case Leaf(l) => true
    case Apply(op, x) =>
      Supported(x) && (op.GetEllipsis? ==>
        var n := |Shape(Factors(x).value)|;
        |op.pre| + |op.post| <= n && Lands(op.pre, op.post, n))
    case StackOf(es) => AllSupported(es)
    case CatOf(es) =>
      AllSupported(es) &&
      var ls := AllFactors(es).value;
      AllUsable(ls) && (|ls[0].b.shape| > 2 ==> FirstAxesAgree(ls))
  }

  ghost predicate AllSupported(es: seq<Expr>)
    decreases es
  {
    es == [] || (Supported(es[0]) && AllSupported(es[1..]))
  }

  // ---------------------------------------------------------------- the operations respect sameness

  lemma AtRespectsSame(x: Tensor, y: Tensor, items: seq<Subscript>)
    requires Same(x, y) && |items| == |x.shape| && AtItems(x, items).Some?
    ensures AtItems(y, items).Some? && Same(AtItems(x, items).value, AtItems(y, items).value)
  {
    hide PicksOf, Expand;
    var ps := PicksOf(items, x.shape).value;
    forall idx: Index | In(idx, Kept(ps))
      ensures At(x, ps).at(idx) == At(y, ps).at(idx)
    {
      ExpandIn(ps, x.shape, idx);
    }
  }

  lemma ReshapeRespectsSame(x: Tensor, y: Tensor, dims: seq<int>)
    requires Same(x, y) && Reshaped(x, dims).Some?
    ensures Reshaped(y, dims).Some? && Same(Reshaped(x, dims).value, Reshaped(y, dims).value)
  {
    hide NewShape, Prod, Unravel, Ravel;
    var s := NewShape(x.shape, dims).value;
    forall idx: Index | In(idx, s)
      ensures Reshape(x, s).at(idx) == Reshape(y, s).at(idx)
    {
      RavelInRange(s, idx);
      UnravelIn(x.shape, Ravel(s, idx));
    }
  }

  lemma PermuteRespectsSame(x: Tensor, y: Tensor, dims: seq<int>)
    requires Same(x, y) && PermutedBy(x, dims).Some?
    ensures PermutedBy(y, dims).Some? && Same(PermutedBy(x, dims).value, PermutedBy(y, dims).value)
  {
    hide Axes, Source;
    var axes := Axes(dims, |x.shape|).value;
    forall idx: Index | In(idx, Permuted(x.shape, axes))
      ensures Permute(x, axes).at(idx) == Permute(y, axes).at(idx)
    {
      SourceIn(x.shape, axes, idx);
    }
  }

  lemma TransposeRespectsSame(x: Tensor, y: Tensor, dim0: int, dim1: int)
    requires Same(x, y) && TransposedBy(x, dim0, dim1).Some?
    ensures TransposedBy(y, dim0, dim1).Some? && Same(TransposedBy(x, dim0, dim1).value, TransposedBy(y, dim0, dim1).value)
  {
    var i, j := Position(dim0, |x.shape|).value, Position(dim1, |x.shape|).value;
    forall idx: Index | In(idx, Swapped(x.shape, i, j))
      ensures In(Swapped(idx, i, j), x.shape)
    {
    }
  }

  lemma OpRespectsSame(x: Tensor, y: Tensor, op: Op)
    requires Same(x, y) && ApplyTensor(x, op).Some?
    ensures ApplyTensor(y, op).Some? && Same(ApplyTensor(x, op).value, ApplyTensor(y, op).value)
  {
    hide AtItems, Reshaped, PermutedBy, TransposedBy, Items;
    match op
    case Get(arg) => SubscriptedItems(x, arg); SubscriptedItems(y, arg); AtRespectsSame(x, y, Items(arg, |x.shape|).value);
    case GetEllipsis(pre, post) => AtRespectsSame(x, y, Meant(pre, post, |x.shape|));
    case ReshapeTo(dims) => ReshapeRespectsSame(x, y, dims);
    case PermuteBy(dims) => PermuteRespectsSame(x, y, dims);
    case SwapAxes(i, j) => TransposeRespectsSame(x, y, i, j);
  }

  lemma SubscriptedItems(t: Tensor, arg: Argument)
    ensures var items := Items(arg, |t.shape|);
            && (items.Some? ==> |items.value| == |t.shape|)
            && Subscripted(t, arg) == if items.None? then None else AtItems(t, items.value)
  {
  }

  ghost predicate AllSame(ts: seq<Tensor>, us: seq<Tensor>) {
    |ts| == |us| && forall i | 0 <= i < |ts| :: Same(ts[i], us[i])
  }

  lemma StackRespectsSame(ts: seq<Tensor>, us: seq<Tensor>)
    requires AllSame(ts, us) && StackTensors(ts).Some?
    ensures StackTensors(us).Some? && Same(StackTensors(ts).value, StackTensors(us).value)
  {
    assert Same(ts[0], us[0]);
    forall i | 0 <= i < |us| ensures us[i].shape == us[0].shape { assert Same(ts[i], us[i]); }
    forall idx: Index | In(idx, Stack(ts).shape)
      ensures Stack(ts).at(idx) == Stack(us).at(idx)
    {
      assert Same(ts[idx[0]], us[idx[0]]) && In(idx[1..], ts[idx[0]].shape);
    }
  }

  lemma CatRespectsSame(ts: seq<Tensor>, us: seq<Tensor>)
    requires AllSame(ts, us) && CatTensors(ts).Some?
    ensures CatTensors(us).Some? && Same(CatTensors(ts).value, CatTensors(us).value)
  {
    hide Total, Locate;
    forall i | 0 <= i < |us|
      ensures us[i].shape != [] && us[i].shape == ts[i].shape && us[i].shape[1..] == us[0].shape[1..]
    {
      assert Same(ts[i], us[i]) && Same(ts[0], us[0]);
    }
    assert FirstSizes(ts) == FirstSizes(us);
    forall idx: Index | In(idx, Cat(ts).shape)
      ensures Cat(ts).at(idx) == Cat(us).at(idx)
    {
      var p := Locate(FirstSizes(ts), idx[0]);
      var at := [p.offset] + idx[1..];
      assert Same(ts[p.which], us[p.which]);
      assert In(at, ts[p.which].shape) by {
        assert ts[p.which].shape == [ts[p.which].shape[0]] + ts[0].shape[1..];
        assert forall k | 0 < k < |at| :: at[k] == idx[k] < Cat(ts).shape[k];
      }
    }
  }

  // ---------------------------------------------------------------- the operations commute

  lemma OpCommutes(l: Lora, op: Op)
    requires Usable(l) && ApplyLora(l, op).Some? && Shaped(ApplyLora(l, op).value) && Usable(ApplyLora(l, op).value)
    requires op.GetEllipsis? ==> |op.pre| + |op.post| <= |Shape(l)| && Lands(op.pre, op.post, |Shape(l)|)
    ensures ApplyTensor(Product(l), op).Some?
    ensures Same(Product(ApplyLora(l, op).value), ApplyTensor(Product(l), op).value)
  {
    hide Product, Same, BroadcastsTo, Getitem, GetitemTuple, ReshapeLora, PermuteLora, TransposeLora, Subscripted, AtItems,
      PermutedBy, TransposedBy, Reshaped, Lands, Meant;
    ProductShape(l);
    match op
    case Get(arg) => GetitemCommutes(l, arg);
    case GetEllipsis(pre, post) => EllipsisCommutes(l, pre, post);
    case ReshapeTo(dims) => ReshapeCommutes(l, dims);
    case PermuteBy(dims) => PermuteCommutes(l, dims);
    case SwapAxes(i, j) => TransposeCommutes(l, i, j);
  }

  lemma StackTensorsOfProducts(ls: seq<Lora>)
    requires SameShapes(ls) && AllUsable(ls)
    ensures StackTensors(Products(ls)) == Some(Stack(Products(ls)))
  {
    forall i | 0 <= i < |ls| ensures Products(ls)[i].shape == Products(ls)[0].shape { assert Usable(ls[i]) && Usable(ls[0]); }
  }

  lemma CatTensorsOfProducts(ls: seq<Lora>)
    requires ls != [] && AllUsable(ls) && CatFactors(ls).Some? && (|ls[0].b.shape| > 2 ==> FirstAxesAgree(ls))
    ensures CatTensors(Products(ls)).Some?
    ensures Usable(CatFactors(ls).value) && Same(Product(CatFactors(ls).value), CatTensors(Products(ls)).value)
  {
    hide Same, Cat, Product, BroadcastsTo;
    if |ls[0].b.shape| > 2 {
      CatCommutes(ls);
      ProductsHaveSameTails(ls);
    } else {
      SharedTails(ls);
      CatSharedA(ls);
      ProductsHaveSameTails(ls);
    }
  }

  lemma SharedTails(ls: seq<Lora>)
    requires ls != [] && AllUsable(ls) && SameA(ls) && |ls[0].b.shape| <= 2
    ensures SameTails(As(ls)) && |ls[0].b.shape| == 2
  {
    assert Usable(ls[0]);
    forall i | 0 <= i < |ls|
      ensures As(ls)[i].shape == As(ls)[0].shape && As(ls)[i].shape != []
    {
      assert Same(ls[0].a, ls[i].a);
    }
  }

  lemma ProductsHaveSameTails(ls: seq<Lora>)
    requires Joinable(ls)
    ensures SameTails(Products(ls))
  {
    hide Product, Shape, BroadcastsTo;
    ProductTails(ls, 0);
    forall i | 0 <= i < |ls|
      ensures Products(ls)[i].shape != [] && Products(ls)[i].shape[1..] == Products(ls)[0].shape[1..]
    {
      ProductTails(ls, i);
    }
  }

  lemma ProductTails(ls: seq<Lora>, i: nat)
    requires Joinable(ls) && i < |ls|
    ensures Products(ls)[i].shape != [] && Products(ls)[i].shape[1..] == Products(ls)[0].shape[1..]
  {
    SameAxes(ls, i);
    hide BroadcastsTo, Joinable;
    TailOfShape(ls[i]);
    TailOfShape(ls[0]);
    ProductShape(ls[i]);
    ProductShape(ls[0]);
  }

  /** The shape behind its first axis depends only on the factors' axes behind theirs. */
  lemma TailOfShape(l: Lora)
    requires Usable(l)
    ensures Shape(l)[1..] == l.b.shape[1..][..|l.b.shape| - 2] + [l.a.shape[1..][|l.a.shape| - 2]]
  {
    Parts(l);
  }

  /** Evaluating an expression on factors and multiplying is evaluating it on full tensors. */
  lemma {:induction false} ExprCommutes(e: Expr)
    requires Supported(e)
    ensures Full(e).Some? && Same(Product(Factors(e).value), Full(e).value)
    decreases e, 0
  {
    hide Same, Product, ApplyLora, ApplyTensor, BroadcastsTo, StackTensors, CatTensors, CatFactors, StackLora, SameShapes,
      Lands, FirstAxesAgree;
    match e
    case Leaf(l) => SameReflexive(Product(l));
    case Apply(op, x) =>
      ExprCommutes(x);
      var l, t := Factors(x).value, Full(x).value;
      OpCommutes(l, op);
      OpRespectsSame(Product(l), t, op);
      SameTransitive(Product(Factors(e).value), ApplyTensor(Product(l), op).value, ApplyTensor(t, op).value);
    case StackOf(es) =>
      AllCommute(es);
      var ls, ts := AllFactors(es).value, AllFull(es).value;
      StackCommutes(ls);
      StackTensorsOfProducts(ls);
      StackRespectsSame(Products(ls), ts);
      SameTransitive(Product(Factors(e).value), StackTensors(Products(ls)).value, StackTensors(ts).value);
    case CatOf(es) =>
      AllCommute(es);
      var ls, ts := AllFactors(es).value, AllFull(es).value;
      assert ls != [] by { NothingToJoin(); }
      CatTensorsOfProducts(ls);
      CatRespectsSame(Products(ls), ts);
      SameTransitive(Product(Factors(e).value), CatTensors(Products(ls)).value, CatTensors(ts).value);
  }

  lemma NothingToJoin()
    ensures CatFactors([]) == None
  {
  }

  lemma SameReflexive(t: Tensor)
    ensures Same(t, t)
  {
  }

  lemma {:induction false} AllCommute(es: seq<Expr>)
    requires AllSupported(es)
    ensures AllFactors(es).Some? && AllFull(es).Some? && AllUsable(AllFactors(es).value)
    ensures AllSame(Products(AllFactors(es).value), AllFull(es).value)
    decreases es, 1
  {
    hide Same, Product, BroadcastsTo, Supported, Factors, Full;
    if es != [] {
      SupportedResult(es[0]);
      ExprCommutes(es[0]);
      AllCommute(es[1..]);
      var ls, ts := AllFactors(es).value, AllFull(es).value;
      assert ls == [Factors(es[0]).value] + AllFactors(es[1..]).value;
      forall i | 0 <= i < |es|
        ensures Usable(ls[i]) && Same(Product(ls[i]), ts[i])
      {
        if i > 0 {
          assert ls[i] == AllFactors(es[1..]).value[i - 1] && ts[i] == AllFull(es[1..]).value[i - 1];
          assert Same(Products(AllFactors(es[1..]).value)[i - 1], AllFull(es[1..]).value[i - 1]);
        }
      }
    }
  }

  lemma SupportedResult(e: Expr)
    requires Supported(e)
    ensures Factors(e).Some? && Usable(Factors(e).value)
  {
  }

  // ---------------------------------------------------------------- when stacks and joins go through

  /** Usable factors can be stacked exactly when the full tensors can, the ranks agree, and so do A's axes. */
  lemma StackDefined(ls: seq<Lora>)
    requires AllUsable(ls)
    ensures SameShapes(ls) <==>
            StackTensors(Products(ls)).Some? &&
            forall i | 0 <= i < |ls| :: Rank(ls[i]) == Rank(ls[0]) && LeadA(ls[i]) == LeadA(ls[0])
  {
    hide BroadcastsTo, Product;
    forall i | 0 <= i < |ls|
      ensures Products(ls)[i].shape == Shape(ls[i]) && Usable(ls[i])
    {
      ProductShape(ls[i]);
    }
    if StackTensors(Products(ls)).Some? &&
       forall i | 0 <= i < |ls| :: Rank(ls[i]) == Rank(ls[0]) && LeadA(ls[i]) == LeadA(ls[0]) {
      forall i | 0 <= i < |ls|
        ensures ls[i].a.shape == ls[0].a.shape && ls[i].b.shape == ls[0].b.shape
      {
        Parts(ls[i]);
        Parts(ls[0]);
        SameParts(ls[i], ls[0]);
      }
    }
  }

  lemma SameParts(l: Lora, k: Lora)
    requires Shaped(l) && Shaped(k) && Shape(l) == Shape(k) && Rank(l) == Rank(k) && LeadA(l) == LeadA(k)
    ensures l.a.shape == k.a.shape && l.b.shape == k.b.shape
  {
    Parts(l);
    Parts(k);
    assert Cols(l) == Last(Shape(l)) && Rows(l) == Shape(l)[|Shape(l)| - 2] && LeadB(l) == Shape(l)[..|Shape(l)| - 2];
    assert Cols(k) == Last(Shape(k)) && Rows(k) == Shape(k)[|Shape(k)| - 2] && LeadB(k) == Shape(k)[..|Shape(k)| - 2];
  }

  /** Usable factors with leading axes can be joined exactly when the full tensors can, the ranks agree, and so
      do A's axes behind the first. */
  lemma CatDefined(ls: seq<Lora>)
    requires ls != [] && AllUsable(ls) && |ls[0].b.shape| > 2
    ensures CatFactors(ls).Some? <==>
            CatTensors(Products(ls)).Some? &&
            forall i | 0 <= i < |ls| ::
              Rank(ls[i]) == Rank(ls[0]) && |LeadA(ls[i])| == |LeadA(ls[0])| && LeadA(ls[i])[1..] == LeadA(ls[0])[1..]
  {
    hide BroadcastsTo, Product, Cat, CatFactors, CatTensors;
    CatConditions(ls);
    if SameTails(As(ls)) && SameTails(Bs(ls)) {
      ProductsHaveSameTails(ls);
      forall i | 0 <= i < |ls|
        ensures Rank(ls[i]) == Rank(ls[0]) && |LeadA(ls[i])| == |LeadA(ls[0])| && LeadA(ls[i])[1..] == LeadA(ls[0])[1..]
      {
        SameAxes(ls, i);
      }
    }
    if SameTails(Products(ls)) && forall i | 0 <= i < |ls| ::
         Rank(ls[i]) == Rank(ls[0]) && |LeadA(ls[i])| == |LeadA(ls[0])| && LeadA(ls[i])[1..] == LeadA(ls[0])[1..] {
      forall i | 0 <= i < |ls|
        ensures ls[i].a.shape != [] && ls[i].a.shape[1..] == ls[0].a.shape[1..]
        ensures ls[i].b.shape != [] && ls[i].b.shape[1..] == ls[0].b.shape[1..]
      {
        ProductShape(ls[i]);
        ProductShape(ls[0]);
        assert Products(ls)[i].shape[1..] == Products(ls)[0].shape[1..];
        SameBehindFirst(ls[i], ls[0]);
      }
    }
  }

  lemma CatConditions(ls: seq<Lora>)
    requires ls != [] && AllUsable(ls) && |ls[0].b.shape| > 2
    ensures CatFactors(ls).Some? <==> SameTails(As(ls)) && SameTails(Bs(ls))
    ensures CatTensors(Products(ls)).Some? <==> SameTails(Products(ls))
  {
    hide Cat, Product, BroadcastsTo;
    if SameTails(As(ls)) && SameTails(Bs(ls)) { CatShaped(ls); }
  }

  lemma CatShaped(ls: seq<Lora>)
    requires Joinable(ls) && |ls[0].b.shape| > 2
    ensures Shaped(Lora(Cat(As(ls)), Cat(Bs(ls))))
  {
    hide Total, BroadcastsTo;
    SameAxes(ls, 0);
  }

  lemma SameBehindFirst(l: Lora, k: Lora)
    requires Usable(l) && Usable(k) && Shape(l)[1..] == Shape(k)[1..] && Rank(l) == Rank(k) && |k.b.shape| > 2
    requires |LeadA(l)| == |LeadA(k)| && LeadA(l)[1..] == LeadA(k)[1..]
    ensures l.a.shape[1..] == k.a.shape[1..] && l.b.shape[1..] == k.b.shape[1..]
  {
    hide BroadcastsTo;
    Parts(l);
    Parts(k);
    var n := |k.b.shape| - 2;
    assert Cols(l) == Shape(l)[1..][n] && Cols(k) == Shape(k)[1..][n];
    assert l.a.shape[1..] == LeadA(l)[1..] + [Rank(l)] + [Cols(l)] && k.a.shape[1..] == LeadA(k)[1..] + [Rank(k)] + [Cols(k)];
    assert l.b.shape[1..] == Shape(l)[1..][..n] + [Rank(l)] && k.b.shape[1..] == Shape(k)[1..][..n] + [Rank(k)];
  }

  /** Usable matrices can be joined exactly when the full matrices can and A is the same. */
  lemma CatMatricesDefined(ls: seq<Lora>)
    requires ls != [] && AllUsable(ls) && |ls[0].b.shape| == 2
    ensures CatFactors(ls).Some? <==> CatTensors(Products(ls)).Some? && SameA(ls)
  {
    hide BroadcastsTo, Product, Cat;
    forall i | 0 <= i < |ls|
      ensures Products(ls)[i].shape == Shape(ls[i]) && Usable(ls[i])
    {
      ProductShape(ls[i]);
    }
    if SameA(ls) {
      forall i | 0 <= i < |ls|
        ensures ls[i].a.shape == ls[0].a.shape && |ls[i].b.shape| == 2 && ls[i].b.shape[1..] == ls[0].b.shape[1..]
        ensures Shape(ls[i]) != [] && Shape(ls[i])[1..] == [Cols(ls[i])] == [Cols(ls[0])]
      {
        assert Same(ls[0].a, ls[i].a);
      }
      JoinedMatrices(ls);
    }
  }

  lemma JoinedMatrices(ls: seq<Lora>)
    requires ls != [] && AllUsable(ls) && SameTails(Bs(ls)) && |ls[0].b.shape| == 2 && |ls[0].a.shape| == 2
    ensures Shaped(Lora(ls[0].a, Cat(Bs(ls))))
  {
    assert Usable(ls[0]);
  }

  // ---------------------------------------------------------------- the permutation of attention heads

  /** What the converter does to every attention weight: cut the rows into heads and halves, swap these, and
      join the rows again. */
  function HeadPermutation(weights: Expr, heads: nat, rows: nat, cols: nat): Expr
    requires heads > 0
  {
    Apply(ReshapeTo([rows, cols]), Apply(SwapAxes(1, 2), Apply(ReshapeTo([heads, 2, rows / heads / 2, cols]), weights)))
  }

  lemma Halves(rows: nat, heads: nat)
    requires heads > 0 && rows % (2 * heads) == 0
    ensures Prod([heads, 2, rows / heads / 2]) == rows == Prod([heads, rows / heads / 2, 2]) == Prod([rows])
  {
    var k := rows / (2 * heads);
    Thrice(heads, k);
    assert rows == k * (2 * heads);
    DivMod(2 * k, heads, 0);
    ProdOfThree(heads, 2, k);
    ProdOfThree(heads, k, 2);
    ProdSnoc([], rows);
    assert [] + [rows] == [rows];
  }

  lemma Thrice(a: nat, b: nat)
    ensures b * (2 * a) == 2 * b * a == a * 2 * b == a * b * 2
  {
  }

  lemma ProdOfThree(a: nat, b: nat, c: nat)
    ensures Prod([a, b, c]) == a * b * c
  {
    ProdSnoc([], a);
    ProdSnoc([a], b);
    ProdSnoc([a, b], c);
    assert [] + [a] == [a] && [a] + [b] == [a, b] && [a, b] + [c] == [a, b, c];
  }

  /** A transposition that leaves the last axis alone leaves A alone. */
  lemma TransposeKeepsA(l: Lora, dim0: int, dim1: int)
    requires Usable(l) && TransposeLora(l, dim0, dim1).Some? && |Shape(l)| > 2
    ensures TransposeLora(l, dim0, dim1).value.a == l.a
  {
    hide Permute, IsPermutation;
  }

  lemma CutIntoHeads(l: Lora, heads: nat)
    requires Usable(l) && |Shape(l)| == 2 && heads > 0 && Rows(l) % (2 * heads) == 0
    ensures var s := [heads, 2, Rows(l) / heads / 2, Cols(l)];
            && ReshapeLora(l, s).Some? && Usable(ReshapeLora(l, s).value)
            && Shape(ReshapeLora(l, s).value) == s && LeadA(ReshapeLora(l, s).value) == Ones(2)
  {
    var s := [heads, 2, Rows(l) / heads / 2, Cols(l)];
    Halves(Rows(l), heads);
    Parts(l);
    assert NewShape(Shape(l), s) == Some(s);
    assert Front(s) == [heads, 2, Rows(l) / heads / 2] && Last(s) == Cols(l);
    assert LeadB(l) + [Rows(l)] == [Rows(l)] && LeadA(l) == Ones(0);
    hide NewShape, Prod, ReshapeLora, BroadcastsTo;
    ReshapeDefined(l, s);
    ReshapeShape(l, s);
  }

  lemma SwapHalves(l: Lora, heads: nat, k: nat, cols: nat)
    requires Usable(l) && Shape(l) == [heads, 2, k, cols] && LeadA(l) == Ones(2)
    ensures TransposeLora(l, 1, 2).Some?
    ensures var l' := TransposeLora(l, 1, 2).value;
            Usable(l') && Shape(l') == [heads, k, 2, cols] && LeadA(l') == Ones(2)
  {
    ProductShape(l);
    assert Position(1, 4) == Some(1) && Position(2, 4) == Some(2);
    assert TransposedBy(Product(l), 1, 2).Some?;
    assert Swapped([heads, 2, k, cols], 1, 2) == [heads, k, 2, cols];
    assert TransposedBy(Product(l), 1, 2).value.shape == [heads, k, 2, cols];
    hide TransposeLora, TransposedBy, Product, BroadcastsTo, Swapped;
    TransposeDefined(l, 1, 2);
    TransposeCommutes(l, 1, 2);
    TransposeKeepsA(l, 1, 2);
    ProductShape(TransposeLora(l, 1, 2).value);
  }

  lemma JoinHeads(l: Lora, heads: nat, k: nat, rows: nat, cols: nat)
    requires Usable(l) && Shape(l) == [heads, k, 2, cols] && LeadA(l) == Ones(2)
    requires Prod([heads, k, 2]) == rows == Prod([rows])
    ensures ReshapeLora(l, [rows, cols]).Some? && Usable(ReshapeLora(l, [rows, cols]).value)
    ensures Shape(ReshapeLora(l, [rows, cols]).value) == [rows, cols]
  {
    Parts(l);
    assert Cols(l) == Last(Shape(l)) == cols && LeadB(l) + [Rows(l)] == Front(Shape(l)) == [heads, k, 2];
    assert NewShape(Shape(l), [rows, cols]) == Some([rows, cols]) && Front([rows, cols]) == [rows];
    hide NewShape, Prod, ReshapeLora, BroadcastsTo;
    ReshapeDefined(l, [rows, cols]);
    ReshapeShape(l, [rows, cols]);
  }

  /** Every matrix whose rows divide into two halves for each head can be permuted on its factors, and the
      result is the matrix with its rows permuted. */
  lemma HeadsArePermuted(l: Lora, heads: nat)
    requires Usable(l) && |Shape(l)| == 2 && heads > 0 && Rows(l) % (2 * heads) == 0
    ensures var e := HeadPermutation(Leaf(l), heads, Rows(l), Cols(l));
            && Supported(e) && Shape(Factors(e).value) == Shape(l)
            && Full(e).Some? && Same(Product(Factors(e).value), Full(e).value)
  {
    var k := Rows(l) / heads / 2;
    var s := [heads, 2, k, Cols(l)];
    CutIntoHeads(l, heads);
    var l1 := ReshapeLora(l, s).value;
    SwapHalves(l1, heads, k, Cols(l));
    var l2 := TransposeLora(l1, 1, 2).value;
    Halves(Rows(l), heads);
    JoinHeads(l2, heads, k, Rows(l), Cols(l));
    assert Shape(l) == [Rows(l), Cols(l)] by { Parts(l); }
    hide *;
    LeafSupported(l);
    var e1 := Apply(ReshapeTo(s), Leaf(l));
    var e2 := Apply(SwapAxes(1, 2), e1);
    IsShaped(l);
    IsShaped(l1);
    IsShaped(l2);
    ReshapeSupported(s, Leaf(l), l);
    SwapSupported(1, 2, e1, l1);
    ReshapeSupported([Rows(l), Cols(l)], e2, l2);
    ExprCommutes(Apply(ReshapeTo([Rows(l), Cols(l)]), e2));
    assert HeadPermutation(Leaf(l), heads, Rows(l), Cols(l)) == Apply(ReshapeTo([Rows(l), Cols(l)]), e2) by {
      HeadSteps(Leaf(l), heads, Rows(l), Cols(l));
    }
  }

  lemma HeadSteps(weights: Expr, heads: nat, rows: nat, cols: nat)
    requires heads > 0
    ensures HeadPermutation(weights, heads, rows, cols) ==
            Apply(ReshapeTo([rows, cols]), Apply(SwapAxes(1, 2), Apply(ReshapeTo([heads, 2, rows / heads / 2, cols]), weights)))
  {
  }

  lemma LeafSupported(l: Lora)
    requires Usable(l)
    ensures Factors(Leaf(l)) == Some(l) && Supported(Leaf(l))
  {
  }

  lemma ReshapeSupported(dims: seq<int>, e: Expr, l: Lora)
    requires Supported(e) && Factors(e) == Some(l) && ReshapeLora(l, dims).Some? && Usable(ReshapeLora(l, dims).value)
    ensures Supported(Apply(ReshapeTo(dims), e)) && Factors(Apply(ReshapeTo(dims), e)) == ReshapeLora(l, dims)
  {
    hide ReshapeLora, BroadcastsTo;
  }

  lemma SwapSupported(dim0: int, dim1: int, e: Expr, l: Lora)
    requires Supported(e) && Factors(e) == Some(l)
    requires TransposeLora(l, dim0, dim1).Some? && Usable(TransposeLora(l, dim0, dim1).value)
    ensures Supported(Apply(SwapAxes(dim0, dim1), e)) && Factors(Apply(SwapAxes(dim0, dim1), e)) == TransposeLora(l, dim0, dim1)
  {
    hide TransposeLora, BroadcastsTo;
  }
}
