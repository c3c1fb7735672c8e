/** Reshaping, permuting and joining low-rank tensors, and chains of operations on them. */
module LoraOps {
  import opened Tensors
  import opened LoraTensor
  import opened Wrappers

  /** An entry of the product is the sum over the ranks. */
  lemma ProductEntry(l: Lora, y: Index, c: nat)
    requires Shaped(l) && |y| + 1 == |l.b.shape|
    ensures Product(l).at(y + [c]) == Dot(l, y, c, Rank(l))
  {
    assert Front(y + [c]) == y && Last(y + [c]) == c;
  }

  // ---------------------------------------------------------------- reshape

  function Ones(n: nat): (r: seq<nat>)
    ensures |r| == n && forall i | 0 <= i < n :: r[i] == 1
  {
    seq(n, _ => 1)
  }

  function Zeros(n: nat): (r: Index)
    ensures |r| == n && forall i | 0 <= i < n :: r[i] == 0
  {
    seq(n, _ => 0)
  }

  /** The product of the dimensions that are given, that is, not -1. */
  function KnownProduct(dims: seq<int>): int {
    if dims == [] then 1 else (if dims[0] == -1 then 1 else dims[0]) * KnownProduct(dims[1..])
  }

  predicate AllNat(dims: seq<int>) {
    forall i | 0 <= i < |dims| :: dims[i] >= 0
  }

  function FillIn(dims: seq<int>, fill: int): (r: seq<int>)
    ensures |r| == |dims|
  {
    if dims == [] then [] else [if dims[0] == -1 then fill else dims[0]] + FillIn(dims[1..], fill)
  }

  /** The new shape with -1 expanded. Division by zero, a remainder and negative sizes are errors. */
  function NewShape(shape: seq<nat>, dims: seq<int>): Option<seq<nat>> {
    if |dims| < 2 then None
    else if -1 !in dims then if AllNat(dims) then Some(dims) else None
    else
      var known := KnownProduct(dims);
      if known <= 0 || Prod(shape) % known != 0 then None
      else
        var filled := FillIn(dims, Prod(shape) / known);
        if AllNat(filled) then Some(filled) else None
  }

  lemma {:induction false} FilledIn(dims: seq<int>, fill: int, i: nat)
    requires i < |dims|
    ensures FillIn(dims, fill)[i] == if dims[i] == -1 then fill else dims[i]
  {
    if i > 0 { FilledIn(dims[1..], fill, i - 1); }
  }

  /** Expanding keeps the dimensions that are given and needs at least two; a single -1 becomes what keeps
      the number of entries. */
  lemma ExpandedShape(shape: seq<nat>, dims: seq<int>)
    ensures -1 !in dims ==> NewShape(shape, dims) == if |dims| >= 2 && AllNat(dims) then Some(dims) else None
    ensures NewShape(shape, dims).Some? ==>
              var s := NewShape(shape, dims).value;
              && |s| == |dims| >= 2
              && (forall i | 0 <= i < |s| :: dims[i] != -1 ==> s[i] as int == dims[i])
              && (forall i | 0 <= i < |s| :: dims[i] == -1 ==> s[i] * KnownProduct(dims) == Prod(shape))
  {
    hide Prod;
    if -1 in dims && NewShape(shape, dims).Some? {
      var known := KnownProduct(dims);
      forall i | 0 <= i < |dims|
        ensures FillIn(dims, Prod(shape) / known)[i] == if dims[i] == -1 then Prod(shape) / known else dims[i]
      {
        FilledIn(dims, Prod(shape) / known, i);
      }
      assert Prod(shape) / known * known == Prod(shape);
    }
  }

  /** Reshaping a plain tensor keeps the number of entries. */
  function Reshaped(t: Tensor, dims: seq<int>): Option<Tensor> {
    var s := NewShape(t.shape, dims);
    if s.None? || Prod(s.value) != Prod(t.shape) then None else Some(Reshape(t, s.value))
  }

  /** Reshaping the factors: rows are kept whole, A becomes one matrix, B takes the new leading axes. */
  function ReshapeLora(l: Lora, dims: seq<int>): Option<Lora>
    requires Shaped(l)
  {
    var s := NewShape(Shape(l), dims);
    if s.None? || Last(s.value) != Cols(l) then None
    else
      var shapeA := Ones(|s.value| - 2) + [Rank(l)] + [Cols(l)];
      var shapeB := Front(s.value) + [Rank(l)];
      if Prod(shapeA) != Prod(l.a.shape) || Prod(shapeB) != Prod(l.b.shape) then None
      else Some(Lora(Reshape(l.a, shapeA), Reshape(l.b, shapeB)))
  }

  lemma {:induction false} ProdOnes(n: nat)
    ensures Prod(Ones(n)) == 1
  {
    if n > 0 {
      assert Front(Ones(n)) == Ones(n - 1);
      ProdOnes(n - 1);
    }
  }

  lemma {:induction false} AllOnes(s: seq<nat>)
    requires Prod(s) == 1
    ensures s == Ones(|s|)
  {
    if s != [] {
      var p, m := Prod(Front(s)), Last(s);
      assert p == 1 && m == 1 by { OneTimesOne(p, m); }
      AllOnes(Front(s));
      assert s == Front(s) + [m];
    }
  }

  lemma OneTimesOne(p: nat, m: nat)
    requires p * m == 1
    ensures p == 1 && m == 1
  {
    MulMonotone(2, p, m);
    MulMonotone(2, m, p);
  }

  lemma Cancel(a: nat, b: nat, m: nat)
    requires m > 0 && a * m == b * m
    ensures a == b
  {
    MulMonotone(a + 1, b, m);
    MulMonotone(b + 1, a, m);
  }

  lemma {:induction false} RavelZeros(n: nat)
    ensures In(Zeros(n), Ones(n)) && Ravel(Ones(n), Zeros(n)) == 0
  {
    if n > 0 {
      assert Front(Ones(n)) == Ones(n - 1) && Front(Zeros(n)) == Zeros(n - 1);
      RavelZeros(n - 1);
    }
  }

  /** With at least one column, a reshape that keeps the number of entries forces A to be one matrix. */
  lemma ReshapeForces(l: Lora, dims: seq<int>)
    requires Usable(l) && ReshapeLora(l, dims).Some? && Cols(l) > 0
    ensures var s := NewShape(Shape(l), dims).value;
            LeadA(l) == Ones(|LeadA(l)|) && Prod(Front(s)) == Prod(LeadB(l) + [Rows(l)])
  {
    var s := NewShape(Shape(l), dims).value;
    Parts(l);
    ProdOnes(|s| - 2);
    ProdSnoc(Ones(|s| - 2), Rank(l));
    ProdSnoc(Ones(|s| - 2) + [Rank(l)], Cols(l));
    ProdSnoc(LeadA(l), Rank(l));
    ProdSnoc(LeadA(l) + [Rank(l)], Cols(l));
    Cancel(Prod(LeadA(l)) * Rank(l), 1 * Rank(l), Cols(l));
    Cancel(Prod(LeadA(l)), 1, Rank(l));
    AllOnes(LeadA(l));
    ProdSnoc(Front(s), Rank(l));
    ProdSnoc(LeadB(l) + [Rows(l)], Rank(l));
    Cancel(Prod(Front(s)), Prod(LeadB(l) + [Rows(l)]), Rank(l));
  }

  /** The reshaped B at row x is B at the row with the same row-major number. */
  lemma ReshapedB(l: Lora, front: seq<nat>, x: Index, j: nat)
    requires Usable(l) && In(x, front) && j < Rank(l)
    ensures Reshape(l.b, front + [Rank(l)]).at(x + [j]) == l.b.at(Unravel(LeadB(l) + [Rows(l)], Ravel(front, x)) + [j])
  {
    hide Unravel, Ravel, Prod, BroadcastsTo;
    Parts(l);
    SplitLast(front, Rank(l), x, j);
    UnravelSplit(LeadB(l) + [Rows(l)], Rank(l), Ravel(front, x), j);
  }

  lemma MatrixPosition(lead: seq<nat>, z: Index, rank: nat, cols: nat, j: nat, c: nat)
    requires In(z, lead) && Ravel(lead, z) == 0 && j < rank && c < cols
    ensures In(z + [j] + [c], lead + [rank] + [cols])
    ensures Ravel(lead + [rank] + [cols], z + [j] + [c]) == j * cols + c
    ensures Unravel(lead + [rank] + [cols], j * cols + c) == z + [j] + [c]
  {
    hide Unravel, Ravel, In, Prod;
    var s, y := lead + [rank], z + [j];
    assert In(y, s) && Ravel(s, y) == j by {
      SplitLast(lead, rank, z, j);
      assert 0 * rank == 0;
    }
    SplitLast(s, cols, y, c);
    UnravelRavel(s + [cols], y + [c]);
  }

  lemma ReshapedA(l: Lora, n: nat, j: nat, c: nat)
    requires Usable(l) && LeadA(l) == Ones(|LeadA(l)|) && j < Rank(l) && c < Cols(l)
    ensures Reshape(l.a, Ones(n) + [Rank(l)] + [Cols(l)]).at(Zeros(n) + [j] + [c]) ==
            l.a.at(Zeros(|LeadA(l)|) + [j] + [c])
  {
    hide Unravel, Ravel, In;
    Parts(l);
    RavelZeros(n);
    RavelZeros(|LeadA(l)|);
    MatrixPosition(Ones(n), Zeros(n), Rank(l), Cols(l), j, c);
    MatrixPosition(LeadA(l), Zeros(|LeadA(l)|), Rank(l), Cols(l), j, c);
  }

  lemma ClipOnes(lead: Index, n: nat)
    requires |lead| == n
    ensures Clip(lead, Ones(n)) == Zeros(n)
  {
  }

  lemma ReshapeShape(l: Lora, dims: seq<int>)
    requires Usable(l) && ReshapeLora(l, dims).Some?
    ensures var l', s := ReshapeLora(l, dims).value, NewShape(Shape(l), dims).value;
            && Usable(l') && Rank(l') == Rank(l) && Cols(l') == Cols(l)
            && LeadA(l') == Ones(|s| - 2) && Shape(l') == s && |l'.b.shape| == |s|
            && Front(s) + [Cols(l)] == s
  {
  }

  lemma ReshapeTerm(l: Lora, dims: seq<int>, x: Index, c: nat, j: nat)
    requires Usable(l) && ReshapeLora(l, dims).Some?
    requires In(x, Front(NewShape(Shape(l), dims).value)) && c < Cols(l) && j < Rank(l)
    ensures var l', s := ReshapeLora(l, dims).value, NewShape(Shape(l), dims).value;
            var y := Unravel(LeadB(l) + [Rows(l)], Ravel(Front(s), x));
            Shaped(l') && |x| + 1 == |l'.b.shape| && Term(l', x, c, j) == Term(l, y, c, j)
  {
    hide NewShape, Unravel, Ravel, Reshape, Clip;
    var l', s := ReshapeLora(l, dims).value, NewShape(Shape(l), dims).value;
    var y := Unravel(LeadB(l) + [Rows(l)], Ravel(Front(s), x));
    ReshapeShape(l, dims);
    ReshapeForces(l, dims);
    ReshapedB(l, Front(s), x, j);
    ReshapedA(l, |s| - 2, j, c);
    ClipOnes(Front(x), |s| - 2);
    ClipOnes(Front(y), |LeadA(l)|);
  }

  /** Reshaping with the row size kept. */
  lemma ReshapeCommutes(l: Lora, dims: seq<int>)
    requires Usable(l) && ReshapeLora(l, dims).Some?
    ensures var l', s := ReshapeLora(l, dims).value, NewShape(Shape(l), dims).value;
            Usable(l') && Same(Product(l'), Reshape(Product(l), s))
    ensures Reshaped(Product(l), dims) == Some(Reshape(Product(l), NewShape(Shape(l), dims).value))
  {
    var l', s := ReshapeLora(l, dims).value, NewShape(Shape(l), dims).value;
    hide Term, NewShape, ReshapeLora, Unravel, Ravel, Prod;
    Parts(l);
    ReshapeShape(l, dims);
    ProdSnoc(Front(s), Cols(l));
    ProdSnoc(LeadB(l) + [Rows(l)], Cols(l));
    if Cols(l) > 0 { ReshapeForces(l, dims); }
    forall idx: Index | In(idx, s)
      ensures Product(l').at(idx) == Reshape(Product(l), s).at(idx)
    {
      InUnsnoc(idx, s);
      ReshapeEntry(l, dims, Front(idx), Last(idx));
    }
  }

  /** The row-major numbering takes the reshaped product's entry to an entry of the product. */
  lemma ReshapedProduct(l: Lora, front: seq<nat>, x: Index, c: nat)
    requires Shaped(l) && In(x, front) && c < Cols(l)
    ensures var y := Unravel(LeadB(l) + [Rows(l)], Ravel(front, x));
            Reshape(Product(l), front + [Cols(l)]).at(x + [c]) == Product(l).at(y + [c])
  {
    hide Dot, Prod, Unravel, Ravel, Product;
    Parts(l);
    assert Product(l).shape == Shape(l) by { ProductShape(l); }
    SplitLast(front, Cols(l), x, c);
    UnravelSplit(LeadB(l) + [Rows(l)], Cols(l), Ravel(front, x), c);
  }

  lemma ReshapeEntry(l: Lora, dims: seq<int>, x: Index, c: nat)
    requires Usable(l) && ReshapeLora(l, dims).Some?
    requires In(x, Front(NewShape(Shape(l), dims).value)) && c < Cols(l)
    ensures var l', s := ReshapeLora(l, dims).value, NewShape(Shape(l), dims).value;
            Shaped(l') && Product(l').at(x + [c]) == Reshape(Product(l), s).at(x + [c])
  {
    var l', s := ReshapeLora(l, dims).value, NewShape(Shape(l), dims).value;
    hide Term, NewShape, ReshapeLora, Unravel, Ravel, Prod, Dot, Product, Reshape;
    Parts(l);
    ReshapeShape(l, dims);
    var y := Unravel(LeadB(l) + [Rows(l)], Ravel(Front(s), x));
    ReshapedProduct(l, Front(s), x, c);
    ProductEntry(l, y, c);
    ProductEntry(l', x, c);
    forall j | 0 <= j < Rank(l)
      ensures Term(l', x, c, j) == Term(l, y, c, j)
    {
      ReshapeTerm(l, dims, x, c, j);
    }
    DotSame(l', x, c, l, y, c, Rank(l));
  }

  /** The sizes the factors must have for the reshape to go through. */
  lemma ReshapeSizes(l: Lora, s: seq<nat>)
    requires Usable(l) && |s| >= 2 && Last(s) == Cols(l)
    ensures var shapeA, shapeB := Ones(|s| - 2) + [Rank(l)] + [Cols(l)], Front(s) + [Rank(l)];
            && (Prod(shapeA) == Prod(l.a.shape) <==> Cols(l) == 0 || LeadA(l) == Ones(|LeadA(l)|))
            && (Prod(shapeB) == Prod(l.b.shape) <==> Prod(Front(s)) == Prod(LeadB(l) + [Rows(l)]))
  {
    hide Prod;
    Parts(l);
    ProdOnes(|s| - 2);
    ProdSnoc(Ones(|s| - 2), Rank(l));
    ProdSnoc(Ones(|s| - 2) + [Rank(l)], Cols(l));
    ProdSnoc(LeadA(l), Rank(l));
    ProdSnoc(LeadA(l) + [Rank(l)], Cols(l));
    ProdSnoc(Front(s), Rank(l));
    ProdSnoc(LeadB(l) + [Rows(l)], Rank(l));
    OnesIff(LeadA(l), Rank(l), Cols(l));
    if Prod(Front(s)) * Rank(l) == Prod(LeadB(l) + [Rows(l)]) * Rank(l) {
      Cancel(Prod(Front(s)), Prod(LeadB(l) + [Rows(l)]), Rank(l));
    }
  }

  lemma OnesIff(lead: seq<nat>, rank: nat, cols: nat)
    requires rank > 0
    ensures 1 * rank * cols == Prod(lead) * rank * cols <==> cols == 0 || lead == Ones(|lead|)
  {
    ProdOnes(|lead|);
    if cols > 0 && 1 * rank * cols == Prod(lead) * rank * cols {
      Cancel(1 * rank, Prod(lead) * rank, cols);
      Cancel(1, Prod(lead), rank);
      AllOnes(lead);
    }
  }

  /** When a reshape goes through: where the full tensor can be reshaped like that, exactly when rows are kept
      whole and A is one matrix. Without columns the sizes say nothing of A. */
  lemma ReshapeDefined(l: Lora, dims: seq<int>)
    requires Usable(l)
    ensures var s := NewShape(Shape(l), dims);
            && (ReshapeLora(l, dims).Some? <==>
                  && s.Some? && Last(s.value) == Cols(l) && Prod(Front(s.value)) == Prod(LeadB(l) + [Rows(l)])
                  && (Cols(l) == 0 || LeadA(l) == Ones(|LeadA(l)|)))
            && (Cols(l) > 0 ==>
                  (ReshapeLora(l, dims).Some? <==>
                     Reshaped(Product(l), dims).Some? && Last(s.value) == Cols(l) && LeadA(l) == Ones(|LeadA(l)|)))
  {
    hide Prod, BroadcastsTo;
    var s := NewShape(Shape(l), dims);
    ProductShape(l);
    if s.Some? && Last(s.value) == Cols(l) {
      Parts(l);
      ReshapeSizes(l, s.value);
      assert s.value == Front(s.value) + [Cols(l)];
      ProdSnoc(Front(s.value), Cols(l));
      ProdSnoc(LeadB(l) + [Rows(l)], Cols(l));
      if Cols(l) > 0 && Prod(s.value) == Prod(Shape(l)) {
        Cancel(Prod(Front(s.value)), Prod(LeadB(l) + [Rows(l)]), Cols(l));
      }
    }
  }

  // ---------------------------------------------------------------- permute and transpose

  /** An axis number as the class normalises it: first made negative, then counted from the end. */
  function Axis(d: int, n: nat): (r: Option<nat>)
    ensures r.Some? ==> r.value < n
  {
    var neg := if d >= 0 then d - n else d;
    var pos := if neg < 0 then neg + n else neg;
    if 0 <= pos < n then Some(pos) else None
  }

  /** So an axis can be counted from the front or from the end, and also from one length further on. */
  lemma AxisIs(d: int, n: nat, p: nat)
    ensures Axis(d, n) == Some(p) <==> p < n && (d == p || d == p - n || d == p + n)
  {
  }

  function Axes(dims: seq<int>, n: nat): (r: Option<seq<nat>>)
    ensures r.Some? ==> |r.value| == |dims| && forall i | 0 <= i < |dims| :: Axis(dims[i], n) == Some(r.value[i])
  {
    if dims == [] then Some([])
    else
      var before, d := Axes(Front(dims), n), Axis(Last(dims), n);
      if before.None? || d.None? then None else Some(before.value + [d.value])
  }

  /** Permuting the axes of a plain tensor. */
  function PermutedBy(t: Tensor, dims: seq<int>): Option<Tensor> {
    var axes := Axes(dims, |t.shape|);
    if axes.None? || |dims| != |t.shape| || !IsPermutation(axes.value) then None else Some(Permute(t, axes.value))
  }

  /** Permuting the factors: a fixed last axis permutes B when A is one matrix; the transposition of a
      matrix swaps the transposed factors; nothing else is supported. */
  function PermuteLora(l: Lora, dims: seq<int>): Option<Lora>
    requires Shaped(l)
  {
    var n := |Shape(l)|;
    var axes := Axes(dims, n);
    if axes.None? || |dims| != n || !IsPermutation(axes.value) then None
    else if Last(axes.value) == n - 1 then
      if LeadA(l) == Ones(n - 2) then Some(Lora(l.a, Permute(l.b, axes.value))) else None
    else if n == 2 then Some(Lora(Permute(l.b, axes.value), Permute(l.a, axes.value)))
    else None
  }

  lemma PermuteKeepsLast(l: Lora, axes: seq<nat>)
    requires Usable(l) && |axes| == |Shape(l)| && IsPermutation(axes)
    requires Last(axes) == |axes| - 1 && LeadA(l) == Ones(|axes| - 2)
    ensures var l' := Lora(l.a, Permute(l.b, axes));
            Usable(l') && Same(Product(l'), Permute(Product(l), axes))
  {
    hide Source;
    var l' := Lora(l.a, Permute(l.b, axes));
    var n := |axes|;
    LastFixed(axes);
    assert Shaped(l') && Rank(l') == Rank(l) && LeadA(l') == LeadA(l);
    assert Shape(l') == Permuted(Shape(l), axes);
    forall idx: Index | In(idx, Shape(l'))
      ensures Product(l').at(idx) == Permute(Product(l), axes).at(idx)
    {
      assert |idx| == n;
      var x, c := Front(idx), Last(idx);
      assert idx == x + [c];
      SourceSnoc(axes, x, c);
      var y := Source(Front(axes), x);
      forall j | 0 <= j < Rank(l)
        ensures Term(l', x, c, j) == Term(l, y, c, j)
      {
        SourceSnoc(axes, x, j);
        ClipOnes(Front(x), n - 2);
        ClipOnes(Front(y), n - 2);
      }
      DotSame(l', x, c, l, y, c, Rank(l));
      assert Front(y + [c]) == y && Last(y + [c]) == c;
    }
  }

  lemma TwoAxes(axes: seq<nat>)
    requires |axes| == 2 && IsPermutation(axes) && Last(axes) != 1
    ensures axes == [1, 0]
  {
  }

  lemma SourceSwap(i: nat, j: nat)
    ensures IsPermutation([1, 0]) && Source([1, 0], [i, j]) == [j, i]
  {
    assert [1, 0][0] == 1 && [1, 0][1] == 0;
    assert Find([1, 0], 1) == 0 && Find([1, 0], 0) == 1;
  }

  lemma SwapTerm(l: Lora, r: nat, c: nat, j: nat)
    requires Usable(l) && |Shape(l)| == 2
    ensures IsPermutation([1, 0])
    ensures var l' := Lora(Permute(l.b, [1, 0]), Permute(l.a, [1, 0]));
            Shaped(l') && Term(l', [r], c, j) == Term(l, [c], r, j)
  {
    SourceSwap(r, j);
    SourceSwap(j, c);
    var l' := Lora(Permute(l.b, [1, 0]), Permute(l.a, [1, 0]));
    assert Clip(Front([r]), LeadA(l')) == [] && Clip(Front([c]), LeadA(l)) == [];
    assert [] + [j] + [c] == [j, c] && [] + [j] + [r] == [j, r] && [r] + [j] == [r, j] && [c] + [j] == [c, j];
  }

  lemma SwappedShape(l: Lora)
    requires Usable(l) && |Shape(l)| == 2
    ensures IsPermutation([1, 0])
    ensures var l' := Lora(Permute(l.b, [1, 0]), Permute(l.a, [1, 0]));
            && Usable(l') && |l'.b.shape| == 2 && Rank(l') == Rank(l) && LeadA(l') == []
            && Shape(l') == [Cols(l), Rows(l)] == Permuted(Shape(l), [1, 0])
  {
    hide Source;
    SourceSwap(0, 0);
  }

  /** The transposition of a matrix: swap the factors and transpose both. */
  lemma SwapCommutes(l: Lora)
    requires Usable(l) && |Shape(l)| == 2
    ensures IsPermutation([1, 0])
    ensures var l' := Lora(Permute(l.b, [1, 0]), Permute(l.a, [1, 0]));
            Usable(l') && Same(Product(l'), Permute(Product(l), [1, 0]))
  {
    hide Term, Dot, Source, IsPermutation;
    SwappedShape(l);
    var l' := Lora(Permute(l.b, [1, 0]), Permute(l.a, [1, 0]));
    forall idx: Index | In(idx, Shape(l'))
      ensures Product(l').at(idx) == Permute(Product(l), [1, 0]).at(idx)
    {
      var r, c := idx[0], idx[1];
      assert idx == [r] + [c] == [r, c];
      SourceSwap(r, c);
      forall j | 0 <= j < Rank(l)
        ensures Term(l', [r], c, j) == Term(l, [c], r, j)
      {
        SwapTerm(l, r, c, j);
      }
      DotSame(l', [r], c, l, [c], r, Rank(l));
      ProductEntry(l', [r], c);
      ProductEntry(l, [c], r);
      assert [c] + [r] == [c, r];
    }
  }

  lemma PermuteCommutes(l: Lora, dims: seq<int>)
    requires Usable(l) && PermuteLora(l, dims).Some?
    ensures var l' := PermuteLora(l, dims).value;
            Usable(l') && PermutedBy(Product(l), dims).Some? && Same(Product(l'), PermutedBy(Product(l), dims).value)
  {
    hide Permute, Product, Same;
    assert Product(l).shape == Shape(l) by { ProductShape(l); }
    var axes := Axes(dims, |Shape(l)|).value;
    if Last(axes) == |Shape(l)| - 1 {
      PermuteKeepsLast(l, axes);
    } else {
      TwoAxes(axes);
      SwapCommutes(l);
    }
  }

  /** When a permutation goes through: where the full tensor can be permuted like that, exactly for a matrix,
      or when the last axis stays and A is one matrix. */
  lemma PermuteDefined(l: Lora, dims: seq<int>)
    requires Usable(l)
    ensures var n := |Shape(l)|;
            PermuteLora(l, dims).Some? <==>
            PermutedBy(Product(l), dims).Some? &&
            (n == 2 || (Axis(Last(dims), n) == Some(n - 1) && LeadA(l) == Ones(n - 2)))
  {
    hide IsPermutation, Permute, BroadcastsTo;
    ProductShape(l);
    Parts(l);
    var n := |Shape(l)|;
    if PermutedBy(Product(l), dims).Some? {
      assert Axis(Last(dims), n) == Some(Last(Axes(dims, n).value));
      if n == 2 { assert LeadA(l) == Ones(0); }
    }
  }

  lemma ProductShape(l: Lora)
    requires Shaped(l)
    ensures Product(l).shape == Shape(l)
  {
  }

  /** Axis numbers 0 to n - 1 with two of them swapped; a negative number counts from the end. */
  function SwapDims(n: nat, dim0: int, dim1: int): (r: Option<seq<int>>)
    ensures r.Some? ==> |r.value| == n && forall k | 0 <= k < n :: 0 <= r.value[k] < n
  {
    var i, j := Position(dim0, n), Position(dim1, n);
    if i.None? || j.None? then None
    else Some(seq(n, k requires 0 <= k < n => if k == i.value then j.value else if k == j.value then i.value else k))
  }

  /** Transposing is permuting by the list with two axes swapped. */
  function TransposeLora(l: Lora, dim0: int, dim1: int): Option<Lora>
    requires Shaped(l)
  {
    var dims := SwapDims(|Shape(l)|, dim0, dim1);
    if dims.None? then None else PermuteLora(l, dims.value)
  }

  function Swapped<T>(s: seq<T>, i: nat, j: nat): seq<T>
    requires i < |s| && j < |s|
  {
    s[i := s[j]][j := s[i]]
  }

  /** The tensor library's transpose: the entry at a position is the one with two coordinates swapped. */
  function TransposedBy(t: Tensor, dim0: int, dim1: int): Option<Tensor> {
    var n := |t.shape|;
    var i, j := Position(dim0, n), Position(dim1, n);
    if i.None? || j.None? then None
    else Some(Tensor(Swapped(t.shape, i.value, j.value),
                     (idx: Index) => if |idx| == n then t.at(Swapped(idx, i.value, j.value)) else 0))
  }

  lemma AxesOfNats(dims: seq<int>, n: nat)
    requires forall k | 0 <= k < |dims| :: 0 <= dims[k] < n
    ensures Axes(dims, n).Some? && Axes(dims, n).value == dims
  {
    if dims != [] { AxesOfNats(Front(dims), n); }
  }

  /** Permuting by the swapped list swaps the two coordinates of every entry. */
  lemma SwapPermutes(t: Tensor, dim0: int, dim1: int)
    requires SwapDims(|t.shape|, dim0, dim1).Some?
    ensures TransposedBy(t, dim0, dim1).Some?
    ensures PermutedBy(t, SwapDims(|t.shape|, dim0, dim1).value).Some?
    ensures Same(PermutedBy(t, SwapDims(|t.shape|, dim0, dim1).value).value, TransposedBy(t, dim0, dim1).value)
  {
    var n := |t.shape|;
    var i, j := Position(dim0, n).value, Position(dim1, n).value;
    var dims := SwapDims(n, dim0, dim1).value;
    AxesOfNats(dims, n);
    var axes := Axes(dims, n).value;
    SwapIsPermutation(axes, i, j);
    assert Permuted(t.shape, axes) == Swapped(t.shape, i, j);
    forall idx: Index | In(idx, Permuted(t.shape, axes))
      ensures Source(axes, idx) == Swapped(idx, i, j)
    {
      SwapSource(axes, i, j, idx);
    }
  }

  lemma SwapIsPermutation(axes: seq<nat>, i: nat, j: nat)
    requires i < |axes| && j < |axes|
    requires forall k | 0 <= k < |axes| :: axes[k] == if k == i then j else if k == j then i else k
    ensures IsPermutation(axes)
  {
    forall d: nat | d < |axes|
      ensures d in axes
    {
      assert axes[if d == i then j else if d == j then i else d] == d;
    }
  }

  lemma SwapSource(axes: seq<nat>, i: nat, j: nat, idx: Index)
    requires i < |axes| && j < |axes| && |idx| == |axes| && IsPermutation(axes)
    requires forall k | 0 <= k < |axes| :: axes[k] == if k == i then j else if k == j then i else k
    ensures Source(axes, idx) == Swapped(idx, i, j)
  {
    forall d | 0 <= d < |axes|
      ensures Source(axes, idx)[d] == Swapped(idx, i, j)[d]
    {
      var k := if d == i then j else if d == j then i else d;
      assert axes[k] == d;
      FindUnique(axes, k);
    }
  }

  /** Transposing the factors, for any axis numbers the class supports. */
  lemma TransposeCommutes(l: Lora, dim0: int, dim1: int)
    requires Usable(l) && TransposeLora(l, dim0, dim1).Some?
    ensures var l' := TransposeLora(l, dim0, dim1).value;
            && Usable(l') && TransposedBy(Product(l), dim0, dim1).Some?
            && Same(Product(l'), TransposedBy(Product(l), dim0, dim1).value)
  {
    hide Same, PermuteLora, PermutedBy, SwapDims, TransposedBy, Product, BroadcastsTo;
    var dims := SwapDims(|Shape(l)|, dim0, dim1).value;
    ProductShape(l);
    PermuteCommutes(l, dims);
    SwapPermutes(Product(l), dim0, dim1);
    SameTransitive(Product(PermuteLora(l, dims).value), PermutedBy(Product(l), dims).value,
                   TransposedBy(Product(l), dim0, dim1).value);
  }

  /** When a transposition goes through: exactly for a matrix, or when the last axis stays and A is one matrix. */
  lemma TransposeDefined(l: Lora, dim0: int, dim1: int)
    requires Usable(l)
    ensures var n := |Shape(l)|;
            TransposeLora(l, dim0, dim1).Some? <==>
            TransposedBy(Product(l), dim0, dim1).Some? &&
            (n == 2 || (LeadA(l) == Ones(n - 2) &&
                        (Position(dim0, n) == Position(dim1, n) || Some(n - 1) !in {Position(dim0, n), Position(dim1, n)})))
  {
    hide PermuteLora, PermutedBy, Product, BroadcastsTo;
    var n := |Shape(l)|;
    ProductShape(l);
    if SwapDims(n, dim0, dim1).Some? {
      var dims := SwapDims(n, dim0, dim1).value;
      PermuteDefined(l, dims);
      SwapPermutes(Product(l), dim0, dim1);
      assert Axis(Last(dims), n) == Some(Last(dims));
    }
  }

  lemma SameTransitive(x: Tensor, y: Tensor, z: Tensor)
    requires Same(x, y) && Same(y, z)
    ensures Same(x, z)
  {
  }

  // ---------------------------------------------------------------- stack and cat

  predicate SameShapes(ls: seq<Lora>) {
    ls != [] && forall i | 0 <= i < |ls| :: ls[i].a.shape == ls[0].a.shape && ls[i].b.shape == ls[0].b.shape
  }

  function As(ls: seq<Lora>): (r: seq<Tensor>)
    ensures |r| == |ls| && forall i | 0 <= i < |ls| :: r[i] == ls[i].a
  {
    seq(|ls|, i requires 0 <= i < |ls| => ls[i].a)
  }

  function Bs(ls: seq<Lora>): (r: seq<Tensor>)
    ensures |r| == |ls| && forall i | 0 <= i < |ls| :: r[i] == ls[i].b
  {
    seq(|ls|, i requires 0 <= i < |ls| => ls[i].b)
  }

  predicate AllUsable(ls: seq<Lora>) {
    forall i | 0 <= i < |ls| :: Usable(ls[i])
  }

  function Products(ls: seq<Lora>): (r: seq<Tensor>)
    requires AllUsable(ls)
    ensures |r| == |ls| && forall i | 0 <= i < |ls| :: r[i] == Product(ls[i])
  {
    seq(|ls|, i requires 0 <= i < |ls| => Product(ls[i]))
  }

  function StackLora(ls: seq<Lora>): Lora
    requires SameShapes(ls)
  {
    Lora(Stack(As(ls)), Stack(Bs(ls)))
  }

  lemma StackTerm(ls: seq<Lora>, i: nat, y: Index, c: nat, j: nat)
    requires SameShapes(ls) && AllUsable(ls) && i < |ls| && |y| + 1 == |ls[0].b.shape|
    ensures var l' := StackLora(ls);
            Shaped(l') && |l'.b.shape| == |y| + 2 && Term(l', [i] + y, c, j) == Term(ls[i], y, c, j)
  {
    var l' := StackLora(ls);
    assert Usable(ls[i]) && Usable(ls[0]);
    assert LeadA(l') == [|ls|] + LeadA(ls[0]);
    var i0 := if |ls| == 1 then 0 else i;
    assert Front([i] + y) == [i] + Front(y);
    assert Clip([i] + Front(y), LeadA(l')) == [i0] + Clip(Front(y), LeadA(ls[0]));
    var z := Clip(Front(y), LeadA(ls[0])) + [j] + [c];
    assert [i0] + Clip(Front(y), LeadA(ls[0])) + [j] + [c] == [i0] + z && ([i0] + z)[1..] == z;
    assert [i] + y + [j] == [i] + (y + [j]) && ([i] + (y + [j]))[1..] == y + [j];
  }

  lemma StackShape(ls: seq<Lora>)
    requires SameShapes(ls) && AllUsable(ls)
    ensures var l' := StackLora(ls);
            && Usable(l') && Rank(l') == Rank(ls[0]) && Shape(l') == [|ls|] + Shape(ls[0]) == Stack(Products(ls)).shape
            && |l'.b.shape| == |ls[0].b.shape| + 1
  {
    var l' := StackLora(ls);
    assert Usable(ls[0]);
    assert LeadA(l') == [|ls|] + LeadA(ls[0]) && LeadB(l') == [|ls|] + LeadB(ls[0]);
    assert Shape(l') == [|ls|] + Shape(ls[0]);
  }

  lemma StackEntry(ls: seq<Lora>, i: nat, y: Index, c: nat)
    requires SameShapes(ls) && AllUsable(ls) && i < |ls| && |y| + 1 == |ls[0].b.shape|
    ensures Shaped(StackLora(ls)) && Product(StackLora(ls)).at([i] + y + [c]) == Stack(Products(ls)).at([i] + y + [c])
  {
    StackShape(ls);
    hide Term, Clip, Dot, Product, BroadcastsTo, Stack, StackLora;
    var l' := StackLora(ls);
    assert Usable(ls[i]);
    forall j | 0 <= j < Rank(l')
      ensures Term(l', [i] + y, c, j) == Term(ls[i], y, c, j)
    {
      StackTerm(ls, i, y, c, j);
    }
    DotSame(l', [i] + y, c, ls[i], y, c, Rank(l'));
    ProductEntry(l', [i] + y, c);
    ProductEntry(ls[i], y, c);
    StackedEntry(Products(ls), i, y, c);
  }

  lemma StackedEntry(ts: seq<Tensor>, i: nat, y: Index, c: nat)
    requires i < |ts|
    ensures Stack(ts).at([i] + y + [c]) == ts[i].at(y + [c])
  {
    assert [i] + y + [c] == [i] + (y + [c]) && ([i] + (y + [c]))[1..] == y + [c];
  }

  /** Stacking along a new first axis. */
  lemma StackCommutes(ls: seq<Lora>)
    requires SameShapes(ls) && AllUsable(ls)
    ensures var l' := StackLora(ls);
            Usable(l') && Same(Product(l'), Stack(Products(ls)))
  {
    StackShape(ls);
    ProductShape(StackLora(ls));
    hide BroadcastsTo, Stack, StackLora, Product, Shape, In;
    forall idx: Index | In(idx, Shape(StackLora(ls)))
      ensures Product(StackLora(ls)).at(idx) == Stack(Products(ls)).at(idx)
    {
      StackAt(ls, idx);
    }
  }

  lemma StackAt(ls: seq<Lora>, idx: Index)
    requires SameShapes(ls) && AllUsable(ls) && Shaped(StackLora(ls)) && In(idx, Shape(StackLora(ls)))
    ensures Product(StackLora(ls)).at(idx) == Stack(Products(ls)).at(idx)
  {
    StackShape(ls);
    hide BroadcastsTo, Stack, StackLora, Product;
    var rest := idx[1..];
    assert idx == [idx[0]] + Front(rest) + [Last(rest)];
    StackEntry(ls, idx[0], Front(rest), Last(rest));
  }

  /** What the library demands of tensors to be joined along their first axis. */
  predicate SameTails(ts: seq<Tensor>) {
    ts != [] && NonScalar(ts) && forall i | 0 <= i < |ts| :: ts[i].shape[1..] == ts[0].shape[1..]
  }

  predicate Joinable(ls: seq<Lora>) {
    AllUsable(ls) && SameTails(As(ls)) && SameTails(Bs(ls))
  }

  function CatLora(ls: seq<Lora>): Lora
    requires Joinable(ls)
  {
    Lora(Cat(As(ls)), Cat(Bs(ls)))
  }

  /** No factor A is broadcast along the joined axis. */
  predicate FirstAxesAgree(ls: seq<Lora>)
    requires AllUsable(ls)
  {
    forall i | 0 <= i < |ls| :: ls[i].a.shape[0] == ls[i].b.shape[0]
  }

  lemma ProductsJoinable(ls: seq<Lora>)
    requires Joinable(ls) && |ls[0].b.shape| > 2
    ensures NonScalar(Products(ls)) && FirstSizes(Products(ls)) == FirstSizes(Bs(ls))
  {
    forall i | 0 <= i < |ls|
      ensures Shape(ls[i]) != [] && Shape(ls[i])[0] == ls[i].b.shape[0]
    {
      assert Usable(ls[i]) && Bs(ls)[i].shape[1..] == Bs(ls)[0].shape[1..];
    }
  }

  lemma FirstSizesAgree(ls: seq<Lora>)
    requires Joinable(ls) && FirstAxesAgree(ls)
    ensures FirstSizes(As(ls)) == FirstSizes(Bs(ls))
  {
    hide FirstSizes, Total, BroadcastsTo;
  }

  lemma CatShape(ls: seq<Lora>)
    requires Joinable(ls) && |ls[0].b.shape| > 2 && FirstAxesAgree(ls)
    ensures var l', n := CatLora(ls), Total(FirstSizes(Bs(ls)));
            && FirstSizes(As(ls)) == FirstSizes(Bs(ls)) && Shaped(l') && Usable(l') && Rank(l') == Rank(ls[0])
            && LeadA(l') == [n] + LeadA(ls[0])[1..] && Shape(l') == [n] + Shape(ls[0])[1..]
            && |l'.b.shape| == |ls[0].b.shape|
  {
    hide Total;
    assert Usable(ls[0]);
    FirstSizesAgree(ls);
    var l', n := CatLora(ls), Total(FirstSizes(Bs(ls)));
    assert l'.a.shape == [n] + ls[0].a.shape[1..] && l'.b.shape == [n] + ls[0].b.shape[1..];
    forall i | 0 <= i < |LeadA(l')|
      ensures LeadA(l')[i] == 1 || LeadA(l')[i] == LeadB(l')[i]
    {
      if i > 0 { assert LeadA(l')[i] == LeadA(ls[0])[i] && LeadB(l')[i] == LeadB(ls[0])[i]; }
    }
  }

  lemma SameAxes(ls: seq<Lora>, w: nat)
    requires Joinable(ls) && w < |ls|
    ensures Usable(ls[w]) && Usable(ls[0])
    ensures ls[w].a.shape[1..] == ls[0].a.shape[1..] && ls[w].b.shape[1..] == ls[0].b.shape[1..]
    ensures |ls[w].a.shape| == |ls[0].a.shape| && |ls[w].b.shape| == |ls[0].b.shape|
    ensures Rank(ls[w]) == Rank(ls[0])
    ensures |ls[0].b.shape| > 2 ==> LeadA(ls[w])[1..] == LeadA(ls[0])[1..]
  {
    assert As(ls)[w].shape[1..] == As(ls)[0].shape[1..] && Bs(ls)[w].shape[1..] == Bs(ls)[0].shape[1..];
    if |ls[0].b.shape| > 2 {
      assert LeadA(ls[w])[1..] == ls[w].a.shape[1..][..|ls[w].a.shape| - 3];
      assert LeadA(ls[0])[1..] == ls[0].a.shape[1..][..|ls[0].a.shape| - 3];
    }
    var k := |ls[0].b.shape| - 2;
    assert ls[w].b.shape[1..][k] == ls[0].b.shape[1..][k];
  }

  lemma ClipCons(i: nat, lead: Index, n: nat, shape: seq<nat>)
    requires |lead| == |shape|
    ensures Clip([i] + lead, [n] + shape) == [if n == 1 then 0 else i] + Clip(lead, shape)
  {
  }

  lemma {:induction false} LocateOfOne(sizes: seq<nat>, i: nat)
    requires Total(sizes) == 1 && i < 1
    ensures Locate(sizes, i).offset == 0 && sizes[Locate(sizes, i).which] == 1
  {
    if i >= sizes[0] { LocateOfOne(sizes[1..], i - sizes[0]); }
  }

  /** One factor of a concatenation at a position of the first axis. */
  lemma CatAt(ts: seq<Tensor>, i: nat, rest: Index)
    requires ts != [] && NonScalar(ts) && i < Total(FirstSizes(ts))
    ensures var p := Locate(FirstSizes(ts), i);
            Cat(ts).at([i] + rest) == ts[p.which].at([p.offset] + rest)
  {
    hide Locate, Total;
    assert ([i] + rest)[1..] == rest;
  }

  lemma Grouping(i: nat, t: Index, j: nat, c: nat)
    ensures [i] + t + [j] == [i] + (t + [j]) && [i] + t + [j] + [c] == [i] + (t + [j] + [c])
  {
  }

  lemma CatTermA(ls: seq<Lora>, i: nat, lead: Index, c: nat, j: nat)
    requires Joinable(ls) && |ls[0].b.shape| > 2 && FirstAxesAgree(ls)
    requires i < Total(FirstSizes(Bs(ls))) && |lead| + 3 == |ls[0].b.shape|
    ensures var l', p := CatLora(ls), Locate(FirstSizes(Bs(ls)), i);
            && p.which < |ls| && Usable(ls[p.which]) && Shaped(l')
            && |LeadA(l')| == |LeadA(ls[p.which])| == |lead| + 1
            && l'.a.at(Clip([i] + lead, LeadA(l')) + [j] + [c]) ==
               ls[p.which].a.at(Clip([p.offset] + lead, LeadA(ls[p.which])) + [j] + [c])
  {
    hide Clip, Total, Locate, Cat;
    var sizes := FirstSizes(Bs(ls));
    var l', p, n := CatLora(ls), Locate(sizes, i), Total(sizes);
    CatShape(ls);
    SameAxes(ls, p.which);
    var w, la := ls[p.which], LeadA(ls[0])[1..];
    assert LeadA(w) == [sizes[p.which]] + la;
    ClipCons(i, lead, n, la);
    ClipCons(p.offset, lead, sizes[p.which], la);
    var z := Clip(lead, la);
    assert n == 1 ==> i == 0;
    assert sizes[p.which] == 1 ==> p.offset == 0;
    Grouping(i, z, j, c);
    Grouping(p.offset, z, j, c);
    CatAt(As(ls), i, z + [j] + [c]);
  }

  lemma CatTerm(ls: seq<Lora>, i: nat, t: Index, c: nat, j: nat)
    requires Joinable(ls) && |ls[0].b.shape| > 2 && FirstAxesAgree(ls)
    requires i < Total(FirstSizes(Bs(ls))) && |t| + 2 == |ls[0].b.shape|
    ensures var l', p := CatLora(ls), Locate(FirstSizes(Bs(ls)), i);
            && p.which < |ls| && Usable(ls[p.which]) && |ls[p.which].b.shape| == |t| + 2
            && Shaped(l') && |l'.b.shape| == |t| + 2
            && Term(l', [i] + t, c, j) == Term(ls[p.which], [p.offset] + t, c, j)
  {
    hide Clip, Total, Locate, Cat, FirstSizes;
    var sizes := FirstSizes(Bs(ls));
    var p := Locate(sizes, i);
    CatShape(ls);
    SameAxes(ls, p.which);
    assert Front([i] + t) == [i] + Front(t) && Front([p.offset] + t) == [p.offset] + Front(t);
    CatTermA(ls, i, Front(t), c, j);
    Grouping(i, t, j, c);
    Grouping(p.offset, t, j, c);
    CatAt(Bs(ls), i, t + [j]);
  }

  /** Joining along an existing first axis, three or more axes: both factors are joined. */
  lemma CatCommutes(ls: seq<Lora>)
    requires Joinable(ls) && |ls[0].b.shape| > 2 && FirstAxesAgree(ls)
    ensures NonScalar(Products(ls))
    ensures Usable(CatLora(ls)) && Same(Product(CatLora(ls)), Cat(Products(ls)))
  {
    hide Term, Locate, Total, FirstSizes;
    var l' := CatLora(ls);
    CatShape(ls);
    ProductsJoinable(ls);
    forall idx: Index | In(idx, Shape(l'))
      ensures Product(l').at(idx) == Cat(Products(ls)).at(idx)
    {
      CatEntry(ls, idx[0], Front(idx[1..]), Last(idx[1..]));
      assert idx == [idx[0]] + Front(idx[1..]) + [Last(idx[1..])];
    }
  }

  lemma CatEntry(ls: seq<Lora>, i: nat, t: Index, c: nat)
    requires Joinable(ls) && |ls[0].b.shape| > 2 && FirstAxesAgree(ls) && NonScalar(Products(ls))
    requires i < Total(FirstSizes(Bs(ls))) && |t| + 2 == |ls[0].b.shape|
    ensures Shaped(CatLora(ls)) && Product(CatLora(ls)).at([i] + t + [c]) == Cat(Products(ls)).at([i] + t + [c])
  {
    hide Term, Locate, Total, FirstSizes, Cat, Product, Dot;
    var p := Locate(FirstSizes(Bs(ls)), i);
    CatShape(ls);
    ProductsJoinable(ls);
    CatTerm(ls, i, t, c, 0);
    SameAxes(ls, p.which);
    var l', w := CatLora(ls), ls[p.which];
    ProductEntry(l', [i] + t, c);
    ProductEntry(w, [p.offset] + t, c);
    forall j | 0 <= j < Rank(l')
      ensures Term(l', [i] + t, c, j) == Term(w, [p.offset] + t, c, j)
    {
      CatTerm(ls, i, t, c, j);
    }
    DotSame(l', [i] + t, c, w, [p.offset] + t, c, Rank(l'));
    Grouping(i, t, c, c);
    Grouping(p.offset, t, c, c);
    CatAt(Products(ls), i, t + [c]);
  }

  lemma {:induction false} TotalsDiffer(xs: seq<nat>, ys: seq<nat>)
    requires |xs| == |ys| && forall i | 0 <= i < |xs| :: ys[i] >= 1 && (xs[i] == 1 || xs[i] == ys[i])
    ensures |xs| <= Total(xs) <= Total(ys) && (Total(xs) == Total(ys) <==> xs == ys)
  {
    if xs != [] {
      TotalsDiffer(xs[1..], ys[1..]);
      assert xs == [xs[0]] + xs[1..] && ys == [ys[0]] + ys[1..];
    }
  }

  lemma JoinedAxes(ls: seq<Lora>)
    requires Joinable(ls) && |ls[0].b.shape| > 2
    ensures var xs, ys := FirstSizes(As(ls)), FirstSizes(Bs(ls));
            && (forall i | 0 <= i < |ls| :: xs[i] == 1 || xs[i] == ys[i])
            && Shaped(CatLora(ls)) && LeadA(CatLora(ls)) != [] && LeadB(CatLora(ls)) != []
            && LeadA(CatLora(ls))[0] == Total(xs) && LeadB(CatLora(ls))[0] == Total(ys)
  {
    hide Total, FirstSizes;
    assert Usable(ls[0]);
    var xs, ys := FirstSizes(As(ls)), FirstSizes(Bs(ls));
    forall i | 0 <= i < |ls|
      ensures xs[i] == 1 || xs[i] == ys[i]
    {
      SameAxes(ls, i);
      assert LeadA(ls[i])[0] == xs[i] && LeadB(ls[i])[0] == ys[i];
    }
    var l' := CatLora(ls);
    assert l'.a.shape == [Total(xs)] + ls[0].a.shape[1..] && l'.b.shape == [Total(ys)] + ls[0].b.shape[1..];
  }

  /** The shape condition is exact: joining two or more factor pairs of which some A is broadcast along
      the joined axis gives factors that no longer broadcast (when no B is empty along it). */
  lemma CatIff(ls: seq<Lora>)
    requires Joinable(ls) && |ls| >= 2 && |ls[0].b.shape| > 2
    requires forall i | 0 <= i < |ls| :: ls[i].b.shape[0] >= 1
    ensures Shaped(CatLora(ls)) && (Usable(CatLora(ls)) <==> FirstAxesAgree(ls))
  {
    hide Total, FirstSizes, SameTails;
    JoinedAxes(ls);
    var xs, ys := FirstSizes(As(ls)), FirstSizes(Bs(ls));
    TotalsDiffer(xs, ys);
    if FirstAxesAgree(ls) {
      CatShape(ls);
    } else {
      var i :| 0 <= i < |ls| && ls[i].a.shape[0] != ls[i].b.shape[0];
      assert xs[i] != ys[i];
      hide LeadA, LeadB, CatLora;
    }
  }

  lemma SharedTerm(ls: seq<Lora>, i: nat, c: nat, j: nat)
    requires Joinable(ls) && |ls[0].b.shape| == 2
    requires forall k | 0 <= k < |ls| :: Same(ls[0].a, ls[k].a)
    requires i < Total(FirstSizes(Bs(ls))) && c < Cols(ls[0]) && j < Rank(ls[0])
    ensures var l', p := Lora(ls[0].a, Cat(Bs(ls))), Locate(FirstSizes(Bs(ls)), i);
            && p.which < |ls| && Usable(ls[p.which]) && |ls[p.which].b.shape| == 2
            && Shaped(l') && |l'.b.shape| == 2
            && Term(l', [i], c, j) == Term(ls[p.which], [p.offset], c, j)
  {
    assert ls != [];
    hide Locate, Total, Cat, FirstSizes, SameTails, BroadcastsTo;
    var l', p := Lora(ls[0].a, Cat(Bs(ls))), Locate(FirstSizes(Bs(ls)), i);
    SharedShape(ls);
    SameAxes(ls, p.which);
    var w := ls[p.which];
    MatrixTerm(l', i, c, j);
    MatrixTerm(w, p.offset, c, j);
    hide Term, Clip;
    assert Same(ls[0].a, w.a);
    assert ls[0].a.at([j, c]) == w.a.at([j, c]) by { assert In([j, c], ls[0].a.shape); }
    hide Same, Joinable;
    CatAt(Bs(ls), i, [j]);
  }

  lemma MatrixTerm(l: Lora, i: nat, c: nat, j: nat)
    requires Shaped(l) && |l.b.shape| == 2
    ensures Term(l, [i], c, j) == l.b.at([i] + [j]) * l.a.at([j, c])
  {
    assert Clip(Front([i]), LeadA(l)) == [];
    assert [] + [j] + [c] == [j, c];
  }

  lemma SharedColumns(ls: seq<Lora>, i: nat)
    requires Joinable(ls) && |ls[0].b.shape| == 2 && i < |ls| && Same(ls[0].a, ls[i].a)
    ensures Usable(ls[i]) && Shape(ls[i]) == [ls[i].b.shape[0]] + [Cols(ls[0])]
  {
    SameAxes(ls, i);
    hide Joinable, BroadcastsTo;
    assert Front(ls[i].b.shape) == [ls[i].b.shape[0]];
  }

  lemma SharedShape(ls: seq<Lora>)
    requires Joinable(ls) && |ls[0].b.shape| == 2
    requires forall k | 0 <= k < |ls| :: Same(ls[0].a, ls[k].a)
    ensures var l' := Lora(ls[0].a, Cat(Bs(ls)));
            && Usable(ls[0]) && Usable(l') && |l'.b.shape| == 2 && Rank(l') == Rank(ls[0]) && LeadA(l') == []
            && Shape(l') == [Total(FirstSizes(Bs(ls)))] + [Cols(ls[0])]
    ensures NonScalar(Products(ls)) && FirstSizes(Products(ls)) == FirstSizes(Bs(ls))
    ensures |Products(ls)| > 0 && |Products(ls)[0].shape| > 0 && Products(ls)[0].shape[1..] == [Cols(ls[0])]
  {
    hide Total, Same;
    assert Usable(ls[0]);
    forall i | 0 <= i < |ls|
      ensures Shape(ls[i]) == [ls[i].b.shape[0]] + [Cols(ls[0])]
    {
      SharedColumns(ls, i);
    }
    assert FirstSizes(Products(ls)) == FirstSizes(Bs(ls));
    var l' := Lora(ls[0].a, Cat(Bs(ls)));
    assert l'.b.shape == [Total(FirstSizes(Bs(ls)))] + [Rank(ls[0])];
  }

  /** Joining matrices that share A: the rows of B are joined. */
  lemma CatSharedA(ls: seq<Lora>)
    requires Joinable(ls) && |ls[0].b.shape| == 2
    requires forall i | 0 <= i < |ls| :: Same(ls[0].a, ls[i].a)
    ensures NonScalar(Products(ls))
    ensures var l' := Lora(ls[0].a, Cat(Bs(ls)));
            Usable(l') && Same(Product(l'), Cat(Products(ls)))
  {
    hide Locate, Total, Term, FirstSizes;
    var l' := Lora(ls[0].a, Cat(Bs(ls)));
    SharedShape(ls);
    assert Cat(Products(ls)).shape == Shape(l');
    forall idx: Index | In(idx, Shape(l'))
      ensures Product(l').at(idx) == Cat(Products(ls)).at(idx)
    {
      SharedEntry(ls, idx[0], idx[1]);
      assert idx == [idx[0]] + [idx[1]];
    }
  }

  lemma SharedEntry(ls: seq<Lora>, i: nat, c: nat)
    requires Joinable(ls) && |ls[0].b.shape| == 2 && NonScalar(Products(ls))
    requires forall k | 0 <= k < |ls| :: Same(ls[0].a, ls[k].a)
    requires i < Total(FirstSizes(Bs(ls))) && c < Cols(ls[0])
    ensures var l' := Lora(ls[0].a, Cat(Bs(ls)));
            Shaped(l') && Product(l').at([i] + [c]) == Cat(Products(ls)).at([i] + [c])
  {
    hide Term, Locate, Total, FirstSizes, Cat, Product, Dot, Same;
    var l', p := Lora(ls[0].a, Cat(Bs(ls))), Locate(FirstSizes(Bs(ls)), i);
    SharedShape(ls);
    SameAxes(ls, p.which);
    var w := ls[p.which];
    ProductEntry(l', [i], c);
    ProductEntry(w, [p.offset], c);
    forall j | 0 <= j < Rank(l')
      ensures Term(l', [i], c, j) == Term(w, [p.offset], c, j)
    {
      SharedTerm(ls, i, c, j);
    }
    DotSame(l', [i], c, w, [p.offset], c, Rank(l'));
    CatAt(Products(ls), i, [c]);
  }
}
