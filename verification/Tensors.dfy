/** Dense tensors and the tensor library operations the LoRA converter uses, by what they do to
    entries. Scalars are integers. */
module Tensors {

  type Index = seq<nat>

  datatype Tensor = Tensor(shape: seq<nat>, at: Index -> int)

  predicate In(idx: Index, shape: seq<nat>) {
    |idx| == |shape| && forall i | 0 <= i < |idx| :: idx[i] < shape[i]
  }

  ghost predicate Same(x: Tensor, y: Tensor) {
    x.shape == y.shape && forall i | In(i, x.shape) :: x.at(i) == y.at(i)
  }

  function Front<T>(s: seq<T>): seq<T>
    requires s != []
  {
    s[..|s| - 1]
  }

  function Last<T>(s: seq<T>): T
    requires s != []
  {
    s[|s| - 1]
  }

  lemma InSnoc(idx: Index, shape: seq<nat>, k: nat, n: nat)
    ensures In(idx + [k], shape + [n]) <==> In(idx, shape) && k < n
  {
    if In(idx + [k], shape + [n]) {
      assert forall i | 0 <= i < |idx| :: (idx + [k])[i] == idx[i] && (shape + [n])[i] == shape[i];
      assert (idx + [k])[|idx|] == k && (shape + [n])[|idx|] == n;
    }
  }

  lemma InUnsnoc(idx: Index, shape: seq<nat>)
    requires In(idx, shape) && shape != []
    ensures idx != [] && In(Front(idx), Front(shape)) && Last(idx) < Last(shape) && idx == Front(idx) + [Last(idx)]
  {
  }

  // ---------------------------------------------------------------- row-major order

  function Prod(s: seq<nat>): nat {
    if s == [] then 1 else Prod(Front(s)) * Last(s)
  }

  function Ravel(s: seq<nat>, idx: Index): nat
    requires In(idx, s)
  {
    if s == [] then 0 else Ravel(Front(s), Front(idx)) * Last(s) + Last(idx)
  }

  function Unravel(s: seq<nat>, k: nat): (idx: Index)
    ensures |idx| == |s|
  {
    if s == [] then [] else if Last(s) == 0 then Unravel(Front(s), 0) + [0]
    else Unravel(Front(s), k / Last(s)) + [k % Last(s)]
  }

  lemma MulMonotone(a: nat, b: nat, n: nat)
    ensures a <= b ==> a * n <= b * n
  {
  }

  lemma MulLess(a: nat, b: nat, n: nat, r: nat)
    requires a < b && r < n
    ensures a * n + r < b * n
  {
    assert (a + 1) * n <= b * n;
  }

  lemma DivLess(k: nat, b: nat, n: nat)
    requires n > 0 && k < b * n
    ensures k / n < b
  {
    MulMonotone(b, k / n, n);
  }

  lemma DivMod(a: nat, n: nat, r: nat)
    requires r < n
    ensures (a * n + r) / n == a && (a * n + r) % n == r
  {
    var x := a * n + r;
    assert x == (x / n) * n + x % n;
    MulMonotone(x / n + 1, a, n);
    MulMonotone(a + 1, x / n, n);
  }

  lemma {:induction false} RavelInRange(s: seq<nat>, idx: Index)
    requires In(idx, s)
    ensures Ravel(s, idx) < Prod(s)
  {
    if s != [] {
      RavelInRange(Front(s), Front(idx));
      MulLess(Ravel(Front(s), Front(idx)), Prod(Front(s)), Last(s), Last(idx));
    }
  }

  lemma {:induction false} UnravelIn(s: seq<nat>, k: nat)
    requires k < Prod(s)
    ensures In(Unravel(s, k), s)
  {
    if s != [] {
      assert Last(s) > 0;
      DivLess(k, Prod(Front(s)), Last(s));
      UnravelIn(Front(s), k / Last(s));
      InSnoc(Unravel(Front(s), k / Last(s)), Front(s), k % Last(s), Last(s));
      assert s == Front(s) + [Last(s)];
    }
  }

  lemma {:induction false} UnravelRavel(s: seq<nat>, idx: Index)
    requires In(idx, s)
    ensures Unravel(s, Ravel(s, idx)) == idx
  {
    if s != [] {
      InUnsnoc(idx, s);
      DivMod(Ravel(Front(s), Front(idx)), Last(s), Last(idx));
      UnravelRavel(Front(s), Front(idx));
    }
  }

  /** Row-major positions with the last axis split off. */
  lemma SplitLast(s: seq<nat>, m: nat, idx: Index, k: nat)
    requires In(idx, s) && k < m
    ensures In(idx + [k], s + [m]) && Ravel(s + [m], idx + [k]) == Ravel(s, idx) * m + k
    ensures Prod(s + [m]) == Prod(s) * m
  {
    InSnoc(idx, s, k, m);
    assert Front(s + [m]) == s && Front(idx + [k]) == idx;
  }

  lemma UnravelSplit(s: seq<nat>, m: nat, a: nat, k: nat)
    requires k < m
    ensures Unravel(s + [m], a * m + k) == Unravel(s, a) + [k]
  {
    assert Front(s + [m]) == s;
    DivMod(a, m, k);
  }

  lemma ProdSnoc(s: seq<nat>, m: nat)
    ensures Prod(s + [m]) == Prod(s) * m
  {
    assert Front(s + [m]) == s;
  }

  function Reshape(t: Tensor, shape: seq<nat>): Tensor {
    Tensor(shape, (idx: Index) => if In(idx, shape) then t.at(Unravel(t.shape, Ravel(shape, idx))) else 0)
  }

  // ---------------------------------------------------------------- indexing

  /** What is taken along one axis: one position, which drops the axis, or a list of positions. */
  datatype Pick = One(j: nat) | Many(sel: seq<nat>)

  predicate Fits(p: Pick, n: nat) {
    if p.One? then p.j < n else forall i | 0 <= i < |p.sel| :: p.sel[i] < n
  }

  predicate AllFit(ps: seq<Pick>, shape: seq<nat>) {
    |ps| == |shape| && forall i | 0 <= i < |ps| :: Fits(ps[i], shape[i])
  }

  function Kept(ps: seq<Pick>): seq<nat> {
    if ps == [] then [] else Kept(Front(ps)) + if Last(ps).One? then [] else [|Last(ps).sel|]
  }

  /** The position in the indexed tensor that a position of the result comes from. */
  function Expand(ps: seq<Pick>, idx: Index): Index
    requires In(idx, Kept(ps))
  {
    if ps == [] then []
    else if Last(ps).One? then
      assert Kept(ps) == Kept(Front(ps));
      Expand(Front(ps), idx) + [Last(ps).j]
    else
      InUnsnoc(idx, Kept(ps));
      assert Front(Kept(ps)) == Kept(Front(ps));
      Expand(Front(ps), Front(idx)) + [Last(ps).sel[Last(idx)]]
  }

  function At(t: Tensor, ps: seq<Pick>): Tensor {
    Tensor(Kept(ps), (idx: Index) => if In(idx, Kept(ps)) then t.at(Expand(ps, idx)) else 0)
  }

  lemma {:induction false} ExpandIn(ps: seq<Pick>, shape: seq<nat>, idx: Index)
    requires AllFit(ps, shape) && In(idx, Kept(ps))
    ensures In(Expand(ps, idx), shape)
  {
    if ps != [] {
      assert AllFit(Front(ps), Front(shape));
      assert Fits(Last(ps), Last(shape));
      assert shape == Front(shape) + [Last(shape)];
      if Last(ps).One? {
        assert Kept(ps) == Kept(Front(ps));
        ExpandIn(Front(ps), Front(shape), idx);
        InSnoc(Expand(Front(ps), idx), Front(shape), Last(ps).j, Last(shape));
      } else {
        InUnsnoc(idx, Kept(ps));
        assert Front(Kept(ps)) == Kept(Front(ps));
        ExpandIn(Front(ps), Front(shape), Front(idx));
        InSnoc(Expand(Front(ps), Front(idx)), Front(shape), Last(ps).sel[Last(idx)], Last(shape));
      }
    }
  }

  lemma KeptSnoc(ps: seq<Pick>, sel: seq<nat>)
    ensures Kept(ps + [Many(sel)]) == Kept(ps) + [|sel|]
  {
    assert Front(ps + [Many(sel)]) == ps;
  }

  lemma ExpandSnoc(ps: seq<Pick>, sel: seq<nat>, idx: Index, k: nat)
    requires In(idx, Kept(ps)) && k < |sel|
    ensures In(idx + [k], Kept(ps + [Many(sel)]))
    ensures Expand(ps + [Many(sel)], idx + [k]) == Expand(ps, idx) + [sel[k]]
  {
    KeptSnoc(ps, sel);
    InSnoc(idx, Kept(ps), k, |sel|);
    assert Front(ps + [Many(sel)]) == ps && Front(idx + [k]) == idx;
  }

  // ---------------------------------------------------------------- permuting axes

  predicate IsPermutation(dims: seq<nat>) {
    (forall i | 0 <= i < |dims| :: dims[i] < |dims|) &&
    (forall i, j | 0 <= i < j < |dims| :: dims[i] != dims[j]) &&
    (forall d: nat | d < |dims| :: d in dims)
  }

  function Find(dims: seq<nat>, d: nat): (i: nat)
    requires d in dims
    ensures i < |dims| && dims[i] == d
  {
    if dims[0] == d then 0 else 1 + Find(dims[1..], d)
  }

  /** The position whose entry at axis dims[i] is idx[i]. */
  function Source(dims: seq<nat>, idx: Index): (r: Index)
    requires IsPermutation(dims) && |idx| == |dims|
    ensures |r| == |dims|
  {
    seq(|dims|, d requires 0 <= d < |dims| => idx[Find(dims, d)])
  }

  function Permuted(shape: seq<nat>, dims: seq<nat>): seq<nat>
    requires IsPermutation(dims) && |dims| == |shape|
  {
    seq(|dims|, i requires 0 <= i < |dims| => shape[dims[i]])
  }

  function Permute(t: Tensor, dims: seq<nat>): Tensor
    requires IsPermutation(dims) && |dims| == |t.shape|
  {
    Tensor(Permuted(t.shape, dims), (idx: Index) => if |idx| == |dims| then t.at(Source(dims, idx)) else 0)
  }

  lemma FindUnique(dims: seq<nat>, i: nat)
    requires IsPermutation(dims) && i < |dims|
    ensures Find(dims, dims[i]) == i
  {
  }

  lemma SourceIn(shape: seq<nat>, dims: seq<nat>, idx: Index)
    requires IsPermutation(dims) && |dims| == |shape| && In(idx, Permuted(shape, dims))
    ensures In(Source(dims, idx), shape)
  {
    forall d | 0 <= d < |dims|
      ensures Source(dims, idx)[d] < shape[d]
    {
      assert Permuted(shape, dims)[Find(dims, d)] == shape[d];
    }
  }

  /** A permutation that keeps the last axis permutes the others. */
  lemma LastFixed(dims: seq<nat>)
    requires IsPermutation(dims) && dims != [] && Last(dims) == |dims| - 1
    ensures IsPermutation(Front(dims))
  {
    var n := |dims| - 1;
    forall d: nat | d < n
      ensures d in Front(dims)
    {
      assert dims[Find(dims, d)] == d;
      assert Front(dims)[Find(dims, d)] == d;
    }
  }

  lemma SourceSnoc(dims: seq<nat>, idx: Index, k: nat)
    requires IsPermutation(dims) && dims != [] && Last(dims) == |dims| - 1 && |idx| == |dims| - 1
    ensures IsPermutation(Front(dims))
    ensures Source(dims, idx + [k]) == Source(Front(dims), idx) + [k]
  {
    LastFixed(dims);
    var n := |dims| - 1;
    forall d | 0 <= d < n
      ensures Source(dims, idx + [k])[d] == Source(Front(dims), idx)[d]
    {
      var i := Find(Front(dims), d);
      assert dims[i] == d;
      FindUnique(dims, i);
    }
    FindUnique(dims, n);
  }

  // ---------------------------------------------------------------- joining tensors

  predicate AllShaped(ts: seq<Tensor>, shape: seq<nat>) {
    forall i | 0 <= i < |ts| :: ts[i].shape == shape
  }

  function Stack(ts: seq<Tensor>): Tensor
    requires ts != []
  {
    Tensor([|ts|] + ts[0].shape,
           (idx: Index) => if idx != [] && idx[0] < |ts| then ts[idx[0]].at(idx[1..]) else 0)
  }

  /** Which tensor of a concatenation holds position i of the first axis, and where in it. */
  datatype Place = Place(which: nat, offset: nat)

  function Total(sizes: seq<nat>): nat {
    if sizes == [] then 0 else sizes[0] + Total(sizes[1..])
  }

  function Locate(sizes: seq<nat>, i: nat): (p: Place)
    requires i < Total(sizes)
    ensures p.which < |sizes| && p.offset < sizes[p.which]
  {
    if i < sizes[0] then Place(0, i)
    else var p := Locate(sizes[1..], i - sizes[0]); Place(p.which + 1, p.offset)
  }

  predicate NonScalar(ts: seq<Tensor>) {
    forall i | 0 <= i < |ts| :: ts[i].shape != []
  }

  function FirstSizes(ts: seq<Tensor>): (r: seq<nat>)
    requires NonScalar(ts)
    ensures |r| == |ts| && forall i | 0 <= i < |ts| :: r[i] == ts[i].shape[0]
  {
    if ts == [] then [] else [ts[0].shape[0]] + FirstSizes(ts[1..])
  }

  function Cat(ts: seq<Tensor>): Tensor
    requires ts != [] && NonScalar(ts)
  {
    var sizes := FirstSizes(ts);
    Tensor([Total(sizes)] + ts[0].shape[1..],
           (idx: Index) =>
             if idx != [] && idx[0] < Total(sizes) then
               var p := Locate(sizes, idx[0]); ts[p.which].at([p.offset] + idx[1..])
             else 0)
  }
}
