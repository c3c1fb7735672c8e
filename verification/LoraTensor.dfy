/** Low-rank tensors kept as two factors A and B: every operation on the factors agrees with the same
    operation on the product of B and A. */
module LoraTensor {
  import opened Tensors
  import opened Wrappers

  datatype Lora = Lora(a: Tensor, b: Tensor)

  /** What the constructor asserts. */
  predicate Shaped(l: Lora) {
    |l.a.shape| == |l.b.shape| >= 2 && l.a.shape[|l.a.shape| - 2] == l.b.shape[|l.b.shape| - 1]
  }

  function LeadA(l: Lora): seq<nat>
    requires Shaped(l)
  {
    l.a.shape[..|l.a.shape| - 2]
  }

  function LeadB(l: Lora): seq<nat>
    requires Shaped(l)
  {
    l.b.shape[..|l.b.shape| - 2]
  }

  function Rank(l: Lora): nat
    requires Shaped(l)
  {
    Last(l.b.shape)
  }

  function Rows(l: Lora): nat
    requires Shaped(l)
  {
    l.b.shape[|l.b.shape| - 2]
  }

  function Cols(l: Lora): nat
    requires Shaped(l)
  {
    Last(l.a.shape)
  }

  /** The shape property: the leading axes of B, then rows and columns. */
  function Shape(l: Lora): seq<nat>
    requires Shaped(l)
  {
    Front(l.b.shape) + [Cols(l)]
  }

  lemma Parts(l: Lora)
    requires Shaped(l)
    ensures l.b.shape == LeadB(l) + [Rows(l)] + [Rank(l)] && Front(l.b.shape) == LeadB(l) + [Rows(l)]
    ensures l.a.shape == LeadA(l) + [Rank(l)] + [Cols(l)]
    ensures Shape(l) == LeadB(l) + [Rows(l)] + [Cols(l)] && |LeadA(l)| == |LeadB(l)|
  {
  }

  predicate BroadcastsTo(from: seq<nat>, to: seq<nat>) {
    |from| == |to| && forall i | 0 <= i < |from| :: from[i] == 1 || from[i] == to[i]
  }

  /** A's leading axes broadcast to B's, so that the product has the shape the class reports. */
  predicate Usable(l: Lora) {
    Shaped(l) && Rank(l) > 0 && BroadcastsTo(LeadA(l), LeadB(l))
  }

  // ---------------------------------------------------------------- the product

  function Clip(lead: Index, shape: seq<nat>): Index
    requires |lead| == |shape|
  {
    seq(|lead|, i requires 0 <= i < |lead| => if shape[i] == 1 then 0 else lead[i])
  }

  function Term(l: Lora, y: Index, c: nat, j: nat): int
    requires Shaped(l) && |y| == |l.b.shape| - 1
  {
    l.b.at(y + [j]) * l.a.at(Clip(Front(y), LeadA(l)) + [j] + [c])
  }

  /** The sum over the first k ranks. */
  function Dot(l: Lora, y: Index, c: nat, k: nat): int
    requires Shaped(l) && |y| == |l.b.shape| - 1
  {
    if k == 0 then 0 else Dot(l, y, c, k - 1) + Term(l, y, c, k - 1)
  }

  /** The full tensor the two factors stand for. */
  function Product(l: Lora): Tensor
    requires Shaped(l)
  {
    Tensor(Shape(l), (idx: Index) => if |idx| == |l.b.shape| then Dot(l, Front(idx), Last(idx), Rank(l)) else 0)
  }

  lemma {:induction false} DotSame(l: Lora, y: Index, c: nat, l': Lora, y': Index, c': nat, k: nat)
    requires Shaped(l) && |y| == |l.b.shape| - 1 && Shaped(l') && |y'| == |l'.b.shape| - 1
    requires forall j | 0 <= j < k :: Term(l, y, c, j) == Term(l', y', c', j)
    ensures Dot(l, y, c, k) == Dot(l', y', c', k)
  {
    hide Term;
    if k > 0 { DotSame(l, y, c, l', y', c', k - 1); }
  }

  // ---------------------------------------------------------------- slices

  datatype Slice = Slice(start: Option<int>, stop: Option<int>, step: Option<int>)

  const ALL := Slice(None, None, None)

  function Clamp(v: int, n: nat): (r: nat)
    ensures r <= n
  {
    if v < 0 then (if v + n < 0 then 0 else v + n) else if v > n then n else v
  }

  function Positions(from: nat, to: nat, step: nat): (r: seq<nat>)
    requires step > 0
    ensures forall i | 0 <= i < |r| :: from <= r[i] < to
    ensures |r| <= (if from < to then to - from else 0)
    decreases if from < to then to - from else 0
  {
    if from >= to then [] else [from] + Positions(from + step, to, step)
  }

  /** The positions a slice selects along an axis of size n; the library rejects steps below one. */
  function Selection(s: Slice, n: nat): (r: Option<seq<nat>>)
    ensures r.Some? ==> Fits(Many(r.value), n) && |r.value| <= n
  {
    var step := if s.step.None? then 1 else s.step.value;
    if step <= 0 then None
    else
      Some(Positions(if s.start.None? then 0 else Clamp(s.start.value, n),
                     if s.stop.None? then n else Clamp(s.stop.value, n), step))
  }

  lemma {:induction false} PositionsAre(from: nat, to: nat, step: nat, i: nat)
    requires step > 0 && i <= |Positions(from, to, step)|
    ensures i < |Positions(from, to, step)| ==> Positions(from, to, step)[i] == from + i * step
    ensures i == |Positions(from, to, step)| ==> from + i * step >= to
    decreases i
  {
    if from < to && i > 0 {
      PositionsAre(from + step, to, step, i - 1);
      assert i * step == (i - 1) * step + step;
    }
  }

  /** Where one end of a slice lies on an axis: missing ends are the axis's own, negative numbers count from its
      end, and numbers beyond the ends are the ends. */
  predicate EndsAt(e: Option<int>, missing: nat, n: nat, at: nat) {
    match e
    case None => at == missing
    case Some(v) =>
      && (v >= n ==> at == n) && (0 <= v < n ==> at as int == v)
      && (v < 0 <= v + n ==> at as int == v + n) && (v + n < 0 ==> at == 0)
  }

  /** A slice selects every step-th position between its two ends, in order. */
  lemma SelectionIs(s: Slice, n: nat, lo: nat, hi: nat, i: nat)
    requires EndsAt(s.start, 0, n, lo) && EndsAt(s.stop, n, n, hi)
    ensures var step := if s.step.None? then 1 else s.step.value;
            (Selection(s, n).Some? <==> step > 0) &&
            (step > 0 ==>
               var sel := Selection(s, n).value;
               && (i < |sel| ==> sel[i] == lo + i * step && sel[i] < hi)
               && (i == |sel| ==> lo + i * step >= hi))
  {
    var step := if s.step.None? then 1 else s.step.value;
    if step > 0 && i <= |Positions(lo, hi, step)| { PositionsAre(lo, hi, step, i); }
    hide Positions;
  }

  function Upto(from: nat, n: nat): (r: seq<nat>)
    ensures |r| == n && forall i | 0 <= i < n :: r[i] == from + i
    decreases n
  {
    if n == 0 then [] else [from] + Upto(from + 1, n - 1)
  }

  function Everything(n: nat): (r: seq<nat>)
    ensures |r| == n && forall i | 0 <= i < n :: r[i] == i
  {
    Upto(0, n)
  }

  lemma {:induction false} PositionsAll(from: nat, n: nat)
    ensures Positions(from, from + n, 1) == Upto(from, n)
    decreases n
  {
    if n > 0 { PositionsAll(from + 1, n - 1); }
  }

  lemma SelectAll(n: nat)
    ensures Selection(ALL, n) == Some(Everything(n))
  {
    PositionsAll(0, n);
  }

  lemma PositionsCount(from: nat, to: nat, step: nat)
    requires step > 1 && from + 1 < to
    ensures |Positions(from, to, step)| < to - from
  {
  }

  /** A slice that selects as many positions as the axis has selects all of them. */
  lemma FullSelection(s: Slice, n: nat)
    requires Selection(s, n).Some? && |Selection(s, n).value| == n
    ensures Selection(s, n).value == Everything(n)
  {
    var step := if s.step.None? then 1 else s.step.value;
    var from := if s.start.None? then 0 else Clamp(s.start.value, n);
    var to := if s.stop.None? then n else Clamp(s.stop.value, n);
    if n > 0 {
      assert from == 0 && to == n;
      if step > 1 && n > 1 {
        PositionsCount(0, n, step);
      } else if n == 1 {
        assert Positions(0, 1, step) == [0];
      } else {
        PositionsAll(0, n);
      }
    }
  }

  // ---------------------------------------------------------------- indexing both factors

  /** How the leading axes of the two factors are indexed together. */
  predicate AlignedAt(pa: Pick, pb: Pick, na: nat, nb: nat) {
    && Fits(pa, na) && Fits(pb, nb) && (na == 1 || na == nb)
    && (pa.One? <==> pb.One?)
    && (pa.One? ==> na == 1 || pa.j == pb.j)
    && (pa.Many? ==> if na == 1 then |pa.sel| == 1 || pb.sel == [] else pa.sel == pb.sel)
    && (pa.Many? ==> |pa.sel| == 1 || |pa.sel| == |pb.sel|)
  }

  predicate Aligned(pa: seq<Pick>, pb: seq<Pick>, la: seq<nat>, lb: seq<nat>) {
    |pa| == |pb| == |la| == |lb| && forall i | 0 <= i < |pa| :: AlignedAt(pa[i], pb[i], la[i], lb[i])
  }

  lemma {:induction false} AlignedBroadcasts(pa: seq<Pick>, pb: seq<Pick>, la: seq<nat>, lb: seq<nat>)
    requires Aligned(pa, pb, la, lb)
    ensures BroadcastsTo(Kept(pa), Kept(pb))
  {
    if pa != [] {
      var i := |pa| - 1;
      assert AlignedAt(pa[i], pb[i], la[i], lb[i]);
      AlignedBroadcasts(Front(pa), Front(pb), Front(la), Front(lb));
    }
  }

  lemma ClipSnoc(x: Index, k: nat, shape: seq<nat>, n: nat)
    requires |x| == |shape|
    ensures Clip(x + [k], shape + [n]) == Clip(x, shape) + [if n == 1 then 0 else k]
  {
  }

  /** Clipping a position of the result and looking it up in A is looking up the position in B and
      clipping that. */
  predicate Agree(pa: seq<Pick>, pb: seq<Pick>, la: seq<nat>, x: Index) {
    && In(x, Kept(pb)) && |Kept(pa)| == |x| && In(Clip(x, Kept(pa)), Kept(pa)) && |Expand(pb, x)| == |la|
    && Expand(pa, Clip(x, Kept(pa))) == Clip(Expand(pb, x), la)
  }

  lemma AgreeOne(pa: seq<Pick>, p: Pick, pb: seq<Pick>, q: Pick, la: seq<nat>, na: nat, x: Index)
    requires Agree(pa, pb, la, x) && p.One? && q.One? && p.j < na && (na == 1 || p.j == q.j)
    ensures Agree(pa + [p], pb + [q], la + [na], x)
  {
    hide In;
    assert Front(pa + [p]) == pa && Front(pb + [q]) == pb;
    assert Kept(pa + [p]) == Kept(pa) && Kept(pb + [q]) == Kept(pb);
    ClipSnoc(Expand(pb, x), q.j, la, na);
  }

  lemma AgreeMany(pa: seq<Pick>, p: Pick, pb: seq<Pick>, q: Pick, la: seq<nat>, na: nat, nb: nat, x: Index, k: nat)
    requires Agree(pa, pb, la, x) && p.Many? && q.Many? && AlignedAt(p, q, na, nb) && k < |q.sel|
    ensures Agree(pa + [p], pb + [q], la + [na], x + [k])
  {
    hide In, Kept, Expand, Clip;
    KeptSnoc(pa, p.sel);
    KeptSnoc(pb, q.sel);
    var z, k' := Clip(x, Kept(pa)), if |p.sel| == 1 then 0 else k;
    ClipSnoc(x, k, Kept(pa), |p.sel|);
    ExpandSnoc(pb, q.sel, x, k);
    ExpandSnoc(pa, p.sel, z, k');
    ClipSnoc(Expand(pb, x), q.sel[k], la, na);
    assert p.sel[k'] == if na == 1 then 0 else q.sel[k];
  }

  lemma {:induction false} ClipExpand(pa: seq<Pick>, pb: seq<Pick>, la: seq<nat>, lb: seq<nat>, x: Index)
    requires Aligned(pa, pb, la, lb) && In(x, Kept(pb))
    ensures Agree(pa, pb, la, x)
  {
    hide Expand, Clip, In, Agree, Aligned, Kept;
    if pa == [] {
      NoAxes(pa, pb, la, lb, x);
    } else {
      var i := |pa| - 1;
      AlignedFront(pa, pb, la, lb);
      KeptFront(pb);
      if pa[i].One? {
        ClipExpand(Front(pa), Front(pb), Front(la), Front(lb), x);
        AgreeOne(Front(pa), pa[i], Front(pb), pb[i], Front(la), la[i], x);
      } else {
        InUnsnoc(x, Kept(pb));
        ClipExpand(Front(pa), Front(pb), Front(la), Front(lb), Front(x));
        AgreeMany(Front(pa), pa[i], Front(pb), pb[i], Front(la), la[i], lb[i], Front(x), Last(x));
      }
    }
  }

  lemma AlignedFront(pa: seq<Pick>, pb: seq<Pick>, la: seq<nat>, lb: seq<nat>)
    requires Aligned(pa, pb, la, lb) && pa != []
    ensures |pa| == |pb| == |la| == |lb|
    ensures AlignedAt(Last(pa), Last(pb), Last(la), Last(lb)) && Aligned(Front(pa), Front(pb), Front(la), Front(lb))
    ensures pa == Front(pa) + [Last(pa)] && pb == Front(pb) + [Last(pb)] && la == Front(la) + [Last(la)]
  {
  }

  lemma KeptFront(ps: seq<Pick>)
    requires ps != []
    ensures Last(ps).One? ==> Kept(ps) == Kept(Front(ps))
    ensures Last(ps).Many? ==> Kept(ps) != [] && Front(Kept(ps)) == Kept(Front(ps)) && Last(Kept(ps)) == |Last(ps).sel|
  {
  }

  lemma NoAxes(pa: seq<Pick>, pb: seq<Pick>, la: seq<nat>, lb: seq<nat>, x: Index)
    requires Aligned(pa, pb, la, lb) && pa == [] && In(x, Kept(pb))
    ensures Agree(pa, pb, la, x)
  {
  }

  function AtBoth(l: Lora, pa: seq<Pick>, pb: seq<Pick>, row: seq<nat>, col: seq<nat>): Lora
    requires Shaped(l)
  {
    Lora(At(l.a, pa + [Many(Everything(Rank(l)))] + [Many(col)]),
         At(l.b, pb + [Many(row)] + [Many(Everything(Rank(l)))]))
  }

  lemma AtBothShape(l: Lora, pa: seq<Pick>, pb: seq<Pick>, row: seq<nat>, col: seq<nat>)
    requires Shaped(l) && |Kept(pa)| == |Kept(pb)|
    ensures var l' := AtBoth(l, pa, pb, row, col);
            && Shaped(l') && Rank(l') == Rank(l) && LeadA(l') == Kept(pa) && LeadB(l') == Kept(pb)
            && Rows(l') == |row| && Cols(l') == |col|
            && Shape(l') == Kept(pb + [Many(row)] + [Many(col)])
  {
    hide Kept, Everything;
    KeptSnoc(pa, Everything(Rank(l)));
    KeptSnoc(pa + [Many(Everything(Rank(l)))], col);
    KeptSnoc(pb, row);
    KeptSnoc(pb + [Many(row)], Everything(Rank(l)));
    KeptSnoc(pb + [Many(row)], col);
  }

  lemma AtTerm(l: Lora, pa: seq<Pick>, pb: seq<Pick>, row: seq<nat>, col: seq<nat>, x: Index, r: nat, c: nat, j: nat)
    requires Usable(l) && Aligned(pa, pb, LeadA(l), LeadB(l)) && In(x, Kept(pb))
    requires r < |row| && c < |col| && j < Rank(l)
    ensures var l' := AtBoth(l, pa, pb, row, col);
            && Shaped(l') && |x| + 2 == |l'.b.shape| && |Expand(pb, x)| + 2 == |l.b.shape|
            && Term(l', x + [r], c, j) == Term(l, Expand(pb, x) + [row[r]], col[c], j)
  {
    var l' := AtBoth(l, pa, pb, row, col);
    AlignedBroadcasts(pa, pb, LeadA(l), LeadB(l));
    AtBothShape(l, pa, pb, row, col);
    ClipExpand(pa, pb, LeadA(l), LeadB(l), x);
    var all := Everything(Rank(l));
    ExpandSnoc(pb, row, x, r);
    ExpandSnoc(pb + [Many(row)], all, x + [r], j);
    var z := Clip(x, Kept(pa));
    ExpandSnoc(pa, all, z, j);
    ExpandSnoc(pa + [Many(all)], col, z + [j], c);
    assert Front(x + [r]) == x && Front(Expand(pb, x) + [row[r]]) == Expand(pb, x);
  }

  /** Indexing the factors consistently is indexing the product. */
  lemma AtCommutes(l: Lora, pa: seq<Pick>, pb: seq<Pick>, row: seq<nat>, col: seq<nat>)
    requires Usable(l) && Aligned(pa, pb, LeadA(l), LeadB(l))
    ensures var l' := AtBoth(l, pa, pb, row, col);
            Usable(l') && Same(Product(l'), At(Product(l), pb + [Many(row)] + [Many(col)]))
  {
    hide Term;
    var l' := AtBoth(l, pa, pb, row, col);
    var ps := pb + [Many(row)] + [Many(col)];
    AlignedBroadcasts(pa, pb, LeadA(l), LeadB(l));
    AtBothShape(l, pa, pb, row, col);
    KeptSnoc(pb, row);
    KeptSnoc(pb + [Many(row)], col);
    forall idx: Index | In(idx, Shape(l'))
      ensures Product(l').at(idx) == At(Product(l), ps).at(idx)
    {
      var y, c := Front(idx), Last(idx);
      InUnsnoc(idx, Kept(ps));
      assert Front(Kept(ps)) == Kept(pb + [Many(row)]);
      InUnsnoc(y, Kept(pb + [Many(row)]));
      var x, r := Front(y), Last(y);
      assert Front(Kept(pb + [Many(row)])) == Kept(pb);
      ExpandSnoc(pb, row, x, r);
      ExpandSnoc(pb + [Many(row)], col, y, c);
      assert |Expand(pb, x)| + 2 == |l.b.shape| by { AtTerm(l, pa, pb, row, col, x, r, c, 0); }
      var y' := Expand(pb, x) + [row[r]];
      forall j | 0 <= j < Rank(l)
        ensures Term(l', y, c, j) == Term(l, y', col[c], j)
      {
        AtTerm(l, pa, pb, row, col, x, r, c, j);
      }
      DotSame(l', y, c, l, y', col[c], Rank(l));
      assert Front(Expand(ps, idx)) == y' && Last(Expand(ps, idx)) == col[c];
    }
  }

  // ---------------------------------------------------------------- subscripts

  datatype Subscript = Int(i: int) | Range(s: Slice)

  datatype Argument = IntArg(i: int) | SliceArg(s: Slice) | TupleArg(items: seq<Subscript>)

  /** The library's integer subscript: negative ones count from the end, others out of range are errors. */
  function Position(i: int, n: nat): (r: Option<nat>)
    ensures r.Some? ==> r.value < n
  {
    if 0 <= i < n then Some(i) else if i < 0 <= i + n then Some(i + n) else None
  }

  /** An integer names the position it counts to, from the front or from the end. */
  lemma PositionIs(i: int, n: nat, p: nat)
    ensures Position(i, n) == Some(p) <==> p < n && (i == p || i == p - n)
  {
  }

  function PickOf(s: Subscript, n: nat): (r: Option<Pick>)
    ensures r.Some? ==> Fits(r.value, n)
  {
    match s
    case Int(i) => var p := Position(i, n); if p.None? then None else Some(One(p.value))
    case Range(sl) => var sel := Selection(sl, n); if sel.None? then None else Some(Many(sel.value))
  }

  function PicksOf(items: seq<Subscript>, shape: seq<nat>): (r: Option<seq<Pick>>)
    requires |items| == |shape|
    ensures r.Some? ==> AllFit(r.value, shape)
  {
    if items == [] then Some([])
    else
      var before, p := PicksOf(Front(items), Front(shape)), PickOf(Last(items), Last(shape));
      if before.None? || p.None? then None else Some(before.value + [p.value])
  }

  /** Missing trailing subscripts are full slices. */
  function Padded(items: seq<Subscript>, n: nat): seq<Subscript>
    requires |items| <= n
  {
    items + seq(n - |items|, _ => Range(ALL))
  }

  /** The subscripts as one list, one for each axis. */
  function Items(arg: Argument, n: nat): Option<seq<Subscript>> {
    match arg
    case IntArg(i) => if n < 1 then None else Some(Padded([Int(i)], n))
    case SliceArg(s) => if n < 1 then None else Some(Padded([Range(s)], n))
    case TupleArg(items) => if items == [] || |items| > n then None else Some(Padded(items, n))
  }

  /** Subscripting a plain tensor. */
  function Subscripted(t: Tensor, arg: Argument): Option<Tensor> {
    var items := Items(arg, |t.shape|);
    if items.None? then None
    else
      var ps := PicksOf(items.value, t.shape);
      if ps.None? then None else Some(At(t, ps.value))
  }

  /** The subscript of A's leading axis under a tuple: integers wrap around A's size, slices are
      replaced by full slices. */
  function TuplePickA(s: Subscript, na: nat): (r: Option<Pick>)
    ensures r.Some? ==> Fits(r.value, na)
  {
    match s
    case Int(i) => if na == 0 then None else Some(One(i % na))
    case Range(_) => Some(Many(Everything(na)))
  }

  function TuplePicksA(items: seq<Subscript>, la: seq<nat>): (r: Option<seq<Pick>>)
    requires |items| == |la|
    ensures r.Some? ==> AllFit(r.value, la)
  {
    if items == [] then Some([])
    else
      var before, p := TuplePicksA(Front(items), Front(la)), TuplePickA(Last(items), Last(la));
      if before.None? || p.None? then None else Some(before.value + [p.value])
  }

  function PickA(arg: Argument, s: Subscript, na: nat): (r: Option<Pick>)
    ensures r.Some? ==> Fits(r.value, na)
  {
    if arg.TupleArg? then TuplePickA(s, na) else PickOf(s, na)
  }

  function PicksA(arg: Argument, items: seq<Subscript>, la: seq<nat>): (r: Option<seq<Pick>>)
    requires |items| == |la|
    ensures r.Some? ==> AllFit(r.value, la)
  {
    if arg.TupleArg? then TuplePicksA(items, la) else PicksOf(items, la)
  }

  /** Subscripting the factors. A lone integer or slice goes to both factors when there are leading
      axes; a lone slice of a matrix goes to B; a tuple is split between the factors. Integers for rows
      or columns stand for no tensor of this kind, though the class may let them pass: see `Answer`. */
  function Getitem(l: Lora, arg: Argument): Option<Lora>
    requires Shaped(l)
  {
    var n := |Shape(l)|;
    var items := Items(arg, n);
    if items.None? || (arg.IntArg? && n == 2) || items.value[n - 2].Int? || items.value[n - 1].Int? then None
    else
      var lead := items.value[..n - 2];
      var pa := PicksA(arg, lead, LeadA(l));
      var pb := PicksOf(lead, LeadB(l));
      var row, col := Selection(items.value[n - 2].s, Rows(l)), Selection(items.value[n - 1].s, Cols(l));
      if pa.None? || pb.None? || row.None? || col.None? then None
      else Some(AtBoth(l, pa.value, pb.value, row.value, col.value))
  }

  lemma {:induction false} PicksSplit(items: seq<Subscript>, shape: seq<nat>, s: Subscript, n: nat)
    requires |items| == |shape|
    ensures PicksOf(items + [s], shape + [n]) ==
            if PicksOf(items, shape).None? || PickOf(s, n).None? then None
            else Some(PicksOf(items, shape).value + [PickOf(s, n).value])
  {
    assert Front(items + [s]) == items && Front(shape + [n]) == shape;
  }

  /** The subscript is applied to both factors in a way that keeps them matching along one axis: the
      axis is not sliced on B alone, and what a broadcast axis of A keeps can still be broadcast. */
  predicate KeepsMatch(arg: Argument, s: Subscript, na: nat, nb: nat) {
    s.Int? ||
    (Selection(s.s, nb).Some? &&
     var kb := |Selection(s.s, nb).value|;
     if arg.TupleArg? then na == 1 || kb == nb
     else na == nb || kb == 0 || |Selection(s.s, na).value| == 1)
  }

  predicate AllKeepMatch(arg: Argument, items: seq<Subscript>, la: seq<nat>, lb: seq<nat>)
    requires |items| == |la| == |lb|
  {
    forall i | 0 <= i < |items| :: KeepsMatch(arg, items[i], la[i], lb[i])
  }

  predicate SizesMatch(p: Pick, q: Pick) {
    (p.One? <==> q.One?) && (p.Many? ==> |p.sel| == 1 || |p.sel| == |q.sel|)
  }

  lemma AlignInt(arg: Argument, i: int, na: nat, nb: nat)
    requires (na == 1 || na == nb) && PickA(arg, Int(i), na).Some? && PickOf(Int(i), nb).Some?
    ensures AlignedAt(PickA(arg, Int(i), na).value, PickOf(Int(i), nb).value, na, nb)
  {
    if arg.TupleArg? && na == nb {
      WrapAround(i, na);
    }
  }

  lemma WrapAround(i: int, n: nat)
    requires n > 0 && 0 <= i + n && i < n
    ensures i % n == if i < 0 then i + n else i
  {
  }

  lemma AlignRange(arg: Argument, s: Slice, na: nat, nb: nat)
    requires (na == 1 || na == nb) && PickA(arg, Range(s), na).Some? && PickOf(Range(s), nb).Some?
    ensures var p, q := PickA(arg, Range(s), na).value, PickOf(Range(s), nb).value;
            (AlignedAt(p, q, na, nb) <==> KeepsMatch(arg, Range(s), na, nb)) &&
            (SizesMatch(p, q) <==> KeepsMatch(arg, Range(s), na, nb))
  {
    hide Positions, Clamp;
    if |Selection(s, nb).value| == nb { FullSelection(s, nb); }
  }

  lemma AlignOne(arg: Argument, s: Subscript, na: nat, nb: nat)
    requires (na == 1 || na == nb) && PickA(arg, s, na).Some? && PickOf(s, nb).Some?
    ensures var p, q := PickA(arg, s, na).value, PickOf(s, nb).value;
            && (p.One? <==> s.Int?) && (q.One? <==> s.Int?)
            && (AlignedAt(p, q, na, nb) <==> KeepsMatch(arg, s, na, nb))
            && (SizesMatch(p, q) <==> KeepsMatch(arg, s, na, nb))
  {
    hide AlignedAt, Selection;
    if s.Int? { AlignInt(arg, s.i, na, nb); } else { AlignRange(arg, s.s, na, nb); }
  }

  lemma PicksASnoc(arg: Argument, items: seq<Subscript>, la: seq<nat>)
    requires |items| == |la| && items != []
    ensures PicksA(arg, items, la) ==
            if PicksA(arg, Front(items), Front(la)).None? || PickA(arg, Last(items), Last(la)).None? then None
            else Some(PicksA(arg, Front(items), Front(la)).value + [PickA(arg, Last(items), Last(la)).value])
  {
    hide PickOf, TuplePickA;
  }

  lemma {:induction false} AlignAll(arg: Argument, items: seq<Subscript>, la: seq<nat>, lb: seq<nat>)
    requires |items| == |la| == |lb| && BroadcastsTo(la, lb)
    requires PicksA(arg, items, la).Some? && PicksOf(items, lb).Some?
    ensures var pa, pb := PicksA(arg, items, la).value, PicksOf(items, lb).value;
            && (Aligned(pa, pb, la, lb) <==> AllKeepMatch(arg, items, la, lb))
            && (BroadcastsTo(Kept(pa), Kept(pb)) <==> AllKeepMatch(arg, items, la, lb))
            && |Kept(pa)| == |Kept(pb)|
  {
    hide PickA, PickOf, AlignedAt, KeepsMatch, PicksA, SizesMatch, Fits, Kept, Aligned, AllKeepMatch, BroadcastsTo;
    if items == [] {
      assert PicksA(arg, items, la).value == [] by { NoPicks(arg); }
      AlignNone(arg);
    } else {
      FrontBroadcasts(la, lb);
      PicksASnoc(arg, items, la);
      var pa, pb := PicksA(arg, items, la).value, PicksOf(items, lb).value;
      AlignAll(arg, Front(items), Front(la), Front(lb));
      AlignOne(arg, Last(items), Last(la), Last(lb));
      AlignSnoc(Front(pa), Last(pa), Front(pb), Last(pb), Front(la), Last(la), Front(lb), Last(lb));
      assert pa == Front(pa) + [Last(pa)] && pb == Front(pb) + [Last(pb)];
      assert la == Front(la) + [Last(la)] && lb == Front(lb) + [Last(lb)];
      AllKeepSnoc(arg, items, la, lb);
    }
  }

  lemma AlignNone(arg: Argument)
    ensures Aligned([], [], [], []) && AllKeepMatch(arg, [], [], []) && Kept([]) == [] && BroadcastsTo([], [])
  {
  }

  lemma FrontBroadcasts(a: seq<nat>, b: seq<nat>)
    requires BroadcastsTo(a, b) && a != []
    ensures BroadcastsTo(Front(a), Front(b)) && (Last(a) == 1 || Last(a) == Last(b))
  {
  }

  lemma NoPicks(arg: Argument)
    ensures PicksA(arg, [], []) == Some([])
  {
  }

  lemma NoneKept()
    ensures Kept([]) == []
  {
  }

  lemma AllKeepSnoc(arg: Argument, items: seq<Subscript>, la: seq<nat>, lb: seq<nat>)
    requires |items| == |la| == |lb| && items != []
    ensures AllKeepMatch(arg, items, la, lb) <==>
            AllKeepMatch(arg, Front(items), Front(la), Front(lb)) && KeepsMatch(arg, Last(items), Last(la), Last(lb))
  {
    hide KeepsMatch;
    var n := |items| - 1;
    if AllKeepMatch(arg, items, la, lb) {
      assert KeepsMatch(arg, items[n], la[n], lb[n]);
      forall i | 0 <= i < n
        ensures KeepsMatch(arg, Front(items)[i], Front(la)[i], Front(lb)[i])
      {
        assert KeepsMatch(arg, items[i], la[i], lb[i]);
      }
    }
    if AllKeepMatch(arg, Front(items), Front(la), Front(lb)) && KeepsMatch(arg, Last(items), Last(la), Last(lb)) {
      forall i | 0 <= i <= n
        ensures KeepsMatch(arg, items[i], la[i], lb[i])
      {
        if i < n { assert KeepsMatch(arg, Front(items)[i], Front(la)[i], Front(lb)[i]); }
      }
    }
  }

  lemma AlignSnoc(pa: seq<Pick>, p: Pick, pb: seq<Pick>, q: Pick, la: seq<nat>, na: nat, lb: seq<nat>, nb: nat)
    requires |pa| == |pb| == |la| == |lb| && (p.One? <==> q.One?) && |Kept(pa)| == |Kept(pb)|
    ensures Aligned(pa + [p], pb + [q], la + [na], lb + [nb]) <==> Aligned(pa, pb, la, lb) && AlignedAt(p, q, na, nb)
    ensures BroadcastsTo(Kept(pa + [p]), Kept(pb + [q])) <==>
            BroadcastsTo(Kept(pa), Kept(pb)) && SizesMatch(p, q)
    ensures |Kept(pa + [p])| == |Kept(pb + [q])|
  {
    assert Front(pa + [p]) == pa && Front(pb + [q]) == pb;
    var n := |pa|;
    if Aligned(pa + [p], pb + [q], la + [na], lb + [nb]) {
      forall i | 0 <= i < n
        ensures AlignedAt(pa[i], pb[i], la[i], lb[i])
      {
        assert AlignedAt((pa + [p])[i], (pb + [q])[i], (la + [na])[i], (lb + [nb])[i]);
      }
      assert AlignedAt((pa + [p])[n], (pb + [q])[n], (la + [na])[n], (lb + [nb])[n]);
    }
    if p.One? {
      assert Kept(pa + [p]) == Kept(pa) && Kept(pb + [q]) == Kept(pb);
    } else {
      SnocBroadcasts(Kept(pa), |p.sel|, Kept(pb), |q.sel|);
    }
  }

  lemma SnocBroadcasts(a: seq<nat>, x: nat, b: seq<nat>, y: nat)
    requires |a| == |b|
    ensures BroadcastsTo(a + [x], b + [y]) <==> BroadcastsTo(a, b) && (x == 1 || x == y)
  {
    if BroadcastsTo(a + [x], b + [y]) {
      forall i | 0 <= i < |a|
        ensures a[i] == 1 || a[i] == b[i]
      {
        assert (a + [x])[i] == a[i] && (b + [y])[i] == b[i];
      }
      assert (a + [x])[|a|] == x && (b + [y])[|a|] == y;
    }
  }

  /** The subscripts of the product are those of its leading axes, of its rows and of its columns. */
  lemma PicksOfAll(l: Lora, items: seq<Subscript>, row: seq<nat>, col: seq<nat>)
    requires Usable(l) && |items| == |Shape(l)| && PicksOf(items[..|items| - 2], LeadB(l)).Some?
    requires items[|items| - 2].Range? && Selection(items[|items| - 2].s, Rows(l)) == Some(row)
    requires items[|items| - 1].Range? && Selection(items[|items| - 1].s, Cols(l)) == Some(col)
    ensures PicksOf(items, Shape(l)) ==
            Some(PicksOf(items[..|items| - 2], LeadB(l)).value + [Many(row)] + [Many(col)])
  {
    hide Selection, PicksOf, BroadcastsTo;
    var n := |items|;
    var lead := items[..n - 2];
    Parts(l);
    assert items == lead + [items[n - 2]] + [items[n - 1]];
    PicksSplit(lead, LeadB(l), items[n - 2], Rows(l));
    PicksSplit(lead + [items[n - 2]], LeadB(l) + [Rows(l)], items[n - 1], Cols(l));
  }

  /** What a subscript comes to when the class answers. */
  lemma GetitemParts(l: Lora, arg: Argument)
      returns (items: seq<Subscript>, pa: seq<Pick>, pb: seq<Pick>, row: seq<nat>, col: seq<nat>)
    requires Usable(l) && Getitem(l, arg).Some?
    ensures Items(arg, |Shape(l)|) == Some(items) && |items| == |Shape(l)| >= 2
    ensures |items| - 2 == |LeadA(l)| == |LeadB(l)|
    ensures PicksA(arg, items[..|items| - 2], LeadA(l)) == Some(pa) && PicksOf(items[..|items| - 2], LeadB(l)) == Some(pb)
    ensures items[|items| - 2].Range? && Selection(items[|items| - 2].s, Rows(l)) == Some(row)
    ensures items[|items| - 1].Range? && Selection(items[|items| - 1].s, Cols(l)) == Some(col)
    ensures Getitem(l, arg) == Some(AtBoth(l, pa, pb, row, col))
    ensures PicksOf(items, Shape(l)) == Some(pb + [Many(row)] + [Many(col)])
  {
    hide AtBoth, Selection, BroadcastsTo, PicksA, PicksOf;
    var n := |Shape(l)|;
    items := Items(arg, n).value;
    pa, pb := PicksA(arg, items[..n - 2], LeadA(l)).value, PicksOf(items[..n - 2], LeadB(l)).value;
    row, col := Selection(items[n - 2].s, Rows(l)).value, Selection(items[n - 1].s, Cols(l)).value;
    Parts(l);
    PicksOfAll(l, items, row, col);
  }

  lemma IsShaped(l: Lora)
    requires Usable(l)
    ensures Shaped(l) && BroadcastsTo(LeadA(l), LeadB(l)) && Rank(l) > 0
  {
  }

  lemma MatchesIff(l: Lora, l': Lora)
    requires Usable(l) && Shaped(l') && Rank(l') == Rank(l)
    ensures Usable(l') <==> BroadcastsTo(LeadA(l'), LeadB(l'))
  {
  }

  lemma SubscriptedParts(l: Lora, arg: Argument, items: seq<Subscript>, picks: seq<Pick>)
    requires Shaped(l) && Items(arg, |Shape(l)|) == Some(items) && |items| == |Shape(l)|
    requires PicksOf(items, Shape(l)) == Some(picks)
    ensures Subscripted(Product(l), arg) == Some(At(Product(l), picks))
  {
    hide Items, PicksOf, At;
  }

  /** Subscripting either produces factors that no longer broadcast, exactly when an axis stops
      matching, or factors whose product is the subscripted product. */
  lemma GetitemCommutes(l: Lora, arg: Argument)
    requires Usable(l) && Getitem(l, arg).Some?
    ensures var l' := Getitem(l, arg).value;
            var lead := Items(arg, |Shape(l)|).value[..|Shape(l)| - 2];
            && Shaped(l')
            && (Usable(l') <==> AllKeepMatch(arg, lead, LeadA(l), LeadB(l)))
            && (Usable(l') ==> Subscripted(Product(l), arg).Some? && Same(Product(l'), Subscripted(Product(l), arg).value))
  {
    hide *;
    var items, pa, pb, row, col := GetitemParts(l, arg);
    var lead := items[..|items| - 2];
    IsShaped(l);
    AlignAll(arg, lead, LeadA(l), LeadB(l));
    AtBothShape(l, pa, pb, row, col);
    MatchesIff(l, AtBoth(l, pa, pb, row, col));
    SubscriptedParts(l, arg, items, pb + [Many(row)] + [Many(col)]);
    if Aligned(pa, pb, LeadA(l), LeadB(l)) {
      AtCommutes(l, pa, pb, row, col);
    }
  }

  // ---------------------------------------------------------------- when the class answers

  /** Where an integer subscript of a leading axis is passed on to A, A has that position too. */
  predicate IntegersFit(arg: Argument, items: seq<Subscript>, la: seq<nat>)
    requires |items| == |la|
  {
    !arg.TupleArg? ==> forall k | 0 <= k < |items| && items[k].Int? :: Position(items[k].i, la[k]).Some?
  }

  lemma {:induction false} PicksADefined(arg: Argument, items: seq<Subscript>, la: seq<nat>, lb: seq<nat>)
    requires |items| == |la| == |lb| && BroadcastsTo(la, lb) && PicksOf(items, lb).Some?
    ensures PicksA(arg, items, la).Some? <==> IntegersFit(arg, items, la)
    decreases |items|
  {
    hide BroadcastsTo, PicksA, PickA, PickOf, IntegersFit, Position;
    if items == [] {
      NoPicks(arg);
      NoIntegers(arg);
    } else {
      FrontBroadcasts(la, lb);
      PicksADefined(arg, Front(items), Front(la), Front(lb));
      PicksASnoc(arg, items, la);
      PickADefined(arg, Last(items), Last(la), Last(lb));
      IntegersSnoc(arg, items, la);
    }
  }

  lemma NoIntegers(arg: Argument)
    ensures IntegersFit(arg, [], [])
  {
  }

  lemma IntegersSnoc(arg: Argument, items: seq<Subscript>, la: seq<nat>)
    requires |items| == |la| && items != []
    ensures IntegersFit(arg, items, la) <==>
            IntegersFit(arg, Front(items), Front(la))
            && (!arg.TupleArg? && Last(items).Int? ==> Position(Last(items).i, Last(la)).Some?)
  {
    hide Position;
    var n := |items| - 1;
    assert forall k | 0 <= k < n :: Front(items)[k] == items[k] && Front(la)[k] == la[k];
  }

  lemma PickADefined(arg: Argument, s: Subscript, na: nat, nb: nat)
    requires (na == 1 || na == nb) && PickOf(s, nb).Some?
    ensures PickA(arg, s, na).Some? <==> arg.TupleArg? || s.Range? || Position(s.i, na).Some?
  {
  }

  /** The whole of the class: both factors are indexed, with an integer for rows or columns as with a slice, and
      the constructor checks that they have as many axes and one rank. */
  function Answer(l: Lora, arg: Argument): Option<Lora>
    requires Shaped(l)
  {
    var n := |Shape(l)|;
    var items := Items(arg, n);
    if items.None? || (arg.IntArg? && n == 2) then None
    else
      var lead := items.value[..n - 2];
      var pa, pb := PicksA(arg, lead, LeadA(l)), PicksOf(lead, LeadB(l));
      var row, col := PickOf(items.value[n - 2], Rows(l)), PickOf(items.value[n - 1], Cols(l));
      if pa.None? || pb.None? || row.None? || col.None? then None
      else
        var r := Indexed(l, pa.value, pb.value, row.value, col.value);
        if Shaped(r) then Some(r) else None
  }

  function Indexed(l: Lora, pa: seq<Pick>, pb: seq<Pick>, row: Pick, col: Pick): Lora
    requires Shaped(l)
  {
    Lora(At(l.a, pa + [Many(Everything(Rank(l)))] + [col]), At(l.b, pb + [row] + [Many(Everything(Rank(l)))]))
  }

  /** The sizes of the axes that are sliced. */
  function Sliced(items: seq<Subscript>, la: seq<nat>): seq<nat>
    requires |items| == |la|
  {
    if items == [] then []
    else Sliced(Front(items), Front(la)) + if Last(items).Range? then [Last(la)] else []
  }

  lemma {:induction false} KeptSliced(arg: Argument, items: seq<Subscript>, la: seq<nat>)
    requires arg.TupleArg? && |items| == |la| && PicksA(arg, items, la).Some?
    ensures Kept(PicksA(arg, items, la).value) == Sliced(items, la)
  {
    if items != [] {
      KeptSliced(arg, Front(items), Front(la));
      var ps := TuplePicksA(items, la).value;
      assert Front(ps) == TuplePicksA(Front(items), Front(la)).value;
    }
  }

  /** Integers for rows and columns pass the constructor if the last sliced axis of A is as long as the rank. */
  predicate RankByChance(items: seq<Subscript>, la: seq<nat>, rank: nat)
    requires |items| == |la|
  {
    var kept := Sliced(items, la);
    kept != [] && Last(kept) == rank
  }

  lemma KeptOne(ps: seq<Pick>, j: nat)
    ensures Kept(ps + [One(j)]) == Kept(ps)
  {
    assert Front(ps + [One(j)]) == ps;
  }

  /** The shapes of the indexed factors, and whether the constructor takes them. */
  lemma IndexedShape(l: Lora, pa: seq<Pick>, pb: seq<Pick>, row: Pick, col: Pick)
    requires Shaped(l) && |Kept(pa)| == |Kept(pb)|
    ensures var r := Indexed(l, pa, pb, row, col);
            && r.a.shape == Kept(pa) + [Rank(l)] + (if col.One? then [] else [|col.sel|])
            && r.b.shape == Kept(pb) + (if row.One? then [] else [|row.sel|]) + [Rank(l)]
            && (Shaped(r) <==> (row.Many? && col.Many?)
                               || (row.One? && col.One? && Kept(pa) != [] && Last(Kept(pa)) == Rank(l)))
  {
    hide Kept, Everything;
    var all := Everything(Rank(l));
    KeptSnoc(pa, all);
    if col.One? { KeptOne(pa + [Many(all)], col.j); } else { KeptSnoc(pa + [Many(all)], col.sel); }
    if row.One? { KeptOne(pb, row.j); } else { KeptSnoc(pb, row.sel); }
    KeptSnoc(pb + [row], all);
    assert |all| == Rank(l);
    var r := Indexed(l, pa, pb, row, col);
    assert r.a.shape == Kept(pa) + [Rank(l)] + (if col.One? then [] else [|col.sel|]);
    if row.One? && col.One? && Kept(pa) != [] {
      assert r.a.shape[|r.a.shape| - 2] == Last(Kept(pa));
    }
  }

  /** Where the product can be subscripted, there are factors for the result exactly when rows and columns are
      slices and an integer that goes to both factors fits A. */
  lemma GetitemDefined(l: Lora, arg: Argument)
    requires Usable(l) && Subscripted(Product(l), arg).Some?
    ensures var n, items := |Shape(l)|, Items(arg, |Shape(l)|);
            && items.Some? && |items.value| == n
            && (Getitem(l, arg).Some? <==>
                  && items.value[n - 2].Range? && items.value[n - 1].Range?
                  && IntegersFit(arg, items.value[..n - 2], LeadA(l)))
  {
    hide Selection, PicksOf, PicksA, BroadcastsTo, At, AtBoth, Product, Subscripted;
    IsShaped(l);
    ProductSubscripted(l, arg);
    var items := Items(arg, |Shape(l)|).value;
    PicksParts(l, items);
    PicksADefined(arg, items[..|items| - 2], LeadA(l), LeadB(l));
  }

  lemma AnswerIsGetitem(l: Lora, arg: Argument)
    requires Usable(l) && Getitem(l, arg).Some?
    ensures Answer(l, arg) == Getitem(l, arg)
  {
    hide AtBoth, Selection, BroadcastsTo, PicksA, PicksOf, At;
    var items, pa, pb, row, col := GetitemParts(l, arg);
    assert Indexed(l, pa, pb, Many(row), Many(col)) == AtBoth(l, pa, pb, row, col) by { SameFactors(l, pa, pb, row, col); }
    AlignKept(l, arg, items, pa, pb);
    IndexedShape(l, pa, pb, Many(row), Many(col));
  }

  lemma SameFactors(l: Lora, pa: seq<Pick>, pb: seq<Pick>, row: seq<nat>, col: seq<nat>)
    requires Shaped(l)
    ensures Indexed(l, pa, pb, Many(row), Many(col)) == AtBoth(l, pa, pb, row, col)
  {
    hide At, Everything;
  }

  /** Both factors keep the same leading axes. */
  lemma AlignKept(l: Lora, arg: Argument, items: seq<Subscript>, pa: seq<Pick>, pb: seq<Pick>)
    requires Usable(l) && |items| >= 2 && |items| - 2 == |LeadA(l)| == |LeadB(l)|
    requires PicksA(arg, items[..|items| - 2], LeadA(l)) == Some(pa) && PicksOf(items[..|items| - 2], LeadB(l)) == Some(pb)
    ensures |Kept(pa)| == |Kept(pb)|
  {
    hide *;
    IsShaped(l);
    AlignAll(arg, items[..|items| - 2], LeadA(l), LeadB(l));
  }

  /** Where the product can be subscripted, the class answers exactly when an integer that goes to both factors
      fits A, and rows and columns are both slices, or both integers that the rank lets pass by chance; it
      raises on everything else. In the second case its answer has one axis too many to stand for the result. */
  lemma AnswerDefined(l: Lora, arg: Argument)
    requires Usable(l) && Subscripted(Product(l), arg).Some?
    ensures var n, items := |Shape(l)|, Items(arg, |Shape(l)|);
            && items.Some? && |items.value| == n >= 2 && n - 2 == |LeadA(l)|
            && var lead, row, col := items.value[..n - 2], items.value[n - 2], items.value[n - 1];
               && (Answer(l, arg).Some? <==>
                     && IntegersFit(arg, lead, LeadA(l))
                     && ((row.Range? && col.Range?)
                         || (row.Int? && col.Int? && RankByChance(lead, LeadA(l), Rank(l)))))
               && (row.Range? && col.Range? ==> Answer(l, arg) == Getitem(l, arg))
               && (Answer(l, arg).Some? && row.Int? ==>
                     |Shape(Answer(l, arg).value)| == |Subscripted(Product(l), arg).value.shape| + 1)
  {
    hide *;
    var items, pb, row, col := SubscriptedPicks(l, arg);
    var lead := items[..|items| - 2];
    IsShaped(l);
    PicksADefined(arg, lead, LeadA(l), LeadB(l));
    if PicksA(arg, lead, LeadA(l)).Some? {
      var pa := PicksA(arg, lead, LeadA(l)).value;
      AlignKept(l, arg, items, pa, pb);
      IndexedShape(l, pa, pb, row, col);
      if row.One? && col.One? {
        OneKept(l, pa, pb, row, col);
        BothIntegers(l, arg, items);
        KeptSliced(arg, lead, LeadA(l));
        ByChance(lead, LeadA(l), Rank(l));
      }
    }
    AnswerIndexed(l, arg, items, pb, row, col);
    GetitemAnswered(l, arg);
  }

  lemma ByChance(items: seq<Subscript>, la: seq<nat>, rank: nat)
    requires |items| == |la|
    ensures RankByChance(items, la, rank) <==> Sliced(items, la) != [] && Last(Sliced(items, la)) == rank
  {
  }

  lemma BothIntegers(l: Lora, arg: Argument, items: seq<Subscript>)
    requires Shaped(l) && Items(arg, |Shape(l)|) == Some(items) && |items| >= 2
    requires items[|items| - 2].Int? && items[|items| - 1].Int?
    ensures arg.TupleArg?
  {
  }

  /** The answer is the indexed factors, if A can be indexed and the constructor takes them. */
  lemma AnswerIndexed(l: Lora, arg: Argument, items: seq<Subscript>, pb: seq<Pick>, row: Pick, col: Pick)
    requires Usable(l) && Items(arg, |Shape(l)|) == Some(items) && |items| == |Shape(l)| >= 2
    requires |items| - 2 == |LeadA(l)| == |LeadB(l)| && PicksOf(items[..|items| - 2], LeadB(l)) == Some(pb)
    requires PickOf(items[|items| - 2], Rows(l)) == Some(row) && PickOf(items[|items| - 1], Cols(l)) == Some(col)
    ensures var pa := PicksA(arg, items[..|items| - 2], LeadA(l));
            Answer(l, arg) ==
            if pa.None? || !Shaped(Indexed(l, pa.value, pb, row, col)) then None
            else Some(Indexed(l, pa.value, pb, row, col))
  {
    hide PicksA, PicksOf, Indexed, Selection, BroadcastsTo;
    if arg.IntArg? && |items| == 2 && PicksA(arg, items[..0], LeadA(l)).Some? {
      var pa := PicksA(arg, items[..0], LeadA(l)).value;
      assert row.One? && col.Many?;
      AlignKept(l, arg, items, pa, pb);
      IndexedShape(l, pa, pb, row, col);
    }
  }

  lemma OneKept(l: Lora, pa: seq<Pick>, pb: seq<Pick>, row: Pick, col: Pick)
    requires Shaped(l) && row.One? && col.One? && |Kept(pa)| == |Kept(pb)|
    ensures var r := Indexed(l, pa, pb, row, col);
            Shaped(r) ==> |Shape(r)| == |Kept(pb + [row] + [col])| + 1
  {
    hide Kept, At;
    IndexedShape(l, pa, pb, row, col);
    KeptOne(pb, row.j);
    KeptOne(pb + [row], col.j);
  }

  /** The class answers with what `Getitem` says where rows and columns are sliced. */
  lemma GetitemAnswered(l: Lora, arg: Argument)
    requires Usable(l) && Subscripted(Product(l), arg).Some?
    ensures var n, items := |Shape(l)|, Items(arg, |Shape(l)|);
            items.Some? && |items.value| == n >= 2 && items.value[n - 2].Range? && items.value[n - 1].Range? ==>
              Answer(l, arg) == Getitem(l, arg)
  {
    GetitemDefined(l, arg);
    hide Subscripted, IntegersFit, At, AtBoth, Indexed, PicksA, PicksOf, Selection, Product, BroadcastsTo;
    if Getitem(l, arg).Some? {
      AnswerIsGetitem(l, arg);
    }
  }

  /** What the subscripts of the product select, axis by axis. */
  lemma SubscriptedPicks(l: Lora, arg: Argument) returns (items: seq<Subscript>, pb: seq<Pick>, row: Pick, col: Pick)
    requires Usable(l) && Subscripted(Product(l), arg).Some?
    ensures Items(arg, |Shape(l)|) == Some(items) && |items| == |Shape(l)| >= 2
    ensures |items| - 2 == |LeadA(l)| == |LeadB(l)|
    ensures PicksOf(items[..|items| - 2], LeadB(l)) == Some(pb)
    ensures PickOf(items[|items| - 2], Rows(l)) == Some(row) && (row.One? <==> items[|items| - 2].Int?)
    ensures PickOf(items[|items| - 1], Cols(l)) == Some(col) && (col.One? <==> items[|items| - 1].Int?)
    ensures Subscripted(Product(l), arg).value.shape == Kept(pb + [row] + [col])
  {
    hide *;
    IsShaped(l);
    ProductSubscripted(l, arg);
    items := Items(arg, |Shape(l)|).value;
    PicksParts(l, items);
    var n := |items|;
    pb := PicksOf(items[..n - 2], LeadB(l)).value;
    row, col := PickOf(items[n - 2], Rows(l)).value, PickOf(items[n - 1], Cols(l)).value;
    PickKind(items[n - 2], Rows(l));
    PickKind(items[n - 1], Cols(l));
  }

  lemma ProductSubscripted(l: Lora, arg: Argument)
    requires Shaped(l) && Subscripted(Product(l), arg).Some?
    ensures var items := Items(arg, |Shape(l)|);
            && items.Some? && |items.value| == |Shape(l)| && PicksOf(items.value, Shape(l)).Some?
            && Subscripted(Product(l), arg).value.shape == Kept(PicksOf(items.value, Shape(l)).value)
  {
    hide PicksOf, Kept;
  }

  lemma PickKind(s: Subscript, n: nat)
    requires PickOf(s, n).Some?
    ensures PickOf(s, n).value.One? <==> s.Int?
  {
  }

  lemma PicksParts(l: Lora, items: seq<Subscript>)
    requires Shaped(l) && |items| == |Shape(l)| && PicksOf(items, Shape(l)).Some?
    ensures |items| >= 2 && |items| - 2 == |LeadA(l)| == |LeadB(l)|
    ensures PicksOf(items[..|items| - 2], LeadB(l)).Some?
    ensures PickOf(items[|items| - 2], Rows(l)).Some? && PickOf(items[|items| - 1], Cols(l)).Some?
    ensures PicksOf(items, Shape(l)).value == PicksOf(items[..|items| - 2], LeadB(l)).value +
              [PickOf(items[|items| - 2], Rows(l)).value] + [PickOf(items[|items| - 1], Cols(l)).value]
  {
    hide PicksOf, PickOf;
    Parts(l);
    var n := |items|;
    var lead := items[..n - 2];
    assert items == lead + [items[n - 2]] + [items[n - 1]];
    PicksSplit(lead, LeadB(l), items[n - 2], Rows(l));
    PicksSplit(lead + [items[n - 2]], LeadB(l) + [Rows(l)], items[n - 1], Cols(l));
  }
}
