/** Subscripting a low-rank tensor with a tuple that holds an ellipsis, and exactly when the class puts
    the other subscripts on the axes the tensor library would put them on. */
module LoraEllipsis {
  import opened Tensors
  import opened LoraTensor
  import opened Wrappers

  datatype Element = Sub(s: Subscript) | Ellipsis

  function Full(n: nat): (r: seq<Subscript>)
    ensures |r| == n && forall i | 0 <= i < n :: r[i] == Range(ALL)
  {
    seq(n, _ => Range(ALL))
  }

  function Subs(items: seq<Subscript>): (r: seq<Element>)
    ensures |r| == |items| && forall i | 0 <= i < |r| :: r[i] == Sub(items[i])
  {
    seq(|items|, i requires 0 <= i < |items| => Sub(items[i]))
  }

  /** Every ellipsis replaced by k full slices. */
  function Expanded(es: seq<Element>, k: nat): seq<Subscript> {
    if es == [] then [] else (if es[0].Ellipsis? then Full(k) else [es[0].s]) + Expanded(es[1..], k)
  }

  /** The tuple the class passes on: an ellipsis at the end is dropped, any other one becomes one full
      slice fewer than the tuple has elements; what is missing is filled up at the end. */
  function CodeItems(es: seq<Element>, n: nat): Option<seq<Subscript>> {
    if es == [] then None
    else if Last(es).Ellipsis? then CodeItems(Front(es), n)
    else Items(TupleArg(Expanded(es, |es| - 1)), n)
  }

  function GetitemTuple(l: Lora, es: seq<Element>): Option<Lora>
    requires Shaped(l)
  {
    if es == [] then None
    else if Last(es).Ellipsis? then GetitemTuple(l, Front(es))
    else Getitem(l, TupleArg(Expanded(es, |es| - 1)))
  }

  /** A tuple with one ellipsis. */
  function Written(pre: seq<Subscript>, post: seq<Subscript>): seq<Element> {
    Subs(pre) + [Ellipsis] + Subs(post)
  }

  /** What the tensor library makes of it: the ellipsis stands for as many full slices as are missing. */
  function Meant(pre: seq<Subscript>, post: seq<Subscript>, n: nat): seq<Subscript>
    requires |pre| + |post| <= n
  {
    pre + Full(n - |pre| - |post|) + post
  }

  predicate AllFull(items: seq<Subscript>) {
    forall i | 0 <= i < |items| :: items[i] == Range(ALL)
  }

  /** The subscripts land where they should: nothing follows the ellipsis, or the tuple is half as long as
      the shape, or it is shorter than that but only full slices follow. */
  predicate Lands(pre: seq<Subscript>, post: seq<Subscript>, n: nat) {
    var given := |pre| + |post|;
    if post == [] then pre != [] else n == 2 * given || (n > 2 * given && AllFull(post))
  }

  lemma {:induction false} ExpandedConcat(a: seq<Element>, b: seq<Element>, k: nat)
    ensures Expanded(a + b, k) == Expanded(a, k) + Expanded(b, k)
  {
    if a == [] {
      assert a + b == b;
    } else {
      assert (a + b)[1..] == a[1..] + b;
      ExpandedConcat(a[1..], b, k);
    }
  }

  lemma {:induction false} ExpandedSubs(items: seq<Subscript>, k: nat)
    ensures Expanded(Subs(items), k) == items
  {
    if items != [] {
      assert Subs(items)[1..] == Subs(items[1..]);
      ExpandedSubs(items[1..], k);
    }
  }

  lemma ExpandedWritten(pre: seq<Subscript>, post: seq<Subscript>, k: nat)
    ensures Expanded(Written(pre, post), k) == pre + Full(k) + post
  {
    ExpandedConcat(Subs(pre) + [Ellipsis], Subs(post), k);
    ExpandedConcat(Subs(pre), [Ellipsis], k);
    ExpandedSubs(pre, k);
    ExpandedSubs(post, k);
    assert Expanded([Ellipsis], k) == Full(k);
  }

  /** The tuple left over when the ellipsis comes last. */
  lemma DroppedEllipsis(pre: seq<Subscript>, n: nat)
    ensures CodeItems(Written(pre, []), n) == Items(TupleArg(pre), n)
  {
    assert Front(Written(pre, [])) == Subs(pre);
    if pre != [] { ExpandedSubs(pre, |pre| - 1); }
  }

  /** A word that reads the same after moving k full slices from its end to its front is all full slices. */
  lemma {:induction false} Shifted(post: seq<Subscript>, k: nat, i: nat)
    requires k > 0 && Full(k) + post == post + Full(k) && i < |post|
    ensures post[i] == Range(ALL)
    decreases i
  {
    assert (post + Full(k))[i] == post[i];
    if i < k {
      assert (Full(k) + post)[i] == Range(ALL);
    } else {
      assert (Full(k) + post)[i] == post[i - k];
      Shifted(post, k, i - k);
    }
  }

  /** The class agrees with the tensor library about where the subscripts go exactly when they land. */
  lemma EllipsisIff(pre: seq<Subscript>, post: seq<Subscript>, n: nat)
    requires |pre| + |post| <= n
    ensures CodeItems(Written(pre, post), n) == Some(Meant(pre, post, n)) <==> Lands(pre, post, n)
  {
    var given := |pre| + |post|;
    if post == [] {
      DroppedEllipsis(pre, n);
      if pre != [] { assert Padded(pre, n) == Meant(pre, post, n); }
    } else {
      var es := Written(pre, post);
      ExpandedWritten(pre, post, given);
      assert Last(es) == Sub(Last(post)) && |es| - 1 == given;
      var tuple := pre + Full(given) + post;
      assert CodeItems(es, n) == Items(TupleArg(tuple), n);
      if n >= 2 * given {
        SameTail(pre, post, n);
      }
    }
  }

  lemma SameTail(pre: seq<Subscript>, post: seq<Subscript>, n: nat)
    requires post != [] && n >= 2 * (|pre| + |post|)
    ensures Padded(pre + Full(|pre| + |post|) + post, n) == Meant(pre, post, n) <==> Lands(pre, post, n)
  {
    var given := |pre| + |post|;
    var k := n - 2 * given;
    var head := pre + Full(given);
    assert Padded(head + post, n) == head + (post + Full(k));
    assert Meant(pre, post, n) == head + (Full(k) + post);
    if head + (post + Full(k)) == head + (Full(k) + post) {
      assert (head + (post + Full(k)))[|head|..] == post + Full(k);
      assert (head + (Full(k) + post))[|head|..] == Full(k) + post;
      if k > 0 {
        forall i | 0 <= i < |post| ensures post[i] == Range(ALL) { Shifted(post, k, i); }
      }
    }
    if AllFull(post) {
      assert post + Full(k) == Full(k) + post;
    }
  }

  // ---------------------------------------------------------------- results

  /** Subscripting a plain tensor with one subscript for each axis. */
  function AtItems(t: Tensor, items: seq<Subscript>): Option<Tensor>
    requires |items| == |t.shape|
  {
    var ps := PicksOf(items, t.shape);
    if ps.None? then None else Some(At(t, ps.value))
  }

  /** The tuple the class passes on has the items CodeItems says. */
  lemma {:induction false} PassedOn(l: Lora, es: seq<Element>)
    requires Shaped(l) && exists i | 0 <= i < |es| :: es[i].Sub?
    ensures exists tuple: seq<Subscript> ::
              && GetitemTuple(l, es) == Getitem(l, TupleArg(tuple))
              && Items(TupleArg(tuple), |Shape(l)|) == CodeItems(es, |Shape(l)|)
    decreases |es|
  {
    hide Getitem, Items;
    if Last(es).Ellipsis? {
      var i :| 0 <= i < |es| && es[i].Sub?;
      assert Front(es)[i].Sub?;
      PassedOn(l, Front(es));
    } else {
      var tuple := Expanded(es, |es| - 1);
      assert GetitemTuple(l, es) == Getitem(l, TupleArg(tuple));
      assert Items(TupleArg(tuple), |Shape(l)|) == CodeItems(es, |Shape(l)|);
    }
  }

  lemma LandsSomewhere(pre: seq<Subscript>, post: seq<Subscript>, n: nat)
    requires Lands(pre, post, n) && n > 0
    ensures exists i | 0 <= i < |Written(pre, post)| :: Written(pre, post)[i].Sub?
  {
    var es := Written(pre, post);
    if post == [] { assert es[0].Sub?; } else { assert es[|es| - 1].Sub?; }
  }

  /** When the subscripts land, the factors that remain stand for the tensor library's result. */
  lemma EllipsisCommutes(l: Lora, pre: seq<Subscript>, post: seq<Subscript>)
    requires Usable(l) && |pre| + |post| <= |Shape(l)| && Lands(pre, post, |Shape(l)|)
    requires GetitemTuple(l, Written(pre, post)).Some?
    ensures var l', t := GetitemTuple(l, Written(pre, post)).value, Product(l);
            && Shaped(l') && |t.shape| == |Shape(l)|
            && (Usable(l') ==>
                  var r := AtItems(t, Meant(pre, post, |Shape(l)|));
                  r.Some? && Same(Product(l'), r.value))
  {
    hide Getitem, Items, Lands, CodeItems, Written, Same, Meant, PicksOf, At, BroadcastsTo;
    var n := |Shape(l)|;
    EllipsisIff(pre, post, n);
    LandsSomewhere(pre, post, n);
    PassedOn(l, Written(pre, post));
    var tuple: seq<Subscript> :|
      && GetitemTuple(l, Written(pre, post)) == Getitem(l, TupleArg(tuple))
      && Items(TupleArg(tuple), n) == CodeItems(Written(pre, post), n);
    GetitemCommutes(l, TupleArg(tuple));
  }

  /** When the subscripts land and the tensor library has a result, the class has factors for it exactly when
      rows and columns are sliced, and they fit together exactly when every leading axis keeps matching. */
  lemma EllipsisDefined(l: Lora, pre: seq<Subscript>, post: seq<Subscript>)
    requires Usable(l) && |pre| + |post| <= |Shape(l)| && Lands(pre, post, |Shape(l)|)
    requires |Product(l).shape| == |Shape(l)| && AtItems(Product(l), Meant(pre, post, |Shape(l)|)).Some?
    ensures var n, items := |Shape(l)|, Meant(pre, post, |Shape(l)|);
            && n >= 2 && n - 2 == |LeadA(l)|
            && (GetitemTuple(l, Written(pre, post)).Some? <==> items[n - 2].Range? && items[n - 1].Range?)
            && (GetitemTuple(l, Written(pre, post)).Some? ==>
                  (Usable(GetitemTuple(l, Written(pre, post)).value) <==>
                   AllKeepMatch(TupleArg([]), items[..n - 2], LeadA(l), LeadB(l))))
  {
    hide Getitem, Items, Lands, CodeItems, Written, Same, Meant, PicksOf, At, BroadcastsTo, KeepsMatch, IntegersFit;
    var n, items := |Shape(l)|, Meant(pre, post, |Shape(l)|);
    EllipsisIff(pre, post, n);
    LandsSomewhere(pre, post, n);
    PassedOn(l, Written(pre, post));
    var tuple: seq<Subscript> :|
      && GetitemTuple(l, Written(pre, post)) == Getitem(l, TupleArg(tuple))
      && Items(TupleArg(tuple), n) == CodeItems(Written(pre, post), n);
    GetitemDefined(l, TupleArg(tuple));
    TuplesFit(tuple, items[..n - 2], LeadA(l));
    if Getitem(l, TupleArg(tuple)).Some? {
      GetitemCommutes(l, TupleArg(tuple));
      TuplesMatchAlike(tuple, items[..n - 2], LeadA(l), LeadB(l));
    }
  }

  lemma TuplesFit(tuple: seq<Subscript>, items: seq<Subscript>, la: seq<nat>)
    requires |items| == |la|
    ensures IntegersFit(TupleArg(tuple), items, la)
  {
  }

  /** Which tuple it is does not matter to the axes, only that it is one. */
  lemma TuplesMatchAlike(tuple: seq<Subscript>, items: seq<Subscript>, la: seq<nat>, lb: seq<nat>)
    requires |items| == |la| == |lb|
    ensures AllKeepMatch(TupleArg(tuple), items, la, lb) <==> AllKeepMatch(TupleArg([]), items, la, lb)
  {
    assert forall i | 0 <= i < |items| ::
      KeepsMatch(TupleArg(tuple), items[i], la[i], lb[i]) == KeepsMatch(TupleArg([]), items[i], la[i], lb[i]);
  }

  const FIRST := Range(Slice(Some(0), Some(1), None))

  lemma PicksOfThree(x: Subscript, y: Subscript, z: Subscript, shape: seq<nat>)
    requires |shape| == 3
    requires x.Range? && y.Range? && z.Range?
    requires Selection(x.s, shape[0]).Some? && Selection(y.s, shape[1]).Some? && Selection(z.s, shape[2]).Some?
    ensures PicksOf([x, y, z], shape).Some?
    ensures var ps := PicksOf([x, y, z], shape).value;
            Kept(ps) == [|Selection(x.s, shape[0]).value|, |Selection(y.s, shape[1]).value|, |Selection(z.s, shape[2]).value|]
  {
    hide Selection, Kept;
    var a, b, c := Selection(x.s, shape[0]).value, Selection(y.s, shape[1]).value, Selection(z.s, shape[2]).value;
    assert shape == [] + [shape[0]] + [shape[1]] + [shape[2]] && [x, y, z] == [] + [x] + [y] + [z];
    PicksSplit([], [], x, shape[0]);
    PicksSplit([] + [x], [] + [shape[0]], y, shape[1]);
    PicksSplit([] + [x] + [y], [] + [shape[0]] + [shape[1]], z, shape[2]);
    KeptSnoc([], a);
    KeptSnoc([] + [Many(a)], b);
    KeptSnoc([] + [Many(a)] + [Many(b)], c);
    NoneKept();
  }

  /** The tuple the class makes of `[..., 0:1]`, and the one it should make. */
  lemma MisplacedItems()
    ensures Expanded(Written([], [FIRST]), 1) == [Range(ALL), FIRST]
    ensures CodeItems(Written([], [FIRST]), 3) == Some([Range(ALL), FIRST, Range(ALL)])
    ensures Meant([], [FIRST], 3) == [Range(ALL), Range(ALL), FIRST]
  {
    ExpandedWritten([], [FIRST], 1);
    assert [] + Full(1) + [FIRST] == [Range(ALL), FIRST];
    assert Padded([Range(ALL), FIRST], 3) == [Range(ALL), FIRST, Range(ALL)];
  }

  lemma FirstSelection(n: nat)
    requires n > 0
    ensures Selection(FIRST.s, n) == Some([0])
  {
    assert Clamp(0, n) == 0 && Clamp(1, n) == 1;
    assert Positions(1, 1, 1) == [] && Positions(0, 1, 1) == [0];
  }

  /** On every tensor of three axes with more than one row, `[..., 0:1]` takes the first row of each
      matrix where the tensor library takes the first column. */
  lemma EllipsisMisplaced(l: Lora)
    requires Usable(l) && |Shape(l)| == 3 && Rows(l) > 1 && Cols(l) > 0
    ensures var l', n := GetitemTuple(l, Written([], [FIRST])), Shape(l);
            && l'.Some? && Shaped(l'.value) && Shape(l'.value) == [n[0], 1, n[2]]
            && |Product(l).shape| == 3
            && AtItems(Product(l), Meant([], [FIRST], 3)).Some?
            && AtItems(Product(l), Meant([], [FIRST], 3)).value.shape == [n[0], n[1], 1]
  {
    hide Selection, PicksOf, Kept, Expanded, Written, Positions;
    MisplacedItems();
    var n := Shape(l);
    Parts(l);
    SelectAll(n[0]);
    SelectAll(n[1]);
    SelectAll(n[2]);
    SelectAll(LeadB(l)[0]);
    FirstSelection(n[1]);
    FirstSelection(n[2]);
    PicksOfThree(Range(ALL), Range(ALL), FIRST, n);
    MisplacedGet(l);
    assert Product(l).shape == n;
    var first: seq<nat> := [0];
    assert Selection(FIRST.s, n[2]) == Some(first) && |first| == 1;
  }

  lemma MisplacedGet(l: Lora)
    requires Usable(l) && |Shape(l)| == 3 && Rows(l) > 1 && Cols(l) > 0
    ensures var l', n := GetitemTuple(l, Written([], [FIRST])), Shape(l);
            l'.Some? && Shaped(l'.value) && Shape(l'.value) == [n[0], 1, n[2]]
  {
    hide Selection, Kept, Expanded, Positions, AtBoth;
    MisplacedItems();
    var es := Written([], [FIRST]);
    var tuple := TupleArg([Range(ALL), FIRST]);
    assert GetitemTuple(l, es) == Getitem(l, tuple);
    Parts(l);
    var na, nb := LeadA(l)[0], LeadB(l)[0];
    assert LeadA(l) == [] + [na] && LeadB(l) == [] + [nb];
    assert Items(tuple, 3).value[..1] == [] + [Range(ALL)];
    SelectAll(nb);
    SelectAll(Cols(l));
    FirstSelection(Rows(l));
    PicksSplit([], [], Range(ALL), nb);
    assert Front([Range(ALL)]) == [] && Front([na]) == [];
    var pa, pb := [] + [Many(Everything(na))], [] + [Many(Everything(nb))];
    assert TuplePicksA([Range(ALL)], [na]) == Some(pa);
    assert Getitem(l, tuple) == Some(AtBoth(l, pa, pb, [0], Everything(Cols(l))));
    KeptSnoc([], Everything(na));
    KeptSnoc([], Everything(nb));
    AtBothShape(l, pa, pb, [0], Everything(Cols(l)));
    KeptSnoc(pb, [0]);
    KeptSnoc(pb + [Many([0])], Everything(Cols(l)));
    NoneKept();
    assert Shape(l) == LeadB(l) + [Rows(l)] + [Cols(l)];
    assert [] + [nb] + [1] + [Cols(l)] == [Shape(l)[0], 1, Shape(l)[2]];
    assert |[0 as nat]| == 1;
  }
}
