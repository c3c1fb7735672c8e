/** Concrete low-rank tensors on which an operation of the class leaves factors that no longer fit together,
    or raises where the full tensor has an answer. */
module LoraMisfits {
  import opened Tensors
  import opened LoraTensor
  import opened LoraOps
  import opened Wrappers

  function Zero(shape: seq<nat>): Tensor {
    Tensor(shape, _ => 0)
  }

  /** Two matrices of one row and one column, of rank one; A is broadcast over them. */
  const SHARED := Lora(Zero([1, 1, 1]), Zero([2, 1, 1]))

  /** The same with a factor A of its own for each matrix. */
  const PAIRED := Lora(Zero([2, 1, 1]), Zero([2, 1, 1]))

  lemma SharedParts()
    ensures Usable(SHARED) && LeadA(SHARED) == [1] && LeadB(SHARED) == [2] && |Shape(SHARED)| == 3
    ensures Usable(PAIRED) && LeadA(PAIRED) == [2] && LeadB(PAIRED) == [2] && |Shape(PAIRED)| == 3
    ensures Rows(SHARED) == 1 && Cols(SHARED) == 1 && Rows(PAIRED) == 1 && Cols(PAIRED) == 1
  {
  }

  lemma Sizes()
    ensures Selection(Slice(Some(1), None, None), 2) == Some([1]) && Selection(Slice(Some(1), None, None), 1) == Some([])
    ensures Selection(Slice(Some(0), Some(1), None), 2) == Some([0])
  {
    assert Positions(2, 2, 1) == [] && Positions(1, 1, 1) == [];
    assert Positions(1, 2, 1) == [1] && Positions(0, 1, 1) == [0];
    assert Clamp(1, 2) == 1 && Clamp(1, 1) == 1 && Clamp(0, 2) == 0;
  }

  /** The slice `[1:]` of a leading axis along which A is broadcast: one matrix of B is left and none of A. */
  lemma SliceMisfit()
    ensures var arg := SliceArg(Slice(Some(1), None, None));
            && Getitem(SHARED, arg).Some? && Shaped(Getitem(SHARED, arg).value) && !Usable(Getitem(SHARED, arg).value)
  {
    var s := Slice(Some(1), None, None);
    var arg := SliceArg(s);
    SharedParts();
    Sizes();
    assert Padded([Range(s)], 3) == [Range(s), Range(ALL), Range(ALL)];
    ThreeItems(SHARED, arg, Range(s));
    GetitemCommutes(SHARED, arg);
    var items := Items(arg, 3).value;
    assert items[..1] == [Range(s)];
    hide Selection;
    var two, none: seq<nat> := [1], [];
    assert Selection(s, 2) == Some(two) && |two| == 1 && Selection(s, 1) == Some(none) && |none| == 0;
    assert !KeepsMatch(arg, items[..1][0], 1, 2);
  }

  /** The tuple `[0:1, ...]` on a leading axis that A has too: one matrix of B is left and both of A. */
  lemma TupleMisfit()
    ensures var arg := TupleArg([Range(Slice(Some(0), Some(1), None))]);
            && Getitem(PAIRED, arg).Some? && Shaped(Getitem(PAIRED, arg).value) && !Usable(Getitem(PAIRED, arg).value)
  {
    var s := Slice(Some(0), Some(1), None);
    var arg := TupleArg([Range(s)]);
    SharedParts();
    Sizes();
    assert Padded([Range(s)], 3) == [Range(s), Range(ALL), Range(ALL)];
    ThreeItems(PAIRED, arg, Range(s));
    GetitemCommutes(PAIRED, arg);
    var items := Items(arg, 3).value;
    assert items[..1] == [Range(s)];
    hide Selection;
    var one: seq<nat> := [0];
    assert Selection(s, 2) == Some(one) && |one| == 1;
    assert !KeepsMatch(arg, items[..1][0], 2, 2);
  }

  /** The class answers a slice of the first of three axes. */
  lemma ThreeItems(l: Lora, arg: Argument, s: Subscript)
    requires Usable(l) && |Shape(l)| == 3 && s.Range? && Items(arg, 3) == Some([s, Range(ALL), Range(ALL)])
    requires !arg.IntArg? && Selection(s.s, LeadB(l)[0]).Some?
    ensures Getitem(l, arg).Some?
  {
    hide Selection;
    Parts(l);
    SelectAll(Rows(l));
    SelectAll(Cols(l));
    var items := [s, Range(ALL), Range(ALL)];
    assert items[..1] == [s] && LeadB(l) == [LeadB(l)[0]];
    assert Front([s]) == [] && Front(LeadB(l)) == [] && Front(LeadA(l)) == [];
    assert PicksOf([s], LeadB(l)).Some?;
    PicksADefined(arg, [s], LeadA(l), LeadB(l));
  }

  /** The integer 1 on a leading axis along which A is broadcast: the class raises, the product has an answer. */
  lemma IntegerRaises()
    ensures Getitem(SHARED, IntArg(1)).None? && Subscripted(Product(SHARED), IntArg(1)).Some?
  {
    SharedParts();
    Parts(SHARED);
    var items := [Int(1), Range(ALL), Range(ALL)];
    assert Padded([Int(1)], 3) == items;
    assert Items(IntArg(1), 3) == Some(items) && items[..1] == [Int(1)];
    SelectAll(1);
    hide Selection;
    assert Front(items) == [Int(1), Range(ALL)] && Front(Front(items)) == [Int(1)] && Front([Int(1)]) == [];
    var shape := Shape(SHARED);
    assert shape == [2, 1, 1] && Front(shape) == [2, 1] && Front(Front(shape)) == [2] && Front([2 as nat]) == [];
    assert PicksOf([Int(1)], [2]).Some?;
    assert PicksOf([Int(1), Range(ALL)], [2, 1]).Some?;
    assert PicksOf(items, shape).Some?;
    assert Product(SHARED).shape == shape;
    GetitemDefined(SHARED, IntArg(1));
    assert !IntegersFit(IntArg(1), items[..1], LeadA(SHARED)) by { assert Position(items[..1][0].i, LeadA(SHARED)[0]).None?; }
  }

  /** Joining two tensors over which A is broadcast: four matrices of B, and two of A. */
  lemma CatMisfit()
    ensures var ls := [SHARED, SHARED];
            Joinable(ls) && Shaped(CatLora(ls)) && !Usable(CatLora(ls))
  {
    var ls := [SHARED, SHARED];
    SharedParts();
    CatIff(ls);
    assert ls[0].a.shape[0] != ls[0].b.shape[0];
  }
}
