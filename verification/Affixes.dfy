/** The text before the first occurrence of a common prefix, and the text after the last occurrence of
    a common suffix: each is the mirror image of the other. */
module Affixes {
  import opened CommonEnds
  import opened Wrappers
  import opened Sequences

  function Reverse(s: string): (r: string)
    ensures |r| == |s|
  {
    if s == "" then "" else Reverse(s[1..]) + [s[0]]
  }

  // ---------------------------------------------------------------- what is computed

  predicate OccursAt(full: string, part: string, i: nat) {
    i + |part| <= |full| && full[i..i + |part|] == part
  }

  /** The first occurrence at or after position i. */
  function FirstFrom(full: string, part: string, i: nat): (r: Option<nat>)
    ensures r.Some? ==> i <= r.value && OccursAt(full, part, r.value)
    ensures r.Some? ==> forall j | i <= j < r.value :: !OccursAt(full, part, j)
    ensures r.None? ==> forall j: nat | i <= j :: !OccursAt(full, part, j)
    decreases |full| - i
  {
    if i + |part| > |full| then None
    else if OccursAt(full, part, i) then Some(i)
    else FirstFrom(full, part, i + 1)
  }

  /** The last occurrence at or before position i. */
  function LastUpto(full: string, part: string, i: nat): (r: Option<nat>)
    ensures r.Some? ==> r.value <= i && OccursAt(full, part, r.value)
    ensures r.Some? ==> forall j | r.value < j <= i :: !OccursAt(full, part, j)
    ensures r.None? ==> forall j: nat | j <= i :: !OccursAt(full, part, j)
  {
    if OccursAt(full, part, i) then Some(i) else if i == 0 then None else LastUpto(full, part, i - 1)
  }

  function UntilPrefix(full: string, left: string, right: string): string {
    var n := PrefixLen(left, right);
    if n == 0 then ""
    else
      var pos := FirstFrom(full, left[..n], 0);
      if pos.None? then "" else full[..pos.value]
  }

  function AfterSuffix(full: string, left: string, right: string): string {
    var n := SuffixLen(left, right);
    if n == 0 then ""
    else
      var pos := LastUpto(full, left[|left| - n..], |full|);
      if pos.None? then "" else full[pos.value + n..]
  }

  // ---------------------------------------------------------------- the code

  method UntilCommonPrefix(full: string, left: string, right: string) returns (r: string)
    ensures r == UntilPrefix(full, left, right)
    ensures r == Reverse(AfterSuffix(Reverse(full), Reverse(left), Reverse(right)))
  {
    Mirror(full, left, right);
    hide Reverse, AfterSuffix, PrefixLen;
    var n := FindPrefixLen(left, right);
    if n == 0 {
      return "";
    }
    var pos := FirstFrom(full, left[..n], 0);
    r := if pos.None? then "" else full[..pos.value];
  }

  method AfterCommonSuffix(full: string, left: string, right: string) returns (r: string)
    ensures r == AfterSuffix(full, left, right)
    ensures r == Reverse(UntilPrefix(Reverse(full), Reverse(left), Reverse(right)))
  {
    MirrorBack(full, left, right);
    hide Reverse, UntilPrefix, SuffixLen, LastUpto;
    var n := FindSuffixLen(left, right);
    if n == 0 {
      return "";
    }
    var pos := LastUpto(full, left[|left| - n..], |full|);
    r := if pos.None? then "" else full[pos.value + n..];
  }

  // ---------------------------------------------------------------- which text it is

  /** What comes before the first occurrence of the common prefix, and nothing where there is none. */
  lemma UntilIs(full: string, left: string, right: string)
    ensures var r, n := UntilPrefix(full, left, right), PrefixLen(left, right);
            && r <= full
            && (n > 0 && (exists i: nat :: OccursAt(full, left[..n], i)) ==>
                  OccursAt(full, left[..n], |r|) && forall i: nat | i < |r| :: !OccursAt(full, left[..n], i))
            && (n == 0 || (forall i: nat :: !OccursAt(full, left[..n], i)) ==> r == "")
  {
    hide PrefixLen, FirstFrom;
  }

  /** What comes behind the last occurrence of the common suffix, and nothing where there is none. */
  lemma AfterIs(full: string, left: string, right: string)
    ensures var r, n := AfterSuffix(full, left, right), SuffixLen(left, right);
            var part := left[|left| - n..];
            && |r| <= |full| && r == full[|full| - |r|..]
            && (n > 0 && (exists i: nat :: OccursAt(full, part, i)) ==>
                  |r| + n <= |full| && OccursAt(full, part, |full| - |r| - n) &&
                  forall i: nat | i > |full| - |r| - n :: !OccursAt(full, part, i))
            && (n == 0 || (forall i: nat :: !OccursAt(full, part, i)) ==> r == "")
  {
    hide SuffixLen, LastUpto;
    assert full[|full|..] == "";
  }

  // ---------------------------------------------------------------- the mirror

  lemma {:induction false} ReverseConcat(a: string, b: string)
    ensures Reverse(a + b) == Reverse(b) + Reverse(a)
  {
    if a == "" {
      assert a + b == b && Reverse(b) + "" == Reverse(b);
    } else {
      assert (a + b)[1..] == a[1..] + b && (a + b)[0] == a[0];
      ReverseConcat(a[1..], b);
      assert Reverse(b) + (Reverse(a[1..]) + [a[0]]) == Reverse(b) + Reverse(a[1..]) + [a[0]];
    }
  }

  lemma {:induction false} ReverseTwice(s: string)
    ensures Reverse(Reverse(s)) == s
  {
    if s != "" {
      ReverseConcat(Reverse(s[1..]), [s[0]]);
      ReverseTwice(s[1..]);
      assert [s[0]][1..] == "" && Reverse([s[0]]) == [s[0]];
      assert s == [s[0]] + s[1..];
    }
  }

  lemma ReverseSlice(s: string, i: nat, j: nat)
    requires i <= j <= |s|
    ensures Reverse(s[i..j]) == Reverse(s)[|s| - j..|s| - i]
  {
    hide Reverse;
    var a, t, c := s[..i], s[i..j], s[j..];
    ThreeParts(s, i, j);
    Regroup(a, t, c);
    ReverseConcat(a, t + c);
    ReverseConcat(t, c);
    Middle(Reverse(c), Reverse(t), Reverse(a));
  }

  lemma Middle(x: string, y: string, z: string)
    ensures (x + y + z)[|x|..|x| + |y|] == y
  {
  }

  lemma {:induction false} MirrorLen(a: string, b: string)
    ensures PrefixLen(a, b) == SuffixLen(Reverse(a), Reverse(b))
  {
    if a != "" && b != "" {
      var x, y := Reverse(a), Reverse(b);
      assert x[..|x| - 1] == Reverse(a[1..]) && y[..|y| - 1] == Reverse(b[1..]);
      MirrorLen(a[1..], b[1..]);
    }
  }

  lemma MirrorOccurs(full: string, part: string, i: nat)
    requires i + |part| <= |full|
    ensures OccursAt(full, part, i) <==> OccursAt(Reverse(full), Reverse(part), |full| - |part| - i)
  {
    hide Reverse, OccursAt;
    var j := i + |part|;
    ReverseSlice(full, i, j);
    ReverseInjective(full[i..j], part);
    OccursSlice(full, part, i, j);
    OccursSlice(Reverse(full), Reverse(part), |full| - j, |full| - i);
  }

  lemma OccursSlice(full: string, part: string, i: nat, j: nat)
    requires i <= j <= |full| && j - i == |part|
    ensures OccursAt(full, part, i) <==> full[i..j] == part
  {
  }

  lemma ReverseInjective(a: string, b: string)
    ensures Reverse(a) == Reverse(b) <==> a == b
  {
    hide Reverse;
    ReverseTwice(a);
    ReverseTwice(b);
  }

  /** The first occurrence, seen in the mirror, is the last one. */
  lemma MirrorFind(full: string, part: string)
    requires part != ""
    ensures var p, q := FirstFrom(full, part, 0), LastUpto(Reverse(full), Reverse(part), |full|);
            (p.None? <==> q.None?) && (p.Some? ==> q.value == |full| - |part| - p.value)
  {
    hide Reverse, OccursAt, FirstFrom, LastUpto;
    var p, q := FirstFrom(full, part, 0), LastUpto(Reverse(full), Reverse(part), |full|);
    if p.Some? {
      InRange(full, part, p.value);
      MirrorOccurs(full, part, p.value);
    }
    if q.Some? {
      InRange(Reverse(full), Reverse(part), q.value);
      MirrorOccurs(full, part, |full| - |part| - q.value);
    }
  }

  lemma InRange(full: string, part: string, i: nat)
    requires OccursAt(full, part, i)
    ensures i + |part| <= |full|
  {
  }

  /** Reversing all three arguments and the result turns one function into the other. */
  lemma Mirror(full: string, left: string, right: string)
    ensures UntilPrefix(full, left, right) == Reverse(AfterSuffix(Reverse(full), Reverse(left), Reverse(right)))
  {
    hide Reverse, OccursAt, FirstFrom, LastUpto;
    var n := PrefixLen(left, right);
    MirrorLen(left, right);
    if n == 0 {
      assert Reverse("") == "" by { ReverseTwice(""); }
    } else {
      var part := left[..n];
      ReverseSlice(left, 0, n);
      assert Reverse(left)[|left| - n..] == Reverse(left)[|left| - n..|left|] == Reverse(part);
      MirrorFind(full, part);
      var p := FirstFrom(full, part, 0);
      if p.Some? {
        ReverseSlice(full, 0, p.value);
        assert Reverse(full)[|full| - p.value..] == Reverse(full)[|full| - p.value..|full|];
        ReverseTwice(full[..p.value]);
        assert full[0..p.value] == full[..p.value];
      } else {
        assert Reverse("") == "" by { ReverseTwice(""); }
      }
    }
  }

  lemma MirrorBack(full: string, left: string, right: string)
    ensures AfterSuffix(full, left, right) == Reverse(UntilPrefix(Reverse(full), Reverse(left), Reverse(right)))
  {
    hide UntilPrefix, AfterSuffix, Reverse;
    Mirror(Reverse(full), Reverse(left), Reverse(right));
    ReverseTwice(full);
    ReverseTwice(left);
    ReverseTwice(right);
    ReverseTwice(AfterSuffix(full, left, right));
  }
}
