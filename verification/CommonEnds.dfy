/** How far two strings agree from the front and from the back. */
module CommonEnds {

  function PrefixLen(a: string, b: string): (n: nat)
    ensures n <= |a| && n <= |b|
  {
    if a == "" || b == "" || a[0] != b[0] then 0 else PrefixLen(a[1..], b[1..]) + 1
  }

  function SuffixLen(a: string, b: string): (n: nat)
    ensures n <= |a| && n <= |b|
  {
    if a == "" || b == "" || a[|a| - 1] != b[|b| - 1] then 0
    else SuffixLen(a[..|a| - 1], b[..|b| - 1]) + 1
  }

  method FindPrefixLen(left: string, right: string) returns (n: nat)
    ensures n == PrefixLen(left, right)
  {
    n := 0;
    var minLen := if |left| < |right| then |left| else |right|;
    while n < minLen && left[n] == right[n]
      invariant n <= minLen && n + PrefixLen(left[n..], right[n..]) == PrefixLen(left, right)
    {
      assert left[n..][1..] == left[n + 1..] && right[n..][1..] == right[n + 1..];
      n := n + 1;
    }
  }

  method FindSuffixLen(left: string, right: string) returns (n: nat)
    ensures n == SuffixLen(left, right)
  {
    hide SuffixLen;
    n := 0;
    var minLen := if |left| < |right| then |left| else |right|;
    assert left[..|left| - 0] == left && right[..|right| - 0] == right;
    while n < minLen && left[|left| - 1 - n] == right[|right| - 1 - n]
      invariant n <= minLen && n + SuffixLen(left[..|left| - n], right[..|right| - n]) == SuffixLen(left, right)
    {
      SuffixStep(left, right, n);
      n := n + 1;
    }
    SuffixEnd(left, right, n);
  }

  lemma SuffixEnd(a: string, b: string, n: nat)
    requires n <= |a| && n <= |b| && (n == |a| || n == |b| || a[|a| - 1 - n] != b[|b| - 1 - n])
    ensures SuffixLen(a[..|a| - n], b[..|b| - n]) == 0
  {
  }

  lemma SuffixStep(a: string, b: string, n: nat)
    requires n < |a| && n < |b| && a[|a| - 1 - n] == b[|b| - 1 - n]
    ensures SuffixLen(a[..|a| - n], b[..|b| - n]) == SuffixLen(a[..|a| - (n + 1)], b[..|b| - (n + 1)]) + 1
  {
    var x, y := a[..|a| - n], b[..|b| - n];
    assert x[..|x| - 1] == a[..|a| - (n + 1)] && y[..|y| - 1] == b[..|b| - (n + 1)];
  }

  /** The common prefix is common, and no longer one is. */
  lemma {:induction false} PrefixIsLongest(a: string, b: string)
    ensures var n := PrefixLen(a, b);
            a[..n] == b[..n] && (n < |a| && n < |b| ==> a[n] != b[n])
  {
    if !(a == "" || b == "" || a[0] != b[0]) {
      PrefixIsLongest(a[1..], b[1..]);
      var n := PrefixLen(a, b);
      assert a[..n] == [a[0]] + a[1..][..n - 1];
      assert b[..n] == [b[0]] + b[1..][..n - 1];
    }
  }

  lemma {:induction false} SuffixAgreesAt(a: string, b: string, k: nat)
    requires k < SuffixLen(a, b)
    ensures a[|a| - 1 - k] == b[|b| - 1 - k]
    decreases k
  {
    if k > 0 {
      SuffixAgreesAt(a[..|a| - 1], b[..|b| - 1], k - 1);
    }
  }

  lemma {:induction false} SuffixStops(a: string, b: string)
    ensures var n := SuffixLen(a, b);
            n < |a| && n < |b| ==> a[|a| - 1 - n] != b[|b| - 1 - n]
  {
    if !(a == "" || b == "" || a[|a| - 1] != b[|b| - 1]) {
      SuffixStops(a[..|a| - 1], b[..|b| - 1]);
    }
  }

  /** The common suffix is common; SuffixStops says that no longer one is. */
  lemma SuffixAgrees(a: string, b: string, n: nat)
    requires n == SuffixLen(a, b)
    ensures a[|a| - n..] == b[|b| - n..]
  {
    hide SuffixLen;
    var x, y := a[|a| - n..], b[|b| - n..];
    assert |x| == |y| == n;
    forall i: nat | i < |x|
      ensures x[i] == y[i]
    {
      assert x[i] == a[|a| - 1 - (n - 1 - i)] && y[i] == b[|b| - 1 - (n - 1 - i)];
      SuffixAgreesAt(a, b, n - 1 - i);
    }
    assert x == y;
  }
}
