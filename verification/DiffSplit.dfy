/** Splitting two template outputs into a common prefix, the two differing middles, and a common
    suffix, and exactly when that split loses text. */
module DiffSplit {
  import opened CommonEnds
  import opened Segments
  import opened Sequences

  datatype Split = Split(prefix: string, suffix: string, left: string, right: string)

  /** Both inputs can be put together again from the parts. */
  predicate Conserves(s: Split, left: string, right: string) {
    s.prefix + s.left + s.suffix == left && s.prefix + s.right + s.suffix == right
  }

  // ---------------------------------------------------------------- the segment loop

  /** The four cursors (the end cursors are inclusive), the consumed flags and the collected text. */
  datatype Ends = Ends(ls: nat, le: nat, rs: nat, re: nat, leftDone: bool, rightDone: bool, prefix: string, suffix: string)

  predicate InBounds(l: seq<Segment>, r: seq<Segment>, e: Ends) {
    e.ls <= e.le < |l| && e.rs <= e.re < |r| &&
    (e.leftDone ==> e.ls == e.le) && (e.rightDone ==> e.rs == e.re)
  }

  predicate Running(e: Ends) {
    e.ls != e.le && e.rs != e.re
  }

  function EatFront(l: seq<Segment>, r: seq<Segment>, e: Ends): (e': Ends)
    requires InBounds(l, r, e) && Running(e)
    ensures e.ls <= e'.ls <= e'.le == e.le && e.rs <= e'.rs <= e'.re == e.re
    ensures e'.leftDone == e.leftDone && e'.rightDone == e.rightDone
  {
    if l[e.ls] == r[e.rs] then e.(prefix := e.prefix + l[e.ls].value, ls := e.ls + 1, rs := e.rs + 1) else e
  }

  function EatBack(l: seq<Segment>, r: seq<Segment>, e: Ends): Ends
    requires InBounds(l, r, e)
  {
    if l[e.le] != r[e.re] then e
    else
      e.(suffix := l[e.le].value + e.suffix,
         le := if e.ls != e.le then e.le - 1 else e.le,
         leftDone := e.leftDone || e.ls == e.le,
         re := if e.rs != e.re then e.re - 1 else e.re,
         rightDone := e.rightDone || e.rs == e.re)
  }

  function Loop(l: seq<Segment>, r: seq<Segment>, e: Ends): (e': Ends)
    requires InBounds(l, r, e) && (Running(e) ==> !e.leftDone && !e.rightDone)
    ensures InBounds(l, r, e')
    decreases e.le - e.ls + (e.re - e.rs)
  {
    if !Running(e) then e
    else
      var next := EatBack(l, r, EatFront(l, r, e));
      if l[e.ls] != r[e.rs] && l[e.le] != r[e.re] then e else Loop(l, r, next)
  }

  function Start(l: seq<Segment>, r: seq<Segment>): Ends
    requires l != [] && r != []
  {
    Ends(0, |l| - 1, 0, |r| - 1, false, false, "", "")
  }

  // ---------------------------------------------------------------- after the loop

  function AfterLoop(l: seq<Segment>, r: seq<Segment>, e: Ends): (e': Ends)
    requires InBounds(l, r, e)
    ensures InBounds(l, r, e')
  {
    if e.ls == e.le && e.rs != e.re then
      if l[e.ls] == r[e.re] then e.(suffix := r[e.re].value + e.suffix, re := e.re - 1, leftDone := true)
      else if l[e.ls] == r[e.rs] then e.(prefix := e.prefix + r[e.rs].value, rs := e.rs + 1, leftDone := true)
      else e
    else if e.rs == e.re && e.ls != e.le then
      if l[e.le] == r[e.rs] then e.(suffix := l[e.le].value + e.suffix, le := e.le - 1, rightDone := true)
      else if l[e.ls] == r[e.rs] then e.(prefix := e.prefix + l[e.ls].value, ls := e.ls + 1, rightDone := true)
      else e
    else if e.ls == e.le && e.rs == e.re && l[e.ls] == r[e.rs] && l[e.ls].kind == MARKER then
      e.(prefix := e.prefix + r[e.rs].value, leftDone := true, rightDone := true)
    else e
  }

  function LeftRemainder(l: seq<Segment>, e: Ends): string
    requires e.ls <= e.le < |l|
  {
    Range(l, e.ls, if e.leftDone then e.le else e.le + 1)
  }

  function RightRemainder(r: seq<Segment>, e: Ends): string
    requires e.rs <= e.re < |r|
  {
    Range(r, e.rs, if e.rightDone then e.re else e.re + 1)
  }

  /** What the texts left between the cursors have in common at either end moves to prefix and suffix. */
  function TrimRemainders(e: Ends, rl: string, rr: string, textSuffix: bool, textPrefix: bool): Split {
    var s := if textSuffix then SuffixLen(rl, rr) else 0;
    var p := if textPrefix then PrefixLen(rl[..|rl| - s], rr[..|rr| - s]) else 0;
    Split(e.prefix + rl[..p], rl[|rl| - s..] + e.suffix, rl[p..|rl| - s], rr[p..|rr| - s])
  }

  /** The two corrections at the end: no difference at all, and left being a prefix of right. */
  function Correct(s: Split, left: string, right: string): Split {
    var s := if s.left == "" && s.right == "" then s.(prefix := left, suffix := "") else s;
    if s.left == "" && s.right != "" && left <= right then
      s.(prefix := left, suffix := "", right := right[|left|..])
    else s
  }

  function Assemble(left: string, right: string, l: seq<Segment>, r: seq<Segment>, e: Ends): Split
    requires InBounds(l, r, e)
  {
    var textSuffix := l[e.le].kind == TEXT && r[e.re].kind == TEXT;
    var textPrefix := r[e.rs].kind == TEXT && l[e.ls].kind == TEXT;
    Correct(TrimRemainders(e, LeftRemainder(l, e), RightRemainder(r, e), textSuffix, textPrefix), left, right)
  }

  function DiffSplitOf(left: string, right: string): Split {
    var l, r := SegmentsFrom(left, 0), SegmentsFrom(right, 0);
    if l == [] then Split("", "", "", right)
    else if r == [] then Split("", "", left, "")
    else Assemble(left, right, l, r, AfterLoop(l, r, Loop(l, r, Start(l, r))))
  }

  // ---------------------------------------------------------------- the algorithm

  method Accumulate(segs: seq<Segment>, from: nat, to: nat) returns (s: string)
    requires from <= to <= |segs|
    ensures s == Range(segs, from, to)
  {
    s := "";
    for i := from to to
      invariant s + Range(segs, i, to) == Range(segs, from, to)
    {
      RangeFirst(segs, i, to);
      assert s + (segs[i].value + Range(segs, i + 1, to)) == s + segs[i].value + Range(segs, i + 1, to);
      s := s + segs[i].value;
    }
    assert s + "" == s;
  }

  /** One pass of the loop body: eat equal segments at the front, then at the back. */
  method LoopBody(l: seq<Segment>, r: seq<Segment>, e0: Ends) returns (e: Ends, advanced: bool)
    requires InBounds(l, r, e0) && Running(e0) && !e0.leftDone && !e0.rightDone
    ensures e == EatBack(l, r, EatFront(l, r, e0))
    ensures advanced == (l[e0.ls] == r[e0.rs] || l[e0.le] == r[e0.re])
  {
    e, advanced := e0, false;
    if l[e.ls] == r[e.rs] {
      e := e.(prefix := e.prefix + l[e.ls].value);
      e := e.(ls := e.ls + 1, rs := e.rs + 1);
      advanced := true;
    }
    if l[e.le] == r[e.re] {
      e := e.(suffix := l[e.le].value + e.suffix);
      if e.ls != e.le { e := e.(le := e.le - 1); } else { e := e.(leftDone := true); }
      if e.rs != e.re { e := e.(re := e.re - 1); } else { e := e.(rightDone := true); }
      advanced := true;
    }
  }

  method SegmentLoop(l: seq<Segment>, r: seq<Segment>) returns (e: Ends)
    requires l != [] && r != []
    ensures e == Loop(l, r, Start(l, r)) && InBounds(l, r, e)
  {
    e := Start(l, r);
    while e.ls != e.le && e.rs != e.re
      invariant InBounds(l, r, e) && (Running(e) ==> !e.leftDone && !e.rightDone)
      invariant Loop(l, r, e) == Loop(l, r, Start(l, r))
      decreases e.le - e.ls + (e.re - e.rs)
    {
      var next, advanced := LoopBody(l, r, e);
      if !advanced {
        break;
      }
      e := next;
    }
    assert e == Loop(l, r, e);
  }

  method PostLoop(l: seq<Segment>, r: seq<Segment>, e0: Ends) returns (e: Ends)
    requires InBounds(l, r, e0)
    ensures e == AfterLoop(l, r, e0)
  {
    e := e0;
    if e.ls == e.le && e.rs != e.re {
      if l[e.ls] == r[e.re] {
        e := e.(suffix := r[e.re].value + e.suffix);
        e := e.(re := e.re - 1);
        e := e.(leftDone := true);
      } else if l[e.ls] == r[e.rs] {
        e := e.(prefix := e.prefix + r[e.rs].value);
        e := e.(rs := e.rs + 1);
        e := e.(leftDone := true);
      }
    } else if e.rs == e.re && e.ls != e.le {
      if l[e.le] == r[e.rs] {
        e := e.(suffix := l[e.le].value + e.suffix);
        e := e.(le := e.le - 1);
        e := e.(rightDone := true);
      } else if l[e.ls] == r[e.rs] {
        e := e.(prefix := e.prefix + l[e.ls].value);
        e := e.(ls := e.ls + 1);
        e := e.(rightDone := true);
      }
    } else if e.ls == e.le && e.rs == e.re && l[e.ls] == r[e.rs] && l[e.ls].kind == MARKER {
      e := e.(prefix := e.prefix + r[e.rs].value);
      e := e.(leftDone := true, rightDone := true);
    }
  }

  method CalculateDiffSplit(left: string, right: string) returns (s: Split)
    ensures s == DiffSplitOf(left, right)
    ensures Conserves(s, left, right) <==> !LosesText(left, right)
  {
    LossIff(left, right);
    hide LosesText, Conserves, TrimRemainders, AfterLoop, Loop, SegmentsFrom, Range;
    var l := SegmentizeMarkers(left);
    var r := SegmentizeMarkers(right);
    if l == [] {
      return Split("", "", "", right);
    }
    if r == [] {
      return Split("", "", left, "");
    }
    var looped := SegmentLoop(l, r);
    var e := PostLoop(l, r, looped);
    var textSuffix := l[e.le].kind == TEXT && r[e.re].kind == TEXT;
    var textPrefix := r[e.rs].kind == TEXT && l[e.ls].kind == TEXT;
    var rl := Accumulate(l, e.ls, if e.leftDone then e.le else e.le + 1);
    var rr := Accumulate(r, e.rs, if e.rightDone then e.re else e.re + 1);
    s := TrimTexts(e, rl, rr, textSuffix, textPrefix);
    if s.left == "" && s.right == "" {
      s := s.(prefix := left, suffix := "");
    }
    if s.left == "" && s.right != "" && |left| <= |right| && right[..|left|] == left {
      s := s.(prefix := left, suffix := "", right := right[|left|..]);
    }
  }

  method TrimTexts(e: Ends, rl: string, rr: string, textSuffix: bool, textPrefix: bool) returns (s: Split)
    ensures s == TrimRemainders(e, rl, rr, textSuffix, textPrefix)
  {
    var suffixLen, prefixLen := 0, 0;
    if textSuffix {
      suffixLen := FindSuffixLen(rl, rr);
    }
    if textPrefix {
      prefixLen := FindPrefixLen(rl[..|rl| - suffixLen], rr[..|rr| - suffixLen]);
    }
    s := Split(e.prefix + rl[..prefixLen], rl[|rl| - suffixLen..] + e.suffix,
               rl[prefixLen..|rl| - suffixLen], rr[prefixLen..|rr| - suffixLen]);
  }

  // ---------------------------------------------------------------- when text is lost

  /** A branch after the loop takes the last left segment although the loop has already used it. */
  predicate LeftReused(l: seq<Segment>, r: seq<Segment>, e: Ends)
    requires InBounds(l, r, e)
  {
    e.leftDone && !e.rightDone &&
    if e.rs != e.re then l[e.ls] == r[e.re] || l[e.ls] == r[e.rs]
    else l[e.ls] == r[e.rs] && l[e.ls].kind == MARKER
  }

  predicate RightReused(l: seq<Segment>, r: seq<Segment>, e: Ends)
    requires InBounds(l, r, e)
  {
    e.rightDone && !e.leftDone &&
    if e.ls != e.le then l[e.le] == r[e.rs] || l[e.ls] == r[e.rs]
    else l[e.ls] == r[e.rs] && l[e.ls].kind == MARKER
  }

  /** The guard: a consumed side is consumed again. The last correction makes up for it only when
      right segments remain and left is a prefix of right. */
  predicate LosesText(left: string, right: string) {
    var l, r := SegmentsFrom(left, 0), SegmentsFrom(right, 0);
    l != [] && r != [] &&
    var e := Loop(l, r, Start(l, r));
    RightReused(l, r, e) || (LeftReused(l, r, e) && (e.rs == e.re || !(left <= right)))
  }

  /** Both inputs are what the cursors have collected around what lies between them. */
  predicate Accounted(left: string, right: string, l: seq<Segment>, r: seq<Segment>, e: Ends) {
    InBounds(l, r, e) &&
    e.prefix + LeftRemainder(l, e) + e.suffix == left &&
    e.prefix + RightRemainder(r, e) + e.suffix == right
  }

  /** One side of a cursor step: a segment moves from the middle to the prefix or to the suffix. */
  lemma MoveFront(segs: seq<Segment>, i: nat, j: nat, prefix: string, suffix: string)
    requires i < j <= |segs|
    ensures prefix + segs[i].value + Range(segs, i + 1, j) + suffix == prefix + Range(segs, i, j) + suffix
  {
    RangeFirst(segs, i, j);
    RegroupFour(prefix, segs[i].value, Range(segs, i + 1, j), suffix);
  }

  lemma MoveBack(segs: seq<Segment>, i: nat, j: nat, prefix: string, suffix: string)
    requires i < j <= |segs|
    ensures prefix + Range(segs, i, j - 1) + (segs[j - 1].value + suffix) == prefix + Range(segs, i, j) + suffix
  {
    RangeLast(segs, i, j);
    RegroupFour(prefix, Range(segs, i, j - 1), segs[j - 1].value, suffix);
  }

  lemma FrontKeeps(left: string, right: string, l: seq<Segment>, r: seq<Segment>, e: Ends)
    requires Accounted(left, right, l, r, e) && Running(e)
    ensures Accounted(left, right, l, r, EatFront(l, r, e))
  {
    hide Range;
    MoveFront(l, e.ls, e.le + 1, e.prefix, e.suffix);
    MoveFront(r, e.rs, e.re + 1, e.prefix, e.suffix);
  }

  lemma BackKeeps(left: string, right: string, l: seq<Segment>, r: seq<Segment>, e: Ends)
    requires Accounted(left, right, l, r, e) && !e.leftDone && !e.rightDone
    ensures Accounted(left, right, l, r, EatBack(l, r, e))
  {
    hide Range;
    MoveBack(l, e.ls, e.le + 1, e.prefix, e.suffix);
    MoveBack(r, e.rs, e.re + 1, e.prefix, e.suffix);
  }

  lemma {:induction false} LoopKeeps(left: string, right: string, l: seq<Segment>, r: seq<Segment>, e: Ends)
    requires Accounted(left, right, l, r, e) && (Running(e) ==> !e.leftDone && !e.rightDone)
    ensures Accounted(left, right, l, r, Loop(l, r, e))
    decreases e.le - e.ls + (e.re - e.rs)
  {
    hide Accounted;
    assert InBounds(l, r, e) by { AccountedInBounds(left, right, l, r, e); }
    if Running(e) && (l[e.ls] == r[e.rs] || l[e.le] == r[e.re]) {
      FrontKeeps(left, right, l, r, e);
      var f := EatFront(l, r, e);
      BackKeeps(left, right, l, r, f);
      LoopKeeps(left, right, l, r, EatBack(l, r, f));
    }
  }

  lemma AccountedInBounds(left: string, right: string, l: seq<Segment>, r: seq<Segment>, e: Ends)
    requires Accounted(left, right, l, r, e)
    ensures InBounds(l, r, e)
  {
  }

  /** The branches after the loop keep the account when they only take what is still there. */
  lemma AfterLoopKeeps(left: string, right: string, l: seq<Segment>, r: seq<Segment>, e: Ends)
    requires Accounted(left, right, l, r, e)
    requires !LeftReused(l, r, e) && !RightReused(l, r, e) && !(e.leftDone && e.rightDone)
    ensures Accounted(left, right, l, r, AfterLoop(l, r, e))
  {
    hide Range;
    MoveFront(l, e.ls, e.le + 1, e.prefix, e.suffix);
    MoveFront(r, e.rs, e.re + 1, e.prefix, e.suffix);
    MoveBack(l, e.ls, e.le + 1, e.prefix, e.suffix);
    MoveBack(r, e.rs, e.re + 1, e.prefix, e.suffix);
    RangeEmpty(l, e.ls);
    RangeEmpty(r, e.rs);
    RangeEmpty(l, e.ls + 1);
    RangeEmpty(r, e.rs + 1);
  }

  lemma RangeEmpty(segs: seq<Segment>, i: nat)
    requires i <= |segs|
    ensures Range(segs, i, i) == ""
  {
  }

  /** Trimming the remainders moves text to the ends and loses none. */
  lemma TrimConserves(e: Ends, rl: string, rr: string, ts: bool, tp: bool)
    ensures Conserves(TrimRemainders(e, rl, rr, ts, tp), e.prefix + rl + e.suffix, e.prefix + rr + e.suffix)
  {
    hide PrefixLen, SuffixLen;
    var s := if ts then SuffixLen(rl, rr) else 0;
    var p := if tp then PrefixLen(rl[..|rl| - s], rr[..|rr| - s]) else 0;
    PrefixIsLongest(rl[..|rl| - s], rr[..|rr| - s]);
    if ts { SuffixAgrees(rl, rr, s); }
    assert rl[..p] == rl[..|rl| - s][..p] == rr[..|rr| - s][..p] == rr[..p];
    ThreeParts(rl, p, |rl| - s);
    ThreeParts(rr, p, |rr| - s);
    assert rr[|rr| - s..] == rl[|rl| - s..];
    RegroupFive(e.prefix, rl[..p], rl[p..|rl| - s], rl[|rl| - s..], e.suffix);
    RegroupFive(e.prefix, rl[..p], rr[p..|rr| - s], rl[|rl| - s..], e.suffix);
  }

  lemma CorrectConserves(s: Split, left: string, right: string)
    requires Conserves(s, left, right)
    ensures Conserves(Correct(s, left, right), left, right)
  {
    assert left + "" == left && left + "" + "" == left;
    if left <= right {
      assert left + right[|left|..] + "" == right;
    }
  }

  /** Nothing is lost when the account is kept. */
  lemma AccountedConserves(left: string, right: string, l: seq<Segment>, r: seq<Segment>, e: Ends)
    requires Accounted(left, right, l, r, e)
    ensures Conserves(Assemble(left, right, l, r, e), left, right)
  {
    hide Conserves, TrimRemainders, Correct;
    var ts, tp := l[e.le].kind == TEXT && r[e.re].kind == TEXT, r[e.rs].kind == TEXT && l[e.ls].kind == TEXT;
    var rl, rr := LeftRemainder(l, e), RightRemainder(r, e);
    TrimConserves(e, rl, rr, ts, tp);
    CorrectConserves(TrimRemainders(e, rl, rr, ts, tp), left, right);
  }

  /** When both sides are used up, the texts are equal and the first correction restores them. */
  lemma BothDone(left: string, right: string, l: seq<Segment>, r: seq<Segment>, e: Ends)
    requires Accounted(left, right, l, r, e) && e.leftDone && e.rightDone
    ensures Conserves(Assemble(left, right, l, r, AfterLoop(l, r, e)), left, right)
  {
    RangeEmpty(l, e.ls);
    RangeEmpty(r, e.rs);
    var e' := AfterLoop(l, r, e);
    assert LeftRemainder(l, e') == "" && RightRemainder(r, e') == "";
    assert left == right;
    assert left + "" == left && left + "" + "" == left;
  }

  lemma LeftReusedLoses(left: string, right: string, l: seq<Segment>, r: seq<Segment>, e: Ends)
    requires Accounted(left, right, l, r, e) && LeftReused(l, r, e)
    requires forall i | 0 <= i < |r| :: r[i].value != ""
    ensures Conserves(Assemble(left, right, l, r, AfterLoop(l, r, e)), left, right) <==> e.rs != e.re && left <= right
  {
    hide Range;
    var e' := AfterLoop(l, r, e);
    RangeEmpty(l, e.ls);
    assert LeftRemainder(l, e) == "" && LeftRemainder(l, e') == "";
    assert left == e.prefix + e.suffix by { assert e.prefix + "" == e.prefix; }
    if e.rs == e.re {
      RangeEmpty(r, e.rs);
      RangeFirst(r, e.rs, e.re + 1);
      RangeEmpty(r, e.rs + 1);
      assert |right| > |left|;
    } else {
      RangeFirst(r, e'.rs, e'.re + 1);
      assert RightRemainder(r, e') != "";
      assert |e'.prefix| + |e'.suffix| > |left|;
      if left <= right {
        assert left + right[|left|..] + "" == right && left + "" + "" == left;
      }
    }
  }

  lemma RightReusedLoses(left: string, right: string, l: seq<Segment>, r: seq<Segment>, e: Ends)
    requires Accounted(left, right, l, r, e) && RightReused(l, r, e)
    requires forall i | 0 <= i < |l| :: l[i].value != ""
    ensures !Conserves(Assemble(left, right, l, r, AfterLoop(l, r, e)), left, right)
  {
    hide Range;
    var e' := AfterLoop(l, r, e);
    RangeEmpty(r, e.rs);
    assert RightRemainder(r, e) == "" && RightRemainder(r, e') == "";
    assert right == e.prefix + e.suffix by { assert e.prefix + "" == e.prefix; }
    if e.ls == e.le {
      RangeEmpty(l, e.ls);
      RangeFirst(l, e.ls, e.le + 1);
      RangeEmpty(l, e.ls + 1);
      assert |left| > |right|;
    } else {
      RangeFirst(l, e'.ls, e'.le + 1);
      assert LeftRemainder(l, e') != "";
      assert |e'.prefix| + |e'.suffix| > |right|;
    }
  }

  /** The split gives back both inputs exactly when no side is consumed twice, up to the one case
      the last correction repairs. */
  lemma LossIff(left: string, right: string)
    ensures Conserves(DiffSplitOf(left, right), left, right) <==> !LosesText(left, right)
  {
    hide Conserves, Accounted, Assemble, LeftReused, RightReused, AfterLoop;
    var l, r := SegmentsFrom(left, 0), SegmentsFrom(right, 0);
    Tiles(left, 0);
    Tiles(right, 0);
    NonEmpty(left, 0);
    NonEmpty(right, 0);
    if l == [] || r == [] {
      EmptySide(left, right);
    } else {
      var s := Start(l, r);
      StartAccounted(left, right, l, r);
      LoopKeeps(left, right, l, r, s);
      var e := Loop(l, r, s);
      if LeftReused(l, r, e) {
        assert !RightReused(l, r, e) by { ReusedOnce(l, r, e); }
        LeftReusedLoses(left, right, l, r, e);
      } else if RightReused(l, r, e) {
        RightReusedLoses(left, right, l, r, e);
      } else if e.leftDone && e.rightDone {
        BothDone(left, right, l, r, e);
      } else {
        AfterLoopKeeps(left, right, l, r, e);
        AccountedConserves(left, right, l, r, AfterLoop(l, r, e));
      }
    }
  }

  lemma ReusedOnce(l: seq<Segment>, r: seq<Segment>, e: Ends)
    requires InBounds(l, r, e) && LeftReused(l, r, e)
    ensures !RightReused(l, r, e)
  {
  }

  lemma EmptySide(left: string, right: string)
    requires SegmentsFrom(left, 0) == [] || SegmentsFrom(right, 0) == []
    ensures Conserves(DiffSplitOf(left, right), left, right)
  {
    hide SegmentsFrom, AfterLoop, Loop, Assemble;
    Tiles(left, 0);
    Tiles(right, 0);
    assert left[0..] == left && right[0..] == right;
    assert "" + left + "" == left && "" + right + "" == right;
  }

  lemma StartAccounted(left: string, right: string, l: seq<Segment>, r: seq<Segment>)
    requires l != [] && r != [] && Concat(l) == left && Concat(r) == right
    ensures Accounted(left, right, l, r, Start(l, r))
  {
    assert l[0..|l|] == l && r[0..|r|] == r;
    assert "" + left + "" == left && "" + right + "" == right;
  }

  // ---------------------------------------------------------------- the split is tight

  /** Trimming takes all that texts have in common: what is left shares no first and no last character. */
  lemma TrimTight(e: Ends, rl: string, rr: string, ts: bool, tp: bool)
    ensures var s := TrimRemainders(e, rl, rr, ts, tp);
            && (s.left != "" && s.right != "" && tp ==> s.left[0] != s.right[0])
            && (s.left != "" && s.right != "" && ts ==> s.left[|s.left| - 1] != s.right[|s.right| - 1])
            && (!tp ==> s.prefix == e.prefix) && (!ts ==> s.suffix == e.suffix)
            && (rl == rr && (ts || rl == "") ==> s.left == "" && s.right == "")
  {
    hide PrefixLen, SuffixLen;
    var s := if ts then SuffixLen(rl, rr) else 0;
    PrefixIsLongest(rl[..|rl| - s], rr[..|rr| - s]);
    SuffixStops(rl, rr);
    assert e.prefix + "" == e.prefix && "" + e.suffix == e.suffix;
  }

  /** The loop goes on for as long as the segments at either end agree. */
  lemma {:induction false} LoopTight(l: seq<Segment>, r: seq<Segment>, e: Ends)
    requires InBounds(l, r, e) && (Running(e) ==> !e.leftDone && !e.rightDone)
    ensures var e' := Loop(l, r, e); Running(e') ==> l[e'.ls] != r[e'.rs] && l[e'.le] != r[e'.re]
    decreases e.le - e.ls + (e.re - e.rs)
  {
    if Running(e) && (l[e.ls] == r[e.rs] || l[e.le] == r[e.re]) {
      LoopTight(l, r, EatBack(l, r, EatFront(l, r, e)));
    }
  }

  lemma AssembleTight(left: string, right: string, l: seq<Segment>, r: seq<Segment>, e: Ends)
    requires InBounds(l, r, e)
    ensures var s := Assemble(left, right, l, r, e);
            && (s.left != "" && s.right != "" && l[e.ls].kind == TEXT && r[e.rs].kind == TEXT ==> s.left[0] != s.right[0])
            && (s.left != "" && s.right != "" && l[e.le].kind == TEXT && r[e.re].kind == TEXT ==>
                  s.left[|s.left| - 1] != s.right[|s.right| - 1])
            && (LeftRemainder(l, e) == RightRemainder(r, e) && l[e.le].kind == TEXT && r[e.re].kind == TEXT ==>
                  s.left == "" && s.right == "")
  {
    hide TrimRemainders, LeftRemainder, RightRemainder;
    var ts, tp := l[e.le].kind == TEXT && r[e.re].kind == TEXT, r[e.rs].kind == TEXT && l[e.ls].kind == TEXT;
    TrimTight(e, LeftRemainder(l, e), RightRemainder(r, e), ts, tp);
  }

  /** The branches after the loop leave no two segments that agree, except one text on either side. */
  lemma AfterLoopTight(l: seq<Segment>, r: seq<Segment>, e0: Ends)
    requires InBounds(l, r, e0) && (Running(e0) ==> l[e0.ls] != r[e0.rs] && l[e0.le] != r[e0.re])
    ensures var e := AfterLoop(l, r, e0);
            !e.leftDone && !e.rightDone && (l[e.ls] == r[e.rs] || l[e.le] == r[e.re]) ==>
              l[e.le].kind == r[e.re].kind == TEXT && LeftRemainder(l, e) == RightRemainder(r, e)
  {
    hide Range;
    var e := AfterLoop(l, r, e0);
    RangeOne(l, e.ls);
    RangeOne(r, e.rs);
  }

  /** The middles of every split differ where they begin and where they end: whole segments that agree
      at an end have been moved, down to one equal text, which disappears; and texts share no first
      and no last character. */
  lemma MiddlesDiffer(left: string, right: string)
    requires left != "" && right != ""
    ensures var l, r := SegmentsFrom(left, 0), SegmentsFrom(right, 0);
            l != [] && r != [] &&
            var e := AfterLoop(l, r, Loop(l, r, Start(l, r)));
            var s := DiffSplitOf(left, right);
            && (!e.leftDone && !e.rightDone && (l[e.ls] == r[e.rs] || l[e.le] == r[e.re]) ==> s.left == "" && s.right == "")
            && (s.left != "" && s.right != "" && l[e.ls].kind == TEXT && r[e.rs].kind == TEXT ==> s.left[0] != s.right[0])
            && (s.left != "" && s.right != "" && l[e.le].kind == TEXT && r[e.re].kind == TEXT ==>
                  s.left[|s.left| - 1] != s.right[|s.right| - 1])
  {
    hide SegmentsFrom, Assemble, Loop, AfterLoop, LeftRemainder, RightRemainder;
    var l, r := SegmentsFrom(left, 0), SegmentsFrom(right, 0);
    Tiles(left, 0);
    Tiles(right, 0);
    LoopTight(l, r, Start(l, r));
    AfterLoopTight(l, r, Loop(l, r, Start(l, r)));
    AssembleTight(left, right, l, r, AfterLoop(l, r, Loop(l, r, Start(l, r))));
  }

  lemma RangeOne(segs: seq<Segment>, i: nat)
    requires i < |segs|
    ensures Range(segs, i, i + 1) == segs[i].value
  {
    RangeFirst(segs, i, i + 1);
    RangeEmpty(segs, i + 1);
    assert segs[i].value + "" == segs[i].value;
  }

  /** Where no difference is left, or only an addition at the end, the split is the plain one. */
  lemma PlainSplits(left: string, right: string)
    ensures var s := DiffSplitOf(left, right);
            && (s.left == "" && s.right == "" ==> s.prefix == left && s.suffix == "")
            && (s.left == "" && s.right != "" && left <= right ==> s == Split(left, "", "", right[|left|..]))
  {
    hide SegmentsFrom, TrimRemainders, Loop, AfterLoop;
    Tiles(left, 0);
    Tiles(right, 0);
    assert left[0..] == left && right[0..] == right;
  }

  /** Two equal texts have no difference. */
  lemma EqualTexts(text: string)
    ensures DiffSplitOf(text, text) == Split(text, "", "", "")
  {
    hide SegmentsFrom, TrimRemainders, Range;
    var l := SegmentsFrom(text, 0);
    Tiles(text, 0);
    assert text[0..] == text;
    if l != [] {
      SameCursors(l, Start(l, l));
      hide Loop;
      var e := AfterLoop(l, l, Loop(l, l, Start(l, l)));
      RangeEmpty(l, e.ls);
      var rl := LeftRemainder(l, e);
      TrimTight(e, rl, rl, l[e.le].kind == TEXT, l[e.ls].kind == TEXT);
      PlainSplits(text, text);
    }
  }

  lemma {:induction false} SameCursors(l: seq<Segment>, e: Ends)
    requires InBounds(l, l, e) && (Running(e) ==> !e.leftDone && !e.rightDone)
    requires e.ls == e.rs && e.le == e.re && e.leftDone == e.rightDone
    ensures var e' := Loop(l, l, e); e'.ls == e'.rs && e'.le == e'.re && e'.leftDone == e'.rightDone && e'.ls == e'.le
    decreases e.le - e.ls + (e.re - e.rs)
  {
    if Running(e) { SameCursors(l, EatBack(l, l, EatFront(l, l, e))); }
  }

  // ---------------------------------------------------------------- the repaired split

  /** The same split with the branches after the loop left out once a side is used up. */
  function GuardedSplitOf(left: string, right: string): Split {
    var l, r := SegmentsFrom(left, 0), SegmentsFrom(right, 0);
    if l == [] then Split("", "", "", right)
    else if r == [] then Split("", "", left, "")
    else
      var e := Loop(l, r, Start(l, r));
      Assemble(left, right, l, r, if e.leftDone || e.rightDone then e else AfterLoop(l, r, e))
  }

  /** With that guard nothing is ever lost, whatever the two texts are. */
  lemma GuardedNeverLoses(left: string, right: string)
    ensures Conserves(GuardedSplitOf(left, right), left, right)
  {
    hide Conserves, Accounted, Assemble, AfterLoop;
    var l, r := SegmentsFrom(left, 0), SegmentsFrom(right, 0);
    Tiles(left, 0);
    Tiles(right, 0);
    if l == [] || r == [] {
      EmptySide(left, right);
    } else {
      StartAccounted(left, right, l, r);
      LoopKeeps(left, right, l, r, Start(l, r));
      var e := Loop(l, r, Start(l, r));
      if e.leftDone || e.rightDone {
        AccountedConserves(left, right, l, r, e);
      } else {
        AfterLoopKeeps(left, right, l, r, e);
        AccountedConserves(left, right, l, r, AfterLoop(l, r, e));
      }
    }
  }

  // ---------------------------------------------------------------- a concrete loss

  lemma MarkerAt(text: string, i: nat)
    requires i + 3 <= |text| && text[i] == '<' && text[i + 1] != '>' && text[i + 2] == '>'
    ensures SegmentsFrom(text, i) == [Segment(MARKER, text[i..i + 3])] + SegmentsFrom(text, i + 3)
  {
    FoundCloser(text, i, i + 2);
  }

  lemma ExampleSegments(a: Segment, b: Segment)
    requires a == Segment(MARKER, "<a>") && b == Segment(MARKER, "<b>")
    ensures SegmentsFrom("<a><b>", 0) == [a, b] && SegmentsFrom("<a><b><b>", 0) == [a, b, b]
  {
    hide Head, SegmentsFrom;
    var left, right := "<a><b>", "<a><b><b>";
    MarkerAt(left, 0);
    MarkerAt(left, 3);
    NoSegments(left);
    MarkerAt(right, 0);
    MarkerAt(right, 3);
    MarkerAt(right, 6);
    NoSegments(right);
    assert left[0..3] == "<a>" && left[3..6] == "<b>";
    assert right[0..3] == "<a>" && right[3..6] == "<b>" && right[6..9] == "<b>";
  }

  /** Right has one marker more than left, and the split reports no difference at all. */
  lemma LossExample()
    ensures DiffSplitOf("<a><b>", "<a><b><b>") == Split("<a><b>", "", "", "")
    ensures LosesText("<a><b>", "<a><b><b>")
    ensures !Conserves(DiffSplitOf("<a><b>", "<a><b><b>"), "<a><b>", "<a><b><b>")
  {
    hide SegmentsFrom, Range;
    var a, b := Segment(MARKER, "<a>"), Segment(MARKER, "<b>");
    ExampleSegments(a, b);
    var l, r := [a, b], [a, b, b];
    var e := Ends(1, 1, 1, 1, true, false, "" + "<a>", "<b>" + "");
    assert EatBack(l, r, EatFront(l, r, Start(l, r))) == e;
    assert Loop(l, r, Start(l, r)) == e;
    var e' := AfterLoop(l, r, e);
    assert e'.leftDone && e'.rightDone;
    RangeEmpty(l, 1);
    RangeEmpty(r, 1);
    assert LeftRemainder(l, e') == "" && RightRemainder(r, e') == "";
  }
}
