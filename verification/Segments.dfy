/** Cutting a template output into markers (tags and bracketed parts) and the text between them. */
module Segments {

  datatype Kind = TEXT | MARKER

  datatype Segment = Segment(kind: Kind, value: string)

  predicate IsOpener(c: char) {
    c == '<' || c == '['
  }

  predicate IsCloser(opener: char, c: char) {
    (opener == '<' && c == '>') || (opener == '[' && c == ']')
  }

  /** The first position from i on that opens a marker, or the end of the text. */
  function FindOpener(text: string, i: nat): (k: nat)
    requires i <= |text|
    ensures i <= k <= |text| && (k < |text| ==> IsOpener(text[k]))
    ensures forall j | i <= j < k :: !IsOpener(text[j])
    decreases |text| - i
  {
    if i == |text| || IsOpener(text[i]) then i else FindOpener(text, i + 1)
  }

  /** The first position from i on that closes the marker, or the end of the text. */
  function FindCloser(text: string, opener: char, i: nat): (k: nat)
    requires i <= |text|
    ensures i <= k <= |text| && (k < |text| ==> IsCloser(opener, text[k]))
    ensures forall j | i <= j < k :: !IsCloser(opener, text[j])
    decreases |text| - i
  {
    if i == |text| || IsCloser(opener, text[i]) then i else FindCloser(text, opener, i + 1)
  }

  /** The segment that begins at position i: a closed marker, an unclosed one as text, or the text up
      to the next opener. */
  function Head(text: string, i: nat): (s: Segment)
    requires i < |text|
    ensures 0 < |s.value| <= |text| - i && s.value == text[i..i + |s.value|]
  {
    if IsOpener(text[i]) then
      var k := FindCloser(text, text[i], i);
      if k == |text| then Segment(TEXT, text[i..]) else Segment(MARKER, text[i..k + 1])
    else Segment(TEXT, text[i..FindOpener(text, i)])
  }

  /** The segments of the text from position i on. */
  function SegmentsFrom(text: string, i: nat): seq<Segment>
    requires i <= |text|
    decreases |text| - i
  {
    if i == |text| then [] else [Head(text, i)] + SegmentsFrom(text, i + |Head(text, i).value|)
  }

  function Concat(segs: seq<Segment>): string {
    if segs == [] then "" else segs[0].value + Concat(segs[1..])
  }

  lemma FoundOpener(text: string, i: nat, k: nat)
    requires i < k <= |text| && (k < |text| ==> IsOpener(text[k]))
    requires forall j | i <= j < k :: !IsOpener(text[j])
    ensures Head(text, i) == Segment(TEXT, text[i..k])
  {
  }

  lemma FoundCloser(text: string, i: nat, k: nat)
    requires i < k <= |text| && IsOpener(text[i]) && (k < |text| ==> IsCloser(text[i], text[k]))
    requires forall j | i <= j < k :: !IsCloser(text[i], text[j])
    ensures Head(text, i) == if k == |text| then Segment(TEXT, text[i..]) else Segment(MARKER, text[i..k + 1])
  {
  }

  lemma Pushed(segs: seq<Segment>, text: string, i: nat)
    requires i < |text|
    ensures segs + SegmentsFrom(text, i) == segs + [Head(text, i)] + SegmentsFrom(text, i + |Head(text, i).value|)
  {
    hide Head;
  }

  method SegmentizeMarkers(text: string) returns (segs: seq<Segment>)
    ensures segs == SegmentsFrom(text, 0)
  {
    hide Head, SegmentsFrom;
    segs := [];
    var inMarker := false;
    var opener := ' ';
    var lastBorder := 0;
    for pos := 0 to |text|
      invariant lastBorder <= pos
      invariant segs + SegmentsFrom(text, lastBorder) == SegmentsFrom(text, 0)
      invariant inMarker ==> lastBorder < pos && text[lastBorder] == opener && IsOpener(opener)
      invariant inMarker ==> forall j | lastBorder <= j < pos :: !IsCloser(opener, text[j])
      invariant !inMarker ==> forall j | lastBorder <= j < pos :: !IsOpener(text[j])
    {
      if !inMarker && IsOpener(text[pos]) {
        if lastBorder < pos {
          FoundOpener(text, lastBorder, pos);
          Pushed(segs, text, lastBorder);
          segs := segs + [Segment(TEXT, text[lastBorder..pos])];
        }
        lastBorder := pos;
        inMarker := true;
        opener := text[pos];
      } else if inMarker && IsCloser(opener, text[pos]) {
        FoundCloser(text, lastBorder, pos);
        Pushed(segs, text, lastBorder);
        segs := segs + [Segment(MARKER, text[lastBorder..pos + 1])];
        lastBorder := pos + 1;
        inMarker := false;
        opener := ' ';
      }
    }
    NoSegments(text);
    if lastBorder < |text| {
      if inMarker { FoundCloser(text, lastBorder, |text|); } else { FoundOpener(text, lastBorder, |text|); }
      assert text[lastBorder..] == text[lastBorder..|text|];
      Pushed(segs, text, lastBorder);
      segs := segs + [Segment(TEXT, text[lastBorder..])];
    }
    assert segs + [] == segs;
  }

  lemma NoSegments(text: string)
    ensures SegmentsFrom(text, |text|) == []
  {
  }

  /** The segments tile the text exactly. */
  lemma {:induction false} Tiles(text: string, i: nat)
    requires i <= |text|
    ensures Concat(SegmentsFrom(text, i)) == text[i..]
    decreases |text| - i
  {
    hide Head;
    if i < |text| {
      var h := Head(text, i);
      var k := i + |h.value|;
      Tiles(text, k);
      assert SegmentsFrom(text, i)[1..] == SegmentsFrom(text, k);
      assert h.value + text[k..] == text[i..];
    }
  }

  lemma {:induction false} NonEmpty(text: string, i: nat)
    requires i <= |text|
    ensures forall j | 0 <= j < |SegmentsFrom(text, i)| :: SegmentsFrom(text, i)[j].value != ""
    decreases |text| - i
  {
    hide Head;
    if i < |text| {
      var segs, k := SegmentsFrom(text, i), i + |Head(text, i).value|;
      NonEmpty(text, k);
      forall j | 0 <= j < |segs|
        ensures segs[j].value != ""
      {
        if j > 0 { assert segs[j] == SegmentsFrom(text, k)[j - 1]; }
      }
    }
  }

  /** A marker opens with an opener, closes with the matching closer, and has no such closer inside;
      a text has no opener, except that the last one may be a marker that is never closed. */
  predicate WellCut(s: Segment, isLast: bool) {
    var v := s.value;
    v != "" &&
    var closer := if v[0] == '<' then '>' else ']';
    if s.kind == MARKER then
      (v[0] == '<' || v[0] == '[') && v[|v| - 1] == closer && forall j | 0 <= j < |v| - 1 :: v[j] != closer
    else if v[0] == '<' || v[0] == '[' then isLast && forall j | 0 <= j < |v| :: v[j] != closer
    else forall j | 0 <= j < |v| :: v[j] != '<' && v[j] != '['
  }

  lemma HeadIsWellCut(text: string, i: nat)
    requires i < |text|
    ensures WellCut(Head(text, i), i + |Head(text, i).value| == |text|)
  {
    var v := Head(text, i).value;
    assert forall j | 0 <= j < |v| :: v[j] == text[i + j];
  }

  predicate CutOk(segs: seq<Segment>, j: nat)
    requires j < |segs|
  {
    WellCut(segs[j], j == |segs| - 1)
  }

  /** Every segment is cut at its own borders. */
  lemma {:induction false} CutsAreRight(text: string, i: nat)
    requires i <= |text|
    ensures forall j | 0 <= j < |SegmentsFrom(text, i)| :: CutOk(SegmentsFrom(text, i), j)
    decreases |text| - i
  {
    hide Head, WellCut;
    if i < |text| {
      var segs, k := SegmentsFrom(text, i), i + |Head(text, i).value|;
      var rest := SegmentsFrom(text, k);
      assert segs == [Head(text, i)] + rest;
      HeadIsWellCut(text, i);
      CutsAreRight(text, k);
      forall j | 0 <= j < |segs|
        ensures CutOk(segs, j)
      {
        if j > 0 { assert CutOk(rest, j - 1); }
      }
    }
  }

  // ---------------------------------------------------------------- ranges of segments

  lemma {:induction false} ConcatAppend(a: seq<Segment>, b: seq<Segment>)
    ensures Concat(a + b) == Concat(a) + Concat(b)
  {
    if a == [] {
      assert a + b == b;
    } else {
      assert (a + b)[1..] == a[1..] + b && (a + b)[0] == a[0];
      ConcatAppend(a[1..], b);
      assert a[0].value + (Concat(a[1..]) + Concat(b)) == a[0].value + Concat(a[1..]) + Concat(b);
    }
  }

  /** The text of the segments from index i up to (excluding) index j. */
  function Range(segs: seq<Segment>, i: nat, j: nat): string
    requires i <= j <= |segs|
  {
    Concat(segs[i..j])
  }

  lemma RangeFirst(segs: seq<Segment>, i: nat, j: nat)
    requires i < j <= |segs|
    ensures Range(segs, i, j) == segs[i].value + Range(segs, i + 1, j)
  {
    assert segs[i..j][1..] == segs[i + 1..j];
  }

  lemma RangeLast(segs: seq<Segment>, i: nat, j: nat)
    requires i < j <= |segs|
    ensures Range(segs, i, j) == Range(segs, i, j - 1) + segs[j - 1].value
  {
    var one := [segs[j - 1]];
    assert segs[i..j] == segs[i..j - 1] + one;
    ConcatAppend(segs[i..j - 1], one);
    assert one[1..] == [] && Concat(one) == segs[j - 1].value + "";
    assert segs[j - 1].value + "" == segs[j - 1].value;
  }
}
