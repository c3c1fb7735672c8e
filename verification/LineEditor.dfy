/** The console line editor: a byte line, a width list and two cursors that together stand for a
    sequence of code points with one cursor. */
module LineEditor {
  import opened Utf8
  import opened Wrappers

  // ---------------------------------------------------------------- the plain editor

  /** What the user edits: code points, one cursor, and the history of earlier lines. */
  datatype Editor = Editor(text: Text, pos: nat, entries: seq<Text>, viewing: Option<nat>, backup: Text)

  type Spaces = int -> bool

  datatype Key =
    | Insert(ch: nat) | Backspace | Delete | Left | Right | WordLeft | WordRight | Home | End
    | HistoryUp | HistoryDown | Complete(line: Text, cursor: int)

  function BackWhile(t: Text, p: nat, space: Spaces, want: bool): (q: nat)
    requires p <= |t|
    ensures q <= p && (q > 0 ==> space(t[q - 1]) != want)
    ensures forall i | q <= i < p :: space(t[i]) == want
  {
    if p > 0 && space(t[p - 1]) == want then BackWhile(t, p - 1, space, want) else p
  }

  function ForwardWhile(t: Text, p: nat, space: Spaces, want: bool): (q: nat)
    requires p <= |t|
    ensures p <= q <= |t| && (q < |t| ==> space(t[q]) != want)
    ensures forall i | p <= i < q :: space(t[i]) == want
    decreases |t| - p
  {
    if p < |t| && space(t[p]) == want then ForwardWhile(t, p + 1, space, want) else p
  }

  /** Back over white space, then over one word. */
  function WordStart(t: Text, p: nat, space: Spaces): (q: nat)
    requires p <= |t|
    ensures q <= p
  {
    BackWhile(t, BackWhile(t, p, space, true), space, false)
  }

  /** Forward over white space, one word, and the white space after it. */
  function NextWord(t: Text, p: nat, space: Spaces): (q: nat)
    requires p <= |t|
    ensures p <= q <= |t|
  {
    ForwardWhile(t, ForwardWhile(t, ForwardWhile(t, p, space, true), space, false), space, true)
  }

  /** The code point whose encoding is the last to end at or before the byte cursor; the end of the
      line for a negative one. */
  function CursorIndex(t: Text, cursor: int, k: nat): (r: nat)
    requires k <= |t|
    ensures k <= r <= |t|
    decreases |t| - k
  {
    if k == |t| || (cursor >= 0 && cursor < Offset(t, k + 1)) then k else CursorIndex(t, cursor, k + 1)
  }

  function Begin(e: Editor): Editor {
    if e.viewing.None? then e.(viewing := Some(|e.entries|), backup := e.text) else e
  }

  function Up(e0: Editor): Editor {
    var e := Begin(e0);
    if e.entries == [] then e
    else
      var i := if e.viewing.value > 0 then e.viewing.value - 1 else 0;
      if i < |e.entries| then e.(viewing := Some(i), text := e.entries[i], pos := |e.entries[i]|) else e
  }

  function Down(e: Editor): Editor {
    if e.viewing.None? || e.entries == [] then e
    else if e.viewing.value + 1 >= |e.entries| then
      e.(text := e.backup, pos := |e.backup|, viewing := None, backup := [])
    else
      var t := e.entries[e.viewing.value + 1];
      e.(text := t, pos := |t|, viewing := Some(e.viewing.value + 1))
  }

  predicate Sound(e: Editor) {
    e.pos <= |e.text| && (e.viewing.Some? && e.entries != [] ==> e.viewing.value < |e.entries|)
  }

  /** One key on the plain editor. */
  function Press(e: Editor, key: Key, space: Spaces): (e': Editor)
    requires Sound(e) && (key.Insert? ==> key.ch <= MAX_CODE_POINT)
    ensures Sound(e')
  {
    var t, p := e.text, e.pos;
    match key
    case Insert(ch) => e.(text := t[..p] + [ch] + t[p..], pos := p + 1)
    case Backspace => if p > 0 then e.(text := t[..p - 1] + t[p..], pos := p - 1) else e
    case Delete => if p < |t| then e.(text := t[..p] + t[p + 1..]) else e
    case Left => if p > 0 then e.(pos := p - 1) else e
    case Right => if p < |t| then e.(pos := p + 1) else e
    case WordLeft => e.(pos := WordStart(t, p, space))
    case WordRight => e.(pos := NextWord(t, p, space))
    case Home => e.(pos := 0)
    case End => e.(pos := |t|)
    case HistoryUp => Up(e)
    case HistoryDown => Down(e)
    case Complete(line, cursor) => e.(text := line, pos := CursorIndex(line, cursor, 0))
  }

  predicate CodePointsOnly(keys: seq<Key>) {
    forall i | 0 <= i < |keys| :: keys[i].Insert? ==> keys[i].ch <= MAX_CODE_POINT
  }

  function PressAll(e: Editor, keys: seq<Key>, space: Spaces): (e': Editor)
    requires Sound(e) && CodePointsOnly(keys)
    ensures Sound(e')
    decreases |keys|
  {
    if keys == [] then e else PressAll(Press(e, keys[0], space), keys[1..], space)
  }

  function Times(e: Editor, key: Key, n: nat, space: Spaces): (e': Editor)
    requires Sound(e) && !key.Insert?
    ensures Sound(e')
  {
    if n == 0 then e else Press(Times(e, key, n - 1, space), key, space)
  }

  lemma {:induction false} UpTo(e: Editor, k: nat, space: Spaces)
    requires Sound(e) && e.viewing == None && 1 <= k <= |e.entries|
    ensures var i := |e.entries| - k;
            Times(e, HistoryUp, k, space) ==
            Editor(e.entries[i], |e.entries[i]|, e.entries, Some(i), e.text)
  {
    if k > 1 { UpTo(e, k - 1, space); } else { assert Times(e, HistoryUp, 0, space) == e; }
  }

  lemma {:induction false} DownFrom(e: Editor, i: nat, k: nat, space: Spaces)
    requires Sound(e) && e.viewing == Some(i) && k < |e.entries| - i
    ensures var t := e.entries[i + k];
            Times(e, HistoryDown, k, space) == if k == 0 then e else Editor(t, |t|, e.entries, Some(i + k), e.backup)
  {
    if k > 0 { DownFrom(e, i, k - 1, space); }
  }

  /** Going up any number of entries that exist and down as often restores the edited line, with the
      cursor at its end. */
  lemma HistoryRoundTrip(e: Editor, k: nat, space: Spaces)
    requires Sound(e) && e.viewing == None && 1 <= k <= |e.entries|
    ensures Times(Times(e, HistoryUp, k, space), HistoryDown, k, space) ==
            Editor(e.text, |e.text|, e.entries, None, [])
  {
    UpTo(e, k, space);
    var up := Times(e, HistoryUp, k, space);
    DownFrom(up, |e.entries| - k, k - 1, space);
  }

  // ---------------------------------------------------------------- what the keys mean

  /** An inserted code point stands at the cursor, everything else keeps its place and order, and both
      ways of taking it out again lead back. */
  lemma InsertedIsUndone(e: Editor, ch: nat, space: Spaces)
    requires Sound(e) && ch <= MAX_CODE_POINT
    ensures var e' := Press(e, Insert(ch), space);
            && |e'.text| == |e.text| + 1 && e'.text[e.pos] == ch && e'.pos == e.pos + 1
            && (forall i | 0 <= i < e.pos :: e'.text[i] == e.text[i])
            && (forall i | e.pos <= i < |e.text| :: e'.text[i + 1] == e.text[i])
            && Press(e', Backspace, space) == e
            && Press(Press(e', Left, space), Delete, space) == e
  {
    var e' := Press(e, Insert(ch), space);
    assert e'.text[..e.pos] == e.text[..e.pos] && e'.text[e.pos + 1..] == e.text[e.pos..];
    assert e.text[..e.pos] + e.text[e.pos..] == e.text;
  }

  /** A code point that is taken out can be put back; at the ends of the line the keys do nothing. */
  lemma RemovedIsPutBack(e: Editor, space: Spaces)
    requires Sound(e)
    ensures e.pos > 0 ==> Press(Press(e, Backspace, space), Insert(e.text[e.pos - 1]), space) == e
    ensures e.pos < |e.text| ==>
              Press(Press(Press(e, Delete, space), Insert(e.text[e.pos]), space), Left, space) == e
    ensures e.pos == 0 ==> Press(e, Backspace, space) == e && Press(e, Left, space) == e
    ensures e.pos == |e.text| ==> Press(e, Delete, space) == e && Press(e, Right, space) == e
  {
    if e.pos > 0 { PutBack(e.text, e.pos - 1); }
    if e.pos < |e.text| { PutBack(e.text, e.pos); }
  }

  lemma PutBack(t: Text, k: nat)
    requires k < |t|
    ensures var u := t[..k] + t[k + 1..]; u[..k] == t[..k] && u[k..] == t[k + 1..] && t[..k] + [t[k]] + t[k + 1..] == t
  {
  }

  /** The keys that only move the cursor keep everything else; steps are undone by the step back. */
  lemma CursorKeys(e: Editor, space: Spaces)
    requires Sound(e)
    ensures forall key | key in {Left, Right, WordLeft, WordRight, Home, End} ::
              Press(e, key, space) == e.(pos := Press(e, key, space).pos)
    ensures e.pos > 0 ==> Press(e, Left, space).pos < e.pos && Press(Press(e, Left, space), Right, space) == e
    ensures e.pos < |e.text| ==> Press(e, Right, space).pos > e.pos && Press(Press(e, Right, space), Left, space) == e
    ensures Press(e, Home, space).pos == 0 && Press(e, End, space).pos == |e.text|
  {
  }

  /** The code points from one place to another are all white space, or none of them is. */
  predicate Run(t: Text, from: nat, end: nat, space: Spaces, want: bool) {
    from <= end <= |t| && forall i | from <= i < end :: space(t[i]) == want
  }

  /** A word to the left: white space, then a word that starts at the line's or at white space's end. A word
      to the right: white space, a word, and the white space behind it. */
  lemma WordKeys(e: Editor, space: Spaces)
    requires Sound(e)
    ensures var q := Press(e, WordLeft, space).pos;
            && (q > 0 ==> space(e.text[q - 1]))
            && exists m: nat :: Run(e.text, q, m, space, false) && Run(e.text, m, e.pos, space, true) && (m == q ==> q == 0)
    ensures var q := Press(e, WordRight, space).pos;
            && (q < |e.text| ==> !space(e.text[q]))
            && exists a: nat, b: nat :: Run(e.text, e.pos, a, space, true) && Run(e.text, a, b, space, false) &&
                                        Run(e.text, b, q, space, true) && (a == b ==> a == |e.text|)
  {
    var t, p := e.text, e.pos;
    var m := BackWhile(t, p, space, true);
    assert Run(t, WordStart(t, p, space), m, space, false) && Run(t, m, p, space, true);
    var a := ForwardWhile(t, p, space, true);
    var b := ForwardWhile(t, a, space, false);
    assert Run(t, p, a, space, true) && Run(t, a, b, space, false) && Run(t, b, NextWord(t, p, space), space, true);
  }

  /** A completion brings its line, with the cursor at the last code point that begins at or before the byte
      cursor, and at the end for a negative one. */
  lemma CompletedCursor(e: Editor, line: Text, cursor: int, space: Spaces)
    requires Sound(e)
    ensures var e' := Press(e, Complete(line, cursor), space);
            && e' == e.(text := line, pos := e'.pos)
            && (cursor < 0 ==> e'.pos == |line|)
            && (cursor >= 0 ==> Offset(line, e'.pos) <= cursor && (e'.pos < |line| ==> cursor < Offset(line, e'.pos + 1)))
  {
    OffsetEnds(line);
    CursorBetween(line, cursor, 0);
    if cursor < 0 { CursorAtEnd(line, cursor, 0); }
  }

  lemma {:induction false} CursorBetween(t: Text, cursor: int, k: nat)
    requires k <= |t| && (cursor >= 0 ==> Offset(t, k) <= cursor)
    ensures var r := CursorIndex(t, cursor, k);
            cursor >= 0 ==> Offset(t, r) <= cursor && (r < |t| ==> cursor < Offset(t, r + 1))
    decreases |t| - k
  {
    hide Offset;
    if k < |t| && !(cursor >= 0 && cursor < Offset(t, k + 1)) { CursorBetween(t, cursor, k + 1); }
  }

  /** At the oldest entry going up stays there; without history, or without having gone up, nothing is shown. */
  lemma HistoryEnds(e: Editor, space: Spaces)
    requires Sound(e)
    ensures e.viewing == Some(0) && e.entries != [] ==>
              Press(e, HistoryUp, space) == e.(text := e.entries[0], pos := |e.entries[0]|)
    ensures e.entries == [] ==> Press(e, HistoryUp, space).text == e.text && Press(e, HistoryUp, space).pos == e.pos
    ensures e.entries == [] || e.viewing.None? ==> Press(e, HistoryDown, space) == e
  {
  }

  // ---------------------------------------------------------------- history

  class History {
    var entries: seq<seq<Byte>>
    var viewingIdx: Option<nat>
    var backupLine: seq<Byte>
    ghost var texts: seq<Text>
    ghost var backupText: Text

    ghost predicate Valid()
      reads this
    {
      && |texts| == |entries|
      && (forall i | 0 <= i < |entries| :: entries[i] == EncodeAll(texts[i]))
      && backupLine == EncodeAll(backupText)
      && (viewingIdx.Some? && entries != [] ==> viewingIdx.value <= |entries|)
    }

    constructor ()
      ensures Valid() && texts == [] && viewingIdx == None && backupText == []
    {
      entries, viewingIdx, backupLine := [], None, [];
      texts, backupText := [], [];
    }

    /** Remembers a line that is not empty and not the last entry again. An empty line changes nothing,
        any other one ends viewing. */
    method Add(line: seq<Byte>, ghost text: Text)
      requires Valid() && line == EncodeAll(text)
      modifies this
      ensures Valid()
      ensures var kept := line == [] || (old(entries) != [] && old(entries)[|old(entries)| - 1] == line);
              && entries == (if kept then old(entries) else old(entries) + [line])
              && texts == (if kept then old(texts) else old(texts) + [text])
      ensures if line == [] then viewingIdx == old(viewingIdx) && backupText == old(backupText)
              else viewingIdx == None && backupText == []
    {
      if line == [] {
        return;
      }
      if entries == [] || entries[|entries| - 1] != line {
        entries := entries + [line];
        texts := texts + [text];
      }
      EndViewing();
    }

    method Prev() returns (ok: bool, line: seq<Byte>, ghost text: Text)
      requires Valid()
      modifies this`viewingIdx
      ensures Valid()
      ensures ok == (entries != [] && old(viewingIdx).Some?)
      ensures !ok ==> viewingIdx == old(viewingIdx)
      ensures ok ==> viewingIdx.Some? && viewingIdx.value == (if old(viewingIdx).value > 0 then old(viewingIdx).value - 1 else 0)
      ensures ok ==> viewingIdx.value < |entries| && text == texts[viewingIdx.value] && line == EncodeAll(text)
    {
      ok, line, text := false, [], [];
      if entries == [] || viewingIdx.None? {
        return;
      }
      if viewingIdx.value > 0 {
        viewingIdx := Some(viewingIdx.value - 1);
      }
      ok, line, text := true, entries[viewingIdx.value], texts[viewingIdx.value];
    }

    method Next() returns (ok: bool, line: seq<Byte>, ghost text: Text)
      requires Valid()
      modifies this
      ensures Valid() && texts == old(texts) && entries == old(entries)
      ensures ok == (entries != [] && old(viewingIdx).Some?)
      ensures !ok ==> viewingIdx == old(viewingIdx) && backupText == old(backupText)
      ensures ok ==> line == EncodeAll(text)
      ensures ok ==>
        if old(viewingIdx).value + 1 >= |entries| then
          text == old(backupText) && viewingIdx == None && backupText == []
        else
          text == texts[old(viewingIdx).value + 1] && viewingIdx == Some(old(viewingIdx).value + 1) &&
          backupText == old(backupText)
    {
      ok, line, text := false, [], [];
      if entries == [] || viewingIdx.None? {
        return;
      }
      var i := viewingIdx.value + 1;
      if i >= |entries| {
        line, text := backupLine, backupText;
        EndViewing();
      } else {
        viewingIdx := Some(i);
        line, text := entries[i], texts[i];
      }
      ok := true;
    }

    method BeginViewing(line: seq<Byte>, ghost text: Text)
      requires Valid() && line == EncodeAll(text)
      modifies this`viewingIdx, this`backupLine, this`backupText
      ensures Valid() && viewingIdx == Some(|entries|) && backupText == text
    {
      backupLine, backupText := line, text;
      viewingIdx := Some(|entries|);
    }

    method EndViewing()
      requires |texts| == |entries| && forall i | 0 <= i < |entries| :: entries[i] == EncodeAll(texts[i])
      modifies this`viewingIdx, this`backupLine, this`backupText
      ensures Valid() && viewingIdx == None && backupText == []
    {
      viewingIdx := None;
      backupLine, backupText := [], [];
    }
  }

  // ---------------------------------------------------------------- the editor

  class LineEditor {
    var line: seq<Byte>
    var widths: seq<nat>
    var charPos: nat
    var bytePos: nat
    const history: History
    const space: Spaces
    const measure: int -> int
    ghost var text: Text

    /** The width the terminal reports for a code point, never below zero. */
    function Width(ch: nat): nat {
      if measure(ch) < 0 then 0 else measure(ch)
    }

    /** Between two keys, an entry being viewed is one that exists. */
    ghost predicate HistoryReady()
      reads history
    {
      history.Valid() &&
      (history.viewingIdx.Some? && history.entries != [] ==> history.viewingIdx.value < |history.entries|)
    }

    /** The line is the encoding of the text, there is one width per code point, and the byte cursor is
        the offset of the character cursor. */
    ghost predicate Valid()
      reads this, history
    {
      && HistoryReady()
      && line == EncodeAll(text)
      && |widths| == |text| && (forall i | 0 <= i < |text| :: widths[i] == Width(text[i]))
      && charPos <= |text|
      && bytePos == Offset(text, charPos)
    }

    ghost function Abstract(): Editor
      reads this, history
    {
      Editor(text, charPos, history.texts, history.viewingIdx, history.backupText)
    }

    constructor (space: Spaces, measure: int -> int)
      ensures Valid() && fresh(history) && this.space == space
      ensures Abstract() == Editor([], 0, [], None, [])
    {
      line, widths, charPos, bytePos, text := [], [], 0, 0, [];
      this.space, this.measure := space, measure;
      history := new History();
    }

    /** Inserts at the cursor. A number that is no code point adds a width but no bytes, so that no
        text is left that the line and the widths could both stand for. */
    method InsertCharacter(ch: nat)
      requires Valid()
      modifies this
      ensures ch <= MAX_CODE_POINT ==> Valid() && Abstract() == Press(old(Abstract()), Insert(ch), space)
      ensures ch > MAX_CODE_POINT ==> Starts(line) != |widths|
    {
      hide EncodeAll, Encode, Offset, Starts, HistoryReady;
      var new_, w := Encode(ch), Width(ch);
      ghost var k := charPos;
      OffsetEnds(text);
      CutAt(text, k);
      assert k == |text| ==> line[..bytePos] == line && line[bytePos..] == [];
      if ch <= MAX_CODE_POINT {
        InsertedBytes(text, k, ch);
      } else {
        StartsOfText(text);
        assert new_ == [] by { NoEncoding(ch); }
        assert line + [] == line && line[..bytePos] + [] + line[bytePos..] == line;
      }
      if charPos == |widths| {
        line := line + new_;
        widths := widths + [w];
        bytePos := bytePos + |new_|;
        charPos := charPos + 1;
      } else {
        line := line[..bytePos] + new_ + line[bytePos..];
        widths := widths[..charPos] + [w] + widths[charPos..];
        bytePos := bytePos + |new_|;
        charPos := charPos + 1;
      }
      if ch <= MAX_CODE_POINT {
        text := text[..k] + [ch] + text[k..];
      }
    }

    method BackspaceKey()
      requires Valid()
      modifies this
      ensures Valid() && Abstract() == Press(old(Abstract()), Backspace, space)
    {
      hide EncodeAll, Offset, PrevPos, NextPos;
      if charPos > 0 {
        ghost var k := charPos - 1;
        StepsAreCodePoints(text, k);
        RemovedBytes(text, k);
        charPos := charPos - 1;
        var prevPos := PrevUtf8CharPos(line, bytePos);
        var charLen := bytePos - prevPos;
        bytePos := prevPos;
        line := line[..bytePos] + line[bytePos + charLen..];
        widths := widths[..charPos] + widths[charPos + 1..];
        text := text[..k] + text[k + 1..];
        SamePrefix(old(text), text, k);
      }
    }

    method DeleteAtCursor()
      requires Valid()
      modifies this
      ensures Valid() && Abstract() == Press(old(Abstract()), Delete, space)
    {
      hide EncodeAll, Offset, PrevPos, NextPos, HistoryReady;
      if charPos >= |widths| {
        return;
      }
      StepsAreCodePoints(text, charPos);
      RemovedBytes(text, charPos);
      var nextPos := NextUtf8CharPos(line, bytePos);
      var charLen := nextPos - bytePos;
      line := line[..bytePos] + line[bytePos + charLen..];
      widths := widths[..charPos] + widths[charPos + 1..];
      text := text[..charPos] + text[charPos + 1..];
      SamePrefix(old(text), text, charPos);
    }

    method MoveLeft()
      requires Valid()
      modifies this`charPos, this`bytePos
      ensures Valid() && Abstract() == Press(old(Abstract()), Left, space)
    {
      hide EncodeAll, Offset, PrevPos, NextPos;
      if charPos > 0 {
        StepsAreCodePoints(text, charPos - 1);
        charPos := charPos - 1;
        bytePos := PrevUtf8CharPos(line, bytePos);
      }
    }

    method MoveRight()
      requires Valid()
      modifies this`charPos, this`bytePos
      ensures Valid() && Abstract() == Press(old(Abstract()), Right, space)
    {
      hide EncodeAll, Offset, PrevPos, NextPos;
      if charPos < |widths| {
        StepsAreCodePoints(text, charPos);
        charPos := charPos + 1;
        bytePos := NextUtf8CharPos(line, bytePos);
      }
    }

    method MoveToLineStart()
      requires Valid()
      modifies this`charPos, this`bytePos
      ensures Valid() && Abstract() == Press(old(Abstract()), Home, space)
    {
      OffsetEnds(text);
      charPos := 0;
      bytePos := 0;
    }

    method MoveToLineEnd()
      requires Valid()
      modifies this`charPos, this`bytePos
      ensures Valid() && Abstract() == Press(old(Abstract()), End, space)
    {
      OffsetEnds(text);
      charPos := |widths|;
      bytePos := |line|;
    }

    /** Moves a pair of positions back while the code point before them is (or is not) white space. */
    method ScanBack(c: nat, b: nat, want: bool) returns (c': nat, b': nat)
      requires Valid() && c <= |text| && b == Offset(text, c)
      ensures c' == BackWhile(text, c, space, want) && b' == Offset(text, c')
    {
      hide EncodeAll, Offset, DecodeAt, PrevPos, HistoryReady;
      c', b' := c, b;
      while c' > 0
        invariant c' <= |text| && b' == Offset(text, c')
        invariant BackWhile(text, c', space, want) == BackWhile(text, c, space, want)
      {
        CharacterBefore(text, c');
        var prevByte := PrevUtf8CharPos(line, b');
        if space(DecodeAt(line, prevByte).ch) != want {
          break;
        }
        c', b' := c' - 1, prevByte;
      }
    }

    method ScanForward(c: nat, b: nat, want: bool) returns (c': nat, b': nat)
      requires Valid() && c <= |text| && b == Offset(text, c)
      ensures c' == ForwardWhile(text, c, space, want) && b' == Offset(text, c')
    {
      hide EncodeAll, Offset, DecodeAt;
      c', b' := c, b;
      while c' < |widths|
        invariant c' <= |text| && b' == Offset(text, c')
        invariant ForwardWhile(text, c', space, want) == ForwardWhile(text, c, space, want)
      {
        DecodeAtOffset(text, c');
        var d := DecodeAt(line, b');
        if space(d.ch) != want {
          break;
        }
        c', b' := c' + 1, b' + d.advance;
      }
    }

    method MoveWordLeft()
      requires Valid()
      modifies this`charPos, this`bytePos
      ensures Valid() && Abstract() == Press(old(Abstract()), WordLeft, space)
    {
      hide EncodeAll, Offset, BackWhile;
      if charPos == 0 {
        assert WordStart(text, 0, space) == 0;
        return;
      }
      var c, b := ScanBack(charPos, bytePos, true);
      c, b := ScanBack(c, b, false);
      charPos, bytePos := c, b;
    }

    method MoveWordRight()
      requires Valid()
      modifies this`charPos, this`bytePos
      ensures Valid() && Abstract() == Press(old(Abstract()), WordRight, space)
    {
      hide EncodeAll, Offset, ForwardWhile;
      if charPos >= |widths| {
        return;
      }
      var c, b := ScanForward(charPos, bytePos, true);
      c, b := ScanForward(c, b, false);
      c, b := ScanForward(c, b, true);
      charPos, bytePos := c, b;
    }

    /** Replaces the line, measuring every code point again, and puts the cursor at the end or at the
        given byte position. */
    method SetLineContents(newLine: seq<Byte>, cursorBytePos: int, ghost newText: Text)
      requires HistoryReady() && newLine == EncodeAll(newText)
      modifies this
      ensures Valid() && text == newText && charPos == CursorIndex(newText, cursorBytePos, 0)
    {
      hide EncodeAll, Offset, DecodeAt, HistoryReady;
      line := newLine;
      text := newText;
      widths := [];
      bytePos := 0;
      charPos := 0;
      var idx := 0;
      OffsetEnds(text);
      while idx < |line|
        invariant HistoryReady()
        invariant line == EncodeAll(text) && text == newText
        invariant |widths| <= |text| && idx == Offset(text, |widths|)
        invariant forall i | 0 <= i < |widths| :: widths[i] == Width(text[i])
        invariant charPos <= |widths| && bytePos == Offset(text, charPos)
        invariant charPos < |widths| ==> cursorBytePos >= 0 && cursorBytePos < Offset(text, charPos + 1)
        invariant CursorIndex(text, cursorBytePos, charPos) == CursorIndex(text, cursorBytePos, 0)
        decreases |line| - idx
      {
        ReadingOn(text, |widths|, charPos);
        var d := DecodeAt(line, idx);
        widths := widths + [Width(d.ch)];
        idx := idx + d.advance;
        if cursorBytePos >= 0 && cursorBytePos < idx {
        } else {
          charPos := charPos + 1;
          bytePos := idx;
        }
      }
      if |widths| < |text| { OffsetMonotone(text, |widths|, |text|); }
    }

    method HistoryPrev()
      requires Valid()
      modifies this, history
      ensures Valid() && Abstract() == Press(old(Abstract()), HistoryUp, space)
    {
      hide EncodeAll, Offset;
      if history.viewingIdx.None? {
        history.BeginViewing(line, text);
      }
      var ok, newLine, newText := history.Prev();
      if !ok {
        return;
      }
      SetLineContents(newLine, -1, newText);
      CursorAtEnd(newText, -1, 0);
    }

    method HistoryNext()
      requires Valid()
      modifies this, history
      ensures Valid() && Abstract() == Press(old(Abstract()), HistoryDown, space)
    {
      if history.viewingIdx.Some? {
        var ok, newLine, newText := history.Next();
        if !ok {
          return;
        }
        SetLineContents(newLine, -1, newText);
        CursorAtEnd(newText, -1, 0);
      }
    }

    method Dispatch(key: Key)
      requires Valid() && (key.Insert? ==> key.ch <= MAX_CODE_POINT)
      modifies this, history
      ensures Valid() && Abstract() == Press(old(Abstract()), key, space)
    {
      match key {
        case Insert(ch) => InsertCharacter(ch);
        case Backspace => BackspaceKey();
        case Delete => DeleteAtCursor();
        case Left => MoveLeft();
        case Right => MoveRight();
        case WordLeft => MoveWordLeft();
        case WordRight => MoveWordRight();
        case Home => MoveToLineStart();
        case End => MoveToLineEnd();
        case HistoryUp => HistoryPrev();
        case HistoryDown => HistoryNext();
        case Complete(newText, cursor) => SetLineContents(EncodeAll(newText), cursor, newText);
      }
    }

    /** The editing loop: starting from an empty line, whatever keys are pressed, the editor stands for
        the plain editor after the same keys. */
    method ReadLine(keys: seq<Key>)
      requires HistoryReady() && CodePointsOnly(keys)
      modifies this, history
      ensures Valid()
      ensures Sound(Editor([], 0, old(history.texts), old(history.viewingIdx), old(history.backupText)))
      ensures Abstract() ==
        PressAll(Editor([], 0, old(history.texts), old(history.viewingIdx), old(history.backupText)), keys, space)
    {
      line, widths, text := [], [], [];
      bytePos, charPos := 0, 0;
      OffsetEnds(text);
      ghost var start := Abstract();
      for i := 0 to |keys|
        invariant Valid() && Sound(start)
        invariant Sound(Abstract()) && PressAll(Abstract(), keys[i..], space) == PressAll(start, keys, space)
      {
        OffsetMonotone(text, 0, charPos);
        assert charPos <= bytePos && charPos <= |widths|;
        assert keys[i..][1..] == keys[i + 1..];
        Dispatch(keys[i]);
      }
    }
  }

  // ---------------------------------------------------------------- bytes of an edited text

  lemma SamePrefix(a: Text, b: Text, k: nat)
    requires k <= |a| && k <= |b| && a[..k] == b[..k]
    ensures Offset(a, k) == Offset(b, k)
  {
  }

  /** Reading the k-th code point of a line whose cursor stopped at the c-th. */
  lemma ReadingOn(t: Text, k: nat, c: nat)
    requires c <= k < |t|
    ensures Offset(t, k) < Offset(t, k + 1) <= Offset(t, |t|) && Offset(t, c + 1) <= Offset(t, k + 1)
    ensures Offset(t, k) < |EncodeAll(t)|
    ensures DecodeAt(EncodeAll(t), Offset(t, k)) == Decoded(t[k], Offset(t, k + 1) - Offset(t, k))
  {
    hide Offset, EncodeAll, DecodeAt;
    DecodeAtOffset(t, k);
    OffsetMonotone(t, c + 1, k + 1);
    OffsetMonotone(t, k + 1, |t|);
  }

  lemma NoEncoding(ch: nat)
    requires ch > MAX_CODE_POINT
    ensures Encode(ch) == []
  {
  }

  /** Cutting the bytes at the offset of a code point. */
  lemma CutAt(t: Text, k: nat)
    requires k <= |t|
    ensures Offset(t, k) <= |EncodeAll(t)|
    ensures EncodeAll(t)[..Offset(t, k)] == EncodeAll(t[..k])
    ensures EncodeAll(t)[Offset(t, k)..] == EncodeAll(t[k..])
  {
    hide EncodeAll;
    assert t == t[..k] + t[k..];
    EncodeConcat(t[..k], t[k..]);
  }

  lemma InsertedBytes(t: Text, k: nat, ch: CodePoint)
    requires k <= |t|
    ensures Offset(t, k) <= |EncodeAll(t)|
    ensures EncodeAll(t)[..Offset(t, k)] + Encode(ch) + EncodeAll(t)[Offset(t, k)..] == EncodeAll(t[..k] + [ch] + t[k..])
    ensures Offset(t[..k] + [ch] + t[k..], k + 1) == Offset(t, k) + |Encode(ch)|
  {
    hide EncodeAll, Encode;
    CutAt(t, k);
    EncodeConcat(t[..k], [ch]);
    EncodeConcat(t[..k] + [ch], t[k..]);
    EncodeOne(ch);
    assert (t[..k] + [ch] + t[k..])[..k + 1] == t[..k] + [ch];
  }

  lemma RemovedBytes(t: Text, k: nat)
    requires k < |t|
    ensures Offset(t, k) < Offset(t, k + 1) <= |EncodeAll(t)|
    ensures var line := EncodeAll(t);
            line[..Offset(t, k)] + line[Offset(t, k + 1)..] == EncodeAll(t[..k] + t[k + 1..])
    ensures (t[..k] + t[k + 1..])[..k] == t[..k]
  {
    hide EncodeAll, Encode;
    OffsetIsStart(t, k);
    Around(t, k);
    EncodeConcat(t[..k], t[k + 1..]);
    var line := EncodeAll(t);
    assert line[..Offset(t, k)] == EncodeAll(t[..k]);
    assert line[Offset(t, k + 1)..] == EncodeAll(t[k + 1..]);
  }

  /** The byte before a cursor begins the code point before it. */
  lemma CharacterBefore(t: Text, c: nat)
    requires 0 < c <= |t|
    ensures Offset(t, c) <= |EncodeAll(t)| && PrevPos(EncodeAll(t), Offset(t, c)) == Offset(t, c - 1)
    ensures Offset(t, c - 1) < |EncodeAll(t)| && DecodeAt(EncodeAll(t), Offset(t, c - 1)).ch == t[c - 1]
  {
    hide *;
    StepsAreCodePoints(t, c - 1);
    DecodeAtOffset(t, c - 1);
  }

  lemma {:induction false} CursorAtEnd(t: Text, cursor: int, k: nat)
    requires k <= |t| && cursor < 0
    ensures CursorIndex(t, cursor, k) == |t|
    decreases |t| - k
  {
    hide Offset;
    if k < |t| { CursorAtEnd(t, cursor, k + 1); }
  }
}
