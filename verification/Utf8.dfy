/** UTF-8 as the console encodes, decodes and walks it (section 3 of RFC 3629). Bit masks on bytes
    are written as arithmetic. */
module Utf8 {

  type Byte = x: int | 0 <= x < 256

  const MAX_CODE_POINT := 0x10FFFF
  const REPLACEMENT := 0xFFFD

  type CodePoint = x: int | 0 <= x <= MAX_CODE_POINT

  predicate IsContinuation(b: Byte) {
    b / 64 == 2
  }

  /** The bytes of a code point; nothing at all for numbers that are not code points. Shifting by 12
      and 18 is shifting by 6 twice and three times. */
  function Encode(ch: nat): seq<Byte> {
    if ch <= 0x7F then [ch]
    else if ch <= 0x7FF then [0xC0 + ch / 64 % 32, 0x80 + ch % 64]
    else if ch <= 0xFFFF then [0xE0 + ch / 64 / 64 % 16, 0x80 + ch / 64 % 64, 0x80 + ch % 64]
    else if ch <= MAX_CODE_POINT then
      [0xF0 + ch / 64 / 64 / 64 % 8, 0x80 + ch / 64 / 64 % 64, 0x80 + ch / 64 % 64, 0x80 + ch % 64]
    else []
  }

  datatype Decoded = Decoded(ch: nat, advance: nat)

  function DecodeAt(input: seq<Byte>, pos: nat): Decoded
    requires pos < |input|
  {
    var c: int := input[pos];
    if c / 128 == 0 then Decoded(c, 1)
    else if c / 32 == 6 && pos + 1 < |input| then
      if !IsContinuation(input[pos + 1]) then Decoded(REPLACEMENT, 1)
      else Decoded((c % 32) * 64 + Low6(input[pos + 1]), 2)
    else if c / 16 == 14 && pos + 2 < |input| then
      if !IsContinuation(input[pos + 1]) || !IsContinuation(input[pos + 2]) then Decoded(REPLACEMENT, 1)
      else Decoded((c % 16) * 4096 + Low6(input[pos + 1]) * 64 + Low6(input[pos + 2]), 3)
    else if c / 8 == 30 && pos + 3 < |input| then
      if !IsContinuation(input[pos + 1]) || !IsContinuation(input[pos + 2]) || !IsContinuation(input[pos + 3]) then
        Decoded(REPLACEMENT, 1)
      else
        Decoded((c % 8) * 262144 + Low6(input[pos + 1]) * 4096 + Low6(input[pos + 2]) * 64 + Low6(input[pos + 3]), 4)
    else Decoded(REPLACEMENT, 1)
  }

  function Low6(b: Byte): nat {
    b as int % 64
  }

  /** The first byte of an encoding is never a continuation byte; all later ones are. */
  lemma Shape(ch: CodePoint)
    ensures 1 <= |Encode(ch)| <= 4 && !IsContinuation(Encode(ch)[0])
    ensures forall i | 1 <= i < |Encode(ch)| :: IsContinuation(Encode(ch)[i])
  {
  }

  /** The table of RFC 3629: how long an encoding is, what its first byte can be, and that the bytes' free
      bits, read in order, are the code point. */
  lemma EncodingForm(ch: CodePoint)
    ensures var e := Encode(ch);
            match |e|
            case 1 => ch <= 0x7F && e[0] as int == ch
            case 2 => 0x80 <= ch <= 0x7FF && 0xC2 <= e[0] <= 0xDF && Free(e[0], 0xC0) * 64 + Free(e[1], 0x80) == ch
            case 3 =>
              && 0x800 <= ch <= 0xFFFF && 0xE0 <= e[0] <= 0xEF
              && Free(e[0], 0xE0) * 4096 + Free(e[1], 0x80) * 64 + Free(e[2], 0x80) == ch
            case 4 =>
              && 0x10000 <= ch && 0xF0 <= e[0] <= 0xF4
              && Free(e[0], 0xF0) * 262144 + Free(e[1], 0x80) * 4096 + Free(e[2], 0x80) * 64 + Free(e[3], 0x80) == ch
            case _ => false
  {
    if 0x80 <= ch <= 0x7FF { FormTwo(ch); }
    else if 0x800 <= ch <= 0xFFFF { FormThree(ch); }
    else if 0x10000 <= ch { FormFour(ch); }
  }

  lemma FormTwo(ch: nat)
    requires 0x80 <= ch <= 0x7FF
    ensures var e := Encode(ch); |e| == 2 && 0xC2 <= e[0] <= 0xDF && Free(e[0], 0xC0) * 64 + Free(e[1], 0x80) == ch
  {
  }

  lemma FormThree(ch: nat)
    requires 0x800 <= ch <= 0xFFFF
    ensures var e := Encode(ch);
            |e| == 3 && 0xE0 <= e[0] <= 0xEF &&
            Free(e[0], 0xE0) * 4096 + Free(e[1], 0x80) * 64 + Free(e[2], 0x80) == ch
  {
    var q1, q2 := ch / 64, ch / 64 / 64;
    assert ch == q1 * 64 + ch % 64 && q1 == q2 * 64 + q1 % 64;
    assert q2 < 16;
  }

  lemma FormFour(ch: nat)
    requires 0x10000 <= ch <= MAX_CODE_POINT
    ensures var e := Encode(ch);
            |e| == 4 && 0xF0 <= e[0] <= 0xF4 &&
            Free(e[0], 0xF0) * 262144 + Free(e[1], 0x80) * 4096 + Free(e[2], 0x80) * 64 + Free(e[3], 0x80) == ch
  {
    var q1, q2, q3 := ch / 64, ch / 64 / 64, ch / 64 / 64 / 64;
    assert ch == q1 * 64 + ch % 64 && q1 == q2 * 64 + q1 % 64 && q2 == q3 * 64 + q2 % 64;
    assert q3 < 5;
  }

  function Free(b: Byte, marker: int): int {
    b as int - marker
  }

  /** A byte that announces n bytes, and n - 1 continuation bytes behind it. */
  predicate SequenceAt(input: seq<Byte>, pos: nat, n: nat)
    requires 1 <= n <= 4
  {
    && pos + n <= |input|
    && (match n
        case 1 => input[pos] < 0x80
        case 2 => 0xC0 <= input[pos] < 0xE0
        case 3 => 0xE0 <= input[pos] < 0xF0
        case _ => 0xF0 <= input[pos] < 0xF8)
    && forall i | pos < i < pos + n :: 0x80 <= input[i] < 0xC0
  }

  /** Such a sequence is read as one character, made of its free bits; anything else is one replaced byte. */
  lemma DecodesSequences(input: seq<Byte>, pos: nat)
    requires pos < |input|
    ensures SequenceAt(input, pos, 1) ==> DecodeAt(input, pos) == Decoded(input[pos] as int, 1)
    ensures SequenceAt(input, pos, 2) ==>
              DecodeAt(input, pos) == Decoded(Free(input[pos], 0xC0) * 64 + Free(input[pos + 1], 0x80), 2)
    ensures SequenceAt(input, pos, 3) ==>
              DecodeAt(input, pos) == Decoded(Free(input[pos], 0xE0) * 4096 + Free(input[pos + 1], 0x80) * 64
                                              + Free(input[pos + 2], 0x80), 3)
    ensures SequenceAt(input, pos, 4) ==>
              DecodeAt(input, pos) == Decoded(Free(input[pos], 0xF0) * 262144 + Free(input[pos + 1], 0x80) * 4096
                                              + Free(input[pos + 2], 0x80) * 64 + Free(input[pos + 3], 0x80), 4)
    ensures (forall n | 1 <= n <= 4 :: !SequenceAt(input, pos, n)) ==> DecodeAt(input, pos) == Decoded(REPLACEMENT, 1)
  {
    if forall n | 1 <= n <= 4 :: !SequenceAt(input, pos, n) {
      assert !SequenceAt(input, pos, 1) && !SequenceAt(input, pos, 2) && !SequenceAt(input, pos, 3);
      assert !SequenceAt(input, pos, 4);
    }
  }

  /** The bytes of the encoding stand in the input from position n on. */
  predicate StandsAt(all: seq<Byte>, n: nat, e: seq<Byte>) {
    n + |e| <= |all| && forall i | 0 <= i < |e| :: all[n + i] == e[i]
  }

  lemma DecodeTwo(all: seq<Byte>, n: nat, ch: nat)
    requires 0x80 <= ch <= 0x7FF && StandsAt(all, n, Encode(ch))
    ensures DecodeAt(all, n) == Decoded(ch, 2)
  {
    var e, q1 := Encode(ch), ch / 64;
    assert all[n + 0] == e[0] && all[n + 1] == e[1];
    assert q1 < 32;
    assert Low6(e[1]) == ch % 64 && e[0] as int % 32 == q1;
  }

  lemma DecodeThree(all: seq<Byte>, n: nat, ch: nat)
    requires 0x800 <= ch <= 0xFFFF && StandsAt(all, n, Encode(ch))
    ensures DecodeAt(all, n) == Decoded(ch, 3)
  {
    var e, q1, q2 := Encode(ch), ch / 64, ch / 64 / 64;
    assert all[n + 0] == e[0] && all[n + 1] == e[1] && all[n + 2] == e[2];
    assert q2 < 16;
    assert Low6(e[2]) == ch % 64 && Low6(e[1]) == q1 % 64 && e[0] as int % 16 == q2;
  }

  lemma DecodeFour(all: seq<Byte>, n: nat, ch: nat)
    requires 0x10000 <= ch <= MAX_CODE_POINT && StandsAt(all, n, Encode(ch))
    ensures DecodeAt(all, n) == Decoded(ch, 4)
  {
    var e, q1, q2, q3 := Encode(ch), ch / 64, ch / 64 / 64, ch / 64 / 64 / 64;
    assert all[n + 0] == e[0] && all[n + 1] == e[1] && all[n + 2] == e[2] && all[n + 3] == e[3];
    assert q3 < 8;
    assert Low6(e[3]) == ch % 64 && Low6(e[2]) == q1 % 64 && Low6(e[1]) == q2 % 64 && e[0] as int % 8 == q3;
  }

  /** Decoding at the start of an encoding gives the code point back, whatever stands around it. */
  lemma DecodeEncoded(before: seq<Byte>, ch: CodePoint, after: seq<Byte>)
    ensures DecodeAt(before + Encode(ch) + after, |before|) == Decoded(ch, |Encode(ch)|)
  {
    var all := before + Encode(ch) + after;
    assert StandsAt(all, |before|, Encode(ch)) by { hide Encode; }
    if ch <= 0x7F {
      assert all[|before| + 0] == ch;
    } else {
      hide DecodeAt, StandsAt;
      if ch <= 0x7FF { DecodeTwo(all, |before|, ch); }
      else if ch <= 0xFFFF { DecodeThree(all, |before|, ch); }
      else { DecodeFour(all, |before|, ch); }
    }
  }

  // ---------------------------------------------------------------- whole texts

  type Text = seq<CodePoint>

  function EncodeAll(t: Text): seq<Byte> {
    if t == [] then [] else Encode(t[0]) + EncodeAll(t[1..])
  }

  /** The byte offset of the k-th code point. */
  function Offset(t: Text, k: nat): nat
    requires k <= |t|
  {
    |EncodeAll(t[..k])|
  }

  lemma {:induction false} EncodeConcat(a: Text, b: Text)
    ensures EncodeAll(a + b) == EncodeAll(a) + EncodeAll(b)
  {
    hide Encode;
    if a == [] {
      assert a + b == b;
    } else {
      assert (a + b)[1..] == a[1..] + b && (a + b)[0] == a[0];
      EncodeConcat(a[1..], b);
      var e, x, y := Encode(a[0]), EncodeAll(a[1..]), EncodeAll(b);
      assert e + (x + y) == e + x + y;
    }
  }

  lemma EncodeOne(ch: CodePoint)
    ensures EncodeAll([ch]) == Encode(ch)
  {
    hide Encode;
    assert [ch][1..] == [];
    assert Encode(ch) + [] == Encode(ch);
  }

  /** The line around the k-th code point. */
  lemma Around(t: Text, k: nat)
    requires k < |t|
    ensures EncodeAll(t) == EncodeAll(t[..k]) + Encode(t[k]) + EncodeAll(t[k + 1..])
    ensures Offset(t, k + 1) == Offset(t, k) + |Encode(t[k])|
  {
    hide Encode, EncodeAll;
    assert t == t[..k] + [t[k]] + t[k + 1..];
    assert t[..k + 1] == t[..k] + [t[k]];
    EncodeConcat(t[..k], [t[k]]);
    EncodeConcat(t[..k] + [t[k]], t[k + 1..]);
    EncodeOne(t[k]);
  }

  lemma OffsetEnds(t: Text)
    ensures Offset(t, 0) == 0 && Offset(t, |t|) == |EncodeAll(t)|
  {
    assert t[..|t|] == t && t[..0] == [];
  }

  lemma {:induction false} OffsetMonotone(t: Text, i: nat, j: nat)
    requires i <= j <= |t|
    ensures Offset(t, i) + (j - i) <= Offset(t, j)
    decreases j
  {
    hide Encode, EncodeAll;
    if i < j {
      OffsetMonotone(t, i, j - 1);
      Around(t, j - 1);
      Shape(t[j - 1]);
    }
  }

  /** Every offset but the last is the position of a byte that begins a code point. */
  lemma OffsetIsStart(t: Text, k: nat)
    requires k < |t|
    ensures Offset(t, k) < |EncodeAll(t)| && !IsContinuation(EncodeAll(t)[Offset(t, k)])
    ensures Offset(t, k) < Offset(t, k + 1) <= |EncodeAll(t)|
    ensures forall i | Offset(t, k) < i < Offset(t, k + 1) :: IsContinuation(EncodeAll(t)[i])
  {
    hide Encode, EncodeAll;
    Around(t, k);
    Shape(t[k]);
    var n, e := Offset(t, k), Encode(t[k]);
    forall i | n < i < Offset(t, k + 1)
      ensures IsContinuation(EncodeAll(t)[i])
    {
      assert EncodeAll(t)[i] == e[i - n];
    }
  }

  lemma DecodeAtOffset(t: Text, k: nat)
    requires k < |t|
    ensures Offset(t, k) < |EncodeAll(t)| && Offset(t, k) < Offset(t, k + 1)
    ensures DecodeAt(EncodeAll(t), Offset(t, k)) == Decoded(t[k], Offset(t, k + 1) - Offset(t, k))
  {
    hide DecodeAt, Encode;
    OffsetIsStart(t, k);
    Around(t, k);
    DecodeEncoded(EncodeAll(t[..k]), t[k], EncodeAll(t[k + 1..]));
  }

  /** The number of bytes that begin a code point. */
  function Starts(bytes: seq<Byte>): nat {
    if bytes == [] then 0 else (if IsContinuation(bytes[0]) then 0 else 1) + Starts(bytes[1..])
  }

  lemma {:induction false} StartsConcat(a: seq<Byte>, b: seq<Byte>)
    ensures Starts(a + b) == Starts(a) + Starts(b)
  {
    if a == [] {
      assert a + b == b;
    } else {
      assert (a + b)[1..] == a[1..] + b && (a + b)[0] == a[0];
      StartsConcat(a[1..], b);
    }
  }

  lemma StartsOfEncoding(ch: CodePoint)
    ensures Starts(Encode(ch)) == 1
  {
    Shape(ch);
    var e := Encode(ch);
    assert |e| > 1 ==> e[1..][0] == e[1];
    assert |e| > 2 ==> e[1..][1..][0] == e[2];
    assert |e| > 3 ==> e[1..][1..][1..][0] == e[3];
    NoStarts(e[1..]);
  }

  lemma {:induction false} NoStarts(bytes: seq<Byte>)
    requires forall i | 0 <= i < |bytes| :: IsContinuation(bytes[i])
    ensures Starts(bytes) == 0
  {
    if bytes != [] { NoStarts(bytes[1..]); }
  }

  /** A well-formed line has as many starting bytes as code points. */
  lemma {:induction false} StartsOfText(t: Text)
    ensures Starts(EncodeAll(t)) == |t|
  {
    hide Encode;
    if t != [] {
      StartsConcat(Encode(t[0]), EncodeAll(t[1..]));
      StartsOfEncoding(t[0]);
      StartsOfText(t[1..]);
    }
  }

  // ---------------------------------------------------------------- walking the bytes

  function SkipForward(line: seq<Byte>, p: nat): (r: nat)
    requires p <= |line|
    ensures p <= r <= |line|
    decreases |line| - p
  {
    if p < |line| && IsContinuation(line[p]) then SkipForward(line, p + 1) else p
  }

  function SkipBack(line: seq<Byte>, p: nat): (r: nat)
    requires p < |line|
    ensures r <= p
  {
    if p > 0 && IsContinuation(line[p]) then SkipBack(line, p - 1) else p
  }

  lemma {:induction false} SkipForwardStops(line: seq<Byte>, p: nat, q: nat)
    requires p <= q <= |line| && (q < |line| ==> !IsContinuation(line[q]))
    requires forall i | p <= i < q :: IsContinuation(line[i])
    ensures SkipForward(line, p) == q
    decreases q - p
  {
    if p < q { SkipForwardStops(line, p + 1, q); }
  }

  lemma {:induction false} SkipBackStops(line: seq<Byte>, p: nat, q: nat)
    requires q <= p < |line| && !IsContinuation(line[q])
    requires forall i | q < i <= p :: IsContinuation(line[i])
    ensures SkipBack(line, p) == q
    decreases p - q
  {
    if q < p { SkipBackStops(line, p - 1, q); }
  }

  function PrevPos(line: seq<Byte>, pos: nat): (r: nat)
    requires pos <= |line|
    ensures r <= pos
  {
    if pos == 0 then 0 else SkipBack(line, pos - 1)
  }

  function NextPos(line: seq<Byte>, pos: nat): (r: nat)
    ensures r <= |line|
  {
    if pos >= |line| then |line| else SkipForward(line, pos + 1)
  }

  method PrevUtf8CharPos(line: seq<Byte>, pos: nat) returns (r: nat)
    requires pos <= |line|
    ensures r == PrevPos(line, pos)
  {
    r := pos;
    if pos == 0 { return 0; }
    r := r - 1;
    while r > 0 && IsContinuation(line[r])
      invariant r < |line| && SkipBack(line, r) == PrevPos(line, pos)
    {
      r := r - 1;
    }
  }

  method NextUtf8CharPos(line: seq<Byte>, pos: nat) returns (r: nat)
    ensures r == NextPos(line, pos)
  {
    r := pos;
    if pos >= |line| { return |line|; }
    r := r + 1;
    while r < |line| && IsContinuation(line[r])
      invariant r <= |line| && SkipForward(line, r) == NextPos(line, pos)
    {
      r := r + 1;
    }
  }

  /** On a well-formed line, one step left or right in the bytes is one code point. */
  lemma StepsAreCodePoints(t: Text, k: nat)
    requires k < |t|
    ensures Offset(t, k + 1) <= |EncodeAll(t)|
    ensures NextPos(EncodeAll(t), Offset(t, k)) == Offset(t, k + 1)
    ensures PrevPos(EncodeAll(t), Offset(t, k + 1)) == Offset(t, k)
  {
    hide EncodeAll, Offset;
    var line := EncodeAll(t);
    OffsetIsStart(t, k);
    if k + 1 < |t| {
      OffsetIsStart(t, k + 1);
    } else {
      OffsetEnds(t);
    }
    SkipForwardStops(line, Offset(t, k) + 1, Offset(t, k + 1));
    SkipBackStops(line, Offset(t, k + 1) - 1, Offset(t, k));
  }
}
