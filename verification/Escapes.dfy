/** Decoding backslash escapes of a byte string in its own buffer. */
module Escapes {
  import opened HexDigits
  import opened Wrappers
  import opened Sequences

  type Byte = x: int | 0 <= x < 256

  const BACKSLASH: Byte := '\\' as int

  /** The character a one-letter escape stands for. */
  function Simple(c: Byte): Option<Byte> {
    if c == 'n' as int then Some(10)
    else if c == 'r' as int then Some(13)
    else if c == 't' as int then Some(9)
    else if c == '\'' as int then Some('\'' as int)
    else if c == '"' as int then Some('"' as int)
    else if c == BACKSLASH then Some(BACKSLASH)
    else None
  }

  function HexDigit(c: Byte): Option<Byte> {
    if IsHex(c as char) then Some(HexValue(c as char)) else None
  }

  predicate IsSpace(c: Byte) {
    c == 32 || 9 <= c <= 13
  }

  /** What strtol makes of a two-character text in base 16 when it consumes both: two digits, or one
      digit after a space or a sign. A negative value is stored as its low byte. */
  function TwoHex(x: Byte, y: Byte): Option<Byte> {
    if HexDigit(y).None? then None
    else if HexDigit(x).Some? then Some(HexDigit(x).value * 16 + HexDigit(y).value)
    else if IsSpace(x) || x == '+' as int then HexDigit(y)
    else if x == '-' as int then Some((256 - HexDigit(y).value) % 256)
    else None
  }

  /** The decoded text, read from left to right into a text of its own. */
  function Decoded(s: seq<Byte>): seq<Byte>
    decreases |s|
  {
    if s == [] then []
    else if s[0] != BACKSLASH || |s| == 1 then [s[0]] + Decoded(s[1..])
    else if Simple(s[1]).Some? then [Simple(s[1]).value] + Decoded(s[2..])
    else if s[1] == 'x' as int && |s| >= 4 && TwoHex(s[2], s[3]).Some? then
      [TwoHex(s[2], s[3]).value] + Decoded(s[4..])
    else [BACKSLASH, s[1]] + Decoded(s[2..])
  }

  /** What is read at a position: the bytes it stands for and where reading goes on. */
  datatype Piece = Piece(bytes: seq<Byte>, next: nat)

  function PieceAt(s: seq<Byte>, i: nat): (p: Piece)
    requires i < |s|
    ensures i < p.next <= |s| && 0 < |p.bytes| <= p.next - i
  {
    if s[i] != BACKSLASH || i + 1 == |s| then Piece([s[i]], i + 1)
    else if Simple(s[i + 1]).Some? then Piece([Simple(s[i + 1]).value], i + 2)
    else if s[i + 1] == 'x' as int && i + 3 < |s| && TwoHex(s[i + 2], s[i + 3]).Some? then
      Piece([TwoHex(s[i + 2], s[i + 3]).value], i + 4)
    else Piece([BACKSLASH, s[i + 1]], i + 2)
  }

  lemma DecodedAt(s: seq<Byte>, i: nat)
    requires i < |s|
    ensures Decoded(s[i..]) == PieceAt(s, i).bytes + Decoded(s[PieceAt(s, i).next..])
  {
    hide Simple, TwoHex;
    var t := s[i..];
    assert t[1..] == s[i + 1..];
    if |t| >= 2 { assert t[2..] == s[i + 2..]; }
    if |t| >= 4 { assert t[4..] == s[i + 4..]; }
  }

  /** One round of the loop: reads at one position and writes what it stands for. */
  method DecodeOne(input: array<Byte>, inIdx0: nat, outIdx0: nat) returns (inIdx: nat, outIdx: nat)
    requires outIdx0 <= inIdx0 < input.Length
    modifies input
    ensures var p := PieceAt(old(input[..]), inIdx0);
      && inIdx == p.next && outIdx == outIdx0 + |p.bytes| <= inIdx <= input.Length
      && input[..outIdx] == old(input[..outIdx0]) + p.bytes
    ensures forall k | outIdx <= k < input.Length :: input[k] == old(input[k])
  {
    hide Simple, TwoHex;
    inIdx, outIdx := inIdx0, outIdx0;
    if input[inIdx] == BACKSLASH && inIdx + 1 < input.Length {
      inIdx := inIdx + 1;
      var value := Simple(input[inIdx]);
      if value.None? && input[inIdx] == 'x' as int && inIdx + 2 < input.Length {
        value := TwoHex(input[inIdx + 1], input[inIdx + 2]);
        if value.Some? {
          inIdx := inIdx + 2;
        }
      }
      if value.Some? {
        input[outIdx] := value.value;
        outIdx := outIdx + 1;
      } else {
        input[outIdx] := BACKSLASH;
        outIdx := outIdx + 1;
        input[outIdx] := input[inIdx];
        outIdx := outIdx + 1;
      }
    } else {
      input[outIdx] := input[inIdx];
      outIdx := outIdx + 1;
    }
    inIdx := inIdx + 1;
  }

  /** Decodes a buffer into its own front and returns the new length. The write position never passes
      the read position, not even where an unfinished hex escape is copied as it stands. */
  method ProcessEscapes(input: array<Byte>) returns (len: nat)
    modifies input
    ensures len <= input.Length && input[..len] == Decoded(old(input[..]))
    ensures forall k | len <= k < input.Length :: input[k] == old(input[k])
  {
    hide PieceAt, Decoded;
    ghost var s := input[..];
    var inIdx: nat, outIdx: nat := 0, 0;
    assert s[0..] == s && input[..0] == [];
    while inIdx < input.Length
      invariant outIdx <= inIdx <= input.Length
      invariant forall k | outIdx <= k < input.Length :: input[k] == s[k]
      invariant input[..outIdx] + Decoded(s[inIdx..]) == Decoded(s)
    {
      ghost var done, from, p := input[..outIdx], inIdx, PieceAt(s, inIdx);
      DecodedAt(s, from);
      SamePiece(input[..], s, from);
      inIdx, outIdx := DecodeOne(input, inIdx, outIdx);
      Regroup(done, p.bytes, Decoded(s[p.next..]));
    }
    len := outIdx;
    assert s[inIdx..] == [];
    DecodedEmpty();
    assert input[..len] + [] == input[..len];
  }

  /** Only what is still unread matters. */
  lemma SamePiece(a: seq<Byte>, b: seq<Byte>, i: nat)
    requires i < |a| == |b| && forall k | i <= k < |a| :: a[k] == b[k]
    ensures PieceAt(a, i) == PieceAt(b, i)
  {
  }

  lemma DecodedEmpty()
    ensures Decoded([]) == []
  {
  }

  // ---------------------------------------------------------------- escaping

  function Digit(v: Byte): Byte
    requires v < 16
  {
    if v < 10 then '0' as int + v else 'a' as int + (v - 10)
  }

  /** Every byte written so that it survives: letters for the common control characters, a doubled
      backslash, hex for all other bytes outside printable ASCII. */
  function EscapedByte(b: Byte): seq<Byte> {
    if b == 10 then [BACKSLASH, 'n' as int]
    else if b == 13 then [BACKSLASH, 'r' as int]
    else if b == 9 then [BACKSLASH, 't' as int]
    else if b == '\'' as int || b == '"' as int || b == BACKSLASH then [BACKSLASH, b]
    else if 32 <= b < 127 then [b]
    else [BACKSLASH, 'x' as int, Digit(b / 16), Digit(b % 16)]
  }

  function Escaped(s: seq<Byte>): seq<Byte> {
    if s == [] then [] else EscapedByte(s[0]) + Escaped(s[1..])
  }

  lemma DecodesByte(b: Byte, rest: seq<Byte>)
    ensures Decoded(EscapedByte(b) + rest) == [b] + Decoded(rest)
  {
    var e := EscapedByte(b);
    var s := e + rest;
    if |e| == 1 {
      assert s[1..] == rest;
    } else if |e| == 2 {
      assert s[2..] == rest;
    } else {
      assert s[4..] == rest;
      assert TwoHex(Digit(b / 16), Digit(b % 16)) == Some(b);
    }
  }

  /** Decoding undoes escaping, for every byte string. */
  lemma {:induction false} DecodeOfEscaped(s: seq<Byte>)
    ensures Decoded(Escaped(s)) == s
  {
    hide EscapedByte, Decoded;
    if s == [] {
      DecodedEmpty();
    } else {
      DecodesByte(s[0], Escaped(s[1..]));
      DecodeOfEscaped(s[1..]);
      assert s == [s[0]] + s[1..];
    }
  }

  /** Decoding never lengthens, and leaves a text without backslashes alone. */
  lemma {:induction false} DecodedSize(s: seq<Byte>)
    ensures |Decoded(s)| <= |s| && (BACKSLASH !in s ==> Decoded(s) == s)
    decreases |s|
  {
    hide Simple, TwoHex;
    if s != [] {
      assert s[0] in s && forall b | b in s[1..] :: b in s;
      DecodedSize(s[1..]);
      if |s| >= 2 { DecodedSize(s[2..]); }
      if |s| >= 4 { DecodedSize(s[4..]); }
      assert s == [s[0]] + s[1..];
    }
  }

  // ---------------------------------------------------------------- all spellings

  /** The ways to write one byte: as it is, by the letter of its escape, or by two hex digits of either case. */
  predicate Spells(e: seq<Byte>, b: Byte) {
    || (e == [b] && b != BACKSLASH)
    || (|e| == 2 && e[0] == BACKSLASH && IsLetterFor(e[1], b))
    || (|e| == 4 && e[0] == BACKSLASH && e[1] == 'x' as int && IsHex(e[2] as char) && IsHex(e[3] as char) &&
        b as int == 16 * HexValue(e[2] as char) + HexValue(e[3] as char))
  }

  predicate IsLetterFor(c: Byte, b: Byte) {
    (c as char, b as char) in {('n', '\n'), ('r', '\r'), ('t', '\t'), ('\'', '\''), ('"', '"'), ('\\', '\\')}
  }

  lemma SpellingDecodes(e: seq<Byte>, b: Byte, rest: seq<Byte>)
    requires Spells(e, b)
    ensures Decoded(e + rest) == [b] + Decoded(rest)
  {
    var s := e + rest;
    assert s[|e|..] == rest;
    if |e| == 4 { assert TwoHex(s[2], s[3]) == Some(b); }
  }

  function Flat(es: seq<seq<Byte>>): seq<Byte> {
    if es == [] then [] else es[0] + Flat(es[1..])
  }

  /** However the bytes of a text are spelled, decoding gives the text. */
  lemma {:induction false} SpellingsDecode(es: seq<seq<Byte>>, s: seq<Byte>)
    requires |es| == |s| && forall i | 0 <= i < |s| :: Spells(es[i], s[i])
    ensures Decoded(Flat(es)) == s
  {
    hide Spells, Decoded;
    if s == [] {
      DecodedEmpty();
    } else {
      SpellingDecodes(es[0], s[0], Flat(es[1..]));
      SpellingsDecode(es[1..], s[1..]);
      assert s == [s[0]] + s[1..];
    }
  }

  /** What is no escape stays as it is, and so does a backslash at the end. */
  lemma OtherEscapes(c: Byte, rest: seq<Byte>)
    requires forall b :: !IsLetterFor(c, b)
    requires c == 'x' as int ==> |rest| < 2 || !IsHex(rest[1] as char)
    ensures Decoded([BACKSLASH, c] + rest) == [BACKSLASH, c] + Decoded(rest)
    ensures Decoded([BACKSLASH]) == [BACKSLASH]
  {
    hide Simple, IsLetterFor, TwoHex;
    var s := [BACKSLASH, c] + rest;
    assert s[0] == BACKSLASH && s[1] == c && s[2..] == rest;
    assert Simple(c).None? by { NoLetter(c); }
    assert s[1] == 'x' as int && |s| >= 4 ==> TwoHex(s[2], s[3]).None? by { NoHex(rest); }
    assert [BACKSLASH][1..] == [] && Decoded([]) == [];
  }

  lemma NoLetter(c: Byte)
    requires forall b :: !IsLetterFor(c, b)
    ensures Simple(c).None?
  {
    assert Simple(c).Some? ==> IsLetterFor(c, Simple(c).value);
  }

  lemma NoHex(rest: seq<Byte>)
    ensures |rest| >= 2 && !IsHex(rest[1] as char) ==> TwoHex(rest[0], rest[1]).None?
  {
  }

  /** Behind `\x` a space or a sign may take the place of the first digit; anything else is no escape. */
  lemma LooseHex(first: Byte, digit: Byte, rest: seq<Byte>)
    requires IsHex(digit as char) && !IsHex(first as char)
    ensures var d := HexValue(digit as char);
            var s := [BACKSLASH, 'x' as int, first, digit] + rest;
            Decoded(s) == if first as char == '-' then [(256 - d) % 256] + Decoded(rest)
                          else if first as char == '+' || IsSpace(first) then [d] + Decoded(rest)
                          else [BACKSLASH, 'x' as int] + Decoded([first, digit] + rest)
  {
    var s := [BACKSLASH, 'x' as int, first, digit] + rest;
    assert s[4..] == rest && s[2..] == [first, digit] + rest;
    assert s[0] == BACKSLASH && s[1] == 'x' as int && s[2] == first && s[3] == digit;
  }
}
