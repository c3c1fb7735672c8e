/** Base64 (sections 4 and 5 of RFC 4648) with alphabet detection, also decoding in place. Characters
    are their byte codes; shifts are written as arithmetic. */
module Base64 {
  import opened Sequences
  import opened Wrappers

  type Byte = x: int | 0 <= x < 256
  type Sextet = x: int | 0 <= x < 64

  datatype Alphabet = Auto | Standard | UrlSafe

  datatype Mistake = InvalidCharacter

  const PAD: Byte := '=' as int

  // ---------------------------------------------------------------- alphabets

  function Letter(a: Alphabet, v: Sextet): Byte {
    if v < 26 then 'A' as int + v
    else if v < 52 then 'a' as int + (v - 26)
    else if v < 62 then '0' as int + (v - 52)
    else if a == UrlSafe then (if v == 62 then '-' as int else '_' as int)
    else if v == 62 then '+' as int else '/' as int
  }

  datatype Lookup = NoValue | Value(v: Sextet, a: Alphabet)

  predicate IsStandardOnly(c: Byte) {
    c == '+' as int || c == '/' as int
  }

  predicate IsUrlOnly(c: Byte) {
    c == '-' as int || c == '_' as int
  }

  /** The value of a character, and the alphabet that is fixed from now on. */
  function ValueOf(a: Alphabet, c: Byte): Lookup {
    if 'A' as int <= c <= 'Z' as int then Value(c - 'A' as int, a)
    else if 'a' as int <= c <= 'z' as int then Value(c - 'a' as int + 26, a)
    else if '0' as int <= c <= '9' as int then Value(c - '0' as int + 52, a)
    else if IsStandardOnly(c) && a != UrlSafe then Value(if c == '+' as int then 62 else 63, Standard)
    else if IsUrlOnly(c) && a != Standard then Value(if c == '-' as int then 62 else 63, UrlSafe)
    else NoValue
  }

  // ---------------------------------------------------------------- encoding

  function Encoded(b: seq<Byte>, a: Alphabet): seq<Byte> {
    if b == [] then []
    else if |b| == 1 then [Letter(a, b[0] / 4), Letter(a, b[0] % 4 * 16), PAD, PAD]
    else if |b| == 2 then
      [Letter(a, b[0] / 4), Letter(a, b[0] % 4 * 16 + b[1] / 16), Letter(a, b[1] % 16 * 4), PAD]
    else
      [Letter(a, b[0] / 4), Letter(a, b[0] % 4 * 16 + b[1] / 16), Letter(a, b[1] % 16 * 4 + b[2] / 64),
       Letter(a, b[2] % 64)] + Encoded(b[3..], a)
  }

  /** The tables of RFC 4648: the letters in upper and lower case, the digits, and the two characters in
      which the alphabets differ. */
  lemma LetterTable(a: Alphabet, v: Sextet)
    ensures Letter(a, 0) as char == 'A' && Letter(a, 25) as char == 'Z'
    ensures Letter(a, 26) as char == 'a' && Letter(a, 51) as char == 'z'
    ensures Letter(a, 52) as char == '0' && Letter(a, 61) as char == '9'
    ensures Letter(a, 62) as char == (if a == UrlSafe then '-' else '+')
    ensures Letter(a, 63) as char == (if a == UrlSafe then '_' else '/')
    ensures v + 1 < 62 && v != 25 && v != 51 ==> Letter(a, v + 1) as int == Letter(a, v) as int + 1
  {
  }

  /** The first three bytes, or what there is of them, read as one number of 24 bits: missing bytes are zero. */
  function GroupNumber(b: seq<Byte>): nat
    requires b != []
  {
    b[0] as int * 65536 + (if |b| > 1 then b[1] as int * 256 else 0) + (if |b| > 2 then b[2] as int else 0)
  }

  /** A group's characters are the digits of that number to base 64; a missing byte costs one of them, which
      padding replaces, and the other groups follow. */
  lemma GroupDigits(b: seq<Byte>, a: Alphabet)
    requires b != []
    ensures var n, e := GroupNumber(b), Encoded(b, a);
            && n < 0x100_0000 && |e| >= 4
            && e[0] == Letter(a, n / 262144) && e[1] == Letter(a, n / 4096 % 64)
            && e[2] == (if |b| > 1 then Letter(a, n / 64 % 64) else PAD)
            && e[3] == (if |b| > 2 then Letter(a, n % 64) else PAD)
            && e[4..] == Encoded(if |b| > 3 then b[3..] else [], a)
  {
    hide Letter;
    GroupArithmetic(b[0], if |b| > 1 then b[1] else 0, if |b| > 2 then b[2] else 0);
    GroupOf(b, a);
    EncodedNothing(a);
  }

  lemma GroupArithmetic(b0: Byte, b1: Byte, b2: Byte)
    ensures var n := b0 as int * 65536 + b1 as int * 256 + b2 as int;
            && n / 262144 == b0 as int / 4 && n / 4096 % 64 == b0 as int % 4 * 16 + b1 as int / 16
            && n / 64 % 64 == b1 as int % 16 * 4 + b2 as int / 64 && n % 64 == b2 as int % 64
  {
    var n := b0 as int * 65536 + b1 as int * 256 + b2 as int;
    assert n / 64 == b0 as int * 1024 + b1 as int * 4 + b2 as int / 64;
    assert n / 4096 == n / 64 / 64 == b0 as int * 16 + b1 as int / 16;
    assert n / 262144 == n / 4096 / 64 == b0 as int / 4;
  }

  function RequiredEncodeSize(size: nat): nat {
    (size / 3 + if size % 3 != 0 then 1 else 0) * 4
  }

  function MaxDecodeSize(size: nat): nat {
    (size / 4 + if size % 4 != 0 then 1 else 0) * 3
  }

  lemma FourMore(out: seq<Byte>, w: Byte, x: Byte, y: Byte, z: Byte)
    ensures out + [w] + [x] + [y] + [z] == out + [w, x, y, z]
  {
  }

  method Encode(b: seq<Byte>, a: Alphabet) returns (out: seq<Byte>)
    ensures out == Encoded(b, a)
    ensures |out| == RequiredEncodeSize(|b|)
  {
    EncodedSize(b, a);
    EncodedNothing(a);
    hide Letter, RequiredEncodeSize, Encoded;
    out := [];
    var i := 0;
    assert b[0..] == b && [] + Encoded(b, a) == Encoded(b, a);
    while i < |b|
      invariant i <= |b| && out + Encoded(b[i..], a) == Encoded(b, a)
    {
      ghost var before, rest := out, b[i..];
      GroupOf(rest, a);
      var i0 := b[i];
      i := i + 1;
      out := out + [Letter(a, i0 / 4)];
      if i == |b| {
        out := out + [Letter(a, i0 % 4 * 16)];
        out := out + [PAD];
        out := out + [PAD];
        FourMore(before, Letter(a, i0 / 4), Letter(a, i0 % 4 * 16), PAD, PAD);
        return;
      }
      var i1 := b[i];
      i := i + 1;
      out := out + [Letter(a, i0 % 4 * 16 + i1 / 16)];
      if i == |b| {
        out := out + [Letter(a, i1 % 16 * 4)];
        out := out + [PAD];
        FourMore(before, Letter(a, i0 / 4), Letter(a, i0 % 4 * 16 + i1 / 16), Letter(a, i1 % 16 * 4), PAD);
        return;
      }
      var i2 := b[i];
      i := i + 1;
      out := out + [Letter(a, i1 % 16 * 4 + i2 / 64)];
      out := out + [Letter(a, i2 % 64)];
      ghost var group :=
        [Letter(a, i0 / 4), Letter(a, i0 % 4 * 16 + i1 / 16), Letter(a, i1 % 16 * 4 + i2 / 64), Letter(a, i2 % 64)];
      FourMore(before, group[0], group[1], group[2], group[3]);
      assert rest[3..] == b[i..];
      Regroup(before, group, Encoded(b[i..], a));
    }
    assert b[i..] == [] && out + [] == out;
  }

  lemma EncodedNothing(a: Alphabet)
    ensures Encoded([], a) == []
  {
  }

  /** The characters of the first group of three bytes, or of a shorter last group. */
  lemma GroupOf(b: seq<Byte>, a: Alphabet)
    requires b != []
    ensures |b| == 1 ==> Encoded(b, a) == [Letter(a, b[0] / 4), Letter(a, b[0] % 4 * 16), PAD, PAD]
    ensures |b| == 2 ==>
      Encoded(b, a) == [Letter(a, b[0] / 4), Letter(a, b[0] % 4 * 16 + b[1] / 16), Letter(a, b[1] % 16 * 4), PAD]
    ensures |b| >= 3 ==>
      Encoded(b, a) == [Letter(a, b[0] / 4), Letter(a, b[0] % 4 * 16 + b[1] / 16),
                        Letter(a, b[1] % 16 * 4 + b[2] / 64), Letter(a, b[2] % 64)] + Encoded(b[3..], a)
  {
    hide Letter;
  }

  lemma {:induction false} EncodedSize(b: seq<Byte>, a: Alphabet)
    ensures |Encoded(b, a)| == RequiredEncodeSize(|b|)
  {
    hide Letter;
    if |b| >= 3 {
      EncodedSize(b[3..], a);
    }
  }

  // ---------------------------------------------------------------- decoding

  predicate OnlyPadding(s: seq<Byte>) {
    forall i | 0 <= i < |s| :: s[i] == PAD
  }

  predicate IsBits(bits: nat) {
    bits == 0 || bits == 2 || bits == 4 || bits == 6
  }

  /** What a byte keeps of a value that is shifted to the left. */
  lemma Shifted(v: Sextet)
    ensures v as int * 4 % 256 == v as int * 4
    ensures v as int * 16 % 256 == v as int % 16 * 16
    ensures v as int * 64 % 256 == v as int % 4 * 64
  {
  }

  /** The byte made of the last bits of one value and the first bits of the next. */
  function Combine(last: Sextet, bits: nat, v: Sextet): Byte
    requires IsBits(bits) && bits != 0
  {
    Shifted(last);
    if bits == 6 then last * 4 % 256 + v / 16
    else if bits == 4 then last * 16 % 256 + v / 4
    else last * 64 % 256 + v
  }

  function Prepend(b: Byte, r: Result<seq<Byte>, Mistake>): Result<seq<Byte>, Mistake> {
    if r.Ok? then Ok([b] + r.value) else r
  }

  /** Decoding from here on, with the last value seen and the number of its bits not yet written. */
  function DecodedFrom(s: seq<Byte>, a: Alphabet, strict: bool, last: Sextet, bits: nat): Result<seq<Byte>, Mistake>
    requires IsBits(bits)
    decreases |s|
  {
    if s == [] then Ok([])
    else if s[0] == PAD then if strict && !OnlyPadding(s[1..]) then Err(InvalidCharacter) else Ok([])
    else
      var l := ValueOf(a, s[0]);
      if l.NoValue? then Err(InvalidCharacter)
      else if bits + 6 >= 8 then Prepend(Combine(last, bits, l.v), DecodedFrom(s[1..], l.a, strict, l.v, bits - 2))
      else DecodedFrom(s[1..], l.a, strict, l.v, bits + 6)
  }

  function Decoded(s: seq<Byte>, a: Alphabet, strict: bool): Result<seq<Byte>, Mistake> {
    DecodedFrom(s, a, strict, 0, 0)
  }

  function Append(out: seq<Byte>, r: Result<seq<Byte>, Mistake>): Result<seq<Byte>, Mistake> {
    if r.Ok? then Ok(out + r.value) else r
  }

  lemma AppendToNothing(r: Result<seq<Byte>, Mistake>)
    ensures Append([], r) == r
  {
    if r.Ok? { assert [] + r.value == r.value; }
  }

  lemma AppendPrepend(out: seq<Byte>, b: Byte, r: Result<seq<Byte>, Mistake>)
    ensures Append(out, Prepend(b, r)) == Append(out + [b], r)
  {
    if r.Ok? { assert out + ([b] + r.value) == out + [b] + r.value; }
  }

  /** One character at position i. */
  lemma StepAt(s: seq<Byte>, i: nat, a: Alphabet, strict: bool, last: Sextet, bits: nat)
    requires i < |s| && IsBits(bits)
    ensures DecodedFrom(s[i..], a, strict, last, bits) ==
      if s[i] == PAD then if strict && !OnlyPadding(s[i + 1..]) then Err(InvalidCharacter) else Ok([])
      else
        var l := ValueOf(a, s[i]);
        if l.NoValue? then Err(InvalidCharacter)
        else if bits == 0 then DecodedFrom(s[i + 1..], l.a, strict, l.v, 6)
        else Prepend(Combine(last, bits, l.v), DecodedFrom(s[i + 1..], l.a, strict, l.v, bits - 2))
  {
    hide ValueOf, Combine, OnlyPadding;
    assert s[i..][1..] == s[i + 1..];
  }

  /** The same for what has been written so far followed by what is still to come. */
  lemma StepInto(out: seq<Byte>, s: seq<Byte>, i: nat, a: Alphabet, strict: bool, last: Sextet, bits: nat)
    requires i < |s| && IsBits(bits)
    ensures Append(out, DecodedFrom(s[i..], a, strict, last, bits)) ==
            var l := ValueOf(a, s[i]);
            if s[i] == PAD then if strict && !OnlyPadding(s[i + 1..]) then Err(InvalidCharacter) else Ok(out)
            else if l.NoValue? then Err(InvalidCharacter)
            else Append(out + (if bits == 0 then [] else [Combine(last, bits, l.v)]),
                        DecodedFrom(s[i + 1..], l.a, strict, l.v, if bits == 0 then 6 else bits - 2))
  {
    hide ValueOf, Combine, DecodedFrom, OnlyPadding;
    StepAt(s, i, a, strict, last, bits);
    var l := ValueOf(a, s[i]);
    if s[i] == PAD {
      assert out + [] == out;
    } else if l.Value? {
      if bits == 0 { assert out + [] == out; }
      else { AppendPrepend(out, Combine(last, bits, l.v), DecodedFrom(s[i + 1..], l.a, strict, l.v, bits - 2)); }
    }
  }

  lemma AtEnd(s: seq<Byte>, out: seq<Byte>, a: Alphabet, strict: bool, last: Sextet, bits: nat)
    requires IsBits(bits)
    ensures DecodedFrom(s[|s|..], a, strict, last, bits) == Ok([])
    ensures Append(out, Ok([])) == Ok(out)
    ensures OnlyPadding(s[|s|..])
  {
    assert out + [] == out;
  }

  method RestIsPadding(s: seq<Byte>, from: nat) returns (ok: bool)
    requires from <= |s|
    ensures ok == OnlyPadding(s[from..])
  {
    var i := from;
    while i < |s|
      invariant from <= i <= |s| && forall k | from <= k < i :: s[k] == PAD
    {
      if s[i] != PAD {
        assert s[from..][i - from] != PAD;
        return false;
      }
      i := i + 1;
    }
    ok := true;
  }

  method Decode(s: seq<Byte>, alphabet: Alphabet, strict: bool) returns (r: Result<seq<Byte>, Mistake>)
    ensures r == Decoded(s, alphabet, strict)
    ensures r.Ok? ==> |r.value| <= MaxDecodeSize(|s|)
    ensures r.Ok? <==> Accepted(s, alphabet, strict)
  {
    DecodedSize(s, alphabet, strict, 0, 0);
    AcceptedIff(s, alphabet, strict, 0, 0);
    hide ValueOf, Combine, Accepted, OnlyPadding, DecodedFrom;
    var out: seq<Byte> := [];
    var last: Sextet, bits: nat := 0, 0;
    var a, i := alphabet, 0;
    assert s[0..] == s;
    ghost var goal := DecodedFrom(s, alphabet, strict, 0, 0);
    AppendToNothing(goal);
    while i < |s|
      invariant i <= |s| && IsBits(bits)
      invariant Append(out, DecodedFrom(s[i..], a, strict, last, bits)) == goal
    {
      StepAt(s, i, a, strict, last, bits);
      var c := s[i];
      i := i + 1;
      if c == PAD {
        AtEnd(s, out, a, strict, last, bits);
        if strict {
          var padded := RestIsPadding(s, i);
          if !padded {
            return Err(InvalidCharacter);
          }
        }
        return Ok(out);
      }
      var part := ValueOf(a, c);
      if part.NoValue? {
        return Err(InvalidCharacter);
      }
      a := part.a;
      if bits + 6 >= 8 {
        AppendPrepend(out, Combine(last, bits, part.v), DecodedFrom(s[i..], a, strict, part.v, bits - 2));
        out := out + [Combine(last, bits, part.v)];
        bits := bits - 2;
      } else {
        bits := bits + 6;
      }
      last := part.v;
    }
    AtEnd(s, out, a, strict, last, bits);
    r := Ok(out);
  }

  /** Decodes the character at position i of a buffer into its front. What is written stands before the
      next unread position, i + 1, and everything unread stays as it is. */
  method DecodeOneInPlace(buf: array<Byte>, i: nat, out: nat, a: Alphabet, last: Sextet, bits: nat)
      returns (ok: bool, out': nat, a': Alphabet, last': Sextet, bits': nat)
    requires i < buf.Length && IsBits(bits) && 8 * out + bits == 6 * i
    modifies buf
    ensures ok == ValueOf(a, old(buf[i])).Value?
    ensures out' <= i + 1
    ensures forall k | out' <= k < buf.Length :: buf[k] == old(buf[k])
    ensures ok ==>
      && IsBits(bits') && bits' == (if bits == 0 then 6 else bits - 2) && 8 * out' + bits' == 6 * (i + 1)
      && ValueOf(a, old(buf[i])) == Value(last', a')
      && buf[..out'] == old(buf[..out]) + if bits == 0 then [] else [Combine(last, bits, last')]
  {
    hide ValueOf, Combine;
    ok, out', a', last', bits' := false, out, a, last, bits;
    var part := ValueOf(a, buf[i]);
    if part.NoValue? {
      return;
    }
    ok, a', last' := true, part.a, part.v;
    if bits + 6 >= 8 {
      buf[out] := Combine(last, bits, part.v);
      out' := out + 1;
      assert buf[..out'] == buf[..out] + [buf[out]];
      bits' := bits - 2;
    } else {
      bits' := bits + 6;
    }
  }

  /** Decodes a buffer into its own front; nothing behind the decoded bytes changes. */
  method DecodeInPlace(buf: array<Byte>, alphabet: Alphabet, strict: bool) returns (ok: bool, len: nat)
    modifies buf
    ensures ok <==> Decoded(old(buf[..]), alphabet, strict).Ok?
    ensures ok ==> len <= buf.Length && Decoded(old(buf[..]), alphabet, strict) == Ok(buf[..len])
    ensures ok ==> forall k | len <= k < buf.Length :: buf[k] == old(buf[k])
  {
    hide ValueOf, Combine, OnlyPadding, DecodedFrom;
    ghost var s := buf[..];
    var last: Sextet, bits: nat := 0, 0;
    var a, i, out := alphabet, 0, 0;
    assert s[0..] == s && buf[..0] == [];
    ghost var goal := DecodedFrom(s, alphabet, strict, 0, 0);
    AppendToNothing(goal);
    hide Append;
    while i < buf.Length
      invariant i <= buf.Length && IsBits(bits)
      invariant 8 * out + bits == 6 * i
      invariant forall k | out <= k < buf.Length :: buf[k] == s[k]
      invariant Append(buf[..out], DecodedFrom(s[i..], a, strict, last, bits)) == goal
    {
      assert buf[i] == s[i];
      StepInto(buf[..out], s, i, a, strict, last, bits);
      if buf[i] == PAD {
        if strict {
          assert buf[..][i + 1..] == s[i + 1..];
          var padded := RestIsPadding(buf[..], i + 1);
          if !padded {
            return false, 0;
          }
        }
        return true, out;
      }
      var good, out', a', last', bits' := DecodeOneInPlace(buf, i, out, a, last, bits);
      if !good {
        return false, 0;
      }
      i, out, a, last, bits := i + 1, out', a', last', bits';
    }
    AtEnd(s, buf[..out], a, strict, last, bits);
    ok, len := true, out;
  }

  // ---------------------------------------------------------------- sizes and acceptance

  lemma {:induction false} DecodedSize(s: seq<Byte>, a: Alphabet, strict: bool, last: Sextet, bits: nat)
    requires IsBits(bits)
    ensures var r := DecodedFrom(s, a, strict, last, bits);
            r.Ok? ==> 8 * |r.value| <= 6 * |s| + bits && (bits == 0 ==> |r.value| <= MaxDecodeSize(|s|))
    decreases |s|
  {
    hide ValueOf, Combine;
    if s != [] && s[0] != PAD {
      var l := ValueOf(a, s[0]);
      if l.Value? {
        DecodedSize(s[1..], l.a, strict, l.v, if bits + 6 >= 8 then bits - 2 else bits + 6);
      }
    }
  }

  function DataLength(s: seq<Byte>): (n: nat)
    ensures n <= |s|
  {
    if s == [] || s[0] == PAD then 0 else 1 + DataLength(s[1..])
  }

  predicate IsCommon(c: Byte) {
    'A' as int <= c <= 'Z' as int || 'a' as int <= c <= 'z' as int || '0' as int <= c <= '9' as int
  }

  /** What decoding accepts: characters of one alphabet (of the given one, if it is given), then
      padding; in strict mode nothing but padding after the first padding character. */
  predicate Accepted(s: seq<Byte>, a: Alphabet, strict: bool) {
    var n := DataLength(s);
    && (forall i | 0 <= i < n ::
          IsCommon(s[i]) || (IsStandardOnly(s[i]) && a != UrlSafe) || (IsUrlOnly(s[i]) && a != Standard))
    && !(exists i, j | 0 <= i < n && 0 <= j < n :: IsStandardOnly(s[i]) && IsUrlOnly(s[j]))
    && (strict ==> OnlyPadding(s[n..]))
  }

  lemma {:induction false} AcceptedIff(s: seq<Byte>, a: Alphabet, strict: bool, last: Sextet, bits: nat)
    requires IsBits(bits)
    ensures DecodedFrom(s, a, strict, last, bits).Ok? <==> Accepted(s, a, strict)
    decreases |s|
  {
    hide Combine;
    if s == [] {
    } else if s[0] == PAD {
      assert s[0..] == s;
      assert s == [s[0]] + s[1..];
    } else {
      var l := ValueOf(a, s[0]);
      if l.Value? {
        AcceptedIff(s[1..], l.a, strict, l.v, if bits + 6 >= 8 then bits - 2 else bits + 6);
        AcceptedCons(s, a, strict);
      }
    }
  }

  lemma AcceptedCons(s: seq<Byte>, a: Alphabet, strict: bool)
    requires s != [] && s[0] != PAD && ValueOf(a, s[0]).Value?
    ensures Accepted(s, a, strict) <==> Accepted(s[1..], ValueOf(a, s[0]).a, strict)
  {
    var t, b, n := s[1..], ValueOf(a, s[0]).a, DataLength(s);
    assert DataLength(t) == n - 1 && s[n..] == t[n - 1..];
    assert forall i | 1 <= i < n :: s[i] == t[i - 1];
    assert forall i | 0 <= i < n - 1 :: t[i] == s[i + 1];
    if Accepted(t, b, strict) {
      forall i | 0 <= i < n
        ensures IsCommon(s[i]) || (IsStandardOnly(s[i]) && a != UrlSafe) || (IsUrlOnly(s[i]) && a != Standard)
      {
      }
    }
  }

  // ---------------------------------------------------------------- round trip

  predicate Compatible(detected: Alphabet, a: Alphabet) {
    detected == Auto || detected == a || (detected == Standard && a == Auto)
  }

  lemma ValueOfLetter(detected: Alphabet, a: Alphabet, v: Sextet)
    requires Compatible(detected, a)
    ensures var l := ValueOf(detected, Letter(a, v));
            l.Value? && l.v == v && Compatible(l.a, a) && Letter(a, v) != PAD
  {
  }

  lemma DecodeStep(s: seq<Byte>, d: Alphabet, a: Alphabet, strict: bool, last: Sextet, bits: nat, v: Sextet)
    returns (d': Alphabet)
    requires IsBits(bits) && s != [] && s[0] == Letter(a, v) && Compatible(d, a)
    ensures Compatible(d', a)
    ensures DecodedFrom(s, d, strict, last, bits) ==
            if bits == 0 then DecodedFrom(s[1..], d', strict, v, 6)
            else Prepend(Combine(last, bits, v), DecodedFrom(s[1..], d', strict, v, bits - 2))
  {
    hide Letter, ValueOf, Combine;
    ValueOfLetter(d, a, v);
    d' := ValueOf(d, s[0]).a;
  }

  lemma CombineFirst(b0: Byte, b1: Byte)
    ensures Combine(b0 / 4, 6, b0 % 4 * 16 + b1 / 16) == b0
  {
    assert b1 / 16 < 16 && (b0 % 4 * 16 + b1 / 16) / 16 == b0 % 4;
  }

  lemma CombineSecond(b0: Byte, b1: Byte, b2: Byte)
    ensures Combine(b0 % 4 * 16 + b1 / 16, 4, b1 % 16 * 4 + b2 / 64) == b1
  {
    var hi := b1 / 16;
    assert hi < 16 && (b0 % 4 * 16 + hi) * 16 == b0 % 4 * 256 + hi * 16;
    assert (b0 % 4 * 256 + hi * 16) % 256 == hi * 16;
    assert (b1 % 16 * 4 + b2 / 64) / 4 == b1 % 16;
  }

  lemma CombineThird(b1: Byte, b2: Byte)
    ensures Combine(b1 % 16 * 4 + b2 / 64, 2, b2 % 64) == b2
  {
    var hi := b2 / 64;
    assert hi < 4 && (b1 % 16 * 4 + hi) * 64 == b1 % 16 * 256 + hi * 64;
    assert (b1 % 16 * 256 + hi * 64) % 256 == hi * 64;
  }

  lemma PaddingStops(s: seq<Byte>, d: Alphabet, strict: bool, last: Sextet, bits: nat)
    requires IsBits(bits) && s != [] && OnlyPadding(s)
    ensures DecodedFrom(s, d, strict, last, bits) == Ok([])
  {
  }

  /** Decoding an encoding with its own or the detected alphabet, in either mode, returns the input. */
  lemma {:induction false} RoundTrip(b: seq<Byte>, a: Alphabet, d: Alphabet, strict: bool, last: Sextet)
    requires Compatible(d, a)
    ensures DecodedFrom(Encoded(b, a), d, strict, last, 0) == Ok(b)
    decreases |b|
  {
    hide Letter, Combine, DecodedFrom;
    if b == [] {
      NothingToDecode(d, strict, last);
    } else {
      var s := Encoded(b, a);
      var b1, b2 := if |b| > 1 then b[1] else 0, if |b| > 2 then b[2] else 0;
      var v0, v1, v2, v3 := b[0] / 4, b[0] % 4 * 16 + b1 / 16, b1 % 16 * 4 + b2 / 64, b2 % 64;
      CombineFirst(b[0], b1);
      CombineSecond(b[0], b1, b2);
      CombineThird(b1, b2);
      var d1 := DecodeStep(s, d, a, strict, last, 0, v0);
      assert s[1..][0] == Letter(a, v1);
      var d2 := DecodeStep(s[1..], d1, a, strict, v0, 6, v1);
      assert s[1..][1..] == s[2..];
      if |b| == 1 {
        PaddingStops(s[2..], d2, strict, v1, 4);
        assert [b[0]] + [] == b;
      } else {
        assert s[2..][0] == Letter(a, v2);
        var d3 := DecodeStep(s[2..], d2, a, strict, v1, 4, v2);
        assert s[2..][1..] == s[3..];
        if |b| == 2 {
          PaddingStops(s[3..], d3, strict, v2, 2);
          assert [b[0]] + ([b[1]] + []) == b;
        } else {
          assert s[3..][0] == Letter(a, v3);
          var d4 := DecodeStep(s[3..], d3, a, strict, v2, 2, v3);
          assert s[3..][1..] == Encoded(b[3..], a);
          RoundTrip(b[3..], a, d4, strict, v3);
          assert [b[0]] + ([b[1]] + ([b[2]] + b[3..])) == b;
        }
      }
    }
  }

  lemma NothingToDecode(d: Alphabet, strict: bool, last: Sextet)
    ensures DecodedFrom([], d, strict, last, 0) == Ok([])
  {
  }

  /** The documented round trip, for both alphabets, both detection settings and both modes. */
  lemma DecodeOfEncode(b: seq<Byte>, a: Alphabet, strict: bool)
    ensures Decoded(Encoded(b, a), a, strict) == Ok(b)
    ensures Decoded(Encoded(b, a), Auto, strict) == Ok(b)
  {
    RoundTrip(b, a, a, strict, 0);
    RoundTrip(b, a, Auto, strict, 0);
  }

  /** Distinct byte strings have distinct encodings. */
  lemma EncodingIsInjective(b: seq<Byte>, c: seq<Byte>, a: Alphabet)
    requires Encoded(b, a) == Encoded(c, a)
    ensures b == c
  {
    DecodeOfEncode(b, a, true);
    DecodeOfEncode(c, a, true);
  }
}
