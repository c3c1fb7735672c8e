/** Rewriting Python-style quotes to JSON quotes in a streamed container value. */
module QuoteNormalizer {
  import B = BraceScanner
  import opened Sequences

  datatype Mode = Outside | InSingle | InDouble

  // ---------------------------------------------------------------- what a text means

  /** What a reader of either quote style sees: characters between literals, and literals as the
      characters they denote. A quote character denotes itself whether or not it is escaped; every
      other escape pair is kept as such; a backslash that ends the text stays a backslash. */
  datatype Token = Text(c: char) | Open | Char(c: char) | Escaped(c: char) | Close

  function Denotes(next: char): Token {
    if next == '\'' || next == '"' then Char(next) else Escaped(next)
  }

  function Meaning(m: Mode, s: string): seq<Token>
    decreases |s|
  {
    if s == [] then []
    else if m == Outside then
      if s[0] == '"' then [Open] + Meaning(InDouble, s[1..])
      else if s[0] == '\'' then [Open] + Meaning(InSingle, s[1..])
      else [Text(s[0])] + Meaning(Outside, s[1..])
    else if s[0] == '\\' && |s| >= 2 then [Denotes(s[1])] + Meaning(m, s[2..])
    else if s[0] == (if m == InSingle then '\'' else '"') then [Close] + Meaning(Outside, s[1..])
    else [Char(s[0])] + Meaning(m, s[1..])
  }

  /** No literal of the text is single-quoted. */
  predicate DoubleOnly(m: Mode, s: string)
    decreases |s|
  {
    if s == [] then m != InSingle
    else if m == InSingle then false
    else if m == Outside then
      s[0] != '\'' && DoubleOnly(if s[0] == '"' then InDouble else Outside, s[1..])
    else if s[0] == '\\' && |s| >= 2 then DoubleOnly(InDouble, s[2..])
    else DoubleOnly(if s[0] == '"' then Outside else InDouble, s[1..])
  }

  /** Braces of a token list, ignoring everything inside literals. */
  function BraceBalance(ts: seq<Token>): int {
    if ts == [] then 0
    else (if ts[0] == Text('{') then 1 else if ts[0] == Text('}') then -1 else 0) + BraceBalance(ts[1..])
  }

  // ---------------------------------------------------------------- the transducer

  function Normalized(m: Mode, s: string): string
    decreases |s|
  {
    if s == [] then []
    else if s[0] == '\\' && |s| >= 2 && m == InSingle then
      (if s[1] == '\'' then "'" else [s[0], s[1]]) + Normalized(m, s[2..])
    else if s[0] == '\\' && |s| >= 2 && m == InDouble then [s[0], s[1]] + Normalized(m, s[2..])
    else if s[0] == '"' && m == InSingle then "\\\"" + Normalized(m, s[1..])
    else if s[0] == '"' then "\"" + Normalized(if m == InDouble then Outside else InDouble, s[1..])
    else if s[0] == '\'' && m == InSingle then "\"" + Normalized(Outside, s[1..])
    else if s[0] == '\'' && m == Outside then "\"" + Normalized(InSingle, s[1..])
    else [s[0]] + Normalized(m, s[1..])
  }

  function ModeOf(inSingle: bool, inDouble: bool): Mode {
    if inSingle then InSingle else if inDouble then InDouble else Outside
  }

  /** One pass of the loop: what the character at hand, or the escape it begins, adds to the output. */
  method NormalizeOne(input: string, i: nat, inSingle: bool, inDouble: bool)
      returns (piece: string, i': nat, inSingle': bool, inDouble': bool)
    requires i < |input| && !(inSingle && inDouble)
    ensures i < i' <= |input| && !(inSingle' && inDouble')
    ensures Normalized(ModeOf(inSingle, inDouble), input[i..]) ==
            piece + Normalized(ModeOf(inSingle', inDouble'), input[i'..])
  {
    ghost var rest := input[i..];
    assert rest[1..] == input[i + 1..];
    assert |rest| >= 2 ==> rest[2..] == input[i + 2..];
    i', inSingle', inDouble' := i + 1, inSingle, inDouble;
    var c := input[i];
    piece := [c];
    if c == '\\' && i + 1 < |input| {
      var next := input[i + 1];
      if inSingle {
        if next == '\'' {
          piece := "'";
        } else if next == '"' {
          piece := "\\\"";
        } else {
          piece := [c, next];
        }
        i' := i + 2;
      } else if inDouble {
        piece := [c, next];
        i' := i + 2;
      }
    } else if c == '"' {
      if inSingle {
        piece := "\\\"";
      } else {
        inDouble' := !inDouble;
      }
    } else if c == '\'' {
      if inSingle {
        inSingle' := false;
        piece := "\"";
      } else if !inDouble {
        inSingle' := true;
        piece := "\"";
      }
    }
  }

  lemma NothingNormalized(m: Mode)
    ensures Normalized(m, "") == ""
  {
  }

  method NormalizeQuotesToJson(input: string) returns (result: string)
    ensures result == Normalized(Outside, input)
    ensures Meaning(Outside, result) == Meaning(Outside, input)
    ensures DoubleOnly(Outside, result)
  {
    hide Normalized, Meaning, DoubleOnly;
    result := "";
    var inSingle, inDouble := false, false;
    var i := 0;
    assert input[0..] == input;
    while i < |input|
      invariant 0 <= i <= |input|
      invariant !(inSingle && inDouble)
      invariant result + Normalized(ModeOf(inSingle, inDouble), input[i..]) == Normalized(Outside, input)
    {
      var piece, i', inSingle', inDouble' := NormalizeOne(input, i, inSingle, inDouble);
      Regroup(result, piece, Normalized(ModeOf(inSingle', inDouble'), input[i'..]));
      result := result + piece;
      i, inSingle, inDouble := i', inSingle', inDouble';
    }
    assert input[i..] == "";
    NothingNormalized(ModeOf(inSingle, inDouble));
    assert result + "" == result;
    PreservesMeaning(Outside, input);
    OutputIsDoubleQuoted(Outside, input);
  }

  // ---------------------------------------------------------------- meaning preservation

  function After(m: Mode): Mode {
    if m == InSingle then InDouble else m
  }

  lemma ReadsPiece(m: Mode, piece: string, rest: string)
    requires m != InSingle && |piece| == 1
    requires m == InDouble ==> piece[0] != '\\' || rest == []
    ensures Meaning(m, piece + rest) ==
            if m == Outside && piece[0] == '"' then [Open] + Meaning(InDouble, rest)
            else if m == Outside && piece[0] == '\'' then [Open] + Meaning(InSingle, rest)
            else if m == Outside then [Text(piece[0])] + Meaning(Outside, rest)
            else if piece[0] == '"' then [Close] + Meaning(Outside, rest)
            else [Char(piece[0])] + Meaning(InDouble, rest)
    ensures DoubleOnly(m, piece + rest) ==
            if m == Outside then piece[0] != '\'' && DoubleOnly(if piece[0] == '"' then InDouble else Outside, rest)
            else DoubleOnly(if piece[0] == '"' then Outside else InDouble, rest)
  {
    assert (piece + rest)[1..] == rest;
  }

  lemma ReadsEscape(x: char, rest: string)
    ensures Meaning(InDouble, ['\\', x] + rest) == [Denotes(x)] + Meaning(InDouble, rest)
    ensures DoubleOnly(InDouble, ['\\', x] + rest) == DoubleOnly(InDouble, rest)
  {
    assert (['\\', x] + rest)[2..] == rest;
  }

  /** Text between literals is unchanged, and each literal of either style denotes the same
      characters before and after. */
  lemma {:induction false} PreservesMeaning(m: Mode, s: string)
    ensures Meaning(After(m), Normalized(m, s)) == Meaning(m, s)
    decreases |s|
  {
    if s == [] {
    } else if s[0] == '\\' && |s| >= 2 && m != Outside {
      var rest := Normalized(m, s[2..]);
      PreservesMeaning(m, s[2..]);
      if m == InSingle && s[1] == '\'' {
        ReadsPiece(InDouble, "'", rest);
      } else {
        ReadsEscape(s[1], rest);
      }
    } else if s[0] == '"' && m == InSingle {
      PreservesMeaning(m, s[1..]);
      ReadsEscape('"', Normalized(m, s[1..]));
    } else {
      var m' := NextMode(m, s[0]);
      PreservesMeaning(m', s[1..]);
      var out := if s[0] == '\'' && m != InDouble then '"' else s[0];
      assert Normalized(m, s) == [out] + Normalized(m', s[1..]);
      ReadsPiece(After(m), [out], Normalized(m', s[1..]));
    }
  }

  /** The mode after one unescaped character. */
  function NextMode(m: Mode, c: char): Mode {
    if m == Outside then (if c == '"' then InDouble else if c == '\'' then InSingle else Outside)
    else if c == (if m == InSingle then '\'' else '"') then Outside
    else m
  }

  /** The output uses double quotes only. */
  lemma {:induction false} OutputIsDoubleQuoted(m: Mode, s: string)
    ensures DoubleOnly(After(m), Normalized(m, s))
    decreases |s|
  {
    if s == [] {
    } else if s[0] == '\\' && |s| >= 2 && m != Outside {
      var rest := Normalized(m, s[2..]);
      OutputIsDoubleQuoted(m, s[2..]);
      if m == InSingle && s[1] == '\'' {
        ReadsPiece(InDouble, "'", rest);
      } else {
        ReadsEscape(s[1], rest);
      }
    } else if s[0] == '"' && m == InSingle {
      OutputIsDoubleQuoted(m, s[1..]);
      ReadsEscape('"', Normalized(m, s[1..]));
    } else {
      var m' := NextMode(m, s[0]);
      OutputIsDoubleQuoted(m', s[1..]);
      var out := if s[0] == '\'' && m != InDouble then '"' else s[0];
      assert Normalized(m, s) == [out] + Normalized(m', s[1..]);
      ReadsPiece(After(m), [out], Normalized(m', s[1..]));
    }
  }

  /** A text without single-quoted literals is left exactly as it is. */
  lemma {:induction false} KeepsDoubleQuotedText(m: Mode, s: string)
    requires DoubleOnly(m, s)
    ensures Normalized(m, s) == s
    decreases |s|
  {
    if s == [] {
    } else if s[0] == '\\' && |s| >= 2 && m == InDouble {
      KeepsDoubleQuotedText(m, s[2..]);
      assert s == [s[0], s[1]] + s[2..];
    } else {
      KeepsDoubleQuotedText(NextMode(m, s[0]), s[1..]);
    }
  }

  /** A second pass changes nothing. */
  lemma Idempotent(s: string)
    ensures Normalized(Outside, Normalized(Outside, s)) == Normalized(Outside, s)
  {
    OutputIsDoubleQuoted(Outside, s);
    KeepsDoubleQuotedText(Outside, Normalized(Outside, s));
  }

  // ---------------------------------------------------------------- brace depth

  lemma {:induction false} ScannerFollowsMeaning(m: Mode, d: int, s: string)
    requires DoubleOnly(m, s)
    ensures B.Run(B.Scan(d, m == InDouble, false), s).depth == d + BraceBalance(Meaning(m, s))
    decreases |s|
  {
    if s == [] {
    } else if s[0] == '\\' && |s| >= 2 && m == InDouble {
      assert s[1..][1..] == s[2..];
      var st := B.Scan(d, true, false);
      assert B.Step(B.Step(st, s[0]), s[1]) == st;
      assert B.Run(st, s) == B.Run(st, s[2..]);
      ScannerFollowsMeaning(m, d, s[2..]);
    } else if s[0] == '\\' && m == InDouble {
      assert s[1..] == [];
    } else {
      var st := B.Step(B.Scan(d, m == InDouble, false), s[0]);
      ScannerFollowsMeaning(NextMode(m, s[0]), st.depth, s[1..]);
    }
  }

  /** The depth counted on the output is the depth of the input when braces inside literals of
      either quote style are ignored. */
  lemma DepthOfOutput(input: string)
    ensures B.Run(B.START, Normalized(Outside, input)).depth == BraceBalance(Meaning(Outside, input))
  {
    PreservesMeaning(Outside, input);
    OutputIsDoubleQuoted(Outside, input);
    ScannerFollowsMeaning(Outside, 0, Normalized(Outside, input));
  }

  // ---------------------------------------------------------------- unfinished texts

  /** The text ends in a backslash inside a single-quoted literal: what it escapes is still to come. */
  predicate EndsInEscape(m: Mode, s: string)
    decreases |s|
  {
    if s == [] then false
    else if s[0] == '\\' && m != Outside then if |s| == 1 then m == InSingle else EndsInEscape(m, s[2..])
    else EndsInEscape(NextMode(m, s[0]), s[1..])
  }

  lemma SamePrefix(p: string, a: string, b: string)
    ensures p + a <= p + b <==> a <= b
  {
    if p + a <= p + b {
      assert a == (p + a)[|p|..] && (p + b)[|p|..][..|a|] == (p + b)[..|p + a|][|p|..];
      assert (p + b)[|p|..] == b;
    }
  }

  /** The piece for one character that begins no escape. */
  function Piece(m: Mode, c: char): string {
    if c == '"' && m == InSingle then "\\\"" else if c == '\'' && m != InDouble then "\"" else [c]
  }

  lemma PieceFirst(m: Mode, s: string)
    requires s != [] && (s[0] == '\\' && |s| >= 2 ==> m == Outside)
    ensures Normalized(m, s) == Piece(m, s[0]) + Normalized(NextMode(m, s[0]), s[1..])
  {
  }

  /** While a text grows, what it is rewritten to grows too, up to one case: a backslash that ended the text
      inside single quotes turns out to escape a single quote, and is taken back. */
  lemma {:induction false} GrowsIff(m: Mode, s: string, t: string)
    requires s <= t
    ensures Normalized(m, s) <= Normalized(m, t) <==> !(EndsInEscape(m, s) && |s| < |t| && t[|s|] == '\'')
    decreases |s|
  {
    hide Normalized;
    if s == [] {
      NothingNormalized(m);
    } else if s[0] == '\\' && m != Outside {
      if |s| == 1 {
        EscapeBegun(m, s, t);
      } else {
        EscapeFirst(m, s);
        EscapeFirst(m, t);
        GrowsIff(m, s[2..], t[2..]);
        SamePrefix(EscapePiece(m, s[1]), Normalized(m, s[2..]), Normalized(m, t[2..]));
      }
    } else {
      PieceFirst(m, s);
      PieceFirst(m, t);
      var m' := NextMode(m, s[0]);
      GrowsIff(m', s[1..], t[1..]);
      SamePrefix(Piece(m, s[0]), Normalized(m', s[1..]), Normalized(m', t[1..]));
    }
  }

  function EscapePiece(m: Mode, next: char): string {
    if m == InSingle && next == '\'' then "'" else ['\\', next]
  }

  lemma EscapeFirst(m: Mode, s: string)
    requires |s| >= 2 && s[0] == '\\' && m != Outside
    ensures Normalized(m, s) == EscapePiece(m, s[1]) + Normalized(m, s[2..])
  {
  }

  lemma EscapeBegun(m: Mode, s: string, t: string)
    requires |s| == 1 && s[0] == '\\' && s <= t && m != Outside
    ensures Normalized(m, s) <= Normalized(m, t) <==> !(m == InSingle && |t| > 1 && t[1] == '\'')
  {
    assert s[1..] == "" && Normalized(m, s) == ['\\'] + Normalized(m, s[1..]);
    NothingNormalized(m);
    assert Normalized(m, s) == ['\\'];
    if |t| > 1 { EscapeFirst(m, t); } else { assert t == s; }
  }
}
