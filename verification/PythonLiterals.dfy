/** What a JSON reader makes of a Python literal whose quotes have been rewritten: exactly the characters
    the literal denotes, if its escapes are ones that JSON has too. */
module PythonLiterals {
  import opened HexDigits
  import opened Json
  import Q = QuoteNormalizer

  function Closing(m: Q.Mode): char {
    if m == Q.InSingle then '\'' else '"'
  }

  // ---------------------------------------------------------------- Python's reading

  /** A code unit that is a character of its own, not half of a surrogate pair. */
  function PlainUnit(s: string): (r: Read<char>)
    ensures r.Done? ==> |s| >= 4 && r.rest == s[4..]
  {
    var n := Hex4(s);
    if 0 <= n < 0xD800 || 0xE000 <= n then Done(n as char, s[4..]) else Fail
  }

  /** What follows a backslash. An escaped slash is no escape in Python, and both characters stay. The
      escapes that only Python has, and halves of surrogate pairs, are not read here. */
  function ReadPythonEscape(s: string): (r: Read<string>)
    ensures r.Done? ==> |r.rest| < |s| && |r.value| >= 1
  {
    if s == [] then Fail
    else match s[0]
      case '\'' => Done("'", s[1..])
      case '"' => Done("\"", s[1..])
      case '\\' => Done("\\", s[1..])
      case '/' => Done("\\/", s[1..])
      case 'b' => Done([8 as char], s[1..])
      case 'f' => Done([12 as char], s[1..])
      case 'n' => Done("\n", s[1..])
      case 'r' => Done("\r", s[1..])
      case 't' => Done("\t", s[1..])
      case 'u' => var u := PlainUnit(s[1..]); if u.Done? then Done([u.value], u.rest) else Fail
      case _ => Fail
  }

  /** The characters of a literal of either quote style, from its inside to behind its closing quote. */
  function ReadPython(m: Q.Mode, s: string): (r: Read<string>)
    ensures r.Done? ==> |r.rest| < |s|
    decreases |s|
  {
    if s == [] then Fail
    else if s[0] == Closing(m) then Done([], s[1..])
    else if s[0] == '\\' then
      var e := ReadPythonEscape(s[1..]);
      if e.Fail? then Fail
      else
        var t := ReadPython(m, e.rest);
        if t.Fail? then Fail else Done(e.value + t.value, t.rest)
    else
      var t := ReadPython(m, s[1..]);
      if t.Fail? then Fail else Done([s[0]] + t.value, t.rest)
  }

  /** The literal is closed, holds no bare control character, and its escapes are those of JSON except the
      slash and surrogate pairs; a quote is escaped only as JSON allows, or as a single quote in single quotes. */
  predicate Portable(m: Q.Mode, s: string)
    decreases |s|
  {
    s != [] &&
    (s[0] == Closing(m) ||
     (if s[0] == '\\' then
        |s| >= 2 &&
        if s[1] == 'u' then PlainUnit(s[2..]).Done? && Portable(m, s[6..])
        else (s[1] in "\"\\bfnrt" || (s[1] == '\'' && m == Q.InSingle)) && Portable(m, s[2..])
      else s[0] >= ' ' && Portable(m, s[1..])))
  }

  // ---------------------------------------------------------------- the rewritten literal

  lemma {:induction false} HexIsKept(m: Q.Mode, s: string, k: nat)
    requires m != Q.Outside && k <= |s| && forall i | 0 <= i < k :: HexValue(s[i]) >= 0
    ensures Q.Normalized(m, s) == s[..k] + Q.Normalized(m, s[k..])
    decreases k
  {
    hide Q.Normalized;
    if k > 0 {
      HexIsKept(m, s[1..], k - 1);
      RewrittenChar(m, s);
      assert s[1..][k - 1..] == s[k..] && s[..k] == [s[0]] + s[1..][..k - 1];
    } else {
      assert s[..0] == [] && s[0..] == s;
    }
  }

  /** A character that begins the output is no hex digit when none begins the input. */
  lemma NoHexAppears(m: Q.Mode, s: string)
    requires m != Q.Outside && (s == [] || HexValue(s[0]) < 0)
    ensures var n := Q.Normalized(m, s);
            n == [] || HexValue(n[0]) < 0
  {
  }

  function HexRun(s: string): (k: nat)
    ensures k <= |s| && (forall i | 0 <= i < k :: HexValue(s[i]) >= 0) && (k < |s| ==> HexValue(s[k]) < 0)
  {
    if s == [] || HexValue(s[0]) < 0 then 0 else HexRun(s[1..]) + 1
  }

  /** Four hex digits are read as the same code unit before and after. */
  lemma UnitIsKept(m: Q.Mode, s: string)
    requires m != Q.Outside
    ensures Hex4(Q.Normalized(m, s)) == Hex4(s)
    ensures Hex4(s) >= 0 ==> Q.Normalized(m, s)[4..] == Q.Normalized(m, s[4..])
  {
    hide HexValue, Q.Normalized;
    var k := HexRun(s);
    var n := Q.Normalized(m, s);
    if k >= 4 {
      HexIsKept(m, s, 4);
      assert forall i | 0 <= i < 4 :: n[i] == s[i];
    } else {
      HexIsKept(m, s, k);
      NoHexAppears(m, s[k..]);
      var rest := Q.Normalized(m, s[k..]);
      assert forall i | 0 <= i < k :: n[i] == s[i];
      assert |n| > k ==> n[k] == rest[0];
      assert |s| > k ==> s[k..][0] == s[k];
    }
  }

  lemma QuotesConvert(x: string)
    ensures Q.Normalized(Q.Outside, "'" + x) == "\"" + Q.Normalized(Q.InSingle, x)
    ensures Q.Normalized(Q.Outside, "\"" + x) == "\"" + Q.Normalized(Q.InDouble, x)
    ensures Q.Normalized(Q.InSingle, "'" + x) == "\"" + Q.Normalized(Q.Outside, x)
    ensures Q.Normalized(Q.InDouble, "\"" + x) == "\"" + Q.Normalized(Q.Outside, x)
  {
    assert ("'" + x)[1..] == x && ("\"" + x)[1..] == x;
  }

  /** How the rewriting of a literal goes on after an escape. */
  lemma RewrittenEscape(m: Q.Mode, s: string)
    requires m != Q.Outside && |s| >= 2 && s[0] == '\\'
    ensures Q.Normalized(m, s) ==
            if s[1] == '\'' && m == Q.InSingle then "'" + Q.Normalized(m, s[2..])
            else "\\" + [s[1]] + Q.Normalized(m, s[2..])
  {
    assert "\\" + [s[1]] == [s[0], s[1]];
  }

  /** How it goes on after any other character. */
  lemma RewrittenChar(m: Q.Mode, s: string)
    requires m != Q.Outside && s != [] && (s[0] == '\\' ==> |s| == 1)
    ensures Q.Normalized(m, s) ==
            if s[0] == Closing(m) then "\"" + Q.Normalized(Q.Outside, s[1..])
            else if s[0] == '"' then "\\" + ['"'] + Q.Normalized(m, s[1..])
            else [s[0]] + Q.Normalized(m, s[1..])
  {
    assert "\\" + ['"'] == "\\\"";
  }

  lemma ReadsChar(c: char, rest: string)
    requires c != '"' && c != '\\'
    ensures ReadString([c] + rest) ==
            if c < ' ' then Fail
            else var t := ReadString(rest); if t.Fail? then Fail else Done([c] + t.value, t.rest)
  {
    assert ([c] + rest)[1..] == rest;
  }

  lemma ReadsClose(rest: string)
    ensures ReadString("\"" + rest) == Done([], rest)
  {
    assert ("\"" + rest)[1..] == rest;
  }

  lemma ReadsEscape(c: char, rest: string)
    ensures ReadString("\\" + [c] + rest) ==
            var e := ReadEscape([c] + rest);
            if e.Fail? then Fail
            else var t := ReadString(e.rest); if t.Fail? then Fail else Done([e.value] + t.value, t.rest)
    ensures ([c] + rest)[0] == c && ([c] + rest)[1..] == rest
  {
    assert ("\\" + [c] + rest)[1..] == [c] + rest;
  }

  /** A JSON reader gets a character for each escape it accepts; Python may get more, never fewer. */
  lemma {:induction false} NeverLonger(m: Q.Mode, s: string)
    requires m != Q.Outside && ReadPython(m, s).Done? && ReadString(Q.Normalized(m, s)).Done?
    ensures |ReadString(Q.Normalized(m, s)).value| <= |ReadPython(m, s).value|
    decreases |s|
  {
    hide ReadString, Q.Normalized, Hex4, ReadPythonEscape, ReadEscape;
    if s[0] == '\\' {
      EscapeNeverLonger(m, s);
    } else if s[0] == Closing(m) {
      RewrittenChar(m, s);
      ReadsClose(Q.Normalized(Q.Outside, s[1..]));
    } else {
      RewrittenChar(m, s);
      if s[0] == '"' { QuoteEscape(Q.Normalized(m, s[1..])); }
      else { ReadsChar(s[0], Q.Normalized(m, s[1..])); }
      NeverLonger(m, s[1..]);
    }
  }

  lemma QuoteEscape(rest: string)
    ensures ReadString("\\" + ['"'] + rest) ==
            var t := ReadString(rest); if t.Fail? then Fail else Done(['"'] + t.value, t.rest)
  {
    hide ReadString;
    ReadsEscape('"', rest);
  }

  lemma ShortEscapes(c: char, rest: string)
    requires c != 'u'
    ensures ReadEscape([c] + rest).Done? ==> ReadEscape([c] + rest).rest == rest
    ensures var p := ReadPythonEscape([c] + rest);
            p.Done? ==> p.rest == rest && |p.value| >= 1
  {
    assert ([c] + rest)[1..] == rest;
  }

  lemma {:induction false} EscapeNeverLonger(m: Q.Mode, s: string)
    requires m != Q.Outside && ReadPython(m, s).Done? && ReadString(Q.Normalized(m, s)).Done? && s[0] == '\\'
    ensures |ReadString(Q.Normalized(m, s)).value| <= |ReadPython(m, s).value|
    decreases |s|, 0
  {
    hide ReadString, Q.Normalized, Hex4;
    RewrittenEscape(m, s);
    var rest := Q.Normalized(m, s[2..]);
    assert s[1..][1..] == s[2..];
    if s[1] == '\'' && m == Q.InSingle {
      ReadsChar('\'', rest);
      NeverLonger(m, s[2..]);
    } else {
      ReadsEscape(s[1], rest);
      if s[1] == 'u' {
        UnitIsKept(m, s[2..]);
        assert s[2..][4..] == s[6..];
        NeverLonger(m, s[6..]);
      } else {
        ShortEscapes(s[1], rest);
        ShortEscapes(s[1], s[2..]);
        assert s[1..] == [s[1]] + s[2..];
        hide ReadEscape, ReadPythonEscape;
        NeverLonger(m, s[2..]);
      }
    }
  }

  /** A JSON reader takes the rewritten literal to the characters Python takes the literal to, and goes on
      behind it. */
  ghost predicate SameCharacters(m: Q.Mode, s: string)
    requires m != Q.Outside
  {
    var p := ReadPython(m, s);
    p.Done? && ReadString(Q.Normalized(m, s)) == Done(p.value, Q.Normalized(Q.Outside, p.rest))
  }

  /** One more character, read alike by both, changes nothing. */
  lemma SameOnward(m: Q.Mode, s: string, c: char, t: string)
    requires m != Q.Outside
    requires ReadPython(m, s) == (var p := ReadPython(m, t); if p.Fail? then Fail else Done([c] + p.value, p.rest))
    requires ReadString(Q.Normalized(m, s)) ==
             (var j := ReadString(Q.Normalized(m, t)); if j.Fail? then Fail else Done([c] + j.value, j.rest))
    ensures SameCharacters(m, s) <==> SameCharacters(m, t)
  {
    hide ReadString, ReadPython, Q.Normalized;
    var p, j := ReadPython(m, t), ReadString(Q.Normalized(m, t));
    if p.Done? && j.Done? && [c] + p.value == [c] + j.value {
      assert p.value == ([c] + p.value)[1..] && j.value == ([c] + j.value)[1..];
    }
  }

  /** The rewriting serves a JSON reader exactly on the portable literals. */
  lemma {:induction false} PortableIff(m: Q.Mode, s: string)
    requires m != Q.Outside
    ensures Portable(m, s) <==> SameCharacters(m, s)
    decreases |s|
  {
    hide ReadString, Q.Normalized, Hex4;
    if s == [] {
    } else {
      if s[0] == Closing(m) {
        RewrittenChar(m, s);
        ReadsClose(Q.Normalized(Q.Outside, s[1..]));
      } else if s[0] == '\\' {
        if |s| >= 2 { EscapeIff(m, s); }
      } else {
        RewrittenChar(m, s);
        PortableIff(m, s[1..]);
        if s[0] == '"' { ReadsEscape('"', Q.Normalized(m, s[1..])); }
        else { ReadsChar(s[0], Q.Normalized(m, s[1..])); }
        if s[0] >= ' ' { SameOnward(m, s, s[0], s[1..]); }
      }
    }
  }

  /** An escaped slash is one character to a JSON reader and two to Python. */
  lemma SlashDiffers(m: Q.Mode, s: string)
    requires m != Q.Outside && |s| >= 2 && s[0] == '\\' && s[1] == '/'
    ensures !SameCharacters(m, s)
  {
    RewrittenEscape(m, s);
    var rest := Q.Normalized(m, s[2..]);
    ReadsEscape('/', rest);
    assert s[1..][1..] == s[2..] && s[1..][0] == '/';
    var p, j := ReadPython(m, s[2..]), ReadString(rest);
    hide ReadString, Q.Normalized;
    if p.Done? && j.Done? {
      NeverLonger(m, s[2..]);
      assert |ReadPython(m, s).value| == 2 + |p.value|;
      assert |ReadString(Q.Normalized(m, s)).value| == 1 + |j.value|;
    }
  }

  lemma {:induction false} UnitIff(m: Q.Mode, s: string)
    requires m != Q.Outside && |s| >= 2 && s[0] == '\\' && s[1] == 'u'
    ensures Portable(m, s) <==> SameCharacters(m, s)
    decreases |s|, 0
  {
    hide ReadString, Q.Normalized, Hex4;
    RewrittenEscape(m, s);
    ReadsEscape('u', Q.Normalized(m, s[2..]));
    assert s[1..][1..] == s[2..] && s[1..][0] == 'u';
    UnitIsKept(m, s[2..]);
    var u := PlainUnit(s[2..]);
    if u.Done? {
      assert s[2..][4..] == s[6..];
      PortableIff(m, s[6..]);
      SameOnward(m, s, u.value, s[6..]);
    }
  }

  lemma {:induction false} EscapeIff(m: Q.Mode, s: string)
    requires m != Q.Outside && |s| >= 2 && s[0] == '\\'
    ensures Portable(m, s) <==> SameCharacters(m, s)
    decreases |s|, 1
  {
    hide ReadString, Q.Normalized, Hex4;
    RewrittenEscape(m, s);
    var rest := Q.Normalized(m, s[2..]);
    assert s[1..][1..] == s[2..] && s[1..][0] == s[1];
    if s[1] == '\'' && m == Q.InSingle {
      PortableIff(m, s[2..]);
      ReadsChar('\'', rest);
      SameOnward(m, s, '\'', s[2..]);
    } else {
      ReadsEscape(s[1], rest);
      if s[1] == 'u' {
        UnitIff(m, s);
      } else if s[1] == '/' {
        SlashDiffers(m, s);
      } else if s[1] in "\"\\bfnrt" {
        PortableIff(m, s[2..]);
        SameOnward(m, s, ReadEscape([s[1]] + rest).value, s[2..]);
      }
    }
  }

  /** In the rewritten text a portable literal is a JSON string with Python's characters, and what follows
      it is rewritten on its own. */
  lemma LiteralBecomesJson(m: Q.Mode, s: string)
    requires m != Q.Outside && Portable(m, s)
    ensures var p := ReadPython(m, s);
            p.Done? && ReadValue(Q.Normalized(Q.Outside, [Closing(m)] + s)) == Done(Str(p.value), Q.Normalized(Q.Outside, p.rest))
  {
    hide ReadString, ReadPython, ReadValue, Q.Normalized;
    PortableIff(m, s);
    QuotesConvert(s);
    assert [Closing(m)] + s == if m == Q.InSingle then "'" + s else "\"" + s;
    StringIsValue(Q.Normalized(m, s));
  }

  /** A text that begins with a double quote is read as a string or not at all. */
  lemma StringIsValue(x: string)
    ensures ReadValue("\"" + x) ==
            var r := ReadString(x);
            if r.Fail? then Fail else Done(Str(r.value), r.rest)
  {
    hide ReadString, ReadScalar, ReadItems, ReadMembers;
    var all := "\"" + x;
    assert all[1..] == x && SkipWs(all) == all;
  }

  /** An escaped single quote in double quotes is Python, but no JSON: the rewriting keeps it. */
  lemma ApostropheExample()
    ensures ReadPython(Q.InDouble, "it\\'s\"") == Done("it's", "") && !Portable(Q.InDouble, "it\\'s\"")
    ensures Parse(Q.Normalized(Q.Outside, "\"it\\'s\"")).Fail?
  {
    hide ReadPython, Portable, ReadString, Q.Normalized, ReadValue;
    var s := "it\\'s\"";
    assert s[1..] == "t\\'s\"" && s[2..] == "\\'s\"" && s[3..] == "'s\"" && s[4..] == "s\"" && s[5..] == "\"" && s[6..] == "";
    PythonApostrophe(s);
    JsonApostrophe(s);
    assert "\"" + s == "\"it\\'s\"";
    QuotesConvert(s);
    StringIsValue(s);
  }

  lemma PythonApostrophe(s: string)
    requires |s| == 6 && s[0] == 'i' && s[1] == 't' && s[2] == '\\' && s[3] == '\'' && s[4] == 's' && s[5] == '"'
    ensures ReadPython(Q.InDouble, s) == Done("it's", "") && !Portable(Q.InDouble, s)
  {
    var m := Q.InDouble;
    assert ReadPython(m, s[5..]) == Done("", "") by { assert s[5..][1..] == ""; }
    assert ReadPython(m, s[4..]) == Done("s", "") by { assert s[4..][1..] == s[5..] && ['s'] + "" == "s"; }
    assert ReadPython(m, s[2..]) == Done("'s", "") by {
      assert s[2..][1..] == s[3..] && s[3..][1..] == s[4..] && "'" + "s" == "'s";
    }
    assert ReadPython(m, s[1..]) == Done("t's", "") by { assert s[1..][1..] == s[2..] && ['t'] + "'s" == "t's"; }
    assert ['i'] + "t's" == "it's";
    assert !Portable(m, s[2..]) by { assert s[2..][1] == '\''; }
    assert !Portable(m, s[1..]) by { assert s[1..][1..] == s[2..]; }
  }

  lemma JsonApostrophe(s: string)
    requires |s| == 6 && s[0] == 'i' && s[1] == 't' && s[2] == '\\' && s[3] == '\'' && s[4] == 's' && s[5] == '"'
    ensures ReadString(s).Fail? && Q.Normalized(Q.InDouble, s) == s
  {
    assert ReadString(s[2..]).Fail? by { assert s[2..][1..][0] == '\''; }
    assert ReadString(s[1..]).Fail? by { assert s[1..][1..] == s[2..]; }
    var m := Q.InDouble;
    assert Q.Normalized(Q.Outside, s[6..]) == s[6..];
    assert Q.Normalized(m, s[5..]) == s[5..] by { assert s[5..][1..] == s[6..]; }
    assert Q.Normalized(m, s[4..]) == s[4..] by { assert s[4..][1..] == s[5..]; }
    assert Q.Normalized(m, s[2..]) == s[2..] by { assert s[2..][2..] == s[4..]; }
    assert Q.Normalized(m, s[1..]) == s[1..] by { assert s[1..][1..] == s[2..]; }
  }
}
