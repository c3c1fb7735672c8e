/** The brace counter that decides how many closing braces a streamed argument object still needs. */
module BraceScanner {
  import opened Json

  datatype Scan = Scan(depth: int, inString: bool, escaped: bool)

  const START := Scan(0, false, false)

  function Step(st: Scan, c: char): Scan {
    if st.escaped then st.(escaped := false)
    else if c == '\\' && st.inString then st.(escaped := true)
    else if c == '"' then st.(inString := !st.inString)
    else if st.inString then st
    else if c == '{' then st.(depth := st.depth + 1)
    else if c == '}' then st.(depth := st.depth - 1)
    else st
  }

  function Run(st: Scan, s: string): Scan
    decreases |s|
  {
    if s == [] then st else Run(Step(st, s[0]), s[1..])
  }

  function Outside(depth: int): Scan {
    Scan(depth, false, false)
  }

  function Inside(depth: int): Scan {
    Scan(depth, true, false)
  }

  method JsonBraceDepth(s: string) returns (depth: int)
    ensures depth == Run(START, s).depth
  {
    depth := 0;
    var inString, escaped := false, false;
    for i := 0 to |s|
      invariant Run(Scan(depth, inString, escaped), s[i..]) == Run(START, s)
    {
      assert s[i..][1..] == s[i + 1..];
      var c := s[i];
      if escaped {
        escaped := false;
        continue;
      }
      if c == '\\' && inString {
        escaped := true;
        continue;
      }
      if c == '"' {
        inString := !inString;
        continue;
      }
      if !inString {
        if c == '{' {
          depth := depth + 1;
        } else if c == '}' {
          depth := depth - 1;
        }
      }
    }
  }

  lemma {:induction false} RunConcat(st: Scan, a: string, b: string)
    ensures Run(st, a + b) == Run(Run(st, a), b)
    decreases |a|
  {
    if a == [] {
      assert a + b == b;
    } else {
      assert (a + b)[1..] == a[1..] + b && (a + b)[0] == a[0];
      RunConcat(Step(st, a[0]), a[1..], b);
    }
  }

  // ------------------------------------------------ escaped text never leaves the string

  lemma RunEscapeChar(d: int, c: char)
    ensures Run(Inside(d), EscapeChar(c)) == Inside(d)
  {
    var e := EscapeChar(c);
    if |e| == 1 {
      assert e[1..] == [];
    } else {
      RunTwo(d, e[1], e);
      if |e| == 6 {
        RunPlain(d, e[2..]);
      }
    }
  }

  lemma RunTwo(d: int, c: char, e: string)
    requires |e| >= 2 && e[0] == '\\'
    ensures Run(Inside(d), e) == Run(Inside(d), e[2..])
  {
    assert e[1..][1..] == e[2..];
    assert Run(Inside(d), e) == Run(Scan(d, true, true), e[1..]);
  }

  lemma {:induction false} RunPlain(d: int, s: string)
    requires forall c | c in s :: c != '"' && c != '\\'
    ensures Run(Inside(d), s) == Inside(d)
  {
    if s != [] {
      assert s[0] in s && forall c | c in s[1..] :: c in s;
      RunPlain(d, s[1..]);
    }
  }

  lemma {:induction false} RunEscape(d: int, s: string)
    ensures Run(Inside(d), Escape(s)) == Inside(d)
  {
    hide EscapeChar, Step;
    if s != [] {
      RunEscapeChar(d, s[0]);
      RunConcat(Inside(d), EscapeChar(s[0]), Escape(s[1..]));
      RunEscape(d, s[1..]);
    }
  }

  /** A quoted string is invisible to the brace counter. */
  lemma RunQuote(d: int, s: string, rest: string)
    ensures Run(Outside(d), Quote(s) + rest) == Run(Outside(d), rest)
  {
    hide Escape;
    var e := Escape(s);
    assert Quote(s) + rest == "\"" + (e + ("\"" + rest));
    assert ("\"" + (e + ("\"" + rest)))[1..] == e + ("\"" + rest);
    RunConcat(Inside(d), e, "\"" + rest);
    RunEscape(d, s);
    assert ("\"" + rest)[1..] == rest;
  }

  // ------------------------------------------------ a JSON text leaves the counter where it was

  lemma {:induction false} RunSkipWs(d: int, s: string)
    ensures Run(Outside(d), s) == Run(Outside(d), SkipWs(s))
  {
    if s != [] && IsWs(s[0]) {
      RunSkipWs(d, s[1..]);
    }
  }

  lemma {:induction false} RunPrefixPlain(d: int, s: string, k: nat)
    requires k <= |s|
    requires forall i | 0 <= i < k :: s[i] != '"' && s[i] != '{' && s[i] != '}'
    ensures Run(Outside(d), s) == Run(Outside(d), s[k..])
  {
    if k > 0 {
      assert s[1..][k - 1..] == s[k..];
      RunPrefixPlain(d, s[1..], k - 1);
    }
  }

  lemma RunReadScalar(d: int, u: string)
    requires ReadScalar(u).Done?
    ensures Run(Outside(d), u) == Run(Outside(d), ReadScalar(u).rest)
  {
    hide IsNumber, Run;
    if "true" <= u {
      assert u[..4] == "true";
      RunPrefixPlain(d, u, 4);
    } else if "false" <= u {
      assert u[..5] == "false";
      RunPrefixPlain(d, u, 5);
    } else if "null" <= u {
      assert u[..4] == "null";
      RunPrefixPlain(d, u, 4);
    } else {
      var n := NumRun(u);
      forall i | 0 <= i < |n|
        ensures IsNumChar(u[i])
      {
        assert n[i] in n;
      }
      RunPrefixPlain(d, u, |n|);
    }
  }

  lemma RunReadEscape(d: int, s: string)
    requires ReadEscape(s).Done?
    ensures Run(Scan(d, true, true), s) == Run(Inside(d), ReadEscape(s).rest)
  {
    var t := s[1..];
    assert Run(Scan(d, true, true), s) == Run(Inside(d), t);
    if s[0] == 'u' {
      hide Run, ReadUnicode;
      RunReadUnicode(d, t);
    }
  }

  lemma RunHex4(d: int, s: string)
    requires Hex4(s) >= 0
    ensures Run(Inside(d), s) == Run(Inside(d), s[4..])
  {
    hide Run;
    forall c | c in s[..4]
      ensures c != '"' && c != '\\'
    {
    }
    assert s == s[..4] + s[4..];
    RunConcat(Inside(d), s[..4], s[4..]);
    RunPlain(d, s[..4]);
  }

  lemma RunReadUnicode(d: int, s: string)
    requires ReadUnicode(s).Done?
    ensures Run(Inside(d), s) == Run(Inside(d), ReadUnicode(s).rest)
  {
    hide Run, Hex4;
    RunHex4(d, s);
    var n := Hex4(s);
    if !(n < 0xD800 || 0xE000 <= n) {
      var t := s[4..];
      assert t[2..] == s[6..] && s[6..][4..] == s[10..];
      RunTwo(d, 'u', t);
      RunHex4(d, s[6..]);
    }
  }

  lemma {:induction false} RunReadString(d: int, s: string)
    requires ReadString(s).Done?
    ensures Run(Inside(d), s) == Run(Outside(d), ReadString(s).rest)
    decreases |s|
  {
    hide ReadEscape;
    if s[0] == '"' {
    } else if s[0] == '\\' {
      RunReadEscape(d, s[1..]);
      RunReadString(d, ReadEscape(s[1..]).rest);
    } else {
      RunReadString(d, s[1..]);
    }
  }

  /** Whatever a JSON reader accepts as a value leaves the counter outside strings at its old depth. */
  lemma {:induction false} RunReadValue(d: int, s: string)
    requires ReadValue(s).Done?
    ensures Run(Outside(d), s) == Run(Outside(d), ReadValue(s).rest)
    decreases |s|, 1
  {
    hide SkipWs, IsWs, ReadString, ReadScalar, ReadItems, ReadMembers;
    RunSkipWs(d, s);
    var u := SkipWs(s);
    if u[0] == '"' {
      RunReadString(d, u[1..]);
    } else if u[0] == '[' {
      RunSkipWs(d, u[1..]);
      if SkipWs(u[1..]) == [] || SkipWs(u[1..])[0] != ']' {
        RunReadItems(d, u[1..]);
      }
    } else if u[0] == '{' {
      RunSkipWs(d + 1, u[1..]);
      if SkipWs(u[1..]) == [] || SkipWs(u[1..])[0] != '}' {
        RunReadMembers(d, u[1..]);
      }
    } else {
      RunReadScalar(d, u);
    }
  }

  lemma {:induction false} RunReadItems(d: int, s: string)
    requires ReadItems(s).Done?
    ensures Run(Outside(d), s) == Run(Outside(d), ReadItems(s).rest)
    decreases |s|, 2
  {
    hide SkipWs, IsWs, ReadValue;
    RunReadValue(d, s);
    var t := SkipWs(ReadValue(s).rest);
    RunSkipWs(d, ReadValue(s).rest);
    if t[0] == ',' {
      RunReadItems(d, t[1..]);
    }
  }

  lemma {:induction false} RunReadMembers(d: int, s: string)
    requires ReadMembers(s).Done?
    ensures Run(Outside(d + 1), s) == Run(Outside(d), ReadMembers(s).rest)
    decreases |s|, 2
  {
    hide SkipWs, IsWs, ReadValue, ReadString;
    RunSkipWs(d + 1, s);
    var u := SkipWs(s);
    RunReadString(d + 1, u[1..]);
    var k := ReadString(u[1..]);
    RunSkipWs(d + 1, k.rest);
    var c := SkipWs(k.rest);
    RunReadValue(d + 1, c[1..]);
    var v := ReadValue(c[1..]);
    RunSkipWs(d + 1, v.rest);
    var t := SkipWs(v.rest);
    if t[0] == ',' {
      RunReadMembers(d, t[1..]);
    }
  }

  /** A whole JSON text is balanced, from any depth. */
  lemma JsonTextIsBalanced(d: int, s: string)
    requires Parse(s).Done?
    ensures Run(Outside(d), s) == Outside(d)
  {
    RunReadValue(d, s);
    RunSkipWs(d, ReadValue(s).rest);
  }
}
