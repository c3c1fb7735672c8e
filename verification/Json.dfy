/** The JSON library at the level the chat code relies on: string escaping (RFC 8259, section 7)
    as `dump` performs it, and a reader that accepts the texts of RFC 8259 and keeps object
    members in their written order. */
module Json {
  import opened HexDigits

  datatype Value =
    | Null
    | Bool(b: bool)
    | Number(text: string)
    | Str(s: string)
    | Arr(items: seq<Value>)
    | Obj(members: seq<Member>)

  datatype Member = Member(key: string, value: Value)

  datatype Read<T> = Fail | Done(value: T, rest: string)

  // ---------------------------------------------------------------- escaping

  function HexDigit(n: nat): char
    requires n < 16
  {
    "0123456789abcdef"[n]
  }

  function EscapeChar(c: char): string {
    if c == '"' then "\\\""
    else if c == '\\' then "\\\\"
    else if c == 8 as char then "\\b"
    else if c == 12 as char then "\\f"
    else if c == '\n' then "\\n"
    else if c == '\r' then "\\r"
    else if c == '\t' then "\\t"
    else if c < ' ' then "\\u00" + [HexDigit(c as nat / 16), HexDigit(c as nat % 16)]
    else [c]
  }

  function Escape(s: string): string {
    if s == [] then [] else EscapeChar(s[0]) + Escape(s[1..])
  }

  /** What `dump` prints for a string value. */
  function Quote(s: string): string {
    "\"" + Escape(s) + "\""
  }

  lemma {:induction false} EscapeConcat(a: string, b: string)
    ensures Escape(a + b) == Escape(a) + Escape(b)
  {
    hide EscapeChar;
    if a == [] {
      assert a + b == b;
    } else {
      EscapeConcat(a[1..], b);
      assert (a + b)[1..] == a[1..] + b && (a + b)[0] == a[0];
      var e, ea, eb := EscapeChar(a[0]), Escape(a[1..]), Escape(b);
      assert e + (ea + eb) == (e + ea) + eb;
    }
  }

  lemma EscapeEmpty()
    ensures Escape("") == ""
  {
  }

  // ---------------------------------------------------------------- the reader

  predicate IsWs(c: char) {
    c == ' ' || c == '\n' || c == '\r' || c == '\t'
  }

  function SkipWs(s: string): (r: string)
    ensures |r| <= |s|
    ensures r != [] ==> !IsWs(r[0])
  {
    if s != [] && IsWs(s[0]) then SkipWs(s[1..]) else s
  }

  function Hex4(s: string): (r: int)
    ensures -1 <= r < 0x10000
    ensures r >= 0 ==> |s| >= 4
  {
    if |s| < 4 || HexValue(s[0]) < 0 || HexValue(s[1]) < 0 || HexValue(s[2]) < 0 || HexValue(s[3]) < 0 then -1
    else ((HexValue(s[0]) * 16 + HexValue(s[1])) * 16 + HexValue(s[2])) * 16 + HexValue(s[3])
  }

  /** Reads what follows `\u`: one code unit, or a surrogate pair. */
  function ReadUnicode(s: string): (r: Read<char>)
    ensures r.Done? ==> |r.rest| < |s|
  {
    var n := Hex4(s);
    if n < 0 then Fail
    else if n < 0xD800 || 0xE000 <= n then Done(n as char, s[4..])
    else if n < 0xDC00 && |s| >= 6 && s[4] == '\\' && s[5] == 'u' then
      var m := Hex4(s[6..]);
      if 0xDC00 <= m < 0xE000 then Done((0x10000 + (n - 0xD800) * 0x400 + (m - 0xDC00)) as char, s[10..])
      else Fail
    else Fail
  }

  /** Reads what follows a backslash. */
  function ReadEscape(s: string): (r: Read<char>)
    ensures r.Done? ==> |r.rest| < |s|
  {
    if s == [] then Fail
    else match s[0]
      case '"' => Done('"', s[1..])
      case '\\' => Done('\\', s[1..])
      case '/' => Done('/', s[1..])
      case 'b' => Done(8 as char, s[1..])
      case 'f' => Done(12 as char, s[1..])
      case 'n' => Done('\n', s[1..])
      case 'r' => Done('\r', s[1..])
      case 't' => Done('\t', s[1..])
      case 'u' => ReadUnicode(s[1..])
      case _ => Fail
  }

  /** Reads the inside of a string literal and its closing quote. */
  function ReadString(s: string): (r: Read<string>)
    ensures r.Done? ==> |r.rest| < |s|
    decreases |s|
  {
    if s == [] then Fail
    else if s[0] == '"' then Done([], s[1..])
    else if s[0] == '\\' then
      var e := ReadEscape(s[1..]);
      if e.Fail? then Fail
      else
        var t := ReadString(e.rest);
        if t.Fail? then Fail else Done([e.value] + t.value, t.rest)
    else if s[0] < ' ' then Fail
    else
      var t := ReadString(s[1..]);
      if t.Fail? then Fail else Done([s[0]] + t.value, t.rest)
  }

  predicate IsDigit(c: char) {
    '0' <= c <= '9'
  }

  predicate IsNumChar(c: char) {
    IsDigit(c) || c == '-' || c == '+' || c == '.' || c == 'e' || c == 'E'
  }

  function SkipDigits(s: string): (r: string)
    ensures |r| <= |s|
    ensures (forall c | c in r :: IsNumChar(c)) ==> (forall c | c in s :: IsNumChar(c))
  {
    if s != [] && IsDigit(s[0]) then
      assert forall c | c in s :: c == s[0] || c in s[1..];
      SkipDigits(s[1..])
    else s
  }

  function SkipFraction(s: string): (r: string)
    ensures |r| <= |s|
    ensures (forall c | c in r :: IsNumChar(c)) ==> (forall c | c in s :: IsNumChar(c))
  {
    if |s| >= 2 && s[0] == '.' && IsDigit(s[1]) then
      assert forall c | c in s :: c == s[0] || c in s[1..];
      SkipDigits(s[1..])
    else s
  }

  function SkipExponent(s: string): (r: string)
    ensures |r| <= |s|
    ensures (forall c | c in r :: IsNumChar(c)) ==> (forall c | c in s :: IsNumChar(c))
  {
    if |s| >= 2 && (s[0] == 'e' || s[0] == 'E') && IsDigit(s[1]) then
      assert forall c | c in s :: c == s[0] || c in s[1..];
      SkipDigits(s[1..])
    else if |s| >= 3 && (s[0] == 'e' || s[0] == 'E') && (s[1] == '+' || s[1] == '-') && IsDigit(s[2]) then
      assert forall c | c in s :: c == s[0] || c == s[1] || c in s[2..];
      SkipDigits(s[2..])
    else s
  }

  /** The number grammar of RFC 8259, section 6. */
  predicate IsNumber(t: string)
    ensures IsNumber(t) ==> t != [] && forall c | c in t :: IsNumChar(c)
  {
    var u := if t != [] && t[0] == '-' then t[1..] else t;
    assert forall c | c in t :: c == t[0] || c in u;
    u != [] && IsDigit(u[0]) &&
    (var afterInt := if u[0] == '0' then u[1..] else SkipDigits(u);
     assert forall c | c in u :: c == u[0] || c in u[1..];
     SkipExponent(SkipFraction(afterInt)) == [])
  }

  function NumRun(s: string): (r: string)
    ensures r <= s
  {
    if s != [] && IsNumChar(s[0]) then [s[0]] + NumRun(s[1..]) else []
  }

  /** A literal name or a number; the text begins with it. */
  function ReadScalar(u: string): (r: Read<Value>)
    ensures r.Done? ==> |r.rest| < |u|
  {
    if "true" <= u then Done(Bool(true), u[4..])
    else if "false" <= u then Done(Bool(false), u[5..])
    else if "null" <= u then Done(Null, u[4..])
    else
      var n := NumRun(u);
      if IsNumber(n) then Done(Number(n), u[|n|..]) else Fail
  }

  function ReadValue(s: string): (r: Read<Value>)
    ensures r.Done? ==> |r.rest| < |s|
    decreases |s|, 1
  {
    var u := SkipWs(s);
    if u == [] then Fail
    else if u[0] == '"' then
      var t := ReadString(u[1..]);
      if t.Fail? then Fail else Done(Str(t.value), t.rest)
    else if u[0] == '[' then
      var w := SkipWs(u[1..]);
      if w != [] && w[0] == ']' then Done(Arr([]), w[1..])
      else
        var t := ReadItems(u[1..]);
        if t.Fail? then Fail else Done(Arr(t.value), t.rest)
    else if u[0] == '{' then
      var w := SkipWs(u[1..]);
      if w != [] && w[0] == '}' then Done(Obj([]), w[1..])
      else
        var t := ReadMembers(u[1..]);
        if t.Fail? then Fail else Done(Obj(t.value), t.rest)
    else ReadScalar(u)
  }

  function ReadItems(s: string): (r: Read<seq<Value>>)
    ensures r.Done? ==> |r.rest| < |s|
    decreases |s|, 2
  {
    var v := ReadValue(s);
    if v.Fail? then Fail
    else
      var t := SkipWs(v.rest);
      if t == [] then Fail
      else if t[0] == ']' then Done([v.value], t[1..])
      else if t[0] == ',' then
        var more := ReadItems(t[1..]);
        if more.Fail? then Fail else Done([v.value] + more.value, more.rest)
      else Fail
  }

  function ReadMembers(s: string): (r: Read<seq<Member>>)
    ensures r.Done? ==> |r.rest| < |s|
    decreases |s|, 2
  {
    var u := SkipWs(s);
    if u == [] || u[0] != '"' then Fail
    else
      var k := ReadString(u[1..]);
      if k.Fail? then Fail
      else
        var c := SkipWs(k.rest);
        if c == [] || c[0] != ':' then Fail
        else
          var v := ReadValue(c[1..]);
          if v.Fail? then Fail
          else
            var t := SkipWs(v.rest);
            if t == [] then Fail
            else if t[0] == '}' then Done([Member(k.value, v.value)], t[1..])
            else if t[0] == ',' then
              var more := ReadMembers(t[1..]);
              if more.Fail? then Fail else Done([Member(k.value, v.value)] + more.value, more.rest)
            else Fail
  }

  /** The library's `parse`: one value, optional white space around it, nothing else. */
  function Parse(s: string): Read<Value> {
    var r := ReadValue(s);
    if r.Done? && SkipWs(r.rest) == [] then Done(r.value, []) else Fail
  }

  // ---------------------------------------------------------------- reading back what was escaped

  lemma ReadControlChar(c: char, rest: string)
    requires c < ' ' && EscapeChar(c) == "\\u00" + [HexDigit(c as nat / 16), HexDigit(c as nat % 16)]
    ensures (EscapeChar(c) + rest)[0] == '\\' && ReadEscape((EscapeChar(c) + rest)[1..]) == Done(c, rest)
  {
    var hi, lo := HexDigit(c as nat / 16), HexDigit(c as nat % 16);
    var u := "00" + [hi, lo] + rest;
    assert (EscapeChar(c) + rest)[1..] == "u" + u;
    assert ("u" + u)[1..] == u && u[4..] == rest;
    assert HexValue(hi) == c as int / 16 && HexValue(lo) == c as int % 16;
    assert Hex4(u) == c as int;
  }

  /** One escaped character in front of a text: a reader sees it as that character. */
  lemma ReadEscapedChar(c: char, rest: string)
    ensures var e := EscapeChar(c) + rest;
            if c == '"' || c == '\\' || c < ' '
            then e[0] == '\\' && ReadEscape(e[1..]) == Done(c, rest)
            else e == [c] + rest
  {
    var e := EscapeChar(c) + rest;
    if c == '"' || c == '\\' || c == 8 as char || c == 12 as char || c == '\n' || c == '\r' || c == '\t' {
      hide HexDigit, ReadUnicode;
      assert e == ['\\', EscapeChar(c)[1]] + rest;
      assert e[1..][1..] == rest && e[1..][0] == EscapeChar(c)[1];
    } else if c < ' ' {
      ReadControlChar(c, rest);
    }
  }

  /** A JSON reader takes an escaped text back to exactly the characters that were escaped. */
  lemma {:induction false} ReadStringOfEscape(s: string, rest: string)
    ensures ReadString(Escape(s) + "\"" + rest) == Done(s, rest)
  {
    hide EscapeChar;
    hide ReadEscape;
    if s == [] {
      assert Escape(s) + "\"" + rest == "\"" + rest;
    } else {
      ReadStringOfEscape(s[1..], rest);
      var tail := Escape(s[1..]) + "\"" + rest;
      var all := Escape(s) + "\"" + rest;
      assert all == EscapeChar(s[0]) + tail;
      ReadEscapedChar(s[0], tail);
      assert s == [s[0]] + s[1..];
      if !(s[0] == '"' || s[0] == '\\' || s[0] < ' ') {
        assert all[1..] == tail;
      }
    }
  }

  lemma {:induction false} EscapeInjective(a: string, b: string)
    requires Escape(a) == Escape(b)
    ensures a == b
  {
    ReadStringOfEscape(a, []);
    ReadStringOfEscape(b, []);
  }

  lemma ReadStringFirst(c: char, tail: string)
    ensures ReadString(EscapeChar(c) + tail) ==
            if ReadString(tail).Fail? then Fail else Done([c] + ReadString(tail).value, ReadString(tail).rest)
  {
    ReadEscapedChar(c, tail);
    hide EscapeChar, ReadEscape;
    if !(c == '"' || c == '\\' || c < ' ') { assert ([c] + tail)[1..] == tail; }
  }

  /** The same in front of any text: a reader sees the escaped characters and then what follows. */
  lemma {:induction false} ReadStringOn(s: string, rest: string)
    ensures ReadString(Escape(s) + rest) ==
            if ReadString(rest).Fail? then Fail else Done(s + ReadString(rest).value, ReadString(rest).rest)
  {
    hide EscapeChar, ReadString;
    if s == [] {
      assert Escape(s) + rest == rest;
      if ReadString(rest).Done? { assert s + ReadString(rest).value == ReadString(rest).value; }
    } else {
      ReadStringOn(s[1..], rest);
      ReadStringFirst(s[0], Escape(s[1..]) + rest);
      assert Escape(s) + rest == EscapeChar(s[0]) + (Escape(s[1..]) + rest);
      if ReadString(rest).Done? { assert [s[0]] + (s[1..] + ReadString(rest).value) == s + ReadString(rest).value; }
    }
  }

  /** One escaped text begins with another exactly when the texts do. */
  lemma EscapePrefixIff(a: string, b: string)
    ensures Escape(a) <= Escape(b) <==> a <= b
  {
    hide Escape, ReadString;
    if a <= b {
      assert b == a + b[|a|..];
      EscapeConcat(a, b[|a|..]);
    }
    if Escape(a) <= Escape(b) {
      var z := Escape(b)[|Escape(a)|..];
      assert Escape(b) + "\"" + "" == Escape(b) + "\"";
      assert Escape(b) + "\"" == Escape(a) + (z + "\"");
      ReadStringOfEscape(b, "");
      ReadStringOn(a, z + "\"");
      assert a <= b by {
        var r := ReadString(z + "\"");
        assert r.Done? && b == a + r.value;
      }
    }
  }

  // ---------------------------------------------------------------- reading one more element

  lemma ReadItemsStep(vt: string, v: Value, ws: string, tail: string)
    requires ReadValue(vt + tail) == Done(v, ws + tail) && SkipWs(ws) == []
    requires tail != [] && (tail[0] == ',' || tail[0] == ']')
    ensures ReadItems(vt + tail) ==
            if tail[0] == ']' then Done([v], tail[1..])
            else var more := ReadItems(tail[1..]);
                 if more.Fail? then Fail else Done([v] + more.value, more.rest)
  {
    hide ReadValue;
    SkipWsAppend(ws, tail);
    assert SkipWs(tail) == tail;
  }

  lemma SkipsTo(ws: string, tail: string)
    requires SkipWs(ws) == [] && tail != [] && !IsWs(tail[0])
    ensures SkipWs(ws + tail) == tail
  {
    SkipWsAppend(ws, tail);
  }

  /** Reading members that begin with a quoted key and a colon. */
  lemma ReadKey(key: string, ws: string, x: string)
    requires SkipWs(ws) == []
    ensures ReadMembers(Quote(key) + ws + ":" + x) ==
            var v := ReadValue(x);
            if v.Fail? then Fail
            else
              var t := SkipWs(v.rest);
              if t == [] then Fail
              else if t[0] == '}' then Done([Member(key, v.value)], t[1..])
              else if t[0] == ',' then
                var more := ReadMembers(t[1..]);
                if more.Fail? then Fail else Done([Member(key, v.value)] + more.value, more.rest)
              else Fail
  {
    hide ReadValue, ReadString, Escape;
    var colon := ":" + x;
    var all := Quote(key) + ws + ":" + x;
    assert all == "\"" + (Escape(key) + "\"" + (ws + colon));
    assert all[1..] == Escape(key) + "\"" + (ws + colon);
    assert SkipWs(all) == all;
    ReadStringOfEscape(key, ws + colon);
    SkipsTo(ws, colon);
    assert colon[1..] == x;
  }

  lemma ReadMembersStep(key: string, vt: string, v: Value, ws: string, tail: string)
    requires ReadValue(vt + tail) == Done(v, ws + tail) && SkipWs(ws) == []
    requires tail != [] && (tail[0] == ',' || tail[0] == '}')
    ensures ReadMembers(Quote(key) + ":" + vt + tail) ==
            if tail[0] == '}' then Done([Member(key, v)], tail[1..])
            else var more := ReadMembers(tail[1..]);
                 if more.Fail? then Fail else Done([Member(key, v)] + more.value, more.rest)
  {
    hide ReadValue, ReadMembers, Quote, SkipWs, Escape;
    SkipsTo(ws, tail);
    SkipWsEmpty();
    ReadKey(key, "", vt + tail);
    assert Quote(key) + "" + ":" + (vt + tail) == Quote(key) + ":" + vt + tail;
  }

  lemma ReadQuoted(s: string, rest: string)
    ensures ReadValue(Quote(s) + rest) == Done(Str(s), rest)
  {
    hide ReadString, ReadScalar, Escape;
    var u := Quote(s) + rest;
    assert SkipWs(u) == u;
    assert u[1..] == Escape(s) + "\"" + rest;
    ReadStringOfEscape(s, rest);
  }

  lemma ReadNumberText(t: string, rest: string)
    requires IsNumber(t) && Delimits(rest)
    ensures ReadScalar(t + rest) == Done(Number(t), rest)
    ensures !IsWs(t[0]) && t[0] != '"' && t[0] != '[' && t[0] != '{' && t[0] != ']'
  {
    hide IsNumber;
    assert t[0] in t;
    NumRunAll(t, rest);
    var u := t + rest;
    assert u[0] == t[0];
    assert !("true" <= u) && !("false" <= u) && !("null" <= u);
    assert u[|t|..] == rest;
  }

  lemma {:induction false} NumRunAll(t: string, rest: string)
    requires forall c | c in t :: IsNumChar(c)
    requires Delimits(rest)
    ensures NumRun(t + rest) == t
  {
    if t == [] {
      assert t + rest == rest;
    } else {
      assert t[0] in t;
      assert (t + rest)[1..] == t[1..] + rest && (t + rest)[0] == t[0];
      NumRunAll(t[1..], rest);
    }
  }

  lemma ReadName(w: string, rest: string)
    requires w == "true" || w == "false" || w == "null"
    ensures ReadValue(w + rest) == Done(if w == "null" then Null else Bool(w == "true"), rest)
  {
    hide NumRun, IsNumber;
    var u := w + rest;
    assert u[|w|..] == rest && u[..|w|] == w;
    assert u[0] == w[0];
    assert SkipWs(u) == u;
  }

  lemma ReadNumber(t: string, rest: string)
    requires IsNumber(t) && Delimits(rest)
    ensures ReadValue(t + rest) == Done(Number(t), rest)
  {
    hide IsNumber, ReadScalar, IsNumChar;
    ReadNumberText(t, rest);
    assert (t + rest)[0] == t[0];
    assert SkipWs(t + rest) == t + rest;
  }

  lemma SkipWsEmpty()
    ensures SkipWs([]) == []
  {
  }

  // ---------------------------------------------------------------- how values begin

  lemma ScalarStart(u: string)
    ensures u != [] && u[0] == ']' ==> ReadScalar(u).Fail?
  {
  }

  /** No value begins with a closing bracket. */
  lemma ValueStart(s: string)
    requires ReadValue(s).Done?
    ensures SkipWs(s) != [] && SkipWs(s)[0] != ']'
  {
    hide ReadString, ReadItems, ReadMembers, ReadScalar;
    ScalarStart(SkipWs(s));
  }

  lemma ItemsStart(s: string)
    requires ReadItems(s).Done?
    ensures SkipWs(s) != [] && SkipWs(s)[0] != ']'
  {
    hide ReadValue, SkipWs;
    ValueStart(s);
  }

  lemma MembersStart(s: string)
    requires ReadMembers(s).Done?
    ensures SkipWs(s) != [] && SkipWs(s)[0] != '}'
  {
  }

  // ---------------------------------------------------------------- locality of the reader

  /** What may follow a value without changing how it is read. */
  predicate Delimits(t: string) {
    t == [] || !IsNumChar(t[0])
  }

  lemma {:induction false} SkipWsAppend(s: string, t: string)
    ensures SkipWs(s) != [] ==> SkipWs(s + t) == SkipWs(s) + t
    ensures SkipWs(s) == [] ==> SkipWs(s + t) == SkipWs(t)
  {
    if s == [] {
      assert s + t == t;
    } else if IsWs(s[0]) {
      assert (s + t)[1..] == s[1..] + t;
      SkipWsAppend(s[1..], t);
    }
  }

  lemma {:induction false} NumRunAppend(s: string, t: string)
    requires Delimits(t)
    ensures NumRun(s + t) == NumRun(s)
  {
    if s == [] {
      assert s + t == t;
    } else if IsNumChar(s[0]) {
      assert (s + t)[1..] == s[1..] + t;
      NumRunAppend(s[1..], t);
    }
  }

  lemma DropAppend(s: string, k: nat, t: string)
    requires k <= |s|
    ensures |s + t| >= k && (s + t)[k..] == s[k..] + t
  {
  }

  lemma ReadUnicodeAppend(s: string, t: string)
    requires ReadUnicode(s).Done?
    ensures ReadUnicode(s + t) == Done(ReadUnicode(s).value, ReadUnicode(s).rest + t)
  {
    assert (s + t)[4..] == s[4..] + t;
    if |s| >= 6 { assert (s + t)[6..] == s[6..] + t; }
    if |s| >= 10 { assert (s + t)[10..] == s[10..] + t; }
  }

  lemma ReadEscapeAppend(s: string, t: string)
    requires ReadEscape(s).Done?
    ensures ReadEscape(s + t) == Done(ReadEscape(s).value, ReadEscape(s).rest + t)
  {
    assert (s + t)[1..] == s[1..] + t;
    if s[0] == 'u' { ReadUnicodeAppend(s[1..], t); }
  }

  lemma {:induction false} ReadStringAppend(s: string, t: string)
    requires ReadString(s).Done?
    ensures ReadString(s + t) == Done(ReadString(s).value, ReadString(s).rest + t)
    decreases |s|
  {
    assert (s + t)[1..] == s[1..] + t;
    if s[0] == '"' {
    } else if s[0] == '\\' {
      ReadEscapeAppend(s[1..], t);
      ReadStringAppend(ReadEscape(s[1..]).rest, t);
    } else {
      ReadStringAppend(s[1..], t);
    }
  }

  lemma ReadScalarAppend(u: string, t: string)
    requires Delimits(t) && ReadScalar(u).Done?
    ensures ReadScalar(u + t) == Done(ReadScalar(u).value, ReadScalar(u).rest + t)
  {
    hide IsNumber, NumRun;
    if "true" <= u {
      DropAppend(u, 4, t);
    } else if "false" <= u {
      DropAppend(u, 5, t);
    } else if "null" <= u {
      DropAppend(u, 4, t);
    } else {
      var n := NumRun(u);
      assert n != [] && n[0] in n;
      assert !("true" <= u + t) && !("false" <= u + t) && !("null" <= u + t) by {
        assert (u + t)[0] == u[0] == n[0];
      }
      NumRunAppend(u, t);
      DropAppend(u, |n|, t);
    }
  }

  /** Reading a value looks no further than the value: any delimiting text may follow. */
  lemma {:induction false} ReadValueAppend(s: string, t: string)
    requires Delimits(t) && ReadValue(s).Done?
    ensures ReadValue(s + t) == Done(ReadValue(s).value, ReadValue(s).rest + t)
    decreases |s|, 1
  {
    hide ReadString, ReadItems, ReadMembers, ReadScalar, IsNumChar, IsWs;
    SkipWsAppend(s, t);
    var u := SkipWs(s);
    hide SkipWs;
    assert (u + t)[1..] == u[1..] + t;
    if u[0] == '"' {
      ReadStringAppend(u[1..], t);
    } else if u[0] == '[' || u[0] == '{' {
      SkipWsAppend(u[1..], t);
      var w := SkipWs(u[1..]);
      if u[0] == '[' {
        if w != [] && w[0] == ']' {
          assert (w + t)[1..] == w[1..] + t;
        } else {
          assert w != [] by { if w == [] { ReadNeedsInput(u[1..]); } }
          ReadItemsAppend(u[1..], t);
        }
      } else {
        if w != [] && w[0] == '}' {
          assert (w + t)[1..] == w[1..] + t;
        } else {
          assert w != [] by { if w == [] { ReadNeedsInput(u[1..]); } }
          ReadMembersAppend(u[1..], t);
        }
      }
    } else {
      ReadScalarAppend(u, t);
    }
  }

  lemma ReadNeedsInput(s: string)
    requires SkipWs(s) == []
    ensures ReadItems(s).Fail? && ReadMembers(s).Fail?
  {
  }

  lemma {:induction false} ReadItemsAppend(s: string, t: string)
    requires Delimits(t) && ReadItems(s).Done?
    ensures ReadItems(s + t) == Done(ReadItems(s).value, ReadItems(s).rest + t)
    decreases |s|, 2
  {
    hide ReadValue, SkipWs, IsNumChar, IsWs;
    ReadValueAppend(s, t);
    var r := ReadValue(s).rest;
    SkipWsAppend(r, t);
    var w := SkipWs(r);
    assert (w + t)[1..] == w[1..] + t;
    if w[0] == ',' {
      ReadItemsAppend(w[1..], t);
    }
  }

  lemma {:induction false} ReadMembersAppend(s: string, t: string)
    requires Delimits(t) && ReadMembers(s).Done?
    ensures ReadMembers(s + t) == Done(ReadMembers(s).value, ReadMembers(s).rest + t)
    decreases |s|, 2
  {
    hide ReadString, ReadValue, SkipWs, IsNumChar, IsWs;
    SkipWsAppend(s, t);
    var u := SkipWs(s);
    assert (u + t)[1..] == u[1..] + t;
    ReadStringAppend(u[1..], t);
    var k := ReadString(u[1..]);
    SkipWsAppend(k.rest, t);
    var c := SkipWs(k.rest);
    assert (c + t)[1..] == c[1..] + t;
    ReadValueAppend(c[1..], t);
    var r := ReadValue(c[1..]).rest;
    SkipWsAppend(r, t);
    var w := SkipWs(r);
    assert (w + t)[1..] == w[1..] + t;
    if w[0] == ',' {
      ReadMembersAppend(w[1..], t);
    }
  }
}
