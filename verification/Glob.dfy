/** Glob patterns: `*` stays within a path component, `**` does not, `?` is one character, `[...]` is
    a character class. Texts are byte strings; a byte is a char below 256. */
module Glob {

  // ---------------------------------------------------------------- character classes

  datatype Item = Single(c: char) | Span(lo: char, hi: char)

  /** The value of a byte as a signed C char. */
  function Signed(c: char): int {
    if c as int < 128 then c as int else c as int - 256
  }

  predicate Covers(it: Item, c: char) {
    match it
    case Single(d) => c == d
    case Span(lo, hi) => Signed(lo) <= Signed(c) <= Signed(hi)
  }

  /** Spans are ordered as signed characters are: bytes from 128 on come before all others. */
  lemma SpanOrder(lo: char, hi: char, c: char)
    requires lo as int < 256 && hi as int < 256 && c as int < 256
    ensures Covers(Span(lo, hi), c) <==>
            if (lo as int < 128) == (hi as int < 128) then lo <= c <= hi
            else lo as int >= 128 && (lo <= c || c <= hi)
  {
  }

  /** The items a class body lists from here on: spans `x-y` and single characters. */
  function Items(r: string): seq<Item> {
    if r == [] then []
    else if |r| > 2 && r[1] == '-' && r[2] != ']' then [Span(r[0], r[2])] + Items(r[3..])
    else [Single(r[0])] + Items(r[1..])
  }

  /** A leading `]` or `-` stands for itself. */
  function ClassItems(r: string): seq<Item> {
    if r != [] && (r[0] == ']' || r[0] == '-') then [Single(r[0])] + Items(r[1..]) else Items(r)
  }

  predicate AnyCovers(items: seq<Item>, c: char) {
    exists it | it in items :: Covers(it, c)
  }

  predicate Negated(body: string) {
    body != [] && body[0] == '!'
  }

  /** A class matches the characters some item covers, or with a leading `!` all the others. */
  predicate ClassMatches(body: string, c: char) {
    AnyCovers(ClassItems(if Negated(body) then body[1..] else body), c) != Negated(body)
  }

  lemma AnyCoversCons(it: Item, items: seq<Item>, c: char)
    ensures AnyCovers([it] + items, c) <==> Covers(it, c) || AnyCovers(items, c)
  {
    var all := [it] + items;
    if Covers(it, c) { assert all[0] == it && it in all; }
    if AnyCovers(items, c) {
      var x :| x in items && Covers(x, c);
      assert x in all;
    }
  }

  method GlobClassMatch(c: char, body: string) returns (r: bool)
    ensures r == ClassMatches(body, c)
  {
    var start := 0;
    var negated := false;
    if body != [] && body[0] == '!' {
      negated := true;
      start := 1;
    }
    var listed := body[start..];
    if start < |body| && (body[start] == ']' || body[start] == '-') {
      AnyCoversCons(Single(body[start]), Items(listed[1..]), c);
      if body[start] == c {
        return !negated;
      }
      start := start + 1;
      assert listed[1..] == body[start..];
    }
    var matched := false;
    while start < |body|
      invariant start <= |body|
      invariant AnyCovers(ClassItems(listed), c) <==> AnyCovers(Items(body[start..]), c)
      decreases |body| - start
    {
      var rest := body[start..];
      if start + 2 < |body| && body[start + 1] == '-' && body[start + 2] != ']' {
        AnyCoversCons(Span(rest[0], rest[2]), Items(rest[3..]), c);
        if Signed(body[start]) <= Signed(c) <= Signed(body[start + 2]) {
          matched := true;
          break;
        }
        assert rest[3..] == body[start + 3..];
        start := start + 3;
      } else {
        AnyCoversCons(Single(rest[0]), Items(rest[1..]), c);
        if body[start] == c {
          matched := true;
          break;
        }
        assert rest[1..] == body[start + 1..];
        start := start + 1;
      }
    }
    r := if negated then !matched else matched;
  }

  // ---------------------------------------------------------------- patterns

  datatype Token = Deep | Shallow | AnyChar | Class(body: string) | Lit(c: char)

  function FindBracket(p: string, i: nat): (k: nat)
    requires i <= |p|
    ensures i <= k <= |p| && (k < |p| ==> p[k] == ']')
    decreases |p| - i
  {
    if i == |p| || p[i] == ']' then i else FindBracket(p, i + 1)
  }

  /** Where the class that opens the pattern ends; the pattern's length when it is never closed. */
  function ClassEnd(p: string): (k: nat)
    requires p != []
    ensures 1 <= k <= |p| && (k < |p| ==> p[k] == ']')
  {
    FindBracket(p, if |p| > 1 && (p[1] == ']' || p[1] == '-') then 2 else 1)
  }

  function Tokens(p: string): seq<Token>
    decreases |p|
  {
    if p == [] then []
    else if |p| > 1 && p[0] == '*' && p[1] == '*' then [Deep] + Tokens(p[2..])
    else if p[0] == '*' then [Shallow] + Tokens(p[1..])
    else if p[0] == '?' then [AnyChar] + Tokens(p[1..])
    else if p[0] == '[' && ClassEnd(p) < |p| then [Class(p[1..ClassEnd(p)])] + Tokens(p[ClassEnd(p) + 1..])
    else [Lit(p[0])] + Tokens(p[1..])
  }

  // ---------------------------------------------------------------- meaning

  predicate PieceOk(t: Token, piece: string) {
    match t
    case Deep => true
    case Shallow => '/' !in piece
    case AnyChar => |piece| == 1 && piece[0] != '/'
    case Class(body) => |piece| == 1 && ClassMatches(body, piece[0])
    case Lit(c) => piece == [c]
  }

  function Join(cut: seq<string>): string {
    if cut == [] then [] else cut[0] + Join(cut[1..])
  }

  predicate IsCut(cut: seq<string>, ts: seq<Token>, s: string) {
    |cut| == |ts| && Join(cut) == s && forall i | 0 <= i < |ts| :: PieceOk(ts[i], cut[i])
  }

  /** The string can be cut into consecutive pieces, one for each token. */
  ghost predicate Matches(ts: seq<Token>, s: string) {
    exists cut :: IsCut(cut, ts, s)
  }

  lemma MatchesNothing(s: string)
    ensures Matches([], s) <==> s == []
  {
    if s == [] { assert IsCut([], [], s); }
    if Matches([], s) {
      var cut :| IsCut(cut, [], s);
      assert cut == [];
    }
  }

  ghost predicate FirstPiece(t: Token, ts: seq<Token>, s: string, k: nat) {
    k <= |s| && PieceOk(t, s[..k]) && Matches(ts, s[k..])
  }

  lemma ConsCut(t: Token, ts: seq<Token>, s: string, k: nat)
    requires FirstPiece(t, ts, s, k)
    ensures Matches([t] + ts, s)
  {
    hide PieceOk;
    var cut :| IsCut(cut, ts, s[k..]);
    var all := [s[..k]] + cut;
    assert all[1..] == cut && s[..k] + s[k..] == s;
    forall i | 0 <= i < |ts| + 1
      ensures PieceOk(([t] + ts)[i], all[i])
    {
      if i > 0 { assert PieceOk(ts[i - 1], cut[i - 1]); }
    }
    assert IsCut(all, [t] + ts, s);
  }

  lemma UnconsCut(t: Token, ts: seq<Token>, s: string) returns (k: nat)
    requires Matches([t] + ts, s)
    ensures FirstPiece(t, ts, s, k)
  {
    hide PieceOk;
    var all := [t] + ts;
    var cut :| IsCut(cut, all, s);
    k := |cut[0]|;
    assert s == cut[0] + Join(cut[1..]);
    assert s[..k] == cut[0] && s[k..] == Join(cut[1..]);
    assert PieceOk(all[0], cut[0]);
    forall i | 0 <= i < |ts|
      ensures PieceOk(ts[i], cut[1..][i])
    {
      assert PieceOk(all[i + 1], cut[i + 1]);
    }
    assert IsCut(cut[1..], ts, s[k..]);
  }

  /** A one-character token takes the first character. */
  lemma OneChar(t: Token, ts: seq<Token>, s: string)
    requires t.AnyChar? || t.Class? || t.Lit?
    ensures Matches([t] + ts, s) <==> s != [] && PieceOk(t, [s[0]]) && Matches(ts, s[1..])
  {
    hide Matches, ClassMatches;
    if Matches([t] + ts, s) {
      var k := UnconsCut(t, ts, s);
      assert k == 1 && s[..1] == [s[0]];
    }
    if s != [] && PieceOk(t, [s[0]]) && Matches(ts, s[1..]) {
      assert s[..1] == [s[0]];
      ConsCut(t, ts, s, 1);
    }
  }

  lemma DeepStep(ts: seq<Token>, s: string)
    ensures Matches([Deep] + ts, s) <==> Matches(ts, s) || (s != [] && Matches([Deep] + ts, s[1..]))
  {
    hide Matches;
    assert s[0..] == s;
    if Matches([Deep] + ts, s) {
      var k := UnconsCut(Deep, ts, s);
      if k > 0 {
        assert s[1..][k - 1..] == s[k..];
        ConsCut(Deep, ts, s[1..], k - 1);
      }
    }
    if Matches(ts, s) { ConsCut(Deep, ts, s, 0); }
    if s != [] && Matches([Deep] + ts, s[1..]) {
      var k := UnconsCut(Deep, ts, s[1..]);
      assert s[1..][k..] == s[k + 1..];
      ConsCut(Deep, ts, s, k + 1);
    }
  }

  /** A `*` piece cannot reach past the first slash. */
  lemma StarPiece(ts: seq<Token>, s: string, i: nat)
    requires i <= |s| && (i < |s| ==> s[i] == '/')
    ensures Matches([Shallow] + ts, s) ==> exists k | 0 <= k <= i :: Matches(ts, s[k..])
  {
    hide Matches;
    if Matches([Shallow] + ts, s) {
      var k := UnconsCut(Shallow, ts, s);
      InPrefix(s, k);
      assert k <= i;
    }
  }

  lemma InPrefix(s: string, k: nat)
    requires k <= |s|
    ensures forall i | 0 <= i < k :: s[i] in s[..k]
  {
    assert forall i | 0 <= i < k :: s[..k][i] == s[i];
  }

  // ---------------------------------------------------------------- the matcher

  method Match(p: string, s: string) returns (r: bool)
    ensures r <==> Matches(Tokens(p), s)
    decreases |p| + |s|
  {
    hide Matches, ClassMatches;
    if p == [] {
      MatchesNothing(s);
      return s == [];
    }
    if |p| > 1 && p[0] == '*' && p[1] == '*' {
      DeepStep(Tokens(p[2..]), s);
      r := Match(p[2..], s);
      if !r && s != [] {
        r := Match(p, s[1..]);
      }
      return;
    }
    if p[0] == '*' {
      r := MatchStar(p, s);
      return;
    }
    if p[0] == '?' && s != [] && s[0] != '/' {
      OneChar(AnyChar, Tokens(p[1..]), s);
      r := Match(p[1..], s[1..]);
      return;
    }
    if p[0] == '[' {
      var end := if |p| > 1 && (p[1] == ']' || p[1] == '-') then 2 else 1;
      ghost var from := end;
      while end < |p| && p[end] != ']'
        invariant from <= end <= |p| && FindBracket(p, end) == FindBracket(p, from)
      {
        end := end + 1;
      }
      assert end == ClassEnd(p);
      if end < |p| {
        OneChar(Class(p[1..end]), Tokens(p[end + 1..]), s);
        if s == [] {
          return false;
        }
        var matched := GlobClassMatch(s[0], p[1..end]);
        r := false;
        if matched {
          r := Match(p[end + 1..], s[1..]);
        }
      } else {
        OneChar(Lit('['), Tokens(p[1..]), s);
        r := false;
        if s != [] && s[0] == '[' {
          r := Match(p[1..], s[1..]);
        }
      }
      return;
    }
    OneChar(if p[0] == '?' then AnyChar else Lit(p[0]), Tokens(p[1..]), s);
    r := false;
    if s != [] && p[0] == s[0] {
      r := Match(p[1..], s[1..]);
    }
  }

  /** The `*` case: try the rest of the pattern after ever longer slash-free pieces. */
  method MatchStar(p: string, s: string) returns (r: bool)
    requires p != [] && p[0] == '*' && !(|p| > 1 && p[1] == '*')
    ensures r <==> Matches(Tokens(p), s)
    decreases |p| + |s|, 0
  {
    hide Matches;
    ghost var ts := Tokens(p[1..]);
    assert Tokens(p) == [Shallow] + ts;
    var i := 0;
    while i < |s| && s[i] != '/'
      invariant i <= |s| && '/' !in s[..i]
      invariant forall j | 0 <= j < i :: !Matches(ts, s[j..])
    {
      r := Match(p[1..], s[i..]);
      if r {
        ConsCut(Shallow, ts, s, i);
        return;
      }
      assert s[..i + 1] == s[..i] + [s[i]];
      i := i + 1;
    }
    r := Match(p[1..], s[i..]);
    if r {
      ConsCut(Shallow, ts, s, i);
    } else {
      StarPiece(ts, s, i);
    }
  }

  function CString(s: string): string {
    if s == [] || s[0] == 0 as char then [] else [s[0]] + CString(s[1..])
  }

  /** The entry point sees both arguments as C strings, up to their first NUL. */
  method GlobMatch(pattern: string, str: string) returns (r: bool)
    ensures r <==> Matches(Tokens(CString(pattern)), CString(str))
  {
    r := Match(CString(pattern), CString(str));
  }

  // ---------------------------------------------------------------- how patterns are written

  function SpelledItem(it: Item): string {
    match it
    case Single(c) => [c]
    case Span(lo, hi) => [lo, '-', hi]
  }

  function SpelledItems(items: seq<Item>): string {
    if items == [] then [] else SpelledItem(items[0]) + SpelledItems(items[1..])
  }

  /** Items that can stand anywhere in a class: none begins with the sign of a span, and no span ends in a
      bracket. */
  predicate PlainItem(it: Item) {
    match it
    case Single(c) => c != '-'
    case Span(lo, hi) => lo != '-' && hi != ']'
  }

  predicate PlainItems(items: seq<Item>) {
    forall i | 0 <= i < |items| :: PlainItem(items[i])
  }

  lemma {:induction false} ItemsOfSpelled(items: seq<Item>)
    requires PlainItems(items)
    ensures Items(SpelledItems(items)) == items
  {
    if items != [] {
      var it, rest := items[0], SpelledItems(items[1..]);
      ItemsOfSpelled(items[1..]);
      assert PlainItem(it);
      if |items| > 1 {
        RestOf(items);
        assert PlainItem(items[1]);
      }
      var all := SpelledItem(it) + rest;
      if it.Single? { assert all[1..] == rest; } else { assert all[3..] == rest; }
    }
  }

  lemma RestOf(items: seq<Item>)
    requires |items| > 1
    ensures SpelledItems(items[1..]) == SpelledItem(items[1]) + SpelledItems(items[2..])
  {
    assert items[1..][1..] == items[2..];
  }

  /** A class lists the items it is written with; a bracket or the sign of a span stands for itself in front. */
  lemma ClassLists(items: seq<Item>, c: char)
    requires PlainItems(items) && (c == ']' || c == '-')
    ensures SpelledItems(items) == [] || SpelledItems(items)[0] != ']' ==> ClassItems(SpelledItems(items)) == items
    ensures ClassItems([c] + SpelledItems(items)) == [Single(c)] + items
  {
    ItemsOfSpelled(items);
    assert ([c] + SpelledItems(items))[1..] == SpelledItems(items);
    if items != [] { assert PlainItem(items[0]); }
  }

  /** A leading exclamation mark turns a class into the class of all other characters. */
  lemma NegationFlips(body: string, c: char)
    requires !Negated(body)
    ensures ClassMatches("!" + body, c) <==> !ClassMatches(body, c)
  {
    assert ("!" + body)[1..] == body;
  }

  function Spelled(t: Token): string {
    match t
    case Deep => "**"
    case Shallow => "*"
    case AnyChar => "?"
    case Class(body) => "[" + body + "]"
    case Lit(c) => [c]
  }

  function Pattern(ts: seq<Token>): string {
    if ts == [] then [] else Spelled(ts[0]) + Pattern(ts[1..])
  }

  /** A class needs a body, in which only the first character can be a closing bracket; letters with a meaning
      of their own cannot be literals. */
  predicate Writable(t: Token) {
    match t
    case Class(body) => body != "" && ']' !in body[1..]
    case Lit(c) => c != '*' && c != '?' && c != '['
    case _ => true
  }

  /** A star that stands for a piece without slashes is not followed by a star. */
  predicate AllWritable(ts: seq<Token>) {
    && (forall i | 0 <= i < |ts| :: Writable(ts[i]))
    && forall i | 0 <= i < |ts| - 1 :: ts[i].Shallow? ==> !ts[i + 1].Shallow? && !ts[i + 1].Deep?
  }

  lemma {:induction false} BracketFound(p: string, i: nat, k: nat)
    requires i <= k < |p| && p[k] == ']' && forall j | i <= j < k :: p[j] != ']'
    ensures FindBracket(p, i) == k
    decreases k - i
  {
    if i < k { BracketFound(p, i + 1, k); }
  }

  lemma ClassRead(body: string, rest: string)
    requires Writable(Class(body))
    ensures var p := "[" + body + "]" + rest; Tokens(p) == [Class(body)] + Tokens(rest)
  {
    var p, k := "[" + body + "]" + rest, |body| + 1;
    assert p[k] == ']' && p[1..k] == body && p[k + 1..] == rest;
    assert forall j | 2 <= j < k :: p[j] == body[1..][j - 2];
    BracketFound(p, if p[1] == ']' || p[1] == '-' then 2 else 1, k);
  }

  /** Every list of tokens that can be written is read back from what is written. */
  lemma {:induction false} TokensOfPattern(ts: seq<Token>)
    requires AllWritable(ts)
    ensures Tokens(Pattern(ts)) == ts
  {
    hide ClassMatches, ClassEnd;
    if ts != [] {
      var t, rest := ts[0], Pattern(ts[1..]);
      assert Writable(t);
      TokensOfPattern(ts[1..]);
      var p := Spelled(t) + rest;
      match t
      case Deep => assert p[2..] == rest;
      case Shallow =>
        if |ts| > 1 { NoStarAhead(ts[1..]); }
        assert p[1..] == rest;
      case AnyChar => assert p[1..] == rest;
      case Class(body) => ClassRead(body, rest);
      case Lit(c) => assert p[1..] == rest;
    }
  }

  lemma NoStarAhead(ts: seq<Token>)
    requires ts != [] && !ts[0].Shallow? && !ts[0].Deep? && Writable(ts[0])
    ensures Pattern(ts) != "" && Pattern(ts)[0] != '*'
  {
  }

  // ---------------------------------------------------------------- path components

  function Slashes(s: string): nat {
    if s == [] then 0 else (if s[0] == '/' then 1 else 0) + Slashes(s[1..])
  }

  lemma {:induction false} SlashesConcat(a: string, b: string)
    ensures Slashes(a + b) == Slashes(a) + Slashes(b)
  {
    if a == [] { assert a + b == b; }
    else {
      assert (a + b)[1..] == a[1..] + b;
      SlashesConcat(a[1..], b);
    }
  }

  lemma {:induction false} NoSlashes(s: string)
    requires '/' !in s
    ensures Slashes(s) == 0
  {
    if s != [] { NoSlashes(s[1..]); }
  }

  /** The slashes a pattern has written out. */
  function WrittenSlashes(ts: seq<Token>): nat {
    if ts == [] then 0 else (if ts[0] == Lit('/') then 1 else 0) + WrittenSlashes(ts[1..])
  }

  /** Without `**` and classes a pattern matches within path components only: every slash of the text stands
      for one of the pattern's. */
  lemma {:induction false} SlashesAreWritten(ts: seq<Token>, s: string)
    requires Matches(ts, s) && forall i | 0 <= i < |ts| :: !ts[i].Deep? && !ts[i].Class?
    ensures Slashes(s) == WrittenSlashes(ts)
    decreases |ts|
  {
    hide Matches;
    if ts == [] {
      MatchesNothing(s);
    } else {
      assert ts == [ts[0]] + ts[1..];
      var k := UnconsCut(ts[0], ts[1..], s);
      SlashesAreWritten(ts[1..], s[k..]);
      assert s == s[..k] + s[k..];
      SlashesConcat(s[..k], s[k..]);
      if ts[0] == Lit('/') { assert s[..k] == "/" && "/"[1..] == [] && Slashes([]) == 0; } else { NoSlashes(s[..k]); }
    }
  }

  /** `**` matches any text at all, slashes included. */
  lemma DeepMatchesAll(s: string)
    ensures Matches([Deep], s)
  {
    assert Join([s]) == s + Join([]) && [s][1..] == [] && s + [] == s;
    assert IsCut([s], [Deep], s);
  }
}
