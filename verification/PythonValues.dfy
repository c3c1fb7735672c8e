/** Values as Python or JSON writes them: rewriting the quotes of such a text gives the same text in JSON quotes,
    which a JSON reader takes to the value exactly when no constant is spelled as Python spells it. */
module PythonValues {
  import opened Json
  import Q = QuoteNormalizer
  import opened PythonLiterals
  import opened Sequences
  import opened ToolCallMapper
  import opened Wrappers

  function Literal(single: bool, s: string): string {
    if single then "'" + SingleEscape(s) + "'" else Quote(s)
  }

  function SingleEscapeChar(c: char): string {
    if c == '\'' then "\\'" else if c == '"' then "\"" else EscapeChar(c)
  }

  function SingleEscape(s: string): string {
    if s == [] then [] else SingleEscapeChar(s[0]) + SingleEscape(s[1..])
  }

  /** The source text of a value: which spelling each constant has, which quotes each string, and the white
      space between tokens. No constant is null, and None in Python's spelling. */
  datatype Source =
    | Constant(truth: Option<bool>, python: bool)
    | Num(digits: string)
    | Lit(single: bool, s: string)
    | List(inside: string, items: seq<Item>)
    | Dict(inside: string, pairs: seq<Pair>)

  /** An item with the white space before and behind it. */
  datatype Item = Item(before: string, value: Source, after: string)

  /** A key with the white space before and behind it, and the item behind the colon. */
  datatype Pair = Pair(before: string, single: bool, key: string, after: string, item: Item)

  function Word(truth: Option<bool>, python: bool): string {
    if truth.None? then if python then "None" else "null"
    else if truth.value then if python then "True" else "true"
    else if python then "False" else "false"
  }

  /** The text as it is written, or the same in JSON's quotes. */
  function Text(v: Source, written: bool): string
    decreases v
  {
    match v
    case Constant(truth, python) => Word(truth, python)
    case Num(digits) => digits
    case Lit(single, s) => Literal(single && written, s)
    case List(inside, items) => "[" + (if items == [] then inside + "]" else ItemsText(items, written))
    case Dict(inside, pairs) => "{" + (if pairs == [] then inside + "}" else PairsText(pairs, written))
  }

  function ItemText(i: Item, written: bool): string
    decreases i
  {
    i.before + Text(i.value, written) + i.after
  }

  function ItemsText(items: seq<Item>, written: bool): string
    requires items != []
    decreases items
  {
    ItemText(items[0], written) + if |items| == 1 then "]" else "," + ItemsText(items[1..], written)
  }

  function KeyText(p: Pair, written: bool): string {
    p.before + Literal(p.single && written, p.key) + p.after + ":"
  }

  function PairsText(pairs: seq<Pair>, written: bool): string
    requires pairs != []
    decreases pairs
  {
    KeyText(pairs[0], written) + ItemText(pairs[0].item, written) +
    if |pairs| == 1 then "}" else "," + PairsText(pairs[1..], written)
  }

  /** Numbers are spelled as JSON spells them, and tokens are kept apart by white space only. */
  predicate Spelled(v: Source)
    decreases v
  {
    match v
    case Num(digits) => IsNumber(digits)
    case List(inside, items) => Blank(inside) && forall i | 0 <= i < |items| :: ItemSpelled(items[i])
    case Dict(inside, pairs) =>
      Blank(inside) &&
      forall i | 0 <= i < |pairs| :: Blank(pairs[i].before) && Blank(pairs[i].after) && ItemSpelled(pairs[i].item)
    case _ => true
  }

  predicate ItemSpelled(i: Item)
    decreases i
  {
    Blank(i.before) && Blank(i.after) && Spelled(i.value)
  }

  predicate Blank(w: string) {
    SkipWs(w) == []
  }

  /** Some constant is spelled as Python spells it. */
  predicate Pythonic(v: Source)
    decreases v
  {
    match v
    case Constant(_, python) => python
    case List(_, items) => SomeItemPythonic(items)
    case Dict(_, pairs) => SomePairPythonic(pairs)
    case _ => false
  }

  predicate SomeItemPythonic(items: seq<Item>)
    decreases items
  {
    items != [] && (Pythonic(items[0].value) || SomeItemPythonic(items[1..]))
  }

  predicate SomePairPythonic(pairs: seq<Pair>)
    decreases pairs
  {
    pairs != [] && (Pythonic(pairs[0].item.value) || SomePairPythonic(pairs[1..]))
  }

  function Denoted(v: Source): Value
    decreases v
  {
    match v
    case Constant(truth, _) => if truth.None? then Null else Bool(truth.value)
    case Num(digits) => Number(digits)
    case Lit(_, s) => Str(s)
    case List(_, items) => Arr(ItemsDenoted(items))
    case Dict(_, pairs) => Obj(PairsDenoted(pairs))
  }

  function ItemsDenoted(items: seq<Item>): seq<Value>
    decreases items
  {
    if items == [] then [] else [Denoted(items[0].value)] + ItemsDenoted(items[1..])
  }

  function PairsDenoted(pairs: seq<Pair>): seq<Member>
    decreases pairs
  {
    if pairs == [] then [] else [Member(pairs[0].key, Denoted(pairs[0].item.value))] + PairsDenoted(pairs[1..])
  }

  // ---------------------------------------------------------------- rewriting

  lemma {:induction false} PlainIsKept(w: string, rest: string)
    requires '"' !in w && '\'' !in w
    ensures Q.Normalized(Q.Outside, w + rest) == w + Q.Normalized(Q.Outside, rest)
  {
    if w == [] {
      assert w + rest == rest;
    } else {
      assert (w + rest)[1..] == w[1..] + rest;
      PlainIsKept(w[1..], rest);
    }
  }

  /** An escaped character is the character itself, a short escape, or a code unit in hex. */
  lemma EscapeShape(c: char)
    ensures var e := EscapeChar(c);
            || (e == [c] && c != '"' && c != '\\')
            || (|e| == 2 && e[0] == '\\' && e[1] != '\'')
            || (|e| == 6 && e[0] == '\\' && e[1] == 'u' && forall i | 2 <= i < 6 :: e[i] != '"' && e[i] != '\'' && e[i] != '\\')
  {
  }

  lemma CharConverts(m: Q.Mode, c: char, rest: string)
    requires m != Q.Outside && (m == Q.InSingle ==> c != '\'' && c != '"')
    ensures Q.Normalized(m, EscapeChar(c) + rest) == EscapeChar(c) + Q.Normalized(m, rest)
  {
    EscapeShape(c);
    hide EscapeChar, Q.Normalized;
    var e := EscapeChar(c);
    if |e| == 1 {
      assert (e + rest)[1..] == rest;
      RewrittenChar(m, e + rest);
    } else {
      RewrittenEscape(m, e + rest);
      assert (e + rest)[2..] == e[2..] + rest && "\\" + [e[1]] + e[2..] == e;
      if |e| == 2 {
        assert e[2..] + rest == rest;
        assert "\\" + [e[1]] == e;
      } else {
        PlainInLiteral(m, e[2..], rest);
        Regroup("\\" + [e[1]], e[2..], Q.Normalized(m, rest));
      }
    }
  }

  lemma SingleCharConverts(c: char, rest: string)
    ensures Q.Normalized(Q.InSingle, SingleEscapeChar(c) + rest) == EscapeChar(c) + Q.Normalized(Q.InSingle, rest)
  {
    hide Q.Normalized;
    var e := SingleEscapeChar(c);
    if c == '\'' {
      assert (e + rest)[2..] == rest;
      RewrittenEscape(Q.InSingle, e + rest);
    } else if c == '"' {
      assert (e + rest)[1..] == rest;
      RewrittenChar(Q.InSingle, e + rest);
    } else {
      CharConverts(Q.InSingle, c, rest);
    }
  }

  lemma {:induction false} PlainInLiteral(m: Q.Mode, w: string, rest: string)
    requires m != Q.Outside && '"' !in w && '\'' !in w && '\\' !in w
    ensures Q.Normalized(m, w + rest) == w + Q.Normalized(m, rest)
  {
    if w == [] {
      assert w + rest == rest;
    } else {
      assert (w + rest)[1..] == w[1..] + rest;
      PlainInLiteral(m, w[1..], rest);
    }
  }

  lemma {:induction false} BodyConverts(single: bool, s: string, rest: string)
    ensures single ==> Q.Normalized(Q.InSingle, SingleEscape(s) + rest) == Escape(s) + Q.Normalized(Q.InSingle, rest)
    ensures !single ==> Q.Normalized(Q.InDouble, Escape(s) + rest) == Escape(s) + Q.Normalized(Q.InDouble, rest)
  {
    hide Q.Normalized, EscapeChar, SingleEscapeChar;
    if s == [] {
      assert [] + rest == rest;
    } else {
      BodyConverts(single, s[1..], rest);
      var c := s[0];
      if single {
        var more := SingleEscape(s[1..]) + rest;
        assert SingleEscape(s) + rest == SingleEscapeChar(c) + more;
        SingleCharConverts(c, more);
      } else {
        var more := Escape(s[1..]) + rest;
        assert Escape(s) + rest == EscapeChar(c) + more;
        CharConverts(Q.InDouble, c, more);
      }
      assert EscapeChar(c) + (Escape(s[1..]) + Q.Normalized(if single then Q.InSingle else Q.InDouble, rest)) ==
             Escape(s) + Q.Normalized(if single then Q.InSingle else Q.InDouble, rest);
    }
  }

  /** A literal of either style becomes the JSON string of the same characters. */
  lemma LiteralConverts(single: bool, s: string, rest: string)
    ensures Q.Normalized(Q.Outside, Literal(single, s) + rest) == Quote(s) + Q.Normalized(Q.Outside, rest)
  {
    hide Escape, SingleEscape, Q.Normalized;
    var q := if single then "'" else "\"";
    var body := if single then SingleEscape(s) else Escape(s);
    assert Literal(single, s) + rest == q + (body + (q + rest));
    QuotesConvert(body + (q + rest));
    BodyConverts(single, s, q + rest);
    QuotesConvert(rest);
    assert "\"" + (Escape(s) + ("\"" + Q.Normalized(Q.Outside, rest))) == Quote(s) + Q.Normalized(Q.Outside, rest);
  }

  lemma {:induction false} BlankIsPlain(w: string)
    requires Blank(w)
    ensures '"' !in w && '\'' !in w
  {
    if w != [] { BlankIsPlain(w[1..]); }
  }

  lemma NumberIsPlain(t: string)
    requires IsNumber(t)
    ensures '"' !in t && '\'' !in t
  {
  }

  lemma QuoteIsLiteral(s: string)
    ensures Literal(false, s) == Quote(s)
  {
  }

  /** Rewriting the quotes of a source text gives the text in JSON's quotes, whatever styles its strings have. */
  lemma {:induction false} ValueConverts(v: Source, rest: string)
    requires Spelled(v)
    ensures Q.Normalized(Q.Outside, Text(v, true) + rest) == Text(v, false) + Q.Normalized(Q.Outside, rest)
    decreases v, 1
  {
    hide Q.Normalized, IsNumber, Literal, Quote, Blank, ItemSpelled, ItemsText, PairsText;
    match v
    case Constant(truth, python) => PlainIsKept(Word(truth, python), rest);
    case Num(digits) => NumberIsPlain(digits); PlainIsKept(digits, rest);
    case Lit(single, s) => LiteralConverts(single, s, rest); QuoteIsLiteral(s);
    case List(inside, items) =>
      if items == [] { BlankIsPlain(inside); PlainIsKept(inside + "]", rest); } else { ItemsConvert(items, rest); }
      BracketConverts("[", if items == [] then inside + "]" else ItemsText(items, true),
                      if items == [] then inside + "]" else ItemsText(items, false), rest);
    case Dict(inside, pairs) =>
      if pairs == [] { BlankIsPlain(inside); PlainIsKept(inside + "}", rest); } else { PairsConvert(pairs, rest); }
      BracketConverts("{", if pairs == [] then inside + "}" else PairsText(pairs, true),
                      if pairs == [] then inside + "}" else PairsText(pairs, false), rest);
  }

  lemma BracketConverts(open: string, body: string, body': string, rest: string)
    requires open == "[" || open == "{"
    requires Q.Normalized(Q.Outside, body + rest) == body' + Q.Normalized(Q.Outside, rest)
    ensures Q.Normalized(Q.Outside, open + body + rest) == open + body' + Q.Normalized(Q.Outside, rest)
  {
    hide Q.Normalized;
    Regroup(open, body, rest);
    PlainIsKept(open, body + rest);
    Regroup(open, body', Q.Normalized(Q.Outside, rest));
  }

  lemma {:induction false} ItemConverts(i: Item, rest: string)
    requires ItemSpelled(i)
    ensures Q.Normalized(Q.Outside, ItemText(i, true) + rest) == ItemText(i, false) + Q.Normalized(Q.Outside, rest)
    decreases i, 2
  {
    hide Q.Normalized, Text, Blank;
    BlankIsPlain(i.before);
    BlankIsPlain(i.after);
    assert ItemText(i, true) + rest == i.before + (Text(i.value, true) + (i.after + rest));
    PlainIsKept(i.before, Text(i.value, true) + (i.after + rest));
    ValueConverts(i.value, i.after + rest);
    PlainIsKept(i.after, rest);
    var n := Q.Normalized(Q.Outside, rest);
    assert i.before + (Text(i.value, false) + (i.after + n)) == ItemText(i, false) + n;
  }

  lemma {:induction false} ItemsConvert(items: seq<Item>, rest: string)
    requires items != [] && forall i | 0 <= i < |items| :: ItemSpelled(items[i])
    ensures Q.Normalized(Q.Outside, ItemsText(items, true) + rest) ==
            ItemsText(items, false) + Q.Normalized(Q.Outside, rest)
    decreases items, 0
  {
    hide Q.Normalized, ItemText, ItemSpelled;
    var n, t, j := Q.Normalized(Q.Outside, rest), ItemText(items[0], true), ItemText(items[0], false);
    if |items| == 1 {
      Regroup(t, "]", rest);
      ItemConverts(items[0], "]" + rest);
      PlainIsKept("]", rest);
      Regroup(j, "]", n);
    } else {
      var more, more' := ItemsText(items[1..], true), ItemsText(items[1..], false);
      assert t + ("," + more) + rest == t + ("," + (more + rest));
      ItemConverts(items[0], "," + (more + rest));
      PlainIsKept(",", more + rest);
      ItemsConvert(items[1..], rest);
      assert j + ("," + (more' + n)) == j + ("," + more') + n;
    }
  }

  lemma KeyConverts(p: Pair, rest: string)
    requires Blank(p.before) && Blank(p.after)
    ensures Q.Normalized(Q.Outside, KeyText(p, true) + rest) == KeyText(p, false) + Q.Normalized(Q.Outside, rest)
  {
    hide Q.Normalized, Literal, Quote, Blank;
    BlankIsPlain(p.before);
    BlankIsPlain(p.after);
    QuoteIsLiteral(p.key);
    var lit, n := Literal(p.single, p.key), Q.Normalized(Q.Outside, rest);
    assert KeyText(p, true) + rest == p.before + (lit + (p.after + ":" + rest));
    PlainIsKept(p.before, lit + (p.after + ":" + rest));
    LiteralConverts(p.single, p.key, p.after + ":" + rest);
    PlainIsKept(p.after + ":", rest);
    assert p.before + (Quote(p.key) + (p.after + ":" + n)) == p.before + Quote(p.key) + p.after + ":" + n;
  }

  lemma {:induction false} PairsConvert(pairs: seq<Pair>, rest: string)
    requires pairs != []
    requires forall i | 0 <= i < |pairs| :: Blank(pairs[i].before) && Blank(pairs[i].after) && ItemSpelled(pairs[i].item)
    ensures Q.Normalized(Q.Outside, PairsText(pairs, true) + rest) ==
            PairsText(pairs, false) + Q.Normalized(Q.Outside, rest)
    decreases pairs, 0
  {
    hide Q.Normalized, ItemText, ItemSpelled, KeyText, Blank;
    var p, n := pairs[0], Q.Normalized(Q.Outside, rest);
    var more := if |pairs| == 1 then "}" else "," + PairsText(pairs[1..], true);
    var more' := if |pairs| == 1 then "}" else "," + PairsText(pairs[1..], false);
    if |pairs| == 1 {
      PlainIsKept("}", rest);
    } else {
      PairsConvert(pairs[1..], rest);
      Regroup(",", PairsText(pairs[1..], true), rest);
      PlainIsKept(",", PairsText(pairs[1..], true) + rest);
      Regroup(",", PairsText(pairs[1..], false), n);
    }
    var t, t' := ItemText(p.item, true), ItemText(p.item, false);
    RegroupFour(KeyText(p, true), t, more, rest);
    KeyConverts(p, t + (more + rest));
    ItemConverts(p.item, more + rest);
    RegroupFour(KeyText(p, false), t', more', n);
  }

  // ---------------------------------------------------------------- reading

  lemma BlankAhead(ws: string, x: string)
    requires Blank(ws)
    ensures ReadValue(ws + x) == ReadValue(x) && ReadMembers(ws + x) == ReadMembers(x)
  {
    hide ReadString, ReadItems, ReadScalar;
    SkipWsAppend(ws, x);
  }

  /** What stands behind an item. */
  predicate Closes(tail: string) {
    tail != [] && (tail[0] == ',' || tail[0] == ']' || tail[0] == '}')
  }

  lemma BlankDelimits(ws: string, tail: string)
    requires Blank(ws) && Closes(tail)
    ensures Delimits(ws + tail) && SkipWs(ws + tail) == tail
  {
    if ws == [] {
      assert ws + tail == tail;
    } else {
      assert IsWs(ws[0]) && (ws + tail)[0] == ws[0];
    }
    SkipsTo(ws, tail);
  }

  /** Python's constants are no JSON. */
  lemma PythonFails(truth: Option<bool>, rest: string)
    ensures ReadValue(Word(truth, true) + rest).Fail?
  {
    var w := Word(truth, true);
    assert (w + rest)[0] == w[0];
    assert NumRun(w + rest) == [];
    assert !IsNumber([]);
  }

  lemma {:induction false} ReadsText(v: Source, rest: string)
    requires Spelled(v) && Delimits(rest)
    ensures ReadValue(Text(v, false) + rest) == if Pythonic(v) then Fail else Done(Denoted(v), rest)
    decreases v, 1
  {
    hide ReadValue, IsNumber, Quote, Literal, Blank, ItemSpelled, ItemsText, PairsText, Delimits;
    match v
    case Constant(truth, python) =>
      if python { PythonFails(truth, rest); } else { ReadName(Word(truth, false), rest); }
    case Num(digits) => ReadNumber(digits, rest);
    case Lit(_, s) => QuoteIsLiteral(s); ReadQuoted(s, rest);
    case List(inside, items) =>
      if items == [] {
        EmptyReads("[", inside, "]", rest);
      } else {
        ItemsRead(items, rest);
        ItemStarts(items[0]);
        FirstItem(items);
        Opens(ItemsText(items, false), rest);
      }
    case Dict(inside, pairs) =>
      if pairs == [] {
        EmptyReads("{", inside, "}", rest);
      } else {
        PairsRead(pairs, rest);
        PairStarts(pairs[0]);
        FirstPair(pairs);
        Opens(PairsText(pairs, false), rest);
      }
  }

  lemma EmptyReads(open: string, inside: string, close: string, rest: string)
    requires (open == "[" && close == "]") || (open == "{" && close == "}")
    requires Blank(inside)
    ensures ReadValue(open + (inside + close) + rest) == Done(if open == "[" then Arr([]) else Obj([]), rest)
  {
    hide ReadString, ReadScalar, ReadItems, ReadMembers;
    var tail := close + rest;
    var u := open + (inside + close) + rest;
    assert u[1..] == inside + tail && SkipWs(u) == u;
    SkipsTo(inside, tail);
    assert tail[1..] == rest;
  }

  /** Behind its opening bracket, a text that does not close at once is read as items or members. */
  lemma Opens(body: string, rest: string)
    requires Begins(body)
    ensures ReadValue("[" + body + rest) ==
            var t := ReadItems(body + rest); if t.Fail? then Fail else Done(Arr(t.value), t.rest)
    ensures ReadValue("{" + body + rest) ==
            var t := ReadMembers(body + rest); if t.Fail? then Fail else Done(Obj(t.value), t.rest)
  {
    hide ReadString, ReadScalar, ReadItems, ReadMembers;
    var all, list, dict := body + rest, "[" + body + rest, "{" + body + rest;
    assert list[1..] == all && dict[1..] == all && SkipWs(list) == list && SkipWs(dict) == dict;
    SkipWsAppend(body, rest);
  }

  /** The first token of the text closes nothing. */
  predicate Begins(t: string) {
    var u := SkipWs(t);
    u != [] && u[0] != ']' && u[0] != '}'
  }

  lemma BlankBegins(ws: string, t: string, more: string)
    requires Blank(ws) && t != "" && !IsWs(t[0]) && t[0] != ']' && t[0] != '}'
    ensures Begins(ws + t + more)
  {
    Regroup(ws, t, more);
    assert (t + more)[0] == t[0];
    SkipsTo(ws, t + more);
  }

  lemma TextStarts(v: Source)
    requires Spelled(v)
    ensures var t := Text(v, false);
            t != "" && !IsWs(t[0]) && t[0] != ']' && t[0] != '}'
  {
    hide IsNumber, ItemsText, PairsText, ItemSpelled, Blank;
    match v
    case Num(digits) => assert digits[0] in digits;
    case _ =>
  }

  lemma ItemStarts(i: Item)
    requires ItemSpelled(i)
    ensures forall more: string :: Begins(ItemText(i, false) + more)
  {
    hide Begins, Text, Blank;
    TextStarts(i.value);
    forall more: string
      ensures Begins(ItemText(i, false) + more)
    {
      BlankBegins(i.before, Text(i.value, false), i.after + more);
      Regroup(i.before + Text(i.value, false), i.after, more);
    }
  }

  lemma PairStarts(p: Pair)
    requires Blank(p.before)
    ensures forall more: string :: Begins(KeyText(p, false) + more)
  {
    hide Begins, Blank, Escape;
    QuoteIsLiteral(p.key);
    forall more: string
      ensures Begins(KeyText(p, false) + more)
    {
      BlankBegins(p.before, Quote(p.key), p.after + ":" + more);
      assert p.before + Quote(p.key) + (p.after + ":" + more) == KeyText(p, false) + more;
    }
  }

  lemma FirstItem(items: seq<Item>)
    requires items != []
    ensures exists more: string :: ItemsText(items, false) == ItemText(items[0], false) + more
  {
    hide ItemText;
    var more := if |items| == 1 then "]" else "," + ItemsText(items[1..], false);
    assert ItemsText(items, false) == ItemText(items[0], false) + more;
  }

  lemma FirstPair(pairs: seq<Pair>)
    requires pairs != []
    ensures exists more: string :: PairsText(pairs, false) == KeyText(pairs[0], false) + more
  {
    hide ItemText, KeyText;
    var more := if |pairs| == 1 then "}" else "," + PairsText(pairs[1..], false);
    Regroup(KeyText(pairs[0], false), ItemText(pairs[0].item, false), more);
    assert PairsText(pairs, false) == KeyText(pairs[0], false) + (ItemText(pairs[0].item, false) + more);
  }

  lemma {:induction false} ItemReads(i: Item, tail: string)
    requires ItemSpelled(i) && Closes(tail)
    ensures ReadValue(ItemText(i, false) + tail) ==
            if Pythonic(i.value) then Fail else Done(Denoted(i.value), i.after + tail)
    decreases i, 2
  {
    hide ReadValue, Text, Blank, Pythonic, Denoted, Closes;
    var t := Text(i.value, false);
    assert ItemText(i, false) + tail == i.before + (t + (i.after + tail));
    BlankAhead(i.before, t + (i.after + tail));
    BlankDelimits(i.after, tail);
    ReadsText(i.value, i.after + tail);
  }

  lemma {:induction false} ItemsRead(items: seq<Item>, rest: string)
    requires items != [] && forall i | 0 <= i < |items| :: ItemSpelled(items[i])
    ensures ReadItems(ItemsText(items, false) + rest) ==
            if SomeItemPythonic(items) then Fail else Done(ItemsDenoted(items), rest)
    decreases items, 0
  {
    hide ReadValue, ReadItems, ItemText, ItemSpelled, Pythonic, Denoted;
    var i := items[0];
    var tail := if |items| == 1 then "]" + rest else "," + (ItemsText(items[1..], false) + rest);
    assert ItemsText(items, false) + rest == ItemText(i, false) + tail by { AfterItem(items, rest); }
    ItemReads(i, tail);
    if Pythonic(i.value) {
      NoItem(ItemText(i, false) + tail);
    } else {
      OneItem(i, tail);
      if |items| == 1 {
        assert ("]" + rest)[1..] == rest && items[1..] == [];
        assert ItemsDenoted(items) == [Denoted(i.value)];
      } else {
        assert tail[1..] == ItemsText(items[1..], false) + rest;
        ItemsRead(items[1..], rest);
      }
    }
  }

  lemma AfterItem(items: seq<Item>, rest: string)
    requires items != []
    ensures ItemsText(items, false) + rest ==
            ItemText(items[0], false) + if |items| == 1 then "]" + rest else "," + (ItemsText(items[1..], false) + rest)
  {
    hide ItemText;
    if |items| > 1 { Regroup(",", ItemsText(items[1..], false), rest); }
  }

  lemma NoItem(s: string)
    requires ReadValue(s).Fail?
    ensures ReadItems(s).Fail?
  {
    hide ReadValue;
  }

  lemma OneItem(i: Item, tail: string)
    requires ItemSpelled(i) && (tail != [] && (tail[0] == ',' || tail[0] == ']'))
    requires ReadValue(ItemText(i, false) + tail) == Done(Denoted(i.value), i.after + tail)
    ensures ReadItems(ItemText(i, false) + tail) ==
            if tail[0] == ']' then Done([Denoted(i.value)], tail[1..])
            else var more := ReadItems(tail[1..]);
                 if more.Fail? then Fail else Done([Denoted(i.value)] + more.value, more.rest)
  {
    hide ReadValue, ReadItems, SkipWs, ItemText, Denoted, Spelled;
    ReadItemsStep(ItemText(i, false), Denoted(i.value), i.after, tail);
  }

  lemma {:induction false} PairsRead(pairs: seq<Pair>, rest: string)
    requires pairs != []
    requires forall i | 0 <= i < |pairs| :: Blank(pairs[i].before) && Blank(pairs[i].after) && ItemSpelled(pairs[i].item)
    ensures ReadMembers(PairsText(pairs, false) + rest) ==
            if SomePairPythonic(pairs) then Fail else Done(PairsDenoted(pairs), rest)
    decreases pairs, 0
  {
    hide ReadValue, ReadMembers, ItemText, KeyText, ItemSpelled, Pythonic, Denoted, Blank;
    var p := pairs[0];
    var tail := if |pairs| == 1 then "}" + rest else "," + (PairsText(pairs[1..], false) + rest);
    AfterPair(pairs, rest);
    ItemReads(p.item, tail);
    OnePair(p, tail);
    if |pairs| == 1 {
      assert ("}" + rest)[1..] == rest && pairs[1..] == [];
      assert PairsDenoted(pairs) == [Member(p.key, Denoted(p.item.value))];
    } else {
      assert tail[1..] == PairsText(pairs[1..], false) + rest;
      PairsRead(pairs[1..], rest);
    }
  }

  lemma AfterPair(pairs: seq<Pair>, rest: string)
    requires pairs != []
    ensures PairsText(pairs, false) + rest ==
            KeyText(pairs[0], false) + (ItemText(pairs[0].item, false) +
              if |pairs| == 1 then "}" + rest else "," + (PairsText(pairs[1..], false) + rest))
  {
    hide ItemText, KeyText;
    var more := if |pairs| == 1 then "}" else "," + PairsText(pairs[1..], false);
    RegroupFour(KeyText(pairs[0], false), ItemText(pairs[0].item, false), more, rest);
    if |pairs| > 1 { Regroup(",", PairsText(pairs[1..], false), rest); }
  }

  lemma OnePair(p: Pair, tail: string)
    requires Blank(p.before) && Blank(p.after) && ItemSpelled(p.item) && (tail != [] && (tail[0] == ',' || tail[0] == '}'))
    requires ReadValue(ItemText(p.item, false) + tail) ==
             if Pythonic(p.item.value) then Fail else Done(Denoted(p.item.value), p.item.after + tail)
    ensures ReadMembers(KeyText(p, false) + (ItemText(p.item, false) + tail)) ==
            if Pythonic(p.item.value) then Fail
            else if tail[0] == '}' then Done([Member(p.key, Denoted(p.item.value))], tail[1..])
            else var more := ReadMembers(tail[1..]);
                 if more.Fail? then Fail else Done([Member(p.key, Denoted(p.item.value))] + more.value, more.rest)
  {
    hide ReadValue, ReadMembers, ItemText, Denoted, Pythonic, Spelled, Quote, Literal, SkipWs;
    QuoteIsLiteral(p.key);
    var x := ItemText(p.item, false) + tail;
    assert KeyText(p, false) + x == p.before + (Quote(p.key) + p.after + ":" + x);
    BlankAhead(p.before, Quote(p.key) + p.after + ":" + x);
    ReadKey(p.key, p.after, x);
    BlankDelimits(p.item.after, tail);
  }

  // ---------------------------------------------------------------- main results

  /** After the rewriting, a JSON reader takes the text to its value, unless some constant is spelled as
      Python spells it: then it takes nothing. */
  lemma ConvertedParses(v: Source)
    requires Spelled(v)
    ensures Parse(Q.Normalized(Q.Outside, Text(v, true))) == if Pythonic(v) then Fail else Done(Denoted(v), [])
  {
    hide ReadValue, Text, Spelled, Pythonic, Denoted, Q.Normalized;
    ValueConverts(v, "");
    ReadsText(v, "");
    assert Text(v, true) + "" == Text(v, true) && Text(v, false) + "" == Text(v, false);
    assert Q.Normalized(Q.Outside, "") == "" by { Q.NothingNormalized(Q.Outside); }
  }

  /** So a finished container is sent as the JSON text of its value, or, if a constant is Python's, as one
      string with the rewritten text in it. */
  lemma ContainerIsSent(e: Event, v: Source)
    requires e.tag == ArgValue && !e.partial && TrimOnce(e.text) == Text(v, true)
    requires Spelled(v) && (v.List? || v.Dict?)
    ensures ValueAddition(e, false) ==
            if Pythonic(v) then Addition("\"" + Escape(Text(v, false)), true) else Addition(Text(v, false), false)
  {
    hide Spelled, Pythonic, Denoted, Q.Normalized, Parse, Escape, ItemsText, PairsText;
    ConvertedParses(v);
    ValueConverts(v, "");
    assert Text(v, true) + "" == Text(v, true) && Text(v, false) + "" == Text(v, false);
    assert Q.Normalized(Q.Outside, "") == "" by { Q.NothingNormalized(Q.Outside); }
    assert Denoted(v).Arr? || Denoted(v).Obj? by { ContainerDenoted(v); }
  }

  lemma ContainerDenoted(v: Source)
    requires v.List? || v.Dict?
    ensures Denoted(v).Arr? || Denoted(v).Obj?
  {
  }
}
