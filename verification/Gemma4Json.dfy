/** Printing the (possibly unfinished) syntax tree of a gemma4 tool call as JSON text. */
module Gemma4Json {
  import opened Json

  datatype Rule =
    | NumberRule | BoolRule | NullRule | StringContent | StringRule | ArrayRule
    | DictKeyName | DictKey | DictKv | DictRule | ValueRule | OtherRule(name: string)

  datatype Tag = NoTag | ReasoningTag | ContentTag | ToolTag | ToolNameTag | ToolArgsTag | OtherTag(tagName: string)

  datatype Node = Node(rule: Rule, tag: Tag, text: string, children: seq<Node>, partial: bool)

  // ---------------------------------------------------------------- the printer

  function ToJson(n: Node): string
    decreases n
  {
    if n.text == "" then ""
    else match n.rule
      case NumberRule => n.text
      case BoolRule => n.text
      case NullRule => n.text
      case StringContent => Escape(n.text)
      case StringRule =>
        if n.children == [] then "\""
        else "\"" + ToJson(n.children[0]) + (if n.partial then "" else "\"")
      case ArrayRule => "[" + Joined(n.children) + (if n.partial then "" else "]")
      case DictKeyName => n.text
      case DictKey =>
        "\"" + (if n.children == [] then "" else Escape(ToJson(n.children[0]))) + (if n.partial then "" else "\":")
      case DictKv => Concatenated(n.children)
      case DictRule => "{" + Joined(n.children) + (if n.partial then "" else "}")
      case ValueRule => if n.children == [] then "" else ToJson(n.children[0])
      case OtherRule(_) => ""
  }

  function Joined(ns: seq<Node>): string
    decreases ns
  {
    if ns == [] then ""
    else ToJson(ns[0]) + (if |ns| == 1 then "" else "," + Joined(ns[1..]))
  }

  function Concatenated(ns: seq<Node>): string
    decreases ns
  {
    if ns == [] then "" else ToJson(ns[0]) + Concatenated(ns[1..])
  }

  // ---------------------------------------------------------------- growth of trees

  /** A node whose end is marked by a closing text of its own. All other nodes end where something else
      begins, or where the input ends; the parser takes them as finished when the input ends in the
      beginning of a delimiter or of white space, and still extends them later. */
  predicate HasClosing(n: Node) {
    n.tag != NoTag || n.rule.StringRule? || n.rule.ArrayRule? || n.rule.DictKey? || n.rule.DictRule?
  }

  /** A node for something that has not begun: where a value is due, the parser tries a string first, and at
      the end of the input it takes the missing string for an unfinished one. */
  predicate Placeholder(n: Node) {
    n.text == "" && n.tag == NoTag && n.children == []
  }

  /** How the tree of a longer input relates to the tree of a shorter one: a node that is unfinished, or
      has no closing text, has its text extended, its last child grows, and further children may follow.
      A placeholder may become any node. */
  ghost predicate Grows(a: Node, b: Node)
    decreases a
  {
    a == b || (Placeholder(a) && b.tag == NoTag) ||
    (a.rule == b.rule && a.tag == b.tag && a.text <= b.text && (a.partial || !HasClosing(a)) &&
     AllGrow(a.children, b.children))
  }

  ghost predicate AllGrow(as_: seq<Node>, bs: seq<Node>)
    decreases as_
  {
    as_ == [] ||
    (bs != [] &&
     if |as_| == 1 then Grows(as_[0], bs[0]) else as_[0] == bs[0] && AllGrow(as_[1..], bs[1..]))
  }

  lemma PrefixAppend(a: string, b: string, p: string, more: string)
    requires a <= b
    ensures p + a <= p + b && a <= b + more && p + a <= p + b + more
  {
  }

  lemma EscapeMonotone(a: string, b: string)
    requires a <= b
    ensures Escape(a) <= Escape(b)
  {
    hide Escape;
    assert b == a + b[|a|..];
    EscapeConcat(a, b[|a|..]);
  }

  /** If one tree grows into another, the text printed for the first is a prefix of the text
      printed for the second: what was streamed never has to be taken back. */
  lemma {:induction false} Monotone(a: Node, b: Node)
    requires Grows(a, b)
    ensures ToJson(a) <= ToJson(b)
    decreases a, 1
  {
    hide Escape, Joined, Concatenated, AllGrow;
    if a != b && a.text != "" {
      var as_, bs := a.children, b.children;
      match a.rule
      case StringContent => EscapeMonotone(a.text, b.text);
      case ArrayRule => JoinedMonotone(as_, bs);
      case DictRule => JoinedMonotone(as_, bs);
      case DictKv => ConcatenatedMonotone(as_, bs);
      case StringRule => HeadMonotone(as_, bs, "\"", if b.partial then "" else "\"");
      case DictKey => HeadMonotone(as_, bs, "\"", if b.partial then "" else "\":");
      case ValueRule => HeadMonotone(as_, bs, "", "");
      case _ =>
    }
  }

  lemma {:induction false} HeadMonotone(as_: seq<Node>, bs: seq<Node>, open: string, close: string)
    requires AllGrow(as_, bs)
    ensures as_ != [] ==>
      && bs != [] && ToJson(as_[0]) <= ToJson(bs[0])
      && open + ToJson(as_[0]) + "" <= open + ToJson(bs[0]) + close
      && open + Escape(ToJson(as_[0])) + "" <= open + Escape(ToJson(bs[0])) + close
    decreases as_, 2
  {
    hide ToJson, Escape;
    if as_ != [] {
      HeadGrows(as_, bs);
      Monotone(as_[0], bs[0]);
      assert forall s: string :: s + "" == s;
      EscapeMonotone(ToJson(as_[0]), ToJson(bs[0]));
      PrefixAppend(ToJson(as_[0]), ToJson(bs[0]), open, close);
      PrefixAppend(Escape(ToJson(as_[0])), Escape(ToJson(bs[0])), open, close);
    }
  }

  lemma HeadGrows(as_: seq<Node>, bs: seq<Node>)
    requires AllGrow(as_, bs) && as_ != []
    ensures bs != [] && Grows(as_[0], bs[0])
  {
  }

  lemma {:induction false} JoinedMonotone(as_: seq<Node>, bs: seq<Node>)
    requires AllGrow(as_, bs)
    ensures Joined(as_) <= Joined(bs)
    decreases as_, 0
  {
    hide ToJson;
    if as_ != [] {
      if |as_| == 1 {
        Monotone(as_[0], bs[0]);
      } else {
        JoinedMonotone(as_[1..], bs[1..]);
        assert |bs| > 1 by { HeadGrows(as_[1..], bs[1..]); }
        PrefixAppend(Joined(as_[1..]), Joined(bs[1..]), ",", "");
        PrefixAppend("," + Joined(as_[1..]), "," + Joined(bs[1..]), ToJson(as_[0]), "");
      }
    }
  }

  lemma {:induction false} ConcatenatedMonotone(as_: seq<Node>, bs: seq<Node>)
    requires AllGrow(as_, bs)
    ensures Concatenated(as_) <= Concatenated(bs)
    decreases as_, 0
  {
    hide ToJson;
    if as_ != [] {
      if |as_| == 1 {
        Monotone(as_[0], bs[0]);
        assert Concatenated(as_[1..]) == "";
        assert Concatenated(as_) == ToJson(as_[0]);
      } else {
        ConcatenatedMonotone(as_[1..], bs[1..]);
        PrefixAppend(Concatenated(as_[1..]), Concatenated(bs[1..]), ToJson(as_[0]), "");
      }
    }
  }

  // ---------------------------------------------------------------- finished trees

  predicate IsValueRule(r: Rule) {
    r.StringRule? || r.DictRule? || r.ArrayRule? || r.NumberRule? || r.BoolRule? || r.NullRule?
  }

  /** The text of a scalar without the white space the grammar takes in after it. */
  function Word(t: string): (w: string)
    ensures w <= t
  {
    if t != "" && IsWs(t[|t| - 1]) then Word(t[..|t| - 1]) else t
  }

  /** The trees the gemma4 grammar builds for finished input. */
  predicate Complete(n: Node)
    decreases n
  {
    !n.partial && n.tag == NoTag &&
    match n.rule
    case NumberRule => IsNumber(Word(n.text))
    case BoolRule => Word(n.text) == "true" || Word(n.text) == "false"
    case NullRule => Word(n.text) == "null"
    case StringContent => true
    case StringRule => n.text != "" && |n.children| == 1 && n.children[0].rule == StringContent && Complete(n.children[0])
    case ArrayRule => n.text != "" && AllComplete(n.children, ValueRule)
    case DictKeyName => n.text != "" && ':' !in n.text && '}' !in n.text
    case DictKey => n.text != "" && |n.children| == 1 && n.children[0].rule == DictKeyName && Complete(n.children[0])
    case DictKv =>
      n.text != "" && |n.children| == 2 && n.children[0].rule == DictKey && Complete(n.children[0]) &&
      n.children[1].rule == ValueRule && Complete(n.children[1])
    case DictRule => n.text != "" && AllComplete(n.children, DictKv)
    case ValueRule => n.text != "" && |n.children| == 1 && IsValueRule(n.children[0].rule) && Complete(n.children[0])
    case OtherRule(_) => false
  }

  predicate AllComplete(ns: seq<Node>, r: Rule)
    decreases ns
  {
    ns == [] || (ns[0].rule == r && Complete(ns[0]) && AllComplete(ns[1..], r))
  }

  /** The value a finished tree stands for, read off the tree and not off any printed text. */
  function ValueOf(n: Node): Value
    requires Complete(n) && (IsValueRule(n.rule) || n.rule == ValueRule)
    decreases n
  {
    match n.rule
    case NumberRule => Number(Word(n.text))
    case BoolRule => Bool(Word(n.text) == "true")
    case NullRule => Null
    case StringRule => Str(n.children[0].text)
    case ArrayRule => Arr(ValuesOf(n.children))
    case DictRule => Obj(MembersOf(n.children))
    case ValueRule => ValueOf(n.children[0])
  }

  /** White space the printed text of a value ends in. */
  function Trailing(n: Node): string
    requires Complete(n) && (IsValueRule(n.rule) || n.rule == ValueRule)
    decreases n
  {
    match n.rule
    case NumberRule => n.text[|Word(n.text)|..]
    case BoolRule => n.text[|Word(n.text)|..]
    case NullRule => n.text[|Word(n.text)|..]
    case ValueRule => Trailing(n.children[0])
    case _ => ""
  }

  lemma {:induction false} TrailingIsSpace(t: string)
    ensures SkipWs(t[|Word(t)|..]) == [] && (forall c | c in t[|Word(t)|..] :: IsWs(c))
  {
    if t != "" && IsWs(t[|t| - 1]) {
      var front, w := t[..|t| - 1], Word(t);
      TrailingIsSpace(front);
      assert t[|w|..] == front[|w|..] + [t[|t| - 1]];
      SkipWsAppend(front[|w|..], [t[|t| - 1]]);
      assert [t[|t| - 1]][1..] == [] && SkipWs([]) == [];
    } else {
      assert t[|t|..] == [];
    }
  }

  lemma {:induction false} TrailingSkips(n: Node)
    requires Complete(n) && (IsValueRule(n.rule) || n.rule == ValueRule)
    ensures SkipWs(Trailing(n)) == []
    decreases n
  {
    if n.rule == ValueRule { TrailingSkips(n.children[0]); } else { TrailingIsSpace(n.text); SkipWsEmpty(); }
  }

  lemma SpaceDelimits(ws: string, rest: string)
    requires (forall c | c in ws :: IsWs(c)) && Delimits(rest)
    ensures Delimits(ws + rest)
  {
    if ws != [] { assert ws[0] in ws; } else { assert ws + rest == rest; }
  }

  function ValuesOf(ns: seq<Node>): seq<Value>
    requires AllComplete(ns, ValueRule)
    decreases ns
  {
    if ns == [] then [] else [ValueOf(ns[0])] + ValuesOf(ns[1..])
  }

  function MembersOf(ns: seq<Node>): seq<Member>
    requires AllComplete(ns, DictKv)
    decreases ns
  {
    if ns == [] then [] else [MemberOf(ns[0])] + MembersOf(ns[1..])
  }

  function MemberOf(kv: Node): Member
    requires Complete(kv) && kv.rule == DictKv
    decreases kv
  {
    assert Complete(kv.children[0]);
    Member(kv.children[0].children[0].text, ValueOf(kv.children[1]))
  }

  /** On a finished tree, a JSON reader recovers exactly the tree's value from the printed text. */
  lemma {:induction false} RoundTrip(n: Node, rest: string)
    requires Complete(n) && (IsValueRule(n.rule) || n.rule == ValueRule) && Delimits(rest)
    ensures ReadValue(ToJson(n) + rest) == Done(ValueOf(n), Trailing(n) + rest) && SkipWs(Trailing(n)) == []
    decreases n, 1
  {
    hide ReadString, ReadScalar, Escape, IsNumber, IsNumChar, ReadValue;
    TrailingSkips(n);
    match n.rule
    case NumberRule => RoundTripScalar(n, rest);
    case BoolRule => RoundTripScalar(n, rest);
    case NullRule => RoundTripScalar(n, rest);
    case StringRule =>
      var c := n.children[0];
      assert ToJson(c) == Escape(c.text) by { EscapeEmpty(); }
      assert ToJson(n) == Quote(c.text);
      ReadQuoted(c.text, rest);
      assert "" + rest == rest;
    case ArrayRule => RoundTripArray(n, rest); assert "" + rest == rest;
    case DictRule => RoundTripDict(n, rest); assert "" + rest == rest;
    case ValueRule => RoundTrip(n.children[0], rest);
  }

  lemma RoundTripScalar(n: Node, rest: string)
    requires Complete(n) && (n.rule == NumberRule || n.rule == BoolRule || n.rule == NullRule) && Delimits(rest)
    ensures ReadValue(ToJson(n) + rest) == Done(ValueOf(n), Trailing(n) + rest)
  {
    hide IsNumber, IsNumChar, ReadValue, Word, Delimits;
    var w := Word(n.text);
    var ws := n.text[|w|..];
    TrailingIsSpace(n.text);
    SpaceDelimits(ws, rest);
    assert n.text == w + ws;
    assert n.text != "" by { if n.rule == NumberRule { NumberNotEmpty(w); } }
    assert ToJson(n) + rest == w + (ws + rest);
    if n.rule == NumberRule { ReadNumber(w, ws + rest); } else { ReadName(w, ws + rest); }
  }

  lemma NumberNotEmpty(t: string)
    requires IsNumber(t)
    ensures t != ""
  {
  }

  lemma {:induction false} RoundTripArray(n: Node, rest: string)
    requires Complete(n) && n.rule == ArrayRule && Delimits(rest)
    ensures ReadValue(ToJson(n) + rest) == Done(ValueOf(n), rest)
    decreases n, 0
  {
    hide ReadString, ReadScalar, Escape, IsNumber, IsNumChar, ReadItems, Joined;
    var body := Joined(n.children) + "]" + rest;
    var all := ToJson(n) + rest;
    assert all == "[" + body && all[1..] == body;
    assert SkipWs(all) == all;
    if n.children == [] {
      assert Joined(n.children) == "" by { JoinedEmpty(); }
      assert body == "]" + rest && body[1..] == rest;
      assert SkipWs(body) == body;
    } else {
      RoundTripItems(n.children, rest);
      ItemsStart(body);
    }
  }

  lemma JoinedEmpty()
    ensures Joined([]) == ""
  {
  }

  lemma {:induction false} RoundTripItems(ns: seq<Node>, rest: string)
    requires ns != [] && AllComplete(ns, ValueRule)
    ensures ReadItems(Joined(ns) + "]" + rest) == Done(ValuesOf(ns), rest)
    decreases ns, 2
  {
    hide ReadValue, ReadItems, ToJson, Complete, ValueOf, Trailing;
    var tail := (if |ns| == 1 then "" else "," + Joined(ns[1..])) + "]" + rest;
    assert Joined(ns) + "]" + rest == ToJson(ns[0]) + tail;
    RoundTrip(ns[0], tail);
    ReadItemsStep(ToJson(ns[0]), ValueOf(ns[0]), Trailing(ns[0]), tail);
    if |ns| == 1 {
      assert tail[1..] == rest;
      assert ValuesOf(ns) == [ValueOf(ns[0])];
    } else {
      assert tail[1..] == Joined(ns[1..]) + "]" + rest;
      RoundTripItems(ns[1..], rest);
    }
  }

  lemma {:induction false} RoundTripDict(n: Node, rest: string)
    requires Complete(n) && n.rule == DictRule && Delimits(rest)
    ensures ReadValue(ToJson(n) + rest) == Done(ValueOf(n), rest)
    decreases n, 0
  {
    hide ReadString, ReadScalar, Escape, IsNumber, IsNumChar, ReadMembers, Joined;
    var body := Joined(n.children) + "}" + rest;
    var all := ToJson(n) + rest;
    assert all == "{" + body && all[1..] == body;
    assert SkipWs(all) == all;
    if n.children == [] {
      assert Joined(n.children) == "" by { JoinedEmpty(); }
      assert body == "}" + rest && body[1..] == rest;
      assert SkipWs(body) == body;
    } else {
      RoundTripMembers(n.children, rest);
      MembersStart(body);
    }
  }

  lemma KvText(kv: Node)
    requires Complete(kv) && kv.rule == DictKv
    ensures ToJson(kv) == Quote(MemberOf(kv).key) + ":" + ToJson(kv.children[1])
  {
    hide Escape, IsNumber;
    var k, v := kv.children[0], kv.children[1];
    assert Complete(k);
    assert kv.children[1..] == [v] && [v][1..] == [];
    assert Concatenated(kv.children) == ToJson(k) + (ToJson(v) + Concatenated([]));
    assert ToJson(v) + Concatenated([]) == ToJson(v);
    assert ToJson(k) == Quote(k.children[0].text) + ":";
  }

  lemma {:induction false} RoundTripMember(kv: Node, tail: string)
    requires Complete(kv) && kv.rule == DictKv && tail != [] && (tail[0] == ',' || tail[0] == '}')
    ensures ReadMembers(ToJson(kv) + tail) ==
            if tail[0] == '}' then Done([MemberOf(kv)], tail[1..])
            else var more := ReadMembers(tail[1..]);
                 if more.Fail? then Fail else Done([MemberOf(kv)] + more.value, more.rest)
    decreases kv, 2
  {
    hide ReadValue, ReadMembers, ToJson, ValueOf, Quote, SkipWs, Trailing;
    var key, v := MemberOf(kv).key, kv.children[1];
    KvText(kv);
    RoundTrip(v, tail);
    ReadMembersStep(key, ToJson(v), ValueOf(v), Trailing(v), tail);
  }

  lemma {:induction false} RoundTripMembers(ns: seq<Node>, rest: string)
    requires ns != [] && AllComplete(ns, DictKv)
    ensures ReadMembers(Joined(ns) + "}" + rest) == Done(MembersOf(ns), rest)
    decreases ns, 2
  {
    hide ReadMembers, ToJson, Complete, MemberOf, Joined;
    var kv := ns[0];
    var tail := BehindFirst(ns, rest);
    FirstJoined(ns, rest);
    RoundTripMember(kv, tail);
    if |ns| == 1 {
      assert MembersOf(ns) == [MemberOf(kv)];
    } else {
      RoundTripMembers(ns[1..], rest);
    }
  }

  /** What stands behind the first of several joined texts in a closing brace. */
  function BehindFirst(ns: seq<Node>, rest: string): (tail: string)
    requires ns != []
    ensures tail != "" && tail[0] == (if |ns| == 1 then '}' else ',')
    ensures tail[1..] == if |ns| == 1 then rest else Joined(ns[1..]) + "}" + rest
  {
    if |ns| == 1 then "}" + rest else "," + (Joined(ns[1..]) + "}" + rest)
  }

  lemma FirstJoined(ns: seq<Node>, rest: string)
    requires ns != []
    ensures Joined(ns) + "}" + rest == ToJson(ns[0]) + BehindFirst(ns, rest)
  {
    hide ToJson;
    var t := ToJson(ns[0]);
    if |ns| > 1 {
      assert t + ("," + Joined(ns[1..])) + "}" + rest == t + ("," + (Joined(ns[1..]) + "}" + rest));
    }
  }

  /** The printed text is a JSON text for the tree's value. */
  lemma PrintsJson(n: Node)
    requires Complete(n) && (IsValueRule(n.rule) || n.rule == ValueRule)
    ensures Parse(ToJson(n)) == Done(ValueOf(n), [])
  {
    hide ReadValue, ToJson, Complete, Trailing;
    RoundTrip(n, []);
    assert ToJson(n) + [] == ToJson(n) && Trailing(n) + [] == Trailing(n);
  }

  // ---------------------------------------------------------------- unfinished trees

  const NOTHING_YET := Node(StringContent, NoTag, "", [], false)

  /** The tree as it would be if the input stopped here for good: unfinished nodes on the path of last
      children are taken as finished, and a string that has just begun is empty. */
  function Finished(n: Node): Node
    decreases n
  {
    if n.text == "" then n
    else match n.rule
      case StringRule =>
        if !n.partial then n
        else n.(partial := false, children := if n.children == [] then [NOTHING_YET] else n.children)
      case DictKey => n.(partial := false)
      case ArrayRule => if !n.partial then n else n.(partial := false, children := LastFinished(n.children))
      case DictRule => if !n.partial then n else n.(partial := false, children := LastFinished(n.children))
      case DictKv => n.(partial := false, children := LastFinished(n.children))
      case ValueRule => if |n.children| == 1 then n.(partial := false, children := [Finished(n.children[0])]) else n
      case _ => n.(partial := false)
  }

  function LastFinished(ns: seq<Node>): (r: seq<Node>)
    ensures |r| == |ns|
    decreases ns
  {
    if ns == [] then [] else if |ns| == 1 then [Finished(ns[0])] else [ns[0]] + LastFinished(ns[1..])
  }

  /** The quotes and brackets that are still open, read off the rules on that path, innermost first. */
  function Closers(n: Node): string
    decreases n
  {
    if n.text == "" then ""
    else match n.rule
      case StringRule => if n.partial then "\"" else ""
      case DictKey => if n.partial then "\":" else ""
      case ArrayRule => if n.partial then LastClosers(n.children) + "]" else ""
      case DictRule => if n.partial then LastClosers(n.children) + "}" else ""
      case DictKv => LastClosers(n.children)
      case ValueRule => if |n.children| == 1 then Closers(n.children[0]) else ""
      case _ => ""
  }

  function LastClosers(ns: seq<Node>): string
    decreases ns
  {
    if ns == [] then "" else if |ns| == 1 then Closers(ns[0]) else LastClosers(ns[1..])
  }

  /** Everything that has been read is printed: what an unfinished tree shows lacks only the closing texts. */
  lemma {:induction false} UnfinishedShowsAll(n: Node)
    ensures ToJson(n) + Closers(n) == ToJson(Finished(n))
    decreases n, 1
  {
    hide Escape, Joined, Concatenated, LastFinished, LastClosers;
    if n.text != "" {
      match n.rule
      case StringRule => StringShown(n);
      case ArrayRule =>
        if n.partial { LastJoined(n.children); Bracketed("[", Joined(n.children), LastClosers(n.children), "]"); }
      case DictRule =>
        if n.partial { LastJoined(n.children); Bracketed("{", Joined(n.children), LastClosers(n.children), "}"); }
      case DictKv => LastConcatenated(n.children);
      case ValueRule => if |n.children| == 1 { UnfinishedShowsAll(n.children[0]); }
      case _ =>
    }
  }

  lemma StringShown(n: Node)
    requires n.rule == StringRule && n.text != ""
    ensures ToJson(n) + Closers(n) == ToJson(Finished(n))
  {
    hide Escape;
    if n.partial && n.children == [] {
      assert ToJson(NOTHING_YET) == "";
      assert "\"" + "" + "\"" == "\"" + "\"";
    }
  }

  lemma Bracketed(open: string, body: string, more: string, close: string)
    ensures open + body + "" + (more + close) == open + (body + more) + close
  {
  }

  lemma {:induction false} LastJoined(ns: seq<Node>)
    ensures Joined(ns) + LastClosers(ns) == Joined(LastFinished(ns))
    decreases ns, 0
  {
    hide ToJson, Finished, Closers;
    if |ns| == 1 {
      UnfinishedShowsAll(ns[0]);
    } else if |ns| > 1 {
      LastJoined(ns[1..]);
      var first, rest := ToJson(ns[0]), Joined(ns[1..]);
      assert LastFinished(ns)[1..] == LastFinished(ns[1..]);
      assert first + ("," + rest) + LastClosers(ns) == first + ("," + (rest + LastClosers(ns)));
    }
  }

  lemma {:induction false} LastConcatenated(ns: seq<Node>)
    ensures Concatenated(ns) + LastClosers(ns) == Concatenated(LastFinished(ns))
    decreases ns, 0
  {
    hide ToJson, Finished, Closers;
    if |ns| == 1 {
      UnfinishedShowsAll(ns[0]);
      assert Concatenated(ns[1..]) == "" && Concatenated(LastFinished(ns)[1..]) == "";
    } else if |ns| > 1 {
      LastConcatenated(ns[1..]);
      assert LastFinished(ns)[1..] == LastFinished(ns[1..]);
    }
  }

  /** So as soon as the last value is whole, the text shown and the closing texts are JSON for all that was read. */
  lemma UnfinishedParses(n: Node)
    requires Complete(Finished(n)) && (Finished(n).rule == ValueRule || IsValueRule(Finished(n).rule))
    ensures Parse(ToJson(n) + Closers(n)) == Done(ValueOf(Finished(n)), [])
  {
    hide ToJson, Closers, Finished, Complete, Parse;
    UnfinishedShowsAll(n);
    PrintsJson(Finished(n));
  }
}
