/** Turning the gemma4 syntax forest into a chat message, and streaming it. */
module Gemma4Mapper {
  import opened ChatDiff
  import opened ChatFilter
  import ChatStream
  import opened Gemma4Json
  import opened Json
  import opened Wrappers

  const MAX_DEPTH := 3

  /** Pre-order search for a tag, a bounded number of levels down. */
  function Find(ns: seq<Node>, tag: Tag, depth: nat): (r: Option<Node>)
    ensures r.Some? ==> r.value.tag == tag
    decreases depth, |ns|
  {
    if ns == [] then None
    else if ns[0].tag == tag then Some(ns[0])
    else
      var below := if depth > 1 then Find(ns[0].children, tag, depth - 1) else None;
      if below.Some? then below else Find(ns[1..], tag, depth)
  }

  function Add(a: Message, b: Message): Message {
    Message(a.reasoning + b.reasoning, a.content + b.content, a.toolCalls + b.toolCalls)
  }

  function ToolCallsOf(n: Node): seq<ToolCall> {
    var name, args := Find(n.children, ToolNameTag, MAX_DEPTH), Find(n.children, ToolArgsTag, MAX_DEPTH);
    if name.None? || args.None? || name.value.partial then []
    else [ToolCall(name.value.text, if args.value.children == [] then "" else ToJson(args.value.children[0]), "")]
  }

  /** What one node contributes to the message. */
  function Contribution(n: Node): Message
    decreases n
  {
    match n.tag
    case ReasoningTag => Message(n.text, "", [])
    case ContentTag => Message("", n.text, [])
    case ToolTag => Message("", "", ToolCallsOf(n))
    case _ => Contributions(n.children)
  }

  function Contributions(ns: seq<Node>): Message
    decreases ns
  {
    if ns == [] then EMPTY else Add(Contribution(ns[0]), Contributions(ns[1..]))
  }

  class Mapper {
    var result: Message

    constructor ()
      ensures result == EMPTY
    {
      result := EMPTY;
    }

    method FromAst(nodes: seq<Node>)
      modifies this
      ensures result == Add(old(result), Contributions(nodes))
      decreases nodes
    {
      assert result == Add(result, EMPTY);
      for i := 0 to |nodes|
        invariant Add(result, Contributions(nodes[i..])) == Add(old(result), Contributions(nodes))
      {
        var n := nodes[i];
        AddAssociative(result, Contribution(n), Contributions(nodes[i + 1..]));
        assert nodes[i..][1..] == nodes[i + 1..];
        Visit(n);
      }
      assert result == Add(result, EMPTY);
    }

    method Visit(n: Node)
      modifies this
      ensures result == Add(old(result), Contribution(n))
      decreases n
    {
      if n.tag == ReasoningTag {
        result := result.(reasoning := result.reasoning + n.text);
        AddText(old(result), n.text);
        return;
      }
      if n.tag == ContentTag {
        result := result.(content := result.content + n.text);
        AddText(old(result), n.text);
        return;
      }
      if n.tag == ToolTag {
        var name, args := Find(n.children, ToolNameTag, MAX_DEPTH), Find(n.children, ToolArgsTag, MAX_DEPTH);
        if name.Some? && args.Some? {
          if !name.value.partial {
            var call := ToolCall(name.value.text, "", "");
            if args.value.children != [] {
              call := call.(arguments := ToJson(args.value.children[0]));
            }
            result := result.(toolCalls := result.toolCalls + [call]);
          }
        }
        AddCalls(old(result), ToolCallsOf(n));
        return;
      }
      FromAst(n.children);
    }
  }

  lemma AddAssociative(a: Message, b: Message, c: Message)
    ensures Add(Add(a, b), c) == Add(a, Add(b, c))
  {
    assert a.reasoning + b.reasoning + c.reasoning == a.reasoning + (b.reasoning + c.reasoning);
    assert a.content + b.content + c.content == a.content + (b.content + c.content);
    assert a.toolCalls + b.toolCalls + c.toolCalls == a.toolCalls + (b.toolCalls + c.toolCalls);
  }

  lemma AddText(m: Message, t: string)
    ensures Add(m, Message(t, "", [])) == m.(reasoning := m.reasoning + t)
    ensures Add(m, Message("", t, [])) == m.(content := m.content + t)
  {
    assert m.reasoning + "" == m.reasoning && m.content + "" == m.content && m.toolCalls + [] == m.toolCalls;
  }

  lemma AddCalls(m: Message, calls: seq<ToolCall>)
    ensures Add(m, Message("", "", calls)) == m.(toolCalls := m.toolCalls + calls)
    ensures calls == [] ==> m.(toolCalls := m.toolCalls + calls) == m
  {
    assert m.reasoning + "" == m.reasoning && m.content + "" == m.content && m.toolCalls + [] == m.toolCalls;
  }

  // ---------------------------------------------------------------- what the message holds

  predicate Speaks(tag: Tag) {
    tag == ReasoningTag || tag == ContentTag || tag == ToolTag
  }

  /** The nodes of a tag from left to right, not looking into nodes that speak for themselves. */
  function Outermost(ns: seq<Node>, tag: Tag): seq<Node>
    decreases ns
  {
    if ns == [] then []
    else
      (if ns[0].tag == tag then [ns[0]] else if Speaks(ns[0].tag) then [] else Outermost(ns[0].children, tag))
      + Outermost(ns[1..], tag)
  }

  function Texts(ns: seq<Node>): string {
    if ns == [] then "" else ns[0].text + Texts(ns[1..])
  }

  function AllCalls(tools: seq<Node>): seq<ToolCall> {
    if tools == [] then [] else ToolCallsOf(tools[0]) + AllCalls(tools[1..])
  }

  lemma {:induction false} TextsConcat(a: seq<Node>, b: seq<Node>)
    ensures Texts(a + b) == Texts(a) + Texts(b)
  {
    if a == [] {
      assert a + b == b;
    } else {
      assert (a + b)[1..] == a[1..] + b;
      TextsConcat(a[1..], b);
    }
  }

  lemma {:induction false} CallsConcat(a: seq<Node>, b: seq<Node>)
    ensures AllCalls(a + b) == AllCalls(a) + AllCalls(b)
  {
    hide ToolCallsOf;
    if a == [] {
      assert a + b == b;
    } else {
      assert (a + b)[1..] == a[1..] + b;
      CallsConcat(a[1..], b);
    }
  }

  /** The message of a forest: its reasoning is the text of all reasoning nodes in order, its content that
      of all content nodes, and its calls are those of all tool nodes. */
  lemma {:induction false} MessageReads(ns: seq<Node>)
    ensures var m := Contributions(ns);
            && m.reasoning == Texts(Outermost(ns, ReasoningTag))
            && m.content == Texts(Outermost(ns, ContentTag))
            && m.toolCalls == AllCalls(Outermost(ns, ToolTag))
    decreases ns, 1
  {
    hide ToolCallsOf, Outermost, Contribution;
    if ns == [] {
      assert forall tag :: Outermost([], tag) == [] by { NoneOutermost(); }
    } else {
      NodeReads(ns[0]);
      MessageReads(ns[1..]);
      SplitFirst(ns, ReasoningTag);
      SplitFirst(ns, ContentTag);
      SplitFirst(ns, ToolTag);
    }
  }

  lemma SplitFirst(ns: seq<Node>, tag: Tag)
    requires ns != []
    ensures Texts(Outermost(ns, tag)) == Texts(Outermost([ns[0]], tag)) + Texts(Outermost(ns[1..], tag))
    ensures AllCalls(Outermost(ns, tag)) == AllCalls(Outermost([ns[0]], tag)) + AllCalls(Outermost(ns[1..], tag))
  {
    hide ToolCallsOf, AllCalls, Texts, Outermost;
    var one := Outermost([ns[0]], tag);
    assert Outermost(ns, tag) == one + Outermost(ns[1..], tag) by { FirstOutermost(ns, tag); }
    TextsConcat(one, Outermost(ns[1..], tag));
    CallsConcat(one, Outermost(ns[1..], tag));
  }

  lemma {:induction false} NodeReads(n: Node)
    ensures Contribution(n).reasoning == Texts(Outermost([n], ReasoningTag))
    ensures Contribution(n).content == Texts(Outermost([n], ContentTag))
    ensures Contribution(n).toolCalls == AllCalls(Outermost([n], ToolTag))
    decreases n, 0
  {
    hide ToolCallsOf, Outermost;
    OneOutermost(n, ReasoningTag);
    OneOutermost(n, ContentTag);
    OneOutermost(n, ToolTag);
    if Speaks(n.tag) {
      assert Texts([n]) == n.text && AllCalls([n]) == ToolCallsOf(n) by { OneText(n); }
      assert Texts([]) == "" && AllCalls([]) == [];
    } else {
      MessageReads(n.children);
    }
  }

  lemma OneText(n: Node)
    ensures Texts([n]) == n.text && AllCalls([n]) == ToolCallsOf(n)
  {
    hide ToolCallsOf;
    assert [n][1..] == [] && n.text + "" == n.text && ToolCallsOf(n) + [] == ToolCallsOf(n);
  }

  lemma NoneOutermost()
    ensures forall tag :: Outermost([], tag) == []
  {
  }

  lemma FirstOutermost(ns: seq<Node>, tag: Tag)
    requires ns != []
    ensures Outermost(ns, tag) == Outermost([ns[0]], tag) + Outermost(ns[1..], tag)
  {
    OneOutermost(ns[0], tag);
  }

  lemma OneOutermost(n: Node, tag: Tag)
    ensures Outermost([n], tag) ==
            if n.tag == tag then [n] else if Speaks(n.tag) then [] else Outermost(n.children, tag)
  {
    var first := if n.tag == tag then [n] else if Speaks(n.tag) then [] else Outermost(n.children, tag);
    assert [n][1..] == [] && first + [] == first;
    assert Outermost([n], tag) == first + Outermost([n][1..], tag);
  }

  /** All nodes of a tag in pre-order, down to the given level. */
  function Listed(ns: seq<Node>, tag: Tag, depth: nat): seq<Node>
    decreases depth, |ns|
  {
    if depth == 0 || ns == [] then []
    else
      (if ns[0].tag == tag then [ns[0]] else []) + Listed(ns[0].children, tag, depth - 1) + Listed(ns[1..], tag, depth)
  }

  lemma ListedFirst(ns: seq<Node>, tag: Tag, depth: nat)
    requires depth > 0 && ns != []
    ensures var here := if ns[0].tag == tag then [ns[0]] else [];
            Listed(ns, tag, depth) == here + Listed(ns[0].children, tag, depth - 1) + Listed(ns[1..], tag, depth)
  {
  }

  lemma NothingListed(tag: Tag, depth: nat)
    ensures Listed([], tag, depth) == []
    ensures forall ns: seq<Node> :: Listed(ns, tag, 0) == []
  {
  }

  /** The search finds the first of them. */
  lemma {:induction false} FindsFirst(ns: seq<Node>, tag: Tag, depth: nat)
    requires depth > 0
    ensures var all := Listed(ns, tag, depth); Find(ns, tag, depth) == if all == [] then None else Some(all[0])
    decreases depth, |ns|
  {
    hide Listed;
    NothingListed(tag, depth);
    if ns != [] {
      ListedFirst(ns, tag, depth);
      if depth > 1 { FindsFirst(ns[0].children, tag, depth - 1); }
      FindsFirst(ns[1..], tag, depth);
    }
  }

  /** A tool node shows a call once it has a finished name and arguments: the call's name is the text of
      the first name below it, and its arguments with the closing texts are JSON for what was read. */
  lemma CallReads(n: Node)
    ensures var names, args := Listed(n.children, ToolNameTag, 3), Listed(n.children, ToolArgsTag, 3);
            if names == [] || args == [] || names[0].partial then ToolCallsOf(n) == []
            else
              |ToolCallsOf(n)| == 1 &&
              var call := ToolCallsOf(n)[0];
              call.name == names[0].text && call.id == "" &&
              if args[0].children == [] then call.arguments == ""
              else
                var tree := args[0].children[0];
                var whole := Finished(tree);
                Complete(whole) && (whole.rule == ValueRule || IsValueRule(whole.rule)) ==>
                  Parse(call.arguments + Closers(tree)) == Done(ValueOf(whole), [])
  {
    hide ToJson, Closers, Finished, Parse, Find, Listed, Complete;
    FindsFirst(n.children, ToolNameTag, 3);
    FindsFirst(n.children, ToolArgsTag, 3);
    var args := Listed(n.children, ToolArgsTag, 3);
    if args != [] && args[0].children != [] {
      var tree := args[0].children[0];
      if Complete(Finished(tree)) && (Finished(tree).rule == ValueRule || IsValueRule(Finished(tree).rule)) {
        UnfinishedParses(tree);
      }
    }
  }

  // ---------------------------------------------------------------- streaming

  /** A tag found in a tree is found again after growth, in a node grown from it. */
  lemma {:induction false} FindGrows(as_: seq<Node>, bs: seq<Node>, tag: Tag, depth: nat)
    requires AllGrow(as_, bs) && Find(as_, tag, depth).Some?
    ensures Find(bs, tag, depth).Some? && Grows(Find(as_, tag, depth).value, Find(bs, tag, depth).value)
    decreases depth, |as_|
  {
    HeadGrows(as_, bs);
    var a, b := as_[0], bs[0];
    if a.tag != tag {
      if depth > 1 && Find(a.children, tag, depth - 1).Some? {
        if a != b {
          FindGrows(a.children, b.children, tag, depth - 1);
        }
      } else {
        assert |as_| > 1;
        FindGrows(as_[1..], bs[1..], tag, depth);
      }
    }
  }

  lemma AddGrows(p: Message, a: Message, b: Message)
    requires ChatStream.GrowsKeepingNames(a, b)
    ensures ChatStream.GrowsKeepingNames(Add(p, a), Add(p, b))
  {
    PrefixAppend(a.reasoning, b.reasoning, p.reasoning, "");
    PrefixAppend(a.content, b.content, p.content, "");
  }

  lemma GrowsByAdding(a: Message, b: Message, more: Message)
    requires ChatStream.GrowsKeepingNames(a, b)
    ensures ChatStream.GrowsKeepingNames(a, Add(b, more))
  {
    PrefixAppend(a.reasoning, b.reasoning, "", more.reasoning);
    PrefixAppend(a.content, b.content, "", more.content);
  }

  /** Nothing of the node is shown yet: no text, and no call whose name is known. */
  predicate Silent(n: Node) {
    Contribution(n) == EMPTY
  }

  predicate AllSilent(ns: seq<Node>) {
    forall i | 0 <= i < |ns| :: Silent(ns[i])
  }

  /** How the tree of a longer input relates to the tree of a shorter one, seen from the conversation:
      texts are extended, whether the parser took them as finished or not, a call's tree grows as
      its arguments do, and the nodes around these grow with them. */
  ghost predicate NodeGrows(a: Node, b: Node)
    decreases a, 1
  {
    a == b || (Silent(a) && Silent(b)) ||
    (a.tag == b.tag &&
     match a.tag
     case ReasoningTag => a.text <= b.text
     case ContentTag => a.text <= b.text
     case ToolTag => AllGrow(a.children, b.children)
     case _ => ForestGrows(a.children, b.children))
  }

  /** The last node that shows something grows, and others may follow. Silent nodes after it, such as the
      beginning of a call that turns out to be text, may be gone from the longer input's forest. */
  ghost predicate ForestGrows(as_: seq<Node>, bs: seq<Node>)
    decreases as_, 0
  {
    AllSilent(as_) ||
    (as_ != [] && bs != [] &&
     if AllSilent(as_[1..]) then NodeGrows(as_[0], bs[0])
     else SameShown(as_[0], bs[0]) && ForestGrows(as_[1..], bs[1..]))
  }

  predicate SameShown(a: Node, b: Node) {
    Contribution(a) == Contribution(b)
  }

  lemma ToolGrows(a: Node, b: Node)
    requires AllGrow(a.children, b.children)
    ensures ChatStream.CallsGrow(ToolCallsOf(a), ToolCallsOf(b))
    ensures forall i | 0 <= i < |ToolCallsOf(a)| :: ToolCallsOf(a)[i].name == ToolCallsOf(b)[i].name
  {
    hide ToJson, AllGrow;
    if ToolCallsOf(a) != [] {
      FindGrows(a.children, b.children, ToolNameTag, MAX_DEPTH);
      FindGrows(a.children, b.children, ToolArgsTag, MAX_DEPTH);
      var x, y := Find(a.children, ToolArgsTag, MAX_DEPTH).value, Find(b.children, ToolArgsTag, MAX_DEPTH).value;
      if x != y && x.children != [] {
        HeadGrows(x.children, y.children);
        Monotone(x.children[0], y.children[0]);
      }
    }
  }

  /** A node's contribution only grows: text by extension, finished calls unchanged, the arguments
      of the last call by extension. */
  lemma {:induction false} ContributionGrows(a: Node, b: Node)
    requires NodeGrows(a, b)
    ensures ChatStream.GrowsKeepingNames(Contribution(a), Contribution(b))
    decreases a, 1
  {
    hide ToolCallsOf, ForestGrows, AllGrow;
    if a != b && !(Silent(a) && Silent(b)) {
      match a.tag
      case ReasoningTag =>
      case ContentTag =>
      case ToolTag => ToolGrows(a, b);
      case _ => ContributionsGrow(a.children, b.children);
    }
  }

  lemma {:induction false} ContributionsGrow(as_: seq<Node>, bs: seq<Node>)
    requires ForestGrows(as_, bs)
    ensures ChatStream.GrowsKeepingNames(Contributions(as_), Contributions(bs))
    decreases as_, 0
  {
    NothingIsSilent();
    hide Contribution, ChatStream.GrowsKeepingNames, NodeGrows, AllSilent;
    if AllSilent(as_) {
      SilentForest(as_);
      EmptyGrows(Contributions(bs));
    } else if AllSilent(as_[1..]) {
      SilentForest(as_[1..]);
      ContributionGrows(as_[0], bs[0]);
      GrowsByAdding(Contribution(as_[0]), Contribution(bs[0]), Contributions(bs[1..]));
      AddNothing(Contribution(as_[0]));
    } else {
      ContributionsGrow(as_[1..], bs[1..]);
      AddGrows(Contribution(as_[0]), Contributions(as_[1..]), Contributions(bs[1..]));
    }
  }

  lemma {:induction false} SilentForest(ns: seq<Node>)
    requires AllSilent(ns)
    ensures Contributions(ns) == EMPTY
  {
    hide Contribution;
    if ns != [] {
      assert Silent(ns[0]);
      SilentForest(ns[1..]);
    }
  }

  lemma NothingIsSilent()
    ensures AllSilent([])
  {
  }

  lemma AddNothing(m: Message)
    ensures Add(m, EMPTY) == m
  {
    assert m.reasoning + "" == m.reasoning && m.content + "" == m.content && m.toolCalls + [] == m.toolCalls;
  }

  lemma EmptyGrows(m: Message)
    ensures ChatStream.GrowsKeepingNames(EMPTY, m)
  {
  }

  ghost predicate ForestsGrow(last: seq<Node>, forests: seq<seq<Node>>)
    decreases |forests|
  {
    forests == [] || (ForestGrows(last, forests[0]) && ForestsGrow(forests[0], forests[1..]))
  }

  function Wrapped(name: string, child: Node): Node {
    Node(OtherRule(name), NoTag, child.text, [child], child.partial)
  }

  /** A content that first ends in the beginning of a marker, and then goes on: the nodes around it are
      taken as finished and grow nevertheless, and the call that seemed to begin is gone. */
  lemma DelimiterExample(before: string, after: string)
    requires before != "" && before <= after
    ensures var text := (t: string) => Node(OtherRule(""), ContentTag, t, [], false);
            var message := (t: string) => Wrapped("message", Wrapped("content", text(t)));
            var call := Node(OtherRule("tool-call"), NoTag, "<|tool", [], true);
            ForestsGrow([], [[message(before), call], [message(after)]])
  {
    var text := (t: string) => Node(OtherRule(""), ContentTag, t, [], false);
    var call := Node(OtherRule("tool-call"), NoTag, "<|tool", [], true);
    var x, y := text(before), text(after);
    var cx, cy := Wrapped("content", x), Wrapped("content", y);
    var mx, my := Wrapped("message", cx), Wrapped("message", cy);
    assert [mx, call][1..] == [call] && [x][1..] == [] && [cx][1..] == [];
    assert NodeGrows(x, y);
    assert ForestGrows([x], [y]);
    assert NodeGrows(cx, cy);
    assert ForestGrows([cx], [cy]);
    assert NodeGrows(mx, my);
    assert Silent(call);
    assert AllSilent([mx, call][1..]);
    assert ForestGrows([mx, call], [my]);
    TwoForests([mx, call], [my]);
  }

  /** A string that the parser expects at the end of the input. */
  const EXPECTED := Node(StringRule, NoTag, "", [], true)

  /** The call `f{days:` with a value behind the colon, unfinished. */
  function DaysValue(value: Node): Node {
    Node(ValueRule, NoTag, value.text, [value], true)
  }

  function DaysKv(value: Node): Node {
    var key := Node(DictKey, NoTag, "days:", [Node(DictKeyName, NoTag, "days", [], false)], false);
    Node(DictKv, NoTag, "days:" + value.text, [key, DaysValue(value)], true)
  }

  function DaysDict(value: Node): Node {
    Node(DictRule, NoTag, "{" + DaysKv(value).text, [DaysKv(value)], true)
  }

  function DaysCall(value: Node): Node {
    var name := Node(OtherRule(""), ToolNameTag, "f", [], false);
    var open := Node(OtherRule(""), OtherTag("tool-open"), "f", [name], false);
    var args := Node(OtherRule(""), ToolArgsTag, DaysDict(value).text, [DaysDict(value)], true);
    Node(OtherRule(""), ToolTag, "f" + args.text, [open, args], true)
  }

  /** A call first stops behind a colon, where the parser expects a string, and then has a value of any kind. */
  lemma PlaceholderExample(value: Node)
    requires value.tag == NoTag
    ensures ForestsGrow([], [[DaysCall(EXPECTED)], [DaysCall(value)]])
  {
    hide *;
    DaysCallGrows(value);
    OneGrows(DaysCall(EXPECTED), DaysCall(value));
    TwoForests([DaysCall(EXPECTED)], [DaysCall(value)]);
  }

  lemma DaysCallGrows(value: Node)
    requires value.tag == NoTag
    ensures NodeGrows(DaysCall(EXPECTED), DaysCall(value))
  {
    hide Contribution, ForestGrows, DaysKv, AllGrow, Grows;
    var a, b := DaysCall(EXPECTED), DaysCall(value);
    DaysGrow(value);
    PrefixAppend(DaysKv(EXPECTED).text, DaysKv(value).text, "{", "");
    AroundGrows(DaysDict(EXPECTED), DaysDict(value), [], DaysKv(EXPECTED), DaysKv(value));
    AroundGrows(a.children[1], b.children[1], [], DaysDict(EXPECTED), DaysDict(value));
    LastGrows(a.children[1], b.children[1], [a.children[0]]);
    assert a.children == [a.children[0]] + [a.children[1]] && b.children == [a.children[0]] + [b.children[1]];
  }

  lemma TwoForests(as_: seq<Node>, bs: seq<Node>)
    requires ForestGrows(as_, bs)
    ensures ForestsGrow([], [as_, bs])
  {
    hide ForestGrows;
    assert [as_, bs][1..] == [bs] && [bs][1..] == [];
    NothingGrows(as_);
    assert ForestsGrow(as_, [bs]);
  }

  lemma DaysGrow(value: Node)
    requires value.tag == NoTag
    ensures Grows(DaysKv(EXPECTED), DaysKv(value)) && DaysKv(EXPECTED).text <= DaysKv(value).text
  {
    AroundGrows(DaysValue(EXPECTED), DaysValue(value), [], EXPECTED, value);
    var key := DaysKv(EXPECTED).children[0];
    AroundGrows(DaysKv(EXPECTED), DaysKv(value), [key], DaysValue(EXPECTED), DaysValue(value));
  }

  /** An unfinished node grows with its last child. */
  lemma AroundGrows(a: Node, b: Node, front: seq<Node>, x: Node, y: Node)
    requires a.rule == b.rule && a.tag == b.tag && a.text <= b.text && a.partial && |front| <= 1
    requires a.children == front + [x] && b.children == front + [y] && Grows(x, y)
    ensures Grows(a, b)
  {
    LastGrows(x, y, front);
  }

  lemma LastGrows(a: Node, b: Node, front: seq<Node>)
    requires Grows(a, b) && |front| <= 1
    ensures AllGrow(front + [a], front + [b])
  {
    hide Grows;
    assert (front + [a])[|front|..] == [a] && (front + [b])[|front|..] == [b];
  }

  lemma OneGrows(a: Node, b: Node)
    requires NodeGrows(a, b)
    ensures ForestGrows([a], [b])
  {
    hide NodeGrows, Silent;
    NothingIsSilent();
    assert [a][1..] == [];
  }

  lemma NothingGrows(ns: seq<Node>)
    ensures ForestGrows([], ns)
  {
    NothingIsSilent();
  }

  function Messages(forests: seq<seq<Node>>): seq<Message>
    decreases |forests|
  {
    if forests == [] then [] else [Contributions(forests[0])] + Messages(forests[1..])
  }

  lemma {:induction false} MessagesGrow(last: seq<Node>, forests: seq<seq<Node>>)
    requires ForestsGrow(last, forests)
    ensures ChatStream.KeepingFrom(Contributions(last), Messages(forests))
    ensures |Messages(forests)| == |forests|
    ensures forests != [] ==> Messages(forests)[|forests| - 1] == Contributions(forests[|forests| - 1])
    decreases |forests|
  {
    hide Contributions, ChatStream.GrowsKeepingNames, ForestGrows;
    if forests != [] {
      ContributionsGrow(last, forests[0]);
      MessagesGrow(forests[0], forests[1..]);
    }
  }

  /** Streaming a gemma4 conversation: however the syntax forest grows step by step, no delta ever
      fails, and the client ends with the message of the last forest (its calls carrying the cached
      ids). */
  lemma StreamedForests(forests: seq<seq<Node>>, generate: ChatStream.Generator)
    requires ForestsGrow([], forests)
    ensures var s := ChatStream.Run(ChatStream.Session(ChatStream.START, EMPTY, false), Messages(forests), generate);
            var last := if forests == [] then EMPTY else Contributions(forests[|forests| - 1]);
            && !s.failed
            && |last.toolCalls| <= |s.server.cache.ids|
            && s.client == last.(toolCalls := ChatStream.WithIds(last.toolCalls, s.server.cache.ids))
  {
    hide ForestsGrow;
    MessagesGrow([], forests);
    ChatStream.KeepingIsGrowing(EMPTY, Messages(forests));
    ChatStream.StreamIsFaithful(Messages(forests), generate);
  }

  // ---------------------------------------------------------------- streaming with filtered tool calls

  /** Every finished name of a tool has text, as the names of declared functions have. */
  predicate NameFilled(n: Node)
    decreases n, 1
  {
    (n.tag == ToolNameTag && !n.partial ==> n.text != "") && NamesFilled(n.children)
  }

  predicate NamesFilled(ns: seq<Node>)
    decreases ns, 0
  {
    ns == [] || (NameFilled(ns[0]) && NamesFilled(ns[1..]))
  }

  lemma {:induction false} FindFilled(ns: seq<Node>, tag: Tag, depth: nat)
    requires NamesFilled(ns) && Find(ns, tag, depth).Some?
    ensures NameFilled(Find(ns, tag, depth).value)
    decreases depth, |ns|
  {
    if ns[0].tag != tag {
      if depth > 1 && Find(ns[0].children, tag, depth - 1).Some? {
        FindFilled(ns[0].children, tag, depth - 1);
      } else {
        FindFilled(ns[1..], tag, depth);
      }
    }
  }

  lemma {:induction false} ContributionNamed(n: Node)
    requires NameFilled(n)
    ensures AllNamed(Contribution(n).toolCalls)
    decreases n, 1
  {
    hide ToJson, Find, Contributions;
    if n.tag == ToolTag {
      if ToolCallsOf(n) != [] { FindFilled(n.children, ToolNameTag, MAX_DEPTH); }
    } else if n.tag != ReasoningTag && n.tag != ContentTag {
      ContributionsNamed(n.children);
    }
  }

  lemma {:induction false} ContributionsNamed(ns: seq<Node>)
    requires NamesFilled(ns)
    ensures AllNamed(Contributions(ns).toolCalls)
    decreases ns, 0
  {
    hide Contribution, NameFilled;
    if ns != [] {
      ContributionNamed(ns[0]);
      ContributionsNamed(ns[1..]);
    }
  }

  /** With filtered tool calls as well: a name is not shown before it is finished, and then never changes, so
      the client of the filtered stream ends with the message of the last forest. */
  lemma FilteredForests(forests: seq<seq<Node>>, generate: ChatStream.Generator)
    requires ForestsGrow([], forests) && forests != [] && NamesFilled(forests[|forests| - 1])
    ensures var start := ChatStream.FilteredSession(ChatStream.START, {}, EMPTY, false);
            var s := ChatStream.RunFiltered(start, ChatStream.Chunks(Messages(forests)), generate);
            var last := Contributions(forests[|forests| - 1]);
            && !s.failed
            && |last.toolCalls| <= |s.server.cache.ids|
            && s.client == last.(toolCalls := ChatStream.WithIds(last.toolCalls, s.server.cache.ids))
  {
    hide ForestsGrow, NamesFilled, Contributions, ChatStream.KeepingFrom, ChatStream.RunFiltered, AllNamed;
    MessagesGrow([], forests);
    assert Contributions([]) == EMPTY by { NothingContributed(); }
    ContributionsNamed(forests[|forests| - 1]);
    ChatStream.FilteredWithFixedNames(Messages(forests), generate);
  }

  lemma NothingContributed()
    ensures Contributions([]) == EMPTY
  {
  }
}
