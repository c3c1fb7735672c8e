/** What the tool-call mapper guarantees over whole runs of well-nested tagged nodes. */
module ToolCallRuns {
  import opened Json
  import opened ChatDiff
  import opened ToolCallMapper
  import B = BraceScanner
  import opened Sequences
  import opened Wrappers

  // ---------------------------------------------------------------- well-nested runs

  /** An argument: its name, the value it denotes, and the text that stands for the value. */
  datatype Entry = Entry(key: string, value: Value, text: string)

  datatype Call = Call(name: string, members: seq<Member>)

  /** Outside calls; inside a call between arguments, in one, after its name, after its value, after the
      beginning of one; or inside a call whose arguments came as one text. */
  datatype Phase =
    | Idle | Between | InArg | HasKey(key: string) | Valued(k: string, value: Value, text: string, quoted: bool)
    | Unfinished(uk: string, begun: string) | Given(args: string)

  /** Where a run stands: the calls already closed, and the name, arguments and nesting of the open one. */
  datatype Progress = Progress(done: seq<Call>, name: string, entries: seq<Entry>, phase: Phase)

  const START := Progress([], "", [], Idle)

  /** The value an argument node denotes. A string argument is its own text; other text is JSON when
      it parses, and a string otherwise. Empty text and unfinished containers denote nothing. */
  function Denoted(e: Event): Option<Value> {
    var w := TrimOnce(e.text);
    if e.tag == ArgStringValue then Some(Str(w))
    else if w == "" then None
    else
      var parsed := Parse(Normalize(w));
      if parsed.Done? then Some(parsed.value)
      else if e.partial && IsContainer(w) then None
      else Some(Str(Normalize(w)))
  }

  function MembersOf(es: seq<Entry>): seq<Member> {
    if es == [] then [] else [Member(es[0].key, es[0].value)] + MembersOf(es[1..])
  }

  /** The node's text without the white space at its end is the beginning of an object. */
  predicate BeginsObject(e: Event) {
    var t := TrimTrailing(e.text, -1);
    t != "" && t[0] == '{'
  }

  /** The members of a complete object text. */
  function ObjectMembers(text: string): Option<seq<Member>> {
    var parsed := Parse(text);
    if parsed.Done? && parsed.value.Obj? then Some(parsed.value.members) else None
  }

  function AfterValue(p: Progress): Progress
    requires p.phase.Valued?
  {
    var text := p.phase.text + if p.phase.quoted then "\"" else "";
    p.(entries := p.entries + [Entry(p.phase.k, p.phase.value, text)], phase := Between)
  }

  function Closed(p: Progress, members: seq<Member>): Progress {
    Progress(p.done + (if p.name == "" then [] else [Call(p.name, members)]), "", [], Idle)
  }

  /** The open call's arguments came at once, and are complete. */
  predicate GivenWhole(p: Progress) {
    p.phase.Given? && ObjectMembers(p.phase.args).Some?
  }

  /** The nesting rules of tool calls: nodes that may come next, and where they lead. Arguments come one by
      one, or all at once as the text of an object, which must be complete when the call closes. Formats
      without a node for the end of a call end it where the next one opens. Behind a value that denotes nothing
      yet nothing but texts and nodes without effect may come. */
  function Advance(p: Progress, e: Event): Option<Progress> {
    match e.tag
    case Reasoning => Some(p)
    case Content => Some(p)
    case Untagged => Some(p)
    case ToolArgs =>
      if p.phase.Idle? then None
      else if !BeginsObject(e) then Some(p)
      else if p.phase.Between? && p.entries == [] then Some(p.(phase := Given(TrimTrailing(e.text, -1))))
      else None
    case ToolOpen =>
      if p.phase.Idle? then Some(Progress(p.done, "", [], Between))
      else if GivenWhole(p) then Some(Closed(p, ObjectMembers(p.phase.args).value).(phase := Between))
      else None
    case ToolId => if p.phase.Between? || p.phase.Given? then Some(p) else None
    case ToolName =>
      var name := TrimTrailing(e.text, -1);
      if (p.phase.Between? || p.phase.Given?) && p.name == "" && name != "" then Some(p.(name := name)) else None
    case ArgOpen => if p.phase.Between? then Some(p.(phase := InArg)) else None
    case ArgName => if p.phase.InArg? then Some(p.(phase := HasKey(Trim(e.text)))) else None
    case ArgClose =>
      if p.phase.Valued? then Some(AfterValue(p)) else None
    case ToolClose =>
      if p.phase.Between? then Some(Closed(p, MembersOf(p.entries)))
      else if GivenWhole(p) then Some(Closed(p, ObjectMembers(p.phase.args).value))
      else None
    case _ =>
      if p.phase.HasKey? then
        var a := ValueAddition(e, false);
        Some(p.(phase := if Denoted(e).None? then Unfinished(p.phase.key, a.text)
                         else Valued(p.phase.key, Denoted(e).value, a.text, a.closingQuote)))
      else None
  }

  function AdvanceAll(p: Progress, es: seq<Event>): Option<Progress>
    decreases |es|
  {
    if es == [] then Some(p)
    else
      var next := Advance(p, es[0]);
      if next.None? then None else AdvanceAll(next.value, es[1..])
  }

  // ---------------------------------------------------------------- the text of an argument object

  function EntryText(e: Entry): string {
    Quote(e.key) + ":" + e.text
  }

  function Joined(es: seq<Entry>): string {
    if es == [] then ""
    else Joined(es[..|es| - 1]) + (if |es| == 1 then "" else ",") + EntryText(es[|es| - 1])
  }

  function Base(p: Progress): string {
    if p.entries == [] && p.name == "" then "" else "{" + Joined(p.entries)
  }

  function KeyText(p: Progress, key: string): string {
    "{" + Joined(p.entries) + (if p.entries == [] then "" else ",") + Quote(key) + ":"
  }

  /** The argument text of the open call at this point of the run. */
  function OpenText(p: Progress): string {
    match p.phase
    case HasKey(key) => KeyText(p, key)
    case Valued(key, _, text, _) => KeyText(p, key) + text
    case Unfinished(key, begun) => KeyText(p, key) + begun
    case Given(args) => args
    case _ => Base(p)
  }

  predicate EntryOk(e: Entry) {
    Parse(e.text) == Done(e.value, [])
  }

  predicate EntriesOk(es: seq<Entry>) {
    forall i | 0 <= i < |es| :: EntryOk(es[i])
  }

  predicate CallOk(actual: ToolCall, expected: Call) {
    actual.name == expected.name && Parse(actual.arguments) == Done(Obj(expected.members), [])
  }

  predicate CallsOk(actual: seq<ToolCall>, expected: seq<Call>) {
    |actual| == |expected| && forall i | 0 <= i < |actual| :: CallOk(actual[i], expected[i])
  }

  lemma JoinedOne(e: Entry)
    ensures Joined([e]) == EntryText(e)
  {
    assert [e][..0] == [] && Joined([]) == "";
    assert "" + "" + EntryText(e) == EntryText(e);
  }

  lemma {:induction false} JoinedCons(es: seq<Entry>)
    requires es != []
    ensures Joined(es) == EntryText(es[0]) + if |es| == 1 then "" else "," + Joined(es[1..])
    decreases |es|
  {
    hide EntryText, Joined;
    var n := |es|;
    var first, last := EntryText(es[0]), EntryText(es[n - 1]);
    if n == 1 {
      JoinedOne(es[0]);
      assert es == [es[0]] && first + "" == first;
    } else {
      var init := es[..n - 1];
      assert es == init + [es[n - 1]];
      JoinedSnoc(init, es[n - 1]);
      JoinedCons(init);
      if n == 2 {
        JoinedOne(es[1]);
        assert es[1..] == [es[1]] && first + "" + "," + last == first + ("," + last);
      } else {
        var mid := init[1..];
        JoinedSnoc(mid, es[n - 1]);
        assert es[1..] == mid + [es[n - 1]];
        assert first + ("," + Joined(mid)) + "," + last == first + ("," + (Joined(mid) + "," + last));
      }
    }
  }

  lemma JoinedSnoc(es: seq<Entry>, e: Entry)
    ensures Joined(es + [e]) == Joined(es) + (if es == [] then "" else ",") + EntryText(e)
  {
    assert (es + [e])[..|es|] == es;
  }

  /** Closing the object after well-formed entries gives a JSON object with exactly those members. */
  lemma {:induction false} ObjectReads(es: seq<Entry>)
    requires EntriesOk(es) && es != []
    ensures ReadMembers(Joined(es) + "}") == Done(MembersOf(es), [])
  {
    hide ReadMembers, ReadValue, Quote, Parse;
    var e := es[0];
    var tail := (if |es| == 1 then "" else "," + Joined(es[1..])) + "}";
    JoinedCons(es);
    assert Joined(es) + "}" == Quote(e.key) + ":" + e.text + tail by { hide Joined; }
    assert EntryOk(e);
    var ws := ValueFollowedBy(e.text, e.value, tail);
    ReadMembersStep(e.key, e.text, e.value, ws, tail);
    if |es| == 1 {
      assert tail[1..] == [] && es[1..] == [];
      assert MembersOf(es) == [Member(e.key, e.value)];
    } else {
      assert tail[1..] == Joined(es[1..]) + "}";
      ObjectReads(es[1..]);
    }
  }

  lemma ValueFollowedBy(text: string, v: Value, tail: string) returns (ws: string)
    requires Parse(text) == Done(v, []) && tail != [] && (tail[0] == ',' || tail[0] == '}')
    ensures ReadValue(text + tail) == Done(v, ws + tail) && SkipWs(ws) == []
  {
    hide ReadValue;
    ws := ReadValue(text).rest;
    ReadValueAppend(text, tail);
  }

  lemma ObjectParses(es: seq<Entry>)
    requires EntriesOk(es)
    ensures Parse("{" + Joined(es) + "}") == Done(Obj(MembersOf(es)), [])
  {
    hide ReadMembers, ReadItems, ReadScalar, ReadString, Joined;
    var body := Joined(es) + "}";
    var all := "{" + Joined(es) + "}";
    assert all == "{" + body && all[1..] == body;
    assert SkipWs(all) == all;
    if es == [] {
      assert body == "}" by { JoinedEmpty(); }
      assert SkipWs(body) == body && body[1..] == [];
    } else {
      ObjectReads(es);
      MembersStart(body);
    }
  }

  lemma JoinedEmpty()
    ensures Joined([]) == ""
  {
  }

  // ---------------------------------------------------------------- the brace counter on that text

  lemma RunEntry(d: int, e: Entry)
    requires EntryOk(e)
    ensures B.Run(B.Outside(d), EntryText(e)) == B.Outside(d)
  {
    RunKey(d, e.key, e.text);
    B.JsonTextIsBalanced(d, e.text);
  }

  lemma RunKey(d: int, key: string, text: string)
    ensures B.Run(B.Outside(d), Quote(key) + ":" + text) == B.Run(B.Outside(d), text)
  {
    hide Quote;
    assert Quote(key) + ":" + text == Quote(key) + (":" + text);
    B.RunQuote(d, key, ":" + text);
    assert (":" + text)[1..] == text;
  }

  lemma RunComma(d: int, c: string, s: string)
    requires c == "" || c == ","
    ensures B.Run(B.Outside(d), c + s) == B.Run(B.Outside(d), s)
  {
    if c == "" { assert c + s == s; } else { assert (c + s)[1..] == s; }
  }

  lemma {:induction false} RunJoined(es: seq<Entry>)
    requires EntriesOk(es)
    ensures B.Run(B.START, "{" + Joined(es)) == B.Outside(1)
  {
    hide EntryText, EntryOk, B.Run;
    if es == [] {
      JoinedEmpty();
      assert "{" + "" == "{";
      RunOpenBrace();
    } else {
      var n := |es|;
      var c, t := if n == 1 then "" else ",", EntryText(es[n - 1]);
      RunJoined(es[..n - 1]);
      assert "{" + Joined(es) == "{" + Joined(es[..n - 1]) + (c + t);
      B.RunConcat(B.START, "{" + Joined(es[..n - 1]), c + t);
      RunComma(1, c, t);
      RunEntry(1, es[n - 1]);
    }
  }

  lemma RunOpenBrace()
    ensures B.Run(B.START, "{") == B.Outside(1)
  {
    assert "{"[1..] == [];
  }

  lemma RunKeyText(p: Progress, key: string, text: string)
    requires EntriesOk(p.entries)
    ensures B.Run(B.START, KeyText(p, key) + text) == B.Run(B.Outside(1), text)
  {
    hide Quote, Joined, B.Run;
    var c := if p.entries == [] then "" else ",";
    var j, k := "{" + Joined(p.entries), Quote(key) + ":" + text;
    assert KeyText(p, key) + text == j + (c + k);
    B.RunConcat(B.START, j, c + k);
    RunJoined(p.entries);
    RunComma(1, c, k);
    RunKey(1, key, text);
  }

  // ---------------------------------------------------------------- one value

  predicate AdditionOk(a: Addition, v: Value) {
    Parse(a.text + if a.closingQuote then "\"" else "") == Done(v, []) &&
    B.Run(B.Outside(1), a.text) == if a.closingQuote then B.Inside(1) else B.Outside(1)
  }

  lemma OpenStringOk(s: string)
    ensures AdditionOk(Addition("\"" + Escape(s), true), Str(s))
  {
    hide ReadValue, Escape;
    assert "\"" + Escape(s) + "\"" == Quote(s) == Quote(s) + [];
    ReadQuoted(s, []);
    assert ("\"" + Escape(s))[1..] == Escape(s);
    B.RunEscape(1, s);
  }

  lemma WholeTextOk(text: string, v: Value)
    requires Parse(text) == Done(v, [])
    ensures AdditionOk(Addition(text, false), v)
  {
    hide Parse;
    assert text + "" == text;
    B.JsonTextIsBalanced(1, text);
  }

  /** Whatever a value node adds is, once the owed quote is written, JSON text for the value it denotes. */
  lemma ValueOk(e: Event)
    requires (e.tag == ArgValue || e.tag == ArgStringValue) && Denoted(e).Some?
    ensures AdditionOk(ValueAddition(e, false), Denoted(e).value)
  {
    hide AdditionOk, Parse, Escape, Normalize;
    var w := TrimOnce(e.text);
    if e.tag == ArgStringValue {
      OpenStringOk(w);
      if w == "" {
        assert "\"" + Escape(w) == "\"" by { EscapeEmpty(); }
      }
    } else {
      var n := Normalize(w);
      var parsed := Parse(n);
      if parsed.Done? && parsed.value.Str? {
        OpenStringOk(parsed.value.s);
      } else if parsed.Done? {
        ParseLeavesNothing(n);
        WholeTextOk(n, parsed.value);
      } else {
        OpenStringOk(n);
      }
    }
  }

  /** For a value that denotes nothing yet no quote is owed. */
  lemma NothingOwed(e: Event)
    requires Denoted(e).None?
    ensures !ValueAddition(e, false).closingQuote
  {
    hide Parse, Normalize;
  }

  lemma ParseLeavesNothing(s: string)
    requires Parse(s).Done?
    ensures Parse(s) == Done(Parse(s).value, [])
  {
  }

  // ---------------------------------------------------------------- the invariant

  /** Which calls exist, and which of them is open. */
  predicate Shape(st: State, p: Progress) {
    var calls := st.result.toolCalls;
    |p.done| <= |calls| && CallsOk(calls[..|p.done|], p.done) &&
    if p.phase.Idle? then
      st.pending.None? && |calls| == |p.done| && (st.current == NoTool ==> st.buffer == "")
      && (st.current == LastTool ==> calls != [] && calls[|calls| - 1].name != "")
    else if p.name == "" then
      st.current == PendingTool && |calls| == |p.done| &&
      st.pending.Some? && st.pending.value.name == "" && st.pending.value.arguments == ""
    else
      st.current == LastTool && st.pending.None? && st.buffer == "" &&
      |calls| == |p.done| + 1 && calls[|p.done|].name == p.name
  }

  predicate Inv(st: State, p: Progress) {
    && Shape(st, p)
    && EntriesOk(p.entries)
    && st.closingQuote == (p.phase.Valued? && p.phase.quoted)
    && (!p.phase.Idle? ==>
          && Live(st)
          && Target(st) == OpenText(p)
          && st.argCount == |p.entries| + if p.phase.HasKey? || p.phase.Valued? || p.phase.Unfinished? then 1 else 0)
    && (p.phase.Valued? ==> AdditionOk(Addition(p.phase.text, p.phase.quoted), p.phase.value))
    && (p.phase.Given? ==> p.entries == [] && p.phase.args != "")
  }

  lemma TargetUpdate(st: State, p: Progress, s: string)
    requires Shape(st, p) && !p.phase.Idle?
    ensures Live(st) && Live(WithTarget(st, s))
    ensures Shape(WithTarget(st, s), p) && Target(WithTarget(st, s)) == s
    ensures WithTarget(st, s).argCount == st.argCount && WithTarget(st, s).closingQuote == st.closingQuote
  {
    hide CallsOk;
    var st' := WithTarget(st, s);
    assert st'.result.toolCalls[..|p.done|] == st.result.toolCalls[..|p.done|];
  }

  lemma ShapeIgnoresPhase(st: State, p: Progress, q: Progress)
    requires Shape(st, p) && !p.phase.Idle? && !q.phase.Idle? && p.done == q.done && p.name == q.name
    ensures Shape(st, q)
  {
  }

  lemma PlainNode(st: State, p: Progress, e: Event)
    requires Inv(st, p) && Advance(p, e) == Some(p)
    requires !TouchesTool(e.tag) || e.tag == ToolArgs
    ensures (TouchesTool(e.tag) ==> Live(st)) && Inv(Step(st, e), p)
  {
    hide CallsOk, EntriesOk, OpenText, AdditionOk;
    assert e.tag != ToolOpen && e.tag != ArgOpen;
  }

  lemma ArgsNode(st: State, p: Progress, e: Event)
    requires Inv(st, p) && e.tag == ToolArgs && BeginsObject(e) && Advance(p, e).Some?
    ensures Live(st) && Inv(Step(st, e), Advance(p, e).value)
  {
    hide CallsOk, EntriesOk, TrimTrailing, Shape;
    var s := TrimTrailing(e.text, -1);
    var q := Advance(p, e).value;
    assert st.current != NoTool by { ShapeCurrent(st, p); }
    TargetUpdate(st, p, s);
    ShapeIgnoresPhase(WithTarget(st, s), p, q);
  }

  lemma OpenNode(st: State, p: Progress, e: Event)
    requires Inv(st, p) && e.tag == ToolOpen && Advance(p, e).Some?
    ensures Inv(Step(st, e), Advance(p, e).value)
  {
    hide CallsOk, Parse;
    if !p.phase.Idle? {
      WholeCallIsClosed(st, p, Closed(p, ObjectMembers(p.phase.args).value));
      assert st.result.toolCalls[..|st.result.toolCalls|] == st.result.toolCalls;
    }
  }

  /** A call whose arguments came whole is as good as closed before its end is seen. */
  lemma WholeCallIsClosed(st: State, p: Progress, q: Progress)
    requires Inv(st, p) && GivenWhole(p) && q == Closed(p, ObjectMembers(p.phase.args).value)
    ensures |st.result.toolCalls| == |q.done| && CallsOk(st.result.toolCalls, q.done)
  {
    hide Parse;
    var calls, n := st.result.toolCalls, |p.done|;
    if p.name == "" {
      assert p.done + [] == p.done && calls[..n] == calls;
    } else {
      assert calls[n].arguments == p.phase.args;
      ParseLeavesNothing(p.phase.args);
      assert CallOk(calls[n], q.done[n]);
      forall i | 0 <= i < n
        ensures CallOk(calls[i], q.done[i])
      {
        assert CallOk(calls[..n][i], p.done[i]) && q.done[..n][i] == q.done[i];
      }
    }
  }

  lemma IdNode(st: State, p: Progress, e: Event)
    requires Inv(st, p) && e.tag == ToolId && Advance(p, e).Some?
    ensures Live(st) && Inv(Step(st, e), Advance(p, e).value)
  {
    hide CallsOk, EntriesOk, OpenText;
    assert Step(st, e).result.toolCalls[..|p.done|] == st.result.toolCalls[..|p.done|];
  }

  lemma NameNode(st: State, p: Progress, e: Event)
    requires Inv(st, p) && e.tag == ToolName && Advance(p, e).Some?
    ensures Live(st) && Inv(Step(st, e), Advance(p, e).value)
  {
    hide CallsOk, EntriesOk, Joined, OnArgName, OnToolClose, ValueAddition, Unquoted, TrimTrailing, AdditionOk;
    var st' := Step(st, e);
    assert st'.result.toolCalls[..|p.done|] == st.result.toolCalls[..|p.done|];
    assert Joined([]) == "" by { JoinedEmpty(); }
    assert "{" + "" == "{";
  }

  lemma ArgOpenNode(st: State, p: Progress, e: Event)
    requires Inv(st, p) && e.tag == ArgOpen && Advance(p, e).Some?
    ensures Inv(Step(st, e), Advance(p, e).value)
  {
    hide CallsOk, EntriesOk;
  }

  lemma ArgNameNode(st: State, p: Progress, e: Event)
    requires Inv(st, p) && e.tag == ArgName && Advance(p, e).Some?
    ensures Live(st) && Inv(Step(st, e), Advance(p, e).value)
  {
    hide EntriesOk, Shape, Quote, Trim, Joined;
    var q := Advance(p, e).value;
    var key := Trim(e.text);
    assert Target(st) == Base(p);
    var s := (if Target(st) == "" then "{" else Target(st)) + (if st.argCount > 0 then "," else "") + Quote(key) + ":";
    assert s == KeyText(p, key) by {
      if p.entries == [] { assert Joined(p.entries) == "" by { JoinedEmpty(); } assert "{" + "" == "{"; }
    }
    TargetUpdate(st, p, s);
    ShapeIgnoresPhase(WithTarget(st, s), p, q);
    assert st.current != NoTool by { ShapeCurrent(st, p); }
    assert Step(st, e) == WithTarget(st, s).(argCount := st.argCount + 1);
    CountIsFree(WithTarget(st, s), q, st.argCount + 1, st.closingQuote);
  }

  lemma ShapeCurrent(st: State, p: Progress)
    requires Shape(st, p) && !p.phase.Idle?
    ensures st.current != NoTool && Live(st)
  {
  }

  /** The counters are independent of the shape and of the target. */
  lemma CountIsFree(st: State, p: Progress, n: nat, quote: bool)
    requires Shape(st, p) && !p.phase.Idle?
    ensures Live(st) && Shape(st.(argCount := n, closingQuote := quote), p)
    ensures Live(st.(argCount := n, closingQuote := quote))
    ensures Target(st.(argCount := n, closingQuote := quote)) == Target(st)
  {
    hide CallsOk;
  }

  lemma ValueNode(st: State, p: Progress, e: Event)
    requires Inv(st, p) && (e.tag == ArgValue || e.tag == ArgStringValue) && Advance(p, e).Some?
    ensures Live(st) && Inv(Step(st, e), Advance(p, e).value)
  {
    hide EntriesOk, Shape, Joined, Quote, ValueAddition, AdditionOk, WithTarget, Target, Live, Denoted;
    var q := Advance(p, e).value;
    var a := ValueAddition(e, false);
    if Denoted(e).Some? { ValueOk(e); } else { NothingOwed(e); }
    assert st.current != NoTool by { ShapeCurrent(st, p); }
    var s := Target(st) + a.text;
    TargetUpdate(st, p, s);
    ShapeIgnoresPhase(WithTarget(st, s), p, q);
    CountIsFree(WithTarget(st, s), q, st.argCount, a.closingQuote);
  }

  lemma EntriesSnoc(es: seq<Entry>, e: Entry)
    requires EntriesOk(es) && EntryOk(e)
    ensures EntriesOk(es + [e])
  {
    hide EntryOk;
  }

  /** The argument text after a value is the text of one entry more, once the owed quote is written. */
  lemma ValuedText(p: Progress)
    requires p.phase.Valued?
    ensures var quote := if p.phase.quoted then "\"" else "";
            var entries := p.entries + [Entry(p.phase.k, p.phase.value, p.phase.text + quote)];
            OpenText(p) + quote == OpenText(AfterValue(p)) == "{" + Joined(entries)
  {
    hide Quote, Joined;
    var quote := if p.phase.quoted then "\"" else "";
    var entry := Entry(p.phase.k, p.phase.value, p.phase.text + quote);
    JoinedSnoc(p.entries, entry);
    var comma := if p.entries == [] then "" else ",";
    SplicedText(Joined(p.entries), comma, Quote(p.phase.k), p.phase.text, quote);
  }

  lemma SplicedText(front: string, comma: string, key: string, text: string, quote: string)
    ensures "{" + front + comma + key + ":" + text + quote == "{" + (front + comma + (key + ":" + (text + quote)))
  {
  }

  lemma ArgCloseNode(st: State, p: Progress, e: Event)
    requires Inv(st, p) && e.tag == ArgClose && Advance(p, e).Some?
    ensures Live(st) && Inv(Step(st, e), Advance(p, e).value)
  {
    assert Advance(p, e).value == AfterValue(p);
    assert st.current != NoTool by { ShapeCurrent(st, p); }
    assert Step(st, e) == if st.closingQuote then WithTarget(st, Target(st) + "\"").(closingQuote := false) else st;
    ArgCloseKeeps(st, p, Step(st, e));
  }

  lemma ArgCloseKeeps(st: State, p: Progress, st': State)
    requires Inv(st, p) && p.phase.Valued? && Live(st)
    requires st' == if st.closingQuote then WithTarget(st, Target(st) + "\"").(closingQuote := false) else st
    ensures Inv(st', AfterValue(p))
  {
    ValuedText(p);
    var quote := if p.phase.quoted then "\"" else "";
    EntriesSnoc(p.entries, Entry(p.phase.k, p.phase.value, p.phase.text + quote));
    hide Shape, Joined, EntriesOk, AdditionOk, WithTarget, Target, OpenText;
    var q := AfterValue(p);
    var s := Target(st) + quote;
    if p.phase.quoted {
      TargetUpdate(st, p, s);
      ShapeIgnoresPhase(WithTarget(st, s), p, q);
      CountIsFree(WithTarget(st, s), q, st.argCount, false);
    } else {
      assert s == Target(st);
      ShapeIgnoresPhase(st, p, q);
    }
  }

  lemma ToolCloseNode(st: State, p: Progress, e: Event)
    requires Inv(st, p) && e.tag == ToolClose && Advance(p, e).Some?
    ensures Live(st) && Inv(Step(st, e), Advance(p, e).value)
  {
    hide Joined, Parse, B.Run, Braces, CallsOk;
    if p.name == "" {
      assert p.done + [] == p.done;
      assert Step(st, e).result == st.result;
    } else {
      var args := st.result.toolCalls[|p.done|].arguments;
      assert args + "" == args;
      ClosingBraces(p);
      assert args == OpenText(p);
      ClosedShape(st, p, args + Braces(B.Run(B.START, args).depth), Advance(p, e).value);
    }
  }

  /** What closing a call appends makes its arguments the object it stands for. */
  lemma ClosingBraces(p: Progress)
    requires EntriesOk(p.entries) && p.name != ""
    requires p.phase.Between? || GivenWhole(p)
    ensures var text := OpenText(p);
            var members := if p.phase.Given? then ObjectMembers(p.phase.args).value else MembersOf(p.entries);
            Parse(text + Braces(B.Run(B.START, text).depth)) == Done(Obj(members), [])
  {
    hide Joined, Parse, B.Run, EntriesOk;
    assert Braces(0) == "" && Braces(1) == "" + "}" == "}";
    if p.phase.Given? {
      B.JsonTextIsBalanced(0, p.phase.args);
      ParseLeavesNothing(p.phase.args);
      assert p.phase.args + "" == p.phase.args;
    } else {
      RunJoined(p.entries);
      ObjectParses(p.entries);
    }
  }

  /** A call whose arguments have become an object is a closed call. */
  lemma ClosedShape(st: State, p: Progress, args: string, q: Progress)
    requires Shape(st, p) && !p.phase.Idle? && p.name != "" && q.phase.Idle? && q.name == ""
    requires |q.done| == |p.done| + 1 && q.done[..|p.done|] == p.done && q.done[|p.done|].name == p.name
    requires Parse(args) == Done(Obj(q.done[|p.done|].members), [])
    ensures var call := st.result.toolCalls[|p.done|].(arguments := args);
            Shape(WithCall(st, call), q)
  {
    hide Parse;
    var calls, n := st.result.toolCalls, |p.done|;
    var calls' := calls[n := calls[n].(arguments := args)];
    assert CallOk(calls'[n], q.done[n]);
    forall i | 0 <= i < n
      ensures CallOk(calls'[i], q.done[i])
    {
      assert CallOk(calls[..n][i], p.done[i]) && q.done[..n][i] == q.done[i];
    }
    assert calls'[..n + 1] == calls';
  }

  lemma StepKeepsInv(st: State, p: Progress, e: Event)
    requires Inv(st, p) && Advance(p, e).Some?
    ensures (TouchesTool(e.tag) ==> Live(st)) && Inv(Step(st, e), Advance(p, e).value)
  {
    hide Inv, Step, Live, Shape;
    match e.tag
    case Reasoning => PlainNode(st, p, e);
    case Content => PlainNode(st, p, e);
    case Untagged => PlainNode(st, p, e);
    case ToolArgs => if BeginsObject(e) { ArgsNode(st, p, e); } else { PlainNode(st, p, e); }
    case ToolOpen => OpenNode(st, p, e);
    case ToolId => IdNode(st, p, e);
    case ToolName => NameNode(st, p, e);
    case ArgOpen => ArgOpenNode(st, p, e);
    case ArgName => ArgNameNode(st, p, e);
    case ArgClose => ArgCloseNode(st, p, e);
    case ToolClose => ToolCloseNode(st, p, e);
    case ArgValue => ValueNode(st, p, e);
    case ArgStringValue => ValueNode(st, p, e);
  }

  lemma {:induction false} RunKeepsInv(st: State, p: Progress, es: seq<Event>)
    requires Inv(st, p) && AdvanceAll(p, es).Some?
    ensures Safe(st, es) && Inv(RunAll(st, es), AdvanceAll(p, es).value)
    decreases |es|
  {
    hide Inv, Step, Live, Advance;
    if es != [] {
      StepKeepsInv(st, p, es[0]);
      RunKeepsInv(Step(st, es[0]), Advance(p, es[0]).value, es[1..]);
    }
  }

  lemma InitInv()
    ensures Inv(INIT, START)
  {
    assert EMPTY.toolCalls[..0] == [];
  }

  // ---------------------------------------------------------------- main results

  /** In every state of every well-nested run that builds its arguments piece by piece, a closing quote is
      owed exactly when the brace scanner ends inside a string on the text the mapper is writing to.
      Arguments that came as one text are kept as they are, and no quote is ever owed for them, nor for a
      value that is still unfinished. */
  lemma ClosingQuoteExact(es: seq<Event>)
    requires AdvanceAll(START, es).Some?
    ensures Safe(INIT, es)
    ensures var st, phase := RunAll(INIT, es), AdvanceAll(START, es).value.phase;
            Live(st) ==>
              if phase.Given? then Target(st) == phase.args && !st.closingQuote
              else if phase.Unfinished? then !st.closingQuote
              else
                && st.closingQuote == B.Run(B.START, Target(st)).inString
                && !B.Run(B.START, Target(st)).escaped
  {
    hide B.Run, Joined, Quote, Parse, Advance, Step;
    InitInv();
    RunKeepsInv(INIT, START, es);
    var st, p := RunAll(INIT, es), AdvanceAll(START, es).value;
    if Live(st) && !p.phase.Given? && !p.phase.Unfinished? {
      if p.phase.Idle? {
        IdleTarget(st, p);
      } else if p.phase.HasKey? || p.phase.Valued? {
        var key := if p.phase.HasKey? then p.phase.key else p.phase.k;
        var text := if p.phase.HasKey? then "" else p.phase.text;
        RunKeyText(p, key, text);
        assert KeyText(p, key) + "" == KeyText(p, key);
        assert B.Run(B.Outside(1), "") == B.Outside(1) by { RunNothing(B.Outside(1)); }
      } else {
        RunJoined(p.entries);
        RunNothing(B.START);
      }
    }
  }

  lemma RunNothing(st: B.Scan)
    ensures B.Run(st, "") == st
  {
  }

  lemma IdleTarget(st: State, p: Progress)
    requires Inv(st, p) && p.phase.Idle? && Live(st)
    ensures B.Run(B.START, Target(st)) == B.START
  {
    hide B.Run, Parse;
    var calls := st.result.toolCalls;
    if st.current == NoTool {
      RunNothing(B.START);
    } else {
      var i := |calls| - 1;
      assert CallOk(calls[..|p.done|][i], p.done[i]);
      assert Target(st) == calls[i].arguments;
      B.JsonTextIsBalanced(0, calls[i].arguments);
    }
  }

  /** In every well-nested run, each closed call carries its name, and its arguments are a JSON
      object listing the argument names and the denoted values in order, or the object that came whole.
      A call whose object is complete need not be closed for that. */
  lemma ClosedCallsAreJsonObjects(es: seq<Event>)
    requires AdvanceAll(START, es).Some?
    ensures Safe(INIT, es)
    ensures var p, calls := AdvanceAll(START, es).value, RunAll(INIT, es).result.toolCalls;
            && |p.done| <= |calls| <= |p.done| + 1
            && (p.phase.Idle? ==> |calls| == |p.done|)
            && forall i | 0 <= i < |p.done| ::
                 && calls[i].name == p.done[i].name
                 && Parse(calls[i].arguments) == Done(Obj(p.done[i].members), [])
    ensures var p, calls := AdvanceAll(START, es).value, RunAll(INIT, es).result.toolCalls;
            GivenWhole(p) && p.name != "" ==>
              && |calls| == |p.done| + 1 && calls[|p.done|].name == p.name
              && Parse(calls[|p.done|].arguments) == Done(Obj(ObjectMembers(p.phase.args).value), [])
  {
    hide Parse, Advance, Step;
    InitInv();
    RunKeepsInv(INIT, START, es);
    var p, calls := AdvanceAll(START, es).value, RunAll(INIT, es).result.toolCalls;
    forall i | 0 <= i < |p.done|
      ensures CallOk(calls[i], p.done[i])
    {
      assert CallOk(calls[..|p.done|][i], p.done[i]);
    }
    if GivenWhole(p) && p.name != "" {
      var q := Closed(p, ObjectMembers(p.phase.args).value);
      WholeCallIsClosed(RunAll(INIT, es), p, q);
      assert CallOk(calls[|p.done|], q.done[|p.done|]);
    }
  }

  /** A call that is opened straight after a complete object ends the call before it. */
  lemma OpeningEndsWholeCall(p: Progress, args: Event, open: Event)
    requires p.phase.Between? && p.entries == [] && p.name != ""
    requires args.tag == ToolArgs && BeginsObject(args) && ObjectMembers(TrimTrailing(args.text, -1)).Some?
    requires open.tag == ToolOpen
    ensures AdvanceAll(p, [args, open]) ==
            Some(Progress(p.done + [Call(p.name, ObjectMembers(TrimTrailing(args.text, -1)).value)], "", [], Between))
  {
    hide TrimTrailing, ObjectMembers;
    assert [args, open][1..] == [open] && [open][1..] == [];
    var given := p.(phase := Given(TrimTrailing(args.text, -1)));
    assert Advance(p, args) == Some(given);
    assert AdvanceAll(given, [open]) == Advance(given, open);
  }

  /** Braces stay balanced as well: a closed call's arguments end outside strings at depth zero. */
  lemma ClosedCallsAreBalanced(es: seq<Event>, i: nat)
    requires AdvanceAll(START, es).Some? && i < |AdvanceAll(START, es).value.done|
    ensures Safe(INIT, es) && i < |RunAll(INIT, es).result.toolCalls|
    ensures B.Run(B.START, RunAll(INIT, es).result.toolCalls[i].arguments) == B.START
  {
    hide Parse, Advance, Step;
    ClosedCallsAreJsonObjects(es);
    B.JsonTextIsBalanced(0, RunAll(INIT, es).result.toolCalls[i].arguments);
  }

  predicate DoneNamed(p: Progress) {
    forall i | 0 <= i < |p.done| :: p.done[i].name != ""
  }

  lemma {:induction false} DoneStaysNamed(p: Progress, es: seq<Event>)
    requires DoneNamed(p) && AdvanceAll(p, es).Some?
    ensures DoneNamed(AdvanceAll(p, es).value)
    decreases |es|
  {
    hide MembersOf, ObjectMembers, ValueAddition, BeginsObject, Denoted, Trim, TrimTrailing;
    if es != [] {
      DoneStaysNamed(Advance(p, es[0]).value, es[1..]);
    }
  }

  /** In every state of every well-nested run all calls that exist have names. */
  lemma CallsAreNamed(es: seq<Event>)
    requires AdvanceAll(START, es).Some?
    ensures Safe(INIT, es)
    ensures forall i | 0 <= i < |RunAll(INIT, es).result.toolCalls| :: RunAll(INIT, es).result.toolCalls[i].name != ""
  {
    hide Parse, Advance, Step;
    InitInv();
    RunKeepsInv(INIT, START, es);
    DoneStaysNamed(START, es);
    var p, calls := AdvanceAll(START, es).value, RunAll(INIT, es).result.toolCalls;
    forall i | 0 <= i < |calls|
      ensures calls[i].name != ""
    {
      if i < |p.done| { assert CallOk(calls[..|p.done|][i], p.done[i]); }
    }
  }

  // ---------------------------------------------------------------- texts, names and ids

  /** The texts of all nodes with a tag, one behind the other. */
  function TextsOf(es: seq<Event>, tag: Tag): string
    decreases |es|
  {
    if es == [] then "" else (if es[0].tag == tag then es[0].text else "") + TextsOf(es[1..], tag)
  }

  /** The text of the last node with a tag. */
  function LastText(es: seq<Event>, tag: Tag): Option<string> {
    if es == [] then None
    else if es[|es| - 1].tag == tag then Some(es[|es| - 1].text)
    else LastText(es[..|es| - 1], tag)
  }

  /** Reasoning and content are the texts of the reasoning and of the content nodes, in order, whatever else
      the run holds. */
  lemma {:induction false} TextsArrive(st: State, es: seq<Event>)
    requires Safe(st, es)
    ensures RunAll(st, es).result.reasoning == st.result.reasoning + TextsOf(es, Reasoning)
    ensures RunAll(st, es).result.content == st.result.content + TextsOf(es, Content)
    decreases |es|
  {
    hide Step, Live;
    if es == [] {
      assert st.result.reasoning + "" == st.result.reasoning && st.result.content + "" == st.result.content;
    } else {
      var st', e := Step(st, es[0]), es[0];
      TextArrives(st, e);
      TextsArrive(st', es[1..]);
      Regroup(st.result.reasoning, if e.tag == Reasoning then e.text else "", TextsOf(es[1..], Reasoning));
      Regroup(st.result.content, if e.tag == Content then e.text else "", TextsOf(es[1..], Content));
    }
  }

  lemma TextArrives(st: State, e: Event)
    requires TouchesTool(e.tag) ==> Live(st)
    ensures Step(st, e).result.reasoning == st.result.reasoning + if e.tag == Reasoning then e.text else ""
    ensures Step(st, e).result.content == st.result.content + if e.tag == Content then e.text else ""
  {
    hide ValueAddition, Quote, B.Run, Braces, Unquoted, Trim, TrimTrailing;
    assert st.result.reasoning + "" == st.result.reasoning && st.result.content + "" == st.result.content;
  }

  /** The run cut where calls open; what stands before the first of them is left out. */
  function Openings(es: seq<Event>): seq<seq<Event>> {
    if es == [] then []
    else
      var before, e := Openings(es[..|es| - 1]), es[|es| - 1];
      if e.tag == ToolOpen then before + [[e]]
      else if before == [] then []
      else before[..|before| - 1] + [before[|before| - 1] + [e]]
  }

  datatype Title = Title(name: string, id: string)

  /** A call's name is the text of its name node, and its id that of its last id node, without white space at
      the end and without the quotes around it. */
  function TitleOf(call: seq<Event>): Option<Title> {
    var name := LastText(call, ToolName);
    if name.None? then None else Some(Title(TrimTrailing(name.value, -1), IdIn(call)))
  }

  function IdIn(call: seq<Event>): string {
    var id := LastText(call, ToolId);
    if id.None? then "" else Unquoted(TrimTrailing(id.value, -1))
  }

  /** The titles of the calls that have names. */
  function Titles(calls: seq<seq<Event>>): seq<Title> {
    if calls == [] then []
    else
      var t := TitleOf(calls[|calls| - 1]);
      Titles(calls[..|calls| - 1]) + if t.None? then [] else [t.value]
  }

  function Titled(calls: seq<ToolCall>): (r: seq<Title>)
    ensures |r| == |calls| && forall i | 0 <= i < |calls| :: r[i] == Title(calls[i].name, calls[i].id)
  {
    seq(|calls|, i requires 0 <= i < |calls| => Title(calls[i].name, calls[i].id))
  }

  lemma {:induction false} AdvanceSnoc(p: Progress, es: seq<Event>, e: Event)
    ensures AdvanceAll(p, es + [e]) ==
            if AdvanceAll(p, es).None? then None else Advance(AdvanceAll(p, es).value, e)
    decreases |es|
  {
    hide Advance;
    if es == [] {
      assert [] + [e] == [e] && [e][1..] == [];
    } else {
      assert (es + [e])[1..] == es[1..] + [e];
      if Advance(p, es[0]).Some? { AdvanceSnoc(Advance(p, es[0]).value, es[1..], e); }
    }
  }

  lemma {:induction false} RunSnoc(st: State, es: seq<Event>, e: Event)
    requires Safe(st, es + [e])
    ensures Safe(st, es) && (TouchesTool(e.tag) ==> Live(RunAll(st, es)))
    ensures RunAll(st, es + [e]) == Step(RunAll(st, es), e)
    decreases |es|
  {
    hide Step, Live;
    if es == [] {
      assert [] + [e] == [e] && [e][1..] == [];
    } else {
      assert (es + [e])[1..] == es[1..] + [e];
      RunSnoc(Step(st, es[0]), es[1..], e);
    }
  }

  /** Where a well-nested run stands, in terms of its openings: the calls have the titles of the openings with
      names, and an open call that has no name yet has the id seen so far. */
  predicate TitlesFit(st: State, p: Progress, os: seq<seq<Event>>) {
    Titled(st.result.toolCalls) == Titles(os) &&
    (!p.phase.Idle? ==>
       && os != [] && (p.name == "" <==> LastText(os[|os| - 1], ToolName).None?)
       && (p.name == "" ==> st.pending.Some? && st.pending.value.id == IdIn(os[|os| - 1])))
  }

  /** One node more: only name and id nodes matter to a title. */
  lemma TitleOnward(call: seq<Event>, e: Event)
    ensures LastText(call + [e], ToolName) == if e.tag == ToolName then Some(e.text) else LastText(call, ToolName)
    ensures IdIn(call + [e]) == if e.tag == ToolId then Unquoted(TrimTrailing(e.text, -1)) else IdIn(call)
    ensures e.tag !in {ToolName, ToolId} ==> TitleOf(call + [e]) == TitleOf(call)
  {
    hide TrimTrailing, Unquoted;
    assert (call + [e])[..|call|] == call;
  }

  lemma OpeningsOnward(es: seq<Event>, e: Event)
    ensures var os := Openings(es);
            Openings(es + [e]) == if e.tag == ToolOpen then os + [[e]]
                                  else if os == [] then [] else os[..|os| - 1] + [os[|os| - 1] + [e]]
  {
    assert (es + [e])[..|es|] == es;
  }

  lemma TitlesOnward(os: seq<seq<Event>>, o: seq<Event>)
    ensures Titles(os + [o]) == Titles(os) + if TitleOf(o).None? then [] else [TitleOf(o).value]
  {
    assert (os + [o])[..|os|] == os;
  }

  /** Nodes other than openings, names and ids leave the titles of the calls alone. */
  lemma OtherNodesKeepTitles(st: State, p: Progress, e: Event)
    requires Inv(st, p) && Advance(p, e).Some? && e.tag !in {ToolOpen, ToolName, ToolId}
    requires TouchesTool(e.tag) ==> Live(st)
    ensures Titled(Step(st, e).result.toolCalls) == Titled(st.result.toolCalls)
    ensures p.name == "" && !p.phase.Idle? && e.tag != ToolClose ==>
              Step(st, e).pending.Some? && Step(st, e).pending.value.id == st.pending.value.id
  {
    hide CallsOk, EntriesOk, AdditionOk, OpenText, ValueAddition, Quote, B.Run, Braces, TrimTrailing;
  }

  lemma OpenTitle(st: State, p: Progress, os: seq<seq<Event>>, e: Event)
    requires Inv(st, p) && Advance(p, e).Some? && TitlesFit(st, p, os) && e.tag == ToolOpen
    ensures TitlesFit(Step(st, e), Advance(p, e).value, os + [[e]])
  {
    hide CallsOk, EntriesOk, AdditionOk, OpenText, Titles, TrimTrailing, Unquoted, ObjectMembers;
    TitlesOnward(os, [e]);
    assert [e] == [] + [e];
    TitleOnward([], e);
    assert LastText([], ToolName).None? && LastText([], ToolId).None?;
  }

  lemma NameTitle(st: State, p: Progress, os: seq<seq<Event>>, last: seq<Event>, e: Event)
    requires Inv(st, p) && Advance(p, e).Some? && TitlesFit(st, p, os + [last]) && e.tag == ToolName
    ensures Live(st) && TitlesFit(Step(st, e), Advance(p, e).value, os + [last + [e]])
  {
    hide CallsOk, EntriesOk, AdditionOk, OpenText, Titles, TrimTrailing, Unquoted, LastText, IdIn;
    TitlesOnward(os, last);
    TitlesOnward(os, last + [e]);
    TitleOnward(last, e);
    assert (os + [last])[|os|] == last && (os + [last + [e]])[|os|] == last + [e];
    var calls := st.result.toolCalls;
    assert Step(st, e).result.toolCalls[..|calls|] == calls;
    assert Titled(Step(st, e).result.toolCalls) == Titled(calls) + [TitleOf(last + [e]).value];
  }

  lemma IdTitle(st: State, p: Progress, os: seq<seq<Event>>, last: seq<Event>, e: Event)
    requires Inv(st, p) && Advance(p, e).Some? && TitlesFit(st, p, os + [last]) && e.tag == ToolId
    ensures Live(st) && TitlesFit(Step(st, e), Advance(p, e).value, os + [last + [e]])
  {
    hide CallsOk, EntriesOk, AdditionOk, OpenText, Titles, TrimTrailing, Unquoted, LastText, IdIn;
    TitlesOnward(os, last);
    TitlesOnward(os, last + [e]);
    TitleOnward(last, e);
    assert (os + [last])[|os|] == last && (os + [last + [e]])[|os|] == last + [e];
    if p.name != "" {
      var calls, n := st.result.toolCalls, |st.result.toolCalls| - 1;
      var calls' := Step(st, e).result.toolCalls;
      assert Titled(calls)[..n] == Titles(os) && Titled(calls)[n] == TitleOf(last).value;
      assert Titled(calls') == Titled(calls)[..n] + [TitleOf(last + [e]).value];
    }
  }

  lemma OtherTitle(st: State, p: Progress, os: seq<seq<Event>>, last: seq<Event>, e: Event)
    requires Inv(st, p) && Advance(p, e).Some? && TitlesFit(st, p, os + [last]) && e.tag !in {ToolOpen, ToolName, ToolId}
    requires TouchesTool(e.tag) ==> Live(st)
    ensures TitlesFit(Step(st, e), Advance(p, e).value, os + [last + [e]])
  {
    OtherNodesKeepTitles(st, p, e);
    OtherAdvance(p, e);
    hide Inv, Step, Advance, Titles, LastText, IdIn, TitleOf;
    TitlesOnward(os, last);
    TitlesOnward(os, last + [e]);
    TitleOnward(last, e);
    assert (os + [last])[|os|] == last && (os + [last + [e]])[|os|] == last + [e];
  }

  /** Such nodes do not name the open call, and only the node for its end ends it. */
  lemma OtherAdvance(p: Progress, e: Event)
    requires Advance(p, e).Some? && e.tag !in {ToolOpen, ToolName, ToolId}
    ensures var q := Advance(p, e).value;
            if e.tag == ToolClose then q.phase.Idle? else q.name == p.name && (q.phase.Idle? <==> p.phase.Idle?)
  {
    hide ValueAddition, Denoted, BeginsObject, ObjectMembers, TrimTrailing, Trim;
  }

  lemma IdleTitle(st: State, p: Progress, e: Event)
    requires Inv(st, p) && Advance(p, e).Some? && TitlesFit(st, p, []) && (TouchesTool(e.tag) ==> Live(st))
    requires e.tag != ToolOpen
    ensures TitlesFit(Step(st, e), Advance(p, e).value, [])
  {
    assert p.phase.Idle?;
    assert e.tag !in {ToolName, ToolId};
    OtherNodesKeepTitles(st, p, e);
    OtherAdvance(p, e);
    hide Inv, Step, Advance;
  }

  lemma TitleStep(st: State, p: Progress, os: seq<seq<Event>>, e: Event)
    requires Inv(st, p) && Advance(p, e).Some? && TitlesFit(st, p, os) && (TouchesTool(e.tag) ==> Live(st))
    ensures TitlesFit(Step(st, e), Advance(p, e).value,
                      if e.tag == ToolOpen then os + [[e]]
                      else if os == [] then [] else os[..|os| - 1] + [os[|os| - 1] + [e]])
  {
    hide Inv, Step, TitlesFit, Advance, Live;
    if e.tag == ToolOpen {
      OpenTitle(st, p, os, e);
    } else if os == [] {
      IdleTitle(st, p, e);
    } else {
      var front, last := os[..|os| - 1], os[|os| - 1];
      assert os == front + [last];
      if e.tag == ToolName {
        NameTitle(st, p, front, last, e);
      } else if e.tag == ToolId {
        IdTitle(st, p, front, last, e);
      } else {
        OtherTitle(st, p, front, last, e);
      }
    }
  }

  lemma {:induction false} TitlesHold(es: seq<Event>)
    requires AdvanceAll(START, es).Some?
    ensures Safe(INIT, es) && TitlesFit(RunAll(INIT, es), AdvanceAll(START, es).value, Openings(es))
    decreases |es|
  {
    hide Step, Advance, Inv, Live;
    InitInv();
    RunKeepsInv(INIT, START, es);
    if es == [] {
      assert Openings(es) == [] && Titles([]) == [] && Titled([]) == [];
    } else {
      var front, e := es[..|es| - 1], es[|es| - 1];
      assert es == front + [e];
      AdvanceSnoc(START, front, e);
      RunSnoc(INIT, front, e);
      TitlesHold(front);
      RunKeepsInv(INIT, START, front);
      OpeningsOnward(front, e);
      TitleStep(RunAll(INIT, front), AdvanceAll(START, front).value, Openings(front), e);
    }
  }

  /** In every state of every well-nested run there is one call for each opening that has got a name, in
      order, and its name and id are those of its last name and id nodes. */
  lemma CallsHaveTitles(es: seq<Event>)
    requires AdvanceAll(START, es).Some?
    ensures Safe(INIT, es) && Titled(RunAll(INIT, es).result.toolCalls) == Titles(Openings(es))
  {
    hide Step, Advance, Openings, Titles;
    TitlesHold(es);
  }

  /** What a run says outside its calls is what is published, except that white space is no reasoning. */
  lemma RunsSay(es: seq<Event>)
    requires Safe(INIT, es)
    ensures var m, thought := Finish(RunAll(INIT, es)), TextsOf(es, Reasoning);
            && m.content == TextsOf(es, Content)
            && m.reasoning == (if AllWhitespace(thought) then "" else thought)
            && m.toolCalls == RunAll(INIT, es).result.toolCalls
  {
    hide Step, Finish, AllWhitespace, RunAll, TextsOf, Safe;
    FlushNeverHappens(es);
    TextsArrive(INIT, es);
    assert "" + TextsOf(es, Reasoning) == TextsOf(es, Reasoning) && "" + TextsOf(es, Content) == TextsOf(es, Content);
  }

  predicate PendingIsUnnamed(st: State) {
    st.pending.Some? ==> st.current == PendingTool && st.pending.value.name == ""
  }

  lemma {:induction false} PendingStaysUnnamed(st: State, es: seq<Event>)
    requires PendingIsUnnamed(st) && Safe(st, es)
    ensures PendingIsUnnamed(RunAll(st, es))
    decreases |es|
  {
    hide Step, PendingIsUnnamed, Live;
    if es != [] {
      PendingStepUnnamed(st, es[0]);
      PendingStaysUnnamed(Step(st, es[0]), es[1..]);
    }
  }

  lemma PendingStepUnnamed(st: State, e: Event)
    requires PendingIsUnnamed(st) && (TouchesTool(e.tag) ==> Live(st))
    ensures PendingIsUnnamed(Step(st, e))
  {
    hide ValueAddition, Quote, B.Run, Braces, Unquoted, Trim, TrimTrailing;
  }

  /** The flush after the last node never finds a named pending call, whatever the run: a call is
      published the moment it is named. Finishing only drops white-space reasoning. */
  lemma FlushNeverHappens(es: seq<Event>)
    requires Safe(INIT, es)
    ensures var r := RunAll(INIT, es).result;
            Finish(RunAll(INIT, es)) == if AllWhitespace(r.reasoning) then r.(reasoning := "") else r
  {
    hide Step;
    PendingStaysUnnamed(INIT, es);
  }
}
