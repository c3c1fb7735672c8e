/** Streaming tagged output: what the mapper produced for a shorter run is extended, never revised,
    by what it produces for a longer one. */
module ToolCallStreaming {
  import opened Json
  import opened ChatDiff
  import opened ToolCallMapper
  import opened ToolCallRuns
  import opened ValueGrowth
  import B = BraceScanner
  import Q = QuoteNormalizer
  import ChatStream
  import opened Wrappers

  // ---------------------------------------------------------------- growth of runs

  /** A node that changes nothing: one without a tag that counts, such as the rule nodes around a call, an
      argument or a value, or an argument list that is no object text. Such nodes grow with what they hold. */
  predicate Silent(e: Event) {
    e.tag == Untagged || (e.tag == ToolArgs && !BeginsObject(e))
  }

  /** The run without its silent nodes. */
  function Shown(es: seq<Event>): seq<Event> {
    if es == [] then [] else (if Silent(es[0]) then [] else [es[0]]) + Shown(es[1..])
  }

  /** A node may be the beginning of the same node in a longer run. Text is extended where the grammar may
      stop in the middle of it; the texts of markers and of ids do not matter, and no node but a bare
      value depends on being finished: it goes on where its form stays. */
  predicate EventGrows(x: Event, y: Event) {
    x == y ||
    (x.tag == y.tag &&
     match x.tag
     case Reasoning => x.text <= y.text
     case Content => x.text <= y.text
     case ArgStringValue => x.text <= y.text
     case ToolArgs => x.text <= y.text
     case ToolName => x.text == y.text
     case ArgName => x.text == y.text
     case ArgValue => x.text <= y.text && FormGrows(x, y)
     case _ => true)
  }

  predicate ShownGrows(a: seq<Event>, b: seq<Event>)
    decreases |a|
  {
    a == [] || (b != [] && if |a| == 1 then EventGrows(a[0], b[0]) else a[0] == b[0] && ShownGrows(a[1..], b[1..]))
  }

  /** Apart from silent nodes, the longer run begins with the shorter one, whose last node may grow. */
  predicate RunGrows(a: seq<Event>, b: seq<Event>) {
    ShownGrows(Shown(a), Shown(b))
  }

  lemma SilentStep(st: State, p: Progress, e: Event)
    requires Inv(st, p) && Advance(p, e).Some? && Silent(e)
    ensures Advance(p, e) == Some(p) && (TouchesTool(e.tag) ==> Live(st)) && Step(st, e) == st
  {
    StepKeepsInv(st, p, e);
  }

  /** Leaving out the silent nodes changes neither the mapper's state nor where the run stands. */
  lemma {:induction false} ShownIsEnough(st: State, p: Progress, es: seq<Event>)
    requires Inv(st, p) && AdvanceAll(p, es).Some?
    ensures AdvanceAll(p, Shown(es)) == AdvanceAll(p, es)
    ensures Safe(st, es) && Safe(st, Shown(es)) && RunAll(st, es) == RunAll(st, Shown(es))
    decreases |es|
  {
    hide Inv, Step, Live, Advance, Silent;
    if es != [] {
      StepKeepsInv(st, p, es[0]);
      if Silent(es[0]) {
        SilentStep(st, p, es[0]);
        ShownIsEnough(st, p, es[1..]);
        assert Shown(es) == Shown(es[1..]);
      } else {
        ShownIsEnough(Step(st, es[0]), Advance(p, es[0]).value, es[1..]);
        assert Shown(es)[1..] == Shown(es[1..]) && Shown(es)[0] == es[0];
      }
    }
  }

  // ---------------------------------------------------------------- trimming and escaping

  lemma TrimAtMostOne(s: string)
    ensures TrimTrailing(s, 1) == if s != [] && IsSpace(s[|s| - 1]) then s[..|s| - 1] else s
    ensures TrimLeading(s, 1) == if s != [] && IsSpace(s[0]) then s[1..] else s
  {
  }

  /** Dropping at most one white-space character on either side is monotone in the text. */
  lemma TrimOnceMonotone(s: string, t: string)
    requires s <= t
    ensures TrimOnce(s) <= TrimOnce(t)
  {
    hide IsSpace;
    TrimAtMostOne(s);
    TrimAtMostOne(t);
    var a, b := TrimLeading(s, 1), TrimLeading(t, 1);
    TrimAtMostOne(a);
    TrimAtMostOne(b);
    if s != [] {
      assert s[0] == t[0];
      assert a <= b;
    }
  }

  /** Dropping all white space at the end is monotone too. */
  lemma {:induction false} TrimAllMonotone(s: string, t: string, max: int)
    requires s <= t && max < 0
    ensures TrimTrailing(s, -1) <= TrimTrailing(t, max)
    decreases |t|
  {
    if t == s {
      TrimUnlimited(s, max);
    } else if IsSpace(t[|t| - 1]) {
      TrimAllMonotone(s, t[..|t| - 1], max - 1);
    }
  }

  lemma {:induction false} TrimUnlimited(s: string, max: int)
    requires max < 0
    ensures TrimTrailing(s, max) == TrimTrailing(s, -1)
    decreases |s|
  {
    if s != [] && IsSpace(s[|s| - 1]) {
      TrimUnlimited(s[..|s| - 1], max - 1);
      TrimUnlimited(s[..|s| - 1], -2);
    }
  }

  lemma OpenStringMonotone(s: string, t: string, target: string)
    requires s <= t
    ensures target + ("\"" + Escape(s)) <= target + ("\"" + Escape(t))
  {
    hide Escape;
    assert t == s + t[|s|..];
    EscapeConcat(s, t[|s|..]);
  }

  // ---------------------------------------------------------------- one node extends the message

  lemma GrowsTransitive(a: Message, b: Message, c: Message)
    requires ChatStream.GrowsKeepingNames(a, b) && ChatStream.GrowsKeepingNames(b, c)
    ensures ChatStream.GrowsKeepingNames(a, c)
  {
    var n := |a.toolCalls|;
    if n > 0 && |b.toolCalls| > n {
      assert b.toolCalls[n - 1].name == c.toolCalls[n - 1].name;
    }
  }

  lemma TargetGrows(st: State, s: string, t: string)
    requires Live(st) && s <= t
    ensures ChatStream.GrowsKeepingNames(WithTarget(st, s).result, WithTarget(st, t).result)
    ensures Target(st) == s ==> WithTarget(st, s) == st
  {
    if TargetsCall(st) && st.current == LastTool && Target(st) == s {
      var calls := st.result.toolCalls;
      assert calls[|calls| - 1 := calls[|calls| - 1].(arguments := s)] == calls;
    }
  }

  lemma StepExtends(st: State, p: Progress, e: Event)
    requires Inv(st, p) && Advance(p, e).Some?
    requires TouchesTool(e.tag) ==> Live(st)
    ensures ChatStream.GrowsKeepingNames(st.result, Step(st, e).result)
  {
    hide Inv, Advance, Step, ChatStream.GrowsKeepingNames, Live, BeginsObject;
    if e.tag in {ArgName, ArgValue, ArgStringValue, ArgClose} {
      ArgNodeExtends(st, e);
    } else if e.tag == ToolArgs && BeginsObject(e) {
      ArgsExtend(st, p, e);
    } else {
      MarkerExtends(st, p, e);
    }
  }

  /** What an argument's nodes write goes behind what is there. */
  lemma ArgNodeExtends(st: State, e: Event)
    requires Live(st) && e.tag in {ArgName, ArgValue, ArgStringValue, ArgClose}
    ensures ChatStream.GrowsKeepingNames(st.result, Step(st, e).result)
  {
    hide ValueAddition, Quote, Trim;
    if st.current != NoTool {
      var t := Target(st);
      if e.tag == ArgName {
        var begun := if t == "" then "{" else t;
        assert t <= begun + (if st.argCount > 0 then "," else "") + Quote(Trim(e.text)) + ":";
        TargetGrows(st, t, begun + (if st.argCount > 0 then "," else "") + Quote(Trim(e.text)) + ":");
      } else if e.tag == ArgClose {
        TargetGrows(st, t, t + "\"");
      } else {
        TargetGrows(st, t, t + ValueAddition(e, st.closingQuote).text);
      }
    }
  }

  lemma MarkerExtends(st: State, p: Progress, e: Event)
    requires Inv(st, p) && Advance(p, e).Some?
    requires e.tag !in {ArgName, ArgValue, ArgStringValue, ArgClose} && (e.tag == ToolArgs ==> !BeginsObject(e))
    requires TouchesTool(e.tag) ==> Live(st)
    ensures ChatStream.GrowsKeepingNames(st.result, Step(st, e).result)
  {
    hide CallsOk, EntriesOk, AdditionOk, OpenText, B.Run, Braces, TrimTrailing;
  }

  lemma ArgsExtend(st: State, p: Progress, e: Event)
    requires Inv(st, p) && Advance(p, e).Some? && e.tag == ToolArgs && BeginsObject(e) && Live(st)
    ensures ChatStream.GrowsKeepingNames(st.result, Step(st, e).result)
  {
    hide CallsOk, TrimTrailing, AdditionOk;
    var t := TrimTrailing(e.text, -1);
    assert Target(st) == Base(p) && (Base(p) == "" || Base(p) == "{") by {
      if p.name != "" { JoinedEmpty(); assert "{" + "" == "{"; }
    }
    TargetGrows(st, Target(st), t);
  }

  lemma {:induction false} RunExtends(st: State, p: Progress, es: seq<Event>)
    requires Inv(st, p) && AdvanceAll(p, es).Some?
    ensures Safe(st, es) && ChatStream.GrowsKeepingNames(st.result, RunAll(st, es).result)
    decreases |es|
  {
    hide Inv, Step, Live, Advance, ChatStream.GrowsKeepingNames;
    if es == [] {
      GrowsReflexive(st.result);
    } else {
      StepKeepsInv(st, p, es[0]);
      StepExtends(st, p, es[0]);
      var st' := Step(st, es[0]);
      RunExtends(st', Advance(p, es[0]).value, es[1..]);
      GrowsTransitive(st.result, st'.result, RunAll(st', es[1..]).result);
    }
  }

  lemma GrowsReflexive(m: Message)
    ensures ChatStream.GrowsKeepingNames(m, m)
  {
  }

  lemma GrowingNode(st: State, p: Progress, x: Event, y: Event)
    requires Inv(st, p) && EventGrows(x, y) && Advance(p, x).Some? && Advance(p, y).Some?
    requires TouchesTool(x.tag) ==> Live(st)
    ensures ChatStream.GrowsKeepingNames(Step(st, x).result, Step(st, y).result)
  {
    hide Inv, Advance, Step, ChatStream.GrowsKeepingNames, TrimTrailing, Live;
    if x == y {
      GrowsReflexive(Step(st, x).result);
    } else if x.tag == ArgStringValue {
      GrowingString(st, p, x, y);
    } else if x.tag == ArgValue {
      GrowingBare(st, p, x, y);
    } else if x.tag == ToolArgs {
      GrowingArgs(st, p, x, y);
    } else {
      GrowingMarker(st, x, y);
    }
  }

  lemma GrowingMarker(st: State, x: Event, y: Event)
    requires EventGrows(x, y) && x.tag !in {ArgStringValue, ArgValue, ToolArgs}
    requires TouchesTool(x.tag) ==> Live(st)
    ensures ChatStream.GrowsKeepingNames(Step(st, x).result, Step(st, y).result)
  {
    hide TrimTrailing, OnArgName, OnToolName, OnToolClose, WithTarget, WithCall, Target, CurrentCall;
    if x.tag == ToolId {
      GrowingId(st, x, y);
    } else if x.tag !in {Reasoning, Content} {
      GrowsReflexive(Step(st, x).result);
      assert Step(st, x) == Step(st, y);
    }
  }

  lemma GrowingId(st: State, x: Event, y: Event)
    requires x.tag == y.tag == ToolId && Live(st)
    ensures ChatStream.GrowsKeepingNames(Step(st, x).result, Step(st, y).result)
  {
    hide TrimTrailing, Unquoted;
  }

  lemma GrowingString(st: State, p: Progress, x: Event, y: Event)
    requires Inv(st, p) && x.tag == y.tag == ArgStringValue && x.text <= y.text && Advance(p, x).Some?
    requires Live(st)
    ensures ChatStream.GrowsKeepingNames(Step(st, x).result, Step(st, y).result)
  {
    hide CallsOk, EntriesOk, AdditionOk, OpenText, Escape, Parse, TrimTrailing;
    var v, w := TrimOnce(x.text), TrimOnce(y.text);
    TrimOnceMonotone(x.text, y.text);
    OpenStringMonotone(v, w, Target(st));
    StringAddition(x);
    StringAddition(y);
    assert st.current != NoTool;
    TargetGrows(st, Target(st) + ("\"" + Escape(v)), Target(st) + ("\"" + Escape(w)));
  }

  lemma GrowingBare(st: State, p: Progress, x: Event, y: Event)
    requires Inv(st, p) && x.tag == y.tag == ArgValue && EventGrows(x, y) && Advance(p, x).Some?
    requires Live(st)
    ensures ChatStream.GrowsKeepingNames(Step(st, x).result, Step(st, y).result)
  {
    hide CallsOk, EntriesOk, AdditionOk, OpenText, Parse, TrimOnce, ValueAddition, Denoted, FormGrows, FormOf;
    if x == y {
      GrowsReflexive(Step(st, x).result);
    } else {
      var v, w := ValueAddition(x, false).text, ValueAddition(y, false).text;
      TrimOnceMonotone(x.text, y.text);
      GrowsIff(x, y);
      assert st.current != NoTool;
      assert Target(st) + v <= Target(st) + w;
      TargetGrows(st, Target(st) + v, Target(st) + w);
    }
  }

  lemma GrowingArgs(st: State, p: Progress, x: Event, y: Event)
    requires Inv(st, p) && x.tag == y.tag == ToolArgs && x.text <= y.text && Advance(p, x).Some? && Advance(p, y).Some?
    requires Live(st)
    ensures ChatStream.GrowsKeepingNames(Step(st, x).result, Step(st, y).result)
  {
    hide CallsOk, EntriesOk, AdditionOk, OpenText, TrimTrailing;
    var v, w := TrimTrailing(x.text, -1), TrimTrailing(y.text, -1);
    assert st.current != NoTool;
    TrimAllMonotone(x.text, y.text, -1);
    if BeginsObject(x) {
      TargetGrows(st, v, w);
    } else if BeginsObject(y) {
      ArgsExtend(st, p, y);
    } else {
      GrowsReflexive(st.result);
    }
  }

  lemma StringAddition(e: Event)
    requires e.tag == ArgStringValue
    ensures ValueAddition(e, false).text == "\"" + Escape(TrimOnce(e.text))
  {
    hide EscapeChar, TrimOnce;
  }

  lemma {:induction false} LongerShownExtends(st: State, p: Progress, a: seq<Event>, b: seq<Event>)
    requires Inv(st, p) && ShownGrows(a, b) && AdvanceAll(p, a).Some? && AdvanceAll(p, b).Some?
    ensures Safe(st, a) && Safe(st, b)
    ensures ChatStream.GrowsKeepingNames(RunAll(st, a).result, RunAll(st, b).result)
    decreases |a|
  {
    hide Inv, Step, Live, Advance, ChatStream.GrowsKeepingNames, EventGrows;
    if a == [] {
      RunExtends(st, p, b);
    } else {
      var x, y := a[0], b[0];
      StepKeepsInv(st, p, x);
      StepKeepsInv(st, p, y);
      if |a| == 1 {
        GrowingNode(st, p, x, y);
        var st' := Step(st, y);
        RunExtends(st', Advance(p, y).value, b[1..]);
        assert a[1..] == [] && RunAll(st, a) == Step(st, x);
        GrowsTransitive(Step(st, x).result, st'.result, RunAll(st', b[1..]).result);
      } else {
        LongerShownExtends(Step(st, x), Advance(p, x).value, a[1..], b[1..]);
      }
    }
  }

  /** Lengthening a run, or the text of its last value, whole object, reasoning or content, only extends
      the message: in particular the argument text of the last call is extended, never revised. */
  lemma LongerRunExtends(st: State, p: Progress, a: seq<Event>, b: seq<Event>)
    requires Inv(st, p) && RunGrows(a, b) && AdvanceAll(p, a).Some? && AdvanceAll(p, b).Some?
    ensures Safe(st, a) && Safe(st, b)
    ensures ChatStream.GrowsKeepingNames(RunAll(st, a).result, RunAll(st, b).result)
  {
    ShownIsEnough(st, p, a);
    ShownIsEnough(st, p, b);
    hide Inv, ChatStream.GrowsKeepingNames, ShownGrows, Shown;
    LongerShownExtends(st, p, Shown(a), Shown(b));
  }

  // ---------------------------------------------------------------- whole conversations

  /** The message published for a run. */
  function Published(es: seq<Event>): Message
    requires Safe(INIT, es)
  {
    Finish(RunAll(INIT, es))
  }

  lemma PublishedGrows(a: seq<Event>, b: seq<Event>)
    requires RunGrows(a, b) && AdvanceAll(START, a).Some? && AdvanceAll(START, b).Some?
    ensures Safe(INIT, a) && Safe(INIT, b) && ChatStream.GrowsKeepingNames(Published(a), Published(b))
  {
    hide Inv, Step, Live, Advance;
    InitInv();
    LongerRunExtends(INIT, START, a, b);
    FlushNeverHappens(a);
    FlushNeverHappens(b);
    var x, y := RunAll(INIT, a).result.reasoning, RunAll(INIT, b).result.reasoning;
    if AllWhitespace(y) {
      assert forall c | c in x :: c in y;
    }
  }

  // ---------------------------------------------------------------- bare values

  /** The message with more argument text in its last call. */
  function WithMore(m: Message, text: string): Message {
    if m.toolCalls == [] then m
    else
      var n := |m.toolCalls| - 1;
      m.(toolCalls := m.toolCalls[n := m.toolCalls[n].(arguments := m.toolCalls[n].arguments + text)])
  }

  /** What a bare value node at the end of a run adds to the published message: text behind the arguments of the
      last call, as soon as that call has a name. */
  lemma BareIsAdded(front: seq<Event>, e: Event)
    requires e.tag == ArgValue && AdvanceAll(START, front + [e]).Some?
    ensures AdvanceAll(START, front).Some? && Safe(INIT, front) && Safe(INIT, front + [e])
    ensures var m, m' := Published(front), Published(front + [e]);
            if AdvanceAll(START, front).value.name == "" then m' == m
            else m.toolCalls != [] && m' == WithMore(m, ValueAddition(e, false).text)
  {
    hide Inv, Step, Advance, Finish;
    AdvanceSnoc(START, front, e);
    InitInv();
    RunKeepsInv(INIT, START, front);
    RunKeepsInv(INIT, START, front + [e]);
    RunSnoc(INIT, front, e);
    FlushNeverHappens(front);
    FlushNeverHappens(front + [e]);
    BareStep(RunAll(INIT, front), AdvanceAll(START, front).value, e);
  }

  lemma BareStep(st: State, p: Progress, e: Event)
    requires Inv(st, p) && e.tag == ArgValue && Advance(p, e).Some? && Live(st)
    ensures if p.name == "" then Step(st, e).result == st.result
            else st.result.toolCalls != [] && Step(st, e).result == WithMore(st.result, ValueAddition(e, false).text)
  {
    hide CallsOk, EntriesOk, AdditionOk, OpenText, ValueAddition, Denoted;
  }

  /** A bare value at the end of a run goes on without revision exactly when its form stays, or when nobody
      sees it yet because its call has no name. */
  lemma BareGrowsIff(front: seq<Event>, x: Event, y: Event)
    requires x.tag == y.tag == ArgValue && TrimOnce(x.text) <= TrimOnce(y.text)
    requires AdvanceAll(START, front + [x]).Some? && AdvanceAll(START, front + [y]).Some?
    ensures AdvanceAll(START, front).Some? && Safe(INIT, front + [x]) && Safe(INIT, front + [y])
    ensures var named := AdvanceAll(START, front).value.name != "";
            ChatStream.GrowsKeepingNames(Published(front + [x]), Published(front + [y])) <==> !named || FormGrows(x, y)
  {
    hide AdvanceAll, Safe, Published, ValueAddition, FormGrows, WithMore, ChatStream.GrowsKeepingNames;
    BareIsAdded(front, x);
    BareIsAdded(front, y);
    GrowsIff(x, y);
    var m := Published(front);
    GrowsReflexive(m);
    if m.toolCalls != [] { MoreGrowsIff(m, ValueAddition(x, false).text, ValueAddition(y, false).text); }
  }

  lemma MoreGrowsIff(m: Message, v: string, w: string)
    requires m.toolCalls != []
    ensures ChatStream.GrowsKeepingNames(WithMore(m, v), WithMore(m, w)) <==> v <= w
    ensures Diffs(WithMore(m, v), WithMore(m, w)).Ok? <==> Comparable(v, w)
  {
    hide Diffs;
    var n := |m.toolCalls| - 1;
    Q.SamePrefix(m.toolCalls[n].arguments, v, w);
    Q.SamePrefix(m.toolCalls[n].arguments, w, v);
    DefinedIff(WithMore(m, v), WithMore(m, w));
  }

  /** Where its form does not stay, and neither text begins with the other, the server has no delta to send. */
  lemma BareFailsIff(front: seq<Event>, x: Event, y: Event)
    requires x.tag == y.tag == ArgValue
    requires AdvanceAll(START, front + [x]).Some? && AdvanceAll(START, front + [y]).Some?
    ensures AdvanceAll(START, front).Some? && Safe(INIT, front + [x]) && Safe(INIT, front + [y])
    ensures var named := AdvanceAll(START, front).value.name != "";
            Diffs(Published(front + [x]), Published(front + [y])).Err? <==>
              named && !Comparable(ValueAddition(x, false).text, ValueAddition(y, false).text)
  {
    hide AdvanceAll, Safe, Published, ValueAddition, WithMore, Diffs;
    BareIsAdded(front, x);
    BareIsAdded(front, y);
    var m := Published(front);
    DefinedIff(m, m);
    if m.toolCalls != [] { MoreGrowsIff(m, ValueAddition(x, false).text, ValueAddition(y, false).text); }
  }

  /** A truth value first looks like a string: `tr` is sent as the beginning of one, and `true` stands for
      itself. */
  lemma TruthExample(front: seq<Event>)
    requires AdvanceAll(START, front).Some? && AdvanceAll(START, front).value.phase.HasKey?
    requires AdvanceAll(START, front).value.name != ""
    ensures var x, y := Event(ArgValue, "tr", true), Event(ArgValue, "true", false);
            && Safe(INIT, front + [x]) && Safe(INIT, front + [y])
            && Diffs(Published(front + [x]), Published(front + [y])).Err?
  {
    hide AdvanceAll, Safe, Published, ValueAddition, Diffs;
    var x, y := Event(ArgValue, "tr", true), Event(ArgValue, "true", false);
    AdvanceSnoc(START, front, x);
    AdvanceSnoc(START, front, y);
    TruthForms();
    BareFailsIff(front, x, y);
  }

  predicate RunsGrow(last: seq<Event>, runs: seq<seq<Event>>)
    decreases |runs|
  {
    runs == [] || (RunGrows(last, runs[0]) && AdvanceAll(START, runs[0]).Some? && RunsGrow(runs[0], runs[1..]))
  }

  /** The nodes of a call `f` in the middle of its string argument `x`, with the rule nodes around and in
      it, whose texts reach as far as the input does. */
  function InArgument(value: string): seq<Event> {
    [Event(Untagged, "<function=f><parameter=x>" + value, true), Event(ToolOpen, "<function=f>", false),
     Event(ToolName, "f", false), Event(Untagged, "<parameter=x>" + value, true),
     Event(ArgOpen, "<parameter=x>", false), Event(ArgName, "x", false),
     Event(ArgStringValue, value, true), Event(Untagged, value, true)]
  }

  lemma ShownFrom(es: seq<Event>, i: nat)
    requires i < |es|
    ensures Shown(es[i..]) == if Silent(es[i]) then Shown(es[i + 1..]) else [es[i]] + Shown(es[i + 1..])
  {
    assert es[i..][1..] == es[i + 1..] && es[i..][0] == es[i];
  }

  lemma AdvanceFrom(p: Progress, es: seq<Event>, i: nat)
    requires i < |es| && Advance(p, es[i]).Some?
    ensures AdvanceAll(p, es[i..]) == AdvanceAll(Advance(p, es[i]).value, es[i + 1..])
  {
    assert es[i..][1..] == es[i + 1..] && es[i..][0] == es[i];
  }

  lemma ShownNothing()
    ensures Shown([]) == []
  {
  }

  lemma ShownOfEight(es: seq<Event>)
    requires |es| == 8 && Silent(es[0]) && !Silent(es[1]) && !Silent(es[2]) && Silent(es[3])
    requires !Silent(es[4]) && !Silent(es[5]) && !Silent(es[6]) && Silent(es[7])
    ensures Shown(es) == [es[1], es[2], es[4], es[5]] + [es[6]]
  {
    hide Shown, Silent;
    assert es[0..] == es && es[8..] == [];
    ShownNothing();
    ShownFrom(es, 7);
    ShownFrom(es, 6);
    ShownFrom(es, 5);
    ShownFrom(es, 4);
    ShownFrom(es, 3);
    ShownFrom(es, 2);
    ShownFrom(es, 1);
    ShownFrom(es, 0);
    assert Shown(es) == [es[1]] + ([es[2]] + ([es[4]] + ([es[5]] + ([es[6]] + []))));
  }

  lemma InArgumentNests(value: string)
    ensures AdvanceAll(START, InArgument(value)).Some?
  {
    hide ValueAddition, AdvanceAll, Trim, Parse, TrimTrailing;
    var es := InArgument(value);
    var open, named, inside := Progress([], "", [], Between), Progress([], "f", [], Between), Progress([], "f", [], InArg);
    var keyed := Progress([], "f", [], HasKey(Trim(es[5].text)));
    var valued := Advance(keyed, es[6]).value;
    assert TrimTrailing(es[2].text, -1) == "f" by { OneLetter(); }
    assert Advance(open, es[2]) == Some(named);
    NestsFrom(es, open, named, inside, keyed, valued);
  }

  lemma OneLetter()
    ensures TrimTrailing("f", -1) == "f"
  {
  }

  lemma NestsFrom(es: seq<Event>, open: Progress, named: Progress, inside: Progress, keyed: Progress, valued: Progress)
    requires |es| == 8
    requires Advance(START, es[0]) == Some(START) && Advance(START, es[1]) == Some(open)
    requires Advance(open, es[2]) == Some(named) && Advance(named, es[3]) == Some(named)
    requires Advance(named, es[4]) == Some(inside) && Advance(inside, es[5]) == Some(keyed)
    requires Advance(keyed, es[6]) == Some(valued) && Advance(valued, es[7]) == Some(valued)
    ensures AdvanceAll(START, es) == Some(valued)
  {
    hide Advance, AdvanceAll;
    assert es[0..] == es && es[8..] == [];
    AdvanceFrom(START, es, 0);
    AdvanceFrom(START, es, 1);
    AdvanceFrom(open, es, 2);
    AdvanceFrom(named, es, 3);
    AdvanceFrom(named, es, 4);
    AdvanceFrom(inside, es, 5);
    AdvanceFrom(keyed, es, 6);
    AdvanceFrom(valued, es, 7);
    AdvanceNothing(valued);
  }

  lemma AdvanceNothing(p: Progress)
    ensures AdvanceAll(p, []) == Some(p)
  {
  }

  lemma {:induction false} LastMayGrow(front: seq<Event>, x: Event, y: Event)
    requires EventGrows(x, y)
    ensures ShownGrows(front + [x], front + [y])
    decreases |front|
  {
    hide EventGrows;
    if front != [] {
      LastMayGrow(front[1..], x, y);
      assert (front + [x])[1..] == front[1..] + [x] && (front + [y])[1..] == front[1..] + [y];
    }
  }

  /** A string argument that is still being written, as it comes out of the grammar, is such a stream. */
  lemma GrowingArgumentExample(s: string, t: string)
    requires s <= t
    ensures RunsGrow([], [InArgument(s), InArgument(t)])
  {
    hide AdvanceAll, Shown, RunsGrow, RunGrows, InArgument;
    var a, b := InArgument(s), InArgument(t);
    InArgumentGrows(s, t);
    InArgumentNests(s);
    InArgumentNests(t);
    ShownNothing();
    TwoRuns(a, b);
  }

  lemma InArgumentGrows(s: string, t: string)
    requires s <= t
    ensures RunGrows(InArgument(s), InArgument(t))
  {
    hide Shown, InArgument, ShownGrows, Silent;
    ArgumentShown(s);
    ArgumentShown(t);
    var a, b := InArgument(s), InArgument(t);
    LastMayGrow([a[1], a[2], a[4], a[5]], a[6], b[6]);
  }

  lemma ArgumentShown(value: string)
    ensures var es := InArgument(value);
            && |es| == 8 && Shown(es) == [es[1], es[2], es[4], es[5]] + [es[6]]
            && es[1] == Event(ToolOpen, "<function=f>", false) && es[2] == Event(ToolName, "f", false)
            && es[4] == Event(ArgOpen, "<parameter=x>", false) && es[5] == Event(ArgName, "x", false)
            && es[6] == Event(ArgStringValue, value, true)
  {
    hide Shown, BeginsObject;
    ShownOfEight(InArgument(value));
  }

  lemma TwoRuns(a: seq<Event>, b: seq<Event>)
    requires RunGrows(a, b) && AdvanceAll(START, a).Some? && AdvanceAll(START, b).Some? && Shown([]) == []
    ensures RunsGrow([], [a, b])
  {
    hide AdvanceAll, Shown;
    assert [a, b][1..] == [b] && [b][1..] == [];
    assert RunsGrow(a, [b]);
  }

  predicate AllSafe(runs: seq<seq<Event>>) {
    forall i | 0 <= i < |runs| :: Safe(INIT, runs[i])
  }

  function Messages(runs: seq<seq<Event>>): seq<Message>
    requires AllSafe(runs)
  {
    seq(|runs|, i requires 0 <= i < |runs| => Published(runs[i]))
  }

  lemma {:induction false} MessagesGrow(last: seq<Event>, runs: seq<seq<Event>>)
    requires AdvanceAll(START, last).Some? && RunsGrow(last, runs)
    ensures Safe(INIT, last) && AllSafe(runs)
    ensures ChatStream.KeepingFrom(Published(last), Messages(runs))
    decreases |runs|
  {
    hide Inv, Advance, Published, ChatStream.GrowsKeepingNames;
    InitInv();
    RunKeepsInv(INIT, START, last);
    if runs != [] {
      PublishedGrows(last, runs[0]);
      MessagesGrow(runs[0], runs[1..]);
      forall i | 0 <= i < |runs|
        ensures Safe(INIT, runs[i])
      {
        if i > 0 { assert runs[i] == runs[1..][i - 1]; }
      }
      assert Messages(runs)[1..] == Messages(runs[1..]);
    }
  }

  /** A server that re-maps ever longer well-nested runs and sends deltas never fails, and its client
      ends with the message of the last run (its calls carrying the cached ids). */
  lemma StreamedRuns(runs: seq<seq<Event>>, generate: ChatStream.Generator)
    requires RunsGrow([], runs)
    ensures AllSafe(runs)
    ensures var s := ChatStream.Run(ChatStream.Session(ChatStream.START, EMPTY, false), Messages(runs), generate);
            var last := if runs == [] then EMPTY else Published(runs[|runs| - 1]);
            && !s.failed
            && |last.toolCalls| <= |s.server.cache.ids|
            && s.client == last.(toolCalls := ChatStream.WithIds(last.toolCalls, s.server.cache.ids))
  {
    NothingPublished();
    hide RunsGrow, Published, ChatStream.KeepingFrom, ChatStream.GrowingFrom, ChatStream.Run, Safe;
    MessagesGrow([], runs);
    ChatStream.KeepingIsGrowing(EMPTY, Messages(runs));
    ChatStream.StreamIsFaithful(Messages(runs), generate);
  }

  /** With filtered tool calls as well: names come whole and never change, so the client of the filtered
      stream ends with the message of the last run. */
  lemma FilteredRuns(runs: seq<seq<Event>>, generate: ChatStream.Generator)
    requires RunsGrow([], runs) && runs != []
    ensures AllSafe(runs)
    ensures var start := ChatStream.FilteredSession(ChatStream.START, {}, EMPTY, false);
            var s := ChatStream.RunFiltered(start, ChatStream.Chunks(Messages(runs)), generate);
            var last := Published(runs[|runs| - 1]);
            && !s.failed
            && |last.toolCalls| <= |s.server.cache.ids|
            && s.client == last.(toolCalls := ChatStream.WithIds(last.toolCalls, s.server.cache.ids))
  {
    NothingPublished();
    hide RunsGrow, ChatStream.KeepingFrom, ChatStream.RunFiltered, Safe, RunAll, AdvanceAll;
    MessagesGrow([], runs);
    LastNests([], runs);
    CallsAreNamed(runs[|runs| - 1]);
    ChatStream.FilteredWithFixedNames(Messages(runs), generate);
  }

  lemma {:induction false} LastNests(last: seq<Event>, runs: seq<seq<Event>>)
    requires RunsGrow(last, runs) && runs != []
    ensures AdvanceAll(START, runs[|runs| - 1]).Some?
    decreases |runs|
  {
    hide AdvanceAll, RunGrows;
    if |runs| > 1 { LastNests(runs[0], runs[1..]); }
  }

  lemma NothingPublished()
    ensures AdvanceAll(START, []).Some? && Safe(INIT, []) && Published([]) == EMPTY
  {
  }
}
