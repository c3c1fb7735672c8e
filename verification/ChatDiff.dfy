/** Incremental chat messages: the deltas a server sends, and the client that replays them. */
module ChatDiff {
  import opened Wrappers

  datatype ToolCall = ToolCall(name: string, arguments: string, id: string)

  datatype Message = Message(reasoning: string, content: string, toolCalls: seq<ToolCall>)

  const NO_CALL := ToolCall("", "", "")
  const EMPTY := Message("", "", [])

  datatype Index = NoIndex | At(i: nat)

  datatype Diff = Diff(reasoningDelta: string, contentDelta: string, index: Index, call: ToolCall)

  datatype DiffError = NotAPrefix | FewerToolCalls | ToolCallMismatch

  // ---------------------------------------------------------------- computing deltas

  function StringDiff(last: string, current: string): Result<string, DiffError> {
    if last == "" then Ok(current)
    else if last <= current then Ok(current[|last|..])
    else if current <= last then Ok("")
    else Err(NotAPrefix)
  }

  datatype Channel = ReasoningText | ContentText

  function TextDelta(channel: Channel, d: string): Diff {
    if channel == ReasoningText then Diff(d, "", NoIndex, NO_CALL) else Diff("", d, NoIndex, NO_CALL)
  }

  /** One delta for a text that changed, none for a text that did not. */
  function TextDiffs(channel: Channel, last: string, current: string): Result<seq<Diff>, DiffError> {
    if last == current then Ok([])
    else
      var d := StringDiff(last, current);
      if d.Err? then Err(d.error) else Ok([TextDelta(channel, d.value)])
  }

  function LastCallDiffs(i: nat, prv: ToolCall, new_: ToolCall): Result<seq<Diff>, DiffError> {
    if prv.name != new_.name && prv.name != "" && new_.name != "" && !(prv.name <= new_.name) then
      Err(ToolCallMismatch)
    else
      var d := StringDiff(prv.arguments, new_.arguments);
      var header := prv.id != new_.id || prv.name != new_.name;
      if d.Err? then Err(d.error)
      else if d.value == "" && !header then Ok([])
      else Ok([Diff("", "", At(i), if header then ToolCall(new_.name, d.value, new_.id) else ToolCall("", d.value, ""))])
  }

  function NewCallDiffs(calls: seq<ToolCall>, from: nat): seq<Diff>
    decreases |calls| - from
  {
    if from >= |calls| then []
    else [Diff("", "", At(from), calls[from])] + NewCallDiffs(calls, from + 1)
  }

  function CallDiffs(prv: seq<ToolCall>, new_: seq<ToolCall>): Result<seq<Diff>, DiffError> {
    if |new_| < |prv| then Err(FewerToolCalls)
    else
      var last := if prv == [] then Ok([]) else LastCallDiffs(|prv| - 1, prv[|prv| - 1], new_[|prv| - 1]);
      if last.Err? then last else Ok(last.value + NewCallDiffs(new_, |prv|))
  }

  /** Reasoning first, then content, then tool calls; the first failure wins. */
  function Diffs(prv: Message, new_: Message): Result<seq<Diff>, DiffError> {
    var r := TextDiffs(ReasoningText, prv.reasoning, new_.reasoning);
    if r.Err? then r
    else
      var c := TextDiffs(ContentText, prv.content, new_.content);
      if c.Err? then c
      else
        var t := CallDiffs(prv.toolCalls, new_.toolCalls);
        if t.Err? then t else Ok(r.value + c.value + t.value)
  }

  /** The tool-call part: the last known call may have grown, further calls are new. */
  method ToolCallDiffs(prv: seq<ToolCall>, new_: seq<ToolCall>) returns (r: Result<seq<Diff>, DiffError>)
    ensures r == CallDiffs(prv, new_)
  {
    hide StringDiff;
    var diffs: seq<Diff> := [];
    if |new_| < |prv| {
      return Err(FewerToolCalls);
    }
    if prv != [] {
      var idx := |prv| - 1;
      var pref, newf := prv[idx], new_[idx];
      if pref.name != newf.name && pref.name != "" && newf.name != "" {
        if !(pref.name <= newf.name) {
          return Err(ToolCallMismatch);
        }
      }
      var d := StringDiff(pref.arguments, newf.arguments);
      if d.Err? { return Err(d.error); }
      if d.value != "" || pref.id != newf.id || pref.name != newf.name {
        var delta := NO_CALL;
        if pref.id != newf.id || pref.name != newf.name {
          delta := delta.(id := newf.id, name := newf.name);
        }
        delta := delta.(arguments := d.value);
        diffs := [Diff("", "", At(idx), delta)];
      }
    }
    var idx := |prv|;
    ghost var all := diffs + NewCallDiffs(new_, idx);
    assert CallDiffs(prv, new_).Ok? && CallDiffs(prv, new_).value == all;
    while idx < |new_|
      invariant |prv| <= idx <= |new_|
      invariant diffs + NewCallDiffs(new_, idx) == all
    {
      var more := NewCallDiffs(new_, idx + 1);
      assert diffs + ([Diff("", "", At(idx), new_[idx])] + more) == diffs + [Diff("", "", At(idx), new_[idx])] + more;
      diffs := diffs + [Diff("", "", At(idx), new_[idx])];
      idx := idx + 1;
    }
    assert diffs == all;
    r := Ok(diffs);
  }

  method ComputeDiffs(prv: Message, new_: Message) returns (r: Result<seq<Diff>, DiffError>)
    ensures r == Diffs(prv, new_)
    ensures Replayable(prv, new_) ==> r.Ok?
    ensures r.Ok? ==> (ApplyAll(prv, r.value) == new_ <==> Replayable(prv, new_))
  {
    ReplayTheorem(prv, new_);
    hide Replayable, ApplyAll, StringDiff, CallDiffs;
    var diffs: seq<Diff> := [];
    if prv.reasoning != new_.reasoning {
      var d := StringDiff(prv.reasoning, new_.reasoning);
      if d.Err? { return Err(d.error); }
      diffs := [Diff(d.value, "", NoIndex, NO_CALL)];
    }
    if prv.content != new_.content {
      var d := StringDiff(prv.content, new_.content);
      if d.Err? { return Err(d.error); }
      diffs := diffs + [Diff("", d.value, NoIndex, NO_CALL)];
    }
    var t := ToolCallDiffs(prv.toolCalls, new_.toolCalls);
    if t.Err? { return t; }
    r := Ok(diffs + t.value);
    assert Diffs(prv, new_).Ok? && r.value == Diffs(prv, new_).value;
  }

  // ---------------------------------------------------------------- which deltas there are

  /** One text starts with the other. */
  predicate Comparable(a: string, b: string) {
    a <= b || b <= a
  }

  function Rest(a: string, b: string): string {
    if a <= b then b[|a|..] else ""
  }

  /** A call's name may be filled in, dropped, or extended. */
  predicate NameMayBecome(a: string, b: string) {
    a == "" || b == "" || a <= b
  }

  /** Exactly when deltas are defined, and the first reason when they are not. */
  lemma DefinedIff(prv: Message, new_: Message)
    ensures var n := |prv.toolCalls|;
            Diffs(prv, new_).Ok? <==>
              && Comparable(prv.reasoning, new_.reasoning) && Comparable(prv.content, new_.content)
              && n <= |new_.toolCalls|
              && (n > 0 ==> Comparable(prv.toolCalls[n - 1].arguments, new_.toolCalls[n - 1].arguments))
              && (n > 0 ==> NameMayBecome(prv.toolCalls[n - 1].name, new_.toolCalls[n - 1].name))
    ensures var n := |prv.toolCalls|;
            Diffs(prv, new_).Ok? || Diffs(prv, new_).error ==
              if !Comparable(prv.reasoning, new_.reasoning) || !Comparable(prv.content, new_.content) then NotAPrefix
              else if |new_.toolCalls| < n then FewerToolCalls
              else if !NameMayBecome(prv.toolCalls[n - 1].name, new_.toolCalls[n - 1].name) then ToolCallMismatch
              else NotAPrefix
  {
  }

  /** The last known call says something new. */
  predicate CallChanged(a: ToolCall, b: ToolCall) {
    a.name != b.name || a.id != b.id || (a.arguments != b.arguments && a.arguments <= b.arguments)
  }

  function CallDelta(i: nat, a: ToolCall, b: ToolCall): seq<Diff> {
    var named := a.name != b.name || a.id != b.id;
    if !CallChanged(a, b) then []
    else
      var more := Rest(a.arguments, b.arguments);
      [Diff("", "", At(i), if named then ToolCall(b.name, more, b.id) else ToolCall("", more, ""))]
  }

  /** All deltas of one step, in order: at most one for each text, at most one for the last known call,
      which names it only when its name or id changed, and one for every new call. */
  lemma DeltasAre(prv: Message, new_: Message)
    requires Diffs(prv, new_).Ok?
    ensures |prv.toolCalls| <= |new_.toolCalls|
    ensures var n := |prv.toolCalls|;
            Diffs(prv, new_).value ==
              (if prv.reasoning == new_.reasoning then [] else [Diff(Rest(prv.reasoning, new_.reasoning), "", NoIndex, NO_CALL)])
              + (if prv.content == new_.content then [] else [Diff("", Rest(prv.content, new_.content), NoIndex, NO_CALL)])
              + ((if n == 0 then [] else CallDelta(n - 1, prv.toolCalls[n - 1], new_.toolCalls[n - 1]))
                 + NewCallDiffs(new_.toolCalls, n))
  {
    hide NewCallDiffs, Rest, StringDiff, CallDelta, LastCallDiffs;
    var n := |prv.toolCalls|;
    TextAre(ReasoningText, prv.reasoning, new_.reasoning);
    TextAre(ContentText, prv.content, new_.content);
    if n > 0 { LastCallAre(n - 1, prv.toolCalls[n - 1], new_.toolCalls[n - 1]); }
  }

  lemma TextAre(channel: Channel, a: string, b: string)
    requires TextDiffs(channel, a, b).Ok?
    ensures TextDiffs(channel, a, b).value == if a == b then [] else [TextDelta(channel, Rest(a, b))]
  {
  }

  lemma LastCallAre(i: nat, a: ToolCall, b: ToolCall)
    requires LastCallDiffs(i, a, b).Ok?
    ensures LastCallDiffs(i, a, b).value == CallDelta(i, a, b)
  {
    assert a.arguments <= b.arguments && b.arguments[|a.arguments|..] == "" ==> a.arguments == b.arguments;
  }

  /** There is one delta for every new call, in order, and it carries the whole call. */
  lemma {:induction false} NewCallsAre(calls: seq<ToolCall>, from: nat, k: nat)
    requires from <= |calls|
    ensures |NewCallDiffs(calls, from)| == |calls| - from
    ensures k < |calls| - from ==> NewCallDiffs(calls, from)[k] == Diff("", "", At(from + k), calls[from + k])
    decreases |calls| - from
  {
    if from < |calls| {
      NewCallsAre(calls, from + 1, if k > 0 then k - 1 else 0);
      assert NewCallDiffs(calls, from) == [Diff("", "", At(from), calls[from])] + NewCallDiffs(calls, from + 1);
    }
  }

  // ---------------------------------------------------------------- the client

  function Pad(calls: seq<ToolCall>, n: nat): (r: seq<ToolCall>)
    ensures |r| >= n
    decreases n - |calls|
  {
    if |calls| >= n then calls else Pad(calls + [NO_CALL], n)
  }

  function Patch(call: ToolCall, delta: ToolCall): ToolCall {
    ToolCall(if delta.name != "" then delta.name else call.name,
             call.arguments + delta.arguments,
             if delta.id != "" then delta.id else call.id)
  }

  /** What a client does with one delta: text is appended, names and ids are replaced when given. */
  function Apply(m: Message, d: Diff): Message {
    var texts := Message(m.reasoning + d.reasoningDelta, m.content + d.contentDelta, m.toolCalls);
    if d.index.NoIndex? then texts
    else
      var calls := Pad(m.toolCalls, d.index.i + 1);
      texts.(toolCalls := calls[d.index.i := Patch(calls[d.index.i], d.call)])
  }

  function ApplyAll(m: Message, ds: seq<Diff>): Message
    decreases |ds|
  {
    if ds == [] then m else ApplyAll(Apply(m, ds[0]), ds[1..])
  }

  lemma {:induction false} ApplyAllConcat(m: Message, a: seq<Diff>, b: seq<Diff>)
    ensures ApplyAll(m, a + b) == ApplyAll(ApplyAll(m, a), b)
    decreases |a|
  {
    if a == [] {
      assert a + b == b;
    } else {
      assert (a + b)[1..] == a[1..] + b && (a + b)[0] == a[0];
      ApplyAllConcat(Apply(m, a[0]), a[1..], b);
    }
  }

  // ---------------------------------------------------------------- when replay is exact

  predicate LastCallReplayable(prv: ToolCall, new_: ToolCall) {
    prv.name <= new_.name && prv.arguments <= new_.arguments && (new_.id == prv.id || new_.id != "")
  }

  predicate CallsReplayable(prv: seq<ToolCall>, new_: seq<ToolCall>) {
    |prv| <= |new_| &&
    (prv == [] ||
     (prv[..|prv| - 1] == new_[..|prv| - 1] && LastCallReplayable(prv[|prv| - 1], new_[|prv| - 1])))
  }

  /** The new message extends the previous one. */
  predicate Replayable(prv: Message, new_: Message) {
    prv.reasoning <= new_.reasoning && prv.content <= new_.content && CallsReplayable(prv.toolCalls, new_.toolCalls)
  }

  lemma StringDiffExact(last: string, current: string)
    ensures last <= current ==> StringDiff(last, current).Ok?
    ensures StringDiff(last, current).Ok? ==>
              (last + StringDiff(last, current).value == current <==> last <= current)
  {
  }

  lemma ReplayableIsDefined(prv: Message, new_: Message)
    requires Replayable(prv, new_)
    ensures Diffs(prv, new_).Ok?
  {
    StringDiffExact(prv.reasoning, new_.reasoning);
    StringDiffExact(prv.content, new_.content);
  }

  lemma ApplyTextDiffs(m: Message, prv: Message, new_: Message, r: seq<Diff>, c: seq<Diff>)
    requires Ok(r) == TextDiffs(ReasoningText, prv.reasoning, new_.reasoning)
    requires Ok(c) == TextDiffs(ContentText, prv.content, new_.content)
    requires m == prv
    ensures ApplyAll(prv, r + c) ==
            Message(prv.reasoning + if r == [] then "" else r[0].reasoningDelta,
                    prv.content + if c == [] then "" else c[0].contentDelta, prv.toolCalls)
  {
    ApplyAllConcat(m, r, c);
    if r != [] { assert r == [r[0]]; assert r[1..] == []; }
    if c != [] { assert c == [c[0]]; assert c[1..] == []; }
    var m' := ApplyAll(m, r);
    assert m' == Message(prv.reasoning + if r == [] then "" else r[0].reasoningDelta, prv.content, prv.toolCalls);
    assert prv.reasoning + "" == prv.reasoning && prv.content + "" == prv.content;
  }

  lemma ApplyNewCall(m: Message, call: ToolCall)
    ensures Apply(m, Diff("", "", At(|m.toolCalls|), call)) == m.(toolCalls := m.toolCalls + [call])
  {
    var n := |m.toolCalls|;
    assert Pad(m.toolCalls + [NO_CALL], n + 1) == m.toolCalls + [NO_CALL];
    assert Pad(m.toolCalls, n + 1) == m.toolCalls + [NO_CALL];
    assert Patch(NO_CALL, call) == call;
    assert m.reasoning + "" == m.reasoning && m.content + "" == m.content;
  }

  lemma {:induction false} ApplyNewCalls(m: Message, calls: seq<ToolCall>)
    requires |m.toolCalls| <= |calls|
    ensures ApplyAll(m, NewCallDiffs(calls, |m.toolCalls|)) ==
            m.(toolCalls := m.toolCalls + calls[|m.toolCalls|..])
    decreases |calls| - |m.toolCalls|
  {
    hide Apply;
    var n := |m.toolCalls|;
    if n == |calls| {
      assert calls[n..] == [];
    } else {
      var d := Diff("", "", At(n), calls[n]);
      var ds := NewCallDiffs(calls, n);
      assert ds[0] == d && ds[1..] == NewCallDiffs(calls, n + 1);
      var m' := m.(toolCalls := m.toolCalls + [calls[n]]);
      assert Apply(m, d) == m' by { ApplyNewCall(m, calls[n]); }
      ApplyNewCalls(m', calls);
      assert m.toolCalls + [calls[n]] + calls[n + 1..] == m.toolCalls + calls[n..];
    }
  }

  lemma ApplyLastCall(m: Message, i: nat, new_: ToolCall, ds: seq<Diff>) returns (c: ToolCall)
    requires |m.toolCalls| == i + 1
    requires LastCallDiffs(i, m.toolCalls[i], new_) == Ok(ds)
    ensures ApplyAll(m, ds) == m.(toolCalls := m.toolCalls[i := c])
    ensures c == new_ <==> LastCallReplayable(m.toolCalls[i], new_)
  {
    var prv := m.toolCalls[i];
    StringDiffExact(prv.arguments, new_.arguments);
    if ds == [] {
      c := prv;
      assert m.toolCalls[i := prv] == m.toolCalls;
      assert ApplyAll(m, ds) == m.(toolCalls := m.toolCalls[i := prv]);
      assert prv.arguments + "" == prv.arguments;
    } else {
      var d := ds[0];
      assert ds == [d] && ds[1..] == [];
      c := Patch(prv, d.call);
      assert m.reasoning + "" == m.reasoning && m.content + "" == m.content;
      assert ApplyAll(m, ds) == m.(toolCalls := m.toolCalls[i := c]);
    }
  }

  /** Deltas of an extension are always defined, and whenever deltas are defined, replaying them
      yields the new message exactly when it extends the previous one. */
  lemma ReplayTheorem(prv: Message, new_: Message)
    ensures Replayable(prv, new_) ==> Diffs(prv, new_).Ok?
    ensures Diffs(prv, new_).Ok? ==> (ApplyAll(prv, Diffs(prv, new_).value) == new_ <==> Replayable(prv, new_))
  {
    if Diffs(prv, new_).Ok? { ReplayIff(prv, new_); }
    if Replayable(prv, new_) { ReplayableIsDefined(prv, new_); }
  }

  /** A client that applies the deltas of one step holds the new message exactly when the new
      message extends the previous one. */
  lemma ReplayIff(prv: Message, new_: Message)
    requires Diffs(prv, new_).Ok?
    ensures ApplyAll(prv, Diffs(prv, new_).value) == new_ <==> Replayable(prv, new_)
  {
    var r := TextDiffs(ReasoningText, prv.reasoning, new_.reasoning).value;
    var c := TextDiffs(ContentText, prv.content, new_.content).value;
    var t := CallDiffs(prv.toolCalls, new_.toolCalls).value;
    var m := ApplyAll(prv, r + c);
    ApplyTextDiffs(prv, prv, new_, r, c);
    ApplyAllConcat(prv, r + c, t);
    assert ApplyAll(prv, Diffs(prv, new_).value) == ApplyAll(m, t);
    StringDiffExact(prv.reasoning, new_.reasoning);
    StringDiffExact(prv.content, new_.content);
    assert m.reasoning == new_.reasoning <==> prv.reasoning <= new_.reasoning by {
      if prv.reasoning == new_.reasoning { assert prv.reasoning + "" == prv.reasoning; }
    }
    assert m.content == new_.content <==> prv.content <= new_.content by {
      if prv.content == new_.content { assert prv.content + "" == prv.content; }
    }
    ApplyCallDiffs(m, new_.toolCalls, t);
  }

  /** A text that got shorter gives a delta that says nothing: the client keeps the longer text. */
  lemma ShrinkingExample()
    ensures var prv, new_ := Message("", "done<", []), Message("", "done", []);
            && Diffs(prv, new_).Ok?
            && ApplyAll(prv, Diffs(prv, new_).value) == prv != new_
  {
    var prv, new_ := Message("", "done<", []), Message("", "done", []);
    var ds := [TextDelta(ContentText, "")];
    assert new_.content == prv.content[..4] && prv.content != new_.content && !(prv.content <= new_.content);
    assert Diffs(prv, new_) == Ok([] + ds + ([] + []));
    assert [] + ds + ([] + []) == ds && ds[1..] == [];
    assert prv.reasoning + "" == prv.reasoning && prv.content + "" == prv.content;
    assert Apply(prv, ds[0]) == prv;
  }

  lemma ApplyCallDiffs(m: Message, calls: seq<ToolCall>, t: seq<Diff>)
    requires CallDiffs(m.toolCalls, calls) == Ok(t)
    ensures ApplyAll(m, t).reasoning == m.reasoning && ApplyAll(m, t).content == m.content
    ensures ApplyAll(m, t).toolCalls == calls <==> CallsReplayable(m.toolCalls, calls)
  {
    var n := |m.toolCalls|;
    if n == 0 {
      assert t == NewCallDiffs(calls, 0);
      ApplyNewCalls(m, calls);
      assert m.toolCalls + calls[0..] == calls;
    } else {
      var ds := LastCallDiffs(n - 1, m.toolCalls[n - 1], calls[n - 1]).value;
      ApplyAllConcat(m, ds, NewCallDiffs(calls, n));
      var c := ApplyLastCall(m, n - 1, calls[n - 1], ds);
      var m' := m.(toolCalls := m.toolCalls[n - 1 := c]);
      ApplyNewCalls(m', calls);
      ReplacedLast(m.toolCalls, c, calls);
    }
  }

  lemma ReplacedLast(prv: seq<ToolCall>, c: ToolCall, calls: seq<ToolCall>)
    requires 0 < |prv| <= |calls|
    ensures prv[|prv| - 1 := c] + calls[|prv|..] == calls <==>
            prv[..|prv| - 1] == calls[..|prv| - 1] && c == calls[|prv| - 1]
  {
    var n := |prv|;
    var joined := prv[n - 1 := c] + calls[n..];
    if joined == calls {
      assert prv[..n - 1] == joined[..n - 1];
      assert joined[n - 1] == c;
    }
    if prv[..n - 1] == calls[..n - 1] && c == calls[n - 1] {
      forall k | 0 <= k < |calls|
        ensures joined[k] == calls[k]
      {
        if k < n - 1 { assert prv[..n - 1][k] == calls[..n - 1][k]; }
      }
    }
  }
}
