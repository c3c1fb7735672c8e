/** Holding back the names of tool calls until their arguments begin: each call's name and id are sent
    once, and a client that applies the filtered deltas still ends with the whole message. */
module ChatFilter {
  import opened ChatDiff
  import opened Sequences
  import opened Wrappers

  datatype Filtered = Filtered(out: seq<Diff>, sent: set<nat>)

  /** A delta that names a call and says nothing of its arguments. */
  function Header(i: nat, call: ToolCall): Diff {
    Diff("", "", At(i), ToolCall(call.name, "", call.id))
  }

  predicate IsPending(calls: seq<ToolCall>, sent: set<nat>, i: nat)
    requires i < |calls|
  {
    i !in sent && calls[i].name != ""
  }

  /** Before a delta goes out, the pending names it does not itself stand for. */
  function Flush(calls: seq<ToolCall>, sent: set<nat>, d: Diff, from: nat): Filtered
    decreases |calls| - from
  {
    if from >= |calls| then Filtered([], sent)
    else if IsPending(calls, sent, from) && (d.index != At(from) || d.call.arguments != "") then
      var rest := Flush(calls, sent + {from}, d, from + 1);
      Filtered([Header(from, calls[from])] + rest.out, rest.sent)
    else Flush(calls, sent, d, from + 1)
  }

  /** The delta itself: as it is, without the name that was sent before, with the name, or not at all. */
  function Itself(calls: seq<ToolCall>, sent: set<nat>, d: Diff, isPartial: bool): Filtered
    requires d.index.At? ==> d.index.i < |calls|
  {
    if d.index.NoIndex? then Filtered([d], sent)
    else
      var i, args := d.index.i, d.call.arguments;
      if i in sent then
        Filtered(if args != "" then [d.(call := ToolCall("", args, ""))] else [], sent)
      else if args != "" || !isPartial then
        Filtered([d.(call := ToolCall(calls[i].name, args, calls[i].id))], sent + {i})
      else Filtered([], sent)
  }

  function FilterOne(calls: seq<ToolCall>, sent: set<nat>, d: Diff, isPartial: bool): Filtered
    requires d.index.At? ==> d.index.i < |calls|
  {
    var f := Flush(calls, sent, d, 0);
    var g := Itself(calls, f.sent, d, isPartial);
    Filtered(f.out + g.out, g.sent)
  }

  predicate InRange(calls: seq<ToolCall>, ds: seq<Diff>) {
    forall k | 0 <= k < |ds| && ds[k].index.At? :: ds[k].index.i < |calls|
  }

  function FilterEach(calls: seq<ToolCall>, sent: set<nat>, ds: seq<Diff>, isPartial: bool): Filtered
    requires InRange(calls, ds)
    decreases |ds|
  {
    if ds == [] then Filtered([], sent)
    else
      var f := FilterOne(calls, sent, ds[0], isPartial);
      var g := FilterEach(calls, f.sent, ds[1..], isPartial);
      Filtered(f.out + g.out, g.sent)
  }

  /** At the end of the text all names that are still pending. */
  function FlushRest(calls: seq<ToolCall>, sent: set<nat>, from: nat): Filtered
    decreases |calls| - from
  {
    if from >= |calls| then Filtered([], sent)
    else if IsPending(calls, sent, from) then
      var rest := FlushRest(calls, sent + {from}, from + 1);
      Filtered([Header(from, calls[from])] + rest.out, rest.sent)
    else FlushRest(calls, sent, from + 1)
  }

  function FilterAll(calls: seq<ToolCall>, sent: set<nat>, ds: seq<Diff>, isPartial: bool): Filtered
    requires InRange(calls, ds)
  {
    var f := FilterEach(calls, sent, ds, isPartial);
    if isPartial then f
    else
      var g := FlushRest(calls, f.sent, 0);
      Filtered(f.out + g.out, g.sent)
  }

  // ---------------------------------------------------------------- the code

  function Then(out: seq<Diff>, f: Filtered): Filtered {
    Filtered(out + f.out, f.sent)
  }

  method FlushPending(calls: seq<ToolCall>, sent0: set<nat>, d: Diff) returns (out: seq<Diff>, sent: set<nat>)
    ensures Filtered(out, sent) == Flush(calls, sent0, d, 0)
  {
    out, sent := [], sent0;
    ghost var goal := Flush(calls, sent0, d, 0);
    assert [] + goal.out == goal.out;
    for i := 0 to |calls|
      invariant Then(out, Flush(calls, sent, d, i)) == goal
    {
      if !(i in sent || calls[i].name == "") {
        if d.index != At(i) || d.call.arguments != "" {
          Regroup(out, [Header(i, calls[i])], Flush(calls, sent + {i}, d, i + 1).out);
          out := out + [Header(i, calls[i])];
          sent := sent + {i};
        }
      }
    }
    assert out + [] == out;
  }

  method FlushAtEnd(calls: seq<ToolCall>, sent0: set<nat>) returns (out: seq<Diff>, sent: set<nat>)
    ensures Filtered(out, sent) == FlushRest(calls, sent0, 0)
  {
    out, sent := [], sent0;
    ghost var goal := FlushRest(calls, sent0, 0);
    assert [] + goal.out == goal.out;
    for i := 0 to |calls|
      invariant Then(out, FlushRest(calls, sent, i)) == goal
    {
      if i !in sent && calls[i].name != "" {
        Regroup(out, [Header(i, calls[i])], FlushRest(calls, sent + {i}, i + 1).out);
        out := out + [Header(i, calls[i])];
        sent := sent + {i};
      }
    }
    assert out + [] == out;
  }

  method FilterDiffs(calls: seq<ToolCall>, sent0: set<nat>, all: seq<Diff>, isPartial: bool)
      returns (diffs: seq<Diff>, sent: set<nat>)
    requires InRange(calls, all)
    ensures Filtered(diffs, sent) == FilterAll(calls, sent0, all, isPartial)
  {
    hide Flush, FlushRest;
    diffs, sent := [], sent0;
    ghost var goal := FilterEach(calls, sent0, all, isPartial);
    assert [] + goal.out == goal.out && all[0..] == all;
    for k := 0 to |all|
      invariant InRange(calls, all[k..])
      invariant Then(diffs, FilterEach(calls, sent, all[k..], isPartial)) == goal
    {
      var d := all[k];
      ghost var rest := all[k..];
      assert rest[0] == d && rest[1..] == all[k + 1..];
      assert InRange(calls, all[k + 1..]);
      ghost var before, f := diffs, FilterOne(calls, sent, d, isPartial);
      var out, sent' := FlushPending(calls, sent, d);
      sent := sent';
      diffs := diffs + out;
      if d.index.NoIndex? {
        diffs := diffs + [d];
      } else {
        var i := d.index.i;
        if i in sent {
          if d.call.arguments != "" {
            diffs := diffs + [d.(call := ToolCall("", d.call.arguments, ""))];
          }
        } else if d.call.arguments != "" || !isPartial {
          diffs := diffs + [d.(call := ToolCall(calls[i].name, d.call.arguments, calls[i].id))];
          sent := sent + {i};
        }
      }
      assert diffs == before + f.out && sent == f.sent;
      Regroup(before, f.out, FilterEach(calls, sent, all[k + 1..], isPartial).out);
    }
    assert diffs + [] == diffs;
    if !isPartial {
      var out, sent' := FlushAtEnd(calls, sent);
      diffs, sent := diffs + out, sent';
    }
  }

  // ---------------------------------------------------------------- what the client sees

  function CallAt(calls: seq<ToolCall>, i: nat): ToolCall {
    if i < |calls| then calls[i] else NO_CALL
  }

  predicate AllNamed(calls: seq<ToolCall>) {
    forall i | 0 <= i < |calls| :: calls[i].name != ""
  }

  /** The calls so far have the names and ids of the final ones. */
  predicate Fixed(so: seq<ToolCall>, calls: seq<ToolCall>) {
    |so| <= |calls| && forall i | 0 <= i < |so| :: so[i].name == calls[i].name && so[i].id == calls[i].id
  }

  /** One call on the client: as it is so far once its name was sent, a bare name if the name is ahead of
      the deltas, and nothing while the name is held back, which happens only before its arguments begin. */
  predicate CallViewed(c: seq<ToolCall>, p: seq<ToolCall>, calls: seq<ToolCall>, sent: set<nat>, i: nat)
    requires i < |calls|
  {
    if i in sent then
      i < |c| && c[i] == if i < |p| then p[i] else ToolCall(calls[i].name, "", calls[i].id)
    else CallAt(c, i) == NO_CALL && CallAt(p, i).arguments == ""
  }

  /** What the client holds, against the message the unfiltered deltas have led to. */
  predicate View(c: Message, p: Message, calls: seq<ToolCall>, sent: set<nat>) {
    && c.reasoning == p.reasoning && c.content == p.content
    && Fixed(p.toolCalls, calls) && |c.toolCalls| <= |calls|
    && (forall i | i in sent :: i < |calls|)
    && (forall i: nat | i < |calls| :: CallViewed(c.toolCalls, p.toolCalls, calls, sent, i))
  }

  lemma {:induction false} PadAt(calls: seq<ToolCall>, n: nat)
    ensures |Pad(calls, n)| == if |calls| >= n then |calls| else n
    ensures forall i: nat :: CallAt(Pad(calls, n), i) == CallAt(calls, i)
    decreases n - |calls|
  {
    if |calls| < n { PadAt(calls + [NO_CALL], n); }
  }

  /** A delta about a call changes that call only. */
  lemma ApplyAt(m: Message, d: Diff)
    requires d.index.At?
    ensures var i, c, c' := d.index.i, m.toolCalls, Apply(m, d).toolCalls;
            && |c'| == (if |c| > i then |c| else i + 1)
            && c'[i] == Patch(CallAt(c, i), d.call)
            && forall k: nat | k != i :: CallAt(c', k) == CallAt(c, k)
  {
    hide Pad, Patch;
    PadAt(m.toolCalls, d.index.i + 1);
    var q := Pad(m.toolCalls, d.index.i + 1);
    assert CallAt(q, d.index.i) == q[d.index.i];
    assert forall k: nat | k != d.index.i :: CallAt(Apply(m, d).toolCalls, k) == CallAt(q, k);
  }

  lemma NamingStep(c: Message, p: Message, calls: seq<ToolCall>, sent: set<nat>, i: nat)
    requires View(c, p, calls, sent) && i < |calls| && i !in sent && calls[i].name != ""
    ensures View(Apply(c, Header(i, calls[i])), p, calls, sent + {i})
  {
    hide Apply, Fixed;
    var d := Header(i, calls[i]);
    ApplyAt(c, d);
    var c' := Apply(c, d).toolCalls;
    ApplyTexts(c, d);
    assert CallViewed(c.toolCalls, p.toolCalls, calls, sent, i);
    if i < |p.toolCalls| { FixedAt(p.toolCalls, calls, i); }
    assert c'[i] == ToolCall(calls[i].name, "", calls[i].id) by { assert "" + "" == ""; }
    forall k: nat | k < |calls|
      ensures CallViewed(c', p.toolCalls, calls, sent + {i}, k)
    {
      assert CallViewed(c.toolCalls, p.toolCalls, calls, sent, k);
      if k != i { assert CallAt(c', k) == CallAt(c.toolCalls, k); }
    }
  }

  lemma FixedAt(so: seq<ToolCall>, calls: seq<ToolCall>, i: nat)
    requires Fixed(so, calls) && i < |so|
    ensures i < |calls| && so[i].name == calls[i].name && so[i].id == calls[i].id
  {
  }

  lemma ApplyTexts(m: Message, d: Diff)
    ensures Apply(m, d).reasoning == m.reasoning + d.reasoningDelta && Apply(m, d).content == m.content + d.contentDelta
    ensures d.reasoningDelta == "" ==> Apply(m, d).reasoning == m.reasoning
    ensures d.contentDelta == "" ==> Apply(m, d).content == m.content
    ensures d.index.NoIndex? ==> Apply(m, d).toolCalls == m.toolCalls
  {
  }

  lemma ApplyHead(m: Message, d: Diff, ds: seq<Diff>)
    ensures ApplyAll(m, [d] + ds) == ApplyAll(Apply(m, d), ds)
  {
    assert ([d] + ds)[1..] == ds;
  }

  lemma {:induction false} FlushKeepsView(c: Message, p: Message, calls: seq<ToolCall>, sent: set<nat>, d: Diff, from: nat)
    requires View(c, p, calls, sent)
    ensures var f := Flush(calls, sent, d, from);
            && View(ApplyAll(c, f.out), p, calls, f.sent) && sent <= f.sent
            && forall i: nat | from <= i < |calls| ::
                 i in f.sent || calls[i].name == "" || (d.index == At(i) && d.call.arguments == "")
    decreases |calls| - from
  {
    hide View, Apply;
    if from < |calls| {
      if IsPending(calls, sent, from) && (d.index != At(from) || d.call.arguments != "") {
        NamingStep(c, p, calls, sent, from);
        var c' := Apply(c, Header(from, calls[from]));
        FlushKeepsView(c', p, calls, sent + {from}, d, from + 1);
        ApplyHead(c, Header(from, calls[from]), Flush(calls, sent + {from}, d, from + 1).out);
      } else {
        FlushKeepsView(c, p, calls, sent, d, from + 1);
      }
    }
  }

  lemma {:induction false} RestKeepsView(c: Message, p: Message, calls: seq<ToolCall>, sent: set<nat>, from: nat)
    requires View(c, p, calls, sent)
    ensures var f := FlushRest(calls, sent, from);
            && View(ApplyAll(c, f.out), p, calls, f.sent) && sent <= f.sent
            && forall i: nat | from <= i < |calls| :: i in f.sent || calls[i].name == ""
    decreases |calls| - from
  {
    hide View, Apply;
    if from < |calls| {
      if IsPending(calls, sent, from) {
        NamingStep(c, p, calls, sent, from);
        var c' := Apply(c, Header(from, calls[from]));
        RestKeepsView(c', p, calls, sent + {from}, from + 1);
        ApplyHead(c, Header(from, calls[from]), FlushRest(calls, sent + {from}, from + 1).out);
      } else {
        RestKeepsView(c, p, calls, sent, from + 1);
      }
    }
  }

  // ---------------------------------------------------------------- deltas of a growing message

  /** A delta that leads from one message towards the next: more text, more arguments for a call that is
      there, with its final name and id or none, or the next call as it will be. */
  predicate Proper(p: Message, calls: seq<ToolCall>, d: Diff) {
    match d.index
    case NoIndex => true
    case At(i) =>
      d.reasoningDelta == "" && d.contentDelta == "" && i < |calls| &&
      if i < |p.toolCalls| then d.call.name in ["", calls[i].name] && d.call.id in ["", calls[i].id]
      else i == |p.toolCalls| && d.call == calls[i]
  }

  predicate ProperFrom(p: Message, calls: seq<ToolCall>, ds: seq<Diff>)
    decreases |ds|
  {
    ds == [] || (Proper(p, calls, ds[0]) && ProperFrom(Apply(p, ds[0]), calls, ds[1..]))
  }

  lemma {:induction false} ProperConcat(p: Message, calls: seq<ToolCall>, a: seq<Diff>, b: seq<Diff>)
    requires ProperFrom(p, calls, a) && ProperFrom(ApplyAll(p, a), calls, b)
    ensures ProperFrom(p, calls, a + b)
    decreases |a|
  {
    hide Proper, Apply;
    if a == [] {
      assert a + b == b;
    } else {
      assert (a + b)[1..] == a[1..] + b && (a + b)[0] == a[0];
      ProperConcat(Apply(p, a[0]), calls, a[1..], b);
    }
  }

  lemma TextKeepsView(c: Message, p: Message, calls: seq<ToolCall>, sent: set<nat>, d: Diff)
    requires View(c, p, calls, sent) && d.index.NoIndex?
    ensures View(Apply(c, d), Apply(p, d), calls, sent)
  {
  }

  lemma ItselfKeepsView(c: Message, p: Message, calls: seq<ToolCall>, sent: set<nat>, d: Diff, isPartial: bool)
    requires View(c, p, calls, sent) && Proper(p, calls, d)
    requires forall i: nat | i < |calls| ::
               i in sent || calls[i].name == "" || (d.index == At(i) && d.call.arguments == "")
    ensures var g := Itself(calls, sent, d, isPartial);
            View(ApplyAll(c, g.out), Apply(p, d), calls, g.sent) && sent <= g.sent
  {
    if d.index.NoIndex? {
      TextKeepsView(c, p, calls, sent, d);
      ApplyOne(c, d);
    } else {
      assert d.index.i < |calls|;
      hide View, Apply, Proper;
      CallKeepsView(c, p, calls, sent, d, isPartial);
    }
  }

  lemma ApplyOne(m: Message, d: Diff)
    ensures ApplyAll(m, [d]) == Apply(m, d) && ApplyAll(m, []) == m
  {
    assert [d][1..] == [];
  }

  /** The message after a delta about a call. */
  lemma ProperCall(p: Message, calls: seq<ToolCall>, d: Diff)
    requires Proper(p, calls, d) && d.index.At? && Fixed(p.toolCalls, calls)
    ensures var i, p' := d.index.i, Apply(p, d);
            && p'.reasoning == p.reasoning && p'.content == p.content && Fixed(p'.toolCalls, calls)
            && i < |p'.toolCalls| == (if i < |p.toolCalls| then |p.toolCalls| else i + 1)
            && p'.toolCalls[i] == (if i < |p.toolCalls|
                                   then p.toolCalls[i].(arguments := p.toolCalls[i].arguments + d.call.arguments)
                                   else calls[i])
            && forall k: nat | k != i :: CallAt(p'.toolCalls, k) == CallAt(p.toolCalls, k)
  {
    hide Apply;
    var i := d.index.i;
    ApplyAt(p, d);
    ApplyTexts(p, d);
    var p' := Apply(p, d).toolCalls;
    assert "" + d.call.arguments == d.call.arguments;
    forall k: nat | k < |p'|
      ensures p'[k].name == calls[k].name && p'[k].id == calls[k].id
    {
      if k != i { assert CallAt(p', k) == CallAt(p.toolCalls, k); }
    }
  }

  lemma CallKeepsView(c: Message, p: Message, calls: seq<ToolCall>, sent: set<nat>, d: Diff, isPartial: bool)
    requires View(c, p, calls, sent) && Proper(p, calls, d) && d.index.At?
    requires d.index.i < |calls| && (d.index.i in sent || calls[d.index.i].name == "" || d.call.arguments == "")
    ensures var g := Itself(calls, sent, d, isPartial);
            View(ApplyAll(c, g.out), Apply(p, d), calls, g.sent) && sent <= g.sent
  {
    hide Apply;
    var i, args := d.index.i, d.call.arguments;
    var g := Itself(calls, sent, d, isPartial);
    ProperCall(p, calls, d);
    var p' := Apply(p, d);
    assert CallViewed(c.toolCalls, p.toolCalls, calls, sent, i);
    if g.out == [] {
      ApplyOne(c, d);
      assert args == "";
      if i < |p.toolCalls| { assert p.toolCalls[i].arguments + "" == p.toolCalls[i].arguments; }
      forall k: nat | k < |calls|
        ensures CallViewed(c.toolCalls, p'.toolCalls, calls, sent, k)
      {
        assert CallViewed(c.toolCalls, p.toolCalls, calls, sent, k);
        if k != i { OthersViewed(c.toolCalls, p.toolCalls, c.toolCalls, p'.toolCalls, calls, sent, i, k); }
      }
    } else {
      var e := g.out[0];
      assert g.out == [e];
      ApplyOne(c, e);
      ApplyAt(c, e);
      ApplyTexts(c, e);
      var c' := Apply(c, e).toolCalls;
      assert "" + args == args;
      assert c'[i] == p'.toolCalls[i];
      forall k: nat | k < |calls|
        ensures CallViewed(c', p'.toolCalls, calls, g.sent, k)
      {
        assert CallViewed(c.toolCalls, p.toolCalls, calls, sent, k);
        if k != i { OthersViewed(c.toolCalls, p.toolCalls, c', p'.toolCalls, calls, sent, i, k); }
      }
    }
  }

  lemma OthersViewed(c: seq<ToolCall>, p: seq<ToolCall>, c': seq<ToolCall>, p': seq<ToolCall>, calls: seq<ToolCall>,
                     sent: set<nat>, i: nat, k: nat)
    requires k < |calls| && k != i && CallViewed(c, p, calls, sent, k)
    requires CallAt(c', k) == CallAt(c, k) && CallAt(p', k) == CallAt(p, k) && |c'| >= |c| && (k < |p'| <==> k < |p|)
    ensures CallViewed(c', p', calls, sent, k)
  {
  }

  lemma {:induction false} EachKeepsView(c: Message, p: Message, calls: seq<ToolCall>, sent: set<nat>, ds: seq<Diff>,
                                         isPartial: bool)
    requires View(c, p, calls, sent) && ProperFrom(p, calls, ds) && InRange(calls, ds)
    ensures var f := FilterEach(calls, sent, ds, isPartial);
            View(ApplyAll(c, f.out), ApplyAll(p, ds), calls, f.sent) && sent <= f.sent
    decreases |ds|
  {
    hide View, Proper, Apply, Flush, Itself;
    if ds != [] {
      var d := ds[0];
      FlushKeepsView(c, p, calls, sent, d, 0);
      var f := Flush(calls, sent, d, 0);
      var c1 := ApplyAll(c, f.out);
      ItselfKeepsView(c1, p, calls, f.sent, d, isPartial);
      var g := Itself(calls, f.sent, d, isPartial);
      var c2 := ApplyAll(c1, g.out);
      var rest := FilterEach(calls, g.sent, ds[1..], isPartial);
      EachKeepsView(c2, Apply(p, d), calls, g.sent, ds[1..], isPartial);
      ApplyAllConcat(c, f.out, g.out);
      ApplyAllConcat(c, f.out + g.out, rest.out);
    }
  }

  // ---------------------------------------------------------------- one update

  /** The calls whose names were sent keep their names and ids. */
  predicate SentKept(so: seq<ToolCall>, calls: seq<ToolCall>, sent: set<nat>) {
    forall i | i in sent && i < |so| && i < |calls| :: so[i].name == calls[i].name && so[i].id == calls[i].id
  }

  /** A message under the names and ids its calls will have. */
  function Retitled(p: Message, calls: seq<ToolCall>): (r: Message)
    requires |p.toolCalls| <= |calls|
    ensures Fixed(r.toolCalls, calls)
  {
    p.(toolCalls := seq(|p.toolCalls|, i requires 0 <= i < |p.toolCalls| =>
                          p.toolCalls[i].(name := calls[i].name, id := calls[i].id)))
  }

  lemma RetitledStep(p: Message, calls: seq<ToolCall>, d: Diff)
    requires |p.toolCalls| <= |calls| && Proper(Retitled(p, calls), calls, d)
    ensures |Apply(p, d).toolCalls| <= |calls|
    ensures Apply(Retitled(p, calls), d) == Retitled(Apply(p, d), calls)
  {
    hide Apply;
    var q := Retitled(p, calls);
    ApplyTexts(p, d);
    ApplyTexts(q, d);
    if d.index.At? {
      ApplyAt(p, d);
      ApplyAt(q, d);
      var p', q' := Apply(p, d).toolCalls, Apply(q, d).toolCalls;
      forall k | 0 <= k < |q'|
        ensures q'[k] == Retitled(Apply(p, d), calls).toolCalls[k]
      {
        assert k != d.index.i ==> CallAt(q', k) == CallAt(q.toolCalls, k) && CallAt(p', k) == CallAt(p.toolCalls, k);
      }
    }
  }

  lemma {:induction false} RetitledReplays(p: Message, calls: seq<ToolCall>, ds: seq<Diff>)
    requires |p.toolCalls| <= |calls| && ProperFrom(Retitled(p, calls), calls, ds)
    ensures |ApplyAll(p, ds).toolCalls| <= |calls|
    ensures ApplyAll(Retitled(p, calls), ds) == Retitled(ApplyAll(p, ds), calls)
    decreases |ds|
  {
    hide Apply, Proper, Retitled;
    if ds != [] {
      RetitledStep(p, calls, ds[0]);
      RetitledReplays(Apply(p, ds[0]), calls, ds[1..]);
    }
  }

  lemma ProperOne(p: Message, calls: seq<ToolCall>, d: Diff)
    requires Proper(p, calls, d)
    ensures ProperFrom(p, calls, [d])
  {
    assert [d][1..] == [];
  }

  lemma {:induction false} NewCallsProper(p: Message, calls: seq<ToolCall>)
    requires |p.toolCalls| <= |calls| && Fixed(p.toolCalls, calls)
    ensures ProperFrom(p, calls, NewCallDiffs(calls, |p.toolCalls|))
    decreases |calls| - |p.toolCalls|
  {
    hide Apply;
    var n := |p.toolCalls|;
    if n < |calls| {
      var d := Diff("", "", At(n), calls[n]);
      ProperCall(p, calls, d);
      NewCallsProper(Apply(p, d), calls);
      assert NewCallDiffs(calls, n)[1..] == NewCallDiffs(calls, n + 1);
    }
  }

  lemma {:induction false} NewCallsInRange(calls: seq<ToolCall>, from: nat)
    ensures InRange(calls, NewCallDiffs(calls, from))
    decreases |calls| - from
  {
    if from < |calls| { NewCallsInRange(calls, from + 1); }
  }

  /** Deltas never name a call the new message does not have. */
  lemma DiffsInRange(prv: Message, new_: Message)
    requires Diffs(prv, new_).Ok?
    ensures InRange(new_.toolCalls, Diffs(prv, new_).value)
  {
    hide NewCallDiffs;
    NewCallsInRange(new_.toolCalls, |prv.toolCalls|);
  }

  lemma TextProper(p: Message, calls: seq<ToolCall>, channel: Channel, last: string, current: string)
    requires TextDiffs(channel, last, current).Ok?
    ensures var ds := TextDiffs(channel, last, current).value;
            ProperFrom(p, calls, ds) && ApplyAll(p, ds).toolCalls == p.toolCalls
  {
    var ds := TextDiffs(channel, last, current).value;
    if ds != [] {
      assert ds == [ds[0]];
      ApplyOne(p, ds[0]);
      ProperOne(p, calls, ds[0]);
    }
  }

  lemma LastProper(p: Message, calls: seq<ToolCall>, was: ToolCall, ds: seq<Diff>)
    requires p.toolCalls != [] && Fixed(p.toolCalls, calls)
    requires LastCallDiffs(|p.toolCalls| - 1, was, calls[|p.toolCalls| - 1]) == Ok(ds)
    ensures ProperFrom(p, calls, ds) && |ApplyAll(p, ds).toolCalls| == |p.toolCalls|
    ensures Fixed(ApplyAll(p, ds).toolCalls, calls)
  {
    hide Apply, StringDiff;
    if ds != [] {
      var d := ds[0];
      assert ds == [d];
      assert Proper(p, calls, d) by { FixedAt(p.toolCalls, calls, |p.toolCalls| - 1); }
      ProperOne(p, calls, d);
      ProperCall(p, calls, d);
      ApplyOne(p, d);
    }
  }

  lemma DiffsProper(prv: Message, new_: Message)
    requires Replayable(prv, new_) && Diffs(prv, new_).Ok?
    ensures |prv.toolCalls| <= |new_.toolCalls|
    ensures ProperFrom(Retitled(prv, new_.toolCalls), new_.toolCalls, Diffs(prv, new_).value)
  {
    hide Apply, TextDiffs, LastCallDiffs, NewCallDiffs, ProperFrom, Fixed;
    var calls := new_.toolCalls;
    var p := Retitled(prv, calls);
    var r := TextDiffs(ReasoningText, prv.reasoning, new_.reasoning).value;
    var c := TextDiffs(ContentText, prv.content, new_.content).value;
    TextProper(p, calls, ReasoningText, prv.reasoning, new_.reasoning);
    var m1 := ApplyAll(p, r);
    TextProper(m1, calls, ContentText, prv.content, new_.content);
    ProperConcat(p, calls, r, c);
    ApplyAllConcat(p, r, c);
    var m2 := ApplyAll(p, r + c);
    var n := |prv.toolCalls|;
    var last := if n == 0 then [] else LastCallDiffs(n - 1, prv.toolCalls[n - 1], calls[n - 1]).value;
    var news := NewCallDiffs(calls, n);
    assert Diffs(prv, new_).value == r + c + (last + news);
    if n > 0 { LastProper(m2, calls, prv.toolCalls[n - 1], last); } else { ProperNothing(m2, calls); }
    var m3 := ApplyAll(m2, last);
    assert |m3.toolCalls| == n && Fixed(m3.toolCalls, calls);
    NewCallsProper(m3, calls);
    ProperConcat(m2, calls, last, news);
    ProperConcat(p, calls, r + c, last + news);
  }

  lemma ProperNothing(p: Message, calls: seq<ToolCall>)
    ensures ProperFrom(p, calls, []) && ApplyAll(p, []) == p
  {
  }

  /** Between two updates: the client's view of the server's message. */
  predicate Follows(client: Message, server: Message, sent: set<nat>) {
    View(client, server, server.toolCalls, sent)
  }

  /** Every call without a name has been sent. */
  predicate AllSent(calls: seq<ToolCall>, sent: set<nat>) {
    forall i | 0 <= i < |calls| && calls[i].name == "" :: i in sent
  }

  /** One update with filtering: the deltas are defined, the client keeps following, names are only ever
      added to what was sent, and when the text is complete the client holds the message, unless a call
      without a name was never sent. */
  lemma UpdateFollows(client: Message, prv: Message, new_: Message, sent: set<nat>, isPartial: bool)
    requires Follows(client, prv, sent) && Replayable(prv, new_) && SentKept(prv.toolCalls, new_.toolCalls, sent)
    ensures Diffs(prv, new_).Ok? && InRange(new_.toolCalls, Diffs(prv, new_).value)
    ensures var f := FilterAll(new_.toolCalls, sent, Diffs(prv, new_).value, isPartial);
            && Follows(ApplyAll(client, f.out), new_, f.sent) && sent <= f.sent
            && (!isPartial && AllSent(new_.toolCalls, f.sent) ==> ApplyAll(client, f.out) == new_)
  {
    ReplayTheorem(prv, new_);
    DiffsInRange(prv, new_);
    DiffsProper(prv, new_);
    StartsView(client, prv, new_.toolCalls, sent);
    var calls, ds := new_.toolCalls, Diffs(prv, new_).value;
    RetitledReplays(prv, calls, ds);
    assert Retitled(new_, calls) == new_;
    hide View, Apply, FilterEach, FlushRest, Diffs, ProperFrom, Replayable, Fixed, Retitled;
    EachKeepsView(client, Retitled(prv, calls), calls, sent, ds, isPartial);
    if !isPartial {
      var f := FilterEach(calls, sent, ds, isPartial);
      RestKeepsView(ApplyAll(client, f.out), new_, calls, f.sent, 0);
      var g := FlushRest(calls, f.sent, 0);
      ApplyAllConcat(client, f.out, g.out);
      if AllSent(calls, g.sent) { EverythingSent(ApplyAll(client, f.out + g.out), new_, g.sent); }
    }
  }

  lemma StartsView(client: Message, prv: Message, calls: seq<ToolCall>, sent: set<nat>)
    requires Follows(client, prv, sent) && SentKept(prv.toolCalls, calls, sent)
    requires |prv.toolCalls| <= |calls|
    ensures View(client, Retitled(prv, calls), calls, sent)
  {
    forall i: nat | i < |calls|
      ensures CallViewed(client.toolCalls, Retitled(prv, calls).toolCalls, calls, sent, i)
    {
      if i < |prv.toolCalls| { assert CallViewed(client.toolCalls, prv.toolCalls, prv.toolCalls, sent, i); }
    }
  }

  lemma EverythingSent(c: Message, m: Message, sent: set<nat>)
    requires View(c, m, m.toolCalls, sent) && forall i: nat | i < |m.toolCalls| :: i in sent
    ensures c == m
  {
    forall i: nat | i < |m.toolCalls|
      ensures i < |c.toolCalls| && c.toolCalls[i] == m.toolCalls[i]
    {
      assert CallViewed(c.toolCalls, m.toolCalls, m.toolCalls, sent, i);
    }
    if m.toolCalls != [] {
      var k: nat := |m.toolCalls| - 1;
      assert CallViewed(c.toolCalls, m.toolCalls, m.toolCalls, sent, k);
    }
  }

  // ---------------------------------------------------------------- names are sent once

  predicate Names(d: Diff) {
    d.index.At? && (d.call.name != "" || d.call.id != "")
  }

  /** No call is named whose name was sent before, and none is named twice. */
  predicate NamesOnce(ds: seq<Diff>, sent: set<nat>)
    decreases |ds|
  {
    ds == [] || if Names(ds[0]) then ds[0].index.i !in sent && NamesOnce(ds[1..], sent + {ds[0].index.i})
                else NamesOnce(ds[1..], sent)
  }

  function NamedBy(ds: seq<Diff>, sent: set<nat>): set<nat>
    decreases |ds|
  {
    if ds == [] then sent else NamedBy(ds[1..], if Names(ds[0]) then sent + {ds[0].index.i} else sent)
  }

  lemma {:induction false} OnceConcat(a: seq<Diff>, b: seq<Diff>, sent: set<nat>)
    requires NamesOnce(a, sent) && NamesOnce(b, NamedBy(a, sent))
    ensures NamesOnce(a + b, sent) && NamedBy(a + b, sent) == NamedBy(b, NamedBy(a, sent))
    decreases |a|
  {
    if a == [] {
      assert a + b == b;
    } else {
      assert (a + b)[1..] == a[1..] + b && (a + b)[0] == a[0];
      OnceConcat(a[1..], b, if Names(a[0]) then sent + {a[0].index.i} else sent);
    }
  }

  lemma {:induction false} FlushOnce(calls: seq<ToolCall>, sent: set<nat>, d: Diff, from: nat)
    ensures var f := Flush(calls, sent, d, from);
            NamesOnce(f.out, sent) && NamedBy(f.out, sent) == f.sent
    decreases |calls| - from
  {
    if from < |calls| {
      if IsPending(calls, sent, from) && (d.index != At(from) || d.call.arguments != "") {
        FlushOnce(calls, sent + {from}, d, from + 1);
        var f := Flush(calls, sent, d, from);
        assert f.out[1..] == Flush(calls, sent + {from}, d, from + 1).out;
      } else {
        FlushOnce(calls, sent, d, from + 1);
      }
    }
  }

  lemma {:induction false} RestOnce(calls: seq<ToolCall>, sent: set<nat>, from: nat)
    ensures var f := FlushRest(calls, sent, from);
            NamesOnce(f.out, sent) && NamedBy(f.out, sent) == f.sent
    decreases |calls| - from
  {
    if from < |calls| {
      if IsPending(calls, sent, from) {
        RestOnce(calls, sent + {from}, from + 1);
        var f := FlushRest(calls, sent, from);
        assert f.out[1..] == FlushRest(calls, sent + {from}, from + 1).out;
      } else {
        RestOnce(calls, sent, from + 1);
      }
    }
  }

  lemma ItselfOnce(calls: seq<ToolCall>, sent: set<nat>, d: Diff, isPartial: bool)
    requires d.index.At? ==> d.index.i < |calls|
    ensures var g := Itself(calls, sent, d, isPartial);
            && NamesOnce(g.out, sent) && NamedBy(g.out, sent) <= g.sent
            && (AllNamed(calls) ==> NamedBy(g.out, sent) == g.sent)
  {
    var g := Itself(calls, sent, d, isPartial);
    if g.out != [] {
      assert g.out == [g.out[0]] && [g.out[0]][1..] == [];
    }
  }

  /** Where fewer names were sent before, names are still sent once. */
  lemma {:induction false} OnceAmongFewer(ds: seq<Diff>, fewer: set<nat>, sent: set<nat>)
    requires fewer <= sent && NamesOnce(ds, sent)
    ensures NamesOnce(ds, fewer) && NamedBy(ds, fewer) <= NamedBy(ds, sent)
    decreases |ds|
  {
    if ds != [] {
      if Names(ds[0]) {
        OnceAmongFewer(ds[1..], fewer + {ds[0].index.i}, sent + {ds[0].index.i});
      } else {
        OnceAmongFewer(ds[1..], fewer, sent);
      }
    }
  }

  lemma {:induction false} EachOnce(calls: seq<ToolCall>, sent: set<nat>, ds: seq<Diff>, isPartial: bool)
    requires InRange(calls, ds)
    ensures var f := FilterEach(calls, sent, ds, isPartial);
            && NamesOnce(f.out, sent) && NamedBy(f.out, sent) <= f.sent
            && (AllNamed(calls) ==> NamedBy(f.out, sent) == f.sent)
    decreases |ds|
  {
    hide Flush, Itself, NamesOnce, NamedBy;
    if ds == [] {
      NothingNamed(sent);
    } else {
      var d := ds[0];
      FlushOnce(calls, sent, d, 0);
      var f := Flush(calls, sent, d, 0);
      ItselfOnce(calls, f.sent, d, isPartial);
      var g := Itself(calls, f.sent, d, isPartial);
      OnceConcat(f.out, g.out, sent);
      EachOnce(calls, g.sent, ds[1..], isPartial);
      var rest := FilterEach(calls, g.sent, ds[1..], isPartial);
      OnceAmongFewer(rest.out, NamedBy(f.out + g.out, sent), g.sent);
      OnceConcat(f.out + g.out, rest.out, sent);
    }
  }

  lemma NothingNamed(sent: set<nat>)
    ensures NamesOnce([], sent) && NamedBy([], sent) == sent
  {
  }

  /** The filtered deltas name every call at most once, and none that was named before; what they name is
      marked as sent, and nothing else is if all calls have names. */
  lemma NamedAtMostOnce(calls: seq<ToolCall>, sent: set<nat>, ds: seq<Diff>, isPartial: bool)
    requires InRange(calls, ds)
    ensures var f := FilterAll(calls, sent, ds, isPartial);
            && NamesOnce(f.out, sent) && NamedBy(f.out, sent) <= f.sent
            && (AllNamed(calls) ==> NamedBy(f.out, sent) == f.sent)
  {
    hide NamesOnce, NamedBy, FilterEach, FlushRest;
    EachOnce(calls, sent, ds, isPartial);
    var f := FilterEach(calls, sent, ds, isPartial);
    if !isPartial {
      RestOnce(calls, f.sent, 0);
      var rest := FlushRest(calls, f.sent, 0).out;
      OnceAmongFewer(rest, NamedBy(f.out, sent), f.sent);
      OnceConcat(f.out, rest, sent);
    }
  }

  lemma {:induction false} NamedIsSent(ds: seq<Diff>, sent: set<nat>)
    ensures sent <= NamedBy(ds, sent)
    decreases |ds|
  {
    if ds != [] { NamedIsSent(ds[1..], if Names(ds[0]) then sent + {ds[0].index.i} else sent); }
  }

  lemma {:induction false} NameStays(c: Message, ds: seq<Diff>, sent: set<nat>, i: nat)
    requires NamesOnce(ds, sent) && i in sent && i < |c.toolCalls|
    ensures var c' := ApplyAll(c, ds).toolCalls;
            i < |c'| && c'[i].name == c.toolCalls[i].name && c'[i].id == c.toolCalls[i].id
    decreases |ds|
  {
    hide Apply;
    if ds != [] {
      var d := ds[0];
      if d.index.At? {
        ApplyAt(c, d);
        assert i != d.index.i ==> CallAt(Apply(c, d).toolCalls, i) == CallAt(c.toolCalls, i);
      } else {
        ApplyTexts(c, d);
      }
      NameStays(Apply(c, d), ds[1..], if Names(d) then sent + {d.index.i} else sent, i);
    }
  }

  /** A filtered update keeps the client following exactly when no name or id that was sent has changed. */
  lemma FollowsIff(client: Message, prv: Message, new_: Message, sent: set<nat>, isPartial: bool)
    requires Follows(client, prv, sent) && Replayable(prv, new_)
    ensures Diffs(prv, new_).Ok? && InRange(new_.toolCalls, Diffs(prv, new_).value)
    ensures var f := FilterAll(new_.toolCalls, sent, Diffs(prv, new_).value, isPartial);
            Follows(ApplyAll(client, f.out), new_, f.sent) <==> SentKept(prv.toolCalls, new_.toolCalls, sent)
  {
    ReplayTheorem(prv, new_);
    DiffsInRange(prv, new_);
    hide Diffs, FilterAll, Replayable, ApplyAll;
    var calls := new_.toolCalls;
    if SentKept(prv.toolCalls, calls, sent) {
      UpdateFollows(client, prv, new_, sent, isPartial);
    } else {
      var i: nat :| i in sent && i < |prv.toolCalls| && i < |calls|
                    && (prv.toolCalls[i].name != calls[i].name || prv.toolCalls[i].id != calls[i].id);
      var f := FilterAll(calls, sent, Diffs(prv, new_).value, isPartial);
      assert CallViewed(client.toolCalls, prv.toolCalls, prv.toolCalls, sent, i);
      NamedAtMostOnce(calls, sent, Diffs(prv, new_).value, isPartial);
      NamedIsSent(f.out, sent);
      assert sent <= f.sent;
      NameStays(client, f.out, sent, i);
      assert !CallViewed(ApplyAll(client, f.out).toolCalls, calls, calls, f.sent, i);
    }
  }

  /** A name that grows after it was sent stays as it was on the client. */
  lemma RenamedExample()
    ensures var prv, new_ := Message("", "", [ToolCall("f", "1", "c")]), Message("", "", [ToolCall("fo", "1", "c")]);
            && Follows(prv, prv, {0}) && Replayable(prv, new_) && Diffs(prv, new_).Ok?
            && InRange(new_.toolCalls, Diffs(prv, new_).value)
            && ApplyAll(prv, FilterAll(new_.toolCalls, {0}, Diffs(prv, new_).value, false).out) != new_
  {
    hide FilterAll, ApplyAll, Diffs;
    var prv, new_ := Message("", "", [ToolCall("f", "1", "c")]), Message("", "", [ToolCall("fo", "1", "c")]);
    assert "f" <= "fo";
    assert forall i: nat | i < 1 :: CallViewed(prv.toolCalls, prv.toolCalls, prv.toolCalls, {0}, i);
    FollowsIff(prv, prv, new_, {0}, false);
    var f := FilterAll(new_.toolCalls, {0}, Diffs(prv, new_).value, false);
    NamedAtMostOnce(new_.toolCalls, {0}, Diffs(prv, new_).value, false);
    NameStays(prv, f.out, {0}, 0);
    assert |prv.toolCalls[0].name| == 1 && |new_.toolCalls[0].name| == 2;
  }

  // ---------------------------------------------------------------- which calls are sent

  /** A delta makes a call go out: its own delta with arguments, or at the end of the text, and any other
      delta if the call has a name. */
  predicate Sends(calls: seq<ToolCall>, d: Diff, isPartial: bool, i: nat)
    requires i < |calls|
  {
    if d.index == At(i) then d.call.arguments != "" || !isPartial else calls[i].name != ""
  }

  lemma {:induction false} FlushSends(calls: seq<ToolCall>, sent: set<nat>, d: Diff, from: nat, i: nat)
    requires i < |calls|
    ensures i in Flush(calls, sent, d, from).sent <==>
            i in sent || (from <= i && calls[i].name != "" && (d.index != At(i) || d.call.arguments != ""))
    decreases |calls| - from
  {
    if from < |calls| {
      var flushed := IsPending(calls, sent, from) && (d.index != At(from) || d.call.arguments != "");
      FlushSends(calls, if flushed then sent + {from} else sent, d, from + 1, i);
    }
  }

  lemma {:induction false} RestSends(calls: seq<ToolCall>, sent: set<nat>, from: nat, i: nat)
    requires i < |calls|
    ensures i in FlushRest(calls, sent, from).sent <==> i in sent || (from <= i && calls[i].name != "")
    decreases |calls| - from
  {
    if from < |calls| {
      RestSends(calls, if IsPending(calls, sent, from) then sent + {from} else sent, from + 1, i);
    }
  }

  lemma OneSends(calls: seq<ToolCall>, sent: set<nat>, d: Diff, isPartial: bool, i: nat)
    requires i < |calls| && (d.index.At? ==> d.index.i < |calls|)
    ensures i in FilterOne(calls, sent, d, isPartial).sent <==> i in sent || Sends(calls, d, isPartial, i)
  {
    hide Flush;
    FlushSends(calls, sent, d, 0, i);
  }

  lemma {:induction false} EachSends(calls: seq<ToolCall>, sent: set<nat>, ds: seq<Diff>, isPartial: bool, i: nat)
    requires i < |calls| && InRange(calls, ds)
    ensures i in FilterEach(calls, sent, ds, isPartial).sent <==>
            i in sent || exists k | 0 <= k < |ds| :: Sends(calls, ds[k], isPartial, i)
    decreases |ds|
  {
    hide FilterOne, Sends;
    if ds != [] {
      var f := FilterOne(calls, sent, ds[0], isPartial);
      OneSends(calls, sent, ds[0], isPartial, i);
      EachSends(calls, f.sent, ds[1..], isPartial, i);
      assert forall k | 1 <= k < |ds| :: ds[k] == ds[1..][k - 1];
    }
  }

  /** Which calls an update has sent: those sent before, those a delta sends, and at the end of the text
      those with a name. A call without a name goes out only with a delta of its own. */
  lemma SentIff(calls: seq<ToolCall>, sent: set<nat>, ds: seq<Diff>, isPartial: bool, i: nat)
    requires i < |calls| && InRange(calls, ds)
    ensures i in FilterAll(calls, sent, ds, isPartial).sent <==>
            || i in sent || (!isPartial && calls[i].name != "")
            || exists k | 0 <= k < |ds| :: Sends(calls, ds[k], isPartial, i)
  {
    hide FilterEach, FlushRest, Sends;
    EachSends(calls, sent, ds, isPartial, i);
    if !isPartial { RestSends(calls, FilterEach(calls, sent, ds, isPartial).sent, 0, i); }
  }

  /** When the text is complete, the client holds the message exactly when every call without a name was
      sent before or has a delta now. No call is blank, since all have ids. */
  lemma CompleteIff(client: Message, prv: Message, new_: Message, sent: set<nat>)
    requires Follows(client, prv, sent) && Replayable(prv, new_) && SentKept(prv.toolCalls, new_.toolCalls, sent)
    requires forall i | 0 <= i < |new_.toolCalls| :: new_.toolCalls[i] != NO_CALL
    ensures Diffs(prv, new_).Ok? && InRange(new_.toolCalls, Diffs(prv, new_).value)
    ensures var calls, ds := new_.toolCalls, Diffs(prv, new_).value;
            ApplyAll(client, FilterAll(calls, sent, ds, false).out) == new_ <==>
            forall i: nat | i < |calls| && calls[i].name == "" ::
              i in sent || exists k | 0 <= k < |ds| :: ds[k].index == At(i)
  {
    UpdateFollows(client, prv, new_, sent, false);
    hide Diffs, FilterAll, Replayable, ApplyAll, SentKept;
    var calls, ds := new_.toolCalls, Diffs(prv, new_).value;
    var f := FilterAll(calls, sent, ds, false);
    var c := ApplyAll(client, f.out);
    forall i: nat | i < |calls|
      ensures CallViewed(c.toolCalls, calls, calls, f.sent, i)
      ensures calls[i].name == "" ==> (i in f.sent <==> i in sent || exists k | 0 <= k < |ds| :: ds[k].index == At(i))
    {
      SentIff(calls, sent, ds, false, i);
      if calls[i].name == "" {
        assert forall k | 0 <= k < |ds| :: Sends(calls, ds[k], false, i) <==> ds[k].index == At(i);
      }
    }
    if c == new_ {
      forall i: nat | i < |calls| && calls[i].name == ""
        ensures i in f.sent
      {
        assert CallViewed(c.toolCalls, calls, calls, f.sent, i);
      }
    }
  }

  /** A call without a name is held back and never sent. */
  lemma UnnamedExample()
    ensures var m := Message("", "", [ToolCall("", "", "c")]);
            && Diffs(EMPTY, m) == Ok([Diff("", "", At(0), m.toolCalls[0])]) && Diffs(m, m) == Ok([])
            && FilterAll(m.toolCalls, {}, Diffs(EMPTY, m).value, true) == Filtered([], {})
            && FilterAll(m.toolCalls, {}, Diffs(m, m).value, false) == Filtered([], {})
  {
    var m := Message("", "", [ToolCall("", "", "c")]);
    assert NewCallDiffs(m.toolCalls, 1) == [] && NewCallDiffs(m.toolCalls, 0) == [Diff("", "", At(0), m.toolCalls[0])];
    var none: seq<Diff> := [];
    assert LastCallDiffs(0, m.toolCalls[0], m.toolCalls[0]) == Ok([]);
    assert none + [Diff("", "", At(0), m.toolCalls[0])] == [Diff("", "", At(0), m.toolCalls[0])];
    assert none + none + [Diff("", "", At(0), m.toolCalls[0])] == [Diff("", "", At(0), m.toolCalls[0])];
    assert none + none + none == none;
    var ds := [Diff("", "", At(0), m.toolCalls[0])];
    assert Flush(m.toolCalls, {}, ds[0], 1) == Filtered([], {}) == Flush(m.toolCalls, {}, ds[0], 0);
    assert FlushRest(m.toolCalls, {}, 1) == Filtered([], {}) == FlushRest(m.toolCalls, {}, 0);
    assert ds[1..] == [] && FilterEach(m.toolCalls, {}, [], true) == Filtered([], {});
  }
}
