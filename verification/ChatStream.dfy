/** A server that re-parses the growing output of a model, gives tool calls stable ids, and sends
    the client only deltas. */
module ChatStream {
  import opened ChatDiff
  import opened ChatFilter
  import opened Wrappers

  type Generator = nat -> string

  // ---------------------------------------------------------------- tool call ids

  datatype IdCache = IdCache(ids: seq<string>, generated: nat)

  /** Ids are decided in index order: the call's own id, or the next generated one. */
  function Extend(cache: IdCache, calls: seq<ToolCall>, generate: Generator): IdCache
    decreases |calls| - |cache.ids|
  {
    var i := |cache.ids|;
    if i >= |calls| then cache
    else if calls[i].id != "" then Extend(IdCache(cache.ids + [calls[i].id], cache.generated), calls, generate)
    else Extend(IdCache(cache.ids + [generate(cache.generated)], cache.generated + 1), calls, generate)
  }

  function WithIds(calls: seq<ToolCall>, ids: seq<string>): (r: seq<ToolCall>)
    requires |calls| <= |ids|
    ensures |r| == |calls|
    ensures forall i | 0 <= i < |r| :: r[i] == ToolCall(calls[i].name, calls[i].arguments, ids[i])
  {
    seq(|calls|, i requires 0 <= i < |calls| => calls[i].(id := ids[i]))
  }

  lemma {:induction false} ExtendKeepsIds(cache: IdCache, calls: seq<ToolCall>, generate: Generator)
    ensures cache.ids <= Extend(cache, calls, generate).ids
    ensures |calls| <= |Extend(cache, calls, generate).ids|
    decreases |calls| - |cache.ids|
  {
    var i := |cache.ids|;
    if i < |calls| {
      if calls[i].id != "" {
        ExtendKeepsIds(IdCache(cache.ids + [calls[i].id], cache.generated), calls, generate);
      } else {
        ExtendKeepsIds(IdCache(cache.ids + [generate(cache.generated)], cache.generated + 1), calls, generate);
      }
    }
  }

  /** How many calls from one index on, and before a later one, bring no id of their own. */
  function WithoutId(calls: seq<ToolCall>, from: nat, end: nat): nat
    requires from <= end <= |calls|
    decreases end - from
  {
    if from == end then 0 else (if calls[from].id == "" then 1 else 0) + WithoutId(calls, from + 1, end)
  }

  lemma {:induction false} WithoutIdSplits(calls: seq<ToolCall>, from: nat, mid: nat, end: nat)
    requires from <= mid <= end <= |calls|
    ensures WithoutId(calls, from, end) == WithoutId(calls, from, mid) + WithoutId(calls, mid, end)
    decreases mid - from
  {
    if from < mid { WithoutIdSplits(calls, from + 1, mid, end); }
  }

  /** A new entry is the call's own id, and a generated one only where the call has none; generated ids are
      taken in order, one for each call without an id. */
  lemma {:induction false} NewIds(cache: IdCache, calls: seq<ToolCall>, generate: Generator, i: nat)
    requires |cache.ids| <= i < |calls|
    ensures var e := Extend(cache, calls, generate);
            && |e.ids| == |calls|
            && e.ids[i] == (if calls[i].id != "" then calls[i].id
                            else generate(cache.generated + WithoutId(calls, |cache.ids|, i)))
            && e.generated == cache.generated + WithoutId(calls, |cache.ids|, |calls|)
    decreases |calls| - |cache.ids|
  {
    var n := |cache.ids|;
    var next := if calls[n].id != "" then IdCache(cache.ids + [calls[n].id], cache.generated)
                else IdCache(cache.ids + [generate(cache.generated)], cache.generated + 1);
    if n + 1 < |calls| {
      NewIds(next, calls, generate, if i == n then n + 1 else i);
      if i == n { ExtendKeepsIds(next, calls, generate); }
    }
  }

  /** No generated id is used twice: later calls without an id get later ones, and all are used up. */
  lemma NoIdTwice(cache: IdCache, calls: seq<ToolCall>, generate: Generator, i: nat, j: nat)
    requires |cache.ids| <= i < j < |calls| && calls[i].id == "" && calls[j].id == ""
    ensures var n, g := |cache.ids|, cache.generated;
            && g <= g + WithoutId(calls, n, i) < g + WithoutId(calls, n, j) < Extend(cache, calls, generate).generated
            && |Extend(cache, calls, generate).ids| == |calls|
            && Extend(cache, calls, generate).ids[i] == generate(g + WithoutId(calls, n, i))
            && Extend(cache, calls, generate).ids[j] == generate(g + WithoutId(calls, n, j))
  {
    hide Extend;
    var n := |cache.ids|;
    NewIds(cache, calls, generate, i);
    NewIds(cache, calls, generate, j);
    WithoutIdSplits(calls, n, i, j);
    WithoutIdSplits(calls, i, i + 1, j);
    WithoutIdSplits(calls, n, j, |calls|);
    WithoutIdSplits(calls, j, j + 1, |calls|);
  }

  /** Nothing is generated when every call has its entry. */
  lemma NothingNew(cache: IdCache, calls: seq<ToolCall>, generate: Generator)
    requires |calls| <= |cache.ids|
    ensures Extend(cache, calls, generate) == cache
  {
  }

  // ---------------------------------------------------------------- the server state

  datatype State = State(msg: Message, cache: IdCache)

  const START := State(EMPTY, IdCache([], 0))

  datatype Outcome = Outcome(state: State, diffs: Result<seq<Diff>, DiffError>)

  /** One update with a freshly parsed message. An empty parse changes nothing. */
  function Update(st: State, parsed: Message, generate: Generator): Outcome {
    if parsed == EMPTY then Outcome(st, Ok([]))
    else
      var cache := Extend(st.cache, parsed.toolCalls, generate);
      ExtendKeepsIds(st.cache, parsed.toolCalls, generate);
      var msg := parsed.(toolCalls := WithIds(parsed.toolCalls, cache.ids));
      Outcome(State(msg, cache), Diffs(st.msg, msg))
  }

  /** The deltas of an update after filtering, and the calls whose names have been sent. A failure leaves
      the latter as they were, and an empty parse sends nothing. */
  function FilteredUpdate(st: State, sent: set<nat>, parsed: Message, isPartial: bool, generate: Generator):
      (Result<seq<Diff>, DiffError>, set<nat>)
  {
    var o := Update(st, parsed, generate);
    if parsed == EMPTY || o.diffs.Err? then (o.diffs, sent)
    else
      DiffsInRange(st.msg, o.state.msg);
      var f := FilterAll(o.state.msg.toolCalls, sent, o.diffs.value, isPartial);
      (Ok(f.out), f.sent)
  }

  class TaskResultState {
    var chatMsg: Message
    var generatedToolCallIds: seq<string>
    var generated: nat
    var sentToolCallNames: set<nat>
    const generate: Generator

    function Abstract(): State
      reads this
    {
      State(chatMsg, IdCache(generatedToolCallIds, generated))
    }

    constructor (generate: Generator)
      ensures Abstract() == START && sentToolCallNames == {} && this.generate == generate
    {
      chatMsg, generatedToolCallIds, generated, sentToolCallNames := EMPTY, [], 0, {};
      this.generate := generate;
    }

    /** Fills in the ids of a message's tool calls from the cache, extending the cache as needed. */
    method SetToolCallIds(calls: seq<ToolCall>) returns (r: seq<ToolCall>)
      modifies this`generatedToolCallIds, this`generated
      ensures Abstract().cache == Extend(old(Abstract().cache), calls, generate)
      ensures old(generatedToolCallIds) <= generatedToolCallIds
      ensures |calls| <= |generatedToolCallIds| && r == WithIds(calls, generatedToolCallIds)
    {
      ghost var target := Extend(Abstract().cache, calls, generate);
      r := calls;
      for i := 0 to |calls|
        invariant |r| == |calls|
        invariant i <= |generatedToolCallIds|
        invariant old(generatedToolCallIds) <= generatedToolCallIds
        invariant Extend(IdCache(generatedToolCallIds, generated), calls, generate) == target
        invariant forall k | 0 <= k < i :: r[k] == calls[k].(id := generatedToolCallIds[k])
        invariant forall k | i <= k < |calls| :: r[k] == calls[k]
      {
        if |generatedToolCallIds| <= i {
          var id := r[i].id;
          if id == "" {
            id := generate(generated);
            generated := generated + 1;
          }
          generatedToolCallIds := generatedToolCallIds + [id];
        }
        r := r[i := r[i].(id := generatedToolCallIds[i])];
      }
    }

    /** Takes a freshly parsed message and gives the deltas to send, filtered on request. */
    method UpdateChatMsg(parsed: Message, isPartial: bool, filterToolCalls: bool) returns (diffs: Result<seq<Diff>, DiffError>)
      modifies this`chatMsg, this`generatedToolCallIds, this`generated, this`sentToolCallNames
      ensures Abstract() == Update(old(Abstract()), parsed, generate).state
      ensures !filterToolCalls ==>
        diffs == Update(old(Abstract()), parsed, generate).diffs && sentToolCallNames == old(sentToolCallNames)
      ensures filterToolCalls ==>
        (diffs, sentToolCallNames) == FilteredUpdate(old(Abstract()), old(sentToolCallNames), parsed, isPartial, generate)
      ensures old(generatedToolCallIds) <= generatedToolCallIds
      ensures parsed == EMPTY ==>
        diffs == Ok([]) && Abstract() == old(Abstract()) && sentToolCallNames == old(sentToolCallNames)
      ensures parsed != EMPTY ==>
        && |parsed.toolCalls| <= |generatedToolCallIds|
        && chatMsg == parsed.(toolCalls := WithIds(parsed.toolCalls, generatedToolCallIds))
        && (!filterToolCalls ==> diffs == Diffs(old(chatMsg), chatMsg))
    {
      hide Diffs, FilterAll, Extend;
      var previous := chatMsg;
      diffs := Ok([]);
      if parsed != EMPTY {
        var calls := SetToolCallIds(parsed.toolCalls);
        chatMsg := parsed.(toolCalls := calls);
        diffs := ComputeDiffs(previous, chatMsg);
        if diffs.Ok? && filterToolCalls {
          DiffsInRange(previous, chatMsg);
          var out, sent := FilterDiffs(calls, sentToolCallNames, diffs.value, isPartial);
          diffs := Ok(out);
          sentToolCallNames := sent;
        }
      }
    }
  }

  // ---------------------------------------------------------------- whole runs

  predicate CallsGrow(a: seq<ToolCall>, b: seq<ToolCall>) {
    |a| <= |b| &&
    (forall i | 0 <= i < |a| - 1 :: a[i].name == b[i].name && a[i].arguments == b[i].arguments) &&
    (a != [] ==> a[|a| - 1].name <= b[|a| - 1].name && a[|a| - 1].arguments <= b[|a| - 1].arguments)
  }

  /** One parse grows into another; the ids the parser reports do not matter. */
  predicate Grows(a: Message, b: Message) {
    a.reasoning <= b.reasoning && a.content <= b.content && CallsGrow(a.toolCalls, b.toolCalls)
  }

  predicate GrowingFrom(last: Message, parses: seq<Message>)
    decreases |parses|
  {
    parses == [] || (Grows(last, parses[0]) && GrowingFrom(parses[0], parses[1..]))
  }

  datatype Session = Session(server: State, client: Message, failed: bool)

  /** The server handles a parse, and the client applies every delta it is sent. */
  function OneStep(s: Session, parsed: Message, generate: Generator): Session {
    var o := Update(s.server, parsed, generate);
    if o.diffs.Err? then Session(o.state, s.client, true)
    else Session(o.state, ApplyAll(s.client, o.diffs.value), false)
  }

  function Run(s: Session, parses: seq<Message>, generate: Generator): Session
    decreases |parses|
  {
    if parses == [] || s.failed then s else Run(OneStep(s, parses[0], generate), parses[1..], generate)
  }

  ghost predicate InStep(s: Session, last: Message) {
    !s.failed && s.client == s.server.msg &&
    |last.toolCalls| <= |s.server.cache.ids| &&
    s.server.msg == last.(toolCalls := WithIds(last.toolCalls, s.server.cache.ids))
  }

  /** Sharing one id cache makes the growth of parses growth of the messages that are sent. */
  lemma IdsKeepGrowthReplayable(a: Message, b: Message, ids: seq<string>, more: seq<string>)
    requires Grows(a, b) && ids <= more && |a.toolCalls| <= |ids| && |b.toolCalls| <= |more|
    ensures Replayable(a.(toolCalls := WithIds(a.toolCalls, ids)), b.(toolCalls := WithIds(b.toolCalls, more)))
  {
    var x, y := WithIds(a.toolCalls, ids), WithIds(b.toolCalls, more);
    var n := |x|;
    if n > 0 {
      forall i | 0 <= i < n - 1
        ensures x[i] == y[i]
      {
        assert a.toolCalls[i].name == b.toolCalls[i].name;
      }
      assert x[..n - 1] == y[..n - 1];
    }
  }

  /** One update keeps server and client in step and the ids that were given. New calls get the ids the
      parse gives them, if it does. */
  lemma OneUpdate(s: Session, last: Message, p: Message, generate: Generator)
    requires InStep(s, last) && Grows(last, p)
    ensures var s' := OneStep(s, p, generate);
            var ids, ids' := s.server.cache.ids, s'.server.cache.ids;
            && InStep(s', p) && ids <= ids' && |p.toolCalls| <= |ids'|
            && (|ids| <= |p.toolCalls| ==> |ids'| == |p.toolCalls|)
            && (forall i | |ids| <= i < |p.toolCalls| && p.toolCalls[i].id != "" :: ids'[i] == p.toolCalls[i].id)
  {
    hide Extend, Diffs, ApplyAll, Replayable;
    var o := Update(s.server, p, generate);
    var ids := s.server.cache.ids;
    if p == EMPTY {
      assert last.toolCalls == [] && last == EMPTY;
      NothingApplied(s.client);
    } else {
      ExtendKeepsIds(s.server.cache, p.toolCalls, generate);
      IdsKeepGrowthReplayable(last, p, ids, o.state.cache.ids);
      ReplayTheorem(s.server.msg, o.state.msg);
      if |ids| == |p.toolCalls| { NothingNew(s.server.cache, p.toolCalls, generate); }
      forall i | |ids| <= i < |p.toolCalls|
        ensures |o.state.cache.ids| == |p.toolCalls|
        ensures p.toolCalls[i].id != "" ==> o.state.cache.ids[i] == p.toolCalls[i].id
      {
        NewIds(s.server.cache, p.toolCalls, generate, i);
      }
      assert |ids| < |p.toolCalls| ==> |o.state.cache.ids| == |p.toolCalls| by {
        if |ids| < |p.toolCalls| { NewIds(s.server.cache, p.toolCalls, generate, |ids|); }
      }
    }
  }

  /** Over a whole run of growing parses the server never fails, the client always holds the
      server's message, and an id once given to a tool-call index never changes. */
  lemma {:induction false} ClientFollows(s: Session, last: Message, parses: seq<Message>, generate: Generator)
    requires InStep(s, last) && GrowingFrom(last, parses)
    ensures var s' := Run(s, parses, generate);
            && InStep(s', if parses == [] then last else parses[|parses| - 1])
            && s.server.cache.ids <= s'.server.cache.ids
    decreases |parses|
  {
    hide InStep, Grows, OneStep;
    if parses != [] {
      OneUpdate(s, last, parses[0], generate);
      assert !s.failed by { Following(s, last); }
      ClientFollows(OneStep(s, parses[0], generate), parses[0], parses[1..], generate);
      assert parses[1..] != [] ==> parses[1..][|parses| - 2] == parses[|parses| - 1];
    }
  }

  lemma Following(s: Session, last: Message)
    requires InStep(s, last)
    ensures !s.failed && |last.toolCalls| <= |s.server.cache.ids| && |s.client.toolCalls| == |last.toolCalls|
    ensures forall i | 0 <= i < |last.toolCalls| :: s.client.toolCalls[i].id == s.server.cache.ids[i]
  {
  }

  lemma {:induction false} CallsStay(last: Message, parses: seq<Message>)
    requires GrowingFrom(last, parses) && parses != []
    ensures |last.toolCalls| <= |parses[0].toolCalls| <= |parses[|parses| - 1].toolCalls|
    decreases |parses|
  {
    if |parses| > 1 { CallsStay(parses[0], parses[1..]); }
  }

  /** From an empty conversation, the client ends up with the last parse and the cached ids. */
  lemma StreamIsFaithful(parses: seq<Message>, generate: Generator)
    requires GrowingFrom(EMPTY, parses)
    ensures var s := Run(Session(START, EMPTY, false), parses, generate);
            var last := if parses == [] then EMPTY else parses[|parses| - 1];
            && !s.failed
            && |last.toolCalls| <= |s.server.cache.ids|
            && s.client == last.(toolCalls := WithIds(last.toolCalls, s.server.cache.ids))
  {
    var s0 := Session(START, EMPTY, false);
    assert WithIds([], []) == [];
    ClientFollows(s0, EMPTY, parses, generate);
  }

  /** The first parse that shows a call decides its id: the client ends with the id the model gave there. */
  lemma {:induction false} FirstIdStays(s: Session, last: Message, parses: seq<Message>, generate: Generator, k: nat, i: nat)
    requires InStep(s, last) && GrowingFrom(last, parses) && |s.server.cache.ids| == |last.toolCalls|
    requires k < |parses| && i < |parses[k].toolCalls| && parses[k].toolCalls[i].id != ""
    requires (if k == 0 then |last.toolCalls| else |parses[k - 1].toolCalls|) <= i
    ensures var s' := Run(s, parses, generate);
            i < |s'.client.toolCalls| && s'.client.toolCalls[i].id == parses[k].toolCalls[i].id
    decreases |parses|
  {
    hide InStep, Grows, OneStep;
    var p, s' := parses[0], OneStep(s, parses[0], generate);
    OneUpdate(s, last, p, generate);
    Following(s, last);
    assert |last.toolCalls| <= |p.toolCalls| by { CallsStay(last, parses); }
    if k > 0 {
      FirstIdStays(s', p, parses[1..], generate, k - 1, i);
    } else {
      ClientFollows(s', p, parses[1..], generate);
      CallsStay(last, parses);
      Following(Run(s', parses[1..], generate), if |parses| == 1 then p else parses[1..][|parses| - 2]);
    }
  }

  // ---------------------------------------------------------------- whole runs with filtering

  datatype Chunk = Chunk(msg: Message, isPartial: bool)

  datatype FilteredSession = FilteredSession(server: State, sent: set<nat>, client: Message, failed: bool)

  function FilteredStep(s: FilteredSession, chunk: Chunk, generate: Generator): FilteredSession {
    var o := Update(s.server, chunk.msg, generate);
    var f := FilteredUpdate(s.server, s.sent, chunk.msg, chunk.isPartial, generate);
    if f.0.Err? then FilteredSession(o.state, f.1, s.client, true)
    else FilteredSession(o.state, f.1, ApplyAll(s.client, f.0.value), false)
  }

  function RunFiltered(s: FilteredSession, chunks: seq<Chunk>, generate: Generator): FilteredSession
    decreases |chunks|
  {
    if chunks == [] || s.failed then s
    else RunFiltered(FilteredStep(s, chunks[0], generate), chunks[1..], generate)
  }

  /** The calls whose names were sent keep them. */
  predicate NamesKept(so: seq<ToolCall>, calls: seq<ToolCall>, sent: set<nat>) {
    forall i | i in sent && i < |so| && i < |calls| :: so[i].name == calls[i].name
  }

  /** One parse grows into another, and names that were sent stay. */
  predicate NamedGrows(a: Message, b: Message, sent: set<nat>) {
    Grows(a, b) && NamesKept(a.toolCalls, b.toolCalls, sent)
  }

  /** Every parse of a run grows from the one before it. */
  predicate NamedFrom(s: FilteredSession, last: Message, chunks: seq<Chunk>, generate: Generator)
    decreases |chunks|
  {
    chunks == [] ||
    (NamedGrows(last, chunks[0].msg, s.sent) &&
     NamedFrom(FilteredStep(s, chunks[0], generate), chunks[0].msg, chunks[1..], generate))
  }

  /** One parse grows into another, and every call keeps its name, as it does when names are parsed whole. */
  predicate GrowsKeepingNames(a: Message, b: Message) {
    Grows(a, b) && forall i | 0 <= i < |a.toolCalls| :: a.toolCalls[i].name == b.toolCalls[i].name
  }

  predicate KeepingFrom(last: Message, parses: seq<Message>)
    decreases |parses|
  {
    parses == [] || (GrowsKeepingNames(last, parses[0]) && KeepingFrom(parses[0], parses[1..]))
  }

  /** A stream of parses, the last of which is complete. */
  function Chunks(parses: seq<Message>): (r: seq<Chunk>)
    ensures |r| == |parses|
    decreases |parses|
  {
    if parses == [] then [] else [Chunk(parses[0], |parses| > 1)] + Chunks(parses[1..])
  }

  lemma {:induction false} KeepingIsGrowing(last: Message, parses: seq<Message>)
    requires KeepingFrom(last, parses)
    ensures GrowingFrom(last, parses)
    decreases |parses|
  {
    if parses != [] { KeepingIsGrowing(parses[0], parses[1..]); }
  }

  lemma {:induction false} KeepingNames(s: FilteredSession, last: Message, parses: seq<Message>, generate: Generator)
    requires KeepingFrom(last, parses)
    ensures NamedFrom(s, last, Chunks(parses), generate)
    decreases |parses|
  {
    hide FilteredStep;
    if parses != [] {
      var c := Chunks(parses)[0];
      assert Chunks(parses)[1..] == Chunks(parses[1..]);
      KeepingNames(FilteredStep(s, c, generate), parses[0], parses[1..], generate);
    }
  }

  lemma {:induction false} LastChunk(parses: seq<Message>)
    requires parses != []
    ensures Chunks(parses)[|parses| - 1] == Chunk(parses[|parses| - 1], false)
    decreases |parses|
  {
    if |parses| > 1 { LastChunk(parses[1..]); }
  }

  /** The server holds the last parse under the cached ids, and the client follows it, names held back. */
  ghost predicate InFilteredStep(s: FilteredSession, last: Message) {
    !s.failed && |last.toolCalls| <= |s.server.cache.ids| &&
    s.server.msg == last.(toolCalls := WithIds(last.toolCalls, s.server.cache.ids)) &&
    Follows(s.client, s.server.msg, s.sent)
  }

  lemma OneFilteredUpdate(s: FilteredSession, last: Message, chunk: Chunk, generate: Generator)
    requires InFilteredStep(s, last) && NamedGrows(last, chunk.msg, s.sent)
    ensures var s' := FilteredStep(s, chunk, generate);
            && InFilteredStep(s', chunk.msg) && s.sent <= s'.sent
            && (!chunk.isPartial && AllNamed(chunk.msg.toolCalls) ==> s'.client == s'.server.msg)
  {
    hide Diffs, FilterAll, Follows, Extend, Replayable, ApplyAll, SentKept;
    var p := chunk.msg;
    var o := Update(s.server, p, generate);
    if p == EMPTY {
      assert last.toolCalls == [] && last == EMPTY;
      NothingApplied(s.client);
      assert s.server.msg == EMPTY;
      EmptyFollows(s.client, s.sent);
    } else {
      ExtendKeepsIds(s.server.cache, p.toolCalls, generate);
      IdsKeepGrowthReplayable(last, p, s.server.cache.ids, o.state.cache.ids);
      NamedKeepsSent(last, p, s.server.cache.ids, o.state.cache.ids, s.sent);
      UpdateFollows(s.client, s.server.msg, o.state.msg, s.sent, chunk.isPartial);
      assert AllNamed(p.toolCalls) ==> forall i | 0 <= i < |p.toolCalls| :: o.state.msg.toolCalls[i].name != "";
    }
  }

  lemma NothingApplied(m: Message)
    ensures ApplyAll(m, []) == m
  {
  }

  lemma EmptyFollows(client: Message, sent: set<nat>)
    requires Follows(client, EMPTY, sent)
    ensures client == EMPTY
  {
  }

  lemma NamedKeepsSent(a: Message, b: Message, ids: seq<string>, more: seq<string>, sent: set<nat>)
    requires NamedGrows(a, b, sent) && ids <= more && |a.toolCalls| <= |ids| && |b.toolCalls| <= |more|
    ensures SentKept(WithIds(a.toolCalls, ids), WithIds(b.toolCalls, more), sent)
  {
  }

  /** Over a whole filtered run the server never fails, the client lacks at most names that are held back,
      and after a complete parse whose calls are named it holds the server's message. */
  lemma {:induction false} FilteredClientFollows(s: FilteredSession, last: Message, chunks: seq<Chunk>, generate: Generator)
    requires InFilteredStep(s, last) && NamedFrom(s, last, chunks, generate)
    ensures var s' := RunFiltered(s, chunks, generate);
            var n := |chunks|;
            && InFilteredStep(s', if n == 0 then last else chunks[n - 1].msg)
            && s.sent <= s'.sent
            && (n > 0 && !chunks[n - 1].isPartial && AllNamed(chunks[n - 1].msg.toolCalls) ==>
                  s'.client == s'.server.msg)
    decreases |chunks|
  {
    hide InFilteredStep, NamedGrows, FilteredStep, AllNamed;
    if chunks != [] {
      OneFilteredUpdate(s, last, chunks[0], generate);
      assert !s.failed by { NotFailed(s, last); }
      FilteredClientFollows(FilteredStep(s, chunks[0], generate), chunks[0].msg, chunks[1..], generate);
      assert chunks[1..] != [] ==> chunks[1..][|chunks| - 2] == chunks[|chunks| - 1];
    }
  }

  lemma NotFailed(s: FilteredSession, last: Message)
    requires InFilteredStep(s, last)
    ensures !s.failed
  {
  }

  /** From an empty conversation, once the text is complete, the client of a filtered stream holds the last
      parse under the cached ids. */
  lemma FilteredStreamIsFaithful(chunks: seq<Chunk>, generate: Generator)
    requires chunks != [] && !chunks[|chunks| - 1].isPartial && AllNamed(chunks[|chunks| - 1].msg.toolCalls)
    requires NamedFrom(FilteredSession(START, {}, EMPTY, false), EMPTY, chunks, generate)
    ensures var s := RunFiltered(FilteredSession(START, {}, EMPTY, false), chunks, generate);
            var last := chunks[|chunks| - 1].msg;
            && !s.failed
            && |last.toolCalls| <= |s.server.cache.ids|
            && s.client == last.(toolCalls := WithIds(last.toolCalls, s.server.cache.ids))
  {
    var s0 := FilteredSession(START, {}, EMPTY, false);
    assert WithIds([], []) == [];
    assert InFilteredStep(s0, EMPTY);
    FilteredClientFollows(s0, EMPTY, chunks, generate);
  }

  /** Where no call ever changes its name and the last parse names its calls, filtering needs no more: once
      the text is complete, the client holds the last parse under the cached ids. */
  lemma FilteredWithFixedNames(parses: seq<Message>, generate: Generator)
    requires KeepingFrom(EMPTY, parses) && parses != [] && AllNamed(parses[|parses| - 1].toolCalls)
    ensures var s := RunFiltered(FilteredSession(START, {}, EMPTY, false), Chunks(parses), generate);
            var last := parses[|parses| - 1];
            && !s.failed
            && |last.toolCalls| <= |s.server.cache.ids|
            && s.client == last.(toolCalls := WithIds(last.toolCalls, s.server.cache.ids))
  {
    hide KeepingFrom, RunFiltered, NamedFrom;
    KeepingNames(FilteredSession(START, {}, EMPTY, false), EMPTY, parses, generate);
    LastChunk(parses);
    FilteredStreamIsFaithful(Chunks(parses), generate);
  }
}
