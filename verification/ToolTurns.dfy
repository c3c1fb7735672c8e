/** Merging a model's tool calls, the tool messages that answer them, and the closing assistant
    message into one message. Messages are JSON values; type errors of the JSON library are results. */
module ToolTurns {
  import opened Json
  import opened Wrappers

  datatype Mismatch = TypeError

  // ---------------------------------------------------------------- JSON access

  function Lookup(ms: seq<Member>, key: string): Option<Value> {
    if ms == [] then None else if ms[0].key == key then Some(ms[0].value) else Lookup(ms[1..], key)
  }

  function Field(v: Value, key: string): Option<Value> {
    if v.Obj? then Lookup(v.members, key) else None
  }

  /** The value of a string field, empty when it is missing; anything else is a type error. */
  function StringField(v: Value, key: string): Result<string, Mismatch> {
    if !v.Obj? then Err(TypeError)
    else
      match Lookup(v.members, key)
      case None => Ok("")
      case Some(f) => if f.Str? then Ok(f.s) else Err(TypeError)
  }

  predicate HasRole(v: Value, role: string) {
    StringField(v, "role") == Ok(role)
  }

  function ArrayField(v: Value, key: string): seq<Value> {
    var f := Field(v, key);
    if f.Some? && f.value.Arr? then f.value.items else []
  }

  predicate HasToolCalls(v: Value) {
    ArrayField(v, "tool_calls") != []
  }

  predicate HasContent(v: Value) {
    var f := Field(v, "content");
    f.Some? && ((f.value.Str? && f.value.s != "") || (f.value.Arr? && f.value.items != []))
  }

  predicate IsCallMessage(v: Value) {
    HasRole(v, "assistant") && HasToolCalls(v)
  }

  predicate IsFinalMessage(v: Value) {
    HasRole(v, "assistant") && !HasToolCalls(v) && HasContent(v)
  }

  // ---------------------------------------------------------------- one tool response

  /** A tool's answer: string content that is JSON counts as that JSON. */
  function ResponseOf(tool: Value): Value {
    var f := Field(tool, "content");
    if f.None? then Null
    else if f.value.Str? then
      var parsed := Parse(f.value.s);
      if parsed.Done? then parsed.value else f.value
    else f.value
  }

  /** The name of the function a tool call asks for, empty when it names none. */
  function CallName(call: Value): Result<string, Mismatch> {
    var f := Field(call, "function");
    if f.None? then Ok("") else StringField(f.value, "name")
  }

  /** The k-th response is named after the k-th call, or after its own call id. */
  function ResponseName(calls: seq<Value>, k: nat, tool: Value): Result<string, Mismatch> {
    var name := if k < |calls| then CallName(calls[k]) else Ok("");
    if name.Err? then name else if name.value != "" then name else StringField(tool, "tool_call_id")
  }

  function Response(calls: seq<Value>, k: nat, tool: Value): Result<Value, Mismatch> {
    var name := ResponseName(calls, k, tool);
    if name.Err? then Err(TypeError)
    else Ok(Obj([Member("name", Str(name.value)), Member("response", ResponseOf(tool))]))
  }

  function Responses(calls: seq<Value>, k: nat, tools: seq<Value>): Result<seq<Value>, Mismatch>
    decreases |tools|
  {
    if tools == [] then Ok([])
    else
      var first := Response(calls, k, tools[0]);
      if first.Err? then Err(TypeError)
      else
        var rest := Responses(calls, k + 1, tools[1..]);
        if rest.Err? then Err(TypeError) else Ok([first.value] + rest.value)
  }

  // ---------------------------------------------------------------- turns

  /** The messages of a conversation, grouped: a plain message, or a call message with the tool
      messages right after it and the closing assistant message, if there is one. */
  datatype Block = Plain(msg: Value) | Turn(call: Value, tools: seq<Value>, final: Option<Value>)

  function ToolRun(ms: seq<Value>): (n: nat)
    ensures n <= |ms|
  {
    if ms == [] || !HasRole(ms[0], "tool") then 0 else 1 + ToolRun(ms[1..])
  }

  function FinalAt(rest: seq<Value>): Option<Value> {
    if rest != [] && IsFinalMessage(rest[0]) then Some(rest[0]) else None
  }

  function TurnAt(ms: seq<Value>): Block
    requires ms != []
  {
    var n := ToolRun(ms[1..]);
    Turn(ms[0], ms[1..][..n], FinalAt(ms[1..][n..]))
  }

  function Messages(b: Block): seq<Value> {
    match b
    case Plain(m) => [m]
    case Turn(call, tools, final) => [call] + tools + (if final.Some? then [final.value] else [])
  }

  function FirstBlock(ms: seq<Value>): (b: Block)
    requires ms != []
    ensures 0 < |Messages(b)| <= |ms|
  {
    if IsCallMessage(ms[0]) then TurnAt(ms) else Plain(ms[0])
  }

  function Blocks(ms: seq<Value>): seq<Block>
    decreases |ms|
  {
    if ms == [] then [] else [FirstBlock(ms)] + Blocks(ms[|Messages(FirstBlock(ms))|..])
  }

  function OptionalMember(key: string, v: Value): seq<Member> {
    if v == Null then [] else [Member(key, v)]
  }

  function Reasoning(call: Value): Value {
    var f := Field(call, "reasoning_content");
    if f.Some? && f.value.Str? then f.value else Null
  }

  /** The content of the merged message is that of the closing message only. */
  function FinalContent(final: Option<Value>): Value {
    if final.Some? && Field(final.value, "content").Some? then Field(final.value, "content").value else Null
  }

  function Merged(calls: seq<Value>, responses: seq<Value>, content: Value, reasoning: Value): Value {
    Obj([Member("role", Str("assistant")), Member("tool_calls", Arr(calls))] +
        (if responses == [] then [] else [Member("tool_responses", Arr(responses))]) +
        OptionalMember("content", content) + OptionalMember("reasoning_content", reasoning))
  }

  function Render(b: Block): Result<Value, Mismatch> {
    match b
    case Plain(m) => Ok(m)
    case Turn(call, tools, final) =>
      var calls := ArrayField(call, "tool_calls");
      var rs := Responses(calls, 0, tools);
      if rs.Err? then Err(TypeError) else Ok(Merged(calls, rs.value, FinalContent(final), Reasoning(call)))
  }

  function RenderAll(bs: seq<Block>): Result<seq<Value>, Mismatch> {
    if bs == [] then Ok([])
    else
      var first := Render(bs[0]);
      if first.Err? then Err(TypeError)
      else
        var rest := RenderAll(bs[1..]);
        if rest.Err? then Err(TypeError) else Ok([first.value] + rest.value)
  }

  /** Every message is an object whose role, if it has one, is a string. */
  predicate RolesAreStrings(ms: seq<Value>) {
    forall i | 0 <= i < |ms| :: StringField(ms[i], "role").Ok?
  }

  /** What a turn is made of: its call message, the tool run, and at most one message after that. */
  lemma TurnParts(ms: seq<Value>)
    requires ms != []
    ensures var n := ToolRun(ms[1..]);
            var final := FinalAt(ms[1..][n..]);
            var calls := ArrayField(ms[0], "tool_calls");
            var rs := Responses(calls, 0, ms[1..][..n]);
            && |Messages(TurnAt(ms))| == 1 + n + (if final.Some? then 1 else 0)
            && Render(TurnAt(ms)) == if rs.Err? then Err(TypeError)
                                     else Ok(Merged(calls, rs.value, FinalContent(final), Reasoning(ms[0])))
  {
    hide FinalAt, FinalContent, Responses, Merged, ToolRun, ArrayField, Reasoning;
  }

  // ---------------------------------------------------------------- the builder

  /** The role of the next message, if there is one, can be read as a string. */
  predicate NextRoleOk(ms: seq<Value>) {
    ms == [] || StringField(ms[0], "role").Ok?
  }

  /** All roles that are read while the first block is taken are strings. */
  predicate ReadsOk(ms: seq<Value>)
    requires ms != []
  {
    NextRoleOk(ms) && (IsCallMessage(ms[0]) ==> NextRoleOk(ms[1..][ToolRun(ms[1..])..]))
  }

  class ModelTurnBuilder {
    const messages: seq<Value>
    var pos: nat
    var toolCalls: seq<Value>
    var toolResponses: seq<Value>
    var content: Value
    var reasoningContent: Value

    constructor (messages: seq<Value>, pos: nat)
      ensures this.messages == messages && this.pos == pos
      ensures toolCalls == [] && toolResponses == [] && content == Null && reasoningContent == Null
    {
      this.messages, this.pos := messages, pos;
      toolCalls, toolResponses, content, reasoningContent := [], [], Null, Null;
    }

    /** Adds the response of one tool message; false is a type error. */
    method CollectResult(curr: Value) returns (ok: bool)
      modifies this`toolResponses
      ensures ok == Response(toolCalls, |old(toolResponses)|, curr).Ok?
      ensures ok ==> toolResponses == old(toolResponses) + [Response(toolCalls, |old(toolResponses)|, curr).value]
    {
      var response := Null;
      var f := Field(curr, "content");
      if f.Some? {
        if f.value.Str? {
          var parsed := Parse(f.value.s);
          if parsed.Done? {
            response := parsed.value;
          } else {
            response := f.value;
          }
        } else {
          response := f.value;
        }
      }
      var name := "";
      var idx := |toolResponses|;
      if idx < |toolCalls| {
        var tc := toolCalls[idx];
        var function_ := Field(tc, "function");
        if function_.Some? {
          var n := StringField(function_.value, "name");
          if n.Err? { return false; }
          name := n.value;
        }
      }
      if name == "" {
        var n := StringField(curr, "tool_call_id");
        if n.Err? { return false; }
        name := n.value;
      }
      toolResponses := toolResponses + [Obj([Member("name", Str(name)), Member("response", response)])];
      ok := true;
    }

    /** Takes the run of tool messages at the position, reading the role of the message after it too. */
    method CollectResults() returns (ok: bool)
      requires pos <= |messages| && toolResponses == []
      modifies this`pos, this`toolResponses
      ensures var after := messages[old(pos)..];
        var n := ToolRun(after);
        && ok == (Responses(toolCalls, 0, after[..n]).Ok? && NextRoleOk(after[n..]))
        && (ok ==> pos == old(pos) + n && Responses(toolCalls, 0, after[..n]) == Ok(toolResponses))
    {
      hide Response, StringField, Appended, Responses, ToolRun;
      ghost var start, after := pos, messages[pos..];
      ghost var n := ToolRun(after);
      ghost var tools := after[..n];
      ghost var all := Responses(toolCalls, 0, tools);
      assert tools[0..] == tools;
      AppendedNone(all);
      while pos < |messages|
        invariant start <= pos <= |messages|
        invariant pos - start + ToolRun(messages[pos..]) == n
        invariant |toolResponses| == pos - start <= n
        invariant Appended(toolResponses, Responses(toolCalls, |toolResponses|, tools[|toolResponses|..])) == all
      {
        ghost var k := |toolResponses|;
        RunFrom(messages, pos);
        var role := StringField(messages[pos], "role");
        if role.Err? {
          NoRole(messages, pos);
          assert after[k..] == messages[pos..];
          return false;
        }
        if role.value != "tool" {
          break;
        }
        ghost var done := toolResponses;
        assert tools[k] == messages[pos];
        ResponsesFrom(toolCalls, tools, k);
        ok := CollectResult(messages[pos]);
        if !ok {
          AppendedError(done);
          return;
        }
        AppendedStep(done, Response(toolCalls, k, tools[k]).value, Responses(toolCalls, k + 1, tools[k + 1..]));
        pos := pos + 1;
      }
      RunFrom(messages, pos);
      assert after[n..] == messages[pos..];
      assert tools[n..] == [];
      ResponsesFrom(toolCalls, tools, n);
      AppendedEnd(toolResponses);
      ok := true;
    }

    /** Takes the assistant message at the position when it closes the turn. */
    method CollectFinal() returns (ok: bool)
      requires pos <= |messages| && content == Null
      modifies this`pos, this`content
      ensures ok == NextRoleOk(messages[old(pos)..])
      ensures var final := FinalAt(messages[old(pos)..]);
        ok ==> content == FinalContent(final) && pos == old(pos) + (if final.Some? then 1 else 0) <= |messages|
    {
      hide Lookup, StringField, ArrayField;
      if pos < |messages| {
        var role := StringField(messages[pos], "role");
        if role.Err? {
          return false;
        }
        if role.value == "assistant" {
          var next := messages[pos];
          if !HasToolCalls(next) && HasContent(next) {
            content := Field(next, "content").value;
            pos := pos + 1;
          }
        }
      }
      ok := true;
    }

    /** Reads one whole turn, leaving the position behind it. */
    method Collect() returns (ok: bool)
      requires pos < |messages| && IsCallMessage(messages[pos])
      requires toolCalls == [] && toolResponses == [] && content == Null && reasoningContent == Null
      modifies this
      ensures var ms := messages[old(pos)..];
        && ok == (Render(TurnAt(ms)).Ok? && NextRoleOk(ms[1..][ToolRun(ms[1..])..]))
        && (ok ==> pos == old(pos) + |Messages(TurnAt(ms))| <= |messages|)
        && (ok ==> Render(TurnAt(ms)) == Ok(Merged(toolCalls, toolResponses, content, reasoningContent)))
    {
      hide Responses, Merged, HasRole, ToolRun, Lookup, HasToolCalls, ArrayField, FinalAt, FinalContent, Render, Messages,
        NextRoleOk;
      ghost var ms := messages[pos..];
      var msg := messages[pos];
      var r := Field(msg, "reasoning_content");
      if r.Some? && r.value.Str? {
        reasoningContent := r.value;
      }
      toolCalls := ArrayField(msg, "tool_calls");
      pos := pos + 1;
      assert ms[0] == msg && ms[1..] == messages[pos..];
      ghost var n := ToolRun(messages[pos..]);
      TurnParts(ms);
      ok := CollectResults();
      if !ok {
        return;
      }
      assert ms[1..][n..] == messages[pos..];
      ok := CollectFinal();
    }

    function Build(): Value
      reads this
    {
      Merged(toolCalls, toolResponses, content, reasoningContent)
    }
  }

  lemma RunFrom(ms: seq<Value>, i: nat)
    requires i <= |ms|
    ensures ToolRun(ms[i..]) == if i == |ms| || !HasRole(ms[i], "tool") then 0 else 1 + ToolRun(ms[i + 1..])
  {
    hide HasRole;
    if i < |ms| { assert ms[i..][0] == ms[i] && ms[i..][1..] == ms[i + 1..]; }
  }

  lemma NoRole(ms: seq<Value>, i: nat)
    requires i < |ms| && StringField(ms[i], "role").Err?
    ensures !NextRoleOk(ms[i..])
  {
  }

  lemma ResponsesFrom(calls: seq<Value>, tools: seq<Value>, k: nat)
    requires k <= |tools|
    ensures Responses(calls, k, tools[k..]) ==
            if k == |tools| then Ok([])
            else if Response(calls, k, tools[k]).Err? then Err(TypeError)
            else
              var rest := Responses(calls, k + 1, tools[k + 1..]);
              if rest.Err? then Err(TypeError) else Ok([Response(calls, k, tools[k]).value] + rest.value)
  {
    hide Response;
    if k < |tools| { assert tools[k..][0] == tools[k] && tools[k..][1..] == tools[k + 1..]; }
  }

  function Appended(done: seq<Value>, rest: Result<seq<Value>, Mismatch>): Result<seq<Value>, Mismatch> {
    if rest.Ok? then Ok(done + rest.value) else Err(TypeError)
  }

  lemma AppendedStep(done: seq<Value>, v: Value, rest: Result<seq<Value>, Mismatch>)
    ensures Appended(done, if rest.Err? then Err(TypeError) else Ok([v] + rest.value)) == Appended(done + [v], rest)
  {
    if rest.Ok? { assert done + ([v] + rest.value) == done + [v] + rest.value; }
  }

  lemma AppendedError(done: seq<Value>)
    ensures Appended(done, Err(TypeError)) == Err(TypeError)
  {
  }

  lemma AppendedEnd(done: seq<Value>)
    ensures Appended(done, Ok([])) == Ok(done)
  {
    assert done + [] == done;
  }

  lemma AppendedNone(r: Result<seq<Value>, Mismatch>)
    ensures Appended([], r) == r
  {
    if r.Ok? { assert [] + r.value == r.value; } else { assert r.error == TypeError; }
  }

  /** Rewrites a conversation; the position only ever moves forward, so this ends. Every message's role
      is read at some point, so a role that is no string is a type error wherever it stands. */
  method ConvertToolResponses(messages: seq<Value>) returns (r: Result<seq<Value>, Mismatch>)
    ensures r == if RolesAreStrings(messages) then RenderAll(Blocks(messages)) else Err(TypeError)
  {
    hide Render, RenderAll, Blocks, Messages, FirstBlock, ReadsOk, RolesAreStrings;
    var result: seq<Value> := [];
    var i := 0;
    assert messages[0..] == messages;
    ghost var goal := RenderAll(Blocks(messages));
    AppendedNone(goal);
    NoRoles();
    hide Appended;
    while i < |messages|
      invariant i <= |messages|
      invariant RolesAreStrings(messages[..i])
      invariant Appended(result, RenderAll(Blocks(messages[i..]))) == goal
      decreases |messages| - i
    {
      BlocksStep(messages, i);
      BlockRoles(messages, i);
      var ok, converted, next := ConvertOne(messages, i);
      if !ok {
        AppendedError(result);
        return Err(TypeError);
      }
      AppendedStep(result, converted, RenderAll(Blocks(messages[next..])));
      result := result + [converted];
      i := next;
    }
    assert messages[..i] == messages;
    NoBlocks(messages);
    AppendedEnd(result);
    r := Ok(result);
  }

  /** One round of the loop: a message that makes no tool calls is kept, any other begins a turn. */
  method ConvertOne(messages: seq<Value>, i: nat) returns (ok: bool, converted: Value, next: nat)
    requires i < |messages|
    ensures var block := FirstBlock(messages[i..]);
      && ok == (ReadsOk(messages[i..]) && Render(block).Ok?)
      && (ok ==> Render(block) == Ok(converted) && next == i + |Messages(block)| <= |messages|)
  {
    hide Render, Messages, TurnAt, Merged, StringField, ToolRun;
    var msg := messages[i];
    var role := StringField(msg, "role");
    if role.Err? {
      return false, Null, i;
    }
    if role.value != "assistant" || !HasToolCalls(msg) {
      PlainBlock(msg);
      return true, msg, i + 1;
    }
    var builder := new ModelTurnBuilder(messages, i);
    ok := builder.Collect();
    converted, next := builder.Build(), builder.pos;
  }

  lemma NoRoles()
    ensures forall ms: seq<Value> :: RolesAreStrings(ms[..0])
  {
  }

  /** The roles that are read for a block are those of its messages and at most one more. */
  lemma BlockRoles(messages: seq<Value>, i: nat)
    requires i < |messages| && RolesAreStrings(messages[..i])
    ensures var next := i + |Messages(FirstBlock(messages[i..]))|;
            && next <= |messages|
            && (if ReadsOk(messages[i..]) then RolesAreStrings(messages[..next]) else !RolesAreStrings(messages))
  {
    hide HasRole, ToolRun, Messages, TurnAt, IsCallMessage;
    var ms := messages[i..];
    var b := FirstBlock(ms);
    var k := |Messages(b)|;
    assert ms[0] == messages[i];
    if ReadsOk(ms) {
      FirstBlockTiles(ms);
      GroupRoles(b);
      assert ms == Messages(b) + ms[k..];
      assert forall j | 0 <= j < k :: ms[j] == Messages(b)[j];
      var front := messages[..i + k];
      forall j: nat | j < |front|
        ensures StringField(front[j], "role").Ok?
      {
        if j < i { assert front[j] == messages[..i][j]; }
        else { assert front[j] == ms[j - i] == Messages(b)[j - i]; }
      }
    } else if NextRoleOk(ms) {
      var n := ToolRun(ms[1..]);
      assert ms[1..][n..][0] == messages[i + 1 + n];
    }
  }

  lemma GroupRoles(b: Block)
    requires WellGrouped(b) && NextRoleOk(Messages(b))
    ensures RolesAreStrings(Messages(b))
  {
    hide HasToolCalls, HasContent, StringField;
  }

  lemma PlainBlock(msg: Value)
    ensures Render(Plain(msg)) == Ok(msg) && Messages(Plain(msg)) == [msg]
  {
  }

  lemma NoBlocks(messages: seq<Value>)
    ensures RenderAll(Blocks(messages[|messages|..])) == Ok([])
  {
  }

  lemma BlocksStep(messages: seq<Value>, i: nat)
    requires i < |messages|
    ensures var block := FirstBlock(messages[i..]);
            var next := i + |Messages(block)|;
            && next <= |messages|
            && RenderAll(Blocks(messages[i..])) ==
               if Render(block).Err? then Err(TypeError)
               else
                 var rest := RenderAll(Blocks(messages[next..]));
                 if rest.Err? then Err(TypeError) else Ok([Render(block).value] + rest.value)
  {
    hide Render, FirstBlock, Messages;
    var ms := messages[i..];
    var k := |Messages(FirstBlock(ms))|;
    assert ms[k..] == messages[i + k..];
    assert Blocks(ms)[1..] == Blocks(ms[k..]) && Blocks(ms)[0] == FirstBlock(ms);
  }

  // ---------------------------------------------------------------- what is conserved

  function AllMessages(bs: seq<Block>): seq<Value> {
    if bs == [] then [] else Messages(bs[0]) + AllMessages(bs[1..])
  }

  /** A turn takes every tool message that follows its call, and a closing message only when it is one. */
  predicate WellGrouped(b: Block) {
    match b
    case Plain(m) => !IsCallMessage(m)
    case Turn(call, tools, final) =>
      && IsCallMessage(call)
      && (forall i | 0 <= i < |tools| :: HasRole(tools[i], "tool"))
      && (final.Some? ==> IsFinalMessage(final.value))
  }

  /** After a turn without a closing message comes neither a tool message nor a closing message. */
  predicate Maximal(b: Block, next: seq<Value>) {
    b.Turn? && b.final.None? && next != [] ==> !HasRole(next[0], "tool") && !IsFinalMessage(next[0])
  }

  predicate AllMaximal(bs: seq<Block>) {
    bs == [] || (Maximal(bs[0], AllMessages(bs[1..])) && AllMaximal(bs[1..]))
  }

  lemma {:induction false} ToolRunIsMaximal(ms: seq<Value>)
    ensures var n := ToolRun(ms);
            (forall i | 0 <= i < n :: HasRole(ms[i], "tool")) && (n < |ms| ==> !HasRole(ms[n], "tool"))
  {
    hide HasRole;
    if ms != [] && HasRole(ms[0], "tool") {
      ToolRunIsMaximal(ms[1..]);
      var n := ToolRun(ms[1..]);
      forall i | 0 <= i < n + 1
        ensures HasRole(ms[i], "tool")
      {
        if i > 0 { assert ms[i] == ms[1..][i - 1]; }
      }
    }
  }

  lemma Halves(ms: seq<Value>, n: nat)
    requires n <= |ms|
    ensures ms == ms[..n] + ms[n..]
    ensures ms[n..] != [] ==> ms[n..] == [ms[n..][0]] + ms[n..][1..]
  {
  }

  /** A turn is a beginning of the conversation, and this is what is left after it. */
  lemma TurnCovers(ms: seq<Value>)
    requires ms != []
    ensures var b := TurnAt(ms);
            var rest := ms[1..][ToolRun(ms[1..])..];
            && |Messages(b)| <= |ms| && Messages(b) + ms[|Messages(b)|..] == ms
            && ms[|Messages(b)|..] == if b.final.Some? then rest[1..] else rest
  {
    hide HasRole, IsFinalMessage, ToolRun;
    var after := ms[1..];
    var n := ToolRun(after);
    Halves(after, n);
    assert ms == [ms[0]] + after;
    var rest := after[n..];
    if TurnAt(ms).final.Some? {
      assert ms == [ms[0]] + after[..n] + [rest[0]] + rest[1..];
    } else {
      assert ms == [ms[0]] + after[..n] + [] + rest;
    }
  }

  lemma TurnTiles(ms: seq<Value>)
    requires ms != [] && IsCallMessage(ms[0])
    ensures var b := TurnAt(ms);
            && |Messages(b)| <= |ms| && Messages(b) + ms[|Messages(b)|..] == ms && WellGrouped(b)
            && Maximal(b, ms[|Messages(b)|..])
  {
    TurnCovers(ms);
    ToolRunIsMaximal(ms[1..]);
    hide HasRole, IsCallMessage, IsFinalMessage, ToolRun, Messages;
  }

  lemma FirstBlockTiles(ms: seq<Value>)
    requires ms != []
    ensures var b := FirstBlock(ms);
            && Messages(b) + ms[|Messages(b)|..] == ms && WellGrouped(b) && Maximal(b, ms[|Messages(b)|..])
  {
    hide TurnAt, IsCallMessage;
    if IsCallMessage(ms[0]) {
      hide Messages, WellGrouped, Maximal;
      TurnTiles(ms);
    } else {
      assert ms == [ms[0]] + ms[1..];
    }
  }

  /** The blocks are the whole conversation in order: no message is lost, repeated or moved, each turn
      takes exactly the run of tool messages after its call, and only closing messages close. */
  lemma {:induction false} BlocksTile(ms: seq<Value>)
    ensures AllMessages(Blocks(ms)) == ms && AllMaximal(Blocks(ms))
    ensures forall i | 0 <= i < |Blocks(ms)| :: WellGrouped(Blocks(ms)[i])
    decreases |ms|
  {
    hide FirstBlock, Messages, WellGrouped, Maximal;
    if ms != [] {
      var b := FirstBlock(ms);
      var rest := ms[|Messages(b)|..];
      FirstBlockTiles(ms);
      BlocksTile(rest);
      assert Blocks(ms)[1..] == Blocks(rest) && Blocks(ms)[0] == b;
      forall i | 0 <= i < |Blocks(ms)|
        ensures WellGrouped(Blocks(ms)[i])
      {
        if i > 0 { assert Blocks(ms)[i] == Blocks(rest)[i - 1]; }
      }
    }
  }

  /** The tool calls of all assistant messages, in order. */
  function AllCalls(ms: seq<Value>): seq<Value> {
    if ms == [] then []
    else (if HasRole(ms[0], "assistant") then ArrayField(ms[0], "tool_calls") else []) + AllCalls(ms[1..])
  }

  lemma {:induction false} AllCallsConcat(a: seq<Value>, b: seq<Value>)
    ensures AllCalls(a + b) == AllCalls(a) + AllCalls(b)
  {
    hide HasRole, ArrayField;
    if a == [] {
      assert a + b == b;
    } else {
      assert (a + b)[1..] == a[1..] + b && (a + b)[0] == a[0];
      AllCallsConcat(a[1..], b);
      var c := if HasRole(a[0], "assistant") then ArrayField(a[0], "tool_calls") else [];
      assert c + (AllCalls(a[1..]) + AllCalls(b)) == c + AllCalls(a[1..]) + AllCalls(b);
    }
  }

  lemma {:induction false} ToolsCallNothing(tools: seq<Value>)
    requires forall i | 0 <= i < |tools| :: HasRole(tools[i], "tool")
    ensures AllCalls(tools) == []
  {
    if tools != [] {
      assert HasRole(tools[0], "tool");
      ToolsCallNothing(tools[1..]);
    }
  }

  lemma AllCallsOne(m: Value)
    ensures AllCalls([m]) == if HasRole(m, "assistant") then ArrayField(m, "tool_calls") else []
  {
    assert [m][1..] == [];
  }

  lemma {:induction false} LookupAppend(a: seq<Member>, b: seq<Member>, key: string)
    ensures Lookup(a + b, key) == if Lookup(a, key).Some? then Lookup(a, key) else Lookup(b, key)
  {
    if a == [] {
      assert a + b == b;
    } else {
      assert (a + b)[1..] == a[1..] + b && (a + b)[0] == a[0];
      LookupAppend(a[1..], b, key);
    }
  }

  lemma LookupOne(k: string, v: Value, key: string)
    ensures Lookup([Member(k, v)], key) == if k == key then Some(v) else None
    ensures Lookup([], key) == None
  {
    assert [Member(k, v)][1..] == [];
  }

  /** Every field of a merged message, by its name. */
  lemma MergedLookup(calls: seq<Value>, rs: seq<Value>, content: Value, reasoning: Value, key: string)
    ensures Field(Merged(calls, rs, content, reasoning), key) ==
            if key == "role" then Some(Str("assistant"))
            else if key == "tool_calls" then Some(Arr(calls))
            else if key == "tool_responses" then (if rs == [] then None else Some(Arr(rs)))
            else if key == "content" then (if content == Null then None else Some(content))
            else if key == "reasoning_content" then (if reasoning == Null then None else Some(reasoning))
            else None
  {
    hide Lookup;
    var a, b := [Member("role", Str("assistant"))], [Member("tool_calls", Arr(calls))];
    var r := if rs == [] then [] else [Member("tool_responses", Arr(rs))];
    var c, d := OptionalMember("content", content), OptionalMember("reasoning_content", reasoning);
    assert [Member("role", Str("assistant")), Member("tool_calls", Arr(calls))] == a + b;
    LookupAppend(a + b + r + c, d, key);
    LookupAppend(a + b + r, c, key);
    LookupAppend(a + b, r, key);
    LookupAppend(a, b, key);
    LookupOne("role", Str("assistant"), key);
    LookupOne("tool_calls", Arr(calls), key);
    LookupOne("tool_responses", Arr(rs), key);
    LookupOne("content", content, key);
    LookupOne("reasoning_content", reasoning, key);
  }

  lemma MergedFields(calls: seq<Value>, rs: seq<Value>, content: Value, reasoning: Value)
    ensures var m := Merged(calls, rs, content, reasoning);
            && HasRole(m, "assistant") && ArrayField(m, "tool_calls") == calls && ArrayField(m, "tool_responses") == rs
            && Field(m, "content") == (if content == Null then None else Some(content))
            && Field(m, "reasoning_content") == (if reasoning == Null then None else Some(reasoning))
  {
    hide Lookup;
    MergedLookup(calls, rs, content, reasoning, "role");
    MergedLookup(calls, rs, content, reasoning, "tool_calls");
    MergedLookup(calls, rs, content, reasoning, "tool_responses");
    MergedLookup(calls, rs, content, reasoning, "content");
    MergedLookup(calls, rs, content, reasoning, "reasoning_content");
  }

  lemma RenderKeepsCalls(b: Block)
    requires WellGrouped(b) && Render(b).Ok?
    ensures AllCalls([Render(b).value]) == AllCalls(Messages(b))
  {
    hide Merged, Responses, HasRole, HasContent, ArrayField;
    if b.Turn? {
      var calls := ArrayField(b.call, "tool_calls");
      var tail := if b.final.Some? then [b.final.value] else [];
      AllCallsConcat([b.call] + b.tools, tail);
      AllCallsConcat([b.call], b.tools);
      ToolsCallNothing(b.tools);
      AllCallsOne(b.call);
      if b.final.Some? { AllCallsOne(b.final.value); }
      assert AllCalls(tail) == [];
      assert calls + [] + [] == calls;
      MergedFields(calls, Responses(calls, 0, b.tools).value, FinalContent(b.final), Reasoning(b.call));
      AllCallsOne(Render(b).value);
    }
  }

  lemma {:induction false} RenderAllKeepsCalls(bs: seq<Block>)
    requires RenderAll(bs).Ok? && forall i | 0 <= i < |bs| :: WellGrouped(bs[i])
    ensures AllCalls(RenderAll(bs).value) == AllCalls(AllMessages(bs)) && |RenderAll(bs).value| == |bs|
  {
    hide WellGrouped, Render, Messages, AllCalls;
    if bs == [] {
      assert AllCalls(RenderAll(bs).value) == AllCalls(AllMessages(bs));
    } else {
      assert forall i | 0 <= i < |bs[1..]| :: bs[1..][i] == bs[i + 1];
      RenderKeepsCalls(bs[0]);
      RenderAllKeepsCalls(bs[1..]);
      AllCallsConcat([Render(bs[0]).value], RenderAll(bs[1..]).value);
      AllCallsConcat(Messages(bs[0]), AllMessages(bs[1..]));
    }
  }

  /** The i-th message of the rewritten conversation is the i-th block; a message outside the turns is kept
      as it is. */
  lemma {:induction false} RenderAllAt(bs: seq<Block>, i: nat)
    requires RenderAll(bs).Ok? && i < |bs|
    ensures |RenderAll(bs).value| == |bs| && Render(bs[i]) == Ok(RenderAll(bs).value[i])
    ensures bs[i].Plain? ==> RenderAll(bs).value[i] == bs[i].msg
    decreases |bs|
  {
    if bs[i].Plain? { PlainBlock(bs[i].msg); }
    hide Render;
    if |bs| == 1 {
      assert RenderAll(bs[1..]) == Ok([]);
    } else {
      RenderAllAt(bs[1..], if i == 0 then 0 else i - 1);
    }
  }

  /** A conversation is rewritten exactly when every turn of it can be rendered. */
  lemma {:induction false} RenderAllIff(bs: seq<Block>)
    ensures RenderAll(bs).Ok? <==> forall i | 0 <= i < |bs| :: Render(bs[i]).Ok?
  {
    hide Render;
    if bs != [] {
      RenderAllIff(bs[1..]);
      assert forall i | 0 < i < |bs| :: bs[i] == bs[1..][i - 1];
      assert forall i | 0 <= i < |bs[1..]| :: bs[1..][i] == bs[i + 1];
    }
  }

  /** No tool call is lost, added or reordered by the rewriting. */
  lemma ConversionKeepsCalls(ms: seq<Value>)
    requires RenderAll(Blocks(ms)).Ok?
    ensures AllCalls(RenderAll(Blocks(ms)).value) == AllCalls(ms)
  {
    hide WellGrouped, AllCalls;
    BlocksTile(ms);
    RenderAllKeepsCalls(Blocks(ms));
  }

  lemma {:induction false} ResponsesAt(calls: seq<Value>, k: nat, tools: seq<Value>, i: nat)
    requires Responses(calls, k, tools).Ok? && i < |tools|
    ensures |Responses(calls, k, tools).value| == |tools|
    ensures ResponseName(calls, k + i, tools[i]).Ok?
    ensures Responses(calls, k, tools).value[i] ==
            Obj([Member("name", Str(ResponseName(calls, k + i, tools[i]).value)), Member("response", ResponseOf(tools[i]))])
    decreases |tools|
  {
    hide ResponseName, ResponseOf;
    if i > 0 {
      ResponsesAt(calls, k + 1, tools[1..], i - 1);
    } else if |tools| > 1 {
      ResponsesAt(calls, k + 1, tools[1..], 0);
    }
  }

  lemma ResponseFields(name: string, response: Value)
    ensures var r := Obj([Member("name", Str(name)), Member("response", response)]);
            Field(r, "name") == Some(Str(name)) && Field(r, "response") == Some(response)
  {
    var ms := [Member("name", Str(name)), Member("response", response)];
    assert ms[1..] == [Member("response", response)];
    LookupOne("response", response, "response");
  }

  /** The call asks for a function by name. */
  predicate Asks(call: Value, name: string) {
    var f := Field(call, "function");
    f.Some? && name != "" && Field(f.value, "name") == Some(Str(name))
  }

  /** The call names no function. */
  predicate AsksNothing(call: Value) {
    var f := Field(call, "function");
    f.None? || (f.value.Obj? && Field(f.value, "name") in {None, Some(Str(""))})
  }

  lemma CallNameIff(call: Value)
    ensures AsksNothing(call) <==> CallName(call) == Ok("")
    ensures forall name: string :: Asks(call, name) <==> name != "" && CallName(call) == Ok(name)
    ensures CallName(call).Ok? <==> AsksNothing(call) || exists name: string :: Asks(call, name)
  {
    if CallName(call).Ok? && CallName(call).value != "" { assert Asks(call, CallName(call).value); }
  }

  /** In a merged message the i-th response answers the i-th tool message: with the value its content is the
      JSON text of, with the content itself if it is no such text, and with null if there is none. It is named
      after the i-th call when that call asks for a function, and after the tool message's call id otherwise. */
  lemma ResponsesInOrder(b: Block, i: nat)
    requires b.Turn? && Render(b).Ok? && i < |b.tools|
    ensures var calls, rs := ArrayField(b.call, "tool_calls"), ArrayField(Render(b).value, "tool_responses");
            var content, id := Field(b.tools[i], "content"), Field(b.tools[i], "tool_call_id");
            && |rs| == |b.tools|
            && Field(rs[i], "response") ==
                 Some(if content.None? then Null
                      else if content.value.Str? && Parse(content.value.s).Done? then Parse(content.value.s).value
                      else content.value)
            && (forall name: string :: i < |calls| && Asks(calls[i], name) ==> Field(rs[i], "name") == Some(Str(name)))
            && (i >= |calls| || AsksNothing(calls[i]) ==>
                  if id.None? then Field(rs[i], "name") == Some(Str(""))
                  else id.value.Str? && Field(rs[i], "name") == id)
  {
    var calls := ArrayField(b.call, "tool_calls");
    var rs := Responses(calls, 0, b.tools).value;
    ResponsesAt(calls, 0, b.tools, i);
    MergedFields(calls, rs, FinalContent(b.final), Reasoning(b.call));
    ResponseFields(ResponseName(calls, i, b.tools[i]).value, ResponseOf(b.tools[i]));
    if i < |calls| { CallNameIff(calls[i]); }
    AnswerRead(b.tools[i]);
    IdRead(b.tools[i]);
    hide Merged, CallName, StringField, ResponseOf, HasRole, ArrayField, Field, Asks, AsksNothing, Parse;
  }

  lemma AnswerRead(tool: Value)
    ensures var content := Field(tool, "content");
            ResponseOf(tool) == if content.None? then Null
                                else if content.value.Str? && Parse(content.value.s).Done? then Parse(content.value.s).value
                                else content.value
  {
    hide Parse;
  }

  lemma IdRead(tool: Value)
    ensures var id := Field(tool, "tool_call_id");
            (id.Some? ==> tool.Obj?) &&
            StringField(tool, "tool_call_id") ==
            if tool.Obj? && id.None? then Ok("") else if id.Some? && id.value.Str? then Ok(id.value.s) else Err(TypeError)
  {
  }

  /** A turn can be rendered exactly when every response can be named: its call asks for a function, or for
      none and the tool message has a call id that is a string, or no call id. */
  lemma RenderedIff(b: Block)
    requires b.Turn?
    ensures var calls := ArrayField(b.call, "tool_calls");
            Render(b).Ok? <==> forall i | 0 <= i < |b.tools| :: Nameable(calls, i, b.tools[i])
  {
    hide Merged, Nameable, Responses, ArrayField;
    var calls := ArrayField(b.call, "tool_calls");
    ResponsesIff(calls, 0, b.tools);
    if Render(b).Ok? {
      forall i | 0 <= i < |b.tools| ensures Nameable(calls, i, b.tools[i]) { assert Nameable(calls, 0 + i, b.tools[i]); }
    }
  }

  ghost predicate Nameable(calls: seq<Value>, i: nat, tool: Value) {
    (i < |calls| && exists name: string :: Asks(calls[i], name)) ||
    ((i >= |calls| || AsksNothing(calls[i])) && tool.Obj? &&
     (Field(tool, "tool_call_id").Some? ==> Field(tool, "tool_call_id").value.Str?))
  }

  lemma NameableIff(calls: seq<Value>, i: nat, tool: Value)
    ensures ResponseName(calls, i, tool).Ok? <==> Nameable(calls, i, tool)
  {
    hide CallName, StringField, Field, Asks, AsksNothing;
    IdRead(tool);
    if i < |calls| {
      CallNameIff(calls[i]);
      if CallName(calls[i]).Ok? && CallName(calls[i]).value != "" { assert Asks(calls[i], CallName(calls[i]).value); }
      if name: string :| Asks(calls[i], name) { assert CallName(calls[i]) == Ok(name); }
    }
  }

  lemma {:induction false} ResponsesIff(calls: seq<Value>, k: nat, tools: seq<Value>)
    ensures Responses(calls, k, tools).Ok? <==> forall i | 0 <= i < |tools| :: Nameable(calls, k + i, tools[i])
    decreases |tools|
  {
    hide ResponseName, ResponseOf, Nameable;
    if tools != [] {
      NameableIff(calls, k, tools[0]);
      ResponsesIff(calls, k + 1, tools[1..]);
      assert forall i | 0 <= i < |tools[1..]| :: tools[1..][i] == tools[i + 1] && k + 1 + i == k + (i + 1);
      if forall i | 0 <= i < |tools| :: Nameable(calls, k + i, tools[i]) {
        forall i | 0 <= i < |tools[1..]|
          ensures Nameable(calls, k + 1 + i, tools[1..][i])
        {
          assert Nameable(calls, k + (i + 1), tools[i + 1]);
        }
        assert Nameable(calls, k + 0, tools[0]);
      }
      if Responses(calls, k, tools).Ok? {
        forall i | 0 <= i < |tools|
          ensures Nameable(calls, k + i, tools[i])
        {
          if i > 0 { assert Nameable(calls, k + 1 + (i - 1), tools[1..][i - 1]); }
        }
      }
    }
  }

  /** What the messages of a turn are, read off their fields. */
  lemma TurnMessages(v: Value)
    ensures var role, calls, content := Field(v, "role"), Field(v, "tool_calls"), Field(v, "content");
            var asks := calls.Some? && calls.value.Arr? && calls.value.items != [];
            var says := content.Some? &&
              ((content.value.Str? && content.value.s != "") || (content.value.Arr? && content.value.items != []));
            && (HasRole(v, "tool") <==> role == Some(Str("tool")))
            && (IsCallMessage(v) <==> role == Some(Str("assistant")) && asks)
            && (IsFinalMessage(v) <==> role == Some(Str("assistant")) && !asks && says)
  {
  }

  /** What the call message itself says is not kept: the content of a merged message is that of the
      closing message, or missing. */
  lemma ContentIsTheClosingOne(b: Block)
    requires b.Turn? && WellGrouped(b) && Render(b).Ok?
    ensures Field(Render(b).value, "content") == if b.final.Some? then Field(b.final.value, "content") else None
    ensures var thought := Field(b.call, "reasoning_content");
            Field(Render(b).value, "reasoning_content") == if thought.Some? && thought.value.Str? then thought else None
    ensures ArrayField(Render(b).value, "tool_calls") == ArrayField(b.call, "tool_calls")
  {
    hide Merged, Responses, HasRole, ArrayField;
    var calls := ArrayField(b.call, "tool_calls");
    MergedFields(calls, Responses(calls, 0, b.tools).value, FinalContent(b.final), Reasoning(b.call));
  }

  /** What a call message says survives the merging exactly when the closing message says the same. */
  lemma TextSurvivesIff(b: Block)
    requires b.Turn? && WellGrouped(b) && Render(b).Ok? && HasContent(b.call)
    ensures Field(Render(b).value, "content") == Field(b.call, "content") <==>
            b.final.Some? && Field(b.final.value, "content") == Field(b.call, "content")
  {
    hide Field, Render, WellGrouped;
    ContentIsTheClosingOne(b);
    assert Field(b.call, "content").Some?;
  }

  const ROLE := Member("role", Str("assistant"))
  const ONE_CALL := Member("tool_calls", Arr([Obj([])]))

  /** A conversation of one assistant message that says something and calls a tool: what it says is
      gone from the rewritten conversation. */
  lemma TextLostExample()
    ensures var said := Member("content", Str("Looking it up."));
            RenderAll(Blocks([Obj([ROLE, said, ONE_CALL])])) == Ok([Obj([ROLE, ONE_CALL])])
  {
    var said := Member("content", Str("Looking it up."));
    var call := Obj([ROLE, said, ONE_CALL]);
    FieldOfThree(call, ROLE, said, ONE_CALL);
    assert IsCallMessage(call);
    assert TurnAt([call]) == Turn(call, [], None);
    assert Blocks([call]) == [Turn(call, [], None)] by { assert [call][1..] == []; }
    assert Merged([Obj([])], [], Null, Null) == Obj([ROLE, ONE_CALL]);
    assert Render(Turn(call, [], None)) == Ok(Obj([ROLE, ONE_CALL]));
    assert [Turn(call, [], None)][1..] == [] && RenderAll([]) == Ok([]);
    assert [Obj([ROLE, ONE_CALL])] + [] == [Obj([ROLE, ONE_CALL])];
  }

  lemma FieldOfThree(v: Value, a: Member, b: Member, c: Member)
    requires v == Obj([a, b, c])
    requires a.key == "role" && b.key == "content" && c.key == "tool_calls"
    ensures Field(v, "role") == Some(a.value) && Field(v, "content") == Some(b.value)
    ensures Field(v, "tool_calls") == Some(c.value) && Field(v, "reasoning_content") == None
  {
    assert [a, b, c] == [a] + ([b] + [c]);
    forall key: string
      ensures Field(v, key) == if key == a.key then Some(a.value) else if key == b.key then Some(b.value)
                               else if key == c.key then Some(c.value) else None
    {
      LookupAppend([a], [b] + [c], key);
      LookupAppend([b], [c], key);
      LookupOne(a.key, a.value, key);
      LookupOne(b.key, b.value, key);
      LookupOne(c.key, c.value, key);
    }
  }
}
