/** The mapper that turns a pre-order stream of tagged syntax nodes into a chat message, building
    the argument text of the current tool call piece by piece. */
module ToolCallMapper {
  import opened Json
  import opened ChatDiff
  import B = BraceScanner
  import Q = QuoteNormalizer
  import opened Wrappers

  datatype Tag =
    | Reasoning | Content | ToolOpen | ToolClose | ToolName | ToolId | ToolArgs
    | ArgOpen | ArgClose | ArgName | ArgValue | ArgStringValue | Untagged

  /** One syntax node, as the visitor meets it. */
  datatype Event = Event(tag: Tag, text: string, partial: bool)

  // ---------------------------------------------------------------- trimming

  predicate IsSpace(c: char) {
    c == ' ' || '\t' <= c <= '\r'
  }

  /** Drops white space at the end, at most max characters of it; a negative max is no limit. */
  function TrimTrailing(s: string, max: int): (r: string)
    ensures r <= s
    decreases |s|
  {
    if s != [] && IsSpace(s[|s| - 1]) && max != 0 then TrimTrailing(s[..|s| - 1], max - 1) else s
  }

  function TrimLeading(s: string, max: int): (r: string)
    ensures |r| <= |s|
    decreases |s|
  {
    if s != [] && IsSpace(s[0]) && max != 0 then TrimLeading(s[1..], max - 1) else s
  }

  function Trim(s: string): string {
    TrimTrailing(TrimLeading(s, 1), -1)
  }

  predicate AllSpace(s: string) {
    forall i | 0 <= i < |s| :: IsSpace(s[i])
  }

  lemma OneMoreSpace(s: string, k: nat, c: char)
    requires k <= |s| && AllSpace(s[k..]) && IsSpace(c)
    ensures AllSpace((s + [c])[k..])
  {
    assert (s + [c])[k..] == s[k..] + [c];
  }

  /** What is dropped at the end is white space, as much of it as there is or as is allowed. */
  lemma {:induction false} TrailingDropped(s: string, max: int)
    ensures var r := TrimTrailing(s, max);
            && AllSpace(s[|r|..]) && (max >= 0 ==> |s| - |r| <= max)
            && (r != "" && IsSpace(r[|r| - 1]) ==> |s| - |r| == max)
    decreases |s|
  {
    assert AllSpace([]);
    hide AllSpace, IsSpace;
    if s != [] && IsSpace(s[|s| - 1]) && max != 0 {
      var t, c := s[..|s| - 1], s[|s| - 1];
      TrailingDropped(t, max - 1);
      assert s == t + [c];
      OneMoreSpace(t, |TrimTrailing(t, max - 1)|, c);
    } else {
      assert s[|s|..] == [];
    }
  }

  lemma {:induction false} LeadingDropped(s: string, max: int)
    ensures var r := TrimLeading(s, max);
            && r == s[|s| - |r|..] && AllSpace(s[..|s| - |r|]) && (max >= 0 ==> |s| - |r| <= max)
            && (r != "" && IsSpace(r[0]) ==> |s| - |r| == max)
    decreases |s|
  {
    if s != [] && IsSpace(s[0]) && max != 0 {
      LeadingDropped(s[1..], max - 1);
      var r := TrimLeading(s[1..], max - 1);
      assert s[..|s| - |r|] == [s[0]] + s[1..][..|s| - 1 - |r|];
    }
  }

  /** An argument name loses at most one white-space character in front and all of them behind. */
  lemma TrimKeeps(s: string)
    ensures var r, lead := Trim(s), if s != "" && IsSpace(s[0]) then 1 else 0;
            && lead + |r| <= |s| && r == s[lead..lead + |r|] && AllSpace(s[lead + |r|..])
            && (r != "" ==> !IsSpace(r[|r| - 1]))
  {
    hide TrimTrailing, AllSpace;
    var t := TrimLeading(s, 1);
    assert t == s[if s != "" && IsSpace(s[0]) then 1 else 0..] by {
      assert s != "" ==> TrimLeading(s[1..], 0) == s[1..];
    }
    TrailingDropped(t, -1);
  }

  /** A value's text without at most one white-space character on either side. */
  function TrimOnce(s: string): string {
    TrimTrailing(TrimLeading(s, 1), 1)
  }

  // ---------------------------------------------------------------- state

  /** What the current tool is: nothing, the pending call, or the last result. */
  datatype Current = NoTool | PendingTool | LastTool

  datatype State = State(
    result: Message, pending: Option<ToolCall>, current: Current,
    argCount: nat, closingQuote: bool, buffer: string)

  const INIT := State(EMPTY, None, NoTool, 0, false, "")

  /** The current tool is a call that still exists (or nothing). */
  predicate Live(st: State) {
    (st.current == PendingTool ==> st.pending.Some?) && (st.current == LastTool ==> st.result.toolCalls != [])
  }

  predicate TouchesTool(tag: Tag) {
    tag in {ToolClose, ToolName, ToolId, ToolArgs, ArgClose, ArgName, ArgValue, ArgStringValue}
  }

  function CurrentCall(st: State): ToolCall
    requires Live(st)
  {
    match st.current
    case NoTool => NO_CALL
    case PendingTool => st.pending.value
    case LastTool => st.result.toolCalls[|st.result.toolCalls| - 1]
  }

  function WithCall(st: State, call: ToolCall): State
    requires Live(st)
  {
    match st.current
    case NoTool => st
    case PendingTool => st.(pending := Some(call))
    case LastTool =>
      var calls := st.result.toolCalls;
      st.(result := st.result.(toolCalls := calls[|calls| - 1 := call]))
  }

  /** Where argument text goes: to the call once it is named, to the buffer before that. */
  predicate TargetsCall(st: State)
    requires Live(st)
  {
    st.current != NoTool && CurrentCall(st).name != ""
  }

  function Target(st: State): string
    requires Live(st)
  {
    if TargetsCall(st) then CurrentCall(st).arguments else st.buffer
  }

  function WithTarget(st: State, s: string): State
    requires Live(st)
  {
    if TargetsCall(st) then WithCall(st, CurrentCall(st).(arguments := s)) else st.(buffer := s)
  }

  // ---------------------------------------------------------------- one node

  predicate IsContainer(w: string) {
    w != [] && (w[0] == '[' || w[0] == '{')
  }

  /** Single quotes of a potential container become double quotes before it is parsed. */
  function Normalize(w: string): string {
    if IsContainer(w) then Q.Normalized(Q.Outside, w) else w
  }

  datatype Addition = Addition(text: string, closingQuote: bool)

  function AsString(w: string, closingQuote: bool): Addition {
    Addition((if closingQuote then "" else "\"") + Escape(w), true)
  }

  /** The text a value node adds to the arguments, and whether a closing quote is then owed. */
  function ValueAddition(e: Event, closingQuote: bool): Addition {
    var w := TrimOnce(e.text);
    if w == "" then
      if e.tag == ArgStringValue then Addition("\"", true) else Addition("", closingQuote)
    else if e.tag == ArgStringValue then AsString(w, closingQuote)
    else
      var n := Normalize(w);
      var parsed := Parse(n);
      if parsed.Done? && parsed.value.Str? then Addition("\"" + Escape(parsed.value.s), true)
      else if parsed.Done? then Addition(n, closingQuote)
      else if e.partial && IsContainer(w) then Addition(n, closingQuote)
      else AsString(n, closingQuote)
  }

  /** The text without the quotes around it, if it has one at either end. */
  function Unquoted(t: string): (r: string)
    ensures t == r || t == "\"" + r + "\""
    ensures t != r <==> |t| >= 2 && t[0] == '"' && t[|t| - 1] == '"'
  {
    if |t| >= 2 && t[0] == '"' && t[|t| - 1] == '"' then t[1..|t| - 1] else t
  }

  function Braces(n: int): string {
    if n <= 0 then "" else Braces(n - 1) + "}"
  }

  function OnToolName(st: State, text: string): State
    requires Live(st) && st.current != NoTool
  {
    var call := CurrentCall(st).(name := TrimTrailing(text, -1));
    var named := call.(arguments := if st.buffer != "" then st.buffer
                                    else if call.arguments == "" then "{" else call.arguments);
    var st' := WithCall(st, named).(buffer := "");
    if st'.pending.Some? then
      st'.(result := st'.result.(toolCalls := st'.result.toolCalls + [st'.pending.value]), pending := None,
           current := LastTool)
    else st'
  }

  function OnArgName(st: State, text: string): State
    requires Live(st)
  {
    var target := Target(st);
    WithTarget(st, (if target == "" then "{" else target) + (if st.argCount > 0 then "," else "") + Quote(Trim(text)) + ":")
      .(argCount := st.argCount + 1)
  }

  function OnToolClose(st: State): State
    requires Live(st) && st.current != NoTool
  {
    var call := CurrentCall(st);
    var flush := call.name == "" && st.buffer != "";
    var args := (if flush then st.buffer else call.arguments) + (if st.closingQuote then "\"" else "");
    var closed := call.(arguments := args + Braces(B.Run(B.START, args).depth));
    var st' := WithCall(st, closed).(closingQuote := false, buffer := if flush then "" else st.buffer);
    if st'.pending.None? then st'
    else if CurrentCall(st').name != "" then
      st'.(result := st'.result.(toolCalls := st'.result.toolCalls + [st'.pending.value]), pending := None)
    else st'.(pending := None)
  }

  function Step(st: State, e: Event): State
    requires TouchesTool(e.tag) ==> Live(st)
  {
    if TouchesTool(e.tag) && st.current == NoTool then st
    else match e.tag
      case Reasoning => st.(result := st.result.(reasoning := st.result.reasoning + e.text))
      case Content => st.(result := st.result.(content := st.result.content + e.text))
      case ToolOpen => State(st.result, Some(NO_CALL), PendingTool, 0, false, "")
      case ToolId => WithCall(st, CurrentCall(st).(id := Unquoted(TrimTrailing(e.text, -1))))
      case ToolName => OnToolName(st, e.text)
      case ToolArgs =>
        var t := TrimTrailing(e.text, -1);
        if t != "" && t[0] == '{' then WithTarget(st, t) else st
      case ArgOpen => st.(closingQuote := false)
      case ArgName => OnArgName(st, e.text)
      case ArgClose =>
        if st.closingQuote then WithTarget(st, Target(st) + "\"").(closingQuote := false) else st
      case ToolClose => OnToolClose(st)
      case Untagged => st
      case _ =>
        var a := ValueAddition(e, st.closingQuote);
        WithTarget(st, Target(st) + a.text).(closingQuote := a.closingQuote)
  }

  /** The run never touches a current tool that is gone. */
  predicate Safe(st: State, es: seq<Event>)
    decreases |es|
  {
    es == [] || ((TouchesTool(es[0].tag) ==> Live(st)) && Safe(Step(st, es[0]), es[1..]))
  }

  function RunAll(st: State, es: seq<Event>): State
    requires Safe(st, es)
    decreases |es|
  {
    if es == [] then st else RunAll(Step(st, es[0]), es[1..])
  }

  predicate AllWhitespace(s: string) {
    forall c | c in s :: c == ' ' || c == '\n' || c == '\r' || c == '\t'
  }

  /** What happens after the last node: a named pending call is flushed, and reasoning that is only
      white space is dropped. */
  function Finish(st: State): Message {
    var r :=
      if st.pending.Some? && st.pending.value.name != "" then
        var args := if st.buffer != "" then st.buffer else st.pending.value.arguments;
        var call := st.pending.value.(arguments := args + if st.closingQuote && args != "" then "\"" else "");
        st.result.(toolCalls := st.result.toolCalls + [call])
      else st.result;
    if AllWhitespace(r.reasoning) then r.(reasoning := "") else r
  }

  // ---------------------------------------------------------------- the class

  /** The value case: what to append, and whether a closing quote is owed afterwards. */
  method AddedText(e: Event, closingQuote: bool) returns (valueToAdd: string, closingQuotePending: bool)
    requires e.tag == ArgValue || e.tag == ArgStringValue
    ensures Addition(valueToAdd, closingQuotePending) == ValueAddition(e, closingQuote)
  {
    hide Escape, Parse, Q.Normalized;
    var valueContent := TrimOnce(e.text);
    valueToAdd, closingQuotePending := "", closingQuote;
    if valueContent == "" && e.tag == ArgStringValue {
      valueToAdd := "\"";
      closingQuotePending := true;
    } else if valueContent != "" && e.tag == ArgStringValue {
      if !closingQuotePending {
        valueToAdd := "\"";
        closingQuotePending := true;
      }
      valueToAdd := valueToAdd + Escape(valueContent);
    } else if valueContent != "" {
      var isPotentialContainer := IsContainer(valueContent);
      if isPotentialContainer {
        valueContent := Q.NormalizeQuotesToJson(valueContent);
      }
      var parsed := Parse(valueContent);
      if parsed.Done? {
        if parsed.value.Str? {
          var escaped := Quote(parsed.value.s);
          valueToAdd := escaped[..|escaped| - 1];
          assert valueToAdd == "\"" + Escape(parsed.value.s);
          closingQuotePending := true;
        } else {
          valueToAdd := valueContent;
        }
      } else if e.partial && isPotentialContainer {
        valueToAdd := valueContent;
      } else {
        if !closingQuotePending {
          valueToAdd := "\"";
          closingQuotePending := true;
        }
        valueToAdd := valueToAdd + Escape(valueContent);
      }
    }
  }

  /** Appends one closing brace for every brace that is still open. */
  method CloseBraces(arguments: string) returns (closed: string)
    ensures closed == arguments + Braces(B.Run(B.START, arguments).depth)
  {
    hide B.Run;
    closed := arguments;
    var depth := B.JsonBraceDepth(arguments);
    var d := depth;
    while d > 0
      invariant d <= depth && (depth > 0 ==> d >= 0) && (depth <= 0 ==> d == depth)
      invariant closed == arguments + Braces(depth - d)
      decreases d
    {
      assert arguments + Braces(depth - d) + "}" == arguments + Braces(depth - (d - 1));
      closed := closed + "}";
      d := d - 1;
    }
  }

  class Mapper {
    var result: Message
    var pendingToolCall: Option<ToolCall>
    var currentTool: Current
    var argCount: nat
    var closingQuotePending: bool
    var argsBuffer: string

    function Abstract(): State
      reads this
    {
      State(result, pendingToolCall, currentTool, argCount, closingQuotePending, argsBuffer)
    }

    constructor ()
      ensures Abstract() == INIT
    {
      result, pendingToolCall, currentTool := EMPTY, None, NoTool;
      argCount, closingQuotePending, argsBuffer := 0, false, "";
    }

    method SetCurrentCall(call: ToolCall)
      requires Live(Abstract())
      modifies this`result, this`pendingToolCall
      ensures Abstract() == WithCall(old(Abstract()), call)
    {
      match currentTool {
        case NoTool =>
        case PendingTool => pendingToolCall := Some(call);
        case LastTool =>
          var calls := result.toolCalls;
          result := result.(toolCalls := calls[|calls| - 1 := call]);
      }
    }

    method SetTarget(s: string)
      requires Live(Abstract())
      modifies this`result, this`pendingToolCall, this`argsBuffer
      ensures Abstract() == WithTarget(old(Abstract()), s)
    {
      if currentTool != NoTool && CurrentCall(Abstract()).name != "" {
        SetCurrentCall(CurrentCall(Abstract()).(arguments := s));
      } else {
        argsBuffer := s;
      }
    }

    method MapToolName(text: string)
      requires Live(Abstract()) && currentTool != NoTool
      modifies this
      ensures Abstract() == OnToolName(old(Abstract()), text)
    {
      var call := CurrentCall(Abstract()).(name := TrimTrailing(text, -1));
      if argsBuffer != "" {
        call := call.(arguments := argsBuffer);
        argsBuffer := "";
      } else if call.arguments == "" {
        call := call.(arguments := "{");
      }
      SetCurrentCall(call);
      if pendingToolCall.Some? {
        result := result.(toolCalls := result.toolCalls + [pendingToolCall.value]);
        pendingToolCall := None;
        currentTool := LastTool;
      }
    }

    method MapArgName(text: string)
      requires Live(Abstract()) && currentTool != NoTool
      modifies this
      ensures Abstract() == OnArgName(old(Abstract()), text)
    {
      hide Quote, Trim, B.Run, ValueAddition, WithCall, CurrentCall;
      var entry := "";
      if argCount > 0 {
        entry := ",";
      }
      entry := entry + Quote(Trim(text)) + ":";
      var target := Target(Abstract());
      if target == "" {
        target := "{";
      }
      ghost var comma := if argCount > 0 then "," else "";
      assert target + entry == target + comma + Quote(Trim(text)) + ":";
      SetTarget(target + entry);
      argCount := argCount + 1;
    }

    method MapValue(e: Event)
      requires Live(Abstract()) && currentTool != NoTool && (e.tag == ArgValue || e.tag == ArgStringValue)
      modifies this
      ensures Abstract() == Step(old(Abstract()), e)
    {
      var valueToAdd, quote := AddedText(e, closingQuotePending);
      hide ValueAddition;
      closingQuotePending := quote;
      SetTarget(Target(Abstract()) + valueToAdd);
    }

    method MapToolClose()
      requires Live(Abstract()) && currentTool != NoTool
      modifies this
      ensures Abstract() == OnToolClose(old(Abstract()))
    {
      hide Braces, B.Run;
      var call := CurrentCall(Abstract());
      ghost var flush := call.name == "" && argsBuffer != "";
      ghost var buffered := if flush then argsBuffer else call.arguments;
      if call.name == "" && argsBuffer != "" {
        call := call.(arguments := argsBuffer);
        argsBuffer := "";
      }
      assert buffered + "" == buffered;
      if closingQuotePending {
        call := call.(arguments := call.arguments + "\"");
        closingQuotePending := false;
      }
      var closed := CloseBraces(call.arguments);
      SetCurrentCall(call.(arguments := closed));
      if pendingToolCall.Some? {
        if CurrentCall(Abstract()).name != "" {
          result := result.(toolCalls := result.toolCalls + [pendingToolCall.value]);
        }
        pendingToolCall := None;
      }
    }

    method Map(e: Event)
      requires TouchesTool(e.tag) ==> Live(Abstract())
      modifies this
      ensures Abstract() == Step(old(Abstract()), e)
    {
      if e.tag == Reasoning {
        result := result.(reasoning := result.reasoning + e.text);
      } else if e.tag == Content {
        result := result.(content := result.content + e.text);
      } else if e.tag == ToolOpen {
        pendingToolCall, currentTool := Some(NO_CALL), PendingTool;
        argCount, argsBuffer, closingQuotePending := 0, "", false;
      } else if e.tag == ArgOpen {
        closingQuotePending := false;
      } else if e.tag == Untagged || currentTool == NoTool {
      } else if e.tag == ToolId {
        SetCurrentCall(CurrentCall(Abstract()).(id := Unquoted(TrimTrailing(e.text, -1))));
      } else if e.tag == ToolName {
        MapToolName(e.text);
      } else if e.tag == ToolArgs {
        var text := TrimTrailing(e.text, -1);
        if text != "" && text[0] == '{' {
          SetTarget(text);
        }
      } else if e.tag == ArgName {
        MapArgName(e.text);
      } else if e.tag == ArgClose {
        if closingQuotePending {
          SetTarget(Target(Abstract()) + "\"");
          closingQuotePending := false;
        }
      } else if e.tag == ToolClose {
        MapToolClose();
      } else {
        MapValue(e);
      }
    }

    /** Visits the nodes in order, then finishes the message. */
    method FromAst(es: seq<Event>)
      requires Safe(Abstract(), es)
      modifies this
      ensures result == Finish(RunAll(old(Abstract()), es))
    {
      for i := 0 to |es|
        invariant Safe(Abstract(), es[i..])
        invariant RunAll(Abstract(), es[i..]) == RunAll(old(Abstract()), es)
      {
        assert es[i..][1..] == es[i + 1..];
        Map(es[i]);
      }
      ghost var st := Abstract();
      assert st == RunAll(old(Abstract()), es);
      if pendingToolCall.Some? && pendingToolCall.value.name != "" {
        var call := pendingToolCall.value;
        if argsBuffer != "" {
          call := call.(arguments := argsBuffer);
        }
        assert call.arguments + "" == call.arguments;
        if closingQuotePending && call.arguments != "" {
          call := call.(arguments := call.arguments + "\"");
        }
        result := result.(toolCalls := result.toolCalls + [call]);
        pendingToolCall := None;
      }
      if result.reasoning != "" {
        var allWhitespace := true;
        for i := 0 to |result.reasoning|
          invariant allWhitespace ==> AllWhitespace(result.reasoning[..i])
        {
          var c := result.reasoning[i];
          assert result.reasoning[..i + 1] == result.reasoning[..i] + [c];
          if c != ' ' && c != '\n' && c != '\r' && c != '\t' {
            allWhitespace := false;
            assert c in result.reasoning;
            break;
          }
        }
        assert result.reasoning[..|result.reasoning|] == result.reasoning;
        if allWhitespace {
          result := result.(reasoning := "");
        }
      }
    }
  }
}
