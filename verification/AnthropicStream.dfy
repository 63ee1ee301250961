/**
 The Anthropic stream assembler against the mapping of a finished message
 (anthropic/adapter.go). Raw JSON and text are strings; `valid` stands for json.Valid.
 */
module AnthropicStream {
  import opened Wrappers

  datatype ToolCall = ToolCall(id: string, toolId: string, arguments: string)

  datatype Detail = Thinking(thinking: string, signature: string) | Redacted(data: string)

  /** The provider's token counts. */
  datatype ClaudeUsage = ClaudeUsage(input: int, output: int, thinking: int, cacheRead: int, cacheWrite: int, cacheWrite1h: int)

  datatype ModelUsage = ModelUsage(
    input: int, output: int, reasoning: int, cacheRead: int, cacheWrite: int, cacheWrite1h: int, total: int)

  function MapUsage(u: ClaudeUsage): ModelUsage {
    ModelUsage(u.input, u.output, u.thinking, u.cacheRead, u.cacheWrite, u.cacheWrite1h,
               u.input + u.cacheWrite + u.cacheRead + u.output)
  }

  datatype Finish = Stop | ToolCalls | Length | Content

  function MapFinish(reason: string): Finish {
    if reason == "tool_use" then ToolCalls
    else if reason == "max_tokens" || reason == "model_context_window_exceeded" then Length
    else if reason == "refusal" then Content
    else Stop
  }

  datatype Opening = TextOpens | ToolOpens(id: string, name: string) | ThinkingOpens | RedactedOpens(data: string) | OtherOpens

  datatype Event =
    | MessageStart(usage: ClaudeUsage)
    | BlockStart(index: int, block: Opening)
    | BlockDelta(index: int, text: string, thinking: string, partialJson: string, signature: string)
    | BlockStop(index: int)
    | MessageDelta(stopReason: string, outputTokens: int, thinkingTokens: int)
    | OtherEvent

  /** The forms of stream delta the assembler sends. */
  datatype Delta =
    | TextDelta(text: string)
    | ReasoningDelta(text: string)
    | DetailDelta(detail: Detail)
    | ToolDelta(call: ToolCall)
    | TerminalDelta(finish: Finish, usage: ModelUsage)
    | ErrorDelta(message: string)

  datatype Assembler = Assembler(
    tools: map<int, ToolCall>,
    thinking: map<int, string>,
    signatures: map<int, string>,
    redacted: map<int, string>,
    finish: Finish,
    usage: ModelUsage,
    sent: seq<Delta>,
    failed: bool)

  const MIXED := "delta contains text and thinking in one content block"
  const BAD_ARGUMENTS := "streamed tool arguments are not valid JSON"

  function Fresh(): Assembler {
    Assembler(map[], map[], map[], map[], Stop, ModelUsage(0, 0, 0, 0, 0, 0, 0), [], false)
  }

  function Get(m: map<int, string>, index: int): string {
    if index in m then m[index] else ""
  }

  function Open(a: Assembler, index: int, block: Opening): Assembler {
    match block
    case ToolOpens(id, name) => a.(tools := a.tools[index := ToolCall(id, name, "")])
    case ThinkingOpens => a.(thinking := a.thinking[index := ""])
    case RedactedOpens(data) => a.(redacted := a.redacted[index := data])
    case TextOpens => a
    case OtherOpens => a
  }

  function TextSent(text: string): seq<Delta> { if text == "" then [] else [TextDelta(text)] }

  function ThoughtSent(text: string): seq<Delta> { if text == "" then [] else [ReasoningDelta(text)] }

  function AddDelta(a: Assembler, e: Event): Assembler
    requires e.BlockDelta?
  {
    if e.text != "" && e.thinking != "" then a.(sent := a.sent + [ErrorDelta(MIXED)], failed := true)
    else a.(
      sent := a.sent + TextSent(e.text) + ThoughtSent(e.thinking),
      tools := if e.index in a.tools
               then a.tools[e.index := a.tools[e.index].(arguments := a.tools[e.index].arguments + e.partialJson)]
               else a.tools,
      thinking := if e.thinking != "" && e.index in a.thinking
                  then a.thinking[e.index := a.thinking[e.index] + e.thinking] else a.thinking,
      signatures := if e.signature == "" then a.signatures
                    else a.signatures[e.index := Get(a.signatures, e.index) + e.signature])
  }

  function Arguments(raw: string): string { if raw == "" then "{}" else raw }

  /** A thinking block worth a detail: anything but empty and unsigned. */
  predicate Worth(d: Detail) { d != Thinking("", "") }

  function CloseTool(valid: string -> bool, a: Assembler, index: int): Assembler {
    if index !in a.tools then a else
      var call := a.tools[index].(arguments := Arguments(a.tools[index].arguments));
      if !valid(call.arguments) then a.(sent := a.sent + [ErrorDelta(BAD_ARGUMENTS)], failed := true)
      else a.(sent := a.sent + [ToolDelta(call)], tools := a.tools - {index})
  }

  function CloseThinking(a: Assembler, index: int): Assembler {
    var details :=
      if index !in a.thinking then []
      else var d := Thinking(a.thinking[index], Get(a.signatures, index)); if Worth(d) then [DetailDelta(d)] else [];
    a.(sent := a.sent + details, thinking := a.thinking - {index}, signatures := a.signatures - {index})
  }

  function CloseRedacted(a: Assembler, index: int): Assembler {
    if index !in a.redacted then a
    else a.(sent := a.sent + [DetailDelta(Redacted(a.redacted[index]))], redacted := a.redacted - {index})
  }

  function Close(valid: string -> bool, a: Assembler, index: int): Assembler {
    var closed := CloseTool(valid, a, index);
    if closed.failed then closed else CloseRedacted(CloseThinking(closed, index), index)
  }

  function Step(valid: string -> bool, a: Assembler, e: Event): Assembler {
    if a.failed then a else
      match e
      case MessageStart(usage) => a.(usage := MapUsage(usage))
      case BlockStart(index, block) => Open(a, index, block)
      case BlockDelta(_, _, _, _, _) => AddDelta(a, e)
      case BlockStop(index) => Close(valid, a, index)
      case MessageDelta(reason, output, thinking) =>
        var u := a.usage;
        a.(finish := MapFinish(reason),
           usage := u.(output := output, reasoning := thinking, total := u.input + u.cacheWrite + u.cacheRead + output))
      case OtherEvent => a
  }

  function Run(valid: string -> bool, a: Assembler, events: seq<Event>): Assembler
    decreases |events|
  {
    if events == [] then a else Run(valid, Step(valid, a, events[0]), events[1..])
  }

  /** Everything the assembler sends for a stream that ends without a transport error. */
  function Sent(valid: string -> bool, events: seq<Event>): seq<Delta> {
    var a := Run(valid, Fresh(), events);
    if a.failed then a.sent else a.sent + [TerminalDelta(a.finish, a.usage)]
  }

  /** Everything it sends for a stream that ends with a transport error. */
  function Broke(valid: string -> bool, events: seq<Event>, message: string): seq<Delta> {
    var a := Run(valid, Fresh(), events);
    if a.failed then a.sent else a.sent + [ErrorDelta(message)]
  }

  /** The state of anthropicStream.start's goroutine. */
  class Stream {
    const valid: string -> bool
    var tools: map<int, ToolCall>
    var thinking: map<int, string>
    var signatures: map<int, string>
    var redacted: map<int, string>
    var finish: Finish
    var usage: ModelUsage
    var sent: seq<Delta>
    var failed: bool

    function Value(): Assembler
      reads this
    {
      Assembler(tools, thinking, signatures, redacted, finish, usage, sent, failed)
    }

    constructor (valid: string -> bool)
      ensures Value() == Fresh() && this.valid == valid
    {
      this.valid := valid;
      tools, thinking, signatures, redacted := map[], map[], map[], map[];
      finish, usage, sent, failed := Stop, ModelUsage(0, 0, 0, 0, 0, 0, 0), [], false;
    }

    method OnDelta(e: Event)
      requires e.BlockDelta? && !failed
      modifies this
      ensures Value() == AddDelta(old(Value()), e)
    {
      var index := e.index;
      if e.text != "" && e.thinking != "" {
        sent, failed := sent + [ErrorDelta(MIXED)], true;
        return;
      }
      if e.text != "" { sent := sent + [TextDelta(e.text)]; }
      if index in tools {
        tools := tools[index := tools[index].(arguments := tools[index].arguments + e.partialJson)];
      }
      if e.thinking != "" {
        if index in thinking { thinking := thinking[index := thinking[index] + e.thinking]; }
        sent := sent + [ReasoningDelta(e.thinking)];
      }
      if e.signature != "" { signatures := signatures[index := Get(signatures, index) + e.signature]; }
    }

    method StopTool(index: int)
      requires !failed
      modifies this
      ensures Value() == CloseTool(valid, old(Value()), index)
    {
      if index in tools {
        var call := tools[index];
        if call.arguments == "" { call := call.(arguments := "{}"); }
        if !valid(call.arguments) {
          sent, failed := sent + [ErrorDelta(BAD_ARGUMENTS)], true;
          return;
        }
        sent := sent + [ToolDelta(call)];
        tools := tools - {index};
      }
    }

    method OnStop(index: int)
      requires !failed
      modifies this
      ensures Value() == Close(valid, old(Value()), index)
    {
      hide CloseTool;
      StopTool(index);
      if failed { return; }
      ghost var a := Value();
      if index in thinking && (thinking[index] != "" || Get(signatures, index) != "") {
        sent := sent + [DetailDelta(Thinking(thinking[index], Get(signatures, index)))];
      }
      thinking := thinking - {index};
      signatures := signatures - {index};
      assert Value() == CloseThinking(a, index);
      if index in redacted {
        sent := sent + [DetailDelta(Redacted(redacted[index]))];
        redacted := redacted - {index};
      }
    }

    method OnEvent(e: Event)
      requires !failed
      modifies this
      ensures Value() == Step(valid, old(Value()), e)
    {
      hide AddDelta, Close;
      match e {
        case MessageStart(u) =>
          usage := MapUsage(u);
        case BlockStart(index, block) =>
          match block {
            case ToolOpens(id, name) => tools := tools[index := ToolCall(id, name, "")];
            case ThinkingOpens => thinking := thinking[index := ""];
            case RedactedOpens(data) => redacted := redacted[index := data];
            case TextOpens =>
            case OtherOpens =>
          }
        case BlockDelta(_, _, _, _, _) => OnDelta(e);
        case BlockStop(index) => OnStop(index);
        case MessageDelta(reason, output, thinkingTokens) =>
          finish := MapFinish(reason);
          usage := usage.(output := output, reasoning := thinkingTokens);
          usage := usage.(total := usage.input + usage.cacheWrite + usage.cacheRead + usage.output);
        case OtherEvent =>
      }
    }

    /** The event loop and its end: a terminal delta only for a stream that neither failed nor broke. */
    method Start(events: seq<Event>, broken: Option<string>)
      requires Value() == Fresh()
      modifies this
      ensures sent == if broken.Some? then Broke(valid, events, broken.value) else Sent(valid, events)
    {
      for i := 0 to |events|
        invariant Run(valid, Value(), events[i..]) == Run(valid, Fresh(), events)
        invariant !failed
      {
        hide Step;
        assert events[i..][1..] == events[i + 1..];
        OnEvent(events[i]);
        if failed {
          FailedStays(valid, Value(), events[i + 1..]);
          return;
        }
      }
      if broken.Some? {
        sent := sent + [ErrorDelta(broken.value)];
        return;
      }
      sent := sent + [TerminalDelta(finish, usage)];
    }
  }

  lemma {:induction false} FailedStays(valid: string -> bool, a: Assembler, events: seq<Event>)
    ensures a.failed ==> Run(valid, a, events) == a
    decreases |events|
  {
    if events != [] && a.failed {
      FailedStays(valid, a, events[1..]);
    }
  }

  // ----- Usage -----

  predicate Adds(u: ModelUsage) {
    u.total == u.input + u.cacheWrite + u.cacheRead + u.output
  }

  lemma StepAdds(valid: string -> bool, a: Assembler, e: Event)
    requires Adds(a.usage)
    ensures Adds(Step(valid, a, e).usage)
  {
    hide AddDelta;
    if e.BlockDelta? { assert AddDelta(a, e).usage == a.usage by { DeltaUsage(a, e); } }
  }

  lemma DeltaUsage(a: Assembler, e: Event)
    requires e.BlockDelta?
    ensures AddDelta(a, e).usage == a.usage
  {
  }

  /** For every sequence of events whatsoever, the total is the sum of its parts. */
  lemma {:induction false} TotalAdds(valid: string -> bool, a: Assembler, events: seq<Event>)
    requires Adds(a.usage)
    ensures Adds(Run(valid, a, events).usage)
    decreases |events|
  {
    hide Step;
    if events != [] {
      StepAdds(valid, a, events[0]);
      TotalAdds(valid, Step(valid, a, events[0]), events[1..]);
    }
  }
}
