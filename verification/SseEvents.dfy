/**
 The events of the stream route (httpapi/stream.go): how a delta, the end of the run and the usage
 become events, and what those events tell.
 */
module SseEvents {
  import opened Wrappers
  import opened SseFormat

  datatype ModelUsage = ModelUsage(
    input: int, output: int, reasoning: int, total: int, cacheRead: int, cacheWrite: int, cacheWrite1h: int)

  const ZERO_USAGE := ModelUsage(0, 0, 0, 0, 0, 0, 0)

  datatype StreamDelta = StreamDelta(
    parts: seq<Part>,
    text: string,
    reasoning: string,
    toolCall: Option<ToolCall>,
    structuredOutput: string,
    finishReason: string,
    usage: ModelUsage)

  /** What the run's Wait returned: the classified error, if any, and the projected result. */
  datatype RunResult = RunResult(
    id: string, status: string, errorCode: Option<string>, content: string, reasoning: string, structuredOutput: string)

  /** `fails(k)`: the number of bytes the k-th write got through before it failed, if it fails. */
  datatype Setting = Setting(
    codec: Codec,
    redact: StreamDelta -> StreamDelta,
    errorBody: string -> ErrorBody,
    fails: nat -> Option<nat>)

  function UsageFromModel(u: ModelUsage): Usage {
    Usage(u.input, u.output, u.reasoning, u.total)
  }

  function Added(total: ModelUsage, u: ModelUsage): ModelUsage {
    total.(input := total.input + u.input, output := total.output + u.output,
           reasoning := total.reasoning + u.reasoning, total := total.total + u.total)
  }

  predicate HasContent(d: StreamDelta) {
    || (exists i :: 0 <= i < |d.parts| && d.parts[i].text != "")
    || d.text != "" || d.reasoning != "" || d.toolCall.Some? || d.structuredOutput != ""
    || d.finishReason != "" || d.usage != ZERO_USAGE
  }

  function TextParts(parts: seq<Part>): seq<Part> {
    if parts == [] then []
    else (if parts[0].text != "" then [parts[0]] else []) + TextParts(parts[1..])
  }

  function EventOf(d: StreamDelta): StreamEvent {
    StreamEvent(EVENT_DELTA, "", TextParts(d.parts), d.text, d.reasoning, d.toolCall, d.structuredOutput, d.finishReason, "",
                if d.usage != ZERO_USAGE then Some(UsageFromModel(d.usage)) else None, None)
  }

  function TerminalName(r: RunResult): (name: string)
    ensures IsTerminal(name)
  {
    match r.errorCode
    case Some(code) => if code == "cancelled" then EVENT_CANCELLED else EVENT_FAILED
    case None =>
      if r.status == "cancelled" then EVENT_CANCELLED
      else if r.status == "failed" then EVENT_FAILED
      else EVENT_SUCCEEDED
  }

  function TerminalError(s: Setting, r: RunResult): Option<ErrorBody> {
    match r.errorCode
    case Some(code) => Some(s.errorBody(code))
    case None => if r.status == "failed" then Some(s.errorBody("internal_error")) else None
  }

  function TerminalEvent(s: Setting, r: RunResult, total: ModelUsage): StreamEvent {
    var ok := r.errorCode.None?;
    StreamEvent(TerminalName(r), r.id, [], if ok then r.content else "", if ok then r.reasoning else "", None,
                if ok then r.structuredOutput else "", "", r.status,
                if total != ZERO_USAGE then Some(UsageFromModel(total)) else None, TerminalError(s, r))
  }

  /** The event written in place of one that cannot be encoded. */
  function FallbackEvent(s: Setting): StreamEvent {
    StreamEvent(EVENT_FAILED, "", [], "", "", None, "", "", "", None, Some(s.errorBody("internal_error")))
  }

  /** The run's usage: the sum over every delta, suppressed or not. */
  function TotalUsage(deltas: seq<StreamDelta>): ModelUsage {
    if deltas == [] then ZERO_USAGE else Added(TotalUsage(deltas[..|deltas| - 1]), deltas[|deltas| - 1].usage)
  }

  /** The events of the deltas that survive redaction with content. */
  function Projected(s: Setting, deltas: seq<StreamDelta>): seq<StreamEvent> {
    if deltas == [] then [] else
      var d := s.redact(deltas[|deltas| - 1]);
      Projected(s, deltas[..|deltas| - 1]) + if HasContent(d) then [EventOf(d)] else []
  }

  // ----- What a delta's event tells -----

  function Texts(parts: seq<Part>): string {
    if parts == [] then "" else parts[0].text + Texts(parts[1..])
  }

  /** The parts of `shown` are those of `parts` that have text, with their kinds and in their order. */
  ghost predicate ShowsParts(parts: seq<Part>, shown: seq<Part>) {
    && (forall p :: p in shown ==> p.text != "")
    && (forall p: Part :: p.text != "" ==> multiset(shown)[p] == multiset(parts)[p])
    && Texts(shown) == Texts(parts)
  }

  lemma {:induction false} TextsShown(parts: seq<Part>)
    ensures Texts(TextParts(parts)) == Texts(parts)
    ensures forall p :: p in TextParts(parts) ==> p.text != ""
    decreases |parts|
  {
    if parts != [] {
      TextsShown(parts[1..]);
      if parts[0].text != "" {
        assert TextParts(parts)[1..] == TextParts(parts[1..]);
      } else {
        assert TextParts(parts) == TextParts(parts[1..]);
      }
    }
  }

  lemma CountCons(p: Part, head: Part, rest: seq<Part>)
    ensures multiset([head] + rest)[p] == (if head == p then 1 else 0) + multiset(rest)[p]
  {
  }

  lemma {:induction false} CountShown(parts: seq<Part>, p: Part)
    requires p.text != ""
    ensures multiset(TextParts(parts))[p] == multiset(parts)[p]
    decreases |parts|
  {
    if parts != [] {
      CountShown(parts[1..], p);
      assert parts == [parts[0]] + parts[1..];
      CountCons(p, parts[0], parts[1..]);
      if parts[0].text != "" {
        CountCons(p, parts[0], TextParts(parts[1..]));
      } else {
        assert TextParts(parts) == TextParts(parts[1..]);
      }
    }
  }

  lemma {:induction false} PartsShown(parts: seq<Part>)
    ensures ShowsParts(parts, TextParts(parts))
  {
    hide TextParts;
    TextsShown(parts);
    forall p: Part | p.text != "" ensures multiset(TextParts(parts))[p] == multiset(parts)[p] { CountShown(parts, p); }
  }

  /** The counts of a usage, if there are any. */
  predicate ShowsUsage(u: ModelUsage, shown: Option<Usage>) {
    if u == ModelUsage(0, 0, 0, 0, 0, 0, 0) then shown == None
    else shown.Some? && shown.value.input == u.input && shown.value.output == u.output
         && shown.value.reasoning == u.reasoning && shown.value.total == u.total
  }

  /** The event tells of the delta all that the wire can carry, and nothing else. */
  ghost predicate Tells(d: StreamDelta, e: StreamEvent) {
    && e.kind == "model_delta" && e.text == d.text && e.reasoning == d.reasoning && e.toolCall == d.toolCall
    && e.structuredOutput == d.structuredOutput && e.finishReason == d.finishReason
    && ShowsParts(d.parts, e.parts) && ShowsUsage(d.usage, e.usage)
    && e.runId == "" && e.status == "" && e.error == None
  }

  /** Nothing but a type. */
  const BLANK := StreamEvent("model_delta", "", [], "", "", None, "", "", "", None, None)

  lemma {:induction false} SomeText(parts: seq<Part>)
    ensures TextParts(parts) != [] <==> exists i :: 0 <= i < |parts| && parts[i].text != ""
    decreases |parts|
  {
    if parts != [] {
      SomeText(parts[1..]);
      assert forall i :: 0 < i < |parts| ==> parts[i] == parts[1..][i - 1];
    }
  }

  /** A delta's event tells of it, and is left out exactly if there is nothing to tell. */
  lemma DeltaTold(d: StreamDelta)
    ensures Tells(d, EventOf(d))
    ensures HasContent(d) <==> EventOf(d) != BLANK
  {
    hide TextParts, ShowsParts;
    PartsShown(d.parts);
    SomeText(d.parts);
  }

  /** The places of the deltas that leave something to tell after redaction. */
  function Shown(s: Setting, deltas: seq<StreamDelta>): seq<nat> {
    if deltas == [] then [] else
      var n := |deltas| - 1;
      Shown(s, deltas[..n]) + if EventOf(s.redact(deltas[n])) != BLANK then [n] else []
  }

  /** `events` tell of the first of those deltas, in order, as the redactor left them. */
  ghost predicate TellsFirst(s: Setting, deltas: seq<StreamDelta>, events: seq<StreamEvent>) {
    && |events| <= |Shown(s, deltas)|
    && forall i :: 0 <= i < |events| ==>
         Shown(s, deltas)[i] < |deltas| && Tells(s.redact(deltas[Shown(s, deltas)[i]]), events[i])
  }

  lemma {:induction false} ShownPlaces(s: Setting, deltas: seq<StreamDelta>)
    ensures forall i :: 0 <= i < |Shown(s, deltas)| ==> Shown(s, deltas)[i] < |deltas|
    ensures forall i, j :: 0 <= i < j < |Shown(s, deltas)| ==> Shown(s, deltas)[i] < Shown(s, deltas)[j]
    ensures forall k :: 0 <= k < |deltas| ==> (k in Shown(s, deltas) <==> EventOf(s.redact(deltas[k])) != BLANK)
    decreases |deltas|
  {
    hide EventOf;
    if deltas != [] { ShownPlaces(s, deltas[..|deltas| - 1]); }
  }

  lemma {:induction false} LastShown(s: Setting, deltas: seq<StreamDelta>)
    requires deltas != []
    ensures var n := |deltas| - 1; var d := s.redact(deltas[n]); var told := EventOf(d) != BLANK;
            && Shown(s, deltas) == Shown(s, deltas[..n]) + (if told then [n] else [])
            && Projected(s, deltas) == Projected(s, deltas[..n]) + (if told then [EventOf(d)] else [])
            && Tells(d, EventOf(d))
  {
    hide EventOf, Tells, HasContent;
    DeltaTold(s.redact(deltas[|deltas| - 1]));
  }

  /** The projected events tell of exactly the deltas with something to tell, each once and in order. */
  lemma {:induction false} ProjectedTells(s: Setting, deltas: seq<StreamDelta>)
    ensures |Projected(s, deltas)| == |Shown(s, deltas)|
    ensures TellsFirst(s, deltas, Projected(s, deltas))
    decreases |deltas|
  {
    if deltas != [] {
      var n := |deltas| - 1;
      LastShown(s, deltas);
      hide EventOf, Tells, Projected, Shown;
      ProjectedTells(s, deltas[..n]);
      var before, shown := Projected(s, deltas[..n]), Shown(s, deltas[..n]);
      forall i | 0 <= i < |before| ensures shown[i] < n && Tells(s.redact(deltas[shown[i]]), before[i]) {
        assert deltas[..n][shown[i]] == deltas[shown[i]];
      }
    }
  }

  lemma TellsPrefix(s: Setting, deltas: seq<StreamDelta>, events: seq<StreamEvent>, first: seq<StreamEvent>)
    requires TellsFirst(s, deltas, events) && first <= events
    ensures TellsFirst(s, deltas, first)
  {
    hide Tells, Shown;
    assert forall i :: 0 <= i < |first| ==> first[i] == events[i];
  }

  // ----- What the end tells -----

  function InputOf(d: StreamDelta): int { d.usage.input }

  function OutputOf(d: StreamDelta): int { d.usage.output }

  function ReasoningOf(d: StreamDelta): int { d.usage.reasoning }

  function TotalOf(d: StreamDelta): int { d.usage.total }

  function Sum(f: StreamDelta -> int, deltas: seq<StreamDelta>): int {
    if deltas == [] then 0 else f(deltas[0]) + Sum(f, deltas[1..])
  }

  lemma {:induction false} SumLast(f: StreamDelta -> int, deltas: seq<StreamDelta>)
    requires deltas != []
    ensures Sum(f, deltas) == Sum(f, deltas[..|deltas| - 1]) + f(deltas[|deltas| - 1])
    decreases |deltas|
  {
    if |deltas| > 1 {
      SumLast(f, deltas[1..]);
      assert deltas[1..][..|deltas| - 2] == deltas[..|deltas| - 1][1..];
    } else {
      assert deltas[1..] == [] && deltas[..0] == [];
    }
  }

  /** What the deltas of a run used in all, suppressed ones included. */
  function SumOfAll(deltas: seq<StreamDelta>): ModelUsage {
    ModelUsage(Sum(InputOf, deltas), Sum(OutputOf, deltas),
               Sum(ReasoningOf, deltas), Sum(TotalOf, deltas), 0, 0, 0)
  }

  /** The running total is the sum over all deltas, count by count. */
  lemma {:induction false} TotalIsSum(deltas: seq<StreamDelta>)
    ensures TotalUsage(deltas) == SumOfAll(deltas)
    decreases |deltas|
  {
    if deltas != [] {
      hide Sum;
      TotalIsSum(deltas[..|deltas| - 1]);
      SumLast(InputOf, deltas);
      SumLast(OutputOf, deltas);
      SumLast(ReasoningOf, deltas);
      SumLast(TotalOf, deltas);
    }
  }

  /**
   The event is the run's own end: cancelled or failed as its error code or, without one, its status
   says, succeeded otherwise; with the content of a run without error, the public error of any
   other, and the usage of all deltas.
   */
  ghost predicate EndsRun(s: Setting, deltas: seq<StreamDelta>, r: RunResult, e: StreamEvent) {
    && e.runId == r.id && e.status == r.status && e.parts == [] && e.toolCall == None && e.finishReason == ""
    && (e.kind == "run_cancelled" <==>
          r.errorCode == Some("cancelled") || (r.errorCode == None && r.status == "cancelled"))
    && (e.kind == "run_succeeded" <==> r.errorCode == None && r.status != "cancelled" && r.status != "failed")
    && (e.kind == "run_cancelled" || e.kind == "run_succeeded" || e.kind == "run_failed")
    && (e.error.Some? <==> r.errorCode.Some? || r.status == "failed")
    && (r.errorCode.Some? ==> e.error == Some(s.errorBody(r.errorCode.value)) && e.text == "" && e.reasoning == "" && e.structuredOutput == "")
    && (r.errorCode.None? && r.status == "failed" ==> e.error == Some(s.errorBody("internal_error")))
    && (r.errorCode.None? ==> e.text == r.content && e.reasoning == r.reasoning && e.structuredOutput == r.structuredOutput)
    && ShowsUsage(SumOfAll(deltas), e.usage)
  }

  lemma {:induction false} EndTold(s: Setting, deltas: seq<StreamDelta>, r: RunResult)
    ensures EndsRun(s, deltas, r, TerminalEvent(s, r, TotalUsage(deltas)))
  {
    TotalIsSum(deltas);
    hide Sum, TotalUsage;
  }
}
