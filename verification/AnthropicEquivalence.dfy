/**
 Streaming and not streaming a message come to the same: what a consumer folds from the
 deltas of a well-formed stream is what the finished message maps to
 (anthropic/adapter.go).
 */
module AnthropicEquivalence {
  import opened Wrappers
  import opened AnthropicStream

  datatype ThinkingPart = Thought(text: string) | Signed(signature: string)

  /** A piece of a block of some other kind, such as a server tool's. */
  datatype OtherPart = Said(text: string) | Mused(text: string) | Wrote(json: string) | Sealed(signature: string)

  /** A content block as it is streamed: its kind and its pieces, any of which may be empty. */
  datatype Block =
    | TextBlock(pieces: seq<string>)
    | ToolBlock(id: string, name: string, json: seq<string>)
    | ThinkingBlock(parts: seq<ThinkingPart>)
    | RedactedBlock(data: string)
    | OtherBlock(others: seq<OtherPart>)

  datatype Placed = Placed(index: int, block: Block)

  function Opens(b: Block): Opening {
    match b
    case TextBlock(_) => TextOpens
    case ToolBlock(id, name, _) => ToolOpens(id, name)
    case ThinkingBlock(_) => ThinkingOpens
    case RedactedBlock(data) => RedactedOpens(data)
    case OtherBlock(_) => OtherOpens
  }

  function TextEvents(i: int, pieces: seq<string>): seq<Event> {
    if pieces == [] then [] else [BlockDelta(i, pieces[0], "", "", "")] + TextEvents(i, pieces[1..])
  }

  function JsonEvents(i: int, pieces: seq<string>): seq<Event> {
    if pieces == [] then [] else [BlockDelta(i, "", "", pieces[0], "")] + JsonEvents(i, pieces[1..])
  }

  function PartEvent(i: int, p: ThinkingPart): Event {
    match p
    case Thought(text) => BlockDelta(i, "", text, "", "")
    case Signed(signature) => BlockDelta(i, "", "", "", signature)
  }

  function PartEvents(i: int, parts: seq<ThinkingPart>): seq<Event> {
    if parts == [] then [] else [PartEvent(i, parts[0])] + PartEvents(i, parts[1..])
  }

  function OtherPartEvent(i: int, p: OtherPart): Event {
    match p
    case Said(text) => BlockDelta(i, text, "", "", "")
    case Mused(text) => BlockDelta(i, "", text, "", "")
    case Wrote(json) => BlockDelta(i, "", "", json, "")
    case Sealed(signature) => BlockDelta(i, "", "", "", signature)
  }

  function OtherEvents(i: int, parts: seq<OtherPart>): seq<Event> {
    if parts == [] then [] else [OtherPartEvent(i, parts[0])] + OtherEvents(i, parts[1..])
  }

  function Pieces(p: Placed): seq<Event> {
    match p.block
    case TextBlock(pieces) => TextEvents(p.index, pieces)
    case ToolBlock(_, _, json) => JsonEvents(p.index, json)
    case ThinkingBlock(parts) => PartEvents(p.index, parts)
    case RedactedBlock(_) => []
    case OtherBlock(others) => OtherEvents(p.index, others)
  }

  /** The bracketed events of one block. */
  function BlockEvents(p: Placed): seq<Event> {
    [BlockStart(p.index, Opens(p.block))] + (Pieces(p) + [BlockStop(p.index)])
  }

  function Events(blocks: seq<Placed>): seq<Event> {
    if blocks == [] then [] else Events(blocks[..|blocks| - 1]) + BlockEvents(blocks[|blocks| - 1])
  }

  predicate OfBlock(e: Event) { e.BlockStart? || e.BlockDelta? || e.BlockStop? }

  /** The block events of a stream, without the message-level events around and between them. */
  function Strip(events: seq<Event>): seq<Event> {
    if events == [] then []
    else (if OfBlock(events[0]) then [events[0]] else []) + Strip(events[1..])
  }

  // ----- The finished message -----

  function Concat(ss: seq<string>): string {
    if ss == [] then "" else ss[0] + Concat(ss[1..])
  }

  function ThoughtOf(p: ThinkingPart): string { if p.Thought? then p.text else "" }

  function Thoughts(parts: seq<ThinkingPart>): string {
    if parts == [] then "" else ThoughtOf(parts[0]) + Thoughts(parts[1..])
  }

  function SignatureOf(p: ThinkingPart): string { if p.Signed? then p.signature else "" }

  function Signature(parts: seq<ThinkingPart>): string {
    if parts == [] then "" else SignatureOf(parts[0]) + Signature(parts[1..])
  }

  datatype Finished =
    | FinishedText(text: string)
    | FinishedTool(id: string, name: string, input: string)
    | FinishedThinking(thinking: string, signature: string)
    | FinishedRedacted(data: string)
    | FinishedOther

  function FinishOne(b: Block): Finished {
    match b
    case TextBlock(pieces) => FinishedText(Concat(pieces))
    case ToolBlock(id, name, json) => FinishedTool(id, name, Arguments(Concat(json)))
    case ThinkingBlock(parts) => FinishedThinking(Thoughts(parts), Signature(parts))
    case RedactedBlock(data) => FinishedRedacted(data)
    case OtherBlock(_) => FinishedOther
  }

  function FinishAll(blocks: seq<Placed>): seq<Finished> {
    if blocks == [] then [] else FinishAll(blocks[..|blocks| - 1]) + [FinishOne(blocks[|blocks| - 1].block)]
  }

  /** What a message carries for the caller. */
  datatype Mapped = Mapped(text: string, reasoning: string, details: seq<Detail>, calls: seq<ToolCall>)

  function Plus(a: Mapped, b: Mapped): Mapped {
    Mapped(a.text + b.text, a.reasoning + b.reasoning, a.details + b.details, a.calls + b.calls)
  }

  const NOTHING := Mapped("", "", [], [])

  function FromBlock(b: Finished): Mapped {
    match b
    case FinishedText(text) => NOTHING.(text := text)
    case FinishedTool(id, name, input) => NOTHING.(calls := [ToolCall(id, name, input)])
    case FinishedThinking(thinking, signature) => NOTHING.(reasoning := thinking, details := [Thinking(thinking, signature)])
    case FinishedRedacted(data) => NOTHING.(details := [Redacted(data)])
    case FinishedOther => NOTHING
  }

  function Respond(blocks: seq<Finished>): Mapped {
    if blocks == [] then NOTHING else Plus(Respond(blocks[..|blocks| - 1]), FromBlock(blocks[|blocks| - 1]))
  }

  function ReasoningText(details: seq<Detail>): string {
    if details == [] then ""
    else
      var last := details[|details| - 1];
      ReasoningText(details[..|details| - 1]) + if last.Thinking? then last.thinking else ""
  }

  method JoinReasoning(details: seq<Detail>) returns (text: string)
    ensures text == ReasoningText(details)
  {
    text := "";
    for i := 0 to |details|
      invariant text == ReasoningText(details[..i])
    {
      assert details[..i + 1][..i] == details[..i];
      if details[i].Thinking? { text := text + details[i].thinking; }
    }
    assert details[..|details|] == details;
  }

  lemma RespondEmpty()
    ensures Respond([]) == NOTHING && ReasoningText([]) == ""
  {
  }

  lemma RespondStep(blocks: seq<Finished>, i: nat)
    requires i < |blocks|
    ensures Respond(blocks[..i + 1]) == Plus(Respond(blocks[..i]), FromBlock(blocks[i]))
  {
    assert blocks[..i + 1][..i] == blocks[..i];
  }

  lemma {:induction false} ReasoningStep(details: seq<Detail>, d: Detail)
    ensures ReasoningText(details + [d]) == ReasoningText(details) + if d.Thinking? then d.thinking else ""
  {
    assert (details + [d])[..|details|] == details;
  }

  /** The content loop of Model.response, with reasoningText over the collected details. */
  method MapMessage(blocks: seq<Finished>) returns (r: Mapped)
    ensures r == Respond(blocks)
  {
    hide Respond, ReasoningText;
    var text, details, calls := "", [], [];
    RespondEmpty();
    assert blocks[..0] == [];
    for i := 0 to |blocks|
      invariant Mapped(text, ReasoningText(details), details, calls) == Respond(blocks[..i])
    {
      RespondStep(blocks, i);
      match blocks[i] {
        case FinishedText(t) => text := text + t;
        case FinishedTool(id, name, input) => calls := calls + [ToolCall(id, name, input)];
        case FinishedThinking(thinking, signature) =>
          ReasoningStep(details, Thinking(thinking, signature));
          details := details + [Thinking(thinking, signature)];
        case FinishedRedacted(data) =>
          ReasoningStep(details, Redacted(data));
          details := details + [Redacted(data)];
        case FinishedOther =>
      }
    }
    assert blocks[..|blocks|] == blocks;
    var reasoning := JoinReasoning(details);
    r := Mapped(text, reasoning, details, calls);
  }

  // ----- The consumer of the stream -----

  function FromDelta(d: Delta): Mapped {
    match d
    case TextDelta(text) => NOTHING.(text := text)
    case ReasoningDelta(text) => NOTHING.(reasoning := text)
    case DetailDelta(detail) => NOTHING.(details := [detail])
    case ToolDelta(call) => NOTHING.(calls := [call])
    case TerminalDelta(_, _) => NOTHING
    case ErrorDelta(_) => NOTHING
  }

  /** Text, reasoning text, details and tool calls as they accumulate from the deltas. */
  function Fold(deltas: seq<Delta>): Mapped {
    if deltas == [] then NOTHING else Plus(Fold(deltas[..|deltas| - 1]), FromDelta(deltas[|deltas| - 1]))
  }

  function WorthOnly(details: seq<Detail>): seq<Detail> {
    if details == [] then []
    else
      var last := details[|details| - 1];
      WorthOnly(details[..|details| - 1]) + if Worth(last) then [last] else []
  }

  /** The text, or the reasoning text, in a block of some other kind. */
  function StrayOf(thought: bool, p: OtherPart): string {
    if (if thought then p.Mused? else p.Said?) then p.text else ""
  }

  function Strays(thought: bool, parts: seq<OtherPart>): string {
    if parts == [] then "" else StrayOf(thought, parts[0]) + Strays(thought, parts[1..])
  }

  function Stray(thought: bool, b: Block): string { if b.OtherBlock? then Strays(thought, b.others) else "" }

  predicate NoStray(thought: bool, blocks: seq<Placed>) {
    forall k :: 0 <= k < |blocks| ==> Stray(thought, blocks[k].block) == ""
  }

  // ----- What the assembler sends, block by block -----

  /** No block is open and nothing has failed. */
  predicate Rest(a: Assembler) {
    a.tools == map[] && a.thinking == map[] && a.signatures == map[] && a.redacted == map[] && !a.failed
  }

  function Send(a: Assembler, deltas: seq<Delta>): Assembler { a.(sent := a.sent + deltas) }

  function TextsSent(pieces: seq<string>): seq<Delta> {
    if pieces == [] then [] else TextSent(pieces[0]) + TextsSent(pieces[1..])
  }

  function PartSent(p: ThinkingPart): seq<Delta> { ThoughtSent(ThoughtOf(p)) }

  function PartsSent(parts: seq<ThinkingPart>): seq<Delta> {
    if parts == [] then [] else PartSent(parts[0]) + PartsSent(parts[1..])
  }

  function OtherPartSent(p: OtherPart): seq<Delta> { TextSent(StrayOf(false, p)) + ThoughtSent(StrayOf(true, p)) }

  function OthersSent(parts: seq<OtherPart>): seq<Delta> {
    if parts == [] then [] else OtherPartSent(parts[0]) + OthersSent(parts[1..])
  }

  function BlockSent(b: Block): seq<Delta> {
    match b
    case TextBlock(pieces) => TextsSent(pieces)
    case ToolBlock(id, name, json) => [ToolDelta(ToolCall(id, name, Arguments(Concat(json))))]
    case ThinkingBlock(parts) =>
      var d := Thinking(Thoughts(parts), Signature(parts));
      PartsSent(parts) + if Worth(d) then [DetailDelta(d)] else []
    case RedactedBlock(data) => [DetailDelta(Redacted(data))]
    case OtherBlock(others) => OthersSent(others)
  }

  function BlocksSent(blocks: seq<Placed>): seq<Delta> {
    if blocks == [] then [] else BlocksSent(blocks[..|blocks| - 1]) + BlockSent(blocks[|blocks| - 1].block)
  }

  /** The arguments of a tool block are JSON once its pieces are put together. */
  predicate Sound(valid: string -> bool, b: Block) {
    b.ToolBlock? ==> valid(Arguments(Concat(b.json)))
  }

  predicate AllSound(valid: string -> bool, blocks: seq<Placed>) {
    forall i :: 0 <= i < |blocks| ==> Sound(valid, blocks[i].block)
  }

  lemma {:induction false} RunAppend(valid: string -> bool, a: Assembler, xs: seq<Event>, ys: seq<Event>)
    ensures Run(valid, a, xs + ys) == Run(valid, Run(valid, a, xs), ys)
    decreases |xs|
  {
    hide Step;
    if xs == [] {
      assert xs + ys == ys;
    } else {
      assert (xs + ys)[1..] == xs[1..] + ys;
      RunAppend(valid, Step(valid, a, xs[0]), xs[1..], ys);
    }
  }

  lemma {:induction false} RunCons(valid: string -> bool, a: Assembler, e: Event, rest: seq<Event>)
    ensures Run(valid, a, [e] + rest) == Run(valid, Step(valid, a, e), rest)
  {
    hide Step;
    assert ([e] + rest)[1..] == rest;
  }

  lemma SendTwice(a: Assembler, xs: seq<Delta>, ys: seq<Delta>)
    ensures Send(Send(a, xs), ys) == Send(a, xs + ys)
    ensures Send(a, []) == a
  {
    assert a.sent + xs + ys == a.sent + (xs + ys);
    assert a.sent + [] == a.sent;
  }

  lemma TextStep(valid: string -> bool, a: Assembler, i: int, t: string)
    requires Rest(a)
    ensures Step(valid, a, BlockDelta(i, t, "", "", "")) == Send(a, TextSent(t))
  {
    assert a.sent + TextSent(t) + [] == a.sent + TextSent(t);
  }

  lemma {:induction false} RunText(valid: string -> bool, a: Assembler, i: int, pieces: seq<string>)
    requires Rest(a)
    ensures Run(valid, a, TextEvents(i, pieces)) == Send(a, TextsSent(pieces))
    decreases |pieces|
  {
    hide Step, TextSent;
    SendTwice(a, [], []);
    if pieces != [] {
      RunCons(valid, a, BlockDelta(i, pieces[0], "", "", ""), TextEvents(i, pieces[1..]));
      TextStep(valid, a, i, pieces[0]);
      hide Run;
      RunText(valid, Send(a, TextSent(pieces[0])), i, pieces[1..]);
      SendTwice(a, TextSent(pieces[0]), TextsSent(pieces[1..]));
      hide Send;
    }
  }

  /** A tool block is open at i. */
  function Calling(a: Assembler, i: int, call: ToolCall): Assembler { a.(tools := map[i := call]) }

  lemma JsonStep(valid: string -> bool, a: Assembler, i: int, call: ToolCall, piece: string)
    requires Rest(a)
    ensures Step(valid, Calling(a, i, call), BlockDelta(i, "", "", piece, ""))
         == Calling(a, i, call.(arguments := call.arguments + piece))
  {
    assert a.sent + [] + [] == a.sent;
  }

  lemma {:induction false} RunJson(valid: string -> bool, a: Assembler, i: int, call: ToolCall, pieces: seq<string>)
    requires Rest(a)
    ensures Run(valid, Calling(a, i, call), JsonEvents(i, pieces))
         == Calling(a, i, call.(arguments := call.arguments + Concat(pieces)))
    decreases |pieces|
  {
    hide Step;
    if pieces == [] {
      assert call.arguments + "" == call.arguments;
    } else {
      JsonStep(valid, a, i, call, pieces[0]);
      var next := call.(arguments := call.arguments + pieces[0]);
      RunJson(valid, a, i, next, pieces[1..]);
      assert next.arguments + Concat(pieces[1..]) == call.arguments + Concat(pieces);
    }
  }

  /** A thinking block is open at i. */
  function Pondering(a: Assembler, i: int, thought: string, signature: string): Assembler {
    a.(thinking := map[i := thought], signatures := if signature == "" then map[] else map[i := signature])
  }

  lemma PartStep(valid: string -> bool, a: Assembler, i: int, thought: string, signature: string, p: ThinkingPart)
    requires Rest(a)
    ensures Step(valid, Pondering(a, i, thought, signature), PartEvent(i, p))
         == Pondering(Send(a, PartSent(p)), i, thought + ThoughtOf(p), signature + SignatureOf(p))
  {
    assert a.sent + [] + PartSent(p) == a.sent + PartSent(p);
    assert thought + "" == thought && signature + "" == signature;
  }

  lemma Assoc(a: string, b: string, c: string)
    ensures a + b + c == a + (b + c)
  {
  }

  lemma {:induction false} RunParts(
      valid: string -> bool, a: Assembler, i: int, thought: string, signature: string, parts: seq<ThinkingPart>)
    requires Rest(a)
    ensures Run(valid, Pondering(a, i, thought, signature), PartEvents(i, parts))
         == Pondering(Send(a, PartsSent(parts)), i, thought + Thoughts(parts), signature + Signature(parts))
    decreases |parts|
  {
    hide Step, Pondering, PartEvent, PartSent, ThoughtOf, SignatureOf;
    SendTwice(a, [], []);
    if parts == [] {
      assert thought + "" == thought && signature + "" == signature;
    } else {
      var p := parts[0];
      RunCons(valid, Pondering(a, i, thought, signature), PartEvent(i, p), PartEvents(i, parts[1..]));
      PartStep(valid, a, i, thought, signature, p);
      hide Run;
      RunParts(valid, Send(a, PartSent(p)), i, thought + ThoughtOf(p), signature + SignatureOf(p), parts[1..]);
      SendTwice(a, PartSent(p), PartsSent(parts[1..]));
      Assoc(thought, ThoughtOf(p), Thoughts(parts[1..]));
      Assoc(signature, SignatureOf(p), Signature(parts[1..]));
    }
  }

  /** A block of some other kind is open at i: the assembler holds nothing of it but its signature. */
  function Sealing(a: Assembler, i: int, signature: string): Assembler {
    a.(signatures := if signature == "" then map[] else map[i := signature])
  }

  function SealOf(p: OtherPart): string { if p.Sealed? then p.signature else "" }

  function Seals(parts: seq<OtherPart>): string {
    if parts == [] then "" else SealOf(parts[0]) + Seals(parts[1..])
  }

  lemma OtherStep(valid: string -> bool, a: Assembler, i: int, signature: string, p: OtherPart)
    requires Rest(a)
    ensures Step(valid, Sealing(a, i, signature), OtherPartEvent(i, p)) == Sealing(Send(a, OtherPartSent(p)), i, signature + SealOf(p))
  {
    assert a.sent + TextSent(StrayOf(false, p)) + ThoughtSent(StrayOf(true, p)) == a.sent + OtherPartSent(p);
    assert signature + "" == signature;
  }

  lemma {:induction false} RunOthers(valid: string -> bool, a: Assembler, i: int, signature: string, parts: seq<OtherPart>)
    requires Rest(a)
    ensures Run(valid, Sealing(a, i, signature), OtherEvents(i, parts)) == Sealing(Send(a, OthersSent(parts)), i, signature + Seals(parts))
    decreases |parts|
  {
    hide Step, Sealing, OtherPartEvent, OtherPartSent, SealOf;
    SendTwice(a, [], []);
    if parts == [] {
      assert signature + "" == signature;
    } else {
      var p := parts[0];
      RunCons(valid, Sealing(a, i, signature), OtherPartEvent(i, p), OtherEvents(i, parts[1..]));
      OtherStep(valid, a, i, signature, p);
      hide Run;
      RunOthers(valid, Send(a, OtherPartSent(p)), i, signature + SealOf(p), parts[1..]);
      SendTwice(a, OtherPartSent(p), OthersSent(parts[1..]));
      Assoc(signature, SealOf(p), Seals(parts[1..]));
    }
  }

  /** A block run from rest sends its deltas and comes back to rest, or fails on its arguments. */
  ghost predicate RunsTo(valid: string -> bool, a: Assembler, p: Placed) {
    var r := Run(valid, a, BlockEvents(p));
    if Sound(valid, p.block) then r == Send(a, BlockSent(p.block)) else r.failed
  }

  lemma {:induction false} RunBlock(valid: string -> bool, a: Assembler, p: Placed)
    ensures Run(valid, a, BlockEvents(p))
         == Step(valid, Run(valid, Step(valid, a, BlockStart(p.index, Opens(p.block))), Pieces(p)), BlockStop(p.index))
  {
    hide Step, Pieces, Opens;
    var open := Step(valid, a, BlockStart(p.index, Opens(p.block)));
    assert BlockEvents(p)[1..] == Pieces(p) + [BlockStop(p.index)];
    RunAppend(valid, open, Pieces(p), [BlockStop(p.index)]);
    var full := Run(valid, open, Pieces(p));
    assert Run(valid, full, [BlockStop(p.index)]) == Run(valid, Step(valid, full, BlockStop(p.index)), []);
  }

  lemma RunTextBlock(valid: string -> bool, a: Assembler, p: Placed)
    requires Rest(a) && p.block.TextBlock?
    ensures RunsTo(valid, a, p)
  {
    RunBlock(valid, a, p);
    RunText(valid, a, p.index, p.block.pieces);
    var r := Send(a, TextsSent(p.block.pieces));
    assert r.sent + [] == r.sent;
    assert r.thinking - {p.index} == map[] && r.signatures - {p.index} == map[];
    assert Step(valid, r, BlockStop(p.index)) == r;
  }

  lemma RunToolBlock(valid: string -> bool, a: Assembler, p: Placed)
    requires Rest(a) && p.block.ToolBlock?
    ensures RunsTo(valid, a, p)
  {
    RunBlock(valid, a, p);
    var call := ToolCall(p.block.id, p.block.name, "");
    RunJson(valid, a, p.index, call, p.block.json);
    assert "" + Concat(p.block.json) == Concat(p.block.json);
    var full := Calling(a, p.index, call.(arguments := Concat(p.block.json)));
    assert full.tools - {p.index} == map[] && a.thinking - {p.index} == map[] && a.signatures - {p.index} == map[];
    var sent := a.sent + BlockSent(p.block);
    assert sent + [] == sent;
  }

  lemma RunThinkingBlock(valid: string -> bool, a: Assembler, p: Placed)
    requires Rest(a) && p.block.ThinkingBlock?
    ensures RunsTo(valid, a, p)
  {
    RunBlock(valid, a, p);
    var parts := p.block.parts;
    var open := Step(valid, a, BlockStart(p.index, ThinkingOpens));
    assert open == Pondering(a, p.index, "", "");
    RunParts(valid, a, p.index, "", "", parts);
    assert "" + Thoughts(parts) == Thoughts(parts) && "" + Signature(parts) == Signature(parts);
    CloseThought(valid, Send(a, PartsSent(parts)), p.index, Thoughts(parts), Signature(parts));
    var d := Thinking(Thoughts(parts), Signature(parts));
    var more := if Worth(d) then [DetailDelta(d)] else [];
    assert a.sent + PartsSent(parts) + more == a.sent + (PartsSent(parts) + more);
  }

  lemma CloseThought(valid: string -> bool, a: Assembler, i: int, thought: string, signature: string)
    requires Rest(a)
    ensures Step(valid, Pondering(a, i, thought, signature), BlockStop(i))
         == Send(a, if Worth(Thinking(thought, signature)) then [DetailDelta(Thinking(thought, signature))] else [])
  {
    var r := Pondering(a, i, thought, signature);
    assert Get(r.signatures, i) == signature;
    assert r.thinking - {i} == map[] && r.signatures - {i} == map[];
  }

  lemma RunRedactedBlock(valid: string -> bool, a: Assembler, p: Placed)
    requires Rest(a) && p.block.RedactedBlock?
    ensures RunsTo(valid, a, p)
  {
    RunBlock(valid, a, p);
    var full := Step(valid, a, BlockStart(p.index, RedactedOpens(p.block.data)));
    assert full.redacted - {p.index} == map[] && a.thinking - {p.index} == map[] && a.signatures - {p.index} == map[];
    assert a.sent + [] == a.sent;
  }

  lemma RunOtherBlock(valid: string -> bool, a: Assembler, p: Placed)
    requires Rest(a) && p.block.OtherBlock?
    ensures RunsTo(valid, a, p)
  {
    RunBlock(valid, a, p);
    assert Step(valid, a, BlockStart(p.index, OtherOpens)) == Sealing(a, p.index, "");
    RunOthers(valid, a, p.index, "", p.block.others);
    CloseOther(valid, Send(a, OthersSent(p.block.others)), p.index, "" + Seals(p.block.others));
  }

  lemma CloseOther(valid: string -> bool, a: Assembler, i: int, signature: string)
    requires Rest(a)
    ensures Step(valid, Sealing(a, i, signature), BlockStop(i)) == a
  {
    var r := Sealing(a, i, signature);
    assert r.thinking - {i} == map[] && r.signatures - {i} == map[];
    assert a.sent + [] == a.sent;
  }

  lemma RunAnyBlock(valid: string -> bool, a: Assembler, p: Placed)
    requires Rest(a)
    ensures RunsTo(valid, a, p)
  {
    hide RunsTo;
    match p.block
    case TextBlock(_) => RunTextBlock(valid, a, p);
    case ToolBlock(_, _, _) => RunToolBlock(valid, a, p);
    case ThinkingBlock(_) => RunThinkingBlock(valid, a, p);
    case RedactedBlock(_) => RunRedactedBlock(valid, a, p);
    case OtherBlock(_) => RunOtherBlock(valid, a, p);
  }

  lemma {:induction false} RunBlocks(valid: string -> bool, a: Assembler, blocks: seq<Placed>)
    requires Rest(a)
    ensures AllSound(valid, blocks) ==> Run(valid, a, Events(blocks)) == Send(a, BlocksSent(blocks))
    ensures !AllSound(valid, blocks) ==> Run(valid, a, Events(blocks)).failed
    decreases |blocks|
  {
    hide Step, BlockEvents, BlockSent;
    if blocks == [] {
      assert a.sent + [] == a.sent;
    } else {
      var n := |blocks| - 1;
      var before := Run(valid, a, Events(blocks[..n]));
      RunBlocks(valid, a, blocks[..n]);
      RunAppend(valid, a, Events(blocks[..n]), BlockEvents(blocks[n]));
      hide Run, Sound;
      if AllSound(valid, blocks[..n]) {
        RunAnyBlock(valid, before, blocks[n]);
        assert AllSound(valid, blocks) <==> Sound(valid, blocks[n].block);
        SendTwice(a, BlocksSent(blocks[..n]), BlockSent(blocks[n].block));
      } else {
        assert !AllSound(valid, blocks);
        FailedStays(valid, before, BlockEvents(blocks[n]));
      }
    }
  }

  // ----- Message-level events -----

  function Core(a: Assembler): Assembler { a.(finish := Stop, usage := ModelUsage(0, 0, 0, 0, 0, 0, 0)) }

  lemma CoreStep(valid: string -> bool, a: Assembler, e: Event)
    ensures Core(Step(valid, a, e)) == if OfBlock(e) then Step(valid, Core(a), e) else Core(a)
  {
    hide AddDelta, Close, Open, MapUsage, MapFinish;
    if e.BlockStart? { CoreOpen(a, e.index, e.block); }
    if e.BlockDelta? { CoreDelta(a, e); }
    if e.BlockStop? { CoreStop(valid, a, e.index); }
  }

  lemma CoreOpen(a: Assembler, i: int, b: Opening)
    ensures Core(Open(a, i, b)) == Open(Core(a), i, b)
  {
  }

  lemma CoreDelta(a: Assembler, e: Event)
    requires e.BlockDelta?
    ensures Core(AddDelta(a, e)) == AddDelta(Core(a), e)
  {
  }

  lemma CoreStop(valid: string -> bool, a: Assembler, i: int)
    ensures Core(Close(valid, a, i)) == Close(valid, Core(a), i)
  {
    hide CloseTool, CloseThinking, CloseRedacted;
    CoreTool(valid, a, i);
    var closed := CloseTool(valid, a, i);
    CoreThinking(closed, i);
    CoreRedacted(CloseThinking(closed, i), i);
  }

  lemma CoreTool(valid: string -> bool, a: Assembler, i: int)
    ensures Core(CloseTool(valid, a, i)) == CloseTool(valid, Core(a), i)
  {
  }

  lemma CoreThinking(a: Assembler, i: int)
    ensures Core(CloseThinking(a, i)) == CloseThinking(Core(a), i)
  {
  }

  lemma CoreRedacted(a: Assembler, i: int)
    ensures Core(CloseRedacted(a, i)) == CloseRedacted(Core(a), i)
  {
  }

  lemma {:induction false} RunStrip(valid: string -> bool, a: Assembler, events: seq<Event>)
    ensures Core(Run(valid, a, events)) == Run(valid, Core(a), Strip(events))
    decreases |events|
  {
    hide Step, Core;
    if events != [] {
      var e := events[0];
      CoreStep(valid, a, e);
      RunStrip(valid, Step(valid, a, e), events[1..]);
      if OfBlock(e) {
        assert Strip(events)[1..] == Strip(events[1..]);
      } else {
        assert Strip(events) == Strip(events[1..]);
      }
    }
  }

  // ----- Folding -----

  /** A message as a stream consumer can know it: empty, unsigned thinking blocks leave no detail. */
  function Kept(r: Mapped): Mapped { r.(details := WorthOnly(r.details)) }

  lemma {:induction false} FoldStep(xs: seq<Delta>, d: Delta)
    ensures Fold(xs + [d]) == Plus(Fold(xs), FromDelta(d))
  {
    assert (xs + [d])[..|xs|] == xs;
  }

  lemma {:induction false} FoldAppend(xs: seq<Delta>, ys: seq<Delta>)
    ensures Fold(xs + ys) == Plus(Fold(xs), Fold(ys))
    decreases |ys|
  {
    hide FromDelta;
    if ys == [] {
      assert xs + ys == xs;
    } else {
      var n := |ys| - 1;
      FoldAppend(xs, ys[..n]);
      assert xs + ys == (xs + ys[..n]) + [ys[n]];
      FoldStep(xs + ys[..n], ys[n]);
      PlusAssoc(Fold(xs), Fold(ys[..n]), FromDelta(ys[n]));
    }
  }

  lemma PlusAssoc(a: Mapped, b: Mapped, c: Mapped)
    ensures Plus(Plus(a, b), c) == Plus(a, Plus(b, c))
  {
    assert a.text + b.text + c.text == a.text + (b.text + c.text);
    assert a.reasoning + b.reasoning + c.reasoning == a.reasoning + (b.reasoning + c.reasoning);
    assert a.details + b.details + c.details == a.details + (b.details + c.details);
    assert a.calls + b.calls + c.calls == a.calls + (b.calls + c.calls);
  }

  lemma FoldOne(d: Delta)
    ensures Fold([d]) == FromDelta(d)
  {
    assert [d] == [] + [d];
    FoldStep([], d);
  }

  lemma {:induction false} FoldTexts(pieces: seq<string>)
    ensures Fold(TextsSent(pieces)) == NOTHING.(text := Concat(pieces))
    decreases |pieces|
  {
    if pieces != [] {
      FoldTexts(pieces[1..]);
      FoldAppend(TextSent(pieces[0]), TextsSent(pieces[1..]));
      if pieces[0] != "" { FoldOne(TextDelta(pieces[0])); }
    }
  }

  lemma {:induction false} FoldParts(parts: seq<ThinkingPart>)
    ensures Fold(PartsSent(parts)) == NOTHING.(reasoning := Thoughts(parts))
    decreases |parts|
  {
    if parts != [] {
      FoldParts(parts[1..]);
      FoldAppend(PartSent(parts[0]), PartsSent(parts[1..]));
      if ThoughtOf(parts[0]) != "" { FoldOne(ReasoningDelta(ThoughtOf(parts[0]))); }
    }
  }

  lemma {:induction false} WorthStep(details: seq<Detail>, d: Detail)
    ensures WorthOnly(details + [d]) == WorthOnly(details) + if Worth(d) then [d] else []
  {
    assert (details + [d])[..|details|] == details;
  }

  lemma FoldThinking(parts: seq<ThinkingPart>)
    ensures Fold(BlockSent(ThinkingBlock(parts))) == Kept(FromBlock(FinishOne(ThinkingBlock(parts))))
  {
    hide Fold, PartsSent, Thoughts, Signature;
    var d := Thinking(Thoughts(parts), Signature(parts));
    FoldParts(parts);
    WorthStep([], d);
    assert [] + [d] == [d];
    if Worth(d) {
      FoldAppend(PartsSent(parts), [DetailDelta(d)]);
      FoldOne(DetailDelta(d));
    } else {
      assert PartsSent(parts) + [] == PartsSent(parts);
    }
  }

  lemma FoldStray(p: OtherPart)
    ensures Fold(OtherPartSent(p)) == NOTHING.(text := StrayOf(false, p), reasoning := StrayOf(true, p))
  {
    if StrayOf(false, p) != "" { FoldOne(TextDelta(StrayOf(false, p))); }
    if StrayOf(true, p) != "" { FoldOne(ReasoningDelta(StrayOf(true, p))); }
    assert Fold([]) == NOTHING;
    hide Fold;
    FoldAppend(TextSent(StrayOf(false, p)), ThoughtSent(StrayOf(true, p)));
  }

  lemma {:induction false} FoldOthers(parts: seq<OtherPart>)
    ensures Fold(OthersSent(parts)) == NOTHING.(text := Strays(false, parts), reasoning := Strays(true, parts))
    decreases |parts|
  {
    if parts != [] {
      hide Fold, OtherPartSent, StrayOf;
      FoldOthers(parts[1..]);
      FoldAppend(OtherPartSent(parts[0]), OthersSent(parts[1..]));
      FoldStray(parts[0]);
    }
  }

  /** What a stream lets its consumer know of one block. */
  function Heard(b: Block): Mapped {
    if b.OtherBlock? then NOTHING.(text := Stray(false, b), reasoning := Stray(true, b)) else Kept(FromBlock(FinishOne(b)))
  }

  function HeardAll(blocks: seq<Placed>): Mapped {
    if blocks == [] then NOTHING else Plus(HeardAll(blocks[..|blocks| - 1]), Heard(blocks[|blocks| - 1].block))
  }

  lemma FoldCall(id: string, name: string, json: seq<string>)
    ensures Fold(BlockSent(ToolBlock(id, name, json))) == Heard(ToolBlock(id, name, json))
  {
    hide Fold, Concat;
    FoldOne(BlockSent(ToolBlock(id, name, json))[0]);
  }

  lemma FoldRedacted(data: string)
    ensures Fold(BlockSent(RedactedBlock(data))) == Heard(RedactedBlock(data))
  {
    hide Fold;
    FoldOne(DetailDelta(Redacted(data)));
    WorthStep([], Redacted(data));
    assert [] + [Redacted(data)] == [Redacted(data)];
  }

  lemma FoldBlock(b: Block)
    ensures Fold(BlockSent(b)) == Heard(b)
  {
    hide Fold, TextsSent, Concat, PartsSent, Thoughts, Signature, OthersSent, Strays;
    match b
    case TextBlock(pieces) =>
      FoldTexts(pieces);
      KeptText(Concat(pieces));
      hide Kept;
    case ToolBlock(id, name, json) => FoldCall(id, name, json); hide Heard, BlockSent;
    case RedactedBlock(data) => FoldRedacted(data); hide Heard, BlockSent;
    case ThinkingBlock(parts) => FoldThinking(parts); hide Kept, BlockSent;
    case OtherBlock(others) => FoldOthers(others); hide Kept;
  }

  lemma KeptText(text: string)
    ensures Kept(NOTHING.(text := text)) == NOTHING.(text := text)
  {
  }

  lemma {:induction false} WorthAppend(details: seq<Detail>, more: seq<Detail>)
    requires |more| <= 1
    ensures WorthOnly(details + more) == WorthOnly(details) + WorthOnly(more)
  {
    hide Worth;
    if more == [] {
      assert details + more == details;
    } else {
      assert more == [more[0]] && [] + more == more;
      WorthStep(details, more[0]);
      WorthStep([], more[0]);
    }
  }

  lemma KeptPlus(a: Mapped, b: Finished)
    ensures Kept(Plus(a, FromBlock(b))) == Plus(Kept(a), Kept(FromBlock(b)))
  {
    hide WorthOnly;
    var r := FromBlock(b);
    assert |r.details| <= 1;
    hide FromBlock;
    WorthAppend(a.details, r.details);
  }

  lemma {:induction false} RespondLast(blocks: seq<Placed>)
    requires blocks != []
    ensures Respond(FinishAll(blocks))
         == Plus(Respond(FinishAll(blocks[..|blocks| - 1])), FromBlock(FinishOne(blocks[|blocks| - 1].block)))
  {
    hide FinishOne, FromBlock, Plus;
    var n := |blocks| - 1;
    Finishes(blocks[..n]);
    assert FinishAll(blocks)[..n] == FinishAll(blocks[..n]);
  }

  lemma {:induction false} FoldBlocks(blocks: seq<Placed>)
    ensures Fold(BlocksSent(blocks)) == HeardAll(blocks)
    decreases |blocks|
  {
    if blocks != [] {
      hide BlockSent, Heard, Plus, Fold;
      var n := |blocks| - 1;
      FoldBlocks(blocks[..n]);
      FoldAppend(BlocksSent(blocks[..n]), BlockSent(blocks[n].block));
      FoldBlock(blocks[n].block);
    }
  }

  function Spoken(thought: bool, m: Mapped): string { if thought then m.reasoning else m.text }

  /** The part of a message that is neither text nor reasoning text. */
  function Quiet(m: Mapped): Mapped { m.(text := "", reasoning := "") }

  /** A stream lets its consumer know the calls and the details of a message, and its text with the strays among it. */
  lemma {:induction false} HeardQuiet(blocks: seq<Placed>)
    ensures Quiet(HeardAll(blocks)) == Quiet(Kept(Respond(FinishAll(blocks))))
    decreases |blocks|
  {
    if blocks == [] {
      KeptNothing();
    } else {
      var n := |blocks| - 1;
      HeardQuiet(blocks[..n]);
      RespondLast(blocks);
      KeptPlus(Respond(FinishAll(blocks[..n])), FinishOne(blocks[n].block));
      HeardOne(false, blocks[n].block);
      hide Respond, FinishAll, Kept, Heard, FinishOne, FromBlock;
    }
  }

  lemma HeardOne(thought: bool, b: Block)
    ensures Quiet(Heard(b)) == Quiet(Kept(FromBlock(FinishOne(b))))
    ensures Stray(thought, b) == "" ==> Spoken(thought, Heard(b)) == Spoken(thought, FromBlock(FinishOne(b)))
    ensures Stray(thought, b) != "" ==> |Spoken(thought, Heard(b))| > |Spoken(thought, FromBlock(FinishOne(b)))|
  {
  }

  lemma SpokenPlus(thought: bool, a: Mapped, b: Mapped)
    ensures Spoken(thought, Plus(a, b)) == Spoken(thought, a) + Spoken(thought, b)
  {
  }

  /** The last block of a message and of what is heard of it. */
  lemma {:induction false} SpokenLast(thought: bool, blocks: seq<Placed>)
    requires blocks != []
    ensures var n := |blocks| - 1;
            && Spoken(thought, HeardAll(blocks)) == Spoken(thought, HeardAll(blocks[..n])) + Spoken(thought, Heard(blocks[n].block))
            && Spoken(thought, Respond(FinishAll(blocks)))
            == Spoken(thought, Respond(FinishAll(blocks[..n]))) + Spoken(thought, FromBlock(FinishOne(blocks[n].block)))
  {
    hide Respond, FinishAll, Heard, FinishOne, FromBlock, Spoken, Plus;
    var n := |blocks| - 1;
    RespondLast(blocks);
    SpokenPlus(thought, HeardAll(blocks[..n]), Heard(blocks[n].block));
    SpokenPlus(thought, Respond(FinishAll(blocks[..n])), FromBlock(FinishOne(blocks[n].block)));
  }

  lemma NoStrayLast(thought: bool, blocks: seq<Placed>)
    requires blocks != []
    ensures var n := |blocks| - 1; NoStray(thought, blocks) <==> NoStray(thought, blocks[..n]) && Stray(thought, blocks[n].block) == ""
  {
    hide Stray;
  }

  /** It knows the text exactly if there is no stray text. */
  lemma {:induction false} HeardSpoken(thought: bool, blocks: seq<Placed>)
    ensures |Spoken(thought, HeardAll(blocks))| >= |Spoken(thought, Respond(FinishAll(blocks)))|
    ensures |Spoken(thought, HeardAll(blocks))| == |Spoken(thought, Respond(FinishAll(blocks)))| <==> NoStray(thought, blocks)
    ensures Spoken(thought, HeardAll(blocks)) == Spoken(thought, Respond(FinishAll(blocks))) <==> NoStray(thought, blocks)
    decreases |blocks|
  {
    if blocks != [] {
      hide Respond, FinishAll, HeardAll, Heard, FinishOne, FromBlock, Spoken, Stray, NoStray;
      HeardSpoken(thought, blocks[..|blocks| - 1]);
      SpokenLast(thought, blocks);
      HeardOne(thought, blocks[|blocks| - 1].block);
      NoStrayLast(thought, blocks);
    }
  }

  /** What a stream lets its consumer know is the message as far as a stream can, exactly if there is no stray text. */
  lemma {:induction false} HeardIsKept(blocks: seq<Placed>)
    ensures HeardAll(blocks) == Kept(Respond(FinishAll(blocks))) <==> NoStray(false, blocks) && NoStray(true, blocks)
  {
    hide HeardAll, Respond, FinishAll, NoStray, WorthOnly;
    HeardQuiet(blocks);
    HeardSpoken(false, blocks);
    HeardSpoken(true, blocks);
  }

  lemma KeptNothing()
    ensures Kept(NOTHING) == NOTHING
  {
  }

  lemma {:induction false} Finishes(blocks: seq<Placed>)
    ensures |FinishAll(blocks)| == |blocks|
    ensures forall i :: 0 <= i < |blocks| ==> FinishAll(blocks)[i] == FinishOne(blocks[i].block)
    decreases |blocks|
  {
    if blocks != [] { Finishes(blocks[..|blocks| - 1]); }
  }

  predicate AllWorth(details: seq<Detail>) {
    forall i :: 0 <= i < |details| ==> Worth(details[i])
  }

  lemma {:induction false} WorthIffSame(details: seq<Detail>)
    ensures |WorthOnly(details)| <= |details|
    ensures WorthOnly(details) == details <==> AllWorth(details)
    decreases |details|
  {
    hide Worth;
    if details != [] {
      var n := |details| - 1;
      WorthIffSame(details[..n]);
      if WorthOnly(details) == details {
        assert |WorthOnly(details[..n])| == n;
        assert details[..n] == WorthOnly(details)[..n] == WorthOnly(details[..n]);
      }
    }
  }

  lemma {:induction false} StreamSent(valid: string -> bool, events: seq<Event>, blocks: seq<Placed>)
    requires Strip(events) == Events(blocks)
    ensures Run(valid, Fresh(), events).failed <==> !AllSound(valid, blocks)
    ensures AllSound(valid, blocks) ==> Run(valid, Fresh(), events).sent == BlocksSent(blocks)
  {
    hide Run, BlocksSent, Strip, Events, AllSound;
    RunStrip(valid, Fresh(), events);
    RunBlocks(valid, Fresh(), blocks);
    assert [] + BlocksSent(blocks) == BlocksSent(blocks);
  }

  // ----- Usage and finish reason -----

  /** The counts a message started with, whatever the output counts have become. */
  predicate From(x: ModelUsage, u: ClaudeUsage) {
    x == MapUsage(u.(output := x.output, thinking := x.reasoning))
  }

  lemma StepUsage(valid: string -> bool, a: Assembler, e: Event, u: ClaudeUsage)
    ensures From(a.usage, u) && !e.MessageStart? ==> From(Step(valid, a, e).usage, u)
    ensures !e.MessageStart? && !e.MessageDelta?
        ==> Step(valid, a, e).usage == a.usage && Step(valid, a, e).finish == a.finish
  {
    hide AddDelta, Close, Open;
    if e.BlockDelta? { DeltaKeeps(a, e); }
    if e.BlockStop? { StopKeeps(valid, a, e.index); }
    if e.BlockStart? { OpenKeeps(a, e.index, e.block); }
  }

  lemma OpenKeeps(a: Assembler, i: int, b: Opening)
    ensures Open(a, i, b).usage == a.usage && Open(a, i, b).finish == a.finish
  {
  }

  lemma DeltaKeeps(a: Assembler, e: Event)
    requires e.BlockDelta?
    ensures AddDelta(a, e).usage == a.usage && AddDelta(a, e).finish == a.finish
  {
  }

  lemma StopKeeps(valid: string -> bool, a: Assembler, i: int)
    ensures Close(valid, a, i).usage == a.usage && Close(valid, a, i).finish == a.finish
  {
  }

  lemma {:induction false} RunUsage(valid: string -> bool, a: Assembler, events: seq<Event>, u: ClaudeUsage)
    requires forall e <- events :: !e.MessageStart?
    ensures From(a.usage, u) ==> From(Run(valid, a, events).usage, u)
    ensures (forall e <- events :: !e.MessageDelta?)
        ==> Run(valid, a, events).usage == a.usage && Run(valid, a, events).finish == a.finish
    decreases |events|
  {
    hide Step, From;
    if events != [] {
      StepUsage(valid, a, events[0], u);
      RunUsage(valid, Step(valid, a, events[0]), events[1..], u);
    }
  }

  lemma MessageSteps(valid: string -> bool, a: Assembler, e: Event, u: ClaudeUsage)
    requires !a.failed
    ensures e.MessageStart? ==> From(Step(valid, a, e).usage, e.usage)
    ensures e.MessageDelta? && From(a.usage, u)
        ==> Step(valid, a, e).usage == MapUsage(u.(output := e.outputTokens, thinking := e.thinkingTokens))
    ensures e.MessageDelta? ==> Step(valid, a, e).finish == MapFinish(e.stopReason)
  {
  }

  /** The finish reason for a stop reason. */
  predicate FinishFor(reason: string, finish: Finish) {
    && (finish == ToolCalls <==> reason == "tool_use")
    && (finish == Length <==> reason == "max_tokens" || reason == "model_context_window_exceeded")
    && (finish == Content <==> reason == "refusal")
  }

  /** The counts of a message with these output and thinking tokens; the total leaves the thinking, a part of the output, out. */
  predicate CountsOf(u: ClaudeUsage, output: int, thinking: int, x: ModelUsage) {
    && x.input == u.input && x.output == output && x.reasoning == thinking
    && x.cacheRead == u.cacheRead && x.cacheWrite == u.cacheWrite && x.cacheWrite1h == u.cacheWrite1h
    && x.total == u.input + output + u.cacheRead + u.cacheWrite
  }

  lemma MappedSays(reason: string, u: ClaudeUsage)
    ensures FinishFor(reason, MapFinish(reason)) && CountsOf(u, u.output, u.thinking, MapUsage(u))
  {
  }

  /**
   The terminal delta of a stream that does not fail carries what mapping the finished message
   would: the counts of its last message_start with the output counts of its last message_delta,
   and the finish reason for the stop reason of that delta.
   */
  lemma {:induction false} TerminalAgrees(
      valid: string -> bool, before: seq<Event>, u: ClaudeUsage, during: seq<Event>, last: Event, after: seq<Event>)
    requires last.MessageDelta?
    requires forall e <- during :: !e.MessageStart?
    requires forall e <- after :: !e.MessageStart? && !e.MessageDelta?
    ensures var a := Run(valid, Fresh(), before + ([MessageStart(u)] + (during + ([last] + after))));
            a.failed || (a.finish == MapFinish(last.stopReason)
                         && a.usage == MapUsage(u.(output := last.outputTokens, thinking := last.thinkingTokens))
                         && FinishFor(last.stopReason, a.finish)
                         && CountsOf(u, last.outputTokens, last.thinkingTokens, a.usage))
  {
    hide Step, From, MapUsage, MapFinish, FinishFor;
    MappedSays(last.stopReason, u.(output := last.outputTokens, thinking := last.thinkingTokens));
    var a := Run(valid, Fresh(), before);
    var b := Step(valid, a, MessageStart(u));
    var c := Run(valid, b, during);
    var d := Step(valid, c, last);
    RunAppend(valid, Fresh(), before, [MessageStart(u)] + (during + ([last] + after)));
    RunCons(valid, a, MessageStart(u), during + ([last] + after));
    RunAppend(valid, b, during, [last] + after);
    RunCons(valid, c, last, after);
    hide Run;
    var end := Run(valid, d, after);
    FailedThrough(valid, a, MessageStart(u), during, last, after);
    if !end.failed {
      MessageSteps(valid, a, MessageStart(u), u);
      RunUsage(valid, b, during, u);
      MessageSteps(valid, c, last, u);
      RunUsage(valid, d, after, u);
    }
  }

  lemma {:induction false} FailedThrough(valid: string -> bool, a: Assembler, e: Event, during: seq<Event>, f: Event, after: seq<Event>)
    ensures var c := Run(valid, Step(valid, a, e), during);
            a.failed || c.failed ==> Run(valid, Step(valid, c, f), after).failed
  {
    hide AddDelta, Close, Open, MapUsage, MapFinish;
    var b := Step(valid, a, e);
    FailedStays(valid, b, during);
    var c := Run(valid, b, during);
    FailedStays(valid, Step(valid, c, f), after);
  }

  /**
   A stream that has one block open at a time, against not streaming. Take any stream whose block
   events are those of `blocks`, one after the other and at any indexes, with any message-level
   events around and between them. It fails exactly when the pieces of some tool call do not make
   JSON. Otherwise the deltas fold to the text, the reasoning text, the details and the tool calls
   of the finished message, in order, except that a thinking block with neither text nor signature
   leaves no detail, exactly if no block of some other kind carries text or reasoning text.
   */
  lemma {:induction false} SequentialAgrees(valid: string -> bool, events: seq<Event>, blocks: seq<Placed>)
    requires Strip(events) == Events(blocks)
    ensures Run(valid, Fresh(), events).failed <==> !AllSound(valid, blocks)
    ensures AllSound(valid, blocks) ==> Quiet(Fold(Sent(valid, events))) == Quiet(Kept(Respond(FinishAll(blocks))))
    ensures AllSound(valid, blocks) ==>
              (Fold(Sent(valid, events)) == Kept(Respond(FinishAll(blocks))) <==> NoStray(false, blocks) && NoStray(true, blocks))
  {
    hide Fold, Respond, FinishAll, Run, BlocksSent, Kept, Plus, HeardAll, NoStray, Quiet;
    StreamSent(valid, events, blocks);
    var a := Run(valid, Fresh(), events);
    if AllSound(valid, blocks) {
      FoldBlocks(blocks);
      HeardQuiet(blocks);
      HeardIsKept(blocks);
      FoldEnd(valid, events);
    }
  }

  lemma PlusNothing(r: Mapped)
    ensures Plus(r, NOTHING) == r
  {
  }

  /** A stream can know the whole message exactly when every thinking block has text or a signature. */
  lemma {:induction false} KeptWhole(blocks: seq<Placed>)
    ensures Kept(Respond(FinishAll(blocks))) == Respond(FinishAll(blocks))
       <==> forall i :: 0 <= i < |blocks| ==> !Empty(FinishOne(blocks[i].block))
  {
    hide Respond, FinishAll, Empty, FinishOne, AllWorth;
    WorthIffSame(Respond(FinishAll(blocks)).details);
    DetailsWorth(FinishAll(blocks));
    Finishes(blocks);
  }

  /**
   The whole message agrees exactly when every thinking block has text or a signature, and no block
   of some other kind carries text or reasoning text.
   */
  lemma {:induction false} DetailsAgree(valid: string -> bool, events: seq<Event>, blocks: seq<Placed>)
    requires Strip(events) == Events(blocks) && AllSound(valid, blocks)
    ensures Fold(Sent(valid, events)) == Respond(FinishAll(blocks))
       <==> && (forall i :: 0 <= i < |blocks| ==> !Empty(FinishOne(blocks[i].block)))
            && NoStray(false, blocks) && NoStray(true, blocks)
  {
    hide Fold, Respond, FinishAll, Run, Events, Strip, Empty, FinishOne, NoStray, WorthOnly, HeardAll, BlocksSent;
    StreamSent(valid, events, blocks);
    FoldBlocks(blocks);
    FoldEnd(valid, events);
    HeardQuiet(blocks);
    HeardSpoken(false, blocks);
    HeardSpoken(true, blocks);
    KeptWhole(blocks);
  }

  /** The terminal delta adds nothing. */
  lemma {:induction false} FoldEnd(valid: string -> bool, events: seq<Event>)
    ensures Fold(Sent(valid, events)) == Fold(Run(valid, Fresh(), events).sent)
  {
    hide Fold, Run, Plus;
    var a := Run(valid, Fresh(), events);
    FoldStep(a.sent, TerminalDelta(a.finish, a.usage));
    PlusNothing(Fold(a.sent));
  }

  predicate Empty(b: Finished) { b == FinishedThinking("", "") }

  lemma {:induction false} DetailsWorth(blocks: seq<Finished>)
    ensures AllWorth(Respond(blocks).details) <==> forall i :: 0 <= i < |blocks| ==> !Empty(blocks[i])
    decreases |blocks|
  {
    hide Empty;
    if blocks != [] {
      var n := |blocks| - 1;
      DetailsWorth(blocks[..n]);
      var was, more := Respond(blocks[..n]).details, FromBlock(blocks[n]).details;
      OneWorth(blocks[n]);
      hide FromBlock;
      AllWorthAppend(was, more);
      hide AllWorth;
      assert Respond(blocks).details == was + more;
    }
  }

  lemma OneWorth(b: Finished)
    ensures AllWorth(FromBlock(b).details) <==> !Empty(b)
  {
    var more := FromBlock(b).details;
    if more != [] { assert Worth(more[0]) <==> !Empty(b); }
  }

  lemma AllWorthAppend(xs: seq<Detail>, ys: seq<Detail>)
    ensures AllWorth(xs + ys) <==> AllWorth(xs) && AllWorth(ys)
  {
    hide Worth;
    assert forall i :: 0 <= i < |xs| ==> (xs + ys)[i] == xs[i];
    assert forall i :: 0 <= i < |ys| ==> (xs + ys)[|xs| + i] == ys[i];
  }

  /** One thinking block with nothing in it: the finished message has a detail, the stream has none. */
  lemma EmptyThinkingLost(valid: string -> bool, i: int)
    ensures var blocks := [Placed(i, ThinkingBlock([]))];
            Strip(Events(blocks)) == Events(blocks) && Fold(Sent(valid, Events(blocks))) != Respond(FinishAll(blocks))
  {
    hide Fold, Respond, FinishAll, Sent;
    var blocks := [Placed(i, ThinkingBlock([]))];
    assert Events(blocks) == [BlockStart(i, ThinkingOpens), BlockStop(i)] by {
      assert blocks[..0] == [];
    }
    var events := [BlockStart(i, ThinkingOpens), BlockStop(i)];
    assert events[1..] == [BlockStop(i)] && events[1..][1..] == [];
    assert Strip([BlockStop(i)]) == [BlockStop(i)] + Strip([]);
    assert Strip(events) == [events[0]] + Strip(events[1..]);
    DetailsAgree(valid, events, blocks);
    assert Empty(FinishOne(blocks[0].block));
  }

  lemma {:induction false} StripCons(e: Event, rest: seq<Event>)
    ensures Strip([e] + rest) == (if OfBlock(e) then [e] else []) + Strip(rest)
  {
    assert ([e] + rest)[1..] == rest;
  }

  lemma {:induction false} StripOther(i: int, text: string)
    ensures var b := Placed(i, OtherBlock([Said(text)])); Strip(BlockEvents(b)) == BlockEvents(b)
  {
    hide Strip;
    var b := Placed(i, OtherBlock([Said(text)]));
    var said, end := BlockDelta(i, text, "", "", ""), BlockStop(i);
    assert Pieces(b) == [said] by {
      assert [Said(text)][1..] == [];
      assert OtherEvents(i, [Said(text)]) == [said] + OtherEvents(i, []);
    }
    assert BlockEvents(b) == [BlockStart(i, OtherOpens)] + ([said] + ([end] + []));
    StripCons(BlockStart(i, OtherOpens), [said] + ([end] + []));
    StripCons(said, [end] + []);
    StripCons(end, []);
    assert Strip([]) == [] by { StripNone(); }
  }

  lemma StripNone()
    ensures Strip([]) == []
  {
  }

  lemma {:induction false} OneEvents(p: Placed)
    ensures Events([p]) == BlockEvents(p) && HeardAll([p]) == Plus(NOTHING, Heard(p.block))
    ensures Respond(FinishAll([p])) == Plus(NOTHING, FromBlock(FinishOne(p.block)))
  {
    hide BlockEvents, Heard, Plus, FromBlock, FinishOne;
    assert [p][..0] == [] && [] + BlockEvents(p) == BlockEvents(p);
    RespondLast([p]);
  }

  /** A block of some other kind that carries text: the stream says it, the finished message does not. */
  lemma StrayTextStreams(valid: string -> bool, i: int, text: string)
    requires text != ""
    ensures var blocks := [Placed(i, OtherBlock([Said(text)]))];
            && Strip(Events(blocks)) == Events(blocks) && AllSound(valid, blocks)
            && Fold(Sent(valid, Events(blocks))).text == text && Respond(FinishAll(blocks)).text == ""
  {
    hide Fold, Sent, Run, Strip, Events, HeardAll, Respond, FinishAll, BlocksSent, BlockEvents;
    var b := OtherBlock([Said(text)]);
    var blocks := [Placed(i, b)];
    StripOther(i, text);
    OneEvents(blocks[0]);
    StreamSent(valid, Events(blocks), blocks);
    FoldEnd(valid, Events(blocks));
    FoldBlocks(blocks);
    assert [Said(text)][1..] == [];
    assert Strays(false, [Said(text)]) == text + "";
  }
}
