/**
 What a finished message maps to, block by block, and how every stream ends (anthropic/adapter.go).
 */
module AnthropicMeaning {
  import opened Wrappers
  import opened AnthropicStream
  import opened AnthropicEquivalence

  // ----- The finished message -----

  function SaidBy(thought: bool, b: Finished): string {
    if thought then (if b.FinishedThinking? then b.thinking else "") else if b.FinishedText? then b.text else ""
  }

  /** The texts of the text blocks, or of the thinking blocks, from first to last. */
  function Said(thought: bool, blocks: seq<Finished>): string {
    if blocks == [] then "" else SaidBy(thought, blocks[0]) + Said(thought, blocks[1..])
  }

  predicate Calls(b: Finished) { b.FinishedTool? }

  predicate Notes(b: Finished) { b.FinishedThinking? || b.FinishedRedacted? }

  /** The blocks of one sort, in order. */
  function Select(p: Finished -> bool, blocks: seq<Finished>): seq<Finished> {
    if blocks == [] then []
    else Select(p, blocks[..|blocks| - 1]) + if p(blocks[|blocks| - 1]) then [blocks[|blocks| - 1]] else []
  }

  /** The detail tells of the block: its thinking and signature, or its redacted data. */
  predicate DetailOf(b: Finished, d: Detail) {
    match b
    case FinishedThinking(thinking, signature) => d.Thinking? && d.thinking == thinking && d.signature == signature
    case FinishedRedacted(data) => d.Redacted? && d.data == data
    case _ => false
  }

  predicate CallOf(b: Finished, c: ToolCall) {
    b.FinishedTool? && c.id == b.id && c.toolId == b.name && c.arguments == b.input
  }

  lemma {:induction false} SaidLast(thought: bool, blocks: seq<Finished>)
    requires blocks != []
    ensures Said(thought, blocks) == Said(thought, blocks[..|blocks| - 1]) + SaidBy(thought, blocks[|blocks| - 1])
    decreases |blocks|
  {
    hide SaidBy;
    if |blocks| > 1 {
      SaidLast(thought, blocks[1..]);
      assert blocks[1..][..|blocks| - 2] == blocks[..|blocks| - 1][1..];
      Assoc(SaidBy(thought, blocks[0]), Said(thought, blocks[1..][..|blocks| - 2]), SaidBy(thought, blocks[|blocks| - 1]));
    } else {
      assert blocks[1..] == [] && blocks[..0] == [];
    }
  }

  /**
   A finished message maps to the texts of its text blocks, the thinking of its thinking blocks, a
   detail for each thinking and redacted block, and a call for each tool block, all in order.
   */
  lemma {:induction false} MessageSays(blocks: seq<Finished>)
    ensures var r, calls, notes := Respond(blocks), Select(Calls, blocks), Select(Notes, blocks);
            && r.text == Said(false, blocks) && r.reasoning == Said(true, blocks)
            && |r.calls| == |calls| && (forall i :: 0 <= i < |calls| ==> CallOf(calls[i], r.calls[i]))
            && |r.details| == |notes| && (forall i :: 0 <= i < |notes| ==> DetailOf(notes[i], r.details[i]))
    decreases |blocks|
  {
    if blocks != [] {
      var n := |blocks| - 1;
      MessageSays(blocks[..n]);
      SaidLast(false, blocks);
      SaidLast(true, blocks);
      OneBlock(blocks[n]);
      hide Said, SaidBy, CallOf, DetailOf, FromBlock, Calls, Notes;
    }
  }

  lemma OneBlock(b: Finished)
    ensures var r := FromBlock(b);
            && r.text == SaidBy(false, b) && r.reasoning == SaidBy(true, b)
            && (if Calls(b) then |r.calls| == 1 && CallOf(b, r.calls[0]) else r.calls == [])
            && (if Notes(b) then |r.details| == 1 && DetailOf(b, r.details[0]) else r.details == [])
  {
  }

  /** A call's arguments are its pieces put together, or the empty object if there is nothing in them. */
  lemma {:induction false} ArgumentsSay(id: string, name: string, json: seq<string>)
    ensures var f := FinishOne(ToolBlock(id, name, json));
            && f.FinishedTool? && f.id == id && f.name == name
            && (Concat(json) != "" ==> f.input == Concat(json)) && (Concat(json) == "" ==> f.input == "{}")
  {
  }

  // ----- The end of a stream -----

  predicate Content(d: Delta) { !d.TerminalDelta? && !d.ErrorDelta? }

  predicate AllContent(ds: seq<Delta>) { forall i :: 0 <= i < |ds| ==> Content(ds[i]) }

  /** Content, and after it an error if the stream failed. */
  predicate Tidy(a: Assembler) {
    if a.failed then a.sent != [] && AllContent(a.sent[..|a.sent| - 1]) && a.sent[|a.sent| - 1].ErrorDelta? else AllContent(a.sent)
  }

  lemma TidyMore(a: Assembler, more: seq<Delta>)
    requires AllContent(a.sent)
    ensures AllContent(more) ==> AllContent(a.sent + more)
    ensures |more| == 1 && more[0].ErrorDelta? ==> Tidy(a.(sent := a.sent + more, failed := true))
  {
    if |more| == 1 { assert (a.sent + more)[..|a.sent|] == a.sent; }
  }

  lemma TidyDelta(a: Assembler, e: Event)
    requires e.BlockDelta? && !a.failed && Tidy(a)
    ensures Tidy(AddDelta(a, e))
  {
    TidyMore(a, [ErrorDelta(MIXED)]);
  }

  lemma TidyTool(valid: string -> bool, a: Assembler, i: int)
    requires !a.failed && Tidy(a)
    ensures Tidy(CloseTool(valid, a, i))
  {
    TidyMore(a, [ErrorDelta(BAD_ARGUMENTS)]);
  }

  lemma TidyRest(a: Assembler, i: int)
    requires !a.failed && Tidy(a)
    ensures Tidy(CloseThinking(a, i)) && !CloseThinking(a, i).failed
    ensures Tidy(CloseRedacted(a, i)) && !CloseRedacted(a, i).failed
  {
  }

  lemma TidyStep(valid: string -> bool, a: Assembler, e: Event)
    requires Tidy(a)
    ensures Tidy(Step(valid, a, e))
  {
    hide AddDelta, CloseTool, CloseThinking, CloseRedacted, MapUsage, MapFinish;
    if !a.failed {
      if e.BlockDelta? { TidyDelta(a, e); }
      if e.BlockStop? {
        TidyTool(valid, a, e.index);
        var b := CloseTool(valid, a, e.index);
        if !b.failed {
          TidyRest(b, e.index);
          TidyRest(CloseThinking(b, e.index), e.index);
        }
      }
    }
  }

  lemma {:induction false} TidyRun(valid: string -> bool, a: Assembler, events: seq<Event>)
    requires Tidy(a)
    ensures Tidy(Run(valid, a, events))
    decreases |events|
  {
    hide Step, Tidy;
    if events != [] {
      TidyStep(valid, a, events[0]);
      TidyRun(valid, Step(valid, a, events[0]), events[1..]);
    }
  }

  /**
   Every stream ends once: content, and then one last delta, which is the terminal one exactly if
   neither the assembler failed nor the transport broke, and an error otherwise.
   */
  lemma {:induction false} OneEnd(valid: string -> bool, events: seq<Event>, broken: Option<string>)
    ensures var ds := if broken.Some? then Broke(valid, events, broken.value) else Sent(valid, events);
            && ds != [] && AllContent(ds[..|ds| - 1])
            && var last := ds[|ds| - 1];
            && (last.TerminalDelta? <==> broken.None? && !Run(valid, Fresh(), events).failed)
            && (!last.TerminalDelta? ==> last.ErrorDelta?)
            && (broken.Some? && !Run(valid, Fresh(), events).failed ==> last == ErrorDelta(broken.value))
  {
    hide Run;
    TidyRun(valid, Fresh(), events);
    var a := Run(valid, Fresh(), events);
    assert forall d: Delta :: (a.sent + [d])[..|a.sent|] == a.sent;
  }

  /** A delta with both text and thinking ends the stream with an error, whatever comes after it. */
  lemma {:induction false} MixedFails(valid: string -> bool, before: seq<Event>, e: Event, after: seq<Event>)
    requires e.BlockDelta? && e.text != "" && e.thinking != "" && !Run(valid, Fresh(), before).failed
    ensures Run(valid, Fresh(), before + ([e] + after)).failed
    ensures Sent(valid, before + ([e] + after))
         == Run(valid, Fresh(), before).sent + [ErrorDelta("delta contains text and thinking in one content block")]
  {
    RunAppend(valid, Fresh(), before, [e] + after);
    var a := Run(valid, Fresh(), before);
    RunCons(valid, a, e, after);
    FailedStays(valid, Step(valid, a, e), after);
    hide Run;
  }
}
