/**
 The assembler keeps its open blocks apart (anthropic/adapter.go): what an event sends, and what it
 leaves behind, depends only on the block of its own index.
 */
module AnthropicFrames {
  import opened AnthropicStream
  import opened AnthropicEquivalence

  function Restrict<T>(m: map<int, T>, i: int): map<int, T> { if i in m then map[i := m[i]] else map[] }

  /** What the assembler holds for one index. */
  function Part(a: Assembler, i: int): Assembler {
    Assembler(Restrict(a.tools, i), Restrict(a.thinking, i), Restrict(a.signatures, i), Restrict(a.redacted, i),
              Stop, ModelUsage(0, 0, 0, 0, 0, 0, 0), [], a.failed)
  }

  /** The same with something sent before. */
  function Pre(sent: seq<Delta>, a: Assembler): Assembler { a.(sent := sent + a.sent) }

  /**
   From `a` to `a'` only index `i` has changed, as the assembler of that index alone changed to `l`,
   and only what `l` sent was sent.
   */
  ghost predicate Frames(a: Assembler, i: int, a': Assembler, l: Assembler) {
    && a'.sent == a.sent + l.sent && a'.failed == l.failed
    && (!l.failed ==> Part(a', i) == Part(l, i) && l == Part(l, i).(sent := l.sent))
    && (!l.failed ==> forall j :: j != i ==> Part(a', j) == Part(a, j))
  }

  lemma Same<T>(m: map<int, T>, i: int)
    ensures i in Restrict(m, i) <==> i in m
    ensures i in m ==> Restrict(m, i)[i] == m[i]
    ensures Restrict(Restrict(m, i), i) == Restrict(m, i)
  {
  }

  lemma Put<T>(m: map<int, T>, i: int, v: T)
    ensures Restrict(m[i := v], i) == Restrict(m, i)[i := v] == Restrict(Restrict(m, i)[i := v], i)
    ensures forall j :: j != i ==> Restrict(m[i := v], j) == Restrict(m, j)
  {
  }

  lemma Drop<T>(m: map<int, T>, i: int)
    ensures Restrict(m - {i}, i) == Restrict(m, i) - {i} == Restrict(Restrict(m, i) - {i}, i)
    ensures forall j :: j != i ==> Restrict(m - {i}, j) == Restrict(m, j)
  {
  }

  lemma AllSame(a: Assembler, i: int)
    ensures i in Restrict(a.tools, i) <==> i in a.tools
    ensures i in a.tools ==> Restrict(a.tools, i)[i] == a.tools[i]
    ensures i in Restrict(a.thinking, i) <==> i in a.thinking
    ensures i in a.thinking ==> Restrict(a.thinking, i)[i] == a.thinking[i]
    ensures Get(Restrict(a.signatures, i), i) == Get(a.signatures, i)
    ensures i in Restrict(a.redacted, i) <==> i in a.redacted
    ensures i in a.redacted ==> Restrict(a.redacted, i)[i] == a.redacted[i]
    ensures Part(Part(a, i), i) == Part(a, i)
  {
  }

  lemma FrameOpen(a: Assembler, i: int, b: Opening)
    requires !a.failed
    ensures Frames(a, i, Open(a, i, b), Open(Part(a, i), i, b))
  {
    hide Restrict;
    AllSame(a, i);
    assert a.sent + [] == a.sent;
    match b
    case ToolOpens(id, name) => Put(a.tools, i, ToolCall(id, name, ""));
    case ThinkingOpens => Put(a.thinking, i, "");
    case RedactedOpens(data) => Put(a.redacted, i, data);
    case TextOpens =>
    case OtherOpens =>
  }

  lemma FrameMixed(a: Assembler, e: Event)
    requires e.BlockDelta? && !a.failed && e.text != "" && e.thinking != ""
    ensures Frames(a, e.index, AddDelta(a, e), AddDelta(Part(a, e.index), e))
  {
    hide Restrict;
    assert a.sent + ([] + [ErrorDelta(MIXED)]) == a.sent + [ErrorDelta(MIXED)];
  }

  lemma FrameDelta(a: Assembler, e: Event)
    requires e.BlockDelta? && !a.failed
    ensures Frames(a, e.index, AddDelta(a, e), AddDelta(Part(a, e.index), e))
  {
    hide Restrict, Get;
    if e.text != "" && e.thinking != "" {
      FrameMixed(a, e);
    } else {
      hide TextSent, ThoughtSent;
      var i := e.index;
      AllSame(a, i);
      var t, h := TextSent(e.text), ThoughtSent(e.thinking);
      assert [] + t + h == t + h && a.sent + (t + h) == a.sent + t + h;
      if i in a.tools { Put(a.tools, i, a.tools[i].(arguments := a.tools[i].arguments + e.partialJson)); }
      if i in a.thinking { Put(a.thinking, i, a.thinking[i] + e.thinking); }
      Put(a.signatures, i, Get(a.signatures, i) + e.signature);
    }
  }

  lemma FrameTool(valid: string -> bool, a: Assembler, i: int)
    requires !a.failed
    ensures Frames(a, i, CloseTool(valid, a, i), CloseTool(valid, Part(a, i), i))
  {
    hide Restrict, Arguments;
    AllSame(a, i);
    Drop(a.tools, i);
    assert a.sent + [] == a.sent;
    assert forall d: Delta :: [] + [d] == [d];
  }

  lemma FrameThinking(a: Assembler, i: int)
    requires !a.failed
    ensures Frames(a, i, CloseThinking(a, i), CloseThinking(Part(a, i), i))
  {
    hide Restrict, Get, Worth;
    AllSame(a, i);
    Drop(a.thinking, i);
    Drop(a.signatures, i);
    assert forall ds: seq<Delta> :: [] + ds == ds;
  }

  lemma FrameRedacted(a: Assembler, i: int)
    requires !a.failed
    ensures Frames(a, i, CloseRedacted(a, i), CloseRedacted(Part(a, i), i))
  {
    hide Restrict;
    AllSame(a, i);
    Drop(a.redacted, i);
    assert a.sent + [] == a.sent;
    assert forall d: Delta :: [] + [d] == [d];
  }

  // ----- What was sent before does not matter -----

  lemma Assoc3(a: seq<Delta>, b: seq<Delta>, c: seq<Delta>)
    ensures a + b + c == a + (b + c)
  {
  }

  lemma ShiftDelta(sent: seq<Delta>, a: Assembler, e: Event)
    requires e.BlockDelta?
    ensures AddDelta(Pre(sent, a), e) == Pre(sent, AddDelta(a, e))
  {
    hide TextSent, ThoughtSent;
    Assoc3(sent, a.sent, [ErrorDelta(MIXED)]);
    Assoc3(sent, a.sent, TextSent(e.text));
    Assoc3(sent, a.sent + TextSent(e.text), ThoughtSent(e.thinking));
  }

  lemma ShiftTool(valid: string -> bool, sent: seq<Delta>, a: Assembler, i: int)
    ensures CloseTool(valid, Pre(sent, a), i) == Pre(sent, CloseTool(valid, a, i))
  {
    hide Arguments;
    assert forall ds: seq<Delta> :: sent + a.sent + ds == sent + (a.sent + ds);
  }

  lemma ShiftThinking(sent: seq<Delta>, a: Assembler, i: int)
    ensures CloseThinking(Pre(sent, a), i) == Pre(sent, CloseThinking(a, i))
  {
    hide Worth;
    assert forall ds: seq<Delta> :: sent + a.sent + ds == sent + (a.sent + ds);
  }

  lemma ShiftRedacted(sent: seq<Delta>, a: Assembler, i: int)
    ensures CloseRedacted(Pre(sent, a), i) == Pre(sent, CloseRedacted(a, i))
  {
    assert forall ds: seq<Delta> :: sent + a.sent + ds == sent + (a.sent + ds);
  }

  lemma ShiftClose(valid: string -> bool, sent: seq<Delta>, a: Assembler, i: int)
    ensures Close(valid, Pre(sent, a), i) == Pre(sent, Close(valid, a, i))
  {
    hide CloseTool, CloseThinking, CloseRedacted;
    ShiftTool(valid, sent, a, i);
    var b := CloseTool(valid, a, i);
    ShiftThinking(sent, b, i);
    ShiftRedacted(sent, CloseThinking(b, i), i);
  }

  lemma ShiftOpen(sent: seq<Delta>, a: Assembler, i: int, b: Opening)
    ensures Open(Pre(sent, a), i, b) == Pre(sent, Open(a, i, b))
  {
  }

  lemma ShiftStep(valid: string -> bool, sent: seq<Delta>, a: Assembler, e: Event)
    ensures Step(valid, Pre(sent, a), e) == Pre(sent, Step(valid, a, e))
  {
    hide AddDelta, Close, Open, MapUsage, MapFinish;
    if e.BlockStart? { ShiftOpen(sent, a, e.index, e.block); }
    if e.BlockDelta? { ShiftDelta(sent, a, e); }
    if e.BlockStop? { ShiftClose(valid, sent, a, e.index); }
  }

  lemma {:induction false} ShiftRun(valid: string -> bool, sent: seq<Delta>, a: Assembler, events: seq<Event>)
    ensures Run(valid, Pre(sent, a), events) == Pre(sent, Run(valid, a, events))
    decreases |events|
  {
    hide Step, Pre;
    if events != [] {
      ShiftStep(valid, sent, a, events[0]);
      ShiftRun(valid, sent, Step(valid, a, events[0]), events[1..]);
    }
  }

  // ----- One event -----

  /** One frame after the other. */
  lemma FrameThen(a: Assembler, i: int, b: Assembler, l: Assembler, c: Assembler, m: Assembler, l': Assembler)
    requires Frames(a, i, b, l) && !l.failed && Frames(b, i, c, m)
    requires l' == Pre(l.sent, m)
    ensures Frames(a, i, c, l')
  {
    hide Part;
    Assoc3(a.sent, l.sent, m.sent);
    PartOfPre(l.sent, m, i);
  }

  lemma PartOfPre(sent: seq<Delta>, a: Assembler, i: int)
    ensures Part(Pre(sent, a), i) == Part(a, i)
  {
  }

  lemma Alone(l: Assembler, i: int)
    requires l == Part(l, i).(sent := l.sent)
    ensures l == Pre(l.sent, Part(l, i))
  {
    assert l.sent + [] == l.sent;
  }

  lemma FrameClose(valid: string -> bool, a: Assembler, i: int)
    requires !a.failed
    ensures Frames(a, i, Close(valid, a, i), Close(valid, Part(a, i), i))
  {
    hide Part, CloseTool, CloseThinking, CloseRedacted, Pre;
    var b, l := CloseTool(valid, a, i), CloseTool(valid, Part(a, i), i);
    FrameTool(valid, a, i);
    if !l.failed {
      Alone(l, i);
      var c, m := CloseThinking(b, i), CloseThinking(Part(b, i), i);
      FrameThinking(b, i);
      ShiftThinking(l.sent, Part(b, i), i);
      var l' := CloseThinking(l, i);
      FrameThen(a, i, b, l, c, m, l');
      NeverFails(b, i);
      Alone(l', i);
      FrameRedacted(c, i);
      ShiftRedacted(l'.sent, Part(c, i), i);
      FrameThen(a, i, c, l', CloseRedacted(c, i), CloseRedacted(Part(c, i), i), CloseRedacted(l', i));
    }
  }

  lemma NeverFails(a: Assembler, i: int)
    ensures CloseThinking(a, i).failed == a.failed && CloseRedacted(a, i).failed == a.failed
  {
  }

  lemma FrameStep(valid: string -> bool, a: Assembler, e: Event)
    requires !a.failed && OfBlock(e)
    ensures Frames(a, e.index, Step(valid, a, e), Step(valid, Part(a, e.index), e))
  {
    hide Frames, Open, AddDelta, Close;
    match e
    case BlockStart(i, b) => FrameOpen(a, i, b);
    case BlockDelta(_, _, _, _, _) => FrameDelta(a, e);
    case BlockStop(i) => FrameClose(valid, a, i);
  }
}
