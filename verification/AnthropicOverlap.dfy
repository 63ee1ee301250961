/**
 Streams whose content blocks overlap (anthropic/adapter.go): open blocks do not disturb each other,
 text and reasoning come in the order they arrive, calls and details in the order of block stops.
 */
module AnthropicOverlap {
  import opened AnthropicStream
  import opened AnthropicEquivalence
  import opened AnthropicFrames

  /** The block events of one index. */
  function AtIndex(events: seq<Event>, i: int): seq<Event> {
    if events == [] then []
    else (if OfBlock(events[0]) && events[0].index == i then [events[0]] else []) + AtIndex(events[1..], i)
  }

  function OfIndex(blocks: seq<Placed>, i: int): seq<Placed> {
    if blocks == [] then []
    else OfIndex(blocks[..|blocks| - 1], i) + if blocks[|blocks| - 1].index == i then [blocks[|blocks| - 1]] else []
  }

  /** At each index the stream carries the bracketed blocks of that index; across indexes anything goes. */
  ghost predicate Braided(events: seq<Event>, blocks: seq<Placed>) {
    forall i :: AtIndex(events, i) == Events(OfIndex(blocks, i))
  }

  // ----- What is sent, by index -----

  datatype Tag = Tag(index: int, delta: Delta)

  function TagAll(i: int, ds: seq<Delta>): seq<Tag> { seq(|ds|, k requires 0 <= k < |ds| => Tag(i, ds[k])) }

  function Untag(ts: seq<Tag>): seq<Delta> { seq(|ts|, k requires 0 <= k < |ts| => ts[k].delta) }

  function Share(t: Tag, i: int): seq<Delta> { if t.index == i then [t.delta] else [] }

  function Tagged(ts: seq<Tag>, i: int): seq<Delta> {
    if ts == [] then [] else Share(ts[0], i) + Tagged(ts[1..], i)
  }

  /** What one event sends. */
  function Emitted(valid: string -> bool, a: Assembler, e: Event): seq<Tag> {
    if OfBlock(e) then TagAll(e.index, Step(valid, Part(a, e.index), e).sent) else []
  }

  /** Everything a stream sends, with the index of the event that sent it. */
  function Log(valid: string -> bool, a: Assembler, events: seq<Event>): seq<Tag>
    decreases |events|
  {
    if events == [] || a.failed then []
    else Emitted(valid, a, events[0]) + Log(valid, Step(valid, a, events[0]), events[1..])
  }

  lemma UntagAppend(xs: seq<Tag>, ys: seq<Tag>)
    ensures Untag(xs + ys) == Untag(xs) + Untag(ys)
  {
  }

  lemma UntagAll(i: int, ds: seq<Delta>)
    ensures Untag(TagAll(i, ds)) == ds
  {
  }

  lemma {:induction false} TaggedAppend(xs: seq<Tag>, ys: seq<Tag>, i: int)
    ensures Tagged(xs + ys, i) == Tagged(xs, i) + Tagged(ys, i)
    decreases |xs|
  {
    hide Share;
    if xs == [] {
      assert xs + ys == ys;
    } else {
      TaggedAppend(xs[1..], ys, i);
      assert (xs + ys)[0] == xs[0] && (xs + ys)[1..] == xs[1..] + ys;
      Assoc3(Share(xs[0], i), Tagged(xs[1..], i), Tagged(ys, i));
    }
  }

  lemma {:induction false} TaggedAll(j: int, ds: seq<Delta>, i: int)
    ensures Tagged(TagAll(j, ds), i) == if i == j then ds else []
    decreases |ds|
  {
    if ds != [] {
      assert TagAll(j, ds)[1..] == TagAll(j, ds[1..]);
      TaggedAll(j, ds[1..], i);
    }
  }

  lemma MessageStep(valid: string -> bool, a: Assembler, e: Event, i: int)
    requires !OfBlock(e)
    ensures var b := Step(valid, a, e); b.sent == a.sent && b.failed == a.failed && Part(b, i) == Part(a, i)
  {
  }

  lemma {:induction false} LogIsSent(valid: string -> bool, a: Assembler, events: seq<Event>)
    ensures Run(valid, a, events).sent == a.sent + Untag(Log(valid, a, events))
    decreases |events|
  {
    hide Step, Part, Untag, TagAll;
    UntagAppend([], []);
    UntagNone();
    if a.failed {
      FailedStays(valid, a, events);
    } else if events != [] {
      var e, b := events[0], Step(valid, a, events[0]);
      LogIsSent(valid, b, events[1..]);
      UntagAppend(Emitted(valid, a, e), Log(valid, b, events[1..]));
      if OfBlock(e) {
        FrameStep(valid, a, e);
        UntagAll(e.index, Step(valid, Part(a, e.index), e).sent);
      } else {
        MessageStep(valid, a, e, 0);
      }
      Assoc3(a.sent, Untag(Emitted(valid, a, e)), Untag(Log(valid, b, events[1..])));
    }
  }

  lemma UntagNone()
    ensures Untag([]) == []
  {
  }

  /** The run of one index, one event on. */
  lemma {:induction false} PartRun(valid: string -> bool, a: Assembler, events: seq<Event>, i: int)
    requires !a.failed && events != [] && !Step(valid, a, events[0]).failed
    ensures Run(valid, Part(a, i), AtIndex(events, i))
         == Pre(Tagged(Emitted(valid, a, events[0]), i), Run(valid, Part(Step(valid, a, events[0]), i), AtIndex(events[1..], i)))
  {
    hide Step, Part, Run, TagAll, Tagged, Frames;
    var e, b := events[0], Step(valid, a, events[0]);
    var rest := AtIndex(events[1..], i);
    PreNone(Run(valid, Part(b, i), rest));
    assert [] + rest == rest;
    if !OfBlock(e) {
      MessageStep(valid, a, e, i);
      TaggedNone(i);
    } else {
      var l := Step(valid, Part(a, e.index), e);
      FrameStep(valid, a, e);
      FramesSay(a, e.index, b, l, i);
      TaggedAll(e.index, l.sent, i);
      if e.index == i {
        RunCons(valid, Part(a, i), e, rest);
        Alone(l, i);
        ShiftRun(valid, l.sent, Part(b, i), rest);
      }
    }
  }

  lemma FramesSay(a: Assembler, j: int, b: Assembler, l: Assembler, i: int)
    requires Frames(a, j, b, l) && !b.failed
    ensures !l.failed && b.sent == a.sent + l.sent
    ensures if i == j then Part(b, i) == Part(l, i) && l == Part(l, i).(sent := l.sent) else Part(b, i) == Part(a, i)
  {
  }

  lemma PreNone(a: Assembler)
    ensures Pre([], a) == a
  {
    assert [] + a.sent == a.sent;
  }

  lemma {:induction false} TaggedNone(i: int)
    ensures Tagged([], i) == []
  {
  }

  lemma {:induction false} RunFailed(valid: string -> bool, a: Assembler, events: seq<Event>)
    requires events != [] && Step(valid, a, events[0]).failed
    ensures Run(valid, a, events).failed
  {
    hide Step;
    FailedStays(valid, Step(valid, a, events[0]), events[1..]);
  }

  /** If the stream does not fail, each index sends what it would send alone. */
  lemma {:induction false} IndexAlone(valid: string -> bool, a: Assembler, events: seq<Event>, i: int)
    requires !a.failed && !Run(valid, a, events).failed
    ensures var l := Run(valid, Part(a, i), AtIndex(events, i));
            !l.failed && Tagged(Log(valid, a, events), i) == l.sent
    decreases |events|
  {
    hide Step, Emitted, Tagged, Pre, AtIndex;
    if events == [] {
      AtNone(i);
      TaggedNone(i);
      PartBlank(a, i);
    } else {
      hide Part;
      var e, b := events[0], Step(valid, a, events[0]);
      if b.failed { RunFailed(valid, a, events); }
      PartRun(valid, a, events, i);
      IndexAlone(valid, b, events[1..], i);
      hide Run;
      TaggedAppend(Emitted(valid, a, e), Log(valid, b, events[1..]), i);
      PreSent(Tagged(Emitted(valid, a, e), i), Run(valid, Part(b, i), AtIndex(events[1..], i)));
    }
  }

  lemma {:induction false} AtNone(i: int)
    ensures AtIndex([], i) == []
  {
  }

  lemma PartBlank(a: Assembler, i: int)
    ensures Part(a, i).sent == [] && Part(a, i).failed == a.failed
  {
  }

  lemma PreSent(sent: seq<Delta>, a: Assembler)
    ensures Pre(sent, a).sent == sent + a.sent && Pre(sent, a).failed == a.failed
  {
  }

  /** If the stream fails, some index fails alone. */
  lemma {:induction false} SomeIndexFails(valid: string -> bool, a: Assembler, events: seq<Event>) returns (i: int)
    requires !a.failed && Run(valid, a, events).failed
    ensures Run(valid, Part(a, i), AtIndex(events, i)).failed
    decreases |events|
  {
    hide Step, Emitted, Tagged, Pre, Part, Frames;
    var e, b := events[0], Step(valid, a, events[0]);
    if b.failed {
      if !OfBlock(e) { MessageStep(valid, a, e, 0); }
      i := e.index;
      FrameStep(valid, a, e);
      FramesFail(a, i, b, Step(valid, Part(a, i), e));
      RunCons(valid, Part(a, i), e, AtIndex(events[1..], i));
      FailedStays(valid, Step(valid, Part(a, i), e), AtIndex(events[1..], i));
    } else {
      i := SomeIndexFails(valid, b, events[1..]);
      PartRun(valid, a, events, i);
      PreSent(Tagged(Emitted(valid, a, e), i), Run(valid, Part(b, i), AtIndex(events[1..], i)));
    }
  }

  lemma FramesFail(a: Assembler, i: int, b: Assembler, l: Assembler)
    requires Frames(a, i, b, l)
    ensures b.failed == l.failed
  {
  }

  // ----- Independence -----

  lemma {:induction false} OfIndexMembers(blocks: seq<Placed>, i: int)
    ensures forall p :: p in OfIndex(blocks, i) <==> p in blocks && p.index == i
    decreases |blocks|
  {
    if blocks != [] {
      var n := |blocks| - 1;
      OfIndexMembers(blocks[..n], i);
      assert blocks == blocks[..n] + [blocks[n]];
    }
  }

  lemma {:induction false} SoundByIndex(valid: string -> bool, blocks: seq<Placed>, i: int)
    requires AllSound(valid, blocks)
    ensures AllSound(valid, OfIndex(blocks, i))
  {
    hide OfIndex, Sound;
    OfIndexMembers(blocks, i);
    forall k | 0 <= k < |OfIndex(blocks, i)| ensures Sound(valid, OfIndex(blocks, i)[k].block) {
      assert OfIndex(blocks, i)[k] in blocks;
    }
  }

  lemma UnsoundIndex(valid: string -> bool, blocks: seq<Placed>) returns (i: int)
    requires !AllSound(valid, blocks)
    ensures !AllSound(valid, OfIndex(blocks, i))
  {
    hide OfIndex, Sound;
    var k :| 0 <= k < |blocks| && !Sound(valid, blocks[k].block);
    i := blocks[k].index;
    OfIndexMembers(blocks, i);
    assert blocks[k] in OfIndex(blocks, i);
    var m :| 0 <= m < |OfIndex(blocks, i)| && OfIndex(blocks, i)[m] == blocks[k];
  }

  lemma FreshPart(i: int)
    ensures Part(Fresh(), i) == Fresh() && Rest(Fresh()) && Fresh().sent == []
  {
  }

  /** What one index does alone. */
  lemma {:induction false} AloneBlocks(valid: string -> bool, bs: seq<Placed>)
    ensures Run(valid, Fresh(), Events(bs)).failed <==> !AllSound(valid, bs)
    ensures AllSound(valid, bs) ==> Run(valid, Fresh(), Events(bs)).sent == BlocksSent(bs)
  {
    hide Run, Events, AllSound, BlocksSent;
    RunBlocks(valid, Fresh(), bs);
    assert [] + BlocksSent(bs) == BlocksSent(bs);
  }

  /**
   Open blocks do not disturb each other. However the events of different indexes interleave, the
   stream fails exactly if the arguments of some call are not JSON, and otherwise the events of each
   index send exactly what the blocks of that index send on their own.
   */
  lemma {:induction false} Independent(valid: string -> bool, events: seq<Event>, blocks: seq<Placed>)
    requires Braided(events, blocks)
    ensures Run(valid, Fresh(), events).failed <==> !AllSound(valid, blocks)
    ensures Run(valid, Fresh(), events).sent == Untag(Log(valid, Fresh(), events))
    ensures AllSound(valid, blocks) ==> forall i :: Tagged(Log(valid, Fresh(), events), i) == BlocksSent(OfIndex(blocks, i))
  {
    hide Run, Events, AllSound, BlocksSent, OfIndex, AtIndex, Log, Tagged, Untag, Part;
    var f := Run(valid, Fresh(), events);
    LogIsSent(valid, Fresh(), events);
    FreshPart(0);
    assert [] + Untag(Log(valid, Fresh(), events)) == Untag(Log(valid, Fresh(), events));
    if f.failed {
      var i := SomeIndexFails(valid, Fresh(), events);
      FreshPart(i);
      AloneBlocks(valid, OfIndex(blocks, i));
      if AllSound(valid, blocks) { SoundByIndex(valid, blocks, i); }
    } else {
      forall i ensures AllSound(valid, OfIndex(blocks, i)) && Tagged(Log(valid, Fresh(), events), i) == BlocksSent(OfIndex(blocks, i)) {
        IndexAlone(valid, Fresh(), events, i);
        FreshPart(i);
        AloneBlocks(valid, OfIndex(blocks, i));
      }
      if !AllSound(valid, blocks) { var i := UnsoundIndex(valid, blocks); }
    }
  }
}
