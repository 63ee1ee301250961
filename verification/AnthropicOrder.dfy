/**
 The order of what an overlapping stream sends (anthropic/adapter.go), and when folding it gives the
 finished message.
 */
module AnthropicOrder {
  import opened AnthropicStream
  import opened AnthropicEquivalence
  import opened AnthropicFrames
  import opened AnthropicOverlap
  import opened Rearranged

  // ----- What arrives -----

  /** The text an event carries, or the reasoning text. */
  function Carried(thought: bool, e: Event): string {
    if !e.BlockDelta? then "" else if thought then e.thinking else e.text
  }

  /** Everything carried, in the order it arrives. */
  function Arrival(thought: bool, events: seq<Event>): string {
    if events == [] then "" else Carried(thought, events[0]) + Arrival(thought, events[1..])
  }

  function Stopped(e: Event): seq<int> { if e.BlockStop? then [e.index] else [] }

  /** The indexes of the block stops, in order. */
  function Stops(events: seq<Event>): seq<int> {
    if events == [] then [] else Stopped(events[0]) + Stops(events[1..])
  }

  predicate Closing(d: Delta) { d.ToolDelta? || d.DetailDelta? }

  function Closings(ds: seq<Delta>): seq<Delta> {
    if ds == [] then []
    else Closings(ds[..|ds| - 1]) + if Closing(ds[|ds| - 1]) then [ds[|ds| - 1]] else []
  }

  lemma {:induction false} ClosingsAppend(xs: seq<Delta>, ys: seq<Delta>)
    ensures Closings(xs + ys) == Closings(xs) + Closings(ys)
    decreases |ys|
  {
    hide Closing;
    if ys == [] {
      assert xs + ys == xs;
    } else {
      var n := |ys| - 1;
      assert (xs + ys)[..|xs| + n] == xs + ys[..n];
      ClosingsAppend(xs, ys[..n]);
    }
  }

  lemma {:induction false} ClosingsOf(ds: seq<Delta>, all: bool)
    requires forall k :: 0 <= k < |ds| ==> Closing(ds[k]) == all
    ensures Closings(ds) == if all then ds else []
    decreases |ds|
  {
    hide Closing;
    if ds != [] {
      ClosingsOf(ds[..|ds| - 1], all);
      assert ds == ds[..|ds| - 1] + [ds[|ds| - 1]];
    }
  }

  lemma QuietPlus(a: Mapped, b: Mapped)
    ensures Quiet(Plus(a, b)) == Plus(Quiet(a), Quiet(b))
  {
  }

  lemma QuietDelta(d: Delta)
    ensures Quiet(FromDelta(d)) == if Closing(d) then FromDelta(d) else NOTHING
  {
  }

  lemma {:induction false} FoldClosings(ds: seq<Delta>)
    ensures Fold(Closings(ds)) == Quiet(Fold(ds))
    decreases |ds|
  {
    if ds != [] {
      hide Closing, FromDelta, Plus, Quiet, Fold;
      var n := |ds| - 1;
      FoldClosings(ds[..n]);
      assert ds == ds[..n] + [ds[n]];
      FoldStep(ds[..n], ds[n]);
      QuietPlus(Fold(ds[..n]), FromDelta(ds[n]));
      QuietDelta(ds[n]);
      if Closing(ds[n]) {
        FoldStep(Closings(ds[..n]), ds[n]);
      } else {
        PlusNothing(Fold(Closings(ds[..n])));
        assert Closings(ds[..n]) + [] == Closings(ds[..n]);
      }
    }
  }

  // ----- One event -----

  lemma DeltaSends(valid: string -> bool, a: Assembler, e: Event)
    requires a.sent == [] && !a.failed && OfBlock(e) && !e.BlockStop? && !Step(valid, a, e).failed
    ensures Step(valid, a, e).sent == TextSent(Carried(false, e)) + ThoughtSent(Carried(true, e))
  {
    assert [] + TextSent(Carried(false, e)) == TextSent(Carried(false, e));
  }

  lemma StopSends(valid: string -> bool, a: Assembler, i: int)
    requires a.sent == [] && !a.failed && !Step(valid, a, BlockStop(i)).failed
    ensures forall k :: 0 <= k < |Step(valid, a, BlockStop(i)).sent| ==> Closing(Step(valid, a, BlockStop(i)).sent[k])
  {
    hide Arguments, Worth;
  }

  lemma FoldCarried(text: string, thought: string)
    ensures Fold(TextSent(text) + ThoughtSent(thought)) == NOTHING.(text := text, reasoning := thought)
    ensures Closings(TextSent(text) + ThoughtSent(thought)) == []
  {
    hide Fold;
    FoldAppend(TextSent(text), ThoughtSent(thought));
    FoldNone();
    if text != "" { FoldOne(TextDelta(text)); }
    if thought != "" { FoldOne(ReasoningDelta(thought)); }
    ClosingsOf(TextSent(text) + ThoughtSent(thought), false);
  }

  lemma FoldNone()
    ensures Fold([]) == NOTHING && Closings([]) == []
  {
  }

  /** What one event adds: the text it carries, and calls and details only if it is a stop. */
  lemma EventAdds(valid: string -> bool, a: Assembler, e: Event)
    requires !a.failed && OfBlock(e) && !Step(valid, Part(a, e.index), e).failed
    ensures var ds := Step(valid, Part(a, e.index), e).sent;
            && Fold(ds).text == Carried(false, e) && Fold(ds).reasoning == Carried(true, e)
            && Closings(ds) == if e.BlockStop? then ds else []
  {
    var l := Part(a, e.index);
    PartBlank(a, e.index);
    var ds := Step(valid, l, e).sent;
    hide Part;
    if e.BlockStop? {
      StopSends(valid, l, e.index);
      hide Step, Fold;
      ClosingsOf(ds, true);
      FoldClosings(ds);
    } else {
      DeltaSends(valid, l, e);
      hide Step, Fold;
      FoldCarried(Carried(false, e), Carried(true, e));
    }
  }

  lemma EmittedAdds(valid: string -> bool, a: Assembler, e: Event)
    requires !a.failed && !Step(valid, a, e).failed
    ensures var ds := Untag(Emitted(valid, a, e));
            && Fold(ds).text == Carried(false, e) && Fold(ds).reasoning == Carried(true, e)
            && Closings(ds) == if e.BlockStop? then ds else []
    ensures forall i :: Tagged(Emitted(valid, a, e), i) == if OfBlock(e) && e.index == i then Untag(Emitted(valid, a, e)) else []
  {
    hide Step, Part, Fold, Closings, Frames, TagAll, Untag, Tagged;
    if OfBlock(e) {
      FrameStep(valid, a, e);
      FramesFail(a, e.index, Step(valid, a, e), Step(valid, Part(a, e.index), e));
      EventAdds(valid, a, e);
      var ds := Step(valid, Part(a, e.index), e).sent;
      UntagAll(e.index, ds);
      forall i ensures Tagged(Emitted(valid, a, e), i) == if e.index == i then ds else [] { TaggedAll(e.index, ds, i); }
    } else {
      UntagNone();
      FoldNone();
      forall i ensures Tagged(Emitted(valid, a, e), i) == [] { TaggedNone(i); }
    }
  }

  // ----- Text and reasoning in the order they arrive -----

  lemma {:induction false} ArrivalFolds(valid: string -> bool, a: Assembler, events: seq<Event>)
    requires !a.failed && !Run(valid, a, events).failed
    ensures Fold(Untag(Log(valid, a, events))).text == Arrival(false, events)
    ensures Fold(Untag(Log(valid, a, events))).reasoning == Arrival(true, events)
    decreases |events|
  {
    hide Step, Emitted, Fold, Untag, Carried;
    UntagNone();
    FoldNone();
    if events != [] {
      var e, b := events[0], Step(valid, a, events[0]);
      if b.failed { RunFailed(valid, a, events); }
      ArrivalFolds(valid, b, events[1..]);
      hide Run;
      EmittedAdds(valid, a, e);
      UntagAppend(Emitted(valid, a, e), Log(valid, b, events[1..]));
      FoldAppend(Untag(Emitted(valid, a, e)), Untag(Log(valid, b, events[1..])));
    }
  }

  // ----- Calls and details in the order of the stops -----

  /** The calls and details of the given indexes, index by index. */
  function ByStop(log: seq<Tag>, stops: seq<int>): seq<Delta> {
    if stops == [] then [] else Closings(Tagged(log, stops[0])) + ByStop(log, stops[1..])
  }

  lemma {:induction false} ByStopSame(log: seq<Tag>, other: seq<Tag>, stops: seq<int>)
    requires forall i :: i in stops ==> Closings(Tagged(log, i)) == Closings(Tagged(other, i))
    ensures ByStop(log, stops) == ByStop(other, stops)
    decreases |stops|
  {
    hide Closings, Tagged;
    if stops != [] {
      assert stops[0] in stops;
      ByStopSame(log, other, stops[1..]);
    }
  }

  /** The closings of one index, one event on. */
  lemma {:induction false} ClosingsStep(valid: string -> bool, a: Assembler, events: seq<Event>, i: int)
    requires !a.failed && events != [] && !Step(valid, a, events[0]).failed
    ensures var e := events[0];
            var rest := Closings(Tagged(Log(valid, Step(valid, a, e), events[1..]), i));
            Closings(Tagged(Log(valid, a, events), i))
              == (if e.BlockStop? && e.index == i then Untag(Emitted(valid, a, e)) else []) + rest
  {
    hide Step, Emitted, Untag, Tagged, Closings;
    var e, b := events[0], Step(valid, a, events[0]);
    EmittedAdds(valid, a, e);
    FoldNone();
    TaggedAppend(Emitted(valid, a, e), Log(valid, b, events[1..]), i);
    ClosingsAppend(Tagged(Emitted(valid, a, e), i), Tagged(Log(valid, b, events[1..]), i));
  }

  lemma {:induction false} NoStopNoClosing(valid: string -> bool, a: Assembler, events: seq<Event>, i: int)
    requires !a.failed && !Run(valid, a, events).failed && i !in Stops(events)
    ensures Closings(Tagged(Log(valid, a, events), i)) == []
    decreases |events|
  {
    hide Step, Emitted, Untag, Tagged, Closings;
    TaggedNone(i);
    FoldNone();
    if events != [] {
      var b := Step(valid, a, events[0]);
      if b.failed { RunFailed(valid, a, events); }
      ClosingsStep(valid, a, events, i);
      NoStopNoClosing(valid, b, events[1..], i);
    }
  }

  lemma DistinctTail(all: seq<int>, stops: seq<int>)
    requires Distinct(all) && (all == stops || (all != [] && all == [all[0]] + stops))
    ensures Distinct(stops)
    ensures all != stops ==> all[0] !in stops
  {
    if all != stops {
      assert forall k :: 0 <= k < |stops| ==> all[k + 1] == stops[k];
    }
  }

  /** The later stops find in the whole log what they find in the rest of it. */
  lemma {:induction false} LaterStops(valid: string -> bool, a: Assembler, events: seq<Event>)
    requires !a.failed && events != [] && !Step(valid, a, events[0]).failed
    requires events[0].BlockStop? ==> events[0].index !in Stops(events[1..])
    ensures ByStop(Log(valid, a, events), Stops(events[1..]))
         == ByStop(Log(valid, Step(valid, a, events[0]), events[1..]), Stops(events[1..]))
  {
    hide Step, Emitted, Untag, Tagged, Closings, Log, ByStop;
    var log, rest := Log(valid, a, events), Log(valid, Step(valid, a, events[0]), events[1..]);
    forall i | i in Stops(events[1..]) ensures Closings(Tagged(log, i)) == Closings(Tagged(rest, i)) {
      ClosingsStep(valid, a, events, i);
    }
    ByStopSame(log, rest, Stops(events[1..]));
  }

  /** The closings of the whole log, one event on. */
  lemma {:induction false} AllClosingsStep(valid: string -> bool, a: Assembler, events: seq<Event>)
    requires !a.failed && events != [] && !Step(valid, a, events[0]).failed
    ensures var e := events[0];
            var rest := Closings(Untag(Log(valid, Step(valid, a, e), events[1..])));
            Closings(Untag(Log(valid, a, events))) == (if e.BlockStop? then Untag(Emitted(valid, a, e)) else []) + rest
  {
    hide Step, Emitted, Untag, Tagged, Closings;
    var e, b := events[0], Step(valid, a, events[0]);
    EmittedAdds(valid, a, e);
    UntagAppend(Emitted(valid, a, e), Log(valid, b, events[1..]));
    ClosingsAppend(Untag(Emitted(valid, a, e)), Untag(Log(valid, b, events[1..])));
  }

  lemma {:induction false} StopsOrder(valid: string -> bool, a: Assembler, events: seq<Event>)
    requires !a.failed && !Run(valid, a, events).failed && Distinct(Stops(events))
    ensures Closings(Untag(Log(valid, a, events))) == ByStop(Log(valid, a, events), Stops(events))
    decreases |events|
  {
    hide Step, Emitted, Untag, Tagged, Closings;
    UntagNone();
    FoldNone();
    if events != [] {
      var e, b, stops := events[0], Step(valid, a, events[0]), Stops(events[1..]);
      if b.failed { RunFailed(valid, a, events); }
      DistinctTail(Stops(events), stops);
      StopsOrder(valid, b, events[1..]);
      AllClosingsStep(valid, a, events);
      LaterStops(valid, a, events);
      if e.BlockStop? {
        ClosingsStep(valid, a, events, e.index);
        NoStopNoClosing(valid, b, events[1..], e.index);
      }
      hide Run, Log;
    }
  }

  // ----- The blocks in the order of their stops -----

  function Indexes(blocks: seq<Placed>): seq<int> { seq(|blocks|, k requires 0 <= k < |blocks| => blocks[k].index) }

  function Order(blocks: seq<Placed>, stops: seq<int>): seq<Placed> {
    if stops == [] then [] else OfIndex(blocks, stops[0]) + Order(blocks, stops[1..])
  }

  function Occurrences(xs: seq<int>, i: int): nat {
    if xs == [] then 0 else (if xs[0] == i then 1 else 0) + Occurrences(xs[1..], i)
  }

  lemma {:induction false} OccursIn(xs: seq<int>, i: int)
    ensures Occurrences(xs, i) > 0 <==> i in xs
    decreases |xs|
  {
    if xs != [] {
      OccursIn(xs[1..], i);
      assert xs == [xs[0]] + xs[1..];
    }
  }

  lemma {:induction false} OccurOnce(xs: seq<int>)
    requires forall i :: Occurrences(xs, i) <= 1
    ensures Distinct(xs)
    decreases |xs|
  {
    if xs != [] {
      forall i ensures Occurrences(xs[1..], i) <= 1 { assert Occurrences(xs, i) <= 1; }
      OccurOnce(xs[1..]);
      OccursIn(xs[1..], xs[0]);
      assert Occurrences(xs, xs[0]) <= 1;
      forall j | 0 < j < |xs| ensures xs[0] != xs[j] { assert xs[j] == xs[1..][j - 1]; }
      forall j, k | 0 < j < k < |xs| ensures xs[j] != xs[k] { assert xs[j] == xs[1..][j - 1] && xs[k] == xs[1..][k - 1]; }
    }
  }

  lemma {:induction false} StopsAppend(xs: seq<Event>, ys: seq<Event>)
    ensures Stops(xs + ys) == Stops(xs) + Stops(ys)
    decreases |xs|
  {
    hide Stopped;
    if xs == [] {
      assert xs + ys == ys;
    } else {
      StopsAppend(xs[1..], ys);
      assert (xs + ys)[0] == xs[0] && (xs + ys)[1..] == xs[1..] + ys;
      assert Stopped(xs[0]) + Stops(xs[1..]) + Stops(ys) == Stopped(xs[0]) + (Stops(xs[1..]) + Stops(ys));
    }
  }

  lemma {:induction false} NoStops(events: seq<Event>)
    requires forall e :: e in events ==> !e.BlockStop?
    ensures Stops(events) == []
    decreases |events|
  {
    if events != [] {
      assert events[0] in events;
      NoStops(events[1..]);
    }
  }

  lemma {:induction false} TextNoStop(i: int, pieces: seq<string>)
    ensures forall e :: e in TextEvents(i, pieces) ==> !e.BlockStop?
    ensures forall e :: e in JsonEvents(i, pieces) ==> !e.BlockStop?
    decreases |pieces|
  {
    if pieces != [] { TextNoStop(i, pieces[1..]); }
  }

  lemma {:induction false} PartsNoStop(i: int, parts: seq<ThinkingPart>)
    ensures forall e :: e in PartEvents(i, parts) ==> !e.BlockStop?
    decreases |parts|
  {
    if parts != [] { PartsNoStop(i, parts[1..]); }
  }

  lemma {:induction false} OthersNoStop(i: int, parts: seq<OtherPart>)
    ensures forall e :: e in OtherEvents(i, parts) ==> !e.BlockStop?
    decreases |parts|
  {
    if parts != [] { OthersNoStop(i, parts[1..]); }
  }

  lemma BlockStops(p: Placed)
    ensures Stops(BlockEvents(p)) == [p.index]
  {
    hide TextEvents, JsonEvents, PartEvents, OtherEvents, Stops;
    match p.block {
      case TextBlock(pieces) => TextNoStop(p.index, pieces);
      case ToolBlock(_, _, json) => TextNoStop(p.index, json);
      case ThinkingBlock(parts) => PartsNoStop(p.index, parts);
      case RedactedBlock(_) =>
      case OtherBlock(others) => OthersNoStop(p.index, others);
    }
    NoStops(Pieces(p));
    hide Pieces;
    NoStops([BlockStart(p.index, Opens(p.block))]);
    OneStop(p.index);
    StopsAppend(Pieces(p), [BlockStop(p.index)]);
    StopsAppend([BlockStart(p.index, Opens(p.block))], Pieces(p) + [BlockStop(p.index)]);
  }

  lemma OneStop(i: int)
    ensures Stops([BlockStop(i)]) == [i]
  {
    assert [BlockStop(i)][1..] == [];
  }

  lemma {:induction false} BlocksStop(bs: seq<Placed>)
    ensures |Stops(Events(bs))| == |bs|
    decreases |bs|
  {
    hide BlockEvents;
    if bs != [] {
      var n := |bs| - 1;
      BlocksStop(bs[..n]);
      BlockStops(bs[n]);
      StopsAppend(Events(bs[..n]), BlockEvents(bs[n]));
    }
  }

  lemma {:induction false} StopsAt(events: seq<Event>, i: int)
    ensures |Stops(AtIndex(events, i))| == Occurrences(Stops(events), i)
    decreases |events|
  {
    if events != [] {
      var e := events[0];
      StopsAt(events[1..], i);
      var rest := AtIndex(events[1..], i);
      if OfBlock(e) && e.index == i { assert AtIndex(events, i)[1..] == rest; } else { assert AtIndex(events, i) == rest; }
      if e.BlockStop? { assert Stops(events)[1..] == Stops(events[1..]); } else { assert Stops(events) == Stops(events[1..]); }
    }
  }

  lemma {:induction false} OfIndexOnce(blocks: seq<Placed>, i: int)
    requires Distinct(Indexes(blocks))
    ensures |OfIndex(blocks, i)| <= 1
    ensures forall k :: 0 <= k < |blocks| && blocks[k].index == i ==> OfIndex(blocks, i) == [blocks[k]]
    ensures i !in Indexes(blocks) ==> OfIndex(blocks, i) == []
    decreases |blocks|
  {
    if blocks != [] {
      var n := |blocks| - 1;
      assert forall k :: 0 <= k < n ==> Indexes(blocks)[k] == Indexes(blocks[..n])[k] == blocks[k].index;
      assert Indexes(blocks)[n] == blocks[n].index;
      OfIndexOnce(blocks[..n], i);
    }
  }

  /** Each block stops once: the stops are the indexes of the blocks, in some order. */
  lemma {:induction false} StopsOfBlocks(events: seq<Event>, blocks: seq<Placed>)
    requires Braided(events, blocks) && Distinct(Indexes(blocks))
    ensures Distinct(Stops(events))
    ensures forall i :: i in Stops(events) <==> |OfIndex(blocks, i)| == 1
  {
    hide Stops, AtIndex, OfIndex, Events, Occurrences, Indexes;
    forall i ensures Occurrences(Stops(events), i) == |OfIndex(blocks, i)| <= 1 {
      StopsAt(events, i);
      BlocksStop(OfIndex(blocks, i));
      OfIndexOnce(blocks, i);
    }
    OccurOnce(Stops(events));
    forall i ensures i in Stops(events) <==> |OfIndex(blocks, i)| == 1 { OccursIn(Stops(events), i); }
  }

  /** The order of stops lists blocks of the message, each under its own index. */
  lemma {:induction false} OrderIs(blocks: seq<Placed>, stops: seq<int>)
    requires forall i :: i in stops ==> |OfIndex(blocks, i)| == 1
    ensures |Order(blocks, stops)| == |stops|
    ensures forall k :: 0 <= k < |stops| ==> Order(blocks, stops)[k].index == stops[k] && Order(blocks, stops)[k] in blocks
    decreases |stops|
  {
    hide OfIndex;
    if stops != [] {
      assert stops[0] in stops;
      OrderIs(blocks, stops[1..]);
      OfIndexMembers(blocks, stops[0]);
      assert OfIndex(blocks, stops[0])[0] in OfIndex(blocks, stops[0]);
    }
  }

  lemma {:induction false} BlocksSentAppend(xs: seq<Placed>, ys: seq<Placed>)
    ensures BlocksSent(xs + ys) == BlocksSent(xs) + BlocksSent(ys)
    decreases |ys|
  {
    hide BlockSent;
    if ys == [] {
      assert xs + ys == xs;
    } else {
      var n := |ys| - 1;
      assert (xs + ys)[..|xs| + n] == xs + ys[..n];
      BlocksSentAppend(xs, ys[..n]);
    }
  }

  lemma {:induction false} ByStopBlocks(log: seq<Tag>, blocks: seq<Placed>, stops: seq<int>)
    requires forall i :: Tagged(log, i) == BlocksSent(OfIndex(blocks, i))
    ensures ByStop(log, stops) == Closings(BlocksSent(Order(blocks, stops)))
    decreases |stops|
  {
    if stops != [] {
      hide BlocksSent, Tagged, OfIndex, Closings;
      ByStopBlocks(log, blocks, stops[1..]);
      BlocksSentAppend(OfIndex(blocks, stops[0]), Order(blocks, stops[1..]));
      ClosingsAppend(BlocksSent(OfIndex(blocks, stops[0])), BlocksSent(Order(blocks, stops[1..])));
    }
  }

  // ----- The main results -----

  /** What an overlapping stream folds to, read off its events and its blocks. */
  function Streamed(events: seq<Event>, blocks: seq<Placed>): Mapped {
    var r := Respond(FinishAll(Order(blocks, Stops(events))));
    Mapped(Arrival(false, events), Arrival(true, events), WorthOnly(r.details), r.calls)
  }

  lemma Parts(m: Mapped, n: Mapped)
    requires Quiet(m) == Quiet(Kept(n))
    ensures m == Mapped(m.text, m.reasoning, WorthOnly(n.details), n.calls)
  {
    hide WorthOnly;
  }

  /**
   However blocks of distinct indexes overlap: the stream fails exactly if the arguments of some call
   are not JSON. Otherwise text and reasoning fold in the order they arrive, and calls and details in
   the order their blocks stop.
   */
  lemma {:induction false} OverlapFolds(valid: string -> bool, events: seq<Event>, blocks: seq<Placed>)
    requires Braided(events, blocks) && Distinct(Indexes(blocks))
    ensures Run(valid, Fresh(), events).failed <==> !AllSound(valid, blocks)
    ensures AllSound(valid, blocks) ==> Fold(Sent(valid, events)) == Streamed(events, blocks)
  {
    hide Run, Log, Untag, Tagged, Fold, Respond, FinishAll, Order, Arrival, Stops, BlocksSent, OfIndex, Braided, AllSound,
      Closings, Kept, ByStop, Plus, Indexes, Quiet, HeardAll;
    Independent(valid, events, blocks);
    if AllSound(valid, blocks) {
      var a, log, stops := Run(valid, Fresh(), events), Log(valid, Fresh(), events), Stops(events);
      FreshPart(0);
      StopsOfBlocks(events, blocks);
      StopsOrder(valid, Fresh(), events);
      ByStopBlocks(log, blocks, stops);
      var order := Order(blocks, stops);
      ArrivalFolds(valid, Fresh(), events);
      FoldClosings(a.sent);
      FoldClosings(BlocksSent(order));
      FoldBlocks(order);
      HeardQuiet(order);
      FoldEnd(valid, events);
      Parts(Fold(a.sent), Respond(FinishAll(order)));
    }
  }
}
