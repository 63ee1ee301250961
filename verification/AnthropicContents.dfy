/**
 The order of the events of a stream decides, whatever its contents, whether its text is that of the
 finished message (anthropic/adapter.go): a stream whose text does not arrive block after block goes
 wrong for some contents of the same lengths.
 */
module AnthropicContents {
  import opened AnthropicStream
  import opened AnthropicEquivalence
  import opened AnthropicFrames
  import opened AnthropicOverlap
  import opened AnthropicOrder
  import opened AnthropicAgreement
  import opened Rearranged

  // ----- Other contents -----

  /** A character for each index. */
  type Colors = int -> char

  function Fill(c: char, s: string): string { seq(|s|, k => c) }

  function FillAll(c: char, ss: seq<string>): seq<string> {
    if ss == [] then [] else [Fill(c, ss[0])] + FillAll(c, ss[1..])
  }

  function FillPart(c: char, p: ThinkingPart): ThinkingPart {
    match p
    case Thought(text) => Thought(Fill(c, text))
    case Signed(_) => p
  }

  function FillParts(c: char, parts: seq<ThinkingPart>): seq<ThinkingPart> {
    if parts == [] then [] else [FillPart(c, parts[0])] + FillParts(c, parts[1..])
  }

  function FillOther(c: char, p: OtherPart): OtherPart {
    match p
    case Said(text) => Said(Fill(c, text))
    case Mused(text) => Mused(Fill(c, text))
    case Wrote(_) => p
    case Sealed(_) => p
  }

  function FillOthers(c: char, parts: seq<OtherPart>): seq<OtherPart> {
    if parts == [] then [] else [FillOther(c, parts[0])] + FillOthers(c, parts[1..])
  }

  /** A block with every character of its text and thinking the one of its index. */
  function Paint(colors: Colors, p: Placed): Placed {
    var c := colors(p.index);
    match p.block
    case TextBlock(pieces) => p.(block := TextBlock(FillAll(c, pieces)))
    case ThinkingBlock(parts) => p.(block := ThinkingBlock(FillParts(c, parts)))
    case OtherBlock(others) => p.(block := OtherBlock(FillOthers(c, others)))
    case ToolBlock(_, _, _) => p
    case RedactedBlock(_) => p
  }

  function PaintBlocks(colors: Colors, blocks: seq<Placed>): seq<Placed> {
    if blocks == [] then [] else PaintBlocks(colors, blocks[..|blocks| - 1]) + [Paint(colors, blocks[|blocks| - 1])]
  }

  function PaintEvent(colors: Colors, e: Event): Event {
    if e.BlockDelta? then e.(text := Fill(colors(e.index), e.text), thinking := Fill(colors(e.index), e.thinking)) else e
  }

  /** The same events at the same places, with contents of the same lengths. */
  function PaintEvents(colors: Colors, events: seq<Event>): seq<Event> {
    if events == [] then [] else [PaintEvent(colors, events[0])] + PaintEvents(colors, events[1..])
  }

  // ----- They are a stream of the painted blocks -----

  lemma {:induction false} PaintAppend(colors: Colors, xs: seq<Event>, ys: seq<Event>)
    ensures PaintEvents(colors, xs + ys) == PaintEvents(colors, xs) + PaintEvents(colors, ys)
    decreases |xs|
  {
    hide PaintEvent;
    if xs == [] {
      assert xs + ys == ys;
    } else {
      PaintAppend(colors, xs[1..], ys);
      assert (xs + ys)[0] == xs[0] && (xs + ys)[1..] == xs[1..] + ys;
    }
  }

  lemma {:induction false} PaintedEvents(colors: Colors, events: seq<Event>)
    ensures |PaintEvents(colors, events)| == |events|
    ensures forall k :: 0 <= k < |events| ==> PaintEvents(colors, events)[k] == PaintEvent(colors, events[k])
    decreases |events|
  {
    hide PaintEvent;
    if events != [] { PaintedEvents(colors, events[1..]); }
  }

  lemma {:induction false} PaintedBlocks(colors: Colors, blocks: seq<Placed>)
    ensures |PaintBlocks(colors, blocks)| == |blocks|
    ensures forall k :: 0 <= k < |blocks| ==> PaintBlocks(colors, blocks)[k] == Paint(colors, blocks[k])
    decreases |blocks|
  {
    hide Paint;
    if blocks != [] { PaintedBlocks(colors, blocks[..|blocks| - 1]); }
  }

  lemma FillNone(c: char)
    ensures Fill(c, "") == ""
  {
  }

  lemma {:induction false} PaintTexts(colors: Colors, i: int, pieces: seq<string>)
    ensures PaintEvents(colors, TextEvents(i, pieces)) == TextEvents(i, FillAll(colors(i), pieces))
    ensures PaintEvents(colors, JsonEvents(i, pieces)) == JsonEvents(i, pieces)
    decreases |pieces|
  {
    FillNone(colors(i));
    if pieces != [] {
      hide Fill;
      PaintTexts(colors, i, pieces[1..]);
      assert TextEvents(i, pieces)[1..] == TextEvents(i, pieces[1..]) && JsonEvents(i, pieces)[1..] == JsonEvents(i, pieces[1..]);
      assert FillAll(colors(i), pieces)[1..] == FillAll(colors(i), pieces[1..]);
    }
  }

  lemma {:induction false} PaintParts(colors: Colors, i: int, parts: seq<ThinkingPart>)
    ensures PaintEvents(colors, PartEvents(i, parts)) == PartEvents(i, FillParts(colors(i), parts))
    decreases |parts|
  {
    FillNone(colors(i));
    if parts != [] {
      hide Fill;
      PaintParts(colors, i, parts[1..]);
      assert PartEvents(i, parts)[1..] == PartEvents(i, parts[1..]);
      assert FillParts(colors(i), parts)[1..] == FillParts(colors(i), parts[1..]);
    }
  }

  lemma {:induction false} PaintOthers(colors: Colors, i: int, parts: seq<OtherPart>)
    ensures PaintEvents(colors, OtherEvents(i, parts)) == OtherEvents(i, FillOthers(colors(i), parts))
    decreases |parts|
  {
    FillNone(colors(i));
    if parts != [] {
      hide Fill;
      PaintOthers(colors, i, parts[1..]);
      assert OtherEvents(i, parts)[1..] == OtherEvents(i, parts[1..]);
      assert FillOthers(colors(i), parts)[1..] == FillOthers(colors(i), parts[1..]);
    }
  }

  lemma PaintPieces(colors: Colors, p: Placed)
    ensures PaintEvents(colors, Pieces(p)) == Pieces(Paint(colors, p))
    ensures Opens(Paint(colors, p).block) == Opens(p.block) && Paint(colors, p).index == p.index
  {
    hide TextEvents, JsonEvents, PartEvents, OtherEvents, FillAll, FillParts, FillOthers, PaintEvent;
    match p.block
    case TextBlock(pieces) => PaintTexts(colors, p.index, pieces);
    case ToolBlock(_, _, json) => PaintTexts(colors, p.index, json);
    case ThinkingBlock(parts) => PaintParts(colors, p.index, parts);
    case OtherBlock(others) => PaintOthers(colors, p.index, others);
    case RedactedBlock(_) =>
  }

  lemma {:induction false} PaintOne(colors: Colors, e: Event)
    ensures PaintEvents(colors, [e]) == [PaintEvent(colors, e)]
  {
    hide PaintEvent;
    assert [e][1..] == [];
  }

  lemma {:induction false} PaintBlockEvents(colors: Colors, p: Placed)
    ensures PaintEvents(colors, BlockEvents(p)) == BlockEvents(Paint(colors, p))
  {
    PaintPieces(colors, p);
    hide Paint, Pieces, Opens, PaintEvents;
    PaintAppend(colors, [BlockStart(p.index, Opens(p.block))], Pieces(p) + [BlockStop(p.index)]);
    PaintAppend(colors, Pieces(p), [BlockStop(p.index)]);
    PaintOne(colors, BlockStart(p.index, Opens(p.block)));
    PaintOne(colors, BlockStop(p.index));
  }

  lemma {:induction false} PaintAllEvents(colors: Colors, blocks: seq<Placed>)
    ensures PaintEvents(colors, Events(blocks)) == Events(PaintBlocks(colors, blocks))
    decreases |blocks|
  {
    hide BlockEvents, Paint, PaintEvent;
    if blocks != [] {
      var n := |blocks| - 1;
      PaintAllEvents(colors, blocks[..n]);
      PaintedBlocks(colors, blocks[..n]);
      assert PaintBlocks(colors, blocks)[..n] == PaintBlocks(colors, blocks[..n]);
      PaintAppend(colors, Events(blocks[..n]), BlockEvents(blocks[n]));
      PaintBlockEvents(colors, blocks[n]);
    }
  }

  lemma {:induction false} PaintAtIndex(colors: Colors, events: seq<Event>, i: int)
    ensures AtIndex(PaintEvents(colors, events), i) == PaintEvents(colors, AtIndex(events, i))
    decreases |events|
  {
    if events != [] {
      hide Fill;
      PaintAtIndex(colors, events[1..], i);
      assert PaintEvents(colors, events)[1..] == PaintEvents(colors, events[1..]);
      var rest := AtIndex(events[1..], i);
      if OfBlock(events[0]) && events[0].index == i {
        assert AtIndex(events, i)[1..] == rest;
      } else {
        assert AtIndex(events, i) == rest;
      }
    }
  }

  lemma PaintKeeps(colors: Colors, p: Placed)
    ensures Paint(colors, p).index == p.index
    ensures forall valid: string -> bool :: Sound(valid, Paint(colors, p).block) == Sound(valid, p.block)
  {
  }

  lemma {:induction false} PaintOfIndex(colors: Colors, blocks: seq<Placed>, i: int)
    ensures OfIndex(PaintBlocks(colors, blocks), i) == PaintBlocks(colors, OfIndex(blocks, i))
    decreases |blocks|
  {
    hide Paint;
    if blocks != [] {
      var n := |blocks| - 1;
      PaintOfIndex(colors, blocks[..n], i);
      PaintedBlocks(colors, blocks[..n]);
      PaintKeeps(colors, blocks[n]);
      assert PaintBlocks(colors, blocks)[..n] == PaintBlocks(colors, blocks[..n]);
      var rest := OfIndex(blocks[..n], i);
      if blocks[n].index == i {
        assert OfIndex(blocks, i)[..|rest|] == rest;
      } else {
        assert OfIndex(blocks, i) == rest;
      }
    }
  }

  /** The painted events are a stream of the painted blocks. */
  lemma {:induction false} PaintBraided(colors: Colors, valid: string -> bool, events: seq<Event>, blocks: seq<Placed>)
    requires Braided(events, blocks) && Distinct(Indexes(blocks)) && AllSound(valid, blocks)
    ensures Braided(PaintEvents(colors, events), PaintBlocks(colors, blocks))
    ensures Indexes(PaintBlocks(colors, blocks)) == Indexes(blocks)
    ensures AllSound(valid, PaintBlocks(colors, blocks))
  {
    hide AtIndex, OfIndex, Events, PaintEvents, PaintBlocks, Paint, Sound;
    forall i ensures AtIndex(PaintEvents(colors, events), i) == Events(OfIndex(PaintBlocks(colors, blocks), i)) {
      PaintAtIndex(colors, events, i);
      PaintAllEvents(colors, OfIndex(blocks, i));
      PaintOfIndex(colors, blocks, i);
    }
    PaintedBlocks(colors, blocks);
    forall k | 0 <= k < |blocks|
      ensures PaintBlocks(colors, blocks)[k].index == blocks[k].index
      ensures Sound(valid, PaintBlocks(colors, blocks)[k].block) == Sound(valid, blocks[k].block)
    {
      PaintKeeps(colors, blocks[k]);
    }
  }

  // ----- Painting keeps the order and the strays -----

  lemma PaintSays(thought: bool, colors: Colors, e: Event, i: int)
    ensures Says(thought, PaintEvent(colors, e), i) <==> Says(thought, e, i)
    ensures Says(thought, e, i) ==> colors(i) in Carried(thought, PaintEvent(colors, e))
    ensures forall c :: Says(thought, e, i) && c in Carried(thought, PaintEvent(colors, e)) ==> c == colors(i)
  {
    if Says(thought, e, i) { assert Carried(thought, PaintEvent(colors, e))[0] == colors(i); }
  }

  lemma {:induction false} PaintInOrder(thought: bool, colors: Colors, events: seq<Event>, blocks: seq<Placed>)
    requires ArrivesInOrder(thought, events, blocks)
    ensures ArrivesInOrder(thought, PaintEvents(colors, events), PaintBlocks(colors, blocks))
  {
    hide PaintEvents, PaintBlocks, Paint, PaintEvent, Says;
    var pe, pb := PaintEvents(colors, events), PaintBlocks(colors, blocks);
    PaintedEvents(colors, events);
    PaintedBlocks(colors, blocks);
    forall k, x | 0 <= k < |events| && 0 <= x < |blocks|
      ensures Says(thought, pe[k], pb[x].index) <==> Says(thought, events[k], blocks[x].index)
    {
      PaintKeeps(colors, blocks[x]);
      PaintSays(thought, colors, events[k], blocks[x].index);
    }
  }

  lemma {:induction false} PaintStrays(thought: bool, c: char, parts: seq<OtherPart>)
    ensures |Strays(thought, FillOthers(c, parts))| == |Strays(thought, parts)|
    decreases |parts|
  {
    if parts != [] {
      PaintStrays(thought, c, parts[1..]);
      assert FillOthers(c, parts)[1..] == FillOthers(c, parts[1..]);
    }
  }

  lemma {:induction false} PaintNoStray(thought: bool, colors: Colors, blocks: seq<Placed>)
    ensures NoStray(thought, PaintBlocks(colors, blocks)) <==> NoStray(thought, blocks)
  {
    hide PaintBlocks, Strays, FillOthers;
    PaintedBlocks(colors, blocks);
    var pb := PaintBlocks(colors, blocks);
    forall k | 0 <= k < |blocks| ensures Stray(thought, pb[k].block) == "" <==> Stray(thought, blocks[k].block) == "" {
      var p := blocks[k];
      if p.block.OtherBlock? { PaintStrays(thought, colors(p.index), p.block.others); }
    }
    hide Stray, Paint;
  }

  // ----- Two colors tell the order -----

  predicate Only(c: char, s: string) { forall k :: 0 <= k < |s| ==> s[k] == c }

  lemma {:induction false} IndexOnly(thought: bool, colors: Colors, events: seq<Event>, i: int)
    ensures Only(colors(i), Arrival(thought, AtIndex(PaintEvents(colors, events), i)))
    decreases |events|
  {
    if events != [] {
      hide AtIndex, PaintEvent, Says;
      var painted := PaintEvents(colors, events);
      IndexOnly(thought, colors, events[1..], i);
      assert painted[1..] == PaintEvents(colors, events[1..]);
      ArrivalStep(thought, painted, i);
      hide Arrival, PaintEvents;
      PaintSays(thought, colors, events[0], i);
    }
  }

  lemma {:induction false} JoinOnly(g: int -> string, blocks: seq<Placed>, c: char)
    requires forall k :: 0 <= k < |blocks| ==> Only(c, g(blocks[k].index))
    ensures Only(c, JoinBy(g, blocks))
    decreases |blocks|
  {
    if blocks != [] {
      assert forall k :: 0 <= k < |blocks| - 1 ==> blocks[1..][k] == blocks[k + 1];
      JoinOnly(g, blocks[1..], c);
    }
  }

  /** What has a 'b' before an 'a' is not some a's followed by some b's. */
  lemma TwoColors(a: string, b: string, x: string, y: string)
    requires 'b' in a && 'a' in b && Only('a', x) && Only('b', y)
    ensures a + b != x + y
  {
    var i :| 0 <= i < |a| && a[i] == 'b';
    var j :| 0 <= j < |b| && b[j] == 'a';
    assert (a + b)[i] == 'b' && (a + b)[|a| + j] == 'a';
  }

  /** An 'a' for the first x blocks, a 'b' for the others. */
  function Split(blocks: seq<Placed>, x: nat): Colors
    requires x <= |blocks|
  {
    i => if i in Indexes(blocks[..x]) then 'a' else 'b'
  }

  lemma SplitAt(blocks: seq<Placed>, x: nat, k: nat)
    requires x <= |blocks| && k < |blocks| && Distinct(Indexes(blocks))
    ensures Split(blocks, x)(blocks[k].index) == if k < x then 'a' else 'b'
  {
    assert forall m :: 0 <= m < x ==> Indexes(blocks[..x])[m] == blocks[m].index == Indexes(blocks)[m];
    assert Indexes(blocks)[k] == blocks[k].index;
    if k < x { assert Indexes(blocks[..x])[k] == blocks[k].index; }
  }

  /** The joined text of the painted blocks is some a's followed by some b's. */
  lemma {:induction false} SplitJoin(thought: bool, events: seq<Event>, blocks: seq<Placed>, x: nat)
    requires x <= |blocks| && Distinct(Indexes(blocks))
    ensures var colors := Split(blocks, x); var pb := PaintBlocks(colors, blocks);
            var g := (i: int) => Arrival(thought, AtIndex(PaintEvents(colors, events), i));
            && |pb| == |blocks| && JoinBy(g, pb) == JoinBy(g, pb[..x]) + JoinBy(g, pb[x..])
            && Only('a', JoinBy(g, pb[..x])) && Only('b', JoinBy(g, pb[x..]))
  {
    hide Arrival, AtIndex, PaintEvents, PaintBlocks, Paint, Split, JoinBy, Only;
    var colors := Split(blocks, x);
    var pb := PaintBlocks(colors, blocks);
    var g := (i: int) => Arrival(thought, AtIndex(PaintEvents(colors, events), i));
    PaintedBlocks(colors, blocks);
    forall k | 0 <= k < |blocks| ensures Only(if k < x then 'a' else 'b', g(pb[k].index)) {
      PaintKeeps(colors, blocks[k]);
      SplitAt(blocks, x, k);
      IndexOnly(thought, colors, events, blocks[k].index);
    }
    assert pb[..x] + pb[x..] == pb;
    JoinAppend(g, pb[..x], pb[x..]);
    JoinOnly(g, pb[..x], 'a');
    JoinOnly(g, pb[x..], 'b');
  }

  /** Two events out of order: painted in two colors, what arrives is not what the blocks say. */
  lemma {:induction false} SplitTells(
      thought: bool, valid: string -> bool, events: seq<Event>, blocks: seq<Placed>, k: nat, l: nat, x: nat, y: nat)
    requires Braided(events, blocks) && Distinct(Indexes(blocks)) && AllSound(valid, blocks)
    requires k < l < |events| && y < x < |blocks|
    requires Says(thought, events[k], blocks[x].index) && Says(thought, events[l], blocks[y].index)
    ensures Arrival(thought, PaintEvents(Split(blocks, x), events)) != Spoken(thought, HeardAll(PaintBlocks(Split(blocks, x), blocks)))
  {
    hide Arrival, AtIndex, PaintEvents, PaintEvent, PaintBlocks, Split, JoinBy, Only, Braided, Spoken, HeardAll, Says, Indexes, AllSound;
    var colors := Split(blocks, x);
    var pe, pb := PaintEvents(colors, events), PaintBlocks(colors, blocks);
    PaintedEvents(colors, events);
    SplitAt(blocks, x, x);
    SplitAt(blocks, x, y);
    PaintSays(thought, colors, events[k], blocks[x].index);
    PaintSays(thought, colors, events[l], blocks[y].index);
    ArrivesBefore(thought, pe, k, l, 'b', 'a');
    SplitJoin(thought, events, blocks, x);
    PaintBraided(colors, valid, events, blocks);
    JoinHeard(thought, pe, pb);
    var g := (i: int) => Arrival(thought, AtIndex(pe, i));
    TwoColors(Arrival(thought, pe[..l]), Arrival(thought, pe[l..]), JoinBy(g, pb[..x]), JoinBy(g, pb[x..]));
  }

  // ----- The main result -----

  /** With these contents the text of the stream, or its reasoning text, is that of the message. */
  ghost predicate PaintedAgrees(thought: bool, valid: string -> bool, events: seq<Event>, blocks: seq<Placed>, colors: Colors) {
    Agrees(thought, valid, PaintEvents(colors, events), PaintBlocks(colors, blocks))
  }

  /** Some contents tell that the text does not arrive block after block. */
  lemma {:induction false} SomeContentsTell(thought: bool, valid: string -> bool, events: seq<Event>, blocks: seq<Placed>) returns (colors: Colors)
    requires Braided(events, blocks) && Distinct(Indexes(blocks)) && AllSound(valid, blocks)
    requires !ArrivesInOrder(thought, events, blocks)
    ensures !PaintedAgrees(thought, valid, events, blocks, colors)
  {
    hide Arrival, PaintEvents, PaintBlocks, Split, Braided, Spoken, HeardAll, Says, Indexes, AllSound, Respond, FinishAll, Agrees, NoStray;
    var k, l, x, y :| 0 <= k < l < |events| && 0 <= x < |blocks| && 0 <= y < |blocks|
      && Says(thought, events[k], blocks[x].index) && Says(thought, events[l], blocks[y].index) && y < x;
    colors := Split(blocks, x);
    SplitTells(thought, valid, events, blocks, k, l, x, y);
    PaintBraided(colors, valid, events, blocks);
    hide ArrivesInOrder;
    var pe, pb := PaintEvents(colors, events), PaintBlocks(colors, blocks);
    TextAgrees(thought, valid, pe, pb);
    HeardSpoken(thought, pb);
  }

  /**
   The order of the events decides. Keep every event and every length, and fill each block with one
   character: the text of the stream, or its reasoning text, is that of the finished message for
   every choice of the characters, if and only if it arrives block after block and no block of some
   other kind carries any.
   */
  lemma {:induction false} OrderDecides(thought: bool, valid: string -> bool, events: seq<Event>, blocks: seq<Placed>)
    requires Braided(events, blocks) && Distinct(Indexes(blocks)) && AllSound(valid, blocks)
    ensures ArrivesInOrder(thought, events, blocks) && NoStray(thought, blocks)
       <==> forall colors :: PaintedAgrees(thought, valid, events, blocks, colors)
  {
    hide Arrival, PaintEvents, PaintBlocks, Braided, Spoken, Indexes, AllSound, Respond, FinishAll, Agrees, NoStray, ArrivesInOrder;
    forall colors
      ensures ArrivesInOrder(thought, events, blocks) && NoStray(thought, blocks) ==> PaintedAgrees(thought, valid, events, blocks, colors)
      ensures PaintedAgrees(thought, valid, events, blocks, colors) ==> NoStray(thought, blocks)
    {
      PaintBraided(colors, valid, events, blocks);
      PaintNoStray(thought, colors, blocks);
      if ArrivesInOrder(thought, events, blocks) { PaintInOrder(thought, colors, events, blocks); }
      TextAgrees(thought, valid, PaintEvents(colors, events), PaintBlocks(colors, blocks));
    }
    if !ArrivesInOrder(thought, events, blocks) {
      var colors := SomeContentsTell(thought, valid, events, blocks);
    } else {
      assert PaintedAgrees(thought, valid, events, blocks, i => 'a') ==> NoStray(thought, blocks);
    }
  }
}
