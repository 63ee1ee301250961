/**
 When a stream of overlapping blocks folds to the finished message (anthropic/adapter.go), as a
 condition on the order of its events.
 */
module AnthropicAgreement {
  import opened Wrappers
  import opened AnthropicStream
  import opened AnthropicEquivalence
  import opened AnthropicFrames
  import opened AnthropicOverlap
  import opened AnthropicOrder
  import opened Rearranged

  // ----- Text and reasoning -----

  /** Text, or reasoning text, arrives block after block: never of an earlier block after a later one. */
  ghost predicate ArrivesInOrder(thought: bool, events: seq<Event>, blocks: seq<Placed>) {
    forall k, l, x, y | 0 <= k < l < |events| && 0 <= x < |blocks| && 0 <= y < |blocks| ::
      Says(thought, events[k], blocks[x].index) && Says(thought, events[l], blocks[y].index) ==> x <= y
  }

  predicate Says(thought: bool, e: Event, i: int) { Carried(thought, e) != "" && e.BlockDelta? && e.index == i }

  function JoinBy(g: int -> string, blocks: seq<Placed>): string {
    if blocks == [] then "" else g(blocks[0].index) + JoinBy(g, blocks[1..])
  }

  lemma {:induction false} JoinSame(g: int -> string, h: int -> string, blocks: seq<Placed>)
    requires forall k :: 0 <= k < |blocks| ==> g(blocks[k].index) == h(blocks[k].index)
    ensures JoinBy(g, blocks) == JoinBy(h, blocks)
    decreases |blocks|
  {
    if blocks != [] {
      assert forall k :: 0 <= k < |blocks| - 1 ==> blocks[1..][k] == blocks[k + 1];
      JoinSame(g, h, blocks[1..]);
    }
  }

  /** One more piece at the front of one block, with nothing before it. */
  lemma {:induction false} JoinInsert(g: int -> string, h: int -> string, blocks: seq<Placed>, x: nat, c: string)
    requires x < |blocks| && g(blocks[x].index) == c + h(blocks[x].index)
    requires forall k :: 0 <= k < |blocks| && k != x ==> g(blocks[k].index) == h(blocks[k].index)
    requires forall k :: 0 <= k < x ==> h(blocks[k].index) == ""
    ensures JoinBy(g, blocks) == c + JoinBy(h, blocks)
    decreases |blocks|
  {
    assert forall k :: 0 <= k < |blocks| - 1 ==> blocks[1..][k] == blocks[k + 1];
    if x == 0 {
      JoinSame(g, h, blocks[1..]);
      Assoc(c, h(blocks[0].index), JoinBy(h, blocks[1..]));
    } else {
      assert blocks[1..][x - 1] == blocks[x];
      JoinInsert(g, h, blocks[1..], x - 1, c);
      assert "" + (c + JoinBy(h, blocks[1..])) == c + ("" + JoinBy(h, blocks[1..]));
    }
  }

  lemma {:induction false} JoinNone(g: int -> string, blocks: seq<Placed>)
    requires forall k :: 0 <= k < |blocks| ==> g(blocks[k].index) == ""
    ensures JoinBy(g, blocks) == ""
    decreases |blocks|
  {
    if blocks != [] {
      assert forall k :: 0 <= k < |blocks| - 1 ==> blocks[1..][k] == blocks[k + 1];
      JoinNone(g, blocks[1..]);
    }
  }

  lemma {:induction false} JoinLast(g: int -> string, blocks: seq<Placed>)
    requires blocks != []
    ensures JoinBy(g, blocks) == JoinBy(g, blocks[..|blocks| - 1]) + g(blocks[|blocks| - 1].index)
    decreases |blocks|
  {
    if |blocks| > 1 {
      JoinLast(g, blocks[1..]);
      assert blocks[1..][..|blocks| - 2] == blocks[..|blocks| - 1][1..];
      Assoc(g(blocks[0].index), JoinBy(g, blocks[1..][..|blocks| - 2]), g(blocks[|blocks| - 1].index));
    } else {
      assert blocks[1..] == [] && blocks[..0] == [];
    }
  }

  lemma {:induction false} SilentArrival(thought: bool, events: seq<Event>)
    requires forall k :: 0 <= k < |events| ==> Carried(thought, events[k]) == ""
    ensures Arrival(thought, events) == ""
    decreases |events|
  {
    hide Carried;
    if events != [] {
      assert forall k :: 0 <= k < |events| - 1 ==> events[1..][k] == events[k + 1];
      SilentArrival(thought, events[1..]);
    }
  }

  lemma {:induction false} AtIndexMembers(events: seq<Event>, i: int, e: Event)
    ensures e in AtIndex(events, i) <==> e in events && OfBlock(e) && e.index == i
    decreases |events|
  {
    if events != [] {
      AtIndexMembers(events[1..], i, e);
      assert events == [events[0]] + events[1..];
    }
  }

  /** An index at which nobody says anything has nothing to join. */
  lemma {:induction false} SilentIndex(thought: bool, events: seq<Event>, i: int)
    requires forall k :: 0 <= k < |events| ==> !Says(thought, events[k], i)
    ensures Arrival(thought, AtIndex(events, i)) == ""
  {
    var at := AtIndex(events, i);
    forall k | 0 <= k < |at| ensures Carried(thought, at[k]) == "" {
      AtIndexMembers(events, i, at[k]);
      assert at[k] in at;
      var m :| 0 <= m < |events| && events[m] == at[k];
      assert !Says(thought, events[m], i);
    }
    hide AtIndex;
    SilentArrival(thought, at);
  }

  /** What one index gains from one event. */
  lemma {:induction false} ArrivalStep(thought: bool, events: seq<Event>, i: int)
    requires events != []
    ensures Arrival(thought, AtIndex(events, i))
         == (if Says(thought, events[0], i) then Carried(thought, events[0]) else "") + Arrival(thought, AtIndex(events[1..], i))
  {
    var rest := AtIndex(events[1..], i);
    if OfBlock(events[0]) && events[0].index == i {
      assert AtIndex(events, i)[1..] == rest;
    } else {
      assert AtIndex(events, i) == rest;
    }
  }

  ghost predicate Addressed(thought: bool, events: seq<Event>, blocks: seq<Placed>) {
    forall k :: 0 <= k < |events| && Carried(thought, events[k]) != "" ==> events[k].BlockDelta? && events[k].index in Indexes(blocks)
  }

  lemma InOrderTail(thought: bool, events: seq<Event>, blocks: seq<Placed>)
    requires events != [] && ArrivesInOrder(thought, events, blocks) && Addressed(thought, events, blocks)
    ensures ArrivesInOrder(thought, events[1..], blocks) && Addressed(thought, events[1..], blocks)
  {
    hide Carried, Says;
    assert forall k :: 0 <= k < |events| - 1 ==> events[1..][k] == events[k + 1];
  }

  lemma {:induction false} OrderedArrival(thought: bool, events: seq<Event>, blocks: seq<Placed>)
    requires ArrivesInOrder(thought, events, blocks) && Addressed(thought, events, blocks) && Distinct(Indexes(blocks))
    ensures Arrival(thought, events) == JoinBy(i => Arrival(thought, AtIndex(events, i)), blocks)
    decreases |events|
  {
    var g := (i: int) => Arrival(thought, AtIndex(events, i));
    if events == [] {
      JoinNone(g, blocks);
    } else {
      var e, rest := events[0], events[1..];
      var h := (i: int) => Arrival(thought, AtIndex(rest, i));
      InOrderTail(thought, events, blocks);
      OrderedArrival(thought, rest, blocks);
      forall k | 0 <= k < |blocks|
        ensures g(blocks[k].index) == (if Says(thought, e, blocks[k].index) then Carried(thought, e) else "") + h(blocks[k].index)
      {
        ArrivalStep(thought, events, blocks[k].index);
      }
      if Carried(thought, e) == "" {
        JoinSame(g, h, blocks);
      } else {
        assert e.index in Indexes(blocks);
        var x :| 0 <= x < |blocks| && blocks[x].index == e.index;
        Speaker(thought, events, blocks, x);
        JoinInsert(g, h, blocks, x, Carried(thought, e));
      }
    }
  }

  /** While one block speaks, no other index gains anything, and the blocks before it have nothing to come. */
  lemma {:induction false} Speaker(thought: bool, events: seq<Event>, blocks: seq<Placed>, x: nat)
    requires events != [] && x < |blocks| && Says(thought, events[0], blocks[x].index)
    requires ArrivesInOrder(thought, events, blocks) && Distinct(Indexes(blocks))
    ensures forall k :: 0 <= k < |blocks| && k != x ==> !Says(thought, events[0], blocks[k].index)
    ensures forall k :: 0 <= k < x ==> Arrival(thought, AtIndex(events[1..], blocks[k].index)) == ""
  {
    assert forall k :: 0 <= k < |blocks| ==> Indexes(blocks)[k] == blocks[k].index;
    forall k | 0 <= k < x ensures Arrival(thought, AtIndex(events[1..], blocks[k].index)) == "" {
      forall m | 0 <= m < |events[1..]| ensures !Says(thought, events[1..][m], blocks[k].index) {
        assert events[1..][m] == events[m + 1];
      }
      SilentIndex(thought, events[1..], blocks[k].index);
    }
  }

  // ----- What a block says -----

  lemma {:induction false} ArrivalAppend(thought: bool, xs: seq<Event>, ys: seq<Event>)
    ensures Arrival(thought, xs + ys) == Arrival(thought, xs) + Arrival(thought, ys)
    decreases |xs|
  {
    hide Carried;
    if xs == [] {
      assert xs + ys == ys;
    } else {
      ArrivalAppend(thought, xs[1..], ys);
      assert (xs + ys)[0] == xs[0] && (xs + ys)[1..] == xs[1..] + ys;
      Assoc(Carried(thought, xs[0]), Arrival(thought, xs[1..]), Arrival(thought, ys));
    }
  }

  lemma {:induction false} TextArrives(i: int, pieces: seq<string>)
    ensures Arrival(false, TextEvents(i, pieces)) == Concat(pieces) && Arrival(true, TextEvents(i, pieces)) == ""
    ensures Arrival(false, JsonEvents(i, pieces)) == "" && Arrival(true, JsonEvents(i, pieces)) == ""
    decreases |pieces|
  {
    if pieces != [] {
      TextArrives(i, pieces[1..]);
      assert TextEvents(i, pieces)[1..] == TextEvents(i, pieces[1..]);
      assert JsonEvents(i, pieces)[1..] == JsonEvents(i, pieces[1..]);
    }
  }

  lemma {:induction false} PartsArrive(i: int, parts: seq<ThinkingPart>)
    ensures Arrival(true, PartEvents(i, parts)) == Thoughts(parts) && Arrival(false, PartEvents(i, parts)) == ""
    decreases |parts|
  {
    if parts != [] {
      PartsArrive(i, parts[1..]);
      assert PartEvents(i, parts)[1..] == PartEvents(i, parts[1..]);
    }
  }

  lemma {:induction false} OthersArrive(thought: bool, i: int, parts: seq<OtherPart>)
    ensures Arrival(thought, OtherEvents(i, parts)) == Strays(thought, parts)
    decreases |parts|
  {
    if parts != [] {
      OthersArrive(thought, i, parts[1..]);
      assert OtherEvents(i, parts)[1..] == OtherEvents(i, parts[1..]);
    }
  }

  lemma {:induction false} BlockArrives(thought: bool, p: Placed)
    ensures Arrival(thought, BlockEvents(p)) == Spoken(thought, Heard(p.block))
  {
    hide TextEvents, JsonEvents, PartEvents, OtherEvents, Concat, Thoughts, Strays, Arrival;
    match p.block {
      case TextBlock(pieces) => TextArrives(p.index, pieces);
      case ToolBlock(_, _, json) => TextArrives(p.index, json);
      case ThinkingBlock(parts) => PartsArrive(p.index, parts);
      case RedactedBlock(_) => SilentArrival(thought, []);
      case OtherBlock(others) => OthersArrive(thought, p.index, others);
    }
    assert Arrival(thought, Pieces(p)) == Spoken(thought, Heard(p.block));
    hide Pieces, Heard;
    SilentArrival(thought, [BlockStart(p.index, Opens(p.block))]);
    SilentArrival(thought, [BlockStop(p.index)]);
    ArrivalAppend(thought, Pieces(p), [BlockStop(p.index)]);
    ArrivalAppend(thought, [BlockStart(p.index, Opens(p.block))], Pieces(p) + [BlockStop(p.index)]);
  }

  lemma {:induction false} IndexArrives(thought: bool, events: seq<Event>, blocks: seq<Placed>, k: nat)
    requires Braided(events, blocks) && Distinct(Indexes(blocks)) && k < |blocks|
    ensures Arrival(thought, AtIndex(events, blocks[k].index)) == Spoken(thought, Heard(blocks[k].block))
  {
    hide OfIndex, AtIndex, Arrival, Heard, BlockEvents;
    OfIndexOnce(blocks, blocks[k].index);
    assert Events([blocks[k]]) == BlockEvents(blocks[k]) by {
      assert [blocks[k]][..0] == [];
      assert [] + BlockEvents(blocks[k]) == BlockEvents(blocks[k]);
    }
    BlockArrives(thought, blocks[k]);
  }

  /** Everything carried belongs to a block. */
  lemma BraidedAddressed(thought: bool, events: seq<Event>, blocks: seq<Placed>)
    requires Braided(events, blocks) && Distinct(Indexes(blocks))
    ensures Addressed(thought, events, blocks)
  {
    hide OfIndex, AtIndex;
    forall k | 0 <= k < |events| && Carried(thought, events[k]) != ""
      ensures events[k].BlockDelta? && events[k].index in Indexes(blocks)
    {
      var i := events[k].index;
      AtIndexMembers(events, i, events[k]);
      OfIndexOnce(blocks, i);
      assert AtIndex(events, i) == Events(OfIndex(blocks, i));
    }
  }

  lemma {:induction false} JoinIsSpoken(thought: bool, g: int -> string, blocks: seq<Placed>)
    requires forall k :: 0 <= k < |blocks| ==> g(blocks[k].index) == Spoken(thought, Heard(blocks[k].block))
    ensures JoinBy(g, blocks) == Spoken(thought, HeardAll(blocks))
    decreases |blocks|
  {
    if blocks != [] {
      hide Heard, JoinBy, Respond, FinishAll, HeardAll, Spoken;
      JoinLast(g, blocks);
      JoinIsSpoken(thought, g, blocks[..|blocks| - 1]);
      SpokenLast(thought, blocks);
    }
  }

  /** What each index says, joined in the order of the blocks, is what is heard of the blocks. */
  lemma {:induction false} JoinHeard(thought: bool, events: seq<Event>, blocks: seq<Placed>)
    requires Braided(events, blocks) && Distinct(Indexes(blocks))
    ensures JoinBy(i => Arrival(thought, AtIndex(events, i)), blocks) == Spoken(thought, HeardAll(blocks))
  {
    hide Arrival, AtIndex, JoinBy, Braided, Spoken, HeardAll, Heard;
    forall k | 0 <= k < |blocks|
      ensures Arrival(thought, AtIndex(events, blocks[k].index)) == Spoken(thought, Heard(blocks[k].block))
    {
      IndexArrives(thought, events, blocks, k);
    }
    JoinIsSpoken(thought, i => Arrival(thought, AtIndex(events, i)), blocks);
  }

  lemma {:induction false} ArrivalAgrees(thought: bool, events: seq<Event>, blocks: seq<Placed>)
    requires Braided(events, blocks) && Distinct(Indexes(blocks)) && ArrivesInOrder(thought, events, blocks)
    ensures Arrival(thought, events) == Spoken(thought, HeardAll(blocks))
  {
    hide Arrival, AtIndex, JoinBy, Braided, Spoken, HeardAll, ArrivesInOrder;
    BraidedAddressed(thought, events, blocks);
    OrderedArrival(thought, events, blocks);
    JoinHeard(thought, events, blocks);
  }

  // ----- Nothing is lost or added, in whatever order -----

  lemma {:induction false} JoinLonger(g: int -> string, h: int -> string, blocks: seq<Placed>, x: nat, n: nat)
    requires x < |blocks| && |g(blocks[x].index)| == n + |h(blocks[x].index)|
    requires forall k :: 0 <= k < |blocks| && k != x ==> g(blocks[k].index) == h(blocks[k].index)
    ensures |JoinBy(g, blocks)| == n + |JoinBy(h, blocks)|
    decreases |blocks|
  {
    assert forall k :: 0 <= k < |blocks| - 1 ==> blocks[1..][k] == blocks[k + 1];
    if x == 0 {
      JoinSame(g, h, blocks[1..]);
    } else {
      JoinLonger(g, h, blocks[1..], x - 1, n);
    }
  }

  /** One event makes what arrives, and what the indexes say together, longer by what it carries. */
  lemma {:induction false} LongerStep(thought: bool, events: seq<Event>, blocks: seq<Placed>)
    requires events != [] && Addressed(thought, events, blocks) && Distinct(Indexes(blocks))
    ensures |JoinBy(i => Arrival(thought, AtIndex(events, i)), blocks)|
         == |Carried(thought, events[0])| + |JoinBy(i => Arrival(thought, AtIndex(events[1..], i)), blocks)|
  {
    hide AtIndex, Arrival, JoinBy;
    var e := events[0];
    var g, h := (i: int) => Arrival(thought, AtIndex(events, i)), (i: int) => Arrival(thought, AtIndex(events[1..], i));
    forall k | 0 <= k < |blocks|
      ensures g(blocks[k].index) == (if Says(thought, e, blocks[k].index) then Carried(thought, e) else "") + h(blocks[k].index)
    {
      ArrivalStep(thought, events, blocks[k].index);
    }
    if Carried(thought, e) == "" {
      JoinSame(g, h, blocks);
    } else {
      assert e.index in Indexes(blocks);
      var x :| 0 <= x < |blocks| && blocks[x].index == e.index;
      assert forall k :: 0 <= k < |blocks| ==> Indexes(blocks)[k] == blocks[k].index;
      hide Addressed;
      JoinLonger(g, h, blocks, x, |Carried(thought, e)|);
    }
  }

  lemma {:induction false} ArrivalLength(thought: bool, events: seq<Event>, blocks: seq<Placed>)
    requires Addressed(thought, events, blocks) && Distinct(Indexes(blocks))
    ensures |Arrival(thought, events)| == |JoinBy(i => Arrival(thought, AtIndex(events, i)), blocks)|
    decreases |events|
  {
    if events == [] {
      JoinNone(i => Arrival(thought, AtIndex(events, i)), blocks);
    } else {
      hide AtIndex, JoinBy, Carried, Indexes, Distinct;
      var rest := events[1..];
      assert Addressed(thought, rest, blocks) by { assert forall k :: 0 <= k < |rest| ==> rest[k] == events[k + 1]; }
      ArrivalLength(thought, rest, blocks);
      LongerStep(thought, events, blocks);
    }
  }

  /** A stream and a message that say the same leave no text to blocks of other kinds. */
  lemma {:induction false} AgreeingNoStray(thought: bool, events: seq<Event>, blocks: seq<Placed>)
    requires Braided(events, blocks) && Distinct(Indexes(blocks))
    requires Arrival(thought, events) == Spoken(thought, Respond(FinishAll(blocks)))
    ensures NoStray(thought, blocks)
  {
    hide Arrival, AtIndex, JoinBy, Braided, Spoken, HeardAll, Respond, FinishAll, NoStray;
    BraidedAddressed(thought, events, blocks);
    ArrivalLength(thought, events, blocks);
    JoinHeard(thought, events, blocks);
    HeardSpoken(thought, blocks);
  }

  // ----- Out of order shows, where characters tell -----

  lemma {:induction false} ArrivalHas(thought: bool, events: seq<Event>, k: nat, c: char)
    requires k < |events| && c in Carried(thought, events[k])
    ensures c in Arrival(thought, events)
    decreases |events|
  {
    hide Carried;
    if k > 0 {
      assert events[1..][k - 1] == events[k];
      ArrivalHas(thought, events[1..], k - 1, c);
    }
  }

  lemma {:induction false} JoinAppend(g: int -> string, xs: seq<Placed>, ys: seq<Placed>)
    ensures JoinBy(g, xs + ys) == JoinBy(g, xs) + JoinBy(g, ys)
    decreases |xs|
  {
    if xs == [] {
      assert xs + ys == ys;
    } else {
      JoinAppend(g, xs[1..], ys);
      assert (xs + ys)[0] == xs[0] && (xs + ys)[1..] == xs[1..] + ys;
      Assoc(g(xs[0].index), JoinBy(g, xs[1..]), JoinBy(g, ys));
    }
  }

  lemma {:induction false} JoinHas(g: int -> string, blocks: seq<Placed>, x: nat, c: char)
    requires x < |blocks| && c in g(blocks[x].index)
    ensures c in JoinBy(g, blocks)
    decreases |blocks|
  {
    if x > 0 {
      assert blocks[1..][x - 1] == blocks[x];
      JoinHas(g, blocks[1..], x - 1, c);
    }
  }

  /** Of two different characters each occurring once, only one comes first. */
  lemma OnlyOneFirst(a: string, b: string, x: string, y: string, c: char, d: char)
    requires a + b == x + y && Distinct(a + b) && c in a && d in b && d in x
    ensures c !in y
  {
    var s := a + b;
    var i :| 0 <= i < |a| && a[i] == c;
    var j :| 0 <= j < |b| && b[j] == d;
    var k :| 0 <= k < |x| && x[k] == d;
    assert s[i] == c && s[|a| + j] == d && (x + y)[k] == d;
    assert k == |a| + j;
    forall m | 0 <= m < |y| ensures y[m] != c {
      assert (x + y)[|x| + m] == y[m];
    }
  }

  lemma {:induction false} ArrivesBefore(thought: bool, events: seq<Event>, k: nat, l: nat, c: char, d: char)
    requires k < l < |events| && c in Carried(thought, events[k]) && d in Carried(thought, events[l])
    ensures Arrival(thought, events) == Arrival(thought, events[..l]) + Arrival(thought, events[l..])
    ensures c in Arrival(thought, events[..l]) && d in Arrival(thought, events[l..])
  {
    hide Carried, Arrival;
    assert events[..l] + events[l..] == events && events[l..][0] == events[l] && events[..l][k] == events[k];
    ArrivalAppend(thought, events[..l], events[l..]);
    ArrivalHas(thought, events[..l], k, c);
    ArrivalHas(thought, events[l..], 0, d);
  }

  lemma {:induction false} JoinsBefore(g: int -> string, blocks: seq<Placed>, y: nat, x: nat, d: char, c: char)
    requires y < x < |blocks| && d in g(blocks[y].index) && c in g(blocks[x].index)
    ensures JoinBy(g, blocks) == JoinBy(g, blocks[..x]) + JoinBy(g, blocks[x..])
    ensures d in JoinBy(g, blocks[..x]) && c in JoinBy(g, blocks[x..])
  {
    hide JoinBy;
    assert blocks[..x] + blocks[x..] == blocks && blocks[x..][0] == blocks[x] && blocks[..x][y] == blocks[y];
    JoinAppend(g, blocks[..x], blocks[x..]);
    JoinHas(g, blocks[..x], y, d);
    JoinHas(g, blocks[x..], 0, c);
  }

  /** Two events out of order put their characters out of order. */
  lemma {:induction false} OutOfOrder(thought: bool, events: seq<Event>, blocks: seq<Placed>, k: nat, l: nat, x: nat, y: nat)
    requires k < l < |events| && y < x < |blocks|
    requires Says(thought, events[k], blocks[x].index) && Says(thought, events[l], blocks[y].index)
    requires Distinct(Arrival(thought, events))
    ensures Arrival(thought, events) != JoinBy(i => Arrival(thought, AtIndex(events, i)), blocks)
  {
    hide Arrival, JoinBy, AtIndex, Distinct;
    var g := (i: int) => Arrival(thought, AtIndex(events, i));
    var c, d := Carried(thought, events[k])[0], Carried(thought, events[l])[0];
    ArrivesBefore(thought, events, k, l, c, d);
    SaidAt(thought, events, k, blocks[x].index, c);
    SaidAt(thought, events, l, blocks[y].index, d);
    JoinsBefore(g, blocks, y, x, d, c);
    if Arrival(thought, events) == JoinBy(g, blocks) {
      OnlyOneFirst(Arrival(thought, events[..l]), Arrival(thought, events[l..]), JoinBy(g, blocks[..x]), JoinBy(g, blocks[x..]), c, d);
    }
  }

  lemma {:induction false} SaidAt(thought: bool, events: seq<Event>, k: nat, i: int, c: char)
    requires k < |events| && Says(thought, events[k], i) && c in Carried(thought, events[k])
    ensures c in Arrival(thought, AtIndex(events, i))
  {
    AtIndexMembers(events, i, events[k]);
    var at := AtIndex(events, i);
    hide AtIndex;
    var m :| 0 <= m < |at| && at[m] == events[k];
    ArrivalHas(thought, at, m, c);
  }

  /** Where no character occurs twice, the text agrees only if it arrives block after block. */
  lemma {:induction false} ArrivalTells(thought: bool, events: seq<Event>, blocks: seq<Placed>)
    requires Braided(events, blocks) && Distinct(Indexes(blocks)) && Distinct(Arrival(thought, events))
    requires Arrival(thought, events) == Spoken(thought, HeardAll(blocks))
    ensures ArrivesInOrder(thought, events, blocks)
  {
    hide Arrival, AtIndex, JoinBy, Braided, Spoken, HeardAll, Says;
    JoinHeard(thought, events, blocks);
    forall k, l, x, y | 0 <= k < l < |events| && 0 <= x < |blocks| && 0 <= y < |blocks|
      && Says(thought, events[k], blocks[x].index) && Says(thought, events[l], blocks[y].index)
      ensures x <= y
    {
      if y < x { OutOfOrder(thought, events, blocks, k, l, x, y); }
    }
  }

  // ----- Calls and details -----

  function CallOf(p: Placed): Option<ToolCall> {
    var r := FromBlock(FinishOne(p.block));
    if r.calls == [] then None else Some(r.calls[0])
  }

  /** The detail a block leaves in a stream. */
  function NoteOf(p: Placed): Option<Detail> {
    var r := FromBlock(FinishOne(p.block));
    if r.details == [] || !Worth(r.details[0]) then None else Some(r.details[0])
  }

  /** The blocks that yield something, and what they yield. */
  function Picked<V>(f: Placed -> Option<V>, xs: seq<Placed>): seq<Placed> {
    if xs == [] then []
    else Picked(f, xs[..|xs| - 1]) + if f(xs[|xs| - 1]).Some? then [xs[|xs| - 1]] else []
  }

  function Yields<V>(f: Placed -> Option<V>, xs: seq<Placed>): seq<V> {
    if xs == [] then []
    else Yields(f, xs[..|xs| - 1]) + if f(xs[|xs| - 1]).Some? then [f(xs[|xs| - 1]).value] else []
  }

  lemma {:induction false} PickedYields<V>(f: Placed -> Option<V>, xs: seq<Placed>)
    ensures |Yields(f, xs)| == |Picked(f, xs)|
    ensures forall k :: 0 <= k < |Picked(f, xs)| ==> Picked(f, xs)[k] in xs && f(Picked(f, xs)[k]) == Some(Yields(f, xs)[k])
    decreases |xs|
  {
    if xs != [] {
      PickedYields(f, xs[..|xs| - 1]);
      assert xs == xs[..|xs| - 1] + [xs[|xs| - 1]];
    }
  }

  /** What the blocks of a message yield tells them apart. */
  ghost predicate Telling<V>(f: Placed -> Option<V>, blocks: seq<Placed>) {
    forall p, q :: p in blocks && q in blocks && f(p).Some? && f(p) == f(q) ==> p == q
  }

  lemma {:induction false} PickedSame<V>(f: Placed -> Option<V>, xs: seq<Placed>, ys: seq<Placed>)
    requires Picked(f, xs) == Picked(f, ys)
    ensures Yields(f, xs) == Yields(f, ys)
  {
    hide Picked, Yields;
    PickedYields(f, xs);
    PickedYields(f, ys);
    forall k | 0 <= k < |Yields(f, xs)| ensures Yields(f, xs)[k] == Yields(f, ys)[k] {
      assert Picked(f, xs)[k] == Picked(f, ys)[k];
    }
  }

  lemma {:induction false} YieldsSame<V>(f: Placed -> Option<V>, blocks: seq<Placed>, xs: seq<Placed>, ys: seq<Placed>)
    requires Telling(f, blocks) && Yields(f, xs) == Yields(f, ys)
    requires forall p :: p in xs || p in ys ==> p in blocks
    ensures Picked(f, xs) == Picked(f, ys)
  {
    hide Picked, Yields;
    PickedYields(f, xs);
    PickedYields(f, ys);
    forall k | 0 <= k < |Picked(f, xs)| ensures Picked(f, xs)[k] == Picked(f, ys)[k] {
      assert Picked(f, xs)[k] in blocks && Picked(f, ys)[k] in blocks;
    }
  }

  lemma OneBlock(p: Placed)
    ensures var r := FromBlock(FinishOne(p.block));
            && r.calls == (if CallOf(p).Some? then [CallOf(p).value] else [])
            && WorthOnly(r.details) == (if NoteOf(p).Some? then [NoteOf(p).value] else [])
  {
    hide FinishOne, Worth;
    var ds := FromBlock(FinishOne(p.block)).details;
    if ds != [] {
      assert [] + ds == ds && ds == [ds[0]];
      WorthStep([], ds[0]);
    }
  }

  lemma {:induction false} RespondYields(xs: seq<Placed>)
    ensures Respond(FinishAll(xs)).calls == Yields(CallOf, xs)
    ensures WorthOnly(Respond(FinishAll(xs)).details) == Yields(NoteOf, xs)
    decreases |xs|
  {
    if xs != [] {
      hide Respond, FinishAll, FromBlock, FinishOne, CallOf, NoteOf, WorthOnly;
      var n := |xs| - 1;
      RespondYields(xs[..n]);
      RespondLast(xs);
      OneBlock(xs[n]);
      KeptPlus(Respond(FinishAll(xs[..n])), FinishOne(xs[n].block));
    }
  }

  // ----- The main results -----

  /** A message as a stream knows it, part by part. */
  lemma {:induction false} KeptParts(blocks: seq<Placed>)
    ensures Kept(Respond(FinishAll(blocks)))
         == Mapped(Spoken(false, Respond(FinishAll(blocks))), Spoken(true, Respond(FinishAll(blocks))),
                   Yields(NoteOf, blocks), Yields(CallOf, blocks))
  {
    hide Respond, FinishAll, Yields, WorthOnly;
    RespondYields(blocks);
  }

  lemma {:induction false} OrderWithin(events: seq<Event>, blocks: seq<Placed>, p: Placed)
    requires Braided(events, blocks) && Distinct(Indexes(blocks)) && p in Order(blocks, Stops(events))
    ensures p in blocks
  {
    hide Order, Stops, Braided;
    StopsOfBlocks(events, blocks);
    OrderIs(blocks, Stops(events));
  }

  /** The text, or the reasoning text, of a stream is that of the message. */
  ghost predicate Agrees(thought: bool, valid: string -> bool, events: seq<Event>, blocks: seq<Placed>) {
    Spoken(thought, Fold(Sent(valid, events))) == Spoken(thought, Respond(FinishAll(blocks)))
  }

  /**
   When the text of an overlapping stream, or its reasoning text, is that of the finished message.
   It is when no block of some other kind carries any and the rest arrives block after block. It is
   only if no block of some other kind carries any, and, where no character occurs twice, only if
   the rest arrives block after block.
   */
  lemma {:induction false} TextAgrees(thought: bool, valid: string -> bool, events: seq<Event>, blocks: seq<Placed>)
    requires Braided(events, blocks) && Distinct(Indexes(blocks)) && AllSound(valid, blocks)
    ensures Agrees(thought, valid, events, blocks) <==> Arrival(thought, events) == Spoken(thought, Respond(FinishAll(blocks)))
    ensures NoStray(thought, blocks) && ArrivesInOrder(thought, events, blocks) ==> Agrees(thought, valid, events, blocks)
    ensures Agrees(thought, valid, events, blocks) ==> NoStray(thought, blocks)
    ensures Agrees(thought, valid, events, blocks) && Distinct(Spoken(thought, Respond(FinishAll(blocks))))
        ==> ArrivesInOrder(thought, events, blocks)
  {
    hide Fold, Sent, Respond, FinishAll, Order, Stops, Arrival, Braided, Indexes, AllSound, WorthOnly, HeardAll, NoStray, ArrivesInOrder;
    OverlapFolds(valid, events, blocks);
    HeardSpoken(thought, blocks);
    if ArrivesInOrder(thought, events, blocks) { ArrivalAgrees(thought, events, blocks); }
    var said := Spoken(thought, Respond(FinishAll(blocks)));
    if Arrival(thought, events) == said {
      AgreeingNoStray(thought, events, blocks);
      if Distinct(said) { ArrivalTells(thought, events, blocks); }
    }
  }

  /**
   Exactly when the fold of an overlapping stream is the finished message, part by part: text and
   reasoning as above; calls when the calling blocks stop in their order in the message, and only
   then if no two calls are the same; likewise for details.
   */
  lemma {:induction false} OverlapAgrees(valid: string -> bool, events: seq<Event>, blocks: seq<Placed>)
    requires Braided(events, blocks) && Distinct(Indexes(blocks)) && AllSound(valid, blocks)
    ensures var out, m, order := Fold(Sent(valid, events)), Kept(Respond(FinishAll(blocks))), Order(blocks, Stops(events));
            && (NoStray(false, blocks) && ArrivesInOrder(false, events, blocks) ==> out.text == m.text)
            && (out.text == m.text ==> NoStray(false, blocks) && (Distinct(m.text) ==> ArrivesInOrder(false, events, blocks)))
            && (NoStray(true, blocks) && ArrivesInOrder(true, events, blocks) ==> out.reasoning == m.reasoning)
            && (out.reasoning == m.reasoning ==> NoStray(true, blocks) && (Distinct(m.reasoning) ==> ArrivesInOrder(true, events, blocks)))
    ensures var out, m, order := Fold(Sent(valid, events)), Kept(Respond(FinishAll(blocks))), Order(blocks, Stops(events));
            && (out.calls == m.calls <==> Yields(CallOf, order) == Yields(CallOf, blocks))
            && (out.details == m.details <==> Yields(NoteOf, order) == Yields(NoteOf, blocks))
            && (Picked(CallOf, order) == Picked(CallOf, blocks) ==> out.calls == m.calls)
            && (Telling(CallOf, blocks) && out.calls == m.calls ==> Picked(CallOf, order) == Picked(CallOf, blocks))
            && (Picked(NoteOf, order) == Picked(NoteOf, blocks) ==> out.details == m.details)
            && (Telling(NoteOf, blocks) && out.details == m.details ==> Picked(NoteOf, order) == Picked(NoteOf, blocks))
  {
    hide Fold, Sent, Respond, FinishAll, Order, Stops, Arrival, Braided, Indexes, AllSound, Picked, Yields, WorthOnly,
      ArrivesInOrder, CallOf, NoteOf, Telling, NoStray;
    OverlapFolds(valid, events, blocks);
    var order := Order(blocks, Stops(events));
    RespondYields(order);
    KeptParts(blocks);
    TextAgrees(false, valid, events, blocks);
    TextAgrees(true, valid, events, blocks);
    forall p | p in order ensures p in blocks { OrderWithin(events, blocks, p); }
    if Picked(CallOf, order) == Picked(CallOf, blocks) { PickedSame(CallOf, order, blocks); }
    if Picked(NoteOf, order) == Picked(NoteOf, blocks) { PickedSame(NoteOf, order, blocks); }
    if Telling(CallOf, blocks) && Yields(CallOf, order) == Yields(CallOf, blocks) { YieldsSame(CallOf, blocks, order, blocks); }
    if Telling(NoteOf, blocks) && Yields(NoteOf, order) == Yields(NoteOf, blocks) { YieldsSame(NoteOf, blocks, order, blocks); }
  }

  /** Text and reasoning arrive, and calls and details stop, in the order of the blocks. */
  ghost predicate InOrder(events: seq<Event>, blocks: seq<Placed>) {
    && ArrivesInOrder(false, events, blocks) && ArrivesInOrder(true, events, blocks)
    && Picked(CallOf, Order(blocks, Stops(events))) == Picked(CallOf, blocks)
    && Picked(NoteOf, Order(blocks, Stops(events))) == Picked(NoteOf, blocks)
  }

  /**
   Streaming agrees with not streaming: overlapping blocks that say and yield things in their order
   fold to the finished message, as far as a stream can know it, exactly if no block of some other
   kind carries text, and to the whole of it exactly if also no thinking block is both empty and
   unsigned.
   */
  lemma {:induction false} StreamingAgrees(valid: string -> bool, events: seq<Event>, blocks: seq<Placed>)
    requires Braided(events, blocks) && Distinct(Indexes(blocks)) && AllSound(valid, blocks) && InOrder(events, blocks)
    ensures Fold(Sent(valid, events)) == Kept(Respond(FinishAll(blocks))) <==> NoStray(false, blocks) && NoStray(true, blocks)
    ensures Fold(Sent(valid, events)) == Respond(FinishAll(blocks))
       <==> && (forall i :: 0 <= i < |blocks| ==> !Empty(FinishOne(blocks[i].block)))
            && NoStray(false, blocks) && NoStray(true, blocks)
  {
    hide Fold, Sent, Respond, FinishAll, Order, Stops, Braided, Indexes, AllSound, Picked, ArrivesInOrder, Empty, FinishOne,
      NoStray, WorthOnly, Yields, Telling, CallOf, NoteOf;
    OverlapAgrees(valid, events, blocks);
    KeptWhole(blocks);
  }

  // ----- Out of order -----

  lemma {:induction false} AtCons(e: Event, rest: seq<Event>, i: int)
    ensures AtIndex([e] + rest, i) == (if OfBlock(e) && e.index == i then [e] else []) + AtIndex(rest, i)
    ensures Stops([e] + rest) == (if e.BlockStop? then [e.index] else []) + Stops(rest)
    ensures Arrival(false, [e] + rest) == Carried(false, e) + Arrival(false, rest)
  {
    assert ([e] + rest)[1..] == rest;
  }

  function TextOnly(i: int, text: string): Placed { Placed(i, TextBlock([text])) }

  lemma TextOnlyEvents(i: int, text: string)
    ensures Events([TextOnly(i, text)]) == [BlockStart(i, TextOpens), BlockDelta(i, text, "", "", ""), BlockStop(i)]
    ensures FromBlock(FinishOne(TextOnly(i, text).block)).text == text
  {
    var p := TextOnly(i, text);
    assert [p][..0] == [] && [text][1..] == [];
    assert TextEvents(i, [text]) == [BlockDelta(i, text, "", "", "")] + [];
    assert Concat([text]) == text + "";
  }

  function Scrambled(): seq<Event> {
    [BlockStart(0, TextOpens)] + ([BlockStart(1, TextOpens)] + ([BlockDelta(1, "b", "", "", "")]
      + ([BlockDelta(0, "a", "", "", "")] + ([BlockStop(0)] + ([BlockStop(1)] + [])))))
  }

  lemma {:induction false} ScrambledAt(i: int)
    ensures AtIndex(Scrambled(), i)
         == if i == 0 then [BlockStart(0, TextOpens), BlockDelta(0, "a", "", "", ""), BlockStop(0)]
            else if i == 1 then [BlockStart(1, TextOpens), BlockDelta(1, "b", "", "", ""), BlockStop(1)] else []
    ensures Arrival(false, Scrambled()) == "ba"
  {
    hide AtIndex, Stops, Arrival;
    NothingAt(i);
    var e5 := [BlockStop(1)] + [];
    var e4 := [BlockStop(0)] + e5;
    var e3 := [BlockDelta(0, "a", "", "", "")] + e4;
    var e2 := [BlockDelta(1, "b", "", "", "")] + e3;
    var e1 := [BlockStart(1, TextOpens)] + e2;
    AtCons(BlockStop(1), [], i);
    AtCons(BlockStop(0), e5, i);
    AtCons(BlockDelta(0, "a", "", "", ""), e4, i);
    AtCons(BlockDelta(1, "b", "", "", ""), e3, i);
    AtCons(BlockStart(1, TextOpens), e2, i);
    AtCons(BlockStart(0, TextOpens), e1, i);
  }

  lemma {:induction false} NothingAt(i: int)
    ensures AtIndex([], i) == [] && Stops([]) == [] && Arrival(false, []) == ""
  {
  }

  /** Two text blocks that overlap, the second speaking first: the stream says "ba", the message "ab". */
  lemma OverlapScrambles(valid: string -> bool)
    ensures var blocks := [TextOnly(0, "a"), TextOnly(1, "b")];
            && Braided(Scrambled(), blocks) && Distinct(Indexes(blocks)) && AllSound(valid, blocks)
            && Fold(Sent(valid, Scrambled())).text == "ba" && Respond(FinishAll(blocks)).text == "ab"
  {
    var blocks := [TextOnly(0, "a"), TextOnly(1, "b")];
    hide AtIndex, Arrival, Stops, Events, Sent, Fold, Order, Scrambled, Run;
    assert blocks[..1] == [blocks[0]] && [blocks[0]][..0] == [];
    forall i ensures AtIndex(Scrambled(), i) == Events(OfIndex(blocks, i)) {
      ScrambledAt(i);
      OfIndexOnce(blocks, i);
      hide OfIndex;
      TextOnlyEvents(0, "a");
      TextOnlyEvents(1, "b");
      if i != 0 && i != 1 {
        assert forall k :: 0 <= k < 2 ==> Indexes(blocks)[k] != i;
        NoEvents();
      } else {
        assert blocks[i].index == i;
      }
    }
    OverlapFolds(valid, Scrambled(), blocks);
    ScrambledAt(0);
    TextOnlyEvents(0, "a");
    TextOnlyEvents(1, "b");
    RespondLast(blocks);
    RespondLast([blocks[0]]);
  }

  lemma NoEvents()
    ensures Events([]) == []
  {
  }
}
