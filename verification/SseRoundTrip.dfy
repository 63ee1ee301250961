/**
 The reader against the writer, for every byte-level truncation of the stream.
 */
module SseRoundTrip {
  import opened Wrappers
  import opened SseFormat
  import opened SseReader

  /** A frame as the server writes it, of any length. */
  ghost predicate WellWritten(codec: Codec, f: Frame) {
    && (f.name == EVENT_DELTA || IsTerminal(f.name))
    && f.event.kind == f.name
    && Encodes(codec, f.event, f.payload)
  }

  /** The frame's data line is within the reader's bound; the server has none. */
  predicate Fits(f: Frame) { |Body(f)| < 1048576 }

  /** The number of bytes of a frame after which the reader gives up on a line that is too long. */
  function Limit(f: Frame): nat { |Head(f)| + 1 + MAX_EVENT_BYTES }

  ghost predicate AllWellWritten(codec: Codec, frames: seq<Frame>) {
    forall i :: 0 <= i < |frames| ==> WellWritten(codec, frames[i])
  }

  function Patient(codec: Codec): Client { Client(codec, None) }

  /** The outcome of a stream that ends without anything left to decide it. */
  function Ended(end: End): Outcome { if end == Broken then ReadError else Incomplete }

  /** The number of bytes of a frame up to the end of its payload. */
  function Needed(f: Frame): nat { |Text(f)| - 2 }

  /**
   What a client should see of the first `cut` bytes of the frames: a frame counts as
   soon as its whole payload is there; a payload cut in the middle is malformed; a
   frame of which no payload byte arrived leaves the stream incomplete. A data line that
   reaches the bound is a read error, and nothing after it is seen.
   */
  function Expected(frames: seq<Frame>, cut: nat, end: End): (r: (seq<StreamEvent>, Outcome))
    decreases |frames|
  {
    if frames == [] then ([], Ended(end)) else
      var f := frames[0];
      if !Fits(f) && cut >= Limit(f) then ([], ReadError)
      else if cut >= Needed(f) then
        if IsTerminal(f.name) then ([], Terminal(f.event))
        else
          var more := Expected(frames[1..], if cut <= |Text(f)| then 0 else cut - |Text(f)|, end);
          ([f.event] + more.0, more.1)
      else if cut > |Head(f)| + 1 + 6 then ([], Malformed)
      else ([], Ended(end))
  }

  // ----- One line of a frame -----

  predicate PlainName(name: string) {
    0 < |name| < 20 && forall i :: 0 <= i < |name| ==> Plain(name[i])
  }

  lemma NamesPlain(name: string)
    requires name == EVENT_DELTA || IsTerminal(name)
    ensures PlainName(name)
  {
  }

  lemma EventField(c: Client, r: Reader, value: string)
    ensures OnLine(c, r, "event:" + value) == r.(name := TrimSpace(value))
  {
    hide TrimSpace;
    var line := "event:" + value;
    TrimPlain(line);
    assert line[6..] == value;
  }

  lemma DataField(c: Client, r: Reader, value: string)
    requires r.data == "" && |value| + 1 <= MAX_EVENT_BYTES
    ensures OnLine(c, r, "data:" + value) == r.(data := TrimPrefix(TrimPrefix(value, ' '), '\t'))
  {
    hide TrimSpace, Flush;
    var line := "data:" + value;
    TrimPlain(line);
    assert line[5..] == value;
    assert Chunk(line) == TrimPrefix(TrimPrefix(value, ' '), '\t');
  }

  /** A line that is neither blank nor a field leaves the reader as it was. */
  lemma OtherLine(c: Client, r: Reader, line: string)
    requires line != "" && Plain(line[0]) && !("event:" <= line) && !("data:" <= line)
    ensures OnLine(c, r, line) == r
  {
    hide TrimSpace, Flush;
    TrimPlain(line);
  }

  lemma NameLine(c: Client, r: Reader, f: Frame)
    requires PlainName(f.name)
    ensures OnLine(c, r, Head(f)) == r.(name := f.name)
  {
    hide TrimSpace, OnLine;
    EventField(c, r, " " + f.name);
    assert Head(f) == "event:" + (" " + f.name);
    TrimField(f.name);
  }

  /** A data line holding the first `k` bytes of the payload. */
  lemma DataLine(codec: Codec, r: Reader, f: Frame, k: nat)
    requires WellWritten(codec, f) && k <= |f.payload| && r.data == "" && 6 + k < MAX_EVENT_BYTES
    ensures OnLine(Patient(codec), r, "data: " + f.payload[..k]) == r.(data := f.payload[..k])
  {
    hide OnLine;
    DataField(Patient(codec), r, " " + f.payload[..k]);
    assert "data: " + f.payload[..k] == "data:" + (" " + f.payload[..k]);
    assert (" " + f.payload[..k])[1..] == f.payload[..k];
  }

  // ----- A whole frame -----

  lemma FrameClean(codec: Codec, f: Frame)
    requires WellWritten(codec, f)
    ensures '\n' !in Head(f) && '\r' !in Head(f) && 0 < |Head(f)| < MAX_EVENT_BYTES && PlainName(f.name)
    ensures '\n' !in Body(f) && '\r' !in Body(f)
  {
    hide IsTerminal;
    NamesPlain(f.name);
  }

  /** After the name line, with the reader holding the name. */
  function Named(events: seq<StreamEvent>, f: Frame): Reader { Reader(f.name, "", events, Pending) }

  /** With the whole payload read. */
  function Loaded(events: seq<StreamEvent>, f: Frame): Reader { Reader(f.name, f.payload, events, Pending) }

  lemma {:induction false} AfterHead(codec: Codec, events: seq<StreamEvent>, f: Frame, rest: string, end: End)
    requires WellWritten(codec, f)
    ensures ReadFrom(Patient(codec), Fresh(events), Head(f) + ("\n" + rest), end)
         == ReadFrom(Patient(codec), Named(events, f), rest, end)
  {
    hide ReadFrom, NextLine, OnLine;
    FrameClean(codec, f);
    NextIs(Head(f), rest);
    NameLine(Patient(codec), Fresh(events), f);
    ReadLine(Patient(codec), Fresh(events), Head(f) + ("\n" + rest), end);
  }

  lemma {:induction false} AfterBody(codec: Codec, events: seq<StreamEvent>, f: Frame, rest: string, end: End)
    requires WellWritten(codec, f) && Fits(f)
    ensures ReadFrom(Patient(codec), Named(events, f), Body(f) + ("\n" + rest), end)
         == ReadFrom(Patient(codec), Loaded(events, f), rest, end)
  {
    hide ReadFrom, NextLine, OnLine;
    FrameClean(codec, f);
    NextIs(Body(f), rest);
    DataLine(codec, Named(events, f), f, |f.payload|);
    assert f.payload[..|f.payload|] == f.payload;
    ReadLine(Patient(codec), Named(events, f), Body(f) + ("\n" + rest), end);
  }

  lemma {:induction false} AfterBlank(codec: Codec, r: Reader, rest: string, end: End)
    requires r.outcome == Pending
    ensures ReadFrom(Patient(codec), r, "\n" + rest, end) == ReadFrom(Patient(codec), Flush(Patient(codec), r), rest, end)
  {
    hide ReadFrom, NextLine, Flush;
    NextIs("", rest);
    assert "" + ("\n" + rest) == "\n" + rest;
    assert TrimSpace("") == "";
    ReadLine(Patient(codec), r, "\n" + rest, end);
  }

  lemma {:induction false} WholeFrame(codec: Codec, events: seq<StreamEvent>, f: Frame, rest: string, end: End)
    requires WellWritten(codec, f) && Fits(f)
    ensures ReadFrom(Patient(codec), Fresh(events), Text(f) + rest, end)
         == ReadFrom(Patient(codec), Flush(Patient(codec), Loaded(events, f)), rest, end)
  {
    hide ReadFrom, Flush;
    assert Text(f) + rest == Head(f) + ("\n" + (Body(f) + ("\n" + ("\n" + rest))));
    AfterHead(codec, events, f, Body(f) + ("\n" + ("\n" + rest)), end);
    AfterBody(codec, events, f, "\n" + rest, end);
    AfterBlank(codec, Loaded(events, f), rest, end);
  }

  /** Flushing a whole frame delivers its event, or ends the stream with it. */
  lemma FlushLoaded(codec: Codec, events: seq<StreamEvent>, f: Frame)
    requires WellWritten(codec, f)
    ensures Flush(Patient(codec), Loaded(events, f))
         == if IsTerminal(f.name) then Reader("", "", events, Terminal(f.event)) else Fresh(events + [f.event])
  {
    NamesPlain(f.name);
    hide IsTerminal;
  }

  // ----- A cut frame -----

  /** Nothing of the payload arrived. */
  predicate NothingMore(r: Reader, events: seq<StreamEvent>, end: End) {
    r.events == events && r.outcome == Ended(end)
  }

  /** The stream ends inside a line, or right after one. */
  lemma {:induction false} LastLine(c: Client, r: Reader, line: string, end: End)
    requires r.outcome == Pending && OnLine(c, r, line).outcome == Pending
    requires '\n' !in line && '\r' !in line && 0 < |line| < MAX_EVENT_BYTES
    ensures ReadFrom(c, r, line, end) == AtEnd(c, OnLine(c, r, line), end == Broken)
  {
    hide ReadFrom, NextLine, OnLine, AtEnd;
    LastIs(line);
    ReadLine(c, r, line, end);
    ReadDone(c, OnLine(c, r, line), end);
  }

  /** A prefix of the name line says at most something about the name. */
  lemma HeadPrefix(c: Client, events: seq<StreamEvent>, f: Frame, cut: nat)
    requires 0 < cut <= |Head(f)|
    ensures var r := OnLine(c, Fresh(events), Head(f)[..cut]); r.data == "" && r.events == events && r.outcome == Pending
  {
    hide TrimSpace;
    var line := Head(f)[..cut];
    assert line[0] == 'e';
    TrimPlain(line);
  }

  lemma {:induction false} CutHead(codec: Codec, events: seq<StreamEvent>, f: Frame, cut: nat, end: End)
    requires WellWritten(codec, f) && cut <= |Head(f)|
    ensures NothingMore(ReadFrom(Patient(codec), Fresh(events), Head(f)[..cut], end), events, end)
  {
    hide ReadFrom, OnLine, Flush;
    if cut == 0 {
      assert Head(f)[..cut] == "";
      ReadDone(Patient(codec), Fresh(events), end);
    } else {
      FrameClean(codec, f);
      HeadPrefix(Patient(codec), events, f, cut);
      LastLine(Patient(codec), Fresh(events), Head(f)[..cut], end);
    }
  }

  /** A prefix of the data line without any payload says nothing. */
  lemma FieldPrefix(c: Client, r: Reader, k: nat)
    requires 0 < k <= 6 && r.data == ""
    ensures OnLine(c, r, "data: "[..k]) == r
  {
    hide OnLine;
    var line := "data: "[..k];
    if k == 5 {
      assert line == "data:" + "";
      DataField(c, r, "");
    } else if k == 6 {
      assert line == "data:" + " ";
      DataField(c, r, " ");
    } else {
      OtherLine(c, r, line);
    }
  }

  lemma {:induction false} CutField(codec: Codec, events: seq<StreamEvent>, f: Frame, k: nat, end: End)
    requires k <= 6
    ensures NothingMore(ReadFrom(Patient(codec), Named(events, f), "data: "[..k], end), events, end)
  {
    hide ReadFrom, OnLine, Flush;
    if k == 0 {
      assert "data: "[..k] == "";
      ReadDone(Patient(codec), Named(events, f), end);
    } else {
      FieldPrefix(Patient(codec), Named(events, f), k);
      LastLine(Patient(codec), Named(events, f), "data: "[..k], end);
    }
  }

  /** `k` bytes of the payload arrived, and the stream ends there. */
  lemma CutPayload(codec: Codec, events: seq<StreamEvent>, f: Frame, k: nat, end: End)
    requires WellWritten(codec, f) && 0 < k <= |f.payload| && 6 + k < MAX_EVENT_BYTES
    ensures var r := Named(events, f).(data := f.payload[..k]);
            ReadFrom(Patient(codec), Named(events, f), Body(f)[..6 + k], end) == AtEnd(Patient(codec), r, end == Broken)
  {
    hide ReadFrom, OnLine, AtEnd;
    FrameClean(codec, f);
    var line := Body(f)[..6 + k];
    assert line == "data: " + f.payload[..k];
    DataLine(codec, Named(events, f), f, k);
    LastLine(Patient(codec), Named(events, f), line, end);
  }

  lemma SplitText(f: Frame, k: nat)
    requires k <= |Body(f)| + 2
    ensures Text(f)[..|Head(f)| + 1 + k] == Head(f) + ("\n" + (Body(f) + "\n\n")[..k])
    ensures |Text(f)| == |Head(f)| + 1 + |Body(f)| + 2
    ensures k <= |Body(f)| ==> (Body(f) + "\n\n")[..k] == Body(f)[..k]
    ensures k == |Body(f)| + 1 ==> (Body(f) + "\n\n")[..k] == Body(f) + ("\n" + "")
  {
  }

  lemma {:induction false} CutEarly(codec: Codec, events: seq<StreamEvent>, f: Frame, cut: nat, end: End)
    requires WellWritten(codec, f) && cut <= |Head(f)| + 1 + 6
    ensures NothingMore(ReadFrom(Patient(codec), Fresh(events), Text(f)[..cut], end), events, end)
  {
    hide ReadFrom;
    var h := |Head(f)| + 1;
    if cut < h {
      assert Text(f)[..cut] == Head(f)[..cut];
      CutHead(codec, events, f, cut, end);
    } else {
      SplitText(f, cut - h);
      assert Body(f)[..cut - h] == "data: "[..cut - h];
      AfterHead(codec, events, f, "data: "[..cut - h], end);
      CutField(codec, events, f, cut - h, end);
    }
  }

  lemma {:induction false} CutMiddle(codec: Codec, events: seq<StreamEvent>, f: Frame, cut: nat, end: End)
    requires WellWritten(codec, f) && |Head(f)| + 1 + 6 < cut < Needed(f) && cut < Limit(f)
    ensures var r := ReadFrom(Patient(codec), Fresh(events), Text(f)[..cut], end);
            r.events == events && r.outcome == Malformed
  {
    hide ReadFrom;
    var k := cut - |Head(f)| - 1;
    SplitText(f, k);
    AfterHead(codec, events, f, Body(f)[..k], end);
    CutPayload(codec, events, f, k - 6, end);
  }

  lemma {:induction false} CutLate(codec: Codec, events: seq<StreamEvent>, f: Frame, cut: nat, end: End)
    requires WellWritten(codec, f) && Fits(f) && Needed(f) <= cut < |Text(f)|
    ensures ReadFrom(Patient(codec), Fresh(events), Text(f)[..cut], end) == AtEnd(Patient(codec), Loaded(events, f), end == Broken)
  {
    hide ReadFrom, AtEnd;
    var k := cut - |Head(f)| - 1;
    SplitText(f, k);
    AfterHead(codec, events, f, (Body(f) + "\n\n")[..k], end);
    if k == |Body(f)| {
      assert Body(f)[..6 + |f.payload|] == Body(f)[..k];
      CutPayload(codec, events, f, |f.payload|, end);
      assert f.payload[..|f.payload|] == f.payload;
    } else {
      AfterBody(codec, events, f, "", end);
      ReadDone(Patient(codec), Loaded(events, f), end);
    }
  }

  // ----- A frame that is too long -----

  lemma TooLongLine(line: string, rest: string)
    requires '\n' !in line && |line| >= MAX_EVENT_BYTES
    ensures NextLine(line + rest) == TooLong
  {
    var s := line + rest;
    var i := IndexOf(s, '\n');
    assert forall k :: 0 <= k < |line| ==> s[k] == line[k];
  }

  lemma {:induction false} ReadTooLong(c: Client, r: Reader, s: string, end: End)
    requires r.outcome == Pending && NextLine(s) == TooLong
    ensures ReadFrom(c, r, s, end) == AtEnd(c, r, true)
  {
    hide OnLine, NextLine, AtEnd;
  }

  /** Enough of an oversize data line has arrived: the reader stops there, whatever follows. */
  lemma {:induction false} Oversize(codec: Codec, events: seq<StreamEvent>, f: Frame, received: string, end: End)
    requires WellWritten(codec, f) && !Fits(f) && Limit(f) <= |received| && Text(f)[..Limit(f)] <= received
    ensures var r := ReadFrom(Patient(codec), Fresh(events), received, end); r.events == events && r.outcome == ReadError
  {
    hide ReadFrom, NextLine;
    var line, rest := Body(f)[..MAX_EVENT_BYTES], received[Limit(f)..];
    assert Text(f)[..Limit(f)] == Head(f) + ("\n" + line);
    assert received == Head(f) + ("\n" + (line + rest));
    FrameClean(codec, f);
    AfterHead(codec, events, f, line + rest, end);
    TooLongLine(line, rest);
    ReadTooLong(Patient(codec), Named(events, f), line + rest, end);
  }

  /** The reader has delivered and reports what is expected, after what it had delivered before. */
  predicate AsExpected(r: Reader, events: seq<StreamEvent>, ex: (seq<StreamEvent>, Outcome)) {
    r.events == events + ex.0 && r.outcome == ex.1
  }

  lemma {:induction false} ExpectedNone(frames: seq<Frame>, end: End)
    ensures Expected(frames, 0, end) == ([], Ended(end))
  {
  }

  lemma {:induction false} CutFrame(codec: Codec, events: seq<StreamEvent>, frames: seq<Frame>, cut: nat, end: End)
    requires frames != [] && WellWritten(codec, frames[0]) && cut < |Text(frames[0])| && (Fits(frames[0]) || cut < Limit(frames[0]))
    ensures AsExpected(ReadFrom(Patient(codec), Fresh(events), Text(frames[0])[..cut], end), events, Expected(frames, cut, end))
  {
    hide ReadFrom, Flush, IsTerminal;
    var f := frames[0];
    ExpectedNone(frames[1..], end);
    LimitWithin(f);
    if cut <= |Head(f)| + 1 + 6 {
      CutEarly(codec, events, f, cut, end);
    } else if cut < Needed(f) {
      CutMiddle(codec, events, f, cut, end);
    } else {
      CutLate(codec, events, f, cut, end);
      FlushLoaded(codec, events, f);
    }
  }

  /** All of the frame is there, within the bound or not. */
  lemma {:induction false} LimitWithin(f: Frame)
    ensures !Fits(f) ==> Limit(f) <= Needed(f)
    ensures Fits(f) ==> Needed(f) < Limit(f)
    ensures 0 < Needed(f) < |Text(f)|
  {
  }

  lemma {:induction false} WireStarts(frames: seq<Frame>, n: nat, cut: nat)
    requires frames != [] && n <= |Text(frames[0])| && n <= cut <= |Wire(frames)|
    ensures Text(frames[0])[..n] <= Wire(frames)[..cut]
    ensures n == cut ==> Text(frames[0])[..n] == Wire(frames)[..cut]
  {
    hide Text;
  }

  lemma {:induction false} WireGoesOn(frames: seq<Frame>, cut: nat)
    requires frames != [] && |Text(frames[0])| <= cut <= |Wire(frames)|
    ensures cut - |Text(frames[0])| <= |Wire(frames[1..])|
    ensures Wire(frames)[..cut] == Text(frames[0]) + Wire(frames[1..])[..cut - |Text(frames[0])|]
  {
    hide Text;
  }

  lemma {:induction false} WireLength(frames: seq<Frame>)
    requires frames != []
    ensures |Wire(frames)| == |Text(frames[0])| + |Wire(frames[1..])|
  {
  }

  /**
   For every sequence of written frames, every number of bytes of them that arrived
   and either way of ending: the events delivered and the outcome are the expected ones.
   */
  lemma {:induction false} Truncated(codec: Codec, events: seq<StreamEvent>, frames: seq<Frame>, cut: nat, end: End)
    requires AllWellWritten(codec, frames) && cut <= |Wire(frames)|
    ensures AsExpected(ReadFrom(Patient(codec), Fresh(events), Wire(frames)[..cut], end), events, Expected(frames, cut, end))
    decreases |frames|
  {
    hide ReadFrom, Flush, IsTerminal;
    if frames == [] {
      assert Wire(frames)[..cut] == "";
      ReadDone(Patient(codec), Fresh(events), end);
      return;
    }
    var f := frames[0];
    LimitWithin(f);
    WireLength(frames);
    hide Wire, Text, Fits, Limit, Needed, Expected, WellWritten, AsExpected;
    assert WellWritten(codec, f);
    if !Fits(f) && cut >= Limit(f) {
      TruncatedOversize(codec, events, frames, cut, end);
    } else if cut < |Text(f)| {
      WireStarts(frames, cut, cut);
      CutFrame(codec, events, frames, cut, end);
    } else {
      NextFrame(codec, events, frames, cut, end);
      ExpectedNext(events, frames, cut, end);
      if !IsTerminal(f.name) {
        Truncated(codec, events + [f.event], frames[1..], cut - |Text(f)|, end);
      }
    }
  }

  lemma {:induction false} TruncatedOversize(codec: Codec, events: seq<StreamEvent>, frames: seq<Frame>, cut: nat, end: End)
    requires frames != [] && WellWritten(codec, frames[0]) && !Fits(frames[0]) && Limit(frames[0]) <= cut <= |Wire(frames)|
    ensures AsExpected(ReadFrom(Patient(codec), Fresh(events), Wire(frames)[..cut], end), events, Expected(frames, cut, end))
  {
    hide ReadFrom, Wire, Text;
    LimitWithin(frames[0]);
    WireStarts(frames, Limit(frames[0]), cut);
    Oversize(codec, events, frames[0], Wire(frames)[..cut], end);
  }

  /** A whole frame within the bound is read, and reading goes on after it unless it is terminal. */
  lemma {:induction false} NextFrame(codec: Codec, events: seq<StreamEvent>, frames: seq<Frame>, cut: nat, end: End)
    requires frames != [] && WellWritten(codec, frames[0]) && Fits(frames[0]) && |Text(frames[0])| <= cut <= |Wire(frames)|
    ensures cut - |Text(frames[0])| <= |Wire(frames[1..])|
    ensures ReadFrom(Patient(codec), Fresh(events), Wire(frames)[..cut], end)
         == if IsTerminal(frames[0].name) then Reader("", "", events, Terminal(frames[0].event))
            else ReadFrom(Patient(codec), Fresh(events + [frames[0].event]), Wire(frames[1..])[..cut - |Text(frames[0])|], end)
  {
    hide ReadFrom, Wire, Text, Flush, IsTerminal, WellWritten, Fits;
    var f := frames[0];
    WireGoesOn(frames, cut);
    var rest := Wire(frames[1..])[..cut - |Text(f)|];
    WholeFrame(codec, events, f, rest, end);
    FlushLoaded(codec, events, f);
    if IsTerminal(f.name) { Stops(Patient(codec), Reader("", "", events, Terminal(f.event)), rest, end); }
  }

  /** The expectation of a whole frame. */
  lemma {:induction false} ExpectedNext(events: seq<StreamEvent>, frames: seq<Frame>, cut: nat, end: End)
    requires frames != [] && Fits(frames[0]) && |Text(frames[0])| <= cut
    ensures IsTerminal(frames[0].name) ==>
      AsExpected(Reader("", "", events, Terminal(frames[0].event)), events, Expected(frames, cut, end))
    ensures !IsTerminal(frames[0].name) ==> forall r ::
      AsExpected(r, events + [frames[0].event], Expected(frames[1..], cut - |Text(frames[0])|, end)) ==>
        AsExpected(r, events, Expected(frames, cut, end))
  {
    hide IsTerminal, Text;
    var f := frames[0];
    LimitWithin(f);
    var more := Expected(frames[1..], cut - |Text(f)|, end);
    assert events + [] == events;
    assert events + [f.event] + more.0 == events + ([f.event] + more.0);
  }

  // ----- What the expectation promises -----

  /** The events before the first terminal one. */
  function Deltas(frames: seq<Frame>): seq<StreamEvent> {
    if frames == [] || IsTerminal(frames[0].name) then [] else [frames[0].event] + Deltas(frames[1..])
  }

  lemma {:induction false} DeltasCount(frames: seq<Frame>)
    ensures |Deltas(frames)| <= |frames|
    ensures |Deltas(frames)| < |frames| ==> IsTerminal(frames[|Deltas(frames)|].name)
    ensures forall i :: 0 <= i < |Deltas(frames)| ==> Deltas(frames)[i] == frames[i].event
  {
    if frames != [] && !IsTerminal(frames[0].name) {
      DeltasCount(frames[1..]);
    }
  }

  /** The events before the first frame that is terminal or too long. */
  function Readable(frames: seq<Frame>): seq<StreamEvent> {
    if frames == [] || !Fits(frames[0]) || IsTerminal(frames[0].name) then [] else [frames[0].event] + Readable(frames[1..])
  }

  /** Where the reader gives up on a line that is too long, if such a frame comes before the end or is it. */
  function Overflow(frames: seq<Frame>): Option<nat> {
    if frames == [] then None
    else if !Fits(frames[0]) then Some(Limit(frames[0]))
    else if IsTerminal(frames[0].name) then None
    else match Overflow(frames[1..])
      case None => None
      case Some(n) => Some(|Text(frames[0])| + n)
  }

  /** Where the payload of the first terminal frame ends, if there is such a frame and it can be read. */
  function TerminalEnd(frames: seq<Frame>): (n: Option<nat>)
    ensures n.Some? ==> n.value > 0
  {
    if frames == [] || !Fits(frames[0]) then None
    else if IsTerminal(frames[0].name) then Some(Needed(frames[0]))
    else match TerminalEnd(frames[1..])
      case None => None
      case Some(n) => Some(|Text(frames[0])| + n)
  }

  lemma {:induction false} ExpectedHonest(frames: seq<Frame>, cut: nat, end: End)
    ensures var ex := Expected(frames, cut, end);
            && ex.0 <= Readable(frames) <= Deltas(frames)
            && (ex.1.Terminal? <==> TerminalEnd(frames).Some? && TerminalEnd(frames).value <= cut)
            && (ex.1.Terminal? ==> ex.0 == Deltas(frames) && |ex.0| < |frames| && ex.1 == Terminal(frames[|ex.0|].event))
    decreases |frames|
  {
    hide IsTerminal, Text, Needed, Fits, Limit, Head;
    if frames != [] {
      var f := frames[0];
      LimitWithin(f);
      ExpectedHonest(frames[1..], if cut <= |Text(f)| then 0 else cut - |Text(f)|, end);
    }
  }

  /** The reader has come to the bound of a frame that is too long. */
  predicate Overflowed(frames: seq<Frame>, cut: nat) { Overflow(frames).Some? && Overflow(frames).value <= cut }

  /** What is left of the cut after a whole frame. */
  function Later(f: Frame, cut: nat): nat { if cut <= |Text(f)| then 0 else cut - |Text(f)| }

  lemma {:induction false} OverflowedLater(frames: seq<Frame>, cut: nat)
    requires frames != [] && Fits(frames[0]) && !IsTerminal(frames[0].name)
    ensures Overflowed(frames, cut) <==> Overflowed(frames[1..], Later(frames[0], cut))
    ensures Overflowed(frames, cut) ==> cut > |Text(frames[0])|
  {
    hide IsTerminal, Text, Fits, Limit;
    OverflowPositive(frames[1..]);
  }

  lemma {:induction false} ExpectedOverflow(frames: seq<Frame>, cut: nat, end: End)
    ensures var ex := Expected(frames, cut, end);
            && (Overflowed(frames, cut) ==> ex == (Readable(frames), ReadError))
            && (!ex.1.Terminal? && !Overflowed(frames, cut) ==> ex.1 == Malformed || ex.1 == Ended(end))
    decreases |frames|
  {
    hide IsTerminal, Text, Needed, Fits, Limit, Head;
    if frames != [] { LimitWithin(frames[0]); }
    if frames != [] && Fits(frames[0]) && !IsTerminal(frames[0].name) {
      OverflowedLater(frames, cut);
      hide Overflowed;
      ExpectedOverflow(frames[1..], Later(frames[0], cut), end);
    }
  }

  lemma {:induction false} OverflowPositive(frames: seq<Frame>)
    ensures Overflow(frames).Some? ==> Overflow(frames).value > 0
    ensures Overflow(frames).Some? ==> TerminalEnd(frames).None?
  {
    if frames != [] { OverflowPositive(frames[1..]); }
  }

  /**
   Every truncation of every written stream, as the caller sees it: the deltas
   delivered are a prefix of the deltas written before the first terminal event; Wait
   reports a terminal event exactly if the whole payload of the first one arrived and no frame up
   to it is too long, and then it is that event after all deltas. If the bound of a frame that is
   too long was reached, Wait reports a read error and the outcome is lost, even if the frame is the
   terminal one. Otherwise Wait reports a malformed or an incomplete stream, or the read error.
   */
  lemma {:induction false} StreamSafety(codec: Codec, frames: seq<Frame>, cut: nat, end: End)
    requires AllWellWritten(codec, frames) && cut <= |Wire(frames)|
    ensures var r := ReadFrom(Patient(codec), Fresh([]), Wire(frames)[..cut], end);
            && r.events <= Readable(frames) <= Deltas(frames)
            && (r.outcome.Terminal? <==> TerminalEnd(frames).Some? && TerminalEnd(frames).value <= cut)
            && (r.outcome.Terminal? ==>
                  r.events == Deltas(frames) && |r.events| < |frames| && r.outcome == Terminal(frames[|r.events|].event))
            && (Overflowed(frames, cut) ==> r.events == Readable(frames) && r.outcome == ReadError)
            && (!r.outcome.Terminal? && !Overflowed(frames, cut) ==> r.outcome == Malformed || r.outcome == Ended(end))
  {
    hide ReadFrom, Expected;
    Truncated(codec, [], frames, cut, end);
    ExpectedHonest(frames, cut, end);
    ExpectedOverflow(frames, cut, end);
    assert [] + Expected(frames, cut, end).0 == Expected(frames, cut, end).0;
  }

  lemma {:induction false} EndsWithin(frames: seq<Frame>)
    ensures TerminalEnd(frames).Some? ==> TerminalEnd(frames).value <= |Wire(frames)|
    ensures Overflow(frames).Some? ==> Overflow(frames).value <= |Wire(frames)|
    ensures Overflow(frames).None? ==> (TerminalEnd(frames).Some? <==> |Deltas(frames)| < |frames|)
    ensures Overflow(frames).None? ==> Readable(frames) == Deltas(frames)
  {
    hide IsTerminal, Text, Fits, Limit, Needed;
    if frames != [] {
      LimitWithin(frames[0]);
      EndsWithin(frames[1..]);
    }
  }

  /** The reader gives up exactly if a frame up to the first terminal one is too long. */
  lemma {:induction false} OverflowExists(frames: seq<Frame>)
    ensures |Deltas(frames)| <= |frames|
    ensures Overflow(frames).Some? <==> exists i :: 0 <= i <= |Deltas(frames)| && i < |frames| && !Fits(frames[i])
    decreases |frames|
  {
    hide IsTerminal, Text, Fits, Limit;
    DeltasCount(frames);
    if frames != [] && Fits(frames[0]) && !IsTerminal(frames[0].name) {
      var more := frames[1..];
      OverflowExists(more);
      assert |Deltas(frames)| == |Deltas(more)| + 1;
      if Overflow(more).Some? {
        var i :| 0 <= i <= |Deltas(more)| && i < |more| && !Fits(more[i]);
        assert !Fits(frames[i + 1]);
      } else {
        assert forall i :: 0 <= i < |more| ==> more[i] == frames[i + 1];
      }
    }
  }

  /**
   The uncut stream: exactly the written events up to the first terminal one, if and only if no
   frame up to it is too long. Otherwise what was written before that frame, and a read error.
   */
  lemma {:induction false} RoundTrip(codec: Codec, frames: seq<Frame>)
    requires AllWellWritten(codec, frames)
    ensures |Deltas(frames)| <= |frames|
    ensures var r := ReadFrom(Patient(codec), Fresh([]), Wire(frames), Clean);
            if exists i :: 0 <= i <= |Deltas(frames)| && i < |frames| && !Fits(frames[i])
            then r.events == Readable(frames) && r.outcome == ReadError
            else if |Deltas(frames)| < |frames|
            then r.events == Deltas(frames) && r.outcome == Terminal(frames[|Deltas(frames)|].event)
            else r.events == Deltas(frames) && r.outcome == Incomplete
  {
    hide ReadFrom, Expected, Fits;
    DeltasCount(frames);
    OverflowExists(frames);
    Truncated(codec, [], frames, |Wire(frames)|, Clean);
    assert Wire(frames)[..|Wire(frames)|] == Wire(frames);
    ExpectedHonest(frames, |Wire(frames)|, Clean);
    ExpectedOverflow(frames, |Wire(frames)|, Clean);
    EndsWithin(frames);
    if Overflow(frames).None? && |Deltas(frames)| == |frames| { ExpectedAll(frames); }
  }

  lemma {:induction false} ExpectedAll(frames: seq<Frame>)
    requires |Deltas(frames)| == |frames| && Overflow(frames).None?
    ensures Expected(frames, |Wire(frames)|, Clean) == (Deltas(frames), Incomplete)
  {
    if frames != [] {
      DeltasCount(frames[1..]);
      ExpectedAll(frames[1..]);
    }
  }

  /** The outcome of a whole stream is told exactly if there is one and every frame up to it is within the bound. */
  lemma {:induction false} BoundIsExact(codec: Codec, frames: seq<Frame>)
    requires AllWellWritten(codec, frames)
    ensures |Deltas(frames)| <= |frames|
    ensures ReadFrom(Patient(codec), Fresh([]), Wire(frames), Clean).outcome.Terminal?
       <==> |Deltas(frames)| < |frames| && forall i :: 0 <= i <= |Deltas(frames)| && i < |frames| ==> Fits(frames[i])
  {
    hide ReadFrom, Wire, Deltas, Fits, AllWellWritten;
    RoundTrip(codec, frames);
  }
}
