/**
 The stream route of the server (httpapi/stream.go): the delta loop, the terminal event
 and the writes, with any redactor, any encoding failure and any write failure.
 */
module SseServer {
  import opened Wrappers
  import opened SseFormat
  import opened SseEvents
  import opened SseReader
  import opened SseRoundTrip

  // ----- What the stream should hold -----

  function EventsOf(frames: seq<Frame>): (r: seq<StreamEvent>)
    ensures |r| == |frames|
    ensures forall i :: 0 <= i < |frames| ==> r[i] == frames[i].event
  {
    seq(|frames|, i requires 0 <= i < |frames| => frames[i].event)
  }

  /** Frames of delta events, in order. */
  predicate DeltaFrames(s: Setting, frames: seq<Frame>) {
    forall i :: 0 <= i < |frames| ==>
      frames[i].name == EVENT_DELTA == frames[i].event.kind && s.codec.marshal(frames[i].event) == Some(frames[i].payload)
  }

  predicate Ending(s: Setting, f: Frame) {
    IsTerminal(f.name) && f.event.kind == f.name && s.codec.marshal(f.event) == Some(f.payload)
  }

  /** All frames but the last are deltas; the last may be terminal. */
  ghost predicate Ordered(s: Setting, frames: seq<Frame>) {
    || DeltaFrames(s, frames)
    || (frames != [] && DeltaFrames(s, frames[..|frames| - 1]) && Ending(s, frames[|frames| - 1]))
  }

  ghost predicate Ends(s: Setting, frames: seq<Frame>) {
    frames != [] && Ending(s, frames[|frames| - 1])
  }

  /** Everything the run has to say: its projected deltas, then its own end with the usage of all deltas. */
  function Script(s: Setting, deltas: seq<StreamDelta>, r: RunResult): seq<StreamEvent> {
    Projected(s, deltas) + [TerminalEvent(s, r, TotalUsage(deltas))]
  }

  /** The encoder refuses the event at place `n`. */
  predicate Refuses(s: Setting, events: seq<StreamEvent>, n: nat) { n < |events| && s.codec.marshal(events[n]).None? }

  /** How many events can be encoded before one cannot. */
  function Encodable(s: Setting, events: seq<StreamEvent>): nat {
    if events == [] || s.codec.marshal(events[0]).None? then 0 else 1 + Encodable(s, events[1..])
  }

  /**
   The deltas in the frames are the first ones of the run. An end is the run's own end after all of
   them, or the fallback in the place of an event that cannot be encoded.
   */
  ghost predicate Served(s: Setting, deltas: seq<StreamDelta>, r: RunResult, frames: seq<Frame>) {
    && Ordered(s, frames)
    && Deltas(frames) <= Projected(s, deltas)
    && (Ends(s, frames) ==>
          var last := frames[|frames| - 1].event;
          || (last == FallbackEvent(s) && Refuses(s, Script(s, deltas, r), |Deltas(frames)|))
          || (last == TerminalEvent(s, r, TotalUsage(deltas)) && Deltas(frames) == Projected(s, deltas)))
  }

  /** The internal failure, in the place of an event that cannot be encoded. */
  predicate TellsFailure(s: Setting, e: StreamEvent) {
    e == BLANK.(kind := "run_failed", error := Some(s.errorBody("internal_error")))
  }

  /** The frames tell of the first deltas of the run and, if they end, of its own end or of a failure. */
  ghost predicate Tell(s: Setting, deltas: seq<StreamDelta>, r: RunResult, frames: seq<Frame>) {
    && TellsFirst(s, deltas, Deltas(frames))
    && (Ends(s, frames) ==>
          var last := frames[|frames| - 1].event;
          || TellsFailure(s, last)
          || (EndsRun(s, deltas, r, last) && |Deltas(frames)| == |Shown(s, deltas)|))
  }

  lemma {:induction false} FramesTell(s: Setting, deltas: seq<StreamDelta>, r: RunResult, frames: seq<Frame>)
    requires Served(s, deltas, r, frames)
    ensures Tell(s, deltas, r, frames)
  {
    hide Projected, TotalUsage, TerminalEvent, Shown, TellsFirst, EndsRun, Script, Refuses, Ending, DeltaFrames;
    ProjectedTells(s, deltas);
    TellsPrefix(s, deltas, Projected(s, deltas), Deltas(frames));
    EndTold(s, deltas, r);
  }

  /** With no write failing: every event up to the first that cannot be encoded, which the fallback replaces. */
  ghost predicate Delivered(s: Setting, deltas: seq<StreamDelta>, r: RunResult, frames: seq<Frame>) {
    var script := Script(s, deltas, r);
    var n := Encodable(s, script);
    n <= |script| && EventsOf(frames) == script[..n]
      + if n < |script| && s.codec.marshal(FallbackEvent(s)).Some? then [FallbackEvent(s)] else []
  }

  lemma {:induction false} EncodableIs(s: Setting, events: seq<StreamEvent>, n: nat)
    requires n <= |events| && (n == |events| || s.codec.marshal(events[n]).None?)
    requires forall k :: 0 <= k < n ==> s.codec.marshal(events[k]).Some?
    ensures Encodable(s, events) == n
    decreases |events|
  {
    if events != [] && n > 0 {
      assert forall k :: 0 <= k < |events| - 1 ==> events[1..][k] == events[k + 1];
      EncodableIs(s, events[1..], n - 1);
    }
  }

  lemma {:induction false} ProjectedGrows(s: Setting, deltas: seq<StreamDelta>, n: nat)
    requires n <= |deltas|
    ensures Projected(s, deltas[..n]) <= Projected(s, deltas)
    decreases |deltas|
  {
    if n == |deltas| {
      assert deltas[..n] == deltas;
    } else {
      ProjectedGrows(s, deltas[..|deltas| - 1], n);
      assert deltas[..|deltas| - 1][..n] == deltas[..n];
    }
  }

  /** The deltas of frames that are all deltas, with or without an end after them. */
  lemma {:induction false} DeltasOf(s: Setting, frames: seq<Frame>, last: seq<Frame>)
    requires DeltaFrames(s, frames) && |last| <= 1 && forall i :: 0 <= i < |last| ==> IsTerminal(last[i].name)
    ensures Deltas(frames + last) == EventsOf(frames)
    decreases |frames|
  {
    if frames == [] {
      assert frames + last == last;
    } else {
      assert !IsTerminal(EVENT_DELTA);
      DeltasOf(s, frames[1..], last);
      assert (frames + last)[1..] == frames[1..] + last;
      assert EventsOf(frames) == [frames[0].event] + EventsOf(frames[1..]);
    }
  }

  lemma {:induction false} AppendFrame(frames: seq<Frame>, f: Frame)
    ensures Text(f) == "event: " + f.name + "\ndata: " + f.payload + "\n\n"
    ensures Wire(frames + [f]) == Wire(frames) + Text(f)
  {
    WireAppend(frames, [f]);
    assert Wire([f]) == Text(f) + Wire([f][1..]);
  }

  class Response {
    const setting: Setting
    var wire: string
    var writes: nat
    var dead: bool
    ghost var frames: seq<Frame>

    /** What is on the wire is what the frames say, cut only if the connection died. */
    ghost predicate Valid()
      reads this
    {
      wire <= Wire(frames) && (!dead ==> wire == Wire(frames))
    }

    constructor (setting: Setting)
      ensures Valid() && frames == [] && !dead && writes == 0 && this.setting == setting
    {
      this.setting := setting;
      wire, writes, dead, frames := "", 0, false, [];
    }

    method WriteFrame(ghost event: StreamEvent, name: string, payload: string) returns (ok: bool)
      requires Valid() && !dead
      modifies this
      ensures Valid() && frames == old(frames) + [Frame(name, event, payload)]
      ensures ok == !dead && writes == old(writes) + 1
      ensures dead <==> setting.fails(old(writes)).Some?
    {
      hide Wire, Text;
      ghost var f := Frame(name, event, payload);
      var frame := "event: " + name + "\ndata: " + payload + "\n\n";
      AppendFrame(frames, f);
      frames := frames + [f];
      var failure := setting.fails(writes);
      writes := writes + 1;
      match failure {
        case None =>
          wire := wire + frame;
          ok := true;
        case Some(n) =>
          wire := wire + frame[..if n < |frame| then n else |frame|];
          dead := true;
          ok := false;
      }
    }

    /** writeEvent: the event, or a terminal failure in its place; false always ends the stream. */
    method WriteEvent(name: string, event: StreamEvent) returns (ok: bool)
      requires Valid() && !dead
      modifies this
      ensures Valid()
      ensures ok ==> !dead
      ensures setting.codec.marshal(event).Some? ==>
        && ok == !dead
        && frames == old(frames) + [Frame(name, event, setting.codec.marshal(event).value)]
      ensures setting.codec.marshal(event).None? ==>
        var fallback := FallbackEvent(setting);
        && !ok
        && frames == old(frames) + if setting.codec.marshal(fallback).None? then []
                                   else [Frame(EVENT_FAILED, fallback, setting.codec.marshal(fallback).value)]
      ensures (forall k :: setting.fails(k) == None) ==> !dead
    {
      var payload := setting.codec.marshal(event);
      if payload.None? {
        var fallback := setting.codec.marshal(FallbackEvent(setting));
        if fallback.None? {
          return false;
        }
        var _ := WriteFrame(FallbackEvent(setting), EVENT_FAILED, fallback.value);
        return false;
      }
      ok := WriteFrame(event, name, payload.value);
    }

    /**
     handleAgentStream, from the first delta on. Whatever the redactor suppresses, the
     encoder refuses or the connection loses: deltas come first and in order, at most
     one terminal frame comes last, and one does come if every write succeeds and the
     fallback can be encoded. A terminal event that is the run's own follows all deltas
     and carries the usage summed over all of them. With no write failing, every projected
     delta and the run's own end are written, up to the first event that cannot be encoded.
     */
    method HandleAgentStream(deltas: seq<StreamDelta>, result: RunResult)
      requires Valid() && frames == [] && !dead
      modifies this
      ensures Valid() && Served(setting, deltas, result, frames)
      ensures (forall k :: setting.fails(k) == None) ==> Delivered(setting, deltas, result, frames) && wire == Wire(frames)
      ensures (forall k :: setting.fails(k) == None)
              && (forall n :: 0 <= n < |Script(setting, deltas, result)| ==> !Refuses(setting, Script(setting, deltas, result), n)) ==>
        EventsOf(frames) == Projected(setting, deltas) + [TerminalEvent(setting, result, TotalUsage(deltas))]
      ensures (forall k :: setting.fails(k) == None) && setting.codec.marshal(FallbackEvent(setting)).Some? ==>
        Ends(setting, frames) && wire == Wire(frames)
      ensures Tell(setting, deltas, result, frames)
    {
      hide Wire, Served, Delivered, Tell, Script, Refuses, Ends, TerminalEvent, FallbackEvent, HasContent, TextParts, Projected,
        TotalUsage, DeltaFrames, EventsOf;
      var total := ZERO_USAGE;
      Nothing(setting, deltas);
      for i := 0 to |deltas|
        invariant Valid() && !dead && total == TotalUsage(deltas[..i])
        invariant DeltaFrames(setting, frames) && EventsOf(frames) == Projected(setting, deltas[..i])
      {
        OneMore(setting, deltas, i);
        total := Added(total, deltas[i].usage);
        var redacted := setting.redact(deltas[i]);
        if !HasContent(redacted) {
          continue;
        }
        ghost var before := frames;
        var ok := WriteEvent(EVENT_DELTA, EventOf(redacted));
        if !ok {
          Stopped(setting, deltas, result, before, frames, i, EventOf(redacted));
          FramesTell(setting, deltas, result, frames);
          if !dead { StoppedDelivers(setting, deltas, result, before, frames, i, EventOf(redacted)); }
          return;
        }
        Extended(setting, before, frames, EventOf(redacted));
      }
      assert deltas[..|deltas|] == deltas;
      ghost var before := frames;
      var _ := WriteEvent(TerminalName(result), TerminalEvent(setting, result, total));
      Finished(setting, deltas, result, before, frames);
      FramesTell(setting, deltas, result, frames);
      FinishedDelivers(setting, deltas, result, before, frames);
    }
  }

  lemma {:induction false} Nothing(s: Setting, deltas: seq<StreamDelta>)
    ensures TotalUsage(deltas[..0]) == ZERO_USAGE && DeltaFrames(s, []) && EventsOf([]) == Projected(s, deltas[..0])
  {
  }

  /** One more delta, in the running usage and in the projected events. */
  lemma {:induction false} OneMore(s: Setting, deltas: seq<StreamDelta>, i: nat)
    requires i < |deltas|
    ensures TotalUsage(deltas[..i + 1]) == Added(TotalUsage(deltas[..i]), deltas[i].usage)
    ensures var d := s.redact(deltas[i]);
            Projected(s, deltas[..i + 1]) == Projected(s, deltas[..i]) + if HasContent(d) then [EventOf(d)] else []
    ensures Projected(s, deltas[..i + 1]) <= Projected(s, deltas)
  {
    hide HasContent, EventOf;
    assert deltas[..i + 1][..i] == deltas[..i];
    ProjectedGrows(s, deltas, i + 1);
  }

  lemma Extended(s: Setting, before: seq<Frame>, after: seq<Frame>, e: StreamEvent)
    requires DeltaFrames(s, before) && e.kind == EVENT_DELTA && s.codec.marshal(e).Some?
    requires after == before + [Frame(EVENT_DELTA, e, s.codec.marshal(e).value)]
    ensures DeltaFrames(s, after) && EventsOf(after) == EventsOf(before) + [e]
  {
  }

  lemma {:induction false} ScriptAt(s: Setting, deltas: seq<StreamDelta>, r: RunResult, events: seq<StreamEvent>, e: StreamEvent)
    requires events + [e] <= Projected(s, deltas)
    ensures |events| < |Script(s, deltas, r)| && Script(s, deltas, r)[|events|] == e
  {
    hide Projected, TerminalEvent, TotalUsage;
    assert (events + [e])[|events|] == e;
  }

  /** Deltas alone. */
  lemma {:induction false} ServedDeltas(s: Setting, deltas: seq<StreamDelta>, r: RunResult, frames: seq<Frame>)
    requires DeltaFrames(s, frames) && EventsOf(frames) <= Projected(s, deltas)
    ensures Served(s, deltas, r, frames)
  {
    hide Projected, TotalUsage, TerminalEvent, FallbackEvent, Script;
    DeltasOf(s, frames, []);
    assert frames + [] == frames;
    assert frames != [] ==> frames[|frames| - 1].name == EVENT_DELTA && !IsTerminal(EVENT_DELTA);
  }

  /** Deltas and an end. */
  lemma {:induction false} ServedEnd(s: Setting, deltas: seq<StreamDelta>, r: RunResult, before: seq<Frame>, last: Frame)
    requires DeltaFrames(s, before) && EventsOf(before) <= Projected(s, deltas) && Ending(s, last)
    requires || (last.event == FallbackEvent(s) && Refuses(s, Script(s, deltas, r), |before|))
             || (last.event == TerminalEvent(s, r, TotalUsage(deltas)) && EventsOf(before) == Projected(s, deltas))
    ensures Served(s, deltas, r, before + [last]) && Ends(s, before + [last])
  {
    hide Projected, TotalUsage, TerminalEvent, FallbackEvent, Script, Refuses, IsTerminal;
    DeltasOf(s, before, [last]);
    assert (before + [last])[..|before|] == before;
  }

  /** The frames after a delta that could not be written. */
  lemma {:induction false} Stopped(s: Setting, deltas: seq<StreamDelta>, r: RunResult, before: seq<Frame>, after: seq<Frame>, i: nat, e: StreamEvent)
    requires i < |deltas| && DeltaFrames(s, before)
    requires EventsOf(before) + [e] == Projected(s, deltas[..i + 1]) <= Projected(s, deltas) && e.kind == EVENT_DELTA
    requires if s.codec.marshal(e).Some? then after == before + [Frame(EVENT_DELTA, e, s.codec.marshal(e).value)]
             else after == before + if s.codec.marshal(FallbackEvent(s)).None? then []
                                    else [Frame(EVENT_FAILED, FallbackEvent(s), s.codec.marshal(FallbackEvent(s)).value)]
    ensures Served(s, deltas, r, after)
    ensures s.codec.marshal(e).None? && s.codec.marshal(FallbackEvent(s)).Some? ==> Ends(s, after)
  {
    hide Projected, TotalUsage, HasContent, TerminalEvent, Served, DeltaFrames, EventsOf, Script;
    assert EventsOf(before) <= EventsOf(before) + [e];
    if s.codec.marshal(e).Some? {
      Extended(s, before, after, e);
      ServedDeltas(s, deltas, r, after);
    } else if s.codec.marshal(FallbackEvent(s)).None? {
      assert after == before;
      ServedDeltas(s, deltas, r, before);
    } else {
      ScriptAt(s, deltas, r, EventsOf(before), e);
      ServedEnd(s, deltas, r, before, Frame(EVENT_FAILED, FallbackEvent(s), s.codec.marshal(FallbackEvent(s)).value));
    }
  }

  /** The frames after the terminal event. */
  lemma {:induction false} Finished(s: Setting, deltas: seq<StreamDelta>, r: RunResult, before: seq<Frame>, after: seq<Frame>)
    requires DeltaFrames(s, before) && EventsOf(before) == Projected(s, deltas)
    requires var e := TerminalEvent(s, r, TotalUsage(deltas));
             if s.codec.marshal(e).Some? then after == before + [Frame(TerminalName(r), e, s.codec.marshal(e).value)]
             else after == before + if s.codec.marshal(FallbackEvent(s)).None? then []
                                    else [Frame(EVENT_FAILED, FallbackEvent(s), s.codec.marshal(FallbackEvent(s)).value)]
    ensures Served(s, deltas, r, after)
    ensures s.codec.marshal(FallbackEvent(s)).Some? ==> Ends(s, after)
  {
    hide Projected, TotalUsage, HasContent, Served, DeltaFrames;
    var e := TerminalEvent(s, r, TotalUsage(deltas));
    if s.codec.marshal(e).Some? {
      ServedEnd(s, deltas, r, before, Frame(TerminalName(r), e, s.codec.marshal(e).value));
    } else if s.codec.marshal(FallbackEvent(s)).None? {
      assert after == before;
      ServedDeltas(s, deltas, r, before);
    } else {
      assert Script(s, deltas, r)[|before|] == e;
      ServedEnd(s, deltas, r, before, Frame(EVENT_FAILED, FallbackEvent(s), s.codec.marshal(FallbackEvent(s)).value));
    }
  }

  /** Frames of deltas hold events that were encoded. */
  lemma DeltasEncoded(s: Setting, frames: seq<Frame>)
    requires DeltaFrames(s, frames)
    ensures forall k :: 0 <= k < |frames| ==> s.codec.marshal(EventsOf(frames)[k]).Some?
  {
  }

  lemma {:induction false} StoppedDelivers(s: Setting, deltas: seq<StreamDelta>, r: RunResult, before: seq<Frame>, after: seq<Frame>, i: nat, e: StreamEvent)
    requires i < |deltas| && DeltaFrames(s, before) && s.codec.marshal(e).None?
    requires EventsOf(before) + [e] == Projected(s, deltas[..i + 1]) <= Projected(s, deltas)
    requires after == before + if s.codec.marshal(FallbackEvent(s)).None? then []
                               else [Frame(EVENT_FAILED, FallbackEvent(s), s.codec.marshal(FallbackEvent(s)).value)]
    ensures Delivered(s, deltas, r, after)
    ensures Refuses(s, Script(s, deltas, r), |before|) && |before| < |Script(s, deltas, r)|
  {
    hide Projected, TotalUsage, TerminalEvent, FallbackEvent, DeltaFrames;
    var script := Script(s, deltas, r);
    DeltasEncoded(s, before);
    var all := EventsOf(before) + [e];
    assert all[|before|] == e && script[..|before|] == EventsOf(before) && script[|before|] == e;
    forall k | 0 <= k < |before| ensures s.codec.marshal(script[k]).Some? { assert script[k] == EventsOf(before)[k]; }
    EncodableIs(s, script, |before|);
  }

  lemma {:induction false} FinishedDelivers(s: Setting, deltas: seq<StreamDelta>, r: RunResult, before: seq<Frame>, after: seq<Frame>)
    requires DeltaFrames(s, before) && EventsOf(before) == Projected(s, deltas)
    requires var e := TerminalEvent(s, r, TotalUsage(deltas));
             if s.codec.marshal(e).Some? then after == before + [Frame(TerminalName(r), e, s.codec.marshal(e).value)]
             else after == before + if s.codec.marshal(FallbackEvent(s)).None? then []
                                    else [Frame(EVENT_FAILED, FallbackEvent(s), s.codec.marshal(FallbackEvent(s)).value)]
    ensures Delivered(s, deltas, r, after)
    ensures Refuses(s, Script(s, deltas, r), |before|) || EventsOf(after) == Script(s, deltas, r)
    ensures Script(s, deltas, r) == Projected(s, deltas) + [TerminalEvent(s, r, TotalUsage(deltas))]
    ensures |Script(s, deltas, r)| == |before| + 1
  {
    hide Projected, TotalUsage, TerminalEvent, FallbackEvent, DeltaFrames;
    var script := Script(s, deltas, r);
    DeltasEncoded(s, before);
    forall k | 0 <= k < |before| ensures s.codec.marshal(script[k]).Some? { assert script[k] == EventsOf(before)[k]; }
    assert script[..|before|] == EventsOf(before) && script[..|script|] == script;
    EncodableIs(s, script, if s.codec.marshal(script[|before|]).Some? then |script| else |before|);
  }

  // ----- Server and client together -----

  lemma WrittenWell(s: Setting, frames: seq<Frame>)
    requires JsonLike(s.codec) && Ordered(s, frames)
    ensures AllWellWritten(s.codec, frames)
  {
    hide IsTerminal;
    forall i | 0 <= i < |frames|
      ensures WellWritten(s.codec, frames[i])
    {
      var f := frames[i];
      assert i < |frames| - 1 ==> f == frames[..|frames| - 1][i];
      assert s.codec.marshal(f.event) == Some(f.payload);
      assert Encodes(s.codec, f.event, f.payload);
    }
  }

  /** Client and server together, in terms of the projected deltas and the terminal event. */
  lemma {:induction false} Received(s: Setting, deltas: seq<StreamDelta>, r: RunResult, frames: seq<Frame>, received: string, end: End)
    requires JsonLike(s.codec) && Served(s, deltas, r, frames) && received <= Wire(frames)
    ensures var c := ReadFrom(Patient(s.codec), Fresh([]), received, end);
            && c.events <= Projected(s, deltas)
            && (c.outcome.Terminal? ==>
                  || (c.outcome.event == FallbackEvent(s) && Refuses(s, Script(s, deltas, r), |c.events|))
                  || (c.outcome.event == TerminalEvent(s, r, TotalUsage(deltas)) && c.events == Projected(s, deltas)))
            && (!c.outcome.Terminal? ==> c.outcome == Malformed || c.outcome == ReadError || c.outcome == Incomplete)
            && (c.outcome == ReadError ==> end == Broken || exists i :: 0 <= i < |frames| && !Fits(frames[i]))
  {
    hide ReadFrom, Fits, Projected, TotalUsage, TerminalEvent, FallbackEvent, Wire, IsTerminal, Refuses, EventsOf, Script;
    WrittenWell(s, frames);
    assert received == Wire(frames)[..|received|];
    StreamSafety(s.codec, frames, |received|, end);
    DeltasCount(frames);
    OverflowExists(frames);
    var c := ReadFrom(Patient(s.codec), Fresh([]), received, end);
    if c.outcome.Terminal? {
      LastTerminal(s, frames, |c.events|);
    }
  }

  /**
   A client of this server, whatever the server met while writing and however much of
   it arrived: the client's events tell of the first deltas of the run that have something to tell,
   as the redactor left them. If Wait reports a terminal event, it is the run's own end with the
   usage summed over all deltas, and then the client has been told of every such delta; or the
   internal failure, in the place of an event that cannot be encoded. If every event was written,
   within the client's bound, and arrived, the client has all of this.
   A read error means that the connection broke or a frame was too long for the client.
   */
  lemma {:induction false} EndToEnd(s: Setting, deltas: seq<StreamDelta>, r: RunResult, frames: seq<Frame>, received: string, end: End)
    requires JsonLike(s.codec) && Served(s, deltas, r, frames) && received <= Wire(frames)
    ensures var c := ReadFrom(Patient(s.codec), Fresh([]), received, end);
            && c.events <= Projected(s, deltas) && TellsFirst(s, deltas, c.events)
            && (c.outcome.Terminal? ==>
                  || (TellsFailure(s, c.outcome.event) && Refuses(s, Script(s, deltas, r), |c.events|))
                  || (EndsRun(s, deltas, r, c.outcome.event) && c.events == Projected(s, deltas) && |c.events| == |Shown(s, deltas)|))
            && (!c.outcome.Terminal? ==> c.outcome == Malformed || c.outcome == ReadError || c.outcome == Incomplete)
            && (c.outcome == ReadError ==> end == Broken || exists i :: 0 <= i < |frames| && !Fits(frames[i]))
    ensures EventsOf(frames) == Script(s, deltas, r) && received == Wire(frames) && (forall i :: 0 <= i < |frames| ==> Fits(frames[i])) ==>
      var c := ReadFrom(Patient(s.codec), Fresh([]), received, end);
      && c.events == Projected(s, deltas) && |c.events| == |Shown(s, deltas)| && c.outcome.Terminal? && EndsRun(s, deltas, r, c.outcome.event)
  {
    hide ReadFrom, Fits, Projected, TotalUsage, TerminalEvent, Wire, Refuses, TellsFirst, EndsRun, Shown, Served, Ending, DeltaFrames;
    Received(s, deltas, r, frames, received, end);
    ProjectedTells(s, deltas);
    EndTold(s, deltas, r);
    TellsPrefix(s, deltas, Projected(s, deltas), ReadFrom(Patient(s.codec), Fresh([]), received, end).events);
    if EventsOf(frames) == Script(s, deltas, r) && received == Wire(frames) && forall i :: 0 <= i < |frames| ==> Fits(frames[i]) {
      ServedOrder(s, deltas, r, frames);
      AllArrives(s, deltas, r, frames, end);
    }
  }

  lemma ServedOrder(s: Setting, deltas: seq<StreamDelta>, r: RunResult, frames: seq<Frame>)
    requires Served(s, deltas, r, frames)
    ensures Ordered(s, frames)
  {
  }

  /** The terminal frame found is the last one. */
  lemma LastTerminal(s: Setting, frames: seq<Frame>, i: nat)
    requires Ordered(s, frames) && i < |frames| && IsTerminal(frames[i].name)
    ensures i == |frames| - 1 && Ends(s, frames)
  {
    assert forall j :: 0 <= j < |frames| - 1 ==> frames[..|frames| - 1][j] == frames[j];
  }

  /** A frame list with the whole script in it ends with the run's own end. */
  lemma {:induction false} ScriptEnds(s: Setting, deltas: seq<StreamDelta>, r: RunResult, frames: seq<Frame>)
    requires Ordered(s, frames) && EventsOf(frames) == Script(s, deltas, r)
    ensures Ends(s, frames) && frames[|frames| - 1].event == TerminalEvent(s, r, TotalUsage(deltas))
    ensures EventsOf(frames[..|frames| - 1]) == Projected(s, deltas) && DeltaFrames(s, frames[..|frames| - 1])
  {
    hide Projected, TotalUsage;
    var n := |frames| - 1;
    var e := TerminalEvent(s, r, TotalUsage(deltas));
    assert EventsOf(frames)[n] == e;
    assert e.kind == TerminalName(r) && TerminalName(r) != EVENT_DELTA;
    assert EventsOf(frames[..n]) == EventsOf(frames)[..n];
  }

  lemma {:induction false} AllArrives(s: Setting, deltas: seq<StreamDelta>, r: RunResult, frames: seq<Frame>, end: End)
    requires JsonLike(s.codec) && Ordered(s, frames) && EventsOf(frames) == Script(s, deltas, r)
    requires forall i :: 0 <= i < |frames| ==> Fits(frames[i])
    ensures var c := ReadFrom(Patient(s.codec), Fresh([]), Wire(frames), end);
            c.events == Projected(s, deltas) && c.outcome == Terminal(TerminalEvent(s, r, TotalUsage(deltas)))
  {
    hide ReadFrom, Fits, Projected, TotalUsage, TerminalEvent, Wire, IsTerminal, Ordered, Script;
    ScriptEnds(s, deltas, r, frames);
    WrittenWell(s, frames);
    var n := |frames| - 1;
    DeltasOf(s, frames[..n], [frames[n]]);
    assert frames[..n] + [frames[n]] == frames;
    hide DeltaFrames;
    OverflowExists(frames);
    EndsWithin(frames);
    StreamSafety(s.codec, frames, |Wire(frames)|, end);
    assert Wire(frames)[..|Wire(frames)|] == Wire(frames);
  }
}
