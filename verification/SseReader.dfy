/**
 ClientStream.read (httpapi/client_stream.go): lines become frames, frames become
 delivered events, and the end of the stream becomes the outcome of Wait.
 */
module SseReader {
  import opened Wrappers
  import opened SseFormat

  /** `patience`: the number of events the consumer takes before it goes away, if it ever does. */
  datatype Client = Client(codec: Codec, patience: Option<nat>)

  /** What Wait reports. */
  datatype Outcome =
    | Pending
    | Terminal(event: StreamEvent)   // the run's own end
    | Malformed                      // an event that cannot be decoded, or too long
    | Incomplete                     // the stream ended without a terminal event
    | ReadError                      // the body could not be read, or a line was too long
    | Abandoned                      // the consumer went away

  datatype Reader = Reader(name: string, data: string, events: seq<StreamEvent>, outcome: Outcome)

  /** How the response body ends: cleanly, or with a read error after the last byte. */
  datatype End = Clean | Broken

  function Fresh(events: seq<StreamEvent>): Reader {
    Reader("", "", events, Pending)
  }

  /** One complete frame. */
  function Flush(c: Client, r: Reader): Reader {
    if r.data == "" then Fresh(r.events) else
      match c.codec.unmarshal(r.data)
      case None => Reader("", "", r.events, Malformed)
      case Some(decoded) =>
        var event := if decoded.kind == "" then decoded.(kind := r.name) else decoded;
        if IsTerminal(r.name) then Reader("", "", r.events, Terminal(event))
        else if c.patience == Some(|r.events|) then Reader("", "", r.events, Abandoned)
        else Fresh(r.events + [event])
  }

  function TrimPrefix(s: string, c: char): string {
    if s != "" && s[0] == c then s[1..] else s
  }

  function Chunk(line: string): string
    requires |line| >= 5
  {
    TrimPrefix(TrimPrefix(line[5..], ' '), '\t')
  }

  function OnLine(c: Client, r: Reader, line: string): Reader {
    if TrimSpace(line) == "" then Flush(c, r)
    else if "event:" <= line then r.(name := TrimSpace(line[6..]))
    else if "data:" <= line then
      if |r.data| + |Chunk(line)| + 1 > MAX_EVENT_BYTES then r.(outcome := Malformed)
      else r.(data := (if r.data == "" then "" else r.data + "\n") + Chunk(line))
    else r
  }

  /** After the last line: an unterminated frame still counts, then the end decides. */
  function AtEnd(c: Client, r: Reader, failed: bool): Reader {
    var last := if r.data == "" then r else Flush(c, r);
    if last.outcome != Pending then last
    else last.(outcome := if failed then ReadError else Incomplete)
  }

  function ReadFrom(c: Client, r: Reader, rest: string, end: End): Reader
    decreases |rest|
  {
    if r.outcome != Pending then r else
      match NextLine(rest)
      case Line(line, more) => ReadFrom(c, OnLine(c, r, line), more, end)
      case TooLong => AtEnd(c, r, true)
      case Done => AtEnd(c, r, end == Broken)
  }

  /** ClientStream.read: the events delivered, in order, and the outcome. */
  method Read(c: Client, body: string, end: End) returns (events: seq<StreamEvent>, outcome: Outcome)
    ensures var r := ReadFrom(c, Fresh([]), body, end); events == r.events && outcome == r.outcome
    ensures outcome != Pending
  {
    var name, data, rest := "", "", body;
    events, outcome := [], Pending;
    ghost var result := ReadFrom(c, Fresh([]), body, end);
    Settles(c, Fresh([]), body, end);
    var tooLong := false;
    while true
      invariant outcome == Pending
      invariant ReadFrom(c, Reader(name, data, events, Pending), rest, end) == result
      decreases |rest|
    {
      var next := NextLine(rest);
      if !next.Line? {
        tooLong := next.TooLong?;
        break;
      }
      rest := next.rest;
      var line := next.text;
      if TrimSpace(line) == "" {
        name, data, events, outcome := FlushFrame(c, name, data, events);
        if outcome != Pending { return; }
      } else if "event:" <= line {
        name := TrimSpace(line[6..]);
      } else if "data:" <= line {
        var chunk := TrimPrefix(TrimPrefix(line[5..], ' '), '\t');
        if |data| + |chunk| + 1 > MAX_EVENT_BYTES {
          outcome := Malformed;
          return;
        }
        if data != "" {
          data := data + "\n";
        }
        data := data + chunk;
      }
    }
    if data != "" {
      name, data, events, outcome := FlushFrame(c, name, data, events);
      if outcome != Pending { return; }
    }
    outcome := if tooLong || end == Broken then ReadError else Incomplete;
  }

  /** read's flush closure. */
  method FlushFrame(c: Client, name: string, data: string, events: seq<StreamEvent>)
    returns (name': string, data': string, events': seq<StreamEvent>, outcome: Outcome)
    ensures Reader(name', data', events', outcome) == Flush(c, Reader(name, data, events, Pending))
  {
    name', data', events', outcome := "", "", events, Pending;
    if data == "" { return; }
    var decoded := c.codec.unmarshal(data);
    if decoded.None? {
      outcome := Malformed;
      return;
    }
    var event := decoded.value;
    if event.kind == "" {
      event := event.(kind := name);
    }
    if IsTerminal(name) {
      outcome := Terminal(event);
    } else if c.patience == Some(|events|) {
      outcome := Abandoned;
    } else {
      events' := events + [event];
    }
  }

  // ----- ReadFrom, one line at a time -----

  lemma {:induction false} ReadLine(c: Client, r: Reader, s: string, end: End)
    requires r.outcome == Pending && NextLine(s).Line?
    ensures ReadFrom(c, r, s, end) == ReadFrom(c, OnLine(c, r, NextLine(s).text), NextLine(s).rest, end)
  {
    hide OnLine, NextLine;
  }

  lemma {:induction false} ReadDone(c: Client, r: Reader, end: End)
    requires r.outcome == Pending
    ensures ReadFrom(c, r, "", end) == AtEnd(c, r, end == Broken)
  {
    hide OnLine, AtEnd;
  }

  /** Once there is an outcome nothing more is read. */
  lemma {:induction false} Stops(c: Client, r: Reader, s: string, end: End)
    requires r.outcome != Pending
    ensures ReadFrom(c, r, s, end) == r
  {
    hide OnLine, NextLine, AtEnd;
  }

  /** Reading always ends with an outcome. */
  lemma {:induction false} Settles(c: Client, r: Reader, rest: string, end: End)
    ensures ReadFrom(c, r, rest, end).outcome != Pending
    decreases |rest|
  {
    if r.outcome == Pending && NextLine(rest).Line? {
      Settles(c, OnLine(c, r, NextLine(rest).text), NextLine(rest).rest, end);
    }
  }

  // ----- The consumer going away -----

  lemma LineGrows(c: Client, r: Reader, line: string)
    ensures r.events <= OnLine(c, r, line).events
  {
  }

  lemma {:induction false} Grows(c: Client, r: Reader, rest: string, end: End)
    ensures r.events <= ReadFrom(c, r, rest, end).events
    decreases |rest|
  {
    if r.outcome == Pending && NextLine(rest).Line? {
      LineGrows(c, r, NextLine(rest).text);
      Grows(c, OnLine(c, r, NextLine(rest).text), NextLine(rest).rest, end);
    }
  }

  /** The two readers take the same line alike, unless the impatient one gives up on an event the other delivers. */
  lemma SameLine(codec: Codec, n: nat, r: Reader, line: string)
    requires r.outcome == Pending && |r.events| <= n
    ensures var full, cut := OnLine(Client(codec, None), r, line), OnLine(Client(codec, Some(n)), r, line);
            || (cut == full && |full.events| <= n)
            || (|r.events| == n && cut == Reader("", "", r.events, Abandoned) && |full.events| == n + 1 && r.events <= full.events)
  {
  }

  lemma SameEnd(codec: Codec, n: nat, r: Reader, failed: bool)
    requires r.outcome == Pending && |r.events| <= n
    ensures var full, cut := AtEnd(Client(codec, None), r, failed), AtEnd(Client(codec, Some(n)), r, failed);
            || (cut == full && |full.events| <= n)
            || (|r.events| == n && cut == Reader("", "", r.events, Abandoned) && |full.events| == n + 1 && r.events <= full.events)
  {
  }

  /**
   For every body: a consumer that goes away after `n` events has received the first
   `n` of the events a patient one receives, and notices nothing if there are no more.
   */
  lemma {:induction false} GoingAway(codec: Codec, n: nat, r: Reader, rest: string, end: End)
    requires |r.events| <= n
    ensures var full, cut := ReadFrom(Client(codec, None), r, rest, end), ReadFrom(Client(codec, Some(n)), r, rest, end);
            if |full.events| <= n then cut == full
            else cut.events == full.events[..n] && cut.outcome == Abandoned
    decreases |rest|
  {
    var full, cut := ReadFrom(Client(codec, None), r, rest, end), ReadFrom(Client(codec, Some(n)), r, rest, end);
    if r.outcome == Pending {
      match NextLine(rest)
      case Line(line, more) =>
        SameLine(codec, n, r, line);
        var r1 := OnLine(Client(codec, None), r, line);
        if |r1.events| <= n {
          GoingAway(codec, n, r1, more, end);
        } else {
          Grows(Client(codec, None), r1, more, end);
        }
      case TooLong => SameEnd(codec, n, r, true);
      case Done => SameEnd(codec, n, r, end == Broken);
    }
  }
}
