/**
 Frames as a proxy may re-wrap them (httpapi/client_stream.go): a payload spread over several data
 lines, with keep-alive comments and unknown fields between them.
 */
module SseRewrap {
  import opened Wrappers
  import opened SseFormat
  import opened SseReader
  import opened SseRoundTrip

  /** A line of a frame after its name. */
  datatype Field = Data(text: string) | Ignored(line: string)

  function LineOf(f: Field): string { if f.Data? then "data: " + f.text else f.line }

  function Lines(fields: seq<Field>): string {
    if fields == [] then "" else LineOf(fields[0]) + ("\n" + Lines(fields[1..]))
  }

  /** A line the scanner accepts: a data line that is not empty, or a comment or an unknown field. */
  predicate Fair(f: Field) {
    var line := LineOf(f);
    && '\n' !in line && '\r' !in line && |line| < MAX_EVENT_BYTES
    && if f.Data? then f.text != "" && f.text[0] != ' ' && f.text[0] != '\t'
       else line != "" && Plain(line[0]) && !("event:" <= line) && !("data:" <= line)
  }

  /** The texts of the data lines. */
  function Texts(fields: seq<Field>): seq<string> {
    if fields == [] then [] else (if fields[0].Data? then [fields[0].text] else []) + Texts(fields[1..])
  }

  /** The texts with a newline between any two. */
  function Join(texts: seq<string>): string {
    if texts == [] then "" else if |texts| == 1 then texts[0] else texts[0] + ("\n" + Join(texts[1..]))
  }

  /** What the reader holds after these texts. */
  function Extended(data: string, texts: seq<string>): string {
    if texts == [] then data else if data == "" then Join(texts) else data + ("\n" + Join(texts))
  }

  lemma {:induction false} ExtendedStep(data: string, text: string, texts: seq<string>)
    requires text != ""
    ensures Extended(data, [text] + texts) == Extended((if data == "" then "" else data + "\n") + text, texts)
  {
    assert ([text] + texts)[1..] == texts;
    if texts == [] {
      assert [text] + texts == [text];
      assert data + "\n" + text == data + ("\n" + text);
    } else if data == "" {
      assert "" + text == text;
    } else {
      assert data + "\n" + text + ("\n" + Join(texts)) == data + ("\n" + (text + ("\n" + Join(texts))));
    }
  }

  lemma {:induction false} ExtendedLonger(data: string, texts: seq<string>)
    ensures |Extended(data, texts)| >= |data|
  {
  }

  /** One more data line. */
  lemma DataMore(c: Client, r: Reader, text: string)
    requires Fair(Data(text)) && |r.data| + |text| + 1 <= MAX_EVENT_BYTES
    ensures OnLine(c, r, "data: " + text) == r.(data := (if r.data == "" then "" else r.data + "\n") + text)
  {
    hide TrimSpace, Flush;
    var line := "data: " + text;
    TrimPlain(line);
    assert line[5..] == " " + text && (" " + text)[1..] == text;
    assert Chunk(line) == text;
  }

  lemma {:induction false} FieldRead(c: Client, r: Reader, f: Field, rest: string, end: End)
    requires r.outcome == Pending && Fair(f)
    ensures ReadFrom(c, r, LineOf(f) + ("\n" + rest), end) == ReadFrom(c, OnLine(c, r, LineOf(f)), rest, end)
  {
    hide ReadFrom, NextLine, OnLine;
    NextIs(LineOf(f), rest);
    ReadLine(c, r, LineOf(f) + ("\n" + rest), end);
  }

  lemma {:induction false} FieldsRead(c: Client, name: string, data: string, events: seq<StreamEvent>, fields: seq<Field>, rest: string, end: End)
    requires (forall i :: 0 <= i < |fields| ==> Fair(fields[i])) && |Extended(data, Texts(fields))| < MAX_EVENT_BYTES
    ensures ReadFrom(c, Reader(name, data, events, Pending), Lines(fields) + rest, end)
         == ReadFrom(c, Reader(name, Extended(data, Texts(fields)), events, Pending), rest, end)
    decreases |fields|
  {
    var r := Reader(name, data, events, Pending);
    if fields == [] {
      assert Lines(fields) + rest == rest;
    } else {
      var f, more := fields[0], fields[1..];
      assert Lines(fields) + rest == LineOf(f) + ("\n" + (Lines(more) + rest));
      assert forall i :: 0 <= i < |more| ==> more[i] == fields[i + 1];
      hide ReadFrom, OnLine, Fair, Lines, Extended;
      FieldRead(c, r, f, Lines(more) + rest, end);
      if f.Data? {
        var next := (if data == "" then "" else data + "\n") + f.text;
        assert f.text != "" by { FairData(f); }
        ExtendedStep(data, f.text, Texts(more));
        ExtendedLonger(next, Texts(more));
        DataMore(c, r, f.text);
        FieldsRead(c, name, next, events, more, rest, end);
      } else {
        assert [] + Texts(more) == Texts(more);
        IgnoredLine(c, r, f);
        FieldsRead(c, name, data, events, more, rest, end);
      }
    }
  }

  lemma FairData(f: Field)
    requires Fair(f) && f.Data?
    ensures f.text != ""
  {
  }

  lemma IgnoredLine(c: Client, r: Reader, f: Field)
    requires Fair(f) && f.Ignored?
    ensures OnLine(c, r, LineOf(f)) == r
  {
    OtherLine(c, r, f.line);
  }

  /** The event a payload decodes to, named after its frame if it has no name of its own. */
  function Named(name: string, e: StreamEvent): StreamEvent { if e.kind == "" then e.(kind := name) else e }

  lemma {:induction false} HeadRead(c: Client, events: seq<StreamEvent>, name: string, rest: string, end: End)
    requires PlainName(name)
    ensures ReadFrom(c, Fresh(events), "event: " + name + ("\n" + rest), end) == ReadFrom(c, Reader(name, "", events, Pending), rest, end)
  {
    hide ReadFrom, NextLine, OnLine, TrimSpace;
    var line := "event: " + name;
    assert forall k :: 7 <= k < |line| ==> line[k] == name[k - 7];
    NextIs(line, rest);
    ReadLine(c, Fresh(events), line + ("\n" + rest), end);
    EventField(c, Fresh(events), " " + name);
    assert line == "event:" + (" " + name);
    TrimField(name);
  }

  lemma {:induction false} BlankRead(c: Client, r: Reader, rest: string, end: End)
    requires r.outcome == Pending
    ensures ReadFrom(c, r, "\n" + rest, end) == ReadFrom(c, Flush(c, r), rest, end)
  {
    hide ReadFrom, NextLine, OnLine, Flush;
    assert "" + ("\n" + rest) == "\n" + rest;
    NextIs("", rest);
    ReadLine(c, r, "\n" + rest, end);
    BlankLine(c, r);
  }

  lemma BlankLine(c: Client, r: Reader)
    ensures OnLine(c, r, "") == Flush(c, r)
  {
  }

  /**
   However a payload is spread over data lines, and whatever comments and unknown fields stand
   between them, a client reads the event of its lines joined by newlines, named after the frame if
   it has no name: it delivers it and reads on, or ends if the frame is terminal, or if the joined
   lines cannot be decoded.
   */
  lemma {:induction false} Rewrapped(codec: Codec, events: seq<StreamEvent>, name: string, fields: seq<Field>, rest: string, end: End)
    requires PlainName(name) && (forall i :: 0 <= i < |fields| ==> Fair(fields[i]))
    requires 0 < |Join(Texts(fields))| < MAX_EVENT_BYTES
    ensures var c, payload := Patient(codec), Join(Texts(fields));
            var r := ReadFrom(c, Fresh(events), "event: " + name + ("\n" + (Lines(fields) + ("\n" + rest))), end);
            match codec.unmarshal(payload)
            case None => r.events == events && r.outcome == Malformed
            case Some(e) =>
              if name == "run_succeeded" || name == "run_failed" || name == "run_cancelled"
              then r.events == events && r.outcome == Terminal(Named(name, e))
              else r == ReadFrom(c, Fresh(events + [Named(name, e)]), rest, end)
  {
    hide ReadFrom, Fair, Lines, PlainName;
    var c, payload := Patient(codec), Join(Texts(fields));
    HeadRead(c, events, name, Lines(fields) + ("\n" + rest), end);
    NoText();
    assert Extended("", Texts(fields)) == payload by { hide Join; }
    FieldsRead(c, name, "", events, fields, "\n" + rest, end);
    var loaded := Reader(name, payload, events, Pending);
    BlankRead(c, loaded, rest, end);
    if Flush(c, loaded).outcome != Pending { Stops(c, Flush(c, loaded), rest, end); }
  }

  lemma NoText()
    ensures Join([]) == ""
  {
  }
}
