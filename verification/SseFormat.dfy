/**
 The event stream on the wire (httpapi/stream.go, httpapi/client_stream.go), in the
 format of section 9.2 of the WHATWG HTML Living Standard. Byte strings are strings,
 one char per byte.
 */
module SseFormat {
  import opened Wrappers

  const EVENT_DELTA := "model_delta"
  const EVENT_SUCCEEDED := "run_succeeded"
  const EVENT_FAILED := "run_failed"
  const EVENT_CANCELLED := "run_cancelled"

  /** The bound on one line and on the data of one event. */
  const MAX_EVENT_BYTES := 1048576

  predicate IsTerminal(name: string) {
    name == EVENT_SUCCEEDED || name == EVENT_FAILED || name == EVENT_CANCELLED
  }

  datatype Usage = Usage(input: int, output: int, reasoning: int, total: int)

  datatype Part = Part(kind: string, text: string)

  datatype ToolCall = ToolCall(id: string, toolId: string, arguments: string)

  datatype ErrorBody = ErrorBody(code: string, message: string)

  datatype StreamEvent = StreamEvent(
    kind: string,
    runId: string,
    parts: seq<Part>,
    text: string,
    reasoning: string,
    toolCall: Option<ToolCall>,
    structuredOutput: string,
    finishReason: string,
    status: string,
    usage: Option<Usage>,
    error: Option<ErrorBody>)

  /** JSON encoding and decoding of events; encoding may fail. */
  datatype Codec = Codec(marshal: StreamEvent -> Option<string>, unmarshal: string -> Option<StreamEvent>)

  /** What the stream relies on: decoding undoes encoding, encodings are single-line objects, and no strict prefix of one decodes. */
  ghost predicate JsonLike(c: Codec) {
    forall e :: c.marshal(e).Some? ==> Encodes(c, e, c.marshal(e).value)
  }

  ghost predicate Encodes(c: Codec, e: StreamEvent, p: string) {
    && p != "" && p[0] == '{' && '\n' !in p && '\r' !in p
    && c.unmarshal(p) == Some(e)
    && (forall k :: 0 <= k < |p| ==> c.unmarshal(p[..k]) == None)
  }

  /** One event as written: its name, the event and its encoding. */
  datatype Frame = Frame(name: string, event: StreamEvent, payload: string)

  function Head(f: Frame): string { "event: " + f.name }

  function Body(f: Frame): string { "data: " + f.payload }

  /** writeFrame's bytes. */
  function Text(f: Frame): string {
    Head(f) + ("\n" + (Body(f) + "\n\n"))
  }

  function Wire(frames: seq<Frame>): string {
    if frames == [] then "" else Text(frames[0]) + Wire(frames[1..])
  }

  lemma {:induction false} WireAppend(frames: seq<Frame>, more: seq<Frame>)
    ensures Wire(frames + more) == Wire(frames) + Wire(more)
  {
    if frames == [] {
      assert frames + more == more;
    } else {
      assert (frames + more)[0] == frames[0] && (frames + more)[1..] == frames[1..] + more;
      WireAppend(frames[1..], more);
    }
  }

  // ----- Lines -----

  function IndexOf(s: string, c: char): (i: nat)
    ensures i <= |s|
    ensures i < |s| ==> s[i] == c
    ensures forall k :: 0 <= k < i ==> s[k] != c
  {
    if s == "" || s[0] == c then 0 else
      var i := IndexOf(s[1..], c);
      assert forall k :: 1 <= k < i + 1 ==> s[k] == s[1..][k - 1];
      i + 1
  }

  function DropCR(s: string): string {
    if s != "" && s[|s| - 1] == '\r' then s[..|s| - 1] else s
  }

  datatype Scan = Line(text: string, rest: string) | TooLong | Done

  /** The scanner's next line: up to a newline, or what is left; at most MAX_EVENT_BYTES with its newline. */
  function NextLine(s: string): (r: Scan)
    ensures r.Line? ==> |r.rest| < |s|
  {
    var i := IndexOf(s, '\n');
    if i < |s| && i < MAX_EVENT_BYTES then Line(DropCR(s[..i]), s[i + 1..])
    else if |s| >= MAX_EVENT_BYTES then TooLong
    else if s == "" then Done
    else Line(DropCR(s), "")
  }

  lemma NextIs(line: string, rest: string)
    requires '\n' !in line && '\r' !in line && |line| < MAX_EVENT_BYTES
    ensures NextLine(line + ("\n" + rest)) == Line(line, rest)
  {
    var s := line + ("\n" + rest);
    assert s[|line|] == '\n';
    assert forall k :: 0 <= k < |line| ==> s[k] == line[k];
    assert s[..|line|] == line && s[|line| + 1..] == rest;
  }

  lemma LastIs(line: string)
    requires '\n' !in line && '\r' !in line && 0 < |line| < MAX_EVENT_BYTES
    ensures NextLine(line) == Line(line, "")
  {
  }

  // ----- White space -----

  /** Byte length of the white-space character at the front: ASCII, or the UTF-8 of a Unicode space. */
  function LeadingSpace(s: string): (n: nat)
    ensures n <= |s|
  {
    if |s| >= 1 && IsSpace1(s[0]) then 1
    else if |s| >= 2 && IsSpace2(s[0], s[1]) then 2
    else if |s| >= 3 && IsSpace3(s[0], s[1], s[2]) then 3
    else 0
  }

  function TrailingSpace(s: string): (n: nat)
    ensures n <= |s|
  {
    if |s| >= 1 && IsSpace1(s[|s| - 1]) then 1
    else if |s| >= 2 && IsSpace2(s[|s| - 2], s[|s| - 1]) then 2
    else if |s| >= 3 && IsSpace3(s[|s| - 3], s[|s| - 2], s[|s| - 1]) then 3
    else 0
  }

  /** Tab, line feed, vertical tab, form feed, carriage return and space. */
  predicate IsSpace1(c: char) {
    '\t' <= c <= '\r' || c == ' '
  }

  /** U+0085 and U+00A0. */
  predicate IsSpace2(a: char, b: char) {
    a == '\U{C2}' && (b == '\U{85}' || b == '\U{A0}')
  }

  /** U+1680, U+2000 to U+200A, U+2028, U+2029, U+202F, U+205F and U+3000. */
  predicate IsSpace3(a: char, b: char, c: char) {
    || (a == '\U{E1}' && b == '\U{9A}' && c == '\U{80}')
    || (a == '\U{E2}' && b == '\U{80}' && ('\U{80}' <= c <= '\U{8A}' || c == '\U{A8}' || c == '\U{A9}' || c == '\U{AF}'))
    || (a == '\U{E2}' && b == '\U{81}' && c == '\U{9F}')
    || (a == '\U{E3}' && b == '\U{80}' && c == '\U{80}')
  }

  function TrimLeft(s: string): (r: string)
    ensures |r| <= |s|
  {
    if LeadingSpace(s) == 0 then s else TrimLeft(s[LeadingSpace(s)..])
  }

  function TrimRight(s: string): (r: string)
    ensures |r| <= |s|
  {
    if TrailingSpace(s) == 0 then s else TrimRight(s[..|s| - TrailingSpace(s)])
  }

  function TrimSpace(s: string): string {
    TrimRight(TrimLeft(s))
  }

  /** A printable ASCII byte other than the space. */
  predicate Plain(c: char) { '!' <= c <= '~' }

  /** White space never reaches back to a plain byte, so trimming keeps what starts and ends plainly. */
  lemma {:induction false} TrimRightKeeps(s: string)
    requires s != "" && Plain(s[0])
    ensures TrimRight(s) != "" && (Plain(s[|s| - 1]) ==> TrimRight(s) == s)
  {
    var n := TrailingSpace(s);
    if n != 0 {
      TrimRightKeeps(s[..|s| - n]);
    }
  }

  lemma {:induction false} TrimLeftKeeps(s: string)
    requires s != "" && Plain(s[0])
    ensures TrimLeft(s) == s
  {
  }

  lemma TrimPlain(s: string)
    requires s != "" && Plain(s[0])
    ensures TrimSpace(s) != ""
  {
    hide TrimLeft, TrimRight;
    TrimLeftKeeps(s);
    TrimRightKeeps(s);
  }

  lemma TrimField(s: string)
    requires s != "" && Plain(s[0]) && Plain(s[|s| - 1])
    ensures TrimSpace(" " + s) == s
  {
    hide TrimRight;
    TrimLeftKeeps(s);
    TrimRightKeeps(s);
    assert LeadingSpace(" " + s) == 1 && (" " + s)[1..] == s;
  }
}
