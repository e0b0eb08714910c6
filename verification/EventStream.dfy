/** The Server-Sent Events text of a streamed turn (`_sse_event`) against the
    parser of sections 9.2.5 and 9.2.6 of the WHATWG HTML standard. */
module EventStream {
  import opened Options

  datatype Event = Event(name: string, data: string)

  // ---- writing ----------------------------------------------------------------------------

  /** `_sse_event`, the JSON text already rendered. */
  function Frame(e: Event): string {
    "event: " + e.name + "\n" + "data: " + e.data + "\n" + "\n"
  }

  function Text(events: seq<Event>): string {
    if events == [] then "" else Frame(events[0]) + Text(events[1..])
  }

  // ---- parsing (WHATWG HTML, sections 9.2.5 and 9.2.6) --------------------------------------

  predicate LineEnd(c: char) { c == '\n' || c == '\r' }

  /** The first line of `s` and what follows its end: LF, CR, or CRLF. An unterminated line is not
      one: at the end of the file pending input is discarded. */
  function FirstLine(s: string): (r: Option<(string, string)>)
    ensures r.Some? ==> |r.value.1| < |s|
  {
    if s == "" then None
    else if s[0] == '\r' && |s| > 1 && s[1] == '\n' then Some(("", s[2..]))
    else if LineEnd(s[0]) then Some(("", s[1..]))
    else
      match FirstLine(s[1..])
      case None => None
      case Some((line, rest)) => Some(([s[0]] + line, rest))
  }

  function BeforeColon(line: string): string {
    if line == "" || line[0] == ':' then "" else [line[0]] + BeforeColon(line[1..])
  }

  /** The value of a field: what follows the first colon, without one leading space. */
  function AfterColon(line: string): string {
    if line == "" then ""
    else if line[0] != ':' then AfterColon(line[1..])
    else if |line| > 1 && line[1] == ' ' then line[2..]
    else line[1..]
  }

  datatype Buffers = Buffers(eventType: string, data: string)

  /** One non-empty line. A line starting with a colon is a comment; other fields do not touch the
      two buffers. */
  function ProcessLine(line: string, b: Buffers): Buffers {
    var field, value := BeforeColon(line), AfterColon(line);
    if field == "event" then b.(eventType := value)
    else if field == "data" then b.(data := b.data + value + "\n")
    else b
  }

  /** An empty line dispatches the buffered event, if any data came. */
  function Dispatch(b: Buffers): seq<Event> {
    if b.data == "" then []
    else
      var data := if b.data[|b.data| - 1] == '\n' then b.data[..|b.data| - 1] else b.data;
      [Event(if b.eventType == "" then "message" else b.eventType, data)]
  }

  function ParseFrom(s: string, b: Buffers): seq<Event>
    decreases |s|
  {
    match FirstLine(s)
    case None => []
    case Some((line, rest)) =>
      if line == "" then Dispatch(b) + ParseFrom(rest, Buffers("", ""))
      else ParseFrom(rest, ProcessLine(line, b))
  }

  /** A leading byte order mark is dropped. */
  function Parse(s: string): seq<Event> {
    ParseFrom(if s != "" && s[0] == '\U{FEFF}' then s[1..] else s, Buffers("", ""))
  }

  // ---- the round trip -----------------------------------------------------------------------

  predicate OneLine(s: string) { forall i :: 0 <= i < |s| ==> !LineEnd(s[i]) }

  /** An event the writer can be given: a name, and neither text breaks the line. */
  predicate Writable(e: Event) { e.name != "" && OneLine(e.name) && OneLine(e.data) }

  predicate AllWritable(events: seq<Event>) { forall i :: 0 <= i < |events| ==> Writable(events[i]) }

  lemma {:induction false} FirstLineIs(line: string, rest: string)
    requires OneLine(line)
    ensures FirstLine(line + "\n" + rest) == Some((line, rest))
  {
    var s := line + "\n" + rest;
    if line == "" {
      assert s == "\n" + rest && s[1..] == rest;
    } else {
      FirstLineIs(line[1..], rest);
      assert s[1..] == line[1..] + "\n" + rest;
      assert [line[0]] + line[1..] == line;
    }
  }

  lemma {:induction false} FieldIs(field: string, value: string)
    requires ':' !in field
    ensures BeforeColon(field + ": " + value) == field
    ensures AfterColon(field + ": " + value) == value
  {
    var line := field + ": " + value;
    if field == "" {
      assert line == ": " + value && line[2..] == value;
    } else {
      FieldIs(field[1..], value);
      assert line[1..] == field[1..] + ": " + value;
      assert [field[0]] + field[1..] == field;
    }
  }

  lemma ParseLine(line: string, rest: string, b: Buffers)
    requires OneLine(line)
    ensures ParseFrom(line + "\n" + rest, b)
            == if line == "" then Dispatch(b) + ParseFrom(rest, Buffers("", ""))
               else ParseFrom(rest, ProcessLine(line, b))
  {
    FirstLineIs(line, rest);
  }

  /** One written frame is read back as its event, whatever follows. */
  lemma FrameParses(e: Event, rest: string)
    requires Writable(e)
    ensures ParseFrom(Frame(e) + rest, Buffers("", "")) == [e] + ParseFrom(rest, Buffers("", ""))
  {
    var l1, l2 := "event: " + e.name, "data: " + e.data;
    assert l1 == "event" + ": " + e.name && l2 == "data" + ": " + e.data;
    assert Frame(e) + rest == l1 + "\n" + (l2 + "\n" + ("" + "\n" + rest));
    hide ParseFrom, BeforeColon, AfterColon;
    FieldIs("event", e.name);
    FieldIs("data", e.data);
    var b1 := Buffers(e.name, "");
    var b2 := Buffers(e.name, "" + e.data + "\n");
    ParseLine(l1, l2 + "\n" + ("" + "\n" + rest), Buffers("", ""));
    ParseLine(l2, "" + "\n" + rest, b1);
    ParseLine("", rest, b2);
    assert b2.data[..|b2.data| - 1] == e.data;
  }

  lemma {:induction false} TextParses(events: seq<Event>)
    requires AllWritable(events)
    ensures ParseFrom(Text(events), Buffers("", "")) == events
  {
    if events != [] {
      TextParses(events[1..]);
      FrameParses(events[0], Text(events[1..]));
      assert [events[0]] + events[1..] == events;
    }
  }

  /** Whatever sequence of events is written, the standard's parser reads the same sequence. */
  lemma RoundTrip(events: seq<Event>)
    requires AllWritable(events)
    ensures Parse(Text(events)) == events
  {
    TextParses(events);
    assert events != [] ==> Text(events)[0] == Frame(events[0])[0] == 'e';
  }
}
