/**
 * Server-Sent Events: the writer, and the parser of sections 9.2.5 and 9.2.6 of the WHATWG HTML Standard.
 * What is sent is bytes (characters below 256); the parser works on the code points that they decode to.
 */
module Sse {
  import opened Strings
  import opened Utf8
  import Output

  datatype Event = Event(name: string, data: string)

  // ---------- the printer ----------

  function DataLines(lines: seq<string>): string
  {
    if lines == [] then "" else "data: " + lines[0] + [NL] + DataLines(lines[1..])
  }

  function Frame(e: Event): string
  {
    "event: " + e.name + [NL] + DataLines(Split(e.data)) + [NL]
  }

  function Stream(events: seq<Event>): string
  {
    if events == [] then "" else Frame(events[0]) + Stream(events[1..])
  }

  class Writer {
    /** Everything written to the response so far. */
    var body: string
    ghost var sent: seq<Event>

    ghost predicate Valid()
      reads this
    {
      body == Stream(sent)
    }

    constructor ()
      ensures Valid() && sent == []
    {
      body, sent := "", [];
    }

    method Send(event: string, data: string)
      requires Valid()
      modifies this
      ensures Valid() && sent == old(sent) + [Event(event, data)]
    {
      body := body + ("event: " + event + [NL]);
      ghost var head := body;
      var lines := Split(data);
      var i := 0;
      while i < |lines|
        invariant 0 <= i <= |lines|
        invariant sent == old(sent)
        invariant body + DataLines(lines[i..]) == head + DataLines(lines)
      {
        assert lines[i..][1..] == lines[i + 1..];
        ConcatAssoc(body, "data: " + lines[i] + [NL], DataLines(lines[i + 1..]));
        body := body + ("data: " + lines[i] + [NL]);
        i := i + 1;
      }
      assert body + "" == head + DataLines(lines);
      body := body + [NL];
      sent := sent + [Event(event, data)];
      ConcatAssoc(old(body), "event: " + event + [NL], DataLines(lines));
      ConcatAssoc(old(body), "event: " + event + [NL] + DataLines(lines), [NL]);
      assert body == old(body) + Frame(Event(event, data));
      StreamAppend(old(sent), Event(event, data));
    }

    /** `json` is the encoded payload; JSON text has no raw newline. */
    method SendJSON(event: string, json: string)
      requires Valid() && NL !in json
      modifies this
      ensures Valid() && sent == old(sent) + [Event(event, json)]
    {
      body := body + ("event: " + event + [NL] + "data: " + json + [NL, NL]);
      sent := sent + [Event(event, json)];
      JsonFrame(event, json);
      StreamAppend(old(sent), Event(event, json));
    }

    method Line(line: string)
      requires Valid()
      modifies this
      ensures Valid() && sent == old(sent) + [Event("log", line)]
    {
      Send("log", line);
    }

    method Error(msg: string)
      requires Valid()
      modifies this
      ensures Valid() && sent == old(sent) + [Event("error", msg)]
    {
      Send("error", msg);
    }

    method Done(exitCode: int)
      requires Valid()
      modifies this
      ensures Valid() && sent == old(sent) + [Event("done", "{\"exitCode\":" + Itoa(exitCode) + "}")]
    {
      ExitPayloadIsOneLine(exitCode);
      SendJSON("done", ExitPayload(exitCode));
    }
  }

  function ExitPayload(exitCode: int): string
  {
    "{\"exitCode\":" + Itoa(exitCode) + "}"
  }

  lemma ExitPayloadIsOneLine(exitCode: int)
    ensures NL !in ExitPayload(exitCode) && CR !in ExitPayload(exitCode)
  {
    assert '-' != NL && '-' != CR;
  }

  lemma JsonFrame(event: string, json: string)
    requires NL !in json
    ensures Frame(Event(event, json)) == "event: " + event + [NL] + "data: " + json + [NL, NL]
  {
    SplitOfLine(json);
    assert [json][1..] == [];
    assert DataLines([json]) == "data: " + json + [NL];
    assert [NL] + [NL] == [NL, NL];
  }

  lemma {:induction false} StreamAppend(events: seq<Event>, e: Event)
    ensures Stream(events + [e]) == Stream(events) + Frame(e)
  {
    if events == [] {
      assert events + [e] == [e];
      assert [e][1..] == [];
    } else {
      StreamAppend(events[1..], e);
      assert (events + [e])[1..] == events[1..] + [e];
    }
  }

  // ---------- the standard's parser ----------

  /** The complete lines of a stream whose current line started with `cur`; CR LF, LF and CR end a line. */
  function CompleteLines(cur: string, stream: string): (lines: seq<string>)
    decreases |stream|
  {
    if stream == "" then []
    else if stream[0] == CR then
      var next := if |stream| > 1 && stream[1] == NL then stream[2..] else stream[1..];
      [cur] + CompleteLines("", next)
    else if stream[0] == NL then [cur] + CompleteLines("", stream[1..])
    else CompleteLines(cur + [stream[0]], stream[1..])
  }

  /** The data buffer and the event type buffer. */
  datatype Buffers = Buffers(data: string, eventType: string)

  const NO_FIELDS := Buffers("", "")

  function FieldValue(line: string): string
  {
    var i := ColonIndex(line);
    if i == |line| then ""
    else if i + 1 < |line| && line[i + 1] == ' ' then line[i + 2..]
    else line[i + 1..]
  }

  function ProcessLine(b: Buffers, line: string): Buffers
    requires line != ""
  {
    var field := line[..ColonIndex(line)];
    if field == "event" then b.(eventType := FieldValue(line))
    else if field == "data" then b.(data := b.data + (FieldValue(line) + [NL]))
    else b
  }

  function Dispatch(b: Buffers): seq<Event>
  {
    if b.data == "" then []
    else
      var last := |b.data| - 1;
      var data := if b.data[last] == NL then b.data[..last] else b.data;
      [Event(if b.eventType == "" then "message" else b.eventType, data)]
  }

  function Interpret(lines: seq<string>, b: Buffers): seq<Event>
  {
    if lines == [] then []
    else if lines[0] == "" then Dispatch(b) + Interpret(lines[1..], NO_FIELDS)
    else Interpret(lines[1..], ProcessLine(b, lines[0]))
  }

  /** The events of a decoded stream; a byte order mark at its start is dropped. */
  function Parse(text: string): seq<Event>
  {
    Interpret(CompleteLines("", if text != "" && text[0] == '\U{FEFF}' then text[1..] else text), NO_FIELDS)
  }

  function Encoded(events: seq<Event>): seq<Event>
  {
    seq(|events|, i requires 0 <= i < |events| => Event(Encode(events[i].name), Encode(events[i].data)))
  }

  /** What a client makes of a stream of bytes, in bytes again. */
  function Received(stream: string): seq<Event>
  {
    Encoded(Parse(Decode(stream)))
  }

  // ---------- round trip ----------

  ghost predicate OneLine(s: string)
  {
    NL !in s && CR !in s
  }

  /** An event of text that survives printing and parsing. */
  ghost predicate Printable(e: Event)
  {
    e.name != "" && OneLine(e.name) && CR !in e.data
  }

  /** What a send must satisfy to survive: checkable before the call. */
  ghost predicate Sendable(e: Event)
  {
    Printable(e) && WellFormed(e.name) && WellFormed(e.data)
  }

  lemma {:induction false} ReadLine(cur: string, line: string, rest: string)
    requires OneLine(line)
    ensures CompleteLines(cur, line + [NL] + rest) == [cur + line] + CompleteLines("", rest)
    decreases |line|
  {
    var s := line + [NL] + rest;
    if line == "" {
      assert s[1..] == rest;
      assert cur + "" == cur;
    } else {
      assert s[1..] == line[1..] + [NL] + rest;
      ReadLine(cur + [line[0]], line[1..], rest);
      assert cur + [line[0]] + line[1..] == cur + line;
    }
  }

  /** Other line ends: a carriage return, with or without a newline behind it. */
  lemma {:induction false} ReadLineCr(cur: string, line: string, rest: string)
    requires OneLine(line)
    ensures CompleteLines(cur, line + [CR, NL] + rest) == [cur + line] + CompleteLines("", rest)
    ensures rest != "" && rest[0] != NL ==>
      CompleteLines(cur, line + [CR] + rest) == [cur + line] + CompleteLines("", rest)
    decreases |line|
  {
    var s, t := line + [CR, NL] + rest, line + [CR] + rest;
    if line == "" {
      assert s[2..] == rest && t[1..] == rest;
      assert cur + "" == cur;
    } else {
      assert s[1..] == line[1..] + [CR, NL] + rest && t[1..] == line[1..] + [CR] + rest;
      ReadLineCr(cur + [line[0]], line[1..], rest);
      assert cur + [line[0]] + line[1..] == cur + line;
    }
  }

  lemma {:induction false} NoCompleteLine(cur: string, line: string)
    requires OneLine(line)
    ensures CompleteLines(cur, line) == []
    decreases |line|
  {
    if line != "" {
      NoCompleteLine(cur + [line[0]], line[1..]);
    }
  }

  /** Lines that are each ended by a newline are read as they are, and what follows the last newline is not read. */
  lemma {:induction false} LinesAreRead(lines: seq<string>, unended: string)
    requires OneLine(unended) && forall i :: 0 <= i < |lines| ==> OneLine(lines[i])
    ensures CompleteLines("", Output.Emitted(lines) + unended) == lines
  {
    if lines == [] {
      assert "" + unended == unended;
      NoCompleteLine("", unended);
    } else {
      var rest := Output.Emitted(lines[1..]);
      ConcatAssoc(lines[0] + [NL], rest, unended);
      ReadLine("", lines[0], rest + unended);
      assert "" + lines[0] == lines[0];
      LinesAreRead(lines[1..], unended);
    }
  }

  lemma {:induction false} ColonAfter(field: string, value: string)
    requires ':' !in field
    ensures ColonIndex(field + ": " + value) == |field|
    ensures FieldValue(field + ": " + value) == value
    ensures (field + ": " + value)[..|field|] == field
  {
    var line := field + ": " + value;
    ColonAt(field, ": " + value);
    assert field + (": " + value) == line;
    assert line[|field| + 2..] == value;
  }

  /** A line of a stream: a field and, after a colon and at most one space that does not count, its value. */
  lemma FieldAndValue(field: string, value: string)
    requires ':' !in field
    ensures var line := field + ":" + value;
      && line[..ColonIndex(line)] == field
      && FieldValue(line) == if value != "" && value[0] == ' ' then value[1..] else value
    ensures field[..ColonIndex(field)] == field && FieldValue(field) == ""
  {
    var line := field + ":" + value;
    ColonAt(field, ":" + value);
    assert line == field + (":" + value);
    assert line[|field| + 1..] == value;
  }

  /** The values that the lines give to a field, in order. */
  function Values(field: string, lines: seq<string>): seq<string>
  {
    if lines == [] then []
    else
      var last := lines[|lines| - 1];
      Values(field, lines[..|lines| - 1]) + if last[..ColonIndex(last)] == field then [FieldValue(last)] else []
  }

  /** The type of an event is the last one given, unless that is none or empty. */
  function TypeOf(given: seq<string>): string
  {
    if given == [] || given[|given| - 1] == "" then "message" else given[|given| - 1]
  }

  /** The buffers after some lines. */
  function Processed(lines: seq<string>): Buffers
    requires forall i :: 0 <= i < |lines| ==> lines[i] != ""
  {
    if lines == [] then NO_FIELDS else ProcessLine(Processed(lines[..|lines| - 1]), lines[|lines| - 1])
  }

  lemma {:induction false} InterpretLines(lines: seq<string>, rest: seq<string>)
    requires forall i :: 0 <= i < |lines| ==> lines[i] != ""
    ensures Interpret(lines + rest, NO_FIELDS) == Interpret(rest, Processed(lines))
  {
    if lines == [] {
      assert lines + rest == rest;
    } else {
      var n := |lines| - 1;
      assert lines + rest == lines[..n] + ([lines[n]] + rest);
      InterpretLines(lines[..n], [lines[n]] + rest);
      StepLine(lines[n], rest, Processed(lines[..n]));
    }
  }

  lemma {:induction false} ProcessedIs(lines: seq<string>)
    requires forall i :: 0 <= i < |lines| ==> lines[i] != ""
    ensures Processed(lines).data == Output.Emitted(Values("data", lines))
    ensures var given := Values("event", lines);
      Processed(lines).eventType == if given == [] then "" else given[|given| - 1]
  {
    if lines != [] {
      var n := |lines| - 1;
      ProcessedIs(lines[..n]);
      var data, given := Values("data", lines[..n]), Values("event", lines[..n]);
      assert data + [] == data && given + [] == given;
      if lines[n][..ColonIndex(lines[n])] == "data" {
        Output.EmittedAppend(data, FieldValue(lines[n]));
        ConcatAssoc(Output.Emitted(data), FieldValue(lines[n]), [NL]);
      }
    }
  }

  /**
   * What the standard makes of the lines up to an empty one: the data fields joined by newlines, under the
   * type given last, or nothing if there is no data. Comments and other fields do not count.
   */
  lemma BlockIsDispatched(lines: seq<string>, rest: seq<string>)
    requires forall i :: 0 <= i < |lines| ==> lines[i] != ""
    ensures var data := Values("data", lines);
      Interpret(lines + [""] + rest, NO_FIELDS)
      == (if data == [] then [] else [Event(TypeOf(Values("event", lines)), Join(data))]) + Interpret(rest, NO_FIELDS)
  {
    var data := Values("data", lines);
    assert lines + [""] + rest == lines + ([""] + rest) && ([""] + rest)[1..] == rest;
    InterpretLines(lines, [""] + rest);
    ProcessedIs(lines);
    if data != [] {
      EmittedIsJoined(data);
      assert Output.Emitted(data)[..|Output.Emitted(data)| - 1] == Join(data);
    }
  }

  lemma {:induction false} EmittedIsJoined(lines: seq<string>)
    requires lines != []
    ensures Output.Emitted(lines) == Join(lines) + [NL]
  {
    if |lines| == 1 {
      assert lines[1..] == [];
      assert Output.Emitted(lines) == lines[0] + [NL] + "";
    } else {
      EmittedIsJoined(lines[1..]);
      ConcatAssoc(lines[0], [NL], Join(lines[1..]) + [NL]);
      ConcatAssoc(lines[0], [NL] + Join(lines[1..]), [NL]);
      ConcatAssoc([NL], Join(lines[1..]), [NL]);
    }
  }

  /** The data lines of one frame fill the data buffer with the lines, each followed by a newline. */
  lemma {:induction false} ReadDataLines(lines: seq<string>, b: Buffers, rest: string)
    requires forall i :: 0 <= i < |lines| ==> OneLine(lines[i])
    ensures Interpret(CompleteLines("", DataLines(lines) + rest), b)
         == Interpret(CompleteLines("", rest), b.(data := b.data + Output.Emitted(lines)))
  {
    if lines == [] {
      assert DataLines(lines) + rest == rest;
      assert b.data + "" == b.data;
    } else {
      var line := "data" + ": " + lines[0];
      var more := DataLines(lines[1..]) + rest;
      var b' := b.(data := b.data + (lines[0] + [NL]));
      assert DataLines(lines) + rest == line + [NL] + more;
      ReadLine("", line, more);
      ColonAfter("data", lines[0]);
      StepLine(line, CompleteLines("", more), b);
      ReadDataLines(lines[1..], b', rest);
      ConcatAssoc(b.data, lines[0] + [NL], Output.Emitted(lines[1..]));
    }
  }

  lemma StepLine(line: string, rest: seq<string>, b: Buffers)
    requires line != ""
    ensures Interpret([line] + rest, b) == Interpret(rest, ProcessLine(b, line))
    ensures Interpret(["" + line] + rest, b) == Interpret(rest, ProcessLine(b, line))
  {
    assert ([line] + rest)[1..] == rest;
    assert "" + line == line;
  }

  lemma {:induction false} SplitConserves(s: string)
    ensures Output.Emitted(Split(s)) == s + [NL]
    ensures CR !in s ==> forall i :: 0 <= i < |Split(s)| ==> CR !in Split(s)[i]
  {
    if s == "" {
      assert [""][1..] == [];
    } else {
      var rest := Split(s[1..]);
      SplitConserves(s[1..]);
      if s[0] == NL {
        assert ([""] + rest)[1..] == rest;
        assert "" + [NL] + (s[1..] + [NL]) == s + [NL];
      } else {
        assert PushFront(s[0], rest)[1..] == rest[1..];
        ConcatAssoc([s[0]], rest[0], [NL] + Output.Emitted(rest[1..]));
        assert Output.Emitted(PushFront(s[0], rest)) == [s[0]] + (s[1..] + [NL]);
        assert [s[0]] + (s[1..] + [NL]) == s + [NL];
      }
    }
  }

  lemma ReadFrame(e: Event, rest: string)
    requires Printable(e)
    ensures Interpret(CompleteLines("", Frame(e) + rest), NO_FIELDS)
         == [e] + Interpret(CompleteLines("", rest), NO_FIELDS)
  {
    var lines := Split(e.data);
    var line := "event" + ": " + e.name;
    var afterData := [NL] + rest;
    var afterName := DataLines(lines) + afterData;
    assert Frame(e) + rest == line + [NL] + afterName;
    ReadLine("", line, afterName);
    ColonAfter("event", e.name);
    StepLine(line, CompleteLines("", afterName), NO_FIELDS);
    SplitConserves(e.data);
    JoinOfSplit(e.data);
    assert forall i :: 0 <= i < |lines| ==> OneLine(lines[i]);
    var b := Buffers("", e.name);
    ReadDataLines(lines, b, afterData);
    var full := b.(data := "" + (e.data + [NL]));
    assert afterData[1..] == rest;
    EndOfFrame(e, CompleteLines("", rest), full);
  }

  lemma EndOfFrame(e: Event, rest: seq<string>, b: Buffers)
    requires e.name != "" && b == Buffers(e.data + [NL], e.name)
    ensures Interpret([""] + rest, b) == [e] + Interpret(rest, NO_FIELDS)
  {
    assert ([""] + rest)[1..] == rest;
    assert b.data[..|b.data| - 1] == e.data;
  }

  lemma {:induction false} ReadStream(events: seq<Event>)
    requires forall i :: 0 <= i < |events| ==> Printable(events[i])
    ensures Interpret(CompleteLines("", Stream(events)), NO_FIELDS) == events
  {
    if events != [] {
      ReadFrame(events[0], Stream(events[1..]));
      ReadStream(events[1..]);
    }
  }

  lemma {:induction false} LinesAreOneLine(cur: string, stream: string)
    requires OneLine(cur)
    ensures forall i :: 0 <= i < |CompleteLines(cur, stream)| ==> OneLine(CompleteLines(cur, stream)[i])
    decreases |stream|
  {
    if stream == "" {
    } else if stream[0] == CR {
      LinesAreOneLine("", if |stream| > 1 && stream[1] == NL then stream[2..] else stream[1..]);
    } else if stream[0] == NL {
      LinesAreOneLine("", stream[1..]);
    } else {
      LinesAreOneLine(cur + [stream[0]], stream[1..]);
    }
  }

  lemma {:induction false} InterpretYieldsPrintable(lines: seq<string>, b: Buffers)
    requires forall i :: 0 <= i < |lines| ==> OneLine(lines[i])
    requires OneLine(b.eventType) && CR !in b.data
    ensures forall i :: 0 <= i < |Interpret(lines, b)| ==> Printable(Interpret(lines, b)[i])
  {
    if lines == [] {
    } else if lines[0] == "" {
      InterpretYieldsPrintable(lines[1..], NO_FIELDS);
      assert OneLine("message");
    } else {
      InterpretYieldsPrintable(lines[1..], ProcessLine(b, lines[0]));
    }
  }

  /** Whatever the stream, what the parser yields is printable. */
  lemma ParsedIsPrintable(text: string)
    ensures forall e :: e in Parse(text) ==> Printable(e)
  {
    var stream := if text != "" && text[0] == '\U{FEFF}' then text[1..] else text;
    LinesAreOneLine("", stream);
    InterpretYieldsPrintable(CompleteLines("", stream), NO_FIELDS);
  }

  /** One byte order mark in front does not count. */
  lemma MarkIsDropped(text: string)
    requires text == "" || text[0] != '\U{FEFF}'
    ensures Parse(['\U{FEFF}'] + text) == Parse(text)
  {
    assert (['\U{FEFF}'] + text)[1..] == text;
  }

  lemma TextRoundTrip(events: seq<Event>)
    requires forall i :: 0 <= i < |events| ==> Printable(events[i])
    ensures Parse(Stream(events)) == events
  {
    if events != [] {
      assert Stream(events)[0] == 'e';
    }
    ReadStream(events);
  }

  // ---------- bytes ----------

  lemma {:induction false} EncodedDataLines(lines: seq<string>, bytes: seq<string>)
    requires |bytes| == |lines| && forall i :: 0 <= i < |lines| ==> bytes[i] == Encode(lines[i])
    ensures DataLines(bytes) == Encode(DataLines(lines))
  {
    if lines != [] {
      EncodedDataLines(lines[1..], bytes[1..]);
      EncodeAscii("data: ");
      EncodeAscii([NL]);
      EncodeConcat("data: ", lines[0]);
      EncodeConcat("data: " + lines[0], [NL]);
      EncodeConcat("data: " + lines[0] + [NL], DataLines(lines[1..]));
    }
  }

  lemma EncodedFrame(e: Event)
    ensures Frame(Event(Encode(e.name), Encode(e.data))) == Encode(Frame(e))
  {
    var lines := Split(e.data);
    SplitOfEncode(e.data);
    EncodedDataLines(lines, Split(Encode(e.data)));
    EncodeAscii("event: ");
    EncodeAscii([NL]);
    EncodeConcat("event: ", e.name);
    EncodeConcat("event: " + e.name, [NL]);
    EncodeConcat("event: " + e.name + [NL], DataLines(lines));
    EncodeConcat("event: " + e.name + [NL] + DataLines(lines), [NL]);
  }

  /** Printing and encoding commute. */
  lemma {:induction false} EncodedStream(events: seq<Event>)
    ensures Stream(Encoded(events)) == Encode(Stream(events))
  {
    if events != [] {
      assert Encoded(events)[1..] == Encoded(events[1..]);
      EncodedStream(events[1..]);
      EncodedFrame(events[0]);
      EncodeConcat(Frame(events[0]), Stream(events[1..]));
    }
  }

  lemma EncodedIsSendable(e: Event)
    requires Printable(e)
    ensures Sendable(Event(Encode(e.name), Encode(e.data)))
  {
    AsciiInEncode(e.name, NL);
    AsciiInEncode(e.name, CR);
    AsciiInEncode(e.data, CR);
    DecodeOfEncode(e.name);
    DecodeOfEncode(e.data);
  }

  lemma DecodedIsPrintable(e: Event)
    requires Sendable(e)
    ensures Printable(Event(Decode(e.name), Decode(e.data)))
  {
    AsciiInEncode(Decode(e.name), NL);
    AsciiInEncode(Decode(e.name), CR);
    AsciiInEncode(Decode(e.data), CR);
  }

  /**
   * The client recovers exactly the events that were sent, in order, if and only if every event has
   * a non-empty one-line name, its data has no carriage return, and both are well-formed UTF-8.
   */
  lemma RoundTrip(events: seq<Event>)
    ensures Received(Stream(events)) == events <==> forall i :: 0 <= i < |events| ==> Sendable(events[i])
  {
    if forall i :: 0 <= i < |events| ==> Sendable(events[i]) {
      SendableIsReceived(events);
    }
    if Received(Stream(events)) == events {
      ReceivedIsSendable(Stream(events));
    }
  }

  lemma SendableIsReceived(events: seq<Event>)
    requires forall i :: 0 <= i < |events| ==> Sendable(events[i])
    ensures Received(Stream(events)) == events
  {
    DecodedEvents(events);
    EncodedStream(Decoded(events));
    DecodeOfEncode(Stream(Decoded(events)));
    TextRoundTrip(Decoded(events));
  }

  function Decoded(events: seq<Event>): seq<Event>
  {
    seq(|events|, i requires 0 <= i < |events| => Event(Decode(events[i].name), Decode(events[i].data)))
  }

  lemma DecodedEvents(events: seq<Event>)
    requires forall i :: 0 <= i < |events| ==> Sendable(events[i])
    ensures forall i :: 0 <= i < |events| ==> Printable(Decoded(events)[i])
    ensures Encoded(Decoded(events)) == events
  {
    forall i | 0 <= i < |events| ensures Printable(Decoded(events)[i]) && Encoded(Decoded(events))[i] == events[i] {
      DecodedIsPrintable(events[i]);
    }
  }

  /** Whatever the bytes, what a client receives is sendable. */
  lemma ReceivedIsSendable(stream: string)
    ensures forall i :: 0 <= i < |Received(stream)| ==> Sendable(Received(stream)[i])
  {
    var parsed := Parse(Decode(stream));
    ParsedIsPrintable(Decode(stream));
    forall i | 0 <= i < |parsed| ensures Sendable(Encoded(parsed)[i]) {
      assert parsed[i] in parsed;
      EncodedIsSendable(parsed[i]);
    }
  }
}
