/** The incremental server-sent-events reader (src/agents/google-transport-stream.ts). */
module SseReader {
  import opened Common
  import opened Text

  const BOUNDARY := "\n\n"

  /** `text.replace(/\r/g, "")`. */
  function DropCarriageReturns(s: string): string {
    if s == "" then ""
    else (if s[0] == '\r' then "" else [s[0]]) + DropCarriageReturns(s[1..])
  }

  lemma {:induction false} DropDistributes(a: string, b: string)
    ensures DropCarriageReturns(a + b) == DropCarriageReturns(a) + DropCarriageReturns(b)
  {
    if a == "" {
      assert a + b == b;
    } else {
      assert (a + b)[1..] == a[1..] + b;
      DropDistributes(a[1..], b);
    }
  }

  // ----- one event -----

  /** The trimmed values of the lines that start with `data:`. */
  function DataValues(lines: seq<string>): seq<string> {
    if lines == [] then []
    else (if StartsWith(lines[0], "data:") then [Trim(lines[0][5..])] else []) + DataValues(lines[1..])
  }

  /** What one event dispatches: nothing when it has no data, or only the end-of-stream mark. */
  function Dispatch(values: seq<string>): seq<string> {
    var data := Join(values, "\n");
    if data == "" || data == "[DONE]" then [] else [data]
  }

  function Payloads(events: seq<string>): seq<string> {
    if events == [] then [] else Dispatch(DataValues(Lines(events[0]))) + Payloads(events[1..])
  }

  lemma PayloadsNone()
    ensures Payloads([]) == []
  {
  }

  lemma PayloadsOne(event: string)
    ensures Payloads([event]) == Dispatch(DataValues(Lines(event)))
  {
    assert [event][1..] == [];
  }

  lemma {:induction false} PayloadsAppend(a: seq<string>, b: seq<string>)
    ensures Payloads(a + b) == Payloads(a) + Payloads(b)
  {
    if a == [] {
      assert a + b == b;
    } else {
      assert (a + b)[1..] == a[1..] + b;
      PayloadsAppend(a[1..], b);
    }
  }

  // ----- framing -----

  datatype Framing = Framing(events: seq<string>, residual: string)

  /** Cut the text at each blank line, leftmost first. */
  function Frame(s: string): Framing
    decreases |s|
  {
    match IndexOf(s, BOUNDARY)
    case None => Framing([], s)
    case Some(k) => AddEvent(s[..k], Frame(s[k + 2..]))
  }

  function AddEvent(event: string, rest: Framing): Framing {
    Framing([event] + rest.events, rest.residual)
  }

  lemma FrameHere(s: string, k: nat)
    requires IndexOf(s, BOUNDARY) == Some(k)
    ensures k + 2 <= |s| && Frame(s) == AddEvent(s[..k], Frame(s[k + 2..]))
  {
    hide IndexOf, OccursAt;
    var found := IndexOf(s, BOUNDARY);
    assert found.value == k;
    assert Frame(s) == AddEvent(s[..found.value], Frame(s[found.value + 2..]));
  }

  lemma FrameNone(s: string)
    requires IndexOf(s, BOUNDARY) == None
    ensures Frame(s) == Framing([], s)
  {
  }

  class Reader {
    var buffer: string

    constructor ()
      ensures buffer == "" && Settled()
    {
      buffer := "";
    }

    /** Between reads, no complete event is left in the buffer. */
    ghost predicate Settled()
      reads this
    {
      IndexOf(buffer, BOUNDARY).None?
    }

    /** One turn of the read loop: take a decoded piece, hand out every payload that is now complete. */
    method Feed(piece: string) returns (payloads: seq<string>)
      requires Settled()
      modifies this
      ensures Settled()
      ensures var framing := Frame(old(buffer) + DropCarriageReturns(piece));
              payloads == Payloads(framing.events) && buffer == framing.residual
    {
      hide Frame, IndexOf, OccursAt, Payloads, DropCarriageReturns;
      buffer := buffer + DropCarriageReturns(piece);
      payloads := [];
      ghost var all := Frame(buffer);
      ghost var done: seq<string> := [];
      PayloadsNone();
      var boundary := IndexOf(buffer, BOUNDARY);
      while boundary.Some?
        invariant boundary == IndexOf(buffer, BOUNDARY)
        invariant all.events == done + Frame(buffer).events && all.residual == Frame(buffer).residual
        invariant payloads == Payloads(done)
        decreases |buffer|
      {
        FrameHere(buffer, boundary.value);
        var rawEvent := buffer[..boundary.value];
        buffer := buffer[boundary.value + 2..];
        boundary := IndexOf(buffer, BOUNDARY);
        var data := Join(DataValues(Lines(rawEvent)), "\n");
        PayloadsAppend(done, [rawEvent]);
        PayloadsOne(rawEvent);
        assert done + ([rawEvent] + Frame(buffer).events) == (done + [rawEvent]) + Frame(buffer).events;
        done := done + [rawEvent];
        if data != "" && data != "[DONE]" {
          payloads := payloads + [data];
        }
      }
      FrameNone(buffer);
      assert done + [] == done;
    }
  }

  lemma {:induction false} FrameSettles(s: string)
    ensures IndexOf(Frame(s).residual, BOUNDARY).None?
    decreases |s|
  {
    match IndexOf(s, BOUNDARY)
    case None =>
    case Some(k) => FrameSettles(s[k + 2..]);
  }

  // ----- chunking independence -----

  /** A boundary found early stays the first boundary when more text arrives. */
  lemma FirstBoundaryStays(a: string, b: string)
    requires IndexOf(a, BOUNDARY).Some?
    ensures IndexOf(a + b, BOUNDARY) == IndexOf(a, BOUNDARY)
  {
    var k := IndexOf(a, BOUNDARY).value;
    forall j: nat | j <= k ensures OccursAt(a + b, BOUNDARY, j) == OccursAt(a, BOUNDARY, j) {
      assert (a + b)[j..j + 2] == a[j..j + 2];
    }
    IndexOfIs(a + b, BOUNDARY, k);
  }

  /** Framing a text in two goes is framing it in one. */
  lemma {:induction false} FrameInTwo(a: string, b: string)
    ensures var first := Frame(a);
            var second := Frame(first.residual + b);
            Frame(a + b) == Framing(first.events + second.events, second.residual)
    decreases |a|
  {
    hide Frame, IndexOf, OccursAt;
    match IndexOf(a, BOUNDARY)
    case None =>
      FrameNone(a);
      assert [] + Frame(a + b).events == Frame(a + b).events;
    case Some(k) =>
      FirstBoundaryStays(a, b);
      FrameHere(a, k);
      FrameHere(a + b, k);
      assert (a + b)[..k] == a[..k];
      assert (a + b)[k + 2..] == a[k + 2..] + b;
      FrameInTwo(a[k + 2..], b);
      var rest := Frame(a[k + 2..]);
      var second := Frame(rest.residual + b);
      assert [a[..k]] + (rest.events + second.events) == ([a[..k]] + rest.events) + second.events;
  }

  datatype Outcome = Outcome(payloads: seq<string>, buffer: string)

  /** Feeding the pieces one after the other, starting with `buffer`. */
  function FeedAll(buffer: string, pieces: seq<string>): Outcome
    decreases |pieces|
  {
    if pieces == [] then Outcome([], buffer)
    else
      var framing := Frame(buffer + DropCarriageReturns(pieces[0]));
      var rest := FeedAll(framing.residual, pieces[1..]);
      Outcome(Payloads(framing.events) + rest.payloads, rest.buffer)
  }

  /** Reading everything at once. */
  function ReadWhole(text: string): Outcome {
    var framing := Frame(DropCarriageReturns(text));
    Outcome(Payloads(framing.events), framing.residual)
  }

  lemma {:induction false} FeedAllIsOneFrame(buffer: string, pieces: seq<string>)
    requires IndexOf(buffer, BOUNDARY).None?
    ensures var framing := Frame(buffer + DropCarriageReturns(Flatten(pieces)));
            FeedAll(buffer, pieces) == Outcome(Payloads(framing.events), framing.residual)
    decreases |pieces|
  {
    hide Frame, IndexOf, OccursAt, Payloads;
    if pieces == [] {
      assert buffer + DropCarriageReturns(Flatten(pieces)) == buffer;
      FrameNone(buffer);
      PayloadsNone();
    } else {
      var rest := DropCarriageReturns(Flatten(pieces[1..]));
      var seen := buffer + DropCarriageReturns(pieces[0]);
      DropDistributes(pieces[0], Flatten(pieces[1..]));
      assert buffer + DropCarriageReturns(Flatten(pieces)) == seen + rest;
      FrameInTwo(seen, rest);
      FrameSettles(seen);
      FeedAllIsOneFrame(Frame(seen).residual, pieces[1..]);
      PayloadsAppend(Frame(seen).events, Frame(Frame(seen).residual + rest).events);
    }
  }

  /** However the decoded stream is cut, the same payloads come out and the same text is left over. */
  lemma ChunkingIndependence(pieces: seq<string>)
    ensures FeedAll("", pieces) == ReadWhole(Flatten(pieces))
    ensures IndexOf(FeedAll("", pieces).buffer, BOUNDARY).None?
  {
    assert OccursAt("", BOUNDARY, 0) == false;
    var text := DropCarriageReturns(Flatten(pieces));
    assert "" + text == text;
    FeedAllIsOneFrame("", pieces);
    FrameSettles(text);
  }

  // ----- agreement with line-by-line interpretation -----

  /** The line-oriented reading of a stream (after section 9.2.6 of the HTML Living Standard):
      collect the values of `data:` lines, dispatch at each empty line. */
  datatype LineMachine = LineMachine(line: string, values: seq<string>, out: seq<string>)

  function StepChar(m: LineMachine, c: char): LineMachine {
    if c != '\n' then m.(line := m.line + [c])
    else if m.line == "" then LineMachine("", [], m.out + Dispatch(m.values))
    else LineMachine("", m.values + DataValues([m.line]), m.out)
  }

  function RunLines(m: LineMachine, text: string): LineMachine
    decreases |text|
  {
    if text == "" then m else StepChar(RunLines(m, text[..|text| - 1]), text[|text| - 1])
  }

  const START := LineMachine("", [], [])

  lemma {:induction false} DataValuesAppend(a: seq<string>, b: seq<string>)
    ensures DataValues(a + b) == DataValues(a) + DataValues(b)
  {
    if a == [] {
      assert a + b == b;
    } else {
      assert (a + b)[1..] == a[1..] + b;
      DataValuesAppend(a[1..], b);
    }
  }

  lemma {:induction false} BlankLineHasNoData(values: seq<string>)
    ensures DataValues([""]) == []
    ensures values == [] ==> Dispatch(values) == []
  {
    assert DataValues([""]) == [] + DataValues([""][1..]);
  }

  /** What the machine holds between lines is what the reader still has in its buffer. */
  ghost predicate InStep(m: LineMachine, text: string) {
    var framing := Frame(text);
    var lines := Lines(framing.residual);
    && m.out == Payloads(framing.events)
    && m.line == lines[|lines| - 1]
    && m.values == DataValues(lines[..|lines| - 1])
  }

  /** A settled text plus one character has a boundary exactly when it now ends with one. */
  lemma BoundaryByOneChar(r: string, c: char)
    requires IndexOf(r, BOUNDARY).None?
    ensures IndexOf(r + [c], BOUNDARY) ==
            if c == '\n' && r != "" && r[|r| - 1] == '\n' then Some(|r| - 1) else None
  {
    hide IndexOf, OccursAt;
    BoundariesByOneChar(r, c);
    if c == '\n' && r != "" && r[|r| - 1] == '\n' {
      IndexOfIs(r + [c], BOUNDARY, |r| - 1);
    } else {
      IndexOfNone(r + [c], BOUNDARY);
    }
  }

  lemma BoundariesByOneChar(r: string, c: char)
    requires forall j: nat :: !OccursAt(r, BOUNDARY, j)
    ensures forall j: nat ::
              OccursAt(r + [c], BOUNDARY, j) <==> c == '\n' && r != "" && r[|r| - 1] == '\n' && j == |r| - 1
  {
    forall j: nat
      ensures OccursAt(r + [c], BOUNDARY, j) <==> c == '\n' && r != "" && r[|r| - 1] == '\n' && j == |r| - 1
    {
      if j + 2 <= |r| {
        assert (r + [c])[j..j + 2] == r[j..j + 2];
        assert !OccursAt(r, BOUNDARY, j);
      } else if j + 1 == |r| {
        assert (r + [c])[j..j + 2] == [r[j], c];
      }
    }
  }

  /** The blank line that ends an event: the reader cuts it off, the machine dispatches. */
  lemma BlankLineEndsEvent(m: LineMachine, text: string)
    requires InStep(m, text)
    requires var r := Frame(text).residual; r != "" && r[|r| - 1] == '\n'
    ensures InStep(StepChar(m, '\n'), text + ['\n'])
  {
    hide IndexOf, OccursAt, Dispatch, Frame, Payloads, Lines, DataValues;
    var before := Frame(text);
    var r := before.residual;
    var event := r[..|r| - 1];
    FrameInTwo(text, ['\n']);
    FrameSettles(text);
    BoundaryByOneChar(r, '\n');
    FrameHere(r + ['\n'], |r| - 1);
    assert (r + ['\n'])[..|r| - 1] == event && (r + ['\n'])[|r| + 1..] == "";
    NothingLeft();
    assert [event] + [] == [event];
    PayloadsAppend(before.events, [event]);
    PayloadsOne(event);
    // The lines of the event are all lines of `r` but the empty last one.
    assert r == event + ['\n'];
    LinesExtend(event, '\n');
    assert Lines(r)[..|Lines(r)| - 1] == Lines(event);
    assert m.line == "";
  }

  lemma NothingLeft()
    ensures Frame("") == Framing([], "") && Lines("") == [""] && DataValues([]) == [] && Payloads([]) == []
  {
  }

  /** Every other character only extends what both keep. */
  lemma OtherCharExtends(m: LineMachine, text: string, c: char)
    requires InStep(m, text)
    requires var r := Frame(text).residual; c != '\n' || r == "" || r[|r| - 1] != '\n'
    ensures InStep(StepChar(m, c), text + [c])
  {
    hide IndexOf, OccursAt, Dispatch, Frame, Payloads, Lines, DataValues;
    var before := Frame(text);
    var r := before.residual;
    var lines := Lines(r);
    FrameInTwo(text, [c]);
    FrameSettles(text);
    BoundaryByOneChar(r, c);
    FrameNone(r + [c]);
    assert before.events + [] == before.events;
    LinesExtend(r, c);
    if c == '\n' {
      LastLineEmpty(r);
      DataValuesAppend(lines[..|lines| - 1], [lines[|lines| - 1]]);
      assert lines == lines[..|lines| - 1] + [lines[|lines| - 1]];
      assert (lines + [""])[..|lines|] == lines;
      if m.line == "" {
        NothingLeft();
        assert lines[..0] == [];
        BlankLineHasNoData(m.values);
        assert m.out + [] == m.out;
      }
    } else {
      var longer := Lines(r + [c]);
      assert longer[..|longer| - 1] == lines[..|lines| - 1];
    }
  }

  lemma StepKeepsInStep(m: LineMachine, text: string, c: char)
    requires InStep(m, text)
    ensures InStep(StepChar(m, c), text + [c])
  {
    var r := Frame(text).residual;
    if c == '\n' && r != "" && r[|r| - 1] == '\n' {
      BlankLineEndsEvent(m, text);
    } else {
      OtherCharExtends(m, text, c);
    }
  }

  lemma {:induction false} MachineInStep(text: string)
    ensures InStep(RunLines(START, text), text)
    decreases |text|
  {
    if text == "" {
      assert Frame("") == Framing([], "") && Lines("") == [""];
    } else {
      var n := |text| - 1;
      MachineInStep(text[..n]);
      StepKeepsInStep(RunLines(START, text[..n]), text[..n], text[n]);
      assert text[..n] + [text[n]] == text;
    }
  }

  /** Cutting at blank lines gives the payloads of the line-by-line reading, however the stream is cut. */
  lemma ReaderMatchesLineReading(pieces: seq<string>)
    ensures FeedAll("", pieces).payloads == RunLines(START, DropCarriageReturns(Flatten(pieces))).out
  {
    ChunkingIndependence(pieces);
    MachineInStep(DropCarriageReturns(Flatten(pieces)));
  }

  // ----- writing and reading events -----

  /** A line of an event as a server writes it: a value with white space around it, or a field that is not read. */
  datatype Field = Data(left: string, value: string, right: string) | Ignored(line: string)

  function FieldLine(field: Field): string {
    match field case Data(left, value, right) => "data:" + left + value + right case Ignored(line) => line
  }

  predicate FieldFits(field: Field) {
    && '\n' !in FieldLine(field) && '\r' !in FieldLine(field)
    && match field
       case Data(left, value, right) => AllSpace(left) && AllSpace(right) && Trim(value) == value
       case Ignored(line) => line != "" && !StartsWith(line, "data:")
  }

  predicate EventFits(event: seq<Field>) {
    event != [] && forall i :: 0 <= i < |event| ==> FieldFits(event[i])
  }

  function EventLines(event: seq<Field>, eol: string): string {
    if event == [] then "" else EventLines(event[..|event| - 1], eol) + (FieldLine(event[|event| - 1]) + eol)
  }

  /** Events with their lines, each followed by a blank line. */
  function Written(events: seq<seq<Field>>, eol: string): string {
    if events == [] then ""
    else Written(events[..|events| - 1], eol) + (EventLines(events[|events| - 1], eol) + eol)
  }

  function Values(event: seq<Field>): seq<string> {
    if event == [] then []
    else
      var last := event[|event| - 1];
      Values(event[..|event| - 1]) + if last.Data? then [last.value] else []
  }

  /** The values of each event on lines of their own; an event without any, or with just the end mark, says nothing. */
  function Said(events: seq<seq<Field>>): seq<string> {
    if events == [] then []
    else
      var data := Join(Values(events[|events| - 1]), "\n");
      Said(events[..|events| - 1]) + if data == "" || data == "[DONE]" then [] else [data]
  }

  lemma {:induction false} RunMore(m: LineMachine, a: string, b: string)
    ensures RunLines(m, a + b) == RunLines(RunLines(m, a), b)
    decreases |b|
  {
    hide StepChar;
    if b == "" {
      assert a + b == a;
    } else {
      var n := |b| - 1;
      RunMore(m, a, b[..n]);
      assert (a + b)[..|a + b| - 1] == a + b[..n] && (a + b)[|a + b| - 1] == b[n];
    }
  }

  lemma {:induction false} RunWithin(m: LineMachine, s: string)
    requires '\n' !in s
    ensures RunLines(m, s) == m.(line := m.line + s)
    decreases |s|
  {
    if s == "" {
      assert m.line + s == m.line;
    } else {
      var n := |s| - 1;
      RunWithin(m, s[..n]);
      assert s[..n] + [s[n]] == s;
      assert m.line + s[..n] + [s[n]] == m.line + s;
    }
  }

  lemma RunNewline(m: LineMachine)
    ensures RunLines(m, "\n") == StepChar(m, '\n')
  {
    assert "\n"[..0] == "";
    assert RunLines(m, "") == m;
  }

  lemma FieldValue(field: Field)
    requires FieldFits(field)
    ensures FieldLine(field) != ""
    ensures DataValues([FieldLine(field)]) == if field.Data? then [field.value] else []
  {
    hide Trim, AllSpace;
    var line: string := FieldLine(field);
    assert [line][1..] == [];
    if field.Data? {
      assert line[5..] == field.left + field.value + field.right;
      PaddedValue(field.left, field.value, field.right);
    }
  }

  lemma PaddedValue(left: string, value: string, right: string)
    requires AllSpace(left) && AllSpace(right) && Trim(value) == value
    ensures Trim(left + value + right) == value
  {
    hide AllSpace, Trim, IsSpace;
    var _, _ := TrimSplits(value);
    TrimUnique(left, value, right);
  }

  lemma {:induction false} FieldIsRead(m: LineMachine, field: Field)
    requires FieldFits(field) && m.line == ""
    ensures RunLines(m, FieldLine(field) + "\n")
            == m.(values := m.values + if field.Data? then [field.value] else [])
  {
    hide RunLines, Trim, AllSpace, DataValues;
    RunMore(m, FieldLine(field), "\n");
    RunWithin(m, FieldLine(field));
    RunNewline(m.(line := m.line + FieldLine(field)));
    FieldValue(field);
    assert m.line + FieldLine(field) == FieldLine(field);
  }

  lemma {:induction false} FieldsAreRead(m: LineMachine, event: seq<Field>)
    requires m.line == "" && m.values == [] && forall i :: 0 <= i < |event| ==> FieldFits(event[i])
    ensures RunLines(m, EventLines(event, "\n")) == m.(values := Values(event))
  {
    hide RunLines, FieldFits;
    if event == [] {
      RunNothing(m);
    } else {
      var n := |event| - 1;
      FieldsAreRead(m, event[..n]);
      RunMore(m, EventLines(event[..n], "\n"), FieldLine(event[n]) + "\n");
      FieldIsRead(m.(values := Values(event[..n])), event[n]);
    }
  }

  lemma RunNothing(m: LineMachine)
    ensures RunLines(m, "") == m
  {
  }

  lemma {:induction false} EventsAreRun(events: seq<seq<Field>>)
    requires forall i :: 0 <= i < |events| ==> EventFits(events[i])
    ensures RunLines(START, Written(events, "\n")) == LineMachine("", [], Said(events))
  {
    hide RunLines, EventFits, EventLines, Values;
    if events == [] {
      RunNothing(START);
    } else {
      var n := |events| - 1;
      EventsAreRun(events[..n]);
      var m := LineMachine("", [], Said(events[..n]));
      RunMore(START, Written(events[..n], "\n"), EventLines(events[n], "\n") + "\n");
      RunMore(m, EventLines(events[n], "\n"), "\n");
      FitsAll(events[n]);
      FieldsAreRead(m, events[n]);
      RunNewline(m.(values := Values(events[n])));
    }
  }

  lemma FitsAll(event: seq<Field>)
    requires EventFits(event)
    ensures forall i :: 0 <= i < |event| ==> FieldFits(event[i])
  {
    hide FieldFits;
  }

  lemma {:induction false} NothingDropped(s: string)
    requires '\r' !in s
    ensures DropCarriageReturns(s) == s
  {
    if s != "" {
      NothingDropped(s[1..]);
    }
  }

  lemma EolDropped(eol: string)
    requires eol in {"\n", "\r\n"}
    ensures DropCarriageReturns(eol) == "\n"
  {
    assert "\r\n"[1..] == "\n" && "\n"[1..] == "";
    assert DropCarriageReturns("\n") == "\n";
  }

  lemma {:induction false} LinesDropped(event: seq<Field>, eol: string)
    requires eol in {"\n", "\r\n"} && forall i :: 0 <= i < |event| ==> FieldFits(event[i])
    ensures DropCarriageReturns(EventLines(event, eol)) == EventLines(event, "\n")
  {
    hide DropCarriageReturns, FieldLine;
    if event == [] {
      NothingDropped("");
    } else {
      var n := |event| - 1;
      LinesDropped(event[..n], eol);
      DropDistributes(EventLines(event[..n], eol), FieldLine(event[n]) + eol);
      DropDistributes(FieldLine(event[n]), eol);
      NothingDropped(FieldLine(event[n]));
      EolDropped(eol);
    }
  }

  lemma {:induction false} WrittenDropped(events: seq<seq<Field>>, eol: string)
    requires eol in {"\n", "\r\n"} && forall i :: 0 <= i < |events| ==> EventFits(events[i])
    ensures DropCarriageReturns(Written(events, eol)) == Written(events, "\n")
  {
    hide DropCarriageReturns, EventLines, EventFits;
    if events == [] {
      NothingDropped("");
    } else {
      var n := |events| - 1;
      WrittenDropped(events[..n], eol);
      DropDistributes(Written(events[..n], eol), EventLines(events[n], eol) + eol);
      DropDistributes(EventLines(events[n], eol), eol);
      FitsAll(events[n]);
      LinesDropped(events[n], eol);
      EolDropped(eol);
    }
  }

  /** Round trip: whatever events a server writes, with either line ending, white space around the values and other
      fields among them, and however the stream is cut, exactly the data of each event is read, in order. */
  lemma WrittenEventsAreRead(events: seq<seq<Field>>, eol: string, pieces: seq<string>)
    requires eol in {"\n", "\r\n"} && forall i :: 0 <= i < |events| ==> EventFits(events[i])
    requires Flatten(pieces) == Written(events, eol)
    ensures FeedAll("", pieces).payloads == Said(events)
  {
    hide EventFits, RunLines, FeedAll, Written, Said;
    ReaderMatchesLineReading(pieces);
    WrittenDropped(events, eol);
    EventsAreRun(events);
  }
}
