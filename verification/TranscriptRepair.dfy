/** Re-pairing tool calls with tool results (src/agents/session-transcript-repair.ts). */
module TranscriptRepair {
  import opened Common
  import opened Text

  /** A tool call, with its name if that is a string. */
  datatype ToolCall = ToolCall(id: string, name: Option<string>)

  /** A transcript message, reduced to what pairing and budgeting look at. A tool name that is not a string is no
      name. */
  datatype Message =
    | Assistant(calls: seq<ToolCall>, failed: bool, tokens: nat)
    | ToolResult(id: Option<string>, toolName: Option<string>, tokens: nat)
    | Other(tokens: nat)

  /** What a synthetic result costs, and whether results of failed turns are dropped or preserved. */
  datatype Options = Options(missingTokens: nat, dropFailedResults: bool)

  /** The synthetic error result for a call that has none. */
  function MissingResult(call: ToolCall, tokens: nat): Message {
    ToolResult(Some(call.id), Some(if call.name.Some? then call.name.value else "unknown"), tokens)
  }

  function Ids(calls: seq<ToolCall>): set<string> {
    set c | c in calls :: c.id
  }

  /** The name of the last call with this id. */
  function NameOf(calls: seq<ToolCall>, id: string): Option<string> {
    if calls == [] then None
    else if calls[|calls| - 1].id == id then calls[|calls| - 1].name
    else NameOf(calls[..|calls| - 1], id)
  }

  function TrimNonEmpty(value: Option<string>): Option<string> {
    if value.Some? && Trim(value.value) != "" then Some(Trim(value.value)) else None
  }

  /** A result keeps its own name, trimmed; a blank or missing one is replaced by the name of its call. */
  function NormalName(toolName: Option<string>, fallback: Option<string>): Option<string> {
    if TrimNonEmpty(toolName).Some? then TrimNonEmpty(toolName)
    else if TrimNonEmpty(fallback).Some? then TrimNonEmpty(fallback)
    else if toolName.Some? then Some("unknown")
    else None
  }

  function Normalized(m: Message, calls: seq<ToolCall>): Message
    requires m.ToolResult? && m.id.Some?
  {
    m.(toolName := NormalName(m.toolName, NameOf(calls, m.id.value)))
  }

  // ----- what the repair computes -----

  /** The transcript built so far and the report's counters. */
  datatype Progress = Progress(
    out: seq<Message>,
    seen: set<string>,
    added: seq<Message>,
    duplicates: nat,
    orphans: nat,
    changed: bool)

  /** What lies between an assistant turn and the next one. */
  datatype Span = Span(results: map<string, Message>, remainder: seq<Message>, duplicates: nat, orphans: nat,
    changed: bool)

  function ScanOne(span: Span, m: Message, calls: seq<ToolCall>, seen: set<string>): Span {
    if !m.ToolResult? then
      span.(remainder := span.remainder + [m])
    else if m.id.Some? && m.id.value in Ids(calls) then
      if m.id.value in seen then span.(duplicates := span.duplicates + 1, changed := true)
      else
        var named := Normalized(m, calls);
        span.(results := if m.id.value in span.results then span.results else span.results[m.id.value := named],
              changed := span.changed || named != m)
    else
      span.(orphans := span.orphans + 1, changed := true)
  }

  function SpanEnd(messages: seq<Message>, from: nat): (end: nat)
    requires from <= |messages|
    ensures from <= end <= |messages|
    decreases |messages| - from
  {
    if from == |messages| || messages[from].Assistant? then from else SpanEnd(messages, from + 1)
  }

  function ScanAll(span: Span, messages: seq<Message>, calls: seq<ToolCall>, seen: set<string>): Span {
    if messages == [] then span
    else ScanOne(ScanAll(span, messages[..|messages| - 1], calls, seen), messages[|messages| - 1], calls, seen)
  }

  function PushToolResult(p: Progress, m: Message): Progress {
    if m.ToolResult? && m.id.Some? then
      if m.id.value in p.seen then p.(duplicates := p.duplicates + 1, changed := true)
      else p.(seen := p.seen + {m.id.value}, out := p.out + [m])
    else p.(out := p.out + [m])
  }

  function PushForCall(p: Progress, call: ToolCall, span: Span, failed: bool, options: Options): Progress {
    if failed && options.dropFailedResults then p
    else if call.id in span.results then PushToolResult(p, span.results[call.id])
    else if failed then p
    else
      var missing := MissingResult(call, options.missingTokens);
      PushToolResult(p.(added := p.added + [missing], changed := true), missing)
  }

  function PushForCalls(p: Progress, calls: seq<ToolCall>, span: Span, failed: bool, options: Options): Progress {
    if calls == [] then p
    else PushForCall(PushForCalls(p, calls[..|calls| - 1], span, failed, options), calls[|calls| - 1], span, failed,
      options)
  }

  const EMPTY_SPAN := Span(map[], [], 0, 0, false)

  /** Results of this turn would be dropped, or moved in front of other messages. */
  predicate LosesOrder(turn: Message, span: Span, options: Options)
    requires turn.Assistant?
  {
    if turn.failed then options.dropFailedResults else span.remainder != []
  }

  /** Emit the turn and account for what its span held. */
  function StartTurn(p: Progress, turn: Message, span: Span, options: Options): Progress
    requires turn.Assistant?
  {
    p.(
      out := p.out + [turn],
      duplicates := p.duplicates + span.duplicates,
      orphans := p.orphans + span.orphans,
      changed := p.changed || span.changed || (|span.results| > 0 && LosesOrder(turn, span, options)))
  }

  /** One assistant turn together with everything up to the next one. */
  function RepairTurn(p: Progress, turn: Message, between: seq<Message>, options: Options): Progress
    requires turn.Assistant?
  {
    var span := ScanAll(EMPTY_SPAN, between, turn.calls, p.seen);
    var pushed := PushForCalls(StartTurn(p, turn, span, options), turn.calls, span, turn.failed, options);
    pushed.(out := pushed.out + span.remainder)
  }

  function DropOrphan(p: Progress): Progress {
    p.(orphans := p.orphans + 1, changed := true)
  }

  function Keep(p: Progress, m: Message): Progress {
    p.(out := p.out + [m])
  }

  function RepairFrom(p: Progress, messages: seq<Message>, i: nat, options: Options): Progress
    requires i <= |messages|
    decreases |messages| - i
  {
    if i == |messages| then p
    else if messages[i].ToolResult? then
      RepairFrom(DropOrphan(p), messages, i + 1, options)
    else if messages[i].Other? || messages[i].calls == [] then
      RepairFrom(Keep(p, messages[i]), messages, i + 1, options)
    else
      var j := SpanEnd(messages, i + 1);
      RepairFrom(RepairTurn(p, messages[i], messages[i + 1..j], options), messages, j, options)
  }

  const NO_PROGRESS := Progress([], {}, [], 0, 0, false)

  datatype Report = Report(messages: seq<Message>, added: seq<Message>, duplicates: nat, orphans: nat, changed: bool)

  function Repaired(messages: seq<Message>, options: Options): Report {
    var p := RepairFrom(NO_PROGRESS, messages, 0, options);
    Report(if p.changed then p.out else messages, p.added, p.duplicates, p.orphans, p.changed)
  }

  lemma PushNone(p: Progress, span: Span, failed: bool, options: Options)
    ensures PushForCalls(p, [], span, failed, options) == p
  {
  }

  lemma PushOneMore(p: Progress, calls: seq<ToolCall>, k: nat, span: Span, failed: bool, options: Options)
    requires k < |calls|
    ensures PushForCalls(p, calls[..k + 1], span, failed, options)
            == PushForCall(PushForCalls(p, calls[..k], span, failed, options), calls[k], span, failed, options)
  {
    assert calls[..k + 1][..k] == calls[..k];
  }

  lemma NothingToScan(calls: seq<ToolCall>, seen: set<string>)
    ensures ScanAll(EMPTY_SPAN, [], calls, seen) == EMPTY_SPAN
  {
  }

  lemma ScanOneMore(between: seq<Message>, m: Message, calls: seq<ToolCall>, seen: set<string>)
    ensures ScanAll(EMPTY_SPAN, between + [m], calls, seen)
            == ScanOne(ScanAll(EMPTY_SPAN, between, calls, seen), m, calls, seen)
  {
    assert (between + [m])[..|between|] == between;
  }

  method CollectSpan(messages: seq<Message>, from: nat, calls: seq<ToolCall>, seen: set<string>)
      returns (span: Span, j: nat)
    requires from <= |messages|
    ensures j == SpanEnd(messages, from)
    ensures span == ScanAll(EMPTY_SPAN, messages[from..j], calls, seen)
  {
    hide ScanAll, ScanOne;
    j := from;
    span := EMPTY_SPAN;
    assert messages[from..from] == [];
    NothingToScan(calls, seen);
    while j < |messages| && !messages[j].Assistant?
      invariant from <= j <= |messages|
      invariant SpanEnd(messages, from) == SpanEnd(messages, j)
      invariant span == ScanAll(EMPTY_SPAN, messages[from..j], calls, seen)
    {
      assert messages[from..j + 1] == messages[from..j] + [messages[j]];
      ScanOneMore(messages[from..j], messages[j], calls, seen);
      span := ScanOne(span, messages[j], calls, seen);
      j := j + 1;
    }
  }

  method RepairToolUseResultPairing(messages: seq<Message>, options: Options) returns (report: Report)
    ensures report == Repaired(messages, options)
  {
    hide PushForCalls, ScanAll;
    var p := NO_PROGRESS;
    var i := 0;
    while i < |messages|
      invariant 0 <= i <= |messages|
      invariant RepairFrom(NO_PROGRESS, messages, 0, options) == RepairFrom(p, messages, i, options)
    {
      var msg := messages[i];
      if msg.ToolResult? {
        p := DropOrphan(p);
        i := i + 1;
      } else if msg.Other? || msg.calls == [] {
        p := Keep(p, msg);
        i := i + 1;
      } else {
        var span, j := CollectSpan(messages, i + 1, msg.calls, p.seen);
        ghost var before := p;
        p := StartTurn(p, msg, span, options);
        ghost var start := p;
        PushNone(start, span, msg.failed, options);
        assert msg.calls[..0] == [];
        for k := 0 to |msg.calls|
          invariant p == PushForCalls(start, msg.calls[..k], span, msg.failed, options)
        {
          PushOneMore(start, msg.calls, k, span, msg.failed, options);
          p := PushForCall(p, msg.calls[k], span, msg.failed, options);
        }
        assert msg.calls[..|msg.calls|] == msg.calls;
        p := p.(out := p.out + span.remainder);
        assert p == RepairTurn(before, msg, messages[i + 1..j], options);
        i := j;
      }
    }
    return Report(if p.changed then p.out else messages, p.added, p.duplicates, p.orphans, p.changed);
  }

  // ----- what the repair promises -----

  /** The messages that are not tool results, in order. */
  function NonResults(messages: seq<Message>): seq<Message> {
    if messages == [] then []
    else
      var last := messages[|messages| - 1];
      NonResults(messages[..|messages| - 1]) + if last.ToolResult? then [] else [last]
  }

  lemma {:induction false} NonResultsAppend(a: seq<Message>, b: seq<Message>)
    ensures NonResults(a + b) == NonResults(a) + NonResults(b)
  {
    if b == [] {
      assert a + b == a;
    } else {
      var n := |b| - 1;
      assert (a + b)[..|a + b| - 1] == a + b[..n] && (a + b)[|a + b| - 1] == b[n];
      NonResultsAppend(a, b[..n]);
    }
  }

  lemma NonResultsNone()
    ensures NonResults([]) == []
  {
  }

  lemma NonResultsOne(m: Message)
    ensures NonResults([m]) == if m.ToolResult? then [] else [m]
  {
    assert [m][..0] == [];
  }

  /** The calls whose results may come next. */
  function OpenCalls(messages: seq<Message>): seq<ToolCall> {
    if messages == [] then []
    else match messages[|messages| - 1]
      case Assistant(calls, _, _) => calls
      case ToolResult(_, _, _) => OpenCalls(messages[..|messages| - 1])
      case Other(_) => []
  }

  /** Every tool result follows the assistant turn that made the call, with only results in between. */
  predicate Anchored(messages: seq<Message>) {
    messages == [] ||
    var before := messages[..|messages| - 1];
    var last := messages[|messages| - 1];
    Anchored(before) && (last.ToolResult? ==> last.id.Some? && last.id.value in Ids(OpenCalls(before)))
  }

  lemma Snoc(messages: seq<Message>, m: Message)
    ensures NonResults(messages + [m]) == NonResults(messages) + if m.ToolResult? then [] else [m]
    ensures Anchored(messages + [m]) <==>
            Anchored(messages) && (m.ToolResult? ==> m.id.Some? && m.id.value in Ids(OpenCalls(messages)))
    ensures OpenCalls(messages + [m]) ==
            match m case Assistant(calls, _, _) => calls case ToolResult(_, _,
              _) => OpenCalls(messages) case Other(_) => []
  {
    assert (messages + [m])[..|messages + [m]| - 1] == messages;
  }

  lemma {:induction false} ExtendAnchored(messages: seq<Message>, more: seq<Message>)
    requires Anchored(messages) && forall i :: 0 <= i < |more| ==> !more[i].ToolResult?
    ensures Anchored(messages + more) && NonResults(messages + more) == NonResults(messages) + more
  {
    hide Anchored, NonResults, OpenCalls;
    if more == [] {
      assert messages + more == messages;
    } else {
      var n := |more| - 1;
      ExtendAnchored(messages, more[..n]);
      Snoc(messages + more[..n], more[n]);
      assert messages + more == (messages + more[..n]) + [more[n]];
    }
  }

  /** A span holds results of the turn's own calls, and keeps every other kind of message in order. */
  lemma {:induction false} ScanKeeps(between: seq<Message>, calls: seq<ToolCall>, seen: set<string>)
    ensures var span := ScanAll(EMPTY_SPAN, between, calls, seen);
            && (forall id :: id in span.results ==>
                  span.results[id].ToolResult? && span.results[id].id == Some(id) && id in Ids(calls))
            && (forall i :: 0 <= i < |span.remainder| ==> !span.remainder[i].ToolResult?)
            && span.remainder == NonResults(between)
  {
    if between != [] {
      ScanKeeps(between[..|between| - 1], calls, seen);
    }
  }

  lemma {:induction false} PushKeeps(p: Progress, calls: seq<ToolCall>, span: Span, failed: bool, options: Options,
      turnCalls: seq<ToolCall>)
    requires forall id :: id in span.results ==> span.results[id].ToolResult? && span.results[id].id == Some(id)
    requires Anchored(p.out) && OpenCalls(p.out) == turnCalls && forall c :: c in calls ==> c in turnCalls
    ensures var q := PushForCalls(p, calls, span, failed, options);
            Anchored(q.out) && OpenCalls(q.out) == turnCalls && NonResults(q.out) == NonResults(p.out)
  {
    hide Anchored, OpenCalls, NonResults;
    if calls != [] {
      var n := |calls| - 1;
      PushKeeps(p, calls[..n], span, failed, options, turnCalls);
      var q := PushForCalls(p, calls[..n], span, failed, options);
      var m := if calls[n].id in span.results then span.results[calls[n].id]
        else MissingResult(calls[n], options.missingTokens);
      Snoc(q.out, m);
    }
  }

  lemma TurnKeeps(p: Progress, turn: Message, between: seq<Message>, options: Options)
    requires turn.Assistant? && Anchored(p.out)
    ensures var q := RepairTurn(p, turn, between, options);
            Anchored(q.out) && NonResults(q.out) == NonResults(p.out) + [turn] + NonResults(between)
  {
    var span := ScanAll(EMPTY_SPAN, between, turn.calls, p.seen);
    ScanKeeps(between, turn.calls, p.seen);
    Snoc(p.out, turn);
    var start := StartTurn(p, turn, span, options);
    PushKeeps(start, turn.calls, span, turn.failed, options, turn.calls);
    ExtendAnchored(PushForCalls(start, turn.calls, span, turn.failed, options).out, span.remainder);
  }

  lemma {:induction false} RepairKeeps(p: Progress, messages: seq<Message>, i: nat, options: Options)
    requires i <= |messages| && Anchored(p.out)
    ensures var q := RepairFrom(p, messages, i, options);
            Anchored(q.out) && NonResults(q.out) == NonResults(p.out) + NonResults(messages[i..])
    decreases |messages| - i
  {
    hide NonResults, Anchored, OpenCalls, RepairTurn, RepairFrom, Ids;
    if i == |messages| {
      assert messages[i..] == [];
      NonResultsNone();
      NothingToRepair(p, messages, options);
    } else {
      RepairStep(p, messages, i, options);
      var m := messages[i];
      NonResultsSplit(messages, i, i + 1);
      assert messages[i..i + 1] == [m];
      NonResultsOne(m);
      if m.ToolResult? {
        RepairKeeps(DropOrphan(p), messages, i + 1, options);
      } else if m.Other? || m.calls == [] {
        Snoc(p.out, m);
        RepairKeeps(Keep(p, m), messages, i + 1, options);
      } else {
        var j := SpanEnd(messages, i + 1);
        TurnKeeps(p, m, messages[i + 1..j], options);
        RepairKeeps(RepairTurn(p, m, messages[i + 1..j], options), messages, j, options);
        NonResultsSplit(messages, i + 1, j);
      }
    }
  }

  lemma NothingToRepair(p: Progress, messages: seq<Message>, options: Options)
    ensures RepairFrom(p, messages, |messages|, options) == p
  {
  }

  lemma RepairStep(p: Progress, messages: seq<Message>, i: nat, options: Options)
    requires i < |messages|
    ensures RepairFrom(p, messages, i, options) ==
            var m := messages[i];
            if m.ToolResult? then RepairFrom(DropOrphan(p), messages, i + 1, options)
            else if m.Other? || m.calls == [] then RepairFrom(Keep(p, m), messages, i + 1, options)
            else
              var j := SpanEnd(messages, i + 1);
              RepairFrom(RepairTurn(p, m, messages[i + 1..j], options), messages, j, options)
  {
  }

  lemma NonResultsSplit(messages: seq<Message>, i: nat, j: nat)
    requires i <= j <= |messages|
    ensures NonResults(messages[i..]) == NonResults(messages[i..j]) + NonResults(messages[j..])
  {
    assert messages[i..] == messages[i..j] + messages[j..];
    NonResultsAppend(messages[i..j], messages[j..]);
  }

  // ----- distinct results -----

  function ResultIds(messages: seq<Message>): set<string> {
    if messages == [] then {}
    else
      var last := messages[|messages| - 1];
      ResultIds(messages[..|messages| - 1]) + if last.ToolResult? && last.id.Some? then {last.id.value} else {}
  }

  /** No call is answered twice. */
  predicate DistinctResults(messages: seq<Message>) {
    messages == [] ||
    var before := messages[..|messages| - 1];
    var last := messages[|messages| - 1];
    DistinctResults(before) && (last.ToolResult? && last.id.Some? ==> last.id.value !in ResultIds(before))
  }

  /** Everything answered so far has been seen, and nothing twice. */
  ghost predicate Deduplicated(p: Progress) {
    DistinctResults(p.out) && ResultIds(p.out) == p.seen
  }

  lemma SnocIds(messages: seq<Message>, m: Message)
    ensures ResultIds(messages + [m]) == ResultIds(messages) + if m.ToolResult? && m.id.Some? then {m.id.value} else {}
    ensures DistinctResults(messages + [m]) <==>
            DistinctResults(messages) && (m.ToolResult? && m.id.Some? ==> m.id.value !in ResultIds(messages))
  {
    assert (messages + [m])[..|messages + [m]| - 1] == messages;
  }

  lemma {:induction false} ExtendDistinct(messages: seq<Message>, more: seq<Message>)
    requires forall i :: 0 <= i < |more| ==> !more[i].ToolResult?
    ensures ResultIds(messages + more) == ResultIds(messages)
    ensures DistinctResults(messages + more) <==> DistinctResults(messages)
  {
    if more == [] {
      assert messages + more == messages;
    } else {
      var n := |more| - 1;
      ExtendDistinct(messages, more[..n]);
      SnocIds(messages + more[..n], more[n]);
      assert messages + more == (messages + more[..n]) + [more[n]];
    }
  }

  lemma {:induction false} PushDeduplicates(p: Progress, calls: seq<ToolCall>, span: Span, failed: bool,
      options: Options)
    requires Deduplicated(p)
    ensures Deduplicated(PushForCalls(p, calls, span, failed, options))
  {
    if calls != [] {
      var n := |calls| - 1;
      PushDeduplicates(p, calls[..n], span, failed, options);
      var q := PushForCalls(p, calls[..n], span, failed, options);
      SnocIds(q.out, if calls[n].id in span.results then span.results[calls[n].id]
        else MissingResult(calls[n], options.missingTokens));
    }
  }

  lemma {:induction false} RepairDeduplicates(p: Progress, messages: seq<Message>, i: nat, options: Options)
    requires i <= |messages| && Deduplicated(p)
    ensures Deduplicated(RepairFrom(p, messages, i, options))
    decreases |messages| - i
  {
    hide ResultIds, DistinctResults, PushForCalls, ScanAll;
    if i < |messages| {
      var m := messages[i];
      SnocIds(p.out, m);
      if m.ToolResult? {
        RepairDeduplicates(DropOrphan(p), messages, i + 1, options);
      } else if m.Other? || m.calls == [] {
        RepairDeduplicates(Keep(p, m), messages, i + 1, options);
      } else {
        var j := SpanEnd(messages, i + 1);
        var between := messages[i + 1..j];
        var span := ScanAll(EMPTY_SPAN, between, m.calls, p.seen);
        var start := StartTurn(p, m, span, options);
        PushDeduplicates(start, m.calls, span, m.failed, options);
        ScanKeeps(between, m.calls, p.seen);
        ExtendDistinct(PushForCalls(start, m.calls, span, m.failed, options).out, span.remainder);
        RepairDeduplicates(RepairTurn(p, m, between, options), messages, j, options);
      }
    }
  }

  // ----- transcripts returned unchanged -----

  lemma {:induction false} PushIsSticky(p: Progress, calls: seq<ToolCall>, span: Span, failed: bool, options: Options)
    requires !PushForCalls(p, calls, span, failed, options).changed
    ensures !p.changed
  {
    if calls != [] {
      PushIsSticky(p, calls[..|calls| - 1], span, failed, options);
    }
  }

  lemma {:induction false} RepairIsSticky(p: Progress, messages: seq<Message>, i: nat, options: Options)
    requires i <= |messages| && !RepairFrom(p, messages, i, options).changed
    ensures !p.changed
    decreases |messages| - i, 0
  {
    hide PushForCalls, ScanAll;
    if i < |messages| {
      var m := messages[i];
      if m.ToolResult? {
        RepairIsSticky(DropOrphan(p), messages, i + 1, options);
      } else if m.Other? || m.calls == [] {
        RepairIsSticky(Keep(p, m), messages, i + 1, options);
      } else {
        var j := SpanEnd(messages, i + 1);
        TurnIsSticky(p, m, messages[i + 1..j], messages, j, options);
      }
    }
  }

  lemma {:induction false} TurnIsSticky(p: Progress, turn: Message, between: seq<Message>, messages: seq<Message>,
      j: nat, options: Options)
    requires turn.Assistant? && j <= |messages|
    requires !RepairFrom(RepairTurn(p, turn, between, options), messages, j, options).changed
    ensures var span := ScanAll(EMPTY_SPAN, between, turn.calls, p.seen);
            !p.changed && !StartTurn(p, turn, span, options).changed && !RepairTurn(p, turn, between, options).changed
    decreases |messages| - j, 1
  {
    var span := ScanAll(EMPTY_SPAN, between, turn.calls, p.seen);
    RepairIsSticky(RepairTurn(p, turn, between, options), messages, j, options);
    PushIsSticky(StartTurn(p, turn, span, options), turn.calls, span, turn.failed, options);
  }

  /** A span that changes nothing holds only results of the turn's own calls besides other messages. */
  lemma {:induction false} UnchangedSpan(between: seq<Message>, calls: seq<ToolCall>, seen: set<string>)
    requires !ScanAll(EMPTY_SPAN, between, calls, seen).changed
    ensures var span := ScanAll(EMPTY_SPAN, between, calls, seen);
            && (forall i :: 0 <= i < |between| && between[i].ToolResult? ==>
                  between[i].id.Some? && between[i].id.value in Ids(calls))
            && (span.results == map[] ==> forall i :: 0 <= i < |between| ==> !between[i].ToolResult?)
            && (span.remainder == [] ==> forall i :: 0 <= i < |between| ==> between[i].ToolResult?)
  {
    if between != [] {
      var n := |between| - 1;
      var m := between[n];
      var span := ScanAll(EMPTY_SPAN, between[..n], calls, seen);
      UnchangedSpan(between[..n], calls, seen);
      assert forall i :: 0 <= i < n ==> between[..n][i] == between[i];
      if m.ToolResult? {
        assert ScanOne(span, m, calls, seen).remainder == span.remainder;
        if m.id.value !in span.results {
          assert m.id.value in ScanOne(span, m, calls, seen).results;
        }
      } else {
        assert ScanOne(span, m, calls, seen).results == span.results;
      }
    }
  }

  lemma {:induction false} ExtendWithResults(messages: seq<Message>, more: seq<Message>, calls: seq<ToolCall>)
    requires Anchored(messages) && OpenCalls(messages) == calls
    requires forall i :: 0 <= i < |more| ==> more[i].ToolResult? && more[i].id.Some? && more[i].id.value in Ids(calls)
    ensures Anchored(messages + more) && OpenCalls(messages + more) == calls
  {
    if more == [] {
      assert messages + more == messages;
    } else {
      var n := |more| - 1;
      ExtendWithResults(messages, more[..n], calls);
      Snoc(messages + more[..n], more[n]);
      assert messages + more == (messages + more[..n]) + [more[n]];
    }
  }

  predicate NoFailedTurn(messages: seq<Message>) {
    forall i :: 0 <= i < |messages| ==> !(messages[i].Assistant? && messages[i].failed)
  }

  lemma {:induction false} UnchangedIsAnchored(p: Progress, messages: seq<Message>, i: nat, options: Options)
    requires i <= |messages| && Anchored(messages[..i]) && NoFailedTurn(messages)
    requires !RepairFrom(p, messages, i, options).changed
    ensures Anchored(messages)
    decreases |messages| - i
  {
    hide Anchored, OpenCalls, NonResults, PushForCalls, ScanAll;
    if i == |messages| {
      assert messages[..i] == messages;
    } else {
      var m := messages[i];
      Snoc(messages[..i], m);
      assert messages[..i + 1] == messages[..i] + [m];
      if m.ToolResult? {
        RepairIsSticky(DropOrphan(p), messages, i + 1, options);
      } else if m.Other? || m.calls == [] {
        UnchangedIsAnchored(Keep(p, m), messages, i + 1, options);
      } else {
        var j := SpanEnd(messages, i + 1);
        var between := messages[i + 1..j];
        var span := ScanAll(EMPTY_SPAN, between, m.calls, p.seen);
        TurnIsSticky(p, m, between, messages, j, options);
        UnchangedSpan(between, m.calls, p.seen);
        assert messages[..j] == messages[..i + 1] + between;
        if |span.results| == 0 {
          assert span.results == map[];
          ExtendAnchored(messages[..i + 1], between);
        } else {
          ExtendWithResults(messages[..i + 1], between, m.calls);
        }
        UnchangedIsAnchored(RepairTurn(p, m, between, options), messages, j, options);
      }
    }
  }

  lemma FirstIsNoResult(messages: seq<Message>, options: Options)
    requires messages != [] && messages[0].ToolResult?
    ensures Repaired(messages, options).changed
  {
    if !Repaired(messages, options).changed {
      RepairIsSticky(DropOrphan(NO_PROGRESS), messages, 1, options);
    }
  }

  lemma {:induction false} AnchoredStartsWithNoResult(messages: seq<Message>)
    requires Anchored(messages) && messages != []
    ensures !messages[0].ToolResult?
  {
    if |messages| > 1 {
      AnchoredStartsWithNoResult(messages[..|messages| - 1]);
    } else {
      assert messages[..0] == [];
    }
  }

  /** Every message that is not a tool result survives, in order; a repaired transcript never starts
      with a tool result; each result follows the turn that called for it and none is repeated,
      whenever something was changed. A transcript returned as it came also has its results in
      place, unless one of its turns failed. */
  lemma RepairPromises(messages: seq<Message>, options: Options)
    ensures var report := Repaired(messages, options);
            && NonResults(report.messages) == NonResults(messages)
            && (report.messages != [] ==> !report.messages[0].ToolResult?)
            && (report.changed ==> Anchored(report.messages) && DistinctResults(report.messages))
            && (NoFailedTurn(messages) ==> Anchored(report.messages))
  {
    assert messages[0..] == messages && messages[..0] == [];
    RepairKeeps(NO_PROGRESS, messages, 0, options);
    RepairDeduplicates(NO_PROGRESS, messages, 0, options);
    assert [] + NonResults(messages) == NonResults(messages);
    var report := Repaired(messages, options);
    if report.changed {
      if report.messages != [] {
        AnchoredStartsWithNoResult(report.messages);
      }
    } else {
      if messages != [] && messages[0].ToolResult? {
        FirstIsNoResult(messages, options);
      }
      if NoFailedTurn(messages) {
        UnchangedIsAnchored(NO_PROGRESS, messages, 0, options);
      }
    }
  }

  // ----- every call is answered -----

  ghost predicate AllAnswered(messages: seq<Message>, ids: set<string>) {
    forall m :: m in messages && m.Assistant? && !m.failed ==> forall c :: c in m.calls ==> c.id in ids
  }

  lemma {:induction false} PushAnswers(p: Progress, calls: seq<ToolCall>, span: Span, failed: bool, options: Options)
    requires forall id :: id in span.results ==> span.results[id].ToolResult? && span.results[id].id == Some(id)
    ensures var q := PushForCalls(p, calls, span, failed, options);
            && p.seen <= q.seen
            && (!failed ==> forall c :: c in calls ==> c.id in q.seen)
            && (!q.changed ==> forall c :: c in q.seen ==> c in p.seen || c in span.results)
  {
    if calls != [] {
      var n := |calls| - 1;
      PushAnswers(p, calls[..n], span, failed, options);
      assert calls == calls[..n] + [calls[n]];
    }
  }

  lemma {:induction false} SpanResultsAreThere(between: seq<Message>, calls: seq<ToolCall>, seen: set<string>)
    ensures forall id :: id in ScanAll(EMPTY_SPAN, between, calls, seen).results ==> id in ResultIds(between)
  {
    if between != [] {
      SpanResultsAreThere(between[..|between| - 1], calls, seen);
    }
  }

  lemma {:induction false} ResultIdsAppend(a: seq<Message>, b: seq<Message>)
    ensures ResultIds(a + b) == ResultIds(a) + ResultIds(b)
  {
    if b == [] {
      assert a + b == a;
    } else {
      var n := |b| - 1;
      assert a + b == (a + b[..n]) + [b[n]] && b == b[..n] + [b[n]];
      ResultIdsAppend(a, b[..n]);
      SnocIds(a + b[..n], b[n]);
      SnocIds(b[..n], b[n]);
    }
  }

  /** The repair sees an answer for every call of a turn that did not fail; if nothing was changed,
      what it saw was in the transcript. */
  lemma {:induction false} RepairAnswers(p: Progress, messages: seq<Message>, i: nat, options: Options)
    requires i <= |messages|
    ensures var q := RepairFrom(p, messages, i, options);
            && p.seen <= q.seen && AllAnswered(messages[i..], q.seen)
            && (!q.changed ==> q.seen <= p.seen + ResultIds(messages[i..]))
    decreases |messages| - i
  {
    hide ResultIds, PushForCalls, ScanAll;
    if i < |messages| {
      var m := messages[i];
      assert messages[i..] == [m] + messages[i + 1..];
      ResultIdsAppend([m], messages[i + 1..]);
      if m.ToolResult? {
        RepairAnswers(DropOrphan(p), messages, i + 1, options);
      } else if m.Other? || m.calls == [] {
        RepairAnswers(Keep(p, m), messages, i + 1, options);
      } else {
        var j := SpanEnd(messages, i + 1);
        TurnAnswers(p, messages, i, j, options);
      }
    }
  }

  lemma {:induction false} TurnAnswers(p: Progress, messages: seq<Message>, i: nat, j: nat, options: Options)
    requires i < |messages| && messages[i].Assistant? && messages[i].calls != [] && j == SpanEnd(messages, i + 1)
    ensures var q := RepairFrom(p, messages, i, options);
            && p.seen <= q.seen && AllAnswered(messages[i..], q.seen)
            && (!q.changed ==> q.seen <= p.seen + ResultIds(messages[i..]))
    decreases |messages| - i, 0
  {
    hide ResultIds, PushForCalls, ScanAll, RepairFrom;
    RepairStep(p, messages, i, options);
    var m, between, rest := messages[i], messages[i + 1..j], messages[j..];
    var span := ScanAll(EMPTY_SPAN, between, m.calls, p.seen);
    var start := StartTurn(p, m, span, options);
    ScanKeeps(between, m.calls, p.seen);
    PushAnswers(start, m.calls, span, m.failed, options);
    SpanResultsAreThere(between, m.calls, p.seen);
    SpanHasNoTurn(messages, i + 1);
    RepairAnswers(RepairTurn(p, m, between, options), messages, j, options);
    assert messages[i..] == [m] + (between + rest);
    ResultIdsAppend([m], between + rest);
    ResultIdsAppend(between, rest);
    if !RepairFrom(p, messages, i, options).changed {
      TurnIsSticky(p, m, between, messages, j, options);
    }
  }

  lemma {:induction false} SpanHasNoTurn(messages: seq<Message>, from: nat)
    requires from <= |messages|
    ensures forall m :: m in messages[from..SpanEnd(messages, from)] ==> !m.Assistant?
    decreases |messages| - from
  {
    if from < |messages| && !messages[from].Assistant? {
      SpanHasNoTurn(messages, from + 1);
      var end := SpanEnd(messages, from);
      assert messages[from..end] == [messages[from]] + messages[from + 1..end];
    }
  }

  lemma {:induction false} NonResultsMembers(messages: seq<Message>)
    ensures forall m :: m in NonResults(messages) <==> m in messages && !m.ToolResult?
  {
    if messages != [] {
      var n := |messages| - 1;
      NonResultsMembers(messages[..n]);
      assert messages == messages[..n] + [messages[n]];
    }
  }

  /** After the repair, every call of a turn that did not fail has a result in the transcript. */
  lemma EveryCallIsAnswered(messages: seq<Message>, options: Options)
    ensures var report := Repaired(messages, options);
            AllAnswered(report.messages, ResultIds(report.messages))
  {
    hide ResultIds, RepairFrom, NonResults, DistinctResults, Anchored;
    assert messages[0..] == messages;
    var report := Repaired(messages, options);
    RepairAnswers(NO_PROGRESS, messages, 0, options);
    NothingYet();
    RepairDeduplicates(NO_PROGRESS, messages, 0, options);
    RepairPromises(messages, options);
    NonResultsMembers(messages);
    NonResultsMembers(report.messages);
    forall m | m in report.messages && m.Assistant? && !m.failed
      ensures forall c :: c in m.calls ==> c.id in ResultIds(report.messages) {
      assert m in NonResults(messages);
    }
  }

  lemma NothingYet()
    ensures Deduplicated(NO_PROGRESS)
  {
  }

  lemma TwoSteps(first: Message, second: Message, calls: seq<ToolCall>)
    ensures ScanAll(EMPTY_SPAN, [first, second], calls, {})
            == ScanOne(ScanOne(EMPTY_SPAN, first, calls, {}), second, calls, {})
  {
    hide ScanOne;
    assert [first, second][..1] == [first] && [first][..0] == [];
    assert ScanAll(EMPTY_SPAN, [first], calls, {}) == ScanOne(EMPTY_SPAN, first, calls, {});
  }

  lemma OnePush(p: Progress, call: ToolCall, span: Span, failed: bool, options: Options)
    ensures PushForCalls(p, [call], span, failed, options) == PushForCall(p, call, span, failed, options)
  {
    assert [call][..0] == [];
  }

  /** A transcript of one turn and two more messages is repaired in one step. */
  lemma OneTurnTranscript(turn: Message, first: Message, second: Message, options: Options)
    requires turn.Assistant? && |turn.calls| == 1 && !first.Assistant? && !second.Assistant?
    ensures Repaired([turn, first, second], options).changed
            == RepairTurn(NO_PROGRESS, turn, [first, second], options).changed
  {
    hide RepairTurn;
    var messages := [turn, first, second];
    assert SpanEnd(messages, 2) == SpanEnd(messages, 3) == 3;
    assert messages[1..3] == [first, second];
    var q := RepairTurn(NO_PROGRESS, turn, [first, second], options);
    assert RepairFrom(q, messages, 3, options) == q;
    assert RepairFrom(NO_PROGRESS, messages, 0, options) == RepairFrom(q, messages, 3, options);
  }

  /** A failed turn whose result is displaced is put in order, but the reordering is not reported as a
      change, so the transcript comes back with the result still out of place. */
  lemma DisplacedResultOfFailedTurn(options: Options)
    requires !options.dropFailedResults
    ensures var messages := [Assistant([ToolCall("a", None)], true, 1), Other(1), ToolResult(Some("a"), None, 1)];
            && Repaired(messages, options).messages == messages
            && !Anchored(messages)
  {
    hide RepairFrom, ScanAll, PushForCalls, Anchored, Trim;
    var turn, user, result := Assistant([ToolCall("a", None)], true, 1), Other(1), ToolResult(Some("a"), None, 1);
    OneTurnTranscript(turn, user, result, options);
    TwoSteps(user, result, turn.calls);
    var span := ScanAll(EMPTY_SPAN, [user, result], turn.calls, {});
    OnePush(StartTurn(NO_PROGRESS, turn, span, options), turn.calls[0], span, true, options);
    NotAnchored(turn, user, result);
  }

  lemma NotAnchored(turn: Message, user: Message, result: Message)
    requires turn.Assistant? && user.Other? && result.ToolResult?
    ensures !Anchored([turn, user, result])
  {
    hide Anchored;
    assert [turn, user, result] == [turn, user] + [result] && [turn, user] == [turn] + [user];
    Snoc([turn, user], result);
    Snoc([turn], user);
  }

  /** Two results for the same call in one span: the second is skipped without being reported,
      so the transcript comes back with both. */
  lemma RepeatedResultInOneSpan(options: Options)
    ensures var messages :=
            [Assistant([ToolCall("a", None)], false, 1), ToolResult(Some("a"), None, 1),
              ToolResult(Some("a"), None, 2)];
            && Repaired(messages, options).messages == messages
            && !DistinctResults(messages)
  {
    hide RepairFrom, ScanAll, PushForCalls;
    var turn, first, second :=
      Assistant([ToolCall("a", None)], false, 1), ToolResult(Some("a"), None, 1), ToolResult(Some("a"), None, 2);
    OneTurnTranscript(turn, first, second, options);
    TwoSteps(first, second, turn.calls);
    var span := ScanAll(EMPTY_SPAN, [first, second], turn.calls, {});
    OnePush(StartTurn(NO_PROGRESS, turn, span, options), turn.calls[0], span, false, options);
    SnocIds([turn], first);
    SnocIds([turn, first], second);
    assert [turn, first] == [turn] + [first] && [turn, first, second] == [turn, first] + [second];
  }
}
