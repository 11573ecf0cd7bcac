/** What a repaired transcript holds and what the report counts, position by position of the transcript before the
    repair (src/agents/session-transcript-repair.ts). */
module RepairOutcome {
  import opened Common
  import opened Text
  import opened TranscriptRepair
  import opened RepairCondition
  import opened RepairTwice

  // ----- one turn -----

  /** The first result of a call within a span. */
  function FirstResult(between: seq<Message>, id: string): (r: Option<Message>)
    ensures r.Some? ==> exists k :: 0 <= k < |between| && between[k] == r.value && IsResultOf(between[k], id)
                                    && forall j :: 0 <= j < k ==> !IsResultOf(between[j], id)
    ensures r.None? ==> forall k :: 0 <= k < |between| ==> !IsResultOf(between[k], id)
  {
    if between == [] then None
    else
      var n := |between| - 1;
      var earlier := FirstResult(between[..n], id);
      assert forall k :: 0 <= k < n ==> between[..n][k] == between[k];
      if earlier.Some? then earlier else if IsResultOf(between[n], id) then Some(between[n]) else None
  }

  /** A result is named after the last call of its turn that has its id. */
  lemma {:induction false} NameIsOfLastCall(calls: seq<ToolCall>, id: string)
    ensures id !in Ids(calls) ==> NameOf(calls, id) == None
    ensures id in Ids(calls) ==>
              exists b :: 0 <= b < |calls| && calls[b].id == id && NameOf(calls, id) == calls[b].name
                          && forall c :: b < c < |calls| ==> calls[c].id != id
  {
    if calls != [] {
      var n := |calls| - 1;
      NameIsOfLastCall(calls[..n], id);
      assert calls == calls[..n] + [calls[n]];
      if calls[n].id != id && id in Ids(calls) {
        var b :| 0 <= b < n && calls[..n][b].id == id && NameOf(calls[..n], id) == calls[..n][b].name
          && forall c :: b < c < n ==> calls[..n][c].id != id;
        assert forall c :: b < c < n ==> calls[c] == calls[..n][c];
      }
    }
  }

  /** The name that a result gets is its own, else that of its call, and never blank or padded. */
  lemma NameIsProper(toolName: Option<string>, fallback: Option<string>)
    ensures var name := NormalName(toolName, fallback);
            && (name.Some? ==> name.value != "" && Trim(name.value) == name.value)
            && (toolName.Some? && Trim(toolName.value) != "" ==> name == Some(Trim(toolName.value)))
            && (toolName.None? || Trim(toolName.value) == "" ==>
                  if fallback.Some? && Trim(fallback.value) != "" then name == Some(Trim(fallback.value))
                  else name == (if toolName.Some? then Some("unknown") else None))
  {
    hide Trim;
    UnknownIsTrimmed();
    if toolName.Some? {
      TrimmedIsTrimmed(toolName.value);
    }
    if fallback.Some? {
      TrimmedIsTrimmed(fallback.value);
    }
  }

  /** An earlier call of the same turn has this id. */
  predicate MadeBefore(calls: seq<ToolCall>, b: nat)
    requires b < |calls|
  {
    exists a :: 0 <= a < b && calls[a].id == calls[b].id
  }

  /** A call is answered where its turn stands: by its first result in the span, or by a synthetic one if the turn did
      not fail; when results of failed turns are dropped, a failed turn answers nothing. */
  predicate IsAnswered(turn: Message, id: string, between: seq<Message>, options: Options)
    requires turn.Assistant?
  {
    if turn.failed then !options.dropFailedResults && FirstResult(between, id).Some? else true
  }

  /** What a call brings into the transcript: one answer for its id, and only if none was given before. */
  function AnswerTo(turn: Message, b: nat, between: seq<Message>, given: set<string>, options: Options): seq<Message>
    requires turn.Assistant? && b < |turn.calls|
  {
    var call := turn.calls[b];
    var first := FirstResult(between, call.id);
    if call.id in given || MadeBefore(turn.calls, b) || !IsAnswered(turn, call.id, between, options) then []
    else if first.Some? then [first.value.(toolName := NormalName(first.value.toolName, NameOf(turn.calls, call.id)))]
    else [ToolResult(Some(call.id), Some(if call.name.Some? then call.name.value else "unknown"),
                     options.missingTokens)]
  }

  function AnswersTo(turn: Message, n: nat, between: seq<Message>, given: set<string>, options: Options): seq<Message>
    requires turn.Assistant? && n <= |turn.calls|
  {
    if n == 0 then []
    else AnswersTo(turn, n - 1, between, given, options) + AnswerTo(turn, n - 1, between, given, options)
  }

  /** The report lists a synthetic result for every call without a usable one, also when the transcript has an answer
      from an earlier turn and does not take it. */
  function AddedFor(turn: Message, n: nat, between: seq<Message>, given: set<string>, options: Options): seq<Message>
    requires turn.Assistant? && n <= |turn.calls|
  {
    if n == 0 then []
    else
      var call := turn.calls[n - 1];
      AddedFor(turn, n - 1, between, given, options)
      + if turn.failed || (call.id !in given && FirstResult(between, call.id).Some?) then []
        else [ToolResult(Some(call.id), Some(if call.name.Some? then call.name.value else "unknown"),
                         options.missingTokens)]
  }

  /** Calls that are made again although they have an answer, or get a synthetic one that is not taken. */
  function CallsRefused(turn: Message, n: nat, between: seq<Message>, given: set<string>, options: Options): nat
    requires turn.Assistant? && n <= |turn.calls|
  {
    if n == 0 then 0
    else
      var id := turn.calls[n - 1].id;
      var refused := IsAnswered(turn, id, between, options)
        && if id in given then !turn.failed else MadeBefore(turn.calls, n - 1);
      CallsRefused(turn, n - 1, between, given, options) + if refused then 1 else 0
  }

  // ----- one position -----

  datatype Outcome = Outcome(out: seq<Message>, added: seq<Message>, duplicates: nat, orphans: nat)

  function Plus(a: Outcome, b: Outcome): Outcome {
    Outcome(a.out + b.out, a.added + b.added, a.duplicates + b.duplicates, a.orphans + b.orphans)
  }

  /** The ids that the turns before position `t` have answered. */
  function Given(messages: seq<Message>, t: nat, options: Options): set<string>
    requires t <= |messages|
  {
    if t == 0 then {}
    else
      var before := Given(messages, t - 1, options);
      if messages[t - 1].Assistant? then before + AnsweredBy(messages[t - 1], SpanOf(messages, t - 1), options)
         else before
  }

  function AnsweredBy(turn: Message, between: seq<Message>, options: Options): set<string>
    requires turn.Assistant?
  {
    set c | c in turn.calls && IsAnswered(turn, c.id, between, options) :: c.id
  }

  /** A result is an orphan when its turn has no such call, and a duplicate when its call was answered before its turn;
      otherwise it goes where its turn puts it. */
  function OfResult(m: Message, calls: seq<ToolCall>, given: set<string>): Outcome
    requires m.ToolResult?
  {
    if m.id.None? || m.id.value !in Ids(calls) then Outcome([], [], 0, 1)
    else if m.id.value in given then Outcome([], [], 1, 0)
    else Outcome([], [], 0, 0)
  }

  function OfTurn(turn: Message, between: seq<Message>, given: set<string>, options: Options): Outcome
    requires turn.Assistant?
  {
    var n := |turn.calls|;
    Outcome([turn] + AnswersTo(turn, n, between, given, options), AddedFor(turn, n, between, given, options),
            CallsRefused(turn, n, between, given, options), 0)
  }

  /** What becomes of the message at position `k`. */
  function OutcomeAt(messages: seq<Message>, k: nat, options: Options): Outcome
    requires k < |messages|
  {
    match messages[k]
    case Other(_) => Outcome([messages[k]], [], 0, 0)
    case Assistant(_, _, _) => OfTurn(messages[k], SpanOf(messages, k), Given(messages, k, options), options)
    case ToolResult(_, _, _) =>
      match OwnTurn(messages, k)
      case None => Outcome([], [], 0, 1)
      case Some(t) => OfResult(messages[k], messages[t].calls, Given(messages, t, options))
  }

  function OutcomeUpTo(messages: seq<Message>, n: nat, options: Options): Outcome
    requires n <= |messages|
  {
    if n == 0 then Outcome([], [], 0, 0)
       else Plus(OutcomeUpTo(messages, n - 1, options), OutcomeAt(messages, n - 1, options))
  }

  // ----- one span -----

  /** What becomes of the messages of a span. */
  function OfSpan(between: seq<Message>, calls: seq<ToolCall>, given: set<string>): Outcome {
    if between == [] then Outcome([], [], 0, 0)
    else
      var last := between[|between| - 1];
      Plus(OfSpan(between[..|between| - 1], calls, given),
           if last.ToolResult? then OfResult(last, calls, given) else Outcome([last], [], 0, 0))
  }

  ghost predicate Scanned(span: Span, between: seq<Message>, calls: seq<ToolCall>, given: set<string>) {
    && OfSpan(between, calls, given) == Outcome(span.remainder, [], span.duplicates, span.orphans)
    && (forall id :: id in span.results <==> id in Ids(calls) && id !in given && FirstResult(between, id).Some?)
    && (forall id :: id in span.results ==>
          span.results[id] == FirstResult(between, id).value.(
            toolName := NormalName(FirstResult(between, id).value.toolName, NameOf(calls, id))))
  }

  lemma {:induction false} SpanIsScanned(between: seq<Message>, calls: seq<ToolCall>, given: set<string>)
    ensures Scanned(ScanAll(EMPTY_SPAN, between, calls, given), between, calls, given)
  {
    hide ScanOne;
    if between == [] {
      NothingScanned(calls, given);
    } else {
      var n := |between| - 1;
      SpanIsScanned(between[..n], calls, given);
      ScannedOneMore(ScanAll(EMPTY_SPAN, between[..n], calls, given), between, calls, given);
    }
  }

  lemma NothingScanned(calls: seq<ToolCall>, given: set<string>)
    ensures Scanned(EMPTY_SPAN, [], calls, given)
  {
    hide NormalName, NameOf, Ids;
  }

  lemma ScannedOneMore(span: Span, between: seq<Message>, calls: seq<ToolCall>, given: set<string>)
    requires between != [] && Scanned(span, between[..|between| - 1], calls, given)
    ensures Scanned(ScanOne(span, between[|between| - 1], calls, given), between, calls, given)
  {
    hide NormalName, NameOf, Ids, FirstResult;
    var front, m := between[..|between| - 1], between[|between| - 1];
    forall id ensures FirstResult(between, id) ==
        if FirstResult(front, id).Some? then FirstResult(front, id) else if IsResultOf(m, id) then Some(m) else None
    {
      FirstOfMore(between, id);
    }
  }

  lemma FirstOfMore(between: seq<Message>, id: string)
    requires between != []
    ensures var first, m := FirstResult(between[..|between| - 1], id), between[|between| - 1];
            FirstResult(between, id) ==
            if first.Some? then first else if IsResultOf(m, id) then Some(m) else None
  {
  }

  lemma {:induction false} SpanOutcome(messages: seq<Message>, t: nat, k: nat, options: Options)
    requires t < |messages| && messages[t].Assistant? && t < k <= SpanEnd(messages, t + 1)
    ensures OutcomeUpTo(messages, k, options) ==
            Plus(OutcomeUpTo(messages, t + 1, options),
                 OfSpan(messages[t + 1..k], messages[t].calls, Given(messages, t, options)))
    ensures Given(messages, k, options) == Given(messages, t + 1, options)
  {
    hide Given, OfResult, SpanEnd, OutcomeAt;
    if k == t + 1 {
      assert messages[t + 1..k] == [];
      PlusNothing(OutcomeUpTo(messages, k, options));
    } else {
      SpanOutcome(messages, t, k - 1, options);
      var front := messages[t + 1..k];
      assert front[..|front| - 1] == messages[t + 1..k - 1] && front[|front| - 1] == messages[k - 1];
      OutcomeInSpan(messages, t, k - 1, options);
      PlusAgain(OutcomeUpTo(messages, t + 1, options),
        OfSpan(messages[t + 1..k - 1], messages[t].calls, Given(messages, t, options)),
        OutcomeAt(messages, k - 1, options));
    }
  }

  lemma OutcomeInSpan(messages: seq<Message>, t: nat, k: nat, options: Options)
    requires t < |messages| && messages[t].Assistant? && t < k < SpanEnd(messages, t + 1)
    ensures var m := messages[k];
            && !m.Assistant? && Given(messages, k + 1, options) == Given(messages, k, options)
            && OutcomeAt(messages, k, options) ==
               if m.ToolResult? then OfResult(m, messages[t].calls, Given(messages, t, options))
               else Outcome([m], [], 0, 0)
  {
    hide OfResult;
    SpanEndIs(messages, t + 1);
    OwnTurnInSpan(messages, t, k);
  }

  lemma PlusNothing(a: Outcome)
    ensures Plus(a, Outcome([], [], 0, 0)) == a
  {
  }

  lemma PlusAgain(a: Outcome, b: Outcome, c: Outcome)
    ensures Plus(Plus(a, b), c) == Plus(a, Plus(b, c))
  {
  }

  // ----- the calls of one turn -----

  /** What has been pushed after `n` calls of a turn. */
  ghost predicate Pushed(start: Progress, q: Progress, turn: Message, n: nat, between: seq<Message>, options: Options)
    requires turn.Assistant? && n <= |turn.calls|
  {
    && q.out == start.out + AnswersTo(turn, n, between, start.seen, options)
    && q.added == start.added + AddedFor(turn, n, between, start.seen, options)
    && q.duplicates == start.duplicates + CallsRefused(turn, n, between, start.seen, options)
    && q.orphans == start.orphans
    && q.seen == start.seen + AnsweredBy(turn.(calls := turn.calls[..n]), between, options)
  }

  lemma {:induction false} TurnIsPushed(start: Progress, turn: Message, n: nat, span: Span, between: seq<Message>,
      options: Options)
    requires turn.Assistant? && n <= |turn.calls| && Scanned(span, between, turn.calls, start.seen)
    ensures Pushed(start, PushForCalls(start, turn.calls[..n], span, turn.failed, options), turn, n, between, options)
  {
    hide Scanned, PushForCall, AnswersTo, AddedFor, CallsRefused;
    if n == 0 {
      NothingIsPushed(start, turn, between, options);
    } else {
      TurnIsPushed(start, turn, n - 1, span, between, options);
      PushOneMore(start, turn.calls, n - 1, span, turn.failed, options);
      CallIsPushed(start, PushForCalls(start, turn.calls[..n - 1], span, turn.failed, options), turn, n, span, between,
        options);
    }
  }

  lemma NothingIsPushed(start: Progress, turn: Message, between: seq<Message>, options: Options)
    requires turn.Assistant?
    ensures Pushed(start, start, turn, 0, between, options)
  {
  }

  lemma CallIsPushed(start: Progress, p: Progress, turn: Message, n: nat, span: Span, between: seq<Message>,
      options: Options)
    requires turn.Assistant? && 0 < n <= |turn.calls| && Scanned(span, between, turn.calls, start.seen)
    requires Pushed(start, p, turn, n - 1, between, options)
    ensures Pushed(start, PushForCall(p, turn.calls[n - 1], span, turn.failed, options), turn, n, between, options)
  {
    hide Scanned, PushForCall, AnswerTo, AnsweredBy, IsAnswered, FirstResult, MadeBefore;
    OneCall(start, p, turn, n, span, between, options);
    AnsweredByOneMore(turn, n, between, options);
    var q := PushForCall(p, turn.calls[n - 1], span, turn.failed, options);
    assert q.out == start.out + (AnswersTo(turn, n - 1, between, start.seen, options)
                                 + AnswerTo(turn, n - 1, between, start.seen, options));
    assert q.added == start.added + AddedFor(turn, n, between, start.seen, options);
  }

  /** The push for one call, given what has been seen. */
  lemma OneCall(start: Progress, p: Progress, turn: Message, n: nat, span: Span, between: seq<Message>,
      options: Options)
    requires turn.Assistant? && 0 < n <= |turn.calls| && Scanned(span, between, turn.calls, start.seen)
    requires p.seen == start.seen + AnsweredBy(turn.(calls := turn.calls[..n - 1]), between, options)
    ensures var q, call := PushForCall(p, turn.calls[n - 1], span, turn.failed, options), turn.calls[n - 1];
            var answered, given := IsAnswered(turn, call.id, between, options), call.id in start.seen;
            && q.out == p.out + AnswerTo(turn, n - 1, between, start.seen, options)
            && q.added == p.added +
               (if turn.failed || (!given && FirstResult(between, call.id).Some?) then []
                else [ToolResult(Some(call.id), Some(if call.name.Some? then call.name.value else "unknown"),
                                 options.missingTokens)])
            && q.duplicates == p.duplicates
               + (if answered && (if given then !turn.failed else MadeBefore(turn.calls, n - 1)) then 1 else 0)
            && q.orphans == p.orphans && q.seen == p.seen + (if answered then {call.id} else {})
  {
    hide Scanned, FirstResult, AnsweredBy, MadeBefore, NormalName, NameOf;
    ScannedCall(span, between, turn.calls, start.seen, n - 1);
    hide Scanned;
    SeenIff(start, p, turn, n, between, options);
    var call := turn.calls[n - 1];
    if call.id in span.results {
      assert span.results[call.id].ToolResult? && span.results[call.id].id == Some(call.id);
    }
  }

  lemma ScannedCall(span: Span, between: seq<Message>, calls: seq<ToolCall>, given: set<string>, n: nat)
    requires n < |calls| && Scanned(span, between, calls, given)
    ensures var id := calls[n].id;
            var first := FirstResult(between, id);
            && (id in span.results <==> id !in given && first.Some?)
            && (first.Some? ==> IsResultOf(first.value, id))
            && (id in span.results ==>
                  span.results[id] == first.value.(toolName := NormalName(first.value.toolName, NameOf(calls, id))))
  {
    hide NormalName, NameOf, OfSpan;
    assert calls[n].id in Ids(calls);
  }

  lemma AnsweredByOneMore(turn: Message, n: nat, between: seq<Message>, options: Options)
    requires turn.Assistant? && 0 < n <= |turn.calls|
    ensures AnsweredBy(turn.(calls := turn.calls[..n]), between, options) ==
            AnsweredBy(turn.(calls := turn.calls[..n - 1]), between, options)
            + if IsAnswered(turn, turn.calls[n - 1].id, between, options) then {turn.calls[n - 1].id} else {}
  {
    hide FirstResult;
    assert turn.calls[..n] == turn.calls[..n - 1] + [turn.calls[n - 1]];
  }

  /** An id has been seen when it was given before the turn, or an earlier call of the turn was answered. */
  lemma SeenIff(start: Progress, p: Progress, turn: Message, n: nat, between: seq<Message>, options: Options)
    requires turn.Assistant? && 0 < n <= |turn.calls|
    requires p.seen == start.seen + AnsweredBy(turn.(calls := turn.calls[..n - 1]), between, options)
    ensures var id := turn.calls[n - 1].id;
            id in p.seen <==>
            id in start.seen || (MadeBefore(turn.calls, n - 1) && IsAnswered(turn, id, between, options))
  {
    hide FirstResult;
    var id := turn.calls[n - 1].id;
    if a :| 0 <= a < n - 1 && turn.calls[a].id == id {
      assert turn.calls[a] in turn.calls[..n - 1];
    }
  }

  // ----- the whole transcript -----

  ghost predicate IsOutcome(p: Progress, messages: seq<Message>, n: nat, options: Options)
    requires n <= |messages|
  {
    OutcomeUpTo(messages, n, options) == Outcome(p.out, p.added, p.duplicates, p.orphans)
    && p.seen == Given(messages, n, options)
  }

  lemma TurnOutcome(p: Progress, messages: seq<Message>, t: nat, options: Options)
    requires t < |messages| && messages[t].Assistant? && IsOutcome(p, messages, t, options)
    ensures var j := SpanEnd(messages, t + 1);
            IsOutcome(RepairTurn(p, messages[t], messages[t + 1..j], options), messages, j, options)
  {
    hide Scanned, PushForCalls, ScanAll, AnswersTo, AddedFor, CallsRefused, OfSpan, Given, AnsweredBy, SpanEnd,
      OutcomeUpTo;
    var j, turn := SpanEnd(messages, t + 1), messages[t];
    var between := messages[t + 1..j];
    var span := ScanAll(EMPTY_SPAN, between, turn.calls, p.seen);
    SpanIsScanned(between, turn.calls, p.seen);
    var start := StartTurn(p, turn, span, options);
    assert turn.calls[..|turn.calls|] == turn.calls;
    TurnIsPushed(start, turn, |turn.calls|, span, between, options);
    SpanOutcome(messages, t, j, options);
    TurnFirst(messages, t, options);
    var pushed := PushForCalls(start, turn.calls, span, turn.failed, options);
    var q := RepairTurn(p, turn, between, options);
    var answers := AnswersTo(turn, |turn.calls|, between, p.seen, options);
    assert q.out == p.out + ([turn] + answers) + span.remainder;
    RemainderOfScan(span, between, turn.calls, p.seen);
  }

  lemma RemainderOfScan(span: Span, between: seq<Message>, calls: seq<ToolCall>, given: set<string>)
    requires Scanned(span, between, calls, given)
    ensures OfSpan(between, calls, given) == Outcome(span.remainder, [], span.duplicates, span.orphans)
  {
  }

  lemma TurnFirst(messages: seq<Message>, t: nat, options: Options)
    requires t < |messages| && messages[t].Assistant?
    ensures var between, given := SpanOf(messages, t), Given(messages, t, options);
            && OutcomeUpTo(messages, t + 1, options)
               == Plus(OutcomeUpTo(messages, t, options), OfTurn(messages[t], between, given, options))
            && Given(messages, t + 1, options) == given + AnsweredBy(messages[t], between, options)
  {
    hide OfTurn, AnsweredBy;
  }

  lemma {:induction false} RepairIsOutcome(p: Progress, messages: seq<Message>, i: nat, options: Options)
    requires IsHead(messages, i) && IsOutcome(p, messages, i, options)
    ensures IsOutcome(RepairFrom(p, messages, i, options), messages, |messages|, options)
    decreases |messages| - i
  {
    hide RepairTurn, IsOutcome, RepairFrom;
    if i == |messages| {
      NothingToRepair(p, messages, options);
    } else {
      var m := messages[i];
      RepairStep(p, messages, i, options);
      if m.ToolResult? {
        OrphanOutcome(p, messages, i, options);
        RepairIsOutcome(DropOrphan(p), messages, i + 1, options);
      } else if m.Other? || m.calls == [] {
        PlainOutcome(p, messages, i, options);
        PlainHead(messages, i, options);
        RepairIsOutcome(Keep(p, m), messages, i + 1, options);
      } else {
        var j := SpanEnd(messages, i + 1);
        TurnOutcome(p, messages, i, options);
        SpanEndIs(messages, i + 1);
        RepairIsOutcome(RepairTurn(p, m, messages[i + 1..j], options), messages, j, options);
      }
    }
  }

  lemma OrphanOutcome(p: Progress, messages: seq<Message>, i: nat, options: Options)
    requires i < |messages| && IsHead(messages, i) && messages[i].ToolResult? && IsOutcome(p, messages, i, options)
    ensures IsOutcome(DropOrphan(p), messages, i + 1, options) && IsHead(messages, i + 1)
  {
  }

  lemma PlainOutcome(p: Progress, messages: seq<Message>, i: nat, options: Options)
    requires i < |messages| && IsHead(messages, i) && IsOutcome(p, messages, i, options)
    requires messages[i].Other? || (messages[i].Assistant? && messages[i].calls == [])
    ensures IsOutcome(Keep(p, messages[i]), messages, i + 1, options)
  {
  }

  /**
   * For every transcript, the repair puts out exactly this: the other messages in their order, and behind each turn,
   * for each of its ids not answered before, its first result in the span, with a proper name, or a synthetic one.
   * The report counts the results that no call of their turn asks for, and those, with the calls, whose answer was
   * given before.
   */
  lemma RepairedIs(messages: seq<Message>, options: Options)
    ensures var report, all := Repaired(messages, options), OutcomeUpTo(messages, |messages|, options);
            && report.messages == (if NeedsRepair(messages, options) then all.out else messages)
            && report.added == all.added && report.duplicates == all.duplicates && report.orphans == all.orphans
  {
    hide RepairFrom, NeedsRepair;
    RepairIsOutcome(NO_PROGRESS, messages, 0, options);
    RepairChangesIff(messages, options);
  }

  const CALLED := Assistant([ToolCall("c", None)], false, 1)
  const RESULT := ToolResult(Some("c"), None, 2)
  const CALLED_AGAIN := [CALLED, RESULT, CALLED]

  /** A call made again in a later turn and not answered there: the report lists a synthetic result for it and counts a
      duplicate, but the transcript does not take that result and comes back as it was. */
  lemma SyntheticResultIsNotTaken(options: Options)
    ensures var report := Repaired(CALLED_AGAIN, options);
            && report.changed && report.messages == CALLED_AGAIN && report.duplicates == 1
            && report.added == [ToolResult(Some("c"), Some("unknown"), options.missingTokens)]
  {
    hide OutcomeUpTo, OutcomeAt, BadTurn;
    RepairedIs(CALLED_AGAIN, options);
    RepairChangesIff(CALLED_AGAIN, options);
    SpansOfAgain(options);
    FirstTurnOfAgain(options);
    ResultOfAgain(options);
    SecondTurnOfAgain(options);
    OneMoreOutcome(CALLED_AGAIN, 0, options);
    OneMoreOutcome(CALLED_AGAIN, 1, options);
    OneMoreOutcome(CALLED_AGAIN, 2, options);
    NoOutcome(CALLED_AGAIN, options);
    assert [] + [CALLED, RESULT] + [] + [CALLED] == CALLED_AGAIN;
  }

  lemma NoOutcome(messages: seq<Message>, options: Options)
    ensures OutcomeUpTo(messages, 0, options) == Outcome([], [], 0, 0)
  {
  }

  lemma OneMoreOutcome(messages: seq<Message>, k: nat, options: Options)
    requires k < |messages|
    ensures OutcomeUpTo(messages, k + 1, options)
            == Plus(OutcomeUpTo(messages, k, options), OutcomeAt(messages, k, options))
  {
  }

  lemma SpansOfAgain(options: Options)
    ensures SpanOf(CALLED_AGAIN, 0) == [RESULT] && SpanOf(CALLED_AGAIN, 2) == []
    ensures BadTurn(CALLED_AGAIN, 2, options)
  {
    assert SpanEnd(CALLED_AGAIN, 1) == 2 && SpanEnd(CALLED_AGAIN, 3) == 3;
    assert ResultIds([]) == {} && CALLED.calls[0] in CALLED.calls;
  }

  /** The ids given before each of its messages. */
  lemma GivenInAgain(options: Options)
    ensures Given(CALLED_AGAIN, 0, options) == {}
    ensures Given(CALLED_AGAIN, 1, options) == {"c"} && Given(CALLED_AGAIN, 2, options) == {"c"}
  {
    SpansOfAgain(options);
    assert CALLED.calls[0] in CALLED.calls;
    assert AnsweredBy(CALLED, [RESULT], options) == {"c"};
    TurnFirst(CALLED_AGAIN, 0, options);
  }

  lemma FirstTurnOfAgain(options: Options)
    ensures OutcomeAt(CALLED_AGAIN, 0, options) == Outcome([CALLED, RESULT], [], 0, 0)
  {
    SpansOfAgain(options);
    GivenInAgain(options);
    assert NameOf(CALLED.calls, "c") == None;
    assert [RESULT][..0] == [];
    assert FirstResult([RESULT], "c") == Some(RESULT);
    OneAnswer(CALLED, [RESULT], {}, options);
    assert AnswerTo(CALLED, 0, [RESULT], {}, options) == [RESULT];
    assert [CALLED] + [RESULT] == [CALLED, RESULT];
  }

  lemma ResultOfAgain(options: Options)
    ensures OutcomeAt(CALLED_AGAIN, 1, options) == Outcome([], [], 0, 0)
  {
    GivenInAgain(options);
    assert CALLED.calls[0] in CALLED.calls;
    assert OwnTurn(CALLED_AGAIN, 1) == Some(0);
  }

  lemma SecondTurnOfAgain(options: Options)
    ensures OutcomeAt(CALLED_AGAIN, 2, options) ==
            Outcome([CALLED], [ToolResult(Some("c"), Some("unknown"), options.missingTokens)], 1, 0)
  {
    SpansOfAgain(options);
    GivenInAgain(options);
    OneAnswer(CALLED, [], {"c"}, options);
    assert AnswerTo(CALLED, 0, [], {"c"}, options) == [];
    assert [CALLED] + [] == [CALLED];
  }

  lemma OneAnswer(turn: Message, between: seq<Message>, given: set<string>, options: Options)
    requires turn.Assistant? && |turn.calls| == 1
    ensures AnswersTo(turn, 1, between, given, options) == AnswerTo(turn, 0, between, given, options)
    ensures var id := turn.calls[0].id;
            CallsRefused(turn, 1, between, given, options)
            == if IsAnswered(turn, id, between, options) && id in given && !turn.failed then 1 else 0
    ensures var call := turn.calls[0];
            AddedFor(turn, 1, between, given, options)
            == if turn.failed || (call.id !in given && FirstResult(between, call.id).Some?) then []
               else [ToolResult(Some(call.id), Some(if call.name.Some? then call.name.value else "unknown"),
                                options.missingTokens)]
  {
    hide FirstResult, IsAnswered, AnswerTo;
    assert !MadeBefore(turn.calls, 0);
  }
}
