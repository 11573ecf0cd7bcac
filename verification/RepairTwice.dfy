/** Repairing a repaired transcript (src/agents/session-transcript-repair.ts). */
module RepairTwice {
  import opened Common
  import opened Text
  import opened TranscriptRepair
  import opened RepairCondition

  // ----- normalising a name twice -----

  lemma TrimmedIsTrimmed(s: string)
    ensures Trim(Trim(s)) == Trim(s)
  {
    hide IsSpace;
    var left, right := TrimSplits(s);
    var core := Trim(s);
    assert "" + core + "" == core;
    TrimUnique("", core, "");
  }

  lemma UnknownIsTrimmed()
    ensures Trim("unknown") == "unknown"
  {
    assert "" + "unknown" + "" == "unknown";
    TrimUnique("", "unknown", "");
  }

  lemma NormalNameTwice(toolName: Option<string>, fallback: Option<string>)
    ensures NormalName(NormalName(toolName, fallback), fallback) == NormalName(toolName, fallback)
  {
    hide Trim;
    UnknownIsTrimmed();
    if toolName.Some? {
      TrimmedIsTrimmed(toolName.value);
    }
    if fallback.Some? {
      TrimmedIsTrimmed(fallback.value);
    }
  }

  /** A result is renamed exactly when its name is blank or padded, or is missing while its call has one. */
  lemma NameChangesIff(toolName: Option<string>, fallback: Option<string>)
    ensures NormalName(toolName, fallback) != toolName <==>
            match toolName
            case Some(name) => Trim(name) != name || name == ""
            case None => fallback.Some? && Trim(fallback.value) != ""
  {
    hide Trim;
    UnknownIsTrimmed();
    if toolName.Some? && fallback.Some? && Trim(toolName.value) == "" && Trim(fallback.value) != "" {
      TrimmedIsTrimmed(fallback.value);
      assert toolName.value != Trim(fallback.value);
    }
  }

  // ----- what one turn emits -----

  /** New results of the turn's calls, none twice. */
  ghost predicate Fresh(results: seq<Message>, seen: set<string>, calls: seq<ToolCall>) {
    && DistinctResults(results)
    && forall k :: 0 <= k < |results| ==>
         && results[k].ToolResult? && results[k].id.Some?
         && results[k].id.value in Ids(calls) && results[k].id.value !in seen
  }

  lemma FreshSnoc(results: seq<Message>, m: Message, seen: set<string>, calls: seq<ToolCall>)
    requires m.ToolResult? && m.id.Some?
    ensures Fresh(results + [m], seen, calls) <==>
            Fresh(results, seen, calls) && m.id.value !in ResultIds(results) && m.id.value in Ids(calls)
              && m.id.value !in seen
    ensures ResultIds(results + [m]) == ResultIds(results) + {m.id.value}
  {
    hide DistinctResults, ResultIds, Ids;
    SnocIds(results, m);
    var more := results + [m];
    assert more[|results|] == m;
    assert forall k :: 0 <= k < |results| ==> more[k] == results[k];
  }

  lemma FreshNone(seen: set<string>, calls: seq<ToolCall>)
    ensures Fresh([], seen, calls) && ResultIds([]) == {}
  {
  }

  lemma FreshForMore(results: seq<Message>, seen: set<string>, calls: seq<ToolCall>, more: seq<ToolCall>)
    requires Fresh(results, seen, calls) && Ids(calls) <= Ids(more)
    ensures Fresh(results, seen, more)
  {
    hide DistinctResults, Ids;
  }

  /** The results that the calls of a turn bring in, and what they bring to the ids seen. */
  ghost predicate Emits(p: Progress, q: Progress, results: seq<Message>, calls: seq<ToolCall>, span: Span,
      failed: bool) {
    && q.out == p.out + results && Fresh(results, p.seen, calls) && q.seen == p.seen + ResultIds(results)
    && (failed ==> ResultIds(results) <= span.results.Keys)
  }

  lemma {:induction false} TurnEmits(p: Progress, calls: seq<ToolCall>, span: Span, failed: bool, options: Options)
    returns (results: seq<Message>)
    requires GoodResults(span.results)
    ensures Emits(p, PushForCalls(p, calls, span, failed, options), results, calls, span, failed)
  {
    hide Fresh, ResultIds, Ids;
    if calls == [] {
      results := [];
      FreshNone(p.seen, calls);
    } else {
      var n := |calls| - 1;
      var front, c := calls[..n], calls[n];
      results := TurnEmits(p, front, span, failed, options);
      IdsSnoc(front, c);
      assert calls == front + [c];
      FreshForMore(results, p.seen, front, calls);
      var before := PushForCalls(p, front, span, failed, options);
      var m := EmittedFor(before, c, span, failed, options);
      if m.Some? {
        FreshSnoc(results, m.value, p.seen, calls);
        results := results + [m.value];
      }
    }
  }

  lemma IdsSnoc(calls: seq<ToolCall>, c: ToolCall)
    ensures Ids(calls + [c]) == Ids(calls) + {c.id}
  {
    assert forall x :: x in calls + [c] <==> x in calls || x == c;
  }

  /** What a call brings in: nothing when it has been answered, or when it has no result and its turn failed. */
  lemma EmittedFor(p: Progress, c: ToolCall, span: Span, failed: bool, options: Options) returns (m: Option<Message>)
    requires GoodResults(span.results)
    ensures var q := PushForCall(p, c, span, failed, options);
            && (m.None? ==> q.out == p.out && q.seen == p.seen)
            && (m.Some? ==>
                  && m.value.ToolResult? && m.value.id == Some(c.id) && c.id !in p.seen
                  && q.out == p.out + [m.value] && q.seen == p.seen + {c.id}
                     && (failed ==> c.id in span.results && !options.dropFailedResults))
            && (m.None? ==> c.id in p.seen || (failed && (options.dropFailedResults || c.id !in span.results)))
  {
    var silent := c.id in p.seen || (failed && (options.dropFailedResults || c.id !in span.results));
    m := if silent then None
         else Some(if c.id in span.results then span.results[c.id] else MissingResult(c, options.missingTokens));
  }

  // ----- scanning what a turn has emitted -----

  /** The span of a repaired turn: its results, by their ids and with normal names. */
  ghost predicate Collected(span: Span, results: seq<Message>, calls: seq<ToolCall>)
    requires forall k :: 0 <= k < |results| ==> results[k].ToolResult? && results[k].id.Some?
  {
    && span.results.Keys == ResultIds(results)
    && forall k :: 0 <= k < |results| ==>
         results[k].id.value in span.results && span.results[results[k].id.value] == Normalized(results[k], calls)
  }

  lemma {:induction false} ScanResults(results: seq<Message>, calls: seq<ToolCall>, seen: set<string>)
    requires Fresh(results, seen, calls)
    ensures var span := ScanAll(EMPTY_SPAN, results, calls, seen);
            Collected(span, results, calls) && span.remainder == []
  {
    hide Normalized, Ids;
    if results != [] {
      var n := |results| - 1;
      var front, m := results[..n], results[n];
      assert results == front + [m];
      FreshSnoc(front, m, seen, calls);
      ScanResults(front, calls, seen);
      assert forall k :: 0 <= k < n ==> front[k] == results[k];
    }
  }

  lemma {:induction false} ScanRest(results: seq<Message>, rest: seq<Message>, calls: seq<ToolCall>, seen: set<string>)
    requires Fresh(results, seen, calls) && forall k :: 0 <= k < |rest| ==> !rest[k].ToolResult?
    ensures var span := ScanAll(EMPTY_SPAN, results + rest, calls, seen);
            Collected(span, results, calls) && span.remainder == rest
  {
    hide Normalized, Ids, Collected, Fresh;
    FreshAre(results, seen, calls);
    if rest == [] {
      assert results + rest == results;
      ScanResults(results, calls, seen);
    } else {
      var n := |rest| - 1;
      var front := rest[..n];
      ScanRest(results, front, calls, seen);
      var all := results + rest;
      assert all[..|all| - 1] == results + front && all[|all| - 1] == rest[n];
      SameResults(ScanAll(EMPTY_SPAN, results + front, calls, seen), ScanAll(EMPTY_SPAN, all, calls, seen), results,
        calls);
    }
  }

  lemma SameResults(a: Span, b: Span, results: seq<Message>, calls: seq<ToolCall>)
    requires forall k :: 0 <= k < |results| ==> results[k].ToolResult? && results[k].id.Some?
    requires Collected(a, results, calls) && b.results == a.results
    ensures Collected(b, results, calls)
  {
  }

  // ----- the second repair of one turn -----

  /** `b` is `a` with the messages from `from` on renamed as the results of these calls. */
  ghost predicate RenamedFrom(a: seq<Message>, b: seq<Message>, from: nat, calls: seq<ToolCall>) {
    && |a| == |b|
    && forall k :: from <= k < |a| ==>
         a[k].ToolResult? && a[k].id.Some? && b[k] == Normalized(a[k], calls)
  }

  /** A span that gives back, with normal names, what was emitted from position `from` on. */
  ghost predicate Gives(span: Span, out: seq<Message>, from: nat, calls: seq<ToolCall>) {
    forall k :: from <= k < |out| ==>
      && out[k].ToolResult? && out[k].id.Some? && out[k].id.value in span.results
      && span.results[out[k].id.value] == Normalized(out[k], calls)
  }

  lemma GivesLess(span: Span, out: seq<Message>, less: seq<Message>, from: nat, calls: seq<ToolCall>)
    requires Gives(span, out, from, calls) && less <= out
    ensures Gives(span, less, from, calls)
    ensures from <= |less| < |out| ==>
              && out[|less|].ToolResult? && out[|less|].id.Some? && out[|less|].id.value in span.results
              && span.results[out[|less|].id.value] == Normalized(out[|less|], calls)
  {
    hide Normalized;
    assert forall k :: 0 <= k < |less| ==> less[k] == out[k];
  }

  lemma RenamedSnoc(a: seq<Message>, b: seq<Message>, from: nat, calls: seq<ToolCall>, m: Message)
    requires RenamedFrom(a, b, from, calls) && m.ToolResult? && m.id.Some?
    ensures RenamedFrom(a + [m], b + [Normalized(m, calls)], from, calls)
  {
    hide Normalized;
  }

  lemma PushesLast(p: Progress, calls: seq<ToolCall>, span: Span, failed: bool, options: Options)
    requires calls != []
    ensures PushForCalls(p, calls, span, failed, options) ==
            PushForCall(PushForCalls(p, calls[..|calls| - 1], span, failed, options), calls[|calls| - 1], span, failed,
              options)
  {
  }

  lemma PushesNone(p: Progress, span: Span, failed: bool, options: Options)
    ensures PushForCalls(p, [], span, failed, options) == p
  {
  }

  /** The second repair emits for each call what the first did, with normal names. */
  lemma {:induction false} Replay(p: Progress, s: Progress, front: seq<ToolCall>, calls: seq<ToolCall>, span: Span,
      again: Span,
                                  failed: bool, options: Options)
    requires |p.out| == |s.out| && p.seen == s.seen && GoodResults(span.results) && GoodResults(again.results)
    requires failed ==> again.results.Keys <= span.results.Keys
    requires Gives(again, PushForCalls(p, front, span, failed, options).out, |p.out|, calls)
    ensures var first := PushForCalls(p, front, span, failed, options);
            var second := PushForCalls(s, front, again, failed, options);
            && second.seen == first.seen && RenamedFrom(first.out, second.out, |p.out|, calls)
            && s.out <= second.out && p.out <= first.out
  {
    hide Normalized, GoodResults, PushForCall, PushForCalls, Gives, RenamedFrom;
    if front == [] {
      PushesNone(p, span, failed, options);
      PushesNone(s, again, failed, options);
      NothingRenamed(p.out, s.out, calls);
    } else {
      var n := |front| - 1;
      var c := front[n];
      PushesLast(p, front, span, failed, options);
      PushesLast(s, front, again, failed, options);
      var first := PushForCalls(p, front[..n], span, failed, options);
      var m := EmittedFor(first, c, span, failed, options);
      var out := PushForCalls(p, front, span, failed, options).out;
      GivesLess(again, out, first.out, |p.out|, calls);
      Replay(p, s, front[..n], calls, span, again, failed, options);
      var second := PushForCalls(s, front[..n], again, failed, options);
      var r := EmittedFor(second, c, again, failed, options);
      if m.Some? {
        assert out[|first.out|] == m.value;
        EmitsGiven(second, c, again, failed, options);
        RenamedSnoc(first.out, second.out, |p.out|, calls, m.value);
      } else {
        assert r.None?;
      }
    }
  }

  lemma NothingRenamed(a: seq<Message>, b: seq<Message>, calls: seq<ToolCall>)
    requires |a| == |b|
    ensures RenamedFrom(a, b, |a|, calls)
  {
  }

  lemma EmitsGiven(p: Progress, c: ToolCall, span: Span, failed: bool, options: Options)
    requires GoodResults(span.results) && c.id in span.results && c.id !in p.seen
             && !(failed && options.dropFailedResults)
    ensures PushForCall(p, c, span, failed, options).out == p.out + [span.results[c.id]]
  {
  }

  /** A repaired turn: the turn, the results of its calls, the other messages of its span. */
  lemma TurnParts(p: Progress, turn: Message, between: seq<Message>, options: Options)
    returns (results: seq<Message>, rest: seq<Message>)
    requires turn.Assistant?
    ensures var span := ScanAll(EMPTY_SPAN, between, turn.calls, p.seen);
            var pushed := PushForCalls(StartTurn(p, turn, span, options), turn.calls, span, turn.failed, options);
            && GoodResults(span.results) && rest == span.remainder && pushed.out == p.out + [turn] + results
            && RepairTurn(p, turn, between, options).out == pushed.out + rest
            && RepairTurn(p, turn, between, options).seen == pushed.seen
            && (turn.failed ==> ResultIds(results) <= span.results.Keys)
    ensures Fresh(results, p.seen, turn.calls)
    ensures forall k :: 0 <= k < |results| ==> results[k].ToolResult? && results[k].id.Some?
    ensures forall k :: 0 <= k < |rest| ==> !rest[k].ToolResult? && rest[k] in between
  {
    hide PushForCalls, ScanAll, Fresh, Ids, ResultIds;
    var span := ScanAll(EMPTY_SPAN, between, turn.calls, p.seen);
    ScanKeeps(between, turn.calls, p.seen);
    NonResultsMembers(between);
    rest := span.remainder;
    results := TurnEmits(StartTurn(p, turn, span, options), turn.calls, span, turn.failed, options);
    FreshAre(results, p.seen, turn.calls);
  }

  /** The second repair of a turn starts from what the first has emitted. */
  lemma TurnAgain(p: Progress, s: Progress, turn: Message, between: seq<Message>, options: Options)
    returns (results: seq<Message>, rest: seq<Message>)
    requires turn.Assistant? && |p.out| == |s.out| && p.seen == s.seen
    ensures RepairTurn(p, turn, between, options).out == p.out + [turn] + results + rest
    ensures forall k :: 0 <= k < |results| ==> results[k].ToolResult? && results[k].id.Some?
    ensures forall k :: 0 <= k < |rest| ==> !rest[k].ToolResult? && rest[k] in between
    ensures var second := RepairTurn(s, turn, results + rest, options);
            && second.seen == RepairTurn(p, turn, between, options).seen
            && |second.out| == |p.out| + 1 + |results| + |rest| && s.out + [turn] <= second.out
            && (forall k :: 0 <= k < |results| ==> second.out[|p.out| + 1 + k] == Normalized(results[k], turn.calls))
            && (forall k :: 0 <= k < |rest| ==> second.out[|p.out| + 1 + |results| + k] == rest[k])
  {
    hide Normalized, PushForCalls, ScanAll, Fresh, Ids, ResultIds, GoodResults, LosesOrder, Collected;
    results, rest := TurnParts(p, turn, between, options);
    var again := ScanAll(EMPTY_SPAN, results + rest, turn.calls, s.seen);
    ScanRest(results, rest, turn.calls, s.seen);
    TurnReplays(p, s, turn, between, results, again, options);
    var restart := StartTurn(s, turn, again, options);
    var second := PushForCalls(restart, turn.calls, again, turn.failed, options);
    assert RepairTurn(s, turn, results + rest, options).out == second.out + rest;
  }

  lemma {:induction false} TurnReplays(p: Progress, s: Progress, turn: Message, between: seq<Message>,
      results: seq<Message>, again: Span, options: Options)
    requires turn.Assistant? && |p.out| == |s.out| && p.seen == s.seen
    requires forall k :: 0 <= k < |results| ==> results[k].ToolResult? && results[k].id.Some?
    requires Collected(again, results, turn.calls)
    requires var span := ScanAll(EMPTY_SPAN, between, turn.calls, p.seen);
             && GoodResults(span.results) && (turn.failed ==> ResultIds(results) <= span.results.Keys)
             && PushForCalls(StartTurn(p, turn, span, options), turn.calls, span, turn.failed, options).out
                == p.out + [turn] + results
    ensures var span := ScanAll(EMPTY_SPAN, between, turn.calls, p.seen);
            var first := PushForCalls(StartTurn(p, turn, span, options), turn.calls, span, turn.failed, options);
            var second := PushForCalls(StartTurn(s, turn, again, options), turn.calls, again, turn.failed, options);
            && second.seen == first.seen && |second.out| == |p.out| + 1 + |results| && s.out + [turn] <= second.out
            && forall k :: 0 <= k < |results| ==> second.out[|p.out| + 1 + k] == Normalized(results[k], turn.calls)
  {
    hide PushForCalls, ScanAll, Ids, ResultIds, LosesOrder, Normalized, Collected, GoodResults, StartTurn, RenamedFrom;
    var span := ScanAll(EMPTY_SPAN, between, turn.calls, p.seen);
    var start, restart := StartTurn(p, turn, span, options), StartTurn(s, turn, again, options);
    StartEmits(p, turn, span, options);
    StartEmits(s, turn, again, options);
    CollectedAreGood(again, results, turn.calls);
    CollectedGives(again, start.out, results, turn.calls);
    CollectedKeys(again, results, turn.calls);
    Replay(start, restart, turn.calls, turn.calls, span, again, turn.failed, options);
    RenamedResults(start.out, results, PushForCalls(restart, turn.calls, again, turn.failed, options).out, turn.calls);
  }

  lemma StartEmits(p: Progress, turn: Message, span: Span, options: Options)
    requires turn.Assistant?
    ensures StartTurn(p, turn, span, options).out == p.out + [turn] && StartTurn(p, turn, span, options).seen == p.seen
  {
  }

  lemma CollectedKeys(span: Span, results: seq<Message>, calls: seq<ToolCall>)
    requires forall k :: 0 <= k < |results| ==> results[k].ToolResult? && results[k].id.Some?
    requires Collected(span, results, calls)
    ensures span.results.Keys == ResultIds(results)
  {
  }

  lemma CollectedGives(span: Span, out: seq<Message>, results: seq<Message>, calls: seq<ToolCall>)
    requires forall k :: 0 <= k < |results| ==> results[k].ToolResult? && results[k].id.Some?
    requires Collected(span, results, calls)
    ensures Gives(span, out + results, |out|, calls)
  {
    hide Normalized, ResultIds;
    var all := out + results;
    assert forall k :: |out| <= k < |all| ==> all[k] == results[k - |out|];
  }

  lemma RenamedResults(out: seq<Message>, results: seq<Message>, b: seq<Message>, calls: seq<ToolCall>)
    requires RenamedFrom(out + results, b, |out|, calls)
    ensures |b| == |out| + |results|
    ensures forall k :: 0 <= k < |results| ==>
              results[k].ToolResult? && results[k].id.Some? && b[|out| + k] == Normalized(results[k], calls)
  {
    hide Normalized;
    var all := out + results;
    assert forall k :: 0 <= k < |results| ==> all[|out| + k] == results[k];
  }

  lemma CollectedAreGood(span: Span, results: seq<Message>, calls: seq<ToolCall>)
    requires forall k :: 0 <= k < |results| ==> results[k].ToolResult? && results[k].id.Some?
    requires Collected(span, results, calls)
    ensures GoodResults(span.results)
  {
    IdsAreThere(results);
    forall id | id in span.results ensures span.results[id].ToolResult? && span.results[id].id == Some(id) {
      var k :| 0 <= k < |results| && IsResultOf(results[k], id);
    }
  }

  lemma FreshAre(results: seq<Message>, seen: set<string>, calls: seq<ToolCall>)
    requires Fresh(results, seen, calls)
    ensures forall k :: 0 <= k < |results| ==> results[k].ToolResult? && results[k].id.Some?
  {
    hide Ids;
  }

  // ----- the second repair of a whole transcript -----

  lemma {:induction false} RepairExtends(p: Progress, messages: seq<Message>, i: nat, options: Options)
    requires i <= |messages|
    ensures p.out <= RepairFrom(p, messages, i, options).out
    ensures i < |messages| && messages[i].Assistant? ==>
              var out := RepairFrom(p, messages, i, options).out;
              |p.out| < |out| && out[|p.out|].Assistant?
    ensures i == |messages| ==> RepairFrom(p, messages, i, options).out == p.out
    decreases |messages| - i
  {
    hide RepairFrom, RepairTurn;
    if i == |messages| {
      NothingToRepair(p, messages, options);
    } else {
      RepairStep(p, messages, i, options);
      var m := messages[i];
      if m.ToolResult? {
        RepairExtends(DropOrphan(p), messages, i + 1, options);
      } else if m.Other? || m.calls == [] {
        RepairExtends(Keep(p, m), messages, i + 1, options);
        assert Keep(p, m).out[|p.out|] == m;
      } else {
        var j := SpanEnd(messages, i + 1);
        TurnExtends(p, m, messages[i + 1..j], options);
        RepairExtends(RepairTurn(p, m, messages[i + 1..j], options), messages, j, options);
      }
    }
  }

  lemma TurnExtends(p: Progress, turn: Message, between: seq<Message>, options: Options)
    requires turn.Assistant?
    ensures var q := RepairTurn(p, turn, between, options); p.out + [turn] <= q.out && q.out[|p.out|] == turn
  {
    var results, rest := TurnAgain(p, p, turn, between, options);
  }

  /** A message with the name that its turn gives it. */
  function Renamed(messages: seq<Message>, k: nat): Message
    requires k < |messages|
  {
    var own := OwnTurn(messages, k);
    if messages[k].ToolResult? && messages[k].id.Some?
       && own.Some? then Normalized(messages[k], messages[own.value].calls)
    else messages[k]
  }

  ghost predicate IsRenamed(b: seq<Message>, messages: seq<Message>, n: nat) {
    n <= |messages| && |b| == n && forall k :: 0 <= k < n ==> b[k] == Renamed(messages, k)
  }

  /** While the first repair goes through a transcript, the second one goes through what the first has emitted. */
  lemma {:induction false} RepairedAgain(p: Progress, s: Progress, messages: seq<Message>, i: nat, all: seq<Message>,
      options: Options)
    requires i <= |messages| && all == RepairFrom(p, messages, i, options).out && |p.out| <= |all|
    requires p.seen == s.seen && IsRenamed(s.out, all, |p.out|)
    ensures IsRenamed(RepairFrom(s, all, |p.out|, options).out, all, |all|)
    decreases |messages| - i
  {
    hide RepairFrom, RepairTurn, IsRenamed;
    if i == |messages| {
      NothingToRepair(p, messages, options);
      NothingToRepair(s, all, options);
    } else {
      RepairStep(p, messages, i, options);
      var m := messages[i];
      if m.ToolResult? {
        RepairedAgain(DropOrphan(p), s, messages, i + 1, all, options);
      } else if m.Other? || m.calls == [] {
        var kept := Keep(p, m);
        RepairExtends(kept, messages, i + 1, options);
        assert kept.out[|p.out|] == m && all[|p.out|] == m;
        RepairStep(s, all, |p.out|, options);
        KeepRenamed(s.out, all, |p.out|);
        RepairedAgain(kept, Keep(s, m), messages, i + 1, all, options);
      } else {
        TurnRepairedAgain(p, s, messages, i, all, options);
      }
    }
  }

  lemma KeepRenamed(b: seq<Message>, all: seq<Message>, n: nat)
    requires IsRenamed(b, all, n) && n < |all| && !all[n].ToolResult?
    ensures IsRenamed(b + [all[n]], all, n + 1)
  {
    hide OwnTurn;
  }

  lemma {:induction false} TurnRepairedAgain(p: Progress, s: Progress, messages: seq<Message>, i: nat,
      all: seq<Message>, options: Options)
    requires i < |messages| && messages[i].Assistant? && messages[i].calls != []
    requires all == RepairFrom(p, messages, i, options).out && |p.out| <= |all|
    requires p.seen == s.seen && IsRenamed(s.out, all, |p.out|)
    ensures IsRenamed(RepairFrom(s, all, |p.out|, options).out, all, |all|)
    decreases |messages| - i, 0
  {
    hide RepairFrom, RepairTurn, IsRenamed, Normalized;
    var turn, j, at := messages[i], SpanEnd(messages, i + 1), |p.out|;
    var between := messages[i + 1..j];
    assert |s.out| == at by {
      LengthOfRenamed(s.out, all, at);
    }
    var first := RepairTurn(p, turn, between, options);
    var results, rest := TurnAgain(p, s, turn, between, options);
    RepairStep(p, messages, i, options);
    SpanEndIs(messages, i + 1);
    RepairExtends(first, messages, j, options);
    TurnInside(p.out, turn, results, rest, all);
    RepairStep(s, all, at, options);
    var second := RepairTurn(s, turn, results + rest, options);
    TurnRenamed(s.out, second.out, all, at, results, rest);
    RepairedAgain(first, second, messages, j, all, options);
  }

  lemma {:induction false} TurnInside(out: seq<Message>, turn: Message, results: seq<Message>, rest: seq<Message>,
      all: seq<Message>)
    requires out + [turn] + results + rest <= all
    requires forall k :: 0 <= k < |results| ==> results[k].ToolResult?
    requires forall k :: 0 <= k < |rest| ==> !rest[k].Assistant?
    requires var end := |out| + 1 + |results| + |rest|; end == |all| || all[end].Assistant?
    ensures var at, end := |out|, |out| + 1 + |results| + |rest|;
            all[at] == turn && all[at + 1..end] == results + rest && SpanEnd(all, at + 1) == end
  {
    var at, end := |out|, |out| + 1 + |results| + |rest|;
    var block := results + rest;
    assert out + [turn] + results + rest == (out + [turn]) + block;
    SplitAt(out + [turn], block, all);
    assert all[at] == all[..at + 1][at];
    forall k | at < k < end ensures !all[k].Assistant? {
      assert all[k] == all[at + 1..end][k - at - 1];
    }
    SpanEndsAt(all, at + 1, end);
  }

  lemma SplitAt<T>(a: seq<T>, b: seq<T>, all: seq<T>)
    requires a + b <= all
    ensures all[..|a|] == a && all[|a|..|a| + |b|] == b
  {
    assert all[..|a| + |b|] == a + b;
  }

  lemma LengthOfRenamed(b: seq<Message>, all: seq<Message>, n: nat)
    requires IsRenamed(b, all, n)
    ensures |b| == n
  {
  }

  lemma {:induction false} SpanEndsAt(messages: seq<Message>, from: nat, end: nat)
    requires from <= end <= |messages| && (end == |messages| || messages[end].Assistant?)
    requires forall k :: from <= k < end ==> !messages[k].Assistant?
    ensures SpanEnd(messages, from) == end
    decreases end - from
  {
    if from < end {
      SpanEndsAt(messages, from + 1, end);
    }
  }

  lemma TurnRenamed(b: seq<Message>, c: seq<Message>, all: seq<Message>, at: nat, results: seq<Message>,
      rest: seq<Message>)
    requires IsRenamed(b, all, at) && at < |all| && all[at].Assistant?
    requires var end := at + 1 + |results| + |rest|;
             && end <= |all| && all[at + 1..end] == results + rest && SpanEnd(all, at + 1) == end
             && |c| == end && b + [all[at]] <= c
    requires forall k :: 0 <= k < |results| ==>
               results[k].ToolResult? && results[k].id.Some? && c[at + 1 + k] == Normalized(results[k], all[at].calls)
    requires forall k :: 0 <= k < |rest| ==> !rest[k].ToolResult? && c[at + 1 + |results| + k] == rest[k]
    ensures IsRenamed(c, all, at + 1 + |results| + |rest|)
  {
    hide Normalized, OwnTurn, SpanEnd;
    var end := at + 1 + |results| + |rest|;
    forall k | 0 <= k < end ensures c[k] == Renamed(all, k) {
      if k < at {
        assert c[k] == (b + [all[at]])[k] == b[k];
      } else if k == at {
        assert c[k] == (b + [all[at]])[k];
      } else {
        OwnTurnInSpan(all, at, k);
        assert all[k] == all[at + 1..end][k - at - 1] == (results + rest)[k - at - 1];
        if k - at - 1 < |results| {
          assert all[k] == results[k - at - 1];
        } else {
          assert all[k] == rest[k - at - 1 - |results|];
        }
      }
    }
  }

  // ----- the law -----

  /** A second repair gives every result the name that its turn gives it, and changes nothing else. */
  lemma SecondRepairRenames(messages: seq<Message>, options: Options)
    requires Repaired(messages, options).changed
    ensures var once := Repaired(messages, options).messages;
            IsRenamed(RepairFrom(NO_PROGRESS, once, 0, options).out, once, |once|)
  {
    hide RepairFrom;
    RepairedAgain(NO_PROGRESS, NO_PROGRESS, messages, 0, Repaired(messages, options).messages, options);
  }

  /** For every transcript: repairing what has been repaired returns the same transcript exactly when no result in it is
      misnamed. */
  lemma RepairedTwiceIff(messages: seq<Message>, options: Options)
    ensures var once := Repaired(messages, options).messages;
            Repaired(once, options).messages == once <==> forall k :: !Misnamed(once, k)
  {
    hide RepairFrom, OwnTurn, Normalized, BadTurn, Misplaced;
    var once := Repaired(messages, options).messages;
    RepairChangesIff(once, options);
    if Repaired(messages, options).changed && Repaired(once, options).changed {
      SecondRepairRenames(messages, options);
      var twice := RepairFrom(NO_PROGRESS, once, 0, options).out;
      forall k | 0 <= k < |once| ensures twice[k] == once[k] <==> !Misnamed(once, k) {
        assert twice[k] == Renamed(once, k);
      }
    } else {
      assert Repaired(once, options).messages == once;
    }
  }

  // ----- transcripts whose calls have proper names -----

  predicate ProperName(name: Option<string>) {
    name.Some? ==> name.value != "" && Trim(name.value) == name.value
  }

  predicate ProperCalls(calls: seq<ToolCall>) {
    forall i :: 0 <= i < |calls| ==> ProperName(calls[i].name)
  }

  predicate ProperNames(messages: seq<Message>) {
    forall i :: 0 <= i < |messages| && messages[i].Assistant? ==> ProperCalls(messages[i].calls)
  }

  ghost predicate NoneMisnamed(messages: seq<Message>) {
    forall k :: !Misnamed(messages, k)
  }

  lemma MissingIsProper(call: ToolCall, calls: seq<ToolCall>, tokens: nat)
    requires ProperName(call.name)
    ensures !IsMisnamed(MissingResult(call, tokens), calls)
  {
    hide Trim;
    UnknownIsTrimmed();
  }

  lemma NormalizedIsProper(m: Message, calls: seq<ToolCall>)
    requires m.ToolResult? && m.id.Some?
    ensures !IsMisnamed(Normalized(m, calls), calls)
  {
    hide NormalName;
    NormalNameTwice(m.toolName, NameOf(calls, m.id.value));
  }

  ghost predicate Proper(results: map<string, Message>, calls: seq<ToolCall>) {
    forall id :: id in results ==> !IsMisnamed(results[id], calls)
  }

  lemma {:induction false} ScanIsProper(between: seq<Message>, calls: seq<ToolCall>, seen: set<string>)
    ensures Proper(ScanAll(EMPTY_SPAN, between, calls, seen).results, calls)
  {
    hide IsMisnamed, Normalized, Ids;
    if between != [] {
      var n := |between| - 1;
      ScanIsProper(between[..n], calls, seen);
      if between[n].ToolResult? && between[n].id.Some? {
        NormalizedIsProper(between[n], calls);
      }
    }
  }

  lemma {:induction false} PushIsProper(p: Progress, front: seq<ToolCall>, calls: seq<ToolCall>, span: Span,
      failed: bool, options: Options)
    requires GoodResults(span.results) && Proper(span.results, calls) && ProperCalls(front)
    ensures var out := PushForCalls(p, front, span, failed, options).out;
            |p.out| <= |out| && forall k :: |p.out| <= k < |out| ==> !IsMisnamed(out[k], calls)
  {
    hide IsMisnamed, ProperName, PushForCall, PushForCalls;
    if front == [] {
      PushesNone(p, span, failed, options);
    } else {
      var n := |front| - 1;
      PushesLast(p, front, span, failed, options);
      PushIsProper(p, front[..n], calls, span, failed, options);
      PushesOne(PushForCalls(p, front[..n], span, failed, options), front[n], span, failed, options);
      MissingIsProper(front[n], calls, options.missingTokens);
    }
  }

  lemma PushesOne(p: Progress, c: ToolCall, span: Span, failed: bool, options: Options)
    requires GoodResults(span.results)
    ensures var q := PushForCall(p, c, span, failed, options);
            || q.out == p.out
            || (c.id in span.results && q.out == p.out + [span.results[c.id]])
            || q.out == p.out + [MissingResult(c, options.missingTokens)]
  {
  }

  lemma OwnTurnInPrefix(before: seq<Message>, messages: seq<Message>, k: nat)
    requires before <= messages && k <= |before|
    ensures OwnTurn(before, k) == OwnTurn(messages, k)
    decreases k
  {
    if k > 0 {
      assert before[k - 1] == messages[k - 1];
      OwnTurnInPrefix(before, messages, k - 1);
    }
  }

  lemma MisnamedInPrefix(before: seq<Message>, messages: seq<Message>, k: nat)
    requires before <= messages && k < |before|
    ensures Misnamed(before, k) <==> Misnamed(messages, k)
  {
    hide IsMisnamed;
    OwnTurnInPrefix(before, messages, k);
    assert before[k] == messages[k];
    var own := OwnTurn(messages, k);
    assert own.Some? ==> before[own.value] == messages[own.value];
  }

  lemma KeepIsProper(out: seq<Message>, m: Message)
    requires NoneMisnamed(out) && !m.ToolResult?
    ensures NoneMisnamed(out + [m])
  {
    hide Misnamed, OwnTurn;
    forall k: nat ensures !Misnamed(out + [m], k) {
      if k < |out| {
        MisnamedInPrefix(out, out + [m], k);
      } else {
        OthersHaveNoName(out + [m], k);
      }
    }
  }

  lemma OthersHaveNoName(messages: seq<Message>, k: nat)
    requires k < |messages| ==> !messages[k].ToolResult?
    ensures !Misnamed(messages, k)
  {
  }

  lemma NothingIsProper()
    ensures NoneMisnamed([])
  {
  }

  lemma TurnIsProper(p: Progress, turn: Message, between: seq<Message>, options: Options)
    requires turn.Assistant? && ProperCalls(turn.calls) && NoneMisnamed(p.out)
    ensures NoneMisnamed(RepairTurn(p, turn, between, options).out)
  {
    hide IsMisnamed, Misnamed, PushForCalls, ScanAll, OwnTurn, LosesOrder, ProperCalls, Proper, GoodResults, Fresh;
    var results, rest := TurnParts(p, turn, between, options);
    var span := ScanAll(EMPTY_SPAN, between, turn.calls, p.seen);
    ScanIsProper(between, turn.calls, p.seen);
    PushIsProper(StartTurn(p, turn, span, options), turn.calls, turn.calls, span, turn.failed, options);
    var pushed := PushForCalls(StartTurn(p, turn, span, options), turn.calls, span, turn.failed, options).out;
    var out := RepairTurn(p, turn, between, options).out;
    var at := |p.out|;
    assert out == pushed + rest && pushed == p.out + [turn] + results;
    forall k: nat ensures !Misnamed(out, k) {
      if k < at {
        MisnamedInPrefix(p.out, out, k);
      } else if at < k < |pushed| {
        assert out[at] == turn && out[k] == pushed[k] == results[k - at - 1];
        forall j | at < j <= k ensures !out[j].Assistant? {
          assert out[j] == results[j - at - 1];
        }
        TurnIsLast(out, at, k);
        NamedByTurn(out, k);
      } else {
        OthersHaveNoName(out, k);
      }
    }
  }

  lemma TurnIsLast(messages: seq<Message>, t: nat, k: nat)
    requires t < k <= |messages| && messages[t].Assistant? && forall j :: t < j < k ==> !messages[j].Assistant?
    ensures OwnTurn(messages, k) == Some(t)
    decreases k
  {
    if t < k - 1 {
      TurnIsLast(messages, t, k - 1);
    }
  }

  lemma NamedByTurn(messages: seq<Message>, k: nat)
    requires k < |messages| && OwnTurn(messages, k).Some?
    requires !IsMisnamed(messages[k], messages[OwnTurn(messages, k).value].calls)
    ensures !Misnamed(messages, k)
  {
  }

  lemma {:induction false} RepairIsProper(p: Progress, messages: seq<Message>, i: nat, options: Options)
    requires i <= |messages| && ProperNames(messages) && NoneMisnamed(p.out)
    ensures NoneMisnamed(RepairFrom(p, messages, i, options).out)
    decreases |messages| - i
  {
    hide RepairFrom, RepairTurn, NoneMisnamed, ProperCalls;
    if i == |messages| {
      NothingToRepair(p, messages, options);
    } else {
      RepairStep(p, messages, i, options);
      var m := messages[i];
      if m.ToolResult? {
        RepairIsProper(DropOrphan(p), messages, i + 1, options);
      } else if m.Other? || m.calls == [] {
        KeepIsProper(p.out, m);
        RepairIsProper(Keep(p, m), messages, i + 1, options);
      } else {
        var j := SpanEnd(messages, i + 1);
        TurnIsProper(p, m, messages[i + 1..j], options);
        RepairIsProper(RepairTurn(p, m, messages[i + 1..j], options), messages, j, options);
      }
    }
  }

  /** When every call has a proper name or none, a second repair changes nothing. */
  lemma ProperNamesRepairOnce(messages: seq<Message>, options: Options)
    requires ProperNames(messages)
    ensures var once := Repaired(messages, options).messages; Repaired(once, options).messages == once
  {
    hide RepairFrom, Misnamed, BadTurn, Misplaced;
    var once := Repaired(messages, options).messages;
    RepairedTwiceIff(messages, options);
    RepairChangesIff(messages, options);
    if Repaired(messages, options).changed {
      NothingIsProper();
      RepairIsProper(NO_PROGRESS, messages, 0, options);
      assert NoneMisnamed(once);
    }
  }

  /** A call with a blank name and no result: its synthetic result gets a proper name only from a second repair. */
  lemma BlankNameIsRepairedTwice(options: Options)
    ensures var messages := [Assistant([ToolCall("a", Some(" "))], false, 1)];
            var once := Repaired(messages, options).messages;
            Repaired(once, options).messages != once
  {
    hide Trim;
    var call := ToolCall("a", Some(" "));
    var turn := Assistant([call], false, 1);
    var messages := [turn];
    var q := RepairTurn(NO_PROGRESS, turn, [], options);
    OneBlankCall(options);
    assert messages[1..1] == [];
    assert SpanEnd(messages, 1) == 1;
    RepairStep(NO_PROGRESS, messages, 0, options);
    NothingToRepair(q, messages, options);
    var once := Repaired(messages, options).messages;
    assert once == [turn, MissingResult(call, options.missingTokens)];
    assert OwnTurn(once, 1) == Some(0);
    BlankIsRenamed(once[1], turn.calls);
    assert Misnamed(once, 1);
    RepairedTwiceIff(messages, options);
  }

  lemma OneBlankCall(options: Options)
    ensures var call := ToolCall("a", Some(" "));
            var q := RepairTurn(NO_PROGRESS, Assistant([call], false, 1), [], options);
            q.changed && q.out == [Assistant([call], false, 1), MissingResult(call, options.missingTokens)]
  {
    hide Trim;
    var call := ToolCall("a", Some(" "));
    var turn := Assistant([call], false, 1);
    var span := EMPTY_SPAN;
    assert ScanAll(EMPTY_SPAN, [], turn.calls, {}) == span;
    OnePush(StartTurn(NO_PROGRESS, turn, span, options), call, span, false, options);
  }

  lemma BlankIsRenamed(m: Message, calls: seq<ToolCall>)
    requires m.ToolResult? && m.id.Some? && m.toolName == Some(" ")
    ensures IsMisnamed(m, calls)
  {
    assert Trim(" ") == "" by {
      assert " "[1..] == "";
    }
    NameChangesIff(m.toolName, NameOf(calls, m.id.value));
  }
}
