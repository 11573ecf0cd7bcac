/** Which transcripts the repair changes, and which defects it leaves in those it does not change
    (src/agents/session-transcript-repair.ts). Every condition is on the transcript before the repair. */
module RepairCondition {
  import opened Common
  import opened TranscriptRepair

  // ----- spans -----

  /** The last assistant turn before position `k`: the one in whose span `k` lies. */
  function OwnTurn(messages: seq<Message>, k: nat): (r: Option<nat>)
    requires k <= |messages|
    ensures r.Some? ==> r.value < k && messages[r.value].Assistant? && forall j :: r.value < j < k ==>
            !messages[j].Assistant?
    ensures r.None? ==> forall j :: 0 <= j < k ==> !messages[j].Assistant?
  {
    if k == 0 then None
    else if messages[k - 1].Assistant? then Some(k - 1)
    else OwnTurn(messages, k - 1)
  }

  /** What lies between a turn and the next one. */
  function SpanOf(messages: seq<Message>, t: nat): seq<Message>
    requires t < |messages|
  {
    messages[t + 1..SpanEnd(messages, t + 1)]
  }

  lemma {:induction false} SpanEndIs(messages: seq<Message>, from: nat)
    requires from <= |messages|
    ensures var end := SpanEnd(messages, from);
            && (forall k :: from <= k < end ==> !messages[k].Assistant?)
            && (end < |messages| ==> messages[end].Assistant?)
    decreases |messages| - from
  {
    if from < |messages| && !messages[from].Assistant? {
      SpanEndIs(messages, from + 1);
    }
  }

  lemma OwnTurnInSpan(messages: seq<Message>, t: nat, k: nat)
    requires t < |messages| && messages[t].Assistant? && t < k <= SpanEnd(messages, t + 1)
    ensures OwnTurn(messages, k) == Some(t)
  {
    SpanEndIs(messages, t + 1);
    var own := OwnTurn(messages, k);
    assert own.Some?;
    assert !(own.value < t) && !(t < own.value);
  }

  // ----- what makes a repair necessary -----

  /** A result that no call of its turn asks for, or that was already given before its turn. */
  predicate IsStray(m: Message, calls: seq<ToolCall>, given: set<string>) {
    m.ToolResult? && (m.id.None? || m.id.value !in Ids(calls) || m.id.value in given)
  }

  ghost predicate Misplaced(messages: seq<Message>, k: nat) {
    && k < |messages|
    && match OwnTurn(messages, k)
       case None => messages[k].ToolResult?
       case Some(t) => IsStray(messages[k], messages[t].calls, ResultIds(messages[..t]))
  }

  /** A result whose tool name is padded, or blank, or missing where its call has one. */
  predicate IsMisnamed(m: Message, calls: seq<ToolCall>) {
    m.ToolResult? && m.id.Some? && Normalized(m, calls) != m
  }

  ghost predicate Misnamed(messages: seq<Message>, k: nat) {
    && k < |messages| && OwnTurn(messages, k).Some?
    && IsMisnamed(messages[k], messages[OwnTurn(messages, k).value].calls)
  }

  predicate IsAmiss(m: Message, calls: seq<ToolCall>, given: set<string>) {
    IsStray(m, calls, given) || IsMisnamed(m, calls)
  }

  ghost predicate Amiss(messages: seq<Message>, k: nat) {
    Misplaced(messages, k) || Misnamed(messages, k)
  }

  /** A call that is made twice and answered. */
  ghost predicate Repeats(calls: seq<ToolCall>, answered: set<string>) {
    exists a, b :: 0 <= a < b < |calls| && calls[a].id == calls[b].id && calls[a].id in answered
  }

  predicate AllIn(calls: seq<ToolCall>, answered: set<string>) {
    forall c :: c in calls ==> c.id in answered
  }

  /** A turn with an unanswered call, with results among other messages, or with an answered call made twice. A failed
      turn may have unanswered calls and other messages; when its results are to be dropped it may have none. */
  ghost predicate BadTurn(messages: seq<Message>, t: nat, options: Options) {
    && t < |messages| && messages[t].Assistant?
    && var turn, answered := messages[t], ResultIds(SpanOf(messages, t));
       if turn.failed && options.dropFailedResults then answered != {}
       else
         || (!turn.failed && !AllIn(turn.calls, answered))
         || (!turn.failed && answered != {} && NonResults(SpanOf(messages, t)) != [])
         || Repeats(turn.calls, answered)
  }

  ghost predicate NeedsRepair(messages: seq<Message>, options: Options) {
    || (exists k :: Misplaced(messages, k))
    || (exists k :: Misnamed(messages, k))
    || (exists t :: BadTurn(messages, t, options))
  }

  // ----- one span -----

  lemma {:induction false} SpanScan(between: seq<Message>, calls: seq<ToolCall>, seen: set<string>)
    ensures var span := ScanAll(EMPTY_SPAN, between, calls, seen);
            && (span.changed <==> exists k :: 0 <= k < |between| && IsAmiss(between[k], calls, seen))
            && (!span.changed ==> span.results.Keys == ResultIds(between))
  {
    if between != [] {
      var n := |between| - 1;
      var front := between[..n];
      SpanScan(front, calls, seen);
      assert forall k :: 0 <= k < n ==> front[k] == between[k];
      if ScanAll(EMPTY_SPAN, front, calls, seen).changed {
        var k :| 0 <= k < n && IsAmiss(front[k], calls, seen);
        assert IsAmiss(between[k], calls, seen);
      }
    }
  }

  // ----- the pushes of one turn -----

  lemma RepeatsSnoc(calls: seq<ToolCall>, c: ToolCall, answered: set<string>)
    ensures Repeats(calls + [c], answered)
            <==> Repeats(calls, answered) || (exists a :: 0 <= a < |calls| && calls[a].id == c.id && c.id in answered)
  {
    var more := calls + [c];
    if Repeats(calls, answered) {
      var a, b :| 0 <= a < b < |calls| && calls[a].id == calls[b].id && calls[a].id in answered;
      assert more[a].id == more[b].id;
    }
    if a :| 0 <= a < |calls| && calls[a].id == c.id && c.id in answered {
      assert more[a].id == more[|calls|].id;
    }
    if Repeats(more, answered) {
      var a, b :| 0 <= a < b < |more| && more[a].id == more[b].id && more[a].id in answered;
      if b < |calls| {
        assert calls[a].id == calls[b].id;
      } else {
        assert calls[a].id == c.id;
      }
    }
  }

  ghost predicate GoodResults(results: map<string, Message>) {
    forall id :: id in results ==> results[id].ToolResult? && results[id].id == Some(id)
  }

  lemma {:induction false} PushesChangeIff(p: Progress, calls: seq<ToolCall>, span: Span, failed: bool,
      options: Options)
    requires !p.changed && GoodResults(span.results) && span.results.Keys !! p.seen
    requires !(failed && options.dropFailedResults)
    ensures var q := PushForCalls(p, calls, span, failed, options);
            && (q.changed <==> (!failed && !AllIn(calls, span.results.Keys)) || Repeats(calls, span.results.Keys))
            && (!q.changed ==> forall id :: id in q.seen <==> id in p.seen || (id in Ids(calls) && id in span.results))
  {
    if calls != [] {
      var n := |calls| - 1;
      var front, c := calls[..n], calls[n];
      assert calls == front + [c];
      hide PushForCalls, PushForCall, GoodResults, Repeats;
      PushesChangeIff(p, front, span, failed, options);
      RepeatsSnoc(front, c, span.results.Keys);
      PushesOneMore(p, calls, span, failed, options);
    }
  }

  lemma PushesOneMore(p: Progress, calls: seq<ToolCall>, span: Span, failed: bool, options: Options)
    requires calls != [] && GoodResults(span.results) && !(failed && options.dropFailedResults)
    ensures var c := calls[|calls| - 1];
            var before := PushForCalls(p, calls[..|calls| - 1], span, failed, options);
            var q := PushForCalls(p, calls, span, failed, options);
            if c.id in span.results then q.changed == (before.changed || c.id in before.seen)
               && q.seen == before.seen + {c.id}
            else if failed then q == before
            else q.changed
  {
  }

  lemma {:induction false} NothingPushed(p: Progress, calls: seq<ToolCall>, span: Span, options: Options)
    requires options.dropFailedResults
    ensures PushForCalls(p, calls, span, true, options) == p
  {
    if calls != [] {
      NothingPushed(p, calls[..|calls| - 1], span, options);
    }
  }

  // ----- one turn -----

  lemma AmissInSpan(messages: seq<Message>, t: nat, k: nat)
    requires k < |messages| && OwnTurn(messages, k) == Some(t)
    ensures Amiss(messages, k) <==> IsAmiss(messages[k], messages[t].calls, ResultIds(messages[..t]))
  {
    hide ResultIds, OwnTurn, IsStray, IsMisnamed;
  }

  lemma SpanIsThere(messages: seq<Message>, t: nat)
    requires t < |messages| && messages[t].Assistant?
    ensures var between, given := SpanOf(messages, t), ResultIds(messages[..t]);
            (exists k :: 0 <= k < |between| && IsAmiss(between[k], messages[t].calls, given))
            <==> exists k :: t < k < SpanEnd(messages, t + 1) && Amiss(messages, k)
  {
    hide ResultIds, IsAmiss, Amiss;
    var between, given := SpanOf(messages, t), ResultIds(messages[..t]);
    forall k | t < k < SpanEnd(messages, t + 1)
      ensures Amiss(messages, k) <==> IsAmiss(between[k - t - 1], messages[t].calls, given)
    {
      OwnTurnInSpan(messages, t, k);
      AmissInSpan(messages, t, k);
    }
    if k :| 0 <= k < |between| && IsAmiss(between[k], messages[t].calls, given) {
      assert Amiss(messages, t + 1 + k);
    }
  }

  lemma StrayFree(between: seq<Message>, calls: seq<ToolCall>, given: set<string>)
    requires forall k :: 0 <= k < |between| ==> !IsAmiss(between[k], calls, given)
    ensures forall id :: id in ResultIds(between) ==> id in Ids(calls) && id !in given
  {
    IdsAreThere(between);
  }

  lemma {:induction false} IdsAreThere(messages: seq<Message>)
    ensures forall id :: id in ResultIds(messages) <==> exists k :: 0 <= k < |messages| && IsResultOf(messages[k], id)
  {
    if messages != [] {
      var n := |messages| - 1;
      var front := messages[..n];
      IdsAreThere(front);
      assert forall k :: 0 <= k < n ==> front[k] == messages[k];
      forall id ensures id in ResultIds(messages) <==> exists k :: 0 <= k < |messages| && IsResultOf(messages[k], id) {
        if id in ResultIds(front) {
          var k :| 0 <= k < n && IsResultOf(front[k], id);
          assert IsResultOf(messages[k], id);
        } else if IsResultOf(messages[n], id) {
          assert id in ResultIds(messages);
        } else {
          assert forall k :: 0 <= k < n ==> !IsResultOf(front[k], id);
        }
      }
    }
  }

  predicate IsResultOf(m: Message, id: string) {
    m.ToolResult? && m.id == Some(id)
  }

  /** A turn changes the transcript exactly when its span holds a result that is amiss or the turn is bad. */
  lemma TurnChangesIff(p: Progress, messages: seq<Message>, t: nat, options: Options)
    requires t < |messages| && messages[t].Assistant? && !p.changed && p.seen == ResultIds(messages[..t])
    ensures var q := RepairTurn(p, messages[t], SpanOf(messages, t), options);
            && (q.changed <==>
                (exists k :: t < k < SpanEnd(messages, t + 1) && Amiss(messages, k)) || BadTurn(messages, t, options))
            && (!q.changed ==> q.seen == p.seen + ResultIds(SpanOf(messages, t)))
  {
    hide ResultIds, NonResults, Amiss, ScanAll, PushForCalls, SpanOf, IsAmiss, Repeats;
    var turn, between := messages[t], SpanOf(messages, t);
    var span := ScanAll(EMPTY_SPAN, between, turn.calls, p.seen);
    var start := StartTurn(p, turn, span, options);
    SpanScan(between, turn.calls, p.seen);
    ScanKeeps(between, turn.calls, p.seen);
    SpanIsThere(messages, t);
    if span.changed {
      PushKeepsChange(start, turn.calls, span, turn.failed, options);
    } else {
      StrayFree(between, turn.calls, p.seen);
      KeysOrNone(span.results);
      if turn.failed && options.dropFailedResults {
        NothingPushed(start, turn.calls, span, options);
      } else if start.changed {
        PushKeepsChange(start, turn.calls, span, turn.failed, options);
      } else {
        PushesChangeIff(start, turn.calls, span, turn.failed, options);
      }
    }
  }

  lemma PushKeepsChange(p: Progress, calls: seq<ToolCall>, span: Span, failed: bool, options: Options)
    requires p.changed
    ensures PushForCalls(p, calls, span, failed, options).changed
  {
    if !PushForCalls(p, calls, span, failed, options).changed {
      PushIsSticky(p, calls, span, failed, options);
    }
  }

  lemma KeysOrNone(results: map<string, Message>)
    ensures |results| > 0 <==> results.Keys != {}
  {
    assert |results| == |results.Keys|;
  }

  // ----- the whole transcript -----

  /** Positions at which the repair does not stand in the middle of a span. */
  predicate IsHead(messages: seq<Message>, i: nat) {
    && i <= |messages|
    && (i == |messages| || messages[i].Assistant? || OwnTurn(messages, i).None?
          || messages[OwnTurn(messages, i).value].calls == [])
  }

  ghost predicate CleanFrom(messages: seq<Message>, i: nat, options: Options) {
    && (forall k :: i <= k ==> !Amiss(messages, k))
    && (forall t :: i <= t ==> !BadTurn(messages, t, options))
  }

  lemma {:induction false} RepairChangesFrom(p: Progress, messages: seq<Message>, i: nat, options: Options)
    requires IsHead(messages, i) && !p.changed && p.seen == ResultIds(messages[..i])
    ensures RepairFrom(p, messages, i, options).changed <==> !CleanFrom(messages, i, options)
    decreases |messages| - i
  {
    hide ResultIds, RepairTurn, Amiss, BadTurn, SpanOf;
    if i == |messages| {
      NothingBehind(messages, options);
    } else {
      var m := messages[i];
      assert messages[..i + 1] == messages[..i] + [m];
      SnocIds(messages[..i], m);
      if m.ToolResult? {
        HeadResultIsMisplaced(messages, i);
        ChangeStays(DropOrphan(p), messages, i + 1, options);
      } else if m.Other? || m.calls == [] {
        PlainHead(messages, i, options);
        RepairChangesFrom(Keep(p, m), messages, i + 1, options);
        assert CleanFrom(messages, i, options) <==> CleanFrom(messages, i + 1, options);
      } else {
        TurnHead(p, messages, i, options);
      }
    }
  }

  lemma NothingBehind(messages: seq<Message>, options: Options)
    ensures CleanFrom(messages, |messages|, options)
  {
    hide ResultIds, SpanOf;
  }

  lemma ChangeStays(p: Progress, messages: seq<Message>, i: nat, options: Options)
    requires i <= |messages| && p.changed
    ensures RepairFrom(p, messages, i, options).changed
  {
    if !RepairFrom(p, messages, i, options).changed {
      RepairIsSticky(p, messages, i, options);
    }
  }

  lemma HeadResultIsMisplaced(messages: seq<Message>, i: nat)
    requires i < |messages| && IsHead(messages, i) && messages[i].ToolResult?
    ensures Amiss(messages, i)
  {
  }

  /** A message that is neither a result nor a turn with calls is no reason for a repair. */
  lemma PlainHead(messages: seq<Message>, i: nat, options: Options)
    requires i < |messages| && IsHead(messages, i)
    requires messages[i].Other? || (messages[i].Assistant? && messages[i].calls == [])
    ensures IsHead(messages, i + 1) && !Amiss(messages, i)
    ensures !BadTurn(messages, i, options) || exists k :: i < k && Amiss(messages, k)
  {
    hide ResultIds, NonResults, SpanOf;
    if messages[i].Assistant? && BadTurn(messages, i, options) {
      AnsweredWithoutCall(messages, i, options);
    }
  }

  lemma AnsweredWithoutCall(messages: seq<Message>, t: nat, options: Options)
    requires BadTurn(messages, t, options) && messages[t].calls == []
    ensures exists k :: t < k && Amiss(messages, k)
  {
    hide NonResults, ResultIds, Amiss;
    var between, given := SpanOf(messages, t), ResultIds(messages[..t]);
    assert ResultIds(between) != {};
    var id :| id in ResultIds(between);
    IdsAreThere(between);
    var k :| 0 <= k < |between| && IsResultOf(between[k], id);
    assert IsAmiss(between[k], messages[t].calls, given);
    SpanIsThere(messages, t);
  }

  /** The step over a turn and its span. */
  lemma {:induction false} TurnHead(p: Progress, messages: seq<Message>, i: nat, options: Options)
    requires i < |messages| && messages[i].Assistant? && messages[i].calls != []
    requires !p.changed && p.seen == ResultIds(messages[..i])
    ensures RepairFrom(p, messages, i, options).changed <==> !CleanFrom(messages, i, options)
    decreases |messages| - i, 0
  {
    hide ResultIds, RepairTurn, Amiss, BadTurn;
    var j := SpanEnd(messages, i + 1);
    var q := RepairTurn(p, messages[i], SpanOf(messages, i), options);
    TurnChangesIff(p, messages, i, options);
    SpanEndIs(messages, i + 1);
    NoTurnInSpan(messages, i, options);
    if q.changed {
      ChangeStays(q, messages, j, options);
    } else {
      assert messages[..j] == (messages[..i] + [messages[i]]) + SpanOf(messages, i);
      ResultIdsAppend(messages[..i] + [messages[i]], SpanOf(messages, i));
      SnocIds(messages[..i], messages[i]);
      RepairChangesFrom(q, messages, j, options);
      assert CleanFrom(messages, i, options) <==> CleanFrom(messages, j, options);
    }
  }

  lemma NoTurnInSpan(messages: seq<Message>, t: nat, options: Options)
    requires t < |messages| && messages[t].Assistant?
    ensures !Amiss(messages, t)
    ensures forall k :: t < k < SpanEnd(messages, t + 1) ==> !BadTurn(messages, k, options)
    ensures IsHead(messages, SpanEnd(messages, t + 1))
  {
    hide ResultIds;
    SpanEndIs(messages, t + 1);
  }

  /** The repair changes a transcript exactly when a result is out of its turn's span or given before it, or a turn is
      bad. */
  lemma RepairChangesIff(messages: seq<Message>, options: Options)
    ensures Repaired(messages, options).changed <==> NeedsRepair(messages, options)
  {
    hide Misplaced, Misnamed, BadTurn, RepairFrom;
    NothingYet();
    assert messages[..0] == [];
    RepairChangesFrom(NO_PROGRESS, messages, 0, options);
    NeedsRepairIff(messages, options);
  }

  lemma NeedsRepairIff(messages: seq<Message>, options: Options)
    ensures NeedsRepair(messages, options) <==> !CleanFrom(messages, 0, options)
  {
    hide Misplaced, Misnamed, BadTurn;
    if k :| Misplaced(messages, k) || Misnamed(messages, k) {
      assert Amiss(messages, k);
    }
  }

  // ----- results given twice -----

  /** Two results of one call in the span of one turn. */
  ghost predicate RepeatedInSpan(messages: seq<Message>) {
    exists a: nat, b: nat :: TwiceInSpan(messages, a, b)
  }

  ghost predicate TwiceInSpan(messages: seq<Message>, a: nat, b: nat) {
    && a < b < |messages| && messages[b].ToolResult? && messages[b].id.Some?
    && IsResultOf(messages[a], messages[b].id.value)
    && OwnTurn(messages, a) == OwnTurn(messages, b)
  }

  lemma {:induction false} DistinctIff(messages: seq<Message>)
    ensures DistinctResults(messages) <==>
            forall b :: 0 <= b < |messages| && messages[b].ToolResult? && messages[b].id.Some? ==>
              messages[b].id.value !in ResultIds(messages[..b])
  {
    hide ResultIds;
    if messages != [] {
      var n := |messages| - 1;
      var front := messages[..n];
      DistinctIff(front);
      assert forall b :: 0 <= b <= n ==> front[..b] == messages[..b];
      assert forall b :: 0 <= b < n ==> front[b] == messages[b];
    }
  }

  /** When nothing needs repair, a result is given twice exactly when that happens within one span. */
  lemma TwiceOnlyInSpan(messages: seq<Message>, options: Options)
    requires !NeedsRepair(messages, options)
    ensures DistinctResults(messages) <==> !RepeatedInSpan(messages)
  {
    hide ResultIds, BadTurn, DistinctResults;
    DistinctIff(messages);
    if RepeatedInSpan(messages) {
      var a: nat, b: nat :| TwiceInSpan(messages, a, b);
      IdsAreThere(messages[..b]);
      assert IsResultOf(messages[..b][a], messages[b].id.value);
    }
    if b :| && 0 <= b < |messages| && messages[b].ToolResult? && messages[b].id.Some?
            && messages[b].id.value in ResultIds(messages[..b])
    {
      GivenTwice(messages, b);
    }
  }

  lemma GivenTwice(messages: seq<Message>, b: nat)
    requires b < |messages| && messages[b].ToolResult? && messages[b].id.Some? && !Misplaced(messages, b)
    requires messages[b].id.value in ResultIds(messages[..b])
    ensures RepeatedInSpan(messages)
  {
    hide ResultIds;
    var id := messages[b].id.value;
    IdsAreThere(messages[..b]);
    var a :| 0 <= a < b && IsResultOf(messages[..b][a], id);
    var t := OwnTurn(messages, b).value;
    assert a < t ==> IsResultOf(messages[..t][a], id);
    IdsAreThere(messages[..t]);
    SameOwnTurn(messages, t, a, b);
    assert TwiceInSpan(messages, a, b);
  }

  lemma SameOwnTurn(messages: seq<Message>, t: nat, a: nat, b: nat)
    requires t < a <= b <= |messages| && OwnTurn(messages, b) == Some(t)
    ensures OwnTurn(messages, a) == Some(t)
  {
    var own := OwnTurn(messages, a);
    assert own.Some?;
    assert !(own.value < t) && !(t < own.value);
  }

  // ----- results out of place -----

  /** Only results lie between the turn and position `k`. */
  predicate OnlyResultsBetween(messages: seq<Message>, t: nat, k: nat) {
    forall j :: t < j < k && j < |messages| ==> messages[j].ToolResult?
  }

  /** In the span of every failed turn, the results come before all other messages. */
  ghost predicate FailedTurnsInOrder(messages: seq<Message>) {
    forall k :: IsFailedTurnsResult(messages, k) ==> OnlyResultsBetween(messages, OwnTurn(messages, k).value, k)
  }

  predicate IsFailedTurnsResult(messages: seq<Message>, k: nat) {
    && k < |messages| && messages[k].ToolResult?
    && OwnTurn(messages, k).Some? && messages[OwnTurn(messages, k).value].failed
  }

  ghost predicate InPlace(messages: seq<Message>, k: nat) {
    k < |messages| && messages[k].ToolResult? ==>
      messages[k].id.Some? && messages[k].id.value in Ids(OpenCalls(messages[..k]))
  }

  lemma {:induction false} AnchoredIff(messages: seq<Message>)
    ensures Anchored(messages) <==> forall k :: InPlace(messages, k)
  {
    hide OpenCalls;
    if messages != [] {
      var n := |messages| - 1;
      var front := messages[..n];
      AnchoredIff(front);
      assert forall k :: 0 <= k <= n ==> front[..k] == messages[..k];
      assert forall k :: 0 <= k < n ==> front[k] == messages[k];
      assert Anchored(messages) <==> Anchored(front) && InPlace(messages, n);
      forall k: nat ensures k != n ==> (InPlace(front, k) <==> InPlace(messages, k)) {
      }
    }
  }

  /** The calls open at a position are those of its turn while only results have come since. */
  lemma {:induction false} OpenCallsAre(messages: seq<Message>, k: nat)
    requires k <= |messages| && OwnTurn(messages, k).Some?
    ensures var t := OwnTurn(messages, k).value;
            OpenCalls(messages[..k]) == if OnlyResultsBetween(messages, t, k) then messages[t].calls else []
    decreases k
  {
    var t := OwnTurn(messages, k).value;
    assert messages[..k][..k - 1] == messages[..k - 1];
    if t < k - 1 {
      OpenCallsAre(messages, k - 1);
      assert OnlyResultsBetween(messages, t, k)
        <==> OnlyResultsBetween(messages, t, k - 1) && messages[k - 1].ToolResult?;
    }
  }

  /** In a turn that did not fail and is not bad, nothing but results comes before a result. */
  lemma GoodTurnIsInOrder(messages: seq<Message>, k: nat, options: Options)
    requires k < |messages| && messages[k].ToolResult? && !Misplaced(messages, k)
    requires OwnTurn(messages, k).Some? && !messages[OwnTurn(messages, k).value].failed
    requires !BadTurn(messages, OwnTurn(messages, k).value, options)
    ensures OnlyResultsBetween(messages, OwnTurn(messages, k).value, k)
  {
    hide ResultIds, NonResults, SpanOf, BadTurn, IsStray;
    var t := OwnTurn(messages, k).value;
    SpanReaches(messages, t, k);
    SpanHolds(messages, t, k);
    MisplacedNeedsId(messages, k);
    assert IsResultOf(SpanOf(messages, t)[k - t - 1], messages[k].id.value);
    IdsAreThere(SpanOf(messages, t));
    assert messages[k].id.value in ResultIds(SpanOf(messages, t));
    GoodSpanHasOnlyResults(messages, t, options);
    forall j | t < j < k ensures messages[j].ToolResult? {
      SpanHolds(messages, t, j);
    }
  }

  lemma SpanHolds(messages: seq<Message>, t: nat, k: nat)
    requires t < |messages| && t < k < SpanEnd(messages, t + 1)
    ensures messages[k] in SpanOf(messages, t)
    ensures k - t - 1 < |SpanOf(messages, t)| && SpanOf(messages, t)[k - t - 1] == messages[k]
  {
    assert SpanOf(messages, t)[k - t - 1] == messages[k];
  }

  lemma MisplacedNeedsId(messages: seq<Message>, k: nat)
    requires k < |messages| && messages[k].ToolResult? && !Misplaced(messages, k)
    ensures messages[k].id.Some?
  {
    hide ResultIds;
  }

  lemma GoodSpanHasOnlyResults(messages: seq<Message>, t: nat, options: Options)
    requires t < |messages| && messages[t].Assistant? && !messages[t].failed && !BadTurn(messages, t, options)
    requires ResultIds(SpanOf(messages, t)) != {}
    ensures forall m :: m in SpanOf(messages, t) ==> m.ToolResult?
  {
    hide ResultIds, NonResults, SpanOf, Repeats;
    NonResultsMembers(SpanOf(messages, t));
  }

  lemma SpanReaches(messages: seq<Message>, t: nat, k: nat)
    requires k < |messages| && !messages[k].Assistant? && OwnTurn(messages, k) == Some(t)
    ensures k < SpanEnd(messages, t + 1)
  {
    SpanEndIs(messages, t + 1);
  }

  /** When nothing needs repair, every result is in its place exactly when the spans of the failed turns are in order.
      */
  lemma InPlaceUnlessFailed(messages: seq<Message>, options: Options)
    requires !NeedsRepair(messages, options)
    ensures Anchored(messages) <==> FailedTurnsInOrder(messages)
  {
    hide OpenCalls, Anchored, BadTurn, ResultIds;
    AnchoredIff(messages);
    forall k: nat | k < |messages| && messages[k].ToolResult?
      ensures OwnTurn(messages, k).Some?
      ensures InPlace(messages, k) <==> OnlyResultsBetween(messages, OwnTurn(messages, k).value, k)
      ensures !IsFailedTurnsResult(messages, k) ==> OnlyResultsBetween(messages, OwnTurn(messages, k).value, k)
    {
      assert !Misplaced(messages, k);
      OpenCallsAre(messages, k);
      if !IsFailedTurnsResult(messages, k) {
        GoodTurnIsInOrder(messages, k, options);
      }
    }
  }

  // ----- what the repaired transcript is like -----

  /** A repaired transcript answers no call twice, unless nothing needed repair and a span held two results of one
      call. It has every result in place, unless nothing needed repair and a failed turn had a result behind another
      message. */
  lemma RepairedIsSoundIff(messages: seq<Message>, options: Options)
    ensures DistinctResults(Repaired(messages, options).messages)
            <==> NeedsRepair(messages, options) || !RepeatedInSpan(messages)
    ensures Anchored(Repaired(messages, options).messages)
            <==> NeedsRepair(messages, options) || FailedTurnsInOrder(messages)
  {
    hide NeedsRepair, RepeatedInSpan, FailedTurnsInOrder, RepairFrom, Anchored, DistinctResults, NonResults;
    RepairChangesIff(messages, options);
    RepairPromises(messages, options);
    if !NeedsRepair(messages, options) {
      TwiceOnlyInSpan(messages, options);
      InPlaceUnlessFailed(messages, options);
    }
  }
}
