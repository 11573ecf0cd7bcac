/** Who is answered, with what, and why (src/acp/translator.ts): which prompt a chat event belongs to, which step
    answers which prompt, and what must have happened before. */
module AcpAnswers {
  import opened Common
  import opened AcpAgent
  import opened AcpRuns
  import opened AcpLosses
  import opened AcpLoops

  // ----- the prompt that a chat event belongs to -----

  /** The chat event is about this prompt: its session key, and its run id if the event carries one. */
  predicate IsAbout(a: Agent, run: string, sessionKey: string, runId: Option<string>) {
    && run in a.prompts && a.prompts[run].sessionKey == sessionKey
    && match runId case None => true case Some(id) => id == "" || id == run
  }

  lemma {:induction false} FoundIn(a: Agent, entries: seq<Entry>, sessionKey: string, runId: Option<string>)
    ensures match FindBySessionKey(a, entries, sessionKey, runId)
            case None => forall e :: e in entries ==> !IsAbout(a, e.run, sessionKey, runId)
            case Some(e) =>
              && IsAbout(a, e.run, sessionKey, runId)
              && exists i :: 0 <= i < |entries| && entries[i] == e
                             && forall j :: 0 <= j < i ==> !IsAbout(a, entries[j].run, sessionKey, runId)
  {
    if entries != [] && !IsAbout(a, entries[0].run, sessionKey, runId) {
      FoundIn(a, entries[1..], sessionKey, runId);
      var found := FindBySessionKey(a, entries[1..], sessionKey, runId);
      if found.Some? {
        var i :| 0 <= i < |entries[1..]| && entries[1..][i] == found.value
                 && forall j :: 0 <= j < i ==> !IsAbout(a, entries[1..][j].run, sessionKey, runId);
        assert entries[i + 1] == found.value;
        forall j | 0 <= j < i + 1 ensures !IsAbout(a, entries[j].run, sessionKey, runId) {
          assert j > 0 ==> entries[j] == entries[1..][j - 1];
        }
      }
    }
  }

  /** What is found is registered and the event is about it, and no entry before it; nothing is found exactly when the
      event is about no registered prompt. */
  lemma FoundIff(a: Agent, reasons: seq<string>, sessionKey: string, runId: Option<string>)
    requires AgentInvariant(a, reasons)
    ensures match FindBySessionKey(a, a.pendingPrompts, sessionKey, runId)
            case None => forall sessionId, run :: IsRegistered(a, sessionId, run) ==>
              !IsAbout(a, run, sessionKey, runId)
            case Some(e) =>
              && IsRegistered(a, e.sessionId, e.run) && IsAbout(a, e.run, sessionKey, runId)
              && exists i :: 0 <= i < |a.pendingPrompts| && a.pendingPrompts[i] == e
                             && forall j :: 0 <= j < i ==> !IsAbout(a, a.pendingPrompts[j].run, sessionKey, runId)
  {
    hide IsAbout, IsRegistered, FindBySessionKey, Lookup;
    FoundIn(a, a.pendingPrompts, sessionKey, runId);
    var found := FindBySessionKey(a, a.pendingPrompts, sessionKey, runId);
    if found.Some? {
      ListedIsRegistered(a, found.value);
    }
    RegisteredAreListed(a);
  }

  lemma ListedIsRegistered(a: Agent, e: Entry)
    requires IsMap(a.pendingPrompts) && e in a.pendingPrompts
    ensures IsRegistered(a, e.sessionId, e.run)
  {
    ListedIsFound(a.pendingPrompts, e);
  }

  /** In every run, a chat event that names a run leaves every other prompt alone: it stays registered, gets no new call
      and no answer. */
  lemma OtherRunsAreLeftAlone(events: seq<Event>, e: Event, sessionId: string, run: string)
    requires e.ChatEnds? && e.runId.Some? && e.runId.value != "" && e.runId.value != run
    ensures var w, after := Run(events), Step(Run(events), e);
            && (IsRegistered(after.agent, sessionId, run) <==> IsRegistered(w.agent, sessionId, run))
            && (forall id :: id in after.tasks && BelongsTo(after.tasks[id], run) ==> id in w.tasks)
            && after.agent.settled == w.agent.settled
  {
    hide Run, Step, FindBySessionKey, IsRegistered, Remove, AgentInvariant;
    var w := Run(events);
    EveryRunKeepsInvariant(events);
    FoundIff(w.agent, w.reasons, e.sessionKey, e.runId);
    OnlyRegistration(w.agent, w.reasons);
    var r := OnChatEnd(w.agent, e.sessionKey, e.runId, e.state, e.hasMessage);
    StepAgent(w, e);
    SettledByReply(w, e);
    ChatEndCalls(w, e);
    var found := FindBySessionKey(w.agent, w.agent.pendingPrompts, e.sessionKey, e.runId);
    if found.Some? {
      RemoveOnlyRemoves(w.agent, found.value.sessionId);
    }
  }

  lemma OnlyRegistration(a: Agent, reasons: seq<string>)
    requires AgentInvariant(a, reasons)
    ensures forall s, r, q :: IsRegistered(a, s, r) && IsRegistered(a, s, q) ==> r == q
  {
    hide Lookup;
  }

  /** The calls after the end of a chat: those before it and those it starts. */
  lemma ChatEndCalls(w: World, e: Event)
    requires Invariant(w) && e.ChatEnds?
    ensures var r, after := OnChatEnd(w.agent, e.sessionKey, e.runId, e.state, e.hasMessage), Step(w, e);
            && (forall id :: id in after.tasks && id !in w.tasks ==> after.tasks[id] in r.tasks)
            && (forall t :: t in r.tasks ==> exists id :: id in after.tasks && id !in w.tasks && after.tasks[id] == t)
            && (forall id :: id in w.tasks ==> id in after.tasks && after.tasks[id] == w.tasks[id])
  {
    hide AgentInvariant, TaskInvariant, EndedAreOver, Spawn, OnChatEnd;
    var r := OnChatEnd(w.agent, e.sessionKey, e.runId, e.state, e.hasMessage);
    SpawnAdds(w.(agent := r.agent), r.tasks);
    var after := Step(w, e);
    forall t | t in r.tasks ensures exists id :: id in after.tasks && id !in w.tasks && after.tasks[id] == t {
      var i :| 0 <= i < |r.tasks| && r.tasks[i] == t;
      assert w.nextTask + i in after.tasks;
    }
  }

  /** How the end of a chat is told to the client. */
  function ReasonTold(state: ChatState): StopReason {
    if state.Aborted? then Cancelled
    else if state.Final? && state.stopReason.Some? && state.stopReason.value == "max_tokens" then MaxTokens
    else EndTurn
  }

  /** The end of a chat that is about registered prompts starts the call that answers the first of them, and takes it
      out of the map unless there is a final message to show; without a session key it does nothing. */
  lemma ChatEndStarts(w: World, e: Event)
    requires Invariant(w) && e.ChatEnds?
    ensures e.sessionKey == ""
            || (forall s, run :: IsRegistered(w.agent, s, run) ==> !IsAbout(w.agent, run, e.sessionKey, e.runId)) ==>
              Step(w, e) == w
    ensures e.sessionKey != ""
            && (exists s, run :: IsRegistered(w.agent, s, run) && IsAbout(w.agent, run, e.sessionKey, e.runId)) ==>
              exists s, run, id ::
                && IsRegistered(w.agent, s, run) && IsAbout(w.agent, run, e.sessionKey, e.runId)
                && StartsAnswer(w, Step(w, e), e, s, run, id)
  {
    hide AgentInvariant, IsRegistered, IsAbout, FindBySessionKey, Remove, StopReasonFor;
    FoundIff(w.agent, w.reasons, e.sessionKey, e.runId);
    ReasonIsTold(e.state);
    StepAgent(w, e);
    ChatEndCalls(w, e);
    var found := FindBySessionKey(w.agent, w.agent.pendingPrompts, e.sessionKey, e.runId);
    if found.None? || e.sessionKey == "" {
      SpawnNothing(w);
    } else {
      RemoveOnlyRemoves(w.agent, found.value.sessionId);
      var t := OnChatEnd(w.agent, e.sessionKey, e.runId, e.state, e.hasMessage).tasks[0];
      assert t in OnChatEnd(w.agent, e.sessionKey, e.runId, e.state, e.hasMessage).tasks;
      var id :| id in Step(w, e).tasks && id !in w.tasks && Step(w, e).tasks[id] == t;
      assert StartsAnswer(w, Step(w, e), e, found.value.sessionId, found.value.run, id);
    }
  }

  ghost predicate StartsAnswer(w: World, after: World, e: Event, sessionId: string, run: string, id: nat)
    requires e.ChatEnds?
  {
    && id in after.tasks && id !in w.tasks
    && (if e.hasMessage && e.state.Final? then
          after.agent == w.agent && after.tasks[id] == ShowingFinalText(sessionId, run, ReasonTold(e.state))
        else
          && after.tasks[id] == Finishing(run, ReasonTold(e.state), None)
          && forall s, r :: IsRegistered(after.agent, s, r) <==> s != sessionId && IsRegistered(w.agent, s, r))
  }

  lemma ReasonIsTold(state: ChatState)
    ensures StopReasonFor(state) == ReasonTold(state)
  {
  }

  // ----- which step answers which prompt -----

  /** The step gives this answer to this prompt. */
  ghost predicate AnswersNow(w: World, e: Event, run: string, outcome: Outcome) {
    && e.Replies? && e.task in w.tasks
    && match w.tasks[e.task]
       case Finishing(finished, reason, _) => finished == run && outcome == Resolved(reason)
       case Cancelling(_, cancelled) => cancelled == run && outcome == Resolved(Cancelled)
       case Sending(sessionId, sent, mayRetry) =>
         && sent == run && outcome == SendFailed && e.reply.SendFails?
         && !(mayRetry && e.reply.isScopeRejection)
         && !(e.reply.isGatewayClose && IsRegistered(w.agent, sessionId, run))
       case Asking(_, sessionId, asked, _) =>
         MayReject(w, e, Settled(run, outcome)) && (e.reply.WaitSays? ==> IsRegistered(w.agent, sessionId, asked))
       case _ => false
  }

  /** A step gives an answer exactly under these conditions, and never more than one. */
  lemma AnswersIff(w: World, e: Event, run: string, outcome: Outcome)
    requires Invariant(w)
    ensures var before, after := w.agent.settled, Step(w, e).agent.settled;
            && (after == before + [Settled(run, outcome)] <==> AnswersNow(w, e, run, outcome))
            && (after == before || exists r, o :: after == before + [Settled(r, o)])
  {
    hide Step, Resume, AgentInvariant, EndedAreOver, TaskInvariant, AnswersNow;
    SettledByReply(w, e);
    if e.Replies? && e.task in w.tasks {
      ResumeAnswersIff(w, e, run, outcome);
    } else {
      assert !AnswersNow(w, e, run, outcome) by {
        NoReplyNoAnswer(w, e, run, outcome);
      }
      LongerIsOther(w.agent.settled, Settled(run, outcome));
    }
  }

  lemma NoReplyNoAnswer(w: World, e: Event, run: string, outcome: Outcome)
    requires !(e.Replies? && e.task in w.tasks)
    ensures !AnswersNow(w, e, run, outcome)
  {
  }

  lemma LongerIsOther(settled: seq<Settled>, s: Settled)
    ensures settled != settled + [s]
  {
    assert |settled + [s]| == |settled| + 1;
  }

  lemma OnlyThisOne(settled: seq<Settled>, s: Settled, t: Settled)
    ensures settled + [s] == settled + [t] <==> s == t
  {
    assert (settled + [s])[|settled|] == s && (settled + [t])[|settled|] == t;
  }

  lemma ResumeAnswersIff(w: World, e: Event, run: string, outcome: Outcome)
    requires Invariant(w) && e.Replies? && e.task in w.tasks
    ensures var before, after := w.agent.settled, Resume(w.agent, w.tasks[e.task], e.reply).agent.settled;
            && (after == before + [Settled(run, outcome)] <==> AnswersNow(w, e, run, outcome))
            && (after == before || exists r, o :: after == before + [Settled(r, o)])
  {
    hide Lookup, Loop, DeleteEntry, AgentInvariant, EndedAreOver, MayReject, Answered, IsRegistered, TaskInvariant;
    var a, settled, s := w.agent, w.agent.settled, Settled(run, outcome);
    LongerIsOther(settled, s);
    match w.tasks[e.task]
    case Sending(_, sent, _) => OnlyThisOne(settled, Settled(sent, SendFailed), s);
    case Cancelling(_, cancelled) => OnlyThisOne(settled, Settled(cancelled, Resolved(Cancelled)), s);
    case ShowingFinalText(_, _, _) =>
    case Finishing(finished, reason, _) => OnlyThisOne(settled, Settled(finished, Resolved(reason)), s);
    case Asking(_, _, _, _) => AskAnswersIff(w, e, run, outcome);
    case Returning(rec) => LoopKeepsActive(a, rec);
  }

  /** A question rejects its prompt exactly when the deadline may. */
  lemma AskAnswersIff(w: World, e: Event, run: string, outcome: Outcome)
    requires Invariant(w) && e.Replies? && e.task in w.tasks && w.tasks[e.task].Asking?
    ensures var before, after := w.agent.settled, Resume(w.agent, w.tasks[e.task], e.reply).agent.settled;
            && (after == before + [Settled(run, outcome)] <==>
                && MayReject(w, e, Settled(run, outcome))
                && (e.reply.WaitSays? ==> IsRegistered(w.agent, w.tasks[e.task].sessionId, w.tasks[e.task].run)))
            && (after == before || exists r, o :: after == before + [Settled(r, o)])
  {
    hide Resume, AgentInvariant, EndedAreOver, TaskInvariant, MayReject, IsRegistered, ShouldReject;
    var a, task := w.agent, w.tasks[e.task];
    var rejected := Settled(task.run, Disconnected(task.context.reason));
    LongerIsOther(a.settled, Settled(run, outcome));
    OnlyThisOne(a.settled, rejected, Settled(run, outcome));
    AskSettles(a, task, e.reply);
    RejectsIff(w, e);
    RejectsOnlyIt(w, e, Settled(run, outcome));
  }

  lemma RejectsOnlyIt(w: World, e: Event, s: Settled)
    ensures MayReject(w, e, s) ==> s == Settled(w.tasks[e.task].run, Disconnected(w.tasks[e.task].context.reason))
  {
    hide IsRegistered, StampOf;
  }

  lemma AskSettles(a: Agent, task: Task, reply: Reply)
    requires task.Asking?
    ensures Resume(a, task, reply).agent.settled ==
            if reply in {WaitThrows, WaitSays(StillRunning)} && task.reconcile.deadlineExpired
               && ShouldReject(a, task.run, task.context) && task.run in a.prompts
               && IsRegistered(a, a.prompts[task.run].sessionId, task.run)
               && (reply.WaitSays? ==> IsRegistered(a, task.sessionId, task.run))
            then a.settled + [Settled(task.run, Disconnected(task.context.reason))]
            else a.settled
  {
    hide IsRegistered, ShouldReject, DeleteEntry, Lookup;
  }

  lemma RejectsIff(w: World, e: Event)
    requires Invariant(w) && e.Replies? && e.task in w.tasks && w.tasks[e.task].Asking?
    ensures var task := w.tasks[e.task];
            MayReject(w, e, Settled(task.run, Disconnected(task.context.reason))) <==>
            && e.reply in {WaitThrows, WaitSays(StillRunning)} && task.reconcile.deadlineExpired
            && ShouldReject(w.agent, task.run, task.context) && task.run in w.agent.prompts
            && IsRegistered(w.agent, w.agent.prompts[task.run].sessionId, task.run)
  {
    hide IsRegistered, AgentInvariant;
    var task := w.tasks[e.task];
    assert TaskInvariant(task, w.reasons);
    if w.agent.activeDisconnectContext.Some?
       && w.agent.activeDisconnectContext.value.generation == task.context.generation {
      ActiveIsKnown(w.agent, w.reasons);
      KnownIsUnique(w.agent.activeDisconnectContext.value, task.context, w.reasons);
    }
  }

  // ----- what the gateway's word leads to -----

  /** When the gateway says that the run of a waiting prompt is over, the prompt leaves the map and its answer is on
      the way. */
  lemma WordAnswersPrompt(w: World, id: nat, status: RunStatus)
    requires Invariant(w) && id in w.tasks && w.tasks[id].Asking? && status != StillRunning
    requires IsRegistered(w.agent, w.tasks[id].sessionId, w.tasks[id].run)
    ensures var task, after := w.tasks[id], Step(w, Replies(id, WaitSays(status)));
            && !IsRegistered(after.agent, task.sessionId, task.run)
            && exists n, resuming :: n in after.tasks && n !in w.tasks
                                     && after.tasks[n] == Finishing(task.run, EndTurn, resuming)
  {
    hide AgentInvariant, EndedAreOver, TaskInvariant, Spawn, Lookup, Remove;
    var task := w.tasks[id];
    var r := Resume(w.agent, task, WaitSays(status));
    var rest := w.(tasks := w.tasks - {id}, agent := r.agent);
    SpawnAdds(rest, r.tasks);
    SpawnKeepsAgent(rest, r.tasks);
    RemoveOnlyRemoves(w.agent, task.sessionId);
    var after := Step(w, Replies(id, WaitSays(status)));
    assert w.nextTask in after.tasks && after.tasks[w.nextTask] == r.tasks[0];
  }

  /** A reconnect asks about every prompt that was disconnected: it starts a loop that faces all of them. */
  lemma ReconnectAsks(w: World)
    requires Invariant(w) && w.agent.activeDisconnectContext.Some? && w.agent.pendingPrompts != []
    ensures exists id :: && id in Step(w, Reconnect).tasks && id !in w.tasks
                         && FromReconnect(Step(w, Reconnect).tasks[id]) && Step(w, Reconnect).tasks[id].Asking?
                         && forall s, run :: IsRegistered(w.agent, s, run) ==>
                            Faces(Step(w, Reconnect).tasks[id], Entry(s, run))
  {
    hide AgentInvariant, EndedAreOver, TaskInvariant, Spawn, IsRegistered, ToVisit;
    var a, b := w.agent, w.agent.(activeDisconnectContext := None);
    var rec := Reconcile(a.activeDisconnectContext.value.generation, false, a.pendingPrompts, false);
    FirstIsVisited(a, w.reasons);
    var r := OnReconnect(a);
    var before := w.(ended := w.ended + {rec.generation}).(agent := r.agent);
    SpawnAdds(before, r.tasks);
    RegisteredAreListed(a);
    var after := Step(w, Reconnect);
    assert w.nextTask in after.tasks && after.tasks[w.nextTask] == r.tasks[0];
    assert forall e :: e in rec.rest ==> e == rec.rest[0] || e in rec.rest[1..];
    assert forall s, run :: IsRegistered(a, s, run) ==> Faces(after.tasks[w.nextTask], Entry(s, run));
  }

  // ----- causes -----

  /** Event `i` of the run is the end of a chat about this prompt, with this reason. */
  ghost predicate ChatCauses(events: seq<Event>, i: nat, run: string, reason: StopReason) {
    && i < |events| && events[i].ChatEnds? && ReasonTold(events[i].state) == reason
    && var a := Run(events[..i]).agent;
       IsAbout(a, run, events[i].sessionKey, events[i].runId) && exists s :: IsRegistered(a, s, run)
  }

  /** At event `i` the gateway says that the run of this prompt is over. */
  ghost predicate WordCauses(events: seq<Event>, i: nat, run: string) {
    && i < |events| && events[i].Replies? && events[i].reply.WaitSays? && events[i].reply.status != StillRunning
    && var w := Run(events[..i]);
       && events[i].task in w.tasks && w.tasks[events[i].task].Asking? && w.tasks[events[i].task].run == run
       && IsRegistered(w.agent, w.tasks[events[i].task].sessionId, run)
  }

  /** Event `i` cancels the session while it holds this prompt. */
  ghost predicate CancelCauses(events: seq<Event>, i: nat, run: string) {
    i < |events| && events[i].Cancels? && IsRegistered(Run(events[..i]).agent, events[i].sessionId, run)
  }

  ghost predicate HasCause(events: seq<Event>, run: string, reason: StopReason) {
    || (exists i :: ChatCauses(events, i, run, reason))
    || (reason == EndTurn && exists i :: WordCauses(events, i, run))
  }

  ghost predicate CallIsCaused(events: seq<Event>, t: Task) {
    match t
    case Finishing(run, reason, _) => HasCause(events, run, reason)
    case ShowingFinalText(_, run, reason) => HasCause(events, run, reason)
    case Cancelling(_, run) => exists i :: CancelCauses(events, i, run)
    case _ => true
  }

  ghost predicate CallsAreCaused(events: seq<Event>) {
    forall id :: id in Run(events).tasks ==> CallIsCaused(events, Run(events).tasks[id])
  }

  /** What an answer needs: an end of the chat or the gateway's word, a cancellation, a send that failed other than by
      the gateway closing on a registered prompt, or a deadline that may reject. */
  ghost predicate AnswerIsCaused(events: seq<Event>, s: Settled) {
    match s.outcome
    case Resolved(reason) => HasCause(events, s.run, reason)
      || (reason == Cancelled && exists i :: CancelCauses(events, i, s.run))
    case _ => exists i :: 0 <= i < |events| && AnswersNow(Run(events[..i]), events[i], s.run, s.outcome)
  }

  lemma CausesStay(front: seq<Event>, events: seq<Event>, run: string, reason: StopReason)
    requires front <= events
    ensures HasCause(front, run, reason) ==> HasCause(events, run, reason)
    ensures (exists i :: CancelCauses(front, i, run)) ==> exists i :: CancelCauses(events, i, run)
  {
    hide Run, IsRegistered, IsAbout;
    assert forall i :: 0 <= i < |front| ==> front[..i] == events[..i] && front[i] == events[i];
    if i :| ChatCauses(front, i, run, reason) {
      assert ChatCauses(events, i, run, reason);
    }
    if i :| WordCauses(front, i, run) {
      assert WordCauses(events, i, run);
    }
    if i :| CancelCauses(front, i, run) {
      assert CancelCauses(events, i, run);
    }
  }

  lemma CallStaysCaused(front: seq<Event>, events: seq<Event>, t: Task)
    requires front <= events && CallIsCaused(front, t)
    ensures CallIsCaused(events, t)
  {
    hide HasCause, CancelCauses;
    if !t.Returning? {
      CausesStay(front, events, t.run,
        match t case Finishing(_, r, _) => r case ShowingFinalText(_, _, r) => r case _ => EndTurn);
    }
  }

  lemma AnswerStaysCaused(front: seq<Event>, events: seq<Event>, s: Settled)
    requires front <= events && AnswerIsCaused(front, s)
    ensures AnswerIsCaused(events, s)
  {
    hide HasCause, CancelCauses, AnswersNow, Run;
    assert forall i :: 0 <= i < |front| ==> front[..i] == events[..i] && front[i] == events[i];
    CausesStay(front, events, s.run, match s.outcome case Resolved(r) => r case _ => EndTurn);
  }

  /** The calls that a step starts have their cause in that step or in the call they come from. */
  lemma NewCallIsCaused(events: seq<Event>, id: nat)
    requires events != [] && id in Run(events).tasks && CallsAreCaused(events[..|events| - 1])
    ensures CallIsCaused(events, Run(events).tasks[id])
  {
    hide Run, Invariant, CallIsCaused, Step;
    var n := |events| - 1;
    var front, e := events[..n], events[n];
    var w := Run(front);
    EveryRunKeepsInvariant(front);
    LastOf(events);
    if id in w.tasks && Run(events).tasks[id] == w.tasks[id] {
      CallStaysCaused(front, events, w.tasks[id]);
    } else {
      match e
      case Cancels(_) => CancelCallIsCaused(events, id);
      case ChatEnds(_, _, _, _) => ChatCallIsCaused(events, id);
      case Replies(task, reply) =>
        if task in w.tasks {
          ReplyCallIsCaused(events, id);
        } else {
          NoSuchCall(w, task, reply);
        }
      case _ => OtherCallIsCaused(events, id);
    }
  }

  lemma LastOf(events: seq<Event>)
    requires events != []
    ensures Run(events) == Step(Run(events[..|events| - 1]), events[|events| - 1])
  {
    hide Step;
  }

  lemma CancelCallIsCaused(events: seq<Event>, id: nat)
    requires events != [] && events[|events| - 1].Cancels?
    requires var w := Run(events[..|events| - 1]);
             && Invariant(w) && Run(events) == Step(w, events[|events| - 1])
             && id in Run(events).tasks && !(id in w.tasks && Run(events).tasks[id] == w.tasks[id])
    ensures CallIsCaused(events, Run(events).tasks[id])
  {
    hide Run, AgentInvariant, EndedAreOver, TaskInvariant, Spawn, Lookup;
    var n := |events| - 1;
    var w, e := Run(events[..n]), events[n];
    var found := Lookup(w.agent.pendingPrompts, e.sessionId);
    if found.Some? {
      SpawnAdds(w, [Cancelling(e.sessionId, found.value)]);
      assert CancelCauses(events, n, found.value);
    }
  }

  lemma ChatCallIsCaused(events: seq<Event>, id: nat)
    requires events != [] && events[|events| - 1].ChatEnds?
    requires var w := Run(events[..|events| - 1]);
             && Invariant(w) && Run(events) == Step(w, events[|events| - 1])
             && id in Run(events).tasks && !(id in w.tasks && Run(events).tasks[id] == w.tasks[id])
    ensures CallIsCaused(events, Run(events).tasks[id])
  {
    hide Run, AgentInvariant, Step, IsRegistered, IsAbout, FindBySessionKey, Remove;
    var n := |events| - 1;
    var w, e := Run(events[..n]), events[n];
    ChatEndCalls(w, e);
    FoundIff(w.agent, w.reasons, e.sessionKey, e.runId);
    ReasonIsTold(e.state);
    var found := FindBySessionKey(w.agent, w.agent.pendingPrompts, e.sessionKey, e.runId);
    if found.Some? {
      assert ChatCauses(events, n, found.value.run, ReasonTold(e.state));
    }
  }

  lemma ReplyCallIsCaused(events: seq<Event>, id: nat)
    requires events != [] && events[|events| - 1].Replies? && CallsAreCaused(events[..|events| - 1])
    requires var w, e := Run(events[..|events| - 1]), events[|events| - 1];
             && Invariant(w) && Run(events) == Step(w, e) && e.task in w.tasks
             && id in Run(events).tasks && !(id in w.tasks && Run(events).tasks[id] == w.tasks[id])
    ensures CallIsCaused(events, Run(events).tasks[id])
  {
    hide Run, AgentInvariant, EndedAreOver, TaskInvariant, Spawn, Resume, CallIsCaused;
    var n := |events| - 1;
    var w, e := Run(events[..n]), events[n];
    var task := w.tasks[e.task];
    var r := Resume(w.agent, task, e.reply);
    SpawnAdds(w.(tasks := w.tasks - {e.task}, agent := r.agent), r.tasks);
    var t := Run(events).tasks[id];
    assert t in r.tasks;
    CallStaysCaused(events[..n], events, task);
    ResumedCallIsCaused(events, t);
  }

  lemma ResumedCallIsCaused(events: seq<Event>, t: Task)
    requires events != [] && events[|events| - 1].Replies?
    requires var w, e := Run(events[..|events| - 1]), events[|events| - 1];
             && e.task in w.tasks && t in Resume(w.agent, w.tasks[e.task], e.reply).tasks
             && CallIsCaused(events, w.tasks[e.task])
    ensures CallIsCaused(events, t)
  {
    hide Run, HasCause, CancelCauses, IsRegistered, Loop, Remove, ShouldReject;
    var n := |events| - 1;
    var w, e := Run(events[..n]), events[n];
    var task := w.tasks[e.task];
    match task
    case Asking(rec, sessionId, run, context) =>
      if t.Finishing? {
        assert WordCauses(events, n, run);
        WordIsCause(events, n, run);
      }
    case Returning(rec) => LoopOnlyAsks(w.agent, rec);
    case _ =>
  }

  lemma WordIsCause(events: seq<Event>, i: nat, run: string)
    requires WordCauses(events, i, run)
    ensures HasCause(events, run, EndTurn)
  {
    hide WordCauses, ChatCauses;
  }

  lemma {:induction false} LoopOnlyAsks(a: Agent, rec: Reconcile)
    ensures forall t :: t in Loop(a, rec).tasks ==> t.Asking?
    decreases |rec.rest|
  {
    hide ToVisit;
    if rec.rest != [] {
      LoopOnlyAsks(a, rec.(rest := rec.rest[1..]));
    }
  }

  lemma OtherCallIsCaused(events: seq<Event>, id: nat)
    requires events != []
    requires var w, e := Run(events[..|events| - 1]), events[|events| - 1];
             && !e.Cancels? && !e.ChatEnds? && !e.Replies?
             && Invariant(w) && Run(events) == Step(w, e)
             && id in Run(events).tasks && !(id in w.tasks && Run(events).tasks[id] == w.tasks[id])
    ensures CallIsCaused(events, Run(events).tasks[id])
  {
    hide Run, AgentInvariant, EndedAreOver, TaskInvariant, Spawn, Loop, OnPrompt, OnDisconnect;
    var n := |events| - 1;
    var w, e := Run(events[..n]), events[n];
    var a := w.agent;
    match e
    case Disconnect(_) =>
    case Reconnect =>
      var g := if a.activeDisconnectContext.Some? then a.activeDisconnectContext.value.generation else 0;
      var ended := if a.activeDisconnectContext.Some? then w.ended + {g} else w.ended;
      LoopOnlyAsks(a.(activeDisconnectContext := None), Reconcile(g, false, a.pendingPrompts, false));
      SpawnAdds(w.(ended := ended).(agent := OnReconnect(a).agent), OnReconnect(a).tasks);
      assert Run(events).tasks[id] in OnReconnect(a).tasks;
    case TimerFires =>
      var g := if a.disconnectTimer.Some? then a.disconnectTimer.value else 0;
      LoopOnlyAsks(ClearTimer(a), Reconcile(g, true, a.pendingPrompts, false));
      SpawnAdds(w.(agent := OnTimer(a).agent), OnTimer(a).tasks);
      assert Run(events).tasks[id] in OnTimer(a).tasks;
    case Prompts(sessionId, sessionKey, run, mayRetry) =>
      SpawnAdds(w.(agent := OnPrompt(a, sessionId, sessionKey, run)), [Sending(sessionId, run, mayRetry)]);
  }

  lemma {:induction false} EveryCallIsCaused(events: seq<Event>)
    ensures CallsAreCaused(events)
  {
    hide Run, CallIsCaused;
    if events == [] {
      NoCallsYet();
    } else {
      EveryCallIsCaused(events[..|events| - 1]);
      forall id | id in Run(events).tasks ensures CallIsCaused(events, Run(events).tasks[id]) {
        NewCallIsCaused(events, id);
      }
    }
  }

  lemma NoCallsYet()
    ensures Run([]).tasks == map[] && Run([]).agent.settled == []
  {
  }

  /** In every run, every answer that a client gets has its cause before it: a chat that ended with that reason, the
      gateway's word that the run is over, a cancellation of the session while it held the prompt, a send that failed,
      or a deadline. */
  lemma {:induction false} AnswersHaveCauses(events: seq<Event>, k: nat)
    requires k < |Run(events).agent.settled|
    ensures AnswerIsCaused(events, Run(events).agent.settled[k])
  {
    hide Run, Step, AnswersNow, AnswerIsCaused, Invariant;
    if events == [] {
      NoCallsYet();
    } else {
      var n := |events| - 1;
      var front, e := events[..n], events[n];
      var w := Run(front);
      EveryRunKeepsInvariant(front);
      LastOf(events);
      var s := Run(events).agent.settled[k];
      AnswersIff(w, e, s.run, s.outcome);
      if k < |w.agent.settled| {
        assert s == w.agent.settled[k];
        AnswersHaveCauses(front, k);
        AnswerStaysCaused(front, events, s);
      } else {
        assert Run(events).agent.settled == w.agent.settled + [s];
        EveryCallIsCaused(front);
        NewAnswerIsCaused(events, s);
      }
    }
  }

  lemma NewAnswerIsCaused(events: seq<Event>, s: Settled)
    requires events != [] && CallsAreCaused(events[..|events| - 1])
    requires AnswersNow(Run(events[..|events| - 1]), events[|events| - 1], s.run, s.outcome)
    ensures AnswerIsCaused(events, s)
  {
    hide Run, HasCause, CancelCauses, IsRegistered, CallIsCaused;
    var n := |events| - 1;
    var w, e := Run(events[..n]), events[n];
    assert AnswersNow(Run(events[..n]), events[n], s.run, s.outcome);
    var task := w.tasks[e.task];
    CallStaysCaused(events[..n], events, task);
    CauseOfCall(events, task);
  }

  lemma CauseOfCall(events: seq<Event>, t: Task)
    requires CallIsCaused(events, t)
    ensures t.Finishing? ==> HasCause(events, t.run, t.stopReason)
    ensures t.Cancelling? ==> exists i :: CancelCauses(events, i, t.run)
  {
    hide HasCause, CancelCauses;
  }

  // ----- which sends have been accepted -----

  /** The step is the gateway's acceptance of this prompt's send, while the prompt is registered. */
  ghost predicate AcceptsNow(w: World, e: Event, run: string) {
    && e.Replies? && e.task in w.tasks && e.reply.Done? && w.tasks[e.task].Sending? && w.tasks[e.task].run == run
    && IsRegistered(w.agent, w.tasks[e.task].sessionId, run)
  }

  ghost predicate AcceptedAt(events: seq<Event>, i: nat, run: string) {
    i < |events| && AcceptsNow(Run(events[..i]), events[i], run)
  }

  lemma {:induction false} StampKeepsFlags(prompts: map<string, PendingPrompt>, entries: seq<Entry>,
      c: DisconnectContext)
    ensures var after := StampAll(prompts, entries, c);
            after.Keys == prompts.Keys && forall run :: run in prompts ==>
              after[run].sendAccepted == prompts[run].sendAccepted
    decreases |entries|
  {
    if entries != [] {
      StampKeepsFlags(Stamp(prompts, entries[0].run, Some(c)), entries[1..], c);
    }
  }

  lemma FlagAfter(w: World, e: Event, run: string)
    requires run in w.agent.prompts
    ensures var after := Step(w, e).agent.prompts;
            run in after && after[run].sendAccepted == (w.agent.prompts[run].sendAccepted || AcceptsNow(w, e, run))
  {
    hide Step, Lookup, FindBySessionKey, SetEntry, DeleteEntry, Loop, StampAll, ShouldReject, IsRegistered;
    StepAgent(w, e);
    match e
    case Disconnect(reason) =>
      StampKeepsFlags(w.agent.prompts, w.agent.pendingPrompts,
        DisconnectContext(w.agent.disconnectGeneration + 1, reason));
    case Reconnect =>
      if w.agent.activeDisconnectContext.Some? {
        StartKeepsActive(w.agent.(activeDisconnectContext := None), w.agent.activeDisconnectContext.value.generation,
          false);
      }
    case TimerFires =>
      if w.agent.disconnectTimer.Some? {
        StartKeepsActive(ClearTimer(w.agent), w.agent.disconnectTimer.value, true);
      }
    case Replies(id, reply) =>
      if id in w.tasks {
        ReplyFlagAfter(w, id, reply, run);
      }
    case _ =>
  }

  lemma ReplyFlagAfter(w: World, id: nat, reply: Reply, run: string)
    requires run in w.agent.prompts && id in w.tasks
    ensures var after := Resume(w.agent, w.tasks[id], reply).agent.prompts;
            run in after && after[run].sendAccepted ==
                            (w.agent.prompts[run].sendAccepted || AcceptsNow(w, Replies(id, reply), run))
  {
    hide Lookup, DeleteEntry, Loop, ShouldReject, IsRegistered;
    if w.tasks[id].Returning? {
      LoopKeepsActive(w.agent, w.tasks[id].reconcile);
    }
  }

  lemma OnlyPromptsMakeKnown(w: World, e: Event, run: string)
    requires run !in w.agent.prompts && run in Step(w, e).agent.prompts
    ensures e.Prompts? && e.run == run && !Step(w, e).agent.prompts[run].sendAccepted
  {
    hide Step, Lookup, FindBySessionKey, SetEntry, DeleteEntry, Loop, StampAll, ShouldReject, IsRegistered;
    StepAgent(w, e);
    match e
    case Disconnect(reason) =>
      StampKeepsFlags(w.agent.prompts, w.agent.pendingPrompts,
        DisconnectContext(w.agent.disconnectGeneration + 1, reason));
    case Reconnect =>
      if w.agent.activeDisconnectContext.Some? {
        StartKeepsActive(w.agent.(activeDisconnectContext := None), w.agent.activeDisconnectContext.value.generation,
          false);
      }
    case TimerFires =>
      if w.agent.disconnectTimer.Some? {
        StartKeepsActive(ClearTimer(w.agent), w.agent.disconnectTimer.value, true);
      }
    case Replies(id, reply) =>
      if id in w.tasks && w.tasks[id].Returning? {
        LoopKeepsActive(w.agent, w.tasks[id].reconcile);
      }
    case _ =>
  }

  lemma {:induction false} AcceptedIsKnown(events: seq<Event>, i: nat, run: string)
    requires AcceptedAt(events, i, run)
    ensures run in Run(events).agent.prompts
    decreases |events|
  {
    hide Run, Step, AgentInvariant, IsRegistered;
    var n := |events| - 1;
    var front := events[..n];
    LastOf(events);
    if i < n {
      assert front[..i] == events[..i] && front[i] == events[i];
      AcceptedIsKnown(front, i, run);
    } else {
      EveryRunKeepsInvariant(front);
      RegisteredIsKnown(Run(front).agent, Run(front).reasons, run);
    }
    FlagAfter(Run(front), events[n], run);
  }

  lemma RegisteredIsKnown(a: Agent, reasons: seq<string>, run: string)
    requires AgentInvariant(a, reasons) && exists s :: IsRegistered(a, s, run)
    ensures run in a.prompts
  {
  }

  /** In every run, a prompt counts as accepted exactly when the gateway accepted its send while it was registered. */
  lemma {:induction false} AcceptedIff(events: seq<Event>, run: string)
    requires run in Run(events).agent.prompts
    ensures Run(events).agent.prompts[run].sendAccepted <==> exists i :: AcceptedAt(events, i, run)
  {
    hide Run, Step, AcceptsNow;
    if events == [] {
      NoPromptsYet();
    } else {
      var n := |events| - 1;
      var front := events[..n];
      LastOf(events);
      assert forall i :: 0 <= i < n ==> front[..i] == events[..i] && front[i] == events[i];
      assert forall i :: 0 <= i < n ==> (AcceptedAt(front, i, run) <==> AcceptedAt(events, i, run));
      assert AcceptedAt(events, n, run) <==> AcceptsNow(Run(front), events[n], run);
      if run in Run(front).agent.prompts {
        AcceptedIff(front, run);
        FlagAfter(Run(front), events[n], run);
      } else {
        OnlyPromptsMakeKnown(Run(front), events[n], run);
        if i: nat :| AcceptedAt(events, i, run) {
          if i < n {
            AcceptedIsKnown(front, i, run);
          } else {
            PromptAcceptsNothing(Run(front), events[n], run);
          }
        }
      }
    }
  }

  lemma PromptAcceptsNothing(w: World, e: Event, run: string)
    requires e.Prompts?
    ensures !AcceptsNow(w, e, run)
  {
  }

  lemma NoPromptsYet()
    ensures Run([]).agent.prompts == map[]
  {
  }
}
