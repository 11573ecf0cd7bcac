/** When the ACP bridge forgets a prompt (src/acp/translator.ts): exactly which step of a run does it. */
module AcpForgotten {
  import opened Common
  import opened AcpAgent
  import opened AcpRuns
  import opened AcpLosses

  ghost predicate NoCall(tasks: map<nat, Task>, run: string) {
    forall id :: id in tasks ==> !BelongsTo(tasks[id], run)
  }

  ghost predicate Unsettled(a: Agent, run: string) {
    forall i :: 0 <= i < |a.settled| ==> a.settled[i].run != run
  }

  /** A call of a prompt that ends here without settling it: its send is accepted, a question about it is answered, or
      the client rejects its final text. */
  predicate EndsUnsettled(task: Task, reply: Reply) {
    || (task.Sending? && reply.Done?)
    || (task.Asking? && (reply.WaitThrows? || reply.WaitSays?))
    || (task.ShowingFinalText? && reply.UpdateFails?)
  }

  /** The steps that forget an unsettled prompt: another prompt of its session overwrites it when it has no call left;
      a call of another prompt deletes it when it has no call left; or it is no longer registered and its last call
      ends. */
  ghost predicate Forgets(w: World, e: Event, run: string) {
    && run in w.agent.prompts && Unsettled(w.agent, run)
    && match e
       case Prompts(sessionId, _, newRun, _) =>
         newRun !in w.agent.prompts && IsRegistered(w.agent, sessionId, run) && NoCall(w.tasks, run)
       case Replies(id, reply) =>
         && id in w.tasks && NoCall(w.tasks - {id}, run)
         && (if BelongsTo(w.tasks[id], run) then EndsUnsettled(w.tasks[id], reply) && HasLeft(w.agent, run)
             else exists sessionId :: IsRegistered(w.agent, sessionId, run)
                                      && DeletesBlindly(w.agent, w.tasks[id], reply) == Some(sessionId))
       case _ => false
  }

  // ----- resumed calls -----

  ghost predicate SilentAfter(r: Resumed, run: string) {
    HasLeft(r.agent, run) && Unsettled(r.agent, run) && forall i :: 0 <= i < |r.tasks| ==> !BelongsTo(r.tasks[i], run)
  }

  lemma RegisteredHasNotLeft(a: Agent, sessionId: string, run: string)
    requires IsRegistered(a, sessionId, run)
    ensures !HasLeft(a, run)
  {
  }

  lemma SettledIsNotUnsettled(a: Agent, run: string, outcome: Outcome)
    ensures !Unsettled(Settle(a, run, outcome), run)
  {
    assert Settle(a, run, outcome).settled[|a.settled|].run == run;
  }

  lemma SameRegistrations(a: Agent, b: Agent, run: string)
    requires a.pendingPrompts == b.pendingPrompts && a.prompts.Keys == b.prompts.Keys && a.settled == b.settled
    ensures HasLeft(a, run) <==> HasLeft(b, run)
    ensures Unsettled(a, run) <==> Unsettled(b, run)
  {
    hide Lookup;
    assert forall s :: IsRegistered(a, s, run) <==> IsRegistered(b, s, run);
  }

  lemma UnansweredForgetsIff(a: Agent, rec: Reconcile, run: string, context: DisconnectContext)
    requires run in a.prompts && Unsettled(a, run) && EntriesAreKnown(a)
    ensures SilentAfter(Unanswered(a, rec, run, context), run) <==> HasLeft(a, run)
  {
    hide Lookup, ShouldReject, Remove, HasLeft, Unsettled, EntriesAreKnown;
    var r := Unanswered(a, rec, run, context);
    SameRegistrations(a, ClearStamp(a, run, context), run);
    var sessionId := a.prompts[run].sessionId;
    if IsRegistered(a, sessionId, run) {
      RegisteredHasNotLeft(a, sessionId, run);
      SettledIsNotUnsettled(Remove(a, sessionId), run, Disconnected(context.reason));
    }
  }

  /** The end of a prompt's own call leaves it silent exactly when the prompt had left and the call does not settle
      it. */
  lemma OwnCallForgetsIff(a: Agent, task: Task, reply: Reply, run: string)
    requires run in a.prompts && Unsettled(a, run) && EntriesAreKnown(a) && BelongsTo(task, run)
    ensures SilentAfter(Resume(a, task, reply), run) <==> EndsUnsettled(task, reply) && HasLeft(a, run)
  {
    hide Lookup, Unanswered, Remove, HasLeft, Unsettled, Loop;
    match task
    case Sending(sessionId, _, mayRetry) =>
      SameRegistrations(a, OnSendAccepted(a, sessionId, run), run);
      SettledIsNotUnsettled(Remove(a, sessionId), run, SendFailed);
      if IsRegistered(a, sessionId, run) {
        RegisteredHasNotLeft(a, sessionId, run);
      }
      SendForgetsIff(a, task, reply, run);
    case Cancelling(sessionId, _) =>
      SettledIsNotUnsettled(Remove(a, sessionId), run, Resolved(Cancelled));
    case ShowingFinalText(sessionId, _, stopReason) =>
      if !reply.UpdateFails? {
        assert Resume(a, task, reply).tasks[0] == Finishing(run, stopReason, None);
      }
    case Finishing(_, stopReason, _) =>
      SettledIsNotUnsettled(a, run, Resolved(stopReason));
    case Asking(rec, sessionId, _, context) =>
      UnansweredForgetsIff(a, rec, run, context);
      AskForgetsIff(a, task, reply, run);
  }

  lemma SendForgetsIff(a: Agent, task: Task, reply: Reply, run: string)
    requires task.Sending? && task.run == run && run in a.prompts && Unsettled(a, run)
    ensures SilentAfter(Resume(a, task, reply), run) <==> reply.Done? && HasLeft(a, run)
  {
    hide Lookup, Remove, HasLeft, Unsettled;
    SameRegistrations(a, OnSendAccepted(a, task.sessionId, run), run);
    SettledIsNotUnsettled(Remove(a, task.sessionId), run, SendFailed);
    if IsRegistered(a, task.sessionId, run) {
      RegisteredHasNotLeft(a, task.sessionId, run);
    }
    var r := Resume(a, task, reply);
    if r.tasks != [] {
      assert BelongsTo(r.tasks[0], run);
    }
  }

  lemma AskForgetsIff(a: Agent, task: Task, reply: Reply, run: string)
    requires task.Asking? && task.run == run && run in a.prompts && Unsettled(a, run) && EntriesAreKnown(a)
    ensures SilentAfter(Resume(a, task, reply), run) <==> (reply.WaitThrows? || reply.WaitSays?) && HasLeft(a, run)
  {
    hide Lookup, Remove, HasLeft, Unsettled, Unanswered, EntriesAreKnown;
    UnansweredForgetsIff(a, task.reconcile, run, task.context);
    var r := Resume(a, task, reply);
    if IsRegistered(a, task.sessionId, run) {
      RegisteredHasNotLeft(a, task.sessionId, run);
    }
    if !reply.WaitThrows? && !reply.WaitSays? {
      assert BelongsTo(r.tasks[0], run);
    } else if reply.WaitSays? && IsRegistered(a, task.sessionId, run) && reply.status != StillRunning {
      assert BelongsTo(r.tasks[0], run);
    }
  }

  /** A call of another prompt leaves a registered one silent exactly when it deletes it blindly. */
  lemma OtherCallForgetsIff(a: Agent, task: Task, reply: Reply, reasons: seq<string>, sessionId: string, run: string)
    requires AgentInvariant(a, reasons) && TaskInvariant(task, reasons)
    requires Unsettled(a, run) && !BelongsTo(task, run) && IsRegistered(a, sessionId, run)
    ensures SilentAfter(Resume(a, task, reply), run) <==> DeletesBlindly(a, task, reply) == Some(sessionId)
  {
    hide AgentInvariant, TaskInvariant, Resume, IsRegistered, DeletesBlindly;
    var r := Resume(a, task, reply);
    OtherPromptIsRemovedIff(a, task, reply, reasons, sessionId, run);
    if DeletesBlindly(a, task, reply) == Some(sessionId) {
      OnlyItsSession(a, reasons, sessionId, run);
      forall s ensures !IsRegistered(r.agent, s, run) {
        if IsRegistered(r.agent, s, run) {
          ResumeOnlyRemoves(a, task, reply, s, run);
        }
      }
      BlindCallIsOthers(a, task, reply, run);
    }
  }

  lemma OnlyItsSession(a: Agent, reasons: seq<string>, sessionId: string, run: string)
    requires AgentInvariant(a, reasons) && IsRegistered(a, sessionId, run)
    ensures run in a.prompts && forall s :: IsRegistered(a, s, run) ==> s == sessionId
  {
    hide Lookup;
  }

  lemma BlindCallIsOthers(a: Agent, task: Task, reply: Reply, run: string)
    requires DeletesBlindly(a, task, reply).Some? && !BelongsTo(task, run) && Unsettled(a, run)
    ensures var r := Resume(a, task, reply);
            && r.agent.prompts == a.prompts && Unsettled(r.agent, run)
            && forall i :: 0 <= i < |r.tasks| ==> !BelongsTo(r.tasks[i], run)
  {
    hide IsRegistered, DeleteEntry;
  }

  // ----- every step -----

  lemma ReplyForgetsIff(w: World, id: nat, reply: Reply, run: string)
    requires Invariant(w) && !Forgotten(w, run) && id in w.tasks
    ensures Forgotten(Step(w, Replies(id, reply)), run) <==> Forgets(w, Replies(id, reply), run)
  {
    hide AgentInvariant, TaskInvariant, EndedAreOver, Resume, Spawn, IsRegistered, BelongsTo, HasLeft, EndsUnsettled,
         DeletesBlindly;
    var task := w.tasks[id];
    var r := Resume(w.agent, task, reply);
    var rest := w.(tasks := w.tasks - {id}, agent := r.agent);
    AfterReply(w, id, reply, run);
    ResumeKnows(w.agent, task, reply);
    if !Unsettled(w.agent, run) {
      StaysSettled(w.agent, task, reply, run);
    } else if run !in w.agent.prompts {
      UnknownHasNotLeft(r.agent, run);
    } else if BelongsTo(task, run) {
      KnownEntries(w.agent, w.reasons);
      OwnCallForgetsIff(w.agent, task, reply, run);
    } else if HasLeft(w.agent, run) {
      var other :| other in w.tasks && BelongsTo(w.tasks[other], run);
      assert other in w.tasks - {id} && BelongsTo((w.tasks - {id})[other], run);
      assert !NoCall(w.tasks - {id}, run);
    } else {
      var sessionId := SomeSession(w.agent, run);
      OnlyItsSession(w.agent, w.reasons, sessionId, run);
      OtherCallForgetsIff(w.agent, task, reply, w.reasons, sessionId, run);
    }
  }

  lemma AfterReply(w: World, id: nat, reply: Reply, run: string)
    requires Invariant(w) && id in w.tasks
    ensures Forgotten(Step(w, Replies(id, reply)), run)
            <==> SilentAfter(Resume(w.agent, w.tasks[id], reply), run) && NoCall(w.tasks - {id}, run)
  {
    hide AgentInvariant, TaskInvariant, EndedAreOver, Resume, Spawn, BelongsTo, HasLeft;
    var r := Resume(w.agent, w.tasks[id], reply);
    var rest := w.(tasks := w.tasks - {id}, agent := r.agent);
    var after := Spawn(rest, r.tasks);
    SpawnKeepsAgent(rest, r.tasks);
    SpawnAdds(rest, r.tasks);
    assert Step(w, Replies(id, reply)) == after;
    if NoCall(after.tasks, run) {
      forall i | 0 <= i < |r.tasks| ensures !BelongsTo(r.tasks[i], run) {
        assert rest.nextTask + i in after.tasks;
      }
    }
  }

  lemma ResumeKnows(a: Agent, task: Task, reply: Reply)
    ensures Resume(a, task, reply).agent.prompts.Keys == a.prompts.Keys
  {
    hide Lookup, DeleteEntry, ShouldReject, IsRegistered, ToVisit;
    if task.Returning? {
      LoopEnds(a, task.reconcile);
    }
  }

  lemma StaysSettled(a: Agent, task: Task, reply: Reply, run: string)
    requires !Unsettled(a, run)
    ensures !Unsettled(Resume(a, task, reply).agent, run)
  {
    hide Resume;
    SettledByResume(a, task, reply);
    var i :| 0 <= i < |a.settled| && a.settled[i].run == run;
    var after := Resume(a, task, reply).agent.settled;
    assert after[i] == a.settled[i];
  }

  lemma UnknownHasNotLeft(a: Agent, run: string)
    requires run !in a.prompts
    ensures !HasLeft(a, run)
  {
  }

  lemma KnownEntries(a: Agent, reasons: seq<string>)
    requires AgentInvariant(a, reasons)
    ensures EntriesAreKnown(a)
  {
  }

  lemma SomeSession(a: Agent, run: string) returns (sessionId: string)
    requires run in a.prompts && !HasLeft(a, run)
    ensures IsRegistered(a, sessionId, run)
  {
    sessionId :| IsRegistered(a, sessionId, run);
  }

  /** A new prompt forgets the one it overwrites. */
  lemma PromptForgetsIff(w: World, e: Event, run: string)
    requires Invariant(w) && !Forgotten(w, run) && e.Prompts?
    ensures Forgotten(Step(w, e), run) <==> Forgets(w, e, run)
  {
    hide AgentInvariant, TaskInvariant, EndedAreOver, Spawn, IsRegistered, BelongsTo, HasLeft, OnPrompt;
    if e.run !in w.agent.prompts {
      var task := Sending(e.sessionId, e.run, e.mayRetry);
      var next := w.(agent := OnPrompt(w.agent, e.sessionId, e.sessionKey, e.run));
      SpawnKeepsAgent(next, [task]);
      SpawnAdds(next, [task]);
      var after := Spawn(next, [task]);
      assert Step(w, e) == after;
      PromptRegisters(w.agent, e, run);
      if run == e.run {
        RegisteredHasNotLeft(after.agent, e.sessionId, run);
      } else {
        NewCallIsNot(task, run);
        LeavesByPrompt(w.agent, e, w.reasons, run);
        assert NoCall(after.tasks, run) <==> NoCall(w.tasks, run);
      }
    }
  }

  lemma PromptRegisters(a: Agent, e: Event, run: string)
    requires e.Prompts?
    ensures var b := OnPrompt(a, e.sessionId, e.sessionKey, e.run);
            && IsRegistered(b, e.sessionId, e.run) && b.settled == a.settled
               && b.prompts.Keys == a.prompts.Keys + {e.run}
            && (run != e.run ==> forall s :: IsRegistered(b, s, run) <==> s != e.sessionId && IsRegistered(a, s, run))
  {
    hide Lookup;
  }

  lemma LeavesByPrompt(a: Agent, e: Event, reasons: seq<string>, run: string)
    requires AgentInvariant(a, reasons) && e.Prompts? && run != e.run && e.run !in a.prompts
    ensures HasLeft(OnPrompt(a, e.sessionId, e.sessionKey, e.run), run)
            <==> HasLeft(a, run) || IsRegistered(a, e.sessionId, run)
    ensures IsRegistered(a, e.sessionId, run) ==> run in a.prompts
  {
    hide Lookup, OnPrompt, AgentInvariant;
    PromptRegisters(a, e, run);
    if IsRegistered(a, e.sessionId, run) {
      OnlyItsSession(a, reasons, e.sessionId, run);
    }
  }

  /** The other steps forget nothing: they add calls, and a prompt whose chat has ended has one of them. */
  lemma OtherStepsForgetNothing(w: World, e: Event, run: string)
    requires Invariant(w) && !Forgotten(w, run) && !e.Prompts? && !e.Replies?
    ensures !Forgotten(Step(w, e), run)
  {
    hide AgentInvariant, TaskInvariant, EndedAreOver, Spawn, IsRegistered, BelongsTo, Lookup, OnDisconnect, OnReconnect,
         OnTimer, OnChatEnd;
    var after := Step(w, e);
    StepAgent(w, e);
    SettledByReply(w, e);
    CallsStay(w, e);
    if Forgotten(after, run) {
      KnownBefore(w, e, run);
      forall s ensures !IsRegistered(w.agent, s, run) {
        if IsRegistered(w.agent, s, run) {
          StaysRegistered(w, e, s, run);
        }
      }
    }
  }

  lemma CallsStay(w: World, e: Event)
    requires Invariant(w) && !e.Prompts? && !e.Replies?
    ensures forall id :: id in w.tasks ==> id in Step(w, e).tasks && Step(w, e).tasks[id] == w.tasks[id]
  {
    hide AgentInvariant, TaskInvariant, EndedAreOver, Spawn, Lookup, OnDisconnect, OnReconnect, OnTimer, OnChatEnd;
    match e
    case Disconnect(_) =>
    case Reconnect =>
      var ended := if w.agent.activeDisconnectContext.Some?
        then w.ended + {w.agent.activeDisconnectContext.value.generation} else w.ended;
      SpawnAdds(w.(ended := ended).(agent := OnReconnect(w.agent).agent), OnReconnect(w.agent).tasks);
    case TimerFires => SpawnAdds(w.(agent := OnTimer(w.agent).agent), OnTimer(w.agent).tasks);
    case Cancels(sessionId) =>
      if Lookup(w.agent.pendingPrompts, sessionId).Some? {
        SpawnAdds(w, [Cancelling(sessionId, Lookup(w.agent.pendingPrompts, sessionId).value)]);
      }
    case ChatEnds(_, _, _, _) =>
      var r := OnChatEnd(w.agent, e.sessionKey, e.runId, e.state, e.hasMessage);
      SpawnAdds(w.(agent := r.agent), r.tasks);
  }

  lemma KnownBefore(w: World, e: Event, run: string)
    requires !e.Prompts? && !e.Replies? && run in AgentAfter(w, e).prompts
    ensures run in w.agent.prompts
  {
    hide StampAll, Loop, DeleteEntry, FindBySessionKey;
    match e
    case Disconnect(reason) =>
      StampAllSets(w.agent.prompts, w.agent.pendingPrompts,
        DisconnectContext(w.agent.disconnectGeneration + 1, reason));
    case Reconnect =>
      if w.agent.activeDisconnectContext.Some? {
        StartKeepsActive(w.agent.(activeDisconnectContext := None), w.agent.activeDisconnectContext.value.generation,
          false);
      }
    case TimerFires =>
      if w.agent.disconnectTimer.Some? {
        StartKeepsActive(ClearTimer(w.agent), w.agent.disconnectTimer.value, true);
      }
    case _ =>
  }

  lemma StaysRegistered(w: World, e: Event, sessionId: string, run: string)
    requires Invariant(w) && !e.Prompts? && !e.Replies? && IsRegistered(w.agent, sessionId, run)
    ensures IsRegistered(AgentAfter(w, e), sessionId, run) || exists id ::
            id in Step(w, e).tasks && BelongsTo(Step(w, e).tasks[id], run)
  {
    hide AgentInvariant, TaskInvariant, EndedAreOver, StampAll, StartReconcile, Lookup, Spawn, FindBySessionKey, Remove;
    match e
    case Disconnect(_) =>
    case Reconnect =>
      if w.agent.activeDisconnectContext.Some? {
        StartKeepsActive(w.agent.(activeDisconnectContext := None), w.agent.activeDisconnectContext.value.generation,
          false);
      }
    case TimerFires =>
      if w.agent.disconnectTimer.Some? {
        StartKeepsActive(ClearTimer(w.agent), w.agent.disconnectTimer.value, true);
      }
    case Cancels(_) =>
    case ChatEnds(_, _, _, _) => ChatEndKeeps(w, e, sessionId, run);
  }

  lemma ChatEndKeeps(w: World, e: Event, sessionId: string, run: string)
    requires Invariant(w) && e.ChatEnds? && IsRegistered(w.agent, sessionId, run)
    ensures IsRegistered(AgentAfter(w, e), sessionId, run) || exists id ::
            id in Step(w, e).tasks && BelongsTo(Step(w, e).tasks[id], run)
  {
    hide AgentInvariant, TaskInvariant, EndedAreOver, Spawn, FindBySessionKey, Remove;
    var found := FindBySessionKey(w.agent, w.agent.pendingPrompts, e.sessionKey, e.runId);
    if found.Some? && found.value.sessionId == sessionId && e.sessionKey != ""
       && !(e.hasMessage && e.state.Final?) {
      EntryIsRegistered(w.agent, w.reasons, e);
      var r := OnChatEnd(w.agent, e.sessionKey, e.runId, e.state, e.hasMessage);
      SpawnAdds(w.(agent := r.agent), r.tasks);
      assert w.nextTask in Step(w, e).tasks
        && Step(w, e).tasks[w.nextTask] == Finishing(run, StopReasonFor(e.state), None);
    } else if found.Some? {
      RemoveOnlyRemoves(w.agent, found.value.sessionId);
    }
  }

  lemma EntryIsRegistered(a: Agent, reasons: seq<string>, e: Event)
    requires AgentInvariant(a, reasons) && e.ChatEnds?
    requires FindBySessionKey(a, a.pendingPrompts, e.sessionKey, e.runId).Some?
    ensures var found := FindBySessionKey(a, a.pendingPrompts, e.sessionKey, e.runId).value;
            IsRegistered(a, found.sessionId, found.run)
  {
    hide FindBySessionKey, Lookup;
    FoundIsInList(a, a.pendingPrompts, e.sessionKey, e.runId);
    ListedIsFound(a.pendingPrompts, FindBySessionKey(a, a.pendingPrompts, e.sessionKey, e.runId).value);
  }

  /** A step makes a prompt forgotten exactly when it overwrites it, deletes it blindly or ends its last call
      unsettled. */
  lemma StepForgetsIff(w: World, e: Event, run: string)
    requires Invariant(w) && !Forgotten(w, run)
    ensures Forgotten(Step(w, e), run) <==> Forgets(w, e, run)
  {
    hide Step, Forgotten, Invariant, Unsettled;
    match e
    case Prompts(_, _, _, _) => PromptForgetsIff(w, e, run);
    case Replies(id, reply) =>
      if id in w.tasks {
        ReplyForgetsIff(w, id, reply, run);
      } else {
        NoSuchCall(w, id, reply);
      }
    case _ => OtherStepsForgetNothing(w, e, run);
  }

  /** In every run, a prompt is forgotten at the end exactly when some step of the run forgot it. */
  lemma {:induction false} ForgottenIffSomeStepForgets(events: seq<Event>, run: string)
    ensures Forgotten(Run(events), run) <==> exists i :: 0 <= i < |events| && Forgets(Run(events[..i]), events[i], run)
  {
    hide Step, Forgotten, Forgets, Invariant, Run;
    if events == [] {
      NothingForgotten(run);
    } else {
      var n := |events| - 1;
      var front := events[..n];
      ForgottenIffSomeStepForgets(front, run);
      EveryRunKeepsInvariant(front);
      LastStep(events);
      assert forall i :: 0 <= i <= n ==> front[..i] == events[..i];
      assert forall i :: 0 <= i < n ==> front[i] == events[i];
      if Forgotten(Run(front), run) {
        ForgottenForever(Run(front), events[n], run);
        var i :| 0 <= i < n && Forgets(Run(front[..i]), front[i], run);
        assert Forgets(Run(events[..i]), events[i], run);
      } else {
        StepForgetsIff(Run(front), events[n], run);
        assert front == events[..n];
        forall i | 0 <= i < n ensures !Forgets(Run(events[..i]), events[i], run) {
          assert !Forgets(Run(front[..i]), front[i], run);
        }
      }
    }
  }

  lemma LastStep(events: seq<Event>)
    requires events != []
    ensures Run(events) == Step(Run(events[..|events| - 1]), events[|events| - 1])
  {
    hide Step;
  }

  lemma NothingForgotten(run: string)
    ensures !Forgotten(Run([]), run)
  {
  }

  // ----- a prompt forgotten without any cancellation -----

  function Sent(accepted: bool): World {
    World(Agent([Entry("s", "run1")], map["run1" := PendingPrompt("s", "key", accepted, None)], None, None, 0, []),
          if accepted then map[] else map[0 := Sending("s", "run1", false)], 1, [], {})
  }

  /** A second prompt of a session overwrites the first, whose send has returned: the first is forgotten. */
  lemma SomePromptIsOverwritten() returns (events: seq<Event>)
    ensures Forgotten(Run(events), "run1")
  {
    hide Step, Run, Forgotten;
    var second := Prompts("s", "key", "run2", false);
    events := [Prompts("s", "key", "run1", false), Replies(0, Done), second];
    var w := FirstPrompt("s", "key", "run1");
    SendReturns();
    RunSnoc([], events[0]);
    RunSnoc([events[0]], events[1]);
    RunSnoc([events[0], events[1]], second);
    assert [] + [events[0]] == [events[0]] && [events[0]] + [events[1]] == [events[0], events[1]];
    assert events == [events[0], events[1]] + [second];
    assert Run([]) == Initial() by {
      InitialRun();
    }
    EveryRunKeepsInvariant([events[0], events[1]]);
    SecondForgetsFirst();
    if !Forgotten(Sent(true), "run1") {
      StepForgetsIff(Sent(true), second, "run1");
    } else {
      ForgottenForever(Sent(true), second, "run1");
    }
  }

  lemma InitialRun()
    ensures Run([]) == Initial()
  {
  }

  lemma SendReturns()
    ensures Step(Sent(false), Replies(0, Done)) == Sent(true)
  {
    var w := Sent(false);
    assert IsRegistered(w.agent, "s", "run1");
    assert w.tasks - {0} == map[];
    SpawnNothing(Sent(true));
  }

  lemma SecondForgetsFirst()
    ensures Forgets(Sent(true), Prompts("s", "key", "run2", false), "run1")
  {
    assert "run1"[3] != "run2"[3];
    assert IsRegistered(Sent(true).agent, "s", "run1");
  }

  // ----- a prompt forgotten because the client rejects its final text -----

  function Showing(overwritten: bool): World {
    var showing := ShowingFinalText("s", "run1", EndTurn);
    var first, second := PendingPrompt("s", "key", true, None), PendingPrompt("s", "key", false, None);
    if overwritten then
      World(Agent([Entry("s", "run2")], map["run1" := first, "run2" := second], None, None, 0, []),
            map[1 := showing, 2 := Sending("s", "run2", false)], 3, [], {})
    else
      World(Agent([Entry("s", "run1")], map["run1" := first], None, None, 0, []), map[1 := showing], 2, [], {})
  }

  lemma FinalTextIsShown()
    ensures Step(Sent(true), ChatEnds("key", Some("run1"), Final(None), true)) == Showing(false)
  {
    var w := Sent(true);
    assert Answers(w.agent, Entry("s", "run1"), "key", Some("run1"));
    var r := Resumed(w.agent, [ShowingFinalText("s", "run1", EndTurn)]);
    assert OnChatEnd(w.agent, "key", Some("run1"), Final(None), true) == r;
    OneTask(w, r, ShowingFinalText("s", "run1", EndTurn));
  }

  lemma SecondOverwrites()
    ensures Step(Showing(false), Prompts("s", "key", "run2", false)) == Showing(true)
  {
    assert "run1"[3] != "run2"[3];
    assert [Entry("s", "run1")][1..] == [];
    assert SetEntry([Entry("s", "run1")], "s", "run2") == [Entry("s", "run2")];
    var w := Showing(false);
    OneTask(w, Resumed(OnPrompt(w.agent, "s", "key", "run2"), [Sending("s", "run2", false)]),
      Sending("s", "run2", false));
  }

  lemma RejectedTextForgets()
    ensures Forgets(Showing(true), Replies(1, UpdateFails), "run1")
  {
    var w := Showing(true);
    assert "run1"[3] != "run2"[3];
    assert (w.tasks - {1}).Keys == {2};
    var entries := [Entry("s", "run2")];
    assert entries[1..] == [];
    assert forall s :: Lookup(entries, s) == if s == "s" then Some("run2") else Lookup(entries[1..], s);
    assert Unsettled(w.agent, "run1") && HasLeft(w.agent, "run1");
  }

  /** The final text of a prompt is being shown while a second prompt overwrites it; the client rejects the text. */
  lemma SomeFinalTextIsRejected() returns (events: seq<Event>)
    ensures Forgotten(Run(events), "run1")
  {
    hide Step, Run, Forgotten;
    events := [Prompts("s", "key", "run1", false), Replies(0, Done), ChatEnds("key", Some("run1"), Final(None), true),
               Prompts("s", "key", "run2", false), Replies(1, UpdateFails)];
    var w := FirstPrompt("s", "key", "run1");
    SendReturns();
    FinalTextIsShown();
    SecondOverwrites();
    RunOfFour(events[..4]);
    assert events == events[..4] + [events[4]];
    RunSnoc(events[..4], events[4]);
    assert Run(events[..4]) == Showing(true);
    EveryRunKeepsInvariant(events[..4]);
    RejectedTextForgets();
    if !Forgotten(Showing(true), "run1") {
      StepForgetsIff(Showing(true), events[4], "run1");
    } else {
      ForgottenForever(Showing(true), events[4], "run1");
    }
  }

  lemma RunOfFour(e: seq<Event>)
    requires |e| == 4
    ensures Run(e) == Step(Step(Step(Step(Initial(), e[0]), e[1]), e[2]), e[3])
  {
    hide Step;
    assert e == [] + [e[0]] + [e[1]] + [e[2]] + [e[3]];
    RunSnoc([], e[0]);
    RunSnoc([] + [e[0]], e[1]);
    RunSnoc([] + [e[0]] + [e[1]], e[2]);
    RunSnoc([] + [e[0]] + [e[1]] + [e[2]], e[3]);
  }
}
