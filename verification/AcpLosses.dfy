/** Prompts that the ACP bridge loses track of (src/acp/translator.ts): when a disconnect leaves a prompt without a
    deadline, and when a call that belongs to one prompt removes another. */
module AcpLosses {
  import opened Common
  import opened AcpAgent
  import opened AcpRuns

  // ----- who still has a deadline -----

  /** A suspended deadline loop of this generation will still look at the entry. */
  predicate LoopVisits(rec: Reconcile, generation: nat, e: Entry) {
    rec.deadlineExpired && rec.generation == generation && e in rec.rest
  }

  predicate Visits(t: Task, generation: nat, e: Entry) {
    match t
    case Asking(rec, sessionId, run, _) =>
      LoopVisits(rec, generation, e)
        || (rec.deadlineExpired && rec.generation == generation && e == Entry(sessionId, run))
    case Returning(rec) => LoopVisits(rec, generation, e)
    case Finishing(_, _, resuming) => resuming.Some? && LoopVisits(resuming.value, generation, e)
    case _ => false
  }

  ghost predicate Visited(tasks: map<nat, Task>, generation: nat, e: Entry) {
    exists id :: id in tasks && Visits(tasks[id], generation, e)
  }

  ghost predicate HasDeadline(w: World, sessionId: string, run: string) {
    w.agent.disconnectTimer.Some? || Visited(w.tasks, w.agent.disconnectGeneration, Entry(sessionId, run))
  }

  /** Registered, and stamped by a disconnect. */
  ghost predicate Waits(a: Agent, sessionId: string, run: string) {
    IsRegistered(a, sessionId, run) && StampOf(a, run).Some?
  }

  /** For every registered prompt with a stamp the timer is armed, or a deadline loop still has to visit it. */
  ghost predicate Covered(w: World) {
    forall sessionId, run :: Waits(w.agent, sessionId, run) ==> HasDeadline(w, sessionId, run)
  }

  /** The end of a loop that keeps nothing and clears the timer, which some other prompt was waiting for. */
  ghost predicate Strands(w: World, e: Event) {
    && e.Replies? && e.task in w.tasks && w.tasks[e.task].Returning?
    && var rec := w.tasks[e.task].reconcile;
    && Loop(w.agent, rec).tasks == []
    && !rec.keepDisconnectTimer && rec.generation == w.agent.disconnectGeneration
    && exists sessionId, run :: Waits(w.agent, sessionId, run)
                                && !Visited(w.tasks - {e.task}, w.agent.disconnectGeneration, Entry(sessionId, run))
  }

  // ----- what spawning does to the suspended calls -----

  lemma {:induction false} SpawnAdds(w: World, tasks: seq<Task>)
    requires forall id :: id in w.tasks ==> id < w.nextTask
    ensures var after := Spawn(w, tasks).tasks;
            && (forall id :: id in w.tasks ==> id in after && after[id] == w.tasks[id])
            && (forall id :: w.nextTask <= id < w.nextTask + |tasks| ==>
                  id in after && after[id] == tasks[id - w.nextTask])
            && (forall id :: id in after ==>
                  id in w.tasks || (w.nextTask <= id < w.nextTask + |tasks| && after[id] == tasks[id - w.nextTask]))
    decreases |tasks|
  {
    if tasks != [] {
      var next := w.(tasks := w.tasks[w.nextTask := tasks[0]], nextTask := w.nextTask + 1);
      SpawnAdds(next, tasks[1..]);
      var after := Spawn(w, tasks).tasks;
      assert after == Spawn(next, tasks[1..]).tasks;
      assert w.nextTask in next.tasks;
    }
  }

  ghost predicate SomeVisits(tasks: seq<Task>, generation: nat, e: Entry) {
    exists i :: 0 <= i < |tasks| && Visits(tasks[i], generation, e)
  }

  lemma SpawnVisits(w: World, tasks: seq<Task>, generation: nat, e: Entry)
    requires forall id :: id in w.tasks ==> id < w.nextTask
    ensures Visited(Spawn(w, tasks).tasks, generation, e)
            <==> Visited(w.tasks, generation, e) || SomeVisits(tasks, generation, e)
  {
    hide Spawn, Visits;
    SpawnAdds(w, tasks);
    var after := Spawn(w, tasks).tasks;
    if Visited(w.tasks, generation, e) {
      var id :| id in w.tasks && Visits(w.tasks[id], generation, e);
      assert id in after && Visits(after[id], generation, e);
    }
    if SomeVisits(tasks, generation, e) {
      var i :| 0 <= i < |tasks| && Visits(tasks[i], generation, e);
      assert w.nextTask + i in after && Visits(after[w.nextTask + i], generation, e);
    }
    if Visited(after, generation, e) {
      var id :| id in after && Visits(after[id], generation, e);
      if id !in w.tasks {
        assert Visits(tasks[id - w.nextTask], generation, e);
      }
    }
  }

  // ----- loops and replies pass the duty on -----

  lemma {:induction false} LoopStillVisits(a: Agent, rec: Reconcile, e: Entry, reasons: seq<string>)
    requires AgentInvariant(a, reasons)
    requires LoopVisits(rec, a.disconnectGeneration, e) && Waits(a, e.sessionId, e.run)
    ensures SomeVisits(Loop(a, rec).tasks, a.disconnectGeneration, e)
    decreases |rec.rest|
  {
    hide AgentInvariant, Waits, ToVisit;
    var next := rec.(rest := rec.rest[1..]);
    WaitingEntryIsVisited(a, e, reasons);
    if ToVisit(a, rec.generation, rec.rest[0]) {
      var first := Loop(a, rec).tasks[0];
      assert Visits(first, a.disconnectGeneration, e);
    } else {
      LoopStillVisits(a, next, e, reasons);
    }
  }

  lemma WaitingEntryIsVisited(a: Agent, e: Entry, reasons: seq<string>)
    requires AgentInvariant(a, reasons) && Waits(a, e.sessionId, e.run)
    ensures ToVisit(a, a.disconnectGeneration, e)
  {
  }

  lemma AskedHasItsStamp(a: Agent, task: Task, reasons: seq<string>)
    requires AgentInvariant(a, reasons) && TaskInvariant(task, reasons) && task.Asking?
    requires task.reconcile.generation == a.disconnectGeneration && Waits(a, task.sessionId, task.run)
    ensures StampOf(a, task.run) == Some(task.context)
    ensures task.run in a.prompts && a.prompts[task.run].sessionId == task.sessionId
  {
    KnownIsUnique(StampOf(a, task.run).value, task.context, reasons);
  }

  lemma RemoveOnlyRemoves(a: Agent, sessionId: string)
    ensures forall s, run :: IsRegistered(Remove(a, sessionId), s, run) <==> s != sessionId && IsRegistered(a, s, run)
  {
    hide Lookup;
  }

  /** The reply to a question settles the fate of the prompt asked about, and the rest of the loop goes on. */
  lemma AnsweredStillVisits(a: Agent, task: Task, reply: Reply, e: Entry, reasons: seq<string>)
    requires AgentInvariant(a, reasons) && TaskInvariant(task, reasons) && task.Asking?
    requires Visits(task, a.disconnectGeneration, e)
    requires Waits(a, e.sessionId, e.run) && Waits(Resume(a, task, reply).agent, e.sessionId, e.run)
    ensures SomeVisits(Resume(a, task, reply).tasks, a.disconnectGeneration, e)
  {
    hide AgentInvariant, Lookup, IsRegistered, Remove, ShouldReject;
    var r := Resume(a, task, reply);
    RemoveOnlyRemoves(a, task.sessionId);
    if e == Entry(task.sessionId, task.run) {
      AskedHasItsStamp(a, task, reasons);
      RejectRemoves(a, task.run, task.context.reason);
    }
    if |r.tasks| == 2 {
      assert Visits(r.tasks[1], a.disconnectGeneration, e);
    } else {
      assert Visits(r.tasks[0], a.disconnectGeneration, e);
    }
  }

  lemma RejectRemoves(a: Agent, run: string, reason: string)
    requires run in a.prompts && IsRegistered(a, a.prompts[run].sessionId, run)
    ensures !IsRegistered(Reject(a, run, reason), a.prompts[run].sessionId, run)
  {
    hide Lookup;
    RemoveOnlyRemoves(a, a.prompts[run].sessionId);
  }

  lemma ResumeStillVisits(a: Agent, task: Task, reply: Reply, e: Entry, reasons: seq<string>)
    requires AgentInvariant(a, reasons) && TaskInvariant(task, reasons)
    requires Visits(task, a.disconnectGeneration, e)
    requires Waits(a, e.sessionId, e.run) && Waits(Resume(a, task, reply).agent, e.sessionId, e.run)
    ensures SomeVisits(Resume(a, task, reply).tasks, a.disconnectGeneration, e)
  {
    hide AgentInvariant, TaskInvariant, Waits, Loop, Answered, LoopVisits;
    match task
    case Asking(_, _, _, _) => AnsweredStillVisits(a, task, reply, e, reasons);
    case Returning(rec) => LoopStillVisits(a, rec, e, reasons);
    case Finishing(run, stopReason, resuming) =>
      assert Visits(Resume(a, task, reply).tasks[0], a.disconnectGeneration, e);
    case _ =>
  }

  /** An armed timer outlives a resumed call as long as a prompt is registered, unless a loop ends and clears it. */
  lemma ResumeKeepsTimer(a: Agent, task: Task, reply: Reply)
    requires a.disconnectTimer.Some?
    ensures var r := Resume(a, task, reply);
            || r.agent.disconnectTimer == a.disconnectTimer
            || r.agent.pendingPrompts == []
            || (task.Returning? && r.tasks == [] && !task.reconcile.keepDisconnectTimer
                  && task.reconcile.generation == a.disconnectGeneration)
  {
    hide Lookup, DeleteEntry, ShouldReject, IsRegistered, ToVisit;
    if task.Returning? {
      LoopEnds(a, task.reconcile);
    }
  }

  lemma {:induction false} LoopEnds(a: Agent, rec: Reconcile)
    ensures var r := Loop(a, rec);
            if r.tasks == [] && !rec.keepDisconnectTimer
               && rec.generation == a.disconnectGeneration then r.agent == ClearTimer(a)
            else r.agent == a
    decreases |rec.rest|
  {
    hide ToVisit;
    if rec.rest != [] {
      LoopEnds(a, rec.(rest := rec.rest[1..]));
    }
  }

  lemma ResumeKeepsGeneration(a: Agent, task: Task, reply: Reply)
    ensures Resume(a, task, reply).agent.disconnectGeneration == a.disconnectGeneration
  {
    hide Lookup, DeleteEntry, ShouldReject, IsRegistered, ToVisit;
    if task.Returning? {
      LoopEnds(a, task.reconcile);
    }
  }

  lemma ResumeOnlyRemoves(a: Agent, task: Task, reply: Reply, sessionId: string, run: string)
    requires IsRegistered(Resume(a, task, reply).agent, sessionId, run)
    ensures IsRegistered(a, sessionId, run)
  {
    hide Lookup, Loop, DeleteEntry, ShouldReject, StampOf;
    match task
    case Sending(s, _, _) => RemoveOnlyRemoves(a, s);
    case Cancelling(s, _) => RemoveOnlyRemoves(a, s);
    case ShowingFinalText(s, _, _) => RemoveOnlyRemoves(a, s);
    case Finishing(_, _, _) =>
    case Asking(_, s, asked, _) =>
      RemoveOnlyRemoves(a, s);
      if asked in a.prompts {
        RemoveOnlyRemoves(a, a.prompts[asked].sessionId);
      }
    case Returning(rec) => LoopEnds(a, rec);
  }

  /** A resumed call stamps nothing. */
  lemma ResumeStampsNothing(a: Agent, task: Task, reply: Reply, sessionId: string, run: string)
    requires Waits(Resume(a, task, reply).agent, sessionId, run)
    ensures Waits(a, sessionId, run)
  {
    hide IsRegistered, Resume;
    ResumeOnlyRemoves(a, task, reply, sessionId, run);
    StampsAfter(a, task, reply, run);
  }

  lemma StampsAfter(a: Agent, task: Task, reply: Reply, run: string)
    ensures StampOf(Resume(a, task, reply).agent, run) in {StampOf(a, run), None}
  {
    hide Lookup, DeleteEntry, ShouldReject, IsRegistered, ToVisit;
    if task.Returning? {
      LoopEnds(a, task.reconcile);
    }
  }

  lemma EmptyHasNone(a: Agent)
    ensures a.pendingPrompts == [] ==> forall sessionId, run :: !IsRegistered(a, sessionId, run)
  {
  }

  // ----- every step but one keeps every deadline -----

  lemma ReplyCovers(w: World, id: nat, reply: Reply)
    requires Invariant(w) && Covered(w) && id in w.tasks && !Strands(w, Replies(id, reply))
    ensures Covered(Step(w, Replies(id, reply)))
  {
    hide AgentInvariant, TaskInvariant, EndedAreOver, Resume, Spawn, Waits, Visited, Loop;
    var task := w.tasks[id];
    var r := Resume(w.agent, task, reply);
    var rest := w.(tasks := w.tasks - {id}, agent := r.agent);
    var after := Step(w, Replies(id, reply));
    var generation := w.agent.disconnectGeneration;
    SpawnKeepsAgent(rest, r.tasks);
    ResumeKeepsGeneration(w.agent, task, reply);
    forall s, run | Waits(after.agent, s, run) ensures HasDeadline(after, s, run) {
      var e := Entry(s, run);
      ResumeStampsNothing(w.agent, task, reply, s, run);
      assert HasDeadline(w, s, run);
      SpawnVisits(rest, r.tasks, generation, e);
      if Visited(w.tasks, generation, e) {
        VisitPassesOn(w, id, reply, e);
      } else {
        TimerPassesOn(w, id, reply, e);
      }
    }
  }

  lemma VisitPassesOn(w: World, id: nat, reply: Reply, e: Entry)
    requires Invariant(w) && id in w.tasks
    requires Visited(w.tasks, w.agent.disconnectGeneration, e) && Waits(w.agent, e.sessionId, e.run)
    requires Waits(Resume(w.agent, w.tasks[id], reply).agent, e.sessionId, e.run)
    ensures || Visited(w.tasks - {id}, w.agent.disconnectGeneration, e)
            || SomeVisits(Resume(w.agent, w.tasks[id], reply).tasks, w.agent.disconnectGeneration, e)
  {
    hide AgentInvariant, TaskInvariant, EndedAreOver, Resume, Visits, Waits;
    var generation := w.agent.disconnectGeneration;
    var other :| other in w.tasks && Visits(w.tasks[other], generation, e);
    if other != id {
      assert other in w.tasks - {id} && Visits((w.tasks - {id})[other], generation, e);
    } else {
      ResumeStillVisits(w.agent, w.tasks[id], reply, e, w.reasons);
    }
  }

  lemma TimerPassesOn(w: World, id: nat, reply: Reply, e: Entry)
    requires id in w.tasks && w.agent.disconnectTimer.Some?
    requires !Strands(w, Replies(id, reply)) && Waits(w.agent, e.sessionId, e.run)
    requires Waits(Resume(w.agent, w.tasks[id], reply).agent, e.sessionId, e.run)
    ensures || Resume(w.agent, w.tasks[id], reply).agent.disconnectTimer.Some?
            || Visited(w.tasks - {id}, w.agent.disconnectGeneration, e)
  {
    hide Loop, IsRegistered, Visited, Remove, Reject, ClearStamp, Answered;
    ResumeKeepsTimer(w.agent, w.tasks[id], reply);
    EmptyHasNone(Resume(w.agent, w.tasks[id], reply).agent);
  }

  lemma TimerFiringCovers(w: World)
    requires Invariant(w) && Covered(w)
    ensures Covered(Step(w, TimerFires))
  {
    hide AgentInvariant, TaskInvariant, EndedAreOver, Spawn, Visited, Loop, SomeVisits, IsRegistered, StampOf;
    var a := w.agent;
    if a.disconnectTimer.Some? {
      var b := ClearTimer(a);
      ClearTimerKeeps(a, w.reasons);
      TimerIsForNow(a, w.reasons);
      var rec := Reconcile(a.disconnectTimer.value, true, a.pendingPrompts, false);
      var r := Loop(b, rec);
      LoopEnds(b, rec);
      SpawnKeepsAgent(w.(agent := r.agent), r.tasks);
      RegisteredAreListed(b);
      var after := Step(w, TimerFires);
      assert ClearTimer(b) == b;
      forall s, run | Waits(after.agent, s, run) ensures HasDeadline(after, s, run) {
        LoopStillVisits(b, rec, Entry(s, run), w.reasons);
        SpawnVisits(w.(agent := r.agent), r.tasks, a.disconnectGeneration, Entry(s, run));
      }
    } else {
      SpawnNothing(w);
    }
  }

  lemma SpawnNothing(w: World)
    ensures Spawn(w, []) == w
  {
  }

  lemma TimerIsForNow(a: Agent, reasons: seq<string>)
    requires AgentInvariant(a, reasons) && a.disconnectTimer.Some?
    ensures a.pendingPrompts != [] && a.disconnectTimer.value == a.disconnectGeneration
  {
  }

  /** The loop that a reconnect starts has something to ask, so it does not end at once and clear the timer. */
  lemma ReconnectKeepsTimer(w: World)
    requires Invariant(w)
    ensures OnReconnect(w.agent).agent == w.agent.(activeDisconnectContext := None)
            || w.agent.pendingPrompts == []
  {
    hide Loop;
    var a := w.agent;
    if a.activeDisconnectContext.Some? && a.pendingPrompts != [] {
      var b := a.(activeDisconnectContext := None);
      var rec := Reconcile(a.activeDisconnectContext.value.generation, false, a.pendingPrompts, false);
      FirstIsVisited(a, w.reasons);
      LoopAsks(b, rec);
    }
  }

  lemma FirstIsVisited(a: Agent, reasons: seq<string>)
    requires AgentInvariant(a, reasons) && a.activeDisconnectContext.Some? && a.pendingPrompts != []
    ensures ToVisit(a.(activeDisconnectContext := None), a.activeDisconnectContext.value.generation,
            a.pendingPrompts[0])
  {
    hide Lookup;
    var first := a.pendingPrompts[0];
    ListedIsFound(a.pendingPrompts, first);
    assert IsRegistered(a, first.sessionId, first.run);
  }

  lemma LoopAsks(a: Agent, rec: Reconcile)
    requires rec.rest != [] && ToVisit(a, rec.generation, rec.rest[0])
    ensures Loop(a, rec).agent == a
  {
  }

  lemma ReconnectCovers(w: World)
    requires Invariant(w) && Covered(w)
    ensures Covered(Step(w, Reconnect))
  {
    hide AgentInvariant, TaskInvariant, EndedAreOver, Spawn, IsRegistered, Visited, OnReconnect;
    var r := OnReconnect(w.agent);
    var ended := if w.agent.activeDisconnectContext.Some?
      then w.ended + {w.agent.activeDisconnectContext.value.generation} else w.ended;
    var before := w.(ended := ended).(agent := r.agent);
    SpawnKeepsAgent(before, r.tasks);
    ReconnectKeepsTimer(w);
    SameAfterReconnect(w.agent);
    EmptyHasNone(r.agent);
    var after := Step(w, Reconnect);
    forall s, run | Waits(after.agent, s, run) ensures HasDeadline(after, s, run) {
      assert Waits(w.agent, s, run) && HasDeadline(w, s, run);
      SpawnVisits(before, r.tasks, w.agent.disconnectGeneration, Entry(s, run));
    }
  }

  lemma SameAfterReconnect(a: Agent)
    ensures var b := OnReconnect(a).agent;
            && b.pendingPrompts == a.pendingPrompts && b.disconnectGeneration == a.disconnectGeneration
            && (forall s, run :: IsRegistered(b, s, run) <==> IsRegistered(a, s, run))
            && (forall run :: StampOf(b, run) == StampOf(a, run))
  {
    hide Loop, Lookup;
    if a.activeDisconnectContext.Some? {
      StartKeepsActive(a.(activeDisconnectContext := None), a.activeDisconnectContext.value.generation, false);
    }
  }

  lemma PromptCovers(w: World, e: Event)
    requires Invariant(w) && Covered(w) && e.Prompts?
    ensures Covered(Step(w, e))
  {
    hide AgentInvariant, TaskInvariant, EndedAreOver, Spawn, Lookup, Visited;
    if e.run !in w.agent.prompts {
      var tasks := [Sending(e.sessionId, e.run, e.mayRetry)];
      var next := w.(agent := OnPrompt(w.agent, e.sessionId, e.sessionKey, e.run));
      SpawnKeepsAgent(next, tasks);
      var after := Step(w, e);
      forall s, run | Waits(after.agent, s, run) ensures HasDeadline(after, s, run) {
        SpawnVisits(next, tasks, w.agent.disconnectGeneration, Entry(s, run));
        if run != e.run {
          assert Waits(w.agent, s, run) && HasDeadline(w, s, run);
        } else {
          OnlyNewEntry(w.agent, e, s);
        }
      }
    }
  }

  /** A new prompt is stamped only while disconnected, and then the timer is armed. */
  lemma OnlyNewEntry(a: Agent, e: Event, sessionId: string)
    requires e.Prompts? && Waits(OnPrompt(a, e.sessionId, e.sessionKey, e.run), sessionId, e.run)
    ensures OnPrompt(a, e.sessionId, e.sessionKey, e.run).disconnectTimer.Some?
  {
    hide IsRegistered;
  }

  lemma DisconnectCovers(w: World, reason: string)
    ensures Covered(Step(w, Disconnect(reason)))
  {
    hide Visited, StampAll;
    if w.agent.pendingPrompts == [] {
      EmptyHasNone(OnDisconnect(w.agent, reason));
    }
  }

  lemma CancelCovers(w: World, sessionId: string)
    requires Invariant(w) && Covered(w)
    ensures Covered(Step(w, Cancels(sessionId)))
  {
    hide AgentInvariant, TaskInvariant, EndedAreOver, Spawn, Waits, Visited, Lookup;
    if Lookup(w.agent.pendingPrompts, sessionId).Some? {
      var tasks := [Cancelling(sessionId, Lookup(w.agent.pendingPrompts, sessionId).value)];
      SpawnKeepsAgent(w, tasks);
      var after := Spawn(w, tasks);
      forall s, run | Waits(w.agent, s, run) ensures HasDeadline(after, s, run) {
        assert HasDeadline(w, s, run);
        SpawnVisits(w, tasks, w.agent.disconnectGeneration, Entry(s, run));
      }
    }
  }

  lemma ChatEndCovers(w: World, e: Event)
    requires Invariant(w) && Covered(w) && e.ChatEnds?
    ensures Covered(Step(w, e))
  {
    hide AgentInvariant, TaskInvariant, EndedAreOver, Spawn, IsRegistered, Visited, FindBySessionKey;
    var r := OnChatEnd(w.agent, e.sessionKey, e.runId, e.state, e.hasMessage);
    var found := FindBySessionKey(w.agent, w.agent.pendingPrompts, e.sessionKey, e.runId);
    SpawnKeepsAgent(w.(agent := r.agent), r.tasks);
    if found.Some? {
      RemoveOnlyRemoves(w.agent, found.value.sessionId);
    }
    var after := Step(w, e);
    EmptyHasNone(after.agent);
    forall s, run | Waits(after.agent, s, run) ensures HasDeadline(after, s, run) {
      assert Waits(w.agent, s, run) && HasDeadline(w, s, run);
      SpawnVisits(w.(agent := r.agent), r.tasks, w.agent.disconnectGeneration, Entry(s, run));
    }
  }

  /** Connected or not, a step leaves a stamped prompt without a deadline exactly when it is the end of a loop that
      clears the timer armed for a prompt outside the loop. */
  lemma StrandedIff(w: World, e: Event)
    requires Invariant(w) && Covered(w)
    ensures Covered(Step(w, e)) <==> !Strands(w, e)
  {
    hide Step, Covered, Strands, Invariant;
    if Strands(w, e) {
      StrandingUncovers(w, e);
    } else {
      match e
      case Disconnect(reason) => DisconnectCovers(w, reason);
      case Reconnect => ReconnectCovers(w);
      case TimerFires => TimerFiringCovers(w);
      case Prompts(_, _, _, _) => PromptCovers(w, e);
      case Cancels(sessionId) => CancelCovers(w, sessionId);
      case ChatEnds(_, _, _, _) => ChatEndCovers(w, e);
      case Replies(id, reply) =>
        if id in w.tasks {
          ReplyCovers(w, id, reply);
        } else {
          NoSuchCall(w, id, reply);
        }
    }
  }

  lemma NoSuchCall(w: World, id: nat, reply: Reply)
    requires id !in w.tasks
    ensures Step(w, Replies(id, reply)) == w
  {
  }

  lemma StrandingUncovers(w: World, e: Event)
    requires Strands(w, e)
    ensures !Covered(Step(w, e))
  {
    hide Loop, IsRegistered, Visited;
    var rec := w.tasks[e.task].reconcile;
    LoopEnds(w.agent, rec);
    var s, run :| Waits(w.agent, s, run) && !Visited(w.tasks - {e.task}, w.agent.disconnectGeneration, Entry(s, run));
    var after := Step(w, e);
    assert after == w.(tasks := w.tasks - {e.task}, agent := ClearTimer(w.agent));
    ClearTimerRegisters(w.agent, s, run);
    assert !HasDeadline(after, s, run);
  }

  lemma ClearTimerRegisters(a: Agent, sessionId: string, run: string)
    ensures IsRegistered(ClearTimer(a), sessionId, run) == IsRegistered(a, sessionId, run)
  {
  }

  /** In every run without such a step, every stamped prompt has a deadline. */
  lemma {:induction false} CoveredUnlessStranded(events: seq<Event>)
    requires forall i :: 0 <= i < |events| ==> !Strands(Run(events[..i]), events[i])
    ensures Covered(Run(events))
  {
    hide Step, Covered, Strands, Invariant;
    if events == [] {
      InitialCovered();
    } else {
      var n := |events| - 1;
      var before := events[..n];
      assert forall i :: 0 <= i < n ==> before[..i] == events[..i];
      CoveredUnlessStranded(before);
      EveryRunKeepsInvariant(before);
      StrandedIff(Run(before), events[n]);
    }
  }

  lemma InitialCovered()
    ensures Covered(Initial())
  {
  }

  // ----- a call that removes another prompt -----

  /** The session whose entry a resumed call deletes without looking at what the entry holds. */
  function DeletesBlindly(a: Agent, task: Task, reply: Reply): Option<string> {
    match task
    case Cancelling(sessionId, _) => Some(sessionId)
    case ShowingFinalText(sessionId, _, _) => if reply.UpdateFails? then None else Some(sessionId)
    case Sending(sessionId, run, mayRetry) =>
      if reply.SendFails? && !(mayRetry && reply.isScopeRejection)
         && !(reply.isGatewayClose && IsRegistered(a, sessionId, run))
      then Some(sessionId) else None
    case _ => None
  }

  predicate BelongsTo(task: Task, run: string) {
    !task.Returning? && task.run == run
  }

  /** A resumed call takes a prompt that is not its own out of the map exactly when it is a cancellation after its
      abort, a final message after it was shown, or a failed send, and the session holds that other prompt by now.
      Reconciling a disconnect never does. */
  lemma OtherPromptIsRemovedIff(a: Agent, task: Task, reply: Reply, reasons: seq<string>, sessionId: string,
      run: string)
    requires AgentInvariant(a, reasons) && TaskInvariant(task, reasons)
    requires IsRegistered(a, sessionId, run) && !BelongsTo(task, run)
    ensures !IsRegistered(Resume(a, task, reply).agent, sessionId, run)
            <==> DeletesBlindly(a, task, reply) == Some(sessionId)
  {
    hide Lookup, Loop, DeleteEntry, ShouldReject, StampOf, AgentInvariant;
    match task
    case Sending(s, _, _) => RemoveOnlyRemoves(a, s);
    case Cancelling(s, _) => RemoveOnlyRemoves(a, s);
    case ShowingFinalText(s, _, _) => RemoveOnlyRemoves(a, s);
    case Finishing(_, _, _) =>
    case Asking(_, s, asked, _) =>
      RemoveOnlyRemoves(a, s);
      if asked in a.prompts {
        RemoveOnlyRemoves(a, a.prompts[asked].sessionId);
      }
    case Returning(rec) => LoopEnds(a, rec);
  }

  /** Removed, never answered, and with no suspended call left that would answer it. */
  ghost predicate Forgotten(w: World, run: string) {
    && HasLeft(w.agent, run)
    && (forall i :: 0 <= i < |w.agent.settled| ==> w.agent.settled[i].run != run)
    && forall id :: id in w.tasks ==> !BelongsTo(w.tasks[id], run)
  }

  lemma {:induction false} LoopAsksRegistered(a: Agent, rec: Reconcile, run: string)
    requires HasLeft(a, run)
    ensures forall i :: 0 <= i < |Loop(a, rec).tasks| ==> !BelongsTo(Loop(a, rec).tasks[i], run)
    decreases |rec.rest|
  {
    hide IsRegistered;
    if rec.rest != [] && !ToVisit(a, rec.generation, rec.rest[0]) {
      LoopAsksRegistered(a, rec.(rest := rec.rest[1..]), run);
    }
  }

  lemma ResumeForgets(a: Agent, task: Task, reply: Reply, run: string)
    requires HasLeft(a, run) && !BelongsTo(task, run)
    requires forall i :: 0 <= i < |a.settled| ==> a.settled[i].run != run
    ensures var r := Resume(a, task, reply);
            && (forall i :: 0 <= i < |r.tasks| ==> !BelongsTo(r.tasks[i], run))
            && forall i :: 0 <= i < |r.agent.settled| ==> r.agent.settled[i].run != run
  {
    hide Lookup, Loop, DeleteEntry, ShouldReject, StampOf, IsRegistered, HasLeft;
    if task.Returning? {
      LoopAsksRegistered(a, task.reconcile, run);
      LoopEnds(a, task.reconcile);
    }
  }

  lemma {:induction false} FoundIsInList(a: Agent, entries: seq<Entry>, sessionKey: string, runId: Option<string>)
    requires FindBySessionKey(a, entries, sessionKey, runId).Some?
    ensures FindBySessionKey(a, entries, sessionKey, runId).value in entries
  {
    hide Answers;
    if !Answers(a, entries[0], sessionKey, runId) {
      FoundIsInList(a, entries[1..], sessionKey, runId);
    }
  }

  lemma ChatEndForgets(a: Agent, e: Event, reasons: seq<string>, run: string)
    requires AgentInvariant(a, reasons) && HasLeft(a, run) && e.ChatEnds?
    ensures var r := OnChatEnd(a, e.sessionKey, e.runId, e.state, e.hasMessage);
            forall i :: 0 <= i < |r.tasks| ==> !BelongsTo(r.tasks[i], run)
  {
    hide FindBySessionKey, Lookup;
    var found := FindBySessionKey(a, a.pendingPrompts, e.sessionKey, e.runId);
    if found.Some? {
      FoundIsInList(a, a.pendingPrompts, e.sessionKey, e.runId);
      ListedIsFound(a.pendingPrompts, found.value);
      assert IsRegistered(a, found.value.sessionId, found.value.run);
    }
  }

  /** The suspended calls after a step: those left alone, and new ones. */
  lemma StepForgets(w: World, e: Event, run: string)
    requires Invariant(w) && Forgotten(w, run)
    ensures forall id :: id in Step(w, e).tasks ==> !BelongsTo(Step(w, e).tasks[id], run)
  {
    hide AgentInvariant, EndedAreOver, TaskInvariant, Spawn, BelongsTo, HasLeft, Resume, OnChatEnd, Loop, Lookup,
         SetEntry;
    var a := w.agent;
    match e
    case Disconnect(_) =>
    case Reconnect =>
      ReconnectLeaves(a, run);
      var b := a.(activeDisconnectContext := None);
      if a.activeDisconnectContext.Some? {
        LoopAsksRegistered(b, Reconcile(a.activeDisconnectContext.value.generation, false, b.pendingPrompts, false),
          run);
      }
      var ended := if a.activeDisconnectContext.Some? then w.ended + {a.activeDisconnectContext.value.generation}
        else w.ended;
      SpawnAdds(w.(ended := ended).(agent := OnReconnect(a).agent), OnReconnect(a).tasks);
    case TimerFires =>
      ClearTimerLeaves(a, run);
      if a.disconnectTimer.Some? {
        LoopAsksRegistered(ClearTimer(a), Reconcile(a.disconnectTimer.value, true, a.pendingPrompts, false), run);
      }
      SpawnAdds(w.(agent := OnTimer(a).agent), OnTimer(a).tasks);
    case Prompts(sessionId, sessionKey, newRun, mayRetry) =>
      if newRun !in a.prompts {
        NewRunIsOther(a, newRun, run);
        NewCallIsNot(Sending(sessionId, newRun, mayRetry), run);
        SpawnAdds(w.(agent := OnPrompt(a, sessionId, sessionKey, newRun)), [Sending(sessionId, newRun, mayRetry)]);
      }
    case Cancels(sessionId) =>
      if Lookup(a.pendingPrompts, sessionId).Some? {
        var found := Lookup(a.pendingPrompts, sessionId).value;
        RegisteredIsOther(a, sessionId, found, run);
        NewCallIsNot(Cancelling(sessionId, found), run);
        SpawnAdds(w, [Cancelling(sessionId, found)]);
      }
    case ChatEnds(sessionKey, runId, state, hasMessage) =>
      var r := OnChatEnd(a, sessionKey, runId, state, hasMessage);
      ChatEndForgets(a, e, w.reasons, run);
      SpawnAdds(w.(agent := r.agent), r.tasks);
    case Replies(id, reply) =>
      if id in w.tasks {
        var r := Resume(a, w.tasks[id], reply);
        ResumeForgets(a, w.tasks[id], reply, run);
        SpawnAdds(w.(tasks := w.tasks - {id}, agent := r.agent), r.tasks);
      }
  }

  lemma RegisteredIsOther(a: Agent, sessionId: string, found: string, run: string)
    requires HasLeft(a, run) && Lookup(a.pendingPrompts, sessionId) == Some(found)
    ensures found != run
  {
    assert IsRegistered(a, sessionId, found);
  }

  lemma NewCallIsNot(task: Task, run: string)
    requires !task.Returning? && task.run != run
    ensures !BelongsTo(task, run)
  {
  }

  /** A forgotten prompt stays forgotten: its client never gets an answer. */
  lemma ForgottenForever(w: World, e: Event, run: string)
    requires Invariant(w) && Forgotten(w, run)
    ensures Forgotten(Step(w, e), run)
  {
    hide Step, Invariant, HasLeft, BelongsTo, Resume;
    LeftForGood(w, e, run);
    StepForgets(w, e, run);
    SettledByReply(w, e);
    if e.Replies? && e.task in w.tasks {
      ResumeForgets(w.agent, w.tasks[e.task], e.reply, run);
    }
  }

  // ----- two runs -----

  lemma RunSnoc(events: seq<Event>, e: Event)
    ensures Run(events + [e]) == Step(Run(events), e)
  {
    assert (events + [e])[..|events + [e]| - 1] == events;
  }

  lemma OneTask(w: World, r: Resumed, task: Task)
    requires r.tasks == [task]
    ensures Continue(w, r) == w.(agent := r.agent, tasks := w.tasks[w.nextTask := task], nextTask := w.nextTask + 1)
  {
    var next := w.(agent := r.agent).(tasks := w.tasks[w.nextTask := task], nextTask := w.nextTask + 1);
    assert Spawn(w.(agent := r.agent), r.tasks) == Spawn(next, r.tasks[1..]);
    SpawnNothing(next);
  }

  lemma RunOfSix(e: seq<Event>)
    requires |e| == 6
    ensures Run(e) == Step(Step(Step(Step(Step(Step(Initial(), e[0]), e[1]), e[2]), e[3]), e[4]), e[5])
  {
    hide Step;
    RunOfFive(e[..5]);
    assert e == e[..5] + [e[5]];
    RunSnoc(e[..5], e[5]);
  }

  lemma RunOfFive(e: seq<Event>)
    requires |e| == 5
    ensures Run(e) == Step(Step(Step(Step(Step(Initial(), e[0]), e[1]), e[2]), e[3]), e[4])
  {
    hide Step;
    assert e == [] + [e[0]] + [e[1]] + [e[2]] + [e[3]] + [e[4]];
    RunSnoc([], e[0]);
    RunSnoc([] + [e[0]], e[1]);
    RunSnoc([] + [e[0]] + [e[1]], e[2]);
    RunSnoc([] + [e[0]] + [e[1]] + [e[2]], e[3]);
    RunSnoc([] + [e[0]] + [e[1]] + [e[2]] + [e[3]], e[4]);
  }

  lemma FirstPrompt(sessionId: string, sessionKey: string, run: string) returns (w: World)
    ensures w == Step(Initial(), Prompts(sessionId, sessionKey, run, false))
    ensures w == World(Agent([Entry(sessionId, run)], map[run := PendingPrompt(sessionId, sessionKey, false, None)],
            None, None, 0, []),
                       map[0 := Sending(sessionId, run, false)], 1, [], {})
  {
    var r := Resumed(OnPrompt(Initial().agent, sessionId, sessionKey, run), [Sending(sessionId, run, false)]);
    w := Step(Initial(), Prompts(sessionId, sessionKey, run, false));
    OneTask(Initial(), r, Sending(sessionId, run, false));
    assert SetEntry([], sessionId, run) == [Entry(sessionId, run)];
  }

  lemma DisconnectOne(w1: World, a2: Agent)
    requires |w1.agent.pendingPrompts| == 1 && w1.agent.disconnectGeneration == 0
    requires var run := w1.agent.pendingPrompts[0].run;
             var context := DisconnectContext(1, "closed");
             && run in w1.agent.prompts
             && a2 == Agent(w1.agent.pendingPrompts,
                w1.agent.prompts[run := w1.agent.prompts[run].(disconnectContext := Some(context))],
                            Some(1), Some(context), 1, w1.agent.settled)
    ensures Step(w1, Disconnect("closed")) == w1.(agent := a2, reasons := w1.reasons + ["closed"])
  {
    var entries := w1.agent.pendingPrompts;
    assert entries[1..] == [];
    var context := DisconnectContext(1, "closed");
    assert StampAll(w1.agent.prompts, entries, context) == Stamp(w1.agent.prompts, entries[0].run, Some(context)) by {
      assert StampAll(Stamp(w1.agent.prompts, entries[0].run, Some(context)), entries[1..], context)
          == Stamp(w1.agent.prompts, entries[0].run, Some(context));
    }
  }

  lemma FireOne(w2: World, w3: World, asking: Task)
    requires |w2.agent.pendingPrompts| == 1 && w2.agent.disconnectTimer == Some(1)
    requires var e := w2.agent.pendingPrompts[0];
             && StampOf(w2.agent, e.run).Some? && StampOf(w2.agent, e.run).value.generation == 1
             && asking == Asking(Reconcile(1, true, [], false), e.sessionId, e.run, StampOf(w2.agent, e.run).value)
    requires w3 == w2.(agent := ClearTimer(w2.agent), tasks := w2.tasks[w2.nextTask := asking], nextTask :=
             w2.nextTask + 1)
    ensures Step(w2, TimerFires) == w3
  {
    var b := ClearTimer(w2.agent);
    var rec := Reconcile(1, true, w2.agent.pendingPrompts, false);
    assert rec.rest[1..] == [];
    assert ToVisit(b, 1, rec.rest[0]);
    assert Loop(b, rec) == Resumed(b, [asking]);
    OneTask(w2, Resumed(b, [asking]), asking);
  }

  lemma PromptSecond(w3: World, w4: World)
    requires |w3.agent.pendingPrompts| == 1 && w3.agent.pendingPrompts[0].sessionId == "first"
             && "run2" !in w3.agent.prompts
    requires w3.agent.activeDisconnectContext.Some? && w3.agent.activeDisconnectContext.value.generation == 1
    requires w3.agent.disconnectTimer == None
    requires w4 == w3.(agent := w3.agent.(pendingPrompts := w3.agent.pendingPrompts + [Entry("second", "run2")],
                                          prompts := w3.agent.prompts["run2" :=
                                            PendingPrompt("second", "key2", false, w3.agent.activeDisconnectContext)],
                                          disconnectTimer := Some(1)),
                       tasks := w3.tasks[w3.nextTask := Sending("second", "run2", false)], nextTask := w3.nextTask + 1)
    ensures Step(w3, Prompts("second", "key2", "run2", false)) == w4
  {
    var entries := w3.agent.pendingPrompts;
    assert "first"[0] != "second"[0];
    assert entries[1..] == [];
    assert SetEntry([], "second", "run2") == [Entry("second", "run2")];
    assert SetEntry(entries, "second", "run2") == entries + [Entry("second", "run2")];
    OneTask(w3, Resumed(OnPrompt(w3.agent, "second", "key2", "run2"), [Sending("second", "run2", false)]),
      Sending("second", "run2", false));
  }

  lemma AskFails(w4: World, w5: World)
    requires 1 in w4.tasks && w4.tasks[1].Asking? && w4.nextTask == 3
    requires var task := w4.tasks[1];
             && task.reconcile.deadlineExpired && task.run in w4.agent.prompts && task.sessionId == "first"
             && w4.agent.prompts[task.run].sessionId == "first" && !w4.agent.prompts[task.run].sendAccepted
             && StampOf(w4.agent, task.run) == Some(task.context)
             && w4.agent.pendingPrompts == [Entry("first", task.run), Entry("second", "run2")]
             && w5 == w4.(agent := w4.agent.(pendingPrompts := [Entry("second", "run2")],
                                             settled := w4.agent.settled
                                               + [Settled(task.run, Disconnected(task.context.reason))]),
                          tasks := (w4.tasks - {1})[3 := Returning(task.reconcile)], nextTask := 4)
    ensures Step(w4, Replies(1, WaitThrows)) == w5
  {
    var task := w4.tasks[1];
    var entries := w4.agent.pendingPrompts;
    assert "first"[0] != "second"[0];
    assert entries[1..] == [Entry("second", "run2")] && [Entry("second", "run2")][1..] == [];
    assert DeleteEntry([Entry("second", "run2")], "first") == [Entry("second", "run2")];
    assert DeleteEntry(entries, "first") == [Entry("second", "run2")];
    assert IsRegistered(w4.agent, "first", task.run);
    var r := Resume(w4.agent, task, WaitThrows);
    assert r.tasks == [Returning(task.reconcile)];
    OneTask(w4.(tasks := w4.tasks - {1}), r, Returning(task.reconcile));
  }

  lemma LoopEndsHere(w5: World, w6: World)
    requires 3 in w5.tasks && w5.tasks[3] == Returning(Reconcile(w5.agent.disconnectGeneration, true, [], false))
    requires w6 == w5.(agent := ClearTimer(w5.agent), tasks := w5.tasks - {3})
    ensures Step(w5, Replies(3, Done)) == w6
  {
    SpawnNothing(w6);
  }

  function Lost(): PendingPrompt { PendingPrompt("first", "key1", false, Some(DisconnectContext(1, "closed"))) }

  function Late(): PendingPrompt { PendingPrompt("second", "key2", false, Some(DisconnectContext(1, "closed"))) }

  function LostAgent(timer: Option<nat>): Agent {
    Agent([Entry("first", "run1")], map["run1" := Lost()], timer, Some(DisconnectContext(1, "closed")), 1, [])
  }

  function LateAgent(entries: seq<Entry>, timer: Option<nat>, settled: seq<Settled>): Agent {
    Agent(entries, map["run1" := Lost(), "run2" := Late()], timer, Some(DisconnectContext(1, "closed")), 1, settled)
  }

  function Stage(n: nat): World
    requires 1 <= n <= 6
  {
    var sent1, sent2 := Sending("first", "run1", false), Sending("second", "run2", false);
    var rec := Reconcile(1, true, [], false);
    var asking := Asking(rec, "first", "run1", DisconnectContext(1, "closed"));
    var rejected := [Settled("run1", Disconnected("closed"))];
    match n
    case 1 => World(Agent([Entry("first", "run1")], map["run1" := PendingPrompt("first", "key1", false, None)], None,
      None, 0, []),
                    map[0 := sent1], 1, [], {})
    case 2 => World(LostAgent(Some(1)), map[0 := sent1], 1, ["closed"], {})
    case 3 => World(LostAgent(None), map[0 := sent1, 1 := asking], 2, ["closed"], {})
    case 4 => World(LateAgent([Entry("first", "run1"), Entry("second", "run2")], Some(1), []),
                    map[0 := sent1, 1 := asking, 2 := sent2], 3, ["closed"], {})
    case 5 => World(LateAgent([Entry("second", "run2")], Some(1), rejected),
                    map[0 := sent1, 2 := sent2, 3 := Returning(rec)], 4, ["closed"], {})
    case 6 => World(LateAgent([Entry("second", "run2")], None, rejected), map[0 := sent1, 2 := sent2], 4, ["closed"],
      {})
  }

  lemma FirstStages()
    ensures Step(Initial(), Prompts("first", "key1", "run1", false)) == Stage(1)
    ensures Step(Stage(1), Disconnect("closed")) == Stage(2)
    ensures Step(Stage(2), TimerFires) == Stage(3)
  {
    hide Step;
    var w := FirstPrompt("first", "key1", "run1");
    DisconnectOne(Stage(1), LostAgent(Some(1)));
    FireOne(Stage(2), Stage(3), Stage(3).tasks[1]);
  }

  lemma FourthStage()
    ensures Step(Stage(3), Prompts("second", "key2", "run2", false)) == Stage(4)
  {
    hide Step;
    assert "run1"[3] != "run2"[3];
    PromptSecond(Stage(3), Stage(4));
  }

  lemma LastStages()
    ensures Step(Stage(4), Replies(1, WaitThrows)) == Stage(5)
    ensures Step(Stage(5), Replies(3, Done)) == Stage(6)
  {
    hide Step;
    assert "run1"[3] != "run2"[3];
    assert (Stage(4).tasks - {1})[3 := Returning(Reconcile(1, true, [], false))] == Stage(5).tasks;
    AskFails(Stage(4), Stage(5));
    assert Stage(5).tasks - {3} == Stage(6).tasks;
    LoopEndsHere(Stage(5), Stage(6));
  }

  /** A prompt sent while the deadline of the disconnect is being handled arms a new timer; the end of the handling
      clears it, and the prompt stays registered with no deadline. */
  lemma SomePromptIsStranded() returns (events: seq<Event>)
    ensures var w := Run(events);
            && w.agent.activeDisconnectContext.Some? && IsRegistered(w.agent, "second", "run2")
            && !HasDeadline(w, "second", "run2")
  {
    hide Step, Run;
    events := [Prompts("first", "key1", "run1", false), Disconnect("closed"), TimerFires,
               Prompts("second", "key2", "run2", false), Replies(1, WaitThrows), Replies(3, Done)];
    RunOfSix(events);
    FirstStages();
    FourthStage();
    LastStages();
    assert Run(events) == Stage(6);
    assert Stage(6).tasks.Keys == {0, 2};
    assert !Visited(Stage(6).tasks, 1, Entry("second", "run2"));
  }

  function Scene(n: nat): World
    requires 1 <= n <= 5
  {
    var first, second := PendingPrompt("s", "key", false, None), PendingPrompt("s", "key", false, None);
    var sent1, sent2, cancelling := Sending("s", "run1", false), Sending("s", "run2", false), Cancelling("s", "run1");
    var both := map["run1" := first, "run2" := second];
    var cancelled := [Settled("run1", Resolved(Cancelled))];
    match n
    case 1 => World(Agent([Entry("s", "run1")], map["run1" := first], None, None, 0, []), map[0 := sent1], 1, [], {})
    case 2 => World(Agent([Entry("s", "run1")], map["run1" := first], None, None, 0, []),
      map[0 := sent1, 1 := cancelling], 2, [], {})
    case 3 => World(Agent([Entry("s", "run2")], both, None, None, 0, []), map[0 := sent1, 1 := cancelling, 2 := sent2],
      3, [], {})
    case 4 => World(Agent([], both, None, None, 0, cancelled), map[0 := sent1, 2 := sent2], 3, [], {})
    case 5 => World(Agent([], both, None, None, 0, cancelled), map[0 := sent1], 3, [], {})
  }

  lemma CancelBegins()
    ensures Step(Scene(1), Cancels("s")) == Scene(2)
  {
    var w := Scene(1);
    OneTask(w, Resumed(w.agent, [Cancelling("s", "run1")]), Cancelling("s", "run1"));
    assert w.(agent := w.agent) == w;
  }

  lemma SecondPrompt()
    ensures Step(Scene(2), Prompts("s", "key", "run2", false)) == Scene(3)
  {
    assert "run1"[3] != "run2"[3];
    assert [Entry("s", "run1")][1..] == [];
    assert SetEntry([Entry("s", "run1")], "s", "run2") == [Entry("s", "run2")];
    var w := Scene(2);
    OneTask(w, Resumed(OnPrompt(w.agent, "s", "key", "run2"), [Sending("s", "run2", false)]),
      Sending("s", "run2", false));
  }

  lemma CancelRemovesSecond()
    ensures Step(Scene(3), Replies(1, Done)) == Scene(4)
  {
    assert [Entry("s", "run2")][1..] == [];
    assert DeleteEntry([Entry("s", "run2")], "s") == [];
    assert Scene(3).tasks - {1} == Scene(4).tasks;
    SpawnNothing(Scene(4));
  }

  lemma SecondIsSent()
    ensures Step(Scene(4), Replies(2, Done)) == Scene(5)
  {
    assert Scene(4).tasks - {2} == Scene(5).tasks;
    SpawnNothing(Scene(5));
  }

  /** A second prompt of a session, sent while the first is being cancelled, is removed in place of the first:
      it is forgotten, and so never answered. */
  lemma SomePromptIsForgotten() returns (events: seq<Event>)
    ensures Forgotten(Run(events), "run2")
  {
    hide Step, Run;
    var w := FirstPrompt("s", "key", "run1");
    CancelBegins();
    SecondPrompt();
    CancelRemovesSecond();
    SecondIsSent();
    events := [Prompts("s", "key", "run1", false), Cancels("s"), Prompts("s", "key", "run2", false), Replies(1, Done),
      Replies(2, Done)];
    RunOfFive(events);
    assert "run1"[3] != "run2"[3];
    assert Run(events) == Scene(5);
  }
}
