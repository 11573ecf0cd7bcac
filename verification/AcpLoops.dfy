/** The loop that a reconnect starts never takes a deadline from a prompt that waits for one (src/acp/translator.ts). */
module AcpLoops {
  import opened Common
  import opened AcpAgent
  import opened AcpRuns
  import opened AcpLosses

  function LoopOf(t: Task): Option<Reconcile> {
    match t
    case Asking(rec, _, _, _) => Some(rec)
    case Returning(rec) => Some(rec)
    case Finishing(_, _, resuming) => resuming
    case _ => None
  }

  /** The loop is asking about the entry or has it ahead. */
  predicate Faces(t: Task, e: Entry) {
    LoopOf(t).Some? && (e in LoopOf(t).value.rest || (t.Asking? && e == Entry(t.sessionId, t.run)))
  }

  /** Unless it keeps the timer, a loop of the current generation faces every prompt that waits. */
  ghost predicate FacesAll(a: Agent, t: Task) {
    LoopOf(t).Some? && !LoopOf(t).value.keepDisconnectTimer && LoopOf(t).value.generation == a.disconnectGeneration ==>
      forall sessionId, run :: Waits(a, sessionId, run) ==> Faces(t, Entry(sessionId, run))
  }

  predicate FromReconnect(t: Task) {
    LoopOf(t).Some? && !LoopOf(t).value.deadlineExpired
  }

  /** A loop that a reconnect has started is of an ended generation and faces all that wait. */
  ghost predicate InOrder(a: Agent, ended: set<nat>, t: Task) {
    FromReconnect(t) ==> LoopOf(t).value.generation in ended && FacesAll(a, t)
  }

  ghost predicate LoopsInOrder(w: World) {
    forall id :: id in w.tasks ==> InOrder(w.agent, w.ended, w.tasks[id])
  }

  ghost predicate AllInOrder(a: Agent, ended: set<nat>, tasks: seq<Task>) {
    forall i :: 0 <= i < |tasks| ==> InOrder(a, ended, tasks[i])
  }

  // ----- the loops that a step leaves alone -----

  ghost predicate NoMoreWait(a: Agent, b: Agent) {
    && b.disconnectGeneration == a.disconnectGeneration
    && forall sessionId, run :: Waits(b, sessionId, run) ==> Waits(a, sessionId, run)
  }

  lemma StaysInOrder(a: Agent, b: Agent, ended: set<nat>, more: set<nat>, t: Task)
    requires InOrder(a, ended, t) && NoMoreWait(a, b) && ended <= more
    ensures InOrder(b, more, t)
  {
    hide Waits, Faces;
  }

  lemma SpawnInOrder(w: World, tasks: seq<Task>)
    requires LoopsInOrder(w) && AllInOrder(w.agent, w.ended, tasks) && forall id :: id in w.tasks ==> id < w.nextTask
    ensures LoopsInOrder(Spawn(w, tasks))
  {
    hide InOrder, Spawn;
    SpawnKeepsAgent(w, tasks);
    SpawnAdds(w, tasks);
    var after := Spawn(w, tasks);
    forall id | id in after.tasks ensures InOrder(w.agent, w.ended, after.tasks[id]) {
      if id !in w.tasks {
        assert after.tasks[id] == tasks[id - w.nextTask];
      }
    }
  }

  lemma ContinueInOrder(w: World, kept: World, r: Resumed)
    requires LoopsInOrder(w) && NoMoreWait(w.agent, r.agent) && AllInOrder(r.agent, kept.ended, r.tasks)
    requires w.ended <= kept.ended && (forall id :: id in w.tasks ==> id < kept.nextTask)
    requires forall id :: id in kept.tasks ==> id in w.tasks && kept.tasks[id] == w.tasks[id]
    ensures LoopsInOrder(Continue(kept, r))
  {
    hide InOrder, Spawn, NoMoreWait;
    forall id | id in kept.tasks ensures InOrder(r.agent, kept.ended, kept.tasks[id]) {
      StaysInOrder(w.agent, r.agent, w.ended, kept.ended, w.tasks[id]);
    }
    SpawnInOrder(kept.(agent := r.agent), r.tasks);
  }

  // ----- loops that go on -----

  lemma {:induction false} LoopInOrder(a: Agent, rec: Reconcile, ended: set<nat>, reasons: seq<string>)
    requires AgentInvariant(a, reasons) && InOrder(a, ended, Returning(rec))
    ensures AllInOrder(Loop(a, rec).agent, ended, Loop(a, rec).tasks)
    decreases |rec.rest|
  {
    hide AgentInvariant, Waits, ToVisit;
    if rec.rest != [] {
      var first, next := rec.rest[0], rec.(rest := rec.rest[1..]);
      assert forall e :: e in rec.rest ==> e == first || e in next.rest;
      if ToVisit(a, rec.generation, first) {
        var asking := Loop(a, rec).tasks[0];
        assert forall e :: Faces(Returning(rec), e) ==> Faces(asking, e);
        assert Loop(a, rec).agent == a;
      } else {
        if rec.generation == a.disconnectGeneration {
          if Waits(a, first.sessionId, first.run) {
            WaitingEntryIsVisited(a, first, reasons);
          }
          assert !Waits(a, first.sessionId, first.run);
        }
        LoopInOrder(a, next, ended, reasons);
      }
    }
  }

  /** A question that leaves its prompt waiting keeps the timer. */
  lemma AnswerInOrder(a: Agent, task: Task, reply: Reply, ended: set<nat>)
    requires task.Asking? && InOrder(a, ended, task)
    ensures AllInOrder(Resume(a, task, reply).agent, ended, Resume(a, task, reply).tasks)
  {
    hide IsRegistered, StampOf, Remove;
    var r := Resume(a, task, reply);
    if FromReconnect(task) {
      RemoveOnlyRemoves(a, task.sessionId);
      RemoveKeepsStamps(a, task.sessionId);
    }
  }

  lemma RemoveKeepsStamps(a: Agent, sessionId: string)
    ensures var b := Remove(a, sessionId);
            b.disconnectGeneration == a.disconnectGeneration && forall run :: StampOf(b, run) == StampOf(a, run)
  {
  }

  lemma ResumeNoMoreWait(a: Agent, task: Task, reply: Reply)
    ensures NoMoreWait(a, Resume(a, task, reply).agent)
  {
    hide Resume, Waits;
    ResumeKeepsGeneration(a, task, reply);
    forall s, run | Waits(Resume(a, task, reply).agent, s, run) ensures Waits(a, s, run) {
      ResumeStampsNothing(a, task, reply, s, run);
    }
  }

  lemma ResumeInOrder(a: Agent, task: Task, reply: Reply, ended: set<nat>, reasons: seq<string>)
    requires AgentInvariant(a, reasons) && InOrder(a, ended, task)
    ensures AllInOrder(Resume(a, task, reply).agent, ended, Resume(a, task, reply).tasks)
  {
    hide AgentInvariant, Loop, Answered, Remove, Waits, IsRegistered;
    match task
    case Asking(_, _, _, _) => AnswerInOrder(a, task, reply, ended);
    case Returning(rec) => LoopInOrder(a, rec, ended, reasons);
    case Finishing(run, stopReason, resuming) =>
      ResumeNoMoreWait(a, task, reply);
      if resuming.Some? {
        StaysInOrder(a, Resume(a, task, reply).agent, ended, ended, Returning(resuming.value));
      }
    case _ =>
  }

  // ----- every step -----

  lemma ReplyInOrder(w: World, id: nat, reply: Reply)
    requires Invariant(w) && LoopsInOrder(w) && id in w.tasks
    ensures LoopsInOrder(Step(w, Replies(id, reply)))
  {
    hide AgentInvariant, TaskInvariant, EndedAreOver, InOrder, Resume, Spawn, NoMoreWait;
    ResumeNoMoreWait(w.agent, w.tasks[id], reply);
    ResumeInOrder(w.agent, w.tasks[id], reply, w.ended, w.reasons);
    ContinueInOrder(w, w.(tasks := w.tasks - {id}), Resume(w.agent, w.tasks[id], reply));
  }

  lemma ReconnectInOrder(w: World)
    requires Invariant(w) && LoopsInOrder(w)
    ensures LoopsInOrder(Step(w, Reconnect))
  {
    hide AgentInvariant, TaskInvariant, EndedAreOver, InOrder, Spawn, IsRegistered, StampOf, Loop;
    var a, b := w.agent, w.agent.(activeDisconnectContext := None);
    var r := OnReconnect(a);
    SameAfterReconnect(a);
    var ended := if a.activeDisconnectContext.Some? then w.ended + {a.activeDisconnectContext.value.generation}
      else w.ended;
    if a.activeDisconnectContext.Some? && a.pendingPrompts != [] {
      var rec := Reconcile(a.activeDisconnectContext.value.generation, false, a.pendingPrompts, false);
      ReconnectKeeps(a, w.reasons);
      NewLoopInOrder(b, rec, ended);
      LoopInOrder(b, rec, ended, w.reasons);
    }
    ContinueInOrder(w, w.(ended := ended), r);
  }

  /** A loop starts with all entries ahead. */
  lemma NewLoopInOrder(a: Agent, rec: Reconcile, ended: set<nat>)
    requires rec.rest == a.pendingPrompts && rec.generation in ended
    ensures InOrder(a, ended, Returning(rec))
  {
    hide IsRegistered;
    RegisteredAreListed(a);
  }

  lemma TimerInOrder(w: World)
    requires Invariant(w) && LoopsInOrder(w)
    ensures LoopsInOrder(Step(w, TimerFires))
  {
    hide AgentInvariant, TaskInvariant, EndedAreOver, InOrder, Spawn, Lookup, Loop;
    var a := w.agent;
    var r := OnTimer(a);
    if a.disconnectTimer.Some? {
      StartKeepsActive(ClearTimer(a), a.disconnectTimer.value, true);
      LoopKeepsKind(ClearTimer(a), Reconcile(a.disconnectTimer.value, true, a.pendingPrompts, false));
    }
    assert forall s, run :: IsRegistered(r.agent, s, run) <==> IsRegistered(a, s, run);
    forall i | 0 <= i < |r.tasks| ensures InOrder(r.agent, w.ended, r.tasks[i]) {
      DeadlineLoopInOrder(r.agent, w.ended, r.tasks[i]);
    }
    ContinueInOrder(w, w, r);
  }

  lemma {:induction false} LoopKeepsKind(a: Agent, rec: Reconcile)
    ensures forall i :: 0 <= i < |Loop(a, rec).tasks| ==>
              LoopOf(Loop(a, rec).tasks[i]).Some?
                && LoopOf(Loop(a, rec).tasks[i]).value.deadlineExpired == rec.deadlineExpired
    decreases |rec.rest|
  {
    hide ToVisit;
    if rec.rest != [] {
      LoopKeepsKind(a, rec.(rest := rec.rest[1..]));
    }
  }

  lemma DeadlineLoopInOrder(a: Agent, ended: set<nat>, t: Task)
    requires !FromReconnect(t)
    ensures InOrder(a, ended, t)
  {
  }

  lemma DisconnectInOrder(w: World, reason: string)
    requires Invariant(w) && LoopsInOrder(w)
    ensures LoopsInOrder(Step(w, Disconnect(reason)))
  {
    hide AgentInvariant, TaskInvariant, Waits, Faces, StampAll;
    GenerationIsCount(w.agent, w.reasons);
  }

  lemma PromptInOrder(w: World, e: Event)
    requires Invariant(w) && LoopsInOrder(w) && e.Prompts?
    ensures LoopsInOrder(Step(w, e))
  {
    hide AgentInvariant, TaskInvariant, EndedAreOver, Spawn, InOrder, OnPrompt;
    if e.run !in w.agent.prompts {
      var next := w.(agent := OnPrompt(w.agent, e.sessionId, e.sessionKey, e.run));
      forall id | id in w.tasks ensures InOrder(next.agent, w.ended, w.tasks[id]) {
        PromptKeepsOrder(w, e, w.tasks[id]);
      }
      DeadlineLoopInOrder(next.agent, w.ended, Sending(e.sessionId, e.run, e.mayRetry));
      SpawnInOrder(next, [Sending(e.sessionId, e.run, e.mayRetry)]);
    }
  }

  /** A new prompt waits only while disconnected, and then no loop of an ended generation is current. */
  lemma PromptKeepsOrder(w: World, e: Event, t: Task)
    requires Invariant(w) && e.Prompts? && e.run !in w.agent.prompts && InOrder(w.agent, w.ended, t)
    ensures InOrder(OnPrompt(w.agent, e.sessionId, e.sessionKey, e.run), w.ended, t)
  {
    hide Lookup, Faces, SetEntry, RejectedAreGone, TaskInvariant, IsMap;
    var a, b := w.agent, OnPrompt(w.agent, e.sessionId, e.sessionKey, e.run);
    if FromReconnect(t) && LoopOf(t).value.generation == a.disconnectGeneration {
      assert a.activeDisconnectContext.None?;
      forall s, run | Waits(b, s, run) ensures Waits(a, s, run) {
        NewPromptWaits(a, e, s, run);
      }
    }
  }

  lemma NewPromptWaits(a: Agent, e: Event, sessionId: string, run: string)
    requires e.Prompts? && e.run !in a.prompts && a.activeDisconnectContext.None?
    requires Waits(OnPrompt(a, e.sessionId, e.sessionKey, e.run), sessionId, run)
    ensures Waits(a, sessionId, run)
  {
    hide Lookup;
  }

  lemma CancelInOrder(w: World, sessionId: string)
    requires Invariant(w) && LoopsInOrder(w)
    ensures LoopsInOrder(Step(w, Cancels(sessionId)))
  {
    hide AgentInvariant, TaskInvariant, EndedAreOver, Spawn, InOrder, Lookup;
    if Lookup(w.agent.pendingPrompts, sessionId).Some? {
      var task := Cancelling(sessionId, Lookup(w.agent.pendingPrompts, sessionId).value);
      DeadlineLoopInOrder(w.agent, w.ended, task);
      SpawnInOrder(w, [task]);
    }
  }

  lemma ChatEndInOrder(w: World, e: Event)
    requires Invariant(w) && LoopsInOrder(w) && e.ChatEnds?
    ensures LoopsInOrder(Step(w, e))
  {
    hide AgentInvariant, TaskInvariant, EndedAreOver, Spawn, InOrder, IsRegistered, StampOf, FindBySessionKey, Remove;
    var r := OnChatEnd(w.agent, e.sessionKey, e.runId, e.state, e.hasMessage);
    var found := FindBySessionKey(w.agent, w.agent.pendingPrompts, e.sessionKey, e.runId);
    if found.Some? {
      RemoveOnlyRemoves(w.agent, found.value.sessionId);
      RemoveKeepsStamps(w.agent, found.value.sessionId);
    }
    forall i | 0 <= i < |r.tasks| ensures InOrder(r.agent, w.ended, r.tasks[i]) {
      DeadlineLoopInOrder(r.agent, w.ended, r.tasks[i]);
    }
    ContinueInOrder(w, w, r);
  }

  lemma StepInOrder(w: World, e: Event)
    requires Invariant(w) && LoopsInOrder(w)
    ensures LoopsInOrder(Step(w, e))
  {
    hide Step, LoopsInOrder, Invariant;
    match e
    case Disconnect(reason) => DisconnectInOrder(w, reason);
    case Reconnect => ReconnectInOrder(w);
    case TimerFires => TimerInOrder(w);
    case Prompts(_, _, _, _) => PromptInOrder(w, e);
    case Cancels(sessionId) => CancelInOrder(w, sessionId);
    case ChatEnds(_, _, _, _) => ChatEndInOrder(w, e);
    case Replies(id, reply) =>
      if id in w.tasks {
        ReplyInOrder(w, id, reply);
      } else {
        NoSuchCall(w, id, reply);
      }
  }

  lemma {:induction false} EveryRunIsInOrder(events: seq<Event>)
    ensures LoopsInOrder(Run(events))
  {
    hide Step, LoopsInOrder, Invariant;
    if events == [] {
      NothingOutOfOrder();
    } else {
      EveryRunIsInOrder(events[..|events| - 1]);
      EveryRunKeepsInvariant(events[..|events| - 1]);
      StepInOrder(Run(events[..|events| - 1]), events[|events| - 1]);
    }
  }

  lemma NothingOutOfOrder()
    ensures LoopsInOrder(Initial())
  {
  }

  /** In every run, only the end of a deadline loop takes a deadline from a prompt. */
  lemma OnlyDeadlineLoopsStrand(events: seq<Event>, e: Event)
    requires Strands(Run(events), e)
    ensures Run(events).tasks[e.task].reconcile.deadlineExpired
  {
    hide Run, Waits, Visited, Loop;
    var w := Run(events);
    EveryRunIsInOrder(events);
    EveryRunKeepsInvariant(events);
    var task := w.tasks[e.task];
    if !task.reconcile.deadlineExpired {
      var s, run :| Waits(w.agent, s, run) && !Visited(w.tasks - {e.task}, w.agent.disconnectGeneration, Entry(s, run));
      assert InOrder(w.agent, w.ended, task);
      assert Entry(s, run) in task.reconcile.rest;
      LoopReaches(w.agent, task.reconcile, Entry(s, run), w.reasons);
    }
  }

  lemma {:induction false} LoopReaches(a: Agent, rec: Reconcile, e: Entry, reasons: seq<string>)
    requires AgentInvariant(a, reasons) && Waits(a, e.sessionId, e.run)
    requires rec.generation == a.disconnectGeneration && e in rec.rest
    ensures Loop(a, rec).tasks != []
    decreases |rec.rest|
  {
    hide AgentInvariant, Waits, ToVisit;
    WaitingEntryIsVisited(a, e, reasons);
    if !ToVisit(a, rec.generation, rec.rest[0]) {
      LoopReaches(a, rec.(rest := rec.rest[1..]), e, reasons);
    }
  }
}
