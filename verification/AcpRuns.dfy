/** Whole runs of the ACP bridge (src/acp/translator.ts): every interleaving of gateway events, client calls
    and suspended calls. */
module AcpRuns {
  import opened Common
  import opened AcpAgent

  // ----- runs -----

  /** The agent, the suspended calls, and what happened so far: the reason of each disconnect and
      the generations that a reconnect has ended. */
  datatype World = World(
    agent: Agent,
    tasks: map<nat, Task>,
    nextTask: nat,
    reasons: seq<string>,
    ended: set<nat>)

  datatype Event =
    | Disconnect(reason: string)
    | Reconnect
    | TimerFires
    | Prompts(sessionId: string, sessionKey: string, run: string, mayRetry: bool)
    | Cancels(sessionId: string)
    | ChatEnds(sessionKey: string, runId: Option<string>, state: ChatState, hasMessage: bool)
    | Replies(task: nat, reply: Reply)

  function Initial(): World {
    World(Agent([], map[], None, None, 0, []), map[], 0, [], {})
  }

  function Spawn(w: World, tasks: seq<Task>): World
    decreases |tasks|
  {
    if tasks == [] then w
    else Spawn(w.(tasks := w.tasks[w.nextTask := tasks[0]], nextTask := w.nextTask + 1), tasks[1..])
  }

  function Continue(w: World, r: Resumed): World {
    Spawn(w.(agent := r.agent), r.tasks)
  }

  /** One atomic step. A prompt draws a run id that no prompt had before; other repeats and replies to calls that
      are not suspended change nothing. */
  function Step(w: World, e: Event): World {
    match e
    case Disconnect(reason) => w.(agent := OnDisconnect(w.agent, reason), reasons := w.reasons + [reason])
    case Reconnect =>
      var ended := if w.agent.activeDisconnectContext.Some?
        then w.ended + {w.agent.activeDisconnectContext.value.generation} else w.ended;
      Continue(w.(ended := ended), OnReconnect(w.agent))
    case TimerFires => Continue(w, OnTimer(w.agent))
    case Prompts(sessionId, sessionKey, run, mayRetry) =>
      if run in w.agent.prompts then w
      else Continue(w, Resumed(OnPrompt(w.agent, sessionId, sessionKey, run), [Sending(sessionId, run, mayRetry)]))
    case Cancels(sessionId) =>
      (match Lookup(w.agent.pendingPrompts, sessionId)
       case None => w
       case Some(run) => Spawn(w, [Cancelling(sessionId, run)]))
    case ChatEnds(sessionKey, runId, state, hasMessage) =>
      Continue(w, OnChatEnd(w.agent, sessionKey, runId, state, hasMessage))
    case Replies(task, reply) =>
      if task !in w.tasks then w
      else Continue(w.(tasks := w.tasks - {task}), Resume(w.agent, w.tasks[task], reply))
  }

  function Run(events: seq<Event>): World {
    if events == [] then Initial() else Step(Run(events[..|events| - 1]), events[|events| - 1])
  }

  // ----- the invariant -----

  /** Contexts are made once per generation: the generation determines the reason. */
  predicate Known(c: DisconnectContext, reasons: seq<string>) {
    1 <= c.generation <= |reasons| && reasons[c.generation - 1] == c.reason
  }

  predicate ContextsAreKnown(a: Agent, reasons: seq<string>) {
    && a.disconnectGeneration == |reasons|
    && (forall run :: run in a.prompts && a.prompts[run].disconnectContext.Some? ==>
          Known(a.prompts[run].disconnectContext.value, reasons))
    && (a.activeDisconnectContext.Some? ==> Known(a.activeDisconnectContext.value, reasons))
  }

  /** While disconnected, the active context is the newest one and every registered prompt carries it. */
  ghost predicate ActiveIsStamped(a: Agent) {
    a.activeDisconnectContext.Some? ==>
      && a.activeDisconnectContext.value.generation == a.disconnectGeneration
      && forall sessionId, run :: IsRegistered(a, sessionId, run) ==> StampOf(a, run) == a.activeDisconnectContext
  }

  /** A registered prompt that carries a stamp carries the newest one, connected or not. */
  ghost predicate StampsAreNewest(a: Agent) {
    forall sessionId, run :: IsRegistered(a, sessionId, run) && StampOf(a, run).Some? ==>
      StampOf(a, run).value.generation == a.disconnectGeneration
  }

  /** An armed timer is for the newest disconnect, and some prompt is waiting for it. */
  predicate TimerIsCurrent(a: Agent) {
    a.disconnectTimer.Some? ==> a.pendingPrompts != [] && a.disconnectTimer.value == a.disconnectGeneration
  }

  ghost predicate EntriesAreKnown(a: Agent) {
    forall sessionId, run :: IsRegistered(a, sessionId, run) ==>
      run in a.prompts && a.prompts[run].sessionId == sessionId
  }

  /** A prompt rejected at a deadline has left the map for good, and was rejected once. */
  ghost predicate RejectedAreGone(a: Agent) {
    && (forall i :: 0 <= i < |a.settled| && a.settled[i].outcome.Disconnected? ==>
          a.settled[i].run in a.prompts && !IsRegistered(a, a.prompts[a.settled[i].run].sessionId, a.settled[i].run))
    && (forall i, j ::
          0 <= i < j < |a.settled| && a.settled[i].outcome.Disconnected? && a.settled[j].outcome.Disconnected? ==>
          a.settled[i].run != a.settled[j].run)
  }

  ghost predicate AgentInvariant(a: Agent, reasons: seq<string>) {
    && ContextsAreKnown(a, reasons) && ActiveIsStamped(a) && StampsAreNewest(a) && TimerIsCurrent(a)
    && IsMap(a.pendingPrompts) && EntriesAreKnown(a) && RejectedAreGone(a)
  }

  predicate TaskInvariant(t: Task, reasons: seq<string>) {
    t.Asking? ==> Known(t.context, reasons) && t.context.generation == t.reconcile.generation
  }

  predicate TasksInvariant(tasks: seq<Task>, reasons: seq<string>) {
    forall i :: 0 <= i < |tasks| ==> TaskInvariant(tasks[i], reasons)
  }

  predicate EndedAreOver(w: World) {
    && (forall g :: g in w.ended ==> g <= |w.reasons|)
    && (w.agent.activeDisconnectContext.Some? ==> w.agent.activeDisconnectContext.value.generation !in w.ended)
  }

  ghost predicate Invariant(w: World) {
    && AgentInvariant(w.agent, w.reasons)
    && (forall id :: id in w.tasks ==> id < w.nextTask && TaskInvariant(w.tasks[id], w.reasons))
    && EndedAreOver(w)
  }

  // ----- every agent operation keeps the agent's part -----

  /** The agent changes only in ways that cannot break its invariant: prompts leave the map, deadlines are noted. */
  lemma RemoveKeeps(a: Agent, sessionId: string, reasons: seq<string>)
    requires AgentInvariant(a, reasons)
    ensures AgentInvariant(Remove(a, sessionId), reasons)
  {
    hide Lookup, Known, IsMap;
    var b := Remove(a, sessionId);
    DeleteEntryIsMap(a.pendingPrompts, sessionId);
    assert forall s, run :: IsRegistered(b, s, run) ==> IsRegistered(a, s, run);
    assert forall run :: StampOf(b, run) == StampOf(a, run);
  }

  lemma SettleKeeps(a: Agent, run: string, outcome: Outcome, reasons: seq<string>)
    requires AgentInvariant(a, reasons)
    requires outcome.Disconnected? ==>
               && run in a.prompts && !IsRegistered(a, a.prompts[run].sessionId, run)
               && forall i :: 0 <= i < |a.settled| && a.settled[i].outcome.Disconnected? ==> a.settled[i].run != run
    ensures AgentInvariant(Settle(a, run, outcome), reasons)
  {
    hide Lookup, Known;
    var b := Settle(a, run, outcome);
    assert forall s, r :: IsRegistered(b, s, r) <==> IsRegistered(a, s, r);
    assert forall r :: StampOf(b, r) == StampOf(a, r);
  }

  lemma ClearTimerKeeps(a: Agent, reasons: seq<string>)
    requires AgentInvariant(a, reasons)
    ensures AgentInvariant(ClearTimer(a), reasons)
  {
    hide Lookup, Known;
    var b := ClearTimer(a);
    assert forall s, r :: IsRegistered(b, s, r) <==> IsRegistered(a, s, r);
    assert forall r :: StampOf(b, r) == StampOf(a, r);
  }

  lemma ReconnectKeeps(a: Agent, reasons: seq<string>)
    requires AgentInvariant(a, reasons)
    ensures AgentInvariant(a.(activeDisconnectContext := None), reasons)
  {
    hide Lookup, Known;
    var b := a.(activeDisconnectContext := None);
    assert forall s, r :: IsRegistered(b, s, r) <==> IsRegistered(a, s, r);
  }

  lemma {:induction false} StampAllSets(prompts: map<string, PendingPrompt>, entries: seq<Entry>,
      context: DisconnectContext)
    ensures var after := StampAll(prompts, entries, context);
            && after.Keys == prompts.Keys
            && (forall run :: run in prompts ==>
                  && after[run].sessionId == prompts[run].sessionId
                  && after[run].disconnectContext in {prompts[run].disconnectContext, Some(context)})
            && (forall e :: e in entries && e.run in prompts ==> after[e.run].disconnectContext == Some(context))
    decreases |entries|
  {
    if entries != [] {
      var first := Stamp(prompts, entries[0].run, Some(context));
      StampAllSets(first, entries[1..], context);
    }
  }

  lemma RegisteredAreListed(a: Agent)
    ensures forall sessionId, run :: IsRegistered(a, sessionId, run) ==> Entry(sessionId, run) in a.pendingPrompts
  {
    forall sessionId, run | IsRegistered(a, sessionId, run) ensures Entry(sessionId, run) in a.pendingPrompts {
      FoundIsListed(a.pendingPrompts, sessionId);
    }
  }

  lemma DisconnectKeeps(a: Agent, reason: string, reasons: seq<string>)
    requires AgentInvariant(a, reasons)
    ensures AgentInvariant(OnDisconnect(a, reason), reasons + [reason])
  {
    hide Lookup, StampAll;
    var b := OnDisconnect(a, reason);
    StampAllSets(a.prompts, a.pendingPrompts, b.activeDisconnectContext.value);
    RegisteredAreListed(a);
    assert forall s, r :: IsRegistered(b, s, r) <==> IsRegistered(a, s, r);
    assert ContextsAreKnown(b, reasons + [reason]);
    assert ActiveIsStamped(b);
    assert EntriesAreKnown(b) && RejectedAreGone(b);
  }

  lemma PromptKeeps(a: Agent, sessionId: string, sessionKey: string, run: string, reasons: seq<string>)
    requires AgentInvariant(a, reasons) && run !in a.prompts
    ensures AgentInvariant(OnPrompt(a, sessionId, sessionKey, run), reasons)
  {
    hide Lookup, Known, IsMap, TimerIsCurrent, ContextsAreKnown;
    var b := OnPrompt(a, sessionId, sessionKey, run);
    SetEntryIsMap(a.pendingPrompts, sessionId, run);
    PromptKeepsContexts(a, sessionId, sessionKey, run, reasons);
    assert forall s, r :: IsRegistered(b, s, r) ==> if s == sessionId then r == run else IsRegistered(a, s, r);
    assert forall r :: r in a.prompts ==> StampOf(b, r) == StampOf(a, r);
    assert ActiveIsStamped(b);
    assert RejectedAreGone(b);
  }

  lemma PromptKeepsContexts(a: Agent, sessionId: string, sessionKey: string, run: string, reasons: seq<string>)
    requires ContextsAreKnown(a, reasons) && TimerIsCurrent(a)
    requires a.activeDisconnectContext.Some? ==> a.activeDisconnectContext.value.generation == a.disconnectGeneration
    ensures var b := OnPrompt(a, sessionId, sessionKey, run); ContextsAreKnown(b, reasons) && TimerIsCurrent(b)
  {
    hide Lookup, Known, SetEntry;
    var entries := SetEntry(a.pendingPrompts, sessionId, run);
    assert Lookup(entries, sessionId) == Some(run);
    if entries == [] {
      NothingListed(sessionId);
    }
  }

  lemma NothingListed(sessionId: string)
    ensures Lookup([], sessionId) == None
  {
  }

  lemma AcceptedKeeps(a: Agent, sessionId: string, run: string, reasons: seq<string>)
    requires AgentInvariant(a, reasons)
    ensures AgentInvariant(OnSendAccepted(a, sessionId, run), reasons)
  {
    hide Lookup, Known;
    var b := OnSendAccepted(a, sessionId, run);
    assert forall s, r :: IsRegistered(b, s, r) <==> IsRegistered(a, s, r);
    assert forall r :: StampOf(b, r) == StampOf(a, r);
  }

  lemma RejectKeeps(a: Agent, run: string, reason: string, reasons: seq<string>)
    requires AgentInvariant(a, reasons)
    ensures AgentInvariant(Reject(a, run, reason), reasons)
  {
    hide Lookup, ContextsAreKnown, ActiveIsStamped, TimerIsCurrent, EntriesAreKnown;
    if run in a.prompts && IsRegistered(a, a.prompts[run].sessionId, run) {
      RemoveKeeps(a, a.prompts[run].sessionId, reasons);
      SettleKeeps(Remove(a, a.prompts[run].sessionId), run, Disconnected(reason), reasons);
    }
  }

  /** Two contexts that are both known and of one generation are the same context. */
  lemma KnownIsUnique(c: DisconnectContext, d: DisconnectContext, reasons: seq<string>)
    requires Known(c, reasons) && Known(d, reasons) && c.generation == d.generation
    ensures c == d
  {
  }

  /** A stamp is dropped at a deadline only when the prompt is not to be rejected; then it is not the active one's. */
  lemma ClearStampKeeps(a: Agent, run: string, context: DisconnectContext, reasons: seq<string>)
    requires AgentInvariant(a, reasons) && !ShouldReject(a, run, context)
    ensures AgentInvariant(ClearStamp(a, run, context), reasons)
  {
    hide Lookup, Known;
    var b := ClearStamp(a, run, context);
    assert forall s, r :: IsRegistered(b, s, r) <==> IsRegistered(a, s, r);
    assert forall r :: r != run ==> StampOf(b, r) == StampOf(a, r);
  }

  lemma {:induction false} LoopKeeps(a: Agent, rec: Reconcile, reasons: seq<string>)
    requires AgentInvariant(a, reasons)
    ensures AgentInvariant(Loop(a, rec).agent, reasons) && TasksInvariant(Loop(a, rec).tasks, reasons)
    decreases |rec.rest|
  {
    hide AgentInvariant, IsRegistered;
    if rec.rest == [] {
      ClearTimerKeeps(a, reasons);
    } else if ToVisit(a, rec.generation, rec.rest[0]) {
      StampIsKnown(a, rec.rest[0].run, reasons);
    } else {
      LoopKeeps(a, rec.(rest := rec.rest[1..]), reasons);
    }
  }

  lemma StampIsKnown(a: Agent, run: string, reasons: seq<string>)
    requires AgentInvariant(a, reasons) && StampOf(a, run).Some?
    ensures Known(StampOf(a, run).value, reasons)
  {
  }

  lemma StartKeeps(a: Agent, generation: nat, deadlineExpired: bool, reasons: seq<string>)
    requires AgentInvariant(a, reasons)
    ensures var r := StartReconcile(a, generation, deadlineExpired);
            AgentInvariant(r.agent, reasons) && TasksInvariant(r.tasks, reasons)
  {
    hide AgentInvariant, Loop;
    ClearTimerKeeps(a, reasons);
    LoopKeeps(a, Reconcile(generation, deadlineExpired, a.pendingPrompts, false), reasons);
  }

  lemma ResumeKeeps(a: Agent, task: Task, reply: Reply, reasons: seq<string>)
    requires AgentInvariant(a, reasons) && TaskInvariant(task, reasons)
    ensures var r := Resume(a, task, reply);
            AgentInvariant(r.agent, reasons) && TasksInvariant(r.tasks, reasons)
  {
    hide AgentInvariant, Loop, Remove, Settle, ClearStamp, Reject, OnSendAccepted, IsRegistered, Known, ShouldReject;
    match task
    case Sending(sessionId, run, _) =>
      AcceptedKeeps(a, sessionId, run, reasons);
      RemoveKeeps(a, sessionId, reasons);
      SettleKeeps(Remove(a, sessionId), run, SendFailed, reasons);
    case Cancelling(sessionId, run) =>
      RemoveKeeps(a, sessionId, reasons);
      SettleKeeps(Remove(a, sessionId), run, Resolved(Cancelled), reasons);
    case ShowingFinalText(sessionId, _, _) =>
      RemoveKeeps(a, sessionId, reasons);
    case Finishing(run, stopReason, _) =>
      SettleKeeps(a, run, Resolved(stopReason), reasons);
    case Asking(rec, sessionId, run, context) =>
      RemoveKeeps(a, sessionId, reasons);
      RejectKeeps(a, run, context.reason, reasons);
      if !ShouldReject(a, run, context) {
        ClearStampKeeps(a, run, context, reasons);
      }
    case Returning(rec) =>
      LoopKeeps(a, rec, reasons);
  }

  // ----- every step keeps the whole -----

  lemma {:induction false} SpawnKeeps(w: World, tasks: seq<Task>)
    requires Invariant(w) && TasksInvariant(tasks, w.reasons)
    ensures Invariant(Spawn(w, tasks))
    decreases |tasks|
  {
    hide AgentInvariant, TaskInvariant, EndedAreOver;
    if tasks != [] {
      var next := w.(tasks := w.tasks[w.nextTask := tasks[0]], nextTask := w.nextTask + 1);
      SameHistory(w, next);
      SpawnKeeps(next, tasks[1..]);
    }
  }

  lemma SameHistory(w: World, next: World)
    requires EndedAreOver(w) && next.reasons == w.reasons && next.ended == w.ended
    requires next.agent.activeDisconnectContext.Some? ==>
             next.agent.activeDisconnectContext == w.agent.activeDisconnectContext
    ensures EndedAreOver(next)
  {
  }

  lemma ContinueKeeps(w: World, r: Resumed)
    requires Invariant(w) && AgentInvariant(r.agent, w.reasons) && TasksInvariant(r.tasks, w.reasons)
    requires r.agent.activeDisconnectContext.Some? ==>
             r.agent.activeDisconnectContext == w.agent.activeDisconnectContext
    ensures Invariant(Continue(w, r))
  {
    hide AgentInvariant, TaskInvariant, EndedAreOver, Spawn;
    SameHistory(w, w.(agent := r.agent));
    SpawnKeeps(w.(agent := r.agent), r.tasks);
  }

  lemma {:induction false} LoopKeepsActive(a: Agent, rec: Reconcile)
    ensures Loop(a, rec).agent == a || Loop(a, rec).agent == ClearTimer(a)
    decreases |rec.rest|
  {
    hide ToVisit;
    if rec.rest != [] {
      LoopKeepsActive(a, rec.(rest := rec.rest[1..]));
    }
  }

  lemma ResumeKeepsActive(a: Agent, task: Task, reply: Reply)
    ensures Resume(a, task, reply).agent.activeDisconnectContext == a.activeDisconnectContext
  {
    hide Loop, IsRegistered, ShouldReject, DeleteEntry;
    if task.Returning? {
      LoopKeepsActive(a, task.reconcile);
    }
  }

  lemma DisconnectStep(w: World, reason: string)
    requires Invariant(w)
    ensures Invariant(Step(w, Disconnect(reason)))
  {
    hide AgentInvariant, OnDisconnect;
    DisconnectKeeps(w.agent, reason, w.reasons);
    ActiveIsNewest(w.agent, reason);
    forall id | id in w.tasks ensures TaskInvariant(w.tasks[id], w.reasons + [reason]) {
      assert TaskInvariant(w.tasks[id], w.reasons);
    }
    GenerationIsCount(w.agent, w.reasons);
  }

  lemma ActiveIsNewest(a: Agent, reason: string)
    ensures OnDisconnect(a, reason).activeDisconnectContext
            == Some(DisconnectContext(a.disconnectGeneration + 1, reason))
  {
  }

  lemma GenerationIsCount(a: Agent, reasons: seq<string>)
    requires AgentInvariant(a, reasons)
    ensures a.disconnectGeneration == |reasons|
    ensures a.activeDisconnectContext.Some? ==> 1 <= a.activeDisconnectContext.value.generation <= |reasons|
  {
  }

  lemma ReconnectStep(w: World)
    requires Invariant(w)
    ensures Invariant(Step(w, Reconnect))
  {
    hide AgentInvariant, StartReconcile, Spawn, TaskInvariant;
    var b := w.agent.(activeDisconnectContext := None);
    ReconnectKeeps(w.agent, w.reasons);
    GenerationIsCount(w.agent, w.reasons);
    if w.agent.activeDisconnectContext.Some? {
      var generation := w.agent.activeDisconnectContext.value.generation;
      StartKeeps(b, generation, false, w.reasons);
      StartKeepsActive(b, generation, false);
      var before := w.(agent := b, ended := w.ended + {generation});
      assert Invariant(before);
      ContinueKeeps(before, StartReconcile(b, generation, false));
    } else {
      assert b == w.agent;
      ContinueKeeps(w, Resumed(b, []));
    }
  }

  lemma StartKeepsActive(a: Agent, generation: nat, deadlineExpired: bool)
    ensures StartReconcile(a, generation, deadlineExpired).agent in {a, ClearTimer(a)}
  {
    hide Loop;
    LoopKeepsActive(a, Reconcile(generation, deadlineExpired, a.pendingPrompts, false));
  }

  lemma TimerStep(w: World)
    requires Invariant(w)
    ensures Invariant(Step(w, TimerFires))
  {
    hide AgentInvariant, StartReconcile, Spawn, TaskInvariant;
    if w.agent.disconnectTimer.Some? {
      var generation := w.agent.disconnectTimer.value;
      ClearTimerKeeps(w.agent, w.reasons);
      StartKeeps(ClearTimer(w.agent), generation, true, w.reasons);
      StartKeepsActive(ClearTimer(w.agent), generation, true);
      ContinueKeeps(w, StartReconcile(ClearTimer(w.agent), generation, true));
    } else {
      ContinueKeeps(w, Resumed(w.agent, []));
    }
  }

  lemma ReplyStep(w: World, id: nat, reply: Reply)
    requires Invariant(w) && id in w.tasks
    ensures Invariant(Step(w, Replies(id, reply)))
  {
    hide AgentInvariant, Resume, Spawn, TaskInvariant, EndedAreOver;
    var rest := w.(tasks := w.tasks - {id});
    SameHistory(w, rest);
    ResumeKeeps(w.agent, w.tasks[id], reply, w.reasons);
    ResumeKeepsActive(w.agent, w.tasks[id], reply);
    ContinueKeeps(rest, Resume(w.agent, w.tasks[id], reply));
  }

  lemma StepKeepsInvariant(w: World, e: Event)
    requires Invariant(w)
    ensures Invariant(Step(w, e))
  {
    hide AgentInvariant, EndedAreOver, StartReconcile, Resume, Remove, IsRegistered, Lookup, SetEntry;
    match e
    case Disconnect(reason) => DisconnectStep(w, reason);
    case Reconnect => ReconnectStep(w);
    case TimerFires => TimerStep(w);
    case Prompts(sessionId, sessionKey, run, mayRetry) =>
      if run !in w.agent.prompts {
        PromptKeeps(w.agent, sessionId, sessionKey, run, w.reasons);
        ContinueKeeps(w, Resumed(OnPrompt(w.agent, sessionId, sessionKey, run), [Sending(sessionId, run, mayRetry)]));
      }
    case Cancels(sessionId) =>
      if Lookup(w.agent.pendingPrompts, sessionId).Some? {
        SpawnKeeps(w, [Cancelling(sessionId, Lookup(w.agent.pendingPrompts, sessionId).value)]);
      }
    case ChatEnds(sessionKey, runId, state, hasMessage) =>
      var found := FindBySessionKey(w.agent, w.agent.pendingPrompts, sessionKey, runId);
      if found.Some? {
        RemoveKeeps(w.agent, found.value.sessionId, w.reasons);
        RemoveKeepsActive(w.agent, found.value.sessionId);
      }
      ContinueKeeps(w, OnChatEnd(w.agent, sessionKey, runId, state, hasMessage));
    case Replies(id, reply) =>
      if id in w.tasks {
        ReplyStep(w, id, reply);
      }
  }

  lemma RemoveKeepsActive(a: Agent, sessionId: string)
    ensures Remove(a, sessionId).activeDisconnectContext == a.activeDisconnectContext
  {
  }

  lemma InitialInvariant()
    ensures Invariant(Initial())
  {
  }

  /** In every run: while disconnected, the active context is the newest and every registered prompt is stamped with it;
      no stamp is newer than the current generation; an armed timer is for the newest disconnect. */
  lemma {:induction false} EveryRunKeepsInvariant(events: seq<Event>)
    ensures Invariant(Run(events))
  {
    hide Invariant, Step;
    if events == [] {
      InitialInvariant();
    } else {
      EveryRunKeepsInvariant(events[..|events| - 1]);
      StepKeepsInvariant(Run(events[..|events| - 1]), events[|events| - 1]);
    }
  }

  lemma DisconnectedPromptsAreStamped(events: seq<Event>, sessionId: string, run: string)
    ensures var a := Run(events).agent;
            && (a.activeDisconnectContext.Some? ==>
                  a.activeDisconnectContext.value.generation == a.disconnectGeneration)
            && (a.activeDisconnectContext.Some? && IsRegistered(a, sessionId, run) ==>
                  StampOf(a, run) == a.activeDisconnectContext)
            && (StampOf(a, run).Some? ==> StampOf(a, run).value.generation <= a.disconnectGeneration)
            && (a.disconnectTimer.Some? ==> a.pendingPrompts != [] && a.disconnectTimer.value == a.disconnectGeneration)
  {
    hide Run, IsRegistered;
    EveryRunKeepsInvariant(events);
  }

  // ----- what a deadline may reject -----

  /** The prompt's own record decides: it is registered, carries the stamp of the generation whose deadline it is,
      and if its send was accepted, no reconnect has ended that generation. */
  ghost predicate MayReject(w: World, e: Event, rejected: Settled) {
    && e.Replies? && e.task in w.tasks && w.tasks[e.task].Asking?
    && var task := w.tasks[e.task];
       var generation := task.reconcile.generation;
    && e.reply in {WaitThrows, WaitSays(StillRunning)}
    && task.reconcile.deadlineExpired
    && rejected.run == task.run && task.run in w.agent.prompts
    && IsRegistered(w.agent, w.agent.prompts[task.run].sessionId, task.run)
    && StampOf(w.agent, task.run) == Some(task.context) && task.context.generation == generation
    && Known(task.context, w.reasons) && rejected.outcome == Disconnected(task.context.reason)
    && (w.agent.prompts[task.run].sendAccepted ==>
          generation !in w.ended && w.agent.activeDisconnectContext == Some(task.context))
  }

  lemma {:induction false} SpawnKeepsAgent(w: World, tasks: seq<Task>)
    ensures var after := Spawn(w, tasks);
            after.agent == w.agent && after.reasons == w.reasons && after.ended == w.ended
    decreases |tasks|
  {
    if tasks != [] {
      SpawnKeepsAgent(w.(tasks := w.tasks[w.nextTask := tasks[0]], nextTask := w.nextTask + 1), tasks[1..]);
    }
  }

  function AgentAfter(w: World, e: Event): Agent {
    match e
    case Disconnect(reason) => OnDisconnect(w.agent, reason)
    case Reconnect => OnReconnect(w.agent).agent
    case TimerFires => OnTimer(w.agent).agent
    case Prompts(sessionId, sessionKey, run, mayRetry) =>
      if run in w.agent.prompts then w.agent else OnPrompt(w.agent, sessionId, sessionKey, run)
    case Cancels(sessionId) => w.agent
    case ChatEnds(sessionKey, runId, state, hasMessage) =>
      OnChatEnd(w.agent, sessionKey, runId, state, hasMessage).agent
    case Replies(id, reply) => if id in w.tasks then Resume(w.agent, w.tasks[id], reply).agent else w.agent
  }

  lemma StepAgent(w: World, e: Event)
    ensures Step(w, e).agent == AgentAfter(w, e)
  {
    hide Spawn, OnDisconnect, OnReconnect, OnTimer, OnPrompt, OnChatEnd, Resume, Lookup;
    match e
    case Disconnect(_) =>
    case Reconnect =>
      var r := OnReconnect(w.agent);
      var ended := if w.agent.activeDisconnectContext.Some?
        then w.ended + {w.agent.activeDisconnectContext.value.generation} else w.ended;
      SpawnKeepsAgent(w.(ended := ended).(agent := r.agent), r.tasks);
    case TimerFires =>
      SpawnKeepsAgent(w.(agent := OnTimer(w.agent).agent), OnTimer(w.agent).tasks);
    case Prompts(sessionId, sessionKey, run, mayRetry) =>
      SpawnKeepsAgent(w.(agent := OnPrompt(w.agent, sessionId, sessionKey, run)), [Sending(sessionId, run, mayRetry)]);
    case Cancels(sessionId) =>
      if Lookup(w.agent.pendingPrompts, sessionId).Some? {
        SpawnKeepsAgent(w, [Cancelling(sessionId, Lookup(w.agent.pendingPrompts, sessionId).value)]);
      }
    case ChatEnds(sessionKey, runId, state, hasMessage) =>
      var r := OnChatEnd(w.agent, sessionKey, runId, state, hasMessage);
      SpawnKeepsAgent(w.(agent := r.agent), r.tasks);
    case Replies(id, reply) =>
      if id in w.tasks {
        var r := Resume(w.agent, w.tasks[id], reply);
        SpawnKeepsAgent(w.(tasks := w.tasks - {id}, agent := r.agent), r.tasks);
      }
  }

  /** Only a resumed call settles a prompt. */
  lemma SettledByReply(w: World, e: Event)
    ensures Step(w, e).agent.settled ==
            if e.Replies? && e.task in w.tasks then Resume(w.agent, w.tasks[e.task], e.reply).agent.settled
               else w.agent.settled
  {
    hide Step, Loop, StartReconcile, Resume, Lookup, FindBySessionKey, StampAll, SetEntry, DeleteEntry;
    StepAgent(w, e);
    if e.Reconnect? && w.agent.activeDisconnectContext.Some? {
      StartKeepsActive(w.agent.(activeDisconnectContext := None), w.agent.activeDisconnectContext.value.generation,
        false);
    } else if e.TimerFires? && w.agent.disconnectTimer.Some? {
      StartKeepsActive(ClearTimer(w.agent), w.agent.disconnectTimer.value, true);
    }
  }

  lemma SettledByResume(a: Agent, task: Task, reply: Reply)
    ensures var after := Resume(a, task, reply).agent.settled;
            || after == a.settled
            || (|after| == |a.settled| + 1 && after[..|a.settled|] == a.settled
                && (after[|a.settled|].outcome.Disconnected? ==>
                      && task.Asking? && reply in {WaitThrows, WaitSays(StillRunning)} && task.reconcile.deadlineExpired
                      && task.run in a.prompts && IsRegistered(a, a.prompts[task.run].sessionId, task.run)
                      && ShouldReject(a, task.run, task.context)
                      && after[|a.settled|] == Settled(task.run, Disconnected(task.context.reason))))
  {
    hide Loop, Lookup, DeleteEntry, ShouldReject;
    if task.Returning? {
      LoopKeepsActive(a, task.reconcile);
    }
  }

  /** In every run, a deadline rejects only a prompt that is registered and stamped with the deadline's generation;
      a prompt whose send was accepted only if no reconnect has ended that disconnect. */
  lemma DeadlineRejectsOnlyTheStranded(events: seq<Event>, e: Event, i: nat)
    requires var after := Step(Run(events), e).agent.settled;
             |Run(events).agent.settled| <= i < |after| && after[i].outcome.Disconnected?
    ensures MayReject(Run(events), e, Step(Run(events), e).agent.settled[i])
  {
    hide Run, Step, Resume, AgentInvariant, IsRegistered;
    var w := Run(events);
    EveryRunKeepsInvariant(events);
    SettledByReply(w, e);
    var task := w.tasks[e.task];
    SettledByResume(w.agent, task, e.reply);
    assert TaskInvariant(task, w.reasons);
    if w.agent.activeDisconnectContext.Some?
       && w.agent.activeDisconnectContext.value.generation == task.context.generation {
      ActiveIsKnown(w.agent, w.reasons);
      KnownIsUnique(w.agent.activeDisconnectContext.value, task.context, w.reasons);
    }
  }

  lemma ActiveIsKnown(a: Agent, reasons: seq<string>)
    requires AgentInvariant(a, reasons) && a.activeDisconnectContext.Some?
    ensures Known(a.activeDisconnectContext.value, reasons)
  {
  }

  /** In every run, a prompt is rejected at a deadline at most once, and is not registered afterwards. */
  lemma DeadlineRejectsOnce(events: seq<Event>, i: nat, j: nat)
    requires var settled := Run(events).agent.settled;
             && i < j < |settled| && settled[i].outcome.Disconnected? && settled[j].outcome.Disconnected?
    ensures Run(events).agent.settled[i].run != Run(events).agent.settled[j].run
  {
    hide Run;
    EveryRunKeepsInvariant(events);
  }

  // ----- what leaves the map does not come back -----

  ghost predicate HasLeft(a: Agent, run: string) {
    run in a.prompts && forall sessionId :: !IsRegistered(a, sessionId, run)
  }

  lemma RemoveLeaves(a: Agent, sessionId: string, run: string)
    requires HasLeft(a, run)
    ensures HasLeft(Remove(a, sessionId), run)
  {
    hide Lookup;
    assert forall s :: IsRegistered(Remove(a, sessionId), s, run) ==> IsRegistered(a, s, run);
  }

  lemma ResumeLeaves(a: Agent, task: Task, reply: Reply, run: string)
    requires HasLeft(a, run)
    ensures HasLeft(Resume(a, task, reply).agent, run)
  {
    hide Lookup, Loop, Remove, ShouldReject, StampOf, HasLeft;
    match task
    case Sending(sessionId, sent, _) =>
      RemoveLeaves(a, sessionId, run);
      AcceptedLeaves(a, sessionId, sent, run);
      SettleLeaves(Remove(a, sessionId), sent, SendFailed, run);
    case Cancelling(sessionId, cancelled) =>
      RemoveLeaves(a, sessionId, run);
      SettleLeaves(Remove(a, sessionId), cancelled, Resolved(Cancelled), run);
    case ShowingFinalText(sessionId, _, _) => RemoveLeaves(a, sessionId, run);
    case Finishing(finished, stopReason, _) => SettleLeaves(a, finished, Resolved(stopReason), run);
    case Asking(_, sessionId, asked, context) =>
      RemoveLeaves(a, sessionId, run);
      ClearStampLeaves(a, asked, context, run);
      if asked in a.prompts {
        RemoveLeaves(a, a.prompts[asked].sessionId, run);
        SettleLeaves(Remove(a, a.prompts[asked].sessionId), asked, Disconnected(context.reason), run);
      }
    case Returning(rec) =>
      LoopKeepsActive(a, rec);
      ClearTimerLeaves(a, run);
  }

  lemma SettleLeaves(a: Agent, settled: string, outcome: Outcome, run: string)
    ensures HasLeft(a, run) ==> HasLeft(Settle(a, settled, outcome), run)
  {
    hide Lookup;
    assert forall s :: IsRegistered(Settle(a, settled, outcome), s, run) <==> IsRegistered(a, s, run);
  }

  lemma AcceptedLeaves(a: Agent, sessionId: string, sent: string, run: string)
    ensures HasLeft(a, run) ==> HasLeft(OnSendAccepted(a, sessionId, sent), run)
  {
    hide Lookup;
    assert forall s :: IsRegistered(OnSendAccepted(a, sessionId, sent), s, run) <==> IsRegistered(a, s, run);
  }

  lemma ClearStampLeaves(a: Agent, asked: string, context: DisconnectContext, run: string)
    ensures HasLeft(a, run) ==> HasLeft(ClearStamp(a, asked, context), run)
  {
    hide Lookup;
    assert forall s :: IsRegistered(ClearStamp(a, asked, context), s, run) <==> IsRegistered(a, s, run);
  }

  lemma ClearTimerLeaves(a: Agent, run: string)
    ensures HasLeft(a, run) ==> HasLeft(ClearTimer(a), run)
  {
    hide Lookup;
    assert forall s :: IsRegistered(ClearTimer(a), s, run) <==> IsRegistered(a, s, run);
  }

  lemma ReconnectLeaves(a: Agent, run: string)
    requires HasLeft(a, run)
    ensures HasLeft(a.(activeDisconnectContext := None), run)
  {
    hide Lookup;
    var b := a.(activeDisconnectContext := None);
    assert forall s :: IsRegistered(b, s, run) <==> IsRegistered(a, s, run);
  }

  lemma DisconnectLeaves(a: Agent, reason: string, run: string)
    requires HasLeft(a, run)
    ensures HasLeft(OnDisconnect(a, reason), run)
  {
    hide Lookup, StampAll;
    StampAllSets(a.prompts, a.pendingPrompts, DisconnectContext(a.disconnectGeneration + 1, reason));
    assert forall s :: IsRegistered(OnDisconnect(a, reason), s, run) <==> IsRegistered(a, s, run);
  }

  lemma PromptLeaves(a: Agent, sessionId: string, sessionKey: string, newRun: string, run: string)
    requires HasLeft(a, run) && newRun != run
    ensures HasLeft(OnPrompt(a, sessionId, sessionKey, newRun), run)
  {
    hide Lookup;
    var b := OnPrompt(a, sessionId, sessionKey, newRun);
    assert forall s :: IsRegistered(b, s, run) ==> IsRegistered(a, s, run);
  }

  /** A prompt that was finished, cancelled, rejected or overwritten is never registered again. */
  lemma LeftForGood(w: World, e: Event, run: string)
    requires HasLeft(w.agent, run)
    ensures HasLeft(Step(w, e).agent, run)
  {
    hide Step, StartReconcile, OnDisconnect, OnPrompt, Resume, FindBySessionKey, Remove, HasLeft;
    StepAgent(w, e);
    match e
    case Disconnect(reason) => DisconnectLeaves(w.agent, reason, run);
    case Reconnect =>
      var b := w.agent.(activeDisconnectContext := None);
      ReconnectLeaves(w.agent, run);
      ClearTimerLeaves(b, run);
      if w.agent.activeDisconnectContext.Some? {
        StartKeepsActive(b, w.agent.activeDisconnectContext.value.generation, false);
      }
    case TimerFires =>
      ClearTimerLeaves(w.agent, run);
      if w.agent.disconnectTimer.Some? {
        StartKeepsActive(ClearTimer(w.agent), w.agent.disconnectTimer.value, true);
      }
    case Prompts(sessionId, sessionKey, newRun, _) =>
      if newRun !in w.agent.prompts {
        NewRunIsOther(w.agent, newRun, run);
        PromptLeaves(w.agent, sessionId, sessionKey, newRun, run);
      }
    case Cancels(_) =>
    case ChatEnds(sessionKey, runId, _, _) =>
      var found := FindBySessionKey(w.agent, w.agent.pendingPrompts, sessionKey, runId);
      if found.Some? {
        RemoveLeaves(w.agent, found.value.sessionId, run);
      }
    case Replies(id, reply) =>
      if id in w.tasks {
        ResumeLeaves(w.agent, w.tasks[id], reply, run);
      }
  }

  lemma NewRunIsOther(a: Agent, newRun: string, run: string)
    requires HasLeft(a, run) && newRun !in a.prompts
    ensures newRun != run
  {
  }
}
