/** The pending prompts of the ACP bridge (src/acp/translator.ts): every method of the agent, cut at its awaits.
    A pending prompt is named by the run id that its `prompt` call drew; the record stays known after the prompt has
    left the map of pending prompts, because suspended calls keep referring to it. */
module AcpAgent {
  import opened Common

  datatype DisconnectContext = DisconnectContext(generation: nat, reason: string)

  datatype PendingPrompt = PendingPrompt(
    sessionId: string,
    sessionKey: string,
    sendAccepted: bool,
    disconnectContext: Option<DisconnectContext>)

  /** One entry of the map of pending prompts, in insertion order. */
  datatype Entry = Entry(sessionId: string, run: string)

  datatype StopReason = EndTurn | MaxTokens | Cancelled

  datatype Outcome = Resolved(stopReason: StopReason) | SendFailed | Disconnected(reason: string)

  datatype Settled = Settled(run: string, outcome: Outcome)

  datatype Agent = Agent(
    pendingPrompts: seq<Entry>,
    prompts: map<string, PendingPrompt>,
    disconnectTimer: Option<nat>,
    activeDisconnectContext: Option<DisconnectContext>,
    disconnectGeneration: nat,
    settled: seq<Settled>)

  /** The rest of a loop over the pending prompts found when a disconnect is reconciled. */
  datatype Reconcile = Reconcile(generation: nat, deadlineExpired: bool, rest: seq<Entry>, keepDisconnectTimer: bool)

  /** A call suspended at an await, with the values it still needs. */
  datatype Task =
    | Sending(sessionId: string, run: string, mayRetry: bool)
    | Cancelling(sessionId: string, run: string)
    | ShowingFinalText(sessionId: string, run: string, stopReason: StopReason)
    | Finishing(run: string, stopReason: StopReason, resuming: Option<Reconcile>)
    | Asking(reconcile: Reconcile, sessionId: string, run: string, context: DisconnectContext)
    | Returning(reconcile: Reconcile)

  /** What ends an await. */
  datatype Reply =
    | Done
    | SendFails(isGatewayClose: bool, isScopeRejection: bool)
    | WaitThrows
    | WaitSays(status: RunStatus)
    | UpdateFails

  datatype RunStatus = RunOk | RunError | StillRunning

  /** The agent after a piece of code has run up to its next await, and the calls that are suspended there. */
  datatype Resumed = Resumed(agent: Agent, tasks: seq<Task>)

  // ----- the map of pending prompts -----

  function Lookup(entries: seq<Entry>, sessionId: string): Option<string> {
    if entries == [] then None
    else if entries[0].sessionId == sessionId then Some(entries[0].run)
    else Lookup(entries[1..], sessionId)
  }

  function SetEntry(entries: seq<Entry>, sessionId: string, run: string): (r: seq<Entry>)
    ensures forall s :: Lookup(r, s) == if s == sessionId then Some(run) else Lookup(entries, s)
  {
    if entries == [] then [Entry(sessionId, run)]
    else if entries[0].sessionId == sessionId then [Entry(sessionId, run)] + entries[1..]
    else
      var rest := SetEntry(entries[1..], sessionId, run);
      var r := [entries[0]] + rest;
      assert r[1..] == rest;
      r
  }

  function DeleteEntry(entries: seq<Entry>, sessionId: string): (r: seq<Entry>)
    ensures forall s :: Lookup(r, s) == if s == sessionId then None else Lookup(entries, s)
  {
    if entries == [] then []
    else if entries[0].sessionId == sessionId then DeleteEntry(entries[1..], sessionId)
    else
      var rest := DeleteEntry(entries[1..], sessionId);
      var r := [entries[0]] + rest;
      assert r[1..] == rest;
      r
  }

  lemma {:induction false} FoundIsListed(entries: seq<Entry>, sessionId: string)
    requires Lookup(entries, sessionId).Some?
    ensures Entry(sessionId, Lookup(entries, sessionId).value) in entries
  {
    if entries[0].sessionId != sessionId {
      FoundIsListed(entries[1..], sessionId);
    }
  }

  /** A map: at most one entry per session. */
  predicate IsMap(entries: seq<Entry>) {
    entries == [] || (Lookup(entries[1..], entries[0].sessionId) == None && IsMap(entries[1..]))
  }

  lemma {:induction false} ListedIsFound(entries: seq<Entry>, e: Entry)
    requires IsMap(entries) && e in entries
    ensures Lookup(entries, e.sessionId) == Some(e.run)
  {
    if entries[0] != e {
      ListedIsFound(entries[1..], e);
    }
  }

  lemma {:induction false} SetEntryIsMap(entries: seq<Entry>, sessionId: string, run: string)
    requires IsMap(entries)
    ensures IsMap(SetEntry(entries, sessionId, run))
  {
    if entries != [] && entries[0].sessionId != sessionId {
      SetEntryIsMap(entries[1..], sessionId, run);
    }
  }

  lemma {:induction false} DeleteEntryIsMap(entries: seq<Entry>, sessionId: string)
    requires IsMap(entries)
    ensures IsMap(DeleteEntry(entries, sessionId))
  {
    if entries != [] {
      DeleteEntryIsMap(entries[1..], sessionId);
    }
  }

  predicate IsRegistered(a: Agent, sessionId: string, run: string) {
    Lookup(a.pendingPrompts, sessionId) == Some(run)
  }

  function StampOf(a: Agent, run: string): Option<DisconnectContext> {
    if run in a.prompts then a.prompts[run].disconnectContext else None
  }

  // ----- small steps -----

  function ClearTimer(a: Agent): Agent {
    a.(disconnectTimer := None)
  }

  /** Deleting an entry; the last one takes the timer with it. */
  function Remove(a: Agent, sessionId: string): Agent {
    var b := a.(pendingPrompts := DeleteEntry(a.pendingPrompts, sessionId));
    if b.pendingPrompts == [] then ClearTimer(b) else b
  }

  function Settle(a: Agent, run: string, outcome: Outcome): Agent {
    a.(settled := a.settled + [Settled(run, outcome)])
  }

  function Stamp(prompts: map<string, PendingPrompt>, run: string, context: Option<DisconnectContext>): map<string,
      PendingPrompt> {
    if run in prompts then prompts[run := prompts[run].(disconnectContext := context)] else prompts
  }

  function StampAll(prompts: map<string, PendingPrompt>, entries: seq<Entry>, context: DisconnectContext): map<string,
      PendingPrompt>
    decreases |entries|
  {
    if entries == [] then prompts else StampAll(Stamp(prompts, entries[0].run, Some(context)), entries[1..], context)
  }

  // ----- disconnect, reconnect, prompt, send, cancel, finish -----

  function OnDisconnect(a: Agent, reason: string): Agent {
    var context := DisconnectContext(a.disconnectGeneration + 1, reason);
    var b := a.(disconnectGeneration := context.generation, activeDisconnectContext := Some(context));
    if a.pendingPrompts == [] then b
    else b.(prompts := StampAll(a.prompts, a.pendingPrompts, context), disconnectTimer := Some(context.generation))
  }

  function OnReconnect(a: Agent): Resumed {
    var b := a.(activeDisconnectContext := None);
    if a.activeDisconnectContext.None? then Resumed(b, [])
    else StartReconcile(b, a.activeDisconnectContext.value.generation, false)
  }

  function OnTimer(a: Agent): Resumed {
    if a.disconnectTimer.None? then Resumed(a, [])
    else StartReconcile(ClearTimer(a), a.disconnectTimer.value, true)
  }

  function OnPrompt(a: Agent, sessionId: string, sessionKey: string, run: string): Agent {
    var pending := PendingPrompt(sessionId, sessionKey, false, a.activeDisconnectContext);
    var b := a.(pendingPrompts := SetEntry(a.pendingPrompts, sessionId, run), prompts := a.prompts[run := pending]);
    if a.activeDisconnectContext.Some? && a.disconnectTimer.None?
    then b.(disconnectTimer := Some(a.activeDisconnectContext.value.generation))
    else b
  }

  function OnSendAccepted(a: Agent, sessionId: string, run: string): Agent {
    if IsRegistered(a, sessionId, run)
       && run in a.prompts then a.(prompts := a.prompts[run := a.prompts[run].(sendAccepted := true)])
    else a
  }

  function OnSendFailed(a: Agent, sessionId: string, run: string, isGatewayClose: bool): Agent {
    if isGatewayClose && IsRegistered(a, sessionId, run) then a
    else Settle(Remove(a, sessionId), run, SendFailed)
  }

  function OnCancelled(a: Agent, sessionId: string, run: string): Agent {
    Settle(Remove(a, sessionId), run, Resolved(Cancelled))
  }

  function FindBySessionKey(a: Agent, entries: seq<Entry>, sessionKey: string, runId: Option<string>): Option<Entry> {
    if entries == [] then None
    else if Answers(a, entries[0], sessionKey, runId) then Some(entries[0])
    else FindBySessionKey(a, entries[1..], sessionKey, runId)
  }

  predicate Answers(a: Agent, e: Entry, sessionKey: string, runId: Option<string>) {
    e.run in a.prompts && a.prompts[e.run].sessionKey == sessionKey
      && (runId.Some? && runId.value != "" ==> runId.value == e.run)
  }

  /** How a chat event says that the chat has ended. */
  datatype ChatState = Final(stopReason: Option<string>) | Aborted | Errored

  /** An error ends the turn like a normal answer, so that clients do not take it for a refusal. */
  function StopReasonFor(state: ChatState): StopReason {
    match state
    case Final(stopReason) => if stopReason == Some("max_tokens") then MaxTokens else EndTurn
    case Aborted => Cancelled
    case Errored => EndTurn
  }

  /** A chat has ended: the prompt it belongs to is finished, a final message is shown first. */
  function OnChatEnd(a: Agent, sessionKey: string, runId: Option<string>, state: ChatState, hasMessage: bool): Resumed {
    match FindBySessionKey(a, a.pendingPrompts, sessionKey, runId)
    case None => Resumed(a, [])
    case Some(e) =>
      if sessionKey == "" then Resumed(a, [])
      else if hasMessage && state.Final? then
        Resumed(a, [ShowingFinalText(e.sessionId, e.run, StopReasonFor(state))])
      else Resumed(Remove(a, e.sessionId), [Finishing(e.run, StopReasonFor(state), None)])
  }

  // ----- reconciling -----

  predicate ShouldReject(a: Agent, run: string, context: DisconnectContext) {
    && StampOf(a, run) == Some(context)
    && (!a.prompts[run].sendAccepted
        || (a.activeDisconnectContext.Some? && a.activeDisconnectContext.value.generation == context.generation))
  }

  function Reject(a: Agent, run: string, reason: string): Agent {
    if run in a.prompts && IsRegistered(a, a.prompts[run].sessionId, run)
    then Settle(Remove(a, a.prompts[run].sessionId), run, Disconnected(reason))
    else a
  }

  function ClearStamp(a: Agent, run: string, context: DisconnectContext): Agent {
    if StampOf(a, run) == Some(context) then a.(prompts := Stamp(a.prompts, run, None)) else a
  }

  predicate ToVisit(a: Agent, generation: nat, e: Entry) {
    && IsRegistered(a, e.sessionId, e.run)
    && StampOf(a, e.run).Some? && StampOf(a, e.run).value.generation == generation
  }

  /** The loop up to the next question to the gateway, or to its end. */
  function Loop(a: Agent, rec: Reconcile): Resumed
    decreases |rec.rest|
  {
    if rec.rest == [] then
      Resumed(if !rec.keepDisconnectTimer && a.disconnectGeneration == rec.generation then ClearTimer(a) else a, [])
    else
      var e, next := rec.rest[0], rec.(rest := rec.rest[1..]);
      if ToVisit(a, rec.generation, e) then Resumed(a, [Asking(next, e.sessionId, e.run, StampOf(a, e.run).value)])
      else Loop(a, next)
  }

  function StartReconcile(a: Agent, generation: nat, deadlineExpired: bool): Resumed {
    if a.pendingPrompts == [] then Resumed(if a.disconnectGeneration == generation then ClearTimer(a) else a, [])
    else Loop(a, Reconcile(generation, deadlineExpired, a.pendingPrompts, false))
  }

  /** At a deadline the prompt is rejected or its stamp is dropped; before it, the prompt and the timer are kept. */
  function Unanswered(a: Agent, rec: Reconcile, run: string, context: DisconnectContext): Resumed {
    if !rec.deadlineExpired then Resumed(a, [Returning(rec.(keepDisconnectTimer := true))])
    else if ShouldReject(a, run, context) then Resumed(Reject(a, run, context.reason), [Returning(rec)])
    else Resumed(ClearStamp(a, run, context), [Returning(rec)])
  }

  function Answered(a: Agent, rec: Reconcile, sessionId: string, run: string, context: DisconnectContext,
      reply: Reply): Resumed {
    match reply
    case WaitThrows => Unanswered(a, rec, run, context)
    case WaitSays(status) =>
      if !IsRegistered(a, sessionId, run) then Resumed(a, [Returning(rec)])
      else (match status
            case RunOk => Resumed(Remove(a, sessionId), [Finishing(run, EndTurn, Some(rec))])
            case RunError => Resumed(Remove(a, sessionId), [Finishing(run, EndTurn, None), Returning(rec)])
            case StillRunning => Unanswered(a, rec, run, context))
    case _ => Resumed(a, [Asking(rec, sessionId, run, context)])
  }

  /** What a suspended call does when its await ends. A reply of another kind leaves it suspended. */
  function Resume(a: Agent, task: Task, reply: Reply): Resumed {
    match task
    case Sending(sessionId, run, mayRetry) =>
      (match reply
       case Done => Resumed(OnSendAccepted(a, sessionId, run), [])
       case SendFails(isGatewayClose, isScopeRejection) =>
         if mayRetry && isScopeRejection then Resumed(a, [Sending(sessionId, run, false)])
         else Resumed(OnSendFailed(a, sessionId, run, isGatewayClose), [])
       case _ => Resumed(a, [task]))
    case Cancelling(sessionId, run) => Resumed(OnCancelled(a, sessionId, run), [])
    case ShowingFinalText(sessionId, run, stopReason) =>
      // Nothing catches a rejected update of the client: the event is not handled any further.
      if reply.UpdateFails? then Resumed(a, [])
      else Resumed(Remove(a, sessionId), [Finishing(run, stopReason, None)])
    case Finishing(run, stopReason, resuming) =>
      Resumed(Settle(a, run, Resolved(stopReason)), if resuming.Some? then [Returning(resuming.value)] else [])
    case Asking(rec, sessionId, run, context) => Answered(a, rec, sessionId, run, context, reply)
    case Returning(rec) => Loop(a, rec)
  }

  // ----- the agent -----

  class AcpGatewayAgent {
    var pendingPrompts: seq<Entry>
    var prompts: map<string, PendingPrompt>
    var disconnectTimer: Option<nat>
    var activeDisconnectContext: Option<DisconnectContext>
    var disconnectGeneration: nat
    var settled: seq<Settled>

    function State(): Agent
      reads this
    {
      Agent(pendingPrompts, prompts, disconnectTimer, activeDisconnectContext, disconnectGeneration, settled)
    }

    constructor ()
      ensures State() == Agent([], map[], None, None, 0, [])
    {
      pendingPrompts, prompts, settled := [], map[], [];
      disconnectTimer, activeDisconnectContext, disconnectGeneration := None, None, 0;
    }

    method ClearDisconnectTimer()
      modifies `disconnectTimer
      ensures disconnectTimer == None
    {
      if disconnectTimer.None? {
        return;
      }
      disconnectTimer := None;
    }

    method ArmDisconnectTimer(disconnectContext: DisconnectContext)
      modifies `disconnectTimer
      ensures disconnectTimer == Some(disconnectContext.generation)
    {
      ClearDisconnectTimer();
      disconnectTimer := Some(disconnectContext.generation);
    }

    method HandleGatewayDisconnect(reason: string)
      modifies this
      ensures State() == OnDisconnect(old(State()), reason)
    {
      var disconnectContext := DisconnectContext(disconnectGeneration + 1, reason);
      disconnectGeneration := disconnectContext.generation;
      activeDisconnectContext := Some(disconnectContext);
      if |pendingPrompts| == 0 {
        return;
      }
      assert pendingPrompts[0..] == pendingPrompts;
      for k := 0 to |pendingPrompts|
        invariant pendingPrompts == old(pendingPrompts) && disconnectTimer == old(disconnectTimer)
                  && settled == old(settled)
        invariant disconnectGeneration == disconnectContext.generation
                  && activeDisconnectContext == Some(disconnectContext)
        invariant StampAll(old(prompts), pendingPrompts, disconnectContext)
                  == StampAll(prompts, pendingPrompts[k..], disconnectContext)
      {
        assert pendingPrompts[k..][0] == pendingPrompts[k] && pendingPrompts[k..][1..] == pendingPrompts[k + 1..];
        prompts := Stamp(prompts, pendingPrompts[k].run, Some(disconnectContext));
      }
      ArmDisconnectTimer(disconnectContext);
    }

    method HandleGatewayReconnect() returns (suspended: seq<Task>)
      modifies this
      ensures Resumed(State(), suspended) == OnReconnect(old(State()))
    {
      hide Loop;
      var disconnectContext := activeDisconnectContext;
      activeDisconnectContext := None;
      if disconnectContext.None? {
        return [];
      }
      suspended := ReconcilePendingPrompts(disconnectContext.value.generation, false);
    }

    method DisconnectTimerFires() returns (suspended: seq<Task>)
      modifies this
      ensures Resumed(State(), suspended) == OnTimer(old(State()))
    {
      hide Loop;
      if disconnectTimer.None? {
        return [];
      }
      var generation := disconnectTimer.value;
      disconnectTimer := None;
      suspended := ReconcilePendingPrompts(generation, true);
    }

    /** The part of `prompt` that registers the prompt; the run id is new. */
    method Prompt(sessionId: string, sessionKey: string, runId: string)
      requires runId !in prompts
      modifies this
      ensures State() == OnPrompt(old(State()), sessionId, sessionKey, runId)
    {
      pendingPrompts := SetEntry(pendingPrompts, sessionId, runId);
      prompts := prompts[runId := PendingPrompt(sessionId, sessionKey, false, activeDisconnectContext)];
      if activeDisconnectContext.Some? && disconnectTimer.None? {
        ArmDisconnectTimer(activeDisconnectContext.value);
      }
    }

    method SendReturned(sessionId: string, runId: string)
      modifies this
      ensures State() == OnSendAccepted(old(State()), sessionId, runId)
    {
      if Lookup(pendingPrompts, sessionId) == Some(runId) && runId in prompts {
        prompts := prompts[runId := prompts[runId].(sendAccepted := true)];
      }
    }

    method DeletePending(sessionId: string)
      modifies `pendingPrompts, `disconnectTimer
      ensures State() == Remove(old(State()), sessionId)
    {
      pendingPrompts := DeleteEntry(pendingPrompts, sessionId);
      if |pendingPrompts| == 0 {
        ClearDisconnectTimer();
      }
    }

    method SendThrew(sessionId: string, runId: string, isGatewayClose: bool)
      modifies this
      ensures State() == OnSendFailed(old(State()), sessionId, runId, isGatewayClose)
    {
      if isGatewayClose && Lookup(pendingPrompts, sessionId) == Some(runId) {
        return;
      }
      DeletePending(sessionId);
      settled := settled + [Settled(runId, SendFailed)];
    }

    method CancelAfterAbort(sessionId: string, pending: string)
      modifies this
      ensures State() == OnCancelled(old(State()), sessionId, pending)
    {
      DeletePending(sessionId);
      settled := settled + [Settled(pending, Resolved(Cancelled))];
    }

    method FindPendingBySessionKey(sessionKey: string, runId: Option<string>) returns (r: Option<Entry>)
      ensures r == FindBySessionKey(State(), pendingPrompts, sessionKey, runId)
    {
      assert pendingPrompts[0..] == pendingPrompts;
      for k := 0 to |pendingPrompts|
        invariant FindBySessionKey(State(), pendingPrompts, sessionKey, runId)
                  == FindBySessionKey(State(), pendingPrompts[k..], sessionKey, runId)
      {
        var e := pendingPrompts[k];
        assert pendingPrompts[k..][0] == e && pendingPrompts[k..][1..] == pendingPrompts[k + 1..];
        if e.run !in prompts || prompts[e.run].sessionKey != sessionKey {
          continue;
        }
        if runId.Some? && runId.value != "" && e.run != runId.value {
          continue;
        }
        return Some(e);
      }
      return None;
    }

    /** A chat event other than a delta; a final message is shown before the prompt is finished. */
    method HandleChatEvent(sessionKey: string, runId: Option<string>, state: ChatState, hasMessage: bool)
      returns (suspended: seq<Task>)
      modifies this
      ensures Resumed(State(), suspended) == OnChatEnd(old(State()), sessionKey, runId, state, hasMessage)
    {
      if sessionKey == "" {
        return [];
      }
      var pending := FindPendingBySessionKey(sessionKey, runId);
      if pending.None? {
        return [];
      }
      if hasMessage && state.Final? {
        return [ShowingFinalText(pending.value.sessionId, pending.value.run, StopReasonFor(state))];
      }
      DeletePending(pending.value.sessionId);
      return [Finishing(pending.value.run, StopReasonFor(state), None)];
    }

    method RejectPendingPrompt(runId: string, reason: string)
      modifies this
      ensures State() == Reject(old(State()), runId, reason)
    {
      if runId !in prompts || Lookup(pendingPrompts, prompts[runId].sessionId) != Some(runId) {
        return;
      }
      DeletePending(prompts[runId].sessionId);
      settled := settled + [Settled(runId, Disconnected(reason))];
    }

    method ClearPendingDisconnectState(runId: string, disconnectContext: DisconnectContext)
      modifies this
      ensures State() == ClearStamp(old(State()), runId, disconnectContext)
    {
      if runId in prompts && prompts[runId].disconnectContext == Some(disconnectContext) {
        prompts := prompts[runId := prompts[runId].(disconnectContext := None)];
      }
    }

    method ReconcilePendingPrompts(observedDisconnectGeneration: nat, deadlineExpired: bool)
        returns (suspended: seq<Task>)
      modifies this
      ensures Resumed(State(), suspended) == StartReconcile(old(State()), observedDisconnectGeneration, deadlineExpired)
    {
      hide Loop;
      if |pendingPrompts| == 0 {
        if disconnectGeneration == observedDisconnectGeneration {
          ClearDisconnectTimer();
        }
        return [];
      }
      suspended := ContinueReconcile(Reconcile(observedDisconnectGeneration, deadlineExpired, pendingPrompts, false));
    }

    /** The loop over the snapshot of the pending prompts, up to its next await. */
    method ContinueReconcile(rec: Reconcile) returns (suspended: seq<Task>)
      modifies this
      ensures Resumed(State(), suspended) == Loop(old(State()), rec)
    {
      assert rec.(rest := rec.rest[0..]) == rec;
      for k := 0 to |rec.rest|
        invariant State() == old(State())
        invariant Loop(State(), rec) == Loop(State(), rec.(rest := rec.rest[k..]))
      {
        var e := rec.rest[k];
        assert rec.rest[k..][0] == e && rec.rest[k..][1..] == rec.rest[k + 1..];
        if Lookup(pendingPrompts, e.sessionId) != Some(e.run) {
          continue;
        }
        var context := StampOf(State(), e.run);
        if context.None? || context.value.generation != rec.generation {
          continue;
        }
        return [Asking(rec.(rest := rec.rest[k + 1..]), e.sessionId, e.run, context.value)];
      }
      if !rec.keepDisconnectTimer && disconnectGeneration == rec.generation {
        ClearDisconnectTimer();
      }
      return [];
    }

    /** `reconcilePendingPrompt` after the gateway has answered or the question has failed. */
    method ReconcileAnswered(rec: Reconcile, sessionId: string, runId: string, disconnectContext: DisconnectContext,
        reply: Reply)
      returns (suspended: seq<Task>)
      requires reply.WaitThrows? || reply.WaitSays?
      modifies this
      ensures Resumed(State(), suspended) == Answered(old(State()), rec, sessionId, runId, disconnectContext, reply)
    {
      hide Lookup, DeleteEntry;
      if reply.WaitThrows? {
        if rec.deadlineExpired {
          if ShouldReject(State(), runId, disconnectContext) {
            RejectPendingPrompt(runId, disconnectContext.reason);
            return [Returning(rec)];
          }
          ClearPendingDisconnectState(runId, disconnectContext);
          return [Returning(rec)];
        }
        return [Returning(rec.(keepDisconnectTimer := true))];
      }
      if Lookup(pendingPrompts, sessionId) != Some(runId) {
        return [Returning(rec)];
      }
      if reply.status == RunOk {
        DeletePending(sessionId);
        return [Finishing(runId, EndTurn, Some(rec))];
      }
      if reply.status == RunError {
        DeletePending(sessionId);
        return [Finishing(runId, EndTurn, None), Returning(rec)];
      }
      if rec.deadlineExpired {
        if ShouldReject(State(), runId, disconnectContext) {
          var currentDisconnectContext := prompts[runId].disconnectContext;
          RejectPendingPrompt(runId, currentDisconnectContext.value.reason);
          return [Returning(rec)];
        }
        ClearPendingDisconnectState(runId, disconnectContext);
        return [Returning(rec)];
      }
      return [Returning(rec.(keepDisconnectTimer := true))];
    }

    /** Whatever was suspended goes on when its await ends. */
    method ResumeCall(task: Task, reply: Reply) returns (suspended: seq<Task>)
      modifies this
      ensures Resumed(State(), suspended) == Resume(old(State()), task, reply)
    {
      hide Lookup, DeleteEntry, Loop, Unanswered;
      match task
      case Sending(sessionId, run, mayRetry) =>
        match reply {
          case Done => SendReturned(sessionId, run); suspended := [];
          case SendFails(isGatewayClose, isScopeRejection) =>
            if mayRetry && isScopeRejection {
              suspended := [Sending(sessionId, run, false)];
            } else {
              SendThrew(sessionId, run, isGatewayClose);
              suspended := [];
            }
          case _ => suspended := [task];
        }
      case Cancelling(sessionId, run) =>
        CancelAfterAbort(sessionId, run);
        suspended := [];
      case ShowingFinalText(sessionId, run, stopReason) =>
        if reply.UpdateFails? {
          return [];
        }
        DeletePending(sessionId);
        suspended := [Finishing(run, stopReason, None)];
      case Finishing(run, stopReason, resuming) =>
        settled := settled + [Settled(run, Resolved(stopReason))];
        suspended := if resuming.Some? then [Returning(resuming.value)] else [];
      case Asking(rec, sessionId, run, context) =>
        if reply.WaitThrows? || reply.WaitSays? {
          suspended := ReconcileAnswered(rec, sessionId, run, context, reply);
        } else {
          suspended := [task];
        }
      case Returning(rec) =>
        suspended := ContinueReconcile(rec);
    }
  }
}
