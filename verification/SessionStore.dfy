/** The in-memory session store of the ACP bridge (src/acp/session.ts). */
module SessionStore {
  import opened Common

  type ControllerId = nat

  datatype AcpSession = AcpSession(
    sessionId: string,
    sessionKey: string,
    cwd: string,
    createdAt: int,
    lastTouchedAt: int,
    abortController: Option<ControllerId>,
    activeRunId: Option<string>)

  /** A run id counts only when it is not the empty string. */
  predicate HasRun(s: AcpSession) {
    s.activeRunId.Some? && s.activeRunId.value != ""
  }

  predicate Busy(s: AcpSession) {
    HasRun(s) || s.abortController.Some?
  }

  /** Idle, and not touched since `idleBefore`. */
  predicate Expired(s: AcpSession, idleBefore: int) {
    !Busy(s) && s.lastTouchedAt <= idleBefore
  }

  type Sessions = map<string, AcpSession>

  function AfterReaping(sessions: Sessions, idleBefore: int): Sessions {
    map id | id in sessions && !Expired(sessions[id], idleBefore) :: sessions[id]
  }

  /** Earlier in `order`, or touched earlier. */
  ghost predicate LeastRecent(sessions: Sessions, order: seq<string>, i: nat)
    requires forall id :: id in order ==> id in sessions
  {
    && i < |order| && !Busy(sessions[order[i]])
    && (forall j :: 0 <= j < |order| && !Busy(sessions[order[j]]) ==>
          sessions[order[i]].lastTouchedAt <= sessions[order[j]].lastTouchedAt)
    && (forall j :: 0 <= j < i && !Busy(sessions[order[j]]) ==>
          sessions[order[i]].lastTouchedAt < sessions[order[j]].lastTouchedAt)
  }

  /** The idle session touched least recently; among equals, the one inserted first. */
  function OldestIdle(sessions: Sessions, order: seq<string>): (r: Option<nat>)
    requires forall id :: id in order ==> id in sessions
    ensures r.Some? ==> LeastRecent(sessions, order, r.value)
    ensures r.None? ==> forall id :: id in order ==> Busy(sessions[id])
  {
    if order == [] then None
    else
      var n := |order| - 1;
      var front := order[..n];
      var best := OldestIdle(sessions, front);
      assert forall id :: id in order ==> id in front || id == order[n];
      if Busy(sessions[order[n]]) then best
      else if best.Some? && sessions[order[best.value]].lastTouchedAt <= sessions[order[n]].lastTouchedAt then best
      else
        assert forall j :: 0 <= j < n ==> front[j] == order[j] && order[j] in front;
        Some(n)
  }

  lemma OldestOfNone(sessions: Sessions)
    ensures OldestIdle(sessions, []).None?
  {
  }

  lemma OldestOfOneMore(sessions: Sessions, order: seq<string>, i: nat)
    requires i < |order| && forall id :: id in order ==> id in sessions
    ensures forall id :: id in order[..i + 1] ==> id in sessions
    ensures var best, s := OldestIdle(sessions, order[..i]), sessions[order[i]];
            && (best.Some? ==> best.value < i)
            && OldestIdle(sessions, order[..i + 1]) ==
               if !Busy(s) && (best.None? || s.lastTouchedAt < sessions[order[best.value]].lastTouchedAt) then Some(i)
                  else best
  {
    assert order[..i + 1][..i] == order[..i];
  }

  ghost predicate Distinct(ids: seq<string>) {
    forall i, j :: 0 <= i < j < |ids| ==> ids[i] != ids[j]
  }

  /** The run index is exactly the inverse of the active runs. */
  ghost predicate Indexed(sessions: Sessions, runIdToSessionId: map<string, string>) {
    && (forall r :: r in runIdToSessionId ==>
          && runIdToSessionId[r] in sessions
          && HasRun(sessions[runIdToSessionId[r]])
          && sessions[runIdToSessionId[r]].activeRunId == Some(r))
    && (forall id :: id in sessions && HasRun(sessions[id]) ==>
          && sessions[id].activeRunId.value in runIdToSessionId
          && runIdToSessionId[sessions[id].activeRunId.value] == id)
  }

  /** The insertion order lists exactly the keys of the map, and each session carries its own id. */
  ghost predicate Ordered(sessions: Sessions, order: seq<string>) {
    && Distinct(order)
    && (forall id :: id in order <==> id in sessions)
    && (forall id :: id in sessions ==> sessions[id].sessionId == id)
  }

  /** A session that runs something has the controller that can abort it. */
  ghost predicate Controlled(sessions: Sessions) {
    forall id :: id in sessions && HasRun(sessions[id]) ==> sessions[id].abortController.Some?
  }

  datatype Created = Session(session: AcpSession) | LimitReached

  datatype PromptStart = NotFound | Refused | Started

  class InMemorySessionStore {
    const maxSessions: nat
    const idleTtlMs: nat
    var sessions: Sessions
    var order: seq<string> // insertion order of the session map
    var runIdToSessionId: map<string, string>
    var aborted: set<ControllerId>

    constructor (maxSessions: int, idleTtlMs: int)
      ensures Valid() && sessions == map[] && runIdToSessionId == map[] && aborted == {}
      ensures this.maxSessions == (if maxSessions < 1 then 1 else maxSessions)
      ensures this.idleTtlMs == (if idleTtlMs < 1_000 then 1_000 else idleTtlMs)
      ensures Indexed(sessions, runIdToSessionId)
    {
      this.maxSessions := if maxSessions < 1 then 1 else maxSessions;
      this.idleTtlMs := if idleTtlMs < 1_000 then 1_000 else idleTtlMs;
      sessions, order, runIdToSessionId, aborted := map[], [], map[], {};
    }

    /** The map and its insertion order agree, the capacity is never exceeded, and every run can be aborted. */
    ghost predicate Valid()
      reads this
    {
      Ordered(sessions, order) && 1 <= maxSessions && |sessions| <= maxSessions && Controlled(sessions)
    }

    method RemoveSession(sessionId: string) returns (removed: bool)
      requires Ordered(sessions, order)
      modifies this
      ensures Ordered(sessions, order) && removed == (sessionId in old(sessions))
      ensures sessions == old(sessions) - {sessionId}
      ensures order == Without(old(order), sessionId)
      ensures removed ==> runIdToSessionId == WithoutRun(old(runIdToSessionId), old(sessions)[sessionId])
      ensures aborted == old(aborted) + ControllersOf(old(sessions), sessionId)
      ensures Indexed(old(sessions), old(runIdToSessionId)) ==> Indexed(sessions, runIdToSessionId)
    {
      hide Indexed, Ordered, Without;
      RemovingKeeps(sessions, order, runIdToSessionId, sessionId);
      if sessionId !in sessions {
        return false;
      }
      var session := sessions[sessionId];
      if HasRun(session) {
        runIdToSessionId := runIdToSessionId - {session.activeRunId.value};
      }
      if session.abortController.Some? {
        aborted := aborted + {session.abortController.value};
      }
      sessions := sessions - {sessionId};
      order := Without(order, sessionId);
      return true;
    }

    method ReapIdleSessions(nowMs: int)
      requires Valid()
      modifies this
      ensures Valid() && sessions == AfterReaping(old(sessions), nowMs - idleTtlMs)
      // Exactly the sessions go that run nothing, hold no controller, and were not touched for the whole time to live.
      ensures forall id :: id in old(sessions) ==>
                var s := old(sessions)[id];
                (id in sessions <==>
                   s.abortController != None || s.activeRunId !in {None, Some("")}
                   || s.lastTouchedAt + idleTtlMs > nowMs)
      ensures runIdToSessionId == old(runIdToSessionId) && aborted == old(aborted)
      ensures Indexed(old(sessions), old(runIdToSessionId)) ==> Indexed(sessions, runIdToSessionId)
    {
      hide Indexed, Distinct, Without, HasRun;
      var idleBefore := nowMs - idleTtlMs;
      var ids := order;
      ghost var before := sessions;
      assert ids[..0] == [];
      for i := 0 to |ids|
        invariant Ordered(sessions, order) && ids == old(order)
        invariant sessions == Partly(before, ids[..i], idleBefore)
        invariant runIdToSessionId == old(runIdToSessionId) && aborted == old(aborted)
        invariant Indexed(before, old(runIdToSessionId)) ==> Indexed(sessions, runIdToSessionId)
      {
        var sessionId := ids[i];
        PartlyOneMore(before, ids, i, idleBefore);
        if !Busy(sessions[sessionId]) && sessions[sessionId].lastTouchedAt <= idleBefore {
          var _ := RemoveSession(sessionId);
        }
      }
      assert ids[..|ids|] == ids;
      assert sessions == AfterReaping(before, idleBefore);
      SmallerMap(sessions, before);
      ReapedIff(before, idleBefore);
    }

    method EvictOldestIdleSession() returns (evicted: bool)
      requires Valid()
      modifies this
      ensures Valid()
      ensures var oldest := OldestIdle(old(sessions), old(order));
              && evicted == (oldest.Some? && old(order)[oldest.value] != "")
              && sessions == (if evicted then old(sessions) - {old(order)[oldest.value]} else old(sessions))
      ensures !evicted ==> order == old(order)
      ensures runIdToSessionId == old(runIdToSessionId) && aborted == old(aborted)
      ensures Indexed(old(sessions), old(runIdToSessionId)) ==> Indexed(sessions, runIdToSessionId)
    {
      hide Indexed, Distinct, LeastRecent, OldestIdle, Without;
      assert order[..0] == [];
      OldestOfNone(sessions);
      var oldest: Option<nat> := None;
      for i := 0 to |order|
        invariant unchanged(this) && oldest == OldestIdle(sessions, order[..i])
        invariant oldest.Some? ==> oldest.value < i && !Busy(sessions[order[oldest.value]])
      {
        OldestOfOneMore(sessions, order, i);
        var session := sessions[order[i]];
        if !Busy(session) && (oldest.None? || session.lastTouchedAt < sessions[order[oldest.value]].lastTouchedAt) {
          oldest := Some(i);
        }
      }
      assert order[..|order|] == order;
      if oldest.None? || order[oldest.value] == "" {
        return false;
      }
      ghost var before := sessions;
      evicted := RemoveSession(order[oldest.value]);
      SmallerMap(sessions, before);
    }

    method CreateSession(sessionId: string, sessionKey: string, cwd: string, nowMs: int) returns (r: Created)
      requires Valid()
      modifies this
      ensures Valid()
      // What runs, or holds a controller, never makes room for another session.
      ensures forall id :: id in old(sessions) && id != sessionId
                           && (old(sessions)[id].abortController != None
                               || old(sessions)[id].activeRunId !in {None, Some("")}) ==>
                id in sessions && sessions[id] == old(sessions)[id]
      ensures sessionId in old(sessions) ==>
                && sessions == old(sessions)[sessionId :=
                     old(sessions)[sessionId].(sessionKey := sessionKey, cwd := cwd, lastTouchedAt := nowMs)]
                && r == Session(sessions[sessionId])
      ensures sessionId !in old(sessions) ==>
                Admitted(AfterReaping(old(sessions), nowMs - idleTtlMs), maxSessions,
                         AcpSession(sessionId, sessionKey, cwd, nowMs, nowMs, None, None), r, sessions)
      ensures Indexed(old(sessions), old(runIdToSessionId)) ==> Indexed(sessions, runIdToSessionId)
    {
      hide Indexed, Ordered, MadeRoom;
      if sessionId in sessions {
        CarriesItsId(sessions, order, sessionId);
        var existing := sessions[sessionId].(sessionKey := sessionKey, cwd := cwd, lastTouchedAt := nowMs);
        UpdatingKeeps(sessions, order, runIdToSessionId, sessionId, existing);
        sessions := sessions[sessionId := existing];
        return Session(existing);
      }
      var room := MakeRoom(nowMs);
      if !room {
        return LimitReached;
      }
      var session := AcpSession(sessionId, sessionKey, cwd, nowMs, nowMs, None, None);
      InsertingKeeps(sessions, order, runIdToSessionId, sessionId, session);
      sessions := sessions[sessionId := session];
      order := order + [sessionId];
      return Session(session);
    }

    /** Reap the expired sessions, and evict one more if the store is still full. */
    method MakeRoom(nowMs: int) returns (room: bool)
      requires Valid()
      modifies this
      ensures Valid() && (room ==> |sessions| < maxSessions)
      ensures MadeRoom(AfterReaping(old(sessions), nowMs - idleTtlMs), maxSessions, room, sessions)
      ensures forall id :: id in old(sessions)
                           && (old(sessions)[id].abortController != None
                               || old(sessions)[id].activeRunId !in {None, Some("")}) ==>
                id in sessions && sessions[id] == old(sessions)[id]
      ensures forall id :: id in sessions ==> id in old(sessions)
      ensures Indexed(old(sessions), old(runIdToSessionId)) ==> Indexed(sessions, runIdToSessionId)
    {
      hide Indexed, Ordered, OldestIdle;
      ReapIdleSessions(nowMs);
      if |sessions| < maxSessions {
        return true;
      }
      ghost var reaped := sessions;
      VictimIsLeastRecent(reaped, order);
      ghost var oldest := OldestIdle(reaped, order);
      if oldest.Some? {
        OneLess(reaped, order[oldest.value]);
      }
      room := EvictOldestIdleSession();
    }

    method Touch(sessionId: string, nowMs: int)
      requires Valid() && sessionId in sessions
      modifies `sessions
      ensures Valid() && sessions == old(sessions)[sessionId := old(sessions)[sessionId].(lastTouchedAt := nowMs)]
      ensures Indexed(old(sessions), runIdToSessionId) ==> Indexed(sessions, runIdToSessionId)
    {
      var touched := sessions[sessionId].(lastTouchedAt := nowMs);
      UpdatingKeeps(sessions, order, runIdToSessionId, sessionId, touched);
      sessions := sessions[sessionId := touched];
    }

    method GetSession(sessionId: string, nowMs: int) returns (session: Option<AcpSession>)
      requires Valid()
      modifies `sessions
      ensures Valid() && (session.Some? <==> sessionId in old(sessions))
      ensures session.Some? ==>
                && session.value == old(sessions)[sessionId].(lastTouchedAt := nowMs)
                && sessions == old(sessions)[sessionId := session.value]
      ensures session.None? ==> sessions == old(sessions)
      ensures Indexed(old(sessions), runIdToSessionId) ==> Indexed(sessions, runIdToSessionId)
    {
      if sessionId !in sessions {
        return None;
      }
      Touch(sessionId, nowMs);
      return Some(sessions[sessionId]);
    }

    /** With a faithful index, a run id finds the session on which it is active, and nothing else. */
    method GetSessionByRunId(runId: string, nowMs: int) returns (session: Option<AcpSession>)
      requires Valid()
      modifies `sessions
      ensures Valid()
      ensures Indexed(old(sessions), runIdToSessionId) ==>
                && Indexed(sessions, runIdToSessionId)
                && (session.Some? ==>
                      && session.value.sessionId in old(sessions)
                      && session.value.activeRunId == Some(runId)
                      && session.value == old(sessions)[session.value.sessionId].(lastTouchedAt := nowMs)
                      && sessions == old(sessions)[session.value.sessionId := session.value])
                && (session.None? ==>
                      && sessions == old(sessions)
                      && forall id :: id in old(sessions) && id != "" && HasRun(old(sessions)[id]) ==>
                           old(sessions)[id].activeRunId != Some(runId))
    {
      if runId !in runIdToSessionId || runIdToSessionId[runId] == "" {
        return None;
      }
      var sessionId := runIdToSessionId[runId];
      if sessionId !in sessions {
        return None;
      }
      Touch(sessionId, nowMs);
      return Some(sessions[sessionId]);
    }

    method SetActiveRun(sessionId: string, runId: string, controller: ControllerId, nowMs: int)
      requires Valid()
      modifies `sessions, `runIdToSessionId
      ensures Valid()
      ensures sessionId !in old(sessions) ==> sessions == old(sessions) && runIdToSessionId == old(runIdToSessionId)
      ensures sessionId in old(sessions) ==>
                && sessions == old(sessions)[sessionId := old(sessions)[sessionId].(
                     activeRunId := Some(runId), abortController := Some(controller), lastTouchedAt := nowMs)]
                && runIdToSessionId == old(runIdToSessionId)[runId := sessionId]
      // The index stays faithful exactly when the previous run was cancelled first and the id is not in use elsewhere.
      ensures Indexed(old(sessions), old(runIdToSessionId)) && sessionId in old(sessions) ==>
                (Indexed(sessions, runIdToSessionId) <==>
                 Settable(old(sessions), old(runIdToSessionId), sessionId, runId))
    {
      if sessionId !in sessions {
        return;
      }
      var session := sessions[sessionId].(activeRunId := Some(runId), abortController :=
        Some(controller), lastTouchedAt := nowMs);
      UpdatingKeeps(sessions, order, runIdToSessionId, sessionId, session);
      SettingKeepsIndex(sessions, runIdToSessionId, sessionId, runId, session);
      sessions := sessions[sessionId := session];
      runIdToSessionId := runIdToSessionId[runId := sessionId];
    }

    method ClearActiveRun(sessionId: string, nowMs: int)
      requires Valid()
      modifies `sessions, `runIdToSessionId
      ensures Valid()
      ensures sessionId !in old(sessions) ==> sessions == old(sessions) && runIdToSessionId == old(runIdToSessionId)
      ensures sessionId in old(sessions) ==>
                && sessions == old(sessions)[sessionId := old(sessions)[sessionId].(
                     activeRunId := None, abortController := None, lastTouchedAt := nowMs)]
                && runIdToSessionId == WithoutRun(old(runIdToSessionId), old(sessions)[sessionId])
      ensures Indexed(old(sessions), old(runIdToSessionId)) ==> Indexed(sessions, runIdToSessionId)
    {
      if sessionId !in sessions {
        return;
      }
      var session := sessions[sessionId];
      if HasRun(session) {
        runIdToSessionId := runIdToSessionId - {session.activeRunId.value};
      }
      UpdatingKeeps(sessions, order, runIdToSessionId, sessionId, Cleared(session, nowMs));
      ClearingKeepsIndex(sessions, old(runIdToSessionId), sessionId, nowMs);
      sessions := sessions[sessionId := Cleared(session, nowMs)];
    }

    method CancelActiveRun(sessionId: string, nowMs: int) returns (cancelled: bool)
      requires Valid()
      modifies `sessions, `runIdToSessionId, `aborted
      ensures Valid()
      ensures cancelled <==> sessionId in old(sessions) && old(sessions)[sessionId].abortController.Some?
      ensures cancelled ==>
                && sessions == old(sessions)[sessionId := old(sessions)[sessionId].(
                     activeRunId := None, abortController := None, lastTouchedAt := nowMs)]
                && runIdToSessionId == WithoutRun(old(runIdToSessionId), old(sessions)[sessionId])
                && aborted == old(aborted) + {old(sessions)[sessionId].abortController.value}
      ensures !cancelled ==>
              sessions == old(sessions) && runIdToSessionId == old(runIdToSessionId) && aborted == old(aborted)
      ensures Indexed(old(sessions), old(runIdToSessionId)) ==> Indexed(sessions, runIdToSessionId)
    {
      if sessionId !in sessions || sessions[sessionId].abortController.None? {
        return false;
      }
      aborted := aborted + {sessions[sessionId].abortController.value};
      ClearActiveRun(sessionId, nowMs);
      return true;
    }

    /**
     * The store's part of `prompt`: what still runs is cancelled, and unless the prompt is refused (its size is
     * checked only then) a new run is set. The index stays faithful exactly when the new id is in use nowhere else.
     */
    method StartPromptRun(sessionId: string, refused: bool, runId: string, controller: ControllerId,
                          foundAt: int, cancelledAt: int, startedAt: int) returns (r: PromptStart)
      requires Valid()
      modifies `sessions, `runIdToSessionId, `aborted
      ensures Valid()
      ensures r == if sessionId !in old(sessions) then NotFound else if refused then Refused else Started
      ensures r.NotFound? ==> sessions == old(sessions) && runIdToSessionId == old(runIdToSessionId)
      ensures aborted == old(aborted) + ControllersOf(old(sessions), sessionId)
      ensures r.Refused? ==>
                && sessions == old(sessions)[sessionId := old(sessions)[sessionId].(
                     activeRunId := if old(sessions)[sessionId].abortController.Some? then None
                       else old(sessions)[sessionId].activeRunId,
                     abortController := None,
                     lastTouchedAt := if old(sessions)[sessionId].abortController.Some? then cancelledAt else foundAt)]
                && (Indexed(old(sessions), old(runIdToSessionId)) ==> Indexed(sessions, runIdToSessionId))
      ensures r.Started? ==>
                && sessions == old(sessions)[sessionId := old(sessions)[sessionId].(
                     activeRunId := Some(runId), abortController := Some(controller), lastTouchedAt := startedAt)]
                && runId in runIdToSessionId && runIdToSessionId[runId] == sessionId
      ensures r.Started? && Indexed(old(sessions), old(runIdToSessionId)) ==>
                (Indexed(sessions, runIdToSessionId) <==>
                 runId != "" && (runId in old(runIdToSessionId) ==> old(runIdToSessionId)[runId] == sessionId))
    {
      hide Indexed, Ordered, Controlled, Settable, WithoutRun;
      if sessionId in sessions {
        CancelledIsSettable(sessions, runIdToSessionId, sessionId, runId, foundAt, cancelledAt);
      }
      var session := GetSession(sessionId, foundAt);
      if session.None? {
        return NotFound;
      }
      if session.value.abortController.Some? {
        var _ := CancelActiveRun(sessionId, cancelledAt);
      }
      if refused {
        return Refused;
      }
      SetActiveRun(sessionId, runId, controller, startedAt);
      return Started;
    }
  }

  /** The index without the run of `s`, if it has one. */
  function WithoutRun(index: map<string, string>, s: AcpSession): map<string, string> {
    if HasRun(s) then index - {s.activeRunId.value} else index
  }

  function ControllersOf(sessions: Sessions, sessionId: string): set<ControllerId> {
    if sessionId in sessions
       && sessions[sessionId].abortController.Some? then {sessions[sessionId].abortController.value} else {}
  }

  /** What is left after the sessions `ids` have been looked at. */
  ghost function Partly(sessions: Sessions, ids: seq<string>, idleBefore: int): Sessions {
    map id | id in sessions && !(id in ids && Expired(sessions[id], idleBefore)) :: sessions[id]
  }

  lemma ReapedIff(sessions: Sessions, idleBefore: int)
    ensures forall id :: id in sessions ==>
              var s := sessions[id];
              (id in AfterReaping(sessions, idleBefore) <==>
                 s.abortController != None || s.activeRunId !in {None, Some("")} || s.lastTouchedAt > idleBefore)
  {
  }

  lemma PartlyOneMore(sessions: Sessions, ids: seq<string>, i: nat, idleBefore: int)
    requires i < |ids| && Distinct(ids) && ids[i] in sessions
    ensures var before := Partly(sessions, ids[..i], idleBefore);
            && ids[i] in before && before[ids[i]] == sessions[ids[i]]
            && Partly(sessions, ids[..i + 1], idleBefore) ==
               if Expired(sessions[ids[i]], idleBefore) then before - {ids[i]} else before
  {
    assert ids[..i + 1] == ids[..i] + [ids[i]];
    assert forall id :: id in ids[..i + 1] <==> id in ids[..i] || id == ids[i];
  }

  lemma RemovingKeeps(sessions: Sessions, order: seq<string>, index: map<string, string>, id: string)
    requires Ordered(sessions, order)
    ensures Ordered(sessions - {id}, Without(order, id))
    ensures id !in sessions ==> Without(order, id) == order && sessions - {id} == sessions
    ensures id in sessions && Indexed(sessions, index) ==>
              Indexed(sessions - {id}, WithoutRun(index, sessions[id]))
  {
    WithoutMembers(order, id);
    if id !in sessions {
      WithoutAbsent(order, id);
    }
  }

  lemma UpdatingKeeps(sessions: Sessions, order: seq<string>, index: map<string, string>, id: string, s: AcpSession)
    requires Ordered(sessions, order) && id in sessions && s.sessionId == id
    ensures Ordered(sessions[id := s], order) && |sessions[id := s]| == |sessions|
    ensures s.activeRunId == sessions[id].activeRunId && Indexed(sessions, index) ==> Indexed(sessions[id := s], index)
  {
    hide Distinct;
    assert sessions[id := s].Keys == sessions.Keys;
    if s.activeRunId == sessions[id].activeRunId && Indexed(sessions, index) {
      SameRunKeepsIndex(sessions, index, id, s);
    }
  }

  lemma SameRunKeepsIndex(sessions: Sessions, index: map<string, string>, id: string, s: AcpSession)
    requires id in sessions && s.activeRunId == sessions[id].activeRunId && Indexed(sessions, index)
    ensures Indexed(sessions[id := s], index)
  {
  }

  lemma InsertingKeeps(sessions: Sessions, order: seq<string>, index: map<string, string>, id: string, s: AcpSession)
    requires Ordered(sessions, order) && id !in sessions && s.sessionId == id && !HasRun(s)
    ensures Ordered(sessions[id := s], order + [id]) && |sessions[id := s]| == |sessions| + 1
    ensures Indexed(sessions, index) ==> Indexed(sessions[id := s], index)
  {
    hide Distinct;
    assert sessions[id := s].Keys == sessions.Keys + {id};
    assert forall x :: x in order + [id] <==> x in order || x == id;
    DistinctSnoc(order, id);
    if Indexed(sessions, index) {
      IdleKeepsIndex(sessions, index, id, s);
    }
  }

  lemma DistinctSnoc(order: seq<string>, id: string)
    requires Distinct(order) && id !in order
    ensures Distinct(order + [id])
  {
  }

  lemma IdleKeepsIndex(sessions: Sessions, index: map<string, string>, id: string, s: AcpSession)
    requires id !in sessions && !HasRun(s) && Indexed(sessions, index)
    ensures Indexed(sessions[id := s], index)
  {
  }

  function Cleared(s: AcpSession, nowMs: int): AcpSession {
    s.(activeRunId := None, abortController := None, lastTouchedAt := nowMs)
  }

  /** How room is made once the expired sessions are gone: there is some already, or a least recently
      touched idle session goes; refused only when none can be evicted. */
  ghost predicate MadeRoom(reaped: Sessions, maxSessions: nat, room: bool, sessions: Sessions) {
    if |reaped| < maxSessions then room && sessions == reaped
    else if room then exists victim :: IsVictim(reaped, victim) && sessions == reaped - {victim}
    else
      // Every session is busy, or the one whose turn it is has the empty id, which the source cannot tell from none.
      sessions == reaped && ((forall id :: id in reaped ==> Busy(reaped[id])) || IsVictim(reaped, ""))
  }

  ghost predicate Admitted(reaped: Sessions, maxSessions: nat, session: AcpSession, r: Created, sessions: Sessions) {
    match r
    case Session(s) =>
      s == session && exists base ::
        MadeRoom(reaped, maxSessions, true, base) && sessions == base[session.sessionId := session]
    case LimitReached => MadeRoom(reaped, maxSessions, false, sessions)
  }

  lemma CarriesItsId(sessions: Sessions, order: seq<string>, id: string)
    requires Ordered(sessions, order) && id in sessions
    ensures sessions[id].sessionId == id
  {
  }

  /** Idle, and no idle session was touched before it. */
  ghost predicate IsVictim(sessions: Sessions, id: string) {
    && id in sessions && !Busy(sessions[id])
    && forall other :: other in sessions && !Busy(sessions[other]) ==>
       sessions[id].lastTouchedAt <= sessions[other].lastTouchedAt
  }

  /** A full store refuses a new session only for the sessions that run something or hold a controller, or for the one
      with the empty id; otherwise exactly one session goes, which does neither, and none such was touched before it. */
  lemma FullStoreEvictsOne(reaped: Sessions, maxSessions: nat, session: AcpSession, r: Created, sessions: Sessions)
    requires Admitted(reaped, maxSessions, session, r, sessions) && |reaped| >= maxSessions
    requires session.sessionId !in reaped
    ensures r.LimitReached? ==>
              && sessions == reaped
              && ("" in reaped || forall id :: id in reaped ==>
                    reaped[id].abortController != None || reaped[id].activeRunId !in {None, Some("")})
    ensures r.Session? ==>
              exists gone ::
                && gone in reaped && gone !in sessions
                && sessions == (reaped - {gone})[session.sessionId := session]
                && reaped[gone].abortController == None && reaped[gone].activeRunId in {None, Some("")}
                && forall id :: id in reaped && reaped[id].lastTouchedAt < reaped[gone].lastTouchedAt ==>
                     reaped[id].abortController != None || reaped[id].activeRunId !in {None, Some("")}
  {
    if r.Session? {
      var base :| MadeRoom(reaped, maxSessions, true, base) && sessions == base[session.sessionId := session];
      var victim :| IsVictim(reaped, victim) && base == reaped - {victim};
      assert victim in reaped && victim !in sessions;
    }
  }

  lemma VictimIsLeastRecent(sessions: Sessions, order: seq<string>)
    requires Ordered(sessions, order)
    ensures forall id :: id in order ==> id in sessions
    ensures var oldest := OldestIdle(sessions, order);
            && (oldest.Some? ==> IsVictim(sessions, order[oldest.value]))
            && (oldest.None? ==> forall id :: id in sessions ==> Busy(sessions[id]))
  {
    var oldest := OldestIdle(sessions, order);
    if oldest.Some? {
      forall other | other in sessions && !Busy(sessions[other])
        ensures sessions[order[oldest.value]].lastTouchedAt <= sessions[other].lastTouchedAt
      {
        var j :| 0 <= j < |order| && order[j] == other;
      }
    }
  }

  function Without(order: seq<string>, id: string): seq<string> {
    if order == [] then [] else (if order[0] == id then [] else [order[0]]) + Without(order[1..], id)
  }

  lemma {:induction false} WithoutAbsent(order: seq<string>, id: string)
    requires id !in order
    ensures Without(order, id) == order
  {
    if order != [] {
      WithoutAbsent(order[1..], id);
    }
  }

  lemma {:induction false} WithoutMembers(order: seq<string>, id: string)
    requires Distinct(order)
    ensures Distinct(Without(order, id))
    ensures forall x :: x in Without(order, id) <==> x in order && x != id
  {
    if order != [] {
      WithoutMembers(order[1..], id);
      assert forall x :: x in order <==> x == order[0] || x in order[1..];
      assert order[0] !in order[1..];
    }
  }

  /** The previous run of the session was cancelled first, and the run id is not in use elsewhere. */
  predicate Settable(sessions: Sessions, index: map<string, string>, sessionId: string, runId: string)
    requires sessionId in sessions
  {
    && runId != ""
    && (HasRun(sessions[sessionId]) ==> sessions[sessionId].activeRunId == Some(runId))
    && (runId in index ==> index[runId] == sessionId)
  }

  lemma SettingKeepsIndex(sessions: Sessions, index: map<string, string>, sessionId: string, runId: string,
      session: AcpSession)
    requires sessionId in sessions && session.activeRunId == Some(runId)
    ensures Indexed(sessions, index) ==>
              (Indexed(sessions[sessionId := session], index[runId := sessionId]) <==>
               Settable(sessions, index, sessionId, runId))
  {
    var after, index' := sessions[sessionId := session], index[runId := sessionId];
    if !Indexed(sessions, index) {
    } else if HasRun(sessions[sessionId]) && sessions[sessionId].activeRunId != Some(runId) {
      // The old run still points at the session, which now runs something else.
      var stale := sessions[sessionId].activeRunId.value;
      assert stale in index' && index'[stale] == sessionId;
      assert !Indexed(after, index');
    } else if runId in index && index[runId] != sessionId {
      // Another session still runs this id, but the index no longer leads there.
      assert after[index[runId]].activeRunId == Some(runId);
      assert !Indexed(after, index');
    } else if runId == "" {
      assert runId in index';
      assert !Indexed(after, index');
    }
  }

  /** Where every run can be aborted, a session found and, if it has a controller, cancelled takes every id not in use
      elsewhere. */
  lemma CancelledIsSettable(sessions: Sessions, index: map<string, string>, sessionId: string, runId: string,
      foundAt: int, cancelledAt: int)
    requires Controlled(sessions) && sessionId in sessions
    ensures var found := sessions[sessionId].(lastTouchedAt := foundAt);
            var touched := sessions[sessionId := found];
            Indexed(sessions, index) ==>
              ((if found.abortController.None? then Settable(touched, index, sessionId, runId)
                else Settable(touched[sessionId := Cleared(found, cancelledAt)], WithoutRun(index, found), sessionId,
                  runId))
               <==> runId != "" && (runId in index ==> index[runId] == sessionId))
  {
  }

  lemma ClearingKeepsIndex(sessions: Sessions, index: map<string, string>, sessionId: string, nowMs: int)
    requires sessionId in sessions
    ensures var s := sessions[sessionId];
            Indexed(sessions, index) ==>
              Indexed(sessions[sessionId := Cleared(s, nowMs)], WithoutRun(index, s))
  {
  }

  lemma SmallerMap(small: Sessions, big: Sessions)
    requires forall id :: id in small ==> id in big
    ensures |small| <= |big|
  {
    SubsetCardinality(small.Keys, big.Keys);
  }

  lemma OneLess(sessions: Sessions, id: string)
    requires id in sessions
    ensures |sessions - {id}| == |sessions| - 1
  {
    assert (sessions - {id}).Keys == sessions.Keys - {id};
  }
}
