/**
 What the session operations mean, told without their tables: which hook events lead to which status, what a sweep
 and a restart do to a session, and what a repeated registration keeps.
 */
module SessionLaws {
  import opened Common
  import opened Schedules
  import opened Sessions

  /** The events that say nothing about the status of a session. */
  predicate IsQuiet(e: HookEvent) {
    || (e.name == "Notification" && e.notice == SaysNothing)
    || e.name !in {"SessionStart", "UserPromptSubmit", "PreToolUse", "PostToolUse", "Notification", "Stop", "PreCompact", "SessionEnd"}
  }

  /** The events that lead to a status. */
  predicate LeadsTo(e: HookEvent, status: Status) {
    match status
    case Idle => e.name in {"SessionStart", "Stop"} || (e.name == "Notification" && e.notice == SaysIdle)
    case Running => e.name in {"UserPromptSubmit", "PostToolUse"}
    case ToolRunning => e.name == "PreToolUse" && !e.needsPermission
    case WaitingPermission => (e.name == "PreToolUse" && e.needsPermission) || (e.name == "Notification" && e.notice == AsksPermission)
    case Compacting => e.name == "PreCompact"
    case Stopped => e.name == "SessionEnd"
    case _ => false
  }

  /** After a hook event on a live session of its owner, the session has the status the event leads to; a quiet event leaves
      the status, or makes it unknown if there was none. A stopped session takes no event. */
  lemma {:induction false} HookEventsSetTheStatus(st: Store, client: string, inbound: string, e: HookEvent, now: int, status: Status)
    requires e.sessionId in st.sessions && st.sessions[e.sessionId].client == client && st.sessions[e.sessionId].inbound == inbound
    ensures var s, next := st.sessions[e.sessionId], ApplyHookEvent(st, client, inbound, e, now).0.sessions[e.sessionId];
            if s.status == Stopped then next == s
            else if IsQuiet(e) then next.status == if s.status == Unset then Unknown else s.status
            else next.status == status <==> LeadsTo(e, status)
  {
  }

  /** And it is marked as seen, with the event, at the time the event was received. */
  lemma {:induction false} HookEventsAreSeen(st: Store, client: string, inbound: string, e: HookEvent, now: int)
    requires e.sessionId in st.sessions && st.sessions[e.sessionId].client == client && st.sessions[e.sessionId].inbound == inbound
    requires st.sessions[e.sessionId].status != Stopped
    ensures var s, next := st.sessions[e.sessionId], ApplyHookEvent(st, client, inbound, e, now).0.sessions[e.sessionId];
            && next.lastEvent == e.name && next.statusObservedAt == now
            && next.lastSeenAt == (if e.receivedAt == ZERO_TIME then now else e.receivedAt)
            && (next.stoppedAt != s.stoppedAt ==> s.stoppedAt == None && e.name == "SessionEnd" && next.stoppedAt == Some(next.lastSeenAt))
            && next == s.(status := next.status, lastEvent := next.lastEvent, lastSeenAt := next.lastSeenAt,
                          statusObservedAt := next.statusObservedAt, stoppedAt := next.stoppedAt)
  {
  }

  /** A sweep, session by session, for a store in which every live heartbeat session has its lease. */
  lemma {:induction false} SweepsSettleEachSession(st: Store, retention: int, transientTtl: int, now: int, id: string)
    requires id in st.sessions
    ensures var s, swept := st.sessions[id], Sweep(st, retention, transientTtl, now).sessions;
            if s.status == Stopped then
              (id !in swept <==> retention > 0 && s.lastSeenAt + retention < now) && (id in swept ==> swept[id] == s)
            else if s.capability == "heartbeat_v1" && s.leaseExpiresAt.Some? && s.leaseExpiresAt.value <= now then
              id in swept && swept[id] == s.(status := Stopped, lastSeenAt := now, stoppedAt := Some(now), exitCode := None, statusObservedAt := now)
            else if s.status in {ToolRunning, Compacting} && transientTtl > 0 && s.statusObservedAt != ZERO_TIME && s.statusObservedAt + transientTtl <= now then
              id in swept && swept[id] == s.(status := Unknown, statusObservedAt := now)
            else id in swept && swept[id] == s
  {
  }

  predicate UniqueIds(list: seq<Session>) {
    forall i, j | 0 <= i < j < |list| :: list[i].id != list[j].id
  }

  /** A restart, session by session: stopped sessions are kept for an hour, heartbeat sessions come back with a new lease of
      45 seconds and wait for a sign of life, and all others are stopped. */
  lemma {:induction false} RestartsRecoverEachSession(list: seq<Session>, generation: nat, now: int, i: nat)
    requires UniqueIds(list) && i < |list|
    ensures var s, sessions := list[i], Import(list, generation, now).sessions;
            if s.status == Stopped then
              (s.id in sessions <==> s.lastSeenAt + 3600 * SECOND >= now) && (s.id in sessions ==> sessions[s.id] == s)
            else if s.capability == "heartbeat_v1" then
              s.id in sessions && sessions[s.id] ==
                s.(status := Unknown, recoveryPending := true, recoveredAt := Some(now), lastHeartbeatAt := None,
                   leaseExpiresAt := Some(now + 45 * SECOND), statusObservedAt := now)
            else
              s.id in sessions && sessions[s.id] ==
                s.(status := Stopped, recoveryPending := false, recoveredAt := None, stoppedAt := Some(now),
                   lastSeenAt := now, exitCode := None, statusObservedAt := now)
  {
    var n := |list| - 1;
    if i < n {
      assert list[..n][i] == list[i];
      RestartsRecoverEachSession(list[..n], generation, now, i);
    } else {
      NotYetThere(list[..n], list[n].id, now);
    }
  }

  lemma {:induction false} NotYetThere(list: seq<Session>, id: string, now: int)
    requires forall i | 0 <= i < |list| :: list[i].id != id
    ensures id !in Recovered(list, now)
  {
    if list != [] {
      NotYetThere(list[..|list| - 1], id, now);
    }
  }

  /** A live session that registers again keeps its life so far; a new one starts now. */
  lemma {:induction false} RegistrationKeepsTheLife(st: Store, s: Session, now: int)
    requires s.id in st.sessions ==> st.sessions[s.id].client == s.client && st.sessions[s.id].inbound == s.inbound
    requires s.id in st.sessions ==> st.sessions[s.id].status != Stopped
    ensures var next := Register(st, s, now).0.sessions;
            && s.id in next && next[s.id].details == s.details
            && (s.id in st.sessions ==>
                  var known := st.sessions[s.id];
                  && next[s.id].lastEvent == known.lastEvent && next[s.id].stoppedAt == known.stoppedAt && next[s.id].exitCode == known.exitCode
                  && (known.status != Unset ==> next[s.id].status == known.status)
                  && (known.startedAt != ZERO_TIME ==> next[s.id].startedAt == known.startedAt)
                  && (known.lastSeenAt != ZERO_TIME ==> next[s.id].lastSeenAt == known.lastSeenAt))
            && (s.id !in st.sessions && s.startedAt == ZERO_TIME ==> next[s.id].startedAt == now)
            && (next[s.id].capability == "heartbeat_v1" ==>
                  !next[s.id].recoveryPending && next[s.id].leaseExpiresAt == Some(now + 45 * SECOND))
  {
  }

  /** A heartbeat renews the lease for 45 seconds and ends a recovery. */
  lemma {:induction false} HeartbeatsRenewTheLease(st: Store, client: string, inbound: string, id: string, now: int)
    requires id in st.sessions && st.sessions[id].client == client && st.sessions[id].inbound == inbound
    requires st.sessions[id].status != Stopped && st.sessions[id].capability == "heartbeat_v1"
    ensures var s, next := st.sessions[id], Heartbeat(st, client, inbound, id, now).0.sessions[id];
            next == s.(lastHeartbeatAt := Some(now), leaseExpiresAt := Some(now + 45 * SECOND), recoveryPending := false,
                       status := if s.recoveryPending then Unknown else s.status)
  {
  }

  /** Stopping a live session records when and how it ended. */
  lemma {:induction false} StopsRecordTheExit(st: Store, client: string, inbound: string, id: string, exitCode: int, now: int)
    requires id in st.sessions && st.sessions[id].client == client && st.sessions[id].inbound == inbound && st.sessions[id].status != Stopped
    ensures var s, next := st.sessions[id], MarkStopped(st, client, inbound, id, exitCode, now).0.sessions[id];
            next == s.(status := Stopped, lastSeenAt := now, stoppedAt := Some(now), exitCode := Some(exitCode), statusObservedAt := now)
  {
  }

  /** Who is answered what: an owner finds the session as it is afterwards, a stranger finds nothing or is refused. */
  lemma {:induction false} RepliesTellTheOutcome(st: Store, op: Op, id: string)
    requires match op
             case DoRegister(_, s) => s.id == id
             case DoHook(_, _, _, e) => e.sessionId == id
             case DoStop(_, _, _, i, _) => i == id
             case DoBeat(_, _, _, i) => i == id
             case DoSweep(_, _, _) => false
    ensures var (client, inbound) := match op
                                     case DoRegister(_, s) => (s.client, s.inbound)
                                     case DoHook(_, c, i, _) => (c, i)
                                     case DoStop(_, c, i, _, _) => (c, i)
                                     case DoBeat(_, c, i, _) => (c, i)
                                     case DoSweep(_, _, _) => ("", "");
            var reply := match op
                         case DoRegister(now, s) => Register(st, s, now).1
                         case DoHook(now, c, i, e) => ApplyHookEvent(st, c, i, e, now).1
                         case DoStop(now, c, i, _, exitCode) => MarkStopped(st, c, i, id, exitCode, now).1
                         case DoBeat(now, c, i, _) => Heartbeat(st, c, i, id, now).1
                         case DoSweep(_, _, _) => Missing;
            var stranger := id in st.sessions && (st.sessions[id].client != client || st.sessions[id].inbound != inbound);
            && (reply == Missing <==> !op.DoRegister? && (id !in st.sessions || stranger))
            && (reply == Refused <==>
                  || (op.DoRegister? && stranger)
                  || (op.DoBeat? && id in st.sessions && !stranger && st.sessions[id].status != Stopped && st.sessions[id].capability != "heartbeat_v1"))
            && (reply.Found? ==> id in Apply(st, op).sessions && reply.session == Apply(st, op).sessions[id])
  {
  }
}
