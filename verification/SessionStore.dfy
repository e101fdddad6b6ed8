/**
 The session store as an object. Its methods
 are proved to perform the effects of `Sessions`.
 */
module SessionStore {
  import opened Common
  import opened Schedules
  import opened Sessions

  class SessionMap {
    var sessions: map<string, Session>
    var generation: nat

    constructor ()
      ensures State() == Store(map[], 0)
    {
      sessions, generation := map[], 0;
    }

    ghost function State(): Store
      reads this
    {
      Store(sessions, generation)
    }

    method SetSession(id: string, s: Session) returns (changed: bool)
      modifies this
      ensures State() == Set(old(State()), id, s)
      ensures changed <==> State() != old(State())
    {
      if id in sessions && sessions[id] == s {
        return false;
      }
      sessions := sessions[id := s];
      generation := generation + 1;
      return true;
    }

    method Complete(merged: Session, now: int) returns (s: Session)
      ensures s == Completed(merged, now)
    {
      s := merged;
      if s.startedAt == ZERO_TIME {
        s := s.(startedAt := now);
      }
      if s.lastSeenAt == ZERO_TIME {
        s := s.(lastSeenAt := now);
      }
      if s.status.Unset? {
        s := s.(status := Unknown);
      }
      if s.statusObservedAt == ZERO_TIME {
        s := s.(statusObservedAt := now);
      }
      if s.capability == HEARTBEAT_V1 {
        s := s.(lastHeartbeatAt := Some(now), leaseExpiresAt := Some(now + LEASE_TTL), recoveryPending := false);
      } else {
        s := s.(lastHeartbeatAt := None, leaseExpiresAt := None);
      }
    }

    method RegisterSession(submitted: Session, now: int) returns (reply: Reply)
      modifies this
      ensures (State(), reply) == Register(old(State()), submitted, now)
    {
      var s := submitted;
      if s.id in sessions {
        var known := sessions[s.id];
        if known.client != s.client || known.inbound != s.inbound {
          return Refused;
        }
        if known.status.Stopped? {
          return Found(known);
        }
        s := s.(status := known.status, lastEvent := known.lastEvent, startedAt := known.startedAt,
                lastSeenAt := known.lastSeenAt, stoppedAt := known.stoppedAt, exitCode := known.exitCode,
                recoveryPending := known.recoveryPending, recoveredAt := known.recoveredAt,
                statusObservedAt := known.statusObservedAt);
        if known.capability != "" && s.capability == "" {
          s := s.(capability := known.capability);
        }
      }
      s := Complete(s, now);
      var _ := SetSession(s.id, s);
      return Found(s);
    }

    method HookEventOn(client: string, inbound: string, e: HookEvent, now: int) returns (reply: Reply)
      modifies this
      ensures (State(), reply) == ApplyHookEvent(old(State()), client, inbound, e, now)
    {
      if e.sessionId !in sessions || sessions[e.sessionId].client != client || sessions[e.sessionId].inbound != inbound {
        return Missing;
      }
      var s := sessions[e.sessionId];
      if s.status.Stopped? {
        return Found(s);
      }
      var received := if e.receivedAt == ZERO_TIME then now else e.receivedAt;
      s := s.(status := StatusForHookEvent(e, s.status), lastEvent := e.name, lastSeenAt := received, statusObservedAt := now);
      if s.status.Stopped? && s.stoppedAt.None? {
        s := s.(stoppedAt := Some(received));
      }
      var _ := SetSession(e.sessionId, s);
      return Found(s);
    }

    method StopSession(client: string, inbound: string, id: string, exitCode: int, now: int) returns (reply: Reply)
      modifies this
      ensures (State(), reply) == MarkStopped(old(State()), client, inbound, id, exitCode, now)
    {
      if id !in sessions || sessions[id].client != client || sessions[id].inbound != inbound {
        return Missing;
      }
      var s := sessions[id];
      if s.status.Stopped? {
        return Found(s);
      }
      s := s.(status := Stopped, lastSeenAt := now, stoppedAt := Some(now), exitCode := Some(exitCode), statusObservedAt := now);
      var _ := SetSession(id, s);
      return Found(s);
    }

    method Beat(client: string, inbound: string, id: string, now: int) returns (reply: Reply)
      modifies this
      ensures (State(), reply) == Heartbeat(old(State()), client, inbound, id, now)
    {
      if id !in sessions || sessions[id].client != client || sessions[id].inbound != inbound {
        return Missing;
      }
      var s := sessions[id];
      if s.status.Stopped? {
        return Found(s);
      }
      if s.capability != HEARTBEAT_V1 {
        return Refused;
      }
      s := s.(lastHeartbeatAt := Some(now), leaseExpiresAt := Some(now + LEASE_TTL));
      if s.recoveryPending {
        s := s.(recoveryPending := false, status := Unknown);
      }
      var _ := SetSession(id, s);
      return Found(s);
    }

    /** Removes, stops or degrades one session, or leaves it. */
    method SweepSession(id: string, retention: int, transientTtl: int, now: int) returns (fate: Fate)
      requires id in sessions
      modifies this
      ensures fate == FateOf(old(sessions)[id], retention, transientTtl, now)
      ensures var outcome := SweepOne(old(sessions)[id], retention, transientTtl, now);
              && sessions == (if outcome.None? then old(sessions) - {id} else old(sessions)[id := outcome.value])
              && generation == old(generation) + if outcome == Some(old(sessions)[id]) then 0 else 1
    {
      var s := sessions[id];
      fate := Untouched;
      if s.status.Stopped? {
        if retention > 0 && s.lastSeenAt < now - retention {
          sessions := sessions - {id};
          generation := generation + 1;
          fate := Pruned;
        }
      } else if LeaseExpired(s, now) {
        var _ := SetSession(id, StoppedBy(s, None, now));
        fate := Expired;
      } else if TransientStale(s, transientTtl, now) {
        var _ := SetSession(id, s.(status := Unknown, statusObservedAt := now));
        fate := Degraded;
      }
    }

    /** Visits the sessions in any order; the outcome does not depend on it. */
    method SweepAll(retention: int, transientTtl: int, now: int) returns (result: SweepResult)
      modifies this
      ensures State() == Sweep(old(State()), retention, transientTtl, now)
      ensures result == CountsOf(old(sessions), retention, transientTtl, now, {})
    {
      result := SweepResult(0, 0, 0);
      ghost var start, outcomes := State(), Outcomes(sessions, retention, transientTtl, now);
      var left := sessions.Keys;
      while left != {}
        invariant left <= start.sessions.Keys
        invariant sessions == Settle(start.sessions, outcomes, left)
        invariant generation == start.generation + |Touched(start.sessions, outcomes, left)|
        invariant result == CountsOf(start.sessions, retention, transientTtl, now, left)
      {
        var id :| id in left;
        SettleStep(start.sessions, outcomes, left, id);
        CountStep(start.sessions, retention, transientTtl, now, left, id);
        var fate := SweepSession(id, retention, transientTtl, now);
        match fate {
          case Untouched =>
          case Pruned => result := result.(stoppedPruned := result.stoppedPruned + 1);
          case Expired => result := result.(leaseExpired := result.leaseExpired + 1);
          case Degraded => result := result.(transientDegraded := result.transientDegraded + 1);
        }
        left := left - {id};
      }
    }

    /** The most recently seen live session of an owner; one awaiting recovery is never returned. */
    method LatestActive(client: string, inbound: string) returns (found: Option<Session>)
      ensures found.None? <==> forall id | id in sessions :: !Active(sessions[id], client, inbound)
      ensures found.Some? ==>
                && (exists id :: id in sessions && sessions[id] == found.value)
                && found.value.client == client && found.value.inbound == inbound
                && found.value.status != Stopped && !found.value.recoveryPending
                && forall id | id in sessions && Active(sessions[id], client, inbound) :: sessions[id].lastSeenAt <= found.value.lastSeenAt
    {
      found := None;
      var left := sessions.Keys;
      while left != {}
        invariant left <= sessions.Keys
        invariant found.None? <==> forall id | id in sessions.Keys - left :: !Active(sessions[id], client, inbound)
        invariant found.Some? ==>
                    && (exists id :: id in sessions && sessions[id] == found.value)
                    && Active(found.value, client, inbound)
                    && forall id | id in sessions.Keys - left && Active(sessions[id], client, inbound) :: sessions[id].lastSeenAt <= found.value.lastSeenAt
      {
        var id :| id in left;
        var s := sessions[id];
        if s.client == client && s.inbound == inbound && !s.status.Stopped? && !s.recoveryPending {
          if found.None? || s.lastSeenAt > found.value.lastSeenAt {
            found := Some(s);
          }
        }
        left := left - {id};
      }
    }

    /** The sessions as a list, in any order. */
    method Export() returns (list: seq<Session>)
      requires forall id | id in sessions :: sessions[id].id == id
      ensures ById(list) == sessions
    {
      list := [];
      var left := sessions.Keys;
      while left != {}
        invariant left <= sessions.Keys
        invariant ById(list) == sessions - left
      {
        var id :| id in left;
        ListMore(list, sessions[id]);
        TakeOne(sessions, left, id);
        list := list + [sessions[id]];
        left := left - {id};
      }
      assert sessions - left == sessions;
    }

    method ImportList(list: seq<Session>, savedGeneration: nat, now: int)
      modifies this
      ensures State() == Import(list, savedGeneration, now)
    {
      var imported: map<string, Session> := map[];
      var normalized := false;
      for i := 0 to |list|
        invariant imported == Recovered(list[..i], now)
        invariant normalized <==> exists j :: 0 <= j < i && NeedsRecovery(list[j], now)
      {
        assert list[..i + 1][..i] == list[..i];
        var s := list[i];
        var keep := true;
        if s.status.Stopped? {
          if s.lastSeenAt < now - STOPPED_RETENTION {
            normalized := true;
            keep := false;
          }
        } else if s.capability == HEARTBEAT_V1 {
          normalized := true;
          s := s.(status := Unknown, recoveryPending := true, recoveredAt := Some(now), lastHeartbeatAt := None,
                  leaseExpiresAt := Some(now + LEASE_TTL), statusObservedAt := now);
        } else {
          normalized := true;
          s := s.(status := Stopped, recoveryPending := false, recoveredAt := None, stoppedAt := Some(now),
                  lastSeenAt := now, exitCode := None, statusObservedAt := now);
        }
        if keep {
          imported := imported[s.id := s];
        }
      }
      assert list[..|list|] == list;
      sessions := imported;
      generation := if normalized then savedGeneration + 1 else savedGeneration;
    }
  }

  lemma {:induction false} ListMore(list: seq<Session>, s: Session)
    ensures ById(list + [s]) == ById(list)[s.id := s]
  {
    assert (list + [s])[..|list|] == list;
  }

  lemma {:induction false} TakeOne(sessions: map<string, Session>, left: set<string>, id: string)
    requires id in left && id in sessions
    ensures (sessions - left)[id := sessions[id]] == sessions - (left - {id})
  {
  }

  /** Counting one more ID adds to the count of its fate alone. */
  lemma {:induction false} CountStep(sessions: map<string, Session>, retention: int, transientTtl: int, now: int, left: set<string>, id: string)
    requires left <= sessions.Keys && id in left
    ensures var before, fate := CountsOf(sessions, retention, transientTtl, now, left), FateOf(sessions[id], retention, transientTtl, now);
            CountsOf(sessions, retention, transientTtl, now, left - {id})
            == SweepResult(before.leaseExpired + if fate == Expired then 1 else 0,
                           before.transientDegraded + if fate == Degraded then 1 else 0,
                           before.stoppedPruned + if fate == Pruned then 1 else 0)
  {
    FatedStep(sessions, retention, transientTtl, now, Expired, left, id);
    FatedStep(sessions, retention, transientTtl, now, Degraded, left, id);
    FatedStep(sessions, retention, transientTtl, now, Pruned, left, id);
  }

  lemma {:induction false} FatedStep(sessions: map<string, Session>, retention: int, transientTtl: int, now: int, fate: Fate, left: set<string>, id: string)
    requires left <= sessions.Keys && id in left
    ensures |Fated(sessions, retention, transientTtl, now, fate, left - {id})|
            == |Fated(sessions, retention, transientTtl, now, fate, left)| + if FateOf(sessions[id], retention, transientTtl, now) == fate then 1 else 0
  {
    var before := Fated(sessions, retention, transientTtl, now, fate, left);
    var after := Fated(sessions, retention, transientTtl, now, fate, left - {id});
    if FateOf(sessions[id], retention, transientTtl, now) == fate {
      assert after == before + {id};
    } else {
      assert after == before;
    }
  }

  /** Settling one more ID removes it, replaces it or leaves it, and counts it if it changed. */
  lemma {:induction false} SettleStep(sessions: map<string, Session>, outcomes: map<string, Option<Session>>, left: set<string>, id: string)
    requires outcomes.Keys == sessions.Keys && left <= sessions.Keys && id in left
    ensures var before, after := Settle(sessions, outcomes, left), Settle(sessions, outcomes, left - {id});
            && id in before && before[id] == sessions[id]
            && after == match outcomes[id]
                        case None => before - {id}
                        case Some(s) => before[id := s]
    ensures |Touched(sessions, outcomes, left - {id})| ==
            |Touched(sessions, outcomes, left)| + if outcomes[id] == Some(sessions[id]) then 0 else 1
  {
    var before, after := Touched(sessions, outcomes, left), Touched(sessions, outcomes, left - {id});
    if outcomes[id] == Some(sessions[id]) {
      assert after == before;
    } else {
      assert after == before + {id};
    }
  }
}
