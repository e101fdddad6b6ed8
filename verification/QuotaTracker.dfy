/**
 The tracker as the source runs it: loops over event lists and windows, and a map of
 subjects that every call updates. Each method is proved to have the effect `QuotaModel` states.
 */
module QuotaTracker {
  import opened Schedules
  import opened QuotaModel
  import opened QuotaReconfigure
  import opened QuotaPersistence

  method DiscardBefore(events: seq<Event>, cutoff: int) returns (kept: seq<Event>)
    ensures kept == DropBefore(events, cutoff)
  {
    var keep := 0;
    while keep < |events| && events[keep].at < cutoff
      invariant 0 <= keep <= |events|
      invariant DropBefore(events, cutoff) == DropBefore(events[keep..], cutoff)
    {
      assert events[keep..][1..] == events[keep + 1..];
      keep := keep + 1;
    }
    kept := events[keep..];
  }

  method UsageOf(events: seq<Event>) returns (u: Usage)
    ensures u == Total(events)
  {
    u := Usage(0, 0, 0, 0);
    for i := 0 to |events|
      invariant u == Total(events[..i])
    {
      assert events[..i + 1][..i] == events[..i];
      u := Plus(u, events[i]);
    }
    assert events[..|events|] == events;
  }

  /** The retry time of a window, and whether it limits at all. */
  method WindowRetryAfter(w: Window, now: int) returns (at: int, hit: bool)
    ensures hit <==> Limited(w, Total(w.events))
    ensures hit ==> at == RetryAfter(w, now)
  {
    var used := UsageOf(w.events);
    if !Limited(w, used) {
      return ZERO_TIME, false;
    }
    if w.reset == "fixed" {
      return Bounds(w.fixed, now).1, true;
    }
    var need := Need(w, used);
    var removed := Usage(0, 0, 0, 0);
    for i := 0 to |w.events|
      invariant removed == Total(w.events[..i])
      invariant i < |w.events| ==> ReleaseIndex(w.events, need, 0) == ReleaseIndex(w.events, need, i)
      invariant i == |w.events| ==> ReleaseIndex(w.events, need, 0) == |w.events| - 1
    {
      assert w.events[..i + 1][..i] == w.events[..i];
      removed := Plus(removed, w.events[i]);
      if Covers(removed, need) {
        return w.events[i].at + w.duration, true;
      }
    }
    return w.events[|w.events| - 1].at + w.duration, true;
  }

  method RolloverSubject(s: Subject, now: int) returns (r: Subject)
    ensures r == Rollover(s, now)
  {
    r := s;
    var windows := [];
    for i := 0 to |s.windows|
      invariant |windows| == i
      invariant forall j | 0 <= j < i :: windows[j] == RollWindow(s.resetAll, s.windows[j], now)
    {
      var w := s.windows[i];
      var events := w.events;
      if s.resetAll.period != "" {
        events := DiscardBefore(events, Bounds(s.resetAll, now).0);
      }
      if w.reset == "fixed" {
        events := DiscardBefore(events, Bounds(w.fixed, now).0);
      } else {
        events := DiscardBefore(events, now - w.duration + 1);
      }
      windows := windows + [w.(events := events)];
    }
    assert windows == Rollover(s, now).windows;
    r := r.(windows := windows);
    if s.cooldownUntil != ZERO_TIME && now >= s.cooldownUntil {
      r := r.(cooldownUntil := ZERO_TIME, nextProbeAt := ZERO_TIME, probeInFlight := false);
    }
  }

  method ReportBlocked(w: Window, at: int, now: int) returns (item: BlockingWindow)
    requires Limited(w, Total(w.events)) && at == RetryAfter(w, now)
    ensures item == BlockedBy(w, now)
  {
    var used := UsageOf(w.events);
    var typeName := w.typeName;
    if typeName == "" {
      typeName := "requests";
    }
    var limit, spent, unit := w.maxRequests, used.requests, "requests";
    if typeName == "tokens" {
      limit, spent, unit := w.maxTokens, used.tokens, "tokens";
    } else if typeName == "cost" {
      limit, spent, unit := w.maxCost, used.cost, "USD";
    }
    item := BlockingWindow(w.name, typeName, limit, spent, unit, at);
  }

  method BlockingWindows(windows: seq<Window>, now: int) returns (retryAfter: int, blocking: seq<BlockingWindow>)
    ensures blocking == Blocking(windows, now)
    ensures retryAfter == LatestRetry(blocking)
  {
    retryAfter, blocking := ZERO_TIME, [];
    for i := 0 to |windows|
      invariant blocking == Blocking(windows[..i], now)
      invariant retryAfter == LatestRetry(blocking)
    {
      assert windows[..i + 1][..i] == windows[..i];
      var at, hit := WindowRetryAfter(windows[i], now);
      if hit {
        ghost var earlier := blocking;
        var item := ReportBlocked(windows[i], at, now);
        blocking := blocking + [item];
        assert blocking[..|blocking| - 1] == earlier;
        if retryAfter == ZERO_TIME || at > retryAfter {
          retryAfter := at;
        }
      }
    }
    assert windows[..|windows|] == windows;
  }

  method RollAll(subjects: map<string, Subject>, now: int) returns (rolled: map<string, Subject>)
    ensures rolled == map name | name in subjects :: Rollover(subjects[name], now)
  {
    rolled := map[];
    var names := subjects.Keys;
    while names != {}
      invariant names <= subjects.Keys
      invariant rolled == map name | name in subjects.Keys - names :: Rollover(subjects[name], now)
    {
      var name :| name in names;
      var s := RolloverSubject(subjects[name], now);
      rolled := rolled[name := s];
      names := names - {name};
    }
    assert subjects.Keys - names == subjects.Keys;
  }

  method SaveAll(subjects: map<string, Subject>) returns (state: map<string, SavedSubject>)
    ensures state == map name | name in subjects :: Save(subjects[name])
  {
    state := map[];
    var names := subjects.Keys;
    while names != {}
      invariant names <= subjects.Keys
      invariant state == map name | name in subjects.Keys - names :: Save(subjects[name])
    {
      var name :| name in names;
      state := state[name := Save(subjects[name])];
      names := names - {name};
    }
    assert subjects.Keys - names == subjects.Keys;
  }

  class Tracker {
    const client: bool
    var subjects: map<string, Subject>

    constructor (client: bool, initial: map<string, Subject>)
      ensures this.client == client && subjects == initial
    {
      this.client := client;
      subjects := initial;
    }

    /** An unknown subject is never limited; a known one gets the model's decision. */
    method BeforeAttempt(name: string, allowProbe: bool, now: int) returns (d: Decision)
      modifies this
      ensures name !in old(subjects) ==> d == ALLOWED && subjects == old(subjects)
      ensures name in old(subjects) ==>
                var (s, decision) := Decide(old(subjects)[name], allowProbe, now);
                d == decision && subjects == old(subjects)[name := s]
    {
      if name !in subjects {
        return ALLOWED;
      }
      var s := RolloverSubject(subjects[name], now);
      if allowProbe && InCooldown(s, now) {
        if s.nextProbeAt != ZERO_TIME && now >= s.nextProbeAt && !s.probeInFlight {
          s := s.(probeInFlight := true);
          d := ALLOWED.(probe := true);
        } else {
          d := Decision(false, "cooldown", false, s.nextProbeAt, []);
        }
      } else {
        var retryAfter, blocking := BlockingWindows(s.windows, now);
        if |blocking| > 0 {
          d := Decision(false, "limited", false, retryAfter, blocking);
        } else {
          d := ALLOWED;
        }
      }
      subjects := subjects[name := s];
    }

    method RecordClientUsage(name: string, event: Event, now: int)
      modifies this
      ensures subjects ==
              if name in old(subjects) then old(subjects)[name := RecordUsage(old(subjects)[name], event, now)]
              else old(subjects)
    {
      if name !in subjects {
        return;
      }
      var s := RolloverSubject(subjects[name], now);
      var e := event.(at := now);
      var windows := [];
      for i := 0 to |s.windows|
        invariant |windows| == i
        invariant forall j | 0 <= j < i :: windows[j] == AppendIfAccepted(s.windows[j], e)
        invariant subjects == old(subjects)
      {
        var w := s.windows[i];
        var accept := true;
        if w.typeName == "requests" {
          accept := e.requests > 0;
        } else if w.typeName == "tokens" {
          accept := e.tokens > 0;
        } else if w.typeName == "cost" {
          accept := e.cost > 0 || e.unpriced > 0;
        }
        windows := windows + [if accept then w.(events := w.events + [e]) else w];
      }
      assert windows == RecordUsage(subjects[name], event, now).windows;
      subjects := subjects[name := s.(windows := windows, lastSuccessAt := now)];
    }

    method RecordOutboundSuccess(name: string, tokens: int, now: int)
      modifies this
      ensures subjects ==
              if name in old(subjects) then old(subjects)[name := RecordSuccess(old(subjects)[name], tokens, now)]
              else old(subjects)
    {
      if name !in subjects {
        return;
      }
      var s := RolloverSubject(subjects[name], now);
      var e := Event(now, 1, tokens, 0, 0);
      var windows := [];
      for i := 0 to |s.windows|
        invariant |windows| == i
        invariant forall j | 0 <= j < i :: windows[j] == s.windows[j].(events := s.windows[j].events + [e])
        invariant subjects == old(subjects)
      {
        windows := windows + [s.windows[i].(events := s.windows[i].events + [e])];
      }
      assert windows == RecordSuccess(subjects[name], tokens, now).windows;
      subjects := subjects[name := s.(
        windows := windows, cooldownUntil := ZERO_TIME, nextProbeAt := ZERO_TIME,
        probeInFlight := false, lastSuccessAt := now)];
    }

    method RecordOutboundExceeded(name: string, now: int)
      modifies this
      ensures subjects ==
              if name in old(subjects) then old(subjects)[name := RecordQuotaExceeded(old(subjects)[name], now)]
              else old(subjects)
    {
      if name !in subjects {
        return;
      }
      var s := RolloverSubject(subjects[name], now);
      subjects := subjects[name := s.(
        lastQuotaExceededAt := now, cooldownUntil := now + s.cooldown,
        nextProbeAt := now + s.probeInterval, probeInFlight := false)];
    }

    /** Rolls every subject over and saves it. */
    method ExportState(now: int) returns (state: SavedState)
      modifies this
      ensures subjects == map name | name in old(subjects) :: Rollover(old(subjects)[name], now)
      ensures state == SavedState(VERSION, map name | name in old(subjects) :: Save(Rollover(old(subjects)[name], now)))
    {
      subjects := RollAll(subjects, now);
      var saved := SaveAll(subjects);
      state := SavedState(VERSION, saved);
    }

    /** Loads the saved subjects this tracker knows and leaves the others alone. */
    method ImportState(persisted: SavedState, now: int)
      modifies this
      ensures subjects == map name | name in old(subjects) ::
                if name in persisted.subjects
                then Load(old(subjects)[name], persisted.subjects[name], persisted.version, client, now)
                else old(subjects)[name]
    {
      var state := persisted.subjects;
      var names := state.Keys;
      while names != {}
        invariant names <= state.Keys && subjects.Keys == old(subjects).Keys
        invariant forall name | name in subjects ::
                    subjects[name] ==
                    if name in state && name !in names
                    then Load(old(subjects)[name], state[name], persisted.version, client, now)
                    else old(subjects)[name]
      {
        var name :| name in names;
        if name in subjects {
          subjects := subjects[name := Load(subjects[name], state[name], persisted.version, client, now)];
        }
        names := names - {name};
      }
    }

    /** Replaces the configuration; `changed` is false exactly when no recorded event was lost. */
    method ReconfigureTo(configured: seq<Subject>, outbound: bool) returns (changed: bool)
      requires forall i | 0 <= i < |configured| :: Fresh(configured[i]) && UniqueWindows(configured[i].windows)
      requires forall i, j | 0 <= i < j < |configured| :: configured[i].name != configured[j].name
      requires forall name | name in subjects :: UniqueWindows(subjects[name].windows)
      modifies this
      ensures subjects.Keys == set i | 0 <= i < |configured| :: configured[i].name
      ensures AllInstalled(old(subjects), configured, |configured|, outbound, subjects)
      ensures !changed <==> AllUsageSurvives(old(subjects), subjects)
    {
      var next;
      next, changed := Reconfigure(subjects, configured, outbound);
      subjects := next;
    }
  }
}
