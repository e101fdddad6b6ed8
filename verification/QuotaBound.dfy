/**
 The sliding-window bound under concurrency. Requests are first checked and later recorded,
 and any number of other requests may slip in between. If at most `k` requests are ever
 admitted and not yet recorded, no span of the window's length ever holds more than
 `maxRequests - 1 + k` requests; used sequentially (`k == 1`) the limit is never exceeded.

 A stretch of calls may start with any events in the window, as an import or a
 reconfiguration leaves them, and with requests already in flight. What it starts with
 can exceed the bound (a reconfiguration may lower the limit); it then is the bound.
 */
module QuotaBound {
  import opened Common
  import opened Schedules
  import opened QuotaModel
  import opened QuotaPruning
  import opened QuotaRetry

  /** The calls the gateway makes on a client: an admission check, one recorded request,
      or the terminal usage of a request (tokens and cost, no request). */
  predicate ClientOp(op: Op) {
    match op
    case Admit(_, allowProbe) => !allowProbe
    case Use(_, e) => e.requests == 0 || e.requests == 1
    case _ => false
  }

  /** What one call adds to the requests in flight. */
  function Change(s: Subject, op: Op): int {
    match op
    case Admit(at, allowProbe) => if Decide(s, allowProbe, at).1.allowed then 1 else 0
    case Use(_, e) => -e.requests
    case _ => 0
  }

  /** Requests admitted and not yet recorded after a run. */
  function InFlight(s: Subject, ops: seq<Op>): int {
    if ops == [] then 0
    else InFlight(s, ops[..|ops| - 1]) + Change(Run(s, ops[..|ops| - 1]), ops[|ops| - 1])
  }

  /** A client run that starts with `flying` requests in flight, in which every recorded request was
      admitted and at most `k` are in flight. */
  ghost predicate ClientRun(s: Subject, ops: seq<Op>, flying: nat, k: nat) {
    && Chronological(ops)
    && (forall i | 0 <= i < |ops| :: ClientOp(ops[i]))
    && (forall n | 0 <= n <= |ops| :: 0 <= flying + InFlight(s, ops[..n]) <= k)
  }

  /** A window as imports, reconfigurations and earlier calls leave it: in order, without negative
      requests, none later than the first call. */
  predicate Startable(w: Window, ops: seq<Op>) {
    Sorted(w.events) && RequestsNonNegative(w.events) && (ops != [] ==> AllBy(w.events, ops[0].at))
  }

  /** The bound of a window: its limit and the requests in flight, or what it starts with. */
  function Bound(w: Window, flying: nat, k: nat): int {
    Max(w.maxRequests - 1 + k, Total(w.events).requests + flying)
  }

  /** Requests of a log in the span `(t - duration, t]`. */
  function RequestsIn(log: seq<Event>, t: int, duration: int): int {
    if log == [] then 0
    else
      var last := log[|log| - 1];
      RequestsIn(log[..|log| - 1], t, duration) + if t - duration < last.at <= t then last.requests else 0
  }

  predicate RequestsNonNegative(events: seq<Event>) {
    forall i | 0 <= i < |events| :: events[i].requests >= 0
  }

  lemma {:induction false} RequestsSplit(events: seq<Event>, k: nat)
    requires k <= |events| && RequestsNonNegative(events)
    ensures 0 <= Total(events[k..]).requests <= Total(events).requests
  {
    TotalSplits(events, k);
    RequestTotalNonNegative(events[..k]);
    RequestTotalNonNegative(events[k..]);
  }

  lemma {:induction false} RequestTotalNonNegative(events: seq<Event>)
    requires RequestsNonNegative(events)
    ensures Total(events).requests >= 0
  {
    if events != [] {
      RequestTotalNonNegative(events[..|events| - 1]);
    }
  }

  lemma {:induction false} RolledRequests(resetAll: Schedule, w: Window, now: int)
    requires resetAll.period == "" && RequestsNonNegative(w.events)
    ensures RequestsNonNegative(RollEvents(resetAll, w, now))
    ensures Total(RollEvents(resetAll, w, now)).requests <= Total(w.events).requests
  {
    var k := DropBeforeSplits(w.events, Cutoff(resetAll, w, now));
    RequestsSplit(w.events, k);
  }

  /** An admission means the window, rolled over, was below its request limit. */
  lemma {:induction false} AdmittedMeansBelow(s: Subject, now: int, i: nat)
    requires i < |s.windows| && s.windows[i].maxRequests > 0
    requires Decide(s, false, now).1.allowed
    ensures Total(RollEvents(s.resetAll, s.windows[i], now)).requests < s.windows[i].maxRequests
  {
    AdmitsIffNoneLimits(s, false, now);
    assert !LimitsAt(s.resetAll, s.windows[i], now);
  }

  /** What the window holds plus what is in flight never exceeds the bound, so that the next stretch
      starts within it. */
  lemma {:induction false} HeldPlusInFlight(s: Subject, ops: seq<Op>, flying: nat, k: nat, i: nat)
    requires i < |s.windows| && s.windows[i].maxRequests > 0 && RequestsNonNegative(s.windows[i].events)
    requires s.resetAll.period == "" && ClientRun(s, ops, flying, k)
    ensures var r := Run(s, ops);
            && r.resetAll == s.resetAll
            && r.windows[i] == s.windows[i].(events := r.windows[i].events)
            && RequestsNonNegative(r.windows[i].events)
            && Total(r.windows[i].events).requests + flying + InFlight(s, ops) <= Bound(s.windows[i], flying, k)
  {
    if ops != [] {
      var n := |ops| - 1;
      ShorterRun(s, ops, flying, k);
      HeldPlusInFlight(s, ops[..n], flying, k, i);
      assert ops[..|ops|] == ops;
      assert 0 <= flying + InFlight(s, ops) <= k;
      HeldStep(Run(s, ops[..n]), ops[n], i, flying + InFlight(s, ops[..n]), k, Bound(s.windows[i], flying, k));
    }
  }

  /** One call keeps what a window holds and what is in flight within a bound. */
  lemma {:induction false} HeldStep(s: Subject, op: Op, i: nat, flying: int, k: nat, bound: int)
    requires i < |s.windows| && s.windows[i].maxRequests > 0 && RequestsNonNegative(s.windows[i].events)
    requires s.resetAll.period == "" && ClientOp(op) && flying + Change(s, op) <= k
    requires s.windows[i].maxRequests - 1 + k <= bound
    requires Total(s.windows[i].events).requests + flying <= bound
    ensures var r := Apply(s, op);
            && r.resetAll == s.resetAll
            && r.windows[i] == s.windows[i].(events := r.windows[i].events)
            && RequestsNonNegative(r.windows[i].events)
            && Total(r.windows[i].events).requests + flying + Change(s, op) <= bound
  {
    var w := s.windows[i];
    ApplyOnWindow(s, op, i);
    RolledRequests(s.resetAll, w, op.at);
    var rolled, added := RollEvents(s.resetAll, w, op.at), Contribution(w, op);
    if op.Admit? && Decide(s, false, op.at).1.allowed {
      AdmittedMeansBelow(s, op.at, i);
    }
    OneMoreEvent(rolled, added);
  }

  lemma {:induction false} OneMoreEvent(events: seq<Event>, added: seq<Event>)
    requires |added| <= 1
    ensures Total(events + added).requests == Total(events).requests + if added == [] then 0 else added[0].requests
  {
    if added == [] {
      assert events + added == events;
    } else {
      assert (events + added)[..|events|] == events;
    }
  }

  /** Hence what is left of the window at any time stays within the bound. */
  lemma {:induction false} HeldBound(s: Subject, ops: seq<Op>, flying: nat, k: nat, i: nat, now: int)
    requires i < |s.windows| && s.windows[i].maxRequests > 0 && RequestsNonNegative(s.windows[i].events)
    requires s.resetAll.period == "" && ClientRun(s, ops, flying, k)
    ensures Total(Rollover(Run(s, ops), now).windows[i].events).requests <= Bound(s.windows[i], flying, k)
  {
    HeldPlusInFlight(s, ops, flying, k, i);
    assert ops[..|ops|] == ops;
    assert 0 <= flying + InFlight(s, ops);
    RolledWithinHeld(Run(s, ops), now, i);
  }

  lemma {:induction false} ShorterRun(s: Subject, ops: seq<Op>, flying: nat, k: nat)
    requires ops != [] && ClientRun(s, ops, flying, k)
    ensures ClientRun(s, ops[..|ops| - 1], flying, k)
  {
    var shorter := ops[..|ops| - 1];
    forall n | 0 <= n <= |shorter|
      ensures 0 <= flying + InFlight(s, shorter[..n]) <= k
    {
      assert shorter[..n] == ops[..n];
    }
  }

  /** A span that ends no earlier than the log covers only what a window rolled at `now <= t` holds. */
  lemma {:induction false} SpanWithinSuffix(log: seq<Event>, now: int, t: int, duration: int)
    requires RequestsNonNegative(log) && now <= t
    ensures RequestsIn(log, t, duration) <= Total(Since(log, now - duration + 1)).requests
  {
    if log != [] {
      var n := |log| - 1;
      SpanWithinSuffix(log[..n], now, t, duration);
      var kept := Since(log[..n], now - duration + 1);
      assert (kept + [log[n]])[..|kept|] == kept;
      assert kept + [] == kept;
    }
  }

  lemma {:induction false} LogRequests(w: Window, ops: seq<Op>)
    requires RequestsNonNegative(w.events)
    requires forall i | 0 <= i < |ops| :: ClientOp(ops[i])
    ensures RequestsNonNegative(Log(w, ops))
  {
    if ops != [] {
      LogRequests(w, ops[..|ops| - 1]);
    }
  }

  /** Rolling over never adds requests. */
  lemma {:induction false} RolledWithinHeld(r: Subject, now: int, i: nat)
    requires i < |r.windows| && r.resetAll.period == ""
    requires RequestsNonNegative(r.windows[i].events)
    ensures Total(Rollover(r, now).windows[i].events).requests <= Total(r.windows[i].events).requests
  {
    RolledRequests(r.resetAll, r.windows[i], now);
    assert Rollover(r, now).windows[i] == RollWindow(r.resetAll, r.windows[i], now);
  }

  /** The bound for a span that ends no earlier than the last call. */
  lemma {:induction false} LatestSpanBound(s: Subject, ops: seq<Op>, flying: nat, k: nat, i: nat, now: int, t: int)
    requires i < |s.windows| && s.windows[i].reset != "fixed" && s.windows[i].maxRequests > 0
    requires Startable(s.windows[i], ops) && ops != []
    requires s.resetAll.period == "" && ClientRun(s, ops, flying, k)
    requires EndsBy(ops, now) && now <= t
    ensures RequestsIn(Log(s.windows[i], ops), t, s.windows[i].duration) <= Bound(s.windows[i], flying, k)
  {
    HeldBound(s, ops, flying, k, i, now);
    RolledToSpan(s, ops, now, i, Bound(s.windows[i], flying, k));
    SpanOfLog(s.resetAll, s.windows[i], ops, now, t, Bound(s.windows[i], flying, k));
  }

  /** What is left of the window is the log from the cutoff on. */
  lemma {:induction false} RolledToSpan(s: Subject, ops: seq<Op>, now: int, i: nat, bound: int)
    requires i < |s.windows| && Sorted(s.windows[i].events)
    requires Chronological(ops) && EndsBy(ops, now)
    requires AllBy(s.windows[i].events, if ops == [] then now else ops[0].at)
    requires Total(Rollover(Run(s, ops), now).windows[i].events).requests <= bound
    ensures Total(Since(Log(s.windows[i], ops), Cutoff(s.resetAll, s.windows[i], now))).requests <= bound
  {
    PruningRefinesTheLog(s, ops, now, i);
  }

  /** The log from the cutoff of a rolling window without reset_all covers every span that ends later. */
  lemma {:induction false} SpanOfLog(resetAll: Schedule, w: Window, ops: seq<Op>, now: int, t: int, bound: int)
    requires w.reset != "fixed" && resetAll.period == ""
    requires RequestsNonNegative(w.events) && now <= t
    requires forall j | 0 <= j < |ops| :: ClientOp(ops[j])
    requires Total(Since(Log(w, ops), Cutoff(resetAll, w, now))).requests <= bound
    ensures RequestsIn(Log(w, ops), t, w.duration) <= bound
  {
    LogRequests(w, ops);
    SpanWithinSuffix(Log(w, ops), now, t, w.duration);
  }

  /** A span holds no more than the whole log. */
  lemma {:induction false} SpanWithinLog(log: seq<Event>, t: int, duration: int)
    requires RequestsNonNegative(log)
    ensures RequestsIn(log, t, duration) <= Total(log).requests
  {
    if log != [] {
      SpanWithinLog(log[..|log| - 1], t, duration);
    }
  }

  /** Main result, from any start: over every client run, and for every instant `t`, the span of the
      window's length ending at `t` holds at most `maxRequests - 1 + k` of all requests ever recorded,
      or no more than the run started with. */
  lemma {:induction false} SpansStayBounded(s: Subject, ops: seq<Op>, flying: nat, k: nat, i: nat, t: int)
    requires i < |s.windows| && s.windows[i].reset != "fixed" && s.windows[i].maxRequests > 0
    requires Startable(s.windows[i], ops)
    requires s.resetAll.period == "" && ClientRun(s, ops, flying, k)
    ensures RequestsIn(Log(s.windows[i], ops), t, s.windows[i].duration) <= Bound(s.windows[i], flying, k)
  {
    if ops == [] {
      SpanWithinLog(s.windows[i].events, t, s.windows[i].duration);
    } else {
      var n, w := |ops| - 1, s.windows[i];
      if ops[n].at <= t {
        assert EndsBy(ops, ops[n].at);
        LatestSpanBound(s, ops, flying, k, i, ops[n].at, t);
      } else {
        ShorterRun(s, ops, flying, k);
        SpansStayBounded(s, ops[..n], flying, k, i, t);
        SpanIgnores(Log(w, ops[..n]), Contribution(w, ops[n]), t, w.duration);
      }
    }
  }

  /** The sliding-window bound: a run that starts within the bound stays within it. */
  lemma {:induction false} SlidingWindowBound(s: Subject, ops: seq<Op>, flying: nat, k: nat, i: nat, t: int)
    requires i < |s.windows| && s.windows[i].reset != "fixed" && s.windows[i].maxRequests > 0
    requires Startable(s.windows[i], ops)
    requires Total(s.windows[i].events).requests + flying <= s.windows[i].maxRequests - 1 + k
    requires s.resetAll.period == "" && ClientRun(s, ops, flying, k)
    ensures RequestsIn(Log(s.windows[i], ops), t, s.windows[i].duration) <= s.windows[i].maxRequests - 1 + k
  {
    SpansStayBounded(s, ops, flying, k, i, t);
  }

  lemma {:induction false} SpanIgnores(log: seq<Event>, added: seq<Event>, t: int, duration: int)
    requires |added| <= 1 && (added != [] ==> !(t - duration < added[0].at <= t))
    ensures RequestsIn(log + added, t, duration) == RequestsIn(log, t, duration)
  {
    if added != [] {
      assert (log + added)[..|log|] == log;
    } else {
      assert log + added == log;
    }
  }

  /** Sequential use: the configured maximum is a true sliding-window limit, from every start that keeps it. */
  lemma {:induction false} SequentialUseNeverExceeds(s: Subject, ops: seq<Op>, flying: nat, i: nat, t: int)
    requires i < |s.windows| && s.windows[i].reset != "fixed" && s.windows[i].maxRequests > 0
    requires Startable(s.windows[i], ops)
    requires Total(s.windows[i].events).requests + flying <= s.windows[i].maxRequests
    requires s.resetAll.period == "" && ClientRun(s, ops, flying, 1)
    ensures RequestsIn(Log(s.windows[i], ops), t, s.windows[i].duration) <= s.windows[i].maxRequests
  {
    SlidingWindowBound(s, ops, flying, 1, i, t);
  }
}
