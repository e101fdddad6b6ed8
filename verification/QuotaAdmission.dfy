/**
 What the tracker decides, read off the history alone: outside a cooldown a subject is denied exactly if the
 requests, tokens or cost reported within the span of one of its windows reach the configured maximum.
 */
module QuotaAdmission {
  import opened Schedules
  import opened QuotaModel
  import opened QuotaPruning
  import opened QuotaRetry
  import opened QuotaRuns

  datatype Quantity = Requests | Tokens | Cost | Unpriced

  function Amount(e: Event, q: Quantity): int {
    match q
    case Requests => e.requests
    case Tokens => e.tokens
    case Cost => e.cost
    case Unpriced => e.unpriced
  }

  /** The configured maximum; unpriced requests are counted but not limited. */
  function Maximum(w: Window, q: Quantity): int {
    match q
    case Requests => w.maxRequests
    case Tokens => w.maxTokens
    case Cost => w.maxCost
    case Unpriced => 0
  }

  /** Whether usage at `at` counts in the window at `now`: within its duration or its tile, and not before
      the last reset of all windows. */
  predicate CountsAt(resetAll: Schedule, w: Window, now: int, at: int) {
    && (if w.reset == "fixed" then Bounds(w.fixed, now).0 <= at else now - w.duration < at)
    && (resetAll.period != "" ==> Bounds(resetAll, now).0 <= at)
  }

  /** What a log spends in the window at `now`, event by event. */
  function Spent(log: seq<Event>, resetAll: Schedule, w: Window, now: int, q: Quantity): int {
    if log == [] then 0
    else
      var last := log[|log| - 1];
      Spent(log[..|log| - 1], resetAll, w, now, q) + if CountsAt(resetAll, w, now, last.at) then Amount(last, q) else 0
  }

  predicate Reaches(log: seq<Event>, resetAll: Schedule, w: Window, now: int, q: Quantity) {
    Maximum(w, q) > 0 && Spent(log, resetAll, w, now, q) >= Maximum(w, q)
  }

  predicate LimitReached(log: seq<Event>, resetAll: Schedule, w: Window, now: int) {
    exists q :: Reaches(log, resetAll, w, now, q)
  }

  // ----- the sums of the code are these sums -----

  function Of(u: Usage, q: Quantity): int {
    match q
    case Requests => u.requests
    case Tokens => u.tokens
    case Cost => u.cost
    case Unpriced => u.unpriced
  }

  function SpentFrom(log: seq<Event>, cutoff: int, q: Quantity): int {
    if log == [] then 0
    else
      var last := log[|log| - 1];
      SpentFrom(log[..|log| - 1], cutoff, q) + if last.at >= cutoff then Amount(last, q) else 0
  }

  lemma {:induction false} TotalIsSpent(log: seq<Event>, cutoff: int, q: Quantity)
    ensures Of(Total(Since(log, cutoff)), q) == SpentFrom(log, cutoff, q)
  {
    if log != [] {
      var n := |log| - 1;
      TotalIsSpent(log[..n], cutoff, q);
      var kept := Since(log[..n], cutoff);
      assert (kept + [log[n]])[..|kept|] == kept;
      assert kept + [] == kept;
    }
  }

  lemma {:induction false} SpanIsFromCutoff(log: seq<Event>, resetAll: Schedule, w: Window, now: int, cutoff: int, q: Quantity)
    requires forall at :: CountsAt(resetAll, w, now, at) <==> at >= cutoff
    ensures Spent(log, resetAll, w, now, q) == SpentFrom(log, cutoff, q)
  {
    if log != [] {
      SpanIsFromCutoff(log[..|log| - 1], resetAll, w, now, cutoff, q);
    }
  }

  lemma {:induction false} CountsFromCutoff(resetAll: Schedule, w: Window, now: int, at: int)
    ensures CountsAt(resetAll, w, now, at) <==> at >= Cutoff(resetAll, w, now)
  {
  }

  lemma {:induction false} LimitedMeansReached(resetAll: Schedule, held: Window, w: Window, log: seq<Event>, now: int, cutoff: int)
    requires held == w.(events := held.events)
    requires forall at :: CountsAt(resetAll, w, now, at) <==> at >= cutoff
    ensures Limited(held, Total(Since(log, cutoff))) <==> LimitReached(log, resetAll, w, now)
  {
    forall q
      ensures Spent(log, resetAll, w, now, q) == Of(Total(Since(log, cutoff)), q)
    {
      TotalIsSpent(log, cutoff, q);
      SpanIsFromCutoff(log, resetAll, w, now, cutoff, q);
    }
    assert Reaches(log, resetAll, w, now, Requests) <==> w.maxRequests > 0 && Total(Since(log, cutoff)).requests >= w.maxRequests;
    assert Reaches(log, resetAll, w, now, Tokens) <==> w.maxTokens > 0 && Total(Since(log, cutoff)).tokens >= w.maxTokens;
    assert Reaches(log, resetAll, w, now, Cost) <==> w.maxCost > 0 && Total(Since(log, cutoff)).cost >= w.maxCost;
  }

  lemma {:induction false} TrackedLimit(r: Subject, i: nat, resetAll: Schedule, w: Window, log: seq<Event>, now: int)
    requires Tracks(r, i, resetAll, w, log, now)
    ensures LimitsAt(r.resetAll, r.windows[i], now) <==> LimitReached(log, resetAll, w, now)
  {
    var cutoff := Cutoff(resetAll, w, now);
    RolledView(resetAll, r.windows[i], log, now, cutoff);
    forall at
      ensures CountsAt(resetAll, w, now, at) <==> at >= cutoff
    {
      CountsFromCutoff(resetAll, w, now, at);
    }
    LimitedMeansReached(resetAll, r.windows[i], w, log, now, cutoff);
  }

  /** A chronological run on windows that hold events in order, none later than its first call. */
  ghost predicate Orderly(s: Subject, ops: seq<Op>, now: int) {
    && Chronological(ops) && EndsBy(ops, now)
    && forall i | 0 <= i < |s.windows| :: Sorted(s.windows[i].events) && AllBy(s.windows[i].events, StartOf(ops, now))
  }

  /** Main result, for every run and every configuration: outside a cooldown the subject is denied exactly if
      the log of one of its windows reaches one of its maxima. */
  lemma {:induction false} DeniesIffALogReachesALimit(s: Subject, ops: seq<Op>, allowProbe: bool, now: int)
    requires Orderly(s, ops, now) && !(allowProbe && InCooldown(Run(s, ops), now))
    ensures !Decide(Run(s, ops), allowProbe, now).1.allowed <==>
            exists i :: 0 <= i < |s.windows| && LimitReached(Log(s.windows[i], ops), s.resetAll, s.windows[i], now)
  {
    var r := Run(s, ops);
    forall i | 0 <= i < |s.windows|
      ensures LimitsAt(r.resetAll, r.windows[i], now) <==> LimitReached(Log(s.windows[i], ops), s.resetAll, s.windows[i], now)
    {
      RunTracks(s, ops, now, i);
      TrackedLimit(r, i, s.resetAll, s.windows[i], Log(s.windows[i], ops), now);
    }
    AdmitsIffNoneLimits(r, allowProbe, now);
  }

  // ----- what was reported, whether a window kept it or not -----

  function ReportedBy(op: Op): seq<Event> {
    match op
    case Use(at, e) => [e.(at := at)]
    case Succeed(at, tokens) => [Event(at, 1, tokens, 0, 0)]
    case _ => []
  }

  /** Every usage a run reports on a subject, after what was there at the start. */
  function Reported(start: seq<Event>, ops: seq<Op>): seq<Event> {
    if ops == [] then start else Reported(start, ops[..|ops| - 1]) + ReportedBy(ops[|ops| - 1])
  }

  /** A typed window measures its own quantity; any other window measures everything. */
  predicate Measures(w: Window, q: Quantity) {
    match w.typeName
    case "requests" => q.Requests?
    case "tokens" => q.Tokens?
    case "cost" => q.Cost?
    case _ => true
  }

  /** A window is configured with maxima of what it measures only. */
  predicate LimitsWhatItMeasures(w: Window) {
    forall q :: Maximum(w, q) > 0 ==> Measures(w, q)
  }

  lemma {:induction false} SpentAppend(log: seq<Event>, e: Event, resetAll: Schedule, w: Window, now: int, q: Quantity)
    ensures Spent(log + [e], resetAll, w, now, q) == Spent(log, resetAll, w, now, q) + if CountsAt(resetAll, w, now, e.at) then Amount(e, q) else 0
  {
    assert (log + [e])[..|log|] == log;
  }

  /** What a window does not keep would add nothing to what it measures. */
  lemma {:induction false} KeptIsEnough(w: Window, ops: seq<Op>, resetAll: Schedule, now: int, q: Quantity)
    requires Measures(w, q) && forall j | 0 <= j < |ops| :: Sane(ops[j])
    ensures Spent(Log(w, ops), resetAll, w, now, q) == Spent(Reported(w.events, ops), resetAll, w, now, q)
  {
    if ops != [] {
      var n := |ops| - 1;
      KeptIsEnough(w, ops[..n], resetAll, now, q);
      assert Sane(ops[n]);
      StepIsEnough(w, ops[n], Log(w, ops[..n]), Reported(w.events, ops[..n]), resetAll, now, q);
    }
  }

  lemma {:induction false} StepIsEnough(w: Window, op: Op, kept: seq<Event>, all: seq<Event>, resetAll: Schedule, now: int, q: Quantity)
    requires Measures(w, q) && Sane(op) && Spent(kept, resetAll, w, now, q) == Spent(all, resetAll, w, now, q)
    ensures Spent(kept + Contribution(w, op), resetAll, w, now, q) == Spent(all + ReportedBy(op), resetAll, w, now, q)
  {
    assert kept + [] == kept && all + [] == all;
    match op
    case Use(at, event) =>
      var e := event.(at := at);
      SpentAppend(all, e, resetAll, w, now, q);
      SpentAppend(kept, e, resetAll, w, now, q);
      assert !Accepts(w, e) ==> Amount(e, q) == 0;
    case Succeed(at, tokens) =>
      var e := Event(at, 1, tokens, 0, 0);
      SpentAppend(all, e, resetAll, w, now, q);
      SpentAppend(kept, e, resetAll, w, now, q);
    case _ =>
  }

  /** Main result: after any run of non-negative usage, a subject outside a cooldown is denied exactly if all that
      was ever reported on it reaches the maximum of one of its windows within that window's current span. */
  lemma {:induction false} DeniesIffUsageReachesALimit(s: Subject, ops: seq<Op>, allowProbe: bool, now: int)
    requires Orderly(s, ops, now) && !(allowProbe && InCooldown(Run(s, ops), now))
    requires forall j | 0 <= j < |ops| :: Sane(ops[j])
    requires forall i | 0 <= i < |s.windows| :: LimitsWhatItMeasures(s.windows[i])
    ensures !Decide(Run(s, ops), allowProbe, now).1.allowed <==>
            exists i :: 0 <= i < |s.windows| && LimitReached(Reported(s.windows[i].events, ops), s.resetAll, s.windows[i], now)
  {
    DeniesIffALogReachesALimit(s, ops, allowProbe, now);
    forall i | 0 <= i < |s.windows|
      ensures LimitReached(Log(s.windows[i], ops), s.resetAll, s.windows[i], now) <==>
              LimitReached(Reported(s.windows[i].events, ops), s.resetAll, s.windows[i], now)
    {
      SameLimits(s.windows[i], ops, s.resetAll, now);
    }
  }

  lemma {:induction false} SameLimits(w: Window, ops: seq<Op>, resetAll: Schedule, now: int)
    requires LimitsWhatItMeasures(w) && forall j | 0 <= j < |ops| :: Sane(ops[j])
    ensures LimitReached(Log(w, ops), resetAll, w, now) <==> LimitReached(Reported(w.events, ops), resetAll, w, now)
  {
    forall q
      ensures Reaches(Log(w, ops), resetAll, w, now, q) <==> Reaches(Reported(w.events, ops), resetAll, w, now, q)
    {
      if Maximum(w, q) > 0 {
        KeptIsEnough(w, ops, resetAll, now, q);
      }
    }
  }

  /** The same for the whole tracker: each subject is judged by what was reported on it, whatever happens to others. */
  lemma {:induction false} TrackerDeniesIffUsageReachesALimit(subjects: map<string, Subject>, calls: seq<Call>, name: string, allowProbe: bool, now: int)
    requires name in subjects && Orderly(subjects[name], CallsOn(calls, name), now)
    requires forall j | 0 <= j < |CallsOn(calls, name)| :: Sane(CallsOn(calls, name)[j])
    requires !(allowProbe && InCooldown(RunAll(subjects, calls)[name], now))
    requires forall i | 0 <= i < |subjects[name].windows| :: LimitsWhatItMeasures(subjects[name].windows[i])
    ensures var s, ops := subjects[name], CallsOn(calls, name);
            !Decide(RunAll(subjects, calls)[name], allowProbe, now).1.allowed <==>
            exists i :: 0 <= i < |s.windows| && LimitReached(Reported(s.windows[i].events, ops), s.resetAll, s.windows[i], now)
  {
    SubjectsAreIndependent(subjects, calls, name);
    DeniesIffUsageReachesALimit(subjects[name], CallsOn(calls, name), allowProbe, now);
  }

  // ----- the report of a denial -----

  /** The quantity a window is reported in. */
  function ReportedIn(w: Window): Quantity {
    if w.typeName == "tokens" then Tokens else if w.typeName == "cost" then Cost else Requests
  }

  /** A window at its limit is reported with the maximum and the usage of its quantity. */
  lemma {:induction false} ReportsShowTheUsage(r: Subject, i: nat, resetAll: Schedule, w: Window, log: seq<Event>, now: int)
    requires Tracks(r, i, resetAll, w, log, now) && LimitReached(log, resetAll, w, now)
    ensures var rolled := RollWindow(resetAll, r.windows[i], now);
            && Limited(rolled, Total(rolled.events))
            && BlockedBy(rolled, now).limit == Maximum(w, ReportedIn(w))
            && BlockedBy(rolled, now).used == Spent(log, resetAll, w, now, ReportedIn(w))
  {
    var cutoff, q := Cutoff(resetAll, w, now), ReportedIn(w);
    TrackedLimit(r, i, resetAll, w, log, now);
    RolledView(resetAll, r.windows[i], log, now, cutoff);
    forall at
      ensures CountsAt(resetAll, w, now, at) <==> at >= cutoff
    {
      CountsFromCutoff(resetAll, w, now, at);
    }
    TotalIsSpent(log, cutoff, q);
    SpanIsFromCutoff(log, resetAll, w, now, cutoff, q);
  }
}
