/**
 The quota theorems on the states runs reach: what the retry and persistence results ask of a
 window holds after every chronological run of non-negative usage.
 */
module QuotaRuns {
  import opened Schedules
  import opened QuotaModel
  import opened QuotaPruning
  import opened QuotaRetry
  import opened QuotaReconfigure
  import opened QuotaPersistence

  /** A call at a real clock reading that records no negative usage. */
  predicate Sane(op: Op) {
    && op.at > ZERO_TIME
    && match op
       case Use(_, e) => e.requests >= 0 && e.tokens >= 0 && e.cost >= 0
       case Succeed(_, tokens) => tokens >= 0
       case _ => true
  }

  predicate Usable(ops: seq<Op>, now: int) {
    Chronological(ops) && EndsBy(ops, now) && forall j | 0 <= j < |ops| :: Sane(ops[j])
  }

  /** When a run starts: at its first call, or at `now` if it has none. */
  function StartOf(ops: seq<Op>, now: int): int {
    if ops == [] then now else ops[0].at
  }

  predicate AfterZero(events: seq<Event>) {
    forall i | 0 <= i < |events| :: events[i].at > ZERO_TIME
  }

  lemma {:induction false} LogIsSane(w: Window, ops: seq<Op>)
    requires NonNegative(w.events) && AfterZero(w.events)
    requires forall j | 0 <= j < |ops| :: Sane(ops[j])
    ensures NonNegative(Log(w, ops)) && AfterZero(Log(w, ops))
  {
    if ops != [] {
      LogIsSane(w, ops[..|ops| - 1]);
      assert Sane(ops[|ops| - 1]);
    }
  }

  lemma {:induction false} TrackedIsProper(r: Subject, i: nat, resetAll: Schedule, w: Window, log: seq<Event>, now: int)
    requires Tracks(r, i, resetAll, w, log, now) && NonNegative(log) && AfterZero(log)
    requires w.reset == "fixed" ==> Tiles(w.fixed)
    ensures Proper(r.windows[i], now) && Recorded(r.windows[i])
  {
    SuffixIsSorted(r.windows[i].events, log, Cutoff(resetAll, w, now));
    var events := r.windows[i].events;
    assert forall j | 0 <= j < |events| :: events[j] == log[|log| - |events| + j];
  }

  /** A subject a run may start from: a configured one, an imported one, or one left by another run. */
  ghost predicate Ready(s: Subject, ops: seq<Op>, now: int) {
    && Usable(ops, now) && now >= ZERO_TIME
    && forall i | 0 <= i < |s.windows| :: Proper(s.windows[i], StartOf(ops, now)) && Recorded(s.windows[i])
  }

  /** Every chronological run keeps the windows in the state the theorems ask for. */
  lemma {:induction false} RunsStayProper(s: Subject, ops: seq<Op>, now: int)
    requires Ready(s, ops, now)
    ensures forall i | 0 <= i < |s.windows| :: Proper(Run(s, ops).windows[i], now) && Recorded(Run(s, ops).windows[i])
  {
    forall i | 0 <= i < |s.windows|
      ensures Proper(Run(s, ops).windows[i], now) && Recorded(Run(s, ops).windows[i])
    {
      LogIsSane(s.windows[i], ops);
      RunTracks(s, ops, now, i);
      TrackedIsProper(Run(s, ops), i, s.resetAll, s.windows[i], Log(s.windows[i], ops), now);
    }
  }

  /** A subject as its configuration builds it is ready, if its fixed windows have tiles. */
  lemma {:induction false} FreshIsReady(s: Subject, ops: seq<Op>, now: int)
    requires Fresh(s) && Usable(ops, now) && now >= ZERO_TIME
    requires forall i | 0 <= i < |s.windows| && s.windows[i].reset == "fixed" :: Tiles(s.windows[i].fixed)
    ensures Ready(s, ops, now)
  {
    forall i | 0 <= i < |s.windows|
      ensures Proper(s.windows[i], StartOf(ops, now)) && Recorded(s.windows[i])
    {
      assert s.windows[i].events == [];
    }
  }

  /** Main result: after any run, a denial for usage announces a time from which on the subject is
      admitted, and without reset_all it is the first such time. */
  lemma {:induction false} RunsRetryExactly(s: Subject, ops: seq<Op>, allowProbe: bool, now: int, t: int)
    requires Ready(s, ops, now) && t >= now
    requires Decide(Run(s, ops), allowProbe, now).1.reason == "limited"
    ensures var (next, d) := Decide(Run(s, ops), allowProbe, now);
            && (t >= d.retryAfter ==> Decide(next, allowProbe, t).1.allowed)
            && (Run(s, ops).resetAll.period == "" ==> (Decide(next, allowProbe, t).1.allowed <==> t >= d.retryAfter))
  {
    RunsStayProper(s, ops, now);
    SubjectRetryIsExact(Run(s, ops), allowProbe, now, t);
  }

  // ----- restarts -----

  /** Calls do not touch the configuration. */
  lemma {:induction false} ApplyKeepsConfiguration(s: Subject, op: Op)
    ensures Blank(Apply(s, op)) == Blank(s)
  {
    forall i | 0 <= i < |s.windows|
      ensures Blank(Apply(s, op)).windows[i] == Blank(s).windows[i]
    {
      ApplyOnWindow(s, op, i);
    }
    assert Blank(Apply(s, op)).windows == Blank(s).windows;
  }

  lemma {:induction false} RunKeepsConfiguration(s: Subject, ops: seq<Op>)
    ensures Blank(Run(s, ops)) == Blank(s)
  {
    if ops != [] {
      RunKeepsConfiguration(s, ops[..|ops| - 1]);
      ApplyKeepsConfiguration(Run(s, ops[..|ops| - 1]), ops[|ops| - 1]);
    }
  }

  /** Main result: whatever a run did, exporting and importing into a subject built from the same
      configuration restores it, except that no probe is in flight. */
  lemma {:induction false} RunsSurviveRestarts(s: Subject, ops: seq<Op>, client: bool, now: int)
    requires Ready(s, ops, now) && UniqueWindows(s.windows)
    ensures Load(Blank(s), Save(Rollover(Run(s, ops), now)), VERSION, client, now)
            == Rollover(Run(s, ops), now).(probeInFlight := false)
  {
    RunsStayProper(s, ops, now);
    RunKeepsConfiguration(s, ops);
    var r := Run(s, ops);
    assert forall i | 0 <= i < |s.windows| :: Blank(r).windows[i].name == r.windows[i].name;
    assert forall i | 0 <= i < |s.windows| :: Blank(s).windows[i].name == s.windows[i].name;
    ExportImportRoundTrip(Run(s, ops), client, now);
  }
}
