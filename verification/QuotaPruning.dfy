/**
 Pruning refines the full log. The tracker forgets events as time passes; the reference
 forgets nothing and filters by time. Over every chronological run both see the same window.
 */
module QuotaPruning {
  import opened Schedules
  import opened QuotaModel

  /** One call on a subject, with the clock reading it made. */
  datatype Op =
    | Admit(at: int, allowProbe: bool)
    | Use(at: int, event: Event)
    | Succeed(at: int, tokens: int)
    | Exceed(at: int)

  function Apply(s: Subject, op: Op): (r: Subject)
    ensures |r.windows| == |s.windows|
  {
    match op
    case Admit(at, allowProbe) => Decide(s, allowProbe, at).0
    case Use(at, event) => RecordUsage(s, event, at)
    case Succeed(at, tokens) => RecordSuccess(s, tokens, at)
    case Exceed(at) => RecordQuotaExceeded(s, at)
  }

  function Run(s: Subject, ops: seq<Op>): (r: Subject)
    ensures |r.windows| == |s.windows|
  {
    if ops == [] then s else Apply(Run(s, ops[..|ops| - 1]), ops[|ops| - 1])
  }

  predicate Chronological(ops: seq<Op>) {
    forall i, j | 0 <= i < j < |ops| :: ops[i].at <= ops[j].at
  }

  predicate EndsBy(ops: seq<Op>, now: int) {
    forall i | 0 <= i < |ops| :: ops[i].at <= now
  }

  // ----- reference: nothing is ever forgotten -----

  /** What one call adds to the complete log of a window. */
  function Contribution(w: Window, op: Op): seq<Event> {
    match op
    case Use(at, event) => if Accepts(w, event.(at := at)) then [event.(at := at)] else []
    case Succeed(at, tokens) => [Event(at, 1, tokens, 0, 0)]
    case _ => []
  }

  /** The complete log of a window: what it held at the start and all a run ever recorded in it. */
  function Log(w: Window, ops: seq<Op>): seq<Event> {
    if ops == [] then w.events
    else Log(w, ops[..|ops| - 1]) + Contribution(w, ops[|ops| - 1])
  }

  /** The first instant the window still counts at `now`, reset_all boundary included. */
  function Cutoff(resetAll: Schedule, w: Window, now: int): int {
    var own := if w.reset == "fixed" then Bounds(w.fixed, now).0 else now - w.duration + 1;
    if resetAll.period != "" && Bounds(resetAll, now).0 > own then Bounds(resetAll, now).0 else own
  }

  function Since(log: seq<Event>, cutoff: int): seq<Event> {
    if log == [] then []
    else
      var last := log[|log| - 1];
      Since(log[..|log| - 1], cutoff) + if last.at >= cutoff then [last] else []
  }

  predicate Sorted(events: seq<Event>) {
    forall i, j | 0 <= i < j < |events| :: events[i].at <= events[j].at
  }

  predicate AllBy(events: seq<Event>, t: int) {
    forall i | 0 <= i < |events| :: events[i].at <= t
  }

  // ----- the invariant -----

  /** `events` is what is left of `log` after forgetting only events before `cutoff`. */
  predicate Pruned(events: seq<Event>, log: seq<Event>, cutoff: int) {
    && |events| <= |log|
    && log[|log| - |events|..] == events
    && forall i | 0 <= i < |log| - |events| :: log[i].at < cutoff
  }

  lemma {:induction false} DropBeforeSplits(events: seq<Event>, cutoff: int) returns (k: nat)
    ensures k <= |events| && DropBefore(events, cutoff) == events[k..]
    ensures forall i | 0 <= i < k :: events[i].at < cutoff
    ensures k < |events| ==> events[k].at >= cutoff
  {
    if events != [] && events[0].at < cutoff {
      var k' := DropBeforeSplits(events[1..], cutoff);
      k := k' + 1;
      assert events[1..][k'..] == events[k..];
      forall i | 0 <= i < k
        ensures events[i].at < cutoff
      {
        if i > 0 { assert events[i] == events[1..][i - 1]; }
      }
    } else {
      k := 0;
    }
  }

  lemma {:induction false} DropKeepsPruned(events: seq<Event>, log: seq<Event>, cutoff: int, cutoff': int)
    requires Pruned(events, log, cutoff) && cutoff <= cutoff'
    ensures Pruned(DropBefore(events, cutoff'), log, cutoff')
  {
    var k := DropBeforeSplits(events, cutoff');
    var n := |log| - |events|;
    forall i | 0 <= i < n + k
      ensures log[i].at < cutoff'
    {
      if i >= n { assert log[i] == events[i - n]; }
    }
  }

  /** Two successive prefix drops on a sorted list act as one, at the later cutoff. */
  lemma {:induction false} DropTwice(events: seq<Event>, a: int, b: int)
    requires Sorted(events)
    ensures DropBefore(DropBefore(events, a), b) == DropBefore(events, if a > b then a else b)
  {
    var c := if a > b then a else b;
    var i := DropBeforeSplits(events, a);
    var j := DropBeforeSplits(events[i..], b);
    var k := DropBeforeSplits(events, c);
    assert events[i..][j..] == events[i + j..];
    assert forall m | i <= m < i + j :: events[m] == events[i..][m - i];
    assert i + j == k;
  }

  lemma {:induction false} RollIsOneDrop(resetAll: Schedule, w: Window, now: int)
    requires Sorted(w.events)
    ensures RollEvents(resetAll, w, now) == DropBefore(w.events, Cutoff(resetAll, w, now))
  {
    if resetAll.period != "" {
      DropTwice(w.events, Bounds(resetAll, now).0, if w.reset == "fixed" then Bounds(w.fixed, now).0 else now - w.duration + 1);
    }
  }

  lemma {:induction false} CutoffsAreMonotone(resetAll: Schedule, w: Window, t: int, u: int)
    requires t <= u
    ensures Cutoff(resetAll, w, t) <= Cutoff(resetAll, w, u)
  {
    StartsAreMonotone(w.fixed, t, u);
    StartsAreMonotone(resetAll, t, u);
  }

  lemma {:induction false} SinceOfPruned(events: seq<Event>, log: seq<Event>, cutoff: int)
    requires Sorted(log) && Pruned(events, log, cutoff)
    ensures DropBefore(events, cutoff) == Since(log, cutoff)
    ensures Sorted(Since(log, cutoff))
  {
    DropKeepsPruned(events, log, cutoff, cutoff);
    var k := DropBeforeSplits(events, cutoff);
    SettledIsSince(DropBefore(events, cutoff), log, cutoff);
  }

  /** What is left of a log, if it starts at the cutoff, is the log since the cutoff. */
  lemma {:induction false} SettledIsSince(kept: seq<Event>, log: seq<Event>, cutoff: int)
    requires Sorted(log) && Pruned(kept, log, cutoff) && (kept != [] ==> kept[0].at >= cutoff)
    ensures kept == Since(log, cutoff) && Sorted(kept)
  {
    SuffixIsSorted(kept, log, cutoff);
    var n := |log| - |kept|;
    forall i | n <= i < |log|
      ensures log[i].at >= cutoff
    {
      assert log[i] == kept[i - n] && kept[0].at <= kept[i - n].at;
    }
    SinceIsSuffix(log, n, cutoff);
  }

  lemma {:induction false} SinceIsSuffix(log: seq<Event>, n: nat, cutoff: int)
    requires n <= |log|
    requires forall i | 0 <= i < n :: log[i].at < cutoff
    requires forall i | n <= i < |log| :: log[i].at >= cutoff
    ensures Since(log, cutoff) == log[n..]
  {
    if log != [] {
      var m := |log| - 1;
      SinceIsSuffix(log[..m], if n <= m then n else m, cutoff);
      if n <= m {
        assert log[..m][n..] + [log[m]] == log[n..];
      }
    }
  }

  /** One call keeps the configuration of every window, rolls it over and appends its contribution. */
  lemma {:induction false} ApplyOnWindow(s: Subject, op: Op, i: nat)
    requires i < |s.windows|
    ensures Apply(s, op).resetAll == s.resetAll
    ensures Apply(s, op).windows[i] ==
            s.windows[i].(events := RollEvents(s.resetAll, s.windows[i], op.at) + Contribution(s.windows[i], op))
  {
    var rolled := Rollover(s, op.at);
    assert rolled.windows[i] == RollWindow(s.resetAll, s.windows[i], op.at);
    match op
    case Admit(_, _) =>
    case Use(at, event) =>
      assert Accepts(rolled.windows[i], event.(at := at)) == Accepts(s.windows[i], event.(at := at));
    case Succeed(_, _) =>
    case Exceed(_) =>
  }

  lemma {:induction false} SuffixIsSorted(events: seq<Event>, log: seq<Event>, cutoff: int)
    requires Sorted(log) && Pruned(events, log, cutoff)
    ensures Sorted(events)
  {
    forall a, b | 0 <= a < b < |events|
      ensures events[a].at <= events[b].at
    {
      assert events[a] == log[|log| - |events| + a] && events[b] == log[|log| - |events| + b];
    }
  }

  lemma {:induction false} AppendInOrder(log: seq<Event>, added: seq<Event>, at: int)
    requires Sorted(log) && AllBy(log, at) && |added| <= 1 && (added != [] ==> added[0].at == at)
    ensures Sorted(log + added) && AllBy(log + added, at)
  {
    if added == [] {
      assert log + added == log;
    } else {
      assert log + added == log + [added[0]];
    }
  }

  lemma {:induction false} AppendKeepsPruned(kept: seq<Event>, log: seq<Event>, cutoff: int, added: seq<Event>)
    requires Pruned(kept, log, cutoff)
    ensures Pruned(kept + added, log + added, cutoff)
  {
    var n := |log| - |kept|;
    assert (log + added)[n..] == log[n..] + added;
    assert forall i | 0 <= i < n :: (log + added)[i] == log[i];
  }

  /** What the run of a window looks like at `now`: configuration kept, log in order, list pruned. */
  predicate Tracks(s: Subject, i: nat, resetAll: Schedule, w: Window, log: seq<Event>, now: int) {
    && i < |s.windows|
    && s.resetAll == resetAll
    && s.windows[i] == w.(events := s.windows[i].events)
    && Sorted(log)
    && AllBy(log, now)
    && Pruned(s.windows[i].events, log, Cutoff(resetAll, w, now))
  }

  lemma {:induction false} StepTracks(s: Subject, op: Op, i: nat, resetAll: Schedule, w: Window, log: seq<Event>)
    requires Tracks(s, i, resetAll, w, log, op.at)
    ensures Tracks(Apply(s, op), i, resetAll, w, log + Contribution(w, op), op.at)
  {
    var events, cutoff := s.windows[i].events, Cutoff(resetAll, w, op.at);
    ApplyOnWindow(s, op, i);
    assert Contribution(s.windows[i], op) == Contribution(w, op);
    SuffixIsSorted(events, log, cutoff);
    RollIsOneDrop(resetAll, s.windows[i], op.at);
    DropKeepsPruned(events, log, cutoff, cutoff);
    AppendInOrder(log, Contribution(w, op), op.at);
    AppendKeepsPruned(DropBefore(events, cutoff), log, cutoff, Contribution(w, op));
  }

  lemma {:induction false} RunTracks(s: Subject, ops: seq<Op>, now: int, i: nat)
    requires i < |s.windows| && Sorted(s.windows[i].events)
    requires Chronological(ops) && EndsBy(ops, now)
    requires AllBy(s.windows[i].events, if ops == [] then now else ops[0].at)
    ensures Tracks(Run(s, ops), i, s.resetAll, s.windows[i], Log(s.windows[i], ops), now)
  {
    if ops != [] {
      var n := |ops| - 1;
      RunTracks(s, ops[..n], ops[n].at, i);
      StepTracks(Run(s, ops[..n]), ops[n], i, s.resetAll, s.windows[i], Log(s.windows[i], ops[..n]));
      CutoffsAreMonotone(s.resetAll, s.windows[i], ops[n].at, now);
    }
  }

  /** Main result: after any chronological run, what a window holds at `now` is the complete
      log filtered to the window's current span. */
  lemma {:induction false} PruningRefinesTheLog(s: Subject, ops: seq<Op>, now: int, i: nat)
    requires i < |s.windows| && Sorted(s.windows[i].events)
    requires Chronological(ops) && EndsBy(ops, now)
    requires AllBy(s.windows[i].events, if ops == [] then now else ops[0].at)
    ensures Run(s, ops).resetAll == s.resetAll
    ensures Rollover(Run(s, ops), now).windows[i].events ==
            Since(Log(s.windows[i], ops), Cutoff(s.resetAll, s.windows[i], now))
    ensures Sorted(Rollover(Run(s, ops), now).windows[i].events)
  {
    RunTracks(s, ops, now, i);
    TrackedView(Run(s, ops), i, s.resetAll, s.windows[i], Log(s.windows[i], ops), now);
  }

  /** What a tracked window holds once it is rolled over. */
  lemma {:induction false} TrackedView(r: Subject, i: nat, resetAll: Schedule, w: Window, log: seq<Event>, now: int)
    requires Tracks(r, i, resetAll, w, log, now)
    ensures Rollover(r, now).windows[i].events == Since(log, Cutoff(resetAll, w, now))
    ensures Sorted(Rollover(r, now).windows[i].events)
  {
    var held := r.windows[i];
    RolledView(resetAll, held, log, now, Cutoff(resetAll, w, now));
    assert Rollover(r, now).windows[i] == RollWindow(resetAll, held, now);
  }

  lemma {:induction false} RolledView(resetAll: Schedule, held: Window, log: seq<Event>, now: int, cutoff: int)
    requires Sorted(log) && Pruned(held.events, log, cutoff) && cutoff == Cutoff(resetAll, held, now)
    ensures RollEvents(resetAll, held, now) == Since(log, cutoff)
    ensures Sorted(Since(log, cutoff))
  {
    SuffixIsSorted(held.events, log, cutoff);
    RollIsOneDrop(resetAll, held, now);
    SinceOfPruned(held.events, log, cutoff);
  }

  // ----- many subjects -----

  datatype Call = Call(subject: string, op: Op)

  /** A run of the whole tracker; calls on unknown subjects change nothing. */
  function RunAll(subjects: map<string, Subject>, calls: seq<Call>): (r: map<string, Subject>)
    ensures r.Keys == subjects.Keys
  {
    if calls == [] then subjects
    else
      var before, call := RunAll(subjects, calls[..|calls| - 1]), calls[|calls| - 1];
      if call.subject in before then before[call.subject := Apply(before[call.subject], call.op)] else before
  }

  function CallsOn(calls: seq<Call>, name: string): seq<Op> {
    if calls == [] then []
    else CallsOn(calls[..|calls| - 1], name) + if calls[|calls| - 1].subject == name then [calls[|calls| - 1].op] else []
  }

  /** Subjects do not interfere: in a run of the whole tracker each one runs on its own calls. */
  lemma {:induction false} SubjectsAreIndependent(subjects: map<string, Subject>, calls: seq<Call>, name: string)
    requires name in subjects
    ensures RunAll(subjects, calls)[name] == Run(subjects[name], CallsOn(calls, name))
  {
    if calls != [] {
      var n := |calls| - 1;
      SubjectsAreIndependent(subjects, calls[..n], name);
      var own := CallsOn(calls[..n], name);
      assert (own + [calls[n].op])[..|own|] == own;
      assert own + [] == own;
    }
  }
}
