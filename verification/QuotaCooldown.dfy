/**
 Cooldown and probing over whole runs. After a provider's 429 an outbound is denied for its probe interval; then one
 attempt is let through as a probe and the others are denied until its outcome is known; once the cooldown is
 over, or a success ended it, the windows alone decide.
 */
module QuotaCooldown {
  import opened Common
  import opened Schedules
  import opened QuotaModel
  import opened QuotaPruning
  import opened QuotaRetry

  /** A 429 without a success since: when it came, and the attempts made after it. */
  datatype Outage = Outage(since: int, attempts: seq<int>)

  /** The outage a run is in, read off the one it starts in, if any, and its calls. */
  function OutageOf(first: Option<Outage>, ops: seq<Op>): Option<Outage> {
    if ops == [] then first
    else
      var before := OutageOf(first, ops[..|ops| - 1]);
      match ops[|ops| - 1]
      case Exceed(at) => Some(Outage(at, []))
      case Succeed(_, _) => None
      case Admit(at, allowProbe) =>
        if allowProbe && before.Some? then Some(before.value.(attempts := before.value.attempts + [at])) else before
      case Use(_, _) => before
  }

  /** An attempt was made when a probe was due: it is the probe. */
  predicate Probed(o: Outage, probeInterval: int) {
    exists i :: 0 <= i < |o.attempts| && o.attempts[i] >= o.since + probeInterval
  }

  /** No outage ends or probes at the instant that stands for "not set". */
  predicate RealOutages(s: Subject, ops: seq<Op>) {
    forall i | 0 <= i < |ops| && ops[i].Exceed? ::
      ops[i].at + s.cooldown != ZERO_TIME && ops[i].at + s.probeInterval != ZERO_TIME
  }

  predicate Untroubled(s: Subject) {
    s.cooldownUntil == ZERO_TIME && s.nextProbeAt == ZERO_TIME && !s.probeInFlight
  }

  predicate Troubled(s: Subject, o: Outage) {
    && s.cooldownUntil == o.since + s.cooldown && s.nextProbeAt == o.since + s.probeInterval
    && s.cooldownUntil != ZERO_TIME && s.nextProbeAt != ZERO_TIME
    && (s.probeInFlight <==> Probed(o, s.probeInterval))
  }

  /** A subject as it is configured, or as an import or another run leaves it. */
  predicate StartsIn(s: Subject, first: Option<Outage>) {
    if first.None? then Untroubled(s) else Troubled(s, first.value)
  }

  /** The state keeps the outage until a call comes after its end. */
  predicate Keeps(s: Subject, outage: Option<Outage>, last: int) {
    if outage.None? then Untroubled(s)
    else Troubled(s, outage.value) || (Untroubled(s) && last >= outage.value.since + s.cooldown)
  }

  lemma {:induction false} StepKeeps(s: Subject, outage: Option<Outage>, last: int, op: Op)
    requires Keeps(s, outage, last) && last <= op.at
    requires op.Exceed? ==> op.at + s.cooldown != ZERO_TIME && op.at + s.probeInterval != ZERO_TIME
    ensures var next := match op
                        case Exceed(at) => Some(Outage(at, []))
                        case Succeed(_, _) => None
                        case Admit(at, allowProbe) =>
                          if allowProbe && outage.Some? then Some(outage.value.(attempts := outage.value.attempts + [at])) else outage
                        case Use(_, _) => outage;
            Keeps(Apply(s, op), next, op.at)
    ensures Apply(s, op).cooldown == s.cooldown && Apply(s, op).probeInterval == s.probeInterval
  {
    if op.Admit? && op.allowProbe && outage.Some? {
      AttemptAdded(outage.value, op.at, s.probeInterval);
    }
  }

  lemma {:induction false} AttemptAdded(o: Outage, at: int, probeInterval: int)
    ensures Probed(o.(attempts := o.attempts + [at]), probeInterval) <==> Probed(o, probeInterval) || at >= o.since + probeInterval
  {
    var grown := o.(attempts := o.attempts + [at]);
    assert grown.attempts[|o.attempts|] == at;
    assert forall i | 0 <= i < |o.attempts| :: grown.attempts[i] == o.attempts[i];
  }

  lemma {:induction false} RunKeeps(s: Subject, first: Option<Outage>, ops: seq<Op>, now: int)
    requires StartsIn(s, first) && Chronological(ops) && EndsBy(ops, now) && RealOutages(s, ops)
    ensures Keeps(Run(s, ops), OutageOf(first, ops), now)
    ensures Run(s, ops).cooldown == s.cooldown && Run(s, ops).probeInterval == s.probeInterval
  {
    if ops != [] {
      var n := |ops| - 1;
      RunKeeps(s, first, ops[..n], ops[n].at);
      StepKeeps(Run(s, ops[..n]), OutageOf(first, ops[..n]), ops[n].at, ops[n]);
    }
  }

  lemma {:induction false} DecisionInOutage(r: Subject, outage: Option<Outage>, now: int)
    requires Keeps(r, outage, now)
    ensures var d := Decide(r, true, now).1;
            if outage.Some? && now < outage.value.since + r.cooldown then
              if now < outage.value.since + r.probeInterval || Probed(outage.value, r.probeInterval)
              then d == Decision(false, "cooldown", false, outage.value.since + r.probeInterval, [])
              else d == Decision(true, "", true, ZERO_TIME, [])
            else !d.probe && d.reason != "cooldown" && !InCooldown(Rollover(r, now), now)
  {
  }

  /** Main result, for every run of an outbound: while an outage lasts, attempts are denied until the probe interval
      is over, the next one is admitted as a probe, and all others are denied; otherwise the
      windows alone decide. */
  lemma {:induction false} OutagesAreProbedOnce(s: Subject, first: Option<Outage>, ops: seq<Op>, now: int)
    requires StartsIn(s, first) && Chronological(ops) && EndsBy(ops, now) && RealOutages(s, ops)
    ensures var d, outage := Decide(Run(s, ops), true, now).1, OutageOf(first, ops);
            if outage.Some? && now < outage.value.since + s.cooldown then
              if now < outage.value.since + s.probeInterval || Probed(outage.value, s.probeInterval)
              then d == Decision(false, "cooldown", false, outage.value.since + s.probeInterval, [])
              else d == Decision(true, "", true, ZERO_TIME, [])
            else
              && !d.probe && d.reason != "cooldown"
              && (d.allowed <==> forall i | 0 <= i < |s.windows| :: !LimitsAt(Run(s, ops).resetAll, Run(s, ops).windows[i], now))
  {
    var outage := OutageOf(first, ops);
    RunKeeps(s, first, ops, now);
    DecisionInOutage(Run(s, ops), outage, now);
    if !(outage.Some? && now < outage.value.since + s.cooldown) {
      AdmitsOutsideOutage(Run(s, ops), now);
    }
  }

  lemma {:induction false} AdmitsOutsideOutage(r: Subject, now: int)
    requires !InCooldown(Rollover(r, now), now)
    ensures Decide(r, true, now).1.allowed <==> forall i | 0 <= i < |r.windows| :: !LimitsAt(r.resetAll, r.windows[i], now)
  {
    AdmitsIffNoneLimits(r, true, now);
  }

  // ----- what this means for the attempts of one outage -----

  /** A stretch of calls in which no outcome is recorded. */
  predicate NoOutcome(ops: seq<Op>) {
    forall i | 0 <= i < |ops| :: !ops[i].Exceed? && !ops[i].Succeed?
  }

  lemma {:induction false} OutageGoesOn(first: Option<Outage>, before: seq<Op>, at: int, after: seq<Op>)
    requires NoOutcome(after)
    ensures var outage := OutageOf(first, before + [Exceed(at)] + after);
            && outage.Some? && outage.value.since == at
            && (forall t :: t in outage.value.attempts <==> exists i :: 0 <= i < |after| && after[i] == Admit(t, true))
  {
    var start := before + [Exceed(at)];
    if after == [] {
      assert start + after == start && start[..|start| - 1] == before;
    } else {
      var n := |after| - 1;
      OutageGoesOn(first, before, at, after[..n]);
      assert (start + after)[..|start + after| - 1] == start + after[..n];
      forall t
        ensures t in OutageOf(first, start + after).value.attempts <==> exists i :: 0 <= i < |after| && after[i] == Admit(t, true)
      {
        AttemptsOf(after, t);
      }
    }
  }

  lemma {:induction false} AttemptsOf(after: seq<Op>, t: int)
    requires after != []
    ensures var n := |after| - 1;
            (exists i :: 0 <= i < |after| && after[i] == Admit(t, true)) <==>
            (exists i :: 0 <= i < n && after[..n][i] == Admit(t, true)) || after[n] == Admit(t, true)
  {
    var n := |after| - 1;
    assert forall i | 0 <= i < n :: after[..n][i] == after[i];
  }

  /** Main result in the terms of one outage: after a 429 at `at`, and whatever attempts follow without an outcome,
      every attempt before the probe is due is denied; from then until the cooldown ends an attempt is admitted, as
      a probe, exactly if no earlier one was made in that time; from the end of the cooldown on no attempt is
      denied for it. */
  lemma {:induction false} ExactlyOneProbe(s: Subject, first: Option<Outage>, before: seq<Op>, at: int, after: seq<Op>, now: int)
    requires NoOutcome(after) && StartsIn(s, first)
    requires var ops := before + [Exceed(at)] + after;
             Chronological(ops) && EndsBy(ops, now) && RealOutages(s, ops)
    ensures var d := Decide(Run(s, before + [Exceed(at)] + after), true, now).1;
            && (now < at + s.cooldown && now < at + s.probeInterval ==> !d.allowed && d.reason == "cooldown")
            && (at + s.probeInterval <= now < at + s.cooldown ==>
                  && d.probe == d.allowed
                  && (d.allowed <==> forall i | 0 <= i < |after| :: !(after[i].Admit? && after[i].allowProbe && after[i].at >= at + s.probeInterval)))
            && (now >= at + s.cooldown ==> !d.probe && d.reason != "cooldown")
  {
    var ops := before + [Exceed(at)] + after;
    OutageGoesOn(first, before, at, after);
    OutagesAreProbedOnce(s, first, ops, now);
    ProbedIffAttempted(OutageOf(first, ops).value, after, s.probeInterval);
  }

  lemma {:induction false} ProbedIffAttempted(o: Outage, after: seq<Op>, probeInterval: int)
    requires forall t :: t in o.attempts <==> exists i :: 0 <= i < |after| && after[i] == Admit(t, true)
    ensures Probed(o, probeInterval) <==>
            exists i :: 0 <= i < |after| && after[i].Admit? && after[i].allowProbe && after[i].at >= o.since + probeInterval
  {
    if Probed(o, probeInterval) {
      var k :| 0 <= k < |o.attempts| && o.attempts[k] >= o.since + probeInterval;
      assert o.attempts[k] in o.attempts;
      var i :| 0 <= i < |after| && after[i] == Admit(o.attempts[k], true);
      assert after[i].at >= o.since + probeInterval;
    }
    if i :| 0 <= i < |after| && after[i].Admit? && after[i].allowProbe && after[i].at >= o.since + probeInterval {
      assert after[i] == Admit(after[i].at, true);
      assert after[i].at in o.attempts;
    }
  }

  // ----- what a subject remembers -----

  function LastUse(ops: seq<Op>): Option<int> {
    if ops == [] then None
    else if ops[|ops| - 1].Use? || ops[|ops| - 1].Succeed? then Some(ops[|ops| - 1].at)
    else LastUse(ops[..|ops| - 1])
  }

  function LastRefusal(ops: seq<Op>): Option<int> {
    if ops == [] then None
    else if ops[|ops| - 1].Exceed? then Some(ops[|ops| - 1].at)
    else LastRefusal(ops[..|ops| - 1])
  }

  /** The times shown for a subject are those of its last recorded use and of its last 429. */
  lemma {:induction false} LastTimesAreRemembered(s: Subject, ops: seq<Op>)
    ensures Run(s, ops).lastSuccessAt == if LastUse(ops).Some? then LastUse(ops).value else s.lastSuccessAt
    ensures Run(s, ops).lastQuotaExceededAt == if LastRefusal(ops).Some? then LastRefusal(ops).value else s.lastQuotaExceededAt
  {
    if ops != [] {
      LastTimesAreRemembered(s, ops[..|ops| - 1]);
    }
  }
}
