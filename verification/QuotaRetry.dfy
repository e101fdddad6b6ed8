/**
 Retry times are exact: without new usage, a limited window admits again at the instant
 it names and not one nanosecond earlier, and so does the whole subject.
 */
module QuotaRetry {
  import opened Schedules
  import opened QuotaModel
  import opened QuotaPruning

  predicate NonNegative(events: seq<Event>) {
    forall i | 0 <= i < |events| :: events[i].requests >= 0 && events[i].tokens >= 0 && events[i].cost >= 0
  }

  /** A window as recording leaves it: in order, none from the future, no negative usage,
      and a fixed window has a schedule with tiles. */
  predicate Proper(w: Window, now: int) {
    && Sorted(w.events)
    && AllBy(w.events, now)
    && NonNegative(w.events)
    && (w.reset == "fixed" ==> Tiles(w.fixed))
  }

  /** Whether the window would limit at `t` if nothing were recorded until then. */
  predicate LimitsAt(resetAll: Schedule, w: Window, t: int) {
    Limited(w, Total(RollEvents(resetAll, w, t)))
  }

  predicate Current(w: Window, now: int) {
    DropBefore(w.events, if w.reset == "fixed" then Bounds(w.fixed, now).0 else now - w.duration + 1) == w.events
  }

  // ----- usage of a prefix and of the rest -----

  function Joined(u: Usage, v: Usage): Usage {
    Usage(u.requests + v.requests, u.tokens + v.tokens, u.cost + v.cost, u.unpriced + v.unpriced)
  }

  lemma {:induction false} TotalSplits(events: seq<Event>, k: nat)
    requires k <= |events|
    ensures Total(events) == Joined(Total(events[..k]), Total(events[k..]))
  {
    if k == |events| {
      assert events[..k] == events;
    } else {
      var n := |events| - 1;
      TotalSplits(events[..n], k);
      assert events[..n][..k] == events[..k];
      assert events[..n][k..] == events[k..][..n - k];
      assert events[k..][n - k] == events[n];
    }
  }

  lemma {:induction false} TotalNonNegative(events: seq<Event>)
    requires NonNegative(events)
    ensures Total(events).requests >= 0 && Total(events).tokens >= 0 && Total(events).cost >= 0
  {
    if events != [] {
      TotalNonNegative(events[..|events| - 1]);
    }
  }

  /** Losing a prefix never makes an unlimited window limited. */
  lemma {:induction false} SuffixLimitsLess(w: Window, events: seq<Event>, k: nat)
    requires NonNegative(events) && k <= |events|
    requires Limited(w, Total(events[k..]))
    ensures Limited(w, Total(events))
  {
    TotalSplits(events, k);
    TotalNonNegative(events[..k]);
  }

  // ----- one rolling window -----

  lemma {:induction false} ReleaseIndexIsFirst(events: seq<Event>, need: Usage, i: nat)
    requires i < |events| && Covers(Total(events), need)
    ensures ReleaseIndex(events, need, i) >= i
    ensures forall j | i < j <= ReleaseIndex(events, need, i) + 1 ::
              Covers(Total(events[..j]), need) <==> j == ReleaseIndex(events, need, i) + 1
    decreases |events| - i
  {
    if i == |events| - 1 {
      assert events[..i + 1] == events;
    } else if !Covers(Total(events[..i + 1]), need) {
      ReleaseIndexIsFirst(events, need, i + 1);
    }
  }

  /** What is removed covers the need exactly when the rest is below every limit. */
  lemma {:induction false} CoversIffRestUnlimited(w: Window, events: seq<Event>, k: nat)
    requires NonNegative(events) && k <= |events|
    ensures Covers(Total(events[..k]), Need(w, Total(events))) <==> !Limited(w, Total(events[k..]))
  {
    TotalSplits(events, k);
    TotalNonNegative(events[..k]);
    TotalNonNegative(events[k..]);
  }

  /** The loop over events always returns before it runs out: the last fallback is dead code. */
  lemma {:induction false} ReleaseAlwaysFound(w: Window)
    requires NonNegative(w.events) && Limited(w, Total(w.events))
    ensures var r := ReleaseIndex(w.events, Need(w, Total(w.events)), 0);
            Covers(Total(w.events[..r + 1]), Need(w, Total(w.events)))
  {
    assert w.events[..|w.events|] == w.events && w.events[|w.events|..] == [];
    CoversIffRestUnlimited(w, w.events, |w.events|);
    ReleaseIndexIsFirst(w.events, Need(w, Total(w.events)), 0);
  }

  lemma {:induction false} RollingRetryIsExact(w: Window, now: int, t: int)
    requires Proper(w, now) && w.reset != "fixed" && t >= now
    requires Limited(w, Total(w.events))
    ensures Limited(w, Total(DropBefore(w.events, t - w.duration + 1))) <==> t < RetryAfter(w, now)
  {
    var k := DropBeforeSplits(w.events, t - w.duration + 1);
    ReleaseSplits(w, k);
    CoversIffRestUnlimited(w, w.events, k);
  }

  /** A dropped prefix covers what must leave exactly if it reaches past the release index. */
  lemma {:induction false} ReleaseSplits(w: Window, k: nat)
    requires NonNegative(w.events) && Limited(w, Total(w.events)) && k <= |w.events|
    ensures Covers(Total(w.events[..k]), Need(w, Total(w.events))) <==> k > ReleaseIndex(w.events, Need(w, Total(w.events)), 0)
  {
    var events, need := w.events, Need(w, Total(w.events));
    assert events[..|events|] == events && events[|events|..] == [];
    CoversIffRestUnlimited(w, events, |events|);
    ReleaseIndexIsFirst(events, need, 0);
    var r := ReleaseIndex(events, need, 0);
    if k > r {
      assert events[..k][..r + 1] == events[..r + 1];
      TotalSplits(events[..k], r + 1);
      TotalNonNegative(events[..k][r + 1..]);
    } else if k == 0 {
      assert events[k..] == events;
      CoversIffRestUnlimited(w, events, 0);
    }
  }

  lemma {:induction false} FixedRetryIsExact(w: Window, now: int, t: int)
    requires Proper(w, now) && w.reset == "fixed" && t >= now
    requires Limited(w, Total(w.events)) && Current(w, now)
    ensures Limited(w, Total(DropBefore(w.events, Bounds(w.fixed, t).0))) <==> t < RetryAfter(w, now)
  {
    BoundsAreTheTile(w.fixed, now);
    TilesPartitionTime(w.fixed, now, t);
    if t >= RetryAfter(w, now) {
      StartsAreMonotone(w.fixed, Bounds(w.fixed, now).1, t);
      var k := DropBeforeSplits(w.events, Bounds(w.fixed, t).0);
      assert k == |w.events|;
    }
  }

  /** Main result for one window: from `now` on it limits exactly until its retry time. */
  lemma {:induction false} WindowRetryIsExact(resetAll: Schedule, w: Window, now: int, t: int)
    requires resetAll.period == ""
    requires Proper(w, now) && Current(w, now) && t >= now
    requires Limited(w, Total(w.events))
    ensures LimitsAt(resetAll, w, t) <==> t < RetryAfter(w, now)
  {
    if w.reset == "fixed" {
      FixedRetryIsExact(w, now, t);
    } else {
      RollingRetryIsExact(w, now, t);
    }
  }

  /** A fixed window whose schedule has no tiles never stops limiting, though it names a retry time:
      having tiles is exactly what makes the retry time of a fixed window right. */
  lemma {:induction false} FixedRetryNeedsTiles(resetAll: Schedule, w: Window, now: int)
    requires resetAll.period == "" && w.reset == "fixed" && now >= ZERO_TIME
    requires Sorted(w.events) && AllBy(w.events, now) && NonNegative(w.events)
    requires Limited(w, Total(w.events)) && Current(w, now)
    ensures Tiles(w.fixed) <==> (forall t | t >= now :: LimitsAt(resetAll, w, t) <==> t < RetryAfter(w, now))
  {
    if Tiles(w.fixed) {
      forall t | t >= now
        ensures LimitsAt(resetAll, w, t) <==> t < RetryAfter(w, now)
      {
        WindowRetryIsExact(resetAll, w, now, t);
      }
    } else {
      assert LimitsAt(resetAll, w, now);
    }
  }

  // ----- the subject -----

  lemma {:induction false} BlockingMembers(windows: seq<Window>, now: int)
    ensures forall b | b in Blocking(windows, now) ::
              exists i :: 0 <= i < |windows| && Limited(windows[i], Total(windows[i].events)) && b == BlockedBy(windows[i], now)
    ensures forall i | 0 <= i < |windows| && Limited(windows[i], Total(windows[i].events)) ::
              BlockedBy(windows[i], now) in Blocking(windows, now)
  {
    if windows != [] {
      var n := |windows| - 1;
      BlockingMembers(windows[..n], now);
      forall b | b in Blocking(windows, now)
        ensures exists i :: 0 <= i < |windows| && Limited(windows[i], Total(windows[i].events)) && b == BlockedBy(windows[i], now)
      {
        if b in Blocking(windows[..n], now) {
          var i :| 0 <= i < n && Limited(windows[..n][i], Total(windows[..n][i].events)) && b == BlockedBy(windows[..n][i], now);
          assert windows[..n][i] == windows[i];
        } else {
          assert b == BlockedBy(windows[n], now);
        }
      }
      forall i | 0 <= i < |windows| && Limited(windows[i], Total(windows[i].events))
        ensures BlockedBy(windows[i], now) in Blocking(windows, now)
      {
        if i < n { assert windows[..n][i] == windows[i]; }
      }
    }
  }

  /** A window that limits and names `at` as its retry time. */
  predicate Names(w: Window, now: int, at: int) {
    Limited(w, Total(w.events)) && RetryAfter(w, now) == at
  }

  /** The retry times of the reported windows are those of the limited ones. */
  lemma {:induction false} BlockingRetries(windows: seq<Window>, now: int)
    ensures forall b | b in Blocking(windows, now) :: exists i :: 0 <= i < |windows| && Names(windows[i], now, b.retryAfter)
    ensures forall i, at | 0 <= i < |windows| && Names(windows[i], now, at) ::
              exists b :: b in Blocking(windows, now) && b.retryAfter == at
  {
    BlockingMembers(windows, now);
    forall b | b in Blocking(windows, now)
      ensures exists i :: 0 <= i < |windows| && Names(windows[i], now, b.retryAfter)
    {
      var i :| 0 <= i < |windows| && Limited(windows[i], Total(windows[i].events)) && b == BlockedBy(windows[i], now);
      assert Names(windows[i], now, b.retryAfter);
    }
    forall i, at | 0 <= i < |windows| && Names(windows[i], now, at)
      ensures exists b :: b in Blocking(windows, now) && b.retryAfter == at
    {
      assert BlockedBy(windows[i], now).retryAfter == at;
    }
  }

  lemma {:induction false} LatestRetryIsMax(blocking: seq<BlockingWindow>)
    requires blocking != []
    requires forall b | b in blocking :: b.retryAfter > ZERO_TIME
    ensures forall b | b in blocking :: b.retryAfter <= LatestRetry(blocking)
    ensures exists b :: b in blocking && b.retryAfter == LatestRetry(blocking)
  {
    var n := |blocking| - 1;
    var last := blocking[n];
    if n > 0 {
      LatestRetryIsMax(blocking[..n]);
      var b :| b in blocking[..n] && b.retryAfter == LatestRetry(blocking[..n]);
      assert b in blocking;
    }
    assert last in blocking;
  }

  /** Rolling over with a reset_all schedule leaves a suffix of what rolling over without it leaves. */
  lemma {:induction false} ResetAllLimitsLess(resetAll: Schedule, w: Window, now: int, t: int)
    requires Proper(w, now) && LimitsAt(resetAll, w, t)
    ensures LimitsAt(resetAll.(period := ""), w, t)
  {
    var plain := resetAll.(period := "");
    RollIsOneDrop(resetAll, w, t);
    RollIsOneDrop(plain, w, t);
    DropTwice(w.events, Cutoff(plain, w, t), Cutoff(resetAll, w, t));
    var j := DropBeforeSplits(w.events, Cutoff(plain, w, t));
    var kept := w.events[j..];
    assert forall i | 0 <= i < |kept| :: kept[i] == w.events[j + i];
    var k := DropBeforeSplits(kept, Cutoff(resetAll, w, t));
    SuffixLimitsLess(w, kept, k);
  }

  ghost predicate ProperSubject(s: Subject, now: int) {
    now >= ZERO_TIME && forall i | 0 <= i < |s.windows| :: Proper(s.windows[i], now)
  }

  /** The announced retry time is the latest of the limited windows' retry times, and lies ahead. */
  lemma {:induction false} RetryOfBlocked(plain: Schedule, windows: seq<Window>, now: int)
    requires plain.period == "" && now >= ZERO_TIME
    requires forall i | 0 <= i < |windows| :: Proper(windows[i], now) && Current(windows[i], now)
    requires Blocking(windows, now) != []
    ensures forall i, at | 0 <= i < |windows| && Names(windows[i], now, at) :: at <= LatestRetry(Blocking(windows, now))
    ensures exists i :: 0 <= i < |windows| && Names(windows[i], now, LatestRetry(Blocking(windows, now)))
  {
    BlockingRetries(windows, now);
    RetriesLieAhead(plain, windows, now, Blocking(windows, now));
    LatestOf(windows, now, Blocking(windows, now));
  }

  lemma {:induction false} RetriesLieAhead(plain: Schedule, windows: seq<Window>, now: int, blocking: seq<BlockingWindow>)
    requires plain.period == ""
    requires forall i | 0 <= i < |windows| :: Proper(windows[i], now) && Current(windows[i], now)
    requires forall b | b in blocking :: exists i :: 0 <= i < |windows| && Names(windows[i], now, b.retryAfter)
    ensures forall b | b in blocking :: b.retryAfter > now
  {
    forall b | b in blocking
      ensures b.retryAfter > now
    {
      var i :| 0 <= i < |windows| && Names(windows[i], now, b.retryAfter);
      RetryLiesAhead(plain, windows[i], now);
    }
  }

  lemma {:induction false} RetryLiesAhead(plain: Schedule, w: Window, now: int)
    requires plain.period == "" && Proper(w, now) && Current(w, now) && Limited(w, Total(w.events))
    ensures RetryAfter(w, now) > now
  {
    WindowRetryIsExact(plain, w, now, now);
    RolledAgain(plain, w, now);
  }

  lemma {:induction false} LatestOf(windows: seq<Window>, now: int, blocking: seq<BlockingWindow>)
    requires blocking != [] && now >= ZERO_TIME
    requires forall b | b in blocking :: b.retryAfter > now
    requires forall b | b in blocking :: exists i :: 0 <= i < |windows| && Names(windows[i], now, b.retryAfter)
    requires forall i, at | 0 <= i < |windows| && Names(windows[i], now, at) :: exists b :: b in blocking && b.retryAfter == at
    ensures forall i, at | 0 <= i < |windows| && Names(windows[i], now, at) :: at <= LatestRetry(blocking)
    ensures exists i :: 0 <= i < |windows| && Names(windows[i], now, LatestRetry(blocking))
  {
    LatestRetryIsMax(blocking);
    var b :| b in blocking && b.retryAfter == LatestRetry(blocking);
  }

  /** Outside a cooldown, a subject admits exactly when none of its windows limits. */
  lemma {:induction false} AdmitsIffNoneLimits(s: Subject, allowProbe: bool, t: int)
    requires !(allowProbe && InCooldown(s, t))
    ensures Decide(s, allowProbe, t).1.allowed <==>
            forall i | 0 <= i < |s.windows| :: !LimitsAt(s.resetAll, s.windows[i], t)
  {
    var rolled := Rollover(s, t);
    BlockingMembers(rolled.windows, t);
    forall i | 0 <= i < |s.windows|
      ensures LimitsAt(s.resetAll, s.windows[i], t) <==> Limited(rolled.windows[i], Total(rolled.windows[i].events))
    {
      assert rolled.windows[i] == RollWindow(s.resetAll, s.windows[i], t);
    }
    if Blocking(rolled.windows, t) != [] {
      assert Blocking(rolled.windows, t)[0] in Blocking(rolled.windows, t);
    }
  }

  lemma {:induction false} RolledSubject(s: Subject, now: int)
    requires ProperSubject(s, now)
    ensures var r := Rollover(s, now);
            forall i | 0 <= i < |r.windows| :: Proper(r.windows[i], now) && Current(r.windows[i], now)
  {
    forall i | 0 <= i < |s.windows|
      ensures Proper(Rollover(s, now).windows[i], now) && Current(Rollover(s, now).windows[i], now)
    {
      var w := s.windows[i];
      RollIsOneDrop(s.resetAll, w, now);
      var k := DropBeforeSplits(w.events, Cutoff(s.resetAll, w, now));
      var rolled := RollWindow(s.resetAll, w, now);
      assert forall j | 0 <= j < |rolled.events| :: rolled.events[j] == w.events[k + j];
      var none := DropBeforeSplits(rolled.events, if w.reset == "fixed" then Bounds(w.fixed, now).0 else now - w.duration + 1);
      assert none == 0;
    }
  }

  /** Main result for a subject: once denied for usage at `now`, it is admitted at every later
      time from the announced retry time on, and, without reset_all, at no time before. */
  lemma {:induction false} SubjectRetryIsExact(s: Subject, allowProbe: bool, now: int, t: int)
    requires ProperSubject(s, now) && t >= now
    requires Decide(s, allowProbe, now).1.reason == "limited"
    ensures var (next, d) := Decide(s, allowProbe, now);
            && (t >= d.retryAfter ==> Decide(next, allowProbe, t).1.allowed)
            && (s.resetAll.period == "" ==> (Decide(next, allowProbe, t).1.allowed <==> t >= d.retryAfter))
  {
    var (next, d) := Decide(s, allowProbe, now);
    LimitedDecision(s, allowProbe, now, t);
    RolledSubject(s, now);
    RetryOfBlocked(s.resetAll.(period := ""), next.windows, now);
    WindowsRelease(next.resetAll, next.windows, now, t, d.retryAfter);
    AdmitsIffNoneLimits(next, allowProbe, t);
  }

  /** A denial for usage happens outside a cooldown, which does not come back without a new 429. */
  lemma {:induction false} LimitedDecision(s: Subject, allowProbe: bool, now: int, t: int)
    requires Decide(s, allowProbe, now).1.reason == "limited" && t >= now
    ensures var (next, d) := Decide(s, allowProbe, now);
            && next == Rollover(s, now) && next.resetAll == s.resetAll
            && Blocking(next.windows, now) != [] && d.retryAfter == LatestRetry(Blocking(next.windows, now))
            && !(allowProbe && InCooldown(next, t))
  {
  }

  /** The latest retry time releases all windows and, without reset_all, no earlier time does. */
  lemma {:induction false} WindowsRelease(resetAll: Schedule, windows: seq<Window>, now: int, t: int, latest: int)
    requires forall i | 0 <= i < |windows| :: Proper(windows[i], now) && Current(windows[i], now)
    requires forall i, at | 0 <= i < |windows| && Names(windows[i], now, at) :: at <= latest
    requires exists i :: 0 <= i < |windows| && Names(windows[i], now, latest)
    requires t >= now
    ensures t >= latest ==> forall i | 0 <= i < |windows| :: !LimitsAt(resetAll, windows[i], t)
    ensures t < latest && resetAll.period == "" ==> exists i :: 0 <= i < |windows| && LimitsAt(resetAll, windows[i], t)
  {
    if t >= latest {
      forall i | 0 <= i < |windows|
        ensures !LimitsAt(resetAll, windows[i], t)
      {
        assert Limited(windows[i], Total(windows[i].events)) ==> Names(windows[i], now, RetryAfter(windows[i], now));
        NoLaterLimit(resetAll, windows[i], now, t);
      }
    } else if resetAll.period == "" {
      var i :| 0 <= i < |windows| && Names(windows[i], now, latest);
      WindowRetryIsExact(resetAll, windows[i], now, t);
    }
  }

  lemma {:induction false} RolledAgain(plain: Schedule, w: Window, now: int)
    requires plain.period == "" && Current(w, now)
    ensures LimitsAt(plain, w, now) <==> Limited(w, Total(w.events))
  {
  }

  /** A window that is past its retry time, or was not limiting, does not limit at `t`. */
  lemma {:induction false} NoLaterLimit(resetAll: Schedule, w: Window, now: int, t: int)
    requires Proper(w, now) && Current(w, now) && t >= now
    requires Limited(w, Total(w.events)) ==> t >= RetryAfter(w, now)
    ensures !LimitsAt(resetAll, w, t)
  {
    if LimitsAt(resetAll, w, t) {
      ResetAllLimitsLess(resetAll, w, now, t);
      var plain := resetAll.(period := "");
      var k := DropBeforeSplits(w.events, Cutoff(plain, w, t));
      SuffixLimitsLess(w, w.events, k);
      WindowRetryIsExact(plain, w, now, t);
    }
  }
}
