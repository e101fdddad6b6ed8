/**
 The quota tracker's data and the effect of each of its operations on one subject
 (a client or an outbound). `QuotaTracker` holds the imperative tracker, which is proved
 to perform exactly these effects; the theorems about runs are stated on them.
 */
module QuotaModel {
  import opened Schedules

  datatype Event = Event(at: int, requests: int, tokens: int, cost: int, unpriced: int)

  datatype Usage = Usage(requests: int, tokens: int, cost: int, unpriced: int)

  datatype Window = Window(
    name: string,
    typeName: string,
    reset: string,
    duration: int,
    fixed: Schedule,
    maxRequests: int,
    maxTokens: int,
    maxCost: int,
    events: seq<Event>)

  datatype Subject = Subject(
    name: string,
    inbound: string,
    windows: seq<Window>,
    cooldown: int,
    probeInterval: int,
    resetAll: Schedule,
    cooldownUntil: int,
    nextProbeAt: int,
    lastQuotaExceededAt: int,
    lastSuccessAt: int,
    probeInFlight: bool)

  /** A limited window as a decision reports it. The amounts are counts, or micro-dollars that the
      source prints as dollars. */
  datatype BlockingWindow = BlockingWindow(
    window: string, typeName: string, limit: int, used: int, unit: string, retryAfter: int)

  datatype Decision = Decision(
    allowed: bool,
    reason: string,
    probe: bool,
    retryAfter: int,
    blocking: seq<BlockingWindow>)

  const ALLOWED := Decision(true, "", false, ZERO_TIME, [])

  // ----- usage -----

  function Plus(u: Usage, e: Event): Usage {
    Usage(u.requests + e.requests, u.tokens + e.tokens, u.cost + e.cost, u.unpriced + e.unpriced)
  }

  function Total(events: seq<Event>): Usage {
    if events == [] then Usage(0, 0, 0, 0)
    else Plus(Total(events[..|events| - 1]), events[|events| - 1])
  }

  predicate Limited(w: Window, u: Usage) {
    || (w.maxRequests > 0 && u.requests >= w.maxRequests)
    || (w.maxTokens > 0 && u.tokens >= w.maxTokens)
    || (w.maxCost > 0 && u.cost >= w.maxCost)
  }

  /** How much of each limited quantity must leave the window before it admits again. */
  function Need(w: Window, u: Usage): Usage {
    Usage(
      if w.maxRequests > 0 && u.requests >= w.maxRequests then u.requests - w.maxRequests + 1 else 0,
      if w.maxTokens > 0 && u.tokens >= w.maxTokens then u.tokens - w.maxTokens + 1 else 0,
      if w.maxCost > 0 && u.cost >= w.maxCost then u.cost - w.maxCost + 1 else 0,
      0)
  }

  predicate Covers(removed: Usage, need: Usage) {
    removed.requests >= need.requests && removed.tokens >= need.tokens && removed.cost >= need.cost
  }

  /** The first index from `i` on whose prefix covers `need`; the last index if there is none. */
  function ReleaseIndex(events: seq<Event>, need: Usage, i: nat): (k: nat)
    requires i < |events|
    ensures k < |events|
    decreases |events| - i
  {
    if Covers(Total(events[..i + 1]), need) || i == |events| - 1 then i
    else ReleaseIndex(events, need, i + 1)
  }

  /** When a limited window says to retry. */
  function RetryAfter(w: Window, now: int): int
    requires Limited(w, Total(w.events))
  {
    if w.reset == "fixed" then Bounds(w.fixed, now).1
    else w.events[ReleaseIndex(w.events, Need(w, Total(w.events)), 0)].at + w.duration
  }

  // ----- rollover -----

  /** Drops the longest prefix of events before the cutoff. */
  function DropBefore(events: seq<Event>, cutoff: int): seq<Event> {
    if events != [] && events[0].at < cutoff then DropBefore(events[1..], cutoff) else events
  }

  function RollEvents(resetAll: Schedule, w: Window, now: int): seq<Event> {
    var kept := if resetAll.period != "" then DropBefore(w.events, Bounds(resetAll, now).0) else w.events;
    if w.reset == "fixed" then DropBefore(kept, Bounds(w.fixed, now).0)
    else DropBefore(kept, now - w.duration + 1)
  }

  function RollWindow(resetAll: Schedule, w: Window, now: int): Window {
    w.(events := RollEvents(resetAll, w, now))
  }

  function Rollover(s: Subject, now: int): (r: Subject)
    ensures |r.windows| == |s.windows|
  {
    var rolled := s.(windows := seq(|s.windows|, i requires 0 <= i < |s.windows| => RollWindow(s.resetAll, s.windows[i], now)));
    if s.cooldownUntil != ZERO_TIME && now >= s.cooldownUntil
    then rolled.(cooldownUntil := ZERO_TIME, nextProbeAt := ZERO_TIME, probeInFlight := false)
    else rolled
  }

  // ----- decisions -----

  predicate InCooldown(s: Subject, now: int) {
    s.cooldownUntil != ZERO_TIME && now < s.cooldownUntil
  }

  /** What a window counts: its type, limit and usage, and the unit of both. */
  function Measured(w: Window, used: Usage): (string, int, int, string) {
    match w.typeName
    case "tokens" => ("tokens", w.maxTokens, used.tokens, "tokens")
    case "cost" => ("cost", w.maxCost, used.cost, "USD")
    case _ => (if w.typeName == "" then "requests" else w.typeName, w.maxRequests, used.requests, "requests")
  }

  function BlockedBy(w: Window, now: int): BlockingWindow
    requires Limited(w, Total(w.events))
  {
    var (typeName, limit, used, unit) := Measured(w, Total(w.events));
    BlockingWindow(w.name, typeName, limit, used, unit, RetryAfter(w, now))
  }

  function Blocking(windows: seq<Window>, now: int): seq<BlockingWindow> {
    if windows == [] then []
    else
      var w := windows[|windows| - 1];
      var earlier := Blocking(windows[..|windows| - 1], now);
      if Limited(w, Total(w.events)) then earlier + [BlockedBy(w, now)] else earlier
  }

  /** The latest retry time, with the zero time standing for "none yet". */
  function LatestRetry(blocking: seq<BlockingWindow>): int {
    if blocking == [] then ZERO_TIME
    else
      var earlier := LatestRetry(blocking[..|blocking| - 1]);
      var last := blocking[|blocking| - 1].retryAfter;
      if earlier == ZERO_TIME || last > earlier then last else earlier
  }

  function Decide(s: Subject, allowProbe: bool, now: int): (r: (Subject, Decision))
    ensures |r.0.windows| == |s.windows|
  {
    var rolled := Rollover(s, now);
    if allowProbe && InCooldown(rolled, now) then
      if rolled.nextProbeAt != ZERO_TIME && now >= rolled.nextProbeAt && !rolled.probeInFlight then
        (rolled.(probeInFlight := true), ALLOWED.(probe := true))
      else
        (rolled, Decision(false, "cooldown", false, rolled.nextProbeAt, []))
    else
      var blocking := Blocking(rolled.windows, now);
      if |blocking| > 0 then (rolled, Decision(false, "limited", false, LatestRetry(blocking), blocking))
      else (rolled, ALLOWED)
  }

  // ----- recording -----

  predicate Accepts(w: Window, e: Event) {
    match w.typeName
    case "requests" => e.requests > 0
    case "tokens" => e.tokens > 0
    case "cost" => e.cost > 0 || e.unpriced > 0
    case _ => true
  }

  function AppendIfAccepted(w: Window, e: Event): Window {
    if Accepts(w, e) then w.(events := w.events + [e]) else w
  }

  function RecordUsage(s: Subject, e: Event, now: int): (r: Subject)
    ensures |r.windows| == |s.windows|
  {
    var rolled := Rollover(s, now);
    rolled.(
      windows := seq(|rolled.windows|, i requires 0 <= i < |rolled.windows| => AppendIfAccepted(rolled.windows[i], e.(at := now))),
      lastSuccessAt := now)
  }

  function RecordSuccess(s: Subject, tokens: int, now: int): (r: Subject)
    ensures |r.windows| == |s.windows|
  {
    var rolled := Rollover(s, now);
    var e := Event(now, 1, tokens, 0, 0);
    rolled.(
      windows := seq(|rolled.windows|, i requires 0 <= i < |rolled.windows| => rolled.windows[i].(events := rolled.windows[i].events + [e])),
      cooldownUntil := ZERO_TIME,
      nextProbeAt := ZERO_TIME,
      probeInFlight := false,
      lastSuccessAt := now)
  }

  function RecordQuotaExceeded(s: Subject, now: int): (r: Subject)
    ensures |r.windows| == |s.windows|
  {
    Rollover(s, now).(
      lastQuotaExceededAt := now,
      cooldownUntil := now + s.cooldown,
      nextProbeAt := now + s.probeInterval,
      probeInFlight := false)
  }
}
