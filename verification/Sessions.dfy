/**
 Sessions of coding agents: registration, hook events, heartbeats with leases, the sweeper
 and recovery after a restart. This module states the effect of each operation; the store
 object in `SessionStore` performs them.
 */
module Sessions {
  import opened Common
  import opened Schedules

  const LEASE_TTL: int := 45 * SECOND
  const STOPPED_RETENTION: int := 3600 * SECOND
  const HEARTBEAT_V1 := "heartbeat_v1"

  /** The textual status; `Unset` is the empty text. */
  datatype Status = Unset | Unknown | Running | ToolRunning | WaitingPermission | Idle | Compacting | Stopped | Other(text: string)

  /** What a client tells about itself (tag, host, process, directory, command and so on). */
  datatype Details = Details(text: string)

  datatype Session = Session(
    id: string,
    client: string,
    inbound: string,
    details: Details,
    status: Status,
    lastEvent: string,
    startedAt: int,
    lastSeenAt: int,
    capability: string,
    lastHeartbeatAt: Option<int>,
    leaseExpiresAt: Option<int>,
    recoveryPending: bool,
    recoveredAt: Option<int>,
    stoppedAt: Option<int>,
    exitCode: Option<int>,
    statusObservedAt: int)

  /** What the text of a notification asks for. */
  datatype Notice = AsksPermission | SaysIdle | SaysNothing

  datatype HookEvent = HookEvent(sessionId: string, name: string, needsPermission: bool, notice: Notice, receivedAt: int)

  datatype Store = Store(sessions: map<string, Session>, generation: nat)

  datatype Reply = Missing | Refused | Found(session: Session)

  function CurrentOrUnknown(current: Status): Status {
    if current.Unset? then Unknown else current
  }

  function StatusForHookEvent(e: HookEvent, current: Status): Status {
    if current.Stopped? then Stopped
    else match e.name
      case "SessionStart" => Idle
      case "UserPromptSubmit" => Running
      case "PreToolUse" => if e.needsPermission then WaitingPermission else ToolRunning
      case "PostToolUse" => Running
      case "Notification" =>
        (match e.notice
         case AsksPermission => WaitingPermission
         case SaysIdle => Idle
         case SaysNothing => CurrentOrUnknown(current))
      case "Stop" => Idle
      case "SubagentStop" => CurrentOrUnknown(current)
      case "PreCompact" => Compacting
      case "SessionEnd" => Stopped
      case _ => CurrentOrUnknown(current)
  }

  // ----- effects -----

  /** Stores a session; the generation counts real changes only. */
  function Set(st: Store, id: string, s: Session): Store {
    if id in st.sessions && st.sessions[id] == s then st
    else Store(st.sessions[id := s], st.generation + 1)
  }

  predicate Owns(s: Session, client: string, inbound: string) {
    s.client == client && s.inbound == inbound
  }

  predicate HasOwned(st: Store, id: string, client: string, inbound: string) {
    id in st.sessions && Owns(st.sessions[id], client, inbound)
  }

  function OrElse(t: int, now: int): int {
    if t == ZERO_TIME then now else t
  }

  /** What registering makes of the submitted session: lifecycle fields of a known session are kept. */
  function Merged(st: Store, s: Session): Session {
    if s.id !in st.sessions then s
    else
      var known := st.sessions[s.id];
      s.(status := known.status, lastEvent := known.lastEvent, startedAt := known.startedAt,
         lastSeenAt := known.lastSeenAt, stoppedAt := known.stoppedAt, exitCode := known.exitCode,
         recoveryPending := known.recoveryPending, recoveredAt := known.recoveredAt,
         statusObservedAt := known.statusObservedAt,
         capability := if known.capability != "" && s.capability == "" then known.capability else s.capability)
  }

  /** Defaults for what is unset, and a new lease for a heartbeat session. */
  function Completed(m: Session, now: int): Session {
    var d := m.(
      startedAt := OrElse(m.startedAt, now), lastSeenAt := OrElse(m.lastSeenAt, now),
      status := CurrentOrUnknown(m.status), statusObservedAt := OrElse(m.statusObservedAt, now));
    if d.capability == HEARTBEAT_V1
    then d.(lastHeartbeatAt := Some(now), leaseExpiresAt := Some(now + LEASE_TTL), recoveryPending := false)
    else d.(lastHeartbeatAt := None, leaseExpiresAt := None)
  }

  function Registered(st: Store, s: Session, now: int): Session {
    Completed(Merged(st, s), now)
  }

  function Register(st: Store, s: Session, now: int): (Store, Reply) {
    if s.id in st.sessions && !Owns(st.sessions[s.id], s.client, s.inbound) then (st, Refused)
    else if s.id in st.sessions && st.sessions[s.id].status.Stopped? then (st, Found(st.sessions[s.id]))
    else (Set(st, s.id, Registered(st, s, now)), Found(Registered(st, s, now)))
  }

  function Hooked(s: Session, e: HookEvent, now: int): Session {
    var received := OrElse(e.receivedAt, now);
    var status := StatusForHookEvent(e, s.status);
    s.(status := status, lastEvent := e.name, lastSeenAt := received, statusObservedAt := now,
       stoppedAt := if status.Stopped? && s.stoppedAt.None? then Some(received) else s.stoppedAt)
  }

  function ApplyHookEvent(st: Store, client: string, inbound: string, e: HookEvent, now: int): (Store, Reply) {
    if !HasOwned(st, e.sessionId, client, inbound) then (st, Missing)
    else
      var s := st.sessions[e.sessionId];
      if s.status.Stopped? then (st, Found(s))
      else (Set(st, e.sessionId, Hooked(s, e, now)), Found(Hooked(s, e, now)))
  }

  function StoppedBy(s: Session, exitCode: Option<int>, now: int): Session {
    s.(status := Stopped, lastSeenAt := now, stoppedAt := Some(now), exitCode := exitCode, statusObservedAt := now)
  }

  function MarkStopped(st: Store, client: string, inbound: string, id: string, exitCode: int, now: int): (Store, Reply) {
    if !HasOwned(st, id, client, inbound) then (st, Missing)
    else
      var s := st.sessions[id];
      if s.status.Stopped? then (st, Found(s))
      else (Set(st, id, StoppedBy(s, Some(exitCode), now)), Found(StoppedBy(s, Some(exitCode), now)))
  }

  function Beaten(s: Session, now: int): Session {
    s.(lastHeartbeatAt := Some(now), leaseExpiresAt := Some(now + LEASE_TTL), recoveryPending := false,
       status := if s.recoveryPending then Unknown else s.status)
  }

  function Heartbeat(st: Store, client: string, inbound: string, id: string, now: int): (Store, Reply) {
    if !HasOwned(st, id, client, inbound) then (st, Missing)
    else
      var s := st.sessions[id];
      if s.status.Stopped? then (st, Found(s))
      else if s.capability != HEARTBEAT_V1 then (st, Refused)
      else (Set(st, id, Beaten(s, now)), Found(Beaten(s, now)))
  }

  predicate LeaseExpired(s: Session, now: int) {
    s.capability == HEARTBEAT_V1 && s.leaseExpiresAt.Some? && now >= s.leaseExpiresAt.value
  }

  predicate TransientStale(s: Session, transientTtl: int, now: int) {
    && transientTtl > 0
    && (s.status.ToolRunning? || s.status.Compacting?)
    && s.statusObservedAt != ZERO_TIME
    && now >= s.statusObservedAt + transientTtl
  }

  /** What the sweeper makes of one session; `None` means it is removed. */
  function SweepOne(s: Session, retention: int, transientTtl: int, now: int): Option<Session> {
    if s.status.Stopped? then
      if retention > 0 && s.lastSeenAt < now - retention then None else Some(s)
    else if LeaseExpired(s, now) then Some(StoppedBy(s, None, now))
    else if TransientStale(s, transientTtl, now) then Some(s.(status := Unknown, statusObservedAt := now))
    else Some(s)
  }

  function Outcomes(sessions: map<string, Session>, retention: int, transientTtl: int, now: int): map<string, Option<Session>> {
    map id | id in sessions :: SweepOne(sessions[id], retention, transientTtl, now)
  }

  /** The sessions once every ID outside `left` has its outcome. */
  function Settle(sessions: map<string, Session>, outcomes: map<string, Option<Session>>, left: set<string>): map<string, Session>
    requires outcomes.Keys == sessions.Keys
  {
    map id | id in sessions && (id in left || outcomes[id].Some?) :: if id in left then sessions[id] else outcomes[id].value
  }

  /** The IDs outside `left` whose outcome is a change. */
  function Touched(sessions: map<string, Session>, outcomes: map<string, Option<Session>>, left: set<string>): set<string>
    requires outcomes.Keys == sessions.Keys
  {
    set id | id in sessions && id !in left && outcomes[id] != Some(sessions[id])
  }

  /** What a sweep does to a session, as its result counts it. */
  datatype Fate = Untouched | Pruned | Expired | Degraded

  function FateOf(s: Session, retention: int, transientTtl: int, now: int): Fate {
    if s.status.Stopped? then
      if retention > 0 && s.lastSeenAt < now - retention then Pruned else Untouched
    else if LeaseExpired(s, now) then Expired
    else if TransientStale(s, transientTtl, now) then Degraded
    else Untouched
  }

  /** The IDs outside `left` with a given fate. */
  function Fated(sessions: map<string, Session>, retention: int, transientTtl: int, now: int, fate: Fate, left: set<string>): set<string> {
    set id | id in sessions && id !in left && FateOf(sessions[id], retention, transientTtl, now) == fate
  }

  datatype SweepResult = SweepResult(leaseExpired: nat, transientDegraded: nat, stoppedPruned: nat)

  function CountsOf(sessions: map<string, Session>, retention: int, transientTtl: int, now: int, left: set<string>): SweepResult {
    SweepResult(|Fated(sessions, retention, transientTtl, now, Expired, left)|,
                |Fated(sessions, retention, transientTtl, now, Degraded, left)|,
                |Fated(sessions, retention, transientTtl, now, Pruned, left)|)
  }

  /** Every change of a sweep is counted once: the generation grows by the sum of the three counts. */
  lemma {:induction false} SweepCountsAddUp(st: Store, retention: int, transientTtl: int, now: int)
    ensures var counts := CountsOf(st.sessions, retention, transientTtl, now, {});
            Sweep(st, retention, transientTtl, now).generation
            == st.generation + counts.leaseExpired + counts.transientDegraded + counts.stoppedPruned
  {
    var expired := Fated(st.sessions, retention, transientTtl, now, Expired, {});
    var degraded := Fated(st.sessions, retention, transientTtl, now, Degraded, {});
    var pruned := Fated(st.sessions, retention, transientTtl, now, Pruned, {});
    var touched := Touched(st.sessions, Outcomes(st.sessions, retention, transientTtl, now), {});
    forall id | id in st.sessions
      ensures id in touched <==> id in expired || id in degraded || id in pruned
    {
      FatesAreChanges(st.sessions[id], retention, transientTtl, now);
    }
    ThreeParts(touched, expired, degraded, pruned);
  }

  lemma {:induction false} FatesAreChanges(s: Session, retention: int, transientTtl: int, now: int)
    ensures SweepOne(s, retention, transientTtl, now) == Some(s) <==> FateOf(s, retention, transientTtl, now) == Untouched
  {
  }

  lemma {:induction false} ThreeParts(whole: set<string>, a: set<string>, b: set<string>, c: set<string>)
    requires a !! b && a !! c && b !! c
    requires forall id :: id in whole <==> id in a || id in b || id in c
    ensures |whole| == |a| + |b| + |c|
  {
    assert whole == (a + b) + c;
    assert |(a + b) + c| == |a + b| + |c|;
  }

  function Sweep(st: Store, retention: int, transientTtl: int, now: int): Store {
    var outcomes := Outcomes(st.sessions, retention, transientTtl, now);
    Store(Settle(st.sessions, outcomes, {}), st.generation + |Touched(st.sessions, outcomes, {})|)
  }

  /** How a restart takes over a persisted session; `None` means it is forgotten. */
  function Recover(s: Session, now: int): Option<Session> {
    if s.status.Stopped? then
      if s.lastSeenAt < now - STOPPED_RETENTION then None else Some(s)
    else if s.capability == HEARTBEAT_V1 then
      Some(s.(status := Unknown, recoveryPending := true, recoveredAt := Some(now), lastHeartbeatAt := None,
              leaseExpiresAt := Some(now + LEASE_TTL), statusObservedAt := now))
    else
      Some(StoppedBy(s, None, now).(recoveryPending := false, recoveredAt := None))
  }

  /** The sessions a persisted list stands for; of two with one ID the later counts. */
  function ById(list: seq<Session>): map<string, Session> {
    if list == [] then map[]
    else ById(list[..|list| - 1])[list[|list| - 1].id := list[|list| - 1]]
  }

  function Recovered(list: seq<Session>, now: int): map<string, Session> {
    if list == [] then map[]
    else
      var before, last := Recovered(list[..|list| - 1], now), list[|list| - 1];
      if Recover(last, now).Some? then before[last.id := Recover(last, now).value] else before
  }

  /** Live sessions and outdated stopped ones do not survive a restart unchanged. */
  predicate NeedsRecovery(s: Session, now: int) {
    !s.status.Stopped? || s.lastSeenAt < now - STOPPED_RETENTION
  }

  predicate Normalizes(list: seq<Session>, now: int) {
    exists i :: 0 <= i < |list| && NeedsRecovery(list[i], now)
  }

  function Import(list: seq<Session>, generation: nat, now: int): Store {
    Store(Recovered(list, now), if Normalizes(list, now) then generation + 1 else generation)
  }

  /** Whether a session counts as the current one of its owner. */
  predicate Active(s: Session, client: string, inbound: string) {
    Owns(s, client, inbound) && !s.status.Stopped? && !s.recoveryPending
  }

  // ----- runs -----

  datatype Op =
    | DoRegister(now: int, session: Session)
    | DoHook(now: int, client: string, inbound: string, event: HookEvent)
    | DoStop(now: int, client: string, inbound: string, id: string, exitCode: int)
    | DoBeat(now: int, client: string, inbound: string, id: string)
    | DoSweep(now: int, retention: int, transientTtl: int)

  function Apply(st: Store, op: Op): Store {
    match op
    case DoRegister(now, s) => Register(st, s, now).0
    case DoHook(now, client, inbound, e) => ApplyHookEvent(st, client, inbound, e, now).0
    case DoStop(now, client, inbound, id, exitCode) => MarkStopped(st, client, inbound, id, exitCode, now).0
    case DoBeat(now, client, inbound, id) => Heartbeat(st, client, inbound, id, now).0
    case DoSweep(now, retention, transientTtl) => Sweep(st, retention, transientTtl, now)
  }

  function Run(st: Store, ops: seq<Op>): Store {
    if ops == [] then st else Apply(Run(st, ops[..|ops| - 1]), ops[|ops| - 1])
  }

  // ----- what every step keeps -----

  /** A live heartbeat session has a lease, and it ends 45 seconds after the last contact. */
  predicate Leased(s: Session) {
    !s.status.Stopped? && s.capability == HEARTBEAT_V1 ==>
      && s.leaseExpiresAt.Some?
      && LastContact(s).Some?
      && s.leaseExpiresAt.value == LastContact(s).value + LEASE_TTL
  }

  /** The last heartbeat or registration, or else the recovery. */
  function LastContact(s: Session): Option<int> {
    if s.lastHeartbeatAt.Some? then s.lastHeartbeatAt else s.recoveredAt
  }

  predicate Sound(st: Store) {
    forall id | id in st.sessions :: st.sessions[id].id == id && Leased(st.sessions[id])
  }

  lemma {:induction false} SetKeepsSound(st: Store, id: string, s: Session)
    requires Sound(st) && s.id == id && Leased(s)
    ensures Sound(Set(st, id, s))
  {
  }

  lemma {:induction false} StepKeepsSound(st: Store, op: Op)
    requires Sound(st)
    ensures Sound(Apply(st, op))
  {
    match op
    case DoRegister(now, s) =>
      if !(s.id in st.sessions && (!Owns(st.sessions[s.id], s.client, s.inbound) || st.sessions[s.id].status.Stopped?)) {
        SetKeepsSound(st, s.id, Completed(Merged(st, s), now));
      }
    case DoHook(now, client, inbound, e) =>
      if HasOwned(st, e.sessionId, client, inbound) {
        assert Leased(st.sessions[e.sessionId]);
        SetKeepsSound(st, e.sessionId, Hooked(st.sessions[e.sessionId], e, now));
      }
    case DoStop(now, client, inbound, id, exitCode) =>
      if HasOwned(st, id, client, inbound) {
        SetKeepsSound(st, id, StoppedBy(st.sessions[id], Some(exitCode), now));
      }
    case DoBeat(now, client, inbound, id) =>
      if HasOwned(st, id, client, inbound) {
        SetKeepsSound(st, id, Beaten(st.sessions[id], now));
      }
    case DoSweep(now, retention, transientTtl) =>
      SweepKeepsSound(st, retention, transientTtl, now);
  }

  lemma {:induction false} SweepKeepsSound(st: Store, retention: int, transientTtl: int, now: int)
    requires Sound(st)
    ensures Sound(Sweep(st, retention, transientTtl, now))
  {
    var swept := Sweep(st, retention, transientTtl, now).sessions;
    forall id | id in swept
      ensures swept[id].id == id && Leased(swept[id])
    {
      assert Leased(st.sessions[id]);
    }
  }

  lemma {:induction false} ImportIsSound(list: seq<Session>, generation: nat, now: int)
    ensures Sound(Import(list, generation, now))
  {
    if list != [] {
      ImportIsSound(list[..|list| - 1], generation, now);
    }
  }

  /** Main result: over every run, from a fresh start or from a recovered snapshot, every live
      heartbeat session has a lease that ends 45 seconds after its last contact. */
  lemma {:induction false} RunsAreSound(st: Store, ops: seq<Op>)
    requires Sound(st)
    ensures Sound(Run(st, ops))
  {
    if ops != [] {
      RunsAreSound(st, ops[..|ops| - 1]);
      StepKeepsSound(Run(st, ops[..|ops| - 1]), ops[|ops| - 1]);
    }
  }

  /** A session that stays keeps its owner, and once stopped it never changes at all. */
  predicate Continues(before: map<string, Session>, after: map<string, Session>, id: string) {
    id in before && id in after ==>
      && Owns(after[id], before[id].client, before[id].inbound)
      && (before[id].status.Stopped? ==> after[id] == before[id])
  }

  lemma {:induction false} StepContinues(st: Store, op: Op, id: string)
    ensures Continues(st.sessions, Apply(st, op).sessions, id)
  {
  }

  /** Main result: over any stretch of a run in which an ID is present throughout, its owner is
      fixed, and if it was stopped at the start it is the very same session at the end. */
  lemma {:induction false} SessionsContinue(st: Store, ops: seq<Op>, id: string)
    requires forall n | 0 <= n <= |ops| :: id in Run(st, ops[..n]).sessions
    ensures Continues(st.sessions, Run(st, ops).sessions, id)
  {
    if ops != [] {
      var m := |ops| - 1;
      assert forall n | 0 <= n <= m :: ops[..m][..n] == ops[..n];
      SessionsContinue(st, ops[..m], id);
      assert id in Run(st, ops[..m]).sessions;
      StepContinues(Run(st, ops[..m]), ops[m], id);
      assert ops[..m + 1] == ops;
    }
  }

  /** A sweep that removes the stopped session `s`: retention is on and has passed. */
  predicate Removes(op: Op, s: Session) {
    op.DoSweep? && op.retention > 0 && s.lastSeenAt < op.now - op.retention
  }

  lemma {:induction false} StoppedStep(st: Store, op: Op, id: string)
    requires id in st.sessions && st.sessions[id].status.Stopped?
    ensures id in Apply(st, op).sessions ==> Apply(st, op).sessions[id] == st.sessions[id]
    ensures id !in Apply(st, op).sessions ==> Removes(op, st.sessions[id])
  {
  }

  /** Main result: stopping is final. Whatever a run does, a stopped session stays as it is
      until a sweep past its retention removes it. */
  lemma {:induction false} StoppedStaysUntilRemoved(st: Store, ops: seq<Op>, id: string)
    requires id in st.sessions && st.sessions[id].status.Stopped?
    ensures || (id in Run(st, ops).sessions && Run(st, ops).sessions[id] == st.sessions[id])
            || exists i :: 0 <= i < |ops| && Removes(ops[i], st.sessions[id])
  {
    if ops != [] {
      var n := |ops| - 1;
      StoppedStaysUntilRemoved(st, ops[..n], id);
      if i :| 0 <= i < n && Removes(ops[..n][i], st.sessions[id]) {
        assert Removes(ops[i], st.sessions[id]);
      } else {
        StoppedStep(Run(st, ops[..n]), ops[n], id);
      }
    }
  }

  /** A sweep stops a live session exactly if it is a heartbeat session whose lease has run out. */
  lemma {:induction false} SweepStep(st: Store, retention: int, transientTtl: int, now: int, id: string)
    requires Sound(st) && id in st.sessions && !st.sessions[id].status.Stopped?
    ensures id in Sweep(st, retention, transientTtl, now).sessions
    ensures var s, swept := st.sessions[id], Sweep(st, retention, transientTtl, now).sessions[id];
            swept.status.Stopped? <==> s.capability == HEARTBEAT_V1 && now >= LastContact(s).value + LEASE_TTL
  {
    assert Leased(st.sessions[id]);
  }

  // ----- the last contact, read off the run itself -----

  /** Whether a call is accepted as a sign of life of a heartbeat session. */
  predicate Contacts(st: Store, op: Op, id: string) {
    match op
    case DoRegister(now, s) =>
      && s.id == id
      && (id in st.sessions ==> Owns(st.sessions[id], s.client, s.inbound) && !st.sessions[id].status.Stopped?)
      && Merged(st, s).capability == HEARTBEAT_V1
    case DoBeat(_, client, inbound, beat) =>
      && beat == id && HasOwned(st, id, client, inbound)
      && !st.sessions[id].status.Stopped? && st.sessions[id].capability == HEARTBEAT_V1
    case _ => false
  }

  /** The time of the last accepted sign of life in a run, if there is one. */
  function ContactIn(st: Store, ops: seq<Op>, id: string): Option<int> {
    if ops == [] then None
    else
      var n := |ops| - 1;
      if Contacts(Run(st, ops[..n]), ops[n], id) then Some(ops[n].now) else ContactIn(st, ops[..n], id)
  }

  predicate LiveHeartbeat(st: Store, id: string) {
    id in st.sessions && !st.sessions[id].status.Stopped? && st.sessions[id].capability == HEARTBEAT_V1
  }

  lemma {:induction false} StepContact(st: Store, op: Op, id: string)
    requires LiveHeartbeat(Apply(st, op), id)
    ensures Contacts(st, op, id) ==> LastContact(Apply(st, op).sessions[id]) == Some(op.now)
    ensures !Contacts(st, op, id) ==>
              LiveHeartbeat(st, id) && LastContact(Apply(st, op).sessions[id]) == LastContact(st.sessions[id])
  {
  }

  /** Main result: the contact a lease counts from is the last accepted registration or heartbeat
      of the run, or, if there was none, the contact the session started the run with. */
  lemma {:induction false} LeaseCountsFromLastContact(st: Store, ops: seq<Op>, id: string)
    requires Sound(st) && LiveHeartbeat(Run(st, ops), id)
    ensures ContactIn(st, ops, id).None? ==> LiveHeartbeat(st, id)
    ensures var s := Run(st, ops).sessions[id];
            && LastContact(s) == (if ContactIn(st, ops, id).Some? then ContactIn(st, ops, id) else LastContact(st.sessions[id]))
            && LastContact(s).Some? && s.leaseExpiresAt == Some(LastContact(s).value + LEASE_TTL)
  {
    RunsAreSound(st, ops);
    assert Leased(Run(st, ops).sessions[id]);
    if ops != [] {
      var n := |ops| - 1;
      StepContact(Run(st, ops[..n]), ops[n], id);
      if !Contacts(Run(st, ops[..n]), ops[n], id) {
        LeaseCountsFromLastContact(st, ops[..n], id);
      }
    }
  }

  /** Main result: after any run, a sweep keeps every live session, and stops one exactly if it is a
      heartbeat session and 45 seconds have passed since the last sign of life the run accepted from it. */
  lemma {:induction false} SweepStopsExactlyTheExpired(st: Store, ops: seq<Op>, retention: int, transientTtl: int, now: int, id: string)
    requires Sound(st) && id in Run(st, ops).sessions && !Run(st, ops).sessions[id].status.Stopped?
    ensures id in Sweep(Run(st, ops), retention, transientTtl, now).sessions
    ensures var swept := Sweep(Run(st, ops), retention, transientTtl, now).sessions[id];
            if !LiveHeartbeat(Run(st, ops), id) then !swept.status.Stopped?
            else if ContactIn(st, ops, id).Some? then swept.status.Stopped? <==> now >= ContactIn(st, ops, id).value + 45 * SECOND
            else LiveHeartbeat(st, id) && LastContact(st.sessions[id]).Some?
                 && (swept.status.Stopped? <==> now >= LastContact(st.sessions[id]).value + 45 * SECOND)
  {
    RunsAreSound(st, ops);
    SweepStep(Run(st, ops), retention, transientTtl, now, id);
    if LiveHeartbeat(Run(st, ops), id) {
      LeaseCountsFromLastContact(st, ops, id);
    }
  }
}
