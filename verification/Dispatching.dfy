/**
 The dispatcher: the fallback loop over the steps of a plan, the choice of the error to
 report, and the accounting of each call. What providers answer and whether quota and health
 admit an attempt is arbitrary.
 */
module Dispatching {
  import opened Common

  datatype ErrorKind =
    | UnknownKind | Retryable | Timeout | QuotaExceeded | UpstreamServerError
    | AuthFailed | CapabilityUnsupported | ModelUnavailable | Fatal

  /** An error as the dispatcher sees it: a wrapped provider error, or any other one. */
  datatype Failure = ProviderError(kind: ErrorKind, hasHttpMetadata: bool) | OtherError

  datatype FallbackCondition = Always | OnRetryable | OnQuotaExceeded

  /** A plan step together with what happens if it is tried. */
  datatype Step = Step(
    isOutbound: bool,
    hasTarget: bool,
    modelUnavailable: bool,
    onError: FallbackCondition,
    quotaAllows: bool,
    healthAllows: bool,
    failure: Option<Failure>)

  datatype Outcome = Malformed | Skipped(error: Failure) | Succeeded | Failed(error: Failure)

  /** A usage record: of which step, and the kind of the error unless it is a success. */
  datatype Entry = Entry(step: nat, error: Option<ErrorKind>)

  /** What a call did: its answer, the provider calls with the outcome that quota and health are told of
      each, the usage records, and the steps charged to the client. */
  datatype Report = Report(
    response: Option<nat>,
    error: Option<Failure>,
    calls: seq<Entry>,
    records: seq<Entry>,
    clientUsages: seq<nat>)

  // ----- errors -----

  function Kind(e: Failure): ErrorKind {
    match e
    case ProviderError(kind, _) => kind
    case OtherError => UnknownKind
  }

  predicate IsRecoverable(kind: ErrorKind) {
    kind.Retryable? || kind.Timeout? || kind.QuotaExceeded? || kind.UpstreamServerError? || kind.ModelUnavailable?
  }

  predicate FallbackAllowed(condition: FallbackCondition, kind: ErrorKind, isLast: bool) {
    !isLast && if condition.OnQuotaExceeded? then kind.QuotaExceeded? else IsRecoverable(kind)
  }

  function Priority(e: Failure): nat {
    match Kind(e)
    case QuotaExceeded => if e.hasHttpMetadata then 5 else 4
    case AuthFailed => if e.hasHttpMetadata then 5 else 4
    case Fatal => 3
    case CapabilityUnsupported => 3
    case Timeout => 2
    case UpstreamServerError => 2
    case Retryable => 2
    case _ => 1
  }

  function SelectPreferred(current: Option<Failure>, candidate: Failure): Failure {
    if current.None? || Priority(candidate) > Priority(current.value) then candidate else current.value
  }

  // ----- what a plan means -----

  function OutcomeOf(s: Step): (o: Outcome)
    ensures o.Succeeded? || o.Failed? <==> IsCalled(s)
    ensures o.Malformed? <==> IsMalformed(s)
    ensures o.Skipped? ==>
              o.error == ProviderError(if s.modelUnavailable then ModelUnavailable else if !s.quotaAllows then QuotaExceeded else Retryable, false)
  {
    if !s.isOutbound then Malformed
    else if s.modelUnavailable then Skipped(ProviderError(ModelUnavailable, false))
    else if !s.hasTarget then Malformed
    else if !s.quotaAllows then Skipped(ProviderError(QuotaExceeded, false))
    else if !s.healthAllows then Skipped(ProviderError(Retryable, false))
    else if s.failure.None? then Succeeded
    else Failed(s.failure.value)
  }

  /** The provider of the step is asked: nothing turns the step away before. */
  predicate IsCalled(s: Step) {
    s.isOutbound && !s.modelUnavailable && s.hasTarget && s.quotaAllows && s.healthAllows
  }

  /** A step that is neither called nor passed over: the plan itself is wrong. */
  predicate IsMalformed(s: Step) {
    !s.isOutbound || (!s.modelUnavailable && !s.hasTarget)
  }

  /** The loop goes on past step `i`: it was skipped or failed in a way that allows fallback. */
  predicate GoesOn(steps: seq<Step>, i: nat)
    requires i < |steps|
  {
    var o := OutcomeOf(steps[i]);
    o.Skipped? || (o.Failed? && FallbackAllowed(steps[i].onError, Kind(o.error), i == |steps| - 1))
  }

  predicate Reached(steps: seq<Step>, i: nat)
    requires i <= |steps|
  {
    forall j | 0 <= j < i :: GoesOn(steps, j)
  }

  /** The errors of the first `n` steps, in order. */
  function Errors(steps: seq<Step>, n: nat): seq<Failure>
    requires n <= |steps|
  {
    if n == 0 then []
    else
      var o := OutcomeOf(steps[n - 1]);
      Errors(steps, n - 1) + if o.Skipped? || o.Failed? then [o.error] else []
  }

  /** `e` is the earliest of the errors with the highest priority. */
  predicate IsPreferred(e: Failure, errors: seq<Failure>) {
    exists k :: 0 <= k < |errors| && errors[k] == e && BestAt(errors, k)
  }

  predicate BestAt(errors: seq<Failure>, k: nat)
    requires k < |errors|
  {
    && (forall j | 0 <= j < k :: Priority(errors[j]) < Priority(errors[k]))
    && (forall j | k < j < |errors| :: Priority(errors[j]) <= Priority(errors[k]))
  }

  // The ranking of errors, in words: a refusal (quota or authentication) beats everything else, the more so with an
  // HTTP answer behind it; then come final failures, then transient ones, then the rest.

  predicate IsRefusal(e: Failure) {
    e.ProviderError? && (e.kind == QuotaExceeded || e.kind == AuthFailed)
  }

  predicate IsFinal(e: Failure) {
    e.ProviderError? && (e.kind == Fatal || e.kind == CapabilityUnsupported)
  }

  predicate IsTransient(e: Failure) {
    e.ProviderError? && (e.kind == Timeout || e.kind == UpstreamServerError || e.kind == Retryable)
  }

  predicate Outranks(e: Failure, f: Failure) {
    || (IsRefusal(e) && (!IsRefusal(f) || (e.hasHttpMetadata && !f.hasHttpMetadata)))
    || (IsFinal(e) && !IsRefusal(f) && !IsFinal(f))
    || (IsTransient(e) && !IsRefusal(f) && !IsFinal(f) && !IsTransient(f))
  }

  /** The numbers stand for this ranking. */
  lemma {:induction false} PriorityIsTheRanking(errors: seq<Failure>, k: nat)
    requires k < |errors|
    ensures BestAt(errors, k) <==>
            && (forall j | 0 <= j < k :: Outranks(errors[k], errors[j]))
            && (forall j | k < j < |errors| :: !Outranks(errors[j], errors[k]))
  {
    forall e, f
      ensures Outranks(e, f) <==> Priority(e) > Priority(f)
    {
      RankOf(e, f);
    }
  }

  lemma {:induction false} RankOf(e: Failure, f: Failure)
    ensures Outranks(e, f) <==> Priority(e) > Priority(f)
  {
  }

  lemma {:induction false} PreferredGrows(current: Option<Failure>, errors: seq<Failure>, e: Failure)
    requires if current.None? then errors == [] else IsPreferred(current.value, errors)
    ensures IsPreferred(SelectPreferred(current, e), errors + [e])
  {
    var grown := errors + [e];
    if current.None? {
      assert BestAt(grown, 0) && grown[0] == e;
    } else {
      var k :| 0 <= k < |errors| && errors[k] == current.value && BestAt(errors, k);
      if Priority(e) > Priority(current.value) {
        assert forall j | 0 <= j < |errors| :: Priority(errors[j]) <= Priority(errors[k]);
        assert BestAt(grown, |errors|) && grown[|errors|] == e;
      } else {
        assert BestAt(grown, k) && grown[k] == current.value;
      }
    }
  }

  /** A plan as the router makes it. */
  predicate RouterMade(steps: seq<Step>) {
    steps != [] && forall i | 0 <= i < |steps| :: steps[i].isOutbound && steps[i].hasTarget && steps[i].onError.OnRetryable?
  }

  // ----- the loop -----

  /** `stop` is the step that ends the call, or the number of steps if every one is passed over. */
  predicate EndsAt(steps: seq<Step>, stop: nat) {
    stop <= |steps| && Reached(steps, stop) && (stop < |steps| ==> !GoesOn(steps, stop))
  }

  /** How many steps a call that ends at `stop` reaches. */
  function ReachedBy(steps: seq<Step>, stop: nat): (n: nat)
    requires stop <= |steps|
    ensures n <= |steps|
  {
    if stop < |steps| then stop + 1 else stop
  }

  /** The provider call of a step, with its own outcome. */
  function CallOf(steps: seq<Step>, i: nat): Entry
    requires i < |steps|
  {
    Entry(i, if steps[i].failure.None? then None else Some(Kind(steps[i].failure.value)))
  }

  predicate InPlanOrder(calls: seq<Entry>) {
    forall i, j | 0 <= i < j < |calls| :: calls[i].step < calls[j].step
  }

  /** Each provider whose step is reached and not turned away is called once, in plan order. */
  ghost predicate CallsExactly(steps: seq<Step>, reached: nat, calls: seq<Entry>)
    requires reached <= |steps|
  {
    && (forall c :: c in calls <==> c.step < reached && IsCalled(steps[c.step]) && c == CallOf(steps, c.step))
    && InPlanOrder(calls)
  }

  /** The call answers with the response of step `stop`, stored as one success and charged to the client. */
  predicate AnswersFrom(report: Report, stop: nat) {
    && report.response == Some(stop) && report.error == None
    && report.records == [Entry(stop, None)] && report.clientUsages == [stop]
  }

  /** The call fails with the preferred one of `errors`, stored as one failure of step `at`. */
  predicate FailsWithPreferred(report: Report, errors: seq<Failure>, at: nat) {
    && report.response == None && report.clientUsages == []
    && report.error.Some? && IsPreferred(report.error.value, errors)
    && report.records == [Entry(at, Some(Kind(report.error.value)))]
  }

  /** The plan is refused as such: nothing is stored. */
  predicate Refused(report: Report) {
    report.response == None && report.error == Some(OtherError) && report.records == [] && report.clientUsages == []
  }

  predicate ReportsTheCall(steps: seq<Step>, stop: nat, report: Report)
    requires stop <= |steps|
  {
    if steps == [] || (stop < |steps| && IsMalformed(steps[stop])) then Refused(report)
    else if stop < |steps| && steps[stop].failure.None? then AnswersFrom(report, stop)
    else FailsWithPreferred(report, Errors(steps, ReachedBy(steps, stop)), ReachedBy(steps, stop) - 1)
  }

  lemma {:induction false} CallAdded(steps: seq<Step>, i: nat, calls: seq<Entry>)
    requires i < |steps| && CallsExactly(steps, i, calls)
    ensures CallsExactly(steps, i + 1, if IsCalled(steps[i]) then calls + [CallOf(steps, i)] else calls)
  {
    forall c
      ensures c in calls ==> c.step < i
      ensures c in calls || (IsCalled(steps[i]) && c == CallOf(steps, i)) <==>
              c.step < i + 1 && IsCalled(steps[c.step]) && c == CallOf(steps, c.step)
    {
      assert c in calls <==> c.step < i && IsCalled(steps[c.step]) && c == CallOf(steps, c.step);
    }
    LastInOrder(calls, CallOf(steps, i));
  }

  lemma {:induction false} LastInOrder(calls: seq<Entry>, c: Entry)
    requires InPlanOrder(calls) && forall d :: d in calls ==> d.step < c.step
    ensures InPlanOrder(calls + [c])
  {
    assert forall j | 0 <= j < |calls| :: calls[j] in calls;
  }

  lemma {:induction false} ReachedNext(steps: seq<Step>, i: nat)
    requires i < |steps| && Reached(steps, i) && GoesOn(steps, i)
    ensures Reached(steps, i + 1)
  {
    forall j | 0 <= j < i + 1
      ensures GoesOn(steps, j)
    {
    }
  }

  /** The preferred of the errors so far, if there is one. */
  predicate KeepsPreferred(last: Option<Failure>, errors: seq<Failure>) {
    if last.None? then errors == [] else IsPreferred(last.value, errors)
  }

  lemma {:induction false} ErrorAdded(steps: seq<Step>, i: nat, last: Option<Failure>, e: Failure)
    requires i < |steps| && KeepsPreferred(last, Errors(steps, i))
    requires OutcomeOf(steps[i]) in {Skipped(e), Failed(e)}
    ensures KeepsPreferred(Some(SelectPreferred(last, e)), Errors(steps, i + 1))
  {
    PreferredGrows(last, Errors(steps, i), e);
    assert Errors(steps, i + 1) == Errors(steps, i) + [e];
  }

  /** What the loop knows on reaching step `i`. */
  ghost predicate Underway(steps: seq<Step>, i: nat, calls: seq<Entry>, last: Option<Failure>) {
    && i <= |steps| && Reached(steps, i) && CallsExactly(steps, i, calls)
    && KeepsPreferred(last, Errors(steps, i)) && (i > 0 ==> last.Some?)
  }

  lemma {:induction false} SkippedGoesOn(steps: seq<Step>, i: nat, calls: seq<Entry>, last: Option<Failure>, e: Failure)
    requires i < |steps| && Underway(steps, i, calls, last) && OutcomeOf(steps[i]) == Skipped(e)
    ensures Underway(steps, i + 1, calls, Some(SelectPreferred(last, e)))
  {
    CallAdded(steps, i, calls);
    ErrorAdded(steps, i, last, e);
    ReachedNext(steps, i);
  }

  lemma {:induction false} FailedGoesOn(steps: seq<Step>, i: nat, calls: seq<Entry>, last: Option<Failure>, e: Failure)
    requires i < |steps| && Underway(steps, i, calls, last) && OutcomeOf(steps[i]) == Failed(e) && GoesOn(steps, i)
    ensures Underway(steps, i + 1, calls + [CallOf(steps, i)], Some(SelectPreferred(last, e)))
  {
    CallAdded(steps, i, calls);
    ErrorAdded(steps, i, last, e);
    ReachedNext(steps, i);
  }

  lemma {:induction false} FailedEnds(steps: seq<Step>, i: nat, calls: seq<Entry>, last: Option<Failure>, e: Failure, report: Report)
    requires i < |steps| && Underway(steps, i, calls, last) && OutcomeOf(steps[i]) == Failed(e) && !GoesOn(steps, i)
    requires var preferred := SelectPreferred(last, e);
             report == Report(None, Some(preferred), calls + [CallOf(steps, i)], [Entry(i, Some(Kind(preferred)))], [])
    ensures Ends(steps, i, report)
  {
    assert CallsExactly(steps, i + 1, calls + [CallOf(steps, i)]) by { CallAdded(steps, i, calls); }
    FailureReported(steps, i, last, e, report);
  }

  lemma {:induction false} FailureReported(steps: seq<Step>, i: nat, last: Option<Failure>, e: Failure, report: Report)
    requires i < |steps| && OutcomeOf(steps[i]) == Failed(e) && KeepsPreferred(last, Errors(steps, i))
    requires report.response.None? && report.clientUsages == [] && report.error == Some(SelectPreferred(last, e))
    requires report.records == [Entry(i, Some(Kind(report.error.value)))]
    ensures ReportsTheCall(steps, i, report)
  {
    ErrorAdded(steps, i, last, e);
    assert FailsWithPreferred(report, Errors(steps, i + 1), i);
  }

  lemma {:induction false} OtherwiseEnds(steps: seq<Step>, i: nat, calls: seq<Entry>, last: Option<Failure>, report: Report)
    requires i < |steps| && Underway(steps, i, calls, last)
    requires match OutcomeOf(steps[i])
             case Malformed => report == Report(None, Some(OtherError), calls, [], [])
             case Succeeded => report == Report(Some(i), None, calls + [CallOf(steps, i)], [Entry(i, None)], [i])
             case _ => false
    ensures Ends(steps, i, report)
  {
    CallAdded(steps, i, calls);
  }

  ghost predicate Ends(steps: seq<Step>, stop: nat, report: Report) {
    EndsAt(steps, stop) && CallsExactly(steps, ReachedBy(steps, stop), report.calls) && ReportsTheCall(steps, stop, report)
  }

  // ----- which failures lead to the next step -----

  /** The step is skipped, or its provider fails in a way that lets the next one try: with one of five kinds, or for
      a step that falls back on exhausted quota only, with that. */
  predicate PassedOver(s: Step) {
    && !IsMalformed(s)
    && (IsCalled(s) ==>
          && s.failure.Some? && s.failure.value.ProviderError?
          && if s.onError == OnQuotaExceeded then s.failure.value.kind == QuotaExceeded
             else s.failure.value.kind in {Retryable, Timeout, QuotaExceeded, UpstreamServerError, ModelUnavailable})
  }

  predicate AllPassedOver(steps: seq<Step>, n: nat)
    requires n <= |steps|
  {
    forall i | 0 <= i < n :: PassedOver(steps[i])
  }

  /** Step `n` answers: it succeeds after all before it were passed over. */
  predicate AnswersAt(steps: seq<Step>, n: nat) {
    n < |steps| && AllPassedOver(steps, n) && IsCalled(steps[n]) && steps[n].failure == None
  }

  /** Step `n` fails for good: in another way, or as the last one. */
  predicate FailsAt(steps: seq<Step>, n: nat) {
    && n < |steps| && AllPassedOver(steps, n) && IsCalled(steps[n]) && steps[n].failure.Some?
    && (n == |steps| - 1 || !PassedOver(steps[n]))
  }

  predicate NoCallAfter(calls: seq<Entry>, n: nat) {
    forall c | c in calls :: c.step <= n
  }

  /** The report says what the plan and its outcomes call for. */
  ghost predicate FallsBackByKind(steps: seq<Step>, report: Report) {
    && (forall n: nat :: report.response == Some(n) <==> AnswersAt(steps, n))
    && (forall n: nat | AnswersAt(steps, n) ::
          report.error == None && report.records == [Entry(n, None)] && report.clientUsages == [n] && NoCallAfter(report.calls, n))
    && (forall n: nat | FailsAt(steps, n) ::
          && report.error.Some? && report.clientUsages == [] && NoCallAfter(report.calls, n)
          && report.records == [Entry(n, Some(Kind(report.error.value)))])
  }

  lemma {:induction false} GoesOnWhenPassedOver(steps: seq<Step>, i: nat)
    requires i < |steps|
    ensures GoesOn(steps, i) <==> PassedOver(steps[i]) && (i == |steps| - 1 ==> !IsCalled(steps[i]))
  {
  }

  lemma {:induction false} ReachedWhenPassedOver(steps: seq<Step>, n: nat)
    requires n < |steps|
    ensures Reached(steps, n) <==> AllPassedOver(steps, n)
  {
    forall i | 0 <= i < n
      ensures GoesOn(steps, i) <==> PassedOver(steps[i])
    {
      GoesOnWhenPassedOver(steps, i);
    }
  }

  /** A step that answers or fails for good is where the call ends. */
  lemma {:induction false} EndsThere(steps: seq<Step>, stop: nat, n: nat)
    requires EndsAt(steps, stop) && (AnswersAt(steps, n) || FailsAt(steps, n))
    ensures n == stop
  {
    ReachedWhenPassedOver(steps, n);
    GoesOnWhenPassedOver(steps, n);
    if n < stop {
      NothingAfterTheEnd(steps, n, stop);
    } else if stop < n {
      NothingAfterTheEnd(steps, stop, n);
    }
  }

  lemma {:induction false} EndsByKind(steps: seq<Step>, stop: nat, report: Report)
    requires Ends(steps, stop, report)
    ensures FallsBackByKind(steps, report)
  {
    forall n: nat | AnswersAt(steps, n) || FailsAt(steps, n)
      ensures n == stop
    {
      EndsThere(steps, stop, n);
    }
    if stop < |steps| {
      ReachedWhenPassedOver(steps, stop);
    }
  }

  /** Main result, as the contract of the loop, for every plan and every outcome of its steps.
      - A provider is called exactly if its step is reached and not turned away, once and in plan order,
        and quota and health are told of each call's own outcome.
      - The response is that of the step that ends the call, if it succeeds.
      - Otherwise the error is the earliest of highest priority among all steps reached.
      - Exactly one usage record is stored, unless the plan itself is refused; client usage is
        recorded exactly if that record is a success.
      - Which failures lead to the next step is told by their kinds alone. */
  method Dispatch(steps: seq<Step>) returns (report: Report)
    ensures exists stop: nat :: Ends(steps, stop, report)
    ensures FallsBackByKind(steps, report)
  {
    report := WorkThrough(steps);
    ghost var stop: nat :| Ends(steps, stop, report);
    EndsByKind(steps, stop, report);
  }

  method WorkThrough(steps: seq<Step>) returns (report: Report)
    ensures exists stop: nat :: Ends(steps, stop, report)
  {
    var calls: seq<Entry> := [];
    if |steps| == 0 {
      report := Report(None, Some(OtherError), calls, [], []);
      assert Ends(steps, 0, report);
      return;
    }
    var last: Option<Failure> := None;
    for i := 0 to |steps|
      invariant Underway(steps, i, calls, last)
    {
      match OutcomeOf(steps[i]) {
        case Malformed =>
          report := Report(None, Some(OtherError), calls, [], []);
          OtherwiseEnds(steps, i, calls, last, report);
          return;
        case Skipped(e) =>
          SkippedGoesOn(steps, i, calls, last, e);
          last := Some(SelectPreferred(last, e));
        case Succeeded =>
          report := Report(Some(i), None, calls + [CallOf(steps, i)], [Entry(i, None)], [i]);
          OtherwiseEnds(steps, i, calls, last, report);
          return;
        case Failed(e) =>
          var preferred := SelectPreferred(last, e);
          if !FallbackAllowed(steps[i].onError, Kind(e), i == |steps| - 1) {
            report := Report(None, Some(preferred), calls + [CallOf(steps, i)], [Entry(i, Some(Kind(preferred)))], []);
            FailedEnds(steps, i, calls, last, e, report);
            return;
          }
          FailedGoesOn(steps, i, calls, last, e);
          calls, last := calls + [CallOf(steps, i)], Some(preferred);
      }
    }
    report := Report(None, last, calls, [Entry(|steps| - 1, Some(Kind(last.value)))], []);
    assert Ends(steps, |steps|, report);
  }

  lemma {:induction false} NothingAfterTheEnd(steps: seq<Step>, stop: nat, later: nat)
    requires EndsAt(steps, stop) && stop < later <= |steps|
    ensures !Reached(steps, later)
  {
    assert !GoesOn(steps, stop);
  }

  /** There is one place where a call can end, so the contract of `Dispatch` fixes its report. A router-made
      plan is never refused; it is passed over as a whole only if its last step was skipped, and every
      provider failure before the end was recoverable. */
  lemma {:induction false} RouterPlansEndOnce(steps: seq<Step>, stop: nat)
    requires RouterMade(steps) && EndsAt(steps, stop)
    ensures stop < |steps| ==> !IsMalformed(steps[stop])
    ensures stop == |steps| ==> !IsCalled(steps[|steps| - 1])
    ensures forall i | 0 <= i < stop && IsCalled(steps[i]) ::
              steps[i].failure.Some? && IsRecoverable(Kind(steps[i].failure.value))
    ensures forall other: nat | EndsAt(steps, other) :: other == stop
  {
    assert stop == |steps| ==> GoesOn(steps, |steps| - 1);
    forall i | 0 <= i < stop && IsCalled(steps[i])
      ensures steps[i].failure.Some? && IsRecoverable(Kind(steps[i].failure.value))
    {
      assert GoesOn(steps, i);
    }
    forall other: nat | EndsAt(steps, other)
      ensures other == stop
    {
      if other < stop {
        NothingAfterTheEnd(steps, other, stop);
      } else if stop < other {
        NothingAfterTheEnd(steps, stop, other);
      }
    }
  }

  // ----- streams -----

  /** A stream event: the model and the usage it carries, and the failure if it is an error event with one. */
  datatype StreamEvent = StreamEvent(model: string, usage: Option<int>, failure: Option<Failure>, payload: string)

  /** What a stream adds to the accounts: a success, or the first failure, with the model and the usage
      known then. */
  datatype StreamEntry = StreamEntry(model: string, usage: Option<int>, error: Option<ErrorKind>)

  /** When the caller goes away: before an event is received, or while it is being sent. */
  datatype Cancel = Never | BeforeReceive(at: nat) | WhileSending(at: nat)

  function LastUsage(events: seq<StreamEvent>): Option<int> {
    if events == [] then None
    else if events[|events| - 1].usage.Some? then events[|events| - 1].usage
    else LastUsage(events[..|events| - 1])
  }

  /** The last model named in a stream, or the requested one. */
  function LastModel(requested: string, events: seq<StreamEvent>): string {
    if events == [] then requested
    else if events[|events| - 1].model != "" then events[|events| - 1].model
    else LastModel(requested, events[..|events| - 1])
  }

  predicate HasFailure(events: seq<StreamEvent>) {
    exists i :: 0 <= i < |events| && events[i].failure.Some?
  }

  /** The events read from the provider, and whether its stream was read to the end. */
  function Received(events: seq<StreamEvent>, cancel: Cancel): (seq<StreamEvent>, bool) {
    match cancel
    case Never => (events, true)
    case BeforeReceive(at) => if at <= |events| then (events[..at], false) else (events, true)
    case WhileSending(at) => if at < |events| then (events[..at + 1], false) else (events, true)
  }

  function Entries(requested: string, received: seq<StreamEvent>, finished: bool): seq<StreamEntry> {
    if HasFailure(received) then [FirstFailure(requested, received)]
    else if finished then [StreamEntry(LastModel(requested, received), LastUsage(received), None)]
    else []
  }

  /** The record of the first failure, with the model and the usage seen up to it. */
  function FirstFailure(requested: string, events: seq<StreamEvent>): (entry: StreamEntry)
    requires HasFailure(events)
    ensures entry.error.Some?
  {
    var n := |events| - 1;
    if HasFailure(events[..n]) then FirstFailure(requested, events[..n])
    else
      assert events[n].failure.Some? by { FailureGrows(events[..n], events[n]); assert events[..n] + [events[n]] == events; }
      StreamEntry(LastModel(requested, events), LastUsage(events), Some(Kind(events[n].failure.value)))
  }

  /** The running accounts: the last model and usage seen, and the record of the first failure. */
  datatype Accounts = Accounts(model: string, usage: Option<int>, records: seq<StreamEntry>)

  predicate AccountsOf(requested: string, events: seq<StreamEvent>, a: Accounts) {
    a.model == LastModel(requested, events) && a.usage == LastUsage(events) && a.records == Entries(requested, events, false)
  }

  function Account(a: Accounts, e: StreamEvent): Accounts {
    var model := if e.model != "" then e.model else a.model;
    var usage := if e.usage.Some? then e.usage else a.usage;
    Accounts(model, usage,
             if a.records == [] && e.failure.Some? then [StreamEntry(model, usage, Some(Kind(e.failure.value)))] else a.records)
  }

  lemma {:induction false} AccountsGrow(requested: string, events: seq<StreamEvent>, e: StreamEvent, a: Accounts)
    requires AccountsOf(requested, events, a)
    ensures AccountsOf(requested, events + [e], Account(a, e))
  {
    var grown := events + [e];
    assert grown[..|grown| - 1] == events;
    FailureGrows(events, e);
  }

  lemma {:induction false} FailureGrows(events: seq<StreamEvent>, e: StreamEvent)
    ensures HasFailure(events + [e]) <==> HasFailure(events) || e.failure.Some?
  {
    var grown := events + [e];
    assert grown[|events|] == e;
    assert forall j | 0 <= j < |events| :: grown[j] == events[j];
    if HasFailure(events) {
      var j :| 0 <= j < |events| && events[j].failure.Some?;
      assert grown[j].failure.Some?;
    }
  }

  /** Which part of the input is passed on: all that was received, but for an event lost while sending. */
  predicate PassedOn(events: seq<StreamEvent>, cancel: Cancel, out: seq<StreamEvent>) {
    var (received, finished) := Received(events, cancel);
    out == if cancel.WhileSending? && !finished then received[..|received| - 1] else received
  }

  /** Main result for streams: what goes out is a prefix of what came in, in order; at most one record
      is stored, a success exactly if the stream was read to its end without a failure and without
      cancellation, and it carries the last model and usage seen. Quota and health are told of exactly the
      recorded outcome, and the client is charged exactly for a success. */
  method WrapStream(requested: string, events: seq<StreamEvent>, cancel: Cancel)
    returns (out: seq<StreamEvent>, records: seq<StreamEntry>, told: seq<Option<ErrorKind>>, charged: seq<Option<int>>)
    ensures out <= events && PassedOn(events, cancel, out)
    ensures records == Entries(requested, Received(events, cancel).0, Received(events, cancel).1)
    ensures told == if records == [] then [] else [records[0].error]
    ensures charged == if records != [] && records[0].error.None? then [records[0].usage] else []
  {
    out, records, told, charged := [], [], [], [];
    var model, usage := requested, None;
    var i := 0;
    while true
      invariant 0 <= i <= |events|
      invariant out == events[..i]
      invariant AccountsOf(requested, out, Accounts(model, usage, records)) && charged == []
      invariant told == if records == [] then [] else [records[0].error]
      invariant !cancel.Never? ==> i <= cancel.at
      decreases |events| - i
    {
      if cancel == BeforeReceive(i) {
        return;
      }
      if i == |events| {
        assert out == events;
        if records == [] {
          told, records, charged := [None], [StreamEntry(model, usage, None)], [usage];
        }
        return;
      }
      var event := events[i];
      assert events[..i + 1] == out + [event];
      AccountsGrow(requested, out, event, Accounts(model, usage, records));
      if event.model != "" {
        model := event.model;
      }
      if event.usage.Some? {
        usage := event.usage;
      }
      if event.failure.Some? && records == [] {
        var kind := Kind(event.failure.value);
        told, records := [Some(kind)], [StreamEntry(model, usage, Some(kind))];
      }
      if cancel == WhileSending(i) {
        assert events[..i + 1][..i] == events[..i];
        return;
      }
      out := out + [event];
      i := i + 1;
    }
  }
}
