/**
 Saving quota state and loading it into a tracker built from the same configuration:
 nothing but the in-flight probe flag is lost, so both trackers decide alike.

 Texts are abstracted to what they denote: a formatted instant is `Some(instant)` and the
 empty text is `None`.
 */
module QuotaPersistence {
  import opened Common
  import opened Schedules
  import opened QuotaModel
  import opened QuotaPruning
  import opened QuotaReconfigure

  datatype SavedEvent = SavedEvent(at: Option<int>, requests: int, tokens: int, cost: int, unpriced: int)

  datatype WindowKey = ByDuration(duration: int) | BySchedule(key: Key)

  /** `legacy` marks the oldest event format; `duration` is absent in some old files. */
  datatype SavedWindow = SavedWindow(
    typeName: string, reset: string, duration: Option<int>, schedule: WindowKey, legacy: bool, events: seq<SavedEvent>)

  datatype SavedSubject = SavedSubject(
    name: string,
    inbound: string,
    cooldownUntil: Option<int>,
    nextProbeAt: Option<int>,
    lastQuotaExceededAt: Option<int>,
    lastSuccessAt: Option<int>,
    resetAll: Key,
    windows: map<string, SavedWindow>)

  datatype SavedState = SavedState(version: int, subjects: map<string, SavedSubject>)

  /** The version that is written. */
  const VERSION := 3

  function FormatTime(t: int): Option<int> {
    if t == ZERO_TIME then None else Some(t)
  }

  function ScheduleKey(w: Window): WindowKey {
    if w.reset == "rolling" then ByDuration(w.duration) else BySchedule(KeyOf(w.fixed))
  }

  // ----- saving -----

  function SaveEvent(e: Event): SavedEvent {
    SavedEvent(FormatTime(e.at), e.requests, e.tokens, e.cost, e.unpriced)
  }

  function SaveWindow(w: Window): SavedWindow {
    SavedWindow(w.typeName, w.reset, Some(w.duration), ScheduleKey(w), false,
                seq(|w.events|, i requires 0 <= i < |w.events| => SaveEvent(w.events[i])))
  }

  function SaveWindows(windows: seq<Window>): map<string, SavedWindow> {
    if windows == [] then map[]
    else SaveWindows(windows[..|windows| - 1])[windows[|windows| - 1].name := SaveWindow(windows[|windows| - 1])]
  }

  function Save(s: Subject): SavedSubject {
    SavedSubject(s.name, s.inbound, FormatTime(s.cooldownUntil), FormatTime(s.nextProbeAt),
                 FormatTime(s.lastQuotaExceededAt), FormatTime(s.lastSuccessAt), KeyOf(s.resetAll), SaveWindows(s.windows))
  }

  // ----- loading -----

  /** Inserts after every event that is not later, as a stable sort does. */
  function InsertEvent(events: seq<Event>, e: Event): (r: seq<Event>)
    requires Sorted(events)
    ensures Sorted(r) && |r| == |events| + 1
    ensures r[|r| - 1] == if events == [] || events[|events| - 1].at <= e.at then e else events[|events| - 1]
  {
    if events == [] || events[|events| - 1].at <= e.at then events + [e]
    else InsertEvent(events[..|events| - 1], e) + [events[|events| - 1]]
  }

  function SortEvents(events: seq<Event>): (r: seq<Event>)
    ensures Sorted(r)
  {
    if events == [] then []
    else InsertEvent(SortEvents(events[..|events| - 1]), events[|events| - 1])
  }

  /** The events of one instant, in order. */
  function At(events: seq<Event>, t: int): seq<Event> {
    if events == [] then []
    else At(events[..|events| - 1], t) + if events[|events| - 1].at == t then [events[|events| - 1]] else []
  }

  lemma {:induction false} AtAppend(events: seq<Event>, e: Event, t: int)
    ensures At(events + [e], t) == At(events, t) + if e.at == t then [e] else []
  {
    assert (events + [e])[..|events|] == events;
  }

  lemma {:induction false} InsertIsStable(events: seq<Event>, e: Event, t: int)
    requires Sorted(events)
    ensures At(InsertEvent(events, e), t) == At(events, t) + if e.at == t then [e] else []
  {
    if events == [] || events[|events| - 1].at <= e.at {
      AtAppend(events, e, t);
    } else {
      var n := |events| - 1;
      var front := At(events[..n], t);
      InsertIsStable(events[..n], e, t);
      AtAppend(InsertEvent(events[..n], e), events[n], t);
      assert front + [] == front;
      assert At(events, t) + [] == At(events, t);
    }
  }

  lemma {:induction false} InsertAddsOne(events: seq<Event>, e: Event)
    requires Sorted(events)
    ensures multiset(InsertEvent(events, e)) == multiset(events) + multiset{e}
  {
    if events != [] && events[|events| - 1].at > e.at {
      InsertAddsOne(events[..|events| - 1], e);
      assert events == events[..|events| - 1] + [events[|events| - 1]];
    }
  }

  lemma {:induction false} SortKeepsAll(events: seq<Event>)
    ensures multiset(SortEvents(events)) == multiset(events)
  {
    if events != [] {
      var n := |events| - 1;
      SortKeepsAll(events[..n]);
      InsertAddsOne(SortEvents(events[..n]), events[n]);
      assert events == events[..n] + [events[n]];
    }
  }

  lemma {:induction false} SortKeepsTies(events: seq<Event>, t: int)
    ensures At(SortEvents(events), t) == At(events, t)
  {
    if events != [] {
      var n := |events| - 1;
      SortKeepsTies(events[..n], t);
      InsertIsStable(SortEvents(events[..n]), events[n], t);
    }
  }

  /** Loaded events are the saved ones, sorted; events of one instant keep the order they were saved in. */
  lemma {:induction false} SortIsStable(events: seq<Event>, t: int)
    ensures Sorted(SortEvents(events)) && multiset(SortEvents(events)) == multiset(events)
    ensures At(SortEvents(events), t) == At(events, t)
  {
    SortKeepsAll(events);
    SortKeepsTies(events, t);
  }

  /** Events whose time could be read; the others are skipped. */
  function ReadEvents(saved: seq<SavedEvent>): seq<Event> {
    if saved == [] then []
    else
      var last := saved[|saved| - 1];
      ReadEvents(saved[..|saved| - 1]) +
      if last.at.Some? then [Event(last.at.value, last.requests, last.tokens, last.cost, last.unpriced)] else []
  }

  /** Whether saved events of some version may be taken over by a window. */
  predicate PersistedCompatible(w: Window, saved: SavedWindow, version: int, client: bool) {
    if version < 2 || saved.legacy then
      && !(client && w.typeName != "requests")
      && w.reset == "rolling" && (saved.duration.None? || saved.duration.value == w.duration)
    else if version < 3 then
      && !(client && w.typeName != "requests")
      && saved.reset == w.reset && saved.schedule == ScheduleKey(w)
    else saved.typeName == w.typeName && saved.reset == w.reset && saved.schedule == ScheduleKey(w)
  }

  function LoadWindow(w: Window, saved: map<string, SavedWindow>, version: int, client: bool): Window {
    if w.name in saved && PersistedCompatible(w, saved[w.name], version, client)
    then w.(events := SortEvents(ReadEvents(saved[w.name].events)))
    else w
  }

  function Or(saved: Option<int>, current: int): int {
    if saved.Some? then saved.value else current
  }

  function Load(s: Subject, saved: SavedSubject, version: int, client: bool, now: int): Subject {
    Rollover(s.(
      cooldownUntil := Or(saved.cooldownUntil, s.cooldownUntil),
      nextProbeAt := Or(saved.nextProbeAt, s.nextProbeAt),
      lastQuotaExceededAt := Or(saved.lastQuotaExceededAt, s.lastQuotaExceededAt),
      lastSuccessAt := Or(saved.lastSuccessAt, s.lastSuccessAt),
      windows :=
        if version < 2 || saved.resetAll == KeyOf(s.resetAll)
        then seq(|s.windows|, i requires 0 <= i < |s.windows| => LoadWindow(s.windows[i], saved.windows, version, client))
        else s.windows), now)
  }

  /** A subject as its configuration alone builds it. */
  function Blank(s: Subject): Subject {
    s.(windows := seq(|s.windows|, i requires 0 <= i < |s.windows| => s.windows[i].(events := [])),
       cooldownUntil := ZERO_TIME, nextProbeAt := ZERO_TIME, lastQuotaExceededAt := ZERO_TIME,
       lastSuccessAt := ZERO_TIME, probeInFlight := false)
  }

  // ----- round trip -----

  lemma {:induction false} SortedStays(events: seq<Event>)
    requires Sorted(events)
    ensures SortEvents(events) == events
  {
    if events != [] {
      var n := |events| - 1;
      SortedStays(events[..n]);
      assert events == events[..n] + [events[n]];
    }
  }

  lemma {:induction false} EventsRoundTrip(events: seq<Event>, saved: seq<SavedEvent>)
    requires |saved| == |events|
    requires forall i | 0 <= i < |events| :: saved[i] == SaveEvent(events[i])
    requires forall i | 0 <= i < |events| :: events[i].at > ZERO_TIME
    ensures ReadEvents(saved) == events
  {
    if events != [] {
      var n := |events| - 1;
      EventsRoundTrip(events[..n], saved[..n]);
      assert events == events[..n] + [events[n]];
    }
  }

  lemma {:induction false} SavedUnderItsName(windows: seq<Window>, i: nat)
    requires UniqueWindows(windows) && i < |windows|
    ensures windows[i].name in SaveWindows(windows) && SaveWindows(windows)[windows[i].name] == SaveWindow(windows[i])
  {
    var n := |windows| - 1;
    if i < n {
      SavedUnderItsName(windows[..n], i);
      assert windows[..n][i] == windows[i];
      assert windows[i].name != windows[n].name;
    }
  }

  /** Recorded in order, at real clock readings; `QuotaRuns` shows that runs keep this. */
  predicate Recorded(w: Window) {
    Sorted(w.events) && forall i | 0 <= i < |w.events| :: w.events[i].at > ZERO_TIME
  }

  lemma {:induction false} RollTwice(resetAll: Schedule, w: Window, now: int)
    requires Recorded(w)
    ensures Recorded(RollWindow(resetAll, w, now))
    ensures RollWindow(resetAll, RollWindow(resetAll, w, now), now) == RollWindow(resetAll, w, now)
  {
    var cutoff := Cutoff(resetAll, w, now);
    RollIsOneDrop(resetAll, w, now);
    var k := DropBeforeSplits(w.events, cutoff);
    assert forall i | 0 <= i < |w.events[k..]| :: w.events[k..][i] == w.events[k + i];
    RollIsOneDrop(resetAll, RollWindow(resetAll, w, now), now);
    DropTwice(w.events, cutoff, cutoff);
  }

  lemma {:induction false} WindowRoundTrip(windows: seq<Window>, client: bool, i: nat)
    requires UniqueWindows(windows) && i < |windows| && Recorded(windows[i])
    ensures LoadWindow(windows[i].(events := []), SaveWindows(windows), VERSION, client) == windows[i]
  {
    SavedUnderItsName(windows, i);
    var saved := SaveWindow(windows[i]);
    EventsRoundTrip(windows[i].events, saved.events);
    SortedStays(windows[i].events);
  }

  /** Main result: exporting at `now` and importing into a blank subject of the same configuration at
      the same clock reading restores the exported subject, except that no probe is in flight. */
  lemma {:induction false} ExportImportRoundTrip(s: Subject, client: bool, now: int)
    requires UniqueWindows(s.windows)
    requires forall i | 0 <= i < |s.windows| :: Recorded(s.windows[i])
    ensures Load(Blank(s), Save(Rollover(s, now)), VERSION, client, now) == Rollover(s, now).(probeInFlight := false)
  {
    var rolled := Rollover(s, now);
    var saved := Save(rolled);
    forall i | 0 <= i < |s.windows|
      ensures rolled.windows[i].name == s.windows[i].name
      ensures Recorded(rolled.windows[i])
      ensures RollWindow(s.resetAll, rolled.windows[i], now) == rolled.windows[i]
    {
      RollTwice(s.resetAll, s.windows[i], now);
    }
    assert UniqueWindows(rolled.windows);
    forall i | 0 <= i < |s.windows|
      ensures LoadWindow(Blank(s).windows[i], saved.windows, VERSION, client) == rolled.windows[i]
    {
      WindowRoundTrip(rolled.windows, client, i);
      assert Blank(s).windows[i] == rolled.windows[i].(events := []);
    }
    assert Load(Blank(s), saved, VERSION, client, now).windows == rolled.windows;
  }

  /** Hence equal decisions, at every later time, whenever no probe was in flight. */
  lemma {:induction false} RestoredDecidesAlike(s: Subject, client: bool, now: int, allowProbe: bool, t: int)
    requires UniqueWindows(s.windows)
    requires forall i | 0 <= i < |s.windows| :: Recorded(s.windows[i])
    requires !Rollover(s, now).probeInFlight
    ensures Decide(Load(Blank(s), Save(Rollover(s, now)), VERSION, client, now), allowProbe, t) == Decide(Rollover(s, now), allowProbe, t)
  {
    ExportImportRoundTrip(s, client, now);
  }

  /** Saved events are taken over exactly by the windows a reconfiguration would let inherit them. */
  lemma {:induction false} LoadsLikeReconfiguring(w: Window, saved: Window, client: bool)
    ensures PersistedCompatible(w, SaveWindow(saved), VERSION, client) <==> Compatible(w, saved)
  {
  }

  /** Older files: version 2 does not tell types apart, so a client takes over request windows only; version 1 and the
      oldest event format know nothing but rolling windows. */
  lemma {:induction false} LoadsOlderFiles(w: Window, saved: SavedWindow, version: int, client: bool)
    requires client ==> w.typeName == "requests"
    ensures version == 2 && !saved.legacy ==>
              (PersistedCompatible(w, saved, version, client) <==> saved.reset == w.reset && saved.schedule == ScheduleKey(w))
    ensures version == 1 || saved.legacy ==>
              (PersistedCompatible(w, saved, version, client) <==> w.reset == "rolling" && saved.duration in {None, Some(w.duration)})
  {
  }

  lemma {:induction false} ClientsTakeRequestsOnly(w: Window, saved: SavedWindow, version: int)
    requires w.typeName != "requests" && (version < 3 || saved.legacy)
    ensures !PersistedCompatible(w, saved, version, true)
  {
  }
}
