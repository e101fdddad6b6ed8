/**
 Hot reconfiguration: which recorded usage survives a change of windows, and what the
 "usage was cleared" flag says about it.
 */
module QuotaReconfigure {
  import opened Schedules
  import opened QuotaModel

  predicate Compatible(w: Window, other: Window) {
    && w.typeName == other.typeName
    && w.reset == other.reset
    && if w.reset == "rolling" then w.duration == other.duration else KeyOf(w.fixed) == KeyOf(other.fixed)
  }

  predicate UniqueWindows(windows: seq<Window>) {
    forall i, j | 0 <= i < j < |windows| :: windows[i].name != windows[j].name
  }

  predicate HasUsage(s: Subject) {
    exists i :: 0 <= i < |s.windows| && s.windows[i].events != []
  }

  /** A subject as built from its configuration alone. */
  predicate Fresh(s: Subject) {
    && (forall i | 0 <= i < |s.windows| :: s.windows[i].events == [])
    && s.cooldownUntil == s.nextProbeAt == s.lastQuotaExceededAt == s.lastSuccessAt == ZERO_TIME
    && !s.probeInFlight
  }

  predicate WindowSurvives(w: Window, windows: seq<Window>) {
    exists j :: 0 <= j < |windows| && windows[j].name == w.name && windows[j].events == w.events
  }

  /** Every recorded event is still there, in the window of the same name. */
  predicate UsageSurvives(s: Subject, next: Subject) {
    forall i | 0 <= i < |s.windows| && s.windows[i].events != [] :: WindowSurvives(s.windows[i], next.windows)
  }

  predicate AllUsageSurvives(before: map<string, Subject>, next: map<string, Subject>) {
    forall name | name in before && HasUsage(before[name]) :: name in next && UsageSurvives(before[name], next[name])
  }

  /** The new windows carry exactly the events of compatible old windows of the same name. */
  predicate Inherits(s: Subject, target: Subject, next: Subject) {
    && next == target.(windows := next.windows)
    && |next.windows| == |target.windows|
    && forall j | 0 <= j < |target.windows| ::
         && next.windows[j] == target.windows[j].(events := next.windows[j].events)
         && (forall i | 0 <= i < |s.windows| && s.windows[i].name == target.windows[j].name ::
               next.windows[j].events == if Compatible(target.windows[j], s.windows[i]) then s.windows[i].events else [])
         && ((forall i | 0 <= i < |s.windows| :: s.windows[i].name != target.windows[j].name) ==> next.windows[j].events == [])
  }

  method WindowsByName(windows: seq<Window>) returns (byName: map<string, Window>)
    requires UniqueWindows(windows)
    ensures Indexes(byName, windows)
  {
    byName := map[];
    for i := 0 to |windows|
      invariant forall k | 0 <= k < i :: windows[k].name in byName && byName[windows[k].name] == windows[k]
      invariant forall name | name in byName :: exists k :: 0 <= k < i && windows[k].name == name && windows[k] == byName[name]
    {
      byName := byName[windows[i].name := windows[i]];
    }
  }

  function Carried(w: Window, original: map<string, Window>): Window {
    if w.name in original && Compatible(w, original[w.name]) then w.(events := original[w.name].events) else w
  }

  predicate LosesIn(w: Window, original: map<string, Window>) {
    w.name in original && !Compatible(w, original[w.name]) && original[w.name].events != []
  }

  function Names(windows: seq<Window>): set<string> {
    set i | 0 <= i < |windows| :: windows[i].name
  }

  /** First pass: each configured window takes the events of its compatible namesake. */
  method CarryEvents(configured: seq<Window>, original: map<string, Window>) returns (windows: seq<Window>, left: map<string, Window>, cleared: bool)
    requires UniqueWindows(configured)
    ensures |windows| == |configured|
    ensures forall j | 0 <= j < |configured| :: windows[j] == Carried(configured[j], original)
    ensures left == original - Names(configured)
    ensures cleared <==> exists j :: 0 <= j < |configured| && LosesIn(configured[j], original)
  {
    windows, left, cleared := [], original, false;
    for i := 0 to |configured|
      invariant |windows| == i
      invariant left == original - Names(configured[..i])
      invariant forall j | 0 <= j < i :: windows[j] == Carried(configured[j], original)
      invariant cleared <==> exists j :: 0 <= j < i && LosesIn(configured[j], original)
    {
      var w := configured[i];
      assert configured[i].name !in Names(configured[..i]);
      assert w.name in left <==> w.name in original;
      NamesGrow(configured, i);
      if w.name !in left {
        windows := windows + [w];
      } else {
        var previous := left[w.name];
        left := left - {w.name};
        if Compatible(w, previous) {
          windows := windows + [w.(events := previous.events)];
        } else {
          windows := windows + [w];
          cleared := cleared || |previous.events| > 0;
        }
      }
    }
    assert configured[..|configured|] == configured;
  }

  lemma {:induction false} NamesGrow(windows: seq<Window>, i: nat)
    requires i < |windows|
    ensures Names(windows[..i + 1]) == Names(windows[..i]) + {windows[i].name}
  {
    forall name
      ensures name in Names(windows[..i + 1]) <==> name in Names(windows[..i]) + {windows[i].name}
    {
      if name in Names(windows[..i]) {
        var j :| 0 <= j < i && windows[..i][j].name == name;
        assert windows[..i + 1][j].name == name;
      }
      if name == windows[i].name { assert windows[..i + 1][i].name == name; }
      if name in Names(windows[..i + 1]) && name != windows[i].name {
        var j :| 0 <= j < i + 1 && windows[..i + 1][j].name == name;
        assert windows[..i][j].name == name;
      }
    }
  }

  /** Second pass: does any window that was not carried over still hold events? */
  method AnyEvents(windows: map<string, Window>) returns (found: bool)
    ensures found <==> exists name :: name in windows && windows[name].events != []
  {
    found := false;
    var names := windows.Keys;
    while names != {}
      invariant names <= windows.Keys
      invariant found <==> exists name :: name in windows.Keys - names && windows[name].events != []
    {
      var name :| name in names;
      found := found || |windows[name].events| > 0;
      names := names - {name};
    }
  }

  /** Carries events over; `cleared` says that some recorded event was lost. */
  method MergeWindows(s: Subject, target: Subject) returns (next: Subject, cleared: bool)
    requires Fresh(target) && UniqueWindows(s.windows) && UniqueWindows(target.windows)
    ensures Inherits(s, target, next)
    ensures cleared <==> !UsageSurvives(s, next)
  {
    var original := WindowsByName(s.windows);
    var windows, left, incompatible := CarryEvents(target.windows, original);
    var removed := AnyEvents(left);
    cleared := incompatible || removed;
    next := target.(windows := windows);
    CarriedInherits(s, target, windows, original);
    if cleared {
      if incompatible {
        ghost var j :| 0 <= j < |target.windows| && LosesIn(target.windows[j], original);
        LossShows(s, target.windows, windows, original, target.windows[j].name);
      } else {
        ghost var name :| name in left && left[name].events != [];
        LossShows(s, target.windows, windows, original, name);
      }
    } else {
      forall i | 0 <= i < |s.windows| && s.windows[i].events != []
        ensures WindowSurvives(s.windows[i], windows)
      {
        assert s.windows[i].name in original && s.windows[i].name !in left;
        SurvivesIffCarried(s.windows[i], target.windows, windows, original);
      }
    }
  }

  /** `byName` indexes `windows` by name. */
  predicate Indexes(byName: map<string, Window>, windows: seq<Window>) {
    && (forall i | 0 <= i < |windows| :: windows[i].name in byName && byName[windows[i].name] == windows[i])
    && (forall name | name in byName :: exists i :: 0 <= i < |windows| && windows[i].name == name && windows[i] == byName[name])
  }

  lemma {:induction false} CarriedInherits(s: Subject, target: Subject, windows: seq<Window>, original: map<string, Window>)
    requires Fresh(target) && Indexes(original, s.windows) && |windows| == |target.windows|
    requires forall j | 0 <= j < |windows| :: windows[j] == Carried(target.windows[j], original)
    ensures Inherits(s, target, target.(windows := windows))
  {
    forall j | 0 <= j < |windows|
      ensures windows[j] == target.windows[j].(events := windows[j].events)
      ensures forall i | 0 <= i < |s.windows| && s.windows[i].name == target.windows[j].name ::
                windows[j].events == if Compatible(target.windows[j], s.windows[i]) then s.windows[i].events else []
      ensures (forall i | 0 <= i < |s.windows| :: s.windows[i].name != target.windows[j].name) ==> windows[j].events == []
    {
    }
  }

  lemma {:induction false} LossShows(s: Subject, configured: seq<Window>, windows: seq<Window>, original: map<string, Window>, name: string)
    requires UniqueWindows(configured) && |windows| == |configured|
    requires forall j | 0 <= j < |configured| :: configured[j].events == [] && windows[j] == Carried(configured[j], original)
    requires Indexes(original, s.windows)
    requires name in original && original[name].events != []
    requires name !in Names(configured) || LostBy(original[name], configured)
    ensures exists i :: 0 <= i < |s.windows| && s.windows[i].events != [] && !WindowSurvives(s.windows[i], windows)
  {
    var i :| 0 <= i < |s.windows| && s.windows[i].name == name && s.windows[i] == original[name];
    SurvivesIffCarried(s.windows[i], configured, windows, original);
  }

  predicate LostBy(w: Window, configured: seq<Window>) {
    exists j :: 0 <= j < |configured| && configured[j].name == w.name && !Compatible(configured[j], w)
  }

  lemma {:induction false} SurvivesIffCarried(w: Window, configured: seq<Window>, windows: seq<Window>, original: map<string, Window>)
    requires UniqueWindows(configured) && |windows| == |configured|
    requires w.name in original && original[w.name] == w && w.events != []
    requires forall j | 0 <= j < |configured| :: configured[j].events == [] && windows[j] == Carried(configured[j], original)
    ensures WindowSurvives(w, windows) <==> w.name in Names(configured) && !LostBy(w, configured)
  {
    if WindowSurvives(w, windows) {
      var j :| 0 <= j < |windows| && windows[j].name == w.name && windows[j].events == w.events;
      assert configured[j].name == w.name && Compatible(configured[j], w);
    }
    if w.name in Names(configured) && !LostBy(w, configured) {
      var j :| 0 <= j < |configured| && configured[j].name == w.name;
      assert windows[j].name == w.name && windows[j].events == w.events;
    }
  }

  /** How a reconfigured subject is made from the old one: an outbound keeps its cooldown state;
      windows are carried over unless the outbound's reset_all schedule changed. */
  predicate Replaces(s: Subject, target: Subject, outbound: bool, next: Subject) {
    && (if outbound && KeyOf(s.resetAll) != KeyOf(target.resetAll) then next.windows == target.windows
        else Inherits(s, target, target.(windows := next.windows)))
    && next ==
       if outbound then target.(
         windows := next.windows, cooldownUntil := s.cooldownUntil, nextProbeAt := s.nextProbeAt,
         lastQuotaExceededAt := s.lastQuotaExceededAt, lastSuccessAt := s.lastSuccessAt, probeInFlight := s.probeInFlight)
       else target.(windows := next.windows)
  }

  method Replace(s: Subject, target: Subject, outbound: bool) returns (next: Subject, cleared: bool)
    requires Fresh(target) && UniqueWindows(s.windows) && UniqueWindows(target.windows)
    ensures Replaces(s, target, outbound, next)
    ensures cleared <==> HasUsage(s) && !UsageSurvives(s, next)
  {
    if outbound && KeyOf(s.resetAll) != KeyOf(target.resetAll) {
      next := target;
      cleared := HasUsage(s);
      if i :| 0 <= i < |s.windows| && s.windows[i].events != [] {
        assert !WindowSurvives(s.windows[i], next.windows);
      }
    } else {
      next, cleared := MergeWindows(s, target);
    }
    if outbound {
      next := next.(
        cooldownUntil := s.cooldownUntil, nextProbeAt := s.nextProbeAt,
        lastQuotaExceededAt := s.lastQuotaExceededAt, lastSuccessAt := s.lastSuccessAt, probeInFlight := s.probeInFlight);
    }
  }

  predicate Installed(subjects: map<string, Subject>, target: Subject, outbound: bool, next: map<string, Subject>) {
    && target.name in next
    && if target.name in subjects then Replaces(subjects[target.name], target, outbound, next[target.name])
       else next[target.name] == target
  }

  lemma {:induction false} InstalledStays(subjects: map<string, Subject>, target: Subject, outbound: bool, next: map<string, Subject>, name: string, other: Subject)
    requires Installed(subjects, target, outbound, next) && target.name != name
    ensures Installed(subjects, target, outbound, next[name := other])
  {
    assert next[name := other][target.name] == next[target.name];
  }

  ghost predicate KeptSoFar(subjects: map<string, Subject>, next: map<string, Subject>) {
    forall name | name in subjects && name in next && HasUsage(subjects[name]) :: UsageSurvives(subjects[name], next[name])
  }

  lemma {:induction false} KeptGrows(subjects: map<string, Subject>, next: map<string, Subject>, name: string, s: Subject)
    requires name !in next
    ensures KeptSoFar(subjects, next[name := s]) <==>
            KeptSoFar(subjects, next) && (name in subjects && HasUsage(subjects[name]) ==> UsageSurvives(subjects[name], s))
  {
    var grown := next[name := s];
    assert forall n | n in next :: n in grown && grown[n] == next[n];
    if KeptSoFar(subjects, grown) {
      forall n | n in subjects && n in next && HasUsage(subjects[n])
        ensures UsageSurvives(subjects[n], next[n])
      {
        assert UsageSurvives(subjects[n], grown[n]);
      }
    }
  }

  predicate AllInstalled(subjects: map<string, Subject>, configured: seq<Subject>, n: nat, outbound: bool, next: map<string, Subject>)
    requires n <= |configured|
  {
    forall i | 0 <= i < n :: Installed(subjects, configured[i], outbound, next)
  }

  lemma {:induction false} AllInstalledGrows(subjects: map<string, Subject>, configured: seq<Subject>, n: nat, outbound: bool, next: map<string, Subject>, s: Subject)
    requires n < |configured| && AllInstalled(subjects, configured, n, outbound, next)
    requires forall i | 0 <= i < n :: configured[i].name != configured[n].name
    requires Installed(subjects, configured[n], outbound, next[configured[n].name := s])
    ensures AllInstalled(subjects, configured, n + 1, outbound, next[configured[n].name := s])
  {
    forall i | 0 <= i < n
      ensures Installed(subjects, configured[i], outbound, next[configured[n].name := s])
    {
      InstalledStays(subjects, configured[i], outbound, next, configured[n].name, s);
    }
  }

  /** First pass: build every configured subject. */
  method Install(subjects: map<string, Subject>, configured: seq<Subject>, outbound: bool) returns (next: map<string, Subject>, cleared: bool)
    requires forall i | 0 <= i < |configured| :: Fresh(configured[i]) && UniqueWindows(configured[i].windows)
    requires forall i, j | 0 <= i < j < |configured| :: configured[i].name != configured[j].name
    requires forall name | name in subjects :: UniqueWindows(subjects[name].windows)
    ensures next.Keys == set i | 0 <= i < |configured| :: configured[i].name
    ensures AllInstalled(subjects, configured, |configured|, outbound, next)
    ensures !cleared <==> KeptSoFar(subjects, next)
  {
    next, cleared := map[], false;
    for i := 0 to |configured|
      invariant next.Keys == set k | 0 <= k < i :: configured[k].name
      invariant AllInstalled(subjects, configured, i, outbound, next)
      invariant !cleared <==> KeptSoFar(subjects, next)
    {
      var target := configured[i];
      var replaced, lost := target, false;
      if target.name in subjects {
        replaced, lost := Replace(subjects[target.name], target, outbound);
      }
      KeptGrows(subjects, next, target.name, replaced);
      AllInstalledGrows(subjects, configured, i, outbound, next, replaced);
      next := next[target.name := replaced];
      cleared := lost || cleared;
    }
  }

  /** Second pass: was a subject with usage dropped from the configuration? */
  method AnyDropped(subjects: map<string, Subject>, next: map<string, Subject>) returns (dropped: bool)
    ensures dropped <==> exists name :: name in subjects && name !in next && HasUsage(subjects[name])
  {
    dropped := false;
    var names := subjects.Keys;
    while names != {}
      invariant names <= subjects.Keys
      invariant dropped <==> exists name :: name in subjects.Keys - names && name !in next && HasUsage(subjects[name])
    {
      var name :| name in names;
      dropped := dropped || (name !in next && HasUsage(subjects[name]));
      names := names - {name};
    }
  }

  /** Main result: the flag is false exactly when no recorded event was lost. */
  method Reconfigure(subjects: map<string, Subject>, configured: seq<Subject>, outbound: bool) returns (next: map<string, Subject>, changed: bool)
    requires forall i | 0 <= i < |configured| :: Fresh(configured[i]) && UniqueWindows(configured[i].windows)
    requires forall i, j | 0 <= i < j < |configured| :: configured[i].name != configured[j].name
    requires forall name | name in subjects :: UniqueWindows(subjects[name].windows)
    ensures next.Keys == set i | 0 <= i < |configured| :: configured[i].name
    ensures AllInstalled(subjects, configured, |configured|, outbound, next)
    ensures !changed <==> AllUsageSurvives(subjects, next)
  {
    var cleared, dropped;
    next, cleared := Install(subjects, configured, outbound);
    dropped := AnyDropped(subjects, next);
    changed := cleared || dropped;
  }

  /** A reconfigured outbound stays in its outage; a client has none. */
  lemma {:induction false} OutagesOutliveReconfiguration(s: Subject, target: Subject, outbound: bool, next: Subject)
    requires Replaces(s, target, outbound, next) && Fresh(target)
    ensures outbound ==>
              && next.cooldownUntil == s.cooldownUntil && next.nextProbeAt == s.nextProbeAt && next.probeInFlight == s.probeInFlight
              && next.lastQuotaExceededAt == s.lastQuotaExceededAt && next.lastSuccessAt == s.lastSuccessAt
    ensures !outbound ==> next.cooldownUntil == ZERO_TIME && !next.probeInFlight
    ensures next.cooldown == target.cooldown && next.probeInterval == target.probeInterval && next.resetAll == target.resetAll
  {
  }
}
