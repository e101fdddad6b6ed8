/**
 Persisting sessions: a save is skipped when the store's generation equals the persisted one.
 Skipping is sound over every run in which store operations interleave with the parts of a
 save and loads happen while no save is under way.
 */
module SessionSnapshots {
  import opened Common
  import opened Sessions
  import opened SessionStore

  datatype Snapshot = Snapshot(generation: nat, list: seq<Session>)

  /** The running system: memory, the file, the generation believed to be on disk, and the
      snapshot of a save that has been taken but not yet written. */
  datatype System = System(store: Store, disk: Option<Snapshot>, persisted: nat, saving: Option<Snapshot>)

  function OnDisk(disk: Option<Snapshot>): map<string, Session> {
    if disk.None? then map[] else ById(disk.value.list)
  }

  // ----- the snapshot store as an object -----

  class SnapshotStore {
    const store: SessionMap
    var disk: Option<Snapshot>
    var persisted: nat

    constructor (store: SessionMap, disk: Option<Snapshot>)
      ensures this.store == store && this.disk == disk && persisted == 0
    {
      this.store, this.disk, persisted := store, disk, 0;
    }

    /** The running system as this object sees it between its calls. */
    ghost function State(): System
      reads this, store
    {
      System(store.State(), disk, persisted, None)
    }

    /** Takes over what is on disk, if anything. `readable` says whether the file can be read and
        decoded and is of the supported version. */
    method Load(readable: bool, now: int) returns (ok: bool)
      modifies this, store
      ensures ok <==> readable || disk.None?
      ensures State() == if ok then LoadStep(old(State()), now) else old(State())
    {
      if disk.None? {
        return true;
      }
      if !readable {
        return false;
      }
      store.ImportList(disk.value.list, disk.value.generation, now);
      persisted := disk.value.generation;
      return true;
    }

    /** Writes the sessions, unless that is not forced and the generation is already persisted.
        `outcome` says how the file system takes the write. The save is the two halves of the
        protocol below in a row, for some order of the exported list. */
    method Save(force: bool, outcome: Outcome) returns (ok: bool)
      requires forall id | id in store.sessions :: store.sessions[id].id == id
      modifies this
      ensures ok <==> Skips(old(State()), force) || outcome.Written?
      ensures exists list :: ById(list) == store.sessions && State() == SaveStep(old(State()), force, list, outcome)
      ensures ok ==> force || store.generation != old(persisted) ==> persisted == store.generation && OnDisk(disk) == store.sessions
    {
      var list := store.Export();
      assert ById(list) == store.sessions;
      if !force && store.generation == persisted {
        assert State() == SaveStep(old(State()), force, list, outcome);
        return true;
      }
      if outcome.FailedBefore? {
        assert State() == SaveStep(old(State()), force, list, outcome);
        return false;
      }
      disk := Some(Snapshot(store.generation, list));
      if outcome.FailedAfter? {
        assert State() == SaveStep(old(State()), force, list, outcome);
        return false;
      }
      persisted := store.generation;
      assert State() == SaveStep(old(State()), force, list, outcome);
      return true;
    }
  }

  // ----- the protocol, step by step -----

  /** How a write can end: it replaces the file, fails before that, or fails after that. */
  datatype Outcome = Written | FailedBefore | FailedAfter

  datatype Step =
    | Operate(op: Op)
    | BeginSave(force: bool, list: seq<Session>)
    | EndSave(outcome: Outcome)
    | LoadAt(now: int)

  function LoadStep(s: System, now: int): System {
    if s.disk.None? then s
    else s.(store := Import(s.disk.value.list, s.disk.value.generation, now), persisted := s.disk.value.generation)
  }

  /** Whether a save started now would be skipped. */
  predicate Skips(s: System, force: bool) {
    !force && s.store.generation == s.persisted
  }

  predicate Enabled(s: System, step: Step) {
    match step
    case Operate(_) => true
    case BeginSave(_, list) => s.saving.None? && ById(list) == s.store.sessions
    case EndSave(_) => s.saving.Some?
    case LoadAt(_) => s.saving.None?
  }

  function Next(s: System, step: Step): System
    requires Enabled(s, step)
  {
    match step
    case Operate(op) => s.(store := Apply(s.store, op))
    case BeginSave(force, list) => if Skips(s, force) then s else s.(saving := Some(Snapshot(s.store.generation, list)))
    case EndSave(outcome) =>
      (match outcome
       case Written => s.(disk := s.saving, persisted := s.saving.value.generation, saving := None)
       case FailedBefore => s.(saving := None)
       case FailedAfter => s.(disk := s.saving, saving := None))
    case LoadAt(now) => LoadStep(s, now)
  }

  /** A save without anything in between: both halves, or nothing if it is skipped. */
  function SaveStep(s: System, force: bool, list: seq<Session>, outcome: Outcome): System
    requires Enabled(s, BeginSave(force, list))
  {
    var begun := Next(s, BeginSave(force, list));
    if begun.saving.None? then begun else Next(begun, EndSave(outcome))
  }

  ghost predicate IsRun(states: seq<System>, steps: seq<Step>) {
    && |states| == |steps| + 1
    && forall i | 0 <= i < |steps| :: Enabled(states[i], steps[i]) && states[i + 1] == Next(states[i], steps[i])
  }

  // ----- soundness -----

  /** A store operation either changes nothing or raises the generation. */
  lemma {:induction false} OperationsAreCounted(st: Store, op: Op)
    ensures Apply(st, op).generation >= st.generation
    ensures Apply(st, op).generation == st.generation ==> Apply(st, op) == st
  {
    if op.DoSweep? {
      var outcomes := Outcomes(st.sessions, op.retention, op.transientTtl, op.now);
      var touched := Touched(st.sessions, outcomes, {});
      if |touched| == 0 {
        assert touched == {};
        assert forall id | id in st.sessions :: id !in touched;
        assert Settle(st.sessions, outcomes, {}) == st.sessions;
      }
    }
  }

  /** An import that normalizes nothing takes the list over as it is. */
  lemma {:induction false} PlainImport(list: seq<Session>, now: int)
    requires !Normalizes(list, now)
    ensures Recovered(list, now) == ById(list)
  {
    if list != [] {
      var n := |list| - 1;
      assert forall i | 0 <= i < n :: list[..n][i] == list[i];
      PlainImport(list[..n], now);
      assert !NeedsRecovery(list[n], now);
    }
  }

  predicate Clean(s: System) {
    && s.store.generation >= s.persisted
    && (s.store.generation == s.persisted ==> s.store.sessions == OnDisk(s.disk))
    && (s.saving.Some? ==>
          && s.persisted <= s.saving.value.generation <= s.store.generation
          && (s.saving.value.generation == s.store.generation ==> ById(s.saving.value.list) == s.store.sessions))
  }

  lemma {:induction false} StepKeepsClean(s: System, step: Step)
    requires Clean(s) && Enabled(s, step)
    ensures Clean(Next(s, step))
  {
    match step
    case Operate(op) => OperationsAreCounted(s.store, op);
    case BeginSave(_, _) =>
    case EndSave(_) =>
    case LoadAt(now) =>
      if s.disk.Some? && !Normalizes(s.disk.value.list, now) {
        PlainImport(s.disk.value.list, now);
      }
  }

  /** The first load of a fresh store, whatever the file holds, starts clean. */
  lemma {:induction false} StartIsClean(disk: Option<Snapshot>, now: int)
    ensures Clean(LoadStep(System(Store(map[], 0), disk, 0, None), now))
  {
    if disk.Some? && !Normalizes(disk.value.list, now) {
      PlainImport(disk.value.list, now);
    }
  }

  lemma {:induction false} RunsStayClean(states: seq<System>, steps: seq<Step>, n: nat)
    requires IsRun(states, steps) && Clean(states[0]) && n <= |steps|
    ensures forall i | 0 <= i <= n :: Clean(states[i])
  {
    if n > 0 {
      RunsStayClean(states, steps, n - 1);
      StepKeepsClean(states[n - 1], steps[n - 1]);
    }
  }

  /** Main result: in every run from a loaded start, whenever a save is skipped the sessions on
      disk are the sessions in memory. */
  lemma {:induction false} SkippedSavesLoseNothing(disk: Option<Snapshot>, now: int, states: seq<System>, steps: seq<Step>, i: nat)
    requires IsRun(states, steps) && i < |states|
    requires states[0] == LoadStep(System(Store(map[], 0), disk, 0, None), now)
    requires Skips(states[i], false)
    ensures OnDisk(states[i].disk) == states[i].store.sessions
  {
    StartIsClean(disk, now);
    RunsStayClean(states, steps, i);
  }

  /** Between loads the generation names the sessions: equal generations, equal sessions. */
  lemma {:induction false} EqualGenerationsEqualSessions(states: seq<System>, steps: seq<Step>, i: nat, j: nat)
    requires IsRun(states, steps) && i <= j <= |steps|
    requires forall k | i <= k < j :: !steps[k].LoadAt?
    ensures states[i].store.generation <= states[j].store.generation
    ensures states[i].store.generation == states[j].store.generation ==> states[i].store == states[j].store
    decreases j - i
  {
    if i < j {
      EqualGenerationsEqualSessions(states, steps, i, j - 1);
      if steps[j - 1].Operate? {
        OperationsAreCounted(states[j - 1].store, steps[j - 1].op);
      }
      assert states[j] == Next(states[j - 1], steps[j - 1]);
    }
  }

  /** A load during a save would break this: the save then finishes with a generation that memory
      can reach again with other sessions. Here a later save is skipped although memory and disk differ. */
  lemma {:induction false} LoadDuringSaveIsUnsound(a: Session, b: Session)
    requires a.id == "a" && b.id == "b" && a.status == b.status == Stopped
    ensures var start := System(Store(map["a" := a], 2), Some(Snapshot(1, [])), 1, None);
            var exported := Next(start, BeginSave(false, [a]));
            var reloaded := LoadStep(exported, 0);
            var registered := reloaded.(store := Set(reloaded.store, "b", b));
            var saved := Next(registered, EndSave(Written));
            Clean(start) && Skips(saved, false) && OnDisk(saved.disk) != saved.store.sessions
  {
    assert ById([a]) == map["a" := a] by { assert [a][..0] == []; }
    assert ById([]) == map[];
    var start := System(Store(map["a" := a], 2), Some(Snapshot(1, [])), 1, None);
    var exported := Next(start, BeginSave(false, [a]));
    var reloaded := LoadStep(exported, 0);
    assert reloaded.store == Store(map[], 1);
    assert "b" in Set(reloaded.store, "b", b).sessions;
    assert "b" !in ById([a]);
  }
}
