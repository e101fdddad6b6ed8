/**
 Usage accounting: ten groupings, each in total and per day, week and month, are kept up to
 date record by record. The reference is the plain list of all records; every aggregate is
 a fold over the records that belong to it.

 Timestamps are represented by their order: `seenAt` ranks the last-seen texts, the empty text
 first. Costs are exact reals.
 */
module UsageStats {
  import opened Common

  datatype Outcome = Success | Error | OtherOutcome

  datatype Source = Provider | ProviderApi | Estimated | OtherSource(text: string)

  datatype UsageRecord = UsageRecord(
    client: string, provider: string, outbound: string, executedModel: string, requestedModel: string,
    inbound: string, source: Source, errorKind: string, agent: string, session: string,
    day: string, week: string, month: string,
    outcome: Outcome, requestCount: int, fallbackCount: int,
    input: int, output: int, cachedRead: int, cachedWrite: int, total: int, cost: real, seenAt: nat)

  datatype Stats = Stats(
    requests: int, successes: int, errors: int, fallbacks: int,
    input: int, output: int, cachedRead: int, cachedWrite: int, total: int, cost: real,
    providerUsage: int, estimatedUsage: int, lastSeen: nat)

  datatype Window = Day | Week | Month

  /** The records an aggregate is about. */
  datatype Scope = All | In(window: Window, bucket: string) | OnDays(days: set<string>)

  /** The ten groupings. */
  datatype Group = ByKey | ByProvider | ByModel | ByInbound | BySource | ByOutbound | ByErrorKind | ByDate | ByAgent | BySession

  const GROUPS: seq<Group> :=
    [ByKey, ByProvider, ByModel, ByInbound, BySource, ByOutbound, ByErrorKind, ByDate, ByAgent, BySession]

  const RECENT_LIMIT := 10000

  const ZERO := Stats(0, 0, 0, 0, 0, 0, 0, 0, 0, 0.0, 0, 0, 0)

  // ----- what one record contributes -----

  function NonEmpty(value: string, fallback: string): string {
    if value != "" then value else fallback
  }

  function SourceText(s: Source): string {
    match s
    case Provider => "provider"
    case ProviderApi => "provider_api"
    case Estimated => "estimated"
    case OtherSource(text) => text
  }

  function GroupValue(r: UsageRecord, group: Group): string {
    match group
    case ByKey => NonEmpty(r.client, "unknown")
    case ByProvider => NonEmpty(r.provider, NonEmpty(r.outbound, "unknown"))
    case ByModel => NonEmpty(r.executedModel, NonEmpty(r.requestedModel, "unknown"))
    case ByInbound => NonEmpty(r.inbound, "unknown")
    case BySource => NonEmpty(SourceText(r.source), "unknown")
    case ByOutbound => NonEmpty(r.outbound, "unknown")
    case ByErrorKind => NonEmpty(r.errorKind, "none")
    case ByDate => r.day
    case ByAgent => NonEmpty(r.agent, "unknown")
    case BySession => NonEmpty(r.session, "unknown")
  }

  function Add(s: Stats, t: Stats): Stats {
    Stats(s.requests + t.requests, s.successes + t.successes, s.errors + t.errors, s.fallbacks + t.fallbacks,
          s.input + t.input, s.output + t.output, s.cachedRead + t.cachedRead, s.cachedWrite + t.cachedWrite,
          s.total + t.total, s.cost + t.cost, s.providerUsage + t.providerUsage, s.estimatedUsage + t.estimatedUsage,
          Max(s.lastSeen, t.lastSeen))
  }

  function Contribution(r: UsageRecord): Stats {
    var count := if r.requestCount <= 0 then 1 else r.requestCount;
    Stats(count, if r.outcome.Success? then count else 0, if r.outcome.Error? then count else 0, r.fallbackCount,
          r.input, r.output, r.cachedRead, r.cachedWrite, r.total, r.cost,
          if r.source.Provider? || r.source.ProviderApi? then count else 0,
          if r.source.Estimated? then count else 0, r.seenAt)
  }

  function BucketOf(r: UsageRecord, w: Window): string {
    match w
    case Day => r.day
    case Week => r.week
    case Month => r.month
  }

  predicate InScope(r: UsageRecord, scope: Scope) {
    match scope
    case All => true
    case In(window, bucket) => BucketOf(r, window) == bucket
    case OnDays(days) => r.day in days
  }

  // ----- reference: folds over the raw records -----

  function Fold(records: seq<UsageRecord>): Stats {
    if records == [] then ZERO
    else Add(Fold(records[..|records| - 1]), Contribution(records[|records| - 1]))
  }

  /** The records of a scope that have a given value in a grouping. */
  function Select(records: seq<UsageRecord>, group: Group, scope: Scope, value: string): seq<UsageRecord> {
    if records == [] then []
    else
      var n := |records| - 1;
      Select(records[..n], group, scope, value) +
      if InScope(records[n], scope) && GroupValue(records[n], group) == value then [records[n]] else []
  }

  function Cell(table: map<string, Stats>, value: string): Stats {
    if value in table then table[value] else ZERO
  }

  /** A grouping's table, built record by record. */
  function Table(records: seq<UsageRecord>, group: Group, scope: Scope): map<string, Stats> {
    if records == [] then map[]
    else Apply(Table(records[..|records| - 1], group, scope), records[|records| - 1], group, scope)
  }

  function Apply(table: map<string, Stats>, r: UsageRecord, group: Group, scope: Scope): map<string, Stats> {
    if InScope(r, scope) then Put(table, GroupValue(r, group), Contribution(r)) else table
  }

  /** Adds to one cell. */
  function Put(table: map<string, Stats>, value: string, s: Stats): map<string, Stats> {
    table[value := Add(Cell(table, value), s)]
  }

  /** Main result: every cell is the fold of exactly the records that belong to it, and there is a
      cell exactly for the values that occur. */
  lemma {:induction false} CellsAreFolds(records: seq<UsageRecord>, group: Group, scope: Scope, value: string)
    ensures Cell(Table(records, group, scope), value) == Fold(Select(records, group, scope, value))
    ensures value in Table(records, group, scope) <==> Select(records, group, scope, value) != []
  {
    if records != [] {
      var n := |records| - 1;
      CellsAreFolds(records[..n], group, scope, value);
      var front := Select(records[..n], group, scope, value);
      assert (front + [records[n]])[..|front|] == front;
      assert front + [] == front;
    }
  }

  // ----- adding up -----

  lemma {:induction false} AddLaws(a: Stats, b: Stats, c: Stats)
    ensures Add(a, b) == Add(b, a) && Add(Add(a, b), c) == Add(a, Add(b, c)) && Add(a, ZERO) == a && Add(ZERO, a) == a
  {
  }

  /** The sum of a table's cells, in any order. */
  ghost function ColumnSum(table: map<string, Stats>, values: set<string>): Stats
    requires values <= table.Keys
  {
    if values == {} then ZERO
    else
      var v :| v in values;
      Add(table[v], ColumnSum(table, values - {v}))
  }

  lemma {:induction false} ColumnSumTakes(table: map<string, Stats>, values: set<string>, v: string)
    requires values <= table.Keys && v in values
    ensures ColumnSum(table, values) == Add(table[v], ColumnSum(table, values - {v}))
  {
    var u :| u in values && ColumnSum(table, values) == Add(table[u], ColumnSum(table, values - {u}));
    if u != v {
      ColumnSumTakes(table, values - {u}, v);
      ColumnSumTakes(table, values - {v}, u);
      assert values - {u} - {v} == values - {v} - {u};
      var rest := ColumnSum(table, values - {u} - {v});
      AddLaws(table[u], table[v], rest);
      AddLaws(table[v], table[u], rest);
    }
  }

  lemma {:induction false} ColumnSumSame(a: map<string, Stats>, b: map<string, Stats>, values: set<string>)
    requires values <= a.Keys && values <= b.Keys && forall v | v in values :: a[v] == b[v]
    ensures ColumnSum(a, values) == ColumnSum(b, values)
  {
    if values != {} {
      var v :| v in values;
      ColumnSumTakes(a, values, v);
      ColumnSumTakes(b, values, v);
      ColumnSumSame(a, b, values - {v});
    }
  }

  lemma {:induction false} ColumnSumApplies(table: map<string, Stats>, v: string, s: Stats)
    ensures var next := Put(table, v, s);
            ColumnSum(next, next.Keys) == Add(ColumnSum(table, table.Keys), s)
  {
    var next := Put(table, v, s);
    var rest := table.Keys - {v};
    assert next.Keys - {v} == rest;
    ColumnSumTakes(next, next.Keys, v);
    ColumnSumSame(next, table, rest);
    var others := ColumnSum(table, rest);
    if v in table {
      ColumnSumTakes(table, table.Keys, v);
    } else {
      assert rest == table.Keys;
    }
    AddLaws(Cell(table, v), s, others);
    AddLaws(s, others, ZERO);
    AddLaws(Cell(table, v), others, s);
  }

  function InScopeOnly(records: seq<UsageRecord>, scope: Scope): seq<UsageRecord> {
    if records == [] then []
    else
      InScopeOnly(records[..|records| - 1], scope) +
      if InScope(records[|records| - 1], scope) then [records[|records| - 1]] else []
  }

  /** Main result: every grouping of a scope adds up to the same, the fold of all its records. */
  lemma {:induction false} GroupingsAddUp(records: seq<UsageRecord>, group: Group, scope: Scope)
    ensures var table := Table(records, group, scope);
            ColumnSum(table, table.Keys) == Fold(InScopeOnly(records, scope))
  {
    if records != [] {
      var n := |records| - 1;
      GroupingsAddUp(records[..n], group, scope);
      var table, front := Table(records[..n], group, scope), InScopeOnly(records[..n], scope);
      ColumnSumApplies(table, GroupValue(records[n], group), Contribution(records[n]));
      assert (front + [records[n]])[..|front|] == front;
      assert front + [] == front;
    }
  }
}
