/**
 What the columns of the usage tables mean: each is a sum over the records of its cell, and each cell belongs to a
 field of the records.
 */
module UsageLaws {
  import opened UsageStats

  datatype Column =
    | Requests | Successes | Errors | Fallbacks | Input | Output | CachedRead | CachedWrite | Tokens | FromProvider | FromEstimate

  /** A record without a request count stands for one request. */
  function Times(r: UsageRecord): int {
    if r.requestCount > 0 then r.requestCount else 1
  }

  function If(condition: bool, n: int): int {
    if condition then n else 0
  }

  /** What a record adds to a column. */
  function Share(r: UsageRecord, column: Column): int {
    match column
    case Requests => Times(r)
    case Successes => If(r.outcome == Success, Times(r))
    case Errors => If(r.outcome == Error, Times(r))
    case Fallbacks => r.fallbackCount
    case Input => r.input
    case Output => r.output
    case CachedRead => r.cachedRead
    case CachedWrite => r.cachedWrite
    case Tokens => r.total
    case FromProvider => If(r.source == Provider || r.source == ProviderApi, Times(r))
    case FromEstimate => If(r.source == Estimated, Times(r))
  }

  function ColumnOf(s: Stats, column: Column): int {
    match column
    case Requests => s.requests
    case Successes => s.successes
    case Errors => s.errors
    case Fallbacks => s.fallbacks
    case Input => s.input
    case Output => s.output
    case CachedRead => s.cachedRead
    case CachedWrite => s.cachedWrite
    case Tokens => s.total
    case FromProvider => s.providerUsage
    case FromEstimate => s.estimatedUsage
  }

  function Sum(records: seq<UsageRecord>, column: Column): int {
    if records == [] then 0 else Sum(records[..|records| - 1], column) + Share(records[|records| - 1], column)
  }

  function SumOfCosts(records: seq<UsageRecord>): real {
    if records == [] then 0.0 else SumOfCosts(records[..|records| - 1]) + records[|records| - 1].cost
  }

  lemma {:induction false} FoldsAreSums(records: seq<UsageRecord>, column: Column)
    ensures ColumnOf(Fold(records), column) == Sum(records, column)
  {
    if records != [] {
      FoldsAreSums(records[..|records| - 1], column);
    }
  }

  lemma {:induction false} FoldOfCosts(records: seq<UsageRecord>)
    ensures Fold(records).cost == SumOfCosts(records)
  {
    if records != [] {
      FoldOfCosts(records[..|records| - 1]);
    }
  }

  /** The last-seen mark is the latest one of the records. */
  lemma {:induction false} FoldSeesTheLast(records: seq<UsageRecord>)
    ensures forall i | 0 <= i < |records| :: records[i].seenAt <= Fold(records).lastSeen
    ensures Fold(records).lastSeen == 0 || exists i :: 0 <= i < |records| && records[i].seenAt == Fold(records).lastSeen
  {
    if records != [] {
      var n := |records| - 1;
      FoldSeesTheLast(records[..n]);
      assert forall i | 0 <= i < n :: records[..n][i] == records[i];
      assert records[n].seenAt == Fold(records).lastSeen || Fold(records).lastSeen == Fold(records[..n]).lastSeen;
    }
  }

  /** Main result: every column of every cell is the sum over exactly the records of the cell. */
  lemma {:induction false} CellsAreSums(records: seq<UsageRecord>, group: Group, scope: Scope, value: string, column: Column)
    ensures ColumnOf(Cell(Table(records, group, scope), value), column) == Sum(Select(records, group, scope, value), column)
    ensures Cell(Table(records, group, scope), value).cost == SumOfCosts(Select(records, group, scope, value))
  {
    CellsAreFolds(records, group, scope, value);
    FoldsAreSums(Select(records, group, scope, value), column);
    FoldOfCosts(Select(records, group, scope, value));
  }

  /** The field of a record a grouping goes by, given that the record has it. */
  predicate HasField(r: UsageRecord, group: Group, v: string) {
    match group
    case ByKey => r.client == v
    case ByProvider => r.provider == v || (r.provider == "" && r.outbound == v)
    case ByModel => r.executedModel == v || (r.executedModel == "" && r.requestedModel == v)
    case ByInbound => r.inbound == v
    case BySource =>
      || (r.source == Provider && v == "provider") || (r.source == ProviderApi && v == "provider_api")
      || (r.source == Estimated && v == "estimated") || r.source == OtherSource(v)
    case ByOutbound => r.outbound == v
    case ByErrorKind => r.errorKind == v
    case ByDate => r.day == v
    case ByAgent => r.agent == v
    case BySession => r.session == v
  }

  /** A record of a scope belongs to the cell of its field, and to no other; a missing field counts as "unknown",
      a missing error as "none". */
  lemma {:induction false} RecordsGoToTheirField(r: UsageRecord, group: Group, v: string)
    requires v != "" && v != "unknown" && v != "none"
    ensures GroupValue(r, group) == v <==> HasField(r, group, v)
  {
  }

  /** A record belongs to the bucket of its day, its week or its month. */
  lemma {:induction false} RecordsGoToTheirBucket(r: UsageRecord, bucket: string)
    ensures InScope(r, In(Day, bucket)) <==> r.day == bucket
    ensures InScope(r, In(Week, bucket)) <==> r.week == bucket
    ensures InScope(r, In(Month, bucket)) <==> r.month == bucket
  {
  }
}
