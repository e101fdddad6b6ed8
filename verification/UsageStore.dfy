/**
 The in-memory usage store: nested maps updated per record, range queries merged from day
 buckets, and the list of recent records. `log` is the ghost list of everything recorded.
 */
module UsageStore {
  import opened UsageStats

  type Tables = map<string, map<string, Stats>>

  function TableIn(tables: Tables, key: string): map<string, Stats> {
    if key in tables then tables[key] else map[]
  }

  function WindowText(w: Window): string {
    match w
    case Day => "day"
    case Week => "week"
    case Month => "month"
  }

  function GroupText(g: Group): string {
    match g
    case ByKey => "key"
    case ByProvider => "provider"
    case ByModel => "model"
    case ByInbound => "inbound"
    case BySource => "source"
    case ByOutbound => "outbound"
    case ByErrorKind => "error_kind"
    case ByDate => "date"
    case ByAgent => "agent"
    case BySession => "session"
  }

  function JoinKey(window: string, bucket: string, group: string): string {
    window + ":" + bucket + ":" + group
  }

  function BucketKey(w: Window, bucket: string, group: Group): string {
    JoinKey(WindowText(w), bucket, GroupText(group))
  }

  /** A grouping's name has no colon, so a joined key is unambiguous whatever the bucket. */
  lemma {:induction false} JoinIsUnambiguous(window: string, bucket: string, group: string, bucket': string, group': string)
    requires ':' !in group && ':' !in group'
    requires JoinKey(window, bucket, group) == JoinKey(window, bucket', group')
    ensures bucket == bucket' && group == group'
  {
    var key, n := JoinKey(window, bucket, group), |window| + 1;
    assert key[|key| - |group| - 1] == ':' && key[|key| - |group'| - 1] == ':';
    assert key[|key| - |group|..] == group && key[|key| - |group'|..] == group';
    assert |group| == |group'|;
    assert key[n..|key| - |group| - 1] == bucket && key[n..|key| - |group'| - 1] == bucket';
  }

  lemma {:induction false} BucketKeysAreUnambiguous(w: Window, bucket: string, group: Group, bucket': string, group': Group)
    requires BucketKey(w, bucket, group) == BucketKey(w, bucket', group')
    ensures bucket == bucket' && group == group'
  {
    JoinIsUnambiguous(WindowText(w), bucket, GroupText(group), bucket', GroupText(group'));
    NamesAreDistinct(group, group');
  }

  lemma {:induction false} NamesAreDistinct(g: Group, h: Group)
    requires GroupText(g) == GroupText(h)
    ensures g == h
  {
    match g
    case ByKey => assert GroupText(h)[..1] == "k";
    case ByProvider => assert GroupText(h)[..1] == "p";
    case ByModel => assert GroupText(h)[..1] == "m";
    case ByInbound => assert GroupText(h)[..1] == "i";
    case BySource => assert GroupText(h)[..2] == "so";
    case ByOutbound => assert GroupText(h)[..1] == "o";
    case ByErrorKind => assert GroupText(h)[..1] == "e";
    case ByDate => assert GroupText(h)[..1] == "d";
    case ByAgent => assert GroupText(h)[..1] == "a";
    case BySession => assert GroupText(h)[..2] == "se";
  }

  lemma {:induction false} AllGroups(g: Group)
    ensures g in GROUPS
  {
    match g
    case ByKey => assert GROUPS[0] == g;
    case ByProvider => assert GROUPS[1] == g;
    case ByModel => assert GROUPS[2] == g;
    case ByInbound => assert GROUPS[3] == g;
    case BySource => assert GROUPS[4] == g;
    case ByOutbound => assert GROUPS[5] == g;
    case ByErrorKind => assert GROUPS[6] == g;
    case ByDate => assert GROUPS[7] == g;
    case ByAgent => assert GROUPS[8] == g;
    case BySession => assert GROUPS[9] == g;
  }

  /** The records of a list's end. */
  function Last(records: seq<UsageRecord>, limit: nat): seq<UsageRecord> {
    if |records| <= limit then records else records[|records| - limit..]
  }

  // ----- merging -----

  function MergeTables(a: map<string, Stats>, b: map<string, Stats>): (m: map<string, Stats>)
    ensures m.Keys == a.Keys + b.Keys
  {
    map v | v in a.Keys + b.Keys :: Add(Cell(a, v), Cell(b, v))
  }

  /** Main result: the table of two disjoint sets of days is the sum of their tables. */
  lemma {:induction false} RangesAreAdditive(records: seq<UsageRecord>, group: Group, a: set<string>, b: set<string>)
    requires a !! b
    ensures Table(records, group, OnDays(a + b)) == MergeTables(Table(records, group, OnDays(a)), Table(records, group, OnDays(b)))
  {
    if records != [] {
      var n := |records| - 1;
      RangesAreAdditive(records[..n], group, a, b);
      MergeApplies(Table(records[..n], group, OnDays(a)), Table(records[..n], group, OnDays(b)), records[n], group, a, b);
    }
  }

  lemma {:induction false} CellOfMerge(x: map<string, Stats>, y: map<string, Stats>, v: string)
    ensures Cell(MergeTables(x, y), v) == Add(Cell(x, v), Cell(y, v))
  {
    if v in x.Keys + y.Keys {
      assert v in MergeTables(x, y);
    } else {
      assert v !in MergeTables(x, y).Keys;
      NothingPlusNothing(Cell(x, v));
    }
  }

  lemma {:induction false} NothingPlusNothing(z: Stats)
    requires z == ZERO
    ensures Add(z, z) == z
  {
    AddLaws(z, z, z);
  }

  /** Tables with the same keys and cells are the same. */
  lemma {:induction false} SameCells(x: map<string, Stats>, y: map<string, Stats>)
    requires x.Keys == y.Keys && forall v :: Cell(x, v) == Cell(y, v)
    ensures x == y
  {
    forall v | v in x
      ensures x[v] == y[v]
    {
      assert Cell(x, v) == Cell(y, v);
    }
  }

  lemma {:induction false} CellOfPut(x: map<string, Stats>, v: string, s: Stats, u: string)
    ensures Cell(Put(x, v, s), u) == if u == v then Add(Cell(x, v), s) else Cell(x, u)
  {
  }

  lemma {:induction false} Swap(a: Stats, b: Stats, s: Stats)
    ensures Add(Add(a, s), b) == Add(Add(a, b), s) && Add(a, Add(b, s)) == Add(Add(a, b), s)
  {
  }

  /** Adding to a cell before or after merging is the same. */
  lemma {:induction false} PutMerges(x: map<string, Stats>, y: map<string, Stats>, v: string, s: Stats)
    ensures MergeTables(Put(x, v, s), y) == Put(MergeTables(x, y), v, s)
    ensures MergeTables(x, Put(y, v, s)) == Put(MergeTables(x, y), v, s)
  {
    var whole, left, right := Put(MergeTables(x, y), v, s), MergeTables(Put(x, v, s), y), MergeTables(x, Put(y, v, s));
    assert left.Keys == whole.Keys && right.Keys == whole.Keys;
    forall u
      ensures Cell(left, u) == Cell(whole, u) && Cell(right, u) == Cell(whole, u)
    {
      PutMergesAt(x, y, v, s, u);
    }
    SameCells(left, whole);
    SameCells(right, whole);
  }

  lemma {:induction false} PutMergesAt(x: map<string, Stats>, y: map<string, Stats>, v: string, s: Stats, u: string)
    ensures Cell(MergeTables(Put(x, v, s), y), u) == Cell(Put(MergeTables(x, y), v, s), u)
    ensures Cell(MergeTables(x, Put(y, v, s)), u) == Cell(Put(MergeTables(x, y), v, s), u)
  {
    CellOfMerge(Put(x, v, s), y, u);
    CellOfMerge(x, Put(y, v, s), u);
    CellOfMerge(x, y, u);
    CellOfPut(x, v, s, u);
    CellOfPut(y, v, s, u);
    CellOfPut(MergeTables(x, y), v, s, u);
    Swap(Cell(x, v), Cell(y, v), s);
  }

  lemma {:induction false} MergeApplies(x: map<string, Stats>, y: map<string, Stats>, r: UsageRecord, group: Group, a: set<string>, b: set<string>)
    requires a !! b
    ensures Apply(MergeTables(x, y), r, group, OnDays(a + b)) == MergeTables(Apply(x, r, group, OnDays(a)), Apply(y, r, group, OnDays(b)))
  {
    var v, s := GroupValue(r, group), Contribution(r);
    PutMerges(x, y, v, s);
    if r.day in a {
      assert r.day !in b;
    }
  }

  lemma {:induction false} OneDay(records: seq<UsageRecord>, group: Group, day: string)
    ensures Table(records, group, OnDays({day})) == Table(records, group, In(Day, day))
  {
    if records != [] {
      OneDay(records[..|records| - 1], group, day);
    }
  }

  lemma {:induction false} NoDays(records: seq<UsageRecord>, group: Group)
    ensures Table(records, group, OnDays({})) == map[]
  {
    if records != [] {
      NoDays(records[..|records| - 1], group);
    }
  }

  /** In a day bucket the date grouping has no value but the day itself. */
  lemma {:induction false} DateCells(records: seq<UsageRecord>, day: string, value: string)
    requires value in Table(records, ByDate, In(Day, day))
    ensures value == day
  {
    var n := |records| - 1;
    if value in Table(records[..n], ByDate, In(Day, day)) {
      DateCells(records[..n], day, value);
    }
  }

  // ----- the store -----

  ghost predicate TotalsAgree(totals: map<Group, map<string, Stats>>, log: seq<UsageRecord>) {
    forall g :: (if g in totals then totals[g] else map[]) == Table(log, g, All)
  }

  ghost predicate WindowAgrees(tables: Tables, w: Window, log: seq<UsageRecord>) {
    forall bucket, g :: TableIn(tables, BucketKey(w, bucket, g)) == Table(log, g, In(w, bucket))
  }

  class MemoryStore {
    var totals: map<Group, map<string, Stats>>
    var windows: map<Window, Tables>
    var recent: seq<UsageRecord>
    ghost var log: seq<UsageRecord>

    /** Every table the store can be asked for is the table of the log. */
    ghost predicate Valid()
      reads this
    {
      && windows.Keys == {Day, Week, Month}
      && TotalsAgree(totals, log)
      && WindowAgrees(windows[Day], Day, log) && WindowAgrees(windows[Week], Week, log) && WindowAgrees(windows[Month], Month, log)
      && recent == Last(log, 10_000)
    }

    constructor ()
      ensures Valid() && log == []
    {
      totals, recent, log := map[], [], [];
      windows := map[Day := map[], Week := map[], Month := map[]];
    }

    method Record(r: UsageRecord)
      requires Valid()
      modifies this
      ensures Valid() && log == old(log) + [r]
    {
      totals := RecordTotals(totals, r, log);
      var day := RecordWindow(windows[Day], Day, r, log);
      var week := RecordWindow(windows[Week], Week, r, log);
      var month := RecordWindow(windows[Month], Month, r, log);
      windows := map[Day := day, Week := week, Month := month];
      recent := KeepRecent(recent, r, log);
      log := log + [r];
    }

    /** The statistics of a range of days, given as the day texts the loop runs through. */
    method QueryDays(group: Group, days: seq<string>) returns (merged: map<string, Stats>)
      requires Valid()
      requires forall i, j | 0 <= i < j < |days| :: days[i] != days[j]
      ensures merged == Table(log, group, OnDays(DaySet(days)))
    {
      merged := map[];
      NoDays(log, group);
      assert DaySet(days[..0]) == {};
      for i := 0 to |days|
        invariant merged == Table(log, group, OnDays(DaySet(days[..i])))
      {
        var day := days[i];
        DaySetGrows(days, i);
        RangesAreAdditive(log, group, DaySet(days[..i]), {day});
        OneDay(log, group, day);
        var table := TableIn(windows[Day], BucketKey(Day, day, group));
        assert table == Table(log, group, In(Day, day));
        forall value | value in table && group == ByDate
          ensures value == day
        {
          DateCells(log, day, value);
        }
        merged := MergeInto(merged, table, group == ByDate, day);
      }
      assert days[..|days|] == days;
    }

    /** The days of one client in a range: a cell per day on which it has records, the fold of exactly those. */
    method QueryClientDays(client: string, days: seq<string>) returns (merged: map<string, Stats>)
      requires Valid()
      requires forall i, j | 0 <= i < j < |days| :: days[i] != days[j]
      ensures merged == ClientDays(log, client, DaySet(days))
    {
      merged := map[];
      assert DaySet(days[..0]) == {};
      for i := 0 to |days|
        invariant merged == ClientDays(log, client, DaySet(days[..i]))
      {
        var day := days[i];
        DaySetGrows(days, i);
        var clients := TableIn(windows[Day], BucketKey(Day, day, ByKey));
        assert clients == Table(log, ByKey, In(Day, day));
        ClientDayMore(log, client, DaySet(days[..i]), day, clients);
        if client in clients {
          merged := merged[day := Add(Cell(merged, day), clients[client])];
        }
      }
      assert days[..|days|] == days;
    }
  }

  /** What one client did on each of a set of days, by day. */
  function ClientDays(records: seq<UsageRecord>, client: string, days: set<string>): map<string, Stats> {
    map day | day in days && Select(records, ByKey, In(Day, day), client) != [] :: Fold(Select(records, ByKey, In(Day, day), client))
  }

  lemma {:induction false} ClientDayMore(records: seq<UsageRecord>, client: string, days: set<string>, day: string, clients: map<string, Stats>)
    requires day !in days && clients == Table(records, ByKey, In(Day, day))
    ensures var merged := ClientDays(records, client, days);
            ClientDays(records, client, days + {day})
            == if client in clients then merged[day := Add(Cell(merged, day), clients[client])] else merged
  {
    var merged, own := ClientDays(records, client, days), Select(records, ByKey, In(Day, day), client);
    CellsAreFolds(records, ByKey, In(Day, day), client);
    if client in clients {
      NothingBefore(merged, day, clients[client]);
      assert ClientDays(records, client, days + {day}) == merged[day := Fold(own)];
    } else {
      assert ClientDays(records, client, days + {day}) == merged;
    }
  }

  lemma {:induction false} NothingBefore(merged: map<string, Stats>, day: string, s: Stats)
    requires day !in merged
    ensures Add(Cell(merged, day), s) == s
  {
    AddLaws(s, ZERO, ZERO);
  }

  function DaySet(days: seq<string>): set<string> {
    set i | 0 <= i < |days| :: days[i]
  }

  lemma {:induction false} DaySetGrows(days: seq<string>, i: nat)
    requires i < |days| && forall j, k | 0 <= j < k < |days| :: days[j] != days[k]
    ensures DaySet(days[..i + 1]) == DaySet(days[..i]) + {days[i]} && days[i] !in DaySet(days[..i])
  {
    forall d
      ensures d in DaySet(days[..i + 1]) <==> d in DaySet(days[..i]) + {days[i]}
    {
      if d == days[i] { assert days[..i + 1][i] == d; }
      if d in DaySet(days[..i]) {
        var j :| 0 <= j < i && days[..i][j] == d;
        assert days[..i + 1][j] == d;
      }
      if d in DaySet(days[..i + 1]) && d != days[i] {
        var j :| 0 <= j < i + 1 && days[..i + 1][j] == d;
        assert days[..i][j] == d;
      }
    }
  }

  method MergeInto(merged: map<string, Stats>, table: map<string, Stats>, byDate: bool, day: string) returns (r: map<string, Stats>)
    requires byDate ==> forall v | v in table :: v == day
    ensures r == MergeTables(merged, table)
  {
    r := merged;
    var left := table.Keys;
    AddZero(merged);
    while left != {}
      invariant left <= table.Keys
      invariant r == MergeTables(merged, table - left)
    {
      var value :| value in left;
      var key := if byDate then day else value;
      MergeOne(merged, table, left, value);
      r := Put(r, key, table[value]);
      left := left - {value};
    }
    assert table - left == table;
  }

  lemma {:induction false} AddZero(a: map<string, Stats>)
    ensures MergeTables(a, map[]) == a
  {
    forall v | v in a
      ensures Add(a[v], ZERO) == a[v]
    {
      AddLaws(a[v], ZERO, ZERO);
    }
  }

  lemma {:induction false} MergeOne(a: map<string, Stats>, table: map<string, Stats>, left: set<string>, v: string)
    requires left <= table.Keys && v in left
    ensures MergeTables(a, table - (left - {v})) == Put(MergeTables(a, table - left), v, table[v])
  {
    AddLaws(table[v], ZERO, ZERO);
    assert table - (left - {v}) == Put(table - left, v, table[v]);
    PutMerges(a, table - left, v, table[v]);
  }

  /** Adds a record to the table of every grouping. */
  method KeepRecent(recent: seq<UsageRecord>, r: UsageRecord, ghost log: seq<UsageRecord>) returns (kept: seq<UsageRecord>)
    requires recent == Last(log, RECENT_LIMIT)
    ensures kept == Last(log + [r], RECENT_LIMIT)
  {
    kept := recent + [r];
    if |kept| > RECENT_LIMIT {
      kept := kept[|kept| - RECENT_LIMIT..];
    }
  }

  method RecordTotals(totals: map<Group, map<string, Stats>>, r: UsageRecord, ghost log: seq<UsageRecord>) returns (next: map<Group, map<string, Stats>>)
    requires TotalsAgree(totals, log)
    ensures TotalsAgree(next, log + [r])
  {
    next := totals;
    for i := 0 to |GROUPS|
      invariant forall g :: (if g in next then next[g] else map[]) == Table(if g in GROUPS[..i] then log + [r] else log, g, All)
    {
      var group := GROUPS[i];
      var table := if group in next then next[group] else map[];
      ghost var before := next;
      next := next[group := Put(table, GroupValue(r, group), Contribution(r))];
      TotalStep(before, next, r, log, i);
    }
    forall g
      ensures g in GROUPS[..|GROUPS|]
    {
      AllGroups(g);
    }
  }

  lemma {:induction false} TotalStep(before: map<Group, map<string, Stats>>, next: map<Group, map<string, Stats>>, r: UsageRecord, log: seq<UsageRecord>, i: nat)
    requires i < |GROUPS|
    requires forall g :: (if g in before then before[g] else map[]) == Table(if g in GROUPS[..i] then log + [r] else log, g, All)
    requires var group := GROUPS[i];
             next == before[group := Put(if group in before then before[group] else map[], GroupValue(r, group), Contribution(r))]
    ensures forall g :: (if g in next then next[g] else map[]) == Table(if g in GROUPS[..i + 1] then log + [r] else log, g, All)
  {
    GroupIsNew(i);
    TableGrows(log, r, GROUPS[i], All);
  }

  lemma {:induction false} TableGrows(log: seq<UsageRecord>, r: UsageRecord, group: Group, scope: Scope)
    ensures Table(log + [r], group, scope) == Apply(Table(log, group, scope), r, group, scope)
  {
    assert (log + [r])[..|log|] == log;
  }

  lemma {:induction false} GroupIsNew(i: nat)
    requires i < |GROUPS|
    ensures GROUPS[i] !in GROUPS[..i]
    ensures forall g :: g in GROUPS[..i + 1] <==> g in GROUPS[..i] || g == GROUPS[i]
  {
    assert GROUPS[..i + 1] == GROUPS[..i] + [GROUPS[i]];
  }

  /** Adds a record to its bucket's table of every grouping. */
  method RecordWindow(tables: Tables, w: Window, r: UsageRecord, ghost log: seq<UsageRecord>) returns (next: Tables)
    requires WindowAgrees(tables, w, log)
    ensures WindowAgrees(next, w, log + [r])
  {
    next := tables;
    for i := 0 to |GROUPS|
      invariant PartlyRecorded(next, w, r, log, i)
    {
      var group, own := GROUPS[i], BucketOf(r, w);
      var key := BucketKey(w, own, group);
      var table := TableIn(next, key);
      ghost var before := next;
      next := next[key := Put(table, GroupValue(r, group), Contribution(r))];
      RecordedStep(before, next, w, r, log, i);
    }
    forall g
      ensures g in GROUPS[..|GROUPS|]
    {
      AllGroups(g);
    }
  }

  /** The first `i` groupings already include the record. */
  ghost predicate PartlyRecorded(tables: Tables, w: Window, r: UsageRecord, log: seq<UsageRecord>, i: nat)
    requires i <= |GROUPS|
  {
    forall bucket, g :: TableIn(tables, BucketKey(w, bucket, g)) == Table(if g in GROUPS[..i] then log + [r] else log, g, In(w, bucket))
  }

  lemma {:induction false} RecordedStep(before: Tables, next: Tables, w: Window, r: UsageRecord, log: seq<UsageRecord>, i: nat)
    requires i < |GROUPS| && PartlyRecorded(before, w, r, log, i)
    requires var group, own := GROUPS[i], BucketOf(r, w);
             var key := BucketKey(w, own, group);
             next == before[key := Put(TableIn(before, key), GroupValue(r, group), Contribution(r))]
    ensures PartlyRecorded(next, w, r, log, i + 1)
  {
    GroupIsNew(i);
    var own := BucketOf(r, w);
    forall bucket, g
      ensures TableIn(next, BucketKey(w, bucket, g)) == Table(if g in GROUPS[..i + 1] then log + [r] else log, g, In(w, bucket))
    {
      TableGrows(log, r, g, In(w, bucket));
      if BucketKey(w, bucket, g) == BucketKey(w, own, GROUPS[i]) {
        BucketKeysAreUnambiguous(w, bucket, g, own, GROUPS[i]);
      } else {
        assert TableIn(next, BucketKey(w, bucket, g)) == TableIn(before, BucketKey(w, bucket, g));
      }
    }
  }
}
