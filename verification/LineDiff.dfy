/**
 The configuration diff of the admin page: a longest-common-subsequence table and a walk
 over it. The rows spell both texts and no edit script has fewer changes.
 */
module LineDiff {
  import opened Common

  datatype Kind = Same | Removed | Added

  datatype Row = Row(kind: Kind, text: string)

  /** The lines a script reads from the old text. */
  function OldOf(rows: seq<Row>): seq<string> {
    if rows == [] then []
    else (if rows[0].kind.Added? then [] else [rows[0].text]) + OldOf(rows[1..])
  }

  /** The lines a script writes to the new text. */
  function NewOf(rows: seq<Row>): seq<string> {
    if rows == [] then []
    else (if rows[0].kind.Removed? then [] else [rows[0].text]) + NewOf(rows[1..])
  }

  function Changes(rows: seq<Row>): nat {
    if rows == [] then 0 else (if rows[0].kind.Same? then 0 else 1) + Changes(rows[1..])
  }

  function SameCount(rows: seq<Row>): nat {
    if rows == [] then 0 else (if rows[0].kind.Same? then 1 else 0) + SameCount(rows[1..])
  }

  predicate IsScript(rows: seq<Row>, previous: seq<string>, next: seq<string>) {
    OldOf(rows) == previous && NewOf(rows) == next
  }

  /** Length of a longest common subsequence. */
  function Lcs(a: seq<string>, b: seq<string>): nat
    decreases |a| + |b|
  {
    if a == [] || b == [] then 0
    else if a[0] == b[0] then 1 + Lcs(a[1..], b[1..])
    else Max(Lcs(a[1..], b), Lcs(a, b[1..]))
  }

  /** Dropping a line from either text loses at most one common line and gains none. */
  lemma {:induction false} LcsSteps(a: seq<string>, b: seq<string>)
    ensures a != [] ==> Lcs(a[1..], b) <= Lcs(a, b) <= Lcs(a[1..], b) + 1
    ensures b != [] ==> Lcs(a, b[1..]) <= Lcs(a, b) <= Lcs(a, b[1..]) + 1
    decreases |a| + |b|
  {
    if a != [] && b != [] {
      LcsSteps(a[1..], b);
      LcsSteps(a, b[1..]);
      LcsSteps(a[1..], b[1..]);
    }
  }

  /** No script keeps more lines than a longest common subsequence has. */
  lemma {:induction false} ScriptsKeepAtMost(rows: seq<Row>)
    ensures SameCount(rows) <= Lcs(OldOf(rows), NewOf(rows))
  {
    if rows != [] {
      ScriptsKeepAtMost(rows[1..]);
      var before, after := OldOf(rows), NewOf(rows);
      LcsSteps(before, after);
      assert OldOf(rows[1..]) == if rows[0].kind.Added? then before else before[1..];
      assert NewOf(rows[1..]) == if rows[0].kind.Removed? then after else after[1..];
    }
  }

  /** Changes and kept lines account for every line of both texts. */
  lemma {:induction false} ChangesBalance(rows: seq<Row>)
    ensures Changes(rows) + 2 * SameCount(rows) == |OldOf(rows)| + |NewOf(rows)|
  {
    if rows != [] {
      ChangesBalance(rows[1..]);
    }
  }

  lemma {:induction false} AppendRow(rows: seq<Row>, row: Row)
    ensures OldOf(rows + [row]) == OldOf(rows) + if row.kind.Added? then [] else [row.text]
    ensures NewOf(rows + [row]) == NewOf(rows) + if row.kind.Removed? then [] else [row.text]
    ensures SameCount(rows + [row]) == SameCount(rows) + if row.kind.Same? then 1 else 0
  {
    if rows == [] {
      assert rows + [row] == [row] && [row][1..] == [];
    } else {
      assert (rows + [row])[1..] == rows[1..] + [row];
      AppendRow(rows[1..], row);
    }
  }

  /** Table cell (i, j): the length for the texts from line i and from line j on. */
  function Cell(previous: seq<string>, next: seq<string>, i: nat, j: nat): (c: nat)
    requires i <= |previous| && j <= |next|
  {
    Lcs(previous[i..], next[j..])
  }

  lemma {:induction false} CellStep(previous: seq<string>, next: seq<string>, i: nat, j: nat)
    requires i < |previous| && j < |next|
    ensures Cell(previous, next, i, j) ==
            if previous[i] == next[j] then Cell(previous, next, i + 1, j + 1) + 1
            else Max(Cell(previous, next, i + 1, j), Cell(previous, next, i, j + 1))
  {
    assert previous[i..][1..] == previous[i + 1..] && next[j..][1..] == next[j + 1..];
  }

  predicate RowFilled(previous: seq<string>, next: seq<string>, dp: array2<nat>, i: nat)
    requires i <= |previous| && dp.Length0 == |previous| + 1 && dp.Length1 == |next| + 1
    reads dp
  {
    forall j | 0 <= j <= |next| :: dp[i, j] == Cell(previous, next, i, j)
  }

  /** Fills row `i` from row `i + 1`, right to left. */
  method FillRow(previous: seq<string>, next: seq<string>, dp: array2<nat>, i: nat)
    requires i < |previous| && dp.Length0 == |previous| + 1 && dp.Length1 == |next| + 1
    requires dp[i, |next|] == 0 && RowFilled(previous, next, dp, i + 1)
    modifies dp
    ensures RowFilled(previous, next, dp, i)
    ensures forall r, c | 0 <= r <= |previous| && r != i && 0 <= c <= |next| :: dp[r, c] == old(dp[r, c])
  {
    var j := |next| - 1;
    while j >= 0
      invariant -1 <= j < |next|
      invariant forall r, c | 0 <= r <= |previous| && r != i && 0 <= c <= |next| :: dp[r, c] == old(dp[r, c])
      invariant forall c | j < c <= |next| :: dp[i, c] == Cell(previous, next, i, c)
    {
      CellStep(previous, next, i, j);
      dp[i, j] := if previous[i] == next[j] then dp[i + 1, j + 1] + 1 else Max(dp[i + 1, j], dp[i, j + 1]);
      j := j - 1;
    }
  }

  method FillTable(previous: seq<string>, next: seq<string>) returns (dp: array2<nat>)
    ensures fresh(dp) && dp.Length0 == |previous| + 1 && dp.Length1 == |next| + 1
    ensures forall i | 0 <= i <= |previous| :: RowFilled(previous, next, dp, i)
  {
    dp := new nat[|previous| + 1, |next| + 1]((i, j) => 0);
    var i := |previous| - 1;
    while i >= 0
      invariant -1 <= i < |previous|
      invariant forall r | i < r <= |previous| :: RowFilled(previous, next, dp, r)
      invariant forall r | 0 <= r <= i :: dp[r, |next|] == 0
    {
      label before:
      assert forall r | i < r <= |previous| :: RowFilled(previous, next, dp, r);
      FillRow(previous, next, dp, i);
      forall r | i < r <= |previous|
        ensures RowFilled(previous, next, dp, r)
      {
        assert old@before(RowFilled(previous, next, dp, r));
      }
      i := i - 1;
    }
  }

  /** The rows produced so far spell the prefixes, and what they keep plus what can still be
      kept is optimal. */
  predicate Progress(rows: seq<Row>, previous: seq<string>, next: seq<string>, i: nat, j: nat) {
    && i <= |previous| && j <= |next|
    && OldOf(rows) == previous[..i] && NewOf(rows) == next[..j]
    && SameCount(rows) + Lcs(previous[i..], next[j..]) == Lcs(previous, next)
  }

  lemma {:induction false} StepRow(rows: seq<Row>, previous: seq<string>, next: seq<string>, i: nat, j: nat, row: Row)
    requires Progress(rows, previous, next, i, j)
    requires match row.kind
             case Same => i < |previous| && j < |next| && row.text == previous[i] == next[j]
             case Removed => i < |previous| && row.text == previous[i] && Lcs(previous[i..], next[j..]) == Lcs(previous[i + 1..], next[j..])
             case Added => j < |next| && row.text == next[j] && Lcs(previous[i..], next[j..]) == Lcs(previous[i..], next[j + 1..])
    ensures Progress(rows + [row], previous, next, if row.kind.Added? then i else i + 1, if row.kind.Removed? then j else j + 1)
  {
    AppendRow(rows, row);
    if !row.kind.Added? { assert previous[..i + 1] == previous[..i] + [previous[i]]; }
    if !row.kind.Removed? { assert next[..j + 1] == next[..j] + [next[j]]; }
    if row.kind.Same? {
      assert previous[i..][1..] == previous[i + 1..] && next[j..][1..] == next[j + 1..];
    }
  }

  /** Which row the walk emits while both texts have lines left. */
  method NextRow(previous: seq<string>, next: seq<string>, dp: array2<nat>, rows: seq<Row>, i: nat, j: nat) returns (row: Row)
    requires i < |previous| && j < |next| && Progress(rows, previous, next, i, j)
    requires dp.Length0 == |previous| + 1 && dp.Length1 == |next| + 1
    requires dp[i + 1, j] == Cell(previous, next, i + 1, j) && dp[i, j + 1] == Cell(previous, next, i, j + 1)
    ensures Progress(rows + [row], previous, next, if row.kind.Added? then i else i + 1, if row.kind.Removed? then j else j + 1)
  {
    assert previous[i..][1..] == previous[i + 1..] && next[j..][1..] == next[j + 1..];
    if previous[i] == next[j] {
      row := Row(Same, previous[i]);
    } else if dp[i + 1, j] >= dp[i, j + 1] {
      row := Row(Removed, previous[i]);
    } else {
      row := Row(Added, next[j]);
    }
    StepRow(rows, previous, next, i, j, row);
  }

  method Walk(previous: seq<string>, next: seq<string>, dp: array2<nat>) returns (rows: seq<Row>)
    requires dp.Length0 == |previous| + 1 && dp.Length1 == |next| + 1
    requires forall i | 0 <= i <= |previous| :: RowFilled(previous, next, dp, i)
    ensures Progress(rows, previous, next, |previous|, |next|)
  {
    rows := [];
    var i: nat, j: nat := 0, 0;
    assert previous[0..] == previous && next[0..] == next;
    while i < |previous| && j < |next|
      invariant Progress(rows, previous, next, i, j)
      decreases |previous| - i + |next| - j
    {
      assert RowFilled(previous, next, dp, i) && RowFilled(previous, next, dp, i + 1);
      var row := NextRow(previous, next, dp, rows, i, j);
      rows := rows + [row];
      i := if row.kind.Added? then i else i + 1;
      j := if row.kind.Removed? then j else j + 1;
    }
    while i < |previous|
      invariant Progress(rows, previous, next, i, j) && (i < |previous| ==> j == |next|)
    {
      StepRow(rows, previous, next, i, j, Row(Removed, previous[i]));
      rows := rows + [Row(Removed, previous[i])];
      i := i + 1;
    }
    while j < |next|
      invariant Progress(rows, previous, next, i, j) && i == |previous|
    {
      StepRow(rows, previous, next, i, j, Row(Added, next[j]));
      rows := rows + [Row(Added, next[j])];
      j := j + 1;
    }
  }

  lemma {:induction false} NoShorterScript(rows: seq<Row>, other: seq<Row>, previous: seq<string>, next: seq<string>)
    requires IsScript(rows, previous, next) && IsScript(other, previous, next)
    requires SameCount(rows) == Lcs(previous, next)
    ensures Changes(rows) <= Changes(other)
  {
    ScriptsKeepAtMost(other);
    ChangesBalance(other);
    ChangesBalance(rows);
  }

  /** Main result: the rows turn the old lines into the new ones, and every other script that
      does has at least as many removed and added rows. */
  method DiffLines(previous: seq<string>, next: seq<string>) returns (rows: seq<Row>)
    ensures IsScript(rows, previous, next)
    ensures SameCount(rows) == Lcs(previous, next)
    ensures forall other | IsScript(other, previous, next) :: Changes(rows) <= Changes(other)
  {
    var dp := FillTable(previous, next);
    rows := Walk(previous, next, dp);
    assert previous[..|previous|] == previous && next[..|next|] == next;
    forall other | IsScript(other, previous, next)
      ensures Changes(rows) <= Changes(other)
    {
      NoShorterScript(rows, other, previous, next);
    }
  }
}
