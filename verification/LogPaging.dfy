/**
 Following the cursors through one frozen file: the pages partition the matching lines,
 exactly when every line fits the byte budget.
 */
module LogPaging {
  import opened Common
  import opened LogPages

  /** The pages that following cursors from `end` returns, first page first. */
  function Pages(text: string, end: nat, limit: nat, budget: nat, matches: string -> bool): seq<seq<string>>
    requires end <= |text| && limit > 0 && budget > 0
    decreases end
  {
    if end == 0 then []
    else
      ScanFacts(text, end, budget, limit, matches);
      var (items, next) := Scan(text, end, budget, limit, matches);
      [items] + Pages(text, next, limit, budget, matches)
  }

  /** The pages joined in reverse order, that is, oldest lines first. */
  function Reassemble(pages: seq<seq<string>>): seq<string> {
    if pages == [] then [] else Reassemble(pages[1..]) + pages[0]
  }

  /** Bytes `[a, b)` are one line, its newline included. */
  predicate IsLine(text: string, a: nat, b: nat) {
    && a < b <= |text|
    && (a == 0 || text[a - 1] == NEWLINE)
    && (forall j | a <= j < b - 1 :: text[j] != NEWLINE)
    && (b == |text| || text[b - 1] == NEWLINE)
  }

  /** A line fits if it is shorter than the budget; the first line may use all of it. */
  predicate Fits(a: nat, b: nat, budget: nat) {
    b - a < budget || (a == 0 && b <= budget)
  }

  ghost predicate LinesFit(text: string, end: nat, budget: nat) {
    forall a: nat, b: nat | IsLine(text, a, b) && b <= end :: Fits(a, b, budget)
  }

  /** An offset between two lines. */
  predicate Boundary(text: string, e: nat) {
    e <= |text| && (e == 0 || e == |text| || text[e - 1] == NEWLINE)
  }

  // ----- splitting and filtering -----

  lemma {:induction false} LinesSplit(text: string, lo: nat, mid: nat, hi: nat)
    requires lo <= mid <= hi <= |text|
    requires mid == lo || text[mid - 1] == NEWLINE
    ensures LinesIn(text, lo, hi) == LinesIn(text, lo, mid) + LinesIn(text, mid, hi)
    decreases hi - lo
  {
    if lo < mid {
      NewlineInPrefix(text, lo, mid, hi);
      var e := LineEnd(text, lo, mid);
      LinesSplit(text, e, mid, hi);
      SameFirstLine(text, lo, mid, hi, e, LinesIn(text, mid, hi));
    } else {
      assert [] + LinesIn(text, mid, hi) == LinesIn(text, mid, hi);
    }
  }

  lemma {:induction false} SameFirstLine(text: string, lo: nat, mid: nat, hi: nat, e: nat, rest: seq<Line>)
    requires lo < mid <= hi <= |text| && NextNewline(text, lo, mid) == NextNewline(text, lo, hi) < mid
    requires e == LineEnd(text, lo, mid) && LinesIn(text, e, hi) == LinesIn(text, e, mid) + rest
    ensures LinesIn(text, lo, hi) == LinesIn(text, lo, mid) + rest
  {
    var first := Line(lo, text[lo..NextNewline(text, lo, mid)]);
    LinesFrom(text, lo, mid, first, e);
    LinesFrom(text, lo, hi, first, e);
    Prepend(first, LinesIn(text, e, mid), LinesIn(text, e, hi), rest);
  }

  lemma {:induction false} Prepend<T>(first: T, a: seq<T>, b: seq<T>, rest: seq<T>)
    requires b == a + rest
    ensures [first] + b == [first] + a + rest
  {
  }

  lemma {:induction false} Associates<T>(a: seq<T>, b: seq<T>, c: seq<T>)
    ensures a + (b + c) == a + b + c
  {
  }

  lemma {:induction false} NewlineInPrefix(text: string, lo: nat, mid: nat, hi: nat)
    requires lo < mid <= hi <= |text| && text[mid - 1] == NEWLINE
    ensures NextNewline(text, lo, mid) == NextNewline(text, lo, hi) < mid
  {
    var i, j := NextNewline(text, lo, mid), NextNewline(text, lo, hi);
    assert i <= mid - 1;
    assert j <= i;
  }

  lemma {:induction false} KeptAppend(a: seq<Line>, b: seq<Line>, matches: string -> bool)
    ensures Kept(a + b, matches) == Kept(a, matches) + Kept(b, matches)
  {
    if a == [] {
      assert a + b == b;
    } else {
      assert (a + b)[1..] == a[1..] + b;
      KeptAppend(a[1..], b, matches);
    }
  }

  lemma {:induction false} KeptSplit(text: string, mid: nat, hi: nat, matches: string -> bool)
    requires mid <= hi <= |text| && (mid == 0 || text[mid - 1] == NEWLINE)
    ensures Kept(LinesIn(text, 0, hi), matches) == Kept(LinesIn(text, 0, mid), matches) + Kept(LinesIn(text, mid, hi), matches)
  {
    LinesSplit(text, 0, mid, hi);
    KeptAppend(LinesIn(text, 0, mid), LinesIn(text, mid, hi), matches);
  }

  // ----- one scan -----

  function AlignedStart(text: string, end: nat, budget: nat): nat
    requires 0 < end <= |text| && budget > 0
  {
    Aligned(text, Max(0, end - budget), end).1
  }

  /** A scan that finds a line start returns all matches between its two cursors. */
  lemma {:induction false} AlignedScan(text: string, end: nat, limit: nat, budget: nat, matches: string -> bool)
    requires 0 < end <= |text| && limit > 0 && budget > 0
    requires AlignedStart(text, end, budget) < end
    ensures var (items, next) := Scan(text, end, budget, limit, matches);
            && AlignedStart(text, end, budget) <= next < end
            && (next == 0 || text[next - 1] == NEWLINE)
            && items == Kept(LinesIn(text, next, end), matches)
  {
    var (lines, aligned) := Aligned(text, Max(0, end - budget), end);
    var stop := StopIndex(lines, matches, limit, |lines|);
    assert lines == LinesIn(text, aligned, end) && lines != [];
    LinesSuffix(text, aligned, end, stop);
  }

  /** A scan that finds none returns nothing and moves on by the whole budget. */
  lemma {:induction false} SkippingScan(text: string, end: nat, limit: nat, budget: nat, matches: string -> bool)
    requires 0 < end <= |text| && limit > 0 && budget > 0
    requires AlignedStart(text, end, budget) >= end
    ensures Scan(text, end, budget, limit, matches) == ([], end - budget) && end > budget
    ensures forall j | end - budget <= j < end - 1 :: text[j] != NEWLINE
  {
  }

  lemma {:induction false} LastLine(text: string, end: nat, a: nat) returns (start: nat)
    requires Boundary(text, end) && a < end
    requires forall j | a <= j < end - 1 :: text[j] != NEWLINE
    ensures IsLine(text, start, end) && start <= a
    decreases a
  {
    if a == 0 || text[a - 1] == NEWLINE {
      start := a;
    } else {
      start := LastLine(text, end, a - 1);
    }
  }

  lemma {:induction false} FittingLinesAlign(text: string, end: nat, budget: nat)
    requires Boundary(text, end) && end > 0 && budget > 0 && LinesFit(text, end, budget)
    ensures AlignedStart(text, end, budget) < end
  {
    var a := LastLine(text, end, end - 1);
    assert Fits(a, end, budget);
    if end > budget {
      var i := NextNewline(text, end - budget, end);
      assert text[a - 1] == NEWLINE;
      assert i <= a - 1;
    }
  }

  // ----- fitting lines suffice, for every query -----

  lemma {:induction false} PagesFromPartition(text: string, end: nat, limit: nat, budget: nat, matches: string -> bool)
    requires Boundary(text, end) && limit > 0 && budget > 0 && LinesFit(text, end, budget)
    ensures Reassemble(Pages(text, end, limit, budget, matches)) == Kept(LinesIn(text, 0, end), matches)
    decreases end
  {
    if end > 0 {
      FittingLinesAlign(text, end, budget);
      AlignedScan(text, end, limit, budget, matches);
      var (items, next) := Scan(text, end, budget, limit, matches);
      PagesFromPartition(text, next, limit, budget, matches);
      KeptSplit(text, next, end, matches);
      ReassembleFirst(text, end, limit, budget, matches);
    }
  }

  lemma {:induction false} ReassembleFirst(text: string, end: nat, limit: nat, budget: nat, matches: string -> bool)
    requires 0 < end <= |text| && limit > 0 && budget > 0
    ensures var (items, next) := Scan(text, end, budget, limit, matches);
            next < end && Reassemble(Pages(text, end, limit, budget, matches)) == Reassemble(Pages(text, next, limit, budget, matches)) + items
  {
    ScanFacts(text, end, budget, limit, matches);
    var (items, next) := Scan(text, end, budget, limit, matches);
    var rest := Pages(text, next, limit, budget, matches);
    assert ([items] + rest)[1..] == rest;
  }

  /** Main result, sufficiency: if every line fits, then for every query the pages, oldest first,
      are exactly the matching lines of the file, each once and in order. */
  lemma {:induction false} PagesPartitionTheFile(text: string, limit: nat, budget: nat, matches: string -> bool)
    requires limit > 0 && budget > 0 && LinesFit(text, |text|, budget)
    ensures Reassemble(Pages(text, |text|, limit, budget, matches)) == Matching(text, matches)
  {
    PagesFromPartition(text, |text|, limit, budget, matches);
  }

  // ----- and are necessary -----

  const ANY: string -> bool := s => true

  function Bytes(lines: seq<string>): nat {
    if lines == [] then 0 else |lines[0]| + Bytes(lines[1..])
  }

  /** Bytes of `[lo, hi)` that are not newlines. */
  function Printable(text: string, lo: nat, hi: nat): nat
    requires lo <= hi <= |text|
    decreases hi - lo
  {
    if lo == hi then 0 else (if text[lo] == NEWLINE then 0 else 1) + Printable(text, lo + 1, hi)
  }

  lemma {:induction false} PrintableSplit(text: string, lo: nat, mid: nat, hi: nat)
    requires lo <= mid <= hi <= |text|
    ensures Printable(text, lo, hi) == Printable(text, lo, mid) + Printable(text, mid, hi)
    decreases mid - lo
  {
    if lo < mid {
      PrintableSplit(text, lo + 1, mid, hi);
    }
  }

  lemma {:induction false} PrintableRun(text: string, lo: nat, hi: nat)
    requires lo <= hi <= |text| && forall j | lo <= j < hi :: text[j] != NEWLINE
    ensures Printable(text, lo, hi) == hi - lo
    decreases hi - lo
  {
    if lo < hi {
      PrintableRun(text, lo + 1, hi);
    }
  }

  lemma {:induction false} BytesAppend(a: seq<string>, b: seq<string>)
    ensures Bytes(a + b) == Bytes(a) + Bytes(b)
  {
    if a == [] {
      assert a + b == b;
    } else {
      assert (a + b)[1..] == a[1..] + b;
      BytesAppend(a[1..], b);
    }
  }

  /** All lines together hold all bytes but the newlines. */
  lemma {:induction false} LinesHoldPrintable(text: string, lo: nat, hi: nat)
    requires lo <= hi <= |text|
    ensures Bytes(Kept(LinesIn(text, lo, hi), ANY)) == Printable(text, lo, hi)
    decreases hi - lo
  {
    if lo < hi {
      var i, e := NextNewline(text, lo, hi), LineEnd(text, lo, hi);
      var line, rest := Line(lo, text[lo..i]), LinesIn(text, e, hi);
      LinesHoldPrintable(text, e, hi);
      assert ([line] + rest)[1..] == rest;
      assert ([line.text] + Kept(rest, ANY))[1..] == Kept(rest, ANY);
      PrintableRun(text, lo, i);
      PrintableSplit(text, lo, i, hi);
      PrintableSplit(text, i, e, hi);
    }
  }

  /** Wherever paging starts, it never returns more bytes than lie before its start. */
  lemma {:induction false} PagesHoldAtMost(text: string, end: nat, limit: nat, budget: nat)
    requires end <= |text| && limit > 0 && budget > 0
    ensures Bytes(Reassemble(Pages(text, end, limit, budget, ANY))) <= Printable(text, 0, end)
    decreases end
  {
    if end > 0 {
      ReassembleFirst(text, end, limit, budget, ANY);
      var (items, next) := Scan(text, end, budget, limit, ANY);
      PagesHoldAtMost(text, next, limit, budget);
      BytesAppend(Reassemble(Pages(text, next, limit, budget, ANY)), items);
      PrintableSplit(text, 0, next, end);
      if AlignedStart(text, end, budget) < end {
        AlignedScan(text, end, limit, budget, ANY);
        LinesHoldPrintable(text, next, end);
      } else {
        SkippingScan(text, end, limit, budget, ANY);
      }
    }
  }

  lemma {:induction false} SameSuffix<T>(a: seq<T>, b: seq<T>, c: seq<T>)
    requires a + c == b + c
    ensures a == b
  {
    assert |a| == |b|;
    assert forall i | 0 <= i < |a| :: (a + c)[i] == a[i] && (b + c)[i] == b[i];
  }

  /** The lines that an aligned scan covers fit. */
  lemma {:induction false} ScannedLinesFit(text: string, end: nat, budget: nat, next: nat, a: nat, b: nat)
    requires 0 < end <= |text| && budget > 0
    requires AlignedStart(text, end, budget) <= next < end && (next == 0 || text[next - 1] == NEWLINE)
    requires IsLine(text, a, b) && next < b <= end
    ensures Fits(a, b, budget)
  {
    assert a >= next;
  }

  lemma {:induction false} MoreLinesFit(text: string, end: nat, budget: nat, next: nat)
    requires 0 < end <= |text| && budget > 0
    requires AlignedStart(text, end, budget) <= next < end && (next == 0 || text[next - 1] == NEWLINE)
    requires LinesFit(text, next, budget)
    ensures LinesFit(text, end, budget)
  {
    forall a: nat, b: nat | IsLine(text, a, b) && b <= end
      ensures Fits(a, b, budget)
    {
      if b > next { ScannedLinesFit(text, end, budget, next, a, b); }
    }
  }

  lemma {:induction false} CompletePagesFit(text: string, end: nat, limit: nat, budget: nat)
    requires Boundary(text, end) && limit > 0 && budget > 1
    requires Reassemble(Pages(text, end, limit, budget, ANY)) == Kept(LinesIn(text, 0, end), ANY)
    ensures LinesFit(text, end, budget)
    decreases end
  {
    if end > 0 {
      if AlignedStart(text, end, budget) < end {
        var next := CompleteBefore(text, end, limit, budget);
        CompletePagesFit(text, next, limit, budget);
        MoreLinesFit(text, end, budget, next);
      } else {
        SkipLosesBytes(text, end, limit, budget);
      }
    }
  }

  /** If the pages from `end` on are complete, so are those after the first of them. */
  lemma {:induction false} CompleteBefore(text: string, end: nat, limit: nat, budget: nat) returns (next: nat)
    requires 0 < end && Boundary(text, end) && limit > 0 && budget > 1 && AlignedStart(text, end, budget) < end
    requires Reassemble(Pages(text, end, limit, budget, ANY)) == Kept(LinesIn(text, 0, end), ANY)
    ensures AlignedStart(text, end, budget) <= next < end && (next == 0 || text[next - 1] == NEWLINE)
    ensures Reassemble(Pages(text, next, limit, budget, ANY)) == Kept(LinesIn(text, 0, next), ANY)
  {
    ReassembleFirst(text, end, limit, budget, ANY);
    AlignedScan(text, end, limit, budget, ANY);
    var (items, end') := Scan(text, end, budget, limit, ANY);
    next := end';
    KeptSplit(text, next, end, ANY);
    SameSuffix(Reassemble(Pages(text, next, limit, budget, ANY)), Kept(LinesIn(text, 0, next), ANY), items);
  }

  /** A skipping scan loses at least one byte for good. */
  lemma {:induction false} SkipLosesBytes(text: string, end: nat, limit: nat, budget: nat)
    requires 0 < end <= |text| && limit > 0 && budget > 1
    requires AlignedStart(text, end, budget) >= end
    ensures Reassemble(Pages(text, end, limit, budget, ANY)) != Kept(LinesIn(text, 0, end), ANY)
  {
    SkippingScan(text, end, limit, budget, ANY);
    var start := end - budget;
    ReassembleFirst(text, end, limit, budget, ANY);
    var rest := Reassemble(Pages(text, start, limit, budget, ANY));
    assert rest + [] == rest;
    PagesHoldAtMost(text, start, limit, budget);
    LinesHoldPrintable(text, 0, end);
    PrintableSplit(text, 0, start, end);
    PrintableSplit(text, start, start + 1, end);
    PrintableRun(text, start, start + 1);
  }

  /** Main result, exact: with a budget of at least two bytes, following the cursors of the
      unfiltered query returns the file's lines exactly when every line fits. */
  lemma {:induction false} PagingIsCompleteIffLinesFit(text: string, limit: nat, budget: nat)
    requires limit > 0 && budget > 1
    ensures Reassemble(Pages(text, |text|, limit, budget, ANY)) == Matching(text, ANY) <==> LinesFit(text, |text|, budget)
  {
    if LinesFit(text, |text|, budget) {
      PagesPartitionTheFile(text, limit, budget, ANY);
    } else if Reassemble(Pages(text, |text|, limit, budget, ANY)) == Matching(text, ANY) {
      CompletePagesFit(text, |text|, limit, budget);
    }
  }

  /** A line that does not fit and is not returned as it is. */
  lemma {:induction false} ALineIsLost()
    ensures Reassemble(Pages("ab\n", 3, 1, 2, ANY)) != Matching("ab\n", ANY)
  {
    assert IsLine("ab\n", 0, 3) && !Fits(0, 3, 2);
    PagingIsCompleteIffLinesFit("ab\n", 1, 2);
  }

  // ----- the caller's side -----

  /** Where the cursor stands in the only file; 0 once it is past it. */
  function EndIn(c: Cursor): nat {
    if c.fileIndex == 0 then c.nextEnd else 0
  }

  lemma {:induction false} ReassembleMore(pages: seq<seq<string>>, page: seq<string>)
    ensures Reassemble(pages + [page]) == page + Reassemble(pages)
  {
    if pages == [] {
      assert pages + [page] == [page] && [page][1..] == [];
      assert [] + page == page && page + [] == page;
    } else {
      assert (pages + [page])[1..] == pages[1..] + [page];
      ReassembleMore(pages[1..], page);
      Associates(page, Reassemble(pages[1..]), pages[0]);
    }
  }

  lemma {:induction false} PageTaken(text: string, end: nat, limit: nat, budget: nat, matches: string -> bool, pages: seq<seq<string>>)
    requires 0 < end <= |text| && limit > 0 && budget > 0
    ensures Scan(text, end, budget, limit, matches).1 < end
    ensures var (items, next) := Scan(text, end, budget, limit, matches);
            Reassemble(Pages(text, end, limit, budget, matches)) + Reassemble(pages)
            == Reassemble(Pages(text, next, limit, budget, matches)) + Reassemble(pages + [items])
  {
    ScanFacts(text, end, budget, limit, matches);
    var (items, next) := Scan(text, end, budget, limit, matches);
    var rest := Pages(text, next, limit, budget, matches);
    assert ([items] + rest)[1..] == rest;
    ReassembleMore(pages, items);
    Associates(Reassemble(rest), items, Reassemble(pages));
  }

  /** A caller that follows the cursors of one file until there is no more. */
  method FollowCursors(text: string, limit: nat, budget: nat, matches: string -> bool) returns (pages: seq<seq<string>>)
    requires limit > 0 && budget > 0
    ensures Reassemble(pages) == Reassemble(Pages(text, |text|, limit, budget, matches))
    ensures LinesFit(text, |text|, budget) ==> Reassemble(pages) == Matching(text, matches)
  {
    var cursor, hasMore := Open([text], 0), true;
    pages := [];
    ghost var all := Reassemble(Pages(text, |text|, limit, budget, matches));
    assert all + [] == all;
    while hasMore
      invariant ValidCursor([text], cursor) && (hasMore <==> cursor.fileIndex < 1)
      invariant all == Reassemble(Pages(text, EndIn(cursor), limit, budget, matches)) + Reassemble(pages)
      decreases 1 - cursor.fileIndex, cursor.nextEnd
    {
      var end := cursor.nextEnd;
      var items, next, more := ReadPage([text], cursor, limit, budget, matches);
      if end > 0 {
        PageTaken(text, end, limit, budget, matches, pages);
      } else {
        ReassembleMore(pages, items);
        assert [] + Reassemble(pages) == Reassemble(pages);
      }
      pages, cursor, hasMore := pages + [items], next, more;
    }
    assert all == Reassemble(pages) by { assert [] + Reassemble(pages) == Reassemble(pages); }
    if LinesFit(text, |text|, budget) {
      PagesPartitionTheFile(text, limit, budget, matches);
    }
  }
}
