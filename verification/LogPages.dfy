/**
 Backward paging through log files. A page reads at most `budget` bytes before the cursor,
 keeps at most `limit` matching lines and returns where the next page ends. Following the
 cursors through one file returns every matching line exactly once, and does so for
 all queries exactly when every line fits the budget.

 Whether a line matches is a predicate on its text.
 */
module LogPages {
  import opened Common

  datatype Line = Line(start: nat, text: string)

  /** The next page ends at byte `nextEnd` of file `fileIndex`. */
  datatype Cursor = Cursor(fileIndex: nat, nextEnd: nat)

  // ----- lines -----

  /** The first newline in `[lo, hi)`, or `hi`. */
  function NextNewline(text: string, lo: nat, hi: nat): (i: nat)
    requires lo <= hi <= |text|
    ensures lo <= i <= hi
    ensures i < hi ==> text[i] == NEWLINE
    ensures forall j | lo <= j < i :: text[j] != NEWLINE
    decreases hi - lo
  {
    if lo == hi || text[lo] == NEWLINE then lo else NextNewline(text, lo + 1, hi)
  }

  /** Where the line that starts at `lo` ends, its newline included. */
  function LineEnd(text: string, lo: nat, hi: nat): (e: nat)
    requires lo < hi <= |text|
    ensures lo < e <= hi && (e < hi ==> text[e - 1] == NEWLINE)
  {
    var i := NextNewline(text, lo, hi);
    if i < hi then i + 1 else hi
  }

  /** The lines of bytes `[lo, hi)`; a final newline does not open another line. */
  function LinesIn(text: string, lo: nat, hi: nat): seq<Line>
    requires lo <= hi <= |text|
    decreases hi - lo
  {
    if lo == hi then []
    else [Line(lo, text[lo..NextNewline(text, lo, hi)])] + LinesIn(text, LineEnd(text, lo, hi), hi)
  }

  /** The texts of the matching lines, in order. */
  function Kept(lines: seq<Line>, matches: string -> bool): seq<string> {
    if lines == [] then []
    else (if matches(lines[0].text) then [lines[0].text] else []) + Kept(lines[1..], matches)
  }

  /** The lines a query is about: the reference for everything below. */
  function Matching(text: string, matches: string -> bool): seq<string> {
    Kept(LinesIn(text, 0, |text|), matches)
  }

  // ----- one scan, as the source performs it -----

  /** The whole lines of bytes `[start, end)` and where they begin. */
  function Aligned(text: string, start: nat, end: nat): (seq<Line>, nat)
    requires start < end <= |text|
  {
    if start == 0 then (LinesIn(text, 0, end), 0)
    else
      var i := NextNewline(text, start, end);
      if i == end then ([], end) else (LinesIn(text, i + 1, end), i + 1)
  }

  method SplitLines(text: string, start: nat, end: nat) returns (lines: seq<Line>, alignedStart: nat)
    requires start < end <= |text|
    ensures (lines, alignedStart) == Aligned(text, start, end)
  {
    alignedStart := start;
    if start > 0 {
      var i := NextNewline(text, start, end);
      if i == end {
        return [], end;
      }
      alignedStart := i + 1;
    }
    lines := [];
    var offset: nat := alignedStart;
    while offset < end
      invariant alignedStart <= offset <= end
      invariant LinesIn(text, alignedStart, end) == lines + LinesIn(text, offset, end)
    {
      var line := Line(offset, text[offset..NextNewline(text, offset, end)]);
      NextLine(text, offset, end, lines, line);
      lines := lines + [line];
      offset := LineEnd(text, offset, end);
    }
    assert lines + [] == lines;
  }

  lemma {:induction false} NextLine(text: string, offset: nat, end: nat, before: seq<Line>, line: Line)
    requires offset < end <= |text| && line == Line(offset, text[offset..NextNewline(text, offset, end)])
    ensures before + LinesIn(text, offset, end) == before + [line] + LinesIn(text, LineEnd(text, offset, end), end)
  {
  }

  /** Going back from line `i`, the index at which `want` matching lines have been seen, or 0. */
  function StopIndex(lines: seq<Line>, matches: string -> bool, want: nat, i: nat): (k: nat)
    requires want > 0 && i <= |lines|
    ensures k <= i && (i > 0 ==> k < i)
    decreases i
  {
    if i == 0 then 0
    else if !matches(lines[i - 1].text) then StopIndex(lines, matches, want, i - 1)
    else if want == 1 then i - 1
    else StopIndex(lines, matches, want - 1, i - 1)
  }

  /** One scan: the matching lines in file order and where the next scan ends. */
  function Scan(text: string, oldEnd: nat, remaining: nat, want: nat, matches: string -> bool): (seq<string>, nat)
    requires 0 < oldEnd <= |text| && remaining > 0 && want > 0
  {
    var start := Max(0, oldEnd - remaining);
    var (lines, aligned) := Aligned(text, start, oldEnd);
    var stop := StopIndex(lines, matches, want, |lines|);
    var nextEnd := if stop < |lines| then lines[stop].start else aligned;
    (Kept(lines[stop..], matches), if oldEnd <= nextEnd then start else nextEnd)
  }

  /** Line `k` starts inside the range: at its front, or behind a newline. */
  predicate StartsInside(text: string, lo: nat, hi: nat, lines: seq<Line>, k: nat) {
    && k < |lines| && lo <= lines[k].start < hi <= |text|
    && if k == 0 then lines[k].start == lo else lo < lines[k].start && text[lines[k].start - 1] == NEWLINE
  }

  /** From line `k` on, the lines of a range are the lines of the rest of the range. */
  lemma {:induction false} LinesSuffix(text: string, lo: nat, hi: nat, k: nat)
    requires lo <= hi <= |text| && k < |LinesIn(text, lo, hi)|
    ensures StartsInside(text, lo, hi, LinesIn(text, lo, hi), k)
    ensures LinesIn(text, lo, hi)[k..] == LinesIn(text, LinesIn(text, lo, hi)[k].start, hi)
    decreases k
  {
    var e, first := LineEnd(text, lo, hi), Line(lo, text[lo..NextNewline(text, lo, hi)]);
    LinesFrom(text, lo, hi, first, e);
    if k > 0 {
      LinesSuffix(text, e, hi, k - 1);
      OneLineMore(text, lo, e, hi, first, LinesIn(text, e, hi), k);
    }
  }

  lemma {:induction false} OneLineMore(text: string, lo: nat, e: nat, hi: nat, first: Line, rest: seq<Line>, k: nat)
    requires k > 0 && lo < e < hi <= |text| && text[e - 1] == NEWLINE && StartsInside(text, e, hi, rest, k - 1)
    ensures StartsInside(text, lo, hi, [first] + rest, k)
    ensures ([first] + rest)[k] == rest[k - 1] && ([first] + rest)[k..] == rest[k - 1..]
  {
  }

  lemma {:induction false} LinesFrom(text: string, lo: nat, hi: nat, first: Line, e: nat)
    requires lo < hi <= |text| && e == LineEnd(text, lo, hi) && first == Line(lo, text[lo..NextNewline(text, lo, hi)])
    ensures LinesIn(text, lo, hi) == [first] + LinesIn(text, e, hi)
  {
  }

  lemma {:induction false} KeptStep(lines: seq<Line>, matches: string -> bool, i: nat)
    requires 0 < i <= |lines|
    ensures Kept(lines[i - 1..], matches) == (if matches(lines[i - 1].text) then [lines[i - 1].text] else []) + Kept(lines[i..], matches)
  {
    assert lines[i - 1..][1..] == lines[i..];
  }

  /** How many lines match from line `i` on. */
  function Matched(lines: seq<Line>, matches: string -> bool, i: nat): nat
    requires i <= |lines|
    decreases |lines| - i
  {
    if i == |lines| then 0
    else (if matches(lines[i].text) then 1 else 0) + Matched(lines, matches, i + 1)
  }

  lemma {:induction false} MatchedAreKept(lines: seq<Line>, matches: string -> bool, i: nat)
    requires i <= |lines|
    ensures |Kept(lines[i..], matches)| == Matched(lines, matches, i)
    decreases |lines| - i
  {
    if i < |lines| {
      KeptStep(lines, matches, i + 1);
      MatchedAreKept(lines, matches, i + 1);
    }
  }

  /** Stopping keeps at most `want` further lines, and fewer only at the front. */
  lemma {:induction false} CollectedAtMost(lines: seq<Line>, matches: string -> bool, want: nat, i: nat)
    requires want > 0 && i <= |lines|
    ensures var stop, rest := StopIndex(lines, matches, want, i), Matched(lines, matches, i);
            var kept := Matched(lines, matches, stop);
            rest <= kept <= rest + want && (kept < rest + want ==> stop == 0)
    decreases i
  {
    if i > 0 {
      if !matches(lines[i - 1].text) {
        CollectedAtMost(lines, matches, want, i - 1);
      } else if want > 1 {
        CollectedAtMost(lines, matches, want - 1, i - 1);
      }
    }
  }

  /** Collects matching lines from the last one back, until there are `want` of them. */
  method Collect(lines: seq<Line>, want: nat, alignedStart: nat, matches: string -> bool) returns (items: seq<string>, nextEnd: nat)
    requires want > 0 && (lines != [] ==> lines[0].start == alignedStart)
    ensures var stop := StopIndex(lines, matches, want, |lines|);
            && items == Kept(lines[stop..], matches)
            && nextEnd == if stop < |lines| then lines[stop].start else alignedStart
  {
    items, nextEnd := [], alignedStart;
    ghost var stop := StopIndex(lines, matches, want, |lines|);
    var index := |lines|;
    while index > 0
      invariant 0 <= index <= |lines| && |items| < want
      invariant stop == StopIndex(lines, matches, want - |items|, index)
      invariant items == Kept(lines[index..], matches)
    {
      KeptStep(lines, matches, index);
      index := index - 1;
      if matches(lines[index].text) {
        items := [lines[index].text] + items;
        if |items| == want {
          nextEnd := lines[index].start;
          return;
        }
      }
    }
  }

  method ScanFile(text: string, oldEnd: nat, remaining: nat, want: nat, matches: string -> bool) returns (items: seq<string>, nextEnd: nat)
    requires 0 < oldEnd <= |text| && remaining > 0 && want > 0
    ensures (items, nextEnd) == Scan(text, oldEnd, remaining, want, matches)
  {
    var start := Max(0, oldEnd - remaining);
    var lines, alignedStart := SplitLines(text, start, oldEnd);
    if lines != [] {
      LinesSuffix(text, alignedStart, oldEnd, 0);
    }
    items, nextEnd := Collect(lines, want, alignedStart, matches);
    // A line larger than the whole budget cannot be returned, but paging must go on.
    if oldEnd - nextEnd <= 0 {
      nextEnd := start;
    }
  }

  /** Facts about one scan that hold wherever it starts. */
  lemma {:induction false} ScanFacts(text: string, oldEnd: nat, remaining: nat, want: nat, matches: string -> bool)
    requires 0 < oldEnd <= |text| && remaining > 0 && want > 0
    ensures var (items, nextEnd) := Scan(text, oldEnd, remaining, want, matches);
            && nextEnd < oldEnd
            && |items| <= want
            && (oldEnd <= remaining ==> |items| == want || nextEnd == 0)
  {
    var start := Max(0, oldEnd - remaining);
    var (lines, aligned) := Aligned(text, start, oldEnd);
    var stop := StopIndex(lines, matches, want, |lines|);
    CollectedAtMost(lines, matches, want, |lines|);
    MatchedAreKept(lines, matches, stop);
    if stop < |lines| {
      LinesSuffix(text, aligned, oldEnd, stop);
    }
  }

  // ----- one page over a list of files -----

  predicate ValidCursor(files: seq<string>, c: Cursor) {
    c.fileIndex <= |files| && (c.fileIndex < |files| ==> c.nextEnd <= |files[c.fileIndex]|)
  }

  /** The cursor at the end of file `i`. */
  function Open(files: seq<string>, i: nat): Cursor {
    Cursor(i, if i < |files| then |files[i]| else 0)
  }

  function After(files: seq<string>, fileIndex: nat, nextEnd: nat): Cursor {
    if nextEnd == 0 then Open(files, fileIndex + 1) else Cursor(fileIndex, nextEnd)
  }

  /** Further on: a later file, or an earlier end in the same file. */
  predicate Later(c: Cursor, next: Cursor) {
    next.fileIndex > c.fileIndex || (next.fileIndex == c.fileIndex && next.nextEnd < c.nextEnd)
  }

  /** One turn of the page loop: past an empty file, or one scan. */
  method ReadMore(files: seq<string>, c: Cursor, remaining: nat, want: nat, matches: string -> bool) returns (found: seq<string>, next: Cursor, left: nat)
    requires ValidCursor(files, c) && c.fileIndex < |files| && remaining > 0 && want > 0
    ensures ValidCursor(files, next) && Later(c, next) && |found| <= want
    ensures c.nextEnd == 0 ==> found == [] && next == Open(files, c.fileIndex + 1)
    ensures c.nextEnd > 0 ==> IsScan(files, c, remaining, want, matches, found, next)
    ensures c.nextEnd > 0 ==> next.fileIndex > c.fileIndex || left == 0 || |found| == want
  {
    if c.nextEnd == 0 {
      return [], Open(files, c.fileIndex + 1), remaining;
    }
    var text, nextEnd := files[c.fileIndex], 0;
    ScanFacts(text, c.nextEnd, remaining, want, matches);
    found, nextEnd := ScanFile(text, c.nextEnd, remaining, want, matches);
    left := remaining - (c.nextEnd - Max(0, c.nextEnd - remaining));
    next := After(files, c.fileIndex, nextEnd);
  }

  predicate IsScan(files: seq<string>, c: Cursor, remaining: nat, want: nat, matches: string -> bool, items: seq<string>, next: Cursor) {
    && ValidCursor(files, c) && c.fileIndex < |files| && c.nextEnd > 0 && remaining > 0 && want > 0
    && var (found, end) := Scan(files[c.fileIndex], c.nextEnd, remaining, want, matches);
       items == found && next == After(files, c.fileIndex, end)
  }

  /** What a page over one file is: nothing yet, nothing at all if it starts at the front, or one scan. */
  predicate PageOfOne(files: seq<string>, cursor: Cursor, limit: nat, budget: nat, matches: string -> bool,
                      items: seq<string>, next: Cursor, remaining: nat)
  {
    if next == cursor then items == [] && remaining == budget
    else
      && (next.fileIndex == 1 || remaining == 0 || |items| == limit)
      && if cursor.nextEnd == 0 then items == [] && next.fileIndex == 1
         else IsScan(files, cursor, budget, limit, matches, items, next)
  }

  /** One page. It never exceeds its limit, and if it may read at all it makes progress, so that
      following cursors ends on any files. On a single file a page is one scan. */
  method ReadPage(files: seq<string>, cursor: Cursor, limit: nat, budget: nat, matches: string -> bool) returns (items: seq<string>, next: Cursor, hasMore: bool)
    requires ValidCursor(files, cursor)
    ensures ValidCursor(files, next) && |items| <= limit
    ensures cursor.fileIndex < |files| && budget > 0 && limit > 0 ==> Later(cursor, next)
    ensures hasMore <==> next.fileIndex < |files|
    ensures |files| == 1 && cursor.fileIndex == 0 && budget > 0 && limit > 0 ==>
              if cursor.nextEnd == 0 then items == [] else IsScan(files, cursor, budget, limit, matches, items, next)
  {
    items, next := [], cursor;
    var remaining: nat := budget;
    while next.fileIndex < |files| && remaining > 0 && |items| < limit
      invariant ValidCursor(files, next) && |items| <= limit
      invariant if next == cursor then items == [] && remaining == budget else Later(cursor, next)
      invariant |files| == 1 && cursor.fileIndex == 0 ==> PageOfOne(files, cursor, limit, budget, matches, items, next, remaining)
      decreases |files| - next.fileIndex, next.nextEnd
    {
      var found, later, left := ReadMore(files, next, remaining, limit - |items|, matches);
      assert items == [] ==> items + found == found;
      items, next, remaining := items + found, later, left;
    }
    hasMore := next.fileIndex < |files|;
  }
}
