/**
 When the recent-log buffer claims coverage and which lines it keeps, told from the writes alone.
 */
module RecentCoverage {
  import opened Common
  import opened Schedules
  import opened RecentLog

  // ----- what the writes say -----

  /** The byte after which a line is known to be larger than the buffer, newline included. */
  predicate Outgrows(k: Limits, s: Stream, c: char) {
    && |s.pending| + (if c == NEWLINE then 1 else 2) > k.maxBytes
    && (s.pending == "" || |s.pending| + 1 <= k.maxBytes)
  }

  /** When lines outgrew the buffer, within one write. */
  function OutgrownIn(k: Limits, s: Stream, p: string, at: int): seq<int>
    decreases |p|
  {
    if p == "" then []
    else (if Outgrows(k, s, p[0]) then [at] else []) + OutgrownIn(k, Append(s, p[0], at), p[1..], at)
  }

  /** When lines outgrew the buffer, over a run. */
  function Outgrown(k: Limits, ops: seq<Op>): seq<int> {
    if ops == [] then []
    else
      var before, op := ops[..|ops| - 1], ops[|ops| - 1];
      Outgrown(k, before) + if op.WriteOp? then OutgrownIn(k, Written(before), op.bytes, op.at) else []
  }

  predicate TooOld(k: Limits, line: Stamped, now: int) {
    k.maxAge > 0 && line.at < now - k.maxAge
  }

  predicate Chronological(ops: seq<Op>) {
    forall i, j | 0 <= i < j < |ops| :: ops[i].at <= ops[j].at
  }

  predicate EndsBy(ops: seq<Op>, now: int) {
    forall i | 0 <= i < |ops| :: ops[i].at <= now
  }

  // ----- where coverage starts -----

  predicate LinesBefore(lines: seq<Stamped>, t: int) {
    forall i | 0 <= i < |lines| :: lines[i].at < t
  }

  predicate TimesBefore(times: seq<int>, t: int) {
    forall i | 0 <= i < |times| :: times[i] < t
  }

  function AfterLines(start: int, lines: seq<Stamped>): int {
    if lines == [] then start else Later(AfterLines(start, lines[..|lines| - 1]), lines[|lines| - 1].at + 1)
  }

  function AfterTimes(start: int, times: seq<int>): int {
    if times == [] then start else Later(AfterTimes(start, times[..|times| - 1]), times[|times| - 1] + 1)
  }

  /** Coverage starts at the start of the buffer, or right after the last line it forgot or could not take. */
  predicate Explains(startedAt: int, coverageFrom: int, forgotten: seq<Stamped>, outgrown: seq<int>) {
    coverageFrom == Later(AfterLines(startedAt, forgotten), AfterTimes(startedAt, outgrown))
  }

  function Forgotten(b: Buffer, small: seq<Stamped>): seq<Stamped> {
    if |b.lines| <= |small| then small[..|small| - |b.lines|] else []
  }

  ghost predicate Bounded(k: Limits, startedAt: int, b: Buffer, s: Stream, outgrown: seq<int>) {
    Tracks(k, b, s) && Explains(startedAt, b.coverageFrom, Forgotten(b, Small(s.lines, k.maxBytes)), outgrown)
  }

  lemma {:induction false} OneMoreForgotten(startedAt: int, from: int, forgotten: seq<Stamped>, outgrown: seq<int>, line: Stamped)
    requires Explains(startedAt, from, forgotten, outgrown)
    ensures Explains(startedAt, Later(from, line.at + 1), forgotten + [line], outgrown)
  {
    assert (forgotten + [line])[..|forgotten|] == forgotten;
  }

  lemma {:induction false} OneMoreOutgrown(startedAt: int, from: int, forgotten: seq<Stamped>, outgrown: seq<int>, at: int)
    requires Explains(startedAt, from, forgotten, outgrown)
    ensures Explains(startedAt, Later(from, at + 1), forgotten, outgrown + [at])
  {
    assert (outgrown + [at])[..|outgrown|] == outgrown;
  }

  lemma {:induction false} EvictExplains(k: Limits, startedAt: int, b: Buffer, now: int, small: seq<Stamped>, outgrown: seq<int>)
    requires Retains(b.lines, small, b.coverageFrom) && Explains(startedAt, b.coverageFrom, Forgotten(b, small), outgrown)
    ensures var e := Evict(k, b, now);
            Explains(startedAt, e.coverageFrom, Forgotten(e, small), outgrown)
    decreases |b.lines|
  {
    if b.lines != [] && MustEvict(k, b, now) {
      var n := |small| - |b.lines|;
      assert small[n] == b.lines[0] && small[n + 1..] == b.lines[1..];
      assert small[..n + 1] == small[..n] + [b.lines[0]];
      OneMoreForgotten(startedAt, b.coverageFrom, Forgotten(b, small), outgrown, b.lines[0]);
      EvictExplains(k, startedAt, EvictOne(b), now, small, outgrown);
    }
  }

  lemma {:induction false} EvictBounded(k: Limits, startedAt: int, b: Buffer, s: Stream, outgrown: seq<int>, now: int)
    requires Bounded(k, startedAt, b, s, outgrown)
    ensures Bounded(k, startedAt, Evict(k, b, now), s, outgrown)
  {
    EvictTracks(k, b, s, now);
    EvictExplains(k, startedAt, b, now, Small(s.lines, k.maxBytes), outgrown);
  }

  lemma {:induction false} FittingLineExplains(k: Limits, startedAt: int, b: Buffer, small: seq<Stamped>, outgrown: seq<int>, now: int, line: Stamped)
    requires Retains(b.lines, small, b.coverageFrom) && Explains(startedAt, b.coverageFrom, Forgotten(b, small), outgrown)
    requires line == Stamped(now, b.partial)
    ensures Explains(startedAt, Complete(k, b, now).coverageFrom, Forgotten(Complete(k, b, now), small + [line]), outgrown)
  {
    var grown := b.(partial := "", lines := b.lines + [line], bytes := b.bytes + Size(line));
    GrowRetains(b.lines, small, b.coverageFrom, line);
    SameForgotten(b, grown, small, line);
    EvictExplains(k, startedAt, grown, now, small + [line], outgrown);
  }

  lemma {:induction false} SameForgotten(b: Buffer, grown: Buffer, small: seq<Stamped>, line: Stamped)
    requires |b.lines| <= |small| && grown.lines == b.lines + [line]
    ensures Forgotten(grown, small + [line]) == Forgotten(b, small)
  {
  }

  lemma {:induction false} EmptyLineExplains(k: Limits, startedAt: int, b: Buffer, outgrown: seq<int>, now: int)
    requires k.maxBytes <= 0 && b.lines == [] && Explains(startedAt, b.coverageFrom, [], outgrown)
    ensures Explains(startedAt, Complete(k, b, now).coverageFrom, Forgotten(Complete(k, b, now), []), outgrown + [now])
  {
    var line := Stamped(now, b.partial);
    var grown := b.(partial := "", lines := b.lines + [line], bytes := b.bytes + Size(line));
    assert grown.lines == [line] && EvictOne(grown).lines == [];
    assert Evict(k, grown, now) == EvictOne(grown);
    OneMoreOutgrown(startedAt, b.coverageFrom, [], outgrown, now);
  }

  lemma {:induction false} CompleteExplains(k: Limits, startedAt: int, b: Buffer, s: Stream, outgrown: seq<int>, now: int)
    requires Bounded(k, startedAt, b, s, outgrown) && !b.dropping
    ensures Explains(startedAt, Complete(k, b, now).coverageFrom,
                     Forgotten(Complete(k, b, now), Small(s.lines + [Stamped(now, s.pending)], k.maxBytes)),
                     outgrown + if Outgrows(k, s, NEWLINE) then [now] else [])
  {
    var line, small := Stamped(now, s.pending), Small(s.lines, k.maxBytes);
    SmallAppend(s.lines, line, k.maxBytes);
    if Size(line) <= k.maxBytes {
      assert outgrown + [] == outgrown;
      FittingLineExplains(k, startedAt, b, small, outgrown, now, line);
    } else {
      NothingSmall(s.lines, k.maxBytes);
      NothingSmall(s.lines + [line], k.maxBytes);
      EmptyLineExplains(k, startedAt, b, outgrown, now);
    }
  }

  lemma {:induction false} PutBounded(k: Limits, startedAt: int, b: Buffer, s: Stream, outgrown: seq<int>, c: char, now: int)
    requires Bounded(k, startedAt, b, s, outgrown)
    ensures Bounded(k, startedAt, Put(k, b, c, now), Append(s, c, now), outgrown + if Outgrows(k, s, c) then [now] else [])
  {
    PutTracks(k, b, s, c, now);
    if !b.dropping && c == NEWLINE {
      CompleteExplains(k, startedAt, b, s, outgrown, now);
    } else {
      OtherByteExplains(k, startedAt, b, s, outgrown, c, now);
    }
  }

  lemma {:induction false} OtherByteExplains(k: Limits, startedAt: int, b: Buffer, s: Stream, outgrown: seq<int>, c: char, now: int)
    requires Bounded(k, startedAt, b, s, outgrown) && (b.dropping || c != NEWLINE)
    ensures Explains(startedAt, Put(k, b, c, now).coverageFrom, Forgotten(Put(k, b, c, now), Small(Append(s, c, now).lines, k.maxBytes)),
                     outgrown + if Outgrows(k, s, c) then [now] else [])
  {
    assert outgrown + [] == outgrown;
    if c == NEWLINE {
      SmallAppend(s.lines, Stamped(now, s.pending), k.maxBytes);
      assert Small(s.lines, k.maxBytes) + [] == Small(s.lines, k.maxBytes);
    } else if Outgrows(k, s, c) {
      OneMoreOutgrown(startedAt, b.coverageFrom, Forgotten(b, Small(s.lines, k.maxBytes)), outgrown, now);
    }
  }

  lemma {:induction false} Regroup(a: seq<int>, b: seq<int>, c: seq<int>)
    ensures a + b + c == a + (b + c)
  {
  }

  lemma {:induction false} PutAllBounded(k: Limits, startedAt: int, b: Buffer, s: Stream, outgrown: seq<int>, p: string, now: int)
    requires Bounded(k, startedAt, b, s, outgrown)
    ensures Bounded(k, startedAt, PutAll(k, b, p, now), AppendAll(s, p, now), outgrown + OutgrownIn(k, s, p, now))
    decreases |p|, 0
  {
    if p == "" {
      assert outgrown + [] == outgrown;
    } else {
      PutBounded(k, startedAt, b, s, outgrown, p[0], now);
      RestBounded(k, startedAt, b, s, outgrown, p, now, if Outgrows(k, s, p[0]) then [now] else []);
    }
  }

  lemma {:induction false} RestBounded(k: Limits, startedAt: int, b: Buffer, s: Stream, outgrown: seq<int>, p: string, now: int, first: seq<int>)
    requires p != "" && first == if Outgrows(k, s, p[0]) then [now] else []
    requires Bounded(k, startedAt, Put(k, b, p[0], now), Append(s, p[0], now), outgrown + first)
    ensures Bounded(k, startedAt, PutAll(k, b, p, now), AppendAll(s, p, now), outgrown + OutgrownIn(k, s, p, now))
    decreases |p| - 1, 1
  {
    PutAllBounded(k, startedAt, Put(k, b, p[0], now), Append(s, p[0], now), outgrown + first, p[1..], now);
    FirstByte(k, b, s, outgrown, first, p, now);
  }

  lemma {:induction false} FirstByte(k: Limits, b: Buffer, s: Stream, outgrown: seq<int>, first: seq<int>, p: string, now: int)
    requires p != "" && first == if Outgrows(k, s, p[0]) then [now] else []
    ensures PutAll(k, b, p, now) == PutAll(k, Put(k, b, p[0], now), p[1..], now)
    ensures AppendAll(s, p, now) == AppendAll(Append(s, p[0], now), p[1..], now)
    ensures outgrown + OutgrownIn(k, s, p, now) == outgrown + first + OutgrownIn(k, Append(s, p[0], now), p[1..], now)
  {
    Regroup(outgrown, first, OutgrownIn(k, Append(s, p[0], now), p[1..], now));
  }

  lemma {:induction false} RunBounded(k: Limits, startedAt: int, ops: seq<Op>)
    ensures Bounded(k, startedAt, Run(k, startedAt, ops), Written(ops), Outgrown(k, ops))
  {
    if ops == [] {
      RunTracks(k, startedAt, ops);
    } else {
      var n := |ops| - 1;
      var b, s, outgrown, op := Run(k, startedAt, ops[..n]), Written(ops[..n]), Outgrown(k, ops[..n]), ops[n];
      RunBounded(k, startedAt, ops[..n]);
      EvictBounded(k, startedAt, b, s, outgrown, op.at);
      if op.WriteOp? {
        if op.bytes == "" {
          assert outgrown + [] == outgrown;
        } else {
          PutAllBounded(k, startedAt, Evict(k, b, op.at), s, outgrown, op.bytes, op.at);
        }
      } else {
        assert outgrown + [] == outgrown;
      }
    }
  }

  /** After any run, a snapshot claims coverage exactly if the span starts within the life and the age bound of the
      buffer, after every line it forgot and after every moment a line outgrew it. */
  lemma {:induction false} CoveredIffNothingLost(k: Limits, startedAt: int, ops: seq<Op>, since: int, now: int)
    ensures var answer, small := AnswerAt(k, startedAt, ops, now), Small(Written(ops).lines, k.maxBytes);
            Covers(k, answer, since, now) <==>
            && since != ZERO_TIME && since >= startedAt && (k.maxAge > 0 ==> since >= now - k.maxAge)
            && LinesBefore(Forgotten(answer, small), since) && TimesBefore(Outgrown(k, ops), since)
  {
    RunBounded(k, startedAt, ops);
    EvictBounded(k, startedAt, Run(k, startedAt, ops), Written(ops), Outgrown(k, ops), now);
    var answer, small := AnswerAt(k, startedAt, ops, now), Small(Written(ops).lines, k.maxBytes);
    FromIsTheLast(startedAt, answer.coverageFrom, Forgotten(answer, small), Outgrown(k, ops), since);
  }

  lemma {:induction false} FromIsTheLast(startedAt: int, from: int, forgotten: seq<Stamped>, outgrown: seq<int>, since: int)
    requires Explains(startedAt, from, forgotten, outgrown)
    ensures since >= from <==> since >= startedAt && LinesBefore(forgotten, since) && TimesBefore(outgrown, since)
  {
    AfterAllLines(startedAt, forgotten, since);
    AfterAllTimes(startedAt, outgrown, since);
  }

  lemma {:induction false} AfterAllLines(start: int, lines: seq<Stamped>, since: int)
    ensures since >= AfterLines(start, lines) <==> since >= start && LinesBefore(lines, since)
  {
    if lines != [] {
      AfterAllLines(start, lines[..|lines| - 1], since);
      assert forall i | 0 <= i < |lines| - 1 :: lines[..|lines| - 1][i] == lines[i];
    }
  }

  lemma {:induction false} AfterAllTimes(start: int, times: seq<int>, since: int)
    ensures since >= AfterTimes(start, times) <==> since >= start && TimesBefore(times, since)
  {
    if times != [] {
      AfterAllTimes(start, times[..|times| - 1], since);
      assert forall i | 0 <= i < |times| - 1 :: times[..|times| - 1][i] == times[i];
    }
  }

  // ----- which lines are kept -----

  /** The line is too old, or too many bytes have followed it. */
  predicate Passed(k: Limits, small: seq<Stamped>, i: nat, now: int)
    requires i < |small|
  {
    TooOld(k, small[i], now) || TotalSize(small[i..]) > k.maxBytes
  }

  predicate Justified(k: Limits, b: Buffer, small: seq<Stamped>, now: int) {
    forall i | 0 <= i < |small| - |b.lines| :: Passed(k, small, i, now)
  }

  predicate InOrder(lines: seq<Stamped>, now: int) {
    && (forall i, j | 0 <= i < j < |lines| :: lines[i].at <= lines[j].at)
    && (forall i | 0 <= i < |lines| :: lines[i].at <= now)
  }

  ghost predicate Kept(k: Limits, b: Buffer, s: Stream, now: int) {
    && Tracks(k, b, s)
    && exists small :: small == Small(s.lines, k.maxBytes) && Justified(k, b, small, now) && InOrder(small, now)
  }

  lemma {:induction false} LaterKept(k: Limits, b: Buffer, s: Stream, now: int, later: int)
    requires Kept(k, b, s, now) && now <= later
    ensures Kept(k, b, s, later)
  {
    var small := Small(s.lines, k.maxBytes);
    assert forall i | 0 <= i < |small| && Passed(k, small, i, now) :: Passed(k, small, i, later);
    assert Justified(k, b, small, later) && InOrder(small, later);
  }

  lemma {:induction false} EvictedPassed(k: Limits, b: Buffer, now: int, small: seq<Stamped>)
    requires b.lines != [] && MustEvict(k, b, now) && Retains(b.lines, small, b.coverageFrom) && b.bytes == TotalSize(b.lines) && k.maxBytes > 0
    ensures Passed(k, small, |small| - |b.lines|, now)
  {
    assert small[|small| - |b.lines|] == b.lines[0];
  }

  lemma {:induction false} EvictJustified(k: Limits, b: Buffer, now: int, small: seq<Stamped>)
    requires Retains(b.lines, small, b.coverageFrom) && b.bytes == TotalSize(b.lines) && Justified(k, b, small, now)
    requires k.maxBytes <= 0 ==> b.lines == []
    ensures Justified(k, Evict(k, b, now), small, now)
    decreases |b.lines|
  {
    if b.lines != [] && MustEvict(k, b, now) {
      var n := |small| - |b.lines|;
      EvictedPassed(k, b, now, small);
      assert small[n + 1..] == b.lines[1..] && small[n] == b.lines[0];
      EvictJustified(k, EvictOne(b), now, small);
    }
  }

  lemma {:induction false} EvictKept(k: Limits, b: Buffer, s: Stream, now: int)
    requires Kept(k, b, s, now)
    ensures Kept(k, Evict(k, b, now), s, now)
  {
    EvictTracks(k, b, s, now);
    EvictJustified(k, b, now, Small(s.lines, k.maxBytes));
  }

  lemma {:induction false} GrownJustified(k: Limits, b: Buffer, small: seq<Stamped>, line: Stamped, now: int)
    requires |b.lines| <= |small| && Justified(k, b, small, now) && InOrder(small, now) && line.at == now
    ensures Justified(k, b.(lines := b.lines + [line]), small + [line], now) && InOrder(small + [line], now)
  {
    var grown := small + [line];
    forall i | 0 <= i < |small| - |b.lines|
      ensures Passed(k, grown, i, now)
    {
      assert Passed(k, small, i, now);
      assert grown[i..] == small[i..] + [line];
      TotalSizeAppend(small[i..], line);
    }
  }

  lemma {:induction false} PutKept(k: Limits, b: Buffer, s: Stream, c: char, now: int)
    requires Kept(k, b, s, now)
    ensures Kept(k, Put(k, b, c, now), Append(s, c, now), now)
  {
    PutTracks(k, b, s, c, now);
    var small := Small(s.lines, k.maxBytes);
    if c != NEWLINE {
      assert Justified(k, Put(k, b, c, now), small, now);
    } else {
      SmallAppend(s.lines, Stamped(now, s.pending), k.maxBytes);
      if k.maxBytes <= 0 {
        NothingSmall(s.lines, k.maxBytes);
      }
      if b.dropping {
        assert small + [] == small;
        assert Justified(k, Put(k, b, c, now), small, now);
      } else {
        CompleteKept(k, b, s, small, now);
      }
    }
  }

  lemma {:induction false} CompleteKept(k: Limits, b: Buffer, s: Stream, small: seq<Stamped>, now: int)
    requires Follows(k, b, s, small) && Justified(k, b, small, now) && InOrder(small, now) && !b.dropping
    requires k.maxBytes <= 0 ==> small == []
    ensures exists next ::
              && next == small + (if Size(Stamped(now, s.pending)) <= k.maxBytes then [Stamped(now, s.pending)] else [])
              && Justified(k, Complete(k, b, now), next, now) && InOrder(next, now)
  {
    var line := Stamped(now, s.pending);
    if Size(line) <= k.maxBytes {
      LineKept(k, b, now, small, line);
    } else {
      assert small + [] == [];
      assert Justified(k, Complete(k, b, now), [], now) && InOrder([], now);
    }
  }

  lemma {:induction false} LineKept(k: Limits, b: Buffer, now: int, small: seq<Stamped>, line: Stamped)
    requires Retains(b.lines, small, b.coverageFrom) && b.bytes == TotalSize(b.lines) && k.maxBytes > 0
    requires Justified(k, b, small, now) && InOrder(small, now) && line == Stamped(now, b.partial)
    ensures Justified(k, Complete(k, b, now), small + [line], now) && InOrder(small + [line], now)
  {
    TotalSizeAppend(b.lines, line);
    GrowRetains(b.lines, small, b.coverageFrom, line);
    GrownJustified(k, b, small, line, now);
    EvictJustified(k, b.(partial := "", lines := b.lines + [line], bytes := b.bytes + Size(line)), now, small + [line]);
  }

  lemma {:induction false} PutAllKept(k: Limits, b: Buffer, s: Stream, p: string, now: int)
    requires Kept(k, b, s, now)
    ensures Kept(k, PutAll(k, b, p, now), AppendAll(s, p, now), now)
    decreases |p|
  {
    if p != "" {
      PutKept(k, b, s, p[0], now);
      PutAllKept(k, Put(k, b, p[0], now), Append(s, p[0], now), p[1..], now);
    }
  }

  lemma {:induction false} RunKept(k: Limits, startedAt: int, ops: seq<Op>, now: int)
    requires Chronological(ops) && EndsBy(ops, now)
    ensures Kept(k, Run(k, startedAt, ops), Written(ops), now)
  {
    if ops == [] {
      RunTracks(k, startedAt, ops);
      assert Justified(k, Run(k, startedAt, ops), [], now) && InOrder([], now);
    } else {
      var n := |ops| - 1;
      var b, s, op := Run(k, startedAt, ops[..n]), Written(ops[..n]), ops[n];
      RunKept(k, startedAt, ops[..n], op.at);
      EvictKept(k, b, s, op.at);
      if op.WriteOp? && op.bytes != "" {
        PutAllKept(k, Evict(k, b, op.at), s, op.bytes, op.at);
      }
      LaterKept(k, Run(k, startedAt, ops), Written(ops), op.at, now);
    }
  }

  lemma {:induction false} SuffixIsSmaller(lines: seq<Stamped>, n: nat)
    requires n <= |lines|
    ensures TotalSize(lines[n..]) <= TotalSize(lines)
  {
    if n == 0 {
      assert lines[0..] == lines;
    } else {
      SuffixIsSmaller(lines[1..], n - 1);
      assert lines[1..][n - 1..] == lines[n..];
    }
  }

  lemma {:induction false} SettledKeeps(k: Limits, b: Buffer, small: seq<Stamped>, now: int, i: nat)
    requires Retains(b.lines, small, b.coverageFrom) && b.bytes == TotalSize(b.lines) && InOrder(small, now) && Settled(k, b, now)
    requires |small| - |b.lines| <= i < |small|
    ensures !TooOld(k, small[i], now) && TotalSize(small[i..]) <= k.maxBytes
  {
    var n := |small| - |b.lines|;
    SuffixIsSmaller(b.lines, i - n);
    assert b.lines[i - n..] == small[i..] && small[n] == b.lines[0];
    assert n < i ==> small[n].at <= small[i].at;
  }

  /** Main result: under a clock that does not go back, a line that fits the buffer is kept exactly as long as it is
      not too old and what was written since, itself included, fits the byte bound. */
  lemma {:induction false} KeptExactly(k: Limits, startedAt: int, ops: seq<Op>, now: int, i: nat)
    requires Chronological(ops) && EndsBy(ops, now) && i < |Small(Written(ops).lines, k.maxBytes)|
    ensures var answer, small := AnswerAt(k, startedAt, ops, now), Small(Written(ops).lines, k.maxBytes);
            i >= |small| - |answer.lines| <==> !TooOld(k, small[i], now) && TotalSize(small[i..]) <= k.maxBytes
  {
    var b, small := Run(k, startedAt, ops), Small(Written(ops).lines, k.maxBytes);
    RunKept(k, startedAt, ops, now);
    EvictKept(k, b, Written(ops), now);
    EvictSettles(k, b, now);
    if i >= |small| - |Evict(k, b, now).lines| {
      SettledKeeps(k, Evict(k, b, now), small, now, i);
    } else {
      assert Passed(k, small, i, now);
    }
  }

  /** Main result: coverage is claimed exactly if the span starts within the life and the age bound of the buffer,
      everything written since fits the byte bound, and no line outgrew the buffer since. */
  lemma {:induction false} CoverageIsClaimedExactly(k: Limits, startedAt: int, ops: seq<Op>, since: int, now: int)
    requires Chronological(ops) && EndsBy(ops, now)
    ensures var small := Small(Written(ops).lines, k.maxBytes);
            Covers(k, AnswerAt(k, startedAt, ops, now), since, now) <==>
            && since != ZERO_TIME && since >= startedAt && (k.maxAge > 0 ==> since >= now - k.maxAge)
            && (forall i | 0 <= i < |small| && small[i].at >= since :: TotalSize(small[i..]) <= k.maxBytes)
            && TimesBefore(Outgrown(k, ops), since)
  {
    CoveredIffNothingLost(k, startedAt, ops, since, now);
    RunTracks(k, startedAt, ops);
    EvictTracks(k, Run(k, startedAt, ops), Written(ops), now);
    forall i | 0 <= i < |Small(Written(ops).lines, k.maxBytes)|
      ensures var answer, small := AnswerAt(k, startedAt, ops, now), Small(Written(ops).lines, k.maxBytes);
              i >= |small| - |answer.lines| <==> !TooOld(k, small[i], now) && TotalSize(small[i..]) <= k.maxBytes
    {
      KeptExactly(k, startedAt, ops, now, i);
    }
    if k.maxAge > 0 ==> since >= now - k.maxAge {
      ForgottenSince(k, AnswerAt(k, startedAt, ops, now), Small(Written(ops).lines, k.maxBytes), since, now);
    }
  }

  lemma {:induction false} ForgottenSince(k: Limits, answer: Buffer, small: seq<Stamped>, since: int, now: int)
    requires |answer.lines| <= |small| && (k.maxAge > 0 ==> since >= now - k.maxAge)
    requires forall i | 0 <= i < |small| :: i >= |small| - |answer.lines| <==> !TooOld(k, small[i], now) && TotalSize(small[i..]) <= k.maxBytes
    ensures LinesBefore(Forgotten(answer, small), since) <==>
            (forall i | 0 <= i < |small| && small[i].at >= since :: TotalSize(small[i..]) <= k.maxBytes)
  {
    var gone := Forgotten(answer, small);
    assert forall i | 0 <= i < |gone| :: gone[i] == small[i];
    if exists i :: 0 <= i < |small| && small[i].at >= since && TotalSize(small[i..]) > k.maxBytes {
      var i :| 0 <= i < |small| && small[i].at >= since && TotalSize(small[i..]) > k.maxBytes;
      assert i < |gone| && gone[i].at >= since;
    }
  }

  // ----- the span of an answer -----

  lemma {:induction false} BetweenConcat(lines: seq<Stamped>, more: seq<Stamped>, since: int, until: int)
    ensures Between(lines + more, since, until) == Between(lines, since, until) + Between(more, since, until)
  {
    if more == [] {
      assert lines + more == lines;
    } else {
      var n := |more| - 1;
      BetweenConcat(lines, more[..n], since, until);
      assert lines + more == lines + more[..n] + [more[n]] && more == more[..n] + [more[n]];
      BetweenAppend(lines + more[..n], more[n], since, until);
      BetweenAppend(more[..n], more[n], since, until);
    }
  }

  /** An answer holds the lines from `since` to `until`, both included, each as often as it was kept; the zero time
      leaves a side open. With `BetweenConcat` this fixes the answer, order included. */
  lemma {:induction false} AnswersAreTheSpan(lines: seq<Stamped>, since: int, until: int, x: Stamped)
    ensures multiset(Between(lines, since, until))[x]
            == if (since == ZERO_TIME || since <= x.at) && (until == ZERO_TIME || x.at <= until) then multiset(lines)[x] else 0
  {
    if lines != [] {
      var n := |lines| - 1;
      AnswersAreTheSpan(lines[..n], since, until, x);
      assert lines == lines[..n] + [lines[n]];
      CountsOfAppend(Between(lines[..n], since, until), if InSpan(lines[n].at, since, until) then [lines[n]] else [], x);
      CountsOfAppend(lines[..n], [lines[n]], x);
    }
  }

  lemma {:induction false} CountsOfAppend(a: seq<Stamped>, b: seq<Stamped>, x: Stamped)
    ensures multiset(a + b)[x] == multiset(a)[x] + multiset(b)[x]
  {
  }
}
