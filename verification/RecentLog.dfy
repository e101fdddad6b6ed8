/**
 The recent-log buffer: chunks of bytes go in, complete lines within an age and a byte
 bound stay, and a snapshot says whether it covers the time asked for.
 */
module RecentLog {
  import opened Common
  import opened Schedules

  /** A complete line and the clock reading of the write that completed it. */
  datatype Stamped = Stamped(at: int, content: string)

  datatype Limits = Limits(maxAge: int, maxBytes: int)

  datatype Buffer = Buffer(coverageFrom: int, lines: seq<Stamped>, bytes: int, partial: string, dropping: bool)

  function Size(line: Stamped): nat {
    |line.content| + 1
  }

  function TotalSize(lines: seq<Stamped>): nat {
    if lines == [] then 0 else Size(lines[0]) + TotalSize(lines[1..])
  }

  function Later(a: int, b: int): int {
    if b > a then b else a
  }

  // ----- the effect of each step -----

  predicate MustEvict(k: Limits, b: Buffer, now: int)
    requires b.lines != []
  {
    (k.maxAge > 0 && b.lines[0].at < now - k.maxAge) || k.maxBytes <= 0 || b.bytes > k.maxBytes
  }

  function EvictOne(b: Buffer): Buffer
    requires b.lines != []
  {
    b.(bytes := b.bytes - Size(b.lines[0]), lines := b.lines[1..], coverageFrom := Later(b.coverageFrom, b.lines[0].at + 1))
  }

  function Evict(k: Limits, b: Buffer, now: int): Buffer
    decreases |b.lines|
  {
    if b.lines != [] && MustEvict(k, b, now) then Evict(k, EvictOne(b), now) else b
  }

  function Drop(b: Buffer, now: int): Buffer {
    b.(partial := "", dropping := true, coverageFrom := Later(b.coverageFrom, now + 1))
  }

  function Complete(k: Limits, b: Buffer, now: int): Buffer {
    var line := Stamped(now, b.partial);
    Evict(k, b.(partial := "", lines := b.lines + [line], bytes := b.bytes + Size(line)), now)
  }

  /** The buffer's reaction to one byte. */
  function Put(k: Limits, b: Buffer, c: char, now: int): Buffer {
    if b.dropping then b.(dropping := c != NEWLINE)
    else if c == NEWLINE then Complete(k, b, now)
    else if |b.partial| + 2 > k.maxBytes then Drop(b, now)
    else b.(partial := b.partial + [c])
  }

  function PutAll(k: Limits, b: Buffer, p: string, now: int): Buffer
    decreases |p|
  {
    if p == "" then b else PutAll(k, Put(k, b, p[0], now), p[1..], now)
  }

  function WriteAt(k: Limits, b: Buffer, p: string, now: int): Buffer {
    if p == "" then b else PutAll(k, Evict(k, b, now), p, now)
  }

  lemma {:induction false} PutAllAppend(k: Limits, b: Buffer, p: string, q: string, now: int)
    ensures PutAll(k, b, p + q, now) == PutAll(k, PutAll(k, b, p, now), q, now)
    decreases |p|
  {
    if p == "" {
      assert p + q == q;
    } else {
      assert (p + q)[1..] == p[1..] + q;
      PutAllAppend(k, Put(k, b, p[0], now), p[1..], q, now);
    }
  }

  predicate NoNewline(p: string) {
    forall i | 0 <= i < |p| :: p[i] != NEWLINE
  }

  lemma {:induction false} DroppingIgnores(k: Limits, b: Buffer, p: string, now: int)
    requires b.dropping && NoNewline(p)
    ensures PutAll(k, b, p, now) == b
    decreases |p|
  {
    if p != "" {
      DroppingIgnores(k, b, p[1..], now);
    }
  }

  /** A chunk without a newline is taken whole or makes the line be dropped, as if byte by byte. */
  lemma {:induction false} ChunkAtOnce(k: Limits, b: Buffer, p: string, now: int)
    requires !b.dropping && p != "" && NoNewline(p)
    ensures PutAll(k, b, p, now) ==
            if |b.partial| + |p| + 1 > k.maxBytes then Drop(b, now) else b.(partial := b.partial + p)
    decreases |p|
  {
    var next := Put(k, b, p[0], now);
    if next.dropping {
      DroppingIgnores(k, next, p[1..], now);
    } else if |p| > 1 {
      ChunkAtOnce(k, next, p[1..], now);
      assert b.partial + [p[0]] + p[1..] == b.partial + p;
    } else {
      assert [p[0]] == p;
    }
  }

  // ----- the buffer as an object -----

  function IndexOfNewline(p: string, from: nat): (i: int)
    requires from <= |p|
    ensures i == -1 || (from <= i < |p| && p[i] == NEWLINE)
    ensures forall j | from <= j < if i < 0 then |p| else i :: p[j] != NEWLINE
    decreases |p| - from
  {
    if from == |p| then -1 else if p[from] == NEWLINE then from else IndexOfNewline(p, from + 1)
  }

  class RecentBuffer {
    const limits: Limits
    const startedAt: int
    var coverageFrom: int
    var lines: seq<Stamped>
    var bytes: int
    var partial: string
    var dropping: bool

    constructor (limits: Limits, startedAt: int)
      ensures this.limits == limits && this.startedAt == startedAt
      ensures State() == Buffer(startedAt, [], 0, "", false)
    {
      this.limits, this.startedAt := limits, startedAt;
      coverageFrom, lines, bytes, partial, dropping := startedAt, [], 0, "", false;
    }

    ghost function State(): Buffer
      reads this
    {
      Buffer(coverageFrom, lines, bytes, partial, dropping)
    }

    method AdvanceCoverage(value: int)
      modifies this`coverageFrom
      ensures coverageFrom == Later(old(coverageFrom), value)
    {
      if value > coverageFrom {
        coverageFrom := value;
      }
    }

    method EvictOld(now: int)
      modifies this`lines, this`bytes, this`coverageFrom
      ensures State() == Evict(limits, old(State()), now)
    {
      var cutoff := now - limits.maxAge;
      while |lines| > 0 && ((limits.maxAge > 0 && lines[0].at < cutoff) || limits.maxBytes <= 0 || bytes > limits.maxBytes)
        invariant Evict(limits, old(State()), now) == Evict(limits, State(), now)
        decreases |lines|
      {
        var removed := lines[0];
        bytes := bytes - Size(removed);
        lines := lines[1..];
        AdvanceCoverage(removed.at + 1);
      }
    }

    /** Takes a piece of a line that holds no newline. */
    method AppendPartial(p: string, now: int)
      requires !dropping && NoNewline(p)
      modifies this`partial, this`dropping, this`coverageFrom
      ensures State() == PutAll(limits, old(State()), p, now)
    {
      if |p| == 0 {
        return;
      }
      ChunkAtOnce(limits, State(), p, now);
      if limits.maxBytes <= 0 || |partial| + |p| + 1 > limits.maxBytes {
        partial := "";
        dropping := true;
        AdvanceCoverage(now + 1);
        return;
      }
      partial := partial + p;
    }

    /** Consumes the input up to and including its first newline. */
    method TakeLine(p: string, newline: nat, now: int)
      requires newline < |p| && p[newline] == NEWLINE && NoNewline(p[..newline])
      modifies this
      ensures State() == PutAll(limits, old(State()), p[..newline + 1], now)
    {
      assert p[..newline + 1] == p[..newline] + [NEWLINE];
      PutAllAppend(limits, State(), p[..newline], [NEWLINE], now);
      LastByte(limits, PutAll(limits, State(), p[..newline], now), now);
      if dropping {
        DroppingIgnores(limits, State(), p[..newline], now);
        dropping := false;
        return;
      }
      if newline > 0 { ChunkAtOnce(limits, State(), p[..newline], now); }
      AppendPartial(p[..newline], now);
      if dropping {
        dropping := false;
        partial := "";
      } else {
        var content := partial;
        partial := "";
        lines := lines + [Stamped(now, content)];
        bytes := bytes + |content| + 1;
        EvictOld(now);
      }
    }

    /** Accepts any chunk: the same as feeding its bytes one by one. */
    method Write(p: string, now: int)
      modifies this
      ensures State() == WriteAt(limits, old(State()), p, now)
    {
      if |p| == 0 {
        return;
      }
      EvictOld(now);
      ghost var evicted := State();
      var rest := p;
      while |rest| > 0
        invariant PutAll(limits, State(), rest, now) == PutAll(limits, evicted, p, now)
        decreases |rest|
      {
        var newline := IndexOfNewline(rest, 0);
        ghost var before := State();
        if newline < 0 {
          if dropping {
            DroppingIgnores(limits, State(), rest, now);
            return;
          }
          AppendPartial(rest, now);
          break;
        }
        TakeLine(rest, newline, now);
        PutAllAppend(limits, before, rest[..newline + 1], rest[newline + 1..], now);
        assert rest[..newline + 1] + rest[newline + 1..] == rest;
        rest := rest[newline + 1..];
      }
    }

    /** The retained lines of `[since, until]` and whether nothing of that span can be missing;
        the zero time leaves a side open. */
    method Snapshot(since: int, until: int, now: int) returns (result: seq<Stamped>, covered: bool)
      modifies this`lines, this`bytes, this`coverageFrom
      ensures State() == Evict(limits, old(State()), now)
      ensures result == Between(State().lines, since, until)
      ensures covered <==> Covers(limits, State(), since, now)
    {
      EvictOld(now);
      var from := coverageFrom;
      if limits.maxAge > 0 && now - limits.maxAge > from {
        from := now - limits.maxAge;
      }
      covered := since != ZERO_TIME && since >= from;
      result := [];
      for i := 0 to |lines|
        invariant result == Between(lines[..i], since, until)
        invariant State() == Evict(limits, old(State()), now)
      {
        assert lines[..i + 1][..i] == lines[..i];
        var line := lines[i];
        if !((since != ZERO_TIME && line.at < since) || (until != ZERO_TIME && line.at > until)) {
          result := result + [line];
        }
      }
      assert lines[..|lines|] == lines;
    }
  }

  lemma {:induction false} LastByte(k: Limits, b: Buffer, now: int)
    ensures PutAll(k, b, [NEWLINE], now) == Put(k, b, NEWLINE, now)
  {
    assert [NEWLINE][1..] == "";
  }

  predicate InSpan(at: int, since: int, until: int) {
    (since == ZERO_TIME || at >= since) && (until == ZERO_TIME || at <= until)
  }

  function Between(lines: seq<Stamped>, since: int, until: int): seq<Stamped> {
    if lines == [] then []
    else
      var n := |lines| - 1;
      Between(lines[..n], since, until) + if InSpan(lines[n].at, since, until) then [lines[n]] else []
  }

  predicate Covers(k: Limits, b: Buffer, since: int, now: int) {
    since != ZERO_TIME && since >= b.coverageFrom && (k.maxAge > 0 ==> since >= now - k.maxAge)
  }

  // ----- reference: everything ever written -----

  /** A call on the buffer with its clock reading; a snapshot evicts, so it changes the buffer too. */
  datatype Op = WriteOp(at: int, bytes: string) | SnapshotOp(at: int)

  /** All complete lines of a stream and the unfinished one; nothing is bounded or forgotten. */
  datatype Stream = Stream(lines: seq<Stamped>, pending: string)

  function Append(s: Stream, c: char, at: int): Stream {
    if c == NEWLINE then Stream(s.lines + [Stamped(at, s.pending)], "") else s.(pending := s.pending + [c])
  }

  function AppendAll(s: Stream, p: string, at: int): Stream
    decreases |p|
  {
    if p == "" then s else AppendAll(Append(s, p[0], at), p[1..], at)
  }

  function Written(ops: seq<Op>): Stream {
    if ops == [] then Stream([], "")
    else
      var before, op := Written(ops[..|ops| - 1]), ops[|ops| - 1];
      if op.WriteOp? then AppendAll(before, op.bytes, op.at) else before
  }

  function Apply(k: Limits, b: Buffer, op: Op): Buffer {
    match op
    case WriteOp(at, bytes) => WriteAt(k, b, bytes, at)
    case SnapshotOp(at) => Evict(k, b, at)
  }

  function Run(k: Limits, startedAt: int, ops: seq<Op>): Buffer {
    if ops == [] then Buffer(startedAt, [], 0, "", false)
    else Apply(k, Run(k, startedAt, ops[..|ops| - 1]), ops[|ops| - 1])
  }

  /** The lines the buffer could ever hold: those of at most `maxBytes`, newline included. */
  function Small(lines: seq<Stamped>, maxBytes: int): seq<Stamped> {
    if lines == [] then []
    else
      var n := |lines| - 1;
      Small(lines[..n], maxBytes) + if Size(lines[n]) <= maxBytes then [lines[n]] else []
  }

  // ----- the invariant -----

  /** Only a prefix of `small` is forgotten, all of it before the coverage boundary. */
  predicate Retains(lines: seq<Stamped>, small: seq<Stamped>, coverageFrom: int) {
    && |lines| <= |small|
    && small[|small| - |lines|..] == lines
    && forall i | 0 <= i < |small| - |lines| :: small[i].at < coverageFrom
  }

  /** The buffer holds what it must of a stream, of which `small` are the lines it could hold. */
  predicate Follows(k: Limits, b: Buffer, s: Stream, small: seq<Stamped>) {
    && Retains(b.lines, small, b.coverageFrom)
    && b.bytes == TotalSize(b.lines)
    && (b.dropping ==> s.pending != "" && |s.pending| + 1 > k.maxBytes && b.partial == "")
    && (!b.dropping ==> b.partial == s.pending)
    && (!b.dropping && s.pending != "" ==> |s.pending| + 1 <= k.maxBytes)
    && (k.maxBytes <= 0 ==> b.lines == [])
  }

  ghost predicate Tracks(k: Limits, b: Buffer, s: Stream) {
    exists small :: small == Small(s.lines, k.maxBytes) && Follows(k, b, s, small)
  }

  lemma {:induction false} EvictKeeps(k: Limits, b: Buffer, now: int, small: seq<Stamped>)
    requires Retains(b.lines, small, b.coverageFrom) && b.bytes == TotalSize(b.lines)
    ensures var e := Evict(k, b, now);
            && Retains(e.lines, small, e.coverageFrom) && e.bytes == TotalSize(e.lines)
            && e == b.(lines := e.lines, bytes := e.bytes, coverageFrom := e.coverageFrom)
            && (e.lines != [] ==> !MustEvict(k, e, now))
    decreases |b.lines|
  {
    if b.lines != [] && MustEvict(k, b, now) {
      var n := |small| - |b.lines|;
      assert small[n] == b.lines[0];
      assert small[n + 1..] == b.lines[1..];
      EvictKeeps(k, EvictOne(b), now, small);
    }
  }

  lemma {:induction false} TotalSizeAppend(lines: seq<Stamped>, line: Stamped)
    ensures TotalSize(lines + [line]) == TotalSize(lines) + Size(line)
  {
    if lines == [] {
      assert (lines + [line])[1..] == [];
    } else {
      assert (lines + [line])[1..] == lines[1..] + [line];
      TotalSizeAppend(lines[1..], line);
    }
  }

  lemma {:induction false} SmallAppend(lines: seq<Stamped>, line: Stamped, maxBytes: int)
    ensures Small(lines + [line], maxBytes) == Small(lines, maxBytes) + if Size(line) <= maxBytes then [line] else []
  {
    assert (lines + [line])[..|lines|] == lines;
  }

  lemma {:induction false} GrowRetains(lines: seq<Stamped>, small: seq<Stamped>, coverageFrom: int, line: Stamped)
    requires Retains(lines, small, coverageFrom)
    ensures Retains(lines + [line], small + [line], coverageFrom)
  {
    assert (small + [line])[|small| - |lines|..] == lines + [line];
  }

  lemma {:induction false} CompleteTracks(k: Limits, b: Buffer, s: Stream, now: int)
    requires Tracks(k, b, s) && !b.dropping
    ensures Tracks(k, Complete(k, b, now), Append(s, NEWLINE, now))
  {
    var line, small := Stamped(now, b.partial), Small(s.lines, k.maxBytes);
    SmallAppend(s.lines, line, k.maxBytes);
    if Size(line) <= k.maxBytes {
      LineFits(k, b, s, now, small, line);
    } else {
      // only the empty line under a bound of no bytes at all: it is evicted at once
      NothingSmall(s.lines, k.maxBytes);
      NothingSmall(s.lines + [line], k.maxBytes);
      NothingFits(k, b, s, now);
    }
  }

  lemma {:induction false} LineFits(k: Limits, b: Buffer, s: Stream, now: int, small: seq<Stamped>, line: Stamped)
    requires Follows(k, b, s, small) && !b.dropping && line == Stamped(now, b.partial) && Size(line) <= k.maxBytes
    requires small + [line] == Small(s.lines + [line], k.maxBytes)
    ensures Tracks(k, Complete(k, b, now), Append(s, NEWLINE, now))
  {
    TotalSizeAppend(b.lines, line);
    GrowRetains(b.lines, small, b.coverageFrom, line);
    EvictKeeps(k, b.(partial := "", lines := b.lines + [line], bytes := b.bytes + Size(line)), now, small + [line]);
    assert Follows(k, Complete(k, b, now), Append(s, NEWLINE, now), small + [line]);
  }

  lemma {:induction false} NothingFits(k: Limits, b: Buffer, s: Stream, now: int)
    requires Follows(k, b, s, []) && !b.dropping && k.maxBytes <= 0
    requires Small(Append(s, NEWLINE, now).lines, k.maxBytes) == []
    ensures Tracks(k, Complete(k, b, now), Append(s, NEWLINE, now))
  {
    var line := Stamped(now, b.partial);
    var grown := b.(partial := "", lines := b.lines + [line], bytes := b.bytes + Size(line));
    assert grown.lines == [line] && EvictOne(grown).lines == [];
    assert Evict(k, grown, now) == EvictOne(grown);
    assert Follows(k, Complete(k, b, now), Append(s, NEWLINE, now), []);
  }

  lemma {:induction false} NothingSmall(lines: seq<Stamped>, maxBytes: int)
    requires maxBytes <= 0
    ensures Small(lines, maxBytes) == []
  {
    if lines != [] {
      NothingSmall(lines[..|lines| - 1], maxBytes);
    }
  }

  lemma {:induction false} PutTracks(k: Limits, b: Buffer, s: Stream, c: char, now: int)
    requires Tracks(k, b, s)
    ensures Tracks(k, Put(k, b, c, now), Append(s, c, now))
  {
    if !b.dropping && c == NEWLINE {
      CompleteTracks(k, b, s, now);
    } else if c == NEWLINE {
      var line := Stamped(now, s.pending);
      SmallAppend(s.lines, line, k.maxBytes);
      assert Small(s.lines, k.maxBytes) + [] == Small(s.lines, k.maxBytes);
      assert Follows(k, Put(k, b, c, now), Append(s, c, now), Small(s.lines + [line], k.maxBytes));
    } else {
      assert Follows(k, Put(k, b, c, now), Append(s, c, now), Small(s.lines, k.maxBytes));
    }
  }

  lemma {:induction false} PutAllTracks(k: Limits, b: Buffer, s: Stream, p: string, now: int)
    requires Tracks(k, b, s)
    ensures Tracks(k, PutAll(k, b, p, now), AppendAll(s, p, now))
    decreases |p|
  {
    if p != "" {
      PutTracks(k, b, s, p[0], now);
      PutAllTracks(k, Put(k, b, p[0], now), Append(s, p[0], now), p[1..], now);
    }
  }

  lemma {:induction false} EvictTracks(k: Limits, b: Buffer, s: Stream, now: int)
    requires Tracks(k, b, s)
    ensures Tracks(k, Evict(k, b, now), s)
  {
    EvictKeeps(k, b, now, Small(s.lines, k.maxBytes));
    assert Follows(k, Evict(k, b, now), s, Small(s.lines, k.maxBytes));
  }

  lemma {:induction false} ApplyTracks(k: Limits, b: Buffer, s: Stream, op: Op)
    requires Tracks(k, b, s)
    ensures Tracks(k, Apply(k, b, op), if op.WriteOp? then AppendAll(s, op.bytes, op.at) else s)
  {
    EvictTracks(k, b, s, op.at);
    if op.WriteOp? {
      PutAllTracks(k, Evict(k, b, op.at), s, op.bytes, op.at);
    }
  }

  lemma {:induction false} RunTracks(k: Limits, startedAt: int, ops: seq<Op>)
    ensures Tracks(k, Run(k, startedAt, ops), Written(ops))
  {
    if ops == [] {
      assert Follows(k, Buffer(startedAt, [], 0, "", false), Stream([], ""), []);
    } else {
      var n := |ops| - 1;
      RunTracks(k, startedAt, ops[..n]);
      ApplyTracks(k, Run(k, startedAt, ops[..n]), Written(ops[..n]), ops[n]);
    }
  }

  // ----- coverage -----

  lemma {:induction false} BetweenSuffix(lines: seq<Stamped>, n: nat, since: int, until: int)
    requires n <= |lines| && since != ZERO_TIME
    requires forall i | 0 <= i < n :: lines[i].at < since
    ensures Between(lines, since, until) == Between(lines[n..], since, until)
  {
    if n < |lines| {
      var m := |lines| - 1;
      BetweenSuffix(lines[..m], n, since, until);
      assert lines[n..][..m - n] == lines[..m][n..];
      assert lines[n..][m - n] == lines[m];
    } else if n > 0 {
      BetweenSuffix(lines[..n - 1], n - 1, since, until);
      assert lines[n..] == [] && lines[..n - 1][n - 1..] == [];
    }
  }

  /** The buffer a snapshot at `now` answers from. */
  function AnswerAt(k: Limits, startedAt: int, ops: seq<Op>, now: int): Buffer {
    Evict(k, Run(k, startedAt, ops), now)
  }

  /** Main result: whatever was written in whatever chunks, with whatever snapshots in between, a
      snapshot that reports coverage holds every line of at most `maxBytes` completed in the span, in order. */
  lemma {:induction false} CoverageIsNeverOverstated(k: Limits, startedAt: int, ops: seq<Op>, since: int, until: int, now: int)
    requires Covers(k, AnswerAt(k, startedAt, ops, now), since, now)
    ensures Between(AnswerAt(k, startedAt, ops, now).lines, since, until)
            == Between(Small(Written(ops).lines, k.maxBytes), since, until)
  {
    RunTracks(k, startedAt, ops);
    TrackedCoverage(k, Run(k, startedAt, ops), Written(ops), since, until, now);
  }

  lemma {:induction false} TrackedCoverage(k: Limits, b: Buffer, s: Stream, since: int, until: int, now: int)
    requires Tracks(k, b, s) && Covers(k, Evict(k, b, now), since, now)
    ensures Between(Evict(k, b, now).lines, since, until) == Between(Small(s.lines, k.maxBytes), since, until)
  {
    EvictTracks(k, b, s, now);
    var small := Small(s.lines, k.maxBytes);
    BetweenSuffix(small, |small| - |Evict(k, b, now).lines|, since, until);
  }

  /** Main result, exact: an answer that reports coverage is all that was written in the span if and only
      if no line completed in the span is larger than the whole buffer. */
  lemma {:induction false} OnlyOversizedLinesAreMissing(k: Limits, startedAt: int, ops: seq<Op>, since: int, until: int, now: int)
    requires Covers(k, AnswerAt(k, startedAt, ops, now), since, now)
    ensures Between(AnswerAt(k, startedAt, ops, now).lines, since, until) == Between(Written(ops).lines, since, until)
            <==> forall i | 0 <= i < |Written(ops).lines| && InSpan(Written(ops).lines[i].at, since, until) ::
                   Size(Written(ops).lines[i]) <= k.maxBytes
  {
    CoverageIsNeverOverstated(k, startedAt, ops, since, until, now);
    BetweenSmallCounts(Written(ops).lines, k.maxBytes, since, until);
  }

  /** A line that outgrows the buffer over two writes, and a covered answer without it. */
  lemma {:induction false} AnOversizedLineIsMissing()
    ensures var k, ops := Limits(0, 3), [WriteOp(10, "abcd"), WriteOp(20, "e\n")];
            && Covers(k, AnswerAt(k, 10, ops, 30), 15, 30)
            && Between(AnswerAt(k, 10, ops, 30).lines, 15, 25) == []
            && Between(Written(ops).lines, 15, 25) == [Stamped(20, "abcde")]
  {
    var k, first, second := Limits(0, 3), WriteOp(10, "abcd"), WriteOp(20, "e\n");
    var start := Buffer(10, [], 0, "", false);
    assert [first, second][..1] == [first] && [first][..0] == [];
    ChunkAtOnce(k, start, "abcd", 10);
    assert Run(k, 10, [first]) == Buffer(11, [], 0, "", true);
    assert PutAll(k, Buffer(11, [], 0, "", true), "e\n", 20) == Buffer(11, [], 0, "", false) by {
      assert "e\n"[1..] == "\n" && "\n"[1..] == "";
    }
    assert Run(k, 10, [first, second]) == Buffer(11, [], 0, "", false);
    WrittenInTwo(first, second);
    assert [Stamped(20, "abcde")][..0] == [];
  }

  lemma {:induction false} WrittenInTwo(first: Op, second: Op)
    requires first == WriteOp(10, "abcd") && second == WriteOp(20, "e\n")
    ensures Written([first, second]) == Stream([Stamped(20, "abcde")], "")
  {
    assert [first, second][..1] == [first] && [first][..0] == [];
    assert "abcd"[1..] == "bcd" && "bcd"[1..] == "cd" && "cd"[1..] == "d" && "d"[1..] == "";
    assert AppendAll(Stream([], "abc"), "d", 10) == Stream([], "abcd");
    assert AppendAll(Stream([], "ab"), "cd", 10) == Stream([], "abcd");
    assert AppendAll(Stream([], "a"), "bcd", 10) == Stream([], "abcd");
    assert Written([first]) == Stream([], "abcd");
    assert "e\n"[1..] == "\n" && "\n"[1..] == "";
    assert AppendAll(Stream([], "abcde"), "\n", 20) == Stream([Stamped(20, "abcde")], "");
    assert Append(Stream([], "abcd"), 'e', 20) == Stream([], "abcde");
  }

  /** The small lines of a span, and how many lines the span has beyond them. */
  lemma {:induction false} BetweenSmallCounts(lines: seq<Stamped>, maxBytes: int, since: int, until: int)
    ensures |Between(Small(lines, maxBytes), since, until)| <= |Between(lines, since, until)|
    ensures |Between(Small(lines, maxBytes), since, until)| == |Between(lines, since, until)| ==>
              Between(Small(lines, maxBytes), since, until) == Between(lines, since, until)
    ensures |Between(Small(lines, maxBytes), since, until)| == |Between(lines, since, until)|
            <==> forall i | 0 <= i < |lines| && InSpan(lines[i].at, since, until) :: Size(lines[i]) <= maxBytes
  {
    if lines != [] {
      var n := |lines| - 1;
      var front, last := lines[..n], lines[n];
      assert lines == front + [last];
      BetweenSmallCounts(front, maxBytes, since, until);
      SmallAppend(front, last, maxBytes);
      BetweenAppend(front, last, since, until);
      if Size(last) <= maxBytes {
        BetweenAppend(Small(front, maxBytes), last, since, until);
      } else {
        assert Small(front, maxBytes) + [] == Small(front, maxBytes);
      }
      assert (forall i | 0 <= i < |lines| && InSpan(lines[i].at, since, until) :: Size(lines[i]) <= maxBytes)
          <==> (forall i | 0 <= i < n && InSpan(front[i].at, since, until) :: Size(front[i]) <= maxBytes)
               && (InSpan(last.at, since, until) ==> Size(last) <= maxBytes) by {
        assert forall i | 0 <= i < n :: front[i] == lines[i];
      }
    }
  }

  lemma {:induction false} BetweenAppend(lines: seq<Stamped>, line: Stamped, since: int, until: int)
    ensures Between(lines + [line], since, until) == Between(lines, since, until) + if InSpan(line.at, since, until) then [line] else []
  {
    assert (lines + [line])[..|lines|] == lines;
  }

  // ----- chunking is invisible -----

  predicate Settled(k: Limits, b: Buffer, now: int) {
    b.lines != [] ==> !MustEvict(k, b, now)
  }

  lemma {:induction false} EvictSettles(k: Limits, b: Buffer, now: int)
    ensures Settled(k, Evict(k, b, now), now)
    decreases |b.lines|
  {
    if b.lines != [] && MustEvict(k, b, now) {
      EvictSettles(k, EvictOne(b), now);
    }
  }

  lemma {:induction false} PutAllSettled(k: Limits, b: Buffer, p: string, now: int)
    requires Settled(k, b, now)
    ensures Settled(k, PutAll(k, b, p, now), now)
    decreases |p|
  {
    if p != "" {
      if !b.dropping && p[0] == NEWLINE {
        var line := Stamped(now, b.partial);
        EvictSettles(k, b.(partial := "", lines := b.lines + [line], bytes := b.bytes + Size(line)), now);
      }
      PutAllSettled(k, Put(k, b, p[0], now), p[1..], now);
    }
  }

  lemma {:induction false} ApplySettles(k: Limits, b: Buffer, op: Op)
    requires b.lines != [] ==> 0 < k.maxBytes && b.bytes <= k.maxBytes
    ensures var next := Apply(k, b, op);
            next.lines != [] ==> 0 < k.maxBytes && next.bytes <= k.maxBytes
  {
    EvictSettles(k, b, op.at);
    if op.WriteOp? {
      PutAllSettled(k, Evict(k, b, op.at), op.bytes, op.at);
    }
  }

  /** Retained bytes are what the lines add up to and stay within the bound, after every call of every run. */
  lemma {:induction false} BytesStayBounded(k: Limits, startedAt: int, ops: seq<Op>)
    ensures var b := Run(k, startedAt, ops);
            b.bytes == TotalSize(b.lines) && (b.lines != [] ==> b.bytes <= k.maxBytes)
  {
    RunTracks(k, startedAt, ops);
    RunSettles(k, startedAt, ops);
  }

  lemma {:induction false} RunSettles(k: Limits, startedAt: int, ops: seq<Op>)
    ensures Run(k, startedAt, ops).lines != [] ==> 0 < k.maxBytes && Run(k, startedAt, ops).bytes <= k.maxBytes
  {
    if ops != [] {
      RunSettles(k, startedAt, ops[..|ops| - 1]);
      ApplySettles(k, Run(k, startedAt, ops[..|ops| - 1]), ops[|ops| - 1]);
    }
  }

  /** Writing `p` and then `q` at one instant leaves the buffer as writing `p + q` does. */
  lemma {:induction false} ChunkingIsInvisible(k: Limits, b: Buffer, p: string, q: string, now: int)
    ensures WriteAt(k, WriteAt(k, b, p, now), q, now) == WriteAt(k, b, p + q, now)
  {
    if p == "" {
      assert p + q == q;
    } else if q == "" {
      assert p + q == p;
    } else {
      var evicted := Evict(k, b, now);
      EvictSettles(k, b, now);
      PutAllSettled(k, evicted, p, now);
      PutAllAppend(k, evicted, p, q, now);
    }
  }
}
