/**
 Fixed reset schedules of the quota tracker: every schedule cuts the time line into
 equal tiles, and `Bounds` returns the tile that holds a given instant.

 An instant is an `int` counting nanoseconds from the Unix epoch; `ZERO_TIME` is
 Go's zero `time.Time`, which the source uses as "not set".
 */
module Schedules {

  const ZERO_TIME: int := -62_135_596_800_000_000_000
  const SECOND: int := 1_000_000_000
  const DAY: int := 86_400_000_000_000

  /** Weekday of the Unix epoch (a Thursday, with Sunday as 0). */
  const EPOCH_WEEKDAY := 4

  type SecondOfDay = n: int | 0 <= n < 86_400
  type Weekday = n: int | 0 <= n < 7

  /** A wall-clock setting: the configured text and the second of the day it denotes. */
  datatype Clock = Clock(text: string, second: SecondOfDay)

  /** A time zone of constant offset (nanoseconds east of UTC). */
  datatype Zone = Zone(name: string, offset: int)

  datatype Schedule = Schedule(
    period: string,
    duration: int,
    anchor: int,
    clock: Clock,
    zone: Zone,
    weekday: Weekday)

  /** The identity of a schedule: what its textual key distinguishes. */
  datatype Key = NoKey | Key(period: string, duration: int, anchor: int, clock: string, zone: string, weekday: Weekday)

  function KeyOf(s: Schedule): Key {
    if s.period == "" then NoKey
    else Key(s.period, s.duration, s.anchor, s.clock.text, s.zone.name, s.weekday)
  }

  // ----- Go arithmetic -----

  /** Go's `/` on integers: truncation toward zero. */
  function TruncDiv(a: int, b: int): int
    requires b > 0
  {
    if a >= 0 then a / b else -((-a) / b)
  }

  /** Go's `%` on integers: the remainder has the sign of the dividend. */
  function TruncMod(a: int, b: int): int
    requires b > 0
  {
    a - b * TruncDiv(a, b)
  }

  function FloorDuration(delta: int, interval: int): int
    requires interval > 0
  {
    var steps := TruncDiv(delta, interval);
    if delta < 0 && TruncMod(delta, interval) != 0 then steps - 1 else steps
  }

  // ----- the modelled computation -----

  function CivilBounds(s: Schedule, now: int, days: int, weekly: bool): (int, int)
    requires days > 0
  {
    var local := now + s.zone.offset;
    var today := local / DAY;
    var date :=
      if weekly then today - ((today + EPOCH_WEEKDAY) % 7 - s.weekday + 7) % 7
      else today;
    var candidate := date * DAY + s.clock.second * SECOND - s.zone.offset;
    var start := if now < candidate then candidate - days * DAY else candidate;
    (start, start + days * DAY)
  }

  function Bounds(s: Schedule, now: int): (int, int) {
    if s.period == "daily" then CivilBounds(s, now, 1, false)
    else if s.period == "weekly" then CivilBounds(s, now, 7, true)
    else if s.duration <= 0 then (ZERO_TIME, ZERO_TIME)
    else
      var anchor := if s.anchor == ZERO_TIME then 0 else s.anchor;
      var start := anchor + FloorDuration(now - anchor, s.duration) * s.duration;
      (start, start + s.duration)
  }

  // ----- reference: a grid of equal tiles -----

  /** The schedules that have tiles at all; an interval schedule needs a positive length. */
  predicate Tiles(s: Schedule) {
    s.period == "daily" || s.period == "weekly" || s.duration > 0
  }

  function TileLength(s: Schedule): (len: int)
    requires Tiles(s)
    ensures len > 0
  {
    if s.period == "daily" then DAY
    else if s.period == "weekly" then 7 * DAY
    else s.duration
  }

  /** One instant at which a tile starts. */
  function Phase(s: Schedule): int {
    if s.period == "daily" then s.clock.second * SECOND - s.zone.offset
    else if s.period == "weekly" then
      (s.weekday - EPOCH_WEEKDAY) * DAY + s.clock.second * SECOND - s.zone.offset
    else if s.anchor == ZERO_TIME then 0
    else s.anchor
  }

  /** The last grid point `phase + k * len` at or before `x`. */
  function GridFloor(x: int, phase: int, len: int): int
    requires len > 0
  {
    phase + ((x - phase) / len) * len
  }

  lemma {:induction false} GridFloorUnique(x: int, phase: int, len: int, f: int, k: int)
    requires len > 0
    requires f == phase + k * len && f <= x < f + len
    ensures f == GridFloor(x, phase, len)
  {
    var q := (x - phase) / len;
    assert x - phase == q * len + (x - phase) % len;
    var r := x - f;
    assert (q - k) * len == r - (x - phase) % len;
    if q > k {
      MulMono(1, q - k, len);
    } else if q < k {
      MulMono(1, k - q, len);
    }
  }

  lemma {:induction false} MulMono(a: int, b: int, len: int)
    requires a <= b && len > 0
    ensures a * len <= b * len
  {
    assert (b - a) * len >= 0;
  }

  lemma {:induction false} GridFloorHolds(x: int, phase: int, len: int)
    requires len > 0
    ensures GridFloor(x, phase, len) <= x < GridFloor(x, phase, len) + len
  {
    var q := (x - phase) / len;
    assert x - phase == q * len + (x - phase) % len;
  }

  lemma {:induction false} GridFloorMono(t: int, u: int, phase: int, len: int)
    requires len > 0 && t <= u
    ensures GridFloor(t, phase, len) <= GridFloor(u, phase, len)
  {
    GridFloorHolds(t, phase, len);
    GridFloorHolds(u, phase, len);
    var j, k := (t - phase) / len, (u - phase) / len;
    if j <= k {
      MulMono(j, k, len);
    } else {
      MulMono(k + 1, j, len);
    }
  }

  /** The floor of a quotient is the one whole number of steps that brackets the dividend. */
  lemma {:induction false} QuotientUnique(delta: int, interval: int, k: int)
    requires interval > 0 && k * interval <= delta < k * interval + interval
    ensures k == delta / interval
  {
    var e := delta / interval;
    assert delta == e * interval + delta % interval;
    if e < k {
      MulMono(e + 1, k, interval);
      NextTile(e, interval);
    } else if e > k {
      MulMono(k + 1, e, interval);
      NextTile(k, interval);
    }
  }

  lemma {:induction false} NegatedProduct(q: int, interval: int)
    ensures -q * interval == -(q * interval) && interval * -q == -(q * interval)
    ensures (-q - 1) * interval == -(q * interval) - interval
  {
  }

  /** `FloorDuration` is division rounded toward minus infinity, whatever the sign of `delta`. */
  lemma {:induction false} FloorDurationIsFloor(delta: int, interval: int)
    requires interval > 0
    ensures FloorDuration(delta, interval) == delta / interval
  {
    if delta < 0 {
      var q := (-delta) / interval;
      assert -delta == q * interval + (-delta) % interval;
      NegatedProduct(q, interval);
      QuotientUnique(delta, interval, FloorDuration(delta, interval));
    }
  }

  /** Main result: the source's case analysis computes the grid tile that holds `now`. */
  lemma {:induction false} BoundsAreTheTile(s: Schedule, now: int)
    requires Tiles(s)
    ensures Bounds(s, now).0 == GridFloor(now, Phase(s), TileLength(s))
    ensures Bounds(s, now).1 == Bounds(s, now).0 + TileLength(s)
    ensures Bounds(s, now).0 <= now < Bounds(s, now).1
  {
    GridFloorHolds(now, Phase(s), TileLength(s));
    if s.period == "daily" {
      DailyTile(s, now);
    } else if s.period == "weekly" {
      WeeklyTile(s, now);
    } else {
      var anchor := if s.anchor == ZERO_TIME then 0 else s.anchor;
      FloorDurationIsFloor(now - anchor, s.duration);
    }
  }

  lemma {:induction false} DailyTile(s: Schedule, now: int)
    requires s.period == "daily"
    ensures Bounds(s, now).0 == GridFloor(now, Phase(s), DAY)
  {
    var local := now + s.zone.offset;
    var today := local / DAY;
    var start := Bounds(s, now).0;
    var k := if now < today * DAY + s.clock.second * SECOND - s.zone.offset then today - 1 else today;
    GridFloorUnique(now, Phase(s), DAY, start, k);
  }

  lemma {:induction false} WeeklyTile(s: Schedule, now: int)
    requires s.period == "weekly"
    ensures Bounds(s, now).0 == GridFloor(now, Phase(s), 7 * DAY)
  {
    var local := now + s.zone.offset;
    var today := local / DAY;
    var back := ((today + EPOCH_WEEKDAY) % 7 - s.weekday + 7) % 7;
    var date := today - back;
    assert (date + EPOCH_WEEKDAY - s.weekday) % 7 == 0;
    var week := (date + EPOCH_WEEKDAY - s.weekday) / 7;
    assert date == s.weekday - EPOCH_WEEKDAY + 7 * week;
    var candidate := date * DAY + s.clock.second * SECOND - s.zone.offset;
    var start := Bounds(s, now).0;
    var k := if now < candidate then week - 1 else week;
    GridFloorUnique(now, Phase(s), 7 * DAY, start, k);
  }

  /** Starts never move backwards, with or without tiles. */
  lemma {:induction false} StartsAreMonotone(s: Schedule, t: int, u: int)
    requires t <= u
    ensures Bounds(s, t).0 <= Bounds(s, u).0
  {
    if Tiles(s) {
      BoundsAreTheTile(s, t);
      BoundsAreTheTile(s, u);
      GridFloorMono(t, u, Phase(s), TileLength(s));
    }
  }

  /** Tiling: `t` and `u` share a tile exactly when `u` lies in the tile of `t`. */
  lemma {:induction false} TilesPartitionTime(s: Schedule, t: int, u: int)
    requires Tiles(s)
    ensures Bounds(s, t) == Bounds(s, u) <==> Bounds(s, t).0 <= u < Bounds(s, t).1
    ensures Bounds(s, Bounds(s, t).1).0 == Bounds(s, t).1
  {
    BoundsAreTheTile(s, t);
    BoundsAreTheTile(s, u);
    BoundsAreTheTile(s, Bounds(s, t).1);
    GridTiles(t, u, Phase(s), TileLength(s));
  }

  lemma {:induction false} GridTiles(t: int, u: int, phase: int, len: int)
    requires len > 0
    ensures var start := GridFloor(t, phase, len);
            && (GridFloor(u, phase, len) == start <==> start <= u < start + len)
            && GridFloor(start + len, phase, len) == start + len
  {
    var start := GridFloor(t, phase, len);
    var k := (t - phase) / len;
    GridFloorHolds(u, phase, len);
    if start <= u < start + len {
      GridFloorUnique(u, phase, len, start, k);
    }
    NextTile(k, len);
    GridFloorUnique(start + len, phase, len, start + len, k + 1);
  }

  lemma {:induction false} NextTile(k: int, len: int)
    ensures (k + 1) * len == k * len + len
  {
  }

  /** Alignment: a civil tile starts at the configured clock reading and, if weekly, on the configured weekday. */
  lemma {:induction false} CivilStartsAreAligned(s: Schedule, now: int)
    requires s.period == "daily" || s.period == "weekly"
    ensures (Bounds(s, now).0 + s.zone.offset) % DAY == s.clock.second * SECOND
    ensures s.period == "weekly" ==>
              ((Bounds(s, now).0 + s.zone.offset) / DAY + EPOCH_WEEKDAY) % 7 == s.weekday
  {
    BoundsAreTheTile(s, now);
    var len := TileLength(s);
    var k := (now - Phase(s)) / len;
    var local := Bounds(s, now).0 + s.zone.offset;
    var date := if s.period == "daily" then k else s.weekday - EPOCH_WEEKDAY + 7 * k;
    assert local == date * DAY + s.clock.second * SECOND;
    DateAndTime(date, s.clock.second * SECOND);
  }

  lemma {:induction false} DateAndTime(date: int, time: int)
    requires 0 <= time < DAY
    ensures (date * DAY + time) / DAY == date && (date * DAY + time) % DAY == time
  {
  }

  /** The calendar is the real one: Wednesday the 3rd of January 2024, noon UTC (1704283200 seconds after the epoch), lies in
      the week that started on Monday the 1st at midnight. */
  lemma {:induction false} AKnownWeek(s: Schedule)
    requires s.period == "weekly" && s.weekday == 1 && s.clock.second == 0 && s.zone.offset == 0
    ensures Bounds(s, 1_704_283_200 * SECOND) == (1_704_067_200 * SECOND, 1_704_672_000 * SECOND)
  {
    var today := 1_704_283_200 * SECOND / DAY;
    assert today == 19_725;
    assert (today + EPOCH_WEEKDAY) % 7 == 3;
  }

  /** Keys tell schedules apart by everything that was configured. */
  lemma {:induction false} KeysTellSchedulesApart(a: Schedule, b: Schedule)
    ensures KeyOf(a) == KeyOf(b) <==>
            || (a.period == "" && b.period == "")
            || (a.period != "" && a.period == b.period && a.duration == b.duration && a.anchor == b.anchor
                && a.clock.text == b.clock.text && a.zone.name == b.zone.name && a.weekday == b.weekday)
  {
  }
}
