/** The quietest six hours of the day, inferred from traffic
    (apps/api/src/analysis/window.ts). Times are milliseconds since the epoch, UTC. */
module ChangeWindow {
  import opened Engine
  import opened Runs

  const HOUR_MS := 3_600_000.0
  const DAY_MS := 86_400_000.0
  const SLOT_MS := 21_600_000.0
  const BUCKETS := 4
  const MIN_WATCHED_HOURS := 18.0
  const QUIET_RATIO := 0.75
  const MAX_INTERVAL_HOURS := 48.0
  const MAX_BUCKET_STEPS := 1600

  /** What one namespace contributes to one slot of the day. */
  datatype Slot = Slot(ops: real, hours: real)

  // --- The clock ---------------------------------------------------------------

  function Day(t: real): int {
    (t / DAY_MS).Floor
  }

  function TimeOfDay(t: real): (ms: real)
    ensures 0.0 <= ms < DAY_MS
  {
    var day := (t / DAY_MS).Floor as real;
    assert day <= t / DAY_MS < day + 1.0;
    t - day * DAY_MS
  }

  function UtcHour(t: real): (h: int)
    ensures 0 <= h < 24
  {
    (TimeOfDay(t) / HOUR_MS).Floor
  }

  function Bucket(t: real): (b: int)
    ensures 0 <= b < BUCKETS
  {
    UtcHour(t) / 6
  }

  /** The end of the six hours a moment sits in. */
  function Boundary(t: real): real {
    Day(t) as real * DAY_MS + (Bucket(t) + 1) as real * SLOT_MS
  }

  function Cell(t: real): int {
    Day(t) * BUCKETS + Bucket(t)
  }

  lemma {:induction false} BucketHolds(t: real)
    ensures Bucket(t) as real * SLOT_MS <= TimeOfDay(t) < (Bucket(t) + 1) as real * SLOT_MS
  {
    var tod := TimeOfDay(t);
    var h := (tod / HOUR_MS).Floor;
    assert h as real <= tod / HOUR_MS < h as real + 1.0;
    assert h as real * HOUR_MS <= tod < (h as real + 1.0) * HOUR_MS;
    assert 6 * Bucket(t) <= h <= 6 * Bucket(t) + 5;
  }

  lemma {:induction false} CellHolds(t: real)
    ensures Cell(t) as real * SLOT_MS <= t < (Cell(t) + 1) as real * SLOT_MS == Boundary(t)
  {
    BucketHolds(t);
  }

  lemma {:induction false} ScaleOrder(a: int, b: int)
    requires a as real * SLOT_MS < b as real * SLOT_MS
    ensures a < b
  {
  }

  lemma {:induction false} CellUnique(t: real, c: int)
    requires c as real * SLOT_MS <= t < (c + 1) as real * SLOT_MS
    ensures Cell(t) == c
  {
    CellHolds(t);
    ScaleOrder(Cell(t), c + 1);
    ScaleOrder(c, Cell(t) + 1);
  }

  // --- How much of a stretch falls in a slot -----------------------------------

  /** The part of all time before a moment that lies in slot `b` of its day. */
  function Elapsed(b: int, t: real): real {
    var into := TimeOfDay(t) - b as real * SLOT_MS;
    Day(t) as real * SLOT_MS + (if into < 0.0 then 0.0 else if into > SLOT_MS then SLOT_MS else into)
  }

  /** How much of a stretch lies in slot `b`. */
  function Measure(b: int, from: real, to: real): real {
    Elapsed(b, to) - Elapsed(b, from)
  }

  lemma {:induction false} DayMonotone(x: real, y: real)
    requires x <= y
    ensures Day(x) <= Day(y)
  {
    assert x / DAY_MS <= y / DAY_MS;
  }

  lemma {:induction false} ElapsedMonotone(b: int, x: real, y: real)
    requires 0 <= b < BUCKETS && x <= y
    ensures Elapsed(b, x) <= Elapsed(b, y)
  {
    DayMonotone(x, y);
    if Day(x) == Day(y) {
    } else {
      assert (Day(x) + 1) as real * SLOT_MS <= Day(y) as real * SLOT_MS;
    }
  }

  /** The four slots partition the day. */
  lemma {:induction false} SlotsPartition(t: real)
    ensures Elapsed(0, t) + Elapsed(1, t) + Elapsed(2, t) + Elapsed(3, t) == t
  {
  }

  /** Inside one six-hour cell, its own slot takes everything and the others nothing. */
  lemma {:induction false} MeasureInCell(b: int, x: real, y: real)
    requires 0 <= b < BUCKETS && x <= y <= Boundary(x)
    ensures Measure(b, x, y) == if b == Bucket(x) then y - x else 0.0
  {
    BucketHolds(x);
    var q := Bucket(x);
    ElapsedIn(b, q, x);
    if y < Boundary(x) {
      CellHolds(x);
      CellUnique(y, Cell(x));
      SameCell(x, y);
      ElapsedIn(b, q, y);
    } else {
      AtBoundary(b, x);
    }
  }

  lemma {:induction false} SameCell(x: real, y: real)
    requires Cell(x) == Cell(y)
    ensures Day(x) == Day(y) && Bucket(x) == Bucket(y)
  {
    assert Cell(x) / BUCKETS == Day(x) && Cell(y) / BUCKETS == Day(y);
  }

  lemma {:induction false} ElapsedIn(b: int, q: int, t: real)
    requires 0 <= b < BUCKETS && q == Bucket(t)
    ensures Elapsed(b, t) == Day(t) as real * SLOT_MS
      + (if b < q then SLOT_MS else if b > q then 0.0 else TimeOfDay(t) - q as real * SLOT_MS)
  {
    BucketHolds(t);
    if b < q {
      assert (b + 1) as real <= q as real;
    } else if b > q {
      assert (q + 1) as real <= b as real;
    }
  }

  lemma {:induction false} AtBoundary(b: int, x: real)
    requires 0 <= b < BUCKETS
    ensures Elapsed(b, Boundary(x)) == Day(x) as real * SLOT_MS + (if b <= Bucket(x) then SLOT_MS else 0.0)
  {
    var edge, q := Boundary(x), Bucket(x);
    CellUnique(edge, Cell(x) + 1);
    assert Cell(edge) == Day(x) * BUCKETS + q + 1;
    ElapsedIn(b, Bucket(edge), edge);
    CellHolds(edge);
    CellHolds(x);
    if q == BUCKETS - 1 {
      assert Cell(edge) == (Day(x) + 1) * BUCKETS;
      assert Day(edge) == Day(x) + 1 && Bucket(edge) == 0;
    } else {
      assert Day(edge) == Day(x) && Bucket(edge) == q + 1;
    }
  }

  // --- Crediting a stretch -----------------------------------------------------

  /** How far the walk gets: to the end, or as many cells as it is allowed. */
  function Reach(from: real, to: real): real {
    var cap := (Cell(from) + MAX_BUCKET_STEPS) as real * SLOT_MS;
    if to < cap then to else cap
  }

  type Tally = t: seq<Slot> | |t| == BUCKETS witness [Slot(0.0, 0.0), Slot(0.0, 0.0), Slot(0.0, 0.0), Slot(0.0, 0.0)]

  function Share(ops: real, ms: real, total: real): real
    requires total > 0.0
  {
    ops * ms / total
  }

  function Add(slot: Slot, ms: real, ops: real, total: real): Slot
    requires total > 0.0
  {
    Slot(slot.ops + Share(ops, ms, total), slot.hours + ms / HOUR_MS)
  }

  /** The tally once the walk from `from` has got as far as `cursor`: each slot has what
      lies in it of the stretch between, and that share of the traffic. */
  function Walked(tally: Tally, from: real, cursor: real, ops: real, total: real): Tally
    requires total > 0.0
  {
    seq(BUCKETS, b requires 0 <= b < BUCKETS => Add(tally[b], Measure(b, from, cursor), ops, total))
  }

  function CreditAll(tally: Tally, from: real, to: real, ops: real): Tally {
    if to <= from then tally else Walked(tally, from, Reach(from, to), ops, to - from)
  }

  /** The cursor after a number of steps. */
  function CursorAt(from: real, to: real, step: nat): real {
    if step == 0 then from
    else
      var edge := (Cell(from) + step) as real * SLOT_MS;
      if to < edge then to else edge
  }

  lemma {:induction false} ShareAdds(ops: real, x: real, y: real, total: real)
    requires total > 0.0
    ensures Share(ops, x, total) + Share(ops, y, total) == Share(ops, x + y, total)
  {
    assert ops * (x + y) == ops * x + ops * y;
  }

  lemma {:induction false} CursorAdvances(from: real, to: real, step: nat)
    requires from < to && CursorAt(from, to, step) < to
    ensures
      var cursor := CursorAt(from, to, step);
      && cursor <= (if to < Boundary(cursor) then to else Boundary(cursor)) == CursorAt(from, to, step + 1)
      && from <= cursor
  {
    CellHolds(from);
    if step > 0 {
      var edge := (Cell(from) + step) as real * SLOT_MS;
      assert (Cell(from) + 1) as real <= (Cell(from) + step) as real;
      CellUnique(edge, Cell(from) + step);
      CellHolds(edge);
    }
  }

  lemma {:induction false} WalkedOneSlot(slot: Slot, b: int, from: real, cursor: real, until: real, ops: real,
                                         total: real)
    requires 0 <= b < BUCKETS && total > 0.0 && cursor <= until <= Boundary(cursor)
    ensures
      var now, next := Measure(b, from, cursor), Measure(b, from, until);
      var before := Add(slot, now, ops, total);
      Add(slot, next, ops, total) == if b == Bucket(cursor) then Add(before, until - cursor, ops, total) else before
  {
    MeasureInCell(b, cursor, until);
    ShareAdds(ops, Measure(b, from, cursor), until - cursor, total);
  }

  /** One step of the walk touches one slot. */
  lemma {:induction false} WalkedStep(tally: Tally, from: real, cursor: real, until: real, ops: real, total: real)
    requires total > 0.0 && cursor <= until <= Boundary(cursor)
    ensures
      var now, q := Walked(tally, from, cursor, ops, total), Bucket(cursor);
      Walked(tally, from, until, ops, total) == now[q := Add(now[q], until - cursor, ops, total)]
  {
    forall b | 0 <= b < BUCKETS
      ensures Walked(tally, from, until, ops, total)[b] == if b == Bucket(cursor)
        then Add(Walked(tally, from, cursor, ops, total)[b], until - cursor, ops, total)
        else Walked(tally, from, cursor, ops, total)[b]
    {
      WalkedOneSlot(tally[b], b, from, cursor, until, ops, total);
    }
  }

  lemma {:induction false} WalkedNowhere(tally: Tally, from: real, ops: real, total: real)
    requires total > 0.0
    ensures Walked(tally, from, from, ops, total) == tally
  {
  }

  /** Spread traffic over the slots a stretch covers, in proportion. */
  method CreditSpan(tally: array<Slot>, from: real, to: real, ops: real)
    requires tally.Length == BUCKETS
    modifies tally
    ensures tally[..] == CreditAll(old(tally[..]), from, to, ops)
  {
    var total := to - from;
    if total <= 0.0 {
      return;
    }
    var cursor, step := from, 0;
    WalkedNowhere(tally[..], from, ops, total);
    while step < MAX_BUCKET_STEPS && cursor < to
      invariant 0 <= step <= MAX_BUCKET_STEPS && cursor == CursorAt(from, to, step)
      invariant tally[..] == Walked(old(tally[..]), from, cursor, ops, total)
    {
      var bucket := Bucket(cursor);
      var until := if to < Boundary(cursor) then to else Boundary(cursor);
      CursorAdvances(from, to, step);
      WalkedStep(old(tally[..]), from, cursor, until, ops, total);
      tally[bucket] := Add(tally[bucket], until - cursor, ops, total);
      cursor, step := until, step + 1;
    }
    CursorEnds(from, to, step);
  }

  lemma {:induction false} CursorEnds(from: real, to: real, step: nat)
    requires from < to && step <= MAX_BUCKET_STEPS
    requires step == MAX_BUCKET_STEPS || CursorAt(from, to, step) >= to
    ensures CursorAt(from, to, step) == Reach(from, to)
  {
    if step < MAX_BUCKET_STEPS {
      assert (Cell(from) + step) as real <= (Cell(from) + MAX_BUCKET_STEPS) as real;
    }
  }

  // --- What a credit adds ------------------------------------------------------

  function TotalOps(tally: Tally): real {
    tally[0].ops + tally[1].ops + tally[2].ops + tally[3].ops
  }

  function TotalHours(tally: Tally): real {
    tally[0].hours + tally[1].hours + tally[2].hours + tally[3].hours
  }

  lemma {:induction false} ReachAhead(from: real, to: real)
    requires from < to
    ensures from < Reach(from, to) <= to
  {
    CellHolds(from);
    assert (Cell(from) + 1) as real <= (Cell(from) + MAX_BUCKET_STEPS) as real;
  }

  lemma {:induction false} FourShares(ops: real, a: real, b: real, c: real, d: real, total: real)
    requires total > 0.0
    ensures Share(ops, a, total) + Share(ops, b, total) + Share(ops, c, total) + Share(ops, d, total)
      == Share(ops, a + b + c + d, total)
  {
    ShareAdds(ops, a, b, total);
    ShareAdds(ops, a + b, c, total);
    ShareAdds(ops, a + b + c, d, total);
  }

  /** Crediting hands out exactly the time walked, and the traffic in the same proportion. */
  lemma {:induction false} CreditTotals(tally: Tally, from: real, to: real, ops: real)
    requires from < to
    ensures TotalHours(CreditAll(tally, from, to, ops)) == TotalHours(tally) + (Reach(from, to) - from) / HOUR_MS
    ensures TotalOps(CreditAll(tally, from, to, ops)) == TotalOps(tally) + Share(ops, Reach(from, to) - from, to - from)
  {
    var end, total := Reach(from, to), to - from;
    SlotsPartition(from);
    SlotsPartition(end);
    FourShares(ops, Measure(0, from, end), Measure(1, from, end), Measure(2, from, end), Measure(3, from, end), total);
  }

  lemma {:induction false} WholeShare(ops: real, total: real)
    requires total > 0.0
    ensures Share(ops, total, total) == ops
  {
  }

  lemma {:induction false} PartShare(ops: real, part: real, total: real)
    requires 0.0 < part < total && ops != 0.0
    ensures Share(ops, part, total) != ops
  {
    var share := Share(ops, part, total);
    assert share * total == ops * part;
    assert ops * (total - part) != 0.0;
    assert (ops - share) * total == ops * (total - part);
  }

  /** Nothing is lost exactly when the stretch ends within the cells the walk may take. */
  lemma {:induction false} CreditConserves(tally: Tally, from: real, to: real, ops: real)
    requires from < to && ops != 0.0
    ensures TotalOps(CreditAll(tally, from, to, ops)) == TotalOps(tally) + ops
      <==> to <= (Cell(from) + MAX_BUCKET_STEPS) as real * SLOT_MS
  {
    CreditTotals(tally, from, to, ops);
    ReachAhead(from, to);
    if to <= (Cell(from) + MAX_BUCKET_STEPS) as real * SLOT_MS {
      WholeShare(ops, to - from);
    } else {
      PartShare(ops, Reach(from, to) - from, to - from);
    }
  }

  // --- One namespace -----------------------------------------------------------

  type Samples = seq<Reading<int>>

  const EMPTY_TALLY: Tally := [Slot(0.0, 0.0), Slot(0.0, 0.0), Slot(0.0, 0.0), Slot(0.0, 0.0)]

  /** Whether the gap after a run is traffic: no restart in it, and we were watching. */
  predicate GapCounts(run: Reading<int>, next: Reading<int>) {
    var spanHours := (SpanStart(next.run) - SpanEnd(run.run)) / HOUR_MS;
    next.value >= run.value && 0.0 < spanHours <= MAX_INTERVAL_HOURS
  }

  function CreditGap(tally: Tally, run: Reading<int>, next: Reading<int>): Tally {
    if GapCounts(run, next)
    then CreditAll(tally, SpanEnd(run.run), SpanStart(next.run), (next.value - run.value) as real) else tally
  }

  /** The tally after the first `n` runs, and the gaps behind them. */
  function TallyTo(sorted: Samples, n: nat): Tally
    requires n <= |sorted|
  {
    if n == 0 then EMPTY_TALLY
    else
      var run := sorted[n - 1];
      var quiet := CreditAll(TallyTo(sorted, n - 1), SpanStart(run.run), SpanEnd(run.run), 0.0);
      if n < |sorted| then CreditGap(quiet, run, sorted[n]) else quiet
  }

  function TallyOf(samples: Samples): Tally {
    var sorted := SortedRuns(samples);
    TallyTo(sorted, |sorted|)
  }

  method TallyNamespace(samples: Samples) returns (tally: array<Slot>)
    ensures fresh(tally) && tally[..] == TallyOf(samples)
  {
    var sorted := SortedRuns(samples);
    tally := new Slot[BUCKETS](_ => Slot(0.0, 0.0));
    assert tally[..] == EMPTY_TALLY;
    for i := 0 to |sorted|
      invariant fresh(tally) && tally.Length == BUCKETS && tally[..] == TallyTo(sorted, i)
    {
      var run := sorted[i];
      CreditSpan(tally, SpanStart(run.run), SpanEnd(run.run), 0.0);
      if i + 1 < |sorted| {
        var next := sorted[i + 1];
        var delta, from, to := next.value - run.value, SpanEnd(run.run), SpanStart(next.run);
        var spanHours := (to - from) / HOUR_MS;
        if !(delta < 0) && !(spanHours <= 0.0 || spanHours > MAX_INTERVAL_HOURS) {
          CreditSpan(tally, from, to, delta as real);
        }
      }
    }
  }

  /** The traffic between the runs that was read at all. */
  function TrafficTo(sorted: Samples, n: nat): int
    requires n <= |sorted|
  {
    if n == 0 then 0
    else
      var counts := n < |sorted| && GapCounts(sorted[n - 1], sorted[n]);
      var gap := if counts then sorted[n].value - sorted[n - 1].value else 0;
      TrafficTo(sorted, n - 1) + gap
  }

  lemma {:induction false} QuietKeepsOps(tally: Tally, from: real, to: real)
    ensures TotalOps(CreditAll(tally, from, to, 0.0)) == TotalOps(tally)
  {
    if from < to {
      CreditTotals(tally, from, to, 0.0);
      var part, total := Reach(from, to) - from, to - from;
      assert 0.0 * part == 0.0;
      assert Share(0.0, part, total) == 0.0;
    }
  }

  lemma {:induction false} GapConserves(tally: Tally, run: Reading<int>, next: Reading<int>)
    requires GapCounts(run, next)
    ensures TotalOps(CreditGap(tally, run, next)) == TotalOps(tally) + (next.value - run.value) as real
  {
    var from, to := SpanEnd(run.run), SpanStart(next.run);
    var delta := (next.value - run.value) as real;
    assert (to - from) / HOUR_MS <= 48.0 && (to - from) / HOUR_MS > 0.0;
    assert from < to <= from + 48.0 * HOUR_MS;
    CellHolds(from);
    assert Reach(from, to) == to;
    CreditTotals(tally, from, to, delta);
    WholeShare(delta, to - from);
  }

  /** Traffic is conserved: the four slots together hold exactly the traffic of the gaps
      that counted, none of it lost at a slot boundary or counted twice. */
  lemma {:induction false} TallyConserves(sorted: Samples, n: nat)
    requires n <= |sorted|
    ensures TotalOps(TallyTo(sorted, n)) == TrafficTo(sorted, n) as real
  {
    if n > 0 {
      TallyConserves(sorted, n - 1);
      var run := sorted[n - 1];
      var before := TallyTo(sorted, n - 1);
      QuietKeepsOps(before, SpanStart(run.run), SpanEnd(run.run));
      if n < |sorted| && GapCounts(run, sorted[n]) {
        GapConserves(CreditAll(before, SpanStart(run.run), SpanEnd(run.run), 0.0), run, sorted[n]);
      }
    }
  }

  // --- Evidence is bounded by time ---------------------------------------------

  lemma {:induction false} CreditHours(tally: Tally, b: int, from: real, to: real, ops: real)
    requires 0 <= b < BUCKETS && from <= to
    ensures tally[b].hours <= CreditAll(tally, from, to, ops)[b].hours
    ensures CreditAll(tally, from, to, ops)[b].hours <= tally[b].hours + Measure(b, from, to) / HOUR_MS
  {
    if from < to {
      ReachAhead(from, to);
      ElapsedMonotone(b, from, Reach(from, to));
      ElapsedMonotone(b, Reach(from, to), to);
    }
  }

  /** Where the first `n` runs and the gaps behind them end. */
  function EndOf(sorted: Samples, n: nat): real
    requires 0 < n <= |sorted|
  {
    if n < |sorted| then SpanStart(sorted[n].run) else SpanEnd(sorted[n - 1].run)
  }

  /** A slot is credited no more of a history than the history holds of it. */
  lemma {:induction false} HoursWithin(sorted: Samples, n: nat, b: int)
    requires Chained(sorted) && 0 < n <= |sorted| && 0 <= b < BUCKETS
    ensures TallyTo(sorted, n)[b].hours <= Measure(b, SpanStart(sorted[0].run), EndOf(sorted, n)) / HOUR_MS
  {
    var run, before := sorted[n - 1], TallyTo(sorted, n - 1);
    var start, end := SpanStart(run.run), SpanEnd(run.run);
    if n > 1 {
      HoursWithin(sorted, n - 1, b);
      assert EndOf(sorted, n - 1) == start;
    }
    CreditHours(before, b, start, end, 0.0);
    if n < |sorted| {
      ChainedOrder(sorted, n - 1, n);
      var to := SpanStart(sorted[n].run);
      GapHours(CreditAll(before, start, end, 0.0), b, run, sorted[n]);
      HoursAdd(b, SpanStart(sorted[0].run), start, end, to);
    } else {
      HoursAdd(b, SpanStart(sorted[0].run), start, end, end);
    }
  }

  lemma {:induction false} GapHours(tally: Tally, b: int, run: Reading<int>, next: Reading<int>)
    requires 0 <= b < BUCKETS && SpanEnd(run.run) <= SpanStart(next.run)
    ensures CreditGap(tally, run, next)[b].hours
      <= tally[b].hours + Measure(b, SpanEnd(run.run), SpanStart(next.run)) / HOUR_MS
  {
    var from, to := SpanEnd(run.run), SpanStart(next.run);
    ElapsedMonotone(b, from, to);
    CreditHours(tally, b, from, to, (next.value - run.value) as real);
  }

  lemma {:induction false} HoursAdd(b: int, w: real, x: real, y: real, z: real)
    ensures Measure(b, w, x) / HOUR_MS + Measure(b, x, y) / HOUR_MS + Measure(b, y, z) / HOUR_MS
      == Measure(b, w, z) / HOUR_MS
  {
  }

  /** Eighteen hours of one slot take at least fifty-four hours to go by. */
  lemma {:induction false} ThreeDaysOfASlot(b: int, x: real, y: real)
    requires 0 <= b < BUCKETS && x <= y && Measure(b, x, y) / HOUR_MS >= MIN_WATCHED_HOURS
    ensures y - x >= 54.0 * HOUR_MS
  {
    DayMonotone(x, y);
    assert Measure(b, x, y) >= 3.0 * SLOT_MS;
    var days := Day(y) - Day(x);
    assert y - x == days as real * DAY_MS + TimeOfDay(y) - TimeOfDay(x);
    assert days >= 2;
    if days == 2 {
    } else if days == 3 {
    } else {
      assert days as real >= 4.0;
    }
  }

  // --- Inference ---------------------------------------------------------------

  datatype Window = Window(startHour: int, endHour: int)

  function Max(a: real, b: real): real {
    if a < b then b else a
  }

  /** The namespaces' rates in a slot, summed: those with any time in it. */
  function RateIn(tallies: seq<Tally>, b: int): real
    requires 0 <= b < BUCKETS
  {
    if tallies == [] then 0.0
    else
      var slot := tallies[|tallies| - 1][b];
      RateIn(tallies[..|tallies| - 1], b) + (if slot.hours > 0.0 then slot.ops / slot.hours else 0.0)
  }

  /** How long the best-covered namespace was watched in a slot. */
  function WatchedIn(tallies: seq<Tally>, b: int): (hours: real)
    requires 0 <= b < BUCKETS
    ensures hours >= 0.0
  {
    if tallies == [] then 0.0 else Max(WatchedIn(tallies[..|tallies| - 1], b), tallies[|tallies| - 1][b].hours)
  }

  function Rates(tallies: seq<Tally>): (rates: seq<real>)
    ensures |rates| == BUCKETS
  {
    [RateIn(tallies, 0), RateIn(tallies, 1), RateIn(tallies, 2), RateIn(tallies, 3)]
  }

  predicate EnoughWatched(tallies: seq<Tally>, upTo: int) {
    forall b :: 0 <= b < upTo && b < BUCKETS ==> WatchedIn(tallies, b) >= MIN_WATCHED_HOURS
  }

  /** A slot that is quietest, and the first to be. */
  predicate Quietest(rates: seq<real>, q: int) {
    && 0 <= q < |rates|
    && (forall b :: 0 <= b < |rates| ==> rates[q] <= rates[b])
    && (forall b :: 0 <= b < q ==> rates[q] < rates[b])
  }

  predicate Busiest(rates: seq<real>, busiest: real) {
    busiest in rates && forall b :: 0 <= b < |rates| ==> rates[b] <= busiest
  }

  predicate GenuinelyQuiet(rates: seq<real>, q: int, busiest: real) {
    Quietest(rates, q) && Busiest(rates, busiest) && busiest > 0.0 && rates[q] <= busiest * QUIET_RATIO
  }

  function SlotWindow(q: int): Window {
    Window(6 * q, (6 * q + 6) % 24)
  }

  /** The quietest slot, where it is genuinely quiet. */
  ghost predicate Decides(rates: seq<real>, window: Option<Window>) {
    && (window.Some? <==> exists q, busiest :: GenuinelyQuiet(rates, q, busiest))
    && (window.Some? ==> exists q :: Quietest(rates, q) && window.value == SlotWindow(q))
  }

  /** When there is a window to name, and which: every slot watched three days' worth, some
      traffic, and a slot genuinely quieter than the peak. */
  ghost predicate Names(tallies: seq<Tally>, window: Option<Window>) {
    if EnoughWatched(tallies, BUCKETS) then Decides(Rates(tallies), window) else window.None?
  }

  function TalliesOf(namespaces: seq<Samples>): (tallies: seq<Tally>)
    ensures |tallies| == |namespaces|
  {
    seq(|namespaces|, i requires 0 <= i < |namespaces| => TallyOf(namespaces[i]))
  }

  method RateLoop(tallies: seq<Tally>, b: int) returns (rate: real, watched: real)
    requires 0 <= b < BUCKETS
    ensures rate == RateIn(tallies, b) && watched == WatchedIn(tallies, b)
  {
    rate, watched := 0.0, 0.0;
    for i := 0 to |tallies|
      invariant rate == RateIn(tallies[..i], b) && watched == WatchedIn(tallies[..i], b)
    {
      assert tallies[..i + 1][..i] == tallies[..i];
      var slot := tallies[i][b];
      if slot.hours > 0.0 {
        rate := rate + slot.ops / slot.hours;
      }
      watched := Max(watched, slot.hours);
    }
    assert tallies[..|tallies|] == tallies;
  }

  method PickLoop(rates: seq<real>) returns (q: int, busiest: real)
    requires |rates| == BUCKETS
    ensures Quietest(rates, q) && Busiest(rates, busiest)
  {
    q, busiest := 0, rates[0];
    for b := 1 to BUCKETS
      invariant 0 <= q < b
      invariant forall k :: 0 <= k < b ==> rates[q] <= rates[k]
      invariant forall k :: 0 <= k < q ==> rates[q] < rates[k]
      invariant busiest in rates && forall k :: 0 <= k < b ==> rates[k] <= busiest
    {
      if rates[b] < rates[q] {
        q := b;
      }
      busiest := Max(busiest, rates[b]);
    }
  }

  method TalliesLoop(namespaces: seq<Samples>) returns (tallies: seq<Tally>)
    ensures tallies == TalliesOf(namespaces)
  {
    tallies := [];
    for i := 0 to |namespaces|
      invariant tallies == TalliesOf(namespaces)[..i]
    {
      var tally := TallyNamespace(namespaces[i]);
      tallies := tallies + [tally[..]];
    }
  }

  method AveragesLoop(tallies: seq<Tally>) returns (averages: Option<seq<real>>)
    ensures averages.Some? <==> EnoughWatched(tallies, BUCKETS)
    ensures averages.Some? ==> averages.value == Rates(tallies)
  {
    var rates: seq<real> := [];
    for b := 0 to BUCKETS
      invariant rates == Rates(tallies)[..b] && EnoughWatched(tallies, b)
    {
      var rate, watched := RateLoop(tallies, b);
      if watched < MIN_WATCHED_HOURS {
        return None;
      }
      rates := rates + [rate];
    }
    return Some(rates);
  }

  method DecideLoop(rates: seq<real>) returns (window: Option<Window>)
    requires |rates| == BUCKETS
    ensures Decides(rates, window)
  {
    var q, busiest := PickLoop(rates);
    OneAnswer(rates, q, busiest);
    if busiest <= 0.0 || rates[q] > busiest * QUIET_RATIO {
      return None;
    }
    assert GenuinelyQuiet(rates, q, busiest);
    return Some(SlotWindow(q));
  }

  method InferChangeWindow(namespaces: seq<Samples>) returns (window: Option<Window>)
    ensures Names(TalliesOf(namespaces), window)
  {
    var tallies := TalliesLoop(namespaces);
    var averages := AveragesLoop(tallies);
    if averages.None? {
      return None;
    }
    window := DecideLoop(averages.value);
  }

  lemma {:induction false} OneAnswer(rates: seq<real>, q: int, busiest: real)
    requires Quietest(rates, q) && Busiest(rates, busiest)
    ensures forall p, peak :: Quietest(rates, p) && Busiest(rates, peak) ==> p == q && peak == busiest
  {
    forall p, peak | Quietest(rates, p) && Busiest(rates, peak) ensures p == q && peak == busiest {
    }
  }

  // --- What an inferred window means -------------------------------------------

  function InChangeWindow(now: real, startHour: Option<int>, endHour: Option<int>): bool {
    if startHour.None? || endHour.None? || startHour.value == endHour.value then true
    else
      var hour := UtcHour(now);
      if startHour.value < endHour.value then startHour.value <= hour < endHour.value
      else hour >= startHour.value || hour < endHour.value
  }

  /** An inferred window lets through exactly the six hours of the quietest slot, the one
      that ends at midnight included. */
  lemma {:induction false} InferredIsItsSlot(tallies: seq<Tally>, window: Window, now: real)
    requires Names(tallies, Some(window))
    ensures Quietest(Rates(tallies), window.startHour / 6)
    ensures InChangeWindow(now, Some(window.startHour), Some(window.endHour)) <==> Bucket(now) == window.startHour / 6
  {
    var q :| Quietest(Rates(tallies), q) && window == SlotWindow(q);
    assert window.startHour / 6 == q;
  }

  lemma {:induction false} WatchedBy(tallies: seq<Tally>, b: int) returns (i: nat)
    requires 0 <= b < BUCKETS && WatchedIn(tallies, b) > 0.0
    ensures i < |tallies| && tallies[i][b].hours == WatchedIn(tallies, b)
  {
    if tallies[|tallies| - 1][b].hours == WatchedIn(tallies, b) {
      i := |tallies| - 1;
    } else {
      i := WatchedBy(tallies[..|tallies| - 1], b);
    }
  }

  /** The histories all lie within a stretch. */
  predicate HistoriesWithin(namespaces: seq<Samples>, lo: real, hi: real) {
    forall i :: 0 <= i < |namespaces| ==> HistoryWithin(SortedRuns(namespaces[i]), lo, hi)
  }

  predicate HistoryWithin(sorted: Samples, lo: real, hi: real) {
    Chained(sorted) && (sorted != [] ==> lo <= SpanStart(sorted[0].run) && SpanEnd(sorted[|sorted| - 1].run) <= hi)
  }

  lemma {:induction false} HistorySpan(sorted: Samples)
    requires sorted != [] && Chained(sorted)
    ensures SpanStart(sorted[0].run) <= SpanEnd(sorted[|sorted| - 1].run)
  {
    if |sorted| > 1 {
      ChainedOrder(sorted, 0, |sorted| - 1);
    }
  }

  lemma {:induction false} NoHistory(sorted: Samples, b: int)
    requires 0 <= b < BUCKETS
    ensures sorted == [] ==> TallyTo(sorted, |sorted|)[b].hours == 0.0
  {
  }

  lemma {:induction false} SlotWatched(namespaces: seq<Samples>, b: int, lo: real, hi: real) returns (i: nat)
    requires 0 <= b < BUCKETS && HistoriesWithin(namespaces, lo, hi)
    requires WatchedIn(TalliesOf(namespaces), b) >= MIN_WATCHED_HOURS
    ensures i < |namespaces|
    ensures
      var sorted := SortedRuns(namespaces[i]);
      sorted != [] && SpanEnd(sorted[|sorted| - 1].run) - SpanStart(sorted[0].run) >= 54.0 * HOUR_MS
    ensures Measure(b, lo, hi) >= 3.0 * SLOT_MS
  {
    i := WatchedBy(TalliesOf(namespaces), b);
    var sorted := SortedRuns(namespaces[i]);
    NoHistory(sorted, b);
    assert TalliesOf(namespaces)[i] == TallyTo(sorted, |sorted|);
    assert HistoryWithin(sorted, lo, hi);
    HoursWithin(sorted, |sorted|, b);
    HistorySpan(sorted);
    var first, last := SpanStart(sorted[0].run), SpanEnd(sorted[|sorted| - 1].run);
    ThreeDaysOfASlot(b, first, last);
    ElapsedMonotone(b, lo, first);
    ElapsedMonotone(b, last, hi);
  }

  /** A window is never inferred from less than three days: the histories together span at
      least seventy-two hours, and one namespace alone at least fifty-four. */
  lemma {:induction false} InferredNeedsThreeDays(namespaces: seq<Samples>, window: Window, lo: real, hi: real)
    requires Names(TalliesOf(namespaces), Some(window)) && HistoriesWithin(namespaces, lo, hi)
    ensures hi - lo >= 72.0 * HOUR_MS
    ensures exists i :: 0 <= i < |namespaces| && SpansHours(SortedRuns(namespaces[i]), 54.0)
  {
    var i := SlotWatched(namespaces, 0, lo, hi);
    var j := SlotWatched(namespaces, 1, lo, hi);
    var k := SlotWatched(namespaces, 2, lo, hi);
    var l := SlotWatched(namespaces, 3, lo, hi);
    SlotsPartition(lo);
    SlotsPartition(hi);
    assert SpansHours(SortedRuns(namespaces[i]), 54.0);
  }

  predicate SpansHours(sorted: Samples, hours: real) {
    sorted != [] && SpanEnd(sorted[|sorted| - 1].run) - SpanStart(sorted[0].run) >= hours * HOUR_MS
  }
}
