/** The latency chart, its trend, and why there is nothing to draw
    (apps/api/src/analysis/latency.ts). */
module LatencyChart {
  import opened Engine
  import opened Runs
  import opened Observed

  type Readings = seq<Reading<Latency>>

  /** Average latency over an interval, unless it cannot be measured. */
  function WindowAvg(deltaMicros: int, deltaOps: int): Option<real> {
    if deltaOps <= 0 || deltaMicros < 0 then None else Some(deltaMicros as real / deltaOps as real)
  }

  function PairAvg(previous: Reading<Latency>, next: Reading<Latency>, metric: Metric): Option<real> {
    WindowAvg(
      MicrosOf(next.value, metric) - MicrosOf(previous.value, metric),
      OpsOf(next.value, metric) - OpsOf(previous.value, metric))
  }

  // --- The chart ---------------------------------------------------------------

  datatype Point = Point(at: real, readMicros: Option<real>, writeMicros: Option<real>)

  function MicrosAt(p: Point, metric: Metric): Option<real> {
    if metric.Read? then p.readMicros else p.writeMicros
  }

  /** The gap a run leaves at its end. */
  function RunEnd(r: Reading<Latency>): seq<Point> {
    if SpanEnd(r.run) > SpanStart(r.run) then [Point(SpanEnd(r.run), None, None)] else []
  }

  function PairPoint(r: Reading<Latency>, next: Reading<Latency>): Point {
    Point(SpanStart(next.run), PairAvg(r, next, Read), PairAvg(r, next, Write))
  }

  function PointsIn(sorted: Readings): seq<Point> {
    if sorted == [] then []
    else if |sorted| == 1 then RunEnd(sorted[0])
    else RunEnd(sorted[0]) + [PairPoint(sorted[0], sorted[1])] + PointsIn(sorted[1..])
  }

  function LatencyPoints(readings: Readings): seq<Point> {
    PointsIn(SortedRuns(readings))
  }

  method LatencyPointsLoop(readings: Readings) returns (points: seq<Point>)
    ensures points == LatencyPoints(readings)
  {
    var sorted := SortedRuns(readings);
    points := [];
    for i := 0 to |sorted|
      invariant points + PointsIn(sorted[i..]) == PointsIn(sorted)
    {
      ghost var before, rest := points, sorted[i..];
      var reading := sorted[i];
      if SpanEnd(reading.run) > SpanStart(reading.run) {
        points := points + [Point(SpanEnd(reading.run), None, None)];
      }
      assert points == before + RunEnd(reading);
      if i + 1 < |sorted| {
        var next := sorted[i + 1];
        points := points + [Point(SpanStart(next.run), PairAvg(reading, next, Read), PairAvg(reading, next, Write))];
        assert rest[1..] == sorted[i + 1..];
        Assoc4(before, RunEnd(reading), [PairPoint(reading, next)], PointsIn(sorted[i + 1..]));
      }
    }
  }

  // --- The trend ---------------------------------------------------------------

  /** The measurable windows of a metric, oldest first. */
  function Measured(sorted: Readings, metric: Metric): seq<real> {
    if |sorted| < 2 then []
    else
      var avg := PairAvg(sorted[0], sorted[1], metric);
      (if avg.Some? then [avg.value] else []) + Measured(sorted[1..], metric)
  }

  function DeltaPct(baseline: Option<real>, current: Option<real>): Option<real> {
    if baseline.None? || current.None? || baseline.value <= 0.0 then None
    else Some((current.value - baseline.value) / baseline.value * 100.0)
  }

  datatype Side = Side(current: Option<real>, baseline: Option<real>, deltaPct: Option<real>)
  datatype Trend = Trend(samples: nat, read: Side, write: Side)

  function SideOf(values: seq<real>): Side {
    var baseline := if values == [] then None else Some(values[0]);
    var current := if values == [] then None else Some(values[|values| - 1]);
    Side(current, baseline, DeltaPct(baseline, current))
  }

  function SummarizeLatency(readings: Readings): Trend {
    var sorted := SortedRuns(readings);
    Trend(TotalObservations(sorted), SideOf(Measured(sorted, Read)), SideOf(Measured(sorted, Write)))
  }

  method MeasuredLoop(sorted: Readings) returns (readAvgs: seq<real>, writeAvgs: seq<real>)
    ensures readAvgs == Measured(sorted, Read) && writeAvgs == Measured(sorted, Write)
  {
    readAvgs, writeAvgs := [], [];
    var i := 1;
    while i < |sorted|
      invariant 1 <= i && (sorted != [] ==> i <= |sorted|)
      invariant sorted != [] ==> readAvgs + Measured(sorted[i - 1..], Read) == Measured(sorted, Read)
      invariant sorted != [] ==> writeAvgs + Measured(sorted[i - 1..], Write) == Measured(sorted, Write)
      invariant sorted == [] ==> readAvgs == [] && writeAvgs == []
    {
      assert sorted[i - 1..][1..] == sorted[i..];
      var r := PairAvg(sorted[i - 1], sorted[i], Read);
      var w := PairAvg(sorted[i - 1], sorted[i], Write);
      Assoc(readAvgs, if r.Some? then [r.value] else [], Measured(sorted[i..], Read));
      Assoc(writeAvgs, if w.Some? then [w.value] else [], Measured(sorted[i..], Write));
      if r.Some? {
        readAvgs := readAvgs + [r.value];
      }
      if w.Some? {
        writeAvgs := writeAvgs + [w.value];
      }
      i := i + 1;
    }
  }

  method SummarizeLoop(readings: Readings) returns (trend: Trend)
    ensures trend == SummarizeLatency(readings)
  {
    var sorted := SortedRuns(readings);
    var readAvgs, writeAvgs := MeasuredLoop(sorted);
    trend := Trend(TotalObservations(sorted), SideOf(readAvgs), SideOf(writeAvgs));
  }

  // --- Why there is nothing to draw --------------------------------------------

  datatype Gap = AwaitingSecondCollect | NoOpsRecorded | CountersReset

  predicate DrawablePair(previous: Reading<Latency>, next: Reading<Latency>, metric: Metric) {
    PairAvg(previous, next, metric).Some?
  }

  /** A total fell. */
  predicate ResetPair(previous: Reading<Latency>, next: Reading<Latency>, metric: Metric) {
    || OpsOf(next.value, metric) < OpsOf(previous.value, metric)
    || MicrosOf(next.value, metric) < MicrosOf(previous.value, metric)
  }

  predicate AnyDrawable(sorted: Readings, metric: Metric) {
    exists i :: 1 <= i < |sorted| && DrawablePair(sorted[i - 1], sorted[i], metric)
  }

  predicate AnyReset(sorted: Readings, metric: Metric) {
    exists i :: 1 <= i < |sorted| && ResetPair(sorted[i - 1], sorted[i], metric)
  }

  /** Nothing is explained where something can be drawn; otherwise the reason is that there
      is one reading, that a counter fell, or that it never moved. */
  function GapIn(sorted: Readings, metric: Metric): Option<Gap> {
    if |sorted| < 2 then Some(AwaitingSecondCollect)
    else if AnyDrawable(sorted, metric) then None
    else if AnyReset(sorted, metric) then Some(CountersReset)
    else Some(NoOpsRecorded)
  }

  function LatencyGap(readings: Readings, metric: Metric): Option<Gap> {
    GapIn(SortedRuns(readings), metric)
  }

  method GapLoop(sorted: Readings, metric: Metric) returns (gap: Option<Gap>)
    ensures gap == GapIn(sorted, metric)
  {
    if |sorted| < 2 {
      return Some(AwaitingSecondCollect);
    }
    var reset := false;
    for i := 1 to |sorted|
      invariant forall k :: 1 <= k < i ==> !DrawablePair(sorted[k - 1], sorted[k], metric)
      invariant reset <==> exists k :: 1 <= k < i && ResetPair(sorted[k - 1], sorted[k], metric)
    {
      var deltaOps := OpsOf(sorted[i].value, metric) - OpsOf(sorted[i - 1].value, metric);
      var deltaMicros := MicrosOf(sorted[i].value, metric) - MicrosOf(sorted[i - 1].value, metric);
      if deltaOps > 0 && deltaMicros >= 0 {
        assert DrawablePair(sorted[i - 1], sorted[i], metric);
        return None;
      }
      assert ResetPair(sorted[i - 1], sorted[i], metric) <==> (deltaOps < 0 || deltaMicros < 0);
      if deltaOps < 0 || deltaMicros < 0 {
        reset := true;
      }
    }
    return Some(if reset then CountersReset else NoOpsRecorded);
  }

  /** No reset and nothing drawn: no operation went through between any two readings. */
  lemma {:induction false} NoOpsMeansNone(sorted: Readings, metric: Metric, i: nat)
    requires GapIn(sorted, metric) == Some(NoOpsRecorded) && 1 <= i < |sorted|
    ensures OpsOf(sorted[i].value, metric) == OpsOf(sorted[i - 1].value, metric)
  {
    assert !DrawablePair(sorted[i - 1], sorted[i], metric);
    assert !ResetPair(sorted[i - 1], sorted[i], metric);
  }

  // --- The readers agree -------------------------------------------------------

  /** The values a chart draws, left to right. */
  function Drawn(points: seq<Point>, metric: Metric): seq<real> {
    if points == [] then []
    else
      var micros := MicrosAt(points[0], metric);
      (if micros.Some? then [micros.value] else []) + Drawn(points[1..], metric)
  }

  /** How many points a chart could draw, as the ranking counts them. */
  function DrawnCount(points: seq<Point>, metric: Metric): nat {
    if points == [] then 0
    else (if MicrosAt(points[0], metric).Some? then 1 else 0) + DrawnCount(points[1..], metric)
  }

  lemma {:induction false} DrawnAppend(a: seq<Point>, b: seq<Point>, metric: Metric)
    ensures Drawn(a + b, metric) == Drawn(a, metric) + Drawn(b, metric)
  {
    if a == [] {
      assert a + b == b;
    } else {
      assert (a + b)[1..] == a[1..] + b;
      DrawnAppend(a[1..], b, metric);
      var micros := MicrosAt(a[0], metric);
      Assoc(if micros.Some? then [micros.value] else [], Drawn(a[1..], metric), Drawn(b, metric));
    }
  }

  lemma {:induction false} CountIsLength(points: seq<Point>, metric: Metric)
    ensures DrawnCount(points, metric) == |Drawn(points, metric)|
  {
    if points != [] {
      CountIsLength(points[1..], metric);
    }
  }

  lemma {:induction false} RunEndDrawsNothing(r: Reading<Latency>, metric: Metric)
    ensures Drawn(RunEnd(r), metric) == []
  {
    if RunEnd(r) != [] {
      assert RunEnd(r)[1..] == [];
    }
  }

  lemma {:induction false} PairDraws(r: Reading<Latency>, next: Reading<Latency>, metric: Metric)
    ensures Drawn([PairPoint(r, next)], metric)
      == var avg := PairAvg(r, next, metric); if avg.Some? then [avg.value] else []
  {
    assert [PairPoint(r, next)][1..] == [];
  }

  /** The chart draws exactly the windows the trend measures, in order. */
  lemma {:induction false} ChartIsMeasured(sorted: Readings, metric: Metric)
    ensures Drawn(PointsIn(sorted), metric) == Measured(sorted, metric)
  {
    if sorted != [] {
      RunEndDrawsNothing(sorted[0], metric);
      if |sorted| > 1 {
        ChartIsMeasured(sorted[1..], metric);
        PairDraws(sorted[0], sorted[1], metric);
        DrawnAppend(RunEnd(sorted[0]) + [PairPoint(sorted[0], sorted[1])], PointsIn(sorted[1..]), metric);
        DrawnAppend(RunEnd(sorted[0]), [PairPoint(sorted[0], sorted[1])], metric);
      }
    }
  }

  lemma {:induction false} MeasuredIffDrawable(sorted: Readings, metric: Metric)
    ensures Measured(sorted, metric) != [] <==> AnyDrawable(sorted, metric)
  {
    if |sorted| >= 2 {
      var rest := sorted[1..];
      MeasuredIffDrawable(rest, metric);
      if DrawablePair(sorted[0], sorted[1], metric) {
        assert AnyDrawable(sorted, metric);
      } else {
        DrawableBehind(sorted, metric);
      }
    }
  }

  lemma {:induction false} DrawableBehind(sorted: Readings, metric: Metric)
    requires |sorted| >= 2 && !DrawablePair(sorted[0], sorted[1], metric)
    ensures AnyDrawable(sorted, metric) <==> AnyDrawable(sorted[1..], metric)
  {
    var rest := sorted[1..];
    if AnyDrawable(sorted, metric) {
      var i :| 1 <= i < |sorted| && DrawablePair(sorted[i - 1], sorted[i], metric);
      assert DrawablePair(rest[i - 2], rest[i - 1], metric);
    }
    if AnyDrawable(rest, metric) {
      var i :| 1 <= i < |rest| && DrawablePair(rest[i - 1], rest[i], metric);
      assert DrawablePair(sorted[i], sorted[i + 1], metric);
    }
  }

  /** The four readers of one history never disagree: a gap is explained exactly when the
      chart draws nothing, the ranking counts nothing, and the trend has no value; and the
      trend's ends are the chart's first and last drawn values. */
  lemma {:induction false} ReadersAgree(readings: Readings, metric: Metric)
    ensures
      var drawn := Drawn(LatencyPoints(readings), metric);
      var trend := SummarizeLatency(readings);
      var side := if metric.Read? then trend.read else trend.write;
      && (LatencyGap(readings, metric).None? <==> drawn != [])
      && DrawnCount(LatencyPoints(readings), metric) == |drawn|
      && side.current == (if drawn == [] then None else Some(drawn[|drawn| - 1]))
      && side.baseline == (if drawn == [] then None else Some(drawn[0]))
  {
    var sorted := SortedRuns(readings);
    ChartIsMeasured(sorted, metric);
    MeasuredIffDrawable(sorted, metric);
    CountIsLength(LatencyPoints(readings), metric);
    assert metric == Read || metric == Write;
  }

}
