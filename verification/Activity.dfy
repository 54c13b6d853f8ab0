/** Was the collection being read (apps/api/src/analysis/activity.ts)? */
module Activity {
  import opened Runs

  const MAX_ACTIVE_CREDIT_MS := 3_600_000.0

  /** Cumulative reads, and how many of them were the product's own. */
  datatype Reads = Reads(readOps: int, selfReadOps: int)

  datatype ActivityFold = ActivityFold(activeMs: real, measurable: bool)

  /** What one interval between two readings earns. */
  function Credit(previous: Reading<Reads>, current: Reading<Reads>, cap: real): real {
    var ours := current.value.selfReadOps - previous.value.selfReadOps;
    var delta := current.value.readOps - previous.value.readOps - ours;
    var between := SpanStart(current.run) - SpanEnd(previous.run);
    if ours < 0 || delta <= 0 then 0.0 else if between < cap then between else cap
  }

  function ActiveMs(rs: seq<Reading<Reads>>, cap: real): real {
    if |rs| < 2 then 0.0 else Credit(rs[0], rs[1], cap) + ActiveMs(rs[1..], cap)
  }

  function CapOf(median: real): real {
    if median < MAX_ACTIVE_CREDIT_MS then median else MAX_ACTIVE_CREDIT_MS
  }

  function FoldActivity(points: seq<Reading<Reads>>): ActivityFold {
    var sorted := SortedRuns(points);
    var median := MedianObservationGap(sorted);
    if median == 0.0 then ActivityFold(0.0, false)
    else ActivityFold(ActiveMs(sorted, CapOf(median)), true)
  }

  method FoldActivityLoop(points: seq<Reading<Reads>>) returns (fold: ActivityFold)
    ensures fold == FoldActivity(points)
  {
    var sorted := SortedRuns(points);
    var median := MedianLoop(sorted);
    if median == 0.0 {
      return ActivityFold(0.0, false);
    }
    var cap := CapOf(median);
    var activeMs := 0.0;
    var i := 1;
    while i < |sorted|
      invariant 1 <= i && (sorted != [] ==> i <= |sorted|)
      invariant sorted != [] ==> activeMs + ActiveMs(sorted[i - 1..], cap) == ActiveMs(sorted, cap)
      invariant sorted == [] ==> activeMs == 0.0
    {
      assert sorted[i - 1..][1..] == sorted[i..];
      var previous, current := sorted[i - 1], sorted[i];
      var ours := current.value.selfReadOps - previous.value.selfReadOps;
      if ours >= 0 {
        var delta := current.value.readOps - previous.value.readOps - ours;
        if delta > 0 {
          var between := SpanStart(current.run) - SpanEnd(previous.run);
          activeMs := activeMs + if between < cap then between else cap;
        }
      }
      i := i + 1;
    }
    return ActivityFold(activeMs, true);
  }

  lemma {:induction false} ActiveConcat(a: seq<Reading<Reads>>, b: seq<Reading<Reads>>, cap: real)
    requires a != [] && b != []
    ensures ActiveMs(a + b, cap) == ActiveMs(a, cap) + Credit(a[|a| - 1], b[0], cap) + ActiveMs(b, cap)
    decreases |a|
  {
    if |a| == 1 {
      assert (a + b)[1..] == b;
    } else {
      assert (a + b)[1..] == a[1..] + b;
      ActiveConcat(a[1..], b, cap);
    }
  }

  /** A stretch over which the counters stood still earns nothing. */
  lemma {:induction false} StillIsIdle(at: real, step: real, n: nat, value: Reads, cap: real)
    ensures ActiveMs(Points(at, step, n, value), cap) == 0.0
    decreases n
  {
    if n > 1 {
      var points, rest := Points(at, step, n, value), Points(at + step, step, n - 1, value);
      assert points[1..] == rest;
      assert points[1] == rest[0];
      StillIsIdle(at + step, step, n - 1, value, cap);
    } else if n == 1 {
      assert Points(at + step, step, 0, value) == [];
    }
  }

  lemma {:induction false} ActiveRunLength(rs: seq<Reading<Reads>>, cap: real)
    requires PointsArePoints(rs)
    ensures ActiveMs(ExpandAll(rs), cap) == ActiveMs(rs, cap)
  {
    if rs != [] {
      var r, rest := rs[0], rs[1..];
      StillIsIdle(SpanStart(r.run), StepOf(r.run), ObservationsOf(r.run), r.value, cap);
      ActiveRunLength(rest, cap);
      ExpandEnds(r);
      if rest == [] {
        assert Expand(r) + [] == Expand(r);
      } else {
        ExpandAllStarts(rest);
        ActiveConcat(Expand(r), ExpandAll(rest), cap);
        var last := Expand(r)[|Expand(r)| - 1];
        assert Credit(last, ExpandAll(rest)[0], cap) == Credit(r, rs[1], cap);
      }
    }
  }

  /** Active time is the same whether runs are stored or written out. */
  lemma {:induction false} ActivityRunLength(rs: seq<Reading<Reads>>)
    requires Chained(rs) && PointsArePoints(rs)
    ensures FoldActivity(ExpandAll(rs)) == FoldActivity(rs)
  {
    ChainedAscends(rs);
    SortedAlready(rs);
    ExpandAllChained(rs);
    ChainedAscends(ExpandAll(rs));
    SortedAlready(ExpandAll(rs));
    MedianRunLength(rs);
    ActiveRunLength(rs, CapOf(MedianObservationGap(rs)));
  }
}
