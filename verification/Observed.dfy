/** How much of a hidden index's observe window was really watched, and whether what was
    watched was slower (apps/api/src/analysis/observed.ts, own-outage.ts). */
module Observed {
  import opened Engine
  import opened Runs

  const DAY_MS := 86_400_000.0
  const OBSERVE_WALLCLOCK_MULTIPLE := 3.0
  const OWN_OUTAGE_MS := 7_200_000.0

  // --- Our own outages ---------------------------------------------------------

  /** A stretch of ticks, and a gap between two of them. */
  datatype Stretch = Stretch(sinceMs: real, lastSeenMs: real)
  datatype Outage = Outage(fromMs: real, toMs: real)

  function InsertStretch(sorted: seq<Stretch>, s: Stretch): seq<Stretch> {
    if sorted == [] || sorted[|sorted| - 1].sinceMs <= s.sinceMs then sorted + [s]
    else InsertStretch(sorted[..|sorted| - 1], s) + [sorted[|sorted| - 1]]
  }

  function SortStretches(runs: seq<Stretch>): seq<Stretch> {
    if runs == [] then [] else InsertStretch(SortStretches(runs[..|runs| - 1]), runs[|runs| - 1])
  }

  function OutagesIn(sorted: seq<Stretch>): seq<Outage> {
    if |sorted| < 2 then []
    else
      var n := |sorted| - 1;
      var before := OutagesIn(sorted[..n]);
      if sorted[n].sinceMs - sorted[n - 1].lastSeenMs > OWN_OUTAGE_MS
      then before + [Outage(sorted[n - 1].lastSeenMs, sorted[n].sinceMs)] else before
  }

  function OutagesBetween(runs: seq<Stretch>): seq<Outage> {
    OutagesIn(SortStretches(runs))
  }

  method OutagesLoop(runs: seq<Stretch>) returns (outages: seq<Outage>)
    ensures outages == OutagesBetween(runs)
  {
    var sorted := SortStretches(runs);
    outages := [];
    var i := 1;
    while i < |sorted|
      invariant 1 <= i && (sorted != [] ==> i <= |sorted| && outages == OutagesIn(sorted[..i]))
      invariant sorted == [] ==> outages == []
    {
      assert sorted[..i + 1][..i] == sorted[..i];
      if sorted[i].sinceMs - sorted[i - 1].lastSeenMs > OWN_OUTAGE_MS {
        outages := outages + [Outage(sorted[i - 1].lastSeenMs, sorted[i].sinceMs)];
      }
      i := i + 1;
    }
    assert sorted != [] ==> sorted[..|sorted|] == sorted;
  }

  /** Stretches of our own ticks do not overlap. */
  predicate Apart(stretches: seq<Stretch>) {
    && (forall i :: 0 <= i < |stretches| ==> stretches[i].sinceMs <= stretches[i].lastSeenMs)
    && (forall i, j :: 0 <= i < j < |stretches| ==> stretches[i].lastSeenMs <= stretches[j].sinceMs)
  }

  predicate OutagesApart(outages: seq<Outage>) {
    && (forall i :: 0 <= i < |outages| ==> outages[i].fromMs <= outages[i].toMs)
    && (forall i, j :: 0 <= i < j < |outages| ==> outages[i].toMs <= outages[j].fromMs)
  }

  lemma {:induction false} OutagesAreApart(sorted: seq<Stretch>)
    requires Apart(sorted)
    ensures OutagesApart(OutagesIn(sorted))
    ensures forall i :: 0 <= i < |OutagesIn(sorted)| ==> OutagesIn(sorted)[i].toMs <= sorted[|sorted| - 1].sinceMs
  {
    if |sorted| >= 2 {
      OutagesAreApart(sorted[..|sorted| - 1]);
    }
  }

  predicate SpansOwnOutage(outages: seq<Outage>, startMs: real, endMs: real) {
    exists i :: 0 <= i < |outages| && startMs < outages[i].toMs && endMs > outages[i].fromMs
  }

  function Overlap(o: Outage, startMs: real, endMs: real): (ms: real)
    ensures ms >= 0.0
  {
    var low := if startMs > o.fromMs then startMs else o.fromMs;
    var high := if endMs < o.toMs then endMs else o.toMs;
    if high > low then high - low else 0.0
  }

  /** How much of a stretch we were not running for. */
  function OwnOutageMs(outages: seq<Outage>, startMs: real, endMs: real): (ms: real)
    ensures ms >= 0.0
  {
    if outages == [] then 0.0
    else OwnOutageMs(outages[..|outages| - 1], startMs, endMs) + Overlap(outages[|outages| - 1], startMs, endMs)
  }

  lemma {:induction false} OutageAdds(outages: seq<Outage>, a: real, b: real, c: real)
    requires a <= b <= c && forall i :: 0 <= i < |outages| ==> outages[i].fromMs <= outages[i].toMs
    ensures OwnOutageMs(outages, a, c) == OwnOutageMs(outages, a, b) + OwnOutageMs(outages, b, c)
  {
    if outages != [] {
      OutageAdds(outages[..|outages| - 1], a, b, c);
    }
  }

  lemma {:induction false} NoOutageSpanned(outages: seq<Outage>, a: real, b: real)
    requires a <= b && !SpansOwnOutage(outages, a, b)
    ensures OwnOutageMs(outages, a, b) == 0.0
  {
    if outages != [] {
      var short := outages[..|outages| - 1];
      assert !SpansOwnOutage(short, a, b) by {
        forall i | 0 <= i < |short| ensures !(a < short[i].toMs && b > short[i].fromMs) {
          assert short[i] == outages[i];
        }
      }
      NoOutageSpanned(short, a, b);
    }
  }

  lemma {:induction false} NothingBefore(outages: seq<Outage>, a: real, b: real)
    requires forall i :: 0 <= i < |outages| ==> outages[i].toMs <= a
    ensures OwnOutageMs(outages, a, b) == 0.0
  {
    if outages != [] {
      NothingBefore(outages[..|outages| - 1], a, b);
    }
  }

  /** We cannot have been out for longer than the time there was. */
  lemma {:induction false} OutageWithin(outages: seq<Outage>, a: real, b: real)
    requires OutagesApart(outages) && a <= b
    ensures OwnOutageMs(outages, a, b) <= b - a
  {
    if outages != [] {
      var short, last := outages[..|outages| - 1], outages[|outages| - 1];
      if last.fromMs <= a {
        NothingBefore(short, a, b);
      } else if last.fromMs >= b {
        OutageWithin(short, a, b);
      } else {
        OutageAdds(short, a, last.fromMs, b);
        NothingBefore(short, last.fromMs, b);
        OutageWithin(short, a, last.fromMs);
      }
    }
  }

  // --- Windows -----------------------------------------------------------------

  datatype Latency = Latency(readOps: int, readMicros: int, writeOps: int, writeMicros: int)
  datatype Metric = Read | Write

  datatype Window = Window(startMs: real, endMs: real, micros: int, ops: int)

  function OpsOf(l: Latency, metric: Metric): int {
    if metric.Read? then l.readOps else l.writeOps
  }

  function MicrosOf(l: Latency, metric: Metric): int {
    if metric.Read? then l.readMicros else l.writeMicros
  }

  /** The window between two readings, unless a reset ate it. */
  function WindowBetween(previous: Reading<Latency>, next: Reading<Latency>, metric: Metric): seq<Window> {
    var ops := OpsOf(next.value, metric) - OpsOf(previous.value, metric);
    var micros := MicrosOf(next.value, metric) - MicrosOf(previous.value, metric);
    if ops < 0 || micros < 0 then [] else [Window(SpanEnd(previous.run), SpanStart(next.run), micros, ops)]
  }

  function WindowsIn(sorted: seq<Reading<Latency>>, metric: Metric): seq<Window> {
    if |sorted| < 2 then []
    else WindowBetween(sorted[0], sorted[1], metric) + WindowsIn(sorted[1..], metric)
  }

  function WindowsOf(readings: seq<Reading<Latency>>, metric: Metric): seq<Window> {
    WindowsIn(SortedRuns(readings), metric)
  }

  method WindowsLoop(readings: seq<Reading<Latency>>, metric: Metric) returns (windows: seq<Window>)
    ensures windows == WindowsOf(readings, metric)
  {
    windows := PairsLoop(SortedRuns(readings), metric);
  }

  method PairsLoop(sorted: seq<Reading<Latency>>, metric: Metric) returns (windows: seq<Window>)
    ensures windows == WindowsIn(sorted, metric)
  {
    windows := [];
    if sorted == [] {
      return;
    }
    var i := 1;
    while i < |sorted|
      invariant 1 <= i <= |sorted|
      invariant windows + WindowsIn(sorted[i - 1..], metric) == WindowsIn(sorted, metric)
    {
      NextWindow(sorted, i, windows, metric);
      windows := KeepPair(windows, sorted[i - 1], sorted[i], metric);
      i := i + 1;
    }
  }

  method KeepPair(windows: seq<Window>, previous: Reading<Latency>, next: Reading<Latency>, metric: Metric)
    returns (out: seq<Window>)
    ensures out == windows + WindowBetween(previous, next, metric)
  {
    var ops := OpsOf(next.value, metric) - OpsOf(previous.value, metric);
    var micros := MicrosOf(next.value, metric) - MicrosOf(previous.value, metric);
    out := windows;
    if !(ops < 0 || micros < 0) {
      out := out + [Window(SpanEnd(previous.run), SpanStart(next.run), micros, ops)];
    }
  }

  lemma {:induction false} NextWindow(sorted: seq<Reading<Latency>>, i: nat, windows: seq<Window>, metric: Metric)
    requires 1 <= i < |sorted|
    ensures windows + WindowsIn(sorted[i - 1..], metric)
      == windows + WindowBetween(sorted[i - 1], sorted[i], metric) + WindowsIn(sorted[i..], metric)
  {
    var rest := sorted[i - 1..];
    assert rest[0] == sorted[i - 1] && rest[1] == sorted[i] && rest[1..] == sorted[i..];
    Assoc(windows, WindowBetween(sorted[i - 1], sorted[i], metric), WindowsIn(sorted[i..], metric));
  }

  function KeepWindows(windows: seq<Window>, keep: Window -> bool): seq<Window> {
    if windows == [] then []
    else (if keep(windows[0]) then [windows[0]] else []) + KeepWindows(windows[1..], keep)
  }

  function SumLength(windows: seq<Window>): real {
    if windows == [] then 0.0 else windows[0].endMs - windows[0].startMs + SumLength(windows[1..])
  }

  function SumOps(windows: seq<Window>): int {
    if windows == [] then 0 else windows[0].ops + SumOps(windows[1..])
  }

  function SumMicros(windows: seq<Window>): int {
    if windows == [] then 0 else windows[0].micros + SumMicros(windows[1..])
  }

  function AverageMicrosPerOp(windows: seq<Window>): Option<real> {
    if SumOps(windows) > 0 then Some(SumMicros(windows) as real / SumOps(windows) as real) else None
  }

  method AverageLoop(windows: seq<Window>) returns (average: Option<real>)
    ensures average == AverageMicrosPerOp(windows)
  {
    var micros, ops := 0, 0;
    for i := 0 to |windows|
      invariant micros + SumMicros(windows[i..]) == SumMicros(windows)
      invariant ops + SumOps(windows[i..]) == SumOps(windows)
    {
      assert windows[i..][1..] == windows[i + 1..];
      micros := micros + windows[i].micros;
      ops := ops + windows[i].ops;
    }
    average := if ops > 0 then Some(micros as real / ops as real) else None;
  }

  // --- The verdict -------------------------------------------------------------

  datatype Verdict = Regressed | Stable | Incomplete | NoBaseline

  datatype Options = Options(factor: real, minWindowOps: int, recordedBaseline: Option<real>, ownOutages: seq<Outage>)

  datatype ObservedWindow = ObservedWindow(verdict: Verdict, observedMs: real, ratio: Option<real>)

  function WatchedIn(windows: seq<Window>, outages: seq<Outage>): seq<Window> {
    KeepWindows(windows, (w: Window) => !SpansOwnOutage(outages, w.startMs, w.endMs))
  }

  function SinceIn(windows: seq<Window>, fromMs: real, outages: seq<Outage>): seq<Window> {
    KeepWindows(WatchedIn(windows, outages), (w: Window) => w.startMs >= fromMs)
  }

  function BeforeIn(windows: seq<Window>, fromMs: real, observeMs: real, outages: seq<Outage>): seq<Window> {
    KeepWindows(WatchedIn(windows, outages), (w: Window) => w.endMs <= fromMs && w.startMs >= fromMs - observeMs)
  }

  function ObserveIn(windows: seq<Window>, fromMs: real, observeDays: real, options: Options): ObservedWindow {
    var observeMs := observeDays * DAY_MS;
    var since := SinceIn(windows, fromMs, options.ownOutages);
    var before := BeforeIn(windows, fromMs, observeMs, options.ownOutages);
    var observedMs := SumLength(since);
    if observedMs < observeMs then ObservedWindow(Incomplete, observedMs, None)
    else if SumOps(since) < options.minWindowOps then ObservedWindow(Stable, observedMs, None)
    else
      var measured := AverageMicrosPerOp(before);
      var baseline := if measured.Some? then measured else options.recordedBaseline;
      var current := AverageMicrosPerOp(since);
      if baseline.None? || baseline.value <= 0.0 || current.None? then ObservedWindow(NoBaseline, observedMs, None)
      else
        var ratio := current.value / baseline.value;
        ObservedWindow(if ratio > options.factor then Regressed else Stable, observedMs, Some(ratio))
  }

  /** What the readings say of the change at a moment: the verdict, the time watched, and
      how much slower. */
  function Observe(readings: seq<Reading<Latency>>, metric: Metric, fromMs: real, observeDays: real, options: Options)
    : ObservedWindow {
    ObserveIn(WindowsOf(readings, metric), fromMs, observeDays, options)
  }

  predicate OutstayedWindow(hiddenAtMs: real, observeDays: real, nowMs: real, ownOutageMs: real) {
    nowMs - hiddenAtMs - ownOutageMs > observeDays * OBSERVE_WALLCLOCK_MULTIPLE * DAY_MS
  }

  // --- Counted windows are disjoint --------------------------------------------

  /** Windows in time order within a stretch, none across an outage. */
  predicate InOrder(windows: seq<Window>, a: real, b: real) {
    && (forall i :: 0 <= i < |windows| ==> a <= windows[i].startMs <= windows[i].endMs <= b)
    && (forall i, j :: 0 <= i < j < |windows| ==> windows[i].endMs <= windows[j].startMs)
  }

  lemma {:induction false} InOrderTail(windows: seq<Window>, a: real, b: real)
    requires windows != [] && InOrder(windows, a, b)
    ensures InOrder(windows[1..], windows[0].endMs, b)
  {
    var rest := windows[1..];
    forall i | 0 <= i < |rest| ensures windows[0].endMs <= rest[i].startMs <= rest[i].endMs <= b {
      assert rest[i] == windows[i + 1];
    }
    forall i, j | 0 <= i < j < |rest| ensures rest[i].endMs <= rest[j].startMs {
      assert rest[i] == windows[i + 1] && rest[j] == windows[j + 1];
    }
  }

  lemma {:induction false} InOrderCons(w: Window, rest: seq<Window>, a: real, b: real)
    requires a <= w.startMs <= w.endMs <= b && InOrder(rest, w.endMs, b)
    ensures InOrder([w] + rest, a, b)
  {
    var all := [w] + rest;
    forall i | 0 <= i < |all| ensures a <= all[i].startMs <= all[i].endMs <= b {
      assert i > 0 ==> all[i] == rest[i - 1];
    }
    forall i, j | 0 <= i < j < |all| ensures all[i].endMs <= all[j].startMs {
      assert all[j] == rest[j - 1];
      assert i > 0 ==> all[i] == rest[i - 1];
    }
  }

  lemma {:induction false} InOrderWider(windows: seq<Window>, a: real, b: real, a': real)
    requires InOrder(windows, a, b) && a' <= a
    ensures InOrder(windows, a', b)
  {
  }

  lemma {:induction false} WindowsInOrder(sorted: seq<Reading<Latency>>, metric: Metric)
    requires sorted != [] && Chained(sorted)
    ensures InOrder(WindowsIn(sorted, metric), SpanEnd(sorted[0].run), SpanStart(sorted[|sorted| - 1].run))
  {
    if |sorted| >= 2 {
      var rest := sorted[1..];
      var b := SpanStart(sorted[|sorted| - 1].run);
      assert Chained(rest) by {
        assert forall i :: 0 <= i < |rest| ==> rest[i] == sorted[i + 1];
      }
      WindowsInOrder(rest, metric);
      ChainedOrder(sorted, 0, 1);
      if |sorted| > 2 {
        ChainedOrder(sorted, 1, |sorted| - 1);
      }
      var tail, head := WindowsIn(rest, metric), WindowBetween(sorted[0], sorted[1], metric);
      InOrderWider(tail, SpanEnd(sorted[1].run), b, SpanStart(sorted[1].run));
      if head != [] {
        InOrderCons(head[0], tail, SpanEnd(sorted[0].run), b);
        assert head == [head[0]];
      } else {
        InOrderWider(tail, SpanStart(sorted[1].run), b, SpanEnd(sorted[0].run));
      }
    }
  }

  /** Keeping some of them keeps the order. */
  lemma {:induction false} KeepInOrder(windows: seq<Window>, keep: Window -> bool, a: real, b: real)
    requires InOrder(windows, a, b)
    ensures InOrder(KeepWindows(windows, keep), a, b)
  {
    if windows != [] {
      InOrderTail(windows, a, b);
      KeepInOrder(windows[1..], keep, windows[0].endMs, b);
      var rest := KeepWindows(windows[1..], keep);
      if keep(windows[0]) {
        InOrderCons(windows[0], rest, a, b);
      } else {
        InOrderWider(rest, windows[0].endMs, b, a);
      }
    }
  }

  lemma {:induction false} KeepKept(windows: seq<Window>, keep: Window -> bool, also: Window -> bool)
    ensures forall i :: 0 <= i < |KeepWindows(windows, keep)| ==> keep(KeepWindows(windows, keep)[i])
    ensures (forall i :: 0 <= i < |windows| ==> also(windows[i])) ==>
      forall i :: 0 <= i < |KeepWindows(windows, keep)| ==> also(KeepWindows(windows, keep)[i])
  {
    if windows != [] {
      KeepKept(windows[1..], keep, also);
      assert forall i :: 0 <= i < |windows[1..]| ==> windows[1..][i] == windows[i + 1];
    }
  }

  /** Disjoint windows, disjoint from every outage, cannot add up to more than the time
      we were running. */
  lemma {:induction false} WatchedBound(windows: seq<Window>, outages: seq<Outage>, a: real, b: real)
    requires a <= b && InOrder(windows, a, b) && OutagesApart(outages)
    requires forall i :: 0 <= i < |windows| ==> !SpansOwnOutage(outages, windows[i].startMs, windows[i].endMs)
    ensures SumLength(windows) + OwnOutageMs(outages, a, b) <= b - a
  {
    if windows == [] {
      OutageWithin(outages, a, b);
    } else {
      var w, rest := windows[0], windows[1..];
      InOrderTail(windows, a, b);
      assert forall i :: 0 <= i < |rest| ==> rest[i] == windows[i + 1];
      WatchedBound(rest, outages, w.endMs, b);
      OutageWithin(outages, a, w.startMs);
      NoOutageSpanned(outages, w.startMs, w.endMs);
      OutageAdds(outages, a, w.startMs, b);
      OutageAdds(outages, w.startMs, w.endMs, b);
    }
  }

  /** The windows counted since the change: in order, since it, clear of every outage. */
  lemma {:induction false} SinceIsClean(windows: seq<Window>, fromMs: real, outages: seq<Outage>, a: real, b: real)
    requires InOrder(windows, a, b)
    ensures
      var since := SinceIn(windows, fromMs, outages);
      && InOrder(since, a, b)
      && (forall i :: 0 <= i < |since| ==> since[i].startMs >= fromMs)
      && (forall i :: 0 <= i < |since| ==> !SpansOwnOutage(outages, since[i].startMs, since[i].endMs))
  {
    var clear := (w: Window) => !SpansOwnOutage(outages, w.startMs, w.endMs);
    var late := (w: Window) => w.startMs >= fromMs;
    KeepInOrder(windows, clear, a, b);
    KeepKept(windows, clear, clear);
    var watched := WatchedIn(windows, outages);
    KeepInOrder(watched, late, a, b);
    KeepKept(watched, late, clear);
    var since := SinceIn(windows, fromMs, outages);
    forall i | 0 <= i < |since| ensures late(since[i]) && clear(since[i]) {
    }
  }

  /** No early verdict: anything but incomplete is said only once the last reading's
      start, less the change moment, less the time we were not running in between, is at
      least the observe window. */
  lemma {:induction false} NoEarlyVerdict(readings: seq<Reading<Latency>>, metric: Metric, fromMs: real,
                                          observeDays: real, options: Options, ticks: seq<Stretch>)
    requires Chained(SortedRuns(readings)) && observeDays > 0.0
    requires options.ownOutages == OutagesBetween(ticks) && Apart(SortStretches(ticks))
    requires !Observe(readings, metric, fromMs, observeDays, options).verdict.Incomplete?
    ensures SortedRuns(readings) != []
    ensures
      var last := SpanStart(SortedRuns(readings)[|SortedRuns(readings)| - 1].run);
      last - fromMs - OwnOutageMs(options.ownOutages, fromMs, last) >= observeDays * DAY_MS
  {
    var sorted, windows := SortedRuns(readings), WindowsOf(readings, metric);
    var since := SinceIn(windows, fromMs, options.ownOutages);
    assert SumLength(since) >= observeDays * DAY_MS > 0.0;
    assert since != [];
    assert sorted != [];
    var last := SpanStart(sorted[|sorted| - 1].run);
    WindowsInOrder(sorted, metric);
    SinceIsClean(windows, fromMs, options.ownOutages, SpanEnd(sorted[0].run), last);
    OutagesAreApart(SortStretches(ticks));
    assert fromMs <= since[0].startMs <= since[0].endMs <= last;
    assert InOrder(since, fromMs, last);
    WatchedBound(since, options.ownOutages, fromMs, last);
  }

  // --- Can it finish -----------------------------------------------------------

  datatype ObservationFold = ObservationFold(hasHistory: bool, elapsedMs: real, drawableMs: real)

  function FoldObservation(readings: seq<Reading<Latency>>, metric: Metric): ObservationFold {
    var sorted := SortedRuns(readings);
    if sorted == [] then ObservationFold(false, 0.0, 0.0)
    else
      var elapsedMs := SpanEnd(sorted[|sorted| - 1].run) - SpanStart(sorted[0].run);
      ObservationFold(true, elapsedMs, SumLength(WindowsOf(readings, metric)))
  }

  predicate CanFinish(fold: ObservationFold, observeDays: real) {
    || !fold.hasHistory
    || fold.elapsedMs <= 0.0
    || (fold.drawableMs > 0.0
        && observeDays / (fold.drawableMs / fold.elapsedMs) <= observeDays * OBSERVE_WALLCLOCK_MULTIPLE)
  }

  /** The observe window cancels: for any positive one, the collection can finish exactly
      when the time that produced readings is at least a third of the time elapsed. */
  lemma {:induction false} CanFinishExactly(fold: ObservationFold, observeDays: real)
    requires observeDays > 0.0
    ensures CanFinish(fold, observeDays) <==>
      !fold.hasHistory || fold.elapsedMs <= 0.0 || fold.elapsedMs <= fold.drawableMs * OBSERVE_WALLCLOCK_MULTIPLE
  {
    if fold.hasHistory && fold.elapsedMs > 0.0 && fold.drawableMs > 0.0 {
      Cancels(observeDays, fold.drawableMs, fold.elapsedMs);
    }
  }

  lemma {:induction false} Cancels(days: real, drawable: real, elapsed: real)
    requires days > 0.0 && drawable > 0.0 && elapsed > 0.0
    ensures days / (drawable / elapsed) <= days * 3.0 <==> elapsed <= drawable * 3.0
  {
    var duty := drawable / elapsed;
    assert duty * elapsed == drawable;
    assert duty > 0.0;
    var wall := days / duty;
    assert wall * duty == days;
    assert wall * drawable == days * elapsed by {
      assert wall * (duty * elapsed) == (wall * duty) * elapsed;
    }
    if wall <= days * 3.0 {
      assert wall * drawable <= (days * 3.0) * drawable;
      assert days * elapsed <= days * (drawable * 3.0);
    }
    if elapsed <= drawable * 3.0 {
      assert days * elapsed <= days * (drawable * 3.0);
      assert wall * drawable <= (days * 3.0) * drawable;
    }
  }

  lemma {:induction false} KeepEvery(windows: seq<Window>, keep: Window -> bool)
    requires forall i :: 0 <= i < |windows| ==> keep(windows[i])
    ensures KeepWindows(windows, keep) == windows
  {
    if windows != [] {
      assert forall i :: 0 <= i < |windows[1..]| ==> windows[1..][i] == windows[i + 1];
      KeepEvery(windows[1..], keep);
    }
  }

  lemma {:induction false} AllSince(windows: seq<Window>, fromMs: real, a: real, b: real)
    requires InOrder(windows, a, b) && fromMs <= a
    ensures SinceIn(windows, fromMs, []) == windows
  {
    KeepEvery(windows, (w: Window) => !SpansOwnOutage([], w.startMs, w.endMs));
    KeepEvery(windows, (w: Window) => w.startMs >= fromMs);
  }

  /** The rule that lets a drop be proposed and the one that puts the index back agree: as long
      as what was read since the change keeps the share the proposal asked for, and we were
      running throughout, the window is complete by the time it could be outstayed. */
  lemma {:induction false} CompleteBeforeOutstayed(readings: seq<Reading<Latency>>, metric: Metric, observeDays: real,
                                                   options: Options)
    requires Chained(SortedRuns(readings)) && SortedRuns(readings) != [] && observeDays > 0.0
    requires options.ownOutages == [] && CanFinish(FoldObservation(readings, metric), observeDays)
    requires
      var sorted := SortedRuns(readings);
      OutstayedWindow(SpanStart(sorted[0].run), observeDays, SpanEnd(sorted[|sorted| - 1].run), 0.0)
    ensures
      var from := SpanStart(SortedRuns(readings)[0].run);
      !Observe(readings, metric, from, observeDays, options).verdict.Incomplete?
  {
    var sorted, fold := SortedRuns(readings), FoldObservation(readings, metric);
    CanFinishExactly(fold, observeDays);
    WindowsInOrder(sorted, metric);
    AllSince(WindowsOf(readings, metric), SpanStart(sorted[0].run), SpanEnd(sorted[0].run),
             SpanStart(sorted[|sorted| - 1].run));
    assert observeDays * OBSERVE_WALLCLOCK_MULTIPLE * DAY_MS == 3.0 * (observeDays * DAY_MS);
  }

  /** What was drawable never exceeds what elapsed. */
  lemma {:induction false} DrawableWithin(readings: seq<Reading<Latency>>, metric: Metric)
    requires Chained(SortedRuns(readings))
    ensures FoldObservation(readings, metric).drawableMs <= FoldObservation(readings, metric).elapsedMs
  {
    var sorted := SortedRuns(readings);
    if |sorted| > 1 {
      ChainedOrder(sorted, 0, |sorted| - 1);
      WindowsInOrder(sorted, metric);
      WatchedBound(WindowsOf(readings, metric), [], SpanEnd(sorted[0].run), SpanStart(sorted[|sorted| - 1].run));
    }
  }

  // --- What a restart costs ----------------------------------------------------

  /** The windows a reset ate. */
  function LostToResets(sorted: seq<Reading<Latency>>, metric: Metric): real {
    if |sorted| < 2 then 0.0
    else
      var lost := WindowBetween(sorted[0], sorted[1], metric) == [];
      (if lost then SpanStart(sorted[1].run) - SpanEnd(sorted[0].run) else 0.0) + LostToResets(sorted[1..], metric)
  }

  function WithinRuns(sorted: seq<Reading<Latency>>): real {
    if sorted == [] then 0.0 else SpanEnd(sorted[0].run) - SpanStart(sorted[0].run) + WithinRuns(sorted[1..])
  }

  lemma {:induction false} SumLengthAppend(a: seq<Window>, b: seq<Window>)
    ensures SumLength(a + b) == SumLength(a) + SumLength(b)
  {
    if a == [] {
      assert a + b == b;
    } else {
      assert (a + b)[1..] == a[1..] + b;
      SumLengthAppend(a[1..], b);
    }
  }

  /** Every moment elapsed was inside a run, in a drawable window, or in one of the
      windows a reset landed in: a restart costs its own window and nothing else. */
  lemma {:induction false} ElapsedAccounted(sorted: seq<Reading<Latency>>, metric: Metric)
    requires sorted != []
    ensures SpanEnd(sorted[|sorted| - 1].run) - SpanStart(sorted[0].run)
      == SumLength(WindowsIn(sorted, metric)) + LostToResets(sorted, metric) + WithinRuns(sorted)
  {
    if |sorted| == 1 {
      assert WithinRuns(sorted[1..]) == 0.0;
    } else {
      var rest, head := sorted[1..], WindowBetween(sorted[0], sorted[1], metric);
      ElapsedAccounted(rest, metric);
      SumLengthAppend(head, WindowsIn(rest, metric));
      assert head != [] ==> head[1..] == [];
      assert rest[|rest| - 1] == sorted[|sorted| - 1];
    }
  }

  lemma {:induction false} KeepAppend(a: seq<Window>, b: seq<Window>, keep: Window -> bool)
    ensures KeepWindows(a + b, keep) == KeepWindows(a, keep) + KeepWindows(b, keep)
  {
    if a == [] {
      assert a + b == b;
    } else {
      assert (a + b)[1..] == a[1..] + b;
      KeepAppend(a[1..], b, keep);
      Assoc(if keep(a[0]) then [a[0]] else [], KeepWindows(a[1..], keep), KeepWindows(b, keep));
    }
  }

  lemma {:induction false} WindowsAppend(sorted: seq<Reading<Latency>>, next: Reading<Latency>, metric: Metric)
    requires sorted != []
    ensures WindowsIn(sorted + [next], metric)
      == WindowsIn(sorted, metric) + WindowBetween(sorted[|sorted| - 1], next, metric)
  {
    var all := sorted + [next];
    if |sorted| == 1 {
      assert WindowsIn(all[1..], metric) == [];
    } else {
      var rest := sorted[1..];
      assert all[1..] == rest + [next];
      WindowsAppend(rest, next, metric);
      Assoc(WindowBetween(sorted[0], sorted[1], metric), WindowsIn(rest, metric),
            WindowBetween(sorted[|sorted| - 1], next, metric));
    }
  }

  lemma {:induction false} SinceAppend(a: seq<Window>, b: seq<Window>, fromMs: real, outages: seq<Outage>)
    ensures SinceIn(a + b, fromMs, outages) == SinceIn(a, fromMs, outages) + SinceIn(b, fromMs, outages)
  {
    KeepAppend(a, b, (w: Window) => !SpansOwnOutage(outages, w.startMs, w.endMs));
    KeepAppend(WatchedIn(a, outages), WatchedIn(b, outages), (w: Window) => w.startMs >= fromMs);
  }

  lemma {:induction false} MoreWatched(windows: seq<Window>, added: seq<Window>, fromMs: real, observeDays: real,
                                       options: Options)
    requires |added| <= 1 && (added != [] ==> added[0].startMs <= added[0].endMs)
    ensures ObserveIn(windows + added, fromMs, observeDays, options).observedMs
      >= ObserveIn(windows, fromMs, observeDays, options).observedMs
    ensures !ObserveIn(windows, fromMs, observeDays, options).verdict.Incomplete?
      ==> !ObserveIn(windows + added, fromMs, observeDays, options).verdict.Incomplete?
  {
    var outages := options.ownOutages;
    SinceAppend(windows, added, fromMs, outages);
    SumLengthAppend(SinceIn(windows, fromMs, outages), SinceIn(added, fromMs, outages));
    OneWindow(added, fromMs, outages);
  }

  /** A later reading never takes observation away: once the window has been watched, a
      restart or a quiet stretch afterwards leaves it watched. */
  lemma {:induction false} WatchedStaysWatched(readings: seq<Reading<Latency>>, next: Reading<Latency>,
                                               metric: Metric, fromMs: real, observeDays: real, options: Options)
    requires
      var sorted := SortedRuns(readings);
      sorted != [] && SpanEnd(sorted[|sorted| - 1].run) <= SpanStart(next.run)
    ensures Observe(readings + [next], metric, fromMs, observeDays, options).observedMs
      >= Observe(readings, metric, fromMs, observeDays, options).observedMs
    ensures !Observe(readings, metric, fromMs, observeDays, options).verdict.Incomplete?
      ==> !Observe(readings + [next], metric, fromMs, observeDays, options).verdict.Incomplete?
  {
    LaterWindow(readings, next, metric);
    var sorted := SortedRuns(readings);
    MoreWatched(WindowsOf(readings, metric), WindowBetween(sorted[|sorted| - 1], next, metric), fromMs, observeDays,
                options);
  }

  lemma {:induction false} LaterWindow(readings: seq<Reading<Latency>>, next: Reading<Latency>, metric: Metric)
    requires
      var sorted := SortedRuns(readings);
      sorted != [] && SpanEnd(sorted[|sorted| - 1].run) <= SpanStart(next.run)
    ensures
      var sorted := SortedRuns(readings);
      var added := WindowBetween(sorted[|sorted| - 1], next, metric);
      WindowsOf(readings + [next], metric) == WindowsOf(readings, metric) + added
  {
    var sorted, more := SortedRuns(readings), readings + [next];
    assert more[..|more| - 1] == readings;
    assert SortedRuns(more) == sorted + [next];
    WindowsAppend(sorted, next, metric);
  }

  lemma {:induction false} OneWindow(added: seq<Window>, fromMs: real, outages: seq<Outage>)
    requires |added| <= 1 && (added != [] ==> added[0].startMs <= added[0].endMs)
    ensures SumLength(SinceIn(added, fromMs, outages)) >= 0.0
  {
    if added != [] {
      var clear := (w: Window) => !SpansOwnOutage(outages, w.startMs, w.endMs);
      var late := (w: Window) => w.startMs >= fromMs;
      assert added[1..] == [];
      assert KeepWindows(added, clear) == if clear(added[0]) then [added[0]] else [];
      if clear(added[0]) {
        assert [added[0]][1..] == [];
        assert KeepWindows([added[0]], late) == if late(added[0]) then [added[0]] else [];
      }
    }
  }
}
