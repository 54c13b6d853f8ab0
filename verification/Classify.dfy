/** Counter epochs, the usage fold, and what it is trusted and taken to mean
    (apps/api/src/analysis/classify.ts). */
module Classify {
  import opened Engine
  import opened Runs
  import opened Usage

  const HOUR_MS := 3_600_000.0
  const BLIND_RECOVERY_DAYS := 30.0

  /** A stretch of history its counters can speak for continuously. */
  datatype Epoch = Epoch(startMs: real, endMs: real)

  // --- Counter epochs ----------------------------------------------------------

  /** From where reading began, or where the counters did if later; never past its end. */
  function Close(first: Facts, end: real): Epoch {
    var start := SpanStart(first.run);
    var begins := if first.startedAt.Some? && first.startedAt.value > start then first.startedAt.value else start;
    Epoch(if begins < end then begins else end, end)
  }

  /** Where the first restart behind position `i` is, or the length. */
  function NextRestart(facts: seq<Facts>, i: nat): (k: nat)
    requires 1 <= i <= |facts|
    ensures i <= k <= |facts|
    ensures forall j :: i <= j < k ==> !facts[j].restarted
    ensures k < |facts| ==> facts[k].restarted
    decreases |facts| - i
  {
    if i == |facts| || facts[i].restarted then i else NextRestart(facts, i + 1)
  }

  /** One epoch up to the first restart, then the epochs of the rest. */
  function CounterEpochs(facts: seq<Facts>): seq<Epoch> {
    if facts == [] then []
    else
      var k := NextRestart(facts, 1);
      [Close(facts[0], SpanEnd(facts[k - 1].run))] + CounterEpochs(facts[k..])
  }

  method CounterEpochsLoop(facts: seq<Facts>) returns (epochs: seq<Epoch>)
    ensures epochs == CounterEpochs(facts)
  {
    epochs := [];
    if facts == [] {
      return;
    }
    var first, end := 0, SpanEnd(facts[0].run);
    for i := 1 to |facts|
      invariant 0 <= first < i && end == SpanEnd(facts[i - 1].run)
      invariant forall j :: first < j < i ==> !facts[j].restarted
      invariant epochs + CounterEpochs(facts[first..]) == CounterEpochs(facts)
    {
      if facts[i].restarted {
        EpochAt(facts, first, i);
        epochs := epochs + [Close(facts[first], end)];
        first := i;
      }
      end := SpanEnd(facts[i].run);
    }
    EpochAt(facts, first, |facts|);
    epochs := epochs + [Close(facts[first], end)];
  }

  lemma {:induction false} NextRestartIs(facts: seq<Facts>, k: nat)
    requires 1 <= k <= |facts| && (forall j :: 1 <= j < k ==> !facts[j].restarted)
    requires k == |facts| || facts[k].restarted
    ensures NextRestart(facts, 1) == k
  {
  }

  lemma {:induction false} EpochAt(facts: seq<Facts>, first: nat, k: nat)
    requires first < k <= |facts| && (forall j :: first < j < k ==> !facts[j].restarted)
    requires k == |facts| || facts[k].restarted
    ensures CounterEpochs(facts[first..])
      == [Close(facts[first], SpanEnd(facts[k - 1].run))] + CounterEpochs(facts[k..])
  {
    var rest := facts[first..];
    NextRestartIs(rest, k - first);
    assert rest[k - first..] == facts[k..];
  }

  lemma {:induction false} EpochsUnfold(facts: seq<Facts>, k: nat)
    requires 1 <= k <= |facts| && (forall j :: 1 <= j < k ==> !facts[j].restarted)
    requires k == |facts| || facts[k].restarted
    ensures CounterEpochs(facts) == [Close(facts[0], SpanEnd(facts[k - 1].run))] + CounterEpochs(facts[k..])
  {
    NextRestartIs(facts, k);
  }

  lemma {:induction false} EpochsUnfoldBoth(a: seq<Facts>, b: seq<Facts>, k: nat)
    requires 1 <= k <= |a| && (forall j :: 1 <= j < k ==> !a[j].restarted)
    requires k == |a| || a[k].restarted
    requires b != [] ==> b[0].restarted
    ensures CounterEpochs(a + b) == [Close(a[0], SpanEnd(a[k - 1].run))] + CounterEpochs(a[k..] + b)
  {
    var all := a + b;
    assert all[k..] == a[k..] + b;
    EpochsUnfold(all, k);
  }

  lemma {:induction false} FactsSplit(a: seq<Facts>, b: seq<Facts>)
    requires b != [] ==> b[0].restarted
    ensures CounterEpochs(a + b) == CounterEpochs(a) + CounterEpochs(b)
    decreases |a|
  {
    if a == [] {
      assert a + b == b;
    } else {
      var k := NextRestart(a, 1);
      EpochsUnfold(a, k);
      EpochsUnfoldBoth(a, b, k);
      FactsSplit(a[k..], b);
      Assoc([Close(a[0], SpanEnd(a[k - 1].run))], CounterEpochs(a[k..]), CounterEpochs(b));
    }
  }

  /** What the first row moved, and whether it restarted, is nothing to the epochs. */
  lemma {:induction false} FirstRowAside(x: seq<Facts>, y: seq<Facts>)
    requires |x| == |y| && (x != [] ==> x[0].run == y[0].run && x[0].startedAt == y[0].startedAt && x[1..] == y[1..])
    ensures CounterEpochs(x) == CounterEpochs(y)
  {
    if x != [] {
      assert forall j :: 1 <= j < |x| ==> x[j] == x[1..][j - 1] == y[1..][j - 1] == y[j];
      var k := NextRestart(x, 1);
      NextRestartIs(y, k);
      assert x[k..] == y[k..];
    }
  }

  /** A row's facts ask no further back than the row before it. */
  lemma {:induction false} FactsOfParts(a: seq<Snapshot>, b: seq<Snapshot>)
    requires a != []
    ensures
      var all, alone := AllFacts(a + b), AllFacts(b);
      && all == AllFacts(a) + all[|a|..] && |all[|a|..]| == |b|
      && (forall j :: 1 <= j < |b| ==> all[|a|..][j] == alone[j])
      && (b != [] ==> all[|a|..][0] == FactsOf(Some(a[|a| - 1]), b[0]))
  {
    var rows := a + b;
    assert forall i :: 0 <= i < |a| ==> rows[i] == a[i];
    assert forall j :: 0 <= j < |b| ==> rows[|a| + j] == b[j];
    assert AllFacts(rows)[..|a|] == AllFacts(a);
  }

  /** Splitting a history at a restart splits its epochs there: each part gives the epochs it
      would give on its own. */
  lemma {:induction false} EpochsSplit(a: seq<Snapshot>, b: seq<Snapshot>)
    requires a != [] && b != [] ==> RestartedSince(a[|a| - 1], b[0])
    ensures CounterEpochs(AllFacts(a + b)) == CounterEpochs(AllFacts(a)) + CounterEpochs(AllFacts(b))
  {
    if a == [] {
      assert a + b == b;
    } else {
      FactsOfParts(a, b);
      var tail := AllFacts(a + b)[|a|..];
      FactsSplit(AllFacts(a), tail);
      assert b != [] ==> tail[1..] == AllFacts(b)[1..];
      FirstRowAside(tail, AllFacts(b));
    }
  }

  predicate FactsChained(facts: seq<Facts>) {
    forall i :: 0 <= i < |facts| - 1 ==> SpanEnd(facts[i].run) <= SpanStart(facts[i + 1].run)
  }

  lemma {:induction false} FactsOrder(facts: seq<Facts>, i: nat, j: nat)
    requires FactsChained(facts) && i < j < |facts|
    ensures SpanEnd(facts[i].run) <= SpanStart(facts[j].run)
    decreases j
  {
    if i + 1 < j {
      FactsOrder(facts, i, j - 1);
    }
  }

  lemma {:induction false} ChainedTail(facts: seq<Facts>, k: nat)
    requires FactsChained(facts) && k <= |facts|
    ensures FactsChained(facts[k..])
  {
    var rest := facts[k..];
    forall i | 0 <= i < |rest| - 1 ensures SpanEnd(rest[i].run) <= SpanStart(rest[i + 1].run) {
      assert rest[i] == facts[k + i] && rest[i + 1] == facts[k + i + 1];
    }
  }

  function SumEpochs(epochs: seq<Epoch>): real {
    if epochs == [] then 0.0 else epochs[0].endMs - epochs[0].startMs + SumEpochs(epochs[1..])
  }

  predicate EpochsWithin(epochs: seq<Epoch>, from: real, to: real) {
    && (forall i :: 0 <= i < |epochs| ==> from <= epochs[i].startMs <= epochs[i].endMs <= to)
    && (forall i, j :: 0 <= i < j < |epochs| ==> epochs[i].endMs <= epochs[j].startMs)
  }

  /** Epochs are ordered and disjoint, within the history, and the trusted watch they add
      up to never exceeds it. */
  lemma {:induction false} EpochsAccountForTime(facts: seq<Facts>)
    requires FactsChained(facts) && facts != []
    ensures
      var from, to := SpanStart(facts[0].run), SpanEnd(facts[|facts| - 1].run);
      EpochsWithin(CounterEpochs(facts), from, to) && 0.0 <= SumEpochs(CounterEpochs(facts)) <= to - from
    decreases |facts|
  {
    var k := NextRestart(facts, 1);
    var head := Close(facts[0], SpanEnd(facts[k - 1].run));
    if k > 1 {
      FactsOrder(facts, 0, k - 1);
    }
    if k < |facts| {
      var rest := facts[k..];
      ChainedTail(facts, k);
      EpochsAccountForTime(rest);
      FactsOrder(facts, k - 1, k);
      EpochsCons(head, CounterEpochs(rest), SpanStart(facts[0].run), SpanStart(facts[k].run),
                 SpanEnd(facts[|facts| - 1].run));
    } else {
      assert facts[k..] == [];
      EpochsCons(head, [], SpanStart(facts[0].run), head.endMs, head.endMs);
    }
  }

  lemma {:induction false} EpochsCons(head: Epoch, rest: seq<Epoch>, from: real, mid: real, to: real)
    requires from <= head.startMs <= head.endMs <= mid <= to && EpochsWithin(rest, mid, to)
    requires 0.0 <= SumEpochs(rest) <= to - mid
    ensures EpochsWithin([head] + rest, from, to)
    ensures 0.0 <= SumEpochs([head] + rest) <= to - from
  {
    assert ([head] + rest)[1..] == rest;
    var all := [head] + rest;
    forall i | 0 <= i < |all| ensures from <= all[i].startMs <= all[i].endMs <= to {
      assert i > 0 ==> all[i] == rest[i - 1];
    }
    forall i, j | 0 <= i < j < |all| ensures all[i].endMs <= all[j].startMs {
      assert all[j] == rest[j - 1];
      assert i > 0 ==> all[i] == rest[i - 1];
    }
  }

  // --- The fold ----------------------------------------------------------------

  datatype BlindWindow = BlindWindow(startMs: real, endMs: real)

  /** What of the hole between two rows went unrecorded. */
  function BlindBetween(previous: Facts, next: Facts): Option<BlindWindow> {
    var from, until := SpanEnd(previous.run), SpanStart(next.run);
    if until <= from then None
    else if next.startedAt.Some? && next.startedAt.value > from then
      Some(BlindWindow(from, if until < next.startedAt.value then until else next.startedAt.value))
    else if next.startedAt.None? || next.restarted then Some(BlindWindow(from, until))
    else None
  }

  function Keep(window: Option<BlindWindow>, minBlindMs: real): seq<BlindWindow> {
    if window.Some? && window.value.endMs - window.value.startMs > minBlindMs then [window.value] else []
  }

  function BlindWindows(facts: seq<Facts>, minBlindMs: real): seq<BlindWindow> {
    if |facts| < 2 then []
    else Keep(BlindBetween(facts[0], facts[1]), minBlindMs) + BlindWindows(facts[1..], minBlindMs)
  }

  function WorstInterior(facts: seq<Facts>): real {
    if facts == [] then 0.0
    else
      var before, gap := WorstInterior(facts[..|facts| - 1]), InteriorGap(facts[|facts| - 1].run);
      if gap > before then gap else before
  }

  function ActiveLooks(series: seq<UsagePoint>): nat {
    if series == [] then 0
    else
      var last := series[|series| - 1];
      ActiveLooks(series[..|series| - 1]) + if last.value <= 0 then 0 else ObservationsOf(last.run)
  }

  function LatestActivity(series: seq<UsagePoint>): Option<real> {
    if series == [] then None
    else
      var before, last := LatestActivity(series[..|series| - 1]), series[|series| - 1];
      if last.value > 0 && (before.None? || SpanEnd(last.run) > before.value) then Some(SpanEnd(last.run)) else before
  }

  function NewestEnd(facts: seq<Facts>): Option<real> {
    if facts == [] then None
    else
      var before, end := NewestEnd(facts[..|facts| - 1]), SpanEnd(facts[|facts| - 1].run);
      if before.None? || end > before.value then Some(end) else before
  }

  datatype UsageFold = UsageFold(
    runs: nat,
    observations: nat,
    activeRuns: nat,
    trustedWatchMs: real,
    newestEndMs: Option<real>,
    latestActivityMs: Option<real>,
    maxInteriorGapMs: real,
    blindWindows: seq<BlindWindow>)

  function FoldFacts(facts: seq<Facts>, minBlindMs: real): UsageFold {
    var series := SeriesOf(facts);
    UsageFold(|facts|, TotalObservations(series), ActiveLooks(series), SumEpochs(CounterEpochs(facts)),
              NewestEnd(facts), LatestActivity(series), WorstInterior(facts), BlindWindows(facts, minBlindMs))
  }

  function FoldUsage(history: seq<Snapshot>, minBlindMs: real): UsageFold {
    FoldFacts(AllFacts(SortedRuns(history)), minBlindMs)
  }

  /** The two loops of the fold: holes and blind windows over the rows, activity over
      the series. */
  method FoldUsageLoop(history: seq<Snapshot>, minBlindMs: real) returns (fold: UsageFold)
    ensures fold == FoldUsage(history, minBlindMs)
  {
    var facts := AllFacts(SortedRuns(history));
    var series := UsageSeriesLoop(history);
    var worst, blind, newest := RowsLoop(facts, minBlindMs);
    var activeRuns: nat, latest: Option<real> := 0, None;
    for i := 0 to |series|
      invariant activeRuns == ActiveLooks(series[..i]) && latest == LatestActivity(series[..i])
    {
      assert series[..i + 1][..i] == series[..i];
      var point := series[i];
      if point.value > 0 {
        activeRuns := activeRuns + ObservationsOf(point.run);
        if latest.None? || SpanEnd(point.run) > latest.value {
          latest := Some(SpanEnd(point.run));
        }
      }
    }
    assert series[..|series|] == series;
    var epochs := CounterEpochsLoop(facts);
    fold := UsageFold(|facts|, TotalObservations(series), activeRuns, SumEpochs(epochs), newest, latest, worst, blind);
  }

  method RowsLoop(facts: seq<Facts>, minBlindMs: real)
    returns (worst: real, blind: seq<BlindWindow>, newest: Option<real>)
    ensures worst == WorstInterior(facts) && blind == BlindWindows(facts, minBlindMs) && newest == NewestEnd(facts)
  {
    worst, blind, newest := 0.0, [], None;
    for i := 0 to |facts|
      invariant worst == WorstInterior(facts[..i]) && newest == NewestEnd(facts[..i])
      invariant blind + BlindWindows(facts[i..], minBlindMs) == BlindWindows(facts, minBlindMs)
    {
      assert facts[..i + 1][..i] == facts[..i];
      assert facts[i..][1..] == facts[i + 1..];
      if InteriorGap(facts[i].run) > worst {
        worst := InteriorGap(facts[i].run);
      }
      if newest.None? || SpanEnd(facts[i].run) > newest.value {
        newest := Some(SpanEnd(facts[i].run));
      }
      if i + 1 < |facts| {
        Assoc(blind, Keep(BlindBetween(facts[i], facts[i + 1]), minBlindMs), BlindWindows(facts[i + 1..], minBlindMs));
        blind := blind + Keep(BlindBetween(facts[i], facts[i + 1]), minBlindMs);
      }
    }
    assert facts[..|facts|] == facts;
  }

  /** The stored columns refine the raw counters: on every window of the history, read oldest
      first, and wherever the columns begin, the whole fold is the same. */
  lemma {:induction false} ColumnsInOrder(rows: seq<Snapshot>, cut: nat, from: nat, minBlindMs: real)
    requires from <= |rows| && StartsAscend(rows)
    requires forall i :: 0 <= i < |rows| ==> Raw(rows[i])
    ensures FoldUsage(Projected(rows, cut)[from..], minBlindMs) == FoldUsage(rows[from..], minBlindMs)
  {
    var columns, raw := Projected(rows, cut)[from..], rows[from..];
    assert forall i :: 0 <= i < |raw| ==> columns[i].run == raw[i].run == rows[from + i].run;
    SortedAlready(raw);
    SortedAlready(columns);
    ColumnsRefineCounters(rows, cut, from);
  }

  /** In whatever order the two are read back: the columns of a window of the history fold as
      its raw counters do. */
  lemma {:induction false} FoldColumnsRefineCounters(rows: seq<Snapshot>, cut: nat, from: nat, columns: seq<Snapshot>,
                                                     raw: seq<Snapshot>, minBlindMs: real)
    requires from <= |rows| && StartsRise(rows)
    requires forall i :: 0 <= i < |rows| ==> Raw(rows[i])
    requires multiset(columns) == multiset(Projected(rows, cut)[from..])
    requires multiset(raw) == multiset(rows[from..])
    ensures FoldUsage(columns, minBlindMs) == FoldUsage(raw, minBlindMs)
  {
    var stored, kept := Projected(rows, cut)[from..], rows[from..];
    assert forall i :: 0 <= i < |kept| ==> stored[i].run == kept[i].run == rows[from + i].run;
    SortedIs(columns, stored);
    SortedIs(raw, kept);
    ColumnsRefineCounters(rows, cut, from);
  }

  // --- Trust -------------------------------------------------------------------

  datatype ClassifyOptions = ClassifyOptions(
    recentHours: real, minHistory: nat, minHistoryDays: real, minActiveHours: real, maxGapHours: real)

  datatype Refusal =
    | NoHistory
    | TooFewCollects
    | SpanTooShort
    | CollectionIdle
    | GapInsideRun
    | GapBetweenRuns
    | HistoryStale

  predicate Unrecovered(w: BlindWindow, maxGap: real, now: real) {
    w.endMs - w.startMs > maxGap && w.endMs > now - BLIND_RECOVERY_DAYS * 24.0 * HOUR_MS
  }

  predicate AnyUnrecovered(windows: seq<BlindWindow>, maxGap: real, now: real) {
    exists i :: 0 <= i < |windows| && Unrecovered(windows[i], maxGap, now)
  }

  function UsageTrustRefusal(fold: UsageFold, options: ClassifyOptions, now: real, activeHours: Option<real>)
    : Option<Refusal> {
    var maxGap := options.maxGapHours * HOUR_MS;
    if fold.observations < options.minHistory then Some(TooFewCollects)
    else if fold.runs == 0 then Some(NoHistory)
    else if fold.trustedWatchMs < options.minHistoryDays * 24.0 * HOUR_MS then Some(SpanTooShort)
    else if activeHours.Some? && activeHours.value < options.minActiveHours then Some(CollectionIdle)
    else if fold.maxInteriorGapMs > maxGap then Some(GapInsideRun)
    else if AnyUnrecovered(fold.blindWindows, maxGap, now) then Some(GapBetweenRuns)
    else if fold.newestEndMs.Some? && now - fold.newestEndMs.value > maxGap then Some(HistoryStale)
    else None
  }

  lemma {:induction false} AnyConcat(a: seq<BlindWindow>, b: seq<BlindWindow>, maxGap: real, now: real)
    ensures AnyUnrecovered(a + b, maxGap, now) <==> AnyUnrecovered(a, maxGap, now) || AnyUnrecovered(b, maxGap, now)
  {
    var all := a + b;
    if i :| 0 <= i < |a| && Unrecovered(a[i], maxGap, now) {
      assert all[i] == a[i];
    }
    if i :| 0 <= i < |b| && Unrecovered(b[i], maxGap, now) {
      assert all[|a| + i] == b[i];
    }
  }

  lemma {:induction false} FilteringKeepsLong(facts: seq<Facts>, a: real, b: real, maxGap: real, now: real)
    requires a <= maxGap && b <= maxGap
    ensures AnyUnrecovered(BlindWindows(facts, a), maxGap, now) <==> AnyUnrecovered(BlindWindows(facts, b), maxGap, now)
  {
    if |facts| >= 2 {
      var window := BlindBetween(facts[0], facts[1]);
      FilteringKeepsLong(facts[1..], a, b, maxGap, now);
      AnyConcat(Keep(window, a), BlindWindows(facts[1..], a), maxGap, now);
      AnyConcat(Keep(window, b), BlindWindows(facts[1..], b), maxGap, now);
      KeepsLong(window, a, b, maxGap, now);
    }
  }

  lemma {:induction false} KeepsLong(window: Option<BlindWindow>, a: real, b: real, maxGap: real, now: real)
    requires a <= maxGap && b <= maxGap
    ensures AnyUnrecovered(Keep(window, a), maxGap, now) <==> AnyUnrecovered(Keep(window, b), maxGap, now)
  {
    if window.Some? && Unrecovered(window.value, maxGap, now) {
      assert Keep(window, a)[0] == window.value && Keep(window, b)[0] == window.value;
    }
  }

  /** Only which blind windows are long and recent matters to the verdict. */
  lemma {:induction false} RefusalDepends(x: UsageFold, y: UsageFold, options: ClassifyOptions, now: real,
                                          activeHours: Option<real>)
    requires x.(blindWindows := y.blindWindows) == y
    requires AnyUnrecovered(x.blindWindows, options.maxGapHours * HOUR_MS, now)
      <==> AnyUnrecovered(y.blindWindows, options.maxGapHours * HOUR_MS, now)
    ensures UsageTrustRefusal(x, options, now, activeHours) == UsageTrustRefusal(y, options, now, activeHours)
  {
  }

  /** Dropping blind windows up to any length within the tolerance changes no verdict. */
  lemma {:induction false} PrefilterIsHarmless(history: seq<Snapshot>, a: real, b: real, options: ClassifyOptions,
                                               now: real, activeHours: Option<real>)
    requires a <= options.maxGapHours * HOUR_MS && b <= options.maxGapHours * HOUR_MS
    ensures UsageTrustRefusal(FoldUsage(history, a), options, now, activeHours)
      == UsageTrustRefusal(FoldUsage(history, b), options, now, activeHours)
  {
    FilteringKeepsLong(AllFacts(SortedRuns(history)), a, b, options.maxGapHours * HOUR_MS, now);
    RefusalDepends(FoldUsage(history, a), FoldUsage(history, b), options, now, activeHours);
  }

  // --- Classes -----------------------------------------------------------------

  datatype UsageClass = FlatZero | Continuous | PeriodicAlive | PeriodicDead

  function ClassifyUsageFrom(fold: UsageFold, options: ClassifyOptions): UsageClass {
    if fold.observations < options.minHistory then FlatZero
    else if fold.activeRuns == 0 then FlatZero
    else if fold.activeRuns == fold.observations then Continuous
    else if fold.newestEndMs.Some? && fold.latestActivityMs.Some?
         && fold.latestActivityMs.value >= fold.newestEndMs.value - options.recentHours * HOUR_MS then PeriodicAlive
    else PeriodicDead
  }

  /** How many rows moved. */
  function Movers(facts: seq<Facts>): nat {
    if facts == [] then 0 else Movers(facts[..|facts| - 1]) + if facts[|facts| - 1].ops > 0 then 1 else 0
  }

  /** When the newest row that moved began. */
  function NewestMove(facts: seq<Facts>): Option<real> {
    if facts == [] then None
    else
      var before, last := NewestMove(facts[..|facts| - 1]), facts[|facts| - 1];
      if last.ops > 0 && (before.None? || SpanStart(last.run) > before.value) then Some(SpanStart(last.run)) else before
  }

  lemma {:induction false} LooksConcat(a: seq<UsagePoint>, b: seq<UsagePoint>)
    ensures ActiveLooks(a + b) == ActiveLooks(a) + ActiveLooks(b)
    decreases |b|
  {
    if b == [] {
      assert a + b == a;
    } else {
      assert (a + b)[..|a + b| - 1] == a + b[..|b| - 1];
      LooksConcat(a, b[..|b| - 1]);
    }
  }

  lemma {:induction false} LooksOne(p: UsagePoint)
    ensures ActiveLooks([p]) == if p.value <= 0 then 0 else ObservationsOf(p.run)
  {
    assert [p][..0] == [];
  }

  lemma {:induction false} PointsLooks(f: Facts)
    ensures ActiveLooks(PointsOf(f)) == if f.ops > 0 then 1 else 0
  {
    var points := PointsOf(f);
    LooksOne(points[0]);
    if |points| == 2 {
      LooksOne(points[1]);
      LooksConcat([points[0]], [points[1]]);
      assert points == [points[0]] + [points[1]];
    } else {
      assert points == [points[0]];
    }
  }

  /** A row that moved is credited exactly one active look. */
  lemma {:induction false} LooksAreMovers(facts: seq<Facts>)
    ensures ActiveLooks(SeriesOf(facts)) == Movers(facts)
  {
    if facts != [] {
      var short, last := facts[..|facts| - 1], facts[|facts| - 1];
      LooksAreMovers(short);
      PointsLooks(last);
      LooksConcat(SeriesOf(short), PointsOf(last));
    }
  }

  lemma {:induction false} LatestOfPoints(before: seq<UsagePoint>, f: Facts)
    ensures LatestActivity(before + PointsOf(f)) ==
      var was := LatestActivity(before);
      if f.ops > 0 && (was.None? || SpanStart(f.run) > was.value) then Some(SpanStart(f.run)) else was
  {
    var points := PointsOf(f);
    assert (before + points)[..|before + points| - 1] == before + points[..|points| - 1];
    if |points| == 2 {
      assert points[..1] == [points[0]];
      assert (before + [points[0]])[..|before|] == before;
    } else {
      assert points[..0] == [];
      assert before + [] == before;
    }
  }

  lemma {:induction false} LatestIsNewestMove(facts: seq<Facts>)
    ensures LatestActivity(SeriesOf(facts)) == NewestMove(facts)
  {
    if facts != [] {
      LatestIsNewestMove(facts[..|facts| - 1]);
      LatestOfPoints(SeriesOf(facts[..|facts| - 1]), facts[|facts| - 1]);
    }
  }

  lemma {:induction false} MoversMeaning(facts: seq<Facts>)
    requires forall i :: 0 <= i < |facts| ==> facts[i].ops >= 0
    ensures Movers(facts) == 0 <==> forall i :: 0 <= i < |facts| ==> facts[i].ops == 0
    ensures Movers(facts) <= |facts| <= ObservationsIn(facts)
    ensures Movers(facts) == ObservationsIn(facts) <==> EveryLookMoved(facts)
  {
    if facts != [] {
      var short := facts[..|facts| - 1];
      MoversMeaning(short);
      assert facts == short + [facts[|facts| - 1]];
    }
  }

  lemma {:induction false} NewestMoveMeaning(facts: seq<Facts>, cutoff: real)
    ensures NewestMove(facts).Some? && NewestMove(facts).value >= cutoff <==> MovedSince(facts, cutoff)
  {
    if facts != [] {
      var n := |facts| - 1;
      var short := facts[..n];
      NewestMoveMeaning(short, cutoff);
      if i :| 0 <= i < |facts| && facts[i].ops > 0 && SpanStart(facts[i].run) >= cutoff {
        assert i < n ==> short[i] == facts[i];
      }
      if i :| 0 <= i < n && short[i].ops > 0 && SpanStart(short[i].run) >= cutoff {
        assert facts[i] == short[i];
      }
    }
  }

  function VerdictOf(history: seq<Snapshot>, options: ClassifyOptions): UsageClass {
    ClassifyUsageFrom(FoldUsage(history, 0.0), options)
  }

  predicate EveryLookMoved(facts: seq<Facts>) {
    forall i :: 0 <= i < |facts| ==> facts[i].ops > 0 && ObservationsOf(facts[i].run) == 1
  }

  predicate MovedSince(facts: seq<Facts>, cutoff: real) {
    exists i :: 0 <= i < |facts| && facts[i].ops > 0 && SpanStart(facts[i].run) >= cutoff
  }

  lemma {:induction false} VerdictOnFacts(facts: seq<Facts>, options: ClassifyOptions)
    requires forall i :: 0 <= i < |facts| ==> facts[i].ops >= 0
    requires ObservationsIn(facts) >= options.minHistory
    ensures
      var verdict := ClassifyUsageFrom(FoldFacts(facts, 0.0), options);
      && (verdict.FlatZero? <==> Movers(facts) == 0)
      && (verdict.Continuous? <==> facts != [] && EveryLookMoved(facts))
      && (verdict.PeriodicAlive? <==>
            && facts != [] && Movers(facts) != 0 && !EveryLookMoved(facts)
            && MovedSince(facts, NewestEnd(facts).value - options.recentHours * HOUR_MS))
  {
    SeriesTotal(facts);
    LooksAreMovers(facts);
    LatestIsNewestMove(facts);
    MoversMeaning(facts);
    if facts != [] {
      NewestMoveMeaning(facts, NewestEnd(facts).value - options.recentHours * HOUR_MS);
    }
  }

  /** Every member counter of every row is zero. */
  predicate Silent(rows: seq<Snapshot>) {
    forall i :: 0 <= i < |rows| ==> AllZero(rows[i])
  }

  lemma {:induction false} MoversOfRows(rows: seq<Snapshot>)
    requires forall i :: 0 <= i < |rows| ==> Raw(rows[i]) && NonNegative(rows[i])
    ensures forall i :: 0 <= i < |AllFacts(rows)| ==> AllFacts(rows)[i].ops >= 0
    ensures Movers(AllFacts(rows)) == 0 <==> Silent(rows)
  {
    var facts := AllFacts(rows);
    forall i | 0 <= i < |facts| ensures facts[i].ops >= 0 {
      OpsNonNegative(rows, i);
    }
    MoversMeaning(facts);
    QuietIsZero(rows, |rows|);
  }

  /** Silence is the same in any order. */
  lemma {:induction false} SilentSorted(history: seq<Snapshot>)
    requires forall i :: 0 <= i < |history| ==> Raw(history[i]) && NonNegative(history[i])
    ensures
      var rows := SortedRuns(history);
      && (Silent(rows) <==> Silent(history)) && (rows == [] <==> history == [])
      && forall i :: 0 <= i < |rows| ==> Raw(rows[i]) && NonNegative(rows[i])
  {
    var rows := SortedRuns(history);
    SortedRunsPermutes(history);
    SortedRunsAscends(history);
    forall i | 0 <= i < |rows| ensures rows[i] in history {
      assert rows[i] in multiset(rows);
    }
    forall i | 0 <= i < |history| ensures history[i] in rows {
      assert history[i] in multiset(history);
    }
  }

  /** What each class says of a history of raw counters past the floor, in whatever order it is
      given: flat zero means every member counter of every retained row is zero; continuous,
      that every row is a single look that moved; alive, that some row moved since the
      cutoff. */
  lemma {:induction false} ClassMeaning(history: seq<Snapshot>, options: ClassifyOptions)
    requires forall i :: 0 <= i < |history| ==> Raw(history[i]) && NonNegative(history[i])
    requires ObservationsIn(AllFacts(SortedRuns(history))) >= options.minHistory
    ensures
      var verdict, facts := VerdictOf(history, options), AllFacts(SortedRuns(history));
      && (verdict.FlatZero? <==> Silent(history))
      && (verdict.Continuous? <==> history != [] && EveryLookMoved(facts))
      && (verdict.PeriodicAlive? <==>
            && history != [] && !Silent(history) && !EveryLookMoved(facts)
            && MovedSince(facts, NewestEnd(facts).value - options.recentHours * HOUR_MS))
  {
    SilentSorted(history);
    MoversOfRows(SortedRuns(history));
    VerdictOnFacts(AllFacts(SortedRuns(history)), options);
  }
}
