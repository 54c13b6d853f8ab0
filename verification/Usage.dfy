/** Turning stored counters into activity (apps/api/src/analysis/usage.ts). Counters are
    cumulative and per member; what happened is the difference between two readings. */
module Usage {
  import opened Engine
  import opened Runs

  datatype MemberUsage = MemberUsage(member: string, ops: int, since: Option<real>)

  /** What a row carries: the members' counters, or the columns computed from them. */
  datatype Counters = Counters(
    perMember: seq<MemberUsage>,
    opsDelta: Option<int>,
    opsTotal: Option<int>,
    countersRestarted: Option<bool>,
    countersStartedAt: Option<real>)

  type Snapshot = Reading<Counters>

  type Members = map<string, MemberUsage>

  /** By member name, the last entry for a name winning. */
  function ByName(members: seq<MemberUsage>): Members {
    if members == [] then map[]
    else ByName(members[..|members| - 1])[members[|members| - 1].member := members[|members| - 1]]
  }

  /** One member's contribution: the difference, or the whole counter where it restarted
      or was not there before. */
  function MemberActivity(previous: Members, m: MemberUsage): int {
    if m.member !in previous || previous[m.member].since != m.since || m.ops < previous[m.member].ops
    then (if m.ops < 0 then 0 else m.ops)
    else m.ops - previous[m.member].ops
  }

  function ActivityBetween(previous: Members, current: seq<MemberUsage>): int {
    if current == [] then 0
    else ActivityBetween(previous, current[..|current| - 1]) + MemberActivity(previous, current[|current| - 1])
  }

  function ActivityInFull(current: seq<MemberUsage>): int {
    if current == [] then 0
    else
      var ops := current[|current| - 1].ops;
      ActivityInFull(current[..|current| - 1]) + if ops < 0 then 0 else ops
  }

  method ActivityLoop(previous: Members, current: seq<MemberUsage>) returns (total: int)
    ensures total == ActivityBetween(previous, current)
  {
    total := 0;
    for i := 0 to |current|
      invariant total == ActivityBetween(previous, current[..i])
    {
      assert current[..i + 1][..i] == current[..i];
      total := total + MemberActivity(previous, current[i]);
    }
    assert current[..|current|] == current;
  }

  /** With nothing to difference against, the two readings of a row agree. */
  lemma {:induction false} FullIsBetweenNothing(current: seq<MemberUsage>)
    ensures ActivityBetween(map[], current) == ActivityInFull(current)
  {
    if current != [] {
      FullIsBetweenNothing(current[..|current| - 1]);
    }
  }

  predicate MemberRestarted(previous: Members, m: MemberUsage) {
    && m.member in previous
    && var before := previous[m.member];
    (m.ops < before.ops || (before.since.Some? && m.since.Some? && m.since.value > before.since.value))
  }

  predicate CountersRestartedBetween(previous: Members, current: seq<MemberUsage>) {
    exists i :: 0 <= i < |current| && MemberRestarted(previous, current[i])
  }

  method RestartedLoop(previous: Members, current: seq<MemberUsage>) returns (restarted: bool)
    ensures restarted == CountersRestartedBetween(previous, current)
  {
    for i := 0 to |current|
      invariant forall k :: 0 <= k < i ==> !MemberRestarted(previous, current[k])
    {
      if current[i].member in previous {
        var before, now := previous[current[i].member], current[i];
        if now.ops < before.ops {
          return true;
        }
        if before.since.Some? && now.since.Some? && now.since.value > before.since.value {
          return true;
        }
      }
    }
    return false;
  }

  /** The latest instant any member claims its counter began. */
  function LatestCounterStart(current: seq<MemberUsage>): (latest: Option<real>)
    ensures latest.Some? <==> exists i :: 0 <= i < |current| && current[i].since.Some?
    ensures latest.Some? ==>
      forall i :: 0 <= i < |current| && current[i].since.Some? ==> current[i].since.value <= latest.value
    ensures latest.Some? ==> exists i :: 0 <= i < |current| && current[i].since == latest
  {
    if current == [] then None
    else
      var before, last := LatestCounterStart(current[..|current| - 1]), current[|current| - 1];
      if last.since.Some? && (before.None? || last.since.value > before.value) then last.since else before
  }

  // --- Facts -------------------------------------------------------------------

  /** All the analysis asks of a row: its run, the activity across it, whether its
      counters restarted since the row before, and when they began. */
  datatype Facts = Facts(run: Run, ops: int, restarted: bool, startedAt: Option<real>)

  function OpsOf(previous: Option<Snapshot>, current: Snapshot): int {
    match previous
    case None =>
      if current.value.opsTotal.Some? then current.value.opsTotal.value
      else ActivityBetween(map[], current.value.perMember)
    case Some(p) =>
      if current.value.opsDelta.Some? then current.value.opsDelta.value
      else ActivityBetween(ByName(p.value.perMember), current.value.perMember)
  }

  predicate RestartedSince(previous: Snapshot, current: Snapshot) {
    if current.value.countersRestarted.Some? then current.value.countersRestarted.value
    else CountersRestartedBetween(ByName(previous.value.perMember), current.value.perMember)
  }

  function StartedAt(row: Snapshot): Option<real> {
    if row.value.countersStartedAt.Some? then row.value.countersStartedAt
    else LatestCounterStart(row.value.perMember)
  }

  function FactsOf(previous: Option<Snapshot>, current: Snapshot): Facts {
    var restarted := previous.Some? && RestartedSince(previous.value, current);
    Facts(current.run, OpsOf(previous, current), restarted, StartedAt(current))
  }

  function Before(rows: seq<Snapshot>, i: nat): Option<Snapshot>
    requires i < |rows|
  {
    if i == 0 then None else Some(rows[i - 1])
  }

  /** A window of history, oldest first. Its first row has no predecessor the window can
      see, so it is read in full. */
  function AllFacts(rows: seq<Snapshot>): (facts: seq<Facts>)
    ensures |facts| == |rows|
  {
    seq(|rows|, i requires 0 <= i < |rows| => FactsOf(Before(rows, i), rows[i]))
  }

  // --- The activity series -----------------------------------------------------

  type UsagePoint = Reading<int>

  function GapOr0(run: Run): Option<real> {
    Some(if run.maxGapMs.None? then 0.0 else run.maxGapMs.value)
  }

  /** A row that moved is one active instant and then silence; one that did not is
      silence throughout. */
  function PointsFor(run: Run, ops: int): seq<UsagePoint> {
    var n, start, end := ObservationsOf(run), SpanStart(run), SpanEnd(run);
    if ops == 0 then [Reading(Run(start, Some(end), Some(n), GapOr0(run)), 0)]
    else
      [Reading(Run(start, Some(start), Some(1), Some(0.0)), ops)]
      + if n > 1 then [Reading(Run(start, Some(end), Some(n - 1), GapOr0(run)), 0)] else []
  }

  function PointsOf(f: Facts): seq<UsagePoint> {
    PointsFor(f.run, f.ops)
  }

  function SeriesOf(facts: seq<Facts>): seq<UsagePoint> {
    if facts == [] then [] else SeriesOf(facts[..|facts| - 1]) + PointsOf(facts[|facts| - 1])
  }

  function UsageSeries(history: seq<Snapshot>): seq<UsagePoint> {
    SeriesOf(AllFacts(SortedRuns(history)))
  }

  method UsageSeriesLoop(history: seq<Snapshot>) returns (series: seq<UsagePoint>)
    ensures series == UsageSeries(history)
  {
    series := SeriesLoop(SortedRuns(history));
  }

  method SeriesLoop(sorted: seq<Snapshot>) returns (series: seq<UsagePoint>)
    ensures series == SeriesOf(AllFacts(sorted))
  {
    ghost var facts := AllFacts(sorted);
    series := [];
    var previous: Members := map[];
    for i := 0 to |sorted|
      invariant previous == if i == 0 then map[] else ByName(sorted[i - 1].value.perMember)
      invariant series == SeriesTo(facts, i)
    {
      var ops := OpsStep(sorted, i, previous);
      previous := ByName(sorted[i].value.perMember);
      series := PointsStep(series, sorted[i].run, ops);
      SeriesNext(facts, i);
    }
    assert facts[..|sorted|] == facts;
  }

  /** Stored where the writer left it, differenced only where it was not; the window's
      first row takes the total. */
  method OpsStep(sorted: seq<Snapshot>, i: nat, previous: Members) returns (ops: int)
    requires i < |sorted|
    requires previous == if i == 0 then map[] else ByName(sorted[i - 1].value.perMember)
    ensures ops == AllFacts(sorted)[i].ops
  {
    var row := sorted[i].value;
    var stored := if i == 0 then row.opsTotal else row.opsDelta;
    if stored.Some? {
      ops := stored.value;
    } else {
      ops := ActivityLoop(previous, row.perMember);
    }
  }

  method PointsStep(series: seq<UsagePoint>, run: Run, ops: int) returns (out: seq<UsagePoint>)
    ensures out == series + PointsFor(run, ops)
  {
    var n, start, end := ObservationsOf(run), SpanStart(run), SpanEnd(run);
    if ops == 0 {
      out := series + [Reading(Run(start, Some(end), Some(n), GapOr0(run)), 0)];
    } else {
      out := series + [Reading(Run(start, Some(start), Some(1), Some(0.0)), ops)];
      if n > 1 {
        out := out + [Reading(Run(start, Some(end), Some(n - 1), GapOr0(run)), 0)];
      }
    }
  }

  /** The series of the first `n` rows. */
  ghost function SeriesTo(facts: seq<Facts>, n: nat): seq<UsagePoint>
    requires n <= |facts|
  {
    SeriesOf(facts[..n])
  }

  lemma {:induction false} SeriesNext(facts: seq<Facts>, i: nat)
    requires i < |facts|
    ensures SeriesTo(facts, i + 1) == SeriesTo(facts, i) + PointsFor(facts[i].run, facts[i].ops)
  {
    assert facts[..i + 1][..i] == facts[..i];
  }

  lemma {:induction false} TotalOne<T>(r: Reading<T>)
    ensures TotalObservations([r]) == ObservationsOf(r.run)
  {
    assert [r][1..] == [];
  }

  lemma {:induction false} PointsTotal(f: Facts)
    ensures TotalObservations(PointsOf(f)) == ObservationsOf(f.run)
  {
    var points := PointsOf(f);
    TotalOne(points[0]);
    if |points| == 2 {
      TotalOne(points[1]);
      TotalConcat([points[0]], [points[1]]);
      assert points == [points[0]] + [points[1]];
    } else {
      assert points == [points[0]];
    }
  }

  function ObservationsIn(facts: seq<Facts>): nat {
    if facts == [] then 0 else ObservationsIn(facts[..|facts| - 1]) + ObservationsOf(facts[|facts| - 1].run)
  }

  /** The split keeps the number of collects. */
  lemma {:induction false} SeriesTotal(facts: seq<Facts>)
    ensures TotalObservations(SeriesOf(facts)) == ObservationsIn(facts)
  {
    if facts != [] {
      var short, last := facts[..|facts| - 1], facts[|facts| - 1];
      SeriesTotal(short);
      PointsTotal(last);
      TotalConcat(SeriesOf(short), PointsOf(last));
    }
  }

  // --- Columns -----------------------------------------------------------------

  /** A row as it was before the columns existed. */
  predicate Raw(row: Snapshot) {
    && row.value.opsDelta.None? && row.value.opsTotal.None?
    && row.value.countersRestarted.None? && row.value.countersStartedAt.None?
  }

  /** The columns the collector stores beside a row, from the row before it. */
  function StoredColumns(previous: Option<Snapshot>, current: Snapshot): Snapshot {
    var members := if previous.None? then map[] else ByName(previous.value.value.perMember);
    Reading(current.run, Counters(
      [],
      Some(ActivityBetween(members, current.value.perMember)),
      Some(ActivityInFull(current.value.perMember)),
      Some(CountersRestartedBetween(members, current.value.perMember)),
      LatestCounterStart(current.value.perMember)))
  }

  /** A history whose rows from `cut` on are read through their columns alone. */
  function Projected(rows: seq<Snapshot>, cut: nat): (out: seq<Snapshot>)
    ensures |out| == |rows|
  {
    seq(|rows|, i requires 0 <= i < |rows| => if i < cut then rows[i] else StoredColumns(Before(rows, i), rows[i]))
  }

  /** A column-only row answers as the row it was computed from, after any row that is
      still there in full or is itself read through its columns. */
  lemma {:induction false} ColumnsAnswer(before: Option<Snapshot>, seen: Option<Snapshot>, row: Snapshot)
    requires Raw(row) && (seen.Some? ==> before.Some?)
    ensures FactsOf(seen, StoredColumns(before, row)) == FactsOf(if seen.None? then None else before, row)
  {
    assert LatestCounterStart([]).None?;
    FullIsBetweenNothing(row.value.perMember);
  }

  /** On every retained window of the history, wherever the columns begin, what the
      analysis asks of a row is the same from the columns as from the counters. */
  lemma {:induction false} ColumnsRefineCounters(rows: seq<Snapshot>, cut: nat, from: nat)
    requires from <= |rows|
    requires forall i :: 0 <= i < |rows| ==> Raw(rows[i])
    ensures AllFacts(Projected(rows, cut)[from..]) == AllFacts(rows[from..])
  {
    var columns, raw := Projected(rows, cut)[from..], rows[from..];
    forall i | 0 <= i < |raw| ensures FactsOf(Before(columns, i), columns[i]) == FactsOf(Before(raw, i), raw[i]) {
      var at := from + i;
      assert raw[i] == rows[at] && columns[i] == Projected(rows, cut)[at];
      assert i > 0 ==> raw[i - 1] == rows[at - 1] && columns[i - 1] == Projected(rows, cut)[at - 1];
      if at >= cut {
        ColumnsAnswer(Before(rows, at), Before(columns, i), rows[at]);
      }
    }
  }

  // --- Counters at zero --------------------------------------------------------

  predicate AllZero(row: Snapshot) {
    forall k :: 0 <= k < |row.value.perMember| ==> row.value.perMember[k].ops == 0
  }

  predicate NonNegative(row: Snapshot) {
    forall k :: 0 <= k < |row.value.perMember| ==> row.value.perMember[k].ops >= 0
  }

  lemma {:induction false} ByNameFrom(members: seq<MemberUsage>, name: string)
    requires name in ByName(members)
    ensures ByName(members)[name] in members
  {
    if members != [] {
      var short, last := members[..|members| - 1], members[|members| - 1];
      assert members == short + [last];
      if name != last.member {
        ByNameFrom(short, name);
      }
    }
  }

  /** Activity is never negative, and over a previous reading at zero it is nothing
      exactly when every counter is still at zero. */
  lemma {:induction false} ActivityNonNegative(previous: Members, current: seq<MemberUsage>)
    requires forall k :: 0 <= k < |current| ==> current[k].ops >= 0
    ensures ActivityBetween(previous, current) >= 0
    ensures (forall name :: name in previous ==> previous[name].ops == 0) ==>
      (ActivityBetween(previous, current) == 0 <==> forall k :: 0 <= k < |current| ==> current[k].ops == 0)
  {
    if current != [] {
      var short, last := current[..|current| - 1], current[|current| - 1];
      ActivityNonNegative(previous, short);
      assert current == short + [last];
      if forall name :: name in previous ==> previous[name].ops == 0 {
        assert MemberActivity(previous, last) == last.ops;
      }
    }
  }

  lemma {:induction false} ZeroRowBefore(row: Snapshot)
    requires AllZero(row)
    ensures forall name :: name in ByName(row.value.perMember) ==> ByName(row.value.perMember)[name].ops == 0
  {
    forall name | name in ByName(row.value.perMember) ensures ByName(row.value.perMember)[name].ops == 0 {
      ByNameFrom(row.value.perMember, name);
    }
  }

  lemma {:induction false} OpsNonNegative(rows: seq<Snapshot>, i: nat)
    requires i < |rows| && Raw(rows[i]) && NonNegative(rows[i])
    ensures AllFacts(rows)[i].ops >= 0
    ensures (i == 0 || AllZero(rows[i - 1])) ==> (AllFacts(rows)[i].ops == 0 <==> AllZero(rows[i]))
  {
    var previous := if i == 0 then map[] else ByName(rows[i - 1].value.perMember);
    ActivityNonNegative(previous, rows[i].value.perMember);
    if i > 0 && AllZero(rows[i - 1]) {
      ZeroRowBefore(rows[i - 1]);
    }
  }

  /** Nothing ever moved exactly when every counter of every retained row is zero. */
  lemma {:induction false} QuietIsZero(rows: seq<Snapshot>, n: nat)
    requires n <= |rows|
    requires forall i :: 0 <= i < |rows| ==> Raw(rows[i]) && NonNegative(rows[i])
    ensures (forall i :: 0 <= i < n ==> AllFacts(rows)[i].ops == 0) <==> (forall i :: 0 <= i < n ==> AllZero(rows[i]))
  {
    if n > 0 {
      QuietIsZero(rows, n - 1);
      OpsNonNegative(rows, n - 1);
    }
  }
}
