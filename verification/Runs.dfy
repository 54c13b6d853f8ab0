/** Run-length readings and the intervals between observations
    (apps/api/src/analysis/types.ts). A run stands for `observations` collects spread
    evenly over its span; times are in milliseconds. */
module Runs {
  import opened Engine

  datatype Run = Run(capturedAt: real, lastSeenAt: Option<real>, observations: Option<int>, maxGapMs: Option<real>)

  /** A stored row: a run, and what was read throughout it. */
  datatype Reading<T> = Reading(run: Run, value: T)

  function SpanStart(run: Run): real {
    run.capturedAt
  }

  function SpanEnd(run: Run): (end: real)
    ensures end >= SpanStart(run)
  {
    if run.lastSeenAt.None? || run.lastSeenAt.value < run.capturedAt then run.capturedAt else run.lastSeenAt.value
  }

  function InteriorGap(run: Run): (gap: real)
    ensures gap >= 0.0
  {
    if run.maxGapMs.None? || run.maxGapMs.value < 0.0 then 0.0 else run.maxGapMs.value
  }

  function ObservationsOf(run: Run): (n: nat)
    ensures n >= 1
  {
    if run.observations.None? || run.observations.value < 1 then 1 else run.observations.value
  }

  function TotalObservations<T>(rs: seq<Reading<T>>): nat {
    if rs == [] then 0 else ObservationsOf(rs[0].run) + TotalObservations(rs[1..])
  }

  lemma {:induction false} TotalConcat<T>(a: seq<Reading<T>>, b: seq<Reading<T>>)
    ensures TotalObservations(a + b) == TotalObservations(a) + TotalObservations(b)
  {
    if a == [] {
      assert a + b == b;
    } else {
      assert (a + b)[1..] == a[1..] + b;
      TotalConcat(a[1..], b);
    }
  }

  // --- Oldest first ------------------------------------------------------------

  function InsertReading<T>(sorted: seq<Reading<T>>, r: Reading<T>): seq<Reading<T>> {
    if sorted == [] || SpanStart(sorted[|sorted| - 1].run) <= SpanStart(r.run) then sorted + [r]
    else InsertReading(sorted[..|sorted| - 1], r) + [sorted[|sorted| - 1]]
  }

  /** The stable sort by start. */
  function SortedRuns<T>(rs: seq<Reading<T>>): seq<Reading<T>> {
    if rs == [] then [] else InsertReading(SortedRuns(rs[..|rs| - 1]), rs[|rs| - 1])
  }

  predicate StartsAscend<T>(rs: seq<Reading<T>>) {
    forall i, j :: 0 <= i < j < |rs| ==> SpanStart(rs[i].run) <= SpanStart(rs[j].run)
  }

  lemma {:induction false} PrefixAscends<T>(rs: seq<Reading<T>>)
    requires StartsAscend(rs) && rs != []
    ensures StartsAscend(rs[..|rs| - 1])
    ensures InsertReading(rs[..|rs| - 1], rs[|rs| - 1]) == rs
  {
    assert rs == rs[..|rs| - 1] + [rs[|rs| - 1]];
  }

  lemma {:induction false} SortedAlready<T>(rs: seq<Reading<T>>)
    requires StartsAscend(rs)
    ensures SortedRuns(rs) == rs
  {
    if rs != [] {
      PrefixAscends(rs);
      SortedAlready(rs[..|rs| - 1]);
    }
  }

  lemma {:induction false} InsertAscends<T>(sorted: seq<Reading<T>>, r: Reading<T>)
    requires StartsAscend(sorted)
    ensures StartsAscend(InsertReading(sorted, r)) && |InsertReading(sorted, r)| == |sorted| + 1
    ensures SpanStart(InsertReading(sorted, r)[|sorted|].run)
      == if sorted == [] || SpanStart(sorted[|sorted| - 1].run) <= SpanStart(r.run) then SpanStart(r.run)
         else SpanStart(sorted[|sorted| - 1].run)
  {
    if !(sorted == [] || SpanStart(sorted[|sorted| - 1].run) <= SpanStart(r.run)) {
      var short, last := sorted[..|sorted| - 1], sorted[|sorted| - 1];
      InsertAscends(short, r);
      var inner := InsertReading(short, r);
      assert short != [] ==> short[|short| - 1] == sorted[|short| - 1];
      forall i | 0 <= i < |inner| ensures SpanStart(inner[i].run) <= SpanStart(last.run) {
        assert i < |inner| - 1 ==> SpanStart(inner[i].run) <= SpanStart(inner[|inner| - 1].run);
      }
    }
  }

  lemma {:induction false} InsertPermutes<T>(sorted: seq<Reading<T>>, r: Reading<T>)
    ensures multiset(InsertReading(sorted, r)) == multiset(sorted) + multiset{r}
  {
    if !(sorted == [] || SpanStart(sorted[|sorted| - 1].run) <= SpanStart(r.run)) {
      InsertPermutes(sorted[..|sorted| - 1], r);
      assert sorted == sorted[..|sorted| - 1] + [sorted[|sorted| - 1]];
    }
  }

  /** The rows, oldest first. */
  lemma {:induction false} SortedRunsAscends<T>(rs: seq<Reading<T>>)
    ensures StartsAscend(SortedRuns(rs)) && |SortedRuns(rs)| == |rs|
  {
    if rs != [] {
      SortedRunsAscends(rs[..|rs| - 1]);
      InsertAscends(SortedRuns(rs[..|rs| - 1]), rs[|rs| - 1]);
    }
  }

  lemma {:induction false} SortedRunsPermutes<T>(rs: seq<Reading<T>>)
    ensures multiset(SortedRuns(rs)) == multiset(rs)
  {
    if rs != [] {
      var short, last := rs[..|rs| - 1], rs[|rs| - 1];
      SortedRunsPermutes(short);
      InsertPermutes(SortedRuns(short), last);
      assert multiset(rs) == multiset(short) + multiset{last} by {
        assert rs == short + [last];
      }
    }
  }

  predicate StartsRise<T>(rs: seq<Reading<T>>) {
    forall i, j :: 0 <= i < j < |rs| ==> SpanStart(rs[i].run) < SpanStart(rs[j].run)
  }

  lemma {:induction false} LastOfBoth<T>(a: seq<Reading<T>>, b: seq<Reading<T>>)
    requires StartsAscend(a) && StartsRise(b) && multiset(a) == multiset(b) && a != [] && b != []
    ensures a[|a| - 1] == b[|b| - 1]
  {
    var x, y := a[|a| - 1], b[|b| - 1];
    assert x in multiset(b) && y in multiset(a);
    var i :| 0 <= i < |b| && b[i] == x;
    var j :| 0 <= j < |a| && a[j] == y;
    assert SpanStart(y.run) <= SpanStart(x.run);
  }

  lemma {:induction false} ShorterBag<T>(s: seq<T>)
    requires s != []
    ensures multiset(s[..|s| - 1]) == multiset(s) - multiset{s[|s| - 1]}
  {
    assert s == s[..|s| - 1] + [s[|s| - 1]];
  }

  lemma {:induction false} SameByLast<T>(a: seq<T>, b: seq<T>)
    requires a != [] && b != [] && a[|a| - 1] == b[|b| - 1] && a[..|a| - 1] == b[..|b| - 1]
    ensures a == b
  {
    assert a == a[..|a| - 1] + [a[|a| - 1]] && b == b[..|b| - 1] + [b[|b| - 1]];
  }

  lemma {:induction false} SameLength<T>(a: seq<T>, b: seq<T>)
    requires multiset(a) == multiset(b)
    ensures |a| == |b|
  {
    assert |multiset(a)| == |a| && |multiset(b)| == |b|;
  }

  lemma {:induction false} RisingIsSorted<T>(a: seq<Reading<T>>, b: seq<Reading<T>>)
    requires StartsAscend(a) && StartsRise(b) && multiset(a) == multiset(b)
    ensures a == b
  {
    SameLength(a, b);
    if a != [] {
      LastOfBoth(a, b);
      ShorterBag(a);
      ShorterBag(b);
      RisingIsSorted(a[..|a| - 1], b[..|b| - 1]);
      SameByLast(a, b);
    }
  }

  /** Rows that began at different times sort to one list, whatever order they come in. */
  lemma {:induction false} SortedIs<T>(given: seq<Reading<T>>, rows: seq<Reading<T>>)
    requires StartsRise(rows) && multiset(given) == multiset(rows)
    ensures SortedRuns(given) == rows
  {
    SortedRunsAscends(given);
    SortedRunsPermutes(given);
    RisingIsSorted(SortedRuns(given), rows);
  }

  /** Runs of one series do not overlap. */
  predicate Chained<T>(rs: seq<Reading<T>>) {
    forall i :: 0 <= i < |rs| - 1 ==> SpanEnd(rs[i].run) <= SpanStart(rs[i + 1].run)
  }

  lemma {:induction false} ChainedOrder<T>(rs: seq<Reading<T>>, i: nat, j: nat)
    requires Chained(rs) && i < j < |rs|
    ensures SpanEnd(rs[i].run) <= SpanStart(rs[j].run)
    decreases j
  {
    if i + 1 < j {
      ChainedOrder(rs, i, j - 1);
    }
  }

  lemma {:induction false} ChainedAscends<T>(rs: seq<Reading<T>>)
    requires Chained(rs)
    ensures StartsAscend(rs)
  {
    forall i, j | 0 <= i < j < |rs| ensures SpanStart(rs[i].run) <= SpanStart(rs[j].run) {
      ChainedOrder(rs, i, j);
    }
  }

  // --- Gaps --------------------------------------------------------------------

  /** An interval between observations, and how many of them are that long. */
  datatype Gap = Gap(ms: real, weight: nat)

  function Interior(run: Run): seq<Gap> {
    var n, span := ObservationsOf(run), SpanEnd(run) - SpanStart(run);
    if n > 1 && span > 0.0 then [Gap(span / (n - 1) as real, n - 1)] else []
  }

  function Between(run: Run, next: Run): seq<Gap> {
    var between := SpanStart(next) - SpanEnd(run);
    if between > 0.0 then [Gap(between, 1)] else []
  }

  function ObservationGaps<T>(rs: seq<Reading<T>>): seq<Gap> {
    if rs == [] then []
    else if |rs| == 1 then Interior(rs[0].run)
    else Interior(rs[0].run) + Between(rs[0].run, rs[1].run) + ObservationGaps(rs[1..])
  }

  method ObservationGapsLoop<T>(rs: seq<Reading<T>>) returns (gaps: seq<Gap>)
    ensures gaps == ObservationGaps(rs)
  {
    gaps := [];
    for i := 0 to |rs|
      invariant gaps + ObservationGaps(rs[i..]) == ObservationGaps(rs)
    {
      ghost var before, rest := gaps, rs[i..];
      var run := rs[i].run;
      var observations, span := ObservationsOf(run), SpanEnd(run) - SpanStart(run);
      if observations > 1 && span > 0.0 {
        gaps := gaps + [Gap(span / (observations - 1) as real, observations - 1)];
      }
      assert gaps == before + Interior(run);
      if i + 1 < |rs| {
        var between := SpanStart(rs[i + 1].run) - SpanEnd(run);
        if between > 0.0 {
          gaps := gaps + [Gap(between, 1)];
        }
        assert rest[1..] == rs[i + 1..];
        Assoc4(before, Interior(run), Between(run, rs[i + 1].run), ObservationGaps(rs[i + 1..]));
        assert gaps == before + Interior(run) + Between(run, rs[i + 1].run);
      }
    }
  }

  predicate Positive(gaps: seq<Gap>) {
    forall i :: 0 <= i < |gaps| ==> gaps[i].weight >= 1
  }

  lemma {:induction false} GapsPositive<T>(rs: seq<Reading<T>>)
    ensures Positive(ObservationGaps(rs))
  {
    if |rs| > 1 {
      GapsPositive(rs[1..]);
    }
  }

  // --- The weighted median -----------------------------------------------------

  function InsertGap(g: Gap, sorted: seq<Gap>): seq<Gap> {
    if sorted == [] || g.ms <= sorted[0].ms then [g] + sorted else [sorted[0]] + InsertGap(g, sorted[1..])
  }

  function SortGaps(gaps: seq<Gap>): seq<Gap> {
    if gaps == [] then [] else InsertGap(gaps[0], SortGaps(gaps[1..]))
  }

  function Weight(gaps: seq<Gap>): nat {
    if gaps == [] then 0 else gaps[0].weight + Weight(gaps[1..])
  }

  /** The walk over the sorted gaps, `seen` observations in. */
  function MedianFrom(gaps: seq<Gap>, seen: nat, total: nat): real {
    if gaps == [] then 0.0
    else
      var seen' := seen + gaps[0].weight;
      if seen' * 2 > total || |gaps| == 1 then gaps[0].ms
      else if seen' * 2 == total then (gaps[0].ms + gaps[1].ms) / 2.0
      else MedianFrom(gaps[1..], seen', total)
  }

  function MedianObservationGap<T>(rs: seq<Reading<T>>): real {
    var gaps := SortGaps(ObservationGaps(SortedRuns(rs)));
    MedianFrom(gaps, 0, Weight(gaps))
  }

  method MedianLoop<T>(rs: seq<Reading<T>>) returns (median: real)
    ensures median == MedianObservationGap(rs)
  {
    var gaps := ObservationGapsLoop(SortedRuns(rs));
    if |gaps| == 0 {
      return 0.0;
    }
    gaps := SortGaps(gaps);
    var total := Weight(gaps);
    var seen: nat := 0;
    for i := 0 to |gaps|
      invariant MedianFrom(gaps[i..], seen, total) == MedianObservationGap(rs)
    {
      var gap := gaps[i];
      assert gaps[i..][1..] == gaps[i + 1..];
      seen := seen + gap.weight;
      if seen * 2 > total {
        return gap.ms;
      }
      if seen * 2 == total {
        return if i + 1 < |gaps| then (gap.ms + gaps[i + 1].ms) / 2.0 else gap.ms;
      }
      if i + 1 == |gaps| {
        return gap.ms;
      }
    }
    return 0.0;
  }

  // --- The plain median it stands for ------------------------------------------

  /** Every interval written out as often as it occurred. */
  function Repeat(ms: real, n: nat): seq<real> {
    seq(n, _ => ms)
  }

  function Copies(gaps: seq<Gap>): seq<real> {
    if gaps == [] then [] else Repeat(gaps[0].ms, gaps[0].weight) + Copies(gaps[1..])
  }

  function InsertReal(x: real, sorted: seq<real>): seq<real> {
    if sorted == [] || x <= sorted[0] then [x] + sorted else [sorted[0]] + InsertReal(x, sorted[1..])
  }

  function SortReals(values: seq<real>): seq<real> {
    if values == [] then [] else InsertReal(values[0], SortReals(values[1..]))
  }

  /** The middle value of a sorted list, or the mean of the two middle ones. */
  function MiddleOf(sorted: seq<real>): real {
    var n := |sorted|;
    if n == 0 then 0.0
    else if n % 2 == 1 then sorted[n / 2]
    else (sorted[n / 2 - 1] + sorted[n / 2]) / 2.0
  }

  function PlainMedian(values: seq<real>): real {
    MiddleOf(SortReals(values))
  }

  predicate Ascends(values: seq<real>) {
    forall i, j :: 0 <= i < j < |values| ==> values[i] <= values[j]
  }

  predicate GapsAscend(gaps: seq<Gap>) {
    forall i, j :: 0 <= i < j < |gaps| ==> gaps[i].ms <= gaps[j].ms
  }

  lemma {:induction false} CopiesLength(gaps: seq<Gap>)
    ensures |Copies(gaps)| == Weight(gaps)
  {
    if gaps != [] {
      CopiesLength(gaps[1..]);
    }
  }

  /** The walk stops at the middle of the list written out in full. */
  lemma {:induction false} MedianFromIsMiddle(before: seq<real>, gaps: seq<Gap>, all: seq<real>)
    requires Positive(gaps) && all == before + Copies(gaps)
    requires |before| * 2 < |all|
    ensures MedianFrom(gaps, |before|, |all|) == MiddleOf(all)
    decreases |gaps|
  {
    assert gaps == [] ==> all == before;
    if gaps != [] {
      var g, rest := gaps[0], gaps[1..];
      var block, tail := Repeat(g.ms, g.weight), Copies(rest);
      assert all == (before + block) + tail;
      assert |gaps| == 1 ==> tail == [];
      assert forall q :: |before| <= q < |before| + g.weight ==> all[q] == g.ms;
      if (|before| + g.weight) * 2 > |all| {
        MiddleInBlock(all, |before|, g.weight, g.ms);
      } else if |gaps| > 1 {
        assert Positive(rest);
        assert rest[0].weight >= 1;
        if (|before| + g.weight) * 2 == |all| {
          assert tail[0] == gaps[1].ms;
          assert all[|before| + g.weight] == tail[0];
          MiddleAtSeam(all, |before| + g.weight, g.ms, gaps[1].ms);
        } else {
          MedianFromIsMiddle(before + block, rest, all);
        }
      }
    }
  }

  lemma {:induction false} MiddleInBlock(all: seq<real>, from: nat, count: nat, ms: real)
    requires from + count <= |all| && from * 2 < |all| < (from + count) * 2
    requires forall q :: from <= q < from + count ==> all[q] == ms
    ensures MiddleOf(all) == ms
  {
    var n := |all|;
    assert from <= n / 2 < from + count;
    assert n % 2 == 0 ==> from <= n / 2 - 1;
  }

  lemma {:induction false} MiddleAtSeam(all: seq<real>, seam: nat, left: real, right: real)
    requires 0 < seam < |all| && seam * 2 == |all| && all[seam - 1] == left && all[seam] == right
    ensures MiddleOf(all) == (left + right) / 2.0
  {
  }

  // --- Sorting weighted gaps sorts the written-out list -------------------------

  lemma {:induction false} InsertGapAscends(g: Gap, sorted: seq<Gap>)
    requires GapsAscend(sorted)
    ensures GapsAscend(InsertGap(g, sorted)) && InsertGap(g, sorted) != []
    ensures InsertGap(g, sorted)[0].ms == g.ms || (sorted != [] && InsertGap(g, sorted)[0].ms == sorted[0].ms)
    ensures Positive(sorted) && g.weight >= 1 ==> Positive(InsertGap(g, sorted))
  {
    if sorted != [] && !(g.ms <= sorted[0].ms) {
      InsertGapAscends(g, sorted[1..]);
      var inner := InsertGap(g, sorted[1..]);
      forall i | 0 <= i < |inner| ensures sorted[0].ms <= inner[i].ms {
        assert i > 0 ==> inner[0].ms <= inner[i].ms;
      }
    }
  }

  lemma {:induction false} SortGapsAscends(gaps: seq<Gap>)
    ensures GapsAscend(SortGaps(gaps)) && (Positive(gaps) ==> Positive(SortGaps(gaps)))
  {
    if gaps != [] {
      SortGapsAscends(gaps[1..]);
      InsertGapAscends(gaps[0], SortGaps(gaps[1..]));
    }
  }

  lemma {:induction false} CopiesAscend(gaps: seq<Gap>)
    requires GapsAscend(gaps)
    ensures Ascends(Copies(gaps))
  {
    if gaps != [] {
      CopiesAscend(gaps[1..]);
      forall i | 0 <= i < |Copies(gaps[1..])| ensures gaps[0].ms <= Copies(gaps[1..])[i] {
        CopiesFrom(gaps[1..], gaps[0].ms, i);
      }
    }
  }

  lemma {:induction false} CopiesFrom(gaps: seq<Gap>, floor: real, i: nat)
    requires i < |Copies(gaps)| && forall k :: 0 <= k < |gaps| ==> floor <= gaps[k].ms
    ensures floor <= Copies(gaps)[i]
  {
    if i >= gaps[0].weight {
      CopiesFrom(gaps[1..], floor, i - gaps[0].weight);
    }
  }

  lemma {:induction false} InsertGapCopies(g: Gap, sorted: seq<Gap>)
    ensures multiset(Copies(InsertGap(g, sorted))) == multiset(Repeat(g.ms, g.weight)) + multiset(Copies(sorted))
  {
    if sorted == [] || g.ms <= sorted[0].ms {
      assert ([g] + sorted)[1..] == sorted;
    } else {
      InsertGapCopies(g, sorted[1..]);
      assert ([sorted[0]] + InsertGap(g, sorted[1..]))[1..] == InsertGap(g, sorted[1..]);
    }
  }

  lemma {:induction false} SortGapsCopies(gaps: seq<Gap>)
    ensures multiset(Copies(SortGaps(gaps))) == multiset(Copies(gaps))
  {
    if gaps != [] {
      SortGapsCopies(gaps[1..]);
      InsertGapCopies(gaps[0], SortGaps(gaps[1..]));
    }
  }

  lemma {:induction false} InsertRealAscends(x: real, sorted: seq<real>)
    requires Ascends(sorted)
    ensures Ascends(InsertReal(x, sorted)) && InsertReal(x, sorted) != []
    ensures InsertReal(x, sorted)[0] == if sorted == [] || x <= sorted[0] then x else sorted[0]
  {
    if sorted != [] && !(x <= sorted[0]) {
      var rest := sorted[1..];
      InsertRealAscends(x, rest);
      var inner := InsertReal(x, rest);
      assert rest != [] ==> rest[0] == sorted[1];
      forall i | 0 <= i < |inner| ensures sorted[0] <= inner[i] {
        assert i > 0 ==> inner[0] <= inner[i];
      }
    }
  }

  lemma {:induction false} InsertRealPermutes(x: real, sorted: seq<real>)
    ensures multiset(InsertReal(x, sorted)) == multiset{x} + multiset(sorted)
  {
    if sorted != [] && !(x <= sorted[0]) {
      InsertRealPermutes(x, sorted[1..]);
      assert sorted == [sorted[0]] + sorted[1..];
    }
  }

  lemma {:induction false} SortRealsSorts(values: seq<real>)
    ensures Ascends(SortReals(values)) && multiset(SortReals(values)) == multiset(values)
  {
    if values != [] {
      SortRealsSorts(values[1..]);
      InsertRealAscends(values[0], SortReals(values[1..]));
      InsertRealPermutes(values[0], SortReals(values[1..]));
      assert values == [values[0]] + values[1..];
    }
  }

  lemma {:induction false} SameLeast(a: seq<real>, b: seq<real>)
    requires Ascends(a) && Ascends(b) && multiset(a) == multiset(b) && a != [] && b != []
    ensures a[0] == b[0]
  {
    assert a[0] in multiset(b) && b[0] in multiset(a);
    var i :| 0 <= i < |b| && b[i] == a[0];
    var j :| 0 <= j < |a| && a[j] == b[0];
    assert b[0] <= b[i] && a[0] <= a[j];
  }

  lemma {:induction false} AscendingUnique(a: seq<real>, b: seq<real>)
    requires Ascends(a) && Ascends(b) && multiset(a) == multiset(b)
    ensures a == b
  {
    assert |multiset(a)| == |a| && |multiset(b)| == |b|;
    if a != [] {
      SameLeast(a, b);
      TailBag(a);
      TailBag(b);
      AscendingUnique(a[1..], b[1..]);
      assert a == [a[0]] + a[1..] && b == [b[0]] + b[1..];
    }
  }

  lemma {:induction false} TailBag(s: seq<real>)
    requires s != []
    ensures multiset(s[1..]) == multiset(s) - multiset{s[0]}
  {
    assert s == [s[0]] + s[1..];
  }

  /** The weighted median is the plain median of the intervals written out in full,
      whether their number is odd or even. */
  lemma {:induction false} WeightedIsPlain(gaps: seq<Gap>)
    requires Positive(gaps)
    ensures MedianFrom(SortGaps(gaps), 0, Weight(SortGaps(gaps))) == PlainMedian(Copies(gaps))
  {
    var sorted := SortGaps(gaps);
    SortGapsAscends(gaps);
    CopiesAscend(sorted);
    SortGapsCopies(gaps);
    SortRealsSorts(Copies(gaps));
    AscendingUnique(Copies(sorted), SortReals(Copies(gaps)));
    CopiesLength(sorted);
    if sorted != [] {
      assert [] + Copies(sorted) == Copies(sorted);
      assert sorted[0].weight >= 1;
      MedianFromIsMiddle([], sorted, Copies(sorted));
    }
  }

  lemma {:induction false} MedianIsPlain<T>(rs: seq<Reading<T>>)
    ensures MedianObservationGap(rs) == PlainMedian(Copies(ObservationGaps(SortedRuns(rs))))
  {
    GapsPositive(SortedRuns(rs));
    WeightedIsPlain(ObservationGaps(SortedRuns(rs)));
  }

  // --- Writing runs out as the readings they stand for --------------------------

  function PointAt<T>(at: real, value: T): Reading<T> {
    Reading(Run(at, None, None, None), value)
  }

  function Points<T>(at: real, step: real, n: nat, value: T): seq<Reading<T>>
    decreases n
  {
    if n == 0 then [] else [PointAt(at, value)] + Points(at + step, step, n - 1, value)
  }

  /** How far apart the observations of a run lie. */
  function StepOf(run: Run): real {
    var n := ObservationsOf(run);
    if n == 1 then 0.0 else (SpanEnd(run) - SpanStart(run)) / (n - 1) as real
  }

  /** A run of n observations as n evenly spaced point readings. */
  function Expand<T>(r: Reading<T>): seq<Reading<T>> {
    Points(SpanStart(r.run), StepOf(r.run), ObservationsOf(r.run), r.value)
  }

  function ExpandAll<T>(rs: seq<Reading<T>>): seq<Reading<T>> {
    if rs == [] then [] else Expand(rs[0]) + ExpandAll(rs[1..])
  }

  /** One observation is a point. */
  predicate PointsArePoints<T>(rs: seq<Reading<T>>) {
    forall i :: 0 <= i < |rs| && ObservationsOf(rs[i].run) == 1 ==> SpanEnd(rs[i].run) == SpanStart(rs[i].run)
  }

  lemma {:induction false} OneStepLess(at: real, step: real, k: nat)
    requires k > 0
    ensures at + step + (k - 1) as real * step == at + k as real * step
  {
    assert (k - 1) as real == k as real - 1.0;
  }

  lemma {:induction false} PointsShape<T>(at: real, step: real, n: nat, value: T)
    ensures |Points(at, step, n, value)| == n
    ensures forall k :: 0 <= k < n ==> Points(at, step, n, value)[k] == PointAt(at + k as real * step, value)
    decreases n
  {
    if n > 0 {
      var rest := Points(at + step, step, n - 1, value);
      PointsShape(at + step, step, n - 1, value);
      forall k | 0 <= k < n ensures Points(at, step, n, value)[k] == PointAt(at + k as real * step, value) {
        if k > 0 {
          assert Points(at, step, n, value)[k] == rest[k - 1];
          OneStepLess(at, step, k);
        }
      }
    }
  }

  lemma {:induction false} StepSpans(run: Run)
    requires ObservationsOf(run) == 1 ==> SpanEnd(run) == SpanStart(run)
    ensures SpanStart(run) + (ObservationsOf(run) - 1) as real * StepOf(run) == SpanEnd(run)
    ensures StepOf(run) >= 0.0
    ensures ObservationsOf(run) > 1 ==> (StepOf(run) > 0.0 <==> SpanEnd(run) > SpanStart(run))
  {
    var n := ObservationsOf(run);
    if n > 1 {
      var d, span := (n - 1) as real, SpanEnd(run) - SpanStart(run);
      assert d > 0.0;
      assert d * (span / d) == span;
      assert span > 0.0 ==> span / d > 0.0;
      assert span == 0.0 ==> span / d == 0.0;
    }
  }

  /** The run's observations begin at its start and end at its end. */
  lemma {:induction false} ExpandEnds<T>(r: Reading<T>)
    requires ObservationsOf(r.run) == 1 ==> SpanEnd(r.run) == SpanStart(r.run)
    ensures |Expand(r)| == ObservationsOf(r.run)
    ensures Expand(r)[0] == PointAt(SpanStart(r.run), r.value)
    ensures Expand(r)[|Expand(r)| - 1] == PointAt(SpanEnd(r.run), r.value)
  {
    PointsShape(SpanStart(r.run), StepOf(r.run), ObservationsOf(r.run), r.value);
    StepSpans(r.run);
  }

  lemma {:induction false} GapsConcat<T>(a: seq<Reading<T>>, b: seq<Reading<T>>)
    requires a != [] && b != []
    ensures ObservationGaps(a + b) == ObservationGaps(a) + Between(a[|a| - 1].run, b[0].run) + ObservationGaps(b)
    decreases |a|
  {
    var seam := Between(a[|a| - 1].run, b[0].run);
    if |a| == 1 {
      assert (a + b)[1..] == b;
    } else {
      var rest := a[1..];
      assert (a + b)[1..] == rest + b;
      GapsConcat(rest, b);
      Assoc4(Interior(a[0].run) + Between(a[0].run, a[1].run), ObservationGaps(rest), seam, ObservationGaps(b));
    }
  }

  lemma {:induction false} CopiesConcat(a: seq<Gap>, b: seq<Gap>)
    ensures Copies(a + b) == Copies(a) + Copies(b)
  {
    if a == [] {
      assert a + b == b;
    } else {
      assert (a + b)[1..] == a[1..] + b;
      CopiesConcat(a[1..], b);
    }
  }

  lemma {:induction false} Copies3(a: seq<Gap>, b: seq<Gap>, c: seq<Gap>)
    ensures Copies(a + b + c) == Copies(a) + Copies(b) + Copies(c)
  {
    CopiesConcat(a + b, c);
    CopiesConcat(a, b);
  }

  lemma {:induction false} CopyOfOne(ms: real)
    ensures Copies([Gap(ms, 1)]) == [ms]
  {
    assert [Gap(ms, 1)][1..] == [];
    assert Repeat(ms, 1) == [ms];
  }

  lemma {:induction false} PointSeam<T>(at: real, step: real, value: T)
    requires step >= 0.0
    ensures Copies(Between(PointAt(at, value).run, PointAt(at + step, value).run)) == if step > 0.0 then [step] else []
  {
    if step > 0.0 {
      CopyOfOne(step);
      assert Between(PointAt(at, value).run, PointAt(at + step, value).run) == [Gap(step, 1)];
    }
  }

  /** One point in front of others adds the step to the next. */
  lemma {:induction false} PointInFront<T>(at: real, step: real, value: T, rest: seq<Reading<T>>)
    requires rest != [] && rest[0] == PointAt(at + step, value) && step >= 0.0
    ensures Copies(ObservationGaps([PointAt(at, value)] + rest))
      == (if step > 0.0 then [step] else []) + Copies(ObservationGaps(rest))
  {
    var points, seam := [PointAt(at, value)] + rest, Between(PointAt(at, value).run, rest[0].run);
    assert points[1..] == rest && Interior(points[0].run) == [];
    assert ObservationGaps(points) == [] + seam + ObservationGaps(rest);
    CopiesConcat(seam, ObservationGaps(rest));
    assert [] + seam == seam;
    PointSeam(at, step, value);
  }

  lemma {:induction false} PointsFront<T>(at: real, step: real, n: nat, value: T)
    requires n >= 2
    ensures
      var rest := Points(at + step, step, n - 1, value);
      rest != [] && rest[0] == PointAt(at + step, value) && Points(at, step, n, value) == [PointAt(at, value)] + rest
  {
  }

  lemma {:induction false} RepeatFront(step: real, n: nat)
    requires n >= 2
    ensures [step] + Repeat(step, n - 2) == Repeat(step, n - 1)
  {
  }

  /** Evenly spaced points leave their spacing, once per interval. */
  lemma {:induction false} PointGaps<T>(at: real, step: real, n: nat, value: T)
    requires n >= 1 && step >= 0.0
    ensures Copies(ObservationGaps(Points(at, step, n, value))) == if step > 0.0 then Repeat(step, n - 1) else []
    decreases n
  {
    if n > 1 {
      PointGaps(at + step, step, n - 1, value);
      PointsFront(at, step, n, value);
      PointInFront(at, step, value, Points(at + step, step, n - 1, value));
      RepeatFront(step, n);
    } else {
      assert Points(at + step, step, 0, value) == [];
    }
  }

  lemma {:induction false} ExpandGaps<T>(r: Reading<T>)
    requires ObservationsOf(r.run) == 1 ==> SpanEnd(r.run) == SpanStart(r.run)
    ensures Copies(ObservationGaps(Expand(r))) == Copies(Interior(r.run))
  {
    var n := ObservationsOf(r.run);
    StepSpans(r.run);
    PointGaps(SpanStart(r.run), StepOf(r.run), n, r.value);
    if n > 1 && SpanEnd(r.run) > SpanStart(r.run) {
      assert Interior(r.run) == [Gap(StepOf(r.run), n - 1)];
      assert [Gap(StepOf(r.run), n - 1)][1..] == [];
      assert Repeat(StepOf(r.run), n - 1) + [] == Repeat(StepOf(r.run), n - 1);
    }
  }

  lemma {:induction false} ExpandAllStarts<T>(rs: seq<Reading<T>>)
    requires rs != [] && PointsArePoints(rs)
    ensures ExpandAll(rs) != [] && ExpandAll(rs)[0] == PointAt(SpanStart(rs[0].run), rs[0].value)
  {
    ExpandEnds(rs[0]);
  }

  /** Written out in full, a series has the same intervals in the same order. */
  lemma {:induction false} ExpandAllGaps<T>(rs: seq<Reading<T>>)
    requires PointsArePoints(rs)
    ensures Copies(ObservationGaps(ExpandAll(rs))) == Copies(ObservationGaps(rs))
  {
    if |rs| == 1 {
      ExpandGaps(rs[0]);
      assert Expand(rs[0]) + [] == Expand(rs[0]);
    } else if |rs| > 1 {
      ExpandAllGaps(rs[1..]);
      ExpandInFront(rs[0], rs[1..]);
    }
  }

  lemma {:induction false} ExpandSeam<T>(r: Reading<T>, rest: seq<Reading<T>>)
    requires (ObservationsOf(r.run) == 1 ==> SpanEnd(r.run) == SpanStart(r.run)) && PointsArePoints(rest) && rest != []
    ensures ObservationGaps(Expand(r) + ExpandAll(rest))
      == ObservationGaps(Expand(r)) + Between(r.run, rest[0].run) + ObservationGaps(ExpandAll(rest))
  {
    ExpandEnds(r);
    ExpandAllStarts(rest);
    GapsConcat(Expand(r), ExpandAll(rest));
  }

  lemma {:induction false} ExpandInFront<T>(r: Reading<T>, rest: seq<Reading<T>>)
    requires (ObservationsOf(r.run) == 1 ==> SpanEnd(r.run) == SpanStart(r.run)) && PointsArePoints(rest) && rest != []
    requires Copies(ObservationGaps(ExpandAll(rest))) == Copies(ObservationGaps(rest))
    ensures Copies(ObservationGaps(Expand(r) + ExpandAll(rest)))
      == Copies(Interior(r.run) + Between(r.run, rest[0].run) + ObservationGaps(rest))
  {
    ExpandSeam(r, rest);
    ExpandGaps(r);
    Copies3(ObservationGaps(Expand(r)), Between(r.run, rest[0].run), ObservationGaps(ExpandAll(rest)));
    Copies3(Interior(r.run), Between(r.run, rest[0].run), ObservationGaps(rest));
  }

  lemma {:induction false} PointsChained<T>(at: real, step: real, n: nat, value: T)
    requires step >= 0.0
    ensures Chained(Points(at, step, n, value))
    decreases n
  {
    if n > 0 {
      PointsChained(at + step, step, n - 1, value);
      var points := Points(at, step, n, value);
      forall i | 0 <= i < |points| - 1 ensures SpanEnd(points[i].run) <= SpanStart(points[i + 1].run) {
        assert points[i + 1] == Points(at + step, step, n - 1, value)[i];
        if i > 0 {
          assert points[i] == Points(at + step, step, n - 1, value)[i - 1];
        }
      }
    }
  }

  lemma {:induction false} ChainedConcat<T>(a: seq<Reading<T>>, b: seq<Reading<T>>)
    requires Chained(a) && Chained(b)
    requires a != [] && b != [] ==> SpanEnd(a[|a| - 1].run) <= SpanStart(b[0].run)
    ensures Chained(a + b)
  {
    var all := a + b;
    forall i | 0 <= i < |all| - 1 ensures SpanEnd(all[i].run) <= SpanStart(all[i + 1].run) {
      if i >= |a| {
        assert all[i] == b[i - |a|] && all[i + 1] == b[i - |a| + 1];
      }
    }
  }

  lemma {:induction false} ExpandAllChained<T>(rs: seq<Reading<T>>)
    requires Chained(rs) && PointsArePoints(rs)
    ensures Chained(ExpandAll(rs))
  {
    if rs != [] {
      var rest := rs[1..];
      assert Chained(rest) by {
        forall i | 0 <= i < |rest| - 1 ensures SpanEnd(rest[i].run) <= SpanStart(rest[i + 1].run) {
          assert rest[i] == rs[i + 1] && rest[i + 1] == rs[i + 2];
        }
      }
      ExpandAllChained(rest);
      StepSpans(rs[0].run);
      PointsChained(SpanStart(rs[0].run), StepOf(rs[0].run), ObservationsOf(rs[0].run), rs[0].value);
      ExpandEnds(rs[0]);
      if rest != [] {
        ExpandAllStarts(rest);
        assert rest[0] == rs[1];
      }
      ChainedConcat(Expand(rs[0]), ExpandAll(rest));
    }
  }

  /** Run-length storage does not move the median: writing every run of a series out as
      the point readings it stands for gives the same answer. */
  lemma {:induction false} MedianRunLength<T>(rs: seq<Reading<T>>)
    requires Chained(rs) && PointsArePoints(rs)
    ensures MedianObservationGap(ExpandAll(rs)) == MedianObservationGap(rs)
  {
    ChainedAscends(rs);
    SortedAlready(rs);
    ExpandAllChained(rs);
    ChainedAscends(ExpandAll(rs));
    SortedAlready(ExpandAll(rs));
    MedianIsPlain(rs);
    MedianIsPlain(ExpandAll(rs));
    ExpandAllGaps(rs);
  }
}
