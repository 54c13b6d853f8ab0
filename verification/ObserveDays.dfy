/** How long a hidden index is watched before its drop
    (apps/api/src/analysis/observe.ts). */
module ObserveDays {
  import opened Engine
  import opened Runs

  const DAY_MS := 86_400_000.0
  const SHORTEN_FLOOR_DAYS := 7
  const EXTEND_CAP_DAYS := 90
  const TENURE_MARGIN_DAYS := 1.0
  const LONG_TENURE_MULTIPLE := 2
  const VETERAN_MULTIPLE := 1.5
  const DENSE_GAP_DAYS := 2.0
  const DENSE_RECENT_DAYS := 3.0

  /** One series of usage; the value is the operations read. */
  type History = seq<Reading<int>>

  function Min(a: int, b: int): int {
    if a < b then a else b
  }

  function Max(a: int, b: int): int {
    if a < b then b else a
  }

  function Ceil(x: real): (n: int)
    ensures (n - 1) as real < x <= n as real
  {
    -((-x).Floor)
  }

  /** Half up, as the source rounds. */
  function Round(x: real): int {
    (x + 0.5).Floor
  }

  function Active(sorted: History): History {
    if sorted == [] then []
    else (if sorted[0].value > 0 then [sorted[0]] else []) + Active(sorted[1..])
  }

  function Largest(gaps: seq<Gap>): (ms: real)
    ensures ms >= 0.0
  {
    if gaps == [] then 0.0
    else
      var before := Largest(gaps[..|gaps| - 1]);
      if before < gaps[|gaps| - 1].ms then gaps[|gaps| - 1].ms else before
  }

  /** What the rules read of a history. */
  datatype Evidence = Evidence(
    firstSeen: Option<real>,
    lastSeen: Option<real>,
    observations: nat,
    activeObservations: nat,
    lastActive: Option<real>,
    largestGapMs: real)

  function EndOf(sorted: History): Option<real> {
    if sorted == [] then None else Some(SpanEnd(sorted[|sorted| - 1].run))
  }

  function EvidenceOf(sorted: History): Evidence {
    var active := Active(sorted);
    Evidence(
      if sorted == [] then None else Some(SpanStart(sorted[0].run)),
      EndOf(sorted),
      TotalObservations(sorted),
      TotalObservations(active),
      EndOf(active),
      Largest(ObservationGaps(active)))
  }

  /** The index's age, when it appeared a clear margin after the watch began. */
  function KnownTenure(firstSeen: Option<real>, watchingSince: Option<real>, now: real): Option<real> {
    if firstSeen.Some? && watchingSince.Some? && firstSeen.value - watchingSince.value >= TENURE_MARGIN_DAYS * DAY_MS
    then Some((now - firstSeen.value) / DAY_MS) else None
  }

  /** The usage shapes that settle the matter while the index is in use. */
  function ActiveRule(e: Evidence, policyDays: int, now: real): Option<int> {
    if e.activeObservations < 2 then None
    else
      var gap := e.largestGapMs / DAY_MS;
      var extended := Min(2 * Ceil(gap), Max(EXTEND_CAP_DAYS, policyDays));
      if extended > policyDays then Some(extended)
      else if gap <= DENSE_GAP_DAYS && e.lastActive.Some? && (now - e.lastActive.value) / DAY_MS <= DENSE_RECENT_DAYS
      then Some(Min(SHORTEN_FLOOR_DAYS, policyDays))
      else None
  }

  function VeteranRule(e: Evidence, policyDays: int, tenure: Option<real>): Option<int> {
    if e.lastActive.Some? && tenure.Some? && tenure.value >= (LONG_TENURE_MULTIPLE * policyDays) as real then
      var extended := Min(Max(EXTEND_CAP_DAYS, policyDays), Round(policyDays as real * VETERAN_MULTIPLE));
      if extended > policyDays then Some(extended) else None
    else None
  }

  function IdleRule(e: Evidence, policyDays: int): Option<int> {
    if e.lastActive.None? && e.observations >= 2 && e.firstSeen.Some? && e.lastSeen.Some?
      && ((e.lastSeen.value - e.firstSeen.value) / DAY_MS).Floor >= 2 * policyDays
    then
      var shortened := Max(Min(SHORTEN_FLOOR_DAYS, policyDays), policyDays / 2);
      if shortened < policyDays then Some(shortened) else None
    else None
  }

  function BornHereRule(e: Evidence, policyDays: int, tenure: Option<real>): Option<int> {
    if e.lastActive.None? && tenure.Some? then
      var scaled := Max(Min(SHORTEN_FLOOR_DAYS, policyDays), Min(policyDays, Ceil(tenure.value)));
      if scaled < policyDays then Some(scaled) else None
    else None
  }

  function DaysFrom(e: Evidence, policyDays: int, watchingSince: Option<real>, now: real): int {
    var tenure := KnownTenure(e.firstSeen, watchingSince, now);
    var active, veteran := ActiveRule(e, policyDays, now), VeteranRule(e, policyDays, tenure);
    var idle, born := IdleRule(e, policyDays), BornHereRule(e, policyDays, tenure);
    if active.Some? then active.value
    else if veteran.Some? then veteran.value
    else if idle.Some? then idle.value
    else if born.Some? then born.value
    else policyDays
  }

  /** The observe window an index deserves, in days. */
  function DynamicObserveDays(history: History, policyDays: int, watchingSince: Option<real>, now: real): int {
    DaysFrom(EvidenceOf(SortedRuns(history)), policyDays, watchingSince, now)
  }

  // --- Bounds ------------------------------------------------------------------

  /** Never under a week unless the policy is, never over ninety days unless the policy is. */
  lemma {:induction false} WindowBounded(history: History, policyDays: int, watchingSince: Option<real>, now: real)
    ensures Min(SHORTEN_FLOOR_DAYS, policyDays)
      <= DynamicObserveDays(history, policyDays, watchingSince, now)
      <= Max(EXTEND_CAP_DAYS, policyDays)
  {
  }

  lemma {:induction false} LargestBounds(gaps: seq<Gap>, i: nat)
    requires i < |gaps|
    ensures gaps[i].ms <= Largest(gaps)
  {
    if i < |gaps| - 1 {
      LargestBounds(gaps[..|gaps| - 1], i);
    }
  }

  /** An index used on a cadence is watched for two of its longest cycle, or as long as any
      index ever is: no rule after the cadence rule undercuts it. */
  lemma {:induction false} CycleFits(history: History, policyDays: int, watchingSince: Option<real>, now: real, i: nat)
    requires TotalObservations(Active(SortedRuns(history))) >= 2
    requires i < |ObservationGaps(Active(SortedRuns(history)))|
    ensures
      var days := DynamicObserveDays(history, policyDays, watchingSince, now);
      var gap := ObservationGaps(Active(SortedRuns(history)))[i].ms;
      days as real * DAY_MS >= 2.0 * gap || days >= Max(EXTEND_CAP_DAYS, policyDays)
  {
    var active := Active(SortedRuns(history));
    var gaps := ObservationGaps(active);
    LargestBounds(gaps, i);
    var e := EvidenceOf(SortedRuns(history));
    CadenceHeld(e, policyDays, watchingSince, now, active);
    var days := DynamicObserveDays(history, policyDays, watchingSince, now);
    if days < Max(EXTEND_CAP_DAYS, policyDays) {
      var ceil := Ceil(e.largestGapMs / DAY_MS);
      assert days >= 2 * ceil;
      assert e.largestGapMs / DAY_MS <= ceil as real;
      assert e.largestGapMs <= ceil as real * DAY_MS;
      assert days as real >= 2.0 * ceil as real;
    }
  }

  lemma {:induction false} CadenceHeld(e: Evidence, policyDays: int, watchingSince: Option<real>, now: real,
                                       active: History)
    requires e.activeObservations >= 2 && e.activeObservations == TotalObservations(active)
    requires e.lastActive == EndOf(active)
    ensures DaysFrom(e, policyDays, watchingSince, now)
      >= Min(2 * Ceil(e.largestGapMs / DAY_MS), Max(EXTEND_CAP_DAYS, policyDays))
  {
    assert active != [];
    var gap := e.largestGapMs / DAY_MS;
    if gap <= DENSE_GAP_DAYS {
      assert (Ceil(gap) - 1) as real < 2.0;
      assert Ceil(gap) <= 2;
    }
  }

  // --- Storage does not matter -------------------------------------------------

  lemma {:induction false} ActiveAppend(a: History, b: History)
    ensures Active(a + b) == Active(a) + Active(b)
  {
    if a == [] {
      assert a + b == b;
    } else {
      assert (a + b)[1..] == a[1..] + b;
      ActiveAppend(a[1..], b);
      Assoc(if a[0].value > 0 then [a[0]] else [], Active(a[1..]), Active(b));
    }
  }

  lemma {:induction false} ActivePoints(at: real, step: real, n: nat, value: int)
    ensures Active(Points(at, step, n, value)) == if value > 0 then Points(at, step, n, value) else []
    decreases n
  {
    if n > 0 {
      ActivePoints(at + step, step, n - 1, value);
      assert Points(at, step, n, value)[1..] == Points(at + step, step, n - 1, value);
    }
  }

  lemma {:induction false} ActiveExpand(rs: History)
    ensures Active(ExpandAll(rs)) == ExpandAll(Active(rs))
  {
    if rs != [] {
      var r, rest := rs[0], rs[1..];
      ActiveExpand(rest);
      ActiveAppend(Expand(r), ExpandAll(rest));
      ActivePoints(SpanStart(r.run), StepOf(r.run), ObservationsOf(r.run), r.value);
      if r.value > 0 {
        assert Active(rs)[1..] == Active(rest);
      } else {
        assert Active(rs) == Active(rest);
      }
    }
  }

  lemma {:induction false} PointsObserved(at: real, step: real, n: nat, value: int)
    ensures TotalObservations(Points(at, step, n, value)) == n
    decreases n
  {
    if n > 0 {
      PointsObserved(at + step, step, n - 1, value);
      assert Points(at, step, n, value)[1..] == Points(at + step, step, n - 1, value);
    }
  }

  lemma {:induction false} ExpandObserved(rs: History)
    ensures TotalObservations(ExpandAll(rs)) == TotalObservations(rs)
  {
    if rs != [] {
      ExpandObserved(rs[1..]);
      TotalConcat(Expand(rs[0]), ExpandAll(rs[1..]));
      PointsObserved(SpanStart(rs[0].run), StepOf(rs[0].run), ObservationsOf(rs[0].run), rs[0].value);
    }
  }

  lemma {:induction false} ExpandEndOf(rs: History)
    requires PointsArePoints(rs)
    ensures EndOf(ExpandAll(rs)) == EndOf(rs)
  {
    if rs != [] {
      var rest := rs[1..];
      ExpandEnds(rs[0]);
      ExpandEndOf(rest);
      if rest == [] {
        assert ExpandAll(rs) == Expand(rs[0]);
      } else {
        ExpandAllStarts(rest);
        assert rest[|rest| - 1] == rs[|rs| - 1];
      }
    }
  }

  lemma {:induction false} ActiveAmong(rs: History)
    requires PointsArePoints(rs)
    ensures PointsArePoints(Active(rs))
  {
    if rs != [] {
      ActiveAmong(rs[1..]);
      var rest, all := Active(rs[1..]), Active(rs);
      if rs[0].value > 0 {
        forall i | 0 <= i < |all| && ObservationsOf(all[i].run) == 1
          ensures SpanEnd(all[i].run) == SpanStart(all[i].run)
        {
          assert i > 0 ==> all[i] == rest[i - 1];
        }
      }
    }
  }

  /** The largest of plain intervals. */
  function LargestOf(values: seq<real>): (ms: real)
    ensures ms >= 0.0
  {
    if values == [] then 0.0
    else
      var rest := LargestOf(values[1..]);
      if rest < values[0] then values[0] else rest
  }

  lemma {:induction false} LargestOfAppend(a: seq<real>, b: seq<real>)
    ensures LargestOf(a + b) == if LargestOf(a) < LargestOf(b) then LargestOf(b) else LargestOf(a)
  {
    if a == [] {
      assert a + b == b;
    } else {
      assert (a + b)[1..] == a[1..] + b;
      LargestOfAppend(a[1..], b);
    }
  }

  lemma {:induction false} LargestOfRepeat(ms: real, n: nat)
    requires n >= 1
    ensures LargestOf(Repeat(ms, n)) == if ms > 0.0 then ms else 0.0
    decreases n
  {
    assert Repeat(ms, n)[1..] == Repeat(ms, n - 1);
    if n > 1 {
      LargestOfRepeat(ms, n - 1);
    }
  }

  lemma {:induction false} LargestIsPlain(gaps: seq<Gap>)
    requires Positive(gaps)
    ensures Largest(gaps) == LargestOf(Copies(gaps))
  {
    if gaps != [] {
      var short, last := gaps[..|gaps| - 1], gaps[|gaps| - 1];
      LargestIsPlain(short);
      assert gaps == short + [last];
      CopiesConcat(short, [last]);
      assert Copies([last]) == Repeat(last.ms, last.weight) by {
        assert [last][1..] == [];
        assert Repeat(last.ms, last.weight) + [] == Repeat(last.ms, last.weight);
      }
      LargestOfRepeat(last.ms, last.weight);
      LargestOfAppend(Copies(short), Copies([last]));
    }
  }

  lemma {:induction false} LargestRunLength(rs: History)
    requires PointsArePoints(rs)
    ensures Largest(ObservationGaps(ExpandAll(rs))) == Largest(ObservationGaps(rs))
  {
    ExpandAllGaps(rs);
    GapsPositive(rs);
    GapsPositive(ExpandAll(rs));
    LargestIsPlain(ObservationGaps(rs));
    LargestIsPlain(ObservationGaps(ExpandAll(rs)));
  }

  /** The window does not depend on how the history is stored: written out as the sightings
      its runs stand for, the same history earns the same window. */
  lemma {:induction false} WindowRunLength(history: History, policyDays: int, watchingSince: Option<real>, now: real)
    requires Chained(history) && PointsArePoints(history)
    ensures DynamicObserveDays(ExpandAll(history), policyDays, watchingSince, now)
      == DynamicObserveDays(history, policyDays, watchingSince, now)
  {
    ChainedAscends(history);
    SortedAlready(history);
    ExpandAllChained(history);
    ChainedAscends(ExpandAll(history));
    SortedAlready(ExpandAll(history));
    EvidenceRunLength(history);
  }

  lemma {:induction false} EvidenceRunLength(rs: History)
    requires PointsArePoints(rs)
    ensures EvidenceOf(ExpandAll(rs)) == EvidenceOf(rs)
  {
    ActiveExpand(rs);
    ActiveAmong(rs);
    ExpandObserved(rs);
    ExpandObserved(Active(rs));
    ExpandEndOf(rs);
    ExpandEndOf(Active(rs));
    LargestRunLength(Active(rs));
    if rs != [] {
      ExpandAllStarts(rs);
    }
  }
}
