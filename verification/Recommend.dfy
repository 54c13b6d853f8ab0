/** Proposing drops for one collection (apps/api/src/analysis/recommend.ts): redundant
    indexes, unused ones, and the findings left to a human. */
module Recommend {
  import opened Engine
  import opened Documents
  import opened Redundancy
  import opened Classify

  datatype IndexInput = IndexInput(spec: IndexSpec, usage: UsageFold, pendingRemoval: bool)

  datatype Kind = DropRedundant | DropUnused | AdvisoryReview

  /** `evidenceDays` is the trusted watch behind a usage finding, none for a structural one. */
  datatype Candidate = Candidate(
    kind: Kind,
    indexName: string,
    usageClass: Option<UsageClass>,
    evidenceDays: Option<int>)

  /** What the pass is run with. */
  datatype Context = Context(options: ClassifyOptions, now: real, activeHours: Option<real>)

  predicate Trusted(index: IndexInput, ctx: Context) {
    UsageTrustRefusal(index.usage, ctx.options, ctx.now, ctx.activeHours).None?
  }

  function ClassOf(index: IndexInput, ctx: Context): UsageClass {
    ClassifyUsageFrom(index.usage, ctx.options)
  }

  /** Enough history to say so, and it says nobody uses it. */
  predicate LooksDead(index: IndexInput, ctx: Context) {
    Trusted(index, ctx) && (ClassOf(index, ctx).FlatZero? || ClassOf(index, ctx).PeriodicDead?)
  }

  predicate Covers(indexes: seq<IndexInput>, j: nat, spec: IndexSpec)
    requires j < |indexes|
  {
    !indexes[j].pendingRemoval && IsRedundantPrefix(spec, indexes[j].spec)
  }

  predicate Redundant(indexes: seq<IndexInput>, index: IndexInput) {
    !IsNeverDrop(index.spec) && exists j :: 0 <= j < |indexes| && Covers(indexes, j, index.spec)
  }

  predicate Unused(indexes: seq<IndexInput>, index: IndexInput, ctx: Context) {
    !IsNeverDrop(index.spec) && !Redundant(indexes, index) && LooksDead(index, ctx)
  }

  predicate AccessPath(index: IndexInput, ctx: Context) {
    HideBreaksQueries(index.spec) && LooksDead(index, ctx)
  }

  predicate Wider(indexes: seq<IndexInput>, j: nat, spec: IndexSpec)
    requires j < |indexes|
  {
    !indexes[j].pendingRemoval && IsKeyPrefix(spec, indexes[j].spec) && CoversIncludes(spec, indexes[j].spec)
  }

  predicate UniquePrefix(indexes: seq<IndexInput>, index: IndexInput, ctx: Context) {
    && index.spec.unique && index.spec.name != "_id_" && !index.spec.isShardKey && !AccessPath(index, ctx)
    && exists j :: 0 <= j < |indexes| && Wider(indexes, j, index.spec)
  }

  function WatchDays(index: IndexInput): Option<int> {
    Some((index.usage.trustedWatchMs / (24.0 * HOUR_MS)).Floor)
  }

  function UsageFinding(kind: Kind, index: IndexInput, ctx: Context): Candidate {
    Candidate(kind, index.spec.name, Some(ClassOf(index, ctx)), WatchDays(index))
  }

  /** What each of the four passes says of one index. */
  function Finding(pass: nat, indexes: seq<IndexInput>, index: IndexInput, ctx: Context): Option<Candidate> {
    var name := index.spec.name;
    if pass == 0 then
      if Redundant(indexes, index) then Some(Candidate(DropRedundant, name, None, None)) else None
    else if pass == 1 then
      if Unused(indexes, index, ctx) then Some(UsageFinding(DropUnused, index, ctx)) else None
    else if pass == 2 then
      if AccessPath(index, ctx) then Some(UsageFinding(AdvisoryReview, index, ctx)) else None
    else
      if UniquePrefix(indexes, index, ctx) then Some(Candidate(AdvisoryReview, name, None, None)) else None
  }

  function Pass(pass: nat, indexes: seq<IndexInput>, n: nat, ctx: Context): seq<Candidate>
    requires n <= |indexes|
  {
    if n == 0 then []
    else
      var before, found := Pass(pass, indexes, n - 1, ctx), Finding(pass, indexes, indexes[n - 1], ctx);
      if found.Some? then before + [found.value] else before
  }

  function Recommended(indexes: seq<IndexInput>, ctx: Context): seq<Candidate> {
    var n := |indexes|;
    Pass(0, indexes, n, ctx) + Pass(1, indexes, n, ctx) + Pass(2, indexes, n, ctx) + Pass(3, indexes, n, ctx)
  }

  predicate NamesDiffer(indexes: seq<IndexInput>) {
    forall i, j :: 0 <= i < j < |indexes| ==> indexes[i].spec.name != indexes[j].spec.name
  }

  /** The four loops, with the sets of names the later ones consult. */
  method RecommendForCollection(indexes: seq<IndexInput>, ctx: Context) returns (candidates: seq<Candidate>)
    requires NamesDiffer(indexes)
    ensures candidates == Recommended(indexes, ctx)
  {
    var dropRedundant, redundant := RedundantLoop(indexes, ctx);
    var dropUnused := UnusedLoop(indexes, redundant, ctx);
    var advisory, advised := AccessPathLoop(indexes, ctx);
    var unique := UniqueLoop(indexes, advised, ctx);
    candidates := dropRedundant + dropUnused + advisory + unique;
  }

  method RedundantLoop(indexes: seq<IndexInput>, ctx: Context) returns (candidates: seq<Candidate>, names: set<string>)
    requires NamesDiffer(indexes)
    ensures candidates == Pass(0, indexes, |indexes|, ctx)
    ensures forall i :: 0 <= i < |indexes| ==> (indexes[i].spec.name in names <==> Redundant(indexes, indexes[i]))
  {
    candidates, names := [], {};
    for n := 0 to |indexes|
      invariant candidates == Pass(0, indexes, n, ctx)
      invariant forall i :: 0 <= i < |indexes| ==>
        (indexes[i].spec.name in names <==> i < n && Redundant(indexes, indexes[i]))
    {
      if !IsNeverDrop(indexes[n].spec) && exists j :: 0 <= j < |indexes| && Covers(indexes, j, indexes[n].spec) {
        names := names + {indexes[n].spec.name};
        candidates := candidates + [Candidate(DropRedundant, indexes[n].spec.name, None, None)];
      }
    }
  }

  method UnusedLoop(indexes: seq<IndexInput>, redundant: set<string>, ctx: Context) returns (candidates: seq<Candidate>)
    requires forall i :: 0 <= i < |indexes| ==> (indexes[i].spec.name in redundant <==> Redundant(indexes, indexes[i]))
    ensures candidates == Pass(1, indexes, |indexes|, ctx)
  {
    candidates := [];
    for n := 0 to |indexes|
      invariant candidates == Pass(1, indexes, n, ctx)
    {
      var index := indexes[n];
      if !IsNeverDrop(index.spec) && index.spec.name !in redundant && LooksDead(index, ctx) {
        candidates := candidates + [UsageFinding(DropUnused, index, ctx)];
      }
    }
  }

  method AccessPathLoop(indexes: seq<IndexInput>, ctx: Context)
    returns (candidates: seq<Candidate>, advised: set<string>)
    requires NamesDiffer(indexes)
    ensures candidates == Pass(2, indexes, |indexes|, ctx)
    ensures forall i :: 0 <= i < |indexes| ==> (indexes[i].spec.name in advised <==> AccessPath(indexes[i], ctx))
  {
    candidates, advised := [], {};
    for n := 0 to |indexes|
      invariant candidates == Pass(2, indexes, n, ctx)
      invariant forall i :: 0 <= i < |indexes| ==>
        (indexes[i].spec.name in advised <==> i < n && AccessPath(indexes[i], ctx))
    {
      var index := indexes[n];
      if AccessPath(index, ctx) {
        advised := advised + {index.spec.name};
        candidates := candidates + [UsageFinding(AdvisoryReview, index, ctx)];
      }
    }
  }

  method UniqueLoop(indexes: seq<IndexInput>, advised: set<string>, ctx: Context) returns (candidates: seq<Candidate>)
    requires forall i :: 0 <= i < |indexes| ==> (indexes[i].spec.name in advised <==> AccessPath(indexes[i], ctx))
    ensures candidates == Pass(3, indexes, |indexes|, ctx)
  {
    candidates := [];
    for n := 0 to |indexes|
      invariant candidates == Pass(3, indexes, n, ctx)
    {
      var spec := indexes[n].spec;
      if spec.unique && spec.name != "_id_" && !spec.isShardKey && spec.name !in advised
        && exists j :: 0 <= j < |indexes| && Wider(indexes, j, spec)
      {
        candidates := candidates + [Candidate(AdvisoryReview, spec.name, None, None)];
      }
    }
  }

  // --- Dropping what is redundant ----------------------------------------------

  /** Climb from one covering index to a wider one until it is not itself redundant. */
  lemma {:induction false} ClimbToKept(indexes: seq<IndexInput>, i: nat, j: nat, widest: nat)
    requires NamesDiffer(indexes) && i < |indexes| && j < |indexes| && Covers(indexes, j, indexes[i].spec)
    requires forall k :: 0 <= k < |indexes| ==> |indexes[k].spec.keys| <= widest
    ensures exists k :: 0 <= k < |indexes| && Covers(indexes, k, indexes[i].spec) && !Redundant(indexes, indexes[k])
    decreases widest - |indexes[j].spec.keys|
  {
    if Redundant(indexes, indexes[j]) {
      var k :| 0 <= k < |indexes| && Covers(indexes, k, indexes[j].spec);
      assert i != k by {
        assert |indexes[i].spec.keys| < |indexes[j].spec.keys| < |indexes[k].spec.keys|;
      }
      RedundantPrefixTransitive(indexes[i].spec, indexes[j].spec, indexes[k].spec);
      ClimbToKept(indexes, i, k, widest);
    }
  }

  function WidestKeys(indexes: seq<IndexInput>): (w: nat)
    ensures forall k :: 0 <= k < |indexes| ==> |indexes[k].spec.keys| <= w
  {
    if indexes == [] then 0
    else
      var before, last := WidestKeys(indexes[..|indexes| - 1]), |indexes[|indexes| - 1].spec.keys|;
      if last > before then last else before
  }

  /** Dropping every redundant index of a pass at once leaves each of them covered, in
      options, included columns and key order, by an index that stays: one neither
      pending removal nor itself proposed as redundant. */
  lemma {:induction false} RedundantDropsAreSafe(indexes: seq<IndexInput>, i: nat)
    requires NamesDiffer(indexes) && i < |indexes| && Redundant(indexes, indexes[i])
    ensures exists k :: 0 <= k < |indexes| && Covers(indexes, k, indexes[i].spec) && !Redundant(indexes, indexes[k])
  {
    var j :| 0 <= j < |indexes| && Covers(indexes, j, indexes[i].spec);
    ClimbToKept(indexes, i, j, WidestKeys(indexes));
  }

  /** An index that answers whatever the dropped one did: one of its walks presents every
      list of documents in the dropped order, and it holds every column. */
  ghost predicate StandsInFor(kept: IndexSpec, dropped: IndexSpec) {
    && |dropped.keys| < |kept.keys|
    && (forall docs :: Sorted(kept.keys[..|dropped.keys|], docs) ==> !NeitherWalk(dropped.keys, docs))
    && CoveredColumns(dropped) <= CoveredColumns(kept)
  }

  /** The same told in documents. */
  lemma {:induction false} RedundantDropsKeepOrders(indexes: seq<IndexInput>, i: nat)
    requires NamesDiffer(indexes) && i < |indexes| && Redundant(indexes, indexes[i])
    requires AllOrdered(indexes[i].spec.keys)
    ensures exists k ::
      && 0 <= k < |indexes| && !indexes[k].pendingRemoval && !Redundant(indexes, indexes[k])
      && StandsInFor(indexes[k].spec, indexes[i].spec)
  {
    RedundantDropsAreSafe(indexes, i);
    var k :| 0 <= k < |indexes| && Covers(indexes, k, indexes[i].spec) && !Redundant(indexes, indexes[k]);
    CoveredStandsIn(indexes[k].spec, indexes[i].spec);
  }

  lemma {:induction false} CoveredStandsIn(kept: IndexSpec, dropped: IndexSpec)
    requires IsRedundantPrefix(dropped, kept) && AllOrdered(dropped.keys)
    ensures StandsInFor(kept, dropped)
  {
    forall docs | Sorted(kept.keys[..|dropped.keys|], docs) ensures !NeitherWalk(dropped.keys, docs) {
      CoversSound(dropped.keys, kept.keys, docs);
    }
    forall column | column in CoveredColumns(dropped) ensures column in CoveredColumns(kept) {
      if column in Fields(dropped.keys) {
        var p :| 0 <= p < |dropped.keys| && Fields(dropped.keys)[p] == column;
        assert Fields(kept.keys)[p] == kept.keys[p].field == dropped.keys[p].field == column;
      }
    }
  }

  // --- One finding per index ---------------------------------------------------

  lemma {:induction false} FindingsExclude(indexes: seq<IndexInput>, index: IndexInput, ctx: Context, a: nat, b: nat)
    requires a < b <= 3 && Finding(a, indexes, index, ctx).Some?
    ensures Finding(b, indexes, index, ctx).None?
  {
  }

  predicate FoundAt(pass: nat, indexes: seq<IndexInput>, i: nat, ctx: Context, c: Candidate)
    requires i < |indexes|
  {
    Finding(pass, indexes, indexes[i], ctx) == Some(c)
  }

  predicate FoundBefore(pass: nat, indexes: seq<IndexInput>, n: nat, ctx: Context, c: Candidate)
    requires n <= |indexes|
  {
    exists i :: 0 <= i < n && FoundAt(pass, indexes, i, ctx, c)
  }

  predicate NamesWithin(candidates: seq<Candidate>, pass: nat, indexes: seq<IndexInput>, n: nat, ctx: Context)
    requires n <= |indexes|
  {
    forall c :: 0 <= c < |candidates| ==> FoundBefore(pass, indexes, n, ctx, candidates[c])
  }

  predicate NoRepeat(candidates: seq<Candidate>) {
    forall c, d :: 0 <= c < d < |candidates| ==> candidates[c].indexName != candidates[d].indexName
  }

  lemma {:induction false} FindingName(pass: nat, indexes: seq<IndexInput>, index: IndexInput, ctx: Context)
    requires Finding(pass, indexes, index, ctx).Some?
    ensures Finding(pass, indexes, index, ctx).value.indexName == index.spec.name
  {
  }

  lemma {:induction false} PassFindings(pass: nat, indexes: seq<IndexInput>, n: nat, ctx: Context)
    requires n <= |indexes| && NamesDiffer(indexes)
    ensures NamesWithin(Pass(pass, indexes, n, ctx), pass, indexes, n, ctx)
    ensures NoRepeat(Pass(pass, indexes, n, ctx))
  {
    if n > 0 {
      PassFindings(pass, indexes, n - 1, ctx);
      var before, found := Pass(pass, indexes, n - 1, ctx), Finding(pass, indexes, indexes[n - 1], ctx);
      StillWithin(before, pass, indexes, n, ctx);
      if found.Some? {
        PassGrows(before, pass, indexes, n, ctx, found.value);
      }
    }
  }

  lemma {:induction false} StillWithin(before: seq<Candidate>, pass: nat, indexes: seq<IndexInput>, n: nat,
                                       ctx: Context)
    requires 0 < n <= |indexes| && NamesWithin(before, pass, indexes, n - 1, ctx)
    ensures NamesWithin(before, pass, indexes, n, ctx)
  {
    forall c | 0 <= c < |before| ensures FoundBefore(pass, indexes, n, ctx, before[c]) {
      assert FoundBefore(pass, indexes, n - 1, ctx, before[c]);
      var i :| 0 <= i < n - 1 && FoundAt(pass, indexes, i, ctx, before[c]);
    }
  }

  lemma {:induction false} PassGrows(before: seq<Candidate>, pass: nat, indexes: seq<IndexInput>, n: nat,
                                     ctx: Context, found: Candidate)
    requires 0 < n <= |indexes| && NamesDiffer(indexes) && FoundAt(pass, indexes, n - 1, ctx, found)
    requires NamesWithin(before, pass, indexes, n - 1, ctx) && NamesWithin(before, pass, indexes, n, ctx)
    requires NoRepeat(before)
    ensures NamesWithin(before + [found], pass, indexes, n, ctx) && NoRepeat(before + [found])
  {
    var after := before + [found];
    forall c | 0 <= c < |after| ensures FoundBefore(pass, indexes, n, ctx, after[c]) {
      if c < |before| {
        assert after[c] == before[c];
      } else {
        assert after[c] == found;
      }
    }
    forall c | 0 <= c < |before| ensures before[c].indexName != found.indexName {
      assert FoundBefore(pass, indexes, n - 1, ctx, before[c]);
      var i :| 0 <= i < n - 1 && FoundAt(pass, indexes, i, ctx, before[c]);
      FindingName(pass, indexes, indexes[i], ctx);
      FindingName(pass, indexes, indexes[n - 1], ctx);
    }
  }

  predicate Apart(x: seq<Candidate>, y: seq<Candidate>) {
    forall c, d :: 0 <= c < |x| && 0 <= d < |y| ==> x[c].indexName != y[d].indexName
  }

  lemma {:induction false} PassesApart(indexes: seq<IndexInput>, ctx: Context, a: nat, b: nat)
    requires NamesDiffer(indexes) && a < b <= 3
    ensures Apart(Pass(a, indexes, |indexes|, ctx), Pass(b, indexes, |indexes|, ctx))
  {
    var n := |indexes|;
    var x, y := Pass(a, indexes, n, ctx), Pass(b, indexes, n, ctx);
    PassFindings(a, indexes, n, ctx);
    PassFindings(b, indexes, n, ctx);
    forall c, d | 0 <= c < |x| && 0 <= d < |y| ensures x[c].indexName != y[d].indexName {
      var i :| 0 <= i < n && FoundAt(a, indexes, i, ctx, x[c]);
      var j :| 0 <= j < n && FoundAt(b, indexes, j, ctx, y[d]);
      FindingName(a, indexes, indexes[i], ctx);
      FindingName(b, indexes, indexes[j], ctx);
      FindingsExclude(indexes, indexes[i], ctx, a, b);
    }
  }

  lemma {:induction false} NoRepeatConcat(a: seq<Candidate>, b: seq<Candidate>, rest: seq<Candidate>)
    requires NoRepeat(a) && NoRepeat(b) && Apart(a, b) && Apart(a, rest) && Apart(b, rest)
    ensures NoRepeat(a + b) && Apart(a + b, rest)
  {
  }

  /** No index is proposed twice in a pass: a redundant one is not also called unused,
      and what only a human may drop is never proposed for dropping. */
  lemma {:induction false} OneFindingEach(indexes: seq<IndexInput>, ctx: Context)
    requires NamesDiffer(indexes)
    ensures NoRepeat(Recommended(indexes, ctx))
  {
    var n := |indexes|;
    var p0, p1 := Pass(0, indexes, n, ctx), Pass(1, indexes, n, ctx);
    var p2, p3 := Pass(2, indexes, n, ctx), Pass(3, indexes, n, ctx);
    forall a: nat | a <= 3 ensures NoRepeat(Pass(a, indexes, n, ctx)) {
      PassFindings(a, indexes, n, ctx);
    }
    forall a: nat, b: nat | a < b <= 3 ensures Apart(Pass(a, indexes, n, ctx), Pass(b, indexes, n, ctx)) {
      PassesApart(indexes, ctx, a, b);
    }
    FourApart(p0, p1, p2, p3);
  }

  lemma {:induction false} FourApart(p0: seq<Candidate>, p1: seq<Candidate>, p2: seq<Candidate>, p3: seq<Candidate>)
    requires NoRepeat(p0) && NoRepeat(p1) && NoRepeat(p2) && NoRepeat(p3)
    requires Apart(p0, p1) && Apart(p0, p2) && Apart(p0, p3) && Apart(p1, p2) && Apart(p1, p3) && Apart(p2, p3)
    ensures NoRepeat(p0 + p1 + p2 + p3)
  {
    NoRepeatConcat(p0, p1, p2);
    NoRepeatConcat(p0, p1, p3);
    NoRepeatConcat(p0 + p1, p2, p3);
    NoRepeatConcat(p0 + p1 + p2, p3, []);
  }

  // --- What is left of the cover -----------------------------------------------

  predicate Drops(c: Candidate, name: string) {
    (c.kind.DropRedundant? || c.kind.DropUnused?) && c.indexName == name
  }

  /** The pass proposes to drop the index. */
  predicate NamedForDrop(candidates: seq<Candidate>, name: string) {
    exists c :: 0 <= c < |candidates| && Drops(candidates[c], name)
  }

  lemma {:induction false} PassHolds(pass: nat, indexes: seq<IndexInput>, n: nat, ctx: Context, k: nat)
    requires k < n <= |indexes| && Finding(pass, indexes, indexes[k], ctx).Some?
    ensures Finding(pass, indexes, indexes[k], ctx).value in Pass(pass, indexes, n, ctx)
    decreases n
  {
    if k < n - 1 {
      PassHolds(pass, indexes, n - 1, ctx, k);
    }
  }

  lemma {:induction false} PassKind(pass: nat, indexes: seq<IndexInput>, ctx: Context, c: Candidate, k: nat)
    requires pass <= 3 && NamesDiffer(indexes) && k < |indexes|
    requires c in Pass(pass, indexes, |indexes|, ctx) && Drops(c, indexes[k].spec.name)
    ensures Redundant(indexes, indexes[k]) || Unused(indexes, indexes[k], ctx)
  {
    var found := Pass(pass, indexes, |indexes|, ctx);
    PassFindings(pass, indexes, |indexes|, ctx);
    var at :| 0 <= at < |found| && found[at] == c;
    assert FoundBefore(pass, indexes, |indexes|, ctx, found[at]);
    var i :| 0 <= i < |indexes| && FoundAt(pass, indexes, i, ctx, c);
    FindingName(pass, indexes, indexes[i], ctx);
    assert i == k;
  }

  /** The list drops exactly the indexes judged redundant or unused. */
  lemma {:induction false} DropsExactly(indexes: seq<IndexInput>, ctx: Context, k: nat)
    requires NamesDiffer(indexes) && k < |indexes|
    ensures NamedForDrop(Recommended(indexes, ctx), indexes[k].spec.name)
      <==> Redundant(indexes, indexes[k]) || Unused(indexes, indexes[k], ctx)
  {
    var n, all, name := |indexes|, Recommended(indexes, ctx), indexes[k].spec.name;
    if NamedForDrop(all, name) {
      var at :| 0 <= at < |all| && Drops(all[at], name);
      var pass: nat :| pass <= 3 && all[at] in Pass(pass, indexes, n, ctx);
      PassKind(pass, indexes, ctx, all[at], k);
    }
    if Redundant(indexes, indexes[k]) || Unused(indexes, indexes[k], ctx) {
      var pass := if Redundant(indexes, indexes[k]) then 0 else 1;
      PassHolds(pass, indexes, n, ctx, k);
      var c := Finding(pass, indexes, indexes[k], ctx).value;
      assert c in all && Drops(c, name);
    }
  }

  predicate StaysCovering(indexes: seq<IndexInput>, ctx: Context, spec: IndexSpec, k: nat)
    requires k < |indexes|
  {
    Covers(indexes, k, spec) && !NamedForDrop(Recommended(indexes, ctx), indexes[k].spec.name)
  }

  predicate KeepsCovering(indexes: seq<IndexInput>, ctx: Context, spec: IndexSpec, k: nat)
    requires k < |indexes|
  {
    && Covers(indexes, k, spec) && !Redundant(indexes, indexes[k])
    && (IsNeverDrop(indexes[k].spec) || !LooksDead(indexes[k], ctx))
  }

  /** A cover of a redundant index is left alone by the whole list if and only if some cover
      that is not itself redundant is protected or does not look dead. */
  lemma {:induction false} CoverStaysExactly(indexes: seq<IndexInput>, ctx: Context, i: nat)
    requires NamesDiffer(indexes) && i < |indexes| && Redundant(indexes, indexes[i])
    ensures (exists k :: 0 <= k < |indexes| && StaysCovering(indexes, ctx, indexes[i].spec, k))
      <==> (exists k :: 0 <= k < |indexes| && KeepsCovering(indexes, ctx, indexes[i].spec, k))
  {
    forall k | 0 <= k < |indexes|
      ensures StaysCovering(indexes, ctx, indexes[i].spec, k) <==> KeepsCovering(indexes, ctx, indexes[i].spec, k)
    {
      DropsExactly(indexes, ctx, k);
    }
  }

  // --- Where nothing is left ---------------------------------------------------

  function PlainIndex(name: string, keys: seq<Key>): IndexSpec {
    IndexSpec(name, keys, false, false, false, None, false, false, false, None, [])
  }

  /** A hundred collects over thirty days, and nothing ever moved. */
  const IDLE := UsageFold(1, 100, 0, 30.0 * 24.0 * HOUR_MS, Some(0.0), None, 0.0, [])

  /** Seven days of history asked for, gaps of two days tolerated. */
  const USUAL := Context(ClassifyOptions(168.0, 10, 7.0, 0.0, 48.0), 0.0, None)

  function Pair(a: string, b: string): seq<IndexInput> {
    [ IndexInput(PlainIndex("narrow", [Key(a, Asc)]), IDLE, false),
      IndexInput(PlainIndex("wide", [Key(a, Asc), Key(b, Asc)]), IDLE, false)]
  }

  /** Two idle indexes, one a prefix of the other: both are dropped by one list, so the cover
      is only promised against redundant drops. */
  lemma {:induction false} CoverMayBeUnused(a: string, b: string)
    requires a != b
    ensures
      var indexes := Pair(a, b);
      && NamesDiffer(indexes) && Redundant(indexes, indexes[0])
      && NamedForDrop(Recommended(indexes, USUAL), "narrow") && NamedForDrop(Recommended(indexes, USUAL), "wide")
      && forall k :: 0 <= k < |indexes| ==> !StaysCovering(indexes, USUAL, indexes[0].spec, k)
  {
    var indexes := Pair(a, b);
    var narrow, wide := indexes[0].spec, indexes[1].spec;
    assert narrow.name[0] == 'n' && wide.name[0] == 'w' && "_id_"[0] == '_';
    assert Covers(indexes, 1, narrow);
    assert !Covers(indexes, 0, narrow) && !Covers(indexes, 0, wide) && !Covers(indexes, 1, wide);
    assert LooksDead(indexes[1], USUAL);
    assert Unused(indexes, indexes[1], USUAL);
    DropsExactly(indexes, USUAL, 0);
    DropsExactly(indexes, USUAL, 1);
  }
}
