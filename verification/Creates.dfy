/** Proposing indexes from query shapes (recommendCreates in
    apps/api/src/analysis/workload.ts): collect, consolidate, emit. */
module Creates {
  import opened Engine
  import opened Redundancy
  import opened Esr
  import opened Serving
  import opened Leads
  import opened Wants
  import opened FoldLoop
  import opened Consolidation
  import opened Collection
  import opened FoldMeaning

  // --- Emission ----------------------------------------------------------------

  datatype Kind = Create | Update | Merge

  datatype CreateCandidate = CreateCandidate(
    kind: Kind,
    keys: seq<SortKey>,
    retire: seq<string>,
    count: nat,
    scanning: bool,
    partialFilter: Option<Filter>,
    sources: seq<nat>)

  predicate IsPrefix(shorter: seq<string>, longer: seq<string>) {
    shorter != [] && shorter < longer
  }

  predicate SameDocuments(index: IndexSpec, filter: Option<Filter>) {
    !IsNeverDrop(index) && SameFilter(index.partialFilter, filter)
  }

  predicate Extends(index: IndexSpec, wanted: seq<string>, filter: Option<Filter>) {
    SameDocuments(index, filter) && IsPrefix(Fields(index.keys), wanted)
  }

  predicate Single(index: IndexSpec, wanted: seq<string>, filter: Option<Filter>) {
    SameDocuments(index, filter) && |index.keys| == 1 && index.keys[0].field in wanted
  }

  function FirstExtended(existing: seq<IndexSpec>, wanted: seq<string>, filter: Option<Filter>)
    : (found: Option<IndexSpec>)
    ensures found.Some? ==> found.value in existing && Extends(found.value, wanted, filter)
  {
    if existing == [] then None
    else if Extends(existing[0], wanted, filter) then Some(existing[0])
    else FirstExtended(existing[1..], wanted, filter)
  }

  function Singles(existing: seq<IndexSpec>, wanted: seq<string>, filter: Option<Filter>): (found: seq<IndexSpec>)
    ensures forall i :: 0 <= i < |found| ==> found[i] in existing && Single(found[i], wanted, filter)
  {
    if existing == [] then []
    else (if Single(existing[0], wanted, filter) then [existing[0]] else []) + Singles(existing[1..], wanted, filter)
  }

  function Names(indexes: seq<IndexSpec>): seq<string> {
    seq(|indexes|, i requires 0 <= i < |indexes| => indexes[i].name)
  }

  predicate HasFields(existing: seq<IndexSpec>, wanted: seq<string>) {
    exists i :: 0 <= i < |existing| && Fields(existing[i].keys) == wanted
  }

  function Propose(w: Want, existing: seq<IndexSpec>): CreateCandidate {
    var keys := LeadWith(w);
    var wanted := Fields(keys);
    var extended := FirstExtended(existing, wanted, w.partialFilter);
    var singles := Singles(existing, wanted, w.partialFilter);
    var kind, retire :=
      if extended.Some? then Update else if |singles| >= 2 then Merge else Create,
      if extended.Some? then [extended.value.name] else if |singles| >= 2 then Names(singles) else [];
    CreateCandidate(kind, keys, retire, CountOf(w), w.scanning, w.partialFilter, w.sources)
  }

  datatype Outcome = Outcome(candidates: seq<CreateCandidate>, declined: seq<Decline>)

  function DeclineAll(sources: seq<nat>): seq<Decline> {
    seq(|sources|, i requires 0 <= i < |sources| => Decline(sources[i], IndexExists))
  }

  /** A survivor becomes a candidate, unless an index already has its final fields. */
  function EmitOne(out: Outcome, w: Want, existing: seq<IndexSpec>): Outcome {
    if HasFields(existing, Fields(LeadWith(w))) then Outcome(out.candidates, out.declined + DeclineAll(w.sources))
    else Outcome(out.candidates + [Propose(w, existing)], out.declined)
  }

  type Emitter = (Outcome, Want) -> Outcome

  function EmitterFor(existing: seq<IndexSpec>): Emitter {
    (out, w) => EmitOne(out, w, existing)
  }

  /** The survivors among the first `n` wants, each emitted in turn. */
  function Emit(st: Folding<Want>, n: nat, emitter: Emitter, declined: seq<Decline>): Outcome
    requires n <= |st.items|
  {
    if n == 0 then Outcome([], declined)
    else
      var before := Emit(st, n - 1, emitter, declined);
      if Alive(st.into, n - 1) then emitter(before, st.items[n - 1]) else before
  }

  function RecommendedCreates(shapes: seq<QueryShape>, existing: seq<IndexSpec>, options: CreateOptions): Outcome {
    var collected := Collect(shapes, existing, options);
    var final := Final(SortWants(collected.wants));
    Emit(final, |final.items|, EmitterFor(existing), collected.declined)
  }

  method RecommendCreates(shapes: seq<QueryShape>, existing: seq<IndexSpec>, options: CreateOptions)
    returns (candidates: seq<CreateCandidate>, declined: seq<Decline>)
    ensures Outcome(candidates, declined) == RecommendedCreates(shapes, existing, options)
  {
    var wants: seq<Want>;
    wants, declined := CollectLoop(shapes, existing, options);
    ghost var collected := declined;
    wants := SortWants(wants);
    var into: seq<Option<nat>>;
    wants, into := ConsolidateLoop(wants);
    ghost var st := Folding(wants, into);
    candidates := [];
    for i := 0 to |wants|
      invariant Outcome(candidates, declined) == Emit(st, i, EmitterFor(existing), collected)
    {
      if into[i].None? {
        var keys := LeadWith(wants[i]);
        if HasFields(existing, Fields(keys)) {
          declined := declined + DeclineAll(wants[i].sources);
        } else {
          candidates := candidates + [Propose(wants[i], existing)];
        }
      }
    }
  }

  // --- Conservation ------------------------------------------------------------

  ghost function CandidateSources(candidates: seq<CreateCandidate>): multiset<nat> {
    if candidates == [] then multiset{}
    else CandidateSources(candidates[..|candidates| - 1]) + multiset(candidates[|candidates| - 1].sources)
  }

  lemma {:induction false} DeclinedConcat(a: seq<Decline>, b: seq<Decline>)
    ensures DeclinedShapes(a + b) == DeclinedShapes(a) + DeclinedShapes(b)
    decreases |b|
  {
    if b == [] {
      assert a + b == a;
    } else {
      var short := b[..|b| - 1];
      assert (a + b)[..|a + b| - 1] == a + short;
      DeclinedConcat(a, short);
    }
  }

  lemma {:induction false} DeclinedOf(sources: seq<nat>)
    ensures DeclinedShapes(DeclineAll(sources)) == multiset(sources)
  {
    if sources != [] {
      var short, last := sources[..|sources| - 1], sources[|sources| - 1];
      DeclinedOf(short);
      assert DeclineAll(sources)[..|sources| - 1] == DeclineAll(short);
      assert sources == short + [last];
    }
  }

  ghost function Settled(out: Outcome): multiset<nat> {
    DeclinedShapes(out.declined) + CandidateSources(out.candidates)
  }

  lemma {:induction false} EmitOneSettles(out: Outcome, w: Want, existing: seq<IndexSpec>)
    ensures Settled(EmitOne(out, w, existing)) == Settled(out) + SourcesOf(w)
  {
    if HasFields(existing, Fields(LeadWith(w))) {
      DeclinedConcat(out.declined, DeclineAll(w.sources));
      DeclinedOf(w.sources);
    } else {
      CandidateAppend(out.candidates, Propose(w, existing));
    }
  }

  lemma {:induction false} CandidateAppend(candidates: seq<CreateCandidate>, c: CreateCandidate)
    ensures CandidateSources(candidates + [c]) == CandidateSources(candidates) + multiset(c.sources)
  {
    assert (candidates + [c])[..|candidates|] == candidates;
  }

  lemma {:induction false} EmitSettles(st: Folding<Want>, n: nat, emitter: Emitter, declined: seq<Decline>)
    requires n <= |st.items|
    requires forall out, w :: Settled(emitter(out, w)) == Settled(out) + SourcesOf(w)
    ensures Settled(Emit(st, n, emitter, declined)) == DeclinedShapes(declined) + AliveBag(st, n, SourcesOf)
  {
    if n > 0 {
      EmitSettles(st, n - 1, emitter, declined);
    }
  }

  /** Every scanning or sorting shape is declined or credited to a candidate, exactly
      once, and no other shape is. */
  lemma {:induction false} CreatesConserve(shapes: seq<QueryShape>, existing: seq<IndexSpec>, options: CreateOptions)
    ensures
      var out := RecommendedCreates(shapes, existing, options);
      DeclinedShapes(out.declined) + CandidateSources(out.candidates) == Findings(shapes, |shapes|)
  {
    var collected := Collect(shapes, existing, options);
    assert PassesOver(JudgeBy(options));
    CollectConserves(shapes, |shapes|, JudgeBy(options), ServerOf(existing));
    var sorted := SortWants(collected.wants);
    SortConserves(collected.wants);
    ConsolidateConserves(sorted);
    forall out, w ensures Settled(EmitterFor(existing)(out, w)) == Settled(out) + SourcesOf(w) {
      EmitOneSettles(out, w, existing);
    }
    EmitSettles(Final(sorted), |sorted|, EmitterFor(existing), collected.declined);
  }

  ghost function SumOfCounts(wants: seq<Want>): nat {
    if wants == [] then 0 else SumOfCounts(wants[..|wants| - 1]) + wants[|wants| - 1].shape.count
  }

  lemma {:induction false} FreshCounts(wants: seq<Want>, n: nat)
    requires n <= |wants| && forall i :: 0 <= i < |wants| ==> wants[i].absorbedCount == 0
    ensures AliveSum(Folding(wants, []), n, CountOf) == SumOfCounts(wants[..n])
  {
    if n > 0 {
      FreshCounts(wants, n - 1);
      assert wants[..n][..n - 1] == wants[..n - 1];
    }
  }

  /** The counts of the survivors add up to the counts of the shapes wants are named for. */
  lemma {:induction false} CountsConserve(shapes: seq<QueryShape>, existing: seq<IndexSpec>, options: CreateOptions)
    ensures
      var wants := Collect(shapes, existing, options).wants;
      AliveCount(Final(SortWants(wants))) == SumOfCounts(wants)
  {
    var wants := Collect(shapes, existing, options).wants;
    CollectGenuine(shapes, existing, options);
    SortConserves(wants);
    ConsolidateConserves(SortWants(wants));
    assert forall i :: 0 <= i < |wants| ==> Genuine(shapes, options, wants[i]);
    FreshCounts(wants, |wants|);
    assert wants[..|wants|] == wants;
  }

  // --- What a candidate is -----------------------------------------------------

  /** The wants consolidation starts from, sorted, are still what was collected. */
  lemma {:induction false} SortedGenuine(shapes: seq<QueryShape>, existing: seq<IndexSpec>, options: CreateOptions)
    ensures
      var sorted := SortWants(Collect(shapes, existing, options).wants);
      && Primaried(sorted) && NarrowestFirst(sorted)
      && AllWellFormed(sorted)
      && forall i :: 0 <= i < |sorted| ==>
        sorted[i] in Collect(shapes, existing, options).wants && Genuine(shapes, options, sorted[i])
  {
    var wants := Collect(shapes, existing, options).wants;
    CollectOrdered(shapes, |shapes|, JudgeBy(options), ServerOf(existing));
    CollectGenuine(shapes, existing, options);
    SortNarrowest(wants);
    var sorted := SortWants(wants);
    forall i | 0 <= i < |sorted| ensures sorted[i] in wants && Genuine(shapes, options, sorted[i]) {
      assert sorted[i] in sorted;
    }
  }

  predicate Emitted(w: Want, existing: seq<IndexSpec>, c: CreateCandidate) {
    c == Propose(w, existing) && !HasFields(existing, Fields(LeadWith(w)))
  }

  /** Candidates are the proposals of the survivors no index already matches. */
  lemma {:induction false} EmittedFrom(st: Folding<Want>, n: nat, existing: seq<IndexSpec>, declined: seq<Decline>,
                                       c: CreateCandidate)
    requires n <= |st.items| && c in Emit(st, n, EmitterFor(existing), declined).candidates
    ensures exists i :: 0 <= i < n && Alive(st.into, i) && Emitted(st.items[i], existing, c)
  {
    if c in Emit(st, n - 1, EmitterFor(existing), declined).candidates {
      EmittedFrom(st, n - 1, existing, declined, c);
    } else {
      assert Emitted(st.items[n - 1], existing, c);
    }
  }

  /** A candidate retires only droppable indexes on the same documents, either one whose
      fields its own extend or single-field ones it holds; and it is not an index that is
      there already. */
  ghost predicate Retires(c: CreateCandidate, existing: seq<IndexSpec>) {
    && !HasFields(existing, Fields(c.keys))
    && (forall name :: name in c.retire ==>
          exists index :: index in existing && index.name == name
            && !IsNeverDrop(index) && index.partialFilter == c.partialFilter
            && (if c.kind.Update? then IsPrefix(Fields(index.keys), Fields(c.keys))
                else |index.keys| == 1 && index.keys[0].field in Fields(c.keys)))
    && (c.kind.Create? <==> c.retire == [])
    && (c.kind.Merge? ==> |c.retire| >= 2)
  }

  lemma {:induction false} ProposeRetires(w: Want, existing: seq<IndexSpec>)
    requires !HasFields(existing, Fields(LeadWith(w)))
    ensures Retires(Propose(w, existing), existing)
  {
    var c := Propose(w, existing);
    var singles := Singles(existing, Fields(LeadWith(w)), w.partialFilter);
    if c.kind.Merge? {
      forall name | name in c.retire ensures exists i :: 0 <= i < |singles| && singles[i].name == name {
        var i :| 0 <= i < |c.retire| && c.retire[i] == name;
        assert singles[i].name == name;
      }
    }
  }

  /** A candidate is credited to real shapes, scans exactly when one of them does, and
      retires only what it may. */
  lemma {:induction false} CandidateHonest(shapes: seq<QueryShape>, existing: seq<IndexSpec>, options: CreateOptions,
                                           c: CreateCandidate)
    requires c in RecommendedCreates(shapes, existing, options).candidates
    ensures forall p :: 0 <= p < |c.sources| ==> c.sources[p] < |shapes|
    ensures c.scanning <==> exists p :: 0 <= p < |c.sources| && shapes[c.sources[p]].collscan
    ensures Retires(c, existing)
  {
    var sorted := SortWants(Collect(shapes, existing, options).wants);
    SortedGenuine(shapes, existing, options);
    ConsolidateAttributes(shapes, sorted, |sorted|);
    var st := Final(sorted);
    EmittedFrom(st, |sorted|, existing, Collect(shapes, existing, options).declined, c);
    var i :| 0 <= i < |sorted| && Alive(st.into, i) && Emitted(st.items[i], existing, c);
    assert Attributed(shapes, st.items[i]);
    ProposeRetires(st.items[i], existing);
  }

  // --- Once the index is built -------------------------------------------------

  /** Keys laid out as an equality front, the sort and the range serve those blocks. */
  lemma {:induction false} LayoutServes(front: seq<SortKey>, blocks: KeyBlocks)
    requires SameSet(Fields(front), blocks.equality)
    ensures ServesBlocks(front + blocks.sort + Esr.Ascending(blocks.range), blocks)
  {
    var keys := front + blocks.sort + Esr.Ascending(blocks.range);
    var e, s, w := |blocks.equality|, |blocks.sort|, Serving.Width(blocks);
    assert |front| == |Fields(front)| == e;
    assert keys[..e] == front && keys[e..e + s] == blocks.sort;
    assert keys[e + s..w] == Esr.Ascending(blocks.range);
    assert SameSet(blocks.range, blocks.range);
  }

  /** The final keys serve, block for block, the want they came from. */
  lemma {:induction false} FinalServesOwn(w: Want)
    requires WellFormed(w)
    ensures ServesBlocks(LeadWith(w), w.blocks)
  {
    LeadWithLayout(w);
    EqualityBlockKept(w);
    var front := Esr.Ascending(w.lead) + Trailing(w);
    LayoutServes(front, w.blocks);
    Assoc(front, w.blocks.sort, Esr.Ascending(w.blocks.range));
  }

  /** The index a survivor's proposal builds. */
  predicate BuiltFrom(built: IndexSpec, w: Want) {
    built.keys == LeadWith(w) && !built.sparse && built.partialFilter == w.partialFilter
  }

  /** Run again with that index present, recommendCreates declines the survivor's own
      shape because the index exists. */
  lemma {:induction false} RerunDeclinesSurvivor(shapes: seq<QueryShape>, existing: seq<IndexSpec>,
                                                 options: CreateOptions, j: nat, built: IndexSpec)
    requires
      var st := Final(SortWants(Collect(shapes, existing, options).wants));
      j < |st.items| && BuiltFrom(built, st.items[j])
    ensures
      var sorted := SortWants(Collect(shapes, existing, options).wants);
      && sorted[j].sources != []
      && Decline(sorted[j].sources[0], IndexExists) in RecommendedCreates(shapes, existing + [built], options).declined
  {
    var sorted := SortWants(Collect(shapes, existing, options).wants);
    SortedGenuine(shapes, existing, options);
    ConsolidateKeeps(sorted, |sorted|);
    var w := Final(sorted).items[j];
    FinalServesOwn(w);
    RerunDeclines(shapes, existing, options, sorted[j], built);
  }

  /** Without a range, keys serve a want block for block if and only if they begin with its
      equality fields and then its sort. */
  lemma {:induction false} BeginningServes(keys: seq<SortKey>, blocks: KeyBlocks)
    requires blocks.range == []
    ensures ServesBlocks(keys, blocks)
      <==> Leading(blocks.equality, Fields(keys)) && OrderCovers(blocks.sort, keys[|blocks.equality|..])
  {
    var e, s := |blocks.equality|, |blocks.sort|;
    if e <= |keys| {
      assert Fields(keys[..e]) == Fields(keys)[..e];
      CoversIsServed(blocks.sort, keys[e..]);
      if e + s <= |keys| {
        assert keys[e..][..s] == keys[e..e + s];
        assert Fields(keys[e + s..e + s]) == [];
      }
    }
  }

  /** On exactly the wanted fields, or block for block: either way the keys begin with the
      equality fields and then the sort fields. */
  lemma {:induction false} ServedBegins(keys: seq<SortKey>, w: Want)
    requires WellFormed(w) && w.blocks.range == []
    requires Fields(keys) == Fields(w.wantedKeys) || ServesBlocks(keys, w.blocks)
    ensures LeadingThenSort(w.blocks.equality, Fields(w.blocks.sort), Fields(keys))
  {
    if Fields(keys) == Fields(w.wantedKeys) {
      LaidFields(w.wantedKeys, w.blocks);
      var e, s := w.blocks.equality, Fields(w.blocks.sort);
      assert Fields(keys) == e + s;
      assert (e + s)[..|e|] == e && (e + s)[|e|..|e| + |s|] == s;
    } else {
      BeginningServes(keys, w.blocks);
      CoversIsBehind(keys, w.blocks.equality, w.blocks.sort);
    }
  }

  /** What the lead a folded want met has to allow: its sort, where that is served from the
      wider equality block. */
  ghost predicate LeadAllowed(wants: seq<Want>, i: nat, j: nat)
    requires i < |wants| && j < |wants|
  {
    SortFromEquality(wants[i].blocks, wants[j].blocks) ==>
      CompatibleWithSort(Consolidate(wants, i).items[j].lead, wants[i].blocks.equality, Fields(wants[i].blocks.sort))
  }

  /** The survivor's index serves a want without a range that was folded directly into it if
      and only if the lead it met allowed it. */
  lemma {:induction false} FoldedServedExactly(wants: seq<Want>, i: nat, j: nat, built: IndexSpec)
    requires AllWellFormed(wants) && i < |wants| && j < |wants| && Final(wants).into[i] == Some(j)
    requires wants[i].blocks.range == [] && BuiltFrom(built, Final(wants).items[j])
    ensures ServesWant(built, wants[i].wantedKeys, wants[i].blocks, wants[i].partialFilter)
      <==> LeadAllowed(wants, i, j)
  {
    var narrow, wide, final := Meeting(wants, i, j);
    ConsolidateKeeps(wants, |wants|);
    var keys, blocks := LeadWith(final), wants[i].blocks;
    BeginningServes(keys, blocks);
    if SortFromEquality(blocks, wants[j].blocks) {
      SortedFoldLeads(wants, i, j);
      InEqualityCovers(final, blocks.equality, blocks.sort);
      if ServesWant(built, wants[i].wantedKeys, blocks, wants[i].partialFilter) {
        ServedBegins(keys, wants[i]);
      }
    } else {
      DirectFoldBegins(wants, i, j);
    }
  }

  /** Collected again with the survivor's index present, a want without a range that was folded
      directly into it is declined as served if and only if the lead it met allowed it. */
  lemma {:induction false} RerunFoldedExactly(shapes: seq<QueryShape>, existing: seq<IndexSpec>,
                                              options: CreateOptions, i: nat, j: nat, built: IndexSpec)
    requires
      var sorted := SortWants(Collect(shapes, existing, options).wants);
      && i < |sorted| && j < |sorted| && Final(sorted).into[i] == Some(j) && sorted[i].blocks.range == []
      && BuiltFrom(built, Final(sorted).items[j])
    ensures
      var sorted := SortWants(Collect(shapes, existing, options).wants);
      && sorted[i].sources != []
      && (Decline(sorted[i].sources[0], IndexExists) in Collect(shapes, existing + [built], options).declined
          <==> LeadAllowed(sorted, i, j))
  {
    var wants := Collect(shapes, existing, options).wants;
    var sorted := SortWants(wants);
    SortedGenuine(shapes, existing, options);
    FoldedServedExactly(sorted, i, j, built);
    var at :| 0 <= at < |wants| && wants[at] == sorted[i];
    RecollectExactly(shapes, existing, options, built, at);
  }

  /** And then the whole second run declines it. */
  lemma {:induction false} RerunDeclinesFolded(shapes: seq<QueryShape>, existing: seq<IndexSpec>,
                                               options: CreateOptions, i: nat, j: nat, built: IndexSpec)
    requires
      var sorted := SortWants(Collect(shapes, existing, options).wants);
      && i < |sorted| && j < |sorted| && Final(sorted).into[i] == Some(j) && sorted[i].blocks.range == []
      && LeadAllowed(sorted, i, j) && BuiltFrom(built, Final(sorted).items[j])
    ensures
      var sorted := SortWants(Collect(shapes, existing, options).wants);
      && sorted[i].sources != []
      && Decline(sorted[i].sources[0], IndexExists) in RecommendedCreates(shapes, existing + [built], options).declined
  {
    var sorted := SortWants(Collect(shapes, existing, options).wants);
    SortedGenuine(shapes, existing, options);
    FoldedServedExactly(sorted, i, j, built);
    RerunDeclines(shapes, existing, options, sorted[i], built);
  }

  /** Whatever served a collected want's blocks on the same documents declines it. */
  lemma {:induction false} RerunDeclines(shapes: seq<QueryShape>, existing: seq<IndexSpec>, options: CreateOptions,
                                         w: Want, built: IndexSpec)
    requires w in Collect(shapes, existing, options).wants && Genuine(shapes, options, w)
    requires ServesWant(built, w.wantedKeys, w.blocks, w.partialFilter)
    ensures Decline(w.sources[0], IndexExists) in RecommendedCreates(shapes, existing + [built], options).declined
  {
    var judge, server, more := JudgeBy(options), ServerOf(existing), ServerOf(existing + [built]);
    ServedByExtra(existing, built);
    var i :| 0 <= i < |Collect(shapes, existing, options).wants| && Collect(shapes, existing, options).wants[i] == w;
    RecollectDeclines(shapes, judge, server, more, i);
    var again := Collect(shapes, existing + [built], options);
    var final := Final(SortWants(again.wants));
    EmitKeepsDeclines(final, |final.items|, EmitterFor(existing + [built]), again.declined);
  }

  lemma {:induction false} EmitKeepsDeclines(st: Folding<Want>, n: nat, emitter: Emitter, declined: seq<Decline>)
    requires n <= |st.items|
    requires forall out: Outcome, w: Want :: out.declined <= emitter(out, w).declined
    ensures declined <= Emit(st, n, emitter, declined).declined
  {
    if n > 0 {
      EmitKeepsDeclines(st, n - 1, emitter, declined);
    }
  }
}
