/** Does a candidate answer the shapes it is credited to (sourceShapes in
    apps/api/src/analysis/workload.ts)? Shapes that want the same keys join one want; what
    they bind, and on which documents, may differ. */
module Answers {
  import opened Engine
  import opened Documents
  import opened Redundancy
  import opened Esr
  import opened Serving
  import opened Reorder
  import opened Leads
  import opened Wants
  import opened FoldLoop
  import opened Consolidation
  import opened Collection
  import opened Creates
  import opened FoldMeaning

  // --- Fields ------------------------------------------------------------------

  /** The keys a want asked for that are not on its lead. */
  function Remaining(w: Want): seq<SortKey> {
    Without(w.wantedKeys, set f | f in w.lead)
  }

  /** The lead, then the other keys in their own order. */
  lemma {:induction false} FinalFields(w: Want)
    requires WellFormed(w)
    ensures LeadWith(w) == Ascending(w.lead) + Remaining(w)
    ensures Fields(LeadWith(w)) == w.lead + Fields(Remaining(w))
  {
    LeadWithLayout(w);
    WithoutLead(w);
    var front, rest := Ascending(w.lead), Trailing(w);
    Assoc(front, rest, w.blocks.sort + Ascending(w.blocks.range));
    FieldsAppend(front, Remaining(w));
  }

  /** A lead of names among the first keys asked for, completed by the rest of those keys. */
  lemma {:induction false} FrontCompleted(lead: seq<string>, head: seq<SortKey>)
    requires Distinct(lead) && Distinct(Fields(head)) && Within(lead, Fields(head))
    ensures
      var mid := lead + Fields(Without(head, set f | f in lead));
      |mid| == |head| && Within(mid, Fields(head))
  {
    var gone := set f | f in lead;
    var kept := Fields(Without(head, gone));
    WithoutDistinct(head, gone);
    var mid := lead + kept;
    assert Distinct(mid) by {
      forall i, j | 0 <= i < j < |mid| ensures mid[i] != mid[j] {
        if i < |lead| <= j {
          assert kept[j - |lead|] in kept;
        }
      }
    }
    forall i | 0 <= i < |mid| ensures mid[i] in Fields(head) {
      if i >= |lead| {
        assert kept[i - |lead|] in kept;
      }
    }
    forall i | 0 <= i < |head| ensures Fields(head)[i] in mid {
      assert Fields(head)[i] in lead || Fields(head)[i] in kept;
    }
    DistinctSameNames(mid, Fields(head));
  }

  /** The first fields a want asked for are still first in its final keys if and only if its
      lead begins with none but them. */
  lemma {:induction false} FrontLeads(w: Want, names: seq<string>)
    requires WellFormed(w) && names <= Fields(w.wantedKeys)
    ensures Leading(names, Fields(LeadWith(w))) <==> Compatible(w.lead, names)
  {
    var n, keys, fields := |names|, w.wantedKeys, Fields(LeadWith(w));
    FinalFields(w);
    LeadWithPermutes(w);
    if Leading(names, fields) {
      forall i | 0 <= i < |w.lead| && i < n ensures w.lead[i] in names {
        assert fields[..n][i] == w.lead[i];
      }
    }
    if Compatible(w.lead, names) {
      if |w.lead| >= n {
        assert fields[..n] == w.lead[..n];
      } else {
        ShortFront(w, names);
      }
    }
  }

  lemma {:induction false} ShortFront(w: Want, names: seq<string>)
    requires WellFormed(w) && names <= Fields(w.wantedKeys) && Within(w.lead, names)
    ensures Leading(names, Fields(LeadWith(w)))
  {
    var n, keys, gone := |names|, w.wantedKeys, set f | f in w.lead;
    var head, tail := keys[..n], keys[n..];
    assert keys == head + tail;
    FieldsAppend(head, tail);
    assert Fields(head) == names;
    assert forall i :: 0 <= i < n ==> Fields(keys)[i] == names[i];
    FinalFields(w);
    WithoutAppend(head, tail, gone);
    FieldsAppend(Without(head, gone), Without(tail, gone));
    FrontCompleted(w.lead, head);
    var mid := w.lead + Fields(Without(head, gone));
    Assoc(w.lead, Fields(Without(head, gone)), Fields(Without(tail, gone)));
    assert Fields(LeadWith(w))[..n] == mid;
  }

  // --- Documents ---------------------------------------------------------------

  /** A document's literals, as partial filters compare them. */
  type Record = string -> Constant

  ghost predicate HasConstants(shape: QueryShape, d: Record) {
    forall f :: f in ConstantFields(shape) ==> d(f) == shape.constants[f]
  }

  ghost predicate InFilter(filter: Option<Filter>, d: Record) {
    filter.Some? ==> forall f :: f in filter.value ==> d(f) == filter.value[f]
  }

  /** The index holds every document the query can match. */
  ghost predicate HoldsAll(shape: QueryShape, filter: Option<Filter>) {
    forall d: Record :: HasConstants(shape, d) ==> InFilter(filter, d)
  }

  /** The filter says no more than the constants of the query. */
  predicate FilterImplied(shape: QueryShape, filter: Option<Filter>) {
    filter.Some? ==>
      forall f :: f in filter.value ==> f in ConstantFields(shape) && shape.constants[f] == filter.value[f]
  }

  function Other(c: Constant): Constant {
    if c == Flag(true) then Flag(false) else Flag(true)
  }

  lemma {:induction false} HoldsExactly(shape: QueryShape, filter: Option<Filter>)
    ensures HoldsAll(shape, filter) <==> FilterImplied(shape, filter)
  {
    if !FilterImplied(shape, filter) {
      var f :| f in filter.value && !(f in ConstantFields(shape) && shape.constants[f] == filter.value[f]);
      var fixed := ConstantFields(shape);
      var d: Record :=
        g => if g in fixed && g in shape.constants then shape.constants[g] else Other(filter.value[f]);
      assert HasConstants(shape, d);
      assert d(f) != filter.value[f];
    }
  }

  // --- What the shapes behind a want asked for ---------------------------------

  predicate AskedBy(shapes: seq<QueryShape>, judge: Judge, p: nat, keys: seq<SortKey>) {
    p < |shapes| && judge(shapes[p]).Wanted? && judge(shapes[p]).keys == keys
  }

  predicate AllAsked(shapes: seq<QueryShape>, judge: Judge, w: Want) {
    forall q :: 0 <= q < |w.sources| ==> AskedBy(shapes, judge, w.sources[q], w.wantedKeys)
  }

  predicate WantsAsked(shapes: seq<QueryShape>, judge: Judge, wants: seq<Want>) {
    forall i :: 0 <= i < |wants| ==> AllAsked(shapes, judge, wants[i])
  }

  /** Every shape behind a want asked for exactly its keys. */
  lemma {:induction false} CollectAsked(shapes: seq<QueryShape>, n: nat, judge: Judge, server: Server)
    requires n <= |shapes|
    ensures WantsAsked(shapes, judge, CollectWith(shapes, n, judge, server).wants)
  {
    if n > 0 {
      CollectAsked(shapes, n - 1, judge, server);
      StepAsked(CollectWith(shapes, n - 1, judge, server), shapes, n - 1, judge, server);
    }
  }

  lemma {:induction false} StepAsked(st: Collected, shapes: seq<QueryShape>, p: nat, judge: Judge, server: Server)
    requires p < |shapes| && WantsAsked(shapes, judge, st.wants)
    ensures WantsAsked(shapes, judge, CollectStep(st, shapes[p], p, judge, server).wants)
  {
    if judge(shapes[p]).Wanted? {
      match FindWant(st.wants, judge(shapes[p]).keys) {
        case Some(at) =>
          var joined := Join(st.wants[at], shapes[p], p);
          assert AllAsked(shapes, judge, st.wants[at]);
          forall q | 0 <= q < |joined.sources| ensures AskedBy(shapes, judge, joined.sources[q], joined.wantedKeys) {
            assert q < |st.wants[at].sources| ==> AskedBy(shapes, judge, st.wants[at].sources[q], joined.wantedKeys);
          }
        case None =>
      }
    }
  }

  /** What a shape binds is at the front of the keys it asked for. */
  lemma {:induction false} BindsFront(shape: QueryShape, options: CreateOptions)
    requires Appraise(shape, options).Wanted?
    ensures
      var keys := Appraise(shape, options).keys;
      BlocksOf(shape, keys).equality <= Fields(keys) && Distinct(BlocksOf(shape, keys).equality)
  {
    var keys := Appraise(shape, options).keys;
    var blocks := BlocksOf(shape, keys);
    AppraiseLaid(shape, options);
    LaidFields(keys, blocks);
    Assoc(blocks.equality, Fields(blocks.sort), blocks.range);
    assert forall i :: 0 <= i < |blocks.equality| ==> Fields(keys)[i] == blocks.equality[i];
  }

  lemma {:induction false} SortedAsked(shapes: seq<QueryShape>, existing: seq<IndexSpec>, options: CreateOptions,
                                       i: nat, q: nat)
    requires
      var sorted := SortWants(Collect(shapes, existing, options).wants);
      i < |sorted| && q < |sorted[i].sources|
    ensures
      var w := SortWants(Collect(shapes, existing, options).wants)[i];
      AskedBy(shapes, JudgeBy(options), w.sources[q], w.wantedKeys)
  {
    var wants := Collect(shapes, existing, options).wants;
    SortedGenuine(shapes, existing, options);
    CollectAsked(shapes, |shapes|, JudgeBy(options), ServerOf(existing));
    var w := SortWants(wants)[i];
    var k :| 0 <= k < |wants| && wants[k] == w;
    assert AllAsked(shapes, JudgeBy(options), wants[k]);
  }

  // --- What the keys have to do ------------------------------------------------

  function FixedBy(filter: Option<Filter>): set<string> {
    if filter.None? then {} else filter.value.Keys
  }

  function NotFixed(names: seq<string>, fixed: set<string>): seq<string> {
    if names == [] then []
    else
      var before := NotFixed(names[..|names| - 1], fixed);
      if names[|names| - 1] in fixed then before else before + [names[|names| - 1]]
  }

  /** The equality fields a filter leaves to the keys, each once. */
  function Free(shape: QueryShape, filter: Option<Filter>): seq<string> {
    DistinctNames(NotFixed(shape.equality, FixedBy(filter)))
  }

  /** The sort, without repeats and bound fields. */
  function SortOf(shape: QueryShape): seq<SortKey> {
    BlocksOf(shape, EsrKeys(shape)).sort
  }

  lemma {:induction false} NotFixedIs(names: seq<string>, fixed: set<string>)
    ensures forall f :: f in NotFixed(names, fixed) <==> f in names && f !in fixed
  {
    if names != [] {
      NotFixedIs(names[..|names| - 1], fixed);
      assert names == names[..|names| - 1] + [names[|names| - 1]];
    }
  }

  lemma {:induction false} FreeIs(shape: QueryShape, filter: Option<Filter>)
    ensures Distinct(Free(shape, filter))
    ensures forall f :: f in Free(shape, filter) <==> f in shape.equality && f !in FixedBy(filter)
  {
    NotFixedIs(shape.equality, FixedBy(filter));
    AddNamesExtends([], NotFixed(shape.equality, FixedBy(filter)));
  }

  /** The documents of a partial index agree on what its filter fixes. */
  ghost predicate Agree(fixed: set<string>, docs: seq<Doc>) {
    forall i, j, f :: 0 <= i < |docs| && 0 <= j < |docs| && f in fixed ==> docs[i](f) == docs[j](f)
  }

  /** Whatever the documents of the index, the matches of any binding sit side by side. */
  ghost predicate TogetherIn(keys: seq<SortKey>, equality: seq<string>, fixed: set<string>) {
    forall docs :: Sorted(keys, docs) && Agree(fixed, docs) ==> Contiguous(equality, docs)
  }

  /** The index holds every document the query can match, keeps the matches of any binding
      together, and presents them in the query's sort. */
  ghost predicate Answered(shape: QueryShape, keys: seq<SortKey>, filter: Option<Filter>) {
    && HoldsAll(shape, filter)
    && TogetherIn(keys, shape.equality, FixedBy(filter))
    && AlwaysInOrder(keys, shape.equality, shape.sort)
  }

  predicate Unfixed(keys: seq<SortKey>, fixed: set<string>) {
    forall i :: 0 <= i < |keys| ==> keys[i].field !in fixed
  }

  ghost function Zeroed(fixed: set<string>, d: Doc): Doc {
    f => if f in fixed then 0 else d(f)
  }

  ghost function AllZeroed(fixed: set<string>, docs: seq<Doc>): seq<Doc> {
    seq(|docs|, i requires 0 <= i < |docs| => Zeroed(fixed, docs[i]))
  }

  lemma {:induction false} LeqZeroed(keys: seq<SortKey>, fixed: set<string>, a: Doc, b: Doc)
    requires Unfixed(keys, fixed)
    ensures Leq(keys, Zeroed(fixed, a), Zeroed(fixed, b)) == Leq(keys, a, b)
  {
    if keys != [] {
      assert keys[0].field !in fixed;
      assert Unfixed(keys[1..], fixed) by {
        assert forall i :: 0 <= i < |keys[1..]| ==> keys[1..][i] == keys[i + 1];
      }
      LeqZeroed(keys[1..], fixed, a, b);
    }
  }

  lemma {:induction false} SortedZeroed(keys: seq<SortKey>, fixed: set<string>, docs: seq<Doc>)
    requires Unfixed(keys, fixed) && Sorted(keys, docs)
    ensures Sorted(keys, AllZeroed(fixed, docs)) && Agree(fixed, AllZeroed(fixed, docs))
  {
    var zeroed := AllZeroed(fixed, docs);
    forall i, j | 0 <= i < j < |zeroed| ensures Leq(keys, zeroed[i], zeroed[j]) {
      LeqZeroed(keys, fixed, docs[i], docs[j]);
    }
  }

  /** The equality fields left free are the ones not fixed. */
  predicate Leaves(free: seq<string>, equality: seq<string>, fixed: set<string>) {
    && (forall i :: 0 <= i < |free| ==> free[i] in equality && free[i] !in fixed)
    && (forall i :: 0 <= i < |equality| ==> equality[i] in free || equality[i] in fixed)
  }

  lemma {:induction false} MatchesZeroed(free: seq<string>, equality: seq<string>, fixed: set<string>,
                                         binding: Doc, d: Doc)
    requires Leaves(free, equality, fixed)
    ensures Matches(free, binding, d) <==> Matches(equality, Zeroed(fixed, binding), Zeroed(fixed, d))
  {
    var b, z := Zeroed(fixed, binding), Zeroed(fixed, d);
    if Matches(free, binding, d) {
      forall f | f in equality ensures z(f) == b(f) {
        var i :| 0 <= i < |equality| && equality[i] == f;
      }
    }
    if Matches(equality, b, z) {
      forall f | f in free ensures d(f) == binding(f) {
        var i :| 0 <= i < |free| && free[i] == f;
        assert z(f) == b(f);
      }
    }
  }

  lemma {:induction false} TogetherNeeds(keys: seq<SortKey>, free: seq<string>, equality: seq<string>,
                                         fixed: set<string>)
    requires Unfixed(keys, fixed) && Leaves(free, equality, fixed) && TogetherIn(keys, equality, fixed)
    ensures AlwaysContiguous(keys, free)
  {
    forall docs: seq<Doc> | Sorted(keys, docs) ensures Contiguous(free, docs) {
      var zeroed := AllZeroed(fixed, docs);
      SortedZeroed(keys, fixed, docs);
      forall binding: Doc, i, j, k | 0 <= i <= k <= j < |docs|
        && Matches(free, binding, docs[i]) && Matches(free, binding, docs[j])
        ensures Matches(free, binding, docs[k])
      {
        MatchesZeroed(free, equality, fixed, binding, docs[i]);
        MatchesZeroed(free, equality, fixed, binding, docs[j]);
        MatchesZeroed(free, equality, fixed, binding, docs[k]);
        assert zeroed[i] == Zeroed(fixed, docs[i]) && zeroed[j] == Zeroed(fixed, docs[j]);
        assert zeroed[k] == Zeroed(fixed, docs[k]) && Contiguous(equality, zeroed);
      }
    }
  }

  lemma {:induction false} TogetherHas(keys: seq<SortKey>, free: seq<string>, equality: seq<string>, fixed: set<string>)
    requires Leaves(free, equality, fixed) && AlwaysContiguous(keys, free)
    ensures TogetherIn(keys, equality, fixed)
  {
    forall docs: seq<Doc> | Sorted(keys, docs) && Agree(fixed, docs) ensures Contiguous(equality, docs) {
      forall binding: Doc, i, j, k | 0 <= i <= k <= j < |docs|
        && Matches(equality, binding, docs[i]) && Matches(equality, binding, docs[j])
        ensures Matches(equality, binding, docs[k])
      {
        assert Matches(free, binding, docs[i]) && Matches(free, binding, docs[j]);
        assert Matches(free, binding, docs[k]);
        forall f | f in equality ensures docs[k](f) == binding(f) {
          var p :| 0 <= p < |equality| && equality[p] == f;
          assert f in fixed ==> docs[k](f) == docs[i](f);
        }
      }
    }
  }

  /** The bound fields are apart from the sort and from the keys behind those the filter leaves. */
  lemma {:induction false} ShapeApart(shape: QueryShape, keys: seq<SortKey>, free: seq<string>, fixed: set<string>)
    requires Distinct(Fields(keys)) && Distinct(free) && Unfixed(keys, fixed) && Leaves(free, shape.equality, fixed)
    requires Leading(free, Fields(keys))
    ensures BehindApart(keys[..|free|], keys[|free|..], shape.equality, SortOf(shape))
  {
    TailsDistinct(EsrKeys(shape), shape);
    EsrSplit(shape);
    var n, fields := |free|, Fields(keys);
    assert Fields(keys[..n]) == fields[..n];
    SameSetBothWays(fields[..n], free);
    var rest := Fields(keys[n..]);
    assert forall i :: 0 <= i < |rest| ==> rest[i] == fields[n + i] == keys[n + i].field;
    assert forall i :: 0 <= i < n ==> fields[..n][i] == fields[i];
    forall f | f in shape.equality ensures f !in rest {
      var i :| 0 <= i < |shape.equality| && shape.equality[i] == f;
    }
  }

  /** An index answers a shape if and only if its filter says no more than the shape's constants
      and its keys begin with the equality fields the filter leaves and then the sort. */
  lemma {:induction false} KeysAnswerExactly(shape: QueryShape, keys: seq<SortKey>, filter: Option<Filter>)
    requires Distinct(Fields(keys)) && Unfixed(keys, FixedBy(filter))
    ensures Answered(shape, keys, filter) <==>
      && FilterImplied(shape, filter)
      && Leading(Free(shape, filter), Fields(keys))
      && OrderCovers(SortOf(shape), keys[|Free(shape, filter)|..])
  {
    var free, fixed := Free(shape, filter), FixedBy(filter);
    HoldsExactly(shape, filter);
    FreeIs(shape, filter);
    assert Leaves(free, shape.equality, fixed);
    ContiguousExactly(keys, free);
    if TogetherIn(keys, shape.equality, fixed) {
      TogetherNeeds(keys, free, shape.equality, fixed);
    }
    if AlwaysContiguous(keys, free) {
      TogetherHas(keys, free, shape.equality, fixed);
      ShapeApart(shape, keys, free, fixed);
      SplitOrderExactly(keys, |free|, shape.equality, SortOf(shape));
      OrderOfShape(keys, shape);
    }
  }

  // --- Candidates --------------------------------------------------------------

  /** A partial want's keys leave out what its filter fixes, and its filter fixes something. */
  lemma {:induction false} AskedApart(shape: QueryShape, options: CreateOptions)
    requires Appraise(shape, options).Wanted?
    ensures
      var asked := Appraise(shape, options);
      && Unfixed(asked.keys, FixedBy(asked.filter))
      && (asked.filter.Some? ==> asked.filter.value.Keys == ConstantFields(shape) != {})
      && (asked.filter.Some? ==> forall f :: f in ConstantFields(shape) ==> asked.filter.value[f] == shape.constants[f])
      && (forall f :: f in shape.equality ==> f in Fields(asked.keys) || f in FixedBy(asked.filter))
  {
    var asked, keys := Appraise(shape, options), EsrKeys(shape);
    EsrLaid(shape);
    EsrSplit(shape);
    LaidFields(keys, BlocksOf(shape, keys));
    if asked.filter.Some? {
      WithoutDistinct(keys, ConstantFields(shape));
      forall i | 0 <= i < |asked.keys| ensures asked.keys[i].field !in ConstantFields(shape) {
        assert Fields(asked.keys)[i] in Fields(asked.keys);
      }
    }
  }

  /** The final keys are on the wanted fields. */
  lemma {:induction false} FinalKeyAmong(w: Want, p: nat)
    requires WellFormed(w) && p < |LeadWith(w)|
    ensures LeadWith(w)[p] in w.wantedKeys
  {
    LeadWithPermutes(w);
    assert LeadWith(w)[p] in multiset(LeadWith(w));
  }

  lemma {:induction false} FinalUnfixed(w: Want, fixed: set<string>)
    requires WellFormed(w) && Unfixed(w.wantedKeys, fixed)
    ensures Unfixed(LeadWith(w), fixed)
  {
    forall p | 0 <= p < |LeadWith(w)| ensures LeadWith(w)[p].field !in fixed {
      FinalKeyAmong(w, p);
    }
  }

  /** A survivor as it finally stands. */
  lemma {:induction false} SurvivorStands(shapes: seq<QueryShape>, existing: seq<IndexSpec>, options: CreateOptions,
                                          i: nat)
    requires i < |SortWants(Collect(shapes, existing, options).wants)|
    ensures
      var sorted := SortWants(Collect(shapes, existing, options).wants);
      var w := Final(sorted).items[i];
      && WellFormed(w) && SameWant(sorted[i], w) && Genuine(shapes, options, sorted[i])
      && Distinct(Fields(LeadWith(w))) && Unfixed(LeadWith(w), FixedBy(w.partialFilter))
  {
    var sorted := SortWants(Collect(shapes, existing, options).wants);
    SortedGenuine(shapes, existing, options);
    ConsolidateKeeps(sorted, |sorted|);
    var w := Final(sorted).items[i];
    FinalDistinct(w);
    AskedApart(sorted[i].shape, options);
    FinalUnfixed(w, FixedBy(w.partialFilter));
  }

  /** So it is of every candidate and every shape, credited to it or not. */
  lemma {:induction false} CandidateAnswersExactly(shapes: seq<QueryShape>, existing: seq<IndexSpec>,
                                                   options: CreateOptions, c: CreateCandidate, shape: QueryShape)
    requires c in RecommendedCreates(shapes, existing, options).candidates
    ensures Answered(shape, c.keys, c.partialFilter) <==>
      && FilterImplied(shape, c.partialFilter)
      && Leading(Free(shape, c.partialFilter), Fields(c.keys))
      && OrderCovers(SortOf(shape), c.keys[|Free(shape, c.partialFilter)|..])
  {
    var collected := Collect(shapes, existing, options);
    var sorted := SortWants(collected.wants);
    EmittedFrom(Final(sorted), |sorted|, existing, collected.declined, c);
    var i :| 0 <= i < |sorted| && Alive(Final(sorted).into, i) && Emitted(Final(sorted).items[i], existing, c);
    SurvivorStands(shapes, existing, options, i);
    KeysAnswerExactly(shape, c.keys, c.partialFilter);
  }

  // --- Shapes behind a survivor's own keys -------------------------------------

  lemma {:induction false} OfClassFields(shape: QueryShape, keys: seq<SortKey>, c: nat)
    ensures forall f :: f in Fields(OfClass(shape, keys, c)) <==> f in Fields(keys) && ClassOf(shape, f) == c
  {
    if keys != [] {
      var short, last := keys[..|keys| - 1], keys[|keys| - 1];
      OfClassFields(shape, short, c);
      assert keys == short + [last];
      FieldsAppend(short, [last]);
      FieldsAppend(OfClass(shape, short, c), [last]);
      assert Fields([last]) == [last.field];
    }
  }

  lemma {:induction false} OfClassWithout(shape: QueryShape, keys: seq<SortKey>, gone: set<string>)
    requires forall f :: f in gone ==> f in shape.equality
    ensures OfClass(shape, Without(keys, gone), 1) == OfClass(shape, keys, 1)
  {
    if keys != [] {
      var short, last := keys[..|keys| - 1], keys[|keys| - 1];
      OfClassWithout(shape, short, gone);
      if last.field !in gone {
        assert (Without(short, gone) + [last])[..|Without(short, gone)|] == Without(short, gone);
      }
    }
  }

  /** Taking constants out of the keys takes nothing out of the sort. */
  lemma {:induction false} AskedSort(shape: QueryShape, options: CreateOptions)
    requires Appraise(shape, options).Wanted?
    ensures BlocksOf(shape, Appraise(shape, options).keys).sort == SortOf(shape)
  {
    OfClassWithout(shape, EsrKeys(shape), ConstantFields(shape));
  }

  /** A filter that says no more than the shape's constants and leaves it only fields it asked
      to have as keys is the filter it asked for. */
  lemma {:induction false} SameFilterExactly(shape: QueryShape, other: QueryShape, options: CreateOptions)
    requires Appraise(shape, options).Wanted? && Appraise(other, options).Wanted?
    requires Appraise(shape, options).keys == Appraise(other, options).keys
    ensures
      var mine, filter := Appraise(shape, options), Appraise(other, options).filter;
      FilterImplied(shape, filter) && Within(Free(shape, filter), Fields(mine.keys)) <==> mine.filter == filter
  {
    var mine, filter := Appraise(shape, options), Appraise(other, options).filter;
    AskedApart(shape, options);
    AskedApart(other, options);
    FreeIs(shape, filter);
    if mine.filter == filter {
      forall i | 0 <= i < |Free(shape, filter)| ensures Free(shape, filter)[i] in Fields(mine.keys) {
        assert Free(shape, filter)[i] in Free(shape, filter);
      }
    } else if FilterImplied(shape, filter) && Within(Free(shape, filter), Fields(mine.keys)) {
      FixedIsFixed(shape, options, filter);
    }
  }

  lemma {:induction false} FixedIsFixed(shape: QueryShape, options: CreateOptions, filter: Option<Filter>)
    requires Appraise(shape, options).Wanted? && FilterImplied(shape, filter)
    requires Within(Free(shape, filter), Fields(Appraise(shape, options).keys))
    requires Unfixed(Appraise(shape, options).keys, FixedBy(filter)) && (filter.Some? ==> filter.value.Keys != {})
    ensures Appraise(shape, options).filter == filter
  {
    var mine := Appraise(shape, options);
    AskedApart(shape, options);
    FreeIs(shape, filter);
    forall f | f in FixedBy(mine.filter) ensures f in FixedBy(filter) {
      if f !in FixedBy(filter) {
        assert f in Free(shape, filter);
        NotAKey(mine.keys, FixedBy(mine.filter), f);
      }
    }
    forall f | f in FixedBy(filter) ensures f in FixedBy(mine.filter) {
      NotAKey(mine.keys, FixedBy(filter), f);
    }
    if filter.Some? {
      var f :| f in filter.value.Keys;
      assert f in FixedBy(mine.filter);
      assert mine.filter.value == filter.value;
    }
  }

  lemma {:induction false} NotAKey(keys: seq<SortKey>, fixed: set<string>, f: string)
    requires Unfixed(keys, fixed) && f in fixed
    ensures f !in Fields(keys)
  {
    forall i | 0 <= i < |keys| ensures Fields(keys)[i] != f {
      assert keys[i].field !in fixed;
    }
  }

  /** With its own filter, what is left free is what the shape binds in the keys it asked for. */
  lemma {:induction false} FreeIsBound(shape: QueryShape, options: CreateOptions)
    requires Appraise(shape, options).Wanted?
    ensures
      var asked := Appraise(shape, options);
      var free, bound := Free(shape, asked.filter), BlocksOf(shape, asked.keys).equality;
      |free| == |bound| && Distinct(free) && Distinct(bound) && Within(free, bound) && Within(bound, free)
  {
    var asked := Appraise(shape, options);
    var free, bound := Free(shape, asked.filter), BlocksOf(shape, asked.keys).equality;
    BindsFront(shape, options);
    FreeIs(shape, asked.filter);
    AskedApart(shape, options);
    OfClassFields(shape, asked.keys, 0);
    forall i | 0 <= i < |free| ensures free[i] in bound {
      assert free[i] in free;
    }
    forall i | 0 <= i < |bound| ensures bound[i] in free {
      assert bound[i] in bound;
      if bound[i] in FixedBy(asked.filter) {
        NotAKey(asked.keys, FixedBy(asked.filter), bound[i]);
      }
    }
    DistinctSameNames(free, bound);
  }

  lemma {:induction false} SameNamesLead(a: seq<string>, b: seq<string>, fields: seq<string>)
    requires |a| == |b| && Within(a, b) && Within(b, a)
    ensures Leading(a, fields) <==> Leading(b, fields)
  {
    if |a| <= |fields| {
      var head := fields[..|a|];
      if SameSet(head, a) {
        forall i | 0 <= i < |head| ensures head[i] in b {
          var k :| 0 <= k < |a| && a[k] == head[i];
        }
      }
      if SameSet(head, b) {
        forall i | 0 <= i < |head| ensures head[i] in a {
          var k :| 0 <= k < |b| && b[k] == head[i];
        }
      }
    }
  }

  /** What a lead allows behind the fields a shape binds: no name of another shape's in the
      middle of the sort. */
  predicate SortAllowed(lead: seq<string>, bound: seq<string>, sort: seq<string>) {
    |lead| > |bound| ==> lead[|bound|..] <= sort || sort <= lead[|bound|..]
  }

  lemma {:induction false} LeadingIsWithin(names: seq<string>, fields: seq<string>)
    requires Distinct(fields) && Leading(names, fields)
    ensures Within(names, fields)
  {
    SameSetBothWays(fields[..|names|], names);
    forall i | 0 <= i < |names| ensures names[i] in fields {
      assert names[i] in fields[..|names|];
    }
  }

  lemma {:induction false} FinalFieldsWithin(w: Want, names: seq<string>)
    requires WellFormed(w) && Within(names, Fields(LeadWith(w)))
    ensures Within(names, Fields(w.wantedKeys))
  {
    var keys := LeadWith(w);
    forall i | 0 <= i < |names| ensures names[i] in Fields(w.wantedKeys) {
      var p :| 0 <= p < |keys| && Fields(keys)[p] == names[i];
      FinalKeyAmong(w, p);
      var q :| 0 <= q < |w.wantedKeys| && w.wantedKeys[q] == keys[p];
      assert Fields(w.wantedKeys)[q] == names[i];
    }
  }

  lemma {:induction false} OneKeyEach(keys: seq<SortKey>, a: SortKey, b: SortKey)
    requires Distinct(Fields(keys)) && a in keys && b in keys && a.field == b.field
    ensures a == b
  {
    var i :| 0 <= i < |keys| && keys[i] == a;
    var j :| 0 <= j < |keys| && keys[j] == b;
    assert Fields(keys)[i] == Fields(keys)[j];
  }

  /** Keys the want asked for come in sequence in its final keys if their fields do. */
  lemma {:induction false} StandsCovers(w: Want, n: nat, sort: seq<SortKey>)
    requires WellFormed(w) && n <= |LeadWith(w)|
    requires forall q :: 0 <= q < |sort| ==> sort[q] in w.wantedKeys
    ensures OrderCovers(sort, LeadWith(w)[n..]) <==> Fields(sort) <= Fields(LeadWith(w))[n..]
  {
    var rest, fields := LeadWith(w)[n..], Fields(LeadWith(w))[n..];
    assert |fields| == |rest| && forall q :: 0 <= q < |rest| ==> fields[q] == rest[q].field;
    if Fields(sort) <= fields {
      forall q | 0 <= q < |sort| ensures rest[q] == sort[q] {
        assert Fields(sort)[q] == fields[q];
        FinalKeyAmong(w, n + q);
        OneKeyEach(w.wantedKeys, rest[q], sort[q]);
      }
    }
    if OrderCovers(sort, rest) {
      forall q | 0 <= q < |sort| ensures Fields(sort)[q] == fields[q] {
        assert rest[q].field == sort[q].field;
      }
    }
  }

  /** A shape's bound fields and its sort stand at the front of the keys it asked for. */
  predicate InFront(w: Want, bound: seq<string>, sort: seq<SortKey>) {
    WellFormed(w) && Ascending(bound) + sort <= w.wantedKeys
  }

  lemma {:induction false} FrontSplit(w: Want, bound: seq<string>, sort: seq<SortKey>)
    requires InFront(w, bound, sort)
    ensures w.wantedKeys == Ascending(bound) + w.wantedKeys[|bound|..] && sort <= w.wantedKeys[|bound|..]
    ensures Fields(w.wantedKeys) == bound + Fields(w.wantedKeys[|bound|..])
    ensures forall q :: 0 <= q < |sort| ==> sort[q] in w.wantedKeys
    ensures Distinct(bound) && |bound| <= |LeadWith(w)|
  {
    var n, keys := |bound|, w.wantedKeys;
    var both := Ascending(bound) + sort;
    assert forall q :: 0 <= q < |both| ==> keys[q] == both[q];
    assert forall q :: 0 <= q < n ==> both[q] == Ascending(bound)[q];
    assert forall q :: 0 <= q < |sort| ==> both[n + q] == sort[q];
    assert keys == Ascending(bound) + keys[n..];
    FieldsAppend(Ascending(bound), keys[n..]);
    assert Fields(Ascending(bound)) == bound;
    assert forall i :: 0 <= i < n ==> Fields(keys)[i] == bound[i];
    LeadWithPermutes(w);
  }

  /** A lead that ends among the bound fields leaves the sort right behind them. */
  lemma {:induction false} ShortLeadSort(w: Want, bound: seq<string>, sort: seq<SortKey>)
    requires InFront(w, bound, sort) && Within(w.lead, bound)
    ensures |bound| <= |LeadWith(w)| && Fields(sort) <= Fields(LeadWith(w))[|bound|..]
  {
    var n, gone := |bound|, set f | f in w.lead;
    var head, tail := Ascending(bound), w.wantedKeys[|bound|..];
    FrontSplit(w, bound, sort);
    assert Fields(head) == bound && w.wantedKeys[..n] == head;
    TailNotLeading(w, n);
    WithoutNothing(tail, gone);
    WithoutAppend(head, tail, gone);
    FieldsAppend(Without(head, gone), tail);
    FrontCompleted(w.lead, head);
    FinalFields(w);
    var mid := w.lead + Fields(Without(head, gone));
    Assoc(w.lead, Fields(Without(head, gone)), Fields(tail));
    assert Fields(LeadWith(w))[n..] == Fields(tail);
    FieldsPrefix(sort, tail);
  }

  lemma {:induction false} FieldsPrefix(a: seq<SortKey>, b: seq<SortKey>)
    requires a <= b
    ensures Fields(a) <= Fields(b)
  {
    assert forall i :: 0 <= i < |a| ==> Fields(a)[i] == a[i].field == b[i].field == Fields(b)[i];
  }

  lemma {:induction false} WithoutAll(keys: seq<SortKey>, gone: set<string>)
    requires forall i :: 0 <= i < |keys| ==> keys[i].field in gone
    ensures Without(keys, gone) == []
  {
    if keys != [] {
      WithoutAll(keys[..|keys| - 1], gone);
    }
  }

  /** The lead names the bound fields first and goes on with the sort: the rest of the sort
      comes next. */
  lemma {:induction false} LongLeadBehind(w: Want, bound: seq<string>, sort: seq<SortKey>)
    requires InFront(w, bound, sort) && |w.lead| > |bound| && Compatible(w.lead, bound)
    requires w.lead[|bound|..] <= Fields(sort)
    ensures sort[|w.lead| - |bound|..] <= Remaining(w)
  {
    SplitSort(w.wantedKeys, Ascending(bound), sort, |w.lead| - |bound|);
    LeadIsHead(w, bound, sort);
    BehindHead(w);
  }

  lemma {:induction false} SplitSort(keys: seq<SortKey>, front: seq<SortKey>, sort: seq<SortKey>, l: nat)
    requires front + sort <= keys && l <= |sort|
    ensures keys[..|front| + l] == front + sort[..l] && sort[l..] <= keys[|front| + l..]
    ensures keys == keys[..|front| + l] + keys[|front| + l..]
  {
    var both, n := front + sort, |front|;
    assert forall q :: 0 <= q < |both| ==> keys[q] == both[q];
    forall q | 0 <= q < |sort| - l ensures sort[l..][q] == keys[n + l..][q] {
      assert keys[n + l + q] == both[n + l + q];
    }
  }

  /** The lead is on the fields of the first keys. */
  predicate LeadsHead(w: Want) {
    && |w.lead| <= |w.wantedKeys| && Within(w.lead, Fields(w.wantedKeys[..|w.lead|]))
    && Within(Fields(w.wantedKeys[..|w.lead|]), w.lead)
  }

  lemma {:induction false} BehindHead(w: Want)
    requires WellFormed(w) && LeadsHead(w)
    ensures Remaining(w) == w.wantedKeys[|w.lead|..]
  {
    var n, gone := |w.lead|, set f | f in w.lead;
    var head, tail := w.wantedKeys[..n], w.wantedKeys[n..];
    assert w.wantedKeys == head + tail;
    forall i | 0 <= i < |head| ensures head[i].field in gone {
      assert Fields(head)[i] in w.lead;
    }
    WithoutAll(head, gone);
    TailNotLeading(w, n);
    WithoutNothing(tail, gone);
    WithoutAppend(head, tail, gone);
  }

  lemma {:induction false} LeadIsHead(w: Want, bound: seq<string>, sort: seq<SortKey>)
    requires InFront(w, bound, sort) && |w.lead| > |bound| && Compatible(w.lead, bound)
    requires w.lead[|bound|..] <= Fields(sort)
    ensures LeadsHead(w)
  {
    var first := sort[..|w.lead| - |bound|];
    FrontSplit(w, bound, sort);
    SplitSort(w.wantedKeys, Ascending(bound), sort, |first|);
    FrontNames(w.lead, bound);
    FieldsAppend(Ascending(bound), first);
    assert Fields(Ascending(bound)) == bound;
    assert Fields(first) == w.lead[|bound|..];
  }

  lemma {:induction false} FrontNames(lead: seq<string>, bound: seq<string>)
    requires Distinct(lead) && Distinct(bound) && |lead| > |bound| && Compatible(lead, bound)
    ensures Within(lead, bound + lead[|bound|..]) && Within(bound + lead[|bound|..], lead)
  {
    var n, both := |bound|, bound + lead[|bound|..];
    var front := lead[..n];
    SameSetBothWays(front, bound);
    forall i | 0 <= i < |both| ensures both[i] in lead {
      if i < n {
        assert both[i] in front;
      }
    }
    forall i | 0 <= i < |lead| ensures lead[i] in both {
      assert i >= n ==> lead[i] == both[i];
      assert i < n ==> lead[i] in bound;
    }
  }

  /** Keys behind those the lead names are not on the lead. */
  lemma {:induction false} TailNotLeading(w: Want, n: nat)
    requires WellFormed(w) && n <= |w.wantedKeys| && Within(w.lead, Fields(w.wantedKeys[..n]))
    ensures forall i :: 0 <= i < |w.wantedKeys[n..]| ==> w.wantedKeys[n..][i].field !in w.lead
  {
    var all, head := Fields(w.wantedKeys), Fields(w.wantedKeys[..n]);
    assert forall k :: 0 <= k < n ==> head[k] == all[k];
    forall i | 0 <= i < |w.wantedKeys[n..]| ensures w.wantedKeys[n..][i].field !in w.lead {
      assert w.wantedKeys[n..][i].field == all[n + i];
    }
  }

  lemma {:induction false} LongLeadSort(w: Want, bound: seq<string>, sort: seq<SortKey>)
    requires InFront(w, bound, sort) && |w.lead| > |bound| && Compatible(w.lead, bound)
    ensures |bound| <= |LeadWith(w)|
    ensures Fields(sort) <= Fields(LeadWith(w))[|bound|..] <==> SortAllowed(w.lead, bound, Fields(sort))
  {
    var more, names := w.lead[|bound|..], Fields(sort);
    FrontSplit(w, bound, sort);
    FinalFields(w);
    assert Fields(LeadWith(w))[|bound|..] == more + Fields(Remaining(w));
    if more <= names {
      LongLeadBehind(w, bound, sort);
      FieldsPrefix(sort[|more|..], Remaining(w));
      assert Fields(sort[|more|..]) == names[|more|..];
    }
    PrefixExactly(names, more, Fields(Remaining(w)));
  }

  lemma {:induction false} PrefixExactly(s: seq<string>, a: seq<string>, b: seq<string>)
    requires a <= s ==> s[|a|..] <= b
    ensures s <= a + b <==> a <= s || s <= a
  {
    if s <= a + b {
      assert forall i :: 0 <= i < |s| ==> s[i] == (a + b)[i];
    } else if a <= s {
      forall i | 0 <= i < |s| ensures s[i] == (a + b)[i] {
        assert i >= |a| ==> s[|a|..][i - |a|] == b[i - |a|];
      }
    }
  }

  /** Behind its bound fields, a shape's sort is served exactly where the lead allows it. */
  lemma {:induction false} FrontOrder(w: Want, bound: seq<string>, sort: seq<SortKey>)
    requires InFront(w, bound, sort) && Compatible(w.lead, bound)
    ensures |bound| <= |LeadWith(w)|
    ensures OrderCovers(sort, LeadWith(w)[|bound|..]) <==> SortAllowed(w.lead, bound, Fields(sort))
  {
    FrontSplit(w, bound, sort);
    StandsCovers(w, |bound|, sort);
    if |w.lead| > |bound| {
      LongLeadSort(w, bound, sort);
    } else {
      ShortLeadSort(w, bound, sort);
    }
  }

  /** A shape asked for the want's keys: its blocks stand in front of them. */
  lemma {:induction false} AskedInFront(w: Want, shape: QueryShape, options: CreateOptions)
    requires WellFormed(w) && Appraise(shape, options).Wanted? && Appraise(shape, options).keys == w.wantedKeys
    ensures InFront(w, BlocksOf(shape, w.wantedKeys).equality, SortOf(shape))
  {
    AppraiseLaid(shape, options);
    AskedSort(shape, options);
  }

  /** The lead of a want leaves room for what a shape binds and sorts by. */
  predicate LeadAnswers(w: Want, shape: QueryShape) {
    var bound := BlocksOf(shape, w.wantedKeys).equality;
    Compatible(w.lead, bound) && SortAllowed(w.lead, bound, Fields(SortOf(shape)))
  }

  lemma {:induction false} OwnFilterAnswers(w: Want, shape: QueryShape, options: CreateOptions)
    requires WellFormed(w) && Appraise(shape, options) == Wanted(w.wantedKeys, w.partialFilter)
    ensures
      var free := Free(shape, w.partialFilter);
      Leading(free, Fields(LeadWith(w))) && OrderCovers(SortOf(shape), LeadWith(w)[|free|..]) <==> LeadAnswers(w, shape)
  {
    var bound := BlocksOf(shape, w.wantedKeys).equality;
    FreeIsBound(shape, options);
    SameNamesLead(Free(shape, w.partialFilter), bound, Fields(LeadWith(w)));
    BindsFront(shape, options);
    FrontLeads(w, bound);
    AskedInFront(w, shape, options);
    if Compatible(w.lead, bound) {
      FrontOrder(w, bound, SortOf(shape));
    }
  }

  lemma {:induction false} AskedAnsweredExactly(w: Want, shape: QueryShape, options: CreateOptions)
    requires WellFormed(w) && Distinct(Fields(LeadWith(w))) && Unfixed(LeadWith(w), FixedBy(w.partialFilter))
    requires Appraise(w.shape, options) == Wanted(w.wantedKeys, w.partialFilter)
    requires Appraise(shape, options).Wanted? && Appraise(shape, options).keys == w.wantedKeys
    ensures Answered(shape, LeadWith(w), w.partialFilter)
      <==> Appraise(shape, options).filter == w.partialFilter && LeadAnswers(w, shape)
  {
    var free := Free(shape, w.partialFilter);
    KeysAnswerExactly(shape, LeadWith(w), w.partialFilter);
    SameFilterExactly(shape, w.shape, options);
    if Leading(free, Fields(LeadWith(w))) {
      LeadingIsWithin(free, Fields(LeadWith(w)));
      FinalFieldsWithin(w, free);
    }
    if Appraise(shape, options).filter == w.partialFilter {
      OwnFilterAnswers(w, shape, options);
    }
  }

  /** A shape behind a survivor's own keys, exactly: the index answers it if and only if it
      asked for the same filter and the lead leaves room for what it binds and sorts by. */
  lemma {:induction false} JoinedAnsweredExactly(shapes: seq<QueryShape>, existing: seq<IndexSpec>,
                                                 options: CreateOptions, i: nat, q: nat)
    requires
      var sorted := SortWants(Collect(shapes, existing, options).wants);
      i < |sorted| && q < |sorted[i].sources|
    ensures
      var sorted := SortWants(Collect(shapes, existing, options).wants);
      var w, p := Final(sorted).items[i], sorted[i].sources[q];
      && p < |shapes| && Appraise(shapes[p], options).Wanted?
      && (Answered(shapes[p], LeadWith(w), w.partialFilter)
          <==> Appraise(shapes[p], options).filter == w.partialFilter && LeadAnswers(w, shapes[p]))
  {
    var sorted := SortWants(Collect(shapes, existing, options).wants);
    SurvivorStands(shapes, existing, options, i);
    SortedAsked(shapes, existing, options, i, q);
    AskedAnsweredExactly(Final(sorted).items[i], shapes[sorted[i].sources[q]], options);
  }

  /** The shape a survivor was first wanted for is always answered. */
  lemma {:induction false} SurvivorAnswersOwn(shapes: seq<QueryShape>, existing: seq<IndexSpec>,
                                              options: CreateOptions, i: nat)
    requires i < |SortWants(Collect(shapes, existing, options).wants)|
    ensures
      var w := Final(SortWants(Collect(shapes, existing, options).wants)).items[i];
      Answered(w.shape, LeadWith(w), w.partialFilter)
  {
    SurvivorStands(shapes, existing, options, i);
    var w := Final(SortWants(Collect(shapes, existing, options).wants)).items[i];
    LeadWithPermutes(w);
    AskedAnsweredExactly(w, w.shape, options);
  }

  // --- Shapes of folded wants --------------------------------------------------

  lemma {:induction false} LeadingSplit(a: seq<string>, b: seq<string>, names: seq<string>)
    ensures Leading(names, a + b) <==> |names| <= |a| + |b| && CompletedBy(a, b, names)
  {
    if |names| <= |a| + |b| {
      var head := (a + b)[..|names|];
      if CompletedBy(a, b, names) {
        forall i | 0 <= i < |head| ensures head[i] in names {
          assert i >= |a| ==> b[i - |a|] in names;
        }
      }
      if SameSet(head, names) {
        forall i | 0 <= i < |a| && i < |names| ensures a[i] in names {
          assert head[i] == a[i];
        }
        forall i | 0 <= i < |b| && |a| + i < |names| ensures b[i] in names {
          assert head[|a| + i] == b[i];
        }
      }
    }
  }

  /** What a lead and the keys behind it come to for an unfiltered index. */
  predicate LeadThenRemaining(w: Want, shape: QueryShape) {
    var free := Free(shape, None);
    && |free| <= |w.lead| + |Remaining(w)|
    && CompletedBy(w.lead, Fields(Remaining(w)), free)
    && OrderCovers(SortOf(shape), (Ascending(w.lead) + Remaining(w))[|free|..])
  }

  lemma {:induction false} UnfilteredAnswersExactly(w: Want, shape: QueryShape)
    requires WellFormed(w) && Distinct(Fields(LeadWith(w))) && w.partialFilter == None
    ensures Answered(shape, LeadWith(w), w.partialFilter) <==> LeadThenRemaining(w, shape)
  {
    KeysAnswerExactly(shape, LeadWith(w), None);
    FinalFields(w);
    LeadingSplit(w.lead, Fields(Remaining(w)), Free(shape, None));
  }

  lemma {:induction false} FoldedUnfiltered(wants: seq<Want>, i: nat)
    requires AllWellFormed(wants) && i < |wants| && Final(wants).into[i].Some?
    ensures Forward(Final(wants).into)
    ensures wants[i].partialFilter == None
    ensures Final(wants).items[Survivor(Final(wants).into, i)].partialFilter == None
  {
    FinalForward(wants);
    ConsolidateKeeps(wants, |wants|);
    var into := Final(wants).into;
    var narrow, wide, final := Meeting(wants, i, into[i].value);
    var last, survivor, left := Meeting(wants, LastHop(into, i), Survivor(into, i));
  }

  /** A shape of a folded want, exactly, through any number of folds: on the survivor's lead
      and the keys behind it. */
  lemma {:induction false} FoldedAnsweredExactly(shapes: seq<QueryShape>, existing: seq<IndexSpec>,
                                                 options: CreateOptions, i: nat, shape: QueryShape)
    requires
      var sorted := SortWants(Collect(shapes, existing, options).wants);
      i < |sorted| && Final(sorted).into[i].Some?
    ensures
      var final := Final(SortWants(Collect(shapes, existing, options).wants));
      && Forward(final.into)
      && var w := final.items[Survivor(final.into, i)];
        Answered(shape, LeadWith(w), w.partialFilter) <==> LeadThenRemaining(w, shape)
  {
    var sorted := SortWants(Collect(shapes, existing, options).wants);
    SortedGenuine(shapes, existing, options);
    FoldedUnfiltered(sorted, i);
    var j := Survivor(Final(sorted).into, i);
    SurvivorStands(shapes, existing, options, j);
    UnfilteredAnswersExactly(Final(sorted).items[j], shape);
  }

  /** The shape a folded want was first wanted for, exactly: its sort is still at the head of
      the survivor's own, or the last fold put its fields and then its sort first. */
  lemma {:induction false} FoldedOwnAnsweredExactly(shapes: seq<QueryShape>, existing: seq<IndexSpec>,
                                                    options: CreateOptions, i: nat)
    requires
      var sorted := SortWants(Collect(shapes, existing, options).wants);
      i < |sorted| && Final(sorted).into[i].Some?
    ensures
      var sorted := SortWants(Collect(shapes, existing, options).wants);
      var into, e, sort := Final(sorted).into, sorted[i].blocks.equality, sorted[i].blocks.sort;
      && Forward(into)
      && var k, j := LastHop(into, i), Survivor(into, i);
        var w := Final(sorted).items[j];
        Answered(sorted[i].shape, LeadWith(w), w.partialFilter)
        <==> (sort != [] && sort <= sorted[j].blocks.sort) || LastFoldOrders(sorted, k, j, e, Fields(sort))
  {
    var sorted := SortWants(Collect(shapes, existing, options).wants);
    SortedGenuine(shapes, existing, options);
    FoldedUnfiltered(sorted, i);
    ChainSortExactly(sorted, i);
    var j := Survivor(Final(sorted).into, i);
    SurvivorStands(shapes, existing, options, j);
    OwnShapeExactly(sorted[i], options, LeadWith(Final(sorted).items[j]));
  }

  lemma {:induction false} OwnShapeExactly(w: Want, options: CreateOptions, keys: seq<SortKey>)
    requires WellFormed(w) && Appraise(w.shape, options) == Wanted(w.wantedKeys, None)
    requires w.blocks == BlocksOf(w.shape, w.wantedKeys) && Distinct(Fields(keys))
    ensures Answered(w.shape, keys, None)
      <==> AlwaysContiguous(keys, w.blocks.equality) && AlwaysInOrder(keys, w.blocks.equality, w.blocks.sort)
  {
    KeysAnswerExactly(w.shape, keys, None);
    FreeIsBound(w.shape, options);
    SameNamesLead(Free(w.shape, None), w.blocks.equality, Fields(keys));
    AskedSort(w.shape, options);
    LaidEquality(w);
    ServedExactly(keys, w.blocks.equality, w.blocks.sort);
  }
}
