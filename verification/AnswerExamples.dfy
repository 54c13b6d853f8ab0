/** Shapes that recommendCreates (apps/api/src/analysis/workload.ts) credits to a candidate
    that does not answer them. */
module AnswerExamples {
  import opened Engine
  import opened Documents
  import opened Esr
  import opened Leads
  import opened Wants
  import opened FoldLoop
  import opened Consolidation
  import opened Collection
  import opened Creates
  import opened Serving
  import opened FoldMeaning
  import opened FoldExamples
  import opened Answers

  /** A scanning shape, often enough and long enough seen. */
  function Scanning(equality: seq<string>, sort: seq<SortKey>, range: seq<string>, constants: Filter): QueryShape {
    QueryShape(equality, sort, range, true, false, 1, None, [], constants)
  }

  function Always(partialIndexes: bool): CreateOptions {
    CreateOptions(WorkloadOptions(1, 0.0), partialIndexes)
  }

  // --- Keys --------------------------------------------------------------------

  lemma {:induction false} PushFresh(acc: seq<SortKey>, keys: seq<SortKey>)
    requires Distinct(Fields(acc + keys))
    ensures PushAll(acc, keys) == acc + keys
    decreases |keys|
  {
    if keys == [] {
      assert acc + keys == acc;
    } else {
      var next, all := acc + [keys[0]], Fields(acc + keys);
      assert keys[0].field !in Fields(acc) by {
        assert all[|acc|] == keys[0].field;
        assert forall i :: 0 <= i < |acc| ==> all[i] == Fields(acc)[i];
      }
      assert next + keys[1..] == acc + keys;
      PushFresh(next, keys[1..]);
    }
  }

  /** Fields named once each are the keys, in the order they come. */
  lemma {:induction false} KeysOfScan(equality: seq<string>, sort: seq<SortKey>, range: seq<string>, constants: Filter)
    requires |range| <= 1 && Distinct(equality + Fields(sort) + range)
    ensures EsrKeys(Scanning(equality, sort, range, constants)) == Ascending(equality) + sort + Ascending(range)
  {
    var e, r := Ascending(equality), Ascending(range);
    FieldsAppend(e + sort, r);
    FieldsAppend(e, sort);
    assert Fields(e) == equality && Fields(r) == range;
    var es, all := equality + Fields(sort), Fields(e + sort + r);
    assert forall i :: 0 <= i < |es| ==> es[i] == all[i];
    assert forall i :: 0 <= i < |equality| ==> equality[i] == es[i];
    assert [] + e == e;
    PushFresh([], e);
    PushFresh(e, sort);
    PushFresh(e + sort, r);
    if range == [] {
      assert SortNames(range) == range;
    } else {
      assert range[..0] == [] && range == [range[0]];
      assert SortNames(range) == range;
    }
  }

  lemma {:induction false} WantedAll(equality: seq<string>, sort: seq<SortKey>, range: seq<string>, partial: bool)
    requires equality != [] && |range| <= 1 && Distinct(equality + Fields(sort) + range)
    ensures Appraise(Scanning(equality, sort, range, map[]), Always(partial))
      == Wanted(Ascending(equality) + sort + Ascending(range), None)
  {
    KeysOfScan(equality, sort, range, map[]);
    assert ConstantFields(Scanning(equality, sort, range, map[])) == {};
  }

  lemma {:induction false} WantedBinding(equality: seq<string>, partial: bool)
    requires equality != [] && Distinct(equality)
    ensures Appraise(Scanning(equality, [], [], map[]), Always(partial)) == Wanted(Ascending(equality), None)
  {
    assert equality + Fields([]) + [] == equality;
    WantedAll(equality, [], [], partial);
    assert Ascending(equality) + [] + Ascending([]) == Ascending(equality);
  }

  lemma {:induction false} WithoutFirst(kc: SortKey, kx: SortKey)
    requires kc.field != kx.field
    ensures Without([kc, kx], {kc.field}) == [kx]
  {
    assert [kc, kx][..1] == [kc] && [kc][..0] == [];
    assert Without([], {kc.field}) == [];
    assert Without([kc], {kc.field}) == [];
  }

  /** {c, x} with `c` compared to one value: an index on `x` over the documents that have it. */
  lemma {:induction false} WantedPartly(c: string, x: string, u: Constant)
    requires c != x
    ensures Appraise(Scanning([c, x], [], [], map[c := u]), Always(true)) == Wanted([Key(x, Asc)], Some(map[c := u]))
  {
    var shape, kc, kx := Scanning([c, x], [], [], map[c := u]), Key(c, Asc), Key(x, Asc);
    assert [c, x] + Fields([]) + [] == [c, x];
    KeysOfScan([c, x], [], [], map[c := u]);
    var keys := EsrKeys(shape);
    assert keys == [kc, kx];
    assert ConstantFields(shape) == {c};
    assert keys[1].field !in ConstantFields(shape);
    WithoutFirst(kc, kx);
    assert (map f | f in ConstantFields(shape) :: shape.constants[f]) == map[c := u];
  }

  // --- Two shapes joined -------------------------------------------------------

  /** Nothing stands behind the last want, so it survives. */
  lemma {:induction false} LastTurn(st: Folding<Want>)
    requires |st.into| + 1 == |st.items|
    ensures FoldStep(st, Absorbs, FoldInto) == Folding(st.items, st.into + [None])
  {
  }

  lemma {:induction false} FoldOne(w: Want)
    ensures SortWants([w]) == [w] && Final([w]) == Folding([w], [None])
  {
    assert [w][..0] == [];
    assert Run([w], 0, Absorbs, FoldInto) == Folding([w], []);
    LastTurn(Folding([w], []));
  }

  /** With no index there, the last want, if it survives, is the last candidate. */
  lemma {:induction false} LastEmitted(st: Folding<Want>, existing: seq<IndexSpec>, declined: seq<Decline>)
    requires st.items != [] && Alive(st.into, |st.items| - 1) && existing == []
    ensures Propose(st.items[|st.items| - 1], existing)
      in Emit(st, |st.items|, EmitterFor(existing), declined).candidates
  {
    var n := |st.items|;
    var before := Emit(st, n - 1, EmitterFor(existing), declined);
    assert Emit(st, n, EmitterFor(existing), declined) == EmitOne(before, st.items[n - 1], existing);
  }

  lemma {:induction false} LastProposed(shapes: seq<QueryShape>, options: CreateOptions, final: Folding<Want>)
    requires Final(SortWants(Collect(shapes, [], options).wants)) == final
    requires final.items != [] && Alive(final.into, |final.items| - 1)
    ensures Propose(final.items[|final.items| - 1], []) in RecommendedCreates(shapes, [], options).candidates
  {
    LastEmitted(final, [], Collect(shapes, [], options).declined);
  }

  /** Two shapes that ask for the same keys. */
  lemma {:induction false} CollectTwo(shapes: seq<QueryShape>, judge: Judge, server: Server, keys: seq<SortKey>,
                                      filter: Option<Filter>)
    requires |shapes| == 2 && judge(shapes[0]) == Wanted(keys, filter)
    requires judge(shapes[1]).Wanted? && judge(shapes[1]).keys == keys && !server(shapes[0], keys, filter)
    ensures CollectWith(shapes, 2, judge, server)
      == Collected([Join(NewWant(shapes[0], 0, keys, filter), shapes[1], 1)], [])
  {
    assert CollectWith(shapes, 0, judge, server) == Collected([], []);
    assert CollectWith(shapes, 1, judge, server) == Collected([NewWant(shapes[0], 0, keys, filter)], []);
  }

  /** They become one candidate, with the first one's filter. */
  lemma {:induction false} TwoShapes(shapes: seq<QueryShape>, options: CreateOptions, keys: seq<SortKey>,
                                     filter: Option<Filter>) returns (c: CreateCandidate)
    requires |shapes| == 2 && Appraise(shapes[0], options) == Wanted(keys, filter)
    requires Appraise(shapes[1], options).Wanted? && Appraise(shapes[1], options).keys == keys
    ensures c in RecommendedCreates(shapes, [], options).candidates && 1 in c.sources
    ensures c.keys == keys && c.partialFilter == filter
  {
    var w := Join(NewWant(shapes[0], 0, keys, filter), shapes[1], 1);
    CollectTwo(shapes, JudgeBy(options), ServerOf([]), keys, filter);
    FoldOne(w);
    LastProposed(shapes, options, Folding([w], [None]));
    c := Propose(w, []);
    assert w.sources[1] == 1;
  }

  /** Two shapes on the same fields, each fixing `c` to a value of its own. */
  function Fixed(c: string, x: string, u: Constant, v: Constant): seq<QueryShape> {
    [Scanning([c, x], [], [], map[c := u]), Scanning([c, x], [], [], map[c := v])]
  }

  /** Joining goes by keys alone: a shape is credited to a partial index none of whose
      documents it can match. */
  lemma {:induction false} JoinedMayBeForeign(c: string, x: string, u: Constant, v: Constant)
    returns (found: CreateCandidate)
    requires c != x && u != v
    ensures found in RecommendedCreates(Fixed(c, x, u, v), [], Always(true)).candidates && 1 in found.sources
    ensures forall d: Record :: HasConstants(Fixed(c, x, u, v)[1], d) ==> !InFilter(found.partialFilter, d)
  {
    WantedPartly(c, x, u);
    WantedPartly(c, x, v);
    found := TwoShapes(Fixed(c, x, u, v), Always(true), [Key(x, Asc)], Some(map[c := u]));
    var shape := Fixed(c, x, u, v)[1];
    forall d: Record | HasConstants(shape, d) ensures !InFilter(found.partialFilter, d) {
      assert c in ConstantFields(shape) && d(c) == v;
      assert c in map[c := u];
    }
  }

  lemma {:induction false} UnfilteredTogether(keys: seq<SortKey>, equality: seq<string>)
    requires TogetherIn(keys, equality, {})
    ensures AlwaysContiguous(keys, equality)
  {
    forall docs: seq<Doc> | Sorted(keys, docs) ensures Contiguous(equality, docs) {
      assert Agree({}, docs);
    }
  }

  lemma {:induction false} ScatteredNotAnswered(shape: QueryShape, keys: seq<SortKey>)
    requires !AlwaysContiguous(keys, shape.equality)
    ensures !Answered(shape, keys, None)
  {
    if TogetherIn(keys, shape.equality, {}) {
      UnfilteredTogether(keys, shape.equality);
    }
  }

  /** {x}; {c, x} with `c` compared to one value, which wants an index on `x` as well. */
  function Unfixing(c: string, x: string, v: Constant): seq<QueryShape> {
    [Scanning([x], [], [], map[]), Scanning([c, x], [], [], map[c := v])]
  }

  /** A shape that took its constant for the filter's business is credited to an index without
      a filter, where its matches are scattered. */
  lemma {:induction false} JoinedMayBeUnfixed(c: string, x: string, v: Constant) returns (found: CreateCandidate)
    requires c != x
    ensures found in RecommendedCreates(Unfixing(c, x, v), [], Always(true)).candidates && 1 in found.sources
    ensures found.partialFilter == None && !AlwaysContiguous(found.keys, [c, x])
    ensures !Answered(Unfixing(c, x, v)[1], found.keys, found.partialFilter)
  {
    var keys := [Key(x, Asc)];
    WantedBinding([x], true);
    assert Ascending([x]) == keys;
    WantedPartly(c, x, v);
    found := TwoShapes(Unfixing(c, x, v), Always(true), keys, None);
    ContiguousExactly(keys, [c, x]);
    ScatteredNotAnswered(Unfixing(c, x, v)[1], keys);
  }

  // --- A narrower shape folded in ----------------------------------------------

  /** Two shapes wanting the same keys and a third wanting fewer. */
  lemma {:induction false} CollectThree(shapes: seq<QueryShape>, judge: Judge, server: Server, keys: seq<SortKey>,
                                        fewer: seq<SortKey>)
    requires |shapes| == 3 && keys != fewer
    requires judge(shapes[0]) == judge(shapes[1]) == Wanted(keys, None) && judge(shapes[2]) == Wanted(fewer, None)
    requires !server(shapes[0], keys, None) && !server(shapes[2], fewer, None)
    ensures CollectWith(shapes, 3, judge, server) == Collected([Wide(shapes, keys), Narrow(shapes, fewer)], [])
  {
    var first := NewWant(shapes[0], 0, keys, None);
    assert CollectWith(shapes, 0, judge, server) == Collected([], []);
    assert CollectWith(shapes, 1, judge, server) == Collected([first], []);
    assert CollectWith(shapes, 2, judge, server) == Collected([Wide(shapes, keys)], []);
    assert CollectWith(shapes, 3, judge, server) == Collected([Wide(shapes, keys)] + [Narrow(shapes, fewer)], []);
  }

  function Wide(shapes: seq<QueryShape>, keys: seq<SortKey>): Want
    requires |shapes| == 3
  {
    Join(NewWant(shapes[0], 0, keys, None), shapes[1], 1)
  }

  function Narrow(shapes: seq<QueryShape>, fewer: seq<SortKey>): Want
    requires |shapes| == 3
  {
    NewWant(shapes[2], 2, fewer, None)
  }

  lemma {:induction false} SortTwo(wide: Want, narrow: Want)
    requires |narrow.wantedKeys| < |wide.wantedKeys|
    ensures SortWants([wide, narrow]) == [narrow, wide]
  {
    assert [wide, narrow][..1] == [wide] && [wide][..0] == [];
    assert SortWants([wide]) == InsertWant([], wide) == [wide];
    assert InsertWant([wide], narrow) == InsertWant([], narrow) + [wide];
  }

  /** The narrower of two wants folds into the wider, which survives. */
  lemma {:induction false} FoldTwo(narrow: Want, wide: Want)
    requires Absorbs(narrow, wide)
    ensures Final([narrow, wide]) == Folding([narrow, FoldInto(wide, narrow)], [Some(1), None])
  {
    var ws := [narrow, wide];
    var st := Folding(ws, []);
    assert Run(ws, 0, Absorbs, FoldInto) == st;
    Turn(st, 1);
    var next := Folding([narrow, FoldInto(wide, narrow)], [Some(1)]);
    assert Run(ws, 1, Absorbs, FoldInto) == FoldStep(st, Absorbs, FoldInto) == next;
    LastTurn(next);
    assert Run(ws, 2, Absorbs, FoldInto) == FoldStep(next, Absorbs, FoldInto);
  }

  lemma {:induction false} ThreeFold(shapes: seq<QueryShape>, options: CreateOptions, keys: seq<SortKey>,
                                     fewer: seq<SortKey>)
    requires |shapes| == 3 && |fewer| < |keys| && Absorbs(Narrow(shapes, fewer), Wide(shapes, keys))
    requires Appraise(shapes[0], options) == Appraise(shapes[1], options) == Wanted(keys, None)
    requires Appraise(shapes[2], options) == Wanted(fewer, None)
    ensures
      var wide, narrow := Wide(shapes, keys), Narrow(shapes, fewer);
      var collected := Collect(shapes, [], options);
      Final(SortWants(collected.wants)) == Folding([narrow, FoldInto(wide, narrow)], [Some(1), None])
  {
    CollectThree(shapes, JudgeBy(options), ServerOf([]), keys, fewer);
    SortTwo(Wide(shapes, keys), Narrow(shapes, fewer));
    FoldTwo(Narrow(shapes, fewer), Wide(shapes, keys));
  }

  /** Then one candidate is left, and it is credited to the second shape, too. */
  lemma {:induction false} ThreeShapes(shapes: seq<QueryShape>, options: CreateOptions, keys: seq<SortKey>,
                                       fewer: seq<SortKey>) returns (c: CreateCandidate)
    requires |shapes| == 3 && |fewer| < |keys| && Absorbs(Narrow(shapes, fewer), Wide(shapes, keys))
    requires Appraise(shapes[0], options) == Appraise(shapes[1], options) == Wanted(keys, None)
    requires Appraise(shapes[2], options) == Wanted(fewer, None)
    ensures c in RecommendedCreates(shapes, [], options).candidates && 1 in c.sources && c.partialFilter == None
    ensures c.keys == LeadWith(FoldInto(Wide(shapes, keys), Narrow(shapes, fewer)))
  {
    var wide, narrow := Wide(shapes, keys), Narrow(shapes, fewer);
    ThreeFold(shapes, options, keys, fewer);
    var w := FoldInto(wide, narrow);
    LastProposed(shapes, options, Folding([narrow, w], [Some(1), None]));
    assert wide.sources[1] == 1 && w.sources == wide.sources + narrow.sources;
    c := Propose(w, []);
  }

  /** Keys on nothing but equality fields are one block. */
  lemma {:induction false} AllEquality(shape: QueryShape, equality: seq<string>)
    requires forall i :: 0 <= i < |equality| ==> ClassOf(shape, equality[i]) == 0
    ensures BlocksOf(shape, Ascending(equality)) == KeyBlocks(equality, [], [])
  {
    var keys := Ascending(equality);
    assert ClassIs(shape, keys, 0);
    OfOwnClass(shape, keys, 0, 0);
    OfOwnClass(shape, keys, 0, 1);
    OfOwnClass(shape, keys, 0, 2);
    assert Fields([]) == [] && Fields(keys) == equality;
  }

  lemma {:induction false} BindingWant(shape: QueryShape, p: nat, equality: seq<string>)
    requires shape == Scanning(equality, [], [], map[]) && Distinct(equality)
    ensures
      var w := NewWant(shape, p, Ascending(equality), None);
      WellFormed(w) && w.blocks == KeyBlocks(equality, [], [])
  {
    AllEquality(shape, equality);
    assert Ascending(equality) + [] + Ascending([]) == Ascending(equality);
    assert Fields(Ascending(equality)) == equality;
  }

  lemma {:induction false} BindingAbsorbs(wide: Want, narrow: Want, more: seq<string>, few: seq<string>)
    requires WellFormed(wide) && wide.blocks == KeyBlocks(more, [], []) && wide.lead == []
    requires WellFormed(narrow) && narrow.blocks == KeyBlocks(few, [], []) && narrow.lead == []
    requires wide.partialFilter == narrow.partialFilter == None && Within(few, more) && Distinct(few)
    ensures Absorbs(narrow, wide) && FoldInto(wide, narrow).lead == few && WellFormed(FoldInto(wide, narrow))
  {
    assert Fields([]) == [] && Absorbs(narrow, wide);
    FoldKeeps(wide, narrow);
    assert Brought(narrow, wide) == few;
    assert [] + few == few;
    AddFreshNames([], few);
  }

  /** Shapes that bind `more` and `few` and nothing else: the second want folds into the first
      and leads it. */
  lemma {:induction false} BindingFolds(shapes: seq<QueryShape>, more: seq<string>, few: seq<string>)
    requires |shapes| == 3 && shapes[0] == Scanning(more, [], [], map[]) && shapes[2] == Scanning(few, [], [], map[])
    requires Distinct(more) && Distinct(few) && Within(few, more)
    ensures
      var wide, narrow := Wide(shapes, Ascending(more)), Narrow(shapes, Ascending(few));
      && Absorbs(narrow, wide) && FoldInto(wide, narrow).lead == few && WellFormed(FoldInto(wide, narrow))
  {
    BindingWant(shapes[0], 0, more);
    BindingWant(shapes[2], 2, few);
    BindingAbsorbs(Wide(shapes, Ascending(more)), Narrow(shapes, Ascending(few)), more, few);
  }

  /** {a, b}; {a} and a range on b, which wants the same keys; {b}. */
  function Joining(a: string, b: string): seq<QueryShape> {
    [Scanning([a, b], [], [], map[]), Scanning([a], [], [b], map[]), Scanning([b], [], [], map[])]
  }

  lemma {:induction false} JoiningWanted(a: string, b: string)
    requires a != b
    ensures
      var shapes, options := Joining(a, b), Always(false);
      && Appraise(shapes[0], options) == Appraise(shapes[1], options) == Wanted(Ascending([a, b]), None)
      && Appraise(shapes[2], options) == Wanted(Ascending([b]), None)
  {
    var none: seq<SortKey> := [];
    WantedBinding([a, b], false);
    WantedBinding([b], false);
    assert [a] + Fields(none) + [b] == [a, b];
    WantedAll([a], none, [b], false);
    assert Ascending([a]) + none + Ascending([b]) == Ascending([a, b]);
  }

  /** "Every shape the candidate answers" is not so of shapes that join: {a} with a range on b
      is credited to a candidate that {b} leads, and its matches are scattered there. */
  lemma {:induction false} JoinedMayBeScattered(a: string, b: string) returns (c: CreateCandidate)
    requires a != b
    ensures c in RecommendedCreates(Joining(a, b), [], Always(false)).candidates
    ensures 1 in c.sources && Joining(a, b)[1].equality == [a] && !AlwaysContiguous(c.keys, [a])
    ensures !Answered(Joining(a, b)[1], c.keys, c.partialFilter)
  {
    var shapes, keys, fewer := Joining(a, b), Ascending([a, b]), Ascending([b]);
    JoiningWanted(a, b);
    BindingFolds(shapes, [a, b], [b]);
    c := ThreeShapes(shapes, Always(false), keys, fewer);
    LedBy(FoldInto(Wide(shapes, keys), Narrow(shapes, fewer)), a, b);
    ScatteredNotAnswered(shapes[1], c.keys);
  }

  lemma {:induction false} LedBy(w: Want, a: string, b: string)
    requires WellFormed(w) && w.lead == [b] && a != b && [a] <= Fields(w.wantedKeys)
    ensures !AlwaysContiguous(LeadWith(w), [a])
  {
    assert [b][0] !in [a];
    FrontLeads(w, [a]);
    FinalDistinct(w);
    ContiguousExactly(LeadWith(w), [a]);
  }

  /** {a, b, c}; {a} ordered by b and c, which wants the same keys; {a, c}. */
  function Ordering(a: string, b: string, c: string): seq<QueryShape> {
    [ Scanning([a, b, c], [], [], map[]), Scanning([a], Ascending([b, c]), [], map[]), Scanning([a, c], [], [], map[])]
  }

  lemma {:induction false} OrderingWanted(a: string, b: string, c: string)
    requires a != b && a != c && b != c
    ensures
      var shapes, options := Ordering(a, b, c), Always(false);
      && Appraise(shapes[0], options) == Appraise(shapes[1], options) == Wanted(Ascending([a, b, c]), None)
      && Appraise(shapes[2], options) == Wanted(Ascending([a, c]), None)
  {
    var sort := Ascending([b, c]);
    WantedBinding([a, b, c], false);
    WantedBinding([a, c], false);
    assert Fields(sort) == [b, c];
    assert [a] + Fields(sort) + [] == [a, b, c];
    WantedAll([a], sort, [], false);
    assert Ascending([a]) + sort + Ascending([]) == Ascending([a, b, c]);
  }

  /** A shape whose matches stay together may still come out unsorted: {a} ordered by b and c
      is credited to an index on a, c, b. */
  lemma {:induction false} JoinedMayBeUnordered(a: string, b: string, c: string) returns (found: CreateCandidate)
    requires a != b && a != c && b != c
    ensures found in RecommendedCreates(Ordering(a, b, c), [], Always(false)).candidates && 1 in found.sources
    ensures AlwaysContiguous(found.keys, [a]) && !AlwaysInOrder(found.keys, [a], Ascending([b, c]))
    ensures !Answered(Ordering(a, b, c)[1], found.keys, found.partialFilter)
  {
    var shapes, keys, fewer := Ordering(a, b, c), Ascending([a, b, c]), Ascending([a, c]);
    OrderingWanted(a, b, c);
    BindingFolds(shapes, [a, b, c], [a, c]);
    found := ThreeShapes(shapes, Always(false), keys, fewer);
    Between(FoldInto(Wide(shapes, keys), Narrow(shapes, fewer)), a, b, c);
  }

  lemma {:induction false} Between(w: Want, a: string, b: string, c: string)
    requires WellFormed(w) && w.lead == [a, c] && a != b && b != c && w.wantedKeys == Ascending([a, b, c])
    ensures AlwaysContiguous(LeadWith(w), [a]) && !AlwaysInOrder(LeadWith(w), [a], Ascending([b, c]))
  {
    var sort, keys := Ascending([b, c]), LeadWith(w);
    assert Ascending([a]) + sort == w.wantedKeys;
    assert [a] <= Fields(w.wantedKeys);
    FrontLeads(w, [a]);
    FrontOrder(w, [a], sort);
    assert [a, c][1..] == [c] && Fields(sort) == [b, c];
    assert !SortAllowed(w.lead, [a], Fields(sort));
    FinalDistinct(w);
    ContiguousExactly(keys, [a]);
    assert Fields(w.wantedKeys) == [a, b, c] == [a] + Fields(sort);
    ServedExactly(keys, [a], sort);
  }
}
