/** Does an existing index already serve what a shape wants (servesWant in
    apps/api/src/analysis/workload.ts), and what that answer means for documents. */
module Serving {
  import opened Engine
  import opened Documents
  import opened Redundancy
  import opened Esr

  predicate SameSet(a: seq<string>, b: seq<string>) {
    |a| == |b| && forall i :: 0 <= i < |a| ==> a[i] in b
  }

  predicate SameFilter(a: Option<Filter>, b: Option<Filter>) {
    a == b
  }

  /** Sort keys in sequence, each in its own direction or every one reversed. */
  predicate SortServed(have: seq<Key>, sort: seq<SortKey>)
    requires |have| == |sort|
  {
    && (forall i :: 0 <= i < |have| ==> have[i].field == sort[i].field)
    && ( || (forall i :: 0 <= i < |have| ==> have[i].direction == sort[i].direction)
         || (forall i :: 0 <= i < |have| ==> have[i].direction == Flip(sort[i].direction)))
  }

  function Width(blocks: KeyBlocks): nat {
    |blocks.equality| + |blocks.sort| + |blocks.range|
  }

  /** Block for block: equality fields in any order, the sort, the range fields in any
      order, then anything. */
  predicate ServesBlocks(keys: seq<Key>, blocks: KeyBlocks) {
    var equality := |blocks.equality|;
    var sortEnd := equality + |blocks.sort|;
    && |keys| >= Width(blocks)
    && AllOrdered(keys[..Width(blocks)])
    && SameSet(Fields(keys[..equality]), blocks.equality)
    && SortServed(keys[equality..sortEnd], blocks.sort)
    && SameSet(Fields(keys[sortEnd..Width(blocks)]), blocks.range)
  }

  predicate ServesWant(index: IndexSpec, wantedKeys: seq<SortKey>, blocks: KeyBlocks, filter: Option<Filter>) {
    || Fields(index.keys) == Fields(wantedKeys)
    || ( && !index.sparse
         && (index.partialFilter.None? || SameFilter(index.partialFilter, filter))
         && ServesBlocks(index.keys, blocks))
  }

  // --- Sets of distinct names --------------------------------------------------

  lemma {:induction false} DistinctCardinality(a: seq<string>)
    requires Distinct(a)
    ensures |(set f | f in a)| == |a|
  {
    if a != [] {
      var short, last := a[..|a| - 1], a[|a| - 1];
      DistinctCardinality(short);
      assert (set f | f in a) == (set f | f in short) + {last};
      assert last !in short;
    }
  }

  lemma {:induction false} CardinalityBound(a: seq<string>)
    ensures |(set f | f in a)| <= |a|
  {
    if a != [] {
      var short := a[..|a| - 1];
      CardinalityBound(short);
      assert (set f | f in a) == (set f | f in short) + {a[|a| - 1]};
    }
  }

  /** As many distinct names, all of them in `b`, are the names of `b`. */
  lemma {:induction false} SameSetBothWays(a: seq<string>, b: seq<string>)
    requires Distinct(a) && SameSet(a, b)
    ensures forall f :: f in b <==> f in a
  {
    var sa, sb := set f | f in a, set f | f in b;
    DistinctCardinality(a);
    CardinalityBound(b);
    assert sa <= sb;
    SubsetOfSameSize(sa, sb);
    forall f | f in b ensures f in a {
      assert f in sb;
    }
  }

  lemma {:induction false} SubsetOfSameSize(a: set<string>, b: set<string>)
    requires a <= b && |a| >= |b|
    ensures a == b
  {
    assert b == a + (b - a);
    assert |b| == |a| + |b - a|;
  }

  // --- The order behind a bound prefix -----------------------------------------

  /** The documents a query with these equality predicates matches. */
  ghost predicate Matches(equality: seq<string>, binding: Doc, d: Doc) {
    forall f :: f in equality ==> d(f) == binding(f)
  }

  ghost predicate AllMatch(equality: seq<string>, binding: Doc, docs: seq<Doc>) {
    forall i :: 0 <= i < |docs| ==> Matches(equality, binding, docs[i])
  }

  /** The matches of every binding sit side by side in the list. */
  ghost predicate Contiguous(equality: seq<string>, docs: seq<Doc>) {
    forall binding: Doc, i, j, k :: 0 <= i <= k <= j < |docs|
      && Matches(equality, binding, docs[i]) && Matches(equality, binding, docs[j])
      ==> Matches(equality, binding, docs[k])
  }

  lemma {:induction false} MatchesTie(lead: seq<Key>, equality: seq<string>, binding: Doc, a: Doc, b: Doc)
    requires forall f :: f in Fields(lead) ==> f in equality
    requires Matches(equality, binding, a) && Matches(equality, binding, b)
    ensures Tie(lead, a, b)
  {
    forall i | 0 <= i < |lead| ensures a(lead[i].field) == b(lead[i].field) {
      assert Fields(lead)[i] == lead[i].field;
    }
  }

  lemma {:induction false} BoundPrefixContiguous(lead: seq<Key>, rest: seq<Key>, equality: seq<string>, docs: seq<Doc>)
    requires AllOrdered(lead) && Sorted(lead + rest, docs)
    requires forall f :: f in Fields(lead) <==> f in equality
    ensures Contiguous(equality, docs)
  {
    SortedPrefix(lead, rest, docs);
    forall binding: Doc, i, j, k | 0 <= i <= k <= j < |docs|
      && Matches(equality, binding, docs[i]) && Matches(equality, binding, docs[j])
      ensures Matches(equality, binding, docs[k])
    {
      if i < k < j {
        MatchesTie(lead, equality, binding, docs[i], docs[j]);
        LeqSqueeze(lead, docs[i], docs[k], docs[j]);
        forall f | f in equality ensures docs[k](f) == binding(f) {
          var p :| 0 <= p < |lead| && Fields(lead)[p] == f;
          assert docs[i](lead[p].field) == docs[k](lead[p].field);
        }
      }
    }
  }

  /** Matches come out in the order of the keys behind the bound prefix. */
  lemma {:induction false} BoundPrefixOrders(lead: seq<Key>, rest: seq<Key>, equality: seq<string>, binding: Doc,
                                             docs: seq<Doc>)
    requires forall f :: f in Fields(lead) ==> f in equality
    requires AllMatch(equality, binding, docs)
    ensures Sorted(lead + rest, docs) == Sorted(rest, docs)
  {
    forall i, j | 0 <= i < j < |docs|
      ensures Leq(lead + rest, docs[i], docs[j]) == Leq(rest, docs[i], docs[j])
    {
      MatchesTie(lead, equality, binding, docs[i], docs[j]);
      TieSkips(lead, rest, docs[i], docs[j]);
    }
    if Sorted(rest, docs) {
      forall i, j | 0 <= i < j < |docs| ensures Leq(lead + rest, docs[i], docs[j]) {
        assert Leq(rest, docs[i], docs[j]);
      }
    }
    if Sorted(lead + rest, docs) {
      forall i, j | 0 <= i < j < |docs| ensures Leq(rest, docs[i], docs[j]) {
        assert Leq(lead + rest, docs[i], docs[j]);
      }
    }
  }

  /** For matches, walking in the sort block's order is walking in the shape's. */
  lemma {:induction false} SortBlockWalk(shape: QueryShape, binding: Doc, docs: seq<Doc>, backward: bool)
    requires AllMatch(shape.equality, binding, docs)
    ensures ServedByWalk(BlocksOf(shape, EsrKeys(shape)).sort, docs, backward)
      == ServedByWalk(shape.sort, docs, backward)
  {
    var walk := if backward then Reverse(docs) else docs;
    var sort := BlocksOf(shape, EsrKeys(shape)).sort;
    forall i, j | 0 <= i < j < |walk|
      ensures Leq(sort, walk[i], walk[j]) == Leq(shape.sort, walk[i], walk[j])
    {
      assert Matches(shape.equality, binding, walk[i]) && Matches(shape.equality, binding, walk[j]);
      SortBlockOrders(shape, walk[i], walk[j]);
    }
    assert Sorted(sort, walk) ==> Sorted(shape.sort, walk) by {
      if Sorted(sort, walk) {
        forall i, j | 0 <= i < j < |walk| ensures Leq(shape.sort, walk[i], walk[j]) {
          assert Leq(sort, walk[i], walk[j]);
        }
      }
    }
    assert Sorted(shape.sort, walk) ==> Sorted(sort, walk) by {
      if Sorted(shape.sort, walk) {
        forall i, j | 0 <= i < j < |walk| ensures Leq(sort, walk[i], walk[j]) {
          assert Leq(shape.sort, walk[i], walk[j]);
        }
      }
    }
  }

  lemma {:induction false} SortBlockNeither(shape: QueryShape, binding: Doc, docs: seq<Doc>)
    requires AllMatch(shape.equality, binding, docs)
    ensures NeitherWalk(BlocksOf(shape, EsrKeys(shape)).sort, docs) == NeitherWalk(shape.sort, docs)
  {
    SortBlockWalk(shape, binding, docs, false);
    SortBlockWalk(shape, binding, docs, true);
  }

  // --- What the block test means -----------------------------------------------

  function LeadOf(keys: seq<Key>, blocks: KeyBlocks): seq<Key>
    requires |keys| >= Width(blocks)
  {
    keys[..|blocks.equality|]
  }

  function BehindLead(keys: seq<Key>, blocks: KeyBlocks): seq<Key>
    requires |keys| >= Width(blocks)
  {
    keys[|blocks.equality|..Width(blocks)]
  }

  lemma {:induction false} LeadFields(shape: QueryShape, keys: seq<Key>)
    requires ServesBlocks(keys, BlocksOf(shape, EsrKeys(shape))) && Distinct(Fields(keys))
    ensures forall f :: f in Fields(LeadOf(keys, BlocksOf(shape, EsrKeys(shape)))) <==> f in shape.equality
  {
    var blocks := BlocksOf(shape, EsrKeys(shape));
    var lead := LeadOf(keys, blocks);
    EsrSplit(shape);
    assert forall i :: 0 <= i < |lead| ==> Fields(lead)[i] == Fields(keys)[i];
    SameSetBothWays(Fields(lead), blocks.equality);
  }

  /** An accepted index, no filter: the matches of any binding are one contiguous
      segment of the index, one fixed walk direction presents every such segment in the
      shape's full sort order, and every range field is a key of the index. */
  lemma {:induction false} ServesWantMeaning(shape: QueryShape, keys: seq<Key>, docs: seq<Doc>)
    requires ServesBlocks(keys, BlocksOf(shape, EsrKeys(shape))) && Distinct(Fields(keys))
    requires Sorted(keys[..Width(BlocksOf(shape, EsrKeys(shape)))], docs)
    ensures Contiguous(shape.equality, docs)
    ensures
      var blocks := BlocksOf(shape, EsrKeys(shape));
      var backward := NeedsBackwardWalk(blocks.sort, BehindLead(keys, blocks));
      forall binding: Doc, lo, hi :: 0 <= lo <= hi <= |docs| && AllMatch(shape.equality, binding, docs[lo..hi])
        ==> ServedByWalk(shape.sort, docs[lo..hi], backward)
    ensures forall f :: f in shape.range ==> f in Fields(keys)
  {
    var blocks := BlocksOf(shape, EsrKeys(shape));
    var lead, rest := LeadOf(keys, blocks), BehindLead(keys, blocks);
    var span := keys[..Width(blocks)];
    assert span == lead + rest;
    LeadFields(shape, keys);
    assert AllOrdered(lead) by {
      assert forall i :: 0 <= i < |lead| ==> lead[i] == span[i];
    }
    BoundPrefixContiguous(lead, rest, shape.equality, docs);
    var backward := NeedsBackwardWalk(blocks.sort, rest);
    forall binding: Doc, lo, hi | 0 <= lo <= hi <= |docs| && AllMatch(shape.equality, binding, docs[lo..hi])
      ensures ServedByWalk(shape.sort, docs[lo..hi], backward)
    {
      SegmentServed(shape, keys, binding, docs, lo, hi);
    }
    RangeFieldsPresent(shape, keys);
  }

  /** The same without the shape: a sort block right behind a bound lead is walked. */
  lemma {:induction false} BoundSortServed(lead: seq<Key>, rest: seq<Key>, equality: seq<string>, sort: seq<SortKey>,
                                           binding: Doc, seg: seq<Doc>)
    requires forall f :: f in Fields(lead) ==> f in equality
    requires |sort| <= |rest| && SortServed(rest[..|sort|], sort)
    requires Sorted(lead + rest, seg) && AllMatch(equality, binding, seg)
    ensures ServedByWalk(sort, seg, NeedsBackwardWalk(sort, rest))
  {
    BoundPrefixOrders(lead, rest, equality, binding, seg);
    var have := rest[..|sort|];
    assert forall i :: 0 <= i < |sort| ==> rest[i] == have[i];
    assert OrderCovers(sort, rest);
    assert rest == have + rest[|sort|..];
    SortedPrefix(have, rest[|sort|..], seg);
    CoversSound(sort, rest, seg);
  }

  // --- In order, whatever the data ---------------------------------------------

  /** Whatever the data, the matches of any binding come out in the sort on some walk. */
  ghost predicate AlwaysInOrder(keys: seq<Key>, equality: seq<string>, sort: seq<SortKey>) {
    forall binding: Doc, docs :: Sorted(keys, docs) && AllMatch(equality, binding, docs) ==> !NeitherWalk(sort, docs)
  }

  /** The bound fields are apart from the sort and from the keys behind them. */
  predicate BehindApart(lead: seq<Key>, rest: seq<Key>, equality: seq<string>, sort: seq<SortKey>) {
    && Distinct(Fields(sort)) && Distinct(Fields(rest))
    && (forall f :: f in equality ==> f !in Fields(sort) && f !in Fields(rest))
    && (forall f :: f in Fields(lead) ==> f in equality)
  }

  lemma {:induction false} NotInOrder(keys: seq<Key>, equality: seq<string>, sort: seq<SortKey>, binding: Doc,
                                      docs: seq<Doc>)
    requires Sorted(keys, docs) && AllMatch(equality, binding, docs) && NeitherWalk(sort, docs)
    ensures !AlwaysInOrder(keys, equality, sort)
  {
  }

  /** Documents out of order behind the lead are out of order behind a bound prefix, too. */
  lemma {:induction false} RefutedSort(lead: seq<Key>, rest: seq<Key>, equality: seq<string>, sort: seq<SortKey>,
                                       docs: seq<Doc>)
    requires forall f :: f in Fields(lead) ==> f in equality
    requires Refutes(docs, sort, rest, equality)
    ensures !AlwaysInOrder(lead + rest, equality, sort)
  {
    var zero: Doc := f => 0;
    assert AllMatch(equality, zero, docs);
    BoundPrefixOrders(lead, rest, equality, zero, docs);
    NotInOrder(lead + rest, equality, sort, zero, docs);
  }

  lemma {:induction false} CoversIsServed(sort: seq<SortKey>, rest: seq<Key>)
    requires AllOrdered(rest)
    ensures OrderCovers(sort, rest) <==> |sort| <= |rest| && SortServed(rest[..|sort|], sort)
  {
    if |sort| <= |rest| {
      var have := rest[..|sort|];
      assert forall i :: 0 <= i < |sort| ==> have[i] == rest[i];
    }
  }

  /** Behind a bound lead, the matches come out in the sort whatever the data if and only if
      the keys there begin with it, as it stands or reversed throughout. */
  lemma {:induction false} BoundOrderExactly(lead: seq<Key>, rest: seq<Key>, equality: seq<string>, sort: seq<SortKey>)
    requires AllOrdered(rest) && BehindApart(lead, rest, equality, sort)
    ensures AlwaysInOrder(lead + rest, equality, sort) <==> OrderCovers(sort, rest)
  {
    if OrderCovers(sort, rest) {
      CoversIsServed(sort, rest);
      forall binding: Doc, docs | Sorted(lead + rest, docs) && AllMatch(equality, binding, docs)
        ensures !NeitherWalk(sort, docs)
      {
        BoundSortServed(lead, rest, equality, sort, binding, docs);
      }
    } else {
      CoversComplete(sort, rest, equality);
      var docs :| Refutes(docs, sort, rest, equality);
      RefutedSort(lead, rest, equality, sort, docs);
    }
  }

  lemma {:induction false} SplitOrderExactly(keys: seq<Key>, e: nat, equality: seq<string>, sort: seq<SortKey>)
    requires e <= |keys| && AllOrdered(keys) && BehindApart(keys[..e], keys[e..], equality, sort)
    ensures AlwaysInOrder(keys, equality, sort) <==> OrderCovers(sort, keys[e..])
  {
    BoundOrderExactly(keys[..e], keys[e..], equality, sort);
    assert keys == keys[..e] + keys[e..];
  }

  /** The sort block stands for the shape's whole sort. */
  lemma {:induction false} OrderOfShape(keys: seq<Key>, shape: QueryShape)
    ensures AlwaysInOrder(keys, shape.equality, BlocksOf(shape, EsrKeys(shape)).sort)
      <==> AlwaysInOrder(keys, shape.equality, shape.sort)
  {
    forall binding: Doc, docs | Sorted(keys, docs) && AllMatch(shape.equality, binding, docs)
      ensures NeitherWalk(BlocksOf(shape, EsrKeys(shape)).sort, docs) == NeitherWalk(shape.sort, docs)
    {
      SortBlockNeither(shape, binding, docs);
    }
  }

  lemma {:induction false} SortedSegment(keys: seq<Key>, docs: seq<Doc>, lo: nat, hi: nat)
    requires Sorted(keys, docs) && lo <= hi <= |docs|
    ensures Sorted(keys, docs[lo..hi])
  {
    var seg := docs[lo..hi];
    forall i, j | 0 <= i < j < |seg| ensures Leq(keys, seg[i], seg[j]) {
      assert seg[i] == docs[lo + i] && seg[j] == docs[lo + j];
    }
  }

  lemma {:induction false} SegmentServed(shape: QueryShape, keys: seq<Key>, binding: Doc, docs: seq<Doc>, lo: nat,
                                         hi: nat)
    requires ServesBlocks(keys, BlocksOf(shape, EsrKeys(shape))) && Distinct(Fields(keys))
    requires Sorted(keys[..Width(BlocksOf(shape, EsrKeys(shape)))], docs)
    requires lo <= hi <= |docs| && AllMatch(shape.equality, binding, docs[lo..hi])
    ensures
      var blocks := BlocksOf(shape, EsrKeys(shape));
      ServedByWalk(shape.sort, docs[lo..hi], NeedsBackwardWalk(blocks.sort, BehindLead(keys, blocks)))
  {
    var blocks := BlocksOf(shape, EsrKeys(shape));
    var lead, rest := LeadOf(keys, blocks), BehindLead(keys, blocks);
    assert keys[..Width(blocks)] == lead + rest;
    SortedSegment(lead + rest, docs, lo, hi);
    LeadFields(shape, keys);
    assert rest[..|blocks.sort|] == keys[|blocks.equality|..|blocks.equality| + |blocks.sort|];
    BoundSortServed(lead, rest, shape.equality, blocks.sort, binding, docs[lo..hi]);
    SortBlockWalk(shape, binding, docs[lo..hi], NeedsBackwardWalk(blocks.sort, rest));
  }

  lemma {:induction false} LaidFields(keys: seq<SortKey>, blocks: KeyBlocks)
    requires Laid(keys, blocks)
    ensures Fields(keys) == blocks.equality + Fields(blocks.sort) + blocks.range
  {
    FieldsAppend(Ascending(blocks.equality), blocks.sort);
    FieldsAppend(Ascending(blocks.equality) + blocks.sort, Ascending(blocks.range));
  }

  lemma {:induction false} FrontFields(keys: seq<Key>, front: seq<string>, rest: seq<string>)
    requires Fields(keys) == front + rest
    ensures |front| <= |keys| && Fields(keys[..|front|]) == front
  {
    assert |keys| == |Fields(keys)|;
    assert forall i :: 0 <= i < |front| ==> Fields(keys)[i] == front[i];
  }

  /** An index accepted on exactly the wanted fields, directions aside: the matches are still
      one contiguous segment and every range field is a key. Only the sort depends on the
      directions. */
  lemma {:induction false} EqualFieldsMeaning(shape: QueryShape, keys: seq<Key>, docs: seq<Doc>)
    requires Fields(keys) == Fields(EsrKeys(shape)) && AllOrdered(keys) && Sorted(keys, docs)
    ensures Contiguous(shape.equality, docs)
    ensures forall f :: f in shape.range ==> f in Fields(keys)
  {
    var blocks := BlocksOf(shape, EsrKeys(shape));
    EsrLaid(shape);
    EsrSplit(shape);
    LaidFields(EsrKeys(shape), blocks);
    Assoc(blocks.equality, Fields(blocks.sort), blocks.range);
    FrontFields(keys, blocks.equality, Fields(blocks.sort) + blocks.range);
    BoundFront(keys, |blocks.equality|, shape.equality, docs);
  }

  lemma {:induction false} BoundFront(keys: seq<Key>, e: nat, equality: seq<string>, docs: seq<Doc>)
    requires e <= |keys| && AllOrdered(keys) && Sorted(keys, docs)
    requires forall f :: f in Fields(keys[..e]) <==> f in equality
    ensures Contiguous(equality, docs)
  {
    assert keys == keys[..e] + keys[e..];
    BoundPrefixContiguous(keys[..e], keys[e..], equality, docs);
  }

  /** A stretch of keys that names the same set as `block` makes its fields keys. */
  lemma {:induction false} StretchFields(keys: seq<Key>, lo: nat, hi: nat, block: seq<string>, f: string)
    requires lo <= hi <= |keys| && Distinct(Fields(keys))
    requires SameSet(Fields(keys[lo..hi]), block) && f in block
    ensures f in Fields(keys)
  {
    var part := Fields(keys[lo..hi]);
    assert forall i :: 0 <= i < |part| ==> part[i] == Fields(keys)[lo + i];
    SameSetBothWays(part, block);
    var i :| 0 <= i < |part| && part[i] == f;
    assert Fields(keys)[lo + i] == f;
  }

  lemma {:induction false} SortFieldsPresent(keys: seq<Key>, lo: nat, sort: seq<SortKey>, f: string)
    requires lo + |sort| <= |keys| && SortServed(keys[lo..lo + |sort|], sort) && f in Fields(sort)
    ensures f in Fields(keys)
  {
    var i :| 0 <= i < |sort| && Fields(sort)[i] == f;
    assert keys[lo..lo + |sort|][i].field == f;
    assert Fields(keys)[lo + i] == f;
  }

  lemma {:induction false} BlockFieldsPresent(keys: seq<Key>, blocks: KeyBlocks, f: string)
    requires ServesBlocks(keys, blocks) && Distinct(Fields(keys))
    requires f in blocks.equality || f in Fields(blocks.sort) || f in blocks.range
    ensures f in Fields(keys)
  {
    var e, s, w := |blocks.equality|, |blocks.sort|, Width(blocks);
    if f in blocks.equality {
      assert keys[0..e] == keys[..e];
      StretchFields(keys, 0, e, blocks.equality, f);
    } else if f in Fields(blocks.sort) {
      SortFieldsPresent(keys, e, blocks.sort, f);
    } else {
      StretchFields(keys, e + s, w, blocks.range, f);
    }
  }

  lemma {:induction false} RangeFieldsPresent(shape: QueryShape, keys: seq<Key>)
    requires ServesBlocks(keys, BlocksOf(shape, EsrKeys(shape))) && Distinct(Fields(keys))
    ensures forall f :: f in shape.range ==> f in Fields(keys)
  {
    var blocks := BlocksOf(shape, EsrKeys(shape));
    EsrLaid(shape);
    LaidFields(EsrKeys(shape), blocks);
    forall f | f in shape.range ensures f in Fields(keys) {
      BlockFieldsPresent(keys, blocks, f);
    }
  }
}
