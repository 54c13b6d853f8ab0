/** Re-ordering a protected compound index by direction alone
    (apps/api/src/analysis/reorder.ts). */
module Reorder {
  import opened Engine
  import opened Redundancy
  import opened Esr
  import opened Serving

  datatype Position = Position(at: nat, direction: Direction)

  // --- Ordering positions ------------------------------------------------------

  /** The positions whose direction a shape constrains: its sort block, which stands
      right behind its equality block. */
  function OrderingPositions(shape: QueryShape): seq<Position> {
    var blocks := BlocksOf(shape, EsrKeys(shape));
    seq(|blocks.sort|, i requires 0 <= i < |blocks.sort| => Position(|blocks.equality| + i, blocks.sort[i].direction))
  }

  function PositionsFrom(keys: seq<SortKey>, base: nat): seq<Position>
    requires base <= |keys|
  {
    seq(|keys| - base, i requires 0 <= i < |keys| - base => Position(base + i, keys[base + i].direction))
  }

  /** The source's first loop: count the distinct equality fields. */
  method CountEquality(equality: seq<string>) returns (seen: set<string>, position: nat)
    ensures seen == set f | f in Fields(PushAll([], Ascending(equality)))
    ensures position == |PushAll([], Ascending(equality))|
  {
    seen, position := {}, 0;
    ghost var eq := Ascending(equality);
    ghost var acc: seq<SortKey> := [];
    for i := 0 to |equality|
      invariant PushAll(acc, eq[i..]) == PushAll([], eq)
      invariant seen == set f | f in Fields(acc)
      invariant position == |acc|
    {
      assert eq[i..][1..] == eq[i + 1..];
      if equality[i] !in seen {
        FieldsAppend(acc, [eq[i]]);
        assert Fields([eq[i]]) == [equality[i]];
        seen := seen + {equality[i]};
        position := position + 1;
        acc := acc + [eq[i]];
      }
    }
  }

  /** The second: report each sort key whose field is still unseen. */
  method ReportSort(sort: seq<SortKey>, ghost start: seq<SortKey>, seenBefore: set<string>, from: nat)
    returns (out: seq<Position>)
    requires seenBefore == set f | f in Fields(start)
    requires from == |start|
    ensures from <= |PushAll(start, sort)| && out == PositionsFrom(PushAll(start, sort), from)
  {
    out := [];
    var seen, position := seenBefore, from;
    ghost var acc := start;
    for i := 0 to |sort|
      invariant from <= |acc| == position
      invariant PushAll(acc, sort[i..]) == PushAll(start, sort)
      invariant seen == set f | f in Fields(acc)
      invariant out == PositionsFrom(acc, from)
    {
      assert sort[i..][1..] == sort[i + 1..];
      if sort[i].field !in seen {
        OneMorePosition(acc, sort[i], from);
        seen := seen + {sort[i].field};
        out := out + [Position(position, sort[i].direction)];
        position := position + 1;
        acc := acc + [sort[i]];
      }
    }
  }

  lemma {:induction false} OneMorePosition(acc: seq<SortKey>, k: SortKey, from: nat)
    requires from <= |acc|
    ensures PositionsFrom(acc + [k], from) == PositionsFrom(acc, from) + [Position(|acc|, k.direction)]
    ensures (set f | f in Fields(acc + [k])) == (set f | f in Fields(acc)) + {k.field}
  {
    FieldsAppend(acc, [k]);
    assert Fields([k]) == [k.field];
  }

  lemma {:induction false} PositionsBehind(lead: seq<SortKey>, sort: seq<SortKey>)
    ensures PositionsFrom(lead + sort, |lead|)
      == seq(|sort|, i requires 0 <= i < |sort| => Position(|lead| + i, sort[i].direction))
  {
  }

  method ComputeOrderingPositions(shape: QueryShape) returns (out: seq<Position>)
    ensures out == OrderingPositions(shape)
  {
    var seen, position := CountEquality(shape.equality);
    out := ReportSort(shape.sort, EqualityStage(shape), seen, position);
    EsrSplit(shape);
    PositionsBehind(EqualityStage(shape), BlocksOf(shape, EsrKeys(shape)).sort);
  }

  // --- Serving an order --------------------------------------------------------

  predicate ServesPositions(keys: seq<Key>, positions: seq<Position>) {
    && (forall i :: 0 <= i < |positions| ==>
          positions[i].at < |keys| && Ordered(keys[positions[i].at].direction))
    && ( || (forall i :: 0 <= i < |positions| ==> keys[positions[i].at].direction == positions[i].direction)
         || (forall i :: 0 <= i < |positions| ==> keys[positions[i].at].direction == Flip(positions[i].direction)))
  }

  predicate ServesShapeOrder(keys: seq<Key>, shape: QueryShape) {
    ServesPositions(keys, OrderingPositions(shape))
  }

  /** Keys on the fields of laid-out blocks fall into the same blocks. */
  lemma {:induction false} KeysInBlocks(keys: seq<Key>, blocks: KeyBlocks)
    requires Fields(keys) == blocks.equality + Fields(blocks.sort) + blocks.range
    ensures |blocks.equality| + |blocks.sort| <= |keys|
    ensures Fields(keys[..|blocks.equality|]) == blocks.equality
    ensures SameLeadingFields(blocks.sort, keys[|blocks.equality|..])
  {
    var e := |blocks.equality|;
    assert |keys| == |Fields(keys)|;
    assert forall i :: 0 <= i < |keys| ==> keys[i].field == Fields(keys)[i];
    forall i | 0 <= i < |blocks.sort| ensures keys[e..][i].field == blocks.sort[i].field {
      assert Fields(keys)[e + i] == Fields(blocks.sort)[i];
    }
  }

  /** The positions test is the key-order test on the sort block. */
  lemma {:induction false} PositionsAreOrderCovers(keys: seq<Key>, shape: QueryShape)
    requires Fields(keys) == Fields(EsrKeys(shape)) && AllOrdered(keys)
    ensures
      var blocks := BlocksOf(shape, EsrKeys(shape));
      && |blocks.equality| + |blocks.sort| <= |keys|
      && Fields(keys[..|blocks.equality|]) == blocks.equality
      && SameLeadingFields(blocks.sort, keys[|blocks.equality|..])
      && ServesShapeOrder(keys, shape) == OrderCovers(blocks.sort, keys[|blocks.equality|..])
  {
    var blocks := BlocksOf(shape, EsrKeys(shape));
    EsrLaid(shape);
    LaidFields(EsrKeys(shape), blocks);
    KeysInBlocks(keys, blocks);
    PositionsMirror(keys, blocks, OrderingPositions(shape));
  }

  lemma {:induction false} PositionsMirror(keys: seq<Key>, blocks: KeyBlocks, positions: seq<Position>)
    requires AllOrdered(keys) && |blocks.equality| + |blocks.sort| <= |keys|
    requires SameLeadingFields(blocks.sort, keys[|blocks.equality|..])
    requires |positions| == |blocks.sort|
    requires forall i :: 0 <= i < |positions| ==>
      positions[i] == Position(|blocks.equality| + i, blocks.sort[i].direction)
    ensures ServesPositions(keys, positions) == OrderCovers(blocks.sort, keys[|blocks.equality|..])
  {
    var e := |blocks.equality|;
    var rest := keys[e..];
    assert forall i :: 0 <= i < |positions| ==> rest[i] == keys[positions[i].at];
    if OrderCovers(blocks.sort, rest) {
      if forall i :: 0 <= i < |blocks.sort| ==> rest[i].direction == blocks.sort[i].direction {
        forall i | 0 <= i < |positions| ensures keys[positions[i].at].direction == positions[i].direction {
          assert rest[i].direction == blocks.sort[i].direction;
        }
      } else {
        forall i | 0 <= i < |positions| ensures keys[positions[i].at].direction == Flip(positions[i].direction) {
          assert rest[i].direction == Flip(blocks.sort[i].direction);
        }
      }
    }
  }

  lemma {:induction false} BlocksBehind(keys: seq<Key>, shape: QueryShape)
    requires Fields(keys) == Fields(EsrKeys(shape)) && AllOrdered(keys)
    ensures
      var blocks := BlocksOf(shape, EsrKeys(shape));
      && |blocks.equality| <= |keys|
      && BehindApart(keys[..|blocks.equality|], keys[|blocks.equality|..], shape.equality, blocks.sort)
  {
    PositionsAreOrderCovers(keys, shape);
    TailsDistinct(keys, shape);
    EsrSplit(shape);
  }

  /** For an index on the shape's own fields the test is exact: it passes if and only if
      every list of matching documents in the index's order is in the shape's sort order
      on a forward or a backward walk. */
  lemma {:induction false} ServesShapeOrderExact(keys: seq<Key>, shape: QueryShape)
    requires Fields(keys) == Fields(EsrKeys(shape)) && AllOrdered(keys)
    ensures ServesShapeOrder(keys, shape) <==> AlwaysInOrder(keys, shape.equality, shape.sort)
  {
    BlocksBehind(keys, shape);
    var blocks := BlocksOf(shape, EsrKeys(shape));
    SplitOrderExactly(keys, |blocks.equality|, shape.equality, blocks.sort);
    PositionsAreOrderCovers(keys, shape);
    OrderOfShape(keys, shape);
  }

  lemma {:induction false} BlocksApart(keys: seq<Key>, blocks: KeyBlocks)
    requires Fields(keys) == blocks.equality + Fields(blocks.sort) + blocks.range && Distinct(Fields(keys))
    ensures |blocks.equality| <= |keys|
    ensures Distinct(Fields(blocks.sort)) && Distinct(Fields(keys[|blocks.equality|..]))
    ensures forall f :: f in blocks.equality ==> f !in Fields(blocks.sort) && f !in Fields(keys[|blocks.equality|..])
  {
    var all, e := Fields(keys), |blocks.equality|;
    assert |all| == |keys|;
    assert forall i :: 0 <= i < e ==> all[i] == blocks.equality[i];
    assert forall i :: 0 <= i < |blocks.sort| ==> Fields(blocks.sort)[i] == all[e + i];
    assert forall i :: 0 <= i < |keys| - e ==> Fields(keys[e..])[i] == all[e + i];
  }

  lemma {:induction false} TailsDistinct(keys: seq<Key>, shape: QueryShape)
    requires Fields(keys) == Fields(EsrKeys(shape))
    ensures
      var blocks := BlocksOf(shape, EsrKeys(shape));
      && |blocks.equality| <= |keys|
      && Distinct(Fields(blocks.sort)) && Distinct(Fields(keys[|blocks.equality|..]))
      && forall f :: f in blocks.equality ==> f !in Fields(blocks.sort) && f !in Fields(keys[|blocks.equality|..])
  {
    EsrLaid(shape);
    LaidFields(EsrKeys(shape), BlocksOf(shape, EsrKeys(shape)));
    BlocksApart(keys, BlocksOf(shape, EsrKeys(shape)));
  }

  // --- The target pattern ------------------------------------------------------

  function Find(positions: seq<Position>, i: nat): Option<Direction> {
    if positions == [] then None
    else if positions[0].at == i then Some(positions[0].direction)
    else Find(positions[1..], i)
  }

  function BuildKey(key: Key, wanted: Option<Direction>, invert: bool): Key {
    match wanted
    case None => Key(key.field, if key.direction.Desc? then Desc else Asc)
    case Some(d) => Key(key.field, if invert then Flip(d) else d)
  }

  function Build(keys: seq<Key>, positions: seq<Position>, invert: bool): (built: seq<Key>)
    ensures Fields(built) == Fields(keys)
  {
    seq(|keys|, i requires 0 <= i < |keys| => BuildKey(keys[i], Find(positions, i), invert))
  }

  /** How many keys change direction. */
  function Flips(from: seq<Key>, to: seq<Key>): nat
    requires |from| == |to|
  {
    if from == [] then 0
    else
      var changed := if from[|from| - 1].direction == to[|to| - 1].direction then 0 else 1;
      Flips(from[..|from| - 1], to[..|to| - 1]) + changed
  }

  function TargetDirections(keys: seq<Key>, shape: QueryShape): (target: seq<Key>)
    ensures Fields(target) == Fields(keys)
  {
    var positions := OrderingPositions(shape);
    var straight, reversed := Build(keys, positions, false), Build(keys, positions, true);
    assert |straight| == |Fields(straight)| && |reversed| == |Fields(reversed)| && |keys| == |Fields(keys)|;
    if Flips(keys, reversed) < Flips(keys, straight) then reversed else straight
  }

  lemma {:induction false} FindAt(positions: seq<Position>, base: nat, i: nat)
    requires forall q :: 0 <= q < |positions| ==> positions[q].at == base + q
    ensures Find(positions, i) ==
      if base <= i < base + |positions| then Some(positions[i - base].direction) else None
  {
    if positions != [] && positions[0].at != i {
      FindAt(positions[1..], base + 1, i);
    }
  }

  /** Fewer changes key by key are fewer changes. */
  lemma {:induction false} FlipsMonotone(from: seq<Key>, a: seq<Key>, b: seq<Key>)
    requires |from| == |a| == |b|
    requires forall i :: 0 <= i < |from| && from[i].direction != a[i].direction ==> from[i].direction != b[i].direction
    ensures Flips(from, a) <= Flips(from, b)
  {
    if from != [] {
      var n := |from| - 1;
      FlipsMonotone(from[..n], a[..n], b[..n]);
    }
  }

  /** Either pattern serves the shape. */
  lemma {:induction false} BuildServes(keys: seq<Key>, shape: QueryShape, invert: bool)
    requires |keys| >= |BlocksOf(shape, EsrKeys(shape)).equality| + |OrderingPositions(shape)|
    ensures ServesShapeOrder(Build(keys, OrderingPositions(shape), invert), shape)
  {
    var positions := OrderingPositions(shape);
    var e := |BlocksOf(shape, EsrKeys(shape)).equality|;
    var built := Build(keys, positions, invert);
    forall q | 0 <= q < |positions|
      ensures built[positions[q].at].direction
        == if invert then Flip(positions[q].direction) else positions[q].direction
    {
      FindAt(positions, e, positions[q].at);
    }
  }

  /** Whatever assignment of directions serves the shape agrees with one of the two
      patterns wherever that pattern changes a key. */
  lemma {:induction false} ServingAgrees(keys: seq<Key>, base: nat, positions: seq<Position>, other: seq<Key>,
                                         invert: bool)
    requires AllOrdered(keys) && |other| == |keys|
    requires forall q :: 0 <= q < |positions| ==> positions[q].at == base + q
    requires base + |positions| <= |keys| || positions == []
    requires forall q :: 0 <= q < |positions| ==>
      other[base + q].direction == if invert then Flip(positions[q].direction) else positions[q].direction
    ensures Flips(keys, Build(keys, positions, invert)) <= Flips(keys, other)
  {
    var built := Build(keys, positions, invert);
    forall i | 0 <= i < |keys| && keys[i].direction != built[i].direction
      ensures keys[i].direction != other[i].direction
    {
      FindAt(positions, base, i);
      assert base <= i < base + |positions|;
      assert other[base + (i - base)].direction == built[i].direction;
    }
    FlipsMonotone(keys, built, other);
  }

  lemma {:induction false} ServingCostsMore(keys: seq<Key>, base: nat, positions: seq<Position>, other: seq<Key>)
    requires AllOrdered(keys) && |other| == |keys| && ServesPositions(other, positions)
    requires forall q :: 0 <= q < |positions| ==> positions[q].at == base + q
    ensures
      || Flips(keys, Build(keys, positions, false)) <= Flips(keys, other)
      || Flips(keys, Build(keys, positions, true)) <= Flips(keys, other)
  {
    var invert := !(forall q :: 0 <= q < |positions| ==> other[positions[q].at].direction == positions[q].direction);
    forall q | 0 <= q < |positions|
      ensures base + q < |other|
      ensures other[base + q].direction == if invert then Flip(positions[q].direction) else positions[q].direction
    {
      assert positions[q].at == base + q;
    }
    assert positions != [] ==> positions[|positions| - 1].at == base + |positions| - 1 < |other|;
    ServingAgrees(keys, base, positions, other, invert);
  }

  lemma {:induction false} BuildOrdered(keys: seq<Key>, shape: QueryShape, invert: bool)
    requires AllOrdered(keys)
    ensures AllOrdered(Build(keys, OrderingPositions(shape), invert))
  {
    var positions := OrderingPositions(shape);
    forall i | 0 <= i < |keys| ensures Ordered(Build(keys, positions, invert)[i].direction) {
      FindAt(positions, |BlocksOf(shape, EsrKeys(shape)).equality|, i);
    }
  }

  /** The target serves the shape and no assignment of directions to these keys that
      serves it changes fewer of them. */
  lemma {:induction false} TargetOptimal(keys: seq<Key>, shape: QueryShape)
    requires AllOrdered(keys) && Fields(keys) == Fields(EsrKeys(shape))
    ensures AllOrdered(TargetDirections(keys, shape))
    ensures |TargetDirections(keys, shape)| == |keys|
    ensures ServesShapeOrder(TargetDirections(keys, shape), shape)
    ensures forall other: seq<Key> ::
      Fields(other) == Fields(keys) && ServesShapeOrder(other, shape) ==>
        |other| == |keys| && Flips(keys, TargetDirections(keys, shape)) <= Flips(keys, other)
  {
    PositionsAreOrderCovers(keys, shape);
    BuildServes(keys, shape, false);
    BuildServes(keys, shape, true);
    BuildOrdered(keys, shape, false);
    BuildOrdered(keys, shape, true);
    forall other: seq<Key> | Fields(other) == Fields(keys) && ServesShapeOrder(other, shape)
      ensures |other| == |keys| && Flips(keys, TargetDirections(keys, shape)) <= Flips(keys, other)
    {
      TargetCheapest(keys, shape, other);
    }
  }

  lemma {:induction false} TargetCheapest(keys: seq<Key>, shape: QueryShape, other: seq<Key>)
    requires AllOrdered(keys) && Fields(keys) == Fields(EsrKeys(shape))
    requires Fields(other) == Fields(keys) && ServesShapeOrder(other, shape)
    ensures |other| == |keys| == |TargetDirections(keys, shape)|
    ensures Flips(keys, TargetDirections(keys, shape)) <= Flips(keys, other)
  {
    assert |other| == |Fields(other)| == |Fields(keys)| == |keys|;
    PositionsAreOrderCovers(keys, shape);
    BuildOrdered(keys, shape, false);
    BuildOrdered(keys, shape, true);
    ServingCostsMore(keys, |BlocksOf(shape, EsrKeys(shape)).equality|, OrderingPositions(shape), other);
  }

  // --- The recommender ---------------------------------------------------------

  predicate IsReorderable(index: IndexSpec) {
    && index.name != "_id_" && !index.isShardKey && |index.keys| >= 2 && !index.ttl
    && AllOrdered(index.keys)
    && IsNeverDrop(index)
  }

  /** What is left after the exclusions is exactly a compound unique index. */
  lemma {:induction false} ReorderableIsUnique(index: IndexSpec)
    requires IsReorderable(index)
    ensures index.unique
  {
    assert !HideBreaksQueries(index);
  }

  function Keep<T(!new)>(s: seq<T>, p: T -> bool): (kept: seq<T>)
    ensures forall x :: x in kept <==> x in s && p(x)
  {
    if s == [] then []
    else
      assert s == [s[0]] + s[1..];
      (if p(s[0]) then [s[0]] else []) + Keep(s[1..], p)
  }

  function Covered(index: IndexSpec, shapes: seq<QueryShape>, options: WorkloadOptions): seq<QueryShape> {
    Keep(shapes, (shape: QueryShape) =>
      IsRecurring(shape, options) && Fields(EsrKeys(shape)) == Fields(index.keys))
  }

  function Blocked(index: IndexSpec, shapes: seq<QueryShape>, options: WorkloadOptions): seq<QueryShape> {
    Keep(Covered(index, shapes, options), (shape: QueryShape) =>
      shape.sortedInMemory && !ServesShapeOrder(index.keys, shape))
  }

  /** The first of the most-run shapes, which is what the stable descending sort puts first. */
  function Busiest(shapes: seq<QueryShape>): (driver: QueryShape)
    requires shapes != []
    ensures driver in shapes
    ensures forall s :: s in shapes ==> s.count <= driver.count
  {
    if |shapes| == 1 then shapes[0]
    else
      var last := shapes[|shapes| - 1];
      var best := Busiest(shapes[..|shapes| - 1]);
      assert shapes == shapes[..|shapes| - 1] + [last];
      if last.count > best.count then last else best
  }

  function SumCounts(shapes: seq<QueryShape>): nat {
    if shapes == [] then 0 else shapes[0].count + SumCounts(shapes[1..])
  }

  datatype ReorderCandidate = ReorderCandidate(
    indexName: string, keys: seq<Key>, spec: IndexSpec, count: nat, sourceShapes: seq<QueryShape>)

  function ReorderFor(index: IndexSpec, shapes: seq<QueryShape>, options: WorkloadOptions, hinted: set<string>)
    : Option<ReorderCandidate>
  {
    var blocked := Blocked(index, shapes, options);
    if !IsReorderable(index) || index.name in hinted || blocked == [] then None
    else
      var keys := TargetDirections(index.keys, Busiest(blocked));
      if exists shape ::
        && shape in Covered(index, shapes, options)
        && ServesShapeOrder(index.keys, shape) && !ServesShapeOrder(keys, shape)
      then None
      else Some(ReorderCandidate(index.name, keys, index, SumCounts(blocked), blocked))
  }

  /** Same fields, the driver served at the least change, nothing served today lost. */
  ghost predicate Sound(c: ReorderCandidate, index: IndexSpec, shapes: seq<QueryShape>, options: WorkloadOptions) {
    && c.spec == index && c.indexName == index.name && index.unique
    && Fields(c.keys) == Fields(index.keys) && AllOrdered(c.keys) && |c.keys| == |index.keys|
    && (forall shape :: shape in c.sourceShapes <==>
          shape in shapes && IsRecurring(shape, options) && Fields(EsrKeys(shape)) == Fields(index.keys)
          && shape.sortedInMemory && !ServesShapeOrder(index.keys, shape))
    && (exists driver :: driver in c.sourceShapes && Driver(c, index, driver))
    && (forall shape :: shape in shapes && IsRecurring(shape, options)
          && Fields(EsrKeys(shape)) == Fields(index.keys) && ServesShapeOrder(index.keys, shape)
          ==> ServesShapeOrder(c.keys, shape))
  }

  ghost predicate Driver(c: ReorderCandidate, index: IndexSpec, driver: QueryShape)
    requires |c.keys| == |index.keys|
  {
    && (forall s :: s in c.sourceShapes ==> s.count <= driver.count)
    && ServesShapeOrder(c.keys, driver)
    && (forall other: seq<Key> :: Fields(other) == Fields(index.keys) && ServesShapeOrder(other, driver)
          ==> |other| == |index.keys| && Flips(index.keys, c.keys) <= Flips(index.keys, other))
  }

  lemma {:induction false} BlockedMeaning(index: IndexSpec, shapes: seq<QueryShape>, options: WorkloadOptions)
    ensures forall shape :: shape in Blocked(index, shapes, options) <==>
      shape in shapes && IsRecurring(shape, options) && Fields(EsrKeys(shape)) == Fields(index.keys)
      && shape.sortedInMemory && !ServesShapeOrder(index.keys, shape)
  {
  }

  lemma {:induction false} DriverSound(c: ReorderCandidate, index: IndexSpec, shapes: seq<QueryShape>,
                                       options: WorkloadOptions)
    requires AllOrdered(index.keys)
    requires c.sourceShapes == Blocked(index, shapes, options) != []
    requires c.keys == TargetDirections(index.keys, Busiest(c.sourceShapes))
    ensures AllOrdered(c.keys) && |c.keys| == |index.keys|
    ensures Driver(c, index, Busiest(c.sourceShapes))
  {
    var driver := Busiest(c.sourceShapes);
    BlockedMeaning(index, shapes, options);
    assert driver in c.sourceShapes;
    TargetOptimal(index.keys, driver);
  }

  lemma {:induction false} ReorderForSound(index: IndexSpec, shapes: seq<QueryShape>, options: WorkloadOptions,
                                           hinted: set<string>)
    requires ReorderFor(index, shapes, options, hinted).Some?
    ensures index.name !in hinted
    ensures Sound(ReorderFor(index, shapes, options, hinted).value, index, shapes, options)
  {
    var c := ReorderFor(index, shapes, options, hinted).value;
    ReorderableIsUnique(index);
    DriverSound(c, index, shapes, options);
    BlockedMeaning(index, shapes, options);
    forall shape | shape in shapes && IsRecurring(shape, options)
      && Fields(EsrKeys(shape)) == Fields(index.keys) && ServesShapeOrder(index.keys, shape)
      ensures ServesShapeOrder(c.keys, shape)
    {
      assert shape in Covered(index, shapes, options);
    }
  }

  function ReorderAll(shapes: seq<QueryShape>, existing: seq<IndexSpec>, options: WorkloadOptions, hinted: set<string>)
    : seq<ReorderCandidate>
  {
    if existing == [] then []
    else
      var before := ReorderAll(shapes, existing[..|existing| - 1], options, hinted);
      match ReorderFor(existing[|existing| - 1], shapes, options, hinted)
      case None => before
      case Some(c) => before + [c]
  }

  method RecommendReorder(shapes: seq<QueryShape>, existing: seq<IndexSpec>, options: WorkloadOptions,
                          hinted: set<string>)
    returns (candidates: seq<ReorderCandidate>)
    ensures candidates == ReorderAll(shapes, existing, options, hinted)
  {
    candidates := [];
    for i := 0 to |existing|
      invariant candidates == ReorderAll(shapes, existing[..i], options, hinted)
    {
      assert existing[..i + 1][..i] == existing[..i];
      var found := ReorderFor(existing[i], shapes, options, hinted);
      if found.Some? {
        candidates := candidates + [found.value];
      }
    }
    assert existing[..|existing|] == existing;
  }

  /** Every proposal is sound for an index nobody pins. */
  lemma {:induction false} ReorderAllSound(shapes: seq<QueryShape>, existing: seq<IndexSpec>, options: WorkloadOptions,
                                           hinted: set<string>, c: ReorderCandidate)
    requires c in ReorderAll(shapes, existing, options, hinted)
    ensures c.spec in existing && c.spec.name !in hinted && AllOrdered(c.spec.keys)
    ensures Sound(c, c.spec, shapes, options)
  {
    var n := |existing| - 1;
    if c in ReorderAll(shapes, existing[..n], options, hinted) {
      ReorderAllSound(shapes, existing[..n], options, hinted, c);
    } else {
      ReorderForSound(existing[n], shapes, options, hinted);
    }
  }

  /** Told in documents: whatever the data, a recurring shape whose sort the original
      index could walk can be walked on the replacement. */
  lemma {:induction false} ReorderKeepsOrders(c: ReorderCandidate, index: IndexSpec, shapes: seq<QueryShape>,
                                              options: WorkloadOptions,
                           shape: QueryShape)
    requires Sound(c, index, shapes, options) && AllOrdered(index.keys)
    requires shape in shapes && IsRecurring(shape, options) && Fields(EsrKeys(shape)) == Fields(index.keys)
    requires AlwaysInOrder(index.keys, shape.equality, shape.sort)
    ensures AlwaysInOrder(c.keys, shape.equality, shape.sort)
  {
    ServesShapeOrderExact(index.keys, shape);
    ServesShapeOrderExact(c.keys, shape);
  }
}
