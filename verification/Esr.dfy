/** The equality-sort-range key list of a query shape and its split back into blocks
    (esrKeys and keyBlocks in apps/api/src/analysis/workload.ts). */
module Esr {
  import opened Engine
  import opened Documents

  // --- Recurrence --------------------------------------------------------------

  const HOURS_PER_WEEK := 168.0

  datatype WorkloadOptions = WorkloadOptions(minCount: nat, minPerWeek: real)

  /** Without a usable window the count stands in for the rate, so the floor decides. */
  predicate IsRecurring(shape: QueryShape, options: WorkloadOptions) {
    && shape.count >= options.minCount
    && ( || shape.observedForHours.None?
         || shape.observedForHours.value <= 0.0
         || shape.count as real / (shape.observedForHours.value / HOURS_PER_WEEK) >= options.minPerWeek)
  }

  // --- Names, sorted -----------------------------------------------------------

  predicate NameLeq(a: string, b: string) {
    a == [] || (b != [] && (a[0] < b[0] || (a[0] == b[0] && NameLeq(a[1..], b[1..]))))
  }

  function InsertName(x: string, s: seq<string>): (r: seq<string>)
    ensures multiset(r) == multiset{x} + multiset(s)
  {
    if s == [] || NameLeq(x, s[0]) then [x] + s
    else
      assert s == [s[0]] + s[1..];
      [s[0]] + InsertName(x, s[1..])
  }

  function SortNames(s: seq<string>): (r: seq<string>)
    ensures multiset(r) == multiset(s)
  {
    if s == [] then []
    else
      assert s == [s[0]] + s[1..];
      InsertName(s[0], SortNames(s[1..]))
  }

  predicate NamesAscend(s: seq<string>) {
    forall i, j :: 0 <= i < j < |s| ==> NameLeq(s[i], s[j])
  }

  lemma {:induction false} NameTotal(a: string, b: string)
    ensures NameLeq(a, b) || NameLeq(b, a)
    ensures NameLeq(a, b) && NameLeq(b, a) ==> a == b
  {
    if a != [] && b != [] && a[0] == b[0] {
      NameTotal(a[1..], b[1..]);
      assert a == [a[0]] + a[1..] && b == [b[0]] + b[1..];
    }
  }

  lemma {:induction false} NameTransitive(a: string, b: string, c: string)
    requires NameLeq(a, b) && NameLeq(b, c)
    ensures NameLeq(a, c)
  {
    if a != [] && a[0] == b[0] == c[0] {
      NameTransitive(a[1..], b[1..], c[1..]);
    }
  }

  lemma {:induction false} InsertNameAscends(x: string, s: seq<string>)
    requires NamesAscend(s)
    ensures NamesAscend(InsertName(x, s))
  {
    var r := InsertName(x, s);
    if s == [] || NameLeq(x, s[0]) {
      forall j | 1 <= j < |r| ensures NameLeq(x, r[j]) {
        if j > 1 {
          NameTransitive(x, s[0], s[j - 1]);
        }
      }
    } else {
      NameTotal(x, s[0]);
      InsertNameAscends(x, s[1..]);
      forall j | 1 <= j < |r| ensures NameLeq(s[0], r[j]) {
        assert r[j] in multiset(r[1..]);
        assert r[1..] == InsertName(x, s[1..]);
      }
    }
  }

  lemma {:induction false} SortNamesAscends(s: seq<string>)
    ensures NamesAscend(SortNames(s))
  {
    if s != [] {
      SortNamesAscends(s[1..]);
      InsertNameAscends(s[0], SortNames(s[1..]));
    }
  }

  lemma {:induction false} LeastFirst(s: seq<string>, x: string)
    requires NamesAscend(s) && x in s
    ensures NameLeq(s[0], x)
  {
    var i :| 0 <= i < |s| && s[i] == x;
    NameTotal(s[0], s[0]);
  }

  lemma {:induction false} SameLeast(a: seq<string>, b: seq<string>)
    requires NamesAscend(a) && NamesAscend(b) && multiset(a) == multiset(b) && a != [] && b != []
    ensures a[0] == b[0]
  {
    assert a[0] in multiset(b) && b[0] in multiset(a);
    LeastFirst(a, b[0]);
    LeastFirst(b, a[0]);
    NameTotal(a[0], b[0]);
  }

  lemma {:induction false} TailBag(s: seq<string>)
    requires s != []
    ensures multiset(s[1..]) == multiset(s) - multiset{s[0]}
  {
    assert s == [s[0]] + s[1..];
  }

  lemma {:induction false} AscendingUnique(a: seq<string>, b: seq<string>)
    requires NamesAscend(a) && NamesAscend(b) && multiset(a) == multiset(b)
    ensures a == b
  {
    assert |multiset(a)| == |a| && |multiset(b)| == |b|;
    if a != [] {
      SameLeast(a, b);
      TailBag(a);
      TailBag(b);
      AscendingUnique(a[1..], b[1..]);
      assert a == [a[0]] + a[1..] && b == [b[0]] + b[1..];
    }
  }

  // --- Keys --------------------------------------------------------------------

  function Ascending(fields: seq<string>): (keys: seq<SortKey>)
    ensures Fields(keys) == fields
  {
    seq(|fields|, i requires 0 <= i < |fields| => Key(fields[i], Asc))
  }

  function Push(acc: seq<SortKey>, k: SortKey): seq<SortKey> {
    if k.field in Fields(acc) then acc else acc + [k]
  }

  function PushAll(acc: seq<SortKey>, keys: seq<SortKey>): seq<SortKey>
    decreases keys
  {
    if keys == [] then acc else PushAll(Push(acc, keys[0]), keys[1..])
  }

  function EsrKeys(shape: QueryShape): seq<SortKey> {
    PushAll(PushAll(PushAll([], Ascending(shape.equality)), shape.sort), Ascending(SortNames(shape.range)))
  }

  method PushLoop(keys: seq<SortKey>, acc: seq<SortKey>, seen: set<string>)
    returns (out: seq<SortKey>, mark: set<string>)
    requires seen == set f | f in Fields(acc)
    ensures out == PushAll(acc, keys)
    ensures mark == set f | f in Fields(out)
  {
    out, mark := acc, seen;
    var i := 0;
    while i < |keys|
      invariant 0 <= i <= |keys|
      invariant mark == set f | f in Fields(out)
      invariant PushAll(out, keys[i..]) == PushAll(acc, keys)
    {
      assert keys[i..][1..] == keys[i + 1..];
      if keys[i].field !in mark {
        assert Fields(out + [keys[i]]) == Fields(out) + [keys[i].field];
        mark := mark + {keys[i].field};
        out := out + [keys[i]];
      }
      i := i + 1;
    }
  }

  /** The three loops of the source, with their set of fields already emitted. */
  method ComputeEsrKeys(shape: QueryShape) returns (ordered: seq<SortKey>)
    ensures ordered == EsrKeys(shape)
  {
    var seen: set<string> := {};
    assert Fields([]) == [];
    ordered, seen := PushLoop(Ascending(shape.equality), [], seen);
    ordered, seen := PushLoop(shape.sort, ordered, seen);
    ordered, seen := PushLoop(Ascending(SortNames(shape.range)), ordered, seen);
  }

  /** The order range fields were recorded in never reaches the keys. */
  lemma {:induction false} RangeOrderIrrelevant(shape: QueryShape, range: seq<string>)
    requires multiset(range) == multiset(shape.range)
    ensures EsrKeys(shape.(range := range)) == EsrKeys(shape)
  {
    SortNamesAscends(range);
    SortNamesAscends(shape.range);
    AscendingUnique(SortNames(range), SortNames(shape.range));
  }

  // --- Blocks ------------------------------------------------------------------

  datatype KeyBlocks = KeyBlocks(equality: seq<string>, sort: seq<SortKey>, range: seq<string>)

  /** Which block a field belongs to: 0 equality, 1 sort, 2 range. */
  function ClassOf(shape: QueryShape, field: string): nat {
    if field in shape.equality then 0 else if field in Fields(shape.sort) then 1 else 2
  }

  function OfClass(shape: QueryShape, keys: seq<SortKey>, c: nat): seq<SortKey> {
    if keys == [] then []
    else
      var rest := OfClass(shape, keys[..|keys| - 1], c);
      if ClassOf(shape, keys[|keys| - 1].field) == c then rest + [keys[|keys| - 1]] else rest
  }

  function BlocksOf(shape: QueryShape, keys: seq<SortKey>): KeyBlocks {
    KeyBlocks(Fields(OfClass(shape, keys, 0)), OfClass(shape, keys, 1), Fields(OfClass(shape, keys, 2)))
  }

  /** Equality, then sort, then range, each field once; equality and range ascend. */
  predicate Laid(keys: seq<SortKey>, blocks: KeyBlocks) {
    && keys == Ascending(blocks.equality) + blocks.sort + Ascending(blocks.range)
    && Distinct(Fields(keys))
  }

  predicate ClassIs(shape: QueryShape, keys: seq<SortKey>, c: nat) {
    forall i :: 0 <= i < |keys| ==> ClassOf(shape, keys[i].field) == c
  }

  predicate AllAscend(keys: seq<SortKey>) {
    forall i :: 0 <= i < |keys| ==> keys[i].direction.Asc?
  }

  /** The keys are an equality, a sort and a range part, in that order. */
  predicate Layered(shape: QueryShape, keys: seq<SortKey>, e: seq<SortKey>, s: seq<SortKey>, r: seq<SortKey>) {
    && keys == e + s + r && Distinct(Fields(keys))
    && ClassIs(shape, e, 0) && ClassIs(shape, s, 1) && ClassIs(shape, r, 2)
    && AllAscend(e) && AllAscend(r)
  }

  lemma {:induction false} FieldsAppend(a: seq<Key>, b: seq<Key>)
    ensures Fields(a + b) == Fields(a) + Fields(b)
  {
  }

  lemma {:induction false} OfClassAppend(shape: QueryShape, a: seq<SortKey>, b: seq<SortKey>, c: nat)
    ensures OfClass(shape, a + b, c) == OfClass(shape, a, c) + OfClass(shape, b, c)
  {
    if b == [] {
      assert a + b == a;
    } else {
      var short := b[..|b| - 1];
      assert (a + b)[..|a + b| - 1] == a + short;
      OfClassAppend(shape, a, short, c);
    }
  }

  lemma {:induction false} OfOwnClass(shape: QueryShape, keys: seq<SortKey>, own: nat, c: nat)
    requires ClassIs(shape, keys, own)
    ensures OfClass(shape, keys, c) == if c == own then keys else []
  {
    if keys != [] {
      OfOwnClass(shape, keys[..|keys| - 1], own, c);
    }
  }

  lemma {:induction false} OfClassThree(shape: QueryShape, e: seq<SortKey>, s: seq<SortKey>, r: seq<SortKey>, c: nat)
    ensures OfClass(shape, e + s + r, c) == OfClass(shape, e, c) + OfClass(shape, s, c) + OfClass(shape, r, c)
  {
    OfClassAppend(shape, e + s, r, c);
    OfClassAppend(shape, e, s, c);
  }

  lemma {:induction false} LayeredClass(shape: QueryShape, e: seq<SortKey>, s: seq<SortKey>, r: seq<SortKey>, c: nat)
    requires ClassIs(shape, e, 0) && ClassIs(shape, s, 1) && ClassIs(shape, r, 2) && c <= 2
    ensures OfClass(shape, e + s + r, c) == if c == 0 then e else if c == 1 then s else r
  {
    OfClassThree(shape, e, s, r, c);
    OfOwnClass(shape, e, 0, c);
    OfOwnClass(shape, s, 1, c);
    OfOwnClass(shape, r, 2, c);
    OneOfThree(OfClass(shape, e, c), OfClass(shape, s, c), OfClass(shape, r, c));
  }

  lemma {:induction false} OneOfThree(x: seq<SortKey>, y: seq<SortKey>, z: seq<SortKey>)
    ensures y == [] && z == [] ==> x + y + z == x
    ensures x == [] && z == [] ==> x + y + z == y
    ensures x == [] && y == [] ==> x + y + z == z
  {
  }

  lemma {:induction false} AscendIsAscending(keys: seq<SortKey>)
    requires AllAscend(keys)
    ensures Ascending(Fields(keys)) == keys
  {
  }

  lemma {:induction false} LayeredIsLaid(shape: QueryShape, keys: seq<SortKey>, e: seq<SortKey>, s: seq<SortKey>,
                                         r: seq<SortKey>)
    requires Layered(shape, keys, e, s, r)
    ensures BlocksOf(shape, keys) == KeyBlocks(Fields(e), s, Fields(r))
    ensures Laid(keys, BlocksOf(shape, keys))
  {
    LayeredClass(shape, e, s, r, 0);
    LayeredClass(shape, e, s, r, 1);
    LayeredClass(shape, e, s, r, 2);
    AscendIsAscending(e);
    AscendIsAscending(r);
  }

  // --- The three loops ---------------------------------------------------------

  lemma {:induction false} DistinctAppend(acc: seq<SortKey>, k: SortKey)
    requires Distinct(Fields(acc)) && k.field !in Fields(acc)
    ensures Distinct(Fields(acc + [k]))
  {
    FieldsAppend(acc, [k]);
    assert Fields([k]) == [k.field];
  }

  /** A loop adds, behind what is there, keys of the class it brings. */
  lemma {:induction false} PushAllAdds(shape: QueryShape, acc: seq<SortKey>, keys: seq<SortKey>, c: nat)
    returns (added: seq<SortKey>)
    requires Distinct(Fields(acc))
    requires forall i :: 0 <= i < |keys| ==> keys[i].field in Fields(acc) || ClassOf(shape, keys[i].field) == c
    ensures PushAll(acc, keys) == acc + added
    ensures ClassIs(shape, added, c) && (AllAscend(keys) ==> AllAscend(added))
    ensures Distinct(Fields(acc + added))
    decreases keys
  {
    if keys == [] {
      added := [];
      assert acc + added == acc;
    } else {
      var next := Push(acc, keys[0]);
      FieldsAppend(acc, [keys[0]]);
      if keys[0].field in Fields(acc) {
        added := PushAllAdds(shape, acc, keys[1..], c);
      } else {
        DistinctAppend(acc, keys[0]);
        var rest := PushAllAdds(shape, next, keys[1..], c);
        added := [keys[0]] + rest;
        assert acc + added == next + rest;
      }
    }
  }

  /** After a loop every field it was given is among the keys. */
  lemma {:induction false} PushAllHolds(acc: seq<SortKey>, keys: seq<SortKey>)
    ensures forall f :: f in Fields(acc) || f in Fields(keys) ==> f in Fields(PushAll(acc, keys))
    decreases keys
  {
    if keys != [] {
      var next := Push(acc, keys[0]);
      PushAllHolds(next, keys[1..]);
      FieldsAppend(acc, [keys[0]]);
      FieldsAppend([keys[0]], keys[1..]);
      assert Fields([keys[0]]) == [keys[0].field];
      assert keys == [keys[0]] + keys[1..];
    } else {
      assert Fields(keys) == [];
    }
  }

  ghost function EqualityStage(shape: QueryShape): seq<SortKey> {
    PushAll([], Ascending(shape.equality))
  }

  ghost function SortStage(shape: QueryShape): seq<SortKey> {
    PushAll(EqualityStage(shape), shape.sort)
  }

  lemma {:induction false} SortClass(shape: QueryShape, k: SortKey)
    requires k in shape.sort
    ensures k.field in shape.equality || ClassOf(shape, k.field) == 1
  {
    var i :| 0 <= i < |shape.sort| && shape.sort[i] == k;
    assert Fields(shape.sort)[i] == k.field;
  }

  /** The key list of a shape is layered, loop by loop. */
  lemma {:induction false} EsrLayers(shape: QueryShape) returns (e: seq<SortKey>, s: seq<SortKey>, r: seq<SortKey>)
    ensures Layered(shape, EsrKeys(shape), e, s, r)
    ensures e == EqualityStage(shape) && e + s == SortStage(shape)
    ensures forall f :: f in shape.equality ==> f in Fields(e)
    ensures forall f :: f in shape.range ==> f in Fields(EsrKeys(shape))
  {
    var eq, rg := Ascending(shape.equality), Ascending(SortNames(shape.range));
    assert Fields([]) == [];
    e := PushAllAdds(shape, [], eq, 0);
    PushAllHolds([], eq);
    assert [] + e == e;
    forall i | 0 <= i < |shape.sort|
      ensures shape.sort[i].field in Fields(e) || ClassOf(shape, shape.sort[i].field) == 1
    {
      SortClass(shape, shape.sort[i]);
    }
    s := PushAllAdds(shape, e, shape.sort, 1);
    PushAllHolds(e, shape.sort);
    r := PushAllAdds(shape, e + s, rg, 2);
    PushAllHolds(e + s, rg);
    forall f | f in shape.range ensures f in SortNames(shape.range) {
      assert f in multiset(shape.range);
    }
  }

  lemma {:induction false} EsrLaid(shape: QueryShape)
    ensures Laid(EsrKeys(shape), BlocksOf(shape, EsrKeys(shape)))
    ensures forall f :: f in shape.range ==> f in Fields(EsrKeys(shape))
  {
    var e, s, r := EsrLayers(shape);
    LayeredIsLaid(shape, EsrKeys(shape), e, s, r);
  }

  /** The blocks are what the loops added. */
  lemma {:induction false} EsrSplit(shape: QueryShape)
    ensures EqualityStage(shape) == Ascending(BlocksOf(shape, EsrKeys(shape)).equality)
    ensures SortStage(shape) == EqualityStage(shape) + BlocksOf(shape, EsrKeys(shape)).sort
    ensures forall f :: f in shape.equality <==> f in BlocksOf(shape, EsrKeys(shape)).equality
  {
    var e, s, r := EsrLayers(shape);
    LayeredIsLaid(shape, EsrKeys(shape), e, s, r);
    AscendIsAscending(e);
    ClassZero(shape, e);
  }

  lemma {:induction false} ClassZero(shape: QueryShape, e: seq<SortKey>)
    requires ClassIs(shape, e, 0)
    ensures forall f :: f in Fields(e) ==> f in shape.equality
  {
    forall i | 0 <= i < |e| ensures Fields(e)[i] in shape.equality {
      assert ClassOf(shape, e[i].field) == 0;
    }
  }

  // --- Taking a filter's fields out --------------------------------------------

  /** The keys left once the fields of a filter have been taken out. */
  function Without(keys: seq<SortKey>, gone: set<string>): seq<SortKey> {
    if keys == [] then []
    else
      var rest := Without(keys[..|keys| - 1], gone);
      if keys[|keys| - 1].field in gone then rest else rest + [keys[|keys| - 1]]
  }

  lemma {:induction false} WithoutAppend(a: seq<SortKey>, b: seq<SortKey>, gone: set<string>)
    ensures Without(a + b, gone) == Without(a, gone) + Without(b, gone)
  {
    if b == [] {
      assert a + b == a;
    } else {
      var short := b[..|b| - 1];
      assert (a + b)[..|a + b| - 1] == a + short;
      WithoutAppend(a, short, gone);
    }
  }

  lemma {:induction false} WithoutKeeps(shape: QueryShape, keys: seq<SortKey>, gone: set<string>, c: nat)
    requires ClassIs(shape, keys, c)
    ensures ClassIs(shape, Without(keys, gone), c)
    ensures AllAscend(keys) ==> AllAscend(Without(keys, gone))
  {
    if keys != [] {
      WithoutKeeps(shape, keys[..|keys| - 1], gone, c);
    }
  }

  lemma {:induction false} WithoutDistinct(keys: seq<SortKey>, gone: set<string>)
    requires Distinct(Fields(keys))
    ensures Distinct(Fields(Without(keys, gone)))
    ensures forall f :: f in Fields(Without(keys, gone)) <==> f in Fields(keys) && f !in gone
  {
    if keys != [] {
      var short, last := keys[..|keys| - 1], keys[|keys| - 1];
      assert keys == short + [last];
      FieldsAppend(short, [last]);
      assert Fields([last]) == [last.field];
      assert Fields(keys)[|keys| - 1] == last.field;
      assert forall i :: 0 <= i < |short| ==> Fields(short)[i] == Fields(keys)[i];
      WithoutDistinct(short, gone);
      if last.field !in gone {
        FieldsAppend(Without(short, gone), [last]);
        DistinctAppend(Without(short, gone), last);
      }
    } else {
      assert Fields(keys) == [];
    }
  }

  lemma {:induction false} WithoutLaid(shape: QueryShape, gone: set<string>)
    ensures Laid(Without(EsrKeys(shape), gone), BlocksOf(shape, Without(EsrKeys(shape), gone)))
  {
    var e, s, r := EsrLayers(shape);
    WithoutAppend(e + s, r, gone);
    WithoutAppend(e, s, gone);
    WithoutKeeps(shape, e, gone, 0);
    WithoutKeeps(shape, s, gone, 1);
    WithoutKeeps(shape, r, gone, 2);
    WithoutDistinct(EsrKeys(shape), gone);
    LayeredIsLaid(shape, Without(EsrKeys(shape), gone), Without(e, gone), Without(s, gone), Without(r, gone));
  }

  // --- The order the blocks stand for ------------------------------------------

  /** A key whose field came earlier decides nothing. */
  lemma {:induction false} RepeatIsMoot(acc: seq<Key>, k: Key, rest: seq<Key>, a: Doc, b: Doc)
    requires k.field in Fields(acc)
    ensures Leq(acc + [k] + rest, a, b) == Leq(acc + rest, a, b)
  {
    if a(acc[0].field) == b(acc[0].field) {
      assert (acc + [k] + rest)[1..] == acc[1..] + [k] + rest;
      assert (acc + rest)[1..] == acc[1..] + rest;
      if k.field in Fields(acc[1..]) {
        RepeatIsMoot(acc[1..], k, rest, a, b);
      } else {
        assert Fields(acc) == [acc[0].field] + Fields(acc[1..]);
        MootOnTies(acc[1..], k, rest, a, b);
      }
    }
  }

  lemma {:induction false} MootOnTies(acc: seq<Key>, k: Key, rest: seq<Key>, a: Doc, b: Doc)
    requires a(k.field) == b(k.field)
    ensures Leq(acc + [k] + rest, a, b) == Leq(acc + rest, a, b)
  {
    if acc == [] {
      assert acc + [k] + rest == [k] + rest && acc + rest == rest;
      assert ([k] + rest)[1..] == rest;
    } else {
      assert (acc + [k] + rest)[1..] == acc[1..] + [k] + rest;
      assert (acc + rest)[1..] == acc[1..] + rest;
      MootOnTies(acc[1..], k, rest, a, b);
    }
  }

  /** Dropping repeats keeps the order. */
  lemma {:induction false} PushAllOrders(acc: seq<SortKey>, keys: seq<SortKey>, a: Doc, b: Doc)
    ensures Leq(PushAll(acc, keys), a, b) == Leq(acc + keys, a, b)
    decreases keys
  {
    if keys == [] {
      assert acc + keys == acc;
    } else {
      PushAllOrders(Push(acc, keys[0]), keys[1..], a, b);
      assert acc + keys == acc + [keys[0]] + keys[1..];
      if keys[0].field in Fields(acc) {
        RepeatIsMoot(acc, keys[0], keys[1..], a, b);
      }
    }
  }

  /** Among documents that agree on the equality fields, the sort block orders exactly
      as the shape's whole sort specification does, repeats and bound fields included. */
  lemma {:induction false} SortBlockOrders(shape: QueryShape, a: Doc, b: Doc)
    requires forall f :: f in shape.equality ==> a(f) == b(f)
    ensures Leq(BlocksOf(shape, EsrKeys(shape)).sort, a, b) == Leq(shape.sort, a, b)
  {
    var e := EqualityStage(shape);
    EsrSplit(shape);
    var s := BlocksOf(shape, EsrKeys(shape)).sort;
    assert Tie(e, a, b) by {
      forall i | 0 <= i < |e| ensures a(e[i].field) == b(e[i].field) {
        assert Fields(e)[i] == e[i].field;
      }
    }
    TieSkips(e, s, a, b);
    PushAllOrders(e, shape.sort, a, b);
    TieSkips(e, shape.sort, a, b);
  }
}
