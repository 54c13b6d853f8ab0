/** When one index already does what another does (apps/api/src/analysis/redundancy.ts),
    proved sound and complete against the order of documents. */
module Redundancy {
  import opened Engine
  import opened Documents

  /** `have`'s leading keys name the fields of `want`, in sequence. */
  predicate SameLeadingFields(want: seq<Key>, have: seq<Key>) {
    |want| <= |have| && forall i :: 0 <= i < |want| ==> have[i].field == want[i].field
  }

  /** Key for key, or every key exactly reversed. Nothing in between. */
  predicate OrderCovers(want: seq<Key>, have: seq<Key>) {
    && SameLeadingFields(want, have)
    && ( || (forall i :: 0 <= i < |want| ==> have[i].direction == want[i].direction)
         || (forall i :: 0 <= i < |want| ==>
               && Ordered(want[i].direction) && Ordered(have[i].direction)
               && have[i].direction == Flip(want[i].direction)))
  }

  predicate CoversKeyOrder(candidate: IndexSpec, other: IndexSpec) {
    OrderCovers(candidate.keys, other.keys)
  }

  /** The loop: collect the direction pairs while the fields agree, then judge them. */
  method ComputeCoversKeyOrder(candidate: IndexSpec, other: IndexSpec) returns (covers: bool)
    ensures covers == CoversKeyOrder(candidate, other)
  {
    var pairs: seq<(Direction, Direction)> := [];
    var i := 0;
    while i < |candidate.keys|
      invariant 0 <= i <= |candidate.keys| && |pairs| == i <= |other.keys|
      invariant forall k :: 0 <= k < i ==> other.keys[k].field == candidate.keys[k].field
      invariant forall k :: 0 <= k < i ==> pairs[k] == (candidate.keys[k].direction, other.keys[k].direction)
    {
      if i >= |other.keys| || other.keys[i].field != candidate.keys[i].field {
        return false;
      }
      pairs := pairs + [(candidate.keys[i].direction, other.keys[i].direction)];
      i := i + 1;
    }
    if forall k :: 0 <= k < |pairs| ==> pairs[k].1 == pairs[k].0 {
      return true;
    }
    covers := forall k :: 0 <= k < |pairs| ==>
      Ordered(pairs[k].0) && Ordered(pairs[k].1) && pairs[k].1 == Flip(pairs[k].0);
    ghost var bad :| 0 <= bad < |pairs| && pairs[bad].1 != pairs[bad].0;
    assert other.keys[bad].direction != candidate.keys[bad].direction;
    if !covers {
      ghost var k :| 0 <= k < |pairs| &&
        !(Ordered(pairs[k].0) && Ordered(pairs[k].1) && pairs[k].1 == Flip(pairs[k].0));
      assert !(Ordered(candidate.keys[k].direction) && Ordered(other.keys[k].direction)
        && other.keys[k].direction == Flip(candidate.keys[k].direction));
    }
  }

  predicate OptionsCompatible(candidate: IndexSpec, other: IndexSpec) {
    && (candidate.unique ==> other.unique)
    && !(candidate.partial || candidate.sparse || candidate.ttl)
    && !(other.partial || other.sparse || other.hidden)
    && candidate.collation == other.collation
  }

  function CoveredColumns(index: IndexSpec): set<string> {
    (set f | f in Fields(index.keys)) + (set f | f in index.includes)
  }

  predicate CoversIncludes(candidate: IndexSpec, other: IndexSpec) {
    forall column :: column in candidate.includes ==> column in CoveredColumns(other)
  }

  predicate IsKeyPrefix(candidate: IndexSpec, other: IndexSpec) {
    && candidate.name != other.name
    && |candidate.keys| < |other.keys|
    && candidate.collation == other.collation
    && CoversKeyOrder(candidate, other)
  }

  predicate IsRedundantPrefix(candidate: IndexSpec, other: IndexSpec) {
    && OptionsCompatible(candidate, other)
    && CoversIncludes(candidate, other)
    && IsKeyPrefix(candidate, other)
  }

  // --- Soundness ---------------------------------------------------------------

  /** Which walk of `have` presents the order `want` asks for. */
  predicate NeedsBackwardWalk(want: seq<Key>, have: seq<Key>)
    requires |want| <= |have|
  {
    exists i :: 0 <= i < |want| && have[i].direction != want[i].direction
  }

  /** One walk direction, fixed by the keys alone, serves every list of documents. */
  lemma {:induction false} CoversSound(want: seq<Key>, have: seq<Key>, docs: seq<Doc>)
    requires AllOrdered(want) && OrderCovers(want, have)
    requires Sorted(have[..|want|], docs)
    ensures ServedByWalk(want, docs, NeedsBackwardWalk(want, have))
  {
    if NeedsBackwardWalk(want, have) {
      assert have[..|want|] == FlipAll(want);
      SortedFlipped(want, docs);
    } else {
      assert have[..|want|] == want by {
        forall i | 0 <= i < |want| ensures have[i] == want[i] {
          assert have[i].direction == want[i].direction;
        }
      }
    }
  }

  // --- Completeness ------------------------------------------------------------

  /** Neither field of the probes is among the keys both agree on. */
  lemma {:induction false} BeforeMismatch(want: seq<Key>, have: seq<Key>, p: nat)
    requires Distinct(Fields(want)) && Distinct(Fields(have)) && p < |want| && p <= |have|
    requires forall i :: 0 <= i < p ==> have[i].field == want[i].field
    ensures Fields(want[..p]) == Fields(have[..p]) && want[p].field !in Fields(want[..p])
    ensures p < |have| ==> have[p].field !in Fields(want[..p])
  {
    assert forall i :: 0 <= i < p ==> Fields(want[..p])[i] == Fields(want)[i] == want[i].field;
    assert Fields(want)[p] == want[p].field;
    assert p < |have| ==> Fields(have)[p] == have[p].field;
    assert forall i :: 0 <= i < p ==> Fields(have)[i] == want[i].field;
  }

  /** Three documents that rise and fall on a field and only rise along a key. */
  ghost function Probes(x: string, k: Key): seq<Doc> {
    [ Probe(x, 0, k.field, Rank(k, 0)),
      Probe(x, 1, k.field, Rank(k, 1)),
      Probe(x, 0, k.field, Rank(k, 2))]
  }

  /** Rising and falling on the wanted field, the probes are in neither of its orders. */
  lemma {:induction false} ProbesUnordered(want: seq<Key>, p: nat, k: Key, docs: seq<Doc>)
    requires AllOrdered(want) && Ordered(k.direction) && p < |want|
    requires want[p].field !in Fields(want[..p]) && k.field !in Fields(want[..p])
    requires docs == Probes(want[p].field, k)
    ensures NeitherWalk(want, docs)
  {
    var x, a := want[p].field, want[..p];
    ProbesTie(a, x, k.field, docs[0], docs[1], 0, Rank(k, 0), 1, Rank(k, 1));
    ProbesTie(a, x, k.field, docs[1], docs[2], 1, Rank(k, 1), 0, Rank(k, 2));
    assert Tie(a, docs[1], docs[0]) && Tie(a, docs[2], docs[1]);
    LeqAt(want, p, docs[0], docs[1]);
    LeqAt(want, p, docs[1], docs[0]);
    LeqAt(want, p, docs[1], docs[2]);
    LeqAt(want, p, docs[2], docs[1]);
    if want[p].direction.Asc? {
      NeitherWalkOfThree(want, docs, 1, 0);
    } else {
      NeitherWalkOfThree(want, docs, 0, 1);
    }
  }

  lemma {:induction false} ProbesInOrder(have: seq<Key>, p: nat, x: string, k: Key, docs: seq<Doc>)
    requires p <= |have| && AllOrdered(have) && x !in Fields(have[..p]) && k.field !in Fields(have[..p])
    requires p < |have| ==> k == have[p] && k.field != x
    requires docs == Probes(x, k)
    ensures Sorted(have, docs)
  {
    forall i, j | 0 <= i < j < 3 ensures Leq(have, docs[i], docs[j]) {
      ProbesTie(have[..p], x, k.field, docs[i], docs[j], i % 2, Rank(k, i), j % 2, Rank(k, j));
      if p < |have| {
        LeqAt(have, p, docs[i], docs[j]);
      } else {
        assert have[..p] == have;
        TieIsLeq(have, docs[i], docs[j]);
      }
    }
  }

  /** The first key whose field disagrees is left unordered by `have`. */
  lemma {:induction false} FieldMismatchWitness(want: seq<Key>, have: seq<Key>, p: nat, bound: seq<string>)
    requires AllOrdered(want) && AllOrdered(have)
    requires Distinct(Fields(want)) && Distinct(Fields(have))
    requires p < |want| && p <= |have|
    requires forall i :: 0 <= i < p ==> have[i].field == want[i].field
    requires p < |have| ==> have[p].field != want[p].field
    requires want[p].field !in bound && (p < |have| ==> have[p].field !in bound)
    ensures exists docs :: Refutes(docs, want, have, bound)
  {
    var x := want[p].field;
    var k := if p < |have| then have[p] else Key(x, Asc);
    BeforeMismatch(want, have, p);
    var docs := Probes(x, k);
    ProbesUnordered(want, p, k, docs);
    ProbesInOrder(have, p, x, k, docs);
    assert Refutes(docs, want, have, bound);
  }

  /** A mixed requirement: one key in its own direction, one reversed. */
  lemma {:induction false} MixedWitness(want: seq<Key>, have: seq<Key>, p: nat, q: nat, bound: seq<string>)
    requires AllOrdered(want) && AllOrdered(have)
    requires Distinct(Fields(want)) && Distinct(Fields(have))
    requires SameLeadingFields(want, have)
    requires p < q < |want|
    requires (have[p].direction == want[p].direction) != (have[q].direction == want[q].direction)
    requires want[p].field !in bound && want[q].field !in bound
    ensures exists docs :: Refutes(docs, want, have, bound)
  {
    var x, y := have[p], have[q];
    var d0 := Probe(x.field, Rank(x, 0), y.field, Rank(y, 0));
    var d1 := Probe(x.field, Rank(x, 0), y.field, Rank(y, 1));
    var d2 := Probe(x.field, Rank(x, 1), y.field, Rank(y, 0));
    var docs := [d0, d1, d2];
    MixedCompare(want, x, y, p, q, d0, d1, d2);
    MixedCompare(have, x, y, p, q, d0, d1, d2);
    assert Sorted(have, docs);
    if have[p].direction == want[p].direction {
      NeitherWalkOfThree(want, docs, 0, 1);
    } else {
      NeitherWalkOfThree(want, docs, 1, 0);
    }
    assert Refutes(docs, want, have, bound);
  }

  lemma {:induction false} MixedCompare(keys: seq<Key>, x: Key, y: Key, p: nat, q: nat, d0: Doc, d1: Doc, d2: Doc)
    requires p < q < |keys| && Distinct(Fields(keys))
    requires keys[p].field == x.field && keys[q].field == y.field
    requires d0 == Probe(x.field, Rank(x, 0), y.field, Rank(y, 0))
    requires d1 == Probe(x.field, Rank(x, 0), y.field, Rank(y, 1))
    requires d2 == Probe(x.field, Rank(x, 1), y.field, Rank(y, 0))
    ensures Leq(keys, d0, d1) == Before(keys[q], d0, d1) && Leq(keys, d1, d0) == Before(keys[q], d1, d0)
    ensures Leq(keys, d1, d2) == Before(keys[p], d1, d2) && Leq(keys, d2, d1) == Before(keys[p], d2, d1)
    ensures Leq(keys, d0, d2) == Before(keys[p], d0, d2)
    ensures x.field != y.field
  {
    var before := keys[..q];
    assert Fields(keys)[p] == x.field && Fields(keys)[q] == y.field;
    assert y.field !in Fields(before) by {
      assert forall i :: 0 <= i < q ==> Fields(before)[i] == Fields(keys)[i];
    }
    assert x.field !in Fields(keys[..p]) && y.field !in Fields(keys[..p]) by {
      assert forall i :: 0 <= i < p ==> Fields(keys[..p])[i] == Fields(keys)[i];
    }
    ProbesTie(before, x.field, y.field, d0, d1, Rank(x, 0), Rank(y, 0), Rank(x, 0), Rank(y, 1));
    ProbesTie(keys[..p], x.field, y.field, d1, d2, Rank(x, 0), Rank(y, 1), Rank(x, 1), Rank(y, 0));
    ProbesTie(keys[..p], x.field, y.field, d0, d2, Rank(x, 0), Rank(y, 0), Rank(x, 1), Rank(y, 0));
    assert Tie(before, d1, d0) && Tie(keys[..p], d2, d1);
    LeqAt(keys, q, d0, d1);
    LeqAt(keys, q, d1, d0);
    LeqAt(keys, p, d1, d2);
    LeqAt(keys, p, d2, d1);
    LeqAt(keys, p, d0, d2);
  }

  /** Where the test refuses, some list in `have`'s order is served by neither walk.
      The documents agree on every field of `bound`, so binding those does not help. */
  lemma {:induction false} CoversComplete(want: seq<Key>, have: seq<Key>, bound: seq<string>)
    requires AllOrdered(want) && AllOrdered(have)
    requires Distinct(Fields(want)) && Distinct(Fields(have))
    requires forall f :: f in bound ==> f !in Fields(want) && f !in Fields(have)
    requires !OrderCovers(want, have)
    ensures exists docs :: Refutes(docs, want, have, bound)
  {
    assert forall i :: 0 <= i < |want| ==> want[i].field == Fields(want)[i];
    assert forall i :: 0 <= i < |have| ==> have[i].field == Fields(have)[i];
    if SameLeadingFields(want, have) {
      var p :| 0 <= p < |want| && have[p].direction != want[p].direction;
      var q :| 0 <= q < |want| && have[q].direction != Flip(want[q].direction);
      MixedWitness(want, have, if p < q then p else q, if p < q then q else p, bound);
    } else {
      var p := FirstMismatch(want, have, 0);
      FieldMismatchWitness(want, have, p, bound);
    }
  }

  ghost function FirstMismatch(want: seq<Key>, have: seq<Key>, from: nat): (p: nat)
    requires !SameLeadingFields(want, have)
    requires from <= |want| && from <= |have|
    requires forall i :: 0 <= i < from ==> have[i].field == want[i].field
    ensures p < |want| && p <= |have|
    ensures forall i :: 0 <= i < p ==> have[i].field == want[i].field
    ensures p < |have| ==> have[p].field != want[p].field
    decreases |want| - from
  {
    if from < |want| && from < |have| && have[from].field == want[from].field
    then FirstMismatch(want, have, from + 1)
    else from
  }

  /** `coversKeyOrder` decides the semantic question exactly: it holds if and only if
      every list of documents in `other`'s order is in `candidate`'s order too, read
      forward or backward. */
  lemma {:induction false} CoversKeyOrderExact(candidate: IndexSpec, other: IndexSpec)
    requires AllOrdered(candidate.keys) && AllOrdered(other.keys)
    requires Distinct(Fields(candidate.keys)) && Distinct(Fields(other.keys))
    ensures CoversKeyOrder(candidate, other) <==>
      forall docs :: Sorted(other.keys, docs) ==> !NeitherWalk(candidate.keys, docs)
  {
    var want, have := candidate.keys, other.keys;
    if OrderCovers(want, have) {
      forall docs | Sorted(have, docs) ensures !NeitherWalk(want, docs) {
        assert have == have[..|want|] + have[|want|..];
        SortedPrefix(have[..|want|], have[|want|..], docs);
        CoversSound(want, have, docs);
      }
    } else {
      CoversComplete(want, have, []);
      var docs :| Refutes(docs, want, have, []);
    }
  }

  // --- Transitivity ------------------------------------------------------------

  lemma {:induction false} OrderCoversTransitive(a: seq<Key>, b: seq<Key>, c: seq<Key>)
    requires OrderCovers(a, b) && OrderCovers(b, c)
    ensures OrderCovers(a, c)
  {
    forall i | 0 <= i < |a| ensures c[i].field == a[i].field {
      assert b[i].field == a[i].field;
    }
    var ab := forall i :: 0 <= i < |a| ==> b[i].direction == a[i].direction;
    var bc := forall i :: 0 <= i < |b| ==> c[i].direction == b[i].direction;
    if ab == bc {
      forall i | 0 <= i < |a| ensures c[i].direction == a[i].direction {
      }
    } else {
      forall i | 0 <= i < |a|
        ensures Ordered(a[i].direction) && Ordered(c[i].direction) && c[i].direction == Flip(a[i].direction)
      {
        assert b[i].field == a[i].field;
      }
    }
  }

  /** Coverage chains: options, included columns and key order all carry over. */
  lemma {:induction false} RedundantPrefixTransitive(a: IndexSpec, b: IndexSpec, c: IndexSpec)
    requires IsRedundantPrefix(a, b) && IsRedundantPrefix(b, c) && a.name != c.name
    ensures IsRedundantPrefix(a, c)
  {
    OrderCoversTransitive(a.keys, b.keys, c.keys);
    forall column | column in a.includes ensures column in CoveredColumns(c) {
      assert column in CoveredColumns(b);
      if column in Fields(b.keys) {
        var i :| 0 <= i < |b.keys| && Fields(b.keys)[i] == column;
        assert Fields(c.keys)[i] == c.keys[i].field == b.keys[i].field == column;
      }
    }
  }
}
