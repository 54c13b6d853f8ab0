/** What an index means. A document gives every field a value, an index lists its
    documents in the directed lexicographic order of its keys, and a query plan reads
    that list forward or backward. */
module Documents {
  import opened Engine

  type Doc = string -> int

  /** `a` comes strictly before `b` on one key. */
  ghost predicate Before(k: Key, a: Doc, b: Doc) {
    if k.direction.Desc? then b(k.field) < a(k.field) else a(k.field) < b(k.field)
  }

  ghost predicate Tie(keys: seq<Key>, a: Doc, b: Doc) {
    forall i :: 0 <= i < |keys| ==> a(keys[i].field) == b(keys[i].field)
  }

  ghost predicate Leq(keys: seq<Key>, a: Doc, b: Doc) {
    keys != [] ==>
      || Before(keys[0], a, b)
      || (a(keys[0].field) == b(keys[0].field) && Leq(keys[1..], a, b))
  }

  ghost predicate Sorted(keys: seq<Key>, docs: seq<Doc>) {
    forall i, j :: 0 <= i < j < |docs| ==> Leq(keys, docs[i], docs[j])
  }

  ghost function Reverse(docs: seq<Doc>): seq<Doc> {
    seq(|docs|, i requires 0 <= i < |docs| => docs[|docs| - 1 - i])
  }

  function FlipAll(keys: seq<Key>): seq<Key> {
    seq(|keys|, i requires 0 <= i < |keys| => Key(keys[i].field, Flip(keys[i].direction)))
  }

  /** The order `keys` ask for is what one walk over the list produces. */
  ghost predicate ServedByWalk(keys: seq<Key>, docs: seq<Doc>, backward: bool) {
    Sorted(keys, if backward then Reverse(docs) else docs)
  }

  lemma {:induction false} TieIsLeq(keys: seq<Key>, a: Doc, b: Doc)
    requires Tie(keys, a, b)
    ensures Leq(keys, a, b)
  {
    if keys != [] {
      assert a(keys[0].field) == b(keys[0].field);
      assert Tie(keys[1..], a, b) by {
        forall i | 0 <= i < |keys[1..]| ensures a(keys[1..][i].field) == b(keys[1..][i].field) {
          assert keys[1..][i] == keys[i + 1];
        }
      }
      TieIsLeq(keys[1..], a, b);
    }
  }

  /** Two documents that tie on a leading block are ordered by what follows it. */
  lemma {:induction false} TieSkips(lead: seq<Key>, rest: seq<Key>, a: Doc, b: Doc)
    requires Tie(lead, a, b)
    ensures Leq(lead + rest, a, b) == Leq(rest, a, b)
  {
    if lead == [] {
      assert lead + rest == rest;
    } else {
      assert a(lead[0].field) == b(lead[0].field);
      assert (lead + rest)[1..] == lead[1..] + rest;
      assert Tie(lead[1..], a, b) by {
        forall i | 0 <= i < |lead[1..]| ensures a(lead[1..][i].field) == b(lead[1..][i].field) {
          assert lead[1..][i] == lead[i + 1];
        }
      }
      TieSkips(lead[1..], rest, a, b);
    }
  }

  lemma {:induction false} LeqPrefix(lead: seq<Key>, rest: seq<Key>, a: Doc, b: Doc)
    requires Leq(lead + rest, a, b)
    ensures Leq(lead, a, b)
  {
    if lead != [] {
      assert (lead + rest)[1..] == lead[1..] + rest;
      if a(lead[0].field) == b(lead[0].field) {
        LeqPrefix(lead[1..], rest, a, b);
      }
    }
  }

  lemma {:induction false} LeqFlipped(keys: seq<Key>, a: Doc, b: Doc)
    requires AllOrdered(keys)
    ensures Leq(FlipAll(keys), a, b) == Leq(keys, b, a)
  {
    if keys != [] {
      assert FlipAll(keys)[1..] == FlipAll(keys[1..]);
      LeqFlipped(keys[1..], a, b);
    }
  }

  /** Documents between two that tie on a leading block tie on it too: the block's
      matches are contiguous. */
  lemma {:induction false} LeqSqueeze(keys: seq<Key>, a: Doc, m: Doc, b: Doc)
    requires AllOrdered(keys)
    requires Tie(keys, a, b) && Leq(keys, a, m) && Leq(keys, m, b)
    ensures Tie(keys, a, m)
  {
    if keys != [] {
      assert a(keys[0].field) == b(keys[0].field);
      forall i | 0 <= i < |keys[1..]| ensures a(keys[1..][i].field) == b(keys[1..][i].field) {
        assert keys[1..][i] == keys[i + 1];
      }
      LeqSqueeze(keys[1..], a, m, b);
      forall i | 0 <= i < |keys| ensures a(keys[i].field) == m(keys[i].field) {
        if i > 0 {
          assert keys[1..][i - 1] == keys[i];
        }
      }
    }
  }

  lemma {:induction false} SortedFlipped(keys: seq<Key>, docs: seq<Doc>)
    requires AllOrdered(keys)
    ensures Sorted(FlipAll(keys), docs) == Sorted(keys, Reverse(docs))
  {
    var back := Reverse(docs);
    var n := |docs|;
    if Sorted(FlipAll(keys), docs) {
      forall i, j | 0 <= i < j < n ensures Leq(keys, back[i], back[j]) {
        assert Leq(FlipAll(keys), docs[n - 1 - j], docs[n - 1 - i]);
        LeqFlipped(keys, docs[n - 1 - j], docs[n - 1 - i]);
      }
    }
    if Sorted(keys, back) {
      forall i, j | 0 <= i < j < n ensures Leq(FlipAll(keys), docs[i], docs[j]) {
        assert docs[i] == back[n - 1 - i] && docs[j] == back[n - 1 - j];
        assert Leq(keys, back[n - 1 - j], back[n - 1 - i]);
        LeqFlipped(keys, docs[i], docs[j]);
      }
    }
  }

  lemma {:induction false} SortedPrefix(lead: seq<Key>, rest: seq<Key>, docs: seq<Doc>)
    requires Sorted(lead + rest, docs)
    ensures Sorted(lead, docs)
  {
    forall i, j | 0 <= i < j < |docs| ensures Leq(lead, docs[i], docs[j]) {
      LeqPrefix(lead, rest, docs[i], docs[j]);
    }
  }

  /** The first key two documents differ on decides. */
  lemma {:induction false} LeqAt(keys: seq<Key>, p: nat, a: Doc, b: Doc)
    requires p < |keys|
    requires Tie(keys[..p], a, b)
    requires a(keys[p].field) != b(keys[p].field)
    ensures Leq(keys, a, b) == Before(keys[p], a, b)
  {
    assert keys == keys[..p] + keys[p..];
    TieSkips(keys[..p], keys[p..], a, b);
  }

  // --- Witness documents -------------------------------------------------------

  /** A document that is zero everywhere but on (at most) two fields. */
  ghost function Probe(x: string, vx: int, y: string, vy: int): Doc {
    f => if f == x then vx else if f == y then vy else 0
  }

  /** The value that stands at rank `v` in the key's own direction. */
  ghost function Rank(k: Key, v: int): int {
    if k.direction.Desc? then -v else v
  }

  lemma {:induction false} ProbesTie(keys: seq<Key>, x: string, y: string, a: Doc, b: Doc, vx: int, vy: int, wx: int,
                                     wy: int)
    requires a == Probe(x, vx, y, vy) && b == Probe(x, wx, y, wy)
    requires x !in Fields(keys) || vx == wx
    requires y !in Fields(keys) || vy == wy
    ensures Tie(keys, a, b)
  {
    forall i | 0 <= i < |keys| ensures a(keys[i].field) == b(keys[i].field) {
      assert keys[i].field == Fields(keys)[i];
    }
  }

  /** Both walks over a three-document list break the order the keys ask for. */
  ghost predicate NeitherWalk(keys: seq<Key>, docs: seq<Doc>) {
    !ServedByWalk(keys, docs, false) && !ServedByWalk(keys, docs, true)
  }

  /** A list in `have`'s order, all its documents bound to zero on `bound`, that neither
      walk presents in the order `want` asks for. */
  ghost predicate Refutes(docs: seq<Doc>, want: seq<Key>, have: seq<Key>, bound: seq<string>) {
    && Sorted(have, docs) && NeitherWalk(want, docs)
    && (forall i, f :: 0 <= i < |docs| && f in bound ==> docs[i](f) == 0)
  }

  lemma {:induction false} NeitherWalkOfThree(keys: seq<Key>, docs: seq<Doc>, i: nat, j: nat)
    requires |docs| == 3 && i < 2 && j < 2
    requires !Leq(keys, docs[i], docs[i + 1])
    requires !Leq(keys, docs[j + 1], docs[j])
    ensures NeitherWalk(keys, docs)
  {
    var back := Reverse(docs);
    assert back[1 - j] == docs[j + 1] && back[2 - j] == docs[j];
    assert !Leq(keys, back[1 - j], back[2 - j]);
  }
}
