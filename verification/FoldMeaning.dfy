/** What consolidation does to the queries it folds, told in documents: a folded query
    keeps a contiguous stretch of the surviving index exactly when its equality fields
    lead that index. */
module FoldMeaning {
  import opened Engine
  import opened Documents
  import opened Redundancy
  import opened Esr
  import opened Serving
  import opened Leads
  import opened Wants
  import opened Consolidation

  /** Whatever the data, the matches of any binding sit side by side in the index. */
  ghost predicate AlwaysContiguous(keys: seq<Key>, equality: seq<string>) {
    forall docs :: Sorted(keys, docs) ==> Contiguous(equality, docs)
  }

  lemma {:induction false} LeadingContiguous(keys: seq<SortKey>, equality: seq<string>)
    requires Distinct(Fields(keys)) && Leading(equality, Fields(keys))
    ensures AlwaysContiguous(keys, equality)
  {
    var e := |equality|;
    var lead, rest := keys[..e], keys[e..];
    assert keys == lead + rest && Fields(lead) == Fields(keys)[..e];
    SameSetBothWays(Fields(lead), equality);
    forall docs | Sorted(keys, docs) ensures Contiguous(equality, docs) {
      BoundPrefixContiguous(lead, rest, equality, docs);
    }
  }

  /** Three documents in the keys' order, the outer two sharing a value of `y` the middle
      one lacks. */
  lemma {:induction false} Scattered(keys: seq<SortKey>, equality: seq<string>, docs: seq<Doc>, y: string)
    requires |docs| == 3 && Sorted(keys, docs) && y in equality
    requires forall f :: f in equality ==> docs[0](f) == docs[2](f)
    requires docs[1](y) != docs[0](y)
    ensures !AlwaysContiguous(keys, equality)
  {
    assert Matches(equality, docs[0], docs[0]) && Matches(equality, docs[0], docs[2]);
    assert !Matches(equality, docs[0], docs[1]);
    assert !Contiguous(equality, docs);
  }

  /** An unbound key in front of a bound field scatters the matches. */
  lemma {:induction false} UnboundKeyScatters(keys: seq<SortKey>, equality: seq<string>, p: nat, y: string)
    requires Distinct(Fields(keys)) && p < |keys| && keys[p].field !in equality
    requires y in equality && y !in Fields(keys[..p])
    ensures !AlwaysContiguous(keys, equality)
  {
    var x := keys[p];
    var k := if q: nat :| q < |keys| && keys[q].field == y then keys[q] else Key(y, Asc);
    var d0 := Probe(x.field, Rank(x, 0), y, Rank(k, 0));
    var d1 := Probe(x.field, Rank(x, 0), y, Rank(k, 1));
    var d2 := Probe(x.field, Rank(x, 1), y, Rank(k, 0));
    assert x.field != y;
    if q :| 0 <= q < |keys| && keys[q].field == y {
      assert Fields(keys)[q] == y;
      assert forall i :: 0 <= i < p ==> Fields(keys[..p])[i] == keys[i].field;
      assert k == keys[q] by {
        assert forall i :: 0 <= i < |keys| ==> Fields(keys)[i] == keys[i].field;
      }
      MixedCompare(keys, x, k, p, q, d0, d1, d2);
    } else {
      AbsentCompare(keys, x, p, y, d0, d1, d2);
    }
    Scattered(keys, equality, [d0, d1, d2], y);
  }

  lemma {:induction false} AbsentCompare(keys: seq<SortKey>, x: SortKey, p: nat, y: string, d0: Doc, d1: Doc, d2: Doc)
    requires p < |keys| && keys[p] == x && Distinct(Fields(keys)) && x.field != y
    requires forall i :: 0 <= i < |keys| ==> keys[i].field != y
    requires d0 == Probe(x.field, Rank(x, 0), y, 0) && d1 == Probe(x.field, Rank(x, 0), y, 1)
    requires d2 == Probe(x.field, Rank(x, 1), y, 0)
    ensures Leq(keys, d0, d1) && Leq(keys, d1, d2) && Leq(keys, d0, d2)
  {
    TieIsLeq(keys, d0, d1);
    assert forall i :: 0 <= i < |keys| ==> Fields(keys)[i] == keys[i].field;
    assert Tie(keys[..p], d1, d2) && Tie(keys[..p], d0, d2);
    LeqAt(keys, p, d1, d2);
    LeqAt(keys, p, d0, d2);
  }

  /** A bound field no key holds scatters them too. */
  lemma {:induction false} AbsentFieldScatters(keys: seq<SortKey>, equality: seq<string>, y: string)
    requires y in equality && y !in Fields(keys)
    ensures !AlwaysContiguous(keys, equality)
  {
    var d0, d1 := Probe(y, 0, y, 0), Probe(y, 1, y, 1);
    assert forall i :: 0 <= i < |keys| ==> Fields(keys)[i] == keys[i].field;
    assert Tie(keys, d0, d1) && Tie(keys, d1, d0) && Tie(keys, d0, d0);
    TieIsLeq(keys, d0, d1);
    TieIsLeq(keys, d1, d0);
    TieIsLeq(keys, d0, d0);
    Scattered(keys, equality, [d0, d1, d0], y);
  }

  /** A query's matches stay together in an index, whatever the data, if and only if its
      equality fields are the index's first fields. */
  lemma {:induction false} ContiguousExactly(keys: seq<SortKey>, equality: seq<string>)
    requires Distinct(Fields(keys)) && Distinct(equality)
    ensures AlwaysContiguous(keys, equality) <==> Leading(equality, Fields(keys))
  {
    if Leading(equality, Fields(keys)) {
      LeadingContiguous(keys, equality);
    } else {
      NotLeadingScatters(keys, equality);
    }
  }

  lemma {:induction false} NotLeadingScatters(keys: seq<SortKey>, equality: seq<string>)
    requires Distinct(Fields(keys)) && Distinct(equality) && !Leading(equality, Fields(keys))
    ensures !AlwaysContiguous(keys, equality)
  {
    var fields := Fields(keys);
    if p :| 0 <= p < |keys| && p < |equality| && fields[p] !in equality {
      var head := fields[..p];
      var y := Missing(equality, head);
      assert Fields(keys[..p]) == head;
      UnboundKeyScatters(keys, equality, p, y);
    } else {
      assert |keys| == |fields|;
      if |fields| >= |equality| {
        EarlyIsLeading(fields, equality);
      }
      var y := Missing(equality, fields);
      AbsentFieldScatters(keys, equality, y);
    }
  }

  lemma {:induction false} EarlyIsLeading(fields: seq<string>, equality: seq<string>)
    requires |fields| >= |equality| && forall p :: 0 <= p < |equality| ==> fields[p] in equality
    ensures Leading(equality, fields)
  {
  }

  /** More distinct names than a list has places: one of them is not in it. */
  lemma {:induction false} Missing(names: seq<string>, list: seq<string>) returns (y: string)
    requires Distinct(names) && |names| > |list|
    ensures y in names && y !in list
  {
    if Within(names, list) {
      DistinctBound(names, list);
    }
    var i :| 0 <= i < |names| && names[i] !in list;
    y := names[i];
  }

  // --- Folded queries ----------------------------------------------------------

  lemma {:induction false} FinalDistinct(w: Want)
    requires WellFormed(w)
    ensures Distinct(Fields(LeadWith(w)))
  {
    LeadWithLayout(w);
    EqualityBlockKept(w);
    LaidEquality(w);
    LaidFields(w.wantedKeys, w.blocks);
    var front := Ascending(w.lead) + Trailing(w);
    var rest := w.blocks.sort + Ascending(w.blocks.range);
    FieldsAppend(front, rest);
    FieldsAppend(w.blocks.sort, Ascending(w.blocks.range));
    assert w.blocks.equality + Fields(rest) == Fields(w.wantedKeys);
    FrontAndRestDistinct(Fields(front), w.blocks.equality, Fields(rest));
  }

  lemma {:induction false} FrontAndRestDistinct(front: seq<string>, equality: seq<string>, rest: seq<string>)
    requires Distinct(front) && Distinct(equality + rest) && SameSet(front, equality)
    ensures Distinct(front + rest)
  {
    var all, e := equality + rest, |equality|;
    assert forall i :: 0 <= i < |rest| ==> all[e + i] == rest[i];
    assert forall i :: 0 <= i < e ==> all[i] == equality[i];
    forall i, j | 0 <= i < j < |front + rest| ensures (front + rest)[i] != (front + rest)[j] {
      if i < |front| <= j {
        assert front[i] in equality;
      }
    }
  }

  /** A want folded directly, its sort not served from equality: its query's matches are
      contiguous in the surviving index and come out in its sort, whatever the data. */
  lemma {:induction false} DirectFoldStaysOnIndex(wants: seq<Want>, i: nat, j: nat)
    requires AllWellFormed(wants) && i < |wants|
    requires Final(wants).into[i] == Some(j)
    requires j < |wants| && !SortFromEquality(wants[i].blocks, wants[j].blocks)
    ensures AlwaysContiguous(LeadWith(Final(wants).items[j]), wants[i].blocks.equality)
    ensures AlwaysInOrder(LeadWith(Final(wants).items[j]), wants[i].blocks.equality, wants[i].blocks.sort)
  {
    DirectFoldBegins(wants, i, j);
    ConsolidateKeeps(wants, |wants|);
    LaidEquality(wants[i]);
    FinalDistinct(Final(wants).items[j]);
    ServedExactly(LeadWith(Final(wants).items[j]), wants[i].blocks.equality, wants[i].blocks.sort);
  }

  /** The final keys begin with its equality fields and then its sort. */
  lemma {:induction false} DirectFoldBegins(wants: seq<Want>, i: nat, j: nat)
    requires AllWellFormed(wants) && i < |wants|
    requires Final(wants).into[i] == Some(j)
    requires j < |wants| && !SortFromEquality(wants[i].blocks, wants[j].blocks)
    ensures
      var keys, e := LeadWith(Final(wants).items[j]), wants[i].blocks.equality;
      Leading(e, Fields(keys)) && OrderCovers(wants[i].blocks.sort, keys[|e|..])
  {
    var narrow, wide, final := Meeting(wants, i, j);
    if wants[i].blocks.sort == [] {
      DirectFoldLeads(wants, i, j);
    } else {
      ConsolidateKeeps(wants, |wants|);
      LaidEquality(wants[i]);
      SortBlockCovers(final, wants[i].blocks.equality, wants[i].blocks.sort);
    }
  }

  /** The same in documents: through any number of folds, the matches of a query a want stands
      for are contiguous in the surviving index, whatever the data, if and only if the last
      fold completed its fields. */
  lemma {:induction false} ChainFoldExactly(wants: seq<Want>, i: nat, equality: seq<string>)
    requires AllWellFormed(wants) && i < |wants| && Final(wants).into[i].Some?
    requires Distinct(equality) && Within(equality, wants[i].blocks.equality)
    ensures Forward(Final(wants).into)
    ensures
      var into := Final(wants).into;
      var k, j := LastHop(into, i), Survivor(into, i);
      AlwaysContiguous(LeadWith(Final(wants).items[j]), equality) <==> LastFoldCompletes(wants, k, j, equality)
  {
    ChainFoldLeads(wants, i, equality);
    ConsolidateKeeps(wants, |wants|);
    var j := Survivor(Final(wants).into, i);
    FinalDistinct(Final(wants).items[j]);
    ContiguousExactly(LeadWith(Final(wants).items[j]), equality);
  }

  lemma {:induction false} ApartFromLead(keys: seq<SortKey>, equality: seq<string>, sort: seq<SortKey>)
    requires Distinct(Fields(keys)) && Leading(equality, Fields(keys)) && Distinct(equality + Fields(sort))
    ensures BehindApart(keys[..|equality|], keys[|equality|..], equality, sort)
    ensures keys == keys[..|equality|] + keys[|equality|..]
  {
    var e, fields := |equality|, Fields(keys);
    SplitDistinct(equality, Fields(sort));
    assert Fields(keys[..e]) == fields[..e];
    SameSetBothWays(fields[..e], equality);
    var rest := Fields(keys[e..]);
    assert forall i :: 0 <= i < |rest| ==> rest[i] == fields[e + i];
    assert forall i :: 0 <= i < e ==> fields[..e][i] == fields[i];
  }

  /** A query's matches stay together and come out in its sort, whatever the data, if and only
      if the index begins with its equality fields and then its sort. */
  lemma {:induction false} ServedExactly(keys: seq<SortKey>, equality: seq<string>, sort: seq<SortKey>)
    requires Distinct(Fields(keys)) && Distinct(equality) && Distinct(equality + Fields(sort))
    ensures AlwaysContiguous(keys, equality) && AlwaysInOrder(keys, equality, sort)
      <==> Leading(equality, Fields(keys)) && OrderCovers(sort, keys[|equality|..])
  {
    ContiguousExactly(keys, equality);
    if Leading(equality, Fields(keys)) {
      ApartFromLead(keys, equality, sort);
      BoundOrderExactly(keys[..|equality|], keys[|equality|..], equality, sort);
    }
  }

  lemma {:induction false} CoversIsBehind(keys: seq<SortKey>, equality: seq<string>, sort: seq<SortKey>)
    requires Leading(equality, Fields(keys)) && OrderCovers(sort, keys[|equality|..])
    ensures LeadingThenSort(equality, Fields(sort), Fields(keys))
  {
    var e, s, fields := |equality|, |sort|, Fields(keys);
    forall i | 0 <= i < s ensures fields[e..e + s][i] == Fields(sort)[i] {
      assert keys[e..][i].field == sort[i].field;
    }
    assert fields[e..e + s] == Fields(sort);
  }

  /** A sort on equality fields, which stand ascending: where it stands is all that matters. */
  lemma {:induction false} InEqualityCovers(w: Want, equality: seq<string>, sort: seq<SortKey>)
    requires WellFormed(w) && Within(Fields(sort), w.blocks.equality) && (|sort| <= 1 || AllAscend(sort))
    ensures Leading(equality, Fields(LeadWith(w))) && OrderCovers(sort, LeadWith(w)[|equality|..])
      <==> LeadingThenSort(equality, Fields(sort), Fields(LeadWith(w)))
  {
    var keys := LeadWith(w);
    if LeadingThenSort(equality, Fields(sort), Fields(keys)) {
      SortInLead(w, equality, sort);
      LeadWithPermutes(w);
      CoversIsServed(sort, keys[|equality|..]);
    } else if Leading(equality, Fields(keys)) && OrderCovers(sort, keys[|equality|..]) {
      CoversIsBehind(keys, equality, sort);
    }
  }

  /** A want whose sort is served from the wider equality block, folded directly: its matches
      are contiguous in the surviving index and come out in its order, whatever the data, if
      and only if the lead it met allowed it. */
  lemma {:induction false} SortedFoldExactly(wants: seq<Want>, i: nat, j: nat)
    requires AllWellFormed(wants) && i < |wants|
    requires Final(wants).into[i] == Some(j)
    requires j < |wants| && SortFromEquality(wants[i].blocks, wants[j].blocks)
    ensures
      var keys, e, sort := LeadWith(Final(wants).items[j]), wants[i].blocks.equality, wants[i].blocks.sort;
      AlwaysContiguous(keys, e) && AlwaysInOrder(keys, e, sort)
      <==> CompatibleWithSort(Consolidate(wants, i).items[j].lead, e, Fields(sort))
  {
    SortedFoldLeads(wants, i, j);
    ConsolidateKeeps(wants, |wants|);
    LaidEquality(wants[i]);
    var w := Final(wants).items[j];
    FinalDistinct(w);
    ServedExactly(LeadWith(w), wants[i].blocks.equality, wants[i].blocks.sort);
    InEqualityCovers(w, wants[i].blocks.equality, wants[i].blocks.sort);
  }

  // --- Sorts through any number of folds ---------------------------------------

  /** Where a want's sort sits in a want it is inside of: among the equality fields, or at the
      head of the sort behind the same equality fields. */
  predicate InEquality(sort: seq<SortKey>, blocks: KeyBlocks) {
    Within(Fields(sort), blocks.equality) && (|sort| <= 1 || AllAscend(sort))
  }

  predicate InSort(equality: seq<string>, sort: seq<SortKey>, blocks: KeyBlocks) {
    |equality| == |blocks.equality| && sort <= blocks.sort
  }

  lemma {:induction false} EmptyInEquality(blocks: KeyBlocks)
    ensures InEquality([], blocks)
  {
    assert Fields([]) == [];
  }

  lemma {:induction false} PrefixInEquality(sort: seq<SortKey>, longer: seq<SortKey>, blocks: KeyBlocks)
    requires sort <= longer && SortSitsInEquality(KeyBlocks([], longer, []), blocks)
    ensures InEquality(sort, blocks)
  {
    forall i | 0 <= i < |sort| ensures Fields(sort)[i] in blocks.equality {
      assert Fields(longer)[i] == Fields(sort)[i];
    }
  }

  /** A fold carries the sort along. */
  lemma {:induction false} FoldCarries(equality: seq<string>, sort: seq<SortKey>, narrow: Want, wide: Want)
    requires Absorbs(narrow, wide)
    requires InEquality(sort, narrow.blocks) || InSort(equality, sort, narrow.blocks)
    ensures InEquality(sort, wide.blocks) || InSort(equality, sort, wide.blocks)
    ensures !InEquality(sort, narrow.blocks) && !SortFromEquality(narrow.blocks, wide.blocks)
      ==> InSort(equality, sort, wide.blocks)
  {
    if InEquality(sort, narrow.blocks) {
      WithinTransitive(Fields(sort), narrow.blocks.equality, wide.blocks.equality);
    } else if SortFromEquality(narrow.blocks, wide.blocks) {
      PrefixInEquality(sort, narrow.blocks.sort, wide.blocks);
    } else if sort == [] {
      EmptyInEquality(wide.blocks);
      EmptyInEquality(narrow.blocks);
    }
  }

  /** Every fold on a want's way carries its sort, up to the last. */
  lemma {:induction false} ChainCarries(wants: seq<Want>, i: nat, equality: seq<string>, sort: seq<SortKey>)
    requires AllWellFormed(wants) && i < |wants| && Forward(Final(wants).into) && Final(wants).into[i].Some?
    requires InEquality(sort, wants[i].blocks) || InSort(equality, sort, wants[i].blocks)
    ensures
      var last := wants[LastHop(Final(wants).into, i)].blocks;
      InEquality(sort, last) || InSort(equality, sort, last)
    decreases |wants| - i
  {
    var into := Final(wants).into;
    var next := into[i].value;
    if into[next].Some? {
      var narrow, wide, final := Meeting(wants, i, next);
      FoldCarries(equality, sort, narrow, wide);
      ChainCarries(wants, next, equality, sort);
    }
  }

  /** The same equality fields and a sort at the head of the want's own: the final keys begin
      with both. */
  lemma {:induction false} SortBlockCovers(w: Want, equality: seq<string>, sort: seq<SortKey>)
    requires WellFormed(w) && Distinct(equality) && Within(equality, w.blocks.equality)
    requires InSort(equality, sort, w.blocks)
    ensures Leading(equality, Fields(LeadWith(w))) && OrderCovers(sort, LeadWith(w)[|equality|..])
  {
    LeadWithPermutes(w);
    LaidEquality(w);
    var keys, e := LeadWith(w), |equality|;
    SameSetBothWays(equality, w.blocks.equality);
    forall i | 0 <= i < e ensures Fields(keys)[..e][i] in equality {
    }
    assert keys[e..] == w.wantedKeys[e..];
    assert w.wantedKeys == Ascending(w.blocks.equality) + w.blocks.sort + Ascending(w.blocks.range);
    forall i | 0 <= i < |sort| ensures keys[e..][i] == sort[i] {
      assert w.wantedKeys[e + i] == w.blocks.sort[i];
    }
  }

  /** Names a fold brought, in their order, stand in the final keys as they stood in the lead
      right after it. */
  lemma {:induction false} BroughtStands(narrow: Want, wide: Want, final: Want, equality: seq<string>,
                                         sort: seq<string>)
    requires WellFormed(narrow) && WellFormed(wide) && WellFormed(final) && Absorbs(narrow, wide)
    requires FoldInto(wide, narrow).lead <= final.lead
    requires Distinct(equality + sort) && Within(equality + sort, Brought(narrow, wide))
    ensures LeadingThenSort(equality, sort, Fields(LeadWith(final)))
      <==> LeadingThenSort(equality, sort, wide.lead + FreshNames(wide.lead, Brought(narrow, wide)))
  {
    FoldKeeps(wide, narrow);
    var brought, out := Brought(narrow, wide), FoldInto(wide, narrow).lead;
    AddNamesIsFresh(wide.lead, brought);
    AddNamesExtends(wide.lead, brought);
    forall i | 0 <= i < |equality + sort| ensures (equality + sort)[i] in out {
      assert (equality + sort)[i] in brought;
    }
    DistinctBound(equality + sort, out);
    SamePrefixThenSort(equality, sort, out, final.lead);
    LeadWithPermutes(final);
    var fields := Fields(LeadWith(final));
    assert fields[..|final.lead|] == final.lead;
    SamePrefixThenSort(equality, sort, final.lead, fields);
  }

  lemma {:induction false} SortIsBrought(narrow: Want, wide: Want, equality: seq<string>, sort: seq<SortKey>)
    requires Within(equality, narrow.blocks.equality)
    requires InEquality(sort, narrow.blocks)
      || (sort <= narrow.blocks.sort && SortFromEquality(narrow.blocks, wide.blocks))
    ensures Within(equality + Fields(sort), Brought(narrow, wide))
  {
    var kept, names := NamesIn(Fields(narrow.blocks.sort), wide.blocks.equality), equality + Fields(sort);
    forall i | 0 <= i < |names| ensures names[i] in Brought(narrow, wide) {
      if i < |equality| {
        assert names[i] == equality[i];
      } else if InEquality(sort, narrow.blocks) {
        assert names[i] == Fields(sort)[i - |equality|];
      } else {
        NamesInAll(Fields(narrow.blocks.sort), wide.blocks.equality);
        assert Fields(narrow.blocks.sort)[i - |equality|] == names[i];
        assert names[i] in kept;
      }
    }
  }

  lemma {:induction false} NamesInAll(names: seq<string>, among: seq<string>)
    requires Within(names, among)
    ensures NamesIn(names, among) == names
  {
    if names != [] {
      NamesInAll(names[..|names| - 1], among);
    }
  }

  /** The last fold put the equality fields and then the sort first. */
  ghost predicate LastFoldOrders(wants: seq<Want>, k: nat, j: nat, equality: seq<string>, sort: seq<string>)
    requires k < |wants| && j < |wants|
  {
    var met := Consolidate(wants, k).items;
    LeadingThenSort(equality, sort, met[j].lead + FreshNames(met[j].lead, Brought(met[k], met[j])))
  }

  /** Equality fields and a sort that the last fold brought stand where it put them. */
  lemma {:induction false} DecidedByNames(narrow: Want, wide: Want, final: Want, equality: seq<string>,
                                          sort: seq<SortKey>)
    requires WellFormed(narrow) && WellFormed(wide) && WellFormed(final) && Absorbs(narrow, wide)
    requires FoldInto(wide, narrow).lead <= final.lead && InEquality(sort, final.blocks)
    requires Distinct(equality + Fields(sort)) && Within(equality + Fields(sort), Brought(narrow, wide))
    ensures Leading(equality, Fields(LeadWith(final))) && OrderCovers(sort, LeadWith(final)[|equality|..])
      <==> LeadingThenSort(equality, Fields(sort), wide.lead + FreshNames(wide.lead, Brought(narrow, wide)))
    ensures sort == [] || !(sort <= final.blocks.sort)
  {
    BroughtStands(narrow, wide, final, equality, Fields(sort));
    InEqualityCovers(final, equality, sort);
    if sort != [] {
      EqualityNotSort(final, sort);
    }
  }

  /** What decides it: a sort that is still at the head of the survivor's own, or the names the
      last fold put first. */
  lemma {:induction false} LastFoldDecides(narrow: Want, wide: Want, final: Want, equality: seq<string>,
                                           sort: seq<SortKey>)
    requires WellFormed(narrow) && WellFormed(wide) && WellFormed(final) && Absorbs(narrow, wide)
    requires FoldInto(wide, narrow).lead <= final.lead && final.blocks == wide.blocks
    requires Distinct(equality) && Distinct(equality + Fields(sort)) && Within(equality, narrow.blocks.equality)
    requires InEquality(sort, narrow.blocks) || InSort(equality, sort, narrow.blocks)
    ensures
      var first := LeadingThenSort(equality, Fields(sort), wide.lead + FreshNames(wide.lead, Brought(narrow, wide)));
      Leading(equality, Fields(LeadWith(final))) && OrderCovers(sort, LeadWith(final)[|equality|..])
      <==> (sort != [] && sort <= final.blocks.sort) || first
  {
    if InEquality(sort, narrow.blocks) {
      WithinTransitive(Fields(sort), narrow.blocks.equality, wide.blocks.equality);
      SortIsBrought(narrow, wide, equality, sort);
      DecidedByNames(narrow, wide, final, equality, sort);
    } else if SortFromEquality(narrow.blocks, wide.blocks) {
      PrefixInEquality(sort, narrow.blocks.sort, wide.blocks);
      SortIsBrought(narrow, wide, equality, sort);
      DecidedByNames(narrow, wide, final, equality, sort);
    } else {
      EmptyInEquality(narrow.blocks);
      FoldCarries(equality, sort, narrow, wide);
      WithinTransitive(equality, narrow.blocks.equality, wide.blocks.equality);
      SortBlockCovers(final, equality, sort);
    }
  }

  lemma {:induction false} EqualityNotSort(w: Want, sort: seq<SortKey>)
    requires WellFormed(w) && Within(Fields(sort), w.blocks.equality) && sort != []
    ensures !(sort <= w.blocks.sort)
  {
    LaidEquality(w);
    assert Fields(sort)[0] == sort[0].field;
    assert w.blocks.sort != [] ==> Fields(w.blocks.sort)[0] == w.blocks.sort[0].field;
  }

  /** Through any number of folds, exactly: a want's matches are contiguous in the surviving
      index and come out in its sort, whatever the data, if and only if its sort is still at
      the head of the survivor's own or the last fold put its fields and then its sort first. */
  lemma {:induction false} ChainSortExactly(wants: seq<Want>, i: nat)
    requires AllWellFormed(wants) && i < |wants| && Final(wants).into[i].Some?
    ensures Forward(Final(wants).into)
    ensures
      var into, e, sort := Final(wants).into, wants[i].blocks.equality, wants[i].blocks.sort;
      var k, j := LastHop(into, i), Survivor(into, i);
      var keys := LeadWith(Final(wants).items[j]);
      AlwaysContiguous(keys, e) && AlwaysInOrder(keys, e, sort)
      <==> (sort != [] && sort <= wants[j].blocks.sort) || LastFoldOrders(wants, k, j, e, Fields(sort))
  {
    FinalForward(wants);
    var into, e, sort := Final(wants).into, wants[i].blocks.equality, wants[i].blocks.sort;
    var k, j := LastHop(into, i), Survivor(into, i);
    LaidEquality(wants[i]);
    ChainWithin(wants, i);
    ChainCarries(wants, i, e, sort);
    ConsolidateKeeps(wants, |wants|);
    var narrow, wide, final := Meeting(wants, k, j);
    LastFoldDecides(narrow, wide, final, e, sort);
    FinalDistinct(final);
    ServedExactly(LeadWith(final), e, sort);
  }

  /** Sort fields inside the equality block stand there ascending, which a walk serves. */
  lemma {:induction false} SortInLead(w: Want, equality: seq<string>, sort: seq<SortKey>)
    requires WellFormed(w) && LeadingThenSort(equality, Fields(sort), Fields(LeadWith(w)))
    requires Within(Fields(sort), w.blocks.equality)
    requires |sort| <= 1 || AllAscend(sort)
    ensures |equality| + |sort| <= |LeadWith(w)|
    ensures SortServed(LeadWith(w)[|equality|..][..|sort|], sort)
  {
    var keys, e, s := LeadWith(w), |equality|, |sort|;
    var have := keys[e..][..s];
    forall i | 0 <= i < s ensures have[i].field == sort[i].field && have[i].direction.Asc? {
      assert have[i] == keys[e + i];
      assert Fields(keys)[e..e + s][i] == Fields(sort)[i];
      FieldAscends(w, e + i);
    }
  }

  /** Behind its equality block, a want's keys are not on equality fields. */
  lemma {:induction false} LaterNotEquality(w: Want, q: nat)
    requires WellFormed(w) && |w.blocks.equality| <= q < |w.wantedKeys|
    ensures w.wantedKeys[q].field !in w.blocks.equality
  {
    LaidEquality(w);
    var e, s := |w.blocks.equality|, |w.blocks.sort|;
    if q < e + s {
      assert w.wantedKeys[q] == w.blocks.sort[q - e];
      assert Fields(w.blocks.sort)[q - e] == w.wantedKeys[q].field;
    } else {
      assert w.wantedKeys[q] == Ascending(w.blocks.range)[q - e - s];
    }
  }

  lemma {:induction false} FieldAscends(w: Want, p: nat)
    requires WellFormed(w) && p < |LeadWith(w)| && LeadWith(w)[p].field in w.blocks.equality
    ensures LeadWith(w)[p].direction.Asc?
  {
    LeadWithPermutes(w);
    var k := LeadWith(w)[p];
    assert k in multiset(LeadWith(w));
    assert k in w.wantedKeys;
    var q :| 0 <= q < |w.wantedKeys| && w.wantedKeys[q] == k;
    if q < |w.blocks.equality| {
      assert w.wantedKeys[q] == Ascending(w.blocks.equality)[q];
    } else {
      LaterNotEquality(w, q);
    }
  }
}
