/** One wanted index: its keys, their blocks and what must lead them; when another want
    may be folded into it (absorbs, sortSitsInEquality, leadWith in
    apps/api/src/analysis/workload.ts). */
module Wants {
  import opened Engine
  import opened Esr
  import opened Serving
  import opened Leads

  /** `sources` are positions in the list of shapes; the first is `shape` itself. */
  datatype Want = Want(
    shape: QueryShape,
    wantedKeys: seq<SortKey>,
    partialFilter: Option<Filter>,
    blocks: KeyBlocks,
    lead: seq<string>,
    scanning: bool,
    absorbedCount: nat,
    absorbedShapes: nat,
    sources: seq<nat>)

  /** What every operation keeps: the keys are laid out by their blocks, and the lead
      names equality fields, each once. */
  predicate WellFormed(w: Want) {
    && Laid(w.wantedKeys, w.blocks)
    && Distinct(w.lead) && Within(w.lead, w.blocks.equality)
    && w.sources != []
  }

  predicate SortSitsInEquality(narrow: KeyBlocks, wide: KeyBlocks) {
    && Within(Fields(narrow.sort), wide.equality)
    && (|narrow.sort| == 1 || AllAscend(narrow.sort))
  }

  /** The narrower want's sort is served out of the wider one's equality block. */
  predicate SortFromEquality(narrow: KeyBlocks, wide: KeyBlocks) {
    |narrow.sort| > 0 && SortSitsInEquality(narrow, wide)
  }

  predicate Absorbs(narrow: Want, wide: Want) {
    var n, w := narrow.blocks, wide.blocks;
    && narrow.partialFilter.None? && wide.partialFilter.None?
    && Within(n.equality, w.equality)
    && (!SortFromEquality(n, w) ==>
          && (|n.equality| != |w.equality| ==> |n.sort| == 0)
          && n.sort <= w.sort)
    && (forall i :: 0 <= i < |n.range| ==>
          n.range[i] in w.equality || n.range[i] in Fields(w.sort) || n.range[i] in w.range)
    && (forall i :: 0 <= i < |wide.lead| ==>
          wide.lead[i] in n.equality || (SortFromEquality(n, w) && wide.lead[i] in Fields(n.sort)))
  }

  function NamesIn(names: seq<string>, among: seq<string>): (kept: seq<string>)
    ensures Within(kept, among)
    ensures Within(names, among) ==> kept == names
    ensures (forall i :: 0 <= i < |names| ==> names[i] !in among) ==> kept == []
  {
    if names == [] then []
    else
      var before := NamesIn(names[..|names| - 1], among);
      if names[|names| - 1] in among then before + [names[|names| - 1]] else before
  }

  /** What folding `narrow` into `wide` puts behind the lead that is there. */
  function Brought(narrow: Want, wide: Want): seq<string> {
    narrow.lead + narrow.blocks.equality + NamesIn(Fields(narrow.blocks.sort), wide.blocks.equality)
  }

  function FoldInto(wide: Want, narrow: Want): Want {
    wide.(
      absorbedCount := wide.absorbedCount + narrow.shape.count + narrow.absorbedCount,
      absorbedShapes := wide.absorbedShapes + 1 + narrow.absorbedShapes,
      scanning := wide.scanning || narrow.scanning,
      lead := DistinctNames(wide.lead + Brought(narrow, wide)),
      sources := wide.sources + narrow.sources)
  }

  lemma {:induction false} LaidEquality(w: Want)
    requires Laid(w.wantedKeys, w.blocks)
    ensures Distinct(w.blocks.equality)
    ensures Distinct(w.blocks.equality + Fields(w.blocks.sort))
    ensures forall f :: f in w.blocks.equality ==> f !in Fields(w.blocks.sort) && f !in w.blocks.range
  {
    LaidFields(w.wantedKeys, w.blocks);
    var all, e := Fields(w.wantedKeys), w.blocks.equality;
    var es := e + Fields(w.blocks.sort);
    assert all == es + w.blocks.range;
    assert forall i :: 0 <= i < |es| ==> all[i] == es[i];
    assert forall i :: 0 <= i < |e| ==> all[i] == e[i];
    forall f | f in e ensures f !in Fields(w.blocks.sort) && f !in w.blocks.range {
      var i :| 0 <= i < |e| && e[i] == f;
      assert forall k :: 0 <= k < |w.blocks.sort| ==> all[|e| + k] == Fields(w.blocks.sort)[k];
      assert forall k :: 0 <= k < |w.blocks.range| ==> all[|es| + k] == w.blocks.range[k];
    }
  }

  /** Folding keeps the want well formed and only ever appends to its lead. */
  lemma {:induction false} FoldKeeps(wide: Want, narrow: Want)
    requires WellFormed(wide) && WellFormed(narrow) && Absorbs(narrow, wide)
    ensures WellFormed(FoldInto(wide, narrow))
    ensures FoldInto(wide, narrow).lead == AddNames(wide.lead, Brought(narrow, wide))
    ensures wide.lead <= FoldInto(wide, narrow).lead
  {
    var brought := Brought(narrow, wide);
    DistinctStart(wide.lead, brought);
    AddNamesExtends(wide.lead, brought);
    var out := FoldInto(wide, narrow).lead;
    forall i | 0 <= i < |brought| ensures brought[i] in wide.blocks.equality {
      if i < |narrow.lead| {
        assert narrow.lead[i] in narrow.blocks.equality;
      }
    }
    forall i | 0 <= i < |out| ensures out[i] in wide.blocks.equality {
      assert out[i] in out;
    }
  }

  /** Equal equality sets leave the narrower sort out of the wider equality block. */
  lemma {:induction false} SameEqualityNames(narrow: Want, wide: Want)
    requires Laid(narrow.wantedKeys, narrow.blocks)
    requires Within(narrow.blocks.equality, wide.blocks.equality)
    requires |narrow.blocks.equality| == |wide.blocks.equality|
    ensures forall i :: 0 <= i < |narrow.blocks.sort| ==> Fields(narrow.blocks.sort)[i] !in wide.blocks.equality
  {
    LaidEquality(narrow);
    SameSetBothWays(narrow.blocks.equality, wide.blocks.equality);
    forall i | 0 <= i < |narrow.blocks.sort| ensures Fields(narrow.blocks.sort)[i] !in narrow.blocks.equality {
      assert Fields(narrow.blocks.sort)[i] in Fields(narrow.blocks.sort);
    }
  }

  /** Unless its sort is served from the wider equality block, a folded want's equality
      fields are exactly the first fields of the lead right after the fold. */
  lemma {:induction false} FoldedLeads(wide: Want, narrow: Want)
    requires WellFormed(wide) && WellFormed(narrow) && Absorbs(narrow, wide)
    requires !SortFromEquality(narrow.blocks, wide.blocks)
    ensures Leading(narrow.blocks.equality, FoldInto(wide, narrow).lead)
    ensures |FoldInto(wide, narrow).lead| == |narrow.blocks.equality|
  {
    FoldKeeps(wide, narrow);
    LaidEquality(narrow);
    var e := narrow.blocks.equality;
    var kept := NamesIn(Fields(narrow.blocks.sort), wide.blocks.equality);
    assert kept == [] by {
      if |narrow.blocks.sort| > 0 {
        SameEqualityNames(narrow, wide);
      }
    }
    assert Brought(narrow, wide) == narrow.lead + e;
    Completed(wide.lead, narrow.lead + e, e);
    var out := AddNames(wide.lead, narrow.lead + e);
    assert out[..|e|] == out;
  }

  /** When the sort is served from the wider equality block, the equality fields and
      then the sort lead if and only if the lead that was there allows it. */
  lemma {:induction false} FoldedSortLeads(wide: Want, narrow: Want)
    requires WellFormed(wide) && WellFormed(narrow) && Absorbs(narrow, wide)
    requires SortFromEquality(narrow.blocks, wide.blocks)
    ensures LeadingThenSort(narrow.blocks.equality, Fields(narrow.blocks.sort), FoldInto(wide, narrow).lead)
      <==> CompatibleWithSort(wide.lead, narrow.blocks.equality, Fields(narrow.blocks.sort))
  {
    FoldKeeps(wide, narrow);
    LaidEquality(narrow);
    var e, s := narrow.blocks.equality, Fields(narrow.blocks.sort);
    assert Brought(narrow, wide) == narrow.lead + e + s;
    forall i | 0 <= i < |wide.lead| ensures wide.lead[i] in e + s {
    }
    SortedLeadingSurvives(wide.lead, narrow.lead, e, s);
  }

  // --- Leading with what was folded in -----------------------------------------

  function KeysOn(keys: seq<SortKey>, field: string): seq<SortKey> {
    if keys == [] then []
    else
      var before := KeysOn(keys[..|keys| - 1], field);
      if keys[|keys| - 1].field == field then before + [keys[|keys| - 1]] else before
  }

  function LeadKeys(keys: seq<SortKey>, lead: seq<string>): seq<SortKey> {
    if lead == [] then [] else LeadKeys(keys, lead[..|lead| - 1]) + KeysOn(keys, lead[|lead| - 1])
  }

  function LeadWith(want: Want): seq<SortKey> {
    if want.lead == [] then want.wantedKeys
    else LeadKeys(want.wantedKeys, want.lead) + Without(want.wantedKeys, set f | f in want.lead)
  }

  lemma {:induction false} KeysOnNone(keys: seq<SortKey>, field: string)
    requires field !in Fields(keys)
    ensures KeysOn(keys, field) == []
  {
    if keys != [] {
      assert keys == keys[..|keys| - 1] + [keys[|keys| - 1]];
      FieldsAppend(keys[..|keys| - 1], [keys[|keys| - 1]]);
      assert Fields(keys)[|keys| - 1] == keys[|keys| - 1].field;
      KeysOnNone(keys[..|keys| - 1], field);
    }
  }

  lemma {:induction false} KeysOnOne(keys: seq<SortKey>, p: nat)
    requires Distinct(Fields(keys)) && p < |keys|
    ensures KeysOn(keys, keys[p].field) == [keys[p]]
  {
    var n := |keys| - 1;
    var short := keys[..n];
    assert forall i :: 0 <= i < n ==> Fields(short)[i] == Fields(keys)[i];
    assert Fields(keys)[p] == keys[p].field && Fields(keys)[n] == keys[n].field;
    if p == n {
      KeysOnNone(short, keys[p].field);
    } else {
      KeysOnOne(short, p);
    }
  }

  lemma {:induction false} EqualityKey(w: Want, f: string)
    requires Laid(w.wantedKeys, w.blocks) && f in w.blocks.equality
    ensures KeysOn(w.wantedKeys, f) == [Key(f, Asc)]
  {
    var p :| 0 <= p < |w.blocks.equality| && w.blocks.equality[p] == f;
    assert w.wantedKeys[p] == Ascending(w.blocks.equality)[p];
    KeysOnOne(w.wantedKeys, p);
  }

  lemma {:induction false} LeadKeysAscend(w: Want, lead: seq<string>)
    requires Laid(w.wantedKeys, w.blocks) && Within(lead, w.blocks.equality)
    ensures LeadKeys(w.wantedKeys, lead) == Ascending(lead)
    decreases |lead|
  {
    if lead != [] {
      LeadKeysAscend(w, lead[..|lead| - 1]);
      EqualityKey(w, lead[|lead| - 1]);
    }
  }

  lemma {:induction false} WithoutNothing(keys: seq<SortKey>, gone: set<string>)
    requires forall i :: 0 <= i < |keys| ==> keys[i].field !in gone
    ensures Without(keys, gone) == keys
  {
    if keys != [] {
      WithoutNothing(keys[..|keys| - 1], gone);
    }
  }

  /** The equality fields not already leading, in their own order. */
  function Trailing(w: Want): seq<SortKey> {
    Without(Ascending(w.blocks.equality), set f | f in w.lead)
  }

  lemma {:induction false} WithoutLead(w: Want)
    requires WellFormed(w)
    ensures Without(w.wantedKeys, set f | f in w.lead) == Trailing(w) + (w.blocks.sort + Ascending(w.blocks.range))
  {
    var gone := set f | f in w.lead;
    var eq, rest := Ascending(w.blocks.equality), w.blocks.sort + Ascending(w.blocks.range);
    assert w.wantedKeys == eq + rest;
    WithoutAppend(eq, rest, gone);
    forall i | 0 <= i < |rest| ensures rest[i].field !in gone {
      RestNotLeading(w, i);
    }
    WithoutNothing(rest, gone);
  }

  /** The final keys: the lead, the rest of the equality block, then sort and range
      untouched. */
  lemma {:induction false} LeadWithLayout(w: Want)
    requires WellFormed(w)
    ensures LeadWith(w) == Ascending(w.lead) + Trailing(w) + (w.blocks.sort + Ascending(w.blocks.range))
  {
    WithoutLead(w);
    if w.lead == [] {
      WithoutNothing(w.wantedKeys, set f | f in w.lead);
      assert Ascending(w.lead) == [];
    } else {
      LeadKeysAscend(w, w.lead);
    }
  }

  lemma {:induction false} RestNotLeading(w: Want, i: nat)
    requires WellFormed(w) && i < |w.blocks.sort| + |w.blocks.range|
    ensures (w.blocks.sort + Ascending(w.blocks.range))[i].field !in w.lead
  {
    LaidEquality(w);
    var rest := w.blocks.sort + Ascending(w.blocks.range);
    assert i < |w.blocks.sort| ==> Fields(w.blocks.sort)[i] == rest[i].field;
    assert i >= |w.blocks.sort| ==> w.blocks.range[i - |w.blocks.sort|] == rest[i].field;
  }

  lemma {:induction false} EqualityBlockKept(w: Want)
    requires WellFormed(w)
    ensures SameSet(Fields(Ascending(w.lead) + Trailing(w)), w.blocks.equality)
    ensures Distinct(Fields(Ascending(w.lead) + Trailing(w)))
  {
    LaidEquality(w);
    var gone := set f | f in w.lead;
    var eq := Ascending(w.blocks.equality);
    WithoutDistinct(eq, gone);
    var a, b := w.lead, Fields(Trailing(w));
    FieldsAppend(Ascending(w.lead), Trailing(w));
    assert Distinct(a + b) by {
      forall i, j | 0 <= i < j < |a + b| ensures (a + b)[i] != (a + b)[j] {
        if i < |a| <= j {
          assert b[j - |a|] in b;
        }
      }
    }
    forall i | 0 <= i < |a + b| ensures (a + b)[i] in w.blocks.equality {
      if i >= |a| {
        assert b[i - |a|] in b;
      }
    }
    DistinctSameNames(a + b, w.blocks.equality);
  }

  /** `leadWith` permutes the keys and moves none but the equality block, which stays in
      front and starts with the lead. */
  lemma {:induction false} LeadWithPermutes(w: Want)
    requires WellFormed(w)
    ensures |LeadWith(w)| == |w.wantedKeys| && AllOrdered(LeadWith(w))
    ensures multiset(LeadWith(w)) == multiset(w.wantedKeys)
    ensures LeadWith(w)[|w.blocks.equality|..] == w.wantedKeys[|w.blocks.equality|..]
    ensures |w.lead| <= |w.blocks.equality|
    ensures Fields(LeadWith(w))[..|w.lead|] == w.lead
    ensures SameSet(Fields(LeadWith(w))[..|w.blocks.equality|], w.blocks.equality)
  {
    LeadWithLayout(w);
    EqualityBlockKept(w);
    LaidEquality(w);
    DistinctBound(w.lead, w.blocks.equality);
    var e := |w.blocks.equality|;
    var front, rest := Ascending(w.lead) + Trailing(w), w.blocks.sort + Ascending(w.blocks.range);
    FieldsAppend(front, rest);
    FieldsAppend(Ascending(w.lead), Trailing(w));
    assert |front| == |Fields(front)| == e;
    assert LeadWith(w) == front + rest;
    assert w.wantedKeys == Ascending(w.blocks.equality) + rest;
    assert Fields(LeadWith(w))[..e] == Fields(front);
    FrontPermutes(w, front);
  }

  lemma {:induction false} FrontPermutes(w: Want, front: seq<SortKey>)
    requires WellFormed(w) && front == Ascending(w.lead) + Trailing(w)
    requires SameSet(Fields(front), w.blocks.equality) && Distinct(Fields(front))
    ensures multiset(front) == multiset(Ascending(w.blocks.equality))
  {
    LaidEquality(w);
    var eq := Ascending(w.blocks.equality);
    TrailingAscends(eq, set f | f in w.lead);
    forall i | 0 <= i < |front| ensures front[i] == Key(Fields(front)[i], Asc) {
      assert i >= |w.lead| ==> front[i] == Trailing(w)[i - |w.lead|];
    }
    assert front == Ascending(Fields(front));
    SameNamesPermute(w.blocks.equality, Fields(front));
    AscendingPermutes(Fields(front), w.blocks.equality);
  }

  lemma {:induction false} TrailingAscends(keys: seq<SortKey>, gone: set<string>)
    requires AllAscend(keys)
    ensures AllAscend(Without(keys, gone))
  {
    if keys != [] {
      TrailingAscends(keys[..|keys| - 1], gone);
    }
  }

  /** Distinct names filled by as many names from among them are the same multiset. */
  lemma {:induction false} SameNamesPermute(all: seq<string>, some: seq<string>)
    requires Distinct(all) && SameSet(some, all)
    requires Distinct(some)
    ensures multiset(some) == multiset(all)
  {
    SameSetBothWays(some, all);
    forall f ensures multiset(some)[f] == multiset(all)[f] {
      OnceEach(some, f);
      OnceEach(all, f);
    }
  }

  lemma {:induction false} OnceEach(s: seq<string>, f: string)
    requires Distinct(s)
    ensures multiset(s)[f] == if f in s then 1 else 0
  {
    if s != [] {
      var short, last := s[..|s| - 1], s[|s| - 1];
      assert s == short + [last];
      OnceEach(short, f);
    }
  }

  lemma {:induction false} AscendingPermutes(a: seq<string>, b: seq<string>)
    requires multiset(a) == multiset(b)
    ensures multiset(Ascending(a)) == multiset(Ascending(b))
  {
    forall k ensures multiset(Ascending(a))[k] == multiset(Ascending(b))[k] {
      AscendingCount(a, k);
      AscendingCount(b, k);
    }
  }

  lemma {:induction false} AscendingCount(a: seq<string>, k: SortKey)
    ensures multiset(Ascending(a))[k] == if k.direction.Asc? then multiset(a)[k.field] else 0
  {
    if a != [] {
      var short, last := a[..|a| - 1], a[|a| - 1];
      AscendingCount(short, k);
      assert a == short + [last];
      assert Ascending(a) == Ascending(short) + [Key(last, Asc)];
    }
  }
}
