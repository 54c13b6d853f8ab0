/** Folding wants into wider ones, narrowest first (the consolidation loop of
    recommendCreates, apps/api/src/analysis/workload.ts). */
module Consolidation {
  import opened Engine
  import opened Leads
  import opened Wants
  import opened FoldLoop

  // --- Narrowest first ---------------------------------------------------------

  function InsertWant(sorted: seq<Want>, w: Want): (out: seq<Want>)
    ensures |out| == |sorted| + 1
  {
    if sorted == [] || |sorted[|sorted| - 1].wantedKeys| <= |w.wantedKeys| then sorted + [w]
    else InsertWant(sorted[..|sorted| - 1], w) + [sorted[|sorted| - 1]]
  }

  /** The stable sort by key count. */
  function SortWants(wants: seq<Want>): (out: seq<Want>)
    ensures |out| == |wants|
  {
    if wants == [] then [] else InsertWant(SortWants(wants[..|wants| - 1]), wants[|wants| - 1])
  }

  lemma {:induction false} InsertPermutes(sorted: seq<Want>, w: Want)
    ensures multiset(InsertWant(sorted, w)) == multiset(sorted) + multiset{w}
  {
    if !(sorted == [] || |sorted[|sorted| - 1].wantedKeys| <= |w.wantedKeys|) {
      InsertPermutes(sorted[..|sorted| - 1], w);
      assert sorted == sorted[..|sorted| - 1] + [sorted[|sorted| - 1]];
    }
  }

  lemma {:induction false} SortPermutes(wants: seq<Want>)
    ensures multiset(SortWants(wants)) == multiset(wants)
  {
    if wants != [] {
      SortPermutes(wants[..|wants| - 1]);
      InsertPermutes(SortWants(wants[..|wants| - 1]), wants[|wants| - 1]);
      assert wants == wants[..|wants| - 1] + [wants[|wants| - 1]];
    }
  }

  predicate Primaried(wants: seq<Want>) {
    forall i :: 0 <= i < |wants| ==> wants[i].sources != []
  }

  /** Fewer keys first; among equals, the shape seen first. */
  predicate Precedes(a: Want, b: Want)
    requires a.sources != [] && b.sources != []
  {
    |a.wantedKeys| < |b.wantedKeys| || (|a.wantedKeys| == |b.wantedKeys| && a.sources[0] < b.sources[0])
  }

  predicate NarrowestFirst(wants: seq<Want>)
    requires Primaried(wants)
  {
    forall i, j :: 0 <= i < j < |wants| ==> Precedes(wants[i], wants[j])
  }

  lemma {:induction false} InsertNarrowest(sorted: seq<Want>, w: Want)
    requires Primaried(sorted) && NarrowestFirst(sorted) && w.sources != []
    requires forall i :: 0 <= i < |sorted| ==> sorted[i].sources[0] < w.sources[0]
    ensures Primaried(InsertWant(sorted, w)) && NarrowestFirst(InsertWant(sorted, w))
    ensures forall x :: x in InsertWant(sorted, w) ==> x in sorted || x == w
  {
    var out := InsertWant(sorted, w);
    if sorted == [] || |sorted[|sorted| - 1].wantedKeys| <= |w.wantedKeys| {
      forall i | 0 <= i < |sorted| ensures Precedes(sorted[i], w) {
        if i < |sorted| - 1 {
          assert Precedes(sorted[i], sorted[|sorted| - 1]);
        }
      }
    } else {
      var short, last := sorted[..|sorted| - 1], sorted[|sorted| - 1];
      InsertNarrowest(short, w);
      var inner := InsertWant(short, w);
      forall i | 0 <= i < |inner| ensures Precedes(inner[i], last) {
        assert inner[i] in inner;
        if inner[i] in short {
          var k :| 0 <= k < |short| && short[k] == inner[i];
          assert Precedes(sorted[k], last);
        }
      }
    }
  }

  /** Sorting what was collected in shape order is stable. */
  lemma {:induction false} SortNarrowest(wants: seq<Want>)
    requires Primaried(wants)
    requires forall i, j :: 0 <= i < j < |wants| ==> wants[i].sources[0] < wants[j].sources[0]
    ensures Primaried(SortWants(wants)) && NarrowestFirst(SortWants(wants))
    ensures forall x :: x in SortWants(wants) ==> x in wants
  {
    if wants != [] {
      var short, last := wants[..|wants| - 1], wants[|wants| - 1];
      SortNarrowest(short);
      var inner := SortWants(short);
      forall i | 0 <= i < |inner| ensures inner[i].sources[0] < last.sources[0] {
        assert inner[i] in short;
      }
      InsertNarrowest(inner, last);
    }
  }

  // --- The loop ----------------------------------------------------------------

  /** The wants after the first `n` have had their turn, and where each of those went. */
  function Consolidate(wants: seq<Want>, n: nat): (st: Folding<Want>)
    requires n <= |wants|
    ensures |st.items| == |wants| && |st.into| == n
  {
    Run(wants, n, Absorbs, FoldInto)
  }

  function Final(wants: seq<Want>): (st: Folding<Want>)
    ensures |st.items| == |st.into| == |wants|
  {
    Consolidate(wants, |wants|)
  }

  method ConsolidateLoop(start: seq<Want>) returns (wants: seq<Want>, into: seq<Option<nat>>)
    ensures Folding(wants, into) == Final(start)
  {
    wants, into := Loop(start, Absorbs, FoldInto);
  }

  predicate AllWellFormed(wants: seq<Want>) {
    forall i :: 0 <= i < |wants| ==> WellFormed(wants[i])
  }

  predicate SameWant(a: Want, b: Want) {
    && a.shape == b.shape && a.wantedKeys == b.wantedKeys
    && a.partialFilter == b.partialFilter && a.blocks == b.blocks
  }

  /** A want as it was, but for a lead that has been appended to. */
  predicate Grown(a: Want, b: Want) {
    SameWant(a, b) && a.lead <= b.lead
  }

  /** A longer lead can only refuse more. */
  lemma {:induction false} AbsorbsShrinks(narrow: Want, before: Want, after: Want)
    requires Grown(before, after) && Absorbs(narrow, after)
    ensures Absorbs(narrow, before)
  {
    assert forall i :: 0 <= i < |before.lead| ==> before.lead[i] == after.lead[i];
  }

  lemma {:induction false} FoldingIsLawful()
    ensures Lawful(Absorbs, FoldInto, WellFormed, Grown)
  {
    forall a, b | WellFormed(a) && WellFormed(b) && Absorbs(a, b)
      ensures WellFormed(FoldInto(b, a)) && Grown(b, FoldInto(b, a))
    {
      FoldKeeps(b, a);
    }
    forall a, b, c | Grown(b, c) && Absorbs(a, c) ensures Absorbs(a, b) {
      AbsorbsShrinks(a, b, c);
    }
  }

  lemma {:induction false} ConsolidateKeeps(wants: seq<Want>, n: nat)
    requires AllWellFormed(wants) && n <= |wants|
    ensures AllWellFormed(Consolidate(wants, n).items)
    ensures forall k :: 0 <= k < |wants| ==> SameWant(wants[k], Consolidate(wants, n).items[k])
  {
    FoldingIsLawful();
    RunKeeps(wants, n, Absorbs, FoldInto, WellFormed, Grown);
    forall k | 0 <= k < |wants| ensures SameWant(wants[k], Consolidate(wants, n).items[k]) {
      RunGrows(wants, 0, n, k, Absorbs, FoldInto, WellFormed, Grown);
    }
    forall k | 0 <= k < |wants| ensures WellFormed(Consolidate(wants, n).items[k]) {
    }
  }

  // --- Where a folded want's fields end up -------------------------------------

  /** The wants as they stood when want `i` was folded into want `j`. */
  lemma {:induction false} Meeting(wants: seq<Want>, i: nat, j: nat) returns (narrow: Want, wide: Want, final: Want)
    requires AllWellFormed(wants) && i < |wants|
    requires Final(wants).into[i] == Some(j)
    ensures i < j < |wants|
    ensures narrow == Consolidate(wants, i).items[i] && wide == Consolidate(wants, i).items[j]
    ensures final == Final(wants).items[j]
    ensures WellFormed(narrow) && WellFormed(wide) && WellFormed(final) && Absorbs(narrow, wide)
    ensures SameWant(wants[i], narrow) && SameWant(wants[j], wide)
    ensures FoldInto(wide, narrow).lead <= final.lead
  {
    FoldingIsLawful();
    FoldMoment(wants, i, j, Absorbs, FoldInto, WellFormed, Grown);
    var met := Run(wants, i, Absorbs, FoldInto).items;
    narrow, wide, final := met[i], met[j], Run(wants, |wants|, Absorbs, FoldInto).items[j];
  }

  lemma {:induction false} FinalLeads(final: Want, equality: seq<string>)
    requires WellFormed(final) && |equality| <= |final.lead|
    ensures Leading(equality, Fields(LeadWith(final))) <==> Leading(equality, final.lead)
  {
    LeadWithPermutes(final);
    var fields := Fields(LeadWith(final));
    assert fields[..|final.lead|][..|equality|] == fields[..|equality|];
  }

  lemma {:induction false} DirectLead(narrow: Want, wide: Want, final: Want)
    requires WellFormed(narrow) && WellFormed(wide) && WellFormed(final) && Absorbs(narrow, wide)
    requires FoldInto(wide, narrow).lead <= final.lead
    requires !SortFromEquality(narrow.blocks, wide.blocks)
    ensures Leading(narrow.blocks.equality, Fields(LeadWith(final)))
  {
    FoldedLeads(wide, narrow);
    LeadingExtends(narrow.blocks.equality, FoldInto(wide, narrow).lead, final.lead);
    FinalLeads(final, narrow.blocks.equality);
  }

  /** A want folded directly into another, its sort (if any) not served from equality,
      has its equality fields as exactly the first fields of that want's final keys. */
  lemma {:induction false} DirectFoldLeads(wants: seq<Want>, i: nat, j: nat)
    requires AllWellFormed(wants) && i < |wants|
    requires Final(wants).into[i] == Some(j)
    requires j < |wants| && !SortFromEquality(wants[i].blocks, wants[j].blocks)
    ensures Leading(wants[i].blocks.equality, Fields(LeadWith(Final(wants).items[j])))
  {
    var narrow, wide, final := Meeting(wants, i, j);
    DirectLead(narrow, wide, final);
  }

  lemma {:induction false} SamePrefixLeads(equality: seq<string>, a: seq<string>, b: seq<string>)
    requires a <= b && |equality| <= |a|
    ensures Leading(equality, a) <==> Leading(equality, b)
  {
    assert a[..|equality|] == b[..|equality|];
  }

  /** Every fold is into a later want. */
  predicate Forward(into: seq<Option<nat>>) {
    forall k :: 0 <= k < |into| && into[k].Some? ==> k < into[k].value < |into|
  }

  /** Where a want ends up once everything is folded. */
  function Survivor(into: seq<Option<nat>>, i: nat): (j: nat)
    requires Forward(into) && i < |into|
    ensures i <= j < |into| && into[j].None?
    decreases |into| - i
  {
    if into[i].None? then i else Survivor(into, into[i].value)
  }

  /** The want it was last inside of before the survivor: itself, if it was folded directly. */
  function LastHop(into: seq<Option<nat>>, i: nat): (k: nat)
    requires Forward(into) && i < |into| && into[i].Some?
    ensures i <= k < |into| && into[k] == Some(Survivor(into, i))
    decreases |into| - i
  {
    if into[into[i].value].None? then i else LastHop(into, into[i].value)
  }

  lemma {:induction false} FinalForward(wants: seq<Want>)
    requires AllWellFormed(wants)
    ensures Forward(Final(wants).into)
  {
    FoldingIsLawful();
    RunKeeps(wants, |wants|, Absorbs, FoldInto, WellFormed, Grown);
  }

  lemma {:induction false} WithinTransitive(a: seq<string>, b: seq<string>, c: seq<string>)
    requires Within(a, b) && Within(b, c)
    ensures Within(a, c)
  {
    forall i | 0 <= i < |a| ensures a[i] in c {
      var k :| 0 <= k < |b| && b[k] == a[i];
    }
  }

  /** A want's equality fields are among those of everything it is folded into. */
  lemma {:induction false} ChainWithin(wants: seq<Want>, i: nat)
    requires AllWellFormed(wants) && i < |wants| && Forward(Final(wants).into) && Final(wants).into[i].Some?
    ensures Within(wants[i].blocks.equality, wants[LastHop(Final(wants).into, i)].blocks.equality)
    decreases |wants| - i
  {
    var into := Final(wants).into;
    var next := into[i].value;
    if into[next].Some? {
      var narrow, wide, final := Meeting(wants, i, next);
      ChainWithin(wants, next);
      WithinTransitive(wants[i].blocks.equality, wants[next].blocks.equality,
                       wants[LastHop(into, next)].blocks.equality);
    }
  }

  lemma {:induction false} LastFold(narrow: Want, wide: Want, final: Want, equality: seq<string>)
    requires WellFormed(narrow) && WellFormed(wide) && WellFormed(final) && Absorbs(narrow, wide)
    requires FoldInto(wide, narrow).lead <= final.lead
    requires Distinct(equality) && Within(equality, narrow.blocks.equality)
    ensures Leading(equality, Fields(LeadWith(final)))
      <==> CompletedBy(wide.lead, FreshNames(wide.lead, Brought(narrow, wide)), equality)
  {
    FoldKeeps(wide, narrow);
    var brought := Brought(narrow, wide);
    forall i | 0 <= i < |equality| ensures equality[i] in wide.lead + brought {
      assert equality[i] in narrow.blocks.equality;
    }
    LeadingExactly(wide.lead, brought, equality);
    SamePrefixLeads(equality, FoldInto(wide, narrow).lead, final.lead);
    FinalLeads(final, equality);
  }

  /** How the wants stood at the last fold on a want's way: the survivor's lead, and the names
      not leading it yet that the fold brought. */
  ghost predicate LastFoldCompletes(wants: seq<Want>, k: nat, j: nat, equality: seq<string>)
    requires k < |wants| && j < |wants|
  {
    var met := Consolidate(wants, k).items;
    CompletedBy(met[j].lead, FreshNames(met[j].lead, Brought(met[k], met[j])), equality)
  }

  /** Through any number of folds, exactly: names a want binds lead the survivor's final keys
      if and only if, when the want they were last inside of was folded into it, the survivor's
      lead began with none but them and the first fresh names brought completed them. */
  lemma {:induction false} ChainFoldLeads(wants: seq<Want>, i: nat, equality: seq<string>)
    requires AllWellFormed(wants) && i < |wants| && Final(wants).into[i].Some?
    requires Distinct(equality) && Within(equality, wants[i].blocks.equality)
    ensures Forward(Final(wants).into)
    ensures
      var into := Final(wants).into;
      var k, j := LastHop(into, i), Survivor(into, i);
      Leading(equality, Fields(LeadWith(Final(wants).items[j]))) <==> LastFoldCompletes(wants, k, j, equality)
  {
    FinalForward(wants);
    var into := Final(wants).into;
    var k, j := LastHop(into, i), Survivor(into, i);
    ChainWithin(wants, i);
    WithinTransitive(equality, wants[i].blocks.equality, wants[k].blocks.equality);
    var narrow, wide, final := Meeting(wants, k, j);
    LastFold(narrow, wide, final, equality);
  }

  lemma {:induction false} SortedLead(narrow: Want, wide: Want, final: Want)
    requires WellFormed(narrow) && WellFormed(wide) && WellFormed(final) && Absorbs(narrow, wide)
    requires FoldInto(wide, narrow).lead <= final.lead
    requires SortFromEquality(narrow.blocks, wide.blocks)
    ensures LeadingThenSort(narrow.blocks.equality, Fields(narrow.blocks.sort), Fields(LeadWith(final)))
      <==> CompatibleWithSort(wide.lead, narrow.blocks.equality, Fields(narrow.blocks.sort))
  {
    var e, s := narrow.blocks.equality, Fields(narrow.blocks.sort);
    FoldedSortLeads(wide, narrow);
    BothBrought(wide, narrow);
    LeadWithPermutes(final);
    var out, fields := FoldInto(wide, narrow).lead, Fields(LeadWith(final));
    SamePrefixThenSort(e, s, out, final.lead);
    assert fields[..|final.lead|] == final.lead;
    assert final.lead <= fields;
    SamePrefixThenSort(e, s, final.lead, fields);
  }

  lemma {:induction false} BothBrought(wide: Want, narrow: Want)
    requires WellFormed(wide) && WellFormed(narrow) && Absorbs(narrow, wide)
    requires SortFromEquality(narrow.blocks, wide.blocks)
    ensures |narrow.blocks.equality| + |narrow.blocks.sort| <= |FoldInto(wide, narrow).lead|
  {
    var e, s := narrow.blocks.equality, Fields(narrow.blocks.sort);
    LaidEquality(narrow);
    AllBrought(wide.lead, narrow.lead, e + s);
    assert Brought(narrow, wide) == narrow.lead + (e + s);
    FoldKeeps(wide, narrow);
  }

  lemma {:induction false} AllBrought(lead: seq<string>, inner: seq<string>, names: seq<string>)
    requires Distinct(names)
    ensures |names| <= |AddNames(lead, inner + names)|
  {
    AddNamesExtends(lead, inner + names);
    forall i | 0 <= i < |names| ensures names[i] in AddNames(lead, inner + names) {
      assert names[i] in inner + names;
    }
    DistinctBound(names, AddNames(lead, inner + names));
  }

  lemma {:induction false} SamePrefixThenSort(e: seq<string>, s: seq<string>, a: seq<string>, b: seq<string>)
    requires |e| + |s| <= |a| && a <= b
    ensures LeadingThenSort(e, s, a) <==> LeadingThenSort(e, s, b)
  {
    assert a[..|e|] == b[..|e|];
    assert a[|e|..|e| + |s|] == b[|e|..|e| + |s|];
  }

  /** A want whose sort is served from the wider equality block: its equality fields and
      then its sort lead the final keys if and only if the lead it met allowed it. */
  lemma {:induction false} SortedFoldLeads(wants: seq<Want>, i: nat, j: nat)
    requires AllWellFormed(wants) && i < |wants|
    requires Final(wants).into[i] == Some(j)
    requires j < |wants| && SortFromEquality(wants[i].blocks, wants[j].blocks)
    ensures
      var e, s := wants[i].blocks.equality, Fields(wants[i].blocks.sort);
      LeadingThenSort(e, s, Fields(LeadWith(Final(wants).items[j])))
      <==> CompatibleWithSort(Consolidate(wants, i).items[j].lead, e, s)
  {
    var narrow, wide, final := Meeting(wants, i, j);
    SortedLead(narrow, wide, final);
  }

  // --- Nothing left to fold ----------------------------------------------------

  /** No survivor could be folded into any later want, under the final leads. */
  lemma {:induction false} SurvivorsIrreducible(wants: seq<Want>, i: nat, j: nat)
    requires AllWellFormed(wants) && i < j < |wants|
    requires Final(wants).into[i].None?
    ensures !Absorbs(Final(wants).items[i], Final(wants).items[j])
  {
    FoldingIsLawful();
    Irreducible(wants, i, j, Absorbs, FoldInto, WellFormed, Grown);
  }

  // --- Conservation ------------------------------------------------------------

  function SourcesOf(w: Want): multiset<nat> {
    multiset(w.sources)
  }

  /** A want's own shape and everything folded into it. */
  function CountOf(w: Want): nat {
    w.shape.count + w.absorbedCount
  }

  ghost function AliveSources(st: Folding<Want>): multiset<nat> {
    AliveBag(st, |st.items|, SourcesOf)
  }

  ghost function AliveCount(st: Folding<Want>): nat {
    AliveSum(st, |st.items|, CountOf)
  }

  /** Folding loses no shape and no count. */
  lemma {:induction false} ConsolidateConserves(wants: seq<Want>)
    ensures AliveSources(Final(wants)) == AliveSources(Folding(wants, []))
    ensures AliveCount(Final(wants)) == AliveCount(Folding(wants, []))
  {
    RunConserves(wants, |wants|, Absorbs, FoldInto, SourcesOf, CountOf);
  }

  lemma {:induction false} AliveAppend(wants: seq<Want>, w: Want)
    ensures AliveSources(Folding(wants + [w], [])) == AliveSources(Folding(wants, [])) + SourcesOf(w)
    ensures AliveCount(Folding(wants + [w], [])) == AliveCount(Folding(wants, [])) + CountOf(w)
  {
    AlivePrefix(wants, wants + [w], |wants|);
  }

  lemma {:induction false} AlivePrefix(a: seq<Want>, b: seq<Want>, n: nat)
    requires n <= |a| && a <= b
    ensures AliveBag(Folding(a, []), n, SourcesOf) == AliveBag(Folding(b, []), n, SourcesOf)
    ensures AliveSum(Folding(a, []), n, CountOf) == AliveSum(Folding(b, []), n, CountOf)
  {
    if n > 0 {
      AlivePrefix(a, b, n - 1);
    }
  }

  lemma {:induction false} InsertConserves(sorted: seq<Want>, w: Want)
    ensures AliveSources(Folding(InsertWant(sorted, w), [])) == AliveSources(Folding(sorted, [])) + SourcesOf(w)
    ensures AliveCount(Folding(InsertWant(sorted, w), [])) == AliveCount(Folding(sorted, [])) + CountOf(w)
  {
    if sorted == [] || |sorted[|sorted| - 1].wantedKeys| <= |w.wantedKeys| {
      AliveAppend(sorted, w);
    } else {
      var short, last := sorted[..|sorted| - 1], sorted[|sorted| - 1];
      InsertConserves(short, w);
      AliveAppend(short, last);
      assert sorted == short + [last];
      AliveAppend(InsertWant(short, w), last);
    }
  }

  /** The same shapes and the same counts. */
  ghost predicate Conserved(a: seq<Want>, b: seq<Want>) {
    && AliveSources(Folding(a, [])) == AliveSources(Folding(b, []))
    && AliveCount(Folding(a, [])) == AliveCount(Folding(b, []))
  }

  lemma {:induction false} InsertedConserved(a: seq<Want>, b: seq<Want>, w: Want)
    requires Conserved(a, b)
    ensures Conserved(InsertWant(a, w), b + [w])
  {
    InsertConserves(a, w);
    AliveAppend(b, w);
  }

  /** Sorting neither loses nor repeats a want. */
  lemma {:induction false} SortConserves(wants: seq<Want>)
    ensures Conserved(SortWants(wants), wants)
  {
    if wants != [] {
      var short, last := wants[..|wants| - 1], wants[|wants| - 1];
      SortConserves(short);
      InsertedConserved(SortWants(short), short, last);
      assert short + [last] == wants;
    }
  }

  // --- Attribution -------------------------------------------------------------

  /** A want's shapes exist, the first is its own, and it scans exactly when one of them
      does. */
  predicate Attributed(shapes: seq<QueryShape>, w: Want) {
    && w.sources != []
    && (forall p :: 0 <= p < |w.sources| ==> w.sources[p] < |shapes|)
    && shapes[w.sources[0]] == w.shape
    && (w.scanning <==> exists p :: 0 <= p < |w.sources| && shapes[w.sources[p]].collscan)
  }

  lemma {:induction false} FoldAttributes(shapes: seq<QueryShape>, wide: Want, narrow: Want)
    requires Attributed(shapes, wide) && Attributed(shapes, narrow)
    ensures Attributed(shapes, FoldInto(wide, narrow))
  {
    var out := FoldInto(wide, narrow);
    var a, b := wide.sources, narrow.sources;
    assert out.sources == a + b;
    if wide.scanning {
      var p :| 0 <= p < |a| && shapes[a[p]].collscan;
      assert shapes[out.sources[p]].collscan;
    }
    if narrow.scanning {
      var p :| 0 <= p < |b| && shapes[b[p]].collscan;
      assert shapes[out.sources[|a| + p]].collscan;
    }
    if p :| 0 <= p < |out.sources| && shapes[out.sources[p]].collscan {
      assert p < |a| ==> shapes[a[p]].collscan;
      assert p >= |a| ==> shapes[b[p - |a|]].collscan;
    }
  }

  predicate AllAttributed(shapes: seq<QueryShape>, wants: seq<Want>) {
    forall k :: 0 <= k < |wants| ==> Attributed(shapes, wants[k])
  }

  lemma {:induction false} TurnAttributes(shapes: seq<QueryShape>, st: Folding<Want>)
    requires |st.into| < |st.items| && AllAttributed(shapes, st.items)
    ensures AllAttributed(shapes, FoldStep(st, Absorbs, FoldInto).items)
  {
    var found := Widest(st.items, |st.into|, |st.items|, Absorbs);
    if found.Some? {
      FoldAttributes(shapes, st.items[found.value], st.items[|st.into|]);
    }
  }

  lemma {:induction false} ConsolidateAttributes(shapes: seq<QueryShape>, wants: seq<Want>, n: nat)
    requires n <= |wants| && AllAttributed(shapes, wants)
    ensures AllAttributed(shapes, Consolidate(wants, n).items)
  {
    if n > 0 {
      ConsolidateAttributes(shapes, wants, n - 1);
      TurnAttributes(shapes, Consolidate(wants, n - 1));
    }
  }
}
