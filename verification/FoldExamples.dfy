/** Two folds that do not keep their query on the index. */
module FoldExamples {
  import opened Engine
  import opened Esr
  import opened Leads
  import opened Wants
  import opened FoldLoop
  import opened Consolidation
  import opened FoldMeaning

  const EMPTY_SHAPE := QueryShape([], [], [], true, false, 0, None, [], map[])

  /** A want that binds `equality` and orders by `sort`. */
  function Asking(equality: seq<string>, sort: seq<SortKey>, p: nat): Want {
    Want(EMPTY_SHAPE, Ascending(equality) + sort, None, KeyBlocks(equality, sort, []), [], true, 0, 0, [p])
  }

  lemma {:induction false} AskingWellFormed(equality: seq<string>, sort: seq<SortKey>, p: nat)
    requires Distinct(equality + Fields(sort))
    ensures WellFormed(Asking(equality, sort, p))
  {
    var w := Asking(equality, sort, p);
    FieldsAppend(Ascending(equality), sort);
    assert Ascending([]) == [];
    assert w.wantedKeys == Ascending(equality) + sort + Ascending([]);
  }

  /** A want with nothing but equality fields. */
  predicate Plain(w: Want, equality: seq<string>, lead: seq<string>) {
    w.partialFilter.None? && w.blocks == KeyBlocks(equality, [], []) && w.lead == lead
  }

  lemma {:induction false} PlainAbsorbs(narrow: Want, wide: Want, e: seq<string>, inner: seq<string>, w: seq<string>,
                                        lead: seq<string>)
    requires Plain(narrow, e, inner) && Plain(wide, w, lead)
    ensures Absorbs(narrow, wide) <==> Within(e, w) && Within(lead, e)
  {
  }

  lemma {:induction false} PlainFold(wide: Want, narrow: Want, e: seq<string>, inner: seq<string>, w: seq<string>,
                                     lead: seq<string>)
    requires Plain(narrow, e, inner) && Plain(wide, w, lead) && Distinct(lead)
    ensures Plain(FoldInto(wide, narrow), w, AddNames(lead, inner + e))
  {
    assert Fields([]) == [];
    assert Brought(narrow, wide) == inner + e;
    DistinctStart(lead, inner + e);
  }

  /** One turn of the loop, given which want absorbs last. */
  lemma {:induction false} Turn(st: Folding<Want>, j: nat)
    requires |st.into| < j < |st.items|
    requires Absorbs(st.items[|st.into|], st.items[j])
    requires forall k :: j < k < |st.items| ==> !Absorbs(st.items[|st.into|], st.items[k])
    ensures FoldStep(st, Absorbs, FoldInto)
      == Folding(st.items[j := FoldInto(st.items[j], st.items[|st.into|])], st.into + [Some(j)])
  {
  }

  // --- Through an intermediate want --------------------------------------------

  /** {x}, {a}, {a, x}, {a, x, y}, narrowest first. */
  function Chain(a: string, x: string, y: string): seq<Want> {
    [Asking([x], [], 0), Asking([a], [], 1), Asking([a, x], [], 2), Asking([a, x, y], [], 3)]
  }

  lemma {:induction false} ChainWellFormed(a: string, x: string, y: string)
    requires a != x && a != y && x != y
    ensures AllWellFormed(Chain(a, x, y))
  {
    assert Fields([]) == [];
    AskingWellFormed([x], [], 0);
    AskingWellFormed([a], [], 1);
    AskingWellFormed([a, x], [], 2);
    AskingWellFormed([a, x, y], [], 3);
  }

  /** {x} folds into the widest want. */
  lemma {:induction false} ChainTurn1(a: string, x: string, y: string)
    requires a != x && a != y && x != y
    ensures
      var ws, st := Chain(a, x, y), Consolidate(Chain(a, x, y), 1);
      && st.into == [Some(3)] && st.items == ws[3 := FoldInto(ws[3], ws[0])]
      && Plain(st.items[3], [a, x, y], [x])
  {
    var ws := Chain(a, x, y);
    PlainAbsorbs(ws[0], ws[3], [x], [], [a, x, y], []);
    assert Within([x], [a, x, y]);
    Turn(Folding(ws, []), 3);
    assert Run(ws, 0, Absorbs, FoldInto) == Folding(ws, []);
    assert Consolidate(ws, 1) == FoldStep(Run(ws, 0, Absorbs, FoldInto), Absorbs, FoldInto);
    PlainFold(ws[3], ws[0], [x], [], [a, x, y], []);
    AddFreshNames([], [x]);
    assert [] + [x] == [x];
  }

  lemma {:induction false} NextTakesA(st: Folding<Want>, a: string, x: string, y: string)
    requires a != x && |st.items| == 4
    requires Plain(st.items[1], [a], []) && Plain(st.items[2], [a, x], []) && Plain(st.items[3], [a, x, y], [x])
    ensures Absorbs(st.items[1], st.items[2]) && !Absorbs(st.items[1], st.items[3])
  {
    PlainAbsorbs(st.items[1], st.items[3], [a], [], [a, x, y], [x]);
    assert [x][0] !in [a];
    PlainAbsorbs(st.items[1], st.items[2], [a], [], [a, x], []);
    assert Within([a], [a, x]);
  }

  /** {a} cannot follow it there, so it folds into {a, x}. */
  lemma {:induction false} ChainTurn2(a: string, x: string, y: string)
    requires a != x && a != y && x != y
    ensures
      var st := Consolidate(Chain(a, x, y), 2);
      && st.into == [Some(3), Some(2)]
      && Plain(st.items[2], [a, x], [a]) && Plain(st.items[3], [a, x, y], [x])
  {
    ChainTurn1(a, x, y);
    var st := Consolidate(Chain(a, x, y), 1);
    var narrow := st.items[1];
    NextTakesA(st, a, x, y);
    Turn(st, 2);
    assert Consolidate(Chain(a, x, y), 2) == FoldStep(st, Absorbs, FoldInto);
    PlainFold(st.items[2], narrow, [a], [], [a, x], []);
    AddFreshNames([], [a]);
    assert [] + [a] == [a];
  }

  /** {a, x} folds into the widest want, behind the x already leading it. */
  lemma {:induction false} ChainTurn3(a: string, x: string, y: string)
    requires a != x && a != y && x != y
    ensures Consolidate(Chain(a, x, y), 3).into == [Some(3), Some(2), Some(3)]
  {
    ChainTurn2(a, x, y);
    var st := Consolidate(Chain(a, x, y), 2);
    PlainAbsorbs(st.items[2], st.items[3], [a, x], [a], [a, x, y], [x]);
    assert Within([a, x], [a, x, y]) && Within([x], [a, x]);
    Turn(st, 3);
    assert Consolidate(Chain(a, x, y), 3) == FoldStep(st, Absorbs, FoldInto);
  }

  /** Decisions stand to the end of the loop. */
  lemma {:induction false} Stands(wants: seq<Want>, n: nat)
    requires AllWellFormed(wants) && n <= |wants|
    ensures Consolidate(wants, n).into <= Final(wants).into
  {
    if wants != [] {
      FoldingIsLawful();
      RunGrows(wants, n, |wants|, 0, Absorbs, FoldInto, WellFormed, Grown);
    }
  }

  /** "Every folded want leads the survivor" is false of folds through an intermediate
      want: the query on {a} is scattered over the surviving index. */
  lemma {:induction false} IndirectFoldFails(a: string, x: string, y: string)
    requires a != x && a != y && x != y
    ensures
      var ws := Chain(a, x, y);
      && Final(ws).into[1] == Some(2) && Final(ws).into[2] == Some(3)
      && !AlwaysContiguous(LeadWith(Final(ws).items[3]), [a])
  {
    var ws := Chain(a, x, y);
    ChainWellFormed(a, x, y);
    ChainTurn3(a, x, y);
    Stands(ws, 3);
    assert Final(ws).into[1] == Some(2) && Final(ws).into[2] == Some(3);
    ChainTurn2(a, x, y);
    Scatter(ws, a, x);
  }

  lemma {:induction false} Scatter(ws: seq<Want>, a: string, x: string)
    requires AllWellFormed(ws) && |ws| == 4 && a != x && Within([a], ws[1].blocks.equality)
    requires Final(ws).into[1] == Some(2) && Final(ws).into[2] == Some(3)
    requires Consolidate(ws, 2).items[3].lead == [x]
    ensures !AlwaysContiguous(LeadWith(Final(ws).items[3]), [a])
  {
    ChainFoldExactly(ws, 1, [a]);
    var into := Final(ws).into;
    assert into[3].None?;
    assert Survivor(into, 2) == 3 && LastHop(into, 2) == 2;
    assert Survivor(into, 1) == 3 && LastHop(into, 1) == 2;
    assert [x][0] !in [a];
  }

  // --- A sort behind a lead ----------------------------------------------------

  /** {s}, {a} ordered by s, {a, s, b}. */
  function Behind(a: string, s: string, b: string): seq<Want> {
    [Asking([s], [], 0), Asking([a], [Key(s, Asc)], 1), Asking([a, s, b], [], 2)]
  }

  lemma {:induction false} BehindWellFormed(a: string, s: string, b: string)
    requires a != s && a != b && s != b
    ensures AllWellFormed(Behind(a, s, b))
  {
    assert Fields([]) == [];
    assert Fields([Key(s, Asc)]) == [s];
    AskingWellFormed([s], [], 0);
    AskingWellFormed([a], [Key(s, Asc)], 1);
    AskingWellFormed([a, s, b], [], 2);
  }

  lemma {:induction false} BehindTurn1(a: string, s: string, b: string)
    requires a != s && a != b && s != b
    ensures
      var ws, st := Behind(a, s, b), Consolidate(Behind(a, s, b), 1);
      && st.into == [Some(2)] && st.items == ws[2 := FoldInto(ws[2], ws[0])]
      && Plain(st.items[2], [a, s, b], [s])
  {
    var ws := Behind(a, s, b);
    PlainAbsorbs(ws[0], ws[2], [s], [], [a, s, b], []);
    assert Within([s], [a, s, b]);
    Turn(Folding(ws, []), 2);
    assert Run(ws, 0, Absorbs, FoldInto) == Folding(ws, []);
    assert Consolidate(ws, 1) == FoldStep(Run(ws, 0, Absorbs, FoldInto), Absorbs, FoldInto);
    PlainFold(ws[2], ws[0], [s], [], [a, s, b], []);
    AddFreshNames([], [s]);
    assert [] + [s] == [s];
  }

  lemma {:induction false} BehindTurn2(a: string, s: string, b: string)
    requires a != s && a != b && s != b
    ensures Consolidate(Behind(a, s, b), 2).into == [Some(2), Some(2)]
    ensures SortFromEquality(Behind(a, s, b)[1].blocks, Behind(a, s, b)[2].blocks)
  {
    BehindTurn1(a, s, b);
    var st := Consolidate(Behind(a, s, b), 1);
    var n, w := st.items[1].blocks, st.items[2].blocks;
    assert Fields(n.sort) == [s];
    assert Within([s], [a, s, b]) && Within([a], [a, s, b]);
    assert Absorbs(st.items[1], st.items[2]);
    Turn(st, 2);
    assert Consolidate(Behind(a, s, b), 2) == FoldStep(st, Absorbs, FoldInto);
  }

  /** A direct fold whose sort is served from equality can still lose its query: the
      final keys begin with the sort field, not with the field the query binds. */
  lemma {:induction false} SortedFoldFails(a: string, s: string, b: string)
    requires a != s && a != b && s != b
    ensures
      var ws := Behind(a, s, b);
      && Final(ws).into[1] == Some(2)
      && !LeadingThenSort([a], [s], Fields(LeadWith(Final(ws).items[2])))
      && !AlwaysContiguous(LeadWith(Final(ws).items[2]), [a])
  {
    var ws := Behind(a, s, b);
    BehindWellFormed(a, s, b);
    BehindTurn1(a, s, b);
    BehindTurn2(a, s, b);
    Stands(ws, 2);
    assert Final(ws).into[1] == Some(2);
    assert Fields(ws[1].blocks.sort) == [s];
    SortedFoldLeads(ws, 1, 2);
    assert [s][0] !in [a];
    var narrow, wide, final := Meeting(ws, 1, 2);
    FoldKeeps(wide, narrow);
    assert final.lead[0] == s;
    ScatterBehind(final, a, s);
  }

  lemma {:induction false} ScatterBehind(final: Want, a: string, s: string)
    requires WellFormed(final) && final.lead != [] && final.lead[0] == s && a != s
    ensures !AlwaysContiguous(LeadWith(final), [a])
  {
    LeadWithPermutes(final);
    var fields := Fields(LeadWith(final));
    assert fields[..|final.lead|][0] == s;
    assert fields[..1][0] !in [a];
    FinalDistinct(final);
    ContiguousExactly(LeadWith(final), [a]);
  }
}
