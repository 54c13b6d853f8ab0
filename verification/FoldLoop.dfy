/** The shape of the consolidation loop, free of what is being folded: each item in turn
    is folded into the last later item that absorbs it, or survives. */
module FoldLoop {
  import opened Engine

  /** The items so far, and what each of the first `|into|` was folded into. */
  datatype Folding<W> = Folding(items: seq<W>, into: seq<Option<nat>>)

  /** The last item before `end` that absorbs item `i`. */
  function Widest<W>(items: seq<W>, i: nat, end: nat, absorbs: (W, W) -> bool): (found: Option<nat>)
    requires i < |items| && end <= |items|
    ensures found.Some? ==> i < found.value < end && absorbs(items[i], items[found.value])
    ensures forall j :: (if found.Some? then found.value else i) < j < end ==> !absorbs(items[i], items[j])
  {
    if end <= i + 1 then None
    else if absorbs(items[i], items[end - 1]) then Some(end - 1)
    else Widest(items, i, end - 1, absorbs)
  }

  function FoldStep<W>(st: Folding<W>, absorbs: (W, W) -> bool, fold: (W, W) -> W): Folding<W>
    requires |st.into| < |st.items|
  {
    var i := |st.into|;
    match Widest(st.items, i, |st.items|, absorbs)
    case None => Folding(st.items, st.into + [None])
    case Some(j) => Folding(st.items[j := fold(st.items[j], st.items[i])], st.into + [Some(j)])
  }

  function Run<W>(items: seq<W>, n: nat, absorbs: (W, W) -> bool, fold: (W, W) -> W): (st: Folding<W>)
    requires n <= |items|
    ensures |st.items| == |items| && |st.into| == n
  {
    if n == 0 then Folding(items, []) else FoldStep(Run(items, n - 1, absorbs, fold), absorbs, fold)
  }

  method WidestLoop<W>(items: seq<W>, index: nat, absorbs: (W, W) -> bool) returns (widest: Option<nat>)
    requires index < |items|
    ensures widest == Widest(items, index, |items|, absorbs)
  {
    widest := None;
    for at := index + 1 to |items|
      invariant widest == Widest(items, index, at, absorbs)
    {
      if absorbs(items[index], items[at]) {
        widest := Some(at);
      }
    }
  }

  /** The loop itself, every item replaced at its place. */
  method Loop<W>(start: seq<W>, absorbs: (W, W) -> bool, fold: (W, W) -> W)
    returns (items: seq<W>, into: seq<Option<nat>>)
    ensures Folding(items, into) == Run(start, |start|, absorbs, fold)
  {
    items, into := start, [];
    for index := 0 to |start|
      invariant Folding(items, into) == Run(start, index, absorbs, fold)
    {
      var widest := WidestLoop(items, index, absorbs);
      match widest {
        case Some(j) =>
          items := items[j := fold(items[j], items[index])];
          into := into + [Some(j)];
        case None =>
          into := into + [None];
      }
    }
  }

  // --- What every run keeps ----------------------------------------------------

  ghost predicate AllOk<W>(items: seq<W>, ok: W -> bool) {
    forall i :: 0 <= i < |items| ==> ok(items[i])
  }

  /** Folding keeps `ok` and moves the receiver up in `grows`, a preorder along which an
      item can only absorb less. */
  ghost predicate Lawful<W(!new)>(absorbs: (W, W) -> bool, fold: (W, W) -> W, ok: W -> bool, grows: (W, W) -> bool) {
    && (forall a, b {:trigger fold(b, a)} :: ok(a) && ok(b) && absorbs(a, b) ==> ok(fold(b, a)) && grows(b, fold(b, a)))
    && (forall a :: grows(a, a))
    && (forall a, b, c :: grows(a, b) && grows(b, c) ==> grows(a, c))
    && (forall a, b, c {:trigger grows(b, c), absorbs(a, c)} :: grows(b, c) && absorbs(a, c) ==> absorbs(a, b))
  }

  lemma {:induction false} RunKeeps<W(!new)>(items: seq<W>, n: nat, absorbs: (W, W) -> bool, fold: (W, W) -> W,
                                             ok: W -> bool, grows: (W, W) -> bool)
    requires Lawful(absorbs, fold, ok, grows) && AllOk(items, ok) && n <= |items|
    ensures AllOk(Run(items, n, absorbs, fold).items, ok)
    ensures forall k :: 0 <= k < n && Run(items, n, absorbs, fold).into[k].Some? ==>
      k < Run(items, n, absorbs, fold).into[k].value < |items|
  {
    if n > 0 {
      RunKeeps(items, n - 1, absorbs, fold, ok, grows);
    }
  }

  lemma {:induction false} StepGrows<W(!new)>(st: Folding<W>, j: nat, absorbs: (W, W) -> bool,
                                              fold: (W, W) -> W, ok: W -> bool, grows: (W, W) -> bool)
    requires Lawful(absorbs, fold, ok, grows) && AllOk(st.items, ok) && |st.into| < |st.items| && j < |st.items|
    ensures st.into <= FoldStep(st, absorbs, fold).into
    ensures grows(st.items[j], FoldStep(st, absorbs, fold).items[j])
    ensures j <= |st.into| ==> st.items[j] == FoldStep(st, absorbs, fold).items[j]
  {
  }

  lemma {:induction false} GrowsFurther<W(!new)>(a: W, b: W, c: W, absorbs: (W, W) -> bool, fold: (W, W) -> W,
                                                 ok: W -> bool, grows: (W, W) -> bool)
    requires Lawful(absorbs, fold, ok, grows) && grows(a, b) && grows(b, c)
    ensures grows(a, c)
  {
  }

  lemma {:induction false} AbsorbsLess<W(!new)>(a: W, b: W, c: W, absorbs: (W, W) -> bool, fold: (W, W) -> W,
                                                ok: W -> bool, grows: (W, W) -> bool)
    requires Lawful(absorbs, fold, ok, grows) && grows(b, c) && !absorbs(a, b)
    ensures !absorbs(a, c)
  {
  }

  /** Items only grow; one whose turn has come no longer changes; decisions stand. */
  lemma {:induction false} RunGrows<W(!new)>(items: seq<W>, m: nat, n: nat, j: nat, absorbs: (W, W) -> bool,
                                             fold: (W, W) -> W, ok: W -> bool, grows: (W, W) -> bool)
    requires Lawful(absorbs, fold, ok, grows) && AllOk(items, ok) && m <= n <= |items| && j < |items|
    ensures Run(items, m, absorbs, fold).into <= Run(items, n, absorbs, fold).into
    ensures grows(Run(items, m, absorbs, fold).items[j], Run(items, n, absorbs, fold).items[j])
    ensures j <= m ==> Run(items, m, absorbs, fold).items[j] == Run(items, n, absorbs, fold).items[j]
    decreases n
  {
    if m < n {
      RunGrows(items, m, n - 1, j, absorbs, fold, ok, grows);
      RunKeeps(items, n - 1, absorbs, fold, ok, grows);
      var first, st := Run(items, m, absorbs, fold), Run(items, n - 1, absorbs, fold);
      StepGrows(st, j, absorbs, fold, ok, grows);
      assert Run(items, n, absorbs, fold) == FoldStep(st, absorbs, fold);
      GrowsFurther(first.items[j], st.items[j], FoldStep(st, absorbs, fold).items[j], absorbs, fold, ok, grows);
    }
  }

  /** The moment item `i` was folded into item `j`. */
  lemma {:induction false} FoldMoment<W(!new)>(items: seq<W>, i: nat, j: nat, absorbs: (W, W) -> bool,
                                               fold: (W, W) -> W, ok: W -> bool, grows: (W, W) -> bool)
    requires Lawful(absorbs, fold, ok, grows) && AllOk(items, ok) && i < |items|
    requires Run(items, |items|, absorbs, fold).into[i] == Some(j)
    ensures i < j < |items|
    ensures
      var met, final := Run(items, i, absorbs, fold).items, Run(items, |items|, absorbs, fold).items;
      && absorbs(met[i], met[j])
      && ok(met[i]) && ok(met[j]) && ok(final[j])
      && grows(items[i], met[i]) && grows(items[j], met[j])
      && grows(fold(met[j], met[i]), final[j])
  {
    RunKeeps(items, i, absorbs, fold, ok, grows);
    RunKeeps(items, |items|, absorbs, fold, ok, grows);
    RunGrows(items, 0, i, i, absorbs, fold, ok, grows);
    RunGrows(items, i + 1, |items|, j, absorbs, fold, ok, grows);
    assert Run(items, i + 1, absorbs, fold).into[i] == Some(j);
    RunGrows(items, 0, i, j, absorbs, fold, ok, grows);
  }

  /** A survivor was absorbed by no later item when its turn came. */
  lemma {:induction false} SurvivorsTurn<W(!new)>(items: seq<W>, i: nat, j: nat, absorbs: (W, W) -> bool,
                                                  fold: (W, W) -> W, ok: W -> bool, grows: (W, W) -> bool)
    requires Lawful(absorbs, fold, ok, grows) && AllOk(items, ok) && i < j < |items|
    requires Run(items, |items|, absorbs, fold).into[i].None?
    ensures !absorbs(Run(items, i, absorbs, fold).items[i], Run(items, i, absorbs, fold).items[j])
  {
    RunGrows(items, i + 1, |items|, j, absorbs, fold, ok, grows);
    assert Run(items, i + 1, absorbs, fold).into[i].None?;
  }

  lemma {:induction false} RunUntouched<W(!new)>(items: seq<W>, i: nat, absorbs: (W, W) -> bool,
                                                 fold: (W, W) -> W, ok: W -> bool, grows: (W, W) -> bool)
    requires Lawful(absorbs, fold, ok, grows) && AllOk(items, ok) && i < |items|
    ensures Run(items, i, absorbs, fold).items[i] == Run(items, |items|, absorbs, fold).items[i]
  {
    RunGrows(items, i, |items|, i, absorbs, fold, ok, grows);
  }

  /** An item that survived is absorbed by no later item, as things finally stand. */
  lemma {:induction false} Irreducible<W(!new)>(items: seq<W>, i: nat, j: nat, absorbs: (W, W) -> bool,
                                                fold: (W, W) -> W, ok: W -> bool, grows: (W, W) -> bool)
    requires Lawful(absorbs, fold, ok, grows) && AllOk(items, ok) && i < j < |items|
    requires Run(items, |items|, absorbs, fold).into[i].None?
    ensures !absorbs(Run(items, |items|, absorbs, fold).items[i], Run(items, |items|, absorbs, fold).items[j])
  {
    SurvivorsTurn(items, i, j, absorbs, fold, ok, grows);
    RunUntouched(items, i, absorbs, fold, ok, grows);
    RunGrows(items, i, |items|, j, absorbs, fold, ok, grows);
    AbsorbsLess(Run(items, i, absorbs, fold).items[i], Run(items, i, absorbs, fold).items[j],
                Run(items, |items|, absorbs, fold).items[j], absorbs, fold, ok, grows);
  }

  // --- Conservation ------------------------------------------------------------

  predicate Alive(into: seq<Option<nat>>, k: nat) {
    k >= |into| || into[k].None?
  }

  /** What the first `n` items that are not folded away carry together. */
  ghost function AliveBag<W>(st: Folding<W>, n: nat, bag: W -> multiset<nat>): multiset<nat>
    requires n <= |st.items|
  {
    if n == 0 then multiset{}
    else AliveBag(st, n - 1, bag) + if Alive(st.into, n - 1) then bag(st.items[n - 1]) else multiset{}
  }

  ghost function AliveSum<W>(st: Folding<W>, n: nat, weight: W -> nat): nat
    requires n <= |st.items|
  {
    if n == 0 then 0
    else AliveSum(st, n - 1, weight) + if Alive(st.into, n - 1) then weight(st.items[n - 1]) else 0
  }

  lemma {:induction false} StepBag<W(!new)>(st: Folding<W>, n: nat, absorbs: (W, W) -> bool, fold: (W, W) -> W,
                                            bag: W -> multiset<nat>)
    requires |st.into| < |st.items| && n <= |st.items|
    requires forall a, b :: bag(fold(b, a)) == bag(b) + bag(a)
    ensures
      var i := |st.into|;
      var found := Widest(st.items, i, |st.items|, absorbs);
      var owed := if found.Some? && i < n <= found.value then bag(st.items[i]) else multiset{};
      AliveBag(FoldStep(st, absorbs, fold), n, bag) + owed == AliveBag(st, n, bag)
  {
    if n > 0 {
      StepBag(st, n - 1, absorbs, fold, bag);
    }
  }

  lemma {:induction false} StepSum<W(!new)>(st: Folding<W>, n: nat, absorbs: (W, W) -> bool, fold: (W, W) -> W,
                                            weight: W -> nat)
    requires |st.into| < |st.items| && n <= |st.items|
    requires forall a, b :: weight(fold(b, a)) == weight(b) + weight(a)
    ensures
      var i := |st.into|;
      var found := Widest(st.items, i, |st.items|, absorbs);
      var owed := if found.Some? && i < n <= found.value then weight(st.items[i]) else 0;
      AliveSum(FoldStep(st, absorbs, fold), n, weight) + owed == AliveSum(st, n, weight)
  {
    if n > 0 {
      StepSum(st, n - 1, absorbs, fold, weight);
    }
  }

  /** What folding moves from one item to another is neither lost nor repeated. */
  lemma {:induction false} RunConserves<W(!new)>(items: seq<W>, n: nat, absorbs: (W, W) -> bool,
                                                 fold: (W, W) -> W, bag: W -> multiset<nat>, weight: W -> nat)
    requires n <= |items|
    requires forall a, b :: bag(fold(b, a)) == bag(b) + bag(a)
    requires forall a, b :: weight(fold(b, a)) == weight(b) + weight(a)
    ensures AliveBag(Run(items, n, absorbs, fold), |items|, bag) == AliveBag(Folding(items, []), |items|, bag)
    ensures AliveSum(Run(items, n, absorbs, fold), |items|, weight) == AliveSum(Folding(items, []), |items|, weight)
  {
    if n > 0 {
      RunConserves(items, n - 1, absorbs, fold, bag, weight);
      StepBag(Run(items, n - 1, absorbs, fold), |items|, absorbs, fold, bag);
      StepSum(Run(items, n - 1, absorbs, fold), |items|, absorbs, fold, weight);
    }
  }

  /** Giving one item more adds exactly that much. */
  lemma {:induction false} BagUpdate<W>(items: seq<W>, at: nat, item: W, n: nat, bag: W -> multiset<nat>,
                                        extra: multiset<nat>)
    requires at < |items| && n <= |items| && bag(item) == bag(items[at]) + extra
    ensures AliveBag(Folding(items[at := item], []), n, bag)
      == AliveBag(Folding(items, []), n, bag) + if at < n then extra else multiset{}
  {
    if n > 0 {
      BagUpdate(items, at, item, n - 1, bag, extra);
    }
  }
}
