/** From observed shapes to wanted indexes: the gates each shape passes, shapes that
    want the same index joining one want (the first loop of recommendCreates,
    apps/api/src/analysis/workload.ts). */
module Collection {
  import opened Engine
  import opened Esr
  import opened Serving
  import opened Wants
  import opened FoldLoop
  import opened Consolidation

  datatype Reason = NotRecurring | AdHocClient | IndexExists | NoCandidate

  /** `shape` is a position in the list of shapes. */
  datatype Decline = Decline(shape: nat, reason: Reason)

  datatype CreateOptions = CreateOptions(workload: WorkloadOptions, partialIndexes: bool)

  predicate IsWorthIndexing(clients: seq<ClientKind>) {
    clients == [] || exists i :: 0 <= i < |clients| && !clients[i].Interactive?
  }

  /** A shape the planner is working too hard to serve. */
  predicate IsFinding(shape: QueryShape) {
    shape.collscan || shape.sortedInMemory
  }

  datatype Appraisal = Unremarkable | Refused(reason: Reason) | Wanted(keys: seq<SortKey>, filter: Option<Filter>)

  function ConstantFields(shape: QueryShape): set<string> {
    set f | f in shape.constants.Keys && f in shape.equality
  }

  function Appraise(shape: QueryShape, options: CreateOptions): Appraisal {
    if !IsFinding(shape) then Unremarkable
    else if !IsRecurring(shape, options.workload) then Refused(NotRecurring)
    else if !IsWorthIndexing(shape.clients) then Refused(AdHocClient)
    else
      var keys, constant := EsrKeys(shape), ConstantFields(shape);
      if keys == [] then Refused(NoCandidate)
      else if options.partialIndexes && constant != {} && exists i :: 0 <= i < |keys| && keys[i].field !in constant then
        Wanted(Without(keys, constant), Some(map f | f in constant :: shape.constants[f]))
      else Wanted(keys, None)
  }

  lemma {:induction false} AppraiseLaid(shape: QueryShape, options: CreateOptions)
    requires Appraise(shape, options).Wanted?
    ensures Laid(Appraise(shape, options).keys, BlocksOf(shape, Appraise(shape, options).keys))
  {
    EsrLaid(shape);
    WithoutLaid(shape, ConstantFields(shape));
  }

  datatype Collected = Collected(wants: seq<Want>, declined: seq<Decline>)

  /** Where the want for exactly these keys is, if there is one. */
  function FindWant(wants: seq<Want>, keys: seq<SortKey>): (at: Option<nat>)
    ensures at.Some? ==> at.value < |wants| && wants[at.value].wantedKeys == keys
    ensures at.None? ==> forall i :: 0 <= i < |wants| ==> wants[i].wantedKeys != keys
  {
    if wants == [] then None
    else if wants[|wants| - 1].wantedKeys == keys then Some(|wants| - 1)
    else FindWant(wants[..|wants| - 1], keys)
  }

  function NewWant(shape: QueryShape, p: nat, keys: seq<SortKey>, filter: Option<Filter>): Want {
    Want(shape, keys, filter, BlocksOf(shape, keys), [], shape.collscan, 0, 0, [p])
  }

  /** A second shape wanting the same index. */
  function Join(w: Want, shape: QueryShape, p: nat): Want {
    w.(scanning := w.scanning || shape.collscan, sources := w.sources + [p])
  }

  predicate Served(existing: seq<IndexSpec>, shape: QueryShape, keys: seq<SortKey>, filter: Option<Filter>) {
    exists i :: 0 <= i < |existing| && ServesWant(existing[i], keys, BlocksOf(shape, keys), filter)
  }

  /** The gates a shape passes, and whether an index already serves what it wants, as
      the loop asks them. */
  type Judge = QueryShape -> Appraisal
  type Server = (QueryShape, seq<SortKey>, Option<Filter>) -> bool

  function JudgeBy(options: CreateOptions): Judge {
    shape => Appraise(shape, options)
  }

  function ServerOf(existing: seq<IndexSpec>): Server {
    (shape, keys, filter) => Served(existing, shape, keys, filter)
  }

  function Admit(st: Collected, shape: QueryShape, p: nat, server: Server, keys: seq<SortKey>, filter: Option<Filter>)
    : Collected
  {
    match FindWant(st.wants, keys)
    case Some(at) => Collected(st.wants[at := Join(st.wants[at], shape, p)], st.declined)
    case None =>
      if server(shape, keys, filter) then Collected(st.wants, st.declined + [Decline(p, IndexExists)])
      else Collected(st.wants + [NewWant(shape, p, keys, filter)], st.declined)
  }

  function CollectStep(st: Collected, shape: QueryShape, p: nat, judge: Judge, server: Server): Collected {
    match judge(shape)
    case Unremarkable => st
    case Refused(reason) => Collected(st.wants, st.declined + [Decline(p, reason)])
    case Wanted(keys, filter) => Admit(st, shape, p, server, keys, filter)
  }

  function CollectWith(shapes: seq<QueryShape>, n: nat, judge: Judge, server: Server): Collected
    requires n <= |shapes|
  {
    if n == 0 then Collected([], [])
    else CollectStep(CollectWith(shapes, n - 1, judge, server), shapes[n - 1], n - 1, judge, server)
  }

  function Collect(shapes: seq<QueryShape>, existing: seq<IndexSpec>, options: CreateOptions): Collected {
    CollectWith(shapes, |shapes|, JudgeBy(options), ServerOf(existing))
  }

  /** The loop, with its map from wanted keys to wants. */
  method CollectLoop(shapes: seq<QueryShape>, existing: seq<IndexSpec>, options: CreateOptions)
    returns (wants: seq<Want>, declined: seq<Decline>)
    ensures Collected(wants, declined) == Collect(shapes, existing, options)
  {
    wants, declined := CollectEach(shapes, JudgeBy(options), ServerOf(existing));
  }

  method CollectEach(shapes: seq<QueryShape>, judge: Judge, server: Server)
    returns (wants: seq<Want>, declined: seq<Decline>)
    ensures Collected(wants, declined) == CollectWith(shapes, |shapes|, judge, server)
  {
    wants, declined := [], [];
    var seen: map<seq<SortKey>, nat> := map[];
    for p := 0 to |shapes|
      invariant Collected(wants, declined) == CollectWith(shapes, p, judge, server)
      invariant forall keys :: keys in seen <==> FindWant(wants, keys).Some?
      invariant forall keys :: keys in seen ==> FindWant(wants, keys) == Some(seen[keys])
    {
      match judge(shapes[p]) {
        case Unremarkable =>
        case Refused(reason) =>
          declined := declined + [Decline(p, reason)];
        case Wanted(keys, filter) =>
          if keys in seen {
            JoinFinds(wants, seen[keys], shapes[p], p);
            wants := wants[seen[keys] := Join(wants[seen[keys]], shapes[p], p)];
          } else if server(shapes[p], keys, filter) {
            declined := declined + [Decline(p, IndexExists)];
          } else {
            AppendFinds(wants, NewWant(shapes[p], p, keys, filter));
            seen := seen[keys := |wants|];
            wants := wants + [NewWant(shapes[p], p, keys, filter)];
          }
      }
    }
  }

  lemma {:induction false} AppendFinds(wants: seq<Want>, w: Want)
    ensures forall keys ::
      FindWant(wants + [w], keys) == if keys == w.wantedKeys then Some(|wants|) else FindWant(wants, keys)
  {
    assert (wants + [w])[..|wants|] == wants;
  }

  lemma {:induction false} JoinFinds(wants: seq<Want>, at: nat, shape: QueryShape, p: nat)
    requires at < |wants|
    ensures forall keys :: FindWant(wants[at := Join(wants[at], shape, p)], keys) == FindWant(wants, keys)
  {
    forall keys ensures FindWant(wants[at := Join(wants[at], shape, p)], keys) == FindWant(wants, keys) {
      SameKeysFind(wants, wants[at := Join(wants[at], shape, p)], keys);
    }
  }

  lemma {:induction false} SameKeysFind(a: seq<Want>, b: seq<Want>, keys: seq<SortKey>)
    requires |a| == |b| && forall i :: 0 <= i < |a| ==> a[i].wantedKeys == b[i].wantedKeys
    ensures FindWant(a, keys) == FindWant(b, keys)
  {
    if a != [] {
      SameKeysFind(a[..|a| - 1], b[..|b| - 1], keys);
    }
  }

  // --- What collecting keeps ---------------------------------------------------

  predicate InShapeOrder(wants: seq<Want>, n: nat) {
    && Primaried(wants)
    && (forall i :: 0 <= i < |wants| ==> wants[i].sources[0] < n)
    && (forall i, j :: 0 <= i < j < |wants| ==> wants[i].sources[0] < wants[j].sources[0])
  }

  /** Wants stand in the order of the shapes they are named for. */
  lemma {:induction false} CollectOrdered(shapes: seq<QueryShape>, n: nat, judge: Judge, server: Server)
    requires n <= |shapes|
    ensures InShapeOrder(CollectWith(shapes, n, judge, server).wants, n)
  {
    if n > 0 {
      CollectOrdered(shapes, n - 1, judge, server);
    }
  }

  ghost predicate AllGood(wants: seq<Want>, good: Want -> bool) {
    forall i :: 0 <= i < |wants| ==> good(wants[i])
  }

  /** What new wants have and joining keeps, every collected want has. */
  lemma {:induction false} CollectGood(shapes: seq<QueryShape>, n: nat, judge: Judge, server: Server,
                                       good: Want -> bool)
    requires n <= |shapes|
    requires forall p :: 0 <= p < |shapes| && judge(shapes[p]).Wanted? ==>
      good(NewWant(shapes[p], p, judge(shapes[p]).keys, judge(shapes[p]).filter))
    requires forall p, w :: 0 <= p < |shapes| && good(w) ==> good(Join(w, shapes[p], p))
    ensures AllGood(CollectWith(shapes, n, judge, server).wants, good)
  {
    if n > 0 {
      CollectGood(shapes, n - 1, judge, server, good);
      StepGood(CollectWith(shapes, n - 1, judge, server), shapes, n - 1, judge, server, good);
    }
  }

  lemma {:induction false} StepGood(st: Collected, shapes: seq<QueryShape>, p: nat, judge: Judge, server: Server,
                                    good: Want -> bool)
    requires p < |shapes| && AllGood(st.wants, good)
    requires judge(shapes[p]).Wanted? ==>
      good(NewWant(shapes[p], p, judge(shapes[p]).keys, judge(shapes[p]).filter))
    requires forall w :: good(w) ==> good(Join(w, shapes[p], p))
    ensures AllGood(CollectStep(st, shapes[p], p, judge, server).wants, good)
  {
  }

  /** A collected want is well formed, untouched by folding, credited to its shapes, and
      is what its own shape asked for. */
  predicate Genuine(shapes: seq<QueryShape>, options: CreateOptions, w: Want) {
    && WellFormed(w) && w.lead == [] && w.absorbedCount == 0
    && Attributed(shapes, w)
    && Appraise(w.shape, options) == Wanted(w.wantedKeys, w.partialFilter)
    && w.blocks == BlocksOf(w.shape, w.wantedKeys)
  }

  lemma {:induction false} NewIsGenuine(shapes: seq<QueryShape>, p: nat, options: CreateOptions)
    requires p < |shapes| && Appraise(shapes[p], options).Wanted?
    ensures
      var wanted := Appraise(shapes[p], options);
      Genuine(shapes, options, NewWant(shapes[p], p, wanted.keys, wanted.filter))
  {
    AppraiseLaid(shapes[p], options);
    var wanted := Appraise(shapes[p], options);
    var w := NewWant(shapes[p], p, wanted.keys, wanted.filter);
    assert w.sources[0] == p;
  }

  lemma {:induction false} JoinIsGenuine(shapes: seq<QueryShape>, options: CreateOptions, w: Want, p: nat)
    requires p < |shapes| && Genuine(shapes, options, w)
    ensures Genuine(shapes, options, Join(w, shapes[p], p))
  {
    JoinAttributed(shapes, w, p);
  }

  lemma {:induction false} JoinAttributed(shapes: seq<QueryShape>, w: Want, p: nat)
    requires p < |shapes| && Attributed(shapes, w)
    ensures Attributed(shapes, Join(w, shapes[p], p))
  {
    var out := Join(w, shapes[p], p);
    assert out.sources == w.sources + [p];
    if w.scanning {
      var q :| 0 <= q < |w.sources| && shapes[w.sources[q]].collscan;
      assert shapes[out.sources[q]].collscan;
    }
    if shapes[p].collscan {
      assert shapes[out.sources[|w.sources|]].collscan;
    }
    if q :| 0 <= q < |out.sources| && shapes[out.sources[q]].collscan {
      assert q < |w.sources| ==> shapes[w.sources[q]].collscan;
    }
  }

  lemma {:induction false} CollectGenuine(shapes: seq<QueryShape>, existing: seq<IndexSpec>, options: CreateOptions)
    ensures forall i :: 0 <= i < |Collect(shapes, existing, options).wants| ==>
      Genuine(shapes, options, Collect(shapes, existing, options).wants[i])
  {
    var judge, server := JudgeBy(options), ServerOf(existing);
    var good: Want -> bool := w => Genuine(shapes, options, w);
    forall p | 0 <= p < |shapes| && judge(shapes[p]).Wanted?
      ensures good(NewWant(shapes[p], p, judge(shapes[p]).keys, judge(shapes[p]).filter))
    {
      NewIsGenuine(shapes, p, options);
    }
    forall p, w | 0 <= p < |shapes| && good(w) ensures good(Join(w, shapes[p], p)) {
      JoinIsGenuine(shapes, options, w, p);
    }
    CollectGood(shapes, |shapes|, judge, server, good);
    forall i | 0 <= i < |Collect(shapes, existing, options).wants|
      ensures Genuine(shapes, options, Collect(shapes, existing, options).wants[i])
    {
      assert good(CollectWith(shapes, |shapes|, judge, server).wants[i]);
    }
  }

  // --- Conservation ------------------------------------------------------------

  /** What one shape adds, when it is a finding at all. */
  ghost function FoundAt(shape: QueryShape, p: nat): multiset<nat> {
    if IsFinding(shape) then multiset{p} else multiset{}
  }

  /** The positions of the shapes that are findings at all. */
  ghost function Findings(shapes: seq<QueryShape>, n: nat): multiset<nat>
    requires n <= |shapes|
  {
    if n == 0 then multiset{} else Findings(shapes, n - 1) + FoundAt(shapes[n - 1], n - 1)
  }

  ghost function DeclinedShapes(declined: seq<Decline>): multiset<nat> {
    if declined == [] then multiset{}
    else DeclinedShapes(declined[..|declined| - 1]) + multiset{declined[|declined| - 1].shape}
  }

  lemma {:induction false} DeclinedAppend(declined: seq<Decline>, d: Decline)
    ensures DeclinedShapes(declined + [d]) == DeclinedShapes(declined) + multiset{d.shape}
  {
    assert (declined + [d])[..|declined|] == declined;
  }

  /** The gates pass over exactly the shapes that are no finding. */
  ghost predicate PassesOver(judge: Judge) {
    forall shape :: judge(shape).Unremarkable? <==> !IsFinding(shape)
  }

  /** A measure that every step raises by what its shape adds. */
  ghost predicate Totals(total: Collected -> multiset<nat>, shapes: seq<QueryShape>, judge: Judge, server: Server) {
    forall st: Collected, p: nat {:trigger CollectStep(st, shapes[p], p, judge, server)} ::
      p < |shapes| ==> total(CollectStep(st, shapes[p], p, judge, server)) == total(st) + FoundAt(shapes[p], p)
  }

  lemma {:induction false} CollectTotals(total: Collected -> multiset<nat>, shapes: seq<QueryShape>, n: nat,
                                         judge: Judge, server: Server)
    requires n <= |shapes| && Totals(total, shapes, judge, server) && total(Collected([], [])) == multiset{}
    ensures total(CollectWith(shapes, n, judge, server)) == Findings(shapes, n)
    decreases n
  {
    if n > 0 {
      CollectTotals(total, shapes, n - 1, judge, server);
    }
  }

  /** Every finding is declined or stands behind a want, exactly once. */
  lemma {:induction false} CollectConserves(shapes: seq<QueryShape>, n: nat, judge: Judge, server: Server)
    requires n <= |shapes| && PassesOver(judge)
    ensures Accounted(CollectWith(shapes, n, judge, server)) == Findings(shapes, n)
  {
    ghost var total: Collected -> multiset<nat> := st => Accounted(st);
    forall st: Collected, p: nat | p < |shapes|
      ensures total(CollectStep(st, shapes[p], p, judge, server)) == total(st) + FoundAt(shapes[p], p)
    {
      CollectStepConserves(st, shapes[p], p, judge, server);
    }
    assert Accounted(Collected([], [])) == multiset{};
    CollectTotals(total, shapes, n, judge, server);
  }

  ghost function Accounted(st: Collected): multiset<nat> {
    DeclinedShapes(st.declined) + AliveSources(Folding(st.wants, []))
  }

  lemma {:induction false} CollectStepConserves(st: Collected, shape: QueryShape, p: nat, judge: Judge, server: Server)
    requires PassesOver(judge)
    ensures Accounted(CollectStep(st, shape, p, judge, server))
      == Accounted(st) + FoundAt(shape, p)
  {
    match judge(shape) {
      case Unremarkable =>
      case Refused(reason) => DeclinedAppend(st.declined, Decline(p, reason));
      case Wanted(keys, filter) => AdmitConserves(st, shape, p, server, keys, filter);
    }
  }

  lemma {:induction false} JoinSources(w: Want, shape: QueryShape, p: nat)
    ensures SourcesOf(Join(w, shape, p)) == SourcesOf(w) + multiset{p}
  {
  }

  lemma {:induction false} AdmitConserves(st: Collected, shape: QueryShape, p: nat, server: Server,
                                          keys: seq<SortKey>, filter: Option<Filter>)
    ensures Accounted(Admit(st, shape, p, server, keys, filter)) == Accounted(st) + multiset{p}
  {
    match FindWant(st.wants, keys) {
      case Some(at) =>
        JoinSources(st.wants[at], shape, p);
        BagUpdate(st.wants, at, Join(st.wants[at], shape, p), |st.wants|, SourcesOf, multiset{p});
      case None =>
        DeclinedAppend(st.declined, Decline(p, IndexExists));
        AliveAppend(st.wants, NewWant(shape, p, keys, filter));
    }
  }

  // --- Collecting again with one more index ------------------------------------

  /** `more` serves whatever `server` does. */
  ghost predicate ServesMore(server: Server, more: Server) {
    forall shape, keys, filter :: server(shape, keys, filter) ==> more(shape, keys, filter)
  }

  lemma {:induction false} ServedByExtra(existing: seq<IndexSpec>, extra: IndexSpec)
    ensures ServesMore(ServerOf(existing), ServerOf(existing + [extra]))
    ensures forall shape, keys, filter :: ServesWant(extra, keys, BlocksOf(shape, keys), filter) ==>
      ServerOf(existing + [extra])(shape, keys, filter)
  {
    var all := existing + [extra];
    forall shape, keys, filter | Served(existing, shape, keys, filter) ensures Served(all, shape, keys, filter) {
      var i :| 0 <= i < |existing| && ServesWant(existing[i], keys, BlocksOf(shape, keys), filter);
      assert all[i] == existing[i];
    }
    assert all[|existing|] == extra;
  }

  /** One more index can only take wants away. */
  lemma {:induction false} CollectFewer(shapes: seq<QueryShape>, n: nat, judge: Judge, server: Server, more: Server,
                                        keys: seq<SortKey>)
    requires n <= |shapes| && ServesMore(server, more)
    requires FindWant(CollectWith(shapes, n, judge, more).wants, keys).Some?
    ensures FindWant(CollectWith(shapes, n, judge, server).wants, keys).Some?
  {
    if n > 0 {
      var a, b := CollectWith(shapes, n - 1, judge, server), CollectWith(shapes, n - 1, judge, more);
      if FindWant(b.wants, keys).Some? {
        CollectFewer(shapes, n - 1, judge, server, more, keys);
      }
      StepFewer(a, b, shapes[n - 1], n - 1, judge, server, more, keys);
    }
  }

  lemma {:induction false} StepFewer(a: Collected, b: Collected, shape: QueryShape, p: nat, judge: Judge,
                                     server: Server, more: Server, keys: seq<SortKey>)
    requires ServesMore(server, more)
    requires FindWant(b.wants, keys).Some? ==> FindWant(a.wants, keys).Some?
    requires FindWant(CollectStep(b, shape, p, judge, more).wants, keys).Some?
    ensures FindWant(CollectStep(a, shape, p, judge, server).wants, keys).Some?
  {
    FindsAfter(a, shape, p, judge, server, keys);
    FindsAfter(b, shape, p, judge, more, keys);
  }

  /** The keys wanted after a step: those wanted before, and the shape's own unless an
      index serves it. */
  lemma {:induction false} FindsAfter(st: Collected, shape: QueryShape, p: nat, judge: Judge, server: Server,
                                      keys: seq<SortKey>)
    ensures FindWant(CollectStep(st, shape, p, judge, server).wants, keys).Some? <==>
      || FindWant(st.wants, keys).Some?
      || (judge(shape).Wanted? && judge(shape).keys == keys && !server(shape, keys, judge(shape).filter))
  {
    if judge(shape).Wanted? {
      match FindWant(st.wants, judge(shape).keys) {
        case Some(at) => JoinFinds(st.wants, at, shape, p);
        case None => AppendFinds(st.wants, NewWant(shape, p, judge(shape).keys, judge(shape).filter));
      }
    }
  }

  /** When the shape a want is named for came up, nothing wanted its keys yet. */
  lemma {:induction false} CollectOrigin(shapes: seq<QueryShape>, n: nat, judge: Judge, server: Server, i: nat)
    requires n <= |shapes| && i < |CollectWith(shapes, n, judge, server).wants|
    ensures
      var w := CollectWith(shapes, n, judge, server).wants[i];
      && w.sources != [] && w.sources[0] < n
      && FindWant(CollectWith(shapes, w.sources[0], judge, server).wants, w.wantedKeys).None?
  {
    var st := CollectWith(shapes, n - 1, judge, server);
    if i < |st.wants| {
      CollectOrigin(shapes, n - 1, judge, server, i);
    }
  }

  lemma {:induction false} DeclinesGrow(shapes: seq<QueryShape>, m: nat, n: nat, judge: Judge, server: Server)
    requires m <= n <= |shapes|
    ensures CollectWith(shapes, m, judge, server).declined <= CollectWith(shapes, n, judge, server).declined
    decreases n
  {
    if m < n {
      DeclinesGrow(shapes, m, n - 1, judge, server);
    }
  }

  /** A want's own shape is declined the next time round, if something serves it then. */
  lemma {:induction false} RecollectDeclines(shapes: seq<QueryShape>, judge: Judge, server: Server, more: Server,
                                             i: nat)
    requires i < |CollectWith(shapes, |shapes|, judge, server).wants| && ServesMore(server, more)
    requires
      var w := CollectWith(shapes, |shapes|, judge, server).wants[i];
      && w.sources != [] && w.sources[0] < |shapes| && shapes[w.sources[0]] == w.shape
      && judge(w.shape) == Wanted(w.wantedKeys, w.partialFilter)
      && more(w.shape, w.wantedKeys, w.partialFilter)
    ensures
      Decline(CollectWith(shapes, |shapes|, judge, server).wants[i].sources[0], IndexExists)
      in CollectWith(shapes, |shapes|, judge, more).declined
  {
    var w := CollectWith(shapes, |shapes|, judge, server).wants[i];
    CollectOrigin(shapes, |shapes|, judge, server, i);
    var p := w.sources[0];
    var st := CollectWith(shapes, p, judge, more);
    if FindWant(st.wants, w.wantedKeys).Some? {
      CollectFewer(shapes, p, judge, server, more, w.wantedKeys);
    }
    DeclinedAt(st, w.shape, p, judge, more);
    DeclinesGrow(shapes, p + 1, |shapes|, judge, more);
  }

  lemma {:induction false} DeclinedAt(st: Collected, shape: QueryShape, p: nat, judge: Judge, server: Server)
    requires judge(shape).Wanted? && FindWant(st.wants, judge(shape).keys).None?
    requires server(shape, judge(shape).keys, judge(shape).filter)
    ensures Decline(p, IndexExists) in CollectStep(st, shape, p, judge, server).declined
  {
    var next := CollectStep(st, shape, p, judge, server);
    assert next.declined[|st.declined|] == Decline(p, IndexExists);
  }

  // --- Exactly what the next collection declines --------------------------------

  /** The gates never say an index exists; only the table of indexes does. */
  ghost predicate LeavesExisting(judge: Judge) {
    forall shape :: judge(shape).Refused? ==> judge(shape).reason != IndexExists
  }

  lemma {:induction false} DeclinedIsServed(shapes: seq<QueryShape>, n: nat, judge: Judge, server: Server, p: nat)
    requires n <= |shapes| && LeavesExisting(judge)
    requires Decline(p, IndexExists) in CollectWith(shapes, n, judge, server).declined
    ensures p < n && judge(shapes[p]).Wanted?
    ensures server(shapes[p], judge(shapes[p]).keys, judge(shapes[p]).filter)
  {
    var before := CollectWith(shapes, n - 1, judge, server);
    if Decline(p, IndexExists) in before.declined {
      DeclinedIsServed(shapes, n - 1, judge, server, p);
    }
  }

  predicate Unserved(w: Want, server: Server) {
    !server(w.shape, w.wantedKeys, w.partialFilter)
  }

  predicate AllUnserved(wants: seq<Want>, server: Server) {
    forall i :: 0 <= i < |wants| ==> Unserved(wants[i], server)
  }

  lemma {:induction false} CollectUnserved(shapes: seq<QueryShape>, n: nat, judge: Judge, server: Server)
    requires n <= |shapes|
    ensures AllUnserved(CollectWith(shapes, n, judge, server).wants, server)
  {
    if n > 0 {
      CollectUnserved(shapes, n - 1, judge, server);
      StepUnserved(CollectWith(shapes, n - 1, judge, server), shapes[n - 1], n - 1, judge, server);
    }
  }

  lemma {:induction false} StepUnserved(st: Collected, shape: QueryShape, p: nat, judge: Judge, server: Server)
    requires AllUnserved(st.wants, server)
    ensures AllUnserved(CollectStep(st, shape, p, judge, server).wants, server)
  {
  }

  lemma {:induction false} ServedByOne(existing: seq<IndexSpec>, extra: IndexSpec, shape: QueryShape,
                                       keys: seq<SortKey>,
                                       filter: Option<Filter>)
    requires Served(existing + [extra], shape, keys, filter) && !Served(existing, shape, keys, filter)
    ensures ServesWant(extra, keys, BlocksOf(shape, keys), filter)
  {
    var all := existing + [extra];
    assert forall k :: 0 <= k < |existing| ==> all[k] == existing[k];
    var i :| 0 <= i < |all| && ServesWant(all[i], keys, BlocksOf(shape, keys), filter);
  }

  lemma {:induction false} GatesLeaveExisting(options: CreateOptions)
    ensures LeavesExisting(JudgeBy(options))
  {
  }

  lemma {:induction false} DeclinedByMore(shapes: seq<QueryShape>, judge: Judge, more: Server, w: Want)
    requires LeavesExisting(judge) && w.sources != [] && w.sources[0] < |shapes| && shapes[w.sources[0]] == w.shape
    requires judge(w.shape) == Wanted(w.wantedKeys, w.partialFilter)
    requires Decline(w.sources[0], IndexExists) in CollectWith(shapes, |shapes|, judge, more).declined
    ensures more(w.shape, w.wantedKeys, w.partialFilter)
  {
    DeclinedIsServed(shapes, |shapes|, judge, more, w.sources[0]);
  }

  lemma {:induction false} DeclinedByExtra(shapes: seq<QueryShape>, existing: seq<IndexSpec>, options: CreateOptions,
                                           extra: IndexSpec, w: Want)
    requires Genuine(shapes, options, w) && Unserved(w, ServerOf(existing))
    requires Decline(w.sources[0], IndexExists) in Collect(shapes, existing + [extra], options).declined
    ensures ServesWant(extra, w.wantedKeys, w.blocks, w.partialFilter)
  {
    GatesLeaveExisting(options);
    DeclinedByMore(shapes, JudgeBy(options), ServerOf(existing + [extra]), w);
    ServedByOne(existing, extra, w.shape, w.wantedKeys, w.partialFilter);
  }

  /** With one more index, the next collection declines a want's own shape as served if and
      only if that index serves the want. */
  lemma {:induction false} RecollectExactly(shapes: seq<QueryShape>, existing: seq<IndexSpec>, options: CreateOptions,
                                            extra: IndexSpec, i: nat)
    requires i < |Collect(shapes, existing, options).wants|
    ensures
      var w := Collect(shapes, existing, options).wants[i];
      && w.sources != []
      && (Decline(w.sources[0], IndexExists) in Collect(shapes, existing + [extra], options).declined
          <==> ServesWant(extra, w.wantedKeys, w.blocks, w.partialFilter))
  {
    var judge, server := JudgeBy(options), ServerOf(existing);
    var w := Collect(shapes, existing, options).wants[i];
    CollectGenuine(shapes, existing, options);
    assert Genuine(shapes, options, w);
    CollectUnserved(shapes, |shapes|, judge, server);
    assert Unserved(w, server);
    if Decline(w.sources[0], IndexExists) in Collect(shapes, existing + [extra], options).declined {
      DeclinedByExtra(shapes, existing, options, extra, w);
    } else if ServesWant(extra, w.wantedKeys, w.blocks, w.partialFilter) {
      ServedByExtra(existing, extra);
      RecollectDeclines(shapes, judge, server, ServerOf(existing + [extra]), i);
    }
  }
}
