/** Which packages of a lockfile a shipped process can reach (scripts/audit-gate.ts). */
module AuditGate {
  import opened Engine

  /** One entry of the lockfile's package map. */
  datatype Node = Node(
    dependencies: seq<string>,
    optionalDependencies: seq<string>,
    link: bool,
    resolved: Option<string>)

  type Lock = map<string, Node>

  const MODULES := "node_modules/"

  // --- Paths -------------------------------------------------------------------

  function Split(path: string): (segments: seq<string>)
    ensures segments != []
  {
    if path == "" then [""]
    else
      var rest := Split(path[1..]);
      if path[0] == '/' then [""] + rest else [[path[0]] + rest[0]] + rest[1..]
  }

  function Join(segments: seq<string>): string {
    if segments == [] then ""
    else if |segments| == 1 then segments[0]
    else segments[0] + "/" + Join(segments[1..])
  }

  lemma {:induction false} JoinFirst(head: string, first: string, rest: seq<string>)
    ensures Join([head + first] + rest) == head + Join([first] + rest)
  {
    assert ([head + first] + rest)[1..] == rest && ([first] + rest)[1..] == rest;
    if rest != [] {
      var tail := Join(rest);
      assert (head + first) + "/" + tail == head + (first + "/" + tail);
    }
  }

  lemma {:induction false} JoinSplit(path: string)
    ensures Join(Split(path)) == path
  {
    if path != "" {
      var rest := Split(path[1..]);
      JoinSplit(path[1..]);
      if path[0] == '/' {
        assert ([""] + rest)[1..] == rest;
        assert Join(Split(path)) == "" + "/" + Join(rest);
      } else {
        JoinFirst([path[0]], rest[0], rest[1..]);
        assert [rest[0]] + rest[1..] == rest;
      }
      assert path == [path[0]] + path[1..];
    }
  }

  function Segments(path: string): seq<string> {
    if path == "" then [] else Split(path)
  }

  /** Where a dependency would be installed under an ancestor of a package. */
  function Candidate(segments: seq<string>, end: nat, name: string): string
    requires end <= |segments|
  {
    var prefix := Join(segments[..end]);
    (if prefix == "" then "" else prefix + "/") + MODULES + name
  }

  // --- Resolution --------------------------------------------------------------

  /** A dependency, as written by the package at a path. */
  datatype Edge = Edge(from: string, name: string)

  function ResolveUpTo(nodes: Lock, segments: seq<string>, end: nat, name: string): (found: Option<string>)
    requires end <= |segments|
    ensures found.Some? ==> found.value in nodes
  {
    if Candidate(segments, end, name) in nodes then Some(Candidate(segments, end, name))
    else if end == 0 then None
    else ResolveUpTo(nodes, segments, end - 1, name)
  }

  function Resolve(nodes: Lock, e: Edge): Option<string> {
    ResolveUpTo(nodes, Segments(e.from), |Segments(e.from)|, e.name)
  }

  /** The installed copy under the nearest ancestor, the package's own directory first. */
  predicate Nearest(nodes: Lock, segments: seq<string>, name: string, found: Option<string>) {
    match found
    case None => forall end :: 0 <= end <= |segments| ==> Candidate(segments, end, name) !in nodes
    case Some(path) => exists end ::
      && 0 <= end <= |segments| && Candidate(segments, end, name) == path && path in nodes
      && (forall nearer :: end < nearer <= |segments| ==> Candidate(segments, nearer, name) !in nodes)
  }

  method ResolveDep(nodes: Lock, fromPath: string, name: string) returns (found: Option<string>)
    ensures found == Resolve(nodes, Edge(fromPath, name))
    ensures Nearest(nodes, Segments(fromPath), name, found)
  {
    var segments := Segments(fromPath);
    var end := |segments|;
    while end >= 0
      invariant -1 <= end <= |segments|
      invariant forall nearer :: end < nearer <= |segments| ==> Candidate(segments, nearer, name) !in nodes
      invariant Resolve(nodes, Edge(fromPath, name))
        == if end < 0 then None else ResolveUpTo(nodes, segments, end, name)
    {
      var candidate := Candidate(segments, end, name);
      if candidate in nodes {
        return Some(candidate);
      }
      end := end - 1;
    }
    return None;
  }

  /** A workspace's link leads to the workspace's own directory. */
  function Follow(nodes: Lock, path: string): string {
    if path in nodes && nodes[path].link && nodes[path].resolved.Some? then nodes[path].resolved.value else path
  }

  // --- The walk ----------------------------------------------------------------

  function EdgesOf(from: string, names: seq<string>): (edges: seq<Edge>)
    ensures |edges| == |names| && forall i :: 0 <= i < |names| ==> edges[i] == Edge(from, names[i])
  {
    seq(|names|, i requires 0 <= i < |names| => Edge(from, names[i]))
  }

  /** Everything a package may load once installed. */
  function Needs(nodes: Lock, path: string): seq<Edge> {
    if path !in nodes then [] else EdgesOf(path, nodes[path].dependencies + nodes[path].optionalDependencies)
  }

  predicate IsWorkspace(path: string) {
    !(MODULES <= path)
  }

  /** What one entry ships with, if it is a workspace. */
  function RootEdges(nodes: Lock, path: string): seq<Edge> {
    if path in nodes && IsWorkspace(path) then EdgesOf(path, nodes[path].dependencies) else []
  }

  /** What the workspaces ship with; `paths` are the lockfile's keys in their order. */
  function Roots(nodes: Lock, paths: seq<string>): seq<Edge> {
    if paths == [] then [] else RootEdges(nodes, paths[0]) + Roots(nodes, paths[1..])
  }

  /** The worklist, from the end; each installed copy is entered once. */
  function Walk(nodes: Lock, queue: seq<Edge>, seen: set<string>): set<string>
    decreases nodes.Keys - seen, |queue|
  {
    if queue == [] then seen
    else
      var e, rest := queue[|queue| - 1], queue[..|queue| - 1];
      var found := Resolve(nodes, e);
      if found.None? || found.value in seen then Walk(nodes, rest, seen)
      else
        var target := Follow(nodes, found.value);
        assert found.value in nodes.Keys - seen;
        Walk(nodes, rest + Needs(nodes, target), seen + {found.value, target})
  }

  function RuntimeReachable(nodes: Lock, paths: seq<string>): set<string> {
    Walk(nodes, Roots(nodes, paths), {})
  }

  method RootsLoop(nodes: Lock, paths: seq<string>) returns (queue: seq<Edge>)
    ensures queue == Roots(nodes, paths)
  {
    queue := [];
    for i := 0 to |paths|
      invariant queue + Roots(nodes, paths[i..]) == Roots(nodes, paths)
    {
      assert paths[i..][1..] == paths[i + 1..];
      Assoc(queue, RootEdges(nodes, paths[i]), Roots(nodes, paths[i + 1..]));
      if paths[i] in nodes && IsWorkspace(paths[i]) {
        queue := queue + EdgesOf(paths[i], nodes[paths[i]].dependencies);
      } else {
        assert queue + RootEdges(nodes, paths[i]) == queue;
      }
    }
  }

  /** Terminates on any lockfile, cycles included. */
  method WalkLoop(nodes: Lock, paths: seq<string>) returns (seen: set<string>)
    ensures seen == RuntimeReachable(nodes, paths)
  {
    seen := {};
    var queue := RootsLoop(nodes, paths);
    while |queue| > 0
      invariant Walk(nodes, queue, seen) == RuntimeReachable(nodes, paths)
      decreases nodes.Keys - seen, |queue|
    {
      var e := queue[|queue| - 1];
      queue := queue[..|queue| - 1];
      var found := ResolveDep(nodes, e.from, e.name);
      if found.Some? && found.value !in seen {
        assert found.value in nodes.Keys - seen;
        var target := Follow(nodes, found.value);
        seen := seen + {found.value, target};
        queue := queue + Needs(nodes, target);
      }
    }
  }

  // --- What reachable means ----------------------------------------------------

  /** A chain of dependencies: a workspace's own, then each one's of the one before. */
  predicate IsChain(nodes: Lock, roots: seq<Edge>, chain: seq<Edge>) {
    if chain == [] then false
    else if |chain| == 1 then chain[0] in roots
    else
      var before, last := chain[..|chain| - 1], chain[|chain| - 1];
      && IsChain(nodes, roots, before)
      && Resolve(nodes, before[|before| - 1]).Some?
      && last in Needs(nodes, Follow(nodes, Resolve(nodes, before[|before| - 1]).value))
  }

  /** A chain leads to the copy it resolves to, and through a link to its workspace. */
  predicate LeadsTo(nodes: Lock, e: Edge, path: string) {
    Resolve(nodes, e).Some? && (path == Resolve(nodes, e).value || path == Follow(nodes, Resolve(nodes, e).value))
  }

  ghost predicate Chains(nodes: Lock, roots: seq<Edge>, e: Edge) {
    exists chain :: IsChain(nodes, roots, chain) && chain[|chain| - 1] == e
  }

  ghost predicate Reachable(nodes: Lock, roots: seq<Edge>, path: string) {
    exists e :: Chains(nodes, roots, e) && LeadsTo(nodes, e, path)
  }

  ghost predicate AllChain(nodes: Lock, roots: seq<Edge>, queue: seq<Edge>) {
    forall i :: 0 <= i < |queue| ==> Chains(nodes, roots, queue[i])
  }

  ghost predicate AllReachable(nodes: Lock, roots: seq<Edge>, paths: set<string>) {
    forall path :: path in paths ==> Reachable(nodes, roots, path)
  }

  lemma {:induction false} RootChains(nodes: Lock, roots: seq<Edge>)
    ensures AllChain(nodes, roots, roots)
  {
    forall i | 0 <= i < |roots| ensures Chains(nodes, roots, roots[i]) {
      var chain := [roots[i]];
      assert IsChain(nodes, roots, chain) && chain[|chain| - 1] == roots[i];
    }
  }

  lemma {:induction false} ChainExtends(nodes: Lock, roots: seq<Edge>, e: Edge, next: Edge)
    requires Chains(nodes, roots, e) && Resolve(nodes, e).Some?
    requires next in Needs(nodes, Follow(nodes, Resolve(nodes, e).value))
    ensures Chains(nodes, roots, next)
  {
    var chain :| IsChain(nodes, roots, chain) && chain[|chain| - 1] == e;
    var longer := chain + [next];
    assert longer[..|longer| - 1] == chain;
    assert IsChain(nodes, roots, longer) && longer[|longer| - 1] == next;
  }

  lemma {:induction false} PushedChain(nodes: Lock, roots: seq<Edge>, rest: seq<Edge>, e: Edge)
    requires AllChain(nodes, roots, rest) && Chains(nodes, roots, e) && Resolve(nodes, e).Some?
    ensures AllChain(nodes, roots, rest + Needs(nodes, Follow(nodes, Resolve(nodes, e).value)))
  {
    var pushed := Needs(nodes, Follow(nodes, Resolve(nodes, e).value));
    var all := rest + pushed;
    forall i | 0 <= i < |all| ensures Chains(nodes, roots, all[i]) {
      if i < |rest| {
        assert all[i] == rest[i];
      } else {
        assert all[i] == pushed[i - |rest|];
        ChainExtends(nodes, roots, e, all[i]);
      }
    }
  }

  lemma {:induction false} RestChains(nodes: Lock, roots: seq<Edge>, queue: seq<Edge>)
    requires queue != [] && AllChain(nodes, roots, queue)
    ensures AllChain(nodes, roots, queue[..|queue| - 1])
  {
    var rest := queue[..|queue| - 1];
    forall i | 0 <= i < |rest| ensures Chains(nodes, roots, rest[i]) {
      assert rest[i] == queue[i];
    }
  }

  /** Nothing is called reachable without a chain of dependencies to show for it. */
  lemma {:induction false} WalkSound(nodes: Lock, roots: seq<Edge>, queue: seq<Edge>, seen: set<string>)
    requires AllChain(nodes, roots, queue) && AllReachable(nodes, roots, seen)
    ensures AllReachable(nodes, roots, Walk(nodes, queue, seen))
    decreases nodes.Keys - seen, |queue|
  {
    if queue != [] {
      var e, rest := queue[|queue| - 1], queue[..|queue| - 1];
      var found := Resolve(nodes, e);
      assert Chains(nodes, roots, e);
      RestChains(nodes, roots, queue);
      if found.None? || found.value in seen {
        WalkSound(nodes, roots, rest, seen);
      } else {
        var target := Follow(nodes, found.value);
        assert found.value in nodes.Keys - seen;
        PushedChain(nodes, roots, rest, e);
        assert LeadsTo(nodes, e, found.value) && LeadsTo(nodes, e, target);
        WalkSound(nodes, roots, rest + Needs(nodes, target), seen + {found.value, target});
      }
    }
  }

  // --- Nothing is missed -------------------------------------------------------

  /** A copy some dependency resolves to. */
  ghost predicate Resolved(nodes: Lock, roots: seq<Edge>, path: string) {
    exists e :: Chains(nodes, roots, e) && Resolve(nodes, e) == Some(path)
  }

  /** Where a resolved link leads is no link, or nothing resolves to it. */
  ghost predicate LinksSettle(nodes: Lock, roots: seq<Edge>) {
    forall path :: Resolved(nodes, roots, path) && Resolved(nodes, roots, Follow(nodes, path)) ==>
      Follow(nodes, Follow(nodes, path)) == Follow(nodes, path)
  }

  /** An edge that has been dealt with: it resolves to nothing, or to what has been seen. */
  predicate Handled(nodes: Lock, e: Edge, seen: set<string>) {
    Resolve(nodes, e).None? || Resolve(nodes, e).value in seen
  }

  predicate Waits(nodes: Lock, e: Edge, queue: seq<Edge>, seen: set<string>) {
    e in queue || Handled(nodes, e, seen)
  }

  predicate AllWait(nodes: Lock, edges: seq<Edge>, queue: seq<Edge>, seen: set<string>) {
    forall i :: 0 <= i < |edges| ==> Waits(nodes, edges[i], queue, seen)
  }

  /** Everything a package entered needs is dealt with or waiting, and so is where it links. */
  predicate Entered(nodes: Lock, path: string, queue: seq<Edge>, seen: set<string>) {
    Follow(nodes, path) in seen && AllWait(nodes, Needs(nodes, Follow(nodes, path)), queue, seen)
  }

  /** So it is for every copy that was resolved to. */
  ghost predicate AllEntered(nodes: Lock, roots: seq<Edge>, queue: seq<Edge>, seen: set<string>) {
    forall path :: path in seen && Resolved(nodes, roots, path) ==> Entered(nodes, path, queue, seen)
  }

  lemma {:induction false} StillWaits(nodes: Lock, edges: seq<Edge>, queue: seq<Edge>, seen: set<string>,
                                      queue': seq<Edge>, seen': set<string>)
    requires AllWait(nodes, edges, queue, seen) && queue != [] && seen <= seen'
    requires queue[..|queue| - 1] <= queue' && Handled(nodes, queue[|queue| - 1], seen')
    ensures AllWait(nodes, edges, queue', seen')
  {
    forall i | 0 <= i < |edges| ensures Waits(nodes, edges[i], queue', seen') {
      assert Waits(nodes, edges[i], queue, seen);
      if edges[i] in queue {
        var k :| 0 <= k < |queue| && queue[k] == edges[i];
        if k < |queue| - 1 {
          assert queue'[k] == queue[..|queue| - 1][k];
        }
      }
    }
  }

  lemma {:induction false} StillEntered(nodes: Lock, roots: seq<Edge>, queue: seq<Edge>, seen: set<string>,
                                        queue': seq<Edge>, seen': set<string>)
    requires AllEntered(nodes, roots, queue, seen) && queue != [] && seen <= seen'
    requires queue[..|queue| - 1] <= queue' && Handled(nodes, queue[|queue| - 1], seen')
    ensures forall path :: path in seen && Resolved(nodes, roots, path) ==> Entered(nodes, path, queue', seen')
  {
    forall path | path in seen && Resolved(nodes, roots, path) ensures Entered(nodes, path, queue', seen') {
      assert Entered(nodes, path, queue, seen);
      StillWaits(nodes, Needs(nodes, Follow(nodes, path)), queue, seen, queue', seen');
    }
  }

  lemma {:induction false} PushedWait(nodes: Lock, rest: seq<Edge>, edges: seq<Edge>, seen: set<string>)
    ensures AllWait(nodes, edges, rest + edges, seen)
  {
    forall i | 0 <= i < |edges| ensures Waits(nodes, edges[i], rest + edges, seen) {
      assert (rest + edges)[|rest| + i] == edges[i];
    }
  }

  /** Entering a copy leaves everything resolved so far entered. */
  lemma {:induction false} EnterKeeps(nodes: Lock, roots: seq<Edge>, queue: seq<Edge>, seen: set<string>, found: string)
    requires LinksSettle(nodes, roots) && AllEntered(nodes, roots, queue, seen) && queue != []
    requires Chains(nodes, roots, queue[|queue| - 1]) && Resolve(nodes, queue[|queue| - 1]) == Some(found)
    ensures
      var target := Follow(nodes, found);
      var queue', seen' := queue[..|queue| - 1] + Needs(nodes, target), seen + {found, target};
      AllEntered(nodes, roots, queue', seen')
  {
    var target := Follow(nodes, found);
    var queue', seen' := queue[..|queue| - 1] + Needs(nodes, target), seen + {found, target};
    StillEntered(nodes, roots, queue, seen, queue', seen');
    PushedWait(nodes, queue[..|queue| - 1], Needs(nodes, target), seen');
    assert Resolved(nodes, roots, found);
    assert Entered(nodes, found, queue', seen');
    assert Resolved(nodes, roots, target) ==> Entered(nodes, target, queue', seen');
  }

  /** A set the walk could not leave: it holds what the roots resolve to, and with each copy
      resolved to, where that links and what it needs. */
  ghost predicate SettledUnder(nodes: Lock, roots: seq<Edge>, all: set<string>) {
    AllWait(nodes, roots, [], all) && AllEntered(nodes, roots, [], all)
  }

  lemma {:induction false} WalkSettles(nodes: Lock, roots: seq<Edge>, queue: seq<Edge>, seen: set<string>)
    requires LinksSettle(nodes, roots) && AllChain(nodes, roots, queue)
    requires AllWait(nodes, roots, queue, seen) && AllEntered(nodes, roots, queue, seen)
    ensures SettledUnder(nodes, roots, Walk(nodes, queue, seen))
    decreases nodes.Keys - seen, |queue|
  {
    if queue != [] {
      var e, rest := queue[|queue| - 1], queue[..|queue| - 1];
      var found := Resolve(nodes, e);
      assert Chains(nodes, roots, e);
      RestChains(nodes, roots, queue);
      if found.None? || found.value in seen {
        StillWaits(nodes, roots, queue, seen, rest, seen);
        StillEntered(nodes, roots, queue, seen, rest, seen);
        WalkSettles(nodes, roots, rest, seen);
      } else {
        var target := Follow(nodes, found.value);
        assert found.value in nodes.Keys - seen;
        var queue', seen' := rest + Needs(nodes, target), seen + {found.value, target};
        StillWaits(nodes, roots, queue, seen, queue', seen');
        EnterKeeps(nodes, roots, queue, seen, found.value);
        PushedChain(nodes, roots, rest, e);
        WalkSettles(nodes, roots, queue', seen');
      }
    } else {
      assert queue == [];
    }
  }

  lemma {:induction false} MemberStays(nodes: Lock, edges: seq<Edge>, all: set<string>, e: Edge)
    requires AllWait(nodes, edges, [], all) && e in edges && Resolve(nodes, e).Some?
    ensures Resolve(nodes, e).value in all
  {
    var i :| 0 <= i < |edges| && edges[i] == e;
    assert Waits(nodes, edges[i], [], all);
  }

  lemma {:induction false} ChainParts(nodes: Lock, roots: seq<Edge>, chain: seq<Edge>)
    requires IsChain(nodes, roots, chain) && |chain| > 1
    ensures
      var before := chain[..|chain| - 1];
      && IsChain(nodes, roots, before) && Resolve(nodes, before[|before| - 1]).Some?
      && chain[|chain| - 1] in Needs(nodes, Follow(nodes, Resolve(nodes, before[|before| - 1]).value))
  {
  }

  lemma {:induction false} NeededStays(nodes: Lock, roots: seq<Edge>, all: set<string>, needer: Edge, e: Edge)
    requires SettledUnder(nodes, roots, all) && Chains(nodes, roots, needer)
    requires Resolve(nodes, needer).Some? && Resolve(nodes, needer).value in all
    requires e in Needs(nodes, Follow(nodes, Resolve(nodes, needer).value)) && Resolve(nodes, e).Some?
    ensures Resolve(nodes, e).value in all
  {
    var path := Resolve(nodes, needer).value;
    assert Resolved(nodes, roots, path);
    assert Entered(nodes, path, [], all);
    MemberStays(nodes, Needs(nodes, Follow(nodes, path)), all, e);
  }

  lemma {:induction false} PrefixChains(nodes: Lock, roots: seq<Edge>, chain: seq<Edge>)
    requires chain != [] && IsChain(nodes, roots, chain)
    ensures Chains(nodes, roots, chain[|chain| - 1])
  {
  }

  /** Every chain stays inside such a set. */
  lemma {:induction false} ChainStays(nodes: Lock, roots: seq<Edge>, all: set<string>, chain: seq<Edge>)
    requires SettledUnder(nodes, roots, all) && IsChain(nodes, roots, chain)
    requires Resolve(nodes, chain[|chain| - 1]).Some?
    ensures Resolve(nodes, chain[|chain| - 1]).value in all
    decreases |chain|
  {
    if |chain| == 1 {
      MemberStays(nodes, roots, all, chain[0]);
    } else {
      ChainParts(nodes, roots, chain);
      var before := chain[..|chain| - 1];
      ChainStays(nodes, roots, all, before);
      PrefixChains(nodes, roots, before);
      NeededStays(nodes, roots, all, before[|before| - 1], chain[|chain| - 1]);
    }
  }

  /** A path is reached as the copy resolved to, or as where that links. */
  ghost predicate ArrivesBy(nodes: Lock, roots: seq<Edge>, through: string, path: string) {
    Resolved(nodes, roots, through) && (path == through || path == Follow(nodes, through))
  }

  lemma {:induction false} ReachableStays(nodes: Lock, roots: seq<Edge>, all: set<string>, path: string)
    requires SettledUnder(nodes, roots, all) && Reachable(nodes, roots, path)
    ensures path in all
    ensures exists through :: through in all && ArrivesBy(nodes, roots, through, path)
  {
    var e :| Chains(nodes, roots, e) && LeadsTo(nodes, e, path);
    var chain :| IsChain(nodes, roots, chain) && chain[|chain| - 1] == e;
    ChainStays(nodes, roots, all, chain);
    var through := Resolve(nodes, e).value;
    assert Resolved(nodes, roots, through) && ArrivesBy(nodes, roots, through, path);
    assert Entered(nodes, through, [], all);
  }

  lemma {:induction false} WalkIsSettled(nodes: Lock, paths: seq<string>)
    requires LinksSettle(nodes, Roots(nodes, paths))
    ensures SettledUnder(nodes, Roots(nodes, paths), RuntimeReachable(nodes, paths))
    ensures AllReachable(nodes, Roots(nodes, paths), RuntimeReachable(nodes, paths))
  {
    var roots := Roots(nodes, paths);
    RootChains(nodes, roots);
    WalkSound(nodes, roots, roots, {});
    forall i | 0 <= i < |roots| ensures Waits(nodes, roots[i], roots, {}) {
    }
    WalkSettles(nodes, roots, roots, {});
  }

  /** The walk returns exactly what is reachable, whatever order the lockfile lists its
      packages in, when no link it resolves leads to another link it resolves. */
  lemma {:induction false} ReachableExactly(nodes: Lock, paths: seq<string>, path: string)
    requires LinksSettle(nodes, Roots(nodes, paths))
    ensures path in RuntimeReachable(nodes, paths) <==> Reachable(nodes, Roots(nodes, paths), path)
  {
    WalkIsSettled(nodes, paths);
    if Reachable(nodes, Roots(nodes, paths), path) {
      ReachableStays(nodes, Roots(nodes, paths), RuntimeReachable(nodes, paths), path);
    }
  }

  /** Where a resolved link leads is no link. */
  ghost predicate LinksEnd(nodes: Lock, roots: seq<Edge>) {
    forall path :: Resolved(nodes, roots, path) ==> Follow(nodes, Follow(nodes, path)) == Follow(nodes, path)
  }

  /** Closed under resolution, links and dependencies. */
  predicate ClosedUnder(nodes: Lock, roots: seq<Edge>, all: set<string>) {
    AllWait(nodes, roots, [], all) && forall path :: path in all ==> Entered(nodes, path, [], all)
  }

  /** It is then the least closed set: it is closed, and inside every other. */
  lemma {:induction false} LeastClosed(nodes: Lock, paths: seq<string>, other: set<string>)
    requires LinksEnd(nodes, Roots(nodes, paths)) && ClosedUnder(nodes, Roots(nodes, paths), other)
    ensures ClosedUnder(nodes, Roots(nodes, paths), RuntimeReachable(nodes, paths))
    ensures RuntimeReachable(nodes, paths) <= other
  {
    var roots, all := Roots(nodes, paths), RuntimeReachable(nodes, paths);
    WalkIsSettled(nodes, paths);
    assert SettledUnder(nodes, roots, other);
    forall path | path in all ensures path in other && Entered(nodes, path, [], all) {
      ReachableStays(nodes, roots, other, path);
      ReachableStays(nodes, roots, all, path);
      var through :| through in all && ArrivesBy(nodes, roots, through, path);
      assert Entered(nodes, through, [], all);
    }
  }

  // --- A link to a link --------------------------------------------------------

  const DONE := Node([], [], false, None)

  /** Two dependencies: one a link to the other, which links to a workspace. */
  function LinkedLock(first: string, second: string): Lock {
    map[
      "" := Node([first, second], [], false, None),
      "node_modules/a" := Node([], [], true, Some("node_modules/t")),
      "node_modules/t" := Node([], [], true, Some("packages/t")),
      "packages/t" := DONE]
  }

  lemma {:induction false} RootResolves(nodes: Lock, name: string)
    requires MODULES + name in nodes
    ensures Resolve(nodes, Edge("", name)) == Some(MODULES + name)
  {
    var none: seq<string> := [];
    assert none[..0] == none;
    assert Candidate(none, 0, name) == MODULES + name;
  }

  lemma {:induction false} LinkedRoots(first: string, second: string)
    ensures Roots(LinkedLock(first, second), [""]) == [Edge("", first), Edge("", second)]
  {
    var nodes := LinkedLock(first, second);
    assert [""][1..] == [];
    assert Roots(nodes, [""]) == EdgesOf("", [first, second]) + [];
    assert EdgesOf("", [first, second]) == [Edge("", first), Edge("", second)];
  }

  lemma {:induction false} LinkedResolves(first: string, second: string)
    ensures
      var nodes := LinkedLock(first, second);
      && Resolve(nodes, Edge("", "a")) == Some("node_modules/a") && Follow(nodes, "node_modules/a") == "node_modules/t"
      && Resolve(nodes, Edge("", "t")) == Some("node_modules/t") && Follow(nodes, "node_modules/t") == "packages/t"
      && Needs(nodes, "node_modules/t") == [] && Needs(nodes, "packages/t") == []
      && Follow(nodes, "packages/t") == "packages/t"
  {
    var nodes := LinkedLock(first, second);
    assert MODULES + "a" == "node_modules/a" && MODULES + "t" == "node_modules/t";
    RootResolves(nodes, "a");
    RootResolves(nodes, "t");
    assert nodes["node_modules/t"].link && nodes["node_modules/a"].link;
  }

  lemma {:induction false} LinkedUnsettled(nodes: Lock, roots: seq<Edge>, t: Edge, a: Edge)
    requires t in roots && a in roots
    requires Resolve(nodes, a) == Some("node_modules/a") && Follow(nodes, "node_modules/a") == "node_modules/t"
    requires Resolve(nodes, t) == Some("node_modules/t") && Follow(nodes, "node_modules/t") == "packages/t"
    ensures !LinksSettle(nodes, roots)
  {
    assert IsChain(nodes, roots, [t]) && [t][|[t]| - 1] == t;
    assert IsChain(nodes, roots, [a]) && [a][|[a]| - 1] == a;
    assert Chains(nodes, roots, t) && Chains(nodes, roots, a);
    assert Resolved(nodes, roots, "node_modules/a") && Resolved(nodes, roots, "node_modules/t");
    assert "node_modules/t"[0] != "packages/t"[0];
  }

  lemma {:induction false} LinkedReachable(nodes: Lock, roots: seq<Edge>, t: Edge)
    requires t in roots && Resolve(nodes, t) == Some("node_modules/t")
    requires Follow(nodes, "node_modules/t") == "packages/t"
    ensures Reachable(nodes, roots, "packages/t")
  {
    assert IsChain(nodes, roots, [t]) && [t][|[t]| - 1] == t;
    assert Chains(nodes, roots, t) && LeadsTo(nodes, t, "packages/t");
  }

  /** Two edges taken from the end, the second to a copy the first has seen already. */
  lemma {:induction false} SecondSeen(nodes: Lock, t: Edge, a: Edge)
    requires Resolve(nodes, a) == Some("node_modules/a") && Follow(nodes, "node_modules/a") == "node_modules/t"
    requires Resolve(nodes, t) == Some("node_modules/t") && Needs(nodes, "node_modules/t") == []
    ensures Walk(nodes, [t, a], {}) == {"node_modules/a", "node_modules/t"}
  {
    var seen := {"node_modules/a", "node_modules/t"};
    assert [t, a][..1] == [t] && [t][..0] == [] && [t] + [] == [t];
    assert {} + seen == seen;
    assert Walk(nodes, [t, a], {}) == Walk(nodes, [t], seen);
    assert Walk(nodes, [t], seen) == Walk(nodes, [], seen) == seen;
  }

  /** Here it is not exact, and depends on the order the dependencies are written in: the
      workspace is missed when the link to the link is taken first. */
  lemma {:induction false} LinkToLinkMissed()
    ensures
      var nodes := LinkedLock("t", "a");
      && !LinksSettle(nodes, Roots(nodes, [""])) && Reachable(nodes, Roots(nodes, [""]), "packages/t")
      && "packages/t" !in RuntimeReachable(nodes, [""])
  {
    var nodes, t, a := LinkedLock("t", "a"), Edge("", "t"), Edge("", "a");
    LinkedRoots("t", "a");
    LinkedResolves("t", "a");
    LinkedReachable(nodes, [t, a], t);
    LinkedUnsettled(nodes, [t, a], t, a);
    SecondSeen(nodes, t, a);
  }

  /** Two edges taken from the end, the first to the copy the second links to. */
  lemma {:induction false} FirstFollowed(nodes: Lock, a: Edge, t: Edge)
    requires Resolve(nodes, a) == Some("node_modules/a") && Follow(nodes, "node_modules/a") == "node_modules/t"
    requires Resolve(nodes, t) == Some("node_modules/t") && Follow(nodes, "node_modules/t") == "packages/t"
    requires Needs(nodes, "node_modules/t") == [] && Needs(nodes, "packages/t") == []
    ensures Walk(nodes, [a, t], {}) == {"node_modules/a", "node_modules/t", "packages/t"}
  {
    var seen := {"node_modules/t", "packages/t"};
    var all := {"node_modules/a", "node_modules/t", "packages/t"};
    assert [a, t][..1] == [a] && [a][..0] == [] && [a] + [] == [a];
    assert {} + seen == seen && seen + {"node_modules/a", "node_modules/t"} == all;
    assert Walk(nodes, [a, t], {}) == Walk(nodes, [a], seen);
    assert "node_modules/a"[13] == 'a' && "node_modules/t"[13] == 't' && "packages/t"[0] == 'p';
    assert "node_modules/a" !in seen;
    assert Walk(nodes, [a], seen) == Walk(nodes, [], all) == all;
  }

  /** Written the other way round the walk is exact all the same, so settled links are not
      necessary for it. */
  lemma {:induction false} LinkToLinkFound(path: string)
    ensures
      var nodes := LinkedLock("a", "t");
      && !LinksSettle(nodes, Roots(nodes, [""])) && "packages/t" in RuntimeReachable(nodes, [""])
      && (path in RuntimeReachable(nodes, [""]) <==> Reachable(nodes, Roots(nodes, [""]), path))
  {
    var nodes, t, a := LinkedLock("a", "t"), Edge("", "t"), Edge("", "a");
    LinkedRoots("a", "t");
    LinkedResolves("a", "t");
    LinkedUnsettled(nodes, [a, t], t, a);
    FirstFollowed(nodes, a, t);
    RootChains(nodes, [a, t]);
    WalkSound(nodes, [a, t], [a, t], {});
    LinkedSettled(nodes, a, t);
    if Reachable(nodes, [a, t], path) {
      ReachableStays(nodes, [a, t], {"node_modules/a", "node_modules/t", "packages/t"}, path);
    }
  }

  lemma {:induction false} LinkedSettled(nodes: Lock, a: Edge, t: Edge)
    requires Resolve(nodes, a) == Some("node_modules/a") && Follow(nodes, "node_modules/a") == "node_modules/t"
    requires Resolve(nodes, t) == Some("node_modules/t") && Follow(nodes, "node_modules/t") == "packages/t"
    requires Needs(nodes, "node_modules/t") == [] && Needs(nodes, "packages/t") == []
    requires Follow(nodes, "packages/t") == "packages/t"
    ensures SettledUnder(nodes, [a, t], {"node_modules/a", "node_modules/t", "packages/t"})
  {
    var all := {"node_modules/a", "node_modules/t", "packages/t"};
    assert Entered(nodes, "node_modules/a", [], all);
    assert Entered(nodes, "node_modules/t", [], all) && Entered(nodes, "packages/t", [], all);
    forall path | path in all && Resolved(nodes, [a, t], path) ensures Entered(nodes, path, [], all) {
    }
  }

}
