/** Chains of migration edges, and what a breadth-first search over them keeps. */
module MigrationSearch {
  import opened Distinct
  import opened TextOrder

  type Version = string

  datatype Edge = Edge(src: Version, dst: Version)

  /** `path` walks registered edges from `src` to `dst`; the empty path stays where it is. */
  ghost predicate IsChain(edges: seq<Edge>, src: Version, dst: Version, path: seq<Edge>)
    decreases |path|
  {
    if path == [] then src == dst
    else
      var last := path[|path| - 1];
      last in edges && last.dst == dst && IsChain(edges, src, last.src, path[..|path| - 1])
  }

  ghost predicate Reachable(edges: seq<Edge>, src: Version, dst: Version)
  {
    exists path :: IsChain(edges, src, dst, path)
  }

  ghost function Targets(edges: seq<Edge>): set<Version>
  {
    set e | e in edges :: e.dst
  }

  /** `path` is a chain from `src` to `dst`, and no chain between them is shorter. */
  ghost predicate IsShortestChain(edges: seq<Edge>, src: Version, dst: Version, path: seq<Edge>)
  {
    && IsChain(edges, src, dst, path)
    && forall other :: IsChain(edges, src, dst, other) ==> |path| <= |other|
  }

  lemma ChainSnoc(edges: seq<Edge>, src: Version, path: seq<Edge>, e: Edge)
    requires IsChain(edges, src, e.src, path) && e in edges
    ensures IsChain(edges, src, e.dst, path + [e])
  {
    assert (path + [e])[..|path|] == path;
  }

  lemma {:induction false} ChainIsRegistered(edges: seq<Edge>, src: Version, dst: Version, path: seq<Edge>)
    requires IsChain(edges, src, dst, path)
    ensures forall e <- path :: e in edges
    decreases |path|
  {
    if path != [] {
      var front := path[..|path| - 1];
      ChainIsRegistered(edges, src, path[|path| - 1].src, front);
      assert path == front + [path[|path| - 1]];
    }
  }

  // ---------------------------------------------------------------------
  // Search state
  // ---------------------------------------------------------------------

  datatype Entry = Entry(node: Version, path: seq<Edge>)

  /** What the search knows: nodes already popped, entries still queued, and a level per visited node. */
  datatype Search = Search(queue: seq<Entry>, done: set<Version>, dist: map<Version, nat>)

  ghost function Pending(queue: seq<Entry>): set<Version>
  {
    set e | e in queue :: e.node
  }

  /** Every queued entry carries a chain whose length is the level of its node. */
  ghost predicate EntriesOk(edges: seq<Edge>, src: Version, s: Search)
  {
    forall e <- s.queue ::
      e.node in s.dist && s.dist[e.node] == |e.path| && IsChain(edges, src, e.node, e.path)
  }

  /** Queued levels never fall, and all lie in two adjacent levels starting at `level`. */
  ghost predicate Layered(queue: seq<Entry>, level: nat)
  {
    && (forall k :: 0 <= k < |queue| ==> level <= |queue[k].path| <= level + 1)
    && (forall j, k :: 0 <= j < k < |queue| ==> |queue[j].path| <= |queue[k].path|)
  }

  /** No visited node lies more than one level beyond `level`. */
  ghost predicate Bounded(dist: map<Version, nat>, level: nat)
  {
    forall v <- dist :: dist[v] <= level + 1
  }

  ghost predicate OneEntryEach(queue: seq<Entry>)
  {
    forall j, k :: 0 <= j < k < |queue| ==> queue[j].node != queue[k].node
  }

  /** Levels are recorded for exactly the popped and the queued nodes, and these are disjoint. */
  ghost predicate Partition(src: Version, s: Search)
  {
    && s.dist.Keys == s.done + Pending(s.queue)
    && s.done !! Pending(s.queue)
    && OneEntryEach(s.queue)
    && src in s.dist && s.dist[src] == 0
  }

  /** The edges before `upto` that leave `v` lead to visited nodes at most one level further. */
  ghost predicate Expanded(edges: seq<Edge>, dist: map<Version, nat>, v: Version, upto: nat)
  {
    v in dist &&
    forall k :: 0 <= k < upto <= |edges| && edges[k].src == v ==>
      edges[k].dst in dist && dist[edges[k].dst] <= dist[v] + 1
  }

  ghost predicate AllExpanded(edges: seq<Edge>, dist: map<Version, nat>, nodes: set<Version>)
  {
    forall v <- nodes :: Expanded(edges, dist, v, |edges|)
  }

  /** Between two pops. */
  ghost predicate SearchOk(edges: seq<Edge>, src: Version, s: Search)
  {
    && EntriesOk(edges, src, s)
    && Partition(src, s)
    && (s.queue != [] ==> Layered(s.queue, |s.queue[0].path|) && Bounded(s.dist, |s.queue[0].path|))
    && AllExpanded(edges, s.dist, s.done)
  }

  /** While the edges leaving `node` are scanned; `node` is the last node popped. */
  ghost predicate ExpandingOk(edges: seq<Edge>, src: Version, s: Search, node: Version, upto: nat)
  {
    && EntriesOk(edges, src, s)
    && Partition(src, s)
    && node in s.done
    && Layered(s.queue, s.dist[node])
    && Bounded(s.dist, s.dist[node])
    && AllExpanded(edges, s.dist, s.done - {node})
    && Expanded(edges, s.dist, node, upto)
  }

  lemma PopKeepsPartition(src: Version, s: Search, r: Search)
    requires Partition(src, s) && s.queue != []
    requires r == Search(s.queue[1..], s.done + {s.queue[0].node}, s.dist)
    ensures Partition(src, r)
  {
    assert s.queue == [s.queue[0]] + r.queue;
    assert Pending(s.queue) == {s.queue[0].node} + Pending(r.queue);
  }

  lemma Pop(edges: seq<Edge>, src: Version, s: Search, r: Search)
    requires SearchOk(edges, src, s) && s.queue != []
    requires r == Search(s.queue[1..], s.done + {s.queue[0].node}, s.dist)
    ensures ExpandingOk(edges, src, r, s.queue[0].node, 0)
  {
    PopKeepsPartition(src, s, r);
    assert s.queue[0] in s.queue;
    assert r.done - {s.queue[0].node} == s.done;
  }

  lemma VisitKeepsPartition(src: Version, s: Search, r: Search, entry: Entry)
    requires Partition(src, s) && entry.node !in s.dist
    requires r == Search(s.queue + [entry], s.done, s.dist[entry.node := |entry.path|])
    ensures Partition(src, r)
  {
    assert Pending(r.queue) == Pending(s.queue) + {entry.node};
    forall k | 0 <= k < |s.queue|
      ensures s.queue[k].node in Pending(s.queue)
    {
    }
  }

  lemma GrowExpanded(edges: seq<Edge>, dist: map<Version, nat>, v: Version, upto: nat, w: Version, level: nat)
    requires Expanded(edges, dist, v, upto) && w !in dist
    ensures Expanded(edges, dist[w := level], v, upto)
  {
  }

  lemma VisitKeepsQueue(edges: seq<Edge>, src: Version, s: Search, r: Search, level: nat, entry: Entry)
    requires EntriesOk(edges, src, s) && Layered(s.queue, level) && Bounded(s.dist, level)
    requires |entry.path| == level + 1 && IsChain(edges, src, entry.node, entry.path) && entry.node !in s.dist
    requires r == Search(s.queue + [entry], s.done, s.dist[entry.node := |entry.path|])
    ensures EntriesOk(edges, src, r) && Layered(r.queue, level) && Bounded(r.dist, level)
  {
  }

  lemma VisitKeepsExpanded(edges: seq<Edge>, dist: map<Version, nat>, nodes: set<Version>, w: Version, level: nat)
    requires AllExpanded(edges, dist, nodes) && w !in dist
    ensures AllExpanded(edges, dist[w := level], nodes)
  {
    forall v | v in nodes
      ensures Expanded(edges, dist[w := level], v, |edges|)
    {
      GrowExpanded(edges, dist, v, |edges|, w, level);
    }
  }

  lemma Visit(edges: seq<Edge>, src: Version, s: Search, r: Search, node: Version, i: nat, entry: Entry)
    requires i < |edges| && ExpandingOk(edges, src, s, node, i)
    requires edges[i] == Edge(node, entry.node) && entry.node !in s.dist
    requires |entry.path| == s.dist[node] + 1 && IsChain(edges, src, entry.node, entry.path)
    requires r == Search(s.queue + [entry], s.done, s.dist[entry.node := |entry.path|])
    ensures ExpandingOk(edges, src, r, node, i + 1)
  {
    VisitKeepsPartition(src, s, r, entry);
    VisitKeepsQueue(edges, src, s, r, s.dist[node], entry);
    VisitKeepsExpanded(edges, s.dist, s.done - {node}, entry.node, |entry.path|);
    GrowExpanded(edges, s.dist, node, i, entry.node, |entry.path|);
  }

  lemma Skip(edges: seq<Edge>, src: Version, s: Search, node: Version, i: nat)
    requires i < |edges| && ExpandingOk(edges, src, s, node, i)
    requires edges[i].src == node ==> edges[i].dst in s.dist
    ensures ExpandingOk(edges, src, s, node, i + 1)
  {
  }

  lemma Finish(edges: seq<Edge>, src: Version, s: Search, node: Version)
    requires ExpandingOk(edges, src, s, node, |edges|)
    ensures SearchOk(edges, src, s)
  {
    forall v | v in s.done
      ensures Expanded(edges, s.dist, v, |edges|)
    {
      assert v == node || v in s.done - {node};
    }
  }

  /** Only popped nodes are below the head of the queue, so a chain leaving the visited nodes is longer. */
  lemma {:induction false} FrontierBound(edges: seq<Edge>, src: Version, s: Search, dst: Version, path: seq<Edge>)
    requires SearchOk(edges, src, s) && s.queue != []
    requires IsChain(edges, src, dst, path)
    ensures |path| > |s.queue[0].path| || (dst in s.dist && s.dist[dst] <= |path|)
    decreases |path|
  {
    if path != [] {
      var last := path[|path| - 1];
      FrontierBound(edges, src, s, last.src, path[..|path| - 1]);
      if |path| - 1 < |s.queue[0].path| {
        var k :| 0 <= k < |edges| && edges[k] == last;
        assert last.src in s.done;
        assert Expanded(edges, s.dist, last.src, |edges|);
      }
    }
  }

  /** Once the queue is empty every chain ends in a visited node. */
  lemma {:induction false} ClosedWhenDrained(edges: seq<Edge>, src: Version, s: Search, dst: Version, path: seq<Edge>)
    requires SearchOk(edges, src, s) && s.queue == []
    requires IsChain(edges, src, dst, path)
    ensures dst in s.dist
    decreases |path|
  {
    if path != [] {
      var last := path[|path| - 1];
      ClosedWhenDrained(edges, src, s, last.src, path[..|path| - 1]);
      assert Expanded(edges, s.dist, last.src, |edges|);
      var k :| 0 <= k < |edges| && edges[k] == last;
    }
  }

  lemma EveryChainIsLonger(edges: seq<Edge>, src: Version, s: Search, dst: Version)
    requires SearchOk(edges, src, s) && s.queue != [] && dst !in s.dist
    ensures forall path :: IsChain(edges, src, dst, path) ==> |path| > |s.queue[0].path|
  {
    forall path | IsChain(edges, src, dst, path)
      ensures |path| > |s.queue[0].path|
    {
      FrontierBound(edges, src, s, dst, path);
    }
  }

  lemma UnreachableWhenDrained(edges: seq<Edge>, src: Version, s: Search, dst: Version)
    requires SearchOk(edges, src, s) && s.queue == [] && dst !in s.dist
    ensures !Reachable(edges, src, dst)
  {
    forall path | IsChain(edges, src, dst, path)
      ensures false
    {
      ClosedWhenDrained(edges, src, s, dst, path);
    }
  }

  // ---------------------------------------------------------------------
  // Which of several shortest chains is found
  // ---------------------------------------------------------------------

  /** Where the scan of the registry meets `e`. */
  ghost function Rank(edges: seq<Edge>, e: Edge): nat
  {
    if e in edges then FirstAt(edges, e) else |edges|
  }

  /** `p` and `q` part at step `k`, where `p` takes the edge the scan meets earlier. */
  ghost predicate PartsAt(edges: seq<Edge>, p: seq<Edge>, q: seq<Edge>, k: nat)
  {
    k < |p| && k < |q| && p[..k] == q[..k] && Rank(edges, p[k]) < Rank(edges, q[k])
  }

  ghost predicate Precedes(edges: seq<Edge>, p: seq<Edge>, q: seq<Edge>)
  {
    exists k: nat :: PartsAt(edges, p, q, k)
  }

  lemma PartsTransitive(edges: seq<Edge>, p: seq<Edge>, q: seq<Edge>, r: seq<Edge>, j: nat, k: nat)
    requires PartsAt(edges, p, q, j) && PartsAt(edges, q, r, k)
    ensures PartsAt(edges, p, r, if j < k then j else k)
  {
    var m := if j < k then j else k;
    assert p[..m] == p[..j][..m] && q[..m] == q[..j][..m] && q[..m] == q[..k][..m] && r[..m] == r[..k][..m];
    assert j < k ==> q[..k][j] == q[j] && r[..k][j] == r[j];
    assert k < j ==> p[..j][k] == p[k] && q[..j][k] == q[k];
  }

  lemma PrecedesTransitive(edges: seq<Edge>, p: seq<Edge>, q: seq<Edge>, r: seq<Edge>)
    requires Precedes(edges, p, q) && Precedes(edges, q, r)
    ensures Precedes(edges, p, r)
  {
    var j: nat :| PartsAt(edges, p, q, j);
    var k: nat :| PartsAt(edges, q, r, k);
    PartsTransitive(edges, p, q, r, j, k);
  }

  lemma PrecedesExtends(edges: seq<Edge>, p: seq<Edge>, q: seq<Edge>, x: Edge, y: Edge)
    requires Precedes(edges, p, q)
    ensures Precedes(edges, p + [x], q + [y])
  {
    var k: nat :| PartsAt(edges, p, q, k);
    assert (p + [x])[..k] == p[..k] && (q + [y])[..k] == q[..k];
    assert PartsAt(edges, p + [x], q + [y], k);
  }

  lemma PrecedesAtEnd(edges: seq<Edge>, p: seq<Edge>, x: Edge, y: Edge)
    requires Rank(edges, x) < Rank(edges, y)
    ensures Precedes(edges, p + [x], p + [y])
  {
    assert (p + [x])[..|p|] == p == (p + [y])[..|p|];
    assert PartsAt(edges, p + [x], p + [y], |p|);
  }

  /** A chain as one of those compared; its own name keeps the parts of chains out of the comparisons. */
  ghost predicate IsRival(edges: seq<Edge>, src: Version, dst: Version, path: seq<Edge>)
  {
    IsChain(edges, src, dst, path)
  }

  /** A chain that precedes every other chain of its length between the same versions. */
  ghost predicate IsFirstChain(edges: seq<Edge>, src: Version, dst: Version, path: seq<Edge>)
  {
    && IsChain(edges, src, dst, path)
    && forall other {:trigger IsRival(edges, src, dst, other)} ::
                         IsRival(edges, src, dst, other) && |other| == |path| ==>
                         other == path || Precedes(edges, path, other)
  }

  // For a registry scanned in sorted order that is the order of the versions themselves.

  ghost predicate EdgeLess(e: Edge, f: Edge)
  {
    Less(e.src, f.src) || (e.src == f.src && Less(e.dst, f.dst))
  }

  ghost predicate SortedByVersions(edges: seq<Edge>)
  {
    forall i, j :: 0 <= i < j < |edges| ==> EdgeLess(edges[i], edges[j])
  }

  /** The order of sorted lists of edges. */
  ghost predicate ChainLess(p: seq<Edge>, q: seq<Edge>)
  {
    exists k :: 0 <= k < |p| && k < |q| && p[..k] == q[..k] && EdgeLess(p[k], q[k])
  }

  lemma RankFollowsVersions(edges: seq<Edge>, e: Edge, f: Edge)
    requires SortedByVersions(edges) && e in edges && f in edges
    ensures Rank(edges, e) < Rank(edges, f) <==> EdgeLess(e, f)
  {
    LessIsTotal(e.src, f.src);
    LessIsTotal(e.dst, f.dst);
    assert edges[Rank(edges, e)] == e && edges[Rank(edges, f)] == f;
  }

  /** Scanned in sorted order, the chain found is the least of the chains of its length. */
  lemma FirstIsLeast(edges: seq<Edge>, src: Version, dst: Version, path: seq<Edge>, other: seq<Edge>)
    requires SortedByVersions(edges) && IsFirstChain(edges, src, dst, path)
    requires IsChain(edges, src, dst, other) && |other| == |path|
    ensures other == path || ChainLess(path, other)
  {
    assert IsRival(edges, src, dst, other);
    if other != path {
      var k: nat :| PartsAt(edges, path, other, k);
      ChainIsRegistered(edges, src, dst, path);
      ChainIsRegistered(edges, src, dst, other);
      assert path[k] in path && other[k] in other;
      RankFollowsVersions(edges, path[k], other[k]);
    }
  }

  ghost function Front(path: seq<Edge>): seq<Edge>
    requires path != []
  {
    path[..|path| - 1]
  }

  ghost function Last(path: seq<Edge>): Edge
    requires path != []
  {
    path[|path| - 1]
  }

  /** Queued paths are first chains, and those of one level are queued in their order. */
  ghost predicate Ranked(edges: seq<Edge>, src: Version, queue: seq<Entry>)
  {
    && (forall j :: 0 <= j < |queue| ==> IsFirstChain(edges, src, queue[j].node, queue[j].path))
    && (forall i, j :: 0 <= i < j < |queue| && |queue[i].path| == |queue[j].path| ==>
                         Precedes(edges, queue[i].path, queue[j].path))
  }

  /** Between two pops: what lies one level beyond the head came from entries before it. */
  ghost predicate QueueOrdered(edges: seq<Edge>, src: Version, queue: seq<Entry>)
  {
    && Ranked(edges, src, queue)
    && forall j :: 0 <= j < |queue| && |queue[j].path| == |queue[0].path| + 1 ==>
                     Precedes(edges, Front(queue[j].path), queue[0].path)
  }

  /** `path` was queued while an entry before `current` was expanded, or from `current` by an edge before `upto`. */
  ghost predicate QueuedBefore(edges: seq<Edge>, path: seq<Edge>, current: Entry, upto: nat)
    requires path != []
  {
    || Precedes(edges, Front(path), current.path)
    || (Front(path) == current.path && Rank(edges, Last(path)) < upto)
  }

  /** While the edges leaving `current` are scanned. */
  ghost predicate ExpandOrdered(edges: seq<Edge>, src: Version, queue: seq<Entry>, current: Entry, upto: nat)
  {
    && IsFirstChain(edges, src, current.node, current.path)
    && Ranked(edges, src, queue)
    && (forall j :: 0 <= j < |queue| && |queue[j].path| == |current.path| ==>
                      Precedes(edges, current.path, queue[j].path))
    && (forall j :: 0 <= j < |queue| && |queue[j].path| == |current.path| + 1 ==>
                      QueuedBefore(edges, queue[j].path, current, upto))
  }

  /** Every chain of length `n` ends in a node visited at that level or before. */
  ghost predicate LevelKnown(edges: seq<Edge>, src: Version, dist: map<Version, nat>, n: nat)
  {
    forall v, path {:trigger IsRival(edges, src, v, path)} ::
      IsRival(edges, src, v, path) && |path| == n ==> v in dist && dist[v] <= n
  }

  lemma EmptyChainIsFirst(edges: seq<Edge>, src: Version)
    ensures IsFirstChain(edges, src, src, [])
  {
  }

  lemma PopOrdered(edges: seq<Edge>, src: Version, queue: seq<Entry>)
    requires queue != [] && QueueOrdered(edges, src, queue)
    ensures ExpandOrdered(edges, src, queue[1..], queue[0], 0)
  {
    var rest := queue[1..];
    assert forall j :: 0 <= j < |rest| ==> rest[j] == queue[j + 1];
  }

  lemma PopLevel(edges: seq<Edge>, src: Version, s: Search)
    requires SearchOk(edges, src, s) && s.queue != []
    ensures LevelKnown(edges, src, s.dist, |s.queue[0].path|)
  {
    forall v, path {:trigger IsRival(edges, src, v, path)} | IsRival(edges, src, v, path) && |path| == |s.queue[0].path|
      ensures v in s.dist && s.dist[v] <= |path|
    {
      FrontierBound(edges, src, s, v, path);
    }
  }

  lemma EdgesOfDone(edges: seq<Edge>, dist: map<Version, nat>, nodes: set<Version>, f: Edge)
    ensures AllExpanded(edges, dist, nodes) && f in edges && f.src in nodes ==> f.dst in dist
  {
  }

  /** Where a chain one step longer than `current` to an unvisited node can come from. */
  lemma LastStep(edges: seq<Edge>, src: Version, s: Search, current: Entry, i: nat, e: Edge, other: seq<Edge>)
    requires ExpandingOk(edges, src, s, current.node, i) && s.dist[current.node] == |current.path|
    requires LevelKnown(edges, src, s.dist, |current.path|)
    requires e.src == current.node && e.dst !in s.dist
    requires IsChain(edges, src, e.dst, other) && |other| == |current.path| + 1
    ensures IsChain(edges, src, Last(other).src, Front(other))
    ensures Last(other) == e || exists j :: 0 <= j < |s.queue| && s.queue[j].node == Last(other).src
                                            && |s.queue[j].path| == |current.path|
  {
    var f := Last(other);
    assert IsRival(edges, src, f.src, Front(other));
    assert f.src in s.dist && s.dist[f.src] <= |current.path|;
    EdgesOfDone(edges, s.dist, s.done - {current.node}, f);
    if f.src != current.node {
      assert f.src in Pending(s.queue);
      var entry :| entry in s.queue && entry.node == f.src;
      var j :| 0 <= j < |s.queue| && s.queue[j] == entry;
      assert |s.queue[j].path| == s.dist[f.src];
    }
  }

  lemma FromQueued(edges: seq<Edge>, src: Version, p: seq<Edge>, queued: Entry, q: seq<Edge>)
    requires Precedes(edges, p, queued.path) && IsFirstChain(edges, src, queued.node, queued.path)
    requires IsChain(edges, src, queued.node, q) && |q| == |queued.path|
    ensures Precedes(edges, p, q)
  {
    assert IsRival(edges, src, queued.node, q);
    if q != queued.path {
      PrecedesTransitive(edges, p, queued.path, q);
    }
  }

  /** Such a chain comes after the step from `current`. */
  lemma OtherIsLater(edges: seq<Edge>, src: Version, queue: seq<Entry>, current: Entry, i: nat, e: Edge, q: seq<Edge>,
                     f: Edge)
    requires ExpandOrdered(edges, src, queue, current, i) && e.src == current.node
    requires IsChain(edges, src, f.src, q) && |q| == |current.path|
    requires f == e || exists j :: 0 <= j < |queue| && queue[j].node == f.src && |queue[j].path| == |current.path|
    ensures q + [f] == current.path + [e] || Precedes(edges, current.path + [e], q + [f])
  {
    if f != e {
      var j :| 0 <= j < |queue| && queue[j].node == f.src && |queue[j].path| == |current.path|;
      FromQueued(edges, src, current.path, queue[j], q);
    } else {
      assert IsRival(edges, src, current.node, q);
    }
    if f != e || q != current.path {
      PrecedesExtends(edges, current.path, q, e, f);
    }
  }

  /** All that holds while the edges leaving `current` are scanned. */
  ghost predicate Scanning(edges: seq<Edge>, src: Version, s: Search, current: Entry, i: nat)
  {
    && ExpandingOk(edges, src, s, current.node, i) && s.dist[current.node] == |current.path|
    && LevelKnown(edges, src, s.dist, |current.path|)
    && ExpandOrdered(edges, src, s.queue, current, i)
  }

  lemma OtherChain(edges: seq<Edge>, src: Version, s: Search, current: Entry, i: nat, e: Edge, other: seq<Edge>)
    requires Scanning(edges, src, s, current, i) && e.src == current.node && e.dst !in s.dist
    requires IsChain(edges, src, e.dst, other) && |other| == |current.path| + 1
    ensures other == current.path + [e] || Precedes(edges, current.path + [e], other)
  {
    LastStep(edges, src, s, current, i, e, other);
    OtherIsLater(edges, src, s.queue, current, i, e, Front(other), Last(other));
    assert other == Front(other) + [Last(other)];
  }

  /** The step to an unvisited node makes a first chain. */
  lemma StepIsFirst(edges: seq<Edge>, src: Version, s: Search, current: Entry, i: nat, e: Edge)
    requires Scanning(edges, src, s, current, i)
    requires e in edges && e.src == current.node && e.dst !in s.dist
    ensures IsFirstChain(edges, src, e.dst, current.path + [e])
  {
    ChainSnoc(edges, src, current.path, e);
    forall other {:trigger IsRival(edges, src, e.dst, other)}
      | IsRival(edges, src, e.dst, other) && |other| == |current.path| + 1
      ensures other == current.path + [e] || Precedes(edges, current.path + [e], other)
    {
      OtherChain(edges, src, s, current, i, e, other);
    }
  }

  /** The first scan position of an edge to an unvisited node is the current one. */
  lemma RankIsNow(edges: seq<Edge>, dist: map<Version, nat>, node: Version, i: nat)
    requires i < |edges| && Expanded(edges, dist, node, i)
    requires edges[i].src == node && edges[i].dst !in dist
    ensures Rank(edges, edges[i]) == i
  {
    FirstAtMost(edges, edges[i], i);
  }

  lemma QueuedPrecedes(edges: seq<Edge>, path: seq<Edge>, current: Entry, i: nat, e: Edge)
    requires path != [] && QueuedBefore(edges, path, current, i) && Rank(edges, e) == i
    ensures Precedes(edges, path, current.path + [e])
  {
    assert path == Front(path) + [Last(path)];
    if Precedes(edges, Front(path), current.path) {
      PrecedesExtends(edges, Front(path), current.path, Last(path), e);
    } else {
      PrecedesAtEnd(edges, current.path, Last(path), e);
    }
  }

  lemma ScanVisit(edges: seq<Edge>, src: Version, s: Search, r: Search, current: Entry, i: nat, entry: Entry)
    requires i < |edges| && Scanning(edges, src, s, current, i)
    requires edges[i] == Edge(current.node, entry.node) && entry.node !in s.dist
    requires entry.path == current.path + [edges[i]]
    requires r == Search(s.queue + [entry], s.done, s.dist[entry.node := |entry.path|])
    ensures Scanning(edges, src, r, current, i + 1)
  {
    StepIsFirst(edges, src, s, current, i, edges[i]);
    RankIsNow(edges, s.dist, current.node, i);
    NewEntryOrdered(edges, src, s.queue, current, i, entry, edges[i]);
    Visit(edges, src, s, r, current.node, i, entry);
  }

  lemma ScanSkip(edges: seq<Edge>, src: Version, s: Search, current: Entry, i: nat)
    requires i < |edges| && Scanning(edges, src, s, current, i)
    requires edges[i].src == current.node ==> edges[i].dst in s.dist
    ensures Scanning(edges, src, s, current, i + 1)
  {
    Skip(edges, src, s, current.node, i);
    SkipOrdered(edges, src, s.queue, current, i);
  }

  /** The search with the destination of `e` visited from `current`. */
  ghost function Grown(s: Search, current: Entry, e: Edge): Search
  {
    Search(s.queue + [Entry(e.dst, current.path + [e])], s.done, s.dist[e.dst := |current.path| + 1])
  }

  lemma EdgeOutcome(edges: seq<Edge>, src: Version, s: Search, current: Entry, i: nat)
    requires i < |edges| && Scanning(edges, src, s, current, i)
    ensures edges[i].src == current.node && edges[i].dst !in s.dist ==>
              && IsFirstChain(edges, src, edges[i].dst, current.path + [edges[i]])
              && Scanning(edges, src, Grown(s, current, edges[i]), current, i + 1)
    ensures !(edges[i].src == current.node && edges[i].dst !in s.dist) ==> Scanning(edges, src, s, current, i + 1)
  {
    var e := edges[i];
    if e.src == current.node && e.dst !in s.dist {
      StepIsFirst(edges, src, s, current, i, e);
      ScanVisit(edges, src, s, Grown(s, current, e), current, i, Entry(e.dst, current.path + [e]));
    } else {
      ScanSkip(edges, src, s, current, i);
    }
  }

  lemma NewEntryOrdered(edges: seq<Edge>, src: Version, queue: seq<Entry>, current: Entry, i: nat, entry: Entry, e: Edge)
    requires ExpandOrdered(edges, src, queue, current, i) && Rank(edges, e) == i
    requires IsFirstChain(edges, src, entry.node, entry.path) && entry.path == current.path + [e]
    ensures ExpandOrdered(edges, src, queue + [entry], current, i + 1)
  {
    forall j | 0 <= j < |queue| && |queue[j].path| == |entry.path|
      ensures Precedes(edges, queue[j].path, entry.path)
    {
      QueuedPrecedes(edges, queue[j].path, current, i, e);
    }
    assert Front(entry.path) == current.path && Last(entry.path) == e;
    AppendRanked(edges, src, queue, entry);
    AppendOrdered(edges, src, queue, current, i, entry);
  }

  lemma AppendRanked(edges: seq<Edge>, src: Version, queue: seq<Entry>, entry: Entry)
    requires Ranked(edges, src, queue) && IsFirstChain(edges, src, entry.node, entry.path)
    requires forall j :: 0 <= j < |queue| && |queue[j].path| == |entry.path| ==>
                           Precedes(edges, queue[j].path, entry.path)
    ensures Ranked(edges, src, queue + [entry])
  {
  }

  lemma AppendOrdered(edges: seq<Edge>, src: Version, queue: seq<Entry>, current: Entry, i: nat, entry: Entry)
    requires ExpandOrdered(edges, src, queue, current, i) && Ranked(edges, src, queue + [entry])
    requires |entry.path| == |current.path| + 1 && QueuedBefore(edges, entry.path, current, i + 1)
    ensures ExpandOrdered(edges, src, queue + [entry], current, i + 1)
  {
  }

  lemma SkipOrdered(edges: seq<Edge>, src: Version, queue: seq<Entry>, current: Entry, i: nat)
    requires ExpandOrdered(edges, src, queue, current, i)
    ensures ExpandOrdered(edges, src, queue, current, i + 1)
  {
  }

  lemma FinishOrdered(edges: seq<Edge>, src: Version, s: Search, current: Entry)
    requires Layered(s.queue, |current.path|) && ExpandOrdered(edges, src, s.queue, current, |edges|)
    ensures QueueOrdered(edges, src, s.queue)
  {
    forall j | 0 <= j < |s.queue| && |s.queue[j].path| == |s.queue[0].path| + 1
      ensures Precedes(edges, Front(s.queue[j].path), s.queue[0].path)
    {
      assert QueuedBefore(edges, s.queue[j].path, current, |edges|);
      if Front(s.queue[j].path) != current.path {
        PrecedesTransitive(edges, Front(s.queue[j].path), current.path, s.queue[0].path);
      }
    }
  }

  lemma PopStartsScan(edges: seq<Edge>, src: Version, s: Search, r: Search)
    requires SearchOk(edges, src, s) && s.queue != [] && QueueOrdered(edges, src, s.queue)
    requires r == Search(s.queue[1..], s.done + {s.queue[0].node}, s.dist)
    ensures Scanning(edges, src, r, s.queue[0], 0)
  {
    Pop(edges, src, s, r);
    PopOrdered(edges, src, s.queue);
    PopLevel(edges, src, s);
    assert s.queue[0] in s.queue;
  }

  lemma ScanFinish(edges: seq<Edge>, src: Version, s: Search, current: Entry)
    requires Scanning(edges, src, s, current, |edges|)
    ensures SearchOk(edges, src, s) && QueueOrdered(edges, src, s.queue)
  {
    Finish(edges, src, s, current.node);
    FinishOrdered(edges, src, s, current);
  }
}
