/** Breadth-first searches: src/engine/subgraph_topology.cpp, and the same search
    in src/handlers/parallel_handler.cpp. */
module Topology {
  import opened Text
  import opened Graphs

  // ---- shared search state ---------------------------------------------------

  /** A traversal in progress: what was seen is reachable and is either processed
      or queued; an open processed node has had its successors seen. */
  ghost predicate Frontier(g: Graph, open: string -> bool, start: string,
                           visited: set<string>, processed: set<string>, queue: seq<string>)
  {
    && start in visited
    && (forall x :: x in visited <==> x in processed || x in queue)
    && (forall x :: x in visited ==> Reachable(g, open, start, x))
    && (forall x :: x in processed && open(x) ==> Succ(g, x) <= visited)
  }

  lemma FrontierStart(g: Graph, open: string -> bool, start: string)
    ensures Frontier(g, open, start, {start}, {}, [start])
  {
    ReachableSelf(g, open, start);
  }

  /** Processing the head of the queue: a closed node is just dropped, an open one
      has its unseen successors queued. */
  lemma FrontierStep(g: Graph, open: string -> bool, start: string,
                     visited: set<string>, processed: set<string>, queue: seq<string>,
                     visited': set<string>, queue': seq<string>)
    requires Frontier(g, open, start, visited, processed, queue) && queue != []
    requires visited' == if open(queue[0]) then visited + Succ(g, queue[0]) else visited
    requires forall x :: x in queue' <==> x in queue[1..] || (x in visited' && x !in visited)
    ensures Frontier(g, open, start, visited', processed + {queue[0]}, queue')
  {
    var id := queue[0];
    assert forall x :: x in queue <==> x == id || x in queue[1..];
    forall x | x in visited' ensures Reachable(g, open, start, x) {
      if x !in visited { ReachableStep(g, open, start, id, x); }
    }
  }

  lemma FrontierDone(g: Graph, open: string -> bool, start: string, visited: set<string>, processed: set<string>)
    requires Frontier(g, open, start, visited, processed, [])
    ensures forall x :: x in processed <==> Reachable(g, open, start, x)
  {
    ClosedSetContainsReachable(g, open, visited, start);
  }

  lemma VisitedBounded(g: Graph, open: string -> bool, start: string,
                       visited: set<string>, processed: set<string>, queue: seq<string>)
    requires Frontier(g, open, start, visited, processed, queue)
    ensures visited <= Universe(g, start)
  {
    ReachableInUniverse(g, open, start);
  }

  /** The inner loop of every search here: the unseen successors of `id`, in edge
      order, each once. */
  method UnseenSuccessors(g: Graph, id: string, visited0: set<string>)
    returns (visited: set<string>, unseen: seq<string>)
    ensures visited == visited0 + Succ(g, id)
    ensures forall x :: x in unseen <==> x in visited && x !in visited0
    ensures forall i, j :: 0 <= i < j < |unseen| ==> unseen[i] != unseen[j]
    ensures unseen != [] ==> unseen[0] in visited - visited0
  {
    visited, unseen := visited0, [];
    var edges := OutgoingEdges(g, id);
    for k := 0 to |edges|
      invariant visited == visited0 + Targets(edges[..k])
      invariant forall x :: x in unseen <==> x in visited && x !in visited0
      invariant forall i, j :: 0 <= i < j < |unseen| ==> unseen[i] != unseen[j]
    {
      assert edges[..k + 1] == edges[..k] + [edges[k]];
      TargetsSnoc(edges[..k], edges[k]);
      if edges[k].to !in visited {
        visited := visited + {edges[k].to};
        unseen := unseen + [edges[k].to];
      }
    }
    assert edges[..|edges|] == edges;
    assert unseen != [] ==> unseen[0] in unseen;
  }

  // ---- collect_reachable -----------------------------------------------------

  function Avoiding(stop: set<string>): string -> bool
  {
    (id: string) => id !in stop
  }

  method CollectReachable(g: Graph, start: string, stopNodes: set<string>) returns (result: set<string>)
    ensures forall x :: x in result <==> x !in stopNodes && Reachable(g, Avoiding(stopNodes), start, x)
  {
    ghost var open := Avoiding(stopNodes);
    result := {};
    var visited := {start};
    var queue := [start];
    ghost var processed := {};
    FrontierStart(g, open, start);
    while queue != []
      invariant Frontier(g, open, start, visited, processed, queue)
      invariant result == processed - stopNodes
      decreases Universe(g, start) - visited, |queue|
    {
      ghost var visited0, queue0 := visited, queue;
      var id := queue[0];
      queue := queue[1..];
      if id !in stopNodes {
        result := result + {id};
        var unseen;
        visited, unseen := UnseenSuccessors(g, id, visited);
        queue := queue + unseen;
      }
      FrontierStep(g, open, start, visited0, processed, queue0, visited, queue);
      processed := processed + {id};
      VisitedBounded(g, open, start, visited, processed, queue);
    }
    FrontierDone(g, open, start, visited, processed);
  }

  /** The body of a manager loop: everything reachable from its first node without
      passing the manager. */
  method CollectLoopBody(g: Graph, managerId: string, firstBodyNode: string) returns (result: set<string>)
    ensures forall x :: x in result <==> x != managerId && Reachable(g, Avoiding({managerId}), firstBodyNode, x)
  {
    result := CollectReachable(g, firstBodyNode, {managerId});
  }

  // ---- the nearest common fan-in ----------------------------------------------

  predicate IsFanIn(g: Graph, id: string)
  {
    var n := FindNode(g, id);
    n.Some? && n.value.nodeType == FAN_IN
  }

  /** The first search goes on only through existing nodes that are not fan-ins. */
  function PassThrough(g: Graph): string -> bool
  {
    (id: string) => id in Ids(g) && !IsFanIn(g, id)
  }

  /** The fan-ins a branch reaches without crossing another fan-in. */
  ghost function FanIns(g: Graph, start: string): set<string>
  {
    set x | x in Ids(g) && IsFanIn(g, x) && Reachable(g, PassThrough(g), start, x)
  }

  /** The fan-ins that every branch reaches in this way. */
  ghost function CommonFanIns(g: Graph, starts: seq<string>): set<string>
  {
    set x | x in Ids(g) && IsFanIn(g, x) && forall s :: s in starts ==> Reachable(g, PassThrough(g), s, x)
  }

  method FanInsFrom(g: Graph, start: string) returns (fanIns: set<string>)
    ensures fanIns == FanIns(g, start)
  {
    ghost var open := PassThrough(g);
    fanIns := {};
    var visited := {start};
    var queue := [start];
    ghost var processed := {};
    FrontierStart(g, open, start);
    while queue != []
      invariant Frontier(g, open, start, visited, processed, queue)
      invariant forall x :: x in fanIns <==> x in processed && IsFanIn(g, x)
      decreases Universe(g, start) - visited, |queue|
    {
      ghost var visited0, queue0 := visited, queue;
      var id := queue[0];
      queue := queue[1..];
      var node := FindNode(g, id);
      if node.Some? {
        if node.value.nodeType == FAN_IN {
          fanIns := fanIns + {id};
        } else {
          var unseen;
          visited, unseen := UnseenSuccessors(g, id, visited);
          queue := queue + unseen;
        }
      }
      FrontierStep(g, open, start, visited0, processed, queue0, visited, queue);
      processed := processed + {id};
      VisitedBounded(g, open, start, visited, processed, queue);
    }
    FrontierDone(g, open, start, visited, processed);
  }

  /** There is a walk of `n` edges from `a` to `b`. */
  ghost predicate HasWalk(g: Graph, a: string, b: string, n: nat)
  {
    exists p :: WalkFromTo(g, Everywhere(), a, b, p) && |p| == n + 1
  }

  lemma WalkSnoc(g: Graph, a: string, b: string, c: string, n: nat)
    requires HasWalk(g, a, b, n) && c in Succ(g, b)
    ensures HasWalk(g, a, c, n + 1)
  {
    var p :| WalkFromTo(g, Everywhere(), a, b, p) && |p| == n + 1;
    assert WalkFromTo(g, Everywhere(), a, c, p + [c]) && |p + [c]| == n + 2;
  }

  datatype Item = Item(id: string, depth: int)

  ghost predicate Ordered(queue: seq<Item>, lo: int)
  {
    && (forall i :: 0 <= i < |queue| ==> lo <= queue[i].depth <= lo + 1)
    && (forall i, j :: 0 <= i <= j < |queue| ==> queue[i].depth <= queue[j].depth)
  }

  /** Every recorded depth is the length of some walk. */
  ghost predicate Sound(g: Graph, start: string, dist: map<string, int>)
  {
    && dist.Keys <= Universe(g, start)
    && (forall x :: x in dist ==> dist[x] >= 0 && HasWalk(g, start, x, dist[x]))
  }

  /** A search by distance in progress: `dist` is the depth at which each node was
      queued, and nothing on the queue is shallower than `lo`. */
  ghost predicate Layered(g: Graph, start: string, dist: map<string, int>, processed: set<string>,
                          queue: seq<Item>, lo: int)
  {
    && start in dist && dist[start] == 0
    && Accounted(dist, processed, queue, lo)
    && Ordered(queue, lo)
    && (forall x :: x in processed ==> Expanded(g, dist, x))
  }

  /** Every node with a depth is processed or on the queue at that depth. */
  ghost predicate Accounted(dist: map<string, int>, processed: set<string>, queue: seq<Item>, lo: int)
  {
    && (forall x :: x in dist ==> x in processed || Item(x, dist[x]) in queue)
    && (forall x :: x in processed ==> x in dist && dist[x] <= lo)
    && (forall c :: c in queue ==> c.id in dist && dist[c.id] == c.depth)
  }

  /** Every successor of `x` was queued at most one level below it. */
  ghost predicate Expanded(g: Graph, dist: map<string, int>, x: string)
  {
    x in dist && forall y :: y in Succ(g, x) ==> y in dist && dist[y] <= dist[x] + 1
  }

  /** Along any walk the search is never behind: either the end was queued at no
      greater depth, or some node on the queue is still shallower. */
  lemma {:induction false} NeverBehind(g: Graph, start: string, dist: map<string, int>, processed: set<string>,
                                       queue: seq<Item>, lo: int, p: seq<string>)
    requires Layered(g, start, dist, processed, queue, lo)
    requires Walk(g, Everywhere(), p) && p[0] == start
    ensures (p[|p| - 1] in dist && dist[p[|p| - 1]] <= |p| - 1) || (queue != [] && lo < |p| - 1)
  {
    if |p| > 1 {
      var q := p[..|p| - 1];
      NeverBehind(g, start, dist, processed, queue, lo, q);
      assert q[|q| - 1] in dist && q[|q| - 1] in processed ==> Expanded(g, dist, q[|q| - 1]);
    }
  }

  function AtDepth(ids: seq<string>, depth: int): seq<Item>
  {
    seq(|ids|, i requires 0 <= i < |ids| => Item(ids[i], depth))
  }

  ghost function Deepen(dist: map<string, int>, unseen: seq<string>, depth: int): map<string, int>
  {
    map x | x in dist.Keys + (set y | y in unseen) :: if x in dist then dist[x] else depth
  }

  /** The unseen successors of `id` get sound depths. */
  lemma SoundExpand(g: Graph, start: string, dist: map<string, int>, id: string, unseen: seq<string>)
    requires Sound(g, start, dist) && id in dist
    requires forall x :: x in unseen ==> x in Succ(g, id)
    ensures Sound(g, start, Deepen(dist, unseen, dist[id] + 1))
  {
    SuccInUniverse(g, start, id);
    forall x | x in unseen ensures HasWalk(g, start, x, dist[id] + 1) {
      WalkSnoc(g, start, id, x, dist[id]);
    }
  }

  lemma OrderedExpand(queue: seq<Item>, lo: int, unseen: seq<string>)
    requires queue != [] && Ordered(queue, lo)
    ensures Ordered(queue[1..] + AtDepth(unseen, queue[0].depth + 1), queue[0].depth)
  {
    var queue' := queue[1..] + AtDepth(unseen, queue[0].depth + 1);
    forall i | 0 <= i < |queue'| ensures queue[0].depth <= queue'[i].depth <= queue[0].depth + 1 {
      if i < |queue| - 1 { assert queue'[i] == queue[i + 1]; }
    }
    forall i, j | 0 <= i <= j < |queue'| ensures queue'[i].depth <= queue'[j].depth {
      if j < |queue| - 1 { assert queue'[i] == queue[i + 1] && queue'[j] == queue[j + 1]; }
    }
  }

  lemma AtDepthHolds(unseen: seq<string>, depth: int)
    ensures forall c :: c in AtDepth(unseen, depth) <==> c.id in unseen && c.depth == depth
  {
    var more := AtDepth(unseen, depth);
    forall x | x in unseen ensures Item(x, depth) in more {
      var i :| 0 <= i < |unseen| && unseen[i] == x;
      assert more[i] == Item(x, depth);
    }
  }

  lemma AccountedExpand(dist: map<string, int>, processed: set<string>, queue: seq<Item>, lo: int, unseen: seq<string>)
    requires queue != [] && Accounted(dist, processed, queue, lo) && lo <= queue[0].depth
    requires forall x :: x in unseen ==> x !in dist
    ensures var d := queue[0].depth;
            Accounted(Deepen(dist, unseen, d + 1), processed + {queue[0].id}, queue[1..] + AtDepth(unseen, d + 1), d)
  {
    hide AtDepth;
    var d := queue[0].depth;
    var rest, more := queue[1..], AtDepth(unseen, d + 1);
    var dist', processed' := Deepen(dist, unseen, d + 1), processed + {queue[0].id};
    assert queue[0] in queue;
    assert forall c :: c in queue <==> c == queue[0] || c in rest;
    AtDepthHolds(unseen, d + 1);
    forall x | x in dist' ensures x in processed' || Item(x, dist'[x]) in rest + more {
      if x in dist {
        assert x in processed || Item(x, dist[x]) in queue;
      } else {
        assert Item(x, dist'[x]) in more;
      }
    }
  }

  lemma ExpandedExpand(g: Graph, dist: map<string, int>, processed: set<string>, id: string, unseen: seq<string>)
    requires forall x :: x in processed ==> Expanded(g, dist, x)
    requires id in dist && forall x :: x in unseen <==> x in Succ(g, id) && x !in dist
    requires forall x :: x in dist ==> dist[x] <= dist[id] + 1
    ensures forall x :: x in processed + {id} ==> Expanded(g, Deepen(dist, unseen, dist[id] + 1), x)
  {
    var dist' := Deepen(dist, unseen, dist[id] + 1);
    forall x | x in processed ensures Expanded(g, dist', x) {
      assert Expanded(g, dist, x);
    }
  }

  lemma DepthsBounded(g: Graph, start: string, dist: map<string, int>, processed: set<string>, queue: seq<Item>,
                      lo: int)
    requires queue != [] && Layered(g, start, dist, processed, queue, lo)
    ensures forall x :: x in dist ==> dist[x] <= queue[0].depth + 1
  {
    forall x | x in dist ensures dist[x] <= queue[0].depth + 1 {
      assert x in processed || Item(x, dist[x]) in queue;
    }
  }

  /** Dequeueing the head and queueing its unseen successors keeps the search sound
      and layered. */
  lemma ExpandStep(g: Graph, start: string, dist: map<string, int>, processed: set<string>, queue: seq<Item>,
                   lo: int, unseen: seq<string>)
    requires queue != [] && Layered(g, start, dist, processed, queue, lo) && Sound(g, start, dist)
    requires forall x :: x in unseen <==> x in Succ(g, queue[0].id) && x !in dist
    ensures var d := queue[0].depth; var dist' := Deepen(dist, unseen, d + 1);
            && Layered(g, start, dist', processed + {queue[0].id}, queue[1..] + AtDepth(unseen, d + 1), d)
            && Sound(g, start, dist')
            && dist'.Keys == dist.Keys + Succ(g, queue[0].id)
  {
    assert queue[0] in queue;
    SoundExpand(g, start, dist, queue[0].id, unseen);
    DepthsBounded(g, start, dist, processed, queue, lo);
    ExpandedExpand(g, dist, processed, queue[0].id, unseen);
    AccountedExpand(dist, processed, queue, lo, unseen);
    OrderedExpand(queue, lo, unseen);
  }

  /** When the target comes to the head of the queue its depth is its distance. */
  lemma HeadIsNearest(g: Graph, start: string, dist: map<string, int>, processed: set<string>, queue: seq<Item>,
                      lo: int)
    requires queue != [] && Layered(g, start, dist, processed, queue, lo) && Sound(g, start, dist)
    ensures queue[0].depth >= 0 && HasWalk(g, start, queue[0].id, queue[0].depth)
    ensures forall n: nat :: HasWalk(g, start, queue[0].id, n) ==> queue[0].depth <= n
  {
    assert queue[0] in queue;
    forall n: nat | HasWalk(g, start, queue[0].id, n) ensures queue[0].depth <= n {
      var p :| WalkFromTo(g, Everywhere(), start, queue[0].id, p) && |p| == n + 1;
      NeverBehind(g, start, dist, processed, queue, queue[0].depth, p);
    }
  }

  /** When the queue runs out, everything with a walk has been processed. */
  lemma AllProcessed(g: Graph, start: string, dist: map<string, int>, processed: set<string>, lo: int, target: string)
    requires Layered(g, start, dist, processed, [], lo)
    ensures forall n: nat :: HasWalk(g, start, target, n) ==> target in processed
  {
    forall n: nat | HasWalk(g, start, target, n) ensures target in processed {
      var p :| WalkFromTo(g, Everywhere(), start, target, p) && |p| == n + 1;
      NeverBehind(g, start, dist, processed, [], lo, p);
    }
  }

  lemma LayeredStart(g: Graph, start: string)
    ensures Layered(g, start, map[start := 0], {}, [Item(start, 0)], 0)
    ensures Sound(g, start, map[start := 0])
  {
    assert WalkFromTo(g, Everywhere(), start, start, [start]) && |[start]| == 1;
    assert Item(start, 0) in [Item(start, 0)];
  }

  /** Dequeue the head and queue its unseen successors one level deeper. */
  method ExpandHead(g: Graph, start: string, visited0: set<string>, queue0: seq<Item>,
                    ghost dist0: map<string, int>, ghost processed: set<string>, ghost lo: int)
    returns (visited: set<string>, queue: seq<Item>, ghost dist: map<string, int>)
    requires queue0 != [] && Layered(g, start, dist0, processed, queue0, lo)
    requires Sound(g, start, dist0) && visited0 == dist0.Keys
    ensures Layered(g, start, dist, processed + {queue0[0].id}, queue, queue0[0].depth)
    ensures Sound(g, start, dist) && visited == dist.Keys
    ensures visited == visited0 + Succ(g, queue0[0].id)
    ensures visited == visited0 ==> queue == queue0[1..]
  {
    hide Sound;
    hide Layered;
    var head := queue0[0];
    var unseen;
    visited, unseen := UnseenSuccessors(g, head.id, visited0);
    queue := queue0[1..] + AtDepth(unseen, head.depth + 1);
    dist := Deepen(dist0, unseen, head.depth + 1);
    ExpandStep(g, start, dist0, processed, queue0, lo, unseen);
  }

  lemma FewerUnseen(g: Graph, start: string, id: string, visited: set<string>)
    ensures var u := Universe(g, start); var visited' := visited + Succ(g, id);
            visited' == visited || u - visited' < u - visited
  {
    SuccInUniverse(g, start, id);
    hide Universe, Succ;
    if x :| x in Succ(g, id) && x !in visited {
      assert x in Universe(g, start) - visited;
    } else {
      assert visited + Succ(g, id) == visited;
    }
  }

  /** The distance search: the length of a shortest walk, if there is one. */
  method ShortestDistance(g: Graph, start: string, target: string) returns (d: Option<nat>)
    ensures d.Some? ==> HasWalk(g, start, target, d.value)
    ensures forall n: nat :: HasWalk(g, start, target, n) ==> d.Some? && d.value <= n
  {
    hide Layered, Universe, Sound, HasWalk;
    var queue := [Item(start, 0)];
    var visited := {start};
    ghost var dist: map<string, int> := map[start := 0];
    ghost var processed: set<string> := {};
    ghost var lo := 0;
    LayeredStart(g, start);
    while queue != []
      invariant Layered(g, start, dist, processed, queue, lo)
      invariant Sound(g, start, dist) && visited == dist.Keys && target !in processed
      decreases Universe(g, start) - visited, |queue|
    {
      var cur := queue[0];
      if cur.id == target {
        assert cur in queue;
        HeadIsNearest(g, start, dist, processed, queue, lo);
        return Some(cur.depth);
      }
      ghost var before := visited;
      visited, queue, dist := ExpandHead(g, start, visited, queue, dist, processed, lo);
      processed, lo := processed + {cur.id}, cur.depth;
      FewerUnseen(g, start, cur.id, before);
    }
    AllProcessed(g, start, dist, processed, lo, target);
    return None;
  }

  // ---- choosing among the common fan-ins -------------------------------------

  const UNREACHED := 999999

  /** Some branch start is `n` edges away from `id`. */
  ghost predicate AtDistance(g: Graph, starts: seq<string>, id: string, n: nat)
  {
    exists s :: s in starts && HasWalk(g, s, id, n)
  }

  /** `id` at distance `d` beats every member of `among` at every distance in order of
      distance, ties going to the smaller id. */
  ghost predicate Nearest(g: Graph, starts: seq<string>, among: set<string>, id: string, d: nat)
  {
    && id in among && AtDistance(g, starts, id, d)
    && forall x, n: nat :: x in among && AtDistance(g, starts, x, n) ==> d < n || (d == n && !Less(x, id))
  }

  /** What find_common_fan_in answers, `common` being the fan-ins every branch reaches. */
  ghost predicate FanInChoice(g: Graph, starts: seq<string>, common: set<string>, r: string)
  {
    if common == {} then
      r == ""
    else if |common| == 1 then
      r in common
    else if exists x, n: nat :: x in common && AtDistance(g, starts, x, n) && n < UNREACHED then
      exists d: nat :: d < UNREACHED && Nearest(g, starts, common, r, d)
    else
      r == ""
  }

  /** `(best, id)` is at least as good as a candidate `x` at distance `n`. */
  ghost predicate Dominates(best: int, id: string, x: string, n: int)
  {
    n >= UNREACHED || best < n || (best == n && !Less(x, id))
  }

  /** ... as every member of `xs` at every distance from `starts`. */
  ghost predicate BestAmong(g: Graph, starts: seq<string>, xs: set<string>, best: int, id: string)
  {
    forall x, n: nat :: x in xs && AtDistance(g, starts, x, n) ==> Dominates(best, id, x, n)
  }

  predicate Better(best': int, id': string, best: int, id: string)
  {
    best' < best || (best' == best && Less(id', id))
  }

  lemma BestImproves(g: Graph, starts: seq<string>, xs: set<string>, best: int, id: string, best': int, id': string)
    requires BestAmong(g, starts, xs, best, id) && Better(best', id', best, id)
    ensures BestAmong(g, starts, xs, best', id')
  {
    forall x, n: nat | x in xs && AtDistance(g, starts, x, n) ensures Dominates(best', id', x, n) {
      assert Dominates(best, id, x, n);
      if best' == best == n && Less(x, id') { LessTransitive(x, id', id); }
    }
  }

  /** Taking one more branch start into account for candidate `x`. */
  lemma BestNextStart(g: Graph, starts: seq<string>, s: string, x: string, d: Option<nat>, best: int, id: string)
    requires BestAmong(g, starts, {x}, best, id)
    requires forall n: nat :: HasWalk(g, s, x, n) ==> d.Some? && d.value <= n
    requires d.Some? ==> Dominates(best, id, x, d.value)
    ensures BestAmong(g, starts + [s], {x}, best, id)
  {
    forall n: nat | AtDistance(g, starts + [s], x, n) ensures Dominates(best, id, x, n) {
      var t :| t in starts + [s] && HasWalk(g, t, x, n);
      if t in starts { assert AtDistance(g, starts, x, n); }
    }
  }

  method FindCommonFanIn(g: Graph, branchStarts: seq<string>) returns (r: string)
    ensures branchStarts == [] ==> r == ""
    ensures branchStarts != [] ==> FanInChoice(g, branchStarts, CommonFanIns(g, branchStarts), r)
  {
    if branchStarts == [] {
      return "";
    }
    var perBranch: seq<set<string>> := [];
    for k := 0 to |branchStarts|
      invariant |perBranch| == k && forall i :: 0 <= i < k ==> perBranch[i] == FanIns(g, branchStarts[i])
    {
      var fanIns := FanInsFrom(g, branchStarts[k]);
      perBranch := perBranch + [fanIns];
    }
    var common := perBranch[0];
    for i := 1 to |perBranch|
      invariant forall x :: x in common <==> forall k :: 0 <= k < i ==> x in perBranch[k]
    {
      common := set x | x in common && x in perBranch[i];
    }
    CommonIsIntersection(g, branchStarts, perBranch, common);
    if common == {} {
      return "";
    }
    if |common| == 1 {
      r :| r in common;
      return;
    }
    r := PickNearest(g, branchStarts, common);
  }

  lemma CommonIsIntersection(g: Graph, starts: seq<string>, perBranch: seq<set<string>>, common: set<string>)
    requires starts != [] && |perBranch| == |starts|
    requires forall i :: 0 <= i < |starts| ==> perBranch[i] == FanIns(g, starts[i])
    requires forall x :: x in common <==> forall k :: 0 <= k < |starts| ==> x in perBranch[k]
    ensures common == CommonFanIns(g, starts)
  {
    forall x ensures x in common <==> x in CommonFanIns(g, starts) {
      if x in common {
        assert x in perBranch[0];
        forall s | s in starts ensures Reachable(g, PassThrough(g), s, x) {
          var k :| 0 <= k < |starts| && starts[k] == s;
          assert x in perBranch[k];
        }
      }
    }
  }

  /** Among several common fan-ins, the nearest to any branch start; the order in
      which candidates are tried does not matter. */
  method PickNearest(g: Graph, branchStarts: seq<string>, common: set<string>) returns (bestId: string)
    requires |common| > 1
    ensures FanInChoice(g, branchStarts, common, bestId)
  {
    var bestDist: int := UNREACHED;
    bestId := "";
    var rest := common;
    while rest != {}
      invariant rest <= common
      invariant Candidate(g, branchStarts, common, bestDist, bestId)
      invariant BestAmong(g, branchStarts, common - rest, bestDist, bestId)
    {
      var fanIn :| fanIn in rest;
      for k := 0 to |branchStarts|
        invariant Candidate(g, branchStarts, common, bestDist, bestId)
        invariant BestAmong(g, branchStarts, common - rest, bestDist, bestId)
        invariant BestAmong(g, branchStarts[..k], {fanIn}, bestDist, bestId)
      {
        var d := ShortestDistance(g, branchStarts[k], fanIn);
        if d.Some? && Better(d.value, fanIn, bestDist, bestId) {
          BestImproves(g, branchStarts, common - rest, bestDist, bestId, d.value, fanIn);
          BestImproves(g, branchStarts[..k], {fanIn}, bestDist, bestId, d.value, fanIn);
          LessTotal(fanIn, fanIn);
          bestDist, bestId := d.value, fanIn;
        }
        BestNextStart(g, branchStarts[..k], branchStarts[k], fanIn, d, bestDist, bestId);
        assert branchStarts[..k + 1] == branchStarts[..k] + [branchStarts[k]];
      }
      assert branchStarts[..|branchStarts|] == branchStarts;
      rest := rest - {fanIn};
    }
    CandidateIsChoice(g, branchStarts, common, bestDist, bestId);
  }

  /** The running best is a candidate actually met, or still the initial value. */
  ghost predicate Candidate(g: Graph, starts: seq<string>, common: set<string>, best: int, id: string)
  {
    if best == UNREACHED then id == "" else 0 <= best < UNREACHED && id in common && AtDistance(g, starts, id, best)
  }

  lemma CandidateIsChoice(g: Graph, starts: seq<string>, common: set<string>, best: int, id: string)
    requires |common| > 1 && Candidate(g, starts, common, best, id) && BestAmong(g, starts, common, best, id)
    ensures FanInChoice(g, starts, common, id)
  {
    if best == UNREACHED {
      forall x, n: nat | x in common && AtDistance(g, starts, x, n) ensures n >= UNREACHED {
        assert Dominates(best, id, x, n);
      }
    } else {
      forall x, n: nat | x in common && AtDistance(g, starts, x, n) ensures best < n || (best == n && !Less(x, id)) {
        assert Dominates(best, id, x, n);
      }
      assert Nearest(g, starts, common, id, best);
    }
  }

  // ---- what the choice means ---------------------------------------------------

  /** The answer depends only on which branches there are, not on their order. */
  lemma FanInChoiceIgnoresOrder(g: Graph, starts1: seq<string>, starts2: seq<string>, r1: string, r2: string)
    requires forall s :: s in starts1 <==> s in starts2
    requires FanInChoice(g, starts1, CommonFanIns(g, starts1), r1)
    requires FanInChoice(g, starts2, CommonFanIns(g, starts2), r2)
    ensures r1 == r2
  {
    var common := CommonFanIns(g, starts1);
    assert CommonFanIns(g, starts2) == common;
    assert forall x, n: nat :: AtDistance(g, starts1, x, n) <==> AtDistance(g, starts2, x, n);
    if common == {} {
    } else if |common| == 1 {
      SingletonUnique(common, r1, r2);
    } else if exists x, n: nat :: x in common && AtDistance(g, starts1, x, n) && n < UNREACHED {
      var d1: nat :| d1 < UNREACHED && Nearest(g, starts1, common, r1, d1);
      var d2: nat :| d2 < UNREACHED && Nearest(g, starts2, common, r2, d2);
      NearestUnique(g, starts1, starts2, common, r1, d1, r2, d2);
    }
  }

  lemma NearestUnique(g: Graph, starts1: seq<string>, starts2: seq<string>, among: set<string>,
                      r1: string, d1: nat, r2: string, d2: nat)
    requires forall x, n: nat :: AtDistance(g, starts1, x, n) <==> AtDistance(g, starts2, x, n)
    requires Nearest(g, starts1, among, r1, d1) && Nearest(g, starts2, among, r2, d2)
    ensures r1 == r2
  {
    LessTotal(r1, r2);
  }

  lemma SingletonUnique(s: set<string>, a: string, b: string)
    requires |s| == 1 && a in s && b in s
    ensures a == b
  {
    SubsetSize({a, b}, s);
  }

  ghost predicate ShortestWalk(g: Graph, open: string -> bool, a: string, b: string, p: seq<string>)
  {
    && WalkFromTo(g, open, a, b, p)
    && forall q :: WalkFromTo(g, open, a, b, q) ==> |p| <= |q|
  }

  lemma CutLoop(g: Graph, open: string -> bool, a: string, b: string, p: seq<string>, i: nat, j: nat)
    requires WalkFromTo(g, open, a, b, p) && i < j < |p| && p[i] == p[j]
    ensures WalkFromTo(g, open, a, b, p[..i] + p[j..])
  {
    var q := p[..i] + p[j..];
    forall k | 0 <= k < |q| - 1 ensures open(q[k]) && q[k + 1] in Succ(g, q[k]) {
      if k < i - 1 {
      } else if k == i - 1 {
        assert q[k] == p[k] && q[k + 1] == p[j] == p[k + 1];
      } else {
        assert q[k] == p[k - i + j] && q[k + 1] == p[k - i + j + 1];
      }
    }
  }

  /** A shortest walk meets no node twice, so it is shorter than the node count. */
  lemma ShortestWalkIsShort(g: Graph, open: string -> bool, a: string, b: string, p: seq<string>)
    requires ShortestWalk(g, open, a, b, p)
    ensures forall i, j :: 0 <= i < j < |p| ==> p[i] != p[j]
    ensures |p| <= |Universe(g, a)|
  {
    forall i, j | 0 <= i < j < |p| ensures p[i] != p[j] {
      if p[i] == p[j] {
        CutLoop(g, open, a, b, p, i, j);
      }
    }
    forall i | 0 <= i < |p| ensures p[i] in Universe(g, a) {
      if i > 0 { SuccInUniverse(g, a, p[i - 1]); }
    }
    DistinctFits(p, Universe(g, a));
  }

  lemma {:induction false} Shorten(g: Graph, open: string -> bool, a: string, b: string,
                                   p: seq<string>) returns (q: seq<string>)
    requires WalkFromTo(g, open, a, b, p)
    ensures ShortestWalk(g, open, a, b, q)
    decreases |p|
  {
    if shorter :| WalkFromTo(g, open, a, b, shorter) && |shorter| < |p| {
      q := Shorten(g, open, a, b, shorter);
    } else {
      q := p;
    }
  }

  lemma {:induction false} DistinctFits(p: seq<string>, s: set<string>)
    requires forall i, j :: 0 <= i < j < |p| ==> p[i] != p[j]
    requires forall i :: 0 <= i < |p| ==> p[i] in s
    ensures |p| <= |s|
  {
    if p != [] {
      DistinctFits(p[1..], s - {p[0]});
    }
  }

  lemma {:induction false} LeastDistance(g: Graph, starts: seq<string>, id: string, n: nat) returns (d: nat)
    requires AtDistance(g, starts, id, n)
    ensures d <= n && AtDistance(g, starts, id, d) && forall m: nat :: AtDistance(g, starts, id, m) ==> d <= m
  {
    if m: nat :| m < n && AtDistance(g, starts, id, m) {
      d := LeastDistance(g, starts, id, m);
    } else {
      d := n;
    }
  }

  /** On a graph of at most 999999 nodes the answer is the common fan-in nearest to any
      branch start, and "" when there is none; a nearest fan-in called "" reads as none. */
  lemma FanInChoiceOnSmallGraph(g: Graph, starts: seq<string>, r: string)
    requires |Ids(g)| <= UNREACHED && starts != []
    requires FanInChoice(g, starts, CommonFanIns(g, starts), r)
    ensures var common := CommonFanIns(g, starts);
            && (common != {} ==> exists d: nat :: Nearest(g, starts, common, r, d))
            && (r == "" <==> common == {} || exists d: nat :: Nearest(g, starts, common, "", d))
  {
    var common := CommonFanIns(g, starts);
    if x :| x in common {
      var d := CloseBy(g, starts, x);
      if |common| == 1 {
        var dr := CloseBy(g, starts, r);
        var e := LeastDistance(g, starts, r, dr);
        forall y, n: nat | y in common && AtDistance(g, starts, y, n) ensures e < n || (e == n && !Less(y, r)) {
          SingletonUnique(common, y, r);
          LessTotal(y, r);
        }
        assert Nearest(g, starts, common, r, e);
      }
      var e: nat :| Nearest(g, starts, common, r, e);
      if e': nat :| Nearest(g, starts, common, "", e') {
        NearestUnique(g, starts, starts, common, r, e, "", e');
      }
    }
  }

  /** A common fan-in is closer than the node count to the first branch start. */
  lemma CloseBy(g: Graph, starts: seq<string>, x: string) returns (d: nat)
    requires starts != [] && x in CommonFanIns(g, starts)
    ensures AtDistance(g, starts, x, d) && d < |Ids(g)|
  {
    var s := starts[0];
    assert Reachable(g, PassThrough(g), s, x);
    var p :| WalkFromTo(g, PassThrough(g), s, x, p);
    var q := Shorten(g, PassThrough(g), s, x, p);
    ShortestWalkIsShort(g, PassThrough(g), s, x, q);
    DistinctFits(q, Ids(g));
    d := |q| - 1;
    assert WalkFromTo(g, Everywhere(), s, x, q);
    assert HasWalk(g, s, x, d);
  }

  /** A graph of three nodes on which both branches lead to a fan-in called "". */
  function NamelessFanIn(): Graph
  {
    Graph("", [Node("a", CODERGEN, map[]), Node("b", CODERGEN, map[]), Node("", FAN_IN, map[])],
          [Edge("a", "", map[]), Edge("b", "", map[])], map[])
  }

  lemma LeadsToNameless(s: string)
    requires s == "a" || s == "b"
    ensures Reachable(NamelessFanIn(), PassThrough(NamelessFanIn()), s, "")
  {
    var g := NamelessFanIn();
    hide Reachable;
    assert Edge(s, "", map[]) in g.edges by {
      assert g.edges[0] == Edge("a", "", map[]) && g.edges[1] == Edge("b", "", map[]);
    }
    SuccMember(g, s, "");
    ReachableSelf(g, PassThrough(g), s);
    ReachableStep(g, PassThrough(g), s, s, "");
  }

  lemma OneFanIn(x: string)
    ensures x in Ids(NamelessFanIn()) && IsFanIn(NamelessFanIn(), x) <==> x == ""
  {
    var nodes := NamelessFanIn().nodes;
    assert nodes[1..][1..] == [Node("", FAN_IN, map[])];
  }

  /** The branches meet there, yet the answer reads as "no common fan-in". */
  lemma NamelessFanInReadsAsNone(r: string)
    requires FanInChoice(NamelessFanIn(), ["a", "b"], CommonFanIns(NamelessFanIn(), ["a", "b"]), r)
    ensures CommonFanIns(NamelessFanIn(), ["a", "b"]) == {""} && r == ""
  {
    hide Reachable, PassThrough, Nearest, AtDistance, NamelessFanIn, Ids, IsFanIn;
    var g := NamelessFanIn();
    forall x ensures x in Ids(g) && IsFanIn(g, x) <==> x == "" { OneFanIn(x); }
    LeadsToNameless("a");
    LeadsToNameless("b");
    assert CommonFanIns(g, ["a", "b"]) == {""};
  }

  lemma {:induction false} SubsetSize(a: set<string>, b: set<string>)
    requires a <= b
    ensures |a| <= |b|
  {
    if x :| x in a {
      SubsetSize(a - {x}, b - {x});
    }
  }
}
