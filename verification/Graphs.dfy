/** The pipeline graph: src/model/graph.cpp, src/model/attribute_map.cpp. */
module Graphs {
  import opened Text

  type Attributes = map<string, string>

  datatype NodeType =
    | START | EXIT | CODERGEN | CONDITIONAL | PARALLEL
    | FAN_IN | WAIT_HUMAN | TOOL | MANAGER_LOOP | LLMKIT

  datatype Node = Node(id: string, nodeType: NodeType, attrs: Attributes)

  datatype Edge = Edge(from: string, to: string, attrs: Attributes)

  datatype Graph = Graph(name: string, nodes: seq<Node>, edges: seq<Edge>, attrs: Attributes)

  /** `AttributeMap::get` with its default of "". */
  function Get(m: Attributes, key: string): string
  {
    if key in m then m[key] else ""
  }

  /** `AttributeMap::get_bool` returned true. */
  predicate IsTrue(m: Attributes, key: string)
  {
    key in m && (m[key] == "true" || m[key] == "1" || m[key] == "yes")
  }

  function Ids(g: Graph): set<string>
  {
    IdsOf(g.nodes)
  }

  function IdsOf(nodes: seq<Node>): set<string>
  {
    if nodes == [] then {} else {nodes[0].id} + IdsOf(nodes[1..])
  }

  /** The first node with the given id. */
  function FindNode(g: Graph, id: string): (r: Option<Node>)
    ensures r.Some? <==> id in Ids(g)
    ensures r.Some? ==> r.value in g.nodes && r.value.id == id
  {
    FindIn(g.nodes, id)
  }

  function FindIn(nodes: seq<Node>, id: string): (r: Option<Node>)
    ensures r.Some? <==> id in IdsOf(nodes)
    ensures r.Some? ==> r.value in nodes && r.value.id == id
  {
    if nodes == [] then None
    else if nodes[0].id == id then Some(nodes[0])
    else FindIn(nodes[1..], id)
  }

  /** The first node of the given type. */
  function FirstOfType(nodes: seq<Node>, t: NodeType): (r: Option<Node>)
    ensures r.Some? ==> r.value in nodes && r.value.nodeType == t
  {
    if nodes == [] then None
    else if nodes[0].nodeType == t then Some(nodes[0])
    else FirstOfType(nodes[1..], t)
  }

  function Outgoing(edges: seq<Edge>, id: string): seq<Edge>
  {
    if edges == [] then []
    else if edges[0].from == id then [edges[0]] + Outgoing(edges[1..], id)
    else Outgoing(edges[1..], id)
  }

  lemma {:induction false} OutgoingMember(edges: seq<Edge>, id: string)
    ensures forall e :: e in Outgoing(edges, id) <==> e in edges && e.from == id
  {
    if edges != [] {
      OutgoingMember(edges[1..], id);
      assert edges == [edges[0]] + edges[1..];
    }
  }

  lemma {:induction false} OutgoingSnoc(edges: seq<Edge>, e: Edge, id: string)
    ensures Outgoing(edges + [e], id) == Outgoing(edges, id) + if e.from == id then [e] else []
  {
    if edges == [] {
      assert edges + [e] == [e];
    } else {
      assert (edges + [e])[1..] == edges[1..] + [e];
      OutgoingSnoc(edges[1..], e, id);
    }
  }

  method OutgoingEdges(g: Graph, id: string) returns (result: seq<Edge>)
    ensures result == Outgoing(g.edges, id)
  {
    result := [];
    for k := 0 to |g.edges|
      invariant result == Outgoing(g.edges[..k], id)
    {
      assert g.edges[..k + 1] == g.edges[..k] + [g.edges[k]];
      OutgoingSnoc(g.edges[..k], g.edges[k], id);
      if g.edges[k].from == id {
        result := result + [g.edges[k]];
      }
    }
    assert g.edges[..|g.edges|] == g.edges;
  }

  /** Every edge ends in an existing node. */
  ghost predicate Closed(g: Graph)
  {
    forall e :: e in g.edges ==> e.to in Ids(g)
  }

  ghost predicate UniqueIds(g: Graph)
  {
    forall i, j :: 0 <= i < j < |g.nodes| ==> g.nodes[i].id != g.nodes[j].id
  }

  // ---- walks ---------------------------------------------------------------

  function Succ(g: Graph, id: string): set<string>
  {
    Targets(Outgoing(g.edges, id))
  }

  function Targets(edges: seq<Edge>): set<string>
  {
    if edges == [] then {} else {edges[0].to} + Targets(edges[1..])
  }

  lemma {:induction false} TargetsMember(edges: seq<Edge>, id: string)
    ensures id in Targets(edges) <==> exists i :: 0 <= i < |edges| && edges[i].to == id
  {
    if edges != [] {
      TargetsMember(edges[1..], id);
      if i :| 0 <= i < |edges| - 1 && edges[1..][i].to == id {
        assert edges[i + 1].to == id;
      }
    }
  }

  lemma {:induction false} TargetsSnoc(edges: seq<Edge>, e: Edge)
    ensures Targets(edges + [e]) == Targets(edges) + {e.to}
  {
    if edges == [] {
      assert edges + [e] == [e];
    } else {
      assert (edges + [e])[1..] == edges[1..] + [e];
      TargetsSnoc(edges[1..], e);
    }
  }

  lemma SuccMember(g: Graph, a: string, b: string)
    ensures b in Succ(g, a) <==> exists e :: e in g.edges && e.from == a && e.to == b
  {
    TargetsMember(Outgoing(g.edges, a), b);
    OutgoingMember(g.edges, a);
    if e :| e in g.edges && e.from == a && e.to == b {
      assert e in Outgoing(g.edges, a);
    }
  }

  /** Everything a traversal from `start` can meet. */
  function Universe(g: Graph, start: string): set<string>
  {
    {start} + Targets(g.edges)
  }

  lemma SuccInUniverse(g: Graph, start: string, a: string)
    ensures Succ(g, a) <= Universe(g, start)
  {
    forall b | b in Succ(g, a) ensures b in Targets(g.edges) {
      SuccMember(g, a, b);
      TargetsMember(g.edges, b);
    }
  }

  /** A walk that leaves only nodes satisfying `open`. */
  ghost predicate Walk(g: Graph, open: string -> bool, p: seq<string>)
  {
    |p| > 0 && forall i :: 0 <= i < |p| - 1 ==> open(p[i]) && p[i + 1] in Succ(g, p[i])
  }

  ghost predicate WalkFromTo(g: Graph, open: string -> bool, a: string, b: string, p: seq<string>)
  {
    Walk(g, open, p) && p[0] == a && p[|p| - 1] == b
  }

  ghost predicate Reachable(g: Graph, open: string -> bool, a: string, b: string)
  {
    exists p :: WalkFromTo(g, open, a, b, p)
  }

  function Everywhere(): string -> bool
  {
    (_: string) => true
  }

  lemma ReachableSelf(g: Graph, open: string -> bool, a: string)
    ensures Reachable(g, open, a, a)
  {
    assert WalkFromTo(g, open, a, a, [a]);
  }

  lemma ReachableStep(g: Graph, open: string -> bool, a: string, b: string, c: string)
    requires Reachable(g, open, a, b) && open(b) && c in Succ(g, b)
    ensures Reachable(g, open, a, c)
  {
    var p :| WalkFromTo(g, open, a, b, p);
    assert WalkFromTo(g, open, a, c, p + [c]);
  }

  /** What is reachable from `b` is reachable from `a`. */
  lemma {:induction false} WalkOn(g: Graph, open: string -> bool, a: string, p: seq<string>)
    requires Walk(g, open, p) && Reachable(g, open, a, p[0])
    ensures Reachable(g, open, a, p[|p| - 1])
  {
    if |p| > 1 {
      assert p[1] in Succ(g, p[0]);
      ReachableStep(g, open, a, p[0], p[1]);
      WalkOn(g, open, a, p[1..]);
    }
  }

  lemma ReachableThrough(g: Graph, open: string -> bool, a: string, b: string, c: string)
    requires Reachable(g, open, a, b) && Reachable(g, open, b, c)
    ensures Reachable(g, open, a, c)
  {
    var p :| WalkFromTo(g, open, b, c, p);
    WalkOn(g, open, a, p);
  }

  /** A set that contains `a` and every successor of its open members contains
      everything reachable from `a`. */
  lemma {:induction false} ClosedSetContainsWalk(g: Graph, open: string -> bool, s: set<string>, p: seq<string>)
    requires Walk(g, open, p) && p[0] in s
    requires forall x :: x in s && open(x) ==> Succ(g, x) <= s
    ensures p[|p| - 1] in s
  {
    if |p| > 1 {
      assert p[1] in Succ(g, p[0]);
      ClosedSetContainsWalk(g, open, s, p[1..]);
    }
  }

  lemma ClosedSetContainsReachable(g: Graph, open: string -> bool, s: set<string>, a: string)
    requires a in s
    requires forall x :: x in s && open(x) ==> Succ(g, x) <= s
    ensures forall b :: Reachable(g, open, a, b) ==> b in s
  {
    forall b | Reachable(g, open, a, b) ensures b in s {
      var p :| WalkFromTo(g, open, a, b, p);
      ClosedSetContainsWalk(g, open, s, p);
    }
  }

  lemma ReachableInUniverse(g: Graph, open: string -> bool, a: string)
    ensures forall b :: Reachable(g, open, a, b) ==> b in Universe(g, a)
  {
    forall x ensures Succ(g, x) <= Universe(g, a) { SuccInUniverse(g, a, x); }
    ClosedSetContainsReachable(g, open, Universe(g, a), a);
  }
}
