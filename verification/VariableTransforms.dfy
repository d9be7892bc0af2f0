/** VariableExpansionTransform::apply: every attribute of every node is expanded in place
    before a run starts (src/engine/variable_expansion_transform.cpp). */
module VariableTransforms {
  import opened Text
  import opened Graphs
  import opened Outcomes
  import opened VariableExpansion

  /** A node part-way through its attributes, and what has been reported of it. */
  datatype Progress = Progress(node: Node, reports: seq<Unresolved>)

  /** One attribute: placeholders first, then references. The node's own goal, as it
      stands by then, is what `$goal` means. */
  function AttributeExpanded(p: Progress, key: string, ctx: Context, graphAttrs: Attributes): Progress
  {
    var value := Get(p.node.attrs, key);
    if value == "" then p
    else
      var scope := Scope(ctx, graphAttrs, p.node);
      var filled := Filled(value, ctx);
      Progress(p.node.(attrs := p.node.attrs[key := Expanded(filled, scope)]), p.reports + Reports(filled, scope))
  }

  function KeysExpanded(p: Progress, keys: seq<string>, ctx: Context, graphAttrs: Attributes): Progress
  {
    if keys == [] then p
    else AttributeExpanded(KeysExpanded(p, keys[..|keys| - 1], ctx, graphAttrs), keys[|keys| - 1], ctx, graphAttrs)
  }

  function NodeExpanded(n: Node, ctx: Context, graphAttrs: Attributes): Progress
  {
    KeysExpanded(Progress(n, []), SortedKeys(n.attrs.Keys), ctx, graphAttrs)
  }

  function NodesExpanded(nodes: seq<Node>, ctx: Context, graphAttrs: Attributes): (r: seq<Node>)
    ensures |r| == |nodes|
  {
    seq(|nodes|, i requires 0 <= i < |nodes| => NodeExpanded(nodes[i], ctx, graphAttrs).node)
  }

  function NodesReports(nodes: seq<Node>, ctx: Context, graphAttrs: Attributes): seq<Unresolved>
  {
    if nodes == [] then []
    else NodesReports(nodes[..|nodes| - 1], ctx, graphAttrs) + NodeExpanded(nodes[|nodes| - 1], ctx, graphAttrs).reports
  }

  function Transformed(g: Graph, ctx: Context): Graph
  {
    g.(nodes := NodesExpanded(g.nodes, ctx, g.attrs))
  }

  class VariableExpansionTransform {
    var unresolved: seq<Unresolved>

    constructor ()
      ensures unresolved == []
    {
      unresolved := [];
    }

    method ApplyToAttribute(node0: Node, key: string, ctx: Context, graphAttrs: Attributes) returns (node: Node)
      modifies this
      ensures Progress(node, unresolved) == AttributeExpanded(Progress(node0, old(unresolved)), key, ctx, graphAttrs)
    {
      hide Filled, Expanded, Reports;
      node := node0;
      var value := Get(node.attrs, key);
      if value == "" {
        return;
      }
      var filled := ExpandPlaceholders(value, ctx);
      var expanded, reported := ExpandVariables(filled, Scope(ctx, graphAttrs, node), unresolved);
      unresolved := reported;
      SameValue(node.attrs, key);
      if expanded != value {
        node := node.(attrs := node.attrs[key := expanded]);
      }
    }

    method ApplyToNode(node0: Node, ctx: Context, graphAttrs: Attributes) returns (node: Node)
      modifies this
      ensures node == NodeExpanded(node0, ctx, graphAttrs).node
      ensures unresolved == old(unresolved) + NodeExpanded(node0, ctx, graphAttrs).reports
    {
      hide AttributeExpanded, Sorted;
      node := node0;
      var keys := SortedKeys(node0.attrs.Keys);
      for k := 0 to |keys|
        invariant Progress(node, unresolved)
                  == KeysExpanded(Progress(node0, old(unresolved)), keys[..k], ctx, graphAttrs)
      {
        assert keys[..k + 1][..k] == keys[..k];
        node := ApplyToAttribute(node, keys[k], ctx, graphAttrs);
      }
      assert keys[..|keys|] == keys;
      ReportsAppended(node0, old(unresolved), keys, ctx, graphAttrs);
    }

    method Apply(graph0: Graph, ctx: Context) returns (graph: Graph)
      modifies this
      ensures graph == Transformed(graph0, ctx)
      ensures unresolved == NodesReports(graph0.nodes, ctx, graph0.attrs)
    {
      hide NodeExpanded;
      unresolved := [];
      var nodes := [];
      for k := 0 to |graph0.nodes|
        invariant |nodes| == k && forall i :: 0 <= i < k ==>
                  nodes[i] == NodeExpanded(graph0.nodes[i], ctx, graph0.attrs).node
        invariant unresolved == NodesReports(graph0.nodes[..k], ctx, graph0.attrs)
      {
        assert graph0.nodes[..k + 1][..k] == graph0.nodes[..k];
        var node := ApplyToNode(graph0.nodes[k], ctx, graph0.attrs);
        nodes := nodes + [node];
      }
      assert graph0.nodes[..|graph0.nodes|] == graph0.nodes;
      assert nodes == NodesExpanded(graph0.nodes, ctx, graph0.attrs);
      graph := graph0.(nodes := nodes);
    }
  }

  lemma {:induction false} ReportsAppended(n: Node, before: seq<Unresolved>, keys: seq<string>, ctx: Context,
                                           graphAttrs: Attributes)
    ensures var own := KeysExpanded(Progress(n, []), keys, ctx, graphAttrs);
            KeysExpanded(Progress(n, before), keys, ctx, graphAttrs) == Progress(own.node, before + own.reports)
  {
    hide Filled, Expanded, Reports;
    if keys != [] {
      ReportsAppended(n, before, keys[..|keys| - 1], ctx, graphAttrs);
    }
  }

  lemma SameValue(m: Attributes, key: string)
    ensures Get(m, key) != "" ==> m[key := Get(m, key)] == m
  {
  }

  // ---- what the transform keeps --------------------------------------------------------------------

  /** A node keeps its id, its type and the names of its attributes. */
  lemma {:induction false} NodeKeepsItsShape(p: Progress, keys: seq<string>, ctx: Context, graphAttrs: Attributes)
    ensures var n := KeysExpanded(p, keys, ctx, graphAttrs).node;
            n.id == p.node.id && n.nodeType == p.node.nodeType && n.attrs.Keys == p.node.attrs.Keys
  {
    hide Filled, Expanded, Reports;
    if keys != [] {
      NodeKeepsItsShape(p, keys[..|keys| - 1], ctx, graphAttrs);
    }
  }

  lemma {:induction false} IdsKept(a: seq<Node>, b: seq<Node>)
    requires |a| == |b| && forall i :: 0 <= i < |a| ==> a[i].id == b[i].id
    ensures IdsOf(a) == IdsOf(b)
  {
    if a != [] { IdsKept(a[1..], b[1..]); }
  }

  /** So a closed graph stays closed, with the same ids. */
  lemma TransformKeepsClosed(g: Graph, ctx: Context)
    ensures Ids(Transformed(g, ctx)) == Ids(g) && Transformed(g, ctx).edges == g.edges
    ensures Closed(g) <==> Closed(Transformed(g, ctx))
  {
    hide KeysExpanded;
    forall i | 0 <= i < |g.nodes| ensures Transformed(g, ctx).nodes[i].id == g.nodes[i].id {
      NodeKeepsItsShape(Progress(g.nodes[i], []), SortedKeys(g.nodes[i].attrs.Keys), ctx, g.attrs);
    }
    IdsKept(Transformed(g, ctx).nodes, g.nodes);
  }

  /** An attribute with nothing to expand. */
  ghost predicate Settled(value: string, scope: Scope)
  {
    && !HasEscape(value) && (forall p :: p in Placeholders(value) ==> !Known(p, scope.ctx))
    && NothingResolves(value, scope)
  }

  ghost predicate NodeSettled(n: Node, ctx: Context, graphAttrs: Attributes)
  {
    forall key :: key in n.attrs ==> Settled(n.attrs[key], Scope(ctx, graphAttrs, n))
  }

  /** The early-bound references of the node's attributes, in the order of their names. */
  function NodeReferences(n: Node, keys: seq<string>): seq<Unresolved>
  {
    if keys == [] then []
    else NodeReferences(n, keys[..|keys| - 1]) + EarlyReferences(Segments(Get(n.attrs, keys[|keys| - 1])), n.id)
  }

  lemma {:induction false} SettledNodeUnchanged(n: Node, keys: seq<string>, ctx: Context, graphAttrs: Attributes)
    requires NodeSettled(n, ctx, graphAttrs) && forall k :: k in keys ==> k in n.attrs
    ensures KeysExpanded(Progress(n, []), keys, ctx, graphAttrs) == Progress(n, NodeReferences(n, keys))
  {
    hide Filled, Expanded, Reports, HasEscape, NothingResolves, Placeholders, Known, EarlyReferences, Segments;
    if keys != [] {
      SettledNodeUnchanged(n, keys[..|keys| - 1], ctx, graphAttrs);
      var key := keys[|keys| - 1];
      assert key in keys;
      var value := Get(n.attrs, key);
      var scope := Scope(ctx, graphAttrs, n);
      assert Settled(value, scope);
      UnknownKeysPassThrough(value, ctx);
      UnresolvedTextUnchanged(value, scope);
      if value == "" { NoReferences(n.id); }
      SameValue(n.attrs, key);
    }
  }

  lemma NoReferences(id: string)
    ensures EarlyReferences(Segments(""), id) == []
  {
  }

  /** A graph in which nothing can be expanded is left as it is. */
  lemma SettledGraphUnchanged(g: Graph, ctx: Context)
    requires forall n :: n in g.nodes ==> NodeSettled(n, ctx, g.attrs)
    ensures Transformed(g, ctx) == g
  {
    hide KeysExpanded, NodeSettled;
    forall i | 0 <= i < |g.nodes| ensures Transformed(g, ctx).nodes[i] == g.nodes[i] {
      SettledNodeUnchanged(g.nodes[i], SortedKeys(g.nodes[i].attrs.Keys), ctx, g.attrs);
    }
  }
}
