/** From AST to graph: src/parser/graph_builder.cpp. */
module GraphBuilding {
  import opened Text
  import opened Graphs
  import opened Outcomes
  import opened DotAst

  // ---- ids and types -----------------------------------------------------------------

  predicate IsAlnum(c: char)
  {
    '0' <= c <= '9' || 'A' <= c <= 'Z' || 'a' <= c <= 'z'
  }

  predicate KeptInId(c: char)
  {
    IsAlnum(c) || c == '_' || c == '.' || c == '-'
  }

  function Sanitized(id: string): (r: string)
    ensures forall i :: 0 <= i < |r| ==> KeptInId(r[i])
  {
    if id == "" then "" else Sanitized(id[..|id| - 1]) + if KeptInId(id[|id| - 1]) then [id[|id| - 1]] else ""
  }

  method SanitizeNodeId(id: string) returns (result: string)
    ensures result == Sanitized(id)
  {
    result := "";
    for k := 0 to |id|
      invariant result == Sanitized(id[..k])
    {
      assert id[..k + 1][..k] == id[..k];
      if KeptInId(id[k]) {
        result := result + [id[k]];
      }
    }
    assert id[..|id|] == id;
  }

  /** Sanitizing twice changes nothing more. */
  lemma {:induction false} SanitizedAgain(id: string)
    ensures Sanitized(Sanitized(id)) == Sanitized(id)
  {
    if id != "" {
      var front := Sanitized(id[..|id| - 1]);
      SanitizedAgain(id[..|id| - 1]);
      if KeptInId(id[|id| - 1]) {
        assert (front + [id[|id| - 1]])[..|front|] == front;
      } else {
        assert front + "" == front;
      }
    }
  }

  function ResolveNodeType(attrs: Attributes): NodeType
  {
    var shape := Lower(Get(attrs, "shape"));
    if Get(attrs, "handler") == "llmkit" then LLMKIT
    else if shape == "mdiamond" then START
    else if shape == "msquare" then EXIT
    else if shape == "diamond" then CONDITIONAL
    else if shape == "component" then PARALLEL
    else if shape == "trapezium" then FAN_IN
    else if shape == "hexagon" then WAIT_HUMAN
    else if shape == "parallelogram" then TOOL
    else if shape == "house" then MANAGER_LOOP
    else CODERGEN
  }

  // ---- attribute lists -----------------------------------------------------------------

  /** Assigning in order: the last value of a key stays. */
  function Assigned(attrs: Attributes, list: seq<AstAttribute>): Attributes
  {
    if list == [] then attrs
    else
      var last := list[|list| - 1];
      Assigned(attrs, list[..|list| - 1])[last.key := last.value]
  }

  /** Filling in order: a key already present is left alone. */
  function Filled(attrs: Attributes, list: seq<AstAttribute>): Attributes
  {
    if list == [] then attrs
    else
      var last := list[|list| - 1];
      var front := Filled(attrs, list[..|list| - 1]);
      if last.key in front then front else front[last.key := last.value]
  }

  function LastValue(list: seq<AstAttribute>, key: string): Option<string>
  {
    if list == [] then None
    else if list[|list| - 1].key == key then Some(list[|list| - 1].value)
    else LastValue(list[..|list| - 1], key)
  }

  function FirstValue(list: seq<AstAttribute>, key: string): Option<string>
  {
    if list == [] then None
    else if list[0].key == key then Some(list[0].value)
    else FirstValue(list[1..], key)
  }

  function Lookup(attrs: Attributes, key: string): Option<string>
  {
    if key in attrs then Some(attrs[key]) else None
  }

  function OrElse(a: Option<string>, b: Option<string>): Option<string>
  {
    if a.Some? then a else b
  }

  lemma {:induction false} AssignedLookup(attrs: Attributes, list: seq<AstAttribute>, key: string)
    ensures Lookup(Assigned(attrs, list), key) == OrElse(LastValue(list, key), Lookup(attrs, key))
  {
    if list != [] {
      AssignedLookup(attrs, list[..|list| - 1], key);
    }
  }

  lemma {:induction false} FirstValueSnoc(list: seq<AstAttribute>, a: AstAttribute, key: string)
    ensures FirstValue(list + [a], key) == OrElse(FirstValue(list, key), if a.key == key then Some(a.value) else None)
  {
    if list == [] {
      assert list + [a] == [a];
    } else {
      assert (list + [a])[1..] == list[1..] + [a];
      FirstValueSnoc(list[1..], a, key);
    }
  }

  lemma {:induction false} FilledLookup(attrs: Attributes, list: seq<AstAttribute>, key: string)
    ensures Lookup(Filled(attrs, list), key) == OrElse(Lookup(attrs, key), FirstValue(list, key))
  {
    if list != [] {
      var front, last := list[..|list| - 1], list[|list| - 1];
      FilledLookup(attrs, front, key);
      FirstValueSnoc(front, last, key);
      assert list == front + [last];
    }
  }

  // ---- the order in which the builder meets nodes ---------------------------------------

  /** One mention of a node. At top level the node's own attributes are assigned and then
      the defaults fill the gaps; in a subgraph the defaults fill first. An edge end at
      top level takes defaults every time, one in a subgraph only if it is new. */
  datatype Mention =
    | TopNode(id: string, own: seq<AstAttribute>, defaults: Attributes)
    | TopEnd(id: string, defaults: Attributes)
    | SubNode(id: string, own: seq<AstAttribute>, offered: seq<AstAttribute>)
    | SubEnd(id: string, offered: seq<AstAttribute>)

  type NodeTable = map<string, Attributes>

  function RowOf(t: NodeTable, id: string): Attributes
  {
    if id in t then t[id] else map[]
  }

  function Met(t: NodeTable, m: Mention): NodeTable
  {
    var row := RowOf(t, m.id);
    match m
    case TopNode(id, own, defaults) => t[id := defaults + Assigned(row, own)]
    case TopEnd(id, defaults) => t[id := defaults + row]
    case SubNode(id, own, offered) => t[id := Assigned(Filled(row, offered), own)]
    case SubEnd(id, offered) => if id in t then t else t[id := Assigned(map[], offered)]
  }

  function MetAll(t: NodeTable, ms: seq<Mention>): NodeTable
  {
    if ms == [] then t else Met(MetAll(t, ms[..|ms| - 1]), ms[|ms| - 1])
  }

  lemma {:induction false} MetAllConcat(t: NodeTable, ms: seq<Mention>, ns: seq<Mention>)
    ensures MetAll(t, ms + ns) == MetAll(MetAll(t, ms), ns)
  {
    if ns == [] {
      assert ms + ns == ms;
    } else {
      assert (ms + ns)[..|ms + ns| - 1] == ms + ns[..|ns| - 1];
      MetAllConcat(t, ms, ns[..|ns| - 1]);
    }
  }

  // ---- the same as declared by the AST ---------------------------------------------------

  /** The node defaults among default statements, in order. */
  function NodeDefaults(defaults: seq<AstDefaultAttrs>): seq<AstAttribute>
  {
    if defaults == [] then []
    else
      var last := defaults[|defaults| - 1];
      NodeDefaults(defaults[..|defaults| - 1]) + if last.target == "node" then last.attrs else []
  }

  function GraphDefaults(defaults: seq<AstDefaultAttrs>): seq<AstAttribute>
  {
    if defaults == [] then []
    else
      var last := defaults[|defaults| - 1];
      GraphDefaults(defaults[..|defaults| - 1]) + if last.target == "graph" then last.attrs else []
  }

  function TopNodeMentions(nodes: seq<AstNode>, defaults: Attributes): seq<Mention>
  {
    seq(|nodes|, i requires 0 <= i < |nodes| => TopNode(Sanitized(nodes[i].id), nodes[i].attrs, defaults))
  }

  function TopEnds(chain: seq<string>, defaults: Attributes): seq<Mention>
  {
    seq(|chain|, i requires 0 <= i < |chain| => TopEnd(Sanitized(chain[i]), defaults))
  }

  function TopEdgeMentions(edges: seq<AstEdge>, defaults: Attributes): seq<Mention>
  {
    if edges == [] then []
    else TopEdgeMentions(edges[..|edges| - 1], defaults) + TopEnds(edges[|edges| - 1].nodeChain, defaults)
  }

  function SubNodeMentions(nodes: seq<AstNode>, offered: seq<AstAttribute>): seq<Mention>
  {
    seq(|nodes|, i requires 0 <= i < |nodes| => SubNode(Sanitized(nodes[i].id), nodes[i].attrs, offered))
  }

  function SubEnds(chain: seq<string>, offered: seq<AstAttribute>): seq<Mention>
  {
    seq(|chain|, i requires 0 <= i < |chain| => SubEnd(Sanitized(chain[i]), offered))
  }

  function SubEdgeMentions(edges: seq<AstEdge>, offered: seq<AstAttribute>): seq<Mention>
  {
    if edges == [] then []
    else SubEdgeMentions(edges[..|edges| - 1], offered) + SubEnds(edges[|edges| - 1].nodeChain, offered)
  }

  function SubgraphMentions(sub: AstSubgraph, outer: seq<AstDefaultAttrs>): seq<Mention>
    decreases sub, 1
  {
    var offered := NodeDefaults(outer) + NodeDefaults(sub.defaults);
    SubNodeMentions(sub.nodes, offered) + SubEdgeMentions(sub.edges, offered)
    + SubgraphsMentions(sub.subgraphs, outer + sub.defaults)
  }

  function SubgraphsMentions(subs: seq<AstSubgraph>, outer: seq<AstDefaultAttrs>): seq<Mention>
    decreases subs, 0
  {
    if subs == [] then []
    else SubgraphMentions(subs[0], outer) + SubgraphsMentions(subs[1..], outer)
  }

  function Mentions(ast: AstGraph): seq<Mention>
  {
    var defaults := Assigned(map[], NodeDefaults(ast.defaults));
    TopNodeMentions(ast.nodes, defaults) + TopEdgeMentions(ast.edges, defaults)
    + SubgraphsMentions(ast.subgraphs, ast.defaults)
  }

  /** The edges of a chain; they carry the chain's own attributes and no defaults. */
  function ChainEdges(e: AstEdge): seq<Edge>
  {
    var attrs := Assigned(map[], e.attrs);
    if |e.nodeChain| < 2 then []
    else
      seq(|e.nodeChain| - 1, i requires 0 <= i < |e.nodeChain| - 1 =>
        Edge(Sanitized(e.nodeChain[i]), Sanitized(e.nodeChain[i + 1]), attrs))
  }

  function ChainsEdges(edges: seq<AstEdge>): seq<Edge>
  {
    if edges == [] then [] else ChainsEdges(edges[..|edges| - 1]) + ChainEdges(edges[|edges| - 1])
  }

  function SubgraphEdges(sub: AstSubgraph): seq<Edge>
    decreases sub, 1
  {
    ChainsEdges(sub.edges) + SubgraphsEdges(sub.subgraphs)
  }

  function SubgraphsEdges(subs: seq<AstSubgraph>): seq<Edge>
    decreases subs, 0
  {
    if subs == [] then [] else SubgraphEdges(subs[0]) + SubgraphsEdges(subs[1..])
  }

  function Edges(ast: AstGraph): seq<Edge>
  {
    ChainsEdges(ast.edges) + SubgraphsEdges(ast.subgraphs)
  }

  function NodeList(t: NodeTable): seq<Node>
  {
    var keys := SortedKeys(t.Keys);
    seq(|keys|, i requires 0 <= i < |keys| =>
      assert keys[i] in keys; Node(keys[i], ResolveNodeType(t[keys[i]]), t[keys[i]]))
  }

  function Built(ast: AstGraph): Graph
  {
    Graph(ast.id, NodeList(MetAll(map[], Mentions(ast))), Edges(ast), Assigned(map[], GraphDefaults(ast.defaults)))
  }

  // ---- the builder -----------------------------------------------------------------------

  method AssignEach(attrs0: Attributes, list: seq<AstAttribute>) returns (attrs: Attributes)
    ensures attrs == Assigned(attrs0, list)
  {
    attrs := attrs0;
    for k := 0 to |list|
      invariant attrs == Assigned(attrs0, list[..k])
    {
      assert list[..k + 1][..k] == list[..k];
      attrs := attrs[list[k].key := list[k].value];
    }
    assert list[..|list|] == list;
  }

  method FillEach(attrs0: Attributes, list: seq<AstAttribute>) returns (attrs: Attributes)
    ensures attrs == Filled(attrs0, list)
  {
    attrs := attrs0;
    for k := 0 to |list|
      invariant attrs == Filled(attrs0, list[..k])
    {
      assert list[..k + 1][..k] == list[..k];
      if list[k].key !in attrs {
        attrs := attrs[list[k].key := list[k].value];
      }
    }
    assert list[..|list|] == list;
  }

  method CollectDefaults(defaults: seq<AstDefaultAttrs>, target: string) returns (list: seq<AstAttribute>)
    requires target == "node" || target == "graph"
    ensures list == if target == "node" then NodeDefaults(defaults) else GraphDefaults(defaults)
  {
    list := [];
    for k := 0 to |defaults|
      invariant list == if target == "node" then NodeDefaults(defaults[..k]) else GraphDefaults(defaults[..k])
    {
      assert defaults[..k + 1][..k] == defaults[..k];
      if defaults[k].target == target {
        list := list + defaults[k].attrs;
      }
    }
    assert defaults[..|defaults|] == defaults;
  }

  lemma MetInThree(t: NodeTable, a: seq<Mention>, b: seq<Mention>, c: seq<Mention>)
    ensures MetAll(t, a + b + c) == MetAll(MetAll(MetAll(t, a), b), c)
  {
    MetAllConcat(t, a, b);
    MetAllConcat(t, a + b, c);
  }

  class GraphBuilder {
    var nodeAttrs: NodeTable
    var edges: seq<Edge>

    constructor ()
      ensures nodeAttrs == map[] && edges == []
    {
      nodeAttrs, edges := map[], [];
    }

    method ExpandEdgeChains(astEdge: AstEdge)
      modifies this`edges
      ensures edges == old(edges) + ChainEdges(astEdge)
    {
      var chain := astEdge.nodeChain;
      var attrs := AssignEach(map[], astEdge.attrs);
      ghost var links := ChainEdges(astEdge);
      var i := 0;
      while i + 1 < |chain|
        invariant 0 <= i <= |links|
        invariant edges == old(edges) + links[..i]
      {
        var from := SanitizeNodeId(chain[i]);
        var to := SanitizeNodeId(chain[i + 1]);
        assert links[..i + 1] == links[..i] + [Edge(from, to, attrs)];
        edges := edges + [Edge(from, to, attrs)];
        i := i + 1;
      }
      assert links[..i] == links;
    }

    method AddTopNodes(nodes: seq<AstNode>, defaults: Attributes)
      modifies this`nodeAttrs
      ensures nodeAttrs == MetAll(old(nodeAttrs), TopNodeMentions(nodes, defaults))
    {
      ghost var ms := TopNodeMentions(nodes, defaults);
      for k := 0 to |nodes|
        invariant nodeAttrs == MetAll(old(nodeAttrs), ms[..k])
      {
        assert ms[..k + 1][..k] == ms[..k];
        var id := SanitizeNodeId(nodes[k].id);
        var attrs := AssignEach(RowOf(nodeAttrs, id), nodes[k].attrs);
        nodeAttrs := nodeAttrs[id := defaults + attrs];
      }
      assert ms[..|nodes|] == ms;
    }

    method AddTopEnds(chain: seq<string>, defaults: Attributes)
      modifies this`nodeAttrs
      ensures nodeAttrs == MetAll(old(nodeAttrs), TopEnds(chain, defaults))
    {
      ghost var ms := TopEnds(chain, defaults);
      for i := 0 to |chain|
        invariant nodeAttrs == MetAll(old(nodeAttrs), ms[..i])
      {
        assert ms[..i + 1][..i] == ms[..i];
        var id := SanitizeNodeId(chain[i]);
        nodeAttrs := nodeAttrs[id := defaults + RowOf(nodeAttrs, id)];
      }
      assert ms[..|chain|] == ms;
    }

    method AddTopEdges(astEdges: seq<AstEdge>, defaults: Attributes)
      modifies this
      ensures edges == old(edges) + ChainsEdges(astEdges)
      ensures nodeAttrs == MetAll(old(nodeAttrs), TopEdgeMentions(astEdges, defaults))
    {
      hide TopEnds, ChainEdges;
      for k := 0 to |astEdges|
        invariant edges == old(edges) + ChainsEdges(astEdges[..k])
        invariant nodeAttrs == MetAll(old(nodeAttrs), TopEdgeMentions(astEdges[..k], defaults))
      {
        assert astEdges[..k + 1][..k] == astEdges[..k];
        ExpandEdgeChains(astEdges[k]);
        AddTopEnds(astEdges[k].nodeChain, defaults);
        MetAllConcat(old(nodeAttrs), TopEdgeMentions(astEdges[..k], defaults),
                     TopEnds(astEdges[k].nodeChain, defaults));
      }
      assert astEdges[..|astEdges|] == astEdges;
    }

    method AddSubNodes(nodes: seq<AstNode>, offered: seq<AstAttribute>)
      modifies this`nodeAttrs
      ensures nodeAttrs == MetAll(old(nodeAttrs), SubNodeMentions(nodes, offered))
    {
      ghost var ms := SubNodeMentions(nodes, offered);
      for k := 0 to |nodes|
        invariant nodeAttrs == MetAll(old(nodeAttrs), ms[..k])
      {
        assert ms[..k + 1][..k] == ms[..k];
        var id := SanitizeNodeId(nodes[k].id);
        var attrs := FillEach(RowOf(nodeAttrs, id), offered);
        attrs := AssignEach(attrs, nodes[k].attrs);
        nodeAttrs := nodeAttrs[id := attrs];
      }
      assert ms[..|nodes|] == ms;
    }

    method AddSubEnds(chain: seq<string>, offered: seq<AstAttribute>)
      modifies this`nodeAttrs
      ensures nodeAttrs == MetAll(old(nodeAttrs), SubEnds(chain, offered))
    {
      ghost var ms := SubEnds(chain, offered);
      for i := 0 to |chain|
        invariant nodeAttrs == MetAll(old(nodeAttrs), ms[..i])
      {
        assert ms[..i + 1][..i] == ms[..i];
        var id := SanitizeNodeId(chain[i]);
        if id !in nodeAttrs {
          var attrs := AssignEach(map[], offered);
          nodeAttrs := nodeAttrs[id := attrs];
        }
      }
      assert ms[..|chain|] == ms;
    }

    method AddSubEdges(astEdges: seq<AstEdge>, offered: seq<AstAttribute>)
      modifies this
      ensures edges == old(edges) + ChainsEdges(astEdges)
      ensures nodeAttrs == MetAll(old(nodeAttrs), SubEdgeMentions(astEdges, offered))
    {
      hide SubEnds, ChainEdges;
      for k := 0 to |astEdges|
        invariant edges == old(edges) + ChainsEdges(astEdges[..k])
        invariant nodeAttrs == MetAll(old(nodeAttrs), SubEdgeMentions(astEdges[..k], offered))
      {
        assert astEdges[..k + 1][..k] == astEdges[..k];
        ExpandEdgeChains(astEdges[k]);
        AddSubEnds(astEdges[k].nodeChain, offered);
        MetAllConcat(old(nodeAttrs), SubEdgeMentions(astEdges[..k], offered), SubEnds(astEdges[k].nodeChain, offered));
      }
      assert astEdges[..|astEdges|] == astEdges;
    }

    method ExpandSubgraph(sub: AstSubgraph, parentDefaults: seq<AstDefaultAttrs>)
      modifies this
      ensures edges == old(edges) + SubgraphEdges(sub)
      ensures nodeAttrs == MetAll(old(nodeAttrs), SubgraphMentions(sub, parentDefaults))
      decreases sub, 1
    {
      hide SubNodeMentions, SubEdgeMentions, ChainsEdges, NodeDefaults, MetAll;
      var outer := CollectDefaults(parentDefaults, "node");
      var own := CollectDefaults(sub.defaults, "node");
      var offered := outer + own;
      ghost var ns, es := SubNodeMentions(sub.nodes, offered), SubEdgeMentions(sub.edges, offered);
      ghost var inner := SubgraphsMentions(sub.subgraphs, parentDefaults + sub.defaults);
      AddSubNodes(sub.nodes, offered);
      AddSubEdges(sub.edges, offered);
      ExpandEachSubgraph(sub.subgraphs, parentDefaults + sub.defaults);
      MetInThree(old(nodeAttrs), ns, es, inner);
      assert SubgraphMentions(sub, parentDefaults) == ns + es + inner;
    }

    method ExpandEachSubgraph(subs: seq<AstSubgraph>, parentDefaults: seq<AstDefaultAttrs>)
      modifies this
      ensures edges == old(edges) + SubgraphsEdges(subs)
      ensures nodeAttrs == MetAll(old(nodeAttrs), SubgraphsMentions(subs, parentDefaults))
      decreases subs, 0
    {
      if subs != [] {
        ExpandSubgraph(subs[0], parentDefaults);
        ExpandEachSubgraph(subs[1..], parentDefaults);
        MetAllConcat(old(nodeAttrs), SubgraphMentions(subs[0], parentDefaults),
                     SubgraphsMentions(subs[1..], parentDefaults));
      }
    }

    method Build(ast: AstGraph) returns (g: Graph)
      modifies this
      ensures g == Built(ast)
    {
      hide TopNodeMentions, MetAll, NodeList, TopEdgeMentions, SubgraphsMentions, Assigned, GraphDefaults, NodeDefaults;
      nodeAttrs, edges := map[], [];
      var graphList := CollectDefaults(ast.defaults, "graph");
      var graphAttrs := AssignEach(map[], graphList);
      var nodeList := CollectDefaults(ast.defaults, "node");
      var defaults := AssignEach(map[], nodeList);
      ghost var ns, es := TopNodeMentions(ast.nodes, defaults), TopEdgeMentions(ast.edges, defaults);
      ghost var inner := SubgraphsMentions(ast.subgraphs, ast.defaults);
      AddTopNodes(ast.nodes, defaults);
      AddTopEdges(ast.edges, defaults);
      ExpandEachSubgraph(ast.subgraphs, ast.defaults);
      MetInThree(map[], ns, es, inner);
      assert edges == Edges(ast) by { assert [] + ChainsEdges(ast.edges) == ChainsEdges(ast.edges); }
      assert Mentions(ast) == ns + es + inner;
      g := Graph(ast.id, NodeList(nodeAttrs), edges, graphAttrs);
    }
  }
}
