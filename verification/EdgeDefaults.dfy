/** Edge defaults: the parser collects them (src/parser/dot_parser.cpp) and the builder
    says they are applied later (src/parser/graph_builder.cpp), but they never are. */
module EdgeDefaults {
  import opened Text
  import opened Graphs
  import opened DotAst
  import opened GraphBuilding

  // ---- the graph without them -----------------------------------------------------------------

  function Others(defaults: seq<AstDefaultAttrs>): seq<AstDefaultAttrs>
  {
    if defaults == [] then []
    else
      var last := defaults[|defaults| - 1];
      Others(defaults[..|defaults| - 1]) + if last.target == "edge" then [] else [last]
  }

  function SubgraphStripped(sub: AstSubgraph): AstSubgraph
    decreases sub, 1
  {
    sub.(defaults := Others(sub.defaults), subgraphs := SubgraphsStripped(sub.subgraphs))
  }

  function SubgraphsStripped(subs: seq<AstSubgraph>): seq<AstSubgraph>
    decreases subs, 0
  {
    if subs == [] then [] else [SubgraphStripped(subs[0])] + SubgraphsStripped(subs[1..])
  }

  /** The AST with its edge defaults dropped at every depth. */
  function Stripped(ast: AstGraph): AstGraph
  {
    ast.(defaults := Others(ast.defaults), subgraphs := SubgraphsStripped(ast.subgraphs))
  }

  lemma {:induction false} OthersConcat(a: seq<AstDefaultAttrs>, b: seq<AstDefaultAttrs>)
    ensures Others(a + b) == Others(a) + Others(b)
  {
    if b == [] {
      assert a + b == a;
    } else {
      assert (a + b)[..|a + b| - 1] == a + b[..|b| - 1];
      OthersConcat(a, b[..|b| - 1]);
    }
  }

  lemma {:induction false} SameNodeDefaults(defaults: seq<AstDefaultAttrs>)
    ensures NodeDefaults(Others(defaults)) == NodeDefaults(defaults)
    ensures GraphDefaults(Others(defaults)) == GraphDefaults(defaults)
  {
    if defaults != [] {
      var front, last := defaults[..|defaults| - 1], defaults[|defaults| - 1];
      SameNodeDefaults(front);
      if last.target == "edge" {
        assert Others(defaults) == Others(front);
      } else {
        assert Others(defaults)[..|Others(front)|] == Others(front);
      }
    }
  }

  lemma {:induction false} SameSubgraph(sub: AstSubgraph, outer: seq<AstDefaultAttrs>)
    ensures SubgraphMentions(SubgraphStripped(sub), Others(outer)) == SubgraphMentions(sub, outer)
    ensures SubgraphEdges(SubgraphStripped(sub)) == SubgraphEdges(sub)
    decreases sub, 1
  {
    hide SubNodeMentions, SubEdgeMentions, ChainsEdges;
    SameNodeDefaults(outer);
    SameNodeDefaults(sub.defaults);
    OthersConcat(outer, sub.defaults);
    SameSubgraphs(sub.subgraphs, outer + sub.defaults);
  }

  lemma {:induction false} SameSubgraphs(subs: seq<AstSubgraph>, outer: seq<AstDefaultAttrs>)
    ensures SubgraphsMentions(SubgraphsStripped(subs), Others(outer)) == SubgraphsMentions(subs, outer)
    ensures SubgraphsEdges(SubgraphsStripped(subs)) == SubgraphsEdges(subs)
    decreases subs, 0
  {
    if subs != [] {
      SameSubgraph(subs[0], outer);
      SameSubgraphs(subs[1..], outer);
      assert SubgraphsStripped(subs)[1..] == SubgraphsStripped(subs[1..]);
    }
  }

  /** Dropping every edge default changes nothing in the built graph. */
  lemma EdgeDefaultsIgnored(ast: AstGraph)
    ensures Built(Stripped(ast)) == Built(ast)
  {
    hide TopNodeMentions, TopEdgeMentions, ChainsEdges, SubgraphsMentions, SubgraphsEdges, MetAll, NodeList;
    SameNodeDefaults(ast.defaults);
    SameSubgraphs(ast.subgraphs, ast.defaults);
  }

  // ---- what an edge carries ------------------------------------------------------------------------

  /** Where an edge comes from: two ids next to each other in a chain, the chain's own
      attributes, and the edge defaults of the bodies around the chain, outermost first. */
  datatype Source = Source(from: string, to: string, own: seq<AstAttribute>, inForce: seq<AstAttribute>)

  function EdgeAttrs(defaults: seq<AstDefaultAttrs>): seq<AstAttribute>
  {
    if defaults == [] then []
    else
      var last := defaults[|defaults| - 1];
      EdgeAttrs(defaults[..|defaults| - 1]) + if last.target == "edge" then last.attrs else []
  }

  function ChainSources(e: AstEdge, inForce: seq<AstAttribute>): seq<Source>
  {
    if |e.nodeChain| < 2 then []
    else
      seq(|e.nodeChain| - 1, i requires 0 <= i < |e.nodeChain| - 1 =>
        Source(e.nodeChain[i], e.nodeChain[i + 1], e.attrs, inForce))
  }

  function ChainsSources(edges: seq<AstEdge>, inForce: seq<AstAttribute>): seq<Source>
  {
    if edges == [] then [] else ChainsSources(edges[..|edges| - 1], inForce) + ChainSources(edges[|edges| - 1], inForce)
  }

  function SubgraphSources(sub: AstSubgraph, outer: seq<AstAttribute>): seq<Source>
    decreases sub, 1
  {
    var inForce := outer + EdgeAttrs(sub.defaults);
    ChainsSources(sub.edges, inForce) + SubgraphsSources(sub.subgraphs, inForce)
  }

  function SubgraphsSources(subs: seq<AstSubgraph>, outer: seq<AstAttribute>): seq<Source>
    decreases subs, 0
  {
    if subs == [] then [] else SubgraphSources(subs[0], outer) + SubgraphsSources(subs[1..], outer)
  }

  /** The sources of the built edges, in their order. */
  function Sources(ast: AstGraph): seq<Source>
  {
    var inForce := EdgeAttrs(ast.defaults);
    ChainsSources(ast.edges, inForce) + SubgraphsSources(ast.subgraphs, inForce)
  }

  ghost predicate MadeOf(edges: seq<Edge>, sources: seq<Source>)
  {
    && |edges| == |sources|
    && forall i :: 0 <= i < |edges| ==>
         && edges[i].attrs == Assigned(map[], sources[i].own)
         && edges[i].from == Sanitized(sources[i].from) && edges[i].to == Sanitized(sources[i].to)
  }

  lemma {:induction false} ChainsMadeOf(edges: seq<AstEdge>, inForce: seq<AstAttribute>)
    ensures MadeOf(ChainsEdges(edges), ChainsSources(edges, inForce))
  {
    if edges != [] {
      ChainsMadeOf(edges[..|edges| - 1], inForce);
    }
  }

  lemma {:induction false} SubgraphMadeOf(sub: AstSubgraph, outer: seq<AstAttribute>)
    ensures MadeOf(SubgraphEdges(sub), SubgraphSources(sub, outer))
    decreases sub, 1
  {
    ChainsMadeOf(sub.edges, outer + EdgeAttrs(sub.defaults));
    SubgraphsMadeOf(sub.subgraphs, outer + EdgeAttrs(sub.defaults));
  }

  lemma {:induction false} SubgraphsMadeOf(subs: seq<AstSubgraph>, outer: seq<AstAttribute>)
    ensures MadeOf(SubgraphsEdges(subs), SubgraphsSources(subs, outer))
    decreases subs, 0
  {
    if subs != [] {
      SubgraphMadeOf(subs[0], outer);
      SubgraphsMadeOf(subs[1..], outer);
    }
  }

  lemma EdgesJoined(some: seq<Edge>, more: seq<Edge>, from: seq<Source>, others: seq<Source>)
    requires MadeOf(some, from) && MadeOf(more, others)
    ensures MadeOf(some + more, from + others)
  {
  }

  lemma BuiltMadeOf(ast: AstGraph)
    ensures MadeOf(Built(ast).edges, Sources(ast))
  {
    hide MadeOf, ChainsEdges, SubgraphsEdges, ChainsSources, SubgraphsSources;
    var inForce := EdgeAttrs(ast.defaults);
    ChainsMadeOf(ast.edges, inForce);
    SubgraphsMadeOf(ast.subgraphs, inForce);
    EdgesJoined(ChainsEdges(ast.edges), SubgraphsEdges(ast.subgraphs),
                ChainsSources(ast.edges, inForce), SubgraphsSources(ast.subgraphs, inForce));
  }

  /** There is an edge for every two ids next to each other in a chain, at any depth and in
      their order; it goes from the first to the second. */
  lemma EdgesFollowChains(ast: AstGraph)
    ensures |Built(ast).edges| == |Sources(ast)|
    ensures forall i :: 0 <= i < |Sources(ast)| ==>
              && Built(ast).edges[i].from == Sanitized(Sources(ast)[i].from)
              && Built(ast).edges[i].to == Sanitized(Sources(ast)[i].to)
  {
    hide Built, Sources, Assigned, Sanitized;
    BuiltMadeOf(ast);
  }

  /** What the statements promise of an edge: the chain's own value, else the innermost
      edge default in force. */
  function Promised(source: Source, key: string): Option<string>
  {
    OrElse(LastValue(source.own, key), LastValue(source.inForce, key))
  }

  /** An edge, at any depth, carries what is promised exactly when its chain assigns the
      key itself or no edge default in force names it. */
  lemma PromiseKeptExactly(ast: AstGraph, i: nat, key: string)
    requires i < |Built(ast).edges|
    ensures |Sources(ast)| == |Built(ast).edges|
    ensures var source := Sources(ast)[i]; var carried := Lookup(Built(ast).edges[i].attrs, key);
            && (carried == Promised(source, key)
                <==> LastValue(source.own, key).Some? || LastValue(source.inForce, key).None?)
            && (forall v :: LastValue(source.inForce, key) == Some(v) ==>
                (carried == Some(v) <==> LastValue(source.own, key) == Some(v)))
  {
    hide Built, Sources, Assigned, Sanitized;
    BuiltMadeOf(ast);
    AssignedLookup(map[], Sources(ast)[i].own, key);
  }

  /** `edge [k=v]; a -> b;` builds an edge without `k`. */
  lemma EdgeDefaultLost(ast: AstGraph)
    requires ast == AstGraph(false, "g", [], [AstEdge(["a", "b"], [])],
                             [AstDefaultAttrs("edge", [AstAttribute("k", "v")])], [])
    ensures |Built(ast).edges| == |Sources(ast)| == 1
    ensures Promised(Sources(ast)[0], "k") == Some("v") && "k" !in Built(ast).edges[0].attrs
  {
    var e, d := ast.edges[0], ast.defaults[0];
    assert ast.edges[..0] == [] && ast.defaults[..0] == [] && d.attrs[..0] == [];
    assert EdgeAttrs(ast.defaults) == d.attrs;
    assert ChainsEdges([e]) == ChainEdges(e) && ChainsSources([e], d.attrs) == ChainSources(e, d.attrs);
  }
}
