/** From the text of a pipeline to its runs: what the parser, the graph builder and the
    variable transform establish is what the engine needs. */
module Pipelines {
  import opened Text
  import opened Graphs
  import opened Outcomes
  import opened DotAst
  import opened DotPrinting
  import opened DotParsing
  import opened GraphBuilding
  import opened BuiltGraphs
  import opened VariableTransforms
  import opened Engine
  import opened EngineRuns

  /** The graph a run is started on. */
  function Prepared(ast: AstGraph, ctx: Context): Graph
  {
    Transformed(Built(ast), ctx)
  }

  lemma PreparedIsClosed(ast: AstGraph, ctx: Context)
    ensures Closed(Prepared(ast, ctx))
  {
    hide Closed, Built, Transformed;
    BuiltIsClosed(ast);
    TransformKeepsClosed(Built(ast), ctx);
  }

  /** Every graph the troubleshooter reloads during the run was built from some AST. */
  ghost predicate ReloadsBuilt(c: Config, answers: seq<Answer>)
  {
    forall i :: c.troubleshoot && 0 <= i < |answers| && answers[i].diagnosis.Resumed?
                && answers[i].diagnosis.reloaded.Some? ==>
      exists ast :: answers[i].diagnosis.reloaded.value == Built(ast)
  }

  lemma BuiltReloadsAreClosed(c: Config, answers: seq<Answer>)
    requires ReloadsBuilt(c, answers)
    ensures AllReloadsClosed(c, answers)
  {
    hide Closed, Built;
    forall i | c.troubleshoot && 0 <= i < |answers| && answers[i].diagnosis.Resumed?
      && answers[i].diagnosis.reloaded.Some?
      ensures Closed(answers[i].diagnosis.reloaded.value)
    {
      var ast :| answers[i].diagnosis.reloaded.value == Built(ast);
      BuiltIsClosed(ast);
    }
  }

  // ---- gates without a name ------------------------------------------------------------------

  /** Some id written in the AST has no character that is kept. */
  ghost predicate MentionsNameless(ast: AstGraph)
  {
    "" in IdsMet(Mentions(ast))
  }

  /** The attributes the AST gives the node whose id is empty. */
  function NamelessRow(ast: AstGraph): Attributes
  {
    RowOf(MetAll(map[], Mentions(ast)), "")
  }

  /** The AST declares a goal gate whose id sanitizes to "". */
  ghost predicate NamelessGate(ast: AstGraph)
  {
    MentionsNameless(ast) && IsTrue(NamelessRow(ast), "goal_gate")
  }

  /** The same once its attributes have been expanded. */
  ghost predicate NamelessGateWith(ast: AstGraph, ctx: Context)
  {
    var n := Node("", ResolveNodeType(NamelessRow(ast)), NamelessRow(ast));
    MentionsNameless(ast) && IsTrue(NodeExpanded(n, ctx, Built(ast).attrs).node.attrs, "goal_gate")
  }

  /** Ids increase strictly along the nodes. */
  ghost predicate Ordered(nodes: seq<Node>)
  {
    forall i, j :: 0 <= i < j < |nodes| ==> Less(nodes[i].id, nodes[j].id)
  }

  /** A node with an empty id comes first, and there is only one. */
  lemma NamelessComesFirst(nodes: seq<Node>, n: Node)
    requires Ordered(nodes) && n in nodes && n.id == ""
    ensures nodes[0] == n && FindIn(nodes, "") == Some(n)
  {
    var i :| 0 <= i < |nodes| && nodes[i] == n;
    assert !Less(nodes[0].id, nodes[i].id);
  }

  lemma BuiltIsOrdered(ast: AstGraph)
    ensures Ordered(Built(ast).nodes)
    ensures MentionsNameless(ast) <==> FindNode(Built(ast), "").Some?
    ensures MentionsNameless(ast) ==>
              FindNode(Built(ast), "") == Some(Node("", ResolveNodeType(NamelessRow(ast)), NamelessRow(ast)))
  {
    hide Mentions, MetAll, IdsMet, ResolveNodeType, NodeList, Assigned, GraphDefaults, Edges;
    NodesOfBuilt(ast);
    TableKeys(map[], Mentions(ast));
  }

  lemma PreparedIsOrdered(ast: AstGraph, ctx: Context)
    ensures Ordered(Prepared(ast, ctx).nodes)
    ensures MentionsNameless(ast) <==> "" in Ids(Prepared(ast, ctx))
    ensures MentionsNameless(ast) ==>
              FindNode(Prepared(ast, ctx), "")
              == Some(NodeExpanded(Node("", ResolveNodeType(NamelessRow(ast)), NamelessRow(ast)), ctx,
                                   Built(ast).attrs).node)
  {
    hide MentionsNameless, NamelessRow, Built, NodeExpanded, ResolveNodeType;
    var g, p := Built(ast), Prepared(ast, ctx);
    BuiltIsOrdered(ast);
    TransformKeepsClosed(g, ctx);
    forall i | 0 <= i < |g.nodes| ensures p.nodes[i].id == g.nodes[i].id {
      NodeExpandedId(g.nodes[i], ctx, g.attrs);
    }
    if MentionsNameless(ast) {
      NamelessComesFirst(g.nodes, FindNode(g, "").value);
      NamelessComesFirst(p.nodes, p.nodes[0]);
    }
  }

  lemma NodeExpandedId(n: Node, ctx: Context, graphAttrs: Attributes)
    ensures NodeExpanded(n, ctx, graphAttrs).node.id == n.id
  {
    hide KeysExpanded;
    NodeKeepsItsShape(Progress(n, []), SortedKeys(n.attrs.Keys), ctx, graphAttrs);
  }

  lemma GatesNamedIn(g: Graph)
    requires Ordered(g.nodes)
    ensures GatesNamed(g) <==> (FindNode(g, "").Some? ==> !IsTrue(FindNode(g, "").value.attrs, "goal_gate"))
  {
    hide Ordered;
    forall n | n in g.nodes && n.id == "" ensures FindNode(g, "") == Some(n) { NamelessComesFirst(g.nodes, n); }
  }

  /** Every gate of a built graph is named exactly when no goal gate of the AST has an id
      that sanitizes to "". */
  lemma NamedExactly(ast: AstGraph, ctx: Context)
    ensures GatesNamed(Built(ast)) <==> !NamelessGate(ast)
    ensures GatesNamed(Prepared(ast, ctx)) <==> !NamelessGateWith(ast, ctx)
  {
    hide GatesNamed, Ordered, MentionsNameless, NamelessRow, Built, Prepared, NodeExpanded, ResolveNodeType;
    BuiltIsOrdered(ast);
    PreparedIsOrdered(ast, ctx);
    GatesNamedIn(Built(ast));
    GatesNamedIn(Prepared(ast, ctx));
  }

  /** Such a gate switches the whole check off: it is the first node, so while it is
      unsatisfied no other gate is looked at. */
  lemma NamelessGateDisablesTheCheck(ast: AstGraph, ctx: Context, s: State)
    requires NamelessGateWith(ast, ctx) && s.graph == Prepared(ast, ctx) && !Satisfied(s.books.outcomes, "")
    ensures CheckGates(s).ending == Some(Completed)
  {
    hide Ordered, MentionsNameless, NamelessRow, Prepared, NodeExpanded, ResolveNodeType, UnsatisfiedNode, Satisfied;
    PreparedIsOrdered(ast, ctx);
    NamelessComesFirst(s.graph.nodes, FindNode(s.graph, "").value);
    NamelessFirst(s.graph.nodes, s.books.outcomes);
    CheckGatesKeeps(s);
  }

  /** An AST with such a gate. */
  lemma NamelessGateExists(ast: AstGraph)
    requires ast == AstGraph(false, "g", [AstNode("!", [AstAttribute("goal_gate", "true")])], [], [], [])
    ensures NamelessGate(ast)
  {
    var own := ast.nodes[0].attrs;
    assert "!"[..0] == "" && Sanitized("!") == "";
    var defaults := Assigned(map[], []);
    var m := TopNode("", own, defaults);
    assert Mentions(ast) == [m] && [m][..0] == [];
    assert IdsMet([m]) == IdsMet([]) + {""};
    assert own[..0] == [] && Assigned(map[], own) == Assigned(map[], [])["goal_gate" := "true"];
    assert MetAll(map[], [m]) == Met(MetAll(map[], []), m);
  }

  // ---- whole runs -----------------------------------------------------------------------------

  ghost predicate ReloadsNamed(c: Config, answers: seq<Answer>)
  {
    forall i :: c.troubleshoot && 0 <= i < |answers| && answers[i].diagnosis.Resumed?
                && answers[i].diagnosis.reloaded.Some? ==>
      GatesNamed(answers[i].diagnosis.reloaded.value)
  }

  /** Whatever the pipeline's text declares and whatever its handlers answer: a run never
      loses its current node, and when it succeeds the exit was recorded complete and
      the gates are satisfied as far as they are enforced -- every one of them, when no
      goal gate has an id that sanitizes to "". */
  lemma BuiltPipelinesRunWell(c: Config, m: Memory, ast: AstGraph, ctx: Context, answers: seq<Answer>)
    requires m.cycleLimit >= 1 && ReloadsBuilt(c, answers)
    requires Launch(c, m, Prepared(ast, ctx), ctx).Some?
    ensures var t := Run(c, Launch(c, m, Prepared(ast, ctx), ctx).value, answers); var s := t.state;
            && (t.ending.None? ==> s.current.Some? && s.current.value in s.graph.nodes)
            && (t.ending == Some(Completed) ==>
                  s.exitNode.id in s.books.completed && GatesEnforced(s.graph, s.books.outcomes))
            && (t.ending == Some(Completed) && !NamelessGateWith(ast, ctx) && ReloadsNamed(c, answers) ==>
                  AllGatesMet(s.graph, s.books.outcomes))
  {
    hide Prepared, Launch, Run, Closed, ReloadsBuilt, AllReloadsClosed, GatesNamed, GatesEnforced, AllGatesMet,
         NamelessGateWith;
    var g := Prepared(ast, ctx);
    PreparedIsClosed(ast, ctx);
    ClosedRoutes(c, g);
    BuiltReloadsAreClosed(c, answers);
    LaunchedRunIsGood(c, m, g, ctx, answers);
    var start := Launch(c, m, g, ctx).value;
    LaunchedOn(c, m, g, ctx);
    RunOrigin(c, start, answers);
    NamedExactly(ast, ctx);
  }

  lemma ClosedRoutes(c: Config, g: Graph)
    requires Closed(g)
    ensures RoutesClosed(c, g)
  {
  }

  lemma LaunchedOn(c: Config, m: Memory, g: Graph, ctx: Context)
    ensures Launch(c, m, g, ctx).Some? ==> Launch(c, m, g, ctx).value.graph == g
  {
  }

  /** The same from printed text: parsing it and building the graph gives the graph the
      AST describes. */
  method BuildFromText(g: AstGraph) returns (r: Result<Graph, ParseError>)
    requires Printable(g)
    ensures r == Ok(Built(g)) && Closed(r.value)
  {
    BuiltIsClosed(g);
    hide Printable, Built, Closed;
    var parsed := ParsePrinted(g);
    var builder := new GraphBuilder();
    var graph := builder.Build(parsed.value);
    r := Ok(graph);
  }
}
