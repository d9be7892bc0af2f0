/** What a resumed run shares with the run it continues. */
module EngineResume {
  import opened Text
  import opened Graphs
  import opened Outcomes
  import opened EdgeSelection
  import opened Checkpoints
  import opened Engine
  import opened EngineRuns

  // ---- the next edge ---------------------------------------------------------------------

  /** Selection looks at nothing of an outcome but these three fields. */
  ghost predicate SelectsAlike(o1: Outcome, o2: Outcome)
  {
    o1.status == o2.status && o1.preferredLabel == o2.preferredLabel && o1.suggestedNext == o2.suggestedNext
  }

  lemma {:induction false} JudgedAlike(read: ConditionReader, edges: seq<Edge>, o1: Outcome, o2: Outcome, ctx: Context,
                                       v: Verdict)
    requires SelectsAlike(o1, o2)
    ensures Judged(read, edges, o1, ctx, v) == Judged(read, edges, o2, ctx, v)
  {
    if edges != [] {
      JudgedAlike(read, edges[..|edges| - 1], o1, o2, ctx, v);
      EvaluateAlike(read, edges[|edges| - 1], o1, o2, ctx);
    }
  }

  lemma EvaluateAlike(read: ConditionReader, e: Edge, o1: Outcome, o2: Outcome, ctx: Context)
    requires SelectsAlike(o1, o2)
    ensures Judge(read, e, o1, ctx) == Judge(read, e, o2, ctx)
  {
    forall c ensures ClauseHolds(c, o1, ctx) == ClauseHolds(c, o2, ctx) {
      assert Actual(c.variable, o1, ctx) == Actual(c.variable, o2, ctx);
    }
  }

  lemma ChoiceAlike(read: ConditionReader, edges: seq<Edge>, o1: Outcome, o2: Outcome, ctx: Context)
    requires SelectsAlike(o1, o2)
    ensures Choice(read, edges, o1, ctx) == Choice(read, edges, o2, ctx)
  {
    JudgedAlike(read, edges, o1, o2, ctx, Matched);
    JudgedAlike(read, edges, o1, o2, ctx, Unconditional);
    assert Filtered(read, edges, o1, ctx) == Filtered(read, edges, o2, ctx);
  }

  /** The same graph up to node attributes, as two expansions of one source are. */
  ghost predicate SameShape(g: Graph, h: Graph)
  {
    && g.edges == h.edges && g.attrs == h.attrs && |g.nodes| == |h.nodes|
    && forall i :: 0 <= i < |g.nodes| ==> g.nodes[i].id == h.nodes[i].id && g.nodes[i].nodeType == h.nodes[i].nodeType
  }

  lemma {:induction false} SameShapeFinds(ns: seq<Node>, ms: seq<Node>, id: string, t: NodeType)
    requires |ns| == |ms|
    requires forall i :: 0 <= i < |ns| ==> ns[i].id == ms[i].id && ns[i].nodeType == ms[i].nodeType
    ensures FindIn(ns, id).Some? == FindIn(ms, id).Some?
    ensures FirstOfType(ns, t).Some? == FirstOfType(ms, t).Some?
  {
    if ns != [] {
      SameShapeFinds(ns[1..], ms[1..], id, t);
    }
  }

  /** A stage that succeeded, with its checkpoint just saved and the next edge still to
      be chosen; `o` is its outcome. */
  ghost predicate JustSaved(c: Config, s: State, node: Node, o: Outcome, time: string)
  {
    && s.saved == Save(c, s, node.id, time).saved
    && node in s.graph.nodes && node.id in s.books.completed && o.status == SUCCESS
    && FirstOfType(s.graph.nodes, EXIT).Some?
    && CountersFit(s.retries)
  }

  /** This is how the engine stands when it chooses the edge out of a success. */
  lemma SuccessIsJustSaved(c: Config, s: State, node: Node, o: Outcome, a: Answer) returns (t: State)
    requires node in s.graph.nodes && s.exitNode in s.graph.nodes && s.exitNode.nodeType == EXIT
    requires o.status == SUCCESS && node.nodeType != PARALLEL && CountersFit(s.retries)
    ensures AtDone(c, s, node, o, a) == Advance(c, t, node, o) && JustSaved(c, t, node, o, a.time)
    ensures t.graph == s.graph
  {
    hide Advance, StatusName;
    var ctx := Put(c, ApplyUpdates(c, s.ctx, o.contextUpdates), "needle.last_outcome.status", StatusName(o.status));
    t := Save(c, s.(ctx := ctx, books := Record(c, s.books, node, o.status)), node.id, a.time);
    TypeFound(s.graph.nodes, s.exitNode);
  }

  lemma TypeFound(nodes: seq<Node>, n: Node)
    requires n in nodes
    ensures FirstOfType(nodes, n.nodeType).Some?
  {
    if nodes[0] != n { TypeFound(nodes[1..], n); }
  }

  /** Nothing blocks a resume on an unedited graph that has all the completed nodes. */
  lemma NotBlockedOnSameGraph(c: Config, s: State, node: Node, o: Outcome, time: string, g: Graph)
    requires JustSaved(c, s, node, o, time) && SameShape(s.graph, g) && c.graphHash(g) == c.graphHash(s.graph)
    requires forall id :: id in s.books.completed ==> id in Ids(s.graph)
    ensures !Blocked(c, g, s.saved.value)
  {
    forall id ensures id in Ids(s.graph) <==> id in Ids(g) {
      SameShapeFinds(s.graph.nodes, g.nodes, id, EXIT);
      assert FindNode(s.graph, id).Some? == FindNode(g, id).Some?;
    }
    FoundIn(s.graph.nodes, node);
  }

  lemma FoundIn(nodes: seq<Node>, n: Node)
    requires n in nodes
    ensures n.id in IdsOf(nodes)
  {
    if nodes[0] != n { FoundIn(nodes[1..], n); }
  }

  // ---- the path of the graph, which resume writes into the context ----------------------------

  const PATH_KEY := "needle.graph_path"

  predicate HoldsPath(c: Config, ctx: Context)
  {
    PATH_KEY in ctx && ctx[PATH_KEY] == c.clip(c.graphFile)
  }

  ghost predicate ReadsPath(read: ConditionReader, e: Edge)
  {
    var clauses := read(Get(e.attrs, "condition"));
    clauses.Some? && exists k :: 0 <= k < |clauses.value| && clauses.value[k].variable == "context." + PATH_KEY
  }

  /** No condition on these edges asks for the path. A loop restart takes the path out of
      the context, so a run with a graph file need not hold it. */
  ghost predicate PathUnread(read: ConditionReader, edges: seq<Edge>)
  {
    forall e :: e in edges ==> !ReadsPath(read, e)
  }

  lemma JudgeBesidePath(read: ConditionReader, e: Edge, o: Outcome, ctx: Context, path: string)
    requires !ReadsPath(read, e)
    ensures Judge(read, e, o, ctx[PATH_KEY := path]) == Judge(read, e, o, ctx)
  {
    var with := ctx[PATH_KEY := path];
    var clauses := read(Get(e.attrs, "condition"));
    if clauses.Some? {
      forall k | 0 <= k < |clauses.value|
        ensures ClauseHolds(clauses.value[k], o, with) == ClauseHolds(clauses.value[k], o, ctx)
      {
        ActualBesidePath(clauses.value[k].variable, o, ctx, path);
      }
    }
  }

  lemma ActualBesidePath(variable: string, o: Outcome, ctx: Context, path: string)
    requires variable != "context." + PATH_KEY
    ensures Actual(variable, o, ctx[PATH_KEY := path]) == Actual(variable, o, ctx)
  {
    if |variable| >= 8 && variable[..8] == "context." {
      assert variable == variable[..8] + variable[8..];
    }
  }

  lemma {:induction false} JudgedBesidePath(read: ConditionReader, edges: seq<Edge>, o: Outcome, ctx: Context,
                                            path: string, v: Verdict)
    requires PathUnread(read, edges)
    ensures Judged(read, edges, o, ctx[PATH_KEY := path], v) == Judged(read, edges, o, ctx, v)
  {
    hide Judge, ReadsPath;
    if edges != [] {
      JudgedBesidePath(read, edges[..|edges| - 1], o, ctx, path, v);
      JudgeBesidePath(read, edges[|edges| - 1], o, ctx, path);
    }
  }

  lemma ChoiceBesidePath(read: ConditionReader, edges: seq<Edge>, o: Outcome, ctx: Context, path: string)
    requires PathUnread(read, edges)
    ensures Choice(read, edges, o, ctx[PATH_KEY := path]) == Choice(read, edges, o, ctx)
  {
    hide Judged, PathUnread;
    JudgedBesidePath(read, edges, o, ctx, path, Matched);
    JudgedBesidePath(read, edges, o, ctx, path, Unconditional);
    assert Filtered(read, edges, o, ctx[PATH_KEY := path]) == Filtered(read, edges, o, ctx);
  }

  /** What the checkpoint does not carry, and must therefore be as resume assumes it. */
  ghost predicate Recoverable(c: Config, s: State, node: Node, o: Outcome)
  {
    && node.nodeType != PARALLEL
    && o.suggestedNext == [] && o.preferredLabel == Get(s.ctx, "human.gate.selected")
    && (c.graphFile != "" ==> HoldsPath(c, s.ctx) || PathUnread(c.read, Outgoing(s.graph.edges, node.id)))
  }

  /** Resuming from a success's checkpoint, read back from its JSON on the same graph,
      restores the completed list and goes on to the node the uninterrupted run goes
      on to, unless the edge chosen restarts the loop. */
  lemma ResumeTakesTheSameEdge(c: Config, m: Memory, s: State, node: Node, o: Outcome, time: string, g: Graph)
    requires JustSaved(c, s, node, o, time) && Recoverable(c, s, node, o) && SameShape(s.graph, g)
    ensures var cp := FromJson(ToJson(s.saved.value));
            && cp.Some?
            && (!Blocked(c, g, cp.value) ==>
                 var r := Resume(c, m, g, cp.value);
                 var next := NextEdge(c, s, node, o);
                 && r.Some? && r.value.books.completed == s.books.completed
                 && (next.Some? && Get(next.value.attrs, "loop_restart") != "true" ==>
                       var onward := Advance(c, s, node, o);
                       && (onward.state.current.Some? == r.value.current.Some?)
                       && (onward.state.current.Some? ==> r.value.current.value.id == onward.state.current.value.id)))
  {
    var cp := s.saved.value;
    RoundTrip(cp);
    if !Blocked(c, g, cp) {
      ResumeLands(c, m, s, node, o, time, g);
    }
  }

  lemma ResumeLands(c: Config, m: Memory, s: State, node: Node, o: Outcome, time: string, g: Graph)
    requires JustSaved(c, s, node, o, time) && Recoverable(c, s, node, o) && SameShape(s.graph, g)
    requires !Blocked(c, g, s.saved.value)
    ensures var r := Resume(c, m, g, s.saved.value);
            var next := NextEdge(c, s, node, o);
            && r.Some? && r.value.books.completed == s.books.completed
            && (next.Some? ==> r.value.current == FindNode(g, next.value.to))
            && (next.Some? ==> FindNode(s.graph, next.value.to).Some? == FindNode(g, next.value.to).Some?)
  {
    hide NextEdge, Blocked, Save, CountersFit, Restore, Recoverable;
    SavedAs(c, s, node, o, time);
    var cp := s.saved.value;
    SameShapeFinds(s.graph.nodes, g.nodes, node.id, EXIT);
    FoundIn(s.graph.nodes, node);
    var current, exit := FindNode(g, node.id), FirstOfType(g.nodes, EXIT);
    var r := Restore(c, m, g, current.value, exit.value, cp);
    RestoredAlike(c, m, s, node, o, time, g, current.value, exit.value);
    if NextEdge(c, s, node, o).Some? {
      SameShapeFinds(s.graph.nodes, g.nodes, NextEdge(c, s, node, o).value.to, EXIT);
    }
  }

  lemma SavedAs(c: Config, s: State, node: Node, o: Outcome, time: string)
    requires JustSaved(c, s, node, o, time)
    ensures s.saved.Some?
    ensures var cp := s.saved.value;
            cp.currentNode == node.id && cp.completedNodes == s.books.completed && cp.context == s.ctx
              && cp.graphFile == c.graphFile
  {
  }

  /** The restored state chooses the same edge out of the node. */
  lemma RestoredAlike(c: Config, m: Memory, s: State, node: Node, o: Outcome, time: string, g: Graph, current: Node,
                      exit: Node)
    requires JustSaved(c, s, node, o, time) && Recoverable(c, s, node, o) && SameShape(s.graph, g)
             && current.id == node.id
    ensures var r := Restore(c, m, g, current, exit, s.saved.value);
            && r.graph == g && r.current == Some(current) && r.books.completed == s.books.completed
            && NextEdge(c, r, current, Outcome(SUCCESS, Get(r.ctx, "human.gate.selected"), [], map[], ""))
               == NextEdge(c, s, node, o)
  {
    hide Choice, Save, CountersFit, CycleLimit, PathUnread, Outgoing;
    SavedAs(c, s, node, o, time);
    var r := Restore(c, m, g, current, exit, s.saved.value);
    var edges := Outgoing(g.edges, node.id);
    var plain := Outcome(SUCCESS, Get(s.ctx, "human.gate.selected"), [], map[], "");
    assert PATH_KEY[0] != "human.gate.selected"[0];
    assert Get(r.ctx, "human.gate.selected") == Get(s.ctx, "human.gate.selected");
    if r.ctx != s.ctx {
      assert r.ctx == s.ctx[PATH_KEY := c.clip(c.graphFile)];
      ChoiceBesidePath(c.read, edges, plain, s.ctx, c.clip(c.graphFile));
    }
    ChoiceAlike(c.read, edges, o, plain, s.ctx);
  }

  // ---- goal gates ----------------------------------------------------------------------------

  /** Every completed node is restored as a success: a gate satisfied before is
      satisfied after, and one unsatisfied before becomes satisfied exactly when its
      node was completed with another outcome -- skipped, or failed on a later visit. */
  lemma GateVerdictAfterResume(c: Config, m: Memory, b: Books, g: Graph, current: Node, exit: Node, cp: Checkpoint,
                               id: string)
    requires Kept(b) && cp.completedNodes == b.completed
    ensures var restored := Restore(c, m, g, current, exit, cp).books;
            Satisfied(restored.outcomes, id) == Satisfied(b.outcomes, id)
            <==> (id in b.completed ==> b.outcomes[id] == SUCCESS || b.outcomes[id] == PARTIAL_SUCCESS)
  {
    hide Blocked, CycleLimit;
    assert id !in b.completed ==> !Satisfied(b.outcomes, id);
  }

  /** A skipped goal gate, its id not being empty, holds the run back until it is resumed. */
  lemma SkippedGatePassesAfterResume(c: Config, m: Memory, gate: Node, exit: Node, g: Graph, cp: Checkpoint)
    requires IsTrue(gate.attrs, "goal_gate") && g.nodes == [gate, exit] && !IsTrue(exit.attrs, "goal_gate")
    requires cp.completedNodes == [gate.id]
    ensures var before := Record(c, Books([], map[], map[]), gate, SKIP);
            && before.completed == cp.completedNodes
            && FirstUnsatisfied(g.nodes, before.outcomes) == Some(gate)
            && FirstUnsatisfied(g.nodes, Restore(c, m, g, gate, exit, cp).books.outcomes) == None
  {
    var after := Restore(c, m, g, gate, exit, cp).books.outcomes;
    assert gate.id in cp.completedNodes;
    assert Satisfied(after, gate.id);
    assert g.nodes[1..] == [exit] && [exit][1..] == [];
    assert FirstUnsatisfied([], after) == None;
    assert FirstUnsatisfied([exit], after) == None;
  }

  // ---- what resume forgets -------------------------------------------------------------------

  /** The conditions of ResumeTakesTheSameEdge are needed: a suggested next node is not
      in the checkpoint, so a run that would go to `b` is resumed towards `a`. */
  lemma ResumeForgetsSuggestions(read: ConditionReader, ctx: Context, out: string)
    ensures var toA, toB := Edge("n", "a", map[]), Edge("n", "b", map[]);
            && Choice(read, [toA, toB], Outcome(SUCCESS, "", ["b"], map[], out), ctx) == Some(toB)
            && Choice(read, [toA, toB], Outcome(SUCCESS, "", [], map[], ""), ctx) == Some(toA)
  {
    var toA, toB := Edge("n", "a", map[]), Edge("n", "b", map[]);
    var edges := [toA, toB];
    var o1, o2 := Outcome(SUCCESS, "", ["b"], map[], out), Outcome(SUCCESS, "", [], map[], "");
    AllUnconditional(read, edges, o1, ctx);
    AllUnconditional(read, edges, o2, ctx);
    assert FirstTo(edges[1..], "b") == Some(toB);
    assert FirstTo(edges, "b") == Some(toB);
    assert FirstSuggested(edges, ["b"]) == Some(toB);
    assert !Outweighs(edges, 0) && !Outweighs(edges, 1);
    assert Less("a", "b");
    TieGoesToLeastTarget(read, edges, o2, ctx, 0);
  }

  /** And so is the one on the path: after a loop restart the context has lost the path
      that resume writes again, so a condition that reads it turns from `b` to `a`. */
  lemma ResumeRestoresThePath(read: ConditionReader, ctx: Context, path: string, out: string)
    requires read("c") == Some([Clause("context." + PATH_KEY, "=", path)])
    requires PATH_KEY !in ctx && path != ""
    ensures var toA, toB := Edge("n", "a", map["condition" := "c"]), Edge("n", "b", map[]);
            var o := Outcome(SUCCESS, "", [], map[], out);
            && ReadsPath(read, toA)
            && Choice(read, [toA, toB], o, ctx) == Some(toB)
            && Choice(read, [toA, toB], o, ctx[PATH_KEY := path]) == Some(toA)
  {
    hide Choice;
    var toA, toB := Edge("n", "a", map["condition" := "c"]), Edge("n", "b", map[]);
    var o := Outcome(SUCCESS, "", [], map[], out);
    var variable := "context." + PATH_KEY;
    assert variable[..8] == "context." && variable[8..] == PATH_KEY && variable[0] == 'c' && variable[1] == 'o';
    assert read("c").value[0].variable == variable;
    assert |Lower(path)| == |path| && Lower("") == "";
    assert Judge(read, toA, o, ctx) == Rejected && Judge(read, toA, o, ctx[PATH_KEY := path]) == Matched;
    FallsBack(read, toA, toB, o, ctx);
    TakesMatch(read, toA, toB, o, ctx[PATH_KEY := path]);
  }

  lemma PairJudged(read: ConditionReader, first: Edge, second: Edge, o: Outcome, ctx: Context, v: Verdict)
    ensures Judged(read, [first, second], o, ctx, v)
            == (if Judge(read, first, o, ctx) == v then [first] else [])
               + if Judge(read, second, o, ctx) == v then [second] else []
  {
    hide Judge;
    assert [first, second][..1] == [first] && [first][..0] == [];
    assert Judged(read, [first], o, ctx, v) == if Judge(read, first, o, ctx) == v then [first] else [];
  }

  lemma FallsBack(read: ConditionReader, first: Edge, second: Edge, o: Outcome, ctx: Context)
    requires Judge(read, first, o, ctx) == Rejected && Judge(read, second, o, ctx) == Unconditional
    ensures Choice(read, [first, second], o, ctx) == Some(second)
  {
    hide Judge;
    PairJudged(read, first, second, o, ctx, Matched);
    PairJudged(read, first, second, o, ctx, Unconditional);
  }

  lemma TakesMatch(read: ConditionReader, first: Edge, second: Edge, o: Outcome, ctx: Context)
    requires Judge(read, first, o, ctx) == Matched && Judge(read, second, o, ctx) == Unconditional
    ensures Choice(read, [first, second], o, ctx) == Some(first)
  {
    hide Judge;
    PairJudged(read, first, second, o, ctx, Matched);
  }
}
