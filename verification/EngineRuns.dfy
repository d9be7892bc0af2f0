/** What holds over every run of the engine. */
module EngineRuns {
  import opened Text
  import opened Graphs
  import opened Outcomes
  import opened EdgeSelection
  import opened Checkpoints
  import opened Engine

  // ---- the completed list ------------------------------------------------------------

  ghost predicate NoRepeats(s: seq<string>)
  {
    forall i, j :: 0 <= i < j < |s| ==> s[i] != s[j]
  }

  /** Completed nodes are listed once and have an outcome and a hash; a node whose
      outcome satisfies a gate is listed. */
  ghost predicate Kept(b: Books)
  {
    && NoRepeats(b.completed)
    && (forall id :: id in b.completed ==> id in b.outcomes && id in b.hashes)
    && (forall id :: Satisfied(b.outcomes, id) ==> id in b.completed)
  }

  /** A checkpoint as the engine writes it. */
  ghost predicate WellKept(cp: Checkpoint)
  {
    NoRepeats(cp.completedNodes) && forall id :: id in cp.completedNodes ==> id in cp.completedNodeHashes
  }

  ghost predicate Bookkept(s: State)
  {
    Kept(s.books) && (s.saved.Some? ==> WellKept(s.saved.value))
  }

  lemma RecordKeeps(c: Config, b: Books, node: Node, status: StageStatus)
    requires Kept(b)
    ensures Kept(Record(c, b, node, status))
  {
  }

  lemma {:induction false} RecordAllKeeps(c: Config, b: Books, records: seq<Completion>)
    requires Kept(b)
    ensures Kept(RecordAll(c, b, records))
  {
    if records != [] {
      RecordAllKeeps(c, b, records[..|records| - 1]);
      var last := records[|records| - 1];
      RecordKeeps(c, RecordAll(c, b, records[..|records| - 1]), last.node, last.status);
    }
  }

  // ---- the state between turns ---------------------------------------------------------

  /** Every edge out of a node with a conditional edge ends in a node: where such an edge
      leads, recovery from a failure leads. */
  ghost predicate RecoveryClosed(g: Graph)
  {
    forall e :: e in g.edges && AnyConditional(Outgoing(g.edges, e.from)) ==> e.to in Ids(g)
  }

  /** What the loop needs of a graph: a promoted node goes on along any edge, so with
      troubleshooting on every edge must end in a node. */
  ghost predicate RoutesClosed(c: Config, g: Graph)
  {
    if c.troubleshoot then Closed(g) else RecoveryClosed(g)
  }

  /** The exit belongs to the graph, whose recovery edges end in nodes. */
  ghost predicate Grounded(s: State)
  {
    RecoveryClosed(s.graph) && IsExit(s.graph, s.exitNode)
  }

  ghost predicate IsExit(g: Graph, n: Node)
  {
    n in g.nodes && n.nodeType == EXIT
  }

  ghost predicate Placed(s: State)
  {
    s.current.Some? && s.current.value in s.graph.nodes
  }

  /** No failure signature has been seen as often as the limit. */
  ghost predicate BelowLimit(s: State)
  {
    CountsBelow(s.signatures, s.cycleLimit)
  }

  ghost predicate CountsBelow(signatures: map<string, int>, limit: int)
  {
    limit >= 1 && forall sig :: Count(signatures, sig) < limit
  }

  ghost predicate Fit(s: State)
  {
    Bookkept(s) && Grounded(s) && BelowLimit(s)
  }

  /** No goal gate has an empty id. */
  ghost predicate GatesNamed(g: Graph)
  {
    forall n :: n in g.nodes && IsTrue(n.attrs, "goal_gate") ==> n.id != ""
  }

  ghost predicate AllGatesMet(g: Graph, outcomes: map<string, StageStatus>)
  {
    forall n :: n in g.nodes && IsTrue(n.attrs, "goal_gate") ==> Satisfied(outcomes, n.id)
  }

  /** What the check enforces: every gate, or every gate before the first unsatisfied
      one when the id of that one is empty. */
  ghost predicate GatesEnforced(g: Graph, outcomes: map<string, StageStatus>)
  {
    AllGatesMet(g, outcomes) || exists k :: IsFirstUnmet(g.nodes, outcomes, k) && g.nodes[k].id == ""
  }

  /** The check ends in success exactly when the enforced gates are satisfied. */
  lemma GatesEnforcedExactly(s: State)
    ensures CheckGates(s).ending == Some(Completed) <==> GatesEnforced(s.graph, s.books.outcomes)
    ensures GatesNamed(s.graph) ==> (CheckGates(s).ending == Some(Completed)
                                     <==> AllGatesMet(s.graph, s.books.outcomes))
  {
    hide FirstTarget, RetryTargets;
    var nodes, outcomes := s.graph.nodes, s.books.outcomes;
    var gate := FirstUnsatisfied(nodes, outcomes);
    if gate.Some? {
      var k :| IsFirstUnmet(nodes, outcomes, k) && nodes[k] == gate.value;
      assert nodes[k] in nodes;
      forall m | IsFirstUnmet(nodes, outcomes, m) ensures m == k {}
    } else {
      forall m ensures !IsFirstUnmet(nodes, outcomes, m) {}
      forall n | n in nodes && IsTrue(n.attrs, "goal_gate") ensures Satisfied(outcomes, n.id) {
        assert !Unmet(n, outcomes);
      }
    }
  }

  /** The exit was recorded complete, and the goal gates are satisfied as far as the check
      enforces them: all of them, unless one has an empty id. */
  ghost predicate Accomplished(s: State)
  {
    && s.exitNode.id in s.books.completed && Satisfied(s.books.outcomes, s.exitNode.id)
    && GatesEnforced(s.graph, s.books.outcomes)
    && (GatesNamed(s.graph) ==> AllGatesMet(s.graph, s.books.outcomes))
  }

  /** After a turn: either the loop stands on a node of the graph, or it has returned,
      and successfully only when everything is accomplished. */
  ghost predicate Good(t: Turn)
  {
    && Bookkept(t.state) && Grounded(t.state)
    && (t.ending.None? ==> Placed(t.state) && BelowLimit(t.state))
    && (t.ending == Some(Completed) ==> Accomplished(t.state))
    && CountsBelow(t.state.signatures, t.state.cycleLimit + 1)
  }

  // Ways to end a turn.

  lemma GoGood(s: State, to: Option<Node>)
    requires Fit(s) && to.Some? && to.value in s.graph.nodes
    ensures Good(Go(s.(current := to)))
  {
  }

  lemma StopGood(s: State, e: Ending)
    requires Fit(s) && e != Completed
    ensures Good(Stop(s, e))
  {
  }

  // Ways to change the state within a turn.

  lemma CtxFit(s: State, ctx: Context, retries: map<string, int>)
    requires Fit(s)
    ensures Fit(s.(ctx := ctx)) && Fit(s.(ctx := ctx, retries := retries)) && Fit(s.(retries := retries))
  {
  }

  lemma SaveFit(c: Config, s: State, node: string, time: string)
    requires Fit(s)
    ensures Fit(Save(c, s, node, time))
    ensures Save(c, s, node, time) == s.(saved := Save(c, s, node, time).saved)
  {
  }

  lemma RecordFit(c: Config, s: State, ctx: Context, node: Node, status: StageStatus)
    requires Fit(s)
    ensures Fit(s.(ctx := ctx, books := Record(c, s.books, node, status)))
  {
    RecordKeeps(c, s.books, node, status);
  }

  lemma HandledFit(c: Config, s: State, a: Answer)
    requires Fit(s)
    ensures Fit(Handled(c, s, a)) && Handled(c, s, a).exitNode == s.exitNode
  {
    RecordAllKeeps(c, s.books, a.records);
  }

  lemma RestartFit(s: State, ctx: Context)
    requires Fit(s)
    ensures Fit(s.(ctx := ctx, books := s.books.(completed := [], outcomes := map[])))
  {
    assert Kept(s.books.(completed := [], outcomes := map[]));
  }

  lemma EdgeTargetExists(c: Config, s: State, node: Node, o: Outcome)
    requires Closed(s.graph) || (RecoveryClosed(s.graph) && AnyConditional(Outgoing(s.graph.edges, node.id)))
    ensures var next := NextEdge(c, s, node, o);
            next.Some? ==> FindNode(s.graph, next.value.to).Some?
  {
    ChoiceRespectsConditions(c.read, Outgoing(s.graph.edges, node.id), o, s.ctx);
    OutgoingMember(s.graph.edges, node.id);
  }

  // The turns themselves.

  /** A missing target ends the run. */
  lemma MissingGood(s: State, to: string)
    requires Fit(s)
    ensures Good(Stop(s.(current := None), TargetMissing(to)))
  {
  }

  lemma AdvanceGood(c: Config, s: State, node: Node, o: Outcome)
    requires Fit(s)
    ensures Good(Advance(c, s, node, o))
  {
    hide Good, Fit, NextEdge, Restarted, Get;
    var next := NextEdge(c, s, node, o);
    RestartFit(s, Restarted(c, s.ctx));
    if next.None? {
      StopGood(s, NoEdge(node.id));
    } else {
      var to := FindNode(s.graph, next.value.to);
      var restarted := s.(ctx := Restarted(c, s.ctx), books := s.books.(completed := [], outcomes := map[]));
      if to.Some? {
        GoGood(s, to);
        GoGood(restarted, to);
      } else {
        MissingGood(s, next.value.to);
        MissingGood(restarted, next.value.to);
      }
    }
  }

  lemma FitRoutes(s: State)
    requires Fit(s)
    ensures RecoveryClosed(s.graph)
  {
  }

  lemma RecoverGood(c: Config, s: State, node: Node, o: Outcome, a: Answer)
    requires Fit(s)
    ensures Good(Recover(c, s, node, o, a))
  {
    hide Good, Fit, NextEdge, Save, RetryTargets;
    var t := Save(c, s, node.id, a.time);
    var next := NextEdge(c, s, node, o);
    var target := FirstTarget(s.graph, RetryTargets(s.graph, Some(node)));
    FitRoutes(s);
    if AnyConditional(Outgoing(s.graph.edges, node.id)) { EdgeTargetExists(c, s, node, o); }
    SaveFit(c, s, node.id, a.time);
    if AnyConditional(Outgoing(s.graph.edges, node.id)) && next.Some? {
      GoGood(t, FindNode(s.graph, next.value.to));
    } else if target.Some? {
      GoGood(t, target);
    } else {
      StopGood(t, StageFailed(node.id, o.output));
    }
  }

  lemma AtDoneGood(c: Config, s: State, node: Node, o: Outcome, a: Answer)
    requires Fit(s)
    ensures Good(AtDone(c, s, node, o, a))
  {
    hide Good, Fit, NextEdge, Save, Record, Advance;
    var ctx := Put(c, ApplyUpdates(c, s.ctx, o.contextUpdates), "needle.last_outcome.status", StatusName(o.status));
    RecordFit(c, s, ctx, node, o.status);
    var r := s.(ctx := ctx, books := Record(c, s.books, node, o.status));
    var t := Save(c, r, node.id, a.time);
    SaveFit(c, r, node.id, a.time);
    var u := t.(ctx := Put(c, t.ctx, "parallel.fan_in_target", ""));
    CtxFit(t, u.ctx, t.retries);
    AdvanceGood(c, t, node, o);
    AdvanceGood(c, u, node, o);
    var fanIn := if "parallel.fan_in_target" in o.contextUpdates then o.contextUpdates["parallel.fan_in_target"]
                 else Get(t.ctx, "parallel.fan_in_target");
    if FindNode(u.graph, fanIn).Some? {
      GoGood(u, FindNode(u.graph, fanIn));
    }
  }

  lemma CheckGatesGood(s: State)
    requires Fit(s) && s.exitNode.id in s.books.completed && Satisfied(s.books.outcomes, s.exitNode.id)
    ensures Good(CheckGates(s))
  {
    hide GatesEnforced, GatesNamed, AllGatesMet, RetryTargets, UnsatisfiedNode;
    GatesEnforcedExactly(s);
    var gate := UnsatisfiedNode(s.graph.nodes, s.books.outcomes);
    if gate != "" {
      var target := FirstTarget(s.graph, RetryTargets(s.graph, FindNode(s.graph, gate)));
      if target.Some? { GoGood(s, target); } else { StopGood(s, GateUnsatisfied(gate)); }
    }
  }

  lemma RecordsSuccess(c: Config, b: Books, node: Node)
    ensures var r := Record(c, b, node, SUCCESS); node.id in r.completed && Satisfied(r.outcomes, node.id)
  {
  }

  lemma AtExitGood(c: Config, s: State, node: Node, a: Answer)
    requires Fit(s) && node.id == s.exitNode.id
    ensures Good(AtExit(c, s, node, a))
  {
    hide Good, Fit, CheckGates, Record, Handled, ApplyUpdates;
    var h := Handled(c, s, a);
    var t := match a.reply
             case Unregistered => s
             case Raised(_) => h
             case Replied(o) => h.(ctx := ApplyUpdates(c, h.ctx, o.contextUpdates));
    HandledFit(c, s, a);
    CtxFit(h, t.ctx, h.retries);
    RecordFit(c, t, t.ctx, node, SUCCESS);
    var r := t.(books := Record(c, t.books, node, SUCCESS));
    SaveFit(c, r, node.id, a.time);
    RecordsSuccess(c, t.books, node);
    CheckGatesGood(Save(c, r, node.id, a.time));
  }

  /** A graph handed to the engine after troubleshooting is closed, as built graphs are. */
  ghost predicate ReloadsClosed(c: Config, a: Answer)
  {
    c.troubleshoot && a.diagnosis.Resumed? && a.diagnosis.reloaded.Some? ==> Closed(a.diagnosis.reloaded.value)
  }

  lemma ReloadFit(s: State, node: Node, reloaded: Option<Graph>)
    requires Fit(s) && Placed(s) && (reloaded.Some? ==> Closed(reloaded.value))
    ensures Fit(Reload(s, node, reloaded)) && Placed(Reload(s, node, reloaded))
  {
  }

  lemma DiagnoseGood(c: Config, s: State, node: Node, o: Outcome, a: Answer)
    requires c.troubleshoot && Fit(s) && Placed(s) && ReloadsClosed(c, a) && Closed(s.graph)
    ensures Good(Diagnose(c, s, node, o, a))
  {
    hide Good, Fit, NextEdge, Save, Record, Recover, Reload;
    match a.diagnosis
    case NoAction => RecoverGood(c, s, node, o, a);
    case Escalated(report) =>
      SaveFit(c, s, node.id, a.time);
      StopGood(Save(c, s, node.id, a.time), EscalatedTo(report));
    case Resumed(reloaded) =>
      var r := Reload(s, node, reloaded);
      ReloadFit(s, node, reloaded);
      SaveFit(c, r, node.id, a.time);
      GoGood(Save(c, r, node.id, a.time), r.current);
    case Promoted(artifact) =>
      var ctx := Put(c, Put(c, Put(c, s.ctx, "codergen." + node.id + ".output", artifact),
                                "tool." + node.id + ".output", artifact),
                     "needle.last_outcome.status", "SUCCESS");
      RecordFit(c, s, ctx, node, SUCCESS);
      var r := s.(ctx := ctx, books := Record(c, s.books, node, SUCCESS));
      var t := Save(c, r, node.id, a.time);
      SaveFit(c, r, node.id, a.time);
      var promoted := Outcome(SUCCESS, "", [], map[], artifact);
      EdgeTargetExists(c, t, node, promoted);
      var next := NextEdge(c, t, node, promoted);
      if next.None? { StopGood(t, NoEdge(node.id)); } else { GoGood(t, FindNode(t.graph, next.value.to)); }
  }

  lemma AtFailureGood(c: Config, s: State, node: Node, o: Outcome, a: Answer)
    requires Fit(s) && Placed(s) && ReloadsClosed(c, a) && RoutesClosed(c, s.graph)
    ensures Good(AtFailure(c, s, node, o, a))
  {
    hide Save, Diagnose, Recover;
    var sig := Signature(node, o);
    var t := s.(ctx := Put(c, ApplyUpdates(c, s.ctx, o.contextUpdates), "needle.last_outcome.status", "FAILURE"),
                signatures := Bump(s.signatures, sig));
    assert forall k :: Count(t.signatures, k) == Count(s.signatures, k) + if k == sig then 1 else 0;
    if t.signatures[sig] < t.cycleLimit {
      assert Fit(t) && Placed(t);
      CtxFit(t, a.diagnosisCtx, t.retries);
      if c.troubleshoot { DiagnoseGood(c, t.(ctx := a.diagnosisCtx), node, o, a); }
      RecoverGood(c, t, node, o, a);
    } else {
      CycleGood(c, t, node, a.time);
    }
  }

  lemma CycleGood(c: Config, s: State, node: Node, time: string)
    requires Bookkept(s) && Grounded(s) && CountsBelow(s.signatures, s.cycleLimit + 1)
    ensures Good(Stop(Save(c, s, node.id, time), CycleDetected(node.id)))
  {
  }

  lemma HandledPlaced(c: Config, s: State, a: Answer)
    requires Placed(s)
    ensures Placed(Handled(c, s, a)) && Handled(c, s, a).graph == s.graph
  {
  }

  lemma AtNodeGood(c: Config, s: State, node: Node, a: Answer)
    requires Fit(s) && Placed(s) && ReloadsClosed(c, a) && RoutesClosed(c, s.graph)
    ensures Good(AtNode(c, s, node, a))
  {
    hide Good, Fit, Handled, AtDone, AtFailure;
    var t := Handled(c, s, a);
    HandledFit(c, s, a);
    HandledPlaced(c, s, a);
    match a.reply
    case Unregistered => StopGood(s, NoHandlerFor(node.id));
    case Raised(error) => StopGood(t, HandlerFailed(error));
    case Replied(o) =>
      match o.status
      case RETRY =>
        CtxFit(t, t.ctx, Bump(t.retries, node.id));
        GoGood(t.(retries := Bump(t.retries, node.id)), t.current);
        StopGood(t, RetriesExhausted(node.id));
        AtDoneGood(c, t, node, o.(status := PARTIAL_SUCCESS, output := "retries exhausted, partial accepted"), a);
      case FAILURE => AtFailureGood(c, t, node, o, a);
      case _ => AtDoneGood(c, t, node, o, a);
  }

  // The graph changes only by a reload.

  ghost predicate SameGraph(s: State, t: Turn) { t.state.graph == s.graph }

  lemma AdvanceKeepsGraph(c: Config, s: State, node: Node, o: Outcome)
    ensures SameGraph(s, Advance(c, s, node, o))
  {
    hide NextEdge, Restarted;
  }

  lemma RecoverKeepsGraph(c: Config, s: State, node: Node, o: Outcome, a: Answer)
    ensures SameGraph(s, Recover(c, s, node, o, a))
  {
    hide NextEdge, RetryTargets, AnyConditional;
  }

  lemma AtDoneKeepsGraph(c: Config, s: State, node: Node, o: Outcome, a: Answer)
    ensures SameGraph(s, AtDone(c, s, node, o, a))
  {
    hide Advance, Record, StatusName, ApplyUpdates;
    var ctx := Put(c, ApplyUpdates(c, s.ctx, o.contextUpdates), "needle.last_outcome.status", StatusName(o.status));
    var t := Save(c, s.(ctx := ctx, books := Record(c, s.books, node, o.status)), node.id, a.time);
    AdvanceKeepsGraph(c, t, node, o);
    AdvanceKeepsGraph(c, t.(ctx := Put(c, t.ctx, "parallel.fan_in_target", "")), node, o);
  }

  lemma CheckGatesKeeps(s: State)
    ensures var t := CheckGates(s);
            && t.state.graph == s.graph && t.state.books == s.books
            && (UnsatisfiedNode(s.graph.nodes, s.books.outcomes) == "" ==> t.ending == Some(Completed))
  {
    hide UnsatisfiedNode, RetryTargets, FirstTarget;
  }

  /** The state whose gates are checked at the exit. */
  function Arrived(c: Config, s: State, node: Node, a: Answer): State
  {
    var t := match a.reply
             case Unregistered => s
             case Raised(_) => Handled(c, s, a)
             case Replied(o) => var h := Handled(c, s, a); h.(ctx := ApplyUpdates(c, h.ctx, o.contextUpdates));
    Save(c, t.(books := Record(c, t.books, node, SUCCESS)), node.id, a.time)
  }

  lemma AtExitKeepsGraph(c: Config, s: State, node: Node, a: Answer)
    ensures SameGraph(s, AtExit(c, s, node, a)) && AtExit(c, s, node, a) == CheckGates(Arrived(c, s, node, a))
  {
    hide CheckGates, Record, ApplyUpdates;
    CheckGatesKeeps(Arrived(c, s, node, a));
  }

  /** `g` is the graph of the state, or the one this turn's answer reloads. */
  ghost predicate Origin(c: Config, s: State, a: Answer, g: Graph)
  {
    g == s.graph || (c.troubleshoot && a.diagnosis.Resumed? && a.diagnosis.reloaded == Some(g))
  }

  lemma DiagnoseOrigin(c: Config, s: State, node: Node, o: Outcome, a: Answer)
    requires c.troubleshoot
    ensures Origin(c, s, a, Diagnose(c, s, node, o, a).state.graph)
  {
    hide Recover, NextEdge, Record;
    RecoverKeepsGraph(c, s, node, o, a);
  }

  lemma AtFailureOrigin(c: Config, s: State, node: Node, o: Outcome, a: Answer)
    ensures Origin(c, s, a, AtFailure(c, s, node, o, a).state.graph)
  {
    hide Recover, Diagnose, Signature;
    var t := s.(ctx := Put(c, ApplyUpdates(c, s.ctx, o.contextUpdates), "needle.last_outcome.status", "FAILURE"),
                signatures := Bump(s.signatures, Signature(node, o)));
    RecoverKeepsGraph(c, t, node, o, a);
    if c.troubleshoot { DiagnoseOrigin(c, t.(ctx := a.diagnosisCtx), node, o, a); }
  }

  lemma AtNodeOrigin(c: Config, s: State, node: Node, a: Answer)
    ensures Origin(c, s, a, AtNode(c, s, node, a).state.graph)
  {
    hide AtFailure, AtDone, MaxRetries, IsTrue, RecordAll, BumpAll;
    var t := Handled(c, s, a);
    match a.reply
    case Unregistered =>
    case Raised(_) =>
    case Replied(o) =>
      match o.status
      case FAILURE => AtFailureOrigin(c, t, node, o, a);
      case RETRY => AtDoneKeepsGraph(c, t, node,
                                     o.(status := PARTIAL_SUCCESS, output := "retries exhausted, partial accepted"), a);
      case _ => AtDoneKeepsGraph(c, t, node, o, a);
  }

  lemma StepOrigin(c: Config, s: State, a: Answer)
    ensures Origin(c, s, a, Step(c, s, a).state.graph)
  {
    hide AtNode, AtExit, CheckGates;
    var s1 := s.(cancelled := s.cancelled || a.cancel);
    CheckGatesKeeps(s1);
    if s.current.Some? {
      AtExitKeepsGraph(c, s1, s.current.value, a);
      AtNodeOrigin(c, s1, s.current.value, a);
    }
  }

  /** A property of the first graph and of every reload is one of the graph at any time. */
  lemma {:induction false} RunOrigin(c: Config, s: State, answers: seq<Answer>)
    ensures var g := Run(c, s, answers).state.graph;
            || g == s.graph
            || (c.troubleshoot
                && exists i :: 0 <= i < |answers|
                               && answers[i].diagnosis.Resumed? && answers[i].diagnosis.reloaded == Some(g))
  {
    hide Step;
    if answers != [] {
      var init, last := answers[..|answers| - 1], answers[|answers| - 1];
      RunOrigin(c, s, init);
      StepOrigin(c, Run(c, s, init).state, last);
      var g := Run(c, s, answers).state.graph;
      if i :| 0 <= i < |init| && init[i].diagnosis.Resumed? && init[i].diagnosis.reloaded == Some(g) {
        assert answers[i] == init[i];
      }
    }
  }

  lemma CancelFit(s: State, cancelled: bool)
    requires Fit(s)
    ensures Fit(s.(cancelled := cancelled))
  {
  }

  /** Every turn of the loop preserves the invariant, whatever completions the branches
      of a parallel stage recorded meanwhile. */
  lemma StepGood(c: Config, s: State, a: Answer)
    requires Fit(s) && Placed(s) && ReloadsClosed(c, a) && RoutesClosed(c, s.graph)
    ensures Good(Step(c, s, a)) && RoutesClosed(c, Step(c, s, a).state.graph)
  {
    StepOrigin(c, s, a);
    hide Good, Fit, AtExit, AtNode;
    var s1 := s.(cancelled := s.cancelled || a.cancel);
    var node := s.current.value;
    CancelFit(s, s1.cancelled);
    if s1.cancelled {
      StopGood(s1, Cancelled);
    } else if node.id == s.exitNode.id {
      AtExitGood(c, s1, node, a);
    } else {
      AtNodeGood(c, s1, node, a);
    }
  }

  ghost predicate AllReloadsClosed(c: Config, answers: seq<Answer>)
  {
    forall i :: 0 <= i < |answers| ==> ReloadsClosed(c, answers[i])
  }

  /** Over every run: the current node is never null, the completed list stays
      consistent, no failure signature passes the limit, and a successful return means
      the exit was completed with the enforced goal gates satisfied, all of them if none
      has an empty id -- through all failure routes, loop restarts and gate re-entries. */
  lemma {:induction false} EveryRunIsGood(c: Config, s: State, answers: seq<Answer>)
    requires Fit(s) && Placed(s) && AllReloadsClosed(c, answers) && RoutesClosed(c, s.graph)
    ensures Good(Run(c, s, answers)) && RoutesClosed(c, Run(c, s, answers).state.graph)
  {
    if answers != [] {
      var before := Run(c, s, answers[..|answers| - 1]);
      EveryRunIsGood(c, s, answers[..|answers| - 1]);
      if before.ending.None? {
        assert Fit(before.state) && Placed(before.state);
        StepGood(c, before.state, answers[|answers| - 1]);
      }
    }
  }

  // ---- from the start of a run, or from a checkpoint -------------------------------------

  lemma LaunchedRunIsGood(c: Config, m: Memory, g: Graph, ctx: Context, answers: seq<Answer>)
    requires RoutesClosed(c, g) && m.cycleLimit >= 1 && AllReloadsClosed(c, answers)
    ensures var s := Launch(c, m, g, ctx); s.Some? ==> Good(Run(c, s.value, answers))
  {
    var s := Launch(c, m, g, ctx);
    if s.Some? {
      assert Fit(s.value) && Placed(s.value);
      EveryRunIsGood(c, s.value, answers);
    }
  }

  lemma RestoreFit(c: Config, m: Memory, g: Graph, current: Node, exit: Node, cp: Checkpoint)
    requires Closed(g) && m.cycleLimit >= 1 && WellKept(cp) && current in g.nodes && IsExit(g, exit)
    ensures Fit(Restore(c, m, g, current, exit, cp)) && Placed(Restore(c, m, g, current, exit, cp))
  {
  }

  lemma ResumeFit(c: Config, m: Memory, g: Graph, cp: Checkpoint)
    requires Closed(g) && m.cycleLimit >= 1 && WellKept(cp)
    ensures var s := Resume(c, m, g, cp);
            s.Some? ==>
              Fit(s.value) && Placed(s.value) && s.value.graph == g && s.value.books.completed == cp.completedNodes
  {
    var current, exit := FindNode(g, cp.currentNode), FirstOfType(g.nodes, EXIT);
    if current.Some? && exit.Some? {
      var r := Restore(c, m, g, current.value, exit.value, cp);
      RestoreFit(c, m, g, current.value, exit.value, cp);
      var skip := Outcome(SUCCESS, Get(r.ctx, "human.gate.selected"), [], map[], "");
      EdgeTargetExists(c, r, current.value, skip);
      assert r.books.completed == cp.completedNodes;
      hide Restore, NextEdge, Blocked;
      var next := NextEdge(c, r, current.value, skip);
      if next.Some? { GoGood(r, FindNode(g, next.value.to)); }
    }
  }

  /** A run resumed from a checkpoint the engine wrote, read back from its JSON. */
  lemma ResumedRunIsGood(c: Config, m: Memory, g: Graph, before: Turn, answers: seq<Answer>)
    requires Closed(g) && m.cycleLimit >= 1 && AllReloadsClosed(c, answers)
    requires Good(before) && before.state.saved.Some? && CountersFit(before.state.saved.value.retryCounters)
    ensures var cp := FromJson(ToJson(before.state.saved.value));
            && cp.Some?
            && var s := Resume(c, m, g, cp.value); s.Some? ==>
                 s.value.books.completed == before.state.saved.value.completedNodes
                 && Good(Run(c, s.value, answers))
  {
    hide Resume, Run, FromJson, ToJson;
    var cp := before.state.saved.value;
    RoundTrip(cp);
    ResumeFit(c, m, g, cp);
    var s := Resume(c, m, g, cp);
    if s.Some? {
      EveryRunIsGood(c, s.value, answers);
    }
  }

  // ---- gates without a name -----------------------------------------------------------------

  /** A gate whose id is empty, unsatisfied when the run reaches its exit, is passed over:
      the run succeeds. */
  lemma NamelessGateGoesUnnoticed(c: Config, s: State, gate: Node, a: Answer)
    requires s.graph.nodes == [gate, s.exitNode] && gate.id == "" != s.exitNode.id && IsTrue(gate.attrs, "goal_gate")
    requires s.current == Some(s.exitNode) && !s.cancelled && !a.cancel && a.records == []
             && !Satisfied(s.books.outcomes, "")
    ensures var t := Step(c, s, a); t.ending == Some(Completed) && !Satisfied(t.state.books.outcomes, gate.id)
  {
    NamelessFirst(s.graph.nodes, s.books.outcomes[s.exitNode.id := SUCCESS]);
    hide AtNode, AtExit, UnsatisfiedNode;
    var s1 := s.(cancelled := false);
    AtExitOutcomes(c, s1, s.exitNode, a);
    assert Unmet(s.graph.nodes[0], AtExit(c, s1, s.exitNode, a).state.books.outcomes);
  }

  lemma NamelessFirst(nodes: seq<Node>, outcomes: map<string, StageStatus>)
    requires nodes != [] && Unmet(nodes[0], outcomes) && nodes[0].id == ""
    ensures UnsatisfiedNode(nodes, outcomes) == ""
  {
  }

  /** With nothing recorded meanwhile, the exit is the one new outcome. */
  lemma AtExitOutcomes(c: Config, s: State, node: Node, a: Answer)
    requires a.records == []
    ensures var outcomes := s.books.outcomes[node.id := SUCCESS]; var t := AtExit(c, s, node, a);
            && t.state.books.outcomes == outcomes
            && (UnsatisfiedNode(s.graph.nodes, outcomes) == "" ==> t.ending == Some(Completed))
  {
    hide UnsatisfiedNode, CheckGates, ApplyUpdates, AtExit;
    AtExitKeepsGraph(c, s, node, a);
    CheckGatesKeeps(Arrived(c, s, node, a));
  }

  // ---- why the graph must be closed ---------------------------------------------------------

  /** A stage that fails on a graph whose recovery edge leads nowhere. */
  ghost predicate Dangling(c: Config, s: State, node: Node, a: Answer)
  {
    && !c.troubleshoot && c.read("c") == Some([Clause("outcome", "=", "FAILURE")])
    && node.id != s.exitNode.id && node.id != "gone" && s.exitNode.id != "gone"
    && !IsTrue(node.attrs, "goal_gate") && !IsTrue(s.exitNode.attrs, "goal_gate")
    && s.graph == Graph("g", [node, s.exitNode], [Edge(node.id, "gone", map["condition" := "c"])], map[])
    && s.current == Some(node) && !s.cancelled && s.signatures == map[] && s.cycleLimit == 3
    && !a.cancel && a.records == [] && a.reply == Replied(Outcome(FAILURE, "", [], map[], ""))
  }

  lemma DanglingStep(c: Config, s: State, node: Node, a: Answer)
    requires Dangling(c, s, node, a)
    ensures var t := Step(c, s, a);
            && t.ending.None? && t.state.current.None? && !t.state.cancelled
            && t.state.graph == s.graph && t.state.books == s.books
  {
    var o := Outcome(FAILURE, "", [], map[], "");
    var e := Edge(node.id, "gone", map["condition" := "c"]);
    var ctx := Put(c, ApplyUpdates(c, a.ctx, map[]), "needle.last_outcome.status", "FAILURE");
    assert Outgoing([e], node.id) == [e];
    OnlyMatch(c.read, e, o, ctx);
    assert FindNode(s.graph, "gone").None?;
    hide Choice, Save;
  }

  /** On a graph with a dangling edge a run can succeed without reaching the exit: the
      failure route leaves the loop with no node, and no gate objects. */
  lemma DanglingEdgeSkipsTheExit(c: Config, s: State, node: Node, a1: Answer, a2: Answer)
    requires Dangling(c, s, node, a1) && !a2.cancel
    ensures var t := Run(c, s, [a1, a2]);
            t.ending == Some(Completed) && t.state.books == s.books
  {
    hide AtNode, AtExit;
    DanglingStep(c, s, node, a1);
    var t := Step(c, s, a1);
    assert [a1, a2][..1] == [a1] && [a1][..0] == [];
    assert Run(c, s, []) == Go(s);
    assert Run(c, s, [a1]) == t;
    assert FirstUnsatisfied([s.exitNode], s.books.outcomes).None?;
    assert FirstUnsatisfied(s.graph.nodes, s.books.outcomes).None?;
  }

  lemma OnlyMatch(read: ConditionReader, e: Edge, o: Outcome, ctx: Context)
    requires Judge(read, e, o, ctx) == Matched
    ensures Choice(read, [e], o, ctx) == Some(e)
  {
    assert [e][..0] == [];
    assert Judged(read, [e], o, ctx, Matched) == [e];
  }
}
