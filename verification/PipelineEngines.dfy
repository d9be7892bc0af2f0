/** The engine object itself: the fields of src/engine/pipeline_engine.cpp, updated in
    place, each method refining its part of the state machine of module Engine. */
module PipelineEngines {
  import opened Text
  import opened Graphs
  import opened Outcomes
  import opened EdgeSelection
  import opened Checkpoints
  import opened Engine
  import opened EngineRuns

  /** ExecutionSession: what is set up once per run and moves with it. */
  class ExecutionSession {
    var graph: Graph
    var ctx: Context
    var current: Option<Node>
    var exitNode: Node

    constructor (graph: Graph, ctx: Context, current: Option<Node>, exitNode: Node)
      ensures this.graph == graph && this.ctx == ctx && this.current == current && this.exitNode == exitNode
    {
      this.graph, this.ctx, this.current, this.exitNode := graph, ctx, current, exitNode;
    }
  }

  class PipelineEngine {
    const config: Config
    var completedNodes: seq<string>
    var nodeOutcomes: map<string, StageStatus>
    var completedNodeHashes: map<string, string>
    var failureSignatures: map<string, int>
    var retryCounters: map<string, int>
    var cycleLimit: int
    var cancelled: bool
    var checkpoint: Option<Checkpoint>

    constructor (config: Config)
      ensures this.config == config && completedNodes == [] && nodeOutcomes == map[] && completedNodeHashes == map[]
      ensures failureSignatures == map[] && retryCounters == map[] && cycleLimit == 3 && !cancelled
              && checkpoint == None
    {
      this.config := config;
      completedNodes, nodeOutcomes, completedNodeHashes := [], map[], map[];
      failureSignatures, retryCounters, cycleLimit := map[], map[], 3;
      cancelled, checkpoint := false, None;
    }

    ghost function Ledger(): Books
      reads this
    {
      Books(completedNodes, nodeOutcomes, completedNodeHashes)
    }

    ghost function View(session: ExecutionSession): State
      reads this, session
    {
      State(session.graph, session.current, session.exitNode, session.ctx, cancelled, Ledger(),
            failureSignatures, retryCounters, cycleLimit, checkpoint)
    }

    ghost function Carried(): Memory
      reads this
    {
      Memory(completedNodeHashes, retryCounters, cycleLimit)
    }

    method RecordNodeCompletion(node: Node, status: StageStatus)
      modifies this`completedNodes, this`nodeOutcomes, this`completedNodeHashes
      ensures Ledger() == Record(config, old(Ledger()), node, status)
    {
      if status != FAILURE && status != RETRY {
        var found := false;
        for k := 0 to |completedNodes|
          invariant found <==> node.id in completedNodes[..k]
        {
          if completedNodes[k] == node.id { found := true; }
        }
        assert completedNodes[..|completedNodes|] == completedNodes;
        if !found {
          completedNodes := completedNodes + [node.id];
        }
        completedNodeHashes := completedNodeHashes[node.id := config.nodeHash(node)];
      }
      nodeOutcomes := nodeOutcomes[node.id := status];
    }

    method RecordEach(records: seq<Completion>)
      modifies this`completedNodes, this`nodeOutcomes, this`completedNodeHashes
      ensures Ledger() == RecordAll(config, old(Ledger()), records)
    {
      for k := 0 to |records|
        invariant Ledger() == RecordAll(config, old(Ledger()), records[..k])
      {
        assert records[..k + 1][..k] == records[..k];
        RecordNodeCompletion(records[k].node, records[k].status);
      }
      assert records[..|records|] == records;
    }

    method RecordAttempts(ids: seq<string>)
      modifies this`retryCounters
      ensures retryCounters == BumpAll(old(retryCounters), ids)
    {
      for k := 0 to |ids|
        invariant retryCounters == BumpAll(old(retryCounters), ids[..k])
      {
        assert ids[..k + 1][..k] == ids[..k];
        retryCounters := Bump(retryCounters, ids[k]);
      }
      assert ids[..|ids|] == ids;
    }

    /** A configured selector is of the same class and chooses alike. */
    method SelectNextEdge(session: ExecutionSession, node: Node, o: Outcome) returns (e: Option<Edge>)
      ensures e == NextEdge(config, View(session), node, o)
    {
      var candidates := OutgoingEdges(session.graph, node.id);
      e := Select(config.read, candidates, o, session.ctx);
    }

    method SaveCheckpoint(session: ExecutionSession, node: string, time: string)
      modifies this`checkpoint
      ensures View(session) == Save(config, old(View(session)), node, time)
    {
      checkpoint := Some(Checkpoint(time, node, completedNodes, retryCounters, session.ctx, config.graphFile,
                                    config.graphHash(session.graph), completedNodeHashes, BranchWorktrees(session.ctx),
                                    config.stylesheetFile, config.logsRoot, config.dotContentHash));
    }

    method ApplyOutcome(session: ExecutionSession, o: Outcome)
      modifies session`ctx
      ensures session.ctx == Put(config, ApplyUpdates(config, old(session.ctx), o.contextUpdates),
                                 "needle.last_outcome.status", StatusName(o.status))
    {
      session.ctx := ApplyUpdates(config, session.ctx, o.contextUpdates);
      session.ctx := Put(config, session.ctx, "needle.last_outcome.status", StatusName(o.status));
    }

    // ---- the stages of one turn --------------------------------------------------------

    method AdvanceTo(session: ExecutionSession, node: Node, o: Outcome) returns (ending: Option<Ending>)
      modifies this, session
      ensures Turn(View(session), ending) == Advance(config, old(View(session)), node, o)
    {
      hide NextEdge, Restarted;
      var next := SelectNextEdge(session, node, o);
      if next.None? {
        return Some(NoEdge(node.id));
      }
      if Get(next.value.attrs, "loop_restart") == "true" {
        session.ctx := Restarted(config, session.ctx);
        completedNodes, nodeOutcomes := [], map[];
      }
      session.current := FindNode(session.graph, next.value.to);
      ending := if session.current.None? then Some(TargetMissing(next.value.to)) else None;
    }

    method Complete(session: ExecutionSession, node: Node, o: Outcome, a: Answer) returns (ending: Option<Ending>)
      modifies this, session
      ensures Turn(View(session), ending) == AtDone(config, old(View(session)), node, o, a)
    {
      hide Advance, Record, ApplyUpdates, StatusName;
      ApplyOutcome(session, o);
      RecordNodeCompletion(node, o.status);
      SaveCheckpoint(session, node.id, a.time);
      if node.nodeType == PARALLEL {
        var fanIn := if "parallel.fan_in_target" in o.contextUpdates then o.contextUpdates["parallel.fan_in_target"]
                     else Get(session.ctx, "parallel.fan_in_target");
        session.ctx := Put(config, session.ctx, "parallel.fan_in_target", "");
        if fanIn != "" {
          var fanInNode := FindNode(session.graph, fanIn);
          if fanInNode.Some? {
            session.current := fanInNode;
            return None;
          }
        }
      }
      ending := AdvanceTo(session, node, o);
    }

    method RecoverFrom(session: ExecutionSession, node: Node, o: Outcome, a: Answer) returns (ending: Option<Ending>)
      modifies this, session
      ensures Turn(View(session), ending) == Recover(config, old(View(session)), node, o, a)
    {
      hide NextEdge, RetryTargets, Save;
      var edges := OutgoingEdges(session.graph, node.id);
      var next := None;
      if AnyConditional(edges) {
        next := SelectNextEdge(session, node, o);
      }
      var target := FirstTarget(session.graph, RetryTargets(session.graph, Some(node)));
      SaveCheckpoint(session, node.id, a.time);
      if next.Some? {
        session.current := FindNode(session.graph, next.value.to);
        ending := None;
      } else if target.Some? {
        session.current := target;
        ending := None;
      } else {
        ending := Some(StageFailed(node.id, o.output));
      }
    }

    method Troubleshoot(session: ExecutionSession, node: Node, o: Outcome, a: Answer) returns (ending: Option<Ending>)
      modifies this, session
      ensures Turn(View(session), ending) == Diagnose(config, old(View(session)), node, o, a)
    {
      hide NextEdge, Record, Recover;
      match a.diagnosis
      case NoAction =>
        ending := RecoverFrom(session, node, o, a);
      case Escalated(report) =>
        SaveCheckpoint(session, node.id, a.time);
        ending := Some(EscalatedTo(report));
      case Resumed(reloaded) =>
        if reloaded.Some? {
          var again, exit := FindNode(reloaded.value, node.id), FirstOfType(reloaded.value.nodes, EXIT);
          if again.Some? && exit.Some? {
            session.graph, session.current, session.exitNode := reloaded.value, again, exit.value;
          }
        }
        SaveCheckpoint(session, node.id, a.time);
        ending := None;
      case Promoted(artifact) =>
        session.ctx := Put(config, session.ctx, "codergen." + node.id + ".output", artifact);
        session.ctx := Put(config, session.ctx, "tool." + node.id + ".output", artifact);
        session.ctx := Put(config, session.ctx, "needle.last_outcome.status", "SUCCESS");
        RecordNodeCompletion(node, SUCCESS);
        SaveCheckpoint(session, node.id, a.time);
        var next := SelectNextEdge(session, node, Outcome(SUCCESS, "", [], map[], artifact));
        if next.None? {
          return Some(NoEdge(node.id));
        }
        session.current := FindNode(session.graph, next.value.to);
        ending := None;
    }

    method Fail(session: ExecutionSession, node: Node, o: Outcome, a: Answer) returns (ending: Option<Ending>)
      requires o.status == FAILURE
      modifies this, session
      ensures Turn(View(session), ending) == AtFailure(config, old(View(session)), node, o, a)
    {
      hide Diagnose, Recover, Save, Signature;
      ApplyOutcome(session, o);
      var sig := Signature(node, o);
      failureSignatures := Bump(failureSignatures, sig);
      if failureSignatures[sig] >= cycleLimit {
        SaveCheckpoint(session, node.id, a.time);
        return Some(CycleDetected(node.id));
      }
      if config.troubleshoot && Get(node.attrs, "troubleshoot") != "false" && Get(node.attrs, "troubleshoot") != "0" {
        session.ctx := a.diagnosisCtx;
        ending := Troubleshoot(session, node, o, a);
      } else {
        ending := RecoverFrom(session, node, o, a);
      }
    }

    /** The handler runs: it leaves the context, and its subgraphs' completions and
        retries, behind. */
    method Handle(session: ExecutionSession, a: Answer)
      modifies this, session`ctx
      ensures View(session) == Handled(config, old(View(session)), a)
    {
      RecordEach(a.records);
      RecordAttempts(a.retried);
      session.ctx := a.ctx;
    }

    method Execute(session: ExecutionSession, node: Node, a: Answer) returns (ending: Option<Ending>)
      modifies this, session
      ensures Turn(View(session), ending) == AtNode(config, old(View(session)), node, a)
    {
      hide AtDone, AtFailure, Handled, MaxRetries, IsTrue;
      if a.reply.Unregistered? {
        return Some(NoHandlerFor(node.id));
      }
      Handle(session, a);
      if a.reply.Raised? {
        return Some(HandlerFailed(a.reply.error));
      }
      var outcome := a.reply.outcome;
      if outcome.status == RETRY {
        if Count(retryCounters, node.id) < MaxRetries(node.attrs) {
          retryCounters := Bump(retryCounters, node.id);
          return None;
        }
        if !IsTrue(node.attrs, "allow_partial") {
          return Some(RetriesExhausted(node.id));
        }
        outcome := outcome.(status := PARTIAL_SUCCESS, output := "retries exhausted, partial accepted");
      }
      if outcome.status == FAILURE {
        ending := Fail(session, node, outcome, a);
      } else {
        ending := Complete(session, node, outcome, a);
      }
    }

    method FindUnsatisfied(session: ExecutionSession) returns (unsatisfied: string)
      ensures unsatisfied == UnsatisfiedNode(session.graph.nodes, nodeOutcomes)
    {
      var nodes := session.graph.nodes;
      for k := 0 to |nodes|
        invariant FirstUnsatisfied(nodes[k..], nodeOutcomes) == FirstUnsatisfied(nodes, nodeOutcomes)
      {
        assert nodes[k..][1..] == nodes[k + 1..];
        if IsTrue(nodes[k].attrs, "goal_gate") {
          if nodes[k].id !in nodeOutcomes
             || (nodeOutcomes[nodes[k].id] != SUCCESS && nodeOutcomes[nodes[k].id] != PARTIAL_SUCCESS) {
            return nodes[k].id;
          }
        }
      }
      unsatisfied := "";
    }

    method CheckGoalGates(session: ExecutionSession) returns (ending: Option<Ending>)
      modifies session`current
      ensures Turn(View(session), ending) == CheckGates(old(View(session)))
    {
      hide RetryTargets, UnsatisfiedNode;
      var gate := FindUnsatisfied(session);
      if gate == "" {
        return Some(Completed);
      }
      var target := FirstTarget(session.graph, RetryTargets(session.graph, FindNode(session.graph, gate)));
      if target.None? {
        return Some(GateUnsatisfied(gate));
      }
      session.current := target;
      ending := None;
    }

    method Finish(session: ExecutionSession, node: Node, a: Answer) returns (ending: Option<Ending>)
      modifies this, session
      ensures Turn(View(session), ending) == AtExit(config, old(View(session)), node, a)
    {
      hide CheckGates, Handled, Save, Record, ApplyUpdates;
      if !a.reply.Unregistered? {
        Handle(session, a);
        if a.reply.Replied? {
          session.ctx := ApplyUpdates(config, session.ctx, a.reply.outcome.contextUpdates);
        }
      }
      RecordNodeCompletion(node, SUCCESS);
      SaveCheckpoint(session, node.id, a.time);
      ending := CheckGoalGates(session);
    }

    method TakeTurn(session: ExecutionSession, a: Answer) returns (ending: Option<Ending>)
      modifies this, session
      ensures Turn(View(session), ending) == Step(config, old(View(session)), a)
    {
      hide AtNode, AtExit, CheckGates;
      cancelled := cancelled || a.cancel;
      if cancelled {
        return Some(Cancelled);
      }
      if session.current.None? {
        ending := CheckGoalGates(session);
      } else if session.current.value.id == session.exitNode.id {
        ending := Finish(session, session.current.value, a);
      } else {
        ending := Execute(session, session.current.value, a);
      }
    }

    /** execute_loop, for as long as the answers last: its two nested loops and its
        re-entry after an unsatisfied gate are all another turn. */
    method ExecuteLoop(session: ExecutionSession, answers: seq<Answer>) returns (ending: Option<Ending>)
      modifies this, session
      ensures Turn(View(session), ending) == Run(config, old(View(session)), answers)
      ensures old(Fit(View(session)) && Placed(View(session)) && RoutesClosed(config, session.graph))
              && AllReloadsClosed(config, answers) ==>
                Good(Turn(View(session), ending))
    {
      hide Step, Fit, Good, AllReloadsClosed;
      ending := None;
      for k := 0 to |answers|
        invariant Turn(View(session), ending) == Run(config, old(View(session)), answers[..k])
      {
        assert answers[..k + 1][..k] == answers[..k];
        if ending.None? {
          ending := TakeTurn(session, answers[k]);
        }
      }
      assert answers[..|answers|] == answers;
      if old(Fit(View(session)) && Placed(View(session)) && RoutesClosed(config, session.graph))
        && AllReloadsClosed(config, answers) {
        EveryRunIsGood(config, old(View(session)), answers);
      }
    }

    /** The first half of run(): forget the last run and stand on the start node. */
    method LaunchOn(graph: Graph, ctx: Context) returns (session: Option<ExecutionSession>)
      modifies this
      ensures session.None? <==> Launch(config, old(Carried()), graph, ctx).None?
      ensures session.Some? ==> fresh(session.value)
      ensures session.Some? ==> View(session.value) == Launch(config, old(Carried()), graph, ctx).value
    {
      hide CycleLimit, FirstOfType, Put;
      completedNodes, nodeOutcomes, failureSignatures := [], map[], map[];
      cancelled, checkpoint := false, None;
      var start, exit := FirstOfType(graph.nodes, START), FirstOfType(graph.nodes, EXIT);
      if start.None? || exit.None? {
        return None;
      }
      var own := if config.graphFile != "" then Put(config, ctx, "needle.graph_path", config.graphFile) else ctx;
      cycleLimit := CycleLimit(graph, cycleLimit);
      var s := new ExecutionSession(graph, own, start, exit.value);
      session := Some(s);
    }

    /** run(), after variable expansion; None when the graph lacks a start or an exit. */
    method RunGraph(graph: Graph, ctx: Context, answers: seq<Answer>)
      returns (session: Option<ExecutionSession>, ending: Option<Ending>)
      modifies this
      ensures session.None? <==> Launch(config, old(Carried()), graph, ctx).None?
      ensures session.Some? ==> fresh(session.value)
      ensures session.Some? && RoutesClosed(config, graph) && old(cycleLimit) >= 1
              && AllReloadsClosed(config, answers) ==>
                Good(Turn(View(session.value), ending))
      ensures session.Some? ==>
                Turn(View(session.value), ending) == Run(config, Launch(config, old(Carried()), graph, ctx).value,
                                                         answers)
    {
      hide Run, Good, Launch, AllReloadsClosed;
      if RoutesClosed(config, graph) && cycleLimit >= 1 && AllReloadsClosed(config, answers) {
        LaunchedRunIsGood(config, Carried(), graph, ctx, answers);
      }
      ending := None;
      session := LaunchOn(graph, ctx);
      if session.Some? {
        ending := ExecuteLoop(session.value, answers);
      }
    }

    /** Step past the node the session stands on, if it has completed and an edge leads on. */
    method SkipCompleted(session: ExecutionSession, node: Node)
      requires session.current == Some(node)
      modifies session`current
      ensures View(session) == Skipped(config, old(View(session)), node)
    {
      hide NextEdge, FindNode;
      if node.id in completedNodes {
        var skip := Outcome(SUCCESS, Get(session.ctx, "human.gate.selected"), [], map[], "");
        var next := SelectNextEdge(session, node, skip);
        if next.Some? {
          session.current := FindNode(session.graph, next.value.to);
        }
      }
    }

    /** The first half of resume(): restore, validate, and step past a completed node. */
    method RestoreFrom(cp: Checkpoint, graph: Graph) returns (session: Option<ExecutionSession>)
      modifies this
      ensures session.None? <==> Resume(config, old(Carried()), graph, cp).None?
      ensures session.Some? ==> fresh(session.value)
      ensures session.Some? ==> View(session.value) == Resume(config, old(Carried()), graph, cp).value
    {
      hide Blocked, NextEdge, CycleLimit, FindNode, FirstOfType, Put, Get;
      completedNodes, completedNodeHashes := cp.completedNodes, cp.completedNodeHashes;
      nodeOutcomes := map id | id in cp.completedNodes :: SUCCESS;
      failureSignatures, retryCounters := map[], map[];
      cancelled, checkpoint := false, None;
      var path := if config.graphFile != "" then config.graphFile else cp.graphFile;
      var ctx := if path != "" then Put(config, cp.context, "needle.graph_path", path) else cp.context;
      var current, exit := FindNode(graph, cp.currentNode), FirstOfType(graph.nodes, EXIT);
      if Blocked(config, graph, cp) || current.None? || exit.None? {
        return None;
      }
      cycleLimit := CycleLimit(graph, cycleLimit);
      var s := new ExecutionSession(graph, ctx, current, exit.value);
      assert View(s) == Restore(config, old(Carried()), graph, current.value, exit.value, cp);
      SkipCompleted(s, current.value);
      session := Some(s);
    }

    /** resume(); None when the checkpoint is refused. */
    method ResumeFrom(cp: Checkpoint, graph: Graph, answers: seq<Answer>)
      returns (session: Option<ExecutionSession>, ending: Option<Ending>)
      modifies this
      ensures session.None? <==> Resume(config, old(Carried()), graph, cp).None?
      ensures session.Some? ==> fresh(session.value)
      ensures session.Some? && Closed(graph) && old(cycleLimit) >= 1 && WellKept(cp)
              && AllReloadsClosed(config, answers) ==>
                Good(Turn(View(session.value), ending))
      ensures session.Some? ==>
                Turn(View(session.value), ending) == Run(config, Resume(config, old(Carried()), graph, cp).value,
                                                         answers)
    {
      hide Run, Good, Fit, Placed, Resume, WellKept, AllReloadsClosed;
      if Closed(graph) && cycleLimit >= 1 && WellKept(cp) {
        ResumeFit(config, Carried(), graph, cp);
      }
      ending := None;
      session := RestoreFrom(cp, graph);
      if session.Some? {
        ending := ExecuteLoop(session.value, answers);
      }
    }
  }
}
