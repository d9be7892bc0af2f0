/** The parallel handler with its threads: PipelineEngine::execute_subgraph as each thread
    runs it, and ParallelHandler::execute from its edges to its outcome. The scheduler's
    choices are a parameter, so what is proved holds for every interleaving. */
module ParallelThreads {
  import opened Text
  import opened Graphs
  import opened Topology
  import opened Outcomes
  import opened EdgeSelection
  import opened Engine
  import opened PipelineEngines
  import opened ParallelBranches
  import opened ParallelHandling

  class BranchThread {
    const setting: Setting
    var current: Option<Node>
    var ctx: Context
    var retries: map<string, int>
    var last: Outcome
    var pending: seq<Completion>
    var result: Option<BranchResult>
    ghost var published: seq<Completion>

    constructor (setting: Setting, b: Branch)
      ensures this.setting == setting && View() == b
    {
      this.setting := setting;
      current, ctx, retries, last, pending, result := b.current, b.ctx, b.retries, b.last, b.pending, b.result;
      published := b.published;
    }

    ghost function View(): Branch
      reads this
    {
      Branch(current, ctx, retries, last, pending, published, result)
    }

    /** The handler runs on the current node and the loop decides what comes next. */
    method VisitCurrent(node: Node)
      requires current == Some(node) && pending == [] && result.None?
      modifies this
      ensures View() == Visit(setting, old(View()), node)
    {
      hide Choice, ApplyUpdates, MaxRetries;
      var w := setting.worker(node, ctx);
      match w.reply {
        case Unregistered =>
          result := Some(Err(NoHandler));
        case Raised(error) =>
          ctx, pending, result := w.ctx, w.records, Some(Err(HandlerError(error)));
        case Replied(o) =>
          ctx := w.ctx;
          if o.status == FAILURE {
            pending, result := w.records + [Completion(node, FAILURE)], Some(Ok(o));
          } else if o.status == RETRY {
            pending := w.records;
            if Count(retries, node.id) < MaxRetries(node.attrs) {
              retries := Bump(retries, node.id);
            } else {
              result := Some(Ok(Exhausted(node.id)));
            }
          } else {
            ctx := ApplyUpdates(setting.config, ctx, o.contextUpdates);
            pending, last := w.records + [Completion(node, o.status)], o;
            var candidates := OutgoingEdges(setting.graph, node.id);
            var next := Select(setting.config.read, candidates, o, ctx);
            if next.None? {
              result := Some(Err(EdgeSelectionFailed));
            } else {
              current := FindNode(setting.graph, next.value.to);
            }
          }
      }
    }

    /** The end node runs after the loop. */
    method VisitLast(node: Node)
      requires current == Some(node) && pending == [] && result.None?
      modifies this
      ensures View() == VisitEnd(setting, old(View()), node)
    {
      hide ApplyUpdates;
      var w := setting.worker(node, ctx);
      match w.reply {
        case Unregistered =>
          result := Some(Err(NoHandler));
        case Raised(error) =>
          ctx, pending, result := w.ctx, w.records, Some(Err(HandlerError(error)));
        case Replied(o) =>
          ctx, pending, result := w.ctx, w.records + [Completion(node, o.status)], Some(Ok(o));
          if o.status != FAILURE {
            ctx, last := ApplyUpdates(setting.config, ctx, o.contextUpdates), o;
          }
      }
    }

    /** One move: publish under the engine's mutex, or go on with the loop. */
    method TakeMove(engine: PipelineEngine)
      requires engine.config == setting.config
      modifies this, engine`completedNodes, engine`nodeOutcomes, engine`completedNodeHashes
      ensures View() == Move(setting, old(View()), engine.cancelled)
      ensures engine.Ledger() == if old(pending) == [] then old(engine.Ledger())
                                 else Record(setting.config, old(engine.Ledger()), old(pending)[0].node,
                                             old(pending)[0].status)
    {
      hide Visit, VisitEnd, Record;
      if pending != [] {
        engine.RecordNodeCompletion(pending[0].node, pending[0].status);
        published := published + [pending[0]];
        pending := pending[1..];
      } else if result.Some? {
      } else if current.Some? && current.value.id != setting.endId && !engine.cancelled {
        VisitCurrent(current.value);
      } else if setting.inclusive && current.Some? && current.value.id == setting.endId && !engine.cancelled {
        VisitLast(current.value);
      } else {
        result := Some(Ok(last));
      }
    }

    /** execute_subgraph on its own: what it publishes is recorded in order. */
    method ExecuteSubgraph(engine: PipelineEngine, moves: nat)
      requires engine.config == setting.config && published == []
      modifies this, engine`completedNodes, engine`nodeOutcomes, engine`completedNodeHashes
      ensures View() == Alone(setting, old(View()), moves, engine.cancelled)
      ensures engine.Ledger() == RecordAll(setting.config, old(engine.Ledger()), published)
    {
      hide Move, RecordAll;
      NothingYet(setting.config, engine.Ledger());
      for k := 0 to moves
        invariant View() == Alone(setting, old(View()), k, engine.cancelled)
        invariant engine.Ledger() == RecordAll(setting.config, old(engine.Ledger()), published)
      {
        ghost var b := View();
        VisitOrPublish(setting, b, engine.cancelled);
        if pending != [] { RecordAllSnoc(setting.config, old(engine.Ledger()), published, pending[0]); }
        TakeMove(engine);
        assert published == if b.pending == [] then b.published else b.published + [b.pending[0]];
      }
    }
  }

  lemma NothingYet(c: Config, b: Books)
    ensures RecordAll(c, b, []) == b
  {
  }

  ghost predicate Threads(s: Setting, threads: seq<BranchThread>)
  {
    && (forall i :: 0 <= i < |threads| ==> threads[i].setting == s)
    && forall i, j :: 0 <= i < j < |threads| ==> threads[i] != threads[j]
  }

  ghost function Views(threads: seq<BranchThread>): seq<Branch>
    reads threads
  {
    seq(|threads|, i requires 0 <= i < |threads| reads threads => threads[i].View())
  }

  ghost function TeamOf(threads: seq<BranchThread>, engine: PipelineEngine): Team
    reads threads, engine
  {
    Team(Views(threads), engine.Ledger(), engine.cancelled)
  }

  /** The threads, run by the scheduler's choices; another thread may cancel the run. */
  method RunThreads(s: Setting, threads: seq<BranchThread>, engine: PipelineEngine, schedule: seq<Event>)
    requires Threads(s, threads) && engine.config == s.config
    modifies threads, engine`completedNodes, engine`nodeOutcomes, engine`completedNodeHashes, engine`cancelled
    ensures TeamOf(threads, engine) == After(s, old(TeamOf(threads, engine)), schedule)
  {
    hide Move, Record;
    for k := 0 to |schedule|
      invariant TeamOf(threads, engine) == After(s, old(TeamOf(threads, engine)), schedule[..k])
    {
      assert schedule[..k + 1][..k] == schedule[..k];
      ghost var before := TeamOf(threads, engine);
      match schedule[k] {
        case Cancels =>
          engine.cancelled := true;
          assert Views(threads) == before.branches;
        case Runs(i) =>
          if i < |threads| {
            threads[i].TakeMove(engine);
            assert Views(threads) == before.branches[i := Move(s, before.branches[i], before.cancelled)];
          }
      }
      assert TeamOf(threads, engine) == TeamMove(s, before, schedule[k]);
    }
    assert schedule[..|schedule|] == schedule;
  }

  method StartThreads(s: Setting, branches: seq<Branch>) returns (threads: seq<BranchThread>)
    ensures fresh(threads) && Threads(s, threads) && Views(threads) == branches
  {
    threads := [];
    for i := 0 to |branches|
      invariant fresh(threads) && Threads(s, threads) && Views(threads) == branches[..i]
    {
      var thread := new BranchThread(s, branches[i]);
      ghost var before := Views(threads);
      threads := threads + [thread];
      assert Views(threads) == before + [branches[i]];
      assert branches[..i + 1] == branches[..i] + [branches[i]];
    }
    assert branches[..|branches|] == branches;
  }

  function Starts(edges: seq<Edge>): seq<string>
  {
    seq(|edges|, i requires 0 <= i < |edges| => edges[i].to)
  }

  /** Joins all threads: their results, or None while one is still running. */
  method JoinThreads(threads: seq<BranchThread>) returns (results: Option<seq<BranchResult>>)
    ensures results.Some? <==> forall i :: 0 <= i < |threads| ==> Done(threads[i].View())
    ensures results.Some? ==> |results.value| == |threads|
    ensures results.Some? ==> forall i :: 0 <= i < |threads| ==> results.value[i] == threads[i].result.value
  {
    var all: seq<BranchResult> := [];
    for i := 0 to |threads|
      invariant |all| == i && forall j :: 0 <= j < i ==> Done(threads[j].View()) && all[j] == threads[j].result.value
    {
      if threads[i].result.None? || threads[i].pending != [] {
        assert !Done(threads[i].View());
        return None;
      }
      all := all + [threads[i].result.value];
    }
    results := Some(all);
  }

  /** The branches as ParallelHandler::execute sets them up. */
  ghost function Launch(s: Setting, node: Node, ctx: Context, setups: seq<Setup>, books: Books, cancelled: bool): Team
    requires |setups| == |Outgoing(s.graph.edges, node.id)|
  {
    var targets := Starts(Outgoing(s.graph.edges, node.id));
    Team(seq(|targets|, i requires 0 <= i < |targets| =>
               BranchOf(s.graph, targets[i], PlanFor(s.config, ctx, targets[i], setups[i]))), books, cancelled)
  }

  /** A branch starts inside its own body, with nothing published. */
  lemma LaunchedInside(s: Setting, start: string, plan: Plan)
    ensures Inside(s, start, BranchOf(s.graph, start, plan)) && BranchOf(s.graph, start, plan).published == []
  {
    if plan.Launched? {
      StartsInside(s, start, plan.ctx);
    }
  }

  lemma LaunchStartsInside(s: Setting, node: Node, ctx: Context, setups: seq<Setup>, books: Books, cancelled: bool)
    requires |setups| == |Outgoing(s.graph.edges, node.id)|
    ensures var t := Launch(s, node, ctx, setups, books, cancelled);
            Unpublished(t) && StartedAt(s, t, Starts(Outgoing(s.graph.edges, node.id)))
  {
    hide Inside, BranchOf, PlanFor;
    var t, starts := Launch(s, node, ctx, setups, books, cancelled), Starts(Outgoing(s.graph.edges, node.id));
    forall i | 0 <= i < |starts| ensures Inside(s, starts[i], t.branches[i]) && t.branches[i].published == [] {
      LaunchedInside(s, starts[i], PlanFor(s.config, ctx, starts[i], setups[i]));
    }
  }

  /** When no node can be run by two of the branches before their fan-in, what the books
      say once the handler has joined them does not depend on the interleaving. */
  lemma HandlerBooksAgree(s: Setting, node: Node, ctx: Context, setups: seq<Setup>, books: Books, one: seq<Event>,
                          two: seq<Event>)
    requires |setups| == |Outgoing(s.graph.edges, node.id)| && RecordsInside(s) && !s.inclusive
    requires BodiesDisjoint(s, Starts(Outgoing(s.graph.edges, node.id))) && CancelAlike(one, two, |setups|)
    requires var t := Launch(s, node, ctx, setups, books, false);
             Complete(After(s, t, one)) && Complete(After(s, t, two))
    ensures var t := Launch(s, node, ctx, setups, books, false);
            && After(s, t, one).books.outcomes == After(s, t, two).books.outcomes
            && After(s, t, one).books.hashes == After(s, t, two).books.hashes
            && forall id :: id in After(s, t, one).books.completed <==> id in After(s, t, two).books.completed
  {
    hide After, Complete, StartedAt, BodiesDisjoint, RecordsInside, PlanFor, BranchOf, CancelAlike;
    var t := Launch(s, node, ctx, setups, books, false);
    var starts := Starts(Outgoing(s.graph.edges, node.id));
    LaunchStartsInside(s, node, ctx, setups, books, false);
    DisjointBodiesStayApart(s, t, starts, one);
    SameOutcomes(s, t, one, two);
    SameCompletedSet(s, t, one, two);
  }

  datatype Handling =
    | Trivial                                     // no outgoing edge
    | NoFanIn
    | Running(fanIn: string)                      // some thread has not finished
    | Joined(fanIn: string, outcome: Outcome)

  /** What the handler answers after its threads have run by `schedule`. */
  ghost predicate Handles(s: Setting, t: Team, schedule: seq<Event>, node: Node, ctx: Context, launchCommit: string,
                          setups: seq<Setup>, r: Handling)
    requires |setups| == |Outgoing(s.graph.edges, node.id)|
  {
    var starts := Starts(Outgoing(s.graph.edges, node.id));
    if Complete(After(s, t, schedule)) then
      && |t.branches| == |starts|
      && r == Joined(s.endId, ParallelOutcome(s, t, schedule, node, starts,
                                              AllSetupUpdates(ctx, FirstUpdates(launchCommit), starts, setups),
                                              exists i :: 0 <= i < |starts|
                                                          && PlanFor(s.config, ctx, starts[i], setups[i]).Skipped?))
    else r == Running(s.endId)
  }

  lemma JoinedAll(s: Setting, t: Team, schedule: seq<Event>, node: Node, ctx: Context, launchCommit: string,
                  setups: seq<Setup>, results: seq<BranchResult>, setupFailed: bool)
    requires |setups| == |Outgoing(s.graph.edges, node.id)| == |t.branches|
    requires var u := After(s, t, schedule);
             Complete(u) && |results| == |u.branches| && forall i :: 0 <= i < |results| ==>
               results[i] == u.branches[i].result.value
    requires var starts := Starts(Outgoing(s.graph.edges, node.id));
             setupFailed <==> exists i :: 0 <= i < |starts| && PlanFor(s.config, ctx, starts[i], setups[i]).Skipped?
    ensures |results| == |t.branches|
    ensures var starts := Starts(Outgoing(s.graph.edges, node.id));
            var first := AllSetupUpdates(ctx, FirstUpdates(launchCommit), starts, setups);
            Handles(s, t, schedule, node, ctx, launchCommit, setups,
                    Joined(s.endId, JoinOutcome(node, starts, results, first, setupFailed, s.endId)))
  {
    hide After, PlanFor, AllSetupUpdates, FirstUpdates, JoinOutcome;
    TeamKeepsSize(s, t, schedule);
    assert results == ResultsOf(After(s, t, schedule));
  }

  /** ParallelHandler::execute: whatever the schedule, the outcome is the join of what the
      branches compute, and the books are those of the interleaving. */
  method Execute(engine: PipelineEngine, graph: Graph, worker: Worker, node: Node, ctx: Context,
                 launchCommit: string, setups: seq<Setup>, schedule: seq<Event>) returns (r: Handling)
    requires |setups| == |Outgoing(graph.edges, node.id)|
    modifies engine`completedNodes, engine`nodeOutcomes, engine`completedNodeHashes, engine`cancelled
    ensures var starts := Starts(Outgoing(graph.edges, node.id));
            match r
            case Trivial => starts == [] && engine.Ledger() == old(engine.Ledger())
            case NoFanIn =>
              starts != [] && FanInChoice(graph, starts, CommonFanIns(graph, starts), "")
                && engine.Ledger() == old(engine.Ledger())
            case _ =>
              var s := Setting(engine.config, graph, r.fanIn, false, worker);
              var t := Launch(s, node, ctx, setups, old(engine.Ledger()), old(engine.cancelled));
              && starts != [] && r.fanIn != "" && FanInChoice(graph, starts, CommonFanIns(graph, starts), r.fanIn)
              && engine.Ledger() == After(s, t, schedule).books && engine.cancelled == After(s, t, schedule).cancelled
              && Handles(s, t, schedule, node, ctx, launchCommit, setups, r)
  {
    hide CommonFanIns, FanInChoice, After, PlanFor, AllSetupUpdates, FirstUpdates, JoinOutcome, Move, Handles;
    var edges := OutgoingEdges(graph, node.id);
    if edges == [] {
      return Trivial;
    }
    var starts := Starts(edges);
    var fanIn := FindCommonFanIn(graph, starts);
    if fanIn == "" {
      return NoFanIn;
    }
    var s := Setting(engine.config, graph, fanIn, false, worker);
    ghost var t := Launch(s, node, ctx, setups, engine.Ledger(), engine.cancelled);
    var plans, first, setupFailed := PlanBranches(engine.config, ctx, launchCommit, starts, setups);
    var branches := BranchesOf(graph, starts, plans);
    assert branches == t.branches;
    var threads := StartThreads(s, branches);
    RunThreads(s, threads, engine, schedule);
    ghost var u := TeamOf(threads, engine);
    assert u == After(s, t, schedule);
    var results := JoinThreads(threads);
    assert forall i :: 0 <= i < |threads| ==> u.branches[i] == threads[i].View();
    if results.None? {
      r := Running(fanIn);
      StillRunning(s, t, schedule, node, ctx, launchCommit, setups);
      return;
    }
    JoinedAll(s, t, schedule, node, ctx, launchCommit, setups, results.value, setupFailed);
    var o := MergeBranches(node, starts, results.value, first, setupFailed, fanIn);
    r := Joined(fanIn, o);
  }

  lemma StillRunning(s: Setting, t: Team, schedule: seq<Event>, node: Node, ctx: Context, launchCommit: string,
                     setups: seq<Setup>)
    requires |setups| == |Outgoing(s.graph.edges, node.id)| && !Complete(After(s, t, schedule))
    ensures Handles(s, t, schedule, node, ctx, launchCommit, setups, Running(s.endId))
  {
  }

  // ---- back in the main loop -------------------------------------------------------------------

  lemma ChosenIsCommon(g: Graph, starts: seq<string>, r: string)
    requires FanInChoice(g, starts, CommonFanIns(g, starts), r) && r != ""
    ensures r in CommonFanIns(g, starts) && IsFanIn(g, r)
  {
    hide IsFanIn, Reachable, AtDistance;
  }

  lemma JoinNamesTheFanIn(m: map<string, string>, node: Node, targets: seq<string>, fanIn: string)
    ensures var u := WithJoinKeys(m, node, targets, fanIn);
            "parallel.fan_in_target" in u && u["parallel.fan_in_target"] == fanIn
  {
    hide Decimal, JoinPolicy, BranchList;
    var key := "parallel.fan_in_target";
    assert key[9] == 'f' && "parallel.branch_count"[9] == 'b' && "parallel.join_policy"[9] == 'j'
           && "parallel.branches"[9] == 'b';
  }

  /** When the branches join, the engine records the parallel node and goes on at their
      common fan-in; a branch start is met again only if it is that fan-in itself. */
  lemma JoinedGoesToFanIn(s: Setting, t: Team, schedule: seq<Event>, ctx: Context, launchCommit: string,
                          setups: seq<Setup>,
                          r: Handling, st: State, node: Node, a: Answer)
    requires |setups| == |Outgoing(s.graph.edges, node.id)|
             && Handles(s, t, schedule, node, ctx, launchCommit, setups, r)
    requires var starts := Starts(Outgoing(s.graph.edges, node.id));
             r.Joined? && r.fanIn != "" && FanInChoice(s.graph, starts, CommonFanIns(s.graph, starts), r.fanIn)
    requires r.outcome.status == SUCCESS && a.reply == Replied(r.outcome)
    requires node.nodeType == PARALLEL && st.graph == s.graph
    ensures var starts := Starts(Outgoing(s.graph.edges, node.id)); var turn := AtNode(s.config, st, node, a);
            && turn.ending == None && node.id in turn.state.books.completed
            && turn.state.current == FindNode(s.graph, r.fanIn) && IsFanIn(s.graph, r.fanIn)
            && r.fanIn in CommonFanIns(s.graph, starts)
            && forall start :: start in starts && !IsFanIn(s.graph, start) ==> turn.state.current.value.id != start
  {
    hide ParallelOutcome, FanInChoice, CommonFanIns, After, Complete, PlanFor, AllSetupUpdates, FirstUpdates, Advance,
         AtDone;
    ChosenIsCommon(s.graph, Starts(Outgoing(s.graph.edges, node.id)), r.fanIn);
    OutcomeNamesTheFanIn(s, t, schedule, node, ctx, launchCommit, setups, r);
    GoesToFanIn(s.config, Handled(s.config, st, a), node, r.outcome, a, r.fanIn);
  }

  lemma OutcomeNamesTheFanIn(s: Setting, t: Team, schedule: seq<Event>, node: Node, ctx: Context, launchCommit: string,
                             setups: seq<Setup>, r: Handling)
    requires |setups| == |Outgoing(s.graph.edges, node.id)|
             && Handles(s, t, schedule, node, ctx, launchCommit, setups, r) && r.Joined?
    ensures var updates := r.outcome.contextUpdates;
            "parallel.fan_in_target" in updates && updates["parallel.fan_in_target"] == r.fanIn
  {
    hide After, Complete, PlanFor, AllSetupUpdates, FirstUpdates, WithJoinKeys, JoinHolds, Merged;
    var starts := Starts(Outgoing(s.graph.edges, node.id));
    TeamKeepsSize(s, t, schedule);
    JoinNamesTheFanIn(Merged(AllSetupUpdates(ctx, FirstUpdates(launchCommit), starts, setups), starts,
                             ResultsOf(After(s, t, schedule))),
                      node, starts, r.fanIn);
  }

  lemma GoesToFanIn(c: Config, st: State, node: Node, o: Outcome, a: Answer, fanIn: string)
    requires node.nodeType == PARALLEL && fanIn != "" && FindNode(st.graph, fanIn).Some? && o.status == SUCCESS
    requires "parallel.fan_in_target" in o.contextUpdates && o.contextUpdates["parallel.fan_in_target"] == fanIn
    ensures var turn := AtDone(c, st, node, o, a);
            turn.ending == None && turn.state.current == FindNode(st.graph, fanIn)
              && node.id in turn.state.books.completed
  {
    hide Advance, ApplyUpdates, FindNode;
  }
}
