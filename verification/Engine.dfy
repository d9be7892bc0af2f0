/** The pipeline engine as a state machine: src/engine/pipeline_engine.cpp.

    A run is driven by what the world answers: one `Answer` for each turn of the
    main loop, holding the handler's reply, what it did to the shared state while
    it ran, and what the troubleshooter decided. Answers are arbitrary, so a claim
    about every sequence of answers is a claim about every run. */
module Engine {
  import opened Text
  import opened Graphs
  import opened Outcomes
  import opened EdgeSelection
  import opened Checkpoints

  datatype Config = Config(
    read: ConditionReader,
    nodeHash: Node -> string,
    graphHash: Graph -> string,
    clip: string -> string,        // the size limit of Context::set
    troubleshoot: bool,            // troubleshoot_mode is not Off
    strict: bool,                  // strict_graph_hash
    graphFile: string,
    stylesheetFile: string,
    logsRoot: string,
    dotContentHash: string)

  /** What execute_loop returns; the texts of the messages are reduced to these. */
  datatype Ending =
    | Completed
    | Cancelled
    | NoHandlerFor(node: string)
    | HandlerFailed(error: string)
    | RetriesExhausted(node: string)
    | CycleDetected(node: string)
    | EscalatedTo(report: string)
    | StageFailed(node: string, output: string)
    | NoEdge(node: string)
    | TargetMissing(node: string)
    | GateUnsatisfied(node: string)

  datatype Completion = Completion(node: Node, status: StageStatus)

  datatype Reply =
    | Unregistered                 // no handler for the node's type
    | Raised(error: string)
    | Replied(outcome: Outcome)

  datatype Diagnosis =
    | NoAction                     // skipped, reported or cancelled: advisory only
    | Promoted(artifact: string)
    | Resumed(reloaded: Option<Graph>)
    | Escalated(report: string)

  datatype Answer = Answer(
    cancel: bool,                  // cancellation seen at the top of this turn
    reply: Reply,
    ctx: Context,                  // the context as the handler left it
    records: seq<Completion>,      // completions recorded by subgraphs it ran, in order
    retried: seq<string>,          // retries by subgraphs sharing the engine's counters
    diagnosis: Diagnosis,
    diagnosisCtx: Context,         // the context as the troubleshooter left it
    time: string)

  /** What is known of finished nodes, guarded by the engine's state mutex. */
  datatype Books = Books(
    completed: seq<string>,
    outcomes: map<string, StageStatus>,
    hashes: map<string, string>)

  datatype State = State(
    graph: Graph,
    current: Option<Node>,
    exitNode: Node,
    ctx: Context,
    cancelled: bool,
    books: Books,
    signatures: map<string, int>,
    retries: map<string, int>,
    cycleLimit: int,
    saved: Option<Checkpoint>)

  datatype Turn = Turn(state: State, ending: Option<Ending>)

  // ---- bookkeeping ---------------------------------------------------------------

  function Put(c: Config, ctx: Context, key: string, value: string): Context
  {
    ctx[key := c.clip(value)]
  }

  function ApplyUpdates(c: Config, ctx: Context, updates: map<string, string>): Context
  {
    ctx + map k | k in updates :: c.clip(updates[k])
  }

  /** record_node_completion: anything but a failure or a retry counts as completed. */
  function Record(c: Config, b: Books, node: Node, status: StageStatus): Books
  {
    if status == FAILURE || status == RETRY then
      b.(outcomes := b.outcomes[node.id := status])
    else
      Books(if node.id in b.completed then b.completed else b.completed + [node.id],
            b.outcomes[node.id := status],
            b.hashes[node.id := c.nodeHash(node)])
  }

  function RecordAll(c: Config, b: Books, records: seq<Completion>): Books
  {
    if records == [] then b
    else
      var last := records[|records| - 1];
      Record(c, RecordAll(c, b, records[..|records| - 1]), last.node, last.status)
  }

  function Count(m: map<string, int>, key: string): int
  {
    if key in m then m[key] else 0
  }

  function Bump(m: map<string, int>, key: string): map<string, int>
  {
    m[key := Count(m, key) + 1]
  }

  function BumpAll(m: map<string, int>, keys: seq<string>): map<string, int>
  {
    if keys == [] then m else Bump(BumpAll(m, keys[..|keys| - 1]), keys[|keys| - 1])
  }

  const WORKTREE_PREFIX := "needle.branch_worktree."

  function BranchWorktrees(ctx: Context): map<string, string>
  {
    var branches := set k | k in ctx && |k| > |WORKTREE_PREFIX| && WORKTREE_PREFIX <= k :: k[|WORKTREE_PREFIX|..];
    assert forall k :: WORKTREE_PREFIX <= k ==> WORKTREE_PREFIX + k[|WORKTREE_PREFIX|..] == k;
    map b | b in branches :: ctx[WORKTREE_PREFIX + b]
  }

  /** save_checkpoint. */
  function Save(c: Config, s: State, node: string, time: string): State
  {
    s.(saved := Some(Checkpoint(time, node, s.books.completed, s.retries, s.ctx, c.graphFile, c.graphHash(s.graph),
                                s.books.hashes, BranchWorktrees(s.ctx), c.stylesheetFile, c.logsRoot,
                                c.dotContentHash)))
  }

  ghost function NextEdge(c: Config, s: State, node: Node, o: Outcome): Option<Edge>
  {
    Choice(c.read, Outgoing(s.graph.edges, node.id), o, s.ctx)
  }

  /** The first usable retry target: the node's own two, then the graph's two. */
  function RetryTargets(g: Graph, node: Option<Node>): seq<string>
  {
    (if node.Some? then [Get(node.value.attrs, "retry_target"), Get(node.value.attrs, "fallback_retry_target")] else [])
    + [Get(g.attrs, "retry_target"), Get(g.attrs, "fallback_retry_target")]
  }

  function FirstTarget(g: Graph, targets: seq<string>): (r: Option<Node>)
    ensures r.Some? ==> FindNode(g, r.value.id) == r
    ensures r.Some? ==> exists k :: IsFirstTarget(g, targets, k) && targets[k] == r.value.id
    ensures r.None? ==> forall t :: t in targets && t != "" ==> t !in Ids(g)
  {
    if targets == [] then None
    else if targets[0] != "" && FindNode(g, targets[0]).Some? then
      assert IsFirstTarget(g, targets, 0);
      FindNode(g, targets[0])
    else
      var r := FirstTarget(g, targets[1..]);
      assert r.Some? ==> forall k :: IsFirstTarget(g, targets[1..], k) ==>
             IsFirstTarget(g, targets, k + 1) && targets[k + 1] == targets[1..][k];
      r
  }

  /** Target `k` names a node, and every target before it is empty or missing. */
  ghost predicate IsFirstTarget(g: Graph, targets: seq<string>, k: int)
  {
    && 0 <= k < |targets| && targets[k] != "" && targets[k] in Ids(g)
    && forall i :: 0 <= i < k ==> targets[i] == "" || targets[i] !in Ids(g)
  }

  /** RetryPolicy::from_attributes, of which only the limit matters here. */
  function MaxRetries(attrs: Attributes): int
  {
    var preset := Get(attrs, "retry_preset");
    if preset == "aggressive" then 10
    else if preset == "patient" then 3
    else if preset != "" then 5
    else if "max_retries" in attrs && ParseInt(attrs["max_retries"]).Some? then ParseInt(attrs["max_retries"]).value
    else 5
  }

  // ---- one turn of the main loop -----------------------------------------------------

  function Go(s: State): Turn { Turn(s, None) }

  function Stop(s: State, e: Ending): Turn { Turn(s, Some(e)) }

  ghost function Step(c: Config, s: State, a: Answer): Turn
  {
    var s := s.(cancelled := s.cancelled || a.cancel);
    if s.cancelled then Stop(s, Cancelled)
    else if s.current.None? then CheckGates(s)
    else if s.current.value.id == s.exitNode.id then AtExit(c, s, s.current.value, a)
    else AtNode(c, s, s.current.value, a)
  }

  /** The shared state after the handler has run. */
  function Handled(c: Config, s: State, a: Answer): State
  {
    s.(books := RecordAll(c, s.books, a.records), ctx := a.ctx, retries := BumpAll(s.retries, a.retried))
  }

  ghost function AtNode(c: Config, s: State, node: Node, a: Answer): Turn
  {
    match a.reply
    case Unregistered => Stop(s, NoHandlerFor(node.id))
    case Raised(error) => Stop(Handled(c, s, a), HandlerFailed(error))
    case Replied(o) =>
      var t := Handled(c, s, a);
      match o.status
      case RETRY =>
        if Count(t.retries, node.id) < MaxRetries(node.attrs) then
          Go(t.(retries := Bump(t.retries, node.id)))
        else if IsTrue(node.attrs, "allow_partial") then
          AtDone(c, t, node, o.(status := PARTIAL_SUCCESS, output := "retries exhausted, partial accepted"), a)
        else Stop(t, RetriesExhausted(node.id))
      case FAILURE => AtFailure(c, t, node, o, a)
      case _ => AtDone(c, t, node, o, a)
  }

  function Prefix100(s: string): string
  {
    if |s| <= 100 then s else s[..100]
  }

  function Signature(node: Node, o: Outcome): string
  {
    node.id + "|" + Prefix100(o.output)
  }

  ghost function AtFailure(c: Config, s: State, node: Node, o: Outcome, a: Answer): Turn
  {
    var sig := Signature(node, o);
    var t := s.(ctx := Put(c, ApplyUpdates(c, s.ctx, o.contextUpdates), "needle.last_outcome.status", "FAILURE"),
                signatures := Bump(s.signatures, sig));
    if t.signatures[sig] >= t.cycleLimit then
      Stop(Save(c, t, node.id, a.time), CycleDetected(node.id))
    else if c.troubleshoot && Get(node.attrs, "troubleshoot") != "false" && Get(node.attrs, "troubleshoot") != "0" then
      Diagnose(c, t.(ctx := a.diagnosisCtx), node, o, a)
    else Recover(c, t, node, o, a)
  }

  ghost function Diagnose(c: Config, s: State, node: Node, o: Outcome, a: Answer): Turn
  {
    match a.diagnosis
    case NoAction => Recover(c, s, node, o, a)
    case Escalated(report) => Stop(Save(c, s, node.id, a.time), EscalatedTo(report))
    case Resumed(reloaded) => Go(Save(c, Reload(s, node, reloaded), node.id, a.time))
    case Promoted(artifact) =>
      var ctx := Put(c, Put(c, Put(c, s.ctx, "codergen." + node.id + ".output", artifact),
                                "tool." + node.id + ".output", artifact),
                     "needle.last_outcome.status", "SUCCESS");
      var t := Save(c, s.(ctx := ctx, books := Record(c, s.books, node, SUCCESS)), node.id, a.time);
      var next := NextEdge(c, t, node, Outcome(SUCCESS, "", [], map[], artifact));
      if next.None? then Stop(t, NoEdge(node.id)) else Go(t.(current := FindNode(t.graph, next.value.to)))
  }

  /** A reloaded graph replaces the old one only if it still has the failed node and
      an exit. */
  function Reload(s: State, node: Node, reloaded: Option<Graph>): State
  {
    if reloaded.None? then s
    else
      var g := reloaded.value;
      var exit := FirstOfType(g.nodes, EXIT);
      if FindNode(g, node.id).None? || exit.None? then s
      else s.(graph := g, current := FindNode(g, node.id), exitNode := exit.value)
  }

  predicate AnyConditional(edges: seq<Edge>)
  {
    edges != [] && (Get(edges[0].attrs, "condition") != "" || AnyConditional(edges[1..]))
  }

  /** Failure routing: a matching edge if some edge is conditional, else a retry target. */
  ghost function Recover(c: Config, s: State, node: Node, o: Outcome, a: Answer): Turn
  {
    var t := Save(c, s, node.id, a.time);
    var conditional := AnyConditional(Outgoing(s.graph.edges, node.id));
    var next := NextEdge(c, s, node, o);
    var target := FirstTarget(s.graph, RetryTargets(s.graph, Some(node)));
    if conditional && next.Some? then Go(t.(current := FindNode(s.graph, next.value.to)))
    else if target.Some? then Go(t.(current := target))
    else Stop(t, StageFailed(node.id, o.output))
  }

  /** SUCCESS, PARTIAL_SUCCESS or SKIP. */
  ghost function AtDone(c: Config, s: State, node: Node, o: Outcome, a: Answer): Turn
  {
    var ctx := Put(c, ApplyUpdates(c, s.ctx, o.contextUpdates), "needle.last_outcome.status", StatusName(o.status));
    var t := Save(c, s.(ctx := ctx, books := Record(c, s.books, node, o.status)), node.id, a.time);
    if node.nodeType == PARALLEL then
      var fanIn := if "parallel.fan_in_target" in o.contextUpdates then o.contextUpdates["parallel.fan_in_target"]
                   else Get(t.ctx, "parallel.fan_in_target");
      var u := t.(ctx := Put(c, t.ctx, "parallel.fan_in_target", ""));
      if fanIn != "" && FindNode(u.graph, fanIn).Some? then Go(u.(current := FindNode(u.graph, fanIn)))
      else Advance(c, u, node, o)
    else Advance(c, t, node, o)
  }

  /** Only `var.` and `graph.` keys survive a loop restart. */
  function Restarted(c: Config, ctx: Context): Context
  {
    map k | k in ctx && ("var." <= k || "graph." <= k) :: c.clip(ctx[k])
  }

  ghost function Advance(c: Config, s: State, node: Node, o: Outcome): Turn
  {
    var next := NextEdge(c, s, node, o);
    if next.None? then Stop(s, NoEdge(node.id))
    else
      var e := next.value;
      var t := if Get(e.attrs, "loop_restart") == "true"
               then s.(ctx := Restarted(c, s.ctx), books := s.books.(completed := [], outcomes := map[])) else s;
      var u := t.(current := FindNode(t.graph, e.to));
      if u.current.None? then Stop(u, TargetMissing(e.to)) else Go(u)
  }

  /** The exit's own outcome is ignored: reaching it records it as a success. */
  function AtExit(c: Config, s: State, node: Node, a: Answer): Turn
  {
    var t := match a.reply
             case Unregistered => s
             case Raised(_) => Handled(c, s, a)
             case Replied(o) => var h := Handled(c, s, a); h.(ctx := ApplyUpdates(c, h.ctx, o.contextUpdates));
    CheckGates(Save(c, t.(books := Record(c, t.books, node, SUCCESS)), node.id, a.time))
  }

  predicate Satisfied(outcomes: map<string, StageStatus>, id: string)
  {
    id in outcomes && (outcomes[id] == SUCCESS || outcomes[id] == PARTIAL_SUCCESS)
  }

  /** A goal gate whose recorded outcome does not satisfy it. */
  predicate Unmet(n: Node, outcomes: map<string, StageStatus>)
  {
    IsTrue(n.attrs, "goal_gate") && !Satisfied(outcomes, n.id)
  }

  /** The gate at which the check stops looking: the first unmet one. */
  function FirstUnsatisfied(nodes: seq<Node>, outcomes: map<string, StageStatus>): (r: Option<Node>)
    ensures r.Some? ==> exists k :: IsFirstUnmet(nodes, outcomes, k) && nodes[k] == r.value
    ensures r.None? ==> forall n :: n in nodes ==> !Unmet(n, outcomes)
  {
    if nodes == [] then None
    else if Unmet(nodes[0], outcomes) then
      assert IsFirstUnmet(nodes, outcomes, 0);
      Some(nodes[0])
    else
      var r := FirstUnsatisfied(nodes[1..], outcomes);
      assert forall k :: IsFirstUnmet(nodes[1..], outcomes, k) ==>
             IsFirstUnmet(nodes, outcomes, k + 1) && nodes[k + 1] == nodes[1..][k];
      r
  }

  ghost predicate IsFirstUnmet(nodes: seq<Node>, outcomes: map<string, StageStatus>, k: int)
  {
    0 <= k < |nodes| && Unmet(nodes[k], outcomes) && forall i :: 0 <= i < k ==> !Unmet(nodes[i], outcomes)
  }

  /** What the check remembers of it: its id, with "" standing for no such gate. */
  function UnsatisfiedNode(nodes: seq<Node>, outcomes: map<string, StageStatus>): string
  {
    var gate := FirstUnsatisfied(nodes, outcomes);
    if gate.Some? then gate.value.id else ""
  }

  /** With a gate unsatisfied the loop is entered again at a retry target, if any. An
      unsatisfied gate whose id is empty goes unnoticed. */
  function CheckGates(s: State): Turn
  {
    var gate := UnsatisfiedNode(s.graph.nodes, s.books.outcomes);
    if gate == "" then Stop(s, Completed)
    else
      var target := FirstTarget(s.graph, RetryTargets(s.graph, FindNode(s.graph, gate)));
      if target.Some? then Go(s.(current := target)) else Stop(s, GateUnsatisfied(gate))
  }

  // ---- whole runs ------------------------------------------------------------------------

  /** The run so far, once the world has given these answers. */
  ghost function Run(c: Config, s: State, answers: seq<Answer>): Turn
  {
    if answers == [] then Go(s)
    else
      var before := Run(c, s, answers[..|answers| - 1]);
      if before.ending.Some? then before else Step(c, before.state, answers[|answers| - 1])
  }

  /** What an engine object carries over from one run to the next. */
  datatype Memory = Memory(hashes: map<string, string>, retries: map<string, int>, cycleLimit: int)

  function CycleLimit(g: Graph, previous: int): int
  {
    var v := if "loop_restart_signature_limit" in g.attrs then ParseInt(g.attrs["loop_restart_signature_limit"])
      else None;
    if v.Some? && v.value > 0 then v.value else previous
  }

  /** run(): a fresh start on a graph whose variables have been expanded. None when
      the graph has no start or no exit. */
  function Launch(c: Config, m: Memory, g: Graph, ctx: Context): Option<State>
  {
    var start, exit := FirstOfType(g.nodes, START), FirstOfType(g.nodes, EXIT);
    if start.None? || exit.None? then None
    else
      var ctx' := if c.graphFile != "" then Put(c, ctx, "needle.graph_path", c.graphFile) else ctx;
      Some(State(g, start, exit.value, ctx', false, Books([], map[], m.hashes), map[], m.retries,
                 CycleLimit(g, m.cycleLimit), None))
  }

  /** ResumeValidator's errors: the checkpoint names a node the graph lacks, or under
      strict checking a completed node was edited since. */
  predicate Blocked(c: Config, g: Graph, cp: Checkpoint)
  {
    || cp.currentNode !in Ids(g)
    || (exists id :: id in cp.completedNodes && id !in Ids(g))
    || ((c.strict || Get(g.attrs, "strict_hash_check") == "true" || Get(g.attrs, "strict_hash_check") == "1")
        && cp.graphHash != "" && cp.graphHash != c.graphHash(g)
        && exists id :: id in cp.completedNodes && id in cp.completedNodeHashes
                        && FindNode(g, id).Some? && c.nodeHash(FindNode(g, id).value) != cp.completedNodeHashes[id])
  }

  /** The state a checkpoint restores, still standing on its own node. */
  function Restore(c: Config, m: Memory, g: Graph, current: Node, exit: Node, cp: Checkpoint): State
  {
    var path := if c.graphFile != "" then c.graphFile else cp.graphFile;
    var ctx := if path != "" then Put(c, cp.context, "needle.graph_path", path) else cp.context;
    State(g, Some(current), exit, ctx, false,
          Books(cp.completedNodes, map id | id in cp.completedNodes :: SUCCESS, cp.completedNodeHashes),
          map[], map[], CycleLimit(g, m.cycleLimit), None)
  }

  /** resume(): restore from a checkpoint, and step past its node when that node has
      completed. None when the resume is refused. */
  ghost function Resume(c: Config, m: Memory, g: Graph, cp: Checkpoint): Option<State>
  {
    var current, exit := FindNode(g, cp.currentNode), FirstOfType(g.nodes, EXIT);
    if Blocked(c, g, cp) || current.None? || exit.None? then None
    else
      Some(Skipped(c, Restore(c, m, g, current.value, exit.value, cp), current.value))
  }

  /** A completed node is stepped past along the edge a plain success would take. */
  ghost function Skipped(c: Config, s: State, node: Node): State
  {
    var skip := Outcome(SUCCESS, Get(s.ctx, "human.gate.selected"), [], map[], "");
    var next := NextEdge(c, s, node, skip);
    if node.id in s.books.completed && next.Some? then s.(current := FindNode(s.graph, next.value.to)) else s
  }
}
