/** What one turn of the main loop leaves behind, told key by key and field by field
    (src/engine/pipeline_engine.cpp). */
module EngineTurns {
  import opened Text
  import opened Graphs
  import opened Outcomes
  import opened EdgeSelection
  import opened EdgeConditions
  import opened Checkpoints
  import opened Engine

  // ---- contexts ---------------------------------------------------------------------------

  const STATUS_KEY := "needle.last_outcome.status"
  const FAN_IN_KEY := "parallel.fan_in_target"

  predicate Holds(c: Config, ctx: Context, key: string, value: string)
  {
    key in ctx && ctx[key] == c.clip(value)
  }

  predicate SameUnder(key: string, one: Context, two: Context)
  {
    (key in one <==> key in two) && (key in one ==> one[key] == two[key])
  }

  /** `after` is `before` with the updates stored, and nothing else changed. */
  ghost predicate Updated(c: Config, before: Context, updates: map<string, string>, after: Context)
  {
    && (forall k :: k in updates ==> Holds(c, after, k, updates[k]))
    && forall k :: k !in updates ==> SameUnder(k, before, after)
  }

  /** The same with the name of the status stored last. */
  ghost predicate UpdatedWith(c: Config, before: Context, updates: map<string, string>, status: StageStatus,
                              after: Context)
  {
    && (exists name :: Named(status, name) && Holds(c, after, STATUS_KEY, name))
    && (forall k :: k in updates && k != STATUS_KEY ==> Holds(c, after, k, updates[k]))
    && forall k :: k !in updates && k != STATUS_KEY ==> SameUnder(k, before, after)
  }

  /** Only the keys of variables and of the graph are left, their values stored again. */
  ghost predicate RestartedFrom(c: Config, before: Context, after: Context)
  {
    forall k ::
      && (k in after <==> k in before && ((|k| >= 4 && k[..4] == "var.") || (|k| >= 6 && k[..6] == "graph.")))
      && (k in after ==> after[k] == c.clip(before[k]))
  }

  lemma UpdatesApplied(c: Config, ctx: Context, updates: map<string, string>)
    ensures Updated(c, ctx, updates, ApplyUpdates(c, ctx, updates))
  {
  }

  lemma StatusApplied(c: Config, ctx: Context, updates: map<string, string>, status: StageStatus)
    ensures UpdatedWith(c, ctx, updates, status, Put(c, ApplyUpdates(c, ctx, updates), STATUS_KEY, StatusName(status)))
  {
    hide ApplyUpdates, StatusName, Named;
    StatusIsNamed(status);
    UpdatesApplied(c, ctx, updates);
    var applied := ApplyUpdates(c, ctx, updates);
    var after := Put(c, applied, STATUS_KEY, StatusName(status));
    assert Holds(c, after, STATUS_KEY, StatusName(status));
    forall k | k != STATUS_KEY ensures SameUnder(k, applied, after) {}
    forall k | k !in updates && k != STATUS_KEY ensures SameUnder(k, ctx, after) {
      assert SameUnder(k, ctx, applied);
    }
  }

  lemma StatusIsNamed(status: StageStatus)
    ensures Named(status, StatusName(status))
  {
  }

  lemma RestartKeeps(c: Config, ctx: Context)
    ensures RestartedFrom(c, ctx, Restarted(c, ctx))
  {
    forall k
      ensures ("var." <= k <==> |k| >= 4 && k[..4] == "var.")
              && ("graph." <= k <==> |k| >= 6 && k[..6] == "graph.")
    {
    }
  }

  // ---- books and checkpoints ------------------------------------------------------------------

  predicate Completes(status: StageStatus)
  {
    status.SUCCESS? || status.PARTIAL_SUCCESS? || status.SKIP?
  }

  /** A node that completes is listed, at the end unless it was before, and hashed; any
      status becomes its outcome. Nothing is said of other nodes. */
  ghost predicate Recorded(c: Config, before: Books, node: Node, status: StageStatus, after: Books)
  {
    && (forall id :: id != node.id ==> (id in after.outcomes <==> id in before.outcomes))
    && (forall id :: id != node.id && id in before.outcomes ==> after.outcomes[id] == before.outcomes[id])
    && node.id in after.outcomes && after.outcomes[node.id] == status
    && if Completes(status) then
         && after.completed == (if node.id in before.completed then before.completed else before.completed + [node.id])
         && (forall id :: id != node.id ==> SameUnder(id, before.hashes, after.hashes))
         && node.id in after.hashes && after.hashes[node.id] == c.nodeHash(node)
       else
         after.completed == before.completed && after.hashes == before.hashes
  }

  lemma RecordRecords(c: Config, b: Books, node: Node, status: StageStatus)
    ensures Recorded(c, b, node, status, Record(c, b, node, status))
  {
  }

  /** Completions are recorded one after another, in their order. */
  lemma {:induction false} RecordedInOrder(c: Config, b: Books, x: Completion, rest: seq<Completion>)
    ensures RecordAll(c, b, []) == b
    ensures Recorded(c, b, x.node, x.status, RecordAll(c, b, [x]))
    ensures RecordAll(c, b, [x] + rest) == RecordAll(c, RecordAll(c, b, [x]), rest)
  {
    hide Record, Recorded;
    assert [x][..0] == [];
    RecordRecords(c, b, x.node, x.status);
    if rest == [] {
      assert [x] + rest == [x];
    } else {
      assert ([x] + rest)[..|rest|] == [x] + rest[..|rest| - 1];
      RecordedInOrder(c, b, x, rest[..|rest| - 1]);
    }
  }

  /** Every retry of a subgraph counts once. */
  lemma {:induction false} EachRetryCounts(m: map<string, int>, ids: seq<string>, id: string)
    ensures Count(BumpAll(m, ids), id) == Count(m, id) + multiset(ids)[id]
  {
    if ids != [] {
      var front, last := ids[..|ids| - 1], ids[|ids| - 1];
      EachRetryCounts(m, front, id);
      assert ids == front + [last];
    }
  }

  /** A checkpoint with this content, and the run's settings. */
  ghost predicate Written(c: Config, cp: Option<Checkpoint>, node: string, time: string, g: Graph, books: Books,
                          retries: map<string, int>, ctx: Context)
  {
    && cp.Some? && cp.value.currentNode == node && cp.value.timestamp == time
    && cp.value.completedNodes == books.completed && cp.value.completedNodeHashes == books.hashes
    && cp.value.retryCounters == retries && cp.value.context == ctx
    && cp.value.graphFile == c.graphFile && cp.value.graphHash == c.graphHash(g)
    && cp.value.stylesheetFile == c.stylesheetFile && cp.value.logsRoot == c.logsRoot
    && cp.value.dotContentHash == c.dotContentHash
    && forall b :: b != "" ==> SameUnderPrefix(b, cp.value.branchWorktrees, ctx)
  }

  /** A branch has the worktree that the context names under its key. */
  predicate SameUnderPrefix(b: string, worktrees: map<string, string>, ctx: Context)
  {
    var key := "needle.branch_worktree." + b;
    (b in worktrees <==> key in ctx) && (b in worktrees ==> worktrees[b] == ctx[key])
  }

  lemma SaveWrites(c: Config, s: State, node: string, time: string)
    ensures Written(c, Save(c, s, node, time).saved, node, time, s.graph, s.books, s.retries, s.ctx)
  {
    forall b | b != "" ensures SameUnderPrefix(b, BranchWorktrees(s.ctx), s.ctx) { WorktreeOf(s.ctx, b); }
  }

  lemma WorktreeOf(ctx: Context, b: string)
    requires b != ""
    ensures SameUnderPrefix(b, BranchWorktrees(ctx), ctx)
  {
    var key := WORKTREE_PREFIX + b;
    assert key[|WORKTREE_PREFIX|..] == b;
    forall k | WORKTREE_PREFIX <= k && k[|WORKTREE_PREFIX|..] == b ensures k == key {
      assert k == WORKTREE_PREFIX + k[|WORKTREE_PREFIX|..];
    }
  }

  // ---- where a turn goes --------------------------------------------------------------------

  /** The turn stands on the node with this id. */
  ghost predicate StandsOn(g: Graph, id: string, t: Turn)
  {
    t.ending.None? && id in Ids(g) && t.state.current == FindNode(g, id)
  }

  /** Everything a stage leaves alone. */
  ghost predicate SameRun(s: State, t: State)
  {
    t.exitNode == s.exitNode && t.cycleLimit == s.cycleLimit && t.graph == s.graph && !t.cancelled
  }

  /** Edge `k` out of the node is chosen over this context. */
  ghost predicate Picks(c: Config, g: Graph, node: Node, o: Outcome, ctx: Context, e: Edge)
  {
    var edges := Outgoing(g.edges, node.id);
    exists k :: 0 <= k < |edges| && Chosen(edges, Left(c.read, edges, o, ctx), o, k) && edges[k] == e
  }

  ghost predicate NoneLeft(c: Config, g: Graph, node: Node, o: Outcome, ctx: Context)
  {
    Left(c.read, Outgoing(g.edges, node.id), o, ctx) == {}
  }

  lemma NextIsPicked(c: Config, s: State, node: Node, o: Outcome)
    ensures var next := NextEdge(c, s, node, o);
            && (next.None? <==> NoneLeft(c, s.graph, node, o, s.ctx))
            && (next.Some? ==> Picks(c, s.graph, node, o, s.ctx, next.value))
  {
    hide Left, Chosen, Choice;
    ChoiceIsTheChosen(c.read, Outgoing(s.graph.edges, node.id), o, s.ctx);
  }

  /** On along the edge chosen: a `loop_restart` edge forgets the context and what has
      completed; without an edge, or with one to a missing node, the run ends. */
  ghost predicate MovesOn(c: Config, g: Graph, node: Node, o: Outcome, ctx: Context, books: Books, t: Turn)
  {
    if NoneLeft(c, g, node, o, ctx) then
      t.ending == Some(NoEdge(node.id)) && t.state.ctx == ctx && t.state.books == books
    else
      exists e :: Picks(c, g, node, o, ctx, e) && Follows(c, g, e, ctx, books, t)
  }

  lemma AdvanceMovesOn(c: Config, s: State, node: Node, o: Outcome)
    ensures MovesOn(c, s.graph, node, o, s.ctx, s.books, Advance(c, s, node, o))
  {
    hide NextEdge, NoneLeft, Picks, Restarted, RestartedFrom, Follows;
    NextIsPicked(c, s, node, o);
    RestartKeeps(c, s.ctx);
    var next := NextEdge(c, s, node, o);
    if next.Some? { EdgeMovesOn(c, s, node, next.value, Advance(c, s, node, o)); }
  }

  ghost predicate Follows(c: Config, g: Graph, e: Edge, ctx: Context, books: Books, t: Turn)
  {
    && (if "loop_restart" in e.attrs && e.attrs["loop_restart"] == "true" then
          RestartedFrom(c, ctx, t.state.ctx) && t.state.books == Books([], map[], books.hashes)
        else t.state.ctx == ctx && t.state.books == books)
    && if e.to in Ids(g) then StandsOn(g, e.to, t) else t.ending == Some(TargetMissing(e.to)) && t.state.current == None
  }

  lemma EdgeMovesOn(c: Config, s: State, node: Node, e: Edge, t: Turn)
    requires RestartedFrom(c, s.ctx, Restarted(c, s.ctx))
    requires var r := if Get(e.attrs, "loop_restart") == "true"
                      then s.(ctx := Restarted(c, s.ctx), books := s.books.(completed := [], outcomes := map[])) else s;
             var u := r.(current := FindNode(s.graph, e.to));
             t == if u.current.None? then Stop(u, TargetMissing(e.to)) else Go(u)
    ensures Follows(c, s.graph, e, s.ctx, s.books, t)
  {
    hide Restarted, RestartedFrom;
  }

  lemma AdvanceKeepsRun(c: Config, s: State, node: Node, o: Outcome)
    ensures var t := Advance(c, s, node, o).state;
            t.saved == s.saved && t.signatures == s.signatures && t.retries == s.retries
            && t.exitNode == s.exitNode && t.cycleLimit == s.cycleLimit && t.graph == s.graph
            && t.cancelled == s.cancelled
  {
    hide NextEdge, Restarted;
  }

  predicate Usable(g: Graph, id: string)
  {
    id != "" && id in Ids(g)
  }

  /** Back to the first usable of the node's own retry target, its fallback, the graph's
      retry target and the graph's fallback. */
  ghost predicate Retries(g: Graph, node: Option<Node>, otherwise: Ending, t: Turn)
  {
    var own := if node.Some? then Get(node.value.attrs, "retry_target") else "";
    var ownFallback := if node.Some? then Get(node.value.attrs, "fallback_retry_target") else "";
    if Usable(g, own) then StandsOn(g, own, t)
    else if Usable(g, ownFallback) then StandsOn(g, ownFallback, t)
    else if Usable(g, Get(g.attrs, "retry_target")) then StandsOn(g, Get(g.attrs, "retry_target"), t)
    else if Usable(g, Get(g.attrs, "fallback_retry_target")) then StandsOn(g, Get(g.attrs, "fallback_retry_target"), t)
    else t.ending == Some(otherwise)
  }

  lemma TargetStep(g: Graph, x: string, rest: seq<string>)
    ensures FirstTarget(g, [x] + rest) == if Usable(g, x) then FindNode(g, x) else FirstTarget(g, rest)
    ensures FirstTarget(g, []) == None
  {
    assert ([x] + rest)[1..] == rest;
  }

  lemma TargetRetries(s: State, node: Option<Node>, otherwise: Ending)
    ensures var target := FirstTarget(s.graph, RetryTargets(s.graph, node));
            Retries(s.graph, node, otherwise,
                    if target.Some? then Go(s.(current := target)) else Stop(s, otherwise))
  {
    hide FirstTarget, Get;
    var g := s.graph;
    var shared, sharedFallback := Get(g.attrs, "retry_target"), Get(g.attrs, "fallback_retry_target");
    TargetStep(g, sharedFallback, []);
    assert [sharedFallback] + [] == [sharedFallback];
    TargetStep(g, shared, [sharedFallback]);
    if node.None? {
      assert RetryTargets(g, node) == [shared] + [sharedFallback];
    } else {
      var own, ownFallback := Get(node.value.attrs, "retry_target"), Get(node.value.attrs, "fallback_retry_target");
      TargetStep(g, ownFallback, [shared] + [sharedFallback]);
      TargetStep(g, own, [ownFallback] + ([shared] + [sharedFallback]));
      assert RetryTargets(g, node) == [own] + ([ownFallback] + ([shared] + [sharedFallback]));
    }
  }

  // ---- turns at a stage -----------------------------------------------------------------------

  /** An uncancelled turn at a stage that is not the exit. */
  ghost predicate AtStage(s: State, a: Answer, node: Node)
  {
    !s.cancelled && !a.cancel && s.current == Some(node) && node.id != s.exitNode.id
  }

  /** The stage is done: its updates and status are in the context, it is recorded, the
      checkpoint holds both, and the run goes on from there -- from a parallel stage to its
      fan-in, if there is one, with the key that names it cleared. */
  ghost predicate DoneAt(c: Config, s: State, a: Answer, node: Node, o: Outcome, ctx: Context, books: Books, t: Turn)
  {
    var retries := BumpAll(s.retries, a.retried);
    && UpdatedWith(c, a.ctx, o.contextUpdates, o.status, ctx)
    && Recorded(c, RecordAll(c, s.books, a.records), node, o.status, books)
    && Written(c, t.state.saved, node.id, a.time, s.graph, books, retries, ctx)
    && SameRun(s, t.state) && t.state.signatures == s.signatures && t.state.retries == retries
    && if node.nodeType == PARALLEL then
         var fanIn := if FAN_IN_KEY in o.contextUpdates then o.contextUpdates[FAN_IN_KEY] else Get(ctx, FAN_IN_KEY);
         var cleared := ctx[FAN_IN_KEY := c.clip("")];
         if Usable(s.graph, fanIn) then StandsOn(s.graph, fanIn, t) && t.state.ctx == cleared && t.state.books == books
         else MovesOn(c, s.graph, node, o, cleared, books, t)
       else MovesOn(c, s.graph, node, o, ctx, books, t)
  }

  lemma AtDoneIsDone(c: Config, s: State, a: Answer, node: Node, o: Outcome) returns (ctx: Context, books: Books)
    requires !s.cancelled
    ensures DoneAt(c, s, a, node, o, ctx, books, AtDone(c, Handled(c, s, a), node, o, a))
  {
    hide Advance, Recorded, Written, UpdatedWith, MovesOn, Record, StatusName, ApplyUpdates;
    var h := Handled(c, s, a);
    ctx := Put(c, ApplyUpdates(c, a.ctx, o.contextUpdates), STATUS_KEY, StatusName(o.status));
    books := Record(c, h.books, node, o.status);
    var r := h.(ctx := ctx, books := books);
    var t := Save(c, r, node.id, a.time);
    StatusApplied(c, a.ctx, o.contextUpdates, o.status);
    RecordRecords(c, h.books, node, o.status);
    SaveWrites(c, r, node.id, a.time);
    AdvanceMovesOn(c, t, node, o);
    AdvanceKeepsRun(c, t, node, o);
    var u := t.(ctx := ctx[FAN_IN_KEY := c.clip("")]);
    AdvanceMovesOn(c, u, node, o);
    AdvanceKeepsRun(c, u, node, o);
  }

  /** A turn whose stage succeeds, partly succeeds or skips. */
  lemma StageDone(c: Config, s: State, a: Answer, node: Node, o: Outcome) returns (ctx: Context, books: Books)
    requires AtStage(s, a, node) && a.reply == Replied(o) && Completes(o.status)
    ensures DoneAt(c, s, a, node, o, ctx, books, Step(c, s, a))
  {
    hide AtDone, DoneAt, Handled;
    var s1 := s.(cancelled := false);
    assert s1 == s;
    ctx, books := AtDoneIsDone(c, s, a, node, o);
  }

  /** How often a stage may be retried: a preset's number, or its own, or five times. */
  ghost predicate MayRetry(attrs: Attributes, limit: int)
  {
    if "retry_preset" in attrs && attrs["retry_preset"] != "" then
      (attrs["retry_preset"] == "aggressive" && limit == 10) || (attrs["retry_preset"] == "patient" && limit == 3)
      || (attrs["retry_preset"] != "aggressive" && attrs["retry_preset"] != "patient" && limit == 5)
    else if "max_retries" in attrs && exists n :: Numeral(attrs["max_retries"], n) then
      Numeral(attrs["max_retries"], limit)
    else limit == 5
  }

  lemma RetryLimit(attrs: Attributes)
    ensures MayRetry(attrs, MaxRetries(attrs))
  {
    hide Numeral, ParseInt;
    if "max_retries" in attrs {
      var text := attrs["max_retries"];
      forall n ensures ParseInt(text) == Some(n) <==> Numeral(text, n) { ParseIntExactly(text, n); }
    }
  }

  /** A turn whose stage asks to be retried: it stays there while its count allows, is
      accepted as a partial success if the stage permits, and otherwise ends the run. */
  lemma StageRetries(c: Config, s: State, a: Answer, node: Node, o: Outcome)
    returns (limit: int, ctx: Context, books: Books)
    requires AtStage(s, a, node) && a.reply == Replied(o) && o.status == RETRY
    ensures MayRetry(node.attrs, limit)
    ensures var t := Step(c, s, a); var count := Count(s.retries, node.id) + multiset(a.retried)[node.id];
            if count < limit then
              && t.ending.None? && SameRun(s, t.state) && t.state.current == Some(node) && t.state.ctx == a.ctx
              && t.state.books == RecordAll(c, s.books, a.records) && t.state.saved == s.saved
              && t.state.signatures == s.signatures && t.state.retries == BumpAll(s.retries, a.retried + [node.id])
            else if IsTrue(node.attrs, "allow_partial") then
              DoneAt(c, s, a, node,
                     o.(status := PARTIAL_SUCCESS, output := "retries exhausted, partial accepted"), ctx, books, t)
            else t.ending == Some(RetriesExhausted(node.id))
  {
    hide AtDone, DoneAt, MaxRetries, MayRetry, IsTrue, RecordAll;
    limit := MaxRetries(node.attrs);
    RetryLimit(node.attrs);
    EachRetryCounts(s.retries, a.retried, node.id);
    assert (a.retried + [node.id])[..|a.retried|] == a.retried;
    assert s.(cancelled := false) == s;
    ctx, books := AtDoneIsDone(c, s, a, node,
                               o.(status := PARTIAL_SUCCESS, output := "retries exhausted, partial accepted"));
  }

  /** A stage without a handler, or whose handler raises an error, ends the run. */
  lemma StageBroken(c: Config, s: State, a: Answer, node: Node)
    requires AtStage(s, a, node) && !a.reply.Replied?
    ensures Step(c, s, a).ending
            == Some(if a.reply.Unregistered? then NoHandlerFor(node.id) else HandlerFailed(a.reply.error))
  {
  }

  // ---- turns at a failing stage --------------------------------------------------------------------

  /** What a failure is counted under. */
  ghost predicate SignedBy(node: Node, output: string, sig: string)
  {
    exists front :: sig == node.id + "|" + front && front <= output
                    && (front == output || |front| == 100) && |front| <= 100
  }

  ghost predicate AnyCondition(g: Graph, node: Node)
  {
    exists e :: e in g.edges && e.from == node.id && Get(e.attrs, "condition") != ""
  }

  lemma {:induction false} AnyConditionalExactly(edges: seq<Edge>)
    ensures AnyConditional(edges) <==> exists e :: e in edges && Get(e.attrs, "condition") != ""
  {
    if edges != [] {
      AnyConditionalExactly(edges[1..]);
      assert edges == [edges[0]] + edges[1..];
    }
  }

  /** After a failure the run goes along the edge chosen, if the stage has conditional edges
      and one is left, and otherwise back to a retry target; the checkpoint is of before. */
  ghost predicate RecoversAt(c: Config, s: State, node: Node, o: Outcome, time: string, t: Turn)
  {
    && Written(c, t.state.saved, node.id, time, s.graph, s.books, s.retries, s.ctx)
    && t.state.ctx == s.ctx && t.state.books == s.books
    && if AnyCondition(s.graph, node) && !NoneLeft(c, s.graph, node, o, s.ctx) then
         exists e :: Picks(c, s.graph, node, o, s.ctx, e)
                     && t.ending.None? && t.state.current == FindNode(s.graph, e.to)
       else Retries(s.graph, Some(node), StageFailed(node.id, o.output), t)
  }

  lemma RecoverRecovers(c: Config, s: State, node: Node, o: Outcome, a: Answer)
    ensures var t := Recover(c, s, node, o, a);
            && RecoversAt(c, s, node, o, a.time, t)
            && t.state.graph == s.graph && t.state.exitNode == s.exitNode && t.state.cycleLimit == s.cycleLimit
            && t.state.cancelled == s.cancelled && t.state.signatures == s.signatures && t.state.retries == s.retries
  {
    hide NextEdge, NoneLeft, Picks, Written, FirstTarget, RetryTargets, AnyConditional, Retries;
    SaveWrites(c, s, node.id, a.time);
    NextIsPicked(c, s, node, o);
    AnyConditionalExactly(Outgoing(s.graph.edges, node.id));
    OutgoingMember(s.graph.edges, node.id);
    TargetRetries(Save(c, s, node.id, a.time), Some(node), StageFailed(node.id, o.output));
  }

  /** What the troubleshooter decided is done: nothing, an end with a report, another try
      on a reloaded graph that still has the stage and an exit, or the stage promoted to a
      success with the artifact as its output. */
  ghost predicate TroubleshotAt(c: Config, s: State, a: Answer, node: Node, o: Outcome, t: Turn)
  {
    match a.diagnosis
    case NoAction => RecoversAt(c, s, node, o, a.time, t)
    case Escalated(report) => t.ending == Some(EscalatedTo(report)) && t.state.ctx == s.ctx
    case Resumed(reloaded) => ResumedAt(s, node, reloaded, t)
    case Promoted(artifact) => PromotedAt(c, s, a, node, artifact, t)
  }

  ghost predicate ResumedAt(s: State, node: Node, reloaded: Option<Graph>, t: Turn)
  {
    && t.ending.None? && t.state.ctx == s.ctx && t.state.books == s.books
    && if reloaded.Some? && node.id in Ids(reloaded.value)
          && exists n :: n in reloaded.value.nodes && n.nodeType == EXIT then
         && t.state.graph == reloaded.value && StandsOn(reloaded.value, node.id, t)
         && t.state.exitNode in reloaded.value.nodes && t.state.exitNode.nodeType == EXIT
       else t.state.graph == s.graph && t.state.current == s.current && t.state.exitNode == s.exitNode
  }

  ghost predicate PromotedAt(c: Config, s: State, a: Answer, node: Node, artifact: string, t: Turn)
  {
    var updates := map["codergen." + node.id + ".output" := artifact, "tool." + node.id + ".output" := artifact];
    var promoted := Outcome(SUCCESS, "", [], map[], artifact);
    && UpdatedWith(c, s.ctx, updates, SUCCESS, t.state.ctx) && Recorded(c, s.books, node, SUCCESS, t.state.books)
    && Written(c, t.state.saved, node.id, a.time, s.graph, t.state.books, s.retries, t.state.ctx)
    && if NoneLeft(c, s.graph, node, promoted, t.state.ctx) then t.ending == Some(NoEdge(node.id))
       else exists e :: Picks(c, s.graph, node, promoted, t.state.ctx, e)
                        && t.ending.None? && t.state.current == FindNode(s.graph, e.to)
  }

  lemma {:induction false} ExitFound(nodes: seq<Node>, t: NodeType)
    ensures FirstOfType(nodes, t).Some? <==> exists n :: n in nodes && n.nodeType == t
  {
    if nodes != [] {
      ExitFound(nodes[1..], t);
      assert nodes == [nodes[0]] + nodes[1..];
    }
  }

  lemma PromotedContext(c: Config, s: State, node: Node, artifact: string)
    ensures var updates := map["codergen." + node.id + ".output" := artifact,
                               "tool." + node.id + ".output" := artifact];
            UpdatedWith(c, s.ctx, updates, SUCCESS,
                        Put(c, Put(c, Put(c, s.ctx, "codergen." + node.id + ".output", artifact),
                                   "tool." + node.id + ".output", artifact), STATUS_KEY, "SUCCESS"))
  {
    var codergen, tool := "codergen." + node.id + ".output", "tool." + node.id + ".output";
    assert codergen[0] == 'c' && tool[0] == 't' && STATUS_KEY[0] == 'n';
    assert Named(SUCCESS, "SUCCESS");
  }

  lemma DiagnoseTroubleshoots(c: Config, s: State, a: Answer, node: Node, o: Outcome)
    ensures var t := Diagnose(c, s, node, o, a);
            TroubleshotAt(c, s, a, node, o, t) && t.state.signatures == s.signatures && t.state.retries == s.retries
  {
    hide Recover, RecoversAt, PromotedAt, Reload, NextEdge, Record, ResumedAt;
    match a.diagnosis
    case NoAction => RecoverRecovers(c, s, node, o, a);
    case Escalated(_) =>
    case Resumed(reloaded) => ReloadResumes(c, s, a, node, reloaded);
    case Promoted(artifact) => PromotionMovesOn(c, s, a, node, o, artifact);
  }

  lemma ReloadResumes(c: Config, s: State, a: Answer, node: Node, reloaded: Option<Graph>)
    ensures var t := Go(Save(c, Reload(s, node, reloaded), node.id, a.time));
            ResumedAt(s, node, reloaded, t) && t.state.signatures == s.signatures && t.state.retries == s.retries
  {
    if reloaded.Some? { ExitFound(reloaded.value.nodes, EXIT); }
  }

  lemma PromotionMovesOn(c: Config, s: State, a: Answer, node: Node, o: Outcome, artifact: string)
    requires a.diagnosis == Promoted(artifact)
    ensures var t := Diagnose(c, s, node, o, a);
            PromotedAt(c, s, a, node, artifact, t) && t.state.signatures == s.signatures && t.state.retries == s.retries
  {
    hide NextEdge, NoneLeft, Picks, Written, Recorded, UpdatedWith, Record;
    PromotedContext(c, s, node, artifact);
    var ctx := Put(c, Put(c, Put(c, s.ctx, "codergen." + node.id + ".output", artifact),
                          "tool." + node.id + ".output", artifact), STATUS_KEY, "SUCCESS");
    RecordRecords(c, s.books, node, SUCCESS);
    var r := s.(ctx := ctx, books := Record(c, s.books, node, SUCCESS));
    SaveWrites(c, r, node.id, a.time);
    NextIsPicked(c, Save(c, r, node.id, a.time), node, Outcome(SUCCESS, "", [], map[], artifact));
  }

  /** A turn whose stage fails: its updates and status are in the context and the failure is
      counted; the run ends when the limit is reached, and otherwise the troubleshooter
      decides, or the run recovers. */
  ghost predicate FailedAt(c: Config, s: State, a: Answer, node: Node, o: Outcome, ctx: Context, sig: string, t: Turn)
  {
    var books, retries := RecordAll(c, s.books, a.records), BumpAll(s.retries, a.retried);
    var failed := s.(ctx := ctx, books := books, retries := retries, signatures := Bump(s.signatures, sig));
    && UpdatedWith(c, a.ctx, o.contextUpdates, FAILURE, ctx) && SignedBy(node, o.output, sig)
    && t.state.signatures == Bump(s.signatures, sig) && t.state.retries == retries
    && if Count(s.signatures, sig) + 1 >= s.cycleLimit then
         && t.ending == Some(CycleDetected(node.id)) && t.state.ctx == ctx && t.state.books == books
         && Written(c, t.state.saved, node.id, a.time, s.graph, books, retries, ctx)
       else if c.troubleshoot && !("troubleshoot" in node.attrs
                                   && (node.attrs["troubleshoot"] == "false" || node.attrs["troubleshoot"] == "0")) then
         TroubleshotAt(c, failed.(ctx := a.diagnosisCtx), a, node, o, t)
       else RecoversAt(c, failed, node, o, a.time, t) && SameRun(s, t.state)
  }

  lemma SignatureSigns(node: Node, o: Outcome)
    ensures SignedBy(node, o.output, Signature(node, o))
  {
    assert Signature(node, o) == node.id + "|" + Prefix100(o.output);
  }

  lemma AtFailureFails(c: Config, s: State, a: Answer, node: Node, o: Outcome) returns (ctx: Context, sig: string)
    requires !s.cancelled
    ensures FailedAt(c, s, a, node, o, ctx, sig, AtFailure(c, Handled(c, s, a), node, o, a))
  {
    hide Diagnose, Recover, RecoversAt, TroubleshotAt, Written, UpdatedWith, SignedBy, Signature, RecordAll, BumpAll,
         ApplyUpdates;
    var h := Handled(c, s, a);
    ctx := Put(c, ApplyUpdates(c, a.ctx, o.contextUpdates), STATUS_KEY, "FAILURE");
    sig := Signature(node, o);
    StatusApplied(c, a.ctx, o.contextUpdates, FAILURE);
    SignatureSigns(node, o);
    var failed := h.(ctx := ctx, signatures := Bump(s.signatures, sig));
    SaveWrites(c, failed, node.id, a.time);
    RecoverRecovers(c, failed, node, o, a);
    DiagnoseTroubleshoots(c, failed.(ctx := a.diagnosisCtx), a, node, o);
  }

  /** A turn at a failing stage. */
  lemma StageFails(c: Config, s: State, a: Answer, node: Node, o: Outcome) returns (ctx: Context, sig: string)
    requires AtStage(s, a, node) && a.reply == Replied(o) && o.status == FAILURE
    ensures FailedAt(c, s, a, node, o, ctx, sig, Step(c, s, a))
  {
    hide AtFailure, FailedAt, Handled;
    assert s.(cancelled := false) == s;
    ctx, sig := AtFailureFails(c, s, a, node, o);
  }

  // ---- turns at the exit ----------------------------------------------------------------------

  /** A goal gate whose stage has not succeeded, even partly. */
  predicate Open(n: Node, outcomes: map<string, StageStatus>)
  {
    && "goal_gate" in n.attrs
    && (n.attrs["goal_gate"] == "true" || n.attrs["goal_gate"] == "1" || n.attrs["goal_gate"] == "yes")
    && !(n.id in outcomes && (outcomes[n.id].SUCCESS? || outcomes[n.id].PARTIAL_SUCCESS?))
  }

  ghost predicate FirstOpen(nodes: seq<Node>, outcomes: map<string, StageStatus>, k: int)
  {
    0 <= k < |nodes| && Open(nodes[k], outcomes) && forall i :: 0 <= i < k ==> !Open(nodes[i], outcomes)
  }

  /** The first open gate sends the run back to a retry target, or ends it; with none, or
      one whose id is empty, the run is completed. */
  ghost predicate GatesChecked(g: Graph, outcomes: map<string, StageStatus>, t: Turn)
  {
    if exists k :: FirstOpen(g.nodes, outcomes, k) && g.nodes[k].id != "" then
      exists k :: FirstOpen(g.nodes, outcomes, k)
                  && Retries(g, FindNode(g, g.nodes[k].id), GateUnsatisfied(g.nodes[k].id), t)
    else t.ending == Some(Completed)
  }

  lemma GatesAreChecked(s: State)
    ensures GatesChecked(s.graph, s.books.outcomes, CheckGates(s))
    ensures CheckGates(s).state.(current := s.current) == s
  {
    hide Retries, FirstTarget, RetryTargets, Unmet, Open;
    var nodes, outcomes := s.graph.nodes, s.books.outcomes;
    forall n ensures Unmet(n, outcomes) <==> Open(n, outcomes) { SameGate(n, outcomes); }
    var gate := FirstUnsatisfied(nodes, outcomes);
    if gate.Some? {
      var k :| IsFirstUnmet(nodes, outcomes, k) && nodes[k] == gate.value;
      assert FirstOpen(nodes, outcomes, k);
      forall m | FirstOpen(nodes, outcomes, m) ensures m == k {}
      TargetRetries(s, FindNode(s.graph, gate.value.id), GateUnsatisfied(gate.value.id));
    } else {
      forall k ensures !FirstOpen(nodes, outcomes, k) {
        if 0 <= k < |nodes| { assert nodes[k] in nodes; }
      }
    }
  }

  lemma SameGate(n: Node, outcomes: map<string, StageStatus>)
    ensures Unmet(n, outcomes) <==> Open(n, outcomes)
  {
  }

  /** A turn at the exit: whatever its handler answers, the exit is recorded as a success
      and saved, with the updates of an answer in the context, and the gates are checked. */
  lemma ExitReached(c: Config, s: State, a: Answer, node: Node) returns (ctx: Context, books: Books)
    requires !s.cancelled && !a.cancel && s.current == Some(node) && node.id == s.exitNode.id
    ensures if a.reply.Unregistered? then ctx == s.ctx && Recorded(c, s.books, node, SUCCESS, books)
            else
              && Recorded(c, RecordAll(c, s.books, a.records), node, SUCCESS, books)
              && if a.reply.Raised? then ctx == a.ctx else Updated(c, a.ctx, a.reply.outcome.contextUpdates, ctx)
    ensures var t := Step(c, s, a);
            var retries := if a.reply.Unregistered? then s.retries else BumpAll(s.retries, a.retried);
            && t.state.ctx == ctx && t.state.books == books && t.state.signatures == s.signatures
            && t.state.retries == retries
            && Written(c, t.state.saved, node.id, a.time, s.graph, books, retries, ctx)
            && SameRun(s, t.state) && GatesChecked(s.graph, books.outcomes, t)
  {
    hide Recorded, Written, Updated, CheckGates, GatesChecked, Record, ApplyUpdates;
    assert s.(cancelled := false) == s;
    var h := Handled(c, s, a);
    var t := match a.reply
             case Unregistered => s
             case Raised(_) => h
             case Replied(o) => h.(ctx := ApplyUpdates(c, h.ctx, o.contextUpdates));
    if a.reply.Replied? { UpdatesApplied(c, a.ctx, a.reply.outcome.contextUpdates); }
    ctx, books := t.ctx, Record(c, t.books, node, SUCCESS);
    RecordRecords(c, t.books, node, SUCCESS);
    SaveWrites(c, t.(books := books), node.id, a.time);
    GatesAreChecked(Save(c, t.(books := books), node.id, a.time));
  }

  /** A cancelled turn ends the run and changes nothing else; one that stands nowhere only
      checks the gates. */
  lemma NothingRuns(c: Config, s: State, a: Answer)
    ensures s.cancelled || a.cancel ==> Step(c, s, a) == Stop(s.(cancelled := true), Cancelled)
    ensures !s.cancelled && !a.cancel && s.current.None? ==> GatesChecked(s.graph, s.books.outcomes, Step(c, s, a))
  {
    hide AtNode, AtExit, CheckGates, GatesChecked;
    GatesAreChecked(s.(cancelled := false));
  }

  // ---- how a run starts ----------------------------------------------------------------------------

  ghost predicate FirstWith(nodes: seq<Node>, t: NodeType, n: Node)
  {
    exists k :: 0 <= k < |nodes| && nodes[k] == n && n.nodeType == t
                && forall i :: 0 <= i < k ==> nodes[i].nodeType != t
  }

  lemma {:induction false} FirstIs(nodes: seq<Node>, t: NodeType)
    ensures var r := FirstOfType(nodes, t);
            && (r.Some? ==> FirstWith(nodes, t, r.value))
            && (r.Some? <==> exists n :: n in nodes && n.nodeType == t)
  {
    ExitFound(nodes, t);
    if nodes != [] && nodes[0].nodeType != t {
      FirstIs(nodes[1..], t);
      var r := FirstOfType(nodes, t);
      if r.Some? {
        var k :| 0 <= k < |nodes| - 1 && nodes[1..][k] == r.value
                 && forall i :: 0 <= i < k ==> nodes[1..][i].nodeType != t;
        assert forall i :: 0 < i < k + 1 ==> nodes[i] == nodes[1..][i - 1];
        assert nodes[k + 1] == r.value;
      }
    } else if nodes != [] {
      assert nodes[0] == nodes[0];
    }
  }

  /** The limit the graph sets, if it is a positive number, and otherwise the old one. */
  ghost predicate LimitedTo(g: Graph, previous: int, limit: int)
  {
    var key := "loop_restart_signature_limit";
    if key in g.attrs && exists n :: n > 0 && Numeral(g.attrs[key], n) then Numeral(g.attrs[key], limit)
    else limit == previous
  }

  lemma LimitSet(g: Graph, previous: int)
    ensures LimitedTo(g, previous, CycleLimit(g, previous))
  {
    hide Numeral, ParseInt;
    var key := "loop_restart_signature_limit";
    if key in g.attrs {
      forall n ensures ParseInt(g.attrs[key]) == Some(n) <==> Numeral(g.attrs[key], n) {
        ParseIntExactly(g.attrs[key], n);
      }
    }
  }

  /** A fresh run stands on the first start node, ends at the first exit, and remembers of
      earlier runs only hashes, retry counters and the limit. */
  lemma LaunchStands(c: Config, m: Memory, g: Graph, ctx: Context)
    ensures var s := Launch(c, m, g, ctx);
            && (s.Some? <==> (exists n :: n in g.nodes && n.nodeType == START)
                             && exists n :: n in g.nodes && n.nodeType == EXIT)
            && (s.Some? ==>
                  && s.value.current.Some? && FirstWith(g.nodes, START, s.value.current.value)
                  && FirstWith(g.nodes, EXIT, s.value.exitNode) && s.value.graph == g && !s.value.cancelled
                  && (if c.graphFile == "" then s.value.ctx == ctx
                      else Updated(c, ctx, map["needle.graph_path" := c.graphFile], s.value.ctx))
                  && s.value.books == Books([], map[], m.hashes) && s.value.signatures == map[]
                  && s.value.retries == m.retries && s.value.saved == None
                  && LimitedTo(g, m.cycleLimit, s.value.cycleLimit))
  {
    hide FirstOfType, CycleLimit, LimitedTo, FirstWith;
    FirstIs(g.nodes, START);
    FirstIs(g.nodes, EXIT);
    LimitSet(g, m.cycleLimit);
  }

  /** The checkpoint names a missing node, or, where hashes are checked strictly and the
      graph has changed, a completed node that was edited. */
  ghost predicate Refuses(c: Config, g: Graph, cp: Checkpoint)
  {
    var strict := c.strict || ("strict_hash_check" in g.attrs
                               && (g.attrs["strict_hash_check"] == "true" || g.attrs["strict_hash_check"] == "1"));
    || (exists id :: (id == cp.currentNode || id in cp.completedNodes) && FindNode(g, id).None?)
    || (strict && cp.graphHash != "" && cp.graphHash != c.graphHash(g) && exists id :: Edited(c, g, cp, id))
  }

  predicate Edited(c: Config, g: Graph, cp: Checkpoint, id: string)
  {
    && id in cp.completedNodes && id in cp.completedNodeHashes && FindNode(g, id).Some?
    && cp.completedNodeHashes[id] != c.nodeHash(FindNode(g, id).value)
  }

  lemma RefusesBlocked(c: Config, g: Graph, cp: Checkpoint)
    ensures Blocked(c, g, cp) <==> Refuses(c, g, cp)
    ensures !Refuses(c, g, cp) ==> FindNode(g, cp.currentNode).Some?
  {
    hide FindNode, Ids;
    forall id ensures FindNode(g, id).None? <==> id !in Ids(g) {}
    if id :| id in cp.completedNodes && id !in Ids(g) { assert FindNode(g, id).None?; }
    forall id | id in cp.completedNodes && id in cp.completedNodeHashes && FindNode(g, id).Some?
                && c.nodeHash(FindNode(g, id).value) != cp.completedNodeHashes[id]
      ensures Edited(c, g, cp, id)
    {
    }
  }

  /** A resumed run has what the checkpoint holds, every completed node a success, and no
      counts; it stands on the checkpoint's node or, if that has completed, where a plain
      success with the selected label leads. */
  lemma ResumeStands(c: Config, m: Memory, g: Graph, cp: Checkpoint)
    ensures var r := Resume(c, m, g, cp);
            && (r.None? <==> Refuses(c, g, cp) || forall n :: n in g.nodes ==> n.nodeType != EXIT)
            && (r.Some? ==> ResumedFrom(c, m, g, cp, r.value))
  {
    hide Skipped, FirstOfType, CycleLimit, FirstWith, ResumedFrom, Restore, Edited;
    FirstIs(g.nodes, EXIT);
    RefusesBlocked(c, g, cp);
    var current, exit := FindNode(g, cp.currentNode), FirstOfType(g.nodes, EXIT);
    if !Blocked(c, g, cp) && exit.Some? {
      SkippedStands(c, m, g, cp, current.value, exit.value);
    }
  }

  ghost predicate ResumedFrom(c: Config, m: Memory, g: Graph, cp: Checkpoint, s: State)
  {
    var path := if c.graphFile != "" then c.graphFile else cp.graphFile;
    var plain := Outcome(SUCCESS, Get(s.ctx, "human.gate.selected"), [], map[], "");
    var node := FindNode(g, cp.currentNode);
    && s.graph == g && FirstWith(g.nodes, EXIT, s.exitNode) && !s.cancelled && s.saved == None
    && (if path == "" then s.ctx == cp.context else Updated(c, cp.context, map["needle.graph_path" := path], s.ctx))
    && s.books.completed == cp.completedNodes && s.books.hashes == cp.completedNodeHashes
    && (forall id :: id in s.books.outcomes <==> id in cp.completedNodes)
    && (forall id :: id in s.books.outcomes ==> s.books.outcomes[id] == SUCCESS)
    && s.signatures == map[] && s.retries == map[] && LimitedTo(g, m.cycleLimit, s.cycleLimit)
    && node.Some?
    && if cp.currentNode in cp.completedNodes && !NoneLeft(c, g, node.value, plain, s.ctx) then
         exists e :: Picks(c, g, node.value, plain, s.ctx, e) && s.current == FindNode(g, e.to)
       else s.current == node
  }

  lemma SkippedStands(c: Config, m: Memory, g: Graph, cp: Checkpoint, node: Node, exit: Node)
    requires FindNode(g, cp.currentNode) == Some(node) && FirstWith(g.nodes, EXIT, exit)
    ensures ResumedFrom(c, m, g, cp, Skipped(c, Restore(c, m, g, node, exit, cp), node))
  {
    hide NextEdge, NoneLeft, Picks, CycleLimit, LimitedTo, FirstWith, FindNode;
    LimitSet(g, m.cycleLimit);
    var r := Restore(c, m, g, node, exit, cp);
    FindsById(g, cp.currentNode);
    NextIsPicked(c, r, node, Outcome(SUCCESS, Get(r.ctx, "human.gate.selected"), [], map[], ""));
  }

  lemma FindsById(g: Graph, id: string)
    ensures FindNode(g, id).Some? ==> FindNode(g, id).value.id == id
  {
  }
}
