/** Cycle detection: how many failures a run can go through. */
module EngineLimits {
  import opened Text
  import opened Graphs
  import opened Outcomes
  import opened EdgeSelection
  import opened Checkpoints
  import opened Engine
  import opened EngineRuns

  /** This turn ends in a stage failure handled by the main loop. */
  ghost predicate Fails(s: State, a: Answer)
  {
    && !s.cancelled && !a.cancel && s.current.Some? && s.current.value.id != s.exitNode.id
    && a.reply.Replied? && a.reply.outcome.status == FAILURE
  }

  ghost function FailureOf(s: State, a: Answer): string
    requires Fails(s, a)
  {
    Signature(s.current.value, a.reply.outcome)
  }

  /** Every failure of a run, by signature. */
  ghost function FailureLog(c: Config, s: State, answers: seq<Answer>): multiset<string>
  {
    if answers == [] then multiset{}
    else
      var init, last := answers[..|answers| - 1], answers[|answers| - 1];
      var before := Run(c, s, init);
      FailureLog(c, s, init)
      + if before.ending.None? && Fails(before.state, last) then multiset{FailureOf(before.state, last)} else multiset{}
  }

  // ---- what a turn does to the counters -----------------------------------------------

  /** The failure and retry counters become these; the limit stays, and so does the graph
      unless troubleshooting. */
  ghost predicate CountsTo(c: Config, s: State, signatures: map<string, int>, retries: map<string, int>, t: State)
  {
    && t.signatures == signatures && t.retries == retries
    && t.cycleLimit == s.cycleLimit && (!c.troubleshoot ==> t.graph == s.graph)
  }

  ghost predicate Quiet(c: Config, s: State, t: State)
  {
    CountsTo(c, s, s.signatures, s.retries, t)
  }

  /** The retry counters after the handler ran at `node`. */
  function RetriesAt(s: State, node: Node, a: Answer): map<string, int>
  {
    if a.reply.Unregistered? then s.retries
    else
      var m := BumpAll(s.retries, a.retried);
      if a.reply.Replied? && a.reply.outcome.status == RETRY && node.id != s.exitNode.id
        && Count(m, node.id) < MaxRetries(node.attrs)
      then Bump(m, node.id) else m
  }

  ghost function RetriesAfter(s: State, a: Answer): map<string, int>
  {
    if s.cancelled || a.cancel || s.current.None? then s.retries else RetriesAt(s, s.current.value, a)
  }

  lemma AdvanceQuiet(c: Config, s: State, node: Node, o: Outcome)
    ensures Quiet(c, s, Advance(c, s, node, o).state)
  {
    hide NextEdge, Restarted;
  }

  lemma RecoverQuiet(c: Config, s: State, node: Node, o: Outcome, a: Answer)
    ensures Quiet(c, s, Recover(c, s, node, o, a).state)
  {
    hide NextEdge, RetryTargets, AnyConditional;
  }

  lemma DiagnoseQuiet(c: Config, s: State, node: Node, o: Outcome, a: Answer)
    requires c.troubleshoot
    ensures Quiet(c, s, Diagnose(c, s, node, o, a).state)
  {
    hide NextEdge, Recover;
    RecoverQuiet(c, s, node, o, a);
  }

  lemma AtDoneQuiet(c: Config, s: State, node: Node, o: Outcome, a: Answer)
    ensures Quiet(c, s, AtDone(c, s, node, o, a).state)
  {
    hide Advance, Record, StatusName, ApplyUpdates;
    var ctx := Put(c, ApplyUpdates(c, s.ctx, o.contextUpdates), "needle.last_outcome.status", StatusName(o.status));
    var t := Save(c, s.(ctx := ctx, books := Record(c, s.books, node, o.status)), node.id, a.time);
    AdvanceQuiet(c, t, node, o);
    AdvanceQuiet(c, t.(ctx := Put(c, t.ctx, "parallel.fan_in_target", "")), node, o);
  }

  lemma CheckGatesQuiet(c: Config, s: State)
    ensures Quiet(c, s, CheckGates(s).state)
  {
    hide FirstUnsatisfied, RetryTargets;
  }

  lemma SaveQuiet(c: Config, s: State, node: string, time: string)
    ensures Quiet(c, s, Save(c, s, node, time))
  {
  }

  lemma HandledQuiet(c: Config, s: State, a: Answer)
    ensures CountsTo(c, s, s.signatures, BumpAll(s.retries, a.retried), Handled(c, s, a))
  {
  }

  lemma AtExitQuiet(c: Config, s: State, node: Node, a: Answer)
    requires node.id == s.exitNode.id
    ensures CountsTo(c, s, s.signatures, RetriesAt(s, node, a), AtExit(c, s, node, a).state)
  {
    hide Save, CheckGates, Record, Handled, ApplyUpdates;
    var h := Handled(c, s, a);
    var t := match a.reply
             case Unregistered => s
             case Raised(_) => h
             case Replied(o) => h.(ctx := ApplyUpdates(c, h.ctx, o.contextUpdates));
    var r := t.(books := Record(c, t.books, node, SUCCESS));
    HandledQuiet(c, s, a);
    SaveQuiet(c, r, node.id, a.time);
    CheckGatesQuiet(c, Save(c, r, node.id, a.time));
  }

  lemma AtNodeCounts(c: Config, s: State, node: Node, a: Answer)
    requires node.id != s.exitNode.id
    ensures var failed := a.reply.Replied? && a.reply.outcome.status == FAILURE;
            CountsTo(c, s, if failed then Bump(s.signatures, Signature(node, a.reply.outcome)) else s.signatures,
                     RetriesAt(s, node, a), AtNode(c, s, node, a).state)
  {
    hide AtFailure, AtDone, Handled, MaxRetries, Signature, IsTrue;
    var t := Handled(c, s, a);
    HandledQuiet(c, s, a);
    match a.reply
    case Unregistered =>
    case Raised(_) =>
    case Replied(o) =>
      match o.status
      case FAILURE => AtFailureCounts(c, t, node, o, a);
      case RETRY => AtDoneQuiet(c, t, node,
                                o.(status := PARTIAL_SUCCESS, output := "retries exhausted, partial accepted"), a);
      case _ => AtDoneQuiet(c, t, node, o, a);
  }

  /** A failing turn counts its signature once; no other turn touches the counters, so
      neither a loop restart nor a gate re-entry forgets a failure. */
  lemma StepCounts(c: Config, s: State, a: Answer)
    ensures var t := Step(c, s, a).state;
            var signatures := if Fails(s, a) then Bump(s.signatures, FailureOf(s, a)) else s.signatures;
            CountsTo(c, s, signatures, RetriesAfter(s, a), t)
  {
    hide AtNode, AtExit, Signature;
    var s1 := s.(cancelled := s.cancelled || a.cancel);
    if s.current.Some? {
      if s.current.value.id == s.exitNode.id {
        AtExitQuiet(c, s1, s.current.value, a);
      } else {
        AtNodeCounts(c, s1, s.current.value, a);
      }
    }
  }

  lemma AtFailureCounts(c: Config, s: State, node: Node, o: Outcome, a: Answer)
    ensures CountsTo(c, s, Bump(s.signatures, Signature(node, o)), s.retries, AtFailure(c, s, node, o, a).state)
  {
    hide Recover, Diagnose;
    var t := s.(ctx := Put(c, ApplyUpdates(c, s.ctx, o.contextUpdates), "needle.last_outcome.status", "FAILURE"),
                signatures := Bump(s.signatures, Signature(node, o)));
    RecoverQuiet(c, t, node, o, a);
    if c.troubleshoot { DiagnoseQuiet(c, t.(ctx := a.diagnosisCtx), node, o, a); }
  }

  /** The counters are exactly the failures so far. */
  lemma {:induction false} CountersAreTheLog(c: Config, s: State, answers: seq<Answer>)
    ensures var t := Run(c, s, answers).state;
            && t.cycleLimit == s.cycleLimit
            && (!c.troubleshoot ==> t.graph == s.graph)
            && forall sig :: Count(t.signatures, sig) == Count(s.signatures, sig) + FailureLog(c, s, answers)[sig]
  {
    hide Step;
    if answers != [] {
      CountersAreTheLog(c, s, answers[..|answers| - 1]);
      StepCounts(c, Run(c, s, answers[..|answers| - 1]).state, answers[|answers| - 1]);
    }
  }

  // ---- the bound -----------------------------------------------------------------------

  lemma {:induction false} MultisetBound(m: multiset<string>, s: set<string>, each: nat)
    requires forall x :: x in m ==> x in s
    requires forall x :: m[x] <= each
    ensures |m| <= |s| * each
  {
    if s == {} {
      assert m == multiset{};
    } else {
      var x :| x in s;
      var rest := m[x := 0];
      MultisetBound(rest, s - {x}, each);
      assert |m| == |rest| + m[x];
      assert |s| * each == |s - {x}| * each + each by { assert |s| == |s - {x}| + 1; Distribute(|s - {x}|, each); }
    }
  }

  lemma Distribute(n: nat, k: nat)
    ensures (n + 1) * k == n * k + k
  {
  }

  /** The error prefixes each node can show. */
  type Errors = string -> set<string>

  /** All signatures that nodes of `ids` can have with their error prefixes. */
  lemma {:induction false} SignatureSpace(ids: set<string>, errors: Errors, each: nat) returns (space: set<string>)
    requires forall id :: id in ids ==> |errors(id)| <= each
    ensures |space| <= |ids| * each
    ensures forall id, e :: id in ids && e in errors(id) ==> id + "|" + e in space
  {
    if ids == {} {
      space := {};
    } else {
      var id :| id in ids;
      var rest := SignatureSpace(ids - {id}, errors, each);
      var own := set e | e in errors(id) :: id + "|" + e;
      OneIdPerError(id, errors(id));
      space := rest + own;
      assert |space| <= |rest| + |own| by { assert |rest + own| == |rest| + |own| - |rest * own|; }
      Distribute(|ids - {id}|, each);
      assert |ids| == |ids - {id}| + 1;
    }
  }

  lemma {:induction false} OneIdPerError(id: string, errors: set<string>)
    ensures |set e | e in errors :: id + "|" + e| <= |errors|
  {
    if errors != {} {
      var x :| x in errors;
      OneIdPerError(id, errors - {x});
      assert (set e | e in errors :: id + "|" + e) == (set e | e in errors - {x} :: id + "|" + e) + {id + "|" + x};
    }
  }

  /** Whenever a node fails during the run, its error prefix is one of its own. */
  ghost predicate ErrorsWithin(c: Config, s: State, answers: seq<Answer>, errors: Errors)
  {
    answers == [] ||
    var init, last := answers[..|answers| - 1], answers[|answers| - 1];
    var before := Run(c, s, init);
    && ErrorsWithin(c, s, init, errors)
    && (before.ending.None? && Fails(before.state, last) ==>
          Prefix100(last.reply.outcome.output) in errors(before.state.current.value.id))
  }

  lemma InIds(nodes: seq<Node>, n: Node)
    requires n in nodes
    ensures n.id in IdsOf(nodes)
  {
    if nodes[0] != n { InIds(nodes[1..], n); }
  }

  lemma {:induction false} LogWithin(c: Config, s: State, answers: seq<Answer>, space: set<string>, errors: Errors)
    requires !c.troubleshoot && Fit(s) && Placed(s) && ErrorsWithin(c, s, answers, errors)
    requires forall id, e :: id in Ids(s.graph) && e in errors(id) ==> id + "|" + e in space
    ensures forall sig :: sig in FailureLog(c, s, answers) ==> sig in space
  {
    hide Step;
    if answers != [] {
      var init, last := answers[..|answers| - 1], answers[|answers| - 1];
      LogWithin(c, s, init, space, errors);
      var before := Run(c, s, init);
      FitRoutes(s);
      EveryRunIsGood(c, s, init);
      CountersAreTheLog(c, s, init);
      if before.ending.None? && Fails(before.state, last) {
        InIds(s.graph.nodes, before.state.current.value);
      }
    }
  }

  lemma GoingFailuresAreBounded(c: Config, s: State, answers: seq<Answer>, errors: Errors, each: nat)
    requires !c.troubleshoot && Fit(s) && Placed(s) && ErrorsWithin(c, s, answers, errors)
    requires forall id :: id in Ids(s.graph) ==> |errors(id)| <= each
    requires s.signatures == map[] && Run(c, s, answers).ending.None?
    ensures |FailureLog(c, s, answers)| <= |Ids(s.graph)| * each * (s.cycleLimit - 1)
  {
    hide FailureLog, Run, ErrorsWithin;
    var space := SignatureSpace(Ids(s.graph), errors, each);
    LogWithin(c, s, answers, space, errors);
    FitRoutes(s);
    EveryRunIsGood(c, s, answers);
    CountersAreTheLog(c, s, answers);
    MultisetBound(FailureLog(c, s, answers), space, s.cycleLimit - 1);
    MulMonotone(|space|, |Ids(s.graph)| * each, s.cycleLimit - 1);
  }

  /** With troubleshooting off, a run on N nodes of which none shows more than K distinct
      error prefixes goes through at most N*K*(limit-1)+1 failures, and at most
      N*K*(limit-1) while it is still going. */
  lemma {:induction false} FailuresAreBounded(c: Config, s: State, answers: seq<Answer>, errors: Errors, each: nat)
    requires !c.troubleshoot && Fit(s) && Placed(s) && ErrorsWithin(c, s, answers, errors)
    requires forall id :: id in Ids(s.graph) ==> |errors(id)| <= each
    requires s.signatures == map[]
    ensures var most := |Ids(s.graph)| * each * (s.cycleLimit - 1);
            |FailureLog(c, s, answers)| <= if Run(c, s, answers).ending.None? then most else most + 1
  {
    hide Step, Fails;
    if Run(c, s, answers).ending.None? {
      GoingFailuresAreBounded(c, s, answers, errors, each);
    } else {
      FailuresAreBounded(c, s, answers[..|answers| - 1], errors, each);
    }
  }

  // ---- retries ---------------------------------------------------------------------------

  /** No node has been retried more often than its policy allows. */
  ghost predicate RetriesWithin(g: Graph, retries: map<string, int>)
  {
    forall n :: n in g.nodes ==> Count(retries, n.id) <= 0 || Count(retries, n.id) <= MaxRetries(n.attrs)
  }

  /** Subgraphs that share the engine's counters retry a node of the graph only while its
      policy allows, as the main loop does. */
  ghost predicate Guarded(g: Graph, retries: map<string, int>, retried: seq<string>)
  {
    retried == [] ||
    var init, id := retried[..|retried| - 1], retried[|retried| - 1];
    && Guarded(g, retries, init)
    && exists n :: n in g.nodes && n.id == id && Count(BumpAll(retries, init), id) < MaxRetries(n.attrs)
  }

  /** All subgraph retries of the run are guarded. */
  ghost predicate RetriesGuarded(c: Config, s: State, answers: seq<Answer>)
  {
    answers == [] ||
    var init, last := answers[..|answers| - 1], answers[|answers| - 1];
    var before := Run(c, s, init).state;
    RetriesGuarded(c, s, init) && Guarded(before.graph, before.retries, last.retried)
  }

  lemma SameId(g: Graph, n: Node, m: Node)
    requires UniqueIds(g) && n in g.nodes && m in g.nodes && n.id == m.id
    ensures n == m
  {
    var i, j :| 0 <= i < |g.nodes| && 0 <= j < |g.nodes| && g.nodes[i] == n && g.nodes[j] == m;
    assert i == j;
  }

  /** Counting one more retry of a node whose policy allows it. */
  lemma AllowedRetry(g: Graph, retries: map<string, int>, node: Node)
    requires UniqueIds(g) && node in g.nodes && RetriesWithin(g, retries)
             && Count(retries, node.id) < MaxRetries(node.attrs)
    ensures RetriesWithin(g, Bump(retries, node.id))
  {
    hide MaxRetries, UniqueIds;
    forall n | n in g.nodes && n.id == node.id ensures n == node { SameId(g, n, node); }
  }

  lemma {:induction false} GuardedStaysWithin(g: Graph, retries: map<string, int>, retried: seq<string>)
    requires UniqueIds(g) && RetriesWithin(g, retries) && Guarded(g, retries, retried)
    ensures RetriesWithin(g, BumpAll(retries, retried))
  {
    hide RetriesWithin, MaxRetries, UniqueIds, Bump, Count;
    if retried != [] {
      var init, id := retried[..|retried| - 1], retried[|retried| - 1];
      GuardedStaysWithin(g, retries, init);
      var n :| n in g.nodes && n.id == id && Count(BumpAll(retries, init), id) < MaxRetries(n.attrs);
      AllowedRetry(g, BumpAll(retries, init), n);
    }
  }

  lemma OneRetry(s: State, node: Node, a: Answer)
    requires UniqueIds(s.graph) && node in s.graph.nodes && RetriesWithin(s.graph, s.retries)
    requires Guarded(s.graph, s.retries, a.retried)
    ensures RetriesWithin(s.graph, RetriesAt(s, node, a))
  {
    hide RetriesWithin, MaxRetries, UniqueIds, Bump, Guarded;
    GuardedStaysWithin(s.graph, s.retries, a.retried);
    var m := BumpAll(s.retries, a.retried);
    if Count(m, node.id) < MaxRetries(node.attrs) { AllowedRetry(s.graph, m, node); }
  }

  /** Over a whole run every node stays within its retry policy, across loop restarts and
      gate re-entries, and with the retries of subgraphs that share the counters. */
  lemma {:induction false} RetriesStayWithinPolicy(c: Config, s: State, answers: seq<Answer>)
    requires !c.troubleshoot && UniqueIds(s.graph) && Fit(s) && Placed(s)
    requires RetriesWithin(s.graph, s.retries) && RetriesGuarded(c, s, answers)
    ensures RetriesWithin(s.graph, Run(c, s, answers).state.retries)
  {
    hide Step, RetriesWithin, RetriesAt, UniqueIds, Guarded, Fit;
    if answers != [] {
      var init, last := answers[..|answers| - 1], answers[|answers| - 1];
      var before := Run(c, s, init);
      RetriesStayWithinPolicy(c, s, init);
      if before.ending.None? {
        FitRoutes(s);
        EveryRunIsGood(c, s, init);
        CountersAreTheLog(c, s, init);
        StepCounts(c, before.state, last);
        OneRetry(before.state, before.state.current.value, last);
      }
    }
  }

  lemma MulMonotone(a: nat, b: nat, k: nat)
    requires a <= b
    ensures a * k <= b * k
  {
  }
}
