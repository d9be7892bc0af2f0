/** What a branch does from its start to its result, as a chain of stages
    (PipelineEngine::execute_subgraph in src/engine/pipeline_engine.cpp), and what the join
    keeps of it (src/handlers/parallel_handler.cpp). */
module BranchRuns {
  import opened Text
  import opened Graphs
  import opened Outcomes
  import EdgeSelection
  import Separated
  import opened EdgeConditions
  import opened Engine
  import opened EngineTurns
  import opened ParallelBranches
  import opened ParallelHandling
  import opened ParallelThreads

  /** What a finished branch leaves. */
  datatype Finish = Finish(result: BranchResult, ctx: Context, published: seq<Completion>)

  /** The branch has come to its end, or to a missing node: it answers with the reply of
      the last stage, after running the end node itself if that is asked. */
  ghost predicate Ends(s: Setting, at: Option<Node>, ctx: Context, last: Outcome, f: Finish)
  {
    if at.Some? && s.inclusive then
      var node, w := at.value, s.worker(at.value, ctx);
      match w.reply
      case Unregistered => f == Finish(Err(NoHandler), ctx, [])
      case Raised(error) => f == Finish(Err(HandlerError(error)), w.ctx, w.records)
      case Replied(o) =>
        && f.result == Ok(o) && f.published == w.records + [Completion(node, o.status)]
        && if o.status == FAILURE then f.ctx == w.ctx else Updated(s.config, w.ctx, o.contextUpdates, f.ctx)
    else f == Finish(Ok(last), ctx, [])
  }

  /** From the node it stands on, a branch runs these stages one after another; a failure,
      an error or a dead end is the result. */
  ghost predicate Runs(s: Setting, at: Option<Node>, ctx: Context, retries: map<string, int>, last: Outcome,
                       stages: seq<Node>, f: Finish)
    decreases |stages|, 1
  {
    if stages == [] then (at.Some? ==> at.value.id == s.endId) && Ends(s, at, ctx, last, f)
    else
      var node, w := stages[0], s.worker(stages[0], ctx);
      && at == Some(node) && node.id != s.endId
      && match w.reply
         case Unregistered => |stages| == 1 && f == Finish(Err(NoHandler), ctx, [])
         case Raised(error) => |stages| == 1 && f == Finish(Err(HandlerError(error)), w.ctx, w.records)
         case Replied(o) =>
           if o.status == FAILURE then
             |stages| == 1 && f == Finish(Ok(o), w.ctx, w.records + [Completion(node, FAILURE)])
           else if o.status == RETRY then RunsAgain(s, w, retries, last, stages, f)
           else RunsOn(s, w, o, retries, stages, f)
  }

  /** A stage that asks for it is run again while it may. */
  ghost predicate RunsAgain(s: Setting, w: Work, retries: map<string, int>, last: Outcome, stages: seq<Node>, f: Finish)
    requires stages != []
    decreases |stages|, 0
  {
    var node := stages[0];
    exists limit ::
      && MayRetry(node.attrs, limit) && w.records <= f.published
      && if Count(retries, node.id) < limit then
           Runs(s, Some(node), w.ctx, Bump(retries, node.id), last, stages[1..], Rest(f, |w.records|))
         else
           |stages| == 1 && f.ctx == w.ctx && f.published == w.records && GivesUp(node, f.result)
  }

  /** A stage that succeeds hands its updates on and decides the edge taken. */
  ghost predicate RunsOn(s: Setting, w: Work, o: Outcome, retries: map<string, int>, stages: seq<Node>, f: Finish)
    requires stages != []
    decreases |stages|, 0
  {
    var node := stages[0];
    var own := w.records + [Completion(node, o.status)];
    && own <= f.published
    && exists after ::
         && Updated(s.config, w.ctx, o.contextUpdates, after)
         && if NoneLeft(s.config, s.graph, node, o, after) then
              |stages| == 1 && f == Finish(Err(EdgeSelectionFailed), after, own)
            else
              exists e :: Picks(s.config, s.graph, node, o, after, e)
                          && Runs(s, FindNode(s.graph, e.to), after, retries, o, stages[1..], Rest(f, |own|))
  }

  function Rest(f: Finish, n: nat): Finish
    requires n <= |f.published|
  {
    f.(published := f.published[n..])
  }

  predicate GivesUp(node: Node, r: BranchResult)
  {
    r.Ok? && r.value.status == FAILURE && r.value.contextUpdates == map[]
    && r.value.output == "retries exhausted for node: " + node.id
  }

  // ---- moves and stages -----------------------------------------------------------------------

  lemma {:induction false} AloneAdds(s: Setting, b: Branch, m: nat, n: nat)
    ensures Alone(s, Alone(s, b, m, false), n, false) == Alone(s, b, m + n, false)
  {
    hide Move;
    if n > 0 { AloneAdds(s, b, m, n - 1); }
  }

  /** What is left once everything pending is published. */
  function Flushed(b: Branch): Branch
  {
    b.(pending := [], published := b.published + b.pending)
  }

  lemma {:induction false} Flushing(s: Setting, b: Branch, k: nat)
    requires k <= |b.pending|
    ensures Alone(s, b, k, false) == b.(pending := b.pending[k..], published := b.published + b.pending[..k])
  {
    hide Visit, VisitEnd;
    if k == 0 {
      assert b.pending[..0] == [] && b.published + [] == b.published;
    } else {
      Flushing(s, b, k - 1);
      assert b.pending[k - 1..][0] == b.pending[k - 1] && b.pending[k - 1..][1..] == b.pending[k..];
      assert b.pending[..k] == b.pending[..k - 1] + [b.pending[k - 1]];
      assert b.published + b.pending[..k - 1] + [b.pending[k - 1]] == b.published + b.pending[..k];
    }
  }

  lemma FlushedFirst(s: Setting, b: Branch, moves: nat)
    requires Done(Alone(s, b, moves, false))
    ensures |b.pending| <= moves && Alone(s, b, moves, false) == Alone(s, Flushed(b), moves - |b.pending|, false)
    ensures b.result.Some? ==> Alone(s, b, moves, false) == Flushed(b)
  {
    hide Move;
    if moves < |b.pending| { Flushing(s, b, moves); }
    var n := |b.pending|;
    Flushing(s, b, n);
    assert b.pending[n..] == [] && b.pending[..n] == b.pending;
    AloneAdds(s, b, n, moves - n);
    if b.result.Some? { DoneForGood(s, Flushed(b), 0, moves - n, false); }
  }

  lemma OneMove(s: Setting, b: Branch, moves: nat)
    requires moves > 0
    ensures Alone(s, b, moves, false) == Alone(s, Move(s, b, false), moves - 1, false)
  {
    hide Move;
    assert Alone(s, b, 1, false) == Move(s, Alone(s, b, 0, false), false);
    AloneAdds(s, b, 1, moves - 1);
  }

  ghost predicate Waiting(b: Branch)
  {
    b.pending == [] && b.result.None?
  }

  ghost predicate LeavesAs(d: Branch, b: Branch, f: Finish)
  {
    d.result == Some(f.result) && d.ctx == f.ctx && d.published == b.published + f.published
  }

  lemma NotDoneYet(s: Setting, b: Branch, moves: nat)
    requires Waiting(b) && Done(Alone(s, b, moves, false))
    ensures moves > 0
  {
  }

  lemma MoveVisits(s: Setting, b: Branch, node: Node)
    requires Waiting(b) && b.current == Some(node) && node.id != s.endId
    ensures Move(s, b, false) == Visit(s, b, node)
  {
  }

  function Preceded(published: seq<Completion>, f: Finish): Finish
  {
    f.(published := published + f.published)
  }

  lemma RestOfPreceded(published: seq<Completion>, f: Finish)
    ensures published <= Preceded(published, f).published && Rest(Preceded(published, f), |published|) == f
  {
  }

  lemma Regrouped(a: seq<Completion>, b: seq<Completion>, c: seq<Completion>)
    ensures a + (b + c) == (a + b) + c
  {
  }

  /** A branch that finishes has run a chain of stages, and its result is that chain's. */
  lemma {:induction false} FinishedRuns(s: Setting, b: Branch, moves: nat) returns (stages: seq<Node>, f: Finish)
    requires Waiting(b) && Done(Alone(s, b, moves, false))
    ensures Runs(s, b.current, b.ctx, b.retries, b.last, stages, f)
    ensures LeavesAs(Alone(s, b, moves, false), b, f)
    decreases moves
  {
    hide Runs, Visit, Move, Alone, Done;
    NotDoneYet(s, b, moves);
    OneMove(s, b, moves);
    var b1 := Move(s, b, false);
    FlushedFirst(s, b1, moves - 1);
    if b.current.Some? && b.current.value.id != s.endId {
      var node := b.current.value;
      MoveVisits(s, b, node);
      if b1.result.Some? {
        stages, f := [node], Finish(b1.result.value, b1.ctx, b1.pending);
        LastStage(s, b, node);
      } else {
        VisitGoesOn(s, b, node);
        var rest;
        stages, rest := FinishedRuns(s, Flushed(b1), moves - 1 - |b1.pending|);
        f := Preceded(b1.pending, rest);
        RestOfPreceded(b1.pending, rest);
        Regrouped(b.published, b1.pending, rest.published);
        OneMoreStage(s, b, node, stages, f);
        stages := [node] + stages;
      }
    } else {
      NoStage(s, b);
      stages, f := [], Finish(b1.result.value, b1.ctx, b1.pending);
    }
  }

  lemma NoStage(s: Setting, b: Branch)
    requires Waiting(b) && (b.current.Some? ==> b.current.value.id == s.endId)
    ensures var b1 := Move(s, b, false);
            && b1.result.Some? && b1.published == b.published
            && Runs(s, b.current, b.ctx, b.retries, b.last, [], Finish(b1.result.value, b1.ctx, b1.pending))
  {
    hide ApplyUpdates, Visit;
    if b.current.Some? {
      var w := s.worker(b.current.value, b.ctx);
      if w.reply.Replied? { UpdatesApplied(s.config, w.ctx, w.reply.outcome.contextUpdates); }
    }
  }

  lemma VisitGoesOn(s: Setting, b: Branch, node: Node)
    requires Waiting(b) && Visit(s, b, node).result.None?
    ensures Waiting(Flushed(Visit(s, b, node))) && Visit(s, b, node).published == b.published
  {
    hide EdgeSelection.Choice, ApplyUpdates, MaxRetries;
  }

  /** A stage at which the branch ends. */
  lemma LastStage(s: Setting, b: Branch, node: Node)
    requires Waiting(b) && b.current == Some(node) && node.id != s.endId && Visit(s, b, node).result.Some?
    ensures var b1 := Visit(s, b, node);
            && b1.published == b.published
            && Runs(s, b.current, b.ctx, b.retries, b.last, [node], Finish(b1.result.value, b1.ctx, b1.pending))
  {
    hide ApplyUpdates, MaxRetries, RunsAgain, RunsOn, EdgeSelection.Choice;
    var w := s.worker(node, b.ctx);
    if w.reply.Replied? {
      if w.reply.outcome.status == RETRY { LastRetry(s, b, node, w.reply.outcome); }
      else if w.reply.outcome.status != FAILURE { DeadEnd(s, b, node, w.reply.outcome); }
    }
  }

  lemma LastRetry(s: Setting, b: Branch, node: Node, o: Outcome)
    requires Waiting(b) && Visit(s, b, node).result.Some?
    requires var w := s.worker(node, b.ctx); w.reply == Replied(o) && o.status == RETRY
    ensures var b1 := Visit(s, b, node);
            RunsAgain(s, s.worker(node, b.ctx), b.retries, b.last, [node], Finish(b1.result.value, b1.ctx, b1.pending))
  {
    hide MaxRetries, MayRetry, Runs;
    RetryLimit(node.attrs);
    assert [node][0] == node && MayRetry([node][0].attrs, MaxRetries(node.attrs));
    assert s.worker(node, b.ctx).records <= Visit(s, b, node).pending;
  }

  lemma DeadEnd(s: Setting, b: Branch, node: Node, o: Outcome)
    requires Waiting(b) && Visit(s, b, node).result.Some?
    requires var w := s.worker(node, b.ctx); w.reply == Replied(o) && o.status != RETRY && o.status != FAILURE
    ensures var b1 := Visit(s, b, node);
            RunsOn(s, s.worker(node, b.ctx), o, b.retries, [node], Finish(b1.result.value, b1.ctx, b1.pending))
  {
    hide ApplyUpdates, Runs, NoneLeft, Picks, Updated, EdgeSelection.Choice;
    StageDecides(s, node, o, s.worker(node, b.ctx).ctx);
  }

  /** Where a stage that is done leads. */
  lemma StageDecides(s: Setting, node: Node, o: Outcome, ctx: Context)
    ensures var after := ApplyUpdates(s.config, ctx, o.contextUpdates);
            var next := EdgeSelection.Choice(s.config.read, Outgoing(s.graph.edges, node.id), o, after);
            && Updated(s.config, ctx, o.contextUpdates, after)
            && (next.None? <==> NoneLeft(s.config, s.graph, node, o, after))
            && (next.Some? ==> Picks(s.config, s.graph, node, o, after, next.value))
  {
    hide ApplyUpdates, Left, Chosen, EdgeSelection.Choice;
    UpdatesApplied(s.config, ctx, o.contextUpdates);
    ChoiceIsTheChosen(s.config.read, Outgoing(s.graph.edges, node.id), o,
                      ApplyUpdates(s.config, ctx, o.contextUpdates));
  }

  /** A stage after which the branch goes on. */
  lemma OneMoreStage(s: Setting, b: Branch, node: Node, stages: seq<Node>, f: Finish)
    requires Waiting(b) && b.current == Some(node) && node.id != s.endId && Visit(s, b, node).result.None?
    requires var b1 := Visit(s, b, node);
             && b1.pending <= f.published
             && Runs(s, b1.current, b1.ctx, b1.retries, b1.last, stages, Rest(f, |b1.pending|))
    ensures Runs(s, b.current, b.ctx, b.retries, b.last, [node] + stages, f)
  {
    hide ApplyUpdates, MaxRetries, RunsAgain, RunsOn, EdgeSelection.Choice, Ends;
    var w := s.worker(node, b.ctx);
    assert w.reply.Replied?;
    if w.reply.outcome.status == RETRY {
      RetryGoesOn(s, b, node, w.reply.outcome, stages, f);
    } else {
      StageGoesOn(s, b, node, w.reply.outcome, stages, f);
    }
  }

  lemma RetryGoesOn(s: Setting, b: Branch, node: Node, o: Outcome, stages: seq<Node>, f: Finish)
    requires Waiting(b) && b.current == Some(node) && Visit(s, b, node).result.None?
    requires var w := s.worker(node, b.ctx); w.reply == Replied(o) && o.status == RETRY
    requires var b1 := Visit(s, b, node);
             && b1.pending <= f.published
             && Runs(s, b1.current, b1.ctx, b1.retries, b1.last, stages, Rest(f, |b1.pending|))
    ensures RunsAgain(s, s.worker(node, b.ctx), b.retries, b.last, [node] + stages, f)
  {
    hide MaxRetries, MayRetry, Runs;
    RetryLimit(node.attrs);
    assert ([node] + stages)[1..] == stages && ([node] + stages)[0] == node;
    assert MayRetry(([node] + stages)[0].attrs, MaxRetries(node.attrs));
  }

  lemma StageGoesOn(s: Setting, b: Branch, node: Node, o: Outcome, stages: seq<Node>, f: Finish)
    requires Waiting(b) && b.current == Some(node) && Visit(s, b, node).result.None?
    requires var w := s.worker(node, b.ctx); w.reply == Replied(o) && o.status != RETRY && o.status != FAILURE
    requires var b1 := Visit(s, b, node);
             && b1.pending <= f.published
             && Runs(s, b1.current, b1.ctx, b1.retries, b1.last, stages, Rest(f, |b1.pending|))
    ensures RunsOn(s, s.worker(node, b.ctx), o, b.retries, [node] + stages, f)
  {
    hide ApplyUpdates, Runs, NoneLeft, Picks, Updated, EdgeSelection.Choice;
    StageDecides(s, node, o, s.worker(node, b.ctx).ctx);
    assert ([node] + stages)[1..] == stages;
  }

  /** A branch that ran at least one stage and answers without an error answers what the
      handler of its last stage replied, unless it gave that stage up. */
  lemma {:induction false} LastStageAnswers(s: Setting, at: Option<Node>, ctx: Context, retries: map<string, int>,
                                            last: Outcome, stages: seq<Node>, f: Finish)
    returns (seen: Context)
    requires Runs(s, at, ctx, retries, last, stages, f) && !s.inclusive && f.result.Ok? && stages != []
    ensures var stage := stages[|stages| - 1]; var reply := s.worker(stage, seen).reply;
            && reply.Replied?
            && (f.result == Ok(reply.outcome) || (reply.outcome.status == RETRY && GivesUp(stage, f.result)))
    decreases |stages|
  {
    hide MayRetry, NoneLeft, Picks, Updated;
    var node, w := stages[0], s.worker(stages[0], ctx);
    var o := w.reply.outcome;
    seen := ctx;
    assert |stages| > 1 ==> stages[1..][|stages| - 2] == stages[|stages| - 1];
    if |stages| == 1 {
      OnlyStage(s, w, o, retries, last, stages, f);
    } else if o.status == RETRY {
      assert RunsAgain(s, w, retries, last, stages, f) && o.status != FAILURE;
      seen := LastStageAnswers(s, at, w.ctx, Bump(retries, node.id), last, stages[1..], Rest(f, |w.records|));
    } else {
      var own := w.records + [Completion(node, o.status)];
      var after :| Updated(s.config, w.ctx, o.contextUpdates, after) && !NoneLeft(s.config, s.graph, node, o, after)
                   && exists e :: Picks(s.config, s.graph, node, o, after, e)
                                  && Runs(s, FindNode(s.graph, e.to), after, retries, o, stages[1..], Rest(f, |own|));
      var e :| Picks(s.config, s.graph, node, o, after, e)
               && Runs(s, FindNode(s.graph, e.to), after, retries, o, stages[1..], Rest(f, |own|));
      seen := LastStageAnswers(s, FindNode(s.graph, e.to), after, retries, o, stages[1..], Rest(f, |own|));
    }
  }

  lemma OnlyStage(s: Setting, w: Work, o: Outcome, retries: map<string, int>, last: Outcome, stages: seq<Node>,
                  f: Finish)
    requires |stages| == 1 && !s.inclusive && f.result.Ok? && w.reply == Replied(o)
    requires if o.status == FAILURE then f.result == Ok(o)
             else if o.status == RETRY then RunsAgain(s, w, retries, last, stages, f) && stages[0].id != s.endId
             else RunsOn(s, w, o, retries, stages, f)
    ensures f.result == Ok(o) || (o.status == RETRY && GivesUp(stages[0], f.result))
  {
    hide MayRetry, NoneLeft, Picks, Updated;
    assert stages[1..] == [];
  }

  // ---- the branches of a parallel stage ------------------------------------------------------------

  /** What a launched branch answers once all have finished is the result of its own chain
      of stages from its target, in the context it was given. */
  lemma BranchAnswers(s: Setting, node: Node, ctx: Context, setups: seq<Setup>, books: Books, schedule: seq<Event>,
                      i: nat)
    returns (stages: seq<Node>, f: Finish)
    requires |setups| == |Outgoing(s.graph.edges, node.id)| && i < |setups|
    requires var t := ParallelThreads.Launch(s, node, ctx, setups, books, false);
             Cancels !in schedule && Complete(After(s, t, schedule))
    requires PlanFor(s.config, ctx, Starts(Outgoing(s.graph.edges, node.id))[i], setups[i]).Launched?
    ensures var start := Starts(Outgoing(s.graph.edges, node.id))[i];
            var results := ResultsOf(After(s, ParallelThreads.Launch(s, node, ctx, setups, books, false), schedule));
            && |results| == |setups|
            && if start !in Ids(s.graph) then results[i] == Err(StartNotFound)
               else
                 results[i] == f.result
                 && Runs(s, FindNode(s.graph, start), PlanFor(s.config, ctx, start, setups[i]).ctx, map[],
                         Outcome(SUCCESS, "", [], map[], ""), stages, f)
  {
    hide Runs, Move, After, PlanFor;
    var start := Starts(Outgoing(s.graph.edges, node.id))[i];
    var t := ParallelThreads.Launch(s, node, ctx, setups, books, false);
    var b := t.branches[i];
    BranchesRunAlone(s, t, schedule);
    var moves := Times(schedule, i);
    if start !in Ids(s.graph) {
      assert Done(Alone(s, b, 0, false));
      DoneForGood(s, b, 0, moves, false);
      stages, f := [], Finish(Err(StartNotFound), ctx, []);
    } else {
      stages, f := FinishedRuns(s, b, moves);
    }
  }

  // ---- what the join keeps ---------------------------------------------------------------------------

  /** What a branch with an outcome puts under a key: its status, its output, and each of
      its updates under its own name and a dot. */
  ghost predicate Puts(target: string, r: BranchResult, key: string, value: string)
  {
    && r.Ok?
    && if key == "parallel." + target + ".output" then value == r.value.output
       else if key == "parallel." + target + ".status" then Named(r.value.status, value)
       else exists k :: k in r.value.contextUpdates && key == target + "." + k && value == r.value.contextUpdates[k]
  }

  lemma {:induction false} NamespacedOnly(target: string, keys: seq<string>, updates: map<string, string>, key: string)
    requires (forall k :: k in keys ==> k in updates) && key in NamespacedKeys(target, keys, updates)
    ensures exists k ::
              k in updates && key == target + "." + k && NamespacedKeys(target, keys, updates)[key] == updates[k]
  {
    var k := keys[|keys| - 1];
    if key == target + "." + k {
      assert k in updates;
    } else {
      NamespacedOnly(target, keys[..|keys| - 1], updates, key);
    }
  }

  lemma ResultPuts(target: string, r: BranchResult, key: string)
    ensures var m := ResultUpdates(target, r);
            && (key in m ==> Puts(target, r, key, m[key]))
            && forall v :: Puts(target, r, key, v) ==> key in m && m[key] == v
  {
    hide NamespacedKeys, SortedKeys, StatusName, Named;
    if r.Ok? {
      var updates, keys := r.value.contextUpdates, SortedKeys(r.value.contextUpdates.Keys);
      StatusIsNamed(r.value.status);
      NamedOnce(r.value.status);
      OwnKeysApart(target, target);
      if key in NamespacedKeys(target, keys, updates) { NamespacedOnly(target, keys, updates, key); }
      forall k | k in updates && key == target + "." + k
        ensures key in NamespacedKeys(target, keys, updates) && NamespacedKeys(target, keys, updates)[key] == updates[k]
      {
        NamespacedKeysHold(target, keys, updates, k);
      }
    }
  }

  lemma NamedOnce(status: StageStatus)
    ensures forall v, w :: Named(status, v) && Named(status, w) ==> v == w
  {
  }

  ghost predicate PutsAny(target: string, r: BranchResult, key: string)
  {
    exists v :: Puts(target, r, key, v)
  }

  lemma MergedStep(first: map<string, string>, targets: seq<string>, results: seq<BranchResult>, key: string)
    requires |targets| == |results| > 0
    ensures var n := |targets| - 1;
            var before, after := Merged(first, targets[..n], results[..n]), Merged(first, targets, results);
            if PutsAny(targets[n], results[n], key) then key in after && Puts(targets[n], results[n], key, after[key])
            else SameUnder(key, before, after)
  {
    hide ResultUpdates, Puts;
    ResultPuts(targets[|targets| - 1], results[|targets| - 1], key);
  }

  /** Branch `i` is the last to put something under the key. */
  ghost predicate LastToPut(targets: seq<string>, results: seq<BranchResult>, key: string, i: int)
    requires |targets| == |results|
  {
    && 0 <= i < |targets| && PutsAny(targets[i], results[i], key)
    && forall j :: i < j < |targets| ==> !PutsAny(targets[j], results[j], key)
  }

  /** Under every key the merge holds what the last branch that puts something there put. */
  lemma {:induction false} LastPutStays(first: map<string, string>, targets: seq<string>, results: seq<BranchResult>,
                                        key: string, i: int)
    requires |targets| == |results| && LastToPut(targets, results, key, i)
    ensures var m := Merged(first, targets, results); key in m && Puts(targets[i], results[i], key, m[key])
  {
    hide Merged, Puts, PutsAny;
    var n := |targets| - 1;
    MergedStep(first, targets, results, key);
    if i < n {
      assert !PutsAny(targets[n], results[n], key);
      assert forall j :: i < j < n ==> targets[..n][j] == targets[j] && results[..n][j] == results[j];
      LastPutStays(first, targets[..n], results[..n], key, i);
    }
  }

  /** Where no branch puts anything, the merge leaves what was there. */
  lemma {:induction false} NothingPutStays(first: map<string, string>, targets: seq<string>, results: seq<BranchResult>,
                                           key: string)
    requires |targets| == |results| && forall i :: 0 <= i < |targets| ==> !PutsAny(targets[i], results[i], key)
    ensures SameUnder(key, first, Merged(first, targets, results))
  {
    hide Merged, Puts, PutsAny;
    if targets == [] {
      NothingMergedYet(first);
    } else {
      MergedStep(first, targets, results, key);
      NothingPutStays(first, targets[..|targets| - 1], results[..|targets| - 1], key);
    }
  }

  lemma NothingMergedYet(first: map<string, string>)
    ensures Merged(first, [], []) == first
  {
  }

  predicate JoinKey(key: string)
  {
    key == "parallel.fan_in_target" || key == "parallel.branch_count" || key == "parallel.join_policy"
    || key == "parallel.branches"
  }

  lemma JoinKeysDiffer()
    ensures "parallel.fan_in_target" != "parallel.branch_count" && "parallel.fan_in_target" != "parallel.join_policy"
    ensures "parallel.fan_in_target" != "parallel.branches" && "parallel.branch_count" != "parallel.join_policy"
    ensures "parallel.branch_count" != "parallel.branches" && "parallel.join_policy" != "parallel.branches"
  {
    var a, b, c, d := "parallel.fan_in_target", "parallel.branch_count", "parallel.join_policy", "parallel.branches";
    assert a[9] == 'f' && b[9] == 'b' && c[9] == 'j' && d[9] == 'b' && |b| != |d|;
  }

  lemma FourKeys(m: map<string, string>, k1: string, k2: string, k3: string, k4: string, v1: string, v2: string,
                 v3: string, v4: string, key: string)
    requires k1 != k2 && k1 != k3 && k1 != k4 && k2 != k3 && k2 != k4 && k3 != k4
    ensures var u := m[k1 := v1][k2 := v2][k3 := v3][k4 := v4];
            && k1 in u && u[k1] == v1 && k2 in u && u[k2] == v2 && k3 in u && u[k3] == v3 && k4 in u && u[k4] == v4
            && (key != k1 && key != k2 && key != k3 && key != k4 ==> SameUnder(key, m, u))
  {
  }

  /** What the join says of itself, and that it keeps everything else. */
  lemma JoinKeysHold(m: map<string, string>, node: Node, targets: seq<string>, fanIn: string, key: string)
    ensures var u := WithJoinKeys(m, node, targets, fanIn);
            && "parallel.fan_in_target" in u && u["parallel.fan_in_target"] == fanIn
            && "parallel.branches" in u && u["parallel.branches"] == Separated.Joined(targets, ',')
            && "parallel.branch_count" in u && EdgeSelection.AllDigits(u["parallel.branch_count"])
            && EdgeSelection.DigitsValue(u["parallel.branch_count"]) == |targets|
            && "parallel.join_policy" in u
            && u["parallel.join_policy"] == (if "join_policy" in node.attrs then node.attrs["join_policy"]
                                             else "wait_all")
            && (!JoinKey(key) ==> SameUnder(key, m, u))
  {
    hide Decimal, SameUnder;
    JoinKeysDiffer();
    FourKeys(m, "parallel.fan_in_target", "parallel.branch_count", "parallel.join_policy", "parallel.branches",
             fanIn, Decimal(|targets|), JoinPolicy(node), BranchList(targets), key);
  }

  /** What a branch put under a key is in the updates of the parallel stage, if no later
      branch and no key of the join takes its place. */
  lemma JoinKeeps(node: Node, targets: seq<string>, results: seq<BranchResult>, first: map<string, string>,
                  setupFailed: bool, fanIn: string, i: nat, key: string, value: string)
    requires |targets| == |results| && i < |targets| && Puts(targets[i], results[i], key, value) && !JoinKey(key)
    requires forall j :: i < j < |targets| ==> !PutsAny(targets[j], results[j], key)
    ensures var updates := JoinOutcome(node, targets, results, first, setupFailed, fanIn).contextUpdates;
            key in updates && updates[key] == value
  {
    hide Puts, Merged, WithJoinKeys, JoinHolds;
    assert PutsAny(targets[i], results[i], key);
    assert LastToPut(targets, results, key, i);
    LastPutStays(first, targets, results, key, i);
    var m := Merged(first, targets, results);
    PutsOnce(targets[i], results[i], key, value, m[key]);
    JoinKeysHold(m, node, targets, fanIn, key);
  }

  lemma PutsOnce(target: string, r: BranchResult, key: string, v: string, w: string)
    requires Puts(target, r, key, v) && Puts(target, r, key, w)
    ensures v == w
  {
    NamedOnce(r.value.status);
    if k :| k in r.value.contextUpdates && key == target + "." + k {
      assert key[|target| + 1..] == k;
    }
  }

  /** Whatever the schedule, the parallel stage holds what the chain of each launched branch
      answers: what it puts under a key stands there unless a later branch or the join itself
      puts something there. */
  lemma BranchIsJoined(s: Setting, node: Node, ctx: Context, launchCommit: string, setups: seq<Setup>, books: Books,
                       schedule: seq<Event>, r: Handling, i: nat) returns (stages: seq<Node>, f: Finish)
    requires |setups| == |Outgoing(s.graph.edges, node.id)| && i < |setups| && Cancels !in schedule
    requires var t := ParallelThreads.Launch(s, node, ctx, setups, books, false);
             Complete(After(s, t, schedule)) && Handles(s, t, schedule, node, ctx, launchCommit, setups, r)
    requires var start := Starts(Outgoing(s.graph.edges, node.id))[i];
             start in Ids(s.graph) && PlanFor(s.config, ctx, start, setups[i]).Launched?
    ensures r.Joined?
    ensures var starts := Starts(Outgoing(s.graph.edges, node.id));
            var results := ResultsOf(After(s, ParallelThreads.Launch(s, node, ctx, setups, books, false), schedule));
            && |results| == |starts|
            && Runs(s, FindNode(s.graph, starts[i]), PlanFor(s.config, ctx, starts[i], setups[i]).ctx, map[],
                    Outcome(SUCCESS, "", [], map[], ""), stages, f)
            && forall key, value ::
                 Puts(starts[i], f.result, key, value) && !JoinKey(key)
                 && (forall j :: i < j < |starts| ==> !PutsAny(starts[j], results[j], key)) ==>
                   key in r.outcome.contextUpdates && r.outcome.contextUpdates[key] == value
  {
    hide Runs, Puts, PutsAny, JoinKey, JoinOutcome, PlanFor, After, Complete, AllSetupUpdates, FirstUpdates;
    var starts := Starts(Outgoing(s.graph.edges, node.id));
    var t := ParallelThreads.Launch(s, node, ctx, setups, books, false);
    stages, f := BranchAnswers(s, node, ctx, setups, books, schedule, i);
    var results := ResultsOf(After(s, t, schedule));
    var first := AllSetupUpdates(ctx, FirstUpdates(launchCommit), starts, setups);
    var setupFailed := exists k :: 0 <= k < |starts| && PlanFor(s.config, ctx, starts[k], setups[k]).Skipped?;
    assert r.outcome == JoinOutcome(node, starts, results, first, setupFailed, s.endId);
    forall key, value |
      Puts(starts[i], f.result, key, value) && !JoinKey(key)
      && (forall j :: i < j < |starts| ==> !PutsAny(starts[j], results[j], key))
      ensures key in r.outcome.contextUpdates && r.outcome.contextUpdates[key] == value
    {
      JoinKeeps(node, starts, results, first, setupFailed, s.endId, i, key, value);
    }
  }

  // ---- what the join decides ---------------------------------------------------------------------------

  /** The branches that succeeded, at least partly. */
  ghost function Counted(results: seq<BranchResult>): set<int>
  {
    set i | 0 <= i < |results| && results[i].Ok?
      && (results[i].value.status.SUCCESS? || results[i].value.status.PARTIAL_SUCCESS?)
  }

  lemma {:induction false} SuccessesCounted(results: seq<BranchResult>)
    ensures Successes(results) == |Counted(results)|
  {
    if results != [] {
      var n := |results| - 1;
      SuccessesCounted(results[..n]);
      var more := if Counts(results[n]) then {n} else {};
      assert Counted(results) == Counted(results[..n]) + more;
    }
  }

  /** A branch has failed that raised an error, could not be set up, or answers FAILURE. */
  predicate Fails(r: BranchResult)
  {
    r.Ok? ==> r.value.status.FAILURE?
  }

  /** With `first_success` one success is enough; with `threshold` as many branches must
      succeed, at least partly, as the stage asks for, or two; otherwise none may fail. */
  lemma JoinDecides(node: Node, results: seq<BranchResult>, setupFailed: bool)
    ensures var policy := if "join_policy" in node.attrs then node.attrs["join_policy"] else "wait_all";
            var asked := if "join_threshold" in node.attrs then node.attrs["join_threshold"] else "";
            JoinHolds(node, results, setupFailed) <==>
            if policy == "first_success" then
              exists i :: 0 <= i < |results| && results[i].Ok? && results[i].value.status.SUCCESS?
            else if policy == "threshold" then
              if exists n :: Numeral(asked, n) then exists n :: Numeral(asked, n) && |Counted(results)| >= n
              else |Counted(results)| >= 2
            else !setupFailed && forall i :: 0 <= i < |results| ==> !Fails(results[i])
  {
    hide Successes, Counted, Numeral, JoinThreshold;
    SuccessesCounted(results);
    ThresholdAsked(node);
    assert forall r :: r in results <==> exists i :: 0 <= i < |results| && results[i] == r;
    assert forall i :: 0 <= i < |results| ==> results[i] in results;
  }

  lemma ThresholdAsked(node: Node)
    ensures var asked := if "join_threshold" in node.attrs then node.attrs["join_threshold"] else "";
            && (forall n :: Numeral(asked, n) ==> JoinThreshold(node) == n)
            && ((forall n :: !Numeral(asked, n)) ==> JoinThreshold(node) == 2)
  {
    hide Numeral, EdgeSelection.ParseInt;
    var asked := if "join_threshold" in node.attrs then node.attrs["join_threshold"] else "";
    forall n ensures EdgeSelection.ParseInt(asked) == Some(n) <==> Numeral(asked, n) { ParseIntExactly(asked, n); }
    NoNumeral();
  }

  lemma NoNumeral()
    ensures EdgeSelection.ParseInt("") == None
  {
  }

  // ---- how the branches are set up -----------------------------------------------------------------------

  /** A branch whose success is in the context is carried with its output; one without a
      worktree gets the run's context; a worktree that fails is recorded as the branch's
      failure, and one that is ready as the branch's worktree. */
  lemma SetupExactly(c: Config, ctx: Context, target: string, setup: Setup)
    ensures var plan, updates := PlanFor(c, ctx, target, setup), SetupUpdates(ctx, target, setup);
            var status, output := "parallel." + target + ".status", "parallel." + target + ".output";
            if status in ctx && ctx[status] == "SUCCESS" then
              && plan == Carried(Outcome(SUCCESS, "", [], map[], if output in ctx then ctx[output] else ""))
              && updates == map[]
            else
              match setup
              case NoWorktree => plan == Launched(ctx) && updates == map[]
              case WorktreeReady(path, _) =>
                plan.Launched? && updates == map["needle.branch_worktree." + target := path]
              case WorktreeFailed(message) =>
                && plan == Skipped && status in updates && updates[status] == "FAILURE"
                && output in updates && updates[output] == message
                && "parallel." + target + ".annotation" in updates
                && updates["parallel." + target + ".annotation"] == "worktree_setup_failed"
                && |updates| == 3
  {
    var status, output := "parallel." + target + ".status", "parallel." + target + ".output";
    var annotation := "parallel." + target + ".annotation";
    OwnKeysApart(target, target);
    assert annotation[|annotation| - 1] == 'n' && status[|status| - 1] == 's' && output[|output| - 1] == 't';
  }

  /** Later branches' records take the place of earlier ones'. */
  lemma {:induction false} SetupsInOrder(ctx: Context, first: map<string, string>, targets: seq<string>,
                                         setups: seq<Setup>,
                                         target: string, setup: Setup)
    requires |targets| == |setups|
    ensures AllSetupUpdates(ctx, first, targets + [target], setups + [setup])
            == AllSetupUpdates(ctx, first, targets, setups) + SetupUpdates(ctx, target, setup)
    ensures AllSetupUpdates(ctx, first, [], []) == first
  {
    assert (targets + [target])[..|targets|] == targets && (setups + [setup])[..|setups|] == setups;
  }
}
