/** Parallel branches: PipelineEngine::execute_subgraph run by several threads at once,
    as ParallelHandler::execute starts them (src/handlers/parallel_handler.cpp,
    src/engine/pipeline_engine.cpp). Each branch owns its context and its retry counters;
    the completed nodes, outcomes and hashes are shared under a mutex. A schedule says
    which branch moves next, so a claim about every schedule is a claim about every
    interleaving. */
module ParallelBranches {
  import opened Text
  import opened Graphs
  import opened Outcomes
  import opened EdgeSelection
  import opened Engine
  import opened EngineRuns

  /** What running a handler in a context gives: its reply, the context it leaves, and
      the completions recorded by subgraphs it ran itself. */
  datatype Work = Work(reply: Reply, ctx: Context, records: seq<Completion>)

  type Worker = (Node, Context) -> Work

  /** What the branches run with; `inclusive` has the end node run too, which parallel
      branches leave to the main loop. */
  datatype Setting = Setting(config: Config, graph: Graph, endId: string, inclusive: bool, worker: Worker)

  datatype Fault = StartNotFound | NoHandler | HandlerError(error: string) | EdgeSelectionFailed | NotStarted

  type BranchResult = Result<Outcome, Fault>

  /** One thread: completions wait in `pending` until the thread takes the mutex. */
  datatype Branch = Branch(
    current: Option<Node>,
    ctx: Context,
    retries: map<string, int>,
    last: Outcome,
    pending: seq<Completion>,
    published: seq<Completion>,
    result: Option<BranchResult>)

  const NO_OUTCOME := Outcome(SUCCESS, "", [], map[], "")

  function Started(g: Graph, start: string, ctx: Context): Branch
  {
    var node := FindNode(g, start);
    Branch(node, ctx, map[], NO_OUTCOME, [], [], if node.None? then Some(Err(StartNotFound)) else None)
  }

  predicate Done(b: Branch) { b.result.Some? && b.pending == [] }

  function Exhausted(id: string): Outcome
  {
    Outcome(FAILURE, "", [], map[], "retries exhausted for node: " + id)
  }

  /** One pass of the loop of execute_subgraph. */
  ghost function Visit(s: Setting, b: Branch, node: Node): Branch
  {
    var w := s.worker(node, b.ctx);
    match w.reply
    case Unregistered => b.(result := Some(Err(NoHandler)))
    case Raised(error) => b.(ctx := w.ctx, pending := w.records, result := Some(Err(HandlerError(error))))
    case Replied(o) =>
      match o.status
      case FAILURE =>
        b.(ctx := w.ctx, pending := w.records + [Completion(node, FAILURE)], result := Some(Ok(o)))
      case RETRY =>
        if Count(b.retries, node.id) < MaxRetries(node.attrs) then
          b.(ctx := w.ctx, pending := w.records, retries := Bump(b.retries, node.id))
        else b.(ctx := w.ctx, pending := w.records, result := Some(Ok(Exhausted(node.id))))
      case _ =>
        var ctx := ApplyUpdates(s.config, w.ctx, o.contextUpdates);
        var b' := b.(ctx := ctx, pending := w.records + [Completion(node, o.status)], last := o);
        var next := Choice(s.config.read, Outgoing(s.graph.edges, node.id), o, ctx);
        if next.None? then b'.(result := Some(Err(EdgeSelectionFailed)))
        else b'.(current := FindNode(s.graph, next.value.to))
  }

  /** The end node, run once after the loop. */
  function VisitEnd(s: Setting, b: Branch, node: Node): Branch
  {
    var w := s.worker(node, b.ctx);
    match w.reply
    case Unregistered => b.(result := Some(Err(NoHandler)))
    case Raised(error) => b.(ctx := w.ctx, pending := w.records, result := Some(Err(HandlerError(error))))
    case Replied(o) =>
      if o.status == FAILURE then
        b.(ctx := w.ctx, pending := w.records + [Completion(node, FAILURE)], result := Some(Ok(o)))
      else
        b.(ctx := ApplyUpdates(s.config, w.ctx, o.contextUpdates), pending := w.records + [Completion(node, o.status)],
           last := o, result := Some(Ok(o)))
  }

  /** One step of a thread; it sees the cancellation flag only between nodes. */
  ghost function Move(s: Setting, b: Branch, cancelled: bool): Branch
  {
    if b.pending != [] then b.(pending := b.pending[1..], published := b.published + [b.pending[0]])
    else if b.result.Some? then b
    else if b.current.Some? && b.current.value.id != s.endId && !cancelled then Visit(s, b, b.current.value)
    else if s.inclusive && b.current.Some? && b.current.value.id == s.endId && !cancelled then
      VisitEnd(s, b, b.current.value)
    else b.(result := Some(Ok(b.last)))
  }

  datatype Team = Team(branches: seq<Branch>, books: Books, cancelled: bool)

  /** What the scheduler lets happen next. */
  datatype Event = Runs(branch: nat) | Cancels

  /** Branch `i` moves; taking the mutex, it records its next pending completion. */
  ghost function TeamMove(s: Setting, t: Team, e: Event): Team
  {
    match e
    case Cancels => t.(cancelled := true)
    case Runs(i) =>
      if i >= |t.branches| then t
      else
        var b := t.branches[i];
        t.(branches := t.branches[i := Move(s, b, t.cancelled)],
           books := if b.pending == [] then t.books
                    else Record(s.config, t.books, b.pending[0].node, b.pending[0].status))
  }

  ghost function After(s: Setting, t: Team, schedule: seq<Event>): Team
  {
    if schedule == [] then t
    else TeamMove(s, After(s, t, schedule[..|schedule| - 1]), schedule[|schedule| - 1])
  }

  ghost predicate Complete(t: Team)
  {
    forall i :: 0 <= i < |t.branches| ==> Done(t.branches[i])
  }

  lemma {:induction false} TeamKeepsSize(s: Setting, t: Team, schedule: seq<Event>)
    ensures |After(s, t, schedule).branches| == |t.branches|
  {
    hide Move;
    if schedule != [] {
      TeamKeepsSize(s, t, schedule[..|schedule| - 1]);
    }
  }

  // ---- a branch does not see the others -----------------------------------------------------

  ghost function Alone(s: Setting, b: Branch, moves: nat, cancelled: bool): Branch
  {
    if moves == 0 then b else Move(s, Alone(s, b, moves - 1, cancelled), cancelled)
  }

  /** How often branch `i` moves. */
  function Times(schedule: seq<Event>, i: nat): nat
  {
    if schedule == [] then 0
    else Times(schedule[..|schedule| - 1], i) + if schedule[|schedule| - 1] == Runs(i) then 1 else 0
  }

  /** ... before the run is cancelled. */
  function TimesBefore(schedule: seq<Event>, i: nat): nat
  {
    if schedule == [] then 0
    else
      var front := schedule[..|schedule| - 1];
      TimesBefore(front, i) + if schedule[|schedule| - 1] == Runs(i) && Cancels !in front then 1 else 0
  }

  lemma {:induction false} BeforeOrAfter(schedule: seq<Event>, i: nat)
    ensures TimesBefore(schedule, i) <= Times(schedule, i)
    ensures Cancels !in schedule ==> TimesBefore(schedule, i) == Times(schedule, i)
  {
    if schedule != [] {
      BeforeOrAfter(schedule[..|schedule| - 1], i);
      assert schedule == schedule[..|schedule| - 1] + [schedule[|schedule| - 1]];
    }
  }

  /** Where branch `i` alone would be: its moves before the cancellation, then those after. */
  ghost function Course(s: Setting, b: Branch, schedule: seq<Event>, i: nat): Branch
  {
    var before := TimesBefore(schedule, i);
    BeforeOrAfter(schedule, i);
    Alone(s, Alone(s, b, before, false), Times(schedule, i) - before, true)
  }

  /** Whatever the interleaving, a branch is where its own moves alone would take it. */
  lemma {:induction false} BranchesRunAlone(s: Setting, t: Team, schedule: seq<Event>)
    requires !t.cancelled
    ensures var u := After(s, t, schedule);
            && |u.branches| == |t.branches| && (u.cancelled <==> Cancels in schedule)
            && (forall i :: 0 <= i < |t.branches| ==> u.branches[i] == Course(s, t.branches[i], schedule, i))
            && (Cancels !in schedule ==>
                  forall i :: 0 <= i < |t.branches| ==>
                    u.branches[i] == Alone(s, t.branches[i], Times(schedule, i), false))
  {
    hide Move;
    if schedule != [] {
      var front, last := schedule[..|schedule| - 1], schedule[|schedule| - 1];
      BranchesRunAlone(s, t, front);
      assert schedule == front + [last];
      var u := After(s, t, schedule);
      forall i | 0 <= i < |t.branches| ensures u.branches[i] == Course(s, t.branches[i], schedule, i) {
        CourseStep(s, t.branches[i], front, last, i);
      }
    }
  }

  lemma CourseStep(s: Setting, b: Branch, front: seq<Event>, last: Event, i: nat)
    ensures Course(s, b, front + [last], i)
            == var c := Course(s, b, front, i); if last == Runs(i) then Move(s, c, Cancels in front) else c
  {
    hide Move;
    var schedule := front + [last];
    BeforeOrAfter(front, i);
    assert schedule[..|schedule| - 1] == front && schedule[|schedule| - 1] == last;
  }

  lemma {:induction false} DoneForGood(s: Setting, b: Branch, m: nat, n: nat, cancelled: bool)
    requires m <= n && Done(Alone(s, b, m, cancelled))
    ensures Alone(s, b, n, cancelled) == Alone(s, b, m, cancelled)
    decreases n
  {
    if m < n {
      DoneForGood(s, b, m, n - 1, cancelled);
    }
  }

  lemma DoneOnce(s: Setting, b: Branch, m: nat, n: nat, cancelled: bool)
    requires Done(Alone(s, b, m, cancelled)) && Done(Alone(s, b, n, cancelled))
    ensures Alone(s, b, m, cancelled) == Alone(s, b, n, cancelled)
  {
    DoneForGood(s, b, if m <= n then m else n, if m <= n then n else m, cancelled);
  }

  /** The schedules cancel at the same point of every branch, or not at all. */
  ghost predicate CancelAlike(one: seq<Event>, two: seq<Event>, branches: nat)
  {
    (Cancels !in one && Cancels !in two) || forall i: nat :: i < branches ==> TimesBefore(one, i) == TimesBefore(two, i)
  }

  lemma CourseAlike(s: Setting, b: Branch, one: seq<Event>, two: seq<Event>, i: nat)
    requires (Cancels !in one && Cancels !in two) || TimesBefore(one, i) == TimesBefore(two, i)
    requires Done(Course(s, b, one, i)) && Done(Course(s, b, two, i))
    ensures Course(s, b, one, i) == Course(s, b, two, i)
  {
    hide Done, Move;
    BeforeOrAfter(one, i);
    BeforeOrAfter(two, i);
    var before := TimesBefore(one, i);
    if before == TimesBefore(two, i) {
      DoneOnce(s, Alone(s, b, before, false), Times(one, i) - before, Times(two, i) - before, true);
    } else {
      DoneOnce(s, b, Times(one, i), Times(two, i), false);
    }
  }

  /** Two schedules that both finish, and cancel alike if they do, leave every branch with
      the same result and the same context. */
  lemma ScheduleDoesNotMatter(s: Setting, t: Team, one: seq<Event>, two: seq<Event>)
    requires !t.cancelled && Complete(After(s, t, one)) && Complete(After(s, t, two))
    requires CancelAlike(one, two, |t.branches|)
    ensures After(s, t, one).branches == After(s, t, two).branches
  {
    hide Done, Move, After, Course;
    BranchesRunAlone(s, t, one);
    BranchesRunAlone(s, t, two);
    forall i | 0 <= i < |t.branches| ensures After(s, t, one).branches[i] == After(s, t, two).branches[i] {
      assert Done(After(s, t, one).branches[i]) && Done(After(s, t, two).branches[i]);
      CourseAlike(s, t.branches[i], one, two, i);
    }
  }

  // ---- one branch after another is a schedule -------------------------------------------------

  function Repeat(k: nat, i: nat): seq<Event>
  {
    seq(k, _ => Runs(i))
  }

  /** The moves of `schedule`, all of branch 0 first, then all of branch 1, and so on. */
  function OneByOne(schedule: seq<Event>, n: nat): seq<Event>
  {
    if n == 0 then [] else OneByOne(schedule, n - 1) + Repeat(Times(schedule, n - 1), n - 1)
  }

  lemma {:induction false} TimesConcat(a: seq<Event>, b: seq<Event>, i: nat)
    ensures Times(a + b, i) == Times(a, i) + Times(b, i)
  {
    if b == [] {
      assert a + b == a;
    } else {
      assert (a + b)[..|a + b| - 1] == a + b[..|b| - 1];
      TimesConcat(a, b[..|b| - 1], i);
    }
  }

  lemma {:induction false} TimesRepeat(k: nat, j: nat, i: nat)
    ensures Times(Repeat(k, j), i) == if i == j then k else 0
  {
    if k > 0 {
      var all := Repeat(k, j);
      assert all[..k - 1] == Repeat(k - 1, j);
      assert all[|all| - 1] == Runs(j);
      TimesRepeat(k - 1, j, i);
    }
  }

  lemma {:induction false} OneByOneTimes(schedule: seq<Event>, n: nat, i: nat)
    ensures Times(OneByOne(schedule, n), i) == if i < n then Times(schedule, i) else 0
    ensures Cancels !in OneByOne(schedule, n)
  {
    hide Repeat;
    if n > 0 {
      OneByOneTimes(schedule, n - 1, i);
      RepeatRuns(Times(schedule, n - 1), n - 1);
      TimesConcat(OneByOne(schedule, n - 1), Repeat(Times(schedule, n - 1), n - 1), i);
      TimesRepeat(Times(schedule, n - 1), n - 1, i);
    }
  }

  lemma RepeatRuns(k: nat, i: nat)
    ensures Cancels !in Repeat(k, i)
  {
  }

  /** Schedules without cancellation in which every branch moves as often end alike. */
  lemma SameTimes(s: Setting, t: Team, one: seq<Event>, two: seq<Event>)
    requires !t.cancelled && Cancels !in one && Cancels !in two
    requires forall i: nat :: i < |t.branches| ==> Times(one, i) == Times(two, i)
    ensures After(s, t, one).branches == After(s, t, two).branches
  {
    hide Move;
    BranchesRunAlone(s, t, one);
    BranchesRunAlone(s, t, two);
    assert forall i :: 0 <= i < |t.branches| ==> After(s, t, one).branches[i] == After(s, t, two).branches[i];
  }

  /** If the threads finish under some interleaving, running the branches one after
      another finishes too, with the same results. */
  lemma OneAfterAnother(s: Setting, t: Team, schedule: seq<Event>)
    requires !t.cancelled && Cancels !in schedule && Complete(After(s, t, schedule))
    ensures var turns := OneByOne(schedule, |t.branches|);
            Complete(After(s, t, turns)) && After(s, t, turns).branches == After(s, t, schedule).branches
  {
    hide After, Done;
    var turns := OneByOne(schedule, |t.branches|);
    OneByOneTimes(schedule, |t.branches|, 0);
    forall i: nat | i < |t.branches| ensures Times(turns, i) == Times(schedule, i) {
      OneByOneTimes(schedule, |t.branches|, i);
    }
    SameTimes(s, t, schedule, turns);
  }

  // ---- the shared books -------------------------------------------------------------------------

  ghost predicate Unpublished(t: Team)
  {
    forall i :: 0 <= i < |t.branches| ==> t.branches[i].published == []
  }

  /** The books as branch `i` alone would have left them by what it published. */
  ghost function OwnBooks(s: Setting, base: Books, b: Branch): Books
  {
    RecordAll(s.config, base, b.published)
  }

  lemma RecordAllSnoc(c: Config, base: Books, log: seq<Completion>, x: Completion)
    ensures RecordAll(c, base, log + [x]) == Record(c, RecordAll(c, base, log), x.node, x.status)
  {
    assert (log + [x])[..|log|] == log;
  }

  lemma {:induction false} RecordAllGrows(c: Config, base: Books, log: seq<Completion>)
    ensures forall id :: id in base.completed ==> id in RecordAll(c, base, log).completed
  {
    if log != [] {
      RecordAllGrows(c, base, log[..|log| - 1]);
    }
  }

  ghost predicate CompletedBySome(s: Setting, base: Books, branches: seq<Branch>, id: string)
  {
    exists i :: 0 <= i < |branches| && id in OwnBooks(s, base, branches[i]).completed
  }

  /** A node is completed exactly when it was before or some branch alone completes it. */
  ghost predicate CompletedTogether(s: Setting, base: Books, t: Team)
  {
    forall id :: id in t.books.completed <==> id in base.completed || CompletedBySome(s, base, t.branches, id)
  }

  lemma CompletedMove(s: Setting, base: Books, t: Team, e: Event)
    requires CompletedTogether(s, base, t)
    ensures CompletedTogether(s, base, TeamMove(s, t, e))
  {
    hide Visit, RecordAll;
    var u := TeamMove(s, t, e);
    if e.Runs? && e.branch < |t.branches| {
      var b, b' := t.branches[e.branch], u.branches[e.branch];
      VisitOrPublish(s, b, t.cancelled);
      if b.pending != [] {
        RecordAllSnoc(s.config, base, b.published, b.pending[0]);
      } else {
        assert b'.published == b.published;
      }
      forall id ensures id in u.books.completed <==> id in base.completed || CompletedBySome(s, base, u.branches, id) {
        CompletedOne(s, base, t, e.branch, id);
      }
    }
  }

  lemma CompletedOne(s: Setting, base: Books, t: Team, i: nat, id: string)
    requires CompletedTogether(s, base, t) && i < |t.branches|
    requires var b := t.branches[i];
             var own := OwnBooks(s, base, b);
             OwnBooks(s, base, Move(s, b, t.cancelled))
             == if b.pending == [] then own else Record(s.config, own, b.pending[0].node, b.pending[0].status)
    ensures var u := TeamMove(s, t, Runs(i));
            id in u.books.completed <==> id in base.completed || CompletedBySome(s, base, u.branches, id)
  {
    hide Move, OwnBooks;
    var u := TeamMove(s, t, Runs(i));
    var own := OwnBooks(s, base, t.branches[i]);
    assert id in t.books.completed <==> id in base.completed || CompletedBySome(s, base, t.branches, id);
    assert forall j :: 0 <= j < |t.branches| && j != i ==> u.branches[j] == t.branches[j];
    if id in OwnBooks(s, base, u.branches[i]).completed { assert CompletedBySome(s, base, u.branches, id); }
    if id in own.completed { assert CompletedBySome(s, base, t.branches, id); }
    if CompletedBySome(s, base, t.branches, id) {
      var j :| 0 <= j < |t.branches| && id in OwnBooks(s, base, t.branches[j]).completed;
      assert id in OwnBooks(s, base, u.branches[j]).completed;
    }
    if CompletedBySome(s, base, u.branches, id) {
      var j :| 0 <= j < |u.branches| && id in OwnBooks(s, base, u.branches[j]).completed;
      if j != i { assert CompletedBySome(s, base, t.branches, id); }
    }
  }

  lemma {:induction false} CompletedInEveryInterleaving(s: Setting, t: Team, schedule: seq<Event>)
    requires Unpublished(t)
    ensures CompletedTogether(s, t.books, After(s, t, schedule))
  {
    hide TeamMove;
    if schedule == [] {
      assert forall i :: 0 <= i < |t.branches| ==> OwnBooks(s, t.books, t.branches[i]) == t.books;
    } else {
      CompletedInEveryInterleaving(s, t, schedule[..|schedule| - 1]);
      CompletedMove(s, t.books, After(s, t, schedule[..|schedule| - 1]), schedule[|schedule| - 1]);
    }
  }

  /** The set of completed nodes does not depend on the interleaving. */
  lemma SameCompletedSet(s: Setting, t: Team, one: seq<Event>, two: seq<Event>)
    requires !t.cancelled && Unpublished(t) && Complete(After(s, t, one)) && Complete(After(s, t, two))
    requires CancelAlike(one, two, |t.branches|)
    ensures forall id :: id in After(s, t, one).books.completed <==> id in After(s, t, two).books.completed
  {
    hide After;
    ScheduleDoesNotMatter(s, t, one, two);
    CompletedInEveryInterleaving(s, t, one);
    CompletedInEveryInterleaving(s, t, two);
  }

  /** Concurrent completions keep the books: nothing is listed twice, and everything
      listed has an outcome and a hash. */
  lemma {:induction false} BooksStayKept(s: Setting, t: Team, schedule: seq<Event>)
    requires Kept(t.books)
    ensures Kept(After(s, t, schedule).books)
  {
    hide Kept, Record, Move;
    if schedule != [] {
      var before := After(s, t, schedule[..|schedule| - 1]);
      var e := schedule[|schedule| - 1];
      BooksStayKept(s, t, schedule[..|schedule| - 1]);
      if e.Runs? && e.branch < |before.branches| && before.branches[e.branch].pending != [] {
        var x := before.branches[e.branch].pending[0];
        RecordKeeps(s.config, before.books, x.node, x.status);
      }
    }
  }

  // ---- outcomes, when no two branches complete the same node -----------------------------------

  ghost predicate Touches(log: seq<Completion>, id: string)
  {
    exists k :: 0 <= k < |log| && log[k].node.id == id
  }

  /** No node was completed by two branches. */
  ghost predicate Apart(branches: seq<Branch>)
  {
    forall i, j, id :: 0 <= i < j < |branches| && Touches(branches[i].published, id) ==>
      !Touches(branches[j].published, id)
  }

  /** The two books say the same of `id`. */
  predicate SameAt(a: Books, b: Books, id: string)
  {
    && (id in a.outcomes <==> id in b.outcomes) && (id in a.outcomes ==> a.outcomes[id] == b.outcomes[id])
    && (id in a.hashes <==> id in b.hashes) && (id in a.hashes ==> a.hashes[id] == b.hashes[id])
  }

  /** What is recorded of a node is what the branch that completed it would record alone. */
  ghost predicate RecordedApart(s: Setting, base: Books, t: Team)
  {
    && (forall i, id :: 0 <= i < |t.branches| && Touches(t.branches[i].published, id) ==>
          SameAt(t.books, OwnBooks(s, base, t.branches[i]), id))
    && forall id :: Untouched(t.branches, id) ==> SameAt(t.books, base, id)
  }

  ghost predicate Untouched(branches: seq<Branch>, id: string)
  {
    forall i :: 0 <= i < |branches| ==> !Touches(branches[i].published, id)
  }

  lemma {:induction false} UntouchedByLog(c: Config, base: Books, log: seq<Completion>, id: string)
    requires !Touches(log, id)
    ensures SameAt(RecordAll(c, base, log), base, id)
  {
    if log != [] {
      var front := log[..|log| - 1];
      assert forall k :: 0 <= k < |front| ==> front[k] == log[k];
      assert log[|log| - 1].node.id != id;
      UntouchedByLog(c, base, front, id);
    }
  }

  lemma TouchesSnoc(log: seq<Completion>, x: Completion, id: string)
    ensures Touches(log + [x], id) <==> Touches(log, id) || x.node.id == id
  {
    var more := log + [x];
    assert more[|log|] == x;
    if Touches(log, id) {
      var k :| 0 <= k < |log| && log[k].node.id == id;
      assert more[k] == log[k];
    }
  }

  lemma RecordSame(c: Config, a: Books, b: Books, x: Completion, id: string)
    ensures SameAt(a, b, id) ==> SameAt(Record(c, a, x.node, x.status), Record(c, b, x.node, x.status), id)
    ensures id != x.node.id ==> SameAt(Record(c, a, x.node, x.status), a, id)
  {
  }

  /** Branch `i` publishes `x`; afterwards the branches are still apart. */
  lemma RecordedMove(s: Setting, base: Books, t: Team, i: nat, x: Completion, b': Branch, id: string)
    requires i < |t.branches| && RecordedApart(s, base, t)
    requires b'.published == t.branches[i].published + [x]
    requires Apart(t.branches[i := b'])
    ensures var u := t.(branches := t.branches[i := b'], books := Record(s.config, t.books, x.node, x.status));
            && (forall j :: 0 <= j < |u.branches| && Touches(u.branches[j].published, id) ==>
                  SameAt(u.books, OwnBooks(s, base, u.branches[j]), id))
            && (Untouched(u.branches, id) ==> SameAt(u.books, base, id))
  {
    hide Touches, SameAt, Record;
    var b := t.branches[i];
    var u := t.(branches := t.branches[i := b'], books := Record(s.config, t.books, x.node, x.status));
    TouchesSnoc(b.published, x, id);
    RecordAllSnoc(s.config, base, b.published, x);
    RecordSame(s.config, t.books, OwnBooks(s, base, b), x, id);
    RecordSame(s.config, t.books, base, x, id);
    forall j | 0 <= j < |u.branches| && Touches(u.branches[j].published, id)
      ensures SameAt(u.books, OwnBooks(s, base, u.branches[j]), id)
    {
      if j != i {
        assert u.branches[j] == t.branches[j] && u.branches[i] == b';
        assert x.node.id != id;
        SameThroughout(u.books, t.books, OwnBooks(s, base, u.branches[j]), id);
      } else if !Touches(b.published, id) {
        UntouchedByLog(s.config, base, b.published, id);
        ElsewhereUntouched(t.branches, i, b', id);
        SameThroughout(t.books, base, OwnBooks(s, base, b), id);
      }
    }
    if Untouched(u.branches, id) {
      assert u.branches[i] == b';
      ElsewhereUntouched(t.branches, i, b', id);
      SameThroughout(u.books, t.books, base, id);
    }
  }

  lemma SameThroughout(a: Books, b: Books, c: Books, id: string)
    ensures SameAt(a, b, id) && SameAt(b, c, id) ==> SameAt(a, c, id)
    ensures SameAt(a, b, id) && SameAt(c, b, id) ==> SameAt(a, c, id)
  {
  }

  /** If `b'` touches `id` nobody else does; if nobody does after, nobody did before. */
  lemma ElsewhereUntouched(branches: seq<Branch>, i: nat, b': Branch, id: string)
    requires i < |branches| && Apart(branches[i := b']) && !Touches(branches[i].published, id)
    requires Touches(b'.published, id) || Untouched(branches[i := b'], id)
    ensures Untouched(branches, id)
  {
    hide Touches;
    var after := branches[i := b'];
    forall j | 0 <= j < |branches| ensures !Touches(branches[j].published, id) {
      if j != i {
        assert after[j] == branches[j] && after[i] == b';
      }
    }
  }

  lemma ApartBefore(s: Setting, t: Team, e: Event)
    requires Apart(TeamMove(s, t, e).branches)
    ensures Apart(t.branches)
  {
    hide Touches, Move;
    if e.Runs? && e.branch < |t.branches| {
      var u := TeamMove(s, t, e);
      var b := t.branches[e.branch];
      VisitOrPublish(s, b, t.cancelled);
      forall j, id | 0 <= j < |t.branches| && Touches(t.branches[j].published, id)
        ensures Touches(u.branches[j].published, id)
      {
        if b.pending != [] {
          TouchesSnoc(b.published, b.pending[0], id);
        } else {
          assert u.branches[e.branch].published == b.published;
        }
      }
    }
  }

  lemma VisitOrPublish(s: Setting, b: Branch, cancelled: bool)
    ensures Move(s, b, cancelled).published == b.published + if b.pending == [] then [] else [b.pending[0]]
  {
  }

  lemma {:induction false} RecordedInEveryInterleaving(s: Setting, t: Team, schedule: seq<Event>)
    requires Unpublished(t) && Apart(After(s, t, schedule).branches)
    ensures RecordedApart(s, t.books, After(s, t, schedule))
  {
    hide Move, Touches, SameAt, Record, Apart, RecordedApart;
    if schedule == [] {
      NothingRecorded(s, t);
    } else {
      var before := After(s, t, schedule[..|schedule| - 1]);
      var e := schedule[|schedule| - 1];
      ApartBefore(s, before, e);
      RecordedInEveryInterleaving(s, t, schedule[..|schedule| - 1]);
      RecordedTeamMove(s, t.books, before, e);
    }
  }

  lemma NothingRecorded(s: Setting, t: Team)
    requires Unpublished(t)
    ensures RecordedApart(s, t.books, t)
  {
  }

  lemma RecordedTeamMove(s: Setting, base: Books, t: Team, e: Event)
    requires RecordedApart(s, base, t) && Apart(TeamMove(s, t, e).branches)
    ensures RecordedApart(s, base, TeamMove(s, t, e))
  {
    hide Touches, SameAt, Record, Apart, Move, OwnBooks, Untouched;
    if e.Runs? && e.branch < |t.branches| {
      var i := e.branch;
      var b := t.branches[i];
      var u := TeamMove(s, t, e);
      VisitOrPublish(s, b, t.cancelled);
      if b.pending == [] {
        assert u.branches[i].published == b.published;
        SamePublished(s, base, t.branches, u.branches);
      } else {
        forall j, id | 0 <= j < |u.branches| && Touches(u.branches[j].published, id)
          ensures SameAt(u.books, OwnBooks(s, base, u.branches[j]), id)
        {
          RecordedMove(s, base, t, i, b.pending[0], Move(s, b, t.cancelled), id);
        }
        forall id | Untouched(u.branches, id) ensures SameAt(u.books, base, id) {
          RecordedMove(s, base, t, i, b.pending[0], Move(s, b, t.cancelled), id);
        }
      }
    }
  }

  lemma SamePublished(s: Setting, base: Books, a: seq<Branch>, b: seq<Branch>)
    requires |a| == |b| && forall j :: 0 <= j < |a| ==> a[j].published == b[j].published
    ensures forall id :: Untouched(a, id) <==> Untouched(b, id)
    ensures forall j :: 0 <= j < |a| ==> OwnBooks(s, base, a[j]) == OwnBooks(s, base, b[j])
  {
    hide Touches, RecordAll;
  }

  /** With branches that complete no node in common, the recorded outcomes and hashes do
      not depend on the interleaving either. */
  lemma SameOutcomes(s: Setting, t: Team, one: seq<Event>, two: seq<Event>)
    requires !t.cancelled && Unpublished(t) && Complete(After(s, t, one)) && Complete(After(s, t, two))
    requires CancelAlike(one, two, |t.branches|) && Apart(After(s, t, one).branches)
    ensures After(s, t, one).books.outcomes == After(s, t, two).books.outcomes
    ensures After(s, t, one).books.hashes == After(s, t, two).books.hashes
  {
    hide After, SameAt, Touches;
    ScheduleDoesNotMatter(s, t, one, two);
    RecordedInEveryInterleaving(s, t, one);
    RecordedInEveryInterleaving(s, t, two);
    var a, b := After(s, t, one), After(s, t, two);
    forall id ensures SameAt(a.books, b.books, id) {
      if Untouched(a.branches, id) {
        SameThroughout(a.books, t.books, b.books, id);
      } else {
        var i :| 0 <= i < |a.branches| && Touches(a.branches[i].published, id);
        SameThroughout(a.books, OwnBooks(s, t.books, a.branches[i]), b.books, id);
      }
    }
    SameEverywhere(a.books, b.books);
  }

  lemma SameEverywhere(a: Books, b: Books)
    requires forall id :: SameAt(a, b, id)
    ensures a.outcomes == b.outcomes && a.hashes == b.hashes
  {
    assert forall id :: (SameAt(a, b, id) && id in a.outcomes) ==> id in b.outcomes && a.outcomes[id] == b.outcomes[id];
    assert forall id :: (SameAt(a, b, id) && id in b.outcomes) ==> id in a.outcomes;
    assert forall id :: (SameAt(a, b, id) && id in a.hashes) ==> id in b.hashes && a.hashes[id] == b.hashes[id];
    assert forall id :: (SameAt(a, b, id) && id in b.hashes) ==> id in a.hashes;
  }

  // ---- when branches are apart, and what happens when they are not ---------------------------------

  /** Everywhere but past the fan-in. */
  function Before(endId: string): string -> bool
  {
    (id: string) => id != endId
  }

  /** The nodes a branch from `start` can run: those reachable without crossing the end. */
  ghost predicate InBody(s: Setting, start: string, id: string)
  {
    id != s.endId && Reachable(s.graph, Before(s.endId), start, id)
  }

  /** What a handler records of subgraphs it runs itself, as a parallel or manager-loop stage
      does, are nodes reachable from its own without crossing the end. */
  ghost predicate RecordsInside(s: Setting)
  {
    forall n, ctx, k :: 0 <= k < |s.worker(n, ctx).records| ==> InBody(s, n.id, s.worker(n, ctx).records[k].node.id)
  }

  /** The branch stands on, and has completed, only nodes of its body. */
  ghost predicate Inside(s: Setting, start: string, b: Branch)
  {
    && (b.current.Some? ==> Reachable(s.graph, Before(s.endId), start, b.current.value.id))
    && (forall k :: 0 <= k < |b.pending| ==> InBody(s, start, b.pending[k].node.id))
    && forall k :: 0 <= k < |b.published| ==> InBody(s, start, b.published[k].node.id)
  }

  lemma StartsInside(s: Setting, start: string, ctx: Context)
    ensures Inside(s, start, Started(s.graph, start, ctx))
  {
    ReachableSelf(s.graph, Before(s.endId), start);
  }

  lemma NextInside(s: Setting, start: string, node: Node, o: Outcome, ctx: Context)
    requires InBody(s, start, node.id)
    ensures var next := Choice(s.config.read, Outgoing(s.graph.edges, node.id), o, ctx);
            next.Some? ==> Reachable(s.graph, Before(s.endId), start, next.value.to)
  {
    hide Choice, Reachable, Succ;
    var candidates := Outgoing(s.graph.edges, node.id);
    var next := Choice(s.config.read, candidates, o, ctx);
    ChoiceRespectsConditions(s.config.read, candidates, o, ctx);
    OutgoingMember(s.graph.edges, node.id);
    if next.Some? {
      SuccMember(s.graph, node.id, next.value.to);
      ReachableStep(s.graph, Before(s.endId), start, node.id, next.value.to);
    }
  }

  lemma RecordsInBody(s: Setting, start: string, node: Node, ctx: Context)
    requires RecordsInside(s) && InBody(s, start, node.id)
    ensures forall k :: 0 <= k < |s.worker(node, ctx).records| ==>
            InBody(s, start, s.worker(node, ctx).records[k].node.id)
  {
    hide Reachable;
    forall k | 0 <= k < |s.worker(node, ctx).records|
      ensures InBody(s, start, s.worker(node, ctx).records[k].node.id)
    {
      assert InBody(s, node.id, s.worker(node, ctx).records[k].node.id);
      ReachableThrough(s.graph, Before(s.endId), start, node.id, s.worker(node, ctx).records[k].node.id);
    }
  }

  lemma MovesInside(s: Setting, start: string, b: Branch, cancelled: bool)
    requires RecordsInside(s) && !s.inclusive && Inside(s, start, b)
    ensures Inside(s, start, Move(s, b, cancelled))
  {
    hide Visit, VisitEnd, InBody, Reachable;
    if b.pending == [] && b.result.None? && b.current.Some? && b.current.value.id != s.endId && !cancelled {
      VisitInside(s, start, b, b.current.value);
    }
  }

  lemma VisitInside(s: Setting, start: string, b: Branch, node: Node)
    requires RecordsInside(s) && Inside(s, start, b) && b.pending == [] && b.current == Some(node) && node.id != s.endId
    ensures Inside(s, start, Visit(s, b, node))
  {
    hide Choice, Reachable, ApplyUpdates, MaxRetries, RecordsInside;
    var w := s.worker(node, b.ctx);
    RecordsInBody(s, start, node, b.ctx);
    if w.reply.Replied? {
      NextInside(s, start, node, w.reply.outcome, ApplyUpdates(s.config, w.ctx, w.reply.outcome.contextUpdates));
    }
  }

  lemma {:induction false} StaysInside(s: Setting, start: string, b: Branch, moves: nat, cancelled: bool)
    requires RecordsInside(s) && !s.inclusive && Inside(s, start, b)
    ensures Inside(s, start, Alone(s, b, moves, cancelled))
  {
    hide Move, Inside, RecordsInside;
    if moves > 0 {
      StaysInside(s, start, b, moves - 1, cancelled);
      MovesInside(s, start, Alone(s, b, moves - 1, cancelled), cancelled);
    }
  }

  ghost predicate StartedAt(s: Setting, t: Team, starts: seq<string>)
  {
    |t.branches| == |starts| && forall i :: 0 <= i < |starts| ==> Inside(s, starts[i], t.branches[i])
  }

  ghost predicate BodiesDisjoint(s: Setting, starts: seq<string>)
  {
    forall i, j, id :: 0 <= i < j < |starts| && InBody(s, starts[i], id) ==> !InBody(s, starts[j], id)
  }

  /** Branches whose bodies share no node on the graph never complete the same node. */
  lemma DisjointBodiesStayApart(s: Setting, t: Team, starts: seq<string>, schedule: seq<Event>)
    requires RecordsInside(s) && !s.inclusive && !t.cancelled && StartedAt(s, t, starts) && BodiesDisjoint(s, starts)
    ensures Apart(After(s, t, schedule).branches)
  {
    hide Move, InBody, RecordsInside;
    BranchesRunAlone(s, t, schedule);
    var u := After(s, t, schedule);
    forall i, id | 0 <= i < |starts| && Touches(u.branches[i].published, id) ensures InBody(s, starts[i], id) {
      var before := TimesBefore(schedule, i);
      BeforeOrAfter(schedule, i);
      StaysInside(s, starts[i], t.branches[i], before, false);
      StaysInside(s, starts[i], Alone(s, t.branches[i], before, false), Times(schedule, i) - before, true);
    }
  }

  // ---- nodes that several branches complete --------------------------------------------------------

  function LastStatus(log: seq<Completion>, id: string): Option<StageStatus>
  {
    if log == [] then None
    else if log[|log| - 1].node.id == id then Some(log[|log| - 1].status)
    else LastStatus(log[..|log| - 1], id)
  }

  function OutcomeAt(b: Books, id: string): Option<StageStatus>
  {
    if id in b.outcomes then Some(b.outcomes[id]) else None
  }

  lemma LastStatusSnoc(log: seq<Completion>, x: Completion, id: string)
    ensures LastStatus(log + [x], id) == if x.node.id == id then Some(x.status) else LastStatus(log, id)
  {
    assert (log + [x])[..|log|] == log;
  }

  ghost predicate LastOfSome(branches: seq<Branch>, id: string, o: Option<StageStatus>)
  {
    exists i :: 0 <= i < |branches| && LastStatus(branches[i].published, id) == o
  }

  ghost predicate NoneOf(branches: seq<Branch>, id: string)
  {
    forall i :: 0 <= i < |branches| ==> LastStatus(branches[i].published, id) == None
  }

  /** What is recorded of a node is the last status of some branch that published it. */
  ghost predicate RecordedBySome(base: Books, t: Team, id: string)
  {
    if NoneOf(t.branches, id) then OutcomeAt(t.books, id) == OutcomeAt(base, id)
    else OutcomeAt(t.books, id).Some? && LastOfSome(t.branches, id, OutcomeAt(t.books, id))
  }

  lemma RecordedBySomeMove(s: Setting, base: Books, t: Team, e: Event, id: string)
    requires RecordedBySome(base, t, id)
    ensures RecordedBySome(base, TeamMove(s, t, e), id)
  {
    hide Move, LastStatus;
    if e.Runs? && e.branch < |t.branches| {
      var i := e.branch;
      var b, u := t.branches[i], TeamMove(s, t, e);
      VisitOrPublish(s, b, t.cancelled);
      assert forall j :: 0 <= j < |t.branches| && j != i ==> u.branches[j] == t.branches[j];
      if b.pending == [] {
        assert u.branches[i].published == b.published;
        assert forall j :: 0 <= j < |t.branches| ==> u.branches[j].published == t.branches[j].published;
        if !NoneOf(t.branches, id) {
          var j :| 0 <= j < |t.branches| && LastStatus(t.branches[j].published, id) == OutcomeAt(t.books, id);
          assert LastStatus(u.branches[j].published, id) == OutcomeAt(u.books, id);
        }
      } else {
        var x := b.pending[0];
        LastStatusSnoc(b.published, x, id);
        assert u.branches[i].published == b.published + [x];
        if x.node.id == id {
          assert LastStatus(u.branches[i].published, id) == OutcomeAt(u.books, id);
        } else {
          assert OutcomeAt(u.books, id) == OutcomeAt(t.books, id);
          assert forall j :: 0 <= j < |t.branches| ==>
                 LastStatus(u.branches[j].published, id) == LastStatus(t.branches[j].published, id);
          if !NoneOf(t.branches, id) {
            var j :| 0 <= j < |t.branches| && LastStatus(t.branches[j].published, id) == OutcomeAt(t.books, id);
            assert LastStatus(u.branches[j].published, id) == OutcomeAt(u.books, id);
          }
        }
      }
    }
  }

  lemma {:induction false} RecordedBySomeBranch(s: Setting, t: Team, schedule: seq<Event>, id: string)
    requires Unpublished(t)
    ensures RecordedBySome(t.books, After(s, t, schedule), id)
  {
    hide TeamMove, RecordedBySome;
    if schedule == [] {
      NothingPublished(t, id);
    } else {
      RecordedBySomeBranch(s, t, schedule[..|schedule| - 1], id);
      RecordedBySomeMove(s, t.books, After(s, t, schedule[..|schedule| - 1]), schedule[|schedule| - 1], id);
    }
  }

  lemma NothingPublished(t: Team, id: string)
    requires Unpublished(t)
    ensures RecordedBySome(t.books, t, id)
  {
  }

  lemma {:induction false} AfterConcat(s: Setting, t: Team, a: seq<Event>, b: seq<Event>)
    ensures After(s, t, a + b) == After(s, After(s, t, a), b)
  {
    hide TeamMove;
    if b == [] {
      assert a + b == a;
    } else {
      assert (a + b)[..|a + b| - 1] == a + b[..|b| - 1];
      AfterConcat(s, t, a, b[..|b| - 1]);
    }
  }

  /** All moves of the other branches. */
  function OthersFirst(schedule: seq<Event>, n: nat, i: nat): seq<Event>
  {
    if n == 0 then []
    else OthersFirst(schedule, n - 1, i) + if n - 1 == i then [] else Repeat(Times(schedule, n - 1), n - 1)
  }

  /** The moves of `schedule` with those of branch `i` at the end. */
  function EndingWith(schedule: seq<Event>, n: nat, i: nat): seq<Event>
  {
    OthersFirst(schedule, n, i) + Repeat(Times(schedule, i), i)
  }

  lemma {:induction false} OthersRun(schedule: seq<Event>, n: nat, i: nat)
    ensures Cancels !in OthersFirst(schedule, n, i)
  {
    hide Repeat, Times;
    if n > 0 {
      OthersRun(schedule, n - 1, i);
      RepeatRuns(Times(schedule, n - 1), n - 1);
    }
  }

  lemma {:induction false} OthersTimes(schedule: seq<Event>, n: nat, i: nat, k: nat)
    ensures Times(OthersFirst(schedule, n, i), k) == if k < n && k != i then Times(schedule, k) else 0
  {
    hide Repeat, Times;
    if n == 0 {
      NoTimes(k);
    } else {
      var front := OthersFirst(schedule, n - 1, i);
      OthersTimes(schedule, n - 1, i, k);
      if n - 1 == i {
        assert front + [] == front;
      } else {
        TimesConcat(front, Repeat(Times(schedule, n - 1), n - 1), k);
        TimesRepeat(Times(schedule, n - 1), n - 1, k);
      }
    }
  }

  lemma NoTimes(k: nat)
    ensures Times([], k) == 0
  {
  }

  lemma EndingTimes(schedule: seq<Event>, n: nat, i: nat, k: nat)
    requires i < n && k < n
    ensures Times(EndingWith(schedule, n, i), k) == Times(schedule, k)
    ensures Cancels !in EndingWith(schedule, n, i)
  {
    hide Repeat, OthersFirst;
    OthersRun(schedule, n, i);
    OthersTimes(schedule, n, i, k);
    RepeatRuns(Times(schedule, i), i);
    TimesConcat(OthersFirst(schedule, n, i), Repeat(Times(schedule, i), i), k);
    TimesRepeat(Times(schedule, i), i, k);
  }

  /** While only branch `i` moves, what it publishes is what is recorded. */
  lemma {:induction false} LastWord(s: Setting, t: Team, k: nat, i: nat, id: string)
    requires i < |t.branches| && t.branches[i].published == []
    ensures var u := After(s, t, Repeat(k, i));
            && |u.branches| == |t.branches|
            && OutcomeAt(u.books, id) == var o := LastStatus(u.branches[i].published, id);
               if o.Some? then o else OutcomeAt(t.books, id)
  {
    hide Move, LastStatus;
    var all := Repeat(k, i);
    if k == 0 {
      EmptyLog(id);
    } else {
      assert all[..k - 1] == Repeat(k - 1, i) && all[k - 1] == Runs(i);
      LastWord(s, t, k - 1, i, id);
      var v := After(s, t, Repeat(k - 1, i));
      var b := v.branches[i];
      VisitOrPublish(s, b, v.cancelled);
      assert After(s, t, all) == TeamMove(s, v, Runs(i));
      if b.pending == [] {
        assert TeamMove(s, v, Runs(i)).branches[i].published == b.published;
      } else {
        LastStatusSnoc(b.published, b.pending[0], id);
      }
    }
  }

  lemma EmptyLog(id: string)
    ensures LastStatus([], id) == None
  {
  }

  /** A branch whose moves come last has the last word on what it publishes. */
  lemma LastBranchDecides(s: Setting, t: Team, schedule: seq<Event>, i: nat, id: string)
    requires !t.cancelled && Unpublished(t) && Cancels !in schedule && Complete(After(s, t, schedule))
             && i < |t.branches|
    ensures var ending := EndingWith(schedule, |t.branches|, i); var branches := After(s, t, schedule).branches;
            && Cancels !in ending && Complete(After(s, t, ending)) && |branches| == |t.branches|
            && (LastStatus(branches[i].published, id).Some? ==>
                  OutcomeAt(After(s, t, ending).books, id) == LastStatus(branches[i].published, id))
  {
    hide Done, Move, LastStatus, OthersFirst, Repeat, After, Course;
    var n := |t.branches|;
    var others, ending := OthersFirst(schedule, n, i), EndingWith(schedule, n, i);
    forall k: nat | k < n ensures Times(ending, k) == Times(schedule, k) { EndingTimes(schedule, n, i, k); }
    EndingTimes(schedule, n, i, i);
    SameTimes(s, t, schedule, ending);
    OthersRun(schedule, n, i);
    OthersTimes(schedule, n, i, i);
    BranchesRunAlone(s, t, others);
    BranchesRunAlone(s, t, schedule);
    AfterConcat(s, t, others, Repeat(Times(schedule, i), i));
    assert After(s, t, others).branches[i] == t.branches[i];
    LastWord(s, After(s, t, others), Times(schedule, i), i, id);
  }

  /** All branches that published the node published the same status for it last. */
  ghost predicate Agreed(branches: seq<Branch>, id: string)
  {
    forall i, j :: 0 <= i < |branches| && 0 <= j < |branches|
                   && LastStatus(branches[i].published, id).Some? && LastStatus(branches[j].published, id).Some? ==>
      LastStatus(branches[i].published, id) == LastStatus(branches[j].published, id)
  }

  /** What is recorded of a node, shared or not, is the same under every interleaving
      exactly when the branches that complete it agree on its last status. */
  lemma SharedOutcomeExactly(s: Setting, t: Team, schedule: seq<Event>, id: string)
    requires !t.cancelled && Unpublished(t) && Cancels !in schedule && Complete(After(s, t, schedule))
    ensures (forall other: seq<Event> :: Cancels !in other && Complete(After(s, t, other)) ==>
               OutcomeAt(After(s, t, other).books, id) == OutcomeAt(After(s, t, schedule).books, id))
            <==> Agreed(After(s, t, schedule).branches, id)
  {
    hide After, Complete, LastStatus, EndingWith;
    var u := After(s, t, schedule);
    BranchesRunAlone(s, t, schedule);
    RecordedBySomeBranch(s, t, schedule, id);
    if Agreed(u.branches, id) {
      forall other: seq<Event> | Cancels !in other && Complete(After(s, t, other))
        ensures OutcomeAt(After(s, t, other).books, id) == OutcomeAt(u.books, id)
      {
        ScheduleDoesNotMatter(s, t, schedule, other);
        RecordedBySomeBranch(s, t, other, id);
      }
    } else {
      var i, j :| 0 <= i < |u.branches| && 0 <= j < |u.branches|
                  && LastStatus(u.branches[i].published, id).Some? && LastStatus(u.branches[j].published, id).Some?
                  && LastStatus(u.branches[i].published, id) != LastStatus(u.branches[j].published, id);
      LastBranchDecides(s, t, schedule, i, id);
      LastBranchDecides(s, t, schedule, j, id);
    }
  }
}
