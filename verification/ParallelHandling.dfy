/** ParallelHandler::execute around its threads: which branches are launched, how their
    results are merged and joined (src/handlers/parallel_handler.cpp), and how the fan-in
    handler reads the branch list back (src/handlers/fan_in_handler.cpp). */
module ParallelHandling {
  import opened Text
  import opened Graphs
  import opened Outcomes
  import opened EdgeSelection
  import opened Engine
  import opened EngineRuns
  import opened ParallelBranches
  import Separated

  // ---- before the threads ----------------------------------------------------------------------

  function StatusKey(target: string): string { "parallel." + target + ".status" }

  function OutputKey(target: string): string { "parallel." + target + ".output" }

  /** What the worktree manager makes of a branch; there is none unless worktrees are on. */
  datatype Setup = NoWorktree | WorktreeReady(path: string, gitBranch: string) | WorktreeFailed(message: string)

  datatype Plan =
    | Carried(outcome: Outcome)        // succeeded in an earlier run
    | Skipped                          // its worktree could not be set up
    | Launched(ctx: Context)

  predicate AlreadyDone(ctx: Context, target: string)
  {
    Get(ctx, StatusKey(target)) == "SUCCESS"
  }

  function PlanFor(c: Config, ctx: Context, target: string, setup: Setup): Plan
  {
    if AlreadyDone(ctx, target) then Carried(Outcome(SUCCESS, "", [], map[], Get(ctx, OutputKey(target))))
    else
      match setup
      case NoWorktree => Launched(ctx)
      case WorktreeFailed(_) => Skipped
      case WorktreeReady(path, gitBranch) =>
        Launched(Put(c, Put(c, Put(c, ctx, "needle.branch.cwd", path), "needle.branch.worktree", path),
                     "needle.branch.git_branch", gitBranch))
  }

  /** What setting up one branch adds to the updates of the parallel node. */
  function SetupUpdates(ctx: Context, target: string, setup: Setup): map<string, string>
  {
    if AlreadyDone(ctx, target) then map[]
    else
      match setup
      case NoWorktree => map[]
      case WorktreeReady(path, _) => map["needle.branch_worktree." + target := path]
      case WorktreeFailed(message) =>
        map[StatusKey(target) := "FAILURE", OutputKey(target) := message,
            "parallel." + target + ".annotation" := "worktree_setup_failed"]
  }

  function AllSetupUpdates(ctx: Context, first: map<string, string>, targets: seq<string>,
                           setups: seq<Setup>): map<string, string>
    requires |targets| == |setups|
  {
    if targets == [] then first
    else
      var n := |targets| - 1;
      AllSetupUpdates(ctx, first, targets[..n], setups[..n]) + SetupUpdates(ctx, targets[n], setups[n])
  }

  /** One turn of the loop that starts the threads. */
  method PlanBranch(c: Config, ctx: Context, target: string, setup: Setup, before: map<string, string>)
    returns (plan: Plan, updates: map<string, string>)
    ensures plan == PlanFor(c, ctx, target, setup) && updates == before + SetupUpdates(ctx, target, setup)
  {
    hide StatusKey, OutputKey;
    updates := before;
    if Get(ctx, StatusKey(target)) == "SUCCESS" {
      return Carried(Outcome(SUCCESS, "", [], map[], Get(ctx, OutputKey(target)))), updates;
    }
    var branchCtx := ctx;
    match setup {
      case NoWorktree =>
      case WorktreeFailed(message) =>
        var failed := map[StatusKey(target) := "FAILURE"];
        failed := failed[OutputKey(target) := message];
        failed := failed["parallel." + target + ".annotation" := "worktree_setup_failed"];
        return Skipped, updates + failed;
      case WorktreeReady(path, gitBranch) =>
        branchCtx := Put(c, branchCtx, "needle.branch.cwd", path);
        branchCtx := Put(c, branchCtx, "needle.branch.worktree", path);
        branchCtx := Put(c, branchCtx, "needle.branch.git_branch", gitBranch);
        updates := updates["needle.branch_worktree." + target := path];
    }
    plan := Launched(branchCtx);
  }

  /** A launched branch works on a clone of the run's context that differs at most in
      where the branch's worktree is. */
  lemma LaunchedContext(c: Config, ctx: Context, target: string, setup: Setup)
    requires PlanFor(c, ctx, target, setup).Launched?
    ensures var branchCtx := PlanFor(c, ctx, target, setup).ctx;
            && (forall key :: key in ctx ==> key in branchCtx)
            && (forall key :: key in branchCtx && !("needle.branch." <= key) ==>
                key in ctx && branchCtx[key] == ctx[key])
            && (setup.WorktreeReady? ==>
                  Get(branchCtx, "needle.branch.cwd") == Get(branchCtx, "needle.branch.worktree") == c.clip(setup.path)
                  && Get(branchCtx, "needle.branch.git_branch") == c.clip(setup.gitBranch))
  {
    hide AlreadyDone, OutputKey;
    assert "needle.branch." <= "needle.branch.cwd" && "needle.branch." <= "needle.branch.worktree"
           && "needle.branch." <= "needle.branch.git_branch";
    assert |"needle.branch.cwd"| == 17 && |"needle.branch.worktree"| == 22 && |"needle.branch.git_branch"| == 24;
  }

  method PlanBranches(c: Config, ctx: Context, launchCommit: string, targets: seq<string>, setups: seq<Setup>)
    returns (plans: seq<Plan>, updates: map<string, string>, anyFailure: bool)
    requires |targets| == |setups|
    ensures |plans| == |targets| && forall i :: 0 <= i < |targets| ==>
            plans[i] == PlanFor(c, ctx, targets[i], setups[i])
    ensures updates == AllSetupUpdates(ctx, FirstUpdates(launchCommit), targets, setups)
    ensures anyFailure <==> Skipped in plans
  {
    hide PlanFor, SetupUpdates, FirstUpdates;
    plans, updates, anyFailure := [], FirstUpdates(launchCommit), false;
    for i := 0 to |targets|
      invariant |plans| == i && forall j :: 0 <= j < i ==> plans[j] == PlanFor(c, ctx, targets[j], setups[j])
      invariant updates == AllSetupUpdates(ctx, FirstUpdates(launchCommit), targets[..i], setups[..i])
      invariant anyFailure <==> Skipped in plans
    {
      assert targets[..i + 1][..i] == targets[..i] && setups[..i + 1][..i] == setups[..i];
      var plan;
      plan, updates := PlanBranch(c, ctx, targets[i], setups[i], updates);
      if plan.Skipped? { anyFailure := true; }
      plans := plans + [plan];
    }
    assert targets[..|targets|] == targets && setups[..|targets|] == setups;
  }

  /** The launch commit is recorded the first time it is found. */
  function FirstUpdates(launchCommit: string): map<string, string>
  {
    if launchCommit == "" then map[] else map["needle.launch_commit" := launchCommit]
  }

  /** The thread of a branch, or what stands for it when there is none. */
  function BranchOf(g: Graph, start: string, plan: Plan): Branch
  {
    match plan
    case Launched(ctx) => Started(g, start, ctx)
    case Carried(o) => Branch(None, map[], map[], NO_OUTCOME, [], [], Some(Ok(o)))
    case Skipped => Branch(None, map[], map[], NO_OUTCOME, [], [], Some(Err(NotStarted)))
  }

  function BranchesOf(g: Graph, targets: seq<string>, plans: seq<Plan>): seq<Branch>
    requires |targets| == |plans|
  {
    seq(|targets|, i requires 0 <= i < |targets| => BranchOf(g, targets[i], plans[i]))
  }

  // ---- merging ------------------------------------------------------------------------------------

  /** The updates of a branch, each key prefixed with the branch's name. */
  function Namespaced(target: string, updates: map<string, string>): map<string, string>
  {
    NamespacedKeys(target, SortedKeys(updates.Keys), updates)
  }

  function NamespacedKeys(target: string, keys: seq<string>, updates: map<string, string>): map<string, string>
  {
    if keys == [] then map[]
    else
      var k := keys[|keys| - 1];
      NamespacedKeys(target, keys[..|keys| - 1], updates)[target + "." + k := Get(updates, k)]
  }

  function ResultUpdates(target: string, r: BranchResult): map<string, string>
  {
    match r
    case Err(_) => map[]
    case Ok(o) =>
      Namespaced(target, o.contextUpdates)[StatusKey(target) := StatusName(o.status)][OutputKey(target) := o.output]
  }

  function Merged(first: map<string, string>, targets: seq<string>, results: seq<BranchResult>): map<string, string>
    requires |targets| == |results|
  {
    if targets == [] then first
    else
      var n := |targets| - 1;
      Merged(first, targets[..n], results[..n]) + ResultUpdates(targets[n], results[n])
  }

  function Decimal(n: nat): (s: string)
    ensures s != "" && forall i :: 0 <= i < |s| ==> IsDigit(s[i])
    ensures DigitsValue(s) == n
  {
    var digit := ['0' + (n % 10) as char];
    if n < 10 then
      assert digit[..0] == "";
      digit
    else
      assert (Decimal(n / 10) + digit)[..|Decimal(n / 10)|] == Decimal(n / 10);
      Decimal(n / 10) + digit
  }

  function BranchList(targets: seq<string>): string { Separated.Joined(targets, ',') }

  function JoinPolicy(node: Node): string
  {
    if "join_policy" in node.attrs then node.attrs["join_policy"] else "wait_all"
  }

  function JoinThreshold(node: Node): int
  {
    var t := if "join_threshold" in node.attrs then ParseInt(node.attrs["join_threshold"]) else None;
    if t.Some? then t.value else 2
  }

  predicate Failed(r: BranchResult) { r.Err? || r.value.status == FAILURE }

  predicate Succeeded(r: BranchResult) { r.Ok? && r.value.status == SUCCESS }

  predicate Counts(r: BranchResult) { r.Ok? && (r.value.status == SUCCESS || r.value.status == PARTIAL_SUCCESS) }

  ghost function Successes(results: seq<BranchResult>): nat
  {
    if results == [] then 0
    else Successes(results[..|results| - 1]) + if Counts(results[|results| - 1]) then 1 else 0
  }

  /** The join succeeds under the node's policy. */
  ghost predicate JoinHolds(node: Node, results: seq<BranchResult>, setupFailed: bool)
  {
    if JoinPolicy(node) == "first_success" then exists r :: r in results && Succeeded(r)
    else if JoinPolicy(node) == "threshold" then Successes(results) >= JoinThreshold(node)
    else !setupFailed && forall r :: r in results ==> !Failed(r)
  }

  /** The keys of the join itself, written over those of the branches. */
  function WithJoinKeys(m: map<string, string>, node: Node, targets: seq<string>, fanIn: string): map<string, string>
  {
    m["parallel.fan_in_target" := fanIn]["parallel.branch_count" := Decimal(|targets|)]
     ["parallel.join_policy" := JoinPolicy(node)]["parallel.branches" := BranchList(targets)]
  }

  lemma PutAfterPlus(a: map<string, string>, b: map<string, string>, key: string, value: string)
    ensures (a + b)[key := value] == a + b[key := value]
  {
  }

  method MergeUpdates(target: string, o: Outcome, before: map<string, string>) returns (updates: map<string, string>)
    ensures updates == before + ResultUpdates(target, Ok(o))
  {
    hide StatusKey, OutputKey, StatusName, Get, SortedKeys;
    updates := before;
    var keys := SortedKeys(o.contextUpdates.Keys);
    for k := 0 to |keys|
      invariant updates == before + NamespacedKeys(target, keys[..k], o.contextUpdates)
    {
      assert keys[..k + 1][..k] == keys[..k];
      PutAfterPlus(before, NamespacedKeys(target, keys[..k], o.contextUpdates), target + "." + keys[k],
                   Get(o.contextUpdates, keys[k]));
      updates := updates[target + "." + keys[k] := Get(o.contextUpdates, keys[k])];
    }
    assert keys[..|keys|] == keys;
    var own := Namespaced(target, o.contextUpdates);
    PutAfterPlus(before, own, StatusKey(target), StatusName(o.status));
    PutAfterPlus(before, own[StatusKey(target) := StatusName(o.status)], OutputKey(target), o.output);
    updates := updates[StatusKey(target) := StatusName(o.status)];
    updates := updates[OutputKey(target) := o.output];
  }

  method Join(node: Node, results: seq<BranchResult>, setupFailed: bool) returns (status: StageStatus)
    ensures status == if JoinHolds(node, results, setupFailed) then SUCCESS else FAILURE
  {
    status := SUCCESS;
    var policy := JoinPolicy(node);
    if policy == "first_success" {
      var found := false;
      for i := 0 to |results|
        invariant found <==> exists j :: 0 <= j < i && Succeeded(results[j])
      {
        if Succeeded(results[i]) { found := true; }
      }
      if !found { status := FAILURE; }
    } else if policy == "threshold" {
      var count := 0;
      for i := 0 to |results|
        invariant count == Successes(results[..i])
      {
        assert results[..i + 1][..i] == results[..i];
        if Counts(results[i]) { count := count + 1; }
      }
      assert results[..|results|] == results;
      if count < JoinThreshold(node) { status := FAILURE; }
    } else {
      var anyFailure := setupFailed;
      for i := 0 to |results|
        invariant anyFailure <==> setupFailed || exists j :: 0 <= j < i && Failed(results[j])
      {
        if Failed(results[i]) { anyFailure := true; }
      }
      if anyFailure { status := FAILURE; }
    }
    hide JoinThreshold, Successes;
  }

  ghost function JoinOutcome(node: Node, targets: seq<string>, results: seq<BranchResult>, first: map<string, string>,
                             setupFailed: bool, fanIn: string): Outcome
    requires |targets| == |results|
  {
    Outcome(if JoinHolds(node, results, setupFailed) then SUCCESS else FAILURE, "", [],
            WithJoinKeys(Merged(first, targets, results), node, targets, fanIn), "")
  }

  method ListBranches(targets: seq<string>) returns (list: string)
    ensures list == BranchList(targets)
  {
    list := "";
    for i := 0 to |targets|
      invariant list == BranchList(targets[..i])
    {
      assert targets[..i + 1][..i] == targets[..i];
      if list != "" { list := list + ","; }
      list := list + targets[i];
    }
    assert targets[..|targets|] == targets;
  }

  method MergeBranches(node: Node, targets: seq<string>, results: seq<BranchResult>, first: map<string, string>,
                       setupFailed: bool, fanIn: string) returns (o: Outcome)
    requires |targets| == |results|
    ensures o == JoinOutcome(node, targets, results, first, setupFailed, fanIn)
  {
    hide ResultUpdates, JoinHolds, Decimal, JoinPolicy;
    var updates := first;
    for i := 0 to |results|
      invariant updates == Merged(first, targets[..i], results[..i])
    {
      assert targets[..i + 1][..i] == targets[..i] && results[..i + 1][..i] == results[..i];
      match results[i] {
        case Err(fault) => NothingMerged(targets[i], fault);
        case Ok(branchOutcome) => updates := MergeUpdates(targets[i], branchOutcome, updates);
      }
    }
    assert targets[..|results|] == targets && results[..|results|] == results;
    var status := Join(node, results, setupFailed);
    updates := updates["parallel.fan_in_target" := fanIn];
    updates := updates["parallel.branch_count" := Decimal(|targets|)];
    updates := updates["parallel.join_policy" := JoinPolicy(node)];
    var list := ListBranches(targets);
    updates := updates["parallel.branches" := list];
    o := Outcome(status, "", [], updates, "");
  }

  lemma NothingMerged(target: string, fault: Fault)
    ensures forall m: map<string, string> :: m + ResultUpdates(target, Err(fault)) == m
  {
  }

  // ---- the outcome does not depend on the interleaving ---------------------------------------------

  ghost function ResultsOf(t: Team): seq<BranchResult>
    requires Complete(t)
  {
    seq(|t.branches|, i requires 0 <= i < |t.branches| => t.branches[i].result.value)
  }

  /** The outcome of the parallel node once its threads have run by `schedule`. */
  ghost function ParallelOutcome(s: Setting, t: Team, schedule: seq<Event>, node: Node, targets: seq<string>,
                                 first: map<string, string>, setupFailed: bool): Outcome
    requires |t.branches| == |targets| && Complete(After(s, t, schedule))
  {
    TeamKeepsSize(s, t, schedule);
    JoinOutcome(node, targets, ResultsOf(After(s, t, schedule)), first, setupFailed, s.endId)
  }

  /** For every interleaving that finishes uncancelled, the merged updates and the join status equal
      those of running the branches one after another. */
  lemma MergeIsDeterministic(s: Setting, t: Team, schedule: seq<Event>, node: Node, targets: seq<string>,
                             first: map<string, string>, setupFailed: bool)
    requires |t.branches| == |targets| && Complete(After(s, t, schedule))
    requires !t.cancelled && Cancels !in schedule
    ensures var turns := OneByOne(schedule, |targets|);
            && Complete(After(s, t, turns))
            && ParallelOutcome(s, t, schedule, node, targets, first, setupFailed)
               == ParallelOutcome(s, t, turns, node, targets, first, setupFailed)
  {
    hide JoinOutcome, After;
    OneAfterAnother(s, t, schedule);
  }

  // ---- what the merge leaves to read ----------------------------------------------------------------

  /** An update of the branch `other` can land where `target`'s status or output is kept:
      the key is the branch's name, a dot and any text. */
  predicate Shadows(other: string, target: string)
  {
    other + "." <= StatusKey(target) || other + "." <= OutputKey(target)
  }

  /** The names that cast a shadow begin like the merge's own keys. */
  lemma ShadowsByName(other: string, target: string)
    ensures Shadows("parallel", target)
    ensures Shadows(other, target) ==> other == "parallel" || "parallel." <= other
  {
    assert "parallel" + "." == "parallel.";
    if Shadows(other, target) {
      var key := if other + "." <= StatusKey(target) then StatusKey(target) else OutputKey(target);
      assert key[|other|] == '.' && key[..9] == "parallel.";
      assert forall k :: 0 <= k < 8 ==> key[k] != '.';
      if |other| == 8 {
        assert other == key[..8] == "parallel";
      } else {
        assert other[..9] == key[..9];
      }
    }
  }

  /** A key of the merge names its branch and its last part. */
  lemma KeysApart(a: string, b: string, x: string, y: string)
    requires |x| == |y| && "parallel." + a + "." + x == "parallel." + b + "." + y
    ensures a == b && x == y
  {
    var s, t := "parallel." + a + "." + x, "parallel." + b + "." + y;
    assert |a| == |b|;
    assert s[9..9 + |a|] == a && t[9..9 + |b|] == b;
    assert s[10 + |a|..] == x && t[10 + |b|..] == y;
  }

  /** Status and output keys of different branches differ, and so do those of one. */
  lemma OwnKeysApart(a: string, b: string)
    ensures (StatusKey(a) == StatusKey(b) <==> a == b) && (OutputKey(a) == OutputKey(b) <==> a == b)
    ensures StatusKey(a) != OutputKey(b)
  {
    StatusKeyForm(a);
    StatusKeyForm(b);
    if StatusKey(a) == StatusKey(b) { KeysApart(a, b, "status", "status"); }
    if OutputKey(a) == OutputKey(b) { KeysApart(a, b, "output", "output"); }
    if StatusKey(a) == OutputKey(b) { KeysApart(a, b, "status", "output"); }
  }

  lemma StatusKeyForm(t: string)
    ensures StatusKey(t) == "parallel." + t + "." + "status" && OutputKey(t) == "parallel." + t + "." + "output"
  {
    assert ".status" == "." + "status" && ".output" == "." + "output";
  }

  lemma {:induction false} NamespacedKeysStart(target: string, keys: seq<string>, updates: map<string, string>,
                                               key: string)
    requires key in NamespacedKeys(target, keys, updates)
    ensures target + "." <= key
  {
    if keys != [] {
      var k := keys[|keys| - 1];
      if key != target + "." + k {
        NamespacedKeysStart(target, keys[..|keys| - 1], updates, key);
      }
    }
  }

  /** A branch writes no key of another that it does not shadow, and none without an
      outcome. */
  lemma WritesItsOwn(target: string, r: BranchResult, other: string)
    requires target != other && (r.Ok? ==> !Shadows(target, other))
    ensures StatusKey(other) !in ResultUpdates(target, r) && OutputKey(other) !in ResultUpdates(target, r)
  {
    hide NamespacedKeys, StatusKey, OutputKey, SortedKeys;
    OwnKeysApart(target, other);
    OwnKeysApart(other, target);
    if r.Ok? {
      var m := Namespaced(target, r.value.contextUpdates);
      var keys := SortedKeys(r.value.contextUpdates.Keys);
      if StatusKey(other) in m { NamespacedKeysStart(target, keys, r.value.contextUpdates, StatusKey(other)); }
      if OutputKey(other) in m { NamespacedKeysStart(target, keys, r.value.contextUpdates, OutputKey(other)); }
    }
  }

  lemma OwnKeys(target: string, r: BranchResult)
    requires r.Ok?
    ensures var m := ResultUpdates(target, r);
            && StatusKey(target) in m && m[StatusKey(target)] == StatusName(r.value.status)
            && OutputKey(target) in m && m[OutputKey(target)] == r.value.output
  {
    assert StatusKey(target)[|StatusKey(target)| - 6..] == "status";
    assert OutputKey(target)[|OutputKey(target)| - 6..] == "output";
    hide Namespaced, StatusName;
  }

  ghost predicate Distinct(targets: seq<string>)
  {
    forall i, j :: 0 <= i < j < |targets| ==> targets[i] != targets[j]
  }

  /** No later branch shadows branch `i`. */
  ghost predicate Unshadowed(targets: seq<string>, i: nat)
  {
    forall j :: i < j < |targets| ==> !Shadows(targets[j], targets[i])
  }

  predicate Readable(m: map<string, string>, target: string, o: Outcome)
  {
    && StatusKey(target) in m && m[StatusKey(target)] == StatusName(o.status)
    && OutputKey(target) in m && m[OutputKey(target)] == o.output
  }

  /** The two maps say the same of the branch's status and output. */
  predicate SameFor(m: map<string, string>, n: map<string, string>, target: string)
  {
    && (StatusKey(target) in m <==> StatusKey(target) in n)
    && (StatusKey(target) in m ==> m[StatusKey(target)] == n[StatusKey(target)])
    && (OutputKey(target) in m <==> OutputKey(target) in n)
    && (OutputKey(target) in m ==> m[OutputKey(target)] == n[OutputKey(target)])
  }

  /** The results from `n` on leave alone what is kept of a branch that is not among them
      and that they do not shadow. */
  lemma {:induction false} MergedKeeps(first: map<string, string>, targets: seq<string>, results: seq<BranchResult>,
                                       n: nat, other: string)
    requires |targets| == |results| && n <= |targets|
    requires forall j :: n <= j < |targets| ==> targets[j] != other && (results[j].Ok? ==> !Shadows(targets[j], other))
    ensures SameFor(Merged(first, targets, results), Merged(first, targets[..n], results[..n]), other)
    decreases |targets|
  {
    hide ResultUpdates, Shadows, StatusKey, OutputKey;
    if n == |targets| {
      assert targets[..n] == targets && results[..n] == results;
    } else {
      var m := |targets| - 1;
      assert targets[..m][..n] == targets[..n] && results[..m][..n] == results[..n];
      MergedKeeps(first, targets[..m], results[..m], n, other);
      WritesItsOwn(targets[m], results[m], other);
    }
  }

  /** After the merge, the status and output of a branch that no later one shadows can be
      read under its own name. */
  lemma BranchReadable(first: map<string, string>, targets: seq<string>, results: seq<BranchResult>, i: nat)
    requires |targets| == |results| && Distinct(targets) && i < |targets| && Unshadowed(targets, i) && results[i].Ok?
    ensures Readable(Merged(first, targets, results), targets[i], results[i].value)
  {
    hide ResultUpdates, StatusKey, OutputKey, StatusName, Shadows;
    assert targets[..i + 1][..i] == targets[..i] && results[..i + 1][..i] == results[..i];
    OwnKeys(targets[i], results[i]);
    MergedKeeps(first, targets, results, i + 1, targets[i]);
  }

  /** A branch without an outcome keeps what was recorded when it was set up, if no branch
      with an outcome shadows it. */
  lemma FailureKept(first: map<string, string>, targets: seq<string>, results: seq<BranchResult>, i: nat)
    requires |targets| == |results| && Distinct(targets) && i < |targets| && results[i].Err?
    requires forall j :: 0 <= j < |targets| && results[j].Ok? ==> !Shadows(targets[j], targets[i])
    ensures SameFor(Merged(first, targets, results), first, targets[i])
  {
    hide ResultUpdates, StatusKey, OutputKey, Shadows;
    assert targets[..i + 1][..i] == targets[..i] && results[..i + 1][..i] == results[..i];
    NothingMerged(targets[i], results[i].error);
    MergedKeeps(first, targets, results, i + 1, targets[i]);
    assert Merged(first, targets[..i + 1], results[..i + 1]) == Merged(first, targets[..i], results[..i]);
    MergedKeeps(first, targets[..i], results[..i], 0, targets[i]);
    assert targets[..i][..0] == [] && results[..i][..0] == [];
  }

  lemma {:induction false} ErrorsMergeNothing(first: map<string, string>, targets: seq<string>,
                                              results: seq<BranchResult>, n: nat)
    requires |targets| == |results| && n <= |targets| && forall j :: n <= j < |targets| ==> results[j].Err?
    ensures Merged(first, targets, results) == Merged(first, targets[..n], results[..n])
    decreases |targets|
  {
    hide ResultUpdates;
    if n == |targets| {
      assert targets[..n] == targets && results[..n] == results;
    } else {
      var m := |targets| - 1;
      assert targets[..m][..n] == targets[..n] && results[..m][..n] == results[..n];
      ErrorsMergeNothing(first, targets[..m], results[..m], n);
      NothingMerged(targets[m], results[m].error);
    }
  }

  /** The update of a branch that lands on a shadowed key. */
  lemma ShadowLands(other: string, target: string, key: string, o: Outcome)
    requires other != target && other + "." <= key && (key == StatusKey(target) || key == OutputKey(target))
    requires o.contextUpdates == map[key[|other| + 1..] := "x"]
    ensures var m := ResultUpdates(other, Ok(o)); key in m && m[key] == "x"
  {
    hide NamespacedKeys, StatusKey, OutputKey, StatusName, SortedKeys;
    var k := key[|other| + 1..];
    assert key == other + "." + k;
    assert k in o.contextUpdates;
    NamespacedKeysHold(other, SortedKeys(o.contextUpdates.Keys), o.contextUpdates, k);
    OwnKeysApart(other, target);
    OwnKeysApart(target, other);
  }

  /** Results in which branch `i` succeeds, branch `j` writes "x" under `k`, and the others
      have no outcome. */
  function Clash(n: nat, i: nat, j: nat, k: string): seq<BranchResult>
  {
    seq(n, m requires 0 <= m < n =>
      if m == i then Ok(NO_OUTCOME)
      else if m == j then Ok(Outcome(SUCCESS, "", [], map[k := "x"], ""))
      else Err(NotStarted))
  }

  lemma ShadowedCanBeLost(first: map<string, string>, targets: seq<string>, i: nat, j: nat)
    requires Distinct(targets) && i < j < |targets| && Shadows(targets[j], targets[i])
    ensures exists results: seq<BranchResult> :: |results| == |targets| && results[i].Ok?
              && !Readable(Merged(first, targets, results), targets[i], results[i].value)
  {
    hide ResultUpdates, StatusKey, OutputKey;
    var t := targets[i];
    var key := if targets[j] + "." <= StatusKey(t) then StatusKey(t) else OutputKey(t);
    var results := Clash(|targets|, i, j, key[|targets[j]| + 1..]);
    ShadowLands(targets[j], t, key, results[j].value);
    ErrorsMergeNothing(first, targets, results, j + 1);
    assert targets[..j + 1][..j] == targets[..j] && results[..j + 1][..j] == results[..j];
    assert Merged(first, targets, results)[key] == "x";
    assert StatusName(SUCCESS) != "x";
  }

  /** Exactly when a branch can be read back whatever the branches did: when no later
      branch shadows it. */
  lemma ReadableExactly(first: map<string, string>, targets: seq<string>, i: nat)
    requires Distinct(targets) && i < |targets|
    ensures (forall results: seq<BranchResult> :: |results| == |targets| && results[i].Ok? ==>
               Readable(Merged(first, targets, results), targets[i], results[i].value))
            <==> Unshadowed(targets, i)
  {
    hide Readable, Merged, Shadows;
    if Unshadowed(targets, i) {
      forall results: seq<BranchResult> | |results| == |targets| && results[i].Ok?
        ensures Readable(Merged(first, targets, results), targets[i], results[i].value)
      {
        BranchReadable(first, targets, results, i);
      }
    } else {
      var j :| i < j < |targets| && Shadows(targets[j], targets[i]);
      ShadowedCanBeLost(first, targets, i, j);
    }
  }

  /** The keys of the join itself are not keys of a branch. */
  lemma JoinKeysApart(m: map<string, string>, node: Node, targets: seq<string>, fanIn: string, t: string)
    ensures var u := WithJoinKeys(m, node, targets, fanIn);
            forall key :: key == StatusKey(t) || key == OutputKey(t) ==>
              (key in u <==> key in m) && (key in u ==> u[key] == m[key])
  {
    hide Decimal, JoinPolicy, BranchList;
    var s, o := StatusKey(t), OutputKey(t);
    assert s[|s| - 2] == 'u' && o[|o| - 2] == 'u' && s[|s| - 3] == 't' && o[|o| - 3] == 'p';
    var a, b, c, d := "parallel.fan_in_target", "parallel.branch_count", "parallel.join_policy", "parallel.branches";
    assert a[|a| - 2] == 'e' && b[|b| - 2] == 'n' && c[|c| - 2] == 'c' && d[|d| - 2] == 'e';
  }

  lemma {:induction false} NamespacedKeysHold(target: string, keys: seq<string>, updates: map<string, string>,
                                              k: string)
    requires k in keys
    ensures var m := NamespacedKeys(target, keys, updates);
            target + "." + k in m && m[target + "." + k] == Get(updates, k)
  {
    var last := keys[|keys| - 1];
    if last != k {
      assert k in keys[..|keys| - 1];
      NamespacedKeysHold(target, keys[..|keys| - 1], updates, k);
      assert (target + "." + last)[|target| + 1..] == last && (target + "." + k)[|target| + 1..] == k;
    }
  }

  // ---- running the node again -------------------------------------------------------------------------

  /** Status names are short enough for Context::set to store them as they are. */
  ghost predicate KeepsStatusNames(c: Config)
  {
    forall st: StageStatus :: c.clip(StatusName(st)) == StatusName(st)
  }

  /** The setup left nothing but failures under the status keys. */
  ghost predicate SetupRecords(first: map<string, string>, targets: seq<string>)
  {
    forall t :: t in targets && StatusKey(t) in first ==> first[StatusKey(t)] == "FAILURE"
  }

  /** That is what setting the branches up leaves. */
  lemma {:induction false} SetupRecordsHold(ctx: Context, launchCommit: string, targets: seq<string>,
                                            setups: seq<Setup>, among: seq<string>)
    requires |targets| == |setups|
    ensures SetupRecords(AllSetupUpdates(ctx, FirstUpdates(launchCommit), targets, setups), among)
  {
    hide AlreadyDone;
    if targets == [] {
      assert forall t :: StatusKey(t)[0] == 'p';
      assert "needle.launch_commit"[0] == 'n';
    } else {
      var n := |targets| - 1;
      SetupRecordsHold(ctx, launchCommit, targets[..n], setups[..n], among);
      forall t ensures StatusKey(t) in SetupUpdates(ctx, targets[n], setups[n]) ==>
        SetupUpdates(ctx, targets[n], setups[n])[StatusKey(t)] == "FAILURE" {
        SetupRecordsOne(ctx, targets[n], setups[n], t);
      }
    }
  }

  lemma SetupRecordsOne(ctx: Context, target: string, setup: Setup, t: string)
    ensures var m := SetupUpdates(ctx, target, setup); StatusKey(t) in m ==> m[StatusKey(t)] == "FAILURE"
  {
    OwnKeysApart(t, target);
    assert StatusKey(t)[0] == 'p' && ("needle.branch_worktree." + target)[0] == 'n';
    var annotation := "parallel." + target + ".annotation";
    assert annotation[|annotation| - 1] == 'n' && StatusKey(t)[|StatusKey(t)| - 1] == 's';
    hide AlreadyDone, StatusKey, OutputKey;
  }

  lemma NameOfSuccess(st: StageStatus)
    ensures StatusName(st) == "SUCCESS" <==> st == SUCCESS
  {
  }

  /** When the node runs again after its updates were applied, it carries exactly the
      branches that had succeeded, with their outputs, and launches the others. */
  lemma RerunCarriesTheSuccesses(c: Config, ctx: Context, node: Node, targets: seq<string>, results: seq<BranchResult>,
                                 first: map<string, string>, setupFailed: bool, fanIn: string, i: nat)
    requires |targets| == |results| && Distinct(targets) && i < |targets| && Unshadowed(targets, i)
    requires results[i].Err? ==> forall j :: 0 <= j < i && results[j].Ok? ==> !Shadows(targets[j], targets[i])
    requires KeepsStatusNames(c) && SetupRecords(first, targets)
    requires AlreadyDone(ctx, targets[i]) ==> Succeeded(results[i])
    ensures var o := JoinOutcome(node, targets, results, first, setupFailed, fanIn);
            var ctx' := ApplyUpdates(c, ctx, o.contextUpdates);
            && (AlreadyDone(ctx', targets[i]) <==> Succeeded(results[i]))
            && (Succeeded(results[i]) ==> Get(ctx', OutputKey(targets[i])) == c.clip(results[i].value.output))
  {
    hide Merged, WithJoinKeys, StatusKey, OutputKey, JoinHolds, Shadows;
    var t := targets[i];
    if results[i].Ok? { BranchReadable(first, targets, results, i); } else { FailureKept(first, targets, results, i); }
    JoinKeysApart(Merged(first, targets, results), node, targets, fanIn, t);
    var updates := JoinOutcome(node, targets, results, first, setupFailed, fanIn).contextUpdates;
    var ctx' := ApplyUpdates(c, ctx, updates);
    if results[i].Ok? {
      var st := results[i].value.status;
      NameOfSuccess(st);
      assert updates[StatusKey(t)] == StatusName(st) && c.clip(StatusName(st)) == StatusName(st);
      assert ctx'[StatusKey(t)] == StatusName(st);
    } else if StatusKey(t) in first {
      assert updates[StatusKey(t)] == "FAILURE" == StatusName(FAILURE);
      assert c.clip(StatusName(FAILURE)) == "FAILURE";
      assert ctx'[StatusKey(t)] == "FAILURE";
    } else {
      assert StatusKey(t) !in updates;
      assert AlreadyDone(ctx', t) <==> AlreadyDone(ctx, t);
    }
  }

  // ---- the order of the branches ---------------------------------------------------------------------

  lemma {:induction false} CountRemoved(results: seq<BranchResult>, k: nat)
    requires k < |results|
    ensures Successes(results) == Successes(results[..k] + results[k + 1..]) + if Counts(results[k]) then 1 else 0
  {
    var n := |results| - 1;
    var rest := results[..k] + results[k + 1..];
    if k == n {
      assert rest == results[..n];
    } else {
      CountRemoved(results[..n], k);
      assert rest[..n - 1] == results[..n][..k] + results[..n][k + 1..];
      assert rest[n - 1] == results[n];
    }
  }

  lemma {:induction false} CountPermuted(a: seq<BranchResult>, b: seq<BranchResult>)
    requires multiset(a) == multiset(b)
    ensures Successes(a) == Successes(b)
    decreases |a|
  {
    hide Counts, Successes;
    if |a| == 0 {
      assert |multiset(b)| == 0;
      assert b == [] == a;
    } else {
      var r := a[0];
      assert r in multiset(b);
      var k :| 0 <= k < |b| && b[k] == r;
      Without(a, 0);
      Without(b, k);
      CountPermuted(a[..0] + a[1..], b[..k] + b[k + 1..]);
      CountRemoved(a, 0);
      CountRemoved(b, k);
    }
  }

  lemma Without(s: seq<BranchResult>, k: nat)
    requires k < |s|
    ensures multiset(s[..k] + s[k + 1..]) == multiset(s) - multiset{s[k]}
  {
    assert s == s[..k] + [s[k]] + s[k + 1..];
  }

  /** Whether the join holds does not depend on the order of the branches. */
  lemma JoinIgnoresOrder(node: Node, a: seq<BranchResult>, b: seq<BranchResult>, setupFailed: bool)
    requires multiset(a) == multiset(b)
    ensures JoinHolds(node, a, setupFailed) == JoinHolds(node, b, setupFailed)
  {
    hide Successes, JoinPolicy, JoinThreshold;
    forall r ensures r in a <==> r in b { assert r in a <==> r in multiset(a); }
    CountPermuted(a, b);
  }

  // ---- reading the branch list back --------------------------------------------------------------------

  /** parse_branches of the fan-in handler: the non-empty fields between commas. */
  method ParseBranches(list: string) returns (branches: seq<string>)
    ensures branches == Separated.Fields(list, ',')
  {
    branches := Separated.SplitFields(list, ',');
  }

  /** The fan-in handler reads the branches the parallel handler listed exactly when none
      has an empty name or one with a comma; ids of built graphs have no comma. */
  lemma BranchListBack(targets: seq<string>)
    ensures Separated.Fields(BranchList(targets), ',') == targets
            <==> forall i :: 0 <= i < |targets| ==> targets[i] != "" && ',' !in targets[i]
  {
    Separated.FieldsOfJoined(targets, ',');
    assert forall i :: 0 <= i < |targets| ==>
           (Separated.Plain(targets[i], ',') <==> targets[i] != "" && ',' !in targets[i]);
  }

  /** A branch whose id sanitizes to "" is lost from the list. */
  lemma NamelessBranchDropped(target: string)
    requires target != "" && ',' !in target
    ensures Separated.Fields(BranchList([target, ""]), ',') == [target]
  {
    Separated.NonEmptyFieldsBack([target, ""], ',');
    assert [target, ""][..1] == [target] && [target][..0] == [];
    assert Separated.NonEmpty([target]) == [target];
  }
}
