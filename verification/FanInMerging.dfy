/** The cherry-pick merge of parallel branches: src/engine/fan_in_merger.cpp. The launch
    repository is any state that a cherry-pick changes, even when it fails. */
module FanInMerging {
  import opened Text
  import opened Graphs
  import opened Outcomes

  datatype Picked<R> = Picked(repo: R, ok: bool)

  /** The git commands the merge runs: one cherry-pick, and the commits of a worktree
      since the launch commit, oldest first. */
  datatype Git<!R> = Git(pick: (R, string) -> Picked<R>, log: string -> Option<seq<string>>)

  datatype Conflict = Conflict(branch: string, applied: seq<string>, pending: seq<string>)

  datatype Merge<R> =
    | Merged(repo: R)
    | Conflicted(repo: R, conflict: Conflict)
    | LogFailed(repo: R)

  function Worktree(ctx: Context, branch: string): string
  {
    Get(ctx, "needle.branch_worktree." + branch)
  }

  // ---- the order -----------------------------------------------------------------------------

  ghost predicate Ascending(s: seq<string>)
  {
    forall i, j :: 0 <= i < j < |s| ==> !Less(s[j], s[i])
  }

  function Inserted(s: seq<string>, x: string): seq<string>
  {
    if s == [] then [x]
    else if Less(s[|s| - 1], x) || s[|s| - 1] == x then s + [x]
    else Inserted(s[..|s| - 1], x) + [s[|s| - 1]]
  }

  function SortedList(s: seq<string>): seq<string>
  {
    if s == [] then [] else Inserted(SortedList(s[..|s| - 1]), s[|s| - 1])
  }

  lemma {:induction false} InsertedSorts(s: seq<string>, x: string)
    requires Ascending(s)
    ensures Ascending(Inserted(s, x)) && multiset(Inserted(s, x)) == multiset(s) + multiset{x}
  {
    if s != [] {
      var front, last := s[..|s| - 1], s[|s| - 1];
      assert s == front + [last];
      LessTotal(last, x);
      if Less(last, x) || last == x {
        forall i | 0 <= i < |s| ensures !Less(x, s[i]) {
          if Less(x, s[i]) { NotBeyond(x, s[i], last); }
        }
      } else {
        InsertedSorts(front, x);
        forall y | y in Inserted(front, x) ensures !Less(last, y) {
          assert y in multiset(Inserted(front, x));
        }
      }
    }
  }

  lemma NotBeyond(x: string, y: string, last: string)
    requires Less(x, y) && !Less(last, y)
    ensures Less(x, last)
  {
    LessTotal(y, last);
    if y != last { LessTransitive(x, y, last); }
  }

  lemma NothingAscends()
    ensures Ascending([])
  {
  }

  lemma {:induction false} SortedListSorts(s: seq<string>)
    ensures Ascending(SortedList(s)) && multiset(SortedList(s)) == multiset(s)
  {
    hide Ascending, Inserted;
    if |s| == 0 {
      NothingAscends();
    } else {
      SortedListSorts(s[..|s| - 1]);
      InsertedSorts(SortedList(s[..|s| - 1]), s[|s| - 1]);
      assert s == s[..|s| - 1] + [s[|s| - 1]];
    }
  }

  /** There is only one way to sort a list of names. */
  lemma {:induction false} AscendingUnique(a: seq<string>, b: seq<string>)
    requires Ascending(a) && Ascending(b) && multiset(a) == multiset(b)
    ensures a == b
  {
    hide Ascending;
    assert |a| == |multiset(a)| == |multiset(b)| == |b|;
    if |a| > 0 {
      var x, y := a[|a| - 1], b[|b| - 1];
      LastIsGreatest(a, y, b);
      LastIsGreatest(b, x, a);
      LessTotal(x, y);
      AscendingFront(a);
      AscendingFront(b);
      AscendingUnique(a[..|a| - 1], b[..|b| - 1]);
    }
  }

  lemma AscendingFront(a: seq<string>)
    requires Ascending(a) && |a| > 0
    ensures var front, x := a[..|a| - 1], a[|a| - 1];
            a == front + [x] && Ascending(front) && multiset(front) == multiset(a) - multiset{x}
  {
    assert a == a[..|a| - 1] + [a[|a| - 1]];
  }

  lemma LastIsGreatest(a: seq<string>, y: string, b: seq<string>)
    requires Ascending(a) && a != [] && y in b && multiset(a) == multiset(b)
    ensures !Less(a[|a| - 1], y)
  {
    assert y in multiset(a);
    var i :| 0 <= i < |a| && a[i] == y;
    LessTotal(y, y);
  }

  // ---- the merge -----------------------------------------------------------------------------

  /** The commits in order, up to the first that cannot be picked. */
  function PickAll<R>(git: Git<R>, repo: R, commits: seq<string>): Picked<R>
  {
    if commits == [] then Picked(repo, true)
    else
      var before := PickAll(git, repo, commits[..|commits| - 1]);
      if before.ok then git.pick(before.repo, commits[|commits| - 1]) else before
  }

  /** Where the merge stands after some branches. */
  datatype Progress<R> = Going(repo: R, applied: seq<string>) | Stopped(merge: Merge<R>)

  function Through<R>(git: Git<R>, ctx: Context, repo: R, ordered: seq<string>, n: nat): Progress<R>
    requires n <= |ordered|
  {
    if n == 0 then Going(repo, [])
    else
      var before := Through(git, ctx, repo, ordered, n - 1);
      var branch := ordered[n - 1];
      if before.Stopped? || Worktree(ctx, branch) == "" then before
      else
        var commits := git.log(Worktree(ctx, branch));
        if commits.None? then Stopped(LogFailed(before.repo))
        else
          var picked := PickAll(git, before.repo, commits.value);
          if picked.ok then Going(picked.repo, before.applied + [branch])
          else Stopped(Conflicted(picked.repo, Conflict(branch, before.applied, ordered[n..])))
  }

  function MergeSorted<R>(git: Git<R>, ctx: Context, repo: R, ordered: seq<string>): Merge<R>
  {
    match Through(git, ctx, repo, ordered, |ordered|)
    case Going(r, _) => Merged(r)
    case Stopped(m) => m
  }

  method PickCommits<R>(git: Git<R>, repo0: R, commits: seq<string>) returns (repo: R, ok: bool)
    ensures Picked(repo, ok) == PickAll(git, repo0, commits)
  {
    repo, ok := repo0, true;
    for k := 0 to |commits|
      invariant ok && Picked(repo, ok) == PickAll(git, repo0, commits[..k])
    {
      assert commits[..k + 1][..k] == commits[..k];
      var picked := git.pick(repo, commits[k]);
      repo := picked.repo;
      if !picked.ok {
        PicksStop(git, repo0, commits, k + 1);
        return repo, false;
      }
    }
    assert commits[..|commits|] == commits;
  }

  lemma {:induction false} PicksStop<R>(git: Git<R>, repo: R, commits: seq<string>, k: nat)
    requires k <= |commits| && !PickAll(git, repo, commits[..k]).ok
    ensures PickAll(git, repo, commits) == PickAll(git, repo, commits[..k])
    decreases |commits|
  {
    if k == |commits| {
      assert commits[..k] == commits;
    } else {
      assert commits[..|commits| - 1][..k] == commits[..k];
      PicksStop(git, repo, commits[..|commits| - 1], k);
    }
  }

  method MergeBranches<R>(git: Git<R>, ctx: Context, repo0: R, branchIds: seq<string>) returns (m: Merge<R>)
    ensures m == MergeSorted(git, ctx, repo0, SortedList(branchIds))
  {
    hide Worktree, PickAll, SortedList;
    var ordered := SortedList(branchIds);
    var repo, applied := repo0, [];
    for i := 0 to |ordered|
      invariant Going(repo, applied) == Through(git, ctx, repo0, ordered, i)
    {
      var branch := ordered[i];
      var wt := Worktree(ctx, branch);
      if wt != "" {
        var commits := git.log(wt);
        if commits.None? {
          StaysStopped(git, ctx, repo0, ordered, i + 1, |ordered|);
          return LogFailed(repo);
        }
        var next, ok := PickCommits(git, repo, commits.value);
        if !ok {
          StaysStopped(git, ctx, repo0, ordered, i + 1, |ordered|);
          return Conflicted(next, Conflict(branch, applied, ordered[i + 1..]));
        }
        repo, applied := next, applied + [branch];
      }
    }
    m := Merged(repo);
  }

  lemma {:induction false} StaysStopped<R>(git: Git<R>, ctx: Context, repo: R, ordered: seq<string>, m: nat, n: nat)
    requires m <= n <= |ordered| && Through(git, ctx, repo, ordered, m).Stopped?
    ensures Through(git, ctx, repo, ordered, n) == Through(git, ctx, repo, ordered, m)
    decreases n
  {
    if m < n { StaysStopped(git, ctx, repo, ordered, m, n - 1); }
  }

  // ---- what the merge guarantees ----------------------------------------------------------------

  /** The result does not depend on the order in which the branches are given. */
  lemma OrderDoesNotMatter<R>(git: Git<R>, ctx: Context, repo: R, a: seq<string>, b: seq<string>)
    requires multiset(a) == multiset(b)
    ensures MergeSorted(git, ctx, repo, SortedList(a)) == MergeSorted(git, ctx, repo, SortedList(b))
  {
    SortedListSorts(a);
    SortedListSorts(b);
    AscendingUnique(SortedList(a), SortedList(b));
  }

  function WithWorktree(ctx: Context, branches: seq<string>): seq<string>
  {
    if branches == [] then []
    else WithWorktree(ctx, branches[..|branches| - 1])
         + if Worktree(ctx, branches[|branches| - 1]) == "" then [] else [branches[|branches| - 1]]
  }

  /** All commits of the branches, in the order of the branches. */
  function CommitsOf<R>(git: Git<R>, ctx: Context, branches: seq<string>): seq<string>
  {
    if branches == [] then []
    else
      var last := branches[|branches| - 1];
      var own := if Worktree(ctx, last) == "" then None else git.log(Worktree(ctx, last));
      CommitsOf(git, ctx, branches[..|branches| - 1]) + if own.Some? then own.value else []
  }

  lemma {:induction false} PickConcat<R>(git: Git<R>, repo: R, a: seq<string>, b: seq<string>)
    requires PickAll(git, repo, a).ok
    ensures PickAll(git, repo, a + b) == PickAll(git, PickAll(git, repo, a).repo, b)
  {
    if b == [] {
      assert a + b == a;
    } else {
      assert (a + b)[..|a + b| - 1] == a + b[..|b| - 1];
      PickConcat(git, repo, a, b[..|b| - 1]);
    }
  }

  /** As long as nothing stopped it, the merge has picked every commit of every branch so
      far, in order, and lists the branches it applied. */
  lemma {:induction false} GoingPicksEverything<R>(git: Git<R>, ctx: Context, repo: R, ordered: seq<string>, n: nat)
    requires n <= |ordered| && Through(git, ctx, repo, ordered, n).Going?
    ensures var at := Through(git, ctx, repo, ordered, n);
            && PickAll(git, repo, CommitsOf(git, ctx, ordered[..n])) == Picked(at.repo, true)
            && at.applied == WithWorktree(ctx, ordered[..n])
  {
    hide Worktree;
    if n > 0 {
      assert ordered[..n][..n - 1] == ordered[..n - 1];
      GoingPicksEverything(git, ctx, repo, ordered, n - 1);
      var wt := Worktree(ctx, ordered[n - 1]);
      if wt != "" {
        PickConcat(git, repo, CommitsOf(git, ctx, ordered[..n - 1]), git.log(wt).value);
      } else {
        assert CommitsOf(git, ctx, ordered[..n]) == CommitsOf(git, ctx, ordered[..n - 1]);
        assert WithWorktree(ctx, ordered[..n]) == WithWorktree(ctx, ordered[..n - 1]);
      }
    }
  }

  /** A merge that succeeds has picked every commit of every branch that has a worktree,
      branches in name order. */
  lemma SuccessPicksEverything<R>(git: Git<R>, ctx: Context, repo: R, ordered: seq<string>)
    requires MergeSorted(git, ctx, repo, ordered).Merged?
    ensures PickAll(git, repo, CommitsOf(git, ctx, ordered)) == Picked(MergeSorted(git, ctx, repo, ordered).repo, true)
  {
    StoppedIsNotMerged(git, ctx, repo, ordered, |ordered|);
    GoingPicksEverything(git, ctx, repo, ordered, |ordered|);
    assert ordered[..|ordered|] == ordered;
  }

  lemma {:induction false} StoppedIsNotMerged<R>(git: Git<R>, ctx: Context, repo: R, ordered: seq<string>, n: nat)
    requires n <= |ordered|
    ensures Through(git, ctx, repo, ordered, n).Stopped? ==> !Through(git, ctx, repo, ordered, n).merge.Merged?
  {
    if n > 0 { StoppedIsNotMerged(git, ctx, repo, ordered, n - 1); }
  }

  /** The branches before, at and after a conflict. */
  ghost predicate Reports<R>(git: Git<R>, ctx: Context, repo: R, ordered: seq<string>, c: Conflict, after: R, i: nat)
  {
    && i < |ordered| && ordered[i] == c.branch && c.pending == ordered[i + 1..]
    && c.applied == WithWorktree(ctx, ordered[..i])
    && Worktree(ctx, c.branch) != "" && git.log(Worktree(ctx, c.branch)).Some?
    && PickAll(git, repo, CommitsOf(git, ctx, ordered[..i]) + git.log(Worktree(ctx, c.branch)).value)
       == Picked(after, false)
  }

  /** A conflict report names the branch at which picking stopped, those fully applied
      before it and all those after it; the repository is as the failed pick left it. */
  lemma {:induction false} ConflictReport<R>(git: Git<R>, ctx: Context, repo: R, ordered: seq<string>, n: nat)
    requires n <= |ordered| && Through(git, ctx, repo, ordered, n).Stopped?
    requires Through(git, ctx, repo, ordered, n).merge.Conflicted?
    ensures var m := Through(git, ctx, repo, ordered, n).merge;
            exists i :: Reports(git, ctx, repo, ordered, m.conflict, m.repo, i)
  {
    hide Worktree, CommitsOf, WithWorktree;
    var before := Through(git, ctx, repo, ordered, n - 1);
    var m := Through(git, ctx, repo, ordered, n).merge;
    if before.Stopped? {
      ConflictReport(git, ctx, repo, ordered, n - 1);
    } else {
      GoingPicksEverything(git, ctx, repo, ordered, n - 1);
      var commits := git.log(Worktree(ctx, ordered[n - 1])).value;
      PickConcat(git, repo, CommitsOf(git, ctx, ordered[..n - 1]), commits);
      assert Reports(git, ctx, repo, ordered, m.conflict, m.repo, n - 1);
    }
  }

  // ---- the conflicting files ------------------------------------------------------------------------

  /** A line of `git status --porcelain` for an unmerged file. */
  predicate IsConflict(line: string)
  {
    |line| >= 4 && (line[0] == 'U' || line[1] == 'U' || (line[0] == 'A' && line[1] == 'A')
                    || (line[0] == 'D' && line[1] == 'D'))
  }

  /** The files of the unmerged lines, in order and with repetitions. */
  function ConflictingFiles(lines: seq<string>): seq<string>
  {
    if lines == [] then []
    else
      var last := lines[|lines| - 1];
      ConflictingFiles(lines[..|lines| - 1]) + if IsConflict(last) then [last[3..]] else []
  }

  method ParseConflictingFiles(lines: seq<string>) returns (files: seq<string>)
    ensures files == ConflictingFiles(lines)
  {
    files := [];
    for k := 0 to |lines|
      invariant files == ConflictingFiles(lines[..k])
    {
      assert lines[..k + 1][..k] == lines[..k];
      if |lines[k]| >= 4 {
        var x, y := lines[k][0], lines[k][1];
        if x == 'U' || y == 'U' || (x == 'A' && y == 'A') || (x == 'D' && y == 'D') {
          files := files + [lines[k][3..]];
        }
      }
    }
    assert lines[..|lines|] == lines;
  }

  /** Whatever lines stand around it, a file is reported once for each of its unmerged
      lines and not for the others. */
  lemma {:induction false} ReportsCut(front: seq<string>, back: seq<string>)
    ensures ConflictingFiles(front + back) == ConflictingFiles(front) + ConflictingFiles(back)
  {
    if back == [] {
      assert front + back == front;
    } else {
      assert (front + back)[..|front + back| - 1] == front + back[..|back| - 1];
      ReportsCut(front, back[..|back| - 1]);
    }
  }

  lemma {:induction false} ConflictingFile(lines: seq<string>, f: string)
    ensures f in ConflictingFiles(lines) <==> exists i :: 0 <= i < |lines| && IsConflict(lines[i]) && lines[i][3..] == f
  {
    if lines != [] {
      var front, last := lines[..|lines| - 1], lines[|lines| - 1];
      ConflictingFile(front, f);
      if IsConflict(last) && last[3..] == f { assert lines[|lines| - 1] == last; }
      if i :| 0 <= i < |front| && IsConflict(front[i]) && front[i][3..] == f { assert lines[i] == front[i]; }
    }
  }
}
