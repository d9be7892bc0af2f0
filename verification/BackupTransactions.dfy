/** What a captured session guarantees: capture leaves no branch behind when it fails, and
    rollback either restores the captured commit or touches nothing. */
module BackupTransactions {
  import opened Text
  import opened TextLines
  import opened TroubleshootBackup

  // ---- capture --------------------------------------------------------------------------------

  /** A capture that fails after creating its branch deletes it again. */
  lemma FailedCaptureLeavesNoBranch(p: Project, ok: Oracle, projectDir: string, branch: string)
    requires Capture(p, ok, projectDir, branch).result.Err?
    ensures ok(DeleteBranch) ==> Capture(p, ok, projectDir, branch).project.repo == p.repo
    ensures var r := Capture(p, ok, projectDir, branch).project.repo;
            r == p.repo || (branch !in p.repo.branches
                            && r == p.repo.(branches := p.repo.branches[branch := HeadSha(p.repo).value]))
  {
    hide TakeSnapshot, StoreAll, SessionArtifacts;
    var r := p.repo;
    if HeadSha(r).Some? && branch !in r.branches {
      var r' := r.(branches := r.branches[branch := HeadSha(r).value]);
      assert r'.branches - {branch} == r.branches;
      assert r.head != OnBranch(branch);
    }
  }

  ghost predicate PlainSet(s: set<string>)
  {
    forall p :: p in s ==> Plain(p)
  }

  /** Names git prints as they are come back as they were listed, in order. */
  lemma ListedPlain(s: set<string>)
    requires PlainSet(s)
    ensures Listed(s) == SortedKeys(s) && AllPlain(Listed(s)) && forall p :: p in Listed(s) <==> p in s
  {
    hide Plain, Split, Stripped, Written;
    forall i | 0 <= i < |SortedKeys(s)| ensures Plain(SortedKeys(s)[i]) {
      assert SortedKeys(s)[i] in SortedKeys(s);
    }
    SplitBack(SortedKeys(s));
  }

  /** The session as a successful capture leaves it. */
  ghost predicate Recorded(session: map<string, string>, info: BackupInfo, untracked: seq<string>, agent: seq<string>)
  {
    && BASE in session && session[BASE] == Written([info.baseSha])
    && UNTRACKED in session && session[UNTRACKED] == Written(untracked)
    && BACKUP in session && session[BACKUP] == Written([info.branch])
    && CURRENT in session && session[CURRENT] == Written([info.currentBranch])
    && MODIFIED in session && session[MODIFIED] == Written(info.preModified)
    && AGENT in session && session[AGENT] == Written(agent)
  }

  lemma NamesDiffer()
    ensures BASE != UNTRACKED && BASE != BACKUP && BASE != CURRENT && BASE != MODIFIED && BASE != AGENT
    ensures UNTRACKED != BACKUP && UNTRACKED != CURRENT && UNTRACKED != MODIFIED && UNTRACKED != AGENT
    ensures BACKUP != CURRENT && BACKUP != MODIFIED && BACKUP != AGENT
    ensures CURRENT != MODIFIED && CURRENT != AGENT && MODIFIED != AGENT
  {
    assert |BASE| == 15 && |UNTRACKED| == 17 && |BACKUP| == 17 && |CURRENT| == 18 && |MODIFIED| == 16 && |AGENT| == 18;
    assert UNTRACKED[0] == 'p' && BACKUP[0] == 'b' && CURRENT[0] == 'c' && AGENT[0] == 'a';
  }

  lemma StoreStep(session: map<string, string>, ok: Oracle, files: seq<Artifact>, last: Artifact)
    requires StoreAll(session, ok, files + [last]).failed.None?
    ensures StoreAll(session, ok, files).failed.None?
    ensures StoreAll(session, ok, files + [last]).session
            == StoreAll(session, ok, files).session[last.name := Written(last.lines)]
  {
    assert (files + [last])[..|files|] == files;
    hide Written;
  }

  lemma SixStored(session: map<string, string>, ok: Oracle, a: Artifact, b: Artifact, c: Artifact, d: Artifact,
                  e: Artifact, f: Artifact)
    requires StoreAll(session, ok, [a, b, c, d, e, f]).failed.None?
    ensures StoreAll(session, ok, [a, b, c, d, e, f]).session ==
            session[a.name := Written(a.lines)][b.name := Written(b.lines)][c.name := Written(c.lines)]
                   [d.name := Written(d.lines)][e.name := Written(e.lines)][f.name := Written(f.lines)]
  {
    hide StoreAll, Written;
    assert [a, b, c, d, e, f] == [a, b, c, d, e] + [f];
    StoreStep(session, ok, [a, b, c, d, e], f);
    assert [a, b, c, d, e] == [a, b, c, d] + [e];
    StoreStep(session, ok, [a, b, c, d], e);
    assert [a, b, c, d] == [a, b, c] + [d];
    StoreStep(session, ok, [a, b, c], d);
    assert [a, b, c] == [a, b] + [c];
    StoreStep(session, ok, [a, b], c);
    assert [a, b] == [a] + [b];
    StoreStep(session, ok, [a], b);
    assert [a] == [] + [a];
    StoreStep(session, ok, [], a);
    NothingStored(session, ok);
  }

  lemma NothingStored(session: map<string, string>, ok: Oracle)
    ensures StoreAll(session, ok, []) == Stored(session, None)
  {
  }

  /** A capture that succeeds adds its branch at the current commit, changes nothing else
      in the repository, and records the state of the project. */
  lemma SuccessfulCapture(p: Project, ok: Oracle, projectDir: string, branch: string)
    requires Capture(p, ok, projectDir, branch).result.Ok?
    ensures var c := Capture(p, ok, projectDir, branch); var info := c.result.value; var r := c.project.repo;
            && branch !in p.repo.branches && HeadSha(p.repo) == Some(info.baseSha)
            && r == p.repo.(branches := p.repo.branches[branch := info.baseSha])
            && IsValidSha(info.baseSha) && info.baseSha in r.commits
            && BranchState(r, ok, info.baseSha) == Ok(info.currentBranch) && info.branch == branch
            && info.preModified == Listed(Changed(r, info.baseSha))
            && Recorded(c.project.session, info, Listed(Untracked(r)), [])
  {
    hide StoreAll, Listed, Untracked, Changed, BranchState, IsValidSha, Written;
    var c := Capture(p, ok, projectDir, branch);
    var info, r := c.result.value, c.project.repo;
    var snap := TakeSnapshot(r, ok, info.baseSha).value;
    NamesDiffer();
    SixStored(p.session, ok, Artifact(BASE, [info.baseSha]), Artifact(UNTRACKED, snap.untracked),
              Artifact(BACKUP, [branch]),
              Artifact(CURRENT, [snap.currentBranch]), Artifact(MODIFIED, snap.modified), Artifact(AGENT, []));
  }

  // ---- rollback -----------------------------------------------------------------------------------

  /** A rollback that is refused has touched nothing; one that succeeds leaves the tracked
      files equal to the recorded commit, the current branch on it, and other files as
      they were. */
  lemma RollbackRestoresOrRefuses(p: Project, ok: Oracle, projectDir: string)
    ensures var b := Rollback(p, ok, projectDir);
            if b.result.Err? then b.project == p
            else
              var r := b.project.repo; var base := b.result.value.baseSha;
              && b.project.session == p.session
              && base == FirstOf(p.session, ok, BASE) && base in r.commits && r.commits == p.repo.commits
              && TrackedFiles(r) == r.commits[base] && r.tracked == r.commits[base].Keys && HeadSha(r) == Some(base)
              && (forall f :: f in p.repo.work && f !in p.repo.tracked && f !in r.commits[base] ==>
                    f in r.work && r.work[f] == p.repo.work[f])
              && (forall f :: f in r.work ==> f in r.commits[base] || (f in p.repo.work && f !in p.repo.tracked))
  {
    hide ReadRecords, Cleared, Listed, NotAmong, FirstOf;
    var b := Rollback(p, ok, projectDir);
    if b.result.Ok? {
      BaseIsRecorded(p.session, ok);
      var base := b.result.value.baseSha;
      ResetRestores(p.repo, base);
      var r := ResetHard(p.repo, base);
      var branch := b.result.value.branch;
      DroppingBranch(r, ok, branch);
    }
  }

  lemma BaseIsRecorded(session: map<string, string>, ok: Oracle)
    ensures var rec := ReadRecords(session, ok); rec.Ok? ==> rec.value.base == FirstOf(session, ok, BASE)
  {
    hide FirstOf, LinesOf;
  }

  lemma ResetRestores(r: Repo, base: string)
    requires base in r.commits
    ensures var r' := ResetHard(r, base); TrackedFiles(r') == r.commits[base] && HeadSha(r') == Some(base)
  {
  }

  lemma DroppingBranch(r: Repo, ok: Oracle, branch: string)
    ensures var r' := WithoutBranch(r, ok, branch);
            && r' == r.(branches := r'.branches) && HeadSha(r') == HeadSha(r) && TrackedFiles(r') == TrackedFiles(r)
  {
  }

  lemma {:induction false} AmongMember(names: seq<string>, allowed: seq<string>)
    ensures forall x :: x in Among(names, allowed) <==> x in names && x in allowed
    ensures forall x :: x in NotAmong(names, allowed) <==> x in names && x !in allowed
  {
    if names != [] {
      var front, last := names[..|names| - 1], names[|names| - 1];
      AmongMember(front, allowed);
      assert names == front + [last];
    }
  }

  lemma NoneOutside(names: seq<string>, allowed: seq<string>)
    ensures NotAmong(names, allowed) == [] <==> forall x :: x in names ==> x in allowed
  {
    AmongMember(names, allowed);
    var outside := NotAmong(names, allowed);
    if outside != [] { assert outside[0] in outside; }
  }

  /** A session as written after a capture and a recording of the agent's changes, all of
      it readable. */
  ghost predicate Readable(session: map<string, string>, info: BackupInfo, untracked: seq<string>, agent: seq<string>)
  {
    && Recorded(session, info, untracked, agent)
    && IsValidSha(info.baseSha) && Plain(info.branch) && Plain(info.currentBranch)
    && AllPlain(untracked) && AllPlain(info.preModified) && AllPlain(agent)
  }

  ghost predicate AllSucceed(ok: Oracle) { forall call: Call :: ok(call) }

  lemma ValidShaIsPlain(sha: string)
    requires IsValidSha(sha)
    ensures Plain(sha)
  {
  }

  lemma RecordsBack(session: map<string, string>, ok: Oracle, info: BackupInfo, untracked: seq<string>,
                    agent: seq<string>)
    requires Readable(session, info, untracked, agent) && AllSucceed(ok)
    ensures ReadRecords(session, ok) == Ok(Records(info.baseSha, info.branch, false, info.currentBranch, untracked,
                                                   info.preModified))
    ensures LinesOf(session, ok, AGENT) == Some(agent)
  {
    hide Written, FirstLine, Lines, IsValidSha;
    ValidShaIsPlain(info.baseSha);
    FirstLineBack(info.baseSha);
    FirstLineBack(info.branch);
    FirstLineBack(info.currentBranch);
    LinesBack(untracked);
    LinesBack(info.preModified);
    LinesBack(agent);
    assert ok(ReadFile(BASE)) && ok(ReadFile(BACKUP)) && ok(ReadFile(CURRENT));
    assert ok(ReadFile(UNTRACKED)) && ok(ReadFile(MODIFIED)) && ok(ReadFile(AGENT));
    assert Missing(session) == [];
  }

  /** What the operator and the agent have to leave as it was: the branch, and every
      tracked file not recorded as changed. */
  ghost predicate Unspoiled(p: Project, ok: Oracle, info: BackupInfo, agent: seq<string>)
  {
    && HeadSha(p.repo).Some? && HeadSha(p.repo).value in p.repo.commits
    && BranchState(p.repo, ok, "") == Ok(info.currentBranch)
    && forall f :: f in Changed(p.repo, HeadSha(p.repo).value) ==> f in info.preModified || f in agent
  }

  /** With git working, a rollback of a recorded session succeeds exactly when the branch
      is the recorded one and every dirty file is recorded, before the agent or by it. */
  lemma RollbackExactly(p: Project, ok: Oracle, projectDir: string, info: BackupInfo, untracked: seq<string>,
                        agent: seq<string>)
    requires projectDir != "" && AllSucceed(ok) && Readable(p.session, info, untracked, agent)
    requires info.baseSha in p.repo.commits
    requires HeadSha(p.repo).Some? && HeadSha(p.repo).value in p.repo.commits ==>
             PlainSet(Changed(p.repo, HeadSha(p.repo).value))
    ensures Rollback(p, ok, projectDir).result.Ok? <==> Unspoiled(p, ok, info, agent)
  {
    hide ReadRecords, LinesOf, Listed, Changed, BranchState, HeadSha, NotAmong, Among, ResetHard, Untracked, Readable;
    RecordsBack(p.session, ok, info, untracked, agent);
    assert AGENT in p.session by {
      assert Readable(p.session, info, untracked, agent);
      HasAgent(p.session, info, untracked, agent);
    }
    assert ok(OpenRepository) && ok(DiffNames) && ok(Reset);
    if HeadSha(p.repo).Some? && HeadSha(p.repo).value in p.repo.commits {
      var dirty := Changed(p.repo, HeadSha(p.repo).value);
      ListedPlain(dirty);
      NoneOutside(Listed(dirty), info.preModified + agent);
    }
  }

  lemma HasAgent(session: map<string, string>, info: BackupInfo, untracked: seq<string>, agent: seq<string>)
    requires Readable(session, info, untracked, agent)
    ensures AGENT in session
  {
  }

  /** The drift reported is exactly the untracked files that were absent at capture, and
      the lost edits are the recorded ones that were still dirty. */
  lemma ReportExactly(p: Project, ok: Oracle, projectDir: string, info: BackupInfo, untracked: seq<string>,
                      agent: seq<string>,
                      head: string, report: RollbackReport)
    requires AllSucceed(ok) && Readable(p.session, info, untracked, agent)
    requires Rollback(p, ok, projectDir).result == Ok(report)
    requires info.baseSha in p.repo.commits && HeadSha(p.repo) == Some(head) && head in p.repo.commits
    requires PlainSet(Untracked(ResetHard(p.repo, info.baseSha))) && PlainSet(Changed(p.repo, head))
    ensures forall f ::
              f in report.untrackedDrift <==> f in Untracked(ResetHard(p.repo, info.baseSha)) && f !in untracked
    ensures forall f :: f in report.resetPreModified <==> f in info.preModified && f in Changed(p.repo, head)
  {
    hide Rollback, Listed, Changed, HeadSha, NotAmong, Among, ResetHard, Untracked, Readable, PlainSet, AllPlain;
    ReportedLists(p, ok, projectDir, info, untracked, agent, head, report);
    var now := Untracked(ResetHard(p.repo, info.baseSha));
    ListedPlain(now);
    ListedPlain(Changed(p.repo, head));
    AmongMember(Listed(now), untracked);
    AmongMember(Listed(Changed(p.repo, head)), info.preModified);
  }

  lemma ReportedLists(p: Project, ok: Oracle, projectDir: string, info: BackupInfo, untracked: seq<string>,
                      agent: seq<string>,
                      head: string, report: RollbackReport)
    requires AllSucceed(ok) && Readable(p.session, info, untracked, agent)
    requires Rollback(p, ok, projectDir).result == Ok(report)
    requires info.baseSha in p.repo.commits && HeadSha(p.repo) == Some(head) && head in p.repo.commits
    ensures report.untrackedDrift == NotAmong(Listed(Untracked(ResetHard(p.repo, info.baseSha))), untracked)
    ensures report.resetPreModified == Among(Listed(Changed(p.repo, head)), info.preModified)
  {
    hide ReadRecords, LinesOf, Listed, Changed, BranchState, HeadSha, NotAmong, Among, ResetHard, Untracked, Readable;
    RecordsBack(p.session, ok, info, untracked, agent);
    assert ok(ListOthers);
  }

  // ---- the whole transaction ------------------------------------------------------------------------

  /** The agent edits files and the index, but commits nothing and stays on the branch. */
  ghost predicate EditsOnly(before: Project, after: Project)
  {
    && after.session == before.session && after.repo.commits == before.repo.commits
    && after.repo.branches == before.repo.branches && after.repo.head == before.repo.head
  }

  ghost predicate PlainProject(r: Repo, base: string)
  {
    base in r.commits && PlainSet(r.work.Keys) && PlainSet(r.tracked) && PlainSet(r.commits[base].Keys)
  }

  lemma PlainListings(r: Repo, base: string)
    requires PlainProject(r, base)
    ensures PlainSet(Changed(r, base)) && PlainSet(Untracked(r)) && PlainSet(Untracked(ResetHard(r, base)))
  {
    hide Plain;
  }

  lemma SameBranchState(r: Repo, ok: Oracle, sha: string)
    requires AllSucceed(ok) && HeadSha(r) == Some(sha)
    ensures BranchState(r, ok, "") == BranchState(r, ok, sha)
  {
    assert ok(RevParse) && ok(SymbolicRef);
    hide IsValidSha;
  }

  lemma RecordingSession(p: Project, ok: Oracle, info: BackupInfo, untracked: seq<string>)
    requires AllSucceed(ok) && Readable(p.session, info, untracked, []) && info.baseSha in p.repo.commits
    requires PlainSet(Changed(p.repo, info.baseSha))
    ensures var t := RecordAgentTouch(p, ok, info.baseSha); var lines := Listed(Changed(p.repo, info.baseSha));
            t.result == Ok(lines) && t.project.repo == p.repo && Readable(t.project.session, info, untracked, lines)
  {
    hide Written, Listed, Changed, IsValidSha, Plain;
    NamesDiffer();
    ListedPlain(Changed(p.repo, info.baseSha));
    assert ok(DiffNames) && ok(WriteFile(AGENT));
  }

  /** Capture, the agent's edits, recording them and rolling back: the tracked files and
      the branches are those captured, the drift is what appeared since. */
  lemma TransactionRestores(p0: Project, ok: Oracle, projectDir: string, branch: string, info: BackupInfo,
                            edited: Project)
    requires AllSucceed(ok) && projectDir != "" && Capture(p0, ok, projectDir, branch).result == Ok(info)
    requires EditsOnly(Capture(p0, ok, projectDir, branch).project, edited)
    requires Plain(branch) && Plain(info.currentBranch)
    requires PlainProject(p0.repo, info.baseSha) && PlainProject(edited.repo, info.baseSha)
    ensures var t := RecordAgentTouch(edited, ok, info.baseSha); var b := Rollback(t.project, ok, projectDir);
            && t.result.Ok? && b.result.Ok?
            && TrackedFiles(b.project.repo) == p0.repo.commits[info.baseSha]
            && b.project.repo.branches == p0.repo.branches && b.project.repo.head == p0.repo.head
            && (forall f :: f in b.result.value.untrackedDrift <==>
                  f in Untracked(ResetHard(edited.repo, info.baseSha)) && f !in Untracked(p0.repo))
  {
    hide Capture, RecordAgentTouch, Rollback, Listed, BranchState, Readable, Plain, TrackedFiles, PlainProject;
    var captured := Capture(p0, ok, projectDir, branch).project;
    var untracked := Listed(Untracked(captured.repo));
    SuccessfulCapture(p0, ok, projectDir, branch);
    CapturedIsReadable(p0, ok, projectDir, branch, info);
    PlainListings(edited.repo, info.baseSha);
    RecordingSession(edited, ok, info, untracked);
    var t := RecordAgentTouch(edited, ok, info.baseSha).project;
    var agent := Listed(Changed(edited.repo, info.baseSha));
    ListedPlain(Changed(edited.repo, info.baseSha));
    EditedHead(p0.repo, captured.repo, edited.repo, branch, info.baseSha);
    SameBranchState(edited.repo, ok, info.baseSha);
    EditedBranchState(captured.repo, edited.repo, ok, info.baseSha);
    assert Unspoiled(t, ok, info, agent);
    RollbackExactly(t, ok, projectDir, info, untracked, agent);
    RollbackRestoresOrRefuses(t, ok, projectDir);
    var report := Rollback(t, ok, projectDir).result.value;
    ReportExactly(t, ok, projectDir, info, untracked, agent, info.baseSha, report);
    UntrackedAtCapture(p0.repo, captured.repo, info.baseSha);
    BranchesBack(p0, t, ok, projectDir, info, untracked, agent);
  }

  lemma CapturedIsReadable(p: Project, ok: Oracle, projectDir: string, branch: string, info: BackupInfo)
    requires Capture(p, ok, projectDir, branch).result == Ok(info)
    requires Plain(branch) && Plain(info.currentBranch) && PlainProject(p.repo, info.baseSha)
    ensures var c := Capture(p, ok, projectDir, branch).project;
            Readable(c.session, info, Listed(Untracked(c.repo)), [])
  {
    hide Capture, BranchState, Listed, Plain, IsValidSha, Recorded;
    SuccessfulCapture(p, ok, projectDir, branch);
    var r := Capture(p, ok, projectDir, branch).project.repo;
    PlainListings(r, info.baseSha);
    ListedPlain(Untracked(r));
    ListedPlain(Changed(r, info.baseSha));
  }

  lemma UntrackedAtCapture(r: Repo, captured: Repo, base: string)
    requires captured == r.(branches := captured.branches) && PlainProject(r, base)
    ensures forall f :: f in Listed(Untracked(captured)) <==> f in Untracked(r)
  {
    hide Listed, Plain;
    PlainListings(captured, base);
    ListedPlain(Untracked(captured));
  }

  lemma EditedHead(r: Repo, captured: Repo, edited: Repo, branch: string, base: string)
    requires HeadSha(r) == Some(base) && branch !in r.branches && captured == r.(branches := r.branches[branch := base])
    requires edited.branches == captured.branches && edited.head == captured.head
    ensures HeadSha(edited) == Some(base) && edited.head != OnBranch(branch)
  {
  }

  lemma EditedBranchState(captured: Repo, edited: Repo, ok: Oracle, sha: string)
    requires HeadSha(edited) == HeadSha(captured) && edited.head == captured.head
    ensures BranchState(edited, ok, sha) == BranchState(captured, ok, sha)
  {
    hide IsValidSha, HeadSha;
  }

  lemma BranchesBack(p0: Project, t: Project, ok: Oracle, projectDir: string, info: BackupInfo, untracked: seq<string>,
                     agent: seq<string>)
    requires AllSucceed(ok) && Readable(t.session, info, untracked, agent)
    requires Rollback(t, ok, projectDir).result.Ok?
    requires HeadSha(p0.repo) == Some(info.baseSha) && info.branch !in p0.repo.branches && t.repo.head == p0.repo.head
    requires t.repo.branches == p0.repo.branches[info.branch := info.baseSha]
    ensures Rollback(t, ok, projectDir).project.repo.branches == p0.repo.branches
    ensures Rollback(t, ok, projectDir).project.repo.head == p0.repo.head || p0.repo.head.Detached?
    ensures p0.repo.head.Detached? ==> Rollback(t, ok, projectDir).project.repo.head == Detached(info.baseSha)
  {
    hide ReadRecords, LinesOf, Listed, Cleared, NotAmong, Untracked, Readable;
    RecordsBack(t.session, ok, info, untracked, agent);
    PlainIsNotEmpty(t.session, info, untracked, agent);
    assert ok(DeleteBranch);
    assert info.branch in t.repo.branches;
    var r := ResetHard(t.repo, info.baseSha);
    assert r.branches == t.repo.branches;
    assert r.branches - {info.branch} == p0.repo.branches;
  }

  lemma PlainIsNotEmpty(session: map<string, string>, info: BackupInfo, untracked: seq<string>, agent: seq<string>)
    requires Readable(session, info, untracked, agent)
    ensures info.branch != ""
  {
  }

  /** An agent that commits and then undoes its change in the files blocks the rollback:
      the file differs from its new commit, but not from the captured one, so it was not
      recorded, although nothing would be lost. */
  lemma CommittedThenUndoneIsRefused(p: Project, ok: Oracle, projectDir: string, info: BackupInfo,
                                     untracked: seq<string>,
                                     head: string, f: string)
    requires projectDir != "" && AllSucceed(ok) && Readable(p.session, info, untracked, [])
    requires info.baseSha in p.repo.commits && TrackedFiles(p.repo) == p.repo.commits[info.baseSha]
    requires p.repo.tracked == p.repo.commits[info.baseSha].Keys
    requires HeadSha(p.repo) == Some(head) && head in p.repo.commits && PlainSet(Changed(p.repo, head))
    requires f in Changed(p.repo, head) && f !in info.preModified
    ensures var t := RecordAgentTouch(p, ok, info.baseSha);
            t.result == Ok([]) && Rollback(t.project, ok, projectDir).result.Err?
  {
    hide Rollback, Readable, Listed, RecordAgentTouch;
    assert Changed(p.repo, info.baseSha) == {};
    NothingListed();
    RecordingSession(p, ok, info, untracked);
    RollbackExactly(RecordAgentTouch(p, ok, info.baseSha).project, ok, projectDir, info, untracked, []);
  }

  lemma NothingListed()
    ensures Listed({}) == []
  {
    ListedPlain({});
  }
}
