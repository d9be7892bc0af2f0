/** Backup and rollback around a troubleshooting session:
    src/engine/troubleshoot_backup.cpp, over a model of the git repository. */
module TroubleshootBackup {
  import opened Text
  import opened TextLines

  type Files = map<string, string>

  datatype Head = OnBranch(name: string) | Detached(sha: string)

  /** The commits by sha, the branches, the index (which paths it tracks) and the files. */
  datatype Repo = Repo(
    commits: map<string, Files>,
    branches: map<string, string>,
    head: Head,
    tracked: set<string>,
    work: Files,
    ignored: set<string>)

  /** The repository and the text files of the session directory. */
  datatype Project = Project(repo: Repo, session: map<string, string>)

  /** What may go wrong outside; an oracle says which calls succeed. */
  datatype Call =
    | OpenRepository | MakeSessionDir | RevParse | CreateBranch | SymbolicRef | ListOthers
    | DiffNames | Reset | DeleteBranch | WriteFile(name: string) | ReadFile(name: string)

  type Oracle = Call -> bool

  datatype BackupError =
    | NoProjectDir
    | NotARepository
    | CallFailed(call: Call)
    | InvalidSha(sha: string)
    | NothingToRollBack
    | IncompleteArtifacts(missing: seq<string>)
    | Unreadable(name: string)
    | BranchChanged(current: string, recorded: string)
    | Divergent(legacy: bool, files: seq<string>)

  const BASE := "backup-base.txt"
  const UNTRACKED := "pre-untracked.txt"
  const BACKUP := "backup-branch.txt"
  const CURRENT := "current-branch.txt"
  const MODIFIED := "pre-modified.txt"
  const AGENT := "agent-modified.txt"

  datatype BackupInfo = BackupInfo(branch: string, baseSha: string, currentBranch: string, preModified: seq<string>)

  datatype RollbackReport = RollbackReport(
    branch: string, baseSha: string, currentBranch: string,
    untrackedDrift: seq<string>, resetPreModified: seq<string>)

  // ---- git -----------------------------------------------------------------------------------

  function BranchNameFor(runId: string, sessionId: string): string
  {
    "auto/troubleshoot/backup/" + runId + "-" + sessionId
  }

  predicate IsValidSha(sha: string)
  {
    |sha| == 40 && forall i :: 0 <= i < |sha| ==> '0' <= sha[i] <= '9' || 'a' <= sha[i] <= 'f'
  }

  function HeadSha(r: Repo): Option<string>
  {
    match r.head
    case OnBranch(name) => if name in r.branches then Some(r.branches[name]) else None
    case Detached(sha) => Some(sha)
  }

  function Look(files: Files, path: string): Option<string>
  {
    if path in files then Some(files[path]) else None
  }

  /** The files on disk that the index tracks. */
  function TrackedFiles(r: Repo): Files
  {
    map p | p in r.work && p in r.tracked :: r.work[p]
  }

  /** `git diff --name-only sha`: where the tracked files differ from a commit. */
  function Changed(r: Repo, sha: string): set<string>
    requires sha in r.commits
  {
    set p | p in r.commits[sha].Keys + r.tracked && Look(r.commits[sha], p) != Look(TrackedFiles(r), p)
  }

  /** `git ls-files --others --exclude-standard`. */
  function Untracked(r: Repo): set<string>
  {
    set p | p in r.work && p !in r.tracked && p !in r.ignored
  }

  /** A listing as it comes through a pipe and is cut into lines. */
  function Listed(paths: set<string>): seq<string>
  {
    Split(Stripped(Written(SortedKeys(paths))))
  }

  function ResetHard(r: Repo, sha: string): Repo
    requires sha in r.commits
  {
    Repo(r.commits,
         if r.head.OnBranch? then r.branches[r.head.name := sha] else r.branches,
         if r.head.OnBranch? then r.head else Detached(sha),
         r.commits[sha].Keys,
         (map p | p in r.work && p !in r.tracked :: r.work[p]) + r.commits[sha],
         r.ignored)
  }

  /** `git branch -D`, best effort: it fails on a branch that is checked out. */
  function WithoutBranch(r: Repo, ok: Oracle, branch: string): Repo
  {
    if ok(DeleteBranch) && branch in r.branches && r.head != OnBranch(branch)
    then r.(branches := r.branches - {branch}) else r
  }

  /** current_branch_state; the sha is asked for only when none is given. */
  function BranchState(r: Repo, ok: Oracle, given: string): Result<string, BackupError>
  {
    if !ok(SymbolicRef) then Err(CallFailed(SymbolicRef))
    else if r.head.OnBranch? && r.head.name != "" then Ok(r.head.name)
    else
      var asked := if ok(RevParse) then HeadSha(r) else None;
      if given == "" && asked.None? then Err(CallFailed(RevParse))
      else
        var sha := if given == "" then asked.value else given;
        if IsValidSha(sha) then Ok("__detached__:" + sha) else Err(InvalidSha(sha))
  }

  // ---- capture ---------------------------------------------------------------------------------

  datatype Snapshot = Snapshot(currentBranch: string, untracked: seq<string>, modified: seq<string>)

  /** What capture asks the repository after the backup branch exists. */
  function TakeSnapshot(r: Repo, ok: Oracle, sha: string): Result<Snapshot, BackupError>
  {
    var current := BranchState(r, ok, sha);
    if current.Err? then Err(current.error)
    else if !IsValidSha(sha) then Err(InvalidSha(sha))
    else if !ok(ListOthers) then Err(CallFailed(ListOthers))
    else if !ok(DiffNames) || sha !in r.commits then Err(CallFailed(DiffNames))
    else Ok(Snapshot(current.value, Listed(Untracked(r)), Listed(Changed(r, sha))))
  }

  datatype Artifact = Artifact(name: string, lines: seq<string>)

  function SessionArtifacts(sha: string, branch: string, snap: Snapshot): seq<Artifact>
  {
    [Artifact(BASE, [sha]), Artifact(UNTRACKED, snap.untracked), Artifact(BACKUP, [branch]),
     Artifact(CURRENT, [snap.currentBranch]), Artifact(MODIFIED, snap.modified), Artifact(AGENT, [])]
  }

  datatype Stored = Stored(session: map<string, string>, failed: Option<string>)

  /** Files are written in order up to the first that cannot be. */
  function StoreAll(session: map<string, string>, ok: Oracle, files: seq<Artifact>): Stored
  {
    if files == [] then Stored(session, None)
    else
      var before := StoreAll(session, ok, files[..|files| - 1]);
      var last := files[|files| - 1];
      if before.failed.Some? then before
      else if !ok(WriteFile(last.name)) then before.(failed := Some(last.name))
      else Stored(before.session[last.name := Written(last.lines)], None)
  }

  datatype Captured = Captured(project: Project, result: Result<BackupInfo, BackupError>)

  function Capture(p: Project, ok: Oracle, projectDir: string, branch: string): Captured
  {
    var r := p.repo;
    if projectDir == "" then Captured(p, Err(NoProjectDir))
    else if !ok(OpenRepository) then Captured(p, Err(NotARepository))
    else if !ok(MakeSessionDir) then Captured(p, Err(CallFailed(MakeSessionDir)))
    else if !ok(RevParse) || HeadSha(r).None? then Captured(p, Err(CallFailed(RevParse)))
    else if !ok(CreateBranch) || branch in r.branches then Captured(p, Err(CallFailed(CreateBranch)))
    else
      var sha := HeadSha(r).value;
      var r' := r.(branches := r.branches[branch := sha]);
      match TakeSnapshot(r', ok, sha)
      case Err(e) => Captured(p.(repo := WithoutBranch(r', ok, branch)), Err(e))
      case Ok(snap) =>
        var stored := StoreAll(p.session, ok, SessionArtifacts(sha, branch, snap));
        if stored.failed.Some? then
          Captured(Project(WithoutBranch(r', ok, branch), stored.session),
                   Err(CallFailed(WriteFile(stored.failed.value))))
        else Captured(Project(r', stored.session), Ok(BackupInfo(branch, sha, snap.currentBranch, snap.modified)))
  }

  // ---- the agent's changes -----------------------------------------------------------------------

  datatype Touched = Touched(project: Project, result: Result<seq<string>, BackupError>)

  function RecordAgentTouch(p: Project, ok: Oracle, sha: string): Touched
  {
    if !IsValidSha(sha) then Touched(p, Err(InvalidSha(sha)))
    else if !ok(DiffNames) || sha !in p.repo.commits then Touched(p, Err(CallFailed(DiffNames)))
    else
      var lines := Listed(Changed(p.repo, sha));
      if !ok(WriteFile(AGENT)) then Touched(p, Err(CallFailed(WriteFile(AGENT))))
      else Touched(p.(session := p.session[AGENT := Written(lines)]), Ok(lines))
  }

  // ---- rollback ------------------------------------------------------------------------------------

  function LinesOf(session: map<string, string>, ok: Oracle, name: string): Option<seq<string>>
  {
    if name in session && ok(ReadFile(name)) then Some(Lines(session[name])) else None
  }

  /** "" stands for a file that cannot be read or has no first line. */
  function FirstOf(session: map<string, string>, ok: Oracle, name: string): string
  {
    if name in session && ok(ReadFile(name)) then FirstLine(session[name]) else ""
  }

  function OrNone(lines: Option<seq<string>>): seq<string>
  {
    if lines.Some? then lines.value else []
  }

  datatype Records = Records(
    base: string, branch: string, legacy: bool, recorded: string,
    preUntracked: seq<string>, preModified: seq<string>)

  function Missing(session: map<string, string>): seq<string>
  {
    (if CURRENT in session then [] else [CURRENT]) + (if MODIFIED in session then [] else [MODIFIED])
    + if AGENT in session then [] else [AGENT]
  }

  /** Sessions of older builds lack all three of the newer files. */
  predicate IsLegacy(session: map<string, string>)
  {
    CURRENT !in session && MODIFIED !in session && AGENT !in session
  }

  function ReadRecords(session: map<string, string>, ok: Oracle): Result<Records, BackupError>
  {
    var base, legacy := FirstOf(session, ok, BASE), IsLegacy(session);
    var recorded, preModified := FirstOf(session, ok, CURRENT), LinesOf(session, ok, MODIFIED);
    if base == "" then Err(NothingToRollBack)
    else if !IsValidSha(base) then Err(InvalidSha(base))
    else if !legacy && Missing(session) != [] then Err(IncompleteArtifacts(Missing(session)))
    else if !legacy && recorded == "" then Err(Unreadable(CURRENT))
    else if !legacy && preModified.None? then Err(Unreadable(MODIFIED))
    else
      Ok(Records(base, FirstOf(session, ok, BACKUP), legacy, recorded,
                 OrNone(LinesOf(session, ok, UNTRACKED)), if legacy then [] else preModified.value))
  }

  function Among(names: seq<string>, allowed: seq<string>): seq<string>
  {
    if names == [] then []
    else Among(names[..|names| - 1], allowed) + if names[|names| - 1] in allowed then [names[|names| - 1]] else []
  }

  function NotAmong(names: seq<string>, allowed: seq<string>): seq<string>
  {
    if names == [] then []
    else NotAmong(names[..|names| - 1], allowed) + if names[|names| - 1] in allowed then [] else [names[|names| - 1]]
  }

  datatype Clearance = Clearance(currentBranch: string, resetPreModified: seq<string>)

  /** The checks before anything is touched. */
  function Cleared(p: Project, ok: Oracle, rec: Records): Result<Clearance, BackupError>
  {
    var current, agent := BranchState(p.repo, ok, ""), LinesOf(p.session, ok, AGENT);
    if current.Err? then Err(current.error)
    else if !rec.legacy && current.value != rec.recorded then Err(BranchChanged(current.value, rec.recorded))
    else if !ok(DiffNames) || HeadSha(p.repo).None? || HeadSha(p.repo).value !in p.repo.commits then
      Err(CallFailed(DiffNames))
    else if AGENT in p.session && agent.None? then Err(Unreadable(AGENT))
    else
      var dirty := Listed(Changed(p.repo, HeadSha(p.repo).value));
      var divergent := NotAmong(dirty, rec.preModified + OrNone(agent));
      if divergent != [] then Err(Divergent(rec.legacy, divergent))
      else Ok(Clearance(current.value, Among(dirty, rec.preModified)))
  }

  datatype RolledBack = RolledBack(project: Project, result: Result<RollbackReport, BackupError>)

  function Rollback(p: Project, ok: Oracle, projectDir: string): RolledBack
  {
    if projectDir == "" then RolledBack(p, Err(NoProjectDir))
    else if !ok(OpenRepository) then RolledBack(p, Err(NotARepository))
    else
      match ReadRecords(p.session, ok)
      case Err(e) => RolledBack(p, Err(e))
      case Ok(rec) =>
        match Cleared(p, ok, rec)
        case Err(e) => RolledBack(p, Err(e))
        case Ok(clearance) =>
          if !ok(Reset) || rec.base !in p.repo.commits then RolledBack(p, Err(CallFailed(Reset)))
          else
            var r := ResetHard(p.repo, rec.base);
            var drift := if ok(ListOthers) then NotAmong(Listed(Untracked(r)), rec.preUntracked) else [];
            RolledBack(p.(repo := if rec.branch == "" then r else WithoutBranch(r, ok, rec.branch)),
                       Ok(RollbackReport(rec.branch, rec.base, clearance.currentBranch, drift,
                                         clearance.resetPreModified)))
  }

  // ---- the objects ---------------------------------------------------------------------------------

  method Filter(names: seq<string>, allowed: seq<string>) returns (inside: seq<string>, outside: seq<string>)
    ensures inside == Among(names, allowed) && outside == NotAmong(names, allowed)
  {
    inside, outside := [], [];
    for k := 0 to |names|
      invariant inside == Among(names[..k], allowed) && outside == NotAmong(names[..k], allowed)
    {
      assert names[..k + 1][..k] == names[..k];
      if names[k] in allowed { inside := inside + [names[k]]; } else { outside := outside + [names[k]]; }
    }
    assert names[..|names|] == names;
  }

  class Workspace {
    var repo: Repo
    var session: map<string, string>

    constructor (repo: Repo, session: map<string, string>)
      ensures View() == Project(repo, session)
    {
      this.repo, this.session := repo, session;
    }

    ghost function View(): Project
      reads this
    {
      Project(repo, session)
    }

    method StoreFiles(ok: Oracle, files: seq<Artifact>) returns (failed: Option<string>)
      modifies this`session
      ensures Stored(session, failed) == StoreAll(old(session), ok, files)
    {
      for k := 0 to |files|
        invariant Stored(session, None) == StoreAll(old(session), ok, files[..k])
      {
        assert files[..k + 1][..k] == files[..k];
        if !ok(WriteFile(files[k].name)) {
          StopsThere(old(session), ok, files, k);
          return Some(files[k].name);
        }
        var text := WriteText(files[k].lines);
        session := session[files[k].name := text];
      }
      assert files[..|files|] == files;
      failed := None;
    }

    method DropBranch(ok: Oracle, branch: string)
      modifies this`repo
      ensures repo == WithoutBranch(old(repo), ok, branch)
    {
      if ok(DeleteBranch) && branch in repo.branches && repo.head != OnBranch(branch) {
        repo := repo.(branches := repo.branches - {branch});
      }
    }

    method List(paths: set<string>) returns (names: seq<string>)
      ensures names == Listed(paths)
    {
      var text := WriteText(SortedKeys(paths));
      names := SplitLines(Stripped(text));
    }

    method CaptureInto(ok: Oracle, projectDir: string, runId: string, sessionId: string)
      returns (result: Result<BackupInfo, BackupError>)
      modifies this
      ensures Captured(View(), result) == Capture(old(View()), ok, projectDir, BranchNameFor(runId, sessionId))
    {
      hide BranchState, Listed, Untracked, Changed, WithoutBranch, StoreAll, SessionArtifacts, BranchNameFor,
           IsValidSha, HeadSha;
      if projectDir == "" { return Err(NoProjectDir); }
      if !ok(OpenRepository) { return Err(NotARepository); }
      if !ok(MakeSessionDir) { return Err(CallFailed(MakeSessionDir)); }
      var head := HeadSha(repo);
      if !ok(RevParse) || head.None? { return Err(CallFailed(RevParse)); }
      var sha, branch := head.value, BranchNameFor(runId, sessionId);
      if !ok(CreateBranch) || branch in repo.branches { return Err(CallFailed(CreateBranch)); }
      repo := repo.(branches := repo.branches[branch := sha]);
      var snap := Snap(ok, sha);
      if snap.Err? {
        DropBranch(ok, branch);
        return Err(snap.error);
      }
      var failed := StoreFiles(ok, SessionArtifacts(sha, branch, snap.value));
      if failed.Some? {
        DropBranch(ok, branch);
        return Err(CallFailed(WriteFile(failed.value)));
      }
      result := Ok(BackupInfo(branch, sha, snap.value.currentBranch, snap.value.modified));
    }

    method Snap(ok: Oracle, sha: string) returns (snap: Result<Snapshot, BackupError>)
      ensures snap == TakeSnapshot(repo, ok, sha)
    {
      hide BranchState, Listed, Untracked, Changed, IsValidSha;
      var current := BranchState(repo, ok, sha);
      if current.Err? { return Err(current.error); }
      if !IsValidSha(sha) { return Err(InvalidSha(sha)); }
      if !ok(ListOthers) { return Err(CallFailed(ListOthers)); }
      var untracked := List(Untracked(repo));
      if !ok(DiffNames) || sha !in repo.commits { return Err(CallFailed(DiffNames)); }
      var modified := List(Changed(repo, sha));
      snap := Ok(Snapshot(current.value, untracked, modified));
    }

    method RecordTouch(ok: Oracle, sha: string) returns (result: Result<seq<string>, BackupError>)
      modifies this`session
      ensures Touched(View(), result) == RecordAgentTouch(old(View()), ok, sha)
    {
      hide Listed, Changed, IsValidSha;
      if !IsValidSha(sha) { return Err(InvalidSha(sha)); }
      if !ok(DiffNames) || sha !in repo.commits { return Err(CallFailed(DiffNames)); }
      var lines := List(Changed(repo, sha));
      if !ok(WriteFile(AGENT)) { return Err(CallFailed(WriteFile(AGENT))); }
      var text := WriteText(lines);
      session := session[AGENT := text];
      result := Ok(lines);
    }

    method Preflight(ok: Oracle, rec: Records) returns (r: Result<Clearance, BackupError>)
      ensures r == Cleared(View(), ok, rec)
    {
      hide BranchState, Listed, Changed, HeadSha, LinesOf, Among, NotAmong;
      var current := BranchState(repo, ok, "");
      if current.Err? { return Err(current.error); }
      if !rec.legacy && current.value != rec.recorded { return Err(BranchChanged(current.value, rec.recorded)); }
      var head := HeadSha(repo);
      if !ok(DiffNames) || head.None? || head.value !in repo.commits { return Err(CallFailed(DiffNames)); }
      var dirty := List(Changed(repo, head.value));
      var agent := LinesOf(session, ok, AGENT);
      if AGENT in session && agent.None? { return Err(Unreadable(AGENT)); }
      var _, divergent := Filter(dirty, rec.preModified + OrNone(agent));
      if divergent != [] { return Err(Divergent(rec.legacy, divergent)); }
      var reset, _ := Filter(dirty, rec.preModified);
      r := Ok(Clearance(current.value, reset));
    }

    method RollbackTo(ok: Oracle, projectDir: string) returns (result: Result<RollbackReport, BackupError>)
      modifies this`repo
      ensures RolledBack(View(), result) == Rollback(old(View()), ok, projectDir)
    {
      hide ReadRecords, Cleared, ResetHard, Listed, Untracked, WithoutBranch, NotAmong;
      if projectDir == "" { return Err(NoProjectDir); }
      if !ok(OpenRepository) { return Err(NotARepository); }
      var records := ReadRecords(session, ok);
      if records.Err? { return Err(records.error); }
      var rec := records.value;
      var clearance := Preflight(ok, rec);
      if clearance.Err? { return Err(clearance.error); }
      if !ok(Reset) || rec.base !in repo.commits { return Err(CallFailed(Reset)); }
      repo := ResetHard(repo, rec.base);
      var drift := [];
      if ok(ListOthers) {
        var now := List(Untracked(repo));
        var _, outside := Filter(now, rec.preUntracked);
        drift := outside;
      }
      if rec.branch != "" { DropBranch(ok, rec.branch); }
      result := Ok(RollbackReport(rec.branch, rec.base, clearance.value.currentBranch, drift,
                                  clearance.value.resetPreModified));
    }
  }

  lemma {:induction false} StopsThere(session: map<string, string>, ok: Oracle, files: seq<Artifact>, k: nat)
    requires k < |files| && StoreAll(session, ok, files[..k]).failed.None? && !ok(WriteFile(files[k].name))
    ensures StoreAll(session, ok, files) == StoreAll(session, ok, files[..k]).(failed := Some(files[k].name))
    decreases |files|
  {
    var front := files[..|files| - 1];
    if k < |files| - 1 {
      assert front[..k] == files[..k];
      StopsThere(session, ok, front, k);
    }
  }
}
