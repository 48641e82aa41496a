/** The patch executor's workspace: apply, format, copy, verify, then revert or commit, then record. */
module Workspace {
  import opened Common

  type Path = string
  type Tree = map<Path, string>

  // ---- Which files git leaves alone ----------------------------------------------------------

  const IGNORE_FILE := ".gitignore"

  predicate IsIgnoreFile(p: Path) {
    p == IGNORE_FILE || (|p| > |IGNORE_FILE| && p[|p| - |IGNORE_FILE| - 1..] == "/" + IGNORE_FILE)
  }

  /** An ignore file is one by its last segment. */
  lemma IsIgnoreFileIff(p: Path)
    ensures IsIgnoreFile(p) <==> p == ".gitignore" || exists dir :: p == dir + "/.gitignore"
  {
    if |p| > |IGNORE_FILE| {
      assert p == p[..|p| - 11] + p[|p| - 11..];
      assert "/" + IGNORE_FILE == "/.gitignore";
    }
    if dir :| p == dir + "/.gitignore" {
      assert p[|dir|..] == "/.gitignore";
    }
  }

  function IgnoreFiles(t: Tree): Tree {
    map p | p in t && IsIgnoreFile(p) :: t[p]
  }

  /** git's exclude rules: what the ignore files in the worktree say about a path. */
  type Rules = (Tree, Path) -> bool

  predicate Ignored(rules: Rules, t: Tree, p: Path) {
    rules(IgnoreFiles(t), p)
  }

  // ---- The applier's commands on a worktree whose index is HEAD --------------------------------

  /** git reset --hard HEAD: tracked files come back, untracked ones stay. */
  function ResetTree(head: Tree, work: Tree): Tree {
    work + head
  }

  /** git clean -fd: untracked files go, ignored ones stay. */
  function CleanTree(rules: Rules, head: Tree, work: Tree): Tree {
    map p | p in work && (p in head || Ignored(rules, work, p)) :: work[p]
  }

  /** git add -A: what the next commit would hold. */
  function Staged(rules: Rules, head: Tree, work: Tree): Tree {
    map p | p in work && (p in head || !Ignored(rules, work, p)) :: work[p]
  }

  function Reverted(rules: Rules, head: Tree, work: Tree): Tree {
    CleanTree(rules, head, ResetTree(head, work))
  }

  datatype Reason = ScopeViolation | ApplyFailed | VerificationFailed

  datatype Artifact = Artifact(rejection: Option<Reason>, changedLines: nat)

  /** `commits` is HEAD's history, oldest first; `verify` the directory the sandbox sees. */
  datatype State = State(commits: seq<Tree>, work: Tree, verify: Tree, artifacts: seq<Artifact>) {
    function Head(): Tree
      requires commits != []
    {
      commits[|commits| - 1]
    }
  }

  /** What the outside does in one attempt: whether the patch is in scope, the worktree `git apply`
      and then the formatter leave behind, and the verifier's answer on the copied tree. */
  datatype Attempt = Attempt(inScope: bool, applied: Option<Tree>, changedLines: nat, formatted: Tree, verifies: Tree -> bool)

  datatype Outcome = Accepted | Rejected | CommitFailed

  function Rejection(s: State, reason: Reason): State {
    s.(artifacts := s.artifacts + [Artifact(Some(reason), 0)])
  }

  /** The attempt from the copied tree on. */
  function Judged(rules: Rules, s: State, a: Attempt): (State, Outcome)
    requires s.commits != []
  {
    if !a.verifies(s.verify) then
      (s.(work := Reverted(rules, s.Head(), s.work),
          artifacts := s.artifacts + [Artifact(Some(VerificationFailed), a.changedLines)]), Rejected)
    else
      var tree := Staged(rules, s.Head(), s.work);
      // With nothing staged `git commit` fails, and run() with it.
      if tree == s.Head() then (s, CommitFailed)
      else (s.(commits := s.commits + [tree], artifacts := s.artifacts + [Artifact(None, a.changedLines)]), Accepted)
  }

  function Run(rules: Rules, s: State, a: Attempt): (State, Outcome)
    requires s.commits != []
  {
    if !a.inScope then (Rejection(s, ScopeViolation), Rejected)
    else if a.applied.None? then (Rejection(s, ApplyFailed), Rejected)
    else Judged(rules, s.(work := a.formatted, verify := s.verify + a.formatted), a)
  }

  /** What git would commit: all but the untracked files the worktree's own ignore files name. */
  ghost predicate WouldCommit(rules: Rules, head: Tree, work: Tree, tree: Tree) {
    && (forall p :: p in tree <==> p in work && (p in head || !rules(IgnoreFiles(work), p)))
    && forall p :: p in tree ==> tree[p] == work[p]
  }

  /** One file laid over another: what the verifier is shown. */
  ghost predicate LaidOver(work: Tree, older: Tree, shown: Tree) {
    && shown.Keys == work.Keys + older.Keys
    && forall p :: p in shown ==> shown[p] == if p in work then work[p] else older[p]
  }

  /** The attempt's artifact, and nothing else of the history. */
  predicate RecordedOnly(s: State, next: State, reason: Option<Reason>, changedLines: nat) {
    next.artifacts == s.artifacts + [Artifact(reason, changedLines)]
  }

  /** What becomes of one attempt: out of scope or inapplicable, it is recorded and nothing else happens; else its
      tree is laid over the verification directory, and by the verifier's word on that either reverted, or
      committed if it differs from HEAD and otherwise left as a failed commit without an artifact. */
  lemma RunIs(rules: Rules, s: State, a: Attempt)
    requires s.commits != []
    ensures var (next, outcome) := Run(rules, s, a);
      var head := s.commits[|s.commits| - 1];
      if !a.inScope || a.applied.None? then
        && outcome == Rejected && next == s.(artifacts := next.artifacts)
        && RecordedOnly(s, next, Some(if a.inScope then ApplyFailed else ScopeViolation), 0)
      else
        && LaidOver(a.formatted, s.verify, next.verify)
        && if !a.verifies(next.verify) then
             && outcome == Rejected && next.commits == s.commits
             && RecordedOnly(s, next, Some(VerificationFailed), a.changedLines)
             && (forall p :: p in next.work <==> p in head || (p in a.formatted && rules(IgnoreFiles(a.formatted + head), p)))
             && (forall p :: p in next.work ==> next.work[p] == if p in head then head[p] else a.formatted[p])
           else if WouldCommit(rules, head, a.formatted, head) then
             outcome == CommitFailed && next == s.(work := a.formatted, verify := next.verify)
           else
             && outcome == Accepted && next.work == a.formatted && RecordedOnly(s, next, None, a.changedLines)
             && |next.commits| == |s.commits| + 1 && next.commits[..|s.commits|] == s.commits
             && WouldCommit(rules, head, a.formatted, next.commits[|s.commits|])
  {
    var head := s.commits[|s.commits| - 1];
    var tree := Staged(rules, head, a.formatted);
    assert WouldCommit(rules, head, a.formatted, tree);
    if WouldCommit(rules, head, a.formatted, head) {
      assert tree == head;
    }
  }

  class PatchExecutor {
    const rules: Rules
    var commits: seq<Tree>
    var work: Tree
    var verify: Tree
    var artifacts: seq<Artifact>

    ghost function Contents(): State
      reads this
    {
      State(commits, work, verify, artifacts)
    }

    constructor (rules: Rules, head: Tree, work: Tree, verify: Tree)
      ensures this.rules == rules && Contents() == State([head], work, verify, [])
    {
      this.rules, this.commits, this.work, this.verify, this.artifacts := rules, [head], work, verify, [];
    }

    method Revert()
      requires commits != []
      modifies this`work
      ensures work == Reverted(rules, commits[|commits| - 1], old(work))
    {
      var head := commits[|commits| - 1];
      work := work + head;
      work := map p | p in work && (p in head || Ignored(rules, work, p)) :: work[p];
    }

    method Commit() returns (committed: bool)
      requires commits != []
      modifies this`commits
      ensures var tree := Staged(rules, old(commits[|commits| - 1]), work);
        && (committed <==> tree != old(commits[|commits| - 1]))
        && commits == if committed then old(commits) + [tree] else old(commits)
    {
      var head := commits[|commits| - 1];
      var tree := map p | p in work && (p in head || !Ignored(rules, work, p)) :: work[p];
      if tree == head {
        return false;
      }
      commits := commits + [tree];
      committed := true;
    }

    /** cp() lays the source over what the destination already holds. */
    method Copy()
      modifies this`verify
      ensures verify == old(verify) + work
    {
      verify := verify + work;
    }

    method Execute(a: Attempt) returns (outcome: Outcome)
      requires commits != []
      modifies this
      ensures (Contents(), outcome) == Run(rules, old(Contents()), a)
    {
      if !a.inScope {
        artifacts := artifacts + [Artifact(Some(ScopeViolation), 0)];
        return Rejected;
      }
      if a.applied.None? {
        artifacts := artifacts + [Artifact(Some(ApplyFailed), 0)];
        return Rejected;
      }
      work := a.applied.value;
      work := a.formatted;
      Copy();
      var verified := a.verifies(verify);
      if !verified {
        Revert();
      }
      if verified {
        var committed := Commit();
        if !committed {
          return CommitFailed;
        }
      }
      artifacts := artifacts + [Artifact(if verified then None else Some(VerificationFailed), a.changedLines)];
      outcome := if verified then Accepted else Rejected;
    }
  }

  // ---- One attempt -----------------------------------------------------------------------------

  predicate Tracks(head: Tree, work: Tree) {
    forall p :: p in head ==> p in work && work[p] == head[p]
  }

  /** The worktree is HEAD plus ignored files. */
  predicate Clean(rules: Rules, head: Tree, work: Tree) {
    && (forall p :: p in head ==> p in work && work[p] == head[p])
    && (forall p :: p in work && p !in head ==> Ignored(rules, work, p))
  }

  /** Committing leaves the worktree clean whatever the patch did, ignore rules included. */
  lemma CommitIsClean(rules: Rules, head: Tree, work: Tree)
    ensures Clean(rules, Staged(rules, head, work), work)
  {
  }

  /** Reverting restores every tracked file and no untracked file is new. */
  lemma RevertRestoresTracked(rules: Rules, head: Tree, work: Tree)
    ensures var after := Reverted(rules, head, work);
      && (forall p :: p in head ==> p in after && after[p] == head[p])
      && (forall p :: p in after && p !in head ==> p in work && after[p] == work[p])
  {
  }

  /** The ignore files that decide what `git clean` removes: the worktree's, tracked ones restored. */
  function CleaningRules(head: Tree, work: Tree): Tree {
    IgnoreFiles(work + head)
  }

  /** Those of them that survive it, being tracked or themselves ignored. */
  function SurvivingRules(rules: Rules, head: Tree, work: Tree): Tree {
    map p | p in work + head && IsIgnoreFile(p) && (p in head || rules(CleaningRules(head, work), p)) :: (work + head)[p]
  }

  /** Whatever untracked file the ignore files spare, the surviving ones still ignore. */
  predicate SparedStaysIgnored(rules: Rules, head: Tree, work: Tree) {
    forall p :: p in work && p !in head && rules(CleaningRules(head, work), p) ==> rules(SurvivingRules(rules, head, work), p)
  }

  lemma SurvivingRulesAre(rules: Rules, head: Tree, work: Tree)
    ensures IgnoreFiles(Reverted(rules, head, work)) == SurvivingRules(rules, head, work)
  {
  }

  /** A revert leaves the worktree clean if and only if each file it spares is still ignored by the
      ignore files that survive it. */
  lemma RevertIsCleanIff(rules: Rules, head: Tree, work: Tree)
    ensures Clean(rules, head, Reverted(rules, head, work)) <==> SparedStaysIgnored(rules, head, work)
  {
    var after := Reverted(rules, head, work);
    SurvivingRulesAre(rules, head, work);
    assert forall p :: p in after && p !in head <==> p in work && p !in head && rules(CleaningRules(head, work), p);
  }

  /** The untracked ignore files are the same, with the same contents. */
  predicate SameUntrackedRules(head: Tree, before: Tree, after: Tree) {
    IgnoreFiles(before) - head.Keys == IgnoreFiles(after) - head.Keys
  }

  lemma SameCleaningRules(head: Tree, before: Tree, after: Tree)
    requires SameUntrackedRules(head, before, after) && Tracks(head, before)
    ensures CleaningRules(head, after) == IgnoreFiles(before)
  {
    var was, now := IgnoreFiles(before), CleaningRules(head, after);
    forall p ensures (p in now <==> p in was) && (p in now ==> now[p] == was[p]) {
      assert p in was - head.Keys <==> p in IgnoreFiles(after) - head.Keys;
      assert p in was - head.Keys ==> (was - head.Keys)[p] == (IgnoreFiles(after) - head.Keys)[p];
    }
  }

  /** From a clean worktree an attempt that leaves the untracked ignore files as they were, whatever it
      does to tracked ones, is reverted to a clean worktree. */
  lemma RevertIsClean(rules: Rules, head: Tree, before: Tree, after: Tree)
    requires Clean(rules, head, before) && SameUntrackedRules(head, before, after)
    ensures Clean(rules, head, Reverted(rules, head, after))
  {
    SameCleaningRules(head, before, after);
    assert SurvivingRules(rules, head, after) == IgnoreFiles(before);
    RevertIsCleanIff(rules, head, after);
  }

  /** The root ignore file names one path. */
  function OneName(files: Tree, p: Path): bool {
    IGNORE_FILE in files && files[IGNORE_FILE] == p
  }

  lemma IgnoreFileKeptOut(head: Tree)
    requires IGNORE_FILE !in head && "leak" !in head
    ensures Reverted(OneName, head, head[IGNORE_FILE := "leak"]["leak" := "x"]) == head["leak" := "x"]
  {
    var leaking := head[IGNORE_FILE := "leak"]["leak" := "x"];
    assert ResetTree(head, leaking) == leaking;
    assert IGNORE_FILE != "leak" && IGNORE_FILE in IgnoreFiles(leaking);
    assert IgnoreFiles(leaking)[IGNORE_FILE] == "leak";
  }

  lemma LeakIsStaged(head: Tree)
    requires IGNORE_FILE !in head && "leak" !in head && "good" !in head
    ensures var good := head["leak" := "x"]["good" := "y"];
      Staged(OneName, head, good) == good && !Clean(OneName, head, head["leak" := "x"])
  {
    var good := head["leak" := "x"]["good" := "y"];
    assert IGNORE_FILE !in IgnoreFiles(good) && IGNORE_FILE !in IgnoreFiles(head["leak" := "x"]);
    assert "leak" in head["leak" := "x"];
  }

  /** A rejected patch that adds a file together with an ignore file for it leaves the file behind, and
      the next accepted patch commits it. */
  lemma RejectedFileCanBeCommittedLater(head: Tree, verify: Tree)
    requires IGNORE_FILE !in head && "leak" !in head && "good" !in head
    ensures var leaking := head[IGNORE_FILE := "leak"]["leak" := "x"];
      var (s1, o1) := Run(OneName, State([head], head, verify, []), Attempt(true, Some(leaking), 2, leaking, (_: Tree) => false));
      var good := s1.work["good" := "y"];
      var (s2, o2) := Run(OneName, s1, Attempt(true, Some(good), 1, good, (_: Tree) => true));
      && o1 == Rejected && s1.commits == [head] && !Clean(OneName, head, s1.work)
      && o2 == Accepted && s2.Head() == head["leak" := "x"]["good" := "y"]
  {
    IgnoreFileKeptOut(head);
    LeakIsStaged(head);
    assert "good" in head["leak" := "x"]["good" := "y"];
  }

  /** What was verified is what is committed, on every committed path. */
  lemma CommittedTreeWasVerified(rules: Rules, s: State, a: Attempt)
    requires s.commits != [] && Run(rules, s, a).1 == Accepted
    ensures var next := Run(rules, s, a).0;
      && a.verifies(next.verify)
      && forall p :: p in next.Head() ==> p in next.verify && next.verify[p] == next.Head()[p]
  {
  }

  /** The copy never deletes: the sandbox sees exactly the worktree when and only when every file it
      held before is still there. */
  lemma VerifyIsWorktreeIff(verify: Tree, work: Tree)
    ensures verify + work == work <==> verify.Keys <= work.Keys
  {
    if verify + work == work {
      assert (verify + work).Keys == verify.Keys + work.Keys;
    }
  }

  // ---- Runs ------------------------------------------------------------------------------------

  function RunAll(rules: Rules, s: State, attempts: seq<Attempt>): State
    requires s.commits != []
    ensures RunAll(rules, s, attempts).commits != []
  {
    if attempts == [] then s else Run(rules, RunAll(rules, s, attempts[..|attempts| - 1]), attempts[|attempts| - 1]).0
  }

  function Outcomes(rules: Rules, s: State, attempts: seq<Attempt>): seq<Outcome>
    requires s.commits != []
  {
    if attempts == [] then []
    else
      var before := attempts[..|attempts| - 1];
      Outcomes(rules, s, before) + [Run(rules, RunAll(rules, s, before), attempts[|attempts| - 1]).1]
  }

  function Count(outcomes: seq<Outcome>, outcome: Outcome): nat {
    if outcomes == [] then 0 else Count(outcomes[1..], outcome) + if outcomes[0] == outcome then 1 else 0
  }

  lemma {:induction false} CountSnoc(outcomes: seq<Outcome>, last: Outcome, outcome: Outcome)
    ensures Count(outcomes + [last], outcome) == Count(outcomes, outcome) + if last == outcome then 1 else 0
  {
    if outcomes == [] {
      assert outcomes + [last] == [last];
    } else {
      CountSnoc(outcomes[1..], last, outcome);
      assert (outcomes + [last])[1..] == outcomes[1..] + [last];
    }
  }

  /** Exactly one commit per accepted attempt and none otherwise, and one artifact per attempt that
      returned, accepted ones for exactly the accepted attempts. */
  lemma {:induction false} CommitsAndArtifactsCount(rules: Rules, s: State, attempts: seq<Attempt>)
    requires s.commits != [] && s.artifacts == []
    ensures var end := RunAll(rules, s, attempts);
      var outcomes := Outcomes(rules, s, attempts);
      && s.commits <= end.commits
      && |end.commits| == |s.commits| + Count(outcomes, Accepted)
      && |end.artifacts| == Count(outcomes, Accepted) + Count(outcomes, Rejected)
      && AcceptedArtifacts(end.artifacts) == Count(outcomes, Accepted)
  {
    if attempts != [] {
      var before, last := attempts[..|attempts| - 1], attempts[|attempts| - 1];
      CommitsAndArtifactsCount(rules, s, before);
      var mid := RunAll(rules, s, before);
      var (end, outcome) := Run(rules, mid, last);
      CountSnoc(Outcomes(rules, s, before), outcome, Accepted);
      CountSnoc(Outcomes(rules, s, before), outcome, Rejected);
      if end.artifacts != mid.artifacts {
        assert end.artifacts[..|end.artifacts| - 1] == mid.artifacts;
      }
    }
  }

  function AcceptedArtifacts(artifacts: seq<Artifact>): nat {
    if artifacts == [] then 0
    else AcceptedArtifacts(artifacts[..|artifacts| - 1]) + if artifacts[|artifacts| - 1].rejection.None? then 1 else 0
  }

  /** The attempt was applied and then rejected by the verifier. */
  predicate RejectedLate(s: State, a: Attempt) {
    a.inScope && a.applied.Some? && !a.verifies(s.verify + a.formatted)
  }

  /** From a clean worktree one attempt ends clean unless it is reverted and the revert spares a file
      that nothing ignores any more. */
  lemma RunIsCleanIff(rules: Rules, s: State, a: Attempt)
    requires s.commits != [] && Clean(rules, s.Head(), s.work)
    ensures Clean(rules, Run(rules, s, a).0.Head(), Run(rules, s, a).0.work) <==>
      (RejectedLate(s, a) ==> SparedStaysIgnored(rules, s.Head(), a.formatted))
  {
    if a.inScope && a.applied.Some? {
      if a.verifies(s.verify + a.formatted) {
        CommitIsClean(rules, s.Head(), a.formatted);
      } else {
        RevertIsCleanIff(rules, s.Head(), a.formatted);
      }
    }
  }

  predicate CleanAfter(rules: Rules, s: State, attempts: seq<Attempt>)
    requires s.commits != []
  {
    Clean(rules, RunAll(rules, s, attempts).Head(), RunAll(rules, s, attempts).work)
  }

  predicate CleanThroughout(rules: Rules, s: State, attempts: seq<Attempt>)
    requires s.commits != []
  {
    CleanAfter(rules, s, attempts) && (attempts != [] ==> CleanThroughout(rules, s, attempts[..|attempts| - 1]))
  }

  /** No revert among the attempts spares a file that nothing ignores any more. */
  predicate RevertsSpareIgnored(rules: Rules, s: State, attempts: seq<Attempt>)
    requires s.commits != []
  {
    attempts != [] ==>
      var before, last := attempts[..|attempts| - 1], attempts[|attempts| - 1];
      var mid := RunAll(rules, s, before);
      && RevertsSpareIgnored(rules, s, before)
      && (RejectedLate(mid, last) ==> SparedStaysIgnored(rules, mid.Head(), last.formatted))
  }

  /** From a clean workspace, the worktree equals HEAD but for ignored files after every attempt of a
      sequence, if and only if no revert on the way spares a file that nothing ignores any more. */
  lemma {:induction false} WorkspaceStaysCleanIff(rules: Rules, s: State, attempts: seq<Attempt>)
    requires s.commits != [] && Clean(rules, s.Head(), s.work)
    ensures CleanThroughout(rules, s, attempts) <==> RevertsSpareIgnored(rules, s, attempts)
  {
    if attempts != [] {
      var before, last := attempts[..|attempts| - 1], attempts[|attempts| - 1];
      WorkspaceStaysCleanIff(rules, s, before);
      if CleanThroughout(rules, s, before) {
        AtItsEnd(rules, s, before);
        RunIsCleanIff(rules, RunAll(rules, s, before), last);
      }
    }
  }

  lemma AtItsEnd(rules: Rules, s: State, attempts: seq<Attempt>)
    requires s.commits != [] && CleanThroughout(rules, s, attempts)
    ensures CleanAfter(rules, s, attempts)
  {
  }

  /** Every attempt that is applied and then rejected left the untracked ignore files as they were. */
  predicate RejectedKeepRules(rules: Rules, s: State, attempts: seq<Attempt>)
    requires s.commits != []
  {
    attempts != [] ==>
      var before, last := attempts[..|attempts| - 1], attempts[|attempts| - 1];
      var mid := RunAll(rules, s, before);
      && RejectedKeepRules(rules, s, before)
      && (RejectedLate(mid, last) ==> SameUntrackedRules(mid.Head(), mid.work, last.formatted))
  }

  /** So it is enough that the rejected attempts leave the untracked ignore files alone; they may change
      tracked ones and any other file. */
  lemma {:induction false} WorkspaceStaysClean(rules: Rules, s: State, attempts: seq<Attempt>)
    requires s.commits != [] && Clean(rules, s.Head(), s.work) && RejectedKeepRules(rules, s, attempts)
    ensures CleanAfter(rules, s, attempts)
  {
    if attempts != [] {
      var before, last := attempts[..|attempts| - 1], attempts[|attempts| - 1];
      var mid := RunAll(rules, s, before);
      WorkspaceStaysClean(rules, s, before);
      if RejectedLate(mid, last) {
        RevertIsClean(rules, mid.Head(), mid.work, last.formatted);
        RevertIsCleanIff(rules, mid.Head(), last.formatted);
      }
      RunIsCleanIff(rules, mid, last);
    }
  }

  lemma RunTracks(rules: Rules, s: State, a: Attempt)
    requires s.commits != [] && Tracks(s.Head(), s.work)
    ensures Tracks(Run(rules, s, a).0.Head(), Run(rules, s, a).0.work)
  {
    if a.inScope && a.applied.Some? {
      CommitIsClean(rules, s.Head(), a.formatted);
      RevertRestoresTracked(rules, s.Head(), a.formatted);
    }
  }

  /** Whatever the attempts do, every tracked file has its committed content between them. */
  lemma {:induction false} TrackedFilesAgree(rules: Rules, s: State, attempts: seq<Attempt>)
    requires s.commits != [] && Tracks(s.Head(), s.work)
    ensures var end := RunAll(rules, s, attempts); Tracks(end.Head(), end.work)
  {
    if attempts != [] {
      TrackedFilesAgree(rules, s, attempts[..|attempts| - 1]);
      RunTracks(rules, RunAll(rules, s, attempts[..|attempts| - 1]), attempts[|attempts| - 1]);
    }
  }
}
