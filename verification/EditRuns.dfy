/** Sequences of edits: what an edit that was reported as failed leaves behind for the next ones. */
module EditRuns {
  import opened Contracts
  import opened GitWriters

  datatype Request = Request(t: Target, field: string, value: string, dryRun: bool, faults: Faults)

  function Step(codec: Codec, repo: Repo, q: Request): (Repo, Result<EditResult, EditError>) {
    Edited(codec, repo, q.t, q.field, q.value, q.dryRun, q.faults)
  }

  /** The repository after the first n edits. */
  function After(codec: Codec, repo: Repo, qs: seq<Request>, n: nat): Repo
    requires n <= |qs|
  {
    if n == 0 then repo else Step(codec, After(codec, repo, qs, n - 1), qs[n - 1]).0
  }

  /** What edit k reports. */
  function ResultOf(codec: Codec, repo: Repo, qs: seq<Request>, k: nat): Result<EditResult, EditError>
    requires k < |qs|
  {
    Step(codec, After(codec, repo, qs, k), qs[k]).1
  }

  predicate Succeeds(codec: Codec, repo: Repo, qs: seq<Request>, k: nat)
    requires k < |qs|
  {
    var r := ResultOf(codec, repo, qs, k);
    r.Ok? && r.value.committed
  }

  /** Edit k made a commit, pushed or not. */
  predicate Commits(codec: Codec, repo: Repo, qs: seq<Request>, k: nat)
    requires k < |qs|
  {
    Succeeds(codec, repo, qs, k) || ResultOf(codec, repo, qs, k) == Err(PushFailed)
  }

  /** Edit k got as far as staging its text. */
  predicate Stages(codec: Codec, repo: Repo, qs: seq<Request>, k: nat)
    requires k < |qs|
  {
    Commits(codec, repo, qs, k) || ResultOf(codec, repo, qs, k) == Err(CommitFailed)
  }

  /** What edit k plans to write; the manifest exists if it gets that far. */
  function PlanOf(codec: Codec, repo: Repo, qs: seq<Request>, k: nat): Result<Plan, EditError>
    requires k < |qs|
  {
    Planned(codec, After(codec, repo, qs, k), qs[k].t, qs[k].field, qs[k].value)
  }

  /** Edit k stages the text for the path. */
  predicate StagesAt(codec: Codec, repo: Repo, qs: seq<Request>, k: nat, path: string, text: string)
    requires k < |qs|
  {
    && Stages(codec, repo, qs, k)
    && var plan := PlanOf(codec, repo, qs, k);
       plan.Ok? && After(codec, repo, qs, k).files[plan.value.file].path == path && plan.value.bytes == text
  }

  /** What the first n edits leave staged for the path: the last text staged for it, whatever was reported
      for that edit, or else what was staged at the start. */
  function LastStaged(codec: Codec, repo: Repo, qs: seq<Request>, n: nat, path: string): Option<string>
    requires n <= |qs|
  {
    if n == 0 then if path in repo.index then Some(repo.index[path]) else None
    else
      var plan := PlanOf(codec, repo, qs, n - 1);
      if plan.Ok? && StagesAt(codec, repo, qs, n - 1, path, plan.value.bytes) then Some(plan.value.bytes)
      else LastStaged(codec, repo, qs, n - 1, path)
  }

  /** One edit, as far as git is concerned. */
  lemma EditInGit(codec: Codec, repo: Repo, qs: seq<Request>, k: nat)
    requires k < |qs|
    ensures var (before, after) := (After(codec, repo, qs, k), After(codec, repo, qs, k + 1));
            && after.remote == before.remote
            && (Stages(codec, repo, qs, k) ==>
                  var plan := PlanOf(codec, repo, qs, k);
                  plan.Ok? && after.index == before.index[before.files[plan.value.file].path := plan.value.bytes])
            && (!Stages(codec, repo, qs, k) ==> after.index == before.index)
            && after.commits == before.commits + (if Commits(codec, repo, qs, k) then [after.index] else [])
            && after.pushed == if Succeeds(codec, repo, qs, k) && before.remote then |after.commits| else before.pushed
  {
    hide Planned, After, Step;
    var before, q := After(codec, repo, qs, k), qs[k];
    AfterStep(codec, repo, qs, k);
    StepInGit(codec, before, q);
  }

  lemma AfterNone(codec: Codec, repo: Repo, qs: seq<Request>)
    ensures After(codec, repo, qs, 0) == repo
  {}

  lemma AfterStep(codec: Codec, repo: Repo, qs: seq<Request>, k: nat)
    requires k < |qs|
    ensures After(codec, repo, qs, k + 1) == Step(codec, After(codec, repo, qs, k), qs[k]).0
  {}

  lemma StepInGit(codec: Codec, repo: Repo, q: Request)
    ensures var (repo', r) := Step(codec, repo, q);
            var plan := Planned(codec, repo, q.t, q.field, q.value);
            var succeeds := r.Ok? && r.value.committed;
            var commits := succeeds || r == Err(PushFailed);
            var stages := commits || r == Err(CommitFailed);
            && repo'.remote == repo.remote
            && (stages ==> plan.Ok? && repo'.index == repo.index[repo.files[plan.value.file].path := plan.value.bytes])
            && (!stages ==> repo'.index == repo.index)
            && repo'.commits == repo.commits + (if commits then [repo'.index] else [])
            && repo'.pushed == if succeeds && repo.remote then |repo'.commits| else repo.pushed
  {
    hide Planned, Committed;
    var plan := Planned(codec, repo, q.t, q.field, q.value);
    if plan.Ok? && plan.value.oldValue != q.value && !q.dryRun {
      CommittedInGit(repo, plan.value.file, plan.value.bytes, q.faults);
    }
  }

  lemma CommittedInGit(repo: Repo, i: nat, bytes: string, f: Faults)
    requires i < |repo.files|
    ensures var (repo', error) := Committed(repo, i, bytes, f);
            var commits := error in {None, Some(PushFailed)};
            && repo'.remote == repo.remote
            && repo'.index == (if commits || error == Some(CommitFailed)
                               then repo.index[repo.files[i].path := bytes] else repo.index)
            && repo'.commits == repo.commits + (if commits then [repo'.index] else [])
            && (error.None?
                || error.value in {WriteFailed, OpenFailed, WorktreeFailed, AddFailed, CommitFailed, PushFailed})
            && repo'.pushed == if error == None && repo.remote then |repo'.commits| else repo.pushed
  {}

  /** Commits are never lost or rewritten, and the remote never has more than there are. */
  lemma {:induction false} CommitsStay(codec: Codec, repo: Repo, qs: seq<Request>, k: nat, n: nat)
    requires k <= n <= |qs| && repo.pushed <= |repo.commits|
    ensures After(codec, repo, qs, k).commits <= After(codec, repo, qs, n).commits
    ensures After(codec, repo, qs, n).pushed <= |After(codec, repo, qs, n).commits|
    ensures After(codec, repo, qs, n).remote == repo.remote
    decreases n
  {
    hide Commits, Stages, PlanOf, Succeeds;
    hide ResultOf, After;
    if n > 0 {
      CommitsStay(codec, repo, qs, if k < n then k else n - 1, n - 1);
      EditInGit(codec, repo, qs, n - 1);
    } else {
      AfterNone(codec, repo, qs);
    }
  }

  /** An edit whose push failed is on the remote later exactly if some later edit was pushed: its commit
      goes along, although it was reported as an error and the file was put back. */
  lemma {:induction false} FailedPushArrivesIff(codec: Codec, repo: Repo, qs: seq<Request>, k: nat, n: nat)
    requires k < n <= |qs| && repo.pushed <= |repo.commits| && ResultOf(codec, repo, qs, k) == Err(PushFailed)
    ensures var (its, end) := (|After(codec, repo, qs, k).commits|, After(codec, repo, qs, n));
            && its < |end.commits|
            && end.commits[its] == After(codec, repo, qs, k + 1).index
            && (its < end.pushed <==> exists j :: k < j < n && Succeeds(codec, repo, qs, j))
    decreases n
  {
    hide Stages, PlanOf, Succeeds, After, ResultOf;
    assert !Succeeds(codec, repo, qs, k) by { hide *; PushFailedOnly(codec, repo, qs, k); }
    EditInGit(codec, repo, qs, n - 1);
    CommitsStay(codec, repo, qs, k, k);
    CommitsStay(codec, repo, qs, k, n - 1);
    if k < n - 1 {
      FailedPushArrivesIff(codec, repo, qs, k, n - 1);
      if Succeeds(codec, repo, qs, n - 1) {
        assert After(codec, repo, qs, n).remote by { FailedPushHasRemote(codec, repo, qs, k, n); }
      }
    }
  }

  lemma PushFailedOnly(codec: Codec, repo: Repo, qs: seq<Request>, k: nat)
    requires k < |qs| && ResultOf(codec, repo, qs, k) == Err(PushFailed)
    ensures !Succeeds(codec, repo, qs, k)
  {
    hide ResultOf;
  }

  lemma FailedPushHasRemote(codec: Codec, repo: Repo, qs: seq<Request>, k: nat, n: nat)
    requires k < n <= |qs| && repo.pushed <= |repo.commits| && ResultOf(codec, repo, qs, k) == Err(PushFailed)
    ensures After(codec, repo, qs, n).remote
  {
    hide After, Planned, WithBytes;
    CommitsStay(codec, repo, qs, k, k);
    CommitsStay(codec, repo, qs, k, n);
  }

  /** What is staged is always the last text that an edit staged, reported as failed or not. */
  lemma {:induction false} IndexIsLastStaged(codec: Codec, repo: Repo, qs: seq<Request>, n: nat, path: string)
    requires n <= |qs|
    ensures var index := After(codec, repo, qs, n).index;
            LastStaged(codec, repo, qs, n, path) == if path in index then Some(index[path]) else None
  {
    hide Stages, PlanOf, After, Commits, Succeeds, ResultOf;
    if n > 0 {
      IndexIsLastStaged(codec, repo, qs, n - 1, path);
      EditInGit(codec, repo, qs, n - 1);
    } else {
      AfterNone(codec, repo, qs);
    }
  }

  /** So every commit holds, for every path, the last text staged for it. */
  lemma CommitTakesLastStaged(codec: Codec, repo: Repo, qs: seq<Request>, n: nat, path: string)
    requires n < |qs| && Commits(codec, repo, qs, n)
    ensures var commits := After(codec, repo, qs, n + 1).commits;
            && |commits| == |After(codec, repo, qs, n).commits| + 1
            && LastStaged(codec, repo, qs, n + 1, path) == Version(commits, |commits|, path)
  {
    hide Commits, PlanOf, After, LastStaged, Stages;
    IndexIsLastStaged(codec, repo, qs, n + 1, path);
    EditInGit(codec, repo, qs, n);
  }

  /** No edit after k and before n stages another text for the path. */
  ghost predicate NotRestaged(codec: Codec, repo: Repo, qs: seq<Request>, k: nat, n: nat, path: string, text: string)
    requires n <= |qs|
  {
    forall j: nat, other :: k < j < n && StagesAt(codec, repo, qs, j, path, other) ==> other == text
  }

  lemma {:induction false} StaysStaged(
      codec: Codec, repo: Repo, qs: seq<Request>, k: nat, n: nat, path: string, text: string)
    requires k < n <= |qs| && StagesAt(codec, repo, qs, k, path, text)
    requires NotRestaged(codec, repo, qs, k, n, path, text)
    ensures LastStaged(codec, repo, qs, n, path) == Some(text)
    decreases n
  {
    hide Stages, PlanOf, After;
    if k < n - 1 {
      StaysStaged(codec, repo, qs, k, n - 1, path, text);
    }
  }

  /** An edit that failed at the commit (or at the push) reaches the remote with the next edit that
      succeeds, whichever manifest that one is about, unless its path has been staged anew; this although
      it was reported as failed and its own file was put back. */
  lemma FailedCommitIsTakenAlong(codec: Codec, repo: Repo, qs: seq<Request>, k: nat, n: nat, path: string, text: string)
    requires k < n < |qs| && repo.remote && Succeeds(codec, repo, qs, n)
    requires ResultOf(codec, repo, qs, k) in {Err(CommitFailed), Err(PushFailed)}
    requires StagesAt(codec, repo, qs, k, path, text) && NotRestaged(codec, repo, qs, k, n + 1, path, text)
    requires repo.pushed <= |repo.commits|
    ensures var end := After(codec, repo, qs, n + 1);
            end.pushed == |end.commits| && Version(end.commits, end.pushed, path) == Some(text)
  {
    hide PlanOf, After, LastStaged, Stages, StagesAt, ResultOf, NotRestaged;
    CommitTakesLastStaged(codec, repo, qs, n, path);
    StaysStaged(codec, repo, qs, k, n + 1, path, text);
    CommitsStay(codec, repo, qs, 0, n);
    EditInGit(codec, repo, qs, n);
  }
}
