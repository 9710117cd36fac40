/** Editing a field of a manifest in the GitOps repository: write, add, commit, push, and restoring the
    file when a step fails. YAML text and git are other people's libraries: the codec is a parameter, a
    git step either succeeds or fails. */
module GitWriters {
  import opened Contracts
  import opened Text
  import opened Manifests

  /** YAML text to trees and back: `parse` yields the first document, None for text that does not parse or
      holds no document, and `others` the documents after it, which Unmarshal does not look at. */
  datatype Codec = Codec(parse: string -> Option<Node>, others: string -> seq<Node>, marshal: Node -> string) {
    /** The text of the tree parses as the tree. */
    ghost predicate ParsesBack(root: Node) { parse(marshal(root)) == Some(root) }

    /** The text of a tree is one document. */
    ghost predicate IsSingle(root: Node) { others(marshal(root)) == [] }
  }

  datatype File = File(path: string, bytes: string)

  /** A commit is the tree of what was staged: the text of each path. */
  type Tree = map<string, string>

  /** The YAML files in the order of the directory walk, what git has staged, the local commits (oldest
      first), and how many of them the remote has; `remote` is false when no remote is configured. */
  datatype Repo = Repo(files: seq<File>, index: Tree, commits: seq<Tree>, pushed: nat, remote: bool)

  /** A write to a file either happens or fails, leaving some contents behind. */
  datatype Write = Done | Broken(left: string)

  datatype Faults = Faults(
    write: Write, open: bool, worktree: bool, add: bool, commit: bool, push: bool, restore: Write)

  const NO_FAULTS := Faults(Done, false, false, false, false, false, Done)

  datatype Target = Target(namespace: string, name: string, kind: string)

  datatype EditError =
    | NoManifest | Unparsable | BadPath(error: PathError)
    | WriteFailed | OpenFailed | WorktreeFailed | AddFailed | CommitFailed | PushFailed

  datatype EditResult = EditResult(
    file: string, oldValue: string, newValue: string, committed: bool, dryRun: bool, noOp: bool)

  // Finding the manifest.

  /** A string field as the YAML decoder fills it: missing is empty, anything but a scalar is an error. */
  function Decoded(root: Node, parts: seq<string>): Option<string> {
    match GetAt(root, parts)
    case Ok(value) => Some(value)
    case Err(e) => if e == KeyNotFound then Some("") else None
  }

  predicate TreeMatches(root: Node, t: Target) {
    && Decoded(root, ["kind"]).Some? && Lower(Decoded(root, ["kind"]).value) == Lower(t.kind)
    && Decoded(root, ["metadata", "namespace"]) == Some(t.namespace)
    && Decoded(root, ["metadata", "name"]) == Some(t.name)
  }

  predicate ManifestMatches(codec: Codec, bytes: string, t: Target) {
    codec.parse(bytes).Some? && TreeMatches(codec.parse(bytes).value, t)
  }

  /** FindManifest from file i of the walk on. */
  function FindManifest(codec: Codec, files: seq<File>, t: Target, i: nat): (found: Option<nat>)
    ensures found.Some? ==> i <= found.value < |files| && ManifestMatches(codec, files[found.value].bytes, t)
    decreases |files| - i
  {
    if i >= |files| then None
    else if ManifestMatches(codec, files[i].bytes, t) then Some(i)
    else FindManifest(codec, files, t, i + 1)
  }

  /** The field reads as the text, where a missing one reads as "". */
  ghost predicate ReadsAs(root: Node, parts: seq<string>, text: string) {
    GetAt(root, parts) == Ok(text) || (GetAt(root, parts) == Err(KeyNotFound) && text == "")
  }

  /** The text is a manifest of this kind, up to case, in this namespace and with this name. */
  ghost predicate IsManifestOf(codec: Codec, bytes: string, namespace: string, name: string, kind: string) {
    && codec.parse(bytes).Some?
    && var root := codec.parse(bytes).value;
       && ReadsAs(root, ["metadata", "namespace"], namespace)
       && ReadsAs(root, ["metadata", "name"], name)
       && exists text :: ReadsAs(root, ["kind"], text) && SameUpToCase(text, kind)
  }

  lemma DecodedReads(root: Node, parts: seq<string>, text: string)
    ensures Decoded(root, parts) == Some(text) <==> ReadsAs(root, parts, text)
  {
    hide GetAt;
  }

  lemma MatchesIff(codec: Codec, bytes: string, t: Target)
    ensures ManifestMatches(codec, bytes, t) <==> IsManifestOf(codec, bytes, t.namespace, t.name, t.kind)
  {
    hide GetAt, Lower, SameUpToCase, Decoded, ReadsAs;
    if codec.parse(bytes).Some? {
      var root := codec.parse(bytes).value;
      DecodedReads(root, ["metadata", "namespace"], t.namespace);
      DecodedReads(root, ["metadata", "name"], t.name);
      forall text
        ensures Decoded(root, ["kind"]) == Some(text) <==> ReadsAs(root, ["kind"], text)
        ensures Lower(text) == Lower(t.kind) <==> SameUpToCase(text, t.kind)
      {
        DecodedReads(root, ["kind"], text);
        LowerEqualIff(text, t.kind);
      }
    }
  }

  /** The manifest found is the first file of the walk that is one of this kind, namespace and name, as its
      fields read; none is found exactly if there is none. */
  lemma {:induction false} FindsFirst(codec: Codec, files: seq<File>, t: Target, i: nat)
    requires i <= |files|
    ensures var found := FindManifest(codec, files, t, i);
            var end := if found == None then |files| else found.value;
            && (forall j :: i <= j < end ==> !IsManifestOf(codec, files[j].bytes, t.namespace, t.name, t.kind))
            && (found.Some? ==> IsManifestOf(codec, files[found.value].bytes, t.namespace, t.name, t.kind))
    decreases |files| - i
  {
    hide ManifestMatches, IsManifestOf;
    if i < |files| {
      MatchesIff(codec, files[i].bytes, t);
      if !ManifestMatches(codec, files[i].bytes, t) {
        FindsFirst(codec, files, t, i + 1);
      }
    }
  }

  // Editing.

  function WithBytes(repo: Repo, i: nat, bytes: string): Repo
    requires i < |repo.files|
  {
    repo.(files := repo.files[i := repo.files[i].(bytes := bytes)])
  }

  /** What a write leaves in the file. */
  function AfterWrite(w: Write, bytes: string): string {
    match w case Done => bytes case Broken(left) => left
  }

  /** commit(): the new repository, and the error if there was one. A commit takes everything that is
      staged, and staging is not undone when a later step fails. */
  function Committed(repo: Repo, i: nat, bytes: string, f: Faults): (Repo, Option<EditError>)
    requires i < |repo.files|
  {
    var restored := WithBytes(repo, i, AfterWrite(f.restore, repo.files[i].bytes));
    var written := WithBytes(repo, i, bytes);
    var index := repo.index[repo.files[i].path := bytes];
    var commits := repo.commits + [index];
    if f.write.Broken? then (WithBytes(repo, i, f.write.left), Some(WriteFailed))
    else if f.open then (restored, Some(OpenFailed))
    else if f.worktree then (restored, Some(WorktreeFailed))
    else if f.add then (restored, Some(AddFailed))
    else if f.commit then (restored.(index := index), Some(CommitFailed))
    else if repo.remote && f.push then (restored.(index := index, commits := commits), Some(PushFailed))
    else (written.(index := index, commits := commits, pushed := if repo.remote then |commits| else repo.pushed), None)
  }

  /** What an edit is going to write where: found, parsed and set, but not yet written. */
  datatype Plan = Plan(file: nat, bytes: string, oldValue: string)

  function Planned(codec: Codec, repo: Repo, t: Target, field: string, value: string): (r: Result<Plan, EditError>)
    ensures r.Ok? ==> r.value.file < |repo.files|
    ensures r.Err? ==> r.error in {NoManifest, Unparsable} || r.error.BadPath?
  {
    match FindManifest(codec, repo.files, t, 0)
    case None => Err(NoManifest)
    case Some(i) =>
      match codec.parse(repo.files[i].bytes)
      case None => Err(Unparsable)
      case Some(root) =>
        match SetAt(root, SplitPath(field), value)
        case Err(e) => Err(BadPath(e))
        case Ok((root', oldValue)) => Ok(Plan(i, codec.marshal(root'), oldValue))
  }

  function Edited(codec: Codec, repo: Repo, t: Target, field: string, value: string, dryRun: bool, f: Faults)
    : (Repo, Result<EditResult, EditError>)
  {
    match Planned(codec, repo, t, field, value)
    case Err(e) => (repo, Err(e))
    case Ok(plan) =>
      var res := EditResult(repo.files[plan.file].path, plan.oldValue, value, false, dryRun, plan.oldValue == value);
      if res.noOp || dryRun then (repo, Ok(res))
      else
        var (repo', error) := Committed(repo, plan.file, plan.bytes, f);
        (repo', if error == None then Ok(res.(committed := true)) else Err(error.value))
  }

  class Writer {
    const codec: Codec
    const remote: bool
    var files: seq<File>
    var index: Tree
    var commits: seq<Tree>
    var pushed: nat

    constructor (codec: Codec, repo: Repo)
      ensures this.codec == codec && View() == repo
    {
      this.codec, remote := codec, repo.remote;
      files, index, commits, pushed := repo.files, repo.index, repo.commits, repo.pushed;
    }

    ghost function View(): Repo
      reads this
    {
      Repo(files, index, commits, pushed, remote)
    }

    method Find(t: Target) returns (found: Option<nat>)
      ensures found == FindManifest(codec, files, t, 0)
      ensures found.Some? ==> IsManifestOf(codec, files[found.value].bytes, t.namespace, t.name, t.kind)
      ensures found == None ==> forall file <- files :: !IsManifestOf(codec, file.bytes, t.namespace, t.name, t.kind)
    {
      FindsFirst(codec, files, t, 0);
      for i := 0 to |files|
        invariant FindManifest(codec, files, t, 0) == FindManifest(codec, files, t, i)
      {
        if ManifestMatches(codec, files[i].bytes, t) {
          return Some(i);
        }
      }
      return None;
    }

    method WriteFile(i: nat, bytes: string, w: Write)
      requires i < |files|
      modifies this`files
      ensures View() == WithBytes(old(View()), i, AfterWrite(w, bytes))
    {
      match w {
        case Done => files := files[i := files[i].(bytes := bytes)];
        case Broken(left) => files := files[i := files[i].(bytes := left)];
      }
    }

    /** Writes and commits; on an error after the write, puts the snapshot back. */
    method CommitEdit(i: nat, bytes: string, f: Faults) returns (error: Option<EditError>)
      requires i < |files|
      modifies this
      ensures (View(), error) == Committed(old(View()), i, bytes, f)
    {
      var original := files[i].bytes;
      LastWriteCounts(View(), i, bytes, AfterWrite(f.restore, original));
      WriteFile(i, bytes, f.write);
      if f.write != Done {
        return Some(WriteFailed);
      }
      if f.open {
        WriteFile(i, original, f.restore);
        return Some(OpenFailed);
      }
      if f.worktree {
        WriteFile(i, original, f.restore);
        return Some(WorktreeFailed);
      }
      if f.add {
        WriteFile(i, original, f.restore);
        return Some(AddFailed);
      }
      index := index[files[i].path := bytes];
      if f.commit {
        WriteFile(i, original, f.restore);
        return Some(CommitFailed);
      }
      commits := commits + [index];
      if remote {
        if f.push {
          WriteFile(i, original, f.restore);
          return Some(PushFailed);
        }
        pushed := |commits|;
      }
      return None;
    }

    method EditField(t: Target, field: string, value: string, dryRun: bool, f: Faults)
      returns (r: Result<EditResult, EditError>)
      modifies this
      ensures (View(), r) == Edited(codec, old(View()), t, field, value, dryRun, f)
    {
      hide FindManifest, SetAt, SplitPath, Committed;
      var found := Find(t);
      if found == None {
        return Err(NoManifest);
      }
      var i := found.value;
      var doc := codec.parse(files[i].bytes);
      if doc == None {
        return Err(Unparsable);
      }
      var edited := SetAt(doc.value, SplitPath(field), value);
      if edited.Err? {
        return Err(BadPath(edited.error));
      }
      var oldValue := edited.value.1;
      var res := EditResult(files[i].path, oldValue, value, false, dryRun, oldValue == value);
      if res.noOp || dryRun {
        return Ok(res);
      }
      var error := CommitEdit(i, codec.marshal(edited.value.0), f);
      if error != None {
        return Err(error.value);
      }
      return Ok(res.(committed := true));
    }

    /** The walk over the commits that changed a file, newest first, which stops at the second. */
    method SecondVersion(path: string) returns (bytes: Option<string>)
      ensures var versions := History(commits, path);
              bytes == if |versions| < 2 then None else versions[1]
    {
      var count := 0;
      var k := |commits|;
      ghost var versions := History(commits, path);
      assert commits[..k] == commits;
      while k > 0
        invariant k <= |commits| && count <= 1 && count <= |versions|
        invariant versions[count..] == History(commits[..k], path)
      {
        assert commits[..k][..k - 1] == commits[..k - 1];
        k := k - 1;
        if Version(commits, k + 1, path) != Version(commits, k, path) {
          count := count + 1;
          if count == 2 {
            return Version(commits, k + 1, path);
          }
        }
      }
      return None;
    }

    method GetPreviousValue(t: Target, field: string) returns (value: Option<string>)
      ensures value == PreviousValue(codec, View(), t, field)
    {
      hide History;
      var found := Find(t);
      if found == None {
        return None;
      }
      var bytes := SecondVersion(files[found.value].path);
      if bytes == None {
        return None;
      }
      var r := ValueIn(codec, bytes.value, field);
      return if r.Ok? then Some(r.value) else None;
    }

    method GetCurrentValue(t: Target, field: string) returns (r: Result<string, EditError>)
      ensures r == CurrentValue(codec, View(), t, field)
    {
      var found := Find(t);
      if found == None {
        return Err(NoManifest);
      }
      var doc := codec.parse(files[found.value].bytes);
      if doc == None {
        return Err(Unparsable);
      }
      match GetAt(doc.value, SplitPath(field)) {
        case Err(e) => return Err(BadPath(e));
        case Ok(value) => return Ok(value);
      }
    }
  }

  function CurrentValue(codec: Codec, repo: Repo, t: Target, field: string): Result<string, EditError> {
    match FindManifest(codec, repo.files, t, 0)
    case None => Err(NoManifest)
    case Some(i) => ValueIn(codec, repo.files[i].bytes, field)
  }

  function ValueIn(codec: Codec, bytes: string, field: string): Result<string, EditError> {
    match codec.parse(bytes)
    case None => Err(Unparsable)
    case Some(root) => match GetAt(root, SplitPath(field)) case Err(e) => Err(BadPath(e)) case Ok(value) => Ok(value)
  }

  /** What a file is after the first n commits; None if it is not there. */
  function Version(commits: seq<Tree>, n: nat, path: string): Option<string>
    requires n <= |commits|
  {
    if n > 0 && path in commits[n - 1] then Some(commits[n - 1][path]) else None
  }

  /** What the commits that changed a file made of it, newest first. */
  function History(commits: seq<Tree>, path: string): seq<Option<string>> {
    if commits == [] then []
    else
      var n := |commits| - 1;
      (if Version(commits, n + 1, path) != Version(commits, n, path) then [Version(commits, n + 1, path)] else [])
      + History(commits[..n], path)
  }

  /** GetPreviousValue: the field in the last but one commit that changed the file. */
  function PreviousValue(codec: Codec, repo: Repo, t: Target, field: string): Option<string> {
    match FindManifest(codec, repo.files, t, 0)
    case None => None
    case Some(i) =>
      var versions := History(repo.commits, repo.files[i].path);
      if |versions| < 2 then None else ValueOf(codec, versions[1], field)
  }

  function ValueOf(codec: Codec, version: Option<string>, field: string): Option<string> {
    match version
    case None => None
    case Some(bytes) => match ValueIn(codec, bytes, field) case Err(_) => None case Ok(value) => Some(value)
  }

  // Failure atomicity.

  /** The failure after which the file is not what it was: a write that broke it (nothing is restored
      then), or a later step together with a restoring write that did not do its work. */
  predicate Spoils(repo: Repo, i: nat, f: Faults)
    requires i < |repo.files|
  {
    if f.write.Broken? then f.write.left != repo.files[i].bytes
    else AfterWrite(f.restore, repo.files[i].bytes) != repo.files[i].bytes
  }

  lemma LastWriteCounts(repo: Repo, i: nat, first: string, second: string)
    requires i < |repo.files|
    ensures WithBytes(WithBytes(repo, i, first), i, second) == WithBytes(repo, i, second)
  {}

  lemma SameFilesIff(repo: Repo, i: nat, bytes: string)
    requires i < |repo.files|
    ensures WithBytes(repo, i, bytes).files == repo.files <==> bytes == repo.files[i].bytes
  {
    assert WithBytes(repo, i, bytes).files[i].bytes == bytes;
  }

  lemma FailedCommitRestoresIff(repo: Repo, i: nat, bytes: string, f: Faults)
    requires i < |repo.files| && Committed(repo, i, bytes, f).1.Some?
    ensures Committed(repo, i, bytes, f).0.files == repo.files <==> !Spoils(repo, i, f)
  {
    SameFilesIff(repo, i, AfterWrite(f.restore, repo.files[i].bytes));
    if f.write.Broken? {
      SameFilesIff(repo, i, f.write.left);
    }
  }

  /** An edit that is not a success leaves all files byte-identical exactly if nothing was to be written
      (no manifest, no such field, a dry run, or the value is there already), or no failed write spoiled
      the manifest; if nothing was to be written, nothing at all is changed. */
  lemma FailedEditRestoresIff(
      codec: Codec, repo: Repo, t: Target, field: string, value: string, dryRun: bool, f: Faults)
    requires var r := Edited(codec, repo, t, field, value, dryRun, f).1; r.Err? || !r.value.committed
    ensures var repo' := Edited(codec, repo, t, field, value, dryRun, f).0;
            var plan := Planned(codec, repo, t, field, value);
            var nothing := plan.Err? || dryRun || plan.value.oldValue == value;
            && (repo'.files == repo.files <==> nothing || !Spoils(repo, plan.value.file, f))
            && (nothing ==> repo' == repo)
  {
    hide Planned, Spoils, Committed;
    var planned := Planned(codec, repo, t, field, value);
    if planned.Ok? && !dryRun && planned.value.oldValue != value {
      FailedCommitRestoresIff(repo, planned.value.file, planned.value.bytes, f);
    }
  }

  /** The error names the first step that failed; a push fails only where there is a remote. */
  lemma FirstFailureIsReported(repo: Repo, i: nat, bytes: string, f: Faults)
    requires i < |repo.files|
    ensures var error := Committed(repo, i, bytes, f).1;
            && (error == Some(WriteFailed) <==> f.write.Broken?)
            && (error == Some(OpenFailed) <==> f.write == Done && f.open)
            && (error == Some(WorktreeFailed) <==> f.write == Done && !f.open && f.worktree)
            && (error == Some(AddFailed) <==> f.write == Done && !f.open && !f.worktree && f.add)
            && (error == Some(CommitFailed) <==> f.write == Done && !f.open && !f.worktree && !f.add && f.commit)
            && (error == Some(PushFailed) <==>
                  f.write == Done && !f.open && !f.worktree && !f.add && !f.commit && f.push && repo.remote)
            && (error == None <==>
                  f.write == Done && !f.open && !f.worktree && !f.add && !f.commit && !(f.push && repo.remote))
  {
    hide WithBytes;
  }

  /** What an edit reports: no manifest exactly if no file is one of that kind, namespace and name, else the
      path's error if it leads to no scalar; else, unless a step failed, file, old and new value, and whether
      it was a dry run, changed nothing, or was committed. */
  lemma EditReports(codec: Codec, repo: Repo, t: Target, field: string, value: string, dryRun: bool, f: Faults)
    ensures var r := Edited(codec, repo, t, field, value, dryRun, f).1;
            && (r == Err(NoManifest) <==>
                  forall file <- repo.files :: !IsManifestOf(codec, file.bytes, t.namespace, t.name, t.kind))
            && r != Err(Unparsable)
            && (forall e :: r == Err(BadPath(e)) <==> CurrentValue(codec, repo, t, field) == Err(BadPath(e)))
            && (r.Ok? ==>
                  var i := FindManifest(codec, repo.files, t, 0);
                  && i.Some? && r.value.file == repo.files[i.value].path
                  && CurrentValue(codec, repo, t, field) == Ok(r.value.oldValue)
                  && r.value.newValue == value && r.value.dryRun == dryRun
                  && r.value.noOp == (r.value.oldValue == value)
                  && r.value.committed == (!r.value.noOp && !dryRun))
  {
    hide FindManifest, SplitPath, Navigate, Committed, IsManifestOf, ManifestMatches;
    FindsFirst(codec, repo.files, t, 0);
    var found := FindManifest(codec, repo.files, t, 0);
    if found.Some? {
      MatchParses(codec, repo.files[found.value].bytes, t);
      var plan := Planned(codec, repo, t, field, value);
      if plan.Ok? {
        ReportedFailures(repo, plan.value.file, plan.value.bytes, f);
      }
    }
  }

  lemma MatchParses(codec: Codec, bytes: string, t: Target)
    requires ManifestMatches(codec, bytes, t)
    ensures codec.parse(bytes).Some?
  {}

  lemma ReportedFailures(repo: Repo, i: nat, bytes: string, f: Faults)
    requires i < |repo.files|
    ensures var error := Committed(repo, i, bytes, f).1;
            error.Some? ==>
              error.value in {WriteFailed, OpenFailed, WorktreeFailed, AddFailed, CommitFailed, PushFailed}
  {
    hide WithBytes;
  }

  /** The current value is what the path reads in the first manifest of the walk. */
  lemma CurrentValueIs(codec: Codec, repo: Repo, t: Target, field: string)
    ensures var found := FindManifest(codec, repo.files, t, 0);
            match CurrentValue(codec, repo, t, field)
            case Ok(value) =>
              && found.Some? && codec.parse(repo.files[found.value].bytes).Some?
              && GetAt(codec.parse(repo.files[found.value].bytes).value, SplitPath(field)) == Ok(value)
            case Err(error) =>
              if found == None then error == NoManifest
              else
                && error.BadPath? && codec.parse(repo.files[found.value].bytes).Some?
                && GetAt(codec.parse(repo.files[found.value].bytes).value, SplitPath(field)) == Err(error.error)
  {
    hide FindManifest, SplitPath, GetAt, ManifestMatches;
    var found := FindManifest(codec, repo.files, t, 0);
    if found.Some? {
      MatchParses(codec, repo.files[found.value].bytes, t);
    }
  }

  /** A failed push has restored the file but keeps the local commit: the next edit starts from a
      working copy that differs from the last commit. */
  lemma FailedPushKeepsCommit(codec: Codec, repo: Repo, t: Target, field: string, value: string, f: Faults)
    requires Edited(codec, repo, t, field, value, false, f).1 == Err(PushFailed)
    ensures var repo' := Edited(codec, repo, t, field, value, false, f).0;
            && |repo'.commits| == |repo.commits| + 1 && repo'.pushed == repo.pushed
            && (f.restore == Done ==> repo'.files == repo.files)
  {
    hide Planned;
  }

  /** A successful edit has written exactly the tree that SetField makes, and to no other file. It has
      committed that together with whatever was staged before, and the remote, if there is one, has all
      commits. */
  lemma SuccessfulEditWritesTree(codec: Codec, repo: Repo, t: Target, field: string, value: string, f: Faults)
      returns (i: nat, root: Node)
    requires Edited(codec, repo, t, field, value, false, f).1.Ok?
    requires !Edited(codec, repo, t, field, value, false, f).1.value.noOp
    ensures FindManifest(codec, repo.files, t, 0) == Some(i) && codec.parse(repo.files[i].bytes) == Some(root)
    ensures IsManifestOf(codec, repo.files[i].bytes, t.namespace, t.name, t.kind)
    ensures SetAt(root, SplitPath(field), value).Ok?
    ensures var after := Edited(codec, repo, t, field, value, false, f).0;
            var (edited, oldValue) := SetAt(root, SplitPath(field), value).value;
            && after.files == repo.files[i := repo.files[i].(bytes := codec.marshal(edited))]
            && (codec.ParsesBack(edited) ==> codec.parse(after.files[i].bytes) == Some(edited))
            && after.index == repo.index[repo.files[i].path := codec.marshal(edited)]
            && after.commits == repo.commits + [after.index]
            && after.remote == repo.remote && (repo.remote ==> after.pushed == |after.commits|)
            && Edited(codec, repo, t, field, value, false, f).1.value.oldValue == oldValue != value
  {
    hide FindManifest, SetAt, SplitPath, IsManifestOf;
    FindsFirst(codec, repo.files, t, 0);
    i := FindManifest(codec, repo.files, t, 0).value;
    root := codec.parse(repo.files[i].bytes).value;
  }

  /** SetField reads the first document and writes it back alone: a successful edit keeps the other
      documents of the manifest exactly if there were none. */
  lemma OtherDocumentsKeptIff(codec: Codec, repo: Repo, t: Target, field: string, value: string, f: Faults)
      returns (i: nat, root: Node)
    requires Edited(codec, repo, t, field, value, false, f).1.Ok?
    requires !Edited(codec, repo, t, field, value, false, f).1.value.noOp
    ensures FindManifest(codec, repo.files, t, 0) == Some(i) && codec.parse(repo.files[i].bytes) == Some(root)
    ensures SetAt(root, SplitPath(field), value).Ok?
    ensures var files := Edited(codec, repo, t, field, value, false, f).0.files;
            && i < |files|
            && (codec.IsSingle(SetAt(root, SplitPath(field), value).value.0) ==>
                  (codec.others(files[i].bytes) == codec.others(repo.files[i].bytes) <==>
                     codec.others(repo.files[i].bytes) == []))
  {
    hide FindManifest, SetAt, SplitPath, Edited;
    i, root := SuccessfulEditWritesTree(codec, repo, t, field, value, f);
  }
}
