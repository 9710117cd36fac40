/** When Apply followed by Rollback is the identity on the manifest. */
module Rollbacks {
  import opened Contracts
  import opened Text
  import opened Manifests
  import opened GitWriters
  import opened Quantities
  import opened Remediators

  // The field paths of the actions.

  function Attach(c: char, parts: seq<string>): seq<string>
    requires parts != []
  {
    [[c] + parts[0]] + parts[1..]
  }

  lemma AttachConcat(c: char, left: seq<string>, right: seq<string>)
    requires left != []
    ensures Attach(c, left + right) == Attach(c, left) + right
  {}

  lemma SplitStep(c: char, s: string, sep: char)
    ensures Split([c] + s, sep) == if c == sep then [[]] + Split(s, sep) else Attach(c, Split(s, sep))
  {
    assert ([c] + s)[1..] == s;
  }

  lemma {:induction false} SplitConcat(a: string, b: string, sep: char)
    ensures Split(a + [sep] + b, sep) == Split(a, sep) + Split(b, sep)
  {
    if a == [] {
      assert a + [sep] + b == [sep] + b;
      SplitStep(sep, b, sep);
      assert Split(a, sep) == [[]];
    } else {
      var c, rest := a[0], a[1..];
      SplitConcat(rest, b, sep);
      assert a == [c] + rest && a + [sep] + b == [c] + (rest + [sep] + b);
      SplitSteps(c, rest, rest + [sep] + b, Split(b, sep), sep);
    }
  }

  lemma SplitSteps(c: char, s: string, whole: string, right: seq<string>, sep: char)
    requires Split(whole, sep) == Split(s, sep) + right
    ensures Split([c] + whole, sep) == Split([c] + s, sep) + right
  {
    hide Split, Attach;
    SplitStep(c, s, sep);
    SplitStep(c, whole, sep);
    AttachConcat(c, Split(s, sep), right);
  }

  lemma {:induction false} NonEmptyConcat(a: seq<string>, b: seq<string>)
    ensures NonEmpty(a + b) == NonEmpty(a) + NonEmpty(b)
  {
    if b == [] {
      assert a + b == a;
    } else {
      assert (a + b)[..|a + b| - 1] == a + b[..|b| - 1];
      NonEmptyConcat(a, b[..|b| - 1]);
    }
  }

  lemma SplitPathConcat(a: string, b: string)
    ensures SplitPath(a + "." + b) == SplitPath(a) + SplitPath(b)
  {
    SplitConcat(a, b, '.');
    NonEmptyConcat(Split(a, '.'), Split(b, '.'));
  }

  lemma SplitPathPart(p: string)
    requires PlainPart(p)
    ensures SplitPath(p) == [p]
  {
    SplitPathInvertsJoin([p]);
  }

  /** The path starts below "spec" and does not end in a name. */
  predicate BelowSpec(parts: seq<string>) {
    |parts| >= 2 && parts[0] == "spec" && parts[|parts| - 1] != "name"
  }

  lemma FieldBelowSpec(path: string, middle: string, last: string)
    requires path == "spec" + "." + (middle + "." + last) && PlainPart(last) && last != "name"
    ensures BelowSpec(SplitPath(path))
  {
    hide SplitPath, PlainPart;
    PlainSpec();
    SplitPathConcat("spec", middle + "." + last);
    SplitPathConcat(middle, last);
    SplitPathPart("spec");
    SplitPathPart(last);
  }

  lemma PlainSpec()
    ensures PlainPart("spec")
  {}

  lemma PlainNames()
    ensures PlainPart("replicas") && PlainPart("minReplicas") && PlainPart("memory") && PlainPart("image")
  {}

  /** All four fields lie below spec, whatever the container is called. */
  lemma ActionFieldsBelowSpec(container: string)
    ensures BelowSpec(SplitPath(REPLICAS_FIELD)) && BelowSpec(SplitPath(MIN_REPLICAS_FIELD))
    ensures BelowSpec(SplitPath(MemoryField(container))) && BelowSpec(SplitPath(ImageField(container)))
  {
    hide SplitPath, PlainPart, BelowSpec;
    PlainNames();
    ShortField("replicas");
    ShortField("minReplicas");
    assert REPLICAS_FIELD == "spec" + "." + "replicas" && MIN_REPLICAS_FIELD == "spec" + "." + "minReplicas";
    var middle := "template.spec.containers[name=" + container + "]";
    ContainerFieldIs(container, ".image");
    ContainerFieldIs(container, ".resources.limits.memory");
    assert middle + ".image" == middle + "." + "image";
    assert middle + ".resources.limits.memory" == middle + ".resources.limits" + "." + "memory";
    FieldBelowSpec(ImageField(container), middle, "image");
    FieldBelowSpec(MemoryField(container), middle + ".resources.limits", "memory");
  }

  function MemoryPath(container: string): seq<string> {
    ["spec", "template", "spec", "containers[name=" + container + "]", "resources", "limits", "memory"]
  }

  function ImagePath(container: string): seq<string> {
    ["spec", "template", "spec", "containers[name=" + container + "]", "image"]
  }

  /** The four actions write the replica count of a deployment, the minimum of an autoscaler, and the memory
      limit and the image of the container of that name; the latter two exactly unless that name has a dot,
      at which the path would be split. */
  lemma ActionFieldsAre(container: string)
    ensures SplitPath(REPLICAS_FIELD) == ["spec", "replicas"]
    ensures SplitPath(MIN_REPLICAS_FIELD) == ["spec", "minReplicas"]
    ensures SplitPath(MemoryField(container)) == MemoryPath(container) <==> '.' !in container
    ensures SplitPath(ImageField(container)) == ImagePath(container) <==> '.' !in container
    ensures ParseArraySelector("containers[name=" + container + "]") == Some(("containers", container))
  {
    hide SplitPath, PlainPart, ParseArraySelector, Join, MemoryPath, ImagePath;
    FieldsJoin();
    ContainerFieldsJoin(container);
    SplitPathInvertsJoin(["spec", "replicas"]);
    SplitPathInvertsJoin(["spec", "minReplicas"]);
    SplitPathInvertsJoin(MemoryPath(container));
    SplitPathInvertsJoin(ImagePath(container));
    PlainNames();
    PlainSpec();
    PathsPlain(container);
    assert "containers[name=" + container + "]" == Selector("containers", container);
    ParseInvertsSelector("containers", container);
  }

  lemma JoinStep(part: string, rest: seq<string>)
    requires rest != []
    ensures Join([part] + rest, '.') == part + "." + Join(rest, '.')
  {
    assert ([part] + rest)[1..] == rest;
  }

  lemma JoinTwo(a: string, b: string)
    ensures Join([a, b], '.') == a + "." + b
  {
    assert [a] + [b] == [a, b];
    JoinStep(a, [b]);
  }

  lemma FieldsJoin()
    ensures REPLICAS_FIELD == Join(["spec", "replicas"], '.')
    ensures MIN_REPLICAS_FIELD == Join(["spec", "minReplicas"], '.')
  {
    hide Join;
    JoinTwo("spec", "replicas");
    JoinTwo("spec", "minReplicas");
  }

  lemma MemoryTail(part: string)
    ensures Join([part, "resources", "limits", "memory"], '.') == part + ".resources.limits.memory"
  {
    hide Join;
    JoinTwo("limits", "memory");
    assert ["resources"] + ["limits", "memory"] == ["resources", "limits", "memory"];
    JoinStep("resources", ["limits", "memory"]);
    assert [part] + ["resources", "limits", "memory"] == [part, "resources", "limits", "memory"];
    JoinStep(part, ["resources", "limits", "memory"]);
    assert "." + ("resources" + "." + ("limits" + "." + "memory")) == ".resources.limits.memory";
  }

  lemma ImageTail(part: string)
    ensures Join([part, "image"], '.') == part + ".image"
  {
    hide Join;
    JoinTwo(part, "image");
    assert "." + "image" == ".image";
  }

  lemma ContainerFieldsJoin(container: string)
    ensures MemoryField(container) == Join(MemoryPath(container), '.')
    ensures ImageField(container) == Join(ImagePath(container), '.')
  {
    hide Join;
    var part := "containers[name=" + container + "]";
    ContainerFieldStarts(container, ".image");
    ContainerFieldStarts(container, ".resources.limits.memory");
    ImageTail(part);
    SpecJoin([part, "image"]);
    assert ImagePath(container) == ["spec", "template", "spec"] + [part, "image"];
    MemoryTail(part);
    SpecJoin([part, "resources", "limits", "memory"]);
    assert MemoryPath(container) == ["spec", "template", "spec"] + [part, "resources", "limits", "memory"];
  }

  lemma ContainerFieldStarts(container: string, rest: string)
    ensures ContainerField(container, rest) == "spec.template.spec." + ("containers[name=" + container + "]" + rest)
  {
    assert "spec.template.spec.containers[name=" == "spec.template.spec." + "containers[name=";
  }

  lemma SpecJoin(rest: seq<string>)
    requires rest != []
    ensures Join(["spec", "template", "spec"] + rest, '.') == "spec.template.spec." + Join(rest, '.')
  {
    hide Join;
    JoinStep("spec", rest);
    JoinStep("template", ["spec"] + rest);
    JoinStep("spec", ["template"] + (["spec"] + rest));
    assert ["spec", "template", "spec"] + rest == ["spec"] + (["template"] + (["spec"] + rest));
    var tail := Join(rest, '.');
    assert "spec" + "." + ("template" + "." + ("spec" + "." + tail)) == "spec.template.spec." + tail;
  }

  lemma PathsPlain(container: string)
    ensures (forall p <- MemoryPath(container) :: PlainPart(p)) <==> '.' !in container
    ensures (forall p <- ImagePath(container) :: PlainPart(p)) <==> '.' !in container
  {
    hide PlainPart;
    PlainNames();
    PlainSpec();
    PlainOthers();
    ContainerPartIsPlain(container);
    assert MemoryPath(container)[3] == ImagePath(container)[3] == "containers[name=" + container + "]";
  }

  lemma PlainOthers()
    ensures PlainPart("template") && PlainPart("resources") && PlainPart("limits")
  {}

  lemma ContainerPartIsPlain(container: string)
    ensures PlainPart("containers[name=" + container + "]") <==> '.' !in container
  {
    var part := "containers[name=" + container + "]";
    assert part[0] == 'c' && part[|part| - 1] == ']';
    assert '.' in part <==> '.' in container;
  }

  lemma ShortField(last: string)
    requires PlainPart(last) && last != "name"
    ensures BelowSpec(SplitPath("spec" + "." + last))
  {
    hide SplitPath, PlainPart;
    PlainSpec();
    SplitPathConcat("spec", last);
    SplitPathPart("spec");
    SplitPathPart(last);
  }

  lemma ContainerFieldIs(container: string, rest: string)
    ensures ContainerField(container, rest)
         == "spec" + "." + ("template.spec.containers[name=" + container + "]" + rest)
  {
    assert "spec.template.spec.containers[name=" == "spec" + "." + "template.spec.containers[name=";
  }

  // The edited manifest is found again.

  /** Paths that start with different plain keys lead to different nodes. */
  lemma DifferentKeys(root: Node, parts: seq<string>, others: seq<string>)
    requires parts != [] && others != [] && parts[0] != others[0]
    requires ParseArraySelector(parts[0]) == None && ParseArraySelector(others[0]) == None
    requires Navigate(root, parts).Ok? && Navigate(root, others).Ok?
    ensures Navigate(root, parts) != Navigate(root, others)
  {
    hide FindValue, ParseArraySelector;
    var i, j := Enter(root, parts[0]).value, Enter(root, others[0]).value;
    assert Navigate(root, parts).value[0] == i[0] && Navigate(root, others).value[0] == j[0];
    assert root.content[i[0] - 1].value == parts[0] && root.content[j[0] - 1].value == others[0];
  }

  lemma NoSelectors()
    ensures ParseArraySelector("spec") == None && ParseArraySelector("kind") == None
    ensures ParseArraySelector("metadata") == None
  {
    assert IndexOf("spec", '[') == None && IndexOf("kind", '[') == None && IndexOf("metadata", '[') == None;
  }

  /** An edit below spec changes neither kind, nor name, nor namespace. */
  lemma StillMatches(root: Node, parts: seq<string>, value: string, t: Target)
    requires BelowSpec(parts) && SetAt(root, parts, value).Ok?
    ensures TreeMatches(SetAt(root, parts, value).value.0, t) == TreeMatches(root, t)
  {
    hide Navigate, ParseArraySelector, SetAt, GetAt, Lower;
    NoSelectors();
    StillReads(root, parts, value, ["kind"]);
    StillReads(root, parts, value, ["metadata", "namespace"]);
    StillReads(root, parts, value, ["metadata", "name"]);
  }

  lemma StillReads(root: Node, parts: seq<string>, value: string, others: seq<string>)
    requires BelowSpec(parts) && SetAt(root, parts, value).Ok?
    requires others != [] && others[0] != "spec" && ParseArraySelector(others[0]) == ParseArraySelector("spec") == None
    ensures GetAt(SetAt(root, parts, value).value.0, others) == GetAt(root, others)
  {
    hide ParseArraySelector, SetAt, GetAt;
    SetChangesOnlyItsLeaf(root, parts, value, others);
    var a := SetShape(root, parts, value);
    if Navigate(root, others).Ok? {
      DifferentKeys(root, parts, others);
    }
  }

  /** The walk stops at the same file after that file changed into another match. */
  lemma {:induction false} FoundAgain(codec: Codec, files: seq<File>, t: Target, i: nat, at: nat, file: File)
    requires FindManifest(codec, files, t, i) == Some(at) && ManifestMatches(codec, file.bytes, t)
    ensures FindManifest(codec, files[at := file], t, i) == Some(at)
    decreases |files| - i
  {
    hide ManifestMatches;
    if i < at {
      FoundAgain(codec, files, t, i + 1, at, file);
    }
  }

  // Two edits of one field.

  /** The manifest of a repository and its tree. */
  predicate Holds(codec: Codec, repo: Repo, t: Target, i: nat, root: Node) {
    FindManifest(codec, repo.files, t, 0) == Some(i) && codec.parse(repo.files[i].bytes) == Some(root)
  }

  /** The tree after writing the value to the field parses back. */
  ghost predicate EditParses(codec: Codec, root: Node, field: string, value: string) {
    SetAt(root, SplitPath(field), value).Ok? ==> codec.ParsesBack(SetAt(root, SplitPath(field), value).value.0)
  }

  /** So does the tree after writing another value on top. */
  ghost predicate EditsParse(codec: Codec, root: Node, field: string, value: string, back: string) {
    && EditParses(codec, root, field, value)
    && (SetAt(root, SplitPath(field), value).Ok? ==>
          EditParses(codec, SetAt(root, SplitPath(field), value).value.0, field, back))
  }

  /** One edit without faults, in terms of the tree. */
  lemma EditTree(codec: Codec, repo: Repo, t: Target, field: string, value: string, i: nat, root: Node, f: Faults)
    requires EditParses(codec, root, field, value) && BelowSpec(SplitPath(field)) && Holds(codec, repo, t, i, root)
    requires SetAt(root, SplitPath(field), value).Ok? && Edited(codec, repo, t, field, value, false, f).1.Ok?
    ensures var (repo', r) := Edited(codec, repo, t, field, value, false, f);
            && r.value.oldValue == SetAt(root, SplitPath(field), value).value.1
            && r.value.noOp == (r.value.oldValue == value)
            && (r.value.noOp ==> repo' == repo)
            && (!r.value.noOp ==>
                  Holds(codec, repo', t, i, SetAt(root, SplitPath(field), value).value.0)
                  && repo'.files == repo.files[i := repo'.files[i]]
                  && repo'.index == repo.index[repo.files[i].path := repo'.files[i].bytes]
                  && repo'.commits == repo.commits + [repo'.index]
                  && repo'.files[i].bytes == codec.marshal(SetAt(root, SplitPath(field), value).value.0)
                  && repo'.files[i].path == repo.files[i].path)
  {
    hide SetAt, SplitPath, FindManifest, TreeMatches;
    if !Edited(codec, repo, t, field, value, false, f).1.value.noOp {
      var i', root' := SuccessfulEditWritesTree(codec, repo, t, field, value, f);
      StillMatches(root, SplitPath(field), value, t);
      FoundAgain(codec, repo.files, t, 0, i, Edited(codec, repo, t, field, value, false, f).0.files[i]);
    }
  }

  /** A leaf written twice is the old leaf exactly when the old text came back and the tag survived. */
  predicate Lossless(leaf: Node, value: string, back: string) {
    back == leaf.value && (leaf.tag != "!!int" || (ScansAsInt(value) && ScansAsInt(back)))
  }

  lemma NotSelfSelecting(parts: seq<string>)
    requires BelowSpec(parts)
    ensures !SelfSelecting(parts)
  {}

  lemma RewrittenTwice(leaf: Node, value: string, back: string)
    ensures Rewritten(Rewritten(leaf, value), back) == leaf <==> Lossless(leaf, value, back)
    ensures Rewritten(Rewritten(leaf, value), value) == Rewritten(leaf, value)
  {
    hide ScansAsInt;
  }

  /** Two writes of one field, on trees. */
  lemma WriteTwice(root: Node, parts: seq<string>, value: string, back: string) returns (root2: Node)
    requires BelowSpec(parts) && SetAt(root, parts, value).Ok?
    ensures var mid := SetAt(root, parts, value).value.0;
            && SetAt(mid, parts, back) == Ok((root2, value))
            && (back == value ==> root2 == mid)
    ensures GetAt(root2, parts) == Ok(back)
    ensures LeadsTo(root, parts, Navigate(root, parts).value)
    ensures root2 == root <==> Lossless(At(root, Navigate(root, parts).value), value, back)
  {
    hide Navigate, Rewritten, Lossless, SelfSelecting;
    NotSelfSelecting(parts);
    var a := Navigate(root, parts).value;
    var leaf := At(root, a);
    var first, second := Rewritten(leaf, value), Rewritten(Rewritten(leaf, value), back);
    RewrittenShape(leaf, value);
    RewrittenShape(first, back);
    RewrittenTwice(leaf, value, back);
    PathsUnmoved(root, parts, a, first, parts);
    AssignAt(root, a, first, second);
    AssignAt(root, a, second, second);
    PathsUnmoved(root, parts, a, second, parts);
    root2 := Assign(root, a, second);
  }

  lemma WriteTwiceElsewhere(root: Node, parts: seq<string>, value: string, back: string, others: seq<string>)
    requires BelowSpec(parts) && SetAt(root, parts, value).Ok?
    requires SetAt(SetAt(root, parts, value).value.0, parts, back).Ok?
    requires Navigate(root, others) != Navigate(root, parts)
    ensures GetAt(SetAt(SetAt(root, parts, value).value.0, parts, back).value.0, others) == GetAt(root, others)
  {
    hide Navigate, SetAt, GetAt, SelfSelecting;
    NotSelfSelecting(parts);
    var mid := SetAt(root, parts, value).value.0;
    SetChangesOnlyItsLeaf(root, parts, value, others);
    SetChangesOnlyItsLeaf(root, parts, value, parts);
    SetChangesOnlyItsLeaf(mid, parts, back, others);
  }

  lemma WithoutFaults(codec: Codec, repo: Repo, t: Target, field: string, value: string, i: nat, root: Node)
    requires Holds(codec, repo, t, i, root) && SetAt(root, SplitPath(field), value).Ok?
    ensures Edited(codec, repo, t, field, value, false, NO_FAULTS).1.Ok?
  {
    hide SetAt, SplitPath, FindManifest;
  }

  /** What two edits of one field make of a repository. */
  predicate WrittenBack(codec: Codec, repo: Repo, repo2: Repo, t: Target, i: nat, root2: Node) {
    && Holds(codec, repo2, t, i, root2)
    && |repo2.files| == |repo.files|
    && forall j :: 0 <= j < |repo.files| && j != i ==> repo2.files[j] == repo.files[j]
  }

  /** The general law: apply `value` to a field, then write `back`. The second edit succeeds on the same
      manifest and reports `value` as what it replaced; the field holds `back`, and all other fields and
      files are as before the first edit; the whole tree is what it was exactly if nothing was lost. */
  lemma ApplyThenWriteBack(
      codec: Codec, repo: Repo, t: Target, field: string, value: string, back: string, i: nat, root: Node, f: Faults)
      returns (root2: Node)
    requires EditsParse(codec, root, field, value, back) && BelowSpec(SplitPath(field))
    requires Holds(codec, repo, t, i, root)
    requires Edited(codec, repo, t, field, value, false, f).1.Ok?
    requires !Edited(codec, repo, t, field, value, false, f).1.value.noOp
    ensures var repo1 := Edited(codec, repo, t, field, value, false, f).0;
            var (repo2, r) := Edited(codec, repo1, t, field, back, false, NO_FAULTS);
            && r.Ok? && r.value.oldValue == value
            && WrittenBack(codec, repo, repo2, t, i, root2)
    ensures LeadsTo(root, SplitPath(field), Navigate(root, SplitPath(field)).value)
    ensures GetAt(root2, SplitPath(field)) == Ok(back)
    ensures forall others :: Navigate(root, others) != Navigate(root, SplitPath(field)) ==>
              GetAt(root2, others) == GetAt(root, others)
    ensures root2 == root <==> Lossless(At(root, Navigate(root, SplitPath(field)).value), value, back)
  {
    hide SplitPath, FindManifest, TreeMatches, Navigate, SetAt, GetAt, Lossless, BelowSpec, Edited, At;
    var parts := SplitPath(field);
    var repo1 := Edited(codec, repo, t, field, value, false, f).0;
    PlannedTree(codec, repo, t, field, value, f, i, root);
    EditTree(codec, repo, t, field, value, i, root, f);
    root2 := WriteTwice(root, parts, value, back);
    var mid := SetAt(root, parts, value).value.0;
    WithoutFaults(codec, repo1, t, field, back, i, mid);
    EditTree(codec, repo1, t, field, back, i, mid, NO_FAULTS);
    forall others | Navigate(root, others) != Navigate(root, parts)
      ensures GetAt(root2, others) == GetAt(root, others)
    {
      WriteTwiceElsewhere(root, parts, value, back, others);
    }
  }

  lemma PlannedTree(codec: Codec, repo: Repo, t: Target, field: string, value: string, f: Faults, i: nat, root: Node)
    requires Holds(codec, repo, t, i, root) && Edited(codec, repo, t, field, value, false, f).1.Ok?
    ensures SetAt(root, SplitPath(field), value).Ok?
  {
    hide SetAt, SplitPath, FindManifest;
  }

  // Integers survive an integer tag.

  /** A printed number scans, whatever follows it. */
  lemma NumberScans(n: int, rest: string)
    requires -MAX_INT - 1 <= n <= MAX_INT && (rest == [] || !IsDigit(rest[0]))
    ensures ScansAsInt(Itoa(n) + rest)
  {
    hide Digits, ScansAsInt, Value, AllDigits;
    var sign, digits := if n < 0 then "-" else "", if n < 0 then Digits(-n) else Digits(n);
    DigitsValue(if n < 0 then -n else n);
    assert Itoa(n) + rest == "" + sign + digits + rest;
    ReadIntScans(Itoa(n) + rest, "", sign, digits, rest);
  }

  // The four actions. `f` are the faults that Apply met and survived; Rollback meets none.

  /** An action that went through and changed something. */
  predicate Effective(codec: Codec, repo: Repo, t: Target, field: string, value: string, f: Faults) {
    var (_, applied, error) := Applied(codec, repo, t, field, value, f);
    error == None && applied.Some? && !applied.value.noOp
  }

  /** The value that Apply remembers for its rollback. */
  function OldValue(codec: Codec, repo: Repo, t: Target, field: string, value: string, f: Faults): string
    requires Effective(codec, repo, t, field, value, f)
  {
    Applied(codec, repo, t, field, value, f).1.value.oldValue
  }

  /** It is the value that the field had. */
  lemma OldIsCurrent(codec: Codec, repo: Repo, t: Target, field: string, value: string, f: Faults)
    requires Effective(codec, repo, t, field, value, f)
    ensures CurrentValue(codec, repo, t, field) == Ok(OldValue(codec, repo, t, field, value, f))
  {
    hide SplitPath, FindManifest, SetAt, GetAt, Committed;
    var i := FindManifest(codec, repo.files, t, 0).value;
    var root := codec.parse(repo.files[i].bytes).value;
    var a := SetShape(root, SplitPath(field), value);
  }

  lemma Remembered(codec: Codec, repo: Repo, t: Target, field: string, value: string, f: Faults, i: nat, root: Node)
    requires EditParses(codec, root, field, value) && BelowSpec(SplitPath(field)) && Holds(codec, repo, t, i, root)
    requires Effective(codec, repo, t, field, value, f)
    ensures LeadsTo(root, SplitPath(field), Navigate(root, SplitPath(field)).value)
    ensures OldValue(codec, repo, t, field, value, f) == At(root, Navigate(root, SplitPath(field)).value).value
  {
    hide SplitPath, Navigate;
    PlannedTree(codec, repo, t, field, value, f, i, root);
    EditTree(codec, repo, t, field, value, i, root, f);
    var a := SetShape(root, SplitPath(field), value);
  }

  /** An action that went through has set its field, in the first manifest of the walk that is of its kind,
      namespace and name, to its value; every other field of that manifest and every other file is as before. */
  lemma ApplyWrites(
      codec: Codec, repo: Repo, t: Target, field: string, value: string, f: Faults, i: nat, root: Node)
    requires EditParses(codec, root, field, value) && BelowSpec(SplitPath(field)) && Holds(codec, repo, t, i, root)
    requires Effective(codec, repo, t, field, value, f)
    ensures var after := Applied(codec, repo, t, field, value, f).0;
            && IsManifestOf(codec, repo.files[i].bytes, t.namespace, t.name, t.kind)
            && CurrentValue(codec, after, t, field) == Ok(value)
            && |after.files| == |repo.files| && codec.parse(after.files[i].bytes).Some?
            && (forall j :: 0 <= j < |repo.files| && j != i ==> after.files[j] == repo.files[j])
            && forall others :: Navigate(root, others) != Navigate(root, SplitPath(field)) ==>
                 GetAt(codec.parse(after.files[i].bytes).value, others) == GetAt(root, others)
  {
    hide SplitPath, FindManifest, SetAt, GetAt, Navigate, IsManifestOf, BelowSpec, SelfSelecting, Planned, Committed;
    FindsFirst(codec, repo.files, t, 0);
    PlannedTree(codec, repo, t, field, value, f, i, root);
    EditTree(codec, repo, t, field, value, i, root, f);
    NotSelfSelecting(SplitPath(field));
    var root1 := SetAt(root, SplitPath(field), value).value.0;
    SetGetIff(root, SplitPath(field), value);
    forall others | Navigate(root, others) != Navigate(root, SplitPath(field))
      ensures GetAt(root1, others) == GetAt(root, others)
    {
      SetChangesOnlyItsLeaf(root, SplitPath(field), value, others);
    }
  }

  /** Scaling back restores the manifest, tree and all, exactly if the old count was canonical: not
      "03" or "+3", which come back as "3". */
  lemma ScaleRollbackIff(codec: Codec, repo: Repo, t: Target, replicas: int, f: Faults, i: nat, root: Node)
      returns (root2: Node)
    requires Holds(codec, repo, t, i, root) && -MAX_INT - 1 <= replicas <= MAX_INT
    requires Effective(codec, repo, t, REPLICAS_FIELD, Itoa(replicas), f)
    requires Atoi(OldValue(codec, repo, t, REPLICAS_FIELD, Itoa(replicas), f)).Some?
    requires EditsParse(codec, root, REPLICAS_FIELD, Itoa(replicas),
                        ScaleBack(OldValue(codec, repo, t, REPLICAS_FIELD, Itoa(replicas), f)).value)
    ensures var old' := OldValue(codec, repo, t, REPLICAS_FIELD, Itoa(replicas), f);
            var repo1 := Applied(codec, repo, t, REPLICAS_FIELD, Itoa(replicas), f).0;
            var (repo2, _, error) := Applied(codec, repo1, t, REPLICAS_FIELD, ScaleBack(old').value, NO_FAULTS);
            && error == None && WrittenBack(codec, repo, repo2, t, i, root2)
            && (root2 == root <==> Canonical(old'))
  {
    hide SplitPath, Navigate, Atoi, Itoa, Canonical, ScansAsInt, FindManifest, Edited, At;
    ActionFieldsBelowSpec("");
    Remembered(codec, repo, t, REPLICAS_FIELD, Itoa(replicas), f, i, root);
    var old' := OldValue(codec, repo, t, REPLICAS_FIELD, Itoa(replicas), f);
    root2 := ApplyThenWriteBack(codec, repo, t, REPLICAS_FIELD, Itoa(replicas), ScaleBack(old').value, i, root, f);
    ItoaAtoiIff(old');
    AtoiRange(old');
    NumbersScan(replicas);
    NumbersScan(Atoi(old').value);
  }

  lemma AtoiRange(s: string)
    requires Atoi(s).Some?
    ensures -MAX_INT - 1 <= Atoi(s).value <= MAX_INT
  {}

  lemma NumbersScan(n: int)
    requires -MAX_INT - 1 <= n <= MAX_INT
    ensures ScansAsInt(Itoa(n))
  {
    NumberScans(n, []);
    assert Itoa(n) + [] == Itoa(n);
  }

  /** Patching an autoscaler back restores the manifest exactly if the old minimum was canonical and
      positive: anything else comes back as the default. */
  lemma HpaRollbackIff(codec: Codec, repo: Repo, t: Target, minimum: int, f: Faults, i: nat, root: Node)
      returns (root2: Node)
    requires Holds(codec, repo, t, i, root) && 0 < minimum <= MAX_INT
    requires Effective(codec, repo, t, MIN_REPLICAS_FIELD, Itoa(minimum), f)
    requires Atoi(OldValue(codec, repo, t, MIN_REPLICAS_FIELD, Itoa(minimum), f)).Some?
    requires EditsParse(codec, root, MIN_REPLICAS_FIELD, Itoa(minimum),
                        HpaBack(OldValue(codec, repo, t, MIN_REPLICAS_FIELD, Itoa(minimum), f)).value)
    ensures var old' := OldValue(codec, repo, t, MIN_REPLICAS_FIELD, Itoa(minimum), f);
            var repo1 := Applied(codec, repo, t, MIN_REPLICAS_FIELD, Itoa(minimum), f).0;
            var (repo2, _, error) := Applied(codec, repo1, t, MIN_REPLICAS_FIELD, HpaBack(old').value, NO_FAULTS);
            && error == None && WrittenBack(codec, repo, repo2, t, i, root2)
            && (root2 == root <==> Canonical(old') && Atoi(old').value > 0)
  {
    hide SplitPath, Navigate, Atoi, Itoa, Canonical, ScansAsInt, FindManifest, Edited, At;
    ActionFieldsBelowSpec("");
    Remembered(codec, repo, t, MIN_REPLICAS_FIELD, Itoa(minimum), f, i, root);
    var old' := OldValue(codec, repo, t, MIN_REPLICAS_FIELD, Itoa(minimum), f);
    root2 := ApplyThenWriteBack(codec, repo, t, MIN_REPLICAS_FIELD, Itoa(minimum), HpaBack(old').value, i, root, f);
    ItoaAtoiIff(old');
    AtoiRange(old');
    AtoiItoa(DEFAULT_MIN_REPLICAS);
    NumbersScan(minimum);
    NumbersScan(Atoi(old').value);
    NumbersScan(DEFAULT_MIN_REPLICAS);
  }

  /** The value that a memory bump writes. */
  function BumpedValue(
      codec: Codec, repo: Repo, t: Target, container: string, factor: real): Result<string, QuantityError>
    requires CurrentValue(codec, repo, t, MemoryField(container)).Ok?
  {
    Bumped(CurrentValue(codec, repo, t, MemoryField(container)).value, factor)
  }

  /** Undoing a memory bump writes the old text itself, so the field is restored whatever it held, and the
      whole tree exactly if it was not tagged as an integer that one of the two writes untagged. */
  lemma MemoryRollbackRestores(
      codec: Codec, repo: Repo, t: Target, container: string, factor: real, f: Faults, i: nat, root: Node)
      returns (root2: Node)
    requires Holds(codec, repo, t, i, root)
    requires CurrentValue(codec, repo, t, MemoryField(container)).Ok?
    requires BumpedValue(codec, repo, t, container, factor).Ok?
    requires Effective(codec, repo, t, MemoryField(container), BumpedValue(codec, repo, t, container, factor).value, f)
    requires var bumped := BumpedValue(codec, repo, t, container, factor).value;
             EditsParse(codec, root, MemoryField(container), bumped,
                        OldValue(codec, repo, t, MemoryField(container), bumped, f))
    ensures var field := MemoryField(container);
            var bumped := BumpedValue(codec, repo, t, container, factor).value;
            var old' := OldValue(codec, repo, t, field, bumped, f);
            var repo1 := Applied(codec, repo, t, field, bumped, f).0;
            var (repo2, _, error) := Applied(codec, repo1, t, field, old', NO_FAULTS);
            && CurrentValue(codec, repo, t, field) == Ok(old')
            && error == None && WrittenBack(codec, repo, repo2, t, i, root2)
            && GetAt(root2, SplitPath(field)) == Ok(old')
            && var leaf := At(root, Navigate(root, SplitPath(field)).value);
               (root2 == root <==> leaf.tag != "!!int" || (ScansAsInt(bumped) && ScansAsInt(old')))
  {
    hide SplitPath, Navigate, ScansAsInt, Bumped, FindManifest, Edited, At, MemoryField;
    ActionFieldsBelowSpec(container);
    var field := MemoryField(container);
    var bumped := BumpedValue(codec, repo, t, container, factor).value;
    Remembered(codec, repo, t, field, bumped, f, i, root);
    root2 := ApplyThenWriteBack(codec, repo, t, field, bumped, OldValue(codec, repo, t, field, bumped, f), i, root, f);
  }

  /** In particular the tree is restored for every number with a known suffix: what bumping makes of one
      is another. */
  lemma QuantityRollbackRestores(
      codec: Codec, repo: Repo, t: Target, container: string, n: nat, u: Unit, factor: real,
      f: Faults, i: nat, root: Node)
      returns (m: nat, root2: Node)
    requires Holds(codec, repo, t, i, root)
    requires 0 < n <= MAX_INT && factor > 0.0 && Ceil(n as real * factor) <= MAX_INT
    requires CurrentValue(codec, repo, t, MemoryField(container)) == Ok(Quantity(n, u))
    requires Bumped(Quantity(n, u), factor).Ok?
    requires Effective(codec, repo, t, MemoryField(container), Bumped(Quantity(n, u), factor).value, f)
    requires EditsParse(codec, root, MemoryField(container), Bumped(Quantity(n, u), factor).value, Quantity(n, u))
    ensures Bumped(Quantity(n, u), factor) == Ok(Quantity(m, u))
    ensures var repo1 := Applied(codec, repo, t, MemoryField(container), Quantity(m, u), f).0;
            var (repo2, _, error) := Applied(codec, repo1, t, MemoryField(container), Quantity(n, u), NO_FAULTS);
            error == None && WrittenBack(codec, repo, repo2, t, i, root2) && root2 == root
  {
    hide SplitPath, Navigate, Bumped, Quantity, ScansAsInt, FindManifest, Edited, At, Ceil, MemoryField, Applied;
    hide Effective, OldValue;
    OldIsCurrent(codec, repo, t, MemoryField(container), Bumped(Quantity(n, u), factor).value, f);
    root2 := MemoryRollbackRestores(codec, repo, t, container, factor, f, i, root);
    BumpedText(n, u, factor);
    m := Ceil(n as real * factor);
    QuantityScans(n, u);
    QuantityScans(m, u);
  }

  lemma QuantityScans(n: nat, u: Unit)
    requires n <= MAX_INT
    ensures ScansAsInt(Quantity(n, u))
  {
    NumberScans(n, Suffix(u));
  }

  /** The versions of a file that an edit leaves behind the one it commits: all of them, unless the last
      commit has the edited text already, so that the new commit does not change the file. */
  function Earlier(versions: seq<Option<string>>, bytes: string): seq<Option<string>> {
    if versions != [] && versions[0] == Some(bytes) then versions[1..] else versions
  }

  /** The text that an edit of the manifest writes. */
  function EditedText(codec: Codec, root: Node, field: string, value: string): string
    requires SetAt(root, SplitPath(field), value).Ok?
  {
    codec.marshal(SetAt(root, SplitPath(field), value).value.0)
  }

  /** What git says about the field before the edit with that text. */
  function LastCommitted(codec: Codec, repo: Repo, i: nat, field: string, bytes: string): Option<string>
    requires i < |repo.files|
  {
    var versions := Earlier(History(repo.commits, repo.files[i].path), bytes);
    if versions == [] then None else ValueOf(codec, versions[0], field)
  }

  lemma {:induction false} LatestIsHead(commits: seq<Tree>, path: string)
    ensures var h := History(commits, path);
            Version(commits, |commits|, path) == if h == [] then None else h[0]
  {
    if commits != [] {
      var n := |commits| - 1;
      LatestIsHead(commits[..n], path);
      assert Version(commits[..n], n, path) == Version(commits, n, path);
    }
  }

  lemma HistoryGrows(commits: seq<Tree>, tree: Tree, path: string)
    requires path in tree
    ensures History(commits + [tree], path) == [Some(tree[path])] + Earlier(History(commits, path), tree[path])
  {
    LatestIsHead(commits, path);
    var all := commits + [tree];
    assert all[..|commits|] == commits;
    assert Version(all, |commits|, path) == Version(commits, |commits|, path);
  }

  /** Undoing an image rollback asks for the old image exactly if that was not empty or the last commit
      before agrees that it was: an empty one is looked up in the git history. In that case the field is
      restored, and the tree exactly unless an integer tag was lost. */
  lemma ImageRollbackRestores(
      codec: Codec, repo: Repo, t: Target, container: string, image: string, f: Faults, i: nat, root: Node)
      returns (root2: Node)
    requires Holds(codec, repo, t, i, root) && Effective(codec, repo, t, ImageField(container), image, f)
    requires EditsParse(codec, root, ImageField(container), image,
                        OldValue(codec, repo, t, ImageField(container), image, f))
    ensures var field := ImageField(container);
            var old' := OldValue(codec, repo, t, field, image, f);
            var repo1 := Applied(codec, repo, t, field, image, f).0;
            && SetAt(root, SplitPath(field), image).Ok?
            && (ImageBack(codec, repo1, t, container, old') == Some(old') <==>
                  old' != "" || LastCommitted(codec, repo, i, field, EditedText(codec, root, field, image)) == Some(""))
            && var (repo2, _, error) := Applied(codec, repo1, t, field, old', NO_FAULTS);
               && error == None && WrittenBack(codec, repo, repo2, t, i, root2)
               && GetAt(root2, SplitPath(field)) == Ok(old')
               && var leaf := At(root, Navigate(root, SplitPath(field)).value);
                  (root2 == root <==> leaf.tag != "!!int" || (ScansAsInt(image) && ScansAsInt(old')))
  {
    hide SplitPath, Navigate, ScansAsInt, FindManifest, Edited, At, ImageField, LastCommitted, PreviousValue;
    ActionFieldsBelowSpec(container);
    var field := ImageField(container);
    Remembered(codec, repo, t, field, image, f, i, root);
    var old' := OldValue(codec, repo, t, field, image, f);
    root2 := ApplyThenWriteBack(codec, repo, t, field, image, old', i, root, f);
    PreviousIsLastCommitted(codec, repo, t, field, image, f, i, root);
  }

  /** The file is what its last commit says. */
  predicate InStep(repo: Repo, i: nat) {
    && i < |repo.files|
    && History(repo.commits, repo.files[i].path) != []
    && History(repo.commits, repo.files[i].path)[0] == Some(repo.files[i].bytes)
  }

  /** After an edit, the previous value is what the last commit before it said. */
  lemma PreviousIsLastCommitted(
      codec: Codec, repo: Repo, t: Target, field: string, value: string, f: Faults, i: nat, root: Node)
    requires EditParses(codec, root, field, value) && BelowSpec(SplitPath(field)) && Holds(codec, repo, t, i, root)
    requires Effective(codec, repo, t, field, value, f)
    ensures SetAt(root, SplitPath(field), value).Ok?
    ensures PreviousValue(codec, Applied(codec, repo, t, field, value, f).0, t, field)
         == LastCommitted(codec, repo, i, field, EditedText(codec, root, field, value))
  {
    hide SplitPath, Navigate, FindManifest, Edited, At, BelowSpec, GetAt, SetAt;
    PlannedTree(codec, repo, t, field, value, f, i, root);
    EditTree(codec, repo, t, field, value, i, root, f);
    var repo1 := Applied(codec, repo, t, field, value, f).0;
    var path := repo.files[i].path;
    HistoryGrows(repo.commits, repo1.index, path);
  }

  /** So for a file in step with its history it is the value that the edit replaced. */
  lemma PreviousIsOld(codec: Codec, repo: Repo, t: Target, field: string, value: string, f: Faults, i: nat, root: Node)
    requires EditParses(codec, root, field, value) && BelowSpec(SplitPath(field)) && Holds(codec, repo, t, i, root)
    requires InStep(repo, i)
    requires Effective(codec, repo, t, field, value, f)
    ensures PreviousValue(codec, Applied(codec, repo, t, field, value, f).0, t, field)
         == Some(OldValue(codec, repo, t, field, value, f))
  {
    hide SplitPath, Navigate, FindManifest, Edited, At, BelowSpec, GetAt, SetAt, History;
    PreviousIsLastCommitted(codec, repo, t, field, value, f, i, root);
    PlannedTree(codec, repo, t, field, value, f, i, root);
    EditTree(codec, repo, t, field, value, i, root, f);
    var a := SetShape(root, SplitPath(field), value);
    var root2 := WriteTwice(root, SplitPath(field), value, value);
  }
}
