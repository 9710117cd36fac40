/** The remediation actions: one field edit each, and a Rollback that claims to be its inverse. */
module Remediators {
  import opened Contracts
  import opened Text
  import opened Manifests
  import opened GitWriters
  import opened Quantities

  const REPLICAS_FIELD := "spec.replicas"
  const MIN_REPLICAS_FIELD := "spec.minReplicas"
  const DEFAULT_MIN_REPLICAS := 2

  function ContainerField(container: string, rest: string): string {
    "spec.template.spec.containers[name=" + container + "]" + rest
  }

  function MemoryField(container: string): string { ContainerField(container, ".resources.limits.memory") }

  function ImageField(container: string): string { ContainerField(container, ".image") }

  datatype ActionError =
    | AlreadyApplied | NotApplied | BadOldValue | NoHistory | BadQuantity(reason: QuantityError)
    | EditFailed(error: EditError)

  /** What an edit makes of an action: the repository, what is remembered as applied, and the error. */
  function Applied(codec: Codec, repo: Repo, t: Target, field: string, value: string, f: Faults)
    : (Repo, Option<EditResult>, Option<ActionError>)
  {
    var (repo', r) := Edited(codec, repo, t, field, value, false, f);
    match r
    case Ok(res) => (repo', Some(res), None)
    case Err(e) => (repo', None, Some(EditFailed(e)))
  }

  // The values that the rollbacks write, given the value that Apply replaced.

  function ScaleBack(old': string): Option<string> {
    match Atoi(old') case None => None case Some(n) => Some(Itoa(n))
  }

  function HpaBack(old': string): Option<string> {
    match Atoi(old') case None => None case Some(n) => Some(Itoa(if n <= 0 then DEFAULT_MIN_REPLICAS else n))
  }

  /** A rollback of a count needs an old value that is an integer, and writes that integer again; for an
      autoscaler it must be positive, or it is replaced by two. */
  lemma BackToInteger(old': string)
    ensures match Atoi(old')
            case None => ScaleBack(old') == None && HpaBack(old') == None
            case Some(n) => ScaleBack(old') == Some(Itoa(n)) && HpaBack(old') == Some(Itoa(if n > 0 then n else 2))
  {}

  /** An action leaves the repository as the edit leaves it, failed or not, and remembers a result exactly if
      it succeeded. */
  lemma AppliedIsEdited(codec: Codec, repo: Repo, t: Target, field: string, value: string, f: Faults)
    ensures var (repo', r) := Edited(codec, repo, t, field, value, false, f);
            var (after, applied, error) := Applied(codec, repo, t, field, value, f);
            && after == repo' && (applied.Some? <==> r.Ok?) && (error == None <==> r.Ok?)
            && (r.Ok? ==> applied == Some(r.value)) && (r.Err? ==> error == Some(EditFailed(r.error)))
  {
    hide Edited;
  }

  /** An empty image reference makes the undo ask the git history instead. */
  function ImageBack(codec: Codec, repo: Repo, t: Target, container: string, old': string): Option<string> {
    if old' != "" then Some(old') else PreviousValue(codec, repo, t, ImageField(container))
  }

  /** The edit inside every Apply. */
  method EditOnce(writer: Writer, t: Target, field: string, value: string, f: Faults)
    returns (applied: Option<EditResult>, error: Option<ActionError>)
    modifies writer
    ensures (writer.View(), applied, error) == Applied(writer.codec, old(writer.View()), t, field, value, f)
  {
    var r := writer.EditField(t, field, value, false, f);
    match r {
      case Ok(res) => return Some(res), None;
      case Err(e) => return None, Some(EditFailed(e));
    }
  }

  /** Sets spec.replicas; rolls back by scaling to the parsed old value. */
  class ScaleDeployment {
    const writer: Writer
    const namespace: string
    const deployment: string
    const replicas: int
    var applied: Option<EditResult>

    constructor (writer: Writer, namespace: string, deployment: string, replicas: int)
      ensures this.writer == writer && this.namespace == namespace && this.deployment == deployment
      ensures this.replicas == replicas && applied == None
    {
      this.writer, this.namespace, this.deployment := writer, namespace, deployment;
      this.replicas, applied := replicas, None;
    }

    /** A Deployment of that name in that namespace. */
    function Where(): (t: Target)
      ensures t.namespace == namespace && t.name == deployment && SameUpToCase(t.kind, "deployment")
    {
      Target(namespace, deployment, "Deployment")
    }

    method Apply(f: Faults) returns (error: Option<ActionError>)
      modifies this, writer
      ensures old(applied) != None ==>
                error == Some(AlreadyApplied) && applied == old(applied) && writer.View() == old(writer.View())
      ensures old(applied) == None ==>
                (writer.View(), applied, error)
                == Applied(writer.codec, old(writer.View()), Where(), REPLICAS_FIELD, Itoa(replicas), f)
    {
      if applied != None {
        return Some(AlreadyApplied);
      }
      var res;
      res, error := EditOnce(writer, Where(), REPLICAS_FIELD, Itoa(replicas), f);
      applied := res;
    }

    method Rollback(f: Faults) returns (error: Option<ActionError>)
      modifies writer
      ensures applied == None ==> error == Some(NotApplied) && writer.View() == old(writer.View())
      ensures applied.Some? && applied.value.noOp ==> error == None && writer.View() == old(writer.View())
      ensures applied.Some? && !applied.value.noOp && ScaleBack(applied.value.oldValue) == None ==>
                error == Some(BadOldValue) && writer.View() == old(writer.View())
      ensures applied.Some? && !applied.value.noOp && ScaleBack(applied.value.oldValue).Some? ==>
                var after := Applied(writer.codec, old(writer.View()), Where(), REPLICAS_FIELD,
                                     ScaleBack(applied.value.oldValue).value, f);
                writer.View() == after.0 && error == after.2
    {
      if applied == None {
        return Some(NotApplied);
      }
      if applied.value.noOp {
        return None;
      }
      var prev := Atoi(applied.value.oldValue);
      if prev == None {
        return Some(BadOldValue);
      }
      var undo := new ScaleDeployment(writer, namespace, deployment, prev.value);
      error := undo.Apply(f);
    }
  }

  /** Raises spec.minReplicas of an autoscaler; rolls back by patching to the parsed old value, which
      the constructor replaces by a default when it is not positive. */
  class PatchHPA {
    const writer: Writer
    const namespace: string
    const hpaName: string
    const minReplicas: int
    var applied: Option<EditResult>

    constructor (writer: Writer, namespace: string, hpaName: string, minReplicas: int)
      ensures this.writer == writer && this.namespace == namespace && this.hpaName == hpaName
      ensures this.minReplicas == (if minReplicas <= 0 then 2 else minReplicas) && applied == None
    {
      this.writer, this.namespace, this.hpaName := writer, namespace, hpaName;
      this.minReplicas := if minReplicas <= 0 then DEFAULT_MIN_REPLICAS else minReplicas;
      applied := None;
    }

    /** An autoscaler of that name in that namespace. */
    function Where(): (t: Target)
      ensures t.namespace == namespace && t.name == hpaName && SameUpToCase(t.kind, "horizontalpodautoscaler")
    {
      Target(namespace, hpaName, "HorizontalPodAutoscaler")
    }

    method Apply(f: Faults) returns (error: Option<ActionError>)
      modifies this, writer
      ensures old(applied) != None ==>
                error == Some(AlreadyApplied) && applied == old(applied) && writer.View() == old(writer.View())
      ensures old(applied) == None ==>
                (writer.View(), applied, error)
                == Applied(writer.codec, old(writer.View()), Where(), MIN_REPLICAS_FIELD, Itoa(minReplicas), f)
    {
      if applied != None {
        return Some(AlreadyApplied);
      }
      var res;
      res, error := EditOnce(writer, Where(), MIN_REPLICAS_FIELD, Itoa(minReplicas), f);
      applied := res;
    }

    method Rollback(f: Faults) returns (error: Option<ActionError>)
      modifies writer
      ensures applied == None ==> error == Some(NotApplied) && writer.View() == old(writer.View())
      ensures applied.Some? && applied.value.noOp ==> error == None && writer.View() == old(writer.View())
      ensures applied.Some? && !applied.value.noOp && HpaBack(applied.value.oldValue) == None ==>
                error == Some(BadOldValue) && writer.View() == old(writer.View())
      ensures applied.Some? && !applied.value.noOp && HpaBack(applied.value.oldValue).Some? ==>
                var after := Applied(writer.codec, old(writer.View()), Where(), MIN_REPLICAS_FIELD,
                                     HpaBack(applied.value.oldValue).value, f);
                writer.View() == after.0 && error == after.2
    {
      if applied == None {
        return Some(NotApplied);
      }
      if applied.value.noOp {
        return None;
      }
      var prev := Atoi(applied.value.oldValue);
      if prev == None {
        return Some(BadOldValue);
      }
      var undo := new PatchHPA(writer, namespace, hpaName, prev.value);
      error := undo.Apply(f);
    }
  }

  /** Multiplies a memory limit; rolls back by writing the old text itself. */
  class BumpMemoryLimit {
    const writer: Writer
    const namespace: string
    const deployment: string
    const container: string
    const factor: real
    var applied: Option<EditResult>

    constructor (writer: Writer, namespace: string, deployment: string, container: string, factor: real)
      ensures this.writer == writer && this.namespace == namespace && this.deployment == deployment
      ensures this.container == container && this.factor == (if factor <= 0.0 then 1.5 else factor) && applied == None
    {
      this.writer, this.namespace, this.deployment, this.container := writer, namespace, deployment, container;
      this.factor := if factor <= 0.0 then 1.5 else factor;
      applied := None;
    }

    /** A Deployment of that name in that namespace. */
    function Where(): (t: Target)
      ensures t.namespace == namespace && t.name == deployment && SameUpToCase(t.kind, "deployment")
    {
      Target(namespace, deployment, "Deployment")
    }

    method Apply(f: Faults) returns (error: Option<ActionError>)
      modifies this, writer
      ensures old(applied) != None ==>
                error == Some(AlreadyApplied) && applied == old(applied) && writer.View() == old(writer.View())
      ensures old(applied) == None ==>
                match CurrentValue(writer.codec, old(writer.View()), Where(), MemoryField(container))
                case Err(e) => error == Some(EditFailed(e)) && applied == None && writer.View() == old(writer.View())
                case Ok(current) =>
                  match Bumped(current, factor)
                  case Err(e) => error == Some(BadQuantity(e)) && applied == None && writer.View() == old(writer.View())
                  case Ok(bumped) =>
                    (writer.View(), applied, error)
                    == Applied(writer.codec, old(writer.View()), Where(), MemoryField(container), bumped, f)
    {
      if applied != None {
        return Some(AlreadyApplied);
      }
      var current := writer.GetCurrentValue(Where(), MemoryField(container));
      if current.Err? {
        return Some(EditFailed(current.error));
      }
      var bumped := BumpQuantity(current.value, factor);
      if bumped.Err? {
        return Some(BadQuantity(bumped.error));
      }
      var res;
      res, error := EditOnce(writer, Where(), MemoryField(container), bumped.value, f);
      applied := res;
    }

    method Rollback(f: Faults) returns (error: Option<ActionError>)
      modifies writer
      ensures applied == None ==> error == Some(NotApplied) && writer.View() == old(writer.View())
      ensures applied.Some? && applied.value.noOp ==> error == None && writer.View() == old(writer.View())
      ensures applied.Some? && !applied.value.noOp ==>
                var after := Applied(writer.codec, old(writer.View()), Where(),
                    MemoryField(container), applied.value.oldValue, f);
                writer.View() == after.0 && error == after.2
    {
      if applied == None {
        return Some(NotApplied);
      }
      if applied.value.noOp {
        return None;
      }
      var _, e := EditOnce(writer, Where(), MemoryField(container), applied.value.oldValue, f);
      error := e;
    }
  }

  /** Sets an image to a known good reference, or to the previous one in the git history; rolls back by
      applying the same action to the old image. */
  class RollbackDeployment {
    const writer: Writer
    const namespace: string
    const deployment: string
    const container: string
    const knownGoodRef: string
    var applied: Option<EditResult>

    constructor (writer: Writer, namespace: string, deployment: string, container: string, knownGoodRef: string)
      ensures this.writer == writer && this.namespace == namespace && this.deployment == deployment
      ensures this.container == container && this.knownGoodRef == knownGoodRef && applied == None
    {
      this.writer, this.namespace, this.deployment, this.container := writer, namespace, deployment, container;
      this.knownGoodRef, applied := knownGoodRef, None;
    }

    /** A Deployment of that name in that namespace. */
    function Where(): (t: Target)
      ensures t.namespace == namespace && t.name == deployment && SameUpToCase(t.kind, "deployment")
    {
      Target(namespace, deployment, "Deployment")
    }

    method Apply(f: Faults) returns (error: Option<ActionError>)
      modifies this, writer
      ensures old(applied) != None ==>
                error == Some(AlreadyApplied) && applied == old(applied) && writer.View() == old(writer.View())
      ensures old(applied) == None ==>
                match ImageBack(writer.codec, old(writer.View()), Where(), container, knownGoodRef)
                case None => error == Some(NoHistory) && applied == None && writer.View() == old(writer.View())
                case Some(image) =>
                  (writer.View(), applied, error)
                  == Applied(writer.codec, old(writer.View()), Where(), ImageField(container), image, f)
    {
      if applied != None {
        return Some(AlreadyApplied);
      }
      var image := Some(knownGoodRef);
      if knownGoodRef == "" {
        image := writer.GetPreviousValue(Where(), ImageField(container));
      }
      if image == None {
        return Some(NoHistory);
      }
      var res;
      res, error := EditOnce(writer, Where(), ImageField(container), image.value, f);
      applied := res;
    }

    method Rollback(f: Faults) returns (error: Option<ActionError>)
      modifies writer
      ensures applied == None ==> error == Some(NotApplied) && writer.View() == old(writer.View())
      ensures applied.Some? && applied.value.noOp ==> error == None && writer.View() == old(writer.View())
      ensures applied.Some? && !applied.value.noOp ==>
                match ImageBack(writer.codec, old(writer.View()), Where(), container, applied.value.oldValue)
                case None => error == Some(NoHistory) && writer.View() == old(writer.View())
                case Some(image) =>
                  var after := Applied(writer.codec, old(writer.View()), Where(), ImageField(container), image, f);
                  writer.View() == after.0 && error == after.2
    {
      if applied == None {
        return Some(NotApplied);
      }
      if applied.value.noOp {
        return None;
      }
      var undo := new RollbackDeployment(writer, namespace, deployment, container, applied.value.oldValue);
      error := undo.Apply(f);
    }
  }
}
