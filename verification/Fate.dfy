/** What a whole pipeline does, in terms of what it is answered: which answers lead to Apply, to a
    verification, to which message and to which record, and which do not. */
module Fates {
  import opened Contracts
  import opened Pipelines

  /** The verdict after the limiter: AUTO becomes an approval when it trips. */
  function FinalVerdict(a: Answers): Verdict { if a.verdict == Auto && a.tripped then RequireApproval else a.verdict }

  /** The decision stage lets the pipeline go on. */
  predicate Granted(a: Answers) {
    && a.diagnosed
    && (FinalVerdict(a) == Auto || (FinalVerdict(a) == RequireApproval && a.approval == Some(Approved)))
  }

  /** So do the first kill check, the build and the dry run. */
  predicate Prepared(a: Answers) { Granted(a) && !a.killed && a.built && a.rehearsed }

  predicate Applies(a: Answers) { Prepared(a) && a.enabled && !a.killedAgain }

  /** Verification follows a successful Apply, and one that was skipped because applying is disabled. */
  predicate IsVerified(a: Answers) { Prepared(a) && (if a.enabled then !a.killedAgain && a.applied else true) }

  /** What is still to come from a program counter. */
  datatype Fate = Fate(apply: bool, verify: bool, escalate: bool, notify: bool)

  const NOTHING := Fate(false, false, false, false)

  function Verification(a: Answers): Fate { Fate(false, true, a.escalate, !a.escalate) }

  function Application(a: Answers): Fate {
    if a.applied then Verification(a).(apply := true) else Fate(true, false, true, false)
  }

  function AfterRehearsal(a: Answers): Fate {
    if !a.enabled then Verification(a) else if a.killedAgain then NOTHING else Application(a)
  }

  function AfterGrant(a: Answers): Fate {
    if !a.killed && a.built && a.rehearsed then AfterRehearsal(a) else NOTHING
  }

  function AfterAsking(a: Answers): Fate {
    match a.approval
    case None => NOTHING
    case Some(decision) => if decision == Approved then AfterGrant(a) else NOTHING.(notify := true)
  }

  function AfterVerdict(v: Verdict, a: Answers): Fate {
    match v
    case Auto => AfterGrant(a)
    case RequireApproval => AfterAsking(a)
    case Block => NOTHING.(notify := true)
    case OtherVerdict(_) => NOTHING
  }

  function Future(p: Pipe, a: Answers): Fate {
    match p.pc
    case Begin => if a.diagnosed then AfterVerdict(FinalVerdict(a), a) else NOTHING
    case Diagnosing => if a.diagnosed then AfterVerdict(FinalVerdict(a), a) else NOTHING
    case Judging => AfterVerdict(FinalVerdict(a), a)
    case Checking => AfterVerdict(if a.tripped then RequireApproval else p.verdict, a)
    case Recording => AfterVerdict(p.verdict, a)
    case Persisting => AfterVerdict(p.verdict, a)
    case Deciding => AfterVerdict(p.verdict, a)
    case NotifyingBlock => NOTHING.(notify := true)
    case Asking => AfterAsking(a)
    case Approving => AfterAsking(a)
    case NotifyingRefusal => NOTHING.(notify := true)
    case KillCheck => AfterGrant(a)
    case Building => if a.built && a.rehearsed then AfterRehearsal(a) else NOTHING
    case Rehearsing => if a.rehearsed then AfterRehearsal(a) else NOTHING
    case ApplyCheck => AfterRehearsal(a)
    case KillRecheck => if a.killedAgain then NOTHING else Application(a)
    case Applying => Application(a)
    case LoggingApplied => Verification(a)
    case LoggingApplyFailure => NOTHING.(escalate := true)
    case Verifying => Verification(a)
    case Escalating => NOTHING.(escalate := true)
    case NotifyingEnd => NOTHING.(notify := true)
    case _ => NOTHING
  }

  predicate IsVerification(e: Effect) { e.Audit? && e.stage == Verified }

  /** What one effect adds. */
  function Now(effect: Option<Effect>): Fate {
    match effect
    case None => NOTHING
    case Some(e) => Fate(e.Apply?, IsVerification(e), e == Escalate, e == Notify)
  }

  function Both(f: Fate, g: Fate): Fate {
    Fate(f.apply || g.apply, f.verify || g.verify, f.escalate || g.escalate, f.notify || g.notify)
  }

  /** A step delivers what it takes away from the future. */
  predicate Delivers(p: Pipe, a: Answers) {
    var turn := Step(p, a);
    && Future(p, a) == Both(Now(turn.effect), Future(turn.next, a))
    && (turn.effect.Some? ==> Says(turn.effect.value, a))
  }

  /** Apply and verification have the outcome that was answered. */
  predicate Says(e: Effect, a: Answers) {
    && (e.Apply? ==> e.succeeded == a.applied)
    && (IsVerification(e) ==> e.note == Observed(a.outcome))
  }

  lemma StepDelivers(p: Pipe, a: Answers)
    requires p.pc != Finished
    ensures Delivers(p, a)
  {
    hide Delivers;
    if p.pc in {Begin, Diagnosing, Judging, Checking, Recording, Persisting} {
      DecidingDelivers(p, a);
    } else if p.pc == Deciding {
      VerdictDelivers(p, a);
    } else if p.pc in {NotifyingBlock, Asking, Approving, NotifyingRefusal} {
      AskingDelivers(p, a);
    } else if p.pc in {KillCheck, Building, Rehearsing, ApplyCheck, KillRecheck} {
      PreparingDelivers(p, a);
    } else if p.pc in {Applying, LoggingApplied, LoggingApplyFailure} {
      ApplyingDelivers(p, a);
    } else if p.pc == Verifying {
      VerifyingDelivers(p, a);
    } else {
      TellingDelivers(p, a);
    }
  }

  lemma DecidingDelivers(p: Pipe, a: Answers)
    requires p.pc in {Begin, Diagnosing, Judging, Checking, Recording, Persisting}
    ensures Delivers(p, a)
  {
    hide SameIds, AfterVerdict;
  }

  lemma VerdictDelivers(p: Pipe, a: Answers)
    requires p.pc == Deciding
    ensures Delivers(p, a)
  {
    hide SameIds, AfterGrant, AfterAsking;
  }

  lemma AskingDelivers(p: Pipe, a: Answers)
    requires p.pc in {NotifyingBlock, Asking, Approving, NotifyingRefusal}
    ensures Delivers(p, a)
  {
    hide SameIds, AfterGrant, AfterVerdict;
  }

  lemma PreparingDelivers(p: Pipe, a: Answers)
    requires p.pc in {KillCheck, Building, Rehearsing, ApplyCheck, KillRecheck}
    ensures Delivers(p, a)
  {
    hide SameIds, Application, Verification, AfterVerdict, AfterAsking;
  }

  lemma ApplyingDelivers(p: Pipe, a: Answers)
    requires p.pc in {Applying, LoggingApplied, LoggingApplyFailure}
    ensures Delivers(p, a)
  {
    hide SameIds, Verification, AfterRehearsal, AfterGrant, AfterAsking, AfterVerdict;
  }

  lemma VerifyingDelivers(p: Pipe, a: Answers)
    requires p.pc == Verifying
    ensures Delivers(p, a)
  {
    hide SameIds, Application, AfterRehearsal, AfterGrant, AfterAsking, AfterVerdict;
  }

  lemma TellingDelivers(p: Pipe, a: Answers)
    requires p.pc in {Escalating, LoggingEscalated, NotifyingEnd, LoggingNotified, Reporting}
    ensures Delivers(p, a)
  {
    hide SameIds, Verification, Application, AfterRehearsal, AfterGrant, AfterAsking, AfterVerdict;
  }

  ghost predicate Fulfils(trail: seq<Effect>, f: Fate, a: Answers) {
    && (f.apply <==> exists e <- trail :: e.Apply?)
    && (f.verify <==> exists e <- trail :: IsVerification(e))
    && (forall e <- trail :: Says(e, a))
    && (f.escalate <==> Escalate in trail)
    && (f.notify <==> Notify in trail)
  }

  lemma {:induction false} RestFulfils(p: Pipe, a: Answers)
    ensures Fulfils(Rest(p, a), Future(p, a), a)
    decreases Rank(p.pc)
  {
    hide Step, Future, Says;
    if p.pc == Finished {
      assert Future(p, a) == NOTHING by { FinishedFuture(p, a); }
    } else {
      StepDescends(p, a);
      StepDelivers(p, a);
      RestFulfils(Step(p, a).next, a);
      OneMore(Step(p, a).effect, Rest(Step(p, a).next, a), Future(Step(p, a).next, a), a);
    }
  }

  lemma FinishedFuture(p: Pipe, a: Answers)
    requires p.pc in {Reporting, Finished}
    ensures Future(p, a) == NOTHING
  {}

  lemma OneMore(effect: Option<Effect>, trail: seq<Effect>, f: Fate, a: Answers)
    requires Fulfils(trail, f, a)
    requires effect.Some? ==> Says(effect.value, a)
    ensures Fulfils(Append([], effect) + trail, Both(Now(effect), f), a)
  {
    hide IsVerification;
    if effect.Some? {
      assert Append([], effect) + trail == [effect.value] + trail;
    } else {
      assert Append([], effect) + trail == trail;
    }
  }

  // The decision and the record.

  function VerdictOf(p: Pipe, a: Answers): Verdict {
    if p.pc in {Begin, Diagnosing, Judging} then FinalVerdict(a)
    else if p.pc == Checking && a.tripped then RequireApproval
    else p.verdict
  }

  /** The record that a pipeline is going to report. */
  function RecordOf(p: Pipe, a: Answers): Record {
    Record(p.incidentId, p.traceId, VerdictOf(p, a), if Future(p, a).apply then a.applied else p.applied,
           if Future(p, a).verify then Some(a.outcome) else p.verification)
  }

  predicate WillReport(p: Pipe, a: Answers) { p.pc != Finished && (p.pc in {Begin, Diagnosing} ==> a.diagnosed) }

  predicate WillDecide(p: Pipe, a: Answers) { WillReport(p, a) && BeforeDecision(p.pc) }

  predicate IsDecision(e: Effect) { e.Audit? && e.stage == Decided }

  /** Decisions and reports of a trail, and that there are some exactly if they are expected. */
  ghost predicate Records(trail: seq<Effect>, p: Pipe, a: Answers) {
    && (forall e <- trail :: IsDecision(e) ==> e.note == Ruled(VerdictOf(p, a)))
    && ((exists e <- trail :: IsDecision(e)) <==> WillDecide(p, a))
    && (forall e <- trail :: e.Report? ==> e.record == RecordOf(p, a))
    && ((exists e <- trail :: e.Report?) <==> WillReport(p, a))
  }

  /** A step leaves the expected record as it is. */
  predicate KeepsRecord(p: Pipe, a: Answers) {
    var turn := Step(p, a);
    && (WillReport(turn.next, a) ==> WillReport(p, a) && RecordOf(turn.next, a) == RecordOf(p, a))
    && (WillDecide(turn.next, a) ==> WillDecide(p, a) && VerdictOf(turn.next, a) == VerdictOf(p, a))
    && (WillReport(p, a) ==>
          WillReport(turn.next, a) || (turn.effect.Some? && turn.effect.value == Report(RecordOf(p, a))))
    && (WillDecide(p, a) ==> WillDecide(turn.next, a) || (turn.effect.Some? && IsDecision(turn.effect.value)))
    && (turn.effect.Some? ==>
          var e := turn.effect.value;
          && (e.Report? ==> WillReport(p, a) && e.record == RecordOf(p, a))
          && (IsDecision(e) ==> WillDecide(p, a) && e.note == Ruled(VerdictOf(p, a))))
  }

  /** Which step changes which local variable, and where the decision and the report are. */
  ghost predicate ChangesFields(p: Pipe, a: Answers) {
    var turn := Step(p, a);
    var q := turn.next;
    && SameIds(p, turn)
    && q.applied == (if Now(turn.effect).apply then a.applied else p.applied)
    && q.verification == (if Now(turn.effect).verify then Some(a.outcome) else p.verification)
    && (q.pc != Finished ==> VerdictOf(q, a) == VerdictOf(p, a))
    && ((turn.effect.Some? && IsDecision(turn.effect.value)) <==> p.pc == Deciding)
    && (p.pc == Deciding ==> turn.effect.value.note == Ruled(p.verdict))
    && ((turn.effect.Some? && turn.effect.value.Report?) <==> p.pc == Reporting)
    && (p.pc == Reporting ==> turn.effect.value.record == p.Summary())
  }

  lemma EarlyFields(p: Pipe, a: Answers)
    requires BeforeDecision(p.pc)
    ensures ChangesFields(p, a)
  {}

  lemma MiddleFields(p: Pipe, a: Answers)
    requires p.pc in {NotifyingBlock, Asking, Approving, NotifyingRefusal, KillCheck, Building, Rehearsing}
    ensures ChangesFields(p, a)
  {}

  lemma LateFields(p: Pipe, a: Answers)
    requires p.pc in {ApplyCheck, KillRecheck, Applying, LoggingApplied, LoggingApplyFailure, Verifying}
    ensures ChangesFields(p, a)
  {}

  lemma LastFields(p: Pipe, a: Answers)
    requires p.pc in {Escalating, LoggingEscalated, NotifyingEnd, LoggingNotified, Reporting}
    ensures ChangesFields(p, a)
  {}

  lemma StepFields(p: Pipe, a: Answers)
    requires p.pc != Finished
    ensures ChangesFields(p, a)
  {
    hide ChangesFields;
    if BeforeDecision(p.pc) {
      EarlyFields(p, a);
    } else if p.pc in {NotifyingBlock, Asking, Approving, NotifyingRefusal, KillCheck, Building, Rehearsing} {
      MiddleFields(p, a);
    } else if p.pc in {ApplyCheck, KillRecheck, Applying, LoggingApplied, LoggingApplyFailure, Verifying} {
      LateFields(p, a);
    } else {
      LastFields(p, a);
    }
  }

  lemma StepGoesOn(p: Pipe, a: Answers)
    requires p.pc != Finished
    ensures WillReport(Step(p, a).next, a) <==> WillReport(p, a) && p.pc != Reporting
    ensures WillDecide(Step(p, a).next, a) <==> WillDecide(p, a) && p.pc != Deciding
  {
    hide SameIds;
  }

  lemma StepKeepsRecord(p: Pipe, a: Answers)
    requires p.pc != Finished
    ensures KeepsRecord(p, a)
  {
    hide Future, Delivers, Step;
    StepDelivers(p, a);
    DeliveredFate(p, a);
    StepFields(p, a);
    StepGoesOn(p, a);
    if p.pc == Reporting {
      FinishedFuture(p, a);
    }
  }

  lemma DeliveredFate(p: Pipe, a: Answers)
    requires Delivers(p, a)
    ensures Future(p, a) == Both(Now(Step(p, a).effect), Future(Step(p, a).next, a))
  {}

  lemma {:induction false} RestRecords(p: Pipe, a: Answers)
    ensures Records(Rest(p, a), p, a)
    decreases Rank(p.pc)
  {
    hide Step, RecordOf, VerdictOf, WillReport, WillDecide, IsDecision, KeepsRecord, Records;
    if p.pc == Finished {
      NothingRecorded(p, a);
    } else {
      StepDescends(p, a);
      StepKeepsRecord(p, a);
      RestRecords(Step(p, a).next, a);
      OneMoreRecorded(p, a, Rest(Step(p, a).next, a));
    }
  }

  lemma NothingRecorded(p: Pipe, a: Answers)
    requires p.pc == Finished
    ensures Records([], p, a)
  {}

  lemma OneMoreRecorded(p: Pipe, a: Answers, trail: seq<Effect>)
    requires p.pc != Finished && KeepsRecord(p, a) && Records(trail, Step(p, a).next, a)
    ensures Records(Append([], Step(p, a).effect) + trail, p, a)
  {
    hide Step, RecordOf, VerdictOf, WillReport, WillDecide, IsDecision;
    var effect := Step(p, a).effect;
    if effect.Some? {
      assert Append([], effect) + trail == [effect.value] + trail;
    } else {
      assert Append([], effect) + trail == trail;
    }
  }

  // The whole pipeline.

  /** Apply is called exactly for a diagnosed incident whose decision is AUTO, not tripped, or approved, that
      passes both kill checks, the build and the dry run, while applying is enabled. */
  lemma ApplyIff(traceId: string, incidentId: string, a: Answers)
    ensures var trail := Rest(New(traceId, incidentId), a);
            && ((exists e <- trail :: e.Apply?) <==>
                  && a.diagnosed
                  && (|| (a.verdict == Auto && !a.tripped)
                      || ((a.verdict == RequireApproval || (a.verdict == Auto && a.tripped))
                          && a.approval == Some(Approved)))
                  && !a.killed && a.built && a.rehearsed && a.enabled && !a.killedAgain)
            && (forall e <- trail :: e.Apply? ==> e.succeeded == a.applied)
  {
    hide Rest;
    RestFulfils(New(traceId, incidentId), a);
  }

  /** Verification follows exactly a successful Apply and one that was skipped because applying is disabled,
      not one that a kill switch prevented; the trail shows what the verifier found. */
  lemma VerificationIff(traceId: string, incidentId: string, a: Answers)
    ensures var trail := Rest(New(traceId, incidentId), a);
            && ((exists e <- trail :: IsVerification(e)) <==>
                  Prepared(a) && (!a.enabled || (!a.killedAgain && a.applied)))
            && (forall e <- trail :: IsVerification(e) ==> e.note == Observed(a.outcome))
  {
    hide Rest;
    RestFulfils(New(traceId, incidentId), a);
  }

  /** People are called exactly if an Apply failed or the verifier says so, and notified exactly if the
      policy or a person refused, or the verifier sees no need to call. */
  lemma MessageIff(traceId: string, incidentId: string, a: Answers)
    ensures var trail := Rest(New(traceId, incidentId), a);
            && (Escalate in trail <==> (Applies(a) && !a.applied) || (IsVerified(a) && a.escalate))
            && (Notify in trail <==>
                  || (a.diagnosed && FinalVerdict(a) == Block)
                  || (a.diagnosed && FinalVerdict(a) == RequireApproval && a.approval !in {None, Some(Approved)})
                  || (IsVerified(a) && !a.escalate))
  {
    hide Rest;
    RestFulfils(New(traceId, incidentId), a);
  }

  /** The decision that is logged and reported is the policy's, lowered if the limiter trips; the record says
      whether Apply was called with success, and what the verifier found if it was asked. */
  lemma RecordIs(traceId: string, incidentId: string, a: Answers)
    ensures var trail := Rest(New(traceId, incidentId), a);
            && (a.diagnosed <==> exists e <- trail :: IsDecision(e))
            && (forall e <- trail :: IsDecision(e) ==> e.note == Ruled(FinalVerdict(a)))
            && (a.diagnosed <==> exists e <- trail :: e.Report?)
            && (forall e <- trail :: e.Report? ==>
                  e.record == Record(incidentId, traceId, FinalVerdict(a), Applies(a) && a.applied,
                                     if IsVerified(a) then Some(a.outcome) else None))
  {
    hide Rest;
    RestRecords(New(traceId, incidentId), a);
  }
}
