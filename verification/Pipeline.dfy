/** One remediation pipeline as a program counter: every step is one question to a collaborator or to
    a shared flag, and has at most one effect. */
module Pipelines {
  import opened Contracts

  datatype Stage =
    | Detected | Diagnosed | Decided | ApprovalRequested | ApprovalResolved
    | DryRun | Applied | Verified | Notified | Escalated

  datatype Note =
    | Started | Fine | Failure
    | Ruled(verdict: Verdict) | Answered(decision: ApprovalDecision) | Observed(outcome: Outcome)

  datatype Record = Record(
    incidentId: string, traceId: string, verdict: Verdict, applied: bool, verification: Option<Outcome>)

  /** Audit events, calls that reach people or the repository, and the report to the learner. */
  datatype Effect =
    | Audit(traceId: string, incidentId: string, stage: Stage, note: Note)
    | Notify
    | Escalate
    | Apply(succeeded: bool)
    | Report(record: Record)

  /** What collaborators and flags answer; a step reads only the field of its own question. `approval`
      is None for an internal notifier error. */
  datatype Answers = Answers(
    diagnosed: bool, verdict: Verdict, tripped: bool, approval: Option<ApprovalDecision>, killed: bool,
    built: bool, rehearsed: bool, enabled: bool, killedAgain: bool, applied: bool, outcome: Outcome, escalate: bool)

  datatype Pc =
    | Begin | Diagnosing | Judging | Checking | Recording | Persisting | Deciding
    | NotifyingBlock | Asking | Approving | NotifyingRefusal
    | KillCheck | Building | Rehearsing | ApplyCheck | KillRecheck
    | Applying | LoggingApplied | LoggingApplyFailure | Verifying
    | Escalating | LoggingEscalated | NotifyingEnd | LoggingNotified | Reporting | Finished

  /** The local variables of a running pipeline. */
  datatype Pipe = Pipe(
    pc: Pc, traceId: string, incidentId: string, verdict: Verdict, applied: bool, verification: Option<Outcome>)
  {
    function Log(stage: Stage, note: Note, next: Pc): Turn {
      Do(Audit(traceId, incidentId, stage, note), next)
    }

    function Do(effect: Effect, next: Pc): Turn { Turn(Some(effect), this.(pc := next)) }

    function Goto(next: Pc): Turn { Turn(None, this.(pc := next)) }

    function Summary(): Record { Record(incidentId, traceId, verdict, applied, verification) }
  }

  datatype Turn = Turn(effect: Option<Effect>, next: Pipe)

  function New(traceId: string, incidentId: string): Pipe {
    Pipe(Begin, traceId, incidentId, Auto, false, None)
  }

  /** A step keeps its identifiers and stamps them on what it logs. */
  ghost predicate SameIds(p: Pipe, turn: Turn) {
    && turn.next.traceId == p.traceId && turn.next.incidentId == p.incidentId
    && (turn.effect.Some? ==> Stamped(turn.effect.value, p.traceId, p.incidentId))
  }

  predicate Stamped(e: Effect, traceId: string, incidentId: string) {
    && (e.Audit? ==> e.traceId == traceId && e.incidentId == incidentId)
    && (e.Report? ==> e.record.traceId == traceId && e.record.incidentId == incidentId)
  }

  function Step(p: Pipe, a: Answers): (turn: Turn)
    ensures SameIds(p, turn)
  {
    match p.pc
    case Begin => p.Log(Detected, Started, Diagnosing)
    case Diagnosing => if a.diagnosed then p.Log(Diagnosed, Fine, Judging) else p.Log(Diagnosed, Failure, Finished)
    case Judging => p.(verdict := a.verdict).Goto(if a.verdict == Auto then Checking else Deciding)
    case Checking => if a.tripped then p.(verdict := RequireApproval).Goto(Deciding) else p.Goto(Recording)
    case Recording => p.Goto(Persisting)
    case Persisting => p.Goto(Deciding)
    case Deciding =>
      p.Log(Decided, Ruled(p.verdict),
            match p.verdict
            case Block => NotifyingBlock
            case RequireApproval => Asking
            case Auto => KillCheck
            case OtherVerdict(_) => Reporting)
    case NotifyingBlock => p.Do(Notify, LoggingNotified)
    case Asking => p.Log(ApprovalRequested, Fine, Approving)
    case Approving =>
      if a.approval == None then p.Log(ApprovalResolved, Failure, Reporting)
      else p.Log(ApprovalResolved, Answered(a.approval.value),
                 if a.approval == Some(Approved) then KillCheck else NotifyingRefusal)
    case NotifyingRefusal => p.Do(Notify, Reporting)
    case KillCheck => p.Goto(if a.killed then Reporting else Building)
    case Building => if a.built then p.Goto(Rehearsing) else p.Log(DryRun, Failure, Reporting)
    case Rehearsing => if a.rehearsed then p.Log(DryRun, Fine, ApplyCheck) else p.Log(DryRun, Failure, Reporting)
    case ApplyCheck => p.Goto(if a.enabled then KillRecheck else Verifying)
    case KillRecheck => p.Goto(if a.killedAgain then Reporting else Applying)
    case Applying =>
      p.(applied := a.applied).Do(Apply(a.applied), if a.applied then LoggingApplied else LoggingApplyFailure)
    case LoggingApplied => p.Log(Applied, Fine, Verifying)
    case LoggingApplyFailure => p.Log(Applied, Failure, Escalating)
    case Verifying =>
      p.(verification := Some(a.outcome)).Log(Verified, Observed(a.outcome),
                                      if a.escalate then Escalating else NotifyingEnd)
    case Escalating => p.Do(Escalate, LoggingEscalated)
    case LoggingEscalated => p.Log(Escalated, Fine, Reporting)
    case NotifyingEnd => p.Do(Notify, LoggingNotified)
    case LoggingNotified => p.Log(Notified, Fine, Reporting)
    case Reporting => p.Do(Report(p.Summary()), Finished)
    case Finished => p.Goto(Finished)
  }

  function Append(trail: seq<Effect>, effect: Option<Effect>): seq<Effect> {
    if effect == None then trail else trail + [effect.value]
  }

  // The grammar: a reference automaton that knows nothing of the pipeline.

  datatype Place =
    | Empty | AfterDetected | AfterDiagnosed | Undiagnosed | Blocked | MustAsk | Asked | Refused | Cleared
    | Rehearsed | ApplyDone | ApplyLogged | ApplyFailed | MustEscalate | Judged | HasEscalated | HasNotified
    | Settled | Reported | Rejected

  /** Where a word stands, and what its report has to say. */
  datatype Word = Word(at: Place, verdict: Verdict, applied: bool, verification: Option<Outcome>) {
    function To(next: Place): Word { this.(at := next) }

    predicate Matches(r: Record) { r.verdict == verdict && r.applied == applied && r.verification == verification }
  }

  const EMPTY_WORD := Word(Empty, Auto, false, None)

  function Read(w: Word, e: Effect): Word {
    match w.at
    case Empty => w.To(if e.Audit? && (e.stage, e.note) == (Detected, Started) then AfterDetected else Rejected)
    case AfterDetected =>
      w.To(if e.Audit? && (e.stage, e.note) == (Diagnosed, Fine) then AfterDiagnosed
           else if e.Audit? && (e.stage, e.note) == (Diagnosed, Failure) then Undiagnosed else Rejected)
    case AfterDiagnosed =>
      if e.Audit? && e.stage == Decided && e.note.Ruled? then
        w.(verdict := e.note.verdict,
           at := match e.note.verdict
                 case Auto => Cleared
                 case RequireApproval => MustAsk
                 case Block => Blocked
                 case OtherVerdict(_) => Settled)
      else w.To(Rejected)
    case Blocked => w.To(if e == Notify then HasNotified else Rejected)
    case MustAsk => w.To(if e.Audit? && (e.stage, e.note) == (ApprovalRequested, Fine) then Asked else Rejected)
    case Asked =>
      w.To(if !e.Audit? || e.stage != ApprovalResolved then Rejected
           else if e.note == Answered(Approved) then Cleared
           else if e.note.Answered? then Refused
           else if e.note == Failure then Settled else Rejected)
    case Refused => w.To(if e == Notify then Settled else Rejected)
    case Cleared =>
      w.To(if e.Audit? && (e.stage, e.note) == (DryRun, Fine) then Rehearsed
           else if e.Audit? && (e.stage, e.note) == (DryRun, Failure) then Settled
           else if e.Report? && w.Matches(e.record) then Reported else Rejected)
    case Rehearsed =>
      if e.Apply? then w.(applied := e.succeeded, at := if e.succeeded then ApplyDone else ApplyFailed)
      else if e.Audit? && e.stage == Verified && e.note.Observed? then
        w.(verification := Some(e.note.outcome), at := Judged)
      else w.To(if e.Report? && w.Matches(e.record) then Reported else Rejected)
    case ApplyDone => w.To(if e.Audit? && (e.stage, e.note) == (Applied, Fine) then ApplyLogged else Rejected)
    case ApplyLogged =>
      if e.Audit? && e.stage == Verified && e.note.Observed? then
        w.(verification := Some(e.note.outcome), at := Judged)
      else w.To(Rejected)
    case ApplyFailed => w.To(if e.Audit? && (e.stage, e.note) == (Applied, Failure) then MustEscalate else Rejected)
    case MustEscalate => w.To(if e == Escalate then HasEscalated else Rejected)
    case Judged => w.To(if e == Escalate then HasEscalated else if e == Notify then HasNotified else Rejected)
    case HasEscalated => w.To(if e.Audit? && (e.stage, e.note) == (Escalated, Fine) then Settled else Rejected)
    case HasNotified => w.To(if e.Audit? && (e.stage, e.note) == (Notified, Fine) then Settled else Rejected)
    case Settled => w.To(if e.Report? && w.Matches(e.record) then Reported else Rejected)
    case _ => w.To(Rejected)
  }

  function WordOf(trail: seq<Effect>): Word {
    if trail == [] then EMPTY_WORD else Read(WordOf(trail[..|trail| - 1]), trail[|trail| - 1])
  }

  // What the grammar says about a trail.

  function Count(trail: seq<Effect>, which: Effect -> bool): nat {
    if trail == [] then 0
    else Count(trail[..|trail| - 1], which) + if which(trail[|trail| - 1]) then 1 else 0
  }

  predicate IsApply(e: Effect) { e.Apply? }
  predicate IsMessage(e: Effect) { e == Notify || e == Escalate }
  predicate IsReport(e: Effect) { e.Report? }

  ghost predicate Has(trail: seq<Effect>, stage: Stage, note: Note) {
    exists i :: 0 <= i < |trail| && IsAudit(trail[i], stage, note)
  }

  ghost predicate Authorised(trail: seq<Effect>) {
    Has(trail, Decided, Ruled(Auto)) || Has(trail, ApprovalResolved, Answered(Approved))
  }

  predicate IsAudit(e: Effect, stage: Stage, note: Note) { e.Audit? && e.stage == stage && e.note == note }

  predicate IsCleared(at: Place) {
    at in {Cleared, Rehearsed, ApplyDone, ApplyLogged, ApplyFailed, MustEscalate, Judged, HasEscalated}
  }

  lemma ReadClears(w: Word, e: Effect)
    ensures IsCleared(Read(w, e).at) ==>
              IsCleared(w.at) || IsAudit(e, Decided, Ruled(Auto)) || IsAudit(e, ApprovalResolved, Answered(Approved))
    ensures Read(w, e).at == Rehearsed ==> IsAudit(e, DryRun, Fine)
    ensures e.Apply? && Read(w, e).at != Rejected ==> w.at == Rehearsed
    ensures w.at == Rejected ==> Read(w, e).at == Rejected
  {}

  lemma HasGrows(trail: seq<Effect>, e: Effect, stage: Stage, note: Note)
    ensures Has(trail, stage, note) ==> Has(trail + [e], stage, note)
    ensures IsAudit(e, stage, note) ==> Has(trail + [e], stage, note)
  {
    if Has(trail, stage, note) {
      var i :| 0 <= i < |trail| && IsAudit(trail[i], stage, note);
      assert (trail + [e])[i] == trail[i];
    }
    assert (trail + [e])[|trail|] == e;
  }

  lemma {:induction false} ClearedWasAuthorised(trail: seq<Effect>)
    ensures IsCleared(WordOf(trail).at) ==> Authorised(trail)
    ensures WordOf(trail).at == Rehearsed ==> Has(trail, DryRun, Fine)
  {
    if trail != [] {
      hide Read, IsCleared, Has;
      var front, e := trail[..|trail| - 1], trail[|trail| - 1];
      ClearedWasAuthorised(front);
      assert trail == front + [e];
      ReadClears(WordOf(front), e);
      HasGrows(front, e, Decided, Ruled(Auto));
      HasGrows(front, e, ApprovalResolved, Answered(Approved));
      HasGrows(front, e, DryRun, Fine);
    } else {
      assert !IsCleared(Empty);
    }
  }

  lemma {:induction false} PrefixNotRejected(trail: seq<Effect>, i: nat)
    requires WordOf(trail).at != Rejected && i <= |trail|
    ensures WordOf(trail[..i]).at != Rejected
  {
    hide Read;
    if i < |trail| {
      var front := trail[..|trail| - 1];
      ReadClears(WordOf(front), trail[|trail| - 1]);
      PrefixNotRejected(front, i);
      assert front[..i] == trail[..i];
    } else {
      assert trail[..i] == trail;
    }
  }

  /** Nothing is applied that was not rehearsed with success and either decided AUTO or answered
      APPROVED before. */
  lemma ApplyIsAuthorised(trail: seq<Effect>, i: nat)
    requires WordOf(trail).at != Rejected
    requires i < |trail| && trail[i].Apply?
    ensures Authorised(trail[..i]) && Has(trail[..i], DryRun, Fine)
  {
    hide Read, Has, Authorised;
    PrefixNotRejected(trail, i + 1);
    assert trail[..i + 1][..i] == trail[..i];
    ReadClears(WordOf(trail[..i]), trail[i]);
    ClearedWasAuthorised(trail[..i]);
  }

  // How often each effect has occurred when the word stands at a place.

  predicate IsApplied(at: Place) { at in {ApplyDone, ApplyLogged, ApplyFailed, MustEscalate} }

  /** The tallies a word allows: applies, messages and reports so far. */
  predicate Tally(w: Word, applies: nat, messages: nat, reports: nat) {
    && applies <= 1 && messages <= 1 && reports == (if w.at == Reported then 1 else 0)
    && (w.at in {Empty, AfterDetected, AfterDiagnosed, Undiagnosed, Blocked, MustAsk, Asked,
                 Refused, Cleared, Rehearsed} ==>
          applies == 0 && messages == 0 && !w.applied)
    && (IsApplied(w.at) ==> applies == 1 && messages == 0)
    && (w.at == Judged ==> messages == 0)
  }

  lemma ReadTallies(w: Word, e: Effect, applies: nat, messages: nat, reports: nat)
    requires Tally(w, applies, messages, reports) && Read(w, e).at != Rejected
    ensures Tally(Read(w, e), applies + if e.Apply? then 1 else 0,
                  messages + if IsMessage(e) then 1 else 0, reports + if e.Report? then 1 else 0)
  {}

  lemma {:induction false} TrailTallies(trail: seq<Effect>)
    requires WordOf(trail).at != Rejected
    ensures Tally(WordOf(trail), Count(trail, IsApply), Count(trail, IsMessage), Count(trail, IsReport))
  {
    if trail != [] {
      hide Read;
      var front, e := trail[..|trail| - 1], trail[|trail| - 1];
      PrefixNotRejected(trail, |front|);
      TrailTallies(front);
      ReadTallies(WordOf(front), e, Count(front, IsApply), Count(front, IsMessage), Count(front, IsReport));
    }
  }

  /** At most one Apply, at most one message (Notify or Escalate), at most one report. */
  lemma EffectsHappenAtMostOnce(trail: seq<Effect>)
    requires WordOf(trail).at != Rejected
    ensures Count(trail, IsApply) <= 1 && Count(trail, IsMessage) <= 1 && Count(trail, IsReport) <= 1
  {
    TrailTallies(trail);
  }

  /** What the report has to say is what the trail shows. */
  ghost predicate Truthful(w: Word, trail: seq<Effect>) {
    && (w.applied <==> Apply(true) in trail)
    && (w.at in {Empty, AfterDetected, Undiagnosed} <==> !Has(trail, Diagnosed, Fine))
    && (w.at in {Empty, AfterDetected, Undiagnosed, AfterDiagnosed} || Has(trail, Decided, Ruled(w.verdict)))
    && (w.verification.Some? ==> Has(trail, Verified, Observed(w.verification.value)))
    && (w.at == Reported ==> trail != [] && trail[|trail| - 1].Report? && w.Matches(trail[|trail| - 1].record))
  }

  lemma ReadFields(w: Word, e: Effect)
    requires Read(w, e).at != Rejected
    ensures Read(w, e).applied == if e.Apply? then e.succeeded else w.applied
    ensures Read(w, e).verification == w.verification
         || (Read(w, e).verification.Some? && IsAudit(e, Verified, Observed(Read(w, e).verification.value)))
    ensures Read(w, e).at in {Empty, AfterDetected, Undiagnosed} <==>
              w.at in {Empty, AfterDetected, Undiagnosed} && !IsAudit(e, Diagnosed, Fine)
    ensures Read(w, e).at in {Empty, AfterDetected, Undiagnosed, AfterDiagnosed}
         || IsAudit(e, Decided, Ruled(Read(w, e).verdict))
         || (w.at !in {Empty, AfterDetected, Undiagnosed, AfterDiagnosed} && Read(w, e).verdict == w.verdict)
    ensures Read(w, e).at == Reported ==> e.Report? && Read(w, e).Matches(e.record)
    ensures e.Apply? ==> w.at == Rehearsed
  {}

  lemma {:induction false} TrailIsTruthful(trail: seq<Effect>)
    requires WordOf(trail).at != Rejected
    ensures Truthful(WordOf(trail), trail)
  {
    if trail != [] {
      hide Read, Has, Tally;
      var front, e := trail[..|trail| - 1], trail[|trail| - 1];
      var w := WordOf(trail);
      PrefixNotRejected(trail, |front|);
      TrailIsTruthful(front);
      TallyBeforeApply(front);
      assert trail == front + [e];
      ReadFields(WordOf(front), e);
      HasShrinks(front, e, Diagnosed, Fine);
      HasGrows(front, e, Diagnosed, Fine);
      HasGrows(front, e, Decided, Ruled(w.verdict));
      if w.verification.Some? {
        HasGrows(front, e, Verified, Observed(w.verification.value));
      }
    } else {
      assert !Has(trail, Diagnosed, Fine);
    }
  }

  lemma HasShrinks(trail: seq<Effect>, e: Effect, stage: Stage, note: Note)
    ensures Has(trail + [e], stage, note) ==> Has(trail, stage, note) || IsAudit(e, stage, note)
  {
    if Has(trail + [e], stage, note) {
      var i :| 0 <= i < |trail| + 1 && IsAudit((trail + [e])[i], stage, note);
      if i < |trail| {
        assert IsAudit(trail[i], stage, note);
      }
    }
  }

  lemma TallyBeforeApply(trail: seq<Effect>)
    requires WordOf(trail).at != Rejected
    ensures WordOf(trail).at == Rehearsed ==> !WordOf(trail).applied
  {
    TrailTallies(trail);
  }

  // The pipeline speaks the grammar, whatever it is answered.

  ghost predicate Traced(p: Pipe, trail: seq<Effect>) {
    forall i :: 0 <= i < |trail| ==> Stamped(trail[i], p.traceId, p.incidentId)
  }

  predicate PlaceAt(pc: Pc, at: Place) {
    match pc
    case Begin => at == Empty
    case Diagnosing => at == AfterDetected
    case Judging => at == AfterDiagnosed
    case Checking => at == AfterDiagnosed
    case Recording => at == AfterDiagnosed
    case Persisting => at == AfterDiagnosed
    case Deciding => at == AfterDiagnosed
    case NotifyingBlock => at == Blocked
    case Asking => at == MustAsk
    case Approving => at == Asked
    case NotifyingRefusal => at == Refused
    case KillCheck => at == Cleared
    case Building => at == Cleared
    case Rehearsing => at == Cleared
    case ApplyCheck => at == Rehearsed
    case KillRecheck => at == Rehearsed
    case Applying => at == Rehearsed
    case LoggingApplied => at == ApplyDone
    case LoggingApplyFailure => at == ApplyFailed
    case Verifying => at == Rehearsed || at == ApplyLogged
    case Escalating => at == MustEscalate || at == Judged
    case LoggingEscalated => at == HasEscalated
    case NotifyingEnd => at == Judged
    case LoggingNotified => at == HasNotified
    case Reporting => at == Settled || at == Cleared || at == Rehearsed
    case Finished => at == Reported || at == Undiagnosed
  }

  predicate BeforeDecision(pc: Pc) {
    pc in {Begin, Diagnosing, Judging, Checking, Recording, Persisting, Deciding}
  }

  predicate InStep(p: Pipe, w: Word) {
    && PlaceAt(p.pc, w.at)
    && w.applied == p.applied && w.verification == p.verification
    && (BeforeDecision(p.pc) || w.at == Undiagnosed || w.verdict == p.verdict)
    && (p.pc in {Checking, Recording, Persisting} ==> p.verdict == Auto)
  }

  ghost predicate Inv(p: Pipe, trail: seq<Effect>) {
    Traced(p, trail) && InStep(p, WordOf(trail))
  }

  lemma NewInv(traceId: string, incidentId: string)
    ensures Inv(New(traceId, incidentId), [])
  {}

  /** Every run of the pipeline, under any answers, stays in the grammar with one pair of identifiers. */
  lemma StepKeepsInv(p: Pipe, trail: seq<Effect>, a: Answers)
    requires Inv(p, trail)
    ensures Inv(Step(p, a).next, Append(trail, Step(p, a).effect))
    ensures Step(p, a).next.incidentId == p.incidentId
  {
    hide Step, Read, InStep;
    var turn := Step(p, a);
    StepReadsOn(p, a, WordOf(trail));
    if turn.effect.Some? {
      assert Append(trail, turn.effect)[..|trail|] == trail;
    }
  }

  /** The automaton reads what the step emits and stands where the next program counter expects it. */
  ghost predicate ReadsOn(p: Pipe, a: Answers, w: Word) {
    InStep(Step(p, a).next, match Step(p, a).effect case None => w case Some(e) => Read(w, e))
  }

  lemma StepReadsOn(p: Pipe, a: Answers, w: Word)
    requires InStep(p, w)
    ensures ReadsOn(p, a, w)
  {
    hide ReadsOn, InStep;
    match p.pc
    case NotifyingBlock => AskingReadsOn(p, a, w);
    case Asking => AskingReadsOn(p, a, w);
    case Approving => AskingReadsOn(p, a, w);
    case NotifyingRefusal => AskingReadsOn(p, a, w);
    case KillCheck => PreparingReadsOn(p, a, w);
    case Building => PreparingReadsOn(p, a, w);
    case Rehearsing => PreparingReadsOn(p, a, w);
    case ApplyCheck => PreparingReadsOn(p, a, w);
    case KillRecheck => ApplyingReadsOn(p, a, w);
    case Applying => ApplyingReadsOn(p, a, w);
    case LoggingApplied => ApplyingReadsOn(p, a, w);
    case LoggingApplyFailure => ApplyingReadsOn(p, a, w);
    case Verifying => VerifyingReadsOn(p, a, w);
    case Escalating => TellingReadsOn(p, a, w);
    case NotifyingEnd => TellingReadsOn(p, a, w);
    case LoggingEscalated => LoggingReadsOn(p, a, w);
    case LoggingNotified => LoggingReadsOn(p, a, w);
    case Reporting => ClosingReadsOn(p, a, w);
    case Finished => ClosingReadsOn(p, a, w);
    case _ => DecidingReadsOn(p, a, w);
  }

  lemma DecidingReadsOn(p: Pipe, a: Answers, w: Word)
    requires InStep(p, w) && BeforeDecision(p.pc)
    ensures ReadsOn(p, a, w)
  {
    hide SameIds;
  }

  lemma AskingReadsOn(p: Pipe, a: Answers, w: Word)
    requires InStep(p, w) && p.pc in {NotifyingBlock, Asking, Approving, NotifyingRefusal}
    ensures ReadsOn(p, a, w)
  {
    hide SameIds;
  }

  lemma PreparingReadsOn(p: Pipe, a: Answers, w: Word)
    requires InStep(p, w) && p.pc in {KillCheck, Building, Rehearsing, ApplyCheck}
    ensures ReadsOn(p, a, w)
  {
    hide SameIds;
  }

  lemma ApplyingReadsOn(p: Pipe, a: Answers, w: Word)
    requires InStep(p, w) && p.pc in {KillRecheck, Applying, LoggingApplied, LoggingApplyFailure}
    ensures ReadsOn(p, a, w)
  {
    hide SameIds;
  }

  lemma VerifyingReadsOn(p: Pipe, a: Answers, w: Word)
    requires InStep(p, w) && p.pc == Verifying
    ensures ReadsOn(p, a, w)
  {
    hide SameIds;
  }

  lemma TellingReadsOn(p: Pipe, a: Answers, w: Word)
    requires InStep(p, w) && p.pc in {Escalating, NotifyingEnd}
    ensures ReadsOn(p, a, w)
  {
    hide SameIds;
  }

  lemma LoggingReadsOn(p: Pipe, a: Answers, w: Word)
    requires InStep(p, w) && p.pc in {LoggingEscalated, LoggingNotified}
    ensures ReadsOn(p, a, w)
  {
    hide SameIds;
  }

  lemma ClosingReadsOn(p: Pipe, a: Answers, w: Word)
    requires InStep(p, w) && p.pc in {Reporting, Finished}
    ensures ReadsOn(p, a, w)
  {
    hide SameIds;
  }

  /** A finished pipeline has sent exactly one report if its diagnosis succeeded and none otherwise; the
      report is its last effect, and says whether Apply succeeded, what was decided and observed. */
  lemma FinishedPipelineReports(p: Pipe, trail: seq<Effect>)
    requires Inv(p, trail) && p.pc == Finished
    ensures Count(trail, IsReport) == if Has(trail, Diagnosed, Fine) then 1 else 0
    ensures Has(trail, Diagnosed, Fine) ==>
              && trail != [] && trail[|trail| - 1].Report?
              && var r := trail[|trail| - 1].record;
                 && r.traceId == p.traceId && r.incidentId == p.incidentId
                 && (r.applied <==> Apply(true) in trail)
                 && Has(trail, Decided, Ruled(r.verdict))
                 && (r.verification.Some? ==> Has(trail, Verified, Observed(r.verification.value)))
  {
    hide Read, Has;
    TrailTallies(trail);
    TrailIsTruthful(trail);
  }

  // The pipeline as the straight-line code it is.

  function Rank(pc: Pc): nat {
    match pc
    case Begin => 25 case Diagnosing => 24 case Judging => 23 case Checking => 22 case Recording => 21
    case Persisting => 20 case Deciding => 19 case NotifyingBlock => 18 case Asking => 17 case Approving => 16
    case NotifyingRefusal => 15 case KillCheck => 14 case Building => 13 case Rehearsing => 12
    case ApplyCheck => 11 case KillRecheck => 10 case Applying => 9 case LoggingApplied => 8
    case LoggingApplyFailure => 7 case Verifying => 6 case Escalating => 5 case LoggingEscalated => 4
    case NotifyingEnd => 3 case LoggingNotified => 2 case Reporting => 1 case Finished => 0
  }

  /** Every pipeline finishes: each step lowers the rank. */
  lemma StepDescends(p: Pipe, a: Answers)
    requires p.pc != Finished
    ensures Rank(Step(p, a).next.pc) < Rank(p.pc)
  {
    hide SameIds;
  }

  /** What is still to come from a program counter under fixed answers. */
  function Rest(p: Pipe, a: Answers): seq<Effect>
    decreases Rank(p.pc)
  {
    if p.pc == Finished then []
    else
      StepDescends(p, a);
      Append([], Step(p, a).effect) + Rest(Step(p, a).next, a)
  }

  class Orchestrator {
    var effects: seq<Effect>

    /** One effect, which must be the one that the step at p has. */
    method Emit(e: Effect, ghost p: Pipe, ghost a: Answers) returns (ghost q: Pipe)
      requires p.pc != Finished && Step(p, a).effect == Some(e)
      modifies this
      ensures q == Step(p, a).next
      ensures effects + Rest(q, a) == old(effects) + Rest(p, a)
    {
      hide Step, Rank;
      effects := effects + [e];
      q := Step(p, a).next;
      assert Append([], Some(e)) == [e];
      assert old(effects) + ([e] + Rest(q, a)) == old(effects) + [e] + Rest(q, a);
    }

    /** The approval request. */
    method Ask(traceId: string, incidentId: string, a: Answers, ghost p: Pipe) returns (granted: bool, ghost q: Pipe)
      requires p.pc == Asking && p.traceId == traceId && p.incidentId == incidentId
      modifies this
      ensures q == p.(pc := if granted then KillCheck else Reporting)
      ensures effects + Rest(q, a) == old(effects) + Rest(p, a)
    {
      hide Rest, SameIds;
      q := Emit(Audit(traceId, incidentId, ApprovalRequested, Fine), p, a);
      match a.approval {
        case None =>
          q := Emit(Audit(traceId, incidentId, ApprovalResolved, Failure), q, a);
          return false, q;
        case Some(decision) =>
          q := Emit(Audit(traceId, incidentId, ApprovalResolved, Answered(decision)), q, a);
          if decision != Approved {
            q := Emit(Notify, q, a);
            return false, q;
          }
      }
      return true, q;
    }

    /** Stage 3: the policy decision, and the approval it may need. `granted` false means the pipeline
        goes straight to its deferred report. */
    method Decide(traceId: string, incidentId: string, a: Answers, ghost p: Pipe)
      returns (granted: bool, rec: Record, ghost q: Pipe)
      requires p == New(traceId, incidentId).(pc := Judging)
      modifies this
      ensures q.pc == (if granted then KillCheck else Reporting) && rec == q.Summary()
      ensures q.traceId == traceId && q.incidentId == incidentId
      ensures effects + Rest(q, a) == old(effects) + Rest(p, a)
    {
      hide Rest, SameIds;
      var verdict := a.verdict;
      q := Skip(p, a);
      if verdict == Auto {
        q := Skip(q, a);
        if a.tripped {
          verdict := RequireApproval;
        } else {
          q := Skip(q, a);
          q := Skip(q, a);
        }
      }
      q := Emit(Audit(traceId, incidentId, Decided, Ruled(verdict)), q, a);
      rec := Record(incidentId, traceId, verdict, false, None);
      match verdict {
        case Block =>
          q := Emit(Notify, q, a);
          q := Emit(Audit(traceId, incidentId, Notified, Fine), q, a);
          return false, rec, q;
        case RequireApproval =>
          granted, q := Ask(traceId, incidentId, a, q);
          return granted, rec, q;
        case Auto =>
        case OtherVerdict(_) =>
          return false, rec, q;
      }
      return true, rec, q;
    }

    /** Stages 4 and 5: the first kill check, the build and the dry run. */
    method Rehearse(traceId: string, incidentId: string, a: Answers, ghost p: Pipe)
      returns (ready: bool, ghost q: Pipe)
      requires p.pc == KillCheck && p.traceId == traceId && p.incidentId == incidentId
      modifies this
      ensures q == p.(pc := if ready then ApplyCheck else Reporting)
      ensures effects + Rest(q, a) == old(effects) + Rest(p, a)
    {
      hide Rest, SameIds;
      q := Skip(p, a);
      if a.killed {
        return false, q;
      }
      if !a.built {
        q := Emit(Audit(traceId, incidentId, DryRun, Failure), q, a);
        return false, q;
      }
      q := Skip(q, a);
      if !a.rehearsed {
        q := Emit(Audit(traceId, incidentId, DryRun, Failure), q, a);
        return false, q;
      }
      q := Emit(Audit(traceId, incidentId, DryRun, Fine), q, a);
      return true, q;
    }

    /** The call of Apply; a failure is escalated. */
    method ApplyNow(traceId: string, incidentId: string, a: Answers, ghost p: Pipe) returns (ghost q: Pipe)
      requires p.pc == Applying && p.traceId == traceId && p.incidentId == incidentId
      modifies this
      ensures q == p.(pc := if a.applied then Verifying else Reporting, applied := a.applied)
      ensures effects + Rest(q, a) == old(effects) + Rest(p, a)
    {
      hide Rest, SameIds;
      q := Emit(Apply(a.applied), p, a);
      if !a.applied {
        q := Emit(Audit(traceId, incidentId, Applied, Failure), q, a);
        q := Emit(Escalate, q, a);
        q := Emit(Audit(traceId, incidentId, Escalated, Fine), q, a);
        return;
      }
      q := Emit(Audit(traceId, incidentId, Applied, Fine), q, a);
    }

    /** Stage 6: Apply behind its two gates. `verify` false means that stage 7 is not reached. */
    method ApplyGated(traceId: string, incidentId: string, a: Answers, r: Record, ghost p: Pipe)
      returns (verify: bool, rec: Record, ghost q: Pipe)
      requires p.pc == ApplyCheck && p.traceId == traceId && p.incidentId == incidentId && r == p.Summary()
      modifies this
      ensures q == p.(pc := if verify then Verifying else Reporting, applied := q.applied) && rec == q.Summary()
      ensures effects + Rest(q, a) == old(effects) + Rest(p, a)
    {
      hide Rest, SameIds;
      rec := r;
      q := Skip(p, a);
      if a.enabled {
        q := Skip(q, a);
        if a.killedAgain {
          return false, rec, q;
        }
        q := ApplyNow(traceId, incidentId, a, q);
        rec := rec.(applied := a.applied);
        return a.applied, rec, q;
      }
      return true, rec, q;
    }

    /** Stage 7: verification, and the message that follows it. */
    method VerifyAndTell(traceId: string, incidentId: string, a: Answers, r: Record, ghost p: Pipe)
      returns (rec: Record, ghost q: Pipe)
      requires p.pc == Verifying && p.traceId == traceId && p.incidentId == incidentId && r == p.Summary()
      modifies this
      ensures q.pc == Reporting && rec == q.Summary()
      ensures effects + Rest(q, a) == old(effects) + Rest(p, a)
    {
      hide Rest, SameIds;
      rec := r.(verification := Some(a.outcome));
      q := Emit(Audit(traceId, incidentId, Verified, Observed(a.outcome)), p, a);
      if a.escalate {
        q := Emit(Escalate, q, a);
        q := Emit(Audit(traceId, incidentId, Escalated, Fine), q, a);
      } else {
        q := Emit(Notify, q, a);
        q := Emit(Audit(traceId, incidentId, Notified, Fine), q, a);
      }
    }

    /** runPipeline with its deferred report: it has exactly the effects of the program counter's run. */
    method RunPipeline(traceId: string, incidentId: string, a: Answers)
      modifies this
      ensures effects == old(effects) + Rest(New(traceId, incidentId), a)
    {
      hide Rest, SameIds;
      ghost var p := New(traceId, incidentId);
      p := Emit(Audit(traceId, incidentId, Detected, Started), p, a);
      if !a.diagnosed {
        p := Emit(Audit(traceId, incidentId, Diagnosed, Failure), p, a);
        NothingAfterFinish(p, a);
        return;
      }
      p := Emit(Audit(traceId, incidentId, Diagnosed, Fine), p, a);
      var granted, rec;
      granted, rec, p := Decide(traceId, incidentId, a, p);
      if granted {
        var ready;
        ready, p := Rehearse(traceId, incidentId, a, p);
        if ready {
          var verify;
          verify, rec, p := ApplyGated(traceId, incidentId, a, rec, p);
          if verify {
            rec, p := VerifyAndTell(traceId, incidentId, a, rec, p);
          }
        }
      }
      p := Emit(Report(rec), p, a);
      NothingAfterFinish(p, a);
    }
  }

  lemma NothingAfterFinish(p: Pipe, a: Answers)
    requires p.pc == Finished
    ensures forall before: seq<Effect> :: before + Rest(p, a) == before
  {}

  /** A step without an effect. */
  ghost function Skip(p: Pipe, a: Answers): (q: Pipe)
    requires p.pc != Finished && Step(p, a).effect == None
    ensures q == Step(p, a).next && Rest(q, a) == Rest(p, a)
  {
    SilentRest(p, a);
    Step(p, a).next
  }

  lemma SilentRest(p: Pipe, a: Answers)
    requires p.pc != Finished && Step(p, a).effect == None
    ensures Rest(Step(p, a).next, a) == Rest(p, a)
  {
    hide Step, Rank;
    assert Append([], None) == [];
  }

  lemma {:induction false} RestKeepsInv(p: Pipe, trail: seq<Effect>, a: Answers) returns (q: Pipe)
    requires Inv(p, trail)
    ensures Inv(q, trail + Rest(p, a)) && q.pc == Finished
    ensures q.traceId == p.traceId && q.incidentId == p.incidentId
    decreases Rank(p.pc)
  {
    hide Inv, InStep;
    if p.pc == Finished {
      q := p;
      assert trail + Rest(p, a) == trail;
    } else {
      StepDescends(p, a);
      StepKeepsInv(p, trail, a);
      var turn := Step(p, a);
      assert Append(trail, turn.effect) + Rest(turn.next, a) == trail + Rest(p, a) by {
        assert trail + (Append([], turn.effect) + Rest(turn.next, a))
          == trail + Append([], turn.effect) + Rest(turn.next, a);
        assert trail + Append([], turn.effect) == Append(trail, turn.effect);
      }
      q := RestKeepsInv(turn.next, Append(trail, turn.effect), a);
    }
  }

  /** The effects of one whole runPipeline, for all answers: a complete word of the grammar under one
      trace ID, each kind of effect at most once, and one truthful report iff diagnosis succeeded. */
  lemma WholePipeline(traceId: string, incidentId: string, a: Answers)
    ensures var trail := Rest(New(traceId, incidentId), a);
            && WordOf(trail).at in {Reported, Undiagnosed}
            && (forall i :: 0 <= i < |trail| ==> Stamped(trail[i], traceId, incidentId))
            && Count(trail, IsApply) <= 1 && Count(trail, IsMessage) <= 1
            && Count(trail, IsReport) == (if a.diagnosed then 1 else 0)
            && (a.diagnosed ==>
                  trail[|trail| - 1].Report? && (trail[|trail| - 1].record.applied <==> Apply(true) in trail))
  {
    hide Rest, Read, Has, Tally;
    var p := New(traceId, incidentId);
    var trail := Rest(p, a);
    var q := RestKeepsInv(p, [], a);
    assert [] + trail == trail;
    EffectsHappenAtMostOnce(trail);
    FinishedPipelineReports(q, trail);
    DiagnosedInRest(traceId, incidentId, a);
  }

  lemma DiagnosedInRest(traceId: string, incidentId: string, a: Answers)
    ensures Has(Rest(New(traceId, incidentId), a), Diagnosed, Fine) <==> a.diagnosed
  {
    hide SameIds;
    var p := New(traceId, incidentId);
    var p1 := Step(p, a).next;
    var p2 := Step(p1, a).next;
    var e0 := Audit(traceId, incidentId, Detected, Started);
    var e1 := Audit(traceId, incidentId, Diagnosed, if a.diagnosed then Fine else Failure);
    assert Append([], Some(e0)) == [e0] && Append([], Some(e1)) == [e1];
    assert Rest(p1, a) == [e1] + Rest(p2, a);
    assert Rest(p, a) == [e0] + Rest(p1, a);
    if a.diagnosed {
      assert IsAudit(Rest(p, a)[1], Diagnosed, Fine);
    } else {
      assert Rest(p2, a) == [];
    }
  }
}
