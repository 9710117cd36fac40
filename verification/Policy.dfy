/** The policy engine: gates that can only downgrade a verdict, and the rate limiter behind them. */
module Policies {
  import opened Contracts
  import opened CircuitBreakers
  import opened EventLog
  import opened Stores

  datatype FailureModeRule = FailureModeRule(autonomy: AutonomyLevel, allowedActions: seq<string>)

  datatype PolicyConfig = PolicyConfig(
    defaultAutonomy: AutonomyLevel,
    confidenceThreshold: real,
    requireDryRun: bool,
    failureModeRules: map<string, FailureModeRule>,
    namespaceRules: map<string, AutonomyLevel>,
    protectedNamespaces: seq<string>,
    maxReplicaDelta: int,
    maxMemoryBumpFactor: real,
    circuitBreaker: BreakerConfig)

  const DEFAULT_POLICY := PolicyConfig(
    Propose, 0.90, true, map[], map[], ["kube-system", "kube-public", "kube-node-lease"], 2, 2.0, BreakerConfig(5, 300))

  /** What validatePolicyConfig accepts. */
  predicate Validated(cfg: PolicyConfig) {
    && 0.0 <= cfg.confidenceThreshold <= 1.0
    && !cfg.defaultAutonomy.OtherLevel?
    && (forall mode <- cfg.failureModeRules :: !cfg.failureModeRules[mode].autonomy.OtherLevel?)
    && (forall namespace <- cfg.namespaceRules :: !cfg.namespaceRules[namespace].OtherLevel?)
    && cfg.maxReplicaDelta >= 0
    && cfg.maxMemoryBumpFactor >= 0.0
    && cfg.circuitBreaker.maxActionsPerWindow >= 0
    && cfg.circuitBreaker.windowSeconds > 0
  }

  // Ranks: lower is more restrictive.

  function AutonomyRank(level: AutonomyLevel): int {
    match level
    case Observe => 0
    case Propose => 1
    case AutoWithApproval => 2
    case FullAuto => 3
    case _ => -1
  }

  function VerdictRank(v: Verdict): int {
    match v
    case Block => 0
    case RequireApproval => 1
    case Auto => 2
    case OtherVerdict(_) => -1
  }

  /** The more restrictive of two verdicts. */
  function Meet(v: Verdict, w: Verdict): Verdict {
    if VerdictRank(w) < VerdictRank(v) then w else v
  }

  function MeetAll(gates: seq<Verdict>): Verdict {
    if gates == [] then Auto else Meet(MeetAll(gates[..|gates| - 1]), gates[|gates| - 1])
  }

  // Each gate judged on its own, as if it were the only one.

  predicate Allowed(cfg: PolicyConfig, p: Proposal) {
    p.failureMode in cfg.failureModeRules && p.params.actionType in cfg.failureModeRules[p.failureMode].allowedActions
  }

  function ReplicaDelta(p: ActionParams): nat {
    if p.targetReplicas >= p.currentReplicas then p.targetReplicas - p.currentReplicas
    else p.currentReplicas - p.targetReplicas
  }

  predicate WithinBlastRadius(cfg: PolicyConfig, p: ActionParams) {
    if p.actionType == "scale-deployment" then cfg.maxReplicaDelta <= 0 || ReplicaDelta(p) <= cfg.maxReplicaDelta
    else if p.actionType == "bump-memory-limit" then
      cfg.maxMemoryBumpFactor <= 0.0 || p.memoryBumpFactor <= cfg.maxMemoryBumpFactor
    else p.actionType == "rollback-deployment"
  }

  /** The most restrictive of the default level and the two overrides that apply. */
  function EffectiveAutonomy(cfg: PolicyConfig, p: Proposal): AutonomyLevel {
    var level := if cfg.defaultAutonomy.Unset? then Propose else cfg.defaultAutonomy;
    var level := if p.failureMode in cfg.failureModeRules
      then Stricter(level, cfg.failureModeRules[p.failureMode].autonomy) else level;
    if p.namespace in cfg.namespaceRules then Stricter(level, cfg.namespaceRules[p.namespace]) else level
  }

  function Stricter(level: AutonomyLevel, override: AutonomyLevel): AutonomyLevel {
    if !override.Unset? && AutonomyRank(override) < AutonomyRank(level) then override else level
  }

  /** No level that applies is more restrictive, and the result is one of them. */
  lemma EffectiveAutonomyIsLowest(cfg: PolicyConfig, p: Proposal)
    ensures var level := EffectiveAutonomy(cfg, p);
            var default := if cfg.defaultAutonomy.Unset? then Propose else cfg.defaultAutonomy;
            var byMode := if p.failureMode in cfg.failureModeRules then cfg.failureModeRules[p.failureMode].autonomy
                          else Unset;
            var byNamespace := if p.namespace in cfg.namespaceRules then cfg.namespaceRules[p.namespace] else Unset;
            && level in {default, byMode, byNamespace} && level != Unset
            && AutonomyRank(level) <= AutonomyRank(default)
            && (byMode != Unset ==> AutonomyRank(level) <= AutonomyRank(byMode))
            && (byNamespace != Unset ==> AutonomyRank(level) <= AutonomyRank(byNamespace))
  {}

  function AutonomyGate(level: AutonomyLevel, confidence: real, threshold: real): Verdict {
    match level
    case Observe => Block
    case AutoWithApproval => if confidence < threshold then RequireApproval else Auto
    case FullAuto => if confidence < threshold then RequireApproval else Auto
    case _ => RequireApproval
  }

  function Gates(cfg: PolicyConfig, p: Proposal, tripped: bool): seq<Verdict> {
    [ if 0.0 <= p.confidence <= 1.0 then Auto else Block,
      AutonomyGate(EffectiveAutonomy(cfg, p), p.confidence, cfg.confidenceThreshold),
      if Allowed(cfg, p) then Auto else Block,
      if WithinBlastRadius(cfg, p.params) then Auto else RequireApproval,
      if p.namespace in cfg.protectedNamespaces then RequireApproval else Auto,
      if tripped then RequireApproval else Auto ]
  }

  function Verdicts(cfg: PolicyConfig, p: Proposal, tripped: bool): Verdict {
    MeetAll(Gates(cfg, p, tripped))
  }

  /** The decision under construction; `downgrade` is its only way down. */
  class Decision {
    var verdict: Verdict
    var dryRunRequired: bool

    constructor ()
      ensures verdict == Auto && !dryRunRequired
    {
      verdict, dryRunRequired := Auto, false;
    }

    method Downgrade(v: Verdict)
      modifies this`verdict
      ensures verdict == Meet(old(verdict), v)
    {
      if VerdictRank(v) < VerdictRank(verdict) {
        verdict := v;
      }
    }
  }

  /** The clock readings of one Evaluate call, in the order in which they happen. */
  datatype Clock = Clock(checked: int, counted: int, recorded: int, persisted: int) {
    predicate Ordered() { checked <= counted <= recorded <= persisted }
  }

  class Engine {
    const cfg: PolicyConfig
    const cb: CircuitBreaker

    constructor (cfg: PolicyConfig)
      ensures this.cfg == cfg && fresh(cb) && cb.timestamps == [] && cb.store == null
      ensures cb.max > 0 && cb.window > 0
    {
      this.cfg := cfg;
      cb := new CircuitBreaker(cfg.circuitBreaker);
    }

    method ResolveAutonomy(p: Proposal) returns (level: AutonomyLevel)
      ensures level == EffectiveAutonomy(cfg, p)
    {
      level := cfg.defaultAutonomy;
      if level == Unset {
        level := Propose;
      }
      if p.failureMode in cfg.failureModeRules && cfg.failureModeRules[p.failureMode].autonomy != Unset {
        var rule := cfg.failureModeRules[p.failureMode];
        if AutonomyRank(rule.autonomy) < AutonomyRank(level) {
          level := rule.autonomy;
        }
      }
      if p.namespace in cfg.namespaceRules && cfg.namespaceRules[p.namespace] != Unset {
        var rule := cfg.namespaceRules[p.namespace];
        if AutonomyRank(rule) < AutonomyRank(level) {
          level := rule;
        }
      }
    }

    method CheckActionAllowList(p: Proposal, d: Decision)
      modifies d`verdict
      ensures d.verdict == Meet(old(d.verdict), if Allowed(cfg, p) then Auto else Block)
    {
      if p.failureMode !in cfg.failureModeRules {
        d.Downgrade(Block);
        return;
      }
      var allowed := cfg.failureModeRules[p.failureMode].allowedActions;
      if |allowed| == 0 {
        d.Downgrade(Block);
        return;
      }
      for i := 0 to |allowed|
        invariant p.params.actionType !in allowed[..i]
        invariant d.verdict == old(d.verdict)
      {
        if allowed[i] == p.params.actionType {
          return;
        }
      }
      d.Downgrade(Block);
    }

    method CheckBlastRadius(p: ActionParams, d: Decision)
      modifies d`verdict
      ensures d.verdict == Meet(old(d.verdict), if WithinBlastRadius(cfg, p) then Auto else RequireApproval)
    {
      if p.actionType == "scale-deployment" {
        var delta := ReplicaDelta(p);
        if cfg.maxReplicaDelta > 0 && delta > cfg.maxReplicaDelta {
          d.Downgrade(RequireApproval);
        }
      } else if p.actionType == "bump-memory-limit" {
        if cfg.maxMemoryBumpFactor > 0.0 && p.memoryBumpFactor > cfg.maxMemoryBumpFactor {
          d.Downgrade(RequireApproval);
        }
      } else if p.actionType != "rollback-deployment" {
        d.Downgrade(RequireApproval);
      }
    }

    method CheckProtectedNamespace(namespace: string, d: Decision)
      modifies d`verdict
      ensures d.verdict == Meet(old(d.verdict), if namespace in cfg.protectedNamespaces then RequireApproval else Auto)
    {
      for i := 0 to |cfg.protectedNamespaces|
        invariant namespace !in cfg.protectedNamespaces[..i]
        invariant d.verdict == old(d.verdict)
      {
        if namespace == cfg.protectedNamespaces[i] {
          d.Downgrade(RequireApproval);
          return;
        }
      }
    }

    /** Gates 1 to 5 of Evaluate, with its early returns (`final`). */
    method JudgeStaticGates(p: Proposal, d: Decision) returns (final: bool)
      requires d.verdict == Auto
      modifies d`verdict
      ensures d.verdict == Verdicts(cfg, p, false)
      ensures final ==> d.verdict == Block
      ensures d.verdict == Auto || Verdicts(cfg, p, true) == d.verdict
    {
      hide MeetAll, Verdicts, EffectiveAutonomy, WithinBlastRadius, Allowed;
      if p.confidence < 0.0 || p.confidence > 1.0 {
        d.verdict := Block;
        EarlyBlock(cfg, p);
        return true;
      }
      var autonomy := ResolveAutonomy(p);
      match autonomy {
        case Observe =>
          d.verdict := Block;
          EarlyBlock(cfg, p);
          return true;
        case Propose =>
          d.Downgrade(RequireApproval);
        case AutoWithApproval =>
          if p.confidence < cfg.confidenceThreshold {
            d.Downgrade(RequireApproval);
          }
        case FullAuto =>
          if p.confidence < cfg.confidenceThreshold {
            d.Downgrade(RequireApproval);
          }
        case _ =>
          d.Downgrade(RequireApproval);
      }
      CheckActionAllowList(p, d);
      if d.verdict == Block {
        EarlyBlock(cfg, p);
        return true;
      }
      CheckBlastRadius(p.params, d);
      CheckProtectedNamespace(p.namespace, d);
      LateGates(cfg, p, d.verdict);
      return false;
    }

    /** Early returns and the breaker being consulted only for a verdict that is still AUTO make no
        difference: the verdict is the meet of all gates. A decision is recorded exactly when it is
        AUTO, and the breaker is touched only when every other gate passed. */
    method Evaluate(p: Proposal, clock: Clock) returns (d: Decision)
      requires clock.Ordered()
      modifies cb`timestamps, cb.store
      ensures fresh(d)
      ensures d.verdict == Verdicts(cfg, p, |Evicted(old(cb.timestamps), clock.checked - cb.window)| >= cb.max)
      ensures d.dryRunRequired == (cfg.requireDryRun && d.verdict == Auto)
      ensures d.verdict == Auto ==>
                cb.timestamps == Evicted(old(cb.timestamps), clock.checked - cb.window) + [clock.recorded]
      ensures Verdicts(cfg, p, false) != Auto ==> cb.timestamps == old(cb.timestamps)
      ensures Verdicts(cfg, p, false) == Auto && d.verdict != Auto ==>
                cb.timestamps
                  == Evicted(Evicted(old(cb.timestamps), clock.checked - cb.window), clock.counted - cb.window)
      ensures cb.store != null && d.verdict == Auto ==>
                cb.store.breakerEvents == old(cb.store.breakerEvents) + [clock.persisted]
      ensures cb.store != null && d.verdict != Auto ==> cb.store.breakerEvents == old(cb.store.breakerEvents)
    {
      hide Verdicts, Evicted, Sorted, CountAbove;
      d := new Decision();
      var final := JudgeStaticGates(p, d);
      if final {
        return;
      }
      if d.verdict == Auto {
        var tripped := cb.Tripped(clock.checked);
        if tripped {
          TrippedGate(cfg, p);
          var _ := cb.Count(clock.counted);
          d.Downgrade(RequireApproval);
        }
      }
      if cfg.requireDryRun && d.verdict == Auto {
        d.dryRunRequired := true;
      }
      if d.verdict == Auto {
        cb.Record(clock.recorded, clock.persisted);
      }
    }
  }

  /** All gates unrolled: what the evaluation order computes is their meet. */
  lemma VerdictsUnrolled(cfg: PolicyConfig, p: Proposal, tripped: bool)
    ensures var g := Gates(cfg, p, tripped);
            Verdicts(cfg, p, tripped) == Meet(Meet(Meet(Meet(Meet(g[0], g[1]), g[2]), g[3]), g[4]), g[5])
  {
    hide AutonomyGate, EffectiveAutonomy, WithinBlastRadius, Allowed, Meet;
    var g := Gates(cfg, p, tripped);
    MeetAllStep(g);
    MeetAllStep(g[..5]);
    MeetAllStep(g[..5][..4]);
    MeetAllStep(g[..5][..4][..3]);
    MeetAllStep(g[..5][..4][..3][..2]);
    MeetAllStep(g[..5][..4][..3][..2][..1]);
  }

  lemma MeetAllStep(gates: seq<Verdict>)
    requires gates != []
    ensures MeetAll(gates) == Meet(MeetAll(gates[..|gates| - 1]), gates[|gates| - 1])
    ensures |gates| == 1 && !gates[0].OtherVerdict? ==> MeetAll(gates) == gates[0]
  {}

  lemma EarlyBlock(cfg: PolicyConfig, p: Proposal)
    requires
      || !(0.0 <= p.confidence <= 1.0)
      || EffectiveAutonomy(cfg, p) == Observe
      || !Allowed(cfg, p)
    ensures forall tripped :: Verdicts(cfg, p, tripped) == Block
  {
    forall tripped
      ensures Verdicts(cfg, p, tripped) == Block
    {
      VerdictsUnrolled(cfg, p, tripped);
    }
  }

  lemma LateGates(cfg: PolicyConfig, p: Proposal, before: Verdict)
    requires var g := Gates(cfg, p, false);
             before == Meet(Meet(Meet(Meet(g[0], g[1]), g[2]), g[3]), g[4])
    ensures Verdicts(cfg, p, false) == before
    ensures Verdicts(cfg, p, true) == Meet(before, RequireApproval)
  {
    VerdictsUnrolled(cfg, p, false);
    VerdictsUnrolled(cfg, p, true);
  }

  lemma TrippedGate(cfg: PolicyConfig, p: Proposal)
    requires Verdicts(cfg, p, false) == Auto
    ensures Verdicts(cfg, p, true) == RequireApproval
  {
    VerdictsUnrolled(cfg, p, false);
    VerdictsUnrolled(cfg, p, true);
  }

  /** The verdict is a lower bound of all gates, and one of the gates (or AUTO) attains it. */
  lemma {:induction false} MeetAllIsMinimum(gates: seq<Verdict>)
    ensures forall g <- gates :: VerdictRank(MeetAll(gates)) <= VerdictRank(g)
    ensures MeetAll(gates) == Auto || MeetAll(gates) in gates
    ensures MeetAll(gates) == Auto <==> forall g <- gates :: g == Auto
  {
    if gates != [] {
      var front := gates[..|gates| - 1];
      MeetAllIsMinimum(front);
      assert gates == front + [gates[|gates| - 1]];
    }
  }

  /** The levels that apply to a proposal: the default and the overrides that are set. */
  ghost function LevelsThatApply(cfg: PolicyConfig, p: Proposal): set<AutonomyLevel> {
    {if cfg.defaultAutonomy == Unset then Propose else cfg.defaultAutonomy}
    + (if p.failureMode in cfg.failureModeRules then {cfg.failureModeRules[p.failureMode].autonomy} - {Unset} else {})
    + (if p.namespace in cfg.namespaceRules then {cfg.namespaceRules[p.namespace]} - {Unset} else {})
  }

  /** The action is one of the three whose blast radius is known, and that is within a limit that is set. */
  lemma WithinBlastRadiusIff(cfg: PolicyConfig, p: ActionParams)
    ensures WithinBlastRadius(cfg, p) <==>
              && p.actionType in {"scale-deployment", "bump-memory-limit", "rollback-deployment"}
              && (p.actionType == "scale-deployment" && cfg.maxReplicaDelta > 0 ==>
                    -cfg.maxReplicaDelta <= p.targetReplicas - p.currentReplicas <= cfg.maxReplicaDelta)
              && (p.actionType == "bump-memory-limit" && cfg.maxMemoryBumpFactor > 0.0 ==>
                    p.memoryBumpFactor <= cfg.maxMemoryBumpFactor)
  {}

  /** AUTO exactly when every gate passes, in the terms of the proposal and the configuration. */
  lemma AutoIffEveryGatePasses(cfg: PolicyConfig, p: Proposal, tripped: bool)
    ensures Verdicts(cfg, p, tripped) == Auto <==>
              && 0.0 <= p.confidence <= 1.0 && p.confidence >= cfg.confidenceThreshold
              && (forall level <- LevelsThatApply(cfg, p) :: level in {AutoWithApproval, FullAuto})
              && p.failureMode in cfg.failureModeRules
              && p.params.actionType in cfg.failureModeRules[p.failureMode].allowedActions
              && p.params.actionType in {"scale-deployment", "bump-memory-limit", "rollback-deployment"}
              && (p.params.actionType == "scale-deployment" && cfg.maxReplicaDelta > 0 ==>
                    -cfg.maxReplicaDelta <= p.params.targetReplicas - p.params.currentReplicas <= cfg.maxReplicaDelta)
              && (p.params.actionType == "bump-memory-limit" && cfg.maxMemoryBumpFactor > 0.0 ==>
                    p.params.memoryBumpFactor <= cfg.maxMemoryBumpFactor)
              && p.namespace !in cfg.protectedNamespaces && !tripped
  {
    hide WithinBlastRadius, EffectiveAutonomy, LevelsThatApply;
    VerdictsUnrolled(cfg, p, tripped);
    WithinBlastRadiusIff(cfg, p.params);
    LevelsDecide(cfg, p);
  }

  /** BLOCK exactly for a confidence out of range, an action that no rule lists for the failure mode, or
      "observe" among the levels that apply and no unknown level beside it; everything else that is not AUTO
      needs approval. */
  lemma BlockIff(cfg: PolicyConfig, p: Proposal, tripped: bool)
    ensures Verdicts(cfg, p, tripped) == Block <==>
              || p.confidence < 0.0 || p.confidence > 1.0
              || p.failureMode !in cfg.failureModeRules
              || p.params.actionType !in cfg.failureModeRules[p.failureMode].allowedActions
              || (Observe in LevelsThatApply(cfg, p) && forall level <- LevelsThatApply(cfg, p) :: !level.OtherLevel?)
    ensures Verdicts(cfg, p, tripped) in {Auto, RequireApproval, Block}
  {
    hide WithinBlastRadius, EffectiveAutonomy, LevelsThatApply;
    VerdictsUnrolled(cfg, p, tripped);
    LevelsDecide(cfg, p);
  }

  lemma LevelsDecide(cfg: PolicyConfig, p: Proposal)
    ensures EffectiveAutonomy(cfg, p) in {AutoWithApproval, FullAuto} <==>
              forall level <- LevelsThatApply(cfg, p) :: level in {AutoWithApproval, FullAuto}
    ensures EffectiveAutonomy(cfg, p) == Observe <==>
              Observe in LevelsThatApply(cfg, p) && forall level <- LevelsThatApply(cfg, p) :: !level.OtherLevel?
  {
    LowestApplies(cfg, p);
    assert forall level: AutonomyLevel :: level in {AutoWithApproval, FullAuto} <==> AutonomyRank(level) >= 2;
    assert forall level: AutonomyLevel :: level == Observe <==> AutonomyRank(level) == 0;
    assert forall level: AutonomyLevel :: level.OtherLevel? || level == Unset <==> AutonomyRank(level) == -1;
  }

  lemma LowestApplies(cfg: PolicyConfig, p: Proposal)
    ensures EffectiveAutonomy(cfg, p) in LevelsThatApply(cfg, p) && Unset !in LevelsThatApply(cfg, p)
    ensures forall level <- LevelsThatApply(cfg, p) :: AutonomyRank(EffectiveAutonomy(cfg, p)) <= AutonomyRank(level)
  {
    EffectiveAutonomyIsLowest(cfg, p);
  }

  // Monotonicity.

  /** An override's rank as a limit on the level; no override limits nothing. */
  function OverrideRank(level: AutonomyLevel): int {
    if level.Unset? then 3 else AutonomyRank(level)
  }

  ghost predicate NoLooserLimit(strict: real, loose: real) {
    loose <= 0.0 || 0.0 < strict <= loose
  }

  /** `strict` grants nothing that `loose` does not: clause by clause, in the config's own terms. */
  ghost predicate AtLeastAsStrict(strict: PolicyConfig, loose: PolicyConfig) {
    && AutonomyRank(if strict.defaultAutonomy.Unset? then Propose else strict.defaultAutonomy)
       <= AutonomyRank(if loose.defaultAutonomy.Unset? then Propose else loose.defaultAutonomy)
    && strict.confidenceThreshold >= loose.confidenceThreshold
    && (forall mode <- strict.failureModeRules ::
          && mode in loose.failureModeRules
          && OverrideRank(strict.failureModeRules[mode].autonomy) <= OverrideRank(loose.failureModeRules[mode].autonomy)
          && (forall action <- strict.failureModeRules[mode].allowedActions ::
                action in loose.failureModeRules[mode].allowedActions))
    && (forall namespace <- loose.namespaceRules ::
          && namespace in strict.namespaceRules
          && OverrideRank(strict.namespaceRules[namespace]) <= OverrideRank(loose.namespaceRules[namespace]))
    && (forall namespace <- loose.protectedNamespaces :: namespace in strict.protectedNamespaces)
    && NoLooserLimit(strict.maxReplicaDelta as real, loose.maxReplicaDelta as real)
    && NoLooserLimit(strict.maxMemoryBumpFactor, loose.maxMemoryBumpFactor)
  }

  /** For validated configs, a stricter policy, a tripped breaker or a lower in-range confidence never
      gives a more permissive verdict. */
  lemma StricterPolicyNeverMorePermissive(
      strict: PolicyConfig, loose: PolicyConfig, p: Proposal, confidence: real, tripped: bool, trippedLoose: bool)
    requires Validated(strict) && Validated(loose) && AtLeastAsStrict(strict, loose)
    requires 0.0 <= p.confidence <= confidence <= 1.0
    requires trippedLoose ==> tripped
    ensures VerdictRank(Verdicts(strict, p, tripped))
         <= VerdictRank(Verdicts(loose, p.(confidence := confidence), trippedLoose))
  {
    var q := p.(confidence := confidence);
    if Allowed(strict, p) {
      AutonomyIsMonotone(strict, loose, p);
      VerdictsUnrolled(strict, p, tripped);
      VerdictsUnrolled(loose, q, trippedLoose);
      assert EffectiveAutonomy(loose, q) == EffectiveAutonomy(loose, p);
    } else {
      EarlyBlock(strict, p);
      BlockIff(loose, q, trippedLoose);
    }
  }

  lemma AutonomyIsMonotone(strict: PolicyConfig, loose: PolicyConfig, p: Proposal)
    requires Validated(strict) && Validated(loose) && AtLeastAsStrict(strict, loose)
    requires p.failureMode in strict.failureModeRules
    ensures 0 <= AutonomyRank(EffectiveAutonomy(strict, p)) <= AutonomyRank(EffectiveAutonomy(loose, p))
  {}

  /** Why validation is needed: ranked as the strictest level, an unknown level replaces "observe" but
      only asks for approval. That is the one pair of levels on which rank and verdict disagree. */
  lemma RankOrdersVerdictsExcept(strict: AutonomyLevel, loose: AutonomyLevel, threshold: real)
    requires AutonomyRank(strict) <= AutonomyRank(loose)
    ensures (forall confidence :: VerdictRank(AutonomyGate(strict, confidence, threshold))
                               <= VerdictRank(AutonomyGate(loose, confidence, threshold)))
       <==> !(AutonomyRank(strict) == -1 && loose == Observe)
  {
    if AutonomyRank(strict) == -1 && loose == Observe {
      assert VerdictRank(AutonomyGate(strict, 0.0, threshold)) > VerdictRank(AutonomyGate(loose, 0.0, threshold));
    }
  }

  /** The policy used when no file can be loaded is valid and never acts on its own. */
  lemma DefaultPolicyFailsClosed(p: Proposal, tripped: bool)
    ensures Validated(DEFAULT_POLICY)
    ensures Verdicts(DEFAULT_POLICY, p, tripped) == Block
  {
    EarlyBlock(DEFAULT_POLICY, p);
  }

  // Auto-with-approval.

  function Promoted(level: AutonomyLevel): AutonomyLevel { if level == AutoWithApproval then FullAuto else level }

  /** The policy with full-auto written wherever it says auto-with-approval. */
  function PromotedPolicy(cfg: PolicyConfig): PolicyConfig {
    cfg.(defaultAutonomy := Promoted(cfg.defaultAutonomy),
         failureModeRules := map mode <- cfg.failureModeRules ::
           cfg.failureModeRules[mode].(autonomy := Promoted(cfg.failureModeRules[mode].autonomy)),
         namespaceRules := map namespace <- cfg.namespaceRules :: Promoted(cfg.namespaceRules[namespace]))
  }

  /** The usage guide has auto-with-approval ask before acting. In the code the two levels are one: writing
      full-auto for it, in the default and in any override, changes the verdict on no proposal. */
  lemma AutoWithApprovalDecidesLikeFullAuto(cfg: PolicyConfig, p: Proposal, tripped: bool)
    ensures Verdicts(PromotedPolicy(cfg), p, tripped) == Verdicts(cfg, p, tripped)
  {
    hide EffectiveAutonomy, MeetAll;
    PromotedAutonomy(cfg, p);
    assert Gates(PromotedPolicy(cfg), p, tripped) == Gates(cfg, p, tripped);
  }

  lemma PromotedAutonomy(cfg: PolicyConfig, p: Proposal)
    ensures EffectiveAutonomy(PromotedPolicy(cfg), p) == Promoted(EffectiveAutonomy(cfg, p))
  {
    hide Stricter;
    var first := if cfg.defaultAutonomy.Unset? then Propose else cfg.defaultAutonomy;
    var second := first;
    if p.failureMode in cfg.failureModeRules {
      second := Stricter(first, cfg.failureModeRules[p.failureMode].autonomy);
      PromotedStricter(first, cfg.failureModeRules[p.failureMode].autonomy);
    }
    if p.namespace in cfg.namespaceRules {
      PromotedStricter(second, cfg.namespaceRules[p.namespace]);
    }
  }

  lemma PromotedStricter(level: AutonomyLevel, override: AutonomyLevel)
    ensures Stricter(Promoted(level), Promoted(override)) == Promoted(Stricter(level, override))
  {}
}
