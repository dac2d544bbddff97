/** The autonomy decision: gates with ceilings, and evidence identities (`lou/decision/autonomy.py`). */
module Autonomy {
  import opened Common
  import opened Contracts
  import opened Scoring

  datatype Action = Report | Recommend | GeneratePatch | OpenPr

  /** What `git merge-base --is-ancestor` said about the candidate and the fix commit. */
  datatype Ancestry = Descends | DoesNotDescend | Unavailable

  /** The arguments of `decide_autonomy`. `contentHash` is the digest of the patch bytes, if any. */
  datatype Evidence = Evidence(
    analysisRunId: string, debt: DebtInputs, remediation: Option<RemediationInputs>,
    policyMax: Option<Level>, patch: Option<PatchArtifact>, contentHash: Option<Hash>,
    job: Option<AnalysisJob>, fixCommit: Option<string>, attemptId: Option<AttemptId>,
    required: seq<string>, results: seq<VerificationResult>, candidate: Option<VerificationResult>,
    ancestry: Ancestry)

  datatype GateCode =
    | DebtPriority | RecommendConfidence | RemediationAssessed | CompleteContext | PatchConfidence
    | PatchRisk | Bounded(feature: RemediationFeature) | NoMigration(feature: RemediationFeature)
    | PatchReversible | PrFeature(feature: RemediationFeature) | PrConfidence | PrRisk | PatchIdentity
    | VerificationPresent | VerificationPassed | FixIdentity | VerifiedPatchBinding | RequiredWorkloads
    | CandidateRegressionEvidence | EvidenceIdentity | PolicyCeiling

  datatype FeatureRule = BoundedRule | MigrationRule | PrRule

  datatype Gate = Gate(code: GateCode, passed: bool, ceiling: Level)

  datatype IdentityCode =
    | CandidateRegressionRun | CandidateRegressionCommit | PatchContentHash | MissingJob | AnalysisRun
    | PatchRun | PatchBaseCommit | AncestryUnavailable | AncestryFailed | WorkloadPhase
    | WorkloadAnalysisRun | WorkloadPatchHash | WorkloadAttempt | WorkloadFixCommit
    | PlanWorkloads | WorkloadResults

  datatype Decision = Decision(level: Level, action: Action, gates: seq<Gate>,
                               identityFailures: seq<IdentityCode>)

  const BOUNDED_FEATURES: seq<RemediationFeature> := [BlastRadius, Criticality, PatchSize]
  const MIGRATION_FEATURES: seq<RemediationFeature> := [SchemaMigrationRisk, DataMigrationRisk]
  const PR_FEATURES: seq<RemediationFeature> := [Coverage, Reversibility, VerificationStrength]

  function ActionOf(level: Level): Action {
    match level
    case 0 => Report
    case 1 => Recommend
    case 2 => GeneratePatch
    case _ => OpenPr
  }

  // ----- what the gates look at

  predicate ConfirmedRegression(e: Evidence) {
    && e.candidate.Some?
    && e.candidate.value.phase == Candidate
    && e.candidate.value.status == Failed
    && e.candidate.value.analysisRunId == e.analysisRunId
    && (e.job.None? || e.candidate.value.commitSha == e.job.value.candidateCommitSha)
  }

  function Confidence(e: Evidence): real {
    if e.remediation.None? then 0.0
    else Min(DebtConfidence(e.debt), RemediationConfidence(e.remediation.value))
  }

  predicate RiskAtMost(e: Evidence, bound: real) {
    e.remediation.Some? && RemediationRisk(e.remediation.value) <= bound
  }

  predicate FullyObserved(e: Evidence) {
    && (forall f: DebtFeature :: f in e.debt)
    && e.remediation.Some?
    && (forall f: RemediationFeature :: f in e.remediation.value)
    && e.remediation.value[ContextCompleteness] == 1.0
  }

  predicate PatchMatches(e: Evidence) {
    && e.patch.Some?
    && e.patch.value.analysisRunId == e.analysisRunId
    && e.patch.value.patchSha256 != ""
    && e.patch.value.filesChanged > 0
    && e.patch.value.linesAdded + e.patch.value.linesDeleted > 0
  }

  predicate AllPassed(results: seq<VerificationResult>) {
    forall r :: r in results ==> r.status == Passed
  }

  predicate FixIdentities(e: Evidence) {
    && e.fixCommit.Some? && e.fixCommit.value != ""
    && e.results != []
    && forall r :: r in e.results ==>
         r.phase == Fix && r.analysisRunId == e.analysisRunId && r.commitSha == e.fixCommit.value
  }

  predicate PatchBound(e: Evidence) {
    && PatchMatches(e)
    && e.results != []
    && forall r :: r in e.results ==> r.patchSha256 == Some(e.patch.value.patchSha256)
  }

  function Observed(results: seq<VerificationResult>): set<string> {
    set r | r in results && r.workloadId.Some? :: r.workloadId.value
  }

  predicate WorkloadsCovered(e: Evidence) {
    && e.required != []
    && (forall w :: w in e.required ==> w != "")
    && (forall w :: w in e.required ==> w in Observed(e.results))
  }

  // ----- the gate list; every group appends to the gates recorded before it

  function EvidenceGates(before: seq<Gate>, e: Evidence): seq<Gate> {
    before
    + [Gate(DebtPriority, DebtRisk(e.debt) >= 0.20 || ConfirmedRegression(e), 0)]
    + [Gate(RecommendConfidence, Confidence(e) >= 0.50, 0)]
    + [Gate(RemediationAssessed, e.remediation.Some?, 1)]
    + [Gate(CompleteContext, FullyObserved(e), 1)]
    + [Gate(PatchConfidence, Confidence(e) >= 0.75, 1)]
    + [Gate(PatchRisk, RiskAtMost(e, 0.40), 1)]
  }

  function FeatureGate(rule: FeatureRule, r: RemediationInputs, f: RemediationFeature): Gate {
    match rule
    case BoundedRule => Gate(Bounded(f), f in r && r[f] < 0.80, 1)
    case MigrationRule => Gate(NoMigration(f), f in r && r[f] == 0.0, 1)
    case PrRule => Gate(PrFeature(f), f in r && r[f] >= 0.80, 2)
  }

  function FeatureGates(before: seq<Gate>, rule: FeatureRule, r: RemediationInputs,
                        features: seq<RemediationFeature>): seq<Gate>
  {
    if features == [] then before
    else FeatureGates(before, rule, r, features[..|features| - 1]) + [FeatureGate(rule, r, features[|features| - 1])]
  }

  function ReversibleGate(r: RemediationInputs): Gate {
    Gate(PatchReversible, Reversibility in r && r[Reversibility] >= 0.50, 1)
  }

  function SiteGates(before: seq<Gate>, r: RemediationInputs): seq<Gate> {
    var bounded := FeatureGates(before, BoundedRule, r, BOUNDED_FEATURES);
    var migrations := FeatureGates(bounded, MigrationRule, r, MIGRATION_FEATURES);
    FeatureGates(migrations + [ReversibleGate(r)], PrRule, r, PR_FEATURES)
  }

  function PatchGates(before: seq<Gate>, e: Evidence): seq<Gate> {
    before
    + [Gate(PrConfidence, Confidence(e) >= 0.90, 2)]
    + [Gate(PrRisk, RiskAtMost(e, 0.20), 2)]
    + [Gate(PatchIdentity, PatchMatches(e), 2)]
  }

  function VerificationGates(before: seq<Gate>, e: Evidence): seq<Gate> {
    before
    + [Gate(VerificationPresent, e.results != [], 2)]
    + [Gate(VerificationPassed, e.results != [] && AllPassed(e.results), 2)]
    + [Gate(FixIdentity, FixIdentities(e), 2)]
    + [Gate(VerifiedPatchBinding, PatchBound(e), 2)]
    + [Gate(RequiredWorkloads, WorkloadsCovered(e), 2)]
    + [Gate(CandidateRegressionEvidence, ConfirmedRegression(e), 2)]
  }

  function SelectingGates(e: Evidence): seq<Gate> {
    var assessed := EvidenceGates([], e);
    var sited := if e.remediation.Some? then SiteGates(assessed, e.remediation.value) else assessed;
    VerificationGates(PatchGates(sited, e), e) + [Gate(EvidenceIdentity, IdentityFailures(e) == [], 0)]
  }

  function PolicyMax(e: Evidence): Level {
    if e.policyMax.Some? then e.policyMax.value else 0
  }

  function PolicyGate(e: Evidence, level: Level): Gate {
    Gate(PolicyCeiling, level <= PolicyMax(e), PolicyMax(e))
  }

  function Lowest(gates: seq<Gate>): Level {
    if gates == [] then 3
    else
      var before := Lowest(gates[..|gates| - 1]);
      var last := gates[|gates| - 1];
      if !last.passed && last.ceiling < before then last.ceiling else before
  }

  function AllGates(e: Evidence): seq<Gate> {
    SelectingGates(e) + [PolicyGate(e, Lowest(SelectingGates(e)))]
  }

  function LevelOf(e: Evidence): Level {
    Lowest(AllGates(e))
  }

  // ----- evidence identities

  function Mismatch<T(==)>(code: IdentityCode, expected: Option<T>, actual: Option<T>): seq<IdentityCode> {
    if expected.None? || actual.None? || expected != actual then [code] else []
  }

  function CandidateMismatches(before: seq<IdentityCode>, e: Evidence): seq<IdentityCode> {
    if e.candidate.None? then before
    else
      var candidate := e.candidate.value;
      var runs := before + Mismatch(CandidateRegressionRun, Some(e.analysisRunId), Some(candidate.analysisRunId));
      if e.job.None? then runs
      else runs + Mismatch(CandidateRegressionCommit, Some(e.job.value.candidateCommitSha), Some(candidate.commitSha))
  }

  function PatchMismatches(before: seq<IdentityCode>, e: Evidence, patch: PatchArtifact): seq<IdentityCode> {
    var content := before + Mismatch(PatchContentHash, Some(patch.patchSha256), e.contentHash);
    if e.job.None? then content + [MissingJob]
    else
      var job := e.job.value;
      content
      + Mismatch(AnalysisRun, Some(e.analysisRunId), Some(job.analysisRunId))
      + Mismatch(PatchRun, Some(job.analysisRunId), Some(patch.analysisRunId))
      + Mismatch(PatchBaseCommit, Some(job.candidateCommitSha), Some(patch.baseCommitSha))
      + AncestryMismatch(e)
  }

  function AncestryMismatch(e: Evidence): seq<IdentityCode> {
    if e.fixCommit.None? || e.ancestry.Descends? then []
    else if e.ancestry.DoesNotDescend? then [AncestryFailed]
    else [AncestryUnavailable]
  }

  function ResultMismatch(before: seq<IdentityCode>, e: Evidence, patch: PatchArtifact,
                          r: VerificationResult): seq<IdentityCode>
  {
    before
    + Mismatch(WorkloadPhase, Some(Fix), Some(r.phase))
    + Mismatch(WorkloadAnalysisRun, Some(patch.analysisRunId), Some(r.analysisRunId))
    + Mismatch(WorkloadPatchHash, e.contentHash, r.patchSha256)
    + Mismatch(WorkloadAttempt, e.attemptId, r.attemptId)
    + Mismatch(WorkloadFixCommit, e.fixCommit, Some(r.commitSha))
  }

  function ResultMismatches(before: seq<IdentityCode>, e: Evidence, patch: PatchArtifact,
                            results: seq<VerificationResult>): seq<IdentityCode>
  {
    if results == [] then before
    else ResultMismatch(ResultMismatches(before, e, patch, results[..|results| - 1]), e, patch, results[|results| - 1])
  }

  function PlanMismatches(before: seq<IdentityCode>, e: Evidence): seq<IdentityCode> {
    if e.results == [] || e.job.None? then before
    else
      var planned := e.job.value.plannedWorkloads;
      var required := set w | w in e.required;
      var compared := before + Mismatch(
        PlanWorkloads, if planned.Some? then Some(multiset(planned.value)) else None, Some(multiset(required)));
      if required != {} && !(required <= Observed(e.results)) then compared + [WorkloadResults] else compared
  }

  function IdentityFailures(e: Evidence): seq<IdentityCode> {
    var candidate := CandidateMismatches([], e);
    if e.patch.None? then candidate
    else PlanMismatches(ResultMismatches(PatchMismatches(candidate, e, e.patch.value), e, e.patch.value, e.results), e)
  }

  function DecisionOf(e: Evidence): Decision {
    Decision(LevelOf(e), ActionOf(LevelOf(e)), AllGates(e), IdentityFailures(e))
  }

  // ----- the level is a minimum of ceilings

  lemma {:induction false} LowestIsMinimum(gates: seq<Gate>)
    ensures forall g :: g in gates && !g.passed ==> Lowest(gates) <= g.ceiling
    ensures Lowest(gates) == 3 || exists g :: g in gates && !g.passed && g.ceiling == Lowest(gates)
  {
    if gates != [] {
      var n := |gates| - 1;
      LowestIsMinimum(gates[..n]);
      assert gates == gates[..n] + [gates[n]];
      if Lowest(gates) != 3 && Lowest(gates) == Lowest(gates[..n]) {
        var g :| g in gates[..n] && !g.passed && g.ceiling == Lowest(gates[..n]);
        assert g in gates;
      }
    }
  }

  lemma PolicyCapsLowest(gates: seq<Gate>, max: Level)
    ensures var level := Lowest(gates + [Gate(PolicyCeiling, Lowest(gates) <= max, max)]);
            && level == (if Lowest(gates) < max then Lowest(gates) else max)
            && (forall g :: g in gates && !g.passed ==> level <= g.ceiling)
            && (level == 3 || level == max || exists g :: g in gates && !g.passed && g.ceiling == level)
  {
    var all := gates + [Gate(PolicyCeiling, Lowest(gates) <= max, max)];
    assert all[..|all| - 1] == gates;
    LowestIsMinimum(gates);
  }

  /** The level is the least of three, the policy ceiling and the ceilings of the failed gates. */
  lemma LevelIsMinimumOfCeilings(e: Evidence)
    ensures LevelOf(e) <= PolicyMax(e)
    ensures forall g :: g in SelectingGates(e) && !g.passed ==> LevelOf(e) <= g.ceiling
    ensures LevelOf(e) == 3 || LevelOf(e) == PolicyMax(e)
            || exists g :: g in SelectingGates(e) && !g.passed && g.ceiling == LevelOf(e)
  {
    PolicyCapsLowest(SelectingGates(e), PolicyMax(e));
  }

  lemma {:induction false} NoResultMismatch(before: seq<IdentityCode>, e: Evidence, patch: PatchArtifact,
                                            results: seq<VerificationResult>)
    requires ResultMismatches(before, e, patch, results) == []
    ensures before == []
    ensures results != [] ==> e.attemptId.Some?
    ensures forall r :: r in results ==> r.attemptId == e.attemptId
  {
    if results != [] {
      var n := |results| - 1;
      NoResultMismatch(before, e, patch, results[..n]);
      assert results == results[..n] + [results[n]];
    }
  }

  /** What level three certifies about the verdicts and the patch. */
  ghost predicate Certified(e: Evidence) {
    && e.patch.Some? && e.job.Some? && e.fixCommit.Some? && e.results != []
    && e.contentHash == Some(e.patch.value.patchSha256)
    && e.patch.value.analysisRunId == e.analysisRunId == e.job.value.analysisRunId
    && e.patch.value.baseCommitSha == e.job.value.candidateCommitSha
    && e.ancestry.Descends?
    && e.candidate.Some? && e.candidate.value.phase == Candidate && e.candidate.value.status == Failed
    && e.candidate.value.analysisRunId == e.analysisRunId
    && e.candidate.value.commitSha == e.job.value.candidateCommitSha
    && (forall r :: r in e.results ==>
          && r.status == Passed && r.phase == Fix && r.analysisRunId == e.analysisRunId
          && r.commitSha == e.fixCommit.value && r.patchSha256 == e.contentHash
          && e.attemptId.Some? && r.attemptId == e.attemptId)
    && (forall w :: w in e.required ==> exists r :: r in e.results && r.workloadId == Some(w))
  }

  lemma {:induction false} FeatureCeilings(before: seq<Gate>, rule: FeatureRule, r: RemediationInputs,
                                           features: seq<RemediationFeature>)
    requires forall g :: g in before ==> g.ceiling < 3
    ensures forall g :: g in FeatureGates(before, rule, r, features) ==> g.ceiling < 3
  {
    if features != [] {
      FeatureCeilings(before, rule, r, features[..|features| - 1]);
    }
  }

  lemma CeilingsBelowThree(e: Evidence)
    ensures forall g :: g in SelectingGates(e) ==> g.ceiling < 3
  {
    hide EvidenceGates, SiteGates, PatchGates, VerificationGates, IdentityFailures;
    var assessed := EvidenceGates([], e);
    var sited := if e.remediation.Some? then SiteGates(assessed, e.remediation.value) else assessed;
    EvidenceCeilings(e);
    if e.remediation.Some? {
      SiteCeilings(assessed, e.remediation.value);
    }
    LaterCeilings(sited, e);
  }

  lemma EvidenceCeilings(e: Evidence)
    ensures forall g :: g in EvidenceGates([], e) ==> g.ceiling < 3
  {
    hide DebtRisk, ConfirmedRegression, Confidence, FullyObserved, RiskAtMost;
  }

  lemma SiteCeilings(before: seq<Gate>, r: RemediationInputs)
    requires forall g :: g in before ==> g.ceiling < 3
    ensures forall g :: g in SiteGates(before, r) ==> g.ceiling < 3
  {
    hide FeatureGates;
    FeatureCeilings(before, BoundedRule, r, BOUNDED_FEATURES);
    var bounded := FeatureGates(before, BoundedRule, r, BOUNDED_FEATURES);
    FeatureCeilings(bounded, MigrationRule, r, MIGRATION_FEATURES);
    var migrations := FeatureGates(bounded, MigrationRule, r, MIGRATION_FEATURES);
    FeatureCeilings(migrations + [ReversibleGate(r)], PrRule, r, PR_FEATURES);
  }

  lemma LaterCeilings(before: seq<Gate>, e: Evidence)
    requires forall g :: g in before ==> g.ceiling < 3
    ensures forall g :: g in VerificationGates(PatchGates(before, e), e) ==> g.ceiling < 3
  {
    hide Confidence, RiskAtMost, PatchMatches, AllPassed, FixIdentities, PatchBound;
    hide WorkloadsCovered, ConfirmedRegression;
  }

  /** Opening a pull request needs every gate, a policy that allows it, and agreeing identities. */
  lemma LevelThreeIffEveryGate(e: Evidence)
    ensures LevelOf(e) == 3 <==> PolicyMax(e) == 3 && forall g :: g in SelectingGates(e) ==> g.passed
  {
    LevelIsMinimumOfCeilings(e);
    CeilingsBelowThree(e);
  }

  lemma VerificationGatesPass(before: seq<Gate>, e: Evidence)
    requires forall g :: g in VerificationGates(before, e) ==> g.passed
    ensures AllPassed(e.results) && FixIdentities(e) && PatchBound(e) && WorkloadsCovered(e)
    ensures ConfirmedRegression(e)
  {
    var n, gates := |before|, VerificationGates(before, e);
    assert gates[n + 1] in gates && gates[n + 2] in gates && gates[n + 3] in gates;
    assert gates[n + 4] in gates && gates[n + 5] in gates;
  }

  lemma PatchAgrees(before: seq<IdentityCode>, e: Evidence, patch: PatchArtifact)
    requires PatchMismatches(before, e, patch) == []
    ensures e.job.Some? && e.contentHash == Some(patch.patchSha256)
    ensures e.analysisRunId == e.job.value.analysisRunId == patch.analysisRunId
    ensures patch.baseCommitSha == e.job.value.candidateCommitSha
    ensures e.fixCommit.Some? ==> e.ancestry.Descends?
  {
  }

  lemma PlanOnlyAppends(before: seq<IdentityCode>, e: Evidence)
    requires PlanMismatches(before, e) == []
    ensures before == []
  {
  }

  lemma NoMismatchMeans(e: Evidence, patch: PatchArtifact)
    requires e.patch == Some(patch) && IdentityFailures(e) == []
    ensures e.job.Some? && e.contentHash == Some(patch.patchSha256)
    ensures e.analysisRunId == e.job.value.analysisRunId == patch.analysisRunId
    ensures patch.baseCommitSha == e.job.value.candidateCommitSha
    ensures e.fixCommit.Some? ==> e.ancestry.Descends?
    ensures e.results != [] ==> e.attemptId.Some?
    ensures forall r :: r in e.results ==> r.attemptId == e.attemptId
  {
    var candidate := CandidateMismatches([], e);
    var before := PatchMismatches(candidate, e, patch);
    PlanOnlyAppends(ResultMismatches(before, e, patch, e.results), e);
    NoResultMismatch(before, e, patch, e.results);
    PatchAgrees(candidate, e, patch);
  }

  lemma LevelThreePasses(e: Evidence)
    requires LevelOf(e) == 3
    ensures PolicyMax(e) == 3
    ensures AllPassed(e.results) && FixIdentities(e) && PatchBound(e) && WorkloadsCovered(e)
    ensures ConfirmedRegression(e) && IdentityFailures(e) == []
  {
    LevelThreeIffEveryGate(e);
    var assessed := EvidenceGates([], e);
    var before := PatchGates(if e.remediation.Some? then SiteGates(assessed, e.remediation.value) else assessed, e);
    var identity := Gate(EvidenceIdentity, IdentityFailures(e) == [], 0);
    assert SelectingGates(e) == VerificationGates(before, e) + [identity];
    assert identity in SelectingGates(e);
    VerificationGatesPass(before, e);
  }

  /** Level three certifies every verdict it was shown, not only the final ones. */
  lemma LevelThreeCertifies(e: Evidence)
    requires LevelOf(e) == 3
    ensures PolicyMax(e) == 3 && Certified(e)
  {
    LevelThreePasses(e);
    NoMismatchMeans(e, e.patch.value);
    forall w | w in e.required ensures exists r :: r in e.results && r.workloadId == Some(w) {
      assert w in Observed(e.results);
    }
  }
}
