/** What each autonomy level requires, as conditions on the evidence (`lou/decision/autonomy.py`). */
module AutonomyLevels {
  import opened Common
  import opened Contracts
  import opened Scoring
  import opened Autonomy
  import AutonomyMonotone

  /** Every gate that would hold the level below `k` passed. */
  predicate PassBelow(gates: seq<Gate>, k: Level) {
    forall g :: g in gates && g.ceiling < k ==> g.passed
  }

  lemma PassBelowAppend(a: seq<Gate>, b: seq<Gate>, k: Level)
    ensures PassBelow(a + b, k) <==> PassBelow(a, k) && PassBelow(b, k)
  {
    assert forall g :: g in a + b <==> g in a || g in b;
  }

  lemma LevelIsAtLeast(e: Evidence, k: Level)
    ensures LevelOf(e) >= k <==> PolicyMax(e) >= k && PassBelow(SelectingGates(e), k)
  {
    LevelIsMinimumOfCeilings(e);
    hide SelectingGates, LevelOf;
  }

  // ----- the gates group by group

  /** A verdict on this run's candidate failed. */
  predicate Regressed(e: Evidence) {
    && e.candidate.Some? && e.candidate.value.phase == Candidate && e.candidate.value.status == Failed
    && e.candidate.value.analysisRunId == e.analysisRunId
    && (e.job.Some? ==> e.candidate.value.commitSha == e.job.value.candidateCommitSha)
  }

  /** Both scores can be relied on this much. */
  predicate Reliable(e: Evidence, least: real) {
    && e.remediation.Some?
    && DebtConfidence(e.debt) >= least && RemediationConfidence(e.remediation.value) >= least
  }

  /** The debt is worth acting on and the evidence good enough to say so. */
  predicate WorthIt(e: Evidence) {
    (DebtRisk(e.debt) >= 0.20 || Regressed(e)) && Reliable(e, 0.50)
  }

  /** Everything was observed, with confidence, and the risk is moderate. */
  predicate WellObserved(e: Evidence) {
    && e.remediation.Some?
    && (forall f: DebtFeature :: f in e.debt) && (forall f: RemediationFeature :: f in e.remediation.value)
    && e.remediation.value[ContextCompleteness] == 1.0
    && Reliable(e, 0.75) && RemediationRisk(e.remediation.value) <= 0.40
  }

  lemma ReliableIff(e: Evidence)
    ensures forall least: real :: least > 0.0 ==> (Confidence(e) >= least <==> Reliable(e, least))
  {
    hide DebtConfidence, RemediationConfidence;
  }

  lemma EvidencePass(e: Evidence, k: Level)
    ensures PassBelow(EvidenceGates([], e), k) <==> (k >= 1 ==> WorthIt(e)) && (k >= 2 ==> WellObserved(e))
  {
    var gates := EvidenceGates([], e);
    assert ConfirmedRegression(e) == Regressed(e);
    ReliableIff(e);
    hide DebtRisk, ConfirmedRegression, Regressed, Confidence, Reliable, RemediationRisk;
    assert forall g :: g in gates <==> g == gates[0] || g == gates[1] || g == gates[2] || g == gates[3]
                                       || g == gates[4] || g == gates[5];
  }

  /** The site is small, free of migrations and reversible enough for a patch without human planning. */
  predicate Plannable(r: RemediationInputs) {
    && BlastRadius in r && r[BlastRadius] < 0.80 && Criticality in r && r[Criticality] < 0.80
    && PatchSize in r && r[PatchSize] < 0.80
    && SchemaMigrationRisk in r && r[SchemaMigrationRisk] == 0.0
    && DataMigrationRisk in r && r[DataMigrationRisk] == 0.0
    && Reversibility in r && r[Reversibility] >= 0.50
  }

  /** The site is covered, reversible and verified enough for a pull request. */
  predicate Protected(r: RemediationInputs) {
    && Coverage in r && r[Coverage] >= 0.80 && Reversibility in r && r[Reversibility] >= 0.80
    && VerificationStrength in r && r[VerificationStrength] >= 0.80
  }

  lemma {:induction false} FeaturesPass(rule: FeatureRule, r: RemediationInputs, features: seq<RemediationFeature>,
                                        k: Level)
    ensures PassBelow(FeatureGates([], rule, r, features), k) <==>
              forall f :: f in features ==> PassBelow([FeatureGate(rule, r, f)], k)
  {
    if features != [] {
      var n := |features| - 1;
      FeaturesPass(rule, r, features[..n], k);
      PassBelowAppend(FeatureGates([], rule, r, features[..n]), [FeatureGate(rule, r, features[n])], k);
      assert features == features[..n] + [features[n]];
    }
  }

  lemma SiteGatesSplit(r: RemediationInputs)
    ensures SiteGates([], r)
            == FeatureGates([], BoundedRule, r, BOUNDED_FEATURES)
               + FeatureGates([], MigrationRule, r, MIGRATION_FEATURES)
               + [ReversibleGate(r)] + FeatureGates([], PrRule, r, PR_FEATURES)
  {
    hide FeatureGates;
    var x := FeatureGates([], BoundedRule, r, BOUNDED_FEATURES);
    AutonomyMonotone.FeatureGatesAppend(x, MigrationRule, r, MIGRATION_FEATURES);
    AutonomyMonotone.FeatureGatesAppend(FeatureGates(x, MigrationRule, r, MIGRATION_FEATURES) + [ReversibleGate(r)],
                                        PrRule, r, PR_FEATURES);
  }

  lemma ListedFeatures()
    ensures forall f :: f in BOUNDED_FEATURES <==> f == BlastRadius || f == Criticality || f == PatchSize
    ensures forall f :: f in MIGRATION_FEATURES <==> f == SchemaMigrationRisk || f == DataMigrationRisk
    ensures forall f :: f in PR_FEATURES <==> f == Coverage || f == Reversibility || f == VerificationStrength
    ensures BlastRadius in BOUNDED_FEATURES && Criticality in BOUNDED_FEATURES && PatchSize in BOUNDED_FEATURES
    ensures SchemaMigrationRisk in MIGRATION_FEATURES && DataMigrationRisk in MIGRATION_FEATURES
    ensures Coverage in PR_FEATURES && Reversibility in PR_FEATURES && VerificationStrength in PR_FEATURES
  {
    var b, m, p := BOUNDED_FEATURES, MIGRATION_FEATURES, PR_FEATURES;
    assert b[0] in b && b[1] in b && b[2] in b && m[0] in m && m[1] in m && p[0] in p && p[1] in p && p[2] in p;
  }

  lemma OnePass(g: Gate, k: Level)
    ensures PassBelow([g], k) <==> (g.ceiling < k ==> g.passed)
  {
    assert g in [g];
  }

  lemma RulePass(rule: FeatureRule, r: RemediationInputs, features: seq<RemediationFeature>, k: Level)
    ensures PassBelow(FeatureGates([], rule, r, features), k) <==>
              forall f :: f in features && FeatureGate(rule, r, f).ceiling < k ==> FeatureGate(rule, r, f).passed
  {
    FeaturesPass(rule, r, features, k);
    forall f ensures PassBelow([FeatureGate(rule, r, f)], k) <==>
                       (FeatureGate(rule, r, f).ceiling < k ==> FeatureGate(rule, r, f).passed)
    {
      OnePass(FeatureGate(rule, r, f), k);
    }
    hide FeatureGates, FeatureGate, PassBelow;
  }

  lemma SitePass(r: RemediationInputs, k: Level)
    ensures PassBelow(SiteGates([], r), k) <==> (k >= 2 ==> Plannable(r)) && (k >= 3 ==> Protected(r))
  {
    SiteGatesSplit(r);
    var bounded := FeatureGates([], BoundedRule, r, BOUNDED_FEATURES);
    var migrations := FeatureGates([], MigrationRule, r, MIGRATION_FEATURES);
    var protected := FeatureGates([], PrRule, r, PR_FEATURES);
    PassBelowAppend(bounded, migrations, k);
    PassBelowAppend(bounded + migrations, [ReversibleGate(r)], k);
    PassBelowAppend(bounded + migrations + [ReversibleGate(r)], protected, k);
    RulePass(BoundedRule, r, BOUNDED_FEATURES, k);
    RulePass(MigrationRule, r, MIGRATION_FEATURES, k);
    RulePass(PrRule, r, PR_FEATURES, k);
    OnePass(ReversibleGate(r), k);
    ListedFeatures();
    hide FeatureGates, SiteGates, PassBelow;
  }

  /** The confidence is high, the risk low, and an independent verification of exactly this patch, by every required
      workload, passed on the fix commit and answers a confirmed regression. */
  ghost predicate Proven(e: Evidence) {
    && Reliable(e, 0.90) && RemediationRisk(e.remediation.value) <= 0.20
    && e.patch.Some? && e.patch.value.analysisRunId == e.analysisRunId && e.patch.value.patchSha256 != ""
    && e.patch.value.filesChanged > 0 && e.patch.value.linesAdded + e.patch.value.linesDeleted > 0
    && e.fixCommit.Some? && e.fixCommit.value != "" && e.results != []
    && (forall r :: r in e.results ==>
          && r.status == Passed && r.phase == Fix && r.analysisRunId == e.analysisRunId
          && r.commitSha == e.fixCommit.value && r.patchSha256 == Some(e.patch.value.patchSha256))
    && e.required != []
    && (forall w :: w in e.required ==> w != "" && exists r :: r in e.results && r.workloadId == Some(w))
    && Regressed(e)
  }

  lemma ProvenIff(e: Evidence)
    ensures Proven(e) <==>
              && Confidence(e) >= 0.90 && RiskAtMost(e, 0.20) && PatchMatches(e)
              && e.results != [] && AllPassed(e.results)
              && FixIdentities(e) && PatchBound(e) && WorkloadsCovered(e) && ConfirmedRegression(e)
  {
    ReliableIff(e);
    assert ConfirmedRegression(e) == Regressed(e);
    hide Confidence, Reliable, RemediationRisk, ConfirmedRegression, Regressed;
    forall w ensures w in Observed(e.results) <==> exists r :: r in e.results && r.workloadId == Some(w) {
    }
    hide Observed;
  }

  lemma ProofPass(e: Evidence, k: Level)
    ensures PassBelow(PatchGates([], e) + VerificationGates([], e), k) <==> (k >= 3 ==> Proven(e))
  {
    var gates := PatchGates([], e) + VerificationGates([], e);
    ProvenIff(e);
    hide Confidence, RiskAtMost, PatchMatches, FixIdentities, PatchBound, WorkloadsCovered, ConfirmedRegression;
    hide Proven, AllPassed;
    assert forall g :: g in gates <==> g == gates[0] || g == gates[1] || g == gates[2] || g == gates[3]
                                       || g == gates[4] || g == gates[5] || g == gates[6] || g == gates[7]
                                       || g == gates[8];
  }

  // ----- the levels

  predicate PolicyAllows(e: Evidence, k: Level) {
    e.policyMax.Some? && e.policyMax.value >= k
  }

  /** A recommendation, a patch and a pull request each need exactly this of the evidence and the policy. */
  lemma LevelsRequire(e: Evidence)
    ensures LevelOf(e) >= 1 <==> PolicyAllows(e, 1) && IdentityFailures(e) == [] && WorthIt(e)
    ensures LevelOf(e) >= 2 <==>
              && PolicyAllows(e, 2) && IdentityFailures(e) == [] && WorthIt(e) && WellObserved(e)
              && Plannable(e.remediation.value)
    ensures LevelOf(e) >= 3 <==>
              && PolicyAllows(e, 3) && IdentityFailures(e) == [] && WorthIt(e) && WellObserved(e)
              && Plannable(e.remediation.value) && Protected(e.remediation.value) && Proven(e)
  {
    LevelRequires(e, 1);
    LevelRequires(e, 2);
    LevelRequires(e, 3);
    hide LevelOf, IdentityFailures, WorthIt, Plannable, Protected, Proven;
  }

  lemma LevelRequires(e: Evidence, k: Level)
    requires k >= 1
    ensures LevelOf(e) >= k <==>
              && PolicyAllows(e, k) && IdentityFailures(e) == [] && WorthIt(e)
              && (k >= 2 ==> WellObserved(e))
              && (e.remediation.Some? ==> (k >= 2 ==> Plannable(e.remediation.value))
                                          && (k >= 3 ==> Protected(e.remediation.value)))
              && (k >= 3 ==> Proven(e))
  {
    LevelIsAtLeast(e, k);
    AutonomyMonotone.SelectingGatesSplit(e);
    var evidence, sited := EvidenceGates([], e), AutonomyMonotone.SitedGates(e);
    var proof := PatchGates([], e) + VerificationGates([], e);
    PassBelowAppend(evidence, sited, k);
    PassBelowAppend(evidence + sited, AutonomyMonotone.ClosingGates(e), k);
    PassBelowAppend(proof, [AutonomyMonotone.IdentityGate(e)], k);
    EvidencePass(e, k);
    if e.remediation.Some? {
      SitePass(e.remediation.value, k);
    }
    ProofPass(e, k);
    hide SelectingGates, EvidenceGates, PatchGates, VerificationGates, LevelOf, SiteGates, IdentityFailures, WorthIt;
    hide WellObserved, Plannable, Protected, Proven;
  }

  /** What a pull request needs of the patch, the site and the candidate. */
  lemma PullRequestNeeds(e: Evidence)
    requires LevelOf(e) >= 3
    ensures e.remediation.Some? && Plannable(e.remediation.value) && Protected(e.remediation.value) && Regressed(e)
    ensures e.patch.Some? && e.patch.value.linesAdded + e.patch.value.linesDeleted > 0
  {
    LevelsRequire(e);
    hide LevelOf, IdentityFailures, WorthIt, Plannable, Protected, Regressed;
  }

  /** The action is the level's. */
  lemma ActionSaysLevel(e: Evidence)
    ensures var d := DecisionOf(e);
            && (d.action == Report <==> d.level == 0) && (d.action == Recommend <==> d.level == 1)
            && (d.action == GeneratePatch <==> d.level == 2) && (d.action == OpenPr <==> d.level == 3)
  {
    hide LevelOf, AllGates, IdentityFailures;
  }

  // ----- which identity failures are recorded

  lemma ObservedIff(e: Evidence)
    ensures (set w | w in e.required) <= Observed(e.results) <==>
              forall w :: w in e.required ==> exists r :: r in e.results && r.workloadId == Some(w)
  {
    var required := set w | w in e.required;
    forall w ensures w in Observed(e.results) <==> exists r :: r in e.results && r.workloadId == Some(w) {
    }
    forall w ensures w in required <==> w in e.required {
    }
    hide Observed;
    if required <= Observed(e.results) {
      forall w | w in e.required ensures exists r :: r in e.results && r.workloadId == Some(w) {
        assert w in required && w in Observed(e.results);
      }
    }
  }

  /** The verdict fails the comparison this code stands for. */
  predicate VerdictFails(e: Evidence, patch: PatchArtifact, r: VerificationResult, code: IdentityCode) {
    match code
    case WorkloadPhase => r.phase != Fix
    case WorkloadAnalysisRun => r.analysisRunId != patch.analysisRunId
    case WorkloadPatchHash => e.contentHash == None || r.patchSha256 != e.contentHash
    case WorkloadAttempt => e.attemptId == None || r.attemptId != e.attemptId
    case WorkloadFixCommit => e.fixCommit != Some(r.commitSha)
    case _ => false
  }

  predicate PatchFails(e: Evidence, patch: PatchArtifact, code: IdentityCode) {
    match code
    case PatchContentHash => e.contentHash != Some(patch.patchSha256)
    case MissingJob => e.job == None
    case AnalysisRun => e.job.Some? && e.job.value.analysisRunId != e.analysisRunId
    case PatchRun => e.job.Some? && patch.analysisRunId != e.job.value.analysisRunId
    case PatchBaseCommit => e.job.Some? && patch.baseCommitSha != e.job.value.candidateCommitSha
    case AncestryFailed => e.job.Some? && e.fixCommit.Some? && e.ancestry == DoesNotDescend
    case AncestryUnavailable => e.job.Some? && e.fixCommit.Some? && e.ancestry == Unavailable
    case _ => false
  }

  ghost predicate PlanFails(e: Evidence, code: IdentityCode) {
    && e.results != [] && e.job.Some?
    && match code
       case PlanWorkloads =>
         e.job.value.plannedWorkloads == None
         || multiset(e.job.value.plannedWorkloads.value) != multiset(set w | w in e.required)
       case WorkloadResults => exists w :: w in e.required && !HasVerdict(e.results, w)
       case _ => false
  }

  predicate HasVerdict(results: seq<VerificationResult>, w: string) {
    exists r :: r in results && r.workloadId == Some(w)
  }

  predicate CandidateFails(e: Evidence, code: IdentityCode) {
    && e.candidate.Some?
    && match code
       case CandidateRegressionRun => e.candidate.value.analysisRunId != e.analysisRunId
       case CandidateRegressionCommit =>
         e.job.Some? && e.candidate.value.commitSha != e.job.value.candidateCommitSha
       case _ => false
  }

  /** Something that was compared is missing or differs. */
  ghost predicate Fails(e: Evidence, code: IdentityCode) {
    || CandidateFails(e, code)
    || (e.patch.Some? && (PatchFails(e, e.patch.value, code) || PlanFails(e, code)
                          || exists r :: r in e.results && VerdictFails(e, e.patch.value, r, code)))
  }

  lemma ResultCodes(before: seq<IdentityCode>, e: Evidence, patch: PatchArtifact, r: VerificationResult)
    ensures forall c :: c in ResultMismatch(before, e, patch, r) <==> c in before || VerdictFails(e, patch, r, c)
  {
  }

  lemma {:induction false} ResultsCodes(before: seq<IdentityCode>, e: Evidence, patch: PatchArtifact,
                                        results: seq<VerificationResult>)
    ensures forall c :: c in ResultMismatches(before, e, patch, results) <==>
                          c in before || exists r :: r in results && VerdictFails(e, patch, r, c)
  {
    if results != [] {
      hide VerdictFails, ResultMismatch;
      var n := |results| - 1;
      ResultsCodes(before, e, patch, results[..n]);
      ResultCodes(ResultMismatches(before, e, patch, results[..n]), e, patch, results[n]);
      assert results == results[..n] + [results[n]];
    }
  }

  lemma PatchCodes(before: seq<IdentityCode>, e: Evidence, patch: PatchArtifact)
    ensures forall c :: c in PatchMismatches(before, e, patch) <==> c in before || PatchFails(e, patch, c)
  {
  }

  lemma PlanCodes(before: seq<IdentityCode>, e: Evidence)
    ensures forall c :: c in PlanMismatches(before, e) <==> c in before || PlanFails(e, c)
  {
    hide Observed;
    ObservedIff(e);
  }

  lemma CandidateCodes(e: Evidence)
    ensures forall c :: c in CandidateMismatches([], e) <==> CandidateFails(e, c)
  {
  }

  /** A failure is recorded under a code if and only if what the code stands for is missing or differs. */
  lemma IdentityFailuresSay(e: Evidence)
    ensures forall c :: c in IdentityFailures(e) <==> Fails(e, c)
  {
    hide CandidateMismatches, PatchMismatches, ResultMismatches, PlanMismatches, CandidateFails, PatchFails, PlanFails;
    hide VerdictFails;
    CandidateCodes(e);
    if e.patch.Some? {
      var patch, candidate := e.patch.value, CandidateMismatches([], e);
      PatchCodes(candidate, e, patch);
      ResultsCodes(PatchMismatches(candidate, e, patch), e, patch, e.results);
      PlanCodes(ResultMismatches(PatchMismatches(candidate, e, patch), e, patch, e.results), e);
    }
  }

  /** Everything but the candidate, the fix commit and its ancestry is about one run, patch, attempt and plan. */
  ghost predicate Coherent(e: Evidence, patch: PatchArtifact) {
    && e.patch == Some(patch) && e.job.Some? && e.contentHash == Some(patch.patchSha256)
    && e.analysisRunId == e.job.value.analysisRunId == patch.analysisRunId
    && patch.baseCommitSha == e.job.value.candidateCommitSha
    && e.attemptId.Some? && e.results != []
    && (forall r :: r in e.results ==>
          r.phase == Fix && r.analysisRunId == patch.analysisRunId && r.attemptId == e.attemptId
          && r.patchSha256 == e.contentHash)
    && e.job.value.plannedWorkloads.Some?
    && multiset(e.job.value.plannedWorkloads.value) == multiset(set w | w in e.required)
    && forall w :: w in e.required ==> HasVerdict(e.results, w)
  }

  /** Coherent evidence agrees if and only if the verdicts name the fix commit, it descends from the candidate, and the
      candidate's verdict is about this run and commit. */
  lemma CoherentAgreesIff(e: Evidence, patch: PatchArtifact)
    requires Coherent(e, patch) && e.candidate.Some?
    ensures IdentityFailures(e) == [] <==>
              && (forall r :: r in e.results ==> e.fixCommit == Some(r.commitSha)) && e.ancestry == Descends
              && e.candidate.value.analysisRunId == e.analysisRunId
              && e.candidate.value.commitSha == e.job.value.candidateCommitSha
  {
    hide IdentityFailures, HasVerdict;
    var failures := IdentityFailures(e);
    IdentityFailuresSay(e);
    if failures != [] {
      assert failures[0] in failures;
    } else {
      assert e.results[0] in e.results;
      assert !Fails(e, CandidateRegressionRun) && !Fails(e, CandidateRegressionCommit);
      assert !Fails(e, AncestryFailed) && !Fails(e, AncestryUnavailable) && !Fails(e, WorkloadFixCommit);
      forall r | r in e.results ensures e.fixCommit == Some(r.commitSha) {
        assert !VerdictFails(e, patch, r, WorkloadFixCommit);
      }
    }
  }
}
