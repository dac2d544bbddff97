/** `decide_autonomy` as it runs: closures that lower a level and append gates and failures. */
module AutonomyDecision {
  import opened Common
  import opened Contracts
  import opened Scoring
  import opened Autonomy

  /** The variables the `gate` and `compare_identity` closures update. */
  class DecisionRun {
    var level: Level
    var gates: seq<Gate>
    var identityFailures: seq<IdentityCode>

    ghost predicate Valid()
      reads this
    {
      level == Lowest(gates)
    }

    constructor ()
      ensures Valid() && gates == [] && identityFailures == []
    {
      level, gates, identityFailures := 3, [], [];
    }

    method AddGate(code: GateCode, passed: bool, ceiling: Level)
      requires Valid()
      modifies this`level, this`gates
      ensures Valid() && gates == old(gates) + [Gate(code, passed, ceiling)]
    {
      gates := gates + [Gate(code, passed, ceiling)];
      assert gates[..|gates| - 1] == old(gates);
      if !passed && ceiling < level {
        level := ceiling;
      }
    }

    method CompareIdentity<T(==)>(code: IdentityCode, expected: Option<T>, actual: Option<T>)
      modifies this`identityFailures
      ensures identityFailures == old(identityFailures) + Mismatch(code, expected, actual)
    {
      if expected.None? || actual.None? || expected != actual {
        identityFailures := identityFailures + [code];
      }
    }

    method AddEvidenceGates(e: Evidence)
      requires Valid()
      modifies this`level, this`gates
      ensures Valid() && gates == EvidenceGates(old(gates), e)
    {
      var confidence := Confidence(e);
      AddGate(DebtPriority, DebtRisk(e.debt) >= 0.20 || ConfirmedRegression(e), 0);
      AddGate(RecommendConfidence, confidence >= 0.50, 0);
      AddGate(RemediationAssessed, e.remediation.Some?, 1);
      AddGate(CompleteContext, FullyObserved(e), 1);
      AddGate(PatchConfidence, confidence >= 0.75, 1);
      AddGate(PatchRisk, RiskAtMost(e, 0.40), 1);
    }

    method AddFeatureGates(rule: FeatureRule, r: RemediationInputs, features: seq<RemediationFeature>)
      requires Valid()
      modifies this`level, this`gates
      ensures Valid() && gates == FeatureGates(old(gates), rule, r, features)
    {
      for i := 0 to |features|
        invariant Valid() && gates == FeatureGates(old(gates), rule, r, features[..i])
      {
        var name := features[i];
        match rule {
          case BoundedRule => AddGate(Bounded(name), name in r && r[name] < 0.80, 1);
          case MigrationRule => AddGate(NoMigration(name), name in r && r[name] == 0.0, 1);
          case PrRule => AddGate(PrFeature(name), name in r && r[name] >= 0.80, 2);
        }
        assert features[..i + 1][..i] == features[..i];
      }
      assert features[..|features|] == features;
    }

    method AddPatchGates(e: Evidence)
      requires Valid()
      modifies this`level, this`gates
      ensures Valid() && gates == PatchGates(old(gates), e)
    {
      AddGate(PrConfidence, Confidence(e) >= 0.90, 2);
      AddGate(PrRisk, RiskAtMost(e, 0.20), 2);
      AddGate(PatchIdentity, PatchMatches(e), 2);
    }

    method AddVerificationGates(e: Evidence)
      requires Valid()
      modifies this`level, this`gates
      ensures Valid() && gates == VerificationGates(old(gates), e)
    {
      AddGate(VerificationPresent, e.results != [], 2);
      AddGate(VerificationPassed, e.results != [] && AllPassed(e.results), 2);
      AddGate(FixIdentity, FixIdentities(e), 2);
      AddGate(VerifiedPatchBinding, PatchBound(e), 2);
      AddGate(RequiredWorkloads, WorkloadsCovered(e), 2);
      AddGate(CandidateRegressionEvidence, ConfirmedRegression(e), 2);
    }

    method CompareCandidate(e: Evidence)
      modifies this`identityFailures
      ensures identityFailures == CandidateMismatches(old(identityFailures), e)
    {
      if e.candidate.Some? {
        var candidate := e.candidate.value;
        CompareIdentity(CandidateRegressionRun, Some(e.analysisRunId), Some(candidate.analysisRunId));
        if e.job.Some? {
          CompareIdentity(CandidateRegressionCommit, Some(e.job.value.candidateCommitSha), Some(candidate.commitSha));
        }
      }
    }

    method ComparePatch(e: Evidence, patch: PatchArtifact)
      modifies this`identityFailures
      ensures identityFailures == PatchMismatches(old(identityFailures), e, patch)
    {
      CompareIdentity(PatchContentHash, Some(patch.patchSha256), e.contentHash);
      if e.job.None? {
        CompareIdentity(MissingJob, Some(e.analysisRunId), None);
      } else {
        var job := e.job.value;
        CompareIdentity(AnalysisRun, Some(e.analysisRunId), Some(job.analysisRunId));
        CompareIdentity(PatchRun, Some(job.analysisRunId), Some(patch.analysisRunId));
        CompareIdentity(PatchBaseCommit, Some(job.candidateCommitSha), Some(patch.baseCommitSha));
        if e.fixCommit.Some? && !e.ancestry.Descends? {
          identityFailures := identityFailures
            + [if e.ancestry.DoesNotDescend? then AncestryFailed else AncestryUnavailable];
        }
      }
    }

    method CompareResults(e: Evidence, patch: PatchArtifact)
      modifies this`identityFailures
      ensures identityFailures == ResultMismatches(old(identityFailures), e, patch, e.results)
    {
      for i := 0 to |e.results|
        invariant identityFailures == ResultMismatches(old(identityFailures), e, patch, e.results[..i])
      {
        var result := e.results[i];
        CompareIdentity(WorkloadPhase, Some(Fix), Some(result.phase));
        CompareIdentity(WorkloadAnalysisRun, Some(patch.analysisRunId), Some(result.analysisRunId));
        CompareIdentity(WorkloadPatchHash, e.contentHash, result.patchSha256);
        CompareIdentity(WorkloadAttempt, e.attemptId, result.attemptId);
        CompareIdentity(WorkloadFixCommit, e.fixCommit, Some(result.commitSha));
        assert e.results[..i + 1][..i] == e.results[..i];
      }
      assert e.results[..|e.results|] == e.results;
    }

    method ComparePlan(e: Evidence)
      modifies this`identityFailures
      ensures identityFailures == PlanMismatches(old(identityFailures), e)
    {
      if e.results != [] && e.job.Some? {
        var planned := e.job.value.plannedWorkloads;
        var required := set w | w in e.required;
        CompareIdentity(PlanWorkloads, if planned.Some? then Some(multiset(planned.value)) else None,
                        Some(multiset(required)));
        if required != {} && !(required <= Observed(e.results)) {
          identityFailures := identityFailures + [WorkloadResults];
        }
      }
    }
  }

  /** `decide_autonomy`: run the gates in order, compare identities, then cap by policy. */
  method DecideAutonomy(e: Evidence) returns (decision: Decision)
    ensures decision == DecisionOf(e)
  {
    hide EvidenceGates, FeatureGates, PatchGates, VerificationGates, Lowest;
    hide CandidateMismatches, PatchMismatches, ResultMismatches, PlanMismatches;
    var run := new DecisionRun();
    run.AddEvidenceGates(e);
    if e.remediation.Some? {
      var r := e.remediation.value;
      run.AddFeatureGates(BoundedRule, r, BOUNDED_FEATURES);
      run.AddFeatureGates(MigrationRule, r, MIGRATION_FEATURES);
      run.AddGate(PatchReversible, Reversibility in r && r[Reversibility] >= 0.50, 1);
      run.AddFeatureGates(PrRule, r, PR_FEATURES);
    }
    run.AddPatchGates(e);
    run.AddVerificationGates(e);
    run.CompareCandidate(e);
    if e.patch.Some? {
      var patch := e.patch.value;
      run.ComparePatch(e, patch);
      run.CompareResults(e, patch);
      run.ComparePlan(e);
    }
    assert run.identityFailures == IdentityFailures(e);
    run.AddGate(EvidenceIdentity, run.identityFailures == [], 0);
    assert run.gates == SelectingGates(e);
    run.AddGate(PolicyCeiling, run.level <= PolicyMax(e), PolicyMax(e));
    decision := Decision(run.level, ActionOf(run.level), run.gates, run.identityFailures);
  }
}
