/** What every snapshot reachable from `start` satisfies, whatever the outside answers. */
module OrchestrationInvariant {
  import opened Common
  import opened Contracts
  import opened Orchestration
  import Autonomy
  import DiffGrammar
  import Validation = PatchValidation

  // ----- the invariant, piece by piece

  ghost predicate Identified(o: Setup, s: Snapshot) {
    s.analysisRunId == o.job.analysisRunId && s.inputsFingerprint == o.fingerprint && GoodLimits(s.limits)
  }

  /** Attempts stay within the limit and every finished attempt has exactly one numbered outcome. */
  ghost predicate Numbered(s: Snapshot) {
    && s.attemptCount <= s.limits.maxAttempts
    && (forall i :: 0 <= i < |s.outcomes| ==> s.outcomes[i].attempt == i + 1)
    && (match s.stage
        case Context => |s.outcomes| == s.attemptCount < s.limits.maxAttempts
        case Stopped => |s.outcomes| == s.attemptCount
        case Decide => |s.outcomes| == s.attemptCount - 1 || (|s.outcomes| == s.attemptCount && s.pending.Some?)
        case _ => |s.outcomes| == s.attemptCount - 1)
  }

  /** An accepted validation is about the current proposal. */
  ghost predicate AcceptedIsSound(o: Setup, s: Snapshot) {
    Accepted(s) ==>
      && HasProposal(s)
      && s.validation.value.reasons == [] && s.validation.value.files != []
      && s.proposal.value.patchArtifact.value.baseCommitSha == o.job.candidateCommitSha
      && o.sha(s.proposal.value.patchDiff.value) == Some(s.proposal.value.patchArtifact.value.patchSha256)
  }

  /** The accepted patch belongs to this run and is the last fresh one. */
  ghost predicate HandedOff(o: Setup, s: Snapshot) {
    && Accepted(s) && HasProposal(s)
    && s.proposal.value.patchArtifact.value.analysisRunId == s.analysisRunId
    && s.priorPatchHashes != []
    && s.priorPatchHashes[|s.priorPatchHashes| - 1] == s.proposal.value.patchArtifact.value.patchSha256
  }

  /** What is filled in at each stage. */
  ghost predicate Staged(o: Setup, s: Snapshot)
    requires Composed(o)
  {
    && (s.stage in {Diagnose, Patch, Validate, Verify} ==> s.bundle.Some?)
    && (s.stage in {Diagnose, Patch, Validate} ==>
          s.validation.None? && s.currentResults == [] && s.lastFailure.None?)
    && (s.stage in {Diagnose, Patch} ==> s.proposal.None?)
    && (s.stage == Validate ==> HasProposal(s))
    && (s.stage == Verify ==> HandedOff(o, s) && s.cursor < |Required(o)|)
    && (s.stage == Stopped <==> s.termination.Some?)
    && (s.stage == Stopped ==> s.decision.Some?)
  }

  /** Verdicts are recorded one per workload, in plan order, and only for a handed-off patch. */
  ghost predicate Recorded(o: Setup, s: Snapshot)
    requires Composed(o)
  {
    && s.cursor == |s.currentResults| <= |Required(o)|
    && |s.currentResults| <= |s.allResults|
    && s.allResults[|s.allResults| - |s.currentResults|..] == s.currentResults
    && (s.currentResults != [] ==> HandedOff(o, s))
    && (s.lastFailure.None? ==> forall i :: 0 <= i < s.cursor ==> Matches(o, s, i))
  }

  /** The `i`-th current verdict passed and answers the request for the `i`-th planned workload. */
  ghost predicate Matches(o: Setup, s: Snapshot, i: nat)
    requires Composed(o) && i < |s.currentResults| && i < |Required(o)|
  {
    && HasProposal(s)
    && s.currentResults[i].status == Passed
    && s.currentResults[i].phase == Fix
    && s.currentResults[i].analysisRunId == s.analysisRunId
    && s.currentResults[i].workloadId == Some(Required(o)[i])
    && s.currentResults[i].patchSha256 == Some(s.proposal.value.patchArtifact.value.patchSha256)
    && s.currentResults[i].attemptId == Some(CurrentAttempt(s))
  }

  predicate IsBudget(reason: Option<Reason>) {
    reason in {Some(TimeBudget), Some(TokenBudget), Some(CostBudget)}
  }

  predicate OverSpent(s: Snapshot) {
    s.tokensSpent > s.limits.maxTokens || s.costSpent > s.limits.maxCostUsd
  }

  /** An exceeded budget is always already pending, and a pending reason is what the run ends with. */
  ghost predicate Budgeted(s: Snapshot) {
    && (OverSpent(s) ==> IsBudget(s.pending))
    && (s.pending.Some? ==> s.stage in {Decide, Stopped})
    && (s.pending.Some? ==> s.pending.value in {TimeBudget, TokenBudget, CostBudget, DuplicatePatch})
    && (s.stage == Stopped && s.pending.Some? ==> s.termination == s.pending)
    && 0.0 <= s.costSpent
  }

  ghost predicate Inv(o: Setup, s: Snapshot)
    requires Composed(o)
  {
    && Identified(o, s) && Numbered(s) && AcceptedIsSound(o, s) && Staged(o, s) && Recorded(o, s)
    && Budgeted(s) && Distinct(s.priorPatchHashes)
  }

  // ----- it holds at the start and at every stage boundary

  lemma StartInv(o: Setup, limits: Limits, now: real)
    requires Composed(o) && GoodLimits(limits)
    ensures Inv(o, Start(o, limits, now))
  {
  }

  /** The two snapshots agree on everything said about the proposal and its verdicts. */
  ghost predicate SameEvidence(s: Snapshot, t: Snapshot) {
    && s.analysisRunId == t.analysisRunId && s.attemptCount == t.attemptCount
    && s.priorPatchHashes == t.priorPatchHashes
    && s.proposal == t.proposal && s.validation == t.validation && s.currentResults == t.currentResults
    && s.allResults == t.allResults && s.cursor == t.cursor && s.lastFailure == t.lastFailure
  }

  lemma EvidenceFrame(o: Setup, s: Snapshot, t: Snapshot)
    requires Composed(o) && SameEvidence(s, t)
    ensures AcceptedIsSound(o, s) <==> AcceptedIsSound(o, t)
    ensures HandedOff(o, s) <==> HandedOff(o, t)
    ensures Recorded(o, s) ==> Recorded(o, t)
  {
    hide Required;
    assert forall i :: 0 <= i < |s.currentResults| && i < |Required(o)| && Matches(o, s, i) ==> Matches(o, t, i);
  }

  lemma ElapseInv(o: Setup, s: Snapshot, now: real)
    requires Composed(o) && Inv(o, s)
    ensures Inv(o, Elapse(s, now))
  {
    hide AcceptedIsSound, HandedOff, Recorded, Required, Distinct;
    EvidenceFrame(o, s, Elapse(s, now));
  }

  lemma StopOverBudgetInv(o: Setup, s: Snapshot)
    requires Composed(o) && Inv(o, s) && s.stage !in {Decide, Stopped}
    ensures Inv(o, StopOverBudget(s))
  {
    hide AcceptedIsSound, HandedOff, Recorded, Required, Distinct;
    EvidenceFrame(o, s, StopOverBudget(s));
  }

  lemma StepContextInv(o: Setup, s: Snapshot, a: Answers)
    requires Composed(o) && Inv(o, s) && s.stage == Context && a.bundle.Some?
    ensures Inv(o, StepContext(s, a).value)
  {
  }

  /** Before a proposal is validated there is nothing to say about it or its verdicts. */
  lemma NothingRecorded(o: Setup, s: Snapshot)
    requires Composed(o) && s.validation.None? && s.currentResults == [] && s.cursor == 0
    ensures AcceptedIsSound(o, s) && Recorded(o, s)
  {
  }

  lemma StepDiagnoseInv(o: Setup, s: Snapshot, a: Answers)
    requires Composed(o) && Inv(o, s) && s.stage == Diagnose
    ensures StepDiagnose(s, a).Ok? && Inv(o, StepDiagnose(s, a).value)
  {
    NothingRecorded(o, StepDiagnose(s, a).value);
    hide Required, Distinct, AcceptedIsSound, Recorded, HandedOff, Max, HasProposal;
  }

  lemma StepPatchInv(o: Setup, s: Snapshot, a: Answers)
    requires Composed(o) && Inv(o, s) && s.stage == Stage.Patch
    ensures StepPatch(s, a).Ok? && Inv(o, StepPatch(s, a).value)
  {
    NothingRecorded(o, StepPatch(s, a).value);
    hide Required, Distinct, AcceptedIsSound, Recorded, HandedOff, Max, HasProposal;
  }

  lemma JudgeInv(o: Setup, s: Snapshot, v: Validation.ValidationResult)
    requires Composed(o) && Inv(o, s) && s.stage == Validate
    requires var p := s.proposal.value;
             v.valid ==> && v.reasons == [] && v.files != []
                         && p.patchArtifact.value.baseCommitSha == o.job.candidateCommitSha
                         && o.sha(p.patchDiff.value) == Some(p.patchArtifact.value.patchSha256)
    ensures Inv(o, Judge(s, s.proposal.value.patchArtifact.value, v, o.sha(s.proposal.value.patchDiff.value)))
  {
  }

  /** A file-system rule raises on a file of the proposed diff. */
  ghost predicate RulesRaise(s: Snapshot, a: Answers) {
    && HasProposal(s)
    && exists f :: f in DiffGrammar.Parsed(s.proposal.value.patchDiff.value).files && a.rules.file(f).None?
  }

  lemma StepValidateInv(o: Setup, s: Snapshot, a: Answers)
    requires Composed(o) && Inv(o, s) && s.stage == Validate
    ensures if RulesRaise(s, a) then StepValidate(o, s, a) == Err(RulesRaised)
            else StepValidate(o, s, a).Ok? && Inv(o, StepValidate(o, s, a).value)
  {
    var diff, artifact := s.proposal.value.patchDiff.value, s.proposal.value.patchArtifact.value;
    var v := Validation.Validation(diff, artifact, o.job.candidateCommitSha, o.sha, a.rules);
    Validation.RaisesIff(diff, artifact, o.job.candidateCommitSha, o.sha, a.rules);
    if v.Some? {
      if v.value.valid {
        Validation.AcceptedHandoff(diff, artifact, o.job.candidateCommitSha, o.sha, a.rules);
      }
      hide Validation.Validation;
      JudgeInv(o, s, v.value);
    }
  }

  lemma HandoffChecks(o: Setup, s: Snapshot)
    requires Composed(o) && Inv(o, s) && s.stage == Verify
    ensures s.cursor == |s.currentResults| < |Required(o)| && CheckIdentity(o, RequestAt(o, s))
  {
  }

  /** A reachable verification stage always hands the verifier an accepted patch. */
  lemma HandoffIsAccepted(o: Setup, s: Snapshot)
    requires Composed(o) && Inv(o, s) && s.stage == Verify
    ensures s.cursor == |s.currentResults| < |Required(o)| && CheckIdentity(o, RequestAt(o, s))
    ensures var r := RequestAt(o, s);
            && r.attemptCount >= 1 && r.attemptId == AttemptId(r.job.analysisRunId, r.attemptCount)
            && r.workloadId == Required(o)[s.cursor] && r.job == o.job
            && r.validation.valid && r.validation.reasons == [] && r.validation.files != []
            && r.artifact.analysisRunId == o.job.analysisRunId
            && r.artifact.baseCommitSha == o.job.candidateCommitSha
            && o.sha(r.patchDiff) == Some(r.artifact.patchSha256)
            && s.proposal.value.patchDiff == Some(r.patchDiff) && s.proposal.value.patchArtifact == Some(r.artifact)
  {
  }

  /** Recording a verdict keeps the verdicts in plan order, and a passing one matches its request. */
  lemma RecordRecorded(o: Setup, s: Snapshot, result: VerificationResult)
    requires Composed(o) && Inv(o, s) && s.stage == Verify
    ensures Recorded(o, Record(s, RequestAt(o, s), result))
  {
    hide AcceptedIsSound, Identified, Numbered, Budgeted, Distinct, Required;
    var t := Record(s, RequestAt(o, s), result);
    assert t.allResults[|t.allResults| - |t.currentResults|..] == t.currentResults;
    if t.lastFailure.None? {
      forall i | 0 <= i < t.cursor ensures Matches(o, t, i) {
        assert i < s.cursor ==> Matches(o, s, i);
      }
    }
  }

  lemma RecordInv(o: Setup, s: Snapshot, result: VerificationResult)
    requires Composed(o) && Inv(o, s) && s.stage == Verify
    ensures var t := Record(s, RequestAt(o, s), result);
            (t.cursor < |Required(o)| ==> Inv(o, t)) && Inv(o, t.(stage := Decide))
  {
    RecordRecorded(o, s, result);
    var t := Record(s, RequestAt(o, s), result);
    EvidenceFrame(o, t, t.(stage := Decide));
    hide Recorded, Required, Distinct, Echoes;
  }

  lemma StepVerifyInv(o: Setup, s: Snapshot, a: Answers)
    requires Composed(o) && Inv(o, s) && s.stage == Verify && BudgetReason(s).None?
    ensures StepVerify(o, s, a).Ok? && Inv(o, StepVerify(o, s, a).value)
  {
    HandoffChecks(o, s);
    match a.verdict {
      case Raised(name) => RaisedInv(o, s, name, a.later);
      case Answered(result) => AnsweredInv(o, s, result, a.later);
    }
    hide Inv, CheckIdentity, Record, StopOverBudget, Elapse, BudgetReason, Required;
  }

  lemma RaisedInv(o: Setup, s: Snapshot, name: string, later: real)
    requires Composed(o) && Inv(o, s) && s.stage == Verify
    ensures Inv(o, Elapse(s.(lastFailure := Some(VerifierError(name)), stage := Decide), later))
  {
    hide Required, Distinct;
    ElapseInv(o, s.(lastFailure := Some(VerifierError(name)), stage := Decide), later);
  }

  lemma AnsweredInv(o: Setup, s: Snapshot, result: VerificationResult, later: real)
    requires Composed(o) && Inv(o, s) && s.stage == Verify
    ensures var t := Elapse(Record(s, RequestAt(o, s), result), later);
            Inv(o, if BudgetReason(t).Some? then StopOverBudget(t)
                   else if t.cursor >= |Required(o)| then t.(stage := Decide) else t)
  {
    RecordInv(o, s, result);
    var t := Record(s, RequestAt(o, s), result);
    ElapseInv(o, t.(stage := Decide), later);
    PendingInv(o, Elapse(t.(stage := Decide), later));
    if t.cursor < |Required(o)| {
      ElapseInv(o, t, later);
    }
    hide Inv, Required, RequestAt, Record;
    var u := Elapse(t, later);
    assert Elapse(t.(stage := Decide), later) == u.(stage := Decide);
    assert BudgetReason(u).Some? ==> StopOverBudget(u.(stage := Decide)) == StopOverBudget(u);
  }

  lemma PendingInv(o: Setup, s: Snapshot)
    requires Composed(o) && Inv(o, s) && s.stage == Decide
    ensures Inv(o, StopOverBudget(s))
  {
    hide AcceptedIsSound, HandedOff, Recorded, Required, Distinct;
    EvidenceFrame(o, s, StopOverBudget(s));
  }

  lemma ConcludeInv(o: Setup, s: Snapshot, attempt: Autonomy.Decision, final: Autonomy.Decision)
    requires Composed(o) && Inv(o, s) && s.stage == Decide
    ensures Inv(o, Conclude(s, |Required(o)|, attempt, final))
  {
    hide AcceptedIsSound, HandedOff, Recorded, Required, Distinct, AllPassed, OutcomeOf;
    EvidenceFrame(o, s, Conclude(s, |Required(o)|, attempt, final));
  }

  lemma EncodingSucceeds(o: Setup, s: Snapshot)
    requires AcceptedIsSound(o, s)
    ensures !EncodingFails(o, s)
  {
  }

  lemma StepDecideInv(o: Setup, s: Snapshot, a: Answers)
    requires Composed(o) && Inv(o, s) && s.stage == Decide
    ensures StepDecide(o, s, a).Ok? && Inv(o, StepDecide(o, s, a).value)
  {
    EncodingSucceeds(o, s);
    var attempt := DecisionOn(o, s, s.currentResults, a.attemptAncestry);
    var final := DecisionOn(o, s, s.allResults, a.finalAncestry);
    assert StepDecide(o, s, a) == Ok(Conclude(s, |Required(o)|, attempt, final));
    ConcludeInv(o, s, attempt, final);
  }

  /** What makes `step` raise: building the context bundle, or a file-system rule on a proposed file. */
  ghost function OutsideError(s: Snapshot, a: Answers): Option<StepError> {
    if s.stage == Stopped || !Runs(s, a.now) then None
    else if s.stage == Context && a.bundle.None? then Some(ContextRaised)
    else if s.stage == Validate && RulesRaise(s, a) then Some(RulesRaised)
    else None
  }

  /** From a reachable snapshot `step` raises exactly when something outside does, and what it returns is again
      reachable-shaped: no assertion fails and no verifier input is refused. */
  lemma StepInv(o: Setup, s: Snapshot, a: Answers)
    requires Composed(o) && Inv(o, s)
    ensures match OutsideError(s, a)
            case Some(error) => Step(o, s, a) == Err(error)
            case None => Step(o, s, a).Ok? && Inv(o, Step(o, s, a).value)
  {
    var t := Elapse(s, a.now);
    ElapseInv(o, s, a.now);
    if s.stage != Stopped {
      if !Runs(s, a.now) {
        StopOverBudgetInv(o, t);
      } else {
        match s.stage {
          case Context => if a.bundle.Some? { StepContextInv(o, t, a); }
          case Diagnose => StepDiagnoseInv(o, t, a);
          case Patch => StepPatchInv(o, t, a);
          case Validate => StepValidateInv(o, t, a);
          case Verify => StepVerifyInv(o, t, a);
          case Decide => StepDecideInv(o, t, a);
        }
      }
    }
  }
}
