/** The orchestrator as it runs: a copied state whose fields each stage assigns, and the loop over stages. */
module OrchestrationMachine {
  import opened Common
  import opened Contracts
  import opened Orchestration
  import opened OrchestrationInvariant
  import opened OrchestrationRuns
  import Autonomy
  import AutonomyDecision
  import Validation = PatchValidation

  /** `OrchestrationState`. */
  class OrchestrationState {
    var analysisRunId: string
    var inputsFingerprint: Hash
    var limits: Limits
    var startedAt: real
    var stage: Stage
    var attemptCount: nat
    var elapsed: real
    var tokensSpent: nat
    var costSpent: real
    var priorPatchHashes: seq<Hash>
    var bundle: Option<Bundle>
    var diagnosis: Option<Response>
    var proposal: Option<Response>
    var validation: Option<Validation.ValidationResult>
    var currentResults: seq<VerificationResult>
    var allResults: seq<VerificationResult>
    var cursor: nat
    var lastFailure: Option<Failure>
    var outcomes: seq<AttemptOutcome>
    var pending: Option<Reason>
    var termination: Option<Reason>
    var decision: Option<Autonomy.Decision>

    function View(): Snapshot
      reads this
    {
      Snapshot(analysisRunId, inputsFingerprint, limits, startedAt, stage, attemptCount, elapsed, tokensSpent,
               costSpent, priorPatchHashes, bundle, diagnosis, proposal, validation, currentResults, allResults,
               cursor, lastFailure, outcomes, pending, termination, decision)
    }

    /** A snapshot as an object: `start`, `model_copy(deep=True)` and `model_validate` all make one. */
    constructor (s: Snapshot)
      ensures View() == s
    {
      analysisRunId, inputsFingerprint, limits, startedAt :=
          s.analysisRunId, s.inputsFingerprint, s.limits, s.startedAt;
      stage, attemptCount, elapsed := s.stage, s.attemptCount, s.elapsed;
      tokensSpent, costSpent, priorPatchHashes := s.tokensSpent, s.costSpent, s.priorPatchHashes;
      bundle, diagnosis, proposal, validation := s.bundle, s.diagnosis, s.proposal, s.validation;
      currentResults, allResults, cursor := s.currentResults, s.allResults, s.cursor;
      lastFailure, outcomes := s.lastFailure, s.outcomes;
      pending, termination, decision := s.pending, s.termination, s.decision;
    }

    method AddElapsed(now: real)
      modifies this`elapsed
      ensures View() == Elapse(old(View()), now)
    {
      elapsed := Max(elapsed, now - startedAt);
    }

    method CheckBudget()
      modifies this`pending, this`stage
      ensures View() == StopOverBudget(old(View()))
    {
      var reason := BudgetReason(View());
      if reason.Some? {
        pending := reason;
        stage := Decide;
      }
    }

    method Spend(response: Response)
      modifies this`tokensSpent, this`costSpent
      ensures View() == old(View()).(tokensSpent := old(tokensSpent) + response.tokensUsed,
                                     costSpent := old(costSpent) + response.costUsd)
    {
      tokensSpent := tokensSpent + response.tokensUsed;
      costSpent := costSpent + response.costUsd;
    }

    /** `_account`. */
    method AccountFor(response: Response, later: real)
      modifies this
      ensures View() == Account(old(View()), response, later)
    {
      Spend(response);
      AddElapsed(later);
      CheckBudget();
    }

    method FailAttempt(failure: Failure)
      modifies this`lastFailure, this`stage
      ensures View() == old(View()).(lastFailure := Some(failure), stage := Decide)
    {
      lastFailure := Some(failure);
      stage := Decide;
    }

    method ForgetProposal()
      modifies this`diagnosis, this`proposal, this`validation
      ensures View() == old(View()).(diagnosis := None, proposal := None, validation := None)
    {
      diagnosis := None;
      proposal := None;
      validation := None;
    }

    method ForgetVerdicts()
      modifies this`currentResults, this`cursor, this`lastFailure
      ensures View() == old(View()).(currentResults := [], cursor := 0, lastFailure := None)
    {
      currentResults := [];
      cursor := 0;
      lastFailure := None;
    }

    method CountAttempt(context: Option<Bundle>)
      modifies this`attemptCount, this`bundle
      ensures View() == old(View()).(attemptCount := old(attemptCount) + 1, bundle := context)
    {
      attemptCount := attemptCount + 1;
      bundle := context;
    }

    method BeginAttempt(a: Answers) returns (error: Option<StepError>)
      modifies this
      ensures error.None? ==> StepContext(old(View()), a) == Ok(View())
      ensures error.Some? ==> StepContext(old(View()), a) == Err(error.value)
    {
      if a.bundle.None? {
        return Some(ContextRaised);
      }
      CountAttempt(a.bundle);
      ForgetProposal();
      ForgetVerdicts();
      stage := Diagnose;
      error := None;
    }

    method CallDiagnosis(a: Answers) returns (error: Option<StepError>)
      modifies this
      ensures if error.None? then StepDiagnose(old(View()), a) == Ok(View())
              else StepDiagnose(old(View()), a) == Err(error.value)
    {
      if bundle.None? {
        return Some(AssertionFailed);
      }
      error := None;
      diagnosis := Some(a.response);
      AccountFor(a.response, a.later);
      if !a.response.status.Succeeded? {
        FailAttempt(ProviderFailed(DiagnoseCall, a.response.status));
      } else if stage != Decide {
        stage := Stage.Patch;
      }
    }

    method CallPatch(a: Answers) returns (error: Option<StepError>)
      modifies this
      ensures if error.None? then StepPatch(old(View()), a) == Ok(View())
              else StepPatch(old(View()), a) == Err(error.value)
    {
      if bundle.None? {
        return Some(AssertionFailed);
      }
      error := None;
      proposal := Some(a.response);
      AccountFor(a.response, a.later);
      if !a.response.status.Succeeded? {
        FailAttempt(ProviderFailed(PatchCall, a.response.status));
      } else if a.response.patchDiff.None? || a.response.patchArtifact.None? {
        FailAttempt(PatchMissing);
      } else if stage != Decide {
        stage := Validate;
      }
    }

    method RememberPatch(hash: Hash)
      modifies this`priorPatchHashes
      ensures View() == old(View()).(priorPatchHashes := old(priorPatchHashes) + [hash])
    {
      priorPatchHashes := priorPatchHashes + [hash];
    }

    /** What follows `validate_patch` in the `validate` stage. */
    method JudgeProposal(artifact: PatchArtifact, v: Validation.ValidationResult, hash: Option<Hash>)
      modifies this
      ensures View() == Judge(old(View()), artifact, v, hash)
    {
      validation := Some(v);
      if hash.Some? && hash.value in priorPatchHashes {
        pending := Some(DuplicatePatch);
        FailAttempt(DuplicateProposal);
        return;
      }
      if hash.Some? {
        RememberPatch(hash.value);
      }
      if artifact.analysisRunId != analysisRunId {
        FailAttempt(PatchRunMismatch);
      } else if !v.valid {
        FailAttempt(PatchRejected);
      } else {
        stage := Verify;
      }
    }

    method ValidateProposal(o: Setup, a: Answers) returns (error: Option<StepError>)
      modifies this
      ensures var r := StepValidate(o, old(View()), a);
              if error.None? then r == Ok(View()) else r == Err(error.value)
    {
      if proposal.None? || proposal.value.patchDiff.None? || proposal.value.patchArtifact.None? {
        return Some(AssertionFailed);
      }
      hide Validation.Validation;
      var diff, artifact := proposal.value.patchDiff.value, proposal.value.patchArtifact.value;
      var v := Validation.ValidatePatch(diff, artifact, o.job.candidateCommitSha, o.sha, a.rules);
      if v.None? {
        return Some(RulesRaised);
      }
      JudgeProposal(artifact, v.value, o.sha(diff));
      error := None;
    }

    method AppendVerdict(result: VerificationResult)
      modifies this`currentResults, this`allResults, this`cursor
      ensures View() == old(View()).(currentResults := old(currentResults) + [result],
                                     allResults := old(allResults) + [result], cursor := old(cursor) + 1)
    {
      currentResults := currentResults + [result];
      allResults := allResults + [result];
      cursor := cursor + 1;
    }

    method RecordVerdict(request: Request, result: VerificationResult)
      requires request.attemptId.analysisRunId == analysisRunId
      modifies this
      ensures View() == Record(old(View()), request, result)
    {
      AppendVerdict(result);
      if result.analysisRunId != analysisRunId || result.phase != Fix
         || result.workloadId != Some(request.workloadId)
         || result.patchSha256 != Some(request.artifact.patchSha256)
         || result.attemptId != Some(request.attemptId) {
        lastFailure := Some(VerifierResultMismatch);
      } else if result.status != Passed && lastFailure.None? {
        lastFailure := Some(VerificationNotPassed(result.status));
      }
    }

    method VerifyNext(o: Setup, a: Answers) returns (error: Option<StepError>)
      requires Composed(o)
      modifies this
      ensures var r := StepVerify(o, old(View()), a);
              if error.None? then r == Ok(View()) else r == Err(error.value)
    {
      var required := Required(o);
      error := None;
      if cursor >= |required| {
        stage := Decide;
        return;
      }
      if !HasProposal(View()) || validation.None? {
        return Some(AssertionFailed);
      }
      var request := Request(proposal.value.patchDiff.value, proposal.value.patchArtifact.value, validation.value,
                             o.job, required[cursor], AttemptId(analysisRunId, attemptCount), attemptCount);
      if !CheckIdentity(o, request) {
        return Some(InvalidVerifierInput);
      }
      match a.verdict {
        case Raised(name) =>
          lastFailure := Some(VerifierError(name));
          stage := Decide;
          AddElapsed(a.later);
        case Answered(result) =>
          RecordVerdict(request, result);
          AddElapsed(a.later);
          if BudgetReason(View()).Some? {
            CheckBudget();
          } else if cursor >= |required| {
            stage := Decide;
          }
      }
    }

    method AppendOutcome()
      modifies this`outcomes
      ensures View() == LogAttempt(old(View()))
    {
      if attemptCount > |outcomes| {
        var hash := if proposal.Some? && proposal.value.patchArtifact.Some?
                    then Some(proposal.value.patchArtifact.value.patchSha256) else None;
        outcomes := outcomes + [AttemptOutcome(attemptCount, OutcomeOf(View()), hash)];
      }
    }

    /** `_finish`. */
    method FinishWith(reason: Reason, final: Autonomy.Decision)
      modifies this`termination, this`stage, this`decision
      ensures View() == Finish(old(View()), reason, final)
    {
      termination := Some(reason);
      stage := Stopped;
      decision := Some(final);
    }

    /** The `decide` stage once both decisions are known. */
    method Settle(required: nat, attempt: Autonomy.Decision, final: Autonomy.Decision)
      modifies this
      ensures View() == Conclude(old(View()), required, attempt, final)
    {
      var allPassed := AllPassed(View(), required);
      decision := Some(attempt);
      AppendOutcome();
      if pending.Some? {
        FinishWith(pending.value, final);
      } else if allPassed && attempt.level >= 2 {
        FinishWith(Verified, final);
      } else if attempt.action != Autonomy.GeneratePatch {
        FinishWith(DecisionDeclined, final);
      } else if attemptCount >= limits.maxAttempts {
        FinishWith(MaxAttempts, final);
      } else {
        stage := Context;
      }
    }

    method DecideAttempt(o: Setup, a: Answers) returns (error: Option<StepError>)
      requires Composed(o)
      modifies this
      ensures var r := StepDecide(o, old(View()), a);
              if error.None? then r == Ok(View()) else r == Err(error.value)
    {
      if EncodingFails(o, View()) {
        return Some(EncodingRaised);
      }
      hide Autonomy.DecisionOf;
      var attempt := AutonomyDecision.DecideAutonomy(DecisionEvidence(o, View(), currentResults, a.attemptAncestry));
      var final := AutonomyDecision.DecideAutonomy(DecisionEvidence(o, View(), allResults, a.finalAncestry));
      Settle(|Required(o)|, attempt, final);
      error := None;
    }
  }

  /** `RemediationOrchestrator`, once its constructor has accepted the trusted plan. */
  class RemediationOrchestrator {
    const o: Setup

    constructor (o: Setup)
      requires Composed(o)
      ensures this.o == o
    {
      this.o := o;
    }

    /** `start`. */
    method Begin(limits: Limits, now: real) returns (state: OrchestrationState)
      ensures fresh(state) && state.View() == Start(o, limits, now)
    {
      state := new OrchestrationState(Start(o, limits, now));
    }

    method RunStage(state: OrchestrationState, a: Answers) returns (error: Option<StepError>)
      requires Composed(o)
      modifies state
      ensures var r := StepStage(o, old(state.View()), a);
              if error.None? then r == Ok(state.View()) else r == Err(error.value)
    {
      hide StepValidate, StepVerify, StepDecide, StepDiagnose, StepPatch, StepContext;
      match state.stage {
        case Context => error := state.BeginAttempt(a);
        case Diagnose => error := state.CallDiagnosis(a);
        case Patch => error := state.CallPatch(a);
        case Validate => error := state.ValidateProposal(o, a);
        case Verify => error := state.VerifyNext(o, a);
        case Decide => error := state.DecideAttempt(o, a);
        case Stopped => error := None;
      }
    }

    /** `step`: a fresh snapshot one boundary further; the previous one is left alone. */
    method Advance(previous: OrchestrationState, a: Answers) returns (r: Result<OrchestrationState, StepError>)
      requires Composed(o)
      ensures r.Ok? ==> fresh(r.value) && Step(o, previous.View(), a) == Ok(r.value.View())
      ensures r.Err? ==> Step(o, previous.View(), a) == Err(r.error)
    {
      hide StepStage;
      if previous.analysisRunId != o.job.analysisRunId || previous.inputsFingerprint != o.fingerprint {
        return Err(InputsDiffer);
      }
      var state := new OrchestrationState(previous.View());
      if state.stage == Stopped {
        return Ok(state);
      }
      state.AddElapsed(a.now);
      if state.stage != Decide && BudgetReason(state.View()).Some? {
        state.CheckBudget();
        return Ok(state);
      }
      var error := RunStage(state, a);
      r := if error.Some? then Err(error.value) else Ok(state);
    }

    /** `run`: continue from a saved boundary until the run stops or a step raises. */
    method Run(saved: OrchestrationState, script: nat -> Answers)
      returns (r: Result<OrchestrationState, StepError>, ghost path: seq<Snapshot>, ghost answers: seq<Answers>)
      requires Composed(o) && Inv(o, saved.View())
      ensures IsPath(o, path, answers) && path[0] == saved.View()
      ensures |answers| <= StepsLeft(o, saved.View()) && forall i :: 0 <= i < |answers| ==> answers[i] == script(i)
      ensures r.Ok? ==> r.value.View() == path[|answers|] && r.value.stage == Stopped
      ensures r.Err? ==> OutsideError(path[|answers|], script(|answers|)) == Some(r.error)
    {
      hide Step;
      var current := saved;
      var k := 0;
      path, answers := [saved.View()], [];
      while current.stage != Stopped
        invariant IsPath(o, path, answers) && path[0] == saved.View() && path[|answers|] == current.View()
        invariant k == |answers| && Inv(o, current.View()) && forall i :: 0 <= i < k ==> answers[i] == script(i)
        invariant StepsLeft(o, current.View()) + k <= StepsLeft(o, saved.View())
        decreases StepsLeft(o, current.View())
      {
        StepInv(o, current.View(), script(k));
        StepsLeftPositive(o, current.View());
        var next := Advance(current, script(k));
        if next.Err? {
          return Err(next.error), path, answers;
        }
        StepDecreases(o, current.View(), script(k));
        path, answers := path + [next.value.View()], answers + [script(k)];
        current := next.value;
        k := k + 1;
      }
      StepsLeftPositive(o, current.View());
      r := Ok(current);
    }
  }
}
