/** Where each stage of `step` leads and why a run ends, read off the snapshot and the answers
    (`lou/agents/orchestration.py`). */
module OrchestrationOutcomes {
  import opened Common
  import opened Contracts
  import opened Orchestration
  import opened OrchestrationInvariant
  import opened OrchestrationRuns
  import Autonomy
  import Scoring
  import Validation = PatchValidation

  // ----- budgets

  predicate TimeIsUp(s: Snapshot, now: real) {
    s.elapsed > s.limits.maxWallSeconds || now - s.startedAt > s.limits.maxWallSeconds
  }

  /** The reason a budget check leaves pending: time before tokens before cost, and none within all three. */
  predicate PendingFor(pending: Option<Reason>, timeUp: bool, tokensUp: bool, costUp: bool) {
    && (pending == Some(TimeBudget) <==> timeUp)
    && (pending == Some(TokenBudget) <==> !timeUp && tokensUp)
    && (pending == Some(CostBudget) <==> !timeUp && !tokensUp && costUp)
    && (pending == None <==> !timeUp && !tokensUp && !costUp)
  }

  /** A reachable snapshot before `decide` is within its token and cost budgets, so only the clock can end the
      stage before it begins. */
  lemma OnlyTimeStopsEntry(o: Setup, s: Snapshot, a: Answers)
    requires Composed(o) && Inv(o, s) && s.stage !in {Decide, Stopped}
    ensures Runs(s, a.now) <==> !TimeIsUp(s, a.now)
    ensures TimeIsUp(s, a.now) ==>
              Step(o, s, a).Ok? && Step(o, s, a).value.stage == Decide
              && Step(o, s, a).value.pending == Some(TimeBudget)
  {
    hide StepStage;
    AtStage(o, s);
    hide Inv;
  }

  lemma AtStage(o: Setup, s: Snapshot)
    requires Composed(o) && Inv(o, s) && s.stage !in {Decide, Stopped}
    ensures s.analysisRunId == o.job.analysisRunId && s.inputsFingerprint == o.fingerprint
    ensures s.pending == None && s.termination == None && !OverSpent(s)
    ensures s.stage in {Diagnose, Stage.Patch, Validate, Verify} ==> s.bundle.Some?
    ensures s.stage in {Diagnose, Stage.Patch, Validate} ==> s.lastFailure == None
    ensures s.stage in {Validate, Verify} ==> HasProposal(s)
    ensures s.stage == Verify ==> s.validation.Some?
  {
  }

  /** A new attempt begins with a new bundle and nothing of the attempt before. */
  lemma ContextLeadsOn(o: Setup, s: Snapshot, a: Answers)
    requires Composed(o) && Inv(o, s) && s.stage == Context && !TimeIsUp(s, a.now) && a.bundle.Some?
    ensures Step(o, s, a).Ok?
    ensures var t := Step(o, s, a).value;
            && t.stage == Diagnose && t.attemptCount == s.attemptCount + 1 && t.bundle == a.bundle
            && t.diagnosis == None && t.proposal == None && t.validation == None && t.lastFailure == None
            && t.currentResults == [] && t.cursor == 0 && t.allResults == s.allResults && t.outcomes == s.outcomes
            && t.priorPatchHashes == s.priorPatchHashes
  {
    AtStage(o, s);
    OnlyTimeStopsEntry(o, s, a);
    hide Inv, Runs, StepDiagnose, StepPatch, StepValidate, StepVerify, StepDecide;
  }

  /** A snapshot of another run or of other inputs is refused, whatever it holds, and no other is for that reason. */
  lemma ForeignIsRefused(o: Setup, s: Snapshot, a: Answers)
    requires Composed(o)
    ensures Step(o, s, a) == Err(InputsDiffer) <==>
              s.analysisRunId != o.job.analysisRunId || s.inputsFingerprint != o.fingerprint
  {
    hide Required, DecisionOn, CheckIdentity, RequestAt, Validation.Validation;
  }

  // ----- provider calls

  /** What one provider call leads to: the next stage, the pending reason, the failure and the stored response. */
  ghost predicate Called(s: Snapshot, t: Snapshot, response: Response, later: real, operation: Operation, next: Stage,
                         missing: bool)
  {
    var timeUp, tokensUp := TimeIsUp(s, later), s.tokensSpent + response.tokensUsed > s.limits.maxTokens;
    var costUp := s.costSpent + response.costUsd > s.limits.maxCostUsd;
    && PendingFor(t.pending, timeUp, tokensUp, costUp)
    && t.tokensSpent == s.tokensSpent + response.tokensUsed && t.costSpent == s.costSpent + response.costUsd
    && t.stage == (if response.status != Succeeded || missing || timeUp || tokensUp || costUp then Decide else next)
    && t.lastFailure == (if response.status != Succeeded then Some(ProviderFailed(operation, response.status))
                         else if missing then Some(PatchMissing) else None)
  }

  /** Accounting for a response from the snapshot it was called at. */
  lemma Accounts(s: Snapshot, u: Snapshot, now: real, response: Response, later: real)
    requires u == Elapse(s, now).(diagnosis := u.diagnosis, proposal := u.proposal)
    requires s.pending == None && !TimeIsUp(s, now)
    ensures var t := Account(u, response, later);
            var timeUp, tokensUp := TimeIsUp(s, later), s.tokensSpent + response.tokensUsed > s.limits.maxTokens;
            var costUp := s.costSpent + response.costUsd > s.limits.maxCostUsd;
            && PendingFor(t.pending, timeUp, tokensUp, costUp)
            && t.stage == (if timeUp || tokensUp || costUp then Decide else s.stage)
            && t.tokensSpent == s.tokensSpent + response.tokensUsed && t.costSpent == s.costSpent + response.costUsd
            && t.lastFailure == s.lastFailure && t.proposal == u.proposal && t.diagnosis == u.diagnosis
  {
  }

  lemma DiagnoseLeadsOn(o: Setup, s: Snapshot, a: Answers)
    requires Composed(o) && Inv(o, s) && s.stage == Diagnose && !TimeIsUp(s, a.now)
    ensures Step(o, s, a).Ok? && Step(o, s, a).value.diagnosis == Some(a.response)
    ensures Called(s, Step(o, s, a).value, a.response, a.later, DiagnoseCall, Stage.Patch, false)
  {
    AtStage(o, s);
    OnlyTimeStopsEntry(o, s, a);
    Accounts(s, Elapse(s, a.now).(diagnosis := Some(a.response)), a.now, a.response, a.later);
    hide Inv, Runs, StepPatch, StepValidate, StepVerify, StepDecide, Account, TimeIsUp, PendingFor;
  }

  lemma PatchLeadsOn(o: Setup, s: Snapshot, a: Answers)
    requires Composed(o) && Inv(o, s) && s.stage == Stage.Patch && !TimeIsUp(s, a.now)
    ensures Step(o, s, a).Ok? && Step(o, s, a).value.proposal == Some(a.response)
    ensures Called(s, Step(o, s, a).value, a.response, a.later, PatchCall, Validate,
                   a.response.patchDiff == None || a.response.patchArtifact == None)
  {
    AtStage(o, s);
    OnlyTimeStopsEntry(o, s, a);
    Accounts(s, Elapse(s, a.now).(proposal := Some(a.response)), a.now, a.response, a.later);
    hide Inv, Runs, StepDiagnose, StepValidate, StepVerify, StepDecide, Account, TimeIsUp, PendingFor;
  }

  // ----- validation

  /** What validating the proposal leads to: a repeated hash ends the run, a foreign or rejected patch the attempt,
      and everything else is handed to the verifier. */
  lemma ValidateLeadsOn(o: Setup, s: Snapshot, a: Answers)
    requires Composed(o) && Inv(o, s) && s.stage == Validate && !TimeIsUp(s, a.now) && !RulesRaise(s, a)
    ensures Step(o, s, a).Ok?
    ensures var t := Step(o, s, a).value;
            var diff, artifact := s.proposal.value.patchDiff.value, s.proposal.value.patchArtifact.value;
            var hash := o.sha(diff);
            var repeated := hash.Some? && hash.value in s.priorPatchHashes;
            var foreign := artifact.analysisRunId != o.job.analysisRunId;
            var accepted := Validation.Accepts(diff, artifact, o.job.candidateCommitSha, o.sha, a.rules);
            && t.stage == (if !repeated && !foreign && accepted then Verify else Decide)
            && t.pending == (if repeated then Some(DuplicatePatch) else None)
            && t.lastFailure == (if repeated then Some(DuplicateProposal)
                                 else if foreign then Some(PatchRunMismatch)
                                 else if !accepted then Some(PatchRejected) else None)
            && t.priorPatchHashes == (if hash.None? || repeated then s.priorPatchHashes
                                      else s.priorPatchHashes + [hash.value])
            && t.validation == Validation.Validation(diff, artifact, o.job.candidateCommitSha, o.sha, a.rules)
  {
    StepInv(o, s, a);
    AtStage(o, s);
    OnlyTimeStopsEntry(o, s, a);
    hide Inv, Runs, StepVerify, StepDecide, Validation.Validation;
  }

  // ----- verification

  /** The verdict answers the `i`-th planned workload for this run, patch and attempt. */
  predicate IsAnswer(o: Setup, s: Snapshot, r: VerificationResult)
    requires Composed(o) && HasProposal(s) && s.cursor < |Required(o)|
  {
    && r.analysisRunId == o.job.analysisRunId && r.phase == Fix && r.workloadId == Some(Required(o)[s.cursor])
    && r.patchSha256 == Some(s.proposal.value.patchArtifact.value.patchSha256)
    && r.attemptId == Some(AttemptId(o.job.analysisRunId, s.attemptCount))
  }

  /** What one verifier call leads to: the verdict is recorded and, when it is a foreign one or the first that did
      not pass, becomes the failure; the next workload follows unless it was the last or a budget is exceeded. */
  lemma VerifyLeadsOn(o: Setup, s: Snapshot, a: Answers)
    requires Composed(o) && Inv(o, s) && s.stage == Verify && !TimeIsUp(s, a.now)
    ensures HasProposal(s) && s.cursor < |Required(o)| && Step(o, s, a).Ok?
    ensures a.verdict.Raised? ==>
              var t := Step(o, s, a).value;
              && t.stage == Decide && t.lastFailure == Some(VerifierError(a.verdict.name)) && t.pending == None
              && t.currentResults == s.currentResults && t.allResults == s.allResults && t.cursor == s.cursor
    ensures a.verdict.Answered? ==>
              var t, r := Step(o, s, a).value, a.verdict.result;
              && t.currentResults == s.currentResults + [r] && t.allResults == s.allResults + [r]
              && t.cursor == s.cursor + 1
              && t.stage == (if t.cursor < |Required(o)| && !TimeIsUp(s, a.later) then Verify else Decide)
              && t.pending == (if TimeIsUp(s, a.later) then Some(TimeBudget) else None)
              && t.lastFailure == (if !IsAnswer(o, s, r) then Some(VerifierResultMismatch)
                                   else if r.status != Passed && s.lastFailure.None?
                                   then Some(VerificationNotPassed(r.status)) else s.lastFailure)
  {
    hide Inv, Runs, StepVerify, StepContext, StepDiagnose, StepPatch, StepValidate, StepDecide, CheckIdentity, Required;
    HandoffChecks(o, s);
    AtStage(o, s);
    OnlyTimeStopsEntry(o, s, a);
    ElapseInv(o, s, a.now);
    VerifyStage(o, s, Elapse(s, a.now), a);
  }

  lemma VerifyStage(o: Setup, s: Snapshot, u: Snapshot, a: Answers)
    requires Composed(o) && Inv(o, s) && s.stage == Verify && !TimeIsUp(s, a.now)
    requires u == Elapse(s, a.now) && Inv(o, u)
    ensures HasProposal(s) && s.cursor < |Required(o)| && StepVerify(o, u, a).Ok?
    ensures a.verdict.Raised? ==>
              var t := StepVerify(o, u, a).value;
              && t.stage == Decide && t.lastFailure == Some(VerifierError(a.verdict.name)) && t.pending == None
              && t.currentResults == s.currentResults && t.allResults == s.allResults && t.cursor == s.cursor
    ensures a.verdict.Answered? ==>
              var t, r := StepVerify(o, u, a).value, a.verdict.result;
              && t.currentResults == s.currentResults + [r] && t.allResults == s.allResults + [r]
              && t.cursor == s.cursor + 1
              && t.stage == (if t.cursor < |Required(o)| && !TimeIsUp(s, a.later) then Verify else Decide)
              && t.pending == (if TimeIsUp(s, a.later) then Some(TimeBudget) else None)
              && t.lastFailure == (if !IsAnswer(o, s, r) then Some(VerifierResultMismatch)
                                   else if r.status != Passed && s.lastFailure.None?
                                   then Some(VerificationNotPassed(r.status)) else s.lastFailure)
  {
    hide Inv, CheckIdentity, Required;
    HandoffChecks(o, s);
    AtStage(o, s);
    HandoffChecks(o, u);
  }

  // ----- the decision

  /** What ends the run after an attempt, or that another one follows. */
  ghost predicate EndsAs(termination: Option<Reason>, pending: Option<Reason>, done: bool, again: bool, left: bool) {
    && (termination == None <==> pending == None && !done && again && left)
    && (termination == Some(Verified) <==> pending == None && done)
    && (termination == Some(DecisionDeclined) <==> pending == None && !done && !again)
    && (termination == Some(MaxAttempts) <==> pending == None && !done && again && !left)
    && (pending.Some? ==> termination == pending)
  }

  /** What the log says of an attempt: its failure, else the reason the run ends, else that verification passed. */
  ghost predicate Logged(s: Snapshot, entry: AttemptOutcome) {
    && entry.attempt == s.attemptCount
    && (forall f :: entry.outcome == FailedWith(f) <==> s.lastFailure == Some(f))
    && (forall r :: entry.outcome == EndedBy(r) <==> s.lastFailure == None && s.pending == Some(r))
    && (entry.outcome == VerificationPassed <==> s.lastFailure == None && s.pending == None)
    && (forall hash :: entry.patchSha256 == Some(hash) <==>
          s.proposal.Some? && s.proposal.value.patchArtifact.Some?
          && s.proposal.value.patchArtifact.value.patchSha256 == hash)
  }

  /** `t` is how the attempt in `s` with `n` planned workloads ends. */
  ghost predicate Concludes(s: Snapshot, t: Snapshot, n: nat, attempt: Autonomy.Decision, final: Autonomy.Decision) {
    var passed := s.lastFailure == None && |s.currentResults| == n
                  && forall r :: r in s.currentResults ==> r.status == Passed;
    && EndsAs(t.termination, s.pending, passed && attempt.level >= 2, attempt.action == Autonomy.GeneratePatch,
              s.attemptCount < s.limits.maxAttempts)
    && t == s.(elapsed := t.elapsed, outcomes := t.outcomes, stage := t.stage, termination := t.termination,
               decision := t.decision)
    && t.stage == (if t.termination == None then Context else Stopped)
    && t.decision == Some(if t.termination == None then attempt else final)
    && (s.attemptCount <= |s.outcomes| ==> t.outcomes == s.outcomes)
    && (s.attemptCount > |s.outcomes| ==>
          |t.outcomes| == |s.outcomes| + 1 && s.outcomes <= t.outcomes && Logged(s, t.outcomes[|s.outcomes|]))
  }

  lemma ConcludeLeadsOn(s: Snapshot, n: nat, attempt: Autonomy.Decision, final: Autonomy.Decision)
    requires s.termination == None && s.stage == Decide
    requires s.pending.Some? ==> s.pending.value in {TimeBudget, TokenBudget, CostBudget, DuplicatePatch}
    ensures Concludes(s, Conclude(s, n, attempt, final), n, attempt, final)
  {
  }

  lemma ConcludesSinceElapse(s: Snapshot, now: real, t: Snapshot, n: nat, attempt: Autonomy.Decision,
                             final: Autonomy.Decision)
    requires Concludes(Elapse(s, now), t, n, attempt, final)
    ensures Concludes(s, t, n, attempt, final)
  {
    hide EndsAs, Max;
  }

  lemma DecisionSinceElapse(o: Setup, s: Snapshot, now: real, results: seq<VerificationResult>,
                            ancestry: Autonomy.Ancestry)
    requires Composed(o)
    ensures DecisionOn(o, Elapse(s, now), results, ancestry) == DecisionOn(o, s, results, ancestry)
  {
    assert DecisionEvidence(o, Elapse(s, now), results, ancestry) == DecisionEvidence(o, s, results, ancestry);
    hide DecisionEvidence, Autonomy.DecisionOf;
  }

  lemma StepAtDecide(o: Setup, s: Snapshot, a: Answers)
    requires Composed(o) && Inv(o, s) && s.stage == Decide
    ensures s.termination == None
    ensures s.pending.Some? ==> s.pending.value in {TimeBudget, TokenBudget, CostBudget, DuplicatePatch}
    ensures Step(o, s, a) == Ok(Conclude(Elapse(s, a.now), |Required(o)|,
                                         DecisionOn(o, s, s.currentResults, a.attemptAncestry),
                                         DecisionOn(o, s, s.allResults, a.finalAncestry)))
  {
    StepInv(o, s, a);
    DecisionSinceElapse(o, s, a.now, s.currentResults, a.attemptAncestry);
    DecisionSinceElapse(o, s, a.now, s.allResults, a.finalAncestry);
    hide AcceptedIsSound, HandedOff, Recorded, Required, Distinct, Conclude, DecisionOn;
  }

  /** How an attempt ends. It is retried exactly when nothing is pending, attempts are left, the decision on its
      verdicts is to generate a patch, and it did not succeed at level two or more; it ends the run as verified,
      declined or out of attempts, or with its pending reason, each under its own condition. */
  lemma DecideLeadsOn(o: Setup, s: Snapshot, a: Answers)
    requires Composed(o) && Inv(o, s) && s.stage == Decide
    ensures Step(o, s, a).Ok?
    ensures Concludes(s, Step(o, s, a).value, |Required(o)|, DecisionOn(o, s, s.currentResults, a.attemptAncestry),
                      DecisionOn(o, s, s.allResults, a.finalAncestry))
  {
    hide Step, Inv, Conclude, Concludes, Required, DecisionOn;
    StepAtDecide(o, s, a);
    var n, u := |Required(o)|, Elapse(s, a.now);
    var attempt := DecisionOn(o, s, s.currentResults, a.attemptAncestry);
    var final := DecisionOn(o, s, s.allResults, a.finalAncestry);
    ConcludeLeadsOn(u, n, attempt, final);
    ConcludesSinceElapse(s, a.now, Conclude(u, n, attempt, final), n, attempt, final);
  }

  // ----- whole runs

  /** Whoever comes to decide with nothing failed and nothing pending has a verdict for every planned workload. */
  ghost predicate Complete(o: Setup, s: Snapshot)
    requires Composed(o)
  {
    s.stage == Decide && s.lastFailure == None && s.pending == None ==> |s.currentResults| == |Required(o)|
  }

  lemma CursorCounts(o: Setup, s: Snapshot)
    requires Composed(o) && Inv(o, s)
    ensures s.cursor == |s.currentResults| <= |Required(o)|
  {
  }

  lemma StepIsComplete(o: Setup, s: Snapshot, a: Answers)
    requires Composed(o) && Inv(o, s) && s.stage != Stopped && Step(o, s, a).Ok?
    ensures Complete(o, Step(o, s, a).value)
  {
    hide Step, Inv, Required;
    StepInv(o, s, a);
    if s.stage == Decide {
      DecideLeadsOn(o, s, a);
    } else {
      OnlyTimeStopsEntry(o, s, a);
      if !TimeIsUp(s, a.now) {
        match s.stage {
          case Context => StepMoves(o, s, a);
          case Diagnose => DiagnoseLeadsOn(o, s, a);
          case Patch => PatchLeadsOn(o, s, a);
          case Validate => ValidateLeadsOn(o, s, a);
          case Verify =>
            VerifyLeadsOn(o, s, a);
            CursorCounts(o, s);
        }
      }
    }
  }

  /** An attempt logged as `verification_passed` has a passing verdict per planned workload, in plan order. */
  lemma PassedMeansVerified(o: Setup, path: seq<Snapshot>, answers: seq<Answers>, i: nat)
    requires IsRun(o, path, answers) && i < |path|
    requires path[i].stage == Decide && path[i].lastFailure == None && path[i].pending == None
    ensures var s := path[i];
            |s.currentResults| == |Required(o)| && forall k :: 0 <= k < |s.currentResults| ==> Matches(o, s, k)
  {
    hide Step, Inv, Matches, Required;
    RunInv(o, path, answers, i);
    if i > 0 {
      RunInv(o, path, answers, i - 1);
      PathStep(o, path, answers, i - 1);
      StepIsComplete(o, path[i - 1], answers[i - 1]);
      MatchesAt(o, path[i]);
    }
  }

  lemma StopsAtDecide(o: Setup, s: Snapshot, a: Answers)
    requires Composed(o) && Inv(o, s) && s.stage != Stopped && Step(o, s, a).Ok?
    requires Step(o, s, a).value.stage == Stopped
    ensures s.stage == Decide
  {
    StepMoves(o, s, a);
    hide Step, Required, SameAttempt, Remembers, SameVerdicts, NewVerdict, LogAttempt, Inv;
  }

  /** The step that ends a run decides with the last attempt's verdicts. The run ran out of attempts only if every one
      was used, and was verified only if every planned workload passed for the last attempt's patch. */
  ghost predicate EndsRun(o: Setup, s: Snapshot, t: Snapshot, a: Answers)
    requires Composed(o)
  {
    && s.stage == Decide
    && Concludes(s, t, |Required(o)|, DecisionOn(o, s, s.currentResults, a.attemptAncestry),
                 DecisionOn(o, s, s.allResults, a.finalAncestry))
    && (t.termination == Some(MaxAttempts) ==> t.attemptCount == t.limits.maxAttempts)
    && (t.termination == Some(Verified) ==>
          |t.currentResults| == |Required(o)| && forall i :: 0 <= i < |t.currentResults| ==> Matches(o, t, i))
  }

  lemma LastStep(o: Setup, s: Snapshot, a: Answers)
    requires Composed(o) && Inv(o, s) && s.stage != Stopped && Step(o, s, a).Ok?
    requires Step(o, s, a).value.stage == Stopped
    ensures EndsRun(o, s, Step(o, s, a).value, a)
  {
    hide Step, Inv, Required, DecisionOn, Matches, Logged;
    var t := Step(o, s, a).value;
    StopsAtDecide(o, s, a);
    DecideLeadsOn(o, s, a);
    StepInv(o, s, a);
    WithinAttempts(o, t);
    if t.lastFailure == None {
      MatchesAt(o, t);
    }
  }

  lemma RunEndsAs(o: Setup, path: seq<Snapshot>, answers: seq<Answers>)
    requires IsRun(o, path, answers) && path[|answers|].stage == Stopped
    ensures |answers| > 0 && EndsRun(o, path[|answers| - 1], path[|answers|], answers[|answers| - 1])
  {
    hide Step, Inv, EndsRun;
    var n := |answers|;
    assert n > 0;
    RunInv(o, path, answers, n - 1);
    PathStep(o, path, answers, n - 1);
    LastStep(o, path[n - 1], answers[n - 1]);
  }

  lemma WithinAttempts(o: Setup, s: Snapshot)
    requires Composed(o) && Inv(o, s)
    ensures s.attemptCount <= s.limits.maxAttempts
  {
  }

  lemma MatchesAt(o: Setup, s: Snapshot)
    requires Composed(o) && Inv(o, s) && s.lastFailure == None
    ensures forall i :: 0 <= i < |s.currentResults| ==> Matches(o, s, i)
  {
    hide Matches;
  }

  // ----- what a decision weighs

  predicate PassedFor(results: seq<VerificationResult>, workload: string) {
    exists r :: r in results && r.status == Passed && r.workloadId == Some(workload)
  }

  /** Nothing but the patch size and the verification strength is measured; the size of an accepted patch is its changed
      lines out of two hundred. */
  lemma MeasuredSays(o: Setup, patch: Option<PatchArtifact>, results: seq<VerificationResult>)
    requires Composed(o)
    ensures var m := Measured(o, patch, results);
            && Scoring.VerificationStrength in m && m[Scoring.VerificationStrength] == Strength(o, results)
            && (forall f :: f != Scoring.VerificationStrength && (f == Scoring.PatchSize ==> patch.None?) ==>
                  (f in m <==> f in o.remediation) && (f in m ==> m[f] == o.remediation[f]))
            && (patch.Some? ==> Scoring.PatchSize in m && m[Scoring.PatchSize] == PatchSizeOf(patch.value))
  {
    hide Required, Strength, PatchSizeOf;
  }

  lemma PatchSizeSays(patch: PatchArtifact)
    ensures var lines := patch.linesAdded + patch.linesDeleted;
            PatchSizeOf(patch) == if lines >= 200 then 1.0 else lines as real / 200.0
  {
  }

  /** Verification strength is the share of planned workloads with a passing verdict. */
  lemma StrengthSays(o: Setup, results: seq<VerificationResult>)
    requires Composed(o)
    ensures var share, required := Strength(o, results), Required(o);
            && share * |required| as real == |set w | w in required && PassedFor(results, w)| as real
            && (share == 1.0 <==> forall w :: w in required ==> PassedFor(results, w))
            && (share == 0.0 <==> forall w :: w in required ==> !PassedFor(results, w))
  {
    var required := Required(o);
    var all := set w | w in required;
    var passed := set w | w in required && PassedFor(results, w);
    assert passed == PassedWorkloads(results) * all;
    DistinctSize(required);
    ShareOfSets(all, passed);
    SomeRequired(o);
    assert forall w :: w in all <==> w in required;
    assert forall w :: w in passed <==> w in required && PassedFor(results, w);
    hide PassedFor, Share, PassedWorkloads, Required;
  }

  lemma SomeRequired(o: Setup)
    requires Composed(o)
    ensures Required(o) != [] && Distinct(Required(o))
  {
  }

  lemma ShareOfSets(all: set<string>, passed: set<string>)
    requires passed <= all && all != {}
    ensures |passed| <= |all| && |all| > 0
    ensures Share(|passed|, |all|) * |all| as real == |passed| as real
    ensures Share(|passed|, |all|) == 1.0 <==> forall w :: w in all ==> w in passed
    ensures Share(|passed|, |all|) == 0.0 <==> forall w :: w in all ==> w !in passed
  {
    Scoring.Subsets(passed, all);
    ShareSays(|passed|, |all|);
    if passed != all {
      var w :| w in all && w !in passed;
      Scoring.Subsets(passed, all - {w});
    }
    if w :| w in passed {
      assert w in all;
    }
  }

  lemma {:induction false} DistinctSize(xs: seq<string>)
    requires Distinct(xs)
    ensures |set x | x in xs| == |xs|
  {
    if xs != [] {
      DistinctSize(xs[1..]);
      assert (set x | x in xs) == {xs[0]} + (set x | x in xs[1..]);
    }
  }

  lemma ShareSays(passed: nat, required: nat)
    requires passed <= required && required > 0
    ensures Share(passed, required) * required as real == passed as real
    ensures Share(passed, required) == 1.0 <==> passed == required
    ensures Share(passed, required) == 0.0 <==> passed == 0
  {
  }

  /** The fix commit is the one every current verdict names. */
  lemma FixCommitSays(results: seq<VerificationResult>, commit: string)
    ensures FixCommit(results) == Some(commit) <==>
              results != [] && forall r :: r in results ==> r.commitSha == commit
  {
    if results != [] {
      assert results[0] in results;
    }
  }

  /** A decision weighs the accepted patch and its bytes, the trusted inputs, and the current attempt and fix commit. */
  lemma EvidenceSays(o: Setup, s: Snapshot, results: seq<VerificationResult>, ancestry: Autonomy.Ancestry)
    requires Composed(o)
    ensures var e := DecisionEvidence(o, s, results, ancestry);
            && e.analysisRunId == s.analysisRunId && e.debt == o.debt && e.policyMax == Some(o.policyMax)
            && e.job == Some(o.job) && e.candidate == Some(o.candidate) && e.required == Required(o)
            && e.results == results && e.ancestry == ancestry
            && e.remediation == Some(Measured(o, e.patch, results))
            && (forall patch :: e.patch == Some(patch) <==>
                  && s.proposal.Some? && s.validation.Some? && s.validation.value.valid
                  && s.proposal.value.patchArtifact == Some(patch))
            && (forall hash :: e.contentHash == Some(hash) <==>
                  && s.proposal.Some? && s.validation.Some? && s.validation.value.valid
                  && s.proposal.value.patchDiff.Some? && s.proposal.value.patchDiff.value != ""
                  && o.sha(s.proposal.value.patchDiff.value) == Some(hash))
            && (forall id :: e.attemptId == Some(id) <==>
                  s.currentResults != [] && id == AttemptId(s.analysisRunId, s.attemptCount))
            && (forall commit :: e.fixCommit == Some(commit) <==>
                  s.currentResults != [] && forall r :: r in s.currentResults ==> r.commitSha == commit)
  {
    hide Required, Measured;
    forall commit ensures FixCommit(s.currentResults) == Some(commit) <==>
                            s.currentResults != [] && forall r :: r in s.currentResults ==> r.commitSha == commit
    {
      FixCommitSays(s.currentResults, commit);
    }
    hide FixCommit;
  }
}
