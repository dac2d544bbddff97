/** The bounded remediation state machine as a function of one snapshot and the outside answers
    (`lou/agents/orchestration.py`). */
module Orchestration {
  import opened Common
  import opened Contracts
  import Scoring
  import Autonomy
  import Validation = PatchValidation

  datatype Stage = Context | Diagnose | Patch | Validate | Verify | Decide | Stopped

  datatype Reason =
    | Verified | MaxAttempts | TimeBudget | TokenBudget | CostBudget | DuplicatePatch | DecisionDeclined

  datatype Operation = DiagnoseCall | PatchCall

  type Cost = r: real | 0.0 <= r

  datatype AgentStatus = Succeeded | CallFailed | Abandoned

  datatype Response = Response(status: AgentStatus, patchDiff: Option<string>, patchArtifact: Option<PatchArtifact>,
                               tokensUsed: nat, costUsd: Cost)

  datatype Failure =
    | ProviderFailed(operation: Operation, status: AgentStatus) | PatchMissing | DuplicateProposal
    | PatchRunMismatch | PatchRejected | VerifierError(name: string) | VerifierResultMismatch
    | VerificationNotPassed(verdict: Verdict)

  datatype Outcome = FailedWith(failure: Failure) | EndedBy(reason: Reason) | VerificationPassed

  datatype AttemptOutcome = AttemptOutcome(attempt: nat, outcome: Outcome, patchSha256: Option<Hash>)

  datatype Limits = Limits(maxAttempts: nat, maxWallSeconds: real, maxTokens: nat, maxCostUsd: real)

  datatype Bundle = Bundle(items: seq<string>)

  /** `OrchestrationState`: a complete stage-boundary snapshot. */
  datatype Snapshot = Snapshot(
    analysisRunId: string, inputsFingerprint: Hash, limits: Limits, startedAt: real,
    stage: Stage, attemptCount: nat, elapsed: real, tokensSpent: nat, costSpent: real,
    priorPatchHashes: seq<Hash>, bundle: Option<Bundle>, diagnosis: Option<Response>,
    proposal: Option<Response>, validation: Option<Validation.ValidationResult>,
    currentResults: seq<VerificationResult>, allResults: seq<VerificationResult>, cursor: nat,
    lastFailure: Option<Failure>, outcomes: seq<AttemptOutcome>,
    pending: Option<Reason>, termination: Option<Reason>, decision: Option<Autonomy.Decision>)

  /** The trusted inputs, their fingerprint, and the digest function. */
  datatype Setup = Setup(
    job: AnalysisJob, fingerprint: Hash, candidate: VerificationResult, debt: Scoring.DebtInputs,
    remediation: Scoring.RemediationInputs, policyMax: Level, sha: Digest)

  datatype VerifierAnswer = Answered(result: VerificationResult) | Raised(name: string)

  /** Whatever the outside world says during one step. `now` and `later` are clock readings at the start
      of the step and after its external call; `bundle` is `None` when building the context raises. */
  datatype Answers = Answers(
    now: real, later: real, bundle: Option<Bundle>, response: Response, rules: Validation.Rules,
    verdict: VerifierAnswer, attemptAncestry: Autonomy.Ancestry, finalAncestry: Autonomy.Ancestry)

  datatype StepError =
    | InputsDiffer | ContextRaised | RulesRaised | AssertionFailed | InvalidVerifierInput | EncodingRaised

  // ----- trusted plan

  datatype PlanError = NotAList | DuplicateWorkloads

  /** `required_workload_ids`. */
  function RequiredWorkloadIds(job: AnalysisJob): (r: Result<seq<string>, PlanError>)
    ensures r.Ok? <==> job.plannedWorkloads.Some? && job.plannedWorkloads.value != []
                       && Distinct(job.plannedWorkloads.value) && "" !in job.plannedWorkloads.value
    ensures r.Ok? ==> Some(r.value) == job.plannedWorkloads
    ensures r == Err(DuplicateWorkloads) <==>
              job.plannedWorkloads.Some? && "" !in job.plannedWorkloads.value && !Distinct(job.plannedWorkloads.value)
  {
    if job.plannedWorkloads.None? || job.plannedWorkloads.value == [] || "" in job.plannedWorkloads.value
    then Err(NotAList)
    else if !Distinct(job.plannedWorkloads.value) then Err(DuplicateWorkloads)
    else Ok(job.plannedWorkloads.value)
  }

  /** The orchestrator's constructor accepted these inputs. */
  predicate Composed(o: Setup) {
    RequiredWorkloadIds(o.job).Ok?
  }

  function Required(o: Setup): seq<string>
    requires Composed(o)
  {
    RequiredWorkloadIds(o.job).value
  }

  predicate GoodLimits(limits: Limits) {
    limits.maxAttempts >= 1 && limits.maxWallSeconds > 0.0 && limits.maxCostUsd >= 0.0
  }

  function Start(o: Setup, limits: Limits, now: real): Snapshot {
    Snapshot(o.job.analysisRunId, o.fingerprint, limits, now, Context, 0, 0.0, 0, 0.0, [], None, None, None, None,
             [], [], 0, None, [], None, None, None)
  }

  // ----- budgets

  function Elapse(s: Snapshot, now: real): Snapshot {
    s.(elapsed := Max(s.elapsed, now - s.startedAt))
  }

  function BudgetReason(s: Snapshot): Option<Reason> {
    if s.elapsed > s.limits.maxWallSeconds then Some(TimeBudget)
    else if s.tokensSpent > s.limits.maxTokens then Some(TokenBudget)
    else if s.costSpent > s.limits.maxCostUsd then Some(CostBudget)
    else None
  }

  /** Leave for the decision stage when a budget is exceeded. */
  function StopOverBudget(s: Snapshot): Snapshot {
    if BudgetReason(s).Some? then s.(pending := BudgetReason(s), stage := Decide) else s
  }

  function Account(s: Snapshot, response: Response, later: real): Snapshot {
    StopOverBudget(Elapse(s.(tokensSpent := s.tokensSpent + response.tokensUsed,
                             costSpent := s.costSpent + response.costUsd), later))
  }

  function CurrentAttempt(s: Snapshot): AttemptId {
    AttemptId(s.analysisRunId, s.attemptCount)
  }

  // ----- decisions

  predicate Accepted(s: Snapshot) {
    s.proposal.Some? && s.validation.Some? && s.validation.value.valid
  }

  function PatchSizeOf(patch: PatchArtifact): Scoring.Unit {
    Min((patch.linesAdded + patch.linesDeleted) as real / 200.0, 1.0)
  }

  function PassedWorkloads(results: seq<VerificationResult>): set<string> {
    set r | r in results && r.status == Passed && r.workloadId.Some? :: r.workloadId.value
  }

  function Strength(o: Setup, results: seq<VerificationResult>): Scoring.Unit
    requires Composed(o)
  {
    var required := set w | w in Required(o);
    var passed := PassedWorkloads(results) * required;
    Scoring.Subsets(passed, required);
    assert Required(o)[0] in required;
    Share(|passed|, |required|)
  }

  function Share(passed: nat, required: nat): Scoring.Unit
    requires passed <= required && required > 0
  {
    passed as real / required as real
  }

  /** `_measured_remediation_inputs`. */
  function Measured(o: Setup, patch: Option<PatchArtifact>, results: seq<VerificationResult>): Scoring.RemediationInputs
    requires Composed(o)
  {
    var sized := if patch.Some? then o.remediation[Scoring.PatchSize := PatchSizeOf(patch.value)] else o.remediation;
    sized[Scoring.VerificationStrength := Strength(o, results)]
  }

  /** The one commit all current verdicts name, if they agree. */
  function FixCommit(results: seq<VerificationResult>): Option<string> {
    if results != [] && forall r :: r in results ==> r.commitSha == results[0].commitSha
    then Some(results[0].commitSha) else None
  }

  function ContentHash(o: Setup, s: Snapshot): Option<Hash> {
    if Accepted(s) && s.proposal.value.patchDiff.Some? && s.proposal.value.patchDiff.value != ""
    then o.sha(s.proposal.value.patchDiff.value) else None
  }

  /** Encoding the accepted diff for the decision would raise. */
  predicate EncodingFails(o: Setup, s: Snapshot) {
    Accepted(s) && s.proposal.value.patchDiff.Some? && o.sha(s.proposal.value.patchDiff.value).None?
  }

  function DecisionEvidence(o: Setup, s: Snapshot, results: seq<VerificationResult>,
                            ancestry: Autonomy.Ancestry): Autonomy.Evidence
    requires Composed(o)
  {
    var patch := if Accepted(s) then s.proposal.value.patchArtifact else None;
    Autonomy.Evidence(
      s.analysisRunId, o.debt, Some(Measured(o, patch, results)), Some(o.policyMax), patch, ContentHash(o, s),
      Some(o.job), FixCommit(s.currentResults),
      if s.currentResults != [] then Some(CurrentAttempt(s)) else None,
      Required(o), results, Some(o.candidate), ancestry)
  }

  function DecisionOn(o: Setup, s: Snapshot, results: seq<VerificationResult>,
                      ancestry: Autonomy.Ancestry): Autonomy.Decision
    requires Composed(o)
  {
    Autonomy.DecisionOf(DecisionEvidence(o, s, results, ancestry))
  }

  function Finish(s: Snapshot, reason: Reason, final: Autonomy.Decision): Snapshot {
    s.(termination := Some(reason), stage := Stopped, decision := Some(final))
  }

  // ----- the verifier's input

  datatype Request = Request(
    patchDiff: string, artifact: PatchArtifact, validation: Validation.ValidationResult, job: AnalysisJob,
    workloadId: string, attemptId: AttemptId, attemptCount: nat)

  /** `ValidatedPatch.check_identity`, and the field constraint that attempts count from one. */
  predicate CheckIdentity(o: Setup, r: Request) {
    && r.attemptCount >= 1
    && r.validation.valid && r.validation.reasons == [] && r.validation.files != []
    && r.artifact.analysisRunId == r.job.analysisRunId
    && r.artifact.baseCommitSha == r.job.candidateCommitSha
    && o.sha(r.patchDiff) == Some(r.artifact.patchSha256)
  }

  /** The verdict answers this request about this patch, workload and attempt. */
  predicate Echoes(r: Request, result: VerificationResult) {
    && result.analysisRunId == r.attemptId.analysisRunId && result.phase == Fix
    && result.workloadId == Some(r.workloadId)
    && result.patchSha256 == Some(r.artifact.patchSha256)
    && result.attemptId == Some(r.attemptId)
  }

  predicate HasProposal(s: Snapshot) {
    s.proposal.Some? && s.proposal.value.patchDiff.Some? && s.proposal.value.patchArtifact.Some?
  }

  function RequestAt(o: Setup, s: Snapshot): Request
    requires Composed(o) && HasProposal(s) && s.validation.Some? && s.cursor < |Required(o)|
  {
    Request(s.proposal.value.patchDiff.value, s.proposal.value.patchArtifact.value, s.validation.value, o.job,
            Required(o)[s.cursor], CurrentAttempt(s), s.attemptCount)
  }

  // ----- the stages

  function StepContext(s: Snapshot, a: Answers): Result<Snapshot, StepError> {
    if a.bundle.None? then Err(ContextRaised)
    else Ok(s.(attemptCount := s.attemptCount + 1, bundle := a.bundle, diagnosis := None, proposal := None,
               validation := None, currentResults := [], cursor := 0, lastFailure := None, stage := Diagnose))
  }

  function StepDiagnose(s: Snapshot, a: Answers): Result<Snapshot, StepError> {
    if s.bundle.None? then Err(AssertionFailed)
    else
      var t := Account(s.(diagnosis := Some(a.response)), a.response, a.later);
      if !a.response.status.Succeeded? then
        Ok(t.(lastFailure := Some(ProviderFailed(DiagnoseCall, a.response.status)), stage := Decide))
      else Ok(if t.stage == Decide then t else t.(stage := Patch))
  }

  function StepPatch(s: Snapshot, a: Answers): Result<Snapshot, StepError> {
    if s.bundle.None? then Err(AssertionFailed)
    else
      var t := Account(s.(proposal := Some(a.response)), a.response, a.later);
      if !a.response.status.Succeeded? then
        Ok(t.(lastFailure := Some(ProviderFailed(PatchCall, a.response.status)), stage := Decide))
      else if !HasProposal(t) then Ok(t.(lastFailure := Some(PatchMissing), stage := Decide))
      else Ok(if t.stage == Decide then t else t.(stage := Validate))
  }

  /** What the validation and the diff's own hash make of the proposal. */
  function Judge(s: Snapshot, artifact: PatchArtifact, v: Validation.ValidationResult, hash: Option<Hash>): Snapshot {
    var t := s.(validation := Some(v));
    if hash.Some? && hash.value in s.priorPatchHashes then
      t.(lastFailure := Some(DuplicateProposal), pending := Some(DuplicatePatch), stage := Decide)
    else
      var u := if hash.Some? then t.(priorPatchHashes := t.priorPatchHashes + [hash.value]) else t;
      if artifact.analysisRunId != s.analysisRunId then u.(lastFailure := Some(PatchRunMismatch), stage := Decide)
      else if !v.valid then u.(lastFailure := Some(PatchRejected), stage := Decide)
      else u.(stage := Verify)
  }

  function StepValidate(o: Setup, s: Snapshot, a: Answers): Result<Snapshot, StepError> {
    if !HasProposal(s) then Err(AssertionFailed)
    else
      var diff, artifact := s.proposal.value.patchDiff.value, s.proposal.value.patchArtifact.value;
      var v := Validation.Validation(diff, artifact, o.job.candidateCommitSha, o.sha, a.rules);
      if v.None? then Err(RulesRaised) else Ok(Judge(s, artifact, v.value, o.sha(diff)))
  }

  function Record(s: Snapshot, request: Request, result: VerificationResult): Snapshot {
    s.(currentResults := s.currentResults + [result], allResults := s.allResults + [result], cursor := s.cursor + 1,
       lastFailure :=
         if !Echoes(request, result) then Some(VerifierResultMismatch)
         else if result.status != Passed && s.lastFailure.None? then Some(VerificationNotPassed(result.status))
         else s.lastFailure)
  }

  function StepVerify(o: Setup, s: Snapshot, a: Answers): Result<Snapshot, StepError>
    requires Composed(o)
  {
    if s.cursor >= |Required(o)| then Ok(s.(stage := Decide))
    else if !HasProposal(s) || s.validation.None? then Err(AssertionFailed)
    else if !CheckIdentity(o, RequestAt(o, s)) then Err(InvalidVerifierInput)
    else
      match a.verdict
      case Raised(name) => Ok(Elapse(s.(lastFailure := Some(VerifierError(name)), stage := Decide), a.later))
      case Answered(result) =>
        var t := Elapse(Record(s, RequestAt(o, s), result), a.later);
        if BudgetReason(t).Some? then Ok(StopOverBudget(t))
        else Ok(if t.cursor >= |Required(o)| then t.(stage := Decide) else t)
  }

  function OutcomeOf(s: Snapshot): Outcome {
    if s.lastFailure.Some? then FailedWith(s.lastFailure.value)
    else if s.pending.Some? then EndedBy(s.pending.value)
    else VerificationPassed
  }

  function LogAttempt(s: Snapshot): Snapshot {
    if s.attemptCount <= |s.outcomes| then s
    else
      var hash := if s.proposal.Some? && s.proposal.value.patchArtifact.Some?
                  then Some(s.proposal.value.patchArtifact.value.patchSha256) else None;
      s.(outcomes := s.outcomes + [AttemptOutcome(s.attemptCount, OutcomeOf(s), hash)])
  }

  predicate AllPassed(s: Snapshot, required: nat) {
    |s.currentResults| == required && Autonomy.AllPassed(s.currentResults) && s.lastFailure.None?
  }

  /** Why the attempt that ends in `s` also ends the run, if it does. */
  function EndOf(s: Snapshot, required: nat, attempt: Autonomy.Decision): Option<Reason> {
    if s.pending.Some? then s.pending
    else if AllPassed(s, required) && attempt.level >= 2 then Some(Verified)
    else if !attempt.action.GeneratePatch? then Some(DecisionDeclined)
    else if s.attemptCount >= s.limits.maxAttempts then Some(MaxAttempts)
    else None
  }

  function Conclude(s: Snapshot, required: nat, attempt: Autonomy.Decision, final: Autonomy.Decision): Snapshot {
    var t := LogAttempt(s.(decision := Some(attempt)));
    match EndOf(s, required, attempt)
    case Some(reason) => Finish(t, reason, final)
    case None => t.(stage := Context)
  }

  /** The attempt decision weighs the current verdicts; the final one weighs every verdict of the run. */
  function StepDecide(o: Setup, s: Snapshot, a: Answers): Result<Snapshot, StepError>
    requires Composed(o)
  {
    if EncodingFails(o, s) then Err(EncodingRaised)
    else Ok(Conclude(s, |Required(o)|, DecisionOn(o, s, s.currentResults, a.attemptAncestry),
                     DecisionOn(o, s, s.allResults, a.finalAncestry)))
  }

  function StepStage(o: Setup, s: Snapshot, a: Answers): Result<Snapshot, StepError>
    requires Composed(o)
  {
    match s.stage
    case Context => StepContext(s, a)
    case Diagnose => StepDiagnose(s, a)
    case Patch => StepPatch(s, a)
    case Validate => StepValidate(o, s, a)
    case Verify => StepVerify(o, s, a)
    case Decide => StepDecide(o, s, a)
    case Stopped => Ok(s)
  }

  /** The stage runs, unless a budget is already exceeded on entry. */
  predicate Runs(s: Snapshot, now: real) {
    s.stage == Decide || BudgetReason(Elapse(s, now)).None?
  }

  /** `step`: one stage boundary to the next. */
  function Step(o: Setup, previous: Snapshot, a: Answers): Result<Snapshot, StepError>
    requires Composed(o)
  {
    if previous.analysisRunId != o.job.analysisRunId || previous.inputsFingerprint != o.fingerprint
    then Err(InputsDiffer)
    else if previous.stage == Stopped then Ok(previous)
    else if !Runs(previous, a.now) then Ok(StopOverBudget(Elapse(previous, a.now)))
    else StepStage(o, Elapse(previous, a.now), a)
  }
}
