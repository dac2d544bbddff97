/** Facts about whole runs: termination, budgets, fresh patches. */
module OrchestrationRuns {
  import opened Common
  import opened Contracts
  import opened Orchestration
  import opened OrchestrationInvariant
  import Autonomy
  import Validation = PatchValidation

  /** Consecutive snapshots, each made by one successful step from an unstopped one. */
  ghost predicate IsPath(o: Setup, path: seq<Snapshot>, answers: seq<Answers>)
    requires Composed(o)
  {
    && |path| == |answers| + 1
    && forall i :: 0 <= i < |answers| ==> path[i].stage != Stopped && Step(o, path[i], answers[i]) == Ok(path[i + 1])
  }

  /** A run: a path that begins at `start`. */
  ghost predicate IsRun(o: Setup, path: seq<Snapshot>, answers: seq<Answers>) {
    && Composed(o) && IsPath(o, path, answers)
    && GoodLimits(path[0].limits)
    && path[0] == Start(o, path[0].limits, path[0].startedAt)
  }

  lemma PathStep(o: Setup, path: seq<Snapshot>, answers: seq<Answers>, i: nat)
    requires Composed(o) && IsPath(o, path, answers) && i < |answers|
    ensures path[i].stage != Stopped && Step(o, path[i], answers[i]) == Ok(path[i + 1])
  {
  }

  lemma {:induction false} PathInv(o: Setup, path: seq<Snapshot>, answers: seq<Answers>, i: nat)
    requires Composed(o) && IsPath(o, path, answers) && i < |path| && Inv(o, path[0])
    ensures Inv(o, path[i]) && path[i].limits == path[0].limits
  {
    hide Step;
    if i > 0 {
      PathInv(o, path, answers, i - 1);
      PathStep(o, path, answers, i - 1);
      StepInv(o, path[i - 1], answers[i - 1]);
      StepKeepsLimits(o, path[i - 1], answers[i - 1]);
    }
  }

  lemma RunInv(o: Setup, path: seq<Snapshot>, answers: seq<Answers>, i: nat)
    requires IsRun(o, path, answers) && i < |path|
    ensures Inv(o, path[i]) && path[i].limits == path[0].limits
  {
    StartInv(o, path[0].limits, path[0].startedAt);
    PathInv(o, path, answers, i);
  }

  // ----- one step at a time, as seen from outside

  predicate CallsProvider(s: Snapshot, a: Answers) {
    s.stage in {Diagnose, Stage.Patch} && Runs(s, a.now)
  }

  predicate CallsVerifier(s: Snapshot, a: Answers) {
    s.stage == Verify && Runs(s, a.now)
  }

  lemma StepKeepsLimits(o: Setup, s: Snapshot, a: Answers)
    requires Composed(o) && Step(o, s, a).Ok?
    ensures Step(o, s, a).value.limits == s.limits
  {
    hide DecisionOn, Validation.Validation;
  }

  // ----- termination

  /** The steps that attempts not yet begun can still take. */
  function AttemptsLeft(maxAttempts: nat, attempt: nat, required: nat): int {
    (maxAttempts - attempt) * (5 + required)
  }

  /** An upper bound on the steps left with `n` planned workloads; a pending reason leaves one. */
  function StepsLeftOf(s: Snapshot, n: nat): int {
    var later := AttemptsLeft(s.limits.maxAttempts, s.attemptCount, n);
    match s.stage
    case Context => later
    case Diagnose => later + 4 + n
    case Patch => later + 3 + n
    case Validate => later + 2 + n
    case Verify => later + 1 + n - s.cursor
    case Decide => if s.pending.Some? then 1 else later + 1
    case Stopped => 0
  }

  function StepsLeft(o: Setup, s: Snapshot): int
    requires Composed(o)
  {
    StepsLeftOf(s, |Required(o)|)
  }

  lemma AttemptCosts(maxAttempts: nat, attempt: nat, required: nat)
    requires attempt <= maxAttempts
    ensures 0 <= AttemptsLeft(maxAttempts, attempt, required)
    ensures attempt < maxAttempts ==>
              AttemptsLeft(maxAttempts, attempt, required)
              == AttemptsLeft(maxAttempts, attempt + 1, required) + 5 + required
              && 0 <= AttemptsLeft(maxAttempts, attempt + 1, required)
  {
    NonNegativeProduct(maxAttempts - attempt, 5 + required);
    AttemptProduct(maxAttempts, attempt, 5 + required);
    if attempt < maxAttempts {
      NonNegativeProduct(maxAttempts - attempt - 1, 5 + required);
    }
  }

  lemma NonNegativeProduct(a: int, b: int)
    requires 0 <= a && 0 <= b
    ensures 0 <= a * b
  {
  }

  lemma AttemptProduct(max: int, attempt: int, k: int)
    ensures (max - (attempt + 1)) * k + k == (max - attempt) * k
  {
  }

  lemma StepsLeftPositive(o: Setup, s: Snapshot)
    requires Composed(o) && Inv(o, s)
    ensures 0 <= StepsLeft(o, s) && (s.stage != Stopped ==> 0 < StepsLeft(o, s))
  {
    AttemptCosts(s.limits.maxAttempts, s.attemptCount, |Required(o)|);
    hide AttemptsLeft, Required, AcceptedIsSound, HandedOff, Budgeted, Distinct;
  }

  // ----- what one step moves

  ghost predicate SameAttempt(s: Snapshot, t: Snapshot) {
    && t.attemptCount == s.attemptCount && t.limits == s.limits && t.outcomes == s.outcomes
    && t.priorPatchHashes == s.priorPatchHashes
  }

  /** A validated proposal's hash is remembered if it is fresh; an accepted one is its artifact's. */
  ghost predicate Remembers(s: Snapshot, t: Snapshot) {
    && t.attemptCount == s.attemptCount && t.limits == s.limits && t.outcomes == s.outcomes
    && (t.priorPatchHashes == s.priorPatchHashes
        || exists hash :: hash !in s.priorPatchHashes && t.priorPatchHashes == s.priorPatchHashes + [hash])
    && (t.stage == Verify ==>
          HasProposal(s)
          && t.priorPatchHashes == s.priorPatchHashes + [s.proposal.value.patchArtifact.value.patchSha256])
  }

  ghost predicate SameVerdicts(s: Snapshot, t: Snapshot) {
    t.currentResults == s.currentResults && t.allResults == s.allResults && t.cursor == s.cursor
  }

  ghost predicate NewVerdict(s: Snapshot, t: Snapshot, result: VerificationResult) {
    && t.currentResults == s.currentResults + [result] && t.allResults == s.allResults + [result]
    && t.cursor == s.cursor + 1
  }

  /** How the counters and logs of `t` follow from those of `s`, stage by stage. */
  ghost predicate Moves(s: Snapshot, t: Snapshot, a: Answers, required: nat) {
    if !Runs(s, a.now) then t.stage == Decide && t.pending.Some? && SameAttempt(s, t) && SameVerdicts(s, t)
    else
      match s.stage
      case Context =>
        && t.stage == Diagnose && t.attemptCount == s.attemptCount + 1 && t.limits == s.limits
        && t.outcomes == s.outcomes && t.priorPatchHashes == s.priorPatchHashes
        && t.currentResults == [] && t.allResults == s.allResults && t.cursor == 0
      case Diagnose => t.stage in {Stage.Patch, Decide} && SameAttempt(s, t) && SameVerdicts(s, t)
      case Patch => t.stage in {Validate, Decide} && SameAttempt(s, t) && SameVerdicts(s, t)
      case Validate =>
        t.stage in {Verify, Decide} && Remembers(s, t) && SameVerdicts(s, t)
      case Verify =>
        && t.stage in {Verify, Decide} && SameAttempt(s, t)
        && if a.verdict.Answered? then NewVerdict(s, t, a.verdict.result) && (t.stage == Verify ==> t.cursor < required)
           else t.stage == Decide && SameVerdicts(s, t)
      case Decide =>
        && t.stage in {Context, Stopped} && t.attemptCount == s.attemptCount && t.limits == s.limits
        && t.priorPatchHashes == s.priorPatchHashes && SameVerdicts(s, t)
        && t.outcomes == LogAttempt(s).outcomes
        && (s.pending.Some? ==> t.stage == Stopped)
      case Stopped => true
  }

  lemma JudgeMoves(s: Snapshot, a: Answers, artifact: PatchArtifact, v: Validation.ValidationResult,
                   hash: Option<Hash>, required: nat)
    requires s.stage == Validate && Runs(s, a.now) && HasProposal(s)
    requires v.valid ==> hash == Some(s.proposal.value.patchArtifact.value.patchSha256)
    ensures Moves(s, Judge(s, artifact, v, hash), a, required)
  {
    hide Runs;
  }

  lemma ValidateMoves(o: Setup, s: Snapshot, a: Answers)
    requires Composed(o) && s.stage == Validate && Runs(s, a.now) && StepValidate(o, s, a).Ok?
    ensures Moves(s, StepValidate(o, s, a).value, a, |Required(o)|)
  {
    var diff, artifact := s.proposal.value.patchDiff.value, s.proposal.value.patchArtifact.value;
    var v := Validation.Validation(diff, artifact, o.job.candidateCommitSha, o.sha, a.rules);
    if v.value.valid {
      Validation.AcceptedHandoff(diff, artifact, o.job.candidateCommitSha, o.sha, a.rules);
    }
    JudgeMoves(s, a, artifact, v.value, o.sha(diff), |Required(o)|);
    hide Validation.Validation, Required, Moves, Judge;
  }

  lemma RunsAtDecide(s: Snapshot, now: real)
    requires s.stage == Decide
    ensures Runs(s, now)
  {
  }

  lemma ConcludeMoves(s: Snapshot, a: Answers, required: nat, attempt: Autonomy.Decision, final: Autonomy.Decision)
    requires s.stage == Decide
    ensures Moves(s, Conclude(s, required, attempt, final), a, required)
  {
    hide AllPassed, Runs;
    assert Runs(s, a.now) by { RunsAtDecide(s, a.now); }
  }

  lemma DecideMoves(o: Setup, s: Snapshot, a: Answers)
    requires Composed(o) && s.stage == Decide && StepDecide(o, s, a).Ok?
    ensures Moves(s, StepDecide(o, s, a).value, a, |Required(o)|)
  {
    var attempt := DecisionOn(o, s, s.currentResults, a.attemptAncestry);
    var final := DecisionOn(o, s, s.allResults, a.finalAncestry);
    assert StepDecide(o, s, a) == Ok(Conclude(s, |Required(o)|, attempt, final));
    ConcludeMoves(s, a, |Required(o)|, attempt, final);
  }

  lemma VerifyMoves(o: Setup, s: Snapshot, a: Answers)
    requires Composed(o) && Inv(o, s) && s.stage == Verify && Runs(s, a.now) && StepVerify(o, s, a).Ok?
    ensures Moves(s, StepVerify(o, s, a).value, a, |Required(o)|)
  {
    HandoffChecks(o, s);
    hide AcceptedIsSound, HandedOff, CheckIdentity, Echoes, Required, Distinct;
  }

  lemma StageMoves(o: Setup, s: Snapshot, a: Answers)
    requires Composed(o) && Inv(o, s) && Runs(s, a.now) && s.stage != Stopped && StepStage(o, s, a).Ok?
    ensures Moves(s, StepStage(o, s, a).value, a, |Required(o)|)
  {
    match s.stage {
      case Validate => ValidateMoves(o, s, a);
      case Verify => VerifyMoves(o, s, a);
      case Decide => DecideMoves(o, s, a);
      case _ =>
    }
    hide StepValidate, StepVerify, StepDecide, AcceptedIsSound, HandedOff, Recorded, Distinct, Required;
  }

  lemma StepMoves(o: Setup, s: Snapshot, a: Answers)
    requires Composed(o) && Inv(o, s) && s.stage != Stopped && Step(o, s, a).Ok?
    ensures Moves(s, Step(o, s, a).value, a, |Required(o)|)
  {
    ElapseInv(o, s, a.now);
    var u := Elapse(s, a.now);
    ElapseTwice(s, a.now);
    if Runs(s, a.now) {
      StageMoves(o, u, a);
      MovesSinceElapse(s, Step(o, s, a).value, a, |Required(o)|);
    } else {
      StopMoves(s, a, |Required(o)|);
    }
    hide StepStage, Inv, Required, Moves, Runs, Elapse, StopOverBudget;
  }

  lemma ElapseTwice(s: Snapshot, now: real)
    ensures Elapse(Elapse(s, now), now) == Elapse(s, now) && Runs(Elapse(s, now), now) == Runs(s, now)
  {
  }

  lemma MovesSinceElapse(s: Snapshot, t: Snapshot, a: Answers, required: nat)
    requires Moves(Elapse(s, a.now), t, a, required) && Runs(s, a.now)
    ensures Moves(s, t, a, required)
  {
    ElapseTwice(s, a.now);
    hide Runs, Max;
  }

  lemma StopMoves(s: Snapshot, a: Answers, required: nat)
    requires !Runs(s, a.now)
    ensures Moves(s, StopOverBudget(Elapse(s, a.now)), a, required)
  {
    hide Max;
  }

  lemma MovesDecrease(s: Snapshot, t: Snapshot, a: Answers, n: nat)
    requires Moves(s, t, a, n) && s.stage != Stopped
    requires s.attemptCount <= s.limits.maxAttempts && (s.stage == Context ==> s.attemptCount < s.limits.maxAttempts)
    requires s.stage == Verify ==> s.cursor < n
    ensures StepsLeftOf(t, n) < StepsLeftOf(s, n)
  {
    hide AttemptsLeft, Runs, Remembers;
    AttemptCosts(s.limits.maxAttempts, s.attemptCount, n);
    if s.stage == Validate && Runs(s, a.now) {
      RemembersAttempt(s, t);
    } else if s.stage == Decide {
      RunsAtDecide(s, a.now);
    }
  }

  lemma RemembersAttempt(s: Snapshot, t: Snapshot)
    requires Remembers(s, t)
    ensures t.attemptCount == s.attemptCount && t.limits == s.limits && t.outcomes == s.outcomes
  {
  }

  lemma StepDecreases(o: Setup, s: Snapshot, a: Answers)
    requires Composed(o) && Inv(o, s) && s.stage != Stopped && Step(o, s, a).Ok?
    ensures StepsLeft(o, Step(o, s, a).value) < StepsLeft(o, s)
  {
    StepMoves(o, s, a);
    HandoffCursor(o, s);
    hide Step, Moves, StepsLeftOf, Required, AcceptedIsSound, HandedOff, Recorded, Staged, Budgeted, Distinct;
    MovesDecrease(s, Step(o, s, a).value, a, |Required(o)|);
  }

  lemma HandoffCursor(o: Setup, s: Snapshot)
    requires Composed(o) && Inv(o, s)
    ensures s.stage == Verify ==> s.cursor < |Required(o)|
  {
  }

  lemma {:induction false} PathDecreases(o: Setup, path: seq<Snapshot>, answers: seq<Answers>, i: nat)
    requires Composed(o) && IsPath(o, path, answers) && i < |path| && Inv(o, path[0])
    ensures StepsLeft(o, path[i]) + i <= StepsLeft(o, path[0])
  {
    hide Step;
    if i > 0 {
      PathDecreases(o, path, answers, i - 1);
      PathInv(o, path, answers, i - 1);
      PathStep(o, path, answers, i - 1);
      StepDecreases(o, path[i - 1], answers[i - 1]);
    }
  }

  /** Whatever the outside answers, a run has at most `maxAttempts * (5 + workloads)` steps. */
  lemma RunIsBounded(o: Setup, path: seq<Snapshot>, answers: seq<Answers>)
    requires IsRun(o, path, answers)
    ensures |answers| <= path[0].limits.maxAttempts * (5 + |Required(o)|)
    ensures path[|answers|].attemptCount <= path[0].limits.maxAttempts
  {
    StartInv(o, path[0].limits, path[0].startedAt);
    PathDecreases(o, path, answers, |answers|);
    RunInv(o, path, answers, |answers|);
    StepsLeftPositive(o, path[|answers|]);
  }

  // ----- budgets

  lemma SpendingStep(o: Setup, s: Snapshot, a: Answers)
    requires Composed(o) && Step(o, s, a).Ok?
    ensures var t := Step(o, s, a).value;
            if CallsProvider(s, a) && s.analysisRunId == o.job.analysisRunId then
              t.tokensSpent == s.tokensSpent + a.response.tokensUsed && t.costSpent == s.costSpent + a.response.costUsd
              && !OverSpent(s)
            else t.tokensSpent == s.tokensSpent && t.costSpent == s.costSpent
  {
    hide DecisionOn, Validation.Validation;
  }

  /** The `i`-th step made the one call that exceeded the budget; nothing outside was called after it. */
  ghost predicate Overspends(path: seq<Snapshot>, answers: seq<Answers>, i: nat)
    requires |path| == |answers| + 1
  {
    && i < |answers| && CallsProvider(path[i], answers[i]) && !OverSpent(path[i])
    && path[|answers|].tokensSpent == path[i].tokensSpent + answers[i].response.tokensUsed
    && path[|answers|].costSpent == path[i].costSpent + answers[i].response.costUsd
    && forall j :: i < j < |answers| ==> !CallsProvider(path[j], answers[j]) && !CallsVerifier(path[j], answers[j])
  }

  /** A run overspends tokens or cost by at most its last provider response, calls nobody afterwards,
      and ends with a budget reason. */
  lemma {:induction false} OverspendIsOneCall(o: Setup, path: seq<Snapshot>, answers: seq<Answers>)
    requires IsRun(o, path, answers) && OverSpent(path[|answers|])
    ensures exists i :: Overspends(path, answers, i)
    ensures path[|answers|].stage in {Decide, Stopped}
    ensures path[|answers|].stage == Stopped ==> IsBudget(path[|answers|].termination)
    decreases |answers|
  {
    hide Step;
    var n := |answers|;
    RunInv(o, path, answers, n);
    if n > 0 {
      PathStep(o, path, answers, n - 1);
      RunInv(o, path, answers, n - 1);
      SpendingStep(o, path[n - 1], answers[n - 1]);
      if OverSpent(path[n - 1]) {
        assert IsRun(o, path[..n], answers[..n - 1]);
        OverspendIsOneCall(o, path[..n], answers[..n - 1]);
        var i :| Overspends(path[..n], answers[..n - 1], i);
        assert Overspends(path, answers, i);
      } else {
        assert Overspends(path, answers, n - 1);
      }
    }
  }

  // ----- fresh patches

  /** What a later snapshot of the same run keeps of an earlier one. */
  ghost predicate Later(s: Snapshot, t: Snapshot) {
    && s.priorPatchHashes <= t.priorPatchHashes
    && s.attemptCount <= t.attemptCount
    && (s.attemptCount < t.attemptCount && t.stage == Verify ==> |s.priorPatchHashes| < |t.priorPatchHashes|)
  }

  lemma LaterStep(o: Setup, s: Snapshot, t: Snapshot, a: Answers)
    requires Composed(o) && Inv(o, t) && Later(s, t) && t.stage != Stopped && Step(o, t, a).Ok?
    ensures Later(s, Step(o, t, a).value)
  {
    StepMoves(o, t, a);
    hide Step, Inv, Required, Runs;
  }

  lemma {:induction false} RunIsLater(o: Setup, path: seq<Snapshot>, answers: seq<Answers>, i: nat, j: nat)
    requires IsRun(o, path, answers) && i <= j < |path|
    ensures Later(path[i], path[j])
    decreases j
  {
    hide Step;
    if i < j {
      RunIsLater(o, path, answers, i, j - 1);
      RunInv(o, path, answers, j - 1);
      PathStep(o, path, answers, j - 1);
      LaterStep(o, path[i], path[j - 1], answers[j - 1]);
    }
  }

  /** Two attempts never send the verifier the same patch hash. */
  lemma VerifiedPatchesAreFresh(o: Setup, path: seq<Snapshot>, answers: seq<Answers>, i: nat, j: nat)
    requires IsRun(o, path, answers) && i < j < |answers|
    requires CallsVerifier(path[i], answers[i]) && CallsVerifier(path[j], answers[j])
    requires path[i].attemptCount != path[j].attemptCount
    ensures HasProposal(path[i]) && HasProposal(path[j])
    ensures path[i].proposal.value.patchArtifact.value.patchSha256
            != path[j].proposal.value.patchArtifact.value.patchSha256
    ensures path[i].proposal.value.patchDiff != path[j].proposal.value.patchDiff
  {
    hide Step;
    RunInv(o, path, answers, i);
    RunInv(o, path, answers, j);
    RunIsLater(o, path, answers, i, j);
    var early, late := path[i].priorPatchHashes, path[j].priorPatchHashes;
    assert early[|early| - 1] == late[|early| - 1];
  }

  /** At the end every attempt has exactly one outcome, numbered from one. */
  lemma AttemptLogIsComplete(o: Setup, path: seq<Snapshot>, answers: seq<Answers>)
    requires IsRun(o, path, answers) && path[|answers|].stage == Stopped
    ensures var s := path[|answers|];
            && |s.outcomes| == s.attemptCount <= s.limits.maxAttempts
            && forall k :: 0 <= k < |s.outcomes| ==> s.outcomes[k].attempt == k + 1
  {
    RunInv(o, path, answers, |answers|);
  }

  // ----- positions

  /** Where in the run a snapshot stands; made only from fields the audit key contains. */
  function Position(attempt: nat, stage: Stage, cursor: nat, outcomes: nat, required: nat): nat {
    attempt * (required + 8) +
    match stage
    case Diagnose => 0
    case Patch => 1
    case Validate => 2
    case Verify => 3 + cursor
    case Decide => if outcomes < attempt then required + 4 else required + 6
    case Context => required + 5
    case Stopped => required + 7
  }

  function PositionOf(o: Setup, s: Snapshot): nat
    requires Composed(o)
  {
    Position(s.attemptCount, s.stage, s.cursor, |s.outcomes|, |Required(o)|)
  }

  lemma StepAdvances(o: Setup, s: Snapshot, a: Answers)
    requires Composed(o) && Inv(o, s) && s.stage != Stopped && Step(o, s, a).Ok?
    ensures PositionOf(o, s) < PositionOf(o, Step(o, s, a).value)
  {
    AttemptProduct(0, -(s.attemptCount as int) - 1, |Required(o)| + 8);
    StepInv(o, s, a);
    StepMoves(o, s, a);
    hide Step, Required, AcceptedIsSound, HandedOff, Distinct, Runs;
  }

  lemma {:induction false} RunAdvances(o: Setup, path: seq<Snapshot>, answers: seq<Answers>, i: nat, j: nat)
    requires IsRun(o, path, answers) && i < j < |path|
    ensures PositionOf(o, path[i]) < PositionOf(o, path[j])
    decreases j
  {
    hide Step;
    RunInv(o, path, answers, j - 1);
    PathStep(o, path, answers, j - 1);
    StepAdvances(o, path[j - 1], answers[j - 1]);
    if i < j - 1 {
      RunAdvances(o, path, answers, i, j - 1);
    }
  }
}
