# Lou: a verified model of its evidence-driven repair pipeline

Lou analyses a change, asks a model provider for a patch, verifies the patch independently, decides how much
autonomy the evidence supports, publishes a verified patch, and promotes a staging release behind a canary. This
project models the deterministic parts of that pipeline and proves what they keep, over every input and every run
and, for the journal and for publication, every interleaving. Outside answers (the provider, the verifier, clocks,
`git`, lookups, the file system) are arbitrary parameters; SHA-256 is a function, assumed free of collisions only where a lemma says so.

## What the project models

- **The bounded remediation machine.** `Orchestration` gives `step` as a function of one snapshot and the outside
  answers; `OrchestrationMachine` is the object that assigns its fields and loops to `stopped`.
  `OrchestrationInvariant` is what every reachable snapshot satisfies, `OrchestrationOutcomes` where each stage leads
  and how a run ends; `OrchestrationRuns` is about whole runs.
- **The durable runner.** `RemediationRuns` and `RemediationExecution` are the stored run, its audit rows, and
  executions that may die before any effect and be resumed; `CrashRecovery` compares any schedule of crashes with a
  run without one.
- **Verification and publication.** `FixVerifiers` is the per-attempt verifier cache; `Publication` is the gate
  and the one record per plan, `PublicationConcurrency` any number of requests about one plan interleaving at their
  database accesses; `PublishedRuns` joins the gate to that verifier and to the run as it is stored.
- **Autonomy and scores.** `Scoring` and what each observation does to it (`ScoringFeatures`), `Autonomy` (what is
  decided), `AutonomyDecision` (the closures that decide it), `AutonomyLevels` (what each level requires) and
  `AutonomyMonotone`.
- **The unified-diff parser.** `DiffGrammar` is what one line means, `DiffParser` the mutable pass, `DiffPrinter`
  and `DiffRoundTrip` its inverse, `DiffCounts` the accounting of hunk counters, `DiffLines` that of every line,
  `PatchValidation` its use.
- **The deployment journal.** `Journal` is the hash chain, `JournalConcurrency` any number of racing writers,
  `CanaryPolicy` the decision, `DeploymentService` the service with a crash possible before every effect.
- **The repository analysis.** `ImpactGraph` and `Traversal` (breadth-first search under caps), `Symbols`,
  `SymbolKeys`, `SymbolKinds`, `LineOwnership` and `ExtendedOwnership` (two walks over one syntax tree, and whose line
  is whose), `WorkloadPlanner` and `WorkloadChoice` (greedy planning) and `Replanning` (planning again from what was
  written back).

Each imperative member is proved equal to a specification function or to its stated result; the properties are
then proved about that function.

## Main results

1. No assertion in `step` fails, no verifier input is refused, and a run stops within
   `maxAttempts * (5 + workloads)` steps whatever the outside answers; a step raises exactly when
   building the context bundle or a file-system rule does (`StepInv`, `HandoffIsAccepted`, `RunIsBounded`).
   Where each stage leads is settled by conditions on the snapshot and the answers; an attempt is retried exactly when
   nothing is pending, attempts are left, the decision on its verdicts is to generate a patch and it did not succeed
   (`DecideLeadsOn`, `RunEndsAs`).
2. Crashes and resumptions never lose or repeat a boundary: the store always ends a run of the machine with one
   audit row per transition, keys never collide, and an execution dies exactly after the effects it was left alive
   for (`Execute`, `AuditKeysDistinct`). Under any schedule of crashes that survives the first snapshot and ends with
   a long enough execution, a deterministic driver returns, and what is stored is what a run without crashes stores,
   whether it stops or a step raises (`ExecuteDespiteCrashes`, `CrashesAreInvisible`).
3. The gate opens for a stored run only if its final attempt has a passing, matching verdict per planned workload in
   plan order, and every verdict ever recorded passed for the published bytes (`PublicationIsSafe`,
   `StoredRunIsSafe`); with `FixVerifier` behind the run no earlier attempt ever got a verdict
   (`FixVerifierEchoes`, `PublishedAfterOneVerifiedAttempt`), and the workloads were run on exactly the published bytes
   and compared no worse than the baseline while the candidate compared worse (`PublishedPatchPassed`).
4. Parsing inverts printing for every well-formed patch, even if its content looks like headers, and every
   error-free parse consumed exactly the declared counts and accounts for every line of the diff by its shape
   (`ParseInvertsPrint`, `ErrorFreeParseConsumesDeclared`, `ErrorFreeParseAccountsForLines`).
5. Under any interleaving of writers with stale reads the journal stays one accepted chain, its release fixed and
   its status rising only (`ConcurrentJournalIsSafe`); equal last hashes mean equal journals (`ChainsAgree`).
6. Every `promoted` record follows the observation and the confirmed evidence that justify it, whatever crashes
   (`PromotedFollowsObserved`, `JournalShowsWhyPromoted`, kept by every method of the service); every outcome follows its
   call and every pause and automatic rollback the observation that decided it (`OutcomesFollowDecisions`). This is about
   operations one after the other: two interleaved observers can put a foreign record between `observed` and
   `promoted`.
7. Impact results are exact even when truncated, and the limit is reported exactly when it was needed (`Traverse`);
   a walk step is exactly what some edge of the graph allows (`NextStepsIff`).
8. Each autonomy level is reached exactly when its conditions on the evidence hold (`LevelsRequire`); measuring what
   was unknown fails no gate that passed and never lowers autonomy (`PassedGatesStayPassed`,
   `MeasuringNeverLowersLevel`).
9. Every source line belongs to the deepest definition covering it, trailing comments included, because extending
   definitions keeps them nested (`ExtendingKeepsNesting`, `ExtendedOwnersAreInnermost`).
10. Under any interleaving of requests about one plan the first record stays, every publisher call is accounted for,
    and there are as many as there were requests that looked up before the first save and went on
    (`HistoryInv`, `EveryCallIsAccountedFor`, `CallsAreReadersThatWentOn`).

## Where the code and the expectation differ

- `release()` guards only on a `released` event, not on the status: a release that crashed before that event and
  was then rolled back by hand is deployed again by the next `release()` (`RollbackDoesNotStopReleaseIff`,
  `RolledBackThenDeployed`).
- A file named `.py` has an empty module name; symbol extraction then writes `.f` where the graph builder writes
  `f`. The two walks agree, and the graph flags the extracted symbols, exactly when the name is nonempty or
  nothing is defined (`TwoWalksAgreeIff`, `FlaggedAreExtractedIff`).
- Planning again is stable for the selection, but not always for the reported state: on a complete graph that no
  entry matches, if entries were requested by ID and none of them is affordable even alone, the rewritten context
  forgets the requests and `budget_exhausted` becomes `complete_no_applicable`. That is the only case
  (`StateSurvivesReplanningIff`); `ReplanningMayForget` is an input on which it happens.
- The service is described as resuming every run with matching inputs, but a crash between creating a run and its
  first snapshot leaves a run that every later execution with the same inputs refuses (`Prepare` and `Execute` say
  when such a run arises and that it is refused; `ExecuteDespiteCrashes` that no schedule ever completes it).
- Dropping a tail of the journal is not detected (`ChainedPrefix`), and the file backend, which ignores the
  sequence number, breaks its own chain when two appends race (`UnkeyedAppendsBreakTheChain`).
- A plan can be published more than once: by requests that overlap, both reading that there is no record
  (`OverlappingRequestsCallTwice`); after a request that died between the call and its record; and after an error
  that `publish` does not catch (`UncaughtErrorIsCalledAgain`). There is at most one call if and only if at most one of
  the requests that looked up before the first save went on to call (`AtMostOneCallIff`); one request at a time loses
  a call only to such a death or error (`OneAtATime`); and from any moment on there are no more calls if and only if
  nobody has read "none" without calling yet and, while there is no record, no request is left that may look up
  (`CallsAreOverIff`).
- A dry-run or denied record for a plan ID is kept for ever, so a later publish of that plan never calls the
  publisher (`PublicationService.Publish`).

## Model

| member | source | states |
|---|---|---|
| Scoring.ScoreRemediation | backend/lou/scoring/rules.py:121-161 | one pass over the weights computes the capped risk with the migration floor, the confidence, the unknown inputs and whether the floor was applied |
| Scoring.DebtScoreMonotone | backend/lou/scoring/rules.py:59-118 | debt risk and confidence stay in the unit interval, and learning an unknown observation lowers neither, although interest is scaled by principal |
| Scoring.RemediationScoreMonotone | backend/lou/scoring/rules.py:121-161 | remediation risk and confidence stay in the unit interval; learning an unknown observation never raises the risk, even through the migration floor, and never lowers the confidence |
| ScoringFeatures.RemediationRiskIsWeighted | backend/lou/scoring/rules.py:121-161 | remediation risk is the weighted sum of eight risks, a protective observation counting by what it lacks, an unknown one as the worst, and irreversibility at least one half unless migrations are ruled out; the cap never binds |
| ScoringFeatures.DebtRiskIsWeighted | backend/lou/scoring/rules.py:59-100 | debt risk is half the weighted principal plus half its weighted growth |
| ScoringFeatures.RiskFollowsFeature | backend/lou/scoring/rules.py:35-35 | raising a protective observation never raises the risk, raising any other never lowers it, and what measures the evidence leaves it alone |
| ScoringFeatures.RiskExtremes | backend/lou/scoring/rules.py:121-161 | the risk is zero if and only if all eight observations are known and as safe as can be, and one if and only if each is unknown or as bad as can be |
| ScoringFeatures.ScoreSays | backend/lou/scoring/rules.py:121-161 | the score names exactly the unknown observations, and the floor is reported if and only if reversibility is known to exceed one half while a migration is possible |
| ScoringFeatures.ConfidenceExtremes | backend/lou/scoring/rules.py:140-148 | confidence is full if and only if everything was observed with full context and evidence, and zero if and only if nothing was or one of them is missing or worth nothing |
| ScoringFeatures.ConfidencePerObservation | backend/lou/scoring/rules.py:140-148 | each observation adds an eighth of context times evidence |
| ScoringFeatures.DebtConfidencePerObservation | backend/lou/scoring/rules.py:93-101 | each debt observation adds a seventh of the evidence confidence |
| Autonomy.LevelIsMinimumOfCeilings | backend/lou/decision/autonomy.py:62-396 | the level is at most the policy ceiling and every failed gate's ceiling, and is three or attained by one of them |
| Autonomy.LevelThreeIffEveryGate | backend/lou/decision/autonomy.py:62-396 | level three if and only if the policy allows it and every gate passed |
| Autonomy.LevelThreeCertifies | backend/lou/decision/autonomy.py:187-387 | at level three every verdict shown passed for exactly this run, patch hash, attempt and fix commit, the patch is the job's, the fix descends from the candidate, and every required workload has a verdict |
| AutonomyLevels.LevelsRequire | backend/lou/decision/autonomy.py:43-396 | a recommendation, a patch and a pull request are each reached if and only if the policy allows them, no identity fails, and the listed bounds on debt, confidence, risk, site, patch and verdicts hold |
| AutonomyLevels.IdentityFailuresSay | backend/lou/decision/autonomy.py:282-376 | a failure is recorded under a code if and only if what the code compares is missing or differs |
| AutonomyLevels.ActionSaysLevel | backend/lou/decision/autonomy.py:399-406 | report, recommend, generate a patch and open a pull request are exactly the levels zero to three |
| AutonomyDecision.DecisionRun.AddGate | backend/lou/decision/autonomy.py:65-80 | the `gate` closure records the gate and keeps the level the least ceiling of the failed gates |
| AutonomyDecision.DecisionRun.CompareIdentity | backend/lou/decision/autonomy.py:284-286 | a missing or differing value is recorded as a failure, equal present values are not |
| AutonomyDecision.DecisionRun.CompareResults | backend/lou/decision/autonomy.py:348-359 | every verdict is compared on phase, run, patch hash, attempt and commit, in order |
| AutonomyDecision.DecideAutonomy | backend/lou/decision/autonomy.py:21-398 | the closures compute exactly the decision the lemmas of `Autonomy` and `AutonomyMonotone` are about: gates in order, failures in order, level and action |
| AutonomyMonotone.PassedGatesStayPassed | backend/lou/decision/autonomy.py:62-387 | replacing missing observations by measured values turns no gate but the policy ceiling from passed to failed; after an assessment the gates are the same ones in the same order |
| AutonomyMonotone.MeasuringNeverLowersLevel | backend/lou/decision/autonomy.py:43-396 | replacing missing debt or remediation observations by any measured values never lowers the level |
| DiffParser.FileState.Content | backend/lou/agents/patch_validation.py:140-156 | a content line goes to exactly one list, moves the counters it must, ends the hunk at zero and reports a surplus |
| DiffParser.FileState.Hunk | backend/lou/agents/patch_validation.py:182-195 | a hunk header resets the counters to its declared counts, or is refused inside an open hunk |
| DiffParser.FileState.Header | backend/lou/agents/patch_validation.py:157-198 | what a line outside hunk content does to one file, branch by branch |
| DiffParser.FinishFile | backend/lou/agents/patch_validation.py:102-119 | the errors of closing a file, in order |
| DiffParser.Advance | backend/lou/agents/patch_validation.py:123-198 | one turn of the loop: the open file is updated in place, closed or replaced, as the raw line and the remaining counters decide |
| DiffParser.Parse | backend/lou/agents/patch_validation.py:97-202 | the mutable pass returns exactly the files and errors of the line-by-line meaning used by the two theorems below |
| DiffRoundTrip.ParseInvertsPrint | backend/lou/agents/patch_validation.py:97-202 | any nonempty list of well-formed file patches, with content free to look like any header, is printed and parsed back without errors and with the same paths, hunks, added, removed and context lines |
| DiffCounts.ErrorFreeParseConsumesDeclared | backend/lou/agents/patch_validation.py:97-202 | without errors there is a file, and per file the declared old counts sum to removed plus context and the declared new counts to added plus context |
| DiffLines.ErrorFreeParseAccountsForLines | backend/lou/agents/patch_validation.py:97-202 | without errors the lines of the diff, joined again, are the diff, and each has one shape and one file: collected in order in one list, or a git, path or hunk header, metadata, the marker, a binary notice or what follows it; each comes where its shape may, a content line only while its hunk owes it, and the files are exactly what their lines say |
| PatchValidation.ValidatePatch | backend/lou/agents/patch_validation.py:232-361 | the accumulated reasons and parsed files are those of the reason list that `AcceptedIff` characterises, or none if a rule raises |
| PatchValidation.RaisesIff | backend/lou/agents/patch_validation.py:219-229 | validation raises if and only if a file-system rule does on a file of the diff, whatever else is wrong with the patch |
| PatchValidation.AcceptedIff | backend/lou/agents/patch_validation.py:232-361 | accepted if and only if base, hash, parse, both budgets, the summary and every rule are right and no rule raises |
| PatchValidation.AcceptedHandoff | backend/lou/agents/patch_validation.py:248-281 | an accepted patch has no reason, at least one file, the expected base and the hash of its own bytes |
| PatchValidation.ReasonsSay | backend/lou/agents/patch_validation.py:232-361 | the reasons are exactly those the identity, the parse, the budgets, the summary and the rules give, each once |
| PatchValidation.FilesSay | backend/lou/agents/patch_validation.py:349-360 | an accepted patch reports its parsed files in order, each with its own counts and under its new path if it has one |
| Orchestration.RequiredWorkloadIds | backend/lou/agents/orchestration.py:102-112 | a trusted plan is accepted if and only if it is a nonempty, duplicate-free list without an empty ID, and duplicates in an otherwise good list are their own error |
| OrchestrationInvariant.StartInv | backend/lou/agents/orchestration.py:238-244 | a new state satisfies the invariant |
| OrchestrationInvariant.StepInv | backend/lou/agents/orchestration.py:330-513 | every step keeps the invariant; it raises if and only if it has budget left and building the context bundle, at `context`, or a file-system rule, at `validate`, does |
| OrchestrationInvariant.HandoffIsAccepted | backend/lou/agents/orchestration.py:132-142 | at `verify` the cursor equals the number of current verdicts and is below the plan length, and the request is about an accepted patch of this run, base and bytes, in the current attempt, so it is never refused |
| OrchestrationOutcomes.ForeignIsRefused | backend/lou/agents/orchestration.py:330-335 | a snapshot is refused for its inputs if and only if its run or its fingerprint is another one |
| OrchestrationOutcomes.OnlyTimeStopsEntry | backend/lou/agents/orchestration.py:338-345 | a reachable stage before `decide` begins unless the time is up, and then only the time budget is pending |
| OrchestrationOutcomes.ContextLeadsOn | backend/lou/agents/orchestration.py:347-366 | a new attempt has a new bundle, one more attempt counted, and nothing of the attempt before but verdicts and hashes |
| OrchestrationOutcomes.DiagnoseLeadsOn | backend/lou/agents/orchestration.py:368-397 | the call leads to `patch` if and only if it succeeded within all three budgets; failure and pending reason each under their own condition |
| OrchestrationOutcomes.PatchLeadsOn | backend/lou/agents/orchestration.py:368-397 | the call leads to `validate` if and only if it succeeded with diff and artifact within all three budgets; failure and pending reason each under their own condition |
| OrchestrationOutcomes.ValidateLeadsOn | backend/lou/agents/orchestration.py:399-428 | the patch goes to the verifier if and only if its hash is new, it is this run's and it is accepted; a repeated hash is pending, and the failure says which condition broke first |
| OrchestrationOutcomes.VerifyLeadsOn | backend/lou/agents/orchestration.py:430-476 | the verdict is recorded and the next workload follows unless it was the last or time is up; a foreign verdict, else the first that did not pass, becomes the failure |
| OrchestrationOutcomes.DecideLeadsOn | backend/lou/agents/orchestration.py:478-513 | an attempt is retried if and only if nothing is pending, attempts are left, the decision is to generate a patch and it did not succeed at level two; verified, declined, out of attempts and the pending reason each have their exact condition, and the log entry is the failure, the reason or success |
| OrchestrationOutcomes.RunEndsAs | backend/lou/agents/orchestration.py:478-513 | the last step of a run decides under these conditions; it is out of attempts only if every one was used, and verified only if every planned workload passed for the final patch |
| OrchestrationOutcomes.PassedMeansVerified | backend/lou/agents/orchestration.py:481-497 | an attempt with nothing failed and nothing pending has a passing verdict per planned workload, in plan order |
| OrchestrationOutcomes.StrengthSays | backend/lou/scoring/observed.py:76-91 | verification strength is the share of planned workloads with a passing verdict: one if and only if all have one, zero if and only if none |
| OrchestrationOutcomes.MeasuredSays | backend/lou/agents/orchestration.py:271-286 | a decision measures the size of an accepted patch and the verification strength and leaves every other observation as it was |
| OrchestrationOutcomes.FixCommitSays | backend/lou/agents/orchestration.py:303-304 | the fix commit is the one that every current verdict names |
| OrchestrationOutcomes.EvidenceSays | backend/lou/agents/orchestration.py:288-322 | a decision weighs the accepted patch and its bytes, the trusted inputs, the current attempt and the fix commit, each present exactly under its condition |
| OrchestrationRuns.StepMoves | backend/lou/agents/orchestration.py:330-513 | which stage follows which, and how attempts, the outcome log, remembered patch hashes (an accepted one is its artifact's), verdicts and cursor move at each |
| OrchestrationRuns.StepDecreases | backend/lou/agents/orchestration.py:347-513 | the measure of steps left falls with every step |
| OrchestrationRuns.RunIsBounded | backend/lou/agents/orchestration.py:515-525 | a run has at most `maxAttempts * (5 + workloads)` steps and at most `maxAttempts` attempts |
| OrchestrationRuns.OverspendIsOneCall | backend/lou/agents/orchestration.py:249-266 | a run over its token or cost limit got there by one provider call, calls nobody afterwards and ends with a budget reason |
| OrchestrationRuns.VerifiedPatchesAreFresh | backend/lou/agents/orchestration.py:409-428 | two attempts never hand the verifier the same patch hash or the same bytes |
| OrchestrationRuns.AttemptLogIsComplete | backend/lou/agents/orchestration.py:481-497 | at the end the outcomes are numbered one to the attempt count |
| OrchestrationRuns.RunAdvances | backend/lou/agents/orchestration.py:330-513 | positions made of attempt, stage, cursor and outcome count strictly rise along a run |
| OrchestrationMachine.OrchestrationState.AccountFor | backend/lou/agents/orchestration.py:259-266 | usage is added first, then the exceeded budget becomes pending |
| OrchestrationMachine.OrchestrationState.BeginAttempt | backend/lou/agents/orchestration.py:347-366 | a new attempt clears proposal, verdicts, cursor and failure |
| OrchestrationMachine.OrchestrationState.CallDiagnosis | backend/lou/agents/orchestration.py:368-397 | the diagnosis call, its accounting and its next stage |
| OrchestrationMachine.OrchestrationState.CallPatch | backend/lou/agents/orchestration.py:368-397 | the patch call, its accounting and its next stage |
| OrchestrationMachine.OrchestrationState.ValidateProposal | backend/lou/agents/orchestration.py:399-428 | validation, the duplicate check, the recorded hash and the run check, in that order |
| OrchestrationMachine.OrchestrationState.VerifyNext | backend/lou/agents/orchestration.py:430-476 | one verdict for the workload at the cursor, its identity check and the budget check |
| OrchestrationMachine.OrchestrationState.DecideAttempt | backend/lou/agents/orchestration.py:478-513 | the attempt decision on current verdicts, the logged outcome, the end of the run and the final decision on all verdicts |
| OrchestrationMachine.RemediationOrchestrator.Begin | backend/lou/agents/orchestration.py:238-244 | a fresh state object with the start values |
| OrchestrationMachine.RemediationOrchestrator.Advance | backend/lou/agents/orchestration.py:330-513 | one step on a copy; the previous object is unchanged and the result is that of the step function |
| OrchestrationMachine.RemediationOrchestrator.Run | backend/lou/agents/orchestration.py:515-525 | from any reachable boundary the loop takes a bounded path of steps, each on the next answers, and ends stopped or at a step that raises because the context bundle or a file-system rule does |
| FixVerifiers.FixVerifier.Verify | backend/lou/verification/fix.py:92-109 | verdict and cache are those of the specification and honest: a refused request runs nothing and is inconclusive, a diff that cannot be encoded raises and leaves the cache alone, a first request carries what its run concluded and a cached one what the run that filled its key did; the workloads complete exactly once per cached attempt and patch |
| FixVerifiers.VerifiedIsHonest | backend/lou/verification/fix.py:92-126 | an answer has the status and commit that running the workloads concluded for this attempt and patch, now or when its key was filled; a refused request is inconclusive about the candidate commit |
| FixVerifiers.StatusOf | backend/lou/verification/fix.py:304-318 | an attempt passes if and only if its fix compared no worse than the baseline and the candidate worse than the fix, and is inconclusive if and only if a comparison is or it stopped early without a failure |
| FixVerifiers.VerifiedEchoes | backend/lou/verification/fix.py:92-126 | every answer to a request that names its own attempt and bytes echoes run, phase, workload, patch hash and attempt, from the cache and on refusal too |
| FixVerifiers.ReachableRequestsAreEchoed | backend/lou/agents/orchestration.py:430-455 | requests built by a reachable orchestrator meet the conditions under which answers echo them |
| Publication.PublicationIsSafe | backend/lou/application/publication.py:140-151 | a publishable run is fully verified in plan order and holds no verdict that did not pass for the published patch, run, attempt and fix commit |
| Publication.PublishedVerdictsAreFinal | backend/lou/application/publication.py:140-151 | if every verdict echoed its request, the verdicts of a publishable run are exactly its final attempt's |
| Publication.GateOpensIff | backend/lou/application/publication.py:140-151 | for a run a dry run is allowed if and only if it ended as verified, and publishing if and only if its final decision is also level three |
| PublishedRuns.FixVerifierEchoes | backend/lou/verification/fix.py:92-126 | a run whose verdicts come from the verifier, with a new one after any restart, only gets verdicts that echo their requests |
| PublishedRuns.PublishedAfterOneVerifiedAttempt | backend/lou/application/publication.py:140-151 | with that verifier behind it, a publishable run's verdicts are exactly its final attempt's |
| PublishedRuns.PublishedPatchPassed | backend/lou/verification/fix.py:92-109 | with that verifier, at some step of a publishable run every planned workload was run on exactly the published bytes for the final attempt and compared no worse than the baseline, and the candidate worse, on the commit the verdicts name |
| PublishedRuns.PublishedPatchIsBounded | backend/lou/decision/autonomy.py:138-195 | a publishable patch changes fewer than 160 lines of a site known to be covered, reversible, bounded and free of migrations, and answers an observed regression |
| PublishedRuns.VerifiedAttemptAgreesIff | backend/lou/decision/autonomy.py:282-376 | the decision on a fully verified attempt finds no identity failure if and only if its verdicts name one commit that descends from the candidate and the candidate's verdict is about this run and commit |
| PublishedRuns.StoredRunIsSafe | backend/lou/application/publication.py:97-115 | if the gate opens for the stored snapshot of a run, the stored run succeeded, is fully verified in plan order and holds no verdict about other bytes |
| Publication.PublicationService.Save | backend/lou/application/publication.py:163-188 | the first record of a plan is kept for ever |
| Publication.PublicationService.PlanDryRun | backend/lou/application/publication.py:68-72 | a dry run records whether a verified patch exists and calls nobody |
| Publication.PublicationService.Publish | backend/lou/application/publication.py:74-95 | one request at a time: nothing happens without the acknowledgement; with it the publisher is called exactly when the gate is open and the plan has no record; every call is recorded, or lost to a crash before its record or to an error that is not caught |
| PublicationConcurrency.NextInv | backend/lou/application/publication.py:68-95 | every move of every request keeps the count of calls, the fit of each request to the record, and the one writer of the record, which never changes |
| PublicationConcurrency.HistoryInv | backend/lou/application/publication.py:163-188 | under any interleaving the first record of a plan is kept for ever |
| PublicationConcurrency.CallsAreReadersThatWentOn | backend/lou/application/publication.py:86-95 | the publisher is called once for each request that looked up before the first save and went on; one that looked up then and did not call has yet to, or died |
| PublicationConcurrency.AtMostOneCallIff | backend/lou/application/publication.py:86-95 | at most one call if and only if at most one of the requests that looked up before the first save went on; once all did, if and only if at most one looked up then |
| PublicationConcurrency.EveryCallIsAccountedFor | backend/lou/application/publication.py:91-95 | the calls are the recorded one and those still to be saved, answered with another request's record, raised, beaten by the unique plan ID, or dead |
| PublicationConcurrency.CallsAreOverIff | backend/lou/application/publication.py:86-95 | whatever anyone does the publisher is not called again if and only if nobody has read "none" without calling and, while there is no record, no request is left that may look up |
| PublicationConcurrency.OneAtATime | backend/lou/application/publication.py:74-95 | without overlap every finished call is recorded, or its error propagated or its request died |
| PublicationConcurrency.AloneIsPublish | backend/lou/application/publication.py:74-95 | the moves of one request with nobody's in between have the effect stated for `PublicationService.Publish` |
| PublicationConcurrency.OverlappingRequestsCallTwice | backend/lou/application/publication.py:86-95 | two overlapping requests make two calls and leave one record, and nobody dies |
| PublicationConcurrency.UncaughtErrorIsCalledAgain | backend/lou/application/publication.py:91-95 | after an error that is not caught the next request calls again, without any overlap |
| RemediationRuns.AuditKeysDistinct | backend/lou/application/remediation_runs.py:211-226 | no two transitions of a run share an audit key |
| RemediationRuns.RowsAreInAttemptOrder | backend/lou/persistence/repositories.py:586-598 | listing a stored run's rows by attempt number returns them in the order of writing, the failure row included |
| RemediationRuns.StatusSays | backend/lou/application/remediation_runs.py:188-191 | a stored run succeeded if and only if it stopped as verified, was abandoned if and only if it stopped otherwise, and failed if and only if its last row is about a step that raised |
| RemediationRuns.RowRecordsItsStep | backend/lou/application/remediation_runs.py:194-245 | each audit row records its own step: stage, outcome, proposed patch, and the response or validation if and only if that step made it |
| RemediationRuns.AppliedIff | backend/lou/persistence/repositories.py:645-675 | a snapshot is stored unless its costs are negative or a run that has ended would change its status |
| RemediationRuns.RunStore.CreateOrGet | backend/lou/persistence/repositories.py:467-507 | one run per request; a second caller gets the stored run |
| RemediationRuns.RunStore.SaveSnapshot | backend/lou/persistence/repositories.py:514-543 | the record takes the snapshot's counters, or nothing changes |
| RemediationRuns.RunStore.AppendAttempt | backend/lou/persistence/repositories.py:679-706 | a key is written once; the same row again changes nothing; another row under the key is a conflict |
| RemediationRuns.RunStore.PersistStage | backend/lou/persistence/repositories.py:549-584 | snapshot and audit row are stored together or not at all |
| RemediationExecution.PersistTransition | backend/lou/application/remediation_runs.py:108-125 | never conflicts on a reachable run; appends exactly one boundary and one row |
| RemediationExecution.SaveFailure | backend/lou/application/remediation_runs.py:127-151 | keeps the last good snapshot and appends one failure row |
| RemediationExecution.Prepare | backend/lou/application/remediation_runs.py:63-90 | create, restore, refuse or only report, each if and only if its condition holds; dying right after creation leaves a run without a snapshot |
| RemediationExecution.Execute | backend/lou/application/remediation_runs.py:50-106 | stored boundaries stay a path of `step` and are never rewritten; the process dies exactly after the given number of effects and never if left alone for the longest run; it refuses if and only if inputs differ or no snapshot was saved; otherwise it reaches the end or records the step that raised |
| RemediationExecution.UnfinishedIsShorter | backend/lou/application/remediation_runs.py:79-106 | a run that has not stopped has fewer boundaries than the longest execution has effects |
| CrashRecovery.CrashesAreInvisible | backend/lou/application/remediation_runs.py:79-106 | two complete runs of a deterministic driver from one start, stopped or raising, have the same boundaries and audit rows |
| CrashRecovery.ExecuteDespiteCrashes | backend/lou/application/remediation_runs.py:50-106 | executing again after every crash: a schedule that survives the first snapshot and ends with a long enough execution returns, and what is stored and returned is the complete run, with one more row if a step raised; a schedule that does not survive it never returns |
| Journal.VerifyChain | backend/lou/deployment/service.py:124-135 | accepted if and only if every record names its predecessor's hash and hashes its own body |
| Journal.ChainsAgree | backend/lou/deployment/service.py:113-135 | accepted chains with the same last hash are equal |
| Journal.TamperingIsRejected | backend/lou/deployment/service.py:124-135 | any change before an unchanged last record is rejected |
| Journal.ChainedPrefix | backend/lou/deployment/service.py:124-135 | every prefix of an accepted chain is accepted |
| Journal.Get | backend/lou/deployment/service.py:61-80 | a journal is read if and only if it is empty or an accepted chain that begins with its release |
| Journal.ViewGrows | backend/lou/deployment/service.py:395-403 | appending keeps the release and the evidence and never lowers the status |
| Journal.ViewSays | backend/lou/deployment/service.py:395-403 | the status is the most severe outcome recorded and the decision the last one recorded |
| JournalConcurrency.NextIsSafe | backend/lou/deployment/adapters.py:128-161 | every move of every writer keeps the table safe and only appends |
| JournalConcurrency.ConcurrentJournalIsSafe | backend/lou/deployment/service.py:82-148 | after any interleaving rows are numbered from zero, form an accepted chain bound to one release, and extend every earlier and every stale read; the status never falls |
| JournalConcurrency.AloneWrites | backend/lou/deployment/service.py:82-148 | with nobody's moves in between a writer appends its evidence if and only if a release of its run and commit exists and the ID is new, and creates the journal if and only if there is none |
| JournalConcurrency.UnkeyedAppendsBreakTheChain | backend/lou/deployment/service.py:171-175 | two racing appends without a unique key leave a rejected chain |
| JournalConcurrency.JournalTable.Write | backend/lou/deployment/adapters.py:145-161 | the unique key turns a lost race into an error and leaves the table alone |
| CanaryPolicy.EvaluateCanary | backend/lou/deployment/policy.py:10-67 | promotes if and only if validation passed, telemetry is fresh, sufficient, complete and within objectives, both links are confirmed and the window is over; rolls back if and only if validation failed or a measured objective is breached |
| DeploymentService.ConfirmRuns | backend/lou/deployment/service.py:200-221 | keeps, in order, exactly the IDs the lookup knows as passed verifications of this run and commit |
| DeploymentService.ConfirmTraces | backend/lou/deployment/service.py:223-242 | keeps, in order, exactly the IDs the lookup knows as traces of this run and commit with observations |
| DeploymentService.PromotedFollowsObserved | backend/lou/deployment/service.py:285-328 | in a safe history a `promoted` record closes validated, observed, promote, promoted with nothing in between |
| DeploymentService.JournalShowsWhyPromoted | backend/lou/deployment/service.py:285-328 | in the journal alone, `promoted` directly follows its observation, which directly follows the validated record with confirmed runs |
| DeploymentService.RollbackDoesNotStopReleaseIff | backend/lou/deployment/service.py:244-260 | after a rollback `release` deploys again if and only if no `released` event was recorded |
| DeploymentService.RolledBackThenDeployed | backend/lou/deployment/service.py:244-260 | the service driven through a release that dies early, a manual rollback and a second release: the adapter deploys although the status is rolled back |
| DeploymentService.PromoteCallIsJustified | backend/lou/deployment/service.py:317-328 | the adapter promotes only directly after an observation that decided it on confirmed traces and runs |
| DeploymentService.OutcomesFollowDecisions | backend/lou/deployment/service.py:317-344 | in a safe history a recorded outcome directly follows its call, a pause directly an observation that decided it, and a rollback one that decided it unless it was made by hand |
| DeploymentService.StatusNeverFalls | backend/lou/deployment/service.py:395-403 | across any operations the release is fixed, the status never falls and rolled back is final |
| DeploymentService.DeploymentService.Append | backend/lou/deployment/service.py:95-111 | a missing release or evidence of another run or commit is an error, a repeated ID returns the view, anything else extends the chain by itself unless the process dies; justified records keep the history safe |
| DeploymentService.DeploymentService.CallAdapter | backend/lou/deployment/adapters.py:182-187 | any call is noted once, or the process dies; a justified one keeps the history safe |
| DeploymentService.DeploymentService.StartRelease | backend/lou/deployment/service.py:244-260 | refuses other environments and changed inputs; a release already deployed is only reported, any other is deployed and recorded as far as the process lives |
| DeploymentService.DeploymentService.Observe | backend/lou/deployment/service.py:262-328 | records the confirmed runs, then the decision with the confirmed traces, then calls and records the outcome, as far as the process lives; the call rolls back if and only if validation failed or a measured objective is breached, promotes if and only if everything needed is confirmed, and else pauses |
| DeploymentService.DeploymentService.RollBack | backend/lou/deployment/service.py:330-344 | rolls back by hand and records who and why, once; no other operation does |
| ImpactGraph.WalksStayWithin | backend/lou/repository/traversal.py:213-238 | a walk from a changed node ends no farther away than it is long |
| ImpactGraph.NextStepsIff | backend/lou/repository/traversal.py:213-238 | a step is returned if and only if an edge allows it: out of a function or class along five types, out of an endpoint to what validates it, or against a call; in order of target and type |
| Traversal.NoShorterWalk | backend/lou/repository/traversal.py:184-205 | no walk of allowed steps reaches a returned node in fewer steps than its distance |
| Traversal.ReturnedIff | backend/lou/repository/traversal.py:156-210 | unless cut off, a node is returned if and only if a changed node reaches it by a walk within the depth |
| Traversal.Expand | backend/lou/repository/traversal.py:188-205 | expanding one node keeps reached nodes exact and the queue in two levels, and reports the cap only with something nearer or level missing |
| Traversal.Traverse | backend/lou/repository/traversal.py:156-210 | every node has its true distance, a real path of that length and the least confidence along it; nothing missing is closer; the limit is reported if and only if more nodes lie within depth than allowed; otherwise the result is all of them |
| Symbols.IndexSymbols | backend/lou/repository/symbols.py:209-242 | the explicit-stack walk finds the definitions of the recursive preorder, in order, with the same ordinals and kinds |
| Symbols.GraphBuilder.Visit | backend/lou/repository/graph.py:582-660 | the recursive walk defines its keys in order and flags exactly those among the changed symbols |
| Symbols.WalksAgreeIn | backend/lou/repository/symbols.py:209-242 | in a named scope both walks find the same definitions with the same names, ordinals and lines |
| Symbols.TwoWalksAgreeIff | backend/lou/repository/graph.py:582-662 | both walks assign the same keys in the same order if and only if the module name is nonempty or nothing is defined |
| Symbols.FlaggedAreExtractedIff | backend/lou/repository/graph.py:582-608 | the flagged keys are exactly the extracted ones among the changed symbols, whatever changed, if and only if the module name is nonempty or nothing is defined |
| SymbolKeys.KeysAreDistinct | backend/lou/repository/symbols.py:216-221 | all keys of a module are distinct however names repeat and nest |
| SymbolKinds.SymbolsAreDefinitions | backend/lou/repository/symbols.py:209-242 | the symbols are exactly the definitions of the tree, with their lines; a function is a method if and only if the nearest definition around it is a class, and it is named in that definition's symbol or in the module |
| SymbolKinds.OrdinalsCount | backend/lou/repository/symbols.py:216-221 | symbols of one name in one scope are numbered from one in the order they are found |
| LineOwnership.PaintOwners | backend/lou/repository/symbols.py:238 | slices overwritten in order give each line the last definition that covers it, and the list keeps its length |
| LineOwnership.OwnersAreInnermost | backend/lou/repository/symbols.py:204-243 | for nested definitions the owner of a line is the deepest definition covering it, or the module if none does |
| LineOwnership.ExtendThroughComments | backend/lou/repository/symbols.py:246-262 | the extension ends at the last suite comment of the run of blank lines and deeper comments, and no earlier |
| LineOwnership.StrippedSays | backend/lou/repository/symbols.py:254-257 | stripping removes leading blanks, tabs and form feeds and nothing else, and a line is blank if and only if it holds only those |
| LineOwnership.SuiteCommentIff | backend/lou/repository/symbols.py:254-261 | a suite comment is blanks and then a number sign, indented deeper than its definition |
| LineOwnership.IndentationSays | backend/lou/repository/symbols.py:265-277 | a blank moves one column on, a tab to the next multiple of eight, a form feed back to the start, and the rest of the line does not count |
| ExtendedOwnership.InnerEndsWithin | backend/lou/repository/symbols.py:246-262 | a definition inside another, indented at least as far, is not extended past it |
| ExtendedOwnership.ExtendingKeepsNesting | backend/lou/repository/symbols.py:231-235 | nested definitions that begin with code stay nested when each is extended through its trailing comments |
| ExtendedOwnership.ExtendedOwnersAreInnermost | backend/lou/repository/symbols.py:204-243 | so with comments included a line's owner is the deepest definition covering it, or the module if none does |
| WorkloadPlanner.PlanWorkloads | backend/lou/repository/workloads.py:462-596 | the loops compute the plan the lemmas below are about: duplicate and unregistered requests, the greedy selection, sorted omissions, state and confidence |
| WorkloadPlanner.PlanWithinBudget | backend/lou/repository/workloads.py:538-567 | both budgets hold, the recorded cost is the cost of the selection, and selected and omitted entries add up |
| WorkloadPlanner.EveryEntryIsAccountedFor | backend/lou/repository/workloads.py:501-567 | every entry is either selected or omitted and never both, and nothing else is |
| WorkloadPlanner.RequestsAreAccountedFor | backend/lou/repository/workloads.py:482-498 | an ID is reported as a duplicate if and only if it was requested twice, and as unregistered if and only if it was requested or a fallback and the registry lacks it |
| WorkloadPlanner.ConfidenceFollowsCompleteness | backend/lou/repository/workloads.py:576-578 | the plan's confidence is the completeness, half of it for fallbacks, and zero for an incomplete graph without any |
| WorkloadChoice.MatchEntryIff | backend/lou/repository/workloads.py:644-685 | an entry matches if and only if the graph selected its ID or says something nonblank that equals, begins with or contains up to case the value of one of its criteria |
| WorkloadChoice.MatchReasonSays | backend/lou/repository/workloads.py:644-677 | the reason of a match is the graph's own for the matched value, if it gave one, and never empty |
| WorkloadChoice.LastEntryIff | backend/lou/repository/workloads.py:501-567 | an entry is selected if and only if it may run and there is room after what was selected before it, and else omitted for want of room, evidence or a complete graph |
| WorkloadChoice.EntriesAreOrdered | backend/lou/repository/workloads.py:473-476 | entries are planned by priority, then tests, static analysis, custom checks and load tests, then by ID |
| WorkloadChoice.OmissionsAreOrdered | backend/lou/repository/workloads.py:586-586 | the omissions are listed by ID and then category, each one the plan made and none else |
| WorkloadChoice.PlanStateSays | backend/lou/repository/workloads.py:688-699 | unless the budget is exhausted, the state says whether the graph was complete and whether anything was selected |
| Replanning.ReplanningIsStable | backend/lou/application/live.py:128-135 | planning again on the rewritten context selects the same workloads, in order, with the same reasons and confidence, if no criterion reads what was written back |
| Replanning.ExhaustedIff | backend/lou/repository/workloads.py:688-699 | the budget is reported as exhausted if and only if the registry holds a candidate and no candidate is affordable even alone |
| Replanning.StateSurvivesReplanningIff | backend/lou/repository/workloads.py:688-699 | the plan state survives planning again unless, and only unless, the graph is complete, no entry matches it, entries were requested by ID and none of those is affordable |
| Replanning.ForgottenRequests | backend/lou/application/live.py:128-135 | in that case the first plan reports an exhausted budget and the second nothing applicable |
| Replanning.ReplanningMayForget | backend/lou/application/live.py:128-135 | a registry and a context on which that happens |
| Replanning.ReplanningMayAdd | backend/lou/repository/workloads.py:644-660 | a registry that reads selected IDs can select more the second time |

## Left out

- FixVerifiers.FixVerifier.Verify: an attempt either stops early or yields the verdicts of its two comparisons, as one arbitrary answer per call; worktrees, Docker, k6 and the comparisons themselves are external effects.
- PatchValidation.ValidatePatch: secret, path, symlink, dependency, workflow and test-skip rules are arbitrary answers per text and file, because each is settled by reading one pattern; a rule about a file may also raise, and resolving the repository root is taken not to.
- DiffParser.Parse: the line feed is the only line break and only ASCII digits count in hunk headers; the language's other line breaks and digits are not modelled.
- DiffRoundTrip.ParseInvertsPrint: paths in a `diff --git` header contain no spaces, because the parser splits that line at spaces.
- Orchestration.RequiredWorkloadIds: the decision's ID, the context bundle's content and the provider's timeout are not part of the snapshot.
- OrchestrationMachine.RemediationOrchestrator.Run: provider threads and timeouts are not modelled; a provider answer is an arbitrary response.
- Scoring.ScoreRemediation: scores are exact reals, so rounding of floats is not modelled.
- RemediationExecution.Execute: one stored run per deduplication key and one executor at a time; snapshots are stored as values (dump and validate are the identity) and digests of keys are replaced by what they are computed over.
- RemediationRuns.RunStore.PersistStage: a transaction happens completely or not at all; timestamps, the truncation of error texts and run IDs are left out.
- Publication.PublicationService.Publish: the plan's body and the report's hash are left out, a plan ID is an arbitrary text, and one request runs at a time (`PublicationConcurrency` has the others).
- PublicationConcurrency.HistoryInv: one plan ID's requests; a database error other than the unique key ends a request as its death does.
- JournalConcurrency.ConcurrentJournalIsSafe: one release ID's rows; a database error other than the unique key is a move that changes nothing.
- DeploymentService.DeploymentService.Observe: evidence metadata, collection times and UUIDs are left out; evidence IDs are fresh numbers, and both lookups answer from one set of facts per call.
- Traversal.Traverse: other diagnostics and the completeness of the snapshot are passed through by the source and left out; nodes and edges are a given graph.
- Symbols.GraphBuilder.Visit: endpoints, edges and the separate stable keys of tests are left out; only keys, counts and the changed flag are modelled.
- Symbols.IndexSymbols: the scan for the first decorator line is left out; a definition's lines and the indentation it begins with are given by the tree.
- LineOwnership.PaintOwners: painting is a second loop over the entries of the stack walk, where the source paints while it walks.
- WorkloadPlanner.PlanWorkloads: the wording of omission reasons, the echoed limits and the unresolved graph information are left out; `casefold` and the number format are parameters.
- Observability, the API and command line, the frontend, report rendering, load tests, sandboxes and the demo scripts: adapters and external effects.
- Context-bundle budgets, telemetry sanitising, prediction evaluation, settings and error types: they would only add easy members.
