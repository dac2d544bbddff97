/** The publication gate joined to the verifier behind a run and to the run as it is stored. */
module PublishedRuns {
  import opened Common
  import opened Contracts
  import opened Orchestration
  import opened OrchestrationInvariant
  import opened OrchestrationRuns
  import opened OrchestrationOutcomes
  import opened Publication
  import opened RemediationRuns
  import Autonomy
  import AutonomyLevels
  import FixVerifiers
  import Scoring

  // ----- a run verified by `FixVerifier`

  /** One verifier call of the run: the verdict is what `verify` answers from this cache, if running the workloads
      concludes `ran`; the next step finds the cache it left, or an empty one after a restart. */
  predicate AnsweredByVerifier(c: FixVerifiers.Config, before: FixVerifiers.Cache, after: FixVerifiers.Cache,
                               r: Request, ran: FixVerifiers.RunOutcome, verdict: VerifierAnswer)
  {
    var (answer, left) := FixVerifiers.Verified(c, before, r, ran);
    (after == left || after == map[]) && answer == (if verdict.Answered? then Some(verdict.result) else None)
  }

  predicate CanRequest(o: Setup, s: Snapshot)
    requires Composed(o)
  {
    HasProposal(s) && s.validation.Some? && s.cursor < |Required(o)|
  }

  /** `caches[i]` is the verifier's cache before step `i` and `rans[i]` what running the workloads in it would conclude;
      a process that resumes the run starts with an empty cache. */
  ghost predicate VerifiedRun(o: Setup, c: FixVerifiers.Config, path: seq<Snapshot>, answers: seq<Answers>,
                              caches: seq<FixVerifiers.Cache>, rans: seq<FixVerifiers.RunOutcome>)
    requires Composed(o)
  {
    && c.sha == o.sha && |path| == |caches| == |answers| + 1 && |rans| == |answers| && caches[0] == map[]
    && forall i :: 0 <= i < |answers| ==>
         if CallsVerifier(path[i], answers[i])
         then CanRequest(o, path[i])
              && AnsweredByVerifier(c, caches[i], caches[i + 1], RequestAt(o, path[i]), rans[i],
                                    answers[i].verdict)
         else caches[i + 1] == caches[i] || caches[i + 1] == map[]
  }

  lemma {:induction false} CachesAreGood(o: Setup, c: FixVerifiers.Config, path: seq<Snapshot>, answers: seq<Answers>,
                                         caches: seq<FixVerifiers.Cache>, rans: seq<FixVerifiers.RunOutcome>, i: nat)
    requires Composed(o) && VerifiedRun(o, c, path, answers, caches, rans) && i < |path|
    ensures FixVerifiers.GoodCache(c, caches[i])
    decreases i
  {
    hide FixVerifiers.GoodCache, FixVerifiers.Verified, Required, RequestAt;
    EmptyCacheIsGood(c);
    if i > 0 {
      CachesAreGood(o, c, path, answers, caches, rans, i - 1);
      if CallsVerifier(path[i - 1], answers[i - 1]) {
        VerdictEchoes(o, c, caches[i - 1], caches[i], RequestAt(o, path[i - 1]), rans[i - 1],
                      answers[i - 1].verdict);
      }
    }
  }

  lemma EmptyCacheIsGood(c: FixVerifiers.Config)
    ensures FixVerifiers.GoodCache(c, map[])
  {
  }

  lemma VerdictEchoes(o: Setup, c: FixVerifiers.Config, before: FixVerifiers.Cache, after: FixVerifiers.Cache,
                      r: Request, ran: FixVerifiers.RunOutcome, verdict: VerifierAnswer)
    requires FixVerifiers.GoodCache(c, before) && AnsweredByVerifier(c, before, after, r, ran, verdict)
    ensures FixVerifiers.GoodCache(c, after)
    ensures verdict.Answered? && FixVerifiers.WellAddressed(c, r) ==> Echoes(r, verdict.result)
  {
    hide FixVerifiers.GoodCache, FixVerifiers.Verified, FixVerifiers.WellAddressed, Echoes;
    EmptyCacheIsGood(c);
    FixVerifiers.VerifiedEchoes(c, before, r, ran);
  }

  /** A run whose verdicts come from `FixVerifier` only ever gets verdicts that echo their requests. */
  lemma FixVerifierEchoes(o: Setup, c: FixVerifiers.Config, path: seq<Snapshot>, answers: seq<Answers>,
                          caches: seq<FixVerifiers.Cache>, rans: seq<FixVerifiers.RunOutcome>)
    requires IsRun(o, path, answers) && VerifiedRun(o, c, path, answers, caches, rans)
    ensures VerifierEchoes(o, path, answers)
  {
    hide Step, Echoes, Required, RequestAt, FixVerifiers.GoodCache, AnsweredByVerifier, Inv;
    forall i | 0 <= i < |answers| && CallsVerifier(path[i], answers[i]) && answers[i].verdict.Answered?
               && CanRequest(o, path[i])
      ensures Echoes(RequestAt(o, path[i]), answers[i].verdict.result)
    {
      RunInv(o, path, answers, i);
      CachesAreGood(o, c, path, answers, caches, rans, i);
      FixVerifiers.ReachableRequestsAreEchoed(o, path[i]);
      VerdictEchoes(o, c, caches[i], caches[i + 1], RequestAt(o, path[i]), rans[i], answers[i].verdict);
    }
  }

  /** With `FixVerifier` behind the run, a publishable run's only verdicts are its final attempt's: no earlier
      attempt ever got one. */
  lemma PublishedAfterOneVerifiedAttempt(o: Setup, c: FixVerifiers.Config, path: seq<Snapshot>, answers: seq<Answers>,
                                         caches: seq<FixVerifiers.Cache>, rans: seq<FixVerifiers.RunOutcome>)
    requires IsRun(o, path, answers) && VerifiedRun(o, c, path, answers, caches, rans)
    requires path[|answers|].stage == Stopped && PublishAllowed(path[|answers|])
    ensures path[|answers|].allResults == path[|answers|].currentResults
  {
    hide Step;
    FixVerifierEchoes(o, c, path, answers, caches, rans);
    PublishedVerdictsAreFinal(o, path, answers);
  }

  // ----- what a published run rests on

  /** At step `i` the workloads were run for this key, and concluded this. */
  ghost predicate RanAt(o: Setup, c: FixVerifiers.Config, path: seq<Snapshot>, answers: seq<Answers>,
                        caches: seq<FixVerifiers.Cache>, rans: seq<FixVerifiers.RunOutcome>, i: nat,
                        key: FixVerifiers.Key, conclusion: FixVerifiers.Conclusion)
    requires Composed(o) && VerifiedRun(o, c, path, answers, caches, rans)
  {
    && i < |answers| && CallsVerifier(path[i], answers[i]) && CanRequest(o, path[i]) && rans[i].Some?
    && FixVerifiers.KeyOf(RequestAt(o, path[i])) == key && key !in caches[i]
    && FixVerifiers.Addressed(c, RequestAt(o, path[i]))
    && conclusion == FixVerifiers.ConclusionOf(RequestAt(o, path[i]), rans[i])
  }

  /** The conclusions of the runs up to step `i`, as the cache of step `i` holds them. */
  ghost function ConcludedBy(o: Setup, c: FixVerifiers.Config, path: seq<Snapshot>, answers: seq<Answers>,
                             caches: seq<FixVerifiers.Cache>, rans: seq<FixVerifiers.RunOutcome>, i: nat)
    : FixVerifiers.Conclusions
    requires Composed(o) && VerifiedRun(o, c, path, answers, caches, rans) && i < |path|
  {
    if i == 0 || caches[i] == map[] then map[]
    else
      var before := ConcludedBy(o, c, path, answers, caches, rans, i - 1);
      if CallsVerifier(path[i - 1], answers[i - 1])
      then FixVerifiers.Concludes(c, before, RequestAt(o, path[i - 1]), rans[i - 1])
      else before
  }

  lemma NothingRests(c: FixVerifiers.Config)
    ensures FixVerifiers.RestsOn(c, map[], map[])
  {
  }

  lemma SameKeys(c: FixVerifiers.Config, cache: FixVerifiers.Cache, concluded: FixVerifiers.Conclusions,
                 key: FixVerifiers.Key)
    requires FixVerifiers.RestsOn(c, cache, concluded)
    ensures key in cache <==> key in concluded
  {
  }

  lemma {:induction false} CachesRestOnRuns(o: Setup, c: FixVerifiers.Config, path: seq<Snapshot>,
                                            answers: seq<Answers>, caches: seq<FixVerifiers.Cache>,
                                            rans: seq<FixVerifiers.RunOutcome>, i: nat)
    requires Composed(o) && VerifiedRun(o, c, path, answers, caches, rans) && i < |path|
    ensures FixVerifiers.RestsOn(c, caches[i], ConcludedBy(o, c, path, answers, caches, rans, i))
    ensures forall key :: key in ConcludedBy(o, c, path, answers, caches, rans, i) ==>
              exists j :: 0 <= j < i && RanAt(o, c, path, answers, caches, rans, j, key,
                                              ConcludedBy(o, c, path, answers, caches, rans, i)[key])
    decreases i
  {
    hide FixVerifiers.Verified, Required, RequestAt, FixVerifiers.Addressed, FixVerifiers.RestsOn;
    NothingRests(c);
    if i > 0 && caches[i] != map[] {
      CachesRestOnRuns(o, c, path, answers, caches, rans, i - 1);
      var before := ConcludedBy(o, c, path, answers, caches, rans, i - 1);
      if CallsVerifier(path[i - 1], answers[i - 1]) {
        var r := RequestAt(o, path[i - 1]);
        FixVerifiers.VerifiedIsHonest(c, caches[i - 1], before, r, rans[i - 1]);
        SameKeys(c, caches[i - 1], before, FixVerifiers.KeyOf(r));
        if FixVerifiers.MustRun(c, before, r) && rans[i - 1].Some? {
          assert RanAt(o, c, path, answers, caches, rans, i - 1, FixVerifiers.KeyOf(r),
                       FixVerifiers.ConclusionOf(r, rans[i - 1]));
        }
      }
    }
  }

  /** Every verdict of a run was answered at one of its steps. */
  lemma {:induction false} VerdictsAreAnswers(o: Setup, path: seq<Snapshot>, answers: seq<Answers>, n: nat,
                                              r: VerificationResult)
    requires IsRun(o, path, answers) && n < |path| && r in path[n].allResults
    ensures exists i :: 0 <= i < n && CallsVerifier(path[i], answers[i]) && answers[i].verdict == Answered(r)
    decreases n
  {
    hide Step, Inv;
    if n > 0 {
      RunInv(o, path, answers, n - 1);
      PathStep(o, path, answers, n - 1);
      StepMoves(o, path[n - 1], answers[n - 1]);
      AnswerOrBefore(o, path[n - 1], path[n], answers[n - 1], r);
      if r in path[n - 1].allResults {
        VerdictsAreAnswers(o, path, answers, n - 1, r);
      }
    }
  }

  lemma AnswerOrBefore(o: Setup, s: Snapshot, t: Snapshot, a: Answers, r: VerificationResult)
    requires Composed(o) && Moves(s, t, a, |Required(o)|) && s.stage != Stopped && r in t.allResults
    ensures r in s.allResults || (CallsVerifier(s, a) && a.verdict == Answered(r))
  {
    hide Required, Runs;
  }

  /** From handing a patch to the verifier on, an attempt keeps its proposal. */
  ghost predicate KeepsProposal(s: Snapshot, t: Snapshot) {
    s.attemptCount < t.attemptCount
    || (s.attemptCount == t.attemptCount && t.proposal == s.proposal && t.stage in {Verify, Decide, Context, Stopped})
  }

  lemma StepKeepsProposal(o: Setup, s: Snapshot, t: Snapshot, a: Answers)
    requires Composed(o) && Inv(o, t) && KeepsProposal(s, t) && t.stage != Stopped && Step(o, t, a).Ok?
    ensures KeepsProposal(s, Step(o, t, a).value)
  {
    StepMoves(o, t, a);
    if t.stage in {Verify, Decide, Context} {
      SameProposal(o, t, a);
    }
    hide Step, Inv, Required, Runs, Remembers;
  }

  lemma SameProposal(o: Setup, t: Snapshot, a: Answers)
    requires Composed(o) && Step(o, t, a).Ok? && t.stage in {Verify, Decide, Context}
    ensures Step(o, t, a).value.proposal == t.proposal
            || Step(o, t, a).value.attemptCount == t.attemptCount + 1
  {
    hide DecisionOn, StepValidate, StepDiagnose, StepPatch, Required, CheckIdentity;
  }

  lemma {:induction false} RunKeepsProposal(o: Setup, path: seq<Snapshot>, answers: seq<Answers>, i: nat, j: nat)
    requires IsRun(o, path, answers) && i <= j < |path| && path[i].stage == Verify
    ensures KeepsProposal(path[i], path[j])
    decreases j
  {
    hide Step, Inv;
    if i < j {
      RunKeepsProposal(o, path, answers, i, j - 1);
      RunInv(o, path, answers, j - 1);
      PathStep(o, path, answers, j - 1);
      StepKeepsProposal(o, path[i], path[j - 1], answers[j - 1]);
    }
  }

  /** A conclusive verdict says what a run of the workloads for its request's key concluded. */
  lemma AnswerRestsOnRun(o: Setup, c: FixVerifiers.Config, path: seq<Snapshot>, answers: seq<Answers>,
                         caches: seq<FixVerifiers.Cache>, rans: seq<FixVerifiers.RunOutcome>, i: nat)
    requires Composed(o) && VerifiedRun(o, c, path, answers, caches, rans)
    requires i < |answers| && CallsVerifier(path[i], answers[i]) && answers[i].verdict.Answered?
    requires answers[i].verdict.result.status != Inconclusive
    ensures CanRequest(o, path[i]) && Required(o)[path[i].cursor] in c.selections
    ensures var r := answers[i].verdict.result;
            exists j: nat :: RanAt(o, c, path, answers, caches, rans, j, FixVerifiers.KeyOf(RequestAt(o, path[i])),
                                   FixVerifiers.Conclusion(r.status, r.commitSha))
  {
    hide FixVerifiers.Verified, Required, ConcludedBy;
    assert AnsweredByVerifier(c, caches[i], caches[i + 1], RequestAt(o, path[i]), rans[i], answers[i].verdict);
    var r, before := RequestAt(o, path[i]), ConcludedBy(o, c, path, answers, caches, rans, i);
    CachesRestOnRuns(o, c, path, answers, caches, rans, i);
    FixVerifiers.ConclusiveIsRun(c, caches[i], before, r, rans[i]);
    hide FixVerifiers.RestsOn, AnsweredByVerifier;
    var result := answers[i].verdict.result;
    if FixVerifiers.KeyOf(r) !in before || before[FixVerifiers.KeyOf(r)]
                                           != FixVerifiers.Conclusion(result.status, result.commitSha) {
      assert RanAt(o, c, path, answers, caches, rans, i, FixVerifiers.KeyOf(r),
                   FixVerifiers.Conclusion(result.status, result.commitSha));
    }
  }

  /** At some step the workloads were run on exactly the proposed bytes, for the current attempt, and on this commit
      compared no worse than the baseline while the candidate compared worse. */
  ghost predicate PassedOn(o: Setup, c: FixVerifiers.Config, path: seq<Snapshot>, answers: seq<Answers>,
                           caches: seq<FixVerifiers.Cache>, rans: seq<FixVerifiers.RunOutcome>, s: Snapshot,
                           commitSha: string)
    requires Composed(o) && VerifiedRun(o, c, path, answers, caches, rans) && HasProposal(s)
  {
    var key := FixVerifiers.Key(CurrentAttempt(s), s.proposal.value.patchArtifact.value.patchSha256);
    exists j: nat :: RanAt(o, c, path, answers, caches, rans, j, key, FixVerifiers.Conclusion(Passed, commitSha))
                     && rans[j] == Some(FixVerifiers.Compared(Passed, Failed, commitSha))
                     && RequestAt(o, path[j]).patchDiff == s.proposal.value.patchDiff.value
  }

  lemma PublishedVerdictPassed(o: Setup, c: FixVerifiers.Config, path: seq<Snapshot>, answers: seq<Answers>,
                               caches: seq<FixVerifiers.Cache>, rans: seq<FixVerifiers.RunOutcome>,
                               r: VerificationResult)
    requires IsRun(o, path, answers) && VerifiedRun(o, c, path, answers, caches, rans)
    requires path[|answers|].stage == Stopped && PublishAllowed(path[|answers|]) && r in path[|answers|].allResults
    ensures HasProposal(path[|answers|]) && r.workloadId.Some? && r.workloadId.value in c.selections
    ensures PassedOn(o, c, path, answers, caches, rans, path[|answers|], r.commitSha)
  {
    hide Step, Inv, Required, FixVerifiers.Addressed, PublishAllowed, RanAt, VerifiedRun;
    var n := |answers|;
    var s := path[n];
    PublicationIsSafe(o, path, answers);
    FixVerifierEchoes(o, c, path, answers, caches, rans);
    VerdictsAreAnswers(o, path, answers, n, r);
    var i :| 0 <= i < n && CallsVerifier(path[i], answers[i]) && answers[i].verdict == Answered(r);
    AnswerRestsOnRun(o, c, path, answers, caches, rans, i);
    var key := FixVerifiers.KeyOf(RequestAt(o, path[i]));
    var j: nat :| RanAt(o, c, path, answers, caches, rans, j, key, FixVerifiers.Conclusion(r.status, r.commitSha));
    KeyIsCurrent(o, s, path[i], r);
    RanOnCurrent(o, c, path, answers, caches, rans, j, r.commitSha);
  }

  /** A verdict about the current attempt and patch was asked for under their key. */
  lemma KeyIsCurrent(o: Setup, s: Snapshot, asked: Snapshot, r: VerificationResult)
    requires Composed(o) && HasProposal(s) && CanRequest(o, asked) && Echoes(RequestAt(o, asked), r)
    requires r.attemptId == Some(CurrentAttempt(s))
    requires r.patchSha256 == Some(s.proposal.value.patchArtifact.value.patchSha256)
    ensures FixVerifiers.KeyOf(RequestAt(o, asked))
            == FixVerifiers.Key(CurrentAttempt(s), s.proposal.value.patchArtifact.value.patchSha256)
  {
    hide Required;
  }

  /** What was run for the current attempt's key was run on the proposed bytes. */
  lemma RanOnCurrent(o: Setup, c: FixVerifiers.Config, path: seq<Snapshot>, answers: seq<Answers>,
                     caches: seq<FixVerifiers.Cache>, rans: seq<FixVerifiers.RunOutcome>, j: nat, commitSha: string)
    requires IsRun(o, path, answers) && VerifiedRun(o, c, path, answers, caches, rans)
    requires HasProposal(path[|answers|])
    requires var s := path[|answers|];
             RanAt(o, c, path, answers, caches, rans, j,
                   FixVerifiers.Key(CurrentAttempt(s), s.proposal.value.patchArtifact.value.patchSha256),
                   FixVerifiers.Conclusion(Passed, commitSha))
    ensures PassedOn(o, c, path, answers, caches, rans, path[|answers|], commitSha)
  {
    hide Step, Inv, Required, FixVerifiers.Addressed, VerifiedRun;
    RunKeepsProposal(o, path, answers, j, |answers|);
  }

  /** What publishing rests on: every planned workload was among those that were run on exactly the published bytes,
      for the final attempt, and on the commit that every verdict names the fix was measured to be no worse than the
      baseline and the candidate to be worse than the fix. */
  lemma PublishedPatchPassed(o: Setup, c: FixVerifiers.Config, path: seq<Snapshot>, answers: seq<Answers>,
                             caches: seq<FixVerifiers.Cache>, rans: seq<FixVerifiers.RunOutcome>)
    requires IsRun(o, path, answers) && VerifiedRun(o, c, path, answers, caches, rans)
    requires path[|answers|].stage == Stopped && PublishAllowed(path[|answers|])
    ensures forall w :: w in Required(o) ==> w in c.selections
    ensures var s := path[|answers|];
            HasProposal(s) && FixCommit(s.currentResults).Some?
            && PassedOn(o, c, path, answers, caches, rans, s, FixCommit(s.currentResults).value)
  {
    hide Step, Inv, Required, PassedOn;
    var s := path[|answers|];
    PublicationIsSafe(o, path, answers);
    PublishedAfterOneVerifiedAttempt(o, c, path, answers, caches, rans);
    SomeRequired(o);
    forall k | 0 <= k < |s.currentResults| ensures Required(o)[k] in c.selections {
      assert Matches(o, s, k);
      PublishedVerdictPassed(o, c, path, answers, caches, rans, s.currentResults[k]);
    }
    PublishedVerdictPassed(o, c, path, answers, caches, rans, s.currentResults[0]);
  }

  /** A published patch changes fewer than 160 lines of a site known to be covered, reversible, bounded and free of
      migrations, and answers a regression of the candidate that was observed. */
  lemma PublishedPatchIsBounded(o: Setup, path: seq<Snapshot>, answers: seq<Answers>)
    requires IsRun(o, path, answers) && path[|answers|].stage == Stopped && PublishAllowed(path[|answers|])
    ensures HasProposal(path[|answers|])
    ensures var patch, r := path[|answers|].proposal.value.patchArtifact.value, o.remediation;
            && 0 < patch.linesAdded + patch.linesDeleted < 160
            && (forall f: Scoring.RemediationFeature ::
                  f in {Scoring.Coverage, Scoring.Reversibility} ==> f in r && r[f] >= 0.80)
            && (forall f: Scoring.RemediationFeature ::
                  f in {Scoring.SchemaMigrationRisk, Scoring.DataMigrationRisk} ==> f in r && r[f] == 0.0)
            && (forall f: Scoring.RemediationFeature ::
                  f in {Scoring.BlastRadius, Scoring.Criticality} ==> f in r && r[f] < 0.80)
            && o.candidate.phase == Candidate && o.candidate.status == Failed
            && o.candidate.commitSha == o.job.candidateCommitSha
  {
    hide Step, DecisionOn, Inv;
    var s := path[|answers|];
    PublicationIsSafe(o, path, answers);
    DecidedOnEverything(o, path, answers);
    RunInv(o, path, answers, |answers|);
    var ancestry :| s.decision == Some(DecisionOn(o, s, s.allResults, ancestry));
    BoundedByDecision(o, s, ancestry);
  }

  lemma BoundedByDecision(o: Setup, s: Snapshot, ancestry: Autonomy.Ancestry)
    requires Composed(o) && HasProposal(s) && DecisionOn(o, s, s.allResults, ancestry).level >= 3
    ensures var patch, r := s.proposal.value.patchArtifact.value, o.remediation;
            && 0 < patch.linesAdded + patch.linesDeleted < 160
            && (forall f: Scoring.RemediationFeature ::
                  f in {Scoring.Coverage, Scoring.Reversibility} ==> f in r && r[f] >= 0.80)
            && (forall f: Scoring.RemediationFeature ::
                  f in {Scoring.SchemaMigrationRisk, Scoring.DataMigrationRisk} ==> f in r && r[f] == 0.0)
            && (forall f: Scoring.RemediationFeature ::
                  f in {Scoring.BlastRadius, Scoring.Criticality} ==> f in r && r[f] < 0.80)
            && o.candidate.phase == Candidate && o.candidate.status == Failed
            && o.candidate.commitSha == o.job.candidateCommitSha
  {
    var e := DecisionEvidence(o, s, s.allResults, ancestry);
    AutonomyLevels.PullRequestNeeds(e);
    MeasuredSays(o, e.patch, s.allResults);
    PatchSizeSays(e.patch.value);
    hide Measured, PatchSizeOf, Autonomy.DecisionOf;
  }

  predicate OneCommit(results: seq<VerificationResult>) {
    forall q, r :: q in results && r in results ==> q.commitSha == r.commitSha
  }

  /** The decision on a fully verified attempt finds no identity failure if and only if its verdicts name one commit
      that descends from the candidate and the candidate's own verdict is about this run and commit. */
  lemma VerifiedAttemptAgreesIff(o: Setup, s: Snapshot, ancestry: Autonomy.Ancestry)
    requires Composed(o) && Inv(o, s) && s.lastFailure == None && |s.currentResults| == |Required(o)|
    requires HasProposal(s) && s.proposal.value.patchDiff != Some("")
    ensures Autonomy.IdentityFailures(DecisionEvidence(o, s, s.currentResults, ancestry)) == [] <==>
              && OneCommit(s.currentResults) && ancestry == Autonomy.Descends
              && o.candidate.analysisRunId == s.analysisRunId
              && o.candidate.commitSha == o.job.candidateCommitSha
  {
    hide DecisionEvidence, Inv, Required, Autonomy.IdentityFailures, AutonomyLevels.Coherent, FixCommit;
    var e := DecisionEvidence(o, s, s.currentResults, ancestry);
    AttemptEvidence(o, s, ancestry);
    AutonomyLevels.CoherentAgreesIff(e, s.proposal.value.patchArtifact.value);
    var commit := s.currentResults[0].commitSha;
    FixCommitSays(s.currentResults, commit);
    assert s.currentResults[0] in s.currentResults;
  }

  /** What the decision on a fully verified attempt weighs. */
  lemma AttemptEvidence(o: Setup, s: Snapshot, ancestry: Autonomy.Ancestry)
    requires Composed(o) && Inv(o, s) && s.lastFailure == None && |s.currentResults| == |Required(o)|
    requires HasProposal(s) && s.proposal.value.patchDiff != Some("")
    ensures s.currentResults != []
    ensures var e, patch := DecisionEvidence(o, s, s.currentResults, ancestry), s.proposal.value.patchArtifact.value;
            && AutonomyLevels.Coherent(e, patch) && e.job == Some(o.job) && e.candidate == Some(o.candidate)
            && e.analysisRunId == s.analysisRunId && e.results == s.currentResults && e.ancestry == ancestry
            && e.fixCommit == FixCommit(s.currentResults)
  {
    VerifiedFacts(o, s);
    EvidenceSays(o, s, s.currentResults, ancestry);
    hide Inv, Required, Measured;
  }

  lemma VerifiedFacts(o: Setup, s: Snapshot)
    requires Composed(o) && Inv(o, s) && s.lastFailure == None && |s.currentResults| == |Required(o)|
    ensures s.currentResults != [] && HandedOff(o, s) && AcceptedIsSound(o, s) && s.analysisRunId == o.job.analysisRunId
    ensures o.job.plannedWorkloads == Some(Required(o)) && multiset(Required(o)) == multiset(set w | w in Required(o))
    ensures forall r :: r in s.currentResults ==>
              && r.phase == Fix && r.analysisRunId == s.analysisRunId && r.attemptId == Some(CurrentAttempt(s))
              && r.patchSha256 == Some(s.proposal.value.patchArtifact.value.patchSha256)
    ensures forall w :: w in Required(o) ==> AutonomyLevels.HasVerdict(s.currentResults, w)
  {
    SomeRequired(o);
    forall r | r in s.currentResults
      ensures r.phase == Fix && r.analysisRunId == s.analysisRunId && r.attemptId == Some(CurrentAttempt(s))
              && r.patchSha256 == Some(s.proposal.value.patchArtifact.value.patchSha256)
    {
      var i :| 0 <= i < |s.currentResults| && s.currentResults[i] == r;
      assert Matches(o, s, i);
    }
    DistinctMultiset(Required(o));
    forall w | w in Required(o) ensures AutonomyLevels.HasVerdict(s.currentResults, w) {
      var i :| 0 <= i < |Required(o)| && Required(o)[i] == w;
      assert Matches(o, s, i) && s.currentResults[i] in s.currentResults;
    }
  }

  lemma {:induction false} DistinctMultiset(xs: seq<string>)
    requires Distinct(xs)
    ensures multiset(xs) == multiset(set x | x in xs)
  {
    if xs != [] {
      DistinctMultiset(xs[1..]);
      assert xs == [xs[0]] + xs[1..];
      assert (set x | x in xs) == {xs[0]} + (set x | x in xs[1..]);
    }
  }

  // ----- the run as it is stored

  /** Publication reads the stored snapshot of a run; if the gate opens for it, that run is fully verified and
      nothing in it speaks about other bytes. */
  lemma StoredRunIsSafe(o: Setup, store: RunStore)
    requires Composed(o) && store.Valid(o) && store.run.Some? && store.run.value.snapshot.Some?
    requires PublishAllowed(store.run.value.snapshot.value)
    ensures var s := store.run.value.snapshot.value;
            && FullyVerified(o, s) && NothingElseRecorded(s) && store.run.value.status == RunSucceeded
            && s.proposal.value.patchArtifact.value.analysisRunId == o.job.analysisRunId
            && s.proposal.value.patchArtifact.value.baseCommitSha == o.job.candidateCommitSha
            && o.sha(s.proposal.value.patchDiff.value) == Some(s.proposal.value.patchArtifact.value.patchSha256)
  {
    hide Step, Audit, FullyVerified, NothingElseRecorded;
    RunInv(o, store.path, store.answers, |store.answers|);
    PublicationIsSafe(o, store.path, store.answers);
  }
}
