/** The independent verifier's request identity and per-attempt cache (`lou/verification/fix.py`). */
module FixVerifiers {
  import opened Common
  import opened Contracts
  import Orchestration
  import OrchestrationInvariant

  type Request = Orchestration.Request

  /** How an attempt at a patch ended: before its phases could be compared, as a failure or inconclusively, or with the
      verdicts of both comparisons, baseline to fix and fix to candidate, on the fix commit. */
  datatype Run = StoppedEarly(failed: bool, fixSha: Option<string>)
               | Compared(baselineToFix: Verdict, fixToCandidate: Verdict, commitSha: string)

  /** `None` when the attempt raised. */
  type RunOutcome = Option<Run>

  /** The verdict of an attempt. It passes only if the fix is no worse than the baseline and the candidate is worse than
      the fix. */
  function StatusOf(run: Run): (status: Verdict)
    ensures status == Passed <==> run.Compared? && run.baselineToFix == Passed && run.fixToCandidate == Failed
    ensures status == Inconclusive <==>
              if run.Compared? then Inconclusive in {run.baselineToFix, run.fixToCandidate} else !run.failed
  {
    match run
    case StoppedEarly(failed, _) => if failed then Failed else Inconclusive
    case Compared(baselineToFix, fixToCandidate, _) =>
      if baselineToFix == Inconclusive || fixToCandidate == Inconclusive then Inconclusive
      else if baselineToFix.Failed? then Failed
      else if fixToCandidate.Failed? then Passed
      else Failed
  }

  function FixShaOf(run: Run): Option<string> {
    match run
    case StoppedEarly(_, fixSha) => fixSha
    case Compared(_, _, commitSha) => Some(commitSha)
  }

  datatype IdentityReason =
    | AnalysisRunIdMismatch | BaseCommitMismatch | PatchHashMismatch | WorkloadIdMismatch | AttemptIdMismatch

  datatype Key = Key(attemptId: AttemptId, patchSha256: Hash)

  type Cache = map<Key, map<string, VerificationResult>>

  /** The selected workload IDs, in order, and the digest function. */
  datatype Config = Config(selections: seq<string>, sha: Digest)

  function KeyOf(r: Request): Key {
    Key(r.attemptId, r.artifact.patchSha256)
  }

  /** `_result` for one workload: without a fix commit the verdict names the candidate commit. */
  function ResultFor(sha: Digest, r: Request, workload: string, status: Verdict,
                     fixSha: Option<string>): VerificationResult
  {
    VerificationResult(r.job.analysisRunId, Fix,
                       if fixSha.Some? then fixSha.value else r.job.candidateCommitSha, status,
                       Some(workload), sha(r.patchDiff), Some(r.attemptId))
  }

  function Results(c: Config, r: Request, status: Verdict, fixSha: Option<string>): map<string, VerificationResult> {
    map w | w in c.selections :: ResultFor(c.sha, r, w, status, fixSha)
  }

  /** `_identity_reason`. */
  function IdentityReasonFor(c: Config, r: Request): Option<IdentityReason> {
    if r.artifact.analysisRunId != r.job.analysisRunId then Some(AnalysisRunIdMismatch)
    else if r.artifact.baseCommitSha != r.job.candidateCommitSha then Some(BaseCommitMismatch)
    else if c.sha(r.patchDiff) != Some(r.artifact.patchSha256) then Some(PatchHashMismatch)
    else if r.workloadId !in c.selections then Some(WorkloadIdMismatch)
    else if r.attemptId != AttemptId(r.job.analysisRunId, r.attemptCount) then Some(AttemptIdMismatch)
    else None
  }

  /** Everything but commit and status is fixed by the key and the workload. */
  predicate Binds(key: Key, workload: string, result: VerificationResult) {
    && result.analysisRunId == key.attemptId.analysisRunId && result.phase == Fix
    && result.workloadId == Some(workload) && result.patchSha256 == Some(key.patchSha256)
    && result.attemptId == Some(key.attemptId)
  }

  ghost predicate GoodCache(c: Config, cache: Cache) {
    forall key, w :: key in cache && w in c.selections ==> w in cache[key] && Binds(key, w, cache[key][w])
  }

  // ----- one verification, as a function of the cache

  /** The verdict (or `None` when `verify` raises) and the cache afterwards. A diff that cannot be encoded raises. A
      refused request runs nothing and is inconclusive; otherwise the workloads are run unless this attempt at this
      patch is already cached. */
  function Verified(c: Config, cache: Cache, r: Request, ran: RunOutcome): (Option<VerificationResult>, Cache) {
    if c.sha(r.patchDiff).None? then (None, cache)
    else if IdentityReasonFor(c, r).Some? then
      (if c.selections == [] then None
       else Some(ResultFor(c.sha, r, r.workloadId, Inconclusive, None)), cache)
    else if KeyOf(r) in cache then
      (if r.workloadId in cache[KeyOf(r)] then Some(cache[KeyOf(r)][r.workloadId]) else None, cache)
    else if ran.None? then (None, cache)
    else (Some(ResultFor(c.sha, r, r.workloadId, StatusOf(ran.value), FixShaOf(ran.value))),
          cache[KeyOf(r) := Results(c, r, StatusOf(ran.value), FixShaOf(ran.value))])
  }

  /** The request names its own attempt and its own bytes. */
  predicate WellAddressed(c: Config, r: Request) {
    && r.attemptId == AttemptId(r.job.analysisRunId, r.attemptCount)
    && c.sha(r.patchDiff) == Some(r.artifact.patchSha256)
  }

  /** Every answer to a request the orchestrator may build echoes its run, phase, workload, patch hash and
      attempt, even from the cache and even when the request itself is refused. */
  lemma VerifiedEchoes(c: Config, cache: Cache, r: Request, ran: RunOutcome)
    requires GoodCache(c, cache)
    ensures var (answer, after) := Verified(c, cache, r, ran);
            && GoodCache(c, after)
            && (answer.Some? && WellAddressed(c, r) ==> Orchestration.Echoes(r, answer.value))
            && (answer.Some? ==> answer.value.phase == Fix && answer.value.workloadId == Some(r.workloadId))
  {
    assert IdentityReasonFor(c, r).None? ==> r.job.analysisRunId == r.attemptId.analysisRunId;
  }

  // ----- what a verdict rests on

  /** What one run of the workloads concluded, and about which commit. */
  datatype Conclusion = Conclusion(status: Verdict, commitSha: string)

  type Conclusions = map<Key, Conclusion>

  /** The request is about this run's job, commit, bytes, attempt and one of the selected workloads. */
  predicate Addressed(c: Config, r: Request) {
    && r.artifact.analysisRunId == r.job.analysisRunId && r.artifact.baseCommitSha == r.job.candidateCommitSha
    && r.attemptId == AttemptId(r.job.analysisRunId, r.attemptCount)
    && c.sha(r.patchDiff) == Some(r.artifact.patchSha256) && r.workloadId in c.selections
  }

  /** The workloads have to run for this request. */
  predicate MustRun(c: Config, concluded: Conclusions, r: Request) {
    Addressed(c, r) && KeyOf(r) !in concluded
  }

  /** A run without a fix commit is about the candidate. */
  function ConclusionOf(r: Request, ran: RunOutcome): Conclusion
    requires ran.Some?
  {
    Conclusion(StatusOf(ran.value),
               if FixShaOf(ran.value).Some? then FixShaOf(ran.value).value else r.job.candidateCommitSha)
  }

  /** The runs concluded after this request. */
  function Concludes(c: Config, concluded: Conclusions, r: Request, ran: RunOutcome): Conclusions {
    if MustRun(c, concluded, r) && ran.Some? then concluded[KeyOf(r) := ConclusionOf(r, ran)] else concluded
  }

  /** Every cached verdict says what the run that filled its key concluded. */
  ghost predicate RestsOn(c: Config, cache: Cache, concluded: Conclusions) {
    && (forall key :: key in cache <==> key in concluded)
    && forall key, w :: key in cache && w in c.selections ==>
         && w in cache[key] && cache[key][w].status == concluded[key].status
         && cache[key][w].commitSha == concluded[key].commitSha
  }

  /** The answer says what the workloads concluded for this attempt at this patch, now or when its key was filled. A
      refused request is inconclusive about the candidate commit and one that cannot be encoded, has no workload to
      stand for it, or whose run raised gets no answer. */
  ghost predicate Honest(c: Config, concluded: Conclusions, r: Request, ran: RunOutcome,
                         answer: Option<VerificationResult>)
  {
    if c.sha(r.patchDiff) == None then answer == None
    else if !Addressed(c, r) then
      && (answer == None <==> c.selections == [])
      && (answer.Some? ==> answer.value.status == Inconclusive && answer.value.commitSha == r.job.candidateCommitSha)
    else
      var after := Concludes(c, concluded, r, ran);
      && (answer == None <==> MustRun(c, concluded, r) && ran == None)
      && (answer.Some? ==> KeyOf(r) in after && answer.value.status == after[KeyOf(r)].status
                           && answer.value.commitSha == after[KeyOf(r)].commitSha)
  }

  lemma VerifiedIsHonest(c: Config, cache: Cache, concluded: Conclusions, r: Request, ran: RunOutcome)
    requires RestsOn(c, cache, concluded)
    ensures var (answer, after) := Verified(c, cache, r, ran);
            Honest(c, concluded, r, ran, answer) && RestsOn(c, after, Concludes(c, concluded, r, ran))
  {
    assert IdentityReasonFor(c, r).None? <==> Addressed(c, r);
  }

  /** An answer that is not inconclusive is what running the workloads concludes for this very request, or concluded
      when its key was filled. */
  lemma ConclusiveIsRun(c: Config, cache: Cache, concluded: Conclusions, r: Request, ran: RunOutcome)
    requires RestsOn(c, cache, concluded)
    requires Verified(c, cache, r, ran).0.Some? && Verified(c, cache, r, ran).0.value.status != Inconclusive
    ensures Addressed(c, r)
    ensures var answer := Verified(c, cache, r, ran).0.value;
            var conclusion := Conclusion(answer.status, answer.commitSha);
            || (KeyOf(r) !in cache && ran.Some? && conclusion == ConclusionOf(r, ran))
            || (KeyOf(r) in concluded && conclusion == concluded[KeyOf(r)])
  {
    VerifiedIsHonest(c, cache, concluded, r, ran);
    hide Verified, Addressed;
  }

  class FixVerifier {
    const c: Config
    var cache: Cache
    ghost var completed: seq<Key>
    ghost var concluded: Conclusions

    /** The workloads completed exactly once for every cached attempt at a patch, and for no other, and every cached
        verdict says what they concluded. */
    ghost predicate Valid()
      reads this
    {
      && GoodCache(c, cache) && RestsOn(c, cache, concluded)
      && Distinct(completed) && forall key :: key in completed <==> key in cache
    }

    constructor (c: Config)
      ensures Valid() && this.c == c && cache == map[]
    {
      this.c, cache, completed, concluded := c, map[], [], map[];
    }

    /** `verify`. `ran` is what running the workloads would conclude, if this request runs them. */
    method Verify(r: Request, ran: RunOutcome) returns (answer: Option<VerificationResult>)
      requires Valid()
      modifies this
      ensures Valid() && (answer, cache) == Verified(c, old(cache), r, ran)
      ensures Honest(c, old(concluded), r, ran, answer) && concluded == Concludes(c, old(concluded), r, ran)
      ensures completed == if cache == old(cache) then old(completed) else old(completed) + [KeyOf(r)]
    {
      hide RestsOn, Honest, Concludes;
      VerifiedEchoes(c, cache, r, ran);
      VerifiedIsHonest(c, cache, concluded, r, ran);
      concluded := Concludes(c, concluded, r, ran);
      if c.sha(r.patchDiff).None? {
        return None;
      }
      if IdentityReasonFor(c, r).Some? {
        if r.workloadId in c.selections {
          return Some(ResultFor(c.sha, r, r.workloadId, Inconclusive, None));
        }
        if c.selections == [] {
          return None;
        }
        var representative := ResultFor(c.sha, r, c.selections[0], Inconclusive, None);
        return Some(representative.(workloadId := Some(r.workloadId)));
      }
      var key := KeyOf(r);
      if key !in cache {
        if ran.None? {
          return None;
        }
        cache := cache[key := Results(c, r, StatusOf(ran.value), FixShaOf(ran.value))];
        completed := completed + [key];
      }
      answer := Some(cache[key][r.workloadId]);
    }
  }

  /** Every request a reachable orchestrator builds meets the conditions under which answers echo it. */
  lemma ReachableRequestsAreEchoed(o: Orchestration.Setup, s: Orchestration.Snapshot)
    requires Orchestration.Composed(o) && OrchestrationInvariant.Inv(o, s) && s.stage == Orchestration.Verify
    ensures s.cursor < |Orchestration.Required(o)| && Orchestration.HasProposal(s) && s.validation.Some?
    ensures var r := Orchestration.RequestAt(o, s);
            && r.attemptId == AttemptId(r.job.analysisRunId, r.attemptCount)
            && o.sha(r.patchDiff) == Some(r.artifact.patchSha256)
  {
    OrchestrationInvariant.HandoffChecks(o, s);
  }
}
