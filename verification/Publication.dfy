/** The publication gate over whole runs, and the record kept per plan with every publisher call accounted for
    (`lou/application/publication.py`). */
module Publication {
  import opened Common
  import opened Contracts
  import opened Orchestration
  import opened OrchestrationInvariant
  import opened OrchestrationRuns
  import opened OrchestrationOutcomes
  import Autonomy
  import AutonomyLevels

  // ----- the gate

  predicate DryRunAllowed(s: Snapshot) {
    s.termination == Some(Verified) && s.decision.Some? && HasProposal(s)
  }

  predicate PublishAllowed(s: Snapshot) {
    && DryRunAllowed(s)
    && s.decision.value.action == Autonomy.OpenPr && s.decision.value.level >= 3
  }

  // ----- what the final decision was about

  lemma DecisionIgnoresBookkeeping(o: Setup, s: Snapshot, t: Snapshot, results: seq<VerificationResult>,
                                   ancestry: Autonomy.Ancestry)
    requires Composed(o)
    requires t.analysisRunId == s.analysisRunId && t.proposal == s.proposal && t.validation == s.validation
    requires t.currentResults == s.currentResults && t.attemptCount == s.attemptCount
    ensures DecisionEvidence(o, t, results, ancestry) == DecisionEvidence(o, s, results, ancestry)
  {
  }

  /** The decision a stopped run carries weighed every verdict of the run. */
  lemma DecidedOnEverything(o: Setup, path: seq<Snapshot>, answers: seq<Answers>)
    requires IsRun(o, path, answers) && path[|answers|].stage == Stopped
    ensures var s := path[|answers|];
            exists ancestry :: s.decision == Some(DecisionOn(o, s, s.allResults, ancestry))
  {
    hide Step, Inv, DecisionOn, Logged, EndsAs;
    RunEndsAs(o, path, answers);
    var n := |answers|;
    var s, t, ancestry := path[n - 1], path[n], answers[n - 1].finalAncestry;
    DecisionSurvives(o, s, t, ancestry);
    assert t.decision == Some(DecisionOn(o, t, t.allResults, ancestry));
  }

  lemma DecisionSurvives(o: Setup, s: Snapshot, t: Snapshot, ancestry: Autonomy.Ancestry)
    requires Composed(o) && t.analysisRunId == s.analysisRunId && t.proposal == s.proposal
    requires t.validation == s.validation && t.currentResults == s.currentResults && t.allResults == s.allResults
    requires t.attemptCount == s.attemptCount
    ensures DecisionOn(o, t, t.allResults, ancestry) == DecisionOn(o, s, s.allResults, ancestry)
  {
    DecisionIgnoresBookkeeping(o, s, t, t.allResults, ancestry);
    hide DecisionEvidence, Autonomy.DecisionOf;
  }

  // ----- safety of publication

  /** One passed verdict per planned workload, in plan order, about the published patch. */
  ghost predicate FullyVerified(o: Setup, s: Snapshot)
    requires Composed(o)
  {
    |s.currentResults| == |Required(o)| && forall i :: 0 <= i < |s.currentResults| ==> Matches(o, s, i)
  }

  /** Every verdict the run ever recorded passed and names the published patch and the final attempt. */
  ghost predicate NothingElseRecorded(s: Snapshot) {
    HasProposal(s) && forall r :: r in s.allResults ==>
      && r.status == Passed && r.phase == Fix && r.analysisRunId == s.analysisRunId
      && r.patchSha256 == Some(s.proposal.value.patchArtifact.value.patchSha256)
      && r.attemptId == Some(CurrentAttempt(s))
      && FixCommit(s.currentResults) == Some(r.commitSha)
  }

  lemma CertifiedDecision(o: Setup, s: Snapshot, ancestry: Autonomy.Ancestry)
    requires Composed(o) && AcceptedIsSound(o, s)
    requires DecisionOn(o, s, s.allResults, ancestry).level == 3
    ensures NothingElseRecorded(s) && ancestry.Descends? && Accepted(s) && o.policyMax == 3
  {
    var e := DecisionEvidence(o, s, s.allResults, ancestry);
    CertifiedEvidence(e);
  }

  lemma CertifiedEvidence(e: Autonomy.Evidence)
    requires Autonomy.DecisionOf(e).level == 3
    ensures Autonomy.PolicyMax(e) == 3 && Autonomy.Certified(e)
  {
    Autonomy.LevelThreeCertifies(e);
  }

  /** The publisher is only ever offered a run whose final attempt is fully verified and in which no
      verdict was recorded that did not pass for exactly the published bytes. */
  lemma PublicationIsSafe(o: Setup, path: seq<Snapshot>, answers: seq<Answers>)
    requires IsRun(o, path, answers) && path[|answers|].stage == Stopped && PublishAllowed(path[|answers|])
    ensures var s := path[|answers|];
            && FullyVerified(o, s) && NothingElseRecorded(s)
            && o.sha(s.proposal.value.patchDiff.value) == Some(s.proposal.value.patchArtifact.value.patchSha256)
            && s.proposal.value.patchArtifact.value.analysisRunId == o.job.analysisRunId
            && s.proposal.value.patchArtifact.value.baseCommitSha == o.job.candidateCommitSha
            && o.policyMax == 3
  {
    hide Step, DecisionOn, Concludes;
    var s := path[|answers|];
    RunInv(o, path, answers, |answers|);
    RunEndsAs(o, path, answers);
    DecidedOnEverything(o, path, answers);
    var ancestry :| s.decision == Some(DecisionOn(o, s, s.allResults, ancestry));
    CertifiedDecision(o, s, ancestry);
  }

  /** A dry run is allowed exactly for a run that ended as verified, and publishing exactly for one whose final decision
      is level three besides. */
  lemma GateOpensIff(o: Setup, path: seq<Snapshot>, answers: seq<Answers>)
    requires IsRun(o, path, answers)
    ensures var s := path[|answers|];
            && (DryRunAllowed(s) <==> s.stage == Stopped && s.termination == Some(Verified))
            && (PublishAllowed(s) <==>
                  s.stage == Stopped && s.termination == Some(Verified) && s.decision.value.level == 3)
  {
    hide Step, DecisionOn, Concludes;
    var s := path[|answers|];
    RunInv(o, path, answers, |answers|);
    TerminatedIsStopped(o, s);
    if s.stage == Stopped {
      RunEndsAs(o, path, answers);
      DecidedOnEverything(o, path, answers);
      var ancestry :| s.decision == Some(DecisionOn(o, s, s.allResults, ancestry));
      ActionOfDecision(o, s, s.allResults, ancestry);
      if s.termination == Some(Verified) {
        SomeRequired(o);
        assert Matches(o, s, 0);
      }
    }
  }

  lemma TerminatedIsStopped(o: Setup, s: Snapshot)
    requires Composed(o) && Inv(o, s)
    ensures s.termination.Some? <==> s.stage == Stopped
    ensures s.stage == Stopped ==> s.decision.Some?
  {
  }

  lemma ActionOfDecision(o: Setup, s: Snapshot, results: seq<VerificationResult>, ancestry: Autonomy.Ancestry)
    requires Composed(o)
    ensures var d := DecisionOn(o, s, results, ancestry);
            d.level <= 3 && (d.action == Autonomy.OpenPr <==> d.level == 3)
  {
    AutonomyLevels.ActionSaysLevel(DecisionEvidence(o, s, results, ancestry));
    hide DecisionEvidence, Autonomy.DecisionOf;
  }

  // ----- with a verifier that echoes its requests

  ghost predicate VerifierEchoes(o: Setup, path: seq<Snapshot>, answers: seq<Answers>)
    requires Composed(o) && IsPath(o, path, answers)
  {
    forall i :: 0 <= i < |answers| && CallsVerifier(path[i], answers[i]) && answers[i].verdict.Answered?
                && HasProposal(path[i]) && path[i].validation.Some? && path[i].cursor < |Required(o)|
      ==> Echoes(RequestAt(o, path[i]), answers[i].verdict.result)
  }

  /** Verdicts from earlier attempts name earlier attempts. */
  ghost predicate AttemptsSeparated(s: Snapshot) {
    && |s.currentResults| <= |s.allResults|
    && forall i :: 0 <= i < |s.allResults| - |s.currentResults| ==>
         s.allResults[i].attemptId.Some? && s.allResults[i].attemptId.value.attempt < s.attemptCount
  }

  ghost predicate CurrentEchoed(s: Snapshot) {
    forall r :: r in s.currentResults ==> r.attemptId == Some(CurrentAttempt(s))
  }

  lemma SeparatedStep(o: Setup, s: Snapshot, a: Answers)
    requires Composed(o) && Inv(o, s) && s.stage != Stopped && Step(o, s, a).Ok?
    requires AttemptsSeparated(s) && CurrentEchoed(s)
    requires s.stage == Verify && Runs(s, a.now) && a.verdict.Answered? ==> Echoes(RequestAt(o, s), a.verdict.result)
    ensures AttemptsSeparated(Step(o, s, a).value) && CurrentEchoed(Step(o, s, a).value)
  {
    hide Step, Required, AcceptedIsSound, HandedOff, Budgeted, Distinct, AttemptsSeparated, CurrentEchoed;
    StepInv(o, s, a);
    StepMoves(o, s, a);
    SeparatedMove(o, s, Step(o, s, a).value, a);
  }

  lemma SeparatedMove(o: Setup, s: Snapshot, t: Snapshot, a: Answers)
    requires Composed(o) && s.stage != Stopped && Moves(s, t, a, |Required(o)|) && t.analysisRunId == s.analysisRunId
    requires AttemptsSeparated(s) && CurrentEchoed(s)
    requires s.allResults[|s.allResults| - |s.currentResults|..] == s.currentResults
    requires s.stage == Verify && Runs(s, a.now) && a.verdict.Answered? ==>
               a.verdict.result.attemptId == Some(CurrentAttempt(s))
    ensures AttemptsSeparated(t) && CurrentEchoed(t)
  {
    hide Required, Runs;
    var k := |s.allResults| - |s.currentResults|;
    if s.stage == Context && Runs(s, a.now) {
      assert s.allResults == s.allResults[..k] + s.currentResults;
      forall i | 0 <= i < |t.allResults|
        ensures t.allResults[i].attemptId.Some? && t.allResults[i].attemptId.value.attempt < t.attemptCount
      {
        assert i >= k ==> s.allResults[i] == s.currentResults[i - k];
      }
    }
  }

  lemma {:induction false} RunSeparates(o: Setup, path: seq<Snapshot>, answers: seq<Answers>, i: nat)
    requires IsRun(o, path, answers) && VerifierEchoes(o, path, answers) && i < |path|
    ensures AttemptsSeparated(path[i]) && CurrentEchoed(path[i])
    decreases i
  {
    hide Step;
    if i > 0 {
      RunSeparates(o, path, answers, i - 1);
      RunInv(o, path, answers, i - 1);
      PathStep(o, path, answers, i - 1);
      SeparatedStep(o, path[i - 1], answers[i - 1]);
    }
  }

  /** With such a verifier a published run's only verdicts are the final attempt's. */
  lemma PublishedVerdictsAreFinal(o: Setup, path: seq<Snapshot>, answers: seq<Answers>)
    requires IsRun(o, path, answers) && VerifierEchoes(o, path, answers)
    requires path[|answers|].stage == Stopped && PublishAllowed(path[|answers|])
    ensures path[|answers|].allResults == path[|answers|].currentResults
  {
    hide Step;
    var s := path[|answers|];
    PublicationIsSafe(o, path, answers);
    RunInv(o, path, answers, |answers|);
    RunSeparates(o, path, answers, |answers|);
    assert forall i :: 0 <= i < |s.allResults| ==> s.allResults[i].attemptId == Some(CurrentAttempt(s));
    if s.allResults != [] {
      var first := s.allResults[0];
      assert first.attemptId == Some(CurrentAttempt(s));
    }
  }

  // ----- the service

  type PlanId = string

  datatype Status = DryRun | Published | Denied | PublisherFailed

  datatype Record = Record(status: Status, reference: Option<string>)

  const ACKNOWLEDGEMENT := "PUBLISH_VERIFIED_REMEDIATION"

  /** What the publisher does: it returns a reference, raises an error that `publish` catches, or raises another
      one, which propagates. */
  datatype PublisherAnswer = Reference(reference: string) | CaughtError | OtherError

  /** How `publish` ends: an error for a missing acknowledgement, the record, the publisher's uncaught error, or
      the death of the process. */
  datatype PublishExit = NotAcknowledged | Saved(record: Record) | Escaped | Lost

  /** What one publish does to its plan. */
  datatype Effect = Effect(record: Option<Record>, exit: PublishExit, called: bool)

  /** The record `publish` would save after an answer it does not let propagate. */
  function RecordFor(answer: PublisherAnswer): (r: Record)
    requires !answer.OtherError?
    ensures r.status == Published <==> answer.Reference?
    ensures r.status in {Published, PublisherFailed}
  {
    if answer.Reference? then Record(Published, Some(answer.reference)) else Record(PublisherFailed, None)
  }

  function KeepFirst(record: Option<Record>, latest: Record): Record {
    if record.Some? then record.value else latest
  }

  /** One publish without any other at the same time. */
  function PublishAlone(record: Option<Record>, s: Snapshot, acknowledgement: string, answer: PublisherAnswer,
                        dies: bool): Effect
  {
    if acknowledgement != ACKNOWLEDGEMENT then Effect(record, NotAcknowledged, false)
    else if !PublishAllowed(s) then
      var denied := KeepFirst(record, Record(Denied, None));
      Effect(Some(denied), Saved(denied), false)
    else if record.Some? then Effect(record, Saved(record.value), false)
    else if answer.OtherError? then Effect(None, Escaped, true)
    else if dies then Effect(None, Lost, true)
    else Effect(Some(RecordFor(answer)), Saved(RecordFor(answer)), true)
  }

  /** Publication attempts, unique per plan ID, with one request at a time (`PublicationConcurrency` has the others).
      `calls` counts the publisher calls per plan and `lost` those that left no record: the process died first or
      the publisher's error propagated. */
  class PublicationService {
    var attempts: map<PlanId, Record>
    ghost var calls: multiset<PlanId>
    ghost var lost: multiset<PlanId>

    predicate Called(plan: PlanId)
      reads this
    {
      plan in attempts && attempts[plan].status in {Published, PublisherFailed}
    }

    /** Every publisher call is recorded or lost. */
    ghost predicate Valid()
      reads this
    {
      forall plan :: calls[plan] == lost[plan] + if Called(plan) then 1 else 0
    }

    function At(plan: PlanId): Option<Record>
      reads this
    {
      if plan in attempts then Some(attempts[plan]) else None
    }

    constructor ()
      ensures Valid() && attempts == map[] && calls == multiset{} && lost == multiset{}
    {
      attempts, calls, lost := map[], multiset{}, multiset{};
    }

    /** `_save`: the first record for a plan is kept for ever. */
    method Save(plan: PlanId, record: Record) returns (saved: Record)
      modifies this`attempts
      ensures attempts == if plan in old(attempts) then old(attempts) else old(attempts)[plan := record]
      ensures saved == attempts[plan]
    {
      if plan !in attempts {
        attempts := attempts[plan := record];
      }
      saved := attempts[plan];
    }

    method PlanDryRun(plan: PlanId, s: Snapshot) returns (saved: Record)
      requires Valid()
      modifies this`attempts
      ensures Valid() && plan in attempts && saved == attempts[plan]
      ensures plan !in old(attempts) ==> saved.status == (if DryRunAllowed(s) then DryRun else Denied)
      ensures forall p :: p in old(attempts) ==> p in attempts && attempts[p] == old(attempts[p])
    {
      if !DryRunAllowed(s) {
        saved := Save(plan, Record(Denied, None));
      } else {
        saved := Save(plan, Record(DryRun, None));
      }
    }

    /** `publish`. The publisher is called exactly when the request is acknowledged, the gate is open and the
        plan has no record yet. `answer` is what it would do; `dies` is whether the process dies before recording
        it. */
    method Publish(plan: PlanId, s: Snapshot, acknowledgement: string, answer: PublisherAnswer, dies: bool)
      returns (r: PublishExit)
      requires Valid()
      modifies this
      ensures Valid()
      ensures r == NotAcknowledged <==> acknowledgement != "PUBLISH_VERIFIED_REMEDIATION"
      ensures var called := acknowledgement == ACKNOWLEDGEMENT && PublishAllowed(s) && plan !in old(attempts);
              && calls == (if called then old(calls) + multiset{plan} else old(calls))
              && (r == Lost <==> called && dies && !answer.OtherError?)
              && (r == Escaped <==> called && answer.OtherError?)
              && Effect(At(plan), r, called) == PublishAlone(old(At(plan)), s, acknowledgement, answer, dies)
      ensures lost == if r in {Lost, Escaped} then old(lost) + multiset{plan} else old(lost)
      ensures r.Saved? && plan !in old(attempts) ==>
                r.record.status == (if !PublishAllowed(s) then Denied
                                    else if answer.Reference? then Published else PublisherFailed)
      ensures attempts == if r.Saved? then old(attempts)[plan := r.record] else old(attempts)
      ensures plan in old(attempts) ==> attempts == old(attempts)
    {
      hide PublishAllowed, RecordFor;
      if acknowledgement != ACKNOWLEDGEMENT {
        return NotAcknowledged;
      }
      if !PublishAllowed(s) {
        var denied := Save(plan, Record(Denied, None));
        return Saved(denied);
      }
      if plan in attempts {
        return Saved(attempts[plan]);
      }
      calls := calls + multiset{plan};
      if dies || answer.OtherError? {
        lost := lost + multiset{plan};
        return if answer.OtherError? then Escaped else Lost;
      }
      var record := Save(plan, RecordFor(answer));
      r := Saved(record);
    }
  }
}
