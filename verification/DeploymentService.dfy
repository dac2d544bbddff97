/** The staging deployment service for one release ID, with a crash possible before any effect
    (`DeploymentService` in `lou/deployment/service.py`). */
module DeploymentService {
  import opened Common
  import opened Journal
  import opened CanaryPolicy

  datatype Call = CallRelease | CallPromote | CallPause | CallRollback

  /** Everything the service changes outside itself, in order. */
  datatype Effect = WroteRelease(release: Release) | Wrote(evidence: Evidence) | Called(call: Call)

  datatype VerificationFact = VerificationFact(analysisRunId: string, commitSha: string, passed: bool)

  datatype TraceFact = TraceFact(analysisRunId: string, commitSha: string, observationCount: nat)

  /** What the two lookup ports answer; `None` when the service has no such port. */
  datatype Lookups = Lookups(verifications: Option<map<string, VerificationFact>>,
                             traces: Option<map<string, TraceFact>>)

  // ----- confirmed evidence

  predicate ConfirmsRun(facts: Lookups, release: Release, id: string) {
    && facts.verifications.Some? && id in facts.verifications.value
    && facts.verifications.value[id].passed
    && facts.verifications.value[id].analysisRunId == release.analysisRunId
    && facts.verifications.value[id].commitSha == release.commitSha
  }

  predicate ConfirmsTrace(facts: Lookups, release: Release, id: string) {
    && facts.traces.Some? && id in facts.traces.value
    && facts.traces.value[id].observationCount > 0
    && facts.traces.value[id].analysisRunId == release.analysisRunId
    && facts.traces.value[id].commitSha == release.commitSha
  }

  /** The lookup knows the ID as a passed verification of exactly this run and commit. */
  ghost predicate PassedFor(facts: Lookups, release: Release, id: string) {
    facts.verifications.Some? && id in facts.verifications.value
    && facts.verifications.value[id] == VerificationFact(release.analysisRunId, release.commitSha, true)
  }

  /** The lookup knows the ID as a trace of exactly this run and commit with observations. */
  ghost predicate RecordedFor(facts: Lookups, release: Release, id: string) {
    facts.traces.Some? && id in facts.traces.value
    && exists n: nat :: n > 0 && facts.traces.value[id] == TraceFact(release.analysisRunId, release.commitSha, n)
  }

  function ConfirmedRuns(facts: Lookups, release: Release, ids: seq<string>): (kept: seq<string>)
    ensures forall id :: id in kept <==> id in ids && PassedFor(facts, release, id)
  {
    if ids == [] then []
    else
      var kept, last := ConfirmedRuns(facts, release, ids[..|ids| - 1]), ids[|ids| - 1];
      if ConfirmsRun(facts, release, last) then kept + [last] else kept
  }

  function ConfirmedTraces(facts: Lookups, release: Release, ids: seq<string>): (kept: seq<string>)
    ensures forall id :: id in kept <==> id in ids && RecordedFor(facts, release, id)
  {
    if ids == [] then []
    else
      var kept, last := ConfirmedTraces(facts, release, ids[..|ids| - 1]), ids[|ids| - 1];
      if ConfirmsTrace(facts, release, last) then kept + [last] else kept
  }

  /** `_confirmed_verifications`. */
  method ConfirmRuns(facts: Lookups, release: Release, ids: seq<string>) returns (confirmed: seq<string>)
    ensures confirmed == ConfirmedRuns(facts, release, ids)
  {
    confirmed := [];
    for i := 0 to |ids|
      invariant confirmed == ConfirmedRuns(facts, release, ids[..i])
    {
      assert ids[..i + 1][..i] == ids[..i];
      if ConfirmsRun(facts, release, ids[i]) {
        confirmed := confirmed + [ids[i]];
      }
    }
    assert ids[..|ids|] == ids;
  }

  /** `_confirmed_traces`. */
  method ConfirmTraces(facts: Lookups, release: Release, ids: seq<string>) returns (confirmed: seq<string>)
    ensures confirmed == ConfirmedTraces(facts, release, ids)
  {
    confirmed := [];
    for i := 0 to |ids|
      invariant confirmed == ConfirmedTraces(facts, release, ids[..i])
    {
      assert ids[..i + 1][..i] == ids[..i];
      if ConfirmsTrace(facts, release, ids[i]) {
        confirmed := confirmed + [ids[i]];
      }
    }
    assert ids[..|ids|] == ids;
  }

  // ----- what each operation would do if nothing crashed

  function EvidenceFor(release: Release, id: nat, event: Event, actor: string, decision: Option<Decision>,
                       runs: seq<string>, traces: seq<string>): Evidence {
    Evidence(id, release.releaseId, release.analysisRunId, release.commitSha, event, actor, decision, runs, traces)
  }

  /** Every adapter call is followed by the record of its outcome. */
  function ActPlan(release: Release, id: nat, call: Call, event: Event, actor: string,
                   decision: Option<Decision>): seq<Effect>
  {
    [Called(call), Wrote(EvidenceFor(release, id, event, actor, decision, [], []))]
  }

  function Redeploy(release: Release, id: nat): seq<Effect> {
    ActPlan(release, id, CallRelease, Released, release.requestedBy, None)
  }

  /** `release`: create the journal if needed, then deploy unless a `released` event is already there. */
  function ReleasePlan(current: Option<View>, release: Release, id: nat): seq<Effect> {
    if current.None? then [WroteRelease(release)] + Redeploy(release, id)
    else if Happened(current.value.evidence, Released) then []
    else Redeploy(release, id)
  }

  function CallFor(action: Action): Call {
    match action case Promote => CallPromote case Pause => CallPause case Rollback => CallRollback
  }

  function EventFor(action: Action): Event {
    match action case Promote => Promoted case Pause => Paused case Rollback => RolledBack
  }

  /** What the record after a call says happened. */
  function Outcome(call: Call): Event {
    match call
    case CallRelease => Released
    case CallPromote => Promoted
    case CallPause => Paused
    case CallRollback => RolledBack
  }

  /** `observe` on confirmed evidence: record, decide, record the intent, act, record the outcome. */
  function ObservePlan(release: Release, id: nat, d: Decision, runs: seq<string>, traces: seq<string>): seq<Effect> {
    [Wrote(EvidenceFor(release, id, Validated, "lou-validation", None, runs, [])),
     Wrote(EvidenceFor(release, id + 1, Observed, "lou-observer", Some(d), [], traces))]
    + ActPlan(release, id + 2, CallFor(d.action), EventFor(d.action), "lou-policy", Some(d))
  }

  /** The observation itself says that the release must go: its validation failed or it measured a breach. */
  predicate Condemns(w: CanaryWindow, o: CanaryObservation, p: SloPolicy) {
    !o.validationPassed || (Measured(w, o, p) && !WithinSlo(o, p))
  }

  /** The observation and the confirmed evidence say that the release may be promoted. */
  predicate Clears(w: CanaryWindow, o: CanaryObservation, p: SloPolicy, runs: seq<string>, traces: seq<string>) {
    && o.validationPassed && Measured(w, o, p) && WithinSlo(o, p)
    && runs != [] && traces != [] && w.deadlineAt <= o.observedAt
  }

  /** What one observation leaves behind, effect by effect, in a process that lives for `life` effects: the confirmed
      runs, the observation with its decision and the confirmed traces, a call, and its outcome. The call rolls back
      if and only if the observation condemns the release, promotes if and only if it clears it, and else pauses. */
  ghost predicate Observes(effects: seq<Effect>, life: nat, release: Release, w: CanaryWindow, o: CanaryObservation,
                           p: SloPolicy, runs: seq<string>, traces: seq<string>)
  {
    && |effects| == (if life < 4 then life else 4)
    && (life >= 1 ==> Writes(effects[0], Validated) && effects[0].evidence.verificationRunIds == runs
                      && BoundToRelease(effects[0].evidence, release))
    && (life >= 2 ==> Writes(effects[1], Observed) && effects[1].evidence.traceIds == traces
                      && BoundToRelease(effects[1].evidence, release)
                      && Recommends(effects[1].evidence.decision, w, o, p, runs, traces))
    && (life >= 3 ==> && (effects[2] == Called(CallRollback) <==> Condemns(w, o, p))
                      && (effects[2] == Called(CallPromote) <==> Clears(w, o, p, runs, traces))
                      && (effects[2] == Called(CallPause) <==> !Condemns(w, o, p) && !Clears(w, o, p, runs, traces)))
    && (life >= 4 ==> && (Writes(effects[3], RolledBack) <==> Condemns(w, o, p))
                      && (Writes(effects[3], Promoted) <==> Clears(w, o, p, runs, traces))
                      && (Writes(effects[3], Paused) <==> !Condemns(w, o, p) && !Clears(w, o, p, runs, traces))
                      && effects[3].evidence.decision == effects[1].evidence.decision
                      && BoundToRelease(effects[3].evidence, release))
  }

  predicate Recommends(d: Option<Decision>, w: CanaryWindow, o: CanaryObservation, p: SloPolicy, runs: seq<string>,
                       traces: seq<string>)
  {
    && d.Some? && d.value.policyRevision == p.policyRevision && d.value.decidedAt == o.observedAt
    && (d.value.action == Rollback <==> Condemns(w, o, p))
    && (d.value.action == Promote <==> Clears(w, o, p, runs, traces))
  }

  lemma PlanObserves(release: Release, id: nat, w: CanaryWindow, o: CanaryObservation, p: SloPolicy,
                     runs: seq<string>, traces: seq<string>, life: nat)
    requires o.releaseId == w.releaseId
    ensures var d := EvaluateCanary(w, o, p, o.observedAt, runs, traces).value;
            Observes(ObservePlan(release, id, d, runs, traces)[..if life < 4 then life else 4], life, release, w, o, p,
                     runs, traces)
  {
  }

  function RollbackPlan(release: Release, id: nat, actor: string, d: Decision): seq<Effect> {
    ActPlan(release, id, CallRollback, RolledBack, actor, Some(d))
  }

  /** What a release that is not deployed yet leaves behind: its journal if it had none, the deployment, its record. */
  ghost predicate Deploys(effects: seq<Effect>, life: nat, release: Release, unknown: bool) {
    var n := if unknown then 1 else 0;
    && |effects| == (if life < n + 2 then life else n + 2)
    && (unknown && life >= 1 ==> effects[0] == WroteRelease(release))
    && (life >= n + 1 ==> effects[n] == Called(CallRelease))
    && (life >= n + 2 ==> Writes(effects[n + 1], Released) && effects[n + 1].evidence.actor == release.requestedBy
                          && BoundToRelease(effects[n + 1].evidence, release))
  }

  /** What a rollback by hand leaves behind: the rollback, then the record of who asked for it and why. */
  ghost predicate Undoes(effects: seq<Effect>, life: nat, release: Release, actor: string, reason: string) {
    && |effects| == (if life < 2 then life else 2)
    && (life >= 1 ==> effects[0] == Called(CallRollback))
    && (life >= 2 ==> Writes(effects[1], RolledBack) && effects[1].evidence.actor == actor
                      && BoundToRelease(effects[1].evidence, release) && effects[1].evidence.decision.Some?
                      && effects[1].evidence.decision.value.action == Rollback
                      && effects[1].evidence.decision.value.reason == reason)
  }

  // ----- promotion safety of a history of effects

  /** An `observed` record that decided to promote on confirmed traces, right after a `validated` record on
      confirmed verification runs, both bound to the release. */
  ghost predicate PromotionJustified(v: Effect, o: Effect, release: Release, facts: set<Lookups>) {
    && v.Wrote? && o.Wrote?
    && v.evidence.event == Validated && o.evidence.event == Observed
    && BoundToRelease(v.evidence, release) && BoundToRelease(o.evidence, release)
    && v.evidence.verificationRunIds != [] && o.evidence.traceIds != []
    && o.evidence.decision.Some? && o.evidence.decision.value.action == Promote
    && exists f :: f in facts && AllConfirmed(f, release, v.evidence.verificationRunIds, o.evidence.traceIds)
  }

  /** The same answers of the lookup ports confirm every run and every trace. */
  ghost predicate AllConfirmed(f: Lookups, release: Release, runs: seq<string>, traces: seq<string>) {
    && (forall id :: id in runs ==> PassedFor(f, release, id))
    && forall id :: id in traces ==> RecordedFor(f, release, id)
  }

  predicate BoundToRelease(e: Evidence, release: Release) {
    e.releaseId == release.releaseId && e.analysisRunId == release.analysisRunId && e.commitSha == release.commitSha
  }

  predicate Writes(e: Effect, event: Event) {
    e.Wrote? && e.evidence.event == event
  }

  /** The last effect was this call. */
  predicate JustCalled(before: seq<Effect>, call: Call) {
    before != [] && before[|before| - 1] == Called(call)
  }

  /** The last effect recorded an observation that decided this action. */
  predicate JustDecided(before: seq<Effect>, action: Action) {
    && before != [] && Writes(before[|before| - 1], Observed)
    && before[|before| - 1].evidence.decision.Some?
    && before[|before| - 1].evidence.decision.value.action == action
  }

  /** The adapter promotes only right after such a pair, pauses only right after an observation that decided to,
      rolls back only right after one or by hand, and every outcome is recorded only right after its call. `manual`
      holds the positions of the rollbacks by hand. */
  ghost predicate Justified(before: seq<Effect>, e: Effect, release: Release, facts: set<Lookups>,
                            manual: set<nat>)
  {
    var n := |before|;
    && (e == Called(CallPromote) ==> n >= 2 && PromotionJustified(before[n - 2], before[n - 1], release, facts))
    && (e == Called(CallPause) ==> JustDecided(before, Pause))
    && (e == Called(CallRollback) ==> n in manual || JustDecided(before, Rollback))
    && (Writes(e, Released) ==> JustCalled(before, CallRelease))
    && (Writes(e, Promoted) ==> JustCalled(before, CallPromote))
    && (Writes(e, Paused) ==> JustCalled(before, CallPause))
    && (Writes(e, RolledBack) ==> JustCalled(before, CallRollback))
  }

  ghost predicate HistorySafe(trace: seq<Effect>, release: Release, facts: set<Lookups>, manual: set<nat>) {
    trace == [] ||
    (HistorySafe(trace[..|trace| - 1], release, facts, manual)
     && Justified(trace[..|trace| - 1], trace[|trace| - 1], release, facts, manual))
  }

  lemma SafeSnoc(trace: seq<Effect>, e: Effect, release: Release, facts: set<Lookups>, manual: set<nat>)
    requires HistorySafe(trace, release, facts, manual) && Justified(trace, e, release, facts, manual)
    ensures HistorySafe(trace + [e], release, facts, manual)
  {
    assert (trace + [e])[..|trace|] == trace;
  }

  lemma {:induction false} MoreGrounds(trace: seq<Effect>, release: Release, facts: set<Lookups>, manual: set<nat>,
                                       facts': set<Lookups>, manual': set<nat>)
    requires HistorySafe(trace, release, facts, manual) && facts <= facts' && manual <= manual'
    ensures HistorySafe(trace, release, facts', manual')
  {
    if trace != [] {
      MoreGrounds(trace[..|trace| - 1], release, facts, manual, facts', manual');
    }
  }

  lemma {:induction false} SafeAt(trace: seq<Effect>, release: Release, facts: set<Lookups>, manual: set<nat>,
                                  k: nat)
    requires HistorySafe(trace, release, facts, manual) && k < |trace|
    ensures Justified(trace[..k], trace[k], release, facts, manual)
  {
    if k < |trace| - 1 {
      SafeAt(trace[..|trace| - 1], release, facts, manual, k);
      assert trace[..|trace| - 1][..k] == trace[..k];
    }
  }

  /** In a safe history every `promoted` record closes the sequence validated, observed, promote, promoted,
      with nothing in between. */
  lemma PromotedFollowsObserved(trace: seq<Effect>, release: Release, facts: set<Lookups>, manual: set<nat>, k: nat)
    requires HistorySafe(trace, release, facts, manual) && k < |trace| && Writes(trace[k], Promoted)
    ensures k >= 3 && trace[k - 1] == Called(CallPromote)
    ensures PromotionJustified(trace[k - 3], trace[k - 2], release, facts)
  {
    SafeAt(trace, release, facts, manual, k);
    SafeAt(trace, release, facts, manual, k - 1);
  }

  /** In a safe history every recorded outcome directly follows its call; a pause directly follows an observation that
      decided it, and a rollback one that decided it unless it was made by hand. */
  lemma OutcomesFollowDecisions(trace: seq<Effect>, release: Release, facts: set<Lookups>, manual: set<nat>, k: nat)
    requires HistorySafe(trace, release, facts, manual) && k < |trace|
    ensures Writes(trace[k], Released) ==> k >= 1 && trace[k - 1] == Called(CallRelease)
    ensures Writes(trace[k], Paused) ==>
              k >= 2 && trace[k - 1] == Called(CallPause) && JustDecided(trace[..k - 1], Pause)
    ensures Writes(trace[k], RolledBack) ==>
              k >= 1 && trace[k - 1] == Called(CallRollback)
              && (k - 1 in manual || (k >= 2 && JustDecided(trace[..k - 1], Rollback)))
  {
    SafeAt(trace, release, facts, manual, k);
    if k >= 1 {
      SafeAt(trace, release, facts, manual, k - 1);
    }
  }

  /** Once rolled back, `release` deploys again exactly when no `released` event was ever recorded: an
      interrupted release followed by a manual rollback is not protected by its status. */
  lemma RollbackDoesNotStopReleaseIff(view: View, release: Release, id: nat)
    requires view.status == StatusRolledBack
    ensures Called(CallRelease) in ReleasePlan(Some(view), release, id) <==> !Happened(view.evidence, Released)
  {
    assert Called(CallRelease) in Redeploy(release, id);
  }

  // ----- journal and adapter as changed by effects

  function Written(trace: seq<Effect>): seq<Evidence> {
    if trace == [] then []
    else if trace[|trace| - 1].Wrote? then Written(trace[..|trace| - 1]) + [trace[|trace| - 1].evidence]
    else Written(trace[..|trace| - 1])
  }

  lemma WrittenSnoc(trace: seq<Effect>, e: Effect)
    ensures Written(trace + [e]) == if e.Wrote? then Written(trace) + [e.evidence] else Written(trace)
  {
    assert (trace + [e])[..|trace|] == trace;
  }

  /** In the journal itself a `promoted` record directly follows the `observed` record that decided it, which
      directly follows the `validated` record with its confirmed runs. */
  lemma {:induction false} JournalShowsWhyPromoted(trace: seq<Effect>, release: Release, facts: set<Lookups>,
                                                   manual: set<nat>, i: nat)
    requires HistorySafe(trace, release, facts, manual) && i < |Written(trace)| && Written(trace)[i].event == Promoted
    ensures i >= 2 && PromotionJustified(Wrote(Written(trace)[i - 2]), Wrote(Written(trace)[i - 1]), release, facts)
    decreases |trace|
  {
    var n := |trace| - 1;
    assert trace == trace[..n] + [trace[n]];
    WrittenSnoc(trace[..n], trace[n]);
    if i < |Written(trace[..n])| {
      JournalShowsWhyPromoted(trace[..n], release, facts, manual, i);
    } else {
      PromotedFollowsObserved(trace, release, facts, manual, n);
      assert trace[..n] == trace[..n - 1] + [trace[n - 1]];
      WrittenSnoc(trace[..n - 1], trace[n - 1]);
      assert trace[..n - 1] == trace[..n - 2] + [trace[n - 2]];
      WrittenSnoc(trace[..n - 2], trace[n - 2]);
      assert trace[..n - 2] == trace[..n - 3] + [trace[n - 3]];
      WrittenSnoc(trace[..n - 3], trace[n - 3]);
    }
  }

  /** `_record`: the adapter notes each action once. */
  function Noted(calls: seq<Call>, call: Call): seq<Call> {
    if call in calls then calls else calls + [call]
  }

  /** Chaining one more evidence record keeps the journal readable and adds exactly that record. */
  lemma EvidenceAppended(digest: ChainDigest, journal: seq<Record>, e: Evidence)
    requires Readable(digest, journal) && journal != []
    ensures var longer := journal + [LinkedRecord(digest, journal, EvidenceBody(e))];
            Readable(digest, longer) && EvidenceOf(longer[1..]) == EvidenceOf(journal[1..]) + [e]
  {
    var record := LinkedRecord(digest, journal, EvidenceBody(e));
    AppendKeepsReadable(digest, journal, EvidenceBody(e));
    hide Readable;
    assert (journal + [record])[1..] == journal[1..] + [record];
    EvidenceOfConcat(journal[1..], [record]);
    assert EvidenceOf([record]) == [e] by { assert [record][..0] == []; }
  }

  /** What `observe` records before it acts justifies promoting, if that is the decision. */
  lemma ObserveJustifies(before: seq<Effect>, release: Release, id: nat, d: Decision, runs: seq<string>,
                         traces: seq<string>, lookups: Lookups, facts: set<Lookups>, manual: set<nat>)
    requires lookups in facts && (d.action == Promote ==> runs != [] && traces != [])
    requires forall r :: r in runs ==> PassedFor(lookups, release, r)
    requires forall t :: t in traces ==> RecordedFor(lookups, release, t)
    ensures Justified(before + ObservePlan(release, id, d, runs, traces)[..2], Called(CallFor(d.action)),
                      release, facts, manual)
  {
    hide PassedFor, RecordedFor;
    var plan := ObservePlan(release, id, d, runs, traces);
    var told := before + plan[..2];
    assert told[|told| - 1] == plan[1] && told[|told| - 2] == plan[0];
    if d.action == Promote {
      assert PromotionJustified(plan[0], plan[1], release, facts);
    }
  }

  // ----- the service

  predicate DistinctIds(evidence: seq<Evidence>) {
    forall i, j :: 0 <= i < j < |evidence| ==> evidence[i].evidenceId != evidence[j].evidenceId
  }

  predicate Repeats(view: View, e: Evidence) {
    exists x :: x in view.evidence && x.evidenceId == e.evidenceId
  }

  /** The journal accepts the evidence as a new record. */
  predicate Extends(current: Option<View>, e: Evidence) {
    current.Some? && BoundToRelease(e, current.value.release) && !Repeats(current.value, e)
  }

  datatype Failure = NotStaging | Conflict(error: JournalError) | ForeignCanary

  /** How an operation ends: the process dies part-way, the caller gets a view, or an error is raised. */
  datatype Exit = Died | Done(view: View) | Failed(failure: Failure)

  /** What survives a crash: the journal, the adapter's actions, and the supply of fresh evidence IDs.
      `trace` is the history of effects and `facts` every answer of the lookup ports, both for the proof;
      `alive` is how many effects remain before the process dies. */
  class DeploymentService {
    const digest: ChainDigest
    const releaseId: string
    var journal: seq<Record>
    var actions: seq<Call>
    var nextId: nat
    var alive: nat
    ghost var trace: seq<Effect>
    ghost var facts: set<Lookups>
    ghost var manual: set<nat>

    /** The journal is readable, holds no evidence ID twice, and `trace` is how it and the adapter's actions came
        about. */
    ghost predicate Consistent()
      reads this
    {
      && Readable(digest, journal)
      && (journal != [] ==> journal[0].body.ReleaseBody? && journal[0].body.release.releaseId == releaseId)
      && (forall call :: call in actions <==> Called(call) in trace)
      && (if journal == [] then trace == []
          else trace != [] && trace[0] == WroteRelease(journal[0].body.release)
               && Written(trace) == EvidenceOf(journal[1..]) && DistinctIds(Written(trace)))
    }

    /** Every promotion in the history is justified, and evidence IDs are taken from the supply. */
    ghost predicate Safe()
      reads this
    {
      journal != [] && journal[0].body.ReleaseBody? ==>
        && HistorySafe(trace, journal[0].body.release, facts, manual)
        && forall e :: e in EvidenceOf(journal[1..]) ==> e.evidenceId < nextId
    }

    ghost predicate Valid()
      reads this
    {
      Consistent() && Safe()
    }

    constructor (digest: ChainDigest, releaseId: string, alive: nat)
      ensures Valid() && this.digest == digest && this.releaseId == releaseId && trace == []
      ensures this.alive == alive
    {
      this.digest, this.releaseId, this.alive := digest, releaseId, alive;
      journal, actions, nextId, trace, facts, manual := [], [], 0, [], {}, {};
    }

    /** A new process takes over the stored state. */
    method Restart(alive: nat)
      requires Valid()
      modifies this`alive
      ensures Valid() && this.alive == alive
    {
      this.alive := alive;
    }

    function Current(): Option<View>
      reads this
    {
      if journal == [] || !journal[0].body.ReleaseBody? then None else Some(ViewOf(journal))
    }

    /** `_append` of the release record. */
    method CreateJournal(release: Release) returns (survived: bool)
      requires Valid() && journal == [] && release.releaseId == releaseId
      modifies this
      ensures Valid() && nextId == old(nextId) && facts == old(facts) && manual == old(manual)
      ensures actions == old(actions)
      ensures survived <==> old(alive) > 0
      ensures survived ==> trace == [WroteRelease(release)] && alive == old(alive) - 1
                           && journal != [] && Current() == Some(View(release, StatusReleased, [], None))
      ensures !survived ==> trace == old(trace) && journal == old(journal) && alive == 0
      ensures old(journal) <= journal
    {
      survived := alive > 0;
      if survived {
        AppendKeepsReadable(digest, journal, ReleaseBody(release));
        journal := journal + [LinkedRecord(digest, journal, ReleaseBody(release))];
        alive := alive - 1;
        trace := [WroteRelease(release)];
        OnlyRelease(release);
        assert trace == [] + [WroteRelease(release)] && trace[..0] == [] && journal[1..] == [];
        SafeSnoc([], WroteRelease(release), release, facts, manual);
      }
    }

    /** `append`: an error without a release or for evidence of another run or commit; a repeated ID changes
        nothing; anything else extends the chain, unless the process dies first. */
    method Append(e: Evidence) returns (exit: Exit)
      requires Consistent() && e.releaseId == releaseId
      modifies this
      ensures Consistent() && nextId == old(nextId) && facts == old(facts) && manual == old(manual)
      ensures actions == old(actions)
      ensures old(journal) <= journal
      ensures old(Current()).None? ==> exit == Failed(Conflict(NoRelease))
      ensures old(Current()).Some? && !BoundToRelease(e, old(Current()).value.release) ==>
                exit == Failed(Conflict(EvidenceMismatch))
      ensures old(Current()).Some? && BoundToRelease(e, old(Current()).value.release) ==>
                (Repeats(old(Current()).value, e) ==> exit == Done(old(Current()).value))
      ensures !Extends(old(Current()), e) ==> journal == old(journal) && trace == old(trace) && alive == old(alive)
      ensures Extends(old(Current()), e) ==>
                if old(alive) == 0
                then exit == Died && trace == old(trace) && journal == old(journal) && alive == 0
                else exit.Done? && Current() == Some(exit.view) && alive == old(alive) - 1
                     && trace == old(trace) + [Wrote(e)]
                     && exit.view.evidence == old(Current()).value.evidence + [e]
                     && exit.view.release == old(Current()).value.release
      ensures old(Safe()) && (Extends(old(Current()), e) ==>
                e.evidenceId < nextId && Justified(old(trace), Wrote(e), old(Current()).value.release, facts, manual))
              ==> Safe()
    {
      hide Readable, HistorySafe, Written, EvidenceOf, StatusOf, LastDecision, Justified, LinkedRecord;
      if journal == [] {
        return Failed(Conflict(NoRelease));
      }
      var current := ViewOf(journal);
      if e.analysisRunId != current.release.analysisRunId || e.commitSha != current.release.commitSha {
        return Failed(Conflict(EvidenceMismatch));
      }
      if Repeats(current, e) {
        return Done(current);
      }
      if alive == 0 {
        return Died;
      }
      EvidenceAppended(digest, journal, e);
      WrittenSnoc(trace, Wrote(e));
      if Safe() && Justified(trace, Wrote(e), current.release, facts, manual) {
        SafeSnoc(trace, Wrote(e), current.release, facts, manual);
      }
      journal := journal + [LinkedRecord(digest, journal, EvidenceBody(e))];
      alive := alive - 1;
      trace := trace + [Wrote(e)];
      exit := Done(ViewOf(journal));
    }

    /** One adapter call; the history stays safe if the call is justified. */
    method CallAdapter(call: Call) returns (survived: bool)
      requires Consistent() && journal != []
      modifies this
      ensures Consistent() && nextId == old(nextId) && facts == old(facts) && manual == old(manual)
      ensures journal == old(journal)
      ensures survived <==> old(alive) > 0
      ensures survived ==> trace == old(trace) + [Called(call)] && alive == old(alive) - 1
                           && actions == Noted(old(actions), call)
      ensures !survived ==> trace == old(trace) && actions == old(actions) && alive == 0
      ensures old(Safe()) && Justified(old(trace), Called(call), journal[0].body.release, facts, manual) ==> Safe()
    {
      hide Readable, HistorySafe, Written, EvidenceOf, Justified, DistinctIds;
      survived := alive > 0;
      if survived {
        WrittenSnoc(trace, Called(call));
        if Safe() && Justified(trace, Called(call), journal[0].body.release, facts, manual) {
          SafeSnoc(trace, Called(call), journal[0].body.release, facts, manual);
        }
        alive := alive - 1;
        if call !in actions {
          actions := actions + [call];
        }
        trace := trace + [Called(call)];
      }
    }

    /** A fresh UUID. */
    method FreshId() returns (id: nat)
      requires Valid()
      modifies this`nextId
      ensures Valid() && id == old(nextId) && nextId == id + 1
      ensures journal != [] ==> forall x :: x in ViewOf(journal).evidence ==> x.evidenceId < id
    {
      id := nextId;
      nextId := nextId + 1;
    }

    /** Call the adapter, then record what it did. */
    method Act(release: Release, call: Call, event: Event, actor: string, decision: Option<Decision>)
      returns (exit: Exit)
      requires Valid() && journal != [] && release == journal[0].body.release
      requires event == Outcome(call)
      requires Justified(trace, Called(call), release, facts, manual)
      modifies this
      ensures Valid() && old(journal) <= journal && facts == old(facts) && manual == old(manual)
      ensures Performed(old(trace), ActPlan(release, old(nextId), call, event, actor, decision), old(alive), exit)
    {
      hide Readable, HistorySafe, Written, EvidenceOf, StatusOf, LastDecision, PromotionJustified;
      ghost var plan := ActPlan(release, nextId, call, event, actor, decision);
      assert plan[..0] == [] && plan[..1] == [plan[0]] && plan[..2] == plan == plan[..1] + [plan[1]];
      var called := CallAdapter(call);
      if !called {
        return Died;
      }
      var id := FreshId();
      exit := Append(EvidenceFor(release, id, event, actor, decision, [], []));
    }

    /** `release`. */
    method StartRelease(release: Release) returns (exit: Exit)
      requires Valid() && release.releaseId == releaseId
      modifies this
      ensures Valid() && old(journal) <= journal && facts == old(facts) && manual == old(manual)
      ensures release.environment != Staging ==> exit == Failed(NotStaging) && trace == old(trace)
      ensures release.environment == Staging && old(Current()).Some? && old(Current()).value.release != release
              ==> exit == Failed(Conflict(DifferentRelease)) && trace == old(trace)
      ensures release.environment == Staging && (old(Current()).None? || old(Current()).value.release == release)
              ==> Performed(old(trace), ReleasePlan(old(Current()), release, old(nextId)), old(alive), exit)
      ensures release.environment == Staging && (old(Current()).None? || old(Current()).value.release == release)
              ==> if old(Current()).Some? && Happened(old(Current()).value.evidence, Released)
                  then trace == old(trace) && exit == Done(old(Current()).value)
                  else Deploys(trace[|old(trace)|..], old(alive), release, old(Current()).None?)
    {
      hide Readable, HistorySafe, Written, EvidenceOf, StatusOf, LastDecision;
      if release.environment != Staging {
        return Failed(NotStaging);
      }
      if journal == [] {
        var created := CreateJournal(release);
        if !created {
          return Died;
        }
      } else {
        var existing := ViewOf(journal);
        if existing.release != release {
          return Failed(Conflict(DifferentRelease));
        }
        if Happened(existing.evidence, Released) {
          return Done(existing);
        }
      }
      exit := Act(release, CallRelease, Released, release.requestedBy, None);
    }

    /** `observe` up to and including the recorded intent. */
    method RecordIntent(release: Release, d: Decision, runs: seq<string>, traces: seq<string>) returns (survived: bool)
      requires Valid() && journal != [] && release == journal[0].body.release
      modifies this
      ensures Valid() && old(journal) <= journal && facts == old(facts) && manual == old(manual)
      ensures survived <==> old(alive) >= 2
      ensures survived ==> trace == old(trace) + ObservePlan(release, old(nextId), d, runs, traces)[..2]
                           && nextId == old(nextId) + 2 && alive == old(alive) - 2
                           && journal != [] && journal[0] == old(journal[0])
      ensures !survived ==> trace == old(trace) + ObservePlan(release, old(nextId), d, runs, traces)[..old(alive)]
    {
      hide Readable, HistorySafe, Written, EvidenceOf, StatusOf, LastDecision;
      var first := FreshId();
      var recorded := Append(EvidenceFor(release, first, Validated, "lou-validation", None, runs, []));
      if recorded.Done? {
        var second := FreshId();
        recorded := Append(EvidenceFor(release, second, Observed, "lou-observer", Some(d), [], traces));
      }
      survived := recorded.Done?;
    }

    /** `observe` once its decision is made: record the intent, act, record the outcome. */
    method CarryOut(release: Release, d: Decision, runs: seq<string>, traces: seq<string>, ghost lookups: Lookups)
      returns (exit: Exit)
      requires Valid() && journal != [] && release == journal[0].body.release && lookups in facts
      requires d.action == Promote ==> runs != [] && traces != []
      requires forall r :: r in runs ==> PassedFor(lookups, release, r)
      requires forall t :: t in traces ==> RecordedFor(lookups, release, t)
      modifies this
      ensures Valid() && old(journal) <= journal && manual == old(manual)
      ensures Performed(old(trace), ObservePlan(release, old(nextId), d, runs, traces), old(alive), exit)
    {
      hide Readable, HistorySafe, Written, EvidenceOf, StatusOf, LastDecision, Justified, PassedFor, RecordedFor;
      ghost var plan := ObservePlan(release, nextId, d, runs, traces);
      var intended := RecordIntent(release, d, runs, traces);
      if !intended {
        return Died;
      }
      ObserveJustifies(old(trace), release, old(nextId), d, runs, traces, lookups, facts, manual);
      assert plan == plan[..2] + plan[2..];
      exit := Act(release, CallFor(d.action), EventFor(d.action), "lou-policy", Some(d));
    }

    /** `observe`. */
    method Observe(window: CanaryWindow, observation: CanaryObservation, policy: SloPolicy, lookups: Lookups,
                   runIds: seq<string>, traceIds: seq<string>) returns (exit: Exit)
      requires Valid()
      modifies this
      ensures Valid() && old(journal) <= journal && manual == old(manual)
      ensures old(Current()).None? ==> exit == Failed(Conflict(NoRelease)) && trace == old(trace)
      ensures old(Current()).Some? && old(Current()).value.status in {StatusPromoted, StatusRolledBack}
              ==> exit == Done(old(Current()).value) && trace == old(trace)
      ensures old(Current()).Some? && old(Current()).value.status !in {StatusPromoted, StatusRolledBack}
              ==> if window.releaseId != releaseId || observation.releaseId != releaseId
                  then exit == Failed(ForeignCanary) && trace == old(trace)
                  else
                    var release := old(Current()).value.release;
                    var runs := ConfirmedRuns(lookups, release, runIds);
                    var traces := ConfirmedTraces(lookups, release, traceIds);
                    var d := EvaluateCanary(window, observation, policy, observation.observedAt, runs, traces).value;
                    Performed(old(trace), ObservePlan(release, old(nextId), d, runs, traces), old(alive), exit)
      ensures old(Current()).Some? && old(Current()).value.status !in {StatusPromoted, StatusRolledBack}
              && window.releaseId == releaseId == observation.releaseId
              ==> var release := old(Current()).value.release;
                  Observes(trace[|old(trace)|..], old(alive), release, window, observation, policy,
                           ConfirmedRuns(lookups, release, runIds), ConfirmedTraces(lookups, release, traceIds))
    {
      hide Readable, HistorySafe, Written, EvidenceOf, StatusOf, LastDecision, Justified;
      if journal == [] {
        return Failed(Conflict(NoRelease));
      }
      var current := ViewOf(journal);
      if current.status in {StatusPromoted, StatusRolledBack} {
        return Done(current);
      }
      if window.releaseId != releaseId || observation.releaseId != releaseId {
        return Failed(ForeignCanary);
      }
      var release := current.release;
      var runs := ConfirmRuns(lookups, release, runIds);
      var traces := ConfirmTraces(lookups, release, traceIds);
      MoreGrounds(trace, release, facts, manual, facts + {lookups}, manual);
      facts := facts + {lookups};
      var d := EvaluateCanary(window, observation, policy, observation.observedAt, runs, traces).value;
      exit := CarryOut(release, d, runs, traces, lookups);
      ghost var life := if old(alive) < 4 then old(alive) else 4;
      assert trace[|old(trace)|..] == ObservePlan(release, old(nextId), d, runs, traces)[..life];
      PlanObserves(release, old(nextId), window, observation, policy, runs, traces, old(alive));
    }

    /** `rollback`, the only operation that rolls back by hand. */
    method RollBack(actor: string, reason: string, now: int) returns (exit: Exit)
      requires Valid()
      modifies this
      ensures Valid() && old(journal) <= journal && manual <= old(manual) + {|old(trace)|}
      ensures old(Current()).None? ==> exit == Failed(Conflict(NoRelease)) && trace == old(trace)
      ensures old(Current()).Some? && old(Current()).value.status == StatusRolledBack
              ==> exit == Done(old(Current()).value) && trace == old(trace)
      ensures old(Current()).Some? && old(Current()).value.status != StatusRolledBack
              ==> Performed(old(trace), RollbackPlan(old(Current()).value.release, old(nextId), actor,
                                                     Decision(releaseId, Rollback, "manual-v1", reason, now)),
                            old(alive), exit)
      ensures old(Current()).Some? && old(Current()).value.status != StatusRolledBack
              ==> Undoes(trace[|old(trace)|..], old(alive), old(Current()).value.release, actor, reason)
    {
      hide Readable, HistorySafe, Written, EvidenceOf, StatusOf, LastDecision;
      if journal == [] {
        return Failed(Conflict(NoRelease));
      }
      var current := ViewOf(journal);
      if current.status == StatusRolledBack {
        return Done(current);
      }
      var d := Decision(releaseId, Rollback, "manual-v1", reason, now);
      MoreGrounds(trace, current.release, facts, manual, facts, manual + {|trace|});
      manual := manual + {|trace|};
      exit := Act(current.release, CallRollback, RolledBack, actor, Some(d));
    }

    /** The plan was carried out as far as the process lived: completely, or up to its last effect. */
    ghost predicate Performed(before: seq<Effect>, plan: seq<Effect>, life: nat, exit: Exit)
      reads this
    {
      && trace == before + plan[..if life < |plan| then life else |plan|]
      && (exit.Died? <==> life < |plan|)
      && (exit.Done? ==> Current() == Some(exit.view))
      && !exit.Failed?
    }
  }

  /** Across any operations, crashes and restarts the reported release never changes and the status never
      falls; in particular a rolled-back release stays rolled back. */
  lemma StatusNeverFalls(before: seq<Record>, after: seq<Record>)
    requires before != [] && before <= after && before[0].body.ReleaseBody?
    ensures ViewOf(after).release == ViewOf(before).release
    ensures Rank(ViewOf(before).status) <= Rank(ViewOf(after).status)
    ensures ViewOf(before).status == StatusRolledBack ==> ViewOf(after).status == StatusRolledBack
  {
    ViewGrows(before, after);
  }

  /** Once `promote` is among the adapter's actions, some confirmed observation decided it. */
  lemma PromoteCallIsJustified(trace: seq<Effect>, release: Release, facts: set<Lookups>, manual: set<nat>, k: nat)
    requires HistorySafe(trace, release, facts, manual) && k < |trace| && trace[k] == Called(CallPromote)
    ensures k >= 2 && PromotionJustified(trace[k - 2], trace[k - 1], release, facts)
  {
    SafeAt(trace, release, facts, manual, k);
  }

  lemma OnlyRelease(release: Release)
    ensures Written([WroteRelease(release)]) == [] && StatusOf([]) == StatusReleased
  {
    assert [WroteRelease(release)][..0] == [];
  }

  lemma OnlyRolledBack(release: Release, id: nat, actor: string, d: Decision)
    ensures var evidence := Written([WroteRelease(release)] + RollbackPlan(release, id, actor, d));
            StatusOf(evidence) == StatusRolledBack && !Happened(evidence, Released)
  {
    var e := EvidenceFor(release, id, RolledBack, actor, Some(d), [], []);
    OnlyRelease(release);
    WrittenSnoc([WroteRelease(release)], Called(CallRollback));
    WrittenSnoc([WroteRelease(release), Called(CallRollback)], Wrote(e));
    assert [WroteRelease(release)] + RollbackPlan(release, id, actor, d)
        == [WroteRelease(release), Called(CallRollback)] + [Wrote(e)];
    assert e in [e];
  }

  /** A release dies right after creating its journal and is then rolled back by hand. */
  method ReleaseThenRollBack(digest: ChainDigest, release: Release, actor: string, d: Decision)
    returns (service: DeploymentService, ghost id: nat)
    requires release.environment == Staging
    requires d == Decision(release.releaseId, Rollback, "manual-v1", d.reason, d.decidedAt)
    ensures fresh(service) && service.Valid() && service.releaseId == release.releaseId
    ensures service.trace == [WroteRelease(release)] + RollbackPlan(release, id, actor, d)
    ensures service.Current().Some? && service.Current().value.release == release
    ensures service.Current().value.status == StatusRolledBack && !Happened(service.Current().value.evidence, Released)
  {
    hide Readable, HistorySafe, LastDecision, StatusOf, Written;
    service := new DeploymentService(digest, release.releaseId, 1);
    var died := service.StartRelease(release);
    assert service.trace == [WroteRelease(release)];
    OnlyRelease(release);
    id := service.nextId;
    service.Restart(2);
    var done := service.RollBack(actor, d.reason, d.decidedAt);
    OnlyRolledBack(release, id, actor, d);
  }

  /** Released once more, the adapter deploys it although its status is, and stays, rolled back. */
  method RolledBackThenDeployed(digest: ChainDigest, release: Release, actor: string, d: Decision)
    returns (exit: Exit, ghost trace: seq<Effect>)
    requires release.environment == Staging
    requires d == Decision(release.releaseId, Rollback, "manual-v1", d.reason, d.decidedAt)
    ensures exit.Done? && exit.view.release == release && exit.view.status == StatusRolledBack
    ensures exists i: nat, j: nat ::
              trace == [WroteRelease(release)] + RollbackPlan(release, i, actor, d) + Redeploy(release, j)
  {
    hide Readable, HistorySafe, LastDecision, StatusOf, Written, EvidenceOf;
    var service, id := ReleaseThenRollBack(digest, release, actor, d);
    ghost var rolledBack, next := service.journal, service.nextId;
    service.Restart(2);
    exit := service.StartRelease(release);
    StatusNeverFalls(rolledBack, service.journal);
    trace := service.trace;
    assert trace == [WroteRelease(release)] + RollbackPlan(release, id, actor, d) + Redeploy(release, next);
  }
}
