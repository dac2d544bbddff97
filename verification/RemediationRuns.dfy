/** The durable runner: one stored run, its audit rows, and executions that may crash at any effect
    (`lou/application/remediation_runs.py`, `lou/persistence/repositories.py`). */
module RemediationRuns {
  import opened Common
  import opened Contracts
  import opened Orchestration
  import opened OrchestrationInvariant
  import opened OrchestrationRuns
  import opened OrchestrationOutcomes
  import opened Sorting
  import Validation = PatchValidation

  datatype RunStatus = Queued | Running | RunSucceeded | RunFailed | RunAbandoned | RunCancelled

  predicate Completed(status: RunStatus) {
    status in {RunSucceeded, RunFailed, RunAbandoned, RunCancelled}
  }

  /** The immutable request; its digest is the deduplication key, so one key holds one request. */
  datatype RunInput = RunInput(analysisRunId: string, fingerprint: Hash, provider: string,
                               policyRevision: string, limits: Limits, forceToken: Option<string>)

  datatype RunRecord = RunRecord(
    input: RunInput, status: RunStatus, stage: Stage, snapshot: Option<Snapshot>, attemptCount: nat,
    tokensSpent: nat, costSpent: real, termination: Option<Reason>, error: Option<StepError>)

  // ----- audit rows

  /** What the audit key's digest is computed over. */
  datatype KeyMaterial = KeyMaterial(attempt: nat, completedStage: Stage, nextStage: Stage, cursor: nat,
                                     outcomes: nat, termination: Option<Reason>, lastFailure: Option<Failure>)

  /** `<attempt>:<stage>:<digest>` and `failure:<attempt>:<stage>`; the digest is injective, so the material
      stands for it. */
  datatype AttemptKey = StageKey(attempt: nat, completed: Stage, material: KeyMaterial)
                      | FailureKey(attempt: nat, stage: Stage)

  datatype RowOutcome = Ended(reason: Reason) | FailedAttempt(failure: Failure) | AdvancedTo(stage: Stage) | StepFailed

  datatype AuditRow = AuditRow(
    key: AttemptKey, attemptNumber: nat, stage: Stage, outcome: RowOutcome, patchSha256: Option<Hash>,
    agentResult: Option<Response>, validation: Option<Validation.ValidationResult>,
    nextStage: Option<Stage>, cursor: nat, termination: Option<Reason>, error: Option<StepError>)

  function AttemptNumber(s: Snapshot): nat {
    if s.attemptCount < 1 then 1 else s.attemptCount
  }

  function KeyFor(previous: Snapshot, current: Snapshot): AttemptKey {
    StageKey(current.attemptCount, previous.stage,
             KeyMaterial(current.attemptCount, previous.stage, current.stage, current.cursor,
                         |current.outcomes|, current.termination, current.lastFailure))
  }

  /** `_attempt_for`. */
  function RowFor(previous: Snapshot, current: Snapshot): AuditRow {
    var response := if previous.stage == Stage.Patch then current.proposal
                    else if previous.stage == Diagnose then current.diagnosis else None;
    AuditRow(
      KeyFor(previous, current), AttemptNumber(current), previous.stage,
      if current.termination.Some? then Ended(current.termination.value)
      else if current.lastFailure.Some? then FailedAttempt(current.lastFailure.value)
      else AdvancedTo(current.stage),
      if current.proposal.Some? && current.proposal.value.patchArtifact.Some?
      then Some(current.proposal.value.patchArtifact.value.patchSha256) else None,
      response, if previous.stage == Validate then current.validation else None,
      Some(current.stage), current.cursor, current.termination, None)
  }

  function FailureRow(s: Snapshot, error: StepError): AuditRow {
    AuditRow(FailureKey(s.attemptCount, s.stage), AttemptNumber(s), s.stage, StepFailed, None, None, None,
             None, 0, None, Some(error))
  }

  /** One row per transition of a path, in order. */
  function Audit(path: seq<Snapshot>): (rows: seq<AuditRow>)
    ensures |rows| == if path == [] then 0 else |path| - 1
  {
    if |path| <= 1 then [] else Audit(path[..|path| - 1]) + [RowFor(path[|path| - 2], path[|path| - 1])]
  }

  /** `_status_for`. */
  function StatusFor(s: Snapshot): RunStatus {
    if s.stage != Stopped then Running
    else if s.termination == Some(Verified) then RunSucceeded else RunAbandoned
  }

  // ----- audit keys never collide

  lemma {:induction false} AuditAt(path: seq<Snapshot>, i: nat)
    requires i + 1 < |path|
    ensures Audit(path)[i] == RowFor(path[i], path[i + 1])
  {
    if i + 2 < |path| {
      AuditAt(path[..|path| - 1], i);
    }
  }

  /** No two transitions of a run have the same audit key, whatever the outside answered. */
  lemma AuditKeysDistinct(o: Setup, path: seq<Snapshot>, answers: seq<Answers>, i: nat, j: nat)
    requires IsRun(o, path, answers) && i < j < |answers|
    ensures KeyFor(path[i], path[i + 1]) != KeyFor(path[j], path[j + 1])
  {
    hide Step, Position;
    RunAdvances(o, path, answers, i + 1, j + 1);
  }

  /** The next transition's key is new among the rows already written. */
  lemma NextKeyIsNew(o: Setup, path: seq<Snapshot>, answers: seq<Answers>, row: AuditRow)
    requires IsRun(o, path, answers) && |answers| > 0
    requires row in Audit(path[..|answers|])
    ensures row.key != KeyFor(path[|answers| - 1], path[|answers|])
  {
    hide Step;
    var before := path[..|answers|];
    var i :| 0 <= i < |Audit(before)| && Audit(before)[i] == row;
    AuditAt(before, i);
    AuditKeysDistinct(o, path, answers, i, |answers| - 1);
  }

  lemma AttemptNumbersRise(o: Setup, path: seq<Snapshot>, answers: seq<Answers>, i: nat, j: nat)
    requires IsRun(o, path, answers) && i <= j < |path|
    ensures AttemptNumber(path[i]) <= AttemptNumber(path[j])
  {
    hide Step;
    RunIsLater(o, path, answers, i, j);
  }

  // ----- the stored run

  datatype StoreError = RunNotFound | NegativeCounters | CannotReopen | KeyConflict | InputConflict

  /** `_apply_remediation_snapshot`. */
  function Applied(record: RunRecord, status: RunStatus, s: Snapshot,
                   error: Option<StepError>): Result<RunRecord, StoreError>
  {
    if s.costSpent < 0.0 then Err(NegativeCounters)
    else if Completed(record.status) && status != record.status then Err(CannotReopen)
    else Ok(RunRecord(record.input, status, s.stage, Some(s), s.attemptCount, s.tokensSpent, s.costSpent,
                      s.termination, error))
  }

  /** The run row and audit rows behind one deduplication key. `path` and `answers` record, for the proof,
      how the stored snapshot came about. */
  class RunStore {
    var run: Option<RunRecord>
    var rows: seq<AuditRow>
    ghost var path: seq<Snapshot>
    ghost var answers: seq<Answers>

    /** The stored snapshot ends a run of the state machine, with exactly one audit row per transition, in
        order, plus one failure row if a step raised. */
    ghost predicate Valid(o: Setup)
      reads this
    {
      match run
      case None => rows == [] && path == []
      case Some(r) =>
        if r.snapshot.None? then r.status == Queued && rows == [] && path == []
        else
          && |path| == |answers| + 1 && IsRun(o, path, answers)
          && path[|answers|] == r.snapshot.value && path[0].limits == r.input.limits
          && r.input.fingerprint == o.fingerprint
          && (if r.status == RunFailed
              then r.error.Some? && path[|answers|].stage != Stopped
                   && rows == Audit(path) + [FailureRow(path[|answers|], r.error.value)]
              else r.status == StatusFor(path[|answers|]) && rows == Audit(path))
    }

    constructor ()
      ensures run == None && rows == [] && path == []
    {
      run, rows, path, answers := None, [], [], [];
    }

    /** `create_or_get`. */
    method CreateOrGet(value: RunInput) returns (r: Result<(RunRecord, bool), StoreError>)
      modifies this`run
      ensures old(run).Some? ==> run == old(run)
      ensures r.Ok? ==> run == Some(r.value.0) && r.value.1 == old(run).Some? && r.value.0.input == value
      ensures old(run).None? ==> r == Ok((RunRecord(value, Queued, Context, None, 0, 0, 0.0, None, None), false))
      ensures r.Err? <==> old(run).Some? && old(run).value.input != value
    {
      if run.Some? {
        if run.value.input != value {
          return Err(InputConflict);
        }
        return Ok((run.value, true));
      }
      run := Some(RunRecord(value, Queued, Context, None, 0, 0, 0.0, None, None));
      r := Ok((run.value, false));
    }

    /** `save_snapshot`. */
    method SaveSnapshot(status: RunStatus, s: Snapshot) returns (r: Result<RunRecord, StoreError>)
      modifies this`run
      ensures r == (if old(run).None? then Err(RunNotFound) else Applied(old(run).value, status, s, None))
      ensures run == if r.Ok? then Some(r.value) else old(run)
    {
      if run.None? {
        return Err(RunNotFound);
      }
      r := Applied(run.value, status, s, None);
      if r.Ok? {
        run := Some(r.value);
      }
    }

    /** `_append_remediation_attempt`: a key is written once; the same row again changes nothing. */
    method AppendAttempt(row: AuditRow) returns (r: Result<bool, StoreError>)
      modifies this`rows
      ensures (forall x :: x in old(rows) ==> x.key != row.key) ==> r == Ok(false)
      ensures r == Ok(false) ==> rows == old(rows) + [row] && forall x :: x in old(rows) ==> x.key != row.key
      ensures r != Ok(false) ==> rows == old(rows)
      ensures r.Err? ==> exists x :: x in rows && x.key == row.key && x != row
    {
      for i := 0 to |rows|
        invariant rows == old(rows) && forall x :: x in rows[..i] ==> x.key != row.key
      {
        if rows[i].key == row.key {
          return if rows[i] == row then Ok(true) else Err(KeyConflict);
        }
      }
      assert rows[..|rows|] == rows;
      rows := rows + [row];
      r := Ok(false);
    }

    /** `persist_stage`: snapshot and audit row in one transaction, both or neither. */
    method PersistStage(status: RunStatus, s: Snapshot, error: Option<StepError>, row: AuditRow)
      returns (r: Result<RunRecord, StoreError>)
      modifies this`run, this`rows
      ensures r.Err? ==> run == old(run) && rows == old(rows)
      ensures r.Ok? ==> old(run).Some? && r == Applied(old(run).value, status, s, error) && run == Some(r.value)
                        && (rows == old(rows) || rows == old(rows) + [row])
      ensures old(run).Some? && Applied(old(run).value, status, s, error).Ok?
              && (forall x :: x in old(rows) ==> x.key != row.key)
              ==> r.Ok? && rows == old(rows) + [row]
    {
      if run.None? {
        return Err(RunNotFound);
      }
      var applied := Applied(run.value, status, s, error);
      if applied.Err? {
        return applied;
      }
      var appended := AppendAttempt(row);
      if appended.Err? {
        return Err(appended.error);
      }
      run := Some(applied.value);
      r := applied;
    }
  }

  /** `list_attempts`: ordered by attempt number, rows of one attempt in the order they were written in. */
  function ListAttempts(rows: seq<AuditRow>): seq<AuditRow> {
    Sort(rows, AttemptLeq)
  }

  predicate AttemptLeq(a: AuditRow, b: AuditRow) {
    a.attemptNumber <= b.attemptNumber
  }

  /** Listing the attempts of a stored run, a failed one included, returns its rows in the order of writing. */
  lemma RowsAreInAttemptOrder(o: Setup, store: RunStore)
    requires Composed(o) && store.Valid(o)
    ensures ListAttempts(store.rows) == store.rows
  {
    hide Step;
    var rows, path := store.rows, store.path;
    forall i, j | 0 <= i < j < |rows| ensures AttemptLeq(rows[i], rows[j]) {
      var n := |path| - 1;
      AuditAt(path, i);
      if j < n {
        AuditAt(path, j);
        AttemptNumbersRise(o, path, store.answers, i + 1, j + 1);
      } else {
        AttemptNumbersRise(o, path, store.answers, i + 1, n);
      }
    }
    SortedIsFixed(rows, AttemptLeq);
  }

  /** A snapshot is stored unless its costs are negative or a run that has ended would change its status. */
  lemma AppliedIff(record: RunRecord, status: RunStatus, s: Snapshot, error: Option<StepError>)
    ensures var r := Applied(record, status, s, error);
            && (r.Ok? <==> s.costSpent >= 0.0 && (record.status in {Queued, Running} || status == record.status))
            && (r == Err(NegativeCounters) <==> s.costSpent < 0.0)
            && (r.Ok? ==> r.value.input == record.input && r.value.status == status && r.value.snapshot == Some(s)
                          && r.value.stage == s.stage && r.value.attemptCount == s.attemptCount
                          && r.value.tokensSpent == s.tokensSpent && r.value.costSpent == s.costSpent
                          && r.value.termination == s.termination && r.value.error == error)
  {
  }

  // ----- what is stored says what happened

  /** The stored status is how far the run came: it succeeded if and only if it stopped as verified, was abandoned if
      and only if it stopped for another reason, and failed if and only if its last row is about a step that raised. */
  lemma StatusSays(o: Setup, store: RunStore)
    requires Composed(o) && store.Valid(o) && store.run.Some?
    ensures var r, rows := store.run.value, store.rows;
            var stopped := r.snapshot.Some? && r.snapshot.value.stage == Stopped;
            && (r.status == Queued <==> r.snapshot == None)
            && (r.status == RunSucceeded <==> stopped && r.snapshot.value.termination == Some(Verified))
            && (r.status == RunAbandoned <==> stopped && r.snapshot.value.termination != Some(Verified))
            && (r.status == RunFailed <==> rows != [] && rows[|rows| - 1].outcome == StepFailed)
            && (r.status == RunFailed ==>
                  var last := rows[|rows| - 1];
                  && r.error.Some? && last.error == r.error && r.snapshot.Some? && last.stage == r.snapshot.value.stage
                  && last.attemptNumber == (if r.snapshot.value.attemptCount < 1 then 1
                                            else r.snapshot.value.attemptCount)
                  && last.key == FailureKey(r.snapshot.value.attemptCount, r.snapshot.value.stage))
            && (r.status == Running <==>
                  r.snapshot.Some? && !stopped && (rows == [] || rows[|rows| - 1].outcome != StepFailed))
            && r.status != RunCancelled
            && (Completed(r.status) <==> stopped || (rows != [] && rows[|rows| - 1].outcome == StepFailed))
  {
    hide Step;
    if store.run.value.snapshot.Some? && |store.path| > 1 {
      AuditAt(store.path, |store.path| - 2);
    }
  }

  /** The row of one step records its stage and position, why the run ended, if it did, or else what failed, the
      proposed patch, and the provider's response or the validation if and only if this step made it. */
  ghost predicate Records(o: Setup, s: Snapshot, t: Snapshot, a: Answers, row: AuditRow)
    requires Composed(o)
  {
    && row.stage == s.stage && row.nextStage == Some(t.stage) && row.cursor == t.cursor && row.error == None
    && (row.attemptNumber == t.attemptCount || (t.attemptCount == 0 && row.attemptNumber == 1))
    && row.termination == t.termination
    && (forall r :: row.outcome == Ended(r) <==> t.termination == Some(r))
    && (forall f :: row.outcome == FailedAttempt(f) <==> t.termination == None && t.lastFailure == Some(f))
    && (row.outcome == AdvancedTo(t.stage) <==> t.termination == None && t.lastFailure == None)
    && (forall hash :: row.patchSha256 == Some(hash) <==>
          t.proposal.Some? && t.proposal.value.patchArtifact.Some?
          && t.proposal.value.patchArtifact.value.patchSha256 == hash)
    && row.agentResult == (if CallsProvider(s, a) then Some(a.response) else None)
    && (row.validation.Some? <==> s.stage == Validate && Runs(s, a.now))
    && (row.validation.Some? ==> row.validation == t.validation)
  }

  lemma OnlyContextDiagnoses(o: Setup, path: seq<Snapshot>, answers: seq<Answers>, i: nat)
    requires IsRun(o, path, answers) && i < |path| && path[i].stage == Diagnose
    ensures path[i].diagnosis == None
  {
    hide Step, Inv;
    assert i > 0;
    RunInv(o, path, answers, i - 1);
    PathStep(o, path, answers, i - 1);
    StepMoves(o, path[i - 1], answers[i - 1]);
    DiagnosesFromContext(path[i - 1], path[i], answers[i - 1], |Required(o)|);
    OnlyTimeStopsEntry(o, path[i - 1], answers[i - 1]);
    BundleWasBuilt(o, path[i - 1], answers[i - 1]);
    ContextLeadsOn(o, path[i - 1], answers[i - 1]);
  }

  lemma DiagnosesFromContext(s: Snapshot, t: Snapshot, a: Answers, required: nat)
    requires Moves(s, t, a, required) && s.stage != Stopped && t.stage == Diagnose
    ensures s.stage == Context && Runs(s, a.now)
  {
    hide Runs;
  }

  lemma BundleWasBuilt(o: Setup, s: Snapshot, a: Answers)
    requires Composed(o) && Step(o, s, a).Ok? && s.stage == Context && Runs(s, a.now)
    ensures a.bundle.Some?
  {
  }

  /** Every audit row of a run records its own step. */
  lemma RowRecordsItsStep(o: Setup, path: seq<Snapshot>, answers: seq<Answers>, i: nat)
    requires IsRun(o, path, answers) && i < |answers|
    ensures Records(o, path[i], path[i + 1], answers[i], Audit(path)[i])
  {
    hide Step, Inv, Records;
    RunInv(o, path, answers, i);
    PathStep(o, path, answers, i);
    AuditAt(path, i);
    if path[i].stage == Diagnose {
      OnlyContextDiagnoses(o, path, answers, i);
    }
    RowRecords(o, path[i], answers[i]);
  }

  lemma RowRecords(o: Setup, s: Snapshot, a: Answers)
    requires Composed(o) && Inv(o, s) && s.stage != Stopped && Step(o, s, a).Ok?
    requires s.stage == Diagnose ==> s.diagnosis == None
    ensures Records(o, s, Step(o, s, a).value, a, RowFor(s, Step(o, s, a).value))
  {
    hide Step, Inv, Runs, DecisionOn;
    if s.stage == Diagnose {
      MadeByDiagnose(o, s, a);
    } else if s.stage == Stage.Patch {
      MadeByPatch(o, s, a);
    } else if s.stage == Validate {
      MadeByValidate(o, s, a);
    }
  }

  lemma MadeByDiagnose(o: Setup, s: Snapshot, a: Answers)
    requires Composed(o) && Inv(o, s) && s.stage == Diagnose && s.diagnosis == None && Step(o, s, a).Ok?
    ensures Step(o, s, a).value.diagnosis == if Runs(s, a.now) then Some(a.response) else None
  {
    hide Inv, StepPatch, StepValidate, StepVerify, StepDecide;
  }

  lemma MadeByPatch(o: Setup, s: Snapshot, a: Answers)
    requires Composed(o) && Inv(o, s) && s.stage == Stage.Patch && Step(o, s, a).Ok?
    ensures Step(o, s, a).value.proposal == if Runs(s, a.now) then Some(a.response) else None
  {
    hide StepDiagnose, StepValidate, StepVerify, StepDecide, Recorded, AcceptedIsSound, HandedOff;
  }

  lemma MadeByValidate(o: Setup, s: Snapshot, a: Answers)
    requires Composed(o) && Inv(o, s) && s.stage == Validate && Step(o, s, a).Ok?
    ensures Step(o, s, a).value.validation.Some? <==> Runs(s, a.now)
  {
    hide StepDiagnose, StepPatch, StepVerify, StepDecide, Recorded, AcceptedIsSound, HandedOff, Validation.Validation;
  }
}
