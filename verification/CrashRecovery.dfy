/** A deterministic driver executed again after every crash: what is stored in the end is what a run without
    crashes stores (`lou/application/remediation_runs.py`). */
module CrashRecovery {
  import opened Common
  import opened Orchestration
  import opened OrchestrationRuns
  import opened OrchestrationMachine
  import opened RemediationRuns
  import opened RemediationExecution

  /** Every step was answered by the same rule. */
  ghost predicate AnsweredBy(path: seq<Snapshot>, answers: seq<Answers>, rule: Snapshot -> Answers) {
    |path| == |answers| + 1 && forall i :: 0 <= i < |answers| ==> answers[i] == rule(path[i])
  }

  /** A run that went as far as it can: it stopped, or its next step raises. */
  ghost predicate Complete(o: Setup, path: seq<Snapshot>, answers: seq<Answers>, rule: Snapshot -> Answers) {
    && IsRun(o, path, answers) && AnsweredBy(path, answers, rule)
    && (path[|answers|].stage == Stopped || Step(o, path[|answers|], rule(path[|answers|])).Err?)
  }

  /** The audit rows of a complete run: one per transition, and one more if its next step raises. */
  function RowsOf(o: Setup, path: seq<Snapshot>, rule: Snapshot -> Answers): seq<AuditRow>
    requires Composed(o) && path != []
  {
    var last := path[|path| - 1];
    var next := Step(o, last, rule(last));
    if last.stage != Stopped && next.Err? then Audit(path) + [FailureRow(last, next.error)] else Audit(path)
  }

  // ----- a deterministic driver has one complete run

  lemma {:induction false} DeterministicPathsAgree(
    o: Setup, rule: Snapshot -> Answers, p: seq<Snapshot>, a: seq<Answers>, q: seq<Snapshot>, b: seq<Answers>, i: nat)
    requires IsRun(o, p, a) && IsRun(o, q, b) && p[0] == q[0]
    requires AnsweredBy(p, a, rule) && AnsweredBy(q, b, rule)
    requires i < |p| && i < |q|
    ensures p[i] == q[i]
  {
    hide Step;
    if i > 0 {
      DeterministicPathsAgree(o, rule, p, a, q, b, i - 1);
      PathStep(o, p, a, i - 1);
      PathStep(o, q, b, i - 1);
    }
  }

  /** Two complete runs of a deterministic driver from the same start are the same run, whether they stop or
      raise, so crashes and resumptions change neither the boundaries nor the audit rows. */
  lemma CrashesAreInvisible(
    o: Setup, rule: Snapshot -> Answers, p: seq<Snapshot>, a: seq<Answers>, q: seq<Snapshot>, b: seq<Answers>)
    requires Complete(o, p, a, rule) && Complete(o, q, b, rule) && p[0] == q[0]
    ensures p == q && RowsOf(o, p, rule) == RowsOf(o, q, rule)
  {
    hide Step, Audit;
    var i := if |a| < |b| then |a| else |b|;
    DeterministicPathsAgree(o, rule, p, a, q, b, i);
    if i < |a| {
      PathStep(o, p, a, i);
    } else if i < |b| {
      PathStep(o, q, b, i);
    }
    forall k | 0 <= k < |p| ensures p[k] == q[k] {
      DeterministicPathsAgree(o, rule, p, a, q, b, k);
    }
  }

  lemma ScriptedByRule(path: seq<Snapshot>, answers: seq<Answers>, from: nat,
                       script: (Snapshot, nat) -> Answers, rule: Snapshot -> Answers)
    requires |path| == |answers| + 1 && Scripted(path, answers, from, script)
    requires forall s, k :: script(s, k) == rule(s)
    requires forall i :: 0 <= i < from && i < |answers| ==> answers[i] == rule(path[i])
    ensures AnsweredBy(path, answers, rule)
  {
    forall i | 0 <= i < |answers| ensures answers[i] == rule(path[i]) {
      assert i >= from ==> AnsweredFrom(path[i], answers[i], script);
    }
  }

  // ----- what is stored in the end

  /** What is stored is a complete run of the driver, and any other complete run from the same start, however
      it was executed, has the same boundaries and the same audit rows. */
  ghost predicate StoredUninterrupted(o: Setup, path: seq<Snapshot>, answers: seq<Answers>, rows: seq<AuditRow>,
                                      rule: Snapshot -> Answers)
  {
    && Complete(o, path, answers, rule) && rows == RowsOf(o, path, rule)
    && forall q: seq<Snapshot>, b: seq<Answers> ::
         Complete(o, q, b, rule) && q[0] == path[0] ==> q == path && RowsOf(o, q, rule) == rows
  }

  lemma CompleteIsUninterrupted(o: Setup, path: seq<Snapshot>, answers: seq<Answers>, rows: seq<AuditRow>,
                                rule: Snapshot -> Answers)
    requires Complete(o, path, answers, rule) && rows == RowsOf(o, path, rule)
    ensures StoredUninterrupted(o, path, answers, rows, rule)
  {
    hide Step, RowsOf;
    forall q: seq<Snapshot>, b: seq<Answers> | Complete(o, q, b, rule) && q[0] == path[0]
      ensures q == path && RowsOf(o, q, rule) == rows
    {
      CrashesAreInvisible(o, rule, path, answers, q, b);
    }
  }

  // ----- schedules of crashes

  /** The executions before the `first` die before they create the run. */
  ghost predicate CreatedBy(crashes: seq<nat>, first: nat) {
    first < |crashes| && crashes[first] > 0 && forall i :: 0 <= i < first ==> crashes[i] == 0
  }

  /** The execution that creates the run also saves its first snapshot. */
  ghost predicate SurvivesFirstSnapshot(crashes: seq<nat>) {
    exists first: nat :: CreatedBy(crashes, first) && crashes[first] >= 2
  }

  lemma CreatedOnce(crashes: seq<nat>, first: nat)
    requires CreatedBy(crashes, first)
    ensures SurvivesFirstSnapshot(crashes) <==> crashes[first] >= 2
  {
    assert forall other: nat :: CreatedBy(crashes, other) ==> !(other < first) && !(first < other);
  }

  /** Execute, and execute again after every crash: one execution per entry of `crashes`, each dying before
      that effect if it gets there. A schedule that survives the first snapshot and ends with an execution that
      is left alone long enough returns; whatever returns has stored, and reports, exactly what an uninterrupted
      run of the same driver stores, also when that run ends because a step raises. A process that dies between
      creating the run and its first snapshot leaves a run that no later execution ever completes. */
  method ExecuteDespiteCrashes(store: RunStore, driver: RemediationOrchestrator, value: RunInput, startNow: real,
                               rule: Snapshot -> Answers, crashes: seq<nat>)
    returns (exit: Exit)
    requires Composed(driver.o) && store.Valid(driver.o) && GoodLimits(value.limits) && store.run == None
    modifies store
    ensures store.Valid(driver.o)
    ensures value.fingerprint == driver.o.fingerprint && SurvivesFirstSnapshot(crashes)
            && crashes != [] && crashes[|crashes| - 1] >= MostEffects(driver.o, value.limits) ==>
              exit.Returned?
    ensures exit.Returned? ==>
              && store.path != [] && store.path[0] == Start(driver.o, value.limits, startNow)
              && exit.state == store.path[|store.path| - 1]
              && StoredUninterrupted(driver.o, store.path, store.answers, store.rows, rule)
    ensures !SurvivesFirstSnapshot(crashes) ==>
              && !exit.Returned? && store.path == []
              && ((exists n :: 0 <= n < |crashes| && crashes[n] > 0) && value.fingerprint == driver.o.fingerprint
                  ==> HasNoSnapshot(store.run, value))
  {
    hide Step, IsRun, Audit, MostEffects;
    exit := Crashed;
    ghost var first := 0;
    for n := 0 to |crashes|
      invariant store.Valid(driver.o) && !exit.Returned?
      invariant store.run.Some? ==> store.run.value.input == value && !Completed(store.run.value.status)
      invariant first <= n && (forall i :: 0 <= i < first ==> crashes[i] == 0)
      invariant if store.run.None? then first == n else CreatedBy(crashes, first) && first < n
      invariant store.path != [] ==>
                  && crashes[first] >= 2 && exit.Crashed? && crashes[n - 1] < MostEffects(driver.o, value.limits)
                  && |store.path| == |store.answers| + 1 && AnsweredBy(store.path, store.answers, rule)
                  && store.path[0] == Start(driver.o, value.limits, startNow)
      invariant store.run.Some? && store.path == [] ==>
                  HasNoSnapshot(store.run, value) && (value.fingerprint == driver.o.fingerprint ==> crashes[first] == 1)
    {
      ghost var before := if store.path == [] then 0 else |store.answers|;
      exit := Execute(store, driver, value, startNow, (s, k) => rule(s), crashes[n]);
      if store.run.None? {
        first := n + 1;
      }
      if store.path != [] {
        ScriptedByRule(store.path, store.answers, before, (s, k) => rule(s), rule);
      }
      if exit.Returned? {
        CreatedOnce(crashes, first);
        ReturnedIsComplete(driver.o, store, exit.state, rule);
        return;
      }
    }
    if first < |crashes| {
      CreatedOnce(crashes, first);
    }
  }

  lemma ReturnedIsComplete(o: Setup, store: RunStore, state: Snapshot, rule: Snapshot -> Answers)
    requires Composed(o) && store.Valid(o) && store.run.Some? && store.run.value.snapshot == Some(state)
    requires AnsweredBy(store.path, store.answers, rule) && Completed(store.run.value.status)
    requires if store.run.value.status == RunFailed then RaisedBy(o, state, store.run.value.error, (s, k) => rule(s))
             else state.stage == Stopped
    ensures StoredUninterrupted(o, store.path, store.answers, store.rows, rule)
  {
    hide Step, Audit;
    CompleteIsUninterrupted(o, store.path, store.answers, store.rows, rule);
  }
}
