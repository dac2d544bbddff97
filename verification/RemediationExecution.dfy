/** `execute`: create or resume a run and persist every boundary, with a crash possible before any effect. */
module RemediationExecution {
  import opened Common
  import opened Orchestration
  import opened OrchestrationInvariant
  import opened OrchestrationRuns
  import opened OrchestrationMachine
  import opened RemediationRuns

  datatype ServiceError = StoreFailed(error: StoreError) | NoSnapshot | DifferentFingerprint

  /** How one execution ends: the process dies, the call returns, or it raises. */
  datatype Exit = Crashed | Returned(state: Snapshot, reused: bool) | Refused(error: ServiceError)

  // ----- one more persisted boundary keeps the store valid

  lemma AuditSnoc(path: seq<Snapshot>, next: Snapshot)
    requires path != []
    ensures Audit(path + [next]) == Audit(path) + [RowFor(path[|path| - 1], next)]
  {
    hide RowFor;
    assert (path + [next])[..|path|] == path;
  }

  lemma RunSnoc(o: Setup, path: seq<Snapshot>, answers: seq<Answers>, a: Answers, next: Snapshot)
    requires IsRun(o, path, answers) && path[|answers|].stage != Stopped && Step(o, path[|answers|], a) == Ok(next)
    ensures IsRun(o, path + [next], answers + [a])
  {
    hide Step;
    var p, q := path + [next], answers + [a];
    forall i | 0 <= i < |q| ensures p[i].stage != Stopped && Step(o, p[i], q[i]) == Ok(p[i + 1]) {
      if i < |answers| {
        PathStep(o, path, answers, i);
      }
    }
  }

  /** A transition row never collides with the rows already there. */
  lemma RowIsNew(o: Setup, path: seq<Snapshot>, answers: seq<Answers>, a: Answers, next: Snapshot)
    requires IsRun(o, path, answers) && path[|answers|].stage != Stopped && Step(o, path[|answers|], a) == Ok(next)
    ensures forall x :: x in Audit(path) ==> x.key != KeyFor(path[|answers|], next)
  {
    RunSnoc(o, path, answers, a, next);
    assert (path + [next])[..|path|] == path;
    forall x | x in Audit(path) ensures x.key != KeyFor(path[|answers|], next) {
      NextKeyIsNew(o, path + [next], answers + [a], x);
    }
  }

  lemma {:induction false} TransitionKeys(path: seq<Snapshot>)
    ensures forall x :: x in Audit(path) ==> x.key.StageKey?
  {
    if |path| > 1 {
      TransitionKeys(path[..|path| - 1]);
    }
  }

  /** Record one successful step: `_persist_transition`. */
  method PersistTransition(store: RunStore, o: Setup, ghost a: Answers, previous: Snapshot, current: Snapshot)
    returns (r: Result<RunRecord, StoreError>)
    requires Composed(o) && store.Valid(o) && store.run.Some? && store.run.value.snapshot == Some(previous)
    requires store.run.value.status == Running && Step(o, previous, a) == Ok(current)
    modifies store
    ensures r.Ok? && store.Valid(o) && store.run == Some(r.value) && r.value.input == old(store.run).value.input
    ensures r.value.snapshot == Some(current) && r.value.status == StatusFor(current)
    ensures store.path == old(store.path) + [current] && store.answers == old(store.answers) + [a]
    ensures store.rows == old(store.rows) + [RowFor(previous, current)]
  {
    hide Step, Audit;
    RunInv(o, store.path, store.answers, |store.answers|);
    RowIsNew(o, store.path, store.answers, a, current);
    StepInv(o, previous, a);
    RunSnoc(o, store.path, store.answers, a, current);
    AuditSnoc(store.path, current);
    r := store.PersistStage(StatusFor(current), current, None, RowFor(previous, current));
    store.path, store.answers := store.path + [current], store.answers + [a];
  }

  /** Record that a step raised: `_save_failure`. */
  method SaveFailure(store: RunStore, o: Setup, state: Snapshot, error: StepError)
    returns (r: Result<RunRecord, StoreError>)
    requires Composed(o) && store.Valid(o) && store.run.Some? && store.run.value.snapshot == Some(state)
    requires store.run.value.status == Running
    modifies store
    ensures r.Ok? && store.Valid(o) && store.run == Some(r.value) && r.value.status == RunFailed
    ensures r.value.input == old(store.run).value.input && r.value.error == Some(error)
    ensures r.value.snapshot == Some(state) && store.path == old(store.path) && store.answers == old(store.answers)
    ensures store.rows == old(store.rows) + [FailureRow(state, error)]
  {
    hide Step;
    RunInv(o, store.path, store.answers, |store.answers|);
    TransitionKeys(store.path);
    r := store.PersistStage(RunFailed, state, Some(error), FailureRow(state, error));
  }

  // ----- execute

  /** From boundary `from` on, every step was answered by this execution's script. */
  ghost predicate Scripted(path: seq<Snapshot>, answers: seq<Answers>, from: nat, script: (Snapshot, nat) -> Answers) {
    |answers| <= |path| && forall i :: from <= i < |answers| ==> AnsweredFrom(path[i], answers[i], script)
  }

  ghost predicate AnsweredFrom(s: Snapshot, a: Answers, script: (Snapshot, nat) -> Answers) {
    exists k :: a == script(s, k)
  }

  /** `execute` refuses the request outright: no run yet but other inputs than the driver's, or a stored run
      that is another request's or has no snapshot to resume from. */
  predicate Refuses(o: Setup, run: Option<RunRecord>, value: RunInput) {
    if run.None? then value.fingerprint != o.fingerprint else run.value.input != value || run.value.snapshot.None?
  }

  /** The request was stored, but the process died before its first snapshot. */
  predicate HasNoSnapshot(run: Option<RunRecord>, value: RunInput) {
    run.Some? && run.value.input == value && run.value.snapshot.None?
  }

  lemma StoredFingerprint(o: Setup, store: RunStore)
    requires Composed(o) && store.Valid(o) && store.run.Some? && store.run.value.snapshot.Some?
    ensures store.run.value.snapshot.value.inputsFingerprint == o.fingerprint
  {
    hide Step, Audit;
    RunInv(o, store.path, store.answers, |store.answers|);
  }

  lemma StartIsRun(o: Setup, limits: Limits, now: real)
    requires Composed(o) && GoodLimits(limits)
    ensures IsRun(o, [Start(o, limits, now)], []) && Audit([Start(o, limits, now)]) == []
  {
  }

  /** Create or resume: everything `execute` does before its loop. Without an exit, the run is stored as
      running with the returned state as its snapshot. */
  method Prepare(store: RunStore, driver: RemediationOrchestrator, value: RunInput, startNow: real, crashAt: nat)
    returns (exit: Option<Exit>, state: OrchestrationState, existed: bool, effects: nat)
    requires Composed(driver.o) && store.Valid(driver.o) && GoodLimits(value.limits)
    modifies store
    ensures store.Valid(driver.o) && store.rows == old(store.rows)
    ensures old(store.run).Some? ==>
              store.run == old(store.run) && store.path == old(store.path) && store.answers == old(store.answers)
    // dying before the run is created changes nothing; dying before its first snapshot leaves it without one
    ensures exit == Some(Crashed) <==>
              crashAt == 0 || (crashAt == 1 && old(store.run).None? && !Refuses(driver.o, None, value))
    ensures exit == Some(Crashed) ==> store.path == old(store.path)
    ensures crashAt == 0 ==> store.run == old(store.run)
    ensures crashAt > 0 && old(store.run).None? ==> store.run.Some? && store.run.value.input == value
    ensures old(store.run).None? && exit.Some? ==> store.path == [] && (crashAt > 0 ==> store.run.value.snapshot.None?)
    // refusals
    ensures exit.Some? && exit.value.Refused? <==> crashAt > 0 && Refuses(driver.o, old(store.run), value)
    ensures crashAt > 0 && HasNoSnapshot(old(store.run), value) ==> exit == Some(Refused(NoSnapshot))
    // a completed run is only reported
    ensures exit.Some? && exit.value.Returned? <==>
              crashAt > 0 && !Refuses(driver.o, old(store.run), value)
              && old(store.run).Some? && Completed(old(store.run).value.status)
    ensures exit.Some? && exit.value.Returned? ==>
              exit.value.reused && store.run.value.snapshot == Some(exit.value.state)
    // everything else goes on to the loop
    ensures exit.None? ==>
              && store.path != [] && store.run.Some? && store.run.value.status == Running
              && store.run.value.snapshot == Some(state.View()) && store.path[0].limits == value.limits
              && existed == old(store.run).Some? && effects == 1 + |store.path| - |old(store.path)|
              && effects <= crashAt
    ensures exit.None? && !existed ==> store.path == [Start(driver.o, value.limits, startNow)] && crashAt >= 2
  {
    hide Step, Audit, IsRun;
    state := driver.Begin(value.limits, startNow);
    exit, existed, effects := None, false, 0;
    if crashAt == 0 {
      exit := Some(Crashed);
      return;
    }
    var created := store.CreateOrGet(value);
    effects := 1;
    if created.Err? {
      exit := Some(Refused(StoreFailed(created.error)));
      return;
    }
    existed := created.value.1;
    if existed {
      if created.value.0.snapshot.None? {
        exit := Some(Refused(NoSnapshot));
        return;
      }
      state := new OrchestrationState(created.value.0.snapshot.value);
      StoredFingerprint(driver.o, store);
    } else {
      StartIsRun(driver.o, value.limits, startNow);
    }
    if state.inputsFingerprint != value.fingerprint {
      exit := Some(Refused(DifferentFingerprint));
    } else if Completed(created.value.0.status) {
      exit := Some(Returned(state.View(), true));
    } else if !existed {
      if effects == crashAt {
        exit := Some(Crashed);
        return;
      }
      var saved := store.SaveSnapshot(Running, state.View());
      store.path, store.answers := [state.View()], [];
      effects := 2;
    }
  }

  /** The step from `s` raised what the run record says. */
  ghost predicate RaisedBy(o: Setup, s: Snapshot, error: Option<StepError>, script: (Snapshot, nat) -> Answers)
    requires Composed(o)
  {
    exists k :: error.Some? && Step(o, s, script(s, k)) == Err(error.value)
  }

  /** The longest an execution can take, counted in effects: creation, first snapshot, every boundary. */
  function MostEffects(o: Setup, limits: Limits): (n: nat)
    requires Composed(o)
    ensures n >= 2
  {
    NonNegativeProduct(limits.maxAttempts, 5 + |Required(o)|);
    2 + limits.maxAttempts * (5 + |Required(o)|)
  }

  lemma UnfinishedIsShorter(o: Setup, path: seq<Snapshot>, answers: seq<Answers>)
    requires IsRun(o, path, answers) && path[|answers|].stage != Stopped
    ensures |path| + 1 < MostEffects(o, path[0].limits)
  {
    hide Step;
    StartInv(o, path[0].limits, path[0].startedAt);
    PathDecreases(o, path, answers, |answers|);
    RunInv(o, path, answers, |answers|);
    StepsLeftPositive(o, path[|answers|]);
  }

  /** Run or resume. `script(s, k)` is what the outside says at the `k`-th step of this execution; the
      process dies before its effect number `crashAt`, if it gets that far. */
  method Execute(store: RunStore, driver: RemediationOrchestrator, value: RunInput, startNow: real,
                 script: (Snapshot, nat) -> Answers, crashAt: nat)
    returns (exit: Exit)
    requires Composed(driver.o) && store.Valid(driver.o) && GoodLimits(value.limits)
    modifies store
    ensures store.Valid(driver.o)
    // nothing already persisted is lost or rewritten
    ensures old(store.path) <= store.path && old(store.rows) <= store.rows
    ensures old(store.path) != [] ==> old(store.answers) <= store.answers
    ensures old(store.path) == [] && store.path != [] ==> store.path[0] == Start(driver.o, value.limits, startNow)
    ensures old(store.run).Some? ==> store.run.Some? && store.run.value.input == old(store.run).value.input
    ensures crashAt > 0 && old(store.run).None? ==> store.run.Some? && store.run.value.input == value
    // every new boundary is a step on what this execution was told
    ensures store.path != [] ==>
              Scripted(store.path, store.answers, if old(store.path) == [] then 0 else |old(store.answers)|, script)
    // it dies exactly after `crashAt` effects, and only short of the end
    ensures crashAt == 0 ==> exit == Crashed && store.run == old(store.run) && store.path == old(store.path)
    ensures exit.Crashed? && crashAt > 0 ==>
              && crashAt == 1 + |store.path| - |old(store.path)|
              && (store.path != [] ==> store.path[|store.path| - 1].stage != Stopped)
    ensures exit.Crashed? ==> crashAt < MostEffects(driver.o, value.limits)
    ensures exit.Returned? ==> crashAt >= 1 + |store.path| - |old(store.path)|
    // it refuses exactly these requests; a run that died before its first snapshot among them, for ever
    ensures exit.Refused? <==> crashAt > 0 && Refuses(driver.o, old(store.run), value)
    ensures crashAt > 0 && HasNoSnapshot(old(store.run), value) ==> exit == Refused(NoSnapshot)
    ensures exit.Refused? ==> store.path == old(store.path) && (old(store.run).Some? ==> store.run == old(store.run))
    ensures old(store.run).None? && crashAt == 1 && !exit.Refused? ==>
            exit == Crashed && HasNoSnapshot(store.run, value)
    ensures crashAt > 1 && !exit.Refused? ==> store.path != []
    // otherwise the run is carried to its end, unless a step raises; a completed run is only reported
    ensures exit.Returned? ==>
              && store.run.Some? && store.run.value.input == value && Completed(store.run.value.status)
              && store.run.value.snapshot == Some(exit.state) && exit.reused == old(store.run).Some?
    ensures exit.Returned? && store.run.value.status != RunFailed ==> exit.state.stage == Stopped
    ensures exit.Returned? && store.run.value.status == RunFailed && store.run != old(store.run) ==>
              RaisedBy(driver.o, exit.state, store.run.value.error, script)
    ensures old(store.run).Some? && Completed(old(store.run).value.status) ==> store.run == old(store.run)
    ensures !exit.Returned? && store.run.Some? && Completed(store.run.value.status) ==> store.run == old(store.run)
  {
    hide Step, Audit, MostEffects;
    var early, state, existed, effects := Prepare(store, driver, value, startNow, crashAt);
    if early.Some? {
      exit := early.value;
      return;
    }
    exit := Continue(store, driver, state, script, existed, effects, crashAt);
    if exit.Crashed? {
      UnfinishedIsShorter(driver.o, store.path, store.answers);
    }
  }

  /** One turn of the loop: step, then persist unless the process dies in between. */
  method TakeStep(store: RunStore, driver: RemediationOrchestrator, state: OrchestrationState, a: Answers,
                  existed: bool, dies: bool)
    returns (exit: Option<Exit>, next: OrchestrationState)
    requires Composed(driver.o) && store.Valid(driver.o) && store.run.Some? && store.run.value.status == Running
    requires store.run.value.snapshot == Some(state.View()) && state.stage != Stopped
    modifies store
    ensures store.Valid(driver.o) && store.run.Some?
    ensures exit.None? ==>
            store.run.value.snapshot == Some(next.View()) && store.run.value.status == StatusFor(next.View())
                           && StepsLeft(driver.o, next.View()) < StepsLeft(driver.o, old(state.View()))
                           && store.path == old(store.path) + [next.View()]
                           && store.answers == old(store.answers) + [a]
                           && store.rows == old(store.rows) + [RowFor(old(state.View()), next.View())]
    ensures exit.Some? ==>
            store.path == old(store.path) && store.answers == old(store.answers) && old(store.rows) <= store.rows
    ensures exit == Some(Crashed) <==> dies
    ensures dies ==> store.run == old(store.run)
    ensures exit.Some? && !dies ==>
              && exit.value == Returned(old(state.View()), existed) && store.run.value.status == RunFailed
              && store.run.value.snapshot == Some(old(state.View())) && store.run.value.error.Some?
              && Step(driver.o, old(state.View()), a) == Err(store.run.value.error.value)
    ensures store.run.value.input == old(store.run).value.input
  {
    hide Step, Audit;
    exit, next := None, state;
    var previous := state.View();
    RunInv(driver.o, store.path, store.answers, |store.answers|);
    var stepped := driver.Advance(state, a);
    if dies {
      exit := Some(Crashed);
      return;
    }
    if stepped.Err? {
      var failed := SaveFailure(store, driver.o, previous, stepped.error);
      exit := Some(Returned(previous, existed));
      return;
    }
    next := stepped.value;
    StepDecreases(driver.o, previous, a);
    var persisted := PersistTransition(store, driver.o, a, previous, next.View());
  }

  lemma ScriptedSnoc(path: seq<Snapshot>, answers: seq<Answers>, from: nat, script: (Snapshot, nat) -> Answers,
                     next: Snapshot, k: nat)
    requires |path| == |answers| + 1 && Scripted(path, answers, from, script)
    ensures Scripted(path + [next], answers + [script(path[|answers|], k)], from, script)
  {
    var p, q := path + [next], answers + [script(path[|answers|], k)];
    forall i | from <= i < |q| ensures AnsweredFrom(p[i], q[i], script) {
      if i < |answers| {
        assert AnsweredFrom(path[i], answers[i], script);
      }
    }
  }

  /** The loop of `execute`. */
  method Continue(store: RunStore, driver: RemediationOrchestrator, saved: OrchestrationState,
                  script: (Snapshot, nat) -> Answers, existed: bool, done: nat, crashAt: nat)
    returns (exit: Exit)
    requires Composed(driver.o) && store.Valid(driver.o) && store.run.Some?
    requires store.run.value.snapshot == Some(saved.View()) && store.run.value.status == Running && done <= crashAt
    modifies store
    ensures store.Valid(driver.o) && store.run.Some? && !exit.Refused?
            && store.run.value.input == old(store.run).value.input
    ensures old(store.path) <= store.path && old(store.rows) <= store.rows && old(store.answers) <= store.answers
    ensures Scripted(store.path, store.answers, |old(store.answers)|, script)
    // the process dies exactly when it has done `crashAt` effects, before the run's end
    ensures exit.Crashed? ==>
              && crashAt == done + |store.path| - |old(store.path)|
              && store.path != [] && store.path[|store.path| - 1].stage != Stopped && store.run.value.status == Running
    ensures exit.Returned? ==> crashAt >= done + |store.path| - |old(store.path)|
    ensures exit.Returned? ==> exit.reused == existed
                               && Completed(store.run.value.status) && store.run.value.snapshot == Some(exit.state)
    ensures exit.Returned? && store.run.value.status != RunFailed ==> exit.state.stage == Stopped
    ensures exit.Returned? && store.run.value.status == RunFailed ==>
              RaisedBy(driver.o, exit.state, store.run.value.error, script)
  {
    hide Step, Audit;
    var state, k, effects := saved, 0, done;
    while state.stage != Stopped
      invariant store.Valid(driver.o) && store.run.Some? && store.run.value.snapshot == Some(state.View())
      invariant store.run.value.status == StatusFor(state.View()) && store.run.value.input == old(store.run).value.input
      invariant old(store.path) <= store.path && old(store.rows) <= store.rows && old(store.answers) <= store.answers
      invariant Scripted(store.path, store.answers, |old(store.answers)|, script)
      invariant effects == done + |store.path| - |old(store.path)| <= crashAt
      decreases StepsLeft(driver.o, state.View())
    {
      RunInv(driver.o, store.path, store.answers, |store.answers|);
      StepsLeftPositive(driver.o, state.View());
      ghost var path, answers := store.path, store.answers;
      var early, next := TakeStep(store, driver, state, script(state.View(), k), existed, effects == crashAt);
      if early.Some? {
        return early.value;
      }
      ScriptedSnoc(path, answers, |old(store.answers)|, script, next.View(), k);
      state, k, effects := next, k + 1, effects + 1;
    }
    exit := Returned(state.View(), existed);
  }
}
