/** Any number of requests about one plan, interleaving at every database access and at the publisher's call
    (`lou/application/publication.py`). */
module PublicationConcurrency {
  import opened Common
  import Orchestration
  import opened Publication

  /** How a request ends: refused for its acknowledgement, with the record it found or wrote, with the publisher's
      uncaught error, beaten to the insert by another request (the plan ID is unique), or dead: with its process
      or by a database error. */
  datatype Ending = Rejected | Found(record: Record) | Wrote(record: Record) | Raised | Beaten | Dead

  /** Where a request is: not begun, past an open gate, with no record read, about to select in `_save`, about to
      insert, or over. */
  datatype Stage = Waiting | Gated | ReadNone | Saving(record: Record) | Inserting(record: Record) | Over(end: Ending)

  datatype Caller = Caller(stage: Stage, called: bool)

  datatype World = World(record: Option<Record>, calls: nat, callers: seq<Caller>)

  datatype Move = DryRuns(c: nat, s: Orchestration.Snapshot)
                | Publishes(c: nat, s: Orchestration.Snapshot, acknowledgement: string)
                | LooksUp(c: nat) | Calls(c: nat, answer: PublisherAnswer)
                | Selects(c: nat) | Inserts(c: nat) | Dies(c: nat)

  // ----- the moves

  /** A request's next move; one that is not enabled changes nothing. */
  function Next(w: World, move: Move): World {
    if move.c >= |w.callers| then w
    else
      var stage := w.callers[move.c].stage;
      match move
      case DryRuns(c, s) =>
        if !stage.Waiting? then w
        else GoesTo(w, c, Saving(Record(if DryRunAllowed(s) then DryRun else Denied, None)))
      case Publishes(c, s, acknowledgement) =>
        if !stage.Waiting? then w
        else if acknowledgement != ACKNOWLEDGEMENT then GoesTo(w, c, Over(Rejected))
        else if !PublishAllowed(s) then GoesTo(w, c, Saving(Record(Denied, None)))
        else GoesTo(w, c, Gated)
      case LooksUp(c) =>
        if !stage.Gated? then w
        else if w.record.Some? then GoesTo(w, c, Over(Found(w.record.value)))
        else GoesTo(w, c, ReadNone)
      case Calls(c, answer) =>
        if !stage.ReadNone? then w
        else
          var after := if answer.OtherError? then Over(Raised) else Saving(RecordFor(answer));
          World(w.record, w.calls + 1, w.callers[c := Caller(after, true)])
      case Selects(c) =>
        if !stage.Saving? then w
        else if w.record.Some? then GoesTo(w, c, Over(Found(w.record.value)))
        else GoesTo(w, c, Inserting(stage.record))
      case Inserts(c) =>
        if !stage.Inserting? then w
        else if w.record.Some? then GoesTo(w, c, Over(Beaten))
        else GoesTo(w, c, Over(Wrote(stage.record))).(record := Some(stage.record))
      case Dies(c) =>
        if stage.Over? then w else GoesTo(w, c, Over(Dead))
  }

  function GoesTo(w: World, c: nat, stage: Stage): World
    requires c < |w.callers|
  {
    w.(callers := w.callers[c := w.callers[c].(stage := stage)])
  }

  // ----- what every move keeps

  /** The record of a publisher call, as opposed to a dry run's or a refusal's. */
  predicate OfCall(r: Record) {
    r.status in {Published, PublisherFailed}
  }

  predicate Fits(record: Option<Record>, caller: Caller) {
    match caller.stage
    case Waiting | Gated | ReadNone | Over(Rejected) => !caller.called
    case Saving(r) => OfCall(r) <==> caller.called
    case Inserting(r) => OfCall(r) <==> caller.called
    case Over(Wrote(r)) => (OfCall(r) <==> caller.called) && record == Some(r)
    case Over(Found(r)) => record == Some(r)
    case Over(Raised) => caller.called
    case Over(Beaten) => record.Some?
    case Over(Dead) => true
  }

  predicate HasWritten(w: World, c: nat) {
    c < |w.callers| && w.callers[c].stage.Over? && w.callers[c].stage.end.Wrote?
  }

  /** The requests that called the publisher. */
  function CalledBy(w: World): set<nat> {
    set c: nat | c < |w.callers| && w.callers[c].called
  }

  /** The calls that left no record: still to be saved, lost, or answered with another request's record. */
  function Unrecorded(w: World): set<nat> {
    set c: nat | c < |w.callers| && w.callers[c].called && !HasWritten(w, c)
  }

  ghost predicate Inv(w: World) {
    && w.calls == |CalledBy(w)|
    && (forall c :: 0 <= c < |w.callers| ==> Fits(w.record, w.callers[c]))
    && (w.record.Some? ==> exists c: nat :: HasWritten(w, c))
    && forall b: nat, c: nat :: HasWritten(w, b) && HasWritten(w, c) ==> b == c
  }

  ghost predicate Fresh(w: World) {
    w.record == None && w.calls == 0 && forall c :: 0 <= c < |w.callers| ==> w.callers[c] == Caller(Waiting, false)
  }

  lemma FreshInv(w: World)
    requires Fresh(w)
    ensures Inv(w)
  {
    assert CalledBy(w) == {};
  }

  lemma NextCalls(w: World, move: Move)
    requires Inv(w)
    ensures Next(w, move).calls == |CalledBy(Next(w, move))|
    ensures CalledBy(Next(w, move)) ==
            if move.Calls? && move.c < |w.callers| && w.callers[move.c].stage.ReadNone? then CalledBy(w) + {move.c}
            else CalledBy(w)
  {
    hide PublishAllowed, DryRunAllowed, RecordFor;
    var c, t := move.c, Next(w, move);
    if move.Calls? && c < |w.callers| && w.callers[c].stage.ReadNone? {
      assert CalledBy(t) == CalledBy(w) + {c};
      assert Fits(w.record, w.callers[c]);
    } else {
      assert CalledBy(t) == CalledBy(w);
    }
  }

  predicate WritesNow(w: World, move: Move) {
    move.Inserts? && move.c < |w.callers| && w.callers[move.c].stage.Inserting? && w.record.None?
  }

  lemma NextWritten(w: World, move: Move, b: nat)
    ensures |Next(w, move).callers| == |w.callers|
    ensures HasWritten(Next(w, move), b) <==> HasWritten(w, b) || (b == move.c && WritesNow(w, move))
    ensures !WritesNow(w, move) ==> Next(w, move).record == w.record
    ensures WritesNow(w, move) ==> Next(w, move).record.Some? && w.record.None?
  {
    hide PublishAllowed, DryRunAllowed, RecordFor;
  }

  lemma NextFits(w: World, move: Move, b: nat)
    requires b < |w.callers| == |Next(w, move).callers| && Fits(w.record, w.callers[b])
    requires move.c < |w.callers| ==> Fits(w.record, w.callers[move.c])
    ensures Fits(Next(w, move).record, Next(w, move).callers[b])
  {
    hide PublishAllowed, DryRunAllowed;
  }

  /** Every move keeps the accounting, and the first record stays. */
  lemma NextInv(w: World, move: Move)
    requires Inv(w)
    ensures Inv(Next(w, move))
    ensures w.record.Some? ==> Next(w, move).record == w.record
  {
    NextCalls(w, move);
    var t := Next(w, move);
    hide CalledBy, Fits, HasWritten, Next;
    NextWritten(w, move, move.c);
    forall b | 0 <= b < |w.callers| ensures Fits(t.record, t.callers[b]) {
      NextFits(w, move, b);
    }
    forall b: nat ensures HasWritten(t, b) <==> HasWritten(w, b) || (b == move.c && WritesNow(w, move)) {
      NextWritten(w, move, b);
    }
  }

  // ----- whole interleavings

  ghost predicate IsPath(worlds: seq<World>, moves: seq<Move>) {
    |worlds| == |moves| + 1 && forall i :: 0 <= i < |moves| ==> worlds[i + 1] == Next(worlds[i], moves[i])
  }

  ghost predicate IsHistory(worlds: seq<World>, moves: seq<Move>) {
    IsPath(worlds, moves) && Fresh(worlds[0])
  }

  /** The first record stays under any interleaving. */
  lemma {:induction false} HistoryInv(worlds: seq<World>, moves: seq<Move>, i: nat, j: nat)
    requires IsHistory(worlds, moves) && i <= j < |worlds|
    ensures Inv(worlds[j]) && |worlds[j].callers| == |worlds[0].callers|
    ensures worlds[i].record.Some? ==> worlds[j].record == worlds[i].record
    decreases j
  {
    hide Inv, Next;
    if j == 0 {
      FreshInv(worlds[0]);
    } else {
      HistoryInv(worlds, moves, if i < j then i else j - 1, j - 1);
      assert worlds[j - 1 + 1] == Next(worlds[j - 1], moves[j - 1]);
      NextInv(worlds[j - 1], moves[j - 1]);
      NextWritten(worlds[j - 1], moves[j - 1], 0);
    }
  }

  /** The request reads that its plan has no record: it looks up before the first save. */
  predicate ReadsNone(w: World, move: Move, c: nat) {
    move == LooksUp(c) && c < |w.callers| && w.callers[c].stage.Gated? && w.record.None?
  }

  predicate GoesOn(w: World, move: Move, c: nat) {
    move.Calls? && move.c == c && c < |w.callers| && w.callers[c].stage.ReadNone?
  }

  ghost predicate HasRead(worlds: seq<World>, moves: seq<Move>, c: nat, j: nat)
    requires IsPath(worlds, moves) && j < |worlds|
  {
    exists i :: 0 <= i < j && ReadsNone(worlds[i], moves[i], c)
  }

  ghost predicate HasGoneOn(worlds: seq<World>, moves: seq<Move>, c: nat, j: nat)
    requires IsPath(worlds, moves) && j < |worlds|
  {
    exists i :: 0 <= i < j && GoesOn(worlds[i], moves[i], c)
  }

  /** The requests that looked up before the first save, and those that then called the publisher. */
  ghost function Readers(worlds: seq<World>, moves: seq<Move>): set<nat>
    requires IsPath(worlds, moves)
  {
    set c: nat | c < |worlds[0].callers| && HasRead(worlds, moves, c, |moves|)
  }

  ghost function WentOn(worlds: seq<World>, moves: seq<Move>): set<nat>
    requires IsPath(worlds, moves)
  {
    set c: nat | c < |worlds[0].callers| && HasGoneOn(worlds, moves, c, |moves|)
  }

  /** What one move does to one request's reading and calling. */
  lemma NextReading(w: World, move: Move, c: nat)
    requires c < |w.callers| && Fits(w.record, w.callers[c])
    ensures |Next(w, move).callers| == |w.callers|
    ensures var x, y := w.callers[c], Next(w, move).callers[c];
            && (y.called <==> x.called || GoesOn(w, move, c))
            && (GoesOn(w, move, c) ==> x.stage.ReadNone?)
            && (y.stage.ReadNone? || y.called ==> x.stage.ReadNone? || x.called || ReadsNone(w, move, c))
            && (ReadsNone(w, move, c) ==> y.stage.ReadNone?)
            && (x.stage.ReadNone? || x.called || x.stage == Over(Dead) ==>
                  y.stage.ReadNone? || y.called || y.stage == Over(Dead))
  {
    hide PublishAllowed, DryRunAllowed, RecordFor;
  }

  lemma {:induction false} ReadingOf(worlds: seq<World>, moves: seq<Move>, c: nat, j: nat)
    requires IsHistory(worlds, moves) && j < |worlds| && c < |worlds[0].callers| == |worlds[j].callers|
    ensures var x := worlds[j].callers[c];
            && (x.called <==> HasGoneOn(worlds, moves, c, j))
            && (x.stage.ReadNone? || x.called ==> HasRead(worlds, moves, c, j))
            && (HasRead(worlds, moves, c, j) ==> x.stage.ReadNone? || x.called || x.stage == Over(Dead))
    decreases j
  {
    hide Next, Fits, GoesOn, ReadsNone;
    if j > 0 {
      HistoryInv(worlds, moves, 0, j - 1);
      ReadingOf(worlds, moves, c, j - 1);
      assert worlds[j - 1 + 1] == Next(worlds[j - 1], moves[j - 1]);
      NextReading(worlds[j - 1], moves[j - 1], c);
      HasReadStep(worlds, moves, c, j);
    }
  }

  lemma HasReadStep(worlds: seq<World>, moves: seq<Move>, c: nat, j: nat)
    requires IsPath(worlds, moves) && 0 < j < |worlds|
    ensures HasRead(worlds, moves, c, j) <==>
              HasRead(worlds, moves, c, j - 1) || ReadsNone(worlds[j - 1], moves[j - 1], c)
    ensures HasGoneOn(worlds, moves, c, j) <==>
              HasGoneOn(worlds, moves, c, j - 1) || GoesOn(worlds[j - 1], moves[j - 1], c)
  {
    hide ReadsNone, GoesOn, Next;
  }

  /** The publisher is called once for each request that looked up before the first save and went on; a request
      that looked up then and did not call has yet to, or died. */
  lemma CallsAreReadersThatWentOn(worlds: seq<World>, moves: seq<Move>)
    requires IsHistory(worlds, moves)
    ensures worlds[|moves|].calls == |WentOn(worlds, moves)| && WentOn(worlds, moves) <= Readers(worlds, moves)
    ensures |worlds[|moves|].callers| == |worlds[0].callers|
    ensures forall c :: c in Readers(worlds, moves) - WentOn(worlds, moves) ==>
              worlds[|moves|].callers[c].stage in {ReadNone, Over(Dead)}
  {
    var w := worlds[|moves|];
    HistoryInv(worlds, moves, 0, |moves|);
    hide Next, Fits, HasRead, HasGoneOn;
    forall c: nat | c < |w.callers|
      ensures c in CalledBy(w) <==> c in WentOn(worlds, moves)
      ensures c in WentOn(worlds, moves) ==> c in Readers(worlds, moves)
      ensures c in Readers(worlds, moves) - WentOn(worlds, moves) ==> w.callers[c].stage in {ReadNone, Over(Dead)}
    {
      ReadingOf(worlds, moves, c, |moves|);
    }
    assert CalledBy(w) == WentOn(worlds, moves);
  }

  ghost predicate AtMostOne(s: set<nat>) {
    forall b, c :: b in s && c in s ==> b == c
  }

  lemma AtMostOneIff(s: set<nat>)
    ensures AtMostOne(s) <==> |s| <= 1
  {
    if s != {} {
      var c :| c in s;
      if AtMostOne(s) {
        assert s == {c};
      } else {
        var b :| b in s && b != c;
        assert |s - {c} - {b}| == |s| - 2;
      }
    }
  }

  /** At most one call if and only if at most one of the requests that looked up before the first save went on;
      once they all have, if and only if at most one looked up then. */
  lemma AtMostOneCallIff(worlds: seq<World>, moves: seq<Move>)
    requires IsHistory(worlds, moves)
    ensures worlds[|moves|].calls <= 1 <==> AtMostOne(WentOn(worlds, moves))
    ensures AtMostOne(Readers(worlds, moves)) ==> worlds[|moves|].calls <= 1
    ensures Readers(worlds, moves) <= WentOn(worlds, moves) ==>
              (worlds[|moves|].calls <= 1 <==> AtMostOne(Readers(worlds, moves)))
  {
    CallsAreReadersThatWentOn(worlds, moves);
    hide WentOn, Readers;
    AtMostOneIff(WentOn(worlds, moves));
  }

  /** Where a request is whose call left no record. */
  predicate LeavesNoRecord(record: Option<Record>, stage: Stage) {
    match stage
    case Saving(_) => true
    case Inserting(_) => true
    case Over(Found(r)) => record == Some(r)
    case Over(end) => end.Raised? || end.Beaten? || end.Dead?
    case _ => false
  }

  /** Every call is the recorded one, still to be saved, answered with another request's record, or lost: to an
      error, to the unique plan ID or to the death of its request. */
  lemma EveryCallIsAccountedFor(worlds: seq<World>, moves: seq<Move>)
    requires IsHistory(worlds, moves)
    ensures var w := worlds[|moves|];
            && w.calls == |Unrecorded(w)| + (if w.record.Some? && OfCall(w.record.value) then 1 else 0)
            && forall c :: c in Unrecorded(w) ==> LeavesNoRecord(w.record, w.callers[c].stage)
  {
    var w := worlds[|moves|];
    HistoryInv(worlds, moves, 0, |moves|);
    AccountOf(w);
    forall c | c in Unrecorded(w) ensures LeavesNoRecord(w.record, w.callers[c].stage) {
      assert Fits(w.record, w.callers[c]);
    }
  }

  lemma AccountOf(w: World)
    requires Inv(w)
    ensures w.calls == |Unrecorded(w)| + (if w.record.Some? && OfCall(w.record.value) then 1 else 0)
  {
    if w.record.Some? {
      var c: nat :| HasWritten(w, c);
      assert Fits(w.record, w.callers[c]);
      if OfCall(w.record.value) {
        assert CalledBy(w) == Unrecorded(w) + {c};
      } else {
        assert CalledBy(w) == Unrecorded(w);
      }
    } else {
      forall c: nat ensures !HasWritten(w, c) {
        assert c < |w.callers| ==> Fits(w.record, w.callers[c]);
      }
      assert CalledBy(w) == Unrecorded(w);
    }
  }

  // ----- where moves lead

  predicate Active(w: World, c: nat) {
    c < |w.callers| && !w.callers[c].stage.Waiting? && !w.callers[c].stage.Over?
  }

  ghost predicate OneActive(w: World) {
    forall b: nat, c: nat :: Active(w, b) && Active(w, c) ==> b == c
  }

  /** Some moves lead from one world to another; `alone` means that requests never overlap on the way. */
  ghost predicate Leads(from: World, to: World, alone: bool) {
    exists worlds: seq<World>, moves :: Joins(worlds, moves, from, to, alone)
  }

  ghost predicate Joins(worlds: seq<World>, moves: seq<Move>, from: World, to: World, alone: bool) {
    && IsPath(worlds, moves) && worlds[0] == from && worlds[|moves|] == to
    && (alone ==> forall i :: 0 <= i < |worlds| ==> OneActive(worlds[i]))
  }

  lemma LeadsNowhere(w: World, alone: bool)
    requires alone ==> OneActive(w)
    ensures Leads(w, w, alone)
  {
    assert Joins([w], [], w, w, alone);
  }

  lemma LeadsOn(from: World, w: World, alone: bool, move: Move)
    requires Leads(from, w, alone) && (alone ==> OneActive(Next(w, move)))
    ensures Leads(from, Next(w, move), alone)
  {
    hide Next, OneActive;
    var worlds: seq<World>, moves :| Joins(worlds, moves, from, w, alone);
    assert Joins(worlds + [Next(w, move)], moves + [move], from, Next(w, move), alone);
  }

  lemma Both(from: World, alone: bool, w: World, first: Move, second: Move) returns (t: World)
    requires Leads(from, w, alone)
    requires alone ==> OneActive(Next(w, first)) && OneActive(Next(Next(w, first), second))
    ensures t == Next(Next(w, first), second) && Leads(from, t, alone)
  {
    LeadsOn(from, w, alone, first);
    LeadsOn(from, Next(w, first), alone, second);
    t := Next(Next(w, first), second);
  }

  // ----- when the calls are over

  /** Nobody is about to call, and nobody can still read that there is no record. */
  predicate Sealed(w: World) {
    forall c :: 0 <= c < |w.callers| ==>
      var stage := w.callers[c].stage;
      !stage.ReadNone? && (w.record.None? ==> !stage.Waiting? && !stage.Gated?)
  }

  lemma NextSealed(w: World, move: Move)
    requires Sealed(w)
    ensures Sealed(Next(w, move)) && Next(w, move).calls == w.calls
  {
    hide PublishAllowed, DryRunAllowed, RecordFor;
  }

  lemma {:induction false} StaysSealed(worlds: seq<World>, moves: seq<Move>, j: nat)
    requires IsPath(worlds, moves) && j < |worlds| && Sealed(worlds[0])
    ensures Sealed(worlds[j]) && worlds[j].calls == worlds[0].calls
    decreases j
  {
    hide Next, Sealed;
    if j > 0 {
      StaysSealed(worlds, moves, j - 1);
      assert worlds[j - 1 + 1] == Next(worlds[j - 1], moves[j - 1]);
      NextSealed(worlds[j - 1], moves[j - 1]);
    }
  }

  /** From any moment on the publisher is never called again, whatever anyone does, if and only if no request has
      read "none" without calling yet and, while there is no record, no request is left that may look up. */
  lemma CallsAreOverIff(w: World, s: Orchestration.Snapshot)
    requires PublishAllowed(s)
    ensures Sealed(w) <==> forall t :: Leads(w, t, false) ==> t.calls == w.calls
  {
    if Sealed(w) {
      forall t | Leads(w, t, false) ensures t.calls == w.calls {
        var worlds, moves :| Joins(worlds, moves, w, t, false);
        StaysSealed(worlds, moves, |moves|);
      }
    } else {
      var c :| 0 <= c < |w.callers| && var stage := w.callers[c].stage;
               stage.ReadNone? || (w.record.None? && (stage.Waiting? || stage.Gated?));
      CallsOnceMore(w, c, s);
    }
  }

  lemma CallsOnceMore(w: World, c: nat, s: Orchestration.Snapshot)
    requires PublishAllowed(s) && c < |w.callers|
    requires var stage := w.callers[c].stage;
             stage.ReadNone? || (w.record.None? && (stage.Waiting? || stage.Gated?))
    ensures exists t :: Leads(w, t, false) && t.calls == w.calls + 1
  {
    hide PublishAllowed, DryRunAllowed, Leads;
    LeadsNowhere(w, false);
    var read := Both(w, false, w, Publishes(c, s, ACKNOWLEDGEMENT), LooksUp(c));
    LeadsOn(w, read, false, Calls(c, CaughtError));
  }

  // ----- one request at a time

  /** The calls whose error propagated or whose request died. */
  function LostCalls(w: World): set<nat> {
    set c: nat | c < |w.callers| && w.callers[c].called && w.callers[c].stage in {Over(Raised), Over(Dead)}
  }

  predicate Undisturbed(record: Option<Record>, caller: Caller) {
    match caller.stage
    case Waiting | Gated => true
    case ReadNone | Inserting(_) => record.None?
    case Saving(_) => caller.called ==> record.None?
    case Over(end) => caller.called ==> end.Wrote? || end.Raised? || end.Dead?
  }

  lemma NextUndisturbed(w: World, move: Move)
    requires Inv(w) && OneActive(w) && forall c :: 0 <= c < |w.callers| ==> Undisturbed(w.record, w.callers[c])
    ensures |Next(w, move).callers| == |w.callers|
    ensures forall c :: 0 <= c < |w.callers| ==> Undisturbed(Next(w, move).record, Next(w, move).callers[c])
  {
    hide PublishAllowed, DryRunAllowed, RecordFor;
    forall c | 0 <= c < |w.callers| ensures Undisturbed(Next(w, move).record, Next(w, move).callers[c]) {
      assert Undisturbed(w.record, w.callers[c]) && Fits(w.record, w.callers[c]);
      if WritesNow(w, move) && c != move.c {
        assert Active(w, move.c) && !Active(w, c);
        assert Next(w, move).callers[c] == w.callers[c];
      }
    }
  }

  lemma {:induction false} AllUndisturbed(worlds: seq<World>, moves: seq<Move>, j: nat)
    requires IsHistory(worlds, moves) && j < |worlds| && forall i :: 0 <= i < |worlds| ==> OneActive(worlds[i])
    ensures forall c :: 0 <= c < |worlds[j].callers| ==> Undisturbed(worlds[j].record, worlds[j].callers[c])
    decreases j
  {
    hide Next, Inv, OneActive;
    if j > 0 {
      HistoryInv(worlds, moves, j - 1, j - 1);
      AllUndisturbed(worlds, moves, j - 1);
      assert worlds[j - 1 + 1] == Next(worlds[j - 1], moves[j - 1]);
      NextUndisturbed(worlds[j - 1], moves[j - 1]);
    }
  }

  /** If requests do not overlap, every finished call is recorded, or its error propagated or its request died:
      then without such a loss there is at most one call. */
  lemma OneAtATime(worlds: seq<World>, moves: seq<Move>)
    requires IsHistory(worlds, moves) && forall i :: 0 <= i < |worlds| ==> OneActive(worlds[i])
    requires forall c :: 0 <= c < |worlds[|moves|].callers| ==> !Active(worlds[|moves|], c)
    ensures var w := worlds[|moves|];
            w.calls == |LostCalls(w)| + if w.record.Some? && OfCall(w.record.value) then 1 else 0
  {
    var w := worlds[|moves|];
    HistoryInv(worlds, moves, 0, |moves|);
    AllUndisturbed(worlds, moves, |moves|);
    EveryCallIsAccountedFor(worlds, moves);
    hide IsHistory, OneActive;
    forall c: nat ensures c in Unrecorded(w) <==> c in LostCalls(w) {
      if c < |w.callers| {
        assert !Active(w, c) && Undisturbed(w.record, w.callers[c]) && Fits(w.record, w.callers[c]);
      }
    }
    assert Unrecorded(w) == LostCalls(w);
  }

  /** How an ending looks to the caller; an insert that was beaten raises, which one request alone never sees. */
  function ExitOf(end: Ending): Option<PublishExit> {
    match end
    case Rejected => Some(NotAcknowledged)
    case Found(r) => Some(Saved(r))
    case Wrote(r) => Some(Saved(r))
    case Raised => Some(Escaped)
    case Beaten => None
    case Dead => Some(Lost)
  }

  /** The moves of one request whose process dies, if it does, right after the call. */
  function MovesOf(c: nat, s: Orchestration.Snapshot, acknowledgement: string, answer: PublisherAnswer, dies: bool)
    : seq<Move>
  {
    [Publishes(c, s, acknowledgement), LooksUp(c), Calls(c, answer), if dies then Dies(c) else Selects(c), Inserts(c)]
  }

  lemma AloneUntilCall(w: World, c: nat, s: Orchestration.Snapshot, acknowledgement: string)
    requires c < |w.callers| && w.callers[c] == Caller(Waiting, false)
    ensures var t := Next(Next(w, Publishes(c, s, acknowledgement)), LooksUp(c));
            && |t.callers| == |w.callers| && t.record == w.record && t.calls == w.calls
            && t.callers[c] == Caller(
                 if acknowledgement != ACKNOWLEDGEMENT then Over(Rejected)
                 else if !PublishAllowed(s) then Saving(Record(Denied, None))
                 else if w.record.Some? then Over(Found(w.record.value)) else ReadNone, false)
  {
    hide PublishAllowed;
  }

  /** The moves of one request, with nobody's in between, do what `PublicationService.Publish` does. */
  lemma AloneIsPublish(worlds: seq<World>, c: nat, s: Orchestration.Snapshot, acknowledgement: string,
                       answer: PublisherAnswer, dies: bool)
    requires |worlds| == 6
    requires var called := PublishAlone(worlds[0].record, s, acknowledgement, answer, dies).called;
             IsPath(worlds, MovesOf(c, s, acknowledgement, answer, dies && called))
    requires c < |worlds[0].callers| && worlds[0].callers[c] == Caller(Waiting, false)
    ensures |worlds[5].callers| == |worlds[0].callers| && worlds[5].callers[c].stage.Over?
    ensures var effect := PublishAlone(worlds[0].record, s, acknowledgement, answer, dies);
            && worlds[5].record == effect.record && ExitOf(worlds[5].callers[c].stage.end) == Some(effect.exit)
            && worlds[5].callers[c].called == effect.called
            && worlds[5].calls == worlds[0].calls + if effect.called then 1 else 0
  {
    hide PublishAllowed, DryRunAllowed, RecordFor;
    var called := PublishAlone(worlds[0].record, s, acknowledgement, answer, dies).called;
    var moves := MovesOf(c, s, acknowledgement, answer, dies && called);
    assert worlds[2] == Next(Next(worlds[0], moves[0]), moves[1]) by {
      assert worlds[0 + 1] == Next(worlds[0], moves[0]);
      assert worlds[1 + 1] == Next(worlds[1], moves[1]);
    }
    AloneUntilCall(worlds[0], c, s, acknowledgement);
    assert worlds[2 + 1] == Next(worlds[2], moves[2]);
    assert worlds[3 + 1] == Next(worlds[3], moves[3]);
    assert worlds[4 + 1] == Next(worlds[4], moves[4]);
  }

  // ----- two calls for one plan

  const TwoWaiting := World(None, 0, [Caller(Waiting, false), Caller(Waiting, false)])

  /** Two requests that overlap both call the publisher, nobody dies, and one record is left. */
  lemma OverlappingRequestsCallTwice(s: Orchestration.Snapshot, first: string, second: string)
    requires PublishAllowed(s)
    ensures var r := Record(Published, Some(first));
            Leads(TwoWaiting, World(Some(r), 2, [Caller(Over(Wrote(r)), true), Caller(Over(Found(r)), true)]), false)
  {
    hide PublishAllowed, DryRunAllowed, Leads;
    var w0 := TwoWaiting;
    LeadsNowhere(w0, false);
    var w2 := Both(w0, false, w0, Publishes(0, s, ACKNOWLEDGEMENT), Publishes(1, s, ACKNOWLEDGEMENT));
    var w4 := Both(w0, false, w2, LooksUp(0), LooksUp(1));
    var w6 := Both(w0, false, w4, Calls(0, Reference(first)), Calls(1, Reference(second)));
    var w8 := Both(w0, false, w6, Selects(0), Inserts(0));
    LeadsOn(w0, w8, false, Selects(1));
    var r := Record(Published, Some(first));
    assert Next(w8, Selects(1)).callers == [Caller(Over(Wrote(r)), true), Caller(Over(Found(r)), true)];
  }

  const OneRaised := World(None, 1, [Caller(Over(Raised), true), Caller(Waiting, false)])

  lemma FirstRaises(s: Orchestration.Snapshot)
    requires PublishAllowed(s)
    ensures Leads(TwoWaiting, OneRaised, true)
  {
    hide PublishAllowed, DryRunAllowed, Leads;
    LeadsNowhere(TwoWaiting, true);
    var read := Both(TwoWaiting, true, TwoWaiting, Publishes(0, s, ACKNOWLEDGEMENT), LooksUp(0));
    LeadsOn(TwoWaiting, read, true, Calls(0, OtherError));
    assert Next(read, Calls(0, OtherError)).callers == OneRaised.callers;
  }

  /** After an error that `publish` does not catch the next request calls the publisher again. */
  lemma UncaughtErrorIsCalledAgain(s: Orchestration.Snapshot, reference: string)
    requires PublishAllowed(s)
    ensures var r := Record(Published, Some(reference));
            Leads(TwoWaiting, World(Some(r), 2, [Caller(Over(Raised), true), Caller(Over(Wrote(r)), true)]), true)
  {
    hide PublishAllowed, DryRunAllowed, Leads;
    FirstRaises(s);
    var r := Record(Published, Some(reference));
    var read := Both(TwoWaiting, true, OneRaised, Publishes(1, s, ACKNOWLEDGEMENT), LooksUp(1));
    var inserting := Both(TwoWaiting, true, read, Calls(1, Reference(reference)), Selects(1));
    assert inserting == World(None, 2, [Caller(Over(Raised), true), Caller(Inserting(r), true)]);
    LeadsOn(TwoWaiting, inserting, true, Inserts(1));
    assert Next(inserting, Inserts(1)).callers == [Caller(Over(Raised), true), Caller(Over(Wrote(r)), true)];
  }
}
