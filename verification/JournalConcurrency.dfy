/** Any number of writers interleaving on the journal table with stale reads
    (`SqlAlchemyDeploymentJournal` in `lou/deployment/adapters.py`). */
module JournalConcurrency {
  import opened Common
  import opened Journal

  /** Where a writer is inside `create` or `append`: before its checks, before `_append` reads, or about to
      insert what it computed from an earlier read. */
  datatype Writer = Idle | Chose(body: Body) | Computed(body: Body, seen: seq<Record>)

  /** The rows of one release ID by `sequence`; the table's unique key makes this a map. */
  datatype World = World(rows: map<nat, Record>, writers: seq<Writer>)

  datatype Move = BeginCreate(w: nat, release: Release) | BeginAppend(w: nat, evidence: Evidence)
                | ReadRows(w: nat) | InsertRow(w: nat)

  // ----- `_read`: every row, in sequence order

  ghost function Bound(keys: set<nat>): (n: nat)
    ensures forall k :: k in keys ==> k < n
    ensures keys != {} ==> n > 0 && n - 1 in keys
  {
    if keys == {} then 0
    else
      var k :| k in keys;
      var n := Bound(keys - {k});
      assert forall x :: x in keys ==> x == k || x in keys - {k};
      if k < n then n else k + 1
  }

  function Ordered(rows: map<nat, Record>, n: nat): seq<Record> {
    if n == 0 then [] else Ordered(rows, n - 1) + if n - 1 in rows then [rows[n - 1]] else []
  }

  ghost function Select(rows: map<nat, Record>): seq<Record> {
    Ordered(rows, Bound(rows.Keys))
  }

  ghost predicate Numbered(rows: map<nat, Record>, n: nat) {
    (forall k :: k in rows ==> k < n) && forall k :: 0 <= k < n ==> k in rows
  }

  lemma {:induction false} OrderedLength(rows: map<nat, Record>, n: nat)
    requires forall k :: 0 <= k < n ==> k in rows
    ensures |Ordered(rows, n)| == n
  {
    if n > 0 {
      OrderedLength(rows, n - 1);
    }
  }

  lemma NumberedBound(rows: map<nat, Record>, n: nat)
    requires Numbered(rows, n)
    ensures Bound(rows.Keys) == n && |Select(rows)| == n
  {
    if n > 0 {
      assert n - 1 in rows.Keys;
    }
    OrderedLength(rows, n);
  }

  lemma {:induction false} OrderedIgnoresLater(rows: map<nat, Record>, n: nat, k: nat, r: Record)
    requires n <= k
    ensures Ordered(rows[k := r], n) == Ordered(rows, n)
  {
    if n > 0 {
      OrderedIgnoresLater(rows, n - 1, k, r);
    }
  }

  lemma InsertAtEnd(rows: map<nat, Record>, n: nat, r: Record)
    requires Numbered(rows, n)
    ensures Numbered(rows[n := r], n + 1) && Select(rows[n := r]) == Select(rows) + [r]
  {
    NumberedBound(rows, n);
    NumberedBound(rows[n := r], n + 1);
    OrderedIgnoresLater(rows, n, n, r);
  }

  // ----- the moves

  /** The checks `append` makes before it writes. */
  ghost predicate MayAppend(d: ChainDigest, records: seq<Record>, e: Evidence) {
    && records != [] && Readable(d, records)
    && BoundTo(e, ViewOf(records).release)
    && forall x :: x in ViewOf(records).evidence ==> x.evidenceId != e.evidenceId
  }

  predicate BoundTo(e: Evidence, release: Release) {
    e.analysisRunId == release.analysisRunId && e.commitSha == release.commitSha
  }

  /** One writer's next move; a move that is not enabled, or that raises, leaves the writer idle. */
  ghost function Next(d: ChainDigest, s: World, move: Move): World {
    if move.w >= |s.writers| then s
    else
      var records := Select(s.rows);
      match move
      case BeginCreate(w, release) =>
        if !s.writers[w].Idle? then s
        else if records == [] then s.(writers := s.writers[w := Chose(ReleaseBody(release))])
        else s
      case BeginAppend(w, e) =>
        if !s.writers[w].Idle? then s
        else if MayAppend(d, records, e) then s.(writers := s.writers[w := Chose(EvidenceBody(e))])
        else s
      case ReadRows(w) =>
        if s.writers[w].Chose? then s.(writers := s.writers[w := Computed(s.writers[w].body, records)])
        else s
      case InsertRow(w) =>
        if !s.writers[w].Computed? then s else Insert(d, s, w)
  }

  /** `_write`: the unique key refuses a sequence number another writer already claimed. */
  ghost function Insert(d: ChainDigest, s: World, w: nat): World
    requires w < |s.writers| && s.writers[w].Computed?
  {
    var writer, idle := s.writers[w], s.writers[w := Idle];
    if |writer.seen| in s.rows then s.(writers := idle)
    else World(s.rows[|writer.seen| := LinkedRecord(d, writer.seen, writer.body)], idle)
  }

  // ----- the invariant

  /** In-flight evidence was checked against the release that is first in the table. */
  ghost predicate InFlight(writer: Writer, records: seq<Record>) {
    match writer
    case Idle => true
    case Chose(body) => Grounded(body, records)
    case Computed(body, seen) => seen <= records && Grounded(body, seen)
  }

  ghost predicate Grounded(body: Body, records: seq<Record>) {
    body.EvidenceBody? ==>
      records != [] && records[0].body.ReleaseBody? && BoundTo(body.evidence, records[0].body.release)
  }

  ghost predicate AllBound(records: seq<Record>) {
    forall r :: r in records ==> Grounded(r.body, records)
  }

  ghost predicate Safe(d: ChainDigest, s: World) {
    var records := Select(s.rows);
    && Numbered(s.rows, |s.rows|)
    && Readable(d, records) && AllBound(records)
    && AllInFlight(s.writers, records)
  }

  ghost predicate AllInFlight(writers: seq<Writer>, records: seq<Record>) {
    forall w :: 0 <= w < |writers| ==> InFlight(writers[w], records)
  }

  lemma EmptyIsSafe(d: ChainDigest, writers: seq<Writer>)
    requires forall w :: 0 <= w < |writers| ==> writers[w].Idle?
    ensures Safe(d, World(map[], writers))
  {
    var rows: map<nat, Record> := map[];
    assert Numbered(rows, 0);
    NumberedBound(rows, 0);
  }

  lemma RowCount(rows: map<nat, Record>, n: nat)
    requires Numbered(rows, n)
    ensures |rows| == n
    decreases n
  {
    if n == 0 {
      assert rows.Keys == {};
    } else {
      var fewer := rows - {n - 1};
      RowCount(fewer, n - 1);
      assert rows.Keys == fewer.Keys + {n - 1};
    }
  }

  lemma InsertIsSafe(d: ChainDigest, s: World, w: nat)
    requires Safe(d, s) && w < |s.writers| && s.writers[w].Computed?
    ensures Safe(d, Insert(d, s, w)) && Select(s.rows) <= Select(Insert(d, s, w).rows)
  {
    hide Readable, Select, Grounded, AllBound;
    var t, records, seen := Insert(d, s, w), Select(s.rows), s.writers[w].seen;
    NumberedBound(s.rows, |s.rows|);
    assert InFlight(s.writers[w], records);
    if |seen| in s.rows {
      IdleIsSafe(d, s, w);
    } else {
      var r := LinkedRecord(d, seen, s.writers[w].body);
      assert seen == records;
      InsertAtEnd(s.rows, |s.rows|, r);
      RowCount(t.rows, |s.rows| + 1);
      AppendIsReadable(d, records, s.writers[w].body);
      AppendIsBound(records, r);
      GrowsInFlight(s.writers, w, records, r);
    }
  }

  lemma IdleIsSafe(d: ChainDigest, s: World, w: nat)
    requires Safe(d, s) && w < |s.writers|
    ensures Safe(d, s.(writers := s.writers[w := Idle]))
  {
    hide Readable, Select, AllBound, Grounded;
  }

  lemma AppendIsReadable(d: ChainDigest, records: seq<Record>, body: Body)
    requires Readable(d, records) && Grounded(body, records)
    ensures Readable(d, records + [LinkedRecord(d, records, body)])
  {
    AppendKeepsReadable(d, records, body);
  }

  lemma AppendIsBound(records: seq<Record>, r: Record)
    requires AllBound(records) && Grounded(r.body, records)
    ensures AllBound(records + [r])
  {
    forall x | x in records + [r] ensures Grounded(x.body, records + [r]) {
      assert Grounded(x.body, records);
    }
  }

  lemma GrowsInFlight(writers: seq<Writer>, w: nat, records: seq<Record>, r: Record)
    requires w < |writers| && AllInFlight(writers, records)
    ensures AllInFlight(writers[w := Idle], records + [r])
  {
  }

  lemma WriterIsSafe(d: ChainDigest, s: World, w: nat, writer: Writer)
    requires Safe(d, s) && w < |s.writers| && InFlight(writer, Select(s.rows))
    ensures Safe(d, s.(writers := s.writers[w := writer]))
  {
  }

  lemma AppendIsGrounded(d: ChainDigest, records: seq<Record>, e: Evidence)
    requires MayAppend(d, records, e)
    ensures Grounded(EvidenceBody(e), records)
  {
  }

  /** Every move keeps the table safe and only ever appends to it. */
  lemma NextIsSafe(d: ChainDigest, s: World, move: Move)
    requires Safe(d, s)
    ensures Safe(d, Next(d, s, move)) && Select(s.rows) <= Select(Next(d, s, move).rows)
  {
    hide Chained, MayAppend, Safe, InFlight, ViewOf;
    var w, records := move.w, Select(s.rows);
    if w < |s.writers| {
      match move {
        case BeginCreate(_, release) => WriterMayIdle(d, s, w, Chose(ReleaseBody(release)));
        case BeginAppend(_, e) =>
          if MayAppend(d, records, e) && s.writers[w].Idle? {
            AppendIsGrounded(d, records, e);
            WriterMayIdle(d, s, w, Chose(EvidenceBody(e)));
          }
        case ReadRows(_) =>
          if s.writers[w].Chose? {
            ReadIsGrounded(d, s, w);
            WriterIsSafe(d, s, w, Computed(s.writers[w].body, records));
          }
        case InsertRow(_) =>
          if s.writers[w].Computed? {
            InsertIsSafe(d, s, w);
          }
      }
    }
  }

  lemma WriterMayIdle(d: ChainDigest, s: World, w: nat, writer: Writer)
    requires Safe(d, s) && w < |s.writers| && writer.Chose? && Grounded(writer.body, Select(s.rows))
    ensures Safe(d, s.(writers := s.writers[w := writer]))
  {
    WriterIsSafe(d, s, w, writer);
  }

  lemma ReadIsGrounded(d: ChainDigest, s: World, w: nat)
    requires Safe(d, s) && w < |s.writers| && s.writers[w].Chose?
    ensures InFlight(Computed(s.writers[w].body, Select(s.rows)), Select(s.rows))
  {
    assert InFlight(s.writers[w], Select(s.rows));
  }

  // ----- whole interleavings

  ghost predicate IsHistory(d: ChainDigest, worlds: seq<World>, moves: seq<Move>) {
    && |worlds| == |moves| + 1
    && worlds[0].rows == map[] && (forall w :: 0 <= w < |worlds[0].writers| ==> worlds[0].writers[w].Idle?)
    && forall i :: 0 <= i < |moves| ==> worlds[i + 1] == Next(d, worlds[i], moves[i])
  }

  lemma {:induction false} HistoryIsSafe(d: ChainDigest, worlds: seq<World>, moves: seq<Move>, i: nat, j: nat)
    requires IsHistory(d, worlds, moves) && i <= j < |worlds|
    ensures Safe(d, worlds[j]) && Select(worlds[i].rows) <= Select(worlds[j].rows)
    decreases j
  {
    if j == 0 {
      EmptyIsSafe(d, worlds[0].writers);
    } else {
      HistoryIsSafe(d, worlds, moves, if i < j then i else j - 1, j - 1);
      assert worlds[j - 1 + 1] == Next(d, worlds[j - 1], moves[j - 1]);
      NextIsSafe(d, worlds[j - 1], moves[j - 1]);
    }
  }

  /** Under any interleaving rows stay numbered from zero, every read is a chain `get` accepts, every stale
      read in flight is a prefix of the table, the release never changes, the status never falls, and all
      evidence is bound to the release's run and commit. */
  lemma ConcurrentJournalIsSafe(d: ChainDigest, worlds: seq<World>, moves: seq<Move>, i: nat, j: nat)
    requires IsHistory(d, worlds, moves) && i <= j < |worlds|
    ensures var before, after := Select(worlds[i].rows), Select(worlds[j].rows);
            && Numbered(worlds[j].rows, |worlds[j].rows|) && Readable(d, after) && before <= after
            && (forall w :: 0 <= w < |worlds[j].writers| && worlds[j].writers[w].Computed? ==>
                  worlds[j].writers[w].seen <= after)
            && (before != [] ==>
                  && ViewOf(after).release == ViewOf(before).release
                  && Rank(ViewOf(before).status) <= Rank(ViewOf(after).status))
            && (after != [] ==> forall e :: e in ViewOf(after).evidence ==> BoundTo(e, ViewOf(after).release))
  {
    HistoryIsSafe(d, worlds, moves, i, j);
    var before, after := Select(worlds[i].rows), Select(worlds[j].rows);
    forall w | 0 <= w < |worlds[j].writers| && worlds[j].writers[w].Computed?
      ensures worlds[j].writers[w].seen <= after
    {
      assert InFlight(worlds[j].writers[w], after);
    }
    if before != [] {
      ViewGrows(before, after);
    }
    if after != [] {
      EvidenceIsBound(after, after[1..]);
    }
  }

  lemma {:induction false} EvidenceIsBound(records: seq<Record>, some: seq<Record>)
    requires AllBound(records) && forall r :: r in some ==> r in records
    ensures forall e :: e in EvidenceOf(some) ==> Grounded(EvidenceBody(e), records)
  {
    if some != [] {
      var last := some[|some| - 1];
      EvidenceIsBound(records, some[..|some| - 1]);
      assert last in records && Grounded(last.body, records);
    }
  }

  // ----- one writer alone

  /** The table after one writer's moves with nobody's in between. */
  ghost function Alone(d: ChainDigest, s: World, begin: Move): World {
    Next(d, Next(d, Next(d, s, begin), ReadRows(begin.w)), InsertRow(begin.w))
  }

  /** A writer alone appends its evidence if and only if there is a release, the evidence is of its run and commit, and
      its ID is new; it creates the journal if and only if there is none. */
  lemma AloneWrites(d: ChainDigest, s: World, w: nat, e: Evidence, release: Release)
    requires Safe(d, s) && w < |s.writers| && s.writers[w] == Idle
    ensures var records := Select(s.rows);
            && Select(Alone(d, s, BeginAppend(w, e)).rows)
               == (if records != [] && e.analysisRunId == ViewOf(records).release.analysisRunId
                      && e.commitSha == ViewOf(records).release.commitSha
                      && forall x :: x in ViewOf(records).evidence ==> x.evidenceId != e.evidenceId
                   then records + [LinkedRecord(d, records, EvidenceBody(e))] else records)
            && Select(Alone(d, s, BeginCreate(w, release)).rows)
               == if records == [] then [LinkedRecord(d, [], ReleaseBody(release))] else records
  {
    hide Select, Readable, ViewOf, Grounded, AllBound, AllInFlight;
    var records := Select(s.rows);
    AloneInserts(d, s, w, EvidenceBody(e));
    AloneInserts(d, s, w, ReleaseBody(release));
    assert records == [] ==> records + [LinkedRecord(d, records, ReleaseBody(release))]
                             == [LinkedRecord(d, [], ReleaseBody(release))];
  }

  lemma AloneInserts(d: ChainDigest, s: World, w: nat, body: Body)
    requires Safe(d, s) && w < |s.writers|
    ensures var chose := s.(writers := s.writers[w := Chose(body)]);
            Select(Next(d, Next(d, chose, ReadRows(w)), InsertRow(w)).rows)
            == Select(s.rows) + [LinkedRecord(d, Select(s.rows), body)]
  {
    hide Select, Readable;
    NumberedBound(s.rows, |s.rows|);
    InsertAtEnd(s.rows, |s.rows|, LinkedRecord(d, Select(s.rows), body));
  }

  // ----- why the unique key matters

  /** The file backend ignores `sequence`: two writers that read the same records and both append break
      the chain for good. */
  lemma UnkeyedAppendsBreakTheChain(d: ChainDigest, seen: seq<Record>, first: Body, second: Body)
    requires Collisionless(d) && Chained(d, seen)
    ensures !Chained(d, seen + [LinkedRecord(d, seen, first)] + [LinkedRecord(d, seen, second)])
  {
    var one := seen + [LinkedRecord(d, seen, first)];
    ChainedSnoc(d, one, LinkedRecord(d, seen, second));
    ChainedSnoc(d, seen, LinkedRecord(d, seen, first));
    HashMovesOn(d, seen, first);
  }

  /** No chain reproduces the hash it starts from. */
  lemma HashMovesOn(d: ChainDigest, seen: seq<Record>, body: Body)
    requires Collisionless(d) && Chained(d, seen)
    ensures LinkedRecord(d, seen, body).recordHash != HeadHash(seen)
  {
    var longer := seen + [LinkedRecord(d, seen, body)];
    ChainedSnoc(d, seen, LinkedRecord(d, seen, body));
    if HeadHash(longer) == HeadHash(seen) {
      ChainsAgree(d, longer, seen);
    }
  }

  // ----- the backend's write

  /** The table behind `_write`. */
  class JournalTable {
    var rows: map<nat, Record>

    /** Insert one row; the unique key turns a lost race into an error and leaves the table alone. */
    method Write(d: ChainDigest, seen: seq<Record>, body: Body) returns (error: Option<JournalError>)
      modifies this`rows
      ensures error == if |seen| in old(rows) then Some(AppendedConcurrently) else None
      ensures forall s: World, w: nat ::
                s.rows == old(rows) && w < |s.writers| && s.writers[w] == Computed(body, seen)
                ==> rows == Insert(d, s, w).rows
    {
      if |seen| in rows {
        return Some(AppendedConcurrently);
      }
      rows := rows[|seen| := LinkedRecord(d, seen, body)];
      error := None;
    }
  }
}
