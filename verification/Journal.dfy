/** The hash-chained deployment journal (`ChainedJournal` in `lou/deployment/service.py`). */
module Journal {
  import opened Common
  import Contracts

  type Hash = Contracts.Hash

  datatype Environment = Staging | Production

  datatype Release = Release(releaseId: string, repositoryId: string, commitSha: string, analysisRunId: string,
                             environment: Environment, requestedBy: string)

  datatype Event = Released | Validated | Observed | Promoted | Paused | RolledBack

  datatype Action = Promote | Pause | Rollback

  datatype Decision = Decision(releaseId: string, action: Action, policyRevision: string, reason: string,
                               decidedAt: int)

  /** `evidenceId` stands for a UUID. */
  datatype Evidence = Evidence(
    evidenceId: nat, releaseId: string, analysisRunId: string, commitSha: string, event: Event, actor: string,
    decision: Option<Decision>, verificationRunIds: seq<string>, traceIds: seq<string>)

  /** The chained payload; its `kind` is the constructor. */
  datatype Body = ReleaseBody(release: Release) | EvidenceBody(evidence: Evidence)

  datatype Record = Record(body: Body, previousHash: Hash, recordHash: Hash)

  /** `_digest`: SHA-256 over the previous hash, a separator, and the canonical JSON of the body. */
  type ChainDigest = (Hash, Body) -> Hash

  ghost predicate Collisionless(d: ChainDigest) {
    && (forall p, b, q, c :: d(p, b) == d(q, c) ==> p == q && b == c)
    && forall p, b :: d(p, b) != ""
  }

  datatype Status = StatusReleased | StatusPaused | StatusPromoted | StatusRolledBack

  datatype JournalError = Invalid | ChainBroken | RecordModified | DifferentRelease | NoRelease | EvidenceMismatch
                        | AppendedConcurrently

  datatype View = View(release: Release, status: Status, evidence: seq<Evidence>, decision: Option<Decision>)

  // ----- the chain

  /** The hash the next record must name. */
  function HeadHash(records: seq<Record>): Hash {
    if records == [] then "" else records[|records| - 1].recordHash
  }

  /** The record names the hash before it and hashes its own body over it. */
  predicate Linked(d: ChainDigest, before: seq<Record>, r: Record) {
    r.previousHash == HeadHash(before) && r.recordHash == d(r.previousHash, r.body)
  }

  predicate Chained(d: ChainDigest, records: seq<Record>) {
    records == [] ||
    (Chained(d, records[..|records| - 1]) && Linked(d, records[..|records| - 1], records[|records| - 1]))
  }

  /** `_verify_chain`: one pass with a running hash. */
  method VerifyChain(d: ChainDigest, records: seq<Record>) returns (error: Option<JournalError>)
    ensures error.None? <==> Chained(d, records)
    ensures error.Some? ==> error.value in {ChainBroken, RecordModified}
  {
    var previousHash := "";
    for i := 0 to |records|
      invariant Chained(d, records[..i]) && previousHash == HeadHash(records[..i])
    {
      var record := records[i];
      assert records[..i + 1][..i] == records[..i];
      if record.previousHash != previousHash || record.recordHash != d(previousHash, record.body) {
        if Chained(d, records) {
          ChainedPrefix(d, records, i + 1);
        }
        return Some(if record.previousHash != previousHash then ChainBroken else RecordModified);
      }
      previousHash := record.recordHash;
    }
    assert records[..|records|] == records;
    error := None;
  }

  /** Extending an accepted chain is accepted exactly when the new record is linked to it. */
  lemma ChainedSnoc(d: ChainDigest, records: seq<Record>, r: Record)
    ensures Chained(d, records + [r]) <==> Chained(d, records) && Linked(d, records, r)
  {
    assert (records + [r])[..|records|] == records;
  }

  /** Every prefix of an accepted chain is accepted: dropping a tail cannot be detected. */
  lemma {:induction false} ChainedPrefix(d: ChainDigest, records: seq<Record>, n: nat)
    requires Chained(d, records) && n <= |records|
    ensures Chained(d, records[..n])
  {
    if n < |records| {
      ChainedPrefix(d, records[..|records| - 1], n);
      assert records[..|records| - 1][..n] == records[..n];
    } else {
      assert records[..n] == records;
    }
  }

  lemma HeadOfChain(d: ChainDigest, records: seq<Record>)
    requires Collisionless(d) && Chained(d, records)
    ensures HeadHash(records) == "" <==> records == []
  {
  }

  /** Two accepted chains with the same last hash are the same chain. */
  lemma {:induction false} ChainsAgree(d: ChainDigest, a: seq<Record>, b: seq<Record>)
    requires Collisionless(d) && Chained(d, a) && Chained(d, b) && HeadHash(a) == HeadHash(b)
    ensures a == b
  {
    HeadOfChain(d, a);
    HeadOfChain(d, b);
    if a != [] {
      var m, n := |a| - 1, |b| - 1;
      assert Linked(d, a[..m], a[m]) && Linked(d, b[..n], b[n]);
      ChainsAgree(d, a[..m], b[..n]);
      assert a == a[..m] + [a[m]] && b == b[..n] + [b[n]];
    }
  }

  /** Any edit, insertion, removal or reordering before an unchanged last record is rejected. */
  lemma TamperingIsRejected(d: ChainDigest, original: seq<Record>, tampered: seq<Record>)
    requires Collisionless(d) && Chained(d, original)
    requires original != [] && tampered != [] && tampered[|tampered| - 1] == original[|original| - 1]
    requires tampered != original
    ensures !Chained(d, tampered)
  {
    if Chained(d, tampered) {
      ChainsAgree(d, original, tampered);
    }
  }

  // ----- reading a journal

  function EvidenceOf(records: seq<Record>): seq<Evidence> {
    if records == [] then []
    else
      var rest := EvidenceOf(records[..|records| - 1]);
      var last := records[|records| - 1].body;
      if last.EvidenceBody? then rest + [last.evidence] else rest
  }

  predicate Happened(evidence: seq<Evidence>, event: Event) {
    exists e :: e in evidence && e.event == event
  }

  /** `_status`. */
  function StatusOf(evidence: seq<Evidence>): Status {
    if Happened(evidence, RolledBack) then StatusRolledBack
    else if Happened(evidence, Promoted) then StatusPromoted
    else if Happened(evidence, Paused) then StatusPaused
    else StatusReleased
  }

  function Rank(status: Status): nat {
    match status
    case StatusReleased => 0
    case StatusPaused => 1
    case StatusPromoted => 2
    case StatusRolledBack => 3
  }

  function LastDecision(evidence: seq<Evidence>): Option<Decision> {
    if evidence == [] then None
    else if evidence[|evidence| - 1].decision.Some? then evidence[|evidence| - 1].decision
    else LastDecision(evidence[..|evidence| - 1])
  }

  function ViewOf(records: seq<Record>): View
    requires records != [] && records[0].body.ReleaseBody?
  {
    var evidence := EvidenceOf(records[1..]);
    View(records[0].body.release, StatusOf(evidence), evidence, LastDecision(evidence))
  }

  /** A journal `get` accepts: empty, or a chain that begins with its release. */
  predicate Readable(d: ChainDigest, records: seq<Record>) {
    Chained(d, records) && (records != [] ==> records[0].body.ReleaseBody?)
  }

  /** `get` on the records it read. */
  method Get(d: ChainDigest, records: seq<Record>) returns (r: Result<Option<View>, JournalError>)
    ensures r.Ok? <==> Readable(d, records)
    ensures r.Ok? && records == [] ==> r.value == None
    ensures r.Ok? && records != [] ==> r.value == Some(ViewOf(records))
  {
    if records == [] {
      return Ok(None);
    }
    if !records[0].body.ReleaseBody? {
      return Err(Invalid);
    }
    var error := VerifyChain(d, records);
    if error.Some? {
      return Err(error.value);
    }
    r := Ok(Some(ViewOf(records)));
  }

  // ----- growing journals

  lemma {:induction false} EvidenceOfConcat(a: seq<Record>, b: seq<Record>)
    ensures EvidenceOf(a + b) == EvidenceOf(a) + EvidenceOf(b)
  {
    if b == [] {
      assert a + b == a;
    } else {
      assert (a + b)[..|a + b| - 1] == a + b[..|b| - 1];
      EvidenceOfConcat(a, b[..|b| - 1]);
    }
  }

  /** The reported status is the most severe outcome recorded, and the reported decision the latest one recorded. */
  lemma ViewSays(records: seq<Record>)
    requires records != [] && records[0].body.ReleaseBody?
    ensures var v := ViewOf(records);
            && v.release == records[0].body.release
            && (v.status == StatusRolledBack <==> exists e :: e in v.evidence && e.event == RolledBack)
            && (v.status == StatusReleased <==>
                  forall e :: e in v.evidence ==> e.event in {Released, Validated, Observed})
            && (v.status == StatusPromoted ==> exists e :: e in v.evidence && e.event == Promoted)
            && (v.status == StatusPaused <==>
                  (exists e :: e in v.evidence && e.event == Paused)
                  && forall e :: e in v.evidence ==> e.event !in {Promoted, RolledBack})
            && DecidesLast(v.evidence, v.decision)
  {
    LastDecisionIsLast(EvidenceOf(records[1..]));
    hide EvidenceOf, LastDecision, DecidesLast;
  }

  /** The decision of the last evidence that has one. */
  ghost predicate DecidesLast(evidence: seq<Evidence>, d: Option<Decision>) {
    if d.None? then forall e :: e in evidence ==> e.decision.None? else exists i :: DecidesAt(evidence, i, d)
  }

  predicate DecidesAt(evidence: seq<Evidence>, i: int, d: Option<Decision>) {
    0 <= i < |evidence| && evidence[i].decision == d && forall j :: i < j < |evidence| ==> evidence[j].decision.None?
  }

  lemma {:induction false} LastDecisionIsLast(evidence: seq<Evidence>)
    ensures DecidesLast(evidence, LastDecision(evidence))
  {
    if evidence != [] {
      var n := |evidence| - 1;
      var d := LastDecision(evidence[..n]);
      LastDecisionIsLast(evidence[..n]);
      if evidence[n].decision.Some? {
        assert DecidesAt(evidence, n, LastDecision(evidence));
      } else if d.Some? {
        var i :| DecidesAt(evidence[..n], i, d);
        forall j | i < j < |evidence| ensures evidence[j].decision.None? {
          assert j < n ==> evidence[..n][j] == evidence[j];
        }
        assert DecidesAt(evidence, i, d);
      } else {
        assert evidence == evidence[..n] + [evidence[n]];
      }
    }
  }

  lemma StatusGrows(before: seq<Evidence>, after: seq<Evidence>)
    requires before <= after
    ensures Rank(StatusOf(before)) <= Rank(StatusOf(after))
  {
    assert forall e :: e in before ==> e in after;
  }

  /** Appending never changes the release a journal reports, and its status never falls back. */
  lemma ViewGrows(before: seq<Record>, after: seq<Record>)
    requires before != [] && before <= after && before[0].body.ReleaseBody?
    ensures ViewOf(after).release == ViewOf(before).release
    ensures ViewOf(before).evidence <= ViewOf(after).evidence
    ensures Rank(ViewOf(before).status) <= Rank(ViewOf(after).status)
  {
    assert after[1..] == before[1..] + after[|before|..];
    EvidenceOfConcat(before[1..], after[|before|..]);
    StatusGrows(EvidenceOf(before[1..]), EvidenceOf(after[1..]));
  }

  function LinkedRecord(d: ChainDigest, records: seq<Record>, body: Body): Record {
    Record(body, HeadHash(records), d(HeadHash(records), body))
  }

  lemma AppendKeepsReadable(d: ChainDigest, records: seq<Record>, body: Body)
    requires Readable(d, records) && (records == [] ==> body.ReleaseBody?)
    ensures Readable(d, records + [LinkedRecord(d, records, body)])
  {
    ChainedSnoc(d, records, LinkedRecord(d, records, body));
  }
}
