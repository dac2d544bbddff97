/** The version-one records that cross component boundaries (`contracts/models.py`). */
module Contracts {
  import opened Common

  type Hash = string

  /** SHA-256 of a text's UTF-8 bytes; `None` when the text cannot be encoded. */
  type Digest = string -> Option<Hash>

  type Level = n: nat | n <= 3

  datatype Phase = Baseline | Candidate | Fix

  datatype Verdict = Passed | Failed | Inconclusive

  /** The text `<run>:attempt:<n>`; a decimal count has no colon, so the text determines both parts. */
  datatype AttemptId = AttemptId(analysisRunId: string, attempt: nat)

  /** `plannedWorkloads` is `None` when the plan holds no list of strings. */
  datatype AnalysisJob = AnalysisJob(
    analysisRunId: string, baseCommitSha: string, candidateCommitSha: string,
    plannedWorkloads: Option<seq<string>>)

  datatype PatchArtifact = PatchArtifact(
    patchId: string, analysisRunId: string, baseCommitSha: string, patchSha256: Hash,
    filesChanged: nat, linesAdded: nat, linesDeleted: nat)

  /** `patchSha256` and `attemptId` are the two metadata entries that bind a verdict to its request. */
  datatype VerificationResult = VerificationResult(
    analysisRunId: string, phase: Phase, commitSha: string, status: Verdict,
    workloadId: Option<string>, patchSha256: Option<Hash>, attemptId: Option<AttemptId>)
}
