/** `validate_patch`: identity, hash, parse and count checks on a proposed diff. */
module PatchValidation {
  import opened Common
  import opened Contracts
  import opened DiffGrammar
  import DiffParser

  const MAX_FILES := 5
  const MAX_CHANGED_LINES := 100

  datatype Rejection =
    | BaseCommitMismatch(actual: string) | InvalidUtf8 | InvalidDiff(error: ParseError)
    | PatchHashMismatch(actual: Hash) | FileBudgetExceeded(files: nat) | LineBudgetExceeded(lines: nat)
    | ArtifactSummaryMismatch(patchId: string) | RuleHit(code: string, detail: string)

  datatype ParsedPatchFile = ParsedPatchFile(
    path: string, oldPath: Option<string>, newPath: Option<string>,
    linesAdded: nat, linesDeleted: nat, hunkCount: nat, binary: bool)

  datatype ValidationResult = ValidationResult(valid: bool, reasons: seq<Rejection>, files: seq<ParsedPatchFile>)

  /** The pattern and file-system rules, as whatever they answer: about the text and about one file, where a
      look at the file system may raise (`None`). */
  datatype Rules = Rules(text: seq<Rejection>, file: File -> Option<seq<Rejection>>)

  // ----- the list of reasons

  function Reject(reasons: seq<Rejection>, r: Rejection): seq<Rejection> {
    if r in reasons then reasons else reasons + [r]
  }

  function RejectAll(reasons: seq<Rejection>, more: seq<Rejection>): seq<Rejection> {
    if more == [] then reasons
    else Reject(RejectAll(reasons, more[..|more| - 1]), more[|more| - 1])
  }

  function RejectIf(reasons: seq<Rejection>, bad: bool, r: Rejection): seq<Rejection> {
    if bad then Reject(reasons, r) else reasons
  }

  function RejectErrors(reasons: seq<Rejection>, errors: seq<ParseError>): seq<Rejection> {
    if errors == [] then reasons
    else Reject(RejectErrors(reasons, errors[..|errors| - 1]), InvalidDiff(errors[|errors| - 1]))
  }

  /** `None` when the rules raise on some file. */
  function RejectFiles(reasons: seq<Rejection>, rules: Rules, files: seq<File>): Option<seq<Rejection>> {
    if files == [] then Some(reasons)
    else
      var before, answer := RejectFiles(reasons, rules, files[..|files| - 1]), rules.file(files[|files| - 1]);
      if before.None? || answer.None? then None else Some(RejectAll(before.value, answer.value))
  }

  function Added(files: seq<File>): nat {
    if files == [] then 0 else Added(files[..|files| - 1]) + |files[|files| - 1].added|
  }

  function Removed(files: seq<File>): nat {
    if files == [] then 0 else Removed(files[..|files| - 1]) + |files[|files| - 1].removed|
  }

  predicate SummaryMatches(artifact: PatchArtifact, files: seq<File>) {
    && artifact.filesChanged == |files|
    && artifact.linesAdded == Added(files) && artifact.linesDeleted == Removed(files)
  }

  function IdentityReasons(diff: string, artifact: PatchArtifact, expectedBase: string, sha: Digest): seq<Rejection> {
    var base := RejectIf([], artifact.baseCommitSha != expectedBase, BaseCommitMismatch(artifact.baseCommitSha));
    match sha(diff)
    case None => Reject(base, InvalidUtf8)
    case Some(actual) => RejectIf(base, artifact.patchSha256 != actual, PatchHashMismatch(actual))
  }

  function CountReasons(reasons: seq<Rejection>, artifact: PatchArtifact, files: seq<File>): seq<Rejection> {
    var budget := RejectIf(reasons, |files| > MAX_FILES, FileBudgetExceeded(|files|));
    var changed := Added(files) + Removed(files);
    var lines := RejectIf(budget, changed > MAX_CHANGED_LINES, LineBudgetExceeded(changed));
    RejectIf(lines, !SummaryMatches(artifact, files), ArtifactSummaryMismatch(artifact.patchId))
  }

  function Reasons(diff: string, artifact: PatchArtifact, expectedBase: string, sha: Digest,
                   rules: Rules): Option<seq<Rejection>>
  {
    var p := Parsed(diff);
    var parsed := RejectErrors(IdentityReasons(diff, artifact, expectedBase, sha), p.errors);
    RejectFiles(RejectAll(CountReasons(parsed, artifact, p.files), rules.text), rules, p.files)
  }

  function Summary(f: File): ParsedPatchFile {
    ParsedPatchFile(f.Path(), f.oldPath, f.newPath, |f.added|, |f.removed|, f.hunkCount, f.binary)
  }

  function Summaries(files: seq<File>): seq<ParsedPatchFile> {
    seq(|files|, i requires 0 <= i < |files| => Summary(files[i]))
  }

  function Validation(diff: string, artifact: PatchArtifact, expectedBase: string, sha: Digest,
                      rules: Rules): Option<ValidationResult>
  {
    var reasons := Reasons(diff, artifact, expectedBase, sha, rules);
    if reasons.None? then None
    else Some(ValidationResult(reasons.value == [], reasons.value, Summaries(Parsed(diff).files)))
  }

  // ----- the method

  method RejectEach(before: seq<Rejection>, more: seq<Rejection>) returns (reasons: seq<Rejection>)
    ensures reasons == RejectAll(before, more)
  {
    reasons := before;
    for i := 0 to |more|
      invariant reasons == RejectAll(before, more[..i])
    {
      assert more[..i + 1][..i] == more[..i];
      reasons := Reject(reasons, more[i]);
    }
    assert more[..|more|] == more;
  }

  method RejectEachError(before: seq<Rejection>, errors: seq<ParseError>) returns (reasons: seq<Rejection>)
    ensures reasons == RejectErrors(before, errors)
  {
    reasons := before;
    for i := 0 to |errors|
      invariant reasons == RejectErrors(before, errors[..i])
    {
      assert errors[..i + 1][..i] == errors[..i];
      reasons := Reject(reasons, InvalidDiff(errors[i]));
    }
    assert errors[..|errors|] == errors;
  }

  method CheckFiles(before: seq<Rejection>, rules: Rules, files: seq<File>)
    returns (reasons: Option<seq<Rejection>>, parsed: seq<ParsedPatchFile>)
    ensures reasons == RejectFiles(before, rules, files) && (reasons.Some? ==> parsed == Summaries(files))
  {
    reasons, parsed := Some(before), [];
    for i := 0 to |files|
      invariant reasons.Some? && reasons == RejectFiles(before, rules, files[..i])
      invariant parsed == Summaries(files[..i])
    {
      assert files[..i + 1][..i] == files[..i];
      var answer := rules.file(files[i]);
      if answer.None? {
        OneRaises(before, rules, files, i);
        return None, parsed;
      }
      var more := RejectEach(reasons.value, answer.value);
      reasons := Some(more);
      parsed := parsed + [Summary(files[i])];
    }
    assert files[..|files|] == files;
  }

  lemma {:induction false} OneRaises(reasons: seq<Rejection>, rules: Rules, files: seq<File>, i: nat)
    requires i < |files| && rules.file(files[i]).None?
    ensures RejectFiles(reasons, rules, files).None?
  {
    if i < |files| - 1 {
      OneRaises(reasons, rules, files[..|files| - 1], i);
    }
  }

  method ValidatePatch(diff: string, artifact: PatchArtifact, expectedBase: string, sha: Digest, rules: Rules)
    returns (result: Option<ValidationResult>)
    ensures result == Validation(diff, artifact, expectedBase, sha, rules)
  {
    var reasons := IdentityReasons(diff, artifact, expectedBase, sha);
    var states, errors := DiffParser.Parse(diff);
    var files := ViewsOf(states, Parsed(diff).files);
    reasons := RejectEachError(reasons, errors);
    reasons := CountReasons(reasons, artifact, files);
    reasons := RejectEach(reasons, rules.text);
    var checked, parsed := CheckFiles(reasons, rules, files);
    result := if checked.None? then None else Some(ValidationResult(checked.value == [], checked.value, parsed));
  }

  method ViewsOf(states: seq<DiffParser.FileState>, ghost values: seq<File>) returns (files: seq<File>)
    requires DiffParser.Holds(states, values)
    ensures files == values
  {
    files := [];
    for i := 0 to |states|
      invariant files == values[..i]
    {
      files := files + [states[i].View()];
    }
  }

  // ----- what an accepted patch guarantees

  lemma {:induction false} RejectAllEmpty(reasons: seq<Rejection>, more: seq<Rejection>)
    ensures RejectAll(reasons, more) == [] <==> reasons == [] && more == []
  {
    if more != [] {
      RejectAllEmpty(reasons, more[..|more| - 1]);
    }
  }

  lemma {:induction false} RejectErrorsEmpty(reasons: seq<Rejection>, errors: seq<ParseError>)
    ensures RejectErrors(reasons, errors) == [] <==> reasons == [] && errors == []
  {
    if errors != [] {
      RejectErrorsEmpty(reasons, errors[..|errors| - 1]);
    }
  }

  lemma {:induction false} RejectFilesEmpty(reasons: seq<Rejection>, rules: Rules, files: seq<File>)
    ensures RejectFiles(reasons, rules, files) == Some([]) <==>
            reasons == [] && forall f :: f in files ==> rules.file(f) == Some([])
    ensures RejectFiles(reasons, rules, files).None? <==> exists f :: f in files && rules.file(f).None?
  {
    if files != [] {
      var n := |files| - 1;
      RejectFilesEmpty(reasons, rules, files[..n]);
      var before, answer := RejectFiles(reasons, rules, files[..n]), rules.file(files[n]);
      if before.Some? && answer.Some? {
        RejectAllEmpty(before.value, answer.value);
      }
      assert files == files[..n] + [files[n]];
    }
  }

  /** Validation raises exactly when a file-system rule raises on one of the parsed files. */
  lemma RaisesIff(diff: string, artifact: PatchArtifact, expectedBase: string, sha: Digest, rules: Rules)
    ensures Validation(diff, artifact, expectedBase, sha, rules).None? <==>
              exists f :: f in Parsed(diff).files && rules.file(f).None?
  {
    hide Parsed;
    var parsed := RejectErrors(IdentityReasons(diff, artifact, expectedBase, sha), Parsed(diff).errors);
    var counted := CountReasons(parsed, artifact, Parsed(diff).files);
    RejectFilesEmpty(RejectAll(counted, rules.text), rules, Parsed(diff).files);
  }

  predicate Accepts(diff: string, artifact: PatchArtifact, expectedBase: string, sha: Digest, rules: Rules) {
    var v := Validation(diff, artifact, expectedBase, sha, rules);
    v.Some? && v.value.valid
  }

  /** Exactly when a patch is accepted: right base, right hash of encodable bytes, an error-free parse,
      both budgets, a truthful summary, and every rule answers without a hit. */
  lemma AcceptedIff(diff: string, artifact: PatchArtifact, expectedBase: string, sha: Digest, rules: Rules)
    ensures Accepts(diff, artifact, expectedBase, sha, rules) <==>
            && artifact.baseCommitSha == expectedBase && sha(diff) == Some(artifact.patchSha256)
            && Parsed(diff).errors == [] && |Parsed(diff).files| <= 5
            && Added(Parsed(diff).files) + Removed(Parsed(diff).files) <= 100
            && artifact.filesChanged == |Parsed(diff).files|
            && artifact.linesAdded == Added(Parsed(diff).files) && artifact.linesDeleted == Removed(Parsed(diff).files)
            && rules.text == [] && forall f :: f in Parsed(diff).files ==> rules.file(f) == Some([])
  {
    var p, identity := Parsed(diff), IdentityReasons(diff, artifact, expectedBase, sha);
    var parsed := RejectErrors(identity, p.errors);
    var counted := CountReasons(parsed, artifact, p.files);
    RejectErrorsEmpty(identity, p.errors);
    RejectAllEmpty(counted, rules.text);
    RejectFilesEmpty(RejectAll(counted, rules.text), rules, p.files);
  }

  lemma ErrorFreeHasFiles(diff: string)
    requires Parsed(diff).errors == []
    ensures Parsed(diff).files != []
  {
  }

  /** What the verifier's input check later asks of an accepted validation. */
  lemma AcceptedHandoff(diff: string, artifact: PatchArtifact, expectedBase: string, sha: Digest, rules: Rules)
    requires Accepts(diff, artifact, expectedBase, sha, rules)
    ensures var v := Validation(diff, artifact, expectedBase, sha, rules).value;
            && v.reasons == [] && v.files != []
            && artifact.baseCommitSha == expectedBase && sha(diff) == Some(artifact.patchSha256)
  {
    AcceptedIff(diff, artifact, expectedBase, sha, rules);
    ErrorFreeHasFiles(diff);
  }

  // ----- which reasons are given

  /** The reason is one the text, the counts or the rules give for this patch. */
  ghost predicate IsReason(diff: string, artifact: PatchArtifact, expectedBase: string, sha: Digest, rules: Rules,
                           r: Rejection)
  {
    var files := Parsed(diff).files;
    match r
    case BaseCommitMismatch(actual) => (actual == artifact.baseCommitSha != expectedBase) || FromRules(rules, files, r)
    case InvalidUtf8 => sha(diff) == None || FromRules(rules, files, r)
    case PatchHashMismatch(actual) =>
      (sha(diff) == Some(actual) && actual != artifact.patchSha256) || FromRules(rules, files, r)
    case InvalidDiff(error) => error in Parsed(diff).errors || FromRules(rules, files, r)
    case FileBudgetExceeded(n) => (n == |files| > 5) || FromRules(rules, files, r)
    case LineBudgetExceeded(n) => (n == Added(files) + Removed(files) > 100) || FromRules(rules, files, r)
    case ArtifactSummaryMismatch(id) =>
      (id == artifact.patchId && !SummaryMatches(artifact, files)) || FromRules(rules, files, r)
    case RuleHit(_, _) => FromRules(rules, files, r)
  }

  ghost predicate FromRules(rules: Rules, files: seq<File>, r: Rejection) {
    r in rules.text || exists f :: f in files && rules.file(f).Some? && r in rules.file(f).value
  }

  lemma RejectSays(reasons: seq<Rejection>, r: Rejection)
    requires Distinct(reasons)
    ensures Distinct(Reject(reasons, r)) && forall x :: x in Reject(reasons, r) <==> x in reasons || x == r
  {
  }

  lemma RejectIfSays(reasons: seq<Rejection>, bad: bool, r: Rejection)
    requires Distinct(reasons)
    ensures Distinct(RejectIf(reasons, bad, r))
    ensures forall x :: x in RejectIf(reasons, bad, r) <==> x in reasons || (bad && x == r)
  {
    RejectSays(reasons, r);
    hide Reject, Distinct;
  }

  lemma {:induction false} RejectAllSays(reasons: seq<Rejection>, more: seq<Rejection>)
    requires Distinct(reasons)
    ensures Distinct(RejectAll(reasons, more))
    ensures forall x :: x in RejectAll(reasons, more) <==> x in reasons || x in more
  {
    if more != [] {
      var n := |more| - 1;
      RejectAllSays(reasons, more[..n]);
      RejectSays(RejectAll(reasons, more[..n]), more[n]);
      assert more == more[..n] + [more[n]];
    }
  }

  ghost predicate FromErrors(errors: seq<ParseError>, r: Rejection) {
    r.InvalidDiff? && r.error in errors
  }

  lemma {:induction false} RejectErrorsSays(reasons: seq<Rejection>, errors: seq<ParseError>)
    requires Distinct(reasons)
    ensures Distinct(RejectErrors(reasons, errors))
    ensures forall x :: x in RejectErrors(reasons, errors) <==> x in reasons || FromErrors(errors, x)
  {
    if errors != [] {
      var n := |errors| - 1;
      RejectErrorsSays(reasons, errors[..n]);
      RejectSays(RejectErrors(reasons, errors[..n]), InvalidDiff(errors[n]));
      assert errors == errors[..n] + [errors[n]];
    }
  }

  ghost predicate FromFiles(rules: Rules, files: seq<File>, r: Rejection) {
    exists f :: f in files && rules.file(f).Some? && r in rules.file(f).value
  }

  lemma {:induction false} RejectFilesSays(reasons: seq<Rejection>, rules: Rules, files: seq<File>)
    requires Distinct(reasons) && RejectFiles(reasons, rules, files).Some?
    ensures var kept := RejectFiles(reasons, rules, files).value;
            Distinct(kept) && forall x :: x in kept <==> x in reasons || FromFiles(rules, files, x)
  {
    if files != [] {
      var n := |files| - 1;
      RejectFilesSays(reasons, rules, files[..n]);
      RejectAllSays(RejectFiles(reasons, rules, files[..n]).value, rules.file(files[n]).value);
      assert files == files[..n] + [files[n]];
    }
  }

  lemma ReasonsCollect(diff: string, artifact: PatchArtifact, expectedBase: string, sha: Digest, rules: Rules)
    requires Reasons(diff, artifact, expectedBase, sha, rules).Some?
    ensures var reasons, p := Reasons(diff, artifact, expectedBase, sha, rules).value, Parsed(diff);
            && Distinct(reasons)
            && forall r :: r in reasons <==>
                 || r in IdentityReasons(diff, artifact, expectedBase, sha) || FromErrors(p.errors, r)
                 || FromCounts(artifact, p.files, r) || r in rules.text || FromFiles(rules, p.files, r)
  {
    hide Parsed, RejectAll, RejectErrors, RejectFiles, CountReasons, IdentityReasons, FromErrors, FromCounts, FromFiles;
    hide Distinct;
    var p, identity := Parsed(diff), IdentityReasons(diff, artifact, expectedBase, sha);
    var parsed := RejectErrors(identity, p.errors);
    var counted := CountReasons(parsed, artifact, p.files);
    IdentitySays(diff, artifact, expectedBase, sha);
    RejectErrorsSays(identity, p.errors);
    CountsSay(parsed, artifact, p.files);
    RejectAllSays(counted, rules.text);
    RejectFilesSays(RejectAll(counted, rules.text), rules, p.files);
  }

  /** The reasons are exactly those the patch gives, each once. */
  lemma ReasonsSay(diff: string, artifact: PatchArtifact, expectedBase: string, sha: Digest, rules: Rules)
    requires Validation(diff, artifact, expectedBase, sha, rules).Some?
    ensures var v := Validation(diff, artifact, expectedBase, sha, rules).value;
            && (v.valid <==> v.reasons == []) && Distinct(v.reasons)
            && forall r :: r in v.reasons <==> IsReason(diff, artifact, expectedBase, sha, rules, r)
  {
    hide Parsed, Reasons, IdentityReasons, SummaryMatches, Added, Removed, Distinct;
    ReasonsCollect(diff, artifact, expectedBase, sha, rules);
    IdentitySays(diff, artifact, expectedBase, sha);
    var v := Validation(diff, artifact, expectedBase, sha, rules).value;
    forall r ensures r in v.reasons <==> IsReason(diff, artifact, expectedBase, sha, rules, r) {
      assert FromRules(rules, Parsed(diff).files, r) <==> r in rules.text || FromFiles(rules, Parsed(diff).files, r);
    }
  }

  ghost predicate FromCounts(artifact: PatchArtifact, files: seq<File>, r: Rejection) {
    || (r == FileBudgetExceeded(|files|) && |files| > 5)
    || (r == LineBudgetExceeded(Added(files) + Removed(files)) && Added(files) + Removed(files) > 100)
    || (r == ArtifactSummaryMismatch(artifact.patchId) && !SummaryMatches(artifact, files))
  }

  lemma CountsSay(reasons: seq<Rejection>, artifact: PatchArtifact, files: seq<File>)
    requires Distinct(reasons)
    ensures Distinct(CountReasons(reasons, artifact, files))
    ensures forall r :: r in CountReasons(reasons, artifact, files) <==> r in reasons || FromCounts(artifact, files, r)
  {
    var changed := Added(files) + Removed(files);
    RejectIfSays(reasons, |files| > MAX_FILES, FileBudgetExceeded(|files|));
    var budget := RejectIf(reasons, |files| > MAX_FILES, FileBudgetExceeded(|files|));
    RejectIfSays(budget, changed > MAX_CHANGED_LINES, LineBudgetExceeded(changed));
    RejectIfSays(RejectIf(budget, changed > MAX_CHANGED_LINES, LineBudgetExceeded(changed)),
                 !SummaryMatches(artifact, files), ArtifactSummaryMismatch(artifact.patchId));
    hide Added, Removed, SummaryMatches, RejectIf, Distinct;
  }

  lemma IdentitySays(diff: string, artifact: PatchArtifact, expectedBase: string, sha: Digest)
    ensures Distinct(IdentityReasons(diff, artifact, expectedBase, sha))
    ensures forall r :: r in IdentityReasons(diff, artifact, expectedBase, sha) <==>
              || (r == BaseCommitMismatch(artifact.baseCommitSha) && artifact.baseCommitSha != expectedBase)
              || (r == InvalidUtf8 && sha(diff) == None)
              || (r.PatchHashMismatch? && sha(diff) == Some(r.actual) && r.actual != artifact.patchSha256)
  {
    RejectIfSays([], artifact.baseCommitSha != expectedBase, BaseCommitMismatch(artifact.baseCommitSha));
    var base := RejectIf([], artifact.baseCommitSha != expectedBase, BaseCommitMismatch(artifact.baseCommitSha));
    RejectSays(base, InvalidUtf8);
    if sha(diff).Some? {
      RejectIfSays(base, artifact.patchSha256 != sha(diff).value, PatchHashMismatch(sha(diff).value));
    }
    hide RejectIf, Reject, Distinct;
  }

  lemma TotalsAppend(files: seq<File>, f: File)
    ensures Added([]) == 0 == Removed([])
    ensures Added(files + [f]) == Added(files) + |f.added| && Removed(files + [f]) == Removed(files) + |f.removed|
  {
    assert (files + [f])[..|files|] == files;
  }

  /** The reported files are the parsed ones, in order, each under its new path if it has one and else its old one. */
  lemma FilesSay(diff: string, artifact: PatchArtifact, expectedBase: string, sha: Digest, rules: Rules, i: nat)
    requires Accepts(diff, artifact, expectedBase, sha, rules) && i < |Parsed(diff).files|
    ensures var v, f := Validation(diff, artifact, expectedBase, sha, rules).value, Parsed(diff).files[i];
            && |v.files| == |Parsed(diff).files|
            && v.files[i].linesAdded == |f.added| && v.files[i].linesDeleted == |f.removed|
            && v.files[i].hunkCount == f.hunkCount && v.files[i].binary == f.binary
            && v.files[i].oldPath == f.oldPath && v.files[i].newPath == f.newPath
            && (Truthy(f.newPath) ==> v.files[i].path == f.newPath.value)
            && (!Truthy(f.newPath) && Truthy(f.oldPath) ==> v.files[i].path == f.oldPath.value)
  {
    hide Parsed, Reasons;
  }
}
