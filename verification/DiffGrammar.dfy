/** What one line does to the unified-diff parser (`_parse` in `lou/agents/patch_validation.py`). */
module DiffGrammar {
  import opened Common
  import opened Text

  datatype ParseError =
    | MissingFinalNewline | BadGitHeader | UnexpectedLine(line: string) | CountsDoNotMatch(path: string)
    | MissingHeaders(path: string) | BothHeadersNull(path: string) | NoTextualHunk(path: string)
    | OldHeaderDisagrees(path: string) | NewHeaderDisagrees(path: string) | TooManyLines(path: string)
    | RenameUnsupported(path: string) | NewBeforeOldHeader | BadHunkHeader(path: string)
    | HunkBeforeHeaders(path: string) | PreviousCountsDoNotMatch(path: string)
    | UnexpectedDiffLine(path: string, line: string) | NothingParsed

  /** The values of `_FileState`. */
  datatype File = File(
    gitOld: Option<string>, gitNew: Option<string>, oldPath: Option<string>, newPath: Option<string>,
    added: seq<string>, removed: seq<string>, context: seq<string>, hunkCount: nat,
    binary: bool, symlinkMode: bool, oldRemaining: int, newRemaining: int, inHunk: bool,
    oldHeaderSeen: bool, newHeaderSeen: bool)
  {
    function Path(): string {
      if Truthy(newPath) then newPath.value
      else if Truthy(oldPath) then oldPath.value
      else if Truthy(gitNew) then gitNew.value
      else if Truthy(gitOld) then gitOld.value
      else ""
    }
  }

  const BLANK_FILE := File(None, None, None, None, [], [], [], 0, false, false, 0, 0, false, false, false)

  const NO_NEWLINE := "\\ No newline at end of file"

  predicate Truthy(s: Option<string>) {
    s.Some? && s.value != ""
  }

  // ----- line shapes

  function HeaderPath(value: string): Option<string> {
    if value == "/dev/null" then None
    else if "a/" <= value || "b/" <= value then Some(value[2..])
    else Some(value)
  }

  predicate IsContent(line: string) {
    line != "" && line[0] in {' ', '+', '-'}
  }

  predicate IsMetadata(line: string) {
    || "index " <= line || "new file mode " <= line || "deleted file mode " <= line
    || "old mode " <= line || "new mode " <= line
  }

  predicate IsRename(line: string) {
    "rename from " <= line || "rename to " <= line || "copy from " <= line || "copy to " <= line
  }

  /** One `(\d+)(?:,(\d+))?` group: the declared count, one when omitted, and the text after it. */
  function ParseRange(s: string): Option<(nat, string)> {
    var k := DigitCount(s);
    var rest := s[k..];
    if k == 0 then None
    else if "," <= rest && DigitCount(rest[1..]) > 0 then
      var m := DigitCount(rest[1..]);
      Some((NatOf(rest[1..][..m]), rest[1..][m..]))
    else Some((1, rest))
  }

  /** The `_HUNK` pattern: the declared old and new line counts. */
  function ParseHunk(line: string): Option<(nat, nat)> {
    if !("@@ -" <= line) then None
    else
      var before := ParseRange(line[4..]);
      if before.None? || !(" +" <= before.value.1) then None
      else
        var after := ParseRange(before.value.1[2..]);
        if after.None? || !(" @@" <= after.value.1) then None
        else Some((before.value.0, after.value.0))
  }

  function AppendIf(errors: seq<ParseError>, bad: bool, error: ParseError): seq<ParseError> {
    if bad then errors + [error] else errors
  }

  /** Two nonempty paths that differ. */
  predicate Disagree(git: Option<string>, header: Option<string>) {
    Truthy(git) && Truthy(header) && git != header
  }

  // ----- one line inside the current file

  function CountContent(f: File, kind: char): (int, int) {
    (if kind == '+' then f.oldRemaining else f.oldRemaining - 1,
     if kind == '-' then f.newRemaining else f.newRemaining - 1)
  }

  function ContentLine(f: File, line: string): (File, seq<ParseError>)
    requires IsContent(line)
  {
    var (before, after) := CountContent(f, line[0]);
    var text := [line[1..]];
    var g := f.(context := if line[0] == ' ' then f.context + text else f.context,
                added := if line[0] == '+' then f.added + text else f.added,
                removed := if line[0] == '-' then f.removed + text else f.removed,
                oldRemaining := before, newRemaining := after,
                inHunk := if before == 0 && after == 0 then false else f.inHunk);
    (g, if before < 0 || after < 0 then [TooManyLines(f.Path())] else [])
  }

  function HunkLine(f: File, counts: Option<(nat, nat)>): (File, seq<ParseError>) {
    if counts.None? || (f.hunkCount > 0 && f.inHunk) then (f, [BadHunkHeader(f.Path())])
    else
      (f.(oldRemaining := counts.value.0, newRemaining := counts.value.1,
          hunkCount := f.hunkCount + 1, inHunk := true),
       AppendIf(AppendIf([], !f.oldHeaderSeen || !f.newHeaderSeen, HunkBeforeHeaders(f.Path())),
                f.oldRemaining != 0 || f.newRemaining != 0, PreviousCountsDoNotMatch(f.Path())))
  }

  function PathLine(f: File, line: string): (File, seq<ParseError>)
    requires "--- " <= line || "+++ " <= line
  {
    if "--- " <= line then (f.(oldPath := HeaderPath(line[4..]), oldHeaderSeen := true), [])
    else
      (f.(newPath := HeaderPath(line[4..]), newHeaderSeen := true),
       if f.oldHeaderSeen then [] else [NewBeforeOldHeader])
  }

  function MetadataLine(f: File, line: string): File {
    f.(symlinkMode := f.symlinkMode || Contains(line, "120000"))
  }

  function HeaderLine(f: File, line: string): (File, seq<ParseError>) {
    if "GIT binary patch" <= line || "Binary files " <= line then (f.(binary := true), [])
    else if IsMetadata(line) then (MetadataLine(f, line), [])
    else if IsRename(line) then (f, [RenameUnsupported(f.Path())])
    else if "--- " <= line || "+++ " <= line then PathLine(f, line)
    else if "@@" <= line then HunkLine(f, ParseHunk(line))
    else if line == NO_NEWLINE then (f, [])
    else (f, [UnexpectedDiffLine(f.Path(), line)])
  }

  function FileLine(f: File, line: string): (File, seq<ParseError>) {
    if f.binary then (f, [])
    else if f.inHunk && IsContent(line) then ContentLine(f, line)
    else HeaderLine(f, line)
  }

  /** A `--- ` line that is neither skipped nor content closes a file whose hunks are complete. */
  predicate StartsNextFile(f: File, line: string) {
    !f.binary && !f.inHunk && f.hunkCount > 0 && "--- " <= line
  }

  // ----- the whole pass

  datatype Parser = Parser(files: seq<File>, current: Option<File>, errors: seq<ParseError>)

  function FinishErrors(f: File): seq<ParseError> {
    var path := f.Path();
    var counts := AppendIf([], f.oldRemaining != 0 || f.newRemaining != 0, CountsDoNotMatch(path));
    var headers := AppendIf(counts, !f.oldHeaderSeen || !f.newHeaderSeen, MissingHeaders(path));
    var nulls := AppendIf(headers, f.oldPath.None? && f.newPath.None?, BothHeadersNull(path));
    var hunks := AppendIf(nulls, f.hunkCount == 0 && !f.binary, NoTextualHunk(path));
    var before := AppendIf(hunks, Disagree(f.gitOld, f.oldPath), OldHeaderDisagrees(path));
    AppendIf(before, Disagree(f.gitNew, f.newPath), NewHeaderDisagrees(path))
  }

  function Finish(p: Parser): Parser {
    if p.current.None? then p
    else Parser(p.files + [p.current.value], None, p.errors + FinishErrors(p.current.value))
  }

  predicate GoodGitHeader(pieces: seq<string>) {
    |pieces| == 4 && "a/" <= pieces[2] && "b/" <= pieces[3]
  }

  function GitFile(line: string): (File, seq<ParseError>) {
    var pieces := SplitSpaces(line, "");
    if GoodGitHeader(pieces) then
      (BLANK_FILE.(gitOld := Some(pieces[2][2..]), gitNew := Some(pieces[3][2..])), [])
    else (BLANK_FILE, [BadGitHeader])
  }

  function Open(p: Parser, started: (File, seq<ParseError>)): Parser {
    Parser(p.files, Some(started.0), p.errors + started.1)
  }

  function ParseLine(p: Parser, line: string): Parser {
    if "diff --git " <= line then Open(Finish(p), GitFile(line))
    else if p.current.None? then
      if "--- " <= line then Open(p, FileLine(BLANK_FILE, line))
      else p.(errors := p.errors + [UnexpectedLine(line)])
    else if StartsNextFile(p.current.value, line) then Open(Finish(p), FileLine(BLANK_FILE, line))
    else Open(p, FileLine(p.current.value, line))
  }

  function ParseLines(p: Parser, lines: seq<string>): Parser {
    if lines == [] then p
    else ParseLine(ParseLines(p, lines[..|lines| - 1]), lines[|lines| - 1])
  }

  function FirstErrors(diff: string): seq<ParseError> {
    if diff == "" || diff[|diff| - 1] != '\n' then [MissingFinalNewline] else []
  }

  function Parsed(diff: string): Parser {
    var p := Finish(ParseLines(Parser([], None, FirstErrors(diff)), SplitLines(diff, "")));
    if p.files == [] then p.(errors := p.errors + [NothingParsed]) else p
  }

  lemma {:induction false} ParseLinesConcat(p: Parser, a: seq<string>, b: seq<string>)
    ensures ParseLines(p, a + b) == ParseLines(ParseLines(p, a), b)
  {
    if b == [] {
      assert a + b == a;
    } else {
      assert (a + b)[..|a + b| - 1] == a + b[..|b| - 1];
      ParseLinesConcat(p, a, b[..|b| - 1]);
    }
  }

  lemma {:induction false} ErrorsOnlyGrow(p: Parser, lines: seq<string>)
    requires ParseLines(p, lines).errors == []
    ensures p.errors == []
  {
    if lines != [] {
      ErrorsOnlyGrow(p, lines[..|lines| - 1]);
    }
  }
}
