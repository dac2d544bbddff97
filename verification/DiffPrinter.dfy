/** Well-formed file patches, their unified-diff text, and what the parser should make of them. */
module DiffPrinter {
  import opened Common
  import opened Text
  import opened DiffGrammar

  datatype BodyLine = BodyLine(kind: char, text: string, unterminated: bool)

  datatype HunkPatch = HunkPatch(oldStart: nat, newStart: nat, section: string, body: seq<BodyLine>)

  datatype GitHeader = GitHeader(oldPath: string, newPath: string, metadata: seq<string>)

  datatype FilePatch = FilePatch(git: Option<GitHeader>, oldPath: Option<string>, newPath: Option<string>,
                                 hunks: seq<HunkPatch>)

  // ----- well-formedness; a text may look like any header

  predicate GoodBody(body: seq<BodyLine>) {
    forall l :: l in body ==> l.kind in {' ', '+', '-'} && OneLine(l.text)
  }

  predicate GoodHunk(h: HunkPatch) {
    h.body != [] && GoodBody(h.body) && OneLine(h.section)
  }

  /** What git says about a file between its header and its paths. */
  predicate DescribesFile(line: string) {
    || "index " <= line || "new file mode " <= line || "deleted file mode " <= line
    || "old mode " <= line || "new mode " <= line
  }

  predicate GoodGit(f: FilePatch, git: GitHeader) {
    && OneLine(git.oldPath) && ' ' !in git.oldPath
    && OneLine(git.newPath) && ' ' !in git.newPath
    && (forall m :: m in git.metadata ==> OneLine(m) && DescribesFile(m))
    && !Disagree(Some(git.oldPath), f.oldPath)
    && !Disagree(Some(git.newPath), f.newPath)
  }

  predicate GoodFile(f: FilePatch) {
    && (f.git.Some? ==> GoodGit(f, f.git.value))
    && (f.oldPath.Some? || f.newPath.Some?)
    && (f.oldPath.Some? ==> OneLine(f.oldPath.value))
    && (f.newPath.Some? ==> OneLine(f.newPath.value))
    && f.hunks != []
    && forall h :: h in f.hunks ==> GoodHunk(h)
  }

  // ----- printing

  function Count(body: seq<BodyLine>, skipped: char): nat {
    if body == [] then 0 else (if body[0].kind == skipped then 0 else 1) + Count(body[1..], skipped)
  }

  /** `start,count`, leaving out a count of one as git does. */
  function RangeText(start: nat, count: nat): string {
    Decimal(start) + if count == 1 then "" else "," + Decimal(count)
  }

  function HunkHeader(h: HunkPatch): string {
    "@@ -" + (RangeText(h.oldStart, Count(h.body, '+'))
              + (" +" + (RangeText(h.newStart, Count(h.body, '-')) + (" @@" + h.section))))
  }

  function BodyLineText(l: BodyLine): seq<string> {
    [[l.kind] + l.text] + if l.unterminated then [NO_NEWLINE] else []
  }

  function BodyText(body: seq<BodyLine>): seq<string> {
    if body == [] then [] else BodyLineText(body[0]) + BodyText(body[1..])
  }

  function HunkText(h: HunkPatch): seq<string> {
    [HunkHeader(h)] + BodyText(h.body)
  }

  function HunksText(hunks: seq<HunkPatch>): seq<string> {
    if hunks == [] then [] else HunkText(hunks[0]) + HunksText(hunks[1..])
  }

  function PathText(side: string, path: Option<string>): string {
    if path.None? then "/dev/null" else side + path.value
  }

  function GitLine(git: GitHeader): string {
    "diff" + " " + ("--git" + " " + ("a/" + git.oldPath + " " + ("b/" + git.newPath)))
  }

  function GitText(git: Option<GitHeader>): seq<string> {
    if git.None? then [] else [GitLine(git.value)] + git.value.metadata
  }

  function PathsText(f: FilePatch): seq<string> {
    ["--- " + PathText("a/", f.oldPath), "+++ " + PathText("b/", f.newPath)]
  }

  function FileText(f: FilePatch): seq<string> {
    GitText(f.git) + (PathsText(f) + HunksText(f.hunks))
  }

  function FilesText(files: seq<FilePatch>): seq<string> {
    if files == [] then [] else FilesText(files[..|files| - 1]) + FileText(files[|files| - 1])
  }

  function Print(files: seq<FilePatch>): string {
    JoinLines(FilesText(files))
  }

  // ----- the file the parser should report

  function Texts(kind: char, body: seq<BodyLine>): seq<string> {
    if body == [] then []
    else (if body[0].kind == kind then [body[0].text] else []) + Texts(kind, body[1..])
  }

  function AllTexts(kind: char, hunks: seq<HunkPatch>): seq<string> {
    if hunks == [] then [] else Texts(kind, hunks[0].body) + AllTexts(kind, hunks[1..])
  }

  function Expected(f: FilePatch): File {
    BLANK_FILE.(
      gitOld := if f.git.Some? then Some(f.git.value.oldPath) else None,
      gitNew := if f.git.Some? then Some(f.git.value.newPath) else None,
      oldPath := f.oldPath, newPath := f.newPath,
      added := AllTexts('+', f.hunks), removed := AllTexts('-', f.hunks), context := AllTexts(' ', f.hunks),
      hunkCount := |f.hunks|,
      symlinkMode := f.git.Some? && exists m :: m in f.git.value.metadata && Contains(m, "120000"),
      oldHeaderSeen := true, newHeaderSeen := true)
  }

  function ExpectedFiles(files: seq<FilePatch>): seq<File> {
    seq(|files|, i requires 0 <= i < |files| => Expected(files[i]))
  }
}
