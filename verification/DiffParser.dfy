/** `_parse`: one mutable pass over the lines of a diff, updating the current file's counters. */
module DiffParser {
  import opened Common
  import opened Text
  import opened DiffGrammar

  /** `_FileState`. */
  class FileState {
    var gitOld: Option<string>
    var gitNew: Option<string>
    var oldPath: Option<string>
    var newPath: Option<string>
    var added: seq<string>
    var removed: seq<string>
    var context: seq<string>
    var hunkCount: nat
    var binary: bool
    var symlinkMode: bool
    var oldRemaining: int
    var newRemaining: int
    var inHunk: bool
    var oldHeaderSeen: bool
    var newHeaderSeen: bool

    function View(): File
      reads this
    {
      File(gitOld, gitNew, oldPath, newPath, added, removed, context, hunkCount, binary, symlinkMode,
           oldRemaining, newRemaining, inHunk, oldHeaderSeen, newHeaderSeen)
    }

    constructor (gitOld: Option<string>, gitNew: Option<string>)
      ensures View() == BLANK_FILE.(gitOld := gitOld, gitNew := gitNew)
    {
      this.gitOld, this.gitNew, oldPath, newPath := gitOld, gitNew, None, None;
      added, removed, context := [], [], [];
      hunkCount, oldRemaining, newRemaining := 0, 0, 0;
      binary, symlinkMode, inHunk, oldHeaderSeen, newHeaderSeen := false, false, false, false, false;
    }

    /** A content line goes to one list and is counted against the sides it belongs to. */
    method Collect(kind: char, text: string)
      requires kind in {' ', '+', '-'}
      modifies `context, `added, `removed, `oldRemaining, `newRemaining
      ensures View() == old(View()).(
                context := if kind == ' ' then old(context) + [text] else old(context),
                added := if kind == '+' then old(added) + [text] else old(added),
                removed := if kind == '-' then old(removed) + [text] else old(removed),
                oldRemaining := CountContent(old(View()), kind).0, newRemaining := CountContent(old(View()), kind).1)
    {
      if kind == ' ' {
        context := context + [text];
        oldRemaining, newRemaining := oldRemaining - 1, newRemaining - 1;
      } else if kind == '+' {
        added := added + [text];
        newRemaining := newRemaining - 1;
      } else {
        removed := removed + [text];
        oldRemaining := oldRemaining - 1;
      }
    }

    method Content(line: string) returns (errors: seq<ParseError>)
      requires IsContent(line)
      modifies this
      ensures (View(), errors) == ContentLine(old(View()), line)
    {
      errors := [];
      Collect(line[0], line[1..]);
      if oldRemaining < 0 || newRemaining < 0 {
        errors := [TooManyLines(View().Path())];
      }
      if oldRemaining == 0 && newRemaining == 0 {
        inHunk := false;
      }
    }

    method Hunk(counts: Option<(nat, nat)>) returns (errors: seq<ParseError>)
      modifies this
      ensures (View(), errors) == HunkLine(old(View()), counts)
    {
      errors := [];
      if counts.None? || (hunkCount > 0 && inHunk) {
        return [BadHunkHeader(View().Path())];
      }
      if !oldHeaderSeen || !newHeaderSeen {
        errors := errors + [HunkBeforeHeaders(View().Path())];
      }
      if oldRemaining != 0 || newRemaining != 0 {
        errors := errors + [PreviousCountsDoNotMatch(View().Path())];
      }
      oldRemaining, newRemaining := counts.value.0, counts.value.1;
      hunkCount := hunkCount + 1;
      inHunk := true;
    }

    method Header(line: string) returns (errors: seq<ParseError>)
      modifies this
      ensures (View(), errors) == HeaderLine(old(View()), line)
    {
      errors := [];
      if "GIT binary patch" <= line || "Binary files " <= line {
        binary := true;
      } else if IsMetadata(line) {
        if Contains(line, "120000") {
          symlinkMode := true;
        }
      } else if IsRename(line) {
        errors := [RenameUnsupported(View().Path())];
      } else if "--- " <= line {
        oldPath := HeaderPath(line[4..]);
        oldHeaderSeen := true;
      } else if "+++ " <= line {
        if !oldHeaderSeen {
          errors := [NewBeforeOldHeader];
        }
        newPath := HeaderPath(line[4..]);
        newHeaderSeen := true;
      } else if "@@" <= line {
        errors := Hunk(ParseHunk(line));
      } else if line != NO_NEWLINE {
        errors := [UnexpectedDiffLine(View().Path(), line)];
      }
    }

    method Line(line: string) returns (errors: seq<ParseError>)
      modifies this
      ensures (View(), errors) == FileLine(old(View()), line)
    {
      errors := [];
      if !binary {
        if inHunk && IsContent(line) {
          errors := Content(line);
        } else {
          errors := Header(line);
        }
      }
    }
  }

  /** The objects hold exactly these values, in order. */
  ghost predicate Holds(files: seq<FileState>, values: seq<File>)
    reads files
  {
    |files| == |values| && forall i :: 0 <= i < |files| ==> files[i].View() == values[i]
  }

  /** The variables of `_parse` are in the state `p`. */
  ghost predicate InState(files: seq<FileState>, current: FileState?, errors: seq<ParseError>, p: Parser)
    reads files, current
  {
    && Holds(files, p.files)
    && p.current == (if current == null then None else Some(current.View()))
    && p.errors == errors
    && current !in files
  }

  method StartGitFile(line: string) returns (file: FileState, errors: seq<ParseError>)
    ensures fresh(file) && (file.View(), errors) == GitFile(line)
  {
    var pieces := SplitSpaces(line, "");
    if GoodGitHeader(pieces) {
      file := new FileState(Some(pieces[2][2..]), Some(pieces[3][2..]));
      errors := [];
    } else {
      file := new FileState(None, None);
      errors := [BadGitHeader];
    }
  }

  /** `finish()` applied to a file that is still open: what it appends to `errors`. */
  method FinishFile(file: FileState) returns (errors: seq<ParseError>)
    ensures errors == FinishErrors(file.View())
  {
    var path := file.View().Path();
    errors := [];
    if file.oldRemaining != 0 || file.newRemaining != 0 {
      errors := errors + [CountsDoNotMatch(path)];
    }
    if !file.oldHeaderSeen || !file.newHeaderSeen {
      errors := errors + [MissingHeaders(path)];
    }
    if file.oldPath.None? && file.newPath.None? {
      errors := errors + [BothHeadersNull(path)];
    }
    if file.hunkCount == 0 && !file.binary {
      errors := errors + [NoTextualHunk(path)];
    }
    if Disagree(file.gitOld, file.oldPath) {
      errors := errors + [OldHeaderDisagrees(path)];
    }
    if Disagree(file.gitNew, file.newPath) {
      errors := errors + [NewHeaderDisagrees(path)];
    }
  }

  /** `finish()`: close the current file, if any. */
  method Close(files: seq<FileState>, current: FileState?, errors: seq<ParseError>, ghost p: Parser)
    returns (files': seq<FileState>, errors': seq<ParseError>)
    requires InState(files, current, errors, p)
    ensures files' == if current == null then files else files + [current]
    ensures InState(files', null, errors', Finish(p))
  {
    files', errors' := files, errors;
    if current != null {
      var unfinished := FinishFile(current);
      errors' := errors + unfinished;
      files' := files + [current];
    }
  }

  /** One turn of the loop: `current` may be updated in place, closed, or replaced. */
  method Advance(files: seq<FileState>, current: FileState?, errors: seq<ParseError>, line: string, ghost p: Parser)
    returns (files': seq<FileState>, current': FileState?, errors': seq<ParseError>)
    requires InState(files, current, errors, p)
    modifies current
    ensures current' == null || current' == current || fresh(current')
    ensures files' == files || (current != null && files' == files + [current])
    ensures InState(files', current', errors', ParseLine(p, line))
  {
    files', current', errors' := files, current, errors;
    var found: seq<ParseError> := [];
    if "diff --git " <= line {
      files', errors' := Close(files, current, errors, p);
      current', found := StartGitFile(line);
    } else {
      if current != null && StartsNextFile(current.View(), line) {
        files', errors' := Close(files, current, errors, p);
        current' := new FileState(None, None);
      } else if current == null && "--- " <= line {
        current' := new FileState(None, None);
      }
      if current' == null {
        found := [UnexpectedLine(line)];
      } else {
        found := current'.Line(line);
      }
    }
    errors' := errors' + found;
  }

  method ParseAll(lines: seq<string>, first: seq<ParseError>) returns (files: seq<FileState>, errors: seq<ParseError>)
    ensures InState(files, null, errors, Finish(ParseLines(Parser([], None, first), lines)))
    ensures forall f :: f in files ==> fresh(f)
  {
    files := [];
    var current: FileState? := null;
    errors := first;
    ghost var p := Parser([], None, first);
    for n := 0 to |lines|
      invariant forall f :: f in files ==> fresh(f)
      invariant current != null ==> fresh(current)
      invariant InState(files, current, errors, p)
      invariant p == ParseLines(Parser([], None, first), lines[..n])
    {
      assert lines[..n + 1][..n] == lines[..n];
      files, current, errors := Advance(files, current, errors, lines[n], p);
      p := ParseLine(p, lines[n]);
    }
    assert lines[..|lines|] == lines;
    files, errors := Close(files, current, errors, p);
  }

  /** The parser's files and errors are those of the line-by-line meaning of the diff. */
  method Parse(diff: string) returns (files: seq<FileState>, errors: seq<ParseError>)
    ensures InState(files, null, errors, Parsed(diff))
    ensures forall f :: f in files ==> fresh(f)
  {
    files, errors := ParseAll(SplitLines(diff, ""), FirstErrors(diff));
    if files == [] {
      errors := errors + [NothingParsed];
    }
  }
}
