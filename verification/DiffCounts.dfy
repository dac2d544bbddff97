/** An error-free parse consumed, file by file, exactly the lines its hunk headers declared. */
module DiffCounts {
  import opened Common
  import opened Text
  import opened DiffGrammar

  datatype Declared = Declared(before: nat, after: nat)

  /** The parser plus a tally, per closed file and for the open one, of the counts its hunks declared. */
  datatype Audit = Audit(p: Parser, closed: seq<Declared>, current: Declared)

  predicate AcceptsHunk(f: File, line: string) {
    && !f.binary && !(f.inHunk && IsContent(line)) && "@@" <= line
    && ParseHunk(line).Some? && !(f.hunkCount > 0 && f.inHunk)
  }

  function Tally(d: Declared, f: File, line: string): Declared {
    if AcceptsHunk(f, line) then
      var counts := ParseHunk(line).value;
      Declared(d.before + counts.0, d.after + counts.1)
    else d
  }

  predicate Closes(p: Parser, line: string) {
    p.current.Some? && ("diff --git " <= line || StartsNextFile(p.current.value, line))
  }

  function AuditLine(a: Audit, line: string): Audit {
    if Closes(a.p, line) then Audit(ParseLine(a.p, line), a.closed + [a.current], Declared(0, 0))
    else if a.p.current.Some? then Audit(ParseLine(a.p, line), a.closed, Tally(a.current, a.p.current.value, line))
    else Audit(ParseLine(a.p, line), a.closed, Declared(0, 0))
  }

  function AuditLines(a: Audit, lines: seq<string>): Audit {
    if lines == [] then a else AuditLine(AuditLines(a, lines[..|lines| - 1]), lines[|lines| - 1])
  }

  /** The declared counts of every file of a diff, in the order of the parsed files. */
  function DeclaredCounts(diff: string): seq<Declared> {
    var a := AuditLines(Audit(Parser([], None, FirstErrors(diff)), [], Declared(0, 0)), SplitLines(diff, ""));
    if a.p.current.Some? then a.closed + [a.current] else a.closed
  }

  /** What was declared is what was read plus what is still owed. */
  predicate Balanced(f: File, d: Declared) {
    && d.before == |f.removed| + |f.context| + f.oldRemaining
    && d.after == |f.added| + |f.context| + f.newRemaining
  }

  predicate Consumed(f: File, d: Declared) {
    d.before == |f.removed| + |f.context| && d.after == |f.added| + |f.context|
  }

  ghost predicate Sound(a: Audit) {
    && |a.closed| == |a.p.files|
    && (a.p.current.None? ==> a.current == Declared(0, 0))
    && (a.p.errors == [] ==>
          && (a.p.current.Some? ==> Balanced(a.p.current.value, a.current))
          && forall i :: 0 <= i < |a.closed| ==> Consumed(a.p.files[i], a.closed[i]))
  }

  lemma ContentBalanced(f: File, line: string, d: Declared)
    requires IsContent(line) && Balanced(f, d)
    ensures Balanced(ContentLine(f, line).0, d)
  {
  }

  /** Header lines other than hunk headers leave the counters and the collected lines alone. */
  lemma HeaderKeepsCounts(f: File, line: string, d: Declared)
    requires !("@@" <= line) && Balanced(f, d)
    ensures Balanced(HeaderLine(f, line).0, d)
  {
    hide IsMetadata, IsRename, HeaderPath, Contains, HunkLine, ParseHunk;
  }

  lemma FileLineBalanced(f: File, line: string, d: Declared)
    requires Balanced(f, d) && FileLine(f, line).1 == []
    ensures Balanced(FileLine(f, line).0, Tally(d, f, line))
  {
    if !f.binary {
      if f.inHunk && IsContent(line) {
        ContentBalanced(f, line, d);
      } else if "@@" <= line {
        HunkBalanced(f, line, d);
      } else {
        HeaderKeepsCounts(f, line, d);
      }
    }
  }

  lemma HunkBalanced(f: File, line: string, d: Declared)
    requires "@@" <= line && !f.binary && !(f.inHunk && IsContent(line))
    requires Balanced(f, d) && HeaderLine(f, line).1 == []
    ensures Balanced(HeaderLine(f, line).0, Tally(d, f, line))
  {
    assert line[0] == '@';
    assert HeaderLine(f, line) == HunkLine(f, ParseHunk(line));
  }

  lemma BlankBalanced(line: string)
    requires "--- " <= line
    ensures Balanced(FileLine(BLANK_FILE, line).0, Declared(0, 0))
  {
    assert line[0] == '-';
  }

  lemma FinishBalanced(f: File, d: Declared)
    requires Balanced(f, d) && FinishErrors(f) == []
    ensures Consumed(f, d)
  {
  }

  lemma AuditLineSound(a: Audit, line: string)
    requires Sound(a)
    ensures Sound(AuditLine(a, line))
  {
    var next := AuditLine(a, line);
    if next.p.errors == [] {
      if Closes(a.p, line) {
        FinishBalanced(a.p.current.value, a.current);
        if !("diff --git " <= line) {
          BlankBalanced(line);
        }
      } else if "diff --git " <= line {
      } else if a.p.current.Some? {
        FileLineBalanced(a.p.current.value, line, a.current);
      } else if "--- " <= line {
        BlankBalanced(line);
      }
    }
  }

  lemma {:induction false} AuditLinesSound(a: Audit, lines: seq<string>)
    requires Sound(a)
    ensures Sound(AuditLines(a, lines)) && AuditLines(a, lines).p == ParseLines(a.p, lines)
  {
    if lines != [] {
      AuditLinesSound(a, lines[..|lines| - 1]);
      AuditLineSound(AuditLines(a, lines[..|lines| - 1]), lines[|lines| - 1]);
    }
  }

  /** Without errors, declared old counts are removed plus context lines and declared new counts are
      added plus context lines, for every file; and there is at least one file. */
  lemma ErrorFreeParseConsumesDeclared(diff: string)
    requires Parsed(diff).errors == []
    ensures Parsed(diff).files != [] && |DeclaredCounts(diff)| == |Parsed(diff).files|
    ensures forall i :: 0 <= i < |Parsed(diff).files| ==> Consumed(Parsed(diff).files[i], DeclaredCounts(diff)[i])
  {
    var start := Audit(Parser([], None, FirstErrors(diff)), [], Declared(0, 0));
    var lines := SplitLines(diff, "");
    AuditLinesSound(start, lines);
    var a := AuditLines(start, lines);
    if a.p.current.Some? {
      FinishBalanced(a.p.current.value, a.current);
    }
  }
}
