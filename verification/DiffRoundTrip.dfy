/** Parsing a printed patch gives back exactly what was printed, whatever its lines look like. */
module DiffRoundTrip {
  import opened Common
  import opened Text
  import opened DiffGrammar
  import opened DiffPrinter

  // ----- line prefixes

  lemma NotPrefix(prefix: string, line: string)
    requires prefix != "" && line != "" && prefix[0] != line[0]
    ensures !(prefix <= line)
  {
  }

  lemma NoHeaderPrefix(line: string)
    requires line != "" && line[0] in {'@', '\\', '-', '+'}
    ensures !("GIT binary patch" <= line) && !("Binary files " <= line) && !IsMetadata(line) && !IsRename(line)
  {
    NotPrefix("GIT binary patch", line);
    NotPrefix("Binary files ", line);
    NotPrefix("index ", line);
    NotPrefix("new file mode ", line);
    NotPrefix("deleted file mode ", line);
    NotPrefix("old mode ", line);
    NotPrefix("new mode ", line);
    NotPrefix("rename from ", line);
    NotPrefix("rename to ", line);
    NotPrefix("copy from ", line);
    NotPrefix("copy to ", line);
  }

  // ----- hunk headers

  lemma ParseRangeOf(start: nat, count: nat, rest: string)
    requires rest != "" && rest[0] == ' '
    ensures ParseRange(RangeText(start, count) + rest) == Some((count, rest))
  {
    var digits := Decimal(start);
    var text := RangeText(start, count) + rest;
    if count == 1 {
      assert text == digits + rest;
      DigitCountOf(digits, rest);
      assert text[|digits|..] == rest;
    } else {
      var counted := Decimal(count);
      var tail := "," + (counted + rest);
      assert text == digits + tail;
      DigitCountOf(digits, tail);
      assert text[|digits|..] == tail && tail[1..] == counted + rest;
      DigitCountOf(counted, rest);
      assert tail[1..][..|counted|] == counted && tail[1..][|counted|..] == rest;
      NatOfDecimal(count);
    }
  }

  lemma ParseHunkOf(h: HunkPatch)
    ensures ParseHunk(HunkHeader(h)) == Some((Count(h.body, '+'), Count(h.body, '-')))
  {
    var section := " @@" + h.section;
    var new_ := RangeText(h.newStart, Count(h.body, '-'));
    var middle := " +" + (new_ + section);
    var before := RangeText(h.oldStart, Count(h.body, '+'));
    assert HunkHeader(h)[4..] == before + middle;
    ParseRangeOf(h.oldStart, Count(h.body, '+'), middle);
    assert middle[2..] == new_ + section;
    ParseRangeOf(h.newStart, Count(h.body, '-'), section);
  }

  // ----- hunk bodies

  /** The file is inside a hunk that still owes exactly these lines. */
  ghost predicate Owes(f: File, body: seq<BodyLine>) {
    && f.inHunk && !f.binary
    && f.oldRemaining == Count(body, '+') && f.newRemaining == Count(body, '-')
  }

  function AfterBody(f: File, body: seq<BodyLine>): File {
    f.(context := f.context + Texts(' ', body), added := f.added + Texts('+', body),
       removed := f.removed + Texts('-', body), oldRemaining := 0, newRemaining := 0, inHunk := false)
  }

  lemma ParseOne(p: Parser, line: string)
    ensures ParseLines(p, [line]) == ParseLine(p, line)
  {
    assert [line][..0] == [];
    assert ParseLines(p, []) == p;
  }

  lemma ContentParses(p: Parser, f: File, line: string)
    requires p.current == Some(f) && f.inHunk && !f.binary && IsContent(line)
    ensures ParseLine(p, line) == Open(p, ContentLine(f, line))
  {
    assert line[0] != 'd';
  }

  lemma MarkerIgnored(p: Parser, f: File)
    requires p.current == Some(f) && !f.binary
    ensures ParseLine(p, NO_NEWLINE) == p
  {
    assert NO_NEWLINE[0] == '\\';
    NoHeaderPrefix(NO_NEWLINE);
    assert FileLine(f, NO_NEWLINE) == (f, []);
  }

  lemma BodyLineParses(p: Parser, f: File, l: BodyLine)
    requires p.current == Some(f) && f.inHunk && !f.binary && l.kind in {' ', '+', '-'}
    requires 0 <= f.oldRemaining && 0 <= f.newRemaining
    requires (l.kind == '+' || f.oldRemaining > 0) && (l.kind == '-' || f.newRemaining > 0)
    ensures ParseLines(p, BodyLineText(l)) == p.(current := Some(ContentLine(f, [l.kind] + l.text).0))
  {
    var line := [l.kind] + l.text;
    ContentParses(p, f, line);
    ParseOne(p, line);
    var q := ParseLine(p, line);
    assert line[1..] == l.text;
    assert ContentLine(f, line).1 == [] && p.errors + [] == p.errors;
    if l.unterminated {
      ParseLinesConcat(p, [line], [NO_NEWLINE]);
      ParseOne(q, NO_NEWLINE);
      MarkerIgnored(q, q.current.value);
    } else {
      assert BodyLineText(l) == [line];
    }
  }

  lemma {:induction false} NoneOwed(body: seq<BodyLine>)
    requires GoodBody(body)
    ensures Count(body, '+') == 0 && Count(body, '-') == 0 <==> body == []
  {
  }

  lemma GrowTexts(have: seq<string>, kind: char, body: seq<BodyLine>)
    requires body != []
    ensures have + Texts(kind, body)
            == (if body[0].kind == kind then have + [body[0].text] else have) + Texts(kind, body[1..])
    ensures body[1..] == [] ==> Texts(kind, body[1..]) == []
    ensures have + [] == have
  {
    GrowSeq(have, body[0].text, Texts(kind, body[1..]));
  }

  lemma GrowSeq(have: seq<string>, text: string, rest: seq<string>)
    ensures have + ([text] + rest) == have + [text] + rest && have + ([] + rest) == have + rest && have + [] == have
  {
  }

  lemma StepOwes(f: File, body: seq<BodyLine>, g: File)
    requires GoodBody(body) && body != [] && Owes(f, body)
    requires g == ContentLine(f, [body[0].kind] + body[0].text).0
    ensures if body[1..] == [] then g.oldRemaining == 0 && g.newRemaining == 0 && !g.inHunk else Owes(g, body[1..])
  {
    assert body[0].kind in {' ', '+', '-'};
    NoneOwed(body[1..]);
  }

  /** Reading the first owed line leaves a file that owes the rest and ends up the same. */
  lemma BodyStep(f: File, body: seq<BodyLine>, g: File)
    requires GoodBody(body) && body != [] && Owes(f, body)
    requires g == ContentLine(f, [body[0].kind] + body[0].text).0
    ensures AfterBody(g, body[1..]) == AfterBody(f, body)
    ensures if body[1..] == [] then g == AfterBody(f, body) else Owes(g, body[1..])
  {
    StepOwes(f, body, g);
    GrowTexts(f.context, ' ', body);
    GrowTexts(f.added, '+', body);
    GrowTexts(f.removed, '-', body);
    assert body[0].kind in {' ', '+', '-'};
    hide Texts, Count;
    var line := [body[0].kind] + body[0].text;
    assert line[1..] == body[0].text;
  }

  lemma {:induction false} BodyParses(p: Parser, f: File, body: seq<BodyLine>)
    requires GoodBody(body) && body != [] && p.current == Some(f) && Owes(f, body)
    ensures ParseLines(p, BodyText(body)) == p.(current := Some(AfterBody(f, body)))
    decreases |body|
  {
    var l, rest := body[0], body[1..];
    BodyLineParses(p, f, l);
    ParseLinesConcat(p, BodyLineText(l), BodyText(rest));
    var g := ContentLine(f, [l.kind] + l.text).0;
    BodyStep(f, body, g);
    if rest != [] {
      BodyParses(p.(current := Some(g)), g, rest);
    }
  }

  // ----- hunks

  /** A file between hunks: headers read, counts settled. */
  ghost predicate Settled(f: File) {
    && !f.inHunk && !f.binary && f.oldRemaining == 0 && f.newRemaining == 0
    && f.oldHeaderSeen && f.newHeaderSeen
  }

  lemma PlainLine(p: Parser, f: File, line: string)
    requires p.current == Some(f) && line != "" && line[0] !in {'d', '-'}
    ensures ParseLine(p, line) == Open(p, FileLine(f, line))
  {
  }

  lemma AtLine(f: File, line: string)
    requires "@@" <= line && !f.inHunk && !f.binary
    ensures FileLine(f, line) == HunkLine(f, ParseHunk(line))
  {
    NoHeaderPrefix(line);
    NotPrefix("--- ", line);
    NotPrefix("+++ ", line);
  }

  lemma HunkLineAccepted(f: File, before: nat, after: nat)
    requires Settled(f)
    ensures HunkLine(f, Some((before, after)))
            == (f.(oldRemaining := before, newRemaining := after, hunkCount := f.hunkCount + 1, inHunk := true), [])
  {
  }

  lemma HunkHeaderStarts(h: HunkPatch)
    ensures "@@" <= HunkHeader(h)
  {
    assert HunkHeader(h)[0] == '@' && HunkHeader(h)[1] == '@';
  }

  lemma HunkHeaderParses(p: Parser, f: File, h: HunkPatch)
    requires p.current == Some(f) && Settled(f)
    ensures ParseLine(p, HunkHeader(h))
            == p.(current := Some(f.(oldRemaining := Count(h.body, '+'), newRemaining := Count(h.body, '-'),
                                     hunkCount := f.hunkCount + 1, inHunk := true)))
  {
    ParseHunkOf(h);
    HunkHeaderStarts(h);
    PlainLine(p, f, HunkHeader(h));
    AtLine(f, HunkHeader(h));
    HunkLineAccepted(f, Count(h.body, '+'), Count(h.body, '-'));
  }

  lemma HunkParses(p: Parser, f: File, h: HunkPatch)
    requires p.current == Some(f) && Settled(f) && GoodHunk(h)
    ensures ParseLines(p, HunkText(h)) == p.(current := Some(AfterBody(f.(hunkCount := f.hunkCount + 1), h.body)))
  {
    HunkHeaderParses(p, f, h);
    ParseOne(p, HunkHeader(h));
    var q := ParseLine(p, HunkHeader(h));
    ParseLinesConcat(p, [HunkHeader(h)], BodyText(h.body));
    BodyParses(q, q.current.value, h.body);
  }

  function AfterHunks(f: File, hunks: seq<HunkPatch>): File {
    f.(context := f.context + AllTexts(' ', hunks), added := f.added + AllTexts('+', hunks),
       removed := f.removed + AllTexts('-', hunks), hunkCount := f.hunkCount + |hunks|)
  }

  lemma HunksStep(f: File, hunks: seq<HunkPatch>)
    requires hunks != [] && Settled(f)
    ensures AfterHunks(AfterBody(f.(hunkCount := f.hunkCount + 1), hunks[0].body), hunks[1..]) == AfterHunks(f, hunks)
  {
    var g := AfterBody(f.(hunkCount := f.hunkCount + 1), hunks[0].body);
    assert g.context + AllTexts(' ', hunks[1..]) == f.context + AllTexts(' ', hunks);
    assert g.added + AllTexts('+', hunks[1..]) == f.added + AllTexts('+', hunks);
    assert g.removed + AllTexts('-', hunks[1..]) == f.removed + AllTexts('-', hunks);
  }

  lemma {:induction false} HunksParse(p: Parser, f: File, hunks: seq<HunkPatch>)
    requires p.current == Some(f) && Settled(f) && forall h :: h in hunks ==> GoodHunk(h)
    ensures ParseLines(p, HunksText(hunks)) == p.(current := Some(AfterHunks(f, hunks)))
    decreases |hunks|
  {
    if hunks == [] {
      assert AfterHunks(f, hunks) == f;
    } else {
      assert GoodHunk(hunks[0]);
      HunkParses(p, f, hunks[0]);
      ParseLinesConcat(p, HunkText(hunks[0]), HunksText(hunks[1..]));
      var g := AfterBody(f.(hunkCount := f.hunkCount + 1), hunks[0].body);
      HunksParse(p.(current := Some(g)), g, hunks[1..]);
      HunksStep(f, hunks);
    }
  }

  // ----- headers

  lemma HeaderPathOf(side: string, path: Option<string>)
    requires side == "a/" || side == "b/"
    ensures HeaderPath(PathText(side, path)) == path
  {
    if path.Some? {
      var text := side + path.value;
      assert text[0] == side[0] && text[2..] == path.value;
    }
  }

  lemma GitFields(git: GitHeader)
    requires ' ' !in git.oldPath && ' ' !in git.newPath
    ensures SplitSpaces(GitLine(git), "") == ["diff", "--git", "a/" + git.oldPath, "b/" + git.newPath]
  {
    var a, b := "a/" + git.oldPath, "b/" + git.newPath;
    var tail := a + " " + b;
    SplitField(b, "", "");
    SplitField(a, "", b);
    assert SplitSpaces(tail, "") == [a] + [b] by {
      assert "" + a == a && "" + b == b;
    }
    SplitField("--git", "", tail);
    SplitField("diff", "", "--git" + " " + tail);
    assert "" + "diff" == "diff" && "" + "--git" == "--git";
  }

  lemma GitLineParses(git: GitHeader)
    requires ' ' !in git.oldPath && ' ' !in git.newPath
    ensures "diff --git " <= GitLine(git)
    ensures GitFile(GitLine(git)) == (BLANK_FILE.(gitOld := Some(git.oldPath), gitNew := Some(git.newPath)), [])
  {
    GitFields(git);
    var a, b := "a/" + git.oldPath, "b/" + git.newPath;
    assert a[2..] == git.oldPath && b[2..] == git.newPath;
    assert GitLine(git) == "diff --git " + (a + " " + b);
  }

  lemma MetadataLineParses(p: Parser, f: File, line: string)
    requires p.current == Some(f) && f.hunkCount == 0 && !f.inHunk && !f.binary && IsMetadata(line)
    ensures ParseLine(p, line) == p.(current := Some(f.(symlinkMode := f.symlinkMode || Contains(line, "120000"))))
  {
    assert line[0] in {'i', 'n', 'd', 'o'};
    assert !("diff --git " <= line) by {
      assert line[0] == 'd' ==> line[1] == 'e';
    }
  }

  lemma {:induction false} MetadataParses(p: Parser, f: File, lines: seq<string>)
    requires p.current == Some(f) && f.hunkCount == 0 && !f.inHunk && !f.binary
    requires forall m :: m in lines ==> IsMetadata(m)
    ensures ParseLines(p, lines)
            == p.(current := Some(f.(symlinkMode := f.symlinkMode || exists m :: m in lines && Contains(m, "120000"))))
  {
    hide IsMetadata, ParseLine, Contains;
    if lines != [] {
      var n := |lines| - 1;
      MetadataParses(p, f, lines[..n]);
      var q := ParseLines(p, lines[..n]);
      MetadataLineParses(q, q.current.value, lines[n]);
      assert lines == lines[..n] + [lines[n]];
    }
  }

  /** The previous file, if any, can be closed by the next header. */
  ghost predicate Closable(p: Parser) {
    p.current.Some? ==> Settled(p.current.value) && p.current.value.hunkCount > 0
  }

  function GitStart(f: FilePatch): File {
    if f.git.None? then BLANK_FILE
    else BLANK_FILE.(gitOld := Some(f.git.value.oldPath), gitNew := Some(f.git.value.newPath),
                     symlinkMode := exists m :: m in f.git.value.metadata && Contains(m, "120000"))
  }

  lemma GitParses(p: Parser, f: FilePatch)
    requires GoodFile(f) && f.git.Some?
    ensures ParseLines(p, GitText(f.git)) == Open(Finish(p), (GitStart(f), []))
  {
    var git := f.git.value;
    var line := GitLine(git);
    GitLineParses(git);
    ParseOne(p, line);
    ParseLinesConcat(p, [line], git.metadata);
    var q := ParseLine(p, line);
    MetadataParses(q, q.current.value, git.metadata);
  }

  function WithPaths(f: FilePatch): File {
    GitStart(f).(oldPath := f.oldPath, newPath := f.newPath, oldHeaderSeen := true, newHeaderSeen := true)
  }

  lemma OldHeaderParses(p: Parser, f: FilePatch)
    requires if f.git.Some? then p.current == Some(GitStart(f)) else Closable(p)
    ensures var q := if f.git.Some? then p else Finish(p);
            ParseLine(p, PathsText(f)[0])
            == Parser(q.files, Some(GitStart(f).(oldPath := f.oldPath, oldHeaderSeen := true)), q.errors)
  {
    var line := PathsText(f)[0];
    NoHeaderPrefix(line);
    hide IsMetadata, IsRename, ParseHunk, HunkLine, FinishErrors;
    assert line[0] == '-' && line[4..] == PathText("a/", f.oldPath);
    HeaderPathOf("a/", f.oldPath);
    var start := GitStart(f);
    assert FileLine(start, line) == (start.(oldPath := f.oldPath, oldHeaderSeen := true), []);
  }

  lemma NewHeaderParses(p: Parser, f: FilePatch)
    requires p.current == Some(GitStart(f).(oldPath := f.oldPath, oldHeaderSeen := true))
    ensures ParseLine(p, PathsText(f)[1]) == p.(current := Some(WithPaths(f)))
  {
    var line := PathsText(f)[1];
    NoHeaderPrefix(line);
    hide IsMetadata, IsRename, ParseHunk, HunkLine, FinishErrors;
    assert line[0] == '+' && line[4..] == PathText("b/", f.newPath);
    HeaderPathOf("b/", f.newPath);
    var start := p.current.value;
    assert FileLine(start, line) == (WithPaths(f), []);
  }

  lemma PathsParse(p: Parser, f: FilePatch)
    requires if f.git.Some? then p.current == Some(GitStart(f)) else Closable(p)
    ensures var q := if f.git.Some? then p else Finish(p);
            ParseLines(p, PathsText(f)) == Parser(q.files, Some(WithPaths(f)), q.errors)
  {
    var lines := PathsText(f);
    OldHeaderParses(p, f);
    ParseOne(p, lines[0]);
    var q := ParseLine(p, lines[0]);
    NewHeaderParses(q, f);
    ParseOne(q, lines[1]);
    ParseLinesConcat(p, [lines[0]], [lines[1]]);
    assert lines == [lines[0]] + [lines[1]];
  }

  // ----- files

  lemma NoGitParses(p: Parser)
    ensures ParseLines(p, GitText(None)) == p
  {
  }

  lemma FileParses(p: Parser, f: FilePatch)
    requires GoodFile(f) && Closable(p)
    ensures ParseLines(p, FileText(f)) == Parser(Finish(p).files, Some(Expected(f)), Finish(p).errors)
  {
    hide ParseLines, ParseLine, Finish, FinishErrors, GitText, PathsText, HunksText, AllTexts, Distinct;
    var q := p;
    if f.git.Some? {
      GitParses(p, f);
      q := Open(Finish(p), (GitStart(f), []));
      assert q.errors == Finish(p).errors;
    } else {
      NoGitParses(p);
    }
    assert ParseLines(p, GitText(f.git)) == q;
    ParseLinesConcat(p, GitText(f.git), PathsText(f) + HunksText(f.hunks));
    PathsParse(q, f);
    ParseLinesConcat(q, PathsText(f), HunksText(f.hunks));
    var r := Parser(Finish(p).files, Some(WithPaths(f)), Finish(p).errors);
    HunksParse(r, WithPaths(f), f.hunks);
    assert AfterHunks(WithPaths(f), f.hunks) == Expected(f);
  }

  lemma ExpectedFinishes(f: FilePatch)
    requires GoodFile(f)
    ensures FinishErrors(Expected(f)) == [] && Settled(Expected(f)) && Expected(f).hunkCount > 0
  {
  }

  lemma AppendFile(p: Parser, f: FilePatch, files: seq<FilePatch>)
    requires GoodFile(f) && Closable(p) && Finish(p) == Parser(ExpectedFiles(files), None, [])
    ensures var q := ParseLines(p, FileText(f));
            Finish(q) == Parser(ExpectedFiles(files + [f]), None, []) && Closable(q)
  {
    FileParses(p, f);
    ExpectedFinishes(f);
    assert ExpectedFiles(files + [f]) == ExpectedFiles(files) + [Expected(f)];
  }

  /** Reading the printed files leaves nothing unfinished but the last of them. */
  ghost predicate FilesRead(files: seq<FilePatch>) {
    var p := ParseLines(Parser([], None, []), FilesText(files));
    Finish(p) == Parser(ExpectedFiles(files), None, []) && Closable(p)
  }

  lemma FilesReadSnoc(before: seq<FilePatch>, f: FilePatch)
    requires GoodFile(f) && FilesRead(before)
    ensures FilesRead(before + [f])
  {
    hide GoodFile, ExpectedFiles, ParseLines, FileText, Finish, Closable;
    var p := ParseLines(Parser([], None, []), FilesText(before));
    assert (before + [f])[..|before|] == before;
    assert FilesText(before + [f]) == FilesText(before) + FileText(f);
    ParseLinesConcat(Parser([], None, []), FilesText(before), FileText(f));
    AppendFile(p, f, before);
  }

  lemma NoFilesRead()
    ensures FilesRead([])
  {
  }

  lemma {:induction false} FilesParse(files: seq<FilePatch>)
    requires forall f :: f in files ==> GoodFile(f)
    ensures FilesRead(files)
  {
    hide FilesRead, GoodFile;
    if files == [] {
      NoFilesRead();
    } else {
      var n := |files| - 1;
      assert files == files[..n] + [files[n]];
      FilesParse(files[..n]);
      FilesReadSnoc(files[..n], files[n]);
    }
  }

  // ----- text

  lemma {:induction false} DecimalOneLine(n: nat)
    ensures OneLine(Decimal(n))
  {
    assert forall i :: 0 <= i < |Decimal(n)| ==> IsDigit(Decimal(n)[i]);
  }

  lemma HunkHeaderOneLine(h: HunkPatch)
    requires OneLine(h.section)
    ensures OneLine(HunkHeader(h))
  {
    DecimalOneLine(h.oldStart);
    DecimalOneLine(h.newStart);
    DecimalOneLine(Count(h.body, '+'));
    DecimalOneLine(Count(h.body, '-'));
  }

  lemma {:induction false} BodyOneLine(body: seq<BodyLine>)
    requires GoodBody(body)
    ensures forall l :: l in BodyText(body) ==> OneLine(l)
  {
    if body != [] {
      BodyOneLine(body[1..]);
      assert OneLine([body[0].kind] + body[0].text);
    }
  }

  lemma {:induction false} HunksOneLine(hunks: seq<HunkPatch>)
    requires forall h :: h in hunks ==> GoodHunk(h)
    ensures forall l :: l in HunksText(hunks) ==> OneLine(l)
  {
    if hunks != [] {
      assert GoodHunk(hunks[0]);
      HunkHeaderOneLine(hunks[0]);
      BodyOneLine(hunks[0].body);
      HunksOneLine(hunks[1..]);
    }
  }

  lemma FileOneLine(f: FilePatch)
    requires GoodFile(f)
    ensures forall l :: l in FileText(f) ==> OneLine(l)
  {
    HunksOneLine(f.hunks);
  }

  lemma {:induction false} FilesOneLine(files: seq<FilePatch>)
    requires forall f :: f in files ==> GoodFile(f)
    ensures forall l :: l in FilesText(files) ==> OneLine(l)
    ensures files != [] ==> FilesText(files) != []
  {
    if files != [] {
      FilesOneLine(files[..|files| - 1]);
      FileOneLine(files[|files| - 1]);
    }
  }

  /** Printing any well-formed list of file patches and parsing it reports no error and the same files. */
  lemma ParseInvertsPrint(files: seq<FilePatch>)
    requires files != [] && forall f :: f in files ==> GoodFile(f)
    ensures Parsed(Print(files)) == Parser(ExpectedFiles(files), None, [])
  {
    FilesOneLine(files);
    SplitJoin(FilesText(files));
    JoinEndsLine(FilesText(files));
    FilesParse(files);
  }
}
