/** An error-free parse accounts for every line of the diff: where each line went, read off its own shape. */
module DiffLines {
  import opened Common
  import opened Text
  import opened DiffGrammar

  /** What a line is: the `diff --git` header, a path header, metadata, the notice that the file is binary, a hunk
      header, a line of a hunk, the marker after an unterminated line, or anything after a binary notice. */
  datatype Shape = Git | Old | New | Metadata | Notice | Hunk | Content | Marker | Skipped

  /** A line of the diff and the file it was counted for. */
  datatype Tagged = Tagged(line: string, file: nat, shape: Shape)

  // ----- line shapes

  /** `start` or `start,count` in decimal digits; the count is one when omitted. */
  ghost predicate IsRange(s: string, count: nat) {
    (s != "" && AllDigits(s) && count == 1) || exists start, digits :: IsCounted(s, start, digits, count)
  }

  predicate IsCounted(s: string, start: string, digits: string, count: nat) {
    s == start + "," + digits && start != "" && AllDigits(start) && digits != "" && AllDigits(digits)
    && NatOf(digits) == count
  }

  ghost predicate IsHunkHeader(line: string, before: nat, after: nat) {
    exists r, s, section :: JoinsHunk(line, r, s, section) && IsRange(r, before) && IsRange(s, after)
  }

  predicate JoinsHunk(line: string, r: string, s: string, section: string) {
    line == "@@ -" + r + " +" + s + " @@" + section
  }

  predicate IsGitHeader(line: string, before: string, after: string) {
    line == "diff --git a/" + before + " b/" + after && ' ' !in before && ' ' !in after
  }

  ghost predicate HasShape(line: string, shape: Shape) {
    match shape
    case Git => exists before, after :: IsGitHeader(line, before, after)
    case Old => "--- " <= line
    case New => "+++ " <= line
    case Metadata =>
      || "index " <= line || "new file mode " <= line || "deleted file mode " <= line
      || "old mode " <= line || "new mode " <= line
    case Notice => "GIT binary patch" <= line || "Binary files " <= line
    case Hunk =>
      ParseHunk(line).Some? && IsHunkHeader(line, ParseHunk(line).value.0, ParseHunk(line).value.1)
    case Content => line != "" && line[0] in {' ', '+', '-'}
    case Marker => line == "\\ No newline at end of file"
    case Skipped => !("diff --git " <= line)
  }

  lemma RangeParses(s: string)
    requires ParseRange(s).Some?
    ensures var (count, rest) := ParseRange(s).value;
            |rest| <= |s| && s == s[..|s| - |rest|] + rest && IsRange(s[..|s| - |rest|], count)
  {
    var k := DigitCount(s);
    var rest := s[k..];
    if "," <= rest && DigitCount(rest[1..]) > 0 {
      var m := DigitCount(rest[1..]);
      var digits := rest[1..][..m];
      assert s == s[..k] + "," + digits + rest[1..][m..];
      assert IsCounted(s[..k] + "," + digits, s[..k], digits, NatOf(digits));
      assert s[..|s| - |rest[1..][m..]|] == s[..k] + "," + digits;
    }
  }

  lemma Associates(a: string, b: string, c: string)
    ensures a + (b + c) == a + b + c
  {
  }

  lemma HunkPieces(r: string, s: string, section: string)
    ensures "@@ -" + (r + (" +" + (s + (" @@" + section)))) == "@@ -" + r + " +" + s + " @@" + section
  {
    var tail := " @@" + section;
    Associates("@@ -" + r + " +" + s, " @@", section);
    Associates("@@ -" + r + " +", s, tail);
    Associates("@@ -" + r, " +", s + tail);
    Associates("@@ -", r, " +" + (s + tail));
  }

  lemma HunkHeaderShape(line: string)
    requires ParseHunk(line).Some?
    ensures IsHunkHeader(line, ParseHunk(line).value.0, ParseHunk(line).value.1)
  {
    hide ParseRange, IsRange;
    var (m, middle) := ParseRange(line[4..]).value;
    RangeParses(line[4..]);
    var r := line[4..][..|line[4..]| - |middle|];
    var (n, tail) := ParseRange(middle[2..]).value;
    RangeParses(middle[2..]);
    var s := middle[2..][..|middle[2..]| - |tail|];
    assert middle == " +" + middle[2..] && tail == " @@" + tail[3..] && line == "@@ -" + line[4..];
    HunkPieces(r, s, tail[3..]);
    assert JoinsHunk(line, r, s, tail[3..]);
  }

  function JoinSpaces(pieces: seq<string>): string
    requires pieces != []
  {
    if |pieces| == 1 then pieces[0] else pieces[0] + " " + JoinSpaces(pieces[1..])
  }

  lemma {:induction false} SplitSpacesJoins(line: string, partial: string)
    requires ' ' !in partial
    ensures SplitSpaces(line, partial) != [] && JoinSpaces(SplitSpaces(line, partial)) == partial + line
    ensures forall piece :: piece in SplitSpaces(line, partial) ==> ' ' !in piece
    decreases |line|
  {
    if line != "" {
      if line[0] == ' ' {
        SplitSpacesJoins(line[1..], "");
        assert partial + line == partial + " " + ("" + line[1..]);
      } else {
        SplitSpacesJoins(line[1..], partial + [line[0]]);
        assert partial + [line[0]] + line[1..] == partial + line;
      }
    }
  }

  lemma JoinFour(a: string, b: string, c: string, d: string)
    ensures JoinSpaces([a, b, c, d]) == a + " " + (b + " " + (c + " " + d))
  {
    assert [a, b, c, d][1..] == [b, c, d] && [b, c, d][1..] == [c, d] && [c, d][1..] == [d];
    assert JoinSpaces([d]) == d;
    assert JoinSpaces([c, d]) == c + " " + d;
    assert JoinSpaces([b, c, d]) == b + " " + (c + " " + d);
  }

  lemma GitPieces(before: string, after: string)
    ensures "diff" + " " + ("--git" + " " + ("a/" + before + " " + ("b/" + after)))
            == "diff --git a/" + before + " b/" + after
  {
    var text := "a/" + before + " " + ("b/" + after);
    assert "diff" + " " + ("--git" + " " + text) == "diff --git " + text;
    Associates("diff --git ", "a/" + before + " ", "b/" + after);
    Associates("diff --git ", "a/" + before, " ");
    Associates("diff --git ", "a/", before);
    assert "diff --git " + "a/" == "diff --git a/";
    Associates("diff --git a/" + before + " ", "b/", after);
    Associates("diff --git a/" + before, " ", "b/");
    assert " " + "b/" == " b/";
  }

  lemma FirstPieces(line: string)
    requires "diff --git " <= line
    ensures SplitSpaces(line, "") == ["diff", "--git"] + SplitSpaces(line[11..], "")
  {
    var tail := line[11..];
    SplitField("--git", "", tail);
    SplitField("diff", "", "--git" + " " + tail);
    assert line == "diff" + " " + ("--git" + " " + tail);
    assert "" + "diff" == "diff" && "" + "--git" == "--git";
  }

  lemma GitHeaderShape(line: string)
    requires "diff --git " <= line && GoodGitHeader(SplitSpaces(line, ""))
    ensures var pieces := SplitSpaces(line, ""); IsGitHeader(line, pieces[2][2..], pieces[3][2..])
  {
    var pieces := SplitSpaces(line, "");
    FirstPieces(line);
    SplitSpacesJoins(line, "");
    hide SplitSpaces;
    var before, after := pieces[2][2..], pieces[3][2..];
    assert pieces[0] == "diff" && pieces[1] == "--git";
    assert pieces[2] == "a/" + before && pieces[3] == "b/" + after;
    assert pieces == ["diff", "--git", "a/" + before, "b/" + after];
    JoinFour("diff", "--git", "a/" + before, "b/" + after);
    assert "" + line == line;
    GitPieces(before, after);
    assert pieces[2] in pieces && pieces[3] in pieces;
  }

  // ----- what the tagged lines say about one file

  /** The contents of the hunk lines of one kind, in order, without the character that says the kind. */
  function Collected(ts: seq<Tagged>, file: nat, kind: char): seq<string> {
    if ts == [] then []
    else
      var t := ts[|ts| - 1];
      Collected(ts[..|ts| - 1], file, kind)
      + if t.file == file && t.shape == Content && t.line != "" && t.line[0] == kind then [t.line[1..]] else []
  }

  function Number(ts: seq<Tagged>, file: nat, shape: Shape): nat {
    if ts == [] then 0
    else
      Number(ts[..|ts| - 1], file, shape)
      + if ts[|ts| - 1].file == file && ts[|ts| - 1].shape == shape then 1 else 0
  }

  /** The old and new lines that the file's last hunk header declared and that have not come yet. */
  function Owed(ts: seq<Tagged>, file: nat): (int, int) {
    if ts == [] then (0, 0)
    else
      var t, before := ts[|ts| - 1], Owed(ts[..|ts| - 1], file);
      if t.file != file then before
      else if t.shape == Hunk && ParseHunk(t.line).Some? then ParseHunk(t.line).value
      else if t.shape == Content && t.line != "" then
        (if t.line[0] == '+' then before.0 else before.0 - 1, if t.line[0] == '-' then before.1 else before.1 - 1)
      else before
  }

  function LastPath(ts: seq<Tagged>, file: nat, shape: Shape): Option<string> {
    if ts == [] then None
    else
      var t := ts[|ts| - 1];
      if t.file == file && t.shape == shape && |t.line| >= 4 then HeaderPath(t.line[4..])
      else LastPath(ts[..|ts| - 1], file, shape)
  }

  predicate LinksMode(ts: seq<Tagged>, file: nat) {
    ts != []
    && (LinksMode(ts[..|ts| - 1], file)
        || (ts[|ts| - 1].file == file && ts[|ts| - 1].shape == Metadata && Contains(ts[|ts| - 1].line, "120000")))
  }

  /** Everything the lines say about one file but its git header. */
  datatype Account = Account(
    added: seq<string>, removed: seq<string>, context: seq<string>, owed: (int, int), hunks: nat, olds: nat,
    news: nat, notices: nat, linksMode: bool, oldPath: Option<string>, newPath: Option<string>)

  function AccountOf(ts: seq<Tagged>, file: nat): Account {
    Account(Collected(ts, file, '+'), Collected(ts, file, '-'), Collected(ts, file, ' '), Owed(ts, file),
            Number(ts, file, Hunk), Number(ts, file, Old), Number(ts, file, New), Number(ts, file, Notice),
            LinksMode(ts, file), LastPath(ts, file, Old), LastPath(ts, file, New))
  }

  /** The parsed file is what its lines say. */
  predicate Agrees(f: File, a: Account) {
    && f.added == a.added && f.removed == a.removed && f.context == a.context
    && (f.oldRemaining, f.newRemaining) == a.owed && f.hunkCount == a.hunks
    && (f.oldHeaderSeen <==> a.olds > 0) && (f.newHeaderSeen <==> a.news > 0) && (f.binary <==> a.notices > 0)
    && f.symlinkMode == a.linksMode && f.oldPath == a.oldPath && f.newPath == a.newPath
  }

  ghost predicate Describes(ts: seq<Tagged>, file: nat, f: File) {
    Agrees(f, AccountOf(ts, file)) && NamedBy(ts, file, f.gitOld, f.gitNew)
  }

  /** The names of the file's git header, if it has one. */
  ghost predicate NamedBy(ts: seq<Tagged>, file: nat, before: Option<string>, after: Option<string>) {
    && (Number(ts, file, Git) == 0 ==> before == None && after == None)
    && forall k :: 0 <= k < |ts| && ts[k].file == file && ts[k].shape == Git ==>
         before.Some? && after.Some? && IsGitHeader(ts[k].line, before.value, after.value)
  }

  /** A line has its shape and comes where that shape may: a file begins with one git header or old path header, the
      new path header follows the old one, a hunk header follows both and a complete hunk, a content line is owed to
      a hunk, and only a binary file skips lines. */
  ghost predicate Fits(before: seq<Tagged>, t: Tagged) {
    && HasShape(t.line, t.shape)
    && (if before == [] then t.file == 0
        else before[|before| - 1].file <= t.file <= before[|before| - 1].file + 1)
    && (before == [] || before[|before| - 1].file < t.file ==> t.shape in {Git, Old})
    && MayCome(AccountOf(before, t.file), t)
    && (t.shape == Git ==> before == [] || before[|before| - 1].file < t.file)
  }

  predicate MayCome(a: Account, t: Tagged) {
    match t.shape
    case Old => a.hunks == 0
    case New => a.olds > 0
    case Hunk => a.olds > 0 && a.news > 0 && a.owed == (0, 0)
    case Content =>
      t.line != "" && a.hunks > 0 && (t.line[0] == '+' || a.owed.0 > 0) && (t.line[0] == '-' || a.owed.1 > 0)
    case Skipped => a.notices > 0
    case _ => true
  }

  /** A closed file: its hunks are complete, both path headers came and name what the git header names. */
  ghost predicate Whole(ts: seq<Tagged>, file: nat, f: File) {
    && Describes(ts, file, f) && Owed(ts, file) == (0, 0)
    && f.oldHeaderSeen && f.newHeaderSeen && (f.oldPath.Some? || f.newPath.Some?) && (f.hunkCount > 0 || f.binary)
    && (Truthy(f.gitOld) && Truthy(f.oldPath) ==> f.gitOld == f.oldPath)
    && (Truthy(f.gitNew) && Truthy(f.newPath) ==> f.gitNew == f.newPath)
  }

  function Lines(ts: seq<Tagged>): seq<string> {
    seq(|ts|, k requires 0 <= k < |ts| => ts[k].line)
  }

  ghost predicate AllFit(ts: seq<Tagged>) {
    forall k :: 0 <= k < |ts| ==> Fits(ts[..k], ts[k])
  }

  /** Every line of the diff is accounted for, and the files are exactly what the lines say. */
  ghost predicate Accounts(diff: string, ts: seq<Tagged>, files: seq<File>) {
    && diff == JoinLines(Lines(ts)) && (forall l :: l in Lines(ts) ==> OneLine(l)) && AllFit(ts)
    && (forall k :: 0 <= k < |ts| ==> ts[k].file < |files|)
    && forall i :: 0 <= i < |files| ==> Whole(ts, i, files[i])
  }

  // ----- one line

  function ShapeIn(f: File, line: string): Shape {
    if f.binary then Skipped
    else if f.inHunk && IsContent(line) then Content
    else if "GIT binary patch" <= line || "Binary files " <= line then Notice
    else if IsMetadata(line) then Metadata
    else if "--- " <= line then Old
    else if "+++ " <= line then New
    else if "@@" <= line then Hunk
    else Marker
  }

  lemma Snoc(ts: seq<Tagged>, t: Tagged)
    ensures (ts + [t])[..|ts + [t]| - 1] == ts && (ts + [t])[|ts|] == t
  {
  }

  /** A line of another file says nothing about this one. */
  lemma OtherFile(ts: seq<Tagged>, t: Tagged, file: nat, f: File)
    requires t.file != file && Describes(ts, file, f)
    ensures Describes(ts + [t], file, f)
  {
    Snoc(ts, t);
  }

  lemma {:induction false} Untouched(ts: seq<Tagged>, file: nat)
    requires forall k :: 0 <= k < |ts| ==> ts[k].file != file
    ensures Describes(ts, file, BLANK_FILE)
  {
    if ts != [] {
      Untouched(ts[..|ts| - 1], file);
      assert ts == ts[..|ts| - 1] + [ts[|ts| - 1]];
    }
  }

  /** The open file `file` is `f` so far, and its lines come last. */
  ghost predicate Opened(ts: seq<Tagged>, file: nat, f: File) {
    Describes(ts, file, f) && (f.inHunk ==> f.hunkCount > 0) && ts != [] && ts[|ts| - 1].file == file
  }

  /** This line of the open file fits, and the file it leaves is what the lines say. */
  ghost predicate Carries(ts: seq<Tagged>, file: nat, f: File, line: string) {
    var t := Tagged(line, file, ShapeIn(f, line));
    Fits(ts, t) && Opened(ts + [t], file, FileLine(f, line).0)
  }

  /** What one more line of the file adds to the account. */
  function Add(a: Account, t: Tagged): Account {
    var text := if t.line == "" then "" else t.line[1..];
    match t.shape
    case Content =>
      if t.line == "" then a
      else a.(added := if t.line[0] == '+' then a.added + [text] else a.added,
              removed := if t.line[0] == '-' then a.removed + [text] else a.removed,
              context := if t.line[0] == ' ' then a.context + [text] else a.context,
              owed := (if t.line[0] == '+' then a.owed.0 else a.owed.0 - 1,
                       if t.line[0] == '-' then a.owed.1 else a.owed.1 - 1))
    case Hunk => a.(hunks := a.hunks + 1,
                    owed := if ParseHunk(t.line).Some? then ParseHunk(t.line).value else a.owed)
    case Old => a.(olds := a.olds + 1, oldPath := if |t.line| >= 4 then HeaderPath(t.line[4..]) else a.oldPath)
    case New => a.(news := a.news + 1, newPath := if |t.line| >= 4 then HeaderPath(t.line[4..]) else a.newPath)
    case Notice => a.(notices := a.notices + 1)
    case Metadata => a.(linksMode := a.linksMode || Contains(t.line, "120000"))
    case _ => a
  }

  lemma AccountSnoc(ts: seq<Tagged>, t: Tagged)
    ensures AccountOf(ts + [t], t.file) == Add(AccountOf(ts, t.file), t)
    ensures (ts + [t])[|ts|] == t
  {
    Snoc(ts, t);
    hide HeaderPath, Contains, ParseHunk;
  }

  /** What the line does to the shapes and counters that the tagged lines are about. */
  lemma ShapeOfLine(f: File, line: string)
    requires FileLine(f, line).1 == [] && !("diff --git " <= line)
    ensures HasShape(line, ShapeIn(f, line))
    ensures ShapeIn(f, line) in {Content, Hunk, Old, New} ==> line != ""
  {
    hide HeaderPath, Contains, ParseHunk, IsHunkHeader, ContentLine, PathLine, HunkLine;
    if ShapeIn(f, line) == Hunk {
      HunkIsParsed(f, line);
      HunkHeaderShape(line);
    }
  }

  lemma HunkIsParsed(f: File, line: string)
    requires FileLine(f, line).1 == [] && ShapeIn(f, line) == Hunk
    ensures ParseHunk(line).Some? && line != ""
  {
    hide ParseHunk;
  }

  lemma StaysNamed(ts: seq<Tagged>, t: Tagged, before: Option<string>, after: Option<string>)
    requires NamedBy(ts, t.file, before, after) && t.shape != Git
    ensures NamedBy(ts + [t], t.file, before, after)
  {
    Snoc(ts, t);
  }

  /** An open file between two lines: inside a hunk something is counted down that was declared. */
  predicate Sane(f: File) {
    f.inHunk ==> f.hunkCount > 0
  }

  /** This line may come, and the file it leaves is what the lines say with it. */
  predicate Advances(f: File, a: Account, line: string) {
    var t, g := Tagged(line, 0, ShapeIn(f, line)), FileLine(f, line).0;
    MayCome(a, t) && Agrees(g, Add(a, t)) && Sane(g) && g.gitOld == f.gitOld && g.gitNew == f.gitNew
  }

  lemma ContentAdvances(f: File, a: Account, line: string)
    requires Agrees(f, a) && Sane(f) && FileLine(f, line).1 == [] && !f.binary && f.inHunk && IsContent(line)
    ensures Advances(f, a, line)
  {
    assert FileLine(f, line) == ContentLine(f, line);
    hide FileLine;
  }

  lemma HunkLineAgrees(f: File, a: Account, line: string)
    requires Agrees(f, a) && HunkLine(f, ParseHunk(line)).1 == []
    ensures var t, g := Tagged(line, 0, Hunk), HunkLine(f, ParseHunk(line)).0;
            && MayCome(a, t) && Agrees(g, Add(a, t)) && Sane(g) && g.gitOld == f.gitOld && g.gitNew == f.gitNew
  {
    hide ParseHunk;
  }

  lemma HunkAdvances(f: File, a: Account, line: string)
    requires Agrees(f, a) && FileLine(f, line).1 == [] && ShapeIn(f, line) == Hunk && !IsRename(line)
    ensures Advances(f, a, line)
  {
    assert FileLine(f, line) == HunkLine(f, ParseHunk(line));
    hide FileLine, IsMetadata, IsRename, ParseHunk, HunkLine, Add, Agrees, MayCome;
    HunkLineAgrees(f, a, line);
  }

  lemma PathAdvances(f: File, a: Account, line: string)
    requires Agrees(f, a) && Sane(f) && FileLine(f, line).1 == [] && !f.binary
    requires ("--- " <= line && !f.inHunk && f.hunkCount == 0) || ("+++ " <= line && !f.inHunk)
    ensures Advances(f, a, line)
  {
    assert line[0] in {'-', '+'};
    assert FileLine(f, line) == PathLine(f, line);
    hide FileLine, HeaderPath, ParseHunk, Contains;
  }

  lemma OtherAdvances(f: File, a: Account, line: string)
    requires Agrees(f, a) && Sane(f) && FileLine(f, line).1 == []
    requires ShapeIn(f, line) in {Metadata, Notice, Marker, Skipped}
    ensures Advances(f, a, line)
  {
    hide HeaderPath, Contains, ParseHunk;
  }

  lemma LineAdvances(f: File, a: Account, line: string)
    requires Agrees(f, a) && Sane(f) && FileLine(f, line).1 == [] && !StartsNextFile(f, line)
    ensures Advances(f, a, line)
  {
    var shape := ShapeIn(f, line);
    if shape == Content {
      ContentAdvances(f, a, line);
    } else if shape == Hunk {
      HunkAdvances(f, a, line);
    } else if shape in {Old, New} {
      PathAdvances(f, a, line);
    } else {
      OtherAdvances(f, a, line);
    }
  }

  // ----- the whole diff

  /** The tag of the parser's next line. */
  function Tag(p: Parser, line: string): Tagged {
    if "diff --git " <= line then Tagged(line, |Finish(p).files|, Git)
    else if p.current.None? then Tagged(line, |p.files|, Old)
    else if StartsNextFile(p.current.value, line) then Tagged(line, |p.files| + 1, Old)
    else Tagged(line, |p.files|, ShapeIn(p.current.value, line))
  }

  /** Without errors so far, the tagged lines account for what the parser has read. */
  ghost predicate Tracks(ts: seq<Tagged>, p: Parser) {
    && AllFit(ts)
    && (forall i :: 0 <= i < |p.files| ==> Whole(ts, i, p.files[i]))
    && (p.current.None? ==> ts == [] && p.files == [])
    && (p.current.Some? ==>
          Describes(ts, |p.files|, p.current.value) && Sane(p.current.value)
          && ts != [] && ts[|ts| - 1].file == |p.files|)
  }

  lemma {:induction false} NoLaterFile(ts: seq<Tagged>, k: nat)
    requires AllFit(ts) && k < |ts|
    ensures ts[k].file <= ts[|ts| - 1].file
    decreases |ts| - k
  {
    if k < |ts| - 1 {
      NoLaterFile(ts, k + 1);
      assert Fits(ts[..k + 1], ts[k + 1]);
      assert ts[..k + 1][|ts[..k + 1]| - 1] == ts[k];
    }
  }

  lemma FitsSnoc(ts: seq<Tagged>, t: Tagged)
    requires AllFit(ts) && Fits(ts, t)
    ensures AllFit(ts + [t])
  {
    hide Fits;
    forall k | 0 <= k < |ts + [t]| ensures Fits((ts + [t])[..k], (ts + [t])[k]) {
      if k < |ts| {
        assert (ts + [t])[..k] == ts[..k];
      } else {
        assert (ts + [t])[..k] == ts;
      }
    }
  }

  lemma OtherWhole(ts: seq<Tagged>, t: Tagged, files: seq<File>)
    requires (forall i :: 0 <= i < |files| ==> Whole(ts, i, files[i])) && t.file >= |files|
    ensures forall i :: 0 <= i < |files| ==> Whole(ts + [t], i, files[i])
  {
    hide AccountOf, Agrees;
    forall i | 0 <= i < |files| ensures Whole(ts + [t], i, files[i]) {
      OtherFile(ts, t, i, files[i]);
    }
  }

  /** The next file may begin: the files before it are whole and it has no lines yet. */
  ghost predicate Ready(ts: seq<Tagged>, files: seq<File>) {
    && AllFit(ts)
    && (forall i :: 0 <= i < |files| ==> Whole(ts, i, files[i]))
    && (if ts == [] then files == [] else ts[|ts| - 1].file == |files| - 1)
  }

  lemma NothingYet(ts: seq<Tagged>, files: seq<File>)
    requires Ready(ts, files)
    ensures Describes(ts, |files|, BLANK_FILE)
  {
    hide Fits, Whole;
    forall k | 0 <= k < |ts| ensures ts[k].file != |files| {
      NoLaterFile(ts, k);
    }
    Untouched(ts, |files|);
  }

  lemma GitBegins(ts: seq<Tagged>, files: seq<File>, line: string)
    requires Ready(ts, files) && "diff --git " <= line && GitFile(line).1 == []
    ensures var t := Tagged(line, |files|, Git);
            && AllFit(ts + [t]) && (forall i :: 0 <= i < |files| ==> Whole(ts + [t], i, files[i]))
            && Describes(ts + [t], |files|, GitFile(line).0)
  {
    var t, f := Tagged(line, |files|, Git), GitFile(line).0;
    GitHeaderShape(line);
    NothingYet(ts, files);
    hide AllFit, Whole, AccountOf, Collected, Number, SplitSpaces;
    assert HasShape(line, Git) by { assert IsGitHeader(line, f.gitOld.value, f.gitNew.value); }
    assert Fits(ts, t);
    FitsSnoc(ts, t);
    OtherWhole(ts, t, files);
    AccountSnoc(ts, t);
    GitNames(ts, t, BLANK_FILE, f.gitOld.value, f.gitNew.value);
  }

  lemma GitNames(ts: seq<Tagged>, t: Tagged, f: File, before: string, after: string)
    requires NamedBy(ts, t.file, None, None) && t.shape == Git && IsGitHeader(t.line, before, after)
    ensures NamedBy(ts + [t], t.file, Some(before), Some(after))
  {
    Snoc(ts, t);
    hide IsGitHeader;
  }

  lemma KeepsNames(ts: seq<Tagged>, t: Tagged, before: Option<string>, after: Option<string>)
    requires NamedBy(ts, t.file, before, after) && t.shape != Git
    ensures NamedBy(ts + [t], t.file, before, after)
  {
    Snoc(ts, t);
    hide IsGitHeader;
  }

  lemma PathBegins(ts: seq<Tagged>, files: seq<File>, line: string)
    requires Ready(ts, files) && "--- " <= line
    ensures var t := Tagged(line, |files|, Old);
            && AllFit(ts + [t]) && (forall i :: 0 <= i < |files| ==> Whole(ts + [t], i, files[i]))
            && Describes(ts + [t], |files|, FileLine(BLANK_FILE, line).0) && Sane(FileLine(BLANK_FILE, line).0)
  {
    var t, f := Tagged(line, |files|, Old), FileLine(BLANK_FILE, line).0;
    NothingYet(ts, files);
    BlankPath(line);
    var a := AccountOf(ts, |files|);
    PathAdvances(BLANK_FILE, a, line);
    hide AllFit, Whole, AccountOf;
    assert Fits(ts, t);
    FitsSnoc(ts, t);
    OtherWhole(ts, t, files);
    AccountSnoc(ts, t);
    KeepsNames(ts, t, None, None);
  }

  lemma BlankPath(line: string)
    requires "--- " <= line
    ensures FileLine(BLANK_FILE, line) == PathLine(BLANK_FILE, line) && ShapeIn(BLANK_FILE, line) == Old
  {
    assert line[0] == '-';
  }

  lemma FinishedIsWhole(ts: seq<Tagged>, file: nat, f: File)
    requires Describes(ts, file, f) && FinishErrors(f) == []
    ensures Whole(ts, file, f)
  {
    hide NamedBy;
  }

  lemma CloseReadies(ts: seq<Tagged>, p: Parser)
    requires Tracks(ts, p) && Finish(p).errors == []
    ensures Ready(ts, Finish(p).files)
  {
    hide AllFit, Whole, Describes, FinishErrors;
    if p.current.Some? {
      FinishedIsWhole(ts, |p.files|, p.current.value);
    }
  }

  /** The line fits, and the file it leaves is what the lines say. */
  lemma LineFits(ts: seq<Tagged>, n: nat, f: File, line: string)
    requires Describes(ts, n, f) && Sane(f) && ts != [] && ts[|ts| - 1].file == n && FileLine(f, line).1 == []
    requires !("diff --git " <= line) && !StartsNextFile(f, line)
    ensures var t, g := Tagged(line, n, ShapeIn(f, line)), FileLine(f, line).0;
            Fits(ts, t) && Describes(ts + [t], n, g) && Sane(g)
  {
    hide FileLine, ShapeIn, HasShape, AccountOf, Agrees, NamedBy, Add, MayCome, Sane;
    var t, a := Tagged(line, n, ShapeIn(f, line)), AccountOf(ts, n);
    FileAdvances(f, a, line, n);
    ShapeOfLine(f, line);
    NotGit(f, line);
    AccountSnoc(ts, t);
    KeepsNames(ts, t, f.gitOld, f.gitNew);
  }

  lemma FileAdvances(f: File, a: Account, line: string, n: nat)
    requires Agrees(f, a) && Sane(f) && FileLine(f, line).1 == [] && !StartsNextFile(f, line)
    ensures var t, g := Tagged(line, n, ShapeIn(f, line)), FileLine(f, line).0;
            MayCome(a, t) && Agrees(g, Add(a, t)) && Sane(g) && g.gitOld == f.gitOld && g.gitNew == f.gitNew
  {
    hide FileLine, ShapeIn, Agrees, Sane, StartsNextFile, ParseHunk, HeaderPath, Contains;
    LineAdvances(f, a, line);
  }

  lemma LineTracks(ts: seq<Tagged>, p: Parser, line: string)
    requires Tracks(ts, p) && p.current.Some? && FileLine(p.current.value, line).1 == []
    requires !("diff --git " <= line) && !StartsNextFile(p.current.value, line)
    ensures Tracks(ts + [Tag(p, line)], Open(p, FileLine(p.current.value, line)))
  {
    hide FileLine, ShapeIn, Fits, AllFit, Whole, Describes, Sane, StartsNextFile;
    var f, t := p.current.value, Tag(p, line);
    LineFits(ts, |p.files|, f, line);
    FitsSnoc(ts, t);
    OtherWhole(ts, t, p.files);
  }

  lemma NotGit(f: File, line: string)
    ensures ShapeIn(f, line) != Git
  {
  }

  lemma StepTracks(ts: seq<Tagged>, p: Parser, line: string)
    requires Tracks(ts, p) && p.errors == [] && ParseLine(p, line).errors == []
    ensures Tracks(ts + [Tag(p, line)], ParseLine(p, line))
  {
    hide Fits, Whole, Describes, FileLine, GitFile, AllFit, Sane;
    if "diff --git " <= line {
      CloseReadies(ts, p);
      GitBegins(ts, Finish(p).files, line);
      GitIsSane(line);
    } else if p.current.None? {
      CloseReadies(ts, p);
      PathBegins(ts, p.files, line);
    } else if StartsNextFile(p.current.value, line) {
      CloseReadies(ts, p);
      PathBegins(ts, Finish(p).files, line);
    } else {
      LineTracks(ts, p, line);
    }
  }

  lemma GitIsSane(line: string)
    ensures Sane(GitFile(line).0)
  {
  }

  function Tags(p: Parser, lines: seq<string>): seq<Tagged> {
    if lines == [] then []
    else
      var n := |lines| - 1;
      Tags(p, lines[..n]) + [Tag(ParseLines(p, lines[..n]), lines[n])]
  }

  lemma {:induction false} LinesTrack(lines: seq<string>)
    requires ParseLines(Parser([], None, []), lines).errors == []
    ensures var p := Parser([], None, []);
            Tracks(Tags(p, lines), ParseLines(p, lines)) && Lines(Tags(p, lines)) == lines
  {
    hide Tracks, Tag, ParseLine;
    var p := Parser([], None, []);
    if lines == [] {
      NothingTracks();
    } else {
      var n := |lines| - 1;
      var q := ParseLines(p, lines[..n]);
      assert q.errors == [] by { StepErrors(q, lines[n]); }
      LinesTrack(lines[..n]);
      StepTracks(Tags(p, lines[..n]), q, lines[n]);
      assert Tag(q, lines[n]).line == lines[n] by { TagLine(q, lines[n]); }
      assert lines == lines[..n] + [lines[n]];
    }
  }

  lemma NothingTracks()
    ensures Tracks([], Parser([], None, []))
  {
  }

  lemma TagLine(p: Parser, line: string)
    ensures Tag(p, line).line == line
  {
  }

  lemma StepErrors(p: Parser, line: string)
    requires ParseLine(p, line).errors == []
    ensures p.errors == []
  {
  }

  lemma ReadyAccounts(diff: string, ts: seq<Tagged>, files: seq<File>)
    requires Ready(ts, files) && Lines(ts) == SplitLines(diff, "") && diff != "" && diff[|diff| - 1] == '\n'
    ensures Accounts(diff, ts, files)
  {
    hide Fits, Whole;
    JoinSplit(diff, "");
    assert "" + diff == diff;
    forall k | 0 <= k < |ts| ensures ts[k].file < |files| {
      NoLaterFile(ts, k);
    }
  }

  lemma ErrorFree(diff: string)
    requires Parsed(diff).errors == []
    ensures var p := ParseLines(Parser([], None, []), SplitLines(diff, ""));
            p.errors == [] && Finish(p).errors == [] && Finish(p).files == Parsed(diff).files != []
    ensures FirstErrors(diff) == []
  {
    var lines := SplitLines(diff, "");
    ErrorsOnlyGrow(Parser([], None, FirstErrors(diff)), lines);
    hide FirstErrors, ParseLines, FinishErrors, SplitLines;
  }

  lemma EndsItsLastLine(diff: string)
    requires FirstErrors(diff) == []
    ensures diff != "" && diff[|diff| - 1] == '\n'
  {
  }

  /** An error-free parse accounts for every line of the diff, outside binary files one by one: each is collected, in
      order, in exactly one list of its file, or is a git header, metadata, a path header, a hunk header or the marker,
      where such a line may come; and the files are exactly what their lines say. */
  lemma ErrorFreeParseAccountsForLines(diff: string)
    requires Parsed(diff).errors == []
    ensures diff != "" && Parsed(diff).files != [] && exists ts :: Accounts(diff, ts, Parsed(diff).files)
  {
    var lines, start := SplitLines(diff, ""), Parser([], None, []);
    ErrorFree(diff);
    EndsItsLastLine(diff);
    hide FirstErrors, SplitLines, ParseLines, Parsed, Tracks, Accounts, Finish, Ready, Tags;
    LinesTrack(lines);
    CloseReadies(Tags(start, lines), ParseLines(start, lines));
    ReadyAccounts(diff, Tags(start, lines), Parsed(diff).files);
  }
}
