/** Which definition owns each source line (`_index_symbols` and its helpers in
    `lou/repository/symbols.py`). */
module LineOwnership {
  import opened Symbols

  datatype Owner = ModuleOwner | DefinitionOwner(entry: Entry)

  predicate Covers(e: Entry, line: int) {
    e.start <= line <= e.end
  }

  predicate Inside(inner: Entry, outer: Entry) {
    outer.start <= inner.start && inner.end <= outer.end
  }

  predicate Disjoint(a: Entry, b: Entry) {
    a.end < b.start || b.end < a.start
  }

  // ----- properly nested intervals

  /** Definitions occupy consecutive line ranges in `lo <= line < hi`, each body inside its definition. */
  ghost predicate NodeIn(node: Node, lo: nat, hi: nat)
    decreases node, 0
  {
    match node
    case Plain(children) => NestedIn(children, lo, hi)
    case Definition(_, _, start, end, _, body, _) => lo <= start <= end < hi && NestedIn(body, start, end + 1)
  }

  ghost predicate NestedIn(nodes: seq<Node>, lo: nat, hi: nat)
    decreases nodes, 1
  {
    if nodes == [] then lo <= hi
    else exists mid: nat :: lo <= mid <= hi && NodeIn(nodes[0], lo, mid) && NestedIn(nodes[1..], mid, hi)
  }

  /** In walk order, a later interval lies inside an earlier one or apart from it. */
  ghost predicate Laminar(entries: seq<Entry>, lo: nat, hi: nat) {
    && (forall e :: e in entries ==> lo <= e.start <= e.end < hi)
    && forall i, j :: 0 <= i < j < |entries| ==> Inside(entries[j], entries[i]) || Disjoint(entries[i], entries[j])
  }

  lemma LaminarConcat(a: seq<Entry>, b: seq<Entry>, lo: nat, mid: nat, hi: nat)
    requires lo <= mid <= hi && Laminar(a, lo, mid) && Laminar(b, mid, hi)
    ensures Laminar(a + b, lo, hi)
  {
    var all := a + b;
    forall i, j | 0 <= i < j < |all| ensures Inside(all[j], all[i]) || Disjoint(all[i], all[j]) {
      if i < |a| <= j {
        assert a[i] in a && b[j - |a|] in b;
      }
    }
  }

  lemma LaminarUnder(entry: Entry, inner: seq<Entry>, lo: nat, hi: nat)
    requires lo <= entry.start <= entry.end < hi && Laminar(inner, entry.start, entry.end + 1)
    ensures Laminar([entry] + inner, lo, hi)
  {
    var all := [entry] + inner;
    forall i, j | 0 <= i < j < |all| ensures Inside(all[j], all[i]) || Disjoint(all[i], all[j]) {
      if i == 0 {
        assert all[j] in inner;
      }
    }
  }

  lemma {:induction false} NodeLaminar(node: Node, scope: string, inClass: bool, counts: Counts, lo: nat, hi: nat)
    requires GoodTree(node) && NodeIn(node, lo, hi)
    ensures Laminar(WalkNode(node, scope, inClass, counts).entries, lo, hi)
    decreases node, 0
  {
    hide Laminar, RawKey, KeyOf, CountOf;
    match node {
      case Plain(children) => WalkLaminar(children, scope, inClass, counts, lo, hi);
      case Definition(name, isClass, start, end, before, body, after) =>
        var entry := EntryFor(RawKey(scope, name), node, inClass, counts);
        var next := counts[entry.raw := entry.ordinal];
        NothingToFind(before, entry.Key(), isClass, next);
        WalkLaminar(body, entry.Key(), isClass, next, start, end + 1);
        var w := Walk(body, entry.Key(), isClass, next);
        NothingToFind(after, entry.Key(), isClass, w.counts);
        LaminarUnder(entry, w.entries, lo, hi);
        assert WalkNode(node, scope, inClass, counts).entries == [entry] + w.entries;
    }
  }

  lemma {:induction false} WalkLaminar(nodes: seq<Node>, scope: string, inClass: bool, counts: Counts, lo: nat, hi: nat)
    requires GoodTrees(nodes) && NestedIn(nodes, lo, hi)
    ensures Laminar(Walk(nodes, scope, inClass, counts).entries, lo, hi)
    decreases nodes, 1
  {
    if nodes != [] {
      var mid: nat :| lo <= mid <= hi && NodeIn(nodes[0], lo, mid) && NestedIn(nodes[1..], mid, hi);
      NodeLaminar(nodes[0], scope, inClass, counts, lo, mid);
      var w := WalkNode(nodes[0], scope, inClass, counts);
      WalkLaminar(nodes[1..], scope, inClass, w.counts, mid, hi);
      LaminarConcat(w.entries, Walk(nodes[1..], scope, inClass, w.counts).entries, lo, mid, hi);
    }
  }

  // ----- painting

  /** The owner of one line after the entries were painted in order: the last that covers it. */
  function OwnerOf(entries: seq<Entry>, line: int): Owner {
    if entries == [] then ModuleOwner
    else if Covers(entries[|entries| - 1], line) then DefinitionOwner(entries[|entries| - 1])
    else OwnerOf(entries[..|entries| - 1], line)
  }

  /** `owners`: one slot per line and an unused slot zero, overwritten slice by slice. */
  method PaintOwners(entries: seq<Entry>, lineCount: nat) returns (owners: array<Owner>)
    requires forall e :: e in entries ==> 1 <= e.start <= e.end <= lineCount
    ensures fresh(owners) && owners.Length == lineCount + 1
    ensures forall line :: 0 <= line <= lineCount ==> owners[line] == OwnerOf(entries, line)
  {
    owners := new Owner[lineCount + 1](_ => ModuleOwner);
    for i := 0 to |entries|
      invariant forall line :: 0 <= line <= lineCount ==> owners[line] == OwnerOf(entries[..i], line)
    {
      var symbol := entries[i];
      assert symbol in entries;
      forall line | symbol.start <= line <= symbol.end {
        owners[line] := DefinitionOwner(symbol);
      }
      assert entries[..i + 1][..i] == entries[..i];
    }
    assert entries[..|entries|] == entries;
  }

  /** The owner covers the line, and every definition covering the line encloses the owner. */
  ghost predicate Innermost(entries: seq<Entry>, line: int, owner: Owner) {
    match owner
    case ModuleOwner => forall e :: e in entries ==> line < e.start || e.end < line
    case DefinitionOwner(entry) =>
      && entry in entries && entry.start <= line <= entry.end
      && forall e :: e in entries && e.start <= line <= e.end ==> e.start <= entry.start && entry.end <= e.end
  }

  lemma {:induction false} LastIsInnermost(entries: seq<Entry>, line: int, lo: nat, hi: nat)
    requires Laminar(entries, lo, hi)
    ensures Innermost(entries, line, OwnerOf(entries, line))
  {
    if entries != [] {
      var n := |entries| - 1;
      var last := entries[n];
      assert entries == entries[..n] + [last];
      LastIsInnermost(entries[..n], line, lo, hi);
      if Covers(last, line) {
        forall e | e in entries && Covers(e, line) ensures Inside(last, e) {
          var i :| 0 <= i < |entries| && entries[i] == e;
          assert i < n ==> Inside(entries[n], entries[i]) || Disjoint(entries[i], entries[n]);
        }
      }
    }
  }

  /** For properly nested definitions every line belongs to the deepest definition covering it, or to the
      module when none does. */
  lemma OwnersAreInnermost(tree: seq<Node>, moduleName: string, lineCount: nat, line: int)
    requires GoodTrees(tree) && NestedIn(tree, 1, lineCount + 1)
    ensures var entries := Walk(tree, moduleName, false, map[]).entries;
            && Innermost(entries, line, OwnerOf(entries, line))
            && forall e :: e in entries ==> 1 <= e.start <= e.end <= lineCount
  {
    hide Walk;
    WalkLaminar(tree, moduleName, false, map[], 1, lineCount + 1);
    LastIsInnermost(Walk(tree, moduleName, false, map[]).entries, line, 1, lineCount + 1);
  }

  // ----- trailing comments

  /** `_line_indentation`: the column after leading blanks, with tab stops of eight and form-feed resets. */
  function Indentation(line: string, column: nat): nat {
    if line == "" then column
    else if line[0] == ' ' then Indentation(line[1..], column + 1)
    else if line[0] == '\t' then Indentation(line[1..], (column / 8 + 1) * 8)
    else if line[0] == '\U{000C}' then Indentation(line[1..], 0)
    else column
  }

  /** `line.lstrip(" \t\f")`. */
  function Stripped(line: string): string {
    if line != "" && line[0] in {' ', '\t', '\U{000C}'} then Stripped(line[1..]) else line
  }

  predicate Blank(line: string) {
    Stripped(line) == ""
  }

  /** A comment that is still inside a suite indented deeper than its definition. */
  predicate SuiteComment(line: string, indent: nat) {
    Stripped(line) != "" && Stripped(line)[0] == '#' && Indentation(line, 0) > indent
  }

  predicate Spaces(text: string) {
    forall i :: 0 <= i < |text| ==> text[i] in {' ', '\t', '\U{000C}'}
  }

  /** Stripping removes leading blanks, tabs and form feeds and nothing else. */
  lemma {:induction false} StrippedSays(line: string)
    ensures |Stripped(line)| <= |line|
    ensures var n := |line| - |Stripped(line)|;
            Spaces(line[..n]) && Stripped(line) == line[n..]
            && (Stripped(line) != "" ==> Stripped(line)[0] !in {' ', '\t', '\U{000C}'})
    ensures Blank(line) <==> Spaces(line)
  {
    if line != "" && line[0] in {' ', '\t', '\U{000C}'} {
      StrippedSays(line[1..]);
      var n := |line| - |Stripped(line)|;
      assert line[..n] == [line[0]] + line[1..][..n - 1];
      assert forall i :: 1 <= i < |line| ==> line[i] == line[1..][i - 1];
    }
  }

  /** A suite comment is blanks and then a number sign, indented deeper than its definition. */
  lemma SuiteCommentIff(line: string, indent: nat)
    ensures SuiteComment(line, indent) <==>
              Indentation(line, 0) > indent && exists n :: 0 <= n < |line| && line[n] == '#' && Spaces(line[..n])
  {
    StrippedSays(line);
    hide Indentation, Stripped;
  }

  lemma {:induction false} IndentationOfSpaces(rest: string, n: nat, column: nat)
    ensures Indentation(seq(n, _ => ' ') + rest, column) == Indentation(rest, column + n)
    decreases n
  {
    if n == 0 {
      assert seq(n, _ => ' ') + rest == rest;
    } else {
      IndentationOfSpaces(rest, n - 1, column + 1);
      assert (seq(n, _ => ' ') + rest)[1..] == seq(n - 1, _ => ' ') + rest;
    }
  }

  /** A tab moves to the next multiple of eight. */
  predicate IsTabStop(stop: nat, column: nat) {
    column < stop <= column + 8 && stop % 8 == 0
  }

  /** Blanks move one column on each, a tab to the next multiple of eight, a form feed back to the first column, and the
      rest of the line does not count. */
  lemma IndentationSays(rest: string, n: nat, column: nat)
    ensures Indentation(seq(n, _ => ' ') + rest, column) == Indentation(rest, column + n)
    ensures exists stop: nat :: IsTabStop(stop, column) && Indentation("\t" + rest, column) == Indentation(rest, stop)
    ensures Indentation("\U{000C}" + rest, column) == Indentation(rest, 0)
    ensures rest == "" || rest[0] !in {' ', '\t', '\U{000C}'} ==> Indentation(rest, column) == column
  {
    IndentationOfSpaces(rest, n, column);
    assert ("\t" + rest)[1..] == rest && ("\U{000C}" + rest)[1..] == rest;
    assert IsTabStop((column / 8 + 1) * 8, column);
  }

  /** The last suite comment of the run of blank lines and suite comments from line `n` on, or `extended`. */
  function ExtensionFrom(lines: seq<string>, n: nat, indent: nat, extended: nat): nat
    decreases |lines| - n
  {
    if n >= |lines| then extended
    else if Blank(lines[n]) then ExtensionFrom(lines, n + 1, indent, extended)
    else if SuiteComment(lines[n], indent) then ExtensionFrom(lines, n + 1, indent, n + 1)
    else extended
  }

  function Extension(lines: seq<string>, end: nat, indent: nat): nat {
    ExtensionFrom(lines, end, indent, end)
  }

  /** Only blank lines follow up to `stop`, where the file or the suite ends. */
  predicate RunEndsAt(lines: seq<string>, extended: nat, stop: nat, indent: nat) {
    && extended <= stop <= |lines| && (forall k :: extended <= k < stop ==> Blank(lines[k]))
    && (stop < |lines| ==> !Blank(lines[stop]) && !SuiteComment(lines[stop], indent))
  }

  /** `extended` is the last suite comment of the run of blank lines and suite comments after `end`. */
  ghost predicate Extends(lines: seq<string>, end: nat, indent: nat, extended: nat) {
    && end <= extended <= |lines|
    && (forall k :: end <= k < extended ==> Blank(lines[k]) || SuiteComment(lines[k], indent))
    && (extended > end ==> SuiteComment(lines[extended - 1], indent))
    && exists stop: nat :: RunEndsAt(lines, extended, stop, indent)
  }

  lemma {:induction false} ExtensionExtends(lines: seq<string>, end: nat, n: nat, indent: nat, extended: nat)
    requires end <= extended <= n <= |lines| && (extended > end ==> SuiteComment(lines[extended - 1], indent))
    requires forall k :: end <= k < extended ==> Blank(lines[k]) || SuiteComment(lines[k], indent)
    requires forall k :: extended <= k < n ==> Blank(lines[k])
    ensures Extends(lines, end, indent, ExtensionFrom(lines, n, indent, extended))
    decreases |lines| - n
  {
    hide Blank, SuiteComment;
    if n < |lines| && Blank(lines[n]) {
      ExtensionExtends(lines, end, n + 1, indent, extended);
    } else if n < |lines| && SuiteComment(lines[n], indent) {
      ExtensionExtends(lines, end, n + 1, indent, n + 1);
    } else {
      assert RunEndsAt(lines, extended, n, indent);
    }
  }

  /** `_extend_through_indented_comments`; lines are numbered from one. */
  method ExtendThroughComments(end: nat, indent: nat, lines: seq<string>) returns (extended: nat)
    requires end <= |lines|
    ensures Extends(lines, end, indent, extended) && extended == Extension(lines, end, indent)
  {
    extended := end;
    var n := end;
    ExtensionExtends(lines, end, end, indent, end);
    while n < |lines|
      invariant end <= n <= |lines| && Extension(lines, end, indent) == ExtensionFrom(lines, n, indent, extended)
    {
      var line := lines[n];
      var stripped := Stripped(line);
      if stripped != "" {
        if stripped[0] != '#' || Indentation(line, 0) <= indent {
          return;
        }
        extended := n + 1;
      }
      n := n + 1;
    }
  }
}
