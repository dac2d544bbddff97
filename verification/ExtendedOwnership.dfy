/** Extending definitions through their trailing comments keeps them properly nested, so that each line still belongs
    to the deepest definition (`lou/repository/symbols.py`). */
module ExtendedOwnership {
  import opened Symbols
  import opened LineOwnership

  // ----- one extension against another

  /** The line starts code: it is neither blank nor a comment. */
  predicate CodeAt(lines: seq<string>, line: nat) {
    1 <= line <= |lines| && !Blank(lines[line - 1]) && Stripped(lines[line - 1])[0] != '#'
  }

  /** A definition inside another one, with at least its indentation, is not extended past it. */
  lemma InnerEndsWithin(lines: seq<string>, inner: nat, innerIndent: nat, outer: nat, outerIndent: nat)
    requires inner <= outer <= |lines| && innerIndent >= outerIndent
    ensures Extension(lines, inner, innerIndent) <= Extension(lines, outer, outerIndent)
  {
    ExtensionExtends(lines, inner, inner, innerIndent, inner);
    ExtensionExtends(lines, outer, outer, outerIndent, outer);
    var x, y := Extension(lines, inner, innerIndent), Extension(lines, outer, outerIndent);
    hide Extension, ExtensionFrom, Stripped, Indentation;
    var stop: nat :| RunEndsAt(lines, y, stop, outerIndent);
    assert forall k :: inner <= k < x ==> Blank(lines[k]) || SuiteComment(lines[k], outerIndent);
    assert x > inner ==> !Blank(lines[x - 1]);
  }

  /** An extension stops before the next line of code. */
  lemma CodeStops(lines: seq<string>, end: nat, indent: nat, line: nat)
    requires CodeAt(lines, line) && end < line
    ensures Extension(lines, end, indent) < line
  {
    ExtensionExtends(lines, end, end, indent, end);
  }

  // ----- a whole tree

  /** Every definition's last line is moved to its last suite comment; `indentOf` is the indentation of the line a
      definition begins on. */
  function ExtendNode(node: Node, lines: seq<string>, indentOf: Node -> nat): Node
    decreases node, 0
  {
    match node
    case Plain(children) => Plain(ExtendNodes(children, lines, indentOf))
    case Definition(name, isClass, start, end, before, body, after) =>
      Definition(name, isClass, start, Extension(lines, end, indentOf(node)), before,
                 ExtendNodes(body, lines, indentOf), after)
  }

  function ExtendNodes(nodes: seq<Node>, lines: seq<string>, indentOf: Node -> nat): seq<Node>
    decreases nodes, 1
  {
    if nodes == [] then [] else [ExtendNode(nodes[0], lines, indentOf)] + ExtendNodes(nodes[1..], lines, indentOf)
  }

  /** What the layout of the source guarantees: definitions begin with code, and inner ones are indented at least
      as far as the ones around them. */
  predicate LaidOut(node: Node, lines: seq<string>, indentOf: Node -> nat, least: nat)
    decreases node, 0
  {
    match node
    case Plain(children) => AllLaidOut(children, lines, indentOf, least)
    case Definition(_, _, start, end, _, body, _) =>
      && CodeAt(lines, start) && end <= |lines| && indentOf(node) >= least
      && AllLaidOut(body, lines, indentOf, indentOf(node))
  }

  predicate AllLaidOut(nodes: seq<Node>, lines: seq<string>, indentOf: Node -> nat, least: nat)
    decreases nodes, 1
  {
    nodes == [] || (LaidOut(nodes[0], lines, indentOf, least) && AllLaidOut(nodes[1..], lines, indentOf, least))
  }

  /** The first line of the first definition, or `limit` if there is none. */
  function FirstStart(nodes: seq<Node>, limit: nat): nat
  {
    if nodes == [] then limit
    else if nodes[0].Definition? then nodes[0].start
    else FirstStart(nodes[0].children, FirstStart(nodes[1..], limit))
  }

  /** Whether there is a definition at all: then `FirstStart` does not depend on the limit. */
  predicate AnyDefinition(nodes: seq<Node>)
  {
    nodes != [] && (nodes[0].Definition? || AnyDefinition(nodes[0].children) || AnyDefinition(nodes[1..]))
  }

  lemma {:induction false} FirstStartIs(nodes: seq<Node>, limit: nat, other: nat)
    ensures if AnyDefinition(nodes) then FirstStart(nodes, limit) == FirstStart(nodes, other)
            else FirstStart(nodes, limit) == limit
  {
    if nodes != [] && nodes[0].Plain? {
      FirstStartIs(nodes[1..], limit, other);
      FirstStartIs(nodes[0].children, FirstStart(nodes[1..], limit), FirstStart(nodes[1..], other));
    }
  }

  lemma {:induction false} FirstStartKept(nodes: seq<Node>, lines: seq<string>, indentOf: Node -> nat, limit: nat)
    ensures FirstStart(ExtendNodes(nodes, lines, indentOf), limit) == FirstStart(nodes, limit)
  {
    if nodes != [] && nodes[0].Plain? {
      FirstStartKept(nodes[1..], lines, indentOf, limit);
      FirstStartKept(nodes[0].children, lines, indentOf, FirstStart(nodes[1..], limit));
    }
  }

  lemma {:induction false} FirstStartIsCode(nodes: seq<Node>, lines: seq<string>,
                                            indentOf: Node -> nat, least: nat, limit: nat)
    requires AllLaidOut(nodes, lines, indentOf, least)
    ensures FirstStart(nodes, limit) == limit || CodeAt(lines, FirstStart(nodes, limit))
  {
    if nodes != [] && nodes[0].Plain? {
      FirstStartIsCode(nodes[1..], lines, indentOf, least, limit);
      FirstStartIsCode(nodes[0].children, lines, indentOf, least, FirstStart(nodes[1..], limit));
    }
  }

  lemma {:induction false} NoDefinitionFits(nodes: seq<Node>, lo: nat, hi: nat)
    requires !AnyDefinition(nodes) && lo <= hi
    ensures NestedIn(nodes, lo, hi)
  {
    if nodes != [] {
      NoDefinitionFits(nodes[0].children, lo, lo);
      NoDefinitionFits(nodes[1..], lo, hi);
      assert NodeIn(nodes[0], lo, lo);
    }
  }

  /** Nested definitions may be taken to begin at the first of them. */
  lemma {:induction false} NestedFromFirst(nodes: seq<Node>, lo: nat, hi: nat)
    requires NestedIn(nodes, lo, hi)
    ensures lo <= FirstStart(nodes, hi) <= hi && NestedIn(nodes, FirstStart(nodes, hi), hi)
  {
    if nodes != [] {
      var mid: nat :| lo <= mid <= hi && NodeIn(nodes[0], lo, mid) && NestedIn(nodes[1..], mid, hi);
      NestedFromFirst(nodes[1..], mid, hi);
      if nodes[0].Plain? {
        var children, first := nodes[0].children, FirstStart(nodes[1..], hi);
        NestedFromFirst(children, lo, mid);
        FirstStartIs(children, mid, first);
        if AnyDefinition(children) {
          assert NodeIn(nodes[0], FirstStart(children, mid), mid);
        } else {
          FirstStartIs(children, first, mid);
          NoDefinitionFits(children, first, first);
          assert NodeIn(nodes[0], first, first);
        }
      }
    }
  }

  /** Definitions that end before `hi`, with at least this indentation, are extended at most to before `limit`. */
  ghost predicate Stops(lines: seq<string>, hi: nat, limit: nat, least: nat) {
    forall end: nat, indent: nat :: end < hi && indent >= least ==> Extension(lines, end, indent) < limit
  }

  lemma {:induction false} NodeStaysNested(node: Node, lo: nat, hi: nat, limit: nat, lines: seq<string>,
                                           indentOf: Node -> nat, least: nat)
    requires NodeIn(node, lo, hi) && hi <= limit && LaidOut(node, lines, indentOf, least)
    requires Stops(lines, hi, limit, least)
    ensures NodeIn(ExtendNode(node, lines, indentOf), lo, limit)
    decreases node, 0
  {
    hide Extension, CodeAt;
    match node {
      case Plain(children) => NodesStayNested(children, lo, hi, limit, lines, indentOf, least);
      case Definition(_, _, start, end, _, body, _) =>
        var indent := indentOf(node);
        var extended := Extension(lines, end, indent);
        InnerEndsWithin(lines, end, indent, end, indent);
        ExtensionGrows(lines, end, indent);
        forall inner: nat, i: nat | inner < end + 1 && i >= indent ensures Extension(lines, inner, i) < extended + 1 {
          InnerEndsWithin(lines, inner, i, end, indent);
        }
        NodesStayNested(body, start, end + 1, extended + 1, lines, indentOf, indent);
    }
  }

  lemma ExtensionGrows(lines: seq<string>, end: nat, indent: nat)
    requires end <= |lines|
    ensures end <= Extension(lines, end, indent)
  {
    ExtensionExtends(lines, end, end, indent, end);
  }

  lemma {:induction false} NodesStayNested(nodes: seq<Node>, lo: nat, hi: nat, limit: nat, lines: seq<string>,
                                           indentOf: Node -> nat, least: nat)
    requires NestedIn(nodes, lo, hi) && hi <= limit && AllLaidOut(nodes, lines, indentOf, least)
    requires Stops(lines, hi, limit, least)
    ensures NestedIn(ExtendNodes(nodes, lines, indentOf), lo, limit)
    decreases nodes, 1
  {
    hide Extension, CodeAt;
    if nodes != [] {
      var mid: nat :| lo <= mid <= hi && NodeIn(nodes[0], lo, mid) && NestedIn(nodes[1..], mid, hi);
      var rest := nodes[1..];
      var first := FirstStart(rest, limit);
      NodesStayNested(rest, mid, hi, limit, lines, indentOf, least);
      NestedFromFirst(ExtendNodes(rest, lines, indentOf), mid, limit);
      FirstStartKept(rest, lines, indentOf, limit);
      FirstStartIsCode(rest, lines, indentOf, least, limit);
      forall end: nat, indent: nat | end < mid && indent >= least ensures Extension(lines, end, indent) < first {
        if first != limit {
          CodeStops(lines, end, indent, first);
        }
      }
      NodeStaysNested(nodes[0], lo, mid, first, lines, indentOf, least);
      var extended := ExtendNodes(nodes, lines, indentOf);
      assert extended[1..] == ExtendNodes(rest, lines, indentOf);
      assert NodeIn(extended[0], lo, first) && NestedIn(extended[1..], first, limit);
    }
  }

  lemma {:induction false} StillGood(nodes: seq<Node>, lines: seq<string>, indentOf: Node -> nat)
    requires GoodTrees(nodes)
    ensures GoodTrees(ExtendNodes(nodes, lines, indentOf))
  {
    if nodes != [] {
      match nodes[0] {
        case Plain(children) => StillGood(children, lines, indentOf);
        case Definition(_, _, _, _, _, body, _) => StillGood(body, lines, indentOf);
      }
      StillGood(nodes[1..], lines, indentOf);
      var extended := ExtendNodes(nodes, lines, indentOf);
      assert extended[1..] == ExtendNodes(nodes[1..], lines, indentOf);
    }
  }

  /** Properly nested definitions stay properly nested when each is extended through its trailing comments. */
  lemma ExtendingKeepsNesting(tree: seq<Node>, lines: seq<string>, indentOf: Node -> nat, lineCount: nat)
    requires GoodTrees(tree) && NestedIn(tree, 1, lineCount + 1) && AllLaidOut(tree, lines, indentOf, 0)
    requires lineCount <= |lines| && forall k :: lineCount <= k < |lines| ==> Blank(lines[k])
    ensures var extended := ExtendNodes(tree, lines, indentOf);
            GoodTrees(extended) && NestedIn(extended, 1, lineCount + 1)
  {
    forall end: nat, indent: nat | end < lineCount + 1 ensures Extension(lines, end, indent) < lineCount + 1 {
      ExtensionExtends(lines, end, end, indent, end);
    }
    NodesStayNested(tree, 1, lineCount + 1, lineCount + 1, lines, indentOf, 0);
    StillGood(tree, lines, indentOf);
  }

  /** So in the source as it is written, comments included, every line belongs to the deepest definition whose
      extended lines cover it, or to the module when none does. */
  lemma ExtendedOwnersAreInnermost(tree: seq<Node>, lines: seq<string>, indentOf: Node -> nat, moduleName: string,
                                   lineCount: nat, line: int)
    requires GoodTrees(tree) && NestedIn(tree, 1, lineCount + 1) && AllLaidOut(tree, lines, indentOf, 0)
    requires lineCount <= |lines| && forall k :: lineCount <= k < |lines| ==> Blank(lines[k])
    ensures var entries := Walk(ExtendNodes(tree, lines, indentOf), moduleName, false, map[]).entries;
            Innermost(entries, line, OwnerOf(entries, line))
  {
    hide Walk, Innermost, OwnerOf;
    ExtendingKeepsNesting(tree, lines, indentOf, lineCount);
    OwnersAreInnermost(ExtendNodes(tree, lines, indentOf), moduleName, lineCount, line);
  }
}
