/** Which definitions of a module the extracted symbols are, of which kind, and under which name
    (`lou/repository/symbols.py`). */
module SymbolKinds {
  import opened Common
  import opened Symbols

  /** `d` is a definition below these nodes and `parent` the nearest definition around it, which is `around` for those
      that lie in no other. */
  ghost predicate Occurs(nodes: seq<Node>, around: Option<Node>, d: Node, parent: Option<Node>)
    decreases nodes, 1
  {
    nodes != [] && (OccursIn(nodes[0], around, d, parent) || Occurs(nodes[1..], around, d, parent))
  }

  ghost predicate OccursIn(node: Node, around: Option<Node>, d: Node, parent: Option<Node>)
    decreases node, 0
  {
    match node
    case Plain(children) => Occurs(children, around, d, parent)
    case Definition(_, _, _, _, before, body, after) =>
      || (d == node && parent == around)
      || Occurs(before, Some(node), d, parent) || Occurs(body, Some(node), d, parent)
      || Occurs(after, Some(node), d, parent)
  }

  /** A class is a class; a function whose nearest definition around it is a class is a method, whatever statements lie
      between them; any other is a function. */
  ghost predicate IsSymbolOf(e: Entry, d: Node, parent: Option<Node>) {
    && d.Definition? && e.start == d.start && e.end == d.end
    && (e.kind == ClassKind <==> d.isClass)
    && (e.kind == MethodKind <==> !d.isClass && parent.Some? && parent.value.Definition? && parent.value.isClass)
    && (e.kind == FunctionKind <==> !d.isClass && !(parent.Some? && parent.value.Definition? && parent.value.isClass))
  }

  predicate NamedIn(e: Entry, scope: string, d: Node) {
    d.Definition? && e.raw == scope + "." + d.name
  }

  /** The symbol of a definition in no other is named in the module, any other in the symbol of its parent. */
  ghost predicate Explained(entries: seq<Entry>, nodes: seq<Node>, around: Option<Node>, scope: string, e: Entry) {
    exists d, parent :: Explains(entries, nodes, around, scope, e, d, parent)
  }

  ghost predicate Explains(entries: seq<Entry>, nodes: seq<Node>, around: Option<Node>, scope: string, e: Entry,
                           d: Node, parent: Option<Node>)
  {
    && Occurs(nodes, around, d, parent) && IsSymbolOf(e, d, parent)
    && ((parent == around && NamedIn(e, scope, d))
        || exists p :: p in entries && parent.Some? && parent.value.Definition? && p.start == parent.value.start
                       && p.end == parent.value.end && NamedIn(e, p.Key(), d))
  }

  ghost predicate AllExplained(entries: seq<Entry>, nodes: seq<Node>, around: Option<Node>, scope: string) {
    forall e :: e in entries ==> Explained(entries, nodes, around, scope, e)
  }

  /** The enclosing definition is a class exactly when the walk says so. */
  predicate Around(around: Option<Node>, inClass: bool) {
    (around.Some? ==> around.value.Definition?) && (inClass <==> around.Some? && around.value.isClass)
  }

  lemma ExplainedBySome(part: seq<Entry>, nodes: seq<Node>, all: seq<Entry>, more: seq<Node>, around: Option<Node>,
                        scope: string)
    requires AllExplained(part, nodes, around, scope) && (forall e :: e in part ==> e in all)
    requires forall d, parent :: Occurs(nodes, around, d, parent) ==> Occurs(more, around, d, parent)
    ensures forall e :: e in part ==> Explained(all, more, around, scope, e)
  {
    hide Occurs, IsSymbolOf, NamedIn;
    forall e | e in part ensures Explained(all, more, around, scope, e) {
      var d, parent :| Explains(part, nodes, around, scope, e, d, parent);
      assert Explains(all, more, around, scope, e, d, parent);
    }
  }

  /** What is explained inside a definition's own scope is explained by its symbol outside. */
  lemma ExplainedInside(part: seq<Entry>, nodes: seq<Node>, all: seq<Entry>, more: seq<Node>, node: Node,
                        entry: Entry, around: Option<Node>, scope: string)
    requires node.Definition? && entry in all && entry.start == node.start && entry.end == node.end
    requires AllExplained(part, nodes, Some(node), entry.Key()) && (forall e :: e in part ==> e in all)
    requires forall d, parent :: Occurs(nodes, Some(node), d, parent) ==> Occurs(more, around, d, parent)
    ensures forall e :: e in part ==> Explained(all, more, around, scope, e)
  {
    hide Occurs, IsSymbolOf, NamedIn;
    forall e | e in part ensures Explained(all, more, around, scope, e) {
      var d, parent :| Explains(part, nodes, Some(node), entry.Key(), e, d, parent);
      assert Explains(all, more, around, scope, e, d, parent);
    }
  }

  lemma {:induction false} WalkExplained(nodes: seq<Node>, around: Option<Node>, scope: string, inClass: bool,
                                         counts: Counts)
    requires Around(around, inClass)
    ensures AllExplained(Walk(nodes, scope, inClass, counts).entries, nodes, around, scope)
    decreases nodes, 1
  {
    if nodes != [] {
      var w := WalkNode(nodes[0], scope, inClass, counts);
      var rest := Walk(nodes[1..], scope, inClass, w.counts);
      WalkNodeExplained(nodes[0], around, scope, inClass, counts);
      WalkExplained(nodes[1..], around, scope, inClass, w.counts);
      OneOccurs(nodes, around);
      ExplainedBySome(w.entries, [nodes[0]], w.entries + rest.entries, nodes, around, scope);
      ExplainedBySome(rest.entries, nodes[1..], w.entries + rest.entries, nodes, around, scope);
    }
  }

  lemma OneOccurs(nodes: seq<Node>, around: Option<Node>)
    requires nodes != []
    ensures forall d, parent :: Occurs([nodes[0]], around, d, parent) <==> OccursIn(nodes[0], around, d, parent)
    ensures forall d, parent :: Occurs(nodes, around, d, parent) <==>
                                  Occurs([nodes[0]], around, d, parent) || Occurs(nodes[1..], around, d, parent)
  {
    assert [nodes[0]][1..] == [];
  }

  lemma {:induction false} WalkNodeExplained(node: Node, around: Option<Node>, scope: string, inClass: bool,
                                             counts: Counts)
    requires Around(around, inClass)
    ensures AllExplained(WalkNode(node, scope, inClass, counts).entries, [node], around, scope)
    decreases node, 0
  {
    OneOccurs([node], around);
    var all := WalkNode(node, scope, inClass, counts).entries;
    match node {
      case Plain(children) =>
        WalkExplained(children, around, scope, inClass, counts);
        ExplainedBySome(all, children, all, [node], around, scope);
      case Definition(name, isClass, _, _, before, body, after) =>
        var entry := EntryFor(RawKey(scope, name), node, inClass, counts);
        var w1 := Walk(before, entry.Key(), isClass, counts[entry.raw := entry.ordinal]);
        var w2 := Walk(body, entry.Key(), isClass, w1.counts);
        var w3 := Walk(after, entry.Key(), isClass, w2.counts);
        WalkExplained(before, Some(node), entry.Key(), isClass, counts[entry.raw := entry.ordinal]);
        WalkExplained(body, Some(node), entry.Key(), isClass, w1.counts);
        WalkExplained(after, Some(node), entry.Key(), isClass, w2.counts);
        ExplainedInside(w1.entries, before, all, [node], node, entry, around, scope);
        ExplainedInside(w2.entries, body, all, [node], node, entry, around, scope);
        ExplainedInside(w3.entries, after, all, [node], node, entry, around, scope);
        assert Explains(all, [node], around, scope, entry, node, around);
    }
  }

  // ----- every definition is found

  function Definitions(nodes: seq<Node>): nat
    decreases nodes, 1
  {
    if nodes == [] then 0 else DefinitionsIn(nodes[0]) + Definitions(nodes[1..])
  }

  function DefinitionsIn(node: Node): nat
    decreases node, 0
  {
    match node
    case Plain(children) => Definitions(children)
    case Definition(_, _, _, _, before, body, after) =>
      1 + Definitions(before) + Definitions(body) + Definitions(after)
  }

  predicate HasSymbol(entries: seq<Entry>, d: Node, inClass: bool) {
    exists e :: e in entries && d.Definition? && e.start == d.start && e.end == d.end
                && e.kind == KindOf(d.isClass, inClass)
  }

  lemma {:induction false} WalkFinds(nodes: seq<Node>, around: Option<Node>, scope: string, inClass: bool,
                                     counts: Counts, d: Node, parent: Option<Node>)
    requires Around(around, inClass)
    ensures |Walk(nodes, scope, inClass, counts).entries| == Definitions(nodes)
    ensures Occurs(nodes, around, d, parent) ==>
              HasSymbol(Walk(nodes, scope, inClass, counts).entries, d,
                        parent.Some? && parent.value.Definition? && parent.value.isClass)
    decreases nodes, 1
  {
    if nodes != [] {
      WalkNodeFinds(nodes[0], around, scope, inClass, counts, d, parent);
      WalkFinds(nodes[1..], around, scope, inClass, WalkNode(nodes[0], scope, inClass, counts).counts, d, parent);
    }
  }

  lemma {:induction false} WalkNodeFinds(node: Node, around: Option<Node>, scope: string, inClass: bool,
                                         counts: Counts, d: Node, parent: Option<Node>)
    requires Around(around, inClass)
    ensures |WalkNode(node, scope, inClass, counts).entries| == DefinitionsIn(node)
    ensures OccursIn(node, around, d, parent) ==>
              HasSymbol(WalkNode(node, scope, inClass, counts).entries, d,
                        parent.Some? && parent.value.Definition? && parent.value.isClass)
    decreases node, 0
  {
    match node {
      case Plain(children) => WalkFinds(children, around, scope, inClass, counts, d, parent);
      case Definition(name, isClass, _, _, before, body, after) =>
        var entry := EntryFor(RawKey(scope, name), node, inClass, counts);
        var next := counts[entry.raw := entry.ordinal];
        var w1 := Walk(before, entry.Key(), isClass, next);
        var w2 := Walk(body, entry.Key(), isClass, w1.counts);
        WalkFinds(before, Some(node), entry.Key(), isClass, next, d, parent);
        WalkFinds(body, Some(node), entry.Key(), isClass, w1.counts, d, parent);
        WalkFinds(after, Some(node), entry.Key(), isClass, w2.counts, d, parent);
    }
  }

  /** The symbols of a module are exactly its definitions, each as often as it occurs in all, with its lines and its
      kind, named in the module or in the symbol of the nearest definition around it. */
  lemma SymbolsAreDefinitions(tree: seq<Node>, moduleName: string)
    ensures var entries := Walk(tree, moduleName, false, map[]).entries;
            && |entries| == Definitions(tree)
            && (forall e :: e in entries ==> Explained(entries, tree, None, moduleName, e))
            && forall d, parent :: Occurs(tree, None, d, parent) ==>
                 exists e :: e in entries && IsSymbolOf(e, d, parent)
  {
    var entries := Walk(tree, moduleName, false, map[]).entries;
    WalkExplained(tree, None, moduleName, false, map[]);
    WalkFinds(tree, None, moduleName, false, map[], Plain([]), None);
    forall d, parent | Occurs(tree, None, d, parent) ensures exists e :: e in entries && IsSymbolOf(e, d, parent) {
      WalkFinds(tree, None, moduleName, false, map[], d, parent);
      var e :| e in entries && d.Definition? && e.start == d.start && e.end == d.end
               && e.kind == KindOf(d.isClass, parent.Some? && parent.value.Definition? && parent.value.isClass);
      assert IsSymbolOf(e, d, parent);
    }
  }

  // ----- ordinals

  function NumberOf(entries: seq<Entry>, raw: string): nat {
    if entries == [] then 0
    else NumberOf(entries[..|entries| - 1], raw) + if entries[|entries| - 1].raw == raw then 1 else 0
  }

  lemma {:induction false} NumberOfConcat(a: seq<Entry>, b: seq<Entry>, raw: string)
    ensures NumberOf(a + b, raw) == NumberOf(a, raw) + NumberOf(b, raw)
  {
    if b == [] {
      assert a + b == a;
    } else {
      assert (a + b)[..|a + b| - 1] == a + b[..|b| - 1];
      NumberOfConcat(a, b[..|b| - 1], raw);
    }
  }

  /** Every entry is numbered after those of its name that were counted before and those that precede it. */
  ghost predicate CountsOn(entries: seq<Entry>, before: Counts, after: Counts) {
    && (forall raw :: CountOf(after, raw) == CountOf(before, raw) + NumberOf(entries, raw))
    && forall i :: 0 <= i < |entries| ==>
         entries[i].ordinal == CountOf(before, entries[i].raw) + NumberOf(entries[..i], entries[i].raw) + 1
  }

  lemma CountsOnConcat(a: seq<Entry>, b: seq<Entry>, x: Counts, y: Counts, z: Counts)
    requires CountsOn(a, x, y) && CountsOn(b, y, z)
    ensures CountsOn(a + b, x, z)
  {
    hide CountOf;
    forall raw ensures CountOf(z, raw) == CountOf(x, raw) + NumberOf(a + b, raw) {
      NumberOfConcat(a, b, raw);
    }
    forall i | 0 <= i < |a + b|
      ensures (a + b)[i].ordinal == CountOf(x, (a + b)[i].raw) + NumberOf((a + b)[..i], (a + b)[i].raw) + 1
    {
      if i < |a| {
        assert (a + b)[..i] == a[..i];
      } else {
        assert (a + b)[..i] == a + b[..i - |a|];
        NumberOfConcat(a, b[..i - |a|], (a + b)[i].raw);
      }
    }
  }

  lemma OneCountsOn(e: Entry, counts: Counts)
    requires e.ordinal == CountOf(counts, e.raw) + 1
    ensures CountsOn([e], counts, counts[e.raw := e.ordinal])
  {
    assert [e][..0] == [];
    forall raw ensures NumberOf([e], raw) == if e.raw == raw then 1 else 0 {
      assert [e][..|[e]| - 1] == [];
    }
  }

  lemma {:induction false} WalkCounts(nodes: seq<Node>, scope: string, inClass: bool, counts: Counts)
    ensures CountsOn(Walk(nodes, scope, inClass, counts).entries, counts, Walk(nodes, scope, inClass, counts).counts)
    decreases nodes, 1
  {
    if nodes != [] {
      hide CountsOn;
      var w := WalkNode(nodes[0], scope, inClass, counts);
      var rest := Walk(nodes[1..], scope, inClass, w.counts);
      WalkNodeCounts(nodes[0], scope, inClass, counts);
      WalkCounts(nodes[1..], scope, inClass, w.counts);
      CountsOnConcat(w.entries, rest.entries, counts, w.counts, rest.counts);
    }
  }

  lemma {:induction false} WalkNodeCounts(node: Node, scope: string, inClass: bool, counts: Counts)
    ensures CountsOn(WalkNode(node, scope, inClass, counts).entries, counts,
                     WalkNode(node, scope, inClass, counts).counts)
    decreases node, 0
  {
    hide CountsOn;
    match node {
      case Plain(children) => WalkCounts(children, scope, inClass, counts);
      case Definition(name, isClass, _, _, before, body, after) =>
        var entry := EntryFor(RawKey(scope, name), node, inClass, counts);
        var next := counts[entry.raw := entry.ordinal];
        var w1 := Walk(before, entry.Key(), isClass, next);
        var w2 := Walk(body, entry.Key(), isClass, w1.counts);
        var w3 := Walk(after, entry.Key(), isClass, w2.counts);
        OneCountsOn(entry, counts);
        WalkCounts(before, entry.Key(), isClass, next);
        WalkCounts(body, entry.Key(), isClass, w1.counts);
        WalkCounts(after, entry.Key(), isClass, w2.counts);
        CountsOnConcat(w2.entries, w3.entries, w1.counts, w2.counts, w3.counts);
        CountsOnConcat(w1.entries, w2.entries + w3.entries, next, w1.counts, w3.counts);
        CountsOnConcat([entry], w1.entries + (w2.entries + w3.entries), counts, next, w3.counts);
    }
  }

  /** Symbols of one name in one scope are numbered from one in the order they are found. */
  lemma OrdinalsCount(tree: seq<Node>, moduleName: string, i: nat)
    requires i < |Walk(tree, moduleName, false, map[]).entries|
    ensures var entries := Walk(tree, moduleName, false, map[]).entries;
            entries[i].ordinal == NumberOf(entries[..i], entries[i].raw) + 1
  {
    WalkCounts(tree, moduleName, false, map[]);
  }
}
