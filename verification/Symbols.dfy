/** Two walks over one module's definitions: the explicit-stack walk of symbol extraction
    (`lou/repository/symbols.py`) and the recursive walk of the graph builder (`lou/repository/graph.py`). */
module Symbols {
  import opened Text

  /** A syntax tree. `before` and `after` are a definition's children outside its body: arguments,
      decorators, annotations. `start` and `end` are the lines the definition owns. */
  datatype Node =
    | Definition(name: string, isClass: bool, start: nat, end: nat, before: seq<Node>, body: seq<Node>,
        after: seq<Node>)
    | Plain(children: seq<Node>)

  datatype Kind = ClassKind | MethodKind | FunctionKind

  type Counts = map<string, nat>

  /** One definition as found: the `ordinal`-th one called `name` in `scope`. */
  datatype Entry = Entry(raw: string, ordinal: nat, kind: Kind, start: nat, end: nat)
  {
    function Key(): string {
      KeyOf(raw, ordinal)
    }
  }

  /** The first definition of a name gets the plain key, later ones a `#n` suffix. */
  function KeyOf(raw: string, ordinal: nat): string {
    if ordinal <= 1 then raw else raw + "#" + Decimal(ordinal)
  }

  datatype Walked = Walked(entries: seq<Entry>, counts: Counts)

  function CountOf(counts: Counts, raw: string): nat {
    if raw in counts then counts[raw] else 0
  }

  function KindOf(isClass: bool, inClass: bool): Kind {
    if isClass then ClassKind else if inClass then MethodKind else FunctionKind
  }

  /** `f"{scope}.{name}"`. */
  function RawKey(scope: string, name: string): string {
    scope + "." + name
  }

  /** The graph builder drops the dot when the scope is empty. */
  function GraphRawKey(scope: string, name: string): string {
    if scope == "" then name else scope + "." + name
  }

  function EntryFor(raw: string, d: Node, inClass: bool, counts: Counts): Entry
    requires d.Definition?
  {
    Entry(raw, CountOf(counts, raw) + 1, KindOf(d.isClass, inClass), d.start, d.end)
  }

  // ----- the order both walks should agree on: preorder over every child

  function WalkNode(node: Node, scope: string, inClass: bool, counts: Counts): Walked
    decreases node, 0
  {
    match node
    case Plain(children) => Walk(children, scope, inClass, counts)
    case Definition(name, isClass, _, _, before, body, after) =>
      var entry := EntryFor(RawKey(scope, name), node, inClass, counts);
      var w1 := Walk(before, entry.Key(), isClass, counts[entry.raw := entry.ordinal]);
      var w2 := Walk(body, entry.Key(), isClass, w1.counts);
      var w3 := Walk(after, entry.Key(), isClass, w2.counts);
      Walked([entry] + (w1.entries + (w2.entries + w3.entries)), w3.counts)
  }

  function Walk(nodes: seq<Node>, scope: string, inClass: bool, counts: Counts): Walked
    decreases nodes, 1
  {
    if nodes == [] then Walked([], counts)
    else
      var w := WalkNode(nodes[0], scope, inClass, counts);
      var rest := Walk(nodes[1..], scope, inClass, w.counts);
      Walked(w.entries + rest.entries, rest.counts)
  }

  lemma {:induction false} WalkConcat(a: seq<Node>, b: seq<Node>, scope: string, inClass: bool, counts: Counts)
    ensures var w := Walk(a, scope, inClass, counts);
            Walk(a + b, scope, inClass, counts)
            == Walked(w.entries + Walk(b, scope, inClass, w.counts).entries, Walk(b, scope, inClass, w.counts).counts)
  {
    if a == [] {
      assert a + b == b;
    } else {
      assert (a + b)[1..] == a[1..] + b;
      WalkConcat(a[1..], b, scope, inClass, WalkNode(a[0], scope, inClass, counts).counts);
    }
  }

  // ----- what the syntax guarantees

  predicate GoodName(name: string) {
    name != "" && '.' !in name && '#' !in name
  }

  /** Identifiers contain neither separator, and only bodies contain definitions. */
  predicate GoodTree(node: Node)
    decreases node, 0
  {
    match node
    case Plain(children) => GoodTrees(children)
    case Definition(name, _, _, _, before, body, after) =>
      GoodName(name) && NoDefinitions(before) && GoodTrees(body) && NoDefinitions(after)
  }

  predicate GoodTrees(nodes: seq<Node>)
    decreases nodes, 1
  {
    nodes == [] || (GoodTree(nodes[0]) && GoodTrees(nodes[1..]))
  }

  predicate NoDefinitions(nodes: seq<Node>)
  {
    nodes == [] || (nodes[0].Plain? && NoDefinitions(nodes[0].children) && NoDefinitions(nodes[1..]))
  }

  lemma {:induction false} NothingToFind(nodes: seq<Node>, scope: string, inClass: bool, counts: Counts)
    requires NoDefinitions(nodes)
    ensures Walk(nodes, scope, inClass, counts) == Walked([], counts)
  {
    if nodes != [] {
      NothingToFind(nodes[0].children, scope, inClass, counts);
      NothingToFind(nodes[1..], scope, inClass, counts);
    }
  }

  // ----- the explicit stack

  datatype Item = Item(node: Node, scope: string, inClass: bool)

  function Size(node: Node): nat
    decreases node, 0
  {
    match node
    case Plain(children) => 1 + Sizes(children)
    case Definition(_, _, _, _, before, body, after) => 1 + Sizes(before) + Sizes(body) + Sizes(after)
  }

  function Sizes(nodes: seq<Node>): nat
    decreases nodes, 1
  {
    if nodes == [] then 0 else Size(nodes[0]) + Sizes(nodes[1..])
  }

  lemma {:induction false} SizesConcat(a: seq<Node>, b: seq<Node>)
    ensures Sizes(a + b) == Sizes(a) + Sizes(b)
  {
    if a == [] {
      assert a + b == b;
    } else {
      assert (a + b)[1..] == a[1..] + b;
      SizesConcat(a[1..], b);
    }
  }

  /** `iter_child_nodes`. */
  function Children(node: Node): seq<Node> {
    match node
    case Plain(children) => children
    case Definition(_, _, _, _, before, body, after) => before + (body + after)
  }

  /** The children as stack items, the first on top. */
  function Pushed(children: seq<Node>, scope: string, inClass: bool): seq<Item> {
    if children == [] then [] else Pushed(children[1..], scope, inClass) + [Item(children[0], scope, inClass)]
  }

  function StackSize(pending: seq<Item>): nat {
    if pending == [] then 0 else StackSize(pending[..|pending| - 1]) + Size(pending[|pending| - 1].node)
  }

  /** What is still to be found on the stack, from the top down. */
  function WalkStack(pending: seq<Item>, counts: Counts): Walked
    decreases |pending|
  {
    if pending == [] then Walked([], counts)
    else
      var top := pending[|pending| - 1];
      var w := WalkNode(top.node, top.scope, top.inClass, counts);
      var rest := WalkStack(pending[..|pending| - 1], w.counts);
      Walked(w.entries + rest.entries, rest.counts)
  }

  lemma {:induction false} PushedWalks(pending: seq<Item>, children: seq<Node>, scope: string, inClass: bool,
                                       counts: Counts)
    ensures var w := Walk(children, scope, inClass, counts);
            WalkStack(pending + Pushed(children, scope, inClass), counts)
            == Walked(w.entries + WalkStack(pending, w.counts).entries, WalkStack(pending, w.counts).counts)
    decreases |children|
  {
    hide WalkNode;
    var stack := pending + Pushed(children, scope, inClass);
    if children == [] {
      assert stack == pending;
      assert [] + WalkStack(pending, counts).entries == WalkStack(pending, counts).entries;
    } else {
      var n := |stack| - 1;
      assert stack[..n] == pending + Pushed(children[1..], scope, inClass);
      assert stack[n] == Item(children[0], scope, inClass);
      var w := WalkNode(children[0], scope, inClass, counts);
      PushedWalks(pending, children[1..], scope, inClass, w.counts);
      var v := Walk(children[1..], scope, inClass, w.counts);
      var after := WalkStack(pending, v.counts);
      assert w.entries + (v.entries + after.entries) == w.entries + v.entries + after.entries;
    }
  }

  lemma {:induction false} PushedSize(pending: seq<Item>, children: seq<Node>, scope: string, inClass: bool)
    ensures StackSize(pending + Pushed(children, scope, inClass)) == StackSize(pending) + Sizes(children)
    decreases |children|
  {
    hide Size;
    var stack := pending + Pushed(children, scope, inClass);
    if children == [] {
      assert stack == pending;
    } else {
      assert stack[..|stack| - 1] == pending + Pushed(children[1..], scope, inClass);
      PushedSize(pending, children[1..], scope, inClass);
    }
  }

  lemma WalkThree(a: seq<Node>, b: seq<Node>, c: seq<Node>, scope: string, inClass: bool, counts: Counts)
    ensures var w1 := Walk(a, scope, inClass, counts);
            var w2 := Walk(b, scope, inClass, w1.counts);
            var w3 := Walk(c, scope, inClass, w2.counts);
            Walk(a + (b + c), scope, inClass, counts) == Walked(w1.entries + (w2.entries + w3.entries), w3.counts)
    ensures Sizes(a + (b + c)) == Sizes(a) + Sizes(b) + Sizes(c)
  {
    WalkConcat(a, b + c, scope, inClass, counts);
    WalkConcat(b, c, scope, inClass, Walk(a, scope, inClass, counts).counts);
    SizesConcat(a, b + c);
    SizesConcat(b, c);
  }

  /** A definition's children, walked one after the other in its own scope. */
  lemma DefinitionWalks(d: Node, scope: string, inClass: bool, counts: Counts)
    requires d.Definition?
    ensures var entry := EntryFor(RawKey(scope, d.name), d, inClass, counts);
            var inner := Walk(Children(d), entry.Key(), d.isClass, counts[entry.raw := entry.ordinal]);
            WalkNode(d, scope, inClass, counts) == Walked([entry] + inner.entries, inner.counts)
    ensures Sizes(Children(d)) < Size(d)
  {
    hide RawKey, CountOf, KindOf, KeyOf, Walk;
    var entry := EntryFor(RawKey(scope, d.name), d, inClass, counts);
    WalkThree(d.before, d.body, d.after, entry.Key(), d.isClass, counts[entry.raw := entry.ordinal]);
  }

  /** Popping a definition: it is found next, then its children in its own scope, then the rest. */
  lemma PopDefinition(rest: seq<Item>, d: Node, scope: string, inClass: bool, counts: Counts)
    requires d.Definition?
    ensures var entry := EntryFor(RawKey(scope, d.name), d, inClass, counts);
            var next := WalkStack(rest + Pushed(Children(d), entry.Key(), d.isClass),
                counts[entry.raw := entry.ordinal]);
            WalkStack(rest + [Item(d, scope, inClass)], counts) == Walked([entry] + next.entries, next.counts)
    ensures forall s, c :: StackSize(rest + Pushed(Children(d), s, c)) < StackSize(rest + [Item(d, scope, inClass)])
  {
    hide RawKey, CountOf, KindOf, Walk, WalkNode;
    var entry, stack := EntryFor(RawKey(scope, d.name), d, inClass, counts), rest + [Item(d, scope, inClass)];
    assert stack[..|rest|] == rest;
    DefinitionWalks(d, scope, inClass, counts);
    var next := counts[entry.raw := entry.ordinal];
    PushedWalks(rest, Children(d), entry.Key(), d.isClass, next);
    var inner := Walk(Children(d), entry.Key(), d.isClass, next);
    var after := WalkStack(rest, inner.counts);
    assert [entry] + inner.entries + after.entries == [entry] + (inner.entries + after.entries);
    forall s, c ensures StackSize(rest + Pushed(Children(d), s, c)) < StackSize(stack) {
      PushedSize(rest, Children(d), s, c);
    }
  }

  lemma PopPlain(rest: seq<Item>, node: Node, scope: string, inClass: bool, counts: Counts)
    requires node.Plain?
    ensures WalkStack(rest + [Item(node, scope, inClass)], counts)
            == WalkStack(rest + Pushed(node.children, scope, inClass), counts)
    ensures StackSize(rest + Pushed(node.children, scope, inClass)) < StackSize(rest + [Item(node, scope, inClass)])
  {
    assert (rest + [Item(node, scope, inClass)])[..|rest|] == rest;
    PushedWalks(rest, node.children, scope, inClass, counts);
    PushedSize(rest, node.children, scope, inClass);
  }

  /** The loop of `_index_symbols`: pop, record, push the children reversed. */
  method IndexSymbols(tree: seq<Node>, moduleName: string) returns (entries: seq<Entry>)
    ensures entries == Walk(tree, moduleName, false, map[]).entries
  {
    hide Walk, WalkNode, RawKey, Pushed, StackSize, KindOf, CountOf;
    entries := [];
    var counts: Counts := map[];
    var pending := [Item(Plain(tree), moduleName, false)];
    ghost var all := Walk(tree, moduleName, false, map[]);
    OnlyTree(tree, moduleName);
    while pending != []
      invariant all == Walked(entries + WalkStack(pending, counts).entries, WalkStack(pending, counts).counts)
      decreases StackSize(pending)
    {
      var n := |pending| - 1;
      var node, scope, inClass := pending[n].node, pending[n].scope, pending[n].inClass;
      var rest := pending[..n];
      assert pending == rest + [Item(node, scope, inClass)];
      if node.Definition? {
        PopDefinition(rest, node, scope, inClass, counts);
        var entry := EntryFor(RawKey(scope, node.name), node, inClass, counts);
        counts := counts[entry.raw := entry.ordinal];
        pending := rest + Pushed(Children(node), entry.Key(), node.isClass);
        ghost var later := WalkStack(pending, counts).entries;
        assert entries + ([entry] + later) == entries + [entry] + later;
        entries := entries + [entry];
      } else {
        PopPlain(rest, node, scope, inClass, counts);
        pending := rest + Pushed(node.children, scope, inClass);
      }
    }
  }

  lemma OnlyTree(tree: seq<Node>, moduleName: string)
    ensures WalkStack([Item(Plain(tree), moduleName, false)], map[]) == Walk(tree, moduleName, false, map[])
  {
    var stack := [Item(Plain(tree), moduleName, false)];
    assert stack[..0] == [] && WalkStack([], Walk(tree, moduleName, false, map[]).counts).entries == [];
  }

  // ----- the recursive walk of the graph builder

  function GraphWalkNode(node: Node, scope: string, counts: Counts): Walked
    decreases node, 0
  {
    match node
    case Plain(children) => GraphWalk(children, scope, counts)
    case Definition(name, isClass, start, end, _, body, _) =>
      var raw := GraphRawKey(scope, name);
      var entry := Entry(raw, CountOf(counts, raw) + 1, KindOf(isClass, false), start, end);
      var w := GraphWalk(body, entry.Key(), counts[raw := entry.ordinal]);
      Walked([entry] + w.entries, w.counts)
  }

  function GraphWalk(nodes: seq<Node>, scope: string, counts: Counts): Walked
    decreases nodes, 1
  {
    if nodes == [] then Walked([], counts)
    else
      var w := GraphWalkNode(nodes[0], scope, counts);
      var rest := GraphWalk(nodes[1..], scope, w.counts);
      Walked(w.entries + rest.entries, rest.counts)
  }

  /** The dictionaries the nested `walk` updates, and the graph nodes it adds in order. */
  class GraphBuilder {
    var counts: Counts
    var keys: seq<string>
    var changed: seq<bool>

    constructor ()
      ensures counts == map[] && keys == [] && changed == []
    {
      counts, keys, changed := map[], [], [];
    }

    /** Count, key and flag one definition: what `walk` does before it recurses. */
    method Define(raw: string, changedSymbols: set<string>) returns (key: string)
      modifies this
      ensures counts == old(counts)[raw := CountOf(old(counts), raw) + 1]
      ensures key == KeyOf(raw, CountOf(old(counts), raw) + 1)
      ensures keys == old(keys) + [key] && changed == old(changed) + [key in changedSymbols]
      ensures Flagged(old(keys), old(changed), changedSymbols) ==> Flagged(keys, changed, changedSymbols)
    {
      counts := counts[raw := CountOf(counts, raw) + 1];
      key := if counts[raw] == 1 then raw else raw + "#" + Decimal(counts[raw]);
      keys := keys + [key];
      changed := changed + [key in changedSymbols];
    }

    /** `walk`: the keys it defines, each flagged exactly when it is among the changed symbols. */
    method Visit(nodes: seq<Node>, scope: string, changedSymbols: set<string>)
      modifies this
      ensures counts == GraphWalk(nodes, scope, old(counts)).counts
      ensures keys == old(keys) + KeysOf(GraphWalk(nodes, scope, old(counts)).entries)
      ensures Flagged(old(keys), old(changed), changedSymbols) ==> Flagged(keys, changed, changedSymbols)
      decreases nodes, 1
    {
      hide GraphWalkNode, Flagged;
      if nodes == [] {
        assert keys == keys + KeysOf([]);
        return;
      }
      ghost var w := GraphWalkNode(nodes[0], scope, counts);
      VisitNode(nodes[0], scope, changedSymbols);
      ghost var rest := GraphWalk(nodes[1..], scope, counts);
      Visit(nodes[1..], scope, changedSymbols);
      KeysConcat(w.entries, rest.entries);
      assert old(keys) + KeysOf(w.entries) + KeysOf(rest.entries)
          == old(keys) + (KeysOf(w.entries) + KeysOf(rest.entries));
    }

    /** One child of `walk`: a definition is counted, keyed and entered; anything else is looked through. */
    method VisitNode(node: Node, scope: string, changedSymbols: set<string>)
      modifies this
      ensures counts == GraphWalkNode(node, scope, old(counts)).counts
      ensures keys == old(keys) + KeysOf(GraphWalkNode(node, scope, old(counts)).entries)
      ensures Flagged(old(keys), old(changed), changedSymbols) ==> Flagged(keys, changed, changedSymbols)
      decreases node, 0
    {
      hide GraphRawKey, CountOf, KindOf, KeyOf, Flagged, GraphWalk;
      if node.Plain? {
        Visit(node.children, scope, changedSymbols);
      } else {
        ghost var w := GraphWalkNode(node, scope, counts);
        var key := Define(GraphRawKey(scope, node.name), changedSymbols);
        ghost var inner := GraphWalk(node.body, key, counts);
        Visit(node.body, key, changedSymbols);
        KeysConcat([w.entries[0]], inner.entries);
        assert old(keys) + [key] + KeysOf(inner.entries) == old(keys) + ([key] + KeysOf(inner.entries));
      }
    }
  }

  predicate Flagged(keys: seq<string>, changed: seq<bool>, changedSymbols: set<string>) {
    |changed| == |keys| && forall i :: 0 <= i < |keys| ==> changed[i] == (keys[i] in changedSymbols)
  }

  function KeysOf(entries: seq<Entry>): (keys: seq<string>)
    ensures |keys| == |entries| && forall i :: 0 <= i < |entries| ==> keys[i] == entries[i].Key()
  {
    seq(|entries|, i requires 0 <= i < |entries| => entries[i].Key())
  }

  lemma KeysConcat(a: seq<Entry>, b: seq<Entry>)
    ensures KeysOf(a + b) == KeysOf(a) + KeysOf(b)
  {
  }

  // ----- the two walks agree

  /** The same definition, up to how each walk classifies it. */
  predicate SameEntries(a: seq<Entry>, b: seq<Entry>) {
    && |a| == |b|
    && forall i :: 0 <= i < |a| ==>
         a[i].raw == b[i].raw && a[i].ordinal == b[i].ordinal && a[i].start == b[i].start && a[i].end == b[i].end
  }

  lemma SameEntriesUnder(x: Entry, y: Entry, a: seq<Entry>, b: seq<Entry>)
    requires x.(kind := y.kind) == y && SameEntries(a, b)
    ensures SameEntries([x] + ([] + (a + [])), [y] + b)
  {
    assert [] + (a + []) == a;
  }

  lemma {:induction false} WalkNodesAgree(node: Node, scope: string, inClass: bool, counts: Counts)
    requires GoodTree(node) && scope != ""
    ensures SameEntries(WalkNode(node, scope, inClass, counts).entries, GraphWalkNode(node, scope, counts).entries)
    ensures WalkNode(node, scope, inClass, counts).counts == GraphWalkNode(node, scope, counts).counts
    decreases node, 0
  {
    match node {
      case Plain(children) => WalksAgreeIn(children, scope, inClass, counts);
      case Definition(name, isClass, _, _, before, body, after) =>
        assert RawKey(scope, name) == GraphRawKey(scope, name) && RawKey(scope, name) != "";
        hide RawKey, GraphRawKey, CountOf, KindOf, Walk, GraphWalk, NoDefinitions, GoodName;
        var entry := EntryFor(RawKey(scope, name), node, inClass, counts);
        var next := counts[entry.raw := entry.ordinal];
        NothingToFind(before, entry.Key(), isClass, next);
        WalksAgreeIn(body, entry.Key(), isClass, next);
        NothingToFind(after, entry.Key(), isClass, Walk(body, entry.Key(), isClass, next).counts);
        SameEntriesUnder(entry, Entry(entry.raw, entry.ordinal, KindOf(isClass, false), entry.start, entry.end),
                         Walk(body, entry.Key(), isClass, next).entries, GraphWalk(body, entry.Key(), next).entries);
    }
  }

  lemma {:induction false} WalksAgreeIn(nodes: seq<Node>, scope: string, inClass: bool, counts: Counts)
    requires GoodTrees(nodes) && scope != ""
    ensures SameEntries(Walk(nodes, scope, inClass, counts).entries, GraphWalk(nodes, scope, counts).entries)
    ensures Walk(nodes, scope, inClass, counts).counts == GraphWalk(nodes, scope, counts).counts
    decreases nodes, 1
  {
    if nodes != [] {
      WalkNodesAgree(nodes[0], scope, inClass, counts);
      WalksAgreeIn(nodes[1..], scope, inClass, WalkNode(nodes[0], scope, inClass, counts).counts);
    }
  }

  /** With an empty module name the two walks already disagree on the first definition. */
  lemma {:induction false} EmptyScopeDisagrees(nodes: seq<Node>, inClass: bool, counts: Counts)
    requires GoodTrees(nodes) && !NoDefinitions(nodes)
    ensures KeysOf(Walk(nodes, "", inClass, counts).entries) != KeysOf(GraphWalk(nodes, "", counts).entries)
  {
    FirstKeys(nodes, inClass, counts);
    var a, b := Walk(nodes, "", inClass, counts).entries, GraphWalk(nodes, "", counts).entries;
    assert KeysOf(a)[0][0] == '.';
    assert KeysOf(b)[0][0] != '.';
  }

  lemma {:induction false} FirstKeys(nodes: seq<Node>, inClass: bool, counts: Counts)
    requires GoodTrees(nodes) && !NoDefinitions(nodes)
    ensures var a, b := Walk(nodes, "", inClass, counts).entries, GraphWalk(nodes, "", counts).entries;
            a != [] && b != [] && a[0].raw != "" && a[0].raw[0] == '.' && b[0].raw != "" && b[0].raw[0] != '.'
  {
    if nodes[0].Plain? {
      if NoDefinitions(nodes[0].children) {
        NothingToFind(nodes[0].children, "", inClass, counts);
        NothingInGraph(nodes[0].children, "", counts);
        FirstKeys(nodes[1..], inClass, counts);
      } else {
        FirstKeys(nodes[0].children, inClass, counts);
      }
    }
  }

  lemma {:induction false} NothingInGraph(nodes: seq<Node>, scope: string, counts: Counts)
    requires NoDefinitions(nodes)
    ensures GraphWalk(nodes, scope, counts) == Walked([], counts)
  {
    if nodes != [] {
      NothingInGraph(nodes[0].children, scope, counts);
      NothingInGraph(nodes[1..], scope, counts);
    }
  }

  /** Symbol extraction and the graph builder give every definition of a module the same key, in the same
      order, if and only if the module has a name or has no definitions. */
  lemma TwoWalksAgreeIff(tree: seq<Node>, moduleName: string)
    requires GoodTrees(tree)
    ensures KeysOf(Walk(tree, moduleName, false, map[]).entries) == KeysOf(GraphWalk(tree, moduleName, map[]).entries)
            <==> moduleName != "" || NoDefinitions(tree)
  {
    if moduleName != "" {
      WalksAgreeIn(tree, moduleName, false, map[]);
    } else if NoDefinitions(tree) {
      NothingToFind(tree, moduleName, false, map[]);
      NothingInGraph(tree, moduleName, map[]);
    } else {
      EmptyScopeDisagrees(tree, false, map[]);
    }
  }

  /** With an empty module name every extracted key begins with a dot. */
  lemma {:induction false} ExtractedDotted(nodes: seq<Node>, scope: string, inClass: bool, counts: Counts)
    requires scope == "" || scope[0] == '.'
    ensures forall e :: e in Walk(nodes, scope, inClass, counts).entries ==> e.raw != "" && e.raw[0] == '.'
    decreases nodes, 1
  {
    if nodes != [] {
      ExtractedDottedIn(nodes[0], scope, inClass, counts);
      ExtractedDotted(nodes[1..], scope, inClass, WalkNode(nodes[0], scope, inClass, counts).counts);
    }
  }

  lemma {:induction false} ExtractedDottedIn(node: Node, scope: string, inClass: bool, counts: Counts)
    requires scope == "" || scope[0] == '.'
    ensures forall e :: e in WalkNode(node, scope, inClass, counts).entries ==> e.raw != "" && e.raw[0] == '.'
    decreases node, 0
  {
    match node {
      case Plain(children) => ExtractedDotted(children, scope, inClass, counts);
      case Definition(name, isClass, _, _, before, body, after) =>
        var entry := EntryFor(RawKey(scope, name), node, inClass, counts);
        var next := counts[entry.raw := entry.ordinal];
        var a := Walk(before, entry.Key(), isClass, next);
        var b := Walk(body, entry.Key(), isClass, a.counts);
        ExtractedDotted(before, entry.Key(), isClass, next);
        ExtractedDotted(body, entry.Key(), isClass, a.counts);
        ExtractedDotted(after, entry.Key(), isClass, b.counts);
    }
  }

  /** The graph's key is the key of a changed definition. */
  predicate FlaggedAs(key: string, keys: seq<string>, changed: seq<bool>)
    requires |changed| == |keys|
  {
    exists i :: 0 <= i < |keys| && keys[i] == key && changed[i]
  }

  /** If the graph's keys carry the flags that `changedSymbols` gives them, `key` is flagged exactly when it is an
      extracted key among the changed symbols. */
  predicate FlagsExtracted(tree: seq<Node>, moduleName: string, changedSymbols: set<string>, changed: seq<bool>,
                           key: string)
  {
    var keys := KeysOf(GraphWalk(tree, moduleName, map[]).entries);
    Flagged(keys, changed, changedSymbols) ==>
      (FlaggedAs(key, keys, changed) <==>
         key in changedSymbols && key in KeysOf(Walk(tree, moduleName, false, map[]).entries))
  }

  /** What the graph builder flags are the extracted definitions among the changed symbols, whatever symbols changed,
      if and only if the module has a name or nothing is defined. */
  lemma FlaggedAreExtractedIff(tree: seq<Node>, moduleName: string)
    requires GoodTrees(tree)
    ensures moduleName != "" || NoDefinitions(tree) <==>
              forall changedSymbols, changed, key :: FlagsExtracted(tree, moduleName, changedSymbols, changed, key)
  {
    TwoWalksAgreeIff(tree, moduleName);
    if moduleName == "" && !NoDefinitions(tree) {
      UnnamedFlagsDiffer(tree);
    }
  }

  lemma UnnamedFlagsDiffer(tree: seq<Node>)
    requires GoodTrees(tree) && !NoDefinitions(tree)
    ensures exists changedSymbols, changed, key :: !FlagsExtracted(tree, "", changedSymbols, changed, key)
  {
    FirstKeys(tree, false, map[]);
    ExtractedDotted(tree, "", false, map[]);
    hide Walk, GraphWalk, GoodTrees, NoDefinitions;
    var keys := KeysOf(GraphWalk(tree, "", map[]).entries);
    var changed := seq(|keys|, i requires 0 <= i < |keys| => keys[i] == keys[0]);
    assert Flagged(keys, changed, {keys[0]}) && FlaggedAs(keys[0], keys, changed);
    assert keys[0][0] != '.';
    assert !FlagsExtracted(tree, "", {keys[0]}, changed, keys[0]);
  }
}
