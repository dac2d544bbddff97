/** Every definition of a module gets its own key. */
module SymbolKeys {
  import opened Common
  import opened Text
  import opened Symbols

  // ----- a key determines name and ordinal

  ghost predicate GoodRaw(raw: string) {
    exists scope, name :: GoodName(name) && raw == RawKey(scope, name)
  }

  /** The part of a key after its last dot. */
  function Tail(name: string, ordinal: nat): string {
    if ordinal <= 1 then name else name + "#" + Decimal(ordinal)
  }

  lemma KeyShape(scope: string, name: string, ordinal: nat)
    requires GoodName(name)
    ensures KeyOf(RawKey(scope, name), ordinal) == scope + "." + Tail(name, ordinal)
    ensures '.' !in Tail(name, ordinal)
  {
    var digits := Decimal(ordinal);
    assert forall i :: 0 <= i < |digits| ==> IsDigit(digits[i]);
    assert scope + "." + name + "#" + digits == scope + "." + (name + "#" + digits);
  }

  function LastIndex(s: string, c: char): int {
    if s == "" then -1 else if s[|s| - 1] == c then |s| - 1 else LastIndex(s[..|s| - 1], c)
  }

  function FirstIndex(s: string, c: char): int {
    if s == "" then 0 else if s[0] == c then 0 else 1 + FirstIndex(s[1..], c)
  }

  lemma {:induction false} LastIndexOf(a: string, s: string)
    requires '.' !in s
    ensures LastIndex(a + "." + s, '.') == |a|
  {
    if s == "" {
      assert a + "." + s == a + ".";
    } else {
      var key := a + "." + s;
      assert key[..|key| - 1] == a + "." + s[..|s| - 1];
      LastIndexOf(a, s[..|s| - 1]);
    }
  }

  lemma {:induction false} FirstIndexOf(m: string, s: string)
    requires '#' !in m
    ensures FirstIndex(m + "#" + s, '#') == |m|
  {
    if m == "" {
      assert m + "#" + s == "#" + s;
    } else {
      assert (m + "#" + s)[1..] == m[1..] + "#" + s;
      FirstIndexOf(m[1..], s);
    }
  }

  lemma LastDot(a: string, s: string, b: string, t: string)
    requires a + "." + s == b + "." + t && '.' !in s && '.' !in t
    ensures a == b && s == t
  {
    LastIndexOf(a, s);
    LastIndexOf(b, t);
    var key := a + "." + s;
    assert a == key[..|a|] && s == key[|a| + 1..] && b == key[..|b|] && t == key[|b| + 1..];
  }

  lemma FirstHash(m: string, s: string, n: string, t: string)
    requires m + "#" + s == n + "#" + t && '#' !in m && '#' !in n
    ensures m == n && s == t
  {
    FirstIndexOf(m, s);
    FirstIndexOf(n, t);
    var tail := m + "#" + s;
    assert m == tail[..|m|] && s == tail[|m| + 1..] && n == tail[..|n|] && t == tail[|n| + 1..];
  }

  lemma HashMeansRepeated(name: string, ordinal: nat)
    requires GoodName(name)
    ensures '#' in Tail(name, ordinal) <==> ordinal > 1
  {
    if ordinal > 1 {
      assert Tail(name, ordinal)[|name|] == '#';
    }
  }

  lemma TailDetermines(m: string, i: nat, n: string, j: nat)
    requires GoodName(m) && GoodName(n) && i >= 1 && j >= 1 && Tail(m, i) == Tail(n, j)
    ensures m == n && i == j
  {
    HashMeansRepeated(m, i);
    HashMeansRepeated(n, j);
    if i > 1 {
      FirstHash(m, Decimal(i), n, Decimal(j));
      NatOfDecimal(i);
      NatOfDecimal(j);
    }
  }

  lemma KeyDetermines(a: string, i: nat, b: string, j: nat)
    requires GoodRaw(a) && GoodRaw(b) && i >= 1 && j >= 1 && KeyOf(a, i) == KeyOf(b, j)
    ensures a == b && i == j
  {
    var s, m :| GoodName(m) && a == RawKey(s, m);
    var t, n :| GoodName(n) && b == RawKey(t, n);
    KeyShape(s, m, i);
    KeyShape(t, n, j);
    LastDot(s, Tail(m, i), t, Tail(n, j));
    TailDetermines(m, i, n, j);
  }

  // ----- ordinals count upwards

  /** From counts `before` to counts `after`, every name's ordinals continue upwards along the entries. */
  ghost predicate Counted(entries: seq<Entry>, before: Counts, after: Counts) {
    && (forall raw :: CountOf(before, raw) <= CountOf(after, raw))
    && (forall i :: 0 <= i < |entries| ==>
          && GoodRaw(entries[i].raw)
          && CountOf(before, entries[i].raw) < entries[i].ordinal <= CountOf(after, entries[i].raw))
    && forall i, j :: 0 <= i < j < |entries| && entries[i].raw == entries[j].raw ==>
        entries[i].ordinal < entries[j].ordinal
  }

  lemma CountedConcat(a: seq<Entry>, b: seq<Entry>, c0: Counts, c1: Counts, c2: Counts)
    requires Counted(a, c0, c1) && Counted(b, c1, c2)
    ensures Counted(a + b, c0, c2)
  {
    hide GoodRaw;
  }

  lemma EntryCounted(raw: string, d: Node, inClass: bool, counts: Counts)
    requires d.Definition? && GoodRaw(raw)
    ensures var entry := EntryFor(raw, d, inClass, counts);
            Counted([entry], counts, counts[raw := entry.ordinal])
  {
    hide GoodRaw;
  }

  lemma {:induction false} NodeCounted(node: Node, scope: string, inClass: bool, counts: Counts)
    requires GoodTree(node)
    ensures var w := WalkNode(node, scope, inClass, counts); Counted(w.entries, counts, w.counts)
    decreases node, 0
  {
    hide Counted, GoodRaw, RawKey, KeyOf, CountOf;
    match node {
      case Plain(children) => WalkCounted(children, scope, inClass, counts);
      case Definition(name, isClass, _, _, before, body, after) =>
        var raw := RawKey(scope, name);
        NamedRaw(scope, name);
        var entry := EntryFor(raw, node, inClass, counts);
        EntryCounted(raw, node, inClass, counts);
        var next := counts[raw := entry.ordinal];
        NothingToFind(before, entry.Key(), isClass, next);
        WalkCounted(body, entry.Key(), isClass, next);
        var w := Walk(body, entry.Key(), isClass, next);
        NothingToFind(after, entry.Key(), isClass, w.counts);
        CountedConcat([entry], w.entries, counts, next, w.counts);
        assert WalkNode(node, scope, inClass, counts).entries == [entry] + w.entries;
    }
  }

  lemma NamedRaw(scope: string, name: string)
    requires GoodName(name)
    ensures GoodRaw(RawKey(scope, name))
  {
  }

  lemma {:induction false} WalkCounted(nodes: seq<Node>, scope: string, inClass: bool, counts: Counts)
    requires GoodTrees(nodes)
    ensures var w := Walk(nodes, scope, inClass, counts); Counted(w.entries, counts, w.counts)
    decreases nodes, 1
  {
    if nodes != [] {
      NodeCounted(nodes[0], scope, inClass, counts);
      var w := WalkNode(nodes[0], scope, inClass, counts);
      WalkCounted(nodes[1..], scope, inClass, w.counts);
      var rest := Walk(nodes[1..], scope, inClass, w.counts);
      CountedConcat(w.entries, rest.entries, counts, w.counts, rest.counts);
    }
  }

  /** All symbol keys of a module are distinct, however names repeat and nest. */
  lemma KeysAreDistinct(tree: seq<Node>, moduleName: string)
    requires GoodTrees(tree)
    ensures Distinct(KeysOf(Walk(tree, moduleName, false, map[]).entries))
  {
    hide Walk, KeyOf, GoodRaw;
    WalkCounted(tree, moduleName, false, map[]);
    var entries := Walk(tree, moduleName, false, map[]).entries;
    forall i, j | 0 <= i < j < |entries| ensures KeysOf(entries)[i] != KeysOf(entries)[j] {
      if entries[i].Key() == entries[j].Key() {
        KeyDetermines(entries[i].raw, entries[i].ordinal, entries[j].raw, entries[j].ordinal);
      }
    }
  }
}
