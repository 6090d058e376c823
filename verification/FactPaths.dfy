/** Under which path the flattened table holds a value: every leaf under its own, through objects and arrays. */
module FactPaths {
  import opened Prelude
  import opened Facts
  import M = RuleMessages

  // ---------------------------------------------------------------- places in a document

  /** One step towards a place: into an object or to an item of an array. */
  datatype Hop = Into(key: string) | At(i: nat)

  /** The text of the first `n` steps: keys with dots between them, and indexes in brackets. */
  function PathOf(hops: seq<Hop>, n: nat): string
    requires n <= |hops|
  {
    if n == 0 then ""
    else match hops[n - 1]
      case Into(key) => JoinPath(PathOf(hops, n - 1), key)
      case At(i) => ItemPath(PathOf(hops, n - 1), i)
  }

  /** Where the steps from `k` on lead. */
  function Leads(node: Json, hops: seq<Hop>, k: nat): Option<Json>
    requires k <= |hops|
    decreases |hops| - k
  {
    if k == |hops| then Some(node)
    else match hops[k]
      case Into(key) => (match Get(node, key) case Some(v) => Leads(v, hops, k + 1) case None => None)
      case At(i) => if node.JArr? && i < |node.items| then Leads(node.items[i], hops, k + 1) else None
  }

  // ---------------------------------------------------------------- heads of a path

  /** The path goes on behind the head with another step. */
  predicate Extends(head: string, path: string) {
    head == "" || (|head| < |path| && path[..|head|] == head && path[|head|] in {'.', '['})
  }

  predicate IsHead(head: string, path: string) { path == head || Extends(head, path) }

  /** One key behind a prefix. */
  lemma {:induction false} KeyHead(prefix: string, key: string, path: string)
    requires GoodKey(key) && IsHead(JoinPath(prefix, key), path)
    ensures Extends(prefix, path)
    ensures var from := if prefix == "" then 0 else |prefix| + 1; var to := from + |key|;
            to <= |path| && path[from..to] == key && (to < |path| ==> path[to] in {'.', '['})
  {
    var head := JoinPath(prefix, key);
    var from := if prefix == "" then 0 else |prefix| + 1;
    assert head[from..] == key;
    assert path[..|head|] == head;
    assert path[from..|head|] == path[..|head|][from..];
    if prefix != "" {
      assert path[..|prefix|] == path[..|head|][..|prefix|] == prefix && path[|prefix|] == head[|prefix|] == '.';
    }
  }

  /** Two segments that end at the same signs are the same. */
  lemma {:induction false} OneSegment(path: string, from: nat, a: string, b: string, ends: set<char>)
    requires OccursAt(path, from, a) && forall k :: 0 <= k < |a| ==> a[k] !in ends
    requires OccursAt(path, from, b) && forall k :: 0 <= k < |b| ==> b[k] !in ends
    requires from + |a| < |path| ==> path[from + |a|] in ends
    requires from + |b| < |path| ==> path[from + |b|] in ends
    ensures a == b
  {
    if |a| < |b| {
      OccursAtChar(path, from, b, |a|);
    }
    if |b| < |a| {
      OccursAtChar(path, from, a, |b|);
    }
  }

  /** Only one key can stand there. */
  lemma {:induction false} OneKey(prefix: string, a: string, b: string, path: string)
    requires GoodKey(a) && GoodKey(b) && IsHead(JoinPath(prefix, a), path) && IsHead(JoinPath(prefix, b), path)
    ensures a == b
  {
    hide JoinPath, IsHead, GoodKey;
    KeyHead(prefix, a, path);
    KeyHead(prefix, b, path);
    PlainKey(a);
    PlainKey(b);
    OneSegment(path, if prefix == "" then 0 else |prefix| + 1, a, b, {'.', '['});
  }

  lemma {:induction false} PlainKey(key: string)
    requires GoodKey(key)
    ensures forall k :: 0 <= k < |key| ==> key[k] !in {'.', '['}
  {
  }

  lemma {:induction false} ItemHead(prefix: string, i: nat, path: string)
    requires IsHead(ItemPath(prefix, i), path)
    ensures Extends(prefix, path)
    ensures var from := |prefix| + 1; var to := from + |Digits(i)|;
            to < |path| && path[from..to] == Digits(i) && path[to] == ']'
  {
    var head := ItemPath(prefix, i);
    var from := |prefix| + 1;
    var to := from + |Digits(i)|;
    assert head[from..to] == Digits(i) && head[to] == ']' && head[|prefix|] == '[' && head[..|prefix|] == prefix;
    assert path[..|head|] == head;
    assert path[from..to] == path[..|head|][from..to] && path[to] == path[..|head|][to];
    assert path[|prefix|] == path[..|head|][|prefix|] && path[..|prefix|] == path[..|head|][..|prefix|];
  }

  lemma {:induction false} OneItem(prefix: string, i: nat, j: nat, path: string)
    requires IsHead(ItemPath(prefix, i), path) && IsHead(ItemPath(prefix, j), path)
    ensures i == j
  {
    hide ItemPath, IsHead;
    ItemHead(prefix, i, path);
    ItemHead(prefix, j, path);
    DigitsHaveNoBracket(i);
    DigitsHaveNoBracket(j);
    OneSegment(path, |prefix| + 1, Digits(i), Digits(j), {']'});
    DecimalOfDigits(i);
    DecimalOfDigits(j);
  }

  lemma {:induction false} DigitsHaveNoBracket(n: nat)
    ensures forall k :: 0 <= k < |Digits(n)| ==> Digits(n)[k] != ']'
  {
    forall k | 0 <= k < |Digits(n)| ensures Digits(n)[k] != ']' {
      assert Digits(n)[k] in Digits(n);
    }
  }

  // ---------------------------------------------------------------- paths elsewhere

  /** A walk below a prefix leaves every path alone that does not go on behind it. */
  lemma {:induction false} CollectsBelow(node: Json, prefix: string, t: Table, path: string)
    requires GoodKeys(node) && !Extends(prefix, path)
    ensures Lookup(Collect(node, prefix, t).full, path) == Lookup(t.full, path)
    decreases node, 1
  {
    hide Extends;
    match node
    case JObj(fields) => FieldsBelow(fields, |fields|, prefix, t, path);
    case JArr(items) => ItemsBelow(items, |items|, prefix, t, path);
    case _ =>
  }

  lemma {:induction false} FieldsBelow(fields: seq<Field>, n: nat, prefix: string, t: Table, path: string)
    requires GoodKeys(JObj(fields)) && n <= |fields| && !Extends(prefix, path)
    ensures Lookup(CollectFields(fields, n, prefix, t).full, path) == Lookup(t.full, path)
    decreases fields, 0, n
  {
    hide Collect, Extends, JoinPath, IsHead, GoodKey;
    if n > 0 {
      FieldsBelow(fields, n - 1, prefix, t, path);
      var (f, before) := (fields[n - 1], CollectFields(fields, n - 1, prefix, t));
      NoHeadBelow(prefix, f.name, path);
      FieldElsewhere(f, prefix, before, path);
    }
  }

  lemma {:induction false} NoHeadBelow(prefix: string, key: string, path: string)
    requires GoodKey(key) && !Extends(prefix, path)
    ensures !IsHead(JoinPath(prefix, key), path)
  {
    hide JoinPath, GoodKey, Extends;
    if IsHead(JoinPath(prefix, key), path) {
      KeyHead(prefix, key, path);
    }
  }

  /** A field that is no head of a path does not touch it. */
  lemma {:induction false} FieldElsewhere(f: Field, prefix: string, t: Table, path: string)
    requires GoodKeys(f.value) && !IsHead(JoinPath(prefix, f.name), path)
    ensures Lookup(CollectField(f, prefix, t).full, path) == Lookup(t.full, path)
    decreases f, 2
  {
    hide Collect, Extends, JoinPath;
    if f.value.IsContainer() {
      CollectsBelow(f.value, JoinPath(prefix, f.name), t, path);
    }
  }

  lemma {:induction false} ItemsBelow(items: seq<Json>, n: nat, prefix: string, t: Table, path: string)
    requires GoodKeys(JArr(items)) && n <= |items| && !Extends(prefix, path)
    ensures Lookup(CollectItems(items, n, prefix, t).full, path) == Lookup(t.full, path)
    decreases items, 0, n
  {
    hide Collect, Extends, ItemPath, IsHead;
    if n > 0 {
      ItemsBelow(items, n - 1, prefix, t, path);
      NoItemBelow(prefix, n - 1, path);
      ItemElsewhere(items[n - 1], ItemPath(prefix, n - 1), CollectItems(items, n - 1, prefix, t), path);
    }
  }

  lemma {:induction false} NoItemBelow(prefix: string, i: nat, path: string)
    requires !Extends(prefix, path)
    ensures !IsHead(ItemPath(prefix, i), path)
  {
    hide ItemPath, Extends;
    if IsHead(ItemPath(prefix, i), path) {
      ItemHead(prefix, i, path);
    }
  }

  lemma {:induction false} ItemElsewhere(item: Json, head: string, t: Table, path: string)
    requires GoodKeys(item) && !IsHead(head, path)
    ensures Lookup(CollectItem(item, head, t).full, path) == Lookup(t.full, path)
    decreases item, 2
  {
    hide Collect, Extends;
    if item.IsContainer() {
      CollectsBelow(item, head, t, path);
    }
  }

  // ---------------------------------------------------------------- the path of a leaf

  lemma {:induction false} PathGoesOn(hops: seq<Hop>, k: nat, n: nat)
    requires k <= n <= |hops| && forall i :: 0 <= i < |hops| && hops[i].Into? ==> GoodKey(hops[i].key)
    ensures IsHead(PathOf(hops, k), PathOf(hops, n)) && (k < n ==> Extends(PathOf(hops, k), PathOf(hops, n)))
    ensures 0 < n ==> PathOf(hops, n) != ""
  {
    if k < n {
      PathGoesOn(hops, k, n - 1);
      ExtendsFurther(PathOf(hops, k), PathOf(hops, n - 1), hops[n - 1]);
      assert PathOf(hops, n) == NextPath(PathOf(hops, n - 1), hops[n - 1]);
    } else if n > 0 {
      PathGoesOn(hops, n - 1, n - 1);
      ExtendsFurther("", PathOf(hops, n - 1), hops[n - 1]);
      assert PathOf(hops, n) == NextPath(PathOf(hops, n - 1), hops[n - 1]);
    }
  }

  function NextPath(path: string, hop: Hop): string {
    match hop case Into(key) => JoinPath(path, key) case At(i) => ItemPath(path, i)
  }

  lemma {:induction false} ExtendsFurther(head: string, path: string, hop: Hop)
    requires IsHead(head, path) && (hop.Into? ==> GoodKey(hop.key))
    ensures Extends(head, NextPath(path, hop)) && NextPath(path, hop) != ""
  {
    if head != "" {
      assert NextPath(path, hop)[..|path|] == path && NextPath(path, hop)[|path|] in {'.', '['};
      assert NextPath(path, hop)[..|head|] == path[..|head|];
    }
  }

  /** The walk from a place on puts the leaf that the steps lead to under their path. */
  lemma {:induction false} LeafIsCollected(node: Json, hops: seq<Hop>, k: nat, t: Table, v: Json)
    requires GoodKeys(node) && k < |hops| && Leads(node, hops, k) == Some(v) && !v.IsContainer()
    requires forall i :: 0 <= i < |hops| && hops[i].Into? ==> GoodKey(hops[i].key)
    ensures Lookup(Collect(node, PathOf(hops, k), t).full, PathOf(hops, |hops|)) == Some(v)
    decreases node, 1
  {
    hide Extends, JoinPath, ItemPath, GoodKey, PathOf;
    match hops[k]
    case Into(key) =>
      var p := Facts.Position(node.fields, key, 0);
      FieldIsCollected(node.fields, |node.fields|, p, hops, k, t, v);
    case At(i) => ItemIsCollected(node.items, |node.items|, i, hops, k, t, v);
  }

  lemma {:induction false} FieldIsCollected(fields: seq<Field>, n: nat, p: nat, hops: seq<Hop>, k: nat, t: Table,
      v: Json)
    requires GoodKeys(JObj(fields)) && p < n <= |fields| && k < |hops| && hops[k] == Into(fields[p].name)
    requires Leads(fields[p].value, hops, k + 1) == Some(v) && !v.IsContainer()
    requires forall i :: 0 <= i < |hops| && hops[i].Into? ==> GoodKey(hops[i].key)
    ensures Lookup(CollectFields(fields, n, PathOf(hops, k), t).full, PathOf(hops, |hops|)) == Some(v)
    decreases fields, 0, n
  {
    hide Collect, Extends, JoinPath, ItemPath, GoodKey, PathOf, IsHead;
    var (prefix, path, f) := (PathOf(hops, k), PathOf(hops, |hops|), fields[n - 1]);
    var before := CollectFields(fields, n - 1, prefix, t);
    PathGoesOn(hops, k + 1, |hops|);
    NextIs(hops, k);
    if n - 1 == p {
      if k + 1 < |hops| {
        LeadsIntoContainer(f.value, hops, k + 1);
        LeafIsCollected(f.value, hops, k + 1, before, v);
      }
    } else {
      FieldIsCollected(fields, n - 1, p, hops, k, t, v);
      if IsHead(JoinPath(prefix, f.name), path) {
        OneKey(prefix, f.name, fields[p].name, path);
      }
      FieldElsewhere(f, prefix, before, path);
    }
  }

  lemma {:induction false} NextIs(hops: seq<Hop>, k: nat)
    requires k < |hops|
    ensures PathOf(hops, k + 1) == NextPath(PathOf(hops, k), hops[k])
  {
  }

  lemma {:induction false} LeadsIntoContainer(node: Json, hops: seq<Hop>, k: nat)
    requires k < |hops| && Leads(node, hops, k).Some?
    ensures node.IsContainer()
  {
  }

  lemma {:induction false} ItemIsCollected(items: seq<Json>, n: nat, p: nat, hops: seq<Hop>, k: nat, t: Table, v: Json)
    requires GoodKeys(JArr(items)) && p < n <= |items| && k < |hops| && hops[k] == At(p)
    requires Leads(items[p], hops, k + 1) == Some(v) && !v.IsContainer()
    requires forall i :: 0 <= i < |hops| && hops[i].Into? ==> GoodKey(hops[i].key)
    ensures Lookup(CollectItems(items, n, PathOf(hops, k), t).full, PathOf(hops, |hops|)) == Some(v)
    decreases items, 0, n
  {
    hide Collect, Extends, JoinPath, ItemPath, GoodKey, PathOf, IsHead;
    var (prefix, path, item) := (PathOf(hops, k), PathOf(hops, |hops|), items[n - 1]);
    var before := CollectItems(items, n - 1, prefix, t);
    PathGoesOn(hops, k + 1, |hops|);
    NextIs(hops, k);
    if n - 1 == p {
      if k + 1 < |hops| {
        LeadsIntoContainer(item, hops, k + 1);
        LeafIsCollected(item, hops, k + 1, before, v);
      }
    } else {
      ItemIsCollected(items, n - 1, p, hops, k, t, v);
      if IsHead(ItemPath(prefix, n - 1), path) {
        OneItem(prefix, n - 1, p, path);
      }
      ItemElsewhere(item, ItemPath(prefix, n - 1), before, path);
    }
  }

  /** Every leaf of a document is in the table under its path. */
  lemma {:induction false} TableHoldsLeaves(doc: Json, hops: seq<Hop>, v: Json)
    requires GoodKeys(doc) && hops != [] && Leads(doc, hops, 0) == Some(v) && !v.IsContainer()
    requires forall i :: 0 <= i < |hops| && hops[i].Into? ==> GoodKey(hops[i].key)
    ensures Lookup(Collect(doc, "", EMPTY_TABLE).full, PathOf(hops, |hops|)) == Some(v)
  {
    hide Collect, GoodKey;
    LeafIsCollected(doc, hops, 0, EMPTY_TABLE, v);
  }

  /**
   * The walker reads an index differently: it drops the key in front of the bracket. So an item of an array under a
   * key is in the table, but the path that the table has for it leads nowhere.
   */
  lemma {:induction false} IndexesDisagree(h: Host, fields: seq<Field>, key: string, items: seq<Json>, i: nat)
    requires GoodKeys(JObj(fields)) && GoodKey(key) && Get(JObj(fields), key) == Some(JArr(items))
    requires i < |items| && !items[i].IsContainer()
    ensures var path := key + "[" + Digits(i) + "]";
            && Lookup(Collect(JObj(fields), "", EMPTY_TABLE).full, path) == Some(items[i])
            && Resolve(h, JObj(fields), path, 0).None?
  {
    hide Collect, GoodKeys, Get, Resolve;
    var hops := [Into(key), At(i)];
    assert Leads(JArr(items), hops, 1) == Leads(items[i], hops, 2);
    assert PathOf(hops, 0) == "" && PathOf(hops, 1) == key && PathOf(hops, 2) == key + "[" + Digits(i) + "]";
    TableHoldsLeaves(JObj(fields), hops, items[i]);
    BracketLeadsNowhere(h, fields, key, i);
  }

  lemma {:induction false} BracketLeadsNowhere(h: Host, fields: seq<Field>, key: string, i: nat)
    requires GoodKey(key)
    ensures Resolve(h, JObj(fields), key + "[" + Digits(i) + "]", 0).None?
  {
    hide Resolve, GoodKey;
    var seg := M.Item(key, Digits(i) + "]");
    PlainKey(key);
    DigitsHaveNoBracket(i);
    forall k | 0 <= k < |Digits(i)| ensures Digits(i)[k] != '.' {
      assert Digits(i)[k] in Digits(i);
    }
    var path := key + "[" + Digits(i) + "]";
    assert M.SegmentText(seg) == path && "" + path == path;
    assert M.IsSegment(seg);
    assert M.Joined([seg], 0) == path;
    M.PathLaw(h, JObj(fields), "", [seg], 0);
  }
}
