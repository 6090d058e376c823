/** The facts of an extracted document: the path walker and the flattened table of `RuleEngine`. */
module Facts {
  import opened Prelude

  /** A JSON value; integers and floating-point numbers are both exact numbers here. */
  datatype Json =
    | JNull
    | JBool(flag: bool)
    | JNum(value: real)
    | JStr(text: string)
    | JArr(items: seq<Json>)
    | JObj(fields: seq<Field>)
  {
    predicate IsContainer() { JArr? || JObj? }
  }

  const INVOICE := "invoice"
  const BREAKDOWN := "tax_breakdown"

  datatype Field = Field(name: string, value: Json)

  /** The position of a key in an object, or the number of fields. */
  function Position(fields: seq<Field>, key: string, i: nat): (p: nat)
    requires i <= |fields|
    ensures i <= p <= |fields| && (p < |fields| ==> fields[p].name == key)
    ensures forall k :: i <= k < p ==> fields[k].name != key
    decreases |fields| - i
  {
    if i == |fields| || fields[i].name == key then i else Position(fields, key, i + 1)
  }

  /** `contains` and `at`. */
  function Get(j: Json, key: string): (r: Option<Json>)
    ensures r.Some? ==> j.JObj? && exists k :: 0 <= k < |j.fields| && j.fields[k] == Field(key, r.value)
    ensures r.None? && j.JObj? ==> forall k :: 0 <= k < |j.fields| ==> j.fields[k].name != key
  {
    if !j.JObj? then None
    else
      var p := Position(j.fields, key, 0);
      if p < |j.fields| then assert j.fields[p] == Field(key, j.fields[p].value); Some(j.fields[p].value) else None
  }

  /** `find(c, from)`, with the length for `npos`. */
  function FindChar(s: string, c: char, from: nat): (p: nat)
    requires from <= |s|
    ensures from <= p <= |s| && (p < |s| ==> s[p] == c)
    ensures forall k :: from <= k < p ==> s[k] != c
    decreases |s| - from
  {
    if from == |s| || s[from] == c then from else FindChar(s, c, from + 1)
  }

  predicate Contains(s: string, c: char) { exists k :: 0 <= k < |s| && s[k] == c }

  /** What the program takes from the C library and the JSON library. */
  datatype Host = Host(
    /** `strtoul` on the text after the bracket of a segment. */
    index: string -> nat,
    /** `%.6g` of a number that is not whole. */
    fraction: real -> string,
    /** `dump` of null, an array or an object. */
    dump: Json -> string)

  // ---------------------------------------------------------------- paths

  /** One step of the walk: into an array by the index of a bracketed segment, or into an object by key. */
  function StepInto(h: Host, cur: Json, seg: string): Option<Json> {
    if Contains(seg, '[') then
      var n := h.index(seg[FindChar(seg, '[', 0)..]);
      if cur.JArr? && n < |cur.items| then Some(cur.items[n]) else None
    else Get(cur, seg)
  }

  /** The value at the end of a path, which is read from `start` on. */
  function Resolve(h: Host, cur: Json, path: string, start: nat): Option<Json>
    requires start <= |path|
    decreases |path| - start
  {
    var dot := FindChar(path, '.', start);
    var next := StepInto(h, cur, path[start..dot]);
    if next.None? then None
    else if dot == |path| then next
    else Resolve(h, next.value, path, dot + 1)
  }

  /** The body of the loop: the index of the segment, if it has one, decides how the cursor moves. */
  method MoveInto(h: Host, cur: Json, seg: string) returns (r: Option<Json>)
    ensures r == StepInto(h, cur, seg)
  {
    var bracket := FindChar(seg, '[', 0);
    if bracket < |seg| {
      var n := h.index(seg[bracket..]);
      if !cur.JArr? || n >= |cur.items| {
        return None;
      }
      r := Some(cur.items[n]);
    } else {
      r := Get(cur, seg);
    }
  }

  method ResolvePath(h: Host, doc: Json, path: string) returns (r: Option<Json>)
    ensures r == Resolve(h, doc, path, 0)
  {
    hide StepInto;
    var cur := doc;
    var start := 0;
    while true
      invariant start <= |path| && Resolve(h, doc, path, 0) == Resolve(h, cur, path, start)
      decreases |path| - start
    {
      var dot := FindChar(path, '.', start);
      var next := MoveInto(h, cur, path[start..dot]);
      if next.None? {
        return None;
      }
      cur := next.value;
      if dot == |path| {
        return Some(cur);
      }
      start := dot + 1;
    }
  }

  // ---------------------------------------------------------------- the flattened table

  datatype Table = Table(full: map<string, Json>, bare: map<string, Json>)

  const EMPTY_TABLE := Table(map[], map[])

  function JoinPath(prefix: string, key: string): (r: string)
    ensures key != "" ==> r != ""
  {
    if prefix == "" then key else prefix + "." + key
  }

  function ItemPath(prefix: string, i: nat): string { prefix + "[" + Digits(i) + "]" }

  /** The table after walking a node, its containers depth first. */
  function Collect(node: Json, prefix: string, t: Table): Table
    decreases node, 1
  {
    match node
    case JObj(fields) => CollectFields(fields, |fields|, prefix, t)
    case JArr(items) => CollectItems(items, |items|, prefix, t)
    case _ => t
  }

  function CollectFields(fields: seq<Field>, n: nat, prefix: string, t: Table): Table
    requires n <= |fields|
    decreases fields, 0, n
  {
    if n == 0 then t else CollectField(fields[n - 1], prefix, CollectFields(fields, n - 1, prefix, t))
  }

  function CollectField(f: Field, prefix: string, t: Table): Table
    decreases f, 2
  {
    var path := JoinPath(prefix, f.name);
    if f.value.IsContainer() then Collect(f.value, path, t)
    else Table(t.full[path := f.value], t.bare[f.name := f.value])
  }

  function CollectItems(items: seq<Json>, n: nat, prefix: string, t: Table): Table
    requires n <= |items|
    decreases items, 0, n
  {
    if n == 0 then t else CollectItem(items[n - 1], ItemPath(prefix, n - 1), CollectItems(items, n - 1, prefix, t))
  }

  function CollectItem(item: Json, path: string, t: Table): Table
    decreases item, 2
  {
    if item.IsContainer() then Collect(item, path, t) else t.(full := t.full[path := item])
  }

  class FactTable {
    var table: Table

    constructor ()
      ensures table == EMPTY_TABLE
    {
      table := EMPTY_TABLE;
    }

    method CollectFacts(node: Json, prefix: string)
      modifies this
      ensures table == Collect(node, prefix, old(table))
      decreases node
    {
      if node.JObj? {
        for i := 0 to |node.fields|
          invariant table == CollectFields(node.fields, i, prefix, old(table))
        {
          var f := node.fields[i];
          var path := if prefix == "" then f.name else prefix + "." + f.name;
          if f.value.JObj? || f.value.JArr? {
            CollectFacts(f.value, path);
          } else {
            table := Table(table.full[path := f.value], table.bare[f.name := f.value]);
          }
        }
      } else if node.JArr? {
        for i := 0 to |node.items|
          invariant table == CollectItems(node.items, i, prefix, old(table))
        {
          var path := prefix + "[" + IntText(i) + "]";
          if node.items[i].JObj? || node.items[i].JArr? {
            CollectFacts(node.items[i], path);
          } else {
            table := table.(full := table.full[path := node.items[i]]);
          }
        }
      }
    }
  }

  // ---------------------------------------------------------------- the table agrees with the walker

  predicate GoodKey(key: string) { key != "" && !Contains(key, '.') && !Contains(key, '[') }

  /** Objects have distinct keys, and keys are not empty and free of `.` and `[`. */
  predicate GoodKeys(node: Json) {
    match node
    case JObj(fields) =>
      (forall i, j :: 0 <= i < j < |fields| ==> fields[i].name != fields[j].name) &&
      forall i :: 0 <= i < |fields| ==> GoodKey(fields[i].name) && GoodKeys(fields[i].value)
    case JArr(items) => forall i :: 0 <= i < |items| ==> GoodKeys(items[i])
    case _ => true
  }

  function Lookup(m: map<string, Json>, key: string): Option<Json> { if key in m then Some(m[key]) else None }

  /** What a path leads to, if that is not a container. */
  function ScalarAt(h: Host, node: Json, path: string, start: nat): Option<Json>
    requires start <= |path|
  {
    match Resolve(h, node, path, start)
    case Some(v) => if v.IsContainer() then None else Some(v)
    case None => None
  }

  /** Where the rest of a path starts below a prefix, if the path goes below it. */
  function Below(prefix: string, path: string): Option<nat> {
    if prefix == "" then Some(0)
    else if |prefix| < |path| && path[..|prefix|] == prefix && path[|prefix|] == '.' then Some(|prefix| + 1)
    else None
  }

  /** Paths under a bracketed prefix have a bracket themselves, so they are not among the paths without one. */
  lemma {:induction false} CollectBracketed(node: Json, prefix: string, t: Table, path: string)
    requires Contains(prefix, '[') && !Contains(path, '[')
    ensures Lookup(Collect(node, prefix, t).full, path) == Lookup(t.full, path)
    decreases node, 1
  {
    match node
    case JObj(fields) => CollectBracketedFields(fields, |fields|, prefix, t, path);
    case JArr(items) => CollectBracketedItems(items, |items|, prefix, t, path);
    case _ =>
  }

  lemma {:induction false} CollectBracketedFields(fields: seq<Field>, n: nat, prefix: string, t: Table, path: string)
    requires n <= |fields| && Contains(prefix, '[') && !Contains(path, '[')
    ensures Lookup(CollectFields(fields, n, prefix, t).full, path) == Lookup(t.full, path)
    decreases fields, 0, n
  {
    hide Collect;
    if n > 0 {
      CollectBracketedFields(fields, n - 1, prefix, t, path);
      var f := fields[n - 1];
      KeepsBracket(prefix, "." + f.name);
      assert prefix + ("." + f.name) == JoinPath(prefix, f.name);
      if f.value.IsContainer() {
        CollectBracketed(f.value, JoinPath(prefix, f.name), CollectFields(fields, n - 1, prefix, t), path);
      }
    }
  }

  lemma {:induction false} CollectBracketedItems(items: seq<Json>, n: nat, prefix: string, t: Table, path: string)
    requires n <= |items| && !Contains(path, '[')
    ensures Lookup(CollectItems(items, n, prefix, t).full, path) == Lookup(t.full, path)
    decreases items, 0, n
  {
    hide Collect;
    if n > 0 {
      CollectBracketedItems(items, n - 1, prefix, t, path);
      var (item, p) := (items[n - 1], ItemPath(prefix, n - 1));
      assert p[|prefix|] == '[';
      if item.IsContainer() {
        CollectBracketed(item, p, CollectItems(items, n - 1, prefix, t), path);
      }
    }
  }

  lemma {:induction false} KeepsBracket(s: string, more: string)
    requires Contains(s, '[')
    ensures Contains(s + more, '[')
  {
    var k :| 0 <= k < |s| && s[k] == '[';
    assert (s + more)[k] == '[';
  }

  /** The first dot is where a dot stands and none before it. */
  lemma {:induction false} FirstDot(path: string, from: nat, p: nat)
    requires from <= p <= |path| && (p < |path| ==> path[p] == '.') && forall k :: from <= k < p ==> path[k] != '.'
    ensures FindChar(path, '.', from) == p
  {
  }

  /** A path is a key below a prefix when its last segment is that key. */
  lemma {:induction false} KeyPath(prefix: string, key: string, path: string)
    requires GoodKey(key)
    ensures var b := Below(prefix, path);
            path == JoinPath(prefix, key) <==>
            b.Some? && FindChar(path, '.', b.value) == |path| && path[b.value..] == key
  {
    var b := Below(prefix, path);
    if path == JoinPath(prefix, key) {
      if prefix != "" {
        assert path[..|prefix|] == prefix && path[|prefix|] == '.';
      }
      var at := |path| - |key|;
      assert path[at..] == key;
      assert forall k :: at <= k < |path| ==> path[k] == key[k - at];
      FirstDot(path, at, |path|);
    }
    if b.Some? && path[b.value..] == key {
      JoinedFront(prefix, key, path, |path|);
      assert path[..|path|] == path;
    }
  }

  /** A path goes below a key when the key is the next segment and another one follows. */
  lemma {:induction false} BelowKey(prefix: string, key: string, path: string)
    requires GoodKey(key)
    ensures Below(JoinPath(prefix, key), path) ==
            match Below(prefix, path)
            case None => None
            case Some(b) =>
              var dot := FindChar(path, '.', b);
              if dot < |path| && path[b..dot] == key then Some(dot + 1) else None
  {
    hide FindChar, JoinPath;
    if Below(JoinPath(prefix, key), path).Some? {
      BelowKeyBack(prefix, key, path);
    } else if Below(prefix, path).Some? {
      var b := Below(prefix, path).value;
      var dot := FindChar(path, '.', b);
      if dot < |path| && path[b..dot] == key {
        JoinedFront(prefix, key, path, dot);
      }
    }
  }

  lemma {:induction false} BelowKeyBack(prefix: string, key: string, path: string)
    requires GoodKey(key) && Below(JoinPath(prefix, key), path).Some?
    ensures Below(prefix, path).Some?
    ensures var b := Below(prefix, path).value;
            var dot := b + |key|;
            && dot < |path| && path[b..dot] == key && FindChar(path, '.', b) == dot
            && Below(JoinPath(prefix, key), path) == Some(dot + 1)
  {
    hide FindChar, JoinPath;
    var n := |JoinPath(prefix, key)|;
    var at := n - |key|;
    WholeFront(prefix, key, path);
    assert forall k :: at <= k < n ==> path[k] == path[at..n][k - at];
    FirstDot(path, at, n);
  }

  lemma {:induction false} WholeFront(prefix: string, key: string, path: string)
    requires |JoinPath(prefix, key)| <= |path| && path[..|JoinPath(prefix, key)|] == JoinPath(prefix, key)
    ensures var n := |JoinPath(prefix, key)|; n >= |key| && path[n - |key|..n] == key
    ensures prefix != "" ==> |prefix| < |path| && path[..|prefix|] == prefix && path[|prefix|] == '.'
    ensures |JoinPath(prefix, key)| == |key| + if prefix == "" then 0 else |prefix| + 1
  {
    var whole := JoinPath(prefix, key);
    var at := |whole| - |key|;
    assert whole[at..] == key && path[at..|whole|] == path[..|whole|][at..];
    if prefix != "" {
      assert path[..|prefix|] == whole[..|prefix|] == prefix && path[|prefix|] == whole[|prefix|] == '.';
    }
  }

  lemma {:induction false} JoinedFront(prefix: string, key: string, path: string, dot: nat)
    requires Below(prefix, path).Some? && Below(prefix, path).value <= dot <= |path|
    requires path[Below(prefix, path).value..dot] == key
    ensures path[..dot] == JoinPath(prefix, key)
  {
    if prefix != "" {
      assert path[..dot] == path[..|prefix|] + [path[|prefix|]] + path[|prefix| + 1..dot];
    }
  }

  /** What a field value contributes to a path whose segment for that field ends at `dot`. */
  function FieldScalar(h: Host, v: Json, path: string, dot: nat): Option<Json>
    requires dot <= |path|
  {
    if dot < |path| then ScalarAt(h, v, path, dot + 1) else if v.IsContainer() then None else Some(v)
  }

  /** What the first `n` fields below a prefix contribute to a path. */
  function Reach(h: Host, fields: seq<Field>, n: nat, prefix: string, path: string): Option<Json>
    requires n <= |fields|
  {
    match Below(prefix, path)
    case None => None
    case Some(b) =>
      var dot := FindChar(path, '.', b);
      var p := Position(fields, path[b..dot], 0);
      if p < n then FieldScalar(h, fields[p].value, path, dot) else None
  }

  lemma {:induction false} NoBracketSegment(path: string, from: nat, to: nat)
    requires !Contains(path, '[') && from <= to <= |path|
    ensures !Contains(path[from..to], '[')
  {
  }

  /** The walker reaches through an object exactly what its fields contribute. */
  lemma {:induction false} ReachIsScalarAt(h: Host, fields: seq<Field>, prefix: string, path: string)
    requires !Contains(path, '[') && Below(prefix, path).Some?
    ensures ScalarAt(h, JObj(fields), path, Below(prefix, path).value) == Reach(h, fields, |fields|, prefix, path)
  {
    hide Contains;
    var b := Below(prefix, path).value;
    NoBracketSegment(path, b, FindChar(path, '.', b));
  }

  lemma {:induction false} NothingInLeaf(h: Host, v: Json, path: string, start: nat)
    requires !v.JObj? && !Contains(path, '[') && start <= |path|
    ensures ScalarAt(h, v, path, start).None?
  {
    NoBracketSegment(path, start, FindChar(path, '.', start));
  }

  lemma {:induction false} CollectAgrees(h: Host, node: Json, prefix: string, t: Table, path: string)
    requires GoodKeys(node) && node.IsContainer() && !Contains(path, '[')
    ensures var b := Below(prefix, path);
            var found := if b.Some? then ScalarAt(h, node, path, b.value) else None;
            Lookup(Collect(node, prefix, t).full, path) == if found.Some? then found else Lookup(t.full, path)
    decreases node, 1
  {
    hide ScalarAt, Reach, Below;
    match node
    case JObj(fields) =>
      CollectFieldsAgree(h, fields, |fields|, prefix, t, path);
      if Below(prefix, path).Some? {
        ReachIsScalarAt(h, fields, prefix, path);
      } else {
        NoReach(h, fields, |fields|, prefix, path);
      }
    case JArr(items) =>
      CollectBracketedItems(items, |items|, prefix, t, path);
      if Below(prefix, path).Some? {
        BelowInside(prefix, path);
        NothingInLeaf(h, node, path, Below(prefix, path).value);
      }
  }

  lemma {:induction false} NoReach(h: Host, fields: seq<Field>, n: nat, prefix: string, path: string)
    requires n <= |fields| && Below(prefix, path).None?
    ensures Reach(h, fields, n, prefix, path).None?
  {
  }

  lemma {:induction false} BelowInside(prefix: string, path: string)
    ensures Below(prefix, path).Some? ==> Below(prefix, path).value <= |path|
  {
  }

  lemma {:induction false} CollectFieldsAgree(h: Host, fields: seq<Field>, n: nat, prefix: string, t: Table,
      path: string)
    requires GoodKeys(JObj(fields)) && n <= |fields| && !Contains(path, '[')
    ensures var found := Reach(h, fields, n, prefix, path);
            Lookup(CollectFields(fields, n, prefix, t).full, path) ==
            if found.Some? then found else Lookup(t.full, path)
    decreases fields, 0, n
  {
    hide Collect, Reach, ScalarAt, Below, JoinPath, GoodKey, Contains;
    if n > 0 {
      CollectFieldsAgree(h, fields, n - 1, prefix, t, path);
      var f, before := fields[n - 1], CollectFields(fields, n - 1, prefix, t);
      ReachNext(h, fields, n, prefix, path);
      KeyPath(prefix, f.name, path);
      if f.value.IsContainer() {
        BelowKey(prefix, f.name, path);
        CollectAgrees(h, f.value, JoinPath(prefix, f.name), before, path);
      }
    } else {
      ReachNone(h, fields, prefix, path);
    }
  }

  lemma {:induction false} ReachNone(h: Host, fields: seq<Field>, prefix: string, path: string)
    ensures Reach(h, fields, 0, prefix, path).None?
  {
  }

  /** A field contributes to the paths whose segment is its key, and no earlier field does. */
  lemma {:induction false} ReachNext(h: Host, fields: seq<Field>, n: nat, prefix: string, path: string)
    requires GoodKeys(JObj(fields)) && 0 < n <= |fields| && !Contains(path, '[')
    ensures var (f, b, r) := (fields[n - 1], Below(prefix, path), Reach(h, fields, n, prefix, path));
            if b.Some? && path[b.value..FindChar(path, '.', b.value)] == f.name then
              && Reach(h, fields, n - 1, prefix, path).None?
              && (!f.value.IsContainer() ==>
                    r == if FindChar(path, '.', b.value) == |path| then Some(f.value) else None)
              && (f.value.IsContainer() ==>
                    r == if FindChar(path, '.', b.value) == |path| then None
                      else ScalarAt(h, f.value, path, FindChar(path, '.', b.value) + 1))
            else r == Reach(h, fields, n - 1, prefix, path)
  {
    hide ScalarAt, Contains, FindChar, GoodKey;
    var f := fields[n - 1];
    var b := Below(prefix, path);
    if b.Some? {
      var dot := FindChar(path, '.', b.value);
      var p := Position(fields, path[b.value..dot], 0);
      if path[b.value..dot] == f.name {
        assert p == n - 1;
        if dot < |path| && !f.value.IsContainer() {
          NothingInLeaf(h, f.value, path, dot + 1);
        }
      }
    }
  }

  /**
   * Over the whole document, the flattened table maps a path without brackets to a value exactly when the walker
   * finds that value there.
   */
  lemma {:induction false} TableAgreesWithWalker(h: Host, doc: Json, path: string, v: Json)
    requires GoodKeys(doc) && doc.IsContainer() && !Contains(path, '[') && !v.IsContainer()
    ensures Lookup(Collect(doc, "", EMPTY_TABLE).full, path) == Some(v) <==> Resolve(h, doc, path, 0) == Some(v)
  {
    hide Collect, GoodKeys, Contains, Resolve;
    CollectAgrees(h, doc, "", EMPTY_TABLE, path);
    assert Below("", path) == Some(0);
  }
}
