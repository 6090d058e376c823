/** What a document claims about its tax flags, and who can see it: the walker, the fact table and validation. */
module Claims {
  import opened Prelude
  import opened Facts
  import opened Money
  import opened RuleEngine
  import opened Validation

  // ---------------------------------------------------------------- documents without the claimed flags

  predicate IsFlag(name: string) { name == HAS_IGST || name == HAS_CGST_SGST }

  /** The first `n` fields without the flags. */
  function DropFlags(fields: seq<Field>, n: nat): seq<Field>
    requires n <= |fields|
  {
    if n == 0 then []
    else if IsFlag(fields[n - 1].name) then DropFlags(fields, n - 1)
    else DropFlags(fields, n - 1) + [fields[n - 1]]
  }

  function EraseBreakdown(v: Json): Json {
    match v case JObj(fields) => JObj(DropFlags(fields, |fields|)) case _ => v
  }

  /** The fields with every value under `key` changed by `g`. */
  function Change(fields: seq<Field>, key: string, g: Json -> Json): (r: seq<Field>)
    ensures |r| == |fields|
  {
    seq(|fields|, i requires 0 <= i < |fields| => ChangeField(fields[i], key, g))
  }

  function ChangeField(f: Field, key: string, g: Json -> Json): Field {
    if f.name == key then Field(key, g(f.value)) else f
  }

  function EraseInvoice(v: Json): Json {
    match v case JObj(fields) => JObj(Change(fields, BREAKDOWN, EraseBreakdown)) case _ => v
  }

  /** The document without the two claimed flags of `invoice.tax_breakdown`. */
  function Erase(doc: Json): Json {
    match doc case JObj(fields) => JObj(Change(fields, INVOICE, EraseInvoice)) case _ => doc
  }

  /** Where a breakdown claims a flag, the claim is no array and no object. */
  predicate ScalarClaims(v: Json) {
    v.JObj? ==> forall i :: 0 <= i < |v.fields| && IsFlag(v.fields[i].name) ==> !v.fields[i].value.IsContainer()
  }

  predicate ScalarInvoice(v: Json) {
    v.JObj? ==> forall i :: 0 <= i < |v.fields| && v.fields[i].name == BREAKDOWN ==> ScalarClaims(v.fields[i].value)
  }

  predicate ScalarDocument(v: Json) {
    v.JObj? ==> forall i :: 0 <= i < |v.fields| && v.fields[i].name == INVOICE ==> ScalarInvoice(v.fields[i].value)
  }

  // ---------------------------------------------------------------- the walker

  lemma {:induction false} SamePosition(a: seq<Field>, b: seq<Field>, key: string, i: nat)
    requires |a| == |b| && i <= |a| && forall k :: 0 <= k < |a| ==> a[k].name == b[k].name
    ensures Position(a, key, i) == Position(b, key, i)
    decreases |a| - i
  {
    if i < |a| {
      SamePosition(a, b, key, i + 1);
    }
  }

  lemma {:induction false} GetChanged(fields: seq<Field>, key: string, g: Json -> Json, k: string)
    ensures Get(JObj(Change(fields, key, g)), k) ==
            match Get(JObj(fields), k) case None => None case Some(v) => Some(if k == key then g(v) else v)
  {
    SamePosition(fields, Change(fields, key, g), k, 0);
  }

  lemma {:induction false} PositionAppend(a: seq<Field>, f: Field, k: string, i: nat)
    requires i <= |a|
    ensures Position(a + [f], k, i) ==
            if Position(a, k, i) < |a| then Position(a, k, i) else if f.name == k then |a| else |a| + 1
    decreases |a| - i
  {
    if i < |a| {
      PositionAppend(a, f, k, i + 1);
    }
  }

  lemma {:induction false} GetAppend(a: seq<Field>, f: Field, k: string)
    ensures Get(JObj(a + [f]), k) ==
            if Get(JObj(a), k).Some? then Get(JObj(a), k) else if f.name == k then Some(f.value) else None
  {
    PositionAppend(a, f, k, 0);
  }

  lemma {:induction false} GetDropped(fields: seq<Field>, n: nat, k: string)
    requires n <= |fields|
    ensures Get(JObj(DropFlags(fields, n)), k) == if IsFlag(k) then None else Get(JObj(fields[..n]), k)
  {
    hide Get, IsFlag;
    if n > 0 {
      GetDropped(fields, n - 1, k);
      GetAppend(DropFlags(fields, n - 1), fields[n - 1], k);
      GetAppend(fields[..n - 1], fields[n - 1], k);
      assert fields[..n] == fields[..n - 1] + [fields[n - 1]];
    } else {
      NoFields(k);
      assert fields[..0] == [];
    }
  }

  lemma {:induction false} NoFields(k: string)
    ensures Get(JObj([]), k).None?
  {
  }

  /** The fact at the same path of the document without the flags. */
  function EraseFact(path: string, fact: Option<Json>): Option<Json> {
    match fact
    case None => None
    case Some(v) =>
      Some(if path == INVOICE then EraseInvoice(v) else if path == BREAKDOWN_PATH then EraseBreakdown(v) else v)
  }

  predicate ScalarFact(path: string, fact: Option<Json>) {
    && (fact.Some? && path == INVOICE ==> ScalarInvoice(fact.value))
    && (fact.Some? && path == BREAKDOWN_PATH ==> ScalarClaims(fact.value))
  }

  lemma {:induction false} ScalarIsDeadEnd(h: Host, v: Json, path: string, start: nat)
    requires !v.IsContainer() && start <= |path|
    ensures Resolve(h, v, path, start).None?
  {
  }

  lemma {:induction false} BreakdownWalk(h: Host, v: Json, path: string, start: nat)
    requires ScalarClaims(v) && start <= |path|
    ensures Resolve(h, EraseBreakdown(v), path, start) == Resolve(h, v, path, start) || IsFlag(path[start..])
  {
    hide Contains, IsFlag;
    if v.JObj? {
      var dot := FindChar(path, '.', start);
      var seg := path[start..dot];
      GetDropped(v.fields, |v.fields|, seg);
      assert v.fields[..|v.fields|] == v.fields;
      if IsFlag(seg) {
        if dot == |path| {
          assert path[start..] == seg;
        } else {
          ClaimIsDeadEnd(h, v, seg, path, dot + 1);
        }
      }
    }
  }

  lemma {:induction false} ClaimIsDeadEnd(h: Host, v: Json, seg: string, path: string, start: nat)
    requires v.JObj? && ScalarClaims(v) && IsFlag(seg) && start <= |path|
    ensures Get(v, seg).Some? ==> Resolve(h, Get(v, seg).value, path, start).None?
  {
    hide IsFlag, Resolve;
    if Get(v, seg).Some? {
      ScalarIsDeadEnd(h, Get(v, seg).value, path, start);
    }
  }

  /** The walk through an invoice, from `start` on. */
  lemma {:induction false} InvoiceWalk(h: Host, v: Json, path: string, start: nat)
    requires ScalarInvoice(v) && start <= |path|
    ensures var (a, b, rest) := (Resolve(h, EraseInvoice(v), path, start), Resolve(h, v, path, start), path[start..]);
            if rest == BREAKDOWN then a == EraseFact(BREAKDOWN_PATH, b) && ScalarFact(BREAKDOWN_PATH, b)
            else a == b || rest == BREAKDOWN + "." + HAS_IGST || rest == BREAKDOWN + "." + HAS_CGST_SGST
  {
    hide FindChar, StepInto, EraseBreakdown, ScalarClaims, IsFlag;
    PathsDiffer();
    if v.JObj? {
      var dot := FindChar(path, '.', start);
      var seg := path[start..dot];
      StepChanged(h, v.fields, BREAKDOWN, EraseBreakdown, seg);
      if seg == BREAKDOWN && StepInto(h, v, seg).Some? {
        var inner := StepInto(h, v, seg).value;
        StepIsField(h, v, seg);
        if dot == |path| {
          assert path[start..] == seg;
        } else {
          BreakdownWalk(h, inner, path, dot + 1);
          assert path[start..] == seg + "." + path[dot + 1..];
          FlagNames(path[dot + 1..]);
        }
      }
    } else if path[start..] == BREAKDOWN {
      NothingThere(h, v, path, start);
    }
  }

  lemma {:induction false} PathsDiffer()
    ensures INVOICE != BREAKDOWN_PATH && INVOICE != IGST_PATH && INVOICE != CGST_SGST_PATH
    ensures BREAKDOWN_PATH != IGST_PATH && BREAKDOWN_PATH != CGST_SGST_PATH && IGST_PATH != CGST_SGST_PATH
  {
    assert |INVOICE| == 7 && |BREAKDOWN_PATH| == 21 && |IGST_PATH| == 30 && |CGST_SGST_PATH| == 35;
  }

  /** A key of an object leads nowhere in anything else. */
  lemma {:induction false} NothingThere(h: Host, v: Json, path: string, start: nat)
    requires !v.JObj? && start <= |path| && path[start..] == BREAKDOWN
    ensures Resolve(h, v, path, start).None?
  {
    NamesArePlain();
    forall k | start <= k < |path| ensures path[k] != '.' {
      assert path[k] == BREAKDOWN[k - start];
    }
    FirstDot(path, start, |path|);
  }

  lemma {:induction false} NamesArePlain()
    ensures !Contains(INVOICE, '.') && !Contains(INVOICE, '[') && !Contains(BREAKDOWN, '.') && !Contains(BREAKDOWN, '[')
  {
  }

  /** Both paths start with the key of the invoice. */
  lemma {:induction false} PathParts(h: Host, path: string, doc: Json)
    requires path == INVOICE || path == BREAKDOWN_PATH
    ensures var dot := FindChar(path, '.', 0);
            dot == 7 && path[0..7] == INVOICE && (dot == |path| <==> path == INVOICE)
    ensures path == BREAKDOWN_PATH ==> path[8..] == BREAKDOWN && FindChar(path, '.', 8) == |path|
    ensures StepInto(h, doc, INVOICE) == Get(doc, INVOICE) && StepInto(h, doc, BREAKDOWN) == Get(doc, BREAKDOWN)
  {
    hide Get;
    NamesArePlain();
    FirstDot(path, 0, 7);
    if path == BREAKDOWN_PATH {
      FirstDot(path, 8, 21);
    }
  }

  lemma {:induction false} FlagNames(name: string)
    ensures IsFlag(name) <==> name == HAS_IGST || name == HAS_CGST_SGST
  {
  }

  /** A step into an object with changed values. */
  lemma {:induction false} StepChanged(h: Host, fields: seq<Field>, key: string, g: Json -> Json, seg: string)
    ensures StepInto(h, JObj(Change(fields, key, g)), seg) ==
            match StepInto(h, JObj(fields), seg) case None => None case Some(v) => Some(if seg == key then g(v) else v)
  {
    hide Get, Change;
    GetChanged(fields, key, g, seg);
  }

  lemma {:induction false} StepIsField(h: Host, v: Json, seg: string)
    requires v.JObj? && StepInto(h, v, seg).Some?
    ensures exists k :: 0 <= k < |v.fields| && v.fields[k] == Field(seg, StepInto(h, v, seg).value)
  {
  }

  /** A path that is no flag leads to the same fact in the document without the flags, but for the flags inside it. */
  lemma {:induction false} DocumentWalk(h: Host, doc: Json, path: string)
    requires ScalarDocument(doc)
    ensures var (a, b) := (Resolve(h, Erase(doc), path, 0), Resolve(h, doc, path, 0));
            path == IGST_PATH || path == CGST_SGST_PATH || (a == EraseFact(path, b) && ScalarFact(path, b))
  {
    hide FindChar, StepInto, EraseInvoice, ScalarInvoice, EraseBreakdown, ScalarClaims, Get;
    PathsDiffer();
    if path == INVOICE || path == BREAKDOWN_PATH {
      PathParts(h, path, doc);
    }
    var dot := FindChar(path, '.', 0);
    var seg := path[0..dot];
    if doc.JObj? {
      StepChanged(h, doc.fields, INVOICE, EraseInvoice, seg);
      if seg == INVOICE && StepInto(h, doc, seg).Some? {
        StepIsField(h, doc, seg);
        InsideInvoice(h, doc, path, StepInto(h, doc, seg).value);
      }
    } else {
      NoField(doc, INVOICE);
    }
  }

  lemma {:induction false} NoField(v: Json, key: string)
    requires !v.JObj?
    ensures Get(v, key).None?
  {
  }

  lemma {:induction false} InsideInvoice(h: Host, doc: Json, path: string, inner: Json)
    requires path[0..FindChar(path, '.', 0)] == INVOICE && ScalarInvoice(inner)
    requires StepInto(h, doc, INVOICE) == Some(inner) && StepInto(h, Erase(doc), INVOICE) == Some(EraseInvoice(inner))
    ensures var (a, b) := (Resolve(h, Erase(doc), path, 0), Resolve(h, doc, path, 0));
            path == IGST_PATH || path == CGST_SGST_PATH || (a == EraseFact(path, b) && ScalarFact(path, b))
  {
    hide FindChar, StepInto, EraseInvoice, ScalarInvoice, EraseBreakdown, ScalarClaims, Erase;
    PathsDiffer();
    PathsAssociate();
    var dot := FindChar(path, '.', 0);
    if dot == |path| {
      assert path == path[0..dot];
    } else {
      InvoiceWalk(h, inner, path, dot + 1);
      assert path == path[0..dot] + "." + path[dot + 1..];
    }
  }

  lemma {:induction false} PathsAssociate()
    ensures INVOICE + "." + (BREAKDOWN + "." + HAS_IGST) == IGST_PATH
    ensures INVOICE + "." + (BREAKDOWN + "." + HAS_CGST_SGST) == CGST_SGST_PATH
  {
    Concat3(INVOICE + ".", BREAKDOWN + ".", HAS_IGST);
    Concat3(INVOICE + ".", BREAKDOWN, ".");
    Concat3(INVOICE + ".", BREAKDOWN + ".", HAS_CGST_SGST);
  }

  // ---------------------------------------------------------------- the fact table

  predicate IsFlagPath(path: string) { path == IGST_PATH || path == CGST_SGST_PATH }

  /** Two tables agree on everything but the flags. */
  ghost predicate Agree(t: Table, u: Table) {
    && (forall k: string :: !IsFlagPath(k) ==> Lookup(t.full, k) == Lookup(u.full, k))
    && (forall k: string :: !IsFlag(k) ==> Lookup(t.bare, k) == Lookup(u.bare, k))
  }

  lemma {:induction false} AgreeAfterField(t: Table, u: Table, path: string, name: string, v: Json)
    requires Agree(t, u)
    ensures Agree(Table(t.full[path := v], t.bare[name := v]), Table(u.full[path := v], u.bare[name := v]))
    ensures IsFlagPath(path) && IsFlag(name) ==> Agree(t, Table(u.full[path := v], u.bare[name := v]))
  {
    hide IsFlagPath, IsFlag;
  }

  lemma {:induction false} AgreeAfterItem(t: Table, u: Table, path: string, v: Json)
    requires Agree(t, u)
    ensures Agree(t.(full := t.full[path := v]), u.(full := u.full[path := v]))
  {
    hide IsFlagPath, IsFlag;
  }

  /** The same node keeps tables in agreement. */
  lemma {:induction false} CollectKeeps(node: Json, prefix: string, t: Table, u: Table)
    requires Agree(t, u)
    ensures Agree(Collect(node, prefix, t), Collect(node, prefix, u))
    decreases node, 1
  {
    hide Agree;
    match node
    case JObj(fields) => CollectFieldsKeep(fields, |fields|, prefix, t, u);
    case JArr(items) => CollectItemsKeep(items, |items|, prefix, t, u);
    case _ =>
  }

  lemma {:induction false} CollectFieldsKeep(fields: seq<Field>, n: nat, prefix: string, t: Table, u: Table)
    requires n <= |fields| && Agree(t, u)
    ensures Agree(CollectFields(fields, n, prefix, t), CollectFields(fields, n, prefix, u))
    decreases fields, 0, n
  {
    hide Agree, Collect, CollectField;
    if n > 0 {
      CollectFieldsKeep(fields, n - 1, prefix, t, u);
      CollectFieldKeeps(fields[n - 1], prefix, CollectFields(fields, n - 1, prefix, t),
        CollectFields(fields, n - 1, prefix, u));
    }
  }

  lemma {:induction false} CollectFieldKeeps(f: Field, prefix: string, t: Table, u: Table)
    requires Agree(t, u)
    ensures Agree(CollectField(f, prefix, t), CollectField(f, prefix, u))
    decreases f, 2
  {
    hide Agree, Collect, JoinPath;
    if f.value.IsContainer() {
      CollectKeeps(f.value, JoinPath(prefix, f.name), t, u);
    } else {
      AgreeAfterField(t, u, JoinPath(prefix, f.name), f.name, f.value);
    }
  }

  lemma {:induction false} CollectItemsKeep(items: seq<Json>, n: nat, prefix: string, t: Table, u: Table)
    requires n <= |items| && Agree(t, u)
    ensures Agree(CollectItems(items, n, prefix, t), CollectItems(items, n, prefix, u))
    decreases items, 0, n
  {
    hide Agree, Collect, ItemPath;
    if n > 0 {
      CollectItemsKeep(items, n - 1, prefix, t, u);
      var (item, path) := (items[n - 1], ItemPath(prefix, n - 1));
      var (t', u') := (CollectItems(items, n - 1, prefix, t), CollectItems(items, n - 1, prefix, u));
      if item.IsContainer() {
        CollectKeeps(item, path, t', u');
      } else {
        AgreeAfterItem(t', u', path, item);
      }
    }
  }

  lemma {:induction false} CollectFieldsPrefix(a: seq<Field>, b: seq<Field>, n: nat, prefix: string, t: Table)
    requires n <= |a|
    ensures CollectFields(a + b, n, prefix, t) == CollectFields(a, n, prefix, t)
    decreases n
  {
    hide CollectField;
    if n > 0 {
      CollectFieldsPrefix(a, b, n - 1, prefix, t);
    }
  }

  lemma {:induction false} CollectOneMore(a: seq<Field>, f: Field, prefix: string, t: Table)
    ensures CollectFields(a + [f], |a| + 1, prefix, t) == CollectField(f, prefix, CollectFields(a, |a|, prefix, t))
  {
    hide CollectField;
    CollectFieldsPrefix(a, [f], |a|, prefix, t);
  }

  lemma {:induction false} FlagPathOfFlag(name: string)
    requires IsFlag(name)
    ensures IsFlagPath(JoinPath(BREAKDOWN_PATH, name))
  {
  }

  /** Walking a breakdown without its claimed flags gives a table that agrees. */
  lemma {:induction false} BreakdownTable(fields: seq<Field>, n: nat, t: Table, u: Table)
    requires n <= |fields| && ScalarClaims(JObj(fields)) && Agree(t, u)
    ensures var d := DropFlags(fields, n);
            Agree(CollectFields(d, |d|, BREAKDOWN_PATH, t), CollectFields(fields, n, BREAKDOWN_PATH, u))
    decreases n
  {
    hide Agree, IsFlag, Collect, JoinPath, IsFlagPath;
    if n > 0 {
      BreakdownTable(fields, n - 1, t, u);
      var (f, d) := (fields[n - 1], DropFlags(fields, n - 1));
      var (t', u') := (CollectFields(d, |d|, BREAKDOWN_PATH, t), CollectFields(fields, n - 1, BREAKDOWN_PATH, u));
      if IsFlag(f.name) {
        FlagPathOfFlag(f.name);
        AgreeAfterField(t', u', JoinPath(BREAKDOWN_PATH, f.name), f.name, f.value);
      } else {
        CollectOneMore(d, f, BREAKDOWN_PATH, t);
        CollectFieldKeeps(f, BREAKDOWN_PATH, t', u');
      }
    }
  }

  lemma {:induction false} BreakdownNodeTable(v: Json, t: Table, u: Table)
    requires ScalarClaims(v) && Agree(t, u)
    ensures Agree(Collect(EraseBreakdown(v), BREAKDOWN_PATH, t), Collect(v, BREAKDOWN_PATH, u))
  {
    hide Agree, ScalarClaims, DropFlags, CollectFields;
    if v.JObj? {
      assert JObj(v.fields) == v;
      BreakdownTable(v.fields, |v.fields|, t, u);
    } else {
      CollectKeeps(v, BREAKDOWN_PATH, t, u);
    }
  }

  lemma {:induction false} BreakdownFieldTable(f: Field, t: Table, u: Table)
    requires f.name == BREAKDOWN && ScalarClaims(f.value) && Agree(t, u)
    ensures Agree(CollectField(ChangeField(f, BREAKDOWN, EraseBreakdown), INVOICE, t), CollectField(f, INVOICE, u))
  {
    hide Agree, ScalarClaims, DropFlags, Collect;
    assert JoinPath(INVOICE, BREAKDOWN) == BREAKDOWN_PATH;
    if f.value.IsContainer() {
      BreakdownNodeTable(f.value, t, u);
    } else {
      AgreeAfterField(t, u, BREAKDOWN_PATH, BREAKDOWN, f.value);
    }
  }

  lemma {:induction false} InvoiceTable(fields: seq<Field>, n: nat, t: Table, u: Table)
    requires n <= |fields| && ScalarInvoice(JObj(fields)) && Agree(t, u)
    ensures Agree(CollectFields(Change(fields, BREAKDOWN, EraseBreakdown), n, INVOICE, t),
        CollectFields(fields, n, INVOICE, u))
    decreases n
  {
    hide Agree, ScalarClaims, EraseBreakdown, CollectField;
    if n > 0 {
      InvoiceTable(fields, n - 1, t, u);
      var f := fields[n - 1];
      var (t', u') := (CollectFields(Change(fields, BREAKDOWN, EraseBreakdown), n - 1, INVOICE, t),
          CollectFields(fields, n - 1, INVOICE, u));
      if f.name == BREAKDOWN {
        BreakdownFieldTable(f, t', u');
      } else {
        CollectFieldKeeps(f, INVOICE, t', u');
      }
    }
  }

  lemma {:induction false} InvoiceFieldTable(f: Field, t: Table, u: Table)
    requires f.name == INVOICE && ScalarInvoice(f.value) && Agree(t, u)
    ensures Agree(CollectField(ChangeField(f, INVOICE, EraseInvoice), "", t), CollectField(f, "", u))
  {
    hide Agree, ScalarInvoice, CollectFields, Change;
    assert JoinPath("", INVOICE) == INVOICE;
    if f.value.JObj? {
      assert JObj(f.value.fields) == f.value;
      InvoiceTable(f.value.fields, |f.value.fields|, t, u);
    } else {
      assert EraseInvoice(f.value) == f.value;
      CollectFieldKeeps(f, "", t, u);
    }
  }

  lemma {:induction false} DocumentTable(fields: seq<Field>, n: nat, t: Table, u: Table)
    requires n <= |fields| && ScalarDocument(JObj(fields)) && Agree(t, u)
    ensures Agree(CollectFields(Change(fields, INVOICE, EraseInvoice), n, "", t), CollectFields(fields, n, "", u))
    decreases n
  {
    hide Agree, ScalarInvoice, EraseInvoice, CollectField;
    if n > 0 {
      DocumentTable(fields, n - 1, t, u);
      var f := fields[n - 1];
      var (t', u') := (CollectFields(Change(fields, INVOICE, EraseInvoice), n - 1, "", t),
          CollectFields(fields, n - 1, "", u));
      if f.name == INVOICE {
        InvoiceFieldTable(f, t', u');
      } else {
        CollectFieldKeeps(f, "", t', u');
      }
    }
  }

  lemma {:induction false} SameWithFlags(t: Table, u: Table, m: TaxFlags)
    requires Agree(t, u)
    ensures WithFlags(t, m) == WithFlags(u, m)
  {
    var (a, b) := (WithFlags(t, m), WithFlags(u, m));
    forall k: string ensures Lookup(a.full, k) == Lookup(b.full, k) && Lookup(a.bare, k) == Lookup(b.bare, k) {
      if !IsFlagPath(k) {
        assert Lookup(t.full, k) == Lookup(u.full, k);
      }
      if !IsFlag(k) {
        assert Lookup(t.bare, k) == Lookup(u.bare, k);
      }
    }
    SameMap(a.full, b.full);
    SameMap(a.bare, b.bare);
  }

  lemma {:induction false} SameMap(a: map<string, Json>, b: map<string, Json>)
    requires forall k: string :: Lookup(a, k) == Lookup(b, k)
    ensures a == b
  {
    forall k: string ensures k in a <==> k in b {
      assert Lookup(a, k) == Lookup(b, k);
    }
    forall k | k in a ensures a[k] == b[k] {
      assert Lookup(a, k) == Lookup(b, k);
    }
  }

  /** The table that templates see does not depend on the claims. */
  lemma {:induction false} TableIgnoresClaims(doc: Json, m: TaxFlags)
    requires ScalarDocument(doc)
    ensures WithFlags(Collect(Erase(doc), "", EMPTY_TABLE), m) == WithFlags(Collect(doc, "", EMPTY_TABLE), m)
  {
    hide ScalarDocument, WithFlags, CollectFields, Change;
    if doc.JObj? {
      assert JObj(doc.fields) == doc;
      DocumentTable(doc.fields, |doc.fields|, EMPTY_TABLE, EMPTY_TABLE);
      SameWithFlags(Collect(Erase(doc), "", EMPTY_TABLE), Collect(doc, "", EMPTY_TABLE), m);
    }
  }

  // ---------------------------------------------------------------- validation

  /** No key that validation reads from a breakdown is a flag. */
  lemma {:induction false} HeadsAreNoFlags()
    ensures !IsFlag("cgst") && !IsFlag("sgst") && !IsFlag("igst") && !IsFlag("cess") && !IsFlag("total_tax")
  {
    assert |HAS_IGST| == 8 && |HAS_CGST_SGST| == 13 && "total_tax"[0] != HAS_IGST[0];
  }

  lemma {:induction false} AmountIgnoresClaims(d: Doubles, fields: seq<Field>, key: string, default: nat)
    requires !IsFlag(key)
    ensures ReadAmount(d, EraseBreakdown(JObj(fields)), key, default) == ReadAmount(d, JObj(fields), key, default)
  {
    hide Get, IsFlag, DropFlags;
    GetDropped(fields, |fields|, key);
    assert fields[..|fields|] == fields;
  }

  lemma {:induction false} BreakdownIgnoresClaims(d: Doubles, fields: seq<Field>)
    ensures ReadBreakdown(d, EraseBreakdown(JObj(fields))) == ReadBreakdown(d, JObj(fields))
  {
    hide ReadAmount, IsFlag, EraseBreakdown;
    HeadsAreNoFlags();
    AmountIgnoresClaims(d, fields, "cgst", 0);
    AmountIgnoresClaims(d, fields, "sgst", 0);
    AmountIgnoresClaims(d, fields, "igst", 0);
    AmountIgnoresClaims(d, fields, "cess", 0);
    forall default: nat
      ensures ReadAmount(d, EraseBreakdown(JObj(fields)), "total_tax", default) ==
          ReadAmount(d, JObj(fields), "total_tax", default)
    {
      AmountIgnoresClaims(d, fields, "total_tax", default);
    }
  }

  lemma {:induction false} TaxIgnoresClaims(d: Doubles, fields: seq<Field>)
    ensures ReadTax(d, EraseInvoice(JObj(fields))) == ReadTax(d, JObj(fields))
  {
    hide Get, Change, ReadBreakdown;
    GetChanged(fields, BREAKDOWN, EraseBreakdown, BREAKDOWN);
    var v := Get(JObj(fields), BREAKDOWN);
    if v.Some? && v.value.JObj? {
      BreakdownIgnoresClaims(d, v.value.fields);
    }
  }

  /** A key of the invoice other than the breakdown. */
  lemma {:induction false} OtherKey(fields: seq<Field>, key: string)
    requires key != BREAKDOWN
    ensures Get(EraseInvoice(JObj(fields)), key) == Get(JObj(fields), key)
  {
    hide Get, Change;
    GetChanged(fields, BREAKDOWN, EraseBreakdown, key);
  }

  lemma {:induction false} TextIgnoresClaims(fields: seq<Field>, key: string)
    requires key != BREAKDOWN
    ensures TextAt(EraseInvoice(JObj(fields)), INVOICE, key) == TextAt(JObj(fields), INVOICE, key)
  {
    hide Get, EraseInvoice;
    OtherKey(fields, key);
  }

  lemma {:induction false} IrnIgnoresClaims(fields: seq<Field>)
    ensures ReadIrn(EraseInvoice(JObj(fields))) == ReadIrn(JObj(fields))
  {
    hide Get, EraseInvoice;
    assert BREAKDOWN[0] == 't';
    OtherKey(fields, "irn_present");
    OtherKey(fields, "irn");
  }

  lemma {:induction false} HeadingIgnoresClaims(fields: seq<Field>)
    ensures ReadHeading(EraseInvoice(JObj(fields))) == ReadHeading(JObj(fields))
  {
    hide TextAt, ReadIrn, EraseInvoice;
    assert BREAKDOWN[0] == 't';
    TextIgnoresClaims(fields, "number");
    TextIgnoresClaims(fields, "date");
    TextIgnoresClaims(fields, "place_of_supply");
    TextIgnoresClaims(fields, "hsn_string");
    TextIgnoresClaims(fields, "supply_type");
    TextIgnoresClaims(fields, "classification");
    IrnIgnoresClaims(fields);
  }

  lemma {:induction false} BodyIgnoresClaims(d: Doubles, fields: seq<Field>)
    ensures ReadBody(d, EraseInvoice(JObj(fields))) == ReadBody(d, JObj(fields))
  {
    hide Get, EraseInvoice, ReadHeading, ReadTax, ReadLines;
    assert |BREAKDOWN| == 13 && BREAKDOWN[0] == 't';
    HeadingIgnoresClaims(fields);
    TaxIgnoresClaims(d, fields);
    OtherKey(fields, "base_value");
    OtherKey(fields, "line_items");
    OtherKey(fields, "total_value");
  }

  lemma {:induction false} InvoiceIgnoresClaims(d: Doubles, doc: Json)
    ensures ReadInvoice(d, Erase(doc)) == ReadInvoice(d, doc)
  {
    hide Get, Change, ReadBody;
    if doc.JObj? {
      GetChanged(doc.fields, INVOICE, EraseInvoice, INVOICE);
      assert JObj(doc.fields) == doc;
      var v := Get(doc, INVOICE);
      if v.Some? && v.value.JObj? {
        BodyIgnoresClaims(d, v.value.fields);
      }
    }
  }

  /** Validation accepts, rejects and derives the same whatever the document claims about its flags. */
  lemma {:induction false} ValidationIgnoresClaims(d: Doubles, doc: Json)
    ensures Validate(d, Erase(doc)) == Validate(d, doc)
  {
    hide Get, Change, ReadInvoice, Assembled, TextAt, OptionalText, ReadAato, ReadRegistered;
    InvoiceIgnoresClaims(d, doc);
    if doc.JObj? {
      assert JObj(doc.fields) == doc;
      GetChanged(doc.fields, INVOICE, EraseInvoice, "supplier");
      GetChanged(doc.fields, INVOICE, EraseInvoice, "buyer");
      GetChanged(doc.fields, INVOICE, EraseInvoice, "irp");
    }
  }
}
