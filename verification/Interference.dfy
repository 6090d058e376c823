/** The checks that can tell a claimed flag from a missing one are exactly those that are not clean. */
module Interference {
  import opened Prelude
  import opened Facts
  import opened Money
  import opened Validation
  import opened RuleEngine
  import opened Claims
  import opened RuleLaws

  /** Two documents that differ only in what they claim give the check different outcomes. */
  ghost predicate Interferes(e: Engine, m: TaxFlags, check: Json) {
    exists a: Json, b: Json :: Tells(e, m, check, a, b)
  }

  predicate Tells(e: Engine, m: TaxFlags, check: Json, a: Json, b: Json) {
    && Erase(a) == Erase(b) && ScalarDocument(a) && ScalarDocument(b)
    && EvalCheck(e, m, a, check) != EvalCheck(e, m, b, check)
  }

  // ---------------------------------------------------------------- documents around a value

  predicate IsAround(path: string) { path == INVOICE || path == BREAKDOWN_PATH }

  function InvoiceWith(around: string, v: Json, inner: seq<Field>): Json {
    if around == INVOICE then v else JObj(inner + [Field(BREAKDOWN, v)])
  }

  /** A document with `v` at the path `around`, and other fields beside it. */
  function DocumentWith(around: string, v: Json, outer: seq<Field>, inner: seq<Field>): Json {
    JObj(outer + [Field(INVOICE, InvoiceWith(around, v, inner))])
  }

  predicate Apart(outer: seq<Field>, inner: seq<Field>) {
    Get(JObj(outer), INVOICE).None? && Get(JObj(inner), BREAKDOWN).None?
  }

  lemma {:induction false} LeadsToValue(h: Host, around: string, v: Json, outer: seq<Field>, inner: seq<Field>)
    requires IsAround(around) && Apart(outer, inner)
    ensures Resolve(h, DocumentWith(around, v, outer, inner), around, 0) == Some(v)
  {
    hide StepInto, FindChar, Get;
    var inv := InvoiceWith(around, v, inner);
    PathParts(h, around, DocumentWith(around, v, outer, inner));
    PathParts(h, around, inv);
    GetAppend(outer, Field(INVOICE, inv), INVOICE);
    GetAppend(inner, Field(BREAKDOWN, v), BREAKDOWN);
    assert BREAKDOWN_PATH[8..|BREAKDOWN_PATH|] == BREAKDOWN_PATH[8..];
  }

  lemma {:induction false} ChangeAppend(fields: seq<Field>, f: Field, key: string, g: Json -> Json)
    ensures Change(fields + [f], key, g) == Change(fields, key, g) + [ChangeField(f, key, g)]
  {
  }

  lemma {:induction false} ErasesAlike(around: string, v: Json, w: Json, outer: seq<Field>, inner: seq<Field>)
    requires IsAround(around) && EraseFact(around, Some(v)) == EraseFact(around, Some(w))
    ensures Erase(DocumentWith(around, v, outer, inner)) == Erase(DocumentWith(around, w, outer, inner))
  {
    hide Change, EraseBreakdown;
    PathsDiffer();
    ChangeAppend(outer, Field(INVOICE, InvoiceWith(around, v, inner)), INVOICE, EraseInvoice);
    ChangeAppend(outer, Field(INVOICE, InvoiceWith(around, w, inner)), INVOICE, EraseInvoice);
    ChangeAppend(inner, Field(BREAKDOWN, v), BREAKDOWN, EraseBreakdown);
    ChangeAppend(inner, Field(BREAKDOWN, w), BREAKDOWN, EraseBreakdown);
  }

  lemma {:induction false} IsScalarAround(around: string, v: Json, outer: seq<Field>, inner: seq<Field>)
    requires IsAround(around) && Apart(outer, inner) && ScalarFact(around, Some(v))
    ensures ScalarDocument(DocumentWith(around, v, outer, inner))
  {
    hide ScalarClaims;
    PathsDiffer();
    assert ScalarInvoice(InvoiceWith(around, v, inner));
  }

  // ---------------------------------------------------------------- the same value with and without a claim

  predicate HasFlag(fields: seq<Field>) { exists i :: 0 <= i < |fields| && IsFlag(fields[i].name) }

  /** A breakdown with its claims dropped, or with one put in if there is none. */
  function Toggled(fields: seq<Field>): seq<Field> {
    if HasFlag(fields) then DropFlags(fields, |fields|) else fields + [Field(HAS_IGST, JBool(true))]
  }

  lemma {:induction false} NothingToDrop(fields: seq<Field>, n: nat)
    requires n <= |fields| && !HasFlag(fields)
    ensures DropFlags(fields, n) == fields[..n]
  {
    hide IsFlag;
    if n > 0 {
      NothingToDrop(fields, n - 1);
      assert fields[..n] == fields[..n - 1] + [fields[n - 1]];
    }
  }

  lemma {:induction false} DropPrefix(a: seq<Field>, b: seq<Field>, n: nat)
    requires n <= |a|
    ensures DropFlags(a + b, n) == DropFlags(a, n)
  {
    if n > 0 {
      DropPrefix(a, b, n - 1);
    }
  }

  lemma {:induction false} ToggledDiffers(fields: seq<Field>)
    ensures var t := Toggled(fields);
            t != fields && EraseBreakdown(JObj(t)) == EraseBreakdown(JObj(fields)) &&
              (ScalarClaims(JObj(fields)) ==> ScalarClaims(JObj(t)))
  {
    hide IsFlag;
    var t := Toggled(fields);
    if HasFlag(fields) {
      DroppedHasNoFlag(fields, |fields|);
      NothingToDrop(t, |t|);
      assert t[..|t|] == t;
    } else {
      DropPrefix(fields, [Field(HAS_IGST, JBool(true))], |fields|);
      FlagNames(HAS_IGST);
      assert t[..|fields|] == fields;
    }
  }

  lemma {:induction false} ToggledInvoice(v: Json) returns (w: Json)
    requires HoldsBreakdown(v) && ScalarInvoice(v)
    ensures w != v && EraseInvoice(w) == EraseInvoice(v) && ScalarInvoice(w)
  {
    hide EraseBreakdown, ScalarClaims, Toggled;
    var i :| 0 <= i < |v.fields| && v.fields[i].name == BREAKDOWN && v.fields[i].value.JObj?;
    var t := JObj(Toggled(v.fields[i].value.fields));
    ToggledDiffers(v.fields[i].value.fields);
    w := JObj(v.fields[i := Field(BREAKDOWN, t)]);
    assert w.fields[i].value != v.fields[i].value;
    assert Change(w.fields, BREAKDOWN, EraseBreakdown) == Change(v.fields, BREAKDOWN, EraseBreakdown);
  }

  /** A literal that can tell has a twin that differs from it only in the claims. */
  lemma {:induction false} Twin(around: string, lit: Json) returns (w: Json)
    requires CanTell(around, lit)
    ensures IsAround(around) && w != lit && EraseFact(around, Some(w)) == EraseFact(around, Some(lit))
    ensures ScalarFact(around, Some(lit)) && ScalarFact(around, Some(w))
  {
    hide EraseBreakdown, EraseInvoice, ScalarClaims, ScalarInvoice, HoldsBreakdown, Toggled;
    PathsDiffer();
    if around == INVOICE {
      w := ToggledInvoice(lit);
    } else {
      ToggledDiffers(lit.fields);
      w := JObj(Toggled(lit.fields));
    }
  }

  // ---------------------------------------------------------------- comparing with a literal

  lemma {:induction false} IsLeaf(e: Engine, m: TaxFlags, doc: Json, check: Json, field: string, op: string)
    requires check.JObj? && StringOf(check, "field") == Some(field) && Get(check, "op") == Some(JStr(op))
    ensures EvalCheck(e, m, doc, check) == Some(LeafOutcome(e, m, doc, check, field, Canonical(op)))
  {
    hide LeafOutcome;
  }

  /** The document with the literal and the one with its twin have different outcomes. */
  lemma {:induction false} LiteralDiffers(e: Engine, m: TaxFlags, check: Json, field: string, op: string,
      outer: seq<Field>, inner: seq<Field>)
    returns (a: Json, b: Json)
    requires check.JObj? && StringOf(check, "field") == Some(field) && Get(check, "op") == Some(JStr(op))
    requires (Canonical(op) == "eq" || Canonical(op) == "neq") && CanTell(field, Literal(e, check))
    requires Apart(outer, inner)
    ensures a == DocumentWith(field, Literal(e, check), outer, inner) && Tells(e, m, check, a, b)
  {
    hide CanTell, Literal, StringOf, Get, Fires, Erase, ScalarDocument, EvalCheck, Resolve, EraseFact, ScalarFact;
    hide Canonical, DocumentWith, Apart;
    var lit := Literal(e, check);
    var w := Twin(field, lit);
    a, b := DocumentWith(field, lit, outer, inner), DocumentWith(field, w, outer, inner);
    LeadsToValue(e.host, field, lit, outer, inner);
    LeadsToValue(e.host, field, w, outer, inner);
    ErasesAlike(field, lit, w, outer, inner);
    IsScalarAround(field, lit, outer, inner);
    IsScalarAround(field, w, outer, inner);
    PathsDiffer();
    LiteralOutcome(e, m, a, check, field, op);
    LiteralOutcome(e, m, b, check, field, op);
  }

  lemma {:induction false} LiteralOutcome(e: Engine, m: TaxFlags, doc: Json, check: Json, field: string, op: string)
    requires check.JObj? && StringOf(check, "field") == Some(field) && Get(check, "op") == Some(JStr(op))
    requires Canonical(op) == "eq" || Canonical(op) == "neq"
    ensures var (r, fact) := (EvalCheck(e, m, doc, check), Fact(e, m, doc, field));
            && r.Some? && r.value.text == Labelled(field, Canonical(op), IsKnown(Canonical(op)))
            && (r.value.fired <==> fact.Some? && (Canonical(op) == "eq" <==> fact == Some(Literal(e, check))))
  {
    hide Literal, StringOf, Get, Fires, EvalCheck, Fact, Canonical, Labelled, IsKnown;
    IsLeaf(e, m, doc, check, field, op);
    LiteralFires(Canonical(op), Fact(e, m, doc, field), OtherFact(e, m, doc, check), Literal(e, check),
      Get(check, "values"));
  }

  lemma {:induction false} LiteralTells(e: Engine, m: TaxFlags, check: Json, field: string, op: string)
    requires check.JObj? && StringOf(check, "field") == Some(field) && Get(check, "op") == Some(JStr(op))
    requires (Canonical(op) == "eq" || Canonical(op) == "neq") && CanTell(field, Literal(e, check))
    ensures Interferes(e, m, check)
  {
    hide CanTell, Literal, StringOf, Get, Tells, DocumentWith, Canonical;
    NoFields(INVOICE);
    NoFields(BREAKDOWN);
    var a, b := LiteralDiffers(e, m, check, field, op, [], []);
  }

  // ---------------------------------------------------------------- comparing two facts

  /** A value in which the rest of a path leads to `w`. */
  function Place(h: Host, path: string, start: nat, w: Json): Json
    requires start <= |path|
    decreases |path| - start
  {
    var dot := FindChar(path, '.', start);
    Under(h, path[start..dot], if dot == |path| then w else Place(h, path, dot + 1, w))
  }

  /** A value in which a segment leads to `inner`: an object, or an array that is long enough for the index. */
  function Under(h: Host, seg: string, inner: Json): Json {
    if IsKey(seg) then JObj([Field(seg, inner)])
    else JArr(seq(h.index(seg[FindChar(seg, '[', 0)..]) + 1, i => inner))
  }

  lemma {:induction false} UnderLeads(h: Host, seg: string, inner: Json)
    ensures StepInto(h, Under(h, seg, inner), seg) == Some(inner)
  {
  }

  lemma {:induction false} PlaceLeads(h: Host, path: string, start: nat, w: Json)
    requires start <= |path|
    ensures Resolve(h, Place(h, path, start, w), path, start) == Some(w)
    decreases |path| - start
  {
    hide StepInto, Under, FindChar;
    var dot := FindChar(path, '.', start);
    if dot < |path| {
      PlaceLeads(h, path, dot + 1, w);
      UnderLeads(h, path[start..dot], Place(h, path, dot + 1, w));
    } else {
      UnderLeads(h, path[start..dot], w);
    }
  }

  /** The value after the segment that ends at `dot`. */
  function After(h: Host, path: string, dot: nat, w: Json): Json
    requires dot <= |path|
  {
    if dot == |path| then w else Place(h, path, dot + 1, w)
  }

  function Outer(h: Host, path: string, w: Json): seq<Field> {
    if BesideInvoice(path) then [Field(Head(path), After(h, path, FindChar(path, '.', 0), w))] else []
  }

  function Inner(h: Host, path: string, w: Json): seq<Field> {
    var dot := FindChar(path, '.', 0);
    if BesideInvoice(path) || dot == |path| then []
    else
      var next := FindChar(path, '.', dot + 1);
      [Field(path[dot + 1..next], After(h, path, next, w))]
  }

  lemma {:induction false} FirstGet(f: Field, g: Field, k: string)
    ensures Get(JObj([f] + [g]), k) ==
            if f.name == k then Some(f.value) else if g.name == k then Some(g.value) else None
    ensures Get(JObj([f]), k) == if f.name == k then Some(f.value) else None
  {
    hide Get;
    NoFields(k);
    GetAppend([], f, k);
    GetAppend([f], g, k);
    assert [] + [f] == [f];
  }

  lemma {:induction false} BesideIsApart(h: Host, around: string, path: string, w: Json)
    requires Beside(around, path)
    ensures Apart(Outer(h, path, w), Inner(h, path, w))
  {
    hide Get, FindChar, IsKey, After;
    NoFields(INVOICE);
    NoFields(BREAKDOWN);
    var dot := FindChar(path, '.', 0);
    var f := Field(Head(path), After(h, path, dot, w));
    FirstGet(f, f, INVOICE);
    if !BesideInvoice(path) {
      var next := FindChar(path, '.', dot + 1);
      var g := Field(path[dot + 1..next], After(h, path, next, w));
      FirstGet(g, g, BREAKDOWN);
    }
  }

  lemma {:induction false} KeyStep(h: Host, v: Json, seg: string)
    requires IsKey(seg)
    ensures StepInto(h, v, seg) == Get(v, seg)
  {
  }

  /** Going on after a step into `After`. */
  lemma {:induction false} GoOn(h: Host, cur: Json, path: string, start: nat, w: Json)
    requires start <= |path|
    requires var dot := FindChar(path, '.', start); StepInto(h, cur, path[start..dot]) == Some(After(h, path, dot, w))
    ensures Resolve(h, cur, path, start) == Some(w)
  {
    hide StepInto, FindChar, Place;
    var dot := FindChar(path, '.', start);
    if dot < |path| {
      PlaceLeads(h, path, dot + 1, w);
    }
  }

  lemma {:induction false} LeadsBeside(h: Host, around: string, path: string, v: Json, w: Json)
    requires Beside(around, path)
    ensures Resolve(h, DocumentWith(around, v, Outer(h, path, w), Inner(h, path, w)), path, 0) == Some(w)
  {
    hide StepInto, FindChar, IsKey, Get, After;
    var dot := FindChar(path, '.', 0);
    var doc := DocumentWith(around, v, Outer(h, path, w), Inner(h, path, w));
    assert path[0..dot] == Head(path);
    if BesideInvoice(path) {
      FirstGet(Outer(h, path, w)[0], Field(INVOICE, InvoiceWith(around, v, [])), Head(path));
      KeyStep(h, doc, Head(path));
      GoOn(h, doc, path, 0, w);
    } else {
      LeadsInside(h, path, v, w);
      NamesArePlain();
      KeyIsPlain();
      var inv := InvoiceWith(BREAKDOWN_PATH, v, Inner(h, path, w));
      assert doc == JObj([Field(INVOICE, inv)]);
      FirstGet(Field(INVOICE, inv), Field(INVOICE, inv), INVOICE);
      KeyStep(h, doc, INVOICE);
    }
  }

  lemma {:induction false} KeyIsPlain()
    ensures IsKey(INVOICE) && IsKey(BREAKDOWN)
  {
    NamesArePlain();
  }

  lemma {:induction false} LeadsInside(h: Host, path: string, v: Json, w: Json)
    requires BesideBreakdown(path) && !BesideInvoice(path)
    ensures var dot := FindChar(path, '.', 0);
            && dot < |path|
            && Resolve(h, InvoiceWith(BREAKDOWN_PATH, v, Inner(h, path, w)), path, dot + 1) == Some(w)
  {
    hide StepInto, FindChar, IsKey, Get, After;
    PathsDiffer();
    var dot := FindChar(path, '.', 0);
    var next := FindChar(path, '.', dot + 1);
    var inv := InvoiceWith(BREAKDOWN_PATH, v, Inner(h, path, w));
    FirstGet(Inner(h, path, w)[0], Field(BREAKDOWN, v), path[dot + 1..next]);
    KeyStep(h, inv, path[dot + 1..next]);
    GoOn(h, inv, path, dot + 1, w);
  }

  /** A path beside the flags is not a path to one. */
  lemma {:induction false} BesideIsNoFlag(around: string, path: string)
    requires Beside(around, path)
    ensures path != IGST_PATH && path != CGST_SGST_PATH && path != around && IsAround(around)
  {
    hide IsKey, Contains;
    if path == IGST_PATH || path == CGST_SGST_PATH {
      FlagPathParts(path);
    } else if path == around {
      AroundParts(path);
    }
  }

  lemma {:induction false} FlagPathParts(path: string)
    requires path == IGST_PATH || path == CGST_SGST_PATH
    ensures Head(path) == INVOICE && FindChar(path, '.', 0) == 7 && path[8..FindChar(path, '.', 8)] == BREAKDOWN
  {
    FirstDot(path, 0, 7);
    FirstDot(path, 8, 21);
  }

  lemma {:induction false} AroundParts(path: string)
    requires IsAround(path)
    ensures Head(path) == INVOICE && FindChar(path, '.', 0) == 7
    ensures path == BREAKDOWN_PATH ==> path[8..FindChar(path, '.', 8)] == BREAKDOWN
  {
    FirstDot(path, 0, 7);
    if path == BREAKDOWN_PATH {
      FirstDot(path, 8, 21);
    }
  }

  /** The smallest value at a path around the flags. */
  function Smallest(around: string): Json {
    if around == INVOICE then JObj([Field(BREAKDOWN, JObj([]))]) else JObj([])
  }

  lemma {:induction false} SmallestCanTell(around: string)
    requires IsAround(around)
    ensures CanTell(around, Smallest(around))
  {
    PathsDiffer();
    assert around == INVOICE ==> Smallest(around).fields[0].name == BREAKDOWN && Smallest(around).fields[0].value.JObj?;
  }

  /** A document in which both paths lead to the smallest value, and its twin, in which one of them claims a flag. */
  lemma {:induction false} BesideDiffers(e: Engine, m: TaxFlags, around: string, path: string)
    returns (a: Json, b: Json)
    requires Beside(around, path)
    ensures Erase(a) == Erase(b) && ScalarDocument(a) && ScalarDocument(b)
    ensures !Differ(Fact(e, m, a, around), Fact(e, m, a, path)) && Differ(Fact(e, m, b, around), Fact(e, m, b, path))
  {
    hide Beside, Erase, ScalarDocument, Resolve, DocumentWith, EraseFact, ScalarFact, Smallest, Outer, Inner, CanTell;
    BesideIsNoFlag(around, path);
    PathsDiffer();
    SmallestCanTell(around);
    var v := Smallest(around);
    var w := Twin(around, v);
    var (outer, inner) := (Outer(e.host, path, v), Inner(e.host, path, v));
    BesideIsApart(e.host, around, path, v);
    a, b := DocumentWith(around, v, outer, inner), DocumentWith(around, w, outer, inner);
    LeadsToValue(e.host, around, v, outer, inner);
    LeadsToValue(e.host, around, w, outer, inner);
    LeadsBeside(e.host, around, path, v, v);
    LeadsBeside(e.host, around, path, w, v);
    ErasesAlike(around, v, w, outer, inner);
    IsScalarAround(around, v, outer, inner);
    IsScalarAround(around, w, outer, inner);
  }

  lemma {:induction false} CrossTells(e: Engine, m: TaxFlags, check: Json, field: string, path: string)
    requires check.JObj? && StringOf(check, "field") == Some(field) && Get(check, "op") == Some(JStr("ne_cross"))
    requires StringOf(check, "value_from") == Some(path) && (Beside(field, path) || Beside(path, field))
    ensures Interferes(e, m, check)
  {
    hide Beside, Erase, ScalarDocument, StringOf, Get, Fact, Fires, EvalCheck, Literal, Canonical;
    var a, b;
    if Beside(field, path) {
      a, b := BesideDiffers(e, m, field, path);
    } else {
      a, b := BesideDiffers(e, m, path, field);
    }
    CrossOutcome(e, m, a, check, field, path);
    CrossOutcome(e, m, b, check, field, path);
    assert Tells(e, m, check, a, b);
  }

  lemma {:induction false} CrossOutcome(e: Engine, m: TaxFlags, doc: Json, check: Json, field: string, path: string)
    requires check.JObj? && StringOf(check, "field") == Some(field) && Get(check, "op") == Some(JStr("ne_cross"))
    requires StringOf(check, "value_from") == Some(path)
    ensures EvalCheck(e, m, doc, check).Some?
    ensures EvalCheck(e, m, doc, check).value.fired <==> Differ(Fact(e, m, doc, field), Fact(e, m, doc, path))
  {
    hide StringOf, Get, Fact, Fires, EvalCheck, Literal;
    IsLeaf(e, m, doc, check, field, "ne_cross");
    CrossFires(Fact(e, m, doc, field), Fact(e, m, doc, path), Literal(e, check), Get(check, "values"));
  }

  // ---------------------------------------------------------------- exactly

  /**
   * A check that is no group can tell a claim from its absence exactly if it compares the breakdown or the invoice
   * with a literal or a fact that can equal it.
   */
  lemma {:induction false} InterferesExactly(e: Engine, m: TaxFlags, check: Json)
    requires !IsGroup(check)
    ensures Interferes(e, m, check) <==> !Clean(e, check)
  {
    hide Erase, ScalarDocument, EvalCheck, StringOf, Get, Literal, CanTell, Beside;
    if Clean(e, check) {
      forall a: Json, b: Json ensures !Tells(e, m, check, a, b) {
        if Erase(a) == Erase(b) && ScalarDocument(a) && ScalarDocument(b) {
          CheckIgnoresClaims(e, m, a, check);
          CheckIgnoresClaims(e, m, b, check);
        }
      }
    } else {
      var field, op := StringOf(check, "field").value, Get(check, "op").value.text;
      if Canonical(op) == "ne_cross" {
        CrossTells(e, m, check, field, StringOf(check, "value_from").value);
      } else {
        LiteralTells(e, m, check, field, op);
      }
    }
  }

  // ---------------------------------------------------------------- the same among the documents that are accepted

  /** Two accepted documents that differ only in what they claim give the check different outcomes. */
  ghost predicate InterferesOnAccepted(e: Engine, d: Doubles, check: Json) {
    exists a: Json, b: Json :: TellsOnAccepted(e, d, check, a, b)
  }

  predicate TellsOnAccepted(e: Engine, d: Doubles, check: Json, a: Json, b: Json) {
    var (v, w) := (Validate(d, a), Validate(d, b));
    && Erase(a) == Erase(b) && ScalarDocument(a) && ScalarDocument(b) && v.Accepted? && w.Accepted?
    && EvalCheck(e, v.value.Flags(), a, check) != EvalCheck(e, w.value.Flags(), b, check)
  }

  /** What an accepted document can have at a path around the flags. */
  predicate CanBeRead(d: Doubles, around: string, v: Json) {
    if around == INVOICE then GoodInvoice(d, v) else GoodBreakdown(d, v)
  }

  lemma {:induction false} AcceptedFact(h: Host, d: Doubles, doc: Json, around: string)
    requires IsAround(around) && Validate(d, doc).Accepted?
    ensures var fact := Resolve(h, doc, around, 0); fact.Some? && CanBeRead(d, around, fact.value)
  {
    hide StepInto, FindChar, Get, GoodHeading, GoodLines, GoodBreakdown, IsMoney, GoodSupplier, GoodBuyer, Validate;
    AcceptedExactly(d, doc);
    PathParts(h, around, doc);
    PathParts(h, around, Get(doc, INVOICE).value);
    PathsDiffer();
    assert BREAKDOWN_PATH[8..|BREAKDOWN_PATH|] == BREAKDOWN_PATH[8..];
  }

  const SUPPLIER := JObj([Field("gstin", JStr("")), Field("name", JStr("")), Field("address_state", JStr(""))])

  /** The fields of an invoice without lines, but for its breakdown. */
  const FIELDS := [
    Field("number", JStr("")), Field("date", JStr("")), Field("place_of_supply", JStr("")),
    Field("hsn_string", JStr("")), Field("supply_type", JStr("INTRA")), Field("classification", JStr("B2B")),
    Field("irn_present", JBool(false)), Field("base_value", JNum(0.0)), Field("line_items", JArr([])),
    Field("total_value", JNum(0.0))]

  lemma {:induction false} GetAt(fields: seq<Field>, key: string, i: nat)
    requires i < |fields| && fields[i].name == key && forall k :: 0 <= k < i ==> fields[k].name != key
    ensures Get(JObj(fields), key) == Some(fields[i].value)
  {
    var p := Facts.Position(fields, key, 0);
    assert p == i;
  }

  lemma {:induction false} SupplierIsGood()
    ensures GoodSupplier(SUPPLIER)
  {
    hide Get;
    var fs := SUPPLIER.fields;
    assert |fs[0].name| == 5 && |fs[1].name| == 4 && |fs[2].name| == 13 && |"aato_crore"| == 10;
    GetAt(fs, "gstin", 0);
    GetAt(fs, "name", 1);
    GetAt(fs, "address_state", 2);
    NotThere(fs, "aato_crore");
  }

  lemma {:induction false} NotThere(fields: seq<Field>, key: string)
    requires forall k :: 0 <= k < |fields| ==> fields[k].name != key
    ensures Get(JObj(fields), key).None?
  {
  }

  /** Length and first character of a name. */
  function Shape(name: string): (nat, char) { (|name|, if name == "" then ' ' else name[0]) }

  lemma {:induction false} Shapes()
    ensures forall i, j :: 0 <= i < j < |FIELDS| ==> Shape(FIELDS[i].name) != Shape(FIELDS[j].name)
    ensures forall i :: 0 <= i < |FIELDS| ==> Shape(FIELDS[i].name) != Shape(BREAKDOWN)
  {
    var shapes :=
      [(6, 'n'), (4, 'd'), (15, 'p'), (10, 'h'), (11, 's'), (14, 'c'), (11, 'i'), (10, 'b'), (10, 'l'), (11, 't')];
    assert forall i :: 0 <= i < |FIELDS| ==> Shape(FIELDS[i].name) == shapes[i];
    assert forall i, j :: 0 <= i < j < |shapes| ==> shapes[i] != shapes[j];
    assert Shape(BREAKDOWN) == (13, 't');
  }

  lemma {:induction false} FieldAt(v: Json, i: nat)
    requires i < |FIELDS|
    ensures Get(JObj(FIELDS + [Field(BREAKDOWN, v)]), FIELDS[i].name) == Some(FIELDS[i].value)
  {
    hide Get, Shape;
    Shapes();
    GetAt(FIELDS + [Field(BREAKDOWN, v)], FIELDS[i].name, i);
  }

  lemma {:induction false} BreakdownAt(v: Json)
    ensures Get(JObj(FIELDS + [Field(BREAKDOWN, v)]), BREAKDOWN) == Some(v) && Get(JObj(FIELDS), BREAKDOWN).None?
  {
    hide Get, Shape;
    Shapes();
    GetAt(FIELDS + [Field(BREAKDOWN, v)], BREAKDOWN, 10);
    NotThere(FIELDS, BREAKDOWN);
  }

  lemma {:induction false} FieldsAreGood(d: Doubles, v: Json)
    requires d.hundredfold(0.0) == 0.0 && GoodBreakdown(d, v)
    ensures GoodInvoice(d, JObj(FIELDS + [Field(BREAKDOWN, v)]))
  {
    hide Get, GoodBreakdown;
    HeadingIsGood(v);
    FieldAt(v, 7);
    FieldAt(v, 8);
    FieldAt(v, 9);
    BreakdownAt(v);
  }

  lemma {:induction false} HeadingIsGood(v: Json)
    ensures GoodHeading(JObj(FIELDS + [Field(BREAKDOWN, v)]))
  {
    hide Get;
    FieldAt(v, 0);
    FieldAt(v, 1);
    FieldAt(v, 2);
    FieldAt(v, 3);
    FieldAt(v, 4);
    FieldAt(v, 5);
    FieldAt(v, 6);
  }

  /** The fields beside a value at a path around the flags that make an accepted document. */
  function Beneath(around: string): seq<Field> { if around == INVOICE then [] else FIELDS }

  lemma {:induction false} IsAccepted(d: Doubles, around: string, v: Json)
    requires IsAround(around) && d.hundredfold(0.0) == 0.0 && CanBeRead(d, around, v)
    ensures Apart([Field("supplier", SUPPLIER)], Beneath(around))
    ensures Validate(d, DocumentWith(around, v, [Field("supplier", SUPPLIER)], Beneath(around))).Accepted?
  {
    hide Get, GoodInvoice, GoodBreakdown, GoodSupplier, Validate;
    PathsDiffer();
    SupplierIsGood();
    if around == BREAKDOWN_PATH {
      FieldsAreGood(d, v);
    }
    var (s, i) := (Field("supplier", SUPPLIER), Field(INVOICE, InvoiceWith(around, v, Beneath(around))));
    assert "supplier"[0] == 's' && "buyer"[0] == 'b' && |"irp"| == 3 && INVOICE[0] == 'i' && |INVOICE| == 7;
    FirstGet(s, i, "supplier");
    FirstGet(s, i, INVOICE);
    FirstGet(s, i, "buyer");
    FirstGet(s, i, "irp");
    BreakdownAt(v);
    NoFields(BREAKDOWN);
    AcceptedExactly(d, DocumentWith(around, v, [s], Beneath(around)));
  }

  /**
   * Among the accepted documents too, a comparison with a literal can tell a claim exactly if the literal can be what
   * an accepted document holds there.
   */
  lemma {:induction false} InterferesOnAcceptedExactly(e: Engine, d: Doubles, check: Json, field: string, op: string)
    requires d.hundredfold(0.0) == 0.0 && check.JObj?
    requires StringOf(check, "field") == Some(field) && Get(check, "op") == Some(JStr(op))
    requires Canonical(op) == "eq" || Canonical(op) == "neq"
    ensures InterferesOnAccepted(e, d, check) <==>
            CanTell(field, Literal(e, check)) && CanBeRead(d, field, Literal(e, check))
  {
    hide Erase, ScalarDocument, EvalCheck, StringOf, Get, Literal, CanTell, CanBeRead, Validate, Canonical, Tells;
    hide DocumentWith, Apart, Beneath;
    if CanTell(field, Literal(e, check)) && CanBeRead(d, field, Literal(e, check)) {
      var w := Twin(field, Literal(e, check));
      IsAccepted(d, field, Literal(e, check));
      var doc := DocumentWith(field, Literal(e, check), [Field("supplier", SUPPLIER)], Beneath(field));
      var m := Validate(d, doc).value.Flags();
      var a, b := LiteralDiffers(e, m, check, field, op, [Field("supplier", SUPPLIER)], Beneath(field));
      StillAccepted(e, d, m, check, a, b);
    } else {
      forall a: Json, b: Json ensures !TellsOnAccepted(e, d, check, a, b) {
        if TellsOnAccepted(e, d, check, a, b) {
          AcceptedCannotTell(e, d, check, field, op, a, b);
        }
      }
    }
  }

  lemma {:induction false} StillAccepted(e: Engine, d: Doubles, m: TaxFlags, check: Json, a: Json, b: Json)
    requires Tells(e, m, check, a, b) && Validate(d, a).Accepted? && m == Validate(d, a).value.Flags()
    ensures TellsOnAccepted(e, d, check, a, b)
  {
    hide Erase, ScalarDocument, EvalCheck, Validate;
    ValidationIgnoresClaims(d, a);
    ValidationIgnoresClaims(d, b);
  }

  lemma {:induction false} AcceptedCannotTell(e: Engine, d: Doubles, check: Json, field: string, op: string,
      a: Json, b: Json)
    requires check.JObj? && StringOf(check, "field") == Some(field) && Get(check, "op") == Some(JStr(op))
    requires Canonical(op) == "eq" || Canonical(op) == "neq"
    requires !CanTell(field, Literal(e, check)) || !CanBeRead(d, field, Literal(e, check))
    ensures !TellsOnAccepted(e, d, check, a, b)
  {
    hide Erase, ScalarDocument, EvalCheck, StringOf, Get, Literal, CanTell, CanBeRead, Validate, Canonical, Resolve;
    hide Labelled;
    if TellsOnAccepted(e, d, check, a, b) {
      ValidationIgnoresClaims(d, a);
      ValidationIgnoresClaims(d, b);
      var m := Validate(d, a).value.Flags();
      if CanTell(field, Literal(e, check)) {
        var w := Twin(field, Literal(e, check));
        PathsDiffer();
        AcceptedFact(e.host, d, a, field);
        AcceptedFact(e.host, d, b, field);
        LiteralOutcome(e, m, a, check, field, op);
        LiteralOutcome(e, m, b, check, field, op);
      } else {
        HasField(check, field);
        CheckIgnoresClaims(e, m, a, check);
        CheckIgnoresClaims(e, m, b, check);
      }
    }
  }

  lemma {:induction false} HasField(check: Json, field: string)
    requires StringOf(check, "field") == Some(field)
    ensures !IsGroup(check)
  {
  }
}
