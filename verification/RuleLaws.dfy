/** Non-interference: what a document claims about its tax flags cannot reach any result of the rules. */
module RuleLaws {
  import opened Prelude
  import opened Facts
  import opened Money
  import opened Validation
  import opened RuleEngine
  import opened Claims
  // ---------------------------------------------------------------- rules

  /** An object that a document with scalar claims can have as its breakdown. */
  predicate IsBreakdown(v: Json) { v.JObj? && ScalarClaims(v) }

  predicate HoldsBreakdown(v: Json) {
    v.JObj? && exists i :: 0 <= i < |v.fields| && v.fields[i].name == BREAKDOWN && v.fields[i].value.JObj?
  }

  /** A literal that can equal the object at the path, so that comparing the two can tell whether a flag is claimed. */
  predicate CanTell(path: string, lit: Json) {
    || (path == BREAKDOWN_PATH && IsBreakdown(lit))
    || (path == INVOICE && HoldsBreakdown(lit) && ScalarInvoice(lit))
  }

  predicate IsKey(segment: string) { !Contains(segment, '[') }

  /** The first segment of a path. */
  function Head(path: string): string { path[..FindChar(path, '.', 0)] }

  /** The path enters the document by another key than the invoice. */
  predicate BesideInvoice(path: string) { IsKey(Head(path)) && Head(path) != INVOICE }

  /** The path enters the document or the invoice by another key than the breakdown. */
  predicate BesideBreakdown(path: string) {
    var dot := FindChar(path, '.', 0);
    BesideInvoice(path) ||
    (Head(path) == INVOICE && dot < |path| && var s := path[dot + 1..FindChar(path, '.', dot + 1)];
     IsKey(s) && s != BREAKDOWN)
  }

  /** What `path` leads to can equal the object with the flags that `around` leads to. */
  predicate Beside(around: string, path: string) {
    (around == INVOICE && BesideInvoice(path)) || (around == BREAKDOWN_PATH && BesideBreakdown(path))
  }

  /** The check compares no object that holds the flags with something that can equal it. */
  predicate CleanLeaf(e: Engine, check: Json, field: string, op: string) {
    if op == "eq" || op == "neq" then !CanTell(field, Literal(e, check))
    else if op == "ne_cross" then
      match StringOf(check, "value_from")
      case None => true
      case Some(path) => !Beside(field, path) && !Beside(path, field)
    else true
  }

  /** No check, at any depth, can tell whether a flag is claimed. */
  predicate Clean(e: Engine, check: Json)
    decreases check, 1
  {
    if !check.JObj? then true
    else if IsGroup(check) then AllClean(e, Members(check), |Members(check)|)
    else match (StringOf(check, "field"), Get(check, "op"))
      case (Some(field), Some(JStr(op))) => CleanLeaf(e, check, field, Canonical(op))
      case _ => true
  }

  predicate AllClean(e: Engine, checks: seq<Json>, n: nat)
    requires n <= |checks|
    decreases checks, 0, n
  {
    n == 0 || (AllClean(e, checks, n - 1) && Clean(e, checks[n - 1]))
  }

  predicate CleanRule(e: Engine, rule: Rule) {
    && AllClean(e, Members(rule.condition), |Members(rule.condition)|)
    && (Get(rule.condition, "when").Some? ==> Clean(e, Get(rule.condition, "when").value))
  }

  // ---------------------------------------------------------------- facts and comparisons

  /** The derived flags hide the claimed ones; any other fact differs at most by the flags inside it. */
  lemma {:induction false} SimilarFacts(e: Engine, m: TaxFlags, doc: Json, path: string)
    requires ScalarDocument(doc)
    ensures Fact(e, m, Erase(doc), path) == EraseFact(path, Fact(e, m, doc, path))
    ensures ScalarFact(path, Fact(e, m, doc, path))
  {
    hide Resolve, ScalarDocument, Erase, EraseInvoice, EraseBreakdown, ScalarInvoice, ScalarClaims;
    PathsDiffer();
    DocumentWalk(e.host, doc, path);
  }

  /** Operators that do not compare cannot tell two objects apart. */
  lemma {:induction false} SimilarFires(op: string, path: string, fact: Option<Json>, other: Option<Json>, lit: Json,
      values: Option<Json>)
    requires op != "eq" && op != "neq" && op != "ne_cross"
    ensures Fires(op, EraseFact(path, fact), other, lit, values) == Fires(op, fact, other, lit, values)
  {
    hide Change, DropFlags, LengthAllowed;
  }

  lemma {:induction false} OtherMatters(op: string, a: Option<Json>, x: Option<Json>, y: Option<Json>, lit: Json,
      values: Option<Json>)
    requires op != "ne_cross"
    ensures Fires(op, a, x, lit, values) == Fires(op, a, y, lit, values)
  {
  }

  lemma {:induction false} DroppedHasNoFlag(fields: seq<Field>, n: nat)
    requires n <= |fields|
    ensures forall i :: 0 <= i < |DropFlags(fields, n)| ==> !IsFlag(DropFlags(fields, n)[i].name)
  {
    hide IsFlag;
    if n > 0 {
      DroppedHasNoFlag(fields, n - 1);
    }
  }

  lemma {:induction false} ErasedIsScalar(v: Json)
    ensures ScalarClaims(EraseBreakdown(v))
  {
    hide IsFlag;
    if v.JObj? {
      DroppedHasNoFlag(v.fields, |v.fields|);
    }
  }

  lemma {:induction false} ErasedInvoiceIsScalar(v: Json)
    ensures ScalarInvoice(EraseInvoice(v)) && (HoldsBreakdown(EraseInvoice(v)) <==> HoldsBreakdown(v))
    ensures !HoldsBreakdown(v) ==> EraseInvoice(v) == v
  {
    hide ScalarClaims;
    if v.JObj? {
      var w := EraseInvoice(v);
      forall i | 0 <= i < |v.fields| && v.fields[i].name == BREAKDOWN
        ensures ScalarClaims(w.fields[i].value) && w.fields[i].value.JObj? == v.fields[i].value.JObj?
      {
        ErasedIsScalar(v.fields[i].value);
      }
      if !HoldsBreakdown(v) {
        assert w.fields == v.fields;
      }
    }
  }

  /** Comparing with a literal that cannot tell gives the same with and without the claims. */
  lemma {:induction false} SameAsLiteral(path: string, fact: Option<Json>, lit: Json)
    requires !CanTell(path, lit) && ScalarFact(path, fact)
    ensures EraseFact(path, fact) == Some(lit) <==> fact == Some(lit)
  {
    hide ScalarClaims, ScalarInvoice, HoldsBreakdown;
    if fact.Some? && path == INVOICE {
      ErasedInvoiceIsScalar(fact.value);
      if !fact.value.JObj? {
        assert EraseInvoice(fact.value) == fact.value;
      }
    } else if fact.Some? && path == BREAKDOWN_PATH {
      ErasedIsScalar(fact.value);
    }
  }

  // ---------------------------------------------------------------- facts compared with each other

  /** What a path leads to is a proper part of where it starts. */
  lemma {:induction false} Inside(h: Host, cur: Json, path: string, start: nat)
    requires start <= |path|
    ensures Resolve(h, cur, path, start).Some? ==> Resolve(h, cur, path, start).value < cur
    decreases |path| - start
  {
    hide StepInto;
    var dot := FindChar(path, '.', start);
    var next := StepInto(h, cur, path[start..dot]);
    if next.Some? {
      StepInside(h, cur, path[start..dot]);
      if dot < |path| {
        Inside(h, next.value, path, dot + 1);
      }
    }
  }

  lemma {:induction false} StepInside(h: Host, cur: Json, seg: string)
    ensures StepInto(h, cur, seg).Some? ==> StepInto(h, cur, seg).value < cur
  {
  }

  lemma {:induction false} NoIndex(h: Host, cur: Json, seg: string)
    requires cur.JObj? && !IsKey(seg)
    ensures StepInto(h, cur, seg).None?
  {
  }

  /** The fact at an object around the flags never equals a fact at a path that is not beside it. */
  lemma {:induction false} NeverEqual(h: Host, doc: Json, around: string, path: string)
    requires around == INVOICE || around == BREAKDOWN_PATH
    requires path != around && !Beside(around, path)
    ensures var (a, b) := (Resolve(h, doc, around, 0), Resolve(h, doc, path, 0));
            a.Some? && b.Some? ==> a.value != b.value
  {
    hide StepInto, FindChar, IsKey, Get;
    PathParts(h, around, doc);
    var dot := FindChar(path, '.', 0);
    assert path[0..dot] == Head(path);
    if !doc.JObj? {
      NoField(doc, INVOICE);
    } else if !IsKey(Head(path)) {
      NoIndex(h, doc, Head(path));
    } else if Get(doc, INVOICE).Some? && Head(path) == INVOICE {
      NeverEqualInside(h, doc, around, path, Get(doc, INVOICE).value);
    }
  }

  lemma {:induction false} NeverEqualInside(h: Host, doc: Json, around: string, path: string, inner: Json)
    requires around == INVOICE || around == BREAKDOWN_PATH
    requires path != around && !Beside(around, path) && Head(path) == INVOICE
    requires StepInto(h, doc, INVOICE) == Some(inner)
    ensures var (a, b) := (Resolve(h, doc, around, 0), Resolve(h, doc, path, 0));
            a.Some? && b.Some? ==> a.value != b.value
  {
    hide StepInto, FindChar, IsKey, Get;
    PathParts(h, around, inner);
    var dot := FindChar(path, '.', 0);
    assert path[0..dot] == INVOICE;
    if dot == |path| {
      Inside(h, inner, BREAKDOWN_PATH, 8);
    } else {
      Inside(h, inner, path, dot + 1);
      if around == BREAKDOWN_PATH {
        AfterHead(path);
        BreakdownNeverEqual(h, inner, path, dot + 1);
      }
    }
  }

  lemma {:induction false} AfterHead(path: string)
    requires Head(path) == INVOICE && FindChar(path, '.', 0) < |path|
    ensures path[FindChar(path, '.', 0) + 1..] == BREAKDOWN ==> path == BREAKDOWN_PATH
  {
    var dot := FindChar(path, '.', 0);
    assert path == path[..dot] + "." + path[dot + 1..];
  }

  /** The same from inside the invoice on. */
  lemma {:induction false} BreakdownNeverEqual(h: Host, inner: Json, path: string, start: nat)
    requires start <= |path| && path[start..] != BREAKDOWN
    requires var s := path[start..FindChar(path, '.', start)]; !IsKey(s) || s == BREAKDOWN
    ensures var (a, b) := (Resolve(h, inner, BREAKDOWN_PATH, 8), Resolve(h, inner, path, start));
            a.Some? && b.Some? ==> a.value != b.value
  {
    hide StepInto, FindChar, IsKey, Get;
    PathParts(h, BREAKDOWN_PATH, inner);
    var dot := FindChar(path, '.', start);
    var s := path[start..dot];
    assert BREAKDOWN_PATH[8..|BREAKDOWN_PATH|] == BREAKDOWN_PATH[8..];
    if !inner.JObj? {
      NoField(inner, BREAKDOWN);
    } else if !IsKey(s) {
      NoIndex(h, inner, s);
    } else if dot < |path| && StepInto(h, inner, s).Some? {
      Inside(h, StepInto(h, inner, s).value, path, dot + 1);
    }
  }

  lemma {:induction false} EraseKeepsKind(path: string, fact: Option<Json>)
    ensures var erased := EraseFact(path, fact);
            fact.Some? == erased.Some? && (fact.Some? && !fact.value.JObj? ==> erased == fact) &&
              (fact.Some? && fact.value.JObj? ==> erased.value.JObj?)
    ensures path != INVOICE && path != BREAKDOWN_PATH ==> EraseFact(path, fact) == fact
  {
    hide Change, DropFlags;
  }

  predicate Differ(a: Option<Json>, b: Option<Json>) { a.Some? && b.Some? && a.value != b.value }

  /** Comparing two facts that are not beside each other gives the same with and without the claims. */
  lemma {:induction false} SameCross(e: Engine, m: TaxFlags, doc: Json, p: string, q: string)
    requires ScalarDocument(doc) && !Beside(p, q) && !Beside(q, p)
    ensures Differ(Fact(e, m, Erase(doc), p), Fact(e, m, Erase(doc), q)) <==>
            Differ(Fact(e, m, doc, p), Fact(e, m, doc, q))
  {
    hide Resolve, Erase, ScalarDocument, Beside, EraseFact, ScalarFact;
    SimilarFacts(e, m, doc, p);
    SimilarFacts(e, m, doc, q);
    EraseKeepsKind(p, Fact(e, m, doc, p));
    EraseKeepsKind(q, Fact(e, m, doc, q));
    if p != q {
      if p == INVOICE || p == BREAKDOWN_PATH {
        CrossAround(e, m, doc, p, q);
      } else if q == INVOICE || q == BREAKDOWN_PATH {
        CrossAround(e, m, doc, q, p);
      }
    }
  }

  lemma {:induction false} CrossAround(e: Engine, m: TaxFlags, doc: Json, around: string, path: string)
    requires around == INVOICE || around == BREAKDOWN_PATH
    requires ScalarDocument(doc) && path != around && !Beside(around, path)
    ensures Differ(Fact(e, m, Erase(doc), around), Fact(e, m, Erase(doc), path)) <==>
            Differ(Fact(e, m, doc, around), Fact(e, m, doc, path))
  {
    hide Resolve, Erase, ScalarDocument, Beside, EraseFact, ScalarFact;
    PathsDiffer();
    SimilarFacts(e, m, doc, around);
    SimilarFacts(e, m, doc, path);
    EraseKeepsKind(around, Fact(e, m, doc, around));
    EraseKeepsKind(path, Fact(e, m, doc, path));
    NeverEqual(e.host, doc, around, path);
    NeverEqual(e.host, Erase(doc), around, path);
  }

  // ---------------------------------------------------------------- checks, templates and rules

  lemma {:induction false} LeafIgnoresClaims(e: Engine, m: TaxFlags, doc: Json, check: Json, field: string, op: string)
    requires ScalarDocument(doc) && CleanLeaf(e, check, field, op)
    ensures LeafOutcome(e, m, Erase(doc), check, field, op) == LeafOutcome(e, m, doc, check, field, op)
  {
    hide Fact, Erase, ScalarDocument, Literal, Labelled, EraseFact, ScalarFact, CanTell, Beside, Fires;
    var (lit, values, fact) := (Literal(e, check), Get(check, "values"), Fact(e, m, doc, field));
    var (x, y) := (OtherFact(e, m, Erase(doc), check), OtherFact(e, m, doc, check));
    SimilarFacts(e, m, doc, field);
    if op == "ne_cross" {
      if StringOf(check, "value_from").Some? {
        SameCross(e, m, doc, field, StringOf(check, "value_from").value);
      }
      CrossFires(Fact(e, m, Erase(doc), field), x, lit, values);
      CrossFires(fact, y, lit, values);
    } else {
      OtherMatters(op, EraseFact(field, fact), x, y, lit, values);
      if op == "eq" || op == "neq" {
        SameAsLiteral(field, fact, lit);
        EraseKeepsKind(field, fact);
        LiteralFires(op, fact, y, lit, values);
        LiteralFires(op, EraseFact(field, fact), y, lit, values);
      } else {
        SimilarFires(op, field, fact, y, lit, values);
      }
    }
  }

  lemma {:induction false} CrossFires(fact: Option<Json>, other: Option<Json>, lit: Json, values: Option<Json>)
    ensures Fires("ne_cross", fact, other, lit, values) <==> Differ(fact, other)
  {
  }

  lemma {:induction false} LiteralFires(op: string, fact: Option<Json>, other: Option<Json>, lit: Json,
      values: Option<Json>)
    requires op == "eq" || op == "neq"
    ensures Fires(op, fact, other, lit, values) <==> fact.Some? && (op == "eq" <==> fact == Some(lit))
  {
  }

  lemma {:induction false} CheckIgnoresClaims(e: Engine, m: TaxFlags, doc: Json, check: Json)
    requires ScalarDocument(doc) && Clean(e, check)
    ensures EvalCheck(e, m, Erase(doc), check) == EvalCheck(e, m, doc, check)
    decreases check, 1
  {
    hide LeafOutcome, ScalarDocument, Erase, GroupFires, GroupText, EvalAll, AllClean, CanTell, Beside, Canonical;
    if check.JObj? {
      if IsGroup(check) {
        ChecksIgnoreClaims(e, m, doc, Members(check), |Members(check)|);
      } else {
        var field, op := StringOf(check, "field"), Get(check, "op");
        if field.Some? && op.None? {
          LeafIgnoresClaims(e, m, doc, check, field.value, "");
        } else if field.Some? && op.value.JStr? {
          LeafIgnoresClaims(e, m, doc, check, field.value, Canonical(op.value.text));
        }
      }
    }
  }

  lemma {:induction false} ChecksIgnoreClaims(e: Engine, m: TaxFlags, doc: Json, checks: seq<Json>, n: nat)
    requires n <= |checks| && ScalarDocument(doc) && AllClean(e, checks, n)
    ensures EvalAll(e, m, Erase(doc), checks, n) == EvalAll(e, m, doc, checks, n)
    decreases checks, 0, n
  {
    hide EvalCheck, ScalarDocument, Erase, Clean;
    if n > 0 {
      ChecksIgnoreClaims(e, m, doc, checks, n - 1);
      CheckIgnoresClaims(e, m, doc, checks[n - 1]);
    }
  }

  /** None of the aliases leads to a flag or to an object around it. */
  lemma {:induction false} AliasIgnoresClaims(h: Host, doc: Json, token: string)
    requires ScalarDocument(doc) && token in ALIASES
    ensures Resolve(h, Erase(doc), ALIASES[token], 0) == Resolve(h, doc, ALIASES[token], 0)
  {
    hide Resolve, ScalarDocument, Erase;
    DocumentWalk(h, doc, ALIASES[token]);
    AliasLengths(token);
    assert |INVOICE| == 7 && |BREAKDOWN_PATH| == 21 && |IGST_PATH| == 30 && |CGST_SGST_PATH| == 35;
    EraseKeepsKind(ALIASES[token], Resolve(h, doc, ALIASES[token], 0));
  }

  lemma {:induction false} AliasLengths(token: string)
    requires token in ALIASES
    ensures |ALIASES[token]| in {11, 18, 19, 26, 31}
  {
  }

  lemma {:induction false} TokenIgnoresClaims(h: Host, token: string, t: Table, doc: Json)
    requires ScalarDocument(doc)
    ensures TokenText(h, token, t, Erase(doc)) == TokenText(h, token, t, doc)
  {
    hide Resolve, ScalarDocument, Erase, Format;
    if token in ALIASES {
      AliasIgnoresClaims(h, doc, token);
    }
  }

  lemma {:induction false} TemplateIgnoresClaims(h: Host, tpl: string, i: nat, t: Table, doc: Json)
    requires i <= |tpl| && ScalarDocument(doc)
    ensures Substituted(h, tpl, i, t, Erase(doc)) == Substituted(h, tpl, i, t, doc)
    decreases |tpl| - i
  {
    hide ScalarDocument, Erase, TokenText;
    if i < |tpl| {
      if tpl[i] != '{' {
        TemplateIgnoresClaims(h, tpl, i + 1, t, doc);
      } else {
        var close := FindChar(tpl, '}', i + 1);
        if close < |tpl| {
          TokenIgnoresClaims(h, tpl[i + 1..close], t, doc);
          TemplateIgnoresClaims(h, tpl, close + 1, t, doc);
        }
      }
    }
  }

  lemma {:induction false} MessageIgnoresClaims(e: Engine, m: TaxFlags, doc: Json, template: string)
    requires ScalarDocument(doc)
    ensures Message(e, m, Erase(doc), template) == Message(e, m, doc, template)
  {
    hide ScalarDocument, Erase, Substituted, WithFlags, Collect;
    TableIgnoresClaims(doc, m);
    TemplateIgnoresClaims(e.host, template, 0, WithFlags(Collect(doc, "", EMPTY_TABLE), m), doc);
  }

  lemma {:induction false} GateIgnoresClaims(e: Engine, m: TaxFlags, doc: Json, condition: Json)
    requires ScalarDocument(doc) && (Get(condition, "when").Some? ==> Clean(e, Get(condition, "when").value))
    ensures Gate(e, m, Erase(doc), condition) == Gate(e, m, doc, condition)
  {
    hide EvalCheck, ScalarDocument, Erase, Clean;
    if Get(condition, "when").Some? {
      CheckIgnoresClaims(e, m, doc, Get(condition, "when").value);
    }
  }

  lemma {:induction false} RuleIgnoresClaims(e: Engine, m: TaxFlags, doc: Json, rule: Rule)
    requires ScalarDocument(doc) && CleanRule(e, rule)
    ensures EvalRule(e, m, Erase(doc), rule) == EvalRule(e, m, doc, rule)
  {
    hide EvalAll, GroupFires, ScalarDocument, Erase, Clean, AllClean, Members, Message, Gate, FiredTexts, Texts;
    ChecksIgnoreClaims(e, m, doc, Members(rule.condition), |Members(rule.condition)|);
    GateIgnoresClaims(e, m, doc, rule.condition);
    MessageIgnoresClaims(e, m, doc, rule.messageTemplate);
  }

  lemma {:induction false} RulesIgnoreClaims(e: Engine, m: TaxFlags, doc: Json, n: nat)
    requires n <= |e.rules| && ScalarDocument(doc) && forall k :: 0 <= k < n ==> CleanRule(e, e.rules[k])
    ensures Evaluate(e, m, Erase(doc), n) == Evaluate(e, m, doc, n)
  {
    hide EvalRule, ScalarDocument, Erase, CleanRule;
    if n > 0 {
      RulesIgnoreClaims(e, m, doc, n - 1);
      RuleIgnoresClaims(e, m, doc, e.rules[n - 1]);
    }
  }

  /**
   * Documents that differ only in what they claim about the two flags are validated alike, have the same derived
   * flags, and give identical results: verdicts, fired checks and messages, or the same rejection or exception.
   */
  lemma {:induction false} ClaimsCannotInterfere(e: Engine, d: Doubles, a: Json, b: Json)
    requires Erase(a) == Erase(b) && ScalarDocument(a) && ScalarDocument(b)
    requires forall k :: 0 <= k < |e.rules| ==> CleanRule(e, e.rules[k])
    ensures EvaluateDocument(e, d, a) == EvaluateDocument(e, d, b)
  {
    hide Evaluate, Validate, ScalarDocument, CleanRule;
    ValidationIgnoresClaims(d, a);
    ValidationIgnoresClaims(d, b);
    var v := Validate(d, a);
    if v.Accepted? {
      RulesIgnoreClaims(e, v.value.Flags(), a, |e.rules|);
      RulesIgnoreClaims(e, v.value.Flags(), b, |e.rules|);
    }
  }
}
