/** What the seven rules of the 2026 configuration flag, for every document that validation accepts. */
module StatutoryRules {
  import opened Prelude
  import opened Facts
  import opened Money
  import opened Gstr
  import opened Validation
  import opened ValidationLaws
  import opened RuleEngine
  import opened RuleVerdicts
  import opened RuleMessages
  import I = Interference

  // ---------------------------------------------------------------- the conditions of the configuration

  /** A check with one field and one operator, and what else it names. */
  function Leaf(field: string, op: string, more: seq<Field>): Json {
    JObj([Field("field", JStr(field)), Field("op", JStr(op))] + more)
  }

  function Condition(op: string, when: Option<Json>, checks: seq<Json>): Json {
    JObj([Field("operator", JStr(op)), Field("checks", JArr(checks))] +
         match when case Some(gate) => [Field("when", gate)] case None => [])
  }

  const LIMIT := "e_invoicing_aato_crore"
  const SAME_STATE := "same_as_supplier_state"

  const TURNOVER :=
    Leaf("supplier.aato_crore", "gt", [Field("value", JNum(5.0)), Field("source", JStr("thresholds." + LIMIT))])
  const NO_IRN := Leaf("invoice.irn_present", "eq_false", [])
  const NOT_REPORTED := Leaf("irp.reported_on", "absent", [])
  const WITHIN_STATE := Leaf("invoice.place_of_supply", "eq", [Field("value", JStr(SAME_STATE))])
  const BETWEEN_STATES := Leaf("invoice.place_of_supply", "neq", [Field("value", JStr(SAME_STATE))])
  const CARRIES_IGST := Leaf("invoice.tax_breakdown.has_igst", "eq_true", [])
  const CARRIES_HALVES := Leaf("invoice.tax_breakdown.has_cgst_sgst", "eq_true", [])
  const LENGTHS := [JNum(4.0), JNum(6.0), JNum(8.0)]
  const ODD_LENGTH := Leaf("invoice.hsn_string", "token_length_out", [Field("values", JArr(LENGTHS))])
  const UNDETERMINED := Leaf("invoice.classification", "eq", [Field("value", JStr("UNDETERMINED"))])
  const NO_CONSUMER := Leaf("invoice.classification", "neq", [Field("value", JStr("B2C"))])
  const NO_BUYER := Leaf("buyer.gstin", "absent", [])

  const E_INVOICE := Condition("AND", Some(Leaf("supplier.aato_crore", "present", [])), [TURNOVER, NO_IRN])
  const REPORTING := Condition("AND", Some(Leaf("invoice.irn_present", "eq_true", [])), [NOT_REPORTED])
  const INTRA_SPLIT := Condition("AND", None, [WITHIN_STATE, CARRIES_IGST])
  const INTER_SPLIT := Condition("AND", None, [BETWEEN_STATES, CARRIES_HALVES])
  const HSN_LENGTH := Condition("AND", None, [ODD_LENGTH])
  const HALVES_DIFFER :=
    Leaf("invoice.tax_breakdown.sgst", "ne_cross", [Field("value_from", JStr("invoice.tax_breakdown.cgst"))])
  const EQUAL_CHECKS := [Leaf("invoice.tax_breakdown.cgst", "absent", []),
    Leaf("invoice.tax_breakdown.sgst", "absent", []), HALVES_DIFFER]
  const EQUAL_HALVES :=
    Condition("OR", Some(Leaf("invoice.tax_breakdown.has_igst", "eq_false", [])), EQUAL_CHECKS)
  const CLASSIFIED := Condition("OR", None, [UNDETERMINED,
    JObj([Field("operator", JStr("AND")), Field("checks", JArr([NO_CONSUMER, NO_BUYER]))])])

  // ---------------------------------------------------------------- reading them

  lemma {:induction false} LeafParts(field: string, op: string, more: seq<Field>)
    ensures IsLeaf(Leaf(field, op, more), field, op)
  {
    hide Get;
    var fs := Leaf(field, op, more).fields;
    assert |fs[0].name| == 5 && |fs[1].name| == 2;
    I.GetAt(fs, "field", 0);
    I.GetAt(fs, "op", 1);
  }

  /** What a check names beside its field and operator. */
  lemma {:induction false} LeafMore(field: string, op: string, more: seq<Field>, key: string)
    requires key != "field" && key != "op"
    ensures Get(Leaf(field, op, more), key) == Get(JObj(more), key)
  {
    var fs := Leaf(field, op, more).fields;
    var p := Facts.Position(more, key, 0);
    forall k | 0 <= k < 2 + p ensures fs[k].name != key {
      if k >= 2 {
        assert fs[k] == more[k - 2];
      }
    }
    if p < |more| {
      assert fs[2 + p] == more[p];
      I.GetAt(fs, key, 2 + p);
      I.GetAt(more, key, p);
    } else {
      I.NotThere(fs, key);
      I.NotThere(more, key);
    }
  }

  lemma {:induction false} ConditionParts(op: string, when: Option<Json>, checks: seq<Json>)
    ensures var c := Condition(op, when, checks);
            && Get(c, "operator") == Some(JStr(op)) && Get(c, "checks") == Some(JArr(checks)) && Get(c, "when") == when
  {
    hide Get;
    var fs := Condition(op, when, checks).fields;
    assert |fs[0].name| == 8 && |fs[1].name| == 6 && |"when"| == 4;
    I.GetAt(fs, "operator", 0);
    I.GetAt(fs, "checks", 1);
    if when.Some? {
      I.GetAt(fs, "when", 2);
    } else {
      I.NotThere(fs, "when");
    }
  }

  predicate Evaluates(e: Engine, m: TaxFlags, doc: Json, check: Json) { EvalCheck(e, m, doc, check).Some? }

  lemma {:induction false} LeafEvaluates(e: Engine, m: TaxFlags, doc: Json, field: string, op: string, more: seq<Field>)
    ensures Evaluates(e, m, doc, Leaf(field, op, more))
  {
    hide Leaf, Get, EvalCheck;
    LeafParts(field, op, more);
    LeafIsEvaluated(e, m, doc, Leaf(field, op, more), field, op);
  }

  /** A rule whose gate and checks can be evaluated. */
  lemma {:induction false} RuleLaw(e: Engine, m: TaxFlags, doc: Json, rule: Rule, op: string, when: Option<Json>,
      checks: seq<Json>)
    requires rule.condition == Condition(op, when, checks)
    requires when.Some? ==> Evaluates(e, m, doc, when.value)
    requires forall k :: 0 <= k < |checks| ==> Evaluates(e, m, doc, checks[k])
    ensures var r := EvalRule(e, m, doc, rule);
            && r.Some? && (r.value.skipped <==> when.Some? && !Fired(e, m, doc, when.value))
            && (r.value.violated <==> !r.value.skipped && Combined(e, m, doc, op == "OR", checks))
  {
    hide EvalRule, EvalCheck, Combined, Condition, Get, Fired;
    ConditionParts(op, when, checks);
    ConditionIsObject(op, when, checks);
    RuleVerdict(e, m, doc, rule);
  }

  lemma {:induction false} ConditionIsObject(op: string, when: Option<Json>, checks: seq<Json>)
    ensures Condition(op, when, checks).JObj?
  {
  }

  lemma {:induction false} BothFire(e: Engine, m: TaxFlags, doc: Json, a: Json, b: Json)
    ensures Combined(e, m, doc, false, [a, b]) <==> Fired(e, m, doc, a) && Fired(e, m, doc, b)
    ensures Combined(e, m, doc, true, [a, b]) <==> Fired(e, m, doc, a) || Fired(e, m, doc, b)
    ensures Combined(e, m, doc, false, [a]) <==> Fired(e, m, doc, a)
  {
    hide Fired;
    assert [a, b][0] == a && [a, b][1] == b && [a][0] == a;
  }

  lemma {:induction false} AnyFires(e: Engine, m: TaxFlags, doc: Json, a: Json, b: Json, c: Json)
    ensures Combined(e, m, doc, true, [a, b, c]) <==>
            Fired(e, m, doc, a) || Fired(e, m, doc, b) || Fired(e, m, doc, c)
  {
    hide Fired;
    assert [a, b, c][0] == a && [a, b, c][1] == b && [a, b, c][2] == c;
  }

  // ---------------------------------------------------------------- reading the document

  predicate IsPlain(key: string) { '.' !in key && '[' !in key }

  lemma {:induction false} PlainStep(h: Host, v: Json, key: string)
    requires IsPlain(key)
    ensures StepInto(h, v, key) == Get(v, key)
  {
    hide Get;
  }

  lemma {:induction false} TwoKeys(h: Host, doc: Json, a: string, b: string)
    requires IsPlain(a) && IsPlain(b)
    ensures Resolve(h, doc, a + "." + b, 0) == match Get(doc, a) case Some(v) => Get(v, b) case None => None
  {
    hide StepInto, Resolve, Get;
    assert "" + (a + "." + b) == a + "." + b == "" + a + "." + b;
    NextSegment(h, doc, "", a, b);
    PlainStep(h, doc, a);
    if Get(doc, a).Some? {
      LastSegment(h, Get(doc, a).value, a + ".", b);
      PlainStep(h, Get(doc, a).value, b);
    }
  }

  lemma {:induction false} ThreeKeys(h: Host, doc: Json, a: string, b: string, c: string)
    requires IsPlain(a) && IsPlain(b) && IsPlain(c)
    ensures Resolve(h, doc, a + "." + b + "." + c, 0) ==
            match Get(doc, a)
            case None => None
            case Some(v) => match Get(v, b) case Some(w) => Get(w, c) case None => None
  {
    hide StepInto, Resolve, Get;
    assert "" + (a + "." + (b + "." + c)) == a + "." + b + "." + c;
    assert "" + a + "." + (b + "." + c) == a + "." + b + "." + c;
    NextSegment(h, doc, "", a, b + "." + c);
    PlainStep(h, doc, a);
    if Get(doc, a).Some? {
      var v := Get(doc, a).value;
      var pre := a + ".";
      assert pre + (b + "." + c) == a + "." + b + "." + c == pre + b + "." + c;
      assert "" + a + "." == pre;
      NextSegment(h, v, pre, b, c);
      PlainStep(h, v, b);
      if Get(v, b).Some? {
        LastSegment(h, Get(v, b).value, pre + b + ".", c);
        PlainStep(h, Get(v, b).value, c);
      }
    }
  }

  lemma {:induction false} FlagPathLengths()
    ensures |IGST_PATH| == 30 && |CGST_SGST_PATH| == 35
  {
  }

  lemma {:induction false} FactOfTwo(e: Engine, m: TaxFlags, doc: Json, a: string, b: string, path: string)
    requires IsPlain(a) && IsPlain(b) && path == a + "." + b && |path| < 30
    ensures Fact(e, m, doc, path) == match Get(doc, a) case Some(v) => Get(v, b) case None => None
  {
    hide Resolve, Get, IGST_PATH, CGST_SGST_PATH;
    FlagPathLengths();
    TwoKeys(e.host, doc, a, b);
  }

  lemma {:induction false} PartyKeys()
    ensures IsPlain("supplier") && IsPlain("aato_crore") && IsPlain("buyer") && IsPlain("gstin")
  {
  }

  lemma {:induction false} ReportKeys()
    ensures IsPlain("irp") && IsPlain("reported_on") && IsPlain("invoice") && IsPlain("irn_present")
  {
  }

  lemma {:induction false} InvoiceKeys()
    ensures IsPlain("place_of_supply") && IsPlain("hsn_string") && IsPlain("classification")
  {
  }

  lemma {:induction false} BreakdownKeys()
    ensures IsPlain("tax_breakdown") && IsPlain("cgst") && IsPlain("sgst")
  {
  }

  lemma {:induction false} PartyPaths()
    ensures "supplier.aato_crore" == "supplier" + "." + "aato_crore" && "irp.reported_on" == "irp" + "." + "reported_on"
    ensures "buyer.gstin" == "buyer" + "." + "gstin" && "invoice.irn_present" == "invoice" + "." + "irn_present"
  {
  }

  lemma {:induction false} InvoicePaths()
    ensures "invoice.place_of_supply" == "invoice" + "." + "place_of_supply"
    ensures "invoice.hsn_string" == "invoice" + "." + "hsn_string"
    ensures "invoice.classification" == "invoice" + "." + "classification"
  {
  }

  /** The classification as a document writes it. */
  function Written(c: Classification): string {
    match c case B2B => "B2B" case B2C => "B2C" case Undetermined => "UNDETERMINED"
  }

  /** What the rules find about the parties of an accepted document. */
  lemma {:induction false} PartyFacts(e: Engine, d: Doubles, doc: Json)
    requires Validate(d, doc).Accepted?
    ensures var m := Validate(d, doc).value; var f := m.Flags();
            && Fact(e, f, doc, "supplier.aato_crore") ==
               (match m.supplier.aato case Some(x) => Some(JNum(x)) case None => None)
            && Fact(e, f, doc, "buyer.gstin") == (match m.buyer.gstin case Some(s) => Some(JStr(s)) case None => None)
            && Fact(e, f, doc, "irp.reported_on") ==
               (match m.reportedOn case Some(s) => Some(JStr(s)) case None => None)
  {
    hide Validate, Get, Fact, ReflectsInvoice, IsPlain;
    AcceptedMatrixLaw(d, doc);
    PartyKeys();
    ReportKeys();
    PartyPaths();
    var f := Validate(d, doc).value.Flags();
    FactOfTwo(e, f, doc, "supplier", "aato_crore", "supplier.aato_crore");
    FactOfTwo(e, f, doc, "buyer", "gstin", "buyer.gstin");
    FactOfTwo(e, f, doc, "irp", "reported_on", "irp.reported_on");
  }

  /** What they find about its invoice. */
  lemma {:induction false} InvoiceFacts(e: Engine, d: Doubles, doc: Json)
    requires Validate(d, doc).Accepted?
    ensures var m := Validate(d, doc).value; var f := m.Flags();
            && Fact(e, f, doc, "invoice.irn_present") == Some(JBool(m.irn.Some?))
            && Fact(e, f, doc, "invoice.place_of_supply") == Some(JStr(m.invoice.placeOfSupply))
            && Fact(e, f, doc, "invoice.hsn_string") == Some(JStr(m.hsnString))
            && Fact(e, f, doc, "invoice.classification") == Some(JStr(Written(m.invoice.classification)))
  {
    hide Validate, Get, Fact, ReflectsSupplier, ReflectsBuyer, ReflectsLines, ReflectsTax, Holds, IsPlain;
    AcceptedMatrixLaw(d, doc);
    ReportKeys();
    InvoiceKeys();
    PartyPaths();
    InvoicePaths();
    var f := Validate(d, doc).value.Flags();
    FactOfTwo(e, f, doc, "invoice", "irn_present", "invoice.irn_present");
    FactOfTwo(e, f, doc, "invoice", "place_of_supply", "invoice.place_of_supply");
    FactOfTwo(e, f, doc, "invoice", "hsn_string", "invoice.hsn_string");
    FactOfTwo(e, f, doc, "invoice", "classification", "invoice.classification");
  }

  /** The flags are those of the amounts. */
  lemma {:induction false} FlagsOfAmounts(e: Engine, d: Doubles, doc: Json)
    requires Validate(d, doc).Accepted?
    ensures var m := Validate(d, doc).value; var f := m.Flags();
            && Fact(e, f, doc, "invoice.tax_breakdown.has_igst") == Some(JBool(m.tax.igst > 0))
            && Fact(e, f, doc, "invoice.tax_breakdown.has_cgst_sgst") == Some(JBool(m.tax.cgst > 0 || m.tax.sgst > 0))
  {
    hide Validate, Get, Fact, ReflectsSupplier, ReflectsBuyer, ReflectsLines, ReflectsHeading, Holds, HoldsOr;
    AcceptedMatrixLaw(d, doc);
    FlagFacts(e, Validate(d, doc).value.Flags(), doc);
  }

  // ---------------------------------------------------------------- the rules

  /** The literal of a check without a source. */
  lemma {:induction false} PlainLiteral(e: Engine, field: string, op: string, lit: Json)
    ensures Literal(e, Leaf(field, op, [Field("value", lit)])) == lit
  {
    hide Leaf, Get;
    var more := [Field("value", lit)];
    assert |"value"| == 5 && "value"[0] == 'v' && "source"[0] == 's' && "field"[0] == 'f' && |"op"| == 2;
    LeafMore(field, op, more, "value");
    LeafMore(field, op, more, "source");
    I.GetAt(more, "value", 0);
    I.NotThere(more, "source");
  }

  /** The threshold of the configuration replaces the literal of the turnover check. */
  lemma {:induction false} TurnoverLiteral(e: Engine, limit: real)
    requires Get(e.thresholds, LIMIT) == Some(JNum(limit))
    ensures Literal(e, TURNOVER) == JNum(limit)
  {
    hide Leaf, Get, Literal;
    var more := [Field("value", JNum(5.0)), Field("source", JStr("thresholds." + LIMIT))];
    assert "value"[0] == 'v' && "source"[0] == 's' && "field"[0] == 'f' && |"op"| == 2;
    LeafMore("supplier.aato_crore", "gt", more, "source");
    I.GetAt(more, "source", 1);
    LimitIsPlain();
    OneKey(e.host, e.thresholds, LIMIT);
    LiteralLaw(e, TURNOVER, "thresholds." + LIMIT, LIMIT);
  }

  lemma {:induction false} LimitIsPlain()
    ensures IsPlain(LIMIT) && '/' !in LIMIT && ' ' !in LIMIT
  {
  }

  lemma {:induction false} OneKey(h: Host, doc: Json, a: string)
    requires IsPlain(a)
    ensures Resolve(h, doc, a, 0) == Get(doc, a)
  {
    hide StepInto, Resolve, Get;
    assert "" + a == a;
    LastSegment(h, doc, "", a);
    PlainStep(h, doc, a);
  }

  /** R-EINV-001: the turnover is known and exceeds the threshold, and there is no reference number. */
  lemma {:induction false} EInvoiceRule(e: Engine, d: Doubles, doc: Json, rule: Rule, limit: real)
    requires Validate(d, doc).Accepted? && rule.condition == E_INVOICE
    requires Get(e.thresholds, LIMIT) == Some(JNum(limit))
    ensures var m := Validate(d, doc).value; var r := EvalRule(e, m.Flags(), doc, rule);
            && r.Some? && (r.value.skipped <==> m.supplier.aato.None?)
            && (r.value.violated <==> m.supplier.aato.Some? && m.supplier.aato.value > limit && m.irn.None?)
  {
    hide Validate, EvalRule, EvalCheck, Leaf, Get, Fact, Literal, Combined, Condition, Fired, Evaluates;
    var (m, f) := (Validate(d, doc).value, Validate(d, doc).value.Flags());
    var gate := Leaf("supplier.aato_crore", "present", []);
    PartyFacts(e, d, doc);
    InvoiceFacts(e, d, doc);
    TurnoverLiteral(e, limit);
    var more := [Field("value", JNum(5.0)), Field("source", JStr("thresholds." + LIMIT))];
    LeafParts("supplier.aato_crore", "present", []);
    LeafParts("supplier.aato_crore", "gt", more);
    LeafParts("invoice.irn_present", "eq_false", []);
    LeafEvaluates(e, f, doc, "supplier.aato_crore", "present", []);
    LeafEvaluates(e, f, doc, "supplier.aato_crore", "gt", more);
    LeafEvaluates(e, f, doc, "invoice.irn_present", "eq_false", []);
    BothFire(e, f, doc, TURNOVER, NO_IRN);
    StateVerdict(e, f, doc, NO_IRN, "invoice.irn_present", "eq_false", JBool(m.irn.Some?));
    if m.supplier.aato.Some? {
      StateVerdict(e, f, doc, gate, "supplier.aato_crore", "present", JNum(m.supplier.aato.value));
      NumberVerdict(e, f, doc, TURNOVER, "supplier.aato_crore", "gt", m.supplier.aato.value, limit);
    } else {
      AbsentVerdict(e, f, doc, gate, "supplier.aato_crore", "present");
    }
    RuleLaw(e, f, doc, rule, "AND", Some(gate), [TURNOVER, NO_IRN]);
  }

  /** R-IRP-002: there is a reference number and no date on which it was reported. */
  lemma {:induction false} ReportingRule(e: Engine, d: Doubles, doc: Json, rule: Rule)
    requires Validate(d, doc).Accepted? && rule.condition == REPORTING
    ensures var m := Validate(d, doc).value; var r := EvalRule(e, m.Flags(), doc, rule);
            && r.Some? && (r.value.skipped <==> m.irn.None?)
            && (r.value.violated <==> m.irn.Some? && m.reportedOn.None?)
  {
    hide Validate, EvalRule, EvalCheck, Leaf, Get, Fact, Combined, Condition, Fired, Evaluates;
    var (m, f) := (Validate(d, doc).value, Validate(d, doc).value.Flags());
    var gate := Leaf("invoice.irn_present", "eq_true", []);
    PartyFacts(e, d, doc);
    InvoiceFacts(e, d, doc);
    LeafParts("invoice.irn_present", "eq_true", []);
    LeafParts("irp.reported_on", "absent", []);
    LeafEvaluates(e, f, doc, "invoice.irn_present", "eq_true", []);
    LeafEvaluates(e, f, doc, "irp.reported_on", "absent", []);
    BothFire(e, f, doc, NOT_REPORTED, NOT_REPORTED);
    StateVerdict(e, f, doc, gate, "invoice.irn_present", "eq_true", JBool(m.irn.Some?));
    if m.reportedOn.Some? {
      StateVerdict(e, f, doc, NOT_REPORTED, "irp.reported_on", "absent", JStr(m.reportedOn.value));
    } else {
      AbsentVerdict(e, f, doc, NOT_REPORTED, "irp.reported_on", "absent");
    }
    RuleLaw(e, f, doc, rule, "AND", Some(gate), [NOT_REPORTED]);
  }

  /** R-SPLIT-003 and R-SPLIT-004: tax within a state carries IGST, or tax between states carries one of the halves. */
  lemma {:induction false} SplitRule(e: Engine, d: Doubles, doc: Json, rule: Rule)
    requires Validate(d, doc).Accepted? && rule.condition in {INTRA_SPLIT, INTER_SPLIT}
    ensures var m := Validate(d, doc).value; var r := EvalRule(e, m.Flags(), doc, rule);
            && r.Some? && !r.value.skipped
            && (rule.condition == INTRA_SPLIT ==>
                  (r.value.violated <==> m.invoice.placeOfSupply == SAME_STATE && m.tax.igst > 0))
            && (rule.condition == INTER_SPLIT ==>
                  (r.value.violated <==>
                   m.invoice.placeOfSupply != SAME_STATE && (m.tax.cgst > 0 || m.tax.sgst > 0)))
  {
    hide Validate, EvalRule, EvalCheck, Leaf, Get, Fact, Combined, Condition, Fired, Evaluates, Literal;
    var (m, f) := (Validate(d, doc).value, Validate(d, doc).value.Flags());
    var place := JStr(m.invoice.placeOfSupply);
    InvoiceFacts(e, d, doc);
    FlagsOfAmounts(e, d, doc);
    if rule.condition == INTRA_SPLIT {
      PlaceCheck(e, f, doc, "eq", m.invoice.placeOfSupply);
      FlagCheck(e, f, doc, "invoice.tax_breakdown.has_igst", m.tax.igst > 0);
      BothFire(e, f, doc, WITHIN_STATE, CARRIES_IGST);
      RuleLaw(e, f, doc, rule, "AND", None, [WITHIN_STATE, CARRIES_IGST]);
    }
    if rule.condition == INTER_SPLIT {
      PlaceCheck(e, f, doc, "neq", m.invoice.placeOfSupply);
      FlagCheck(e, f, doc, "invoice.tax_breakdown.has_cgst_sgst", m.tax.cgst > 0 || m.tax.sgst > 0);
      BothFire(e, f, doc, BETWEEN_STATES, CARRIES_HALVES);
      RuleLaw(e, f, doc, rule, "AND", None, [BETWEEN_STATES, CARRIES_HALVES]);
    }
  }

  lemma {:induction false} PlaceCheck(e: Engine, m: TaxFlags, doc: Json, op: string, place: string)
    requires Fact(e, m, doc, "invoice.place_of_supply") == Some(JStr(place))
    ensures var check := Leaf("invoice.place_of_supply", op, [Field("value", JStr(SAME_STATE))]);
            && Evaluates(e, m, doc, check)
            && (op == "eq" ==> (Fired(e, m, doc, check) <==> place == SAME_STATE))
            && (op == "neq" ==> (Fired(e, m, doc, check) <==> place != SAME_STATE))
  {
    hide Fact, Leaf, Get, Fired, Literal, Evaluates;
    var more := [Field("value", JStr(SAME_STATE))];
    var check := Leaf("invoice.place_of_supply", op, more);
    LeafParts("invoice.place_of_supply", op, more);
    LeafEvaluates(e, m, doc, "invoice.place_of_supply", op, more);
    PlainLiteral(e, "invoice.place_of_supply", op, JStr(SAME_STATE));
    EqualityVerdict(e, m, doc, check, "invoice.place_of_supply", op, JStr(place));
  }

  lemma {:induction false} FlagCheck(e: Engine, m: TaxFlags, doc: Json, field: string, flag: bool)
    requires Fact(e, m, doc, field) == Some(JBool(flag))
    ensures Evaluates(e, m, doc, Leaf(field, "eq_true", [])) && Evaluates(e, m, doc, Leaf(field, "eq_false", []))
    ensures Fired(e, m, doc, Leaf(field, "eq_true", [])) <==> flag
    ensures Fired(e, m, doc, Leaf(field, "eq_false", [])) <==> !flag
  {
    hide Fact, Leaf, Get, Fired, Evaluates;
    LeafParts(field, "eq_true", []);
    LeafParts(field, "eq_false", []);
    LeafEvaluates(e, m, doc, field, "eq_true", []);
    LeafEvaluates(e, m, doc, field, "eq_false", []);
    StateVerdict(e, m, doc, Leaf(field, "eq_true", []), field, "eq_true", JBool(flag));
    StateVerdict(e, m, doc, Leaf(field, "eq_false", []), field, "eq_false", JBool(flag));
  }

  lemma {:induction false} MissingCheck(e: Engine, m: TaxFlags, doc: Json, field: string)
    ensures var check := Leaf(field, "absent", []);
            Evaluates(e, m, doc, check) && (Fired(e, m, doc, check) <==> Fact(e, m, doc, field).None?)
  {
    hide Fact, Leaf, Get, Fired, Evaluates;
    LeafParts(field, "absent", []);
    LeafEvaluates(e, m, doc, field, "absent", []);
    match Fact(e, m, doc, field)
    case Some(v) => StateVerdict(e, m, doc, Leaf(field, "absent", []), field, "absent", v);
    case None => AbsentVerdict(e, m, doc, Leaf(field, "absent", []), field, "absent");
  }

  /** R-HSN-005: the code has neither four, six nor eight characters. */
  lemma {:induction false} HsnRule(e: Engine, d: Doubles, doc: Json, rule: Rule)
    requires Validate(d, doc).Accepted? && rule.condition == HSN_LENGTH
    ensures var m := Validate(d, doc).value; var r := EvalRule(e, m.Flags(), doc, rule);
            r.Some? && !r.value.skipped && (r.value.violated <==> |m.hsnString| !in {4, 6, 8})
  {
    hide Validate, EvalRule, EvalCheck, Leaf, Get, Fact, Combined, Condition, Fired, Evaluates;
    var (m, f) := (Validate(d, doc).value, Validate(d, doc).value.Flags());
    var more := [Field("values", JArr(LENGTHS))];
    InvoiceFacts(e, d, doc);
    LeafParts("invoice.hsn_string", "token_length_out", more);
    LeafEvaluates(e, f, doc, "invoice.hsn_string", "token_length_out", more);
    assert |"values"| == 6 && |"field"| == 5 && |"op"| == 2;
    LeafMore("invoice.hsn_string", "token_length_out", more, "values");
    I.GetAt(more, "values", 0);
    TokenVerdict(e, f, doc, ODD_LENGTH, "invoice.hsn_string", m.hsnString, LENGTHS);
    LengthsAllow(|m.hsnString|);
    BothFire(e, f, doc, ODD_LENGTH, ODD_LENGTH);
    RuleLaw(e, f, doc, rule, "AND", None, [ODD_LENGTH]);
  }

  lemma {:induction false} LengthsAllow(n: nat)
    ensures NoneAllows(LENGTHS, n) <==> n !in {4, 6, 8}
  {
    assert LENGTHS[0] == JNum(4.0) && LENGTHS[1] == JNum(6.0) && LENGTHS[2] == JNum(8.0);
  }

  /** R-CLASS-007: the classification is open, or the buyer of anything but a B2C sale has no number. */
  lemma {:induction false} ClassificationRule(e: Engine, d: Doubles, doc: Json, rule: Rule)
    requires Validate(d, doc).Accepted? && rule.condition == CLASSIFIED
    ensures var m := Validate(d, doc).value; var r := EvalRule(e, m.Flags(), doc, rule);
            && r.Some? && !r.value.skipped
            && (r.value.violated <==>
                m.invoice.classification == Undetermined || (m.invoice.classification == B2B && m.buyer.gstin.None?))
  {
    hide Validate, EvalRule, EvalCheck, Leaf, Get, Fact, Combined, Condition, Fired, Evaluates, Literal;
    var (m, f) := (Validate(d, doc).value, Validate(d, doc).value.Flags());
    PartyFacts(e, d, doc);
    InvoiceFacts(e, d, doc);
    var text := Written(m.invoice.classification);
    KindCheck(e, f, doc, "eq", text, "UNDETERMINED");
    KindCheck(e, f, doc, "neq", text, "B2C");
    MissingCheck(e, f, doc, "buyer.gstin");
    var group := JObj([Field("operator", JStr("AND")), Field("checks", JArr([NO_CONSUMER, NO_BUYER]))]);
    InnerGroup(e, f, doc, group);
    BothFire(e, f, doc, UNDETERMINED, group);
    RuleLaw(e, f, doc, rule, "OR", None, [UNDETERMINED, group]);
  }

  lemma {:induction false} KindCheck(e: Engine, m: TaxFlags, doc: Json, op: string, text: string, lit: string)
    requires Fact(e, m, doc, "invoice.classification") == Some(JStr(text))
    ensures var check := Leaf("invoice.classification", op, [Field("value", JStr(lit))]);
            && Evaluates(e, m, doc, check)
            && (op == "eq" ==> (Fired(e, m, doc, check) <==> text == lit))
            && (op == "neq" ==> (Fired(e, m, doc, check) <==> text != lit))
  {
    hide Fact, Leaf, Get, Fired, Literal, Evaluates;
    var more := [Field("value", JStr(lit))];
    LeafParts("invoice.classification", op, more);
    LeafEvaluates(e, m, doc, "invoice.classification", op, more);
    PlainLiteral(e, "invoice.classification", op, JStr(lit));
    EqualityVerdict(e, m, doc, Leaf("invoice.classification", op, more), "invoice.classification", op, JStr(text));
  }

  lemma {:induction false} InnerGroup(e: Engine, m: TaxFlags, doc: Json, group: Json)
    requires group == JObj([Field("operator", JStr("AND")), Field("checks", JArr([NO_CONSUMER, NO_BUYER]))])
    requires Evaluates(e, m, doc, NO_CONSUMER) && Evaluates(e, m, doc, NO_BUYER)
    ensures Evaluates(e, m, doc, group)
    ensures Fired(e, m, doc, group) <==> Fired(e, m, doc, NO_CONSUMER) && Fired(e, m, doc, NO_BUYER)
  {
    hide EvalCheck, Leaf, Get, Combined, Fired;
    var fs := group.fields;
    assert |fs[0].name| == 8 && |fs[1].name| == 6 && |"field"| == 5;
    I.GetAt(fs, "operator", 0);
    I.GetAt(fs, "checks", 1);
    I.NotThere(fs, "field");
    GroupVerdict(e, m, doc, group, "AND", [NO_CONSUMER, NO_BUYER]);
    BothFire(e, m, doc, NO_CONSUMER, NO_BUYER);
  }

  /** What the two halves are in the document. */
  lemma {:induction false} HalfFacts(e: Engine, d: Doubles, doc: Json)
    requires Validate(d, doc).Accepted?
    ensures Get(doc, "invoice").Some? && Get(Get(doc, "invoice").value, "tax_breakdown").Some?
    ensures var tb := Get(Get(doc, "invoice").value, "tax_breakdown").value; var f := Validate(d, doc).value.Flags();
            && Fact(e, f, doc, "invoice.tax_breakdown.cgst") == Get(tb, "cgst")
            && Fact(e, f, doc, "invoice.tax_breakdown.sgst") == Get(tb, "sgst")
  {
    hide Validate, Get, Resolve, ReflectsSupplier, ReflectsBuyer, ReflectsLines, ReflectsHeading, ReflectsTax, Holds,
      IsPlain, IGST_PATH, CGST_SGST_PATH;
    AcceptedMatrixLaw(d, doc);
    ReportKeys();
    BreakdownKeys();
    HalfPaths();
    FlagPathLengths();
    ThreeKeys(e.host, doc, "invoice", "tax_breakdown", "cgst");
    ThreeKeys(e.host, doc, "invoice", "tax_breakdown", "sgst");
  }

  lemma {:induction false} HalfPaths()
    ensures "invoice.tax_breakdown.cgst" == "invoice" + "." + "tax_breakdown" + "." + "cgst"
    ensures "invoice.tax_breakdown.sgst" == "invoice" + "." + "tax_breakdown" + "." + "sgst"
  {
  }

  lemma {:induction false} HalvesDiffer(e: Engine, m: TaxFlags, doc: Json)
    ensures Evaluates(e, m, doc, HALVES_DIFFER)
    ensures var (cgst, sgst) := (Fact(e, m, doc, "invoice.tax_breakdown.cgst"),
                                 Fact(e, m, doc, "invoice.tax_breakdown.sgst"));
            Fired(e, m, doc, HALVES_DIFFER) <==> cgst.Some? && sgst.Some? && cgst != sgst
  {
    hide Fact, Leaf, Get, Fired, Evaluates;
    var (field, from) := ("invoice.tax_breakdown.sgst", "invoice.tax_breakdown.cgst");
    var more := [Field("value_from", JStr(from))];
    LeafParts(field, "ne_cross", more);
    LeafEvaluates(e, m, doc, field, "ne_cross", more);
    assert |"value_from"| == 10 && |"field"| == 5 && |"op"| == 2;
    LeafMore(field, "ne_cross", more, "value_from");
    I.GetAt(more, "value_from", 0);
    CrossVerdict(e, m, doc, HALVES_DIFFER, field);
    var (cgst, sgst) := (Fact(e, m, doc, from), Fact(e, m, doc, field));
    if cgst.Some? && sgst.Some? && cgst != sgst {
      assert Get(HALVES_DIFFER, "value_from") == Some(JStr(from)) && sgst == Some(sgst.value) &&
        cgst == Some(cgst.value);
    }
  }

  lemma {:induction false} HalvesFire(e: Engine, m: TaxFlags, doc: Json)
    ensures forall k :: 0 <= k < |EQUAL_CHECKS| ==> Evaluates(e, m, doc, EQUAL_CHECKS[k])
    ensures var (cgst, sgst) := (Fact(e, m, doc, "invoice.tax_breakdown.cgst"),
                                 Fact(e, m, doc, "invoice.tax_breakdown.sgst"));
            Combined(e, m, doc, true, EQUAL_CHECKS) <==> cgst.None? || sgst.None? || cgst != sgst
  {
    hide Leaf, Fact, Combined, Fired, Evaluates, HALVES_DIFFER;
    MissingCheck(e, m, doc, "invoice.tax_breakdown.cgst");
    MissingCheck(e, m, doc, "invoice.tax_breakdown.sgst");
    HalvesDiffer(e, m, doc);
    AnyFires(e, m, doc, EQUAL_CHECKS[0], EQUAL_CHECKS[1], EQUAL_CHECKS[2]);
  }

  lemma {:induction false} IgstIsNatural(d: Doubles, doc: Json)
    requires Validate(d, doc).Accepted?
    ensures Validate(d, doc).value.tax.igst >= 0
  {
    hide ReadSupplier, ReadBuyer, ReadReport, ReadHeading, ReadValue, ReadLines, ItemsOf, ToCents, Get;
  }

  /** R-CHRG-006: without IGST, one of the halves is missing, or they are not the same number in the document. */
  lemma {:induction false} HalvesRule(e: Engine, d: Doubles, doc: Json, rule: Rule, inv: Json, tb: Json)
    requires Validate(d, doc).Accepted? && rule.condition == EQUAL_HALVES
    requires Get(doc, "invoice") == Some(inv) && Get(inv, "tax_breakdown") == Some(tb)
    ensures var m := Validate(d, doc).value; var r := EvalRule(e, m.Flags(), doc, rule);
            var (cgst, sgst) := (Get(tb, "cgst"), Get(tb, "sgst"));
            && r.Some? && (r.value.skipped <==> m.tax.igst > 0)
            && (r.value.violated <==> m.tax.igst == 0 && (cgst.None? || sgst.None? || cgst != sgst))
  {
    hide Validate, EvalRule, EvalCheck, Leaf, Get, Fact, Combined, Condition, Fired, Evaluates, EQUAL_CHECKS;
    var (m, f) := (Validate(d, doc).value, Validate(d, doc).value.Flags());
    HalfFacts(e, d, doc);
    FlagsOfAmounts(e, d, doc);
    FlagCheck(e, f, doc, "invoice.tax_breakdown.has_igst", m.tax.igst > 0);
    HalvesFire(e, f, doc);
    IgstIsNatural(d, doc);
    RuleLaw(e, f, doc, rule, "OR", Some(Leaf("invoice.tax_breakdown.has_igst", "eq_false", [])), EQUAL_CHECKS);
  }
}
