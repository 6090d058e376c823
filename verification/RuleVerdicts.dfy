/** What the rules say of a document, check by check and rule by rule, apart from how they are evaluated. */
module RuleVerdicts {
  import opened Prelude
  import opened Facts
  import opened Money
  import opened Validation
  import opened RuleEngine

  // ---------------------------------------------------------------- checks of one fact

  /** A check of one field with one operator. */
  predicate IsLeaf(check: Json, field: string, op: string) {
    Get(check, "field") == Some(JStr(field)) && Get(check, "op") == Some(JStr(op))
  }

  predicate Fired(e: Engine, m: TaxFlags, doc: Json, check: Json) {
    match EvalCheck(e, m, doc, check) case Some(o) => o.fired case None => false
  }

  lemma {:induction false} LeafIsEvaluated(e: Engine, m: TaxFlags, doc: Json, check: Json, field: string, op: string)
    requires IsLeaf(check, field, op)
    ensures EvalCheck(e, m, doc, check) == Some(LeafOutcome(e, m, doc, check, field, Canonical(op)))
  {
    hide LeafOutcome, Canonical;
  }

  /** What a comparison with a literal says of a number, in both spellings of its operator. */
  lemma {:induction false} NumberVerdict(e: Engine, m: TaxFlags, doc: Json, check: Json, field: string, op: string,
      x: real, y: real)
    requires IsLeaf(check, field, op) && Fact(e, m, doc, field) == Some(JNum(x)) && Literal(e, check) == JNum(y)
    ensures op == "gt" || op == ">" ==> (Fired(e, m, doc, check) <==> x > y)
    ensures op == "gte" || op == ">=" ==> (Fired(e, m, doc, check) <==> x >= y)
    ensures op == "lt" || op == "<" ==> (Fired(e, m, doc, check) <==> x < y)
    ensures op == "lte" || op == "<=" ==> (Fired(e, m, doc, check) <==> x <= y)
  {
    hide Fact, Literal, OtherFact;
    LeafIsEvaluated(e, m, doc, check, field, op);
  }

  predicate IsOrderOperator(op: string) { op in {"gt", ">", "gte", ">=", "lt", "<", "lte", "<="} }

  /** Anything but two numbers is never in order. */
  lemma {:induction false} OnlyNumbersCompare(e: Engine, m: TaxFlags, doc: Json, check: Json, field: string, op: string)
    requires IsLeaf(check, field, op) && IsOrderOperator(op) && Fired(e, m, doc, check)
    ensures Literal(e, check).JNum? && exists x :: Fact(e, m, doc, field) == Some(JNum(x))
  {
    hide Fact, Literal, OtherFact;
    LeafIsEvaluated(e, m, doc, check, field, op);
    assert Fact(e, m, doc, field) == Some(JNum(Fact(e, m, doc, field).value.value));
  }

  /** What the tests for equality say of a fact that is there. */
  lemma {:induction false} EqualityVerdict(e: Engine, m: TaxFlags, doc: Json, check: Json, field: string, op: string,
      v: Json)
    requires IsLeaf(check, field, op) && Fact(e, m, doc, field) == Some(v)
    ensures op == "eq" ==> (Fired(e, m, doc, check) <==> v == Literal(e, check))
    ensures op == "neq" ==> (Fired(e, m, doc, check) <==> v != Literal(e, check))
  {
    hide Fact, Literal, OtherFact;
    LeafIsEvaluated(e, m, doc, check, field, op);
  }

  /** What the tests without a literal say of a fact that is there. */
  lemma {:induction false} StateVerdict(e: Engine, m: TaxFlags, doc: Json, check: Json, field: string, op: string,
      v: Json)
    requires IsLeaf(check, field, op) && Fact(e, m, doc, field) == Some(v)
    ensures op == "eq_true" ==> (Fired(e, m, doc, check) <==> v == JBool(true))
    ensures op == "eq_false" ==> (Fired(e, m, doc, check) <==> v == JBool(false))
    ensures op == "present" ==> Fired(e, m, doc, check)
    ensures op == "absent" ==> !Fired(e, m, doc, check)
  {
    hide Fact, Literal, OtherFact, Compares;
    LeafIsEvaluated(e, m, doc, check, field, op);
  }

  /** Of a fact that is not there, only its absence is found. */
  lemma {:induction false} AbsentVerdict(e: Engine, m: TaxFlags, doc: Json, check: Json, field: string, op: string)
    requires IsLeaf(check, field, op) && Fact(e, m, doc, field).None?
    ensures Fired(e, m, doc, check) <==> op == "absent"
  {
    hide Fact, Literal, OtherFact;
    LeafIsEvaluated(e, m, doc, check, field, op);
  }

  /** Two facts are compared only if both are there. */
  lemma {:induction false} CrossVerdict(e: Engine, m: TaxFlags, doc: Json, check: Json, field: string)
    requires IsLeaf(check, field, "ne_cross")
    ensures Fired(e, m, doc, check) <==>
            exists path, v, w :: Get(check, "value_from") == Some(JStr(path)) && Fact(e, m, doc, field) == Some(v) &&
              Fact(e, m, doc, path) == Some(w) && v != w
  {
    hide Fact, Literal;
    LeafIsEvaluated(e, m, doc, check, field, "ne_cross");
    if Fired(e, m, doc, check) {
      var path := Get(check, "value_from").value.text;
      assert Get(check, "value_from") == Some(JStr(path)) &&
        Fact(e, m, doc, field) == Some(Fact(e, m, doc, field).value) &&
        Fact(e, m, doc, path) == Some(Fact(e, m, doc, path).value);
    }
  }

  /** No number of the list lets through a text of `n` characters. */
  predicate NoneAllows(allowed: seq<Json>, n: nat) {
    forall k :: 0 <= k < |allowed| && allowed[k].JNum? ==> !(n as real <= allowed[k].value < n as real + 1.0)
  }

  lemma {:induction false} AllowedOrNot(allowed: seq<Json>, n: nat)
    ensures LengthAllowed(allowed, n) <==> !NoneAllows(allowed, n)
  {
    if LengthAllowed(allowed, n) {
      var k :| 0 <= k < |allowed| && allowed[k].JNum? && allowed[k].value >= 0.0 && allowed[k].value.Floor == n;
      assert n as real <= allowed[k].value < n as real + 1.0;
    } else {
      forall k | 0 <= k < |allowed| && allowed[k].JNum? ensures !(n as real <= allowed[k].value < n as real + 1.0) {
      }
    }
  }

  /** The length of a text is outside a list. */
  lemma {:induction false} TokenVerdict(e: Engine, m: TaxFlags, doc: Json, check: Json, field: string, text: string,
      allowed: seq<Json>)
    requires IsLeaf(check, field, "token_length_out") && Get(check, "values") == Some(JArr(allowed))
    requires Fact(e, m, doc, field) == Some(JStr(text))
    ensures Fired(e, m, doc, check) <==> NoneAllows(allowed, |text|)
  {
    hide Fact, Literal, OtherFact, LengthAllowed, NoneAllows;
    LeafIsEvaluated(e, m, doc, check, field, "token_length_out");
    AllowedOrNot(allowed, |text|);
  }

  /** Lengths are checked only of a text, and only against a list. */
  lemma {:induction false} OnlyTextHasLength(e: Engine, m: TaxFlags, doc: Json, check: Json, field: string)
    requires IsLeaf(check, field, "token_length_out") && Fired(e, m, doc, check)
    ensures Fact(e, m, doc, field).Some? && Fact(e, m, doc, field).value.JStr?
    ensures Get(check, "values").Some? && Get(check, "values").value.JArr?
  {
    hide Fact, Literal, OtherFact, LengthAllowed;
    LeafIsEvaluated(e, m, doc, check, field, "token_length_out");
  }

  const OPERATORS := {"present", "absent", "eq_true", "eq_false", "token_length_out", "ne_cross", "eq", "neq"}

  /** An operator that is not known finds nothing. */
  lemma {:induction false} UnknownVerdict(e: Engine, m: TaxFlags, doc: Json, check: Json, field: string, op: string)
    requires IsLeaf(check, field, op) && op !in OPERATORS && !IsOrderOperator(op)
    ensures EvalCheck(e, m, doc, check) == Some(Outcome(false, field + " " + op + " (unknown op)"))
  {
    hide Fact, Literal, OtherFact;
    LeafIsEvaluated(e, m, doc, check, field, op);
    Concat3(field, " " + op, " (unknown op)");
  }

  /** How an operator is written in a label. */
  function Symbol(op: string): string {
    if op == "gt" then ">"
    else if op == "gte" then ">="
    else if op == "lt" then "<"
    else if op == "lte" then "<="
    else op
  }

  /** A check of one field is labelled with the field and the operator. */
  lemma {:induction false} LeafLabel(e: Engine, m: TaxFlags, doc: Json, check: Json, field: string, op: string)
    requires IsLeaf(check, field, op) && (op in OPERATORS || IsOrderOperator(op))
    ensures EvalCheck(e, m, doc, check).Some? && EvalCheck(e, m, doc, check).value.text == field + " " + Symbol(op)
  {
    hide Fires, Fact, OtherFact, Literal;
    LeafIsEvaluated(e, m, doc, check, field, op);
    KnownLabel(field, Symbol(op));
  }

  // ---------------------------------------------------------------- checks that complement each other

  /** The operator that says the opposite of a fact that is there, or of two numbers. */
  function Opposite(op: string): string {
    if op == "present" then "absent"
    else if op == "eq" then "neq"
    else if op == "eq_true" then "eq_false"
    else if op == "gt" then "lte"
    else if op == "gte" then "lt"
    else if op == ">" then "<="
    else if op == ">=" then "<"
    else op
  }

  /** Two checks of the same field against the same literal. */
  predicate SameSubject(e: Engine, a: Json, b: Json, field: string, op: string) {
    IsLeaf(a, field, op) && IsLeaf(b, field, Opposite(op)) && Literal(e, a) == Literal(e, b)
  }

  /** Of a fact that is there, exactly one of two opposite checks fires; `eq_true` needs a boolean, orders numbers. */
  lemma {:induction false} OppositesExclude(e: Engine, m: TaxFlags, doc: Json, a: Json, b: Json, field: string,
      op: string)
    requires op in {"present", "eq", "eq_true", "gt", "gte", ">", ">="} && SameSubject(e, a, b, field, op)
    requires var fact := Fact(e, m, doc, field);
             (op != "present" ==> fact.Some?) && (op == "eq_true" ==> fact.value.JBool?) &&
             (IsOrderOperator(op) ==> fact.value.JNum? && Literal(e, a).JNum?)
    ensures Fired(e, m, doc, a) <==> !Fired(e, m, doc, b)
  {
    hide Fact, Literal, EvalCheck;
    var fact := Fact(e, m, doc, field);
    if fact.None? {
      AbsentVerdict(e, m, doc, a, field, op);
      AbsentVerdict(e, m, doc, b, field, Opposite(op));
    } else if IsOrderOperator(op) {
      NumberVerdict(e, m, doc, a, field, op, fact.value.value, Literal(e, a).value);
      NumberVerdict(e, m, doc, b, field, Opposite(op), fact.value.value, Literal(e, a).value);
    } else {
      EqualityVerdict(e, m, doc, a, field, op, fact.value);
      EqualityVerdict(e, m, doc, b, field, Opposite(op), fact.value);
      StateVerdict(e, m, doc, a, field, op, fact.value);
      StateVerdict(e, m, doc, b, field, Opposite(op), fact.value);
    }
  }

  /** A larger fact keeps what `gt` and `gte` find, and a smaller one what `lt` and `lte` find. */
  lemma {:induction false} VerdictIsMonotone(e: Engine, m: TaxFlags, low: Json, high: Json, check: Json,
      field: string, op: string, x: real, y: real)
    requires IsLeaf(check, field, op) && IsOrderOperator(op) && x <= y
    requires Fact(e, m, low, field) == Some(JNum(x)) && Fact(e, m, high, field) == Some(JNum(y))
    ensures op in {"gt", ">", "gte", ">="} && Fired(e, m, low, check) ==> Fired(e, m, high, check)
    ensures op in {"lt", "<", "lte", "<="} && Fired(e, m, high, check) ==> Fired(e, m, low, check)
  {
    hide Fact, Literal, EvalCheck, OtherFact;
    if Literal(e, check).JNum? {
      NumberVerdict(e, m, low, check, field, op, x, Literal(e, check).value);
      NumberVerdict(e, m, high, check, field, op, y, Literal(e, check).value);
    } else if Fired(e, m, low, check) {
      OnlyNumbersCompare(e, m, low, check, field, op);
    } else if Fired(e, m, high, check) {
      OnlyNumbersCompare(e, m, high, check, field, op);
    }
  }

  // ---------------------------------------------------------------- what a check compares with

  /** A source that names a threshold which is there replaces the literal; any other source is ignored. */
  lemma {:induction false} LiteralLaw(e: Engine, check: Json, source: string, key: string)
    requires source == "thresholds." + key
    ensures Get(check, "source") == Some(JStr(source)) && key != "" && '/' !in key && ' ' !in key ==>
              (match Resolve(e.host, e.thresholds, key, 0)
               case Some(t) => Literal(e, check) == t
               case None => Get(check, "value").Some? ==> Literal(e, check) == Get(check, "value").value)
    ensures Get(check, "source").None? && Get(check, "value").Some? ==> Literal(e, check) == Get(check, "value").value
  {
    hide Resolve, Get;
    assert source[..|THRESHOLDS|] == THRESHOLDS && source[|THRESHOLDS|..] == key;
  }

  /** Prose in a source leaves the literal as it is. */
  lemma {:induction false} ProseIsIgnored(e: Engine, check: Json, source: string, lit: Json)
    requires Get(check, "source") == Some(JStr(source)) && Get(check, "value") == Some(lit)
    requires ' ' in source || '/' in source || !("thresholds." < source)
    ensures Literal(e, check) == lit
  {
    hide Resolve, Get;
    if THRESHOLDS < source && source[..|THRESHOLDS|] == THRESHOLDS {
      var rest := source[|THRESHOLDS|..];
      assert source == THRESHOLDS + rest;
      assert ' ' in source ==> ' ' in rest;
      assert '/' in source ==> '/' in rest;
    }
  }

  lemma {:induction false} BreakdownText()
    ensures BREAKDOWN_PATH == "invoice.tax_breakdown"
  {
    assert INVOICE + "." == "invoice.";
    assert "invoice." + BREAKDOWN == "invoice.tax_breakdown";
  }

  lemma {:induction false} FlagTexts()
    ensures IGST_PATH == "invoice.tax_breakdown.has_igst"
    ensures CGST_SGST_PATH == "invoice.tax_breakdown.has_cgst_sgst"
  {
    hide BREAKDOWN_PATH;
    BreakdownText();
    assert BREAKDOWN_PATH + "." == "invoice.tax_breakdown.";
    assert "invoice.tax_breakdown." + HAS_IGST == "invoice.tax_breakdown.has_igst";
    assert "invoice.tax_breakdown." + HAS_CGST_SGST == "invoice.tax_breakdown.has_cgst_sgst";
  }

  /** The tax flags are the derived ones, whatever the document holds there. */
  lemma {:induction false} FlagFacts(e: Engine, m: TaxFlags, doc: Json)
    ensures Fact(e, m, doc, "invoice.tax_breakdown.has_igst") == Some(JBool(m.hasIgst))
    ensures Fact(e, m, doc, "invoice.tax_breakdown.has_cgst_sgst") == Some(JBool(m.hasCgstSgst))
  {
    hide Resolve, BREAKDOWN_PATH, IGST_PATH, CGST_SGST_PATH;
    FlagTexts();
    assert |"invoice.tax_breakdown.has_igst"| != |"invoice.tax_breakdown.has_cgst_sgst"|;
  }

  // ---------------------------------------------------------------- groups of checks

  /** Some check cannot be evaluated. */
  ghost predicate SomeThrows(e: Engine, m: TaxFlags, doc: Json, checks: seq<Json>) {
    exists k :: 0 <= k < |checks| && EvalCheck(e, m, doc, checks[k]).None?
  }

  /** Checks combined by any or all of them; no checks find nothing. */
  ghost predicate Combined(e: Engine, m: TaxFlags, doc: Json, any: bool, checks: seq<Json>) {
    && checks != []
    && if any then exists k :: 0 <= k < |checks| && Fired(e, m, doc, checks[k])
       else forall k :: 0 <= k < |checks| ==> Fired(e, m, doc, checks[k])
  }

  lemma {:induction false} EachIsEvaluated(e: Engine, m: TaxFlags, doc: Json, checks: seq<Json>, n: nat)
    requires n <= |checks|
    ensures var os := EvalAll(e, m, doc, checks, n);
            if os.None? then SomeThrows(e, m, doc, checks[..n])
            else forall k :: 0 <= k < n ==> EvalCheck(e, m, doc, checks[k]) == Some(os.value[k])
  {
    hide EvalCheck;
    if n > 0 {
      EachIsEvaluated(e, m, doc, checks, n - 1);
      if EvalAll(e, m, doc, checks, n - 1).None? {
        var k :| 0 <= k < n - 1 && EvalCheck(e, m, doc, checks[..n - 1][k]).None?;
        assert checks[..n][k] == checks[k];
      } else if EvalCheck(e, m, doc, checks[n - 1]).None? {
        assert checks[..n][n - 1] == checks[n - 1];
      }
    }
  }

  /** The outcomes of a list of checks: all of them, or none because one throws. */
  lemma {:induction false} AllAreEvaluated(e: Engine, m: TaxFlags, doc: Json, checks: seq<Json>)
    ensures var os := EvalAll(e, m, doc, checks, |checks|);
            && (os.None? <==> SomeThrows(e, m, doc, checks))
            && (os.Some? ==> forall k :: 0 <= k < |checks| ==> EvalCheck(e, m, doc, checks[k]) == Some(os.value[k]))
  {
    hide EvalCheck;
    EachIsEvaluated(e, m, doc, checks, |checks|);
    assert checks[..|checks|] == checks;
  }

  lemma {:induction false} GroupCombines(e: Engine, m: TaxFlags, doc: Json, op: string, checks: seq<Json>,
      os: seq<Outcome>)
    requires |os| == |checks| && forall k :: 0 <= k < |checks| ==> EvalCheck(e, m, doc, checks[k]) == Some(os[k])
    ensures GroupFires(op, os) <==> Combined(e, m, doc, op == "OR", checks)
  {
    hide EvalCheck;
    assert forall k :: 0 <= k < |checks| ==> Fired(e, m, doc, checks[k]) == os[k].fired;
  }

  lemma {:induction false} MembersAreChecks(check: Json)
    ensures Members(check) ==
            match Get(check, "checks") case Some(JArr(items)) => items case _ => []
  {
  }

  /** A group fires as its operator says, and throws when a member does. */
  lemma {:induction false} GroupVerdict(e: Engine, m: TaxFlags, doc: Json, check: Json, op: string, members: seq<Json>)
    requires Get(check, "field").None? && Get(check, "operator") == Some(JStr(op))
    requires Get(check, "checks") == Some(JArr(members))
    ensures EvalCheck(e, m, doc, check).None? <==> SomeThrows(e, m, doc, members)
    ensures EvalCheck(e, m, doc, check).Some? ==>
              (Fired(e, m, doc, check) <==> Combined(e, m, doc, op == "OR", members))
  {
    hide SomeThrows, Combined, GroupFires, Get, Members, EvalAll;
    MembersAreChecks(check);
    AllAreEvaluated(e, m, doc, members);
    var os := EvalAll(e, m, doc, members, |members|);
    if os.Some? {
      GroupCombines(e, m, doc, op, members, os.value);
    }
  }

  /** Labels with the operator between them. */
  function Between(labels: seq<string>, op: string): string {
    if labels == [] then "" else if |labels| == 1 then labels[0]
    else labels[0] + " " + op + " " + Between(labels[1..], op)
  }

  lemma {:induction false} BetweenNext(labels: seq<string>, op: string, last: string)
    requires labels != []
    ensures Between(labels + [last], op) == Between(labels, op) + (" " + op + " ") + last
  {
    assert (labels + [last])[1..] == labels[1..] + [last];
    if |labels| > 1 {
      BetweenNext(labels[1..], op, last);
      var (a, b) := (labels[0] + " " + op + " ", Between(labels[1..], op));
      assert a + (b + (" " + op + " ") + last) == a + b + (" " + op + " ") + last;
    } else {
      assert (labels + [last])[1..] == [last];
    }
  }

  lemma {:induction false} JoinsBetween(op: string, os: seq<Outcome>, n: nat)
    requires n <= |os|
    ensures JoinTexts(op, os, n) == Between(seq(n, k requires 0 <= k < n => os[k].text), op)
  {
    var labels := seq(n, k requires 0 <= k < n => os[k].text);
    if n > 1 {
      JoinsBetween(op, os, n - 1);
      var before := seq(n - 1, k requires 0 <= k < n - 1 => os[k].text);
      assert labels == before + [os[n - 1].text];
      BetweenNext(before, op, os[n - 1].text);
    }
  }

  /** A group is labelled with the labels of its members in brackets, and its operator between them. */
  lemma {:induction false} GroupLabel(e: Engine, m: TaxFlags, doc: Json, check: Json, op: string, members: seq<Json>,
      labels: seq<string>)
    requires Get(check, "field").None? && Get(check, "operator") == Some(JStr(op))
    requires Get(check, "checks") == Some(JArr(members)) && EvalCheck(e, m, doc, check).Some?
    requires |labels| == |members| && forall k :: 0 <= k < |members| ==> HasLabel(e, m, doc, members[k], labels[k])
    ensures EvalCheck(e, m, doc, check).value.text == "( " + Between(labels, op) + " )"
  {
    hide SomeThrows, GroupFires, Get, Members, EvalAll, Between;
    MembersAreChecks(check);
    AllAreEvaluated(e, m, doc, members);
    var os := EvalAll(e, m, doc, members, |members|);
    if os.Some? {
      JoinsBetween(op, os.value, |os.value|);
      assert labels == seq(|os.value|, k requires 0 <= k < |os.value| => os.value[k].text);
    }
  }

  /** Where reading the operator of a check throws; a check that is none finds nothing. */
  lemma {:induction false} MalformedVerdict(e: Engine, m: TaxFlags, doc: Json, check: Json)
    ensures IsGroup(check) && !Get(check, "operator").value.JStr? ==> EvalCheck(e, m, doc, check).None?
    ensures (!IsGroup(check) && StringOf(check, "field").Some? && Get(check, "op").Some? &&
             !Get(check, "op").value.JStr?) ==> EvalCheck(e, m, doc, check).None?
    ensures !IsGroup(check) && StringOf(check, "field").None? ==>
              EvalCheck(e, m, doc, check) == Some(Outcome(false, "?"))
  {
    hide EvalAll, LeafOutcome, Members;
  }

  // ---------------------------------------------------------------- rules

  /** The gate of a rule, if it has one, does not fire. */
  predicate Skips(e: Engine, m: TaxFlags, doc: Json, condition: Json) {
    match Get(condition, "when") case Some(when) => !Fired(e, m, doc, when) case None => false
  }

  function ChecksOf(condition: Json): seq<Json> {
    match Get(condition, "checks") case Some(JArr(items)) => items case _ => []
  }

  /** What a result says of a rule. */
  ghost predicate IsVerdict(e: Engine, m: TaxFlags, doc: Json, rule: Rule, r: RuleResult) {
    var any := Get(rule.condition, "operator") == Some(JStr("OR"));
    && r.copied == rule.copied && r.actionRequired == rule.actionRequired
    && (r.skipped <==> Skips(e, m, doc, rule.condition))
    && (r.violated <==> !r.skipped && Combined(e, m, doc, any, ChecksOf(rule.condition)))
    && (!r.violated ==> r.message == "" && r.firedChecks == [])
    && (r.violated ==> r.message == Message(e, m, doc, rule.messageTemplate))
  }

  /** The labels that a violated rule reports: of all its checks, or of the ones that fired. */
  ghost predicate ListsLabels(e: Engine, m: TaxFlags, doc: Json, any: bool, checks: seq<Json>, labels: seq<string>,
      at: seq<nat>)
  {
    && |at| == |labels|
    && (forall j :: 0 <= j < |at| ==> at[j] < |checks| && HasLabel(e, m, doc, checks[at[j]], labels[j]))
    && (forall i, j :: 0 <= i < j < |at| ==> at[i] < at[j])
    && (forall k :: 0 <= k < |checks| && (any ==> Fired(e, m, doc, checks[k])) ==> k in at)
    && (forall j :: 0 <= j < |at| && any ==> Fired(e, m, doc, checks[at[j]]))
  }

  predicate HasLabel(e: Engine, m: TaxFlags, doc: Json, check: Json, text: string) {
    match EvalCheck(e, m, doc, check) case Some(o) => o.text == text case None => false
  }

  /** Why a rule throws: its operator is no text, its gate throws, or it gets to its checks and one of them throws. */
  ghost predicate RuleThrows(e: Engine, m: TaxFlags, doc: Json, rule: Rule) {
    var (operator, when) := (Get(rule.condition, "operator"), Get(rule.condition, "when"));
    || !rule.condition.JObj?
    || (operator.Some? && !operator.value.JStr?)
    || (when.Some? && EvalCheck(e, m, doc, when.value).None?)
    || (!Skips(e, m, doc, rule.condition) && SomeThrows(e, m, doc, ChecksOf(rule.condition)))
  }

  lemma {:induction false} RuleVerdict(e: Engine, m: TaxFlags, doc: Json, rule: Rule)
    ensures var r := EvalRule(e, m, doc, rule);
            && (r.None? <==> RuleThrows(e, m, doc, rule))
            && (r.Some? ==> IsVerdict(e, m, doc, rule, r.value))
  {
    hide EvalCheck, EvalAll, GroupFires, Combined, SomeThrows, Members, Get, Message, FiredTexts, Texts;
    var checks := ChecksOf(rule.condition);
    MembersAreChecks(rule.condition);
    AllAreEvaluated(e, m, doc, checks);
    var os := EvalAll(e, m, doc, checks, |checks|);
    var op := OperatorOf(rule.condition);
    if os.Some? && op.Some? {
      GroupCombines(e, m, doc, op.value, checks, os.value);
    }
  }

  /** The places of the outcomes that fired among the first `n`, in order. */
  predicate ListsFired(os: seq<Outcome>, n: nat, at: seq<nat>)
    requires n <= |os|
  {
    && (forall j :: 0 <= j < |at| ==> at[j] < n && os[at[j]].fired)
    && (forall i, j :: 0 <= i < j < |at| ==> at[i] < at[j])
    && (forall k :: 0 <= k < n && os[k].fired ==> k in at)
  }

  lemma {:induction false} FiredAreListed(os: seq<Outcome>, n: nat) returns (at: seq<nat>)
    requires n <= |os|
    ensures ListsFired(os, n, at) && |at| == |FiredTexts(os, n)|
    ensures forall j :: 0 <= j < |at| ==> at[j] < n && FiredTexts(os, n)[j] == os[at[j]].text
  {
    hide ListsFired;
    if n == 0 {
      at := [];
      NothingFired(os);
    } else {
      var before := FiredAreListed(os, n - 1);
      at := before;
      NextFired(os, n - 1, before);
      if os[n - 1].fired {
        at := before + [n - 1];
      }
    }
  }

  lemma {:induction false} NothingFired(os: seq<Outcome>)
    ensures ListsFired(os, 0, [])
  {
  }

  lemma {:induction false} NextFired(os: seq<Outcome>, n: nat, before: seq<nat>)
    requires n < |os| && ListsFired(os, n, before)
    ensures ListsFired(os, n + 1, if os[n].fired then before + [n] else before)
  {
    if os[n].fired {
      var at := before + [n];
      assert at[|before|] == n;
      forall k | 0 <= k < n + 1 && os[k].fired ensures k in at {
        if k < n {
          assert k in before;
        }
      }
    }
  }

  lemma {:induction false} EveryText(os: seq<Outcome>, n: nat)
    requires n <= |os|
    ensures |Texts(os, n)| == n && forall k :: 0 <= k < n ==> Texts(os, n)[k] == os[k].text
  {
    if n > 0 {
      EveryText(os, n - 1);
    }
  }

  lemma {:induction false} LabelsAre(e: Engine, m: TaxFlags, doc: Json, any: bool, checks: seq<Json>,
      os: seq<Outcome>) returns (at: seq<nat>)
    requires |os| == |checks| && forall k :: 0 <= k < |checks| ==> EvalCheck(e, m, doc, checks[k]) == Some(os[k])
    ensures ListsLabels(e, m, doc, any, checks, if any then FiredTexts(os, |os|) else Texts(os, |os|), at)
  {
    hide EvalCheck;
    if any {
      at := FiredAreListed(os, |os|);
    } else {
      at := seq(|os|, k => k);
      EveryText(os, |os|);
      forall k | 0 <= k < |checks| ensures k in at {
        assert at[k] == k;
      }
    }
  }

  /** A violated rule reports the labels of all its checks, with OR only those of the checks that fired, in order. */
  lemma {:induction false} FiredChecksLaw(e: Engine, m: TaxFlags, doc: Json, rule: Rule) returns (at: seq<nat>)
    requires EvalRule(e, m, doc, rule).Some? && EvalRule(e, m, doc, rule).value.violated
    ensures var any := Get(rule.condition, "operator") == Some(JStr("OR"));
            ListsLabels(e, m, doc, any, ChecksOf(rule.condition), EvalRule(e, m, doc, rule).value.firedChecks, at)
  {
    hide EvalCheck, EvalAll, GroupFires, SomeThrows, Members, Get, Message, FiredTexts, Texts, ListsLabels;
    var checks := ChecksOf(rule.condition);
    MembersAreChecks(rule.condition);
    AllAreEvaluated(e, m, doc, checks);
    at := LabelsAre(e, m, doc, OperatorOf(rule.condition).value == "OR", checks,
      EvalAll(e, m, doc, checks, |checks|).value);
  }

  ghost predicate SomeRuleThrows(e: Engine, m: TaxFlags, doc: Json, n: nat)
    requires n <= |e.rules|
  {
    exists k :: 0 <= k < n && RuleThrows(e, m, doc, e.rules[k])
  }

  /** One verdict for each rule, in the order of the configuration, unless some rule throws. */
  lemma {:induction false} RulesVerdict(e: Engine, m: TaxFlags, doc: Json, n: nat)
    requires n <= |e.rules|
    ensures var r := Evaluate(e, m, doc, n);
            && (r.None? <==> SomeRuleThrows(e, m, doc, n))
            && (r.Some? ==> |r.value| == n && forall k :: 0 <= k < n ==>
                  IsVerdict(e, m, doc, e.rules[k], r.value[k]))
  {
    hide EvalRule, RuleThrows, IsVerdict;
    if n > 0 {
      RulesVerdict(e, m, doc, n - 1);
      RuleVerdict(e, m, doc, e.rules[n - 1]);
    }
  }
}
