/** The rule interpreter of `RuleEngine`: checks, groups, rules and message templates. */
module RuleEngine {
  import opened Prelude
  import opened Facts
  import opened Money
  import opened Validation

  const HAS_IGST := "has_igst"
  const HAS_CGST_SGST := "has_cgst_sgst"

  const BREAKDOWN_PATH := INVOICE + "." + BREAKDOWN
  const IGST_PATH := BREAKDOWN_PATH + "." + HAS_IGST
  const CGST_SGST_PATH := BREAKDOWN_PATH + "." + HAS_CGST_SGST

  const ALIASES := map[
    "hsn" := INVOICE + "." + "hsn_string",
    "aato_crore" := "supplier" + "." + "aato_crore",
    "cgst" := BREAKDOWN_PATH + "." + "cgst",
    "sgst" := BREAKDOWN_PATH + "." + "sgst",
    "igst" := BREAKDOWN_PATH + "." + "igst",
    "total_tax" := BREAKDOWN_PATH + "." + "total_tax",
    "irn" := INVOICE + "." + "irn"]

  /** A rule as the constructor reads it; the texts that are only copied to the result are one value here. */
  datatype Rule = Rule(copied: seq<string>, actionRequired: string, messageTemplate: string, condition: Json)

  datatype Engine = Engine(host: Host, rules: seq<Rule>, thresholds: Json)

  /** `resolveFact`: the derived flags win over the claimed ones. */
  function Fact(e: Engine, m: TaxFlags, doc: Json, path: string): Option<Json> {
    if path == IGST_PATH then Some(JBool(m.hasIgst))
    else if path == CGST_SGST_PATH then Some(JBool(m.hasCgstSgst))
    else Resolve(e.host, doc, path, 0)
  }

  method ResolveFact(e: Engine, m: TaxFlags, doc: Json, path: string) returns (r: Option<Json>)
    ensures r == Fact(e, m, doc, path)
  {
    if path == IGST_PATH {
      return Some(JBool(m.hasIgst));
    }
    if path == CGST_SGST_PATH {
      return Some(JBool(m.hasCgstSgst));
    }
    r := ResolvePath(e.host, doc, path);
  }

  const THRESHOLDS := "thresholds."

  /** A source names a threshold only if it is a plain path under `thresholds.`. */
  function Threshold(e: Engine, source: string): Option<Json> {
    if |source| < |THRESHOLDS| || source[..|THRESHOLDS|] != THRESHOLDS then None
    else
      var rest := source[|THRESHOLDS|..];
      if Contains(rest, '/') || Contains(rest, ' ') || rest == "" then None else Resolve(e.host, e.thresholds, rest, 0)
  }

  // ---------------------------------------------------------------- checks

  datatype Outcome = Outcome(fired: bool, text: string)

  function StringOf(check: Json, key: string): Option<string> {
    match Get(check, key) case Some(JStr(s)) => Some(s) case _ => None
  }

  /** The operator with `gt`, `gte`, `lt` and `lte` spelled out. */
  function Canonical(op: string): string {
    if op == "gt" then ">"
    else if op == "gte" then ">="
    else if op == "lt" then "<"
    else if op == "lte" then "<="
    else op
  }

  /** `value`, unless `source` names a threshold. */
  function Literal(e: Engine, check: Json): Json {
    var value := match Get(check, "value") case Some(v) => v case None => JNull;
    match StringOf(check, "source")
    case None => value
    case Some(source) => (match Threshold(e, source) case Some(t) => t case None => value)
  }

  /** Numbers by value, strings by text, everything else as it is. */
  function SameScalar(a: Json, b: Json): bool { a == b }

  /** Some allowed length equals the length of the token. */
  predicate LengthAllowed(values: seq<Json>, n: nat) {
    exists k :: 0 <= k < |values| && values[k].JNum? && values[k].value >= 0.0 && values[k].value.Floor == n
  }

  predicate IsOrder(op: string) { op == ">" || op == ">=" || op == "<" || op == "<=" }

  predicate Compare(op: string, x: real, y: real) {
    if op == ">" then x > y else if op == ">=" then x >= y else if op == "<" then x < y else op == "<=" && x <= y
  }

  predicate IsComparison(op: string) { op == "ne_cross" || op == "eq" || op == "neq" || IsOrder(op) }

  predicate IsKnown(op: string) {
    op == "present" || op == "absent" || op == "eq_true" || op == "eq_false" || op == "token_length_out" ||
      IsComparison(op)
  }

  /** The comparisons; an absent fact never compares. */
  predicate Compares(op: string, fact: Option<Json>, other: Option<Json>, lit: Json) {
    if fact.None? then false
    else if op == "ne_cross" then other.Some? && !SameScalar(fact.value, other.value)
    else if op == "eq" then SameScalar(fact.value, lit)
    else if op == "neq" then !SameScalar(fact.value, lit)
    else IsOrder(op) && fact.value.JNum? && lit.JNum? && Compare(op, fact.value.value, lit.value)
  }

  /** Whether a check with a field fires; for an absent fact only `absent` does. */
  predicate Fires(op: string, fact: Option<Json>, other: Option<Json>, lit: Json, values: Option<Json>) {
    if op == "present" then fact.Some?
    else if op == "absent" then fact.None?
    else if op == "eq_true" then fact == Some(JBool(true))
    else if op == "eq_false" then fact == Some(JBool(false))
    else if op == "token_length_out" then
      fact.Some? && fact.value.JStr? && values.Some? && values.value.JArr? &&
        !LengthAllowed(values.value.items, |fact.value.text|)
    else Compares(op, fact, other, lit)
  }

  /** The fact that `ne_cross` compares with. */
  function OtherFact(e: Engine, m: TaxFlags, doc: Json, check: Json): Option<Json> {
    match StringOf(check, "value_from") case Some(path) => Fact(e, m, doc, path) case None => None
  }

  function LeafOutcome(e: Engine, m: TaxFlags, doc: Json, check: Json, field: string, op: string): Outcome {
    var (fact, other) := (Fact(e, m, doc, field), OtherFact(e, m, doc, check));
    var fired := Fires(op, fact, other, Literal(e, check), Get(check, "values"));
    Outcome(fired, Labelled(field, op, IsKnown(op)))
  }

  function Labelled(field: string, op: string, known: bool): string {
    field + " " + op + if known then "" else " (unknown op)"
  }

  /** A check without a field but with an operator and a list of checks. */
  predicate IsGroup(check: Json) {
    Get(check, "field").None? && Get(check, "operator").Some? && Get(check, "checks").Some? &&
      Get(check, "checks").value.JArr?
  }

  /** The checks of a group, or none. */
  function Members(check: Json): seq<Json> {
    if !check.JObj? then []
    else
      var p := Facts.Position(check.fields, "checks", 0);
      if p < |check.fields| && check.fields[p].value.JArr? then check.fields[p].value.items else []
  }

  /** An AND group fires when every member does, an OR group when any does, and an empty group never. */
  predicate GroupFires(op: string, os: seq<Outcome>) {
    && os != []
    && if op == "OR" then exists k :: 0 <= k < |os| && os[k].fired else forall k :: 0 <= k < |os| ==> os[k].fired
  }

  /** The labels of the first `n` members. */
  function JoinTexts(op: string, os: seq<Outcome>, n: nat): string
    requires n <= |os|
  {
    if n == 0 then "" else if n == 1 then os[0].text else JoinTexts(op, os, n - 1) + (" " + op + " ") + os[n - 1].text
  }

  function GroupText(op: string, os: seq<Outcome>): string { "( " + JoinTexts(op, os, |os|) + " )" }

  /** The outcome of a check, or nothing where reading it as text throws. */
  function EvalCheck(e: Engine, m: TaxFlags, doc: Json, check: Json): Option<Outcome>
    decreases check, 1
  {
    if !check.JObj? then Some(Outcome(false, "?"))
    else if IsGroup(check) then
      match Get(check, "operator").value
      case JStr(op) =>
        var os := EvalAll(e, m, doc, Members(check), |Members(check)|);
        if os.None? then None else Some(Outcome(GroupFires(op, os.value), GroupText(op, os.value)))
      case _ => None
    else
      match StringOf(check, "field")
      case None => Some(Outcome(false, "?"))
      case Some(field) =>
        match Get(check, "op")
        case None => Some(LeafOutcome(e, m, doc, check, field, ""))
        case Some(JStr(op)) => Some(LeafOutcome(e, m, doc, check, field, Canonical(op)))
        case _ => None
  }

  /** The outcomes of the first `n` checks; every one is evaluated. */
  function EvalAll(e: Engine, m: TaxFlags, doc: Json, checks: seq<Json>, n: nat): (r: Option<seq<Outcome>>)
    requires n <= |checks|
    ensures r.Some? ==> |r.value| == n
    decreases checks, 0, n
  {
    if n == 0 then Some([])
    else
      var before := EvalAll(e, m, doc, checks, n - 1);
      var o := EvalCheck(e, m, doc, checks[n - 1]);
      if before.None? || o.None? then None else Some(before.value + [o.value])
  }

  lemma {:induction false} ThrowStays(e: Engine, m: TaxFlags, doc: Json, checks: seq<Json>, k: nat, n: nat)
    requires k <= n <= |checks|
    ensures EvalAll(e, m, doc, checks, k).None? ==> EvalAll(e, m, doc, checks, n).None?
  {
    hide EvalCheck;
    if k < n {
      ThrowStays(e, m, doc, checks, k, n - 1);
    }
  }

  method RunCheck(e: Engine, m: TaxFlags, doc: Json, check: Json) returns (r: Option<Outcome>)
    ensures r == EvalCheck(e, m, doc, check)
    decreases check, 1
  {
    hide LeafOutcome, GroupFires, GroupText, EvalAll;
    if !check.JObj? {
      return Some(Outcome(false, "?"));
    }
    if IsGroup(check) {
      var op := Get(check, "operator").value;
      if !op.JStr? {
        return None;
      }
      var os := RunMembers(e, m, doc, Members(check));
      if os.None? {
        return None;
      }
      var fired := CombineGroup(op.text, os.value);
      var text := LabelGroup(op.text, os.value);
      return Some(Outcome(fired, text));
    }
    var field := StringOf(check, "field");
    if field.None? {
      return Some(Outcome(false, "?"));
    }
    var op := Get(check, "op");
    if op.Some? && !op.value.JStr? {
      return None;
    }
    var o := RunLeaf(e, m, doc, check, field.value, if op.Some? then Canonical(op.value.text) else "");
    r := Some(o);
  }

  method RunMembers(e: Engine, m: TaxFlags, doc: Json, checks: seq<Json>) returns (r: Option<seq<Outcome>>)
    ensures r == EvalAll(e, m, doc, checks, |checks|)
    decreases checks, 0
  {
    hide EvalCheck;
    var os: seq<Outcome> := [];
    for i := 0 to |checks|
      invariant EvalAll(e, m, doc, checks, i) == Some(os)
    {
      assert checks[i] in checks;
      var o := RunCheck(e, m, doc, checks[i]);
      if o.None? {
        ThrowStays(e, m, doc, checks, i + 1, |checks|);
        return None;
      }
      os := os + [o.value];
    }
    r := Some(os);
  }

  /** The flag that a group folds over its members. */
  method CombineGroup(op: string, os: seq<Outcome>) returns (fired: bool)
    ensures fired == GroupFires(op, os)
  {
    fired := true;
    if op == "OR" {
      fired := false;
    }
    for k := 0 to |os|
      invariant fired == if op == "OR" then exists j :: 0 <= j < k && os[j].fired
                         else forall j :: 0 <= j < k ==> os[j].fired
    {
      if op == "OR" {
        fired := fired || os[k].fired;
      } else {
        fired := fired && os[k].fired;
      }
    }
    if os == [] {
      fired := false;
    }
  }

  method LabelGroup(op: string, os: seq<Outcome>) returns (text: string)
    ensures text == GroupText(op, os)
  {
    text := "( ";
    for k := 0 to |os|
      invariant text == "( " + JoinTexts(op, os, k)
    {
      if k != 0 {
        text := text + (" " + op + " ");
      }
      text := text + os[k].text;
      Concat3("( ", JoinTexts(op, os, k), " " + op + " ");
      Concat3("( ", JoinTexts(op, os, k) + (" " + op + " "), os[k].text);
    }
    text := text + " )";
  }

  /** The chain of operator tests. */
  method RunLeaf(e: Engine, m: TaxFlags, doc: Json, check: Json, field: string, op: string) returns (o: Outcome)
    ensures o == LeafOutcome(e, m, doc, check, field, op)
  {
    hide Fact, Literal, Compares, IsComparison, OtherFact, LengthAllowed, Labelled, StringOf;
    var fact := ResolveFact(e, m, doc, field);
    var text := field + " " + op;
    KnownLabel(field, op);
    if op == "present" {
      return Outcome(fact.Some?, text);
    }
    if op == "absent" {
      return Outcome(fact.None?, text);
    }
    if op == "eq_true" || op == "eq_false" {
      if fact.None? || !fact.value.JBool? {
        return Outcome(false, text);
      }
      return Outcome(if op == "eq_true" then fact.value.flag else !fact.value.flag, text);
    }
    if op == "token_length_out" {
      var values := Get(check, "values");
      if fact.None? || !fact.value.JStr? || values.None? || !values.value.JArr? {
        return Outcome(false, text);
      }
      var allowed := FindLength(values.value.items, |fact.value.text|);
      return Outcome(!allowed, text);
    }
    o := RunComparison(e, m, doc, check, field, op, fact);
  }

  lemma {:induction false} KnownLabel(field: string, op: string)
    ensures Labelled(field, op, true) == field + " " + op
  {
  }

  method RunComparison(e: Engine, m: TaxFlags, doc: Json, check: Json, field: string, op: string, fact: Option<Json>)
    returns (o: Outcome)
    ensures o == Outcome(Compares(op, fact, OtherFact(e, m, doc, check), Literal(e, check)),
        Labelled(field, op, IsComparison(op)))
  {
    hide Fact, Literal, Compare;
    var text := field + " " + op;
    KnownLabel(field, op);
    var lit := Literal(e, check);
    if op == "ne_cross" {
      var path := StringOf(check, "value_from");
      if path.None? {
        return Outcome(false, text);
      }
      var other := ResolveFact(e, m, doc, path.value);
      if fact.None? || other.None? {
        return Outcome(false, text);
      }
      return Outcome(!SameScalar(fact.value, other.value), text);
    }
    if op == "eq" || op == "neq" {
      if fact.None? {
        return Outcome(false, text);
      }
      var eq := SameScalar(fact.value, lit);
      return Outcome(if op == "eq" then eq else !eq, text);
    }
    if IsOrder(op) {
      if fact.None? || !lit.JNum? {
        return Outcome(false, text);
      }
      return Outcome(fact.value.JNum? && Compare(op, fact.value.value, lit.value), text);
    }
    o := Outcome(false, text + " (unknown op)");
  }

  method FindLength(values: seq<Json>, n: nat) returns (allowed: bool)
    ensures allowed == LengthAllowed(values, n)
  {
    for k := 0 to |values|
      invariant forall j :: 0 <= j < k ==> !(values[j].JNum? && values[j].value >= 0.0 && values[j].value.Floor == n)
    {
      var v := values[k];
      if v.JNum? && v.value >= 0.0 && v.value.Floor == n {
        return true;
      }
    }
    allowed := false;
  }

  // ---------------------------------------------------------------- message templates

  function Format(h: Host, v: Json): string {
    match v
    case JStr(s) => s
    case JBool(b) => if b then "true" else "false"
    case JNum(x) => if x.Floor as real == x then IntText(x.Floor) else h.fraction(x)
    case _ => h.dump(v)
  }

  /** A token stands for a full path, an alias or a bare name, in this order; otherwise it stays as it is. */
  function TokenText(h: Host, token: string, t: Table, doc: Json): string {
    var resolved :=
      if token in t.full then Some(t.full[token])
      else if token in ALIASES then Resolve(h, doc, ALIASES[token], 0)
      else if token in t.bare then Some(t.bare[token])
      else None;
    if resolved.Some? then Format(h, resolved.value) else "{" + token + "}"
  }

  /** The text of a template from position `i` on. */
  function Substituted(h: Host, tpl: string, i: nat, t: Table, doc: Json): string
    requires i <= |tpl|
    decreases |tpl| - i
  {
    if i == |tpl| then ""
    else if tpl[i] != '{' then [tpl[i]] + Substituted(h, tpl, i + 1, t, doc)
    else
      var close := FindChar(tpl, '}', i + 1);
      if close == |tpl| then tpl[i..]
      else TokenText(h, tpl[i + 1..close], t, doc) + Substituted(h, tpl, close + 1, t, doc)
  }

  method Substitute(h: Host, tpl: string, t: Table, doc: Json) returns (out: string)
    ensures out == Substituted(h, tpl, 0, t, doc)
  {
    hide TokenText, Format;
    out := "";
    var i := 0;
    while i < |tpl|
      invariant i <= |tpl| && Substituted(h, tpl, 0, t, doc) == out + Substituted(h, tpl, i, t, doc)
    {
      ghost var rest := Substituted(h, tpl, i, t, doc);
      if tpl[i] != '{' {
        Concat3(out, [tpl[i]], Substituted(h, tpl, i + 1, t, doc));
        out := out + [tpl[i]];
        i := i + 1;
      } else {
        var close := FindChar(tpl, '}', i + 1);
        if close == |tpl| {
          return out + tpl[i..];
        }
        var piece := ExpandToken(h, tpl[i + 1..close], t, doc);
        Concat3(out, piece, Substituted(h, tpl, close + 1, t, doc));
        out := out + piece;
        i := close + 1;
      }
    }
    assert out + "" == out;
  }

  method ExpandToken(h: Host, token: string, t: Table, doc: Json) returns (text: string)
    ensures text == TokenText(h, token, t, doc)
  {
    var resolved: Option<Json> := None;
    if token in t.full {
      resolved := Some(t.full[token]);
    } else if token in ALIASES {
      resolved := ResolvePath(h, doc, ALIASES[token]);
    } else if token in t.bare {
      resolved := Some(t.bare[token]);
    }
    text := if resolved.Some? then Format(h, resolved.value) else "{" + token + "}";
  }

  // ---------------------------------------------------------------- rules

  datatype RuleResult = RuleResult(copied: seq<string>, actionRequired: string, violated: bool, skipped: bool,
      message: string, firedChecks: seq<string>)

  function Texts(os: seq<Outcome>, n: nat): seq<string>
    requires n <= |os|
  {
    if n == 0 then [] else Texts(os, n - 1) + [os[n - 1].text]
  }

  /** The labels of the members that fired. */
  function FiredTexts(os: seq<Outcome>, n: nat): seq<string>
    requires n <= |os|
  {
    if n == 0 then []
    else if os[n - 1].fired then FiredTexts(os, n - 1) + [os[n - 1].text]
    else FiredTexts(os, n - 1)
  }

  /** The derived flags replace whatever the document claims. */
  function WithFlags(t: Table, m: TaxFlags): Table {
    Table(t.full[IGST_PATH := JBool(m.hasIgst)][CGST_SGST_PATH := JBool(m.hasCgstSgst)],
          t.bare[HAS_IGST := JBool(m.hasIgst)][HAS_CGST_SGST := JBool(m.hasCgstSgst)])
  }

  function Message(e: Engine, m: TaxFlags, doc: Json, template: string): string {
    if template == "" then "" else Substituted(e.host, template, 0, WithFlags(Collect(doc, "", EMPTY_TABLE), m), doc)
  }

  /** The operator of a condition, AND if there is none; nothing where reading it throws. */
  function OperatorOf(condition: Json): Option<string> {
    match Get(condition, "operator") case None => Some("AND") case Some(JStr(op)) => Some(op) case _ => None
  }

  /** Whether the gate of a rule lets it through; a rule without a gate always goes through. */
  function Gate(e: Engine, m: TaxFlags, doc: Json, condition: Json): Option<bool> {
    match Get(condition, "when")
    case None => Some(true)
    case Some(when) => (match EvalCheck(e, m, doc, when) case None => None case Some(o) => Some(o.fired))
  }

  /** The result of a rule, or nothing where reading its condition throws. */
  function EvalRule(e: Engine, m: TaxFlags, doc: Json, rule: Rule): Option<RuleResult> {
    var op := if rule.condition.JObj? then OperatorOf(rule.condition) else None;
    var gate := Gate(e, m, doc, rule.condition);
    if op.None? || gate.None? then None
    else if !gate.value then Some(RuleResult(rule.copied, rule.actionRequired, false, true, "", []))
    else
      var os := EvalAll(e, m, doc, Members(rule.condition), |Members(rule.condition)|);
      if os.None? then None
      else if !GroupFires(op.value, os.value)
        then Some(RuleResult(rule.copied, rule.actionRequired, false, false, "", []))
      else
        Some(RuleResult(rule.copied, rule.actionRequired, true, false, Message(e, m, doc, rule.messageTemplate),
                        if op.value == "OR" then FiredTexts(os.value, |os.value|) else Texts(os.value, |os.value|)))
  }

  /** The results of the first `n` rules, in configuration order. */
  function Evaluate(e: Engine, m: TaxFlags, doc: Json, n: nat): Option<seq<RuleResult>>
    requires n <= |e.rules|
  {
    if n == 0 then Some([])
    else
      var before := Evaluate(e, m, doc, n - 1);
      var r := EvalRule(e, m, doc, e.rules[n - 1]);
      if before.None? || r.None? then None else Some(before.value + [r.value])
  }

  lemma {:induction false} RuleThrowStays(e: Engine, m: TaxFlags, doc: Json, k: nat, n: nat)
    requires k <= n <= |e.rules|
    ensures Evaluate(e, m, doc, k).None? ==> Evaluate(e, m, doc, n).None?
  {
    hide EvalRule;
    if k < n {
      RuleThrowStays(e, m, doc, k, n - 1);
    }
  }

  /** The two loops over the checks of a rule. */
  method CombineRule(op: string, os: seq<Outcome>) returns (violated: bool, fired: seq<string>)
    ensures violated == GroupFires(op, os)
    ensures violated ==> fired == if op == "OR" then FiredTexts(os, |os|) else Texts(os, |os|)
  {
    violated, fired := false, [];
    if op == "OR" {
      for k := 0 to |os|
        invariant violated == exists j :: 0 <= j < k && os[j].fired
        invariant fired == FiredTexts(os, k)
      {
        if os[k].fired {
          violated := true;
          fired := fired + [os[k].text];
        }
      }
    } else {
      violated := os != [];
      for k := 0 to |os|
        invariant violated == (os != [] && forall j :: 0 <= j < k ==> os[j].fired)
        invariant fired == Texts(os, k)
      {
        if !os[k].fired {
          violated := false;
        }
        fired := fired + [os[k].text];
      }
    }
  }

  method ComposeMessage(e: Engine, m: TaxFlags, doc: Json, template: string) returns (text: string)
    ensures text == Message(e, m, doc, template)
  {
    if template == "" {
      return "";
    }
    var facts := new FactTable();
    facts.CollectFacts(doc, "");
    var t := facts.table;
    t := t.(full := t.full[IGST_PATH := JBool(m.hasIgst)]);
    t := t.(full := t.full[CGST_SGST_PATH := JBool(m.hasCgstSgst)]);
    t := t.(bare := t.bare[HAS_IGST := JBool(m.hasIgst)]);
    t := t.(bare := t.bare[HAS_CGST_SGST := JBool(m.hasCgstSgst)]);
    text := Substitute(e.host, template, t, doc);
  }

  method RunRule(e: Engine, m: TaxFlags, doc: Json, rule: Rule) returns (r: Option<RuleResult>)
    ensures r == EvalRule(e, m, doc, rule)
  {
    hide EvalCheck, EvalAll, GroupFires, Message, Members, FiredTexts, Texts;
    var cond := rule.condition;
    var op := OperatorOf(cond);
    if !cond.JObj? || op.None? {
      return None;
    }
    var when := Get(cond, "when");
    if when.Some? {
      var gated := RunCheck(e, m, doc, when.value);
      if gated.None? {
        return None;
      }
      if !gated.value.fired {
        return Some(RuleResult(rule.copied, rule.actionRequired, false, true, "", []));
      }
    }
    var os := RunMembers(e, m, doc, Members(cond));
    if os.None? {
      return None;
    }
    var violated, fired := CombineRule(op.value, os.value);
    if !violated {
      return Some(RuleResult(rule.copied, rule.actionRequired, false, false, "", []));
    }
    var message := ComposeMessage(e, m, doc, rule.messageTemplate);
    r := Some(RuleResult(rule.copied, rule.actionRequired, true, false, message, fired));
  }

  method RunRules(e: Engine, m: TaxFlags, doc: Json) returns (r: Option<seq<RuleResult>>)
    ensures r == Evaluate(e, m, doc, |e.rules|)
  {
    hide EvalRule;
    var results: seq<RuleResult> := [];
    for i := 0 to |e.rules|
      invariant Evaluate(e, m, doc, i) == Some(results)
    {
      var one := RunRule(e, m, doc, e.rules[i]);
      if one.None? {
        RuleThrowStays(e, m, doc, i + 1, |e.rules|);
        return None;
      }
      results := results + [one.value];
    }
    r := Some(results);
  }

  /** `evaluateDocument`: a document is validated first, and its own flags go into the rules. */
  function EvaluateDocument(e: Engine, d: Doubles, doc: Json): Checked<seq<RuleResult>> {
    var m :- Validate(d, doc);
    match Evaluate(e, m.Flags(), doc, |e.rules|) case Some(results) => Accepted(results) case None => Escapes
  }
}
