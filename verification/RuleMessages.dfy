/** What paths lead to and what message templates say, from their texts. */
module RuleMessages {
  import opened Prelude
  import opened Facts
  import opened Money
  import opened Validation
  import opened RuleEngine
  import V = RuleVerdicts

  // ---------------------------------------------------------------- paths

  /** A segment of a path: a key, or an index after any text. */
  datatype Segment = Key(name: string) | Item(name: string, index: string)

  function SegmentText(s: Segment): string {
    match s case Key(name) => name case Item(name, index) => name + "[" + index
  }

  predicate IsSegment(s: Segment) { '.' !in SegmentText(s) && '[' !in s.name }

  /** The segments from `i` on, with dots between them. */
  function Joined(segs: seq<Segment>, i: nat): string
    requires i < |segs|
    decreases |segs| - i
  {
    if i + 1 == |segs| then SegmentText(segs[i]) else SegmentText(segs[i]) + "." + Joined(segs, i + 1)
  }

  /** Into an object by key, into an array by index, from one segment to the next. */
  function Walk(h: Host, cur: Json, segs: seq<Segment>, i: nat): Option<Json>
    requires i <= |segs|
    decreases |segs| - i
  {
    if i == |segs| then Some(cur)
    else
      match segs[i]
      case Key(name) => (match Get(cur, name) case Some(v) => Walk(h, v, segs, i + 1) case None => None)
      case Item(_, index) =>
        var n := h.index("[" + index);
        if cur.JArr? && n < |cur.items| then Walk(h, cur.items[n], segs, i + 1) else None
  }

  lemma {:induction false} EntersSegment(h: Host, cur: Json, s: Segment)
    requires IsSegment(s)
    ensures StepInto(h, cur, SegmentText(s)) ==
            match s
            case Key(name) => Get(cur, name)
            case Item(_, index) =>
              var n := h.index("[" + index);
              if cur.JArr? && n < |cur.items| then Some(cur.items[n]) else None
  {
    hide Get;
    var text := SegmentText(s);
    match s
    case Key(_) =>
    case Item(name, index) =>
      assert text[|name|] == '[' && forall k :: 0 <= k < |name| ==> text[k] == name[k];
      FirstBracket(text, 0, |name|);
      assert text[|name|..] == "[" + index;
  }

  lemma {:induction false} FirstBracket(s: string, from: nat, p: nat)
    requires from <= p < |s| && s[p] == '[' && forall k :: from <= k < p ==> s[k] != '['
    ensures FindChar(s, '[', from) == p
  {
  }

  /** The end of a segment within a path. */
  lemma {:induction false} SegmentEnds(pre: string, text: string, rest: string)
    requires '.' !in text && (rest == "" || rest[0] == '.')
    ensures var path := pre + text + rest;
            FindChar(path, '.', |pre|) == |pre| + |text| && path[|pre|..|pre| + |text|] == text
  {
    var path := pre + text + rest;
    forall k | 0 <= k < |text| ensures path[|pre| + k] == text[k] {
    }
    FirstDot(path, |pre|, |pre| + |text|);
  }

  lemma {:induction false} LastSegment(h: Host, cur: Json, pre: string, text: string)
    requires '.' !in text
    ensures Resolve(h, cur, pre + text, |pre|) == StepInto(h, cur, text)
  {
    hide StepInto;
    SegmentEnds(pre, text, "");
    assert pre + text + "" == pre + text;
  }

  lemma {:induction false} Unfold(h: Host, cur: Json, path: string, start: nat, dot: nat, text: string)
    requires start <= dot < |path| && FindChar(path, '.', start) == dot && path[start..dot] == text
    ensures var next := StepInto(h, cur, text);
            Resolve(h, cur, path, start) == if next.Some? then Resolve(h, next.value, path, dot + 1) else None
  {
    hide StepInto, FindChar;
  }

  lemma {:induction false} SamePath(pre: string, text: string, more: string)
    ensures pre + (text + "." + more) == pre + text + "." + more
    ensures pre + text + ("." + more) == pre + text + "." + more
  {
  }

  lemma {:induction false} NextSegment(h: Host, cur: Json, pre: string, text: string, more: string)
    requires '.' !in text
    ensures var next := StepInto(h, cur, text);
            Resolve(h, cur, pre + (text + "." + more), |pre|) ==
            if next.Some? then Resolve(h, next.value, pre + text + "." + more, |pre + text + "."|) else None
  {
    hide StepInto, FindChar, Resolve;
    SegmentEnds(pre, text, "." + more);
    SamePath(pre, text, more);
    Unfold(h, cur, pre + text + "." + more, |pre|, |pre| + |text|, text);
  }

  /** A path leads where its segments lead, one after the other. */
  lemma {:induction false} PathLaw(h: Host, cur: Json, pre: string, segs: seq<Segment>, i: nat)
    requires i < |segs| && forall k :: 0 <= k < |segs| ==> IsSegment(segs[k])
    ensures Resolve(h, cur, pre + Joined(segs, i), |pre|) == Walk(h, cur, segs, i)
    decreases |segs| - i
  {
    hide StepInto, IsSegment, Get, Resolve, SegmentText;
    var text := SegmentText(segs[i]);
    HasNoDot(segs[i]);
    EntersSegment(h, cur, segs[i]);
    if i + 1 == |segs| {
      LastSegment(h, cur, pre, text);
    } else {
      NextSegment(h, cur, pre, text, Joined(segs, i + 1));
      var next := StepInto(h, cur, text);
      if next.Some? {
        PathLaw(h, next.value, pre + text + ".", segs, i + 1);
      }
    }
  }

  lemma {:induction false} HasNoDot(s: Segment)
    requires IsSegment(s)
    ensures '.' !in SegmentText(s)
  {
  }

  // ---------------------------------------------------------------- templates

  /** A template is texts and tokens in braces. */
  datatype Piece = Plain(text: string) | Token(name: string)

  predicate IsPiece(p: Piece) { match p case Plain(text) => '{' !in text case Token(name) => '}' !in name }

  function Written(p: Piece): string { match p case Plain(text) => text case Token(name) => "{" + name + "}" }

  /** The pieces from `i` on, and behind them an opening brace that is never closed, or nothing. */
  function Template(ps: seq<Piece>, i: nat, tail: string): string
    requires i <= |ps|
    decreases |ps| - i
  {
    if i == |ps| then tail else Written(ps[i]) + Template(ps, i + 1, tail)
  }

  /** The same with every token replaced. */
  function Filled(h: Host, ps: seq<Piece>, i: nat, tail: string, t: Table, doc: Json): string
    requires i <= |ps|
    decreases |ps| - i
  {
    if i == |ps| then tail
    else
      match ps[i]
      case Plain(text) => text + Filled(h, ps, i + 1, tail, t, doc)
      case Token(name) => TokenText(h, name, t, doc) + Filled(h, ps, i + 1, tail, t, doc)
  }

  lemma {:induction false} PlainStays(h: Host, pre: string, text: string, rest: string, k: nat, t: Table, doc: Json)
    requires '{' !in text && k <= |text|
    ensures var tpl := pre + text + rest;
            Substituted(h, tpl, |pre| + k, t, doc) == text[k..] + Substituted(h, tpl, |pre| + |text|, t, doc)
    decreases |text| - k
  {
    var tpl := pre + text + rest;
    var behind := Substituted(h, tpl, |pre| + |text|, t, doc);
    if k < |text| {
      PlainStays(h, pre, text, rest, k + 1, t, doc);
      assert tpl[|pre| + k] == text[k] && text[k] in text;
      assert text[k..] == [text[k]] + text[k + 1..];
      Concat3([text[k]], text[k + 1..], behind);
    } else {
      assert text[k..] + behind == behind;
    }
  }

  lemma {:induction false} TokenIsReplaced(h: Host, pre: string, name: string, rest: string, t: Table, doc: Json)
    requires '}' !in name
    ensures var tpl := pre + ("{" + name + "}") + rest;
            Substituted(h, tpl, |pre|, t, doc) ==
            TokenText(h, name, t, doc) + Substituted(h, tpl, |pre| + |name| + 2, t, doc)
  {
    hide TokenText;
    var tpl := pre + ("{" + name + "}") + rest;
    var from := |pre| + 1;
    assert tpl[|pre|] == '{' && tpl[from + |name|] == '}';
    forall k | from <= k < from + |name| ensures tpl[k] != '}' {
      assert tpl[k] == name[k - from];
    }
    FirstClose(tpl, from, from + |name|);
    assert tpl[from..from + |name|] == name;
  }

  lemma {:induction false} FirstClose(s: string, from: nat, p: nat)
    requires from <= p <= |s| && (p < |s| ==> s[p] == '}') && forall k :: from <= k < p ==> s[k] != '}'
    ensures FindChar(s, '}', from) == p
  {
  }

  lemma {:induction false} TailStays(h: Host, pre: string, tail: string, t: Table, doc: Json)
    requires tail == "" || (tail[0] == '{' && '}' !in tail)
    ensures Substituted(h, pre + tail, |pre|, t, doc) == tail
  {
    var tpl := pre + tail;
    if tail != "" {
      assert tpl[|pre|] == '{' && tpl[|pre|..] == tail;
      forall k | |pre| + 1 <= k < |tpl| ensures tpl[k] != '}' {
        assert tpl[k] == tail[k - |pre|];
      }
      FirstClose(tpl, |pre| + 1, |tpl|);
    }
  }

  /** Every token in braces is replaced, and all other text stays, also a brace that is never closed. */
  lemma {:induction false} TemplateIsFilled(h: Host, pre: string, ps: seq<Piece>, i: nat, tail: string, t: Table,
      doc: Json)
    requires i <= |ps| && forall k :: 0 <= k < |ps| ==> IsPiece(ps[k])
    requires tail == "" || (tail[0] == '{' && '}' !in tail)
    ensures Substituted(h, pre + Template(ps, i, tail), |pre|, t, doc) == Filled(h, ps, i, tail, t, doc)
    decreases |ps| - i
  {
    hide TokenText, Substituted;
    if i == |ps| {
      TailStays(h, pre, tail, t, doc);
    } else {
      var (text, rest) := (Written(ps[i]), Template(ps, i + 1, tail));
      assert IsPiece(ps[i]);
      Concat3(pre, text, rest);
      TemplateIsFilled(h, pre + text, ps, i + 1, tail, t, doc);
      match ps[i] {
        case Plain(_) =>
          PlainStays(h, pre, text, rest, 0, t, doc);
          assert text[0..] == text;
        case Token(name) => TokenIsReplaced(h, pre, name, rest, t, doc);
      }
    }
  }

  // ---------------------------------------------------------------- tokens

  /** A path without an index shows what stands there, if that is no container, and a flag what was derived. */
  lemma {:induction false} PathToken(e: Engine, m: TaxFlags, doc: Json, token: string, v: Json)
    requires GoodKeys(doc) && doc.JObj? && !Contains(token, '[') && !v.IsContainer()
    requires Fact(e, m, doc, token) == Some(v)
    ensures TokenText(e.host, token, WithFlags(Collect(doc, "", EMPTY_TABLE), m), doc) == Format(e.host, v)
  {
    hide Collect, Resolve, GoodKeys, Contains, Format, IGST_PATH, CGST_SGST_PATH;
    TableAgreesWithWalker(e.host, doc, token, v);
    FlagPathsDiffer();
  }

  lemma {:induction false} FlagPathsDiffer()
    ensures IGST_PATH != CGST_SGST_PATH
  {
    assert |HAS_IGST| != |HAS_CGST_SGST|;
  }

  /** How a value is shown. */
  lemma {:induction false} FormatLaw(h: Host, s: string, i: int)
    ensures Format(h, JStr(s)) == s && Format(h, JNum(i as real)) == IntText(i)
    ensures Format(h, JBool(true)) == "true" && Format(h, JBool(false)) == "false"
  {
    assert (i as real).Floor == i;
  }

  /** The path that a short name stands for. */
  predicate IsAlias(token: string, path: string) {
    || (token == "hsn" && path == "invoice.hsn_string")
    || (token == "aato_crore" && path == "supplier.aato_crore")
    || (token == "cgst" && path == "invoice.tax_breakdown.cgst")
    || (token == "sgst" && path == "invoice.tax_breakdown.sgst")
    || (token == "igst" && path == "invoice.tax_breakdown.igst")
    || (token == "total_tax" && path == "invoice.tax_breakdown.total_tax")
    || (token == "irn" && path == "invoice.irn")
  }

  lemma {:induction false} InvoiceNames()
    ensures INVOICE + "." + "hsn_string" == "invoice.hsn_string" && INVOICE + "." + "irn" == "invoice.irn"
    ensures "supplier" + "." + "aato_crore" == "supplier.aato_crore"
  {
  }

  lemma {:induction false} BreakdownNames()
    ensures BREAKDOWN_PATH + "." + "cgst" == "invoice.tax_breakdown.cgst"
    ensures BREAKDOWN_PATH + "." + "sgst" == "invoice.tax_breakdown.sgst"
    ensures BREAKDOWN_PATH + "." + "igst" == "invoice.tax_breakdown.igst"
    ensures BREAKDOWN_PATH + "." + "total_tax" == "invoice.tax_breakdown.total_tax"
  {
    hide BREAKDOWN_PATH;
    V.BreakdownText();
    assert "invoice.tax_breakdown" + "." == "invoice.tax_breakdown.";
  }

  lemma {:induction false} AliasIs(token: string, path: string)
    requires IsAlias(token, path)
    ensures token in ALIASES && ALIASES[token] == path
  {
    hide BREAKDOWN_PATH;
    InvoiceNames();
    BreakdownNames();
  }

  /** A short name that is no path of the document shows what its path leads to; without that it stays as it is. */
  lemma {:induction false} AliasToken(h: Host, token: string, path: string, t: Table, doc: Json)
    requires IsAlias(token, path) && token !in t.full
    ensures TokenText(h, token, t, doc) ==
            match Resolve(h, doc, path, 0) case Some(v) => Format(h, v) case None => "{" + token + "}"
  {
    hide Resolve, Format, IsAlias, ALIASES;
    AliasIs(token, path);
  }

  // ---------------------------------------------------------------- bare names

  /** The named leaves of a value in the order in which they stand. */
  function Leaves(node: Json): seq<Field>
    decreases node, 1
  {
    match node
    case JObj(fields) => FieldLeaves(fields, |fields|)
    case JArr(items) => ItemLeaves(items, |items|)
    case _ => []
  }

  function FieldLeaves(fields: seq<Field>, n: nat): seq<Field>
    requires n <= |fields|
    decreases fields, 0, n
  {
    if n == 0 then []
    else
      var f := fields[n - 1];
      FieldLeaves(fields, n - 1) + if f.value.IsContainer() then Leaves(f.value) else [f]
  }

  function ItemLeaves(items: seq<Json>, n: nat): seq<Field>
    requires n <= |items|
    decreases items, 0, n
  {
    if n == 0 then [] else ItemLeaves(items, n - 1) + Leaves(items[n - 1])
  }

  /** The last leaf with a name, or else what was known before. */
  function LastNamed(leaves: seq<Field>, name: string, before: Option<Json>): Option<Json> {
    if leaves == [] then before
    else if leaves[|leaves| - 1].name == name then Some(leaves[|leaves| - 1].value)
    else LastNamed(leaves[..|leaves| - 1], name, before)
  }

  lemma {:induction false} LastOfBoth(a: seq<Field>, b: seq<Field>, name: string, before: Option<Json>)
    ensures LastNamed(a + b, name, before) == LastNamed(b, name, LastNamed(a, name, before))
  {
    if b == [] {
      assert a + b == a;
    } else {
      assert (a + b)[..|a + b| - 1] == a + b[..|b| - 1];
      LastOfBoth(a, b[..|b| - 1], name, before);
    }
  }

  /** The flattened table keeps the last leaf of each name. */
  lemma {:induction false} BareNames(node: Json, prefix: string, t: Table, name: string)
    ensures Lookup(Collect(node, prefix, t).bare, name) == LastNamed(Leaves(node), name, Lookup(t.bare, name))
    decreases node, 1
  {
    match node
    case JObj(fields) => BareFields(fields, |fields|, prefix, t, name);
    case JArr(items) => BareItems(items, |items|, prefix, t, name);
    case _ =>
  }

  lemma {:induction false} BareFields(fields: seq<Field>, n: nat, prefix: string, t: Table, name: string)
    requires n <= |fields|
    ensures Lookup(CollectFields(fields, n, prefix, t).bare, name) ==
            LastNamed(FieldLeaves(fields, n), name, Lookup(t.bare, name))
    decreases fields, 0, n
  {
    hide Collect, Leaves, LastNamed, JoinPath;
    if n > 0 {
      var (f, before) := (fields[n - 1], CollectFields(fields, n - 1, prefix, t));
      BareFields(fields, n - 1, prefix, t, name);
      LastOfBoth(FieldLeaves(fields, n - 1), if f.value.IsContainer() then Leaves(f.value) else [f], name,
        Lookup(t.bare, name));
      if f.value.IsContainer() {
        BareNames(f.value, JoinPath(prefix, f.name), before, name);
      } else {
        OneLeaf(f, name, Lookup(before.bare, name));
      }
    } else {
      NoLeaf(name, Lookup(t.bare, name));
    }
  }

  lemma {:induction false} OneLeaf(f: Field, name: string, before: Option<Json>)
    ensures LastNamed([f], name, before) == if f.name == name then Some(f.value) else before
  {
  }

  lemma {:induction false} NoLeaf(name: string, before: Option<Json>)
    ensures LastNamed([], name, before) == before
  {
  }

  lemma {:induction false} BareItems(items: seq<Json>, n: nat, prefix: string, t: Table, name: string)
    requires n <= |items|
    ensures Lookup(CollectItems(items, n, prefix, t).bare, name) ==
            LastNamed(ItemLeaves(items, n), name, Lookup(t.bare, name))
    decreases items, 0, n
  {
    hide Collect, Leaves, LastNamed, ItemPath;
    if n > 0 {
      var (item, before) := (items[n - 1], CollectItems(items, n - 1, prefix, t));
      BareItems(items, n - 1, prefix, t, name);
      LastOfBoth(ItemLeaves(items, n - 1), Leaves(item), name, Lookup(t.bare, name));
      if item.IsContainer() {
        BareNames(item, ItemPath(prefix, n - 1), before, name);
      } else {
        LeafHasNone(item);
        NoLeaf(name, Lookup(before.bare, name));
      }
    } else {
      NoLeaf(name, Lookup(t.bare, name));
    }
  }

  lemma {:induction false} LeafHasNone(v: Json)
    requires !v.IsContainer()
    ensures Leaves(v) == []
  {
  }

  /** A name that is neither a path nor a short name shows the last leaf of that name, but a flag what was derived. */
  lemma {:induction false} BareToken(h: Host, m: TaxFlags, doc: Json, name: string)
    ensures var t := WithFlags(Collect(doc, "", EMPTY_TABLE), m);
            name !in t.full && name !in ALIASES ==>
              TokenText(h, name, t, doc) ==
              if name == HAS_IGST then Format(h, JBool(m.hasIgst))
              else if name == HAS_CGST_SGST then Format(h, JBool(m.hasCgstSgst))
              else match LastNamed(Leaves(doc), name, None) case Some(v) => Format(h, v) case None => "{" + name + "}"
  {
    hide Collect, Leaves, LastNamed, Format, ALIASES;
    BareNames(doc, "", EMPTY_TABLE, name);
    assert |HAS_IGST| != |HAS_CGST_SGST|;
  }
}
