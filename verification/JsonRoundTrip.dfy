/** Loading what `dump` prints gives the value back (RFC 8259, sections 2 to 7). */
module JsonRoundTrip {
  import opened Prelude
  import opened JsonStrings
  import P = JsonPrinter
  import opened JsonGrammar

  /** The tree the parser should return for a written value. */
  function Loaded(v: P.Value): Json
    decreases v
  {
    match v
    case Null => Null
    case Bool(b) => Bool(b)
    case Int(n) => Number(IntText(n))
    case Str(s) => Str(s)
    case List(items) => List(seq(|items|, i requires 0 <= i < |items| => Loaded(items[i])))
    case Object(fields) => Object(seq(|fields|, i requires 0 <= i < |fields| => (fields[i].0, Loaded(fields[i].1))))
  }

  function LoadedItems(items: seq<P.Value>): seq<Json> {
    seq(|items|, i requires 0 <= i < |items| => Loaded(items[i]))
  }

  function LoadedFields(fields: seq<(string, P.Value)>): seq<(string, Json)> {
    seq(|fields|, i requires 0 <= i < |fields| => (fields[i].0, Loaded(fields[i].1)))
  }

  /** The container nesting of `v`, entered at `depth`, stays within the parser's limit. */
  predicate Fits(v: P.Value, depth: nat)
    decreases v
  {
    match v
    case List(items) => depth + 1 <= MAX_DEPTH && forall i :: 0 <= i < |items| ==> Fits(items[i], depth + 2)
    case Object(fields) => depth + 1 <= MAX_DEPTH && forall i :: 0 <= i < |fields| ==> Fits(fields[i].1, depth + 2)
    case _ => true
  }

  /** Indentation, if any, is made of JSON whitespace. */
  predicate Blank(lay: P.Layout) { lay.indent <= 0 || IsSpace(lay.separator) }

  // ---------------------------------------------------------------- whitespace, literals and numbers

  lemma {:induction false} SkipBlanks(ws: string, rest: string)
    requires forall c :: c in ws ==> IsSpace(c)
    ensures SkipSpace(ws + rest) == SkipSpace(rest)
  {
    if ws == "" {
      assert ws + rest == rest;
    } else {
      assert (ws + rest)[1..] == ws[1..] + rest;
      SkipBlanks(ws[1..], rest);
    }
  }

  lemma {:induction false} SkipNewLine(lay: P.Layout, level: nat, rest: string)
    requires Blank(lay)
    ensures SkipSpace(P.NewLine(lay, level) + rest) == SkipSpace(rest)
  {
    SkipBlanks(P.NewLine(lay, level), rest);
  }

  lemma {:induction false} DigitsEndAt(s: string, k: nat, e: nat)
    requires k <= e <= |s| && (forall i :: k <= i < e ==> IsDigit(s[i])) && (e < |s| ==> !IsDigit(s[e]))
    ensures DigitsEnd(s, k) == e
    decreases e - k
  {
    if k < e {
      DigitsEndAt(s, k + 1, e);
    }
  }

  /** A run of digits without a leading zero is read in one stride. */
  lemma {:induction false} DigitsAreNumber(s: string, k: nat, n: nat, state: nat)
    requires OccursAt(s, k, Digits(n)) && state in {MINUS, AFTER_MINUS}
    requires var e := k + |Digits(n)|; e < |s| ==> !IsNumberChar(s[e])
    ensures NumberEnd(s, k, state) == Some(k + |Digits(n)|)
  {
    var ds := Digits(n);
    var e := k + |ds|;
    assert forall i :: k <= i < e ==> s[i] == s[k..e][i - k] == ds[i - k];
    assert s[k] == ds[0] && IsDigit(ds[0]);
    if n != 0 {
      DigitsEndAt(s, k + 1, e);
    }
    assert Stride(s, k) == e;
  }

  lemma {:induction false} IntIsNumber(n: int, rest: string)
    requires !IsNumberChar(Peek(rest))
    ensures ParseNumber(IntText(n) + rest) == Some((Number(IntText(n)), rest))
  {
    var t := IntText(n);
    var s := t + rest;
    if n < 0 {
      assert s[1..|t|] == Digits(-n);
      DigitsAreNumber(s, 1, -n, AFTER_MINUS);
    } else {
      assert s[0..|t|] == Digits(n);
      DigitsAreNumber(s, 0, n, MINUS);
    }
    assert s[..|t|] == t && s[|t|..] == rest;
  }

  /** No printed value starts with whitespace or closing punctuation. */
  lemma {:induction false} DumpHead(v: P.Value, lay: P.Layout, level: nat)
    ensures var d := P.Dump(v, lay, level);
            d != "" && !IsSpace(d[0]) && d[0] != ']' && d[0] != '}'
  {
    if v.Int? {
      assert v.n >= 0 ==> IsDigit(Digits(v.n)[0]);
    }
  }

  lemma {:induction false} StringParses(s: string, rest: string)
    ensures ParseString(P.Quoted(s) + rest) == Some((s, rest))
  {
    AfterQuote(Escaped(s), rest);
    QuotedStringIsRead(s, rest);
  }

  lemma {:induction false} AfterQuote(body: string, rest: string)
    ensures var t := "\"" + body + "\"" + rest; t[0] == '"' && t[1..] == body + "\"" + rest
  {
  }

  // ---------------------------------------------------------------- the round trip

  lemma {:induction false} ScalarParses(v: P.Value, lay: P.Layout, level: nat, depth: nat, rest: string)
    requires !v.List? && !v.Object? && !IsNumberChar(Peek(rest))
    ensures ParseValue(P.Dump(v, lay, level) + rest, depth) == Some((Loaded(v), rest))
  {
    var d := P.Dump(v, lay, level);
    var s := d + rest;
    assert s[|d|..] == rest;
    match v
    case Null => assert Peek(s) == 'n' && "null" <= s;
    case Bool(b) => assert if b then Peek(s) == 't' && "true" <= s else Peek(s) == 'f' && "false" <= s;
    case Str(t) => StringParses(t, rest); assert Peek(s) == '"';
    case Int(n) =>
      IntIsNumber(n, rest);
      assert Peek(s) == d[0];
      assert d[0] == '-' || IsDigit(d[0]);
  }

  // The punctuation after an element, on any text.

  lemma {:induction false} ElementEnds<T>(v: T, tail: string, close: char, rest: string)
    requires SkipSpace(tail) == [close] + rest
    ensures AfterElement((v, tail), close) == Some((v, false, rest))
  {
    assert ([close] + rest)[1..] == rest;
  }

  lemma {:induction false} ElementContinues<T>(v: T, tail: string, close: char, ws: string, next: string)
    requires tail == "," + ws && SkipSpace(ws) == next && close != ','
    ensures AfterElement((v, tail), close) == Some((v, true, next))
  {
    assert tail[1..] == ws;
  }

  lemma {:induction false} CloseSkips(lay: P.Layout, level: nat, bracket: char, rest: string)
    requires Blank(lay) && bracket in "]}"
    ensures var close := P.NewLine(lay, level) + [bracket] + rest;
            SkipSpace(close) == [bracket] + rest && !IsNumberChar(Peek(close))
  {
    SkipNewLine(lay, level, [bracket] + rest);
    assert P.NewLine(lay, level) + [bracket] + rest == P.NewLine(lay, level) + ([bracket] + rest);
  }

  lemma {:induction false} CommaPieces(m: string, nl: string, second: string, more: string, text: string, close: string)
    requires m == "," + nl + second + more && text == second + more
    ensures m + close == "," + (nl + (text + close))
  {
    assert m == "," + (nl + text);
    assert m + close == "," + ((nl + text) + close);
  }

  /** The text of a list from one item on, in the pieces that the parser meets. */
  lemma {:induction false} ItemsPieces(items: seq<P.Value>, lay: P.Layout, level: nat, close: string)
    requires items != []
    ensures var tail := P.DumpMore(items[1..], lay, level) + close;
            && P.ItemsText(items, lay, level) + close == P.Dump(items[0], lay, level) + tail
            && tail == if |items| == 1 then close
                       else "," + (P.NewLine(lay, level) + (P.ItemsText(items[1..], lay, level) + close))
  {
    var more := items[1..];
    var moreText := P.DumpMore(more, lay, level);
    Concat3(P.Dump(items[0], lay, level), moreText, close);
    if more != [] {
      CommaPieces(moreText, P.NewLine(lay, level), P.Dump(more[0], lay, level), P.DumpMore(more[1..], lay, level),
                  P.ItemsText(more, lay, level), close);
    }
  }

  lemma {:induction false} FieldsPieces(fields: seq<(string, P.Value)>, lay: P.Layout, level: nat, close: string)
    requires fields != []
    ensures var tail := P.DumpMoreFields(fields[1..], lay, level) + close;
            && P.FieldsText(fields, lay, level) + close == P.DumpField(fields[0], lay, level) + tail
            && tail == if |fields| == 1 then close
                       else "," + (P.NewLine(lay, level) + (P.FieldsText(fields[1..], lay, level) + close))
  {
    var more := fields[1..];
    var moreText := P.DumpMoreFields(more, lay, level);
    Concat3(P.DumpField(fields[0], lay, level), moreText, close);
    if more != [] {
      CommaPieces(moreText, P.NewLine(lay, level), P.DumpField(more[0], lay, level),
        P.DumpMoreFields(more[1..], lay, level),
                  P.FieldsText(more, lay, level), close);
    }
  }

  lemma {:induction false} FieldPieces(f: (string, P.Value), lay: P.Layout, level: nat, rest: string)
    ensures P.DumpField(f, lay, level) + rest == P.Quoted(f.0) + (P.Colon(lay) + (P.Dump(f.1, lay, level) + rest))
    ensures (P.Colon(lay) + (P.Dump(f.1, lay, level) + rest))[1..] ==
            P.Colon(lay)[1..] + (P.Dump(f.1, lay, level) + rest)
  {
    Concat4(P.Quoted(f.0), P.Colon(lay), P.Dump(f.1, lay, level), rest);
  }

  lemma {:induction false} Concat4(a: string, b: string, c: string, d: string)
    ensures a + b + c + d == a + (b + (c + d))
  {
  }

  lemma {:induction false} BodyHead(body: string, lay: P.Layout, level: nat)
    requires Blank(lay) && body != "" && !IsSpace(body[0])
    ensures SkipSpace(P.NewLine(lay, level) + body) == body
  {
    SkipNewLine(lay, level, body);
  }

  lemma {:induction false} ItemsHead(items: seq<P.Value>, lay: P.Layout, level: nat, close: string)
    requires items != []
    ensures var t := P.ItemsText(items, lay, level) + close; t != "" && !IsSpace(t[0]) && t[0] != ']'
  {
    DumpHead(items[0], lay, level);
  }

  lemma {:induction false} FieldsHead(fields: seq<(string, P.Value)>, lay: P.Layout, level: nat, close: string)
    requires fields != []
    ensures var t := P.FieldsText(fields, lay, level) + close; t != "" && t[0] == '"'
  {
    var q, f := P.Quoted(fields[0].0), P.DumpField(fields[0], lay, level);
    assert q[0] == '"' && f[0] == q[0];
    assert P.FieldsText(fields, lay, level)[0] == f[0];
  }

  predicate AllFit(items: seq<P.Value>, depth: nat) { forall i :: 0 <= i < |items| ==> Fits(items[i], depth) }

  predicate AllFieldsFit(fields: seq<(string, P.Value)>, depth: nat) {
    forall i :: 0 <= i < |fields| ==> Fits(fields[i].1, depth)
  }

  function LoadedIf(v: P.Value, depth: nat): Option<Json> { if Fits(v, depth) then Some(Loaded(v)) else None }

  lemma {:induction false} ContainerParses(s: string, depth: nat, body: string, ws: string)
    requires s != "" && s[0] in "[{" && s[1..] == ws && SkipSpace(ws) == body && body != ""
    ensures s[0] == '[' && body[0] == ']' ==>
              ParseValue(s, depth) == if depth + 1 <= MAX_DEPTH then Some((List([]), body[1..])) else None
    ensures s[0] == '{' && body[0] == '}' ==>
              ParseValue(s, depth) == if depth + 1 <= MAX_DEPTH then Some((Object([]), body[1..])) else None
    ensures s[0] == '[' && body[0] != ']' ==>
              var r := ParseItems(body, depth + 1);
              ParseValue(s, depth) == if depth + 1 <= MAX_DEPTH && r.Some? then Some((List(r.value.0), r.value.1))
                else None
    ensures s[0] == '{' && body[0] != '}' ==>
              var r := ParseFields(body, depth + 1);
              ParseValue(s, depth) == if depth + 1 <= MAX_DEPTH && r.Some? then Some((Object(r.value.0), r.value.1))
                else None
  {
  }

  /** The parser accepts a printed value exactly when its nesting fits, and then returns the value and the rest. */
  lemma {:induction false} DumpParses(v: P.Value, lay: P.Layout, level: nat, depth: nat, rest: string)
    requires Blank(lay) && !IsNumberChar(Peek(rest))
    ensures ParseValue(P.Dump(v, lay, level) + rest, depth) == if Fits(v, depth) then Some((Loaded(v), rest)) else None
    decreases v, 1
  {
    match v
    case List(items) => ListParses(items, lay, level, depth, rest);
    case Object(fields) => ObjectParses(fields, lay, level, depth, rest);
    case _ => ScalarParses(v, lay, level, depth, rest);
  }

  lemma {:induction false} ListParses(items: seq<P.Value>, lay: P.Layout, level: nat, depth: nat, rest: string)
    requires Blank(lay)
    ensures var v := P.List(items);
            ParseValue(P.ListText(items, lay, level) + rest, depth) == if Fits(v, depth) then Some((Loaded(v), rest))
              else None
    decreases items, 3
  {
    hide ParseValue, ParseItems, SkipSpace;
    var s := P.ListText(items, lay, level) + rest;
    var close := P.NewLine(lay, level) + "]" + rest;
    var body := P.ItemsText(items, lay, level + 1) + close;
    assert s[0] == '[' && s[1..] == P.NewLine(lay, level + 1) + body;
    if items == [] {
      assert body == close;
      SkipNewLine(lay, level + 1, close);
      CloseSkips(lay, level, ']', rest);
      ContainerParses(s, depth, "]" + rest, s[1..]);
      assert ("]" + rest)[1..] == rest && LoadedItems(items) == [];
    } else {
      ItemsHead(items, lay, level + 1, close);
      BodyHead(body, lay, level + 1);
      ContainerParses(s, depth, body, s[1..]);
      ItemsParse(items, lay, level + 1, level, depth + 1, rest);
    }
  }

  lemma {:induction false} ObjectParses(fields: seq<(string, P.Value)>, lay: P.Layout, level: nat, depth: nat,
      rest: string)
    requires Blank(lay)
    ensures var v := P.Object(fields);
            ParseValue(P.ObjectText(fields, lay, level) + rest, depth) == if Fits(v, depth) then Some((Loaded(v), rest))
              else None
    decreases fields, 3
  {
    hide ParseValue, ParseFields, SkipSpace;
    var s := P.ObjectText(fields, lay, level) + rest;
    var close := P.NewLine(lay, level) + "}" + rest;
    var body := P.FieldsText(fields, lay, level + 1) + close;
    assert s[0] == '{' && s[1..] == P.NewLine(lay, level + 1) + body;
    if fields == [] {
      assert body == close;
      SkipNewLine(lay, level + 1, close);
      CloseSkips(lay, level, '}', rest);
      ContainerParses(s, depth, "}" + rest, s[1..]);
      assert ("}" + rest)[1..] == rest && LoadedFields(fields) == [];
    } else {
      FieldsHead(fields, lay, level + 1, close);
      BodyHead(body, lay, level + 1);
      ContainerParses(s, depth, body, s[1..]);
      FieldsParse(fields, lay, level + 1, level, depth + 1, rest);
    }
  }

  lemma {:induction false} ItemsParse(items: seq<P.Value>, lay: P.Layout, level: nat, outer: nat,
      depth: nat, rest: string)
    requires items != [] && Blank(lay)
    ensures ParseItems(P.ItemsText(items, lay, level) + (P.NewLine(lay, outer) + "]" + rest), depth) ==
            if AllFit(items, depth + 1) then Some((LoadedItems(items), rest)) else None
    decreases items, 2
  {
    var close := P.NewLine(lay, outer) + "]" + rest;
    var more := items[1..];
    var tail := P.DumpMore(more, lay, level) + close;
    var s := P.ItemsText(items, lay, level) + close;
    ItemsPieces(items, lay, level, close);
    CloseSkips(lay, outer, ']', rest);
    DumpParses(items[0], lay, level, depth + 1, tail);
    if more == [] {
      ElementEnds(Loaded(items[0]), tail, ']', rest);
      assert LoadedItems(items) == [Loaded(items[0])];
    } else {
      var next := P.ItemsText(more, lay, level) + close;
      ItemsHead(more, lay, level, close);
      BodyHead(next, lay, level);
      ElementContinues(Loaded(items[0]), tail, ']', P.NewLine(lay, level) + next, next);
      ItemsParse(more, lay, level, outer, depth, rest);
      ItemsCons(items, depth + 1);
    }
  }

  lemma {:induction false} ItemsCons(items: seq<P.Value>, depth: nat)
    requires items != []
    ensures AllFit(items, depth) <==> Fits(items[0], depth) && AllFit(items[1..], depth)
    ensures LoadedItems(items) == [Loaded(items[0])] + LoadedItems(items[1..])
  {
    assert forall i :: 0 < i < |items| ==> items[i] == items[1..][i - 1];
  }

  lemma {:induction false} FieldsCons(fields: seq<(string, P.Value)>, depth: nat)
    requires fields != []
    ensures AllFieldsFit(fields, depth) <==> Fits(fields[0].1, depth) && AllFieldsFit(fields[1..], depth)
    ensures LoadedFields(fields) == [(fields[0].0, Loaded(fields[0].1))] + LoadedFields(fields[1..])
  {
    assert forall i :: 0 < i < |fields| ==> fields[i] == fields[1..][i - 1];
  }

  lemma {:induction false} FieldStep(s: string, depth: nat, key: string, colon: string, value: string)
    requires ParseString(s) == Some((key, colon)) && colon != "" && colon[0] == ':' && SkipSpace(colon) == colon
    requires SkipSpace(colon[1..]) == value
    ensures var v := ParseValue(value, depth + 1);
            ParsePair(s, depth) == if v.Some? then Some(((key, v.value.0), v.value.1)) else None
  {
  }

  lemma {:induction false} ColonSkips(lay: P.Layout, value: string)
    requires value != "" && !IsSpace(value[0])
    ensures var colon := P.Colon(lay) + value;
            colon[0] == ':' && SkipSpace(colon) == colon && SkipSpace(colon[1..]) == value
  {
    SkipBlanks(P.Colon(lay)[1..], value);
    assert (P.Colon(lay) + value)[1..] == P.Colon(lay)[1..] + value;
  }

  lemma {:induction false} FieldParses(f: (string, P.Value), lay: P.Layout, level: nat, depth: nat, rest: string)
    requires Blank(lay) && !IsNumberChar(Peek(rest))
    ensures ParsePair(P.DumpField(f, lay, level) + rest, depth) ==
            var v := LoadedIf(f.1, depth + 1); if v.Some? then Some(((f.0, v.value), rest)) else None
    decreases f, 2
  {
    var value := P.Dump(f.1, lay, level) + rest;
    var colon := P.Colon(lay) + value;
    FieldPieces(f, lay, level, rest);
    StringParses(f.0, colon);
    DumpHead(f.1, lay, level);
    ColonSkips(lay, value);
    FieldStep(P.Quoted(f.0) + colon, depth, f.0, colon, value);
    DumpParses(f.1, lay, level, depth + 1, rest);
  }

  lemma {:induction false} FieldsParse(fields: seq<(string, P.Value)>, lay: P.Layout, level: nat, outer: nat,
      depth: nat, rest: string)
    requires fields != [] && Blank(lay)
    ensures ParseFields(P.FieldsText(fields, lay, level) + (P.NewLine(lay, outer) + "}" + rest), depth) ==
            if AllFieldsFit(fields, depth + 1) then Some((LoadedFields(fields), rest)) else None
    decreases fields, 2
  {
    var close := P.NewLine(lay, outer) + "}" + rest;
    var more := fields[1..];
    var tail := P.DumpMoreFields(more, lay, level) + close;
    var s := P.FieldsText(fields, lay, level) + close;
    FieldsPieces(fields, lay, level, close);
    CloseSkips(lay, outer, '}', rest);
    FieldParses(fields[0], lay, level, depth, tail);
    if more == [] {
      ElementEnds((fields[0].0, Loaded(fields[0].1)), tail, '}', rest);
      assert LoadedFields(fields) == [(fields[0].0, Loaded(fields[0].1))];
    } else {
      var next := P.FieldsText(more, lay, level) + close;
      FieldsHead(more, lay, level, close);
      BodyHead(next, lay, level);
      ElementContinues((fields[0].0, Loaded(fields[0].1)), tail, '}', P.NewLine(lay, level) + next, next);
      FieldsParse(more, lay, level, outer, depth, rest);
      FieldsCons(fields, depth + 1);
    }
  }

  // ---------------------------------------------------------------- the depth limit

  function Height(v: P.Value): nat
    decreases v, 1
  {
    match v
    case List(items) => 1 + ItemsHeight(items)
    case Object(fields) => 1 + FieldsHeight(fields)
    case _ => 0
  }

  function ItemsHeight(items: seq<P.Value>): nat
    decreases items, 0
  {
    if items == [] then 0 else Max(Height(items[0]), ItemsHeight(items[1..]))
  }

  function FieldsHeight(fields: seq<(string, P.Value)>): nat
    decreases fields, 0
  {
    if fields == [] then 0 else Max(FieldHeight(fields[0]), FieldsHeight(fields[1..]))
  }

  function FieldHeight(f: (string, P.Value)): nat
    decreases f, 2
  {
    Height(f.1)
  }

  function Max(a: nat, b: nat): nat { if a < b then b else a }

  /** Each container costs the parser two levels. */
  lemma {:induction false} FitsIsHeight(v: P.Value, depth: nat)
    ensures Fits(v, depth) <==> Height(v) == 0 || depth + 2 * Height(v) - 1 <= MAX_DEPTH
    decreases v, 1
  {
    match v
    case List(items) => ItemsFitIsHeight(items, depth + 2);
    case Object(fields) => FieldsFitIsHeight(fields, depth + 2);
    case _ =>
  }

  lemma {:induction false} ItemsFitIsHeight(items: seq<P.Value>, depth: nat)
    ensures AllFit(items, depth) <==> ItemsHeight(items) == 0 || depth + 2 * ItemsHeight(items) - 1 <= MAX_DEPTH
    decreases items, 0
  {
    if items != [] {
      FitsIsHeight(items[0], depth);
      ItemsFitIsHeight(items[1..], depth);
      ItemsCons(items, depth);
    }
  }

  lemma {:induction false} FieldFitIsHeight(f: (string, P.Value), depth: nat)
    ensures Fits(f.1, depth) <==> FieldHeight(f) == 0 || depth + 2 * FieldHeight(f) - 1 <= MAX_DEPTH
    decreases f, 2
  {
    FitsIsHeight(f.1, depth);
  }

  lemma {:induction false} FieldsFitIsHeight(fields: seq<(string, P.Value)>, depth: nat)
    ensures AllFieldsFit(fields, depth) <==>
            FieldsHeight(fields) == 0 || depth + 2 * FieldsHeight(fields) - 1 <= MAX_DEPTH
    decreases fields, 0
  {
    if fields != [] {
      FieldFitIsHeight(fields[0], depth);
      FieldsFitIsHeight(fields[1..], depth);
      FieldsCons(fields, depth);
    }
  }

  /** A printed document loads exactly when containers nest at most 5000 deep, and loads as the printed tree. */
  lemma {:induction false} LoadOfDump(v: P.Value, lay: P.Layout)
    requires Blank(lay)
    ensures ParseDocument(P.Dump(v, lay, 0)) == if Height(v) <= 5000 then Some(Loaded(v)) else None
  {
    var text := P.Dump(v, lay, 0);
    DumpHead(v, lay, 0);
    assert SkipSpace(text) == text && text + "" == text;
    DumpParses(v, lay, 0, 0, "");
    FitsIsHeight(v, 0);
  }

  // ---------------------------------------------------------------- back to a written value

  const INT64_MIN := -0x8000_0000_0000_0000
  const UINT64_MAX := 0xFFFF_FFFF_FFFF_FFFF

  /** The integer that `i()` or `u()` reads: signed when the text has a minus sign, unsigned otherwise. */
  function IntOf(text: string): Option<int> {
    if text != "" && text[0] == '-' then
      (if text[1..] != "" && AllDigits(text[1..]) && Decimal(text[1..]) <= -INT64_MIN then Some(0 - Decimal(text[1..]))
        else None)
    else if text != "" && AllDigits(text) && Decimal(text) <= UINT64_MAX then Some(Decimal(text))
    else None
  }

  /** `emplace`: a key that is already present keeps its first value. */
  function Emplaced(fields: seq<(string, P.Value)>, f: (string, P.Value)): seq<(string, P.Value)> {
    if exists i :: 0 <= i < |fields| && fields[i].0 == f.0 then fields else fields + [f]
  }

  /** The written value made from a parsed one; None if a number is not a 64-bit integer. */
  function Reload(j: Json): Option<P.Value>
    decreases j, 1
  {
    match j
    case Null => Some(P.Null)
    case Bool(b) => Some(P.Bool(b))
    case Number(text) => var n := IntOf(text); if n.Some? then Some(P.Int(n.value)) else None
    case Str(s) => Some(P.Str(s))
    case List(items) => var vs := ReloadItems(items); if vs.Some? then Some(P.List(vs.value)) else None
    case Object(fields) => var fs := ReloadFields(fields); if fs.Some? then Some(P.Object(fs.value)) else None
  }

  function ReloadItems(items: seq<Json>): Option<seq<P.Value>>
    decreases items, 0
  {
    if items == [] then Some([])
    else
      var v := Reload(items[0]);
      var vs := ReloadItems(items[1..]);
      if v.Some? && vs.Some? then Some([v.value] + vs.value) else None
  }

  function ReloadFields(fields: seq<(string, Json)>): Option<seq<(string, P.Value)>>
    decreases fields, 0
  {
    if fields == [] then Some([])
    else
      var last := fields[|fields| - 1];
      var fs := ReloadFields(fields[..|fields| - 1]);
      var v := ReloadField(last);
      if v.Some? && fs.Some? then Some(Emplaced(fs.value, v.value)) else None
  }

  function ReloadField(f: (string, Json)): Option<(string, P.Value)>
    decreases f, 2
  {
    var v := Reload(f.1); if v.Some? then Some((f.0, v.value)) else None
  }

  /** Integers are 64 bits wide and the keys of each object are distinct, as the C++ types guarantee. */
  predicate Representable(v: P.Value)
    decreases v
  {
    match v
    case Int(n) => INT64_MIN <= n <= UINT64_MAX
    case List(items) => forall i :: 0 <= i < |items| ==> Representable(items[i])
    case Object(fields) =>
      && (forall i :: 0 <= i < |fields| ==> Representable(fields[i].1))
      && (forall i, j :: 0 <= i < j < |fields| ==> fields[i].0 != fields[j].0)
    case _ => true
  }

  lemma {:induction false} IntOfText(n: int)
    requires INT64_MIN <= n <= UINT64_MAX
    ensures IntOf(IntText(n)) == Some(n)
  {
    if n < 0 {
      DecimalOfDigits(-n);
      assert IntText(n)[1..] == Digits(-n);
    } else {
      DecimalOfDigits(n);
      assert IsDigit(IntText(n)[0]);
    }
  }

  lemma {:induction false} ReloadOfLoaded(v: P.Value)
    requires Representable(v)
    ensures Reload(Loaded(v)) == Some(v)
    decreases v, 1
  {
    match v
    case Int(n) => IntOfText(n);
    case List(items) => ReloadOfItems(items); assert Loaded(v).items == LoadedItems(items);
    case Object(fields) => ReloadOfFields(fields); assert Loaded(v).fields == LoadedFields(fields);
    case _ =>
  }

  lemma {:induction false} ReloadOfItems(items: seq<P.Value>)
    requires forall i :: 0 <= i < |items| ==> Representable(items[i])
    ensures ReloadItems(LoadedItems(items)) == Some(items)
    decreases items, 0
  {
    if items != [] {
      ReloadOfLoaded(items[0]);
      ReloadOfItems(items[1..]);
      ItemsCons(items, 0);
      assert LoadedItems(items)[1..] == LoadedItems(items[1..]);
      assert items == [items[0]] + items[1..];
    }
  }

  lemma {:induction false} ReloadOfField(f: (string, P.Value))
    requires Representable(f.1)
    ensures ReloadField((f.0, Loaded(f.1))) == Some(f)
    decreases f, 2
  {
    ReloadOfLoaded(f.1);
  }

  lemma {:induction false} ReloadOfFields(fields: seq<(string, P.Value)>)
    requires forall i :: 0 <= i < |fields| ==> Representable(fields[i].1)
    requires forall i, j :: 0 <= i < j < |fields| ==> fields[i].0 != fields[j].0
    ensures ReloadFields(LoadedFields(fields)) == Some(fields)
    decreases fields, 0
  {
    if fields != [] {
      var k := |fields| - 1;
      var last := fields[k];
      ReloadOfField(last);
      ReloadOfFields(fields[..k]);
      assert LoadedFields(fields)[..k] == LoadedFields(fields[..k]);
      assert fields == fields[..k] + [last];
    }
  }

  /** Printing a value, compactly or indented, and loading the text gives the same value. */
  lemma {:induction false} RoundTrip(v: P.Value, lay: P.Layout)
    requires Blank(lay) && Representable(v) && Height(v) <= 5000
    ensures var j := ParseDocument(P.Dump(v, lay, 0)); j.Some? && Reload(j.value) == Some(v)
  {
    LoadOfDump(v, lay);
    ReloadOfLoaded(v);
  }
}
