/** What the JSON parser accepts, as functions on text; reading past the end of the text gives NUL. */
module JsonGrammar {
  import opened Prelude
  import opened JsonStrings

  /** A parsed value; a number keeps its text. */
  datatype Json =
    | Null
    | Bool(b: bool)
    | Number(text: string)
    | Str(s: string)
    | List(items: seq<Json>)
    | Object(fields: seq<(string, Json)>)

  const MAX_DEPTH := 10000

  function Peek(s: string): char { if s == "" then '\0' else s[0] }

  predicate IsSpace(c: char) { c == ' ' || c == '\t' || c == '\r' || c == '\n' }

  function SkipSpace(s: string): (r: string)
    ensures |r| <= |s| && (r != "" ==> !IsSpace(r[0]))
  {
    if s != "" && IsSpace(s[0]) then SkipSpace(s[1..]) else s
  }

  // ---------------------------------------------------------------- numbers

  /** The states of the number scanner. */
  const MINUS := 0
  const AFTER_MINUS := 1
  const ZERO_FIRST := 2
  const DIGITS := 3
  const DIGITS_AFTER_POINTS := 4
  const EXPONENT := 5
  const DIGITS_AFTER_E := 6
  const INVALID := 7

  /** The state after a character, as the scanner's seven-entry tables give it. */
  function NextState(state: nat, c: char): (next: nat)
    requires state < INVALID
    ensures next <= INVALID
  {
    if c == '0' then
      [ZERO_FIRST, ZERO_FIRST, INVALID, DIGITS, DIGITS_AFTER_POINTS, DIGITS_AFTER_E, DIGITS_AFTER_E][state]
    else if '1' <= c <= '9' then
      [DIGITS, DIGITS, INVALID, DIGITS, DIGITS_AFTER_POINTS, DIGITS_AFTER_E, DIGITS_AFTER_E][state]
    else if c == '.' then
      [INVALID, INVALID, DIGITS_AFTER_POINTS, DIGITS_AFTER_POINTS, INVALID, INVALID, INVALID][state]
    else if c == '-' then
      [AFTER_MINUS, INVALID, INVALID, INVALID, INVALID, DIGITS_AFTER_E, INVALID][state]
    else if c == '+' then
      [INVALID, INVALID, INVALID, INVALID, INVALID, DIGITS_AFTER_E, INVALID][state]
    else
      [INVALID, INVALID, INVALID, EXPONENT, EXPONENT, INVALID, INVALID][state]
  }

  predicate IsNumberChar(c: char) { IsDigit(c) || c == '.' || c == '-' || c == '+' || c == 'e' || c == 'E' }

  /** The end of the run of digits that starts at `k`. */
  function DigitsEnd(s: string, k: nat): (e: nat)
    requires k <= |s|
    ensures k <= e <= |s|
    decreases |s| - k
  {
    if k < |s| && IsDigit(s[k]) then DigitsEnd(s, k + 1) else k
  }

  /** Where one turn of the scanner's loop gets to: a digit 1-9 takes the digits after it too. */
  function Stride(s: string, k: nat): (e: nat)
    requires k < |s|
    ensures k < e <= |s|
  {
    if '1' <= s[k] <= '9' then DigitsEnd(s, k + 1) else k + 1
  }

  const FINAL_STATES := {ZERO_FIRST, DIGITS, DIGITS_AFTER_POINTS, DIGITS_AFTER_E}

  /** The end of the number text, scanned from `k` in a state. */
  function NumberEnd(s: string, k: nat, state: nat): (r: Option<nat>)
    requires k <= |s| && state <= INVALID
    ensures r.Some? ==> k <= r.value <= |s|
    decreases |s| - k
  {
    if state == INVALID then None
    else if k == |s| || !IsNumberChar(s[k]) then (if state in FINAL_STATES then Some(k) else None)
    else NumberEnd(s, Stride(s, k), NextState(state, s[k]))
  }

  function ParseNumber(s: string): (r: Option<(Json, string)>)
    ensures r.Some? ==> |r.value.1| < |s|
  {
    var e := NumberEnd(s, 0, MINUS);
    assert e.Some? ==> e.value > 0;
    if e.Some? then Some((Number(s[..e.value]), s[e.value..])) else None
  }

  // ---------------------------------------------------------------- values

  function ParseLiteral(s: string, word: string, v: Json): (r: Option<(Json, string)>)
    requires word != ""
    ensures r.Some? ==> |r.value.1| < |s|
  {
    if word <= s then Some((v, s[|word|..])) else None
  }

  /** A string token: its decoded value and the text after its closing quote. */
  function ParseString(s: string): (r: Option<(string, string)>)
    ensures r.Some? ==> |r.value.1| < |s|
  {
    if Peek(s) != '"' then None
    else
      var b := ScanBody(s[1..]);
      if b.None? then None
      else BodyIsWellEscaped(s[1..], 0); Some((Unescaped(b.value.0, 0), b.value.1))
  }

  function ParseValue(s: string, depth: nat): (r: Option<(Json, string)>)
    ensures r.Some? ==> |r.value.1| < |s|
    decreases |s|, 2
  {
    if Peek(s) == '[' then ParseList(s, depth + 1)
    else if Peek(s) == '{' then ParseObject(s, depth + 1)
    else ParseScalar(s)
  }

  function ParseScalar(s: string): (r: Option<(Json, string)>)
    ensures r.Some? ==> |r.value.1| < |s|
  {
    match Peek(s)
    case '"' => var t := ParseString(s); if t.Some? then Some((Str(t.value.0), t.value.1)) else None
    case 't' => ParseLiteral(s, "true", Bool(true))
    case 'f' => ParseLiteral(s, "false", Bool(false))
    case 'n' => ParseLiteral(s, "null", Null)
    case _ => ParseNumber(s)
  }

  function AsList(p: Option<(seq<Json>, string)>): Option<(Json, string)> {
    if p.Some? then Some((List(p.value.0), p.value.1)) else None
  }

  function AsObject(p: Option<(seq<(string, Json)>, string)>): Option<(Json, string)> {
    if p.Some? then Some((Object(p.value.0), p.value.1)) else None
  }

  function ParseList(s: string, depth: nat): (r: Option<(Json, string)>)
    requires Peek(s) == '['
    ensures r.Some? ==> |r.value.1| < |s|
    decreases |s|, 1
  {
    var s1 := SkipSpace(s[1..]);
    if depth > MAX_DEPTH then None
    else if Peek(s1) == ']' then Some((List([]), s1[1..]))
    else
      AsList(ParseItems(s1, depth))
  }

  /** One turn of the list loop: an item, whether a comma follows, and the text of the next turn. */
  function ParseItem(s: string, depth: nat): (r: Option<(Json, bool, string)>)
    ensures r.Some? ==> |r.value.2| < |s|
    decreases |s|, 3
  {
    var v := ParseValue(s, depth + 1);
    if v.None? then None else AfterElement(v.value, ']')
  }

  /** The punctuation after an element of a container. */
  function AfterElement<T>(v: (T, string), close: char): (r: Option<(T, bool, string)>)
    ensures r.Some? ==> |r.value.2| <= |v.1|
  {
    var s := SkipSpace(v.1);
    if s == "" then None
    else if s[0] == close then Some((v.0, false, s[1..]))
    else if s[0] == ',' then Some((v.0, true, SkipSpace(s[1..])))
    else None
  }

  /** The items from the current one on, and the text after the closing bracket. */
  function ParseItems(s: string, depth: nat): (r: Option<(seq<Json>, string)>)
    ensures r.Some? ==> |r.value.1| < |s|
    decreases |s|, 4
  {
    var i := ParseItem(s, depth);
    if i.None? then None
    else if i.value.1 then Prepend([i.value.0], ParseItems(i.value.2, depth))
    else Some(([i.value.0], i.value.2))
  }

  function Prepend<T>(vs: seq<T>, r: Option<(seq<T>, string)>): (r': Option<(seq<T>, string)>)
    ensures r'.Some? ==> r.Some? && r'.value.1 == r.value.1
  {
    if r.Some? then Some((vs + r.value.0, r.value.1)) else None
  }

  function ParseObject(s: string, depth: nat): (r: Option<(Json, string)>)
    requires Peek(s) == '{'
    ensures r.Some? ==> |r.value.1| < |s|
    decreases |s|, 1
  {
    var s1 := SkipSpace(s[1..]);
    if depth > MAX_DEPTH then None
    else if Peek(s1) == '}' then Some((Object([]), s1[1..]))
    else
      AsObject(ParseFields(s1, depth))
  }

  /** One `"key": value` pair. */
  function ParsePair(s: string, depth: nat): (r: Option<((string, Json), string)>)
    ensures r.Some? ==> |r.value.1| < |s|
    decreases |s|, 3
  {
    var k := ParseString(s);
    if k.None? then None
    else
      var s1 := SkipSpace(k.value.1);
      if Peek(s1) != ':' then None
      else
        var v := ParseValue(SkipSpace(s1[1..]), depth + 1);
        if v.Some? then Some(((k.value.0, v.value.0), v.value.1)) else None
  }

  /** One turn of the object loop. */
  function ParseField(s: string, depth: nat): (r: Option<((string, Json), bool, string)>)
    ensures r.Some? ==> |r.value.2| < |s|
    decreases |s|, 4
  {
    var f := ParsePair(s, depth);
    if f.None? then None else AfterElement(f.value, '}')
  }

  function ParseFields(s: string, depth: nat): (r: Option<(seq<(string, Json)>, string)>)
    ensures r.Some? ==> |r.value.1| < |s|
    decreases |s|, 5
  {
    var f := ParseField(s, depth);
    if f.None? then None
    else if f.value.1 then Prepend([f.value.0], ParseFields(f.value.2, depth))
    else Some(([f.value.0], f.value.2))
  }

  /** A whole document: a NUL, or the end of the text, must follow the value. */
  function ParseDocument(s: string): Option<Json> {
    var v := ParseValue(SkipSpace(s), 0);
    if v.Some? && Peek(SkipSpace(v.value.1)) == '\0' then Some(v.value.0) else None
  }
}
