/** The parser that works inside its own buffer, proved against the functions of JsonGrammar. */
module JsonParser {
  import opened Prelude
  import opened JsonStrings
  import opened JsonGrammar

  /** A parsed value as the parser stores it: positions in the buffer instead of copies of the text. */
  datatype RValue =
    | RNull
    | RBool(b: bool)
    | RNumber(start: nat, end: nat)
    | RString(start: nat, end: nat)
    | RList(items: seq<RValue>)
    | RObject(fields: seq<RField>)

  datatype RField = RField(keyStart: nat, keyEnd: nat, value: RValue)

  /** A NUL ends the buffer, and the cursor is on it or before it. */
  predicate Ready(b: string, d: nat) { d < |b| && b[|b| - 1] == '\0' }

  /** The text from the cursor to the final NUL. */
  function Rest(b: string, d: nat): string
    requires Ready(b, d)
  {
    b[d..|b| - 1]
  }

  /** The string that `s()` reads: decoded if the flag before the body is set. */
  function StringAt(b: string, start: nat, end: nat): string
    requires 0 < start <= end <= |b| && (b[start - 1] != '\0' ==> WellEscaped(b[start..end], 0))
  {
    if b[start - 1] != '\0' then Unescaped(b[start..end], 0) else b[start..end]
  }

  /** In buffer `b`, the stored value `r` stands for the tree `v` and lies within `b[lo..hi]`. */
  predicate Denotes(b: string, r: RValue, v: Json, lo: nat, hi: nat)
    decreases r
  {
    match r
    case RNull => v == Null
    case RBool(x) => v == Bool(x)
    case RNumber(i, j) => lo <= i <= j <= hi <= |b| && v == Number(b[i..j])
    case RString(i, j) =>
      && lo < i <= j < hi <= |b| && (b[i - 1] != '\0' ==> WellEscaped(b[i..j], 0))
      && v == Str(StringAt(b, i, j))
    case RList(items) =>
      && v.List? && |items| == |v.items|
      && forall k :: 0 <= k < |items| ==> Denotes(b, items[k], v.items[k], lo, hi)
    case RObject(fields) =>
      && v.Object? && |fields| == |v.fields|
      && forall k :: 0 <= k < |fields| ==> FieldDenotes(b, fields[k], v.fields[k], lo, hi)
  }

  predicate FieldDenotes(b: string, f: RField, kv: (string, Json), lo: nat, hi: nat)
    decreases f
  {
    && lo <= f.keyStart <= f.keyEnd <= hi <= |b| && kv.0 == b[f.keyStart..f.keyEnd]
    && Denotes(b, f.value, kv.1, lo, hi)
  }

  /** Only `b[lo..hi]` matters to what a value denotes, and the bounds can be widened. */
  lemma {:induction false} DenotesElsewhere(b: string, b': string, r: RValue, v: Json, lo: nat, hi: nat, lo': nat,
      hi': nat)
    requires Denotes(b, r, v, lo, hi)
    requires lo' <= lo <= hi <= hi' <= |b| == |b'| && b'[lo..hi] == b[lo..hi]
    ensures Denotes(b', r, v, lo', hi')
    decreases r
  {
    match r
    case RNumber(i, j) => Subslice(b, b', lo, hi, i, j);
    case RString(i, j) => Subslice(b, b', lo, hi, i, j); SameAt(b, b', lo, hi, i - 1);
    case RList(items) =>
      forall k | 0 <= k < |items| ensures Denotes(b', items[k], v.items[k], lo', hi') {
        DenotesElsewhere(b, b', items[k], v.items[k], lo, hi, lo', hi');
      }
    case RObject(fields) =>
      forall k | 0 <= k < |fields| ensures FieldDenotes(b', fields[k], v.fields[k], lo', hi') {
        FieldDenotesElsewhere(b, b', fields[k], v.fields[k], lo, hi, lo', hi');
      }
    case _ =>
  }

  lemma {:induction false} SameAt(b: string, b': string, lo: nat, hi: nat, i: nat)
    requires lo <= i < hi <= |b| == |b'| && b'[lo..hi] == b[lo..hi]
    ensures b'[i] == b[i]
  {
    assert b'[i] == b'[lo..hi][i - lo] && b[i] == b[lo..hi][i - lo];
  }

  lemma {:induction false} FieldDenotesElsewhere(b: string, b': string, f: RField, kv: (string, Json), lo: nat, hi: nat,
      lo': nat, hi': nat)
    requires FieldDenotes(b, f, kv, lo, hi)
    requires lo' <= lo <= hi <= hi' <= |b| == |b'| && b'[lo..hi] == b[lo..hi]
    ensures FieldDenotes(b', f, kv, lo', hi')
    decreases f
  {
    Subslice(b, b', lo, hi, f.keyStart, f.keyEnd);
    DenotesElsewhere(b, b', f.value, kv.1, lo, hi, lo', hi');
  }

  lemma {:induction false} Subslice(b: string, b': string, lo: nat, hi: nat, i: nat, j: nat)
    requires lo <= i <= j <= hi <= |b| == |b'| && b'[lo..hi] == b[lo..hi]
    ensures b'[i..j] == b[i..j]
  {
    forall k | 0 <= k < j - i ensures b'[i..j][k] == b[i..j][k] {
      assert b'[i..j][k] == b'[lo..hi][i + k - lo] && b[i..j][k] == b[lo..hi][i + k - lo];
    }
  }

  /** From `d0` to `d` the parser may have written; before `d0` and from `d` on the buffer is as it was. */
  predicate Moved(b0: string, d0: nat, b: string, d: nat) {
    && Ready(b0, d0) && Ready(b, d) && d0 <= d && |b| == |b0|
    && b[..d0] == b0[..d0] && b[d..] == b0[d..]
  }

  lemma {:induction false} MovedOn(b0: string, d0: nat, b1: string, d1: nat, b2: string, d2: nat)
    requires Moved(b0, d0, b1, d1) && Moved(b1, d1, b2, d2)
    ensures Moved(b0, d0, b2, d2) && b2[d0..d1] == b1[d0..d1]
  {
    assert b2[..d0] == b2[..d1][..d0] && b1[..d0] == b1[..d1][..d0];
    assert b1[d2..] == b1[d1..][d2 - d1..] && b0[d2..] == b0[d1..][d2 - d1..];
    assert b2[d0..d1] == b2[..d1][d0..] && b1[d0..d1] == b1[..d1][d0..];
  }

  /** The outcome of a parsing method agrees with the grammar's `p`, which starts at `b0[d0..]`. */
  predicate Parsed(b0: string, d0: nat, b: string, d: nat, r: Option<RValue>, p: Option<(Json, string)>) {
    match p
    case None => r == None
    case Some((v, rest)) =>
      && r.Some? && Moved(b0, d0, b, d) && d0 < d && Rest(b, d) == rest && Denotes(b, r.value, v, d0, d)
  }

  class Parser {
    const buf: array<char>
    var data: nat

    ghost predicate Valid()
      reads this, buf
    {
      Ready(buf[..], data)
    }

    /** `load`: copies the text into a buffer of its own and ends it with a NUL. */
    constructor (text: string)
      ensures Valid() && data == 0 && fresh(buf) && buf[..] == text + ['\0']
    {
      buf := new char[|text| + 1](i requires 0 <= i <= |text| => if i < |text| then text[i] else '\0');
      data := 0;
    }

    method Consume(c: char) returns (ok: bool)
      requires Valid() && c != '\0'
      modifies this
      ensures Valid() && ok == (Peek(Rest(buf[..], old(data))) == c)
      ensures data == if ok then old(data) + 1 else old(data)
      ensures ok ==> Rest(buf[..], data) == Rest(buf[..], old(data))[1..]
    {
      ok := buf[data] == c;
      if ok {
        data := data + 1;
      }
    }

    /** `ws_skip` */
    method SkipBlank()
      requires Valid()
      modifies this
      ensures Valid() && old(data) <= data && Rest(buf[..], data) == SkipSpace(Rest(buf[..], old(data)))
    {
      while IsSpace(buf[data])
        invariant Valid() && old(data) <= data
        invariant SkipSpace(Rest(buf[..], data)) == SkipSpace(Rest(buf[..], old(data)))
        decreases buf.Length - data
      {
        assert Rest(buf[..], data)[1..] == Rest(buf[..], data + 1);
        data := data + 1;
      }
    }

    /** The buffer holds `text` from `start` up to its final NUL. */
    ghost predicate Holds(start: nat, text: string)
      reads buf
    {
      && start + |text| + 1 == buf.Length && buf[start + |text|] == '\0'
      && forall i :: 0 <= i < |text| ==> buf[start + i] == text[i]
    }

    /** How far the escape sequence at the cursor reaches, 0 if it is malformed. */
    method EscapeAt(ghost text: string, ghost k: nat) returns (n: nat)
      requires k < |text| && k <= data && Holds(data - k, text) && text[k] == '\\'
      ensures n == EscapeLength(text, k)
    {
      var d := data + 1;
      if buf[d] == 'u' {
        if IsHex(buf[d + 1]) && IsHex(buf[d + 2]) && IsHex(buf[d + 3]) && IsHex(buf[d + 4]) {
          n := 6;
        } else {
          n := 0;
        }
      } else if buf[d] in "\"\\/bfnrt" {
        n := 2;
      } else {
        n := 0;
      }
    }

    method StepAt(ghost text: string, ghost k: nat) returns (n: nat)
      requires k <= |text| && k <= data && Holds(data - k, text)
      ensures n == ScanStep(text, k)
    {
      if buf[data] == '"' || buf[data] == '\0' {
        n := 0;
      } else if buf[data] == '\\' {
        n := EscapeAt(text, k);
      } else {
        n := 1;
      }
    }

    /** The scanning loop of `decode_string`: the cursor ends where the body ends. */
    method ScanString(ghost text: string) returns (escaping: bool)
      requires Holds(data, text)
      modifies this
      ensures Holds(old(data), text) && data == old(data) + BodyEnd(text, 0)
      ensures escaping == BackslashBefore(text, BodyEnd(text, 0))
    {
      escaping := false;
      ghost var start, k := data, 0;
      var n := StepAt(text, k);
      while n != 0
        invariant k <= |text| && data == start + k && Holds(start, text)
        invariant n == ScanStep(text, k) && BodyEnd(text, 0) == BodyEnd(text, k)
        invariant escaping == BackslashBefore(text, k)
        decreases |text| - k
      {
        UnitBackslash(text, k, n);
        escaping := escaping || buf[data] == '\\';
        data, k := data + n, k + n;
        n := StepAt(text, k);
      }
    }

    /** Marks a scanned string: the escape flag replaces the opening quote, a NUL the closing one. */
    method MarkString(open: nat, close: nat, flag: char)
      requires open < close < buf.Length
      modifies buf
      ensures buf[..] == old(buf[..])[close := '\0'][open := flag]
    {
      buf[close] := '\0';
      buf[open] := flag;
    }

    /** `decode_string`: the span of the body. */
    method DecodeString() returns (r: Option<(nat, nat)>)
      requires Valid()
      modifies this, buf
      ensures StringParsed(old(buf[..]), old(data), buf[..], data, r)
    {
      hide BodyEnd, BackslashBefore, ScanBody, StringParsed;
      ghost var b0, d0 := buf[..], data;
      var ok := Consume('"');
      if !ok {
        NoString(b0, d0, buf[..], data);
        return None;
      }
      var start := data;
      var escaping := ScanString(Rest(b0, start));
      QuoteAt(b0, d0);
      if buf[data] != '"' {
        NoString(b0, d0, buf[..], data);
        return None;
      }
      var flag := if escaping then 1 as char else '\0';
      StringWritten(b0, d0, data - start, flag);
      assert buf[..] == b0;
      MarkString(start - 1, data, flag);
      data := data + 1;
      r := Some((start, data - 1));
    }

    /** `decode_number`: the span of the number text. */
    method DecodeNumber(ghost text: string) returns (r: Option<(nat, nat)>)
      requires Holds(data, text)
      modifies this
      ensures match NumberEnd(text, 0, MINUS)
              case None => r == None
              case Some(e) => r == Some((old(data), data)) && data == old(data) + e
    {
      ghost var k := 0;
      var start: nat, state: nat := data, MINUS;
      while state != INVALID
        invariant data == start + k && k <= |text| && state <= INVALID
        invariant NumberEnd(text, 0, MINUS) == NumberEnd(text, k, state)
        decreases |text| - k
      {
        var c := buf[data];
        if !IsNumberChar(c) {
          return if state in FINAL_STATES then Some((start, data)) else None;
        }
        state := NextState(state, c);
        data := data + 1;
        if '1' <= c <= '9' {
          SkipDigits(text, k + 1);
        }
        k := data - start;
      }
      r := None;
    }

    method SkipDigits(ghost text: string, ghost k: nat)
      requires k <= |text| && k <= data && Holds(data - k, text)
      modifies this
      ensures data == old(data) - k + DigitsEnd(text, k)
    {
      ghost var j := k;
      while IsDigit(buf[data])
        invariant k <= j <= |text| && data == old(data) + (j - k)
        invariant DigitsEnd(text, k) == DigitsEnd(text, j)
        decreases |text| - j
      {
        data, j := data + 1, j + 1;
      }
    }

    /** A fixed word, compared one character after the other. */
    method DecodeWord(word: string, v: RValue) returns (r: Option<RValue>)
      requires Valid() && forall c :: c in word ==> c != '\0'
      modifies this
      ensures if word <= Rest(buf[..], old(data)) then r == Some(v) && data == old(data) + |word| else r == None
    {
      ghost var text := Rest(buf[..], data);
      var i := 0;
      while i < |word| && buf[data + i] == word[i]
        invariant i <= |word| && i <= |text| && word[..i] == text[..i]
      {
        assert word[i] in word;
        i := i + 1;
      }
      if i < |word| {
        return None;
      }
      assert word == text[..|word|];
      data := data + |word|;
      r := Some(v);
    }

    /** `decode_value` */
    method DecodeValue(depth: nat) returns (r: Option<RValue>)
      requires Valid()
      modifies this, buf
      ensures Parsed(old(buf[..]), old(data), buf[..], data, r, ParseValue(old(Rest(buf[..], data)), depth))
      decreases buf.Length - data, 3
    {
      hide Parsed, ParseList, ParseObject, ParseScalar;
      if buf[data] == '[' {
        r := DecodeList(depth + 1);
      } else if buf[data] == '{' {
        r := DecodeObject(depth + 1);
      } else {
        r := DecodeScalar();
      }
    }

    /** The cases of `decode_value` that do not recurse. */
    method DecodeScalar() returns (r: Option<RValue>)
      requires Valid()
      modifies this, buf
      ensures Parsed(old(buf[..]), old(data), buf[..], data, r, ParseScalar(old(Rest(buf[..], data))))
    {
      hide Parsed, StringParsed, ParseString, ParseNumber, ParseLiteral, NumberEnd;
      ghost var b0, d0 := buf[..], data;
      match buf[data] {
        case '"' =>
          var span := DecodeString();
          r := if span.Some? then Some(RString(span.value.0, span.value.1)) else None;
          StringIsValue(b0, d0, buf[..], data, span);
        case 't' => r := DecodeWord("true", RBool(true)); WordIsValue(b0, d0, buf[..], data, "true", RBool(true),
          Bool(true), r);
        case 'f' => r := DecodeWord("false", RBool(false)); WordIsValue(b0, d0, buf[..], data, "false", RBool(false),
          Bool(false), r);
        case 'n' => r := DecodeWord("null", RNull); WordIsValue(b0, d0, buf[..], data, "null", RNull, Null, r);
        case _ =>
          var span := DecodeNumber(Rest(b0, d0));
          r := if span.Some? then Some(RNumber(span.value.0, span.value.1)) else None;
          NumberIsValue(b0, d0, buf[..], data, span);
      }
    }

    /** `decode_list` */
    method DecodeList(depth: nat) returns (r: Option<RValue>)
      requires Valid() && buf[data] == '['
      modifies this, buf
      ensures Parsed(old(buf[..]), old(data), buf[..], data, r, ParseList(old(Rest(buf[..], data)), depth))
      decreases buf.Length - data, 2
    {
      hide Denotes, SkipSpace, ParseItems, ParseFields;
      ghost var b0, d0 := buf[..], data;
      var ok := Consume('[');
      if depth > MAX_DEPTH {
        return None;
      }
      SkipBlank();
      if buf[data] == ']' {
        data := data + 1;
        EmptyDenotes(b0, d0, data);
        assert buf[..] == b0 && Rest(b0, data) == Rest(b0, data - 1)[1..];
        return Some(RList([]));
      }
      ghost var d1 := data;
      var items := DecodeItems(depth);
      r := if items.Some? then Some(RList(items.value)) else None;
      FromEarlier(b0, d0, d1, buf[..], data, r, AsList(ParseItems(Rest(b0, d1), depth)));
    }

    /** `decode_object` */
    method DecodeObject(depth: nat) returns (r: Option<RValue>)
      requires Valid() && buf[data] == '{'
      modifies this, buf
      ensures Parsed(old(buf[..]), old(data), buf[..], data, r, ParseObject(old(Rest(buf[..], data)), depth))
      decreases buf.Length - data, 2
    {
      hide Denotes, SkipSpace, ParseItems, ParseFields;
      ghost var b0, d0 := buf[..], data;
      var ok := Consume('{');
      if depth > MAX_DEPTH {
        return None;
      }
      SkipBlank();
      if buf[data] == '}' {
        data := data + 1;
        EmptyDenotes(b0, d0, data);
        assert buf[..] == b0 && Rest(b0, data) == Rest(b0, data - 1)[1..];
        return Some(RObject([]));
      }
      ghost var d1 := data;
      var fields := DecodeFields(depth);
      r := if fields.Some? then Some(RObject(fields.value)) else None;
      FromEarlier(b0, d0, d1, buf[..], data, r, AsObject(ParseFields(Rest(b0, d1), depth)));
    }

    /** What follows an element: whether a comma leads to another one. */
    method Separator(close: char) returns (more: Option<bool>)
      requires Valid() && close != '\0'
      modifies this
      ensures Valid() && old(data) <= data
      ensures match AfterElement(((), Rest(buf[..], old(data))), close)
              case None => more == None
              case Some((_, m, rest)) => more == Some(m) && Rest(buf[..], data) == rest
    {
      SkipBlank();
      if buf[data] == close {
        assert Rest(buf[..], data)[1..] == Rest(buf[..], data + 1);
        data := data + 1;
        return Some(false);
      }
      var ok := Consume(',');
      if !ok {
        return None;
      }
      SkipBlank();
      more := Some(true);
    }

    /** One turn of the list loop. */
    method DecodeItem(depth: nat) returns (r: Option<RValue>, more: bool)
      requires Valid()
      modifies this, buf
      ensures TurnParsed(old(buf[..]), old(data), buf[..], data, r, more, ParseItem(old(Rest(buf[..], data)), depth))
      decreases buf.Length - data, 4
    {
      hide ParseValue, SkipSpace, Denotes;
      ghost var b0, d0 := buf[..], data;
      more := false;
      r := DecodeValue(depth + 1);
      if r.None? {
        return;
      }
      ghost var b1, d1 := buf[..], data;
      var sep := Separator(']');
      if sep.None? {
        return None, false;
      }
      more := sep.value;
      assert buf[..] == b1;
      ToLater(b0, d0, b1, d1, data, r.value, ParseValue(Rest(b0, d0), depth + 1).value);
    }

    /** The loop of `decode_list`. */
    method DecodeItems(depth: nat) returns (r: Option<seq<RValue>>)
      requires Valid()
      modifies this, buf
      ensures Parsed(old(buf[..]), old(data), buf[..], data, if r.Some? then Some(RList(r.value)) else None,
                     AsList(ParseItems(old(Rest(buf[..], data)), depth)))
      decreases buf.Length - data, 5
    {
      hide ParseItem, Denotes;
      ghost var b0, d0 := buf[..], data;
      ghost var vs: seq<Json> := [];
      var items: seq<RValue> := [];
      NothingCollected(b0, d0);
      PrependNothing(ParseItems(Rest(b0, d0), depth));
      while true
        invariant Ready(buf[..], data) && Collected(b0, d0, buf[..], data, items, vs)
        invariant ParseItems(Rest(b0, d0), depth) == Prepend(vs, ParseItems(Rest(buf[..], data), depth))
        decreases buf.Length - data
      {
        ghost var b1, d1 := buf[..], data;
        var item, more := DecodeItem(depth);
        if item.None? {
          return None;
        }
        ghost var (v, _, rest) := ParseItem(Rest(b1, d1), depth).value;
        ItemCollected(b0, d0, b1, d1, buf[..], data, items, vs, item.value, v);
        PrependTwice(vs, v, ParseItems(rest, depth));
        items, vs := items + [item.value], vs + [v];
        if !more {
          return Some(items);
        }
      }
    }

    /** `s()`: decodes a string where it stands. */
    method ReadString(start: nat, end: nat) returns (end': nat)
      requires 0 < start <= end < buf.Length && (buf[start - 1] != '\0' ==> WellEscaped(buf[..][start..end], 0))
      modifies buf
      ensures start <= end' <= end && buf[..][start..end'] == StringAt(old(buf[..]), start, end)
      ensures forall i :: 0 <= i < buf.Length && !(start - 1 <= i <= end) ==> buf[..][i] == old(buf[..])[i]
    {
      assert buf[start..end] == buf[..][start..end];
      end' := Unescape(buf, start, end);
      assert buf[..][start..end'] == buf[start..end'];
    }

    /** The key of a pair and its colon. */
    method DecodeKey() returns (key: Option<(nat, nat)>)
      requires Valid()
      modifies this, buf
      ensures KeyParsed(old(buf[..]), old(data), buf[..], data, key)
    {
      hide StringParsed, ParseString, SkipSpace, WellEscaped, StringAt;
      ghost var b0, d0 := buf[..], data;
      var span := DecodeString();
      if span.None? {
        NoKey(b0, d0, buf[..], data);
        return None;
      }
      StringIsKey(b0, d0, buf[..], data, span.value);
      ghost var b1, d1 := buf[..], data;
      SkipBlank();
      var ok := Consume(':');
      if !ok {
        return None;
      }
      assert buf[..] == b1;
      var keyEnd := ReadString(span.value.0, span.value.1);
      key := Some((span.value.0, keyEnd));
      OnlyBodyWritten(b0, d0, b1, d1, buf[..], data, span.value.0, span.value.1);
      SkipBlank();
    }

    /** One pair. */
    method DecodePair(depth: nat) returns (r: Option<RField>)
      requires Valid()
      modifies this, buf
      ensures Parsed(old(buf[..]), old(data), buf[..], data, if r.Some? then Some(RObject([r.value])) else None,
                     AsOne(ParsePair(old(Rest(buf[..], data)), depth)))
      decreases buf.Length - data, 4
    {
      hide KeyParsed, ParseValue, ParseString, ParsePair, SkipSpace, Denotes;
      ghost var b0, d0 := buf[..], data;
      var key := DecodeKey();
      PairNeedsKey(b0, d0, buf[..], data, key, depth);
      if key.None? {
        return None;
      }
      ghost var b1, d1 := buf[..], data;
      var v := DecodeValue(depth + 1);
      r := if v.Some? then Some(RField(key.value.0, key.value.1, v.value)) else None;
      PairIsField(b0, d0, b1, d1, buf[..], data, key.value, v, depth);
    }

    /** One turn of the object loop. */
    method DecodeField(depth: nat) returns (r: Option<RField>, more: bool)
      requires Valid()
      modifies this, buf
      ensures FieldTurnParsed(old(buf[..]), old(data), buf[..], data, r, more,
          ParseField(old(Rest(buf[..], data)), depth))
      decreases buf.Length - data, 5
    {
      hide ParsePair, SkipSpace, Denotes;
      ghost var b0, d0 := buf[..], data;
      more := false;
      r := DecodePair(depth);
      if r.None? {
        return;
      }
      ghost var b1, d1 := buf[..], data;
      var sep := Separator('}');
      if sep.None? {
        return None, false;
      }
      more := sep.value;
      assert buf[..] == b1;
      ghost var (kv, rest) := ParsePair(Rest(b0, d0), depth).value;
      ToLater(b0, d0, b1, d1, data, RObject([r.value]), (Object([kv]), rest));
    }

    /** The loop of `decode_object`. */
    method DecodeFields(depth: nat) returns (r: Option<seq<RField>>)
      requires Valid()
      modifies this, buf
      ensures Parsed(old(buf[..]), old(data), buf[..], data, if r.Some? then Some(RObject(r.value)) else None,
                     AsObject(ParseFields(old(Rest(buf[..], data)), depth)))
      decreases buf.Length - data, 6
    {
      hide ParseField, Denotes;
      ghost var b0, d0 := buf[..], data;
      ghost var kvs: seq<(string, Json)> := [];
      var fields: seq<RField> := [];
      NoFieldsCollected(b0, d0);
      PrependNothing(ParseFields(Rest(b0, d0), depth));
      while true
        invariant Ready(buf[..], data) && FieldsCollected(b0, d0, buf[..], data, fields, kvs)
        invariant ParseFields(Rest(b0, d0), depth) == Prepend(kvs, ParseFields(Rest(buf[..], data), depth))
        decreases buf.Length - data
      {
        ghost var b1, d1 := buf[..], data;
        var field, more := DecodeField(depth);
        if field.None? {
          return None;
        }
        ghost var (kv, _, rest) := ParseField(Rest(b1, d1), depth).value;
        FieldCollected(b0, d0, b1, d1, buf[..], data, fields, kvs, field.value, kv);
        PrependTwice(kvs, kv, ParseFields(rest, depth));
        fields, kvs := fields + [field.value], kvs + [kv];
        if !more {
          return Some(fields);
        }
      }
    }

    /** `parse`: the whole document. */
    method Parse() returns (r: Option<RValue>)
      requires Valid()
      modifies this, buf
      ensures match ParseDocument(old(Rest(buf[..], data)))
              case None => r == None
              case Some(v) => r.Some? && Denotes(buf[..], r.value, v, old(data), buf.Length)
    {
      hide ParseValue, SkipSpace;
      ghost var b0, d0 := buf[..], data;
      SkipBlank();
      ghost var d1 := data;
      r := DecodeValue(0);
      if r.None? {
        return;
      }
      ghost var b1, d2 := buf[..], data;
      SkipBlank();
      assert buf[..] == b1;
      if buf[data] != '\0' {
        return None;
      }
      DenotesElsewhere(b1, b1, r.value, ParseDocument(Rest(b0, d0)).value, d1, d2, d0, buf.Length);
    }
  }

  /** `load`: copies the text, parses the copy in place, and returns the value with the buffer it points into. */
  method Load(text: string) returns (r: Option<RValue>, buf: array<char>)
    ensures match ParseDocument(text)
            case None => r == None
            case Some(v) => r.Some? && Denotes(buf[..], r.value, v, 0, buf.Length)
  {
    var parser := new Parser(text);
    buf := parser.buf;
    assert Rest(buf[..], 0) == text;
    r := parser.Parse();
  }

  function AsOne(p: Option<((string, Json), string)>): Option<(Json, string)> {
    if p.Some? then Some((Object([p.value.0]), p.value.1)) else None
  }

  /** A key token and its colon have been read, up to the value: `key` is the span of the decoded key. */
  predicate KeyParsed(b0: string, d0: nat, b: string, d: nat, key: Option<(nat, nat)>)
    requires Ready(b0, d0)
  {
    var k := ParseString(Rest(b0, d0));
    if k.None? || Peek(SkipSpace(k.value.1)) != ':' then key == None
    else
      && key.Some? && Moved(b0, d0, b, d) && d0 < d
      && Rest(b, d) == SkipSpace(SkipSpace(k.value.1)[1..])
      && d0 <= key.value.0 <= key.value.1 <= d && b[key.value.0..key.value.1] == k.value.0
  }

  lemma {:induction false} NoKey(b0: string, d0: nat, b: string, d: nat)
    requires Ready(b0, d0) && StringParsed(b0, d0, b, d, None)
    ensures ParseString(Rest(b0, d0)) == None
  {
  }

  /** The span of a scanned string holds what the grammar's string token holds. */
  lemma {:induction false} StringIsKey(b0: string, d0: nat, b: string, d: nat, span: (nat, nat))
    requires Ready(b0, d0) && StringParsed(b0, d0, b, d, Some(span))
    ensures Moved(b0, d0, b, d) && d0 + 1 == span.0 <= span.1 < d
    ensures b[span.0 - 1] != '\0' ==> WellEscaped(b[span.0..span.1], 0)
    ensures ParseString(Rest(b0, d0)) == Some((StringAt(b, span.0, span.1), Rest(b, d)))
  {
    hide WellEscaped, Unescaped, BodyEnd;
    var s := Rest(b0, d0);
    var body := ScanBody(s[1..]).value.0;
    assert WellEscaped(body, 0) by { BodyIsWellEscaped(s[1..], 0); }
    if '\\' !in body {
      PlainBody(body, 0);
      assert body[0..] == body;
    }
  }

  lemma {:induction false} OnlyBodyWritten(b0: string, d0: nat, b1: string, d1: nat, b: string, d: nat, start: nat,
      end: nat)
    requires Moved(b0, d0, b1, d1) && d0 < start <= end < d1 <= d < |b1| == |b|
    requires forall i :: 0 <= i < |b| && !(start - 1 <= i <= end) ==> b[i] == b1[i]
    ensures Moved(b0, d0, b, d) && Rest(b, d) == Rest(b1, d)
  {
    assert b1[d..] == b1[d1..][d - d1..] && b0[d..] == b0[d1..][d - d1..];
  }

  lemma {:induction false} PairNeedsKey(b0: string, d0: nat, b: string, d: nat, key: Option<(nat, nat)>, depth: nat)
    requires Ready(b0, d0) && KeyParsed(b0, d0, b, d, key)
    ensures key.None? ==> ParsePair(Rest(b0, d0), depth) == None
    ensures key.Some? ==> Ready(b, d) && d0 < d
  {
  }

  lemma {:induction false} PairIsField(b0: string, d0: nat, b1: string, d1: nat, b: string, d: nat, key: (nat, nat),
      v: Option<RValue>, depth: nat)
    requires Ready(b0, d0) && Ready(b1, d1) && KeyParsed(b0, d0, b1, d1, Some(key))
    requires Parsed(b1, d1, b, d, v, ParseValue(Rest(b1, d1), depth + 1))
    ensures Parsed(b0, d0, b, d, if v.Some? then Some(RObject([RField(key.0, key.1, v.value)])) else None,
                   AsOne(ParsePair(Rest(b0, d0), depth)))
  {
    if v.Some? {
      var j := ParseValue(Rest(b1, d1), depth + 1).value.0;
      MovedOn(b0, d0, b1, d1, b, d);
      DenotesElsewhere(b, b, v.value, j, d1, d, d0, d);
      Subslice(b1, b, d0, d1, key.0, key.1);
      assert FieldDenotes(b, RField(key.0, key.1, v.value), (ParseString(Rest(b0, d0)).value.0, j), d0, d);
    }
  }

  predicate FieldTurnParsed(b0: string, d0: nat, b: string, d: nat, r: Option<RField>, more: bool,
      p: Option<((string, Json), bool, string)>) {
    && Parsed(b0, d0, b, d, if r.Some? then Some(RObject([r.value])) else None,
              if p.Some? then Some((Object([p.value.0]), p.value.2)) else None)
    && (p.Some? ==> more == p.value.1)
  }

  predicate FieldsCollected(b0: string, d0: nat, b: string, d: nat, fields: seq<RField>, kvs: seq<(string, Json)>) {
    Moved(b0, d0, b, d) && Denotes(b, RObject(fields), Object(kvs), d0, d)
  }

  lemma {:induction false} NoFieldsCollected(b0: string, d0: nat)
    requires Ready(b0, d0)
    ensures FieldsCollected(b0, d0, b0, d0, [], [])
  {
  }

  lemma {:induction false} FieldCollected(b0: string, d0: nat, b1: string, d1: nat, b: string, d: nat,
      fields: seq<RField>, kvs: seq<(string, Json)>,
                       f: RField, kv: (string, Json))
    requires FieldsCollected(b0, d0, b1, d1, fields, kvs)
    requires Moved(b1, d1, b, d) && Denotes(b, RObject([f]), Object([kv]), d1, d)
    ensures FieldsCollected(b0, d0, b, d, fields + [f], kvs + [kv])
  {
    MovedOn(b0, d0, b1, d1, b, d);
    DenotesElsewhere(b1, b, RObject(fields), Object(kvs), d0, d1, d0, d);
    assert FieldDenotes(b, [f][0], [kv][0], d1, d);
    FieldDenotesElsewhere(b, b, f, kv, d1, d, d0, d);
  }

  /** The outcome of one turn of a container loop. */
  predicate TurnParsed(b0: string, d0: nat, b: string, d: nat, r: Option<RValue>, more: bool,
      p: Option<(Json, bool, string)>) {
    && Parsed(b0, d0, b, d, r, if p.Some? then Some((p.value.0, p.value.2)) else None)
    && (p.Some? ==> more == p.value.1)
  }

  /** The items parsed so far, from `d0` to the cursor. */
  predicate Collected(b0: string, d0: nat, b: string, d: nat, items: seq<RValue>, vs: seq<Json>) {
    Moved(b0, d0, b, d) && Denotes(b, RList(items), List(vs), d0, d)
  }

  lemma {:induction false} EmptyDenotes(b: string, lo: nat, hi: nat)
    ensures Denotes(b, RList([]), List([]), lo, hi) && Denotes(b, RObject([]), Object([]), lo, hi)
  {
  }

  lemma {:induction false} NothingCollected(b0: string, d0: nat)
    requires Ready(b0, d0)
    ensures Collected(b0, d0, b0, d0, [], [])
  {
  }

  lemma {:induction false} ItemCollected(b0: string, d0: nat, b1: string, d1: nat, b: string, d: nat,
      items: seq<RValue>, vs: seq<Json>, r: RValue, v: Json)
    requires Collected(b0, d0, b1, d1, items, vs)
    requires Moved(b1, d1, b, d) && Denotes(b, r, v, d1, d)
    ensures Collected(b0, d0, b, d, items + [r], vs + [v])
  {
    MovedOn(b0, d0, b1, d1, b, d);
    DenotesElsewhere(b1, b, RList(items), List(vs), d0, d1, d0, d);
    DenotesElsewhere(b, b, r, v, d1, d, d0, d);
  }

  lemma {:induction false} PrependNothing<T>(r: Option<(seq<T>, string)>)
    ensures Prepend([], r) == r
  {
    if r.Some? {
      assert [] + r.value.0 == r.value.0;
    }
  }

  lemma {:induction false} PrependTwice<T>(vs: seq<T>, v: T, r: Option<(seq<T>, string)>)
    ensures Prepend(vs, Prepend([v], r)) == Prepend(vs + [v], r)
  {
    if r.Some? {
      Concat3(vs, [v], r.value.0);
    }
  }

  /** What was parsed from a later start was parsed from the earlier one, if only the cursor moved in between. */
  lemma {:induction false} FromEarlier(b0: string, d0: nat, d1: nat, b: string, d: nat, r: Option<RValue>,
      p: Option<(Json, string)>)
    requires Ready(b0, d0) && d0 <= d1 && Ready(b0, d1) && Parsed(b0, d1, b, d, r, p)
    ensures Parsed(b0, d0, b, d, r, p)
  {
    if p.Some? {
      MovedOn(b0, d0, b0, d1, b, d);
      DenotesElsewhere(b, b, r.value, p.value.0, d1, d, d0, d);
    }
  }

  /** Moving the cursor on keeps what was parsed. */
  lemma {:induction false} ToLater(b0: string, d0: nat, b: string, d1: nat, d: nat, r: RValue, p: (Json, string))
    requires Parsed(b0, d0, b, d1, Some(r), Some(p)) && d1 <= d && Ready(b, d)
    ensures Parsed(b0, d0, b, d, Some(r), Some((p.0, Rest(b, d))))
  {
    MovedOn(b0, d0, b, d1, b, d);
    DenotesElsewhere(b, b, r, p.0, d0, d1, d0, d);
  }

  lemma {:induction false} StringIsValue(b0: string, d0: nat, b: string, d: nat, span: Option<(nat, nat)>)
    requires Ready(b0, d0) && Peek(Rest(b0, d0)) == '"' && StringParsed(b0, d0, b, d, span)
    ensures Parsed(b0, d0, b, d, if span.Some? then Some(RString(span.value.0, span.value.1)) else None,
        ParseScalar(Rest(b0, d0)))
  {
    hide StringParsed, ParseString, WellEscaped, Unescaped;
    if span.Some? {
      StringIsKey(b0, d0, b, d, span.value);
    } else {
      NoKey(b0, d0, b, d);
    }
  }

  lemma {:induction false} WordIsValue(b0: string, d0: nat, b: string, d: nat, word: string, w: RValue, v: Json,
      r: Option<RValue>)
    requires Ready(b0, d0) && b == b0 && word != "" && (w.RNull? || w.RBool?) && Denotes(b0, w, v, 0, 0)
    requires if word <= Rest(b0, d0) then r == Some(w) && d == d0 + |word| else r == None
    ensures Parsed(b0, d0, b, d, r, ParseLiteral(Rest(b0, d0), word, v))
  {
  }

  lemma {:induction false} NumberIsValue(b0: string, d0: nat, b: string, d: nat, span: Option<(nat, nat)>)
    requires Ready(b0, d0) && b == b0
    requires match NumberEnd(Rest(b0, d0), 0, MINUS)
             case None => span == None
             case Some(e) => span == Some((d0, d)) && d == d0 + e
    ensures Parsed(b0, d0, b, d, if span.Some? then Some(RNumber(span.value.0, span.value.1)) else None,
        ParseNumber(Rest(b0, d0)))
  {
    if span.Some? {
      assert b[d0..d] == Rest(b0, d0)[..d - d0];
    }
  }

  predicate StringParsed(b0: string, d0: nat, b: string, d: nat, r: Option<(nat, nat)>)
    requires Ready(b0, d0)
  {
    var s := Rest(b0, d0);
    match if Peek(s) == '"' then ScanBody(s[1..]) else None
    case None => r == None
    case Some((body, rest)) =>
      && Moved(b0, d0, b, d) && d == d0 + |body| + 2 && Rest(b, d) == rest
      && r == Some((d0 + 1, d0 + 1 + |body|)) && b[d0 + 1..d0 + 1 + |body|] == body
      && (b[d0] != '\0') == ('\\' in body)
  }

  /** The scan of the string token at `d0` succeeds exactly when a quote follows the body. */
  lemma {:induction false} QuoteAt(b0: string, d0: nat)
    requires Ready(b0, d0) && Peek(Rest(b0, d0)) == '"'
    ensures var s := Rest(b0, d0 + 1); var k := BodyEnd(s, 0);
            && Rest(b0, d0)[1..] == s && d0 + 1 + k < |b0|
            && ScanBody(s) == if b0[d0 + 1 + k] == '"' then Some((s[..k], s[k + 1..])) else None
  {
    var s := Rest(b0, d0 + 1);
    assert Rest(b0, d0)[1..] == s;
  }

  lemma {:induction false} NoString(b0: string, d0: nat, b: string, d: nat)
    requires Ready(b0, d0) && (Peek(Rest(b0, d0)) == '"' ==> ScanBody(Rest(b0, d0)[1..]).None?)
    ensures StringParsed(b0, d0, b, d, None)
  {
  }

  lemma {:induction false} StringWritten(b0: string, d0: nat, k: nat, flag: char)
    requires Ready(b0, d0) && Peek(Rest(b0, d0)) == '"'
    requires var s := Rest(b0, d0 + 1);
             k == BodyEnd(s, 0) && b0[d0 + 1 + k] == '"' && (flag != '\0') == BackslashBefore(s, k)
    ensures StringParsed(b0, d0, b0[d0 + 1 + k := '\0'][d0 := flag], d0 + k + 2, Some((d0 + 1, d0 + 1 + k)))
  {
    QuoteAt(b0, d0);
    BackslashInBody(Rest(b0, d0 + 1), k);
    Written(b0, d0, k, flag);
  }

  lemma {:induction false} Written(b0: string, d0: nat, k: nat, flag: char)
    requires Ready(b0, d0) && d0 + 1 + k < |b0| - 1
    ensures var b := b0[d0 + 1 + k := '\0'][d0 := flag];
            && Moved(b0, d0, b, d0 + k + 2)
            && b[d0 + 1..d0 + 1 + k] == Rest(b0, d0 + 1)[..k]
            && Rest(b, d0 + k + 2) == Rest(b0, d0 + 1)[k + 1..]
  {
  }

  predicate BackslashBefore(text: string, k: nat)
    requires k <= |text|
  {
    exists i :: 0 <= i < k && text[i] == '\\'
  }

  lemma {:induction false} UnitBackslash(text: string, k: nat, n: nat)
    requires k <= |text| && n == ScanStep(text, k) && n != 0
    ensures BackslashBefore(text, k + n) <==> BackslashBefore(text, k) || text[k] == '\\'
  {
  }

  lemma {:induction false} BackslashInBody(s: string, k: nat)
    requires k <= |s|
    ensures BackslashBefore(s, k) <==> '\\' in s[..k]
  {
    if '\\' in s[..k] {
      var i :| 0 <= i < k && s[..k][i] == '\\';
      assert s[i] == '\\';
    }
    if BackslashBefore(s, k) {
      var i :| 0 <= i < k && s[i] == '\\';
      assert s[..k][i] == '\\';
    }
  }
}
