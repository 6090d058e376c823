/** The CSV text of the returns, against a reader for section 2 of RFC 4180. */
module Csv {
  import opened Prelude

  type Row = seq<string>

  // ---------------------------------------------------------------- writing

  predicate IsSpecial(c: char) { c == ',' || c == '"' || c == '\n' || c == '\r' }

  predicate NeedsQuote(field: string) { exists k :: 0 <= k < |field| && IsSpecial(field[k]) }

  /** One character inside quotes: a quote is doubled. */
  function Unit(c: char): string { if c == '"' then "\"\"" else [c] }

  /** The first `n` characters of a quoted field. */
  function Doubled(field: string, n: nat): string
    requires n <= |field|
  {
    if n == 0 then "" else Doubled(field, n - 1) + Unit(field[n - 1])
  }

  function Escaped(field: string): string {
    if NeedsQuote(field) then "\"" + Doubled(field, |field|) + "\"" else field
  }

  /** The first `n` fields of a line, separated by commas. */
  function Line(fields: Row, n: nat): string
    requires n <= |fields|
  {
    if n == 0 then ""
    else if n == 1 then Escaped(fields[0])
    else Line(fields, n - 1) + "," + Escaped(fields[n - 1])
  }

  function RowText(fields: Row): string { Line(fields, |fields|) + "\r\n" }

  /** The first `n` rows. */
  function Rows(rows: seq<Row>, n: nat): string
    requires n <= |rows|
  {
    if n == 0 then "" else Rows(rows, n - 1) + RowText(rows[n - 1])
  }

  /** `find_first_of(",\"\n\r") != npos`. */
  method FindSpecial(field: string) returns (found: bool)
    ensures found == NeedsQuote(field)
  {
    for k := 0 to |field|
      invariant forall j :: 0 <= j < k ==> !IsSpecial(field[j])
    {
      if IsSpecial(field[k]) {
        return true;
      }
    }
    return false;
  }

  method CsvEscaped(field: string) returns (out: string)
    ensures out == Escaped(field)
  {
    var needsQuote := FindSpecial(field);
    if !needsQuote {
      return field;
    }
    out := "\"";
    for i := 0 to |field|
      invariant out == "\"" + Doubled(field, i)
    {
      var ch := field[i];
      Concat3("\"", Doubled(field, i), Unit(ch));
      if ch == '"' {
        out := out + ['"'];
      }
      out := out + [ch];
      assert "\"" + Doubled(field, i) + Unit(ch) == out;
    }
    out := out + ['"'];
  }

  method CsvRow(fields: Row) returns (line: string)
    ensures line == RowText(fields)
  {
    hide Escaped;
    line := "";
    for i := 0 to |fields|
      invariant line == Line(fields, i)
    {
      if i != 0 {
        line := line + [','];
      }
      var text := CsvEscaped(fields[i]);
      line := line + text;
    }
    line := line + "\r\n";
  }

  // ---------------------------------------------------------------- reading

  /** Some text together with the position after it; nothing where the text breaks the format. */
  type Read<T> = Option<(T, nat)>

  /** The rest of a quoted field, from position `k` inside the quotes to past the closing quote. */
  function ReadQuoted(s: string, k: nat): (r: Read<string>)
    requires k <= |s|
    ensures r.Some? ==> k < r.value.1 <= |s|
    decreases |s| - k
  {
    if k == |s| then None
    else if s[k] != '"' then Before(s[k], ReadQuoted(s, k + 1))
    else if k + 1 < |s| && s[k + 1] == '"' then Before('"', ReadQuoted(s, k + 2))
    else Some(("", k + 1))
  }

  function Before(c: char, r: Read<string>): Read<string> {
    if r.Some? then Some(([c] + r.value.0, r.value.1)) else None
  }

  /** An unquoted field: everything up to a comma, a line break or the end. */
  function ReadPlain(s: string, k: nat): (r: Read<string>)
    requires k <= |s|
    ensures r.Some? ==> k <= r.value.1 <= |s|
    decreases |s| - k
  {
    if k == |s| || s[k] in {',', '\r', '\n'} then Some(("", k))
    else if s[k] == '"' then None
    else Before(s[k], ReadPlain(s, k + 1))
  }

  function ReadField(s: string, k: nat): (r: Read<string>)
    requires k <= |s|
    ensures r.Some? ==> k <= r.value.1 <= |s|
  {
    if k < |s| && s[k] == '"' then ReadQuoted(s, k + 1) else ReadPlain(s, k)
  }

  /** A record: one or more fields separated by commas. */
  function ReadRecord(s: string, k: nat): (r: Read<Row>)
    requires k <= |s|
    ensures r.Some? ==> k <= r.value.1 <= |s|
    decreases |s| - k
  {
    var field := ReadField(s, k);
    if field.None? then None
    else if field.value.1 < |s| && s[field.value.1] == ',' then
      var rest := ReadRecord(s, field.value.1 + 1);
      if rest.None? then None else Some(([field.value.0] + rest.value.0, rest.value.1))
    else Some(([field.value.0], field.value.1))
  }

  /** Records delimited by CRLF; the last one may or may not end with it. */
  function ReadFile(s: string, k: nat): Option<seq<Row>>
    requires k <= |s|
    decreases |s| - k
  {
    if k == |s| then Some([])
    else
      var row := ReadRecord(s, k);
      if row.None? then None
      else if row.value.1 == |s| then Some([row.value.0])
      else if !OccursAt(s, row.value.1, "\r\n") then None
      else
        var rest := ReadFile(s, row.value.1 + 2);
        if rest.None? then None else Some([row.value.0] + rest.value)
  }

  // ---------------------------------------------------------------- reading undoes writing

  /** The reader's text and position where a field ends: before a comma, a CRLF, or the end. */
  predicate FieldEnds(s: string, k: nat) {
    k == |s| || (k < |s| && s[k] in {',', '\r', '\n'})
  }

  /** Where character `i` of a quoted field stands. */
  lemma {:induction false} DoubledAt(field: string, i: nat, n: nat)
    requires i < n <= |field|
    ensures |Doubled(field, i + 1)| == |Doubled(field, i)| + |Unit(field[i])|
    ensures OccursAt(Doubled(field, n), |Doubled(field, i)|, Unit(field[i]))
  {
    if n > i + 1 {
      DoubledAt(field, i, n - 1);
      OccursInLonger(Doubled(field, n - 1), Unit(field[n - 1]), |Doubled(field, i)|, Unit(field[i]));
    }
  }

  lemma {:induction false} QuotedIsRead(s: string, at: nat, field: string, i: nat)
    requires i <= |field| && OccursAt(s, at, Doubled(field, |field|))
    requires |Doubled(field, i)| <= |Doubled(field, |field|)|
    requires var end := at + |Doubled(field, |field|)|; end < |s| && s[end] == '"' && FieldEnds(s, end + 1)
    ensures ReadQuoted(s, at + |Doubled(field, i)|) == Some((field[i..], at + |Doubled(field, |field|)| + 1))
    decreases |field| - i
  {
    hide Doubled, OccursAt;
    if i < |field| {
      DoubledCharAt(s, at, field, i);
      QuotedIsRead(s, at, field, i + 1);
      assert field[i..] == [field[i]] + field[i + 1..];
    } else {
      assert field[i..] == "";
    }
  }

  lemma {:induction false} DoubledCharAt(s: string, at: nat, field: string, i: nat)
    requires i < |field| && OccursAt(s, at, Doubled(field, |field|))
    ensures |Doubled(field, i + 1)| == |Doubled(field, i)| + if field[i] == '"' then 2 else 1
    ensures |Doubled(field, i + 1)| <= |Doubled(field, |field|)|
    ensures var k := at + |Doubled(field, i)|;
            k < |s| && s[k] == field[i] && (field[i] == '"' ==> k + 1 < |s| && s[k + 1] == '"')
  {
    DoubledAt(field, i, |field|);
    UnitAt(s, at, Doubled(field, |field|), |Doubled(field, i)|, field[i]);
  }

  lemma {:induction false} UnitAt(s: string, at: nat, text: string, k: nat, c: char)
    requires OccursAt(s, at, text) && OccursAt(text, k, Unit(c))
    ensures at + k < |s| && s[at + k] == c
    ensures c == '"' ==> at + k + 1 < |s| && s[at + k + 1] == '"'
  {
    var w := s[at..at + |text|];
    assert w[k..k + |Unit(c)|][0] == s[at + k];
    if c == '"' {
      assert w[k..k + |Unit(c)|][1] == s[at + k + 1];
    }
  }

  lemma {:induction false} PlainIsRead(s: string, at: nat, field: string, i: nat)
    requires !NeedsQuote(field) && i <= |field| && OccursAt(s, at, field) && FieldEnds(s, at + |field|)
    ensures ReadPlain(s, at + i) == Some((field[i..], at + |field|))
    decreases |field| - i
  {
    if i < |field| {
      PlainIsRead(s, at, field, i + 1);
      assert s[at..at + |field|][i] == s[at + i] == field[i];
      assert !IsSpecial(field[i]);
      assert field[i..] == [field[i]] + field[i + 1..];
    } else {
      assert field[i..] == "";
    }
  }

  lemma {:induction false} FieldIsRead(s: string, at: nat, field: string)
    requires OccursAt(s, at, Escaped(field)) && FieldEnds(s, at + |Escaped(field)|)
    ensures ReadField(s, at) == Some((field, at + |Escaped(field)|))
  {
    if NeedsQuote(field) {
      var body := Doubled(field, |field|);
      OccursAtSplit(s, at, "\"" + body, "\"");
      OccursAtSplit(s, at, "\"", body);
      assert s[at..at + 1][0] == s[at] && s[at + 1 + |body|..at + 2 + |body|][0] == s[at + 1 + |body|];
      QuotedIsRead(s, at + 1, field, 0);
      assert field[0..] == field;
    } else {
      PlainIsRead(s, at, field, 0);
      assert field[0..] == field;
      if field != "" {
        assert s[at..at + |field|][0] == s[at] && !IsSpecial(field[0]);
      }
    }
  }

  /** Field `i` of a line, with what follows it. */
  lemma {:induction false} LineAt(fields: Row, i: nat, n: nat)
    requires i < n <= |fields|
    ensures |Line(fields, i + 1)| <= |Line(fields, n)| && |Escaped(fields[i])| <= |Line(fields, i + 1)|
    ensures OccursAt(Line(fields, n), |Line(fields, i + 1)| - |Escaped(fields[i])|, Escaped(fields[i]))
    ensures i > 0 ==> |Line(fields, i + 1)| == |Line(fields, i)| + 1 + |Escaped(fields[i])|
    ensures i + 1 < n ==> |Line(fields, i + 1)| < |Line(fields, n)| && Line(fields, n)[|Line(fields, i + 1)|] == ','
  {
    hide Escaped;
    if n == i + 1 {
    } else {
      LineAt(fields, i, n - 1);
      var (short, e) := (Line(fields, n - 1), Escaped(fields[i]));
      OccursInLonger(short, ",", |Line(fields, i + 1)| - |e|, e);
      OccursInLonger(short + ",", Escaped(fields[n - 1]), |Line(fields, i + 1)| - |e|, e);
    }
  }

  /** Field `i` of a row is read where it stands, and what follows tells whether there are more. */
  lemma {:induction false} RowFieldIsRead(s: string, at: nat, fields: Row, i: nat)
    requires i < |fields| && OccursAt(s, at, RowText(fields))
    ensures |Escaped(fields[i])| <= |Line(fields, i + 1)| && at + |Line(fields, i + 1)| < |s|
    ensures ReadField(s, at + |Line(fields, i + 1)| - |Escaped(fields[i])|) ==
        Some((fields[i], at + |Line(fields, i + 1)|))
    ensures s[at + |Line(fields, i + 1)|] == if i + 1 < |fields| then ',' else '\r'
  {
    hide Escaped, Line, ReadField;
    var (line, e) := (Line(fields, |fields|), Escaped(fields[i]));
    var here, end := |Line(fields, i + 1)| - |e|, |Line(fields, i + 1)|;
    LineAt(fields, i, |fields|);
    OccursAtSplit(s, at, line, "\r\n");
    assert s[at + |line|..at + |line| + 2][0] == s[at + |line|];
    if i + 1 < |fields| {
      assert s[at..at + |line|][end] == s[at + end];
    }
    Within(s, at, line, here, e);
    FieldIsRead(s, at + here, fields[i]);
  }

  lemma {:induction false} RecordIsRead(s: string, at: nat, fields: Row, i: nat)
    requires i < |fields| && OccursAt(s, at, RowText(fields)) && |Escaped(fields[i])| <= |Line(fields, i + 1)|
    requires at + |Line(fields, i + 1)| <= |s|
    ensures ReadRecord(s, at + |Line(fields, i + 1)| - |Escaped(fields[i])|) ==
        Some((fields[i..], at + |Line(fields, |fields|)|))
    decreases |fields| - i
  {
    hide Escaped, Line, ReadField;
    RowFieldIsRead(s, at, fields, i);
    if i + 1 < |fields| {
      RowFieldIsRead(s, at, fields, i + 1);
      LineAt(fields, i + 1, |fields|);
      RecordIsRead(s, at, fields, i + 1);
      assert fields[i..] == [fields[i]] + fields[i + 1..];
    } else {
      assert fields[i..] == [fields[i]];
    }
  }

  lemma {:induction false} Within(s: string, at: nat, text: string, k: nat, part: string)
    requires OccursAt(s, at, text) && OccursAt(text, k, part)
    ensures OccursAt(s, at + k, part)
  {
    var rest := text[k + |part|..];
    assert text == text[..k] + (part + rest);
    OccursAtSplit(s, at, text[..k], part + rest);
    OccursAtSplit(s, at + k, part, rest);
  }

  /** Row `i` of the text. */
  lemma {:induction false} RowsAt(rows: seq<Row>, i: nat, n: nat)
    requires i < n <= |rows|
    ensures |Rows(rows, i + 1)| == |Rows(rows, i)| + |RowText(rows[i])| <= |Rows(rows, n)|
    ensures OccursAt(Rows(rows, n), |Rows(rows, i)|, RowText(rows[i]))
  {
    hide RowText;
    if n > i + 1 {
      RowsAt(rows, i, n - 1);
      OccursInLonger(Rows(rows, n - 1), RowText(rows[n - 1]), |Rows(rows, i)|, RowText(rows[i]));
    }
  }

  lemma {:induction false} RowsAreReadFrom(rows: seq<Row>, i: nat)
    requires i <= |rows| && (forall k :: 0 <= k < |rows| ==> rows[k] != [])
    requires |Rows(rows, i)| <= |Rows(rows, |rows|)|
    ensures ReadFile(Rows(rows, |rows|), |Rows(rows, i)|) == Some(rows[i..])
    decreases |rows| - i
  {
    hide RowText, ReadRecord, OccursAt, ReadFile;
    if i < |rows| {
      var (s, at, fields) := (Rows(rows, |rows|), |Rows(rows, i)|, rows[i]);
      RowsAt(rows, i, |rows|);
      RowIsRead(s, at, fields);
      RowsAreReadFrom(rows, i + 1);
      ReadFileStep(s, at, fields, at + |RowText(fields)| - 2, rows[i + 1..]);
      assert rows[i..] == [fields] + rows[i + 1..];
    } else {
      ReadFileEnds(Rows(rows, |rows|));
    }
  }

  lemma {:induction false} ReadFileStep(s: string, at: nat, row: Row, end: nat, rest: seq<Row>)
    requires at < |s| && ReadRecord(s, at) == Some((row, end)) && OccursAt(s, end, "\r\n")
    requires ReadFile(s, end + 2) == Some(rest)
    ensures ReadFile(s, at) == Some([row] + rest)
  {
  }

  lemma {:induction false} ReadFileEnds(s: string)
    ensures ReadFile(s, |s|) == Some([])
  {
  }

  lemma {:induction false} RowIsRead(s: string, at: nat, fields: Row)
    requires fields != [] && OccursAt(s, at, RowText(fields))
    ensures ReadRecord(s, at) == Some((fields, at + |RowText(fields)| - 2))
    ensures OccursAt(s, at + |RowText(fields)| - 2, "\r\n")
  {
    hide Escaped, ReadRecord, ReadField;
    LineAt(fields, 0, |fields|);
    assert Line(fields, 1) == Escaped(fields[0]);
    RowFieldIsRead(s, at, fields, 0);
    RecordIsRead(s, at, fields, 0);
    assert fields[0..] == fields;
    OccursAtSplit(s, at, Line(fields, |fields|), "\r\n");
  }

  /** A row without fields prints like a row with one empty field. */
  function Shown(row: Row): Row { if row == [] then [""] else row }

  function AllShown(rows: seq<Row>): (r: seq<Row>)
    ensures |r| == |rows|
  {
    seq(|rows|, i requires 0 <= i < |rows| => Shown(rows[i]))
  }

  lemma {:induction false} SameText(rows: seq<Row>, n: nat)
    requires n <= |rows|
    ensures Rows(AllShown(rows), n) == Rows(rows, n)
  {
    if n > 0 {
      SameText(rows, n - 1);
      assert Line([""], 1) == Escaped("") == Line([], 0);
    }
  }

  /** Reading the concatenated rows gives back exactly those rows, if and only if no row is without fields. */
  lemma {:induction false} RowsAreRead(rows: seq<Row>)
    ensures ReadFile(Rows(rows, |rows|), 0) == Some(AllShown(rows))
    ensures ReadFile(Rows(rows, |rows|), 0) == Some(rows) <==> forall k :: 0 <= k < |rows| ==> rows[k] != []
  {
    hide ReadFile, RowText;
    var shown := AllShown(rows);
    assert Rows(shown, 0) == "";
    SameText(rows, |rows|);
    RowsAreReadFrom(shown, 0);
    assert shown[0..] == shown;
    if forall k :: 0 <= k < |rows| ==> rows[k] != [] {
      assert shown == rows;
    } else {
      var k :| 0 <= k < |rows| && rows[k] == [];
      assert shown[k] == [""];
    }
  }

  // ---------------------------------------------------------------- money and rates

  function Abs(n: int): nat { if n < 0 then -n else n }

  /** Integer division and remainder that truncate towards zero. */
  function TruncDiv(n: int, d: nat): int
    requires d > 0
  {
    if n < 0 then -(-n / d) else n / d
  }

  function TruncMod(n: int, d: nat): int
    requires d > 0
  {
    n - d * TruncDiv(n, d)
  }

  function TwoDigits(n: nat): string
    requires n < 100
  {
    [DigitChar(n / 10), DigitChar(n % 10)]
  }

  function CentsToRupees(cents: int): string {
    Digits(Abs(TruncDiv(cents, 100))) + "." + TwoDigits(Abs(TruncMod(cents, 100)))
  }

  /** The cents that a text of digits, a point and two digits denotes. */
  function RupeesToCents(s: string): Option<nat> {
    var n := |s| - 3;
    if n > 0 && AllDigits(s[..n]) && s[n] == '.' && AllDigits(s[n + 1..])
      then Some(100 * Decimal(s[..n]) + Decimal(s[n + 1..]))
    else None
  }

  lemma {:induction false} TwoDigitsValue(n: nat)
    requires n < 100
    ensures AllDigits(TwoDigits(n)) && Decimal(TwoDigits(n)) == n
  {
    var s := TwoDigits(n);
    assert s[..1] == [s[0]] && [s[0]][..0] == "";
    assert Decimal(s[..1]) == DigitValue(s[0]);
  }

  /** The text gives back the amount without its sign. */
  lemma {:induction false} RupeesKeepMagnitude(cents: int)
    ensures RupeesToCents(CentsToRupees(cents)) == Some(Abs(cents))
  {
    var s := CentsToRupees(cents);
    var (whole, frac) := (Digits(Abs(TruncDiv(cents, 100))), TwoDigits(Abs(TruncMod(cents, 100))));
    assert s[..|s| - 3] == whole && s[|s| - 3] == '.' && s[|s| - 2..] == frac;
    DecimalOfDigits(Abs(TruncDiv(cents, 100)));
    TwoDigitsValue(Abs(TruncMod(cents, 100)));
  }

  /** So it converts back exactly when the amount is not negative. */
  lemma {:induction false} RupeesConvertBack(cents: int)
    ensures RupeesToCents(CentsToRupees(cents)) == Some(cents) <==> cents >= 0
  {
    RupeesKeepMagnitude(cents);
  }

  /** Basis points as a percentage: whole, or with two decimals. */
  function RatePercent(bps: nat): string {
    if bps % 100 == 0 then Digits(bps / 100) else Digits(bps / 100) + "." + TwoDigits(bps % 100)
  }

  /** The basis points that a percentage denotes. */
  function PercentToBps(s: string): Option<nat> {
    if AllDigits(s) then Some(100 * Decimal(s)) else RupeesToCents(s)
  }

  lemma {:induction false} RatesConvertBack(bps: nat)
    ensures PercentToBps(RatePercent(bps)) == Some(bps)
  {
    DecimalOfDigits(bps / 100);
    if bps % 100 != 0 {
      var s := RatePercent(bps);
      assert '.' in s;
      assert s == CentsToRupees(bps);
      RupeesKeepMagnitude(bps);
    }
  }
}
