/** What the escape sequences of JSON strings stand for, by section 7 of RFC 8259 and section 4 of RFC 3629. */
module JsonEscapes {
  import opened Prelude
  import opened JsonStrings
  import G = JsonGrammar

  // ---------------------------------------------------------------- the single characters

  /** The eight single-character escapes and the code points they stand for. */
  const SINGLES: seq<(char, nat)> :=
    [('"', 0x22), ('\\', 0x5C), ('/', 0x2F), ('b', 0x08), ('f', 0x0C), ('n', 0x0A), ('r', 0x0D), ('t', 0x09)]

  lemma {:induction false} SingleEscape(s: string, k: nat, e: nat)
    requires k + 1 < |s| && s[k] == '\\' && e < |SINGLES| && s[k + 1] == SINGLES[e].0
    ensures UnitLength(s, k) == 2 && UnitMeaning(s, k) == [SINGLES[e].1 as char]
  {
    assert s[k + 1] in "\"\\/bfnrt";
  }

  // ---------------------------------------------------------------- hexadecimal notation

  const SMALL_DIGITS := "0123456789abcdef"
  const CAPITAL_DIGITS := "0123456789ABCDEF"

  /** A digit, small or capital, has the value of its place. */
  predicate IsDigitOf(c: char, v: nat) { v < 16 && (SMALL_DIGITS[v] == c || CAPITAL_DIGITS[v] == c) }

  /** Four digits, most significant first. */
  predicate Spells(h: string, n: nat) {
    && |h| == 4 && IsDigitOf(h[0], n / 0x1000) && IsDigitOf(h[1], n / 0x100 % 16)
    && IsDigitOf(h[2], n / 0x10 % 16) && IsDigitOf(h[3], n % 16)
  }

  ghost predicate IsSpelling(h: string) { exists n: nat :: Spells(h, n) }

  lemma {:induction false} PlaceIsValue(c: char, v: nat)
    requires IsDigitOf(c, v)
    ensures IsHex(c) && HexValue(c) == v
  {
  }

  lemma {:induction false} ValueIsPlace(c: char)
    requires IsHex(c)
    ensures IsDigitOf(c, HexValue(c))
  {
    assert SMALL_DIGITS[HexValue(c)] == c || CAPITAL_DIGITS[HexValue(c)] == c;
  }

  // ---------------------------------------------------------------- UTF-8

  predicate IsTail(c: char) { 0x80 <= c as int <= 0xBF }

  /** The code point below 0x10000 of one encoded character; shortest forms only. */
  function ReadCode(b: string): Option<nat> {
    if |b| == 1 && b[0] as int < 0x80 then Some(b[0] as int)
    else if |b| == 2 && 0xC2 <= b[0] as int <= 0xDF && IsTail(b[1]) then
      Some((b[0] as int - 0xC0) * 64 + (b[1] as int - 0x80))
    else if |b| == 3 && 0xE0 <= b[0] as int <= 0xEF && IsTail(b[1]) && IsTail(b[2]) &&
            (b[0] as int == 0xE0 ==> b[1] as int >= 0xA0) then
      Some((b[0] as int - 0xE0) * 4096 + (b[1] as int - 0x80) * 64 + (b[2] as int - 0x80))
    else None
  }

  predicate IsSurrogate(n: nat) { 0xD800 <= n <= 0xDFFF }

  /** One character of well-formed UTF-8, which has no surrogates: after 0xED the second byte is at most 0x9F. */
  predicate IsUtf8(b: string) { ReadCode(b).Some? && (|b| == 3 && b[0] as int == 0xED ==> b[1] as int <= 0x9F) }

  /** No two byte strings are read as the same code point. */
  lemma {:induction false} ReadsApart(a: string, b: string)
    requires ReadCode(a).Some? && ReadCode(a) == ReadCode(b)
    ensures a == b
  {
    assert |a| == |b|;
    if |a| == 3 {
      assert a[0] == b[0] && a[1] == b[1] && a[2] == b[2];
    } else if |a| == 2 {
      assert a[0] == b[0] && a[1] == b[1];
    }
  }

  /**
   * Four hexadecimal digits in either case are decoded to the bytes of the number they spell. The bytes are
   * well-formed exactly if that is no surrogate: the decoder does not join surrogate pairs.
   */
  lemma {:induction false} UnicodeEscape(s: string, k: nat, n: nat)
    requires k + 6 <= |s| && s[k] == '\\' && s[k + 1] == 'u' && Spells(s[k + 2..k + 6], n)
    ensures UnitLength(s, k) == 6 && ReadCode(UnitMeaning(s, k)) == Some(n)
    ensures IsUtf8(UnitMeaning(s, k)) <==> !IsSurrogate(n)
  {
    hide Utf8, IsHex, HexValue, IsDigitOf, ReadCode, IsUtf8;
    var h := s[k + 2..k + 6];
    PlaceIsValue(h[0], n / 0x1000);
    PlaceIsValue(h[1], n / 0x100 % 16);
    PlaceIsValue(h[2], n / 0x10 % 16);
    PlaceIsValue(h[3], n % 16);
    FourDigits(n);
    EncodedCode(n);
  }

  lemma {:induction false} FourDigits(n: nat)
    requires n / 0x1000 < 16
    ensures n == 4096 * (n / 0x1000) + 256 * (n / 0x100 % 16) + 16 * (n / 0x10 % 16) + n % 16 < 0x10000
  {
  }

  lemma {:induction false} EncodedCode(n: nat)
    requires n < 0x10000
    ensures ReadCode(Utf8(n)) == Some(n) && (IsUtf8(Utf8(n)) <==> !IsSurrogate(n))
  {
    var (high, middle, low) := (n / 4096, n / 64 % 64, n % 64);
    assert n == 4096 * high + 64 * middle + low;
    if n >= 0x800 {
      var b := Utf8(n);
      assert b[0] as int == 0xE0 + high && b[1] as int == 0x80 + middle && b[2] as int == 0x80 + low;
    }
  }

  /** Nothing else is accepted after a backslash. */
  lemma {:induction false} EscapesAreThese(s: string, k: nat)
    requires k < |s| && s[k] == '\\' && UnitLength(s, k) != 0
    ensures k + 1 < |s|
    ensures (exists e :: 0 <= e < |SINGLES| && s[k + 1] == SINGLES[e].0) ||
            (s[k + 1] == 'u' && k + 6 <= |s| && IsSpelling(s[k + 2..k + 6]))
  {
    if s[k + 1] == 'u' {
      var (a, b, c, d) := (HexValue(s[k + 2]), HexValue(s[k + 3]), HexValue(s[k + 4]), HexValue(s[k + 5]));
      ValueIsPlace(s[k + 2]);
      ValueIsPlace(s[k + 3]);
      ValueIsPlace(s[k + 4]);
      ValueIsPlace(s[k + 5]);
      Digits4(a, b, c, d);
      assert Spells(s[k + 2..k + 6], 4096 * a + 256 * b + 16 * c + d);
    } else {
      var singles := "\"\\/bfnrt";
      var e :| 0 <= e < |singles| && singles[e] == s[k + 1];
      assert SINGLES[e].0 == singles[e];
    }
  }

  lemma {:induction false} Digits4(a: nat, b: nat, c: nat, d: nat)
    requires a < 16 && b < 16 && c < 16 && d < 16
    ensures var n := 4096 * a + 256 * b + 16 * c + d;
            n / 0x1000 == a && n / 0x100 % 16 == b && n / 0x10 % 16 == c && n % 16 == d
  {
    var n := 4096 * a + 256 * b + 16 * c + d;
    Div16(256 * a + 16 * b + c, d);
    Div16(16 * a + b, c);
    Div16(a, b);
    assert n / 0x100 == n / 16 / 16 && n / 0x1000 == n / 16 / 16 / 16;
  }

  lemma {:induction false} Div16(x: nat, d: nat)
    requires d < 16
    ensures (16 * x + d) / 16 == x && (16 * x + d) % 16 == d
  {
  }

  // ---------------------------------------------------------------- in a string

  /** A unit does not look at what stands around it. */
  lemma {:induction false} UnitIsLocal(s: string, k: nat, t: string, j: nat)
    requires k < |s| && UnitLength(s, k) != 0 && OccursAt(t, j, s[k..k + UnitLength(s, k)])
    ensures UnitLength(t, j) == UnitLength(s, k) && UnitMeaning(t, j) == UnitMeaning(s, k)
  {
    hide IsHex, HexValue, Utf8;
    var n := UnitLength(s, k);
    SameChar(s, k, t, j, n, 0);
    if n > 1 {
      SameChar(s, k, t, j, n, 1);
    }
    if n > 2 {
      SameChar(s, k, t, j, n, 2);
      SameChar(s, k, t, j, n, 3);
      SameChar(s, k, t, j, n, 4);
      SameChar(s, k, t, j, n, 5);
    }
  }

  lemma {:induction false} SameChar(s: string, k: nat, t: string, j: nat, n: nat, i: nat)
    requires k + n <= |s| && j + n <= |t| && s[k..k + n] == t[j..j + n] && i < n
    ensures s[k + i] == t[j + i]
  {
    assert s[k..k + n][i] == t[j..j + n][i];
  }

  lemma {:induction false} DecodesFrom(s: string, k: nat, t: string, j: nat, rest: nat)
    requires k <= |s| && WellEscaped(s, k) && j <= rest <= |t| && t[j..rest] == s[k..] && WellEscaped(t, rest)
    ensures WellEscaped(t, j) && Unescaped(t, j) == Unescaped(s, k) + Unescaped(t, rest)
    decreases |s| - k
  {
    hide UnitLength, UnitMeaning;
    if k < |s| {
      var n := UnitLength(s, k);
      assert t[j..j + n] == t[j..rest][..n] == s[k..][..n] == s[k..k + n];
      UnitIsLocal(s, k, t, j);
      assert t[j + n..rest] == t[j..rest][n..] == s[k..][n..] == s[k + n..];
      DecodesFrom(s, k + n, t, j + n, rest);
      Concat3(UnitMeaning(s, k), Unescaped(s, k + n), Unescaped(t, rest));
    } else {
      assert j == rest && "" + Unescaped(t, rest) == Unescaped(t, rest);
    }
  }

  /** A body is decoded piece by piece. */
  lemma {:induction false} DecodesPiecewise(a: string, b: string)
    requires WellEscaped(a, 0) && WellEscaped(b, 0)
    ensures WellEscaped(a + b, 0) && Unescaped(a + b, 0) == Unescaped(a, 0) + Unescaped(b, 0)
  {
    hide WellEscaped, Unescaped;
    var t := a + b;
    assert t[|a|..|t|] == b[0..] && t[0..|a|] == a[0..];
    AtTheEnd(t);
    DecodesFrom(b, 0, t, |a|, |t|);
    assert Unescaped(b, 0) + "" == Unescaped(b, 0);
    DecodesFrom(a, 0, t, 0, |a|);
  }

  lemma {:induction false} AtTheEnd(t: string)
    ensures WellEscaped(t, |t|) && Unescaped(t, |t|) == ""
  {
  }

  /** A string token that is one escape sequence is read as the bytes of its code point. */
  lemma {:induction false} EscapeToken(h: string, n: nat, rest: string)
    requires Spells(h, n)
    ensures var r := G.ParseString("\"" + ("\\u" + h) + "\"" + rest);
            r.Some? && ReadCode(r.value.0) == Some(n) && r.value.1 == rest
  {
    hide UnitMeaning, UnitLength, Spells, ReadCode;
    var body := "\\u" + h;
    var t := body + ("\"" + rest);
    assert |h| == 4 by { SpellingLength(h, n); }
    assert ("\"" + body + "\"" + rest)[1..] == t;
    assert t[2..6] == h && body[2..6] == h;
    UnicodeEscape(t, 0, n);
    UnicodeEscape(body, 0, n);
    assert t[6] == '"' && t[..6] == body && t[7..] == rest;
    assert BodyEnd(t, 6) == 6 && BodyEnd(t, 0) == BodyEnd(t, 6);
    assert WellEscaped(body, 6) && Unescaped(body, 6) == "" && Unescaped(body, 0) == UnitMeaning(body, 0) + "";
    assert UnitMeaning(body, 0) + "" == UnitMeaning(body, 0);
  }

  lemma {:induction false} SpellingLength(h: string, n: nat)
    requires Spells(h, n)
    ensures |h| == 4
  {
  }
}
