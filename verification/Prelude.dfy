/** Datatypes and sequence facts shared by every component. */
module Prelude {

  datatype Option<+T> = None | Some(value: T)

  /** A call that either returns or throws; the error carries the reason the source reports. */
  datatype Result<+T, +E> = Ok(value: T) | Err(error: E)

  /** `text` occurs in `s` at position `i`; what `s.compare(i, text.size(), text) == 0` tests. */
  predicate OccursAt(s: string, i: nat, text: string) {
    i + |text| <= |s| && s[i..i + |text|] == text
  }

  lemma {:induction false} OccursAtChar(s: string, i: nat, text: string, k: nat)
    requires OccursAt(s, i, text) && k < |text|
    ensures i + |text| <= |s| && s[i + k] == text[k]
  {
    assert s[i..i + |text|][k] == text[k];
  }

  lemma {:induction false} OccursAtSplit(s: string, i: nat, t: string, u: string)
    ensures OccursAt(s, i, t + u) <==> OccursAt(s, i, t) && OccursAt(s, i + |t|, u)
  {
    if i + |t| + |u| <= |s| {
      var w := s[i..i + |t| + |u|];
      assert w[..|t|] == s[i..i + |t|];
      assert w[|t|..] == s[i + |t|..i + |t| + |u|];
      assert w == w[..|t|] + w[|t|..];
      assert (t + u)[..|t|] == t && (t + u)[|t|..] == u;
    }
  }

  lemma {:induction false} OccursInLonger(s: string, more: string, i: nat, text: string)
    requires OccursAt(s, i, text)
    ensures OccursAt(s + more, i, text)
  {
    assert (s + more)[i..i + |text|] == s[i..i + |text|];
  }

  lemma {:induction false} Concat3<T>(a: seq<T>, b: seq<T>, c: seq<T>)
    ensures a + b + c == a + (b + c)
  {
  }

  // ---------------------------------------------------------------- decimal text

  predicate IsDigit(c: char) { '0' <= c <= '9' }

  function DigitChar(d: nat): (c: char)
    requires d < 10
    ensures IsDigit(c)
  {
    '0' + d as char
  }

  function DigitValue(c: char): (d: nat)
    requires IsDigit(c)
    ensures d < 10 && DigitChar(d) == c
  {
    c as int - '0' as int
  }

  predicate AllDigits(s: string) { forall c :: c in s ==> IsDigit(c) }

  /** The decimal digits of `n`, most significant first and without leading zeros. */
  function Digits(n: nat): (s: string)
    ensures s != "" && AllDigits(s)
    ensures s[0] == '0' <==> n == 0
    ensures n == 0 ==> s == "0"
  {
    if n < 10 then [DigitChar(n)] else Digits(n / 10) + [DigitChar(n % 10)]
  }

  /** The number that a run of digits denotes. */
  function Decimal(s: string): nat
    requires AllDigits(s)
  {
    if s == "" then 0 else 10 * Decimal(s[..|s| - 1]) + DigitValue(s[|s| - 1])
  }

  lemma {:induction false} DecimalOfDigits(n: nat)
    ensures Decimal(Digits(n)) == n
  {
    if n >= 10 {
      DecimalOfDigits(n / 10);
      assert Digits(n)[..|Digits(n)| - 1] == Digits(n / 10);
    } else {
      assert Digits(n)[..0] == "";
    }
  }

  /** `std::to_string` of an integer. */
  function IntText(n: int): string { if n < 0 then "-" + Digits(-n) else Digits(n) }
}
