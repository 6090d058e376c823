/** The numbers that the parser's state machine accepts, against the grammar of section 6 of RFC 8259. */
module JsonNumbers {
  import opened Prelude
  import opened JsonGrammar

  // ---------------------------------------------------------------- the grammar

  /** The parts of a number; `mark` is "e", "E" or nothing, and then the exponent has neither sign nor digits. */
  datatype Parts = Parts(negative: bool, whole: string, point: bool, fraction: string, mark: string, sign: string,
                         exponent: string)

  predicate AreDigits(t: string) { forall k :: 0 <= k < |t| ==> IsDigit(t[k]) }

  function ExponentText(p: Parts): string { p.mark + (p.sign + p.exponent) }

  function FractionText(p: Parts): string { (if p.point then "." + p.fraction else "") + ExponentText(p) }

  function Text(p: Parts): string { (if p.negative then "-" else "") + (p.whole + FractionText(p)) }

  /** What both grammars share. */
  predicate IsShaped(p: Parts) {
    && AreDigits(p.whole) && AreDigits(p.fraction) && AreDigits(p.exponent)
    && p.whole != "" && (p.whole[0] == '0' ==> p.whole == "0")
    && (!p.point ==> p.fraction == "")
    && p.mark in {"", "e", "E"} && p.sign in {"", "+", "-"} && (p.mark == "" ==> p.sign == "" && p.exponent == "")
  }

  /** The grammar of the standard: no fraction and no exponent without digits. */
  predicate IsStandard(p: Parts) {
    IsShaped(p) && (p.point ==> p.fraction != "") && (p.mark != "" ==> p.exponent != "")
  }

  /**
   * The grammar of the state machine: the digits of a fraction, and after a sign those of an exponent, may be missing,
   * but a single zero cannot be followed by an exponent.
   */
  predicate IsScanned(p: Parts) {
    && IsShaped(p) && (p.mark != "" && p.sign == "" ==> p.exponent != "")
    && (p.mark != "" && !p.point ==> p.whole != "0")
  }

  /** Where a number ends: at the end of the text or before a character that no number has. */
  predicate Ends(s: string, k: nat) { k == |s| || (k < |s| && !IsNumberChar(s[k])) }

  // ---------------------------------------------------------------- runs of digits

  /** The states that a digit does not leave. */
  lemma {:induction false} DigitsStay(c: char, state: nat)
    requires IsDigit(c) && state in {DIGITS, DIGITS_AFTER_POINTS, DIGITS_AFTER_E}
    ensures NextState(state, c) == state
  {
  }

  lemma {:induction false} DigitsArePassed(s: string, k: nat, m: nat, state: nat)
    requires k <= m <= |s| && state in {DIGITS, DIGITS_AFTER_POINTS, DIGITS_AFTER_E}
    requires forall i :: k <= i < m ==> IsDigit(s[i])
    ensures NumberEnd(s, k, state) == NumberEnd(s, m, state)
    decreases |s| - k
  {
    hide NextState;
    if k < m {
      DigitsArePassed(s, k + 1, m, state);
      DigitsStay(s[k], state);
      if s[k] != '0' {
        DigitsRun(s, k + 1);
        DigitsArePassed(s, k + 1, DigitsEnd(s, k + 1), state);
      }
    }
  }

  lemma {:induction false} DigitsRun(s: string, k: nat)
    requires k <= |s|
    ensures forall i :: k <= i < DigitsEnd(s, k) ==> IsDigit(s[i])
    ensures DigitsEnd(s, k) < |s| ==> !IsDigit(s[DigitsEnd(s, k)])
    decreases |s| - k
  {
    if k < |s| && IsDigit(s[k]) {
      DigitsRun(s, k + 1);
    }
  }

  // ---------------------------------------------------------------- every such number is scanned

  lemma {:induction false} ExponentIsScanned(pre: string, p: Parts, rest: string, state: nat)
    requires IsScanned(p) && Ends(rest, 0)
    requires state in {DIGITS, DIGITS_AFTER_POINTS} || (state == ZERO_FIRST && p.mark == "")
    ensures NumberEnd(pre + ExponentText(p) + rest, |pre|, state) == Some(|pre + ExponentText(p)|)
  {
    hide NumberEnd;
    var s := pre + ExponentText(p) + rest;
    var k := |pre|;
    if p.mark == "" {
      assert ExponentText(p) == "" && (rest != "" ==> s[k] == rest[0]);
      StopsHere(s, k, state);
    } else {
      var from := k + 1 + |p.sign|;
      var end := from + |p.exponent|;
      assert s[k] == p.mark[0] && (p.sign != "" ==> s[k + 1] == p.sign[0]);
      forall i | from <= i < end ensures IsDigit(s[i]) {
        assert s[i] == p.exponent[i - from];
      }
      assert end < |s| ==> s[end] == rest[0];
      MarkIsPassed(s, k, from, end, state);
    }
  }

  lemma {:induction false} StopsHere(s: string, k: nat, state: nat)
    requires Ends(s, k) && state in FINAL_STATES
    ensures NumberEnd(s, k, state) == Some(k)
  {
  }

  lemma {:induction false} MarkIsPassed(s: string, k: nat, from: nat, end: nat, state: nat)
    requires k < from <= end <= |s| && s[k] in {'e', 'E'} && state in {DIGITS, DIGITS_AFTER_POINTS}
    requires from == k + 1 || (from == k + 2 && s[k + 1] in {'+', '-'})
    requires (forall i :: from <= i < end ==> IsDigit(s[i])) && Ends(s, end) && (from == k + 1 ==> from < end)
    ensures NumberEnd(s, k, state) == Some(end)
  {
    assert NumberEnd(s, k, state) == NumberEnd(s, k + 1, EXPONENT);
    if from == k + 2 {
      assert NumberEnd(s, k + 1, EXPONENT) == NumberEnd(s, from, DIGITS_AFTER_E);
      DigitsArePassed(s, from, end, DIGITS_AFTER_E);
    } else {
      FirstDigitIsPassed(s, from, end, EXPONENT);
    }
    StopsHere(s, end, DIGITS_AFTER_E);
  }

  /** The first digit leads to the state of its run, whatever follows. */
  lemma {:induction false} FirstDigitIsPassed(s: string, k: nat, m: nat, state: nat)
    requires k < m <= |s| && forall i :: k <= i < m ==> IsDigit(s[i])
    requires state == EXPONENT || (state in {MINUS, AFTER_MINUS} && s[k] != '0')
    ensures NumberEnd(s, k, state) == NumberEnd(s, m, if state == EXPONENT then DIGITS_AFTER_E else DIGITS)
  {
    var next := if state == EXPONENT then DIGITS_AFTER_E else DIGITS;
    assert NextState(state, s[k]) == next;
    DigitsArePassed(s, k + 1, m, next);
    if s[k] != '0' {
      DigitsRun(s, k + 1);
      DigitsArePassed(s, k + 1, DigitsEnd(s, k + 1), next);
    }
  }

  lemma {:induction false} PointIsPassed(s: string, k: nat, state: nat)
    requires k < |s| && s[k] == '.' && state in {ZERO_FIRST, DIGITS}
    ensures NumberEnd(s, k, state) == NumberEnd(s, k + 1, DIGITS_AFTER_POINTS)
  {
  }

  lemma {:induction false} ZeroIsPassed(s: string, k: nat, state: nat)
    requires k < |s| && s[k] == '0' && state in {MINUS, AFTER_MINUS}
    ensures NumberEnd(s, k, state) == NumberEnd(s, k + 1, ZERO_FIRST)
  {
  }

  lemma {:induction false} FractionIsScanned(pre: string, p: Parts, rest: string, state: nat)
    requires IsScanned(p) && Ends(rest, 0)
    requires state == if p.whole == "0" then ZERO_FIRST else DIGITS
    ensures NumberEnd(pre + FractionText(p) + rest, |pre|, state) == Some(|pre + FractionText(p)|)
  {
    hide NumberEnd, ExponentText;
    var s := pre + FractionText(p) + rest;
    if p.point {
      var before := pre + "." + p.fraction;
      assert s == before + ExponentText(p) + rest;
      assert s[|pre|] == '.';
      PointIsPassed(s, |pre|, state);
      forall i | |pre| + 1 <= i < |before| ensures IsDigit(s[i]) {
        assert s[i] == p.fraction[i - |pre| - 1];
      }
      DigitsArePassed(s, |pre| + 1, |before|, DIGITS_AFTER_POINTS);
      ExponentIsScanned(before, p, rest, DIGITS_AFTER_POINTS);
    } else {
      assert FractionText(p) == ExponentText(p);
      ExponentIsScanned(pre, p, rest, state);
    }
  }

  lemma {:induction false} WholeIsScanned(pre: string, p: Parts, rest: string, state: nat)
    requires IsScanned(p) && Ends(rest, 0) && state in {MINUS, AFTER_MINUS}
    ensures NumberEnd(pre + (p.whole + FractionText(p)) + rest, |pre|, state) ==
            Some(|pre + (p.whole + FractionText(p))|)
  {
    hide FractionText, NumberEnd;
    var s := pre + (p.whole + FractionText(p)) + rest;
    var before := pre + p.whole;
    assert s == before + FractionText(p) + rest;
    forall i | |pre| <= i < |before| ensures s[i] == p.whole[i - |pre|] {
    }
    assert s[|pre|] == p.whole[0];
    if p.whole == "0" {
      ZeroIsPassed(s, |pre|, state);
      FractionIsScanned(before, p, rest, ZERO_FIRST);
    } else {
      FirstDigitIsPassed(s, |pre|, |before|, state);
      FractionIsScanned(before, p, rest, DIGITS);
    }
  }

  /** A number of this grammar is scanned to its end. */
  lemma {:induction false} NumberIsScanned(p: Parts, rest: string)
    requires IsScanned(p) && Ends(rest, 0)
    ensures NumberEnd(Text(p) + rest, 0, MINUS) == Some(|Text(p)|)
  {
    hide FractionText;
    var s := Text(p) + rest;
    if p.negative {
      WholeIsScanned("-", p, rest, AFTER_MINUS);
      assert s[0] == '-';
    } else {
      WholeIsScanned("", p, rest, MINUS);
      assert "" + (p.whole + FractionText(p)) == p.whole + FractionText(p);
    }
  }

  // ---------------------------------------------------------------- nothing else is scanned

  const NOTHING := Parts(false, "0", false, "", "", "", "")

  /** What an exponent adds to parts that have none. */
  lemma {:induction false} ExponentIsPart(s: string, k: nat, state: nat, n: nat, before: Parts) returns (p: Parts)
    requires k <= |s| && state in {ZERO_FIRST, DIGITS, DIGITS_AFTER_POINTS} && NumberEnd(s, k, state) == Some(n)
    requires (k < |s| ==> !IsDigit(s[k])) && (state == DIGITS_AFTER_POINTS || k == |s| || s[k] != '.')
    requires IsShaped(before) && before.mark == ""
    requires (state == DIGITS_AFTER_POINTS <==> before.point) && (state == DIGITS ==> before.whole != "0")
    ensures IsScanned(p) && p == before.(mark := p.mark, sign := p.sign, exponent := p.exponent)
    ensures k <= n && Ends(s, n) && s[k..n] == ExponentText(p)
  {
    if Ends(s, k) {
      p := before;
      assert n == k;
    } else {
      assert s[k] in {'e', 'E'} && NumberEnd(s, k + 1, EXPONENT) == Some(n) && state != ZERO_FIRST;
      var from := SignEnds(s, k + 1, n);
      p := before.(mark := [s[k]], sign := s[k + 1..from], exponent := s[from..n]);
      assert s[k..n] == [s[k]] + (s[k + 1..from] + s[from..n]);
    }
  }

  lemma {:induction false} OneChar(s: string, k: nat)
    requires k < |s|
    ensures s[k..k + 1] == [s[k]]
  {
  }

  /** After the mark: a sign and any digits, or at least one digit. */
  lemma {:induction false} SignEnds(s: string, k: nat, n: nat) returns (from: nat)
    requires k <= |s| && NumberEnd(s, k, EXPONENT) == Some(n)
    ensures k <= from <= n && Ends(s, n) && AreDigits(s[from..n]) && s[k..from] in {"", "+", "-"}
    ensures from == k ==> from < n
  {
    assert k < |s| && IsNumberChar(s[k]) && NextState(EXPONENT, s[k]) == DIGITS_AFTER_E;
    if s[k] in {'+', '-'} {
      from := k + 1;
      OneChar(s, k);
      DigitsEndNumber(s, from, n, DIGITS_AFTER_E);
    } else {
      from := k;
      var e := Stride(s, k);
      DigitsRun(s, k + 1);
      DigitsEndNumber(s, e, n, DIGITS_AFTER_E);
      assert s[k..from] == "";
      forall i | 0 <= i < n - from ensures IsDigit(s[from..n][i]) {
        assert from + i < e || s[from + i] == s[e..n][from + i - e];
      }
    }
  }

  /** In the last state there are only digits. */
  lemma {:induction false} DigitsEndNumber(s: string, k: nat, n: nat, state: nat)
    requires k <= |s| && state == DIGITS_AFTER_E && NumberEnd(s, k, state) == Some(n)
    ensures k <= n && Ends(s, n) && AreDigits(s[k..n])
    decreases |s| - k
  {
    if !Ends(s, k) {
      assert IsDigit(s[k]);
      DigitsRun(s, k + 1);
      var e := Stride(s, k);
      DigitsEndNumber(s, e, n, state);
      forall i | 0 <= i < n - k ensures IsDigit(s[k..n][i]) {
        assert k + i < e || s[k + i] == s[e..n][k + i - e];
      }
    }
  }

  /** What a fraction and an exponent add to a whole number. */
  lemma {:induction false} FractionIsPart(s: string, k: nat, state: nat, n: nat, before: Parts) returns (p: Parts)
    requires k <= |s| && state in {ZERO_FIRST, DIGITS} && NumberEnd(s, k, state) == Some(n)
    requires k < |s| ==> !IsDigit(s[k])
    requires IsShaped(before) && before.mark == "" && !before.point && (state == DIGITS ==> before.whole != "0")
    ensures IsScanned(p) && p.negative == before.negative && p.whole == before.whole
    ensures k <= n && Ends(s, n) && s[k..n] == FractionText(p)
  {
    hide ExponentText, NextState;
    if k < |s| && s[k] == '.' {
      PointIsPassed(s, k, state);
      DigitsRun(s, k + 1);
      var m := DigitsEnd(s, k + 1);
      DigitsArePassed(s, k + 1, m, DIGITS_AFTER_POINTS);
      p := ExponentIsPart(s, m, DIGITS_AFTER_POINTS, n, before.(point := true, fraction := s[k + 1..m]));
      assert s[k..n] == ([s[k]] + s[k + 1..m]) + s[m..n];
    } else {
      p := ExponentIsPart(s, k, state, n, before);
      assert "" + ExponentText(p) == ExponentText(p);
    }
  }

  lemma {:induction false} WholeIsPart(s: string, k: nat, state: nat, n: nat, negative: bool) returns (p: Parts)
    requires k < |s| && IsDigit(s[k]) && state in {MINUS, AFTER_MINUS} && NumberEnd(s, k, state) == Some(n)
    ensures IsScanned(p) && p.negative == negative
    ensures k <= n && Ends(s, n) && s[k..n] == p.whole + FractionText(p)
  {
    hide FractionText, NextState;
    var none := NOTHING.(negative := negative);
    if s[k] == '0' {
      ZeroIsPassed(s, k, state);
      OneChar(s, k);
      NoDigitAfterZero(s, k + 1);
      p := FractionIsPart(s, k + 1, ZERO_FIRST, n, none);
      assert s[k..n] == s[k..k + 1] + s[k + 1..n];
    } else {
      DigitsRun(s, k + 1);
      var m := DigitsEnd(s, k + 1);
      FirstDigitIsPassed(s, k, m, state);
      assert s[k..m][0] == s[k];
      p := FractionIsPart(s, m, DIGITS, n, none.(whole := s[k..m]));
      assert s[k..n] == s[k..m] + s[m..n];
    }
  }

  lemma {:induction false} NoDigitAfterZero(s: string, k: nat)
    requires k <= |s| && NumberEnd(s, k, ZERO_FIRST).Some?
    ensures k < |s| ==> !IsDigit(s[k])
  {
  }

  /** Whatever is scanned as a number is one of this grammar. */
  lemma {:induction false} ScannedIsNumber(s: string, n: nat) returns (p: Parts)
    requires NumberEnd(s, 0, MINUS) == Some(n)
    ensures n <= |s| && IsScanned(p) && s[..n] == Text(p) && Ends(s, n)
  {
    hide FractionText;
    assert s != "" && (IsDigit(s[0]) || s[0] == '-');
    if s[0] == '-' {
      assert NumberEnd(s, 1, AFTER_MINUS) == Some(n);
      assert 1 < |s| && IsNumberChar(s[1]) && NumberEnd(s, Stride(s, 1), NextState(AFTER_MINUS, s[1])) == Some(n);
      assert IsDigit(s[1]);
      p := WholeIsPart(s, 1, AFTER_MINUS, n, true);
      assert s[..n] == "-" + s[1..n];
    } else {
      p := WholeIsPart(s, 0, MINUS, n, false);
      assert s[..n] == s[0..n] == "" + (p.whole + FractionText(p));
    }
  }

  ghost predicate IsNumberText(t: string) { exists p :: IsScanned(p) && Text(p) == t }

  ghost predicate IsStandardText(t: string) { exists p :: IsStandard(p) && Text(p) == t }

  /** Exactly the texts of this grammar are read as numbers, up to where a number has to end. */
  lemma {:induction false} NumberExactly(s: string, n: nat)
    requires n <= |s|
    ensures ParseNumber(s) == Some((Number(s[..n]), s[n..])) <==> Ends(s, n) && IsNumberText(s[..n])
  {
    hide Text, IsScanned, NumberEnd;
    if ParseNumber(s) == Some((Number(s[..n]), s[n..])) {
      var p := ScannedIsNumber(s, n);
    }
    if Ends(s, n) && IsNumberText(s[..n]) {
      var p :| IsScanned(p) && Text(p) == s[..n];
      assert s == s[..n] + s[n..];
      NumberIsScanned(p, s[n..]);
    }
  }

  /** A single zero in front of the mark, which the state machine does not know. */
  predicate ZeroBeforeMark(p: Parts) { p.mark != "" && !p.point && p.whole == "0" }

  /** Every number of the standard is read, but for a zero that has an exponent and no fraction: that one is refused. */
  lemma {:induction false} StandardNumber(p: Parts, rest: string)
    requires IsStandard(p) && Ends(rest, 0)
    ensures ParseNumber(Text(p) + rest) == if ZeroBeforeMark(p) then None else Some((Number(Text(p)), rest))
  {
    var s := Text(p) + rest;
    if ZeroBeforeMark(p) {
      ZeroIsRefused(p, rest);
    } else {
      hide Text;
      NumberIsScanned(p, rest);
      assert s[..|Text(p)|] == Text(p) && s[|Text(p)|..] == rest;
    }
  }

  lemma {:induction false} ZeroIsRefused(p: Parts, rest: string)
    requires IsShaped(p) && ZeroBeforeMark(p)
    ensures ParseNumber(Text(p) + rest).None?
  {
    var s := Text(p) + rest;
    var k := if p.negative then 1 else 0;
    assert s[k] == '0' && s[k + 1] == p.mark[0] && (p.negative ==> s[0] == '-');
    ZeroIsPassed(s, k, if p.negative then AFTER_MINUS else MINUS);
    assert NumberEnd(s, k + 1, ZERO_FIRST) == NumberEnd(s, k + 2, INVALID);
    assert p.negative ==> NumberEnd(s, 0, MINUS) == NumberEnd(s, 1, AFTER_MINUS);
  }

  lemma {:induction false} StandardEndsInDigit(p: Parts)
    requires IsStandard(p)
    ensures Text(p) != "" && IsDigit(Text(p)[|Text(p)| - 1])
  {
    var (t, last) := (Text(p), |Text(p)| - 1);
    if p.mark != "" {
      assert t[last] == p.exponent[|p.exponent| - 1];
    } else if p.point {
      assert t[last] == p.fraction[|p.fraction| - 1];
    } else {
      assert t[last] == p.whole[|p.whole| - 1];
    }
  }

  /** Three texts on which the state machine and the standard differ. */
  lemma {:induction false} WhereTheyDiffer()
    ensures ParseNumber("1.") == Some((Number("1."), "")) && !IsStandardText("1.")
    ensures ParseNumber("1e+") == Some((Number("1e+"), "")) && !IsStandardText("1e+")
    ensures ParseNumber("0e5").None? && IsStandardText("0e5")
  {
    hide NumberEnd;
    var point, sign, zero := NOTHING.(whole := "1", point := true), NOTHING.(whole := "1", mark := "e", sign := "+"),
      NOTHING.(mark := "e", exponent := "5");
    assert Text(point) == "1." && Text(sign) == "1e+" && Text(zero) == "0e5";
    NumberIsScanned(point, "");
    NumberIsScanned(sign, "");
    StandardNumber(zero, "");
    assert "1." + "" == "1." && "1e+" + "" == "1e+" && "0e5" + "" == "0e5";
    NoStandardEnds("1.");
    NoStandardEnds("1e+");
  }

  lemma {:induction false} NoStandardEnds(t: string)
    requires t != "" && !IsDigit(t[|t| - 1])
    ensures !IsStandardText(t)
  {
    hide IsStandard, Text;
    if IsStandardText(t) {
      var p :| IsStandard(p) && Text(p) == t;
      StandardEndsInDigit(p);
    }
  }
}
