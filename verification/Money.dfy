/** Statutory tax in integer paise: `money::taxOn` and `StateMatrix::computeTaxSplit`. */
module Money {
  import opened Prelude

  /** The largest amount in cents, a signed 64-bit number. */
  const CENTS_MAX := 0x7FFF_FFFF_FFFF_FFFF

  /** The largest amount that a document may hold. */
  const CENTS_LIMIT := 1_000_000_000_000_000

  /** The largest rate in basis points, the largest `int`. */
  const RATE_LIMIT := 0x7FFF_FFFF

  /** Arithmetic on doubles, which rounds: what the program takes from the floating-point unit and the C library. */
  datatype Doubles = Doubles(
    /** The product with 100. */
    hundredfold: real -> real,
    plus: (real, real) -> real,
    /** `%.2f`. */
    twoDecimals: real -> string)

  datatype TaxError = NegativeBase | NegativeRate | Overflow

  /** The nearest whole number to x / 10000, halves rounded up. */
  function HalfUp(x: int): int { (x + 5000) / 10000 }

  function TaxOn(base: int, rate: int): Result<int, TaxError> {
    if base < 0 then Err(NegativeBase)
    else if rate < 0 then Err(NegativeRate)
    else if base != 0 && rate > (CENTS_MAX - 5000 - 1) / base then Err(Overflow)
    else Ok((base * rate + 5000) / 10000)
  }

  datatype SupplyType = Intra | Inter

  datatype TaxBreakdown = TaxBreakdown(cgst: int, sgst: int, igst: int, cess: int, totalTax: int, hasCgstSgst: bool,
      hasIgst: bool)

  /** Half a rate, truncated towards zero. */
  function Half(rate: int): int { if rate < 0 then -(-rate / 2) else rate / 2 }

  function ComputeTaxSplit(base: int, rate: int, supply: SupplyType): Result<TaxBreakdown, TaxError> {
    match supply
    case Intra =>
      (match TaxOn(base, Half(rate))
       case Ok(t) => Ok(TaxBreakdown(t, t, 0, 0, t + t, true, false))
       case Err(e) => Err(e))
    case Inter =>
      (match TaxOn(base, rate)
       case Ok(t) => Ok(TaxBreakdown(0, 0, t, 0, t, false, true))
       case Err(e) => Err(e))
  }

  // ---------------------------------------------------------------- exactness

  lemma {:induction false} Mono(a: int, b: int, c: int)
    requires a <= b && 0 <= c
    ensures a * c <= b * c
  {
  }

  /** A quotient bounds a factor exactly as the dividend bounds the product. */
  lemma {:induction false} QuotientGuard(n: int, d: int, x: int)
    requires d > 0
    ensures x > n / d <==> d * x > n
  {
    var q := n / d;
    assert n == d * q + n % d;
    if x <= q {
      Mono(x, q, d);
    } else {
      Mono(q + 1, x, d);
    }
  }

  /**
   * The division in the guard refuses exactly the products that, with the rounding bias, would pass the largest
   * amount but one.
   */
  lemma {:induction false} GuardIsExact(base: int, rate: int)
    requires base >= 0 && rate >= 0
    ensures TaxOn(base, rate).Ok? <==> base * rate + 5000 < CENTS_MAX
    ensures TaxOn(base, rate).Err? ==> TaxOn(base, rate) == Err(Overflow)
  {
    if base != 0 {
      QuotientGuard(CENTS_MAX - 5001, base, rate);
    }
  }

  /**
   * Whenever it does not throw, every intermediate value fits in 64 bits and the result is the exact half-up
   * quotient.
   */
  lemma {:induction false} TaxIsExact(base: int, rate: int)
    requires TaxOn(base, rate).Ok?
    ensures base >= 0 && rate >= 0 && 0 <= base * rate && base * rate + 5000 <= CENTS_MAX
    ensures var t := TaxOn(base, rate).value;
            0 <= t <= CENTS_MAX / 10000 && 10000 * t - 5000 <= base * rate < 10000 * t + 5000
  {
    GuardIsExact(base, rate);
    assert base * rate >= 0 by {
      Mono(0, base, rate);
    }
  }

  /** It throws exactly for a negative base, a negative rate, or a product that does not fit. */
  lemma {:induction false} WhenTaxThrows(base: int, rate: int)
    ensures TaxOn(base, rate) == Err(NegativeBase) <==> base < 0
    ensures TaxOn(base, rate) == Err(NegativeRate) <==> base >= 0 && rate < 0
    ensures TaxOn(base, rate) == Err(Overflow) <==> base >= 0 && rate >= 0 && base * rate + 5000 >= CENTS_MAX
  {
    if base >= 0 && rate >= 0 {
      GuardIsExact(base, rate);
    }
  }

  /** The parts add up to the total, and none of them or their sum leaves 64 bits. */
  lemma {:induction false} SplitAddsUp(base: int, rate: int, supply: SupplyType)
    requires ComputeTaxSplit(base, rate, supply).Ok?
    ensures var b := ComputeTaxSplit(base, rate, supply).value;
            && b.totalTax == b.igst + b.cgst + b.sgst + b.cess && b.cgst == b.sgst && b.cess == 0
            && 0 <= b.cgst && 0 <= b.igst && b.totalTax <= CENTS_MAX
            && (if supply.Intra? then b.igst == 0 && b.cgst == HalfUp(base * Half(rate))
                else b.cgst == 0 && b.igst == HalfUp(base * rate))
            && b.hasCgstSgst == supply.Intra? && b.hasIgst == supply.Inter?
  {
    TaxIsExact(base, if supply.Intra? then Half(rate) else rate);
  }

  // ---------------------------------------------------------------- intra-state against inter-state

  /** For an even rate the two halves together are within one paisa of the whole. */
  lemma {:induction false} EvenRates(base: int, rate: int)
    requires rate % 2 == 0 && ComputeTaxSplit(base, rate, Intra).Ok? && ComputeTaxSplit(base, rate, Inter).Ok?
    ensures var (a, b) := (ComputeTaxSplit(base, rate, Intra).value, ComputeTaxSplit(base, rate, Inter).value);
            -1 <= a.cgst + a.sgst - b.igst <= 1
  {
    SplitAddsUp(base, rate, Intra);
    SplitAddsUp(base, rate, Inter);
    TaxIsExact(base, rate);
    assert base * rate == 2 * (base * (rate / 2)) by {
      assert rate == 2 * (rate / 2);
    }
  }

  function CeilDiv(n: nat, d: nat): nat
    requires d > 0
  {
    (n + d - 1) / d
  }

  /** For an odd rate the halves lose half a basis point each, up to rounding. */
  lemma {:induction false} OddRates(base: int, rate: int)
    requires rate % 2 == 1 && ComputeTaxSplit(base, rate, Intra).Ok? && ComputeTaxSplit(base, rate, Inter).Ok?
    ensures base >= 0
    ensures var (a, b) := (ComputeTaxSplit(base, rate, Intra).value, ComputeTaxSplit(base, rate, Inter).value);
            base / 10000 - 1 <= b.igst - (a.cgst + a.sgst) <= CeilDiv(base, 10000) + 1
  {
    SplitAddsUp(base, rate, Intra);
    SplitAddsUp(base, rate, Inter);
    TaxIsExact(base, rate);
    assert base * rate == 2 * (base * (rate / 2)) + base by {
      assert rate == 2 * (rate / 2) + 1;
    }
  }

  /** Both bounds for even rates are reached. */
  lemma {:induction false} EvenBoundsAreReached()
    ensures ComputeTaxSplit(50, 200, Intra).value.cgst == 1 && ComputeTaxSplit(50, 200, Inter).value.igst == 1
    ensures ComputeTaxSplit(49, 200, Intra).value.cgst == 0 && ComputeTaxSplit(49, 200, Inter).value.igst == 1
  {
  }

  // ---------------------------------------------------------------- many lines

  /** Sum of the first `n` numbers. */
  function Sum(s: seq<int>, n: nat): int
    requires n <= |s|
  {
    if n == 0 then 0 else Sum(s, n - 1) + s[n - 1]
  }

  /** The tax of the first `n` bases, each rounded on its own. */
  function SumOfTaxes(bases: seq<int>, rate: int, n: nat): int
    requires n <= |bases|
  {
    if n == 0 then 0 else SumOfTaxes(bases, rate, n - 1) + HalfUp(bases[n - 1] * rate)
  }

  /** Before the last rounding, `n` lines stay within `5000 n` ten-thousandths. */
  lemma {:induction false} ErrorsAdd(bases: seq<int>, rate: int, n: nat)
    requires n <= |bases|
    ensures var d := 10000 * SumOfTaxes(bases, rate, n) - Sum(bases, n) * rate;
            if n == 0 then d == 0 else -5000 * n < d <= 5000 * n
  {
    if n > 0 {
      ErrorsAdd(bases, rate, n - 1);
      Distribute(Sum(bases, n - 1), bases[n - 1], rate);
      RoundingError(bases[n - 1] * rate);
    } else {
      assert Sum(bases, 0) * rate == 0;
    }
  }

  lemma {:induction false} Distribute(a: int, b: int, c: int)
    ensures (a + b) * c == a * c + b * c
  {
  }

  lemma {:induction false} RoundingError(x: int)
    ensures -5000 < 10000 * HalfUp(x) - x <= 5000
  {
  }

  /** The tax rounded line by line differs from the tax on the total by at most half a paisa a line. */
  lemma {:induction false} LinewiseRounding(bases: seq<int>, rate: int)
    ensures var n := |bases|; -n <= 2 * (SumOfTaxes(bases, rate, n) - HalfUp(Sum(bases, n) * rate)) <= n
  {
    var x := Sum(bases, |bases|) * rate;
    ErrorsAdd(bases, rate, |bases|);
    RoundingError(x);
    if |bases| == 0 {
      assert HalfUp(0) == 0;
    }
  }
}
