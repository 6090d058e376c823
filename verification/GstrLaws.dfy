/** What holds between the GST returns: conservation, independence of order, and rounding bounds. */
module GstrLaws {
  import opened Prelude
  import opened Money
  import opened Gstr

  // ---------------------------------------------------------------- conservation

  /** Everything the first `n` lines charge. */
  function Grand(sales: seq<Sale>, n: nat): Totals
    requires n <= |sales|
  {
    if n == 0 then ZERO else Grand(sales, n - 1).Plus(sales[n - 1].Charge())
  }

  /** What the first `n` lines of one supply type charge: a bucket of GSTR-3B. */
  function Bucket(sales: seq<Sale>, n: nat, supply: SupplyType): Totals
    requires n <= |sales|
  {
    if n == 0 then ZERO
    else if sales[n - 1].supply == supply then Bucket(sales, n - 1, supply).Plus(sales[n - 1].Charge())
    else Bucket(sales, n - 1, supply)
  }

  /** A bucket is printed when it has a line. */
  predicate HasSupply(sales: seq<Sale>, n: nat, supply: SupplyType)
    requires n <= |sales|
  {
    exists k :: 0 <= k < n && sales[k].supply == supply
  }

  /** The columns of the first `n` HSN rows. */
  function SumRows(rows: seq<HsnRow>, n: nat): Totals
    requires n <= |rows|
  {
    if n == 0 then ZERO else SumRows(rows, n - 1).Plus(rows[n - 1].totals)
  }

  lemma {:induction false} BucketsAddUp(sales: seq<Sale>, n: nat)
    requires n <= |sales|
    ensures Bucket(sales, n, Intra).Plus(Bucket(sales, n, Inter)) == Grand(sales, n)
  {
    hide Sale.Charge, Totals.Plus;
    if n > 0 {
      BucketsAddUp(sales, n - 1);
      PlusCommutes(Bucket(sales, n - 1, Intra), Bucket(sales, n - 1, Inter), sales[n - 1].Charge());
    } else {
      PlusCommutes(ZERO, ZERO, ZERO);
    }
  }

  lemma {:induction false} PlusCommutes(a: Totals, b: Totals, t: Totals)
    ensures a.Plus(t).Plus(b) == a.Plus(b).Plus(t) == a.Plus(b.Plus(t))
    ensures ZERO.Plus(t) == t
  {
  }

  lemma {:induction false} AbsentBucket(sales: seq<Sale>, n: nat, supply: SupplyType)
    requires n <= |sales| && !HasSupply(sales, n, supply)
    ensures Bucket(sales, n, supply) == ZERO
  {
    if n > 0 {
      assert sales[n - 1].supply != supply;
      AbsentBucket(sales, n - 1, supply);
    }
  }

  lemma {:induction false} SumAfterUpdate(rows: seq<HsnRow>, p: nat, row: HsnRow, t: Totals, n: nat)
    requires p < |rows| && n <= |rows| && row.totals == rows[p].totals.Plus(t)
    ensures SumRows(rows[p := row], n) == if n <= p then SumRows(rows, n) else SumRows(rows, n).Plus(t)
  {
    if n > 0 {
      SumAfterUpdate(rows, p, row, t, n - 1);
    }
  }

  lemma {:induction false} SumAfterInsert(rows: seq<HsnRow>, p: nat, row: HsnRow, n: nat)
    requires p <= |rows| && n <= |rows| + 1
    ensures var after := rows[..p] + [row] + rows[p..];
            SumRows(after, n) == if n <= p then SumRows(rows, n) else SumRows(rows, n - 1).Plus(row.totals)
  {
    if n > 0 {
      SumAfterInsert(rows, p, row, n - 1);
    }
  }

  lemma {:induction false} RecordAdds(rows: seq<HsnRow>, key: Key, t: Totals)
    ensures var after := Record(rows, key, t); SumRows(after, |after|) == SumRows(rows, |rows|).Plus(t)
  {
    hide SumRows, Position;
    var p := Position(rows, key, 0);
    if p < |rows| && rows[p].key == key {
      SumAfterUpdate(rows, p, HsnRow(key, rows[p].totals.Plus(t)), t, |rows|);
    } else {
      SumAfterInsert(rows, p, HsnRow(key, ZERO.Plus(t)), |rows| + 1);
    }
  }

  lemma {:induction false} HsnConserves(sales: seq<Sale>, n: nat)
    requires n <= |sales|
    ensures SumRows(HsnRows(sales, n), |HsnRows(sales, n)|) == Grand(sales, n)
  {
    hide SumRows, Record;
    if n > 0 {
      HsnConserves(sales, n - 1);
      RecordAdds(HsnRows(sales, n - 1), sales[n - 1].RowKey(), sales[n - 1].Charge());
    } else {
      EmptySum();
    }
  }

  lemma {:induction false} EmptySum()
    ensures SumRows([], 0) == ZERO
  {
  }

  /**
   * Each money column has the same sum over the HSN rows, over the printed GSTR-3B rows, and over the splits of the
   * lines.
   */
  lemma {:induction false} TablesConserve(ms: seq<Invoice>)
    ensures var s := Sales(ms, |ms|);
            var (n, rows) := (|s|, HsnRows(s, |s|));
            && SumRows(rows, |rows|) == Grand(s, n)
            && (if HasSupply(s, n, Intra) then Bucket(s, n, Intra) else ZERO)
               .Plus(if HasSupply(s, n, Inter) then Bucket(s, n, Inter) else ZERO)
               == Grand(s, n)
  {
    var s := Sales(ms, |ms|);
    HsnConserves(s, |s|);
    BucketsAddUp(s, |s|);
    if !HasSupply(s, |s|, Intra) {
      AbsentBucket(s, |s|, Intra);
    }
    if !HasSupply(s, |s|, Inter) {
      AbsentBucket(s, |s|, Inter);
    }
  }

  // ---------------------------------------------------------------- order

  lemma {:induction false} TotalsAppend(a: seq<Sale>, b: seq<Sale>, n: nat, key: Key)
    requires n <= |b|
    ensures TotalsFor(a + b, |a| + n, key) == TotalsFor(a, |a|, key).Plus(TotalsFor(b, n, key))
  {
    if n > 0 {
      TotalsAppend(a, b, n - 1, key);
    } else {
      TotalsPrefix(a, b, |a|, key);
    }
  }

  lemma {:induction false} TotalsPrefix(a: seq<Sale>, b: seq<Sale>, n: nat, key: Key)
    requires n <= |a|
    ensures TotalsFor(a + b, n, key) == TotalsFor(a, n, key)
  {
    if n > 0 {
      TotalsPrefix(a, b, n - 1, key);
    }
  }

  lemma {:induction false} BucketAppend(a: seq<Sale>, b: seq<Sale>, n: nat, supply: SupplyType)
    requires n <= |b|
    ensures Bucket(a + b, |a| + n, supply) == Bucket(a, |a|, supply).Plus(Bucket(b, n, supply))
  {
    if n > 0 {
      BucketAppend(a, b, n - 1, supply);
    } else {
      BucketPrefix(a, b, |a|, supply);
    }
  }

  lemma {:induction false} BucketPrefix(a: seq<Sale>, b: seq<Sale>, n: nat, supply: SupplyType)
    requires n <= |a|
    ensures Bucket(a + b, n, supply) == Bucket(a, n, supply)
  {
    if n > 0 {
      BucketPrefix(a, b, n - 1, supply);
    }
  }

  /** Without element `p`. */
  function Without<T>(s: seq<T>, p: nat): seq<T>
    requires p < |s|
  {
    s[..p] + s[p + 1..]
  }

  lemma {:induction false} WithoutBag<T>(s: seq<T>, p: nat)
    requires p < |s|
    ensures multiset(Without(s, p)) == multiset(s) - multiset{s[p]}
  {
    assert s == s[..p] + ([s[p]] + s[p + 1..]);
    assert multiset(s) == multiset(s[..p]) + multiset{s[p]} + multiset(s[p + 1..]);
  }

  /** Taking one line out takes out exactly its charge. */
  lemma {:induction false} WithoutTotals(s: seq<Sale>, p: nat, key: Key)
    requires p < |s|
    ensures TotalsFor(s, |s|, key) ==
            TotalsFor(Without(s, p), |s| - 1, key).Plus(if s[p].RowKey() == key then s[p].Charge() else ZERO)
  {
    hide TotalsFor, Bucket, Sale.Charge, Sale.RowKey;
    var (a, one, b) := (s[..p], [s[p]], s[p + 1..]);
    assert s == a + (one + b);
    OneTotals(s[p], key, Intra);
    TotalsAppend(a, one + b, |one + b|, key);
    TotalsAppend(one, b, |b|, key);
    TotalsAppend(a, b, |b|, key);
  }

  lemma {:induction false} WithoutBucket(s: seq<Sale>, p: nat, supply: SupplyType)
    requires p < |s|
    ensures Bucket(s, |s|, supply) ==
            Bucket(Without(s, p), |s| - 1, supply).Plus(if s[p].supply == supply then s[p].Charge() else ZERO)
  {
    hide TotalsFor, Bucket, Sale.Charge, Sale.RowKey;
    var (a, one, b) := (s[..p], [s[p]], s[p + 1..]);
    assert s == a + (one + b);
    OneTotals(s[p], s[p].RowKey(), supply);
    BucketAppend(a, one + b, |one + b|, supply);
    BucketAppend(one, b, |b|, supply);
    BucketAppend(a, b, |b|, supply);
  }

  lemma {:induction false} OneTotals(s: Sale, key: Key, supply: SupplyType)
    ensures TotalsFor([s], 1, key) == if s.RowKey() == key then s.Charge() else ZERO
    ensures Bucket([s], 1, supply) == if s.supply == supply then s.Charge() else ZERO
  {
    assert TotalsFor([s], 0, key) == ZERO && Bucket([s], 0, supply) == ZERO;
  }

  lemma {:induction false} SameBagTotals(s: seq<Sale>, u: seq<Sale>, key: Key, supply: SupplyType)
    requires multiset(s) == multiset(u)
    ensures TotalsFor(s, |s|, key) == TotalsFor(u, |u|, key)
    ensures Bucket(s, |s|, supply) == Bucket(u, |u|, supply)
    decreases |s|
  {
    hide TotalsFor, Bucket;
    SameBagLength(s, u);
    if s == [] {
      assert u == [];
    } else {
      var p := SharedElement(s, u);
      WithoutBag(s, 0);
      WithoutBag(u, p);
      SameBagTotals(Without(s, 0), Without(u, p), key, supply);
      WithoutTotals(s, 0, key);
      WithoutTotals(u, p, key);
      WithoutBucket(s, 0, supply);
      WithoutBucket(u, p, supply);
    }
  }

  lemma {:induction false} SameBagLength<T>(s: seq<T>, u: seq<T>)
    requires multiset(s) == multiset(u)
    ensures |s| == |u|
  {
    assert |multiset(s)| == |s| && |multiset(u)| == |u|;
  }

  lemma {:induction false} SharedElement<T>(s: seq<T>, u: seq<T>) returns (p: nat)
    requires s != [] && multiset(s) == multiset(u)
    ensures p < |u| && u[p] == s[0]
  {
    assert s[0] in multiset(s);
    assert s[0] in multiset(u);
    p :| p < |u| && u[p] == s[0];
  }

  lemma {:induction false} SalesAppend(a: seq<Invoice>, b: seq<Invoice>, n: nat)
    requires n <= |b|
    ensures Sales(a + b, |a| + n) == Sales(a, |a|) + Sales(b, n)
  {
    if n > 0 {
      SalesAppend(a, b, n - 1);
      Concat3(Sales(a, |a|), Sales(b, n - 1), SalesOf(b[n - 1]));
    } else {
      SalesOfPrefix(a, b, |a|);
    }
  }

  lemma {:induction false} SalesOfPrefix(a: seq<Invoice>, b: seq<Invoice>, n: nat)
    requires n <= |a|
    ensures Sales(a + b, n) == Sales(a, n)
  {
    if n > 0 {
      SalesOfPrefix(a, b, n - 1);
    }
  }

  lemma {:induction false} WithoutSales(ms: seq<Invoice>, p: nat)
    requires p < |ms|
    ensures multiset(Sales(ms, |ms|)) == multiset(Sales(Without(ms, p), |ms| - 1)) + multiset(SalesOf(ms[p]))
  {
    hide Sales, SalesOf;
    var (a, one, b) := (ms[..p], [ms[p]], ms[p + 1..]);
    assert ms == a + (one + b);
    SalesAppend(a, one + b, |one + b|);
    SalesAppend(one, b, |b|);
    SalesAppend(a, b, |b|);
    OneInvoice(ms[p]);
    BagOfThree(Sales(a, |a|), SalesOf(ms[p]), Sales(b, |b|));
  }

  lemma {:induction false} BagOfThree<T>(a: seq<T>, b: seq<T>, c: seq<T>)
    ensures multiset(a + (b + c)) == multiset(a + c) + multiset(b)
  {
  }

  lemma {:induction false} OneInvoice(m: Invoice)
    ensures Sales([m], 1) == SalesOf(m)
  {
    assert Sales([m], 0) == [];
  }

  lemma {:induction false} SameBagSales(ms: seq<Invoice>, ns: seq<Invoice>)
    requires multiset(ms) == multiset(ns)
    ensures multiset(Sales(ms, |ms|)) == multiset(Sales(ns, |ns|))
    decreases |ms|
  {
    hide Sales, SalesOf;
    SameBagLength(ms, ns);
    if ms == [] {
      assert ns == [];
    } else {
      var p := SharedElement(ms, ns);
      WithoutBag(ms, 0);
      WithoutBag(ns, p);
      SameBagSales(Without(ms, 0), Without(ns, p));
      WithoutSales(ms, 0);
      WithoutSales(ns, p);
    }
  }

  lemma {:induction false} SameBagOccurs(s: seq<Sale>, u: seq<Sale>, key: Key)
    requires multiset(s) == multiset(u) && Occurs(s, |s|, key)
    ensures Occurs(u, |u|, key)
  {
    var k :| 0 <= k < |s| && s[k].RowKey() == key;
    assert s[k] in multiset(u);
  }

  /** The HSN table does not depend on the order of the invoices. */
  lemma {:induction false} OrderIsIrrelevant(ms: seq<Invoice>, ns: seq<Invoice>)
    requires multiset(ms) == multiset(ns)
    ensures var (s, u) := (Sales(ms, |ms|), Sales(ns, |ns|));
            && HsnRows(s, |s|) == HsnRows(u, |u|)
            && Bucket(s, |s|, Intra) == Bucket(u, |u|, Intra) && Bucket(s, |s|, Inter) == Bucket(u, |u|, Inter)
  {
    hide TotalsFor, Bucket, Sales, Occurs;
    SameBagSales(ms, ns);
    var (s, u) := (Sales(ms, |ms|), Sales(ns, |ns|));
    HsnRowsIsSummary(s, |s|);
    HsnRowsIsSummary(u, |u|);
    forall key: Key
      ensures Occurs(s, |s|, key) <==> Occurs(u, |u|, key)
      ensures TotalsFor(s, |s|, key) == TotalsFor(u, |u|, key)
    {
      SameBagTotals(s, u, key, Intra);
      if Occurs(s, |s|, key) {
        SameBagOccurs(s, u, key);
      }
      if Occurs(u, |u|, key) {
        SameBagOccurs(u, s, key);
      }
    }
    SummaryIsUnique(HsnRows(s, |s|), s, HsnRows(u, |u|), u);
    SameBagTotals(s, u, Key("", 0), Intra);
    SameBagTotals(s, u, Key("", 0), Inter);
  }

  // ---------------------------------------------------------------- rounding

  /** The taxable values of the first `n` lines with this key and supply type. */
  function BasesOf(sales: seq<Sale>, n: nat, key: Key, supply: SupplyType): seq<int>
    requires n <= |sales|
  {
    if n == 0 then []
    else if sales[n - 1].RowKey() == key && sales[n - 1].supply == supply then
      BasesOf(sales, n - 1, key, supply) + [sales[n - 1].line.base]
    else BasesOf(sales, n - 1, key, supply)
  }

  lemma {:induction false} SumOfTaxesPrefix(bases: seq<int>, more: seq<int>, rate: int, n: nat)
    requires n <= |bases|
    ensures SumOfTaxes(bases + more, rate, n) == SumOfTaxes(bases, rate, n) && Sum(bases + more, n) == Sum(bases, n)
  {
    if n > 0 {
      SumOfTaxesPrefix(bases, more, rate, n - 1);
    }
  }

  lemma {:induction false} SumOfTaxesNext(bases: seq<int>, base: int, rate: int)
    ensures SumOfTaxes(bases + [base], rate, |bases| + 1) == SumOfTaxes(bases, rate, |bases|) + HalfUp(base * rate)
    ensures Sum(bases + [base], |bases| + 1) == Sum(bases, |bases|) + base
  {
    SumOfTaxesPrefix(bases, [base], rate, |bases|);
  }

  lemma {:induction false} ChargeIsExact(s: Sale)
    requires s.Split().Ok?
    ensures var t := s.Charge();
            && t.taxable == s.line.base && t.cess == 0 && t.cgst == t.sgst && t.NonNegative()
            && t.igst == (if s.supply == Inter then HalfUp(s.line.base * s.line.rate) else 0)
            && t.cgst == (if s.supply == Intra then HalfUp(s.line.base * (s.line.rate / 2)) else 0)
            && t.TotalTax() == s.Split().value.totalTax
  {
    SplitAddsUp(s.line.base, s.line.rate, s.supply);
  }

  /** The columns of a row, line by line. */
  lemma {:induction false} RowIsSumOfTaxes(sales: seq<Sale>, n: nat, key: Key)
    requires n <= |sales| && FirstError(sales, n).None?
    ensures var (t, inter, intra) := (TotalsFor(sales, n, key), BasesOf(sales, n, key, Inter),
        BasesOf(sales, n, key, Intra));
            && t.igst == SumOfTaxes(inter, key.rate, |inter|)
            && t.cgst == SumOfTaxes(intra, key.rate / 2, |intra|) && t.sgst == t.cgst && t.cess == 0
            && t.taxable == Sum(inter, |inter|) + Sum(intra, |intra|) && t.NonNegative()
  {
    hide HalfUp, SumOfTaxes, Sum;
    if n > 0 {
      RowIsSumOfTaxes(sales, n - 1, key);
      var s := sales[n - 1];
      ChargeIsExact(s);
      SumOfTaxesNext(BasesOf(sales, n - 1, key, Inter), s.line.base, key.rate);
      SumOfTaxesNext(BasesOf(sales, n - 1, key, Intra), s.line.base, key.rate / 2);
    } else {
      EmptySums(key.rate);
      EmptySums(key.rate / 2);
    }
  }

  lemma {:induction false} EmptySums(rate: int)
    ensures SumOfTaxes([], rate, 0) == 0 && Sum([], 0) == 0
  {
  }

  /** In every HSN row the accumulated tax stays within half a paisa a line of the tax on the accumulated value. */
  lemma {:induction false} HsnRowRounding(sales: seq<Sale>, i: nat)
    requires FirstError(sales, |sales|).None? && i < |HsnRows(sales, |sales|)|
    ensures var (n, row) := (|sales|, HsnRows(sales, |sales|)[i]);
            var (inter, intra) := (BasesOf(sales, n, row.key, Inter), BasesOf(sales, n, row.key, Intra));
            && row.totals.taxable == Sum(inter, |inter|) + Sum(intra, |intra|)
            && -|inter| <= 2 * (row.totals.igst - HalfUp(Sum(inter, |inter|) * row.key.rate)) <= |inter|
            && -|intra| <= 2 * (row.totals.cgst - HalfUp(Sum(intra, |intra|) * (row.key.rate / 2))) <= |intra|
            && row.totals.cgst == row.totals.sgst && row.totals.cess == 0
  {
    hide Sum, HalfUp, SumOfTaxes, BasesOf, TotalsFor, Occurs, Sorted, HasRow;
    HsnRowsIsSummary(sales, |sales|);
    var row := HsnRows(sales, |sales|)[i];
    RowIsSumOfTaxes(sales, |sales|, row.key);
    LinewiseRounding(BasesOf(sales, |sales|, row.key, Inter), row.key.rate);
    LinewiseRounding(BasesOf(sales, |sales|, row.key, Intra), row.key.rate / 2);
  }

  lemma {:induction false} BucketIsNonNegative(sales: seq<Sale>, n: nat, supply: SupplyType)
    requires n <= |sales| && FirstError(sales, n).None?
    ensures Bucket(sales, n, supply).NonNegative() && Bucket(sales, n, supply).TotalTax() >= 0
  {
    if n > 0 {
      BucketIsNonNegative(sales, n - 1, supply);
      ChargeIsExact(sales[n - 1]);
    }
  }

  // ---------------------------------------------------------------- 64 bits

  predicate Below(a: Totals, b: Totals) {
    a.taxable <= b.taxable && a.igst <= b.igst && a.cgst <= b.cgst && a.sgst <= b.sgst && a.cess <= b.cess
  }

  lemma {:induction false} PartsAreBelow(sales: seq<Sale>, n: nat, key: Key, supply: SupplyType)
    requires n <= |sales| && FirstError(sales, n).None?
    ensures Below(TotalsFor(sales, n, key), Grand(sales, n)) && Below(Bucket(sales, n, supply), Grand(sales, n))
  {
    hide Sale.Charge;
    if n > 0 {
      PartsAreBelow(sales, n - 1, key, supply);
      ChargeIsExact(sales[n - 1]);
    }
  }

  lemma {:induction false} GrandIsBounded(sales: seq<Sale>, n: nat)
    requires n <= |sales| && FirstError(sales, n).None? && forall k :: 0 <= k < n ==> sales[k].line.base <= CENTS_LIMIT
    ensures var t := Grand(sales, n);
            && t.NonNegative() && t.taxable <= n * CENTS_LIMIT && t.TotalTax() <= n * (2 * (CENTS_MAX / 10000))
  {
    hide Sale.Charge;
    if n > 0 {
      GrandIsBounded(sales, n - 1);
      ChargeIsExact(sales[n - 1]);
      SplitIsSmall(sales[n - 1]);
    }
  }

  lemma {:induction false} SplitIsSmall(s: Sale)
    requires s.Split().Ok?
    ensures s.Charge().TotalTax() <= 2 * (CENTS_MAX / 10000)
  {
    TaxIsExact(s.line.base, if s.supply.Intra? then Half(s.line.rate) else s.line.rate);
  }

  /** For a session of up to 3000 validated lines no total of any table leaves 64 bits, so unbounded sums are exact. */
  lemma {:induction false} TotalsFit(sales: seq<Sale>, key: Key, supply: SupplyType)
    requires FirstError(sales, |sales|).None? && |sales| <= 3000 && forall k :: 0 <= k < |sales| ==>
        sales[k].line.base <= CENTS_LIMIT
    ensures var g := Grand(sales, |sales|);
            && g.taxable + g.TotalTax() <= CENTS_MAX && g.NonNegative()
            && Below(TotalsFor(sales, |sales|, key), g) && Below(Bucket(sales, |sales|, supply), g)
  {
    hide Grand, TotalsFor, Bucket, Below, FirstError, Totals.NonNegative, Totals.TotalTax;
    GrandIsBounded(sales, |sales|);
    PartsAreBelow(sales, |sales|, key, supply);
  }
}
