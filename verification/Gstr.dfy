/** The three GST returns of `GSTRGenerator`, folded from the same line items. */
module Gstr {
  import opened Prelude
  import opened Money
  import opened Csv

  // ---------------------------------------------------------------- invoices

  datatype Classification = B2B | B2C | Undetermined

  datatype LineItem = LineItem(hsn: string, description: string, base: nat, rate: nat, quantity: Option<real>,
                               unitPrice: Option<nat>)
  {
    /** `quantity.value_or(0.0)`. */
    function Pieces(): real { if quantity.Some? then quantity.value else 0.0 }
  }

  /** The fields of a validated document that the returns read. */
  datatype Invoice = Invoice(classification: Classification, supply: SupplyType, number: string, date: string,
                             buyerGstin: Option<string>, placeOfSupply: string, supplierState: string,
                             lines: seq<LineItem>)

  /** A line item together with the supply type of its invoice. */
  datatype Sale = Sale(supply: SupplyType, line: LineItem) {
    function Split(): Result<TaxBreakdown, TaxError> { ComputeTaxSplit(line.base, line.rate, supply) }

    function RowKey(): Key { Key(line.hsn, line.rate) }

    /** What the line adds to an aggregate; nothing if its tax throws, in which case no return is produced. */
    function Charge(): Totals {
      match Split()
      case Ok(b) => Totals(line.base, b.igst, b.cgst, b.sgst, b.cess)
      case Err(_) => ZERO
    }
  }

  /** The money of a `TaxAggregate`. */
  datatype Totals = Totals(taxable: int, igst: int, cgst: int, sgst: int, cess: int) {
    function TotalTax(): int { igst + cgst + sgst + cess }

    function Plus(t: Totals): Totals {
      Totals(taxable + t.taxable, igst + t.igst, cgst + t.cgst, sgst + t.sgst, cess + t.cess)
    }

    function Add(base: int, split: TaxBreakdown): Totals {
      Totals(taxable + base, igst + split.igst, cgst + split.cgst, sgst + split.sgst, cess + split.cess)
    }

    predicate NonNegative() { taxable >= 0 && igst >= 0 && cgst >= 0 && sgst >= 0 && cess >= 0 }
  }

  const ZERO := Totals(0, 0, 0, 0, 0)

  function SalesOf(m: Invoice): (s: seq<Sale>)
    ensures |s| == |m.lines|
  {
    seq(|m.lines|, j requires 0 <= j < |m.lines| => Sale(m.supply, m.lines[j]))
  }

  /** The lines of the first `n` invoices, in input order. */
  function Sales(ms: seq<Invoice>, n: nat): seq<Sale>
    requires n <= |ms|
  {
    if n == 0 then [] else Sales(ms, n - 1) + SalesOf(ms[n - 1])
  }

  lemma {:induction false} SalesPrefix(ms: seq<Invoice>, m: nat, n: nat)
    requires m <= n <= |ms|
    ensures Sales(ms, m) <= Sales(ms, n)
  {
    if m < n {
      SalesPrefix(ms, m, n - 1);
    }
  }

  /** Line `j` of invoice `i` stands after the lines of the invoices before it. */
  lemma {:induction false} SaleAt(ms: seq<Invoice>, i: nat, j: nat)
    requires i < |ms| && j < |ms[i].lines|
    ensures |Sales(ms, i)| + j < |Sales(ms, |ms|)|
    ensures Sales(ms, |ms|)[|Sales(ms, i)| + j] == Sale(ms[i].supply, ms[i].lines[j])
  {
    SalesPrefix(ms, i + 1, |ms|);
    var k := |Sales(ms, i)| + j;
    assert Sales(ms, i + 1)[k] == SalesOf(ms[i])[j];
    assert Sales(ms, |ms|)[k] == Sales(ms, i + 1)[k];
  }

  /** The first exception among the first `n` lines. */
  function FirstError(sales: seq<Sale>, n: nat): Option<TaxError>
    requires n <= |sales|
  {
    if n == 0 then None
    else if FirstError(sales, n - 1).Some? then FirstError(sales, n - 1)
    else match sales[n - 1].Split() case Ok(_) => None case Err(e) => Some(e)
  }

  lemma {:induction false} ErrorStays(sales: seq<Sale>, m: nat, n: nat)
    requires m <= n <= |sales|
    ensures FirstError(sales, m).Some? ==> FirstError(sales, n) == FirstError(sales, m)
  {
    if m < n {
      ErrorStays(sales, m, n - 1);
    }
  }

  // ---------------------------------------------------------------- the order of the HSN table

  datatype Key = Key(hsn: string, rate: nat)

  /** `a < b` for byte strings that agree before position `k`. */
  predicate LessText(a: string, b: string, k: nat)
    requires k <= |a| && k <= |b|
    decreases |a| - k
  {
    if k == |b| then false
    else if k == |a| then true
    else if a[k] != b[k] then a[k] < b[k]
    else LessText(a, b, k + 1)
  }

  /** The order of `std::pair<std::string, int>`. */
  predicate Less(a: Key, b: Key) {
    LessText(a.hsn, b.hsn, 0) || (!LessText(b.hsn, a.hsn, 0) && a.rate < b.rate)
  }

  lemma {:induction false} LessTextTransitive(a: string, b: string, c: string, k: nat)
    requires k <= |a| && k <= |b| && k <= |c| && LessText(a, b, k) && LessText(b, c, k)
    ensures LessText(a, c, k)
    decreases |a| - k
  {
    if k < |a| && k < |b| && k < |c| && a[k] == b[k] == c[k] {
      LessTextTransitive(a, b, c, k + 1);
    }
  }

  lemma {:induction false} LessTextTotal(a: string, b: string, k: nat)
    requires k <= |a| && k <= |b| && a[..k] == b[..k]
    ensures LessText(a, b, k) ==> !LessText(b, a, k)
    ensures a == b <==> !LessText(a, b, k) && !LessText(b, a, k)
    decreases |a| - k
  {
    if k < |a| && k < |b| && a[k] == b[k] {
      assert a[..k + 1] == a[..k] + [a[k]] && b[..k + 1] == b[..k] + [b[k]];
      LessTextTotal(a, b, k + 1);
    } else if k == |a| == |b| {
      assert a == a[..k] && b == b[..k];
    } else if k < |a| && k < |b| {
      assert a[k] != b[k];
    }
  }

  lemma {:induction false} LessIsOrder(a: Key, b: Key, c: Key)
    ensures Less(a, b) ==> !Less(b, a)
    ensures a == b <==> !Less(a, b) && !Less(b, a)
    ensures Less(a, b) && Less(b, c) ==> Less(a, c)
  {
    LessTextTotal(a.hsn, b.hsn, 0);
    LessTextTotal(b.hsn, c.hsn, 0);
    LessTextTotal(a.hsn, c.hsn, 0);
    if LessText(a.hsn, b.hsn, 0) && LessText(b.hsn, c.hsn, 0) {
      LessTextTransitive(a.hsn, b.hsn, c.hsn, 0);
    }
  }

  /** A text comes before another if it is a proper beginning of it, or has the smaller character where they part. */
  ghost predicate Precedes(a: string, b: string) { exists n: nat :: PartsAt(a, b, n) }

  predicate PartsAt(a: string, b: string, n: nat) {
    n <= |a| && n < |b| && a[..n] == b[..n] && (n == |a| || a[n] < b[n])
  }

  lemma {:induction false} LessTextParts(a: string, b: string, k: nat)
    requires k <= |a| && k <= |b| && a[..k] == b[..k]
    ensures LessText(a, b, k) <==> Precedes(a, b)
    decreases |a| - k
  {
    if k < |a| && k < |b| && a[k] == b[k] {
      assert a[..k + 1] == a[..k] + [a[k]] && b[..k + 1] == b[..k] + [b[k]];
      LessTextParts(a, b, k + 1);
    } else {
      if LessText(a, b, k) {
        assert PartsAt(a, b, k);
      }
      if Precedes(a, b) {
        var n: nat :| PartsAt(a, b, n);
        SameBefore(a, b, if n < k then k else n);
      }
    }
  }

  lemma {:induction false} SameBefore(a: string, b: string, n: nat)
    requires n <= |a| && n <= |b| && a[..n] == b[..n]
    ensures forall i :: 0 <= i < n ==> a[i] == b[i]
  {
    forall i | 0 <= i < n ensures a[i] == b[i] {
      assert a[i] == a[..n][i];
    }
  }

  /** The rows are sorted by code, and rows of one code by rate. */
  lemma {:induction false} LessIsLexicographic(a: Key, b: Key)
    ensures Less(a, b) <==> Precedes(a.hsn, b.hsn) || (a.hsn == b.hsn && a.rate < b.rate)
  {
    hide Precedes;
    LessTextParts(a.hsn, b.hsn, 0);
    LessTextParts(b.hsn, a.hsn, 0);
    LessTextTotal(a.hsn, b.hsn, 0);
  }

  datatype HsnRow = HsnRow(key: Key, totals: Totals)

  ghost predicate Sorted(rows: seq<HsnRow>) {
    forall i, j :: 0 <= i < j < |rows| ==> Less(rows[i].key, rows[j].key)
  }

  /** The first row from `i` on whose key is not below `key`. */
  function Position(rows: seq<HsnRow>, key: Key, i: nat): (p: nat)
    requires i <= |rows|
    ensures i <= p <= |rows|
    decreases |rows| - i
  {
    if i == |rows| || !Less(rows[i].key, key) then i else Position(rows, key, i + 1)
  }

  /** `agg[key].add(…)`: the row of `key`, made first if there is none, takes a charge. */
  function Record(rows: seq<HsnRow>, key: Key, t: Totals): seq<HsnRow> {
    var p := Position(rows, key, 0);
    if p < |rows| && rows[p].key == key then rows[p := HsnRow(key, rows[p].totals.Plus(t))]
    else rows[..p] + [HsnRow(key, ZERO.Plus(t))] + rows[p..]
  }

  function HsnRows(sales: seq<Sale>, n: nat): seq<HsnRow>
    requires n <= |sales|
  {
    if n == 0 then [] else Record(HsnRows(sales, n - 1), sales[n - 1].RowKey(), sales[n - 1].Charge())
  }

  // ---------------------------------------------------------------- what the HSN table must be

  /** What the first `n` lines with this key charge together. */
  function TotalsFor(sales: seq<Sale>, n: nat, key: Key): Totals
    requires n <= |sales|
  {
    if n == 0 then ZERO
    else if sales[n - 1].RowKey() == key then TotalsFor(sales, n - 1, key).Plus(sales[n - 1].Charge())
    else TotalsFor(sales, n - 1, key)
  }

  /** The quantities of the first `n` lines with this key, added up in input order. */
  function QuantityFor(d: Doubles, sales: seq<Sale>, n: nat, key: Key): real
    requires n <= |sales|
  {
    if n == 0 then 0.0
    else if sales[n - 1].RowKey() == key then d.plus(QuantityFor(d, sales, n - 1, key), sales[n - 1].line.Pieces())
    else QuantityFor(d, sales, n - 1, key)
  }

  /** The sale with its quantity written out, zero where there is none. */
  function Counted(s: Sale): Sale {
    s.(line := s.line.(quantity := Some(match s.line.quantity case Some(q) => q case None => 0.0)))
  }

  /** A line without a quantity counts like a line of quantity zero. */
  lemma {:induction false} MissingQuantityCounts(d: Doubles, sales: seq<Sale>, counted: seq<Sale>, n: nat, key: Key)
    requires n <= |sales| == |counted| && forall k :: 0 <= k < |sales| ==> counted[k] == Counted(sales[k])
    ensures QuantityFor(d, counted, n, key) == QuantityFor(d, sales, n, key)
  {
    if n > 0 {
      MissingQuantityCounts(d, sales, counted, n - 1, key);
      assert counted[n - 1] == Counted(sales[n - 1]);
    }
  }

  ghost predicate Occurs(sales: seq<Sale>, n: nat, key: Key)
    requires n <= |sales|
  {
    exists k :: 0 <= k < n && sales[k].RowKey() == key
  }

  ghost predicate HasRow(rows: seq<HsnRow>, key: Key) { exists i :: 0 <= i < |rows| && rows[i].key == key }

  /** Strictly increasing keys, one row for each key that occurs, each with the totals of its lines. */
  ghost predicate IsSummary(rows: seq<HsnRow>, sales: seq<Sale>, n: nat)
    requires n <= |sales|
  {
    && Sorted(rows)
    && (forall key: Key :: HasRow(rows, key) <==> Occurs(sales, n, key))
    && forall i :: 0 <= i < |rows| ==> rows[i].totals == TotalsFor(sales, n, rows[i].key)
  }

  lemma {:induction false} PositionSplits(rows: seq<HsnRow>, key: Key, i: nat)
    requires Sorted(rows) && i <= |rows| && forall k :: 0 <= k < i ==> Less(rows[k].key, key)
    ensures var p := Position(rows, key, i);
            && (forall k :: 0 <= k < p ==> Less(rows[k].key, key))
            && (forall k :: p <= k < |rows| && rows[k].key != key ==> Less(key, rows[k].key))
            && (forall k :: p < k < |rows| ==> Less(key, rows[k].key))
    decreases |rows| - i
  {
    hide Less;
    if i < |rows| && Less(rows[i].key, key) {
      PositionSplits(rows, key, i + 1);
    } else {
      forall k | i <= k < |rows|
        ensures rows[k].key != key ==> Less(key, rows[k].key)
        ensures k > i ==> Less(key, rows[k].key)
      {
        LessIsOrder(rows[i].key, key, key);
        LessIsOrder(key, rows[i].key, rows[k].key);
      }
    }
  }

  lemma {:induction false} RecordKeepsSorted(rows: seq<HsnRow>, key: Key, t: Totals)
    requires Sorted(rows)
    ensures Sorted(Record(rows, key, t))
  {
    hide Less;
    PositionSplits(rows, key, 0);
    var p := Position(rows, key, 0);
    var after := Record(rows, key, t);
    if p < |rows| && rows[p].key == key {
      assert forall i :: 0 <= i < |rows| ==> after[i].key == rows[i].key;
    } else {
      assert |after| == |rows| + 1;
      assert forall i :: 0 <= i < |after| ==>
          after[i].key == if i < p then rows[i].key else if i == p then key else rows[i - 1].key;
    }
  }

  /** A charge changes the row of its own key and no other. */
  lemma {:induction false} RecordIsLocal(rows: seq<HsnRow>, key: Key, t: Totals, other: Key)
    requires Sorted(rows)
    ensures HasRow(Record(rows, key, t), other) <==> other == key || HasRow(rows, other)
  {
    hide Less;
    PositionSplits(rows, key, 0);
    var p := Position(rows, key, 0);
    var after := Record(rows, key, t);
    if p < |rows| && rows[p].key == key {
      assert forall i :: 0 <= i < |rows| ==> after[i].key == rows[i].key;
      assert after[p].key == key;
    } else {
      assert after[p].key == key;
      assert forall i :: 0 <= i < p ==> after[i] == rows[i];
      assert forall i :: p <= i < |rows| ==> after[i + 1] == rows[i];
      assert forall i :: p < i < |after| ==> after[i] == rows[i - 1];
    }
  }

  lemma {:induction false} HsnRowsIsSummary(sales: seq<Sale>, n: nat)
    requires n <= |sales|
    ensures IsSummary(HsnRows(sales, n), sales, n)
  {
    hide Less, Record, Sorted, HasRow;
    if n > 0 {
      HsnRowsIsSummary(sales, n - 1);
      var (rows, key, t) := (HsnRows(sales, n - 1), sales[n - 1].RowKey(), sales[n - 1].Charge());
      RecordKeepsSorted(rows, key, t);
      forall other: Key ensures HasRow(Record(rows, key, t), other) <==> Occurs(sales, n, other) {
        RecordIsLocal(rows, key, t, other);
        OccursNext(sales, n, other);
      }
      RecordTotals(rows, sales, n);
    } else {
      EmptySummary(sales);
    }
  }

  lemma {:induction false} EmptySummary(sales: seq<Sale>)
    ensures IsSummary([], sales, 0)
  {
    assert forall key: Key :: !HasRow([], key) && !Occurs(sales, 0, key);
  }

  lemma {:induction false} OccursNext(sales: seq<Sale>, n: nat, key: Key)
    requires 0 < n <= |sales|
    ensures Occurs(sales, n, key) <==> sales[n - 1].RowKey() == key || Occurs(sales, n - 1, key)
  {
  }

  lemma {:induction false} AbsentIsZero(sales: seq<Sale>, n: nat, key: Key)
    requires n <= |sales| && !Occurs(sales, n, key)
    ensures TotalsFor(sales, n, key) == ZERO
  {
    if n > 0 {
      OccursNext(sales, n, key);
      AbsentIsZero(sales, n - 1, key);
    }
  }

  /** A row after a charge: the charged one, or an old one. */
  lemma {:induction false} RecordRow(rows: seq<HsnRow>, key: Key, t: Totals, i: nat) returns (k: nat)
    requires Sorted(rows) && i < |Record(rows, key, t)|
    ensures var row := Record(rows, key, t)[i];
            if row.key != key then k < |rows| && row == rows[k]
            else if !HasRow(rows, key) then row.totals == ZERO.Plus(t)
            else k < |rows| && rows[k].key == key && row.totals == rows[k].totals.Plus(t)
  {
    hide Less;
    PositionSplits(rows, key, 0);
    LessIsOrder(key, key, key);
    var p := Position(rows, key, 0);
    if p < |rows| && rows[p].key == key {
      k := i;
    } else {
      k := if i <= p then i else i - 1;
    }
  }

  lemma {:induction false} RecordTotals(rows: seq<HsnRow>, sales: seq<Sale>, n: nat)
    requires 0 < n <= |sales| && IsSummary(rows, sales, n - 1)
    ensures var after := Record(rows, sales[n - 1].RowKey(), sales[n - 1].Charge());
            forall i :: 0 <= i < |after| ==> after[i].totals == TotalsFor(sales, n, after[i].key)
  {
    hide Less, Occurs, Record, Sorted;
    var (key, t) := (sales[n - 1].RowKey(), sales[n - 1].Charge());
    var after := Record(rows, key, t);
    if !HasRow(rows, key) {
      AbsentIsZero(sales, n - 1, key);
    }
    forall i | 0 <= i < |after| ensures after[i].totals == TotalsFor(sales, n, after[i].key) {
      var k := RecordRow(rows, key, t, i);
    }
  }

  /** Two tables with strictly increasing keys, the same keys and the same totals for each key are the same table. */
  lemma {:induction false} SameRows(a: seq<HsnRow>, b: seq<HsnRow>, n: nat)
    requires Sorted(a) && Sorted(b) && n <= |a| && n <= |b|
    requires forall key: Key :: HasRow(a, key) <==> HasRow(b, key)
    requires forall i, j :: 0 <= i < |a| && 0 <= j < |b| && a[i].key == b[j].key ==> a[i].totals == b[j].totals
    ensures a[..n] == b[..n]
  {
    hide Less;
    if n > 0 {
      SameRows(a, b, n - 1);
      var (k, l) := (a[n - 1].key, b[n - 1].key);
      LessIsOrder(k, l, l);
      if Less(k, l) {
        NoRowBetween(a, b, n - 1);
      } else if Less(l, k) {
        NoRowBetween(b, a, n - 1);
      }
      assert a[..n] == a[..n - 1] + [a[n - 1]] && b[..n] == b[..n - 1] + [b[n - 1]];
    }
  }

  /** If the tables agree before `m`, the next key of `a` cannot be below the next key of `b`. */
  lemma {:induction false} NoRowBetween(a: seq<HsnRow>, b: seq<HsnRow>, m: nat)
    requires Sorted(a) && Sorted(b) && m < |a| && m < |b| && a[..m] == b[..m]
    requires HasRow(b, a[m].key)
    ensures !Less(a[m].key, b[m].key)
  {
    hide Less;
    var j :| 0 <= j < |b| && b[j].key == a[m].key;
    LessIsOrder(a[m].key, a[m].key, a[m].key);
    LessIsOrder(a[m].key, b[m].key, a[m].key);
  }

  lemma {:induction false} SameLength(a: seq<HsnRow>, b: seq<HsnRow>)
    requires Sorted(a) && Sorted(b) && |a| <= |b| && a == b[..|a|]
    requires forall key: Key :: HasRow(b, key) ==> HasRow(a, key)
    ensures a == b
  {
    hide Less;
    if |a| < |b| {
      var key := b[|a|].key;
      assert HasRow(b, key);
      var i :| 0 <= i < |a| && a[i].key == key;
      assert b[..|a|][i] == b[i];
      LessIsOrder(key, key, key);
    }
  }

  /** A summary is determined by what it summarizes. */
  lemma {:induction false} SummaryIsUnique(a: seq<HsnRow>, s: seq<Sale>, b: seq<HsnRow>, u: seq<Sale>)
    requires IsSummary(a, s, |s|) && IsSummary(b, u, |u|)
    requires forall key: Key :: Occurs(s, |s|, key) <==> Occurs(u, |u|, key)
    requires forall key: Key :: TotalsFor(s, |s|, key) == TotalsFor(u, |u|, key)
    ensures a == b
  {
    hide Less, Occurs, TotalsFor, HasRow;
    if |a| <= |b| {
      SameRows(a, b, |a|);
      assert a[..|a|] == a;
      SameLength(a, b);
    } else {
      SameRows(b, a, |b|);
      assert b[..|b|] == b;
      SameLength(b, a);
    }
  }
}
