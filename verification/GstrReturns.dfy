/** The three generators of `GSTRGenerator` and the CSV text they return. */
module GstrReturns {
  import opened Prelude
  import opened Money
  import opened Csv
  import opened Gstr
  import opened GstrLaws

  // ---------------------------------------------------------------- tables as rows of fields

  const HSN_HEADER: Row := ["hsn_code", "gst_rate"] + AMOUNTS + ["quantity"]

  const B2B_HEADER: Row := ["gstin_recipient", "invoice_number", "invoice_date", "invoice_value", "place_of_supply",
                            "supply_type", "gst_rate"] + AMOUNTS

  const SUMMARY_HEADER: Row := ["section", "description"] + AMOUNTS + ["total_tax_amt"]

  const AMOUNTS: Row := ["taxable_value", "igst_amt", "cgst_amt", "sgst_amt", "cess_amt"]

  /** A header line: the column names joined by commas, without any quoting. */
  function HeaderText(names: Row): string { Joined(names, |names|) + "\r\n" }

  /** The first `n` names joined by commas. */
  function Joined(names: Row, n: nat): string
    requires n <= |names|
  {
    if n == 0 then "" else if n == 1 then names[0] else Joined(names, n - 1) + "," + names[n - 1]
  }

  function HsnFields(d: Doubles, r: HsnRow, quantity: real): Row {
    [r.key.hsn, RatePercent(r.key.rate), CentsToRupees(r.totals.taxable), CentsToRupees(r.totals.igst),
     CentsToRupees(r.totals.cgst), CentsToRupees(r.totals.sgst), CentsToRupees(r.totals.cess), d.twoDecimals(quantity)]
  }

  /** The rows of the HSN table with the quantities of their lines. */
  function HsnTable(d: Doubles, rows: seq<HsnRow>, s: seq<Sale>): (t: seq<Row>)
    ensures |t| == |rows| + 1
  {
    seq(|rows| + 1, i requires 0 <= i <= |rows| =>
      if i == 0 then HSN_HEADER else HsnFields(d, rows[i - 1], QuantityFor(d, s, |s|, rows[i - 1].key)))
  }

  /** A row of Table 4A. */
  datatype Row4A = Row4A(recipient: string, number: string, date: string, value: int, place: string,
                         supply: SupplyType, rate: nat, charge: Totals)

  function PlaceOfSupplyCode(m: Invoice): string {
    if m.placeOfSupply == "same_as_supplier_state" then m.supplierState else m.placeOfSupply
  }

  /** The taxable value of the first `n` lines. */
  function TaxableTotal(m: Invoice, n: nat): int
    requires n <= |m.lines|
  {
    if n == 0 then 0 else TaxableTotal(m, n - 1) + m.lines[n - 1].base
  }

  function TaxOf(s: Sale): int { match s.Split() case Ok(b) => b.totalTax case Err(_) => 0 }

  /** The statutory tax of the first `n` lines. */
  function TaxTotal(m: Invoice, n: nat): int
    requires n <= |m.lines|
  {
    if n == 0 then 0 else TaxTotal(m, n - 1) + TaxOf(SalesOf(m)[n - 1])
  }

  function InvoiceValue(m: Invoice): int { TaxableTotal(m, |m.lines|) + TaxTotal(m, |m.lines|) }

  function RowOf(m: Invoice, j: nat): Row4A
    requires j < |m.lines|
  {
    Row4A(if m.buyerGstin.Some? then m.buyerGstin.value else "", m.number, m.date,
          InvoiceValue(m), PlaceOfSupplyCode(m), m.supply, m.lines[j].rate, SalesOf(m)[j].Charge())
  }

  /** The rows of an invoice: one for each line of a B2B invoice. */
  function RowsOf(m: Invoice): (r: seq<Row4A>)
    ensures |r| == if m.classification == B2B then |m.lines| else 0
  {
    if m.classification == B2B then seq(|m.lines|, j requires 0 <= j < |m.lines| => RowOf(m, j)) else []
  }

  function Rows4A(ms: seq<Invoice>, n: nat): seq<Row4A>
    requires n <= |ms|
  {
    if n == 0 then [] else Rows4A(ms, n - 1) + RowsOf(ms[n - 1])
  }

  function Fields4A(r: Row4A): Row {
    [r.recipient, r.number, r.date, CentsToRupees(r.value), r.place, if r.supply == Intra then "Intra" else "Inter",
     RatePercent(r.rate), CentsToRupees(r.charge.taxable), CentsToRupees(r.charge.igst), CentsToRupees(r.charge.cgst),
     CentsToRupees(r.charge.sgst), CentsToRupees(r.charge.cess)]
  }

  function B2BTable(rows: seq<Row4A>): (t: seq<Row>)
    ensures |t| == |rows| + 1
  {
    seq(|rows| + 1, i requires 0 <= i <= |rows| => if i == 0 then B2B_HEADER else Fields4A(rows[i - 1]))
  }

  function BucketFields(supply: SupplyType, t: Totals): Row {
    [if supply == Intra then "4A-Intra" else "4A-Inter",
     if supply == Intra then "Outward taxable supplies - intra-state" else "Outward taxable supplies - inter-state",
     CentsToRupees(t.taxable), CentsToRupees(t.igst), CentsToRupees(t.cgst), CentsToRupees(t.sgst),
     CentsToRupees(t.cess), CentsToRupees(t.TotalTax())]
  }

  /** The row of a bucket, if it has any line. */
  function BucketRows(s: seq<Sale>, supply: SupplyType): seq<Row> {
    if HasSupply(s, |s|, supply) then [BucketFields(supply, Bucket(s, |s|, supply))] else []
  }

  function SummaryTable(s: seq<Sale>): seq<Row> { [SUMMARY_HEADER] + BucketRows(s, Intra) + BucketRows(s, Inter) }

  /** The first exception of the generator of Table 4A, which looks only at B2B invoices. */
  function FirstB2BError(ms: seq<Invoice>, n: nat): Option<TaxError>
    requires n <= |ms|
  {
    if n == 0 then None
    else if FirstB2BError(ms, n - 1).Some? then FirstB2BError(ms, n - 1)
    else if ms[n - 1].classification != B2B then None
    else FirstError(SalesOf(ms[n - 1]), |ms[n - 1].lines|)
  }

  /** A table, unless a tax computation throws. */
  function Printed(error: Option<TaxError>, table: seq<Row>): Result<string, TaxError> {
    if error.Some? then Err(error.value) else Ok(Rows(table, |table|))
  }

  function HsnSummary(d: Doubles, ms: seq<Invoice>): Result<string, TaxError> {
    var s := Sales(ms, |ms|);
    Printed(FirstError(s, |s|), HsnTable(d, HsnRows(s, |s|), s))
  }

  function B2BSupplies(ms: seq<Invoice>): Result<string, TaxError> {
    Printed(FirstB2BError(ms, |ms|), B2BTable(Rows4A(ms, |ms|)))
  }

  function Summary3B(ms: seq<Invoice>): Result<string, TaxError> {
    var s := Sales(ms, |ms|);
    Printed(FirstError(s, |s|), SummaryTable(s))
  }

  // ---------------------------------------------------------------- header lines

  predicate IsPlain(f: string) { forall k :: 0 <= k < |f| ==> !IsSpecial(f[k]) }

  predicate ArePlain(names: Row) { forall k :: 0 <= k < |names| ==> IsPlain(names[k]) }

  lemma {:induction false} PlainLine(names: Row, n: nat)
    requires n <= |names| && ArePlain(names)
    ensures Line(names, n) == Joined(names, n)
  {
    if n > 0 {
      PlainLine(names, n - 1);
      assert IsPlain(names[0]) && IsPlain(names[n - 1]);
    }
  }

  lemma {:induction false} AmountsArePlain()
    ensures ArePlain(AMOUNTS)
  {
    assert IsPlain("taxable_value") && IsPlain("igst_amt") && IsPlain("cgst_amt") && IsPlain("sgst_amt") &&
        IsPlain("cess_amt");
  }

  lemma {:induction false} PlainAppend(a: Row, b: Row)
    requires ArePlain(a) && ArePlain(b)
    ensures ArePlain(a + b)
  {
  }

  /** None of the column names needs quoting, so a header line is a CSV row like the others. */
  lemma {:induction false} HeadersAreRows()
    ensures RowText(HSN_HEADER) == HeaderText(HSN_HEADER)
    ensures RowText(B2B_HEADER) == HeaderText(B2B_HEADER)
    ensures RowText(SUMMARY_HEADER) == HeaderText(SUMMARY_HEADER)
  {
    hide ArePlain, Line, Joined;
    AmountsArePlain();
    OtherNames();
    PlainAppend(["hsn_code", "gst_rate"], AMOUNTS);
    PlainAppend(["hsn_code", "gst_rate"] + AMOUNTS, ["quantity"]);
    PlainLine(HSN_HEADER, |HSN_HEADER|);
    B2BNames();
    PlainAppend(["gstin_recipient", "invoice_number", "invoice_date", "invoice_value", "place_of_supply", "supply_type",
      "gst_rate"], AMOUNTS);
    PlainLine(B2B_HEADER, |B2B_HEADER|);
    PlainAppend(["section", "description"], AMOUNTS);
    PlainAppend(["section", "description"] + AMOUNTS, ["total_tax_amt"]);
    PlainLine(SUMMARY_HEADER, |SUMMARY_HEADER|);
  }

  lemma {:induction false} OtherNames()
    ensures ArePlain(["hsn_code", "gst_rate"]) && ArePlain(["quantity"])
    ensures ArePlain(["section", "description"]) && ArePlain(["total_tax_amt"])
  {
    assert IsPlain("hsn_code") && IsPlain("gst_rate") && IsPlain("section") && IsPlain("description") &&
        IsPlain("total_tax_amt") && IsPlain("quantity");
  }

  lemma {:induction false} B2BNames()
    ensures ArePlain(["gstin_recipient", "invoice_number", "invoice_date", "invoice_value", "place_of_supply",
        "supply_type", "gst_rate"])
  {
    assert IsPlain("gstin_recipient") && IsPlain("invoice_number") && IsPlain("invoice_date");
    assert IsPlain("invoice_value");
    assert IsPlain("place_of_supply") && IsPlain("supply_type") && IsPlain("gst_rate");
  }

  // ---------------------------------------------------------------- the HSN summary

  /** The quantity of a key, which starts at zero. */
  function Quantity(quantities: map<Key, real>, key: Key): real {
    if key in quantities then quantities[key] else 0.0
  }

  ghost predicate AreQuantities(d: Doubles, quantities: map<Key, real>, s: seq<Sale>, n: nat)
    requires n <= |s|
  {
    forall key: Key :: Quantity(quantities, key) == QuantityFor(d, s, n, key)
  }

  lemma {:induction false} QuantitiesNext(d: Doubles, quantities: map<Key, real>, s: seq<Sale>, n: nat)
    requires n < |s| && AreQuantities(d, quantities, s, n)
    ensures var key := s[n].RowKey();
            AreQuantities(d, quantities[key := d.plus(Quantity(quantities, key), s[n].line.Pieces())], s, n + 1)
  {
    var key := s[n].RowKey();
    var after := quantities[key := d.plus(Quantity(quantities, key), s[n].line.Pieces())];
    forall k: Key ensures Quantity(after, k) == QuantityFor(d, s, n + 1, k) {
      assert Quantity(quantities, k) == QuantityFor(d, s, n, k);
    }
  }

  /** `std::map<std::pair<std::string, int>, TaxAggregate>`: the rows are kept in key order. */
  class HsnMap {
    const d: Doubles
    var rows: seq<HsnRow>
    var quantities: map<Key, real>

    constructor (d: Doubles)
      ensures this.d == d && rows == [] && quantities == map[]
    {
      this.d, rows, quantities := d, [], map[];
    }

    /** The map after the first `n` lines. */
    ghost predicate Holds(s: seq<Sale>, n: nat)
      requires n <= |s|
      reads this
    {
      rows == HsnRows(s, n) && AreQuantities(d, quantities, s, n)
    }

    /** `operator[]`: the place of the key, whose aggregate is made first if there is none. */
    method At(key: Key) returns (p: nat)
      modifies this`rows
      ensures p == Position(old(rows), key, 0) && p < |rows| && rows[p].key == key
      ensures rows == if p < |old(rows)| && old(rows)[p].key == key then old(rows)
                      else old(rows)[..p] + [HsnRow(key, ZERO)] + old(rows)[p..]
    {
      p := 0;
      while p < |rows| && Less(rows[p].key, key)
        invariant p <= |rows| && Position(rows, key, 0) == Position(rows, key, p)
      {
        p := p + 1;
      }
      if p == |rows| || rows[p].key != key {
        rows := rows[..p] + [HsnRow(key, ZERO)] + rows[p..];
      }
    }

    method Add(key: Key, base: int, split: TaxBreakdown, quantity: real)
      modifies this
      ensures rows == Record(old(rows), key, Totals(base, split.igst, split.cgst, split.sgst, split.cess))
      ensures quantities == old(quantities)[key := d.plus(Quantity(old(quantities), key), quantity)]
    {
      hide Position, Less;
      var p := At(key);
      rows := rows[p := HsnRow(key, rows[p].totals.Add(base, split))];
      quantities := quantities[key := d.plus(Quantity(quantities, key), quantity)];
    }
  }

  /** Adds the lines of one invoice. */
  method AddInvoice(agg: HsnMap, ms: seq<Invoice>, i: nat) returns (error: Option<TaxError>)
    requires i < |ms|
    requires var (all, at) := (Sales(ms, |ms|), |Sales(ms, i)|);
             at <= |all| && FirstError(all, at).None? && agg.Holds(all, at)
    modifies agg
    ensures var (all, end) := (Sales(ms, |ms|), |Sales(ms, i + 1)|);
            end <= |all| && error == FirstError(all, end) && (error.None? ==> agg.Holds(all, end))
  {
    hide Record, Sales, FirstError, AreQuantities, Quantity, LineItem.Pieces;
    ghost var all, at := Sales(ms, |ms|), |Sales(ms, i)|;
    var m := ms[i];
    SalesStep(ms, i);
    for j := 0 to |m.lines|
      invariant FirstError(all, at + j).None? && agg.Holds(all, at + j)
    {
      var li := m.lines[j];
      LineAt(ms, i, j);
      var split := ComputeTaxSplit(li.base, li.rate, m.supply);
      if split.Err? {
        ErrorStays(all, at + j + 1, at + |m.lines|);
        return Some(split.error);
      }
      QuantitiesNext(agg.d, agg.quantities, all, at + j);
      agg.Add(Key(li.hsn, li.rate), li.base, split.value, li.Pieces());
    }
    error := None;
  }

  /** Line `j` of invoice `i` as the folds over all lines see it. */
  lemma {:induction false} LineAt(ms: seq<Invoice>, i: nat, j: nat)
    requires i < |ms| && j < |ms[i].lines|
    ensures var (all, k) := (Sales(ms, |ms|), |Sales(ms, i)| + j);
            var (li, supply) := (ms[i].lines[j], ms[i].supply);
            var split := ComputeTaxSplit(li.base, li.rate, supply);
            && k < |all| && all[k] == Sale(supply, li) && all[k].RowKey() == Key(li.hsn, li.rate)
            && (split.Ok? ==> all[k].Charge() == Totals(li.base, split.value.igst, split.value.cgst, split.value.sgst,
                split.value.cess))
            && (FirstError(all, k).None? ==>
                  FirstError(all, k + 1) == match split case Ok(_) => None case Err(e) => Some(e))
  {
    hide Sales, ComputeTaxSplit;
    SaleAt(ms, i, j);
  }

  method PrintHsn(agg: HsnMap, ghost s: seq<Sale>) returns (text: string)
    requires agg.Holds(s, |s|)
    ensures text == Rows(HsnTable(agg.d, agg.rows, s), |agg.rows| + 1)
  {
    hide HsnFields, CentsToRupees, RatePercent, RowText, HsnRows, QuantityFor;
    text := HeaderText(HSN_HEADER);
    HeadersAreRows();
    ghost var table := HsnTable(agg.d, agg.rows, s);
    FirstRow(table);
    for k := 0 to |agg.rows|
      invariant text == Rows(table, k + 1)
    {
      var e, q := agg.rows[k], Quantity(agg.quantities, agg.rows[k].key);
      var line := CsvRow([e.key.hsn, RatePercent(e.key.rate), CentsToRupees(e.totals.taxable),
                          CentsToRupees(e.totals.igst), CentsToRupees(e.totals.cgst), CentsToRupees(e.totals.sgst),
                          CentsToRupees(e.totals.cess), agg.d.twoDecimals(q)]);
      FieldsOfHsnRow(agg.d, e, q);
      text := text + line;
    }
  }

  method Gstr1HsnSummary(d: Doubles, ms: seq<Invoice>) returns (out: Result<string, TaxError>)
    ensures out == HsnSummary(d, ms)
  {
    hide Sales, FirstError, HsnTable, HsnRows, Rows, QuantityFor;
    ghost var all := Sales(ms, |ms|);
    var agg := new HsnMap(d);
    NoSales(ms);
    NoRows(d, all);
    for i := 0 to |ms|
      invariant |Sales(ms, i)| <= |all| && FirstError(all, |Sales(ms, i)|).None?
      invariant agg.Holds(all, |Sales(ms, i)|)
    {
      var error := AddInvoice(agg, ms, i);
      if error.Some? {
        ErrorStays(all, |Sales(ms, i + 1)|, |all|);
        return Err(error.value);
      }
    }
    var text := PrintHsn(agg, all);
    out := Ok(text);
  }

  lemma {:induction false} FieldsOfHsnRow(d: Doubles, e: HsnRow, q: real)
    ensures HsnFields(d, e, q) == [e.key.hsn, RatePercent(e.key.rate), CentsToRupees(e.totals.taxable),
                                   CentsToRupees(e.totals.igst), CentsToRupees(e.totals.cgst),
                                   CentsToRupees(e.totals.sgst), CentsToRupees(e.totals.cess), d.twoDecimals(q)]
  {
  }

  lemma {:induction false} NoRows(d: Doubles, s: seq<Sale>)
    ensures HsnRows(s, 0) == [] && forall key: Key :: QuantityFor(d, s, 0, key) == 0.0
  {
  }

  lemma {:induction false} NoSales(ms: seq<Invoice>)
    ensures Sales(ms, 0) == [] && FirstError(Sales(ms, |ms|), 0).None?
  {
  }

  lemma {:induction false} SalesStep(ms: seq<Invoice>, i: nat)
    requires i < |ms|
    ensures |Sales(ms, i + 1)| == |Sales(ms, i)| + |ms[i].lines| <= |Sales(ms, |ms|)|
  {
    SalesPrefix(ms, i + 1, |ms|);
  }

  lemma {:induction false} FirstRow(table: seq<Row>)
    requires table != []
    ensures Rows(table, 1) == RowText(table[0])
  {
    assert Rows(table, 0) == "";
  }

  // ---------------------------------------------------------------- the GSTR-3B summary

  /** `TaxAggregate`: the running totals of one bucket. */
  class TaxAggregate {
    const d: Doubles
    var totals: Totals
    var quantity: real

    constructor (d: Doubles)
      ensures this.d == d && totals == ZERO && quantity == 0.0
    {
      this.d, totals, quantity := d, ZERO, 0.0;
    }

    method Add(base: int, split: TaxBreakdown, quantity: real)
      modifies this
      ensures totals == old(totals).Plus(Totals(base, split.igst, split.cgst, split.sgst, split.cess))
      ensures this.quantity == d.plus(old(this.quantity), quantity)
    {
      totals := totals.Add(base, split);
      this.quantity := d.plus(this.quantity, quantity);
    }
  }

  /** The two buckets hold what the first `n` lines charge, and `present` tells which of them has a line. */
  ghost predicate Bucketed(all: seq<Sale>, n: nat, intra: Totals, inter: Totals, hasIntra: bool, hasInter: bool) {
    && n <= |all| && FirstError(all, n).None?
    && intra == Bucket(all, n, Intra) && inter == Bucket(all, n, Inter)
    && hasIntra == HasSupply(all, n, Intra) && hasInter == HasSupply(all, n, Inter)
  }

  lemma {:induction false} BucketedIsFine(all: seq<Sale>, n: nat, intra: Totals, inter: Totals, hasIntra: bool,
      hasInter: bool)
    requires Bucketed(all, n, intra, inter, hasIntra, hasInter)
    ensures n <= |all| && FirstError(all, n).None?
  {
  }

  /** One more line, if its tax does not throw. */
  lemma {:induction false} BucketedNext(all: seq<Sale>, n: nat, intra: Totals, inter: Totals, hasIntra: bool,
      hasInter: bool)
    requires n < |all| && Bucketed(all, n, intra, inter, hasIntra, hasInter)
    ensures FirstError(all, n).None?
    ensures var (isIntra, t) := (all[n].supply == Intra, all[n].Charge());
            all[n].Split().Ok? ==>
              Bucketed(all, n + 1, if isIntra then intra.Plus(t) else intra, if isIntra then inter else inter.Plus(t),
                       hasIntra || isIntra, hasInter || !isIntra)
  {
    hide Totals.Plus, HasSupply, Sale.Charge;
    HasSupplyNext(all, n + 1);
  }

  /** Adds the lines of one invoice to the bucket of its supply type. */
  method AddToBucket(intra: TaxAggregate, inter: TaxAggregate, hasIntra: bool, hasInter: bool, ms: seq<Invoice>, i: nat)
    returns (error: Option<TaxError>, hasIntra': bool, hasInter': bool)
    requires intra != inter && i < |ms|
    requires Bucketed(Sales(ms, |ms|), |Sales(ms, i)|, intra.totals, inter.totals, hasIntra, hasInter)
    modifies intra, inter
    ensures var (all, end) := (Sales(ms, |ms|), |Sales(ms, i + 1)|);
            && end <= |all| && error == FirstError(all, end)
            && (error.None? ==> Bucketed(all, end, intra.totals, inter.totals, hasIntra', hasInter'))
  {
    hide Sales, Totals.Plus, Bucketed, FirstError, LineItem.Pieces;
    ghost var all, at := Sales(ms, |ms|), |Sales(ms, i)|;
    var m := ms[i];
    SalesStep(ms, i);
    var bucket := if m.supply == Intra then intra else inter;
    hasIntra', hasInter' := hasIntra, hasInter;
    for j := 0 to |m.lines|
      invariant Bucketed(all, at + j, intra.totals, inter.totals, hasIntra', hasInter')
    {
      var li := m.lines[j];
      LineAt(ms, i, j);
      BucketedNext(all, at + j, intra.totals, inter.totals, hasIntra', hasInter');
      if m.supply == Intra {
        hasIntra' := true;
      } else {
        hasInter' := true;
      }
      var split := ComputeTaxSplit(li.base, li.rate, m.supply);
      if split.Err? {
        ErrorStays(all, at + j + 1, at + |m.lines|);
        return Some(split.error), hasIntra', hasInter';
      }
      bucket.Add(li.base, split.value, li.Pieces());
    }
    BucketedIsFine(all, at + |m.lines|, intra.totals, inter.totals, hasIntra', hasInter');
    error := None;
  }

  method PrintSummary(hasIntra: bool, intra: Totals, hasInter: bool, inter: Totals) returns (text: string)
    ensures var rows := [SUMMARY_HEADER] + (if hasIntra then [BucketFields(Intra, intra)] else [])
                        + (if hasInter then [BucketFields(Inter, inter)] else []);
            text == Rows(rows, |rows|)
  {
    hide BucketFields, RowText, Rows;
    HeadersAreRows();
    text := HeaderText(SUMMARY_HEADER);
    ghost var rows: seq<Row> := [SUMMARY_HEADER];
    FirstRow(rows);
    if hasIntra {
      var line := EmitBucket(Intra, intra);
      text := text + line;
      RowsAppend(rows, BucketFields(Intra, intra));
      rows := rows + [BucketFields(Intra, intra)];
    }
    if hasInter {
      var line := EmitBucket(Inter, inter);
      text := text + line;
      RowsAppend(rows, BucketFields(Inter, inter));
      rows := rows + [BucketFields(Inter, inter)];
    }
    assert rows == [SUMMARY_HEADER] + (if hasIntra then [BucketFields(Intra, intra)] else [])
                   + (if hasInter then [BucketFields(Inter, inter)] else []);
  }

  method Gstr3B(d: Doubles, ms: seq<Invoice>) returns (out: Result<string, TaxError>)
    ensures out == Summary3B(ms)
  {
    hide Sales, FirstError, Rows, HasSupply;
    ghost var all := Sales(ms, |ms|);
    var intra := new TaxAggregate(d);
    var inter := new TaxAggregate(d);
    var hasIntra, hasInter := false, false;
    NoSales(ms);
    NoSupply(all);
    for i := 0 to |ms|
      invariant Bucketed(all, |Sales(ms, i)|, intra.totals, inter.totals, hasIntra, hasInter)
    {
      var error;
      error, hasIntra, hasInter := AddToBucket(intra, inter, hasIntra, hasInter, ms, i);
      if error.Some? {
        ErrorStays(all, |Sales(ms, i + 1)|, |all|);
        return Err(error.value);
      }
    }
    var text := PrintSummary(hasIntra, intra.totals, hasInter, inter.totals);
    out := Ok(text);
  }

  lemma {:induction false} NoSupply(s: seq<Sale>)
    ensures !HasSupply(s, 0, Intra) && !HasSupply(s, 0, Inter)
  {
  }

  lemma {:induction false} HasSupplyNext(s: seq<Sale>, n: nat)
    requires 0 < n <= |s|
    ensures forall supply: SupplyType :: HasSupply(s, n, supply) <==>
        s[n - 1].supply == supply || HasSupply(s, n - 1, supply)
  {
  }

  method EmitBucket(supply: SupplyType, t: Totals) returns (line: string)
    ensures line == RowText(BucketFields(supply, t))
  {
    var section := if supply == Intra then "4A-Intra" else "4A-Inter";
    var text := if supply == Intra then "Outward taxable supplies - intra-state"
        else "Outward taxable supplies - inter-state";
    line := CsvRow([section, text, CentsToRupees(t.taxable), CentsToRupees(t.igst), CentsToRupees(t.cgst),
                    CentsToRupees(t.sgst), CentsToRupees(t.cess), CentsToRupees(t.TotalTax())]);
  }

  lemma {:induction false} RowsPrefix(a: seq<Row>, b: seq<Row>, n: nat)
    requires n <= |a|
    ensures Rows(a + b, n) == Rows(a, n)
  {
    if n > 0 {
      RowsPrefix(a, b, n - 1);
    }
  }

  lemma {:induction false} RowsAppend(a: seq<Row>, row: Row)
    ensures Rows(a + [row], |a| + 1) == Rows(a, |a|) + RowText(row)
  {
    RowsPrefix(a, [row], |a|);
  }

  // ---------------------------------------------------------------- Table 4A

  lemma {:induction false} Rows4APrefix(ms: seq<Invoice>, m: nat, n: nat)
    requires m <= n <= |ms|
    ensures Rows4A(ms, m) <= Rows4A(ms, n)
  {
    hide RowsOf;
    if m < n {
      Rows4APrefix(ms, m, n - 1);
    }
  }

  lemma {:induction false} Rows4AStep(ms: seq<Invoice>, i: nat)
    requires i < |ms|
    ensures |Rows4A(ms, i + 1)| == |Rows4A(ms, i)| + |RowsOf(ms[i])| <= |Rows4A(ms, |ms|)|
  {
    hide RowsOf;
    Rows4APrefix(ms, i + 1, |ms|);
  }

  lemma {:induction false} Row4AAt(ms: seq<Invoice>, i: nat, j: nat)
    requires i < |ms| && j < |RowsOf(ms[i])|
    ensures |Rows4A(ms, i)| + j < |Rows4A(ms, |ms|)|
    ensures Rows4A(ms, |ms|)[|Rows4A(ms, i)| + j] == RowOf(ms[i], j)
  {
    hide RowOf;
    Rows4APrefix(ms, i + 1, |ms|);
    var k := |Rows4A(ms, i)| + j;
    assert Rows4A(ms, i + 1)[k] == RowsOf(ms[i])[j];
    assert Rows4A(ms, |ms|)[k] == Rows4A(ms, i + 1)[k];
  }

  lemma {:induction false} B2BErrorStays(ms: seq<Invoice>, m: nat, n: nat)
    requires m <= n <= |ms|
    ensures FirstB2BError(ms, m).Some? ==> FirstB2BError(ms, n) == FirstB2BError(ms, m)
  {
    if m < n {
      B2BErrorStays(ms, m, n - 1);
    }
  }

  /** The first loop over the lines: the value printed in every row of the invoice. */
  method InvoiceTotal(m: Invoice) returns (total: Result<int, TaxError>)
    ensures var e := FirstError(SalesOf(m), |m.lines|);
            total == if e.Some? then Err(e.value) else Ok(InvoiceValue(m))
  {
    var taxableTotal, taxTotal := 0, 0;
    for j := 0 to |m.lines|
      invariant taxableTotal == TaxableTotal(m, j) && taxTotal == TaxTotal(m, j) && FirstError(SalesOf(m), j).None?
    {
      var li := m.lines[j];
      taxableTotal := taxableTotal + li.base;
      var split := ComputeTaxSplit(li.base, li.rate, m.supply);
      if split.Err? {
        ErrorStays(SalesOf(m), j + 1, |m.lines|);
        return Err(split.error);
      }
      taxTotal := taxTotal + split.value.totalTax;
    }
    total := Ok(taxableTotal + taxTotal);
  }

  /** One row of the second loop. */
  method Emit4A(m: Invoice, j: nat, invoiceValue: string) returns (line: string)
    requires m.classification == B2B && j < |m.lines| && FirstError(SalesOf(m), |m.lines|).None?
    requires invoiceValue == CentsToRupees(InvoiceValue(m))
    ensures line == RowText(Fields4A(RowOf(m, j)))
  {
    hide RowText, CentsToRupees, RatePercent;
    var li := m.lines[j];
    ErrorStays(SalesOf(m), j + 1, |m.lines|);
    var recipient := if m.buyerGstin.Some? then m.buyerGstin.value else "";
    var s := ComputeTaxSplit(li.base, li.rate, m.supply).value;
    var supply := if m.supply == Intra then "Intra" else "Inter";
    line := CsvRow([recipient, m.number, m.date, invoiceValue, PlaceOfSupplyCode(m), supply, RatePercent(li.rate),
                    CentsToRupees(li.base), CentsToRupees(s.igst), CentsToRupees(s.cgst), CentsToRupees(s.sgst),
                    CentsToRupees(s.cess)]);
  }

  /** The second loop: the rows of a B2B invoice, put after the text so far. */
  method EmitInvoice(ms: seq<Invoice>, i: nat, value: int, before: string) returns (text: string)
    requires i < |ms| && ms[i].classification == B2B && FirstError(SalesOf(ms[i]), |ms[i].lines|).None?
    requires value == InvoiceValue(ms[i])
    requires |Rows4A(ms, i)| <= |Rows4A(ms, |ms|)|
    requires before == Rows(B2BTable(Rows4A(ms, |ms|)), |Rows4A(ms, i)| + 1)
    ensures |Rows4A(ms, i + 1)| <= |Rows4A(ms, |ms|)|
    ensures text == Rows(B2BTable(Rows4A(ms, |ms|)), |Rows4A(ms, i + 1)| + 1)
  {
    hide Rows4A, RowOf, Fields4A, RowText, FirstError, CentsToRupees;
    var m := ms[i];
    ghost var all, at := Rows4A(ms, |ms|), |Rows4A(ms, i)|;
    ghost var table := B2BTable(all);
    Rows4AStep(ms, i);
    var invoiceValue := CentsToRupees(value);
    text := before;
    for j := 0 to |m.lines|
      invariant text == Rows(table, at + j + 1)
    {
      Row4AAt(ms, i, j);
      var line := Emit4A(m, j, invoiceValue);
      assert table[at + j + 1] == Fields4A(all[at + j]);
      text := text + line;
    }
  }

  method Gstr1B2B(ms: seq<Invoice>) returns (out: Result<string, TaxError>)
    ensures out == B2BSupplies(ms)
  {
    hide Rows4A, Rows, B2BTable, FirstError, HeaderText, RowText, InvoiceValue, RowsOf, SalesOf;
    ghost var all := Rows4A(ms, |ms|);
    ghost var table := B2BTable(all);
    HeadersAreRows();
    var text := HeaderText(B2B_HEADER);
    NoRows4A(ms);
    for i := 0 to |ms|
      invariant |Rows4A(ms, i)| <= |all| && FirstB2BError(ms, i).None?
      invariant text == Rows(table, |Rows4A(ms, i)| + 1)
    {
      Rows4AStep(ms, i);
      if ms[i].classification != B2B {
        assert |RowsOf(ms[i])| == 0;
        continue;
      }
      var total := InvoiceTotal(ms[i]);
      if total.Err? {
        B2BErrorStays(ms, i + 1, |ms|);
        return Err(total.error);
      }
      text := EmitInvoice(ms, i, total.value, text);
    }
    out := Ok(text);
  }

  lemma {:induction false} NoRows4A(ms: seq<Invoice>)
    ensures Rows4A(ms, 0) == [] && Rows(B2BTable(Rows4A(ms, |ms|)), 1) == RowText(B2B_HEADER)
  {
    FirstRow(B2BTable(Rows4A(ms, |ms|)));
  }

  // ---------------------------------------------------------------- what the printed tables say

  /** The sum of one column over the first `n` rows of an invoice: its taxable value and all its tax. */
  function RowSum(rows: seq<Row4A>, n: nat): int
    requires n <= |rows|
  {
    if n == 0 then 0 else RowSum(rows, n - 1) + rows[n - 1].charge.taxable + rows[n - 1].charge.TotalTax()
  }

  lemma {:induction false} RowSumIsValue(m: Invoice, n: nat)
    requires m.classification == B2B && n <= |m.lines| && FirstError(SalesOf(m), n).None?
    ensures RowSum(RowsOf(m), n) == TaxableTotal(m, n) + TaxTotal(m, n)
  {
    hide TaxOf, Sale.Charge, InvoiceValue;
    if n > 0 {
      RowSumIsValue(m, n - 1);
      assert RowsOf(m)[n - 1] == RowOf(m, n - 1);
      ChargeIsLine(SalesOf(m)[n - 1]);
    }
  }

  lemma {:induction false} ChargeIsLine(s: Sale)
    requires s.Split().Ok?
    ensures s.Charge().taxable == s.line.base && s.Charge().TotalTax() == TaxOf(s)
  {
    ChargeIsExact(s);
  }

  /** Each row of an invoice in Table 4A carries the taxable value plus the tax of all the rows of that invoice. */
  lemma {:induction false} InvoiceValueIsRowTotal(m: Invoice, j: nat)
    requires FirstError(SalesOf(m), |m.lines|).None? && j < |RowsOf(m)|
    ensures RowsOf(m)[j].value == RowSum(RowsOf(m), |RowsOf(m)|)
  {
    RowSumIsValue(m, |m.lines|);
  }

  /** A printed table reads back as the rows it was printed from. */
  lemma {:induction false} PrintedReadsBack(error: Option<TaxError>, table: seq<Row>)
    requires Printed(error, table).Ok? && forall k :: 0 <= k < |table| ==> table[k] != []
    ensures ReadFile(Printed(error, table).value, 0) == Some(table)
  {
    RowsAreRead(table);
  }

  /** The five money columns of a row that was read, in cents. */
  function AmountsOf(fields: Row, at: nat): Option<Totals>
    requires at + 5 <= |fields|
  {
    var (a, b, c, d, e) := (RupeesToCents(fields[at]), RupeesToCents(fields[at + 1]), RupeesToCents(fields[at + 2]),
                            RupeesToCents(fields[at + 3]), RupeesToCents(fields[at + 4]));
    if a.Some? && b.Some? && c.Some? && d.Some? && e.Some? then
      Some(Totals(a.value, b.value, c.value, d.value, e.value))
    else None
  }

  lemma {:induction false} AmountsReadBack(fields: Row, at: nat, t: Totals)
    requires at + 5 <= |fields| && t.NonNegative()
    requires fields[at] == CentsToRupees(t.taxable) && fields[at + 1] == CentsToRupees(t.igst)
    requires fields[at + 2] == CentsToRupees(t.cgst) && fields[at + 3] == CentsToRupees(t.sgst)
    requires fields[at + 4] == CentsToRupees(t.cess)
    ensures AmountsOf(fields, at) == Some(t)
  {
    hide CentsToRupees, RupeesToCents;
    RupeesConvertBack(t.taxable);
    RupeesConvertBack(t.igst);
    RupeesConvertBack(t.cgst);
    RupeesConvertBack(t.sgst);
    RupeesConvertBack(t.cess);
  }

  /** What an HSN line of a read file says: its key and its money columns in cents. */
  function HsnRowOf(fields: Row): Option<HsnRow> {
    if |fields| != 8 then None
    else
      var (rate, t) := (PercentToBps(fields[1]), AmountsOf(fields, 2));
      if rate.Some? && t.Some? then Some(HsnRow(Key(fields[0], rate.value), t.value)) else None
  }

  lemma {:induction false} HsnFieldsReadBack(d: Doubles, r: HsnRow, quantity: real)
    requires r.totals.NonNegative()
    ensures var fields := HsnFields(d, r, quantity);
            |fields| == 8 && HsnRowOf(fields) == Some(r) && fields[7] == d.twoDecimals(quantity)
  {
    hide RatePercent, CentsToRupees, AmountsOf, PercentToBps;
    RatesConvertBack(r.key.rate);
    AmountsReadBack(HsnFields(d, r, quantity), 2, r.totals);
  }

  /**
   * Whoever reads the HSN file finds strictly increasing keys and, for each, the totals and the printed quantity of
   * its lines; no money is lost in print.
   */
  lemma {:induction false} HsnFileIsFaithful(d: Doubles, ms: seq<Invoice>)
    requires HsnSummary(d, ms).Ok?
    ensures var s := Sales(ms, |ms|);
            var (rows, file) := (HsnRows(s, |s|), ReadFile(HsnSummary(d, ms).value, 0));
            && file.Some? && |file.value| == |rows| + 1 && file.value[0] == HSN_HEADER
            && (forall i :: 0 <= i < |rows| ==> SaysHsn(d, file.value[i + 1], rows[i], s))
            && IsSummary(rows, s, |s|)
  {
    hide HsnRows, HsnFields, IsSummary, SaysHsn, ReadFile, Rows, FirstError;
    var s := Sales(ms, |ms|);
    var rows := HsnRows(s, |s|);
    var table := HsnTable(d, rows, s);
    HsnRowsIsSummary(s, |s|);
    forall k | 0 <= k < |table| ensures table[k] != [] {
      if k > 0 {
        SomeFields(d, rows[k - 1], QuantityFor(d, s, |s|, rows[k - 1].key));
      }
    }
    PrintedReadsBack(FirstError(s, |s|), table);
    forall i | 0 <= i < |rows| ensures SaysHsn(d, table[i + 1], rows[i], s) {
      HsnLineIsFaithful(d, rows, s, i);
    }
  }

  /** A read line says what the row holds and, in its last column, the quantity of the lines of that row. */
  predicate SaysHsn(d: Doubles, fields: Row, r: HsnRow, s: seq<Sale>) {
    HsnRowOf(fields) == Some(r) && fields[7] == d.twoDecimals(QuantityFor(d, s, |s|, r.key))
  }

  lemma {:induction false} HsnLineIsFaithful(d: Doubles, rows: seq<HsnRow>, s: seq<Sale>, i: nat)
    requires IsSummary(rows, s, |s|) && i < |rows| && FirstError(s, |s|).None?
    ensures SaysHsn(d, HsnFields(d, rows[i], QuantityFor(d, s, |s|, rows[i].key)), rows[i], s)
  {
    hide HsnRowOf, HsnFields, IsSummary, TotalsFor, QuantityFor;
    SummaryRow(rows, s, i);
    RowIsSumOfTaxes(s, |s|, rows[i].key);
    HsnFieldsReadBack(d, rows[i], QuantityFor(d, s, |s|, rows[i].key));
  }

  lemma {:induction false} SomeFields(d: Doubles, r: HsnRow, quantity: real)
    ensures HsnFields(d, r, quantity) != []
  {
  }

  lemma {:induction false} SummaryRow(rows: seq<HsnRow>, s: seq<Sale>, i: nat)
    requires IsSummary(rows, s, |s|) && i < |rows|
    ensures rows[i].totals == TotalsFor(s, |s|, rows[i].key)
  {
  }

  /** A read line names its bucket and says that it charged `t`, with the total tax in the last column. */
  predicate SaysBucket(fields: Row, supply: SupplyType, t: Totals) {
    && |fields| == 8 && AmountsOf(fields, 2) == Some(t) && RupeesToCents(fields[7]) == Some(t.TotalTax())
    && (supply == Intra ==> fields[0] == "4A-Intra" && fields[1] == "Outward taxable supplies - intra-state")
    && (supply == Inter ==> fields[0] == "4A-Inter" && fields[1] == "Outward taxable supplies - inter-state")
  }

  lemma {:induction false} BucketReadsBack(s: seq<Sale>, supply: SupplyType)
    requires FirstError(s, |s|).None?
    ensures var t := Bucket(s, |s|, supply); SaysBucket(BucketFields(supply, t), supply, t)
  {
    hide Bucket, CentsToRupees, AmountsOf, RupeesToCents, FirstError;
    var t := Bucket(s, |s|, supply);
    BucketIsNonNegative(s, |s|, supply);
    AmountsReadBack(BucketFields(supply, t), 2, t);
    RupeesConvertBack(t.TotalTax());
  }

  /**
   * Whoever reads the GSTR-3B file finds one line for each supply type that occurs, INTRA first, with what its
   * lines charge.
   */
  lemma {:induction false} SummaryFileIsFaithful(ms: seq<Invoice>)
    requires Summary3B(ms).Ok?
    ensures var s := Sales(ms, |ms|);
            var (n, file) := (|s|, ReadFile(Summary3B(ms).value, 0));
            var (intra, inter) := (HasSupply(s, n, Intra), HasSupply(s, n, Inter));
            && file.Some? && |file.value| == 1 + (if intra then 1 else 0) + (if inter then 1 else 0)
            && (intra ==> SaysBucket(file.value[1], Intra, Bucket(s, n, Intra)))
            && (inter ==> SaysBucket(file.value[|file.value| - 1], Inter, Bucket(s, n, Inter)))
  {
    hide Sales, Bucket, HasSupply, BucketFields, SaysBucket, ReadFile, Rows, FirstError;
    var s := Sales(ms, |ms|);
    var table := SummaryTable(s);
    BucketReadsBack(s, Intra);
    BucketReadsBack(s, Inter);
    NoLineIsEmpty(s, Intra);
    NoLineIsEmpty(s, Inter);
    PrintedReadsBack(FirstError(s, |s|), table);
  }

  lemma {:induction false} NoLineIsEmpty(s: seq<Sale>, supply: SupplyType)
    ensures BucketFields(supply, Bucket(s, |s|, supply)) != []
  {
  }

  /** A read line of Table 4A says what the row holds. */
  predicate SaysRow(fields: Row, r: Row4A) {
    && |fields| == 12
    && fields[0] == r.recipient && fields[1] == r.number && fields[2] == r.date && fields[4] == r.place
    && RupeesToCents(fields[3]) == Some(r.value) && PercentToBps(fields[6]) == Some(r.rate)
    && AmountsOf(fields, 7) == Some(r.charge)
    && (fields[5] == "Intra" <==> r.supply == Intra)
  }

  lemma {:induction false} RowReadsBack(r: Row4A)
    requires r.charge.NonNegative() && r.value >= 0
    ensures SaysRow(Fields4A(r), r)
  {
    hide CentsToRupees, AmountsOf, RupeesToCents, PercentToBps, RatePercent;
    RatesConvertBack(r.rate);
    RupeesConvertBack(r.value);
    AmountsReadBack(Fields4A(r), 7, r.charge);
    assert "Intra"[3] != "Inter"[3];
  }

  lemma {:induction false} TaxIsNonNegative(s: Sale)
    ensures TaxOf(s) >= 0 && s.Charge().NonNegative()
  {
    if s.Split().Ok? {
      ChargeIsExact(s);
    }
  }

  lemma {:induction false} ValueIsNonNegative(m: Invoice, n: nat)
    requires n <= |m.lines|
    ensures TaxableTotal(m, n) >= 0 && TaxTotal(m, n) >= 0
  {
    hide TaxOf;
    if n > 0 {
      ValueIsNonNegative(m, n - 1);
      TaxIsNonNegative(SalesOf(m)[n - 1]);
    }
  }

  lemma {:induction false} RowsAreSound(ms: seq<Invoice>, n: nat)
    requires n <= |ms|
    ensures forall k :: 0 <= k < |Rows4A(ms, n)| ==>
              Rows4A(ms, n)[k].charge.NonNegative() && Rows4A(ms, n)[k].value >= 0
  {
    hide Totals.NonNegative, TaxableTotal, TaxTotal, Sale.Charge, TaxOf;
    if n > 0 {
      RowsAreSound(ms, n - 1);
      var m := ms[n - 1];
      ValueIsNonNegative(m, |m.lines|);
      forall j | 0 <= j < |m.lines| ensures RowOf(m, j).charge.NonNegative() && RowOf(m, j).value >= 0 {
        TaxIsNonNegative(SalesOf(m)[j]);
      }
    }
  }

  /**
   * Whoever reads the Table 4A file finds one line for each line of each B2B invoice, in input order, saying what
   * the row holds.
   */
  lemma {:induction false} B2BFileIsFaithful(ms: seq<Invoice>)
    requires B2BSupplies(ms).Ok?
    ensures var (rows, file) := (Rows4A(ms, |ms|), ReadFile(B2BSupplies(ms).value, 0));
            && file.Some? && |file.value| == |rows| + 1 && file.value[0] == B2B_HEADER
            && forall k :: 0 <= k < |rows| ==> SaysRow(file.value[k + 1], rows[k])
  {
    hide Rows4A, FirstB2BError, Fields4A, SaysRow, ReadFile, Rows, Totals.NonNegative;
    var rows := Rows4A(ms, |ms|);
    var table := B2BTable(rows);
    RowsAreSound(ms, |ms|);
    forall k | 0 <= k < |rows| ensures SaysRow(table[k + 1], rows[k]) && table[k + 1] != [] {
      RowReadsBack(rows[k]);
      SaysSomething(table[k + 1], rows[k]);
    }
    forall k | 0 <= k < |table| ensures table[k] != [] {
      if k > 0 {
        assert table[k - 1 + 1] != [];
      }
    }
    PrintedReadsBack(FirstB2BError(ms, |ms|), table);
  }

  lemma {:induction false} SaysSomething(fields: Row, r: Row4A)
    requires SaysRow(fields, r)
    ensures fields != []
  {
  }

  /** The number of lines of the B2B invoices among the first `n`. */
  function B2BLines(ms: seq<Invoice>, n: nat): nat
    requires n <= |ms|
  {
    if n == 0 then 0 else B2BLines(ms, n - 1) + if ms[n - 1].classification == B2B then |ms[n - 1].lines| else 0
  }

  /** A read line of Table 4A says what one line of an invoice and the invoice around it say. */
  predicate SaysLine(fields: Row, m: Invoice, line: LineItem) {
    && |fields| == 12
    && fields[0] == (match m.buyerGstin case Some(gstin) => gstin case None => "")
    && fields[1] == m.number && fields[2] == m.date
    && fields[4] == (if m.placeOfSupply == "same_as_supplier_state" then m.supplierState else m.placeOfSupply)
    && fields[5] == (match m.supply case Intra => "Intra" case Inter => "Inter")
    && RupeesToCents(fields[3]) == Some(InvoiceValue(m)) && PercentToBps(fields[6]) == Some(line.rate)
    && AmountsOf(fields, 7) == Some(Sale(m.supply, line).Charge())
  }

  lemma {:induction false} RowPlace(ms: seq<Invoice>, n: nat, i: nat, j: nat)
    requires i < n <= |ms| && ms[i].classification == B2B && j < |ms[i].lines|
    ensures |Rows4A(ms, n)| == B2BLines(ms, n) && B2BLines(ms, i) + j < B2BLines(ms, n)
    ensures Rows4A(ms, n)[B2BLines(ms, i) + j] == RowOf(ms[i], j)
  {
    hide RowOf;
    RowCount(ms, n - 1);
    RowCount(ms, n);
    if i < n - 1 {
      RowPlace(ms, n - 1, i, j);
    } else {
      assert RowsOf(ms[i])[j] == RowOf(ms[i], j);
    }
  }

  lemma {:induction false} RowCount(ms: seq<Invoice>, n: nat)
    requires n <= |ms|
    ensures |Rows4A(ms, n)| == B2BLines(ms, n)
  {
    hide RowsOf;
    if n > 0 {
      RowCount(ms, n - 1);
    }
  }

  lemma {:induction false} SameSupply(fields: Row, m: Invoice, j: nat)
    requires j < |m.lines| && SaysRow(fields, RowOf(m, j)) && (fields[5] == "Intra" || fields[5] == "Inter")
    ensures SaysLine(fields, m, m.lines[j])
  {
    hide InvoiceValue, AmountsOf, RupeesToCents, PercentToBps, Sale.Charge;
    assert "Intra"[3] != "Inter"[3];
  }

  lemma {:induction false} LineReadsBack(m: Invoice, j: nat)
    requires j < |m.lines|
    ensures SaysLine(Fields4A(RowOf(m, j)), m, m.lines[j])
  {
    hide InvoiceValue, AmountsOf, RupeesToCents, PercentToBps, Sale.Charge, CentsToRupees, RatePercent, SaysRow,
      Totals.NonNegative;
    RowIsSound(m, j);
    RowReadsBack(RowOf(m, j));
    SameSupply(Fields4A(RowOf(m, j)), m, j);
  }

  lemma {:induction false} RowIsSound(m: Invoice, j: nat)
    requires j < |m.lines|
    ensures RowOf(m, j).charge.NonNegative() && RowOf(m, j).value >= 0
  {
    hide Totals.NonNegative, TaxableTotal, TaxTotal, Sale.Charge, TaxOf;
    ValueIsNonNegative(m, |m.lines|);
    TaxIsNonNegative(SalesOf(m)[j]);
  }

  /** Where a line of a B2B invoice stands in the Table 4A file, and what it says; no other line is in the file. */
  lemma {:induction false} B2BLineIsFaithful(ms: seq<Invoice>, i: nat, j: nat)
    requires B2BSupplies(ms).Ok? && i < |ms| && ms[i].classification == B2B && j < |ms[i].lines|
    ensures var (file, at) := (ReadFile(B2BSupplies(ms).value, 0), 1 + B2BLines(ms, i) + j);
            && file.Some? && |file.value| == 1 + B2BLines(ms, |ms|)
            && at < |file.value| && SaysLine(file.value[at], ms[i], ms[i].lines[j])
  {
    hide Rows4A, FirstB2BError, Fields4A, SaysRow, SaysLine, ReadFile, Rows, RowOf, B2BLines;
    var rows := Rows4A(ms, |ms|);
    RowPlace(ms, |ms|, i, j);
    LineReadsBack(ms[i], j);
    B2BFileIsTable(ms);
    assert B2BTable(rows)[1 + B2BLines(ms, i) + j] == Fields4A(rows[B2BLines(ms, i) + j]);
  }

  lemma {:induction false} B2BFileIsTable(ms: seq<Invoice>)
    requires B2BSupplies(ms).Ok?
    ensures ReadFile(B2BSupplies(ms).value, 0) == Some(B2BTable(Rows4A(ms, |ms|)))
  {
    hide Rows4A, FirstB2BError, ReadFile, Rows;
    var table := B2BTable(Rows4A(ms, |ms|));
    forall k | 0 <= k < |table| ensures table[k] != [] {
    }
    PrintedReadsBack(FirstB2BError(ms, |ms|), table);
  }

  // ---------------------------------------------------------------- the three files of a filing

  datatype Filing = Filing(b2b: string, hsn: string, summary: string)

  /** The three files, or the exception of the first generator that throws. */
  function Files(d: Doubles, ms: seq<Invoice>): Result<Filing, TaxError> {
    match B2BSupplies(ms)
    case Err(e) => Err(e)
    case Ok(b) =>
      match HsnSummary(d, ms)
      case Err(e) => Err(e)
      case Ok(h) =>
        match Summary3B(ms)
        case Err(e) => Err(e)
        case Ok(t) => Ok(Filing(b, h, t))
  }

  method Generate(d: Doubles, ms: seq<Invoice>) returns (r: Result<Filing, TaxError>)
    ensures r == Files(d, ms)
  {
    hide B2BSupplies, HsnSummary, Summary3B;
    var b := Gstr1B2B(ms);
    if b.Err? {
      return Err(b.error);
    }
    var h := Gstr1HsnSummary(d, ms);
    if h.Err? {
      return Err(h.error);
    }
    var t := Gstr3B(d, ms);
    if t.Err? {
      return Err(t.error);
    }
    r := Ok(Filing(b.value, h.value, t.value));
  }
}
