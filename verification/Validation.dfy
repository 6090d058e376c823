/** `StateMatrix::validateAndSanitize`: how an extracted document becomes an immutable tax matrix. */
module Validation {
  import opened Prelude
  import opened Facts
  import opened Money
  import opened Gstr

  /** What validation does: build a value, reject the document as an invalid argument, or throw something else. */
  datatype Checked<+T> = Accepted(value: T) | Rejected(why: string) | Escapes {
    predicate IsFailure() { !Accepted? }

    function PropagateFailure<U>(): Checked<U>
      requires IsFailure()
    {
      if Rejected? then Rejected(why) else Escapes
    }

    function Extract(): T
      requires Accepted?
    {
      value
    }
  }

  datatype Supplier = Supplier(gstin: string, name: string, state: string, aato: Option<real>)

  datatype Buyer = Buyer(registered: Option<bool>, gstin: Option<string>, name: Option<string>, state: Option<string>)

  /** The tax flags that validation derives from the amounts. */
  datatype TaxFlags = TaxFlags(hasIgst: bool, hasCgstSgst: bool)

  /** A validated document: the part that the returns read, and the rest. */
  datatype Matrix = Matrix(invoice: Invoice, supplier: Supplier, buyer: Buyer, hsnString: string, irn: Option<string>,
                           baseValue: nat, totalValue: nat, tax: TaxBreakdown, reportedOn: Option<string>)
  {
    function Flags(): TaxFlags { TaxFlags(tax.hasIgst, tax.hasCgstSgst) }
  }

  // ---------------------------------------------------------------- primitives

  function Fail<T>(path: string, why: string): Checked<T> {
    Rejected("StateMatrix::validateAndSanitize: " + path + ": " + why)
  }

  /** `at`: a missing key throws an exception of the JSON library. */
  function At(j: Json, key: string): Checked<Json> {
    match Get(j, key) case Some(v) => Accepted(v) case None => Escapes
  }

  /** `requireString`. */
  function Text(v: Json, path: string): Checked<string> {
    if v.JStr? then Accepted(v.text) else Rejected("StateMatrix: " + path + ": expected a string")
  }

  function TextAt(j: Json, path: string, key: string): Checked<string> {
    var v :- At(j, key);
    Text(v, path + "." + key)
  }

  function OptionalText(j: Json, path: string, key: string): Checked<Option<string>> {
    match Get(j, key)
    case None => Accepted(None)
    case Some(v) => var s :- Text(v, path + "." + key); Accepted(Some(s))
  }

  /** `llround` of a number that is not negative, if that is at most `limit`. */
  function Round(x: real, limit: nat): (r: Option<nat>)
    ensures r.Some? <==> 0.0 <= x <= limit as real
    ensures r.Some? ==> r.value <= limit && r.value as real <= x + 0.5 < r.value as real + 1.0
  {
    if 0.0 <= x <= limit as real then Some((x + 0.5).Floor) else None
  }

  /** `money::toCents`. */
  function ToCents(d: Doubles, v: Json): (r: Checked<nat>)
    ensures r.Accepted? ==> v.JNum? && r.value <= CENTS_LIMIT
  {
    if !v.JNum? then Rejected("StateMatrix: money value is not a number")
    else
      match Round(d.hundredfold(v.value), CENTS_LIMIT)
      case None => Rejected("StateMatrix: money value out of range (negative or too large)")
      case Some(cents) => Accepted(cents)
  }

  /** `rateToBps`. */
  function RateToBps(d: Doubles, v: Json, path: string): (r: Checked<nat>)
    ensures r.Accepted? ==> v.JNum? && r.value <= RATE_LIMIT
  {
    if !v.JNum? then Rejected("StateMatrix: " + path + ": expected a number")
    else if v.value < 0.0 then Rejected("StateMatrix: " + path + ": rate must be finite and non-negative")
    else
      match Round(d.hundredfold(v.value), RATE_LIMIT)
      case None => Rejected("StateMatrix: " + path + ": rate out of range")
      case Some(bps) => Accepted(bps)
  }

  // ---------------------------------------------------------------- the parts of a document

  function ReadAato(sup: Json): Checked<Option<real>> {
    match Get(sup, "aato_crore")
    case None => Accepted(None)
    case Some(v) =>
      if !v.JNum? then Fail("supplier.aato_crore", "must be a number")
      else if v.value < 0.0 then Fail("supplier.aato_crore", "must be finite and non-negative")
      else Accepted(Some(v.value))
  }

  function ReadSupplier(doc: Json): Checked<Supplier> {
    match Get(doc, "supplier")
    case Some(JObj(fields)) =>
      var sup := JObj(fields);
      var gstin :- TextAt(sup, "supplier", "gstin");
      var name :- TextAt(sup, "supplier", "name");
      var state :- TextAt(sup, "supplier", "address_state");
      var aato :- ReadAato(sup);
      Accepted(Supplier(gstin, name, state, aato))
    case _ => Fail("supplier", "required object not present")
  }

  function ReadRegistered(buyer: Json): Checked<Option<bool>> {
    match Get(buyer, "registered")
    case None => Accepted(None)
    case Some(JBool(b)) => Accepted(Some(b))
    case _ => Fail("buyer.registered", "must be a boolean")
  }

  function ReadBuyer(doc: Json): Checked<Buyer> {
    match Get(doc, "buyer")
    case None => Accepted(Buyer(None, None, None, None))
    case Some(JObj(fields)) =>
      var buyer := JObj(fields);
      var registered :- ReadRegistered(buyer);
      var gstin :- OptionalText(buyer, "buyer", "gstin");
      var name :- OptionalText(buyer, "buyer", "name");
      var state :- OptionalText(buyer, "buyer", "address_state");
      Accepted(Buyer(registered, gstin, name, state))
    case _ => Fail("buyer", "must be an object")
  }

  /** The texts of an invoice. */
  datatype Heading = Heading(number: string, date: string, placeOfSupply: string, hsnString: string,
                             supply: SupplyType, classification: Classification, irn: Option<string>)

  function ReadSupply(inv: Json): Checked<SupplyType> {
    var st :- TextAt(inv, INVOICE, "supply_type");
    if st == "INTRA" then Accepted(Intra)
    else if st == "INTER" then Accepted(Inter)
    else Fail("invoice.supply_type", "must be 'INTRA' or 'INTER'")
  }

  function ReadClassification(inv: Json): Checked<Classification> {
    var cls :- TextAt(inv, INVOICE, "classification");
    if cls == "B2B" then Accepted(B2B)
    else if cls == "B2C" then Accepted(B2C)
    else if cls == "UNDETERMINED" then Accepted(Undetermined)
    else Fail("invoice.classification", "must be 'B2B', 'B2C' or 'UNDETERMINED'")
  }

  /** The reference number, which an invoice must have if it says so. */
  function ReadIrn(inv: Json): Checked<Option<string>> {
    match Get(inv, "irn_present")
    case Some(JBool(present)) =>
      if !present then Accepted(None)
      else (match Get(inv, "irn")
            case Some(JStr(irn)) => Accepted(Some(irn))
            case _ => Fail("invoice.irn", "required string when irn_present is true"))
    case _ => Fail("invoice.irn_present", "required boolean not present")
  }

  function ReadHeading(inv: Json): Checked<Heading> {
    var number :- TextAt(inv, INVOICE, "number");
    var date :- TextAt(inv, INVOICE, "date");
    var place :- TextAt(inv, INVOICE, "place_of_supply");
    var hsnString :- TextAt(inv, INVOICE, "hsn_string");
    var supply :- ReadSupply(inv);
    var classification :- ReadClassification(inv);
    var irn :- ReadIrn(inv);
    Accepted(Heading(number, date, place, hsnString, supply, classification, irn))
  }

  /** A required amount of an invoice. */
  function ReadValue(d: Doubles, inv: Json, key: string): (r: Checked<nat>)
    ensures r.Accepted? ==> r.value <= CENTS_LIMIT
  {
    match Get(inv, key)
    case None => Fail(INVOICE + "." + key, "required number not present")
    case Some(v) => ToCents(d, v)
  }

  function ReadQuantity(li: Json, path: string): Checked<Option<real>> {
    match Get(li, "quantity")
    case None => Accepted(None)
    case Some(JNum(q)) => Accepted(Some(q))
    case _ => Fail(path + ".quantity", "must be a number")
  }

  function ReadUnitPrice(d: Doubles, li: Json): Checked<Option<nat>> {
    match Get(li, "unit_price")
    case None => Accepted(None)
    case Some(v) => var cents :- ToCents(d, v); Accepted(Some(cents))
  }

  function LinePath(i: nat): string { "invoice.line_items[" + Digits(i) + "]" }

  function ReadLine(d: Doubles, li: Json, path: string): (r: Checked<LineItem>)
    ensures r.Accepted? ==> r.value.base <= CENTS_LIMIT && r.value.rate <= RATE_LIMIT
  {
    if !li.JObj? then Fail(path, "line item must be an object")
    else
      var hsn :- TextAt(li, path, "hsn");
      var rateValue :- At(li, "tax_rate");
      var rate :- RateToBps(d, rateValue, path + "." + "tax_rate");
      var baseValue :- At(li, "base_value");
      var base :- ToCents(d, baseValue);
      var description :- OptionalText(li, path, "description");
      var quantity :- ReadQuantity(li, path);
      var unitPrice :- ReadUnitPrice(d, li);
      Accepted(LineItem(hsn, if description.Some? then description.value else "", base, rate, quantity, unitPrice))
  }

  /** The first `n` line items, or the first fault among them. */
  function ReadLines(d: Doubles, items: seq<Json>, n: nat): (r: Checked<seq<LineItem>>)
    requires n <= |items|
    ensures r.Accepted? ==>
              |r.value| == n &&
              forall k :: 0 <= k < n ==> r.value[k].base <= CENTS_LIMIT && r.value[k].rate <= RATE_LIMIT
  {
    if n == 0 then Accepted([])
    else
      var before :- ReadLines(d, items, n - 1);
      var line :- ReadLine(d, items[n - 1], LinePath(n - 1));
      Accepted(before + [line])
  }

  lemma {:induction false} FaultStays(d: Doubles, items: seq<Json>, k: nat, n: nat)
    requires k <= n <= |items|
    ensures !ReadLines(d, items, k).Accepted? ==> ReadLines(d, items, n) == ReadLines(d, items, k)
  {
    hide ReadLine;
    if k < n {
      FaultStays(d, items, k, n - 1);
    }
  }

  /** An amount of a breakdown, or what stands for it if there is none. */
  function ReadAmount(d: Doubles, tb: Json, key: string, default: nat): Checked<nat> {
    match Get(tb, key) case None => Accepted(default) case Some(v) => ToCents(d, v)
  }

  /** The amounts of a breakdown; the flags come from them and not from what the document says. */
  function ReadBreakdown(d: Doubles, tb: Json): Checked<TaxBreakdown> {
    var cgst :- ReadAmount(d, tb, "cgst", 0);
    var sgst :- ReadAmount(d, tb, "sgst", 0);
    var igst :- ReadAmount(d, tb, "igst", 0);
    var cess :- ReadAmount(d, tb, "cess", 0);
    var total :- ReadAmount(d, tb, "total_tax", cgst + sgst + igst + cess);
    Accepted(TaxBreakdown(cgst, sgst, igst, cess, total, cgst > 0 || sgst > 0, igst > 0))
  }

  function ReadTax(d: Doubles, inv: Json): Checked<TaxBreakdown> {
    match Get(inv, BREAKDOWN)
    case Some(JObj(fields)) => ReadBreakdown(d, JObj(fields))
    case _ => Fail("invoice.tax_breakdown", "required object not present")
  }

  function ReadReport(doc: Json): Checked<Option<string>> {
    match Get(doc, "irp")
    case None => Accepted(None)
    case Some(JObj(fields)) => OptionalText(JObj(fields), "irp", "reported_on")
    case _ => Fail("irp", "must be an object")
  }

  // ---------------------------------------------------------------- the document

  /** What the invoice object holds. */
  datatype Body = Body(heading: Heading, base: nat, lines: seq<LineItem>, tax: TaxBreakdown, total: nat)

  function ItemsOf(inv: Json): Checked<seq<Json>> {
    match Get(inv, "line_items")
    case Some(JArr(items)) => Accepted(items)
    case _ => Fail("invoice.line_items", "required array not present")
  }

  function ReadBody(d: Doubles, inv: Json): Checked<Body> {
    var heading :- ReadHeading(inv);
    var base :- ReadValue(d, inv, "base_value");
    var items :- ItemsOf(inv);
    var lines :- ReadLines(d, items, |items|);
    var tax :- ReadTax(d, inv);
    var total :- ReadValue(d, inv, "total_value");
    Accepted(Body(heading, base, lines, tax, total))
  }

  function ReadInvoice(d: Doubles, doc: Json): Checked<Body> {
    match Get(doc, INVOICE)
    case Some(JObj(fields)) => ReadBody(d, JObj(fields))
    case _ => Fail("invoice", "required object not present")
  }

  function Assembled(s: Supplier, b: Buyer, body: Body, reportedOn: Option<string>): Matrix {
    var h := body.heading;
    Matrix(Invoice(h.classification, h.supply, h.number, h.date, b.gstin, h.placeOfSupply, s.state, body.lines),
           s, b, h.hsnString, h.irn, body.base, body.total, body.tax, reportedOn)
  }

  function Validate(d: Doubles, doc: Json): Checked<Matrix> {
    if !doc.JObj? then Fail("document", "root must be a JSON object")
    else
      var supplier :- ReadSupplier(doc);
      var buyer :- ReadBuyer(doc);
      var body :- ReadInvoice(d, doc);
      var reportedOn :- ReadReport(doc);
      Accepted(Assembled(supplier, buyer, body, reportedOn))
  }

  /** The loop over the line items. */
  method CollectLines(d: Doubles, items: seq<Json>) returns (r: Checked<seq<LineItem>>)
    ensures r == ReadLines(d, items, |items|)
  {
    hide ReadLine;
    var lines: seq<LineItem> := [];
    for i := 0 to |items|
      invariant ReadLines(d, items, i) == Accepted(lines)
    {
      var item := ReadLine(d, items[i], LinePath(i));
      if item.IsFailure() {
        FaultStays(d, items, i + 1, |items|);
        return item.PropagateFailure();
      }
      lines := lines + [item.value];
    }
    r := Accepted(lines);
  }

  method CollectBody(d: Doubles, inv: Json) returns (r: Checked<Body>)
    ensures r == ReadBody(d, inv)
  {
    hide ReadHeading, ReadValue, ItemsOf, ReadLines, ReadTax;
    var heading :- ReadHeading(inv);
    var base :- ReadValue(d, inv, "base_value");
    var items :- ItemsOf(inv);
    var lines :- CollectLines(d, items);
    var tax :- ReadTax(d, inv);
    var total :- ReadValue(d, inv, "total_value");
    r := Accepted(Body(heading, base, lines, tax, total));
  }

  method ValidateAndSanitize(d: Doubles, doc: Json) returns (r: Checked<Matrix>)
    ensures r == Validate(d, doc)
  {
    hide ReadSupplier, ReadBuyer, ReadBody, ReadReport, Assembled;
    if !doc.JObj? {
      return Fail("document", "root must be a JSON object");
    }
    var supplier :- ReadSupplier(doc);
    var buyer :- ReadBuyer(doc);
    var inv := Get(doc, INVOICE);
    if inv.None? || !inv.value.JObj? {
      return Fail("invoice", "required object not present");
    }
    var body :- CollectBody(d, inv.value);
    var reportedOn :- ReadReport(doc);
    r := Accepted(Assembled(supplier, buyer, body, reportedOn));
  }

  /** `StateMatrix::validateAndSanitize` as a value to hand on. */
  function Validator(d: Doubles): Json -> Checked<Matrix> { doc => Validate(d, doc) }

  // ---------------------------------------------------------------- which documents are accepted

  predicate IsText(v: Option<Json>) { v.Some? && v.value.JStr? }

  predicate MaybeText(v: Option<Json>) { v.Some? ==> v.value.JStr? }

  predicate IsMoney(d: Doubles, v: Option<Json>) {
    v.Some? && v.value.JNum? && 0.0 <= d.hundredfold(v.value.value) <= CENTS_LIMIT as real
  }

  predicate MaybeMoney(d: Doubles, v: Option<Json>) { v.Some? ==> IsMoney(d, v) }

  predicate IsRate(d: Doubles, v: Option<Json>) {
    v.Some? && v.value.JNum? && v.value.value >= 0.0 && 0.0 <= d.hundredfold(v.value.value) <= RATE_LIMIT as real
  }

  predicate MaybeNumber(v: Option<Json>) { v.Some? ==> v.value.JNum? }

  predicate GoodSupplier(sup: Json) {
    && sup.JObj? && IsText(Get(sup, "gstin")) && IsText(Get(sup, "name")) && IsText(Get(sup, "address_state"))
    && MaybeNumber(Get(sup, "aato_crore"))
    && (Get(sup, "aato_crore").Some? ==> Get(sup, "aato_crore").value.value >= 0.0)
  }

  predicate GoodBuyer(buyer: Json) {
    && buyer.JObj? && (Get(buyer, "registered").Some? ==> Get(buyer, "registered").value.JBool?)
    && MaybeText(Get(buyer, "gstin")) && MaybeText(Get(buyer, "name")) && MaybeText(Get(buyer, "address_state"))
  }

  predicate GoodHeading(inv: Json) {
    && IsText(Get(inv, "number")) && IsText(Get(inv, "date")) && IsText(Get(inv, "place_of_supply"))
    && IsText(Get(inv, "hsn_string"))
    && Get(inv, "supply_type") in {Some(JStr("INTRA")), Some(JStr("INTER"))}
    && Get(inv, "classification") in {Some(JStr("B2B")), Some(JStr("B2C")), Some(JStr("UNDETERMINED"))}
    && Get(inv, "irn_present").Some? && Get(inv, "irn_present").value.JBool?
    && (Get(inv, "irn_present").value.flag ==> IsText(Get(inv, "irn")))
  }

  predicate GoodLine(d: Doubles, li: Json) {
    && li.JObj? && IsText(Get(li, "hsn")) && IsRate(d, Get(li, "tax_rate")) && IsMoney(d, Get(li, "base_value"))
    && MaybeText(Get(li, "description")) && MaybeNumber(Get(li, "quantity")) && MaybeMoney(d, Get(li, "unit_price"))
  }

  predicate GoodBreakdown(d: Doubles, tb: Json) {
    && tb.JObj? && MaybeMoney(d, Get(tb, "cgst")) && MaybeMoney(d, Get(tb, "sgst")) && MaybeMoney(d, Get(tb, "igst"))
    && MaybeMoney(d, Get(tb, "cess")) && MaybeMoney(d, Get(tb, "total_tax"))
  }

  predicate GoodLines(d: Doubles, v: Option<Json>) {
    v.Some? && v.value.JArr? && forall k :: 0 <= k < |v.value.items| ==> GoodLine(d, v.value.items[k])
  }

  predicate GoodInvoice(d: Doubles, inv: Json) {
    && inv.JObj? && GoodHeading(inv) && IsMoney(d, Get(inv, "base_value")) && GoodLines(d, Get(inv, "line_items"))
    && Get(inv, BREAKDOWN).Some? && GoodBreakdown(d, Get(inv, BREAKDOWN).value) && IsMoney(d, Get(inv, "total_value"))
  }

  predicate GoodReport(irp: Json) { irp.JObj? && MaybeText(Get(irp, "reported_on")) }

  /** What an extracted document has to look like. */
  predicate GoodDocument(d: Doubles, doc: Json) {
    && doc.JObj? && Get(doc, "supplier").Some? && GoodSupplier(Get(doc, "supplier").value)
    && (Get(doc, "buyer").Some? ==> GoodBuyer(Get(doc, "buyer").value))
    && Get(doc, INVOICE).Some? && GoodInvoice(d, Get(doc, INVOICE).value)
    && (Get(doc, "irp").Some? ==> GoodReport(Get(doc, "irp").value))
  }

  lemma {:induction false} TextIsRead(j: Json, path: string, key: string)
    ensures TextAt(j, path, key).Accepted? <==> IsText(Get(j, key))
    ensures OptionalText(j, path, key).Accepted? <==> MaybeText(Get(j, key))
  {
    hide Get;
  }

  lemma {:induction false} MoneyIsRead(d: Doubles, v: Json)
    ensures ToCents(d, v).Accepted? <==> IsMoney(d, Some(v))
    ensures !IsMoney(d, None)
  {
  }

  lemma {:induction false} AmountIsRead(d: Doubles, j: Json, key: string, default: nat)
    ensures ReadAmount(d, j, key, default).Accepted? <==> MaybeMoney(d, Get(j, key))
  {
    hide Get, ToCents, IsMoney;
    if Get(j, key).Some? {
      MoneyIsRead(d, Get(j, key).value);
    }
  }

  lemma {:induction false} GoodSupplierIsRead(doc: Json)
    ensures ReadSupplier(doc).Accepted? <==> Get(doc, "supplier").Some? && GoodSupplier(Get(doc, "supplier").value)
  {
    hide Get, TextAt, IsText;
    if Get(doc, "supplier").Some? {
      var sup := Get(doc, "supplier").value;
      TextIsRead(sup, "supplier", "gstin");
      TextIsRead(sup, "supplier", "name");
      TextIsRead(sup, "supplier", "address_state");
    }
  }

  lemma {:induction false} GoodBuyerIsRead(doc: Json)
    ensures ReadBuyer(doc).Accepted? <==> (Get(doc, "buyer").Some? ==> GoodBuyer(Get(doc, "buyer").value))
  {
    hide Get, OptionalText, MaybeText;
    if Get(doc, "buyer").Some? {
      var buyer := Get(doc, "buyer").value;
      TextIsRead(buyer, "buyer", "gstin");
      TextIsRead(buyer, "buyer", "name");
      TextIsRead(buyer, "buyer", "address_state");
    }
  }

  lemma {:induction false} GoodKindIsRead(inv: Json)
    ensures ReadSupply(inv).Accepted? <==> Get(inv, "supply_type") in {Some(JStr("INTRA")), Some(JStr("INTER"))}
    ensures ReadClassification(inv).Accepted? <==>
            Get(inv, "classification") in {Some(JStr("B2B")), Some(JStr("B2C")), Some(JStr("UNDETERMINED"))}
  {
    hide Get;
  }

  lemma {:induction false} GoodHeadingIsRead(inv: Json)
    ensures ReadHeading(inv).Accepted? <==> GoodHeading(inv)
  {
    hide Get, TextAt, IsText, ReadSupply, ReadClassification;
    TextIsRead(inv, INVOICE, "number");
    TextIsRead(inv, INVOICE, "date");
    TextIsRead(inv, INVOICE, "place_of_supply");
    TextIsRead(inv, INVOICE, "hsn_string");
    GoodKindIsRead(inv);
    GoodIrnIsRead(inv);
  }

  lemma {:induction false} GoodIrnIsRead(inv: Json)
    ensures ReadIrn(inv).Accepted? <==>
            && Get(inv, "irn_present").Some? && Get(inv, "irn_present").value.JBool?
            && (Get(inv, "irn_present").value.flag ==> IsText(Get(inv, "irn")))
  {
    hide Get;
  }

  lemma {:induction false} GoodLineIsRead(d: Doubles, li: Json, path: string)
    ensures ReadLine(d, li, path).Accepted? <==> GoodLine(d, li)
  {
    hide Get, TextAt, OptionalText, IsText, MaybeText, ToCents, IsMoney;
    TextIsRead(li, path, "hsn");
    TextIsRead(li, path, "description");
    MoneyIsRead(d, if Get(li, "base_value").Some? then Get(li, "base_value").value else JNull);
    if Get(li, "unit_price").Some? {
      MoneyIsRead(d, Get(li, "unit_price").value);
    }
  }

  lemma {:induction false} GoodLinesAreRead(d: Doubles, items: seq<Json>, n: nat)
    requires n <= |items|
    ensures ReadLines(d, items, n).Accepted? <==> forall k :: 0 <= k < n ==> GoodLine(d, items[k])
  {
    hide ReadLine, GoodLine;
    if n > 0 {
      GoodLinesAreRead(d, items, n - 1);
      GoodLineIsRead(d, items[n - 1], LinePath(n - 1));
    }
  }

  lemma {:induction false} GoodBreakdownIsRead(d: Doubles, tb: Json)
    requires tb.JObj?
    ensures ReadBreakdown(d, tb).Accepted? <==> GoodBreakdown(d, tb)
  {
    hide Get, ReadAmount, MaybeMoney;
    AmountIsRead(d, tb, "cgst", 0);
    AmountIsRead(d, tb, "sgst", 0);
    AmountIsRead(d, tb, "igst", 0);
    AmountIsRead(d, tb, "cess", 0);
    forall default: nat
      ensures ReadAmount(d, tb, "total_tax", default).Accepted? <==> MaybeMoney(d, Get(tb, "total_tax"))
    {
      AmountIsRead(d, tb, "total_tax", default);
    }
  }

  lemma {:induction false} GoodTaxIsRead(d: Doubles, inv: Json)
    ensures ReadTax(d, inv).Accepted? <==> Get(inv, BREAKDOWN).Some? && GoodBreakdown(d, Get(inv, BREAKDOWN).value)
  {
    hide Get, ReadBreakdown, MaybeMoney;
    if Get(inv, BREAKDOWN).Some? && Get(inv, BREAKDOWN).value.JObj? {
      GoodBreakdownIsRead(d, Get(inv, BREAKDOWN).value);
    }
  }

  lemma {:induction false} GoodInvoiceIsRead(d: Doubles, doc: Json)
    ensures ReadInvoice(d, doc).Accepted? <==> Get(doc, INVOICE).Some? && GoodInvoice(d, Get(doc, INVOICE).value)
  {
    hide Get, ReadHeading, GoodHeading, ReadLines, GoodLine, ReadTax, GoodBreakdown, ToCents, IsMoney;
    if Get(doc, INVOICE).Some? {
      var inv := Get(doc, INVOICE).value;
      GoodHeadingIsRead(inv);
      GoodTaxIsRead(d, inv);
      if Get(inv, "line_items").Some? && Get(inv, "line_items").value.JArr? {
        GoodLinesAreRead(d, Get(inv, "line_items").value.items, |Get(inv, "line_items").value.items|);
      }
      GoodValueIsRead(d, inv, "base_value");
      GoodValueIsRead(d, inv, "total_value");
    }
  }

  lemma {:induction false} GoodValueIsRead(d: Doubles, inv: Json, key: string)
    ensures ReadValue(d, inv, key).Accepted? <==> IsMoney(d, Get(inv, key))
  {
    hide Get;
  }

  lemma {:induction false} GoodReportIsRead(doc: Json)
    ensures ReadReport(doc).Accepted? <==> (Get(doc, "irp").Some? ==> GoodReport(Get(doc, "irp").value))
  {
    hide Get;
  }

  /** Exactly the documents that look like this are accepted, in whatever order they are checked. */
  lemma {:induction false} AcceptedExactly(d: Doubles, doc: Json)
    ensures Validate(d, doc).Accepted? <==> GoodDocument(d, doc)
  {
    hide Get, ReadSupplier, GoodSupplier, ReadBuyer, GoodBuyer, ReadInvoice, GoodInvoice, ReadReport, GoodReport;
    GoodSupplierIsRead(doc);
    GoodBuyerIsRead(doc);
    GoodInvoiceIsRead(d, doc);
    GoodReportIsRead(doc);
  }

  /** Every line of an accepted document is small enough for the sums of the returns. */
  lemma {:induction false} AcceptedLinesFit(d: Doubles, doc: Json, k: nat)
    requires Validate(d, doc).Accepted? && k < |Validate(d, doc).value.invoice.lines|
    ensures var line := Validate(d, doc).value.invoice.lines[k]; line.base <= CENTS_LIMIT && line.rate <= RATE_LIMIT
  {
    hide ReadSupplier, ReadBuyer, ReadReport, ReadHeading, ReadValue, ReadTax, ItemsOf;
  }
}
