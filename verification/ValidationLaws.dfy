/** What an accepted matrix says of its document, key by key, and which documents escape as an exception. */
module ValidationLaws {
  import opened Prelude
  import opened Facts
  import opened Money
  import opened Gstr
  import opened Validation

  // ---------------------------------------------------------------- what stands under a key

  predicate Says(j: Json, key: string, text: string) { Get(j, key) == Some(JStr(text)) }

  predicate SaysMaybe(j: Json, key: string, text: Option<string>) {
    Get(j, key) == match text case Some(s) => Some(JStr(s)) case None => None
  }

  /** The whole number nearest to a hundred times the amount, halves upwards. */
  predicate IsHundredfold(d: Doubles, v: Json, n: int) {
    v.JNum? && n as real - 0.5 <= d.hundredfold(v.value) < n as real + 0.5
  }

  predicate Holds(d: Doubles, j: Json, key: string, n: int) {
    Get(j, key).Some? && IsHundredfold(d, Get(j, key).value, n)
  }

  /** An amount that counts as `default` where it is missing. */
  predicate HoldsOr(d: Doubles, j: Json, key: string, n: int, default: int) {
    match Get(j, key) case Some(v) => IsHundredfold(d, v, n) case None => n == default
  }

  // ---------------------------------------------------------------- what a matrix says

  predicate ReflectsSupplier(sup: Json, s: Supplier) {
    && Says(sup, "gstin", s.gstin) && Says(sup, "name", s.name) && Says(sup, "address_state", s.state)
    && Get(sup, "aato_crore") == match s.aato case Some(x) => Some(JNum(x)) case None => None
  }

  predicate ReflectsBuyer(buyer: Json, b: Buyer) {
    && Get(buyer, "registered") == (match b.registered case Some(r) => Some(JBool(r)) case None => None)
    && SaysMaybe(buyer, "gstin", b.gstin) && SaysMaybe(buyer, "name", b.name)
    && SaysMaybe(buyer, "address_state", b.state)
  }

  predicate ReflectsKind(inv: Json, m: Matrix) {
    && (m.invoice.supply == Intra <==> Says(inv, "supply_type", "INTRA"))
    && (m.invoice.supply == Inter <==> Says(inv, "supply_type", "INTER"))
    && (m.invoice.classification == B2B <==> Says(inv, "classification", "B2B"))
    && (m.invoice.classification == B2C <==> Says(inv, "classification", "B2C"))
    && (m.invoice.classification == Undetermined <==> Says(inv, "classification", "UNDETERMINED"))
  }

  predicate ReflectsHeading(inv: Json, m: Matrix) {
    && Says(inv, "number", m.invoice.number) && Says(inv, "date", m.invoice.date)
    && Says(inv, "place_of_supply", m.invoice.placeOfSupply) && Says(inv, "hsn_string", m.hsnString)
    && ReflectsKind(inv, m)
    && Get(inv, "irn_present") == Some(JBool(m.irn.Some?)) && (m.irn.Some? ==> Says(inv, "irn", m.irn.value))
  }

  predicate ReflectsLine(d: Doubles, li: Json, line: LineItem) {
    && Says(li, "hsn", line.hsn) && Holds(d, li, "tax_rate", line.rate) && Holds(d, li, "base_value", line.base)
    && (Says(li, "description", line.description) || (Get(li, "description").None? && line.description == ""))
    && Get(li, "quantity") == (match line.quantity case Some(q) => Some(JNum(q)) case None => None)
    && match line.unitPrice
       case Some(cents) => Holds(d, li, "unit_price", cents)
       case None => Get(li, "unit_price").None?
  }

  predicate ReflectsLines(d: Doubles, items: seq<Json>, lines: seq<LineItem>) {
    |lines| == |items| && forall k :: 0 <= k < |items| ==> ReflectsLine(d, items[k], lines[k])
  }

  /** The flags follow from the amounts; without a total the heads are added up. */
  predicate ReflectsTax(d: Doubles, tb: Json, t: TaxBreakdown) {
    && HoldsOr(d, tb, "cgst", t.cgst, 0) && HoldsOr(d, tb, "sgst", t.sgst, 0) && HoldsOr(d, tb, "igst", t.igst, 0)
    && HoldsOr(d, tb, "cess", t.cess, 0) && HoldsOr(d, tb, "total_tax", t.totalTax, t.cgst + t.sgst + t.igst + t.cess)
    && (t.hasIgst <==> t.igst > 0) && (t.hasCgstSgst <==> t.cgst > 0 || t.sgst > 0)
  }

  predicate ReflectsInvoice(d: Doubles, inv: Json, m: Matrix) {
    && ReflectsHeading(inv, m) && Holds(d, inv, "base_value", m.baseValue) && Holds(d, inv, "total_value", m.totalValue)
    && Get(inv, "line_items").Some? && Get(inv, "line_items").value.JArr?
    && ReflectsLines(d, Get(inv, "line_items").value.items, m.invoice.lines)
    && Get(inv, "tax_breakdown").Some? && ReflectsTax(d, Get(inv, "tax_breakdown").value, m.tax)
  }

  /** Everything that a matrix holds stands in the document, and what it has not is not there. */
  predicate Reflects(d: Doubles, doc: Json, m: Matrix) {
    && Get(doc, "supplier").Some? && ReflectsSupplier(Get(doc, "supplier").value, m.supplier)
    && (match Get(doc, "buyer")
        case Some(buyer) => ReflectsBuyer(buyer, m.buyer)
        case None => m.buyer == Buyer(None, None, None, None))
    && Get(doc, "invoice").Some? && ReflectsInvoice(d, Get(doc, "invoice").value, m)
    && (match Get(doc, "irp")
        case Some(irp) => SaysMaybe(irp, "reported_on", m.reportedOn)
        case None => m.reportedOn.None?)
    && m.invoice.supplierState == m.supplier.state && m.invoice.buyerGstin == m.buyer.gstin
  }

  // ---------------------------------------------------------------- every accepted document

  lemma {:induction false} NearestIsHundredfold(d: Doubles, v: Json)
    ensures ToCents(d, v).Accepted? ==> IsHundredfold(d, v, ToCents(d, v).value)
  {
  }

  lemma {:induction false} RateIsHundredfold(d: Doubles, v: Json, path: string)
    ensures RateToBps(d, v, path).Accepted? ==> IsHundredfold(d, v, RateToBps(d, v, path).value)
  {
  }

  lemma {:induction false} TextIsSaid(j: Json, path: string, key: string)
    ensures TextAt(j, path, key).Accepted? ==> Says(j, key, TextAt(j, path, key).value)
    ensures OptionalText(j, path, key).Accepted? ==> SaysMaybe(j, key, OptionalText(j, path, key).value)
  {
    hide Get;
  }

  lemma {:induction false} SupplierLaw(doc: Json)
    requires ReadSupplier(doc).Accepted?
    ensures Get(doc, "supplier").Some? && ReflectsSupplier(Get(doc, "supplier").value, ReadSupplier(doc).value)
  {
    hide Get, TextAt, Says;
    var sup := Get(doc, "supplier").value;
    TextIsSaid(sup, "supplier", "gstin");
    TextIsSaid(sup, "supplier", "name");
    TextIsSaid(sup, "supplier", "address_state");
  }

  lemma {:induction false} BuyerLaw(doc: Json)
    requires ReadBuyer(doc).Accepted?
    ensures match Get(doc, "buyer")
            case Some(buyer) => ReflectsBuyer(buyer, ReadBuyer(doc).value)
            case None => ReadBuyer(doc).value == Buyer(None, None, None, None)
  {
    hide Get, OptionalText, SaysMaybe;
    if Get(doc, "buyer").Some? {
      var buyer := Get(doc, "buyer").value;
      TextIsSaid(buyer, "buyer", "gstin");
      TextIsSaid(buyer, "buyer", "name");
      TextIsSaid(buyer, "buyer", "address_state");
    }
  }

  lemma {:induction false} LineLaw(d: Doubles, li: Json, path: string)
    requires ReadLine(d, li, path).Accepted?
    ensures ReflectsLine(d, li, ReadLine(d, li, path).value)
  {
    hide Get, TextAt, OptionalText, Says, SaysMaybe, ToCents, RateToBps, IsHundredfold;
    TextIsSaid(li, path, "hsn");
    TextIsSaid(li, path, "description");
    DescriptionIsSaid(li);
    RateIsHundredfold(d, Get(li, "tax_rate").value, path + "." + "tax_rate");
    NearestIsHundredfold(d, Get(li, "base_value").value);
    if Get(li, "unit_price").Some? {
      NearestIsHundredfold(d, Get(li, "unit_price").value);
    }
  }

  lemma {:induction false} DescriptionIsSaid(li: Json)
    ensures forall s: string :: SaysMaybe(li, "description", Some(s)) ==> Says(li, "description", s)
    ensures SaysMaybe(li, "description", None) ==> Get(li, "description").None?
  {
    hide Get;
  }

  lemma {:induction false} LinesLaw(d: Doubles, items: seq<Json>, n: nat)
    requires n <= |items| && ReadLines(d, items, n).Accepted?
    ensures forall k :: 0 <= k < n ==> ReflectsLine(d, items[k], ReadLines(d, items, n).value[k])
  {
    hide ReadLine, ReflectsLine;
    if n > 0 {
      LinesLaw(d, items, n - 1);
      LineLaw(d, items[n - 1], LinePath(n - 1));
    }
  }

  lemma {:induction false} AmountLaw(d: Doubles, tb: Json, key: string, default: nat)
    ensures ReadAmount(d, tb, key, default).Accepted? ==>
              HoldsOr(d, tb, key, ReadAmount(d, tb, key, default).value, default)
  {
    hide Get, ToCents, IsHundredfold;
    if Get(tb, key).Some? {
      NearestIsHundredfold(d, Get(tb, key).value);
    }
  }

  lemma {:induction false} TaxLaw(d: Doubles, tb: Json)
    requires ReadBreakdown(d, tb).Accepted?
    ensures ReflectsTax(d, tb, ReadBreakdown(d, tb).value)
  {
    hide Get, ReadAmount, HoldsOr;
    AmountLaw(d, tb, "cgst", 0);
    AmountLaw(d, tb, "sgst", 0);
    AmountLaw(d, tb, "igst", 0);
    AmountLaw(d, tb, "cess", 0);
    var t := ReadBreakdown(d, tb).value;
    AmountLaw(d, tb, "total_tax", t.cgst + t.sgst + t.igst + t.cess);
  }

  lemma {:induction false} HeadingLaw(inv: Json, m: Matrix)
    requires ReadHeading(inv).Accepted?
    requires var h := ReadHeading(inv).value;
             && m.invoice.number == h.number && m.invoice.date == h.date && m.invoice.placeOfSupply == h.placeOfSupply
             && m.hsnString == h.hsnString && m.invoice.supply == h.supply
             && m.invoice.classification == h.classification && m.irn == h.irn
    ensures ReflectsHeading(inv, m)
  {
    hide Get, TextAt, Says, ReadSupply, ReadClassification, ReadIrn, ReflectsKind;
    TextIsSaid(inv, INVOICE, "number");
    TextIsSaid(inv, INVOICE, "date");
    TextIsSaid(inv, INVOICE, "place_of_supply");
    TextIsSaid(inv, INVOICE, "hsn_string");
    KindLaw(inv, m);
    IrnLaw(inv);
  }

  lemma {:induction false} KindLaw(inv: Json, m: Matrix)
    requires ReadSupply(inv) == Accepted(m.invoice.supply)
    requires ReadClassification(inv) == Accepted(m.invoice.classification)
    ensures ReflectsKind(inv, m)
  {
    hide Get;
  }

  lemma {:induction false} IrnLaw(inv: Json)
    requires ReadIrn(inv).Accepted?
    ensures var irn := ReadIrn(inv).value;
            Get(inv, "irn_present") == Some(JBool(irn.Some?)) && (irn.Some? ==> Says(inv, "irn", irn.value))
  {
    hide Get;
  }

  lemma {:induction false} ValueLaw(d: Doubles, inv: Json, key: string)
    ensures ReadValue(d, inv, key).Accepted? ==> Holds(d, inv, key, ReadValue(d, inv, key).value)
  {
    hide Get, ToCents, IsHundredfold;
    if Get(inv, key).Some? {
      NearestIsHundredfold(d, Get(inv, key).value);
    }
  }

  lemma {:induction false} BodyLaw(d: Doubles, inv: Json, m: Matrix)
    requires ReadBody(d, inv).Accepted?
    requires var b := ReadBody(d, inv).value;
             && m.invoice.number == b.heading.number && m.invoice.date == b.heading.date
             && m.invoice.placeOfSupply == b.heading.placeOfSupply && m.hsnString == b.heading.hsnString
             && m.invoice.supply == b.heading.supply && m.invoice.classification == b.heading.classification
             && m.irn == b.heading.irn && m.baseValue == b.base && m.totalValue == b.total
             && m.invoice.lines == b.lines && m.tax == b.tax
    ensures ReflectsInvoice(d, inv, m)
  {
    hide Get, ReadHeading, ReadLines, ReadBreakdown, ReadValue, ReflectsHeading, ReflectsLine, ReflectsTax, Holds;
    HeadingLaw(inv, m);
    var items := Get(inv, "line_items").value.items;
    LinesLaw(d, items, |items|);
    TaxLaw(d, Get(inv, BREAKDOWN).value);
    ValueLaw(d, inv, "base_value");
    ValueLaw(d, inv, "total_value");
  }

  lemma {:induction false} ReportLaw(doc: Json)
    requires ReadReport(doc).Accepted?
    ensures match Get(doc, "irp")
            case Some(irp) => SaysMaybe(irp, "reported_on", ReadReport(doc).value)
            case None => ReadReport(doc).value.None?
  {
    hide Get, OptionalText, SaysMaybe;
    if Get(doc, "irp").Some? {
      TextIsSaid(Get(doc, "irp").value, "irp", "reported_on");
    }
  }

  /** The matrix of an accepted document says what stands under the keys of the document. */
  lemma {:induction false} AcceptedMatrixLaw(d: Doubles, doc: Json)
    requires Validate(d, doc).Accepted?
    ensures Reflects(d, doc, Validate(d, doc).value)
  {
    hide Get, ReadSupplier, ReadBuyer, ReadBody, ReadReport, ReflectsSupplier, ReflectsBuyer, ReflectsInvoice,
      SaysMaybe;
    SupplierLaw(doc);
    BuyerLaw(doc);
    BodyLaw(d, Get(doc, INVOICE).value, Validate(d, doc).value);
    ReportLaw(doc);
  }

  /** Amounts are accepted up to ten million million rupees, rates up to the largest 32-bit number of basis points. */
  lemma {:induction false} Limits(d: Doubles, x: real, path: string)
    ensures ToCents(d, JNum(x)).Accepted? <==> 0.0 <= d.hundredfold(x) <= 1_000_000_000_000_000.0
    ensures RateToBps(d, JNum(x), path).Accepted? <==> x >= 0.0 && 0.0 <= d.hundredfold(x) <= 2_147_483_647.0
  {
  }

  // ---------------------------------------------------------------- no other matrix

  lemma {:induction false} OneHundredfold(d: Doubles, v: Json, a: int, b: int)
    requires IsHundredfold(d, v, a) && IsHundredfold(d, v, b)
    ensures a == b
  {
  }

  lemma {:induction false} OneAmount(d: Doubles, j: Json, key: string, a: int, b: int, default: int)
    requires HoldsOr(d, j, key, a, default) && HoldsOr(d, j, key, b, default)
    ensures a == b
  {
    hide IsHundredfold, Get;
    if Get(j, key).Some? {
      OneHundredfold(d, Get(j, key).value, a, b);
    }
  }

  lemma {:induction false} OneValue(d: Doubles, j: Json, key: string, a: int, b: int)
    requires Holds(d, j, key, a) && Holds(d, j, key, b)
    ensures a == b
  {
    hide Get;
  }

  lemma {:induction false} OneText(j: Json, key: string, a: Option<string>, b: Option<string>)
    requires SaysMaybe(j, key, a) && SaysMaybe(j, key, b)
    ensures a == b
  {
    hide Get;
  }

  lemma {:induction false} OneLine(d: Doubles, li: Json, a: LineItem, b: LineItem)
    requires ReflectsLine(d, li, a) && ReflectsLine(d, li, b)
    ensures a == b
  {
    hide Get, Holds;
    OneValue(d, li, "tax_rate", a.rate, b.rate);
    OneValue(d, li, "base_value", a.base, b.base);
    if a.unitPrice.Some? && b.unitPrice.Some? {
      OneValue(d, li, "unit_price", a.unitPrice.value, b.unitPrice.value);
    }
    PriceIsThere(d, li, a);
    PriceIsThere(d, li, b);
  }

  lemma {:induction false} PriceIsThere(d: Doubles, li: Json, line: LineItem)
    requires ReflectsLine(d, li, line)
    ensures line.unitPrice.Some? <==> Get(li, "unit_price").Some?
  {
    hide Get;
  }

  lemma {:induction false} OneTax(d: Doubles, tb: Json, a: TaxBreakdown, b: TaxBreakdown)
    requires ReflectsTax(d, tb, a) && ReflectsTax(d, tb, b)
    ensures a == b
  {
    hide HoldsOr;
    OneAmount(d, tb, "cgst", a.cgst, b.cgst, 0);
    OneAmount(d, tb, "sgst", a.sgst, b.sgst, 0);
    OneAmount(d, tb, "igst", a.igst, b.igst, 0);
    OneAmount(d, tb, "cess", a.cess, b.cess, 0);
    OneAmount(d, tb, "total_tax", a.totalTax, b.totalTax, a.cgst + a.sgst + a.igst + a.cess);
  }

  lemma {:induction false} OneBuyer(buyer: Json, a: Buyer, b: Buyer)
    requires ReflectsBuyer(buyer, a) && ReflectsBuyer(buyer, b)
    ensures a == b
  {
    hide Get, SaysMaybe;
    OneText(buyer, "gstin", a.gstin, b.gstin);
    OneText(buyer, "name", a.name, b.name);
    OneText(buyer, "address_state", a.state, b.state);
  }

  lemma {:induction false} OneSupplier(sup: Json, a: Supplier, b: Supplier)
    requires ReflectsSupplier(sup, a) && ReflectsSupplier(sup, b)
    ensures a == b
  {
    hide Get;
  }

  lemma {:induction false} OneHeading(inv: Json, m: Matrix, n: Matrix)
    requires ReflectsHeading(inv, m) && ReflectsHeading(inv, n)
    ensures m.invoice.number == n.invoice.number && m.invoice.date == n.invoice.date
    ensures m.invoice.placeOfSupply == n.invoice.placeOfSupply && m.hsnString == n.hsnString
    ensures m.invoice.supply == n.invoice.supply && m.invoice.classification == n.invoice.classification
    ensures m.irn == n.irn
  {
    hide Get;
  }

  lemma {:induction false} OneInvoice(d: Doubles, inv: Json, m: Matrix, n: Matrix)
    requires ReflectsInvoice(d, inv, m) && ReflectsInvoice(d, inv, n)
    requires m.invoice.buyerGstin == n.invoice.buyerGstin && m.invoice.supplierState == n.invoice.supplierState
    ensures m.invoice == n.invoice && m.tax == n.tax && m.baseValue == n.baseValue && m.totalValue == n.totalValue
    ensures m.hsnString == n.hsnString && m.irn == n.irn
  {
    hide Get, ReflectsHeading, ReflectsLine, ReflectsTax, Holds;
    OneHeading(inv, m, n);
    OneValue(d, inv, "base_value", m.baseValue, n.baseValue);
    OneValue(d, inv, "total_value", m.totalValue, n.totalValue);
    OneTax(d, Get(inv, "tax_breakdown").value, m.tax, n.tax);
    var items := Get(inv, "line_items").value.items;
    forall k | 0 <= k < |items| ensures m.invoice.lines[k] == n.invoice.lines[k] {
      OneLine(d, items[k], m.invoice.lines[k], n.invoice.lines[k]);
    }
    assert m.invoice.lines == n.invoice.lines;
  }

  /** A document determines what a matrix can say of it. */
  lemma {:induction false} OneMatrix(d: Doubles, doc: Json, m: Matrix, n: Matrix)
    requires Reflects(d, doc, m) && Reflects(d, doc, n)
    ensures m == n
  {
    hide Get, ReflectsSupplier, ReflectsBuyer, ReflectsInvoice, SaysMaybe;
    OneSupplier(Get(doc, "supplier").value, m.supplier, n.supplier);
    if Get(doc, "buyer").Some? {
      OneBuyer(Get(doc, "buyer").value, m.buyer, n.buyer);
    }
    OneInvoice(d, Get(doc, "invoice").value, m, n);
    if Get(doc, "irp").Some? {
      OneText(Get(doc, "irp").value, "reported_on", m.reportedOn, n.reportedOn);
    }
  }

  /** Validation gives a matrix exactly for the documents that look right, and exactly the matrix that they describe. */
  lemma {:induction false} AcceptsExactly(d: Doubles, doc: Json, m: Matrix)
    ensures Validate(d, doc) == Accepted(m) <==> GoodDocument(d, doc) && Reflects(d, doc, m)
  {
    hide Validate, GoodDocument, Reflects;
    AcceptedExactly(d, doc);
    if Validate(d, doc).Accepted? {
      AcceptedMatrixLaw(d, doc);
      if Reflects(d, doc, m) {
        OneMatrix(d, doc, m, Validate(d, doc).value);
      }
    }
  }

  // ---------------------------------------------------------------- which documents escape

  /** A key is missing and every key before it is a text. */
  predicate MissesText(j: Json, keys: seq<string>) {
    exists k :: 0 <= k < |keys| && Get(j, keys[k]).None? && AreTexts(j, keys[..k])
  }

  predicate AreTexts(j: Json, keys: seq<string>) { forall k :: 0 <= k < |keys| ==> IsText(Get(j, keys[k])) }

  const SUPPLIER_KEYS := ["gstin", "name", "address_state"]
  const HEADING_KEYS := ["number", "date", "place_of_supply", "hsn_string", "supply_type"]

  predicate HeadingEscapes(inv: Json) {
    || MissesText(inv, HEADING_KEYS)
    || (&& AreTexts(inv, HEADING_KEYS) && (Says(inv, "supply_type", "INTRA") || Says(inv, "supply_type", "INTER"))
        && Get(inv, "classification").None?)
  }

  predicate LineEscapes(d: Doubles, li: Json) {
    && li.JObj?
    && (|| Get(li, "hsn").None?
        || (&& IsText(Get(li, "hsn"))
            && (Get(li, "tax_rate").None? || (IsRate(d, Get(li, "tax_rate")) && Get(li, "base_value").None?))))
  }

  /** The first line that is not good is one that escapes. */
  ghost predicate LinesEscape(d: Doubles, items: seq<Json>, n: nat)
    requires n <= |items|
  {
    exists k :: 0 <= k < n && LineEscapes(d, items[k]) && forall i :: 0 <= i < k ==> GoodLine(d, items[i])
  }

  ghost predicate InvoiceEscapes(d: Doubles, inv: Json) {
    && inv.JObj?
    && (|| HeadingEscapes(inv)
        || (&& GoodHeading(inv) && IsMoney(d, Get(inv, "base_value"))
            && Get(inv, "line_items").Some? && Get(inv, "line_items").value.JArr?
            && LinesEscape(d, Get(inv, "line_items").value.items, |Get(inv, "line_items").value.items|)))
  }

  /** A document whose first fault is a key that is read without being looked for. */
  ghost predicate DocumentEscapes(d: Doubles, doc: Json) {
    && doc.JObj? && Get(doc, "supplier").Some? && Get(doc, "supplier").value.JObj?
    && (|| MissesText(Get(doc, "supplier").value, SUPPLIER_KEYS)
        || (&& GoodSupplier(Get(doc, "supplier").value)
            && (Get(doc, "buyer").Some? ==> GoodBuyer(Get(doc, "buyer").value))
            && Get(doc, "invoice").Some? && InvoiceEscapes(d, Get(doc, "invoice").value)))
  }

  lemma {:induction false} TextEscapes(j: Json, path: string, key: string)
    ensures TextAt(j, path, key).Escapes? <==> Get(j, key).None?
    ensures TextAt(j, path, key).Accepted? <==> IsText(Get(j, key))
    ensures !OptionalText(j, path, key).Escapes?
  {
    hide Get;
  }

  lemma {:induction false} NextText(j: Json, keys: seq<string>, key: string)
    ensures MissesText(j, keys + [key]) <==> MissesText(j, keys) || (AreTexts(j, keys) && Get(j, key).None?)
    ensures AreTexts(j, keys + [key]) <==> AreTexts(j, keys) && IsText(Get(j, key))
    ensures !MissesText(j, []) && AreTexts(j, [])
  {
    hide Get, IsText;
    var all := keys + [key];
    forall k | 0 <= k < |keys| ensures all[..k] == keys[..k] && all[k] == keys[k] {
    }
    assert all[..|keys|] == keys && all[|keys|] == key;
  }

  lemma {:induction false} SupplierIsEscaped(doc: Json)
    ensures ReadSupplier(doc).Escapes? <==>
            && Get(doc, "supplier").Some? && Get(doc, "supplier").value.JObj?
            && MissesText(Get(doc, "supplier").value, SUPPLIER_KEYS)
  {
    hide Get, TextAt, IsText, MissesText, AreTexts;
    if Get(doc, "supplier").Some? {
      var sup := Get(doc, "supplier").value;
      NextText(sup, [], "gstin");
      NextText(sup, ["gstin"], "name");
      NextText(sup, ["gstin", "name"], "address_state");
      assert ["gstin", "name"] + ["address_state"] == SUPPLIER_KEYS && [] + ["gstin"] == ["gstin"];
      assert ["gstin"] + ["name"] == ["gstin", "name"];
      TextEscapes(sup, "supplier", "gstin");
      TextEscapes(sup, "supplier", "name");
      TextEscapes(sup, "supplier", "address_state");
    }
  }

  lemma {:induction false} HeadingIsEscaped(inv: Json)
    ensures ReadHeading(inv).Escapes? <==> HeadingEscapes(inv)
  {
    hide Get, TextAt, IsText, ReadSupply, ReadClassification, ReadIrn, MissesText, AreTexts, Says;
    FourTexts(inv);
    TextEscapes(inv, INVOICE, "number");
    TextEscapes(inv, INVOICE, "date");
    TextEscapes(inv, INVOICE, "place_of_supply");
    TextEscapes(inv, INVOICE, "hsn_string");
    KindEscapes(inv);
  }

  lemma {:induction false} FourTexts(inv: Json)
    ensures AreTexts(inv, HEADING_KEYS) <==>
            && IsText(Get(inv, "number")) && IsText(Get(inv, "date")) && IsText(Get(inv, "place_of_supply"))
            && IsText(Get(inv, "hsn_string")) && IsText(Get(inv, "supply_type"))
    ensures MissesText(inv, HEADING_KEYS) <==>
            || Get(inv, "number").None?
            || (IsText(Get(inv, "number")) &&
                (|| Get(inv, "date").None?
                 || (IsText(Get(inv, "date")) &&
                     (|| Get(inv, "place_of_supply").None?
                      || (IsText(Get(inv, "place_of_supply")) &&
                          (|| Get(inv, "hsn_string").None?
                           || (IsText(Get(inv, "hsn_string")) && Get(inv, "supply_type").None?)))))))
  {
    hide Get, IsText, MissesText, AreTexts;
    NextText(inv, [], "number");
    NextText(inv, ["number"], "date");
    NextText(inv, ["number", "date"], "place_of_supply");
    NextText(inv, ["number", "date", "place_of_supply"], "hsn_string");
    NextText(inv, ["number", "date", "place_of_supply", "hsn_string"], "supply_type");
    assert [] + ["number"] == ["number"] && ["number"] + ["date"] == ["number", "date"];
    assert ["number", "date"] + ["place_of_supply"] == ["number", "date", "place_of_supply"];
    assert ["number", "date", "place_of_supply"] + ["hsn_string"] ==
      ["number", "date", "place_of_supply", "hsn_string"];
    assert ["number", "date", "place_of_supply", "hsn_string"] + ["supply_type"] == HEADING_KEYS;
  }

  lemma {:induction false} KindEscapes(inv: Json)
    ensures ReadSupply(inv).Escapes? <==> Get(inv, "supply_type").None?
    ensures ReadSupply(inv).Accepted? <==> Says(inv, "supply_type", "INTRA") || Says(inv, "supply_type", "INTER")
    ensures ReadSupply(inv).Accepted? ==> IsText(Get(inv, "supply_type"))
    ensures ReadClassification(inv).Escapes? <==> Get(inv, "classification").None?
    ensures !ReadIrn(inv).Escapes?
  {
    hide Get;
  }

  lemma {:induction false} LineIsEscaped(d: Doubles, li: Json, path: string)
    ensures ReadLine(d, li, path).Escapes? <==> LineEscapes(d, li)
  {
    hide Get, TextAt, OptionalText, IsText, ToCents, RateToBps, IsRate;
    TextEscapes(li, path, "hsn");
    TextEscapes(li, path, "description");
    AmountsDoNotEscape(d, if Get(li, "base_value").Some? then Get(li, "base_value").value else JNull);
    AmountsDoNotEscape(d, if Get(li, "unit_price").Some? then Get(li, "unit_price").value else JNull);
    if Get(li, "tax_rate").Some? {
      RateDoesNotEscape(d, Get(li, "tax_rate").value, path + "." + "tax_rate");
    }
  }

  lemma {:induction false} AmountsDoNotEscape(d: Doubles, v: Json)
    ensures !ToCents(d, v).Escapes?
  {
  }

  lemma {:induction false} RateDoesNotEscape(d: Doubles, v: Json, path: string)
    ensures !RateToBps(d, v, path).Escapes? && (RateToBps(d, v, path).Accepted? <==> IsRate(d, Some(v)))
  {
  }

  lemma {:induction false} LinesAreEscaped(d: Doubles, items: seq<Json>, n: nat)
    requires n <= |items|
    ensures ReadLines(d, items, n).Escapes? <==> LinesEscape(d, items, n)
  {
    hide ReadLine, GoodLine, LineEscapes;
    if n > 0 {
      LinesAreEscaped(d, items, n - 1);
      GoodLinesAreRead(d, items, n - 1);
      LineIsEscaped(d, items[n - 1], LinePath(n - 1));
    }
  }

  lemma {:induction false} TaxDoesNotEscape(d: Doubles, inv: Json)
    ensures !ReadTax(d, inv).Escapes?
  {
    hide Get, ToCents;
    forall v: Json ensures !ToCents(d, v).Escapes? {
      AmountsDoNotEscape(d, v);
    }
  }

  lemma {:induction false} InvoiceIsEscaped(d: Doubles, doc: Json)
    ensures ReadInvoice(d, doc).Escapes? <==>
            Get(doc, "invoice").Some? && InvoiceEscapes(d, Get(doc, "invoice").value)
  {
    hide Get, ReadHeading, GoodHeading, HeadingEscapes, ReadLines, LinesEscape, ReadTax, ToCents, IsMoney;
    if Get(doc, INVOICE).Some? {
      var inv := Get(doc, INVOICE).value;
      HeadingIsEscaped(inv);
      GoodHeadingIsRead(inv);
      TaxDoesNotEscape(d, inv);
      ValuesDoNotEscape(d, inv, "base_value");
      ValuesDoNotEscape(d, inv, "total_value");
      GoodValueIsRead(d, inv, "base_value");
      if Get(inv, "line_items").Some? && Get(inv, "line_items").value.JArr? {
        LinesAreEscaped(d, Get(inv, "line_items").value.items, |Get(inv, "line_items").value.items|);
      }
    }
  }

  lemma {:induction false} ValuesDoNotEscape(d: Doubles, inv: Json, key: string)
    ensures !ReadValue(d, inv, key).Escapes?
  {
    hide Get;
  }

  lemma {:induction false} PartiesDoNotEscape(doc: Json)
    ensures !ReadBuyer(doc).Escapes? && !ReadReport(doc).Escapes?
  {
    hide Get;
  }

  /**
   * Exactly these documents make validation throw an exception that is no rejection; every other document that is not
   * accepted is rejected with a reason.
   */
  lemma {:induction false} EscapesExactly(d: Doubles, doc: Json)
    ensures Validate(d, doc).Escapes? <==> DocumentEscapes(d, doc)
  {
    hide Get, ReadSupplier, IsText, ReadBuyer, GoodBuyer, ReadInvoice, InvoiceEscapes, ReadReport, MissesText;
    SupplierIsEscaped(doc);
    GoodSupplierIsRead(doc);
    GoodBuyerIsRead(doc);
    PartiesDoNotEscape(doc);
    InvoiceIsEscaped(d, doc);
  }
}
