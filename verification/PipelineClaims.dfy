/** Non-interference over whole runs: claims about tax flags reach neither a frame, a status, a ledger nor a return. */
module PipelineClaims {
  import opened Prelude
  import opened Facts
  import opened Validation
  import opened RuleEngine
  import opened Claims
  import opened RuleLaws
  import opened GstrReturns
  import opened Gstr
  import opened Money
  import opened Pipeline
  import opened PipelineLaws

  /** Neither validation nor the rules see the claims. */
  ghost predicate IgnoresClaims(c: Config) {
    && (forall a: Json, b: Json :: Erase(a) == Erase(b) ==> c.validate(a) == c.validate(b))
    && (forall m: TaxFlags, a: Json, b: Json :: Erase(a) == Erase(b) && ScalarDocument(a) && ScalarDocument(b) ==>
          c.assess(m, a) == c.assess(m, b))
  }

  lemma {:induction false} WiredIgnoresClaims(d: Doubles, e: Engine)
    requires forall k :: 0 <= k < |e.rules| ==> CleanRule(e, e.rules[k])
    ensures IgnoresClaims(Wired(d, e))
  {
    hide Validate, Evaluate, Erase, ScalarDocument, CleanRule;
    var c := Wired(d, e);
    forall a: Json, b: Json | Erase(a) == Erase(b) ensures c.validate(a) == c.validate(b) {
      ValidationIgnoresClaims(d, a);
      ValidationIgnoresClaims(d, b);
    }
    forall m: TaxFlags, a: Json, b: Json | Erase(a) == Erase(b) && ScalarDocument(a) && ScalarDocument(b)
      ensures c.assess(m, a) == c.assess(m, b)
    {
      RulesIgnoreClaims(e, m, a, |e.rules|);
      RulesIgnoreClaims(e, m, b, |e.rules|);
    }
  }

  // ---------------------------------------------------------------- worlds and steps that differ only in claims

  predicate SameRow(r: InvoiceRow, s: InvoiceRow) {
    r.session == s.session && r.mime == s.mime && r.matrix == s.matrix && Erase(r.document) == Erase(s.document)
  }

  predicate SameRows(a: seq<InvoiceRow>, b: seq<InvoiceRow>) {
    |a| == |b| && forall k :: 0 <= k < |a| ==> SameRow(a[k], b[k])
  }

  /** Everything is the same but for the claims in the stored documents. */
  predicate SameWorld(w: World, v: World) {
    && w.memory == v.memory && w.tables.sessions == v.tables.sessions && w.tables.lines == v.tables.lines
    && w.tables.chat == v.tables.chat && SameRows(w.tables.invoices, v.tables.invoices)
  }

  predicate SameExtraction(x: Extraction, y: Extraction) {
    x == y || (x.Extracted? && y.Extracted? && Erase(x.document) == Erase(y.document) && ScalarDocument(x.document) &&
      ScalarDocument(y.document))
  }

  predicate SameStep(s: Step, t: Step) {
    if s.Upload? && t.Upload? then s.id == t.id && s.mime == t.mime && SameExtraction(s.extraction, t.extraction)
    else s == t
  }

  // ---------------------------------------------------------------- one step

  lemma {:induction false} RehydratesAlike(c: Config, a: seq<InvoiceRow>, b: seq<InvoiceRow>, id: string, n: nat)
    requires IgnoresClaims(c) && SameRows(a, b) && n <= |a|
    ensures Rehydrated(c.validate, a, id, n) == Rehydrated(c.validate, b, id, n)
  {
    hide Erase, ScalarDocument;
    if n > 0 {
      RehydratesAlike(c, a, b, id, n - 1);
      assert SameRow(a[n - 1], b[n - 1]);
      assert c.validate(a[n - 1].document) == c.validate(b[n - 1].document);
    }
  }

  /** Chat rows change the sessions and the transcript, and both in the same way whatever is stored otherwise. */
  lemma {:induction false} SaysAlike(t: Tables, u: Tables, id: string, frames: seq<Frame>, n: nat)
    requires n <= |frames| && t.sessions == u.sessions && t.chat == u.chat && t.lines == u.lines
    ensures var (t', u') := (SaidAll(t, id, frames, n), SaidAll(u, id, frames, n));
            && t'.sessions == u'.sessions && t'.chat == u'.chat && t'.lines == u'.lines
            && t'.invoices == t.invoices && u'.invoices == u.invoices
  {
    if n > 0 {
      SaysAlike(t, u, id, frames, n - 1);
    }
  }

  lemma {:induction false} IngestsAlike(w: World, v: World, id: string, mime: string, m: Matrix, a: Json, b: Json,
      results: seq<RuleResult>)
    requires SameWorld(w, v) && id in w.memory && Erase(a) == Erase(b)
    ensures SameWorld(Ingest(w, id, mime, m, a, results), Ingest(v, id, mime, m, b, results))
  {
    hide Erase, ReportFrames, ReportStatus, SaidAll;
    var frames := ReportFrames(results);
    SaysAlike(Saved(w.tables, InvoiceRow(id, mime, m, a)), Saved(v.tables, InvoiceRow(id, mime, m, b)), id, frames,
      |frames|);
  }

  lemma {:induction false} UploadsAlike(c: Config, w: World, v: World, id: string, x: Extraction, y: Extraction,
      mime: string)
    requires IgnoresClaims(c) && SameWorld(w, v) && SameExtraction(x, y)
    ensures var (p, q) := (UploadStep(c, w, id, x, mime), UploadStep(c, v, id, y, mime));
            SameWorld(p.0, q.0) && p.1 == q.1
  {
    hide Erase, ScalarDocument, Ingest, ReportFrames, ReportStatus, SameRows;
    if id in w.memory && x.Extracted? {
      var r := c.validate(x.document);
      assert r == c.validate(y.document);
      if r.Accepted? {
        var results := c.assess(r.value.Flags(), x.document);
        assert results == c.assess(r.value.Flags(), y.document);
        if results.Some? {
          IngestsAlike(w, v, id, mime, r.value, x.document, y.document, results.value);
        }
      }
    }
  }

  lemma {:induction false} FilesAlike(c: Config, w: World, v: World, id: string)
    requires IgnoresClaims(c) && SameWorld(w, v)
    ensures var (p, q) := (FileStep(c, w, id), FileStep(c, v, id)); SameWorld(p.0, q.0) && p.1 == q.1
  {
    hide IgnoresClaims, SameRows, Rehydrated;
    assert |w.tables.invoices| == |v.tables.invoices| by { SameCount(w, v); }
    RehydratesAlike(c, w.tables.invoices, v.tables.invoices, id, |w.tables.invoices|);
  }

  lemma {:induction false} SameCount(w: World, v: World)
    requires SameWorld(w, v)
    ensures |w.tables.invoices| == |v.tables.invoices|
  {
  }

  lemma {:induction false} StepsAlike(c: Config, w: World, v: World, s: Step, t: Step)
    requires IgnoresClaims(c) && SameWorld(w, v) && SameStep(s, t)
    ensures var (p, q) := (Next(c, w, s), Next(c, v, t)); SameWorld(p.0, q.0) && p.1 == q.1
  {
    hide IgnoresClaims, SameRows, SameExtraction, UploadStep, FileStep;
    match s
    case Upload(id, x, mime) => UploadsAlike(c, w, v, id, x, t.extraction, mime);
    case File(id) => FilesAlike(c, w, v, id);
    case _ =>
  }

  // ---------------------------------------------------------------- whole runs

  /**
   * What an upload reports does not depend on the claims: the frames, the status or the exception are the same, and so
   * is everything that is kept, but for the document itself.
   */
  lemma {:induction false} ReportIgnoresClaims(d: Doubles, e: Engine, w: World, id: string, a: Json, b: Json,
      mime: string)
    requires Erase(a) == Erase(b) && ScalarDocument(a) && ScalarDocument(b)
    requires forall k :: 0 <= k < |e.rules| ==> CleanRule(e, e.rules[k])
    ensures var c := Wired(d, e);
            var (p, q) := (UploadStep(c, w, id, Extracted(a), mime), UploadStep(c, w, id, Extracted(b), mime));
            SameWorld(p.0, q.0) && p.1 == q.1
  {
    hide IgnoresClaims, CleanRule, Erase, ScalarDocument, UploadStep;
    WiredIgnoresClaims(d, e);
    UploadsAlike(Wired(d, e), w, w, id, Extracted(a), Extracted(b), mime);
  }

  /**
   * Two runs whose uploads differ only in what the documents claim stay alike: each step has the same frames, status
   * or exception, filings included, and memory, sessions, lines and transcript stay the same.
   */
  lemma {:induction false} RunsIgnoreClaims(d: Doubles, e: Engine, s: seq<Step>, t: seq<Step>, n: nat)
    requires forall k :: 0 <= k < |e.rules| ==> CleanRule(e, e.rules[k])
    requires |s| == |t| && n <= |s| && forall k :: 0 <= k < |s| ==> SameStep(s[k], t[k])
    ensures var c := Wired(d, e);
            && SameWorld(Run(c, s, n), Run(c, t, n))
            && (n > 0 ==> Next(c, Run(c, s, n - 1), s[n - 1]).1 == Next(c, Run(c, t, n - 1), t[n - 1]).1)
    decreases n
  {
    hide IgnoresClaims, CleanRule, Next, SameStep, SameRows;
    if n > 0 {
      RunsIgnoreClaims(d, e, s, t, n - 1);
      WiredIgnoresClaims(d, e);
      StepsAlike(Wired(d, e), Run(Wired(d, e), s, n - 1), Run(Wired(d, e), t, n - 1), s[n - 1], t[n - 1]);
    } else {
      StartsAlike();
    }
  }

  lemma {:induction false} StartsAlike()
    ensures SameWorld(START, START)
  {
  }
}
