/**
 * What holds in every reachable state of the pipeline, whatever sessions interleave and whenever the process
 * restarts.
 */
module PipelineLaws {
  import opened Prelude
  import opened Facts
  import opened RuleEngine
  import opened GstrReturns
  import opened Gstr
  import opened Pipeline
  import opened Validation

  // ---------------------------------------------------------------- runs

  const START := World(map[], Tables(map[], [], [], []))

  /** The state after the first `n` steps. */
  function Run(c: Config, steps: seq<Step>, n: nat): World
    requires n <= |steps|
  {
    if n == 0 then START else Next(c, Run(c, steps, n - 1), steps[n - 1]).0
  }

  /** Every opened session has an id that the store does not know yet, as a new UUID. */
  predicate FreshIds(c: Config, steps: seq<Step>, n: nat)
    requires n <= |steps|
  {
    n == 0 || (FreshIds(c, steps, n - 1) && IsFresh(Run(c, steps, n - 1), steps[n - 1]))
  }

  predicate IsFresh(w: World, step: Step) { step.Open? ==> step.id !in w.tables.sessions }

  // ---------------------------------------------------------------- the invariant

  function Stored(c: Config, w: World, id: string): Option<seq<Matrix>> {
    Rehydrated(c.validate, w.tables.invoices, id, |w.tables.invoices|)
  }

  /** Every stored document validates again to the matrix it was stored with, and belongs to a stored session. */
  ghost predicate GoodRows(c: Config, t: Tables) {
    forall k :: 0 <= k < |t.invoices| ==>
      c.validate(t.invoices[k].document) == Accepted(t.invoices[k].matrix) && t.invoices[k].session in t.sessions
  }

  /** A session that is in memory: its ledger is what the store would rehydrate, and both places agree on FILED. */
  ghost predicate GoodSession(c: Config, w: World, id: string)
    requires id in w.memory
  {
    && id in w.tables.sessions && Some(w.memory[id].invoices) == Stored(c, w, id)
    && (w.memory[id].status == FILED <==> w.tables.sessions[id] == FILED)
  }

  /** A session stored as FILED has invoices, and its three files can be made. */
  ghost predicate GoodFiled(c: Config, w: World, id: string)
    requires id in w.tables.sessions
  {
    w.tables.sessions[id] == FILED ==>
      Stored(c, w, id).Some? && Stored(c, w, id).value != [] && c.generate(Invoices(Stored(c, w, id).value)).Ok?
  }

  ghost predicate Inv(c: Config, w: World) {
    && GoodRows(c, w.tables)
    && (forall id :: id in w.memory ==> GoodSession(c, w, id))
    && (forall id :: id in w.tables.sessions ==> GoodFiled(c, w, id))
  }

  lemma {:induction false} RowsRehydrate(c: Config, t: Tables, id: string, n: nat)
    requires GoodRows(c, t) && n <= |t.invoices|
    ensures Rehydrated(c.validate, t.invoices, id, n).Some?
    ensures id !in t.sessions ==> Rehydrated(c.validate, t.invoices, id, n) == Some([])
  {
    if n > 0 {
      RowsRehydrate(c, t, id, n - 1);
    }
  }

  lemma {:induction false} RehydratedPrefix(c: Config, rows: seq<InvoiceRow>, row: InvoiceRow, id: string, n: nat)
    requires n <= |rows|
    ensures Rehydrated(c.validate, rows + [row], id, n) == Rehydrated(c.validate, rows, id, n)
  {
    if n > 0 {
      RehydratedPrefix(c, rows, row, id, n - 1);
    }
  }

  /** A new row extends the ledger of its own session and of no other. */
  lemma {:induction false} RehydratedNext(c: Config, rows: seq<InvoiceRow>, row: InvoiceRow, id: string)
    requires c.validate(row.document) == Accepted(row.matrix) && Rehydrated(c.validate, rows, id, |rows|).Some?
    ensures var before := Rehydrated(c.validate, rows, id, |rows|).value;
            Rehydrated(c.validate, rows + [row], id, |rows| + 1) ==
              Some(if row.session == id then before + [row.matrix] else before)
  {
    RehydratedPrefix(c, rows, row, id, |rows|);
  }

  /** Chat rows touch neither the invoices nor the status of a known session. */
  lemma {:induction false} ChatKeeps(t: Tables, id: string, frames: seq<Frame>, n: nat)
    requires n <= |frames| && id in t.sessions
    ensures var u := SaidAll(t, id, frames, n);
            u.invoices == t.invoices && u.sessions == t.sessions && u.lines == t.lines
  {
    if n > 0 {
      ChatKeeps(t, id, frames, n - 1);
    }
  }

  // ---------------------------------------------------------------- every step keeps it

  lemma {:induction false} StartKeeps(c: Config)
    ensures Inv(c, START)
  {
  }

  lemma {:induction false} OpenKeeps(c: Config, w: World, id: string)
    requires Inv(c, w) && id !in w.tables.sessions
    ensures Inv(c, OpenStep(w, id))
  {
    RowsRehydrate(c, w.tables, id, |w.tables.invoices|);
    var v := OpenStep(w, id);
    forall x | x in v.memory ensures GoodSession(c, v, x) {
      if x != id {
        assert GoodSession(c, w, x);
      }
    }
    forall x | x in v.tables.sessions ensures GoodFiled(c, v, x) {
      if x != id {
        assert GoodFiled(c, w, x);
      }
    }
  }

  lemma {:induction false} CloseKeeps(c: Config, w: World, id: string)
    requires Inv(c, w)
    ensures Inv(c, CloseStep(w, id))
  {
    hide Rehydrated;
    var v := CloseStep(w, id);
    if id in w.memory {
      assert GoodSession(c, w, id);
      forall x | x in v.memory ensures GoodSession(c, v, x) {
        assert GoodSession(c, w, x);
      }
      forall x | x in v.tables.sessions ensures GoodFiled(c, v, x) {
        assert GoodFiled(c, w, x);
      }
    }
  }

  /** What an accepted upload leaves behind. */
  lemma {:induction false} IngestEffect(c: Config, w: World, id: string, mime: string, m: Matrix, doc: Json,
      results: seq<RuleResult>)
    requires id in w.memory && id in w.tables.sessions
    ensures var v := Ingest(w, id, mime, m, doc, results);
            && v.memory == w.memory[id := SessionState(ReportStatus(results), w.memory[id].invoices + [m])]
            && v.tables.invoices == w.tables.invoices + [InvoiceRow(id, mime, m, doc)]
            && v.tables.sessions == w.tables.sessions[id := ReportStatus(results)]
  {
    hide ReportFrames, ReportStatus, SaidAll;
    var frames := ReportFrames(results);
    ChatKeeps(Saved(w.tables, InvoiceRow(id, mime, m, doc)), id, frames, |frames|);
  }

  lemma {:induction false} NeverReportsFiled(results: seq<RuleResult>)
    ensures ReportStatus(results) != FILED
  {
  }

  lemma {:induction false} IngestKeeps(c: Config, w: World, id: string, mime: string, m: Matrix, doc: Json,
      results: seq<RuleResult>)
    requires Inv(c, w) && id in w.memory && c.validate(doc) == Accepted(m)
    ensures Inv(c, Ingest(w, id, mime, m, doc, results))
  {
    hide Rehydrated, Ingest, ReportStatus;
    assert GoodSession(c, w, id);
    IngestEffect(c, w, id, mime, m, doc, results);
    NeverReportsFiled(results);
    var v := Ingest(w, id, mime, m, doc, results);
    var row := InvoiceRow(id, mime, m, doc);
    forall x
      ensures Stored(c, w, x).Some?
      ensures Stored(c, v, x) == Some(if x == id then Stored(c, w, x).value + [m] else Stored(c, w, x).value)
    {
      RowsRehydrate(c, w.tables, x, |w.tables.invoices|);
      RehydratedNext(c, w.tables.invoices, row, x);
    }
    forall x | x in v.memory ensures GoodSession(c, v, x) {
      assert GoodSession(c, w, x);
    }
    forall x | x in v.tables.sessions ensures GoodFiled(c, v, x) {
      assert GoodFiled(c, w, x);
    }
  }

  lemma {:induction false} UploadKeeps(c: Config, w: World, id: string, x: Extraction, mime: string)
    requires Inv(c, w)
    ensures Inv(c, UploadStep(c, w, id, x, mime).0)
  {
    hide Inv, Ingest, ReportFrames, ReportStatus;
    if id in w.memory && x.Extracted? {
      var v := c.validate(x.document);
      if v.Accepted? {
        var results := c.assess(v.value.Flags(), x.document);
        if results.Some? {
          IngestKeeps(c, w, id, mime, v.value, x.document, results.value);
        }
      }
    }
  }

  lemma {:induction false} ReplyKeeps(c: Config, w: World, id: string, text: string)
    requires Inv(c, w)
    ensures Inv(c, ReplyStep(w, id, text).0)
  {
    hide Rehydrated;
    var v := ReplyStep(w, id, text).0;
    if id in w.memory {
      assert GoodSession(c, w, id);
      assert v.tables.sessions == w.tables.sessions && v.tables.invoices == w.tables.invoices && v.memory == w.memory;
      SameStoreKeeps(c, w, v);
    }
  }

  lemma {:induction false} SameStoreKeeps(c: Config, w: World, v: World)
    requires Inv(c, w) && v.memory == w.memory
    requires v.tables.sessions == w.tables.sessions && v.tables.invoices == w.tables.invoices
    ensures Inv(c, v)
  {
    hide Rehydrated;
    forall x | x in v.memory ensures GoodSession(c, v, x) {
      assert GoodSession(c, w, x);
    }
    forall x | x in v.tables.sessions ensures GoodFiled(c, v, x) {
      assert GoodFiled(c, w, x);
    }
  }

  /** The ledger a filing works with is always what is stored. */
  lemma {:induction false} LedgerIsStored(c: Config, w: World, id: string)
    requires Inv(c, w)
    ensures Stored(c, w, id).Some?
    ensures id in w.memory ==> id in w.tables.sessions && w.memory[id].invoices == Stored(c, w, id).value
  {
    RowsRehydrate(c, w.tables, id, |w.tables.invoices|);
    if id in w.memory {
      assert GoodSession(c, w, id);
    }
  }

  /** A filing spelled out: refused for an unknown session or an empty ledger, otherwise from the stored invoices. */
  lemma {:induction false} FilingEffect(c: Config, w: World, id: string)
    requires Inv(c, w)
    ensures Stored(c, w, id).Some?
    ensures var (ledger, s) := (Stored(c, w, id).value, if id in w.memory then w.memory[id]
        else SessionState(ACTIVE, []));
            FileStep(c, w, id) ==
            if id !in w.tables.sessions then (w, Done([Say(UnknownSession)], None))
            else if ledger == [] then (w.(memory := w.memory[id := s]), Done([Say(NoInvoices)], None))
            else FileFrom(c, w, id, s.status, ledger)
  {
    hide FileFrom, Rehydrated, Inv;
    LedgerIsStored(c, w, id);
  }

  lemma {:induction false} FileFromEffect(c: Config, w: World, id: string, status: Status, ledger: seq<Matrix>)
    requires id in w.tables.sessions
    ensures var v := FileFrom(c, w, id, status, ledger).0;
            && v.tables.invoices == w.tables.invoices
            && (if c.generate(Invoices(ledger)).Ok? then
                  v.memory == w.memory[id := SessionState(FILED, ledger)] && v.tables.sessions ==
                    w.tables.sessions[id := FILED]
                else v.memory == w.memory[id := SessionState(status, ledger)] && v.tables == w.tables)
  {
  }

  lemma {:induction false} FileKeeps(c: Config, w: World, id: string)
    requires Inv(c, w)
    ensures Inv(c, FileStep(c, w, id).0)
  {
    hide Rehydrated, FileStep, FileFrom;
    var v := FileStep(c, w, id).0;
    FilingEffect(c, w, id);
    LedgerIsStored(c, w, id);
    if id in w.tables.sessions {
      var status := if id in w.memory then w.memory[id].status else ACTIVE;
      FileFromEffect(c, w, id, status, Stored(c, w, id).value);
      assert v.tables.invoices == w.tables.invoices;
      FiledNeedsNoRefusal(c, w, id);
      forall x | x in v.memory ensures GoodSession(c, v, x) {
        if x in w.memory {
          assert GoodSession(c, w, x);
        }
      }
      forall x | x in v.tables.sessions ensures GoodFiled(c, v, x) {
        assert GoodFiled(c, w, x);
      }
    }
  }

  /** A session stored as FILED has a ledger whose files can be made. */
  lemma {:induction false} FiledNeedsNoRefusal(c: Config, w: World, id: string)
    requires Inv(c, w) && id in w.tables.sessions
    ensures GoodFiled(c, w, id)
  {
  }

  lemma {:induction false} RestartKeeps(c: Config, w: World)
    requires Inv(c, w)
    ensures Inv(c, w.(memory := map[]))
  {
    hide Rehydrated;
    var v := w.(memory := map[]);
    forall x | x in v.tables.sessions ensures GoodFiled(c, v, x) {
      assert GoodFiled(c, w, x);
    }
  }

  lemma {:induction false} StepKeeps(c: Config, w: World, step: Step)
    requires Inv(c, w) && IsFresh(w, step)
    ensures Inv(c, Next(c, w, step).0)
  {
    hide Inv, OpenStep, CloseStep, UploadStep, ReplyStep, FileStep;
    match step
    case Open(id) => OpenKeeps(c, w, id);
    case Close(id) => CloseKeeps(c, w, id);
    case Upload(id, x, mime) => UploadKeeps(c, w, id, x, mime);
    case Reply(id, text) => ReplyKeeps(c, w, id, text);
    case File(id) => FileKeeps(c, w, id);
    case Restart => RestartKeeps(c, w);
  }

  lemma {:induction false} RunsKeep(c: Config, steps: seq<Step>, n: nat)
    requires n <= |steps| && FreshIds(c, steps, n)
    ensures Inv(c, Run(c, steps, n))
  {
    hide Inv, Next;
    if n == 0 {
      StartKeeps(c);
    } else {
      RunsKeep(c, steps, n - 1);
      StepKeeps(c, Run(c, steps, n - 1), steps[n - 1]);
    }
  }

  // ---------------------------------------------------------------- what follows for every run

  /** In every reachable state each ledger in memory equals the stored rows of its session, in ingestion order. */
  lemma {:induction false} LedgersAgree(c: Config, steps: seq<Step>, id: string)
    requires FreshIds(c, steps, |steps|) && id in Run(c, steps, |steps|).memory
    ensures var w := Run(c, steps, |steps|);
            Rehydrated(c.validate, w.tables.invoices, id, |w.tables.invoices|) == Some(w.memory[id].invoices)
  {
    RunsKeep(c, steps, |steps|);
    assert GoodSession(c, Run(c, steps, |steps|), id);
  }

  /**
   * Requesting a filing now or right after a restart gives the same frames, or the same refusal or exception, and
   * leaves the same tables.
   */
  lemma {:induction false} FilingSurvivesRestart(c: Config, steps: seq<Step>, id: string)
    requires FreshIds(c, steps, |steps|)
    ensures var w := Run(c, steps, |steps|);
            var (now, later) := (Next(c, w, File(id)), Next(c, Next(c, w, Restart).0, File(id)));
            now.1 == later.1 && now.0.tables == later.0.tables
  {
    hide Rehydrated, FileStep;
    RunsKeep(c, steps, |steps|);
    var w := Run(c, steps, |steps|);
    RestartKeeps(c, w);
    FilingEffect(c, w, id);
    FilingEffect(c, w.(memory := map[]), id);
  }

  /** Nothing is stored for any other session, and no invoice is touched. */
  ghost predicate OnlyThisSession(w: World, v: World, id: string) {
    && (forall x :: x != id ==> (x in v.memory <==> x in w.memory))
    && (forall x :: x != id ==> (x in v.tables.sessions <==> x in w.tables.sessions))
    && (forall x :: x != id && x in w.memory ==> v.memory[x] == w.memory[x])
    && (forall x :: x != id && x in w.tables.sessions ==> v.tables.sessions[x] == w.tables.sessions[x])
    && v.tables.invoices == w.tables.invoices && v.tables.lines == w.tables.lines
  }

  /**
   * What a filing does in every reachable state: the files are those of the stored invoices, both places say FILED and
   * one row is added to the transcript; without files the tables stay as they are.
   */
  lemma {:induction false} FilingLaw(c: Config, steps: seq<Step>, id: string)
    requires FreshIds(c, steps, |steps|)
    ensures var w := Run(c, steps, |steps|);
            var (v, r) := Next(c, w, File(id));
            var ledger := Stored(c, w, id);
            && OnlyThisSession(w, v, id) && ledger.Some?
            && (if id !in w.tables.sessions then v == w && r == Done([Chat(Assistant, UnknownSession, "")], None)
                else if ledger.value == [] then
                  v.tables == w.tables && r == Done([Chat(Assistant, NoInvoices, "")], None)
                else match c.generate(Invoices(ledger.value))
                  case Err(_) => v.tables == w.tables && r == Thrown
                  case Ok(files) =>
                    && r == Done([FilingReady(files)], Some(FILED))
                    && id in v.memory && v.memory[id] == SessionState(FILED, ledger.value)
                    && id in v.tables.sessions && v.tables.sessions[id] == FILED
                    && v.tables.chat == w.tables.chat + [ChatRow(id, System, FilingNote(|ledger.value|), "")])
  {
    hide Rehydrated, FileStep, Run, FreshIds, Inv;
    RunsKeep(c, steps, |steps|);
    FilingEffect(c, Run(c, steps, |steps|), id);
  }

  /** Closing abandons a session in both places unless it is filed, and keeps its ledger; others are not touched. */
  lemma {:induction false} ClosingLaw(c: Config, w: World, id: string)
    requires Inv(c, w)
    ensures var v := Next(c, w, Close(id)).0;
            && OnlyThisSession(w, v, id) && v.tables.chat == w.tables.chat
            && Reported(v, id) == (if Reported(w, id) == FILED then FILED else ABANDONED)
            && (id in w.memory ==>
                  && id in v.memory && v.memory[id].invoices == w.memory[id].invoices
                  && id in v.tables.sessions
                  && v.tables.sessions[id] == (if w.tables.sessions[id] == FILED then FILED else ABANDONED))
            && (id !in w.memory ==> v == w)
  {
    if id in w.memory {
      assert GoodSession(c, w, id);
    }
  }

  /** A new session is active in both places and empty. */
  lemma {:induction false} OpeningLaw(c: Config, w: World, id: string)
    requires id !in w.tables.sessions
    ensures var v := Next(c, w, Open(id)).0;
            && OnlyThisSession(w, v, id) && v.tables.chat == w.tables.chat
            && id in v.memory && v.memory[id] == SessionState(ACTIVE, [])
            && id in v.tables.sessions && v.tables.sessions[id] == ACTIVE
  {
    hide Rehydrated;
  }

  /** A note of a session in memory is answered and archived with its answer; no status and no ledger changes. */
  lemma {:induction false} ReplyLaw(c: Config, w: World, id: string, text: string)
    requires Inv(c, w)
    ensures var (v, r) := Next(c, w, Reply(id, text));
            && v.memory == w.memory && v.tables.sessions == w.tables.sessions
            && v.tables.invoices == w.tables.invoices && v.tables.lines == w.tables.lines
            && (if id in w.memory then
                  var note, ack := ChatRow(id, User, Note(text), ""), Acknowledgement(text);
                  && r == Done([Chat(Assistant, ack, "")], Some(w.memory[id].status))
                  && v.tables.chat == w.tables.chat + [note, ChatRow(id, Assistant, ack, "")]
                else v == w && r == Done([Chat(Assistant, UnknownSession, "")], None))
  {
    if id in w.memory {
      assert GoodSession(c, w, id);
    }
  }

  predicate StoredAsFiled(w: World, id: string) { id in w.tables.sessions && w.tables.sessions[id] == FILED }

  /** In every reachable state a session that is reported or stored as FILED has at least one stored invoice. */
  lemma {:induction false} FiledHasInvoice(c: Config, steps: seq<Step>, id: string)
    requires FreshIds(c, steps, |steps|)
    requires var w := Run(c, steps, |steps|); Reported(w, id) == FILED || StoredAsFiled(w, id)
    ensures var rows := Run(c, steps, |steps|).tables.invoices; exists k :: 0 <= k < |rows| && rows[k].session == id
  {
    hide Run, Inv, FreshIds;
    RunsKeep(c, steps, |steps|);
    if Reported(Run(c, steps, |steps|), id) == FILED {
      ReportedIsStored(c, Run(c, steps, |steps|), id);
    }
    FiledInStore(c, Run(c, steps, |steps|), id);
  }

  lemma {:induction false} ReportedIsStored(c: Config, w: World, id: string)
    requires Inv(c, w) && Reported(w, id) == FILED
    ensures StoredAsFiled(w, id)
  {
    assert GoodSession(c, w, id);
  }

  lemma {:induction false} FiledInStore(c: Config, w: World, id: string)
    requires Inv(c, w) && id in w.tables.sessions && w.tables.sessions[id] == FILED
    ensures exists k :: 0 <= k < |w.tables.invoices| && w.tables.invoices[k].session == id
  {
    hide Rehydrated;
    assert GoodFiled(c, w, id);
    if forall k :: 0 <= k < |w.tables.invoices| ==> w.tables.invoices[k].session != id {
      NoRowsNoLedger(c, w.tables.invoices, id, |w.tables.invoices|);
    }
  }

  lemma {:induction false} NoRowsNoLedger(c: Config, rows: seq<InvoiceRow>, id: string, n: nat)
    requires n <= |rows| && forall k :: 0 <= k < n ==> rows[k].session != id
    ensures Rehydrated(c.validate, rows, id, n) == Some([])
  {
    if n > 0 {
      NoRowsNoLedger(c, rows, id, n - 1);
    }
  }

  /** Closing a session never takes it out of FILED, in memory or in the store. */
  lemma {:induction false} ClosingKeepsFiled(c: Config, steps: seq<Step>, id: string, closed: string)
    requires FreshIds(c, steps, |steps|)
    ensures var w := Run(c, steps, |steps|);
            var v := Next(c, w, Close(closed)).0;
            && (id in w.tables.sessions && w.tables.sessions[id] == FILED ==>
                id in v.tables.sessions && v.tables.sessions[id] == FILED)
            && (id in w.memory && w.memory[id].status == FILED ==> id in v.memory && v.memory[id].status == FILED)
  {
    hide Rehydrated;
    RunsKeep(c, steps, |steps|);
    var w := Run(c, steps, |steps|);
    if closed in w.memory {
      assert GoodSession(c, w, closed);
    }
  }

  /** Sessions in memory with invoices have the status that is stored for them. */
  ghost predicate SameStatus(w: World) {
    forall id :: id in w.memory && w.memory[id].invoices != [] ==>
      id in w.tables.sessions && w.memory[id].status == w.tables.sessions[id]
  }

  /** A filing throws exactly when the statutory tax of a stored line overflows. */
  predicate FilingThrows(c: Config, w: World, step: Step) { step.File? && Next(c, w, step).1 == Thrown }

  predicate NoOverflow(c: Config, steps: seq<Step>, n: nat)
    requires n <= |steps|
  {
    n == 0 || (NoOverflow(c, steps, n - 1) && !FilingThrows(c, Run(c, steps, n - 1), steps[n - 1]))
  }

  lemma {:induction false} StepKeepsStatus(c: Config, w: World, step: Step)
    requires Inv(c, w) && SameStatus(w) && !FilingThrows(c, w, step)
    ensures SameStatus(Next(c, w, step).0)
  {
    hide Rehydrated, UploadStep, FileStep, Inv;
    match step
    case Upload(id, x, mime) => UploadKeepsStatus(c, w, id, x, mime);
    case File(id) => FileKeepsStatus(c, w, id);
    case Reply(id, text) =>
      if id in w.memory {
        LedgerIsStored(c, w, id);
      }
    case Close(id) =>
      if id in w.memory {
        LedgerIsStored(c, w, id);
      }
    case Open(id) =>
    case Restart =>
  }

  lemma {:induction false} UploadKeepsStatus(c: Config, w: World, id: string, x: Extraction, mime: string)
    requires Inv(c, w) && SameStatus(w)
    ensures SameStatus(UploadStep(c, w, id, x, mime).0)
  {
    hide Rehydrated, ReportFrames, ReportStatus, Ingest, Inv;
    if id in w.memory && x.Extracted? && c.validate(x.document).Accepted? {
      LedgerIsStored(c, w, id);
      var m := c.validate(x.document).value;
      var results := c.assess(m.Flags(), x.document);
      if results.Some? {
        IngestEffect(c, w, id, mime, m, x.document, results.value);
      }
    }
  }

  lemma {:induction false} FileKeepsStatus(c: Config, w: World, id: string)
    requires Inv(c, w) && SameStatus(w) && FileStep(c, w, id).1 != Thrown
    ensures SameStatus(FileStep(c, w, id).0)
  {
    hide Rehydrated, FileStep, FileFrom, Inv;
    FilingEffect(c, w, id);
    LedgerIsStored(c, w, id);
    if id in w.tables.sessions && Stored(c, w, id).value != [] {
      var status := if id in w.memory then w.memory[id].status else ACTIVE;
      FileFromEffect(c, w, id, status, Stored(c, w, id).value);
      FileFromThrows(c, w, id, status, Stored(c, w, id).value);
    }
  }

  lemma {:induction false} FileFromThrows(c: Config, w: World, id: string, status: Status, ledger: seq<Matrix>)
    ensures FileFrom(c, w, id, status, ledger).1 == Thrown <==> c.generate(Invoices(ledger)).Err?
  {
  }

  /**
   * In every run in which no filing throws, every session in memory with invoices has the same status in memory and
   * in the store.
   */
  lemma {:induction false} StatusesAgree(c: Config, steps: seq<Step>, n: nat)
    requires n <= |steps| && FreshIds(c, steps, n) && NoOverflow(c, steps, n)
    ensures SameStatus(Run(c, steps, n))
  {
    hide Inv, Next, FilingThrows, SameStatus;
    if n == 0 {
      EmptyStatus();
    } else {
      StatusesAgree(c, steps, n - 1);
      RunsKeep(c, steps, n - 1);
      StepKeepsStatus(c, Run(c, steps, n - 1), steps[n - 1]);
    }
  }

  lemma {:induction false} EmptyStatus()
    ensures SameStatus(START)
  {
  }

  /** A filing throws only for an overflow in the files; a rehydration never fails. */
  lemma {:induction false} OnlyOverflowThrows(c: Config, steps: seq<Step>, id: string)
    requires FreshIds(c, steps, |steps|)
    ensures var w := Run(c, steps, |steps|);
            Next(c, w, File(id)).1 == Thrown <==>
            id in w.tables.sessions && Stored(c, w, id).Some? && Stored(c, w, id).value != []
            && c.generate(Invoices(Stored(c, w, id).value)).Err?
  {
    hide Rehydrated, FileStep, FileFrom, Inv;
    RunsKeep(c, steps, |steps|);
    var w := Run(c, steps, |steps|);
    FilingEffect(c, w, id);
    LedgerIsStored(c, w, id);
    FileFromThrows(c, w, id, if id in w.memory then w.memory[id].status else ACTIVE, Stored(c, w, id).value);
  }
}
