/** The session pipeline over its durable store: `Pipeline` and the tables of `InvoiceRepository`. */
module Pipeline {
  import opened Prelude
  import opened Facts
  import opened RuleEngine
  import opened GstrReturns
  import opened Gstr
  import opened Money
  import opened Validation

  datatype Status = ACTIVE | INTERROGATING | FILED | ABANDONED

  datatype Extraction = Extracted(document: Json) | Failed(why: string)

  /** What the handlers call: validation, the rules, and the generators of the three files. */
  datatype Config = Config(
    validate: Json -> Checked<Matrix>,
    assess: (TaxFlags, Json) -> Option<seq<RuleResult>>,
    generate: seq<Invoice> -> Result<Filing, TaxError>)

  /** The validation, the rule engine and the generators of this project. */
  function Wired(d: Doubles, engine: Engine): Config {
    Config(Validator(d), (m, doc) => Evaluate(engine, m, doc, |engine.rules|), ms => Files(d, ms))
  }

  datatype Role = Assistant | User | System

  /** What a chat frame or a transcript row says, with the data in it; the wording is left out. */
  datatype Content =
    | UnknownSession
    | ExtractionFailed(why: string)
    | SchemaRejected(why: string)
    | Gap(message: string)
    | OpenGaps(open: nat)
    | Verified
    | NoInvoices
    | Note(text: string)
    | Acknowledgement(text: string)
    | FilingNote(invoices: nat)

  datatype Frame = Chat(role: Role, content: Content, action: string) | FilingReady(files: Filing)

  /** A chat frame that asks for nothing. */
  function Say(content: Content): Frame { Chat(Assistant, content, "") }

  /** What a handler gives back: frames and the session status if it sets one, or an exception. */
  datatype Outcome = Done(frames: seq<Frame>, status: Option<Status>) | Thrown

  datatype SessionState = SessionState(status: Status, invoices: seq<Matrix>)

  datatype InvoiceRow = InvoiceRow(session: string, mime: string, matrix: Matrix, document: Json)

  datatype LineRow = LineRow(invoiceId: nat, lineNo: nat, line: LineItem)

  datatype ChatRow = ChatRow(session: string, role: Role, content: Content, action: string)

  /** The tables, each in insertion order. */
  datatype Tables = Tables(sessions: map<string, Status>, invoices: seq<InvoiceRow>, lines: seq<LineRow>,
      chat: seq<ChatRow>)

  /** The memory of the process together with the tables. */
  datatype World = World(memory: map<string, SessionState>, tables: Tables)

  // ---------------------------------------------------------------- operations on the tables

  /** `INSERT OR IGNORE`. */
  function Created(sessions: map<string, Status>, id: string): map<string, Status> {
    if id in sessions then sessions else sessions[id := ACTIVE]
  }

  /** `UPDATE … WHERE session_id = ?`. */
  function Updated(sessions: map<string, Status>, id: string, status: Status): map<string, Status> {
    if id in sessions then sessions[id := status] else sessions
  }

  function LineRows(invoiceId: nat, lines: seq<LineItem>, n: nat): seq<LineRow>
    requires n <= |lines|
  {
    if n == 0 then [] else LineRows(invoiceId, lines, n - 1) + [LineRow(invoiceId, n, lines[n - 1])]
  }

  function Saved(t: Tables, row: InvoiceRow): Tables {
    Tables(Created(t.sessions, row.session), t.invoices + [row],
           t.lines + LineRows(|t.invoices| + 1, row.matrix.invoice.lines, |row.matrix.invoice.lines|), t.chat)
  }

  function Said(t: Tables, row: ChatRow): Tables {
    t.(sessions := Created(t.sessions, row.session), chat := t.chat + [row])
  }

  /** The chat rows of the first `n` frames. */
  function SaidAll(t: Tables, id: string, frames: seq<Frame>, n: nat): Tables
    requires n <= |frames|
  {
    if n == 0 then t
    else
      var before := SaidAll(t, id, frames, n - 1);
      match frames[n - 1]
      case Chat(role, content, action) => Said(before, ChatRow(id, role, content, action))
      case FilingReady(_) => before
  }

  /** The session's matrices among the first `n` rows, validated again; nothing if a stored document fails. */
  function Rehydrated(validate: Json -> Checked<Matrix>, rows: seq<InvoiceRow>, id: string, n: nat): Option<seq<Matrix>>
    requires n <= |rows|
  {
    if n == 0 then Some([])
    else
      var before := Rehydrated(validate, rows, id, n - 1);
      if before.None? || rows[n - 1].session != id then before
      else match validate(rows[n - 1].document) case Accepted(m) => Some(before.value + [m]) case _ => None
  }

  class Repository {
    var tables: Tables

    constructor ()
      ensures tables == Tables(map[], [], [], [])
    {
      tables := Tables(map[], [], [], []);
    }

    method CreateSession(id: string)
      modifies this
      ensures tables == old(tables).(sessions := Created(old(tables).sessions, id))
    {
      if id !in tables.sessions {
        tables := tables.(sessions := tables.sessions[id := ACTIVE]);
      }
    }

    method SessionExists(id: string) returns (exists': bool)
      ensures exists' == (id in tables.sessions)
    {
      exists' := id in tables.sessions;
    }

    method SetSessionStatus(id: string, status: Status)
      modifies this
      ensures tables == old(tables).(sessions := Updated(old(tables).sessions, id, status))
    {
      if id in tables.sessions {
        tables := tables.(sessions := tables.sessions[id := status]);
      }
    }

    /** The invoice row, then one row for each line, numbered from one. */
    method SaveExtraction(id: string, mime: string, matrix: Matrix, document: Json) returns (invoiceId: nat)
      modifies this
      ensures tables == Saved(old(tables), InvoiceRow(id, mime, matrix, document)) && invoiceId == |tables.invoices|
    {
      CreateSession(id);
      ghost var before := tables.lines;
      tables := tables.(invoices := tables.invoices + [InvoiceRow(id, mime, matrix, document)]);
      invoiceId := |tables.invoices|;
      ghost var others := tables;
      var lines := matrix.invoice.lines;
      var lineNo := 0;
      for k := 0 to |lines|
        invariant lineNo == k && tables == others.(lines := before + LineRows(invoiceId, lines, k))
      {
        lineNo := lineNo + 1;
        tables := tables.(lines := tables.lines + [LineRow(invoiceId, lineNo, lines[k])]);
        Concat3(before, LineRows(invoiceId, lines, k), [LineRow(invoiceId, lineNo, lines[k])]);
      }
    }

    method InvoicesForSession(d: Doubles, id: string) returns (r: Option<seq<Matrix>>)
      ensures r == Rehydrated(Validator(d), tables.invoices, id, |tables.invoices|)
    {
      hide Validate;
      var out: seq<Matrix> := [];
      for k := 0 to |tables.invoices|
        invariant Rehydrated(Validator(d), tables.invoices, id, k) == Some(out)
      {
        var row := tables.invoices[k];
        if row.session == id {
          var v := ValidateAndSanitize(d, row.document);
          if !v.Accepted? {
            RehydrationFails(Validator(d), tables.invoices, id, k + 1, |tables.invoices|);
            return None;
          }
          out := out + [v.value];
        }
      }
      r := Some(out);
    }

    method AddChatMessage(id: string, role: Role, content: Content, action: string)
      modifies this
      ensures tables == Said(old(tables), ChatRow(id, role, content, action))
    {
      CreateSession(id);
      tables := tables.(chat := tables.chat + [ChatRow(id, role, content, action)]);
    }
  }

  lemma {:induction false} RehydrationFails(validate: Json -> Checked<Matrix>, rows: seq<InvoiceRow>, id: string,
      k: nat, n: nat)
    requires k <= n <= |rows|
    ensures Rehydrated(validate, rows, id, k).None? ==> Rehydrated(validate, rows, id, n).None?
  {
    if k < n {
      RehydrationFails(validate, rows, id, k, n - 1);
    }
  }

  // ---------------------------------------------------------------- the handlers as steps

  datatype Step =
    | Open(id: string)
    | Close(id: string)
    | Upload(id: string, extraction: Extraction, mime: string)
    | Reply(id: string, text: string)
    | File(id: string)
    | Restart

  /** The frames of the first `n` results: one for each open gap. */
  function GapFrames(results: seq<RuleResult>, n: nat): seq<Frame>
    requires n <= |results|
  {
    if n == 0 then []
    else if results[n - 1].violated then GapFrames(results, n - 1) +
      [Chat(Assistant, Gap(results[n - 1].message), results[n - 1].actionRequired)]
    else GapFrames(results, n - 1)
  }

  function ReportFrames(results: seq<RuleResult>): seq<Frame> {
    var gaps := GapFrames(results, |results|);
    gaps + [Say(if gaps == [] then Verified else OpenGaps(|gaps|))]
  }

  function ReportStatus(results: seq<RuleResult>): Status {
    if GapFrames(results, |results|) == [] then ACTIVE else INTERROGATING
  }

  /** The effect of a document that passed validation and the rules. */
  function Ingest(w: World, id: string, mime: string, m: Matrix, doc: Json, results: seq<RuleResult>): World
    requires id in w.memory
  {
    var frames := ReportFrames(results);
    var t := SaidAll(Saved(w.tables, InvoiceRow(id, mime, m, doc)), id, frames, |frames|);
    World(w.memory[id := SessionState(ReportStatus(results), w.memory[id].invoices + [m])],
          t.(sessions := Updated(t.sessions, id, ReportStatus(results))))
  }

  function UploadStep(c: Config, w: World, id: string, x: Extraction, mime: string): (World, Outcome) {
    if id !in w.memory then (w, Done([Say(UnknownSession)], None))
    else
      match x
      case Failed(why) => (w, Done([Say(ExtractionFailed(why))], None))
      case Extracted(doc) =>
        match c.validate(doc)
        case Rejected(why) => (w, Done([Say(SchemaRejected(why))], None))
        case Escapes => (w, Thrown)
        case Accepted(m) =>
          match c.assess(m.Flags(), doc)
          case None => (w, Thrown)
          case Some(results) => (Ingest(w, id, mime, m, doc, results),
            Done(ReportFrames(results), Some(ReportStatus(results))))
  }

  // ---------------------------------------------------------------- what an upload promises

  ghost predicate AnyViolated(results: seq<RuleResult>) { exists k :: 0 <= k < |results| && results[k].violated }

  /** The places of the violated ones among the first `n` results, every one of them and in order. */
  predicate ListsGaps(results: seq<RuleResult>, n: nat, at: seq<nat>)
    requires n <= |results|
  {
    && (forall j :: 0 <= j < |at| ==> at[j] < n && results[at[j]].violated)
    && (forall i, j :: 0 <= i < j < |at| ==> at[i] < at[j])
    && (forall k :: 0 <= k < n && results[k].violated ==> k in at)
  }

  /** One frame for each of these places, with the message and the action of the result that stands there. */
  predicate StatesGaps(results: seq<RuleResult>, at: seq<nat>, frames: seq<Frame>)
    requires forall j :: 0 <= j < |at| ==> at[j] < |results|
  {
    |frames| == |at| && forall j :: 0 <= j < |at| ==>
      frames[j] == Chat(Assistant, Gap(results[at[j]].message), results[at[j]].actionRequired)
  }

  /** The open gaps in order, then how many there are, or that there are none. */
  ghost predicate IsReport(results: seq<RuleResult>, frames: seq<Frame>, status: Status) {
    && status == (if AnyViolated(results) then INTERROGATING else ACTIVE)
    && frames != []
    && (exists at :: ListsGaps(results, |results|, at) && StatesGaps(results, at, frames[..|frames| - 1]))
    && frames[|frames| - 1] ==
       Chat(Assistant, if AnyViolated(results) then OpenGaps(|frames| - 1) else Verified, "")
  }

  /** The rows of the lines of one invoice: numbered from one, in order. */
  predicate AreLineRows(rows: seq<LineRow>, invoiceId: nat, lines: seq<LineItem>) {
    |rows| == |lines| && forall k :: 0 <= k < |lines| ==> rows[k] == LineRow(invoiceId, k + 1, lines[k])
  }

  /** One row for each frame, in order. */
  predicate Transcribes(rows: seq<ChatRow>, id: string, frames: seq<Frame>) {
    |rows| == |frames| && forall k :: 0 <= k < |frames| ==>
      frames[k].Chat? && rows[k] == ChatRow(id, frames[k].role, frames[k].content, frames[k].action)
  }

  /** The state before, the state after, and the report of an accepted document. */
  ghost predicate IsIngested(w: World, v: World, row: InvoiceRow, results: seq<RuleResult>, frames: seq<Frame>,
      status: Status)
  {
    && IsReport(results, frames, status)
    && row.session in w.memory
    && v.memory == w.memory[row.session := SessionState(status, w.memory[row.session].invoices + [row.matrix])]
    && v.tables.sessions == w.tables.sessions[row.session := status]
    && v.tables.invoices == w.tables.invoices + [row]
    && w.tables.lines <= v.tables.lines
    && AreLineRows(v.tables.lines[|w.tables.lines|..], |v.tables.invoices|, row.matrix.invoice.lines)
    && w.tables.chat <= v.tables.chat
    && Transcribes(v.tables.chat[|w.tables.chat|..], row.session, frames)
  }

  /** The outcome of every upload; a refused or failed one changes nothing. */
  ghost predicate UploadEffect(c: Config, w: World, id: string, x: Extraction, mime: string, v: World, r: Outcome) {
    if id !in w.memory then v == w && r == Done([Chat(Assistant, UnknownSession, "")], None)
    else if x.Failed? then v == w && r == Done([Chat(Assistant, ExtractionFailed(x.why), "")], None)
    else match c.validate(x.document)
      case Rejected(why) => v == w && r == Done([Chat(Assistant, SchemaRejected(why), "")], None)
      case Escapes => v == w && r == Thrown
      case Accepted(m) =>
        match c.assess(m.Flags(), x.document)
        case None => v == w && r == Thrown
        case Some(results) => (r.Done? && r.status.Some? &&
          IsIngested(w, v, InvoiceRow(id, mime, m, x.document), results, r.frames, r.status.value))
  }

  lemma {:induction false} GapsAreListed(results: seq<RuleResult>, n: nat) returns (at: seq<nat>)
    requires n <= |results|
    ensures ListsGaps(results, n, at) && StatesGaps(results, at, GapFrames(results, n))
  {
    hide ListsGaps, StatesGaps;
    if n == 0 {
      at := [];
      NoGaps(results);
    } else {
      var before := GapsAreListed(results, n - 1);
      GapsBelow(results, n - 1, before);
      if results[n - 1].violated {
        at := before + [n - 1];
        NextGap(results, n - 1, before);
        NextFrame(results, n - 1, before, GapFrames(results, n - 1));
      } else {
        at := before;
        NoNextGap(results, n - 1, before);
      }
    }
  }

  lemma {:induction false} NoGaps(results: seq<RuleResult>)
    ensures ListsGaps(results, 0, []) && StatesGaps(results, [], [])
  {
  }

  lemma {:induction false} GapsBelow(results: seq<RuleResult>, n: nat, at: seq<nat>)
    requires n <= |results| && ListsGaps(results, n, at)
    ensures forall j :: 0 <= j < |at| ==> at[j] < n
  {
  }

  lemma {:induction false} NextGap(results: seq<RuleResult>, n: nat, before: seq<nat>)
    requires n < |results| && ListsGaps(results, n, before) && results[n].violated
    ensures ListsGaps(results, n + 1, before + [n])
  {
    var at := before + [n];
    assert at[|before|] == n;
    forall k | 0 <= k < n + 1 && results[k].violated ensures k in at {
      if k < n {
        assert k in before;
      }
    }
  }

  lemma {:induction false} NoNextGap(results: seq<RuleResult>, n: nat, before: seq<nat>)
    requires n < |results| && ListsGaps(results, n, before) && !results[n].violated
    ensures ListsGaps(results, n + 1, before)
  {
  }

  lemma {:induction false} NextFrame(results: seq<RuleResult>, n: nat, before: seq<nat>, frames: seq<Frame>)
    requires n < |results| && forall j :: 0 <= j < |before| ==> before[j] < n
    requires StatesGaps(results, before, frames)
    ensures StatesGaps(results, before + [n],
              frames + [Chat(Assistant, Gap(results[n].message), results[n].actionRequired)])
  {
  }

  lemma {:induction false} GapsAreViolated(results: seq<RuleResult>, at: seq<nat>)
    requires ListsGaps(results, |results|, at)
    ensures AnyViolated(results) <==> at != []
  {
    if at != [] {
      assert results[at[0]].violated;
    }
  }

  lemma {:induction false} ReportIsReport(results: seq<RuleResult>)
    ensures IsReport(results, ReportFrames(results), ReportStatus(results))
  {
    hide AnyViolated;
    var at := GapsAreListed(results, |results|);
    GapsAreViolated(results, at);
    var gaps := GapFrames(results, |results|);
    assert ReportFrames(results)[..|gaps|] == gaps;
  }

  lemma {:induction false} LineRowsAreRows(invoiceId: nat, lines: seq<LineItem>, n: nat)
    requires n <= |lines|
    ensures AreLineRows(LineRows(invoiceId, lines, n), invoiceId, lines[..n])
  {
    if n > 0 {
      LineRowsAreRows(invoiceId, lines, n - 1);
    }
  }

  lemma {:induction false} ReportsChat(results: seq<RuleResult>, n: nat)
    requires n <= |results|
    ensures forall k :: 0 <= k < |GapFrames(results, n)| ==> GapFrames(results, n)[k].Chat?
  {
    if n > 0 {
      ReportsChat(results, n - 1);
    }
  }

  lemma {:induction false} ChatIsTranscribed(t: Tables, id: string, frames: seq<Frame>, n: nat)
    requires n <= |frames| && forall k :: 0 <= k < |frames| ==> frames[k].Chat?
    ensures var u := SaidAll(t, id, frames, n);
            && u.invoices == t.invoices && u.lines == t.lines
            && u.sessions == (if n == 0 then t.sessions else Created(t.sessions, id))
            && t.chat <= u.chat && Transcribes(u.chat[|t.chat|..], id, frames[..n])
  {
    if n > 0 {
      ChatIsTranscribed(t, id, frames, n - 1);
      var before := SaidAll(t, id, frames, n - 1).chat;
      var f := frames[n - 1];
      var row := ChatRow(id, f.role, f.content, f.action);
      assert (before + [row])[|t.chat|..] == before[|t.chat|..] + [row];
    }
  }

  lemma {:induction false} IngestIsIngested(w: World, id: string, mime: string, m: Matrix, doc: Json,
      results: seq<RuleResult>)
    requires id in w.memory
    ensures IsIngested(w, Ingest(w, id, mime, m, doc, results), InvoiceRow(id, mime, m, doc), results,
              ReportFrames(results), ReportStatus(results))
  {
    hide IsReport, ReportStatus, AreLineRows, Transcribes, LineRows, SaidAll;
    var (frames, row) := (ReportFrames(results), InvoiceRow(id, mime, m, doc));
    var saved := Saved(w.tables, row);
    ReportIsReport(results);
    ReportsChat(results, |results|);
    ChatIsTranscribed(saved, id, frames, |frames|);
    LineRowsAreRows(|saved.invoices|, m.invoice.lines, |m.invoice.lines|);
    assert frames[..|frames|] == frames && m.invoice.lines[..|m.invoice.lines|] == m.invoice.lines;
    var rows := LineRows(|saved.invoices|, m.invoice.lines, |m.invoice.lines|);
    assert (w.tables.lines + rows)[|w.tables.lines|..] == rows;
  }

  /** Every upload does what is promised, whatever validation and the rules answer. */
  lemma {:induction false} UploadLaw(c: Config, w: World, id: string, x: Extraction, mime: string)
    ensures var (v, r) := UploadStep(c, w, id, x, mime); UploadEffect(c, w, id, x, mime, v, r)
  {
    hide IsIngested, Ingest, ReportFrames, ReportStatus;
    if id in w.memory && x.Extracted? && c.validate(x.document).Accepted? {
      var m := c.validate(x.document).value;
      var results := c.assess(m.Flags(), x.document);
      if results.Some? {
        IngestIsIngested(w, id, mime, m, x.document, results.value);
      }
    }
  }

  function ReplyStep(w: World, id: string, text: string): (World, Outcome) {
    if id !in w.memory then (w, Done([Say(UnknownSession)], None))
    else
      var ack := Acknowledgement(text);
      var t := Said(Said(w.tables, ChatRow(id, User, Note(text), "")), ChatRow(id, Assistant, ack, ""));
      (w.(tables := t), Done([Say(ack)], Some(w.memory[id].status)))
  }

  function Invoices(ms: seq<Matrix>): (r: seq<Invoice>)
    ensures |r| == |ms|
  {
    seq(|ms|, i requires 0 <= i < |ms| => ms[i].invoice)
  }

  /** Filing from a ledger that is already in memory or has just been rehydrated. */
  function FileFrom(c: Config, w: World, id: string, status: Status, ledger: seq<Matrix>): (World, Outcome) {
    var held := w.(memory := w.memory[id := SessionState(status, ledger)]);
    match c.generate(Invoices(ledger))
    case Err(_) => (held, Thrown)
    case Ok(files) =>
      var t := Said(w.tables, ChatRow(id, System, FilingNote(|ledger|), ""));
      (World(w.memory[id := SessionState(FILED, ledger)], t.(sessions := Updated(t.sessions, id, FILED))),
       Done([FilingReady(files)], Some(FILED)))
  }

  function FileStep(c: Config, w: World, id: string): (World, Outcome) {
    if id !in w.memory && id !in w.tables.sessions then (w, Done([Say(UnknownSession)], None))
    else
      var s := if id in w.memory then w.memory[id] else SessionState(ACTIVE, []);
      var adopted := w.(memory := w.memory[id := s]);
      var ledger := if s.invoices != [] then Some(s.invoices)
          else Rehydrated(c.validate, w.tables.invoices, id, |w.tables.invoices|);
      if ledger.None? then (adopted, Thrown)
      else if ledger.value == [] then (adopted, Done([Say(NoInvoices)], None))
      else FileFrom(c, w, id, s.status, ledger.value)
  }

  function CloseStep(w: World, id: string): World {
    if id !in w.memory || w.memory[id].status == FILED then w
    else
      World(w.memory[id := w.memory[id].(status := ABANDONED)],
            w.tables.(sessions := Updated(w.tables.sessions, id, ABANDONED)))
  }

  /** `statusOf`: what is reported of a session; one that is not in memory counts as abandoned. */
  function Reported(w: World, id: string): Status { if id in w.memory then w.memory[id].status else ABANDONED }

  function OpenStep(w: World, id: string): World {
    World(w.memory[id := SessionState(ACTIVE, [])], w.tables.(sessions := Created(w.tables.sessions, id)))
  }

  /** One step of the system; a restart forgets the memory and keeps the tables. */
  function Next(c: Config, w: World, step: Step): (World, Outcome) {
    match step
    case Open(id) => (OpenStep(w, id), Done([], None))
    case Close(id) => (CloseStep(w, id), Done([], None))
    case Upload(id, x, mime) => UploadStep(c, w, id, x, mime)
    case Reply(id, text) => ReplyStep(w, id, text)
    case File(id) => FileStep(c, w, id)
    case Restart => (w.(memory := map[]), Done([], None))
  }

  // ---------------------------------------------------------------- the handlers

  class Pipeline {
    const doubles: Doubles
    const engine: Engine
    const repo: Repository
    var sessions: map<string, SessionState>

    /** Construction over an existing store is what a restart does. */
    constructor (doubles: Doubles, engine: Engine, repo: Repository)
      ensures this.doubles == doubles && this.engine == engine && this.repo == repo
      ensures Value() == World(map[], repo.tables)
    {
      this.doubles, this.engine, this.repo, sessions := doubles, engine, repo, map[];
    }

    function Calls(): Config { Wired(doubles, engine) }

    function Value(): World
      reads this, repo
    {
      World(sessions, repo.tables)
    }

    /** The id is a new UUID. */
    method OpenSession(id: string)
      modifies this, repo
      ensures Value() == OpenStep(old(Value()), id)
    {
      repo.CreateSession(id);
      sessions := sessions[id := SessionState(ACTIVE, [])];
    }

    method CloseSession(id: string)
      modifies this, repo
      ensures Value() == CloseStep(old(Value()), id)
    {
      if id !in sessions {
        return;
      }
      if sessions[id].status != FILED {
        sessions := sessions[id := sessions[id].(status := ABANDONED)];
        repo.SetSessionStatus(id, ABANDONED);
      }
    }

    method StatusOf(id: string) returns (status: Status)
      ensures status == Reported(Value(), id)
    {
      status := if id in sessions then sessions[id].status else ABANDONED;
    }

    method ProcessUpload(id: string, x: Extraction, mime: string) returns (r: Outcome)
      modifies this, repo
      ensures (Value(), r) == UploadStep(Calls(), old(Value()), id, x, mime)
      ensures UploadEffect(Calls(), old(Value()), id, x, mime, Value(), r)
    {
      hide Validate, Evaluate, ReportFrames, ReportStatus, Ingest, UploadEffect;
      UploadLaw(Calls(), Value(), id, x, mime);
      if id !in sessions {
        return Done([Say(UnknownSession)], None);
      }
      if x.Failed? {
        return Done([Say(ExtractionFailed(x.why))], None);
      }
      var v := ValidateAndSanitize(doubles, x.document);
      if v.Escapes? {
        return Thrown;
      }
      if v.Rejected? {
        return Done([Say(SchemaRejected(v.why))], None);
      }
      var results := RunRules(engine, v.value.Flags(), x.document);
      if results.None? {
        return Thrown;
      }
      r := Record(id, mime, v.value, x.document, results.value);
    }

    /** Reports the gaps, then persists the ledger and the transcript. */
    method Record(id: string, mime: string, m: Matrix, doc: Json, results: seq<RuleResult>) returns (r: Outcome)
      requires id in sessions
      modifies this, repo
      ensures Value() == Ingest(old(Value()), id, mime, m, doc, results)
      ensures r == Done(ReportFrames(results), Some(ReportStatus(results)))
      ensures IsIngested(old(Value()), Value(), InvoiceRow(id, mime, m, doc), results, r.frames, r.status.value)
    {
      hide ReportFrames, Saved, SaidAll, Updated, IsIngested, IsReport;
      IngestIsIngested(Value(), id, mime, m, doc, results);
      var frames, gaps := Report(results);
      var status := if gaps then INTERROGATING else ACTIVE;
      sessions := sessions[id := sessions[id].(invoices := sessions[id].invoices + [m])];
      var invoiceId := repo.SaveExtraction(id, mime, m, doc);
      Transcribe(id, frames);
      repo.SetSessionStatus(id, status);
      sessions := sessions[id := sessions[id].(status := status)];
      r := Done(frames, Some(status));
    }

    method Report(results: seq<RuleResult>) returns (frames: seq<Frame>, gaps: bool)
      ensures frames == ReportFrames(results) && gaps == (ReportStatus(results) == INTERROGATING)
      ensures IsReport(results, frames, if gaps then INTERROGATING else ACTIVE)
    {
      hide IsReport;
      ReportIsReport(results);
      frames, gaps := [], false;
      for k := 0 to |results|
        invariant frames == GapFrames(results, k) && gaps == (frames != [])
      {
        if results[k].violated {
          gaps := true;
          frames := frames + [Chat(Assistant, Gap(results[k].message), results[k].actionRequired)];
        }
      }
      if gaps {
        var open := |frames|;
        frames := frames + [Say(OpenGaps(open))];
      } else {
        frames := frames + [Say(Verified)];
      }
    }

    /** Stores every chat frame. */
    method Transcribe(id: string, frames: seq<Frame>)
      modifies repo
      ensures repo.tables == SaidAll(old(repo.tables), id, frames, |frames|)
    {
      for k := 0 to |frames|
        invariant repo.tables == SaidAll(old(repo.tables), id, frames, k)
      {
        var f := frames[k];
        if f.Chat? {
          repo.AddChatMessage(id, f.role, f.content, f.action);
        }
      }
    }

    method ProcessUserReply(id: string, text: string) returns (r: Outcome)
      modifies repo
      ensures (Value(), r) == ReplyStep(old(Value()), id, text)
    {
      if id !in sessions {
        return Done([Say(UnknownSession)], None);
      }
      repo.AddChatMessage(id, User, Note(text), "");
      var ack := Acknowledgement(text);
      repo.AddChatMessage(id, Assistant, ack, "");
      r := Done([Say(ack)], Some(sessions[id].status));
    }

    method RequestFiling(id: string) returns (r: Outcome)
      modifies this, repo
      ensures (Value(), r) == FileStep(Calls(), old(Value()), id)
    {
      hide FileFrom, Rehydrated;
      if id !in sessions {
        var known := repo.SessionExists(id);
        if !known {
          return Done([Say(UnknownSession)], None);
        }
        sessions := sessions[id := SessionState(ACTIVE, [])];
      }
      assert sessions == old(sessions)[id := sessions[id]];
      var invoices := sessions[id].invoices;
      if invoices == [] {
        var stored := repo.InvoicesForSession(doubles, id);
        if stored.None? {
          return Thrown;
        }
        invoices := stored.value;
      }
      if invoices == [] {
        return Done([Say(NoInvoices)], None);
      }
      ghost var before := World(old(sessions), repo.tables);
      r := Generate3(id, invoices, before);
    }

    /** The ledger goes into memory, the three files are made, and the session is filed. */
    method Generate3(id: string, invoices: seq<Matrix>, ghost before: World) returns (r: Outcome)
      requires id in sessions && before.tables == repo.tables && sessions == before.memory[id := sessions[id]]
      modifies this, repo
      ensures (Value(), r) == FileFrom(Calls(), before, id, old(sessions)[id].status, invoices)
    {
      hide Files, Said, Updated;
      sessions := sessions[id := sessions[id].(invoices := invoices)];
      assert sessions == before.memory[id := SessionState(old(sessions)[id].status, invoices)];
      var files := Generate(doubles, Invoices(invoices));
      if files.Err? {
        return Thrown;
      }
      repo.AddChatMessage(id, System, FilingNote(|invoices|), "");
      repo.SetSessionStatus(id, FILED);
      sessions := sessions[id := sessions[id].(status := FILED)];
      assert sessions == before.memory[id := SessionState(FILED, invoices)];
      r := Done([FilingReady(files.value)], Some(FILED));
    }
  }
}
