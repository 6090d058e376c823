/** Sessions do not interfere: what a run does for one session depends on the steps of that session and on restarts. */
module PipelineSessions {
  import opened Prelude
  import opened Facts
  import opened RuleEngine
  import opened GstrReturns
  import opened Gstr
  import opened Validation
  import opened Pipeline
  import opened PipelineLaws

  /** What belongs to one session: its state in memory, its stored status, its documents and its transcript. */
  datatype View = View(memory: Option<SessionState>, status: Option<Status>, rows: seq<InvoiceRow>, chat: seq<ChatRow>)

  function RowsOf(rows: seq<InvoiceRow>, id: string, n: nat): seq<InvoiceRow>
    requires n <= |rows|
  {
    if n == 0 then []
    else if rows[n - 1].session == id then RowsOf(rows, id, n - 1) + [rows[n - 1]]
    else RowsOf(rows, id, n - 1)
  }

  function ChatOf(rows: seq<ChatRow>, id: string, n: nat): seq<ChatRow>
    requires n <= |rows|
  {
    if n == 0 then []
    else if rows[n - 1].session == id then ChatOf(rows, id, n - 1) + [rows[n - 1]]
    else ChatOf(rows, id, n - 1)
  }

  function Lookup<V>(m: map<string, V>, id: string): Option<V> { if id in m then Some(m[id]) else None }

  function ViewOf(w: World, id: string): View {
    View(Lookup(w.memory, id), Lookup(w.tables.sessions, id), RowsOf(w.tables.invoices, id, |w.tables.invoices|),
         ChatOf(w.tables.chat, id, |w.tables.chat|))
  }

  /** A restart concerns every session. */
  predicate Concerns(step: Step, id: string) { step.Restart? || step.id == id }

  /** The steps among the first `n` that concern a session. */
  function StepsOf(steps: seq<Step>, id: string, n: nat): seq<Step>
    requires n <= |steps|
  {
    if n == 0 then []
    else if Concerns(steps[n - 1], id) then StepsOf(steps, id, n - 1) + [steps[n - 1]]
    else StepsOf(steps, id, n - 1)
  }

  // ---------------------------------------------------------------- rows of one session

  lemma {:induction false} RowsOfNext(rows: seq<InvoiceRow>, row: InvoiceRow, id: string, n: nat)
    requires n <= |rows|
    ensures RowsOf(rows + [row], id, n) == RowsOf(rows, id, n)
    ensures n == |rows| ==>
      RowsOf(rows + [row], id, n + 1) == RowsOf(rows, id, n) + if row.session == id then [row] else []
  {
    if n > 0 {
      RowsOfNext(rows, row, id, n - 1);
    }
  }

  lemma {:induction false} ChatOfNext(rows: seq<ChatRow>, row: ChatRow, id: string, n: nat)
    requires n <= |rows|
    ensures ChatOf(rows + [row], id, n) == ChatOf(rows, id, n)
    ensures n == |rows| ==>
      ChatOf(rows + [row], id, n + 1) == ChatOf(rows, id, n) + if row.session == id then [row] else []
  {
    if n > 0 {
      ChatOfNext(rows, row, id, n - 1);
    }
  }

  /** What is rehydrated for a session comes from its own rows. */
  lemma {:induction false} RehydratesOwn(c: Config, rows: seq<InvoiceRow>, id: string, n: nat)
    requires n <= |rows|
    ensures var own := RowsOf(rows, id, n);
            Rehydrated(c.validate, rows, id, n) == Rehydrated(c.validate, own, id, |own|)
  {
    if n > 0 {
      RehydratesOwn(c, rows, id, n - 1);
      if rows[n - 1].session == id {
        var before := RowsOf(rows, id, n - 1);
        RehydratedPrefix(c, before, rows[n - 1], id, |before|);
      }
    }
  }

  // ---------------------------------------------------------------- one row

  function Shown(t: Tables, id: string): (Option<Status>, seq<InvoiceRow>, seq<ChatRow>) {
    (Lookup(t.sessions, id), RowsOf(t.invoices, id, |t.invoices|), ChatOf(t.chat, id, |t.chat|))
  }

  lemma {:induction false} SaidApart(t: Tables, row: ChatRow, id: string)
    ensures Shown(Said(t, row), id) ==
            if row.session != id then Shown(t, id)
            else (Some(if id in t.sessions then t.sessions[id] else ACTIVE), Shown(t, id).1, Shown(t, id).2 + [row])
  {
    ChatOfNext(t.chat, row, id, |t.chat|);
  }

  lemma {:induction false} SavedApart(t: Tables, row: InvoiceRow, id: string)
    ensures Shown(Saved(t, row), id) ==
            if row.session != id then Shown(t, id)
            else (Some(if id in t.sessions then t.sessions[id] else ACTIVE), Shown(t, id).1 + [row], Shown(t, id).2)
  {
    RowsOfNext(t.invoices, row, id, |t.invoices|);
  }

  lemma {:induction false} SaidAllApart(t: Tables, u: Tables, session: string, id: string, frames: seq<Frame>, n: nat)
    requires n <= |frames| && Shown(t, id) == Shown(u, id)
    ensures Shown(SaidAll(t, session, frames, n), id) == Shown(SaidAll(u, session, frames, n), id)
    ensures session != id ==> Shown(SaidAll(t, session, frames, n), id) == Shown(t, id)
  {
    hide Shown, Said;
    if n > 0 {
      SaidAllApart(t, u, session, id, frames, n - 1);
      match frames[n - 1] {
        case Chat(role, content, action) =>
          var row := ChatRow(session, role, content, action);
          SaidApart(SaidAll(t, session, frames, n - 1), row, id);
          SaidApart(SaidAll(u, session, frames, n - 1), row, id);
          SaidKnows(SaidAll(t, session, frames, n - 1), SaidAll(u, session, frames, n - 1), id);
        case FilingReady(_) =>
      }
    }
  }

  lemma {:induction false} SaidKnows(t: Tables, u: Tables, id: string)
    requires Shown(t, id) == Shown(u, id)
    ensures id in t.sessions <==> id in u.sessions
    ensures id in t.sessions ==> t.sessions[id] == u.sessions[id]
  {
  }

  // ---------------------------------------------------------------- one step

  /** A step of another session leaves a session as it is. */
  lemma {:induction false} OthersStepsPass(c: Config, w: World, step: Step, id: string)
    requires !Concerns(step, id)
    ensures ViewOf(Next(c, w, step).0, id) == ViewOf(w, id)
  {
    hide SaidAll, Said, Saved, ReportFrames, ReportStatus, Rehydrated, RowsOf, ChatOf;
    match step
    case Open(_) =>
    case Close(_) =>
    case Upload(other, x, mime) => OthersUploadPasses(c, w, other, x, mime, id);
    case Reply(other, text) =>
      var said := Said(w.tables, ChatRow(other, User, Note(text), ""));
      SaidApart(w.tables, ChatRow(other, User, Note(text), ""), id);
      SaidApart(said, ChatRow(other, Assistant, Acknowledgement(text), ""), id);
    case File(other) => OthersFilingPasses(c, w, other, id);
  }

  lemma {:induction false} OthersUploadPasses(c: Config, w: World, other: string, x: Extraction, mime: string,
      id: string)
    requires other != id
    ensures ViewOf(UploadStep(c, w, other, x, mime).0, id) == ViewOf(w, id)
  {
    hide SaidAll, Saved, ReportFrames, ReportStatus, RowsOf, ChatOf;
    if other in w.memory && x.Extracted? && c.validate(x.document).Accepted? {
      var m := c.validate(x.document).value;
      var results := c.assess(m.Flags(), x.document);
      if results.Some? {
        var frames := ReportFrames(results.value);
        var saved := Saved(w.tables, InvoiceRow(other, mime, m, x.document));
        SavedApart(w.tables, InvoiceRow(other, mime, m, x.document), id);
        SaidAllApart(saved, saved, other, id, frames, |frames|);
      }
    }
  }

  lemma {:induction false} OthersFilingPasses(c: Config, w: World, other: string, id: string)
    requires other != id
    ensures ViewOf(FileStep(c, w, other).0, id) == ViewOf(w, id)
  {
    hide Said, Rehydrated, RowsOf, ChatOf;
    forall n: nat ensures Shown(Said(w.tables, ChatRow(other, System, FilingNote(n), "")), id) == Shown(w.tables, id) {
      SaidApart(w.tables, ChatRow(other, System, FilingNote(n), ""), id);
    }
  }

  /** A step of a session sees nothing but this session. */
  lemma {:induction false} OwnStepsAgree(c: Config, w: World, v: World, step: Step, id: string)
    requires Concerns(step, id) && ViewOf(w, id) == ViewOf(v, id)
    ensures ViewOf(Next(c, w, step).0, id) == ViewOf(Next(c, v, step).0, id)
    ensures Next(c, w, step).1 == Next(c, v, step).1
  {
    hide UploadStep, FileStep, Said, RowsOf, ChatOf;
    SameLookups(w, v, id);
    match step
    case Upload(_, x, mime) => OwnUploadsAgree(c, w, v, id, x, mime);
    case File(_) => OwnFilingsAgree(c, w, v, id);
    case Reply(_, text) =>
      var (a, b) := (ChatRow(id, User, Note(text), ""), ChatRow(id, Assistant, Acknowledgement(text), ""));
      SaidApart(w.tables, a, id);
      SaidApart(v.tables, a, id);
      SaidApart(Said(w.tables, a), b, id);
      SaidApart(Said(v.tables, a), b, id);
    case Open(_) =>
    case Close(_) =>
    case Restart =>
  }

  lemma {:induction false} SameLookups(w: World, v: World, id: string)
    requires ViewOf(w, id) == ViewOf(v, id)
    ensures id in w.memory <==> id in v.memory
    ensures id in w.memory ==> w.memory[id] == v.memory[id]
    ensures id in w.tables.sessions <==> id in v.tables.sessions
    ensures id in w.tables.sessions ==> w.tables.sessions[id] == v.tables.sessions[id]
  {
  }

  lemma {:induction false} OwnUploadsAgree(c: Config, w: World, v: World, id: string, x: Extraction, mime: string)
    requires ViewOf(w, id) == ViewOf(v, id)
    ensures ViewOf(UploadStep(c, w, id, x, mime).0, id) == ViewOf(UploadStep(c, v, id, x, mime).0, id)
    ensures UploadStep(c, w, id, x, mime).1 == UploadStep(c, v, id, x, mime).1
  {
    hide SaidAll, Saved, ReportFrames, ReportStatus, RowsOf, ChatOf;
    SameLookups(w, v, id);
    if id in w.memory && x.Extracted? && c.validate(x.document).Accepted? {
      var m := c.validate(x.document).value;
      var results := c.assess(m.Flags(), x.document);
      if results.Some? {
        var frames := ReportFrames(results.value);
        var row := InvoiceRow(id, mime, m, x.document);
        SavedApart(w.tables, row, id);
        SavedApart(v.tables, row, id);
        SaidAllApart(Saved(w.tables, row), Saved(v.tables, row), id, id, frames, |frames|);
      }
    }
  }

  lemma {:induction false} OwnFilingsAgree(c: Config, w: World, v: World, id: string)
    requires ViewOf(w, id) == ViewOf(v, id)
    ensures ViewOf(FileStep(c, w, id).0, id) == ViewOf(FileStep(c, v, id).0, id)
    ensures FileStep(c, w, id).1 == FileStep(c, v, id).1
  {
    hide Said, Rehydrated, RowsOf, ChatOf;
    SameLookups(w, v, id);
    RehydratesOwn(c, w.tables.invoices, id, |w.tables.invoices|);
    RehydratesOwn(c, v.tables.invoices, id, |v.tables.invoices|);
    forall n: nat
      ensures Shown(Said(w.tables, ChatRow(id, System, FilingNote(n), "")), id) ==
              Shown(Said(v.tables, ChatRow(id, System, FilingNote(n), "")), id)
    {
      SaidApart(w.tables, ChatRow(id, System, FilingNote(n), ""), id);
      SaidApart(v.tables, ChatRow(id, System, FilingNote(n), ""), id);
    }
  }

  // ---------------------------------------------------------------- whole runs

  lemma {:induction false} RunPrefix(c: Config, steps: seq<Step>, step: Step, n: nat)
    requires n <= |steps|
    ensures Run(c, steps + [step], n) == Run(c, steps, n)
  {
    hide Next;
    if n > 0 {
      RunPrefix(c, steps, step, n - 1);
    }
  }

  /** A session ends up as if the steps of all other sessions had not taken place. */
  lemma {:induction false} RunsOfOneSession(c: Config, steps: seq<Step>, id: string, n: nat)
    requires n <= |steps|
    ensures var own := StepsOf(steps, id, n); ViewOf(Run(c, steps, n), id) == ViewOf(Run(c, own, |own|), id)
  {
    hide Next, ViewOf;
    if n > 0 {
      RunsOfOneSession(c, steps, id, n - 1);
      var own := StepsOf(steps, id, n - 1);
      var step := steps[n - 1];
      if Concerns(step, id) {
        RunPrefix(c, own, step, |own|);
        OwnStepsAgree(c, Run(c, steps, n - 1), Run(c, own, |own|), step, id);
      } else {
        OthersStepsPass(c, Run(c, steps, n - 1), step, id);
      }
    }
  }

  /**
   * Two runs that interleave the same steps of a session with any steps of other sessions leave it in the same state,
   * with the same documents and the same transcript, and the next step of the session has the same frames, status or
   * exception in both.
   */
  lemma {:induction false} SessionsAreApart(c: Config, s: seq<Step>, t: seq<Step>, id: string, step: Step)
    requires StepsOf(s, id, |s|) == StepsOf(t, id, |t|) && Concerns(step, id)
    ensures ViewOf(Run(c, s, |s|), id) == ViewOf(Run(c, t, |t|), id)
    ensures Next(c, Run(c, s, |s|), step).1 == Next(c, Run(c, t, |t|), step).1
  {
    hide Next, ViewOf, Run;
    RunsOfOneSession(c, s, id, |s|);
    RunsOfOneSession(c, t, id, |t|);
    OwnStepsAgree(c, Run(c, s, |s|), Run(c, t, |t|), step, id);
  }
}
