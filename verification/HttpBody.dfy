/** The body states of Crow's HTTP parser: chunked transfer coding and Content-Length (RFC 7230, section 4.1). */
module HttpBody {
  import opened Prelude

  /** Failed stands for any recorded errno. The header states are those of the trailer fields. */
  datatype State =
    | ChunkSizeStart | ChunkSize | ChunkParameters | ChunkSizeAlmostDone
    | ChunkData | ChunkDataAlmostDone | ChunkDataDone
    | HeaderFieldStart | FieldName | ValueDiscardWs | ValueDiscardWsAlmostDone | ValueDiscardLws
    | Value | FieldAlmostDone | ValueLws | HeadersAlmostDone
    | BodyIdentity | MessageDone
    | Failed

  /** The header state, as far as it decides what is accepted: how much of `content-length` the name has matched. */
  datatype Kind = Plain | Matching(n: nat) | LengthName | LengthDigits | LengthSpaces

  const MAX_HEADER_SIZE := 80 * 1024
  const UINT64_MAX := 0xFFFF_FFFF_FFFF_FFFF
  /** The largest content length to which another hexadecimal digit may be added. */
  const CHUNK_LIMIT := (UINT64_MAX - 16) / 16
  /** The same for a decimal digit. */
  const LENGTH_LIMIT := (UINT64_MAX - 10) / 10

  /** The parser between two bytes: `body` is all that was or will be handed to on_body so far. */
  datatype Config = Config(state: State, length: nat, nread: nat, body: string, completions: nat, kind: Kind,
                           lengthSeen: bool)

  const START := Config(ChunkSizeStart, 0, 0, "", 0, Plain, false)

  /** CROW_PARSING_HEADER: the states in which each byte counts towards the header size. */
  predicate ParsingHeader(s: State) {
    s !in {ChunkData, ChunkDataAlmostDone, ChunkDataDone, BodyIdentity, MessageDone, Failed}
  }

  /** The `unhex` table. It has initialisers for ASCII only, so the bytes from 128 on read as digit zero. */
  function Unhex(c: char): (v: int)
    ensures -1 <= v < 16
  {
    if '0' <= c <= '9' then c as int - '0' as int
    else if 'a' <= c <= 'f' then c as int - 'a' as int + 10
    else if 'A' <= c <= 'F' then c as int - 'A' as int + 10
    else if c as int >= 128 then 0
    else -1
  }

  function Fail(q: Config): Config { q.(state := Failed) }

  // ---------------------------------------------------------------- header fields

  /** The value that a Content-Length header ends with: the header state and the value so far. */
  datatype LengthState = First | Digits(value: nat) | Spaces(value: nat) | Invalid

  /** One character of the header value. */
  function LengthStep(s: LengthState, c: char): LengthState {
    match s
    case First => if IsDigit(c) then Digits(DigitValue(c)) else Invalid
    case Digits(v) =>
      if c == ' ' then Spaces(v)
      else if !IsDigit(c) || LENGTH_LIMIT < v then Invalid
      else Digits(v * 10 + DigitValue(c))
    case Spaces(v) => if c == ' ' then s else Invalid
    case Invalid => Invalid
  }

  /** The `tokens` table: the characters of a field name. */
  predicate IsToken(c: char) {
    'a' <= c <= 'z' || 'A' <= c <= 'Z' || '0' <= c <= '9' || c in "!#$%&'*+-.^_`|~"
  }

  /** What the table maps a character of a name to. */
  function Lower(c: char): char { if 'A' <= c <= 'Z' then (c as int + 32) as char else c }

  predicate IsHeaderChar(c: char) { c == '\r' || c == '\n' || c == '\t' || (c as int > 31 && c as int != 127) }

  const CONTENT_LENGTH := "content-length"

  /** One more character of a name, of which the kind tells how it started. */
  function NextKind(kind: Kind, c: char): Kind {
    match kind
    case Matching(n) =>
      if n >= |CONTENT_LENGTH| || Lower(c) != CONTENT_LENGTH[n] then Plain
      else if n + 1 == |CONTENT_LENGTH| then LengthName
      else Matching(n + 1)
    case _ => Plain
  }

  function FieldStart(q: Config, c: char): Config {
    if c == '\r' then q.(state := HeadersAlmostDone)
    else if c == '\n' then q.(state := HeadersAlmostDone, completions := q.completions + 1)
    else if !IsToken(c) then Fail(q)
    else q.(state := FieldName, kind := NextKind(Matching(0), c))
  }

  /** The first character of a value, or of a continuation line. */
  function ValueStart(q: Config, c: char): Config {
    match q.kind
    case LengthName =>
      if !IsDigit(c) || q.lengthSeen then Fail(q)
      else q.(state := Value, kind := LengthDigits, length := DigitValue(c), lengthSeen := true)
    case LengthSpaces => q.(state := Value)
    case _ => q.(state := Value, kind := Plain)
  }

  /** A character of a value that does not end it. */
  function ValueByte(q: Config, c: char): Config {
    if !IsHeaderChar(c) then Fail(q)
    else if q.kind == LengthDigits then
      match LengthStep(LengthState.Digits(q.length), c)
      case Digits(v) => q.(length := v)
      case Spaces(_) => q.(kind := LengthSpaces)
      case _ => Fail(q)
    else if q.kind == LengthSpaces then (if c == ' ' then q else Fail(q))
    else q
  }

  predicate IsBlank(c: char) { c == ' ' || c == '\t' }

  /** The states of a header field. */
  predicate InField(s: State) {
    s in {HeaderFieldStart, FieldName, ValueDiscardWs, ValueDiscardWsAlmostDone, ValueDiscardLws, Value,
          FieldAlmostDone, ValueLws}
  }

  function FieldTransition(q: Config, c: char): Config
    requires InField(q.state)
  {
    match q.state
    case HeaderFieldStart => FieldStart(q, c)
    case FieldName =>
      if IsToken(c) then q.(kind := NextKind(q.kind, c)) else if c == ':' then q.(state := ValueDiscardWs) else Fail(q)
    case ValueDiscardWs =>
      if IsBlank(c) then q
      else if c == '\r' then q.(state := ValueDiscardWsAlmostDone)
      else if c == '\n' then q.(state := ValueDiscardLws)
      else ValueStart(q, c)
    case ValueDiscardWsAlmostDone => if c != '\n' then Fail(q) else q.(state := ValueDiscardLws)
    case ValueDiscardLws => if IsBlank(c) then q.(state := ValueDiscardWs) else FieldStart(q, c)
    case Value =>
      if c == '\r' then q.(state := FieldAlmostDone)
      else if c == '\n' then q.(state := ValueLws)
      else ValueByte(q, c)
    case FieldAlmostDone => if c != '\n' then Fail(q) else q.(state := ValueLws)
    case ValueLws =>
      if IsBlank(c) then ValueStart(if q.kind == LengthDigits then q.(kind := LengthSpaces) else q, c)
      else FieldStart(q, c)
  }

  // ---------------------------------------------------------------- one byte

  function TakeByte(q: Config, c: char, last: State): Config
    requires q.length > 0
  {
    q.(body := q.body + [c], length := q.length - 1, state := if q.length == 1 then last else q.state)
  }

  /** The effect of one byte, once it has been counted. */
  function Transition(q: Config, c: char): Config
    requires Sound(q)
  {
    match q.state
    case ChunkSizeStart =>
      if Unhex(c) == -1 then Fail(q) else q.(length := Unhex(c), state := ChunkSize)
    case ChunkSize =>
      if c == '\r' then q.(state := ChunkSizeAlmostDone)
      else if Unhex(c) == -1 then (if c == ';' || c == ' ' then q.(state := ChunkParameters) else Fail(q))
      else if CHUNK_LIMIT < q.length then Fail(q)
      else q.(length := q.length * 16 + Unhex(c))
    case ChunkParameters => if c == '\r' then q.(state := ChunkSizeAlmostDone) else q
    case ChunkSizeAlmostDone =>
      if c != '\n' then Fail(q)
      else q.(nread := 0, state := if q.length == 0 then HeaderFieldStart else ChunkData)
    case ChunkData => TakeByte(q, c, ChunkDataAlmostDone)
    case ChunkDataAlmostDone => if c != '\r' then Fail(q) else q.(state := ChunkDataDone)
    case ChunkDataDone => if c != '\n' then Fail(q) else q.(nread := 0, state := ChunkSizeStart)
    case HeadersAlmostDone => if c != '\n' then Fail(q) else q.(completions := q.completions + 1)
    case BodyIdentity =>
      var q' := TakeByte(q, c, MessageDone);
      if q'.state == MessageDone then q'.(completions := q.completions + 1) else q'
    case MessageDone => q.(completions := q.completions + 1)
    case Failed => q
    case _ => FieldTransition(q, c)
  }

  /** The assertions of the body states, and that the length is never the all-ones sentinel. */
  predicate Sound(q: Config) { q.length < UINT64_MAX && (q.state in {ChunkData, BodyIdentity} ==> q.length > 0) }

  function Step(q: Config, c: char): (q': Config)
    requires Sound(q)
    ensures Sound(q')
  {
    if ParsingHeader(q.state) then
      if q.nread + 1 > MAX_HEADER_SIZE then Fail(q) else Transition(q.(nread := q.nread + 1), c)
    else Transition(q, c)
  }

  /** The parser after the bytes `t[i..j]`. */
  function Run(q: Config, t: string, i: nat, j: nat): (q': Config)
    requires i <= j <= |t| && Sound(q)
    ensures Sound(q')
    decreases j - i
  {
    if i == j then q else Step(Run(q, t, i, j - 1), t[j - 1])
  }

  lemma {:induction false} RunSplits(q: Config, t: string, i: nat, j: nat, k: nat)
    requires i <= j <= k <= |t| && Sound(q)
    ensures Run(q, t, i, k) == Run(Run(q, t, i, j), t, j, k)
    decreases k - j
  {
    hide Step;
    if j < k {
      RunSplits(q, t, i, j, k - 1);
    }
  }

  // ---------------------------------------------------------------- the parser object

  function Flatten(pieces: seq<string>): string {
    if pieces == [] then "" else Flatten(pieces[..|pieces| - 1]) + pieces[|pieces| - 1]
  }

  class Parser {
    var state: State
    var contentLength: nat
    var nread: nat
    /** The pieces handed to on_body, and the number of on_message_complete calls. */
    var pieces: seq<string>
    var completions: nat
    var kind: Kind
    var lengthSeen: bool

    /** Ready for a chunked body, as the end of the headers leaves it. */
    constructor Chunked()
      ensures Value() == START
    {
      state, contentLength, nread, pieces, completions, kind, lengthSeen := ChunkSizeStart, 0, 0, [], 0, Plain, false;
    }

    /** Ready for a body of `length` bytes. */
    constructor Identity(length: nat)
      requires 0 < length < UINT64_MAX
      ensures Value() == Config(BodyIdentity, length, 0, "", 0, Plain, true)
    {
      state, contentLength, nread, pieces, completions, kind, lengthSeen := BodyIdentity, length, 0, [], 0, Plain, true;
    }

    function Value(): Config
      reads this
    {
      Config(state, contentLength, nread, Flatten(pieces), completions, kind, lengthSeen)
    }

    method OnBody(at: string)
      modifies this`pieces
      ensures Flatten(pieces) == Flatten(old(pieces)) + at
    {
      pieces := pieces + [at];
      assert pieces[..|pieces| - 1] == old(pieces);
    }

    /** The value with the bytes from the mark to `p`, which are not yet handed over, counted as body. */
    function Marked(t: string, mark: Option<nat>, p: nat): Config
      requires p <= |t| && (mark.Some? ==> mark.value <= p)
      reads this
    {
      if mark.Some? then Value().(body := Flatten(pieces) + t[mark.value..p]) else Value()
    }

    predicate MarkFits(mark: Option<nat>)
      reads this
    {
      mark.Some? ==> state in {ChunkData, ChunkDataAlmostDone, BodyIdentity}
    }

    /** The states that read body bytes, as many as there are: returns the position after them. */
    method TakeBytes(t: string, p: nat, mark0: Option<nat>) returns (p': nat, mark: Option<nat>)
      requires p < |t| && state in {ChunkData, BodyIdentity} && Sound(Value())
      requires mark0.Some? ==> mark0.value <= p
      modifies this
      ensures p < p' <= |t| && (mark.Some? ==> mark.value <= p')
      ensures Marked(t, mark, p') == Run(old(Marked(t, mark0, p)), t, p, p')
      ensures MarkFits(mark) && state != Failed
    {
      hide Run, Step;
      var toRead := if contentLength < |t| - p then contentLength else |t| - p;
      mark := if mark0.None? then Some(p) else mark0;
      p' := p + toRead;
      ghost var q := Marked(t, mark0, p);
      assert q.body + t[p..p'] == Flatten(pieces) + t[mark.value..p'] by {
        if mark0.Some? {
          Concat3(Flatten(pieces), t[mark0.value..p], t[p..p']);
          Join(t, mark0.value, p, p');
        }
      }
      BulkRun(q, t, p, toRead);
      contentLength := contentLength - toRead;
      if contentLength == 0 {
        if state == ChunkData {
          state := ChunkDataAlmostDone;
        } else {
          state := MessageDone;
          OnBody(t[mark.value..p']);
          mark := None;
          completions := completions + 1;
        }
      }
    }

    /** Counts a byte in the header states; false if that exceeds the limit. */
    method CountHeaderSize() returns (ok: bool)
      modifies this`nread, this`state
      ensures ok <==> !(ParsingHeader(old(state)) && old(nread) + 1 > MAX_HEADER_SIZE)
      ensures state == if ok then old(state) else Failed
      ensures ok ==> nread == if ParsingHeader(state) then old(nread) + 1 else old(nread)
    {
      ok := true;
      if ParsingHeader(state) {
        nread := nread + 1;
        if nread > MAX_HEADER_SIZE {
          state, ok := Failed, false;
        }
      }
    }

    /** The chunk size states. The 64-bit sum is taken modulo 2^64, as in Crow. */
    method ExamineSize(ch: char)
      requires state in {ChunkSizeStart, ChunkSize} && Sound(Value())
      modifies this
      ensures Value() == Transition(old(Value()), ch) ||
              (state == Failed && Transition(old(Value()), ch).state == Failed)
    {
      if state == ChunkSizeStart {
        if Unhex(ch) == -1 {
          state := Failed;
        } else {
          contentLength, state := Unhex(ch), ChunkSize;
        }
      } else if ch == '\r' {
        state := ChunkSizeAlmostDone;
      } else if Unhex(ch) == -1 {
        state := if ch == ';' || ch == ' ' then ChunkParameters else Failed;
      } else {
        var t := (contentLength * 16 + Unhex(ch)) % (UINT64_MAX + 1);
        if CHUNK_LIMIT < contentLength {
          state := Failed;
        } else {
          contentLength := t;
        }
      }
    }

    /** The states that neither read a chunk size nor body bytes. */
    method ExamineRest(ch: char, t: string, p: nat, mark0: Option<nat>) returns (mark: Option<nat>)
      requires p < |t| && ch == t[p] && MarkFits(mark0) && (mark0.Some? ==> mark0.value <= p)
      requires state !in {ChunkSizeStart, ChunkSize, ChunkData, BodyIdentity, Failed} && !InField(state)
      requires Sound(Value())
      modifies this
      ensures MarkFits(mark) && (mark.Some? ==> mark.value <= p + 1)
      ensures var q := Transition(old(Marked(t, mark0, p)), ch);
              if q.state == Failed then state == Failed else Marked(t, mark, p + 1) == q
    {
      mark := mark0;
      match state {
        case ChunkParameters =>
          if ch == '\r' {
            state := ChunkSizeAlmostDone;
          }
        case ChunkSizeAlmostDone =>
          if ch != '\n' {
            state := Failed;
          } else {
            nread := 0;
            state := if contentLength == 0 then HeaderFieldStart else ChunkData;
          }
        case ChunkDataAlmostDone =>
          if ch != '\r' {
            state, mark := Failed, None;
          } else {
            state := ChunkDataDone;
            if mark.Some? {
              OnBody(t[mark.value..p]);
              mark := None;
            }
          }
        case ChunkDataDone =>
          if ch != '\n' {
            state := Failed;
          } else {
            nread, state := 0, ChunkSizeStart;
          }
        case HeadersAlmostDone =>
          if ch != '\n' {
            state := Failed;
          } else {
            completions := completions + 1;
          }
        case MessageDone => completions := completions + 1;
      }
    }

    /** `s_header_field_start`. */
    method ExamineFieldStart(ch: char)
      modifies this
      ensures Value() == FieldStart(old(Value()), ch)
    {
      if ch == '\r' {
        state := HeadersAlmostDone;
      } else if ch == '\n' {
        state, completions := HeadersAlmostDone, completions + 1;
      } else if !IsToken(ch) {
        state := Failed;
      } else {
        state, kind := FieldName, if Lower(ch) == 'c' then Matching(1) else Plain;
      }
    }

    /** `s_header_value_start`. */
    method ExamineValueStart(ch: char)
      modifies this
      ensures Value() == ValueStart(old(Value()), ch)
    {
      match kind {
        case LengthName =>
          if !IsDigit(ch) || lengthSeen {
            state := Failed;
          } else {
            state, kind, contentLength, lengthSeen := State.Value, LengthDigits, DigitValue(ch), true;
          }
        case LengthSpaces => state := State.Value;
        case _ => state, kind := State.Value, Plain;
      }
    }

    /** The switch over the header state in `s_header_value`. */
    method ExamineValueByte(ch: char)
      modifies this
      ensures Value() == ValueByte(old(Value()), ch)
    {
      if !IsHeaderChar(ch) {
        state := Failed;
      } else if kind == LengthDigits {
        var next := NextLength(LengthState.Digits(contentLength), ch);
        match next {
          case Digits(v) => contentLength := v;
          case Spaces(_) => kind := LengthSpaces;
          case _ => state := Failed;
        }
      } else if kind == LengthSpaces && ch != ' ' {
        state := Failed;
      }
    }

    /** The states of a trailer field. A name or value is read byte by byte. */
    method ExamineField(ch: char)
      requires InField(state)
      modifies this
      ensures Value() == FieldTransition(old(Value()), ch)
    {
      hide FieldStart, ValueStart, ValueByte;
      match state {
        case HeaderFieldStart => ExamineFieldStart(ch);
        case FieldName =>
          if IsToken(ch) {
            kind := NextKind(kind, ch);
          } else {
            state := if ch == ':' then ValueDiscardWs else Failed;
          }
        case ValueDiscardWs =>
          if ch == '\r' {
            state := ValueDiscardWsAlmostDone;
          } else if ch == '\n' {
            state := ValueDiscardLws;
          } else if !IsBlank(ch) {
            ExamineValueStart(ch);
          }
        case ValueDiscardWsAlmostDone => state := if ch != '\n' then Failed else ValueDiscardLws;
        case ValueDiscardLws =>
          if IsBlank(ch) {
            state := ValueDiscardWs;
          } else {
            ExamineFieldStart(ch);
          }
        case Value =>
          if ch == '\r' {
            state := FieldAlmostDone;
          } else if ch == '\n' {
            state := ValueLws;
          } else {
            ExamineValueByte(ch);
          }
        case FieldAlmostDone => state := if ch != '\n' then Failed else ValueLws;
        case ValueLws =>
          if IsBlank(ch) {
            if kind == LengthDigits {
              kind := LengthSpaces;
            }
            ExamineValueStart(ch);
          } else {
            ExamineFieldStart(ch);
          }
      }
    }

    /** One turn of the loop over the bytes. */
    method Turn(t: string, p: nat, mark0: Option<nat>) returns (p': nat, mark: Option<nat>)
      requires p < |t| && state != Failed && MarkFits(mark0) && (mark0.Some? ==> mark0.value <= p)
      requires Sound(Value())
      modifies this
      ensures p < p' <= |t| && MarkFits(mark) && (mark.Some? ==> mark.value <= p')
      ensures var q := Run(old(Marked(t, mark0, p)), t, p, p');
              if q.state == Failed then state == Failed else state != Failed && Marked(t, mark, p') == q
    {
      hide Transition, TakeByte, FieldTransition;
      ghost var q := Marked(t, mark0, p);
      OneStep(q, t, p);
      p', mark := p + 1, mark0;
      var ok := CountHeaderSize();
      if !ok {
        return p', None;
      }
      if state in {ChunkData, BodyIdentity} {
        p', mark := TakeBytes(t, p, mark0);
      } else if state in {ChunkSizeStart, ChunkSize} {
        ExamineSize(t[p]);
      } else if InField(state) {
        FieldStep(Value(), t[p]);
        ExamineField(t[p]);
      } else {
        mark := ExamineRest(t[p], t, p, mark0);
      }
    }

    /** `http_parser_execute`: feeds one buffer. An empty buffer inside a message is an error. */
    method Execute(t: string)
      requires Sound(Value())
      modifies this
      ensures old(state) == Failed || t == "" ==> state == Failed
      ensures var q := Run(old(Value()), t, 0, |t|);
              old(state) != Failed && t != "" ==>
                if q.state == Failed then state == Failed else Value() == q
    {
      if state == Failed {
        return;
      }
      if t == "" {
        state := Failed;
        return;
      }
      ghost var q := Value();
      var p, mark: Option<nat> := 0, None;
      while p < |t|
        invariant p <= |t| && state != Failed && MarkFits(mark) && (mark.Some? ==> mark.value <= p)
        invariant Marked(t, mark, p) == Run(q, t, 0, p)
      {
        ghost var p0, q0 := p, Marked(t, mark, p);
        p, mark := Turn(t, p, mark);
        RunSplits(q, t, 0, p0, p);
        if state == Failed {
          RunSplits(q, t, 0, p, |t|);
          FailedStays(Run(q, t, 0, p), t, p, |t|);
          return;
        }
      }
      if mark.Some? {
        OnBody(t[mark.value..p]);
      }
    }
  }

  lemma {:induction false} Join(t: string, i: nat, j: nat, k: nat)
    requires i <= j <= k <= |t|
    ensures t[i..j] + t[j..k] == t[i..k]
  {
  }

  lemma {:induction false} FieldStep(q: Config, c: char)
    requires InField(q.state) && Sound(q)
    ensures Transition(q, c) == FieldTransition(q, c)
  {
    hide FieldTransition;
  }

  /** Reading `n` body bytes one by one. */
  lemma {:induction false} BulkRun(q: Config, t: string, p: nat, n: nat)
    requires q.state in {ChunkData, BodyIdentity} && 0 < n <= q.length < UINT64_MAX && p + n <= |t|
    ensures var done := n == q.length;
            Run(q, t, p, p + n) ==
            q.(body := q.body + t[p..p + n], length := q.length - n,
               state := if !done then q.state else if q.state == ChunkData then ChunkDataAlmostDone else MessageDone,
               completions := if done && q.state == BodyIdentity then q.completions + 1 else q.completions)
  {
    hide Step;
    if n == 1 {
      assert t[p..p + 1] == [t[p]];
      assert Run(q, t, p, p) == q;
      BodyStep(q, t[p]);
    } else {
      BulkRun(q, t, p, n - 1);
      BodyStep(Run(q, t, p, p + n - 1), t[p + n - 1]);
      assert q.body + t[p..p + n - 1] + [t[p + n - 1]] == q.body + t[p..p + n];
    }
  }

  lemma {:induction false} BodyStep(q: Config, c: char)
    requires q.state in {ChunkData, BodyIdentity} && 0 < q.length < UINT64_MAX
    ensures var done := q.length == 1;
            Step(q, c) ==
            q.(body := q.body + [c], length := q.length - 1,
               state := if !done then q.state else if q.state == ChunkData then ChunkDataAlmostDone else MessageDone,
               completions := if done && q.state == BodyIdentity then q.completions + 1 else q.completions)
  {
  }

  lemma {:induction false} NoBytes(q: Config, t: string, p: nat)
    requires p <= |t| && Sound(q)
    ensures Run(q, t, p, p) == q
  {
  }

  lemma {:induction false} OneStep(q: Config, t: string, p: nat)
    requires p < |t| && Sound(q)
    ensures Run(q, t, p, p + 1) == Step(q, t[p])
  {
    assert Run(q, t, p, p) == q;
  }

  lemma {:induction false} FailedStays(q: Config, t: string, i: nat, j: nat)
    requires i <= j <= |t| && Sound(q) && q.state == Failed
    ensures Run(q, t, i, j) == q
    decreases j - i
  {
    hide Step;
    if i < j {
      FailedStays(q, t, i, j - 1);
      FailedStep(q, t[j - 1]);
    }
  }

  // ---------------------------------------------------------------- any split into buffers

  lemma {:induction false} RunIsLocal(q: Config, t: string, i: nat, j: nat, u: string, k: nat)
    requires i <= j <= |t| && k + (j - i) <= |u| && Sound(q) && t[i..j] == u[k..k + (j - i)]
    ensures Run(q, t, i, j) == Run(q, u, k, k + (j - i))
    decreases j - i
  {
    hide Step;
    if i < j {
      assert t[i..j - 1] == t[i..j][..j - 1 - i] && u[k..k + (j - 1 - i)] == u[k..k + (j - i)][..j - 1 - i];
      RunIsLocal(q, t, i, j - 1, u, k);
      assert t[j - 1] == t[i..j][j - 1 - i] && u[k + (j - 1 - i)] == u[k..k + (j - i)][j - 1 - i];
    }
  }

  function RunText(q: Config, t: string): (q': Config)
    requires Sound(q)
    ensures Sound(q')
  {
    Run(q, t, 0, |t|)
  }

  lemma {:induction false} RunAppend(q: Config, a: string, b: string)
    requires Sound(q)
    ensures RunText(q, a + b) == RunText(RunText(q, a), b)
  {
    hide Run;
    var t := a + b;
    RunSplits(q, t, 0, |a|, |t|);
    assert t[0..|a|] == a[0..|a|] && t[|a|..|t|] == b[0..|b|];
    RunIsLocal(q, a, 0, |a|, t, 0);
    RunIsLocal(RunText(q, a), b, 0, |b|, t, |a|);
  }

  lemma {:induction false} EmptyRun(q: Config)
    requires Sound(q)
    ensures RunText(q, "") == q
  {
  }

  lemma {:induction false} FlattenSnoc(pieces: seq<string>, piece: string)
    ensures Flatten(pieces + [piece]) == Flatten(pieces) + piece
  {
    assert (pieces + [piece])[..|pieces|] == pieces;
  }

  /** Feeds the buffers that arrive one after the other: the outcome depends on their concatenation only. */
  method FeedAll(parser: Parser, buffers: seq<string>)
    requires Sound(parser.Value()) && parser.state != Failed && forall b :: b in buffers ==> b != ""
    modifies parser
    ensures var q := RunText(old(parser.Value()), Flatten(buffers));
            if q.state == Failed then parser.state == Failed else parser.Value() == q
  {
    hide Run;
    ghost var q0 := parser.Value();
    assert RunText(q0, "") == q0 by { EmptyRun(q0); }
    for n := 0 to |buffers|
      invariant var q := RunText(q0, Flatten(buffers[..n]));
                if q.state == Failed then parser.state == Failed else parser.Value() == q
    {
      var b := buffers[n];
      assert b in buffers;
      ghost var q := RunText(q0, Flatten(buffers[..n]));
      assert buffers[..n + 1] == buffers[..n] + [b];
      FlattenSnoc(buffers[..n], b);
      RunAppend(q0, Flatten(buffers[..n]), b);
      if parser.state == Failed {
        FailedStays(q, b, 0, |b|);
      } else {
        parser.Execute(b);
      }
    }
    assert buffers[..|buffers|] == buffers;
  }

  // ---------------------------------------------------------------- numbers

  /** The number a run of chunk-size characters denotes, as the table reads them. */
  function SizeValue(s: string): nat
    requires forall c :: c in s ==> Unhex(c) != -1
  {
    if s == "" then 0 else 16 * SizeValue(s[..|s| - 1]) + Unhex(s[|s| - 1])
  }

  /** The largest chunk size that is ever accepted. */
  const MAX_CHUNK := CHUNK_LIMIT * 16 + 15

  /**
   * A chunk size of any digits is accepted exactly up to MAX_CHUNK, and then the stored length is its exact value;
   * that is below 2^64 - 1.
   */
  lemma {:induction false} SizeRun(q: Config, t: string, i: nat, s: string)
    requires Sound(q) && q.state == ChunkSizeStart && s != "" && OccursAt(t, i, s)
    requires (forall c :: c in s ==> Unhex(c) != -1) && q.nread + |s| <= MAX_HEADER_SIZE
    ensures var q' := Run(q, t, i, i + |s|);
            if SizeValue(s) <= MAX_CHUNK then
              q' == q.(state := ChunkSize, length := SizeValue(s), nread := q.nread + |s|) && SizeValue(s) < UINT64_MAX
            else q'.state == Failed
    decreases |s|
  {
    hide Step;
    var n := |s| - 1;
    assert t[i..i + |s|][n] == t[i + n];
    assert s[n] in s;
    if n == 0 {
      OneStep(q, t, i);
      OneDigit(s);
      SizeStep(q, s[0], 0);
    } else {
      assert t[i..i + n] == t[i..i + |s|][..n];
      assert forall c :: c in s[..n] ==> c in s;
      assert OccursAt(t, i, s[..n]);
      SizeRun(q, t, i, s[..n]);
      var q' := Run(q, t, i, i + n);
      if SizeValue(s[..n]) <= MAX_CHUNK {
        SizeStep(q', s[n], SizeValue(s[..n]));
      } else {
        FailedStep(q', s[n]);
      }
    }
  }

  lemma {:induction false} OneDigit(s: string)
    requires |s| == 1 && Unhex(s[0]) != -1
    ensures SizeValue(s) == Unhex(s[0])
  {
    assert s[..0] == "";
  }

  lemma {:induction false} SizeStep(q: Config, c: char, v: nat)
    requires Sound(q) && Unhex(c) != -1 && q.nread < MAX_HEADER_SIZE
    requires (q.state == ChunkSizeStart && v == 0) || (q.state == ChunkSize && q.length == v)
    ensures var q' := Step(q, c);
            if 16 * v + Unhex(c) <= MAX_CHUNK then
              q' == q.(state := ChunkSize, length := 16 * v + Unhex(c), nread := q.nread + 1) &&
                16 * v + Unhex(c) < UINT64_MAX
            else q'.state == Failed
  {
    assert CHUNK_LIMIT == 0xFFF_FFFF_FFFF_FFFE;
  }

  lemma {:induction false} FailedStep(q: Config, c: char)
    requires Sound(q) && q.state == Failed
    ensures Step(q, c) == q
  {
  }

  /** The digits in the order of their values, in small and in capital letters. */
  const HEX_DIGITS := "0123456789abcdef"
  const HEX_CAPITALS := "0123456789ABCDEF"

  predicate IsHexDigit(c: char) { c in HEX_DIGITS || c in HEX_CAPITALS }

  /**
   * The table gives each of the sixteen digits, small or capital, its value, and no value to other ASCII characters;
   * the bytes from 128 on count as a digit zero.
   */
  lemma {:induction false} UnhexIsHex(c: char)
    ensures forall v :: 0 <= v < 16 && (c == HEX_DIGITS[v] || c == HEX_CAPITALS[v]) ==> Unhex(c) == v
    ensures c as int < 128 ==> (Unhex(c) != -1 <==> IsHexDigit(c))
    ensures c as int >= 128 ==> Unhex(c) == 0 && !IsHexDigit(c)
  {
    if 0 <= Unhex(c) < 16 && c as int < 128 {
      assert c == HEX_DIGITS[Unhex(c)] || c == HEX_CAPITALS[Unhex(c)];
    }
  }

  /** The states h_content_length, h_content_length_num and h_content_length_ws; a second header is refused. */
  method ContentLength(value: string, seenBefore: bool) returns (r: Option<nat>)
    ensures r == LengthOf(value, seenBefore)
  {
    if seenBefore {
      return None;
    }
    hide LengthStep;
    var state := First;
    for i := 0 to |value|
      invariant state == LengthRun(value, i)
    {
      state := NextLength(state, value[i]);
    }
    r := if state.Digits? || state.Spaces? then Some(state.value) else None;
  }

  /** One turn of the header value loop. The 64-bit sum is taken modulo 2^64, as in Crow. */
  method NextLength(state: LengthState, c: char) returns (next: LengthState)
    ensures next == LengthStep(state, c)
  {
    next := Invalid;
    match state {
      case First =>
        if IsDigit(c) {
          next := Digits(DigitValue(c));
        }
      case Digits(v) =>
        if c == ' ' {
          next := Spaces(v);
        } else if IsDigit(c) {
          var t := (v * 10 + DigitValue(c)) % (UINT64_MAX + 1);
          if v <= LENGTH_LIMIT {
            next := Digits(t);
          }
        }
      case Spaces(v) =>
        if c == ' ' {
          next := state;
        }
      case Invalid =>
    }
  }

  function LengthRun(value: string, i: nat): LengthState
    requires i <= |value|
  {
    if i == 0 then First else LengthStep(LengthRun(value, i - 1), value[i - 1])
  }

  function LengthOf(value: string, seenBefore: bool): Option<nat> {
    var s := LengthRun(value, |value|);
    if !seenBefore && (s.Digits? || s.Spaces?) then Some(s.value) else None
  }

  const MAX_LENGTH := LENGTH_LIMIT * 10 + 9

  /** While digits are read, the value is that of the digits, unless it exceeded MAX_LENGTH. */
  lemma {:induction false} LengthOfDigits(value: string, i: nat)
    requires 0 < i <= |value| && AllDigits(value[..i])
    ensures LengthRun(value, i) == if Decimal(value[..i]) <= MAX_LENGTH then Digits(Decimal(value[..i])) else Invalid
  {
    assert value[..i][..i - 1] == value[..i - 1] && value[..i][i - 1] == value[i - 1];
    assert value[i - 1] in value[..i];
    if i > 1 {
      assert forall c :: c in value[..i - 1] ==> c in value[..i];
      LengthOfDigits(value, i - 1);
    } else {
      assert value[..0] == "" && LengthRun(value, 0) == First;
    }
  }

  /** The number of digits at the head of a header value. */
  function LeadDigits(value: string): (k: nat)
    ensures k <= |value| && AllDigits(value[..k]) && (k < |value| ==> !IsDigit(value[k]))
  {
    if value != "" && IsDigit(value[0]) then
      assert forall c :: c in value[..1 + LeadDigits(value[1..])] ==>
          c == value[0] || c in value[1..][..LeadDigits(value[1..])];
      1 + LeadDigits(value[1..])
    else 0
  }

  predicate SpacesFrom(value: string, k: nat, i: nat)
    requires k <= i <= |value|
  {
    forall j :: k <= j < i ==> value[j] == ' '
  }

  lemma {:induction false} LengthAfterDigits(value: string, k: nat, i: nat)
    requires k == LeadDigits(value) < i <= |value|
    ensures LengthRun(value, i) == if 0 < k && Decimal(value[..k]) <= MAX_LENGTH && SpacesFrom(value, k, i)
                                   then Spaces(Decimal(value[..k])) else Invalid
  {
    if i == k + 1 {
      if k > 0 {
        LengthOfDigits(value, k);
      }
    } else {
      LengthAfterDigits(value, k, i - 1);
    }
  }

  /** A Content-Length is accepted exactly when it is digits and then spaces, up to MAX_LENGTH, with its exact value. */
  lemma {:induction false} ContentLengthIsExact(value: string)
    ensures var k := LeadDigits(value);
            LengthOf(value, false) == if 0 < k && SpacesFrom(value, k, |value|) && Decimal(value[..k]) <= MAX_LENGTH
                                      then Some(Decimal(value[..k])) else None
    ensures MAX_LENGTH < UINT64_MAX
  {
    assert LENGTH_LIMIT == 1844674407370955160;
    var k := LeadDigits(value);
    if k < |value| {
      LengthAfterDigits(value, k, |value|);
    } else if k > 0 {
      LengthOfDigits(value, k);
    }
  }

  // ---------------------------------------------------------------- a whole chunked body

  /** A chunk: its size digits, its extension text and its data. */
  datatype Chunk = Chunk(size: string, extension: string, data: string)

  predicate IsExtension(e: string) { e == "" || ((e[0] == ';' || e[0] == ' ') && '\r' !in e) }

  /** The size line in ASCII hexadecimal notation, within the header size limit. */
  predicate IsSizeLine(size: string, extension: string) {
    && size != "" && (forall c :: c in size ==> IsHexDigit(c)) && IsExtension(extension)
    && |size| + |extension| + 2 <= MAX_HEADER_SIZE
  }

  predicate IsChunk(c: Chunk) {
    IsSizeLine(c.size, c.extension) && SizeValue(c.size) == |c.data| && 0 < |c.data| <= MAX_CHUNK
  }

  function SizeLine(size: string, extension: string): string { size + (extension + "\r\n") }

  function ChunkText(c: Chunk): string { SizeLine(c.size, c.extension) + (c.data + "\r\n") }

  function ChunksText(cs: seq<Chunk>): string {
    if cs == [] then "" else ChunkText(cs[0]) + ChunksText(cs[1..])
  }

  function ChunksData(cs: seq<Chunk>): string {
    if cs == [] then "" else cs[0].data + ChunksData(cs[1..])
  }

  /** A trailer field; white space around the value counts as part of it. */
  datatype TrailerField = TrailerField(name: string, value: string)

  function LowerText(s: string): string { seq(|s|, i requires 0 <= i < |s| => Lower(s[i])) }

  /** A field that does not matter for the framing of the message, as section 4.1.2 of RFC 7230 asks. */
  predicate IsTrailerField(f: TrailerField) {
    && f.name != "" && (forall c :: c in f.name ==> IsToken(c)) && LowerText(f.name) != CONTENT_LENGTH
    && forall c :: c in f.value ==> IsHeaderChar(c) && c != '\r' && c != '\n'
  }

  function FieldText(f: TrailerField): string { f.name + (":" + (f.value + "\r\n")) }

  function FieldsText(fs: seq<TrailerField>): string {
    if fs == [] then "" else FieldText(fs[0]) + FieldsText(fs[1..])
  }

  function BodyText(cs: seq<Chunk>, lastSize: string, lastExtension: string, trailer: seq<TrailerField>): string {
    ChunksText(cs) + (SizeLine(lastSize, lastExtension) + (FieldsText(trailer) + "\r\n"))
  }

  /** Chunks, a last chunk and trailer fields that fit the header size limit. */
  predicate IsBody(cs: seq<Chunk>, lastSize: string, lastExtension: string, trailer: seq<TrailerField>) {
    && (forall c :: c in cs ==> IsChunk(c)) && IsSizeLine(lastSize, lastExtension) && SizeValue(lastSize) == 0
    && (forall f :: f in trailer ==> IsTrailerField(f)) && |FieldsText(trailer)| + 2 <= MAX_HEADER_SIZE
  }

  lemma {:induction false} ParametersRun(q: Config, t: string, i: nat, e: string)
    requires Sound(q) && q.state == ChunkParameters && OccursAt(t, i, e) && '\r' !in e
    requires q.nread + |e| <= MAX_HEADER_SIZE
    ensures Run(q, t, i, i + |e|) == q.(nread := q.nread + |e|)
    decreases |e|
  {
    hide Step;
    if e != "" {
      var n := |e| - 1;
      assert t[i..i + |e|][n] == t[i + n] && e[n] in e;
      assert t[i..i + n] == t[i..i + |e|][..n];
      assert forall c :: c in e[..n] ==> c in e;
      ParametersRun(q, t, i, e[..n]);
      ParameterStep(q.(nread := q.nread + n), e[n]);
    }
  }

  lemma {:induction false} ParameterStep(q: Config, c: char)
    requires Sound(q) && q.state == ChunkParameters && c != '\r' && q.nread < MAX_HEADER_SIZE
    ensures Step(q, c) == q.(nread := q.nread + 1)
  {
  }

  lemma {:induction false} ExtensionRun(q: Config, t: string, i: nat, e: string)
    requires Sound(q) && q.state == ChunkSize && OccursAt(t, i, e) && IsExtension(e) && q.nread + |e| <= MAX_HEADER_SIZE
    ensures Run(q, t, i, i + |e|) == q.(nread := q.nread + |e|, state := if e == "" then ChunkSize else ChunkParameters)
  {
    hide Step, Run;
    NoBytes(q, t, i);
    if e != "" {
      assert t[i..i + |e|][0] == t[i];
      OneStep(q, t, i);
      var q' := q.(state := ChunkParameters, nread := q.nread + 1);
      assert Step(q, t[i]) == q' by { ExtensionStep(q, t[i]); }
      assert forall c :: c in e[1..] ==> c in e;
      assert t[i + 1..i + 1 + |e[1..]|] == t[i..i + |e|][1..];
      ParametersRun(q', t, i + 1, e[1..]);
      RunSplits(q, t, i, i + 1, i + |e|);
    }
  }

  lemma {:induction false} ExtensionStep(q: Config, c: char)
    requires Sound(q) && q.state == ChunkSize && (c == ';' || c == ' ') && q.nread < MAX_HEADER_SIZE
    ensures Step(q, c) == q.(state := ChunkParameters, nread := q.nread + 1)
  {
  }

  lemma {:induction false} TwoSteps(q: Config, t: string, i: nat, pair: string)
    requires Sound(q) && |pair| == 2 && OccursAt(t, i, pair)
    ensures Run(q, t, i, i + 2) == Step(Step(q, pair[0]), pair[1])
    ensures Run(q, t, i, i + 1) == Step(q, pair[0])
  {
    hide Step;
    assert t[i..i + 2][0] == t[i] && t[i..i + 2][1] == t[i + 1];
    assert Run(q, t, i, i) == q && Run(q, t, i, i + 1) == Step(Run(q, t, i, i), t[i]);
  }

  /** A size line leads to the data, or past the last chunk. */
  lemma {:induction false} SizeLineRun(q: Config, t: string, i: nat, size: string, e: string)
    requires Sound(q) && q.state == ChunkSizeStart && q.nread == 0
    requires IsSizeLine(size, e) && SizeValue(size) <= MAX_CHUNK && OccursAt(t, i, SizeLine(size, e))
    ensures Run(q, t, i, i + |SizeLine(size, e)|) ==
            q.(length := SizeValue(size), state := if SizeValue(size) == 0 then HeaderFieldStart else ChunkData)
  {
    hide Step, Run, SizeValue;
    OccursAtSplit(t, i, size, e + "\r\n");
    var j := i + |size|;
    OccursAtSplit(t, j, e, "\r\n");
    var k := j + |e|;
    SizeRun(q, t, i, size);
    var q1 := q.(state := ChunkSize, length := SizeValue(size), nread := |size|);
    ExtensionRun(q1, t, j, e);
    var q2 := q1.(nread := |size| + |e|, state := if e == "" then ChunkSize else ChunkParameters);
    TwoSteps(q2, t, k, "\r\n");
    LineEndSteps(q2);
    RunSplits(q, t, i, j, k);
    RunSplits(q, t, i, k, k + 2);
  }

  lemma {:induction false} LineEndSteps(q: Config)
    requires Sound(q) && q.state in {ChunkSize, ChunkParameters} && q.nread + 2 <= MAX_HEADER_SIZE
    ensures Step(Step(q, '\r'), '\n') == q.(nread := 0, state := if q.length == 0 then HeaderFieldStart else ChunkData)
  {
  }

  /** A whole chunk delivers its data and leads back to the start of the next size line. */
  lemma {:induction false} ChunkRun(q: Config, t: string, i: nat, c: Chunk)
    requires Sound(q) && q.state == ChunkSizeStart && q.nread == 0 && IsChunk(c) && OccursAt(t, i, ChunkText(c))
    ensures Run(q, t, i, i + |ChunkText(c)|) == q.(length := 0, body := q.body + c.data)
  {
    hide Run, SizeValue, IsSizeLine;
    var line := SizeLine(c.size, c.extension);
    OccursAtSplit(t, i, line, c.data + "\r\n");
    var j := i + |line|;
    OccursAtSplit(t, j, c.data, "\r\n");
    var k := j + |c.data|;
    SizeLineRun(q, t, i, c.size, c.extension);
    var q1 := q.(length := |c.data|, state := ChunkData);
    BulkRun(q1, t, j, |c.data|);
    var q2 := q1.(length := 0, state := ChunkDataAlmostDone, body := q.body + c.data);
    TwoSteps(q2, t, k, "\r\n");
    RunSplits(q, t, i, j, k);
    RunSplits(q, t, i, k, k + 2);
  }

  lemma {:induction false} ChunksRun(q: Config, t: string, i: nat, cs: seq<Chunk>)
    requires Sound(q) && q.state == ChunkSizeStart && q.nread == 0 && (forall c :: c in cs ==> IsChunk(c))
    requires OccursAt(t, i, ChunksText(cs))
    ensures var q' := Run(q, t, i, i + |ChunksText(cs)|);
            q' == q.(length := q'.length, body := q.body + ChunksData(cs))
    decreases |cs|
  {
    hide Run, Step, IsChunk, ChunkText;
    if cs == [] {
      NoBytes(q, t, i);
      assert q.body + "" == q.body;
    } else {
      var text, rest := ChunkText(cs[0]), ChunksText(cs[1..]);
      OccursAtSplit(t, i, text, rest);
      assert cs[0] in cs;
      ChunkRun(q, t, i, cs[0]);
      var q1 := q.(length := 0, body := q.body + cs[0].data);
      ChunksRun(q1, t, i + |text|, cs[1..]);
      RunSplits(q, t, i, i + |text|, i + |text| + |rest|);
      Concat3(q.body, cs[0].data, ChunksData(cs[1..]));
    }
  }

  // ---------------------------------------------------------------- trailer fields

  /** The states in which a field name, or the end of the trailer, can start. */
  predicate AtField(s: State) { s in {HeaderFieldStart, ValueDiscardLws, ValueLws} }

  /** The kind after a whole name. */
  function KindOf(name: string): Kind {
    if |name| <= |CONTENT_LENGTH| && LowerText(name) == CONTENT_LENGTH[..|name|] then
      if |name| == |CONTENT_LENGTH| then LengthName else Matching(|name|)
    else Plain
  }

  lemma {:induction false} KindNext(name: string, c: char)
    ensures NextKind(KindOf(name), c) == KindOf(name + [c])
  {
    hide Lower;
    assert LowerText(name + [c]) == LowerText(name) + [Lower(c)];
    if |name| < |CONTENT_LENGTH| {
      PrefixNext(CONTENT_LENGTH, LowerText(name), Lower(c));
    }
  }

  lemma {:induction false} PrefixNext(target: string, s: string, c: char)
    requires |s| < |target|
    ensures s + [c] == target[..|s| + 1] <==> s == target[..|s|] && c == target[|s|]
  {
    assert target[..|s| + 1] == target[..|s|] + [target[|s|]];
  }

  lemma {:induction false} FirstNameStep(q: Config, c: char)
    requires Sound(q) && AtField(q.state) && IsToken(c) && q.nread < MAX_HEADER_SIZE
    ensures Step(q, c) == q.(state := FieldName, kind := NextKind(Matching(0), c), nread := q.nread + 1)
  {
    hide NextKind;
  }

  lemma {:induction false} NameStep(q: Config, c: char)
    requires Sound(q) && q.state == FieldName && IsToken(c) && q.nread < MAX_HEADER_SIZE
    ensures Step(q, c) == q.(kind := NextKind(q.kind, c), nread := q.nread + 1)
  {
    hide NextKind;
  }

  lemma {:induction false} NameRun(q: Config, t: string, i: nat, name: string)
    requires Sound(q) && AtField(q.state) && name != "" && (forall c :: c in name ==> IsToken(c))
    requires OccursAt(t, i, name) && q.nread + |name| <= MAX_HEADER_SIZE
    ensures Run(q, t, i, i + |name|) == q.(state := FieldName, kind := KindOf(name), nread := q.nread + |name|)
    decreases |name|
  {
    hide Step, NextKind, KindOf, IsToken;
    var n := |name| - 1;
    assert t[i..i + |name|][n] == t[i + n] && name[n] in name;
    assert name == name[..n] + [name[n]];
    KindNext(name[..n], name[n]);
    if n == 0 {
      OneStep(q, t, i);
      FirstNameStep(q, name[0]);
      assert name[..0] == "";
      assert KindOf("") == Matching(0) by { NoName(); }
    } else {
      assert t[i..i + n] == t[i..i + |name|][..n];
      assert forall c :: c in name[..n] ==> c in name;
      NameRun(q, t, i, name[..n]);
      NameStep(Run(q, t, i, i + n), name[n]);
    }
  }

  lemma {:induction false} NoName()
    ensures KindOf("") == Matching(0)
  {
  }

  predicate AllBlank(s: string) { forall c :: c in s ==> IsBlank(c) }

  /** A value of a field of no special kind. */
  lemma {:induction false} ValueStep(q: Config, c: char)
    requires Sound(q) && q.nread < MAX_HEADER_SIZE && IsHeaderChar(c) && c != '\r' && c != '\n'
    requires (q.state == ValueDiscardWs && (q.kind.Plain? || q.kind.Matching?)) || (q.state == Value && q.kind == Plain)
    ensures Step(q, c) ==
            if q.state == Value || !IsBlank(c) then q.(state := Value, kind := Plain, nread := q.nread + 1)
            else q.(nread := q.nread + 1)
  {
  }

  lemma {:induction false} ValueRun(q: Config, t: string, i: nat, value: string)
    requires Sound(q) && q.state == ValueDiscardWs && (q.kind.Plain? || q.kind.Matching?)
    requires forall c :: c in value ==> IsHeaderChar(c) && c != '\r' && c != '\n'
    requires OccursAt(t, i, value) && q.nread + |value| <= MAX_HEADER_SIZE
    ensures Run(q, t, i, i + |value|) == if AllBlank(value) then q.(nread := q.nread + |value|)
                                         else q.(state := Value, kind := Plain, nread := q.nread + |value|)
    decreases |value|
  {
    hide Step, IsHeaderChar, IsBlank;
    if value == "" {
      NoBytes(q, t, i);
    } else {
      var n := |value| - 1;
      assert t[i..i + |value|][n] == t[i + n] && value[n] in value;
      assert t[i..i + n] == t[i..i + |value|][..n];
      assert value == value[..n] + [value[n]];
      assert forall c :: c in value[..n] ==> c in value;
      ValueRun(q, t, i, value[..n]);
      ValueStep(Run(q, t, i, i + n), value[n]);
    }
  }

  lemma {:induction false} FieldEndSteps(q: Config)
    requires Sound(q) && q.state in {ValueDiscardWs, Value} && q.nread + 2 <= MAX_HEADER_SIZE
    ensures Step(Step(q, '\r'), '\n') ==
            q.(state := if q.state == Value then ValueLws else ValueDiscardLws, nread := q.nread + 2)
  {
  }

  lemma {:induction false} ColonStep(q: Config)
    requires Sound(q) && q.state == FieldName && q.nread < MAX_HEADER_SIZE
    ensures Step(q, ':') == q.(state := ValueDiscardWs, nread := q.nread + 1)
  {
    assert !IsToken(':');
  }

  lemma {:induction false} NameColonRun(q: Config, t: string, i: nat, name: string)
    requires Sound(q) && AtField(q.state) && name != "" && (forall c :: c in name ==> IsToken(c))
    requires OccursAt(t, i, name) && OccursAt(t, i + |name|, ":") && q.nread + |name| + 1 <= MAX_HEADER_SIZE
    ensures Run(q, t, i, i + |name| + 1) ==
            q.(state := ValueDiscardWs, kind := KindOf(name), nread := q.nread + |name| + 1)
  {
    hide Step, Run, IsToken, KindOf;
    var j := i + |name|;
    NameRun(q, t, i, name);
    assert t[j..j + 1][0] == t[j];
    OneStep(Run(q, t, i, j), t, j);
    ColonStep(Run(q, t, i, j));
    RunSplits(q, t, i, j, j + 1);
  }

  lemma {:induction false} ValueEndRun(q: Config, t: string, i: nat, value: string)
    requires Sound(q) && q.state == ValueDiscardWs && (q.kind.Plain? || q.kind.Matching?)
    requires forall c :: c in value ==> IsHeaderChar(c) && c != '\r' && c != '\n'
    requires OccursAt(t, i, value) && OccursAt(t, i + |value|, "\r\n") && q.nread + |value| + 2 <= MAX_HEADER_SIZE
    ensures var q' := Run(q, t, i, i + |value| + 2);
            AtField(q'.state) && q' == q.(state := q'.state, kind := q'.kind, nread := q.nread + |value| + 2)
  {
    hide Step, Run, IsHeaderChar;
    var k := i + |value|;
    ValueRun(q, t, i, value);
    var q1 := Run(q, t, i, k);
    TwoSteps(q1, t, k, "\r\n");
    FieldEndSteps(q1);
    RunSplits(q, t, i, k, k + 2);
  }

  /** Where the parts of a field stand. */
  lemma {:induction false} FieldParts(t: string, i: nat, f: TrailerField)
    requires OccursAt(t, i, FieldText(f))
    ensures var j := i + |f.name|;
            OccursAt(t, i, f.name) && OccursAt(t, j, ":") && OccursAt(t, j + 1, f.value) &&
              OccursAt(t, j + 1 + |f.value|, "\r\n")
  {
    hide OccursAt;
    OccursAtSplit(t, i, f.name, ":" + (f.value + "\r\n"));
    OccursAtSplit(t, i + |f.name|, ":", f.value + "\r\n");
    OccursAtSplit(t, i + |f.name| + 1, f.value, "\r\n");
  }

  lemma {:induction false} NameIsPlain(name: string)
    requires LowerText(name) != CONTENT_LENGTH
    ensures KindOf(name).Plain? || KindOf(name).Matching?
  {
    if |name| == |CONTENT_LENGTH| {
      assert CONTENT_LENGTH[..|name|] == CONTENT_LENGTH;
    }
  }

  /** A trailer field leads to where the next one can start, and changes nothing but the count. */
  lemma {:induction false} FieldRun(q: Config, t: string, i: nat, f: TrailerField)
    requires Sound(q) && AtField(q.state) && IsTrailerField(f) && OccursAt(t, i, FieldText(f))
    requires q.nread + |FieldText(f)| <= MAX_HEADER_SIZE
    ensures var q' := Run(q, t, i, i + |FieldText(f)|);
            AtField(q'.state) && q' == q.(state := q'.state, kind := q'.kind, nread := q.nread + |FieldText(f)|)
  {
    hide Run, IsToken, IsHeaderChar, OccursAt, KindOf, LowerText;
    FieldParts(t, i, f);
    NameIsPlain(f.name);
    var j := i + |f.name| + 1;
    FieldFits(t, i, f);
    NameColonRun(q, t, i, f.name);
    ValueEndRun(Run(q, t, i, j), t, j, f.value);
    RunSplits(q, t, i, j, j + |f.value| + 2);
  }

  lemma {:induction false} FieldFits(t: string, i: nat, f: TrailerField)
    requires OccursAt(t, i, FieldText(f))
    ensures |FieldText(f)| == |f.name| + |f.value| + 3 && i + |FieldText(f)| <= |t|
  {
  }

  lemma {:induction false} FieldsRun(q: Config, t: string, i: nat, fs: seq<TrailerField>)
    requires Sound(q) && AtField(q.state) && (forall f :: f in fs ==> IsTrailerField(f))
    requires OccursAt(t, i, FieldsText(fs)) && q.nread + |FieldsText(fs)| <= MAX_HEADER_SIZE
    ensures var q' := Run(q, t, i, i + |FieldsText(fs)|);
            AtField(q'.state) && q' == q.(state := q'.state, kind := q'.kind, nread := q.nread + |FieldsText(fs)|)
    decreases |fs|
  {
    hide Run, IsTrailerField, FieldText;
    if fs == [] {
      NoBytes(q, t, i);
    } else {
      var text, rest := FieldText(fs[0]), FieldsText(fs[1..]);
      OccursAtSplit(t, i, text, rest);
      assert fs[0] in fs;
      FieldRun(q, t, i, fs[0]);
      FieldsRun(Run(q, t, i, i + |text|), t, i + |text|, fs[1..]);
      RunSplits(q, t, i, i + |text|, i + |text| + |rest|);
    }
  }

  // ---------------------------------------------------------------- the whole body

  lemma {:induction false} CompletionsGrow(q: Config, t: string, i: nat, j: nat)
    requires i <= j <= |t| && Sound(q)
    ensures q.completions <= Run(q, t, i, j).completions
    decreases j - i
  {
    hide Step;
    if i < j {
      CompletionsGrow(q, t, i, j - 1);
      StepGrows(Run(q, t, i, j - 1), t[j - 1]);
    }
  }

  lemma {:induction false} StepGrows(q: Config, c: char)
    requires Sound(q)
    ensures q.completions <= Step(q, c).completions
  {
    hide NextKind, LengthStep, IsToken, IsHeaderChar;
  }

  /**
   * Every well-formed chunked body, with or without trailer fields, is read without error, its data is delivered in
   * order, and completion is signalled once, at the last byte.
   */
  lemma {:induction false} ChunkedBodyIsRead(cs: seq<Chunk>, lastSize: string, lastExtension: string,
      trailer: seq<TrailerField>)
    requires IsBody(cs, lastSize, lastExtension, trailer)
    ensures var t := BodyText(cs, lastSize, lastExtension, trailer);
            var q := RunText(START, t);
            && q.body == ChunksData(cs) && q.completions == 1 && q.state == HeadersAlmostDone
            && forall j :: 0 <= j < |t| ==> Run(START, t, 0, j).completions == 0 && Run(START, t, 0, j).state != Failed
  {
    hide Run, Step;
    var t := BodyText(cs, lastSize, lastExtension, trailer);
    BodyRun(cs, lastSize, lastExtension, trailer);
    var k := |t| - 2;
    var q := Run(START, t, 0, k);
    TwoSteps(q, t, k, "\r\n");
    LastSteps(q);
    RunSplits(START, t, 0, k, k + 1);
    RunSplits(START, t, 0, k, k + 2);
    forall i | 0 <= i < |t| ensures Run(START, t, 0, i).completions == 0 && Run(START, t, 0, i).state != Failed {
      NothingBefore(t, i, k + 1);
    }
  }

  lemma {:induction false} NothingBefore(t: string, i: nat, j: nat)
    requires i <= j <= |t| && Run(START, t, 0, j).completions == 0 && Run(START, t, 0, j).state != Failed
    ensures Run(START, t, 0, i).completions == 0 && Run(START, t, 0, i).state != Failed
  {
    hide Run;
    RunSplits(START, t, 0, i, j);
    CompletionsGrow(Run(START, t, 0, i), t, i, j);
    if Run(START, t, 0, i).state == Failed {
      FailedStays(Run(START, t, 0, i), t, i, j);
    }
  }

  /** Everything but the last two bytes. */
  lemma {:induction false} BodyRun(cs: seq<Chunk>, lastSize: string, lastExtension: string, trailer: seq<TrailerField>)
    requires IsBody(cs, lastSize, lastExtension, trailer)
    ensures var t := BodyText(cs, lastSize, lastExtension, trailer);
            && |t| >= 2 && OccursAt(t, |t| - 2, "\r\n")
            && var q := Run(START, t, 0, |t| - 2);
               AtField(q.state) && q.nread + 2 <= MAX_HEADER_SIZE && q.body == ChunksData(cs) && q.completions == 0
  {
    hide Run, IsChunk, IsTrailerField, IsSizeLine, SizeValue, SizeLine, OccursAt, ChunksText, FieldsText;
    var t, line, fields := BodyText(cs, lastSize, lastExtension, trailer), SizeLine(lastSize, lastExtension),
      FieldsText(trailer);
    BodyParts(t, ChunksText(cs), line, fields);
    var j := |ChunksText(cs)|;
    var k := j + |line|;
    ChunksRun(START, t, 0, cs);
    assert "" + ChunksData(cs) == ChunksData(cs);
    SizeLineRun(Run(START, t, 0, j), t, j, lastSize, lastExtension);
    RunSplits(START, t, 0, j, k);
    FieldsRun(Run(START, t, 0, k), t, k, trailer);
    RunSplits(START, t, 0, k, k + |fields|);
  }

  lemma {:induction false} BodyParts(t: string, chunks: string, line: string, fields: string)
    requires t == chunks + (line + (fields + "\r\n"))
    ensures OccursAt(t, 0, chunks) && OccursAt(t, |chunks|, line) && OccursAt(t, |chunks| + |line|, fields)
    ensures |t| == |chunks| + |line| + |fields| + 2 && OccursAt(t, |t| - 2, "\r\n")
  {
    assert OccursAt(t, 0, t);
    hide OccursAt;
    OccursAtSplit(t, 0, chunks, line + (fields + "\r\n"));
    OccursAtSplit(t, |chunks|, line, fields + "\r\n");
    OccursAtSplit(t, |chunks| + |line|, fields, "\r\n");
  }

  lemma {:induction false} LastSteps(q: Config)
    requires Sound(q) && AtField(q.state) && q.nread + 2 <= MAX_HEADER_SIZE
    ensures Step(q, '\r') == q.(state := HeadersAlmostDone, nread := q.nread + 1)
    ensures Step(Step(q, '\r'), '\n') ==
            q.(state := HeadersAlmostDone, nread := q.nread + 2, completions := q.completions + 1)
  {
  }

  /** A body of known length is delivered, and completed at its last byte. */
  lemma {:induction false} IdentityBodyIsRead(data: string)
    requires 0 < |data| < UINT64_MAX
    ensures var q := RunText(Config(BodyIdentity, |data|, 0, "", 0, Plain, true), data);
            q.body == data && q.completions == 1 && q.state == MessageDone
  {
    BulkRun(Config(BodyIdentity, |data|, 0, "", 0, Plain, true), data, 0, |data|);
    assert "" + data[0..|data|] == data;
  }

  /**
   * A chunked body that arrives in any non-empty buffers: the pieces handed to on_body make up its data,
   * and the message is completed.
   */
  method ReceiveChunked(buffers: seq<string>, ghost cs: seq<Chunk>, ghost lastSize: string, ghost lastExtension: string,
      ghost trailer: seq<TrailerField>)
    returns (body: string, completions: nat)
    requires IsBody(cs, lastSize, lastExtension, trailer)
    requires Flatten(buffers) == BodyText(cs, lastSize, lastExtension, trailer)
    requires forall b :: b in buffers ==> b != ""
    ensures body == ChunksData(cs) && completions == 1
  {
    hide RunText;
    var parser := new Parser.Chunked();
    ChunkedBodyIsRead(cs, lastSize, lastExtension, trailer);
    FeedAll(parser, buffers);
    body, completions := Flatten(parser.pieces), parser.completions;
  }
}
