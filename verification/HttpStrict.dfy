/** What the body parser completes is a chunked body: no other text is ever reported as a whole message. */
module HttpStrict {
  import opened Prelude
  import opened HttpBody

  // ---------------------------------------------------------------- the grammar of what is completed

  /** The `unhex` table reads the bytes from 128 on as digits too. */
  predicate IsSizeChar(c: char) { IsHexDigit(c) || c as int >= 128 }

  predicate IsSize(size: string) { size != "" && forall k :: 0 <= k < |size| ==> IsSizeChar(size[k]) }

  lemma {:induction false} SizeCharsHaveValues(c: char)
    ensures IsSizeChar(c) <==> Unhex(c) != -1
  {
    UnhexIsHex(c);
  }

  lemma {:induction false} SizesHaveValues(size: string)
    requires IsSize(size)
    ensures forall c :: c in size ==> Unhex(c) != -1
  {
    hide IsSizeChar, Unhex;
    forall c | c in size ensures Unhex(c) != -1 {
      SizeCharsHaveValues(c);
    }
  }

  /** The number of a size; what is no size counts as nothing. */
  function NumberOf(size: string): nat {
    if IsSize(size) then SizesHaveValues(size); SizeValue(size) else 0
  }

  predicate IsDataChunk(c: Chunk) {
    IsSize(c.size) && IsExtension(c.extension) && NumberOf(c.size) == |c.data| && c.data != ""
  }

  predicate AreChunks(cs: seq<Chunk>) { forall k :: 0 <= k < |cs| ==> IsDataChunk(cs[k]) }

  /** A line of the trailer: a field, or the continuation of one, which has no name. */
  datatype Line = Line(name: string, content: string, carriage: bool)

  predicate IsName(name: string) { forall k :: 0 <= k < |name| ==> IsToken(name[k]) }

  /** Blanks, one character that is not looked at, and header characters, all on one line. */
  predicate IsContent(s: string) {
    && (forall k :: 0 <= k < |s| ==> s[k] !in {'\r', '\n'})
    && exists v :: 0 <= v <= |s| && SplitsContent(s, v)
  }

  predicate SplitsContent(s: string, v: nat) {
    (forall k :: 0 <= k < |s| && k < v ==> IsBlank(s[k])) && (forall k :: v < k < |s| ==> IsHeaderChar(s[k]))
  }

  predicate IsLine(l: Line) {
    IsName(l.name) && IsContent(l.content) && (l.name == "" ==> l.content != "" && IsBlank(l.content[0]))
  }

  function Front(name: string): string { if name == "" then "" else name + ":" }

  /** A line may end in a line feed alone. */
  function LineEnd(carriage: bool): string { if carriage then "\r\n" else "\n" }

  function LineText(l: Line): string { Front(l.name) + (l.content + LineEnd(l.carriage)) }

  function LinesText(ls: seq<Line>): string {
    if ls == [] then "" else LinesText(ls[..|ls| - 1]) + LineText(ls[|ls| - 1])
  }

  /** The first line of a trailer is a field. */
  predicate AreLines(ls: seq<Line>) {
    (forall k :: 0 <= k < |ls| ==> IsLine(ls[k])) && (ls != [] ==> ls[0].name != "")
  }

  /** Whole chunks with their data. */
  ghost predicate IsChunks(text: string, data: string) {
    exists cs :: AreChunks(cs) && text == ChunksText(cs) && data == ChunksData(cs)
  }

  ghost predicate IsTrailer(text: string) { exists ls :: AreLines(ls) && text == LinesText(ls) }

  /** Chunks and a last chunk of size zero. */
  ghost predicate IsHead(text: string, data: string) {
    exists chunks, size, extension ::
      IsChunks(chunks, data) && IsSizeLineOf(size, extension, 0) && text == chunks + SizeLine(size, extension)
  }

  predicate IsSizeLineOf(size: string, extension: string, n: nat) {
    IsSize(size) && IsExtension(extension) && NumberOf(size) == n
  }

  /** A whole chunked body with its data; an empty line ends it. */
  ghost predicate IsChunkedBody(text: string, data: string) {
    exists head, trailer, carriage ::
      IsHead(head, data) && IsTrailer(trailer) && text == head + (trailer + LineEnd(carriage))
  }

  // ---------------------------------------------------------------- one more chunk, one more line

  lemma {:induction false} ChunksAppend(cs: seq<Chunk>, c: Chunk)
    ensures ChunksText(cs + [c]) == ChunksText(cs) + ChunkText(c) && ChunksData(cs + [c]) == ChunksData(cs) + c.data
  {
    hide ChunkText;
    if cs == [] {
      assert [] + [c] == [c] && [c][1..] == [];
      assert ChunkText(c) + "" == ChunkText(c) == "" + ChunkText(c) && c.data + "" == c.data == "" + c.data;
    } else {
      ChunksAppend(cs[1..], c);
      assert (cs + [c])[1..] == cs[1..] + [c];
      Concat3(ChunkText(cs[0]), ChunksText(cs[1..]), ChunkText(c));
      Concat3(cs[0].data, ChunksData(cs[1..]), c.data);
    }
  }

  lemma {:induction false} ChunkJoins(text: string, data: string, c: Chunk)
    requires IsChunks(text, data) && IsDataChunk(c)
    ensures IsChunks(text + ChunkText(c), data + c.data)
  {
    hide IsDataChunk, ChunkText;
    var cs :| AreChunks(cs) && text == ChunksText(cs) && data == ChunksData(cs);
    ChunksAppend(cs, c);
    assert AreChunks(cs + [c]);
  }

  lemma {:induction false} LineJoins(text: string, l: Line)
    requires IsTrailer(text) && IsLine(l) && (text == "" ==> l.name != "")
    ensures IsTrailer(text + LineText(l)) && LineText(l) != ""
  {
    hide IsLine;
    var ls :| AreLines(ls) && text == LinesText(ls);
    var more := ls + [l];
    assert more[..|more| - 1] == ls;
    assert LineEnd(l.carriage) != "";
    if ls != [] {
      assert more[0] == ls[0];
    } else {
      assert text == "";
    }
    assert AreLines(more);
  }

  lemma {:induction false} NoChunks()
    ensures IsChunks("", "")
  {
    assert AreChunks([]) && ChunksText([]) == "" && ChunksData([]) == "";
  }

  lemma {:induction false} NoLines()
    ensures IsTrailer("")
  {
    assert AreLines([]) && LinesText([]) == "";
  }

  // ---------------------------------------------------------------- how far a text has got: chunks

  /** The text ends within the size line of a chunk; `tail` is what follows the size. */
  ghost predicate InSizeLine(text: string, data: string, n: nat, extension: string, tail: string) {
    exists done, size ::
      IsChunks(done, data) && IsSizeLineOf(size, extension, n) && text == done + (size + tail)
  }

  /** The text ends within or behind the data of a chunk. */
  ghost predicate InData(text: string, body: string, left: nat, tail: string) {
    exists done, data, size, extension, part ::
      IsChunks(done, data) && IsSizeLineOf(size, extension, |part| + left) && |part| + left > 0 &&
      body == data + part && text == done + (SizeLine(size, extension) + (part + tail))
  }

  ghost predicate ChunkShape(q: Config, text: string) {
    match q.state
    case ChunkSizeStart => IsChunks(text, q.body)
    case ChunkSize => InSizeLine(text, q.body, q.length, "", "")
    case ChunkParameters => exists e :: e != "" && IsExtension(e) && InSizeLine(text, q.body, q.length, e, e)
    case ChunkSizeAlmostDone => exists e :: IsExtension(e) && InSizeLine(text, q.body, q.length, e, e + "\r")
    case ChunkData => q.length > 0 && InData(text, q.body, q.length, "")
    case ChunkDataAlmostDone => q.length == 0 && InData(text, q.body, 0, "")
    case ChunkDataDone => q.length == 0 && InData(text, q.body, 0, "\r")
    case _ => false
  }

  /** What a byte adds, whatever is counted. */
  lemma {:induction false} StepIsTransition(q: Config, c: char)
    requires Sound(q)
    ensures Step(q, c).state == Failed ||
            exists n: nat :: Step(q, c) == Transition(q.(nread := n), c)
  {
    hide Transition;
    if ParsingHeader(q.state) {
      assert q.nread + 1 <= MAX_HEADER_SIZE ==> Step(q, c) == Transition(q.(nread := q.nread + 1), c);
    } else {
      assert q == q.(nread := q.nread) && Step(q, c) == Transition(q.(nread := q.nread), c);
    }
  }

  lemma {:induction false} OneSizeChar(c: char)
    requires Unhex(c) != -1
    ensures IsSize([c]) && NumberOf([c]) == Unhex(c)
  {
    SizeCharsHaveValues(c);
    OneDigit([c]);
  }

  lemma {:induction false} NextSizeChar(size: string, c: char)
    requires IsSize(size) && Unhex(c) != -1
    ensures IsSize(size + [c]) && NumberOf(size + [c]) == 16 * NumberOf(size) + Unhex(c)
  {
    hide IsSizeChar, Unhex;
    SizeCharsHaveValues(c);
    var s := size + [c];
    forall k | 0 <= k < |s| ensures IsSizeChar(s[k]) {
      if k < |size| {
        assert s[k] == size[k];
      }
    }
    SizesHaveValues(s);
    SizesHaveValues(size);
    assert s[..|s| - 1] == size;
  }

  lemma {:induction false} SizeStartStep(q: Config, text: string, c: char)
    requires Sound(q) && q.state == ChunkSizeStart && ChunkShape(q, text)
    ensures var q' := Transition(q, c); q'.state == Failed || ChunkShape(q', text + [c])
  {
    hide Unhex, IsChunks;
    if Unhex(c) != -1 {
      OneSizeChar(c);
      assert IsSizeLineOf([c], "", Unhex(c)) && text + [c] == text + ([c] + "");
    }
  }

  lemma {:induction false} SizeCharStep(q: Config, text: string, c: char)
    requires Sound(q) && q.state == ChunkSize && ChunkShape(q, text)
    ensures var q' := Transition(q, c); q'.state == Failed || ChunkShape(q', text + [c])
  {
    hide Unhex, IsChunks, NumberOf, IsSize;
    var done, size :| IsChunks(done, q.body) && IsSizeLineOf(size, "", q.length) && text == done + (size + "");
    if c == '\r' {
      assert text + [c] == done + (size + ("" + "\r")) && IsExtension("");
      assert InSizeLine(text + [c], q.body, q.length, "", "" + "\r");
    } else if Unhex(c) != -1 {
      NextSizeChar(size, c);
      assert text + [c] == done + ((size + [c]) + "");
      assert IsSizeLineOf(size + [c], "", 16 * q.length + Unhex(c));
    } else if c == ';' || c == ' ' {
      assert IsExtension([c]) && IsSizeLineOf(size, [c], q.length);
      assert text + [c] == done + (size + [c]);
      assert InSizeLine(text + [c], q.body, q.length, [c], [c]);
    }
  }

  lemma {:induction false} ParameterCharStep(q: Config, text: string, c: char)
    requires Sound(q) && q.state == ChunkParameters && ChunkShape(q, text)
    ensures var q' := Transition(q, c); q'.state == Failed || ChunkShape(q', text + [c])
  {
    hide IsChunks, NumberOf, IsSize;
    var e :| e != "" && IsExtension(e) && InSizeLine(text, q.body, q.length, e, e);
    var done, size :| IsChunks(done, q.body) && IsSizeLineOf(size, e, q.length) && text == done + (size + e);
    if c == '\r' {
      assert text + [c] == done + (size + (e + "\r"));
      assert InSizeLine(text + [c], q.body, q.length, e, e + "\r");
    } else {
      var more := e + [c];
      assert more[0] == e[0] && IsExtension(more) && IsSizeLineOf(size, more, q.length);
      assert text + [c] == done + (size + more);
      assert InSizeLine(text + [c], q.body, q.length, more, more);
    }
  }

  /** The line feed of a size line leads to the data, or past the last chunk. */
  lemma {:induction false} SizeEndStep(q: Config, text: string, c: char)
    requires Sound(q) && q.state == ChunkSizeAlmostDone && ChunkShape(q, text)
    ensures var q' := Transition(q, c);
            || q'.state == Failed || ChunkShape(q', text + [c])
            || (q'.state == HeaderFieldStart && q'.body == q.body && IsHead(text + [c], q.body))
  {
    hide IsChunks, NumberOf, IsSize, IsExtension;
    var e :| IsExtension(e) && InSizeLine(text, q.body, q.length, e, e + "\r");
    var done, size :| IsChunks(done, q.body) && IsSizeLineOf(size, e, q.length) && text == done + (size + (e + "\r"));
    if c == '\n' {
      assert "\r" + [c] == "\r\n";
      assert text + [c] == done + (size + (e + ("\r" + [c]))) == done + SizeLine(size, e);
      if q.length > 0 {
        var line := SizeLine(size, e);
        assert text + [c] == done + (line + ("" + "")) && q.body == q.body + "";
        assert IsSizeLineOf(size, e, |""| + q.length);
        assert InData(text + [c], q.body, q.length, "");
      }
    }
  }

  lemma {:induction false} DataStep(q: Config, text: string, c: char)
    requires Sound(q) && q.state == ChunkData && ChunkShape(q, text)
    ensures var q' := Transition(q, c); ChunkShape(q', text + [c])
  {
    hide IsChunks, NumberOf, IsSize, IsExtension, SizeLine;
    var done, data, size, e, part :| IsChunks(done, data) && IsSizeLineOf(size, e, |part| + q.length) &&
      |part| + q.length > 0 && q.body == data + part && text == done + (SizeLine(size, e) + (part + ""));
    var more := part + [c];
    assert text + [c] == done + (SizeLine(size, e) + (more + "")) && q.body + [c] == data + more;
    assert IsSizeLineOf(size, e, |more| + (q.length - 1));
    assert InData(text + [c], q.body + [c], q.length - 1, "");
  }

  lemma {:induction false} DataEndStep(q: Config, text: string, c: char)
    requires Sound(q) && q.state in {ChunkDataAlmostDone, ChunkDataDone} && ChunkShape(q, text)
    ensures var q' := Transition(q, c); q'.state == Failed || ChunkShape(q', text + [c])
  {
    hide IsChunks, NumberOf, IsSize, IsExtension;
    var tail := if q.state == ChunkDataDone then "\r" else "";
    var done, data, size, e, part :| IsChunks(done, data) && IsSizeLineOf(size, e, |part| + 0) && |part| + 0 > 0 &&
      q.body == data + part && text == done + (SizeLine(size, e) + (part + tail));
    if q.state == ChunkDataAlmostDone && c == '\r' {
      assert text + [c] == done + (SizeLine(size, e) + (part + "\r"));
      assert InData(text + [c], q.body, 0, "\r");
    } else if q.state == ChunkDataDone && c == '\n' {
      assert "\r" + [c] == "\r\n";
      var chunk := Chunk(size, e, part);
      assert text + [c] == done + (SizeLine(size, e) + (part + ("\r" + [c]))) == done + ChunkText(chunk);
      ChunkJoins(done, data, chunk);
    }
  }

  // ---------------------------------------------------------------- how far a text has got: the trailer

  /** The text ends after whole lines of the trailer and a tail. */
  ghost predicate AfterLines(text: string, data: string, some: bool, tail: string) {
    exists head, trailer ::
      IsHead(head, data) && IsTrailer(trailer) && (some ==> trailer != "") && text == head + (trailer + tail)
  }

  predicate AllBlanks(s: string) { forall k :: 0 <= k < |s| ==> IsBlank(s[k]) }

  /** The text ends within a line, which continues another one if it has no name. */
  ghost predicate InLine(text: string, data: string, blanks: bool, tail: string) {
    exists name, content ::
      IsLine(Line(name, content, true)) && (blanks ==> AllBlanks(content)) &&
      AfterLines(text, data, name == "", Front(name) + (content + tail))
  }

  ghost predicate InName(text: string, data: string) {
    exists name :: name != "" && IsName(name) && AfterLines(text, data, false, name)
  }

  ghost predicate TrailerShape(q: Config, text: string) {
    match q.state
    case HeaderFieldStart => AfterLines(text, q.body, false, "")
    case ValueLws => AfterLines(text, q.body, true, "")
    case ValueDiscardLws => AfterLines(text, q.body, true, "")
    case FieldName => InName(text, q.body)
    case ValueDiscardWs => InLine(text, q.body, true, "")
    case Value => InLine(text, q.body, false, "")
    case ValueDiscardWsAlmostDone => InLine(text, q.body, false, "\r")
    case FieldAlmostDone => InLine(text, q.body, false, "\r")
    case HeadersAlmostDone => AfterLines(text, q.body, false, "\r")
    case _ => false
  }

  lemma {:induction false} TailGrows(text: string, data: string, some: bool, tail: string, more: string)
    requires AfterLines(text, data, some, tail)
    ensures AfterLines(text + more, data, some, tail + more) && AfterLines(text + more, data, false, tail + more)
  {
    hide IsHead, IsTrailer;
    var head, trailer :| IsHead(head, data) && IsTrailer(trailer) && (some ==> trailer != "") &&
      text == head + (trailer + tail);
    assert text + more == head + (trailer + (tail + more));
  }

  lemma {:induction false} NextBlank(s: string, c: char)
    requires AllBlanks(s) && c !in {'\r', '\n'}
    ensures IsContent(s) && IsContent(s + [c]) && (IsBlank(c) ==> AllBlanks(s + [c]))
  {
    assert SplitsContent(s, |s|) && SplitsContent(s + [c], |s|);
  }

  lemma {:induction false} NextContent(s: string, c: char)
    requires IsContent(s) && IsHeaderChar(c) && c !in {'\r', '\n'}
    ensures IsContent(s + [c])
  {
    var v :| 0 <= v <= |s| && SplitsContent(s, v);
    assert SplitsContent(s + [c], v);
  }

  lemma {:induction false} WholeLine(text: string, data: string, l: Line, tail: string)
    requires IsLine(l) && tail + "\n" == LineEnd(l.carriage)
    requires AfterLines(text, data, l.name == "", Front(l.name) + (l.content + tail))
    ensures AfterLines(text + "\n", data, true, "")
  {
    hide IsHead, IsTrailer, IsLine, Front, LineEnd;
    var head, trailer :| IsHead(head, data) && IsTrailer(trailer) && (l.name == "" ==> trailer != "") &&
      text == head + (trailer + (Front(l.name) + (l.content + tail)));
    LineJoins(trailer, l);
    Behind(head, trailer, Front(l.name), l.content, tail, "\n");
  }

  lemma {:induction false} Behind(a: string, b: string, c: string, d: string, e: string, f: string)
    ensures a + (b + (c + (d + e))) + f == a + ((b + (c + (d + (e + f)))) + "")
  {
  }

  /** A line and its end join the lines before it. */
  lemma {:induction false} LineEnds(text: string, data: string, carriage: bool)
    requires InLine(text, data, false, if carriage then "\r" else "")
    ensures AfterLines(text + "\n", data, true, "")
  {
    hide AfterLines, IsLine;
    var tail := if carriage then "\r" else "";
    var name, content :| IsLine(Line(name, content, true)) &&
      AfterLines(text, data, name == "", Front(name) + (content + tail));
    SameLine(name, content, carriage);
    assert tail + "\n" == LineEnd(carriage);
    WholeLine(text, data, Line(name, content, carriage), tail);
  }

  lemma {:induction false} SameLine(name: string, content: string, carriage: bool)
    requires IsLine(Line(name, content, true))
    ensures IsLine(Line(name, content, carriage))
  {
  }

  /** What a byte in a field does to the shape: it fails, keeps it, or completes the message. */
  ghost predicate Goes(q: Config, q': Config, text: string) {
    || q'.state == Failed
    || (q'.completions == q.completions && q'.body == q.body && TrailerShape(q', text))
    || (q'.completions == q.completions + 1 && q'.body == q.body && IsChunkedBody(text, q.body))
  }

  /** A completing line feed; `carriage` tells whether a carriage return stands before it. */
  lemma {:induction false} BodyEnds(text: string, data: string, carriage: bool)
    requires AfterLines(text, data, false, if carriage then "\r" else "")
    ensures IsChunkedBody(text + "\n", data)
  {
    hide IsHead, IsTrailer;
    var tail := if carriage then "\r" else "";
    var head, trailer :| IsHead(head, data) && IsTrailer(trailer) && text == head + (trailer + tail);
    assert tail + "\n" == LineEnd(carriage);
    assert text + "\n" == head + (trailer + LineEnd(carriage));
  }

  lemma {:induction false} FieldStartGoes(q: Config, text: string, c: char)
    requires AfterLines(text, q.body, false, "")
    ensures Goes(q, FieldStart(q, c), text + [c])
  {
    hide AfterLines, IsChunkedBody, IsToken, NextKind;
    TailGrows(text, q.body, false, "", [c]);
    assert "" + [c] == [c];
    if c == '\n' {
      BodyEnds(text, q.body, false);
    } else if IsToken(c) {
      OneToken(c);
    }
  }

  lemma {:induction false} OneToken(c: char)
    requires IsToken(c)
    ensures IsName([c])
  {
  }

  lemma {:induction false} NameGoes(q: Config, text: string, c: char)
    requires Sound(q) && q.state == FieldName && TrailerShape(q, text)
    ensures Goes(q, Transition(q, c), text + [c])
  {
    hide AfterLines, IsChunkedBody, IsToken, NextKind;
    var name :| name != "" && IsName(name) && AfterLines(text, q.body, false, name);
    TailGrows(text, q.body, false, name, [c]);
    if IsToken(c) {
      assert IsName(name + [c]);
    } else if c == ':' {
      NextBlank("", ' ');
      assert Front(name) + ("" + "") == name + [c];
      assert IsLine(Line(name, "", true));
    }
  }

  /** A character of a line that has a front. */
  lemma {:induction false} ContentGrows(text: string, data: string, name: string, content: string, c: char,
      blanks: bool)
    requires AfterLines(text, data, name == "", Front(name) + (content + ""))
    requires IsLine(Line(name, content, true)) && IsContent(content + [c]) && (blanks ==> AllBlanks(content + [c]))
    ensures InLine(text + [c], data, blanks, "")
  {
    hide AfterLines, IsContent, IsBlank;
    TailGrows(text, data, name == "", Front(name) + (content + ""), [c]);
    assert Front(name) + (content + "") + [c] == Front(name) + ((content + [c]) + "");
    assert content != "" ==> (content + [c])[0] == content[0];
    FrontIsKept(name, content, c);
  }

  lemma {:induction false} FrontIsKept(name: string, content: string, c: char)
    requires IsLine(Line(name, content, true)) && IsContent(content + [c])
    ensures IsLine(Line(name, content + [c], true))
  {
    hide IsContent, IsBlank;
    assert content != "" ==> (content + [c])[0] == content[0];
  }

  /** A carriage return behind a line. */
  lemma {:induction false} CarriageFollows(text: string, data: string)
    requires InLine(text, data, false, "")
    ensures InLine(text + "\r", data, false, "\r")
  {
    hide AfterLines, IsLine;
    var name, content :| IsLine(Line(name, content, true)) &&
      AfterLines(text, data, name == "", Front(name) + (content + ""));
    TailGrows(text, data, name == "", Front(name) + (content + ""), "\r");
    assert Front(name) + (content + "") + "\r" == Front(name) + (content + "\r");
  }

  lemma {:induction false} DiscardGoes(q: Config, text: string, c: char)
    requires Sound(q) && q.state == ValueDiscardWs && TrailerShape(q, text)
    ensures Goes(q, Transition(q, c), text + [c])
  {
    hide AfterLines, IsChunkedBody, IsLine, IsContent, LengthStep;
    if c == '\r' {
      CarriageFollows(text, q.body);
    } else if c == '\n' {
      LineEnds(text, q.body, false);
    } else {
      var name, content :| IsLine(Line(name, content, true)) && AllBlanks(content) &&
        AfterLines(text, q.body, name == "", Front(name) + (content + ""));
      NextBlank(content, c);
      ContentGrows(text, q.body, name, content, c, IsBlank(c));
    }
  }

  lemma {:induction false} ValueGoes(q: Config, text: string, c: char)
    requires Sound(q) && q.state == Value && TrailerShape(q, text)
    ensures Goes(q, Transition(q, c), text + [c])
  {
    hide AfterLines, IsChunkedBody, IsLine, IsHeaderChar, IsContent, LengthStep;
    if c == '\r' {
      CarriageFollows(text, q.body);
    } else if c == '\n' {
      LineEnds(text, q.body, false);
    } else if IsHeaderChar(c) {
      var name, content :| IsLine(Line(name, content, true)) &&
        AfterLines(text, q.body, name == "", Front(name) + (content + ""));
      ContentIsContent(name, content);
      NextContent(content, c);
      ContentGrows(text, q.body, name, content, c, false);
    }
  }

  lemma {:induction false} ContentIsContent(name: string, content: string)
    requires IsLine(Line(name, content, true))
    ensures IsContent(content)
  {
  }

  lemma {:induction false} LineEndGoes(q: Config, text: string, c: char)
    requires Sound(q) && q.state in {ValueDiscardWsAlmostDone, FieldAlmostDone, HeadersAlmostDone}
    requires TrailerShape(q, text)
    ensures Goes(q, Transition(q, c), text + [c])
  {
    hide AfterLines, IsChunkedBody, InLine;
    if c == '\n' {
      if q.state == HeadersAlmostDone {
        BodyEnds(text, q.body, true);
      } else {
        LineEnds(text, q.body, true);
      }
    }
  }

  /** Behind a line: a blank continues it. */
  lemma {:induction false} BehindLineGoes(q: Config, text: string, c: char)
    requires Sound(q) && q.state in {ValueLws, ValueDiscardLws} && TrailerShape(q, text)
    ensures Goes(q, Transition(q, c), text + [c])
  {
    hide AfterLines, IsChunkedBody, IsBlank, IsContent, LengthStep, FieldStart, Goes;
    if IsBlank(c) {
      Continues(q, text, c);
    } else {
      TailGrows(text, q.body, true, "", "");
      assert text + "" == text && "" + "" == "";
      FieldStartGoes(q, text, c);
    }
  }

  lemma {:induction false} Continues(q: Config, text: string, c: char)
    requires Sound(q) && q.state in {ValueLws, ValueDiscardLws} && TrailerShape(q, text) && IsBlank(c)
    ensures Goes(q, Transition(q, c), text + [c])
  {
    hide AfterLines, IsChunkedBody;
    TailGrows(text, q.body, true, "", [c]);
    assert "" + [c] == Front("") + ([c] + "");
    NextBlank("", c);
    assert "" + [c] == [c] && AllBlanks([c]) && IsLine(Line("", [c], true));
  }

  lemma {:induction false} TrailerGoes(q: Config, text: string, c: char)
    requires Sound(q) && TrailerShape(q, text)
    ensures Goes(q, Transition(q, c), text + [c])
  {
    hide Transition, Goes, AfterLines, InLine, InName;
    match q.state
    case HeaderFieldStart => StartGoes(q, text, c);
    case FieldName => NameGoes(q, text, c);
    case ValueDiscardWs => DiscardGoes(q, text, c);
    case Value => ValueGoes(q, text, c);
    case ValueLws => BehindLineGoes(q, text, c);
    case ValueDiscardLws => BehindLineGoes(q, text, c);
    case ValueDiscardWsAlmostDone => LineEndGoes(q, text, c);
    case FieldAlmostDone => LineEndGoes(q, text, c);
    case HeadersAlmostDone => LineEndGoes(q, text, c);
  }

  lemma {:induction false} StartGoes(q: Config, text: string, c: char)
    requires Sound(q) && q.state == HeaderFieldStart && TrailerShape(q, text)
    ensures Goes(q, Transition(q, c), text + [c])
  {
    hide Goes, FieldStart, AfterLines;
    FieldStartGoes(q, text, c);
  }

  // ---------------------------------------------------------------- every text

  ghost predicate Shape(q: Config, text: string) { ChunkShape(q, text) || TrailerShape(q, text) }

  lemma {:induction false} ChunkGoes(q: Config, text: string, c: char)
    requires Sound(q) && ChunkShape(q, text)
    ensures var q' := Transition(q, c);
            q'.state == Failed || (q'.completions == q.completions && Shape(q', text + [c]))
  {
    hide InSizeLine, InData, IsChunks, Unhex, IsHead, InLine, InName;
    match q.state {
      case ChunkSizeStart => SizeStartStep(q, text, c);
      case ChunkSize => SizeCharStep(q, text, c);
      case ChunkParameters => ParameterCharStep(q, text, c);
      case ChunkSizeAlmostDone =>
        SizeEndStep(q, text, c);
        if IsHead(text + [c], q.body) {
          HeadIsThere(text + [c], q.body);
        }
      case ChunkData => DataStep(q, text, c);
      case ChunkDataAlmostDone => DataEndStep(q, text, c);
      case ChunkDataDone => DataEndStep(q, text, c);
    }
  }

  lemma {:induction false} HeadIsThere(text: string, data: string)
    requires IsHead(text, data)
    ensures AfterLines(text, data, false, "")
  {
    hide IsHead, IsTrailer;
    NoLines();
    assert text == text + ("" + "");
  }

  lemma {:induction false} OneByte(q: Config, text: string, c: char)
    requires Sound(q) && Shape(q, text)
    ensures var q' := Step(q, c);
            || q'.state == Failed
            || (q'.completions == q.completions && Shape(q', text + [c]))
            || (q'.completions == q.completions + 1 && IsChunkedBody(text + [c], q'.body))
  {
    hide Transition, Step, ChunkShape, TrailerShape, IsChunkedBody;
    StepIsTransition(q, c);
    if Step(q, c).state != Failed {
      var n: nat :| Step(q, c) == Transition(q.(nread := n), c);
      CountIsNoShape(q, n, text);
      if ChunkShape(q, text) {
        ChunkGoes(q.(nread := n), text, c);
      } else {
        TrailerGoes(q.(nread := n), text, c);
      }
    }
  }

  lemma {:induction false} CountIsNoShape(q: Config, n: nat, text: string)
    ensures ChunkShape(q.(nread := n), text) <==> ChunkShape(q, text)
    ensures TrailerShape(q.(nread := n), text) <==> TrailerShape(q, text)
  {
  }

  /** As long as nothing has failed or been completed, the text is the beginning of a chunked body. */
  lemma {:induction false} EveryTextHasShape(t: string, n: nat)
    requires n <= |t|
    requires Run(START, t, 0, n).completions == 0 && Run(START, t, 0, n).state != Failed
    ensures Shape(Run(START, t, 0, n), t[..n])
  {
    hide Step, Shape;
    if n == 0 {
      StartHasShape(t);
    } else {
      var q := Run(START, t, 0, n - 1);
      NothingBefore(t, n - 1, n);
      EveryTextHasShape(t, n - 1);
      OneByte(q, t[..n - 1], t[n - 1]);
      assert t[..n] == t[..n - 1] + [t[n - 1]];
    }
  }

  lemma {:induction false} StartHasShape(t: string)
    ensures Shape(START, t[..0])
  {
    NoChunks();
    assert t[..0] == "";
  }

  /**
   * When a message is completed, the text up to there is a whole chunked body, and exactly the data of its chunks has
   * been delivered.
   */
  lemma {:induction false} CompletedIsChunkedBody(t: string, n: nat)
    requires 0 < n <= |t| && Run(START, t, 0, n - 1).completions == 0 && Run(START, t, 0, n).completions > 0
    ensures IsChunkedBody(t[..n], Run(START, t, 0, n).body)
  {
    hide Step, Shape, IsChunkedBody;
    var q := Run(START, t, 0, n - 1);
    if q.state == Failed {
      FailedStep(q, t[n - 1]);
    } else {
      EveryTextHasShape(t, n - 1);
      OneByte(q, t[..n - 1], t[n - 1]);
      assert t[..n] == t[..n - 1] + [t[n - 1]];
      if Step(q, t[n - 1]).state == Failed {
        NotFailedOnCompletion(q, t[n - 1]);
      }
    }
  }

  lemma {:induction false} NotFailedOnCompletion(q: Config, c: char)
    requires Sound(q) && Step(q, c).state == Failed
    ensures Step(q, c).completions == q.completions
  {
    hide NextKind, LengthStep, IsToken, IsHeaderChar;
  }

  /** No line of a chunk size and no trailer is longer than 81920 bytes unless reading fails. */
  lemma {:induction false} HeadersAreLimited(t: string, n: nat)
    requires n <= |t| && Run(START, t, 0, n).state != Failed
    ensures Run(START, t, 0, n).nread <= 81920
  {
    hide Step;
    if n > 0 {
      var q := Run(START, t, 0, n - 1);
      if q.state == Failed {
        FailedStep(q, t[n - 1]);
      } else {
        HeadersAreLimited(t, n - 1);
        CountIsLimited(q, t[n - 1]);
      }
    }
  }

  lemma {:induction false} CountIsLimited(q: Config, c: char)
    requires Sound(q) && q.nread <= 81920 && Step(q, c).state != Failed
    ensures Step(q, c).nread <= 81920
  {
    hide NextKind, LengthStep, IsToken, IsHeaderChar, Unhex;
  }

  // ---------------------------------------------------------------- character classes

  const DELIMITERS := {'"', '(', ')', ',', '/', ':', ';', '<', '=', '>', '?', '@', '[', '\\', ']', '{', '}'}

  /** Names are made of the visible characters that are no delimiters (section 3.2.6 of RFC 7230). */
  lemma {:induction false} TokenChars(c: char)
    ensures IsToken(c) <==> 33 <= c as int <= 126 && c !in DELIMITERS
  {
  }

  /** Values are made of visible characters, blanks and the bytes from 128 on; line ends are told apart before. */
  lemma {:induction false} HeaderChars(c: char)
    ensures IsHeaderChar(c) <==> IsBlank(c) || 33 <= c as int <= 126 || c as int >= 128 || c in {'\r', '\n'}
  {
  }
}
