/** String bodies of Crow's JSON: escaping, the in-place decoder, and the decoder it refines (RFC 8259, section 7). */
module JsonStrings {
  import opened Prelude

  // ---------------------------------------------------------------- escaping

  function HexDigit(d: nat): char
    requires d < 16
  {
    if d < 10 then '0' + d as char else 'a' + (d - 10) as char
  }

  function EscapedChar(c: char): (e: string)
    ensures e != ""
  {
    if c == '"' then "\\\""
    else if c == '\\' then "\\\\"
    else if c == '\n' then "\\n"
    else if c == 8 as char then "\\b"
    else if c == 12 as char then "\\f"
    else if c == '\r' then "\\r"
    else if c == '\t' then "\\t"
    else if c < 32 as char then "\\u00" + [HexDigit(c as int / 16), HexDigit(c as int % 16)]
    else [c]
  }

  function Escaped(s: string): string {
    if s == "" then "" else EscapedChar(s[0]) + Escaped(s[1..])
  }

  /** Appends the escaped text to `ret`. */
  method Escape(str: string, out0: string) returns (ret: string)
    ensures ret == out0 + Escaped(str)
  {
    ret := out0;
    for i := 0 to |str|
      invariant ret + Escaped(str[i..]) == out0 + Escaped(str)
    {
      var e := EscapeOne(str[i]);
      assert str[i..][0] == str[i] && str[i..][1..] == str[i + 1..];
      assert ret + (e + Escaped(str[i + 1..])) == (ret + e) + Escaped(str[i + 1..]);
      ret := ret + e;
    }
    assert str[|str|..] == "";
  }

  /** The switch of `escape`. */
  method EscapeOne(c: char) returns (e: string)
    ensures e == EscapedChar(c)
  {
    match c
    case '"' => e := "\\\"";
    case '\\' => e := "\\\\";
    case '\n' => e := "\\n";
    case '\r' => e := "\\r";
    case '\t' => e := "\\t";
    case _ =>
      if c == 8 as char { e := "\\b"; }
      else if c == 12 as char { e := "\\f"; }
      else if c < 32 as char {
        e := "\\u00";
        e := e + [HexDigit(c as int / 16)];
        e := e + [HexDigit(c as int % 16)];
      } else {
        e := [c];
      }
  }

  // ---------------------------------------------------------------- escape sequences

  predicate IsHex(c: char) { '0' <= c <= '9' || 'a' <= c <= 'f' || 'A' <= c <= 'F' }

  function HexValue(c: char): (v: nat)
    requires IsHex(c)
    ensures v < 16
  {
    if c >= 'a' then c as int - 'a' as int + 10
    else if c >= 'A' then c as int - 'A' as int + 10
    else c as int - '0' as int
  }

  /** The length of the escape sequence at `k`, 0 if the scanner rejects it. */
  function EscapeLength(s: string, k: nat): (n: nat)
    requires k < |s| && s[k] == '\\'
    ensures k + n <= |s| && n in {0, 2, 6}
  {
    if k + 1 == |s| then 0
    else if s[k + 1] == 'u' then
      (if k + 6 <= |s| && IsHex(s[k + 2]) && IsHex(s[k + 3]) && IsHex(s[k + 4]) && IsHex(s[k + 5]) then 6 else 0)
    else if s[k + 1] in "\"\\/bfnrt" then 2
    else 0
  }

  /** The UTF-8 bytes that a \u escape stands for. */
  function Utf8(code: nat): (bytes: string)
    requires code < 0x10000
    ensures 0 < |bytes| <= 3
  {
    if code >= 0x800 then
      [(0xE0 + code / 4096) as char, (0x80 + code / 64 % 64) as char, (0x80 + code % 64) as char]
    else if code >= 0x80 then [(0xC0 + code / 64) as char, (0x80 + code % 64) as char]
    else [code as char]
  }

  /** What the accepted escape sequence at `k` stands for. */
  function Meaning(s: string, k: nat): (bytes: string)
    requires k < |s| && s[k] == '\\' && EscapeLength(s, k) != 0
    ensures 0 < |bytes| < EscapeLength(s, k)
  {
    match s[k + 1]
    case 'u' =>
      Utf8(4096 * HexValue(s[k + 2]) + 256 * HexValue(s[k + 3]) + 16 * HexValue(s[k + 4]) + HexValue(s[k + 5]))
    case 'b' => [8 as char]
    case 'f' => [12 as char]
    case 'n' => "\n"
    case 'r' => "\r"
    case 't' => "\t"
    case c => [c]
  }

  // ---------------------------------------------------------------- bodies

  /** The length of the plain character or escape sequence at `k`. */
  function UnitLength(s: string, k: nat): (n: nat)
    requires k < |s|
    ensures k + n <= |s|
  {
    if s[k] == '\\' then EscapeLength(s, k) else 1
  }

  function UnitMeaning(s: string, k: nat): (bytes: string)
    requires k < |s| && UnitLength(s, k) != 0
    ensures 0 < |bytes| <= UnitLength(s, k)
  {
    if s[k] == '\\' then Meaning(s, k) else [s[k]]
  }

  /** From `k` on, `s` is made of plain characters and accepted escape sequences. */
  predicate WellEscaped(s: string, k: nat)
    requires k <= |s|
    decreases |s| - k
  {
    k == |s| || (UnitLength(s, k) != 0 && WellEscaped(s, k + UnitLength(s, k)))
  }

  /** The functional decoder, from position `k` on. */
  function Unescaped(s: string, k: nat): (r: string)
    requires k <= |s| && WellEscaped(s, k)
    ensures |r| <= |s| - k
    decreases |s| - k
  {
    if k == |s| then "" else UnitMeaning(s, k) + Unescaped(s, k + UnitLength(s, k))
  }

  lemma {:induction false} PlainBody(s: string, k: nat)
    requires k <= |s| && forall i :: k <= i < |s| ==> s[i] != '\\'
    ensures WellEscaped(s, k) && Unescaped(s, k) == s[k..]
    decreases |s| - k
  {
    if k < |s| {
      PlainBody(s, k + 1);
      assert [s[k]] + s[k + 1..] == s[k..];
    }
  }

  /** How far one turn of the scanning loop goes; 0 at a quote, a NUL or a malformed escape. */
  function ScanStep(s: string, k: nat): (n: nat)
    requires k <= |s|
    ensures k + n <= |s|
  {
    if k == |s| || s[k] == '"' || s[k] == '\0' then 0 else UnitLength(s, k)
  }

  /** Where the scan of a string body stops. */
  function BodyEnd(s: string, k: nat): (e: nat)
    requires k <= |s|
    ensures k <= e <= |s|
    decreases |s| - k
  {
    if ScanStep(s, k) == 0 then k else BodyEnd(s, k + ScanStep(s, k))
  }

  /** Scans a body, which must end at a quote: the body and the text after the quote. */
  function ScanBody(s: string): (r: Option<(string, string)>)
    ensures r.Some? ==> |r.value.0| + 1 + |r.value.1| == |s|
  {
    var e := BodyEnd(s, 0);
    if e < |s| && s[e] == '"' then Some((s[..e], s[e + 1..])) else None
  }

  lemma {:induction false} BodyIsWellEscaped(s: string, k: nat)
    requires k <= |s|
    ensures WellEscaped(s[..BodyEnd(s, k)], k)
    decreases |s| - k
  {
    var e := BodyEnd(s, k);
    if k != e {
      BodyIsWellEscaped(s, k + UnitLength(s, k));
      assert forall i :: 0 <= i < e ==> s[..e][i] == s[i];
    }
  }

  // ---------------------------------------------------------------- escaping is undone

  lemma {:induction false} EscapedCharIsUnit(t: string, k: nat, c: char)
    requires OccursAt(t, k, EscapedChar(c))
    ensures UnitLength(t, k) == |EscapedChar(c)| && UnitMeaning(t, k) == [c]
    ensures t[k] != '"' && t[k] != '\0'
  {
    var e := EscapedChar(c);
    OccursAtChar(t, k, e, 0);
    if |e| > 1 {
      OccursAtChar(t, k, e, 1);
    }
    if |e| > 2 {
      OccursAtChar(t, k, e, 2);
      OccursAtChar(t, k, e, 3);
      OccursAtChar(t, k, e, 4);
      OccursAtChar(t, k, e, 5);
      HexIsUndone(c as int / 16);
      HexIsUndone(c as int % 16);
    }
  }

  lemma {:induction false} HexIsUndone(d: nat)
    requires d < 16
    ensures IsHex(HexDigit(d)) && HexValue(HexDigit(d)) == d && IsHex('0') && HexValue('0') == 0
  {
  }

  /** Escaped text denotes the original string, wherever it stands. */
  lemma {:induction false} UnescapeUndoesEscape(t: string, k: nat, s: string)
    requires OccursAt(t, k, Escaped(s)) && k + |Escaped(s)| == |t|
    ensures WellEscaped(t, k) && Unescaped(t, k) == s
    decreases |s|
  {
    hide EscapedChar, UnitLength, UnitMeaning;
    if s != "" {
      var e := EscapedChar(s[0]);
      OccursAtSplit(t, k, e, Escaped(s[1..]));
      EscapedCharIsUnit(t, k, s[0]);
      UnescapeUndoesEscape(t, k + |e|, s[1..]);
    }
  }

  lemma {:induction false} ScanPassesEscaped(t: string, k: nat, s: string)
    requires OccursAt(t, k, Escaped(s)) && k + |Escaped(s)| < |t| && t[k + |Escaped(s)|] == '"'
    ensures BodyEnd(t, k) == k + |Escaped(s)|
    decreases |s|
  {
    hide EscapedChar, UnitLength, UnitMeaning;
    if s != "" {
      var e := EscapedChar(s[0]);
      OccursAtSplit(t, k, e, Escaped(s[1..]));
      EscapedCharIsUnit(t, k, s[0]);
      ScanPassesEscaped(t, k + |e|, s[1..]);
    }
  }

  /** A quoted escaped string scans to its escaped text, and that decodes to the string. */
  lemma {:induction false} QuotedStringIsRead(s: string, rest: string)
    ensures ScanBody(Escaped(s) + "\"" + rest) == Some((Escaped(s), rest))
    ensures WellEscaped(Escaped(s), 0) && Unescaped(Escaped(s), 0) == s
  {
    var body := Escaped(s);
    var t := body + "\"" + rest;
    assert t[0..|body|] == body && t[|body| + 1..] == rest;
    ScanPassesEscaped(t, 0, s);
    assert body[0..|body|] == body;
    UnescapeUndoesEscape(body, 0, s);
  }

  // ---------------------------------------------------------------- decoding in place

  /** The buffer holds `body[k..]` at `start + k` and after. */
  ghost predicate Unread(buf: array<char>, start: nat, body: string, k: nat)
    reads buf
  {
    start + |body| <= buf.Length && forall i :: k <= i < |body| ==> buf[start + i] == body[i]
  }

  /** The bytes that the escape sequence at `start + k` stands for, and the position of its last character. */
  method DecodeAt(buf: array<char>, start: nat, ghost body: string, k: nat) returns (bytes: string, last: nat)
    requires k < |body| && Unread(buf, start, body, k) && body[k] == '\\' && EscapeLength(body, k) != 0
    ensures bytes == Meaning(body, k) && last + 1 == start + k + EscapeLength(body, k)
  {
    last := start + k + 1;
    match buf[last] {
      case '"' => bytes := "\"";
      case '\\' => bytes := "\\";
      case '/' => bytes := "/";
      case 'b' => bytes := [8 as char];
      case 'f' => bytes := [12 as char];
      case 'n' => bytes := "\n";
      case 'r' => bytes := "\r";
      case 't' => bytes := "\t";
      case _ =>
        var code := HexValue(buf[last + 1]) * 4096 + HexValue(buf[last + 2]) * 256 +
                    HexValue(buf[last + 3]) * 16 + HexValue(buf[last + 4]);
        if code >= 0x800 {
          bytes := [(0xE0 + code / 4096) as char, (0x80 + code / 64 % 64) as char, (0x80 + code % 64) as char];
        } else if code >= 0x80 {
          bytes := [(0xC0 + code / 64) as char, (0x80 + code % 64) as char];
        } else {
          bytes := [code as char];
        }
        last := last + 4;
    }
  }

  /**
   * The bytes that the character or escape sequence at `start + k` stands for, and the position of its last
   * character.
   */
  method DecodeUnit(buf: array<char>, start: nat, ghost body: string, k: nat) returns (bytes: string, last: nat)
    requires k < |body| && Unread(buf, start, body, k) && UnitLength(body, k) != 0
    ensures bytes == UnitMeaning(body, k) && last + 1 == start + k + UnitLength(body, k)
  {
    bytes, last := [buf[start + k]], start + k;
    if buf[start + k] == '\\' {
      bytes, last := DecodeAt(buf, start, body, k);
    }
  }

  /** Writes `bytes` at `tail`, which extends the part written since `start`. */
  method Emit(buf: array<char>, ghost start: nat, tail: nat, bytes: string) returns (tail': nat)
    requires start <= tail && tail + |bytes| <= buf.Length
    modifies buf
    ensures tail' == tail + |bytes|
    ensures buf[start..tail'] == old(buf[start..tail]) + bytes
    ensures forall i :: 0 <= i < buf.Length && !(tail <= i < tail') ==> buf[i] == old(buf[i])
  {
    tail' := tail;
    for n := 0 to |bytes|
      invariant tail' == tail + n
      invariant forall i :: 0 <= i < n ==> buf[tail + i] == bytes[i]
      invariant forall i :: 0 <= i < buf.Length && !(tail <= i < tail') ==> buf[i] == old(buf[i])
    {
      buf[tail'] := bytes[n];
      tail' := tail' + 1;
    }
  }

  /** The decoding loop has read `body[..k]` and written its meaning to `buf[start..tail]`. */
  ghost predicate Progress(buf: array<char>, start: nat, body: string, k: nat, tail: nat)
    reads buf
  {
    && k <= |body| && start <= tail <= start + k && Unread(buf, start, body, k)
    && WellEscaped(body, 0) && WellEscaped(body, k)
    && buf[start..tail] + Unescaped(body, k) == Unescaped(body, 0)
  }

  /** One iteration of the decoding loop. */
  method DecodeOne(buf: array<char>, start: nat, ghost body: string, k: nat, tail: nat) returns (k': nat, tail': nat)
    requires k < |body| && Progress(buf, start, body, k, tail)
    modifies buf
    ensures k < k' && Progress(buf, start, body, k', tail')
    ensures forall i :: 0 <= i < buf.Length && !(start <= i < start + |body|) ==> buf[i] == old(buf[i])
  {
    hide UnitLength, UnitMeaning;
    var bytes, last := DecodeUnit(buf, start, body, k);
    k' := last + 1 - start;
    ghost var done, rest := buf[start..tail], Unescaped(body, k');
    assert Unescaped(body, k) == bytes + rest && WellEscaped(body, k');
    hide Unescaped, WellEscaped;
    Concat3(done, bytes, rest);
    tail' := Emit(buf, start, tail, bytes);
  }

  /** The decoding loop: the write position `tail` never passes the read position. */
  method DecodeBody(buf: array<char>, start: nat, end: nat, ghost body: string) returns (tail: nat)
    requires start <= end <= buf.Length && body == buf[start..end] && WellEscaped(body, 0)
    modifies buf
    ensures start <= tail <= end && buf[start..tail] == Unescaped(body, 0)
    ensures forall i :: 0 <= i < buf.Length && !(start <= i < end) ==> buf[i] == old(buf[i])
  {
    hide UnitLength, UnitMeaning;
    var head := start;
    tail := start;
    assert buf[start..tail] + Unescaped(body, 0) == Unescaped(body, 0);
    while head != end
      invariant start <= head <= end && Progress(buf, start, body, head - start, tail)
      invariant forall i :: 0 <= i < buf.Length && !(start <= i < end) ==> buf[i] == old(buf[i])
    {
      var k;
      k, tail := DecodeOne(buf, start, body, head - start, tail);
      head := start + k;
    }
    assert buf[start..tail] + "" == buf[start..tail];
  }

  /**
   * `rvalue::unescape` on the body in `buf[start..end]`, whose flag is in `buf[start - 1]`.
   * Only the body and its two delimiters are written; a second call changes nothing.
   */
  method Unescape(buf: array<char>, start: nat, end: nat) returns (end': nat)
    requires 0 < start <= end < buf.Length
    requires buf[start - 1] != '\0' ==> WellEscaped(buf[start..end], 0)
    modifies buf
    ensures start <= end' <= end && buf[start - 1] == '\0'
    ensures buf[start..end'] == if old(buf[start - 1]) != '\0' then Unescaped(old(buf[start..end]), 0)
        else old(buf[start..end])
    ensures old(buf[start - 1]) == '\0' ==> end' == end && forall i :: 0 <= i < buf.Length ==> buf[i] == old(buf[i])
    ensures old(buf[start - 1]) != '\0' ==> buf[end'] == '\0'
    ensures forall i :: 0 <= i < buf.Length && !(start - 1 <= i <= end) ==> buf[i] == old(buf[i])
  {
    end' := end;
    if buf[start - 1] != '\0' {
      end' := DecodeBody(buf, start, end, buf[start..end]);
      ghost var decoded := buf[start..end'];
      buf[end'] := '\0';
      buf[start - 1] := '\0';
      assert buf[start..end'] == decoded;
    }
  }
}
