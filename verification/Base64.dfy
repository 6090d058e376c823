/** Base64 in both alphabets, against sections 4 and 5 of RFC 4648. */
module Base64 {

  type Bytes = seq<bv8>

  const UPPER := "ABCDEFGHIJKLMNOPQRSTUVWXYZ"
  const LOWER := "abcdefghijklmnopqrstuvwxyz"
  const DIGITS := "0123456789"

  /** The alphabets of section 4 and section 5. */
  const STANDARD := UPPER + LOWER + DIGITS + "+/"
  const URL_SAFE := UPPER + LOWER + DIGITS + "-_"

  predicate IsAlphabet(table: string) { table == STANDARD || table == URL_SAFE }

  // ---------------------------------------------------------------- the standard

  /** Three bytes as a group of 24 bits. */
  function Group(b0: bv8, b1: bv8, b2: bv8): bv32 {
    (b0 as bv32 << 16) | (b1 as bv32 << 8) | b2 as bv32
  }

  /** The four groups of six bits, from the left. */
  function First(g: bv32): bv8 { ((g >> 18) & 0x3F) as bv8 }

  function Second(g: bv32): bv8 { ((g >> 12) & 0x3F) as bv8 }

  function Third(g: bv32): bv8 { ((g >> 6) & 0x3F) as bv8 }

  function Fourth(g: bv32): bv8 { (g & 0x3F) as bv8 }

  function Char(table: string, v: bv8): char
    requires |table| == 64 && v < 64
  {
    table[v as nat]
  }

  function Quad(table: string, g: bv32): (s: string)
    requires |table| == 64
    ensures |s| == 4
  {
    SextetsAreSmall(g);
    [Char(table, First(g)), Char(table, Second(g)), Char(table, Third(g)), Char(table, Fourth(g))]
  }

  lemma {:induction false} SextetsAreSmall(g: bv32)
    ensures First(g) < 64 && Second(g) < 64 && Third(g) < 64 && Fourth(g) < 64
  {
  }

  /** The characters of the first `n` whole groups. */
  function Whole(data: Bytes, table: string, n: nat): (s: string)
    requires |table| == 64 && 3 * n <= |data|
    ensures |s| == 4 * n
  {
    if n == 0 then ""
    else Whole(data, table, n - 1) + Quad(table, Group(data[3 * n - 3], data[3 * n - 2], data[3 * n - 1]))
  }

  /** The last group is filled with zero bits; characters that stand for no input are padding or left out. */
  function Tail(data: Bytes, table: string, padded: bool): string
    requires |table| == 64
  {
    var at := |data| / 3 * 3;
    if |data| % 3 == 0 then ""
    else if |data| % 3 == 1 then Quad(table, Group(data[at], 0, 0))[..2] + if padded then "==" else ""
    else Quad(table, Group(data[at], data[at + 1], 0))[..3] + if padded then "=" else ""
  }

  function Encode(data: Bytes, table: string, padded: bool): string
    requires |table| == 64
  {
    Whole(data, table, |data| / 3) + Tail(data, table, padded)
  }

  // ---------------------------------------------------------------- the encoder

  /** The masks and shifts of the encoder. */
  function High6(b0: bv8): bv8 { (b0 & 0xFC) >> 2 }

  function Low2(b0: bv8): bv8 { (b0 & 0x03) << 4 }

  function WithHigh4(h: bv8, b1: bv8): bv8 { h | ((b1 & 0xF0) >> 4) }

  function Low4(b1: bv8): bv8 { (b1 & 0x0F) << 2 }

  function WithHigh2(h: bv8, b2: bv8): bv8 { h | ((b2 & 0xC0) >> 6) }

  function Low6(b2: bv8): bv8 { b2 & 0x3F }

  /** They cut the group into its sextets, also where the group is filled with zeros. */
  lemma {:induction false} EncoderBits(b0: bv8, b1: bv8, b2: bv8)
    ensures var g := Group(b0, b1, b2);
            High6(b0) == First(g) && WithHigh4(Low2(b0), b1) == Second(g) && WithHigh2(Low4(b1), b2) == Third(g) &&
              Low6(b2) == Fourth(g)
    ensures b1 == 0 ==> Low2(b0) == Second(Group(b0, 0, 0))
    ensures b2 == 0 ==> Low4(b1) == Third(Group(b0, b1, 0))
  {
  }

  /** One round of the loop: four characters for three bytes. */
  method PutQuad(ret: array<char>, at: nat, table: string, b0: bv8, b1: bv8, b2: bv8)
    requires |table| == 64 && at + 4 <= ret.Length
    modifies ret
    ensures ret[..at + 4] == old(ret[..at]) + Quad(table, Group(b0, b1, b2))
  {
    hide First, Second, Third, Fourth, Group, Char, High6, Low2, WithHigh4, Low4, WithHigh2, Low6;
    EncoderBits(b0, b1, b2);
    SextetsAreSmall(Group(b0, b1, b2));
    ret[at] := Char(table, High6(b0));
    var h := Low2(b0);
    ret[at + 1] := Char(table, WithHigh4(h, b1));
    h := Low4(b1);
    ret[at + 2] := Char(table, WithHigh2(h, b2));
    ret[at + 3] := Char(table, Low6(b2));
  }

  method Base64Encode(data: Bytes, table: string) returns (text: string)
    requires |table| == 64
    ensures text == Encode(data, table, true)
  {
    hide Quad, Group;
    var ret := new char[(|data| + 2) / 3 * 4];
    var n := 0;
    while |data| - 3 * n >= 3
      invariant 3 * n <= |data| && 4 * n <= ret.Length && ret[..4 * n] == Whole(data, table, n)
    {
      PutQuad(ret, 4 * n, table, data[3 * n], data[3 * n + 1], data[3 * n + 2]);
      n := n + 1;
    }
    PutTail(ret, data, table, n);
    text := ret[..];
  }

  /** The last one or two bytes. */
  method PutTail(ret: array<char>, data: Bytes, table: string, n: nat)
    requires |table| == 64 && n == |data| / 3 && ret.Length == (|data| + 2) / 3 * 4
    modifies ret
    ensures ret[..] == old(ret[..4 * n]) + Tail(data, table, true)
  {
    hide Quad, Group;
    var size := |data| - 3 * n;
    if size == 1 {
      PutOne(ret, 4 * n, table, data[3 * n]);
    } else if size == 2 {
      PutTwo(ret, 4 * n, table, data[3 * n], data[3 * n + 1]);
    }
  }

  method PutOne(ret: array<char>, at: nat, table: string, b0: bv8)
    requires |table| == 64 && ret.Length == at + 4
    modifies ret
    ensures ret[..] == old(ret[..at]) + (Quad(table, Group(b0, 0, 0))[..2] + "==")
  {
    hide First, Second, Third, Fourth, Group, Char, High6, Low2, WithHigh4, Low4, WithHigh2, Low6;
    EncoderBits(b0, 0, 0);
    SextetsAreSmall(Group(b0, 0, 0));
    ret[at] := Char(table, High6(b0));
    ret[at + 1] := Char(table, Low2(b0));
    ret[at + 2] := '=';
    ret[at + 3] := '=';
  }

  method PutTwo(ret: array<char>, at: nat, table: string, b0: bv8, b1: bv8)
    requires |table| == 64 && ret.Length == at + 4
    modifies ret
    ensures ret[..] == old(ret[..at]) + (Quad(table, Group(b0, b1, 0))[..3] + "=")
  {
    hide First, Second, Third, Fourth, Group, Char, High6, Low2, WithHigh4, Low4, WithHigh2, Low6;
    EncoderBits(b0, b1, 0);
    SextetsAreSmall(Group(b0, b1, 0));
    ret[at] := Char(table, High6(b0));
    ret[at + 1] := Char(table, WithHigh4(Low2(b0), b1));
    ret[at + 2] := Char(table, Low4(b1));
    ret[at + 3] := '=';
  }

  // ---------------------------------------------------------------- the decoder

  /** The value of a character in either alphabet; zero for every other character. */
  function KeyNumber(c: char): (n: nat)
    ensures n < 64
  {
    if 'A' <= c <= 'Z' then c as nat - 'A' as nat
    else if 'a' <= c <= 'z' then c as nat - 'a' as nat + 26
    else if '0' <= c <= '9' then c as nat - '0' as nat + 52
    else if c == '+' || c == '-' then 62
    else if c == '/' || c == '_' then 63
    else 0
  }

  function Key(c: char): bv8 { KeyNumber(c) as bv8 }

  /** How many bytes the decoder makes. It looks at the last two characters, so there must be two. */
  function DecodedSize(text: string): (size: nat)
    requires |text| >= 2
    ensures (size + 2) / 3 * 4 <= |text| + 2 && (size % 3 == 1 ==> size / 3 * 4 + 2 <= |text|)
    ensures (size % 3 == 2 ==> size / 3 * 4 + 3 <= |text|) && size / 3 * 4 <= |text|
  {
    var n := |text|;
    if n % 4 == 2 then n / 4 * 3 + 1
    else if n % 4 == 3 then n / 4 * 3 + 2
    else if text[n - 2] == '=' then n / 4 * 3 - 2
    else if text[n - 1] == '=' then n / 4 * 3 - 1
    else n / 4 * 3
  }

  function Byte0(c0: char, c1: char): bv8 { (Key(c0) << 2) | ((Key(c1) & 0x30) >> 4) }

  function Byte1(c1: char, c2: char): bv8 { ((Key(c1) & 0x0F) << 4) | ((Key(c2) & 0x3C) >> 2) }

  function Byte2(c2: char, c3: char): bv8 { ((Key(c2) & 0x03) << 6) | Key(c3) }

  /** Byte `k` of the result. */
  function ByteAt(text: string, k: nat): bv8
    requires |text| >= 2 && k < DecodedSize(text)
  {
    var q := k / 3 * 4;
    if k % 3 == 0 then Byte0(text[q], text[q + 1])
    else if k % 3 == 1 then Byte1(text[q + 1], text[q + 2])
    else Byte2(text[q + 2], text[q + 3])
  }

  function Decode(text: string): (d: Bytes)
    requires |text| >= 2
    ensures |d| == DecodedSize(text)
  {
    seq(DecodedSize(text), k requires 0 <= k < DecodedSize(text) => ByteAt(text, k))
  }

  method Base64Decode(text: string) returns (data: Bytes)
    requires |text| >= 2
    ensures data == Decode(text)
  {
    hide Byte0, Byte1, Byte2;
    var size := DecodedSize(text);
    var ret := new bv8[size];
    var n := 0;
    while size - 3 * n >= 3
      invariant 3 * n <= size && forall k :: 0 <= k < 3 * n ==> ret[k] == ByteAt(text, k)
    {
      GroupBytes(text, n);
      ret[3 * n] := Byte0(text[4 * n], text[4 * n + 1]);
      ret[3 * n + 1] := Byte1(text[4 * n + 1], text[4 * n + 2]);
      ret[3 * n + 2] := Byte2(text[4 * n + 2], text[4 * n + 3]);
      n := n + 1;
    }
    GroupBytes(text, n);
    if size - 3 * n == 2 {
      ret[3 * n] := Byte0(text[4 * n], text[4 * n + 1]);
      ret[3 * n + 1] := Byte1(text[4 * n + 1], text[4 * n + 2]);
    } else if size - 3 * n == 1 {
      ret[3 * n] := Byte0(text[4 * n], text[4 * n + 1]);
    }
    data := ret[..];
  }

  lemma {:induction false} GroupBytes(text: string, n: nat)
    requires |text| >= 2
    ensures var size := DecodedSize(text);
            && (3 * n < size ==> 4 * n + 1 < |text| && ByteAt(text, 3 * n) == Byte0(text[4 * n], text[4 * n + 1]))
            && (3 * n + 1 < size ==>
                  4 * n + 2 < |text| && ByteAt(text, 3 * n + 1) == Byte1(text[4 * n + 1], text[4 * n + 2]))
            && (3 * n + 2 < size ==>
                  4 * n + 3 < |text| && ByteAt(text, 3 * n + 2) == Byte2(text[4 * n + 2], text[4 * n + 3]))
  {
    hide Byte0, Byte1, Byte2;
    assert 3 * n / 3 == n && (3 * n + 1) / 3 == n && (3 * n + 2) / 3 == n;
  }

  // ---------------------------------------------------------------- decoding undoes encoding

  lemma {:induction false} Letters(i: nat)
    requires i < 26
    ensures UPPER[i] as nat == 'A' as nat + i && LOWER[i] as nat == 'a' as nat + i
  {
  }

  lemma {:induction false} DigitsInOrder(i: nat)
    requires i < 10
    ensures DIGITS[i] as nat == '0' as nat + i
  {
  }

  lemma {:induction false} InParts(a: string, b: string, c: string, d: string, i: nat)
    requires i < |a + b + c + d|
    ensures (a + b + c + d)[i] ==
            if i < |a| then a[i]
            else if i < |a| + |b| then b[i - |a|]
            else if i < |a| + |b| + |c| then c[i - |a| - |b|]
            else d[i - |a| - |b| - |c|]
  {
  }

  lemma {:induction false} PartLengths()
    ensures |UPPER| == 26 && |LOWER| == 26 && |DIGITS| == 10
  {
  }

  lemma {:induction false} NumberOfPart(last: string, i: nat)
    requires |last| == 2 && KeyNumber(last[0]) == 62 && KeyNumber(last[1]) == 63 && '=' !in last && i < 64
    ensures var table := UPPER + LOWER + DIGITS + last; |table| == 64 && KeyNumber(table[i]) == i && table[i] != '='
  {
    hide UPPER, LOWER, DIGITS;
    PartLengths();
    InParts(UPPER, LOWER, DIGITS, last, i);
    if i < 26 {
      Letters(i);
    } else if i < 52 {
      Letters(i - 26);
    } else if i < 62 {
      DigitsInOrder(i - 52);
    }
  }

  lemma {:induction false} NumberOfChar(table: string, i: nat)
    requires IsAlphabet(table) && i < 64
    ensures |table| == 64 && KeyNumber(table[i]) == i && table[i] != '='
  {
    NumberOfPart("+/", i);
    NumberOfPart("-_", i);
  }

  lemma {:induction false} KeyOfChar(table: string, v: bv8)
    requires IsAlphabet(table) && v < 64
    ensures |table| == 64 && Key(Char(table, v)) == v && Char(table, v) != '='
  {
    NumberOfChar(table, v as nat);
    assert v as nat as bv8 == v;
  }

  /** The shifts of the decoder put the sextets together again. */
  lemma {:induction false} DecoderBits(b0: bv8, b1: bv8, b2: bv8)
    ensures var g := Group(b0, b1, b2);
            && (First(g) << 2) | ((Second(g) & 0x30) >> 4) == b0
            && ((Second(g) & 0x0F) << 4) | ((Third(g) & 0x3C) >> 2) == b1
            && ((Third(g) & 0x03) << 6) | Fourth(g) == b2
  {
  }

  lemma {:induction false} QuadDecodes(table: string, b0: bv8, b1: bv8, b2: bv8)
    requires IsAlphabet(table)
    ensures |table| == 64
    ensures var q := Quad(table, Group(b0, b1, b2));
            && Byte0(q[0], q[1]) == b0 && Byte1(q[1], q[2]) == b1 && Byte2(q[2], q[3]) == b2
            && q[1] != '=' && q[2] != '=' && q[3] != '='
  {
    hide First, Second, Third, Fourth, Group, Char, Key;
    var g := Group(b0, b1, b2);
    SextetsAreSmall(g);
    DecoderBits(b0, b1, b2);
    KeyOfChar(table, First(g));
    KeyOfChar(table, Second(g));
    KeyOfChar(table, Third(g));
    KeyOfChar(table, Fourth(g));
  }

  lemma {:induction false} WholeAt(data: Bytes, table: string, i: nat, n: nat)
    requires |table| == 64 && i < n && 3 * n <= |data|
    ensures Whole(data, table, n)[4 * i..4 * i + 4] == Quad(table, Group(data[3 * i], data[3 * i + 1], data[3 * i + 2]))
  {
    hide Quad, Group;
    if i < n - 1 {
      WholeAt(data, table, i, n - 1);
      assert Whole(data, table, n)[4 * i..4 * i + 4] == Whole(data, table, n - 1)[4 * i..4 * i + 4];
    }
  }

  /** The text of a non-empty byte string, group by group. */
  lemma {:induction false} EncodedGroup(data: Bytes, table: string, padded: bool, i: nat)
    requires IsAlphabet(table) && 3 * i < |data|
    ensures |table| == 64
    ensures var (text, left) := (Encode(data, table, padded), |data| - 3 * i);
            var b0 := data[3 * i];
            var (b1, b2) := (if left > 1 then data[3 * i + 1] else 0, if left > 2 then data[3 * i + 2] else 0);
            var q := Quad(table, Group(b0, b1, b2));
            && 4 * i + 1 < |text| && text[4 * i] == q[0] && text[4 * i + 1] == q[1]
            && (left > 1 ==> 4 * i + 2 < |text| && text[4 * i + 2] == q[2])
            && (left > 2 ==> 4 * i + 3 < |text| && text[4 * i + 3] == q[3])
  {
    hide Quad, Group;
    KeyOfChar(table, 0);
    var n := |data| / 3;
    if i < n {
      WholeAt(data, table, i, n);
      var w := Whole(data, table, n);
      var q := w[4 * i..4 * i + 4];
      assert w[4 * i] == q[0] && w[4 * i + 1] == q[1] && w[4 * i + 2] == q[2] && w[4 * i + 3] == q[3];
    }
  }

  lemma {:induction false} TextEnd(data: Bytes, table: string, padded: bool)
    requires |table| == 64
    ensures var (text, r) := (Encode(data, table, padded), |data| % 3);
            && |text| == |data| / 3 * 4 + (if r == 0 then 0 else if padded then 4 else r + 1)
            && (padded && r == 1 ==> text[|text| - 2] == '=')
            && (padded && r == 2 ==> text[|text| - 1] == '=')
  {
    hide Quad, Group, Whole;
  }

  lemma {:induction false} EncodedLength(data: Bytes, table: string, padded: bool)
    requires IsAlphabet(table) && data != []
    ensures |table| == 64 && |Encode(data, table, padded)| >= 2
    ensures DecodedSize(Encode(data, table, padded)) == |data|
  {
    hide Quad, Group, Encode;
    KeyOfChar(table, 0);
    TextEnd(data, table, padded);
    var i := (|data| - 1) / 3;
    EncodedGroup(data, table, padded, i);
    var left := |data| - 3 * i;
    QuadDecodes(table, data[3 * i], if left > 1 then data[3 * i + 1] else 0, if left > 2 then data[3 * i + 2] else 0);
  }

  /**
   * For every non-empty byte string, in both alphabets, padded or with the padding stripped, decoding undoes
   * encoding.
   */
  lemma {:induction false} DecodeUndoesEncode(data: Bytes, table: string, padded: bool)
    requires IsAlphabet(table) && data != []
    ensures |table| == 64 && |Encode(data, table, padded)| >= 2
    ensures Decode(Encode(data, table, padded)) == data
  {
    hide Quad, Group, Encode, Byte0, Byte1, Byte2, DecodedSize;
    EncodedLength(data, table, padded);
    var text := Encode(data, table, padded);
    forall k | 0 <= k < |data| ensures ByteAt(text, k) == data[k] {
      var i := k / 3;
      var left := |data| - 3 * i;
      EncodedGroup(data, table, padded, i);
      QuadDecodes(table, data[3 * i], if left > 1 then data[3 * i + 1] else 0, if left > 2 then data[3 * i + 2] else 0);
      GroupBytes(text, i);
    }
  }

  /** The empty byte string encodes to no characters at all, which the decoder may not be given. */
}
