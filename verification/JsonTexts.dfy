/** The texts that the parser accepts and their values, as a grammar (RFC 8259, sections 2 to 7). */
module JsonTexts {
  import opened Prelude
  import opened JsonStrings
  import opened JsonGrammar
  import opened JsonEscapes
  import N = JsonNumbers

  // ---------------------------------------------------------------- strings

  /** A piece of a string: a character, a single-character escape by its place in the table, or a code point. */
  datatype Unit = Plain(c: char) | Single(e: nat) | Code(digits: string, n: nat, bytes: string)

  /** Unlike the standard, raw control characters other than NUL may stand in a string. */
  predicate IsUnit(u: Unit) {
    match u
    case Plain(c) => c !in {'"', '\\', '\0'}
    case Single(e) => e < |SINGLES|
    case Code(digits, n, bytes) => Spells(digits, n) && ReadCode(bytes) == Some(n)
  }

  function UnitText(u: Unit): string
    requires IsUnit(u)
  {
    match u
    case Plain(c) => [c]
    case Single(e) => "\\" + [SINGLES[e].0]
    case Code(digits, _, _) => "\\u" + digits
  }

  function UnitBytes(u: Unit): string
    requires IsUnit(u)
  {
    match u case Plain(c) => [c] case Single(e) => [SINGLES[e].1 as char] case Code(_, _, bytes) => bytes
  }

  predicate AreUnits(us: seq<Unit>) { forall k :: 0 <= k < |us| ==> IsUnit(us[k]) }

  function BodyText(us: seq<Unit>): string
    requires AreUnits(us)
  {
    if us == [] then "" else UnitText(us[0]) + BodyText(us[1..])
  }

  function BodyBytes(us: seq<Unit>): string
    requires AreUnits(us)
  {
    if us == [] then "" else UnitBytes(us[0]) + BodyBytes(us[1..])
  }

  function StringText(us: seq<Unit>): string
    requires AreUnits(us)
  {
    "\"" + (BodyText(us) + "\"")
  }

  lemma {:induction false} UnitIsRead(t: string, k: nat, u: Unit)
    requires IsUnit(u) && OccursAt(t, k, UnitText(u))
    ensures k < |t| && t[k] != '"' && t[k] != '\0'
    ensures UnitLength(t, k) == |UnitText(u)| && UnitMeaning(t, k) == UnitBytes(u)
  {
    hide OccursAt, Spells, ReadCode, UnitLength, UnitMeaning;
    OccursAtChar(t, k, UnitText(u), 0);
    match u
    case Plain(c) => PlainUnit(t, k);
    case Single(e) =>
      OccursAtChar(t, k, UnitText(u), 1);
      SingleEscape(t, k, e);
    case Code(digits, n, bytes) =>
      SpellingLength(digits, n);
      OccursAtChar(t, k, UnitText(u), 1);
      CodeDigits(t, k, digits);
      UnicodeEscape(t, k, n);
      ReadsApart(bytes, UnitMeaning(t, k));
  }

  lemma {:induction false} PlainUnit(t: string, k: nat)
    requires k < |t| && t[k] != '\\'
    ensures UnitLength(t, k) == 1 && UnitMeaning(t, k) == [t[k]]
  {
  }

  lemma {:induction false} CodeDigits(t: string, k: nat, digits: string)
    requires |digits| == 4 && OccursAt(t, k, "\\u" + digits)
    ensures k + 6 <= |t| && t[k + 2..k + 6] == digits
  {
    var text := "\\u" + digits;
    assert t[k..k + 6][2..6] == text[2..6];
  }

  lemma {:induction false} BodyIsScanned(t: string, k: nat, us: seq<Unit>)
    requires AreUnits(us) && OccursAt(t, k, BodyText(us)) && k + |BodyText(us)| < |t| && t[k + |BodyText(us)|] == '"'
    ensures BodyEnd(t, k) == k + |BodyText(us)|
    decreases |us|
  {
    hide IsUnit, UnitText, UnitLength, UnitMeaning, UnitBytes;
    if us != [] {
      OccursAtSplit(t, k, UnitText(us[0]), BodyText(us[1..]));
      UnitIsRead(t, k, us[0]);
      UnitIsSome(us[0]);
      BodyIsScanned(t, k + |UnitText(us[0])|, us[1..]);
    }
  }

  lemma {:induction false} UnitIsSome(u: Unit)
    requires IsUnit(u)
    ensures UnitText(u) != ""
  {
  }

  lemma {:induction false} BodyIsDecoded(t: string, k: nat, us: seq<Unit>)
    requires AreUnits(us) && OccursAt(t, k, BodyText(us)) && k + |BodyText(us)| == |t|
    ensures WellEscaped(t, k) && Unescaped(t, k) == BodyBytes(us)
    decreases |us|
  {
    hide IsUnit, UnitText, UnitLength, UnitMeaning, UnitBytes;
    if us != [] {
      OccursAtSplit(t, k, UnitText(us[0]), BodyText(us[1..]));
      UnitIsRead(t, k, us[0]);
      UnitIsSome(us[0]);
      BodyIsDecoded(t, k + |UnitText(us[0])|, us[1..]);
    }
  }

  /** A string of this grammar is read as the bytes of its pieces. */
  lemma {:induction false} StringIsRead(us: seq<Unit>, rest: string)
    requires AreUnits(us)
    ensures ParseString(StringText(us) + rest) == Some((BodyBytes(us), rest))
  {
    hide BodyText, BodyBytes, AreUnits, BodyEnd, WellEscaped, Unescaped;
    var (s, body) := (StringText(us) + rest, BodyText(us));
    var t := body + "\"" + rest;
    assert s[1..] == t;
    assert t[0..|body|] == body && t[|body|] == '"' && t[|body| + 1..] == rest && t[..|body|] == body;
    BodyIsScanned(t, 0, us);
    assert body[0..|body|] == body;
    BodyIsDecoded(body, 0, us);
  }

  /** The piece that starts at a place where the scan goes on. */
  lemma {:induction false} UnitAt(s: string, k: nat) returns (u: Unit)
    requires k < |s| && s[k] != '"' && s[k] != '\0' && UnitLength(s, k) != 0
    ensures IsUnit(u) && s[k..k + UnitLength(s, k)] == UnitText(u) && UnitMeaning(s, k) == UnitBytes(u)
  {
    hide Spells, ReadCode, UnitLength, UnitMeaning;
    if s[k] != '\\' {
      u := Plain(s[k]);
      PlainUnit(s, k);
    } else {
      EscapesAreThese(s, k);
      if e :| 0 <= e < |SINGLES| && s[k + 1] == SINGLES[e].0 {
        u := Single(e);
        SingleEscape(s, k, e);
      } else {
        var h := s[k + 2..k + 6];
        var n: nat :| Spells(h, n);
        UnicodeEscape(s, k, n);
        u := Code(h, n, UnitMeaning(s, k));
        assert s[k..k + 6] == "\\u" + h;
      }
    }
  }

  lemma {:induction false} BodyHasUnits(s: string, k: nat) returns (us: seq<Unit>)
    requires k <= |s|
    ensures var e := BodyEnd(s, k);
            AreUnits(us) && s[k..e] == BodyText(us) && WellEscaped(s[..e], k) && Unescaped(s[..e], k) == BodyBytes(us)
    decreases |s| - k
  {
    hide IsUnit, UnitText, UnitLength, UnitMeaning, UnitBytes;
    var e := BodyEnd(s, k);
    BodyIsWellEscaped(s, k);
    if e == k {
      us := [];
    } else {
      var n := UnitLength(s, k);
      var u := UnitAt(s, k);
      var more := BodyHasUnits(s, k + n);
      us := [u] + more;
      assert us[1..] == more;
      assert s[k..e] == s[k..k + n] + s[k + n..e];
      SameUnit(s, k, e);
    }
  }

  lemma {:induction false} SameUnit(s: string, k: nat, e: nat)
    requires k < |s| && UnitLength(s, k) != 0 && k + UnitLength(s, k) <= e <= |s|
    ensures UnitLength(s[..e], k) == UnitLength(s, k) && UnitMeaning(s[..e], k) == UnitMeaning(s, k)
  {
    hide UnitLength, UnitMeaning;
    var n := UnitLength(s, k);
    assert s[..e][k..k + n] == s[k..k + n];
    UnitIsLocal(s, k, s[..e], k);
  }

  /** Whatever is read as a string is one of this grammar. */
  lemma {:induction false} StringHasUnits(s: string) returns (us: seq<Unit>)
    requires ParseString(s).Some?
    ensures AreUnits(us) && s == StringText(us) + ParseString(s).value.1 && ParseString(s).value.0 == BodyBytes(us)
  {
    hide BodyText, BodyBytes, AreUnits, WellEscaped, Unescaped, BodyEnd;
    var t := s[1..];
    var e := BodyEnd(t, 0);
    us := BodyHasUnits(t, 0);
    assert t[0..e] == t[..e];
    assert s == "\"" + (t[..e] + "\"") + t[e + 1..];
  }

  // ---------------------------------------------------------------- values

  predicate IsBlank(gap: string) { forall k :: 0 <= k < |gap| ==> gap[k] in {' ', '\t', '\r', '\n'} }

  /** A value as it is written, with the blanks around its punctuation. */
  datatype Tree =
    | Leaf(text: string, leaf: Json)
    | EmptyArray(gap: string)
    | Array(gap: string, items: Items)
    | EmptyRecord(gap: string)
    | Record(gap: string, pairs: Pairs)

  /** The items of a list: blanks follow each one, and blanks follow each comma. */
  datatype Items = LastItem(item: Tree, after: string) | MoreItems(item: Tree, after: string, gap: string, more: Items)

  /** A key with blanks before and after the colon, and a value. */
  datatype Pair = Pair(key: seq<Unit>, before: string, behind: string, value: Tree)

  datatype Pairs = LastPair(pair: Pair, after: string) | MorePairs(pair: Pair, after: string, gap: string, more: Pairs)

  ghost predicate IsLeaf(text: string, v: Json) {
    || (text == "null" && v == Null)
    || (text == "true" && v == Bool(true))
    || (text == "false" && v == Bool(false))
    || (N.IsNumberText(text) && v == Number(text))
    || (exists us :: AreUnits(us) && text == StringText(us) && v == Str(BodyBytes(us)))
  }

  /** Every container costs two levels of depth. */
  ghost predicate IsTree(t: Tree, depth: nat)
    decreases t
  {
    match t
    case Leaf(text, v) => IsLeaf(text, v)
    case EmptyArray(gap) => IsBlank(gap) && depth < MAX_DEPTH
    case Array(gap, items) => IsBlank(gap) && depth < MAX_DEPTH && AreItems(items, depth + 2)
    case EmptyRecord(gap) => IsBlank(gap) && depth < MAX_DEPTH
    case Record(gap, pairs) => IsBlank(gap) && depth < MAX_DEPTH && ArePairs(pairs, depth + 2)
  }

  ghost predicate AreItems(items: Items, depth: nat)
    decreases items
  {
    match items
    case LastItem(item, after) => IsTree(item, depth) && IsBlank(after)
    case MoreItems(item, after, gap, more) =>
      IsTree(item, depth) && IsBlank(after) && IsBlank(gap) && AreItems(more, depth)
  }

  ghost predicate IsPair(p: Pair, depth: nat)
    decreases p
  {
    AreUnits(p.key) && IsBlank(p.before) && IsBlank(p.behind) && IsTree(p.value, depth)
  }

  ghost predicate ArePairs(pairs: Pairs, depth: nat)
    decreases pairs
  {
    match pairs
    case LastPair(pair, after) => IsPair(pair, depth) && IsBlank(after)
    case MorePairs(pair, after, gap, more) =>
      IsPair(pair, depth) && IsBlank(after) && IsBlank(gap) && ArePairs(more, depth)
  }

  /** The text of a tree. */
  function Source(t: Tree): string
    decreases t
  {
    match t
    case Leaf(text, _) => text
    case EmptyArray(gap) => "[" + (gap + "]")
    case Array(gap, items) => "[" + (gap + ItemsSource(items))
    case EmptyRecord(gap) => "{" + (gap + "}")
    case Record(gap, pairs) => "{" + (gap + PairsSource(pairs))
  }

  /** The items with the closing bracket. */
  function ItemsSource(items: Items): string
    decreases items
  {
    match items
    case LastItem(item, after) => Source(item) + (after + "]")
    case MoreItems(item, after, gap, more) => Source(item) + (after + ("," + (gap + ItemsSource(more))))
  }

  function KeySource(key: seq<Unit>): string { if AreUnits(key) then StringText(key) else "" }

  function PairSource(p: Pair): string
    decreases p
  {
    KeySource(p.key) + (p.before + (":" + (p.behind + Source(p.value))))
  }

  /** The pairs with the closing brace. */
  function PairsSource(pairs: Pairs): string
    decreases pairs
  {
    match pairs
    case LastPair(pair, after) => PairSource(pair) + (after + "}")
    case MorePairs(pair, after, gap, more) => PairSource(pair) + (after + ("," + (gap + PairsSource(more))))
  }

  /** The value of a tree. */
  function Meant(t: Tree): Json
    decreases t
  {
    match t
    case Leaf(_, v) => v
    case EmptyArray(_) => List([])
    case Array(_, items) => List(ItemsMeant(items))
    case EmptyRecord(_) => Object([])
    case Record(_, pairs) => Object(PairsMeant(pairs))
  }

  function ItemsMeant(items: Items): seq<Json>
    decreases items
  {
    match items
    case LastItem(item, _) => [Meant(item)]
    case MoreItems(item, _, _, more) => [Meant(item)] + ItemsMeant(more)
  }

  function KeyMeant(key: seq<Unit>): string { if AreUnits(key) then BodyBytes(key) else "" }

  function PairMeant(p: Pair): (string, Json)
    decreases p
  {
    (KeyMeant(p.key), Meant(p.value))
  }

  function PairsMeant(pairs: Pairs): seq<(string, Json)>
    decreases pairs
  {
    match pairs
    case LastPair(pair, _) => [PairMeant(pair)]
    case MorePairs(pair, _, _, more) => [PairMeant(pair)] + PairsMeant(more)
  }

  // ---------------------------------------------------------------- every such text is read

  /** What follows a number must not go on like one. */
  predicate MayFollow(t: Tree, rest: string) { t.Leaf? && t.leaf.Number? ==> N.Ends(rest, 0) }

  lemma {:induction false} SkipGap(gap: string, rest: string)
    requires IsBlank(gap) && (rest != "" ==> !IsSpace(rest[0]))
    ensures SkipSpace(gap + rest) == rest
  {
    if gap == "" {
      assert gap + rest == rest;
    } else {
      assert (gap + rest)[1..] == gap[1..] + rest;
      SkipGap(gap[1..], rest);
    }
  }

  lemma {:induction false} NumberHead(text: string)
    requires N.IsNumberText(text)
    ensures text != "" && (IsDigit(text[0]) || text[0] == '-')
  {
    var p :| N.IsScanned(p) && N.Text(p) == text;
    if !p.negative {
      assert text[0] == p.whole[0];
    }
  }

  lemma {:induction false} LeafIsRead(text: string, v: Json, rest: string, depth: nat)
    requires IsLeaf(text, v) && (v.Number? ==> N.Ends(rest, 0))
    ensures text != "" && !IsSpace(text[0]) && text[0] !in {']', '}'}
    ensures ParseValue(text + rest, depth) == Some((v, rest))
  {
    hide ParseString, ParseNumber, N.IsNumberText, StringText, BodyBytes, AreUnits;
    var s := text + rest;
    if N.IsNumberText(text) && v == Number(text) {
      NumberHead(text);
      assert s[..|text|] == text && s[|text|..] == rest;
      EndsBehind(text, rest);
      N.NumberExactly(s, |text|);
    } else if us :| AreUnits(us) && text == StringText(us) && v == Str(BodyBytes(us)) {
      StringHead(us);
      StringIsRead(us, rest);
    } else {
      assert text <= s && s[|text|..] == rest;
    }
  }

  lemma {:induction false} StringHead(us: seq<Unit>)
    requires AreUnits(us)
    ensures StringText(us) != "" && StringText(us)[0] == '"'
  {
  }

  lemma {:induction false} EndsBehind(text: string, rest: string)
    requires N.Ends(rest, 0)
    ensures N.Ends(text + rest, |text|)
  {
  }

  lemma {:induction false} TreeHead(t: Tree, depth: nat)
    requires IsTree(t, depth)
    ensures Source(t) != "" && !IsSpace(Source(t)[0]) && Source(t)[0] !in {']', '}'}
  {
    hide ParseValue, IsLeaf;
    if t.Leaf? {
      LeafIsRead(t.text, t.leaf, "", depth);
    }
  }

  /** A tree is read as its value, up to the text that follows. */
  lemma {:induction false} TreeIsRead(t: Tree, rest: string, depth: nat)
    requires IsTree(t, depth) && MayFollow(t, rest)
    ensures ParseValue(Source(t) + rest, depth) == Some((Meant(t), rest))
    decreases t, 1
  {
    hide IsLeaf, N.Ends, ParseList, ParseObject;
    match t
    case Leaf(text, v) => LeafIsRead(text, v, rest, depth);
    case EmptyArray(_) => ArrayIsRead(t, rest, depth);
    case EmptyRecord(_) => RecordIsRead(t, rest, depth);
    case Array(_, _) => ArrayIsRead(t, rest, depth);
    case Record(_, _) => RecordIsRead(t, rest, depth);
  }

  lemma {:induction false} ArrayIsRead(t: Tree, rest: string, depth: nat)
    requires IsTree(t, depth) && (t.EmptyArray? || t.Array?)
    ensures Peek(Source(t) + rest) == '[' && ParseList(Source(t) + rest, depth + 1) == Some((Meant(t), rest))
    decreases t, 0
  {
    hide SkipSpace;
    var s := Source(t) + rest;
    if t.Array? {
      ItemsHead(t.items, depth + 2);
      SkipGap(t.gap, ItemsSource(t.items) + rest);
      assert s[1..] == t.gap + (ItemsSource(t.items) + rest);
      ItemsAreRead(t.items, rest, depth + 1);
    } else {
      SkipGap(t.gap, "]" + rest);
      assert s[1..] == t.gap + ("]" + rest);
    }
  }

  lemma {:induction false} RecordIsRead(t: Tree, rest: string, depth: nat)
    requires IsTree(t, depth) && (t.EmptyRecord? || t.Record?)
    ensures Peek(Source(t) + rest) == '{' && ParseObject(Source(t) + rest, depth + 1) == Some((Meant(t), rest))
    decreases t, 0
  {
    hide SkipSpace;
    var s := Source(t) + rest;
    if t.Record? {
      PairsHead(t.pairs, depth + 2);
      SkipGap(t.gap, PairsSource(t.pairs) + rest);
      assert s[1..] == t.gap + (PairsSource(t.pairs) + rest);
      PairsAreRead(t.pairs, rest, depth + 1);
    } else {
      SkipGap(t.gap, "}" + rest);
      assert s[1..] == t.gap + ("}" + rest);
    }
  }

  lemma {:induction false} ItemsHead(items: Items, depth: nat)
    requires AreItems(items, depth)
    ensures ItemsSource(items) != "" && !IsSpace(ItemsSource(items)[0]) && ItemsSource(items)[0] != ']'
  {
    TreeHead(items.item, depth);
  }

  lemma {:induction false} PairsHead(pairs: Pairs, depth: nat)
    requires ArePairs(pairs, depth)
    ensures PairsSource(pairs) != "" && PairsSource(pairs)[0] == '"'
  {
    StringHead(pairs.pair.key);
  }

  /** What follows an element: blanks, then a comma and blanks, or the closing bracket. */
  lemma {:induction false} AfterIsRead<T>(v: T, after: string, rest: string, close: char)
    requires IsBlank(after) && close in {']', '}'}
    ensures AfterElement((v, after + ([close] + rest)), close) == Some((v, false, rest))
  {
    SkipGap(after, [close] + rest);
    assert ([close] + rest)[1..] == rest;
  }

  lemma {:induction false} CommaIsRead<T>(v: T, after: string, gap: string, rest: string, close: char)
    requires IsBlank(after) && IsBlank(gap) && close in {']', '}'} && (rest != "" ==> !IsSpace(rest[0]))
    ensures AfterElement((v, after + ("," + (gap + rest))), close) == Some((v, true, rest))
  {
    SkipGap(after, "," + (gap + rest));
    assert ("," + (gap + rest))[1..] == gap + rest;
    SkipGap(gap, rest);
  }

  /** A blank, a comma or a bracket ends a number. */
  lemma {:induction false} PunctuationEnds(after: string, rest: string)
    requires IsBlank(after) && rest != "" && rest[0] in {',', ']', '}'}
    ensures N.Ends(after + rest, 0)
  {
    assert (after + rest)[0] == if after == "" then rest[0] else after[0];
  }

  lemma {:induction false} ItemsAreRead(items: Items, rest: string, depth: nat)
    requires AreItems(items, depth + 1)
    ensures ParseItems(ItemsSource(items) + rest, depth) == Some((ItemsMeant(items), rest))
    decreases items, 0
  {
    hide SkipSpace, AfterElement, N.Ends, Source, Meant, ParseValue;
    var s := ItemsSource(items) + rest;
    match items
    case LastItem(item, after) =>
      PunctuationEnds(after, "]" + rest);
      assert s == Source(item) + (after + ("]" + rest));
      TreeIsRead(item, after + ("]" + rest), depth + 1);
      AfterIsRead(Meant(item), after, rest, ']');
    case MoreItems(item, after, gap, more) =>
      var behind := ItemsSource(more) + rest;
      PunctuationEnds(after, "," + (gap + behind));
      assert s == Source(item) + (after + ("," + (gap + behind)));
      TreeIsRead(item, after + ("," + (gap + behind)), depth + 1);
      ItemsHead(more, depth + 1);
      CommaIsRead(Meant(item), after, gap, behind, ']');
      ItemsAreRead(more, rest, depth);
  }

  lemma {:induction false} PairIsRead(p: Pair, rest: string, depth: nat)
    requires IsPair(p, depth + 1) && MayFollow(p.value, rest)
    ensures ParsePair(PairSource(p) + rest, depth) == Some((PairMeant(p), rest))
    decreases p
  {
    hide SkipSpace, ParseString, Source, Meant, ParseValue, StringText, BodyBytes;
    var value := Source(p.value) + rest;
    var colon := ":" + (p.behind + value);
    assert PairSource(p) + rest == KeySource(p.key) + (p.before + colon);
    StringIsRead(p.key, p.before + colon);
    SkipGap(p.before, colon);
    assert colon[1..] == p.behind + value;
    TreeHead(p.value, depth + 1);
    SkipGap(p.behind, value);
    TreeIsRead(p.value, rest, depth + 1);
  }

  lemma {:induction false} PairsAreRead(pairs: Pairs, rest: string, depth: nat)
    requires ArePairs(pairs, depth + 1)
    ensures ParseFields(PairsSource(pairs) + rest, depth) == Some((PairsMeant(pairs), rest))
    decreases pairs, 0
  {
    hide SkipSpace, AfterElement, N.Ends, PairSource, PairMeant, ParsePair, IsPair;
    var s := PairsSource(pairs) + rest;
    match pairs
    case LastPair(pair, after) =>
      PunctuationEnds(after, "}" + rest);
      assert s == PairSource(pair) + (after + ("}" + rest));
      PairIsRead(pair, after + ("}" + rest), depth);
      AfterIsRead(PairMeant(pair), after, rest, '}');
    case MorePairs(pair, after, gap, more) =>
      var behind := PairsSource(more) + rest;
      PunctuationEnds(after, "," + (gap + behind));
      assert s == PairSource(pair) + (after + ("," + (gap + behind)));
      PairIsRead(pair, after + ("," + (gap + behind)), depth);
      PairsHead(more, depth + 1);
      CommaIsRead(PairMeant(pair), after, gap, behind, '}');
      PairsAreRead(more, rest, depth);
  }

  // ---------------------------------------------------------------- nothing else is read

  lemma {:induction false} GapGrows(c: char, gap: string)
    requires IsSpace(c) && IsBlank(gap)
    ensures IsBlank([c] + gap)
  {
  }

  lemma {:induction false} GapOf(s: string) returns (gap: string)
    ensures IsBlank(gap) && s == gap + SkipSpace(s)
  {
    hide IsBlank;
    if s != "" && IsSpace(s[0]) {
      var more := GapOf(s[1..]);
      gap := [s[0]] + more;
      GapGrows(s[0], more);
      Concat3([s[0]], more, SkipSpace(s));
      assert s == [s[0]] + s[1..];
    } else {
      gap := "";
      NoGap();
    }
  }

  lemma {:induction false} NoGap()
    ensures IsBlank("")
  {
  }

  lemma {:induction false} ScalarHasLeaf(s: string) returns (t: Tree)
    requires ParseScalar(s).Some?
    ensures t.Leaf? && IsLeaf(t.text, t.leaf) && ParseScalar(s).value.0 == t.leaf
    ensures s == t.text + ParseScalar(s).value.1 && MayFollow(t, ParseScalar(s).value.1)
  {
    hide ParseString, ParseNumber, N.IsNumberText, StringText, BodyBytes, AreUnits;
    var (v, rest) := ParseScalar(s).value;
    match Peek(s) {
      case '"' =>
        var us := StringHasUnits(s);
        t := Leaf(StringText(us), v);
      case 't' => t := Leaf("true", v);
      case 'f' => t := Leaf("false", v);
      case 'n' => t := Leaf("null", v);
      case _ =>
        var n := NumberHasText(s);
        t := Leaf(s[..n], v);
    }
  }

  lemma {:induction false} NumberHasText(s: string) returns (n: nat)
    requires ParseNumber(s).Some?
    ensures n <= |s| && ParseNumber(s) == Some((Number(s[..n]), s[n..]))
    ensures N.IsNumberText(s[..n]) && N.Ends(s[n..], 0)
  {
    n := NumberEnd(s, 0, MINUS).value;
    N.NumberExactly(s, n);
    EndsHere(s, n);
  }

  lemma {:induction false} EndsHere(s: string, n: nat)
    requires N.Ends(s, n)
    ensures N.Ends(s[n..], 0)
  {
  }

  /** Whatever is read as a value is a tree of this grammar. */
  lemma {:induction false} ValueHasTree(s: string, depth: nat) returns (t: Tree)
    requires ParseValue(s, depth).Some?
    ensures var (v, rest) := ParseValue(s, depth).value;
            IsTree(t, depth) && s == Source(t) + rest && Meant(t) == v && MayFollow(t, rest)
    decreases |s|, 2
  {
    hide IsLeaf, ParseScalar, ParseList, ParseObject, N.Ends;
    if Peek(s) == '[' {
      t := ListHasTree(s, depth);
    } else if Peek(s) == '{' {
      t := RecordHasTree(s, depth);
    } else {
      t := ScalarHasLeaf(s);
    }
  }

  lemma {:induction false} ListHasTree(s: string, depth: nat) returns (t: Tree)
    requires Peek(s) == '[' && ParseList(s, depth + 1).Some?
    ensures var (v, rest) := ParseList(s, depth + 1).value;
            !t.Leaf? && IsTree(t, depth) && s == Source(t) + rest && Meant(t) == v
    decreases |s|, 1
  {
    hide SkipSpace, ParseItems, AreItems, ItemsSource, ItemsMeant;
    var rest := ParseList(s, depth + 1).value.1;
    var s1 := SkipSpace(s[1..]);
    var gap := GapOf(s[1..]);
    assert s == "[" + (gap + s1);
    if Peek(s1) == ']' {
      t := EmptyArray(gap);
      assert s1 == "]" + rest;
      Regroup("[", gap, "]", rest);
    } else {
      var items := ItemsHaveTrees(s1, depth + 1);
      t := Array(gap, items);
      Regroup("[", gap, ItemsSource(items), rest);
    }
  }

  lemma {:induction false} Regroup(a: string, b: string, c: string, d: string)
    ensures a + (b + (c + d)) == a + (b + c) + d
  {
  }

  lemma {:induction false} RecordHasTree(s: string, depth: nat) returns (t: Tree)
    requires Peek(s) == '{' && ParseObject(s, depth + 1).Some?
    ensures var (v, rest) := ParseObject(s, depth + 1).value;
            !t.Leaf? && IsTree(t, depth) && s == Source(t) + rest && Meant(t) == v
    decreases |s|, 1
  {
    hide SkipSpace, ParseFields, ArePairs, PairsSource, PairsMeant;
    var rest := ParseObject(s, depth + 1).value.1;
    var s1 := SkipSpace(s[1..]);
    var gap := GapOf(s[1..]);
    assert s == "{" + (gap + s1);
    if Peek(s1) == '}' {
      t := EmptyRecord(gap);
      assert s1 == "}" + rest;
      Regroup("{", gap, "}", rest);
    } else {
      var pairs := PairsHaveTrees(s1, depth + 1);
      t := Record(gap, pairs);
      Regroup("{", gap, PairsSource(pairs), rest);
    }
  }

  /** The punctuation behind an element. */
  lemma {:induction false} AfterHasGaps<T>(v: T, s: string, close: char) returns (after: string, gap: string)
    requires AfterElement((v, s), close).Some? && close != '\0'
    ensures var (w, more, rest) := AfterElement((v, s), close).value;
            && w == v && IsBlank(after) && IsBlank(gap)
            && s == after + (if more then "," + (gap + rest) else [close] + rest)
  {
    after := GapOf(s);
    var s1 := SkipSpace(s);
    gap := "";
    if s1[0] != close {
      gap := GapOf(s1[1..]);
      assert s1 == "," + s1[1..];
    } else {
      assert s1 == [close] + s1[1..];
    }
  }

  lemma {:induction false} ItemsHaveTrees(s: string, depth: nat) returns (items: Items)
    requires ParseItems(s, depth).Some?
    ensures var (vs, rest) := ParseItems(s, depth).value;
            AreItems(items, depth + 1) && s == ItemsSource(items) + rest && ItemsMeant(items) == vs
    decreases |s|, 4
  {
    hide SkipSpace, AfterElement, ParseValue, IsTree, Source, Meant, MayFollow;
    var (v, behind) := ParseValue(s, depth + 1).value;
    var item := ValueHasTree(s, depth + 1);
    var (_, more, next) := ParseItem(s, depth).value;
    var after, gap := AfterHasGaps(v, behind, ']');
    if more {
      var others := ItemsHaveTrees(next, depth);
      items := MoreItems(item, after, gap, others);
      var rest := ParseItems(s, depth).value.1;
      assert s == Source(item) + (after + ("," + (gap + (ItemsSource(others) + rest))));
    } else {
      items := LastItem(item, after);
      assert s == Source(item) + (after + ("]" + next));
    }
  }

  lemma {:induction false} PairHasTree(s: string, depth: nat) returns (p: Pair)
    requires ParsePair(s, depth).Some?
    ensures var (f, rest) := ParsePair(s, depth).value;
            IsPair(p, depth + 1) && s == PairSource(p) + rest && PairMeant(p) == f
    decreases |s|, 3
  {
    hide SkipSpace, ParseString, ParseValue, IsTree, Source, Meant, MayFollow, StringText, BodyBytes;
    var key := StringHasUnits(s);
    var behind := ParseString(s).value.1;
    var before := GapOf(behind);
    var s1 := SkipSpace(behind);
    var gap := GapOf(s1[1..]);
    var value := ValueHasTree(SkipSpace(s1[1..]), depth + 1);
    p := Pair(key, before, gap, value);
    var rest := ParsePair(s, depth).value.1;
    assert s1 == ":" + s1[1..];
    assert s == StringText(key) + (before + (":" + (gap + (Source(value) + rest))));
  }

  lemma {:induction false} PairsHaveTrees(s: string, depth: nat) returns (pairs: Pairs)
    requires ParseFields(s, depth).Some?
    ensures var (fs, rest) := ParseFields(s, depth).value;
            ArePairs(pairs, depth + 1) && s == PairsSource(pairs) + rest && PairsMeant(pairs) == fs
    decreases |s|, 5
  {
    hide SkipSpace, AfterElement, ParsePair, IsPair, PairSource, PairMeant;
    var (f, behind) := ParsePair(s, depth).value;
    var pair := PairHasTree(s, depth);
    var (_, more, next) := ParseField(s, depth).value;
    var after, gap := AfterHasGaps(f, behind, '}');
    if more {
      var others := PairsHaveTrees(next, depth);
      pairs := MorePairs(pair, after, gap, others);
      var rest := ParseFields(s, depth).value.1;
      assert s == PairSource(pair) + (after + ("," + (gap + (PairsSource(others) + rest))));
    } else {
      pairs := LastPair(pair, after);
      assert s == PairSource(pair) + (after + ("}" + next));
    }
  }

  // ---------------------------------------------------------------- documents

  /** A tree between blanks; reading stops at the end of the text or at a NUL, whatever follows that. */
  ghost predicate IsText(s: string, t: Tree, lead: string, trail: string, ignored: string) {
    && IsBlank(lead) && IsBlank(trail) && IsTree(t, 0) && (ignored != "" ==> ignored[0] == '\0')
    && s == lead + (Source(t) + (trail + ignored))
  }

  ghost predicate IsDocument(s: string, v: Json) {
    exists t, lead, trail, ignored :: IsText(s, t, lead, trail, ignored) && v == Meant(t)
  }

  /**
   * A text is loaded as a value exactly if it is a text of this grammar with that value: the grammar of RFC 8259 but
   * for numbers, raw control characters in strings, the limit on nesting and what follows a NUL.
   */
  lemma {:induction false} LoadsExactly(s: string, v: Json)
    ensures ParseDocument(s) == Some(v) <==> IsDocument(s, v)
  {
    hide SkipSpace, ParseValue, IsTree, Source, Meant;
    if ParseDocument(s) == Some(v) {
      var s1 := SkipSpace(s);
      var lead := GapOf(s);
      var t := ValueHasTree(s1, 0);
      var rest := ParseValue(s1, 0).value.1;
      var trail := GapOf(rest);
      assert IsText(s, t, lead, trail, SkipSpace(rest));
    }
    if IsDocument(s, v) {
      var t, lead, trail, ignored :| IsText(s, t, lead, trail, ignored) && v == Meant(t);
      TreeHead(t, 0);
      SkipGap(lead, Source(t) + (trail + ignored));
      EndOfText(t, trail, ignored);
      TreeIsRead(t, trail + ignored, 0);
      SkipGap(trail, ignored);
    }
  }

  lemma {:induction false} EndOfText(t: Tree, trail: string, ignored: string)
    requires IsBlank(trail) && (ignored != "" ==> ignored[0] == '\0')
    ensures MayFollow(t, trail + ignored)
  {
    var rest := trail + ignored;
    if rest != "" {
      assert rest[0] == if trail == "" then ignored[0] else trail[0];
    }
  }
}
