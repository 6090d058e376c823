/** What the parameter tags of a route stand for, from the text of the route to what a lookup captures. */
module RouteTags {
  import opened Prelude
  import opened Routing

  // ---------------------------------------------------------------- how a pattern is spelled

  /** The texts of a token: a character, or the tags of a parameter. */
  function Spellings(t: Token): set<string> {
    match t
    case Lit(c) => if c == '<' then {} else {[c]}
    case Par(INT) => {"<int>"}
    case Par(UINT) => {"<uint>"}
    case Par(DOUBLE) => {"<float>", "<double>"}
    case Par(STRING) => {"<str>", "<string>"}
    case Par(PATH) => {"<path>"}
    case Par(MAX) => {}
  }

  /** The tokens spell the route, piece by piece, from `i` on. */
  predicate Spells(ts: seq<Token>, url: string, i: nat)
    requires i <= |url|
    decreases |ts|
  {
    if ts == [] then i == |url|
    else exists s ::
      s in Spellings(ts[0]) && i + |s| <= |url| && OccursAt(url, i, s) && Spells(ts[1..], url, i + |s|)
  }

  lemma {:induction false} TagIsSpelled(url: string, i: nat)
    requires TagAt(url, i).Some?
    ensures var (p, n) := TagAt(url, i).value; url[i..i + n] in Spellings(Par(p))
  {
  }

  const TAGS := {"<int>", "<uint>", "<float>", "<double>", "<str>", "<string>", "<path>"}

  /** At most one tag stands at a place. */
  lemma {:induction false} OneTag(url: string, i: nat, s: string, t: string)
    requires s in TAGS && t in TAGS && OccursAt(url, i, s) && OccursAt(url, i, t)
    ensures s == t
  {
    hide OccursAt;
    OccursAtChar(url, i, s, 1);
    OccursAtChar(url, i, t, 1);
    OccursAtChar(url, i, s, 4);
    OccursAtChar(url, i, t, 4);
  }

  lemma {:induction false} SpelledIsTag(url: string, i: nat, p: Param, s: string)
    requires s in Spellings(Par(p)) && OccursAt(url, i, s)
    ensures url[i] == '<' && TagAt(url, i) == Some((p, |s|))
  {
    hide OccursAt;
    OccursAtChar(url, i, s, 0);
    forall t | t in TAGS && OccursAt(url, i, t) ensures t == s {
      OneTag(url, i, s, t);
    }
  }

  lemma {:induction false} TokensSpell(url: string, i: nat)
    requires i <= |url| && WellTagged(url, i)
    ensures Spells(Tokens(url, i), url, i)
    decreases |url| - i
  {
    hide TagAt, Spellings, Spells;
    if i < |url| {
      var t, n := FirstPiece(url, i);
      TokensSpell(url, i + n);
      SpellsNext(Tokens(url, i), url, i, url[i..i + n]);
    } else {
      NothingSpelled(url);
    }
  }

  lemma {:induction false} NothingSpelled(url: string)
    ensures Spells([], url, |url|)
  {
  }

  /** The first token of a route and how long it is. */
  lemma {:induction false} FirstPiece(url: string, i: nat) returns (t: Token, n: nat)
    requires i < |url| && WellTagged(url, i)
    ensures 0 < n && i + n <= |url| && url[i..i + n] in Spellings(t) && WellTagged(url, i + n)
    ensures Tokens(url, i) != [] && Tokens(url, i)[0] == t && Tokens(url, i)[1..] == Tokens(url, i + n)
  {
    hide TagAt, Spellings;
    if url[i] == '<' {
      t, n := Par(TagAt(url, i).value.0), TagAt(url, i).value.1;
      TagIsSpelled(url, i);
    } else {
      LitIsSpelled(url[i]);
      assert url[i..i + 1] == [url[i]];
      t, n := Lit(url[i]), 1;
    }
  }

  lemma {:induction false} LitIsSpelled(c: char)
    requires c != '<'
    ensures [c] in Spellings(Lit(c))
  {
  }

  lemma {:induction false} SpellsNext(ts: seq<Token>, url: string, i: nat, s: string)
    requires ts != [] && i + |s| <= |url| && s in Spellings(ts[0])
    requires OccursAt(url, i, s) && Spells(ts[1..], url, i + |s|)
    ensures Spells(ts, url, i)
  {
  }

  /** Only the tokens that `add` reads spell the route, so these spellings say what every tag means. */
  lemma {:induction false} OneSpelling(ts: seq<Token>, url: string, i: nat)
    requires i <= |url| && Spells(ts, url, i)
    ensures WellTagged(url, i) && Tokens(url, i) == ts
    decreases |ts|
  {
    hide TagAt, Spellings, OccursAt;
    if ts != [] {
      var s :| s in Spellings(ts[0]) && i + |s| <= |url| && OccursAt(url, i, s) && Spells(ts[1..], url, i + |s|);
      OneSpelling(ts[1..], url, i + |s|);
      SpellingNext(ts, url, i, s);
    }
  }

  lemma {:induction false} SpellingNext(ts: seq<Token>, url: string, i: nat, s: string)
    requires ts != [] && s in Spellings(ts[0]) && i + |s| <= |url| && OccursAt(url, i, s)
    requires WellTagged(url, i + |s|) && Tokens(url, i + |s|) == ts[1..]
    ensures WellTagged(url, i) && Tokens(url, i) == ts
  {
    hide TagAt, Spellings, OccursAt;
    match ts[0] {
      case Par(p) =>
        SpelledIsTag(url, i, p, s);
        TagLength(p, s);
      case Lit(c) => LitSpelling(url, i, c, s);
    }
    assert ts == [ts[0]] + ts[1..];
  }

  lemma {:induction false} TagLength(p: Param, s: string)
    requires s in Spellings(Par(p))
    ensures p != MAX && |s| >= 5
  {
  }

  lemma {:induction false} LitSpelling(url: string, i: nat, c: char, s: string)
    requires s in Spellings(Lit(c)) && OccursAt(url, i, s)
    ensures |s| == 1 && url[i] == c && c != '<'
  {
    OccursAtChar(url, i, s, 0);
  }

  // ---------------------------------------------------------------- what a tag captures

  predicate IsLiteral(p: string) { '<' !in p && '\0' !in p }

  /** What a route that is a literal text and one tag captures from the same text with a rest behind it. */
  function CapturedBy(rd: Readers, p: string, tag: string, rest: string): Option<Captures>
    requires tag in TAGS
  {
    if rest == "" then None
    else if tag == "<path>" then Some(NO_CAPTURES.(strings := [rest]))
    else if tag == "<str>" || tag == "<string>" then
      if '/' in rest then None else Some(NO_CAPTURES.(strings := [rest]))
    else if tag == "<int>" then
      var n := rd.strtoll(p + rest, |p|);
      if (IsDigit(rest[0]) || rest[0] in {'+', '-'}) && !n.outOfRange && n.consumed == |rest|
      then Some(NO_CAPTURES.(ints := [n.value])) else None
    else if tag == "<uint>" then
      var n := rd.strtoull(p + rest, |p|);
      if (IsDigit(rest[0]) || rest[0] == '+') && !n.outOfRange && n.consumed == |rest|
      then Some(NO_CAPTURES.(uints := [n.value])) else None
    else
      var n := rd.strtod(p + rest, |p|);
      if (IsDigit(rest[0]) || rest[0] in {'+', '-', '.'}) && !n.outOfRange && n.consumed == |rest|
      then Some(NO_CAPTURES.(doubles := [n.value])) else None
  }

  /** A literal text before a tag, from position `i` on. */
  function Literals(p: string, i: nat): seq<Token>
    requires i <= |p|
  {
    seq(|p| - i, k requires 0 <= k < |p| - i => Lit(p[i + k]))
  }

  lemma {:induction false} LiteralTokens(p: string, tag: string, i: nat, k: Param)
    requires IsLiteral(p) && i <= |p| && tag in Spellings(Par(k))
    ensures var url := p + tag; WellTagged(url, i) && Tokens(url, i) == Literals(p, i) + [Par(k)]
    decreases |p| - i
  {
    hide TagAt, Spellings, OccursAt;
    var url := p + tag;
    TagLength(k, tag);
    if i == |p| {
      assert OccursAt(url, i, tag) by { TagStands(p, tag); }
      SpelledIsTag(url, i, k, tag);
      assert Tokens(url, |url|) == [] && [Par(k)] + [] == [Par(k)] && Literals(p, i) == [];
    } else {
      LiteralTokens(p, tag, i + 1, k);
      assert p[i] in p && url[i] == p[i];
      assert Literals(p, i) == [Lit(p[i])] + Literals(p, i + 1);
      Concat3([Lit(p[i])], Literals(p, i + 1), [Par(k)]);
    }
  }

  lemma {:induction false} TagStands(p: string, tag: string)
    ensures OccursAt(p + tag, |p|, tag)
  {
  }

  lemma {:induction false} LiteralsMatch(rd: Readers, p: string, i: nat, k: Param, rest: string)
    requires i <= |p| && k != MAX
    ensures Match(rd, Literals(p, i) + [Par(k)], p + rest, i, NO_CAPTURES) ==
            Match(rd, [Par(k)], p + rest, |p|, NO_CAPTURES)
    decreases |p| - i
  {
    if i < |p| {
      LiteralsMatch(rd, p, i + 1, k, rest);
      var ts := Literals(p, i) + [Par(k)];
      assert ts[0] == Lit(p[i]) && ts[1..] == Literals(p, i + 1) + [Par(k)];
    } else {
      assert Literals(p, i) + [Par(k)] == [Par(k)];
    }
  }

  lemma {:induction false} SegmentIsRest(p: string, rest: string)
    ensures SegmentEnd(p + rest, |p|) == |p + rest| <==> '/' !in rest
  {
    var url := p + rest;
    var e := SegmentEnd(url, |p|);
    assert forall k :: 0 <= k < |rest| ==> url[|p| + k] == rest[k];
    if e < |url| {
      assert rest[e - |p|] == '/';
    } else {
      forall k | 0 <= k < |rest| ensures rest[k] != '/' {
        assert url[|p| + k] == rest[k];
      }
    }
  }

  lemma {:induction false} Singleton<T>(x: T)
    ensures [] + [x] == [x]
  {
  }

  /** One parameter at the end of a route. */
  lemma {:induction false} TagMatches(rd: Readers, p: string, tag: string, k: Param, rest: string)
    requires tag in TAGS && tag in Spellings(Par(k)) && k != MAX
    ensures Match(rd, [Par(k)], p + rest, |p|, NO_CAPTURES) == CapturedBy(rd, p, tag, rest)
  {
    var url := p + rest;
    if rest != "" {
      assert url[|p|] == rest[0] && url[|p|..] == rest;
      SegmentIsRest(p, rest);
      var r := Capture(rd, k, url, |p|, NO_CAPTURES);
      assert Match(rd, [Par(k)], url, |p|, NO_CAPTURES) ==
             (if r.Some? then Match(rd, [], url, r.value.0, r.value.1) else None);
      match k {
        case INT => Singleton(rd.strtoll(url, |p|).value);
        case UINT => Singleton(rd.strtoull(url, |p|).value);
        case DOUBLE => Singleton(rd.strtod(url, |p|).value);
        case STRING =>
          Singleton(rest);
          if '/' !in rest { assert url[|p|..r.value.0] == rest; }
        case PATH => Singleton(rest);
      }
    }
  }

  /** The tag at the end of a route decides what the route captures, in any trie. */
  lemma {:induction false} TaggedRoute(rd: Readers, p: string, tag: string, rule: nat, rest: string)
    requires IsLiteral(p) && tag in TAGS && rule != 0
    ensures IsEntry(Entry(p + tag, rule)) && CleanAll(RouteOf(Entry(p + tag, rule)).tokens)
    ensures Captured(rd, RouteOf(Entry(p + tag, rule)), p + rest) == CapturedBy(rd, p, tag, rest)
  {
    hide CapturedBy, IsEntry, CleanAll, TagAt;
    var k := KindOfTag(tag);
    LiteralTokens(p, tag, 0, k);
    TaggedEntry(p, tag, rule);
    EntryIsClean(Entry(p + tag, rule));
    LiteralsMatch(rd, p, 0, k, rest);
    TagMatches(rd, p, tag, k, rest);
  }

  lemma {:induction false} KindOfTag(tag: string) returns (k: Param)
    requires tag in TAGS
    ensures tag in Spellings(Par(k)) && k != MAX
  {
    k := if tag == "<int>" then INT
    else if tag == "<uint>" then UINT
    else if tag == "<float>" || tag == "<double>" then DOUBLE
    else if tag == "<str>" || tag == "<string>" then STRING
    else PATH;
  }

  lemma {:induction false} TaggedEntry(p: string, tag: string, rule: nat)
    requires IsLiteral(p) && tag in TAGS && rule != 0 && WellTagged(p + tag, 0)
    ensures IsEntry(Entry(p + tag, rule))
  {
    assert '\0' !in tag;
  }

  /** A route with one tag is added to an empty router, which is compressed and then asked. */
  method FindTagged(rd: Readers, p: string, tag: string, rule: nat, rest: string) returns (f: Found)
    requires IsLiteral(p) && tag in TAGS && rule != 0
    ensures var c := CapturedBy(rd, p, tag, rest); if c.Some? then f == Found(rule, c.value) else f.rule == 0
  {
    hide CapturedBy, Scan, Captured, IsEntry;
    TaggedRoute(rd, p, tag, rule, rest);
    var e := Entry(p + tag, rule);
    var oks, early, late := Serve(rd, [e], p + rest);
    f := late;
    OnlyRoute(rd, e, p + rest, f);
  }

  lemma {:induction false} OnlyRoute(rd: Readers, e: Entry, url: string, f: Found)
    requires IsEntry(e) && AreEntries([e]) && Accepted(Kept([e], 1)) && IsAnswer(rd, Kept([e], 1), url, f)
    ensures CleanAll(RouteOf(e).tokens)
    ensures var c := Captured(rd, RouteOf(e), url); if c.Some? then f == Found(e.rule, c.value) else f.rule == 0
  {
    hide Captured;
    EntryIsClean(e);
    assert Kept([e], 0) == [] && Kept([e], 1) == [RouteOf(e)];
    assert Scan(rd, [RouteOf(e)][1..], url) == 0;
    assert RouteOf(e) in Kept([e], 1);
  }
}
