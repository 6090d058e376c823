/** The routing trie of Crow: built by `Add`, path-compressed by `Optimize`, searched by `Find`. */
module Routing {
  import opened Prelude

  /** MAX marks a node without a parameter; such a node matches its key literally. */
  datatype Param = INT | UINT | DOUBLE | STRING | PATH | MAX

  /** A trie node. Rule index 0 means that no route ends here. */
  datatype Node = Node(rule: nat, key: string, param: Param, children: seq<Node>)

  const EMPTY_HEAD := Node(0, "", MAX, [])

  /** The captured parameters, one list per kind. */
  datatype Captures = Captures(ints: seq<int>, uints: seq<int>, doubles: seq<real>, strings: seq<string>)

  const NO_CAPTURES := Captures([], [], [], [])

  /** What `find` returns: the best rule index (0 if none) and its captures. */
  datatype Found = Found(rule: nat, captures: Captures)

  /** One run of strtoll, strtoull or strtod: characters consumed, value, and whether errno is ERANGE. */
  datatype Reading<V> = Reading(consumed: nat, value: V, outOfRange: bool)

  type IntReader = f: (string, nat) -> Reading<int> |
    forall s: string, p: nat :: p <= |s| ==> p + f(s, p).consumed <= |s| witness (s, p) => Reading(0, 0, false)

  type RealReader = f: (string, nat) -> Reading<real> |
    forall s: string, p: nat :: p <= |s| ==> p + f(s, p).consumed <= |s| witness (s, p) => Reading(0, 0.0, false)

  /** The C library's number readers, which are outside this model. */
  datatype Readers = Readers(strtoll: IntReader, strtoull: IntReader, strtod: RealReader)

  /** The end of the path segment that starts at `p`. */
  function SegmentEnd(url: string, p: nat): (e: nat)
    requires p <= |url|
    ensures p <= e <= |url|
    ensures forall i :: p <= i < e ==> url[i] != '/'
    ensures e < |url| ==> url[e] == '/'
    decreases |url| - p
  {
    if p == |url| || url[p] == '/' then p else SegmentEnd(url, p + 1)
  }

  /** What a single parameter of kind `p` captures at `pos`: the position after it and the new captures. */
  function Capture(rd: Readers, p: Param, url: string, pos: nat, ps: Captures): (r: Option<(nat, Captures)>)
    requires pos < |url| && p != MAX
    ensures r.Some? ==> pos < r.value.0 <= |url|
  {
    var c := url[pos];
    match p
    case INT =>
      var n := rd.strtoll(url, pos);
      if (IsDigit(c) || c == '+' || c == '-') && !n.outOfRange && n.consumed != 0
      then Some((pos + n.consumed, ps.(ints := ps.ints + [n.value]))) else None
    case UINT =>
      var n := rd.strtoull(url, pos);
      if (IsDigit(c) || c == '+') && !n.outOfRange && n.consumed != 0
      then Some((pos + n.consumed, ps.(uints := ps.uints + [n.value]))) else None
    case DOUBLE =>
      var n := rd.strtod(url, pos);
      if (IsDigit(c) || c == '+' || c == '-' || c == '.') && !n.outOfRange && n.consumed != 0
      then Some((pos + n.consumed, ps.(doubles := ps.doubles + [n.value]))) else None
    case STRING =>
      var e := SegmentEnd(url, pos);
      if e != pos then Some((e, ps.(strings := ps.strings + [url[pos..e]]))) else None
    case PATH =>
      Some((|url|, ps.(strings := ps.strings + [url[pos..]])))
  }

  // ---------------------------------------------------------------- routes

  /** A route pattern is a list of literal characters and parameters. */
  datatype Token = Lit(c: char) | Par(p: Param)

  datatype Route = Route(tokens: seq<Token>, rule: nat)

  /** The parameter tag that starts at `i`, with its length. */
  function TagAt(url: string, i: nat): (r: Option<(Param, nat)>)
    ensures r.Some? ==> r.value.0 != MAX && 0 < r.value.1 && i + r.value.1 <= |url|
  {
    if OccursAt(url, i, "<int>") then Some((INT, 5))
    else if OccursAt(url, i, "<uint>") then Some((UINT, 6))
    else if OccursAt(url, i, "<float>") then Some((DOUBLE, 7))
    else if OccursAt(url, i, "<double>") then Some((DOUBLE, 8))
    else if OccursAt(url, i, "<str>") then Some((STRING, 5))
    else if OccursAt(url, i, "<string>") then Some((STRING, 8))
    else if OccursAt(url, i, "<path>") then Some((PATH, 6))
    else None
  }

  /** Every '<' the scanner meets opens a known tag; `add` does not terminate otherwise. */
  predicate WellTagged(url: string, i: nat)
    requires i <= |url|
    decreases |url| - i
  {
    if i == |url| then true
    else if url[i] == '<' then TagAt(url, i).Some? && WellTagged(url, i + TagAt(url, i).value.1)
    else WellTagged(url, i + 1)
  }

  function Tokens(url: string, i: nat): (ts: seq<Token>)
    requires i <= |url| && WellTagged(url, i)
    ensures forall t :: t in ts ==> (t.Par? ==> t.p != MAX) && (t.Lit? ==> t.c in url)
    decreases |url| - i
  {
    if i == |url| then []
    else if url[i] == '<' then
      var (p, n) := TagAt(url, i).value;
      [Par(p)] + Tokens(url, i + n)
    else [Lit(url[i])] + Tokens(url, i + 1)
  }

  /** The captures of a pattern that consumes `url[pos..]` entirely, token by token. */
  function Match(rd: Readers, ts: seq<Token>, url: string, pos: nat, ps: Captures): Option<Captures>
    requires pos <= |url| && forall t :: t in ts && t.Par? ==> t.p != MAX
  {
    if ts == [] then (if pos == |url| then Some(ps) else None)
    else if pos == |url| then None
    else match ts[0]
      case Lit(c) => if url[pos] == c then Match(rd, ts[1..], url, pos + 1, ps) else None
      case Par(p) =>
        var r := Capture(rd, p, url, pos, ps);
        if r.Some? then Match(rd, ts[1..], url, r.value.0, r.value.1) else None
  }

  // ---------------------------------------------------------------- searching

  /** Steps from a node's parent into the node, at `pos`. */
  function Enter(rd: Readers, n: Node, url: string, pos: nat, ps: Captures): (r: Option<(nat, Captures)>)
    requires pos < |url|
    ensures r.Some? ==> pos <= r.value.0 <= |url|
  {
    if n.param != MAX then Capture(rd, n.param, url, pos, ps)
    else if OccursAt(url, pos, n.key) then Some((pos + |n.key|, ps))
    else None
  }

  /** `update_found`: the first of the smallest non-zero rule indices wins. */
  function Better(found: Found, ret: Found): Found {
    if ret.rule != 0 && (found.rule == 0 || found.rule > ret.rule) then ret else found
  }

  function Search(rd: Readers, n: Node, url: string, pos: nat, ps: Captures): Found
    requires pos <= |url|
    decreases n, 1
  {
    if pos == |url| then Found(n.rule, ps)
    else SearchAll(rd, n.children, url, pos, ps, Found(0, NO_CAPTURES))
  }

  /** The outcome of entering a child and searching below it, if that finds a rule. */
  function Visit(rd: Readers, n: Node, url: string, pos: nat, ps: Captures): (r: Option<Found>)
    requires pos < |url|
    ensures r.Some? ==> r.value.rule != 0
    decreases n, 2
  {
    var e := Enter(rd, n, url, pos, ps);
    if e.None? then None else
      var f := Search(rd, n, url, e.value.0, e.value.1);
      if f.rule == 0 then None else Some(f)
  }

  function SearchAll(rd: Readers, cs: seq<Node>, url: string, pos: nat, ps: Captures, acc: Found): Found
    requires pos < |url|
    decreases cs, 0
  {
    if cs == [] then acc
    else
      var v := Visit(rd, cs[0], url, pos, ps);
      SearchAll(rd, cs[1..], url, pos, ps, if v.Some? then Better(acc, v.value) else acc)
  }

  // ---------------------------------------------------------------- inserting

  /** `key[0]`, which is NUL for an empty key. */
  function KeyHead(n: Node): char { if n.key == "" then '\0' else n.key[0] }

  predicate Fits(n: Node, t: Token) {
    match t
    case Lit(c) => KeyHead(n) == c
    case Par(p) => n.param == p
  }

  /** The first child that a token steps into, or the number of children. */
  function FirstFit(cs: seq<Node>, t: Token): (k: nat)
    ensures k <= |cs|
    ensures k < |cs| ==> Fits(cs[k], t)
    ensures forall i :: 0 <= i < k ==> !Fits(cs[i], t)
  {
    if cs == [] || Fits(cs[0], t) then 0 else 1 + FirstFit(cs[1..], t)
  }

  function NewNode(t: Token): Node {
    match t
    case Lit(c) => Node(0, [c], MAX, [])
    case Par(p) => Node(0, "", p, [])
  }

  /** The trie with `rule` stored at the end of the path `ts`. */
  function Insert(n: Node, ts: seq<Token>, rule: nat): Node
    decreases |ts|
  {
    if ts == [] then n.(rule := rule)
    else
      var k := FirstFit(n.children, ts[0]);
      if k < |n.children| then n.(children := n.children[k := Insert(n.children[k], ts[1..], rule)])
      else n.(children := n.children + [Insert(NewNode(ts[0]), ts[1..], rule)])
  }

  /** The rule index stored at the end of the path `ts`, 0 if there is none. */
  function RuleAt(n: Node, ts: seq<Token>): nat
    decreases |ts|
  {
    if ts == [] then n.rule
    else
      var k := FirstFit(n.children, ts[0]);
      if k < |n.children| then RuleAt(n.children[k], ts[1..]) else 0
  }

  /** A token that a C-string route can hold. */
  predicate Clean(t: Token) { t != Lit('\0') && t != Par(MAX) }

  predicate CleanAll(ts: seq<Token>) { forall t :: t in ts ==> Clean(t) }

  predicate Labels(n: Node, t: Token) {
    match t
    case Lit(c) => n.param == MAX && n.key == [c]
    case Par(p) => n.param == p && n.key == ""
  }

  function TokenOf(n: Node): Token {
    if n.param != MAX || n.key == "" then Par(n.param) else Lit(n.key[0])
  }

  /** The shape `Add` keeps: one clean token per child, no two children with the same token. */
  predicate Plain(n: Node)
    decreases n
  {
    && (forall i :: 0 <= i < |n.children| ==>
          Labels(n.children[i], TokenOf(n.children[i])) && Clean(TokenOf(n.children[i])) && Plain(n.children[i]))
    && (forall i, j :: 0 <= i < j < |n.children| ==> TokenOf(n.children[i]) != TokenOf(n.children[j]))
  }

  // ---------------------------------------------------------------- compressing

  function Size(n: Node): (s: nat)
    ensures s > 0
    decreases n, 1
  {
    1 + SizeAll(n.children)
  }

  function SizeAll(cs: seq<Node>): nat
    decreases cs, 0
  {
    if cs == [] then 0 else Size(cs[0]) + SizeAll(cs[1..])
  }

  predicate IsSimpleNode(n: Node) {
    n.rule == 0 && |n.children| < 2 && n.param == MAX && forall c :: c in n.children ==> c.param == MAX
  }

  function Merge(n: Node): (m: Node)
    requires n.children != []
    ensures Size(m) < Size(n)
  {
    var c := n.children[0];
    assert SizeAll(n.children) == Size(c) + SizeAll(n.children[1..]);
    assert Size(c) == 1 + SizeAll(c.children);
    n.(key := n.key + c.key, rule := c.rule, children := c.children)
  }

  function Optimized(n: Node): Node
    decreases Size(n), 0
  {
    if n.children == [] then n
    else if IsSimpleNode(n) then Optimized(Merge(n))
    else n.(children := OptimizedAll(n.children))
  }

  function OptimizedAll(cs: seq<Node>): (r: seq<Node>)
    ensures |r| == |cs|
    decreases SizeAll(cs), 1
  {
    if cs == [] then [] else [Optimized(cs[0])] + OptimizedAll(cs[1..])
  }

  /** Every literal node below has a non-empty key. */
  predicate Keyed(n: Node)
    decreases n
  {
    forall i :: 0 <= i < |n.children| ==>
      (n.children[i].param == MAX ==> n.children[i].key != "") && Keyed(n.children[i])
  }

  /** No node of the subtree is simple and has children. */
  predicate Compressed(n: Node)
    decreases n
  {
    !(IsSimpleNode(n) && n.children != []) && forall i :: 0 <= i < |n.children| ==> Compressed(n.children[i])
  }

  // ---------------------------------------------------------------- cursor paths

  /** A position below a node: the child index taken at each level, the model of the `idx` pointer. */
  predicate OnPath(n: Node, path: seq<nat>)
    decreases |path|
  {
    path == [] || (path[0] < |n.children| && OnPath(n.children[path[0]], path[1..]))
  }

  function NodeAt(n: Node, path: seq<nat>): Node
    requires OnPath(n, path)
    decreases |path|
  {
    if path == [] then n else NodeAt(n.children[path[0]], path[1..])
  }

  /** The tree after the node at `path` is overwritten by `m`. */
  function Graft(n: Node, path: seq<nat>, m: Node): Node
    requires OnPath(n, path)
    decreases |path|
  {
    if path == [] then m
    else n.(children := n.children[path[0] := Graft(n.children[path[0]], path[1..], m)])
  }

  lemma {:induction false} GraftFacts(n: Node, path: seq<nat>, m: Node)
    requires OnPath(n, path)
    ensures OnPath(Graft(n, path, m), path)
    ensures NodeAt(Graft(n, path, m), path) == m
    ensures Graft(n, path, NodeAt(n, path)) == n
    ensures forall m' :: Graft(Graft(n, path, m), path, m') == Graft(n, path, m')
    decreases |path|
  {
    if path != [] {
      var k := path[0];
      GraftFacts(n.children[k], path[1..], m);
      assert n.children[k := n.children[k]] == n.children;
      forall m' ensures Graft(Graft(n, path, m), path, m') == Graft(n, path, m') {
        var d := Graft(n.children[k], path[1..], m);
        assert n.children[k := d][k := Graft(d, path[1..], m')] == n.children[k := Graft(n.children[k], path[1..], m')];
      }
    }
  }

  lemma {:induction false} PathDown(n: Node, path: seq<nat>, k: nat)
    requires OnPath(n, path) && k < |NodeAt(n, path).children|
    ensures OnPath(n, path + [k])
    ensures NodeAt(n, path + [k]) == NodeAt(n, path).children[k]
    ensures forall m :: Graft(n, path + [k], m) ==
                        Graft(n, path, NodeAt(n, path).(children := NodeAt(n, path).children[k := m]))
    decreases |path|
  {
    if path == [] {
      assert path + [k] == [k] && [k][1..] == [];
    } else {
      PathDown(n.children[path[0]], path[1..], k);
      assert (path + [k])[1..] == path[1..] + [k];
    }
  }

  /** One cursor step of `Add`: the tree with the child added if it was missing, and the deeper path. */
  function Stepped(h: Node, path: seq<nat>, t: Token): (r: (Node, seq<nat>))
    requires OnPath(h, path)
  {
    var here := NodeAt(h, path);
    var k := FirstFit(here.children, t);
    (if k < |here.children| then h else Graft(h, path, here.(children := here.children + [NewNode(t)])), path + [k])
  }

  /**
   * What `Add` has left to do is what it had to do from the head; either nothing was added yet, or the cursor is on
   * a new leaf.
   */
  predicate Pending(h0: Node, all: seq<Token>, h: Node, path: seq<nat>, rest: seq<Token>, rule: nat) {
    && OnPath(h, path)
    && Graft(h, path, Insert(NodeAt(h, path), rest, rule)) == Insert(h0, all, rule)
    && RuleAt(NodeAt(h, path), rest) == RuleAt(h0, all)
    && (h == h0 || (NodeAt(h, path).rule == 0 && NodeAt(h, path).children == []))
  }

  lemma {:induction false} StepKeepsPending(h0: Node, all: seq<Token>, h: Node, path: seq<nat>, rest: seq<Token>,
      rule: nat)
    requires Pending(h0, all, h, path, rest, rule) && rest != []
    ensures var (h', deeper) := Stepped(h, path, rest[0]); Pending(h0, all, h', deeper, rest[1..], rule)
  {
    var here, t := NodeAt(h, path), rest[0];
    var k := FirstFit(here.children, t);
    var (h', deeper) := Stepped(h, path, t);
    if k < |here.children| {
      PathDown(h, path, k);
    } else {
      var grown := here.(children := here.children + [NewNode(t)]);
      GraftFacts(h, path, grown);
      PathDown(h', path, k);
      var leaf := Insert(NewNode(t), rest[1..], rule);
      assert grown.children[k := leaf] == here.children + [leaf];
    }
  }

  // ---------------------------------------------------------------- the trie object

  predicate Pushed(ps: Captures, p: Param)
    requires p != MAX
  {
    match p
    case INT => ps.ints != []
    case UINT => ps.uints != []
    case DOUBLE => ps.doubles != []
    case STRING | PATH => ps.strings != []
  }

  function Popped(ps: Captures, p: Param): Captures
    requires p != MAX && Pushed(ps, p)
  {
    match p
    case INT => ps.(ints := ps.ints[..|ps.ints| - 1])
    case UINT => ps.(uints := ps.uints[..|ps.uints| - 1])
    case DOUBLE => ps.(doubles := ps.doubles[..|ps.doubles| - 1])
    case STRING | PATH => ps.(strings := ps.strings[..|ps.strings| - 1])
  }

  lemma {:induction false} PopUndoesCapture(rd: Readers, p: Param, url: string, pos: nat, ps: Captures)
    requires pos < |url| && p != MAX && Capture(rd, p, url, pos, ps).Some?
    ensures var ps' := Capture(rd, p, url, pos, ps).value.1; Pushed(ps', p) && Popped(ps', p) == ps
  {
    var ps' := Capture(rd, p, url, pos, ps).value.1;
    match p {
      case INT => assert ps'.ints[..|ps'.ints| - 1] == ps.ints;
      case UINT => assert ps'.uints[..|ps'.uints| - 1] == ps.uints;
      case DOUBLE => assert ps'.doubles[..|ps'.doubles| - 1] == ps.doubles;
      case STRING | PATH => assert ps'.strings[..|ps'.strings| - 1] == ps.strings;
    }
  }

  /** `routing_params`: the shared lists that the search pushes to and pops from. */
  class RoutingParams {
    var ints: seq<int>
    var uints: seq<int>
    var doubles: seq<real>
    var strings: seq<string>

    constructor ()
      ensures Value() == NO_CAPTURES
    {
      ints, uints, doubles, strings := [], [], [], [];
    }

    function Value(): Captures
      reads this
    {
      Captures(ints, uints, doubles, strings)
    }

    /** Pushes what the parameter captures at `pos` and returns the position after it, or pushes nothing. */
    method Push(rd: Readers, p: Param, url: string, pos: nat) returns (end: Option<nat>)
      requires pos < |url| && p != MAX
      modifies this
      ensures Capture(rd, p, url, pos, old(Value())) == if end.Some? then Some((end.value, Value())) else None
      ensures end.None? ==> Value() == old(Value())
    {
      var c := url[pos];
      end := None;
      match p {
        case INT =>
          if IsDigit(c) || c == '+' || c == '-' {
            var n := rd.strtoll(url, pos);
            if !n.outOfRange && n.consumed != 0 {
              ints := ints + [n.value];
              end := Some(pos + n.consumed);
            }
          }
        case UINT =>
          if IsDigit(c) || c == '+' {
            var n := rd.strtoull(url, pos);
            if !n.outOfRange && n.consumed != 0 {
              uints := uints + [n.value];
              end := Some(pos + n.consumed);
            }
          }
        case DOUBLE =>
          if IsDigit(c) || c == '+' || c == '-' || c == '.' {
            var n := rd.strtod(url, pos);
            if !n.outOfRange && n.consumed != 0 {
              doubles := doubles + [n.value];
              end := Some(pos + n.consumed);
            }
          }
        case STRING =>
          var epos := pos;
          while epos < |url| && url[epos] != '/'
            invariant pos <= epos <= |url|
            invariant SegmentEnd(url, pos) == SegmentEnd(url, epos)
          {
            epos := epos + 1;
          }
          if epos != pos {
            strings := strings + [url[pos..epos]];
            end := Some(epos);
          }
        case PATH =>
          strings := strings + [url[pos..]];
          end := Some(|url|);
      }
    }

    /** Undoes the last `Push` of kind `p`. */
    method Pop(p: Param)
      requires p != MAX && Pushed(Value(), p)
      modifies this
      ensures Value() == Popped(old(Value()), p)
    {
      match p {
        case INT => ints := ints[..|ints| - 1];
        case UINT => uints := uints[..|uints| - 1];
        case DOUBLE => doubles := doubles[..|doubles| - 1];
        case STRING | PATH => strings := strings[..|strings| - 1];
      }
    }
  }

  class Trie {
    var head: Node

    constructor ()
      ensures head == EMPTY_HEAD
    {
      head := EMPTY_HEAD;
    }

    /** Reads the tag or the character at `i`. */
    static method NextToken(url: string, i: nat) returns (t: Token, next: nat)
      requires i < |url| && WellTagged(url, i)
      ensures i < next <= |url| && WellTagged(url, next)
      ensures Tokens(url, i) == [t] + Tokens(url, next)
    {
      if url[i] == '<' {
        var (p, n) := TagAt(url, i).value;
        t, next := Par(p), i + n;
      } else {
        t, next := Lit(url[i]), i + 1;
      }
    }

    /** The search loop over the children of the cursor. */
    static method FindChild(children: seq<Node>, t: Token) returns (k: nat)
      ensures k == FirstFit(children, t)
    {
      k := 0;
      while k < |children| && !Fits(children[k], t)
        invariant k <= |children|
        invariant FirstFit(children, t) == k + FirstFit(children[k..], t)
      {
        assert children[k..][1..] == children[k + 1..];
        k := k + 1;
      }
    }

    /** Moves the cursor to the first child that fits the token, adding one if there is none. */
    method Step(path: seq<nat>, t: Token) returns (deeper: seq<nat>)
      requires OnPath(head, path)
      modifies this
      ensures (head, deeper) == Stepped(old(head), path, t)
    {
      var children := NodeAt(head, path).children;
      var k := FindChild(children, t);
      if k == |children| {
        head := Graft(head, path, NodeAt(head, path).(children := children + [NewNode(t)]));
      }
      deeper := path + [k];
    }

    /** Adds a route. A route already present makes the call throw and leaves the trie as it was. */
    method Add(url: string, rule: nat) returns (ok: bool)
      requires WellTagged(url, 0)
      modifies this
      ensures ok <==> RuleAt(old(head), Tokens(url, 0)) == 0
      ensures head == if ok then Insert(old(head), Tokens(url, 0), rule) else old(head)
    {
      var path: seq<nat> := [];
      var i := 0;
      while i < |url|
        invariant i <= |url| && WellTagged(url, i)
        invariant Pending(old(head), Tokens(url, 0), head, path, Tokens(url, i), rule)
      {
        var token, next := NextToken(url, i);
        StepKeepsPending(old(head), Tokens(url, 0), head, path, Tokens(url, i), rule);
        path := Step(path, token);
        i := next;
      }
      GraftFacts(head, path, NodeAt(head, path));
      if NodeAt(head, path).rule != 0 {
        return false;
      }
      head := Graft(head, path, NodeAt(head, path).(rule := rule));
      ok := true;
    }

    /** Searches below `node` from `pos`; what is pushed onto `params` on the way is popped again. */
    method FindFrom(rd: Readers, url: string, node: Node, pos: nat, params: RoutingParams) returns (r: Found)
      requires pos <= |url|
      modifies params
      ensures params.Value() == old(params.Value())
      ensures r == Search(rd, node, url, pos, old(params.Value()))
      decreases node
    {
      if pos == |url| {
        return Found(node.rule, params.Value());
      }
      var found: nat, captures := 0, NO_CAPTURES;
      var i := 0;
      while i < |node.children|
        invariant i <= |node.children|
        invariant params.Value() == old(params.Value())
        invariant SearchAll(rd, node.children[i..], url, pos, params.Value(), Found(found, captures))
               == Search(rd, node, url, pos, params.Value())
      {
        var child := node.children[i];
        var end: Option<nat> := None;
        ghost var before := params.Value();
        if child.param != MAX {
          end := params.Push(rd, child.param, url, pos);
        } else if OccursAt(url, pos, child.key) {
          end := Some(pos + |child.key|);
        }
        assert node.children[i..][0] == child && node.children[i..][1..] == node.children[i + 1..];
        if end.Some? {
          var ret := FindFrom(rd, url, child, end.value, params);
          if ret.rule != 0 && (found == 0 || found > ret.rule) {
            found, captures := ret.rule, ret.captures;
          }
          if child.param != MAX {
            PopUndoesCapture(rd, child.param, url, pos, before);
            params.Pop(child.param);
          }
        }
        i := i + 1;
      }
      r := Found(found, captures);
    }

    method Find(rd: Readers, url: string) returns (r: Found)
      ensures r == Search(rd, head, url, 0, NO_CAPTURES)
    {
      var params := new RoutingParams();
      r := FindFrom(rd, url, head, 0, params);
    }

    /** Merges chains of simple nodes, in place. */
    static method OptimizeNode(n: Node) returns (node: Node)
      ensures node == Optimized(n)
      decreases Size(n), 0
    {
      node := n;
      if node.children == [] {
        return;
      }
      if IsSimpleNode(node) {
        node := OptimizeNode(Merge(node));
      } else {
        var children := OptimizeChildren(node.children);
        node := node.(children := children);
      }
    }

    static method OptimizeChildren(cs: seq<Node>) returns (children: seq<Node>)
      ensures children == OptimizedAll(cs)
      decreases SizeAll(cs), 1
    {
      children := cs;
      var i := 0;
      while i < |children|
        invariant i <= |children| == |cs|
        invariant children[i..] == cs[i..]
        invariant children[..i] + OptimizedAll(children[i..]) == OptimizedAll(cs)
      {
        assert cs[i..][0] == cs[i] && cs[i..][1..] == cs[i + 1..];
        SizeOfMember(cs, i);
        var child := OptimizeNode(children[i]);
        children := children[i := child];
        i := i + 1;
      }
    }

    method Optimize()
      modifies this
      ensures head == old(head).(children := OptimizedAll(old(head).children))
    {
      var children := OptimizeChildren(head.children);
      head := head.(children := children);
    }
  }

  lemma {:induction false} SizeOfMember(cs: seq<Node>, i: nat)
    requires i < |cs|
    ensures Size(cs[i]) <= SizeAll(cs)
  {
    if i > 0 {
      SizeOfMember(cs[1..], i - 1);
    }
  }

  // ---------------------------------------------------------------- inserting keeps the other routes

  lemma {:induction false} TokenFits(n: Node, t: Token)
    requires Labels(n, TokenOf(n)) && Clean(TokenOf(n)) && Clean(t)
    ensures Fits(n, t) <==> TokenOf(n) == t
  {
  }

  lemma {:induction false} InsertKeepsShape(n: Node, ts: seq<Token>, rule: nat)
    requires Plain(n) && CleanAll(ts)
    ensures Plain(Insert(n, ts, rule))
    ensures Insert(n, ts, rule).key == n.key && Insert(n, ts, rule).param == n.param
    decreases |ts|
  {
    if ts != [] {
      var cs, t := n.children, ts[0];
      var k := FirstFit(cs, t);
      var below := if k < |cs| then cs[k] else NewNode(t);
      assert forall u :: u in ts[1..] ==> u in ts;
      InsertKeepsShape(below, ts[1..], rule);
      var below' := Insert(below, ts[1..], rule);
      if k == |cs| {
        assert TokenOf(below') == t;
        forall i | 0 <= i < |cs| ensures TokenOf(cs[i]) != t {
          TokenFits(cs[i], t);
        }
      }
    }
  }

  lemma {:induction false} FirstFitIs(cs: seq<Node>, t: Token, j: nat)
    requires j <= |cs| && (j < |cs| ==> Fits(cs[j], t))
    requires forall i :: 0 <= i < j ==> !Fits(cs[i], t)
    ensures FirstFit(cs, t) == j
  {
  }

  /** Where each token leads after one child is replaced or added under its own token. */
  lemma {:induction false} FirstFitAfterInsert(cs: seq<Node>, cs': seq<Node>, t: Token, u: Token)
    requires var k := FirstFit(cs, t); |cs'| == (if k < |cs| then |cs| else |cs| + 1) && (Fits(cs'[k], u) <==> u == t)
    requires forall i :: 0 <= i < |cs| ==> (Fits(cs'[i], u) <==> Fits(cs[i], u))
    requires forall i :: 0 <= i < |cs| && Fits(cs[i], t) && Fits(cs[i], u) ==> t == u
    ensures u == t ==> FirstFit(cs', u) == FirstFit(cs, u)
    ensures u != t ==>
              if FirstFit(cs, u) < |cs| then FirstFit(cs', u) == FirstFit(cs, u) != FirstFit(cs, t)
              else FirstFit(cs', u) == |cs'|
  {
    var j := FirstFit(cs, u);
    FirstFitIs(cs', u, if u == t || j < |cs| then j else |cs'|);
  }

  /** The node that the rest of the path goes to: the fitting child, or a new one. */
  function Below(cs: seq<Node>, t: Token): Node {
    var k := FirstFit(cs, t); if k < |cs| then cs[k] else NewNode(t)
  }

  lemma {:induction false} BelowIsPlain(cs: seq<Node>, ts: seq<Token>, rule: nat)
    requires ts != [] && CleanAll(ts)
    requires forall i :: 0 <= i < |cs| ==> Labels(cs[i], TokenOf(cs[i])) && Clean(TokenOf(cs[i])) && Plain(cs[i])
    ensures CleanAll(ts[1..]) && Plain(Below(cs, ts[0]))
    ensures Labels(Insert(Below(cs, ts[0]), ts[1..], rule), ts[0])
  {
    FitIsToken(cs, ts[0]);
    assert forall v :: v in ts[1..] ==> v in ts;
    InsertKeepsShape(Below(cs, ts[0]), ts[1..], rule);
  }

  lemma {:induction false} InsertChildren(n: Node, ts: seq<Token>, rule: nat, u: Token)
    requires Plain(n) && CleanAll(ts) && ts != [] && Clean(u)
    ensures var (k, j, cs, cs') := (FirstFit(n.children, ts[0]), FirstFit(n.children, u), n.children,
        Insert(n, ts, rule).children);
            && (u == ts[0] ==> FirstFit(cs', u) == k)
            && (u != ts[0] ==> if j < |cs| then FirstFit(cs', u) == j && j != k else FirstFit(cs', u) == |cs'|)
  {
    var cs, t := n.children, ts[0];
    FitIsToken(cs, t);
    FitIsToken(cs, u);
    BelowIsPlain(cs, ts, rule);
    var below' := Insert(Below(cs, t), ts[1..], rule);
    assert TokenOf(below') == t;
    TokenFits(below', u);
    FirstFitAfterInsert(cs, Insert(n, ts, rule).children, t, u);
  }

  /** Storing a route changes what is stored at that route's path and nowhere else. */
  lemma {:induction false} InsertStoresOneRoute(n: Node, ts: seq<Token>, rule: nat, us: seq<Token>)
    requires Plain(n) && CleanAll(ts) && CleanAll(us)
    ensures RuleAt(Insert(n, ts, rule), us) == if us == ts then rule else RuleAt(n, us)
    decreases |ts|
  {
    if ts != [] && us != [] {
      var cs, t, u := n.children, ts[0], us[0];
      InsertChildren(n, ts, rule, u);
      if u == t {
        BelowIsPlain(cs, ts, rule);
        assert forall v :: v in us[1..] ==> v in us;
        InsertStoresOneRoute(Below(cs, t), ts[1..], rule, us[1..]);
        assert us == [t] + us[1..] && ts == [t] + ts[1..];
        assert RuleAt(NewNode(t), us[1..]) == if us[1..] == [] then 0 else 0;
      }
    }
  }

  /** In a plain trie the first child that fits a token is the one child with that token. */
  lemma {:induction false} FitIsToken(cs: seq<Node>, t: Token)
    requires Clean(t)
    requires forall i :: 0 <= i < |cs| ==> Labels(cs[i], TokenOf(cs[i])) && Clean(TokenOf(cs[i]))
    ensures forall i :: 0 <= i < |cs| ==> (Fits(cs[i], t) <==> TokenOf(cs[i]) == t)
  {
    forall i | 0 <= i < |cs| ensures Fits(cs[i], t) <==> TokenOf(cs[i]) == t {
      TokenFits(cs[i], t);
    }
  }

  // ---------------------------------------------------------------- the search finds the smallest matching route

  /** The result of a search over children: the incumbent or one child's outcome, and none is smaller. */
  lemma {:induction false} SearchAllIsBest(rd: Readers, cs: seq<Node>, url: string, pos: nat, ps: Captures, acc: Found)
    requires pos < |url|
    ensures var r := SearchAll(rd, cs, url, pos, ps, acc);
            && (r == acc || exists i :: 0 <= i < |cs| && Visit(rd, cs[i], url, pos, ps) == Some(r))
            && (acc.rule != 0 ==> 0 < r.rule <= acc.rule)
            && (forall i :: 0 <= i < |cs| && Visit(rd, cs[i], url, pos, ps).Some? ==>
                  0 < r.rule <= Visit(rd, cs[i], url, pos, ps).value.rule)
  {
    if cs != [] {
      var v := Visit(rd, cs[0], url, pos, ps);
      var acc' := if v.Some? then Better(acc, v.value) else acc;
      SearchAllIsBest(rd, cs[1..], url, pos, ps, acc');
      var r := SearchAll(rd, cs, url, pos, ps, acc);
      if r != acc' {
        var i :| 0 <= i < |cs[1..]| && Visit(rd, cs[1..][i], url, pos, ps) == Some(r);
        assert Visit(rd, cs[i + 1], url, pos, ps) == Some(r);
      }
      forall i | 0 <= i < |cs| && Visit(rd, cs[i], url, pos, ps).Some?
        ensures 0 < r.rule <= Visit(rd, cs[i], url, pos, ps).value.rule
      {
        if i > 0 {
          assert cs[1..][i - 1] == cs[i];
        }
      }
    }
  }

  /** Matching a path that starts with a child's token is entering that child. */
  lemma {:induction false} MatchStepsIn(rd: Readers, c: Node, ts: seq<Token>, url: string, pos: nat, ps: Captures)
    requires Labels(c, TokenOf(c)) && Clean(TokenOf(c)) && CleanAll(ts)
    requires ts != [] && ts[0] == TokenOf(c) && pos < |url|
    ensures var e := Enter(rd, c, url, pos, ps);
            Match(rd, ts, url, pos, ps) == if e.Some? then Match(rd, ts[1..], url, e.value.0, e.value.1) else None
  {
  }

  /** The search only reports stored routes that match. */
  lemma {:induction false} SearchIsSound(rd: Readers, n: Node, url: string, pos: nat, ps: Captures)
    returns (ts: seq<Token>)
    requires Plain(n) && pos <= |url| && Search(rd, n, url, pos, ps).rule != 0
    ensures CleanAll(ts) && RuleAt(n, ts) == Search(rd, n, url, pos, ps).rule
    ensures Match(rd, ts, url, pos, ps) == Some(Search(rd, n, url, pos, ps).captures)
    decreases n
  {
    if pos == |url| {
      return [];
    }
    var r := Search(rd, n, url, pos, ps);
    SearchAllIsBest(rd, n.children, url, pos, ps, Found(0, NO_CAPTURES));
    var i :| 0 <= i < |n.children| && Visit(rd, n.children[i], url, pos, ps) == Some(r);
    var c := n.children[i];
    var e := Enter(rd, c, url, pos, ps).value;
    var us := SearchIsSound(rd, c, url, e.0, e.1);
    ts := [TokenOf(c)] + us;
    assert ts[1..] == us;
    FitIsToken(n.children, TokenOf(c));
    assert FirstFit(n.children, ts[0]) == i;
    MatchStepsIn(rd, c, ts, url, pos, ps);
  }

  /** The search misses no stored route that matches. */
  lemma {:induction false} SearchIsComplete(rd: Readers, n: Node, ts: seq<Token>, url: string, pos: nat, ps: Captures)
    requires Plain(n) && CleanAll(ts) && pos <= |url|
    requires RuleAt(n, ts) != 0 && Match(rd, ts, url, pos, ps).Some?
    ensures 0 < Search(rd, n, url, pos, ps).rule <= RuleAt(n, ts)
    decreases n
  {
    if ts != [] {
      var i := FirstFit(n.children, ts[0]);
      var c := n.children[i];
      FitIsToken(n.children, ts[0]);
      MatchStepsIn(rd, c, ts, url, pos, ps);
      var e := Enter(rd, c, url, pos, ps).value;
      assert forall t :: t in ts[1..] ==> t in ts;
      SearchIsComplete(rd, c, ts[1..], url, e.0, e.1);
      SearchAllIsBest(rd, n.children, url, pos, ps, Found(0, NO_CAPTURES));
      assert Visit(rd, c, url, pos, ps).Some?;
    }
  }

  // ---------------------------------------------------------------- the reference: a scan over the routes

  /** The trie after adding the routes one by one. */
  function Build(routes: seq<Route>): Node {
    if routes == [] then EMPTY_HEAD
    else var last := routes[|routes| - 1]; Insert(Build(routes[..|routes| - 1]), last.tokens, last.rule)
  }

  /** Non-zero rule indices, clean tokens, and no pattern added twice (the second `add` throws). */
  predicate Accepted(routes: seq<Route>) {
    && (forall r :: r in routes ==> r.rule != 0 && CleanAll(r.tokens))
    && (forall i, j :: 0 <= i < j < |routes| ==> routes[i].tokens != routes[j].tokens)
  }

  function Captured(rd: Readers, r: Route, url: string): Option<Captures>
    requires CleanAll(r.tokens)
  {
    Match(rd, r.tokens, url, 0, NO_CAPTURES)
  }

  /** The smallest rule index among the routes that consume the whole url, 0 if there is none. */
  function Scan(rd: Readers, routes: seq<Route>, url: string): nat
    requires forall r :: r in routes ==> CleanAll(r.tokens)
  {
    if routes == [] then 0
    else
      var best := Scan(rd, routes[1..], url);
      if Captured(rd, routes[0], url).Some? && (best == 0 || routes[0].rule < best) then routes[0].rule else best
  }

  lemma {:induction false} ScanIsSmallest(rd: Readers, routes: seq<Route>, url: string)
    requires Accepted(routes)
    ensures var m := Scan(rd, routes, url);
            && (m != 0 ==> exists r :: r in routes && r.rule == m && Captured(rd, r, url).Some?)
            && (forall r :: r in routes && Captured(rd, r, url).Some? ==> 0 < m <= r.rule)
  {
    if routes != [] {
      var rest := routes[1..];
      assert forall r :: r in rest ==> r in routes;
      forall i, j | 0 <= i < j < |rest| ensures rest[i].tokens != rest[j].tokens {
        assert routes[i + 1].tokens != routes[j + 1].tokens;
      }
      ScanIsSmallest(rd, rest, url);
      assert forall r :: r in routes ==> r == routes[0] || r in rest;
    }
  }

  /** The trie stores each of the routes under its pattern and nothing else. */
  ghost predicate Stores(head: Node, routes: seq<Route>) {
    && (forall r :: r in routes ==> RuleAt(head, r.tokens) == r.rule)
    && (forall ts :: CleanAll(ts) && RuleAt(head, ts) != 0 ==> Route(ts, RuleAt(head, ts)) in routes)
  }

  lemma {:induction false} InsertStoresNext(head: Node, front: seq<Route>, last: Route)
    requires Plain(head) && Stores(head, front) && CleanAll(last.tokens)
    requires forall r :: r in front ==> CleanAll(r.tokens) && r.tokens != last.tokens
    ensures Plain(Insert(head, last.tokens, last.rule))
    ensures Stores(Insert(head, last.tokens, last.rule), front + [last])
  {
    var head' := Insert(head, last.tokens, last.rule);
    InsertKeepsShape(head, last.tokens, last.rule);
    forall r | r in front + [last] ensures RuleAt(head', r.tokens) == r.rule {
      InsertStoresOneRoute(head, last.tokens, last.rule, r.tokens);
    }
    forall ts | CleanAll(ts) && RuleAt(head', ts) != 0 ensures Route(ts, RuleAt(head', ts)) in front + [last] {
      InsertStoresOneRoute(head, last.tokens, last.rule, ts);
    }
  }

  lemma {:induction false} BuildStoresRoutes(routes: seq<Route>)
    requires Accepted(routes)
    ensures Plain(Build(routes)) && Stores(Build(routes), routes)
  {
    if routes == [] {
      assert forall ts :: RuleAt(EMPTY_HEAD, ts) == 0;
    } else {
      var last, front := routes[|routes| - 1], routes[..|routes| - 1];
      AcceptedFront(routes);
      BuildStoresRoutes(front);
      InsertStoresNext(Build(front), front, last);
      assert routes == front + [last];
    }
  }

  lemma {:induction false} AcceptedFront(routes: seq<Route>)
    requires Accepted(routes) && routes != []
    ensures Accepted(routes[..|routes| - 1]) && CleanAll(routes[|routes| - 1].tokens)
    ensures forall r :: r in routes[..|routes| - 1] ==> CleanAll(r.tokens) && r.tokens != routes[|routes| - 1].tokens
  {
    var front := routes[..|routes| - 1];
    forall r | r in front ensures r in routes && r.tokens != routes[|routes| - 1].tokens {
      var i :| 0 <= i < |front| && routes[i] == r;
    }
  }

  /** The smallest rule index of a scan over the routes, with the captures of a route that has it and matches. */
  ghost predicate IsAnswer(rd: Readers, routes: seq<Route>, url: string, f: Found)
    requires Accepted(routes)
  {
    && f.rule == Scan(rd, routes, url)
    && (f.rule != 0 ==> exists r :: r in routes && r.rule == f.rule && Captured(rd, r, url) == Some(f.captures))
    && (forall r :: r in routes && r.rule == f.rule && (forall q :: q in routes && q.rule == r.rule ==> q == r)
          ==> Captured(rd, r, url) == Some(f.captures))
  }

  /** After any accepted sequence of `Add` calls, the trie finds what a scan over the routes finds. */
  lemma {:induction false} FindIsScan(rd: Readers, routes: seq<Route>, url: string)
    requires Accepted(routes)
    ensures IsAnswer(rd, routes, url, Search(rd, Build(routes), url, 0, NO_CAPTURES))
  {
    BuildStoresRoutes(routes);
    ScanIsSmallest(rd, routes, url);
    var head := Build(routes);
    var f := Search(rd, head, url, 0, NO_CAPTURES);
    if f.rule != 0 {
      var ts := SearchIsSound(rd, head, url, 0, NO_CAPTURES);
      assert Captured(rd, Route(ts, f.rule), url) == Some(f.captures);
    }
    forall r | r in routes && Captured(rd, r, url).Some? ensures 0 < f.rule <= r.rule {
      SearchIsComplete(rd, head, r.tokens, url, 0, NO_CAPTURES);
    }
  }

  // ---------------------------------------------------------------- compressing changes no answer

  lemma {:induction false} OptimizedAllAt(cs: seq<Node>, i: nat)
    requires i < |cs|
    ensures OptimizedAll(cs)[i] == Optimized(cs[i])
  {
    if i > 0 {
      OptimizedAllAt(cs[1..], i - 1);
    }
  }

  lemma {:induction false} OnlyChild(rd: Readers, c: Node, url: string, pos: nat, ps: Captures)
    requires pos < |url|
    ensures SearchAll(rd, [c], url, pos, ps, Found(0, NO_CAPTURES)) ==
            var v := Visit(rd, c, url, pos, ps); if v.Some? then v.value else Found(0, NO_CAPTURES)
  {
    assert [c][1..] == [];
  }

  /** Merging a simple node with its only child changes no visit. */
  lemma {:induction false} MergeKeepsVisit(rd: Readers, n: Node, url: string, pos: nat, ps: Captures)
    requires n.children != [] && IsSimpleNode(n) && n.key != "" && Keyed(n) && pos < |url|
    ensures Visit(rd, Merge(n), url, pos, ps) == Visit(rd, n, url, pos, ps)
  {
    var c, m := n.children[0], Merge(n);
    assert c in n.children;
    OccursAtSplit(url, pos, n.key, c.key);
    var e := pos + |n.key|;
    if OccursAt(url, pos, n.key) && e < |url| {
      OnlyChild(rd, c, url, e, ps);
      assert n.children == [c];
      assert Search(rd, n, url, e, ps) ==
             var v := Visit(rd, c, url, e, ps); if v.Some? then v.value else Found(0, NO_CAPTURES);
    }
  }

  /** The optimised child contributes what the child contributed. */
  lemma {:induction false} OptimizedKeepsVisit(rd: Readers, n: Node, url: string, pos: nat, ps: Captures)
    requires Keyed(n) && (n.param == MAX ==> n.key != "") && pos < |url|
    ensures Visit(rd, Optimized(n), url, pos, ps) == Visit(rd, n, url, pos, ps)
    decreases Size(n), 0
  {
    if n.children != [] {
      if IsSimpleNode(n) {
        MergeKeepsVisit(rd, n, url, pos, ps);
        assert Keyed(n.children[0]);
        OptimizedKeepsVisit(rd, Merge(n), url, pos, ps);
      } else {
        var m := Optimized(n);
        assert Enter(rd, m, url, pos, ps) == Enter(rd, n, url, pos, ps);
        var e := Enter(rd, n, url, pos, ps);
        if e.Some? && e.value.0 < |url| {
          OptimizedKeepsSearch(rd, n.children, url, e.value.0, e.value.1, Found(0, NO_CAPTURES));
        }
      }
    }
  }

  lemma {:induction false} OptimizedKeepsSearch(rd: Readers, cs: seq<Node>, url: string, pos: nat, ps: Captures,
      acc: Found)
    requires forall c :: c in cs ==> Keyed(c) && (c.param == MAX ==> c.key != "")
    requires pos < |url|
    ensures SearchAll(rd, OptimizedAll(cs), url, pos, ps, acc) == SearchAll(rd, cs, url, pos, ps, acc)
    decreases SizeAll(cs), 1
  {
    if cs != [] {
      OptimizedKeepsVisit(rd, cs[0], url, pos, ps);
      var v := Visit(rd, cs[0], url, pos, ps);
      OptimizedKeepsSearch(rd, cs[1..], url, pos, ps, if v.Some? then Better(acc, v.value) else acc);
      assert OptimizedAll(cs)[1..] == OptimizedAll(cs[1..]);
    }
  }

  function OptimizedHead(head: Node): Node { head.(children := OptimizedAll(head.children)) }

  /** `optimize` keeps every answer of `find`: rule index and captures, for every url. */
  lemma {:induction false} OptimizeKeepsFind(rd: Readers, head: Node, url: string)
    requires Keyed(head)
    ensures Search(rd, OptimizedHead(head), url, 0, NO_CAPTURES) == Search(rd, head, url, 0, NO_CAPTURES)
  {
    if url != "" {
      OptimizedKeepsSearch(rd, head.children, url, 0, NO_CAPTURES, Found(0, NO_CAPTURES));
    }
  }

  lemma {:induction false} OptimizedIsCompressed(n: Node)
    ensures Compressed(Optimized(n))
    decreases Size(n)
  {
    if n.children != [] {
      if IsSimpleNode(n) {
        OptimizedIsCompressed(Merge(n));
      } else {
        var m := Optimized(n);
        forall i | 0 <= i < |n.children|
          ensures Compressed(m.children[i]) && m.children[i].param == n.children[i].param
        {
          SizeOfMember(n.children, i);
          OptimizedAllAt(n.children, i);
          OptimizedIsCompressed(n.children[i]);
          OptimizedKeepsParam(n.children[i]);
        }
      }
    }
  }

  lemma {:induction false} OptimizedKeepsParam(n: Node)
    ensures Optimized(n).param == n.param
    decreases Size(n)
  {
    if n.children != [] && IsSimpleNode(n) {
      OptimizedKeepsParam(Merge(n));
    }
  }

  /** `optimize` leaves no simple node with children below the head. */
  lemma {:induction false} OptimizeCompresses(head: Node)
    ensures forall c :: c in OptimizedHead(head).children ==> Compressed(c)
  {
    forall i | 0 <= i < |head.children| ensures Compressed(OptimizedAll(head.children)[i]) {
      OptimizedAllAt(head.children, i);
      OptimizedIsCompressed(head.children[i]);
    }
  }

  lemma {:induction false} PlainIsKeyed(n: Node)
    requires Plain(n)
    ensures Keyed(n)
    decreases n
  {
    forall i | 0 <= i < |n.children| ensures Keyed(n.children[i]) {
      PlainIsKeyed(n.children[i]);
    }
  }

  /** The compressed trie of any accepted routes still answers like the scan, captures included. */
  lemma {:induction false} OptimizedFindIsScan(rd: Readers, routes: seq<Route>, url: string)
    requires Accepted(routes)
    ensures IsAnswer(rd, routes, url, Search(rd, OptimizedHead(Build(routes)), url, 0, NO_CAPTURES))
  {
    hide IsAnswer;
    BuildStoresRoutes(routes);
    PlainIsKeyed(Build(routes));
    OptimizeKeepsFind(rd, Build(routes), url);
    FindIsScan(rd, routes, url);
  }

  // ---------------------------------------------------------------- from urls to answers

  /** What `add` is called with. */
  datatype Entry = Entry(url: string, rule: nat)

  /** A C string whose tags are known, and a rule index that means a rule. */
  predicate IsEntry(e: Entry) { WellTagged(e.url, 0) && '\0' !in e.url && e.rule != 0 }

  predicate AreEntries(entries: seq<Entry>) { forall k :: 0 <= k < |entries| ==> IsEntry(entries[k]) }

  function RouteOf(e: Entry): Route
    requires IsEntry(e)
  {
    Route(Tokens(e.url, 0), e.rule)
  }

  predicate HasPattern(routes: seq<Route>, ts: seq<Token>) {
    exists k :: 0 <= k < |routes| && routes[k].tokens == ts
  }

  /** The routes that the first `n` calls store: all but those whose pattern is stored already. */
  function Kept(entries: seq<Entry>, n: nat): seq<Route>
    requires AreEntries(entries) && n <= |entries|
  {
    if n == 0 then []
    else
      var before, r := Kept(entries, n - 1), RouteOf(entries[n - 1]);
      if HasPattern(before, r.tokens) then before else before + [r]
  }

  lemma {:induction false} EntryIsClean(e: Entry)
    requires IsEntry(e)
    ensures CleanAll(RouteOf(e).tokens) && RouteOf(e).rule != 0
  {
  }

  lemma {:induction false} KeptIsAccepted(entries: seq<Entry>, n: nat)
    requires AreEntries(entries) && n <= |entries|
    ensures Accepted(Kept(entries, n))
  {
    hide CleanAll, IsEntry;
    if n > 0 {
      KeptIsAccepted(entries, n - 1);
      EntryIsClean(entries[n - 1]);
    }
  }

  /** In the trie of accepted routes a pattern has a rule exactly if it is among theirs. */
  lemma {:induction false} HasRuleIfStored(routes: seq<Route>, ts: seq<Token>)
    requires Accepted(routes) && CleanAll(ts)
    ensures RuleAt(Build(routes), ts) != 0 <==> HasPattern(routes, ts)
  {
    hide CleanAll, Build, RuleAt;
    BuildStoresRoutes(routes);
    if HasPattern(routes, ts) {
      var k :| 0 <= k < |routes| && routes[k].tokens == ts;
      assert routes[k] in routes;
    }
  }

  lemma {:induction false} BuildNext(routes: seq<Route>, r: Route)
    ensures Build(routes + [r]) == Insert(Build(routes), r.tokens, r.rule)
  {
    assert (routes + [r])[..|routes|] == routes;
  }

  lemma {:induction false} EntryIsTagged(e: Entry)
    requires IsEntry(e)
    ensures WellTagged(e.url, 0)
  {
  }

  /** What one more call does to the trie. */
  lemma {:induction false} AddNext(entries: seq<Entry>, n: nat)
    requires AreEntries(entries) && n < |entries|
    ensures var (before, r) := (Build(Kept(entries, n)), RouteOf(entries[n]));
            && (RuleAt(before, r.tokens) == 0 <==> !HasPattern(Kept(entries, n), r.tokens))
            && Build(Kept(entries, n + 1)) ==
                 if RuleAt(before, r.tokens) == 0 then Insert(before, r.tokens, r.rule) else before
  {
    hide Build, RuleAt, HasPattern, CleanAll, IsEntry, Insert;
    KeptIsAccepted(entries, n);
    EntryIsClean(entries[n]);
    HasRuleIfStored(Kept(entries, n), RouteOf(entries[n]).tokens);
    BuildNext(Kept(entries, n), RouteOf(entries[n]));
  }

  /** Adds routes to an empty trie; each call fails exactly if its pattern is there already. */
  method AddAll(trie: Trie, entries: seq<Entry>) returns (oks: seq<bool>)
    requires AreEntries(entries) && trie.head == EMPTY_HEAD
    modifies trie
    ensures trie.head == Build(Kept(entries, |entries|))
    ensures |oks| == |entries|
    ensures forall k :: 0 <= k < |entries| ==>
              (oks[k] <==> !HasPattern(Kept(entries, k), RouteOf(entries[k]).tokens))
  {
    hide Build, RuleAt, HasPattern, CleanAll, Kept, IsEntry, Insert;
    oks := [];
    NoRoutes(entries);
    for n := 0 to |entries|
      invariant trie.head == Build(Kept(entries, n)) && |oks| == n
      invariant forall k :: 0 <= k < n ==> (oks[k] <==> !HasPattern(Kept(entries, k), RouteOf(entries[k]).tokens))
    {
      AddNext(entries, n);
      assert WellTagged(entries[n].url, 0) by { EntryIsTagged(entries[n]); }
      var ok := trie.Add(entries[n].url, entries[n].rule);
      oks := oks + [ok];
    }
  }

  lemma {:induction false} NoRoutes(entries: seq<Entry>)
    requires AreEntries(entries)
    ensures Build(Kept(entries, 0)) == EMPTY_HEAD
  {
  }

  /** The life of a router: routes are added, the trie is compressed, and urls are looked up, before and after. */
  method Serve(rd: Readers, entries: seq<Entry>, url: string) returns (oks: seq<bool>, early: Found, late: Found)
    requires AreEntries(entries)
    ensures Accepted(Kept(entries, |entries|))
    ensures IsAnswer(rd, Kept(entries, |entries|), url, early) && late == early
    ensures |oks| == |entries| && forall k :: 0 <= k < |entries| ==>
              (oks[k] <==> !HasPattern(Kept(entries, k), RouteOf(entries[k]).tokens))
  {
    hide Build, HasPattern, Kept, IsAnswer, Search, Keyed;
    var trie := new Trie();
    oks := AddAll(trie, entries);
    KeptIsAccepted(entries, |entries|);
    early := trie.Find(rd, url);
    FindIsScan(rd, Kept(entries, |entries|), url);
    BuildStoresRoutes(Kept(entries, |entries|));
    PlainIsKeyed(trie.head);
    OptimizeKeepsFind(rd, trie.head, url);
    trie.Optimize();
    late := trie.Find(rd, url);
  }
}
