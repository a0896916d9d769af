/**
 * The part of the `cstree` library the core relies on, reduced to values:
 * a green tree whose interior nodes carry a raw kind and ordered children and
 * whose leaves carry a raw kind and their resolved text, and the builder's
 * event stream (start node, token, static token, finish node) together with
 * the well-nested reading of that stream into a tree.
 */
module Cstree {
  import opened Syntax

  /**
   * A green token: its raw kind, and the text the resolver gives for it
   * (`None` for a static token, which stores no text of its own).
   */
  datatype GreenToken = GreenToken(kind: RawKind, text: Option<string>)

  datatype Tree = Node(kind: RawKind, children: seq<Tree>) | Leaf(token: GreenToken)

  /** The tokens of a tree in document order. */
  function Flatten(t: Tree): seq<GreenToken>
    decreases t
  {
    match t
    case Leaf(tok) => [tok]
    case Node(_, cs) => FlattenAll(cs)
  }

  /** The tokens of a sequence of sibling trees in document order. */
  function FlattenAll(ts: seq<Tree>): seq<GreenToken>
    decreases ts
  {
    if ts == [] then [] else FlattenAll(ts[..|ts| - 1]) + Flatten(ts[|ts| - 1])
  }

  lemma {:induction false} FlattenAllAppend(a: seq<Tree>, b: seq<Tree>)
    ensures FlattenAll(a + b) == FlattenAll(a) + FlattenAll(b)
    decreases |b|
  {
    if b == [] {
      assert a + b == a;
    } else {
      var b' := b[..|b| - 1];
      assert (a + b)[..|a + b| - 1] == a + b';
      assert (a + b)[|a + b| - 1] == b[|b| - 1];
      FlattenAllAppend(a, b');
    }
  }

  lemma FlattenAllCons(t: Tree, ts: seq<Tree>)
    ensures FlattenAll([t] + ts) == Flatten(t) + FlattenAll(ts)
  {
    FlattenAllAppend([t], ts);
    assert [t][..0] == [];
  }

  /** The tokens of the first `i + 1` children: those of the first `i`, then those of child `i`. */
  lemma FlattenPrefix(children: seq<Tree>, i: nat)
    requires i < |children|
    ensures FlattenAll(children[..i + 1]) == FlattenAll(children[..i]) + Flatten(children[i])
  {
    var front := children[..i + 1];
    assert front[..|front| - 1] == children[..i];
  }

  /** The tokens of all children: those of the first `i + 1`, then those of the rest. */
  lemma FlattenAround(children: seq<Tree>, i: nat)
    requires i < |children|
    ensures FlattenAll(children) == FlattenAll(children[..i + 1]) + FlattenAll(children[i + 1..])
  {
    var front := children[..i + 1];
    assert front + children[i + 1..] == children;
    FlattenAllAppend(front, children[i + 1..]);
  }

  /** Every token under child `i` is a token under the whole list. */
  lemma FlattenStep(children: seq<Tree>, i: nat)
    requires i < |children|
    ensures forall tok | tok in Flatten(children[i]) :: tok in FlattenAll(children)
  {
    FlattenPrefix(children, i);
    FlattenAround(children, i);
    var done, child := FlattenAll(children[..i]), Flatten(children[i]);
    forall tok | tok in child
      ensures tok in FlattenAll(children)
    {
      assert tok in done + child;
    }
  }

  /**
   * Node boundaries carry no tokens of their own: grouping a run of siblings
   * under a new node leaves the document-order token sequence unchanged.
   */
  lemma NodeTransparent(k: RawKind, inner: RawKind, a: seq<Tree>, b: seq<Tree>, c: seq<Tree>)
    ensures Flatten(Node(k, a + [Node(inner, b)] + c)) == Flatten(Node(k, a + b + c))
  {
    FlattenAllAppend(a + [Node(inner, b)], c);
    FlattenAllAppend(a, [Node(inner, b)]);
    FlattenAllCons(Node(inner, b), []);
    FlattenAllAppend(a + b, c);
    FlattenAllAppend(a, b);
  }

  /** The calls a builder makes on the underlying `GreenNodeBuilder`. */
  datatype Event<S> =
    | StartNode(kind: Syntax2D<S>)
    | AddToken(kind: Syntax2D<S>, text: string)
    | AddStaticToken(kind: Syntax2D<S>)
    | FinishNode
  {
    predicate IsToken() { AddToken? || AddStaticToken? }
  }

  /** The green token a token event stores: its kind encoded, and its text unless it is static. */
  function TokenOf<S>(sy: InnerSyntax<S>, e: Event<S>): (tok: GreenToken)
    requires e.IsToken()
    ensures tok.kind == IntoRaw(sy, e.kind)
    ensures tok.text.Some? <==> e.AddToken?
    ensures e.AddToken? ==> tok.text.value == e.text
  {
    GreenToken(IntoRaw(sy, e.kind), if e.AddToken? then Some(e.text) else None)
  }

  /**
   * A stored token reads back as the event that stored it: its raw kind
   * decodes to the event's kind, and its text, when stored, is the event's.
   */
  lemma TokenOfReadsBack<S(!new)>(sy: InnerSyntax<S>, e: Event<S>)
    requires BelowMarkers(sy) && InnerRoundTrips(sy) && e.IsToken()
    ensures Decodes(sy, TokenOf(sy, e).kind)
    ensures FromRaw(sy, TokenOf(sy, e).kind) == e.kind
    ensures e.AddToken? ==> TokenOf(sy, e).text == Some(e.text)
    ensures e.AddStaticToken? ==> TokenOf(sy, e).text == None
  {
    FromRawIntoRaw(sy, e.kind);
  }

  /** The tokens a stream of events appends, in the order they were appended. */
  function TokensOf<S>(sy: InnerSyntax<S>, evs: seq<Event<S>>): seq<GreenToken>
  {
    if evs == [] then []
    else (if evs[0].IsToken() then [TokenOf(sy, evs[0])] else []) + TokensOf(sy, evs[1..])
  }

  lemma {:induction false} TokensOfAppend<S>(sy: InnerSyntax<S>, a: seq<Event<S>>, b: seq<Event<S>>)
    ensures TokensOf(sy, a + b) == TokensOf(sy, a) + TokensOf(sy, b)
    decreases |a|
  {
    if a == [] {
      assert a + b == b;
    } else {
      assert (a + b)[0] == a[0];
      assert (a + b)[1..] == a[1..] + b;
      TokensOfAppend(sy, a[1..], b);
    }
  }

  /**
   * Reads a well-nested run of siblings from the front of an event stream,
   * stopping at an unmatched `FinishNode` or at the end; `None` when a node
   * is started and never finished. Returns the siblings and the unread rest.
   */
  function Parse<S>(sy: InnerSyntax<S>, evs: seq<Event<S>>): (r: Option<(seq<Tree>, seq<Event<S>>)>)
    ensures r.Some? ==> |r.value.1| <= |evs| && r.value.1 == evs[|evs| - |r.value.1|..]
    ensures r.Some? ==> r.value.1 == [] || r.value.1[0].FinishNode?
    decreases |evs|
  {
    if evs == [] then Some(([], []))
    else
      match evs[0]
      case FinishNode => Some(([], evs))
      case StartNode(k) =>
        (match Parse(sy, evs[1..])
         case None => None
         case Some((cs, rest)) =>
           if rest == [] then None
           else
             match Parse(sy, rest[1..])
             case None => None
             case Some((ts, rest')) => Some(([Node(IntoRaw(sy, k), cs)] + ts, rest')))
      case _ =>
        (match Parse(sy, evs[1..])
         case None => None
         case Some((ts, rest)) => Some(([Leaf(TokenOf(sy, evs[0]))] + ts, rest)))
  }

  /** How `Parse` reads a stream that starts with a token event. */
  lemma ParseToken<S>(sy: InnerSyntax<S>, evs: seq<Event<S>>)
    requires evs != [] && evs[0].IsToken() && Parse(sy, evs).Some?
    ensures Parse(sy, evs[1..]).Some?
    ensures Parse(sy, evs).value
         == ([Leaf(TokenOf(sy, evs[0]))] + Parse(sy, evs[1..]).value.0, Parse(sy, evs[1..]).value.1)
  {
  }

  /** How `Parse` reads a stream that starts with a `StartNode` event. */
  lemma ParseNode<S>(sy: InnerSyntax<S>, evs: seq<Event<S>>)
    returns (cs: seq<Tree>, rest: seq<Event<S>>, ts: seq<Tree>, rest': seq<Event<S>>)
    requires evs != [] && evs[0].StartNode? && Parse(sy, evs).Some?
    ensures Parse(sy, evs[1..]) == Some((cs, rest)) && rest != [] && !rest[0].IsToken()
    ensures Parse(sy, rest[1..]) == Some((ts, rest'))
    ensures Parse(sy, evs).value == ([Node(IntoRaw(sy, evs[0].kind), cs)] + ts, rest')
  {
    cs, rest := ParseNodeChildren(sy, evs);
    ts, rest' := ParseNodeSiblings(sy, evs, cs, rest);
  }

  /** The children of a node are read up to its `FinishNode`. */
  lemma ParseNodeChildren<S>(sy: InnerSyntax<S>, evs: seq<Event<S>>) returns (cs: seq<Tree>, rest: seq<Event<S>>)
    requires evs != [] && evs[0].StartNode? && Parse(sy, evs).Some?
    ensures Parse(sy, evs[1..]) == Some((cs, rest)) && rest != [] && rest[0].FinishNode?
  {
    assert evs[0] == StartNode(evs[0].kind);
    var inner := Parse(sy, evs[1..]);
    assert inner.Some?;
    cs, rest := inner.value.0, inner.value.1;
    assert rest != [];
  }

  /** After a node's `FinishNode`, its siblings are read. */
  lemma ParseNodeSiblings<S>(sy: InnerSyntax<S>, evs: seq<Event<S>>, cs: seq<Tree>, rest: seq<Event<S>>)
    returns (ts: seq<Tree>, rest': seq<Event<S>>)
    requires evs != [] && evs[0].StartNode? && Parse(sy, evs).Some?
    requires Parse(sy, evs[1..]) == Some((cs, rest)) && rest != []
    ensures Parse(sy, rest[1..]) == Some((ts, rest'))
    ensures Parse(sy, evs).value == ([Node(IntoRaw(sy, evs[0].kind), cs)] + ts, rest')
  {
    assert evs[0] == StartNode(evs[0].kind);
    var after := Parse(sy, rest[1..]);
    assert after.Some?;
    ts, rest' := after.value.0, after.value.1;
  }

  /** The trees read from a stream hold exactly the tokens of the events read, in order. */
  lemma {:induction false} ParseKeepsTokenOrder<S>(sy: InnerSyntax<S>, evs: seq<Event<S>>)
    requires Parse(sy, evs).Some?
    ensures FlattenAll(Parse(sy, evs).value.0)
         == TokensOf(sy, evs[..|evs| - |Parse(sy, evs).value.1|])
    decreases |evs|, 1
  {
    if evs == [] {
    } else if evs[0].FinishNode? {
      assert evs[..|evs| - |Parse(sy, evs).value.1|] == [];
    } else if evs[0].StartNode? {
      ParseKeepsTokenOrderNode(sy, evs);
    } else {
      ParseKeepsTokenOrderToken(sy, evs);
    }
  }

  lemma {:induction false} ParseKeepsTokenOrderToken<S>(sy: InnerSyntax<S>, evs: seq<Event<S>>)
    requires evs != [] && evs[0].IsToken() && Parse(sy, evs).Some?
    ensures FlattenAll(Parse(sy, evs).value.0)
         == TokensOf(sy, evs[..|evs| - |Parse(sy, evs).value.1|])
    decreases |evs|, 0
  {
    ParseToken(sy, evs);
    var e, tail := evs[0], evs[1..];
    var (ts, rest) := Parse(sy, tail).value;
    ParseKeepsTokenOrder(sy, tail);
    var c1 := tail[..|tail| - |rest|];
    PrefixCons(evs, |rest|);
    LeafThenSiblings(sy, e, ts, c1);
  }

  /** A leaf read in front of its siblings puts its token in front of theirs. */
  lemma LeafThenSiblings<S>(sy: InnerSyntax<S>, e: Event<S>, ts: seq<Tree>, evs: seq<Event<S>>)
    requires e.IsToken() && FlattenAll(ts) == TokensOf(sy, evs)
    ensures FlattenAll([Leaf(TokenOf(sy, e))] + ts) == TokensOf(sy, [e] + evs)
  {
    var tok := TokenOf(sy, e);
    assert TokensOf(sy, [e]) == [tok] by { assert [e][1..] == []; }
    FlattenAllCons(Leaf(tok), ts);
    TokensOfAppend(sy, [e], evs);
  }

  lemma {:induction false} ParseKeepsTokenOrderNode<S>(sy: InnerSyntax<S>, evs: seq<Event<S>>)
    requires evs != [] && evs[0].StartNode? && Parse(sy, evs).Some?
    ensures FlattenAll(Parse(sy, evs).value.0)
         == TokensOf(sy, evs[..|evs| - |Parse(sy, evs).value.1|])
    decreases |evs|, 0
  {
    var cs, rest, ts, rest' := ParseNode(sy, evs);
    var c1 := evs[1..][..|evs[1..]| - |rest|];
    var c2 := rest[1..][..|rest[1..]| - |rest'|];
    ParseKeepsTokenOrder(sy, evs[1..]);
    ParseKeepsTokenOrder(sy, rest[1..]);
    SuffixSplit(evs[1..], rest);
    SuffixSplit(rest[1..], rest');
    var consumed := [evs[0]] + c1 + [rest[0]] + c2;
    Reassemble(evs, c1, rest, c2, rest');
    DropSuffix(evs, consumed, rest');
    TokensOfBracket(sy, evs[0], c1, rest[0], c2);
    FlattenAllCons(Node(IntoRaw(sy, evs[0].kind), cs), ts);
  }

  lemma PrefixCons<T>(xs: seq<T>, n: nat)
    requires n < |xs|
    ensures xs[..|xs| - n] == [xs[0]] + xs[1..][..|xs[1..]| - n]
  {
  }

  lemma SuffixSplit<T>(xs: seq<T>, rest: seq<T>)
    requires |rest| <= |xs| && rest == xs[|xs| - |rest|..]
    ensures xs == xs[..|xs| - |rest|] + rest
  {
  }

  lemma Reassemble<T>(xs: seq<T>, a: seq<T>, mid: seq<T>, b: seq<T>, tail: seq<T>)
    requires xs != [] && mid != []
    requires xs[1..] == a + mid && mid[1..] == b + tail
    ensures xs == [xs[0]] + a + [mid[0]] + b + tail
  {
    assert xs == [xs[0]] + xs[1..];
    assert mid == [mid[0]] + mid[1..];
  }

  lemma DropSuffix<T>(xs: seq<T>, p: seq<T>, q: seq<T>)
    requires xs == p + q
    ensures xs[..|xs| - |q|] == p
  {
  }

  /** Start and finish events append no tokens. */
  lemma TokensOfBracket<S>(sy: InnerSyntax<S>, open: Event<S>, a: seq<Event<S>>, close: Event<S>, b: seq<Event<S>>)
    requires !open.IsToken() && !close.IsToken()
    ensures TokensOf(sy, [open] + a + [close] + b) == TokensOf(sy, a) + TokensOf(sy, b)
  {
    TokensOfAppend(sy, [open] + a + [close], b);
    TokensOfAppend(sy, [open] + a, [close]);
    TokensOfAppend(sy, [open], a);
    assert TokensOf(sy, [open]) == [] by { assert [open][1..] == []; }
    assert TokensOf(sy, [close]) == [] by { assert [close][1..] == []; }
  }

  /**
   * `GreenNodeBuilder::finish`: the stream read as exactly one node, with
   * nothing left over; `None` on any log that is not one well-nested node
   * (the model's choice).
   */
  function Build<S>(sy: InnerSyntax<S>, evs: seq<Event<S>>): Option<Tree>
  {
    match Parse(sy, evs)
    case Some((ts, rest)) =>
      if rest == [] && |ts| == 1 && ts[0].Node? then Some(ts[0]) else None
    case None => None
  }

  /** A built tree is a node and holds the appended tokens in the order they were appended. */
  lemma BuildKeepsTokenOrder<S>(sy: InnerSyntax<S>, evs: seq<Event<S>>)
    requires Build(sy, evs).Some?
    ensures Build(sy, evs).value.Node?
    ensures Flatten(Build(sy, evs).value) == TokensOf(sy, evs)
  {
    var (ts, rest) := Parse(sy, evs).value;
    ParseKeepsTokenOrder(sy, evs);
    assert evs[..|evs| - |rest|] == evs;
    FlattenAllCons(ts[0], []);
    assert ts == [ts[0]] + [];
  }

  /** One leaf per token event, in order. */
  function Leaves<S>(sy: InnerSyntax<S>, evs: seq<Event<S>>): (ts: seq<Tree>)
    requires forall e | e in evs :: e.IsToken()
    ensures |ts| == |evs|
  {
    if evs == [] then [] else [Leaf(TokenOf(sy, evs[0]))] + Leaves(sy, evs[1..])
  }

  /** A run of token events is read as one leaf each, up to an unmatched `FinishNode` or the end. */
  lemma {:induction false} ParseTokens<S>(sy: InnerSyntax<S>, evs: seq<Event<S>>, rest: seq<Event<S>>)
    requires forall e | e in evs :: e.IsToken()
    requires rest == [] || rest[0].FinishNode?
    ensures Parse(sy, evs + rest) == Some((Leaves(sy, evs), rest))
    decreases |evs|
  {
    if evs != [] {
      assert (evs + rest)[0] == evs[0];
      assert (evs + rest)[1..] == evs[1..] + rest;
      assert forall e | e in evs[1..] :: e in evs;
      assert evs[0] in evs;
      ParseTokens(sy, evs[1..], rest);
      assert Leaves(sy, evs) == [Leaf(TokenOf(sy, evs[0]))] + Leaves(sy, evs[1..]);
    } else {
      assert evs + rest == rest;
    }
  }

  /** A node holding only tokens is built as one node whose children are their leaves. */
  lemma FlatNode<S>(sy: InnerSyntax<S>, k: Syntax2D<S>, evs: seq<Event<S>>)
    requires forall e | e in evs :: e.IsToken()
    ensures Build(sy, [StartNode(k)] + evs + [FinishNode]) == Some(Node(IntoRaw(sy, k), Leaves(sy, evs)))
    ensures TokensOf(sy, [StartNode(k)] + evs + [FinishNode]) == TokensOf(sy, evs)
  {
    NodeOfTokens(sy, k, evs);
    TokensOfNode(sy, k, evs);
  }

  lemma TokensOfNode<S>(sy: InnerSyntax<S>, k: Syntax2D<S>, evs: seq<Event<S>>)
    ensures TokensOf(sy, [StartNode(k)] + evs + [FinishNode]) == TokensOf(sy, evs)
  {
    TokensOfBracket(sy, StartNode(k), evs, FinishNode, []);
    assert [StartNode(k)] + evs + [FinishNode] + [] == [StartNode(k)] + evs + [FinishNode];
  }

  /** How `Parse` reads a node holding only tokens. */
  lemma NodeOfTokens<S>(sy: InnerSyntax<S>, k: Syntax2D<S>, evs: seq<Event<S>>)
    requires forall e | e in evs :: e.IsToken()
    ensures Parse(sy, [StartNode(k)] + evs + [FinishNode]) == Some(([Node(IntoRaw(sy, k), Leaves(sy, evs))], []))
  {
    var all := [StartNode(k)] + evs + [FinishNode];
    var close: seq<Event<S>> := [FinishNode];
    assert all[0] == StartNode(k);
    assert all[1..] == evs + close;
    ParseTokens(sy, evs, close);
    assert close[1..] == [];
    var node := Node(IntoRaw(sy, k), Leaves(sy, evs));
    assert [node] + [] == [node];
  }

  /** The event in front contributes its token, if it has one, in front of the rest. */
  lemma TokensOfCons<S>(sy: InnerSyntax<S>, e: Event<S>, rest: seq<Event<S>>)
    ensures TokensOf(sy, [e] + rest) == (if e.IsToken() then [TokenOf(sy, e)] else []) + TokensOf(sy, rest)
  {
    assert ([e] + rest)[0] == e;
    assert ([e] + rest)[1..] == rest;
  }

}
