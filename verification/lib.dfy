/**
 * The top-level crate (src/lib.rs): its `Builder` facade and its
 * `extract_text`, which walks a green tree and appends to a `String`.
 * A token without text reads as "" here, and a Newline writes "\n" only.
 */
module Lib {
  import opened Syntax
  import opened Cstree
  import opened Indentation

  /**
   * What one token appends to the output: a Newline appends "\n"; any other
   * non-marker token appends its text, preceded by the whole stack joined in
   * push order when indentation is pending; Indent and Dedent append nothing.
   */
  function Emit<S>(sy: InnerSyntax<S>, st: IndentState, tok: GreenToken): string
    requires Decodes(sy, tok.kind)
  {
    match FromRaw(sy, tok.kind)
    case Newline => "\n"
    case Token(_) => (if st.pending then Concat(st.stack) else "") + TextOf(tok)
    case _ => ""
  }

  /** The text `extract_text` produces for a token sequence, starting from state `st`. */
  function Output<S>(sy: InnerSyntax<S>, st: IndentState, toks: seq<GreenToken>): string
    requires Decodable(sy, toks)
  {
    if toks == [] then ""
    else
      var init := toks[..|toks| - 1];
      Output(sy, st, init) + Emit(sy, Replay(sy, st, init), toks[|toks| - 1])
  }

  /** The output for `a + b` is the output for `a` followed by that for `b` from the state `a` leaves. */
  lemma {:induction false} OutputAppend<S>(sy: InnerSyntax<S>, st: IndentState, a: seq<GreenToken>, b: seq<GreenToken>)
    requires Decodable(sy, a + b)
    ensures Decodable(sy, a) && Decodable(sy, b)
    ensures Output(sy, st, a + b) == Output(sy, st, a) + Output(sy, Replay(sy, st, a), b)
    decreases |b|
  {
    ReplayAppend(sy, st, a, b);
    if b == [] {
      assert a + b == a;
    } else {
      var b' := b[..|b| - 1];
      assert (a + b)[..|a + b| - 1] == a + b';
      OutputAppend(sy, st, a, b');
      ReplayAppend(sy, st, a, b');
    }
  }

  lemma OutputOne<S>(sy: InnerSyntax<S>, st: IndentState, tok: GreenToken)
    requires Decodes(sy, tok.kind)
    ensures Decodable(sy, [tok])
    ensures Output(sy, st, [tok]) == Emit(sy, st, tok)
  {
    assert [tok][..0] == [];
  }

  /** One more token: the state moves on by `Advance` and the output grows by `Emit`. */
  lemma OutputSnoc<S>(sy: InnerSyntax<S>, st: IndentState, toks: seq<GreenToken>, tok: GreenToken)
    requires Decodable(sy, toks) && Decodes(sy, tok.kind)
    ensures Decodable(sy, toks + [tok])
    ensures Replay(sy, st, toks + [tok]) == Advance(sy, Replay(sy, st, toks), tok)
    ensures Output(sy, st, toks + [tok]) == Output(sy, st, toks) + Emit(sy, Replay(sy, st, toks), tok)
  {
    assert (toks + [tok])[..|toks|] == toks;
  }

  lemma AppendAssoc(a: string, b: string, c: string)
    ensures (a + b) + c == a + (b + c)
  {
  }

  /** Output is written in document order and never taken back: a walk over more tokens extends it. */
  lemma OutputExtends<S>(sy: InnerSyntax<S>, st: IndentState, a: seq<GreenToken>, b: seq<GreenToken>)
    requires Decodable(sy, a + b)
    ensures Decodable(sy, a)
    ensures Output(sy, st, a) <= Output(sy, st, a + b)
  {
    OutputAppend(sy, st, a, b);
  }

  /** The token texts with "\n" for each Newline and nothing for Indent and Dedent. */
  function Verbatim<S>(sy: InnerSyntax<S>, toks: seq<GreenToken>): string
    requires Decodable(sy, toks)
  {
    if toks == [] then ""
    else
      var last := toks[|toks| - 1];
      Verbatim(sy, toks[..|toks| - 1])
        + (match FromRaw(sy, last.kind)
           case Newline => "\n"
           case Token(_) => TextOf(last)
           case _ => "")
  }

  /** Without any Indent, and from an empty stack, the walk writes the tokens verbatim. */
  lemma {:induction false} NoIndentIsVerbatim<S>(sy: InnerSyntax<S>, st: IndentState, toks: seq<GreenToken>)
    requires Decodable(sy, toks)
    requires st.stack == [] && Count(toks, INDENT_RAW) == 0
    ensures Replay(sy, st, toks).stack == []
    ensures Output(sy, st, toks) == Verbatim(sy, toks)
    decreases |toks|
  {
    if toks != [] {
      var init, last := toks[..|toks| - 1], toks[|toks| - 1];
      assert forall tok | tok in init :: tok in toks;
      assert last in toks;
      assert last.kind != INDENT_RAW;
      NoIndentIsVerbatim(sy, st, init);
      var mid := Replay(sy, st, init);
      assert Concat(mid.stack) == "";
      var piece := match FromRaw(sy, last.kind)
        case Newline => "\n"
        case Token(_) => TextOf(last)
        case _ => "";
      assert Emit(sy, mid, last) == piece;
      assert Advance(sy, mid, last).stack == [];
      assert Verbatim(sy, toks) == Verbatim(sy, init) + piece;
    }
  }

  /** All tokens are ordinary (non-marker) tokens. */
  ghost predicate AllOrdinary(toks: seq<GreenToken>)
  {
    forall tok | tok in toks :: tok.kind < INDENT_RAW
  }

  /**
   * A line of ordinary tokens started with indentation pending gets the
   * stack, joined in push order, exactly once in front of its first token,
   * and the flag is cleared after it.
   */
  lemma {:induction false} IndentedLine<S>(sy: InnerSyntax<S>, st: IndentState, toks: seq<GreenToken>)
    requires Decodable(sy, toks) && AllOrdinary(toks)
    requires st.pending && toks != []
    ensures Replay(sy, st, toks) == IndentState(st.stack, false)
    ensures Output(sy, st, toks) == Concat(st.stack) + Verbatim(sy, toks)
    decreases |toks|
  {
    var init := toks[..|toks| - 1];
    var last := toks[|toks| - 1];
    assert toks == init + [last];
    assert last in toks;
    assert FromRaw(sy, last.kind).Token?;
    if init == [] {
      assert Output(sy, st, toks) == Emit(sy, st, last);
      assert Verbatim(sy, toks) == TextOf(last);
    } else {
      assert forall tok | tok in init :: tok in toks;
      IndentedLine(sy, st, init);
      OutputSnoc(sy, st, init, last);
      var mid := Replay(sy, st, init);
      assert Emit(sy, mid, last) == TextOf(last);
      assert Verbatim(sy, toks) == Verbatim(sy, init) + TextOf(last);
      AppendAssoc(Concat(st.stack), Verbatim(sy, init), TextOf(last));
    }
  }

  /**
   * The walking state of `extract_text`: the indentation stack, the pending
   * flag and the output string, all updated in place as the walk proceeds.
   */
  class Walker<S> {
    const sy: InnerSyntax<S>
    var stack: seq<string>
    var pending: bool
    var output: string

    constructor(sy: InnerSyntax<S>)
      ensures this.sy == sy
      ensures stack == [] && !pending && output == ""
    {
      this.sy := sy;
      stack, pending, output := [], false, "";
    }

    function State(): IndentState
      reads this
    {
      IndentState(stack, pending)
    }

    /** The token arm of `walk`: decode the kind, then update the stack, the flag and the output. */
    method VisitToken(tok: GreenToken)
      requires Decodes(sy, tok.kind)
      modifies this
      ensures State() == Advance(sy, old(State()), tok)
      ensures output == old(output) + Emit(sy, old(State()), tok)
    {
      var kind := FromRaw(sy, tok.kind);
      var text := if tok.text.Some? then tok.text.value else "";
      match kind {
        case Indent =>
          stack := stack + [text];
          pending := true;
        case Dedent =>
          if stack != [] {
            stack := stack[..|stack| - 1];
          }
        case Newline =>
          output := output + "\n";
          pending := stack != [];
        case Token(_) =>
          if pending {
            output := output + Concat(stack);
            pending := false;
          }
          output := output + text;
      }
    }

    /** `walk`: visits the children of `node` in order, recursing into child nodes with the same state. */
    method Walk(node: Tree)
      requires node.Node? && Decodable(sy, Flatten(node))
      modifies this
      ensures State() == Replay(sy, old(State()), Flatten(node))
      ensures output == old(output) + Output(sy, old(State()), Flatten(node))
      decreases node
    {
      ghost var st0, out0 := State(), output;
      var children := node.children;
      for i := 0 to |children|
        invariant Decodable(sy, FlattenAll(children[..i]))
        invariant State() == Replay(sy, st0, FlattenAll(children[..i]))
        invariant output == out0 + Output(sy, st0, FlattenAll(children[..i]))
      {
        var child := children[i];
        ghost var done := FlattenAll(children[..i]);
        ghost var outDone := output;
        DecodableChild(sy, children, i);
        match child {
          case Leaf(tok) =>
            assert tok in Flatten(child);
            ReplayOne(sy, State(), tok);
            OutputOne(sy, State(), tok);
            VisitToken(tok);
          case Node(_, _) =>
            Walk(child);
        }
        ReplayAppend(sy, st0, done, Flatten(child));
        OutputAppend(sy, st0, done, Flatten(child));
        AppendAssoc(out0, Output(sy, st0, done), Output(sy, Replay(sy, st0, done), Flatten(child)));
      }
      assert children[..|children|] == children;
    }
  }

  /** `extract_text`: the text of a tree, walked from an empty stack with nothing pending. */
  method ExtractText<S>(sy: InnerSyntax<S>, root: Tree) returns (text: string)
    requires root.Node? && Decodable(sy, Flatten(root))
    ensures text == Output(sy, Start, Flatten(root))
  {
    var w := new Walker(sy);
    w.Walk(root);
    text := w.output;
  }

  /**
   * The builder facade: each call appends one call on the underlying
   * `GreenNodeBuilder`, recorded here as an event. Caller kinds are wrapped
   * as `Token(kind)`; Dedent and Newline tokens carry the literal texts ""
   * and "\n".
   */
  class Builder<S> {
    var events: seq<Event<S>>

    constructor()
      ensures events == []
    {
      events := [];
    }

    method StartNode(kind: S)
      modifies this
      ensures events == old(events) + [Event.StartNode(Syntax2D.Token(kind))]
    {
      events := events + [Event.StartNode(Syntax2D.Token(kind))];
    }

    method FinishNode()
      modifies this
      ensures events == old(events) + [Event.FinishNode]
    {
      events := events + [Event.FinishNode];
    }

    method Token(kind: S, text: string)
      modifies this
      ensures events == old(events) + [AddToken(Syntax2D.Token(kind), text)]
    {
      events := events + [AddToken(Syntax2D.Token(kind), text)];
    }

    method Indent(indent: string)
      modifies this
      ensures events == old(events) + [AddToken(Syntax2D.Indent, indent)]
    {
      events := events + [AddToken(Syntax2D.Indent, indent)];
    }

    method Dedent()
      modifies this
      ensures events == old(events) + [AddToken(Syntax2D.Dedent, "")]
    {
      events := events + [AddToken(Syntax2D.Dedent, "")];
    }

    method Newline()
      modifies this
      ensures events == old(events) + [AddToken(Syntax2D.Newline, "\n")]
    {
      events := events + [AddToken(Syntax2D.Newline, "\n")];
    }

    /** `finish`: the built tree, or `None` on any log that is not one well-nested node (the model's choice). */
    method Finish(sy: InnerSyntax<S>) returns (root: Option<Tree>)
      ensures root == Build(sy, events)
      ensures root.Some? ==> root.value.Node? && Flatten(root.value) == TokensOf(sy, events)
    {
      root := Build(sy, events);
      if root.Some? {
        BuildKeepsTokenOrder(sy, events);
      }
    }
  }
}
