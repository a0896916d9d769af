/**
 * The traversal state both copies of `extract_text` thread through the walk:
 * the indentation stack and the pending-indentation flag, and how each token
 * changes them. The two copies differ only in what they write (modules `Lib`
 * and `Green`); the state changes are the same, and are defined once here.
 */
module Indentation {
  import opened Syntax
  import opened Cstree

  datatype IndentState = IndentState(stack: seq<string>, pending: bool)

  /** The state a walk starts from: an empty stack, nothing pending. */
  const Start: IndentState := IndentState([], false)

  /** The strings joined in order (`concat` on the stack). */
  function Concat(ss: seq<string>): string
  {
    if ss == [] then "" else Concat(ss[..|ss| - 1]) + ss[|ss| - 1]
  }

  lemma {:induction false} ConcatAppend(a: seq<string>, b: seq<string>)
    ensures Concat(a + b) == Concat(a) + Concat(b)
    decreases |b|
  {
    if b == [] {
      assert a + b == a;
    } else {
      var b' := b[..|b| - 1];
      var last := b[|b| - 1];
      assert (a + b)[..|a + b| - 1] == a + b';
      assert (a + b)[|a + b| - 1] == last;
      assert Concat(a + b) == Concat(a + b') + last;
      ConcatAppend(a, b');
      assert Concat(b) == Concat(b') + last;
    }
  }

  lemma ConcatCons(s: string, ss: seq<string>)
    ensures Concat([s] + ss) == s + Concat(ss)
  {
    ConcatAppend([s], ss);
    assert [s][..0] == [];
  }

  /** Joining the first `k` strings gives a prefix of joining them all. */
  lemma ConcatPrefix(ss: seq<string>, k: nat)
    requires k <= |ss|
    ensures Concat(ss[..k]) <= Concat(ss)
  {
    assert ss == ss[..k] + ss[k..];
    ConcatAppend(ss[..k], ss[k..]);
  }

  /** A token's text as the resolver gives it, or "" when it has none. */
  function TextOf(tok: GreenToken): string
  {
    if tok.text.Some? then tok.text.value else ""
  }

  /** Every token's kind can be decoded. */
  ghost predicate Decodable<S>(sy: InnerSyntax<S>, toks: seq<GreenToken>)
  {
    forall tok | tok in toks :: Decodes(sy, tok.kind)
  }

  /** `Vec::pop`, result discarded: removes the last entry, or does nothing on an empty stack. */
  function Pop(stack: seq<string>): seq<string>
  {
    if stack == [] then [] else stack[..|stack| - 1]
  }

  /**
   * How one token changes the state: an Indent pushes its text and sets the
   * flag; a Dedent pops; a Newline sets the flag exactly when the stack is
   * non-empty; any other token clears the flag.
   */
  function Advance<S>(sy: InnerSyntax<S>, st: IndentState, tok: GreenToken): IndentState
    requires Decodes(sy, tok.kind)
  {
    match FromRaw(sy, tok.kind)
    case Indent => IndentState(st.stack + [TextOf(tok)], true)
    case Dedent => IndentState(Pop(st.stack), st.pending)
    case Newline => IndentState(st.stack, st.stack != [])
    case Token(_) => IndentState(st.stack, false)
  }

  /**
   * A Dedent drops the innermost indentation and keeps the flag; on an empty
   * stack it changes nothing at all.
   */
  lemma DedentPops<S>(sy: InnerSyntax<S>, st: IndentState, tok: GreenToken)
    requires Decodes(sy, tok.kind) && tok.kind == DEDENT_RAW
    ensures st.stack == [] ==> Advance(sy, st, tok) == st
    ensures st.stack != [] ==> Advance(sy, st, tok) == IndentState(st.stack[..|st.stack| - 1], st.pending)
  {
  }

  /** The state after a sequence of tokens. */
  function Replay<S>(sy: InnerSyntax<S>, st: IndentState, toks: seq<GreenToken>): IndentState
    requires Decodable(sy, toks)
  {
    if toks == [] then st
    else Advance(sy, Replay(sy, st, toks[..|toks| - 1]), toks[|toks| - 1])
  }

  lemma {:induction false} ReplayAppend<S>(sy: InnerSyntax<S>, st: IndentState, a: seq<GreenToken>, b: seq<GreenToken>)
    requires Decodable(sy, a + b)
    ensures Decodable(sy, a) && Decodable(sy, b)
    ensures Replay(sy, st, a + b) == Replay(sy, Replay(sy, st, a), b)
    decreases |b|
  {
    assert forall tok | tok in a :: tok in a + b;
    assert forall tok | tok in b :: tok in a + b;
    if b == [] {
      assert a + b == a;
    } else {
      assert (a + b)[..|a + b| - 1] == a + b[..|b| - 1];
      ReplayAppend(sy, st, a, b[..|b| - 1]);
    }
  }

  /** The tokens of `a + b` all decode exactly when those of `a` and those of `b` do. */
  lemma DecodableAppend<S>(sy: InnerSyntax<S>, a: seq<GreenToken>, b: seq<GreenToken>)
    ensures Decodable(sy, a + b) <==> Decodable(sy, a) && Decodable(sy, b)
  {
    assert forall tok | tok in a :: tok in a + b;
    assert forall tok | tok in b :: tok in a + b;
  }

  /** What the walk needs to know when it reaches child `i` of a node whose tokens all decode. */
  lemma DecodableChild<S>(sy: InnerSyntax<S>, children: seq<Tree>, i: nat)
    requires i < |children| && Decodable(sy, FlattenAll(children))
    ensures FlattenAll(children[..i + 1]) == FlattenAll(children[..i]) + Flatten(children[i])
    ensures Decodable(sy, Flatten(children[i]))
    ensures Decodable(sy, FlattenAll(children[..i + 1]))
  {
    FlattenPrefix(children, i);
    FlattenAround(children, i);
    var done, child := FlattenAll(children[..i]), Flatten(children[i]);
    DecodableAppend(sy, done + child, FlattenAll(children[i + 1..]));
    DecodableAppend(sy, done, child);
  }

  lemma ReplayOne<S>(sy: InnerSyntax<S>, st: IndentState, tok: GreenToken)
    requires Decodes(sy, tok.kind)
    ensures Decodable(sy, [tok])
    ensures Replay(sy, st, [tok]) == Advance(sy, st, tok)
  {
    assert [tok][..0] == [];
  }

  /** The number of tokens of the given raw kind. */
  function Count(toks: seq<GreenToken>, raw: RawKind): nat
  {
    if toks == [] then 0
    else Count(toks[..|toks| - 1], raw) + (if toks[|toks| - 1].kind == raw then 1 else 0)
  }

  /**
   * Starting `depth` entries deep, no Dedent ever meets an empty stack: before
   * each Dedent, more entries have been pushed than popped.
   */
  ghost predicate NeverUnderflows(depth: nat, toks: seq<GreenToken>)
  {
    toks == [] ||
    var init := toks[..|toks| - 1];
    && NeverUnderflows(depth, init)
    && (toks[|toks| - 1].kind == DEDENT_RAW ==>
          depth + Count(init, INDENT_RAW) > Count(init, DEDENT_RAW))
  }

  /** Stack depth is the starting depth plus the Indents minus the Dedents. */
  lemma {:induction false} StackDepth<S>(sy: InnerSyntax<S>, st: IndentState, toks: seq<GreenToken>)
    requires Decodable(sy, toks)
    requires NeverUnderflows(|st.stack|, toks)
    ensures |Replay(sy, st, toks).stack| + Count(toks, DEDENT_RAW) == |st.stack| + Count(toks, INDENT_RAW)
    decreases |toks|
  {
    if toks != [] {
      var init := toks[..|toks| - 1];
      ReplayAppend(sy, st, init, [toks[|toks| - 1]]);
      assert init + [toks[|toks| - 1]] == toks;
      StackDepth(sy, st, init);
    }
  }

  /**
   * A balanced stretch of tokens only works above the stack it starts with:
   * what lies below is kept as it is, whatever the flag.
   */
  lemma {:induction false} StackFrame<S>(sy: InnerSyntax<S>, st: IndentState, pending: bool, toks: seq<GreenToken>)
    requires Decodable(sy, toks)
    requires NeverUnderflows(0, toks)
    ensures Replay(sy, st, toks).stack == st.stack + Replay(sy, IndentState([], pending), toks).stack
    decreases |toks|
  {
    if toks != [] {
      var init := toks[..|toks| - 1];
      var last := toks[|toks| - 1];
      ReplayAppend(sy, st, init, [last]);
      ReplayAppend(sy, IndentState([], pending), init, [last]);
      assert init + [last] == toks;
      StackFrame(sy, st, pending, init);
      var above := Replay(sy, IndentState([], pending), init).stack;
      if last.kind == DEDENT_RAW {
        StackDepth(sy, IndentState([], pending), init);
        assert above != [];
        assert (st.stack + above)[..|st.stack + above| - 1] == st.stack + above[..|above| - 1];
      }
    }
  }

  /** An Indent, a balanced body and a Dedent leave the stack as they found it. */
  lemma BlockRestoresStack<S>(sy: InnerSyntax<S>, st: IndentState, open: GreenToken, body: seq<GreenToken>, close: GreenToken)
    requires open.kind == INDENT_RAW && close.kind == DEDENT_RAW
    requires Decodable(sy, body)
    requires NeverUnderflows(0, body) && Count(body, INDENT_RAW) == Count(body, DEDENT_RAW)
    ensures Decodable(sy, [open] + body + [close])
    ensures Replay(sy, st, [open] + body + [close]).stack == st.stack
  {
    assert Decodable(sy, [open] + body + [close]);
    ReplayAppend(sy, st, [open] + body, [close]);
    ReplayAppend(sy, st, [open], body);
    assert Replay(sy, st, [open]) == Advance(sy, st, open) by {
      assert [open][..0] == [];
    }
    var entered := Replay(sy, st, [open]);
    assert entered.stack == st.stack + [TextOf(open)];
    StackFrame(sy, entered, false, body);
    StackDepth(sy, IndentState([], false), body);
    assert Replay(sy, IndentState([], false), body).stack == [];
    assert Replay(sy, entered, body).stack == st.stack + [TextOf(open)];
  }

  /** With a caller decoder that accepts its own encodings, every token a builder appends can be decoded. */
  lemma {:induction false} EventsDecode<S(!new)>(sy: InnerSyntax<S>, evs: seq<Event<S>>)
    requires InnerRoundTrips(sy)
    ensures Decodable(sy, TokensOf(sy, evs))
    decreases |evs|
  {
    if evs != [] {
      EventsDecode(sy, evs[1..]);
      if evs[0].IsToken() {
        EncodedDecodes(sy, evs[0].kind);
      }
    }
  }
}
