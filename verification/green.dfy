/**
 * The `cstree2d` crate's green-tree layer (cstree2d/src/green.rs): its
 * `Builder` facade, which adds Dedent and Newline as static (textless)
 * tokens, and its `extract_text`, which writes piece by piece to a fallible
 * `Formatter` and gives up at the first failed write.
 *
 * What the walk writes is specified as the sequence of `write_str`
 * arguments (`AllWrites`); what a formatter makes of such a sequence,
 * including a failure part-way, is `Run`.
 */
module Green {
  import opened Syntax
  import opened Cstree
  import opened Indentation
  import Lib

  /** Every token whose text `walk` unwraps (an Indent or a caller token) has one. */
  ghost predicate TextsPresent(toks: seq<GreenToken>)
  {
    forall tok | tok in toks :: tok.kind <= INDENT_RAW ==> tok.text.Some?
  }

  /**
   * The strings one token hands to `write_str`, in order: a Newline writes
   * the stack entries in push order when indentation is pending, then "\n";
   * a caller token does the same with its own text in place of "\n"; Indent
   * and Dedent write nothing.
   */
  function Writes<S>(sy: InnerSyntax<S>, st: IndentState, tok: GreenToken): seq<string>
    requires Decodes(sy, tok.kind)
  {
    var indentation := if st.pending then st.stack else [];
    match FromRaw(sy, tok.kind)
    case Newline => indentation + ["\n"]
    case Token(_) => indentation + [TextOf(tok)]
    case _ => []
  }

  /** The strings a walk over `toks` from state `st` hands to `write_str`, in order. */
  function AllWrites<S>(sy: InnerSyntax<S>, st: IndentState, toks: seq<GreenToken>): seq<string>
    requires Decodable(sy, toks)
  {
    if toks == [] then []
    else
      var init := toks[..|toks| - 1];
      AllWrites(sy, st, init) + Writes(sy, Replay(sy, st, init), toks[|toks| - 1])
  }

  lemma {:induction false} AllWritesAppend<S>(sy: InnerSyntax<S>, st: IndentState, a: seq<GreenToken>, b: seq<GreenToken>)
    requires Decodable(sy, a + b)
    ensures Decodable(sy, a) && Decodable(sy, b)
    ensures AllWrites(sy, st, a + b) == AllWrites(sy, st, a) + AllWrites(sy, Replay(sy, st, a), b)
    decreases |b|
  {
    ReplayAppend(sy, st, a, b);
    if b == [] {
      assert a + b == a;
    } else {
      var b' := b[..|b| - 1];
      assert (a + b)[..|a + b| - 1] == a + b';
      AllWritesAppend(sy, st, a, b');
      ReplayAppend(sy, st, a, b');
    }
  }

  lemma AllWritesOne<S>(sy: InnerSyntax<S>, st: IndentState, tok: GreenToken)
    requires Decodes(sy, tok.kind)
    ensures Decodable(sy, [tok])
    ensures AllWrites(sy, st, [tok]) == Writes(sy, st, tok)
  {
    assert [tok][..0] == [];
  }

  /** What a `write_str` call returns (`fmt::Result`). */
  datatype FmtResult = Ok | Err

  /**
   * A formatter's sink: the text written so far, and how many more
   * `write_str` calls it accepts before failing (`None`: it never fails).
   */
  datatype FmtState = FmtState(written: string, budget: Option<nat>)

  /** One `write_str`: fails without writing once the budget is spent, otherwise appends `s`. */
  function Write(fs: FmtState, s: string): (FmtResult, FmtState)
  {
    if fs.budget == Some(0) then (Err, fs)
    else
      var budget := if fs.budget.Some? then Some(fs.budget.value - 1) else None;
      (Ok, FmtState(fs.written + s, budget))
  }

  /** A run of `write_str(..)?` calls: write each string in turn, stopping at the first failure. */
  function Run(fs: FmtState, ws: seq<string>): (FmtResult, FmtState)
    decreases |ws|
  {
    if ws == [] then (Ok, fs)
    else
      var (r, fs') := Write(fs, ws[0]);
      if r == Err then (Err, fs') else Run(fs', ws[1..])
  }

  /** The budget allows `n` more writes. */
  predicate Fits(budget: Option<nat>, n: nat)
  {
    budget.None? || n <= budget.value
  }

  /** The budget after `n` successful writes. */
  function Spend(budget: Option<nat>, n: nat): Option<nat>
    requires Fits(budget, n)
  {
    if budget.None? then None else Some(budget.value - n)
  }

  /** Writing `a + b` is writing `a`, then, if that succeeded, writing `b`. */
  lemma {:induction false} RunAppend(fs: FmtState, a: seq<string>, b: seq<string>)
    ensures Run(fs, a + b) == (if Run(fs, a).0 == Err then Run(fs, a) else Run(Run(fs, a).1, b))
    decreases |a|
  {
    if a == [] {
      assert a + b == b;
    } else {
      assert (a + b)[0] == a[0];
      assert (a + b)[1..] == a[1..] + b;
      var (r, fs') := Write(fs, a[0]);
      if r == Ok {
        RunAppend(fs', a[1..], b);
      }
    }
  }

  lemma RunOne(fs: FmtState, s: string)
    ensures Run(fs, [s]) == Write(fs, s)
  {
    assert [s][1..] == [];
  }

  /** Writing one more string after `ws`. */
  lemma RunSnoc(fs: FmtState, ws: seq<string>, s: string)
    ensures Run(fs, ws + [s]) == (if Run(fs, ws).0 == Err then Run(fs, ws) else Write(Run(fs, ws).1, s))
  {
    RunAppend(fs, ws, [s]);
    RunOne(Run(fs, ws).1, s);
  }

  /**
   * The whole effect of a run of writes: with enough budget, every string is
   * written in order and the run succeeds; otherwise the run fails after
   * exactly the strings the budget allowed, and nothing after them.
   */
  lemma {:induction false} RunClosedForm(fs: FmtState, ws: seq<string>)
    ensures Run(fs, ws).0 == Ok <==> Fits(fs.budget, |ws|)
    ensures Fits(fs.budget, |ws|) ==>
      Run(fs, ws).1 == FmtState(fs.written + Concat(ws), Spend(fs.budget, |ws|))
    ensures !Fits(fs.budget, |ws|) ==>
      Run(fs, ws).1 == FmtState(fs.written + Concat(ws[..fs.budget.value]), Some(0))
    decreases |ws|
  {
    if ws != [] && fs.budget != Some(0) {
      var fs' := Write(fs, ws[0]).1;
      RunClosedForm(fs', ws[1..]);
      var k := if Fits(fs.budget, |ws|) then |ws| else fs.budget.value;
      TakeCons(ws, k);
      ConcatCons(ws[0], ws[1..][..k - 1]);
      Lib.AppendAssoc(fs.written, ws[0], Concat(ws[1..][..k - 1]));
      assert ws[..|ws|] == ws;
      assert ws[1..][..|ws| - 1] == ws[1..];
    }
  }

  /** The first `k` strings are the first one followed by the next `k - 1`. */
  lemma TakeCons<T>(xs: seq<T>, k: nat)
    requires 0 < k <= |xs|
    ensures xs[..k] == [xs[0]] + xs[1..][..k - 1]
  {
  }

  /** Whatever a run leaves written is a prefix of what it writes when nothing fails. */
  lemma FailureWritesPrefix(fs: FmtState, ws: seq<string>)
    ensures Run(fs, ws).1.written <= fs.written + Concat(ws)
    ensures Run(fs, ws).0 == Err ==> Run(fs, ws).1.budget == Some(0)
  {
    RunClosedForm(fs, ws);
    if !Fits(fs.budget, |ws|) {
      ConcatPrefix(ws, fs.budget.value);
    }
  }

  /** A `core::fmt::Formatter`, reduced to its sink. */
  class Formatter {
    var written: string
    var budget: Option<nat>

    constructor(budget: Option<nat>)
      ensures written == "" && this.budget == budget
    {
      written, this.budget := "", budget;
    }

    function State(): FmtState
      reads this
    {
      FmtState(written, budget)
    }

    /** `Formatter::write_str` */
    method WriteStr(s: string) returns (r: FmtResult)
      modifies this
      ensures (r, State()) == Write(old(State()), s)
    {
      if budget == Some(0) {
        return Err;
      }
      written := written + s;
      if budget.Some? {
        budget := Some(budget.value - 1);
      }
      r := Ok;
    }
  }

  /** The walking state of `extract_text`: the indentation stack and the pending flag. */
  class Walker<S> {
    const sy: InnerSyntax<S>
    var stack: seq<string>
    var pending: bool

    constructor(sy: InnerSyntax<S>)
      ensures this.sy == sy
      ensures stack == [] && !pending
    {
      this.sy := sy;
      stack, pending := [], false;
    }

    function State(): IndentState
      reads this
    {
      IndentState(stack, pending)
    }

    /** The `for indent in indentation_stack.iter()` loop: each entry in push order, returning at a failure. */
    method WriteIndentation(f: Formatter) returns (r: FmtResult)
      modifies f
      ensures (r, f.State()) == Run(old(f.State()), stack)
    {
      ghost var fs0 := f.State();
      r := Ok;
      for i := 0 to |stack|
        invariant r == Ok
        invariant (Ok, f.State()) == Run(fs0, stack[..i])
      {
        r := f.WriteStr(stack[i]);
        assert stack[..i + 1] == stack[..i] + [stack[i]];
        RunSnoc(fs0, stack[..i], stack[i]);
        if r == Err {
          assert stack == stack[..i + 1] + stack[i + 1..];
          RunAppend(fs0, stack[..i + 1], stack[i + 1..]);
          return;
        }
      }
      assert stack[..|stack|] == stack;
    }

    /**
     * The token arm of `walk`: what it writes is `Writes` of the token, and
     * when every write succeeds the state moves on as `Advance` says.
     */
    method VisitToken(tok: GreenToken, f: Formatter) returns (r: FmtResult)
      requires Decodes(sy, tok.kind) && TextsPresent([tok])
      modifies this, f
      ensures (r, f.State()) == Run(old(f.State()), Writes(sy, old(State()), tok))
      ensures r == Ok ==> State() == Advance(sy, old(State()), tok)
    {
      ghost var fs0 := f.State();
      assert tok in [tok];
      var kind := FromRaw(sy, tok.kind);
      match kind {
        case Indent =>
          stack := stack + [tok.text.value];
          pending := true;
          r := Ok;
        case Dedent =>
          if stack != [] {
            stack := stack[..|stack| - 1];
          }
          r := Ok;
        case Newline =>
          ghost var indentation := if pending then stack else [];
          if pending {
            r := WriteIndentation(f);
            if r == Err {
              RunAppend(fs0, stack, ["\n"]);
              return;
            }
          }
          ghost var fs1 := f.State();
          assert Run(fs0, indentation) == (Ok, fs1);
          r := f.WriteStr("\n");
          RunSnoc(fs0, indentation, "\n");
          pending := stack != [];
        case Token(_) =>
          ghost var indentation := if pending then stack else [];
          if pending {
            r := WriteIndentation(f);
            if r == Err {
              RunAppend(fs0, stack, [tok.text.value]);
              return;
            }
            pending := false;
          }
          assert Run(fs0, indentation) == (Ok, f.State());
          r := f.WriteStr(tok.text.value);
          RunSnoc(fs0, indentation, tok.text.value);
      }
    }

    /**
     * `walk`: visits the children of `node` in order, recursing into child
     * nodes with the same state and formatter, and returns the first failure.
     */
    method Walk(node: Tree, f: Formatter) returns (r: FmtResult)
      requires node.Node? && Decodable(sy, Flatten(node)) && TextsPresent(Flatten(node))
      modifies this, f
      ensures (r, f.State()) == Run(old(f.State()), AllWrites(sy, old(State()), Flatten(node)))
      ensures r == Ok ==> State() == Replay(sy, old(State()), Flatten(node))
      decreases node
    {
      ghost var st0, fs0 := State(), f.State();
      var children := node.children;
      for i := 0 to |children|
        invariant Decodable(sy, FlattenAll(children[..i]))
        invariant State() == Replay(sy, st0, FlattenAll(children[..i]))
        invariant (Ok, f.State()) == Run(fs0, AllWrites(sy, st0, FlattenAll(children[..i])))
      {
        var child := children[i];
        ghost var done := FlattenAll(children[..i]);
        ghost var wsDone := AllWrites(sy, st0, done);
        DecodableChild(sy, children, i);
        ChildTextsPresent(children, i);
        match child {
          case Leaf(tok) =>
            assert tok in Flatten(child);
            ReplayOne(sy, State(), tok);
            AllWritesOne(sy, State(), tok);
            r := VisitToken(tok, f);
          case Node(_, _) =>
            r := Walk(child, f);
        }
        ReplayAppend(sy, st0, done, Flatten(child));
        AllWritesAppend(sy, st0, done, Flatten(child));
        RunAppend(fs0, wsDone, AllWrites(sy, Replay(sy, st0, done), Flatten(child)));
        if r == Err {
          WalkStops(sy, st0, fs0, children, i);
          return;
        }
      }
      assert children[..|children|] == children;
      r := Ok;
    }
  }

  /** What the walk needs to know about texts when it reaches child `i`. */
  lemma ChildTextsPresent(children: seq<Tree>, i: nat)
    requires i < |children| && TextsPresent(FlattenAll(children))
    ensures TextsPresent(Flatten(children[i]))
  {
    FlattenStep(children, i);
  }

  /** A failure inside child `i` is the failure of the whole node: the later children write nothing. */
  lemma WalkStops<S>(sy: InnerSyntax<S>, st: IndentState, fs: FmtState, children: seq<Tree>, i: nat)
    requires i < |children| && Decodable(sy, FlattenAll(children))
    requires Decodable(sy, FlattenAll(children[..i + 1]))
    requires Run(fs, AllWrites(sy, st, FlattenAll(children[..i + 1]))).0 == Err
    ensures Run(fs, AllWrites(sy, st, FlattenAll(children)))
         == Run(fs, AllWrites(sy, st, FlattenAll(children[..i + 1])))
  {
    var front := children[..i + 1];
    FlattenAround(children, i);
    AllWritesAppend(sy, st, FlattenAll(front), FlattenAll(children[i + 1..]));
    RunAppend(fs, AllWrites(sy, st, FlattenAll(front)),
      AllWrites(sy, Replay(sy, st, FlattenAll(front)), FlattenAll(children[i + 1..])));
  }

  /**
   * `extract_text`: walks the tree from an empty stack with nothing pending,
   * writing to `f`; on success `f` holds the whole text, on failure exactly
   * the writes that preceded it.
   */
  method ExtractText<S>(sy: InnerSyntax<S>, root: Tree, f: Formatter) returns (r: FmtResult)
    requires root.Node? && Decodable(sy, Flatten(root)) && TextsPresent(Flatten(root))
    modifies f
    ensures (r, f.State()) == Run(old(f.State()), AllWrites(sy, Start, Flatten(root)))
  {
    var w := new Walker(sy);
    r := w.Walk(root, f);
  }

  /** The text a walk writes when no write fails. */
  function FullText<S>(sy: InnerSyntax<S>, st: IndentState, toks: seq<GreenToken>): string
    requires Decodable(sy, toks)
  {
    Concat(AllWrites(sy, st, toks))
  }

  /**
   * No Newline is met while indentation is pending: every line break comes
   * after some token has already written the indentation it was waiting for.
   */
  ghost predicate NoPendingNewline<S>(sy: InnerSyntax<S>, st: IndentState, toks: seq<GreenToken>)
    requires Decodable(sy, toks)
  {
    toks == [] ||
    var init := toks[..|toks| - 1];
    && NoPendingNewline(sy, st, init)
    && (toks[|toks| - 1].kind == NEWLINE_RAW ==> !Replay(sy, st, init).pending)
  }

  /**
   * Per token, this copy writes what the `src/lib.rs` copy appends, except
   * that a Newline met with indentation pending is preceded by the stack.
   */
  lemma WritesVersusEmit<S>(sy: InnerSyntax<S>, st: IndentState, tok: GreenToken)
    requires Decodes(sy, tok.kind)
    ensures Concat(Writes(sy, st, tok))
         == (if tok.kind == NEWLINE_RAW && st.pending then Concat(st.stack) else "") + Lib.Emit(sy, st, tok)
  {
    var indentation := if st.pending then st.stack else [];
    assert Concat([]) == "";
    match FromRaw(sy, tok.kind)
    case Newline =>
      ConcatAppend(indentation, ["\n"]);
      assert Concat(["\n"]) == "\n" by { assert ["\n"][..0] == []; }
    case Token(_) =>
      ConcatAppend(indentation, [TextOf(tok)]);
      assert Concat([TextOf(tok)]) == TextOf(tok) by { assert [TextOf(tok)][..0] == []; }
    case _ =>
  }

  /** Where no Newline is met while indentation is pending, both copies produce the same text. */
  lemma {:induction false} AgreesWithLib<S>(sy: InnerSyntax<S>, st: IndentState, toks: seq<GreenToken>)
    requires Decodable(sy, toks) && NoPendingNewline(sy, st, toks)
    ensures FullText(sy, st, toks) == Lib.Output(sy, st, toks)
    decreases |toks|
  {
    if toks != [] {
      var init := toks[..|toks| - 1];
      var last := toks[|toks| - 1];
      assert forall tok | tok in init :: tok in toks;
      AgreesWithLib(sy, st, init);
      ConcatAppend(AllWrites(sy, st, init), Writes(sy, Replay(sy, st, init), last));
      WritesVersusEmit(sy, Replay(sy, st, init), last);
    }
  }

  /**
   * One more token: the text grows by what the `src/lib.rs` copy appends,
   * preceded by the stack when the token is a Newline met with indentation pending.
   */
  lemma FullTextSnoc<S>(sy: InnerSyntax<S>, st: IndentState, toks: seq<GreenToken>, tok: GreenToken)
    requires Decodable(sy, toks) && Decodes(sy, tok.kind)
    ensures Decodable(sy, toks + [tok])
    ensures var before := Replay(sy, st, toks);
      FullText(sy, st, toks + [tok])
        == FullText(sy, st, toks)
           + (if tok.kind == NEWLINE_RAW && before.pending then Concat(before.stack) else "")
           + Lib.Emit(sy, before, tok)
  {
    var before := Replay(sy, st, toks);
    AllWritesOne(sy, before, tok);
    AllWritesAppend(sy, st, toks, [tok]);
    ConcatAppend(AllWrites(sy, st, toks), Writes(sy, before, tok));
    WritesVersusEmit(sy, before, tok);
    var pad := if tok.kind == NEWLINE_RAW && before.pending then Concat(before.stack) else "";
    Lib.AppendAssoc(FullText(sy, st, toks), pad, Lib.Emit(sy, before, tok));
  }

  /**
   * What the `src/lib.rs` copy appends for one token, split into the pieces
   * this copy writes: the same, except that a Newline is "\n" alone.
   */
  function EmitPieces<S>(sy: InnerSyntax<S>, st: IndentState, tok: GreenToken): (ps: seq<string>)
    requires Decodes(sy, tok.kind)
    ensures Concat(ps) == Lib.Emit(sy, st, tok)
  {
    WritesVersusEmit(sy, st, tok);
    assert Concat(["\n"]) == "\n" by { assert ["\n"][..0] == []; }
    if tok.kind == NEWLINE_RAW then ["\n"] else Writes(sy, st, tok)
  }

  /**
   * Both copies' walks as one forward pass over the tokens: the final state,
   * the pieces the `src/lib.rs` copy appends and the strings this copy
   * hands to `write_str`.
   */
  function Simulate<S>(sy: InnerSyntax<S>, st: IndentState, toks: seq<GreenToken>)
    : (IndentState, seq<string>, seq<string>)
    requires Decodable(sy, toks)
    decreases |toks|
  {
    if toks == [] then (st, [], [])
    else
      var tok := toks[0];
      var (st', lib, green) := Simulate(sy, Advance(sy, st, tok), toks[1..]);
      (st', EmitPieces(sy, st, tok) + lib, Writes(sy, st, tok) + green)
  }

  /** The forward pass computes the state, the `src/lib.rs` text and this copy's writes. */
  lemma {:induction false} SimulateAgrees<S>(sy: InnerSyntax<S>, st: IndentState, toks: seq<GreenToken>)
    requires Decodable(sy, toks)
    ensures Simulate(sy, st, toks).0 == Replay(sy, st, toks)
    ensures Concat(Simulate(sy, st, toks).1) == Lib.Output(sy, st, toks)
    ensures Simulate(sy, st, toks).2 == AllWrites(sy, st, toks)
    decreases |toks|
  {
    if toks != [] {
      var tok, rest := toks[0], toks[1..];
      assert toks == [tok] + rest;
      assert tok in toks;
      var next := Advance(sy, st, tok);
      SimulateAgrees(sy, next, rest);
      FirstToken(sy, st, tok, rest);
      ConcatAppend(EmitPieces(sy, st, tok), Simulate(sy, next, rest).1);
    }
  }

  /** The first token's share of the state, the `src/lib.rs` text and this copy's writes. */
  lemma FirstToken<S>(sy: InnerSyntax<S>, st: IndentState, tok: GreenToken, rest: seq<GreenToken>)
    requires Decodable(sy, [tok] + rest)
    ensures Decodes(sy, tok.kind) && Decodable(sy, rest)
    ensures Replay(sy, st, [tok] + rest) == Replay(sy, Advance(sy, st, tok), rest)
    ensures Lib.Output(sy, st, [tok] + rest) == Lib.Emit(sy, st, tok) + Lib.Output(sy, Advance(sy, st, tok), rest)
    ensures AllWrites(sy, st, [tok] + rest) == Writes(sy, st, tok) + AllWrites(sy, Advance(sy, st, tok), rest)
  {
    assert tok in [tok] + rest;
    ReplayAppend(sy, st, [tok], rest);
    ReplayOne(sy, st, tok);
    Lib.OutputAppend(sy, st, [tok], rest);
    Lib.OutputOne(sy, st, tok);
    AllWritesAppend(sy, st, [tok], rest);
    AllWritesOne(sy, st, tok);
  }

  /** The markers this builder adds as static tokens: only Dedent and Newline. */
  ghost predicate StaticMarkersOnly<S>(evs: seq<Event<S>>)
  {
    forall e | e in evs && e.AddStaticToken? :: e.kind.Dedent? || e.kind.Newline?
  }

  /** A tree from such a builder has a text for every token `walk` unwraps. */
  lemma {:induction false} BuiltTextsPresent<S>(sy: InnerSyntax<S>, evs: seq<Event<S>>)
    requires StaticMarkersOnly(evs)
    ensures TextsPresent(TokensOf(sy, evs))
    decreases |evs|
  {
    if evs != [] {
      assert forall e | e in evs[1..] :: e in evs;
      BuiltTextsPresent(sy, evs[1..]);
      assert evs[0] in evs;
    }
  }

  /**
   * The builder facade of this crate: like the `src/lib.rs` one, except that
   * Dedent and Newline are static tokens that store no text.
   */
  class Builder<S> {
    var events: seq<Event<S>>

    ghost predicate Valid()
      reads this
    {
      StaticMarkersOnly(events)
    }

    constructor()
      ensures Valid() && events == []
    {
      events := [];
    }

    method StartNode(kind: S)
      requires Valid()
      modifies this
      ensures Valid()
      ensures events == old(events) + [Event.StartNode(Syntax2D.Token(kind))]
    {
      events := events + [Event.StartNode(Syntax2D.Token(kind))];
    }

    method FinishNode()
      requires Valid()
      modifies this
      ensures Valid()
      ensures events == old(events) + [Event.FinishNode]
    {
      events := events + [Event.FinishNode];
    }

    method Token(kind: S, text: string)
      requires Valid()
      modifies this
      ensures Valid()
      ensures events == old(events) + [AddToken(Syntax2D.Token(kind), text)]
    {
      events := events + [AddToken(Syntax2D.Token(kind), text)];
    }

    method Indent(indent: string)
      requires Valid()
      modifies this
      ensures Valid()
      ensures events == old(events) + [AddToken(Syntax2D.Indent, indent)]
    {
      events := events + [AddToken(Syntax2D.Indent, indent)];
    }

    method Dedent()
      requires Valid()
      modifies this
      ensures Valid()
      ensures events == old(events) + [AddStaticToken(Syntax2D<S>.Dedent)]
    {
      events := events + [AddStaticToken(Syntax2D<S>.Dedent)];
    }

    /** `dedents(i)`: `i` Dedent tokens, one call at a time. */
    method Dedents(n: nat)
      requires Valid()
      modifies this
      ensures Valid()
      ensures events == old(events) + seq(n, _ => AddStaticToken(Syntax2D<S>.Dedent))
    {
      for i := 0 to n
        invariant Valid()
        invariant events == old(events) + seq(i, _ => AddStaticToken(Syntax2D<S>.Dedent))
      {
        Dedent();
        assert seq(i + 1, _ => AddStaticToken(Syntax2D<S>.Dedent))
            == seq(i, _ => AddStaticToken(Syntax2D<S>.Dedent)) + [AddStaticToken(Syntax2D<S>.Dedent)];
      }
    }

    method Newline()
      requires Valid()
      modifies this
      ensures Valid()
      ensures events == old(events) + [AddStaticToken(Syntax2D.Newline)]
    {
      events := events + [AddStaticToken(Syntax2D.Newline)];
    }

    /** `finish`: the built tree, or `None` on any log that is not one well-nested node (the model's choice). */
    method Finish(sy: InnerSyntax<S>) returns (root: Option<Tree>)
      requires Valid()
      ensures root == Build(sy, events)
      ensures root.Some? ==> root.value.Node? && Flatten(root.value) == TokensOf(sy, events)
      ensures root.Some? ==> TextsPresent(Flatten(root.value))
    {
      root := Build(sy, events);
      if root.Some? {
        BuildKeepsTokenOrder(sy, events);
        BuiltTextsPresent(sy, events);
      }
    }
  }
}
