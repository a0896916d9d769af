/**
 * The unit tests' kind type (`TestSyntax` in src/lib.rs) and the documents
 * its tests build, read by both walks.
 *
 * Each document is a token sequence parameterised by its Newline and Dedent
 * tokens, because the two builders store those differently (with the texts
 * "\n" and "" in src/lib.rs, without text in cstree2d/src/green.rs) while
 * neither walk reads them. A document's text is established back to front,
 * one token at a time, by the `...Ends` lemmas: each puts one token in front
 * of a run whose final state and written pieces are already known.
 */
module Scenarios {
  import opened Syntax
  import opened Cstree
  import opened Indentation
  import Lib
  import Green
  import opened Joins

  datatype TestSyntax = Root | Text

  /** `TestSyntax::from_raw`: 0 and 1 decode; any other value panics. */
  function TestFromRaw(raw: RawKind): TestSyntax
    requires raw <= 1
  {
    if raw == 0 then Root else Text
  }

  /** `TestSyntax::into_raw`: the discriminant. */
  function TestIntoRaw(k: TestSyntax): RawKind
  {
    match k
    case Root => 0
    case Text => 1
  }

  /** The test kind type; it has no static texts. */
  const Test: InnerSyntax<TestSyntax> := InnerSyntax(TestFromRaw, TestIntoRaw, _ => None)

  /** The test kind type keeps clear of the markers and round-trips both ways. */
  lemma TestSyntaxSound()
    ensures BelowMarkers(Test) && InnerRoundTrips(Test) && InnerDecodeRoundTrips(Test)
  {
  }

  /** A `Text` token as both builders store it. */
  function Word(s: string): GreenToken
  {
    GreenToken(1, Some(s))
  }

  /** An Indent token as both builders store it. */
  function IndentBy(s: string): GreenToken
  {
    GreenToken(INDENT_RAW, Some(s))
  }

  /** The Newline and Dedent tokens of the `src/lib.rs` builder. */
  const LibNewline: GreenToken := GreenToken(NEWLINE_RAW, Some("\n"))
  const LibDedent: GreenToken := GreenToken(DEDENT_RAW, Some(""))

  /** The Newline and Dedent tokens of the `cstree2d` builder: static, without text. */
  const StaticNewline: GreenToken := GreenToken(NEWLINE_RAW, None)
  const StaticDedent: GreenToken := GreenToken(DEDENT_RAW, None)

  /**
   * Walked forward from `st`, the run `toks` ends in `stEnd`, the `src/lib.rs`
   * walk appends the pieces `lps` and the `cstree2d` walk writes the pieces `gps`.
   */
  ghost predicate Ends(st: IndentState, toks: seq<GreenToken>, stEnd: IndentState,
                       lps: seq<string>, gps: seq<string>)
  {
    && Decodable(Test, toks)
    && Green.Simulate(Test, st, toks).0 == stEnd
    && Green.Simulate(Test, st, toks).1 == lps
    && Green.Simulate(Test, st, toks).2 == gps
  }

  lemma EndsEmpty(st: IndentState)
    ensures Ends(st, [], st, [], [])
  {
  }

  /** One token in front of a run whose end is known adds its pieces in front. */
  lemma StepEnds(st: IndentState, tok: GreenToken, rest: seq<GreenToken>,
                 stEnd: IndentState, lps: seq<string>, gps: seq<string>)
    requires Decodes(Test, tok.kind)
    requires Ends(Advance(Test, st, tok), rest, stEnd, lps, gps)
    ensures Ends(st, [tok] + rest, stEnd, Green.EmitPieces(Test, st, tok) + lps, Green.Writes(Test, st, tok) + gps)
  {
    var toks := [tok] + rest;
    assert toks[0] == tok && toks[1..] == rest;
    assert forall x | x in toks :: x == tok || x in rest;
  }

  /** A word on a line already started is written alone. */
  lemma WordEnds(st: IndentState, s: string, rest: seq<GreenToken>,
                 stEnd: IndentState, lps: seq<string>, gps: seq<string>)
    requires !st.pending && Ends(st, rest, stEnd, lps, gps)
    ensures Ends(st, [Word(s)] + rest, stEnd, [s] + lps, [s] + gps)
  {
    StepEnds(st, Word(s), rest, stEnd, lps, gps);
    assert Green.Writes(Test, st, Word(s)) == [s];
  }

  /** The first word of an indented line is written after the whole stack, and clears the flag. */
  lemma FirstWordEnds(stack: seq<string>, s: string, rest: seq<GreenToken>,
                      stEnd: IndentState, lps: seq<string>, gps: seq<string>)
    requires Ends(IndentState(stack, false), rest, stEnd, lps, gps)
    ensures Ends(IndentState(stack, true), [Word(s)] + rest, stEnd, stack + [s] + lps, stack + [s] + gps)
  {
    StepEnds(IndentState(stack, true), Word(s), rest, stEnd, lps, gps);
  }

  /** A Newline with nothing pending writes "\n" and sets the flag when the stack is not empty. */
  lemma NewlineEnds(nl: GreenToken, stack: seq<string>, pending: bool, rest: seq<GreenToken>,
                    stEnd: IndentState, lps: seq<string>, gps: seq<string>)
    requires nl.kind == NEWLINE_RAW && pending == (stack != [])
    requires Ends(IndentState(stack, pending), rest, stEnd, lps, gps)
    ensures Ends(IndentState(stack, false), [nl] + rest, stEnd, ["\n"] + lps, ["\n"] + gps)
  {
    StepEnds(IndentState(stack, false), nl, rest, stEnd, lps, gps);
    assert Green.Writes(Test, IndentState(stack, false), nl) == ["\n"];
  }

  /**
   * A Newline with indentation pending: the `src/lib.rs` walk appends "\n"
   * only, the `cstree2d` walk writes the stack first.
   */
  lemma BlankNewlineEnds(nl: GreenToken, stack: seq<string>, pending: bool, rest: seq<GreenToken>,
                         stEnd: IndentState, lps: seq<string>, gps: seq<string>)
    requires nl.kind == NEWLINE_RAW && pending == (stack != [])
    requires Ends(IndentState(stack, pending), rest, stEnd, lps, gps)
    ensures Ends(IndentState(stack, true), [nl] + rest, stEnd, ["\n"] + lps, stack + ["\n"] + gps)
  {
    StepEnds(IndentState(stack, true), nl, rest, stEnd, lps, gps);
  }

  /** An Indent pushes its text, sets the flag and writes nothing. */
  lemma IndentEnds(stack: seq<string>, pending: bool, s: string, pushed: seq<string>, rest: seq<GreenToken>,
                   stEnd: IndentState, lps: seq<string>, gps: seq<string>)
    requires pushed == stack + [s]
    requires Ends(IndentState(pushed, true), rest, stEnd, lps, gps)
    ensures Ends(IndentState(stack, pending), [IndentBy(s)] + rest, stEnd, lps, gps)
  {
    var st := IndentState(stack, pending);
    StepEnds(st, IndentBy(s), rest, stEnd, lps, gps);
    assert Green.EmitPieces(Test, st, IndentBy(s)) + lps == lps;
    assert Green.Writes(Test, st, IndentBy(s)) + gps == gps;
  }

  /** A Dedent pops the last indentation and writes nothing. */
  lemma DedentEnds(de: GreenToken, stack: seq<string>, top: string, pushed: seq<string>, pending: bool,
                   rest: seq<GreenToken>, stEnd: IndentState, lps: seq<string>, gps: seq<string>)
    requires de.kind == DEDENT_RAW && pushed == stack + [top]
    requires Ends(IndentState(stack, pending), rest, stEnd, lps, gps)
    ensures Ends(IndentState(pushed, pending), [de] + rest, stEnd, lps, gps)
  {
    var st := IndentState(pushed, pending);
    assert st.stack[..|st.stack| - 1] == stack;
    StepEnds(st, de, rest, stEnd, lps, gps);
    assert Green.EmitPieces(Test, st, de) + lps == lps;
    assert Green.Writes(Test, st, de) + gps == gps;
  }

  /** From the start, a run whose end is known has the joined pieces as its texts. */
  lemma EndsText(toks: seq<GreenToken>, stEnd: IndentState, lps: seq<string>, gps: seq<string>)
    requires Ends(Start, toks, stEnd, lps, gps)
    ensures Decodable(Test, toks) && Replay(Test, Start, toks) == stEnd
    ensures Lib.Output(Test, Start, toks) == Concat(lps) && Green.FullText(Test, Start, toks) == Concat(gps)
  {
    Green.SimulateAgrees(Test, Start, toks);
  }

  /** The document of `test_dump_text_simple`. */
  function Simple(): seq<GreenToken>
  {
    [Word("hello"), Word(" "), Word("world")]
  }

  lemma SimpleTokens(toks: seq<GreenToken>)
    requires toks == [Word("hello")] + ([Word(" ")] + ([Word("world")] + []))
    ensures toks == Simple()
  {
  }

  lemma SimpleChain() returns (toks: seq<GreenToken>, lps: seq<string>, gps: seq<string>)
    ensures Ends(Start, toks, IndentState([], false), lps, gps)
    ensures toks == Simple()
    ensures lps == ["hello", " ", "world"]
    ensures gps == ["hello", " ", "world"]
  {
    var s0: seq<string> := [];
    var t3, l3, g3 := [], [], [];
    var t2, l2, g2 := [Word("world")] + t3, ["world"] + l3, ["world"] + g3;
    var t1, l1, g1 := [Word(" ")] + t2, [" "] + l2, [" "] + g2;
    var t0, l0, g0 := [Word("hello")] + t1, ["hello"] + l1, ["hello"] + g1;
    SimpleTokens(t0);
    SimplePieces(l0);
    EndsEmpty(IndentState(s0, false));
    WordEnds(IndentState(s0, false), "world", t3, IndentState([], false), l3, g3);
    WordEnds(IndentState(s0, false), " ", t2, IndentState([], false), l2, g2);
    WordEnds(IndentState(s0, false), "hello", t1, IndentState([], false), l1, g1);
    toks, lps, gps := t0, l0, g0;
  }

  lemma SimpleText()
    ensures Decodable(Test, Simple())
    ensures Lib.Output(Test, Start, Simple()) == "hello world"
    ensures Green.FullText(Test, Start, Simple()) == "hello world"
    ensures Replay(Test, Start, Simple()) == IndentState([], false)
  {
    var toks, lps, gps := SimpleChain();
    EndsText(toks, IndentState([], false), lps, gps);
    SimpleJoin();
  }

  /** The document of `test_dump_text_with_newlines`. */
  function Newlines(nl: GreenToken): seq<GreenToken>
  {
    [Word("line1"), nl, Word("line2")]
  }

  lemma NewlinesTokens(nl: GreenToken, toks: seq<GreenToken>)
    requires toks == [Word("line1")] + ([nl] + ([Word("line2")] + []))
    ensures toks == Newlines(nl)
  {
  }

  lemma NewlinesChain(nl: GreenToken) returns (toks: seq<GreenToken>, lps: seq<string>, gps: seq<string>)
    requires nl.kind == NEWLINE_RAW
    ensures Ends(Start, toks, IndentState([], false), lps, gps)
    ensures toks == Newlines(nl)
    ensures lps == ["line1", "\n", "line2"]
    ensures gps == ["line1", "\n", "line2"]
  {
    var s0: seq<string> := [];
    var t3, l3, g3 := [], [], [];
    var t2, l2, g2 := [Word("line2")] + t3, ["line2"] + l3, ["line2"] + g3;
    var t1, l1, g1 := [nl] + t2, ["\n"] + l2, ["\n"] + g2;
    var t0, l0, g0 := [Word("line1")] + t1, ["line1"] + l1, ["line1"] + g1;
    NewlinesTokens(nl, t0);
    NewlinesPieces(l0);
    EndsEmpty(IndentState(s0, false));
    WordEnds(IndentState(s0, false), "line2", t3, IndentState([], false), l3, g3);
    NewlineEnds(nl, s0, false, t2, IndentState([], false), l2, g2);
    WordEnds(IndentState(s0, false), "line1", t1, IndentState([], false), l1, g1);
    toks, lps, gps := t0, l0, g0;
  }

  lemma NewlinesText(nl: GreenToken)
    requires nl.kind == NEWLINE_RAW
    ensures Decodable(Test, Newlines(nl))
    ensures Lib.Output(Test, Start, Newlines(nl)) == "line1\nline2"
    ensures Green.FullText(Test, Start, Newlines(nl)) == "line1\nline2"
    ensures Replay(Test, Start, Newlines(nl)) == IndentState([], false)
  {
    var toks, lps, gps := NewlinesChain(nl);
    EndsText(toks, IndentState([], false), lps, gps);
    NewlinesJoin();
  }

  /** The document of `test_basic_indentation` and `test_dump_text_with_indentation`. */
  function Indented(nl: GreenToken, de: GreenToken): seq<GreenToken>
  {
    [Word("line1"), nl, IndentBy("    "), Word("indented"), nl, Word("still_indented"), de]
  }

  lemma IndentedTokens(nl: GreenToken, de: GreenToken, toks: seq<GreenToken>)
    requires toks == [Word("line1")] + ([nl] + ([IndentBy("    ")] + ([Word("indented")] + ([nl] + ([Word("still_indented")] + ([de] + []))))))
    ensures toks == Indented(nl, de)
  {
  }

  lemma IndentedChain(nl: GreenToken, de: GreenToken) returns (toks: seq<GreenToken>, lps: seq<string>, gps: seq<string>)
    requires nl.kind == NEWLINE_RAW && de.kind == DEDENT_RAW
    ensures Ends(Start, toks, IndentState([], false), lps, gps)
    ensures toks == Indented(nl, de)
    ensures lps == ["line1", "\n", "    ", "indented", "\n", "    ", "still_indented"]
    ensures gps == ["line1", "\n", "    ", "indented", "\n", "    ", "still_indented"]
  {
    var s0: seq<string> := [];
    var s1 := s0 + ["    "];
    var t7, l7, g7 := [], [], [];
    var t6, l6, g6 := [de] + t7, l7, g7;
    var t5, l5, g5 := [Word("still_indented")] + t6, s1 + ["still_indented"] + l6, s1 + ["still_indented"] + g6;
    var t4, l4, g4 := [nl] + t5, ["\n"] + l5, ["\n"] + g5;
    var t3, l3, g3 := [Word("indented")] + t4, s1 + ["indented"] + l4, s1 + ["indented"] + g4;
    var t2, l2, g2 := [IndentBy("    ")] + t3, l3, g3;
    var t1, l1, g1 := [nl] + t2, ["\n"] + l2, ["\n"] + g2;
    var t0, l0, g0 := [Word("line1")] + t1, ["line1"] + l1, ["line1"] + g1;
    IndentedTokens(nl, de, t0);
    IndentedPieces(l0);
    EndsEmpty(IndentState(s0, false));
    DedentEnds(de, s0, "    ", s1, false, t7, IndentState([], false), l7, g7);
    FirstWordEnds(s1, "still_indented", t6, IndentState([], false), l6, g6);
    NewlineEnds(nl, s1, true, t5, IndentState([], false), l5, g5);
    FirstWordEnds(s1, "indented", t4, IndentState([], false), l4, g4);
    IndentEnds(s0, false, "    ", s1, t3, IndentState([], false), l3, g3);
    NewlineEnds(nl, s0, false, t2, IndentState([], false), l2, g2);
    WordEnds(IndentState(s0, false), "line1", t1, IndentState([], false), l1, g1);
    toks, lps, gps := t0, l0, g0;
  }

  lemma IndentedText(nl: GreenToken, de: GreenToken)
    requires nl.kind == NEWLINE_RAW && de.kind == DEDENT_RAW
    ensures Decodable(Test, Indented(nl, de))
    ensures Lib.Output(Test, Start, Indented(nl, de)) == "line1\n    indented\n    still_indented"
    ensures Green.FullText(Test, Start, Indented(nl, de)) == "line1\n    indented\n    still_indented"
    ensures Replay(Test, Start, Indented(nl, de)) == IndentState([], false)
  {
    var toks, lps, gps := IndentedChain(nl, de);
    EndsText(toks, IndentState([], false), lps, gps);
    IndentedJoin();
  }

  /** The document of `test_dump_text_with_nested_indentation`. */
  function Nested(nl: GreenToken, de: GreenToken): seq<GreenToken>
  {
    [Word("start"), nl, IndentBy("  "), Word("level1"), nl, IndentBy("  "), Word("level2"), nl, Word("still_level2"), de, nl, Word("back_to_level1"), de, nl, Word("end")]
  }

  lemma NestedTokens(nl: GreenToken, de: GreenToken, toks: seq<GreenToken>)
    requires toks == [Word("start")] + ([nl] + ([IndentBy("  ")] + ([Word("level1")] + ([nl] + ([IndentBy("  ")] + ([Word("level2")] + ([nl] + ([Word("still_level2")] + ([de] + ([nl] + ([Word("back_to_level1")] + ([de] + ([nl] + ([Word("end")] + []))))))))))))))
    ensures toks == Nested(nl, de)
  {
  }

  lemma NestedChain(nl: GreenToken, de: GreenToken) returns (toks: seq<GreenToken>, lps: seq<string>, gps: seq<string>)
    requires nl.kind == NEWLINE_RAW && de.kind == DEDENT_RAW
    ensures Ends(Start, toks, IndentState([], false), lps, gps)
    ensures toks == Nested(nl, de)
    ensures lps == ["start", "\n", "  ", "level1", "\n", "  ", "  ", "level2", "\n", "  ", "  ", "still_level2", "\n", "  ", "back_to_level1", "\n", "end"]
    ensures gps == ["start", "\n", "  ", "level1", "\n", "  ", "  ", "level2", "\n", "  ", "  ", "still_level2", "\n", "  ", "back_to_level1", "\n", "end"]
  {
    var s0: seq<string> := [];
    var s1 := s0 + ["  "];
    var s2 := s1 + ["  "];
    var t15, l15, g15 := [], [], [];
    var t14, l14, g14 := [Word("end")] + t15, ["end"] + l15, ["end"] + g15;
    var t13, l13, g13 := [nl] + t14, ["\n"] + l14, ["\n"] + g14;
    var t12, l12, g12 := [de] + t13, l13, g13;
    var t11, l11, g11 := [Word("back_to_level1")] + t12, s1 + ["back_to_level1"] + l12, s1 + ["back_to_level1"] + g12;
    var t10, l10, g10 := [nl] + t11, ["\n"] + l11, ["\n"] + g11;
    var t9, l9, g9 := [de] + t10, l10, g10;
    var t8, l8, g8 := [Word("still_level2")] + t9, s2 + ["still_level2"] + l9, s2 + ["still_level2"] + g9;
    var t7, l7, g7 := [nl] + t8, ["\n"] + l8, ["\n"] + g8;
    var t6, l6, g6 := [Word("level2")] + t7, s2 + ["level2"] + l7, s2 + ["level2"] + g7;
    var t5, l5, g5 := [IndentBy("  ")] + t6, l6, g6;
    var t4, l4, g4 := [nl] + t5, ["\n"] + l5, ["\n"] + g5;
    var t3, l3, g3 := [Word("level1")] + t4, s1 + ["level1"] + l4, s1 + ["level1"] + g4;
    var t2, l2, g2 := [IndentBy("  ")] + t3, l3, g3;
    var t1, l1, g1 := [nl] + t2, ["\n"] + l2, ["\n"] + g2;
    var t0, l0, g0 := [Word("start")] + t1, ["start"] + l1, ["start"] + g1;
    NestedTokens(nl, de, t0);
    NestedPieces(l0);
    EndsEmpty(IndentState(s0, false));
    WordEnds(IndentState(s0, false), "end", t15, IndentState([], false), l15, g15);
    NewlineEnds(nl, s0, false, t14, IndentState([], false), l14, g14);
    DedentEnds(de, s0, "  ", s1, false, t13, IndentState([], false), l13, g13);
    FirstWordEnds(s1, "back_to_level1", t12, IndentState([], false), l12, g12);
    NewlineEnds(nl, s1, true, t11, IndentState([], false), l11, g11);
    DedentEnds(de, s1, "  ", s2, false, t10, IndentState([], false), l10, g10);
    FirstWordEnds(s2, "still_level2", t9, IndentState([], false), l9, g9);
    NewlineEnds(nl, s2, true, t8, IndentState([], false), l8, g8);
    FirstWordEnds(s2, "level2", t7, IndentState([], false), l7, g7);
    IndentEnds(s1, true, "  ", s2, t6, IndentState([], false), l6, g6);
    NewlineEnds(nl, s1, true, t5, IndentState([], false), l5, g5);
    FirstWordEnds(s1, "level1", t4, IndentState([], false), l4, g4);
    IndentEnds(s0, false, "  ", s1, t3, IndentState([], false), l3, g3);
    NewlineEnds(nl, s0, false, t2, IndentState([], false), l2, g2);
    WordEnds(IndentState(s0, false), "start", t1, IndentState([], false), l1, g1);
    toks, lps, gps := t0, l0, g0;
  }

  lemma NestedText(nl: GreenToken, de: GreenToken)
    requires nl.kind == NEWLINE_RAW && de.kind == DEDENT_RAW
    ensures Decodable(Test, Nested(nl, de))
    ensures Lib.Output(Test, Start, Nested(nl, de)) == "start\n  level1\n    level2\n    still_level2\n  back_to_level1\nend"
    ensures Green.FullText(Test, Start, Nested(nl, de)) == "start\n  level1\n    level2\n    still_level2\n  back_to_level1\nend"
    ensures Replay(Test, Start, Nested(nl, de)) == IndentState([], false)
  {
    var toks, lps, gps := NestedChain(nl, de);
    EndsText(toks, IndentState([], false), lps, gps);
    NestedJoin();
  }

  /** The document of `test_dump_text_mixed_indentation_styles`. */
  function Mixed(nl: GreenToken, de: GreenToken): seq<GreenToken>
  {
    [Word("start"), nl, IndentBy("    "), IndentBy("# "), Word("comment"), de, de]
  }

  lemma MixedTokens(nl: GreenToken, de: GreenToken, toks: seq<GreenToken>)
    requires toks == [Word("start")] + ([nl] + ([IndentBy("    ")] + ([IndentBy("# ")] + ([Word("comment")] + ([de] + ([de] + []))))))
    ensures toks == Mixed(nl, de)
  {
  }

  lemma MixedChain(nl: GreenToken, de: GreenToken) returns (toks: seq<GreenToken>, lps: seq<string>, gps: seq<string>)
    requires nl.kind == NEWLINE_RAW && de.kind == DEDENT_RAW
    ensures Ends(Start, toks, IndentState([], false), lps, gps)
    ensures toks == Mixed(nl, de)
    ensures lps == ["start", "\n", "    ", "# ", "comment"]
    ensures gps == ["start", "\n", "    ", "# ", "comment"]
  {
    var s0: seq<string> := [];
    var s1 := s0 + ["    "];
    var s2 := s1 + ["# "];
    var t7, l7, g7 := [], [], [];
    var t6, l6, g6 := [de] + t7, l7, g7;
    var t5, l5, g5 := [de] + t6, l6, g6;
    var t4, l4, g4 := [Word("comment")] + t5, s2 + ["comment"] + l5, s2 + ["comment"] + g5;
    var t3, l3, g3 := [IndentBy("# ")] + t4, l4, g4;
    var t2, l2, g2 := [IndentBy("    ")] + t3, l3, g3;
    var t1, l1, g1 := [nl] + t2, ["\n"] + l2, ["\n"] + g2;
    var t0, l0, g0 := [Word("start")] + t1, ["start"] + l1, ["start"] + g1;
    MixedTokens(nl, de, t0);
    MixedPieces(l0);
    EndsEmpty(IndentState(s0, false));
    DedentEnds(de, s0, "    ", s1, false, t7, IndentState([], false), l7, g7);
    DedentEnds(de, s1, "# ", s2, false, t6, IndentState([], false), l6, g6);
    FirstWordEnds(s2, "comment", t5, IndentState([], false), l5, g5);
    IndentEnds(s1, true, "# ", s2, t4, IndentState([], false), l4, g4);
    IndentEnds(s0, false, "    ", s1, t3, IndentState([], false), l3, g3);
    NewlineEnds(nl, s0, false, t2, IndentState([], false), l2, g2);
    WordEnds(IndentState(s0, false), "start", t1, IndentState([], false), l1, g1);
    toks, lps, gps := t0, l0, g0;
  }

  lemma MixedText(nl: GreenToken, de: GreenToken)
    requires nl.kind == NEWLINE_RAW && de.kind == DEDENT_RAW
    ensures Decodable(Test, Mixed(nl, de))
    ensures Lib.Output(Test, Start, Mixed(nl, de)) == "start\n    # comment"
    ensures Green.FullText(Test, Start, Mixed(nl, de)) == "start\n    # comment"
    ensures Replay(Test, Start, Mixed(nl, de)) == IndentState([], false)
  {
    var toks, lps, gps := MixedChain(nl, de);
    EndsText(toks, IndentState([], false), lps, gps);
    MixedJoin();
  }

  /** An indented block with a blank line inside it. */
  function BlankLine(nl: GreenToken): seq<GreenToken>
  {
    [IndentBy("  "), Word("a"), nl, nl, Word("b")]
  }

  lemma BlankLineTokens(nl: GreenToken, toks: seq<GreenToken>)
    requires toks == [IndentBy("  ")] + ([Word("a")] + ([nl] + ([nl] + ([Word("b")] + []))))
    ensures toks == BlankLine(nl)
  {
  }

  lemma BlankLineChain(nl: GreenToken) returns (toks: seq<GreenToken>, lps: seq<string>, gps: seq<string>)
    requires nl.kind == NEWLINE_RAW
    ensures Ends(Start, toks, IndentState(["  "], false), lps, gps)
    ensures toks == BlankLine(nl)
    ensures lps == ["  ", "a", "\n", "\n", "  ", "b"]
    ensures gps == ["  ", "a", "\n", "  ", "\n", "  ", "b"]
  {
    var s0: seq<string> := [];
    var s1 := s0 + ["  "];
    var t5, l5, g5 := [], [], [];
    var t4, l4, g4 := [Word("b")] + t5, s1 + ["b"] + l5, s1 + ["b"] + g5;
    var t3, l3, g3 := [nl] + t4, ["\n"] + l4, s1 + ["\n"] + g4;
    var t2, l2, g2 := [nl] + t3, ["\n"] + l3, ["\n"] + g3;
    var t1, l1, g1 := [Word("a")] + t2, s1 + ["a"] + l2, s1 + ["a"] + g2;
    var t0, l0, g0 := [IndentBy("  ")] + t1, l1, g1;
    BlankLineTokens(nl, t0);
    BlankLinePieces(l0);
    BlankLinePieces(g0);
    EndsEmpty(IndentState(s1, false));
    FirstWordEnds(s1, "b", t5, IndentState(["  "], false), l5, g5);
    BlankNewlineEnds(nl, s1, true, t4, IndentState(["  "], false), l4, g4);
    NewlineEnds(nl, s1, true, t3, IndentState(["  "], false), l3, g3);
    FirstWordEnds(s1, "a", t2, IndentState(["  "], false), l2, g2);
    IndentEnds(s0, false, "  ", s1, t1, IndentState(["  "], false), l1, g1);
    toks, lps, gps := t0, l0, g0;
  }

  lemma BlankLineText(nl: GreenToken)
    requires nl.kind == NEWLINE_RAW
    ensures Decodable(Test, BlankLine(nl))
    ensures Lib.Output(Test, Start, BlankLine(nl)) == "  a\n\n  b"
    ensures Green.FullText(Test, Start, BlankLine(nl)) == "  a\n  \n  b"
    ensures Replay(Test, Start, BlankLine(nl)) == IndentState(["  "], false)
  {
    var toks, lps, gps := BlankLineChain(nl);
    EndsText(toks, IndentState(["  "], false), lps, gps);
    BlankLineLibJoin();
    BlankLineGreenJoin();
  }
}
