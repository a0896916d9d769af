/**
 * What the builders of both crates make of the unit tests' call sequences:
 * the event log a test leaves, the tree `finish` builds from it and the
 * tokens that tree holds, for any Newline and Dedent events the builder
 * uses (text-carrying in src/lib.rs, static in cstree2d/src/green.rs).
 */
module Builds {
  import opened Syntax
  import opened Cstree
  import opened Indentation
  import opened Scenarios
  import Lib
  import Green

  /** The calls that build `Indented` leave a node start, one token event per call, and a node finish. */
  lemma IndentedLog(nl: Event<TestSyntax>, de: Event<TestSyntax>, evs: seq<Event<TestSyntax>>)
    requires evs == [] + [StartNode(Syntax2D.Token(Root))] + [AddToken(Syntax2D.Token(Text), "line1")] + [nl] + [AddToken(Syntax2D.Indent, "    ")] + [AddToken(Syntax2D.Token(Text), "indented")] + [nl] + [AddToken(Syntax2D.Token(Text), "still_indented")] + [de] + [FinishNode]
    ensures evs == [StartNode(Syntax2D.Token(Root))] + ([AddToken(Syntax2D.Token(Text), "line1")] + ([nl] + ([AddToken(Syntax2D.Indent, "    ")] + ([AddToken(Syntax2D.Token(Text), "indented")] + ([nl] + ([AddToken(Syntax2D.Token(Text), "still_indented")] + ([de] + []))))))) + [FinishNode]
  {
  }

  /** The token events that build `Indented` append its tokens. */
  lemma IndentedEvents(nl: Event<TestSyntax>, de: Event<TestSyntax>, inner: seq<Event<TestSyntax>>)
    requires nl.IsToken() && nl.kind == Syntax2D.Newline && de.IsToken() && de.kind == Syntax2D.Dedent
    requires inner == [AddToken(Syntax2D.Token(Text), "line1")] + ([nl] + ([AddToken(Syntax2D.Indent, "    ")] + ([AddToken(Syntax2D.Token(Text), "indented")] + ([nl] + ([AddToken(Syntax2D.Token(Text), "still_indented")] + ([de] + []))))))
    ensures forall e | e in inner :: e.IsToken()
    ensures TokensOf(Test, inner) == Indented(TokenOf(Test, nl), TokenOf(Test, de))
  {
    assert IntoRaw(Test, Syntax2D.Token(Text)) == 1;
    var r7: seq<Event<TestSyntax>>, u7: seq<GreenToken> := [], [];
    var r6, u6 := [de] + r7, [TokenOf(Test, de)] + u7;
    TokensOfCons(Test, de, r7);
    assert forall e | e in r6 :: e.IsToken();
    var r5, u5 := [AddToken(Syntax2D.Token(Text), "still_indented")] + r6, [Word("still_indented")] + u6;
    TokensOfCons(Test, AddToken(Syntax2D.Token(Text), "still_indented"), r6);
    assert forall e | e in r5 :: e.IsToken();
    var r4, u4 := [nl] + r5, [TokenOf(Test, nl)] + u5;
    TokensOfCons(Test, nl, r5);
    assert forall e | e in r4 :: e.IsToken();
    var r3, u3 := [AddToken(Syntax2D.Token(Text), "indented")] + r4, [Word("indented")] + u4;
    TokensOfCons(Test, AddToken(Syntax2D.Token(Text), "indented"), r4);
    assert forall e | e in r3 :: e.IsToken();
    var r2, u2 := [AddToken(Syntax2D.Indent, "    ")] + r3, [IndentBy("    ")] + u3;
    TokensOfCons(Test, AddToken(Syntax2D.Indent, "    "), r3);
    assert forall e | e in r2 :: e.IsToken();
    var r1, u1 := [nl] + r2, [TokenOf(Test, nl)] + u2;
    TokensOfCons(Test, nl, r2);
    assert forall e | e in r1 :: e.IsToken();
    var r0, u0 := [AddToken(Syntax2D.Token(Text), "line1")] + r1, [Word("line1")] + u1;
    TokensOfCons(Test, AddToken(Syntax2D.Token(Text), "line1"), r1);
    assert forall e | e in r0 :: e.IsToken();
    assert TokensOf(Test, inner) == u0;
    IndentedTokens(TokenOf(Test, nl), TokenOf(Test, de), u0);
  }

  /** The log a builder leaves after the calls that build `Indented`, and the tree it builds from it. */
  lemma IndentedBuild(nl: Event<TestSyntax>, de: Event<TestSyntax>, evs: seq<Event<TestSyntax>>)
    requires nl.IsToken() && nl.kind == Syntax2D.Newline && de.IsToken() && de.kind == Syntax2D.Dedent
    requires evs == [] + [StartNode(Syntax2D.Token(Root))] + [AddToken(Syntax2D.Token(Text), "line1")] + [nl] + [AddToken(Syntax2D.Indent, "    ")] + [AddToken(Syntax2D.Token(Text), "indented")] + [nl] + [AddToken(Syntax2D.Token(Text), "still_indented")] + [de] + [FinishNode]
    ensures Build(Test, evs).Some? && Build(Test, evs).value.Node?
    ensures |Build(Test, evs).value.children| == 7
    ensures Flatten(Build(Test, evs).value) == Indented(TokenOf(Test, nl), TokenOf(Test, de))
    ensures Decodable(Test, Flatten(Build(Test, evs).value))
    ensures Lib.Output(Test, Start, Flatten(Build(Test, evs).value)) == "line1\n    indented\n    still_indented"
    ensures Green.FullText(Test, Start, Flatten(Build(Test, evs).value)) == "line1\n    indented\n    still_indented"
  {
    IndentedLog(nl, de, evs);
    var inner := [AddToken(Syntax2D.Token(Text), "line1")] + ([nl] + ([AddToken(Syntax2D.Indent, "    ")] + ([AddToken(Syntax2D.Token(Text), "indented")] + ([nl] + ([AddToken(Syntax2D.Token(Text), "still_indented")] + ([de] + []))))));
    IndentedEvents(nl, de, inner);
    FlatNode(Test, Syntax2D.Token(Root), inner);
    BuildKeepsTokenOrder(Test, evs);
    IndentedText(TokenOf(Test, nl), TokenOf(Test, de));
  }

  /** The calls that build `Simple` leave a node start, one token event per call, and a node finish. */
  lemma SimpleLog(evs: seq<Event<TestSyntax>>)
    requires evs == [] + [StartNode(Syntax2D.Token(Root))] + [AddToken(Syntax2D.Token(Text), "hello")] + [AddToken(Syntax2D.Token(Text), " ")] + [AddToken(Syntax2D.Token(Text), "world")] + [FinishNode]
    ensures evs == [StartNode(Syntax2D.Token(Root))] + ([AddToken(Syntax2D.Token(Text), "hello")] + ([AddToken(Syntax2D.Token(Text), " ")] + ([AddToken(Syntax2D.Token(Text), "world")] + []))) + [FinishNode]
  {
  }

  /** The token events that build `Simple` append its tokens. */
  lemma SimpleEvents(inner: seq<Event<TestSyntax>>)
    requires inner == [AddToken(Syntax2D.Token(Text), "hello")] + ([AddToken(Syntax2D.Token(Text), " ")] + ([AddToken(Syntax2D.Token(Text), "world")] + []))
    ensures forall e | e in inner :: e.IsToken()
    ensures TokensOf(Test, inner) == Simple()
  {
    assert IntoRaw(Test, Syntax2D.Token(Text)) == 1;
    var r3: seq<Event<TestSyntax>>, u3: seq<GreenToken> := [], [];
    var r2, u2 := [AddToken(Syntax2D.Token(Text), "world")] + r3, [Word("world")] + u3;
    TokensOfCons(Test, AddToken(Syntax2D.Token(Text), "world"), r3);
    assert forall e | e in r2 :: e.IsToken();
    var r1, u1 := [AddToken(Syntax2D.Token(Text), " ")] + r2, [Word(" ")] + u2;
    TokensOfCons(Test, AddToken(Syntax2D.Token(Text), " "), r2);
    assert forall e | e in r1 :: e.IsToken();
    var r0, u0 := [AddToken(Syntax2D.Token(Text), "hello")] + r1, [Word("hello")] + u1;
    TokensOfCons(Test, AddToken(Syntax2D.Token(Text), "hello"), r1);
    assert forall e | e in r0 :: e.IsToken();
    assert TokensOf(Test, inner) == u0;
    SimpleTokens(u0);
  }

  /** The log a builder leaves after the calls that build `Simple`, and the tree it builds from it. */
  lemma SimpleBuild(evs: seq<Event<TestSyntax>>)
    requires evs == [] + [StartNode(Syntax2D.Token(Root))] + [AddToken(Syntax2D.Token(Text), "hello")] + [AddToken(Syntax2D.Token(Text), " ")] + [AddToken(Syntax2D.Token(Text), "world")] + [FinishNode]
    ensures Build(Test, evs).Some? && Build(Test, evs).value.Node?
    ensures |Build(Test, evs).value.children| == 3
    ensures Flatten(Build(Test, evs).value) == Simple()
    ensures Decodable(Test, Flatten(Build(Test, evs).value))
    ensures Lib.Output(Test, Start, Flatten(Build(Test, evs).value)) == "hello world"
    ensures Green.FullText(Test, Start, Flatten(Build(Test, evs).value)) == "hello world"
  {
    SimpleLog(evs);
    var inner := [AddToken(Syntax2D.Token(Text), "hello")] + ([AddToken(Syntax2D.Token(Text), " ")] + ([AddToken(Syntax2D.Token(Text), "world")] + []));
    SimpleEvents(inner);
    FlatNode(Test, Syntax2D.Token(Root), inner);
    BuildKeepsTokenOrder(Test, evs);
    SimpleText();
  }

  /** The calls that build `Newlines` leave a node start, one token event per call, and a node finish. */
  lemma NewlinesLog(nl: Event<TestSyntax>, evs: seq<Event<TestSyntax>>)
    requires evs == [] + [StartNode(Syntax2D.Token(Root))] + [AddToken(Syntax2D.Token(Text), "line1")] + [nl] + [AddToken(Syntax2D.Token(Text), "line2")] + [FinishNode]
    ensures evs == [StartNode(Syntax2D.Token(Root))] + ([AddToken(Syntax2D.Token(Text), "line1")] + ([nl] + ([AddToken(Syntax2D.Token(Text), "line2")] + []))) + [FinishNode]
  {
  }

  /** The token events that build `Newlines` append its tokens. */
  lemma NewlinesEvents(nl: Event<TestSyntax>, inner: seq<Event<TestSyntax>>)
    requires nl.IsToken() && nl.kind == Syntax2D.Newline
    requires inner == [AddToken(Syntax2D.Token(Text), "line1")] + ([nl] + ([AddToken(Syntax2D.Token(Text), "line2")] + []))
    ensures forall e | e in inner :: e.IsToken()
    ensures TokensOf(Test, inner) == Newlines(TokenOf(Test, nl))
  {
    assert IntoRaw(Test, Syntax2D.Token(Text)) == 1;
    var r3: seq<Event<TestSyntax>>, u3: seq<GreenToken> := [], [];
    var r2, u2 := [AddToken(Syntax2D.Token(Text), "line2")] + r3, [Word("line2")] + u3;
    TokensOfCons(Test, AddToken(Syntax2D.Token(Text), "line2"), r3);
    assert forall e | e in r2 :: e.IsToken();
    var r1, u1 := [nl] + r2, [TokenOf(Test, nl)] + u2;
    TokensOfCons(Test, nl, r2);
    assert forall e | e in r1 :: e.IsToken();
    var r0, u0 := [AddToken(Syntax2D.Token(Text), "line1")] + r1, [Word("line1")] + u1;
    TokensOfCons(Test, AddToken(Syntax2D.Token(Text), "line1"), r1);
    assert forall e | e in r0 :: e.IsToken();
    assert TokensOf(Test, inner) == u0;
    NewlinesTokens(TokenOf(Test, nl), u0);
  }

  /** The log a builder leaves after the calls that build `Newlines`, and the tree it builds from it. */
  lemma NewlinesBuild(nl: Event<TestSyntax>, evs: seq<Event<TestSyntax>>)
    requires nl.IsToken() && nl.kind == Syntax2D.Newline
    requires evs == [] + [StartNode(Syntax2D.Token(Root))] + [AddToken(Syntax2D.Token(Text), "line1")] + [nl] + [AddToken(Syntax2D.Token(Text), "line2")] + [FinishNode]
    ensures Build(Test, evs).Some? && Build(Test, evs).value.Node?
    ensures |Build(Test, evs).value.children| == 3
    ensures Flatten(Build(Test, evs).value) == Newlines(TokenOf(Test, nl))
    ensures Decodable(Test, Flatten(Build(Test, evs).value))
    ensures Lib.Output(Test, Start, Flatten(Build(Test, evs).value)) == "line1\nline2"
    ensures Green.FullText(Test, Start, Flatten(Build(Test, evs).value)) == "line1\nline2"
  {
    NewlinesLog(nl, evs);
    var inner := [AddToken(Syntax2D.Token(Text), "line1")] + ([nl] + ([AddToken(Syntax2D.Token(Text), "line2")] + []));
    NewlinesEvents(nl, inner);
    FlatNode(Test, Syntax2D.Token(Root), inner);
    BuildKeepsTokenOrder(Test, evs);
    NewlinesText(TokenOf(Test, nl));
  }

  /** The calls that build `Nested` leave a node start, one token event per call, and a node finish. */
  lemma NestedLog(nl: Event<TestSyntax>, de: Event<TestSyntax>, evs: seq<Event<TestSyntax>>)
    requires evs == [] + [StartNode(Syntax2D.Token(Root))] + [AddToken(Syntax2D.Token(Text), "start")] + [nl] + [AddToken(Syntax2D.Indent, "  ")] + [AddToken(Syntax2D.Token(Text), "level1")] + [nl] + [AddToken(Syntax2D.Indent, "  ")] + [AddToken(Syntax2D.Token(Text), "level2")] + [nl] + [AddToken(Syntax2D.Token(Text), "still_level2")] + [de] + [nl] + [AddToken(Syntax2D.Token(Text), "back_to_level1")] + [de] + [nl] + [AddToken(Syntax2D.Token(Text), "end")] + [FinishNode]
    ensures evs == [StartNode(Syntax2D.Token(Root))] + ([AddToken(Syntax2D.Token(Text), "start")] + ([nl] + ([AddToken(Syntax2D.Indent, "  ")] + ([AddToken(Syntax2D.Token(Text), "level1")] + ([nl] + ([AddToken(Syntax2D.Indent, "  ")] + ([AddToken(Syntax2D.Token(Text), "level2")] + ([nl] + ([AddToken(Syntax2D.Token(Text), "still_level2")] + ([de] + ([nl] + ([AddToken(Syntax2D.Token(Text), "back_to_level1")] + ([de] + ([nl] + ([AddToken(Syntax2D.Token(Text), "end")] + []))))))))))))))) + [FinishNode]
  {
  }

  /** The token events that build `Nested` append its tokens. */
  lemma NestedEvents(nl: Event<TestSyntax>, de: Event<TestSyntax>, inner: seq<Event<TestSyntax>>)
    requires nl.IsToken() && nl.kind == Syntax2D.Newline && de.IsToken() && de.kind == Syntax2D.Dedent
    requires inner == [AddToken(Syntax2D.Token(Text), "start")] + ([nl] + ([AddToken(Syntax2D.Indent, "  ")] + ([AddToken(Syntax2D.Token(Text), "level1")] + ([nl] + ([AddToken(Syntax2D.Indent, "  ")] + ([AddToken(Syntax2D.Token(Text), "level2")] + ([nl] + ([AddToken(Syntax2D.Token(Text), "still_level2")] + ([de] + ([nl] + ([AddToken(Syntax2D.Token(Text), "back_to_level1")] + ([de] + ([nl] + ([AddToken(Syntax2D.Token(Text), "end")] + []))))))))))))))
    ensures forall e | e in inner :: e.IsToken()
    ensures TokensOf(Test, inner) == Nested(TokenOf(Test, nl), TokenOf(Test, de))
  {
    assert IntoRaw(Test, Syntax2D.Token(Text)) == 1;
    var r15: seq<Event<TestSyntax>>, u15: seq<GreenToken> := [], [];
    var r14, u14 := [AddToken(Syntax2D.Token(Text), "end")] + r15, [Word("end")] + u15;
    TokensOfCons(Test, AddToken(Syntax2D.Token(Text), "end"), r15);
    assert forall e | e in r14 :: e.IsToken();
    var r13, u13 := [nl] + r14, [TokenOf(Test, nl)] + u14;
    TokensOfCons(Test, nl, r14);
    assert forall e | e in r13 :: e.IsToken();
    var r12, u12 := [de] + r13, [TokenOf(Test, de)] + u13;
    TokensOfCons(Test, de, r13);
    assert forall e | e in r12 :: e.IsToken();
    var r11, u11 := [AddToken(Syntax2D.Token(Text), "back_to_level1")] + r12, [Word("back_to_level1")] + u12;
    TokensOfCons(Test, AddToken(Syntax2D.Token(Text), "back_to_level1"), r12);
    assert forall e | e in r11 :: e.IsToken();
    var r10, u10 := [nl] + r11, [TokenOf(Test, nl)] + u11;
    TokensOfCons(Test, nl, r11);
    assert forall e | e in r10 :: e.IsToken();
    var r9, u9 := [de] + r10, [TokenOf(Test, de)] + u10;
    TokensOfCons(Test, de, r10);
    assert forall e | e in r9 :: e.IsToken();
    var r8, u8 := [AddToken(Syntax2D.Token(Text), "still_level2")] + r9, [Word("still_level2")] + u9;
    TokensOfCons(Test, AddToken(Syntax2D.Token(Text), "still_level2"), r9);
    assert forall e | e in r8 :: e.IsToken();
    var r7, u7 := [nl] + r8, [TokenOf(Test, nl)] + u8;
    TokensOfCons(Test, nl, r8);
    assert forall e | e in r7 :: e.IsToken();
    var r6, u6 := [AddToken(Syntax2D.Token(Text), "level2")] + r7, [Word("level2")] + u7;
    TokensOfCons(Test, AddToken(Syntax2D.Token(Text), "level2"), r7);
    assert forall e | e in r6 :: e.IsToken();
    var r5, u5 := [AddToken(Syntax2D.Indent, "  ")] + r6, [IndentBy("  ")] + u6;
    TokensOfCons(Test, AddToken(Syntax2D.Indent, "  "), r6);
    assert forall e | e in r5 :: e.IsToken();
    var r4, u4 := [nl] + r5, [TokenOf(Test, nl)] + u5;
    TokensOfCons(Test, nl, r5);
    assert forall e | e in r4 :: e.IsToken();
    var r3, u3 := [AddToken(Syntax2D.Token(Text), "level1")] + r4, [Word("level1")] + u4;
    TokensOfCons(Test, AddToken(Syntax2D.Token(Text), "level1"), r4);
    assert forall e | e in r3 :: e.IsToken();
    var r2, u2 := [AddToken(Syntax2D.Indent, "  ")] + r3, [IndentBy("  ")] + u3;
    TokensOfCons(Test, AddToken(Syntax2D.Indent, "  "), r3);
    assert forall e | e in r2 :: e.IsToken();
    var r1, u1 := [nl] + r2, [TokenOf(Test, nl)] + u2;
    TokensOfCons(Test, nl, r2);
    assert forall e | e in r1 :: e.IsToken();
    var r0, u0 := [AddToken(Syntax2D.Token(Text), "start")] + r1, [Word("start")] + u1;
    TokensOfCons(Test, AddToken(Syntax2D.Token(Text), "start"), r1);
    assert forall e | e in r0 :: e.IsToken();
    assert TokensOf(Test, inner) == u0;
    NestedTokens(TokenOf(Test, nl), TokenOf(Test, de), u0);
  }

  /** The log a builder leaves after the calls that build `Nested`, and the tree it builds from it. */
  lemma NestedBuild(nl: Event<TestSyntax>, de: Event<TestSyntax>, evs: seq<Event<TestSyntax>>)
    requires nl.IsToken() && nl.kind == Syntax2D.Newline && de.IsToken() && de.kind == Syntax2D.Dedent
    requires evs == [] + [StartNode(Syntax2D.Token(Root))] + [AddToken(Syntax2D.Token(Text), "start")] + [nl] + [AddToken(Syntax2D.Indent, "  ")] + [AddToken(Syntax2D.Token(Text), "level1")] + [nl] + [AddToken(Syntax2D.Indent, "  ")] + [AddToken(Syntax2D.Token(Text), "level2")] + [nl] + [AddToken(Syntax2D.Token(Text), "still_level2")] + [de] + [nl] + [AddToken(Syntax2D.Token(Text), "back_to_level1")] + [de] + [nl] + [AddToken(Syntax2D.Token(Text), "end")] + [FinishNode]
    ensures Build(Test, evs).Some? && Build(Test, evs).value.Node?
    ensures |Build(Test, evs).value.children| == 15
    ensures Flatten(Build(Test, evs).value) == Nested(TokenOf(Test, nl), TokenOf(Test, de))
    ensures Decodable(Test, Flatten(Build(Test, evs).value))
    ensures Lib.Output(Test, Start, Flatten(Build(Test, evs).value)) == "start\n  level1\n    level2\n    still_level2\n  back_to_level1\nend"
    ensures Green.FullText(Test, Start, Flatten(Build(Test, evs).value)) == "start\n  level1\n    level2\n    still_level2\n  back_to_level1\nend"
  {
    NestedLog(nl, de, evs);
    var inner := [AddToken(Syntax2D.Token(Text), "start")] + ([nl] + ([AddToken(Syntax2D.Indent, "  ")] + ([AddToken(Syntax2D.Token(Text), "level1")] + ([nl] + ([AddToken(Syntax2D.Indent, "  ")] + ([AddToken(Syntax2D.Token(Text), "level2")] + ([nl] + ([AddToken(Syntax2D.Token(Text), "still_level2")] + ([de] + ([nl] + ([AddToken(Syntax2D.Token(Text), "back_to_level1")] + ([de] + ([nl] + ([AddToken(Syntax2D.Token(Text), "end")] + []))))))))))))));
    NestedEvents(nl, de, inner);
    FlatNode(Test, Syntax2D.Token(Root), inner);
    BuildKeepsTokenOrder(Test, evs);
    NestedText(TokenOf(Test, nl), TokenOf(Test, de));
  }

  /** The calls that build `Mixed` leave a node start, one token event per call, and a node finish. */
  lemma MixedLog(nl: Event<TestSyntax>, de: Event<TestSyntax>, evs: seq<Event<TestSyntax>>)
    requires evs == [] + [StartNode(Syntax2D.Token(Root))] + [AddToken(Syntax2D.Token(Text), "start")] + [nl] + [AddToken(Syntax2D.Indent, "    ")] + [AddToken(Syntax2D.Indent, "# ")] + [AddToken(Syntax2D.Token(Text), "comment")] + [de] + [de] + [FinishNode]
    ensures evs == [StartNode(Syntax2D.Token(Root))] + ([AddToken(Syntax2D.Token(Text), "start")] + ([nl] + ([AddToken(Syntax2D.Indent, "    ")] + ([AddToken(Syntax2D.Indent, "# ")] + ([AddToken(Syntax2D.Token(Text), "comment")] + ([de] + ([de] + []))))))) + [FinishNode]
  {
  }

  /** The token events that build `Mixed` append its tokens. */
  lemma MixedEvents(nl: Event<TestSyntax>, de: Event<TestSyntax>, inner: seq<Event<TestSyntax>>)
    requires nl.IsToken() && nl.kind == Syntax2D.Newline && de.IsToken() && de.kind == Syntax2D.Dedent
    requires inner == [AddToken(Syntax2D.Token(Text), "start")] + ([nl] + ([AddToken(Syntax2D.Indent, "    ")] + ([AddToken(Syntax2D.Indent, "# ")] + ([AddToken(Syntax2D.Token(Text), "comment")] + ([de] + ([de] + []))))))
    ensures forall e | e in inner :: e.IsToken()
    ensures TokensOf(Test, inner) == Mixed(TokenOf(Test, nl), TokenOf(Test, de))
  {
    assert IntoRaw(Test, Syntax2D.Token(Text)) == 1;
    var r7: seq<Event<TestSyntax>>, u7: seq<GreenToken> := [], [];
    var r6, u6 := [de] + r7, [TokenOf(Test, de)] + u7;
    TokensOfCons(Test, de, r7);
    assert forall e | e in r6 :: e.IsToken();
    var r5, u5 := [de] + r6, [TokenOf(Test, de)] + u6;
    TokensOfCons(Test, de, r6);
    assert forall e | e in r5 :: e.IsToken();
    var r4, u4 := [AddToken(Syntax2D.Token(Text), "comment")] + r5, [Word("comment")] + u5;
    TokensOfCons(Test, AddToken(Syntax2D.Token(Text), "comment"), r5);
    assert forall e | e in r4 :: e.IsToken();
    var r3, u3 := [AddToken(Syntax2D.Indent, "# ")] + r4, [IndentBy("# ")] + u4;
    TokensOfCons(Test, AddToken(Syntax2D.Indent, "# "), r4);
    assert forall e | e in r3 :: e.IsToken();
    var r2, u2 := [AddToken(Syntax2D.Indent, "    ")] + r3, [IndentBy("    ")] + u3;
    TokensOfCons(Test, AddToken(Syntax2D.Indent, "    "), r3);
    assert forall e | e in r2 :: e.IsToken();
    var r1, u1 := [nl] + r2, [TokenOf(Test, nl)] + u2;
    TokensOfCons(Test, nl, r2);
    assert forall e | e in r1 :: e.IsToken();
    var r0, u0 := [AddToken(Syntax2D.Token(Text), "start")] + r1, [Word("start")] + u1;
    TokensOfCons(Test, AddToken(Syntax2D.Token(Text), "start"), r1);
    assert forall e | e in r0 :: e.IsToken();
    assert TokensOf(Test, inner) == u0;
    MixedTokens(TokenOf(Test, nl), TokenOf(Test, de), u0);
  }

  /** The log a builder leaves after the calls that build `Mixed`, and the tree it builds from it. */
  lemma MixedBuild(nl: Event<TestSyntax>, de: Event<TestSyntax>, evs: seq<Event<TestSyntax>>)
    requires nl.IsToken() && nl.kind == Syntax2D.Newline && de.IsToken() && de.kind == Syntax2D.Dedent
    requires evs == [] + [StartNode(Syntax2D.Token(Root))] + [AddToken(Syntax2D.Token(Text), "start")] + [nl] + [AddToken(Syntax2D.Indent, "    ")] + [AddToken(Syntax2D.Indent, "# ")] + [AddToken(Syntax2D.Token(Text), "comment")] + [de] + [de] + [FinishNode]
    ensures Build(Test, evs).Some? && Build(Test, evs).value.Node?
    ensures |Build(Test, evs).value.children| == 7
    ensures Flatten(Build(Test, evs).value) == Mixed(TokenOf(Test, nl), TokenOf(Test, de))
    ensures Decodable(Test, Flatten(Build(Test, evs).value))
    ensures Lib.Output(Test, Start, Flatten(Build(Test, evs).value)) == "start\n    # comment"
    ensures Green.FullText(Test, Start, Flatten(Build(Test, evs).value)) == "start\n    # comment"
  {
    MixedLog(nl, de, evs);
    var inner := [AddToken(Syntax2D.Token(Text), "start")] + ([nl] + ([AddToken(Syntax2D.Indent, "    ")] + ([AddToken(Syntax2D.Indent, "# ")] + ([AddToken(Syntax2D.Token(Text), "comment")] + ([de] + ([de] + []))))));
    MixedEvents(nl, de, inner);
    FlatNode(Test, Syntax2D.Token(Root), inner);
    BuildKeepsTokenOrder(Test, evs);
    MixedText(TokenOf(Test, nl), TokenOf(Test, de));
  }

}
