/**
 * The unit tests of src/lib.rs, as methods: each makes the builder calls its
 * test makes, builds the tree and extracts its text, and promises the text
 * the test expects.
 */
module LibTests {
  import opened Syntax
  import opened Cstree
  import opened Scenarios
  import opened Builds
  import Lib

  /** `test_basic_indentation` */
  method BasicIndentation() returns (children: nat)
    ensures children > 0
  {
    var b := new Lib.Builder<TestSyntax>();
    b.StartNode(Root);
    b.Token(Text, "line1");
    b.Newline();
    b.Indent("    ");
    b.Token(Text, "indented");
    b.Newline();
    b.Token(Text, "still_indented");
    b.Dedent();
    b.FinishNode();
    IndentedBuild(AddToken(Syntax2D.Newline, "\n"), AddToken(Syntax2D.Dedent, ""), b.events);
    var root := b.Finish(Test);
    children := |root.value.children|;
  }

  /** `test_dump_text_simple` */
  method DumpTextSimple() returns (text: string)
    ensures text == "hello world"
  {
    var b := new Lib.Builder<TestSyntax>();
    b.StartNode(Root);
    b.Token(Text, "hello");
    b.Token(Text, " ");
    b.Token(Text, "world");
    b.FinishNode();
    SimpleBuild(b.events);
    var root := b.Finish(Test);
    text := Lib.ExtractText(Test, root.value);
  }

  /** `test_dump_text_with_newlines` */
  method DumpTextWithNewlines() returns (text: string)
    ensures text == "line1\nline2"
  {
    var b := new Lib.Builder<TestSyntax>();
    b.StartNode(Root);
    b.Token(Text, "line1");
    b.Newline();
    b.Token(Text, "line2");
    b.FinishNode();
    NewlinesBuild(AddToken(Syntax2D.Newline, "\n"), b.events);
    var root := b.Finish(Test);
    text := Lib.ExtractText(Test, root.value);
  }

  /** `test_dump_text_with_indentation` */
  method DumpTextWithIndentation() returns (text: string)
    ensures text == "line1\n    indented\n    still_indented"
  {
    var b := new Lib.Builder<TestSyntax>();
    b.StartNode(Root);
    b.Token(Text, "line1");
    b.Newline();
    b.Indent("    ");
    b.Token(Text, "indented");
    b.Newline();
    b.Token(Text, "still_indented");
    b.Dedent();
    b.FinishNode();
    IndentedBuild(AddToken(Syntax2D.Newline, "\n"), AddToken(Syntax2D.Dedent, ""), b.events);
    var root := b.Finish(Test);
    text := Lib.ExtractText(Test, root.value);
  }

  /** `test_dump_text_with_nested_indentation` */
  method DumpTextWithNestedIndentation() returns (text: string)
    ensures text == "start\n  level1\n    level2\n    still_level2\n  back_to_level1\nend"
  {
    var b := new Lib.Builder<TestSyntax>();
    b.StartNode(Root);
    b.Token(Text, "start");
    b.Newline();
    b.Indent("  ");
    b.Token(Text, "level1");
    b.Newline();
    b.Indent("  ");
    b.Token(Text, "level2");
    b.Newline();
    b.Token(Text, "still_level2");
    b.Dedent();
    b.Newline();
    b.Token(Text, "back_to_level1");
    b.Dedent();
    b.Newline();
    b.Token(Text, "end");
    b.FinishNode();
    NestedBuild(AddToken(Syntax2D.Newline, "\n"), AddToken(Syntax2D.Dedent, ""), b.events);
    var root := b.Finish(Test);
    text := Lib.ExtractText(Test, root.value);
  }

  /** `test_dump_text_mixed_indentation_styles` */
  method DumpTextMixedIndentationStyles() returns (text: string)
    ensures text == "start\n    # comment"
  {
    var b := new Lib.Builder<TestSyntax>();
    b.StartNode(Root);
    b.Token(Text, "start");
    b.Newline();
    b.Indent("    ");
    b.Indent("# ");
    b.Token(Text, "comment");
    b.Dedent();
    b.Dedent();
    b.FinishNode();
    MixedBuild(AddToken(Syntax2D.Newline, "\n"), AddToken(Syntax2D.Dedent, ""), b.events);
    var root := b.Finish(Test);
    text := Lib.ExtractText(Test, root.value);
  }

}
