/**
 * The tests of cstree2d/tests/main.rs, as methods over the cstree2d builder
 * and its `extract_text`, writing to a formatter that never fails (as
 * writing into a `String` does).
 */
module GreenTests {
  import opened Syntax
  import opened Cstree
  import opened Indentation
  import opened Scenarios
  import opened Builds
  import Green

  /**
   * The text of a tree as a `String`: `extract_text` writing to a formatter
   * over a `String`, which never fails.
   */
  method ExtractString<S>(sy: InnerSyntax<S>, root: Tree) returns (r: Green.FmtResult, text: string)
    requires root.Node? && Decodable(sy, Flatten(root)) && Green.TextsPresent(Flatten(root))
    ensures r == Green.Ok && text == Green.FullText(sy, Start, Flatten(root))
  {
    var f := new Green.Formatter(None);
    r := Green.ExtractText(sy, root, f);
    Green.RunClosedForm(Green.FmtState("", None), Green.AllWrites(sy, Start, Flatten(root)));
    text := f.written;
  }

  /** `test_basic_indentation` */
  method BasicIndentation() returns (children: nat)
    ensures children > 0
  {
    var b := new Green.Builder<TestSyntax>();
    b.StartNode(Root);
    b.Token(Text, "line1");
    b.Newline();
    b.Indent("    ");
    b.Token(Text, "indented");
    b.Newline();
    b.Token(Text, "still_indented");
    b.Dedent();
    b.FinishNode();
    IndentedBuild(AddStaticToken(Syntax2D.Newline), AddStaticToken(Syntax2D.Dedent), b.events);
    var root := b.Finish(Test);
    children := |root.value.children|;
  }

  /** `test_dump_text_simple` */
  method DumpTextSimple() returns (r: Green.FmtResult, text: string)
    ensures r == Green.Ok && text == "hello world"
  {
    var b := new Green.Builder<TestSyntax>();
    b.StartNode(Root);
    b.Token(Text, "hello");
    b.Token(Text, " ");
    b.Token(Text, "world");
    b.FinishNode();
    SimpleBuild(b.events);
    var root := b.Finish(Test);
    r, text := ExtractString(Test, root.value);
  }

  /** `test_dump_text_with_newlines` */
  method DumpTextWithNewlines() returns (r: Green.FmtResult, text: string)
    ensures r == Green.Ok && text == "line1\nline2"
  {
    var b := new Green.Builder<TestSyntax>();
    b.StartNode(Root);
    b.Token(Text, "line1");
    b.Newline();
    b.Token(Text, "line2");
    b.FinishNode();
    NewlinesBuild(AddStaticToken(Syntax2D.Newline), b.events);
    var root := b.Finish(Test);
    r, text := ExtractString(Test, root.value);
  }

  /** `test_dump_text_with_indentation` */
  method DumpTextWithIndentation() returns (r: Green.FmtResult, text: string)
    ensures r == Green.Ok && text == "line1\n    indented\n    still_indented"
  {
    var b := new Green.Builder<TestSyntax>();
    b.StartNode(Root);
    b.Token(Text, "line1");
    b.Newline();
    b.Indent("    ");
    b.Token(Text, "indented");
    b.Newline();
    b.Token(Text, "still_indented");
    b.Dedent();
    b.FinishNode();
    IndentedBuild(AddStaticToken(Syntax2D.Newline), AddStaticToken(Syntax2D.Dedent), b.events);
    var root := b.Finish(Test);
    r, text := ExtractString(Test, root.value);
  }

  /** `test_dump_text_with_nested_indentation` */
  method DumpTextWithNestedIndentation() returns (r: Green.FmtResult, text: string)
    ensures r == Green.Ok && text == "start\n  level1\n    level2\n    still_level2\n  back_to_level1\nend"
  {
    var b := new Green.Builder<TestSyntax>();
    b.StartNode(Root);
    b.Token(Text, "start");
    b.Newline();
    b.Indent("  ");
    b.Token(Text, "level1");
    b.Newline();
    b.Indent("  ");
    b.Token(Text, "level2");
    b.Newline();
    b.Token(Text, "still_level2");
    b.Dedent();
    b.Newline();
    b.Token(Text, "back_to_level1");
    b.Dedent();
    b.Newline();
    b.Token(Text, "end");
    b.FinishNode();
    NestedBuild(AddStaticToken(Syntax2D.Newline), AddStaticToken(Syntax2D.Dedent), b.events);
    var root := b.Finish(Test);
    r, text := ExtractString(Test, root.value);
  }

  /** `test_dump_text_mixed_indentation_styles` */
  method DumpTextMixedIndentationStyles() returns (r: Green.FmtResult, text: string)
    ensures r == Green.Ok && text == "start\n    # comment"
  {
    var b := new Green.Builder<TestSyntax>();
    b.StartNode(Root);
    b.Token(Text, "start");
    b.Newline();
    b.Indent("    ");
    b.Indent("# ");
    b.Token(Text, "comment");
    b.Dedent();
    b.Dedent();
    b.FinishNode();
    MixedBuild(AddStaticToken(Syntax2D.Newline), AddStaticToken(Syntax2D.Dedent), b.events);
    var root := b.Finish(Test);
    r, text := ExtractString(Test, root.value);
  }

}
