/**
 * The texts the unit tests of src/lib.rs expect, each shown to be the
 * concatenation of the pieces the walks write for its document.
 */
module Joins {
  import opened Indentation

  /** One more piece: the join of the first `k` pieces is the join of the first `k - 1` followed by piece `k - 1`. */
  lemma JoinStep(ps: seq<string>, k: nat, before: string, after: string)
    requires 0 < k <= |ps|
    requires Concat(ps[..k - 1]) == before && before + ps[k - 1] == after
    ensures Concat(ps[..k]) == after
  {
    assert ps[..k][..k - 1] == ps[..k - 1];
  }

  /** The pieces both walks write for `Simple`, as the walk produces them. */
  lemma SimplePieces(ps: seq<string>)
    requires ps == ["hello"] + ([" "] + (["world"] + []))
    ensures ps == ["hello", " ", "world"]
  {
  }

  lemma SimpleJoin()
    ensures Concat(["hello", " ", "world"]) == "hello world"
  {
    var p := ["hello", " ", "world"];
    assert p[..0] == [];
    JoinStep(p, 1, "", "hello");
    JoinStep(p, 2, "hello", "hello ");
    JoinStep(p, 3, "hello ", "hello world");
    assert p[..3] == p;
  }

  /** The pieces both walks write for `Newlines`, as the walk produces them. */
  lemma NewlinesPieces(ps: seq<string>)
    requires ps == ["line1"] + (["\n"] + (["line2"] + []))
    ensures ps == ["line1", "\n", "line2"]
  {
  }

  lemma NewlinesJoin()
    ensures Concat(["line1", "\n", "line2"]) == "line1\nline2"
  {
    var p := ["line1", "\n", "line2"];
    assert p[..0] == [];
    JoinStep(p, 1, "", "line1");
    JoinStep(p, 2, "line1", "line1\n");
    JoinStep(p, 3, "line1\n", "line1\nline2");
    assert p[..3] == p;
  }

  /** The pieces both walks write for `Indented`, as the walk produces them. */
  lemma IndentedPieces(ps: seq<string>)
    requires ps == ["line1"] + (["\n"] + ([] + ["    "] + ["indented"] + (["\n"] + ([] + ["    "] + ["still_indented"] + []))))
    ensures ps == ["line1", "\n", "    ", "indented", "\n", "    ", "still_indented"]
  {
  }

  lemma IndentedJoinStep4()
    ensures "line1\n    " + "indented" == "line1\n    indented"
  {
  }

  lemma IndentedJoinStep5()
    ensures "line1\n    indented" + "\n" == "line1\n    indented\n"
  {
  }

  lemma IndentedJoinStep6()
    ensures "line1\n    indented\n" + "    " == "line1\n    indented\n    "
  {
  }

  lemma IndentedJoinStep7()
    ensures "line1\n    indented\n    " + "still_indented" == "line1\n    indented\n    still_indented"
  {
  }

  lemma IndentedJoin()
    ensures Concat(["line1", "\n", "    ", "indented", "\n", "    ", "still_indented"]) == "line1\n    indented\n    still_indented"
  {
    var p := ["line1", "\n", "    ", "indented", "\n", "    ", "still_indented"];
    assert p[..0] == [];
    JoinStep(p, 1, "", "line1");
    JoinStep(p, 2, "line1", "line1\n");
    JoinStep(p, 3, "line1\n", "line1\n    ");
    IndentedJoinStep4();
    JoinStep(p, 4, "line1\n    ", "line1\n    indented");
    IndentedJoinStep5();
    JoinStep(p, 5, "line1\n    indented", "line1\n    indented\n");
    IndentedJoinStep6();
    JoinStep(p, 6, "line1\n    indented\n", "line1\n    indented\n    ");
    IndentedJoinStep7();
    JoinStep(p, 7, "line1\n    indented\n    ", "line1\n    indented\n    still_indented");
    assert p[..7] == p;
  }

  /** The pieces both walks write for `Nested`, as the walk produces them. */
  lemma NestedPieces(ps: seq<string>)
    requires ps == ["start"] + (["\n"] + ([] + ["  "] + ["level1"] + (["\n"] + ([] + ["  "] + ["  "] + ["level2"] + (["\n"] + ([] + ["  "] + ["  "] + ["still_level2"] + (["\n"] + ([] + ["  "] + ["back_to_level1"] + (["\n"] + (["end"] + []))))))))))
    ensures ps == ["start", "\n", "  ", "level1", "\n", "  ", "  ", "level2", "\n", "  ", "  ", "still_level2", "\n", "  ", "back_to_level1", "\n", "end"]
  {
  }

  lemma NestedJoinStep4()
    ensures "start\n  " + "level1" == "start\n  level1"
  {
  }

  lemma NestedJoinStep5()
    ensures "start\n  level1" + "\n" == "start\n  level1\n"
  {
  }

  lemma NestedJoinStep6()
    ensures "start\n  level1\n" + "  " == "start\n  level1\n  "
  {
  }

  lemma NestedJoinStep7()
    ensures "start\n  level1\n  " + "  " == "start\n  level1\n    "
  {
  }

  lemma NestedJoinStep8()
    ensures "start\n  level1\n    " + "level2" == "start\n  level1\n    level2"
  {
  }

  lemma NestedJoinStep9()
    ensures "start\n  level1\n    level2" + "\n" == "start\n  level1\n    level2\n"
  {
  }

  lemma NestedJoinStep10()
    ensures "start\n  level1\n    level2\n" + "  " == "start\n  level1\n    level2\n  "
  {
  }

  lemma NestedJoinStep11()
    ensures "start\n  level1\n    level2\n  " + "  " == "start\n  level1\n    level2\n    "
  {
  }

  lemma NestedJoinStep12()
    ensures "start\n  level1\n    level2\n    " + "still_level2" == "start\n  level1\n    level2\n    still_level2"
  {
  }

  lemma NestedJoinStep13()
    ensures "start\n  level1\n    level2\n    still_level2" + "\n" == "start\n  level1\n    level2\n    still_level2\n"
  {
  }

  lemma NestedJoinStep14()
    ensures "start\n  level1\n    level2\n    still_level2\n" + "  " == "start\n  level1\n    level2\n    still_level2\n  "
  {
  }

  lemma NestedJoinStep15()
    ensures "start\n  level1\n    level2\n    still_level2\n  " + "back_to_level1" == "start\n  level1\n    level2\n    still_level2\n  back_to_level1"
  {
  }

  lemma NestedJoinStep16()
    ensures "start\n  level1\n    level2\n    still_level2\n  back_to_level1" + "\n" == "start\n  level1\n    level2\n    still_level2\n  back_to_level1\n"
  {
  }

  lemma NestedJoinStep17()
    ensures "start\n  level1\n    level2\n    still_level2\n  back_to_level1\n" + "end" == "start\n  level1\n    level2\n    still_level2\n  back_to_level1\nend"
  {
  }

  lemma NestedJoin()
    ensures Concat(["start", "\n", "  ", "level1", "\n", "  ", "  ", "level2", "\n", "  ", "  ", "still_level2", "\n", "  ", "back_to_level1", "\n", "end"]) == "start\n  level1\n    level2\n    still_level2\n  back_to_level1\nend"
  {
    var p := ["start", "\n", "  ", "level1", "\n", "  ", "  ", "level2", "\n", "  ", "  ", "still_level2", "\n", "  ", "back_to_level1", "\n", "end"];
    assert p[..0] == [];
    JoinStep(p, 1, "", "start");
    JoinStep(p, 2, "start", "start\n");
    JoinStep(p, 3, "start\n", "start\n  ");
    NestedJoinStep4();
    JoinStep(p, 4, "start\n  ", "start\n  level1");
    NestedJoinStep5();
    JoinStep(p, 5, "start\n  level1", "start\n  level1\n");
    NestedJoinStep6();
    JoinStep(p, 6, "start\n  level1\n", "start\n  level1\n  ");
    NestedJoinStep7();
    JoinStep(p, 7, "start\n  level1\n  ", "start\n  level1\n    ");
    NestedJoinStep8();
    JoinStep(p, 8, "start\n  level1\n    ", "start\n  level1\n    level2");
    NestedJoinStep9();
    JoinStep(p, 9, "start\n  level1\n    level2", "start\n  level1\n    level2\n");
    NestedJoinStep10();
    JoinStep(p, 10, "start\n  level1\n    level2\n", "start\n  level1\n    level2\n  ");
    NestedJoinStep11();
    JoinStep(p, 11, "start\n  level1\n    level2\n  ", "start\n  level1\n    level2\n    ");
    NestedJoinStep12();
    JoinStep(p, 12, "start\n  level1\n    level2\n    ", "start\n  level1\n    level2\n    still_level2");
    NestedJoinStep13();
    JoinStep(p, 13, "start\n  level1\n    level2\n    still_level2", "start\n  level1\n    level2\n    still_level2\n");
    NestedJoinStep14();
    JoinStep(p, 14, "start\n  level1\n    level2\n    still_level2\n", "start\n  level1\n    level2\n    still_level2\n  ");
    NestedJoinStep15();
    JoinStep(p, 15, "start\n  level1\n    level2\n    still_level2\n  ", "start\n  level1\n    level2\n    still_level2\n  back_to_level1");
    NestedJoinStep16();
    JoinStep(p, 16, "start\n  level1\n    level2\n    still_level2\n  back_to_level1", "start\n  level1\n    level2\n    still_level2\n  back_to_level1\n");
    NestedJoinStep17();
    JoinStep(p, 17, "start\n  level1\n    level2\n    still_level2\n  back_to_level1\n", "start\n  level1\n    level2\n    still_level2\n  back_to_level1\nend");
    assert p[..17] == p;
  }

  /** The pieces both walks write for `Mixed`, as the walk produces them. */
  lemma MixedPieces(ps: seq<string>)
    requires ps == ["start"] + (["\n"] + ([] + ["    "] + ["# "] + ["comment"] + []))
    ensures ps == ["start", "\n", "    ", "# ", "comment"]
  {
  }

  lemma MixedJoinStep5()
    ensures "start\n    # " + "comment" == "start\n    # comment"
  {
  }

  lemma MixedJoin()
    ensures Concat(["start", "\n", "    ", "# ", "comment"]) == "start\n    # comment"
  {
    var p := ["start", "\n", "    ", "# ", "comment"];
    assert p[..0] == [];
    JoinStep(p, 1, "", "start");
    JoinStep(p, 2, "start", "start\n");
    JoinStep(p, 3, "start\n", "start\n    ");
    JoinStep(p, 4, "start\n    ", "start\n    # ");
    MixedJoinStep5();
    JoinStep(p, 5, "start\n    # ", "start\n    # comment");
    assert p[..5] == p;
  }

  /** The pieces each walk writes for `BlankLine`, as the walk produces them. */
  lemma BlankLinePieces(ps: seq<string>)
    requires ps == [] + ["  "] + ["a"] + (["\n"] + (["\n"] + ([] + ["  "] + ["b"] + []))) || ps == [] + ["  "] + ["a"] + (["\n"] + ([] + ["  "] + ["\n"] + ([] + ["  "] + ["b"] + [])))
    ensures ps == ["  ", "a", "\n", "\n", "  ", "b"] || ps == ["  ", "a", "\n", "  ", "\n", "  ", "b"]
    ensures ps == [] + ["  "] + ["a"] + (["\n"] + (["\n"] + ([] + ["  "] + ["b"] + []))) ==> ps == ["  ", "a", "\n", "\n", "  ", "b"]
    ensures ps == [] + ["  "] + ["a"] + (["\n"] + ([] + ["  "] + ["\n"] + ([] + ["  "] + ["b"] + []))) ==> ps == ["  ", "a", "\n", "  ", "\n", "  ", "b"]
  {
  }

  lemma BlankLineLibJoin()
    ensures Concat(["  ", "a", "\n", "\n", "  ", "b"]) == "  a\n\n  b"
  {
    var p := ["  ", "a", "\n", "\n", "  ", "b"];
    assert p[..0] == [];
    JoinStep(p, 1, "", "  ");
    JoinStep(p, 2, "  ", "  a");
    JoinStep(p, 3, "  a", "  a\n");
    JoinStep(p, 4, "  a\n", "  a\n\n");
    JoinStep(p, 5, "  a\n\n", "  a\n\n  ");
    JoinStep(p, 6, "  a\n\n  ", "  a\n\n  b");
    assert p[..6] == p;
  }

  lemma BlankLineGreenJoin()
    ensures Concat(["  ", "a", "\n", "  ", "\n", "  ", "b"]) == "  a\n  \n  b"
  {
    var p := ["  ", "a", "\n", "  ", "\n", "  ", "b"];
    assert p[..0] == [];
    JoinStep(p, 1, "", "  ");
    JoinStep(p, 2, "  ", "  a");
    JoinStep(p, 3, "  a", "  a\n");
    JoinStep(p, 4, "  a\n", "  a\n  ");
    JoinStep(p, 5, "  a\n  ", "  a\n  \n");
    JoinStep(p, 6, "  a\n  \n", "  a\n  \n  ");
    JoinStep(p, 7, "  a\n  \n  ", "  a\n  \n  b");
    assert p[..7] == p;
  }
}
