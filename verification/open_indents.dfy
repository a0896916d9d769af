/**
 * Which Indents are still open after a token sequence, defined on the tokens
 * alone, without the walk's stack: an Indent is open when no run of tokens
 * starting right after it holds more Dedents than Indents, so no Dedent has
 * closed it. The walk's stack holds exactly the texts of the open Indents, in
 * order.
 */
module OpenIndents {
  import opened Syntax
  import opened Cstree
  import opened Indentation

  /** Indents minus Dedents in a stretch of tokens. */
  function Depth(toks: seq<GreenToken>): int
  {
    Count(toks, INDENT_RAW) - Count(toks, DEDENT_RAW)
  }

  /** What one token adds to the depth. */
  function Delta(tok: GreenToken): int
  {
    if tok.kind == INDENT_RAW then 1 else if tok.kind == DEDENT_RAW then -1 else 0
  }

  lemma DepthSnoc(toks: seq<GreenToken>, tok: GreenToken)
    ensures Depth(toks + [tok]) == Depth(toks) + Delta(tok)
  {
    assert (toks + [tok])[..|toks|] == toks;
  }

  /** The depth after position `i` once one more token is appended. */
  lemma DepthTailSnoc(toks: seq<GreenToken>, tok: GreenToken, i: nat)
    requires i < |toks|
    ensures Depth((toks + [tok])[i + 1..]) == Depth(toks[i + 1..]) + Delta(tok)
  {
    TailSnoc(toks, tok, i + 1);
    DepthSnoc(toks[i + 1..], tok);
  }

  lemma TailSnoc<T>(xs: seq<T>, x: T, i: nat)
    requires i <= |xs|
    ensures (xs + [x])[i..] == xs[i..] + [x]
  {
  }

  lemma DepthEmpty()
    ensures Depth([]) == 0
  {
  }

  /** The depth of the tokens strictly after position `i` and before position `k`. */
  function DepthAfter(toks: seq<GreenToken>, i: nat, k: nat): int
    requires i < k <= |toks|
  {
    Depth(toks[i + 1..k])
  }

  /**
   * The Indent at position `i` is still open at the end of `toks`: no
   * stretch after it has more Dedents than Indents.
   */
  ghost predicate IsOpen(toks: seq<GreenToken>, i: nat)
    requires i < |toks|
  {
    && toks[i].kind == INDENT_RAW
    && forall k | i < k <= |toks| :: DepthAfter(toks, i, k) >= 0
  }

  /** The texts of the open Indents among the first `n` tokens, in order. */
  ghost function OpenTexts(toks: seq<GreenToken>, n: nat): seq<string>
    requires n <= |toks|
  {
    if n == 0 then []
    else OpenTexts(toks, n - 1) + (if IsOpen(toks, n - 1) then [TextOf(toks[n - 1])] else [])
  }

  /** Every open Indent has as many open Indents after it as the depth of the tokens after it. */
  ghost predicate DepthCountsOpen(toks: seq<GreenToken>)
  {
    forall i | 0 <= i < |toks| :: DepthCountsOpenAt(toks, i)
  }

  /** The Indent at position `i`, if open, has as many open Indents after it as the depth after it. */
  ghost predicate DepthCountsOpenAt(toks: seq<GreenToken>, i: nat)
    requires i < |toks|
  {
    IsOpen(toks, i) ==> Depth(toks[i + 1..]) == |OpenTexts(toks, |toks|)| - |OpenTexts(toks, i + 1)|
  }

  /** The open Indents among fewer tokens are a prefix of those among more. */
  lemma {:induction false} OpenTextsPrefix(toks: seq<GreenToken>, m: nat, n: nat)
    requires m <= n <= |toks|
    ensures OpenTexts(toks, m) <= OpenTexts(toks, n)
    decreases n - m
  {
    if m < n {
      OpenTextsPrefix(toks, m, n - 1);
      var a, b := OpenTexts(toks, m), OpenTexts(toks, n - 1);
      assert OpenTexts(toks, n)[..|b|] == b;
      assert b[..|a|] == a;
    }
  }

  /** An open Indent before the end leaves some open Indent text behind. */
  lemma OpenCounts(toks: seq<GreenToken>, i: nat)
    requires i < |toks| && IsOpen(toks, i)
    ensures 0 < |OpenTexts(toks, i + 1)| <= |OpenTexts(toks, |toks|)|
  {
    OpenTextsPrefix(toks, i + 1, |toks|);
  }

  /** Two sequences that agree on the first `m` tokens and on which of them are open agree on their open texts. */
  lemma {:induction false} OpenTextsSame(toks: seq<GreenToken>, toks': seq<GreenToken>, m: nat)
    requires m <= |toks| && m <= |toks'|
    requires forall i | 0 <= i < m :: toks'[i] == toks[i] && (IsOpen(toks', i) <==> IsOpen(toks, i))
    ensures OpenTexts(toks', m) == OpenTexts(toks, m)
    decreases m
  {
    if m > 0 {
      OpenTextsSame(toks, toks', m - 1);
    }
  }

  /** An earlier Indent stays open after one more token exactly when the depth after it stays non-negative. */
  lemma OpenSnoc(toks: seq<GreenToken>, t: GreenToken, i: nat)
    requires i < |toks|
    ensures IsOpen(toks + [t], i) <==> IsOpen(toks, i) && Depth(toks[i + 1..]) + Delta(t) >= 0
  {
    var toks' := toks + [t];
    var n := |toks|;
    forall k | i < k <= n
      ensures DepthAfter(toks', i, k) == DepthAfter(toks, i, k)
    {
      assert toks'[i + 1..k] == toks[i + 1..k];
    }
    assert toks'[i + 1..n + 1] == toks[i + 1..] + [t];
    DepthSnoc(toks[i + 1..], t);
    assert DepthAfter(toks', i, n + 1) == Depth(toks[i + 1..]) + Delta(t);
  }

  /** The last token is open exactly when it is an Indent. */
  lemma OpenLast(toks: seq<GreenToken>, t: GreenToken)
    ensures IsOpen(toks + [t], |toks|) <==> t.kind == INDENT_RAW
  {
    var toks' := toks + [t];
    assert toks'[|toks| + 1..|toks| + 1] == [];
    DepthEmpty();
  }

  /** An Indent, a Newline or an ordinary token closes no earlier Indent. */
  lemma KeepsOpen(toks: seq<GreenToken>, t: GreenToken, i: nat)
    requires i < |toks| && t.kind != DEDENT_RAW
    ensures IsOpen(toks + [t], i) <==> IsOpen(toks, i)
  {
    OpenSnoc(toks, t, i);
    if IsOpen(toks, i) {
      assert toks[i + 1..|toks|] == toks[i + 1..];
      assert DepthAfter(toks, i, |toks|) >= 0;
    }
  }

  lemma KeepsOpenTexts(toks: seq<GreenToken>, t: GreenToken, m: nat)
    requires m <= |toks| && t.kind != DEDENT_RAW
    ensures OpenTexts(toks + [t], m) == OpenTexts(toks, m)
  {
    forall i | 0 <= i < m
      ensures (toks + [t])[i] == toks[i] && (IsOpen(toks + [t], i) <==> IsOpen(toks, i))
    {
      KeepsOpen(toks, t, i);
    }
    OpenTextsSame(toks, toks + [t], m);
  }

  lemma KeepsOpenCount(toks: seq<GreenToken>, t: GreenToken, m: nat)
    requires m <= |toks| && t.kind != DEDENT_RAW
    ensures |OpenTexts(toks + [t], m)| == |OpenTexts(toks, m)|
  {
    KeepsOpenTexts(toks, t, m);
  }

  /** The open texts after one more token, when that token is not a Dedent. */
  lemma NonDedentTexts(toks: seq<GreenToken>, t: GreenToken)
    requires t.kind != DEDENT_RAW
    ensures OpenTexts(toks + [t], |toks| + 1)
         == OpenTexts(toks, |toks|) + (if t.kind == INDENT_RAW then [TextOf(t)] else [])
  {
    KeepsOpenTexts(toks, t, |toks|);
    OpenLast(toks, t);
    assert (toks + [t])[|toks|] == t;
  }

  /** Establishes the count at position `i` from the two open-text lengths. */
  lemma CountsAt(toks: seq<GreenToken>, len: nat, i: nat, all: int, upto: int)
    requires i < |toks| == len
    requires |OpenTexts(toks, len)| == all
    requires |OpenTexts(toks, i + 1)| == upto
    requires Depth(toks[i + 1..]) == all - upto
    ensures DepthCountsOpenAt(toks, i)
  {
  }

  /** Nothing follows the last token, so its count holds trivially. */
  lemma LastCounts(toks: seq<GreenToken>, t: GreenToken)
    ensures DepthCountsOpenAt(toks + [t], |toks|)
  {
    var toks' := toks + [t];
    assert toks'[|toks| + 1..] == [];
    DepthEmpty();
    var all := |OpenTexts(toks', |toks| + 1)|;
    CountsAt(toks', |toks| + 1, |toks|, all, all);
  }

  /** The count at an earlier position, carried over a token that is not a Dedent. */
  lemma NonDedentCount(toks: seq<GreenToken>, t: GreenToken, i: nat)
    requires i < |toks| && t.kind != DEDENT_RAW
    requires Depth(toks[i + 1..]) == |OpenTexts(toks, |toks|)| - |OpenTexts(toks, i + 1)|
    requires |OpenTexts(toks + [t], |toks| + 1)| == |OpenTexts(toks, |toks|)| + Delta(t)
    ensures DepthCountsOpenAt(toks + [t], i)
  {
    KeepsOpenCount(toks, t, i + 1);
    DepthTailSnoc(toks, t, i);
    CountsAt(toks + [t], |toks| + 1, i, |OpenTexts(toks, |toks|)| + Delta(t), |OpenTexts(toks, i + 1)|);
  }

  /** Every Indent keeps its count after a token that is not a Dedent. */
  lemma NonDedentAt(toks: seq<GreenToken>, t: GreenToken, i: nat)
    requires i <= |toks| && t.kind != DEDENT_RAW && DepthCountsOpen(toks)
    requires |OpenTexts(toks + [t], |toks| + 1)| == |OpenTexts(toks, |toks|)| + Delta(t)
    ensures DepthCountsOpenAt(toks + [t], i)
  {
    if i == |toks| {
      LastCounts(toks, t);
    } else {
      KeepsOpen(toks, t, i);
      if IsOpen(toks + [t], i) {
        assert DepthCountsOpenAt(toks, i);
        NonDedentCount(toks, t, i);
      }
    }
  }

  /** An Indent, a Newline or an ordinary token closes no Indent, and opens one if it is an Indent. */
  lemma NonDedentStep(toks: seq<GreenToken>, t: GreenToken)
    requires t.kind != DEDENT_RAW && DepthCountsOpen(toks)
    ensures OpenTexts(toks + [t], |toks| + 1)
         == OpenTexts(toks, |toks|) + (if t.kind == INDENT_RAW then [TextOf(t)] else [])
    ensures DepthCountsOpen(toks + [t])
  {
    NonDedentTexts(toks, t);
    NonDedentCounts(toks, t);
  }

  lemma NonDedentCounts(toks: seq<GreenToken>, t: GreenToken)
    requires t.kind != DEDENT_RAW && DepthCountsOpen(toks)
    ensures DepthCountsOpen(toks + [t])
  {
    NonDedentLength(toks, t);
    forall i | 0 <= i < |toks| + 1
      ensures DepthCountsOpenAt(toks + [t], i)
    {
      NonDedentAt(toks, t, i);
    }
  }

  lemma NonDedentLength(toks: seq<GreenToken>, t: GreenToken)
    requires t.kind != DEDENT_RAW
    ensures |OpenTexts(toks + [t], |toks| + 1)| == |OpenTexts(toks, |toks|)| + Delta(t)
  {
    NonDedentTexts(toks, t);
  }

  /** After a Dedent, an earlier Indent stays open exactly when some open Indent follows it. */
  lemma DedentOpen(toks: seq<GreenToken>, t: GreenToken, i: nat)
    requires i < |toks| && t.kind == DEDENT_RAW && DepthCountsOpen(toks)
    ensures IsOpen(toks + [t], i) <==> IsOpen(toks, i) && |OpenTexts(toks, i + 1)| < |OpenTexts(toks, |toks|)|
  {
    OpenSnoc(toks, t, i);
    assert DepthCountsOpenAt(toks, i);
  }

  /**
   * The open texts among the first `m` tokens once a Dedent has closed the
   * last open Indent: those before it, cut off before the closed one.
   */
  ghost function ClosedUpTo(toks: seq<GreenToken>, m: nat): seq<string>
    requires m <= |toks| && OpenTexts(toks, |toks|) != []
  {
    var x, a := OpenTexts(toks, |toks|), |OpenTexts(toks, m)|;
    x[..if a < |x| - 1 then a else |x| - 1]
  }

  /** Given which earlier Indents a Dedent leaves open, the open texts lose their last entry. */
  lemma {:induction false} OpenTextsClosesLast(toks: seq<GreenToken>, t: GreenToken, m: nat)
    requires m <= |toks| && t.kind == DEDENT_RAW && DepthCountsOpen(toks)
    requires OpenTexts(toks, |toks|) != []
    ensures OpenTexts(toks + [t], m) == ClosedUpTo(toks, m)
    decreases m
  {
    if m > 0 {
      OpenTextsClosesLast(toks, t, m - 1);
      DedentOpen(toks, t, m - 1);
      assert (toks + [t])[m - 1] == toks[m - 1];
      if IsOpen(toks, m - 1) {
        ClosesLastOpen(toks, t, m);
      } else {
        ClosesLastShut(toks, t, m);
      }
    }
  }

  /** The step over an Indent that was open before the Dedent. */
  lemma ClosesLastOpen(toks: seq<GreenToken>, t: GreenToken, m: nat)
    requires 0 < m <= |toks| && t.kind == DEDENT_RAW && DepthCountsOpen(toks)
    requires OpenTexts(toks, |toks|) != [] && IsOpen(toks, m - 1)
    requires OpenTexts(toks + [t], m - 1) == ClosedUpTo(toks, m - 1)
    requires (toks + [t])[m - 1] == toks[m - 1]
    requires IsOpen(toks + [t], m - 1) <==> |OpenTexts(toks, m)| < |OpenTexts(toks, |toks|)|
    ensures OpenTexts(toks + [t], m) == ClosedUpTo(toks, m)
  {
    var x, before := OpenTexts(toks, |toks|), OpenTexts(toks, m - 1);
    OpenTextsPrefix(toks, m, |toks|);
    assert OpenTexts(toks, m) == before + [TextOf(toks[m - 1])];
    assert x[..|before| + 1] == before + [TextOf(toks[m - 1])];
    assert x[..|before|] == before;
  }

  /** The step over a token that was not an open Indent before the Dedent. */
  lemma ClosesLastShut(toks: seq<GreenToken>, t: GreenToken, m: nat)
    requires 0 < m <= |toks| && t.kind == DEDENT_RAW
    requires OpenTexts(toks, |toks|) != [] && !IsOpen(toks, m - 1)
    requires OpenTexts(toks + [t], m - 1) == ClosedUpTo(toks, m - 1)
    requires !IsOpen(toks + [t], m - 1)
    ensures OpenTexts(toks + [t], m) == ClosedUpTo(toks, m)
  {
  }

  lemma ClosesLastCount(toks: seq<GreenToken>, t: GreenToken, m: nat)
    requires m <= |toks| && t.kind == DEDENT_RAW && DepthCountsOpen(toks)
    requires |OpenTexts(toks, m)| < |OpenTexts(toks, |toks|)|
    ensures |OpenTexts(toks + [t], m)| == |OpenTexts(toks, m)|
  {
    OpenTextsClosesLast(toks, t, m);
  }

  /** A Dedent with no Indent open changes nothing. */
  lemma DedentNoneOpen(toks: seq<GreenToken>, t: GreenToken)
    requires t.kind == DEDENT_RAW && DepthCountsOpen(toks)
    requires OpenTexts(toks, |toks|) == []
    ensures OpenTexts(toks + [t], |toks| + 1) == []
    ensures forall i | 0 <= i < |toks| + 1 :: !IsOpen(toks + [t], i)
  {
    var toks', n := toks + [t], |toks|;
    OpenLast(toks, t);
    forall i | 0 <= i < n
      ensures toks'[i] == toks[i] && !IsOpen(toks', i) && !IsOpen(toks, i)
    {
      OpenSnoc(toks, t, i);
      if IsOpen(toks, i) {
        OpenCounts(toks, i);
      }
    }
    OpenTextsSame(toks, toks', n);
  }

  /** The count at an Indent that a Dedent leaves open: both sides drop by one. */
  lemma DedentCount(toks: seq<GreenToken>, t: GreenToken, i: nat)
    requires i < |toks| && t.kind == DEDENT_RAW && DepthCountsOpen(toks)
    requires OpenTexts(toks, |toks|) != []
    requires |OpenTexts(toks, i + 1)| < |OpenTexts(toks, |toks|)|
    requires Depth(toks[i + 1..]) == |OpenTexts(toks, |toks|)| - |OpenTexts(toks, i + 1)|
    requires |OpenTexts(toks + [t], |toks| + 1)| == |OpenTexts(toks, |toks|)| - 1
    ensures DepthCountsOpenAt(toks + [t], i)
  {
    var x, y := OpenTexts(toks, |toks|), OpenTexts(toks, i + 1);
    ClosesLastCount(toks, t, i + 1);
    DepthTailSnoc(toks, t, i);
    CountsAt(toks + [t], |toks| + 1, i, |x| - 1, |y|);
  }

  /** One earlier Indent keeps its count after a Dedent that closes the last open Indent. */
  lemma DedentAt(toks: seq<GreenToken>, t: GreenToken, i: nat)
    requires i < |toks| && t.kind == DEDENT_RAW && DepthCountsOpen(toks)
    requires OpenTexts(toks, |toks|) != []
    requires |OpenTexts(toks + [t], |toks| + 1)| == |OpenTexts(toks, |toks|)| - 1
    ensures DepthCountsOpenAt(toks + [t], i)
  {
    DedentOpen(toks, t, i);
    if IsOpen(toks + [t], i) {
      assert DepthCountsOpenAt(toks, i);
      DedentCount(toks, t, i);
    }
  }

  /** A Dedent with some Indent open closes the last one. */
  lemma DedentSomeOpen(toks: seq<GreenToken>, t: GreenToken)
    requires t.kind == DEDENT_RAW && DepthCountsOpen(toks)
    requires OpenTexts(toks, |toks|) != []
    ensures OpenTexts(toks + [t], |toks| + 1) == Pop(OpenTexts(toks, |toks|))
    ensures DepthCountsOpen(toks + [t])
  {
    var toks', n := toks + [t], |toks|;
    var x := OpenTexts(toks, n);
    OpenLast(toks, t);
    OpenTextsClosesLast(toks, t, n);
    assert OpenTexts(toks', n + 1) == x[..|x| - 1];
    assert |OpenTexts(toks', n + 1)| == |x| - 1;
    forall i | 0 <= i < n + 1
      ensures DepthCountsOpenAt(toks', i)
    {
      if i < n {
        DedentAt(toks, t, i);
      }
    }
  }

  /** A Dedent closes the last open Indent, and does nothing when none is open. */
  lemma DedentStep(toks: seq<GreenToken>, t: GreenToken)
    requires t.kind == DEDENT_RAW && DepthCountsOpen(toks)
    ensures OpenTexts(toks + [t], |toks| + 1) == Pop(OpenTexts(toks, |toks|))
    ensures DepthCountsOpen(toks + [t])
  {
    if OpenTexts(toks, |toks|) == [] {
      DedentNoneOpen(toks, t);
    } else {
      DedentSomeOpen(toks, t);
    }
  }

  /**
   * From an empty stack, the walk's stack holds exactly the texts of the
   * Indents that are still open, in the order they were pushed: each Dedent
   * closes the latest open Indent, and a Dedent with none open changes nothing.
   */
  lemma {:induction false} StackIsOpenIndents<S>(sy: InnerSyntax<S>, toks: seq<GreenToken>)
    requires Decodable(sy, toks)
    ensures Replay(sy, Start, toks).stack == OpenTexts(toks, |toks|)
    ensures DepthCountsOpen(toks)
    decreases |toks|
  {
    if toks != [] {
      var init, t := toks[..|toks| - 1], toks[|toks| - 1];
      assert toks == init + [t];
      assert forall tok | tok in init :: tok in toks;
      assert t in toks;
      StackIsOpenIndents(sy, init);
      if t.kind == DEDENT_RAW {
        DedentStep(init, t);
      } else {
        NonDedentStep(init, t);
      }
    }
  }
}
