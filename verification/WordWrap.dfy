/** Fitting text to the terminal width (`wrap` and `visibleWidthOf` in packages/create/src/formatting.ts). */
module WordWrap {
  /** One UTF-16 code unit. */
  type Unit = x: int | 0 <= x < 0x1_0000

  type Text = seq<Unit>

  const ESCAPE: Unit := 0x1b
  const M: Unit := 0x6d
  const SPACE: Unit := 0x20

  predicate IsHighSurrogate(u: Unit) { 0xd800 <= u <= 0xdbff }

  // ---- Visible width -------------------------------------------------------------------------------------------

  /** Where a scan stands: in plain text, inside an escape sequence, or on the second half of a character. */
  datatype Scan = Plain | Escaped | Paired

  /**
   Columns of a text read from a given scan state.  An escape sequence runs up to an "m" and its "m" takes a column;
   a high surrogate takes a column together with whatever unit follows it.
   */
  function Width(scan: Scan, s: Text): nat
    decreases s
  {
    if s == [] then 0
    else
      match scan
      case Plain =>
        if s[0] == ESCAPE then Width(Escaped, s[1..])
        else 1 + Width(if IsHighSurrogate(s[0]) then Paired else Plain, s[1..])
      case Escaped => if s[0] == M then 1 + Width(Plain, s[1..]) else Width(Escaped, s[1..])
      case Paired => Width(Plain, s[1..])
  }

  function VisibleWidth(s: Text): nat { Width(Plain, s) }

  /** Columns of the text from unit `i` on; there may be no such unit. */
  function WidthAt(scan: Scan, s: Text, i: nat): nat { if i < |s| then Width(scan, s[i..]) else 0 }

  lemma WidthStep(scan: Scan, s: Text, i: nat)
    requires i < |s|
    ensures WidthAt(scan, s, i) ==
            match scan
            case Plain =>
              if s[i] == ESCAPE then WidthAt(Escaped, s, i + 1)
              else 1 + WidthAt(if IsHighSurrogate(s[i]) then Paired else Plain, s, i + 1)
            case Escaped => if s[i] == M then 1 + WidthAt(Plain, s, i + 1) else WidthAt(Escaped, s, i + 1)
            case Paired => WidthAt(Plain, s, i + 1)
  {
    assert s[i..][0] == s[i] && s[i..][1..] == s[i + 1..];
  }

  lemma {:induction false} SkipEscape(s: Text, i: nat, j: nat)
    requires i <= j <= |s| && forall k :: i <= k < j ==> s[k] != M
    ensures WidthAt(Escaped, s, i) == WidthAt(Escaped, s, j)
    decreases j - i
  {
    if i < j {
      WidthStep(Escaped, s, i);
      SkipEscape(s, i + 1, j);
    }
  }

  /** The scanning loop of `visibleWidthOf`. */
  method VisibleWidthOf(s: Text) returns (length: nat)
    ensures length == VisibleWidth(s)
  {
    var i := 0;
    length := 0;
    assert s[0..] == s;
    while i < |s|
      invariant length + WidthAt(Plain, s, i) == VisibleWidth(s)
    {
      WidthStep(Plain, s, i);
      if s[i] == ESCAPE {
        i := i + 1;
        ghost var start := i;
        while i < |s| && s[i] != M
          invariant start <= i <= |s| && forall k :: start <= k < i ==> s[k] != M
        {
          i := i + 1;
        }
        SkipEscape(s, start, i);
        if i == |s| {
          break;
        }
        WidthStep(Escaped, s, i);
      }
      if IsHighSurrogate(s[i]) {
        i := i + 1;
        if i < |s| {
          WidthStep(Paired, s, i);
        }
      }
      length := length + 1;
      i := i + 1;
    }
  }

  /** Where a scan of a text ends. */
  function EndScan(scan: Scan, s: Text): Scan
    decreases s
  {
    if s == [] then scan
    else
      match scan
      case Plain =>
        EndScan(if s[0] == ESCAPE then Escaped else if IsHighSurrogate(s[0]) then Paired else Plain, s[1..])
      case Escaped => EndScan(if s[0] == M then Plain else Escaped, s[1..])
      case Paired => EndScan(Plain, s[1..])
  }

  /** The columns of two texts in a row: the second is read from where the scan of the first ends. */
  lemma {:induction false} WidthOfBoth(scan: Scan, a: Text, b: Text)
    ensures Width(scan, a + b) == Width(scan, a) + Width(EndScan(scan, a), b)
    ensures EndScan(scan, a + b) == EndScan(EndScan(scan, a), b)
    decreases a
  {
    if a == [] {
      assert a + b == b;
    } else {
      assert (a + b)[0] == a[0] && (a + b)[1..] == a[1..] + b;
      WidthOfBoth(Plain, a[1..], b);
      WidthOfBoth(Escaped, a[1..], b);
      WidthOfBoth(Paired, a[1..], b);
    }
  }

  /** Text swallowed by an unfinished escape sequence never counts for more than it would on its own. */
  lemma {:induction false} EscapedIsNarrower(s: Text)
    ensures Width(Escaped, s) <= Width(Plain, s)
  {
    if s != [] {
      EscapedIsNarrower(s[1..]);
      if IsHighSurrogate(s[0]) && |s| > 1 {
        EscapedIsNarrower(s[1..][1..]);
      }
    }
  }

  /** A space and a word take a column more than the word, or fewer after a text whose scan does not end plainly. */
  lemma WidthAfterSpace(scan: Scan, b: Text)
    ensures Width(scan, [SPACE] + b) <= 1 + VisibleWidth(b)
    ensures Width(scan, [SPACE] + b) == 1 + VisibleWidth(b) <==> scan == Plain
    ensures EndScan(Plain, [SPACE] + b) == EndScan(Plain, b)
  {
    assert ([SPACE] + b)[1..] == b;
    EscapedIsNarrower(b);
  }

  // ---- Lines ---------------------------------------------------------------------------------------------------

  /** Words or lines put one after the other with a separator between them. */
  function Joined(words: seq<Text>): Text {
    if words == [] then [] else if |words| == 1 then words[0]
    else Joined(words[..|words| - 1]) + [0x20] + words[|words| - 1]
  }

  /** The columns the words from `a` up to `b` take on one line. */
  function Span(words: seq<Text>, a: nat, b: nat): nat
    requires a < b <= |words|
    decreases b
  {
    if b == a + 1 then VisibleWidth(words[a]) else Span(words, a, b - 1) + 1 + VisibleWidth(words[b - 1])
  }

  lemma {:induction false} SpanShrinks(words: seq<Text>, a: nat, b: nat, e: nat)
    requires a <= b < e <= |words|
    ensures Span(words, b, e) <= Span(words, a, e)
    decreases e
  {
    if b + 1 < e {
      SpanShrinks(words, a, b, e - 1);
    }
  }

  lemma {:induction false} SpanGrows(words: seq<Text>, a: nat, b: nat, e: nat)
    requires a < b <= e <= |words|
    ensures Span(words, a, b) <= Span(words, a, e)
    decreases e
  {
    if b < e {
      SpanGrows(words, a, b, e - 1);
    }
  }

  /** The scan of every word from `a` up to `b` ends plainly: no escape sequence or character is cut off. */
  predicate EndPlainly(words: seq<Text>, a: nat, b: nat)
    requires b <= |words|
  {
    forall i :: a <= i < b ==> EndScan(Plain, words[i]) == Plain
  }

  lemma {:induction false} PlainLineEnds(words: seq<Text>, a: nat, b: nat)
    requires a < b <= |words| && EndPlainly(words, a, b - 1)
    ensures EndScan(Plain, Joined(words[a..b])) == EndScan(Plain, words[b - 1])
    decreases b
  {
    if b > a + 1 {
      PlainLineEnds(words, a, b - 1);
      LineGrows(words, a, b);
      WidthAfterSpace(Plain, words[b - 1]);
    } else {
      assert words[a..b] == [words[a]];
    }
  }

  lemma LineGrows(words: seq<Text>, a: nat, b: nat)
    requires a + 1 < b <= |words|
    ensures var line, last := Joined(words[a..b - 1]), [SPACE] + words[b - 1];
            && Joined(words[a..b]) == line + last
            && VisibleWidth(Joined(words[a..b])) == VisibleWidth(line) + Width(EndScan(Plain, line), last)
            && EndScan(Plain, Joined(words[a..b])) == EndScan(EndScan(Plain, line), last)
  {
    assert words[a..b][..b - a - 1] == words[a..b - 1];
    var line, last := Joined(words[a..b - 1]), [SPACE] + words[b - 1];
    assert line + [SPACE] + words[b - 1] == line + last;
    WidthOfBoth(Plain, line, last);
  }

  /** The text of a line is never wider than the sum the code keeps for it, and as wide iff its words end plainly. */
  lemma {:induction false} LineFits(words: seq<Text>, a: nat, b: nat)
    requires a < b <= |words|
    ensures VisibleWidth(Joined(words[a..b])) <= Span(words, a, b)
    ensures VisibleWidth(Joined(words[a..b])) == Span(words, a, b) <==> EndPlainly(words, a, b - 1)
    decreases b
  {
    if b > a + 1 {
      LineFits(words, a, b - 1);
      LineGrows(words, a, b);
      WidthAfterSpace(EndScan(Plain, Joined(words[a..b - 1])), words[b - 1]);
      if EndPlainly(words, a, b - 2) {
        PlainLineEnds(words, a, b - 1);
      }
    } else {
      assert words[a..b] == [words[a]];
    }
  }

  /** A line may hold one word of any width, or several that stay under the limit. */
  predicate Feasible(words: seq<Text>, a: nat, b: nat, width: int)
    requires a < b <= |words|
  {
    b == a + 1 || Span(words, a, b) < width
  }

  /** A way to cut the words from `start` on into lines: line i holds the words from cuts[i] up to cuts[i + 1]. */
  predicate Cutting(words: seq<Text>, start: nat, cuts: seq<nat>, width: int) {
    && |cuts| >= 1 && cuts[0] == start && cuts[|cuts| - 1] == |words|
    && (forall i :: 0 <= i < |cuts| ==> cuts[i] <= |words|)
    && (forall i :: 0 <= i < |cuts| - 1 ==> cuts[i] < cuts[i + 1] && Feasible(words, cuts[i], cuts[i + 1], width))
  }

  /** The end of a line that starts at `a`, holds the words up to `b` so far and takes words while they fit. */
  function LineEnd(words: seq<Text>, a: nat, b: nat, width: int): (e: nat)
    requires a < b <= |words|
    ensures b <= e <= |words|
    decreases |words| - b
  {
    if b == |words| || Span(words, a, b) + 1 + VisibleWidth(words[b]) >= width then b
    else LineEnd(words, a, b + 1, width)
  }

  function GreedyCuts(words: seq<Text>, a: nat, width: int): seq<nat>
    requires a <= |words|
    decreases |words| - a
  {
    if a == |words| then [a] else [a] + GreedyCuts(words, LineEnd(words, a, a + 1, width), width)
  }

  lemma {:induction false} LineEndFeasible(words: seq<Text>, a: nat, b: nat, width: int)
    requires a < b <= |words| && Feasible(words, a, b, width)
    ensures var e := LineEnd(words, a, b, width);
            Feasible(words, a, e, width) && (e < |words| ==> Span(words, a, e + 1) >= width)
    decreases |words| - b
  {
    if LineEnd(words, a, b, width) != b {
      LineEndFeasible(words, a, b + 1, width);
    }
  }

  lemma {:induction false} GreedyIsCutting(words: seq<Text>, a: nat, width: int)
    requires a <= |words|
    ensures Cutting(words, a, GreedyCuts(words, a, width), width)
    decreases |words| - a
  {
    if a < |words| {
      var e := LineEnd(words, a, a + 1, width);
      LineEndFeasible(words, a, a + 1, width);
      GreedyIsCutting(words, e, width);
      CuttingCons(words, a, e, GreedyCuts(words, e, width), width);
    }
  }

  lemma CuttingCons(words: seq<Text>, a: nat, e: nat, rest: seq<nat>, width: int)
    requires a < e <= |words| && Feasible(words, a, e, width) && Cutting(words, e, rest, width)
    ensures Cutting(words, a, [a] + rest, width)
  {
    var cuts := [a] + rest;
    assert forall i :: 0 < i < |cuts| ==> cuts[i] == rest[i - 1];
  }

  /** Greedy stays ahead: starting no earlier than another cutting, it needs no more lines. */
  lemma {:induction false} GreedyStaysAhead(words: seq<Text>, a: nat, start: nat, cuts: seq<nat>, width: int)
    requires start <= a <= |words| && Cutting(words, start, cuts, width)
    ensures |GreedyCuts(words, a, width)| <= |cuts|
    decreases |cuts|
  {
    if a < |words| {
      var next := cuts[1];
      var rest := cuts[1..];
      assert cuts[0] < cuts[1] && Feasible(words, cuts[0], cuts[1], width);
      assert Cutting(words, next, rest, width) by {
        assert forall i :: 0 <= i < |rest| ==> rest[i] == cuts[i + 1];
      }
      if next <= a {
        GreedyStaysAhead(words, a, next, rest, width);
      } else {
        var e := LineEnd(words, a, a + 1, width);
        LineEndFeasible(words, a, a + 1, width);
        if e < next {
          SpanGrows(words, a, e + 1, next);
          SpanShrinks(words, start, a, next);
        }
        GreedyStaysAhead(words, e, next, rest, width);
      }
    }
  }

  // ---- Wrapping ------------------------------------------------------------------------------------------------

  /** The loop of `wrap`, from a started line on. */
  function WrapFrom(line: Text, lineWidth: nat, words: seq<Text>, width: int): seq<Text>
    decreases words
  {
    if words == [] then if line == [] then [] else [line]
    else
      var w := VisibleWidth(words[0]);
      if lineWidth != 0 && lineWidth + 1 + w >= width then [line] + WrapFrom(words[0], w, words[1..], width)
      else if lineWidth != 0 then WrapFrom(line + [SPACE] + words[0], lineWidth + 1 + w, words[1..], width)
      else WrapFrom(line + words[0], lineWidth + w, words[1..], width)
  }

  method Wrap(words: seq<Text>, width: int) returns (lines: seq<Text>)
    ensures lines == WrapFrom([], 0, words, width)
  {
    var lineWidth: nat := 0;
    var line: Text := [];
    lines := [];
    for i := 0 to |words|
      invariant lines + WrapFrom(line, lineWidth, words[i..], width) == WrapFrom([], 0, words, width)
    {
      var word := words[i];
      assert words[i..][0] == word && words[i..][1..] == words[i + 1..];
      var wordWidth := VisibleWidthOf(word);
      if lineWidth != 0 && lineWidth + 1 + wordWidth >= width {
        lines := lines + [line];
        line := word;
        lineWidth := wordWidth;
        continue;
      }
      if lineWidth != 0 {
        line := line + [SPACE];
        lineWidth := lineWidth + 1;
      }
      line := line + word;
      lineWidth := lineWidth + wordWidth;
    }
    assert words[|words|..] == [];
    if line != [] {
      lines := lines + [line];
    }
  }

  /** Whenever another word follows, the line so far takes up at least one column. */
  predicate Steady(lineWidth: nat, words: seq<Text>, width: int)
    decreases words
  {
    words == [] ||
    (lineWidth > 0 &&
     var w := VisibleWidth(words[0]);
     Steady(if lineWidth + 1 + w >= width then w else lineWidth + 1 + w, words[1..], width))
  }

  predicate Separated(words: seq<Text>, width: int) {
    words == [] || Steady(VisibleWidth(words[0]), words[1..], width)
  }

  predicate NonEmpty(words: seq<Text>) { forall i :: 0 <= i < |words| ==> words[i] != [] }

  /** Every word but the last takes a column. */
  predicate ColumnsBeforeLast(words: seq<Text>) {
    forall i :: 0 <= i < |words| - 1 ==> VisibleWidth(words[i]) > 0
  }

  lemma {:induction false} VisibleWordsAreSteady(lineWidth: nat, words: seq<Text>, width: int)
    requires (words != [] ==> lineWidth > 0) && ColumnsBeforeLast(words)
    ensures Steady(lineWidth, words, width)
    decreases words
  {
    if words != [] {
      var w, rest := VisibleWidth(words[0]), words[1..];
      assert ColumnsBeforeLast(rest) by {
        assert forall i :: 0 <= i < |rest| ==> rest[i] == words[i + 1];
      }
      VisibleWordsAreSteady(if lineWidth + 1 + w >= width then w else lineWidth + 1 + w, rest, width);
    }
  }

  /** At width 0 every word starts a line, so one without a column shows up. */
  lemma {:induction false} SteadyWordsAreVisible(lineWidth: nat, words: seq<Text>)
    requires Steady(lineWidth, words, 0)
    ensures ColumnsBeforeLast(words) && (words != [] ==> lineWidth > 0)
    decreases words
  {
    if words != [] {
      var rest := words[1..];
      SteadyWordsAreVisible(VisibleWidth(words[0]), rest);
      forall i | 0 <= i < |words| - 1 ensures VisibleWidth(words[i]) > 0 {
        if i > 0 {
          assert rest[i - 1] == words[i];
        }
      }
    }
  }

  lemma SeparatedWordsAreVisible(words: seq<Text>)
    requires Separated(words, 0)
    ensures ColumnsBeforeLast(words)
  {
    if words != [] {
      var rest := words[1..];
      SteadyWordsAreVisible(VisibleWidth(words[0]), rest);
      assert forall i :: 0 < i < |words| ==> words[i] == rest[i - 1];
    }
  }

  lemma VisibleWordsAreSeparated(words: seq<Text>, width: int)
    requires ColumnsBeforeLast(words)
    ensures Separated(words, width)
  {
    if words != [] {
      var rest := words[1..];
      assert forall i :: 0 <= i < |rest| ==> rest[i] == words[i + 1];
      VisibleWordsAreSteady(VisibleWidth(words[0]), rest, width);
    }
  }

  /** Text keeps its words apart at every width if and only if every word but the last takes a column. */
  lemma AlwaysSeparatedIff(words: seq<Text>)
    ensures (forall width: int :: Separated(words, width)) <==> ColumnsBeforeLast(words)
  {
    if ColumnsBeforeLast(words) {
      forall width: int ensures Separated(words, width) {
        VisibleWordsAreSeparated(words, width);
      }
    } else if Separated(words, 0) {
      SeparatedWordsAreVisible(words);
    }
  }

  // ---- The wrapped text is the greedy cutting ------------------------------------------------------------------

  predicate LineAt(words: seq<Text>, cuts: seq<nat>, i: nat, line: Text) {
    i + 1 < |cuts| && cuts[i] < cuts[i + 1] <= |words| && line == Joined(words[cuts[i]..cuts[i + 1]])
  }

  predicate LinesOf(words: seq<Text>, cuts: seq<nat>, lines: seq<Text>) {
    |lines| + 1 == |cuts| && forall i :: 0 <= i < |lines| ==> LineAt(words, cuts, i, lines[i])
  }

  function GreedyLines(words: seq<Text>, a: nat, width: int): seq<Text>
    requires a <= |words|
    decreases |words| - a
  {
    if a == |words| then []
    else
      var e := LineEnd(words, a, a + 1, width);
      [Joined(words[a..e])] + GreedyLines(words, e, width)
  }

  lemma {:induction false} GreedyLinesOf(words: seq<Text>, a: nat, width: int)
    requires a <= |words|
    ensures LinesOf(words, GreedyCuts(words, a, width), GreedyLines(words, a, width))
    decreases |words| - a
  {
    if a < |words| {
      var e := LineEnd(words, a, a + 1, width);
      GreedyLinesOf(words, e, width);
      var cuts, lines := GreedyCuts(words, a, width), GreedyLines(words, a, width);
      var cuts', lines' := GreedyCuts(words, e, width), GreedyLines(words, e, width);
      assert cuts'[0] == e;
      forall i | 0 <= i < |lines| ensures LineAt(words, cuts, i, lines[i]) {
        if i > 0 {
          assert LineAt(words, cuts', i - 1, lines'[i - 1]);
        }
      }
    }
  }

  /** How a line with a visible column goes on at word `k`. */
  lemma WrapStep(line: Text, lineWidth: nat, words: seq<Text>, k: nat, width: int)
    requires k < |words| && Steady(lineWidth, words[k..], width)
    ensures var w, rest := VisibleWidth(words[k]), words[k + 1..];
            WrapFrom(line, lineWidth, words[k..], width) ==
            if lineWidth + 1 + w >= width then [line] + WrapFrom(words[k], w, rest, width)
            else WrapFrom(line + [SPACE] + words[k], lineWidth + 1 + w, rest, width)
    ensures var w := VisibleWidth(words[k]);
            Steady(if lineWidth + 1 + w >= width then w else lineWidth + 1 + w, words[k + 1..], width)
  {
    assert words[k..][0] == words[k] && words[k..][1..] == words[k + 1..];
  }

  /** Wrapping on from a line that holds the words from `a` to `k` gives the greedy lines. */
  predicate Greedy(words: seq<Text>, a: nat, k: nat, width: int)
    requires a < k <= |words|
  {
    var e := LineEnd(words, a, k, width);
    WrapFrom(Joined(words[a..k]), Span(words, a, k), words[k..], width) ==
    [Joined(words[a..e])] + GreedyLines(words, e, width)
  }

  lemma BreakIsGreedy(words: seq<Text>, a: nat, k: nat, width: int)
    requires a < k < |words| && Steady(Span(words, a, k), words[k..], width)
    requires LineEnd(words, a, k, width) == k && Span(words, a, k) + 1 + VisibleWidth(words[k]) >= width
    requires Greedy(words, k, k + 1, width)
    ensures Greedy(words, a, k, width)
  {
    WrapStep(Joined(words[a..k]), Span(words, a, k), words, k, width);
    assert words[k..k + 1] == [words[k]];
  }

  lemma ExtensionIsGreedy(words: seq<Text>, a: nat, k: nat, width: int)
    requires a < k < |words| && Steady(Span(words, a, k), words[k..], width)
    requires Span(words, a, k) + 1 + VisibleWidth(words[k]) < width
    requires Greedy(words, a, k + 1, width)
    ensures Greedy(words, a, k, width)
  {
    WrapStep(Joined(words[a..k]), Span(words, a, k), words, k, width);
    JoinOneMore(words, a, k);
  }

  lemma {:induction false} WrapsGreedily(words: seq<Text>, a: nat, k: nat, width: int)
    requires a < k <= |words| && NonEmpty(words) && Steady(Span(words, a, k), words[k..], width)
    ensures Greedy(words, a, k, width)
    decreases |words| - k
  {
    if k == |words| {
      JoinedNotEmpty(words[a..k]);
      assert words[k..] == [];
    } else {
      WrapStep(Joined(words[a..k]), Span(words, a, k), words, k, width);
      if Span(words, a, k) + 1 + VisibleWidth(words[k]) >= width {
        WrapsGreedily(words, k, k + 1, width);
        BreakIsGreedy(words, a, k, width);
      } else {
        WrapsGreedily(words, a, k + 1, width);
        ExtensionIsGreedy(words, a, k, width);
      }
    }
  }

  lemma JoinOneMore(words: seq<Text>, a: nat, k: nat)
    requires a < k < |words|
    ensures Joined(words[a..k + 1]) == Joined(words[a..k]) + [SPACE] + words[k]
  {
    assert words[a..k + 1][..k - a] == words[a..k];
  }

  lemma {:induction false} JoinedNotEmpty(words: seq<Text>)
    requires words != [] && NonEmpty(words)
    ensures Joined(words) != []
  {
  }

  /**
   When every line keeps a visible column before the next word comes, the lines hold the words in order, every line
   of several words stays under the limit, and no cutting into such lines has fewer of them.
   */
  lemma WrapIsOptimal(words: seq<Text>, width: int)
    requires words != [] && NonEmpty(words) && Separated(words, width)
    ensures var lines := WrapFrom([], 0, words, width);
            var cuts := GreedyCuts(words, 0, width);
            && Cutting(words, 0, cuts, width) && LinesOf(words, cuts, lines)
            && (forall i :: 0 <= i < |lines| ==> cuts[i + 1] == cuts[i] + 1 || VisibleWidth(lines[i]) < width)
            && (forall other :: Cutting(words, 0, other, width) ==> |lines| <= |other| - 1)
  {
    var lines := WrapFrom([], 0, words, width);
    var cuts := GreedyCuts(words, 0, width);
    assert [] + words[0] == words[0];
    assert words[0..1] == [words[0]];
    WrapsGreedily(words, 0, 1, width);
    GreedyLinesOf(words, 0, width);
    GreedyIsCutting(words, 0, width);
    forall other | Cutting(words, 0, other, width) ensures |lines| <= |other| - 1 {
      GreedyStaysAhead(words, 0, 0, other, width);
    }
    forall i | 0 <= i < |lines| ensures cuts[i + 1] == cuts[i] + 1 || VisibleWidth(lines[i]) < width {
      assert LineAt(words, cuts, i, lines[i]) && Feasible(words, cuts[i], cuts[i + 1], width);
      LineFits(words, cuts[i], cuts[i + 1]);
    }
  }

  // ---- Lines measured by what is visible -----------------------------------------------------------------------

  predicate VisiblyFits(words: seq<Text>, a: nat, b: nat, width: int)
    requires a < b <= |words|
  {
    b == a + 1 || VisibleWidth(Joined(words[a..b])) < width
  }

  /** A cutting into lines of one word or of a visible width under the limit. */
  predicate VisibleCutting(words: seq<Text>, cuts: seq<nat>, width: int) {
    && |cuts| >= 1 && cuts[0] == 0 && cuts[|cuts| - 1] == |words|
    && (forall i :: 0 <= i < |cuts| ==> cuts[i] <= |words|)
    && (forall i :: 0 <= i < |cuts| - 1 ==> cuts[i] < cuts[i + 1] && VisiblyFits(words, cuts[i], cuts[i + 1], width))
  }

  /** No cutting into lines that visibly fit has fewer lines than the wrapped text. */
  ghost predicate VisiblyOptimal(words: seq<Text>, width: int) {
    forall other :: VisibleCutting(words, other, width) ==> |WrapFrom([], 0, words, width)| <= |other| - 1
  }

  lemma VisibleIsCounted(words: seq<Text>, cuts: seq<nat>, width: int)
    requires words != [] && EndPlainly(words, 0, |words| - 1) && VisibleCutting(words, cuts, width)
    ensures Cutting(words, 0, cuts, width)
  {
    forall i | 0 <= i < |cuts| - 1 ensures cuts[i] < cuts[i + 1] && Feasible(words, cuts[i], cuts[i + 1], width) {
      assert VisiblyFits(words, cuts[i], cuts[i + 1], width);
      LineFits(words, cuts[i], cuts[i + 1]);
    }
  }

  lemma SeveralLines(words: seq<Text>, cuts: seq<nat>, width: int)
    requires |words| > 1 && Cutting(words, 0, cuts, width) && Span(words, 0, |words|) >= width
    ensures |cuts| > 2
  {
  }

  /** At a width the whole text visibly stays under but is counted to exceed, the text is still broken. */
  lemma CutOffBreaks(words: seq<Text>, width: int)
    requires words != [] && NonEmpty(words) && Separated(words, width)
    requires !EndPlainly(words, 0, |words| - 1) && width == VisibleWidth(Joined(words)) + 1
    ensures !VisiblyOptimal(words, width)
  {
    var n := |words|;
    assert words[0..n] == words;
    LineFits(words, 0, n);
    WrapIsOptimal(words, width);
    var lines, cuts := WrapFrom([], 0, words, width), GreedyCuts(words, 0, width);
    SeveralLines(words, cuts, width);
    assert VisiblyFits(words, 0, n, width);
    OneVisibleLine(words, [0, n], width);
  }

  lemma OneVisibleLine(words: seq<Text>, cuts: seq<nat>, width: int)
    requires words != [] && |cuts| == 2 && cuts[0] == 0 && cuts[1] == |words|
    requires VisiblyFits(words, cuts[0], cuts[1], width)
    ensures VisibleCutting(words, cuts, width)
  {
  }

  /**
   Text whose words before the last each take a column is wrapped into as few visibly fitting lines as possible at every
   width if and only if the scan of each of these words ends plainly.
   */
  lemma VisiblyOptimalIff(words: seq<Text>)
    requires words != [] && NonEmpty(words) && ColumnsBeforeLast(words)
    ensures (forall width: int :: VisiblyOptimal(words, width)) <==> EndPlainly(words, 0, |words| - 1)
  {
    AlwaysSeparatedIff(words);
    if EndPlainly(words, 0, |words| - 1) {
      forall width: int ensures VisiblyOptimal(words, width) {
        WrapIsOptimal(words, width);
        forall other | VisibleCutting(words, other, width) ensures |WrapFrom([], 0, words, width)| <= |other| - 1 {
          VisibleIsCounted(words, other, width);
        }
      }
    } else {
      CutOffBreaks(words, VisibleWidth(Joined(words)) + 1);
    }
  }

  const LETTER: Unit := 0x61

  lemma CutOffWord(first: Text)
    requires first == [LETTER, ESCAPE]
    ensures VisibleWidth(first) == 1 && EndScan(Plain, first) == Escaped
  {
    assert first[1..] == [ESCAPE] && [ESCAPE][1..] == [];
    assert Width(Plain, [ESCAPE]) == Width(Escaped, []);
    assert EndScan(Plain, first) == EndScan(Plain, [ESCAPE]) == EndScan(Escaped, []);
  }

  lemma ClosingWord(second: Text)
    requires second == [M]
    ensures VisibleWidth(second) == 1 && Width(Escaped, [SPACE] + second) == 1
  {
    assert second[1..] == [] && ([SPACE] + second)[1..] == second;
    assert Width(Plain, second) == 1 + Width(Plain, []);
    assert Width(Escaped, second) == 1 + Width(Plain, []);
  }

  /** Two words that take two columns on one line but are wrapped onto two lines at width 3. */
  lemma CutOffEscapeCostsALine(first: Text, second: Text)
    requires first == [LETTER, ESCAPE] && second == [M]
    ensures VisibleCutting([first, second], [0, 2], 3) && |WrapFrom([], 0, [first, second], 3)| == 2
  {
    var words := [first, second];
    CutOffWord(first);
    ClosingWord(second);
    assert words[0..2] == words && words[0..1] == [first];
    LineGrows(words, 0, 2);
    assert VisiblyFits(words, 0, 2, 3);
    assert words[1..] == [second] && [second][1..] == [] && [] + first == first;
    assert WrapFrom(first, 1, [second], 3) == [first] + WrapFrom(second, 1, [], 3);
  }

  // ---- When the words survive ----------------------------------------------------------------------------------

  function Tail(words: seq<Text>): Text {
    if words == [] then [] else [SPACE] + words[0] + Tail(words[1..])
  }

  lemma {:induction false} JoinedCons(first: Text, rest: seq<Text>)
    ensures Joined([first] + rest) == first + Tail(rest)
    decreases |rest|
  {
    if rest != [] {
      var all := [first] + rest;
      var before, last := rest[..|rest| - 1], rest[|rest| - 1];
      assert all[..|all| - 1] == [first] + before;
      JoinedCons(first, before);
      TailSnoc(before, last);
      assert rest == before + [last];
    } else {
      assert [first] + rest == [first];
    }
  }

  lemma {:induction false} TailSnoc(words: seq<Text>, last: Text)
    ensures Tail(words + [last]) == Tail(words) + [SPACE] + last
  {
    if words == [] {
      assert words + [last] == [last];
      assert [last][1..] == [];
    } else {
      assert (words + [last])[1..] == words[1..] + [last];
      TailSnoc(words[1..], last);
    }
  }

  lemma JoinedTail(words: seq<Text>)
    requires words != []
    ensures Joined(words) == words[0] + Tail(words[1..])
  {
    assert words == [words[0]] + words[1..];
    JoinedCons(words[0], words[1..]);
  }

  lemma JoinedFirst(first: Text, rest: seq<Text>)
    requires rest != []
    ensures Joined([first] + rest) == first + [SPACE] + Joined(rest)
  {
    JoinedCons(first, rest);
    JoinedTail(rest);
    Regroup(first, [SPACE], rest[0], Tail(rest[1..]));
  }

  lemma Regroup(a: Text, b: Text, c: Text, d: Text)
    ensures a + (b + c + d) == a + b + (c + d)
  {
  }

  /** What the wrapped text is when read with spaces for line breaks: the words joined, or less if two were glued. */
  predicate KeptOrGlued(out: Text, all: Text, steady: bool) { if steady then out == all else |out| < |all| }

  lemma {:induction false} WrapKeepsOrGlues(line: Text, lineWidth: nat, words: seq<Text>, width: int)
    requires line != [] && NonEmpty(words)
    ensures KeptOrGlued(Joined(WrapFrom(line, lineWidth, words, width)), line + Tail(words),
                        Steady(lineWidth, words, width))
    decreases words
  {
    if words != [] {
      var w, rest := VisibleWidth(words[0]), words[1..];
      if lineWidth == 0 {
        WrapKeepsOrGlues(line + words[0], w, rest, width);
        assert |line + words[0] + Tail(rest)| < |line + Tail(words)|;
      } else if lineWidth + 1 + w >= width {
        WrapKeepsOrGlues(words[0], w, rest, width);
        WrapNotEmpty(words[0], w, rest, width);
        JoinedFirst(line, WrapFrom(words[0], w, rest, width));
        assert line + [SPACE] + (words[0] + Tail(rest)) == line + Tail(words);
      } else {
        WrapKeepsOrGlues(line + [SPACE] + words[0], lineWidth + 1 + w, rest, width);
        assert line + [SPACE] + words[0] + Tail(rest) == line + Tail(words);
      }
    }
  }

  lemma {:induction false} WrapNotEmpty(line: Text, lineWidth: nat, words: seq<Text>, width: int)
    requires line != [] && NonEmpty(words)
    ensures WrapFrom(line, lineWidth, words, width) != []
    decreases words
  {
    if words != [] {
      var w := VisibleWidth(words[0]);
      WrapNotEmpty(line + [SPACE] + words[0], lineWidth + 1 + w, words[1..], width);
      WrapNotEmpty(line + words[0], lineWidth + w, words[1..], width);
    }
  }

  /** Every word survives as a word of its own exactly when the words are separated. */
  lemma WordsSurviveIff(words: seq<Text>, width: int)
    requires words != [] && NonEmpty(words)
    ensures Joined(WrapFrom([], 0, words, width)) == Joined(words) <==> Separated(words, width)
  {
    assert [] + words[0] == words[0];
    WrapKeepsOrGlues(words[0], VisibleWidth(words[0]), words[1..], width);
    JoinedCons(words[0], words[1..]);
    assert words == [words[0]] + words[1..];
  }

  /** A word that is an unfinished escape sequence takes no column, and the word after it is glued to it. */
  lemma UnfinishedEscapeGlues(width: int)
    ensures !Separated([[ESCAPE], [M]], width)
    ensures Joined(WrapFrom([], 0, [[ESCAPE], [M]], width)) != Joined([[ESCAPE], [M]])
  {
    var words: seq<Text> := [[ESCAPE], [M]];
    assert words[0][1..] == [];
    assert Width(Escaped, words[0][1..]) == 0;
    WordsSurviveIff(words, width);
  }
}
