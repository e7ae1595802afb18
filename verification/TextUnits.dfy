/** What takes a column and what becomes of the units of a text (packages/create/src/formatting.ts). */
module TextUnits {
  import opened WordWrap

  // ---- Columns -------------------------------------------------------------------------------------------------

  /** What takes one column: a unit, two units that start with a high surrogate, or a complete escape sequence. */
  datatype Token = Single(u: Unit) | Pair(high: Unit, second: Unit) | Sequence(body: Text)
  {
    function Text(): Text {
      match this
      case Single(u) => [u]
      case Pair(high, second) => [high, second]
      case Sequence(body) => [0x1b] + (body + [0x6d])
    }

    predicate Valid() {
      match this
      case Single(u) => u != 0x1b && !(0xd800 <= u < 0xdc00)
      case Pair(high, _) => 0xd800 <= high < 0xdc00
      case Sequence(body) => 0x6d !in body
    }
  }

  predicate AllValid(tokens: seq<Token>) { forall i :: 0 <= i < |tokens| ==> tokens[i].Valid() }

  function TextOf(tokens: seq<Token>): Text { if tokens == [] then [] else tokens[0].Text() + TextOf(tokens[1..]) }

  /** What a text may end in after its last token: nothing, a high surrogate, or an escape sequence that is cut off. */
  predicate IsRest(rest: Text) {
    || rest == []
    || (|rest| == 1 && 0xd800 <= rest[0] < 0xdc00)
    || (rest[0] == 0x1b && 0x6d !in rest[1..])
  }

  function RestWidth(rest: Text): nat { if rest == [] || rest[0] == 0x1b then 0 else 1 }

  lemma {:induction false} EscapedRun(body: Text)
    requires 0x6d !in body
    ensures Width(Escaped, body) == 0 && EndScan(Escaped, body) == Escaped
  {
    if body != [] {
      assert body[0] != 0x6d;
      EscapedRun(body[1..]);
    }
  }

  lemma SequenceWidth(body: Text)
    requires 0x6d !in body
    ensures Width(Escaped, body + [0x6d]) == 1 && EndScan(Escaped, body + [0x6d]) == Plain
  {
    EscapedRun(body);
    WidthOfBoth(Escaped, body, [0x6d]);
    var last: Text := [0x6d];
    assert last[1..] == [];
    assert Width(Escaped, last) == 1 + Width(Plain, last[1..]) && EndScan(Escaped, last) == EndScan(Plain, last[1..]);
  }

  lemma TokenWidth(t: Token)
    requires t.Valid()
    ensures Width(Plain, t.Text()) == 1 && EndScan(Plain, t.Text()) == Plain
  {
    var s := t.Text();
    match t
    case Single(u) => assert s[1..] == [];
    case Pair(high, second) =>
      assert s[1..] == [second] && s[1..][1..] == [];
      assert Width(Paired, [second]) == Width(Plain, []) && EndScan(Paired, [second]) == EndScan(Plain, []);
    case Sequence(body) =>
      assert s[1..] == body + [0x6d];
      SequenceWidth(body);
  }

  lemma WidthOfRest(rest: Text)
    requires IsRest(rest)
    ensures Width(Plain, rest) == RestWidth(rest)
  {
    if rest != [] {
      if rest[0] == 0x1b {
        EscapedRun(rest[1..]);
      } else {
        assert rest[1..] == [];
      }
    }
  }

  /** The visible width of a text is the number of its tokens, and one more for a high surrogate at its end. */
  lemma {:induction false} WidthCountsTokens(tokens: seq<Token>, rest: Text)
    requires AllValid(tokens) && IsRest(rest)
    ensures VisibleWidth(TextOf(tokens) + rest) == |tokens| + RestWidth(rest)
  {
    if tokens == [] {
      assert TextOf(tokens) + rest == rest;
      WidthOfRest(rest);
    } else {
      var first, left := tokens[0].Text(), TextOf(tokens[1..]);
      WidthCountsTokens(tokens[1..], rest);
      TokenWidth(tokens[0]);
      WidthOfBoth(Plain, first, left + rest);
      assert first + left + rest == first + (left + rest);
    }
  }

  /** Every text is made of tokens in this way. */
  lemma {:induction false} TokensExist(s: Text) returns (tokens: seq<Token>, rest: Text)
    ensures AllValid(tokens) && IsRest(rest) && s == TextOf(tokens) + rest
    decreases |s|
  {
    if IsRest(s) {
      tokens, rest := [], s;
    } else {
      var t := FirstToken(s);
      var n := |t.Text()|;
      var left, end := TokensExist(s[n..]);
      tokens, rest := [t] + left, end;
      assert tokens[1..] == left && s == s[..n] + s[n..];
      assert t.Text() + (TextOf(left) + end) == t.Text() + TextOf(left) + end;
    }
  }

  lemma FirstToken(s: Text) returns (t: Token)
    requires !IsRest(s)
    ensures t.Valid() && |t.Text()| <= |s| && s[..|t.Text()|] == t.Text()
  {
    if s[0] == 0x1b {
      var body := UpTo(s[1..]);
      t := Sequence(body);
      var n := |body| + 2;
      assert s[..n] == [s[0]] + s[1..][..|body| + 1];
    } else if 0xd800 <= s[0] < 0xdc00 {
      t := Pair(s[0], s[1]);
    } else {
      t := Single(s[0]);
    }
  }

  lemma {:induction false} UpTo(s: Text) returns (body: Text)
    requires 0x6d in s
    ensures |body| < |s| && 0x6d !in body && s[..|body| + 1] == body + [0x6d]
  {
    if s[0] == 0x6d {
      body := [];
    } else {
      var rest := UpTo(s[1..]);
      body := [s[0]] + rest;
      assert s[..|body| + 1] == [s[0]] + s[1..][..|rest| + 1];
    }
  }

  // ---- Units ---------------------------------------------------------------------------------------------------

  /** The units of a text other than spaces. */
  function Marks(s: Text): Text { if s == [] then [] else (if s[0] == 0x20 then [] else [s[0]]) + Marks(s[1..]) }

  function MarksOf(lines: seq<Text>): Text { if lines == [] then [] else Marks(lines[0]) + MarksOf(lines[1..]) }

  lemma {:induction false} MarksAppend(a: Text, b: Text)
    ensures Marks(a + b) == Marks(a) + Marks(b)
    decreases |a|
  {
    if a == [] {
      assert a + b == b;
    } else {
      assert (a + b)[0] == a[0] && (a + b)[1..] == a[1..] + b;
      MarksAppend(a[1..], b);
    }
  }

  lemma SpaceHasNoMarks()
    ensures Marks([SPACE]) == []
  {
    assert [SPACE][1..] == [];
  }

  lemma {:induction false} WrapKeepsMarks(line: Text, lineWidth: nat, words: seq<Text>, width: int)
    ensures MarksOf(WrapFrom(line, lineWidth, words, width)) == Marks(line) + MarksOf(words)
    decreases |words|
  {
    if words == [] {
      if line != [] {
        assert [line][1..] == [];
      }
    } else {
      var word, rest, w := words[0], words[1..], VisibleWidth(words[0]);
      var marks := MarksOf(rest);
      MarksAppend(line, word);
      MarksAppend(line + [SPACE], word);
      MarksAppend(line, [SPACE]);
      SpaceHasNoMarks();
      assert Marks(line) + Marks(word) + marks == Marks(line) + (Marks(word) + marks);
      if lineWidth != 0 && lineWidth + 1 + w >= width {
        WrapKeepsMarks(word, w, rest, width);
        var more := WrapFrom(word, w, rest, width);
        assert ([line] + more)[1..] == more;
      } else if lineWidth != 0 {
        WrapKeepsMarks(line + [SPACE] + word, lineWidth + 1 + w, rest, width);
        assert Marks(line) + [] == Marks(line);
      } else {
        WrapKeepsMarks(line + word, lineWidth + w, rest, width);
      }
    }
  }

  /** Whatever the words and the width, the lines hold all that the words hold, in order, and besides only spaces. */
  lemma NothingIsLost(words: seq<Text>, width: int)
    ensures MarksOf(WrapFrom([], 0, words, width)) == MarksOf(words)
  {
    WrapKeepsMarks([], 0, words, width);
  }
}
