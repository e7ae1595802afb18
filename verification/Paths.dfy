/** Splitting and joining paths at "/", as the source does with `split("/")` and `join("/")`. */
module Paths {
  function Split(s: string): (segments: seq<string>)
    ensures |segments| >= 1
  {
    if s == "" then [""]
    else if s[0] == '/' then [""] + Split(s[1..])
    else
      var rest := Split(s[1..]);
      [[s[0]] + rest[0]] + rest[1..]
  }

  function Join(segments: seq<string>): string {
    if segments == [] then ""
    else if |segments| == 1 then segments[0]
    else segments[0] + "/" + Join(segments[1..])
  }

  predicate Plain(segment: string) { '/' !in segment }

  predicate AllPlain(segments: seq<string>) { forall i :: 0 <= i < |segments| ==> Plain(segments[i]) }

  lemma {:induction false} SplitIsPlain(s: string)
    ensures AllPlain(Split(s))
  {
    if s != "" {
      SplitIsPlain(s[1..]);
    }
  }

  lemma {:induction false} JoinSplit(s: string)
    ensures Join(Split(s)) == s
  {
    if s != "" {
      JoinSplit(s[1..]);
      var rest := Split(s[1..]);
      if s[0] == '/' {
        assert Split(s)[1..] == rest;
        assert s == "/" + s[1..];
      } else {
        assert Split(s)[1..] == rest[1..];
        if |rest| > 1 {
          assert Join(Split(s)) == ([s[0]] + rest[0]) + "/" + Join(rest[1..]);
        }
      }
    }
  }

  lemma {:induction false} SplitPlain(segment: string)
    requires Plain(segment)
    ensures Split(segment) == [segment]
  {
    if segment != "" {
      assert segment[0] in segment;
      SplitPlain(segment[1..]);
      assert segment == [segment[0]] + segment[1..];
    }
  }

  /** The segments of a path after one more character in front. */
  function Prepend(c: char, segments: seq<string>): seq<string>
    requires |segments| >= 1
  {
    if c == '/' then [""] + segments else [[c] + segments[0]] + segments[1..]
  }

  lemma SplitCons(c: char, s: string)
    ensures Split([c] + s) == Prepend(c, Split(s))
  {
    assert ([c] + s)[1..] == s;
  }

  lemma PrependAppend(c: char, x: seq<string>, y: seq<string>)
    requires |x| >= 1
    ensures Prepend(c, x + y) == Prepend(c, x) + y
  {
    assert (x + y)[1..] == x[1..] + y;
  }

  /** Splitting a joined pair of paths is splitting each. */
  lemma {:induction false} SplitAppend(a: string, b: string)
    ensures Split(a + "/" + b) == Split(a) + Split(b)
  {
    if a == "" {
      assert a + "/" + b == ['/'] + b;
      SplitCons('/', b);
    } else {
      var c, rest := a[0], a[1..];
      assert a == [c] + rest && a + "/" + b == [c] + (rest + "/" + b);
      SplitAppend(rest, b);
      SplitCons(c, rest);
      SplitCons(c, rest + "/" + b);
      PrependAppend(c, Split(rest), Split(b));
    }
  }

  lemma {:induction false} SplitJoin(segments: seq<string>)
    requires segments != [] && AllPlain(segments)
    ensures Split(Join(segments)) == segments
  {
    assert Plain(segments[0]);
    SplitPlain(segments[0]);
    if |segments| > 1 {
      SplitAppend(segments[0], Join(segments[1..]));
      SplitJoin(segments[1..]);
    }
  }

  // ---- Lexical normalisation -----------------------------------------------------------------------------------

  /** One more segment after names that are already normalised. */
  function Extend(names: seq<string>, segment: string): seq<string> {
    if segment == "." || segment == "" then names
    else if segment == ".." then if names == [] then [] else names[..|names| - 1]
    else names + [segment]
  }

  /** The names left when `.` and empty segments are dropped and each `..` cancels the name before it, if any. */
  function Normalise(segments: seq<string>): seq<string> {
    if segments == [] then [] else Extend(Normalise(segments[..|segments| - 1]), segments[|segments| - 1])
  }

  function ExtendAll(names: seq<string>, segments: seq<string>): seq<string>
    decreases segments
  {
    if segments == [] then names else ExtendAll(Extend(names, segments[0]), segments[1..])
  }

  lemma {:induction false} NormaliseAppend(a: seq<string>, b: seq<string>)
    ensures Normalise(a + b) == ExtendAll(Normalise(a), b)
    decreases b
  {
    if b == [] {
      assert a + b == a;
    } else {
      var a' := a + [b[0]];
      assert a + b == a' + b[1..];
      assert a'[..|a|] == a;
      NormaliseAppend(a', b[1..]);
    }
  }
}
