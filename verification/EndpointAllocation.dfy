/**
 Endpoint numbers of `--device` arguments (`parseRuntimeArgs` in
 support/chip-testing/src/AllDevicesTestInstance.ts).
 */
module EndpointAllocation {
  import opened Options
  import opened Decimals

  const MAX_ENDPOINT := 0xfffe

  datatype Spec = Spec(kind: string, endpoint: nat)

  datatype Error = InvalidEndpoint(text: string) | DeclaredTwice(endpoint: nat) | OutOfBounds(endpoint: nat)

  datatype Result = Specs(specs: seq<Spec>) | Invalid(error: Error)

  function IndexOf(s: string, c: char): (at: Option<nat>)
    ensures at.Some? ==> at.value < |s| && s[at.value] == c
  {
    if s == "" then None
    else if s[0] == c then Some(0)
    else
      var rest := IndexOf(s[1..], c);
      if rest.Some? then Some(rest.value + 1) else None
  }

  /** A `--device` token: a device kind, with or without the endpoint it must get. */
  datatype Token = Auto(kind: string) | Explicit(kind: string, endpoint: nat) | Malformed(text: string)

  /** The checks of the first pass on one token. */
  function Parse(text: string): Token {
    var at := IndexOf(text, ':');
    if at.None? then Auto(text)
    else
      var number := text[at.value + 1..];
      var ep := ParseInt(number);
      if ep.None? || ep.value < 1 || ep.value > MAX_ENDPOINT || IntText(ep.value) != number then Malformed(text)
      else Explicit(text[..at.value], ep.value)
  }

  lemma {:induction false} IndexOfFirst(s: string, c: char, at: nat)
    requires at < |s| && s[at] == c && forall i :: 0 <= i < at ==> s[i] != c
    ensures IndexOf(s, c) == Some(at)
  {
    if at > 0 {
      IndexOfFirst(s[1..], c, at - 1);
    }
  }

  /** A device kind with the canonical text of an endpoint number is read back as that kind and number. */
  lemma ParseExplicit(kind: string, endpoint: nat)
    requires ':' !in kind && 1 <= endpoint <= MAX_ENDPOINT
    ensures Parse(kind + ":" + IntText(endpoint)) == Explicit(kind, endpoint)
  {
    var text := kind + ":" + IntText(endpoint);
    IndexOfFirst(text, ':', |kind|);
    assert text[|kind| + 1..] == IntText(endpoint) && text[..|kind|] == kind;
    ParseText(endpoint);
  }

  /** Nothing else is read as an explicit endpoint. */
  lemma ParsedExplicit(text: string)
    requires Parse(text).Explicit?
    ensures 1 <= Parse(text).endpoint <= MAX_ENDPOINT
    ensures text == Parse(text).kind + ":" + IntText(Parse(text).endpoint)
  {
    var at := IndexOf(text, ':').value;
    assert text == text[..at] + [text[at]] + text[at + 1..];
  }

  lemma {:induction false} IndexOfNone(s: string, c: char)
    ensures IndexOf(s, c).None? <==> c !in s
    ensures IndexOf(s, c).Some? ==> c !in s[..IndexOf(s, c).value]
  {
    if s != "" {
      IndexOfNone(s[1..], c);
      assert s == [s[0]] + s[1..];
      if IndexOf(s, c).Some? && s[0] != c {
        assert s[..IndexOf(s, c).value] == [s[0]] + s[1..][..IndexOf(s[1..], c).value];
      }
    }
  }

  /** The text is a kind and the number of an endpoint, written as numbers are. */
  predicate Declares(text: string, kind: string, endpoint: nat) {
    ':' !in kind && 1 <= endpoint <= 65_534 && text == kind + ":" + IntText(endpoint)
  }

  /** A token without a colon is a kind; one with a colon declares an endpoint, or is malformed. */
  lemma ParseIff(text: string)
    ensures Parse(text) == Auto(text) <==> ':' !in text
    ensures Parse(text).Auto? ==> Parse(text).kind == text
    ensures forall kind, endpoint :: Parse(text) == Explicit(kind, endpoint) <==> Declares(text, kind, endpoint)
    ensures Parse(text).Malformed? ==> Parse(text).text == text
  {
    IndexOfNone(text, ':');
    forall kind, endpoint ensures Parse(text) == Explicit(kind, endpoint) <==> Declares(text, kind, endpoint) {
      if Declares(text, kind, endpoint) {
        ParseExplicit(kind, endpoint);
      }
      if Parse(text) == Explicit(kind, endpoint) {
        ParsedExplicit(text);
      }
    }
  }

  predicate InRange(tokens: seq<Token>) {
    forall i :: 0 <= i < |tokens| && tokens[i].Explicit? ==> 1 <= tokens[i].endpoint <= MAX_ENDPOINT
  }

  /** The endpoints declared explicitly. */
  function Reserved(tokens: seq<Token>): set<nat> {
    set i | 0 <= i < |tokens| && tokens[i].Explicit? :: tokens[i].endpoint
  }

  /** The error of the first token the first pass refuses. */
  function FirstError(tokens: seq<Token>): Option<Error> {
    if tokens == [] then None
    else
      var before, last := tokens[..|tokens| - 1], tokens[|tokens| - 1];
      var error := FirstError(before);
      if error.Some? then error
      else
        match last
        case Auto(_) => None
        case Malformed(text) => Some(InvalidEndpoint(text))
        case Explicit(_, endpoint) => if endpoint in Reserved(before) then Some(DeclaredTwice(endpoint)) else None
  }

  predicate DeclaredOnce(tokens: seq<Token>) {
    forall i, j :: 0 <= i < j < |tokens| && tokens[i].Explicit? && tokens[j].Explicit? ==>
      tokens[i].endpoint != tokens[j].endpoint
  }

  predicate NoneMalformed(tokens: seq<Token>) { forall i :: 0 <= i < |tokens| ==> !tokens[i].Malformed? }

  lemma ReservedSnoc(before: seq<Token>, last: Token)
    ensures Reserved(before + [last]) == Reserved(before) + (if last.Explicit? then {last.endpoint} else {})
  {
    var tokens := before + [last];
    forall n | n in Reserved(before) ensures n in Reserved(tokens) {
      var i :| 0 <= i < |before| && before[i].Explicit? && before[i].endpoint == n;
      assert tokens[i] == before[i];
    }
    if last.Explicit? {
      assert tokens[|before|].endpoint in Reserved(tokens);
    }
  }

  /** The first pass refuses exactly the token lists with a malformed or a repeated endpoint. */
  lemma {:induction false} RefusedIff(tokens: seq<Token>)
    ensures FirstError(tokens).None? <==> NoneMalformed(tokens) && DeclaredOnce(tokens)
  {
    if tokens != [] {
      var before, last := tokens[..|tokens| - 1], tokens[|tokens| - 1];
      RefusedIff(before);
      assert tokens == before + [last];
      if last.Explicit? && last.endpoint in Reserved(before) {
        var i :| 0 <= i < |before| && before[i].Explicit? && before[i].endpoint == last.endpoint;
        assert tokens[i] == before[i];
      }
      if last.Explicit? && last.endpoint !in Reserved(before) {
        assert forall i :: 0 <= i < |before| && before[i].Explicit? ==> before[i].endpoint != last.endpoint;
      }
    }
  }

  /** The first pass refuses the token: it is malformed, or declares an endpoint an earlier one declares. */
  predicate Offends(tokens: seq<Token>, i: nat)
    requires i < |tokens|
  {
    || tokens[i].Malformed?
    || (tokens[i].Explicit? &&
        exists j :: 0 <= j < i && tokens[j].Explicit? && tokens[j].endpoint == tokens[i].endpoint)
  }

  /** The error names the text of the first token that offends, or the endpoint it declares again. */
  lemma {:induction false} FirstErrorIs(tokens: seq<Token>, i: nat)
    requires i < |tokens| && Offends(tokens, i) && forall j :: 0 <= j < i ==> !Offends(tokens, j)
    ensures FirstError(tokens) ==
            Some(if tokens[i].Malformed? then InvalidEndpoint(tokens[i].text) else DeclaredTwice(tokens[i].endpoint))
  {
    var before := tokens[..i];
    assert tokens[..i + 1][..i] == before;
    assert FirstError(before).None? by {
      RefusedIff(before);
      assert forall j :: 0 <= j < i ==> before[j] == tokens[j] && !Offends(tokens, j);
    }
    if tokens[i].Explicit? {
      var j :| 0 <= j < i && tokens[j].Explicit? && tokens[j].endpoint == tokens[i].endpoint;
      assert before[j] == tokens[j] && tokens[i].endpoint in Reserved(before);
    }
    assert FirstError(tokens[..i + 1]).Some?;
    ErrorStays(tokens, i + 1);
  }

  // ---- Free numbers --------------------------------------------------------------------------------------------

  /** How many of 1, 2, ..., n - 1 are not reserved. */
  function FreeBelow(reserved: set<nat>, n: nat): nat {
    if n <= 1 then 0 else FreeBelow(reserved, n - 1) + (if n - 1 in reserved then 0 else 1)
  }

  /** `n` is the free number with exactly `k` free numbers before it. */
  predicate NthFree(reserved: set<nat>, k: nat, n: nat) {
    n >= 1 && n !in reserved && FreeBelow(reserved, n) == k
  }

  lemma {:induction false} FreeGrows(reserved: set<nat>, a: nat, b: nat)
    requires 1 <= a < b && a !in reserved
    ensures FreeBelow(reserved, a) < FreeBelow(reserved, b)
    decreases b
  {
    if a < b - 1 {
      FreeGrows(reserved, a, b - 1);
    }
  }

  /** There is only one k-th free number. */
  lemma NthFreeUnique(reserved: set<nat>, k: nat, a: nat, b: nat)
    requires NthFree(reserved, k, a) && NthFree(reserved, k, b)
    ensures a == b
  {
    if a < b {
      FreeGrows(reserved, a, b);
    } else if b < a {
      FreeGrows(reserved, b, a);
    }
  }

  /** Among the first n - 1 numbers at most as many are missing from the free ones as are reserved. */
  lemma Pigeonhole(reserved: set<nat>, n: nat)
    requires n >= 1
    ensures n - 1 <= FreeBelow(reserved, n) + |reserved|
  {
    CountReserved(reserved, n);
    var below := set m | m in reserved && 1 <= m < n;
    assert reserved == below + (reserved - below);
  }

  lemma {:induction false} CountReserved(reserved: set<nat>, n: nat)
    requires n >= 1
    ensures |set m | m in reserved && 1 <= m < n| + FreeBelow(reserved, n) == n - 1
  {
    var below := set m | m in reserved && 1 <= m < n;
    if n == 1 {
      assert below == {};
    } else {
      CountReserved(reserved, n - 1);
      var before := set m | m in reserved && 1 <= m < n - 1;
      assert below == if n - 1 in reserved then before + {n - 1} else before;
    }
  }

  lemma {:induction false} ReservedSize(tokens: seq<Token>)
    ensures |Reserved(tokens)| + AutoCount(tokens) <= |tokens|
  {
    if tokens != [] {
      var before, last := tokens[..|tokens| - 1], tokens[|tokens| - 1];
      ReservedSize(before);
      ReservedSnoc(before, last);
      assert tokens == before + [last];
    }
  }

  // ---- The second pass -----------------------------------------------------------------------------------------

  function AutoCount(tokens: seq<Token>): nat {
    if tokens == [] then 0
    else AutoCount(tokens[..|tokens| - 1]) + (if tokens[|tokens| - 1].Auto? then 1 else 0)
  }

  /** What the spec of the i-th token must be: the declared endpoint, or the next free number. */
  predicate SpecFor(tokens: seq<Token>, i: nat, spec: Spec)
    requires i < |tokens|
  {
    match tokens[i]
    case Auto(kind) => spec.kind == kind && NthFree(Reserved(tokens), AutoCount(tokens[..i]), spec.endpoint)
    case Explicit(kind, endpoint) => spec == Spec(kind, endpoint)
    case Malformed(_) => false
  }

  /** The endpoints given out so far: the explicit ones and the free numbers below `top`. */
  ghost predicate UsedUpTo(used: set<nat>, tokens: seq<Token>, i: nat, top: nat)
    requires i <= |tokens|
  {
    forall m: nat :: m in used <==> m in Reserved(tokens[..i]) || (1 <= m < top && m !in Reserved(tokens))
  }

  lemma ReservedPrefix(tokens: seq<Token>, i: nat)
    requires i <= |tokens|
    ensures Reserved(tokens[..i]) <= Reserved(tokens)
  {
    forall n | n in Reserved(tokens[..i]) ensures n in Reserved(tokens) {
      var j :| 0 <= j < i && tokens[..i][j].Explicit? && tokens[..i][j].endpoint == n;
      assert tokens[j].endpoint == n;
    }
  }

  /** An explicit endpoint has not been given out before its own token is reached. */
  lemma ExplicitIsUnused(tokens: seq<Token>, i: nat, used: set<nat>, top: nat)
    requires i < |tokens| && DeclaredOnce(tokens) && tokens[i].Explicit? && UsedUpTo(used, tokens, i, top)
    ensures tokens[i].endpoint in Reserved(tokens) && tokens[i].endpoint !in used
  {
    var n := tokens[i].endpoint;
    assert n in Reserved(tokens);
    assert forall j :: 0 <= j < i && tokens[..i][j].Explicit? ==> tokens[..i][j].endpoint != n;
  }

  lemma UsedByAuto(tokens: seq<Token>, i: nat, used: set<nat>, top: nat, n: nat)
    requires i < |tokens| && tokens[i].Auto? && UsedUpTo(used, tokens, i, top)
    requires 1 <= top <= n && n !in Reserved(tokens) && forall m: nat :: top <= m < n ==> m in Reserved(tokens)
    ensures UsedUpTo(used + {n}, tokens, i + 1, n + 1)
  {
    assert tokens[..i + 1] == tokens[..i] + [tokens[i]];
    ReservedSnoc(tokens[..i], tokens[i]);
  }

  lemma UsedByExplicit(tokens: seq<Token>, i: nat, used: set<nat>, top: nat)
    requires i < |tokens| && tokens[i].Explicit? && UsedUpTo(used, tokens, i, top)
    ensures UsedUpTo(used + {tokens[i].endpoint}, tokens, i + 1, top)
  {
    assert tokens[..i + 1] == tokens[..i] + [tokens[i]];
    ReservedSnoc(tokens[..i], tokens[i]);
  }

  lemma CountSnoc(tokens: seq<Token>, i: nat)
    requires i < |tokens|
    ensures AutoCount(tokens[..i + 1]) == AutoCount(tokens[..i]) + (if tokens[i].Auto? then 1 else 0)
  {
    assert tokens[..i + 1][..i] == tokens[..i];
  }

  lemma {:induction false} AutoCountPrefix(tokens: seq<Token>, i: nat)
    requires i < |tokens| && tokens[i].Auto?
    ensures AutoCount(tokens[..i]) + 1 <= AutoCount(tokens)
    decreases |tokens|
  {
    if i < |tokens| - 1 {
      var before := tokens[..|tokens| - 1];
      assert before[..i] == tokens[..i];
      AutoCountPrefix(before, i);
    }
  }

  /** An automatic number never exceeds the number of tokens. */
  lemma AutoFits(tokens: seq<Token>, i: nat, n: nat)
    requires i < |tokens| && tokens[i].Auto? && NthFree(Reserved(tokens), AutoCount(tokens[..i]), n)
    ensures n <= |tokens|
  {
    Pigeonhole(Reserved(tokens), n);
    AutoCountPrefix(tokens, i);
    ReservedSize(tokens);
  }

  method CollectReserved(tokens: seq<Token>) returns (reserved: set<nat>, error: Option<Error>)
    ensures error == FirstError(tokens)
    ensures error.None? ==> reserved == Reserved(tokens)
  {
    reserved := {};
    error := None;
    for i := 0 to |tokens|
      invariant error.None? && FirstError(tokens[..i]).None? && reserved == Reserved(tokens[..i])
    {
      var token := tokens[i];
      assert tokens[..i + 1][..i] == tokens[..i] && tokens[..i + 1] == tokens[..i] + [token];
      ReservedSnoc(tokens[..i], token);
      if token.Auto? {
        continue;
      }
      if token.Malformed? {
        error := Some(InvalidEndpoint(token.text));
      } else if token.endpoint in reserved {
        error := Some(DeclaredTwice(token.endpoint));
      }
      if error.Some? {
        ErrorStays(tokens, i + 1);
        return;
      }
      reserved := reserved + {token.endpoint};
    }
    assert tokens[..|tokens|] == tokens;
  }

  lemma {:induction false} ErrorStays(tokens: seq<Token>, i: nat)
    requires i <= |tokens| && FirstError(tokens[..i]).Some?
    ensures FirstError(tokens) == FirstError(tokens[..i])
    decreases |tokens|
  {
    if i < |tokens| {
      assert tokens[..|tokens| - 1][..i] == tokens[..i];
      ErrorStays(tokens[..|tokens| - 1], i);
    } else {
      assert tokens[..i] == tokens;
    }
  }

  /** The search loop: the next number neither reserved nor given out is the next free number. */
  method NextFree(reserved: set<nat>, used: set<nat>, start: nat, ghost top: nat, ghost k: nat) returns (n: nat)
    requires 1 <= start && (top == start || (top == start + 1 && start in used))
    requires FreeBelow(reserved, top) == k
    requires forall m: nat :: m in used && m !in reserved ==> 1 <= m < top
    ensures NthFree(reserved, k, n) && n !in used && n >= top && n <= k + |reserved| + 1
    ensures forall m: nat :: top <= m < n ==> m in reserved
  {
    n := start;
    while n in reserved || n in used
      invariant start <= n && top - 1 <= n
      invariant n >= top ==> FreeBelow(reserved, n) == k
      invariant forall m: nat :: top <= m < n ==> m in reserved
      decreases k + |reserved| + 2 - n
    {
      Pigeonhole(reserved, if n < top then top else n);
      n := n + 1;
    }
    Pigeonhole(reserved, n);
  }

  /** What holds before token `i`: `top` is the first number not yet considered, `nextAuto` the one last tried. */
  ghost predicate Ready(tokens: seq<Token>, i: nat, used: set<nat>, nextAuto: nat, top: nat)
    requires i <= |tokens|
  {
    && 1 <= nextAuto && (top == nextAuto || (top == nextAuto + 1 && nextAuto in used))
    && FreeBelow(Reserved(tokens), top) == AutoCount(tokens[..i])
    && UsedUpTo(used, tokens, i, top)
  }

  /** One token of the second pass. */
  method AllocateOne(tokens: seq<Token>, i: nat, reserved: set<nat>, used: set<nat>, nextAuto: nat, ghost top: nat)
    returns (endpoint: nat, nextAuto': nat, ghost top': nat)
    requires i < |tokens| && InRange(tokens) && NoneMalformed(tokens) && DeclaredOnce(tokens)
    requires reserved == Reserved(tokens) && Ready(tokens, i, used, nextAuto, top)
    ensures endpoint !in used && SpecFor(tokens, i, Spec(tokens[i].kind, endpoint))
    ensures endpoint > MAX_ENDPOINT ==> endpoint <= |tokens|
    ensures Ready(tokens, i + 1, used + {endpoint}, nextAuto', top')
  {
    CountSnoc(tokens, i);
    ReservedPrefix(tokens, i);
    nextAuto', top' := nextAuto, top;
    if tokens[i].Auto? {
      nextAuto' := NextFree(reserved, used, nextAuto, top, AutoCount(tokens[..i]));
      UsedByAuto(tokens, i, used, top, nextAuto');
      endpoint := nextAuto';
      top' := nextAuto' + 1;
      AutoFits(tokens, i, endpoint);
    } else {
      ExplicitIsUnused(tokens, i, used, top);
      UsedByExplicit(tokens, i, used, top);
      endpoint := tokens[i].endpoint;
    }
  }

  /** The token has no endpoint of its own, and the number it is to get is too large. */
  predicate Exceeds(tokens: seq<Token>, i: nat, n: nat) {
    i < |tokens| && tokens[i].Auto? && NthFree(Reserved(tokens), AutoCount(tokens[..i]), n) && n > 65_534
  }

  /** The number is that of the first token whose number is too large. */
  ghost predicate ExceedsFirst(tokens: seq<Token>, n: nat) {
    exists i: nat :: Exceeds(tokens, i, n) && forall j: nat, m: nat :: j < i ==> !Exceeds(tokens, j, m)
  }

  /** The tokens dealt with so far have the numbers they are to get, and these are in bounds. */
  predicate Numbered(tokens: seq<Token>, i: nat, specs: seq<Spec>)
    requires i <= |tokens|
  {
    |specs| == i && forall j :: 0 <= j < i ==> SpecFor(tokens, j, specs[j]) && 1 <= specs[j].endpoint <= 65_534
  }

  lemma FirstToExceed(tokens: seq<Token>, i: nat, specs: seq<Spec>, n: nat)
    requires i < |tokens| && Numbered(tokens, i, specs) && Exceeds(tokens, i, n)
    ensures ExceedsFirst(tokens, n)
  {
    forall j: nat, m: nat | j < i ensures !Exceeds(tokens, j, m) {
      assert SpecFor(tokens, j, specs[j]);
      if Exceeds(tokens, j, m) {
        NthFreeUnique(Reserved(tokens), AutoCount(tokens[..j]), m, specs[j].endpoint);
      }
    }
  }

  /** Both passes over the `--device` tokens. */
  method Allocate(tokens: seq<Token>) returns (r: Result)
    requires InRange(tokens)
    ensures FirstError(tokens).Some? ==> r == Invalid(FirstError(tokens).value)
    ensures FirstError(tokens).None? && r.Invalid? ==>
              r.error.OutOfBounds? && ExceedsFirst(tokens, r.error.endpoint) && r.error.endpoint <= |tokens|
    ensures r.Specs? ==> Numbered(tokens, |tokens|, r.specs)
  {
    var reserved, error := CollectReserved(tokens);
    if error.Some? {
      return Invalid(error.value);
    }
    RefusedIff(tokens);
    var specs: seq<Spec> := [];
    var used: set<nat> := {};
    var nextAuto := 1;
    ghost var top := 1;
    for i := 0 to |tokens|
      invariant Numbered(tokens, i, specs)
      invariant Ready(tokens, i, used, nextAuto, top)
    {
      var endpoint;
      endpoint, nextAuto, top := AllocateOne(tokens, i, reserved, used, nextAuto, top);
      if endpoint in used {
        assert false;
      }
      used := used + {endpoint};
      if endpoint > MAX_ENDPOINT {
        FirstToExceed(tokens, i, specs, endpoint);
        return Invalid(OutOfBounds(endpoint));
      }
      specs := specs + [Spec(tokens[i].kind, endpoint)];
    }
    r := Specs(specs);
  }

  function ParseAll(texts: seq<string>): seq<Token> {
    seq(|texts|, i requires 0 <= i < |texts| => Parse(texts[i]))
  }

  /** The `--device` part of `parseRuntimeArgs`. */
  method ParseDevices(texts: seq<string>) returns (r: Result)
    ensures FirstError(ParseAll(texts)).Some? ==> r == Invalid(FirstError(ParseAll(texts)).value)
    ensures FirstError(ParseAll(texts)).None? && r.Invalid? ==>
              r.error.OutOfBounds? && ExceedsFirst(ParseAll(texts), r.error.endpoint) && r.error.endpoint <= |texts|
    ensures r.Specs? ==> Numbered(ParseAll(texts), |texts|, r.specs)
  {
    r := Allocate(ParseAll(texts));
  }

  // ---- What the allocation is for ------------------------------------------------------------------------------

  /** All endpoints differ, explicit ones are kept, and no automatic one exceeds the number of tokens. */
  lemma EndpointsDistinct(tokens: seq<Token>, specs: seq<Spec>)
    requires DeclaredOnce(tokens) && |specs| == |tokens|
    requires forall i :: 0 <= i < |tokens| ==> SpecFor(tokens, i, specs[i])
    ensures forall i, j :: 0 <= i < j < |specs| ==> specs[i].endpoint != specs[j].endpoint
    ensures forall i :: 0 <= i < |specs| && tokens[i].Explicit? ==> specs[i].endpoint == tokens[i].endpoint
    ensures forall i :: 0 <= i < |specs| && tokens[i].Auto? ==> 1 <= specs[i].endpoint <= |tokens|
  {
    forall i, j | 0 <= i < j < |specs| ensures specs[i].endpoint != specs[j].endpoint {
      assert SpecFor(tokens, i, specs[i]) && SpecFor(tokens, j, specs[j]);
      if tokens[i].Auto? && tokens[j].Auto? {
        assert tokens[..j][..i] == tokens[..i];
        AutoCountPrefix(tokens[..j], i);
      } else if tokens[i].Explicit? {
        assert tokens[i].endpoint in Reserved(tokens);
      } else {
        assert tokens[j].endpoint in Reserved(tokens);
      }
    }
    forall i | 0 <= i < |specs| && tokens[i].Auto? ensures 1 <= specs[i].endpoint <= |tokens| {
      assert SpecFor(tokens, i, specs[i]);
      AutoFits(tokens, i, specs[i].endpoint);
    }
    forall i | 0 <= i < |specs| && tokens[i].Explicit? ensures specs[i].endpoint == tokens[i].endpoint {
      assert SpecFor(tokens, i, specs[i]);
    }
  }
}
