/**
 Model patterns of routing rules. A pattern is compiled to its non-empty literals and
 matched greedily, leftmost first; the meaning of a pattern is the usual glob semantics.
 */
module Wildcards {

  datatype WildcardPattern = WildcardPattern(literals: seq<string>, leadingStar: bool, trailingStar: bool)

  // ----- meaning -----

  /** Ordinary characters stand for themselves and each `*` for any, possibly empty, substring. */
  ghost predicate Glob(pattern: string, value: string)
    decreases |pattern|
  {
    if pattern == "" then value == ""
    else if pattern[0] == '*' then exists k :: 0 <= k <= |value| && Glob(pattern[1..], value[k..])
    else value != "" && value[0] == pattern[0] && Glob(pattern[1..], value[1..])
  }

  /** The pattern matches what is left of `value` from `k` on. */
  ghost predicate GlobFrom(pattern: string, value: string, k: int) {
    0 <= k <= |value| && Glob(pattern, value[k..])
  }

  ghost predicate GlobSomewhere(pattern: string, value: string) {
    exists k :: GlobFrom(pattern, value, k)
  }

  lemma {:induction false} GlobStar(pattern: string, value: string)
    requires pattern != "" && pattern[0] == '*'
    ensures Glob(pattern, value) <==> GlobSomewhere(pattern[1..], value)
  {
    if Glob(pattern, value) {
      var k :| 0 <= k <= |value| && Glob(pattern[1..], value[k..]);
      assert GlobFrom(pattern[1..], value, k);
    }
  }

  // ----- compilation -----

  function IndexOf(s: string, c: char): (i: int)
    ensures i < 0 ==> c !in s
    ensures i >= 0 ==> i < |s| && s[i] == c && c !in s[..i]
  {
    if s == "" then -1
    else if s[0] == c then 0
    else
      var i := IndexOf(s[1..], c);
      assert i >= 0 ==> s[..i + 1] == [s[0]] + s[1..][..i];
      if i < 0 then -1 else i + 1
  }

  /** `strings.Split(s, "*")` */
  function Split(s: string): (parts: seq<string>)
    ensures parts != []
    decreases |s|
  {
    var i := IndexOf(s, '*');
    if i < 0 then [s] else [s[..i]] + Split(s[i + 1..])
  }

  function NonEmpty(parts: seq<string>): seq<string> {
    if parts == [] then []
    else if parts[0] == "" then NonEmpty(parts[1..])
    else [parts[0]] + NonEmpty(parts[1..])
  }

  predicate EndsWithStar(pattern: string) {
    pattern != "" && pattern[|pattern| - 1] == '*'
  }

  lemma {:induction false} NonEmptyAppends(parts: seq<string>, part: string)
    ensures NonEmpty(parts + [part]) == NonEmpty(parts) + if part == "" then [] else [part]
  {
    if parts != [] {
      assert (parts + [part])[1..] == parts[1..] + [part];
      NonEmptyAppends(parts[1..], part);
    }
  }

  method Compile(pattern: string) returns (p: WildcardPattern)
    ensures p == WildcardPattern(NonEmpty(Split(pattern)), pattern != "" && pattern[0] == '*', EndsWithStar(pattern))
  {
    var parts := Split(pattern);
    var literals := [];
    for i := 0 to |parts|
      invariant literals == NonEmpty(parts[..i])
    {
      NonEmptyAppends(parts[..i], parts[i]);
      assert parts[..i + 1] == parts[..i] + [parts[i]];
      if parts[i] != "" {
        literals := literals + [parts[i]];
      }
    }
    assert parts[..|parts|] == parts;
    p := WildcardPattern(literals, pattern != "" && pattern[0] == '*', EndsWithStar(pattern));
  }

  // ----- meaning of the compiled form -----

  predicate OccursAt(literal: string, value: string, k: int) {
    0 <= k && k + |literal| <= |value| && value[k..k + |literal|] == literal
  }

  /** The literals occur in order, with anything before the first of them; a star follows each
      but the last, which ends the value unless a trailing star follows it too. */
  ghost predicate AfterStar(literals: seq<string>, trailingStar: bool, value: string)
    decreases |literals|, |value|
  {
    || literals == []
    || (literals[0] <= value &&
        var rest := value[|literals[0]|..];
        if |literals| == 1 then trailingStar || rest == "" else AfterStar(literals[1..], trailingStar, rest))
    || (value != "" && AfterStar(literals, trailingStar, value[1..]))
  }

  /** What may follow a literal: nothing, a final star, or a star and the remaining literals. */
  ghost predicate Rest(literals: seq<string>, trailingStar: bool, value: string) {
    if literals == [] then trailingStar || value == "" else AfterStar(literals, trailingStar, value)
  }

  /** The first literal sits at `k` and the rest follows it. */
  ghost predicate FoundAt(literals: seq<string>, trailingStar: bool, value: string, k: int)
    requires literals != []
  {
    OccursAt(literals[0], value, k) && Rest(literals[1..], trailingStar, value[k + |literals[0]|..])
  }

  lemma {:induction false} AfterStarIsFound(literals: seq<string>, trailingStar: bool, value: string)
    requires literals != []
    ensures AfterStar(literals, trailingStar, value) <==> exists k :: FoundAt(literals, trailingStar, value, k)
    decreases |value|
  {
    var literal := literals[0];
    assert value[0..] == value;
    assert FoundAt(literals, trailingStar, value, 0) <==>
           literal <= value && Rest(literals[1..], trailingStar, value[|literal|..]) by {
      if |literal| <= |value| { assert value[0..0 + |literal|] == value[..|literal|]; }
    }
    if value != "" {
      AfterStarIsFound(literals, trailingStar, value[1..]);
      forall k | k > 0
        ensures FoundAt(literals, trailingStar, value, k) <==> FoundAt(literals, trailingStar, value[1..], k - 1)
      {
        ShiftFound(literals, trailingStar, value, k);
      }
      if AfterStar(literals, trailingStar, value[1..]) {
        var j :| FoundAt(literals, trailingStar, value[1..], j);
        assert FoundAt(literals, trailingStar, value, j + 1);
      }
    }
    if k :| FoundAt(literals, trailingStar, value, k) {
      if k > 0 { assert FoundAt(literals, trailingStar, value[1..], k - 1); }
    }
  }

  lemma {:induction false} ShiftFound(literals: seq<string>, trailingStar: bool, value: string, k: int)
    requires literals != [] && value != "" && k > 0
    ensures FoundAt(literals, trailingStar, value, k) <==> FoundAt(literals, trailingStar, value[1..], k - 1)
  {
    var end := k + |literals[0]|;
    if end <= |value| {
      assert value[1..][k - 1..end - 1] == value[k..end];
      assert value[1..][end - 1..] == value[end..];
    }
  }

  ghost predicate Denotes(p: WildcardPattern, value: string) {
    if p.literals == [] then true
    else if p.leadingStar then AfterStar(p.literals, p.trailingStar, value)
    else p.literals[0] <= value && Rest(p.literals[1..], p.trailingStar, value[|p.literals[0]|..])
  }

  // ----- compilation preserves meaning -----

  lemma {:induction false} GlobLiteral(literal: string, rest: string, value: string)
    requires '*' !in literal
    ensures Glob(literal + rest, value) <==> literal <= value && Glob(rest, value[|literal|..])
  {
    if literal == "" {
      assert literal + rest == rest && value[0..] == value;
    } else {
      assert (literal + rest)[1..] == literal[1..] + rest;
      if value != "" && value[0] == literal[0] {
        GlobLiteral(literal[1..], rest, value[1..]);
        assert literal <= value <==> literal[1..] <= value[1..] by {
          assert literal == [literal[0]] + literal[1..] && value == [value[0]] + value[1..];
        }
        if literal <= value {
          assert value[1..][|literal| - 1..] == value[|literal|..];
        }
      }
    }
  }

  lemma {:induction false} TwoStars(pattern: string, value: string)
    requires pattern != "" && pattern[0] == '*'
    ensures GlobSomewhere(pattern, value) <==> GlobSomewhere(pattern[1..], value)
  {
    if GlobSomewhere(pattern, value) {
      var k :| GlobFrom(pattern, value, k);
      GlobStar(pattern, value[k..]);
      var j :| GlobFrom(pattern[1..], value[k..], j);
      assert value[k..][j..] == value[k + j..];
      assert GlobFrom(pattern[1..], value, k + j);
    }
    if GlobSomewhere(pattern[1..], value) {
      assert value[0..] == value;
      GlobStar(pattern, value);
      assert GlobFrom(pattern, value, 0);
    }
  }

  /** A pattern that does not start with a star is one literal and then nothing or a star. */
  lemma {:induction false} SplitHead(pattern: string) returns (literal: string, rest: string)
    requires pattern != "" && pattern[0] != '*'
    ensures pattern == literal + rest && literal != "" && '*' !in literal
    ensures rest == "" || rest[0] == '*'
    ensures NonEmpty(Split(pattern)) == [literal] + if rest == "" then [] else NonEmpty(Split(rest[1..]))
    ensures EndsWithStar(pattern) <==> EndsWithStar(rest)
  {
    var i := IndexOf(pattern, '*');
    if i < 0 {
      literal, rest := pattern, "";
      assert NonEmpty([pattern]) == [pattern] + NonEmpty([]);
    } else {
      literal, rest := pattern[..i], pattern[i..];
      assert rest[1..] == pattern[i + 1..];
      assert ([literal] + Split(rest[1..]))[1..] == Split(rest[1..]);
    }
  }

  lemma {:induction false} SplitStar(pattern: string)
    requires pattern != "" && pattern[0] == '*'
    ensures NonEmpty(Split(pattern)) == NonEmpty(Split(pattern[1..]))
    ensures EndsWithStar(pattern) <==> pattern[1..] == "" || EndsWithStar(pattern[1..])
  {
    assert IndexOf(pattern, '*') == 0;
    assert ([""] + Split(pattern[1..]))[1..] == Split(pattern[1..]);
  }

  lemma {:induction false} OnlyStars(pattern: string)
    requires NonEmpty(Split(pattern)) == []
    ensures pattern == "" || EndsWithStar(pattern)
    decreases |pattern|
  {
    if pattern != "" {
      if pattern[0] == '*' {
        SplitStar(pattern);
        OnlyStars(pattern[1..]);
      } else {
        var literal, rest := SplitHead(pattern);
      }
    }
  }

  /** After a star, a pattern means what its compiled literals mean. */
  lemma {:induction false} SomewhereIsAfterStar(pattern: string, value: string)
    ensures GlobSomewhere(pattern, value) <==> AfterStar(NonEmpty(Split(pattern)), EndsWithStar(pattern), value)
    decreases |pattern|, 2
  {
    if pattern == "" {
      assert value[|value|..] == "";
      assert GlobFrom(pattern, value, |value|);
      assert NonEmpty([""]) == NonEmpty([]);
    } else if pattern[0] == '*' {
      TwoStars(pattern, value);
      SplitStar(pattern);
      SomewhereIsAfterStar(pattern[1..], value);
      OnlyTrailingMatters(pattern[1..], value);
    } else {
      var literal, rest := SplitHead(pattern);
      LiteralSomewhere(literal, rest, value);
    }
  }

  lemma {:induction false} LiteralSomewhere(literal: string, rest: string, value: string)
    requires literal != "" && '*' !in literal
    requires rest == "" || rest[0] == '*'
    ensures GlobSomewhere(literal + rest, value) <==>
            AfterStar([literal] + if rest == "" then [] else NonEmpty(Split(rest[1..])), EndsWithStar(rest), value)
    decreases |rest|, 2
  {
    var tail := if rest == "" then [] else NonEmpty(Split(rest[1..]));
    forall k
      ensures GlobFrom(literal + rest, value, k) <==> FoundAt([literal] + tail, EndsWithStar(rest), value, k)
    {
      FoundAtHead(literal, tail, EndsWithStar(rest), value, k);
      if 0 <= k <= |value| {
        LiteralThenRest(literal, rest, value, k);
      }
    }
    AfterStarIsFound([literal] + tail, EndsWithStar(rest), value);
  }

  lemma {:induction false} FoundAtHead(literal: string, tail: seq<string>, trailing: bool, value: string, k: int)
    ensures FoundAt([literal] + tail, trailing, value, k) <==>
            OccursAt(literal, value, k) && Rest(tail, trailing, value[k + |literal|..])
  {
    assert ([literal] + tail)[1..] == tail;
  }

  lemma {:induction false} LiteralThenRest(literal: string, rest: string, value: string, k: nat)
    requires literal != "" && '*' !in literal && k <= |value|
    requires rest == "" || rest[0] == '*'
    ensures Glob(literal + rest, value[k..]) <==>
            OccursAt(literal, value, k) && Rest(if rest == "" then [] else NonEmpty(Split(rest[1..])), EndsWithStar(rest), value[k + |literal|..])
    decreases |rest|, 1
  {
    GlobLiteral(literal, rest, value[k..]);
    assert OccursAt(literal, value, k) <==> literal <= value[k..] by {
      if k + |literal| <= |value| { assert value[k..k + |literal|] == value[k..][..|literal|]; }
    }
    if OccursAt(literal, value, k) {
      assert value[k..][|literal|..] == value[k + |literal|..];
      RestMeansRest(rest, value[k + |literal|..]);
    }
  }

  /** With no literals left the trailing flag is irrelevant after a star. */
  lemma {:induction false} OnlyTrailingMatters(pattern: string, value: string)
    ensures AfterStar(NonEmpty(Split(pattern)), pattern == "" || EndsWithStar(pattern), value)
            <==> AfterStar(NonEmpty(Split(pattern)), EndsWithStar(pattern), value)
  {
    if pattern == "" {
      assert NonEmpty([""]) == NonEmpty([]);
    }
  }

  lemma {:induction false} RestMeansRest(rest: string, value: string)
    requires rest == "" || rest[0] == '*'
    ensures Glob(rest, value) <==> Rest(if rest == "" then [] else NonEmpty(Split(rest[1..])), EndsWithStar(rest), value)
    decreases |rest|, 0
  {
    if rest != "" {
      GlobStar(rest, value);
      SomewhereIsAfterStar(rest[1..], value);
      OnlyTrailingMatters(rest[1..], value);
      if NonEmpty(Split(rest[1..])) == [] {
        OnlyStars(rest[1..]);
      }
    }
  }

  /** Compiling keeps the meaning of every pattern but the empty one, which compiles to "match all". */
  lemma {:induction false} CompileKeepsMeaning(pattern: string, value: string)
    ensures Denotes(WildcardPattern(NonEmpty(Split(pattern)), pattern != "" && pattern[0] == '*', EndsWithStar(pattern)), value)
            <==> pattern == "" || Glob(pattern, value)
  {
    if pattern == "" {
      assert NonEmpty([""]) == NonEmpty([]);
    } else if pattern[0] == '*' {
      SplitStar(pattern);
      SomewhereIsAfterStar(pattern[1..], value);
      OnlyTrailingMatters(pattern[1..], value);
      GlobStar(pattern, value);
    } else {
      var literal, rest := SplitHead(pattern);
      GlobLiteral(literal, rest, value);
      if literal <= value {
        RestMeansRest(rest, value[|literal|..]);
      }
    }
  }

  // ----- greedy matching -----

  /** `strings.Index`: the leftmost occurrence, or -1. */
  function Index(value: string, literal: string): (i: int)
    ensures i < 0 ==> forall k :: !OccursAt(literal, value, k)
    ensures i >= 0 ==> OccursAt(literal, value, i) && forall k :: OccursAt(literal, value, k) ==> i <= k
    decreases |value|
  {
    if literal <= value then
      assert value[0..0 + |literal|] == literal;
      0
    else if value == "" then -1
    else
      var i := Index(value[1..], literal);
      assert forall k :: OccursAt(literal, value, k) ==> OccursAt(literal, value[1..], k - 1) by {
        forall k | OccursAt(literal, value, k)
          ensures OccursAt(literal, value[1..], k - 1)
        {
          OccursLater(literal, value, k);
        }
      }
      assert i >= 0 ==> value[i + 1..i + 1 + |literal|] == value[1..][i..i + |literal|];
      if i < 0 then -1 else i + 1
  }

  lemma {:induction false} OccursLater(literal: string, value: string, k: int)
    requires OccursAt(literal, value, k) && value != "" && !(literal <= value)
    ensures OccursAt(literal, value[1..], k - 1)
  {
    assert k > 0;
    assert value[1..][k - 1..k - 1 + |literal|] == value[k..k + |literal|];
  }

  /** Whatever can be found in a suffix can be found in the whole. */
  lemma {:induction false} AfterStarGrows(literals: seq<string>, trailingStar: bool, value: string, j: nat)
    requires j <= |value| && AfterStar(literals, trailingStar, value[j..])
    ensures AfterStar(literals, trailingStar, value)
  {
    if j == 0 {
      assert value[0..] == value;
    } else {
      assert value[1..][j - 1..] == value[j..];
      AfterStarGrows(literals, trailingStar, value[1..], j - 1);
    }
  }

  /** Taking the leftmost occurrence loses no match, unless the literal must end the value. */
  lemma {:induction false} LeftmostSuffices(literals: seq<string>, trailingStar: bool, value: string)
    requires literals != [] && (|literals| > 1 || trailingStar)
    ensures var i := Index(value, literals[0]);
            AfterStar(literals, trailingStar, value) <==>
            i >= 0 && Rest(literals[1..], trailingStar, value[i + |literals[0]|..])
  {
    var i := Index(value, literals[0]);
    AfterStarIsFound(literals, trailingStar, value);
    if AfterStar(literals, trailingStar, value) {
      var k :| FoundAt(literals, trailingStar, value, k);
      if |literals| > 1 {
        EarlierSuffices(literals, trailingStar, value, i, k);
      }
    }
    if i >= 0 && Rest(literals[1..], trailingStar, value[i + |literals[0]|..]) {
      assert FoundAt(literals, trailingStar, value, i);
    }
  }

  lemma {:induction false} EarlierSuffices(literals: seq<string>, trailingStar: bool, value: string, i: nat, k: int)
    requires |literals| > 1 && i <= k && FoundAt(literals, trailingStar, value, k)
    ensures Rest(literals[1..], trailingStar, value[i + |literals[0]|..])
  {
    var after := value[i + |literals[0]|..];
    assert after[k - i..] == value[k + |literals[0]|..];
    AfterStarGrows(literals[1..], trailingStar, after, k - i);
  }

  lemma {:induction false} SliceOfSlice(value: string, position: nat, n: nat)
    requires position + n <= |value|
    ensures value[position..][n..] == value[position + n..]
  {
  }

  predicate HasSuffix(value: string, literal: string) {
    |literal| <= |value| && value[|value| - |literal|..] == literal
  }

  /** A final literal without a star after it must end the value, without overlapping what came before. */
  lemma {:induction false} FinalLiteral(literal: string, value: string, position: nat)
    requires position <= |value|
    ensures AfterStar([literal], false, value[position..]) <==> |value| - |literal| >= position && HasSuffix(value, literal)
  {
    var tail := value[position..];
    AfterStarIsFound([literal], false, tail);
    if AfterStar([literal], false, tail) {
      var k :| FoundAt([literal], false, tail, k);
      assert k + |literal| == |tail|;
      assert tail[k..k + |literal|] == value[|value| - |literal|..];
    }
    if |value| - |literal| >= position && HasSuffix(value, literal) {
      var k := |value| - |literal| - position;
      assert tail[k..k + |literal|] == value[|value| - |literal|..];
      assert FoundAt([literal], false, tail, k);
    }
  }

  method Matches(p: WildcardPattern, value: string) returns (matched: bool)
    ensures matched <==> Denotes(p, value)
  {
    if |p.literals| == 0 {
      return true;
    }
    var position := 0;
    for i := 0 to |p.literals|
      invariant 0 <= position <= |value|
      invariant i == 0 ==> position == 0
      invariant i > 0 ==> (Denotes(p, value) <==> Rest(p.literals[i..], p.trailingStar, value[position..]))
    {
      var literal := p.literals[i];
      var last := i == |p.literals| - 1;
      assert p.literals[i..][1..] == p.literals[i + 1..];
      if i == 0 && !p.leadingStar {
        if !(literal <= value) {
          return false;
        }
        position := |literal|;
      } else {
        assert value[0..] == value && p.literals[0..] == p.literals;
        assert Denotes(p, value) <==> AfterStar(p.literals[i..], p.trailingStar, value[position..]);
        if last && !p.trailingStar {
          assert p.literals[i..] == [literal];
          FinalLiteral(literal, value, position);
          return |value| - |literal| >= position && HasSuffix(value, literal);
        }
        var index := Index(value[position..], literal);
        LeftmostSuffices(p.literals[i..], p.trailingStar, value[position..]);
        if index < 0 {
          return false;
        }
        SliceOfSlice(value, position, index + |literal|);
        position := position + index + |literal|;
      }
    }
    return p.trailingStar || position == |value|;
  }

  /** Main result: a model name passes a rule's pattern exactly when the glob matches it;
      the empty pattern is the one exception and lets everything through. */
  method PatternMatches(pattern: string, value: string) returns (matched: bool)
    ensures matched <==> pattern == "" || Glob(pattern, value)
  {
    var p := Compile(pattern);
    matched := Matches(p, value);
    CompileKeepsMeaning(pattern, value);
  }
}
