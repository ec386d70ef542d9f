/** Dotted config paths against patterns with `*` and `**` (scripts/check-policy-config-coverage.ts). */
module PathPattern {
  import opened Sequences
  import opened Text

  function MatchesParts(pattern: seq<string>, value: seq<string>): bool
    decreases |pattern|, 0
  {
    if pattern == [] then value == []
    else
      var head, tail := pattern[0], pattern[1..];
      if head == "**" then tail == [] || SomeSuffixMatches(tail, value, 0)
      else if value == [] then false
      else if head != "*" && head != value[0] then false
      else MatchesParts(tail, value[1..])
  }

  /** The search loop behind `**`: does the tail match the value from some index on? */
  function SomeSuffixMatches(tail: seq<string>, value: seq<string>, index: nat): (found: bool)
    requires index <= |value|
    ensures found <==> exists k :: index <= k <= |value| && MatchesParts(tail, value[k..])
    decreases |tail|, 1 + |value| - index
  {
    MatchesParts(tail, value[index..]) || (index < |value| && SomeSuffixMatches(tail, value, index + 1))
  }

  function PathMatchesPattern(pattern: string, value: string): bool {
    MatchesParts(SplitOn(pattern, '.'), SplitOn(value, '.'))
  }

  // ---- the declarative meaning

  /** What one pattern part may stand for. */
  predicate Covers(part: string, segment: seq<string>) {
    part == "**" || (|segment| == 1 && (part == "*" || part == segment[0]))
  }

  ghost predicate Segmentation(pattern: seq<string>, value: seq<string>, segments: seq<seq<string>>) {
    && |segments| == |pattern|
    && Concat(segments) == value
    && forall i :: 0 <= i < |pattern| ==> Covers(pattern[i], segments[i])
  }

  /** One step of the matcher, in one form for all three kinds of part: the head covers a first run. */
  lemma HeadRun(pattern: seq<string>, value: seq<string>) returns (k: nat)
    requires pattern != [] && MatchesParts(pattern, value)
    ensures k <= |value| && Covers(pattern[0], value[..k]) && MatchesParts(pattern[1..], value[k..])
  {
    if pattern[0] != "**" {
      k := 1;
    } else if pattern[1..] == [] {
      k := |value|;
    } else {
      k :| 0 <= k <= |value| && MatchesParts(pattern[1..], value[k..]);
    }
  }

  lemma HeadRunMatches(pattern: seq<string>, value: seq<string>, k: nat)
    requires pattern != [] && k <= |value| && Covers(pattern[0], value[..k]) && MatchesParts(pattern[1..], value[k..])
    ensures MatchesParts(pattern, value)
  {
    if pattern[0] != "**" { assert k == 1; }
  }

  lemma {:induction false} MatchHasSegmentation(pattern: seq<string>, value: seq<string>)
    returns (segments: seq<seq<string>>)
    requires MatchesParts(pattern, value)
    ensures Segmentation(pattern, value, segments)
    decreases |pattern|
  {
    if pattern == [] { return []; }
    var k := HeadRun(pattern, value);
    var rest := MatchHasSegmentation(pattern[1..], value[k..]);
    SegmentationCons(pattern, value, k, rest);
    segments := [value[..k]] + rest;
  }

  lemma SegmentationCons(pattern: seq<string>, value: seq<string>, k: nat, rest: seq<seq<string>>)
    requires pattern != [] && k <= |value| && Covers(pattern[0], value[..k])
    requires Segmentation(pattern[1..], value[k..], rest)
    ensures Segmentation(pattern, value, [value[..k]] + rest)
  {
    var segments := [value[..k]] + rest;
    assert segments[1..] == rest;
    assert value == value[..k] + value[k..];
    forall i | 0 <= i < |pattern| ensures Covers(pattern[i], segments[i]) {
      if i > 0 { assert pattern[i] == pattern[1..][i - 1] && segments[i] == rest[i - 1]; }
    }
  }

  lemma {:induction false} SegmentationMatches(pattern: seq<string>, value: seq<string>, segments: seq<seq<string>>)
    requires Segmentation(pattern, value, segments)
    ensures MatchesParts(pattern, value)
    decreases |pattern|
  {
    if pattern != [] {
      var k := |segments[0]|;
      assert value[..k] == segments[0] && value[k..] == Concat(segments[1..]);
      forall i | 0 <= i < |pattern[1..]| ensures Covers(pattern[1..][i], segments[1..][i]) {
        assert Covers(pattern[i + 1], segments[i + 1]);
      }
      SegmentationMatches(pattern[1..], value[k..], segments[1..]);
      HeadRunMatches(pattern, value, k);
    }
  }

  /** Matching is segmenting: every part covers one run of the value, in order. */
  lemma MatchesIffSegmentation(pattern: seq<string>, value: seq<string>)
    ensures MatchesParts(pattern, value) <==> exists segments :: Segmentation(pattern, value, segments)
  {
    if MatchesParts(pattern, value) {
      var segments := MatchHasSegmentation(pattern, value);
    }
    if segments :| Segmentation(pattern, value, segments) {
      SegmentationMatches(pattern, value, segments);
    }
  }

  // ---- consequences

  ghost predicate SplitsAt(p1: seq<string>, p2: seq<string>, value: seq<string>, k: nat) {
    k <= |value| && MatchesParts(p1, value[..k]) && MatchesParts(p2, value[k..])
  }

  lemma Cuts(value: seq<string>, k: nat, n: nat)
    requires k <= n <= |value|
    ensures value[..n][..k] == value[..k] && value[..n][k..] == value[k..][..n - k] && value[k..][n - k..] == value[n..]
  {
  }

  ghost predicate Splits(p1: seq<string>, p2: seq<string>, value: seq<string>) {
    exists k: nat :: SplitsAt(p1, p2, value, k)
  }

  /** A first run before a split. */
  lemma SplitsLater(p1: seq<string>, p2: seq<string>, value: seq<string>, k: nat)
    requires p1 != [] && k <= |value| && Covers(p1[0], value[..k]) && Splits(p1[1..], p2, value[k..])
    ensures Splits(p1, p2, value)
  {
    var m: nat :| SplitsAt(p1[1..], p2, value[k..], m);
    Cuts(value, k, k + m);
    HeadRunMatches(p1, value[..k + m], k);
    assert SplitsAt(p1, p2, value, k + m);
  }

  lemma {:induction false} MatchesConcatSplits(p1: seq<string>, p2: seq<string>, value: seq<string>)
    requires MatchesParts(p1 + p2, value)
    ensures Splits(p1, p2, value)
    decreases |p1|
  {
    if p1 == [] {
      assert p1 + p2 == p2;
      assert SplitsAt(p1, p2, value, 0);
    } else {
      var k := HeadRun(p1 + p2, value);
      assert (p1 + p2)[1..] == p1[1..] + p2;
      MatchesConcatSplits(p1[1..], p2, value[k..]);
      SplitsLater(p1, p2, value, k);
    }
  }

  lemma {:induction false} SplitMatchesConcat(p1: seq<string>, p2: seq<string>, value: seq<string>, n: nat)
    requires SplitsAt(p1, p2, value, n)
    ensures MatchesParts(p1 + p2, value)
    decreases |p1|
  {
    if p1 == [] {
      assert p1 + p2 == p2 && value[n..] == value;
    } else {
      var k := HeadRun(p1, value[..n]);
      Cuts(value, k, n);
      SplitMatchesConcat(p1[1..], p2, value[k..], n - k);
      assert (p1 + p2)[1..] == p1[1..] + p2;
      HeadRunMatches(p1 + p2, value, k);
    }
  }

  /** A pattern in two halves matches exactly when some cut of the value matches half by half. */
  lemma MatchesConcat(p1: seq<string>, p2: seq<string>, value: seq<string>)
    ensures MatchesParts(p1 + p2, value) <==> exists k: nat :: SplitsAt(p1, p2, value, k)
  {
    if MatchesParts(p1 + p2, value) { MatchesConcatSplits(p1, p2, value); }
    if k: nat :| SplitsAt(p1, p2, value, k) { SplitMatchesConcat(p1, p2, value, k); }
  }

  function Reverse<T>(s: seq<T>): seq<T> { if s == [] then [] else Reverse(s[1..]) + [s[0]] }

  lemma {:induction false} ReverseAppend<T>(a: seq<T>, b: seq<T>)
    ensures Reverse(a + b) == Reverse(b) + Reverse(a)
  {
    if a == [] {
      assert a + b == b;
    } else {
      assert (a + b)[1..] == a[1..] + b;
      ReverseAppend(a[1..], b);
    }
  }

  lemma {:induction false} ReverseTwice<T>(s: seq<T>)
    ensures Reverse(Reverse(s)) == s && |Reverse(s)| == |s|
  {
    if s != [] {
      ReverseTwice(s[1..]);
      ReverseAppend(Reverse(s[1..]), [s[0]]);
      assert Reverse([s[0]]) == [s[0]];
    }
  }

  /** A one-part pattern reads a value the same way from both ends. */
  lemma OnePartReversed(part: string, value: seq<string>)
    ensures MatchesParts([part], Reverse(value)) == MatchesParts([part], value) == Covers(part, value)
  {
    ReverseTwice(value);
    forall v: seq<string> ensures MatchesParts([part], v) == Covers(part, v) {
      if |v| == 1 { assert v[1..] == []; }
    }
    if |value| == 1 { assert Reverse(value) == value; }
  }

  lemma {:induction false} ReversedMatches(pattern: seq<string>, value: seq<string>)
    requires MatchesParts(pattern, value)
    ensures MatchesParts(Reverse(pattern), Reverse(value))
    decreases |pattern|
  {
    if pattern != [] {
      assert pattern == [pattern[0]] + pattern[1..];
      MatchesConcatSplits([pattern[0]], pattern[1..], value);
      var k: nat :| SplitsAt([pattern[0]], pattern[1..], value, k);
      ReversedMatches(pattern[1..], value[k..]);
      OnePartReversed(pattern[0], value[..k]);
      ReverseAppend(value[..k], value[k..]);
      assert value[..k] + value[k..] == value;
      var n := |Reverse(value[k..])|;
      assert Reverse(value)[..n] == Reverse(value[k..]) && Reverse(value)[n..] == Reverse(value[..k]);
      SplitMatchesConcat(Reverse(pattern[1..]), [pattern[0]], Reverse(value), n);
    }
  }

  /** Matching does not depend on the direction of reading. */
  lemma MatchesReversed(pattern: seq<string>, value: seq<string>)
    ensures MatchesParts(Reverse(pattern), Reverse(value)) <==> MatchesParts(pattern, value)
  {
    if MatchesParts(pattern, value) { ReversedMatches(pattern, value); }
    if MatchesParts(Reverse(pattern), Reverse(value)) {
      ReversedMatches(Reverse(pattern), Reverse(value));
      ReverseTwice(pattern);
      ReverseTwice(value);
    }
  }

  lemma DoubleStar(value: seq<string>)
    ensures MatchesParts(["**"], value) && MatchesParts(["**", "**"], value)
  {
    assert ["**", "**"] == ["**"] + ["**"];
    SplitMatchesConcat(["**"], ["**"], value, 0);
  }

  /** Two `**` in a row say no more than one, anywhere in a pattern. */
  lemma StarsCollapse(p1: seq<string>, p2: seq<string>, value: seq<string>)
    ensures MatchesParts(p1 + (["**", "**"] + p2), value) <==> MatchesParts(p1 + (["**"] + p2), value)
  {
    forall v: seq<string> ensures MatchesParts(["**", "**"] + p2, v) == MatchesParts(["**"] + p2, v) {
      MatchesConcat(["**", "**"], p2, v);
      MatchesConcat(["**"], p2, v);
      forall k: nat ensures SplitsAt(["**", "**"], p2, v, k) == SplitsAt(["**"], p2, v, k) {
        if k <= |v| { DoubleStar(v[..k]); }
      }
    }
    MatchesConcat(p1, ["**", "**"] + p2, value);
    MatchesConcat(p1, ["**"] + p2, value);
    forall k: nat ensures SplitsAt(p1, ["**", "**"] + p2, value, k) == SplitsAt(p1, ["**"] + p2, value, k) {}
  }

  /** On path strings: the pattern's dotted parts segment the path's dotted parts. */
  lemma PathMatchesIff(pattern: seq<string>, value: seq<string>)
    requires pattern != [] && value != [] && Free(pattern, '.') && Free(value, '.')
    ensures PathMatchesPattern(Join(pattern, '.'), Join(value, '.'))
       <==> exists segments :: Segmentation(pattern, value, segments)
  {
    SplitJoin(pattern, '.');
    SplitJoin(value, '.');
    MatchesIffSegmentation(pattern, value);
  }
}
