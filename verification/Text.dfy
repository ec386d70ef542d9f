/** The string operations of the scripts' runtime that several components share. */
module Text {

  /** White space and line terminators as `trim` knows them (ECMAScript, sections 12.2 and 12.3). */
  predicate IsSpace(c: char) {
    || c == ' ' || '\t' <= c <= '\r' || c == '\U{00A0}' || c == '\U{1680}' || '\U{2000}' <= c <= '\U{200A}'
    || c == '\U{2028}' || c == '\U{2029}' || c == '\U{202F}' || c == '\U{205F}' || c == '\U{3000}' || c == '\U{FEFF}'
  }

  function TrimStart(s: string): string {
    if s != "" && IsSpace(s[0]) then TrimStart(s[1..]) else s
  }

  function TrimEnd(s: string): string {
    if s != "" && IsSpace(s[|s| - 1]) then TrimEnd(s[..|s| - 1]) else s
  }

  function Trim(s: string): string { TrimEnd(TrimStart(s)) }

  predicate IsBlank(s: string) { Trim(s) == "" }

  lemma {:induction false} TrimEndAllSpace(s: string)
    ensures TrimEnd(s) == "" <==> forall k :: 0 <= k < |s| ==> IsSpace(s[k])
    ensures |TrimEnd(s)| <= |s|
  {
    if s != "" && IsSpace(s[|s| - 1]) {
      TrimEndAllSpace(s[..|s| - 1]);
      assert forall k :: 0 <= k < |s| - 1 ==> s[..|s| - 1][k] == s[k];
    }
  }

  /** A string is blank exactly when all its characters are white space. */
  lemma {:induction false} BlankIffAllSpace(s: string)
    ensures IsBlank(s) <==> forall k :: 0 <= k < |s| ==> IsSpace(s[k])
  {
    if s != "" && IsSpace(s[0]) {
      BlankIffAllSpace(s[1..]);
      assert forall k :: 1 <= k < |s| ==> s[k] == s[1..][k - 1];
    } else {
      TrimEndAllSpace(s);
    }
  }

  // ---- what trimming leaves

  ghost predicate AllSpace(s: string) { forall k :: 0 <= k < |s| ==> IsSpace(s[k]) }

  /** No white space at either end. */
  ghost predicate Trimmed(s: string) { s != "" ==> !IsSpace(s[0]) && !IsSpace(s[|s| - 1]) }

  lemma {:induction false} TrimStartIs(a: string, s: string)
    requires AllSpace(a) && (s != "" ==> !IsSpace(s[0]))
    ensures TrimStart(a + s) == s
  {
    if a != "" {
      assert (a + s)[1..] == a[1..] + s;
      TrimStartIs(a[1..], s);
    } else {
      assert a + s == s;
    }
  }

  lemma {:induction false} TrimEndIs(s: string, b: string)
    requires AllSpace(b) && (s != "" ==> !IsSpace(s[|s| - 1]))
    ensures TrimEnd(s + b) == s
  {
    if b != "" {
      assert (s + b)[..|s + b| - 1] == s + b[..|b| - 1];
      TrimEndIs(s, b[..|b| - 1]);
    } else {
      assert s + b == s;
    }
  }

  /** Trimming takes away white space at both ends, all of it and nothing else. */
  lemma TrimIs(a: string, s: string, b: string)
    requires AllSpace(a) && AllSpace(b) && Trimmed(s)
    ensures Trim(a + s + b) == s
  {
    if s == "" {
      BlankIffAllSpace(a + s + b);
    } else {
      assert a + s + b == a + (s + b);
      TrimStartIs(a, s + b);
      TrimEndIs(s, b);
    }
  }

  /** White space and line terminators, one by one. */
  const WHITE_SPACE: set<char> := {'\t', '\n', '\U{B}', '\U{C}', '\r', ' ', '\U{A0}', '\U{1680}', '\U{2000}',
    '\U{2001}',
    '\U{2002}', '\U{2003}', '\U{2004}', '\U{2005}', '\U{2006}', '\U{2007}', '\U{2008}', '\U{2009}', '\U{200A}',
    '\U{2028}', '\U{2029}', '\U{202F}', '\U{205F}', '\U{3000}', '\U{FEFF}'}

  lemma SpaceIff(c: char)
    ensures IsSpace(c) <==> c in WHITE_SPACE
  {
    var code := c as int;
    assert c == code as char;
  }

  // ---- searching

  predicate Contains(s: string, part: string) {
    part <= s || (s != "" && Contains(s[1..], part))
  }

  function LowerChar(c: char): char {
    if 'A' <= c <= 'Z' then c + 32 as char else c
  }

  /** Lower case of the ASCII letters. */
  function ToLower(s: string): string {
    if s == "" then "" else [LowerChar(s[0])] + ToLower(s[1..])
  }

  /** The part stands at position i. */
  ghost predicate StandsAt(s: string, part: string, i: nat) { i + |part| <= |s| && s[i..i + |part|] == part }

  lemma {:induction false} ContainsIff(s: string, part: string)
    ensures Contains(s, part) <==> exists i: nat :: StandsAt(s, part, i)
  {
    if part <= s {
      assert StandsAt(s, part, 0);
    } else if s != "" {
      ContainsIff(s[1..], part);
      if i: nat :| StandsAt(s, part, i) {
        assert i > 0 && s[1..][i - 1..i - 1 + |part|] == s[i..i + |part|];
        assert StandsAt(s[1..], part, i - 1);
      }
      if i: nat :| StandsAt(s[1..], part, i) {
        assert s[i + 1..i + 1 + |part|] == s[1..][i..i + |part|];
        assert StandsAt(s, part, i + 1);
      }
    }
  }

  /** The same character or, for an upper-case letter, the lower-case one at its place in the alphabet. */
  ghost predicate IsCaseOf(c: char, lower: char) {
    if 'A' <= c <= 'Z' then 'a' <= lower <= 'z' && c as int - 'A' as int == lower as int - 'a' as int else c == lower
  }

  lemma LowerIff(c: char, lower: char)
    ensures LowerChar(c) == lower <==> IsCaseOf(c, lower)
  {
  }

  lemma {:induction false} ToLowerAt(s: string)
    ensures |ToLower(s)| == |s| && forall k :: 0 <= k < |s| ==> ToLower(s)[k] == LowerChar(s[k])
  {
    if s != "" { ToLowerAt(s[1..]); }
  }

  /** The text stands at position i of the message, in any case of its letters. */
  ghost predicate OccursAt(message: string, part: string, i: nat) {
    i + |part| <= |message| && forall j :: 0 <= j < |part| ==> IsCaseOf(message[i + j], part[j])
  }

  lemma LowerOccurs(message: string, part: string, i: nat)
    requires i + |part| <= |message|
    ensures |ToLower(message)| == |message|
    ensures StandsAt(ToLower(message), part, i) <==> OccursAt(message, part, i)
  {
    ToLowerAt(message);
    var there := ToLower(message)[i..i + |part|];
    forall j | 0 <= j < |part| ensures there[j] == part[j] <==> IsCaseOf(message[i + j], part[j]) {
      LowerIff(message[i + j], part[j]);
    }
    if OccursAt(message, part, i) { assert there == part; }
  }

  /** A text in lower case is in the message's lower case exactly when it stands somewhere in it in any case. */
  lemma ContainsLower(message: string, part: string)
    ensures Contains(ToLower(message), part) <==> exists i: nat :: OccursAt(message, part, i)
  {
    var lower := ToLower(message);
    ToLowerAt(message);
    ContainsIff(lower, part);
    if i: nat :| StandsAt(lower, part, i) { LowerOccurs(message, part, i); }
    if i: nat :| OccursAt(message, part, i) {
      LowerOccurs(message, part, i);
      assert StandsAt(lower, part, i);
    }
  }

  function IndexOf(s: string, c: char): (i: nat)
    ensures i <= |s|
    ensures i < |s| ==> s[i] == c
    ensures forall j :: 0 <= j < i ==> s[j] != c
  {
    if s == "" || s[0] == c then 0 else 1 + IndexOf(s[1..], c)
  }

  /** `split` at a one-character separator: always at least one part. */
  function SplitOn(s: string, c: char): (parts: seq<string>)
    ensures parts != []
  {
    var i := IndexOf(s, c);
    if i == |s| then [s] else [s[..i]] + SplitOn(s[i + 1..], c)
  }

  function Join(parts: seq<string>, c: char): string {
    if parts == [] then "" else if |parts| == 1 then parts[0] else parts[0] + [c] + Join(parts[1..], c)
  }

  ghost predicate Free(parts: seq<string>, c: char) { forall k :: 0 <= k < |parts| ==> c !in parts[k] }

  lemma {:induction false} JoinSplit(s: string, c: char)
    ensures Join(SplitOn(s, c), c) == s
    ensures Free(SplitOn(s, c), c)
    decreases |s|
  {
    var i := IndexOf(s, c);
    if i < |s| {
      JoinSplit(s[i + 1..], c);
      assert SplitOn(s, c)[1..] == SplitOn(s[i + 1..], c);
      assert s == s[..i] + [c] + s[i + 1..];
    }
  }

  lemma IndexOfIs(s: string, c: char, i: nat)
    requires i <= |s| && c !in s[..i]
    requires i == |s| || s[i] == c
    ensures IndexOf(s, c) == i
  {
    assert forall j :: 0 <= j < i ==> s[j] == s[..i][j];
  }

  lemma {:induction false} SplitJoin(parts: seq<string>, c: char)
    requires parts != [] && Free(parts, c)
    ensures SplitOn(Join(parts, c), c) == parts
    decreases |parts|
  {
    var s, i := Join(parts, c), |parts[0]|;
    assert s[..i] == parts[0];
    IndexOfIs(s, c, i);
    if |parts| > 1 {
      assert s[i + 1..] == Join(parts[1..], c);
      SplitJoin(parts[1..], c);
    }
  }
}
