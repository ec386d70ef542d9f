/** Two scanners over the same text (scripts/check-temp-path-guardrails.ts): one finds the parenthesis that closes
    a call, the other splits the text between at its top-level commas. */
module ArgumentScanner {
  import opened Sequences
  import opened Text

  datatype Quote = Unquoted | Quoted(quote: char, escaped: bool)

  predicate IsQuote(c: char) { c == '\'' || c == '"' || c == '`' }

  /** `consumeQuotedChar` and `beginQuotedSection` together: what a character does to the quote state. */
  function QuoteStep(q: Quote, c: char): Quote {
    match q
    case Unquoted => if IsQuote(c) then Quoted(c, false) else Unquoted
    case Quoted(quote, escaped) =>
      if escaped then Quoted(quote, false)
      else if c == '\\' then Quoted(quote, true)
      else if c == quote then Unquoted
      else q
  }

  /** Whether the character is code: not quoted and not the start of a quote. */
  predicate IsCode(q: Quote, c: char) { q == Unquoted && !IsQuote(c) }

  // ---- the matcher

  datatype Matcher = Matcher(q: Quote, depth: nat)

  function MatchStep(m: Matcher, c: char): Matcher {
    Matcher(QuoteStep(m.q, c),
            if IsCode(m.q, c) && c == '(' then m.depth + 1
            else if IsCode(m.q, c) && c == ')' && m.depth > 0 then m.depth - 1 else m.depth)
  }

  /** The matcher after a text, started just behind the opening parenthesis. */
  function MatchAll(s: string): Matcher {
    if s == "" then Matcher(Unquoted, 1) else MatchStep(MatchAll(s[..|s| - 1]), s[|s| - 1])
  }

  /** The matcher in front of position i. */
  function MatcherAt(source: string, open: nat, i: nat): Matcher
    requires open < i <= |source|
  {
    MatchAll(source[open + 1..i])
  }

  /** Position i closes the parenthesis opened at `open`: behind it the depth is zero for the first time. */
  ghost predicate Closes(source: string, open: nat, i: nat) {
    && open < i < |source|
    && MatcherAt(source, open, i + 1).depth == 0
    && forall j :: open < j <= i ==> MatcherAt(source, open, j).depth > 0
  }

  lemma MatcherNext(source: string, open: nat, i: nat)
    requires open < i < |source|
    ensures MatcherAt(source, open, i + 1) == MatchStep(MatcherAt(source, open, i), source[i])
  {
    assert source[open + 1..i + 1][..i - open - 1] == source[open + 1..i];
  }

  /** The closing parenthesis, or -1 if the text ends before it. */
  method FindMatchingParen(source: string, openIndex: nat) returns (r: int)
    requires openIndex < |source|
    ensures r == -1 || (r >= 0 && Closes(source, openIndex, r))
    ensures r == -1 <==> forall i: nat :: !Closes(source, openIndex, i)
  {
    var depth := 1;
    var q := Unquoted;
    var i := openIndex + 1;
    while i < |source|
      invariant openIndex < i <= |source| && depth > 0
      invariant MatcherAt(source, openIndex, i) == Matcher(q, depth)
      invariant forall j :: openIndex < j <= i ==> MatcherAt(source, openIndex, j).depth > 0
    {
      var ch := source[i];
      MatcherNext(source, openIndex, i);
      if q == Unquoted && !IsQuote(ch) {
        if ch == '(' {
          depth := depth + 1;
        } else if ch == ')' {
          depth := depth - 1;
          if depth == 0 { return i; }
        }
      }
      q := QuoteStep(q, ch);
      i := i + 1;
    }
    return -1;
  }

  // ---- the splitter

  datatype Scan = Scan(q: Quote, paren: nat, bracket: nat, brace: nat)

  const NEUTRAL := Scan(Unquoted, 0, 0, 0)

  function Deeper(up: bool, down: bool, depth: nat): nat {
    if up then depth + 1 else if down && depth > 0 then depth - 1 else depth
  }

  function ScanStep(s: Scan, c: char): Scan {
    var code := IsCode(s.q, c);
    Scan(QuoteStep(s.q, c), Deeper(code && c == '(', code && c == ')', s.paren),
         Deeper(code && c == '[', code && c == ']', s.bracket), Deeper(code && c == '{', code && c == '}', s.brace))
  }

  function ScanAll(s: Scan, text: string): Scan
    decreases |text|
  {
    if text == "" then s else ScanAll(ScanStep(s, text[0]), text[1..])
  }

  predicate Separates(s: Scan, c: char) { c == ',' && s == NEUTRAL }

  /** The raw pieces between top-level commas; there is always a last one. */
  function Pieces(s: Scan, current: string, text: string): (r: seq<string>)
    ensures r != []
    decreases |text|
  {
    if text == "" then [current]
    else if Separates(s, text[0]) then [current] + Pieces(s, "", text[1..])
    else Pieces(ScanStep(s, text[0]), current + [text[0]], text[1..])
  }

  function TrimAll(pieces: seq<string>): (r: seq<string>)
    ensures |r| == |pieces| && forall k :: 0 <= k < |r| ==> r[k] == Trim(pieces[k])
  {
    if pieces == [] then [] else TrimAll(pieces[..|pieces| - 1]) + [Trim(pieces[|pieces| - 1])]
  }

  /** The arguments: every piece trimmed, a blank last one dropped. */
  function Arguments(source: string): seq<string> {
    var pieces := Pieces(NEUTRAL, "", source);
    var last := Trim(pieces[|pieces| - 1]);
    TrimAll(pieces[..|pieces| - 1]) + if last == "" then [] else [last]
  }

  /** What is left to split, by its first character. */
  lemma PiecesNext(s: Scan, current: string, source: string, i: nat)
    requires i < |source|
    ensures Pieces(s, current, source[i..])
         == if Separates(s, source[i]) then [current] + Pieces(s, "", source[i + 1..])
            else Pieces(ScanStep(s, source[i]), current + [source[i]], source[i + 1..])
  {
    assert source[i..][0] == source[i] && source[i..][1..] == source[i + 1..];
  }

  lemma TrimAllSnoc(done: seq<string>, piece: string)
    ensures TrimAll(done + [piece]) == TrimAll(done) + [Trim(piece)]
  {
    assert (done + [piece])[..|done|] == done;
  }

  lemma ArgumentsAre(source: string, done: seq<string>, last: string)
    requires Pieces(NEUTRAL, "", source) == done + [last]
    ensures Arguments(source) == TrimAll(done) + if Trim(last) == "" then [] else [Trim(last)]
  {
    assert (done + [last])[..|done|] == done;
  }

  method SplitTopLevelArguments(source: string) returns (out: seq<string>)
    ensures out == Arguments(source)
  {
    out := [];
    ghost var done: seq<string> := [];
    ghost var all := Pieces(NEUTRAL, "", source);
    var current := "";
    var paren, bracket, brace, q := 0, 0, 0, Unquoted;
    var i := 0;
    ghost var rest := all;
    assert source[0..] == source && done + rest == all;
    while i < |source|
      invariant 0 <= i <= |source| && paren >= 0 && bracket >= 0 && brace >= 0
      invariant out == TrimAll(done) && done + rest == all
      invariant rest == Pieces(Scan(q, paren, bracket, brace), current, source[i..])
    {
      var ch := source[i];
      PiecesNext(Scan(q, paren, bracket, brace), current, source, i);
      if q == Unquoted && !IsQuote(ch) && ch == ',' && paren == 0 && bracket == 0 && brace == 0 {
        rest := Pieces(NEUTRAL, "", source[i + 1..]);
        Associative(done, [current], rest);
        TrimAllSnoc(done, current);
        out := out + [Trim(current)];
        done := done + [current];
        current := "";
      } else {
        if q == Unquoted && !IsQuote(ch) {
          paren, bracket, brace := CountBracket(ch, paren, bracket, brace);
        }
        q := QuoteStep(q, ch);
        current := current + [ch];
      }
      i := i + 1;
    }
    assert rest == [current];
    ArgumentsAre(source, done, current);
    if Trim(current) != "" {
      out := out + [Trim(current)];
    }
  }

  /** One bracket outside quotes; a closing one never takes a depth below zero. */
  method CountBracket(ch: char, p: nat, k: nat, b: nat) returns (paren: nat, bracket: nat, brace: nat)
    ensures !IsQuote(ch) ==> Scan(Unquoted, paren, bracket, brace) == ScanStep(Scan(Unquoted, p, k, b), ch)
  {
    paren, bracket, brace := p, k, b;
    if ch == '(' {
      paren := paren + 1;
    } else if ch == ')' {
      if paren > 0 { paren := paren - 1; }
    } else if ch == '[' {
      bracket := bracket + 1;
    } else if ch == ']' {
      if bracket > 0 { bracket := bracket - 1; }
    } else if ch == '{' {
      brace := brace + 1;
    } else if ch == '}' {
      if brace > 0 { brace := brace - 1; }
    }
  }

  // ---- splitting and joining

  /** Rejoined with commas, the raw pieces are the text. */
  lemma {:induction false} PiecesRejoin(s: Scan, current: string, text: string)
    ensures Join(Pieces(s, current, text), ',') == current + text
    decreases |text|
  {
    if text == "" {
      assert current + text == current;
    } else if Separates(s, text[0]) {
      PiecesRejoin(s, "", text[1..]);
      var rest := Pieces(s, "", text[1..]);
      assert ([current] + rest)[1..] == rest;
      assert current + text == current + [','] + ("" + text[1..]);
    } else {
      PiecesRejoin(ScanStep(s, text[0]), current + [text[0]], text[1..]);
      assert current + text == current + [text[0]] + text[1..];
    }
  }

  /** No comma of the text separates when scanning it from s. */
  predicate NoSeparator(s: Scan, text: string)
    decreases |text|
  {
    text != "" ==> !Separates(s, text[0]) && NoSeparator(ScanStep(s, text[0]), text[1..])
  }

  /** An argument in the middle of a list: it scans from neutral to neutral without a top-level comma. */
  predicate Complete(arg: string) { NoSeparator(NEUTRAL, arg) && ScanAll(NEUTRAL, arg) == NEUTRAL }

  lemma {:induction false} PiecesPrefix(s: Scan, current: string, a: string, b: string)
    requires NoSeparator(s, a)
    ensures Pieces(s, current, a + b) == Pieces(ScanAll(s, a), current + a, b)
    decreases |a|
  {
    if a == "" {
      assert a + b == b && current + a == current;
    } else {
      assert (a + b)[1..] == a[1..] + b;
      PiecesPrefix(ScanStep(s, a[0]), current + [a[0]], a[1..], b);
      assert current + [a[0]] + a[1..] == current + a;
    }
  }

  /** A list of pieces as the splitter makes them. */
  ghost predicate PieceList(pieces: seq<string>) {
    && pieces != []
    && (forall k :: 0 <= k < |pieces| - 1 ==> Complete(pieces[k]))
    && NoSeparator(NEUTRAL, pieces[|pieces| - 1])
  }

  /** Splitting undoes joining. */
  lemma {:induction false} JoinedPieces(pieces: seq<string>)
    requires PieceList(pieces)
    ensures Pieces(NEUTRAL, "", Join(pieces, ',')) == pieces
    decreases |pieces|
  {
    var first := pieces[0];
    assert "" + first == first;
    if |pieces| == 1 {
      PiecesPrefix(NEUTRAL, "", first, "");
      assert first + "" == first;
    } else {
      var rest := Join(pieces[1..], ',');
      assert Complete(pieces[0]);
      assert first + [','] + rest == first + ([','] + rest);
      PiecesPrefix(NEUTRAL, "", first, [','] + rest);
      assert ([','] + rest)[1..] == rest;
      assert forall k :: 0 <= k < |pieces[1..]| ==> pieces[1..][k] == pieces[k + 1];
      JoinedPieces(pieces[1..]);
      assert pieces == [pieces[0]] + pieces[1..];
    }
  }

  lemma {:induction false} NoSeparatorSnoc(s: Scan, a: string, c: char)
    requires NoSeparator(s, a) && !Separates(ScanAll(s, a), c)
    ensures NoSeparator(s, a + [c]) && ScanAll(s, a + [c]) == ScanStep(ScanAll(s, a), c)
    decreases |a|
  {
    if a != "" {
      assert (a + [c])[1..] == a[1..] + [c];
      NoSeparatorSnoc(ScanStep(s, a[0]), a[1..], c);
    } else {
      assert (a + [c])[1..] == "";
    }
  }

  lemma {:induction false} PiecesAreAList(current: string, text: string)
    requires NoSeparator(NEUTRAL, current)
    ensures PieceList(Pieces(ScanAll(NEUTRAL, current), current, text))
    decreases |text|
  {
    var s := ScanAll(NEUTRAL, current);
    if text != "" {
      if Separates(s, text[0]) {
        PiecesAreAList("", text[1..]);
        var rest := Pieces(s, "", text[1..]);
        var all := [current] + rest;
        assert Complete(current);
        forall k | 0 <= k < |all| - 1 ensures Complete(all[k]) { if k > 0 { assert all[k] == rest[k - 1]; } }
      } else {
        NoSeparatorSnoc(NEUTRAL, current, text[0]);
        PiecesAreAList(current + [text[0]], text[1..]);
      }
    }
  }

  /** The raw pieces of any text are the only list of complete pieces, up to the last one, whose join is the text. */
  lemma PiecesUnique(source: string, pieces: seq<string>)
    ensures PieceList(pieces) && Join(pieces, ',') == source <==> pieces == Pieces(NEUTRAL, "", source)
  {
    PiecesAreAList("", source);
    PiecesRejoin(NEUTRAL, "", source);
    assert "" + source == source;
    if PieceList(pieces) && Join(pieces, ',') == source { JoinedPieces(pieces); }
  }

  /** Joining arguments and splitting the result gives them back trimmed; only a blank last one is dropped. */
  lemma ArgumentsOfJoin(args: seq<string>)
    requires PieceList(args)
    ensures Arguments(Join(args, ','))
         == if IsBlank(args[|args| - 1]) then TrimAll(args[..|args| - 1]) else TrimAll(args)
  {
    JoinedPieces(args);
    assert TrimAll(args[..|args| - 1]) + [] == TrimAll(args[..|args| - 1]);
  }

  // ---- the two scanners agree

  lemma ScanSnoc(s: Scan, text: string, c: char)
    ensures ScanAll(s, text + [c]) == ScanStep(ScanAll(s, text), c)
    decreases |text|
  {
    if text != "" {
      assert (text + [c])[1..] == text[1..] + [c];
      ScanSnoc(ScanStep(s, text[0]), text[1..], c);
    } else {
      assert (text + [c])[1..] == "";
    }
  }

  /** The splitter in front of position i, started behind the opening parenthesis. */
  function ScannerAt(source: string, open: nat, i: nat): Scan
    requires open < i <= |source|
  {
    ScanAll(NEUTRAL, source[open + 1..i])
  }

  lemma ScannerNext(source: string, open: nat, i: nat)
    requires open < i < |source|
    ensures ScannerAt(source, open, i + 1) == ScanStep(ScannerAt(source, open, i), source[i])
  {
    assert source[open + 1..i + 1] == source[open + 1..i] + [source[i]];
    ScanSnoc(NEUTRAL, source[open + 1..i], source[i]);
  }

  /** Between an opening parenthesis and the one found for it, the splitter has the matcher's quotes and one
      parenthesis less, so its guard against negative depths never fires. */
  lemma {:induction false} ScannersAgree(source: string, open: nat, close: nat, i: nat)
    requires Closes(source, open, close) && open < i <= close
    ensures var (m, s) := (MatcherAt(source, open, i), ScannerAt(source, open, i));
      && s.q == m.q && s.paren + 1 == m.depth
      && (i < close && IsCode(s.q, source[i]) && source[i] == ')' ==> s.paren > 0)
    decreases i
  {
    if i > open + 1 {
      ScannersAgree(source, open, close, i - 1);
      ScannerNext(source, open, i - 1);
      MatcherNext(source, open, i - 1);
    } else {
      assert source[open + 1..i] == "";
    }
    assert MatcherAt(source, open, i).depth > 0;
    MatcherNext(source, open, i);
    assert i < close ==> MatcherAt(source, open, i + 1).depth > 0;
  }

  /** What the splitter is given is parenthesis-balanced: it ends unquoted at depth zero. */
  lemma FoundSliceIsBalanced(source: string, open: nat, close: nat)
    requires Closes(source, open, close)
    ensures var s := ScanAll(NEUTRAL, source[open + 1..close]); s.q == Unquoted && s.paren == 0 && source[close] == ')'
  {
    ScannersAgree(source, open, close, close);
    MatcherNext(source, open, close);
  }
}
