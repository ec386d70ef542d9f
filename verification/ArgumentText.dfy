/** Calls printed with every quote and bracket written out, and how the two scanners read them
    (scripts/check-temp-path-guardrails.ts). */
module ArgumentText {
  import opened Sequences
  import opened Text
  import opened ArgumentScanner

  datatype QuoteKind = Single | Double | Template

  datatype BracketKind = Round | Square | Curly

  /** A character between quotes, as it is or behind a backslash. */
  datatype QuotedChar = Itself(c: char) | Escaped(c: char)

  /** A piece of code: plain characters, quoted texts, and groups in brackets. */
  datatype Code =
    | End
    | Plain(c: char, rest: Code)
    | Quotation(kind: QuoteKind, chars: seq<QuotedChar>, rest: Code)
    | Group(bracket: BracketKind, body: Code, rest: Code)

  function QuoteMark(kind: QuoteKind): char {
    match kind
    case Single => '\''
    case Double => '"'
    case Template => '`'
  }

  function OpenMark(kind: BracketKind): char {
    match kind
    case Round => '('
    case Square => '['
    case Curly => '{'
  }

  function CloseMark(kind: BracketKind): char {
    match kind
    case Round => ')'
    case Square => ']'
    case Curly => '}'
  }

  function PrintQuoted(chars: seq<QuotedChar>): string {
    if chars == [] then ""
    else (if chars[0].Itself? then [chars[0].c] else ['\\', chars[0].c]) + PrintQuoted(chars[1..])
  }

  function Print(code: Code): string {
    match code
    case End => ""
    case Plain(c, rest) => [c] + Print(rest)
    case Quotation(kind, chars, rest) => [QuoteMark(kind)] + PrintQuoted(chars) + [QuoteMark(kind)] + Print(rest)
    case Group(kind, body, rest) => [OpenMark(kind)] + Print(body) + [CloseMark(kind)] + Print(rest)
  }

  const MARKS := {'\'', '"', '`', '(', ')', '[', ']', '{', '}'}

  /** Plain characters are no marks, and quoted ones end no quotation. Commas between groups and quotations are allowed
      or not; inside they always are. */
  ghost predicate Good(code: Code, commas: bool) {
    match code
    case End => true
    case Plain(c, rest) => c !in MARKS && (c == ',' ==> commas) && Good(rest, commas)
    case Quotation(kind, chars, rest) =>
      (forall k :: 0 <= k < |chars| && chars[k].Itself? ==> chars[k].c != QuoteMark(kind) && chars[k].c != '\\')
      && Good(rest, commas)
    case Group(_, body, rest) => Good(body, true) && Good(rest, commas)
  }

  // ---- what a text does to both scanners

  /** The matcher that goes with the splitter: one parenthesis more. */
  function MatcherOf(s: Scan): Matcher { Matcher(s.q, s.paren + 1) }

  /** The text takes the splitter from s to t and the matcher with it, which never leaves the open parenthesis. */
  ghost predicate Moves(s: Scan, text: string, t: Scan)
    decreases |text|
  {
    if text == "" then s == t
    else
      var next := ScanStep(s, text[0]);
      MatchStep(MatcherOf(s), text[0]) == MatcherOf(next) && Moves(next, text[1..], t)
  }

  lemma {:induction false} MovesAppend(s: Scan, a: string, t: Scan, b: string, u: Scan)
    requires Moves(s, a, t) && Moves(t, b, u)
    ensures Moves(s, a + b, u)
    decreases |a|
  {
    if a == "" {
      assert a + b == b;
    } else {
      assert (a + b)[1..] == a[1..] + b;
      MovesAppend(ScanStep(s, a[0]), a[1..], t, b, u);
    }
  }

  lemma {:induction false} NoSeparatorAppend(s: Scan, a: string, b: string)
    requires NoSeparator(s, a) && NoSeparator(ScanAll(s, a), b)
    ensures NoSeparator(s, a + b)
    decreases |a|
  {
    if a == "" {
      assert a + b == b;
    } else {
      assert (a + b)[1..] == a[1..] + b;
      NoSeparatorAppend(ScanStep(s, a[0]), a[1..], b);
    }
  }

  lemma {:induction false} MovesScan(s: Scan, text: string, t: Scan)
    requires Moves(s, text, t)
    ensures ScanAll(s, text) == t
    decreases |text|
  {
    if text != "" { MovesScan(ScanStep(s, text[0]), text[1..], t); }
  }

  /** The text takes the splitter from s to t without a top-level comma. */
  ghost predicate Passes(s: Scan, text: string, t: Scan) { Moves(s, text, t) && NoSeparator(s, text) }

  lemma PassesAppend(s: Scan, a: string, t: Scan, b: string, u: Scan)
    requires Passes(s, a, t) && Passes(t, b, u)
    ensures Passes(s, a + b, u)
  {
    MovesAppend(s, a, t, b, u);
    MovesScan(s, a, t);
    NoSeparatorAppend(s, a, b);
  }

  lemma StepMoves(s: Scan, c: char)
    requires IsCode(s.q, c) && c == ')' ==> s.paren > 0
    ensures Moves(s, [c], ScanStep(s, c))
    ensures c != ',' || s != NEUTRAL ==> Passes(s, [c], ScanStep(s, c))
  {
    assert [c][1..] == "";
  }

  lemma NothingPasses(s: Scan)
    ensures Passes(s, "", s)
  {
  }

  // ---- quotations

  function InQuote(s: Scan, kind: QuoteKind): Scan { s.(q := Quoted(QuoteMark(kind), false)) }

  lemma QuotedCharPasses(s: Scan, kind: QuoteKind, c: QuotedChar)
    requires s.q == Unquoted && (c.Itself? ==> c.c != QuoteMark(kind) && c.c != '\\')
    ensures var text := if c.Itself? then [c.c] else ['\\', c.c]; Passes(InQuote(s, kind), text, InQuote(s, kind))
  {
    var inside := InQuote(s, kind);
    if c.Itself? {
      StepMoves(inside, c.c);
    } else {
      var escaped := s.(q := Quoted(QuoteMark(kind), true));
      StepMoves(inside, '\\');
      StepMoves(escaped, c.c);
      PassesAppend(inside, ['\\'], escaped, [c.c], inside);
      assert ['\\'] + [c.c] == ['\\', c.c];
    }
  }

  lemma {:induction false} QuotedPasses(s: Scan, kind: QuoteKind, chars: seq<QuotedChar>)
    requires s.q == Unquoted
    requires forall k :: 0 <= k < |chars| && chars[k].Itself? ==> chars[k].c != QuoteMark(kind) && chars[k].c != '\\'
    ensures Passes(InQuote(s, kind), PrintQuoted(chars), InQuote(s, kind))
  {
    var inside := InQuote(s, kind);
    if chars == [] {
      NothingPasses(inside);
    } else {
      QuotedCharPasses(s, kind, chars[0]);
      QuotedPasses(s, kind, chars[1..]);
      PassesAppend(inside, if chars[0].Itself? then [chars[0].c] else ['\\', chars[0].c], inside,
                   PrintQuoted(chars[1..]), inside);
    }
  }

  lemma QuotationPasses(s: Scan, kind: QuoteKind, chars: seq<QuotedChar>)
    requires s.q == Unquoted
    requires forall k :: 0 <= k < |chars| && chars[k].Itself? ==> chars[k].c != QuoteMark(kind) && chars[k].c != '\\'
    ensures Passes(s, [QuoteMark(kind)] + PrintQuoted(chars) + [QuoteMark(kind)], s)
  {
    var mark, inside := QuoteMark(kind), InQuote(s, kind);
    StepMoves(s, mark);
    QuotedPasses(s, kind, chars);
    StepMoves(inside, mark);
    PassesAppend(s, [mark], inside, PrintQuoted(chars), inside);
    PassesAppend(s, [mark] + PrintQuoted(chars), inside, [mark], s);
  }

  // ---- groups

  function InGroup(s: Scan, kind: BracketKind): Scan {
    match kind
    case Round => s.(paren := s.paren + 1)
    case Square => s.(bracket := s.bracket + 1)
    case Curly => s.(brace := s.brace + 1)
  }

  lemma BracketsPass(s: Scan, kind: BracketKind)
    requires s.q == Unquoted
    ensures Passes(s, [OpenMark(kind)], InGroup(s, kind)) && Passes(InGroup(s, kind), [CloseMark(kind)], s)
    ensures InGroup(s, kind) != NEUTRAL
  {
    StepMoves(s, OpenMark(kind));
    StepMoves(InGroup(s, kind), CloseMark(kind));
  }

  lemma GroupPasses(s: Scan, kind: BracketKind, body: string)
    requires s.q == Unquoted && Passes(InGroup(s, kind), body, InGroup(s, kind))
    ensures Passes(s, [OpenMark(kind)] + body + [CloseMark(kind)], s)
  {
    var inside := InGroup(s, kind);
    BracketsPass(s, kind);
    PassesAppend(s, [OpenMark(kind)], inside, body, inside);
    PassesAppend(s, [OpenMark(kind)] + body, inside, [CloseMark(kind)], s);
  }

  /** Printed code leaves both scanners as they were; it has no top-level comma if none was allowed, or where no comma
      is
      a top-level one. */
  lemma {:induction false} PrintedMoves(s: Scan, code: Code, commas: bool)
    requires s.q == Unquoted && Good(code, commas)
    ensures Moves(s, Print(code), s) && (!commas || s != NEUTRAL ==> Passes(s, Print(code), s))
    decreases code
  {
    match code
    case End => NothingPasses(s);
    case Plain(c, rest) =>
      PrintedMoves(s, rest, commas);
      StepMoves(s, c);
      MovesBoth(s, [c], Print(rest), !commas || s != NEUTRAL);
    case Quotation(kind, chars, rest) =>
      PrintedMoves(s, rest, commas);
      QuotationPasses(s, kind, chars);
      MovesBoth(s, [QuoteMark(kind)] + PrintQuoted(chars) + [QuoteMark(kind)], Print(rest), !commas || s != NEUTRAL);
    case Group(kind, body, rest) =>
      PrintedMoves(s, rest, commas);
      BracketsPass(s, kind);
      PrintedMoves(InGroup(s, kind), body, true);
      GroupPasses(s, kind, Print(body));
      MovesBoth(s, [OpenMark(kind)] + Print(body) + [CloseMark(kind)], Print(rest), !commas || s != NEUTRAL);
  }

  lemma MovesBoth(s: Scan, a: string, b: string, passes: bool)
    requires Moves(s, a, s) && Moves(s, b, s) && (passes ==> Passes(s, a, s) && Passes(s, b, s))
    ensures Moves(s, a + b, s) && (passes ==> Passes(s, a + b, s))
  {
    MovesAppend(s, a, s, b, s);
    if passes { PassesAppend(s, a, s, b, s); }
  }

  // ---- arguments

  /** A printed argument is complete, whatever commas and brackets stand in its quotations and groups. */
  lemma PrintedIsComplete(code: Code)
    requires Good(code, false)
    ensures Complete(Print(code))
  {
    PrintedMoves(NEUTRAL, code, false);
    MovesScan(NEUTRAL, Print(code), NEUTRAL);
  }

  function PrintAll(args: seq<Code>): (r: seq<string>)
    ensures |r| == |args| && forall k :: 0 <= k < |r| ==> r[k] == Print(args[k])
  {
    if args == [] then [] else [Print(args[0])] + PrintAll(args[1..])
  }

  ghost predicate GoodArguments(args: seq<Code>) { forall k :: 0 <= k < |args| ==> Good(args[k], false) }

  /** What splitting makes of arguments: each of them trimmed, and a blank last one, as behind a trailing comma,
      dropped. */
  function Split(args: seq<Code>): seq<string>
    requires args != []
  {
    var n := |args| - 1;
    TrimAll(PrintAll(if IsBlank(Print(args[n])) then args[..n] else args))
  }

  /** Printed arguments come back from their list. */
  lemma PrintedArguments(args: seq<Code>)
    requires args != [] && GoodArguments(args)
    ensures Arguments(Join(PrintAll(args), ',')) == Split(args)
  {
    forall k | 0 <= k < |args| ensures Complete(PrintAll(args)[k]) { PrintedIsComplete(args[k]); }
    ArgumentsOfJoin(PrintAll(args));
    assert PrintAll(args)[..|args| - 1] == PrintAll(args[..|args| - 1]);
  }

  // ---- the call's closing parenthesis

  lemma {:induction false} JoinMoves(args: seq<Code>)
    requires GoodArguments(args)
    ensures Moves(NEUTRAL, Join(PrintAll(args), ','), NEUTRAL)
  {
    if args != [] {
      PrintedMoves(NEUTRAL, args[0], false);
      if |args| > 1 {
        JoinMoves(args[1..]);
        StepMoves(NEUTRAL, ',');
        MovesAppend(NEUTRAL, Print(args[0]), NEUTRAL, [','], NEUTRAL);
        MovesAppend(NEUTRAL, Print(args[0]) + [','], NEUTRAL, Join(PrintAll(args[1..]), ','), NEUTRAL);
        assert PrintAll(args)[1..] == PrintAll(args[1..]);
      }
    }
  }

  lemma {:induction false} MatchAllMoves(done: string, s: Scan, text: string, t: Scan, n: nat)
    requires MatchAll(done) == MatcherOf(s) && Moves(s, text, t) && n <= |text|
    ensures MatchAll(done + text[..n]).depth > 0 && (n == |text| ==> MatchAll(done + text) == MatcherOf(t))
    decreases |text|
  {
    if n == 0 {
      assert done + text[..0] == done;
      if text == "" { assert done + text == done; }
    } else {
      assert (done + [text[0]])[..|done|] == done;
      assert done + [text[0]] + text[1..][..n - 1] == done + text[..n];
      assert done + [text[0]] + text[1..] == done + text;
      MatchAllMoves(done + [text[0]], ScanStep(s, text[0]), text[1..], t, n - 1);
    }
  }

  /** The matcher is still inside the parenthesis anywhere in the text, and just inside behind it. */
  ghost predicate StaysInside(body: string) {
    (forall n: nat :: n <= |body| ==> MatchAll(body[..n]).depth > 0) && MatchAll(body) == Matcher(Unquoted, 1)
  }

  lemma MovesStays(body: string)
    requires Moves(NEUTRAL, body, NEUTRAL)
    ensures StaysInside(body)
  {
    forall n: nat | n <= |body| ensures MatchAll(body[..n]).depth > 0 {
      MatchAllMoves("", NEUTRAL, body, NEUTRAL, n);
      assert "" + body[..n] == body[..n];
    }
    MatchAllMoves("", NEUTRAL, body, NEUTRAL, |body|);
    assert "" + body == body;
  }

  lemma MatcherInside(source: string, open: nat, body: string, n: nat)
    requires open + 1 + |body| <= |source| && source[open + 1..open + 1 + |body|] == body
    requires n <= |body| && StaysInside(body)
    ensures MatcherAt(source, open, open + 1 + n).depth > 0
  {
    assert source[open + 1..open + 1 + n] == body[..n];
  }

  lemma ClosedBehind(source: string, open: nat, close: nat, body: string)
    requires close == open + 1 + |body| < |source| && source[open + 1..close] == body && source[close] == ')'
    requires StaysInside(body)
    ensures Closes(source, open, close)
  {
    forall j | open < j <= close ensures MatcherAt(source, open, j).depth > 0 {
      MatcherInside(source, open, body, j - open - 1);
    }
    MatcherNext(source, open, close);
  }

  lemma BodyAt(before: string, body: string, after: string)
    ensures var source, close := before + "(" + body + ")" + after, |before| + 1 + |body|;
      close < |source| && source[close] == ')' && source[|before| + 1..close] == body
  {
  }

  /** A body that the matcher stays inside of is closed by the parenthesis behind it. */
  lemma MovesCloses(before: string, body: string, after: string)
    requires StaysInside(body)
    ensures Closes(before + "(" + body + ")" + after, |before|, |before| + 1 + |body|)
  {
    BodyAt(before, body, after);
    ClosedBehind(before + "(" + body + ")" + after, |before|, |before| + 1 + |body|, body);
  }

  lemma ClosesOnce(source: string, open: nat, i: nat, j: nat)
    requires Closes(source, open, i) && Closes(source, open, j)
    ensures i == j
  {
  }

  /** Behind the parenthesis of a call, any printed code is closed by the parenthesis printed behind it and by no other,
      whatever follows. */
  lemma PrintedCloses(before: string, body: Code, after: string, i: nat)
    requires Good(body, true)
    ensures Closes(before + "(" + Print(body) + ")" + after, |before|, i) <==> i == |before| + 1 + |Print(body)|
  {
    PrintedMoves(NEUTRAL, body, true);
    MovesStays(Print(body));
    MovesCloses(before, Print(body), after);
    var source := before + "(" + Print(body) + ")" + after;
    if Closes(source, |before|, i) { ClosesOnce(source, |before|, i, |before| + 1 + |Print(body)|); }
  }

  /** The two scanners together: from a printed call its arguments are found, wherever it stands. */
  method ArgumentsOfCall(before: string, args: seq<Code>, after: string) returns (found: seq<string>)
    requires args != [] && GoodArguments(args)
    ensures found == Split(args)
  {
    var list := Join(PrintAll(args), ',');
    var source := before + "(" + list + ")" + after;
    JoinMoves(args);
    MovesStays(list);
    MovesCloses(before, list, after);
    var close := FindMatchingParen(source, |before|);
    ClosesOnce(source, |before|, close, |before| + 1 + |list|);
    assert source[|before| + 1..close] == list;
    PrintedArguments(args);
    found := SplitTopLevelArguments(source[|before| + 1..close]);
  }
}
