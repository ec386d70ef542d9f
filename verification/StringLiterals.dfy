/** Reading Swift and Kotlin string literals out of source text (scripts/native-app-i18n.ts), and the printers
    that they undo. */
module StringLiterals {
  import opened Wrappers
  import opened Sequences

  /** Swift interpolates with \( ), Kotlin with ${ }. */
  datatype Dialect = Swift | Kotlin

  function Mark(d: Dialect): char { if d == Swift then '\\' else '$' }
  function Open(d: Dialect): char { if d == Swift then '(' else '{' }
  function Close(d: Dialect): char { if d == Swift then ')' else '}' }

  // ---- the readers, as functions of the text that is left

  /** The inside of an interpolation: nesting, and strings with escapes. */
  datatype Inside = Inside(depth: nat, quoted: bool, escaped: bool)

  function InsideStep(d: Dialect, st: Inside, c: char): Inside {
    if st.escaped then st.(escaped := false)
    else if st.quoted && c == '\\' then st.(escaped := true)
    else if c == '"' then st.(quoted := !st.quoted)
    else if !st.quoted && c == Open(d) then st.(depth := st.depth + 1)
    else if !st.quoted && c == Close(d) && st.depth > 0 then st.(depth := st.depth - 1)
    else st
  }

  /** How many characters bring the depth down to zero, if any do. */
  function InsideLength(d: Dialect, st: Inside, s: string): (n: Option<nat>)
    ensures n.Some? ==> 0 < n.value <= |s|
    decreases |s|
  {
    if s == "" then None
    else
      var next := InsideStep(d, st, s[0]);
      if next.depth == 0 then Some(1)
      else match InsideLength(d, next, s[1..]) case None => None case Some(n) => Some(n + 1)
  }

  function AddLength(n: nat, r: Option<nat>): Option<nat> { if r.None? then None else Some(n + r.value) }

  function Unescape(d: Dialect, c: char): string {
    if c == 'n' then "\n" else if c == 'r' then "\r" else if c == 't' then "\t"
    else if c == '"' || c == '\\' || (d == Kotlin && c == '$') then [c]
    else ['\\', c]
  }

  predicate StartsInterpolation(d: Dialect, s: string) { |s| >= 2 && s[0] == Mark(d) && s[1] == Open(d) }

  /** A literal's value and the number of characters it takes, closing quote included. */
  datatype Literal = Literal(value: string, length: nat)

  function After(prefix: string, n: nat, rest: Option<Literal>): Option<Literal> {
    if rest.None? then None else Some(Literal(prefix + rest.value.value, n + rest.value.length))
  }

  const BODY := Inside(1, false, false)

  /** The next thing in a literal: a run of characters with its value, the closing quote, or no literal at all. */
  datatype Token = Chunk(value: string, length: nat) | EndQuote | Unfinished

  function NextToken(d: Dialect, s: string): (t: Token)
    requires s != ""
    ensures t.Chunk? ==> 0 < t.length <= |s|
  {
    if StartsInterpolation(d, s) then
      match InsideLength(d, BODY, s[2..]) case None => Unfinished case Some(n) => Chunk(s[..2 + n], 2 + n)
    else if s[0] == '\\' then
      if |s| == 1 then Unfinished else Chunk(Unescape(d, s[1]), 2)
    else if s[0] == '"' then EndQuote
    else Chunk([s[0]], 1)
  }

  /** Reading behind the opening quote. */
  function ReadBody(d: Dialect, s: string): Option<Literal>
    decreases |s|
  {
    if s == "" then None
    else
      match NextToken(d, s)
      case Chunk(value, n) => After(value, n, ReadBody(d, s[n..]))
      case EndQuote => Some(Literal("", 1))
      case Unfinished => None
  }

  predicate OpensLiteral(s: string) { s != "" && s[0] == '"' && !("\"\"\"" <= s) }

  /** Reading a literal at its opening quote; a triple quote opens another kind of literal. */
  function Read(d: Dialect, s: string): Option<Literal> {
    if OpensLiteral(s) then After("", 1, ReadBody(d, s[1..])) else None
  }

  // ---- the readers, as loops over an index

  /** One character inside an interpolation. */
  method ReadChar(d: Dialect, c: char, depth: nat, quoted: bool, escaped: bool) returns (dep: nat, quo: bool, esc: bool)
    ensures Inside(dep, quo, esc) == InsideStep(d, Inside(depth, quoted, escaped), c)
  {
    dep, quo, esc := depth, quoted, escaped;
    if escaped {
      esc := false;
    } else if quoted && c == '\\' {
      esc := true;
    } else if c == '"' {
      quo := !quoted;
    } else if !quoted && c == Open(d) {
      dep := depth + 1;
    } else if !quoted && c == Close(d) && depth > 0 {
      dep := depth - 1;
    }
  }

  /** What is left to scan behind one character. */
  lemma InsideNext(d: Dialect, st: Inside, source: string, i: nat)
    requires i < |source|
    ensures var next := InsideStep(d, st, source[i]);
      InsideLength(d, st, source[i..])
      == if next.depth == 0 then Some(1) else AddLength(1, InsideLength(d, next, source[i + 1..]))
  {
    assert source[i..][0] == source[i] && source[i..][1..] == source[i + 1..];
  }

  lemma AddLengthTwice(a: nat, b: nat, r: Option<nat>)
    ensures AddLength(a, AddLength(b, r)) == AddLength(a + b, r)
  {
  }

  /** The loop over an interpolation or a block, in any state: the index where the depth comes down to zero. */
  method ScanInside(d: Dialect, source: string, start: nat, st: Inside) returns (end: Option<nat>)
    requires start <= |source|
    ensures match InsideLength(d, st, source[start..])
            case None => end == None
            case Some(n) => end == Some(start + n - 1)
  {
    var depth, quoted, escaped := st.depth, st.quoted, st.escaped;
    var i := start;
    ghost var whole := InsideLength(d, st, source[start..]);
    ghost var rest := whole;
    while i < |source|
      invariant start <= i <= |source|
      invariant rest == InsideLength(d, Inside(depth, quoted, escaped), source[i..])
      invariant whole == AddLength(i - start, rest)
    {
      InsideNext(d, Inside(depth, quoted, escaped), source, i);
      depth, quoted, escaped := ReadChar(d, source[i], depth, quoted, escaped);
      if depth == 0 { return Some(i); }
      rest := InsideLength(d, Inside(depth, quoted, escaped), source[i + 1..]);
      AddLengthTwice(i - start, 1, rest);
      i := i + 1;
    }
    return None;
  }

  /** Inside an interpolation: the index of the closing bracket. */
  method ReadInside(d: Dialect, source: string, start: nat) returns (end: Option<nat>)
    requires start <= |source|
    ensures match InsideLength(d, BODY, source[start..])
            case None => end == None
            case Some(n) => end == Some(start + n - 1)
  {
    end := ScanInside(d, source, start, BODY);
  }

  lemma AfterMore(raw: string, n: nat, prefix: string, k: nat, rest: Option<Literal>)
    ensures After(raw, n, After(prefix, k, rest)) == After(raw + prefix, n + k, rest)
  {
    if rest.Some? { Associative(raw, prefix, rest.value.value); }
  }

  lemma SliceFrom(source: string, i: nat, k: nat)
    requires i + k <= |source|
    ensures source[i..][k..] == source[i + k..] && source[i..][..k] == source[i..i + k]
  {
  }

  lemma NextTokenAt(d: Dialect, source: string, i: nat)
    requires i < |source|
    ensures source[i..] != "" && source[i..][0] == source[i]
    ensures i + 1 < |source| ==> source[i..][1] == source[i + 1] && source[i..][2..] == source[i + 2..]
    ensures StartsInterpolation(d, source[i..])
         <==> i + 1 < |source| && source[i] == Mark(d) && source[i + 1] == Open(d)
  {
  }

  /** An interpolation at i, up to its closing bracket. */
  method ReadInterpolation(d: Dialect, source: string, i: nat) returns (t: Token)
    requires i + 1 < |source| && source[i] == Mark(d) && source[i + 1] == Open(d)
    ensures t == NextToken(d, source[i..])
  {
    NextTokenAt(d, source, i);
    var end := ReadInside(d, source, i + 2);
    if end.None? { return Unfinished; }
    SliceFrom(source, i, end.value + 1 - i);
    return Chunk(source[i..end.value + 1], end.value + 1 - i);
  }

  /** The body of the Swift loop: a backslash begins an escape or an interpolation. */
  method SwiftToken(source: string, i: nat) returns (t: Token)
    requires i < |source|
    ensures t == NextToken(Swift, source[i..])
  {
    NextTokenAt(Swift, source, i);
    if source[i] == '\\' {
      if i + 1 == |source| { return Unfinished; }
      if source[i + 1] == '(' {
        t := ReadInterpolation(Swift, source, i);
        return;
      }
      return Chunk(Unescape(Swift, source[i + 1]), 2);
    }
    if source[i] == '"' { return EndQuote; }
    return Chunk([source[i]], 1);
  }

  /** The body of the Kotlin loop: interpolations are looked for before escapes. */
  method KotlinToken(source: string, i: nat) returns (t: Token)
    requires i < |source|
    ensures t == NextToken(Kotlin, source[i..])
  {
    NextTokenAt(Kotlin, source, i);
    if source[i] == '$' && i + 1 < |source| && source[i + 1] == '{' {
      t := ReadInterpolation(Kotlin, source, i);
      return;
    }
    if source[i] == '\\' {
      if i + 1 == |source| { return Unfinished; }
      return Chunk(Unescape(Kotlin, source[i + 1]), 2);
    }
    if source[i] == '"' { return EndQuote; }
    return Chunk([source[i]], 1);
  }

  datatype Found = Found(end: nat, value: string)

  /** A literal read at a position, as the readers return it. */
  function FoundAt(openingQuote: nat, lit: Option<Literal>): Option<Found> {
    if lit.None? then None else Some(Found(openingQuote + lit.value.length, lit.value.value))
  }

  /** What reading the source gives from an index on. */
  ghost predicate IsRest(d: Dialect, source: string, i: nat, rest: Option<Literal>) {
    forall k: nat :: k == i && k <= |source| ==> rest == ReadBody(d, source[k..])
  }

  lemma NothingLeft(d: Dialect, source: string, rest: Option<Literal>)
    requires IsRest(d, source, |source|, rest)
    ensures rest == None
  {
    assert rest == ReadBody(d, source[|source|..]);
  }

  /** What reading gives behind raw, by the token that comes next and what is read behind that. */
  lemma TokenRead(d: Dialect, source: string, i: nat, t: Token, next: nat, raw: string, k: nat, rest: Option<Literal>)
    returns (behind: Option<Literal>)
    requires i < |source| && t == NextToken(d, source[i..]) && IsRest(d, source, i, rest)
    requires t.Chunk? ==> next == i + t.length
    ensures t.Chunk? ==> i < next <= |source| && IsRest(d, source, next, behind)
    ensures t.Chunk? ==> After(raw, k, rest) == After(raw + t.value, k + (next - i), behind)
    ensures t.EndQuote? ==> After(raw, k, rest) == Some(Literal(raw, k + 1))
    ensures t.Unfinished? ==> After(raw, k, rest) == None
  {
    behind := None;
    if t.Chunk? {
      SliceFrom(source, i, t.length);
      behind := ReadBody(d, source[next..]);
      AfterMore(raw, k, t.value, t.length, behind);
    } else {
      assert raw + "" == raw;
    }
  }

  method ReadSwiftStringLiteral(source: string, openingQuote: nat) returns (r: Option<Found>)
    requires openingQuote <= |source|
    ensures r == FoundAt(openingQuote, Read(Swift, source[openingQuote..]))
  {
    if !OpensLiteral(source[openingQuote..]) { return None; }
    SliceFrom(source, openingQuote, 1);
    r := ReadSwiftBody(source, openingQuote + 1, ReadBody(Swift, source[openingQuote + 1..]));
  }

  method SwiftStep(source: string, i: nat, ghost raw: string, ghost k: nat, ghost rest: Option<Literal>)
    returns (t: Token, next: nat, ghost behind: Option<Literal>)
    requires i < |source| && IsRest(Swift, source, i, rest)
    ensures t.Chunk? ==> i < next <= |source| && next == i + t.length && IsRest(Swift, source, next, behind)
    ensures t.Chunk? ==> After(raw, k, rest) == After(raw + t.value, k + (next - i), behind)
    ensures t.EndQuote? ==> After(raw, k, rest) == Some(Literal(raw, k + 1))
    ensures t.Unfinished? ==> After(raw, k, rest) == None
  {
    t := SwiftToken(source, i);
    next := i + if t.Chunk? then t.length else 0;
    behind := TokenRead(Swift, source, i, t, next, raw, k, rest);
  }

  /** The loop of the reader, from behind the opening quote. */
  method ReadSwiftBody(source: string, start: nat, ghost all: Option<Literal>) returns (r: Option<Found>)
    requires 0 < start <= |source| && IsRest(Swift, source, start, all)
    ensures r == FoundAt(start - 1, After("", 1, all))
  {
    var raw := "";
    var i := start;
    ghost var rest, whole, k := all, After("", 1, all), 1;
    while i < |source|
      invariant start <= i <= |source| && IsRest(Swift, source, i, rest)
      invariant k == i + 1 - start && whole == After(raw, k, rest)
    {
      var t, next;
      t, next, rest := SwiftStep(source, i, raw, k, rest);
      match t {
        case Unfinished => return None;
        case EndQuote => return Some(Found(i + 1, raw));
        case Chunk(value, _) => raw, i, k := raw + value, next, k + (next - i);
      }
    }
    NothingLeft(Swift, source, rest);
    return None;
  }

  method ReadKotlinStringLiteral(source: string, openingQuote: nat) returns (r: Option<Found>)
    requires openingQuote <= |source|
    ensures r == FoundAt(openingQuote, Read(Kotlin, source[openingQuote..]))
  {
    if !OpensLiteral(source[openingQuote..]) { return None; }
    SliceFrom(source, openingQuote, 1);
    r := ReadKotlinBody(source, openingQuote + 1, ReadBody(Kotlin, source[openingQuote + 1..]));
  }

  method KotlinStep(source: string, i: nat, ghost raw: string, ghost k: nat, ghost rest: Option<Literal>)
    returns (t: Token, next: nat, ghost behind: Option<Literal>)
    requires i < |source| && IsRest(Kotlin, source, i, rest)
    ensures t.Chunk? ==> i < next <= |source| && next == i + t.length && IsRest(Kotlin, source, next, behind)
    ensures t.Chunk? ==> After(raw, k, rest) == After(raw + t.value, k + (next - i), behind)
    ensures t.EndQuote? ==> After(raw, k, rest) == Some(Literal(raw, k + 1))
    ensures t.Unfinished? ==> After(raw, k, rest) == None
  {
    t := KotlinToken(source, i);
    next := i + if t.Chunk? then t.length else 0;
    behind := TokenRead(Kotlin, source, i, t, next, raw, k, rest);
  }

  /** The loop of the reader, from behind the opening quote. */
  method ReadKotlinBody(source: string, start: nat, ghost all: Option<Literal>) returns (r: Option<Found>)
    requires 0 < start <= |source| && IsRest(Kotlin, source, start, all)
    ensures r == FoundAt(start - 1, After("", 1, all))
  {
    var raw := "";
    var i := start;
    ghost var rest, whole, k := all, After("", 1, all), 1;
    while i < |source|
      invariant start <= i <= |source| && IsRest(Kotlin, source, i, rest)
      invariant k == i + 1 - start && whole == After(raw, k, rest)
    {
      var t, next;
      t, next, rest := KotlinStep(source, i, raw, k, rest);
      match t {
        case Unfinished => return None;
        case EndQuote => return Some(Found(i + 1, raw));
        case Chunk(value, _) => raw, i, k := raw + value, next, k + (next - i);
      }
    }
    NothingLeft(Kotlin, source, rest);
    return None;
  }

  /** The closing brace of a block, by the same rules as the inside of a Kotlin interpolation. */
  function ClosingBraceAt(source: string, openingBrace: nat): Option<nat>
    requires openingBrace < |source|
  {
    match InsideLength(Kotlin, BODY, source[openingBrace + 1..])
    case None => None
    case Some(n) => Some(openingBrace + n)
  }

  method FindClosingBrace(source: string, openingBrace: nat) returns (r: Option<nat>)
    requires openingBrace < |source| && source[openingBrace] == '{'
    ensures r == ClosingBraceAt(source, openingBrace)
  {
    InsideNext(Kotlin, Inside(0, false, false), source, openingBrace);
    r := ScanInside(Kotlin, source, openingBrace, Inside(0, false, false));
  }

  /** The next quote at or behind an index, or the end of the text. */
  function NextQuote(source: string, from: nat): (q: nat)
    requires from <= |source|
    ensures from <= q <= |source|
    decreases |source| - from
  {
    if from == |source| || source[from] == '"' then from else NextQuote(source, from + 1)
  }

  datatype Located = Located(offset: nat, value: string)

  function Extract(source: string, cursor: nat, end: nat): seq<Located>
    requires end <= |source|
    decreases end - cursor
  {
    if cursor >= end || NextQuote(source, cursor) >= end then []
    else
      var q := NextQuote(source, cursor);
      match FoundAt(q, Read(Kotlin, source[q..]))
      case None => []
      case Some(found) => if found.end > end then [] else [Located(q, found.value)] + Extract(source, found.end, end)
  }

  method IndexOfQuote(source: string, from: nat) returns (q: nat)
    requires from <= |source|
    ensures q == NextQuote(source, from)
  {
    q := from;
    while q < |source| && source[q] != '"'
      invariant from <= q <= |source| && NextQuote(source, q) == NextQuote(source, from)
    {
      q := q + 1;
    }
  }

  /** The literals between two positions; the scan ends at the first quote that opens none. */
  method ExtractKotlinStringLiterals(source: string, start: nat, end: nat) returns (values: seq<Located>)
    requires end <= |source|
    ensures values == Extract(source, start, end)
  {
    values := [];
    var cursor := start;
    while cursor < end
      invariant Extract(source, start, end) == values + Extract(source, cursor, end)
    {
      var openingQuote := IndexOfQuote(source, cursor);
      if openingQuote >= end { return; }
      var literal := ReadKotlinStringLiteral(source, openingQuote);
      if literal.None? || literal.value.end > end { return; }
      var one := [Located(openingQuote, literal.value.value)];
      Associative(values, one, Extract(source, literal.value.end, end));
      values := values + one;
      cursor := literal.value.end;
    }
  }

  // ---- printing

  /** What may stand inside an interpolation: plain characters, brackets around more of the same, and strings. */
  datatype Body =
    | End
    | Plain(c: char, rest: Body)
    | Group(inner: Body, rest: Body)
    | Str(chars: seq<StrChar>, rest: Body)

  /** A character of a nested string: an ordinary one, or any one behind a backslash. */
  datatype StrChar = Lit(c: char) | Esc(c: char)

  predicate GoodBody(d: Dialect, b: Body) {
    match b
    case End => true
    case Plain(c, rest) => c != Open(d) && c != Close(d) && c != '"' && GoodBody(d, rest)
    case Group(inner, rest) => GoodBody(d, inner) && GoodBody(d, rest)
    case Str(chars, rest) => GoodChars(chars) && GoodBody(d, rest)
  }

  function PrintChar(c: StrChar): string { if c.Lit? then [c.c] else ['\\', c.c] }

  function PrintStr(chars: seq<StrChar>): string {
    if chars == [] then "" else PrintChar(chars[0]) + PrintStr(chars[1..])
  }

  function PrintBody(d: Dialect, b: Body): string {
    match b
    case End => ""
    case Plain(c, rest) => [c] + PrintBody(d, rest)
    case Group(inner, rest) => [Open(d)] + PrintBody(d, inner) + [Close(d)] + PrintBody(d, rest)
    case Str(chars, rest) => ['"'] + PrintStr(chars) + ['"'] + PrintBody(d, rest)
  }

  datatype Segment = Run(text: string) | Interpolation(body: Body)

  predicate GoodSegments(d: Dialect, segments: seq<Segment>) {
    forall k :: 0 <= k < |segments| && segments[k].Interpolation? ==> GoodBody(d, segments[k].body)
  }

  function Escape(d: Dialect, c: char): string {
    if c == '\n' then "\\n" else if c == '\r' then "\\r" else if c == '\t' then "\\t"
    else if c == '"' || c == '\\' || (d == Kotlin && c == '$') then ['\\', c]
    else [c]
  }

  function PrintText(d: Dialect, text: string): string {
    if text == "" then "" else Escape(d, text[0]) + PrintText(d, text[1..])
  }

  function PrintInterpolation(d: Dialect, b: Body): string { [Mark(d), Open(d)] + PrintBody(d, b) + [Close(d)] }

  function PrintSegment(d: Dialect, segment: Segment): string {
    match segment
    case Run(text) => PrintText(d, text)
    case Interpolation(b) => PrintInterpolation(d, b)
  }

  function Print(d: Dialect, segments: seq<Segment>): string {
    if segments == [] then "" else PrintSegment(d, segments[0]) + Print(d, segments[1..])
  }

  /** What the readers give back: the texts, and the interpolations as they were printed. */
  function SegmentValue(d: Dialect, segment: Segment): string {
    match segment
    case Run(text) => text
    case Interpolation(b) => PrintInterpolation(d, b)
  }

  function Value(d: Dialect, segments: seq<Segment>): string {
    if segments == [] then "" else SegmentValue(d, segments[0]) + Value(d, segments[1..])
  }

  // ---- reading undoes printing

  /** Whatever follows, reading this text takes the scan from one state to the other. */
  ghost predicate Moves(d: Dialect, from: Inside, text: string, to: Inside) {
    forall s :: InsideLength(d, from, text + s) == AddLength(|text|, InsideLength(d, to, s))
  }

  lemma MovesOne(d: Dialect, st: Inside, c: char)
    requires InsideStep(d, st, c).depth > 0
    ensures Moves(d, st, [c], InsideStep(d, st, c))
  {
    forall s ensures InsideLength(d, st, [c] + s) == AddLength(1, InsideLength(d, InsideStep(d, st, c), s)) {
      assert ([c] + s)[1..] == s;
    }
  }

  lemma MovesConcat(d: Dialect, a: Inside, s: string, b: Inside, t: string, c: Inside)
    requires Moves(d, a, s, b) && Moves(d, b, t, c)
    ensures Moves(d, a, s + t, c)
  {
    forall u ensures InsideLength(d, a, s + t + u) == AddLength(|s + t|, InsideLength(d, c, u)) {
      Associative(s, t, u);
      assert InsideLength(d, a, s + (t + u)) == AddLength(|s|, InsideLength(d, b, t + u));
      assert InsideLength(d, b, t + u) == AddLength(|t|, InsideLength(d, c, u));
    }
  }

  lemma MovesNot(d: Dialect, st: Inside)
    ensures Moves(d, st, "", st)
  {
    forall s ensures InsideLength(d, st, "" + s) == AddLength(0, InsideLength(d, st, s)) {
      assert "" + s == s;
    }
  }

  predicate GoodChars(chars: seq<StrChar>) {
    forall k :: 0 <= k < |chars| && chars[k].Lit? ==> chars[k].c != '"' && chars[k].c != '\\'
  }

  lemma {:induction false} CharsMove(d: Dialect, depth: nat, chars: seq<StrChar>)
    requires depth > 0 && GoodChars(chars)
    ensures Moves(d, Inside(depth, true, false), PrintStr(chars), Inside(depth, true, false))
    decreases |chars|
  {
    var st := Inside(depth, true, false);
    if chars == [] {
      MovesNot(d, st);
    } else {
      CharsMove(d, depth, chars[1..]);
      CharMoves(d, depth, chars[0]);
      MovesConcat(d, st, PrintChar(chars[0]), st, PrintStr(chars[1..]), st);
    }
  }

  lemma CharMoves(d: Dialect, depth: nat, c: StrChar)
    requires depth > 0 && GoodChars([c])
    ensures Moves(d, Inside(depth, true, false), PrintChar(c), Inside(depth, true, false))
  {
    var st := Inside(depth, true, false);
    assert c == [c][0];
    if c.Lit? {
      MovesOne(d, st, c.c);
    } else {
      MovesOne(d, st, '\\');
      MovesOne(d, st.(escaped := true), c.c);
      MovesConcat(d, st, ['\\'], st.(escaped := true), [c.c], st);
      assert ['\\'] + [c.c] == PrintChar(c);
    }
  }

  /** Bracketing: in between, the scan is in another state. */
  lemma MovesAround(d: Dialect, out: Inside, open: char, inside: Inside, text: string, close: char, rest: string)
    requires out.depth > 0 && inside.depth > 0
    requires InsideStep(d, out, open) == inside && InsideStep(d, inside, close) == out
    requires Moves(d, inside, text, inside) && Moves(d, out, rest, out)
    ensures Moves(d, out, [open] + text + [close] + rest, out)
  {
    MovesOne(d, out, open);
    MovesConcat(d, out, [open], inside, text, inside);
    MovesOne(d, inside, close);
    MovesConcat(d, out, [open] + text, inside, [close], out);
    MovesConcat(d, out, [open] + text + [close], out, rest, out);
  }

  /** A printed body is passed over: the depth behind it is the depth before it. */
  lemma {:induction false} BodyMoves(d: Dialect, depth: nat, b: Body)
    requires depth > 0 && GoodBody(d, b)
    ensures Moves(d, Inside(depth, false, false), PrintBody(d, b), Inside(depth, false, false))
    decreases b, 1
  {
    match b
    case End => MovesNot(d, Inside(depth, false, false));
    case Plain(c, rest) =>
      MovesOne(d, Inside(depth, false, false), c);
      BodyMoves(d, depth, rest);
      MovesConcat(d, Inside(depth, false, false), [c], Inside(depth, false, false), PrintBody(d, rest),
        Inside(depth, false, false));
    case Group(inner, rest) => GroupMoves(d, depth, b);
    case Str(chars, rest) => StringMoves(d, depth, b);
  }

  lemma {:induction false} GroupMoves(d: Dialect, depth: nat, b: Body)
    requires depth > 0 && b.Group? && GoodBody(d, b)
    ensures Moves(d, Inside(depth, false, false), PrintBody(d, b), Inside(depth, false, false))
    decreases b, 0
  {
    BodyMoves(d, depth + 1, b.inner);
    BodyMoves(d, depth, b.rest);
    MovesAround(d, Inside(depth, false, false), Open(d), Inside(depth + 1, false, false), PrintBody(d, b.inner),
      Close(d), PrintBody(d, b.rest));
  }

  lemma {:induction false} StringMoves(d: Dialect, depth: nat, b: Body)
    requires depth > 0 && b.Str? && GoodBody(d, b)
    ensures Moves(d, Inside(depth, false, false), PrintBody(d, b), Inside(depth, false, false))
    decreases b, 0
  {
    CharsMove(d, depth, b.chars);
    BodyMoves(d, depth, b.rest);
    MovesAround(d, Inside(depth, false, false), '"', Inside(depth, true, false), PrintStr(b.chars), '"',
      PrintBody(d, b.rest));
  }

  lemma ClosesHere(d: Dialect, s: string)
    ensures InsideLength(d, BODY, [Close(d)] + s) == Some(1)
  {
  }

  lemma EndsBehind(d: Dialect, text: string, s: string)
    requires Moves(d, BODY, text, BODY)
    ensures InsideLength(d, BODY, text + [Close(d)] + s) == Some(|text| + 1)
  {
    Associative(text, [Close(d)], s);
    ClosesHere(d, s);
    assert InsideLength(d, BODY, text + ([Close(d)] + s)) == AddLength(|text|, InsideLength(d, BODY, [Close(d)] + s));
  }

  /** A printed body followed by its closing bracket ends exactly there. */
  lemma InsideEnds(d: Dialect, b: Body, s: string)
    requires GoodBody(d, b)
    ensures InsideLength(d, BODY, PrintBody(d, b) + [Close(d)] + s) == Some(|PrintBody(d, b)| + 1)
  {
    BodyMoves(d, 1, b);
    EndsBehind(d, PrintBody(d, b), s);
  }

  /** Whatever follows, this text is read as this value. */
  ghost predicate Reads(d: Dialect, text: string, value: string) {
    forall s :: ReadBody(d, text + s) == After(value, |text|, ReadBody(d, s))
  }

  lemma ReadsBoth(d: Dialect, a: string, v: string, b: string, w: string, s: string)
    requires ReadBody(d, a + (b + s)) == After(v, |a|, ReadBody(d, b + s))
      && ReadBody(d, b + s) == After(w, |b|, ReadBody(d, s))
    ensures ReadBody(d, a + b + s) == After(v + w, |a + b|, ReadBody(d, s))
  {
    Associative(a, b, s);
    AfterMore(v, |a|, w, |b|, ReadBody(d, s));
  }

  lemma ReadsConcat(d: Dialect, a: string, v: string, b: string, w: string)
    requires Reads(d, a, v) && Reads(d, b, w)
    ensures Reads(d, a + b, v + w)
  {
    forall s ensures ReadBody(d, a + b + s) == After(v + w, |a + b|, ReadBody(d, s)) {
      ReadsBoth(d, a, v, b, w, s);
    }
  }

  lemma ReadsNothing(d: Dialect)
    ensures Reads(d, "", "")
  {
    forall s ensures ReadBody(d, "" + s) == After("", 0, ReadBody(d, s)) {
      assert "" + s == s;
      AfterNothing(ReadBody(d, s));
    }
  }

  lemma TokenAfter(d: Dialect, t: Token, printed: string, s: string)
    requires printed != "" && t == NextToken(d, printed + s) && t.Chunk? && t.length == |printed|
    ensures ReadBody(d, printed + s) == After(t.value, |printed|, ReadBody(d, s))
  {
    assert (printed + s)[|printed|..] == s;
  }

  lemma EscapedToken(d: Dialect, c: char, s: string)
    ensures NextToken(d, Escape(d, c) + s) == Chunk([c], |Escape(d, c)|)
  {
    var e := Escape(d, c);
    assert (e + s)[0] == e[0] && (|e| == 2 ==> (e + s)[1] == e[1]);
  }

  lemma EscapedReads(d: Dialect, c: char)
    ensures Reads(d, Escape(d, c), [c])
  {
    var e := Escape(d, c);
    forall s ensures ReadBody(d, e + s) == After([c], |e|, ReadBody(d, s)) {
      EscapedToken(d, c, s);
      TokenAfter(d, Chunk([c], |e|), e, s);
    }
  }

  lemma {:induction false} TextReads(d: Dialect, text: string)
    ensures Reads(d, PrintText(d, text), text)
    decreases |text|
  {
    if text == "" {
      ReadsNothing(d);
    } else {
      TextReads(d, text[1..]);
      EscapedReads(d, text[0]);
      ReadsConcat(d, Escape(d, text[0]), [text[0]], PrintText(d, text[1..]), text[1..]);
      assert [text[0]] + text[1..] == text;
    }
  }

  lemma AfterNothing(r: Option<Literal>)
    ensures After("", 0, r) == r
  {
    if r.Some? { assert "" + r.value.value == r.value.value; }
  }

  lemma InterpolationReads(d: Dialect, b: Body)
    requires GoodBody(d, b)
    ensures Reads(d, PrintInterpolation(d, b), PrintInterpolation(d, b))
  {
    var printed := PrintInterpolation(d, b);
    forall s ensures ReadBody(d, printed + s) == After(printed, |printed|, ReadBody(d, s)) {
      InterpolationToken(d, b, s);
      TokenAfter(d, Chunk(printed, |printed|), printed, s);
    }
  }

  lemma InterpolationToken(d: Dialect, b: Body, s: string)
    requires GoodBody(d, b)
    ensures NextToken(d, PrintInterpolation(d, b) + s) == Chunk(PrintInterpolation(d, b), |PrintInterpolation(d, b)|)
  {
    var printed := PrintInterpolation(d, b);
    InsideEnds(d, b, s);
    BehindMarks([Mark(d), Open(d)], PrintBody(d, b), [Close(d)], s);
    assert (printed + s)[..|printed|] == printed;
  }

  lemma BehindMarks(marks: string, body: string, close: string, s: string)
    requires |marks| == 2
    ensures var all := marks + body + close + s;
      |all| >= 2 && all[0] == marks[0] && all[1] == marks[1] && all[2..] == body + close + s
  {
  }

  lemma SegmentReads(d: Dialect, segment: Segment)
    requires segment.Interpolation? ==> GoodBody(d, segment.body)
    ensures Reads(d, PrintSegment(d, segment), SegmentValue(d, segment))
  {
    match segment
    case Run(text) => TextReads(d, text);
    case Interpolation(b) => InterpolationReads(d, b);
  }

  lemma {:induction false} PrintedReads(d: Dialect, segments: seq<Segment>)
    requires GoodSegments(d, segments)
    ensures Reads(d, Print(d, segments), Value(d, segments))
    decreases |segments|
  {
    if segments == [] {
      ReadsNothing(d);
    } else {
      PrintedReads(d, segments[1..]);
      SegmentReads(d, segments[0]);
      ReadsConcat(d, PrintSegment(d, segments[0]), SegmentValue(d, segments[0]), Print(d, segments[1..]),
        Value(d, segments[1..]));
    }
  }

  function PrintLiteral(d: Dialect, segments: seq<Segment>): string { "\"" + Print(d, segments) + "\"" }

  lemma SegmentNoQuoteFirst(d: Dialect, segment: Segment)
    ensures PrintSegment(d, segment) != "" ==> PrintSegment(d, segment)[0] != '"'
  {
  }

  lemma {:induction false} PrintNoQuoteFirst(d: Dialect, segments: seq<Segment>)
    ensures Print(d, segments) != "" ==> Print(d, segments)[0] != '"'
    decreases |segments|
  {
    if segments != [] {
      PrintNoQuoteFirst(d, segments[1..]);
      SegmentNoQuoteFirst(d, segments[0]);
    }
  }

  /** An empty literal in front of another quote would be a triple quote. */
  predicate FormsTripleQuote(d: Dialect, segments: seq<Segment>, suffix: string) {
    Print(d, segments) == "" && suffix != "" && suffix[0] == '"'
  }

  lemma TripleQuoteIff(printed: string, suffix: string)
    requires printed != "" ==> printed[0] != '"'
    ensures "\"\"\"" <= "\"" + printed + "\"" + suffix <==> printed == "" && suffix != "" && suffix[0] == '"'
  {
    var s := "\"" + printed + "\"" + suffix;
    if printed != "" {
      assert s[1] == printed[0];
    } else if suffix != "" {
      assert s[2] == suffix[0];
    }
  }

  lemma QuoteOff(printed: string, suffix: string)
    ensures ("\"" + printed + "\"" + suffix)[0] == '"'
      && ("\"" + printed + "\"" + suffix)[1..] == printed + ("\"" + suffix)
  {
  }

  lemma ReadClosingQuote(d: Dialect, suffix: string)
    ensures ReadBody(d, "\"" + suffix) == Some(Literal("", 1))
  {
  }

  lemma ReadQuoted(d: Dialect, text: string, value: string, suffix: string)
    requires Reads(d, text, value)
    ensures ReadBody(d, text + ("\"" + suffix)) == Some(Literal(value, |text| + 1))
  {
    ReadClosingQuote(d, suffix);
    assert value + "" == value;
  }

  lemma ReadOpened(d: Dialect, printed: string, value: string, suffix: string)
    requires Reads(d, printed, value) && (printed != "" ==> printed[0] != '"')
    ensures Read(d, "\"" + printed + "\"" + suffix)
         == if printed == "" && suffix != "" && suffix[0] == '"' then None else Some(Literal(value, |printed| + 2))
  {
    TripleQuoteIff(printed, suffix);
    QuoteOff(printed, suffix);
    ReadQuoted(d, printed, value, suffix);
    assert "" + value == value;
  }

  /** Reading a printed literal gives its texts and its interpolations verbatim, and takes just the characters up to
      its closing quote, unless its opening quote is the start of a triple quote; then there is no literal to read. */
  lemma ReadUndoesPrint(d: Dialect, segments: seq<Segment>, suffix: string)
    requires GoodSegments(d, segments)
    ensures Read(d, PrintLiteral(d, segments) + suffix)
         == if FormsTripleQuote(d, segments, suffix) then None
            else Some(Literal(Value(d, segments), |PrintLiteral(d, segments)|))
  {
    PrintNoQuoteFirst(d, segments);
    PrintedReads(d, segments);
    ReadOpened(d, Print(d, segments), Value(d, segments), suffix);
  }

  /** The closing brace of a printed block is the one printed last. */
  lemma ClosingBraceFound(prefix: string, b: Body, suffix: string)
    requires GoodBody(Kotlin, b)
    ensures ClosingBraceAt(prefix + ("{" + PrintBody(Kotlin, b) + "}") + suffix, |prefix|)
         == Some(|prefix| + |PrintBody(Kotlin, b)| + 1)
  {
    var block := "{" + PrintBody(Kotlin, b) + "}";
    assert (prefix + block + suffix)[|prefix| + 1..] == PrintBody(Kotlin, b) + ['}'] + suffix;
    InsideEnds(Kotlin, b, suffix);
  }

  // ---- extraction finds what is laid out

  /** A literal in the source, from its opening quote to just behind its closing one. */
  datatype Span = Span(open: nat, end: nat, value: string)

  predicate QuoteFree(source: string, from: nat, to: nat) {
    from <= to <= |source| && forall k :: from <= k < to ==> source[k] != '"'
  }

  predicate ReadsAt(source: string, span: Span) {
    span.open < |source| && source[span.open] == '"'
    && FoundAt(span.open, Read(Kotlin, source[span.open..])) == Some(Found(span.end, span.value))
  }

  /** Between the two positions stand these literals, with no quote between them. */
  predicate LaidOut(source: string, from: nat, spans: seq<Span>, end: nat)
    decreases |spans|
  {
    if spans == [] then QuoteFree(source, from, end)
    else
      QuoteFree(source, from, spans[0].open) && ReadsAt(source, spans[0]) && spans[0].end <= end
      && LaidOut(source, spans[0].end, spans[1..], end)
  }

  function Places(spans: seq<Span>): seq<Located> {
    if spans == [] then [] else [Located(spans[0].open, spans[0].value)] + Places(spans[1..])
  }

  lemma {:induction false} NextQuoteIs(source: string, from: nat, q: nat)
    requires QuoteFree(source, from, q) && (q < |source| ==> source[q] == '"')
    ensures NextQuote(source, from) == q
    decreases q - from
  {
    if from < q { NextQuoteIs(source, from + 1, q); }
  }

  lemma {:induction false} NextQuoteBehind(source: string, from: nat, end: nat)
    requires QuoteFree(source, from, end)
    ensures NextQuote(source, from) >= end
    decreases end - from
  {
    if from < end { NextQuoteBehind(source, from + 1, end); }
  }

  lemma ExtractOne(source: string, from: nat, span: Span, end: nat)
    requires QuoteFree(source, from, span.open) && ReadsAt(source, span) && span.end <= end <= |source|
    ensures Extract(source, from, end) == [Located(span.open, span.value)] + Extract(source, span.end, end)
  {
    NextQuoteIs(source, from, span.open);
  }

  /** When a stretch of Kotlin is literals with text in between, every literal is extracted, in order, with its value
      and its position. */
  lemma {:induction false} ExtractFindsAll(source: string, from: nat, spans: seq<Span>, end: nat)
    requires end <= |source| && LaidOut(source, from, spans, end)
    ensures Extract(source, from, end) == Places(spans)
    decreases |spans|
  {
    if spans == [] {
      if from < end { NextQuoteBehind(source, from, end); }
    } else {
      ExtractOne(source, from, spans[0], end);
      ExtractFindsAll(source, spans[0].end, spans[1..], end);
    }
  }

  /** A printed literal is such a span, unless what follows makes a triple quote of it. */
  lemma PrintedReadsAt(source: string, open: nat, segments: seq<Segment>, suffix: string)
    requires GoodSegments(Kotlin, segments) && open < |source|
      && source[open..] == PrintLiteral(Kotlin, segments) + suffix
    ensures ReadsAt(source, Span(open, open + |PrintLiteral(Kotlin, segments)|, Value(Kotlin, segments)))
       <==> !FormsTripleQuote(Kotlin, segments, suffix)
  {
    ReadUndoesPrint(Kotlin, segments, suffix);
    assert source[open] == source[open..][0];
  }
}
