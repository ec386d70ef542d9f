/** The edges of reading string literals (scripts/native-app-i18n.ts): the marks of both dialects, escapes that are
    kept as
    they are, literals that never end, and where the extraction stops. */
module LiteralEdges {
  import opened Wrappers
  import opened Sequences
  import opened StringLiterals

  /** Interpolations and their groups, as the two dialects write them. */
  lemma MarksAre(inner: Body, rest: Body)
    ensures PrintInterpolation(Swift, inner) == "\\(" + PrintBody(Swift, inner) + ")"
    ensures PrintInterpolation(Kotlin, inner) == "${" + PrintBody(Kotlin, inner) + "}"
    ensures PrintBody(Swift, Group(inner, rest)) == "(" + PrintBody(Swift, inner) + ")" + PrintBody(Swift, rest)
    ensures PrintBody(Kotlin, Group(inner, rest)) == "{" + PrintBody(Kotlin, inner) + "}" + PrintBody(Kotlin, rest)
  {
  }

  /** What may stand in an interpolation without being part of a group or a string. */
  lemma PlainsAre(c: char, rest: Body)
    ensures GoodBody(Swift, Plain(c, rest)) <==> c !in {'(', ')', '"'} && GoodBody(Swift, rest)
    ensures GoodBody(Kotlin, Plain(c, rest)) <==> c !in {'{', '}', '"'} && GoodBody(Kotlin, rest)
  {
  }

  // ---- escapes

  lemma ReadsToken(d: Dialect, text: string, value: string)
    requires text != ""
    requires forall s :: NextToken(d, text + s) == Chunk(value, |text|)
    ensures Reads(d, text, value)
  {
    forall s ensures ReadBody(d, text + s) == After(value, |text|, ReadBody(d, s)) {
      assert NextToken(d, text + s) == Chunk(value, |text|);
      TokenAfter(d, Chunk(value, |text|), text, s);
    }
  }

  lemma BackslashToken(d: Dialect, c: char, s: string)
    requires !(d == Swift && c == '(')
    ensures NextToken(d, ['\\', c] + s) == Chunk(Unescape(d, c), 2)
  {
    assert (['\\', c] + s)[0] == '\\' && (['\\', c] + s)[1] == c;
  }

  /** A backslash stands for a line break, a return or a tab in front of n, r or t; for itself, a quote and, in Kotlin,
      a
      dollar it is left away; in front of anything else it is kept. */
  lemma EscapesAre(d: Dialect, c: char)
    requires !(d == Swift && c == '(')
    ensures Reads(d, ['\\', c],
                  match c
                  case 'n' => "\n"
                  case 'r' => "\r"
                  case 't' => "\t"
                  case '"' => "\""
                  case '\\' => "\\"
                  case '$' => if d == Kotlin then "$" else "\\$"
                  case _ => ['\\', c])
  {
    forall s ensures NextToken(d, ['\\', c] + s) == Chunk(Unescape(d, c), 2) { BackslashToken(d, c, s); }
    ReadsToken(d, ['\\', c], Unescape(d, c));
  }

  /** A dollar that opens no interpolation is read as it is. */
  lemma DollarReads(d: Dialect, c: char)
    requires d == Kotlin ==> c != '{'
    requires c != '\\' && c != '"' && c != '$'
    ensures Reads(d, ['$', c], ['$', c])
  {
    forall s ensures ReadBody(d, ['$', c] + s) == After(['$', c], 2, ReadBody(d, s)) {
      var all := ['$', c] + s;
      assert all[0] == '$' && all[1] == c && all[1..] == [c] + s;
      assert NextToken(d, all) == Chunk(['$'], 1);
      assert NextToken(d, [c] + s) == Chunk([c], 1) by { assert ([c] + s)[0] == c; }
      TokenAfter(d, Chunk([c], 1), [c], s);
      AfterMore("$", 1, [c], 1, ReadBody(d, s));
      assert "$" + [c] == ['$', c];
    }
  }

  // ---- literals that never end

  /** What makes a literal end with the text: nothing more, a last backslash, or an interpolation that is not closed. */
  datatype Tail = Nothing | Backslash | Unclosed(body: Body)

  function PrintTail(d: Dialect, tail: Tail): string {
    match tail
    case Nothing => ""
    case Backslash => "\\"
    case Unclosed(body) => (if d == Swift then "\\(" else "${") + PrintBody(d, body)
  }

  lemma UnclosedToken(d: Dialect, body: Body)
    requires GoodBody(d, body)
    ensures NextToken(d, PrintTail(d, Unclosed(body))) == Unfinished
  {
    var printed := PrintBody(d, body);
    BodyMoves(d, 1, body);
    assert printed + "" == printed;
    assert InsideLength(d, BODY, printed + "") == AddLength(|printed|, InsideLength(d, BODY, ""));
    assert PrintTail(d, Unclosed(body))[2..] == printed;
  }

  lemma TailReads(d: Dialect, tail: Tail)
    requires tail.Unclosed? ==> GoodBody(d, tail.body)
    ensures ReadBody(d, PrintTail(d, tail)) == None
  {
    if tail.Unclosed? { UnclosedToken(d, tail.body); }
  }

  lemma NoneBehind(d: Dialect, text: string, value: string, last: string)
    requires Reads(d, text, value) && ReadBody(d, last) == None
    ensures ReadBody(d, text + last) == None
  {
  }

  lemma NoneOpened(d: Dialect, s: string)
    requires ReadBody(d, s) == None
    ensures Read(d, ['"'] + s) == None
  {
    assert (['"'] + s)[1..] == s;
  }

  /** A literal whose closing quote never comes is none. */
  lemma UnfinishedIsNone(d: Dialect, segments: seq<Segment>, tail: Tail)
    requires GoodSegments(d, segments) && (tail.Unclosed? ==> GoodBody(d, tail.body))
    ensures Read(d, ['"'] + (Print(d, segments) + PrintTail(d, tail))) == None
  {
    PrintedReads(d, segments);
    TailReads(d, tail);
    NoneBehind(d, Print(d, segments), Value(d, segments), PrintTail(d, tail));
    NoneOpened(d, Print(d, segments) + PrintTail(d, tail));
  }

  /** What is read as a literal's body ends with a quote. */
  lemma {:induction false} BodyEndsInQuote(d: Dialect, s: string)
    requires ReadBody(d, s).Some?
    ensures 0 < ReadBody(d, s).value.length <= |s| && s[ReadBody(d, s).value.length - 1] == '"'
    decreases |s|
  {
    var t := NextToken(d, s);
    if t.Chunk? {
      BodyEndsInQuote(d, s[t.length..]);
      var n := ReadBody(d, s[t.length..]).value.length;
      assert s[t.length..][n - 1] == s[t.length + n - 1];
    }
  }

  // ---- where the extraction stops

  /** No literal that ends in time is read at q. */
  ghost predicate NoLiteralAt(source: string, q: nat, end: nat)
    requires q < |source|
  {
    match FoundAt(q, Read(Kotlin, source[q..]))
    case None => true
    case Some(found) => found.end > end
  }

  lemma StopsHere(source: string, from: nat, q: nat, end: nat)
    requires QuoteFree(source, from, q) && q < end <= |source| && source[q] == '"' && NoLiteralAt(source, q, end)
    ensures Extract(source, from, end) == []
  {
    NextQuoteIs(source, from, q);
  }

  /** The first quote that opens no literal ending in time is the end: the literals laid out before it are all. */
  lemma {:induction false} ExtractStops(source: string, from: nat, spans: seq<Span>, q: nat, end: nat)
    requires q < end <= |source| && LaidOut(source, from, spans, q) && source[q] == '"' && NoLiteralAt(source, q, end)
    ensures Extract(source, from, end) == Places(spans)
    decreases |spans|
  {
    if spans == [] {
      StopsHere(source, from, q, end);
    } else {
      ExtractOne(source, from, spans[0], end);
      ExtractStops(source, spans[0].end, spans[1..], q, end);
    }
  }
}
