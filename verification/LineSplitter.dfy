/** Splitting a child's output into lines while it arrives in arbitrary chunks
    (scripts/bench-gateway-restart.ts). A line ends with LF or CRLF; the two characters
    of a CRLF may arrive in different chunks. */
module LineSplitter {
  import opened Sequences

  datatype Parts = Parts(lines: seq<string>, carry: string)

  /** A match of the separator expression at position i has length SepLength(s, i); 0 means no match. */
  function SepLength(s: string, i: nat): (n: nat)
    requires i < |s|
    ensures i + n <= |s|
  {
    if s[i] == '\n' then 1
    else if s[i] == '\r' && i + 1 < |s| && s[i + 1] == '\n' then 2
    else 0
  }

  /** The leftmost separator at or after position `from`, or |s|. */
  function FirstSep(s: string, from: nat := 0): (i: nat)
    requires from <= |s|
    ensures from <= i <= |s|
    ensures i < |s| ==> SepLength(s, i) > 0
    ensures forall j :: from <= j < i ==> SepLength(s, j) == 0
    decreases |s| - from
  {
    if from == |s| || SepLength(s, from) > 0 then from else FirstSep(s, from + 1)
  }

  /** Splitting a whole text at its separators; the text after the last one is the carry. */
  function Split(s: string): Parts {
    var i := FirstSep(s);
    if i == |s| then Parts([], s)
    else
      var rest := Split(s[i + SepLength(s, i)..]);
      Parts([s[..i]] + rest.lines, rest.carry)
  }

  /** One chunk: what was carried over and the chunk are split together. */
  function CollectOutputLines(carry: string, chunk: string): Parts {
    Split(carry + chunk)
  }

  // ---- what a split is, independently of how it is found

  function Unsplit(lines: seq<string>, seps: seq<string>, carry: string): string
    requires |seps| == |lines|
  {
    if lines == [] then carry else lines[0] + seps[0] + Unsplit(lines[1..], seps[1..], carry)
  }

  /** A line with its own terminator: it holds no LF, and a CR before an LF belongs to the terminator. */
  predicate Terminated(line: string, sep: string) {
    && '\n' !in line
    && (sep == "\r\n" || (sep == "\n" && !(line != "" && line[|line| - 1] == '\r')))
  }

  ghost predicate IsSplit(s: string, seps: seq<string>, parts: Parts) {
    && |seps| == |parts.lines|
    && s == Unsplit(parts.lines, seps, parts.carry)
    && (forall k :: 0 <= k < |seps| ==> Terminated(parts.lines[k], seps[k]))
    && '\n' !in parts.carry
  }

  lemma FirstSepIs(s: string, i: nat, from: nat := 0)
    requires from <= i <= |s|
    requires i < |s| ==> SepLength(s, i) > 0
    requires forall j :: from <= j < i ==> SepLength(s, j) == 0
    ensures FirstSep(s, from) == i
    decreases i - from
  {
    if from < i { FirstSepIs(s, i, from + 1); }
  }

  lemma SepIs(s: string, i: nat)
    requires i < |s| && SepLength(s, i) > 0
    ensures s[i..i + SepLength(s, i)] == if s[i] == '\n' then "\n" else "\r\n"
  {
  }

  lemma NoSepNoLf(s: string, i: nat)
    requires i <= |s| && forall j :: 0 <= j < i ==> SepLength(s, j) == 0
    ensures '\n' !in s[..i]
  {
    forall j | 0 <= j < i ensures s[..i][j] != '\n' { assert SepLength(s, j) == 0; }
  }

  lemma FirstLineTerminated(s: string, i: nat)
    requires i < |s| && SepLength(s, i) > 0 && forall j :: 0 <= j < i ==> SepLength(s, j) == 0
    ensures Terminated(s[..i], s[i..i + SepLength(s, i)])
  {
    NoSepNoLf(s, i);
    SepIs(s, i);
    if i > 0 { assert SepLength(s, i - 1) == 0; }
  }

  lemma ThreeParts(s: string, i: nat, n: nat)
    requires i + n <= |s|
    ensures s == s[..i] + s[i..i + n] + s[i + n..]
  {
  }

  lemma UnsplitCons(line: string, sep: string, lines: seq<string>, seps: seq<string>, carry: string)
    requires |lines| == |seps|
    ensures Unsplit([line] + lines, [sep] + seps, carry) == line + sep + Unsplit(lines, seps, carry)
  {
    assert ([line] + lines)[1..] == lines && ([sep] + seps)[1..] == seps;
  }

  lemma {:induction false} SplitExists(s: string) returns (seps: seq<string>)
    ensures IsSplit(s, seps, Split(s))
  {
    var i := FirstSep(s);
    if i == |s| {
      seps := [];
      forall j | 0 <= j < |s| ensures s[j] != '\n' { assert SepLength(s, j) == 0; }
    } else {
      var n := SepLength(s, i);
      var tail := s[i + n..];
      var more := SplitExists(tail);
      FirstLineTerminated(s, i);
      ThreeParts(s, i, n);
      seps := [s[i..i + n]] + more;
      UnsplitCons(s[..i], s[i..i + n], Split(tail).lines, more, Split(tail).carry);
      assert Split(s).lines == [s[..i]] + Split(tail).lines;
    }
  }

  /** A text that starts with a terminated line starts its split with that line. */
  lemma SplitStep(line: string, sep: string, tail: string)
    requires Terminated(line, sep)
    ensures Split(line + sep + tail) == Parts([line] + Split(tail).lines, Split(tail).carry)
  {
    var s, i := line + sep + tail, |line|;
    forall j | 0 <= j < i ensures SepLength(s, j) == 0 {
      assert s[j] == line[j] && line[j] in line;
      if j + 1 < i { assert s[j + 1] == line[j + 1] && line[j + 1] in line; }
    }
    FirstSepIs(s, i);
    assert SepLength(s, i) == |sep|;
    assert s[i + |sep|..] == tail && s[..i] == line;
  }

  lemma {:induction false} SplitUnique(s: string, seps: seq<string>, parts: Parts)
    requires IsSplit(s, seps, parts)
    ensures parts == Split(s)
    decreases |seps|
  {
    if seps == [] {
      forall j | 0 <= j < |s| ensures SepLength(s, j) == 0 { assert s[j] in parts.carry; }
      FirstSepIs(s, |s|);
    } else {
      var rest := Parts(parts.lines[1..], parts.carry);
      var tail := Unsplit(rest.lines, seps[1..], parts.carry);
      SplitStep(parts.lines[0], seps[0], tail);
      SplitUnique(tail, seps[1..], rest);
      assert parts.lines == [parts.lines[0]] + rest.lines;
    }
  }

  lemma SepAppend(a: string, b: string)
    requires FirstSep(a) < |a|
    ensures FirstSep(a + b) == FirstSep(a) && SepLength(a + b, FirstSep(a)) == SepLength(a, FirstSep(a))
  {
    var i := FirstSep(a);
    forall j | 0 <= j < i ensures SepLength(a + b, j) == 0 { assert SepLength(a, j) == 0; }
    FirstSepIs(a + b, i);
  }

  lemma SliceAppend(a: string, b: string, i: nat)
    requires i <= |a|
    ensures (a + b)[..i] == a[..i] && (a + b)[i..] == a[i..] + b
  {
  }

  function ConsLine(line: string, p: Parts): Parts { Parts([line] + p.lines, p.carry) }

  lemma SplitAtSep(s: string, i: nat, n: nat)
    requires i < |s| && FirstSep(s) == i && SepLength(s, i) == n
    ensures Split(s) == ConsLine(s[..i], Split(s[i + n..]))
  {
  }

  /** Splitting commutes with cutting the text anywhere, also between the two characters of a CRLF. */
  lemma {:induction false} SplitAppend(a: string, b: string)
    ensures Split(a + b) == After(Split(a), b)
    decreases |a|
  {
    var i := FirstSep(a);
    if i < |a| {
      var n := SepLength(a, i);
      SepAppend(a, b);
      SliceAppend(a, b, i);
      SliceAppend(a, b, i + n);
      SplitAtSep(a, i, n);
      SplitAtSep(a + b, i, n);
      SplitAppend(a[i + n..], b);
      AfterCons(a[..i], Split(a[i + n..]), b);
    }
  }

  /** The lines so far and the next chunk. */
  function After(before: Parts, chunk: string): Parts {
    var now := CollectOutputLines(before.carry, chunk);
    Parts(before.lines + now.lines, now.carry)
  }

  lemma AfterCons(line: string, p: Parts, chunk: string)
    ensures After(ConsLine(line, p), chunk) == ConsLine(line, After(p, chunk))
  {
    assert [line] + p.lines + Split(p.carry + chunk).lines == [line] + (p.lines + Split(p.carry + chunk).lines);
  }

  function NonEmpty(carry: string): seq<string> { if carry == "" then [] else [carry] }

  /** The lines of a finished text: an empty last part is no line. */
  function AllLines(s: string): seq<string> {
    Split(s).lines + NonEmpty(Split(s).carry)
  }

  /** Feeding a text chunk by chunk. */
  function Feed(chunks: seq<string>): Parts {
    if chunks == [] then Parts([], "") else After(Feed(chunks[..|chunks| - 1]), chunks[|chunks| - 1])
  }

  /** Any chunking gives the split of the whole text. */
  lemma {:induction false} ChunkInvariant(chunks: seq<string>)
    ensures Feed(chunks) == Split(Concat(chunks))
  {
    if chunks != [] {
      ChunkInvariant(chunks[..|chunks| - 1]);
      SplitAppend(Concat(chunks[..|chunks| - 1]), chunks[|chunks| - 1]);
      InitAndLast(chunks);
      ConcatSnoc(chunks[..|chunks| - 1], chunks[|chunks| - 1]);
    }
  }

  /** The carry buffer of one output stream and the lines its line handler has been given. The ghost
      history records the text received. The two streams of a child share nothing. */
  class StreamBuffer {
    var buffer: string
    var delivered: seq<string>
    ghost var received: string

    /** The stream stands exactly where splitting its whole text would. */
    ghost predicate Valid()
      reads this
    {
      Split(received) == Parts(delivered, buffer)
    }

    constructor ()
      ensures Valid() && received == ""
    {
      buffer, delivered, received := "", [], "";
    }

    method OnChunk(chunk: string)
      requires Valid()
      modifies this
      ensures Valid() && received == old(received) + chunk
    {
      SplitAppend(received, chunk);
      var parsed := CollectOutputLines(buffer, chunk);
      buffer := parsed.carry;
      received := received + chunk;
      Deliver(parsed.lines);
    }

    /** The line handler is called for one line after the other. */
    method Deliver(lines: seq<string>)
      modifies `delivered
      ensures delivered == old(delivered) + lines
    {
      for i := 0 to |lines|
        invariant delivered == old(delivered) + lines[..i]
      {
        assert lines[..i + 1] == lines[..i] + [lines[i]];
        delivered := delivered + [lines[i]];
      }
      assert lines[..|lines|] == lines;
    }

    /** A plain flush leaves a partial line alone; a partial flush delivers a non-empty carry as one
        last line and empties the buffer. */
    method Flush(flushPartial: bool)
      requires Valid()
      modifies this
      ensures received == old(received)
      ensures !flushPartial ==> Valid() && delivered == old(delivered)
      ensures flushPartial ==> delivered == AllLines(received) && buffer == ""
    {
      if !flushPartial || buffer == "" { return; }
      var line := buffer;
      buffer := "";
      delivered := delivered + [line];
    }
  }
}
