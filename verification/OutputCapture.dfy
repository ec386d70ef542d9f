/** Keeping the tail of a child's output (scripts/control-ui-i18n.ts). */
module OutputCapture {
  import opened Sequences

  datatype Capture = Capture(text: string, truncatedChars: nat)

  function AppendBoundedProcessOutput(capture: Capture, chunk: string, maxChars: nat): Capture {
    var nextText := capture.text + chunk;
    if |nextText| <= maxChars then Capture(nextText, capture.truncatedChars)
    else Capture(nextText[|nextText| - maxChars..], capture.truncatedChars + |nextText| - maxChars)
  }

  /** Capturing chunk by chunk. */
  function Captured(chunks: seq<string>, maxChars: nat): Capture {
    if chunks == [] then Capture("", 0)
    else AppendBoundedProcessOutput(Captured(chunks[..|chunks| - 1], maxChars), chunks[|chunks| - 1], maxChars)
  }

  /** The tail of a whole text. */
  function Tail(s: string, maxChars: nat): Capture {
    if |s| <= maxChars then Capture(s, 0) else Capture(s[|s| - maxChars..], |s| - maxChars)
  }

  lemma DropAppend(s: string, chunk: string, cut: nat)
    requires cut <= |s|
    ensures (s + chunk)[cut..] == s[cut..] + chunk
  {
  }

  lemma DropTwice(s: string, cut: nat, more: nat)
    requires cut + more <= |s|
    ensures s[cut..][more..] == s[cut + more..]
  {
  }

  lemma TailAppend(s: string, chunk: string, maxChars: nat)
    ensures AppendBoundedProcessOutput(Tail(s, maxChars), chunk, maxChars) == Tail(s + chunk, maxChars)
  {
    if |s| > maxChars {
      DropAppend(s, chunk, |s| - maxChars);
      DropTwice(s + chunk, |s| - maxChars, |chunk|);
    }
  }

  /** However the output is cut into chunks, its last characters are kept, as many as allowed, and all others are
      counted; so something is counted exactly when the output is longer than that. */
  lemma {:induction false} CaptureIsTail(chunks: seq<string>, maxChars: nat)
    ensures Captured(chunks, maxChars) == Tail(Concat(chunks), maxChars)
    ensures Captured(chunks, maxChars).truncatedChars > 0 <==> |Concat(chunks)| > maxChars
  {
    if chunks != [] {
      CaptureIsTail(chunks[..|chunks| - 1], maxChars);
      TailAppend(Concat(chunks[..|chunks| - 1]), chunks[|chunks| - 1], maxChars);
      InitAndLast(chunks);
      ConcatSnoc(chunks[..|chunks| - 1], chunks[|chunks| - 1]);
    }
  }
}
