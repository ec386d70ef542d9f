/** What the attempts on a batch decide (scripts/control-ui-i18n.ts): when it comes back, when it is put once more for
    the
    same items, when it is halved and when it fails. */
module BatchAttempts {
  import opened Wrappers
  import opened Text
  import opened Batching
  import opened BatchTranslation

  // ---- when a batch is retried, and when it is split

  /** The prompt failed by timing out. */
  predicate TimedOut(outcome: Outcome, items: seq<BatchItem>) {
    Attempt(outcome, items).Err? && IsPromptTimeoutError(Attempt(outcome, items).error)
  }

  /** The reply covers every item. */
  ghost predicate Answers(outcome: Outcome, items: seq<BatchItem>) {
    outcome.Reply? && forall k :: 0 <= k < |items| ==> items[k].key in outcome.values
                                                        && !IsBlank(outcome.values[items[k].key])
  }

  /** Nothing but the texts that the reply has for the items. */
  ghost predicate TextsFrom(m: map<string, string>, outcome: Outcome, items: seq<BatchItem>) {
    outcome.Reply? && (forall k :: k in m <==> exists i :: 0 <= i < |items| && items[i].key == k)
    && forall k :: k in m ==> k in outcome.values && m[k] == outcome.values[k]
  }

  /** A prompt answers, times out or fails plainly. */
  lemma AttemptIs(outcome: Outcome, items: seq<BatchItem>)
    ensures Answers(outcome, items) <==> Attempt(outcome, items).Ok?
    ensures !Answers(outcome, items) <==> TimedOut(outcome, items) || FailedPlainly(outcome, items)
    ensures Answers(outcome, items) ==> TextsFrom(Attempt(outcome, items).value, outcome, items)
  {
    if outcome.Reply? {
      ReadReplyMeaning(outcome.values, items);
      KeysAre(items);
      assert AllCovered(outcome.values, items, 0, |items|) <==> Answers(outcome, items);
    }
  }

  /** The call ended without a split, with prompt `last` as its last one. */
  ghost predicate EndsWith(run: Run, replies: nat -> Outcome, last: nat, items: seq<BatchItem>, splitDepth: nat) {
    && run.next == last + 1 && run.deepest == splitDepth
    && if Answers(replies(last), items) then run.result.Ok? && TextsFrom(run.result.value, replies(last), items)
       else run.result.Err? && run.result == Attempt(replies(last), items)
  }

  /** The call halved the items, the first half the longer one if they are not even, and translated the halves from
      prompt `first` on: first one, then the other; a half that failed is the failure of the whole. */
  ghost predicate Halved(run: Run, replies: nat -> Outcome, first: nat, items: seq<BatchItem>, splitDepth: nat) {
    var a, b := items[..|items| - |items| / 2], items[|items| - |items| / 2..];
    var left := Translate(replies, first, a, 0, splitDepth + 1);
    var right := Translate(replies, left.next, b, 0, splitDepth + 1);
    if left.result.Err? then run == left
    else
      && run.next == right.next && run.deepest >= left.deepest && run.deepest >= right.deepest
      && run.deepest in {left.deepest, right.deepest}
      && run.result == if right.result.Err? then right.result else Ok(left.result.value + right.result.value)
  }

  lemma HalvedBy(replies: nat -> Outcome, next: nat, items: seq<BatchItem>, attempt: nat, splitDepth: nat)
    requires attempt < TRANSLATE_MAX_ATTEMPTS && TimedOut(replies(next), items) && |items| > 1
    ensures Halved(Translate(replies, next, items, attempt, splitDepth), replies, next + 1, items, splitDepth)
  {
    assert (|items| + 1) / 2 == |items| - |items| / 2;
    TranslateSplits(replies, next, items, attempt, splitDepth);
  }

  /** What becomes of a batch: an answered prompt ends it. One that fails without a time-out is put once more for the
      same items, and its second outcome counts. A time-out, of either attempt, halves a batch of several items at once
      and ends one of a single item. */
  lemma AttemptsDecide(replies: nat -> Outcome, next: nat, items: seq<BatchItem>, splitDepth: nat)
    ensures var run := Translate(replies, next, items, 0, splitDepth);
      if Answers(replies(next), items) then EndsWith(run, replies, next, items, splitDepth)
      else if TimedOut(replies(next), items) then
        if |items| > 1 then Halved(run, replies, next + 1, items, splitDepth)
        else EndsWith(run, replies, next, items, splitDepth)
      else if TimedOut(replies(next + 1), items) && |items| > 1 then
        Halved(run, replies, next + 2, items, splitDepth)
      else EndsWith(run, replies, next + 1, items, splitDepth)
  {
    AttemptIs(replies(next), items);
    AttemptIs(replies(next + 1), items);
    if TimedOut(replies(next), items) && |items| > 1 { HalvedBy(replies, next, items, 0, splitDepth); }
    if FailedPlainly(replies(next), items) {
      SecondAttempt(replies, next, items, splitDepth);
      if TimedOut(replies(next + 1), items) && |items| > 1 { HalvedBy(replies, next + 1, items, 1, splitDepth); }
    }
  }

  lemma SecondAttempt(replies: nat -> Outcome, next: nat, items: seq<BatchItem>, splitDepth: nat)
    requires FailedPlainly(replies(next), items)
    ensures Translate(replies, next, items, 0, splitDepth) == Translate(replies, next + 1, items, 1, splitDepth)
  {
  }

  /** A batch is split exactly when it has several items and one of the attempts on all of them timed out. */
  lemma SplitIff(replies: nat -> Outcome, next: nat, items: seq<BatchItem>, splitDepth: nat)
    ensures Translate(replies, next, items, 0, splitDepth).deepest > splitDepth
            <==> |items| > 1
                 && (TimedOut(replies(next), items)
                     || (FailedPlainly(replies(next), items) && TimedOut(replies(next + 1), items)))
  {
    AttemptsDecide(replies, next, items, splitDepth);
    AttemptIs(replies(next), items);
    AttemptIs(replies(next + 1), items);
    var half := |items| - |items| / 2;
    DepthBounded(replies, next + 1, items[..half], 0, splitDepth + 1);
    DepthBounded(replies, next + 2, items[..half], 0, splitDepth + 1);
  }

  /** A batch that timed out and whose halves are both answered comes back with both answers. */
  lemma HalvesAnswered(replies: nat -> Outcome, next: nat, items: seq<BatchItem>, splitDepth: nat)
    requires |items| > 1 && TimedOut(replies(next), items)
    requires Answers(replies(next + 1), items[..|items| - |items| / 2])
    requires Answers(replies(next + 2), items[|items| - |items| / 2..])
    ensures var run := Translate(replies, next, items, 0, splitDepth);
      run.next == next + 3 && run.deepest == splitDepth + 1 && run.result.Ok? && run.result.value.Keys == Keys(items)
  {
    var a, b := items[..|items| - |items| / 2], items[|items| - |items| / 2..];
    AttemptIs(replies(next), items);
    AttemptsDecide(replies, next, items, splitDepth);
    AttemptsDecide(replies, next + 1, a, splitDepth + 1);
    AttemptsDecide(replies, next + 2, b, splitDepth + 1);
    TranslateKeys(replies, next, items, 0, splitDepth);
  }

  // ---- what counts as a time-out

  /** An item that the reply does not cover is named by the error, the first one of them. */
  lemma {:induction false} MissingIs(values: map<string, string>, items: seq<BatchItem>, i: nat)
    requires i < |items| && !Covers(values, items[i].key) && AllCovered(values, items, 0, i)
    ensures ReadReply(values, items) == Err("missing translation for " + items[i].key)
  {
    var n := |items| - 1;
    if i < n {
      assert items[..n][i] == items[i];
      MissingIs(values, items[..n], i);
    } else {
      ReadReplyMeaning(values, items[..n]);
    }
  }

  /** A time-out is told by the words "timed out" in the message, in any case of the letters. */
  lemma TimeoutIff(message: string)
    ensures IsPromptTimeoutError(message)
            <==> exists i: nat :: OccursAt(message, "timed out", i)
  {
    ContainsLower(message, "timed out");
  }

  /** The words do not begin inside the fixed part of the message. */
  lemma NotInPrefix(key: string, i: nat)
    requires OccursAt("missing translation for " + key, "timed out", i)
    ensures i >= 24 && OccursAt(key, "timed out", i - 24)
  {
    var prefix, words := "missing translation for ", "timed out";
    var message := prefix + key;
    assert IsCaseOf(message[i], words[0]) && IsCaseOf(message[i + 1], words[1]) && IsCaseOf(message[i + 2], words[2]);
    if i < 24 { assert false; }
    forall j | 0 <= j < |words| ensures IsCaseOf(key[i - 24 + j], words[j]) {
      assert message[i + j] == key[i - 24 + j];
    }
  }

  lemma KeyShows(key: string, i: nat)
    requires OccursAt(key, "timed out", i)
    ensures OccursAt("missing translation for " + key, "timed out", i + 24)
  {
    var words, message := "timed out", "missing translation for " + key;
    forall j | 0 <= j < |words| ensures IsCaseOf(message[i + 24 + j], words[j]) {
      assert message[i + 24 + j] == key[i + j];
    }
  }

  /** Item i is the first one that the reply does not cover. */
  ghost predicate FirstMissing(values: map<string, string>, items: seq<BatchItem>, i: nat) {
    i < |items| && !Covers(values, items[i].key) && AllCovered(values, items, 0, i)
  }

  /** A reply that misses an item is taken for a time-out, and its batch halved at once, exactly when the key of the
      first
      item missed has these words in it. */
  lemma MissingTimesOutIff(values: map<string, string>, items: seq<BatchItem>, i: nat)
    requires FirstMissing(values, items, i)
    ensures TimedOut(Reply(values), items) <==> exists at: nat :: OccursAt(items[i].key, "timed out", at)
  {
    var key := items[i].key;
    MissingIs(values, items, i);
    TimeoutIff("missing translation for " + key);
    if at: nat :| OccursAt("missing translation for " + key, "timed out", at) { NotInPrefix(key, at); }
    if at: nat :| OccursAt(key, "timed out", at) { KeyShows(key, at); }
  }
}
