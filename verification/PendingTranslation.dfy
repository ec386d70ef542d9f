/** Translating all pending items, batch after batch (scripts/control-ui-i18n.ts), as a function of the provider's
    outcomes. */
module PendingTranslation {
  import opened Wrappers
  import opened Sequences
  import opened Batching
  import opened BatchTranslation

  /** What came of the batches, and the prompt count then. */
  datatype Answer = Answer(result: Result<map<string, string>, string>, next: nat)

  /** One batch after the other, up to the first that fails. */
  function TranslateAll(replies: nat -> Outcome, next: nat, batches: seq<seq<BatchItem>>): Answer {
    if batches == [] then Answer(Ok(map[]), next)
    else
      var before := TranslateAll(replies, next, batches[..|batches| - 1]);
      match before.result
      case Err(_) => before
      case Ok(m) =>
        var run := Translate(replies, before.next, batches[|batches| - 1], 0, 0);
        Answer(if run.result.Ok? then Ok(m + run.result.value) else run.result, run.next)
  }

  lemma AllSnoc(replies: nat -> Outcome, next: nat, batches: seq<seq<BatchItem>>, b: nat)
    requires b < |batches| && TranslateAll(replies, next, batches[..b]).result.Ok?
    ensures var before := TranslateAll(replies, next, batches[..b]);
      var run := Translate(replies, before.next, batches[b], 0, 0);
      TranslateAll(replies, next, batches[..b + 1])
      == Answer(if run.result.Ok? then Ok(before.result.value + run.result.value) else run.result, run.next)
  {
    PrefixSnoc(batches, b);
  }

  /** A batch that fails is the last one asked for. */
  lemma {:induction false} FailureIsLasting(replies: nat -> Outcome, next: nat, batches: seq<seq<BatchItem>>, b: nat)
    requires b <= |batches| && TranslateAll(replies, next, batches[..b]).result.Err?
    ensures TranslateAll(replies, next, batches) == TranslateAll(replies, next, batches[..b])
    decreases |batches|
  {
    if b < |batches| {
      assert batches[..|batches| - 1][..b] == batches[..b];
      FailureIsLasting(replies, next, batches[..|batches| - 1], b);
    } else {
      assert batches[..b] == batches;
    }
  }

  /** Every text comes from a reply that was accepted for some items of the batch that holds its key. */
  ghost predicate FromBatch(replies: nat -> Outcome, from: nat, to: nat, batch: seq<BatchItem>, key: string,
                            text: string) {
    Sourced(replies, from, to, batch, 0, |batch|, key, text)
  }

  lemma FromBatchLater(replies: nat -> Outcome, from': nat, from: nat, to: nat, to': nat, batch: seq<BatchItem>,
                       key: string, text: string)
    requires from' <= from && to <= to' && FromBatch(replies, from, to, batch, key, text)
    ensures FromBatch(replies, from', to', batch, key, text)
  {
    var m := map[key := text];
    assert AllSourced(replies, from, to, m, batch, 0, |batch|);
    Widen(replies, from', from, to, to', m, batch, 0, 0, |batch|, |batch|);
    assert key in m && m[key] == text;
  }

  ghost predicate AllFrom(replies: nat -> Outcome, from: nat, to: nat, m: map<string, string>,
                          batches: seq<seq<BatchItem>>, n: nat)
    requires n <= |batches|
  {
    forall k :: k in m ==> exists b :: 0 <= b < n && FromBatch(replies, from, to, batches[b], k, m[k])
  }

  /** What all batches bring: exactly the items' keys, each with a text of its batch. */
  lemma {:induction false} AllMeaning(replies: nat -> Outcome, next: nat, batches: seq<seq<BatchItem>>)
    ensures var all := TranslateAll(replies, next, batches);
      next <= all.next
      && (all.result.Ok? ==> all.result.value.Keys == Keys(Concat(batches))
                             && AllFrom(replies, next, all.next, all.result.value, batches, |batches|))
  {
    if batches != [] {
      var n := |batches| - 1;
      var before := TranslateAll(replies, next, batches[..n]);
      AllMeaning(replies, next, batches[..n]);
      if before.result.Ok? {
        TranslateMeaning(replies, before.next, batches[n], 0, 0);
        AllSnoc(replies, next, batches, n);
        assert batches[..n + 1] == batches;
        assert AllFrom(replies, next, before.next, before.result.value, batches[..n], n);
        if TranslateAll(replies, next, batches).result.Ok? { AllMore(replies, next, batches, n); }
      }
    }
  }

  lemma AllMore(replies: nat -> Outcome, next: nat, batches: seq<seq<BatchItem>>, n: nat)
    requires n == |batches| - 1 && TranslateAll(replies, next, batches[..n]).result.Ok?
    requires var before := TranslateAll(replies, next, batches[..n]);
      next <= before.next && before.result.value.Keys == Keys(Concat(batches[..n]))
      && AllFrom(replies, next, before.next, before.result.value, batches, n)
      && var run := Translate(replies, before.next, batches[n], 0, 0);
         run.result.Ok? && run.next > before.next
         && Translated(replies, before.next, run.next, run.result.value, batches[n])
         && TranslateAll(replies, next, batches) == Answer(Ok(before.result.value + run.result.value), run.next)
    ensures var all := TranslateAll(replies, next, batches);
      all.result.value.Keys == Keys(Concat(batches))
      && AllFrom(replies, next, all.next, all.result.value, batches, |batches|)
  {
    var before := TranslateAll(replies, next, batches[..n]);
    var run := Translate(replies, before.next, batches[n], 0, 0);
    var all := TranslateAll(replies, next, batches);
    InitAndLast(batches);
    ConcatSnoc(batches[..n], batches[n]);
    KeysAppend(Concat(batches[..n]), batches[n]);
    forall k | k in all.result.value
      ensures exists b :: 0 <= b < |batches| && FromBatch(replies, next, all.next, batches[b], k, all.result.value[k])
    {
      if k in run.result.value {
        FromBatchLater(replies, next, before.next, run.next, run.next, batches[n], k, run.result.value[k]);
      } else {
        var b :| 0 <= b < n && FromBatch(replies, next, before.next, batches[b], k, before.result.value[k]);
        FromBatchLater(replies, next, next, before.next, run.next, batches[b], k, before.result.value[k]);
      }
    }
  }
}
