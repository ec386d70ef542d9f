/** Packing the keys that still need a translation into prompts, in order, under a character budget
    and a limit on the number of items (scripts/control-ui-i18n.ts). */
module Batching {
  import opened Sequences

  const MAX_BATCH_ITEMS := 20

  datatype BatchItem = BatchItem(cacheKey: string, key: string, text: string, textHash: string)

  function EstimateBatchChars(items: seq<BatchItem>): nat {
    if items == [] then 2
    else
      var last := items[|items| - 1];
      EstimateBatchChars(items[..|items| - 1]) + |last.key| + |last.text| + 8
  }

  /** The counter the packing loop keeps for a batch: every item is charged its own one-item estimate. */
  function RunningChars(batch: seq<BatchItem>): nat {
    if batch == [] then 2 else RunningChars(batch[..|batch| - 1]) + EstimateBatchChars([batch[|batch| - 1]])
  }

  /** The limits: an item too large for the budget is still sent, alone. */
  ghost predicate Fits(batch: seq<BatchItem>, budget: real) {
    1 <= |batch| <= 20 && (|batch| == 1 || RunningChars(batch) as real <= budget)
  }

  ghost predicate Packing(batches: seq<seq<BatchItem>>, items: seq<BatchItem>, budget: real) {
    Concat(batches) == items && forall k :: 0 <= k < |batches| ==> Fits(batches[k], budget)
  }

  /** No batch could have taken the first item of the next one. */
  ghost predicate Greedy(batches: seq<seq<BatchItem>>, budget: real) {
    && (forall k :: 0 <= k < |batches| ==> batches[k] != [])
    && forall k :: 0 < k < |batches| ==> !Fits(batches[k - 1] + [batches[k][0]], budget)
  }

  lemma {:induction false} RunningIsEstimate(batch: seq<BatchItem>)
    ensures RunningChars(batch) == EstimateBatchChars(batch) + 2 * |batch|
  {
    if batch != [] {
      RunningIsEstimate(batch[..|batch| - 1]);
      OneItemEstimate(batch[|batch| - 1]);
    }
  }

  lemma OneItemEstimate(item: BatchItem)
    ensures EstimateBatchChars([item]) == |item.key| + |item.text| + 10
  {
    assert [item][..0] == [];
  }

  lemma {:induction false} RunningMonotone(a: seq<BatchItem>, b: seq<BatchItem>, c: seq<BatchItem>)
    ensures RunningChars(b) <= RunningChars(a + b + c)
    decreases |a| + |b| + |c|
  {
    if c != [] {
      assert (a + b + c)[..|a + b + c| - 1] == a + b + c[..|c| - 1];
      RunningMonotone(a, b, c[..|c| - 1]);
    } else if b != [] {
      assert (a + b + c)[..|a + b + c| - 1] == a + b[..|b| - 1] + c;
      assert (a + b + c)[|a + b + c| - 1] == b[|b| - 1];
      RunningMonotone(a, b[..|b| - 1], c);
    } else {
      RunningIsEstimate(a + b + c);
      EstimateAtLeast(a + b + c);
    }
  }

  lemma {:induction false} EstimateAtLeast(items: seq<BatchItem>)
    ensures EstimateBatchChars(items) >= 2
  {
    if items != [] { EstimateAtLeast(items[..|items| - 1]); }
  }

  lemma FitsInside(a: seq<BatchItem>, b: seq<BatchItem>, c: seq<BatchItem>, budget: real)
    requires Fits(a + b + c, budget) && b != []
    ensures Fits(b, budget)
  {
    RunningMonotone(a, b, c);
  }

  /** A greedy batch starting at d reaches at least as far as any fitting batch starting at 0. */
  lemma GreedyReaches(items: seq<BatchItem>, d: nat, b: nat, a: nat, budget: real)
    requires 1 <= a <= |items| && Fits(items[..a], budget)
    requires 1 <= b && d + b < |items| && !Fits(items[d..d + b] + [items[d + b]], budget)
    ensures a <= d + b
  {
    if d + b < a {
      assert items[..a] == items[..d] + (items[d..d + b] + [items[d + b]]) + items[d + b + 1..a];
      FitsInside(items[..d], items[d..d + b] + [items[d + b]], items[d + b + 1..a], budget);
    }
  }

  /** Greedy stays ahead: started d items late it still needs no more batches than any other packing. */
  lemma {:induction false} GreedyStaysAhead(greedy: seq<seq<BatchItem>>, other: seq<seq<BatchItem>>,
                                            items: seq<BatchItem>, d: nat, budget: real)
    requires d <= |items| && Concat(greedy) == items[d..] && Greedy(greedy, budget)
    requires Packing(other, items, budget)
    ensures |greedy| <= |other|
    decreases |greedy|
  {
    if greedy != [] {
      var b := |greedy[0]|;
      assert greedy[0] != [];
      assert other != [];
      var a := |other[0]|;
      assert items[..a] == other[0] && items[a..] == Concat(other[1..]);
      assert Fits(other[0], budget);
      assert items[d..][..b] == greedy[0] == items[d..d + b];
      assert items[d..][b..] == items[d + b..] == Concat(greedy[1..]);
      if |greedy| > 1 {
        assert greedy[1..][0] == greedy[1] && greedy[1] != [];
        assert items[d + b] == greedy[1][0];
        GreedyReaches(items, d, b, a, budget);
      }
      assert Greedy(greedy[1..], budget) by {
        forall k | 0 < k < |greedy[1..]| ensures !Fits(greedy[1..][k - 1] + [greedy[1..][k][0]], budget) {
          assert greedy[1..][k - 1] == greedy[k] && greedy[1..][k] == greedy[k + 1];
        }
      }
      assert forall k :: 0 <= k < |other[1..]| ==> other[1..][k] == other[k + 1];
      assert items[a..][d + b - a..] == items[d + b..];
      GreedyStaysAhead(greedy[1..], other[1..], items[a..], d + b - a, budget);
    }
  }

  /** A greedy packing's first batch is as long as any other one's. */
  lemma FirstBatchReaches(a: seq<seq<BatchItem>>, b: seq<seq<BatchItem>>, items: seq<BatchItem>, budget: real)
    requires Packing(a, items, budget) && Packing(b, items, budget) && Greedy(a, budget) && items != []
    ensures a != [] && b != [] && |b[0]| <= |a[0]|
  {
    assert Fits(a[0], budget) && Fits(b[0], budget);
    assert items == a[0] + Concat(a[1..]) == b[0] + Concat(b[1..]);
    assert items[..|b[0]|] == b[0];
    if |a| > 1 {
      assert a[1] != [] && Concat(a[1..]) == a[1] + Concat(a[1..][1..]);
      assert items[0..0 + |a[0]|] == a[0] && items[0 + |a[0]|] == a[1][0];
      GreedyReaches(items, 0, |a[0]|, |b[0]|, budget);
    }
  }

  lemma PackingTail(batches: seq<seq<BatchItem>>, items: seq<BatchItem>, budget: real)
    requires Packing(batches, items, budget) && Greedy(batches, budget) && batches != []
    ensures items[..|batches[0]|] == batches[0] && Fits(batches[0], budget)
    ensures Packing(batches[1..], items[|batches[0]|..], budget) && Greedy(batches[1..], budget)
  {
    assert items == batches[0] + Concat(batches[1..]);
    assert forall k :: 0 <= k < |batches[1..]| ==> batches[1..][k] == batches[k + 1];
  }

  /** No other greedy packing exists. */
  lemma {:induction false} GreedyUnique(a: seq<seq<BatchItem>>, b: seq<seq<BatchItem>>, items: seq<BatchItem>,
                                        budget: real)
    requires Packing(a, items, budget) && Greedy(a, budget) && Packing(b, items, budget) && Greedy(b, budget)
    ensures a == b
    decreases |items|
  {
    if items == [] {
      EmptyPacking(a, items, budget);
      EmptyPacking(b, items, budget);
    } else {
      FirstBatchReaches(a, b, items, budget);
      FirstBatchReaches(b, a, items, budget);
      PackingTail(a, items, budget);
      PackingTail(b, items, budget);
      GreedyUnique(a[1..], b[1..], items[|a[0]|..], budget);
      assert a == [a[0]] + a[1..] && b == [b[0]] + b[1..];
    }
  }

  lemma EmptyPacking(batches: seq<seq<BatchItem>>, items: seq<BatchItem>, budget: real)
    requires Packing(batches, items, budget)
    ensures batches == [] <==> items == []
  {
    if batches != [] { assert Fits(batches[0], budget); }
  }

  /** The packing loop after the items `done`: closed batches and the one being filled. */
  ghost predicate Progress(batches: seq<seq<BatchItem>>, current: seq<BatchItem>, done: seq<BatchItem>, budget: real) {
    && Concat(batches) + current == done
    && (current == [] ==> batches == [])
    && (current != [] ==> Fits(current, budget) && Greedy(batches + [current], budget))
    && forall k :: 0 <= k < |batches| ==> Fits(batches[k], budget)
  }

  lemma AddToCurrent(batches: seq<seq<BatchItem>>, current: seq<BatchItem>, done: seq<BatchItem>, item: BatchItem,
                     budget: real)
    requires Progress(batches, current, done, budget) && Fits(current + [item], budget)
    ensures Progress(batches, current + [item], done + [item], budget)
  {
    assert Concat(batches) + (current + [item]) == done + [item];
    if current != [] {
      var before, after := batches + [current], batches + [current + [item]];
      forall k | 0 <= k < |after| ensures after[k] != [] { assert before[k] != []; }
      forall k | 0 < k < |after| ensures !Fits(after[k - 1] + [after[k][0]], budget) {
        assert before[k] != [] && after[k - 1] == before[k - 1] && after[k][0] == before[k][0];
      }
    }
  }

  lemma StartBatch(batches: seq<seq<BatchItem>>, current: seq<BatchItem>, done: seq<BatchItem>, item: BatchItem,
                   budget: real)
    requires Progress(batches, current, done, budget) && current != [] && !Fits(current + [item], budget)
    ensures Progress(batches + [current], [item], done + [item], budget)
  {
    ConcatSnoc(batches, current);
    var before, after := batches + [current], batches + [current] + [[item]];
    forall k | 0 <= k < |after| ensures after[k] != [] { assert k < |before| ==> before[k] != []; }
    forall k | 0 < k < |after| ensures !Fits(after[k - 1] + [after[k][0]], budget) {
      assert k < |before| ==> after[k - 1] == before[k - 1] && after[k] == before[k];
    }
  }

  predicate MustClose(current: seq<BatchItem>, currentChars: nat, item: BatchItem, budget: real) {
    || (|current| > 0 && (currentChars + EstimateBatchChars([item])) as real > budget)
    || |current| >= MAX_BATCH_ITEMS
  }

  lemma RunningMore(current: seq<BatchItem>, item: BatchItem)
    ensures RunningChars(current + [item]) == RunningChars(current) + EstimateBatchChars([item])
  {
    assert (current + [item])[..|current|] == current;
  }

  lemma Finished(batches: seq<seq<BatchItem>>, current: seq<BatchItem>, all: seq<seq<BatchItem>>,
                 items: seq<BatchItem>, budget: real)
    requires Progress(batches, current, items, budget) && all == if current == [] then batches else batches + [current]
    ensures Packing(all, items, budget) && Greedy(all, budget) && FewestBatches(all, items, budget)
  {
    ConcatSnoc(batches, current);
    assert items[0..] == items;
    forall other | Packing(other, items, budget) ensures |all| <= |other| {
      GreedyStaysAhead(all, other, items, 0, budget);
    }
  }

  ghost predicate FewestBatches(batches: seq<seq<BatchItem>>, items: seq<BatchItem>, budget: real) {
    forall other :: Packing(other, items, budget) ==> |batches| <= |other|
  }

  /** The loop's body: the current batch is closed if the item does not fit, then the item is added. */
  method AddItem(batches: seq<seq<BatchItem>>, current: seq<BatchItem>, currentChars: nat, item: BatchItem,
                 ghost done: seq<BatchItem>, budget: real)
    returns (nextBatches: seq<seq<BatchItem>>, nextCurrent: seq<BatchItem>, nextChars: nat)
    requires Progress(batches, current, done, budget) && currentChars == RunningChars(current)
    ensures Progress(nextBatches, nextCurrent, done + [item], budget) && nextChars == RunningChars(nextCurrent)
  {
    RunningMore(current, item);
    if MustClose(current, currentChars, item, budget) {
      StartBatch(batches, current, done, item, budget);
      RunningMore([], item);
      assert [] + [item] == [item];
      return batches + [current], [item], 2 + EstimateBatchChars([item]);
    }
    AddToCurrent(batches, current, done, item, budget);
    return batches, current + [item], currentChars + EstimateBatchChars([item]);
  }

  /** The batches hold the items in order, respect the limits, and no packing that keeps the order
      and the limits has fewer batches. */
  method BuildTranslationBatches(items: seq<BatchItem>, budget: real) returns (batches: seq<seq<BatchItem>>)
    requires budget > 0.0
    ensures Packing(batches, items, budget) && Greedy(batches, budget) && FewestBatches(batches, items, budget)
  {
    batches := [];
    var current: seq<BatchItem>, currentChars: nat := [], 2;
    ghost var done: seq<BatchItem> := [];
    var i := 0;
    while i < |items|
      invariant 0 <= i <= |items| && done == items[..i]
      invariant currentChars == RunningChars(current)
      invariant Progress(batches, current, done, budget)
    {
      PrefixSnoc(items, i);
      batches, current, currentChars := AddItem(batches, current, currentChars, items[i], done, budget);
      done := done + [items[i]];
      i := i + 1;
    }
    assert items[..i] == items;
    ghost var closed := batches;
    if |current| > 0 {
      batches := batches + [current];
    }
    Finished(closed, current, batches, items, budget);
  }

  /** A batch of several items keeps its estimate, plus two characters an item, within the budget. */
  lemma BatchEstimate(batches: seq<seq<BatchItem>>, items: seq<BatchItem>, budget: real, k: nat)
    requires Packing(batches, items, budget) && k < |batches| && |batches[k]| > 1
    ensures (EstimateBatchChars(batches[k]) + 2 * |batches[k]|) as real <= budget
  {
    RunningIsEstimate(batches[k]);
  }
}
