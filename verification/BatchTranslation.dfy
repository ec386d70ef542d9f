/** Translating one batch: two attempts, and a batch whose prompt timed out is halved and both halves
    are translated on their own (scripts/control-ui-i18n.ts). The provider is a stream of outcomes,
    one per prompt. */
module BatchTranslation {
  import opened Wrappers
  import opened Text
  import opened Batching

  const TRANSLATE_MAX_ATTEMPTS := 2

  /** What one prompt comes to: an object whose string properties are `values`, or an error
      (transport, time-out, or a reply that is no object). */
  datatype Outcome = Reply(values: map<string, string>) | Failed(message: string)

  predicate IsPromptTimeoutError(message: string) { Contains(ToLower(message), "timed out") }

  function MissingTranslation(key: string): string { "missing translation for " + key }

  predicate Covers(values: map<string, string>, key: string) { key in values && !IsBlank(values[key]) }

  /** Reading a reply: every item must be covered; the first one that is not is the error. */
  function ReadReply(values: map<string, string>, items: seq<BatchItem>): Result<map<string, string>, string> {
    if items == [] then Ok(map[])
    else
      var n := |items| - 1;
      match ReadReply(values, items[..n])
      case Err(e) => Err(e)
      case Ok(m) => if Covers(values, items[n].key) then Ok(m[items[n].key := values[items[n].key]])
                    else Err(MissingTranslation(items[n].key))
  }

  function Attempt(outcome: Outcome, items: seq<BatchItem>): Result<map<string, string>, string> {
    match outcome
    case Failed(message) => Err(message)
    case Reply(values) => ReadReply(values, items)
  }

  /** A finished call: its result, the prompt count after it and the deepest split below it. */
  datatype Run = Run(result: Result<map<string, string>, string>, next: nat, deepest: nat)

  function Max(a: nat, b: nat): nat { if a < b then b else a }

  function Merge(left: Run, right: Run): Run {
    var deepest := Max(left.deepest, right.deepest);
    match right.result
    case Err(_) => right.(deepest := deepest)
    case Ok(m) => if left.result.Ok? then Run(Ok(left.result.value + m), right.next, deepest) else left
  }

  /** What the caller does with the outcome of an attempt. */
  datatype Step = Return(m: map<string, string>) | Split(midpoint: nat) | Retry | GiveUp(error: string)

  function Next(outcome: Outcome, items: seq<BatchItem>, attempt: nat): (step: Step)
    ensures step.Split? ==> 1 <= step.midpoint == (|items| + 1) / 2 < |items|
    ensures step.Retry? ==> attempt + 1 < TRANSLATE_MAX_ATTEMPTS
  {
    match Attempt(outcome, items)
    case Ok(m) => Return(m)
    case Err(e) =>
      if IsPromptTimeoutError(e) && |items| > 1 then Split((|items| + 1) / 2)
      else if !IsPromptTimeoutError(e) && attempt + 1 < TRANSLATE_MAX_ATTEMPTS then Retry
      else GiveUp(e)
  }

  function Translate(replies: nat -> Outcome, next: nat, items: seq<BatchItem>, attempt: nat, splitDepth: nat): Run
    requires attempt < TRANSLATE_MAX_ATTEMPTS
    decreases |items|, TRANSLATE_MAX_ATTEMPTS - attempt
  {
    match Next(replies(next), items, attempt)
    case Return(m) => Run(Ok(m), next + 1, splitDepth)
    case Split(midpoint) =>
      var left := Translate(replies, next + 1, items[..midpoint], 0, splitDepth + 1);
      if left.result.Err? then left
      else Merge(left, Translate(replies, left.next, items[midpoint..], 0, splitDepth + 1))
    case Retry => Translate(replies, next + 1, items, attempt + 1, splitDepth)
    case GiveUp(e) => Run(Err(e), next + 1, splitDepth)
  }

  /** The provider's answers and how many prompts have been sent. */
  class Provider {
    const replies: nat -> Outcome
    var next: nat

    constructor (replies: nat -> Outcome)
      ensures this.replies == replies && next == 0
    {
      this.replies := replies;
      next := 0;
    }

    method Prompt() returns (outcome: Outcome)
      modifies this
      ensures outcome == replies(old(next)) && next == old(next) + 1
    {
      outcome := replies(next);
      next := next + 1;
    }
  }

  method ReadItems(values: map<string, string>, items: seq<BatchItem>) returns (r: Result<map<string, string>, string>)
    ensures r == ReadReply(values, items)
  {
    var translated: map<string, string> := map[];
    var i := 0;
    while i < |items|
      invariant 0 <= i <= |items|
      invariant ReadReply(values, items[..i]) == Ok(translated)
    {
      assert items[..i + 1][..i] == items[..i];
      if items[i].key !in values || IsBlank(values[items[i].key]) {
        MissingIsLasting(values, items, i + 1);
        return Err(MissingTranslation(items[i].key));
      }
      translated := translated[items[i].key := values[items[i].key]];
      i := i + 1;
    }
    assert items[..i] == items;
    return Ok(translated);
  }

  lemma {:induction false} MissingIsLasting(values: map<string, string>, items: seq<BatchItem>, i: nat)
    requires i <= |items| && ReadReply(values, items[..i]).Err?
    ensures ReadReply(values, items) == ReadReply(values, items[..i])
    decreases |items|
  {
    if i < |items| {
      assert items[..|items| - 1][..i] == items[..i];
      MissingIsLasting(values, items[..|items| - 1], i);
    } else {
      assert items[..i] == items;
    }
  }

  /** One prompt and the reading of its reply. */
  method TryOnce(provider: Provider, items: seq<BatchItem>) returns (r: Result<map<string, string>, string>)
    modifies provider
    ensures r == Attempt(provider.replies(old(provider.next)), items) && provider.next == old(provider.next) + 1
  {
    var outcome := provider.Prompt();
    match outcome {
      case Reply(values) => r := ReadItems(values, items);
      case Failed(message) => r := Err(message);
    }
  }

  /** The two halves of a batch that timed out, one after the other; the first failure ends it. */
  method TranslateHalves(provider: Provider, items: seq<BatchItem>, midpoint: nat, ghost splitDepth: nat)
    returns (r: Result<map<string, string>, string>, ghost deepest: nat)
    requires 1 <= midpoint < |items|
    modifies provider
    ensures var left := Translate(provider.replies, old(provider.next), items[..midpoint], 0, splitDepth);
      Run(r, provider.next, deepest)
      == if left.result.Err? then left
         else Merge(left, Translate(provider.replies, left.next, items[midpoint..], 0, splitDepth))
    decreases |items|, 0
  {
    var left, right: Result<map<string, string>, string>;
    ghost var leftDeepest, rightDeepest;
    left, leftDeepest := TranslateBatch(provider, items[..midpoint], splitDepth);
    if left.Err? { return left, leftDeepest; }
    right, rightDeepest := TranslateBatch(provider, items[midpoint..], splitDepth);
    deepest := Max(leftDeepest, rightDeepest);
    if right.Err? { return right, deepest; }
    return Ok(left.value + right.value), deepest;
  }

  method TranslateBatch(provider: Provider, items: seq<BatchItem>, ghost splitDepth: nat)
    returns (r: Result<map<string, string>, string>, ghost deepest: nat)
    modifies provider
    ensures Run(r, provider.next, deepest) == Translate(provider.replies, old(provider.next), items, 0, splitDepth)
    decreases |items|, 1
  {
    ghost var run := Translate(provider.replies, provider.next, items, 0, splitDepth);
    var lastError := "";
    deepest := splitDepth;
    var attempt := 0;
    while attempt < TRANSLATE_MAX_ATTEMPTS
      invariant 0 <= attempt <= TRANSLATE_MAX_ATTEMPTS && deepest == splitDepth
      invariant attempt < TRANSLATE_MAX_ATTEMPTS
           ==> run == Translate(provider.replies, provider.next, items, attempt, splitDepth)
      invariant attempt == TRANSLATE_MAX_ATTEMPTS ==> run == Run(Err(lastError), provider.next, splitDepth)
    {
      r := TryOnce(provider, items);
      if r.Ok? { return; }
      lastError := r.error;
      if IsPromptTimeoutError(lastError) && |items| > 1 {
        r, deepest := TranslateHalves(provider, items, (|items| + 1) / 2, splitDepth + 1);
        return;
      }
      if IsPromptTimeoutError(lastError) { break; }
      attempt := attempt + 1;
    }
    return Err(lastError), splitDepth;
  }

  // ---- cost

  function CeilLog2(n: nat): nat { if n <= 1 then 0 else 1 + CeilLog2((n + 1) / 2) }

  function Pow2(k: nat): nat { if k == 0 then 1 else 2 * Pow2(k - 1) }

  lemma {:induction false} CeilLog2Is(n: nat)
    requires n >= 1
    ensures n <= Pow2(CeilLog2(n)) && (n > 1 ==> Pow2(CeilLog2(n) - 1) < n)
  {
    if n > 1 { CeilLog2Is((n + 1) / 2); }
  }

  /** n items cost at most 4n - 2 prompts, one fewer on the second attempt. */
  lemma {:induction false} PromptsBounded(replies: nat -> Outcome, next: nat, items: seq<BatchItem>, attempt: nat,
                                          splitDepth: nat)
    requires |items| >= 1 && attempt < TRANSLATE_MAX_ATTEMPTS
    ensures next < Translate(replies, next, items, attempt, splitDepth).next <= next + 4 * |items| - 2 - attempt
    decreases |items|, TRANSLATE_MAX_ATTEMPTS - attempt
  {
    match Next(replies(next), items, attempt)
    case Split(midpoint) =>
      PromptsBounded(replies, next + 1, items[..midpoint], 0, splitDepth + 1);
      var left := Translate(replies, next + 1, items[..midpoint], 0, splitDepth + 1);
      PromptsBounded(replies, left.next, items[midpoint..], 0, splitDepth + 1);
    case Retry => PromptsBounded(replies, next + 1, items, attempt + 1, splitDepth);
    case _ =>
  }

  /** A batch that is split comes back as its halves do. */
  lemma TranslateSplits(replies: nat -> Outcome, next: nat, part: seq<BatchItem>, attempt: nat, splitDepth: nat)
    requires attempt < TRANSLATE_MAX_ATTEMPTS && Next(replies(next), part, attempt).Split?
    ensures var mid := Next(replies(next), part, attempt).midpoint;
      var left := Translate(replies, next + 1, part[..mid], 0, splitDepth + 1);
      Translate(replies, next, part, attempt, splitDepth)
      == if left.result.Err? then left
         else Merge(left, Translate(replies, left.next, part[mid..], 0, splitDepth + 1))
  {
  }

  /** Splits below a split are counted from there. */
  lemma DepthOfSplit(replies: nat -> Outcome, next: nat, items: seq<BatchItem>, attempt: nat, splitDepth: nat, mid: nat,
                     left: Run, right: Run)
    requires attempt < TRANSLATE_MAX_ATTEMPTS && Next(replies(next), items, attempt) == Split(mid)
    requires left == Translate(replies, next + 1, items[..mid], 0, splitDepth + 1)
    requires right == Translate(replies, left.next, items[mid..], 0, splitDepth + 1)
    ensures Translate(replies, next, items, attempt, splitDepth).deepest in {left.deepest, right.deepest}
  {
    TranslateSplits(replies, next, items, attempt, splitDepth);
  }

  lemma {:induction false} DepthWithin(replies: nat -> Outcome, next: nat, items: seq<BatchItem>, attempt: nat,
                                       splitDepth: nat, bound: nat)
    requires attempt < TRANSLATE_MAX_ATTEMPTS && |items| <= Pow2(bound)
    ensures splitDepth <= Translate(replies, next, items, attempt, splitDepth).deepest <= splitDepth + bound
    decreases |items|, TRANSLATE_MAX_ATTEMPTS - attempt, 1
  {
    var step := Next(replies(next), items, attempt);
    if step.Split? {
      DepthWithinSplit(replies, next, items, attempt, splitDepth, bound, step.midpoint);
    } else if step.Retry? {
      DepthWithin(replies, next + 1, items, attempt + 1, splitDepth, bound);
    }
  }

  lemma {:induction false} DepthWithinSplit(replies: nat -> Outcome, next: nat, items: seq<BatchItem>, attempt: nat,
                                            splitDepth: nat, bound: nat, midpoint: nat)
    requires attempt < TRANSLATE_MAX_ATTEMPTS && |items| <= Pow2(bound)
    requires Next(replies(next), items, attempt) == Split(midpoint)
    ensures splitDepth <= Translate(replies, next, items, attempt, splitDepth).deepest <= splitDepth + bound
    decreases |items|, TRANSLATE_MAX_ATTEMPTS - attempt, 0
  {
    var a, b := items[..midpoint], items[midpoint..];
    var left := Translate(replies, next + 1, a, 0, splitDepth + 1);
    DepthWithin(replies, next + 1, a, 0, splitDepth + 1, bound - 1);
    var right := Translate(replies, left.next, b, 0, splitDepth + 1);
    DepthWithin(replies, left.next, b, 0, splitDepth + 1, bound - 1);
    DepthOfSplit(replies, next, items, attempt, splitDepth, midpoint, left, right);
  }

  /** n items are split at most ceil(log2 n) times in a row. */
  lemma DepthBounded(replies: nat -> Outcome, next: nat, items: seq<BatchItem>, attempt: nat, splitDepth: nat)
    requires attempt < TRANSLATE_MAX_ATTEMPTS
    ensures splitDepth <= Translate(replies, next, items, attempt, splitDepth).deepest <= splitDepth + CeilLog2(|items|)
  {
    if items != [] { CeilLog2Is(|items|); }
    DepthWithin(replies, next, items, attempt, splitDepth, CeilLog2(|items|));
  }

  // ---- meaning of the result

  function Keys(items: seq<BatchItem>): set<string> {
    if items == [] then {} else Keys(items[..|items| - 1]) + {items[|items| - 1].key}
  }

  lemma {:induction false} KeysAppend(a: seq<BatchItem>, b: seq<BatchItem>)
    ensures Keys(a + b) == Keys(a) + Keys(b)
  {
    if b == [] {
      assert a + b == a;
    } else {
      assert (a + b)[..|a + b| - 1] == a + b[..|b| - 1];
      KeysAppend(a, b[..|b| - 1]);
    }
  }

  lemma {:induction false} KeysAre(items: seq<BatchItem>)
    ensures forall k :: k in Keys(items) <==> exists i :: 0 <= i < |items| && items[i].key == k
  {
    if items != [] {
      var n := |items| - 1;
      KeysAre(items[..n]);
      forall k ensures k in Keys(items) <==> exists i :: 0 <= i < |items| && items[i].key == k {
        if i :| 0 <= i < |items| && items[i].key == k { assert i < n ==> items[..n][i].key == k; }
        if k in Keys(items[..n]) { var i :| 0 <= i < n && items[..n][i].key == k; assert items[i].key == k; }
      }
    }
  }

  predicate AllCovered(values: map<string, string>, items: seq<BatchItem>, x: nat, y: nat)
    requires x <= y <= |items|
  {
    forall i :: x <= i < y ==> Covers(values, items[i].key)
  }

  /** Prompt j, one of those sent from `from` to `to`, was accepted for the items from x to y: its reply covered all of
      them. It gave this text for item i. */
  ghost predicate Answered(replies: nat -> Outcome, from: nat, to: nat, items: seq<BatchItem>, j: nat, x: nat, y: nat,
                           i: nat, text: string)
    requires x <= i < y <= |items|
  {
    from <= j < to && replies(j).Reply?
    && AllCovered(replies(j).values, items, x, y) && replies(j).values[items[i].key] == text
  }

  /** The text was accepted for some run of the items from lo to hi. */
  ghost predicate Sourced(replies: nat -> Outcome, from: nat, to: nat, items: seq<BatchItem>, lo: nat, hi: nat,
                          key: string, text: string) {
    !IsBlank(text) && hi <= |items|
    && exists j: nat, x: nat, y: nat, i: nat ::
         lo <= x <= i < y <= hi && items[i].key == key && Answered(replies, from, to, items, j, x, y, i, text)
  }

  ghost predicate AllSourced(replies: nat -> Outcome, from: nat, to: nat, m: map<string, string>,
                             items: seq<BatchItem>, lo: nat, hi: nat) {
    forall k :: k in m ==> Sourced(replies, from, to, items, lo, hi, k, m[k])
  }

  ghost predicate Translated(replies: nat -> Outcome, from: nat, to: nat, m: map<string, string>,
                             items: seq<BatchItem>) {
    && m.Keys == Keys(items)
    && AllSourced(replies, from, to, m, items, 0, |items|)
  }

  lemma {:induction false} ReadReplyMeaning(values: map<string, string>, items: seq<BatchItem>)
    ensures ReadReply(values, items).Ok? <==> AllCovered(values, items, 0, |items|)
    ensures ReadReply(values, items).Ok? ==>
              ReadReply(values, items).value.Keys == Keys(items)
              && forall k :: k in Keys(items) ==> k in values && ReadReply(values, items).value[k] == values[k]
  {
    if items != [] { ReadReplyMeaning(values, items[..|items| - 1]); }
  }

  lemma AcceptedIsSourced(replies: nat -> Outcome, next: nat, items: seq<BatchItem>, lo: nat, hi: nat)
    requires lo <= hi <= |items| && Attempt(replies(next), items[lo..hi]).Ok?
    ensures AllSourced(replies, next, next + 1, Attempt(replies(next), items[lo..hi]).value, items, lo, hi)
  {
    var values, part := replies(next).values, items[lo..hi];
    var m := Attempt(replies(next), part).value;
    ReadReplyMeaning(values, part);
    KeysAre(part);
    forall i | lo <= i < hi ensures Covers(values, items[i].key) { assert part[i - lo] == items[i]; }
    forall k | k in m ensures Sourced(replies, next, next + 1, items, lo, hi, k, m[k]) {
      var n :| 0 <= n < |part| && part[n].key == k;
      assert items[lo + n] == part[n];
      assert Answered(replies, next, next + 1, items, next, lo, hi, lo + n, m[k]);
    }
  }

  /** The same texts, seen among more prompts and more items. */
  lemma Widen(replies: nat -> Outcome, from': nat, from: nat, to: nat, to': nat, m: map<string, string>,
              items: seq<BatchItem>, lo': nat, lo: nat, hi: nat, hi': nat)
    requires from' <= from && to <= to' && lo' <= lo && hi <= hi' <= |items|
    requires AllSourced(replies, from, to, m, items, lo, hi)
    ensures AllSourced(replies, from', to', m, items, lo', hi')
  {
    forall k | k in m ensures Sourced(replies, from', to', items, lo', hi', k, m[k]) {
      assert Sourced(replies, from, to, items, lo, hi, k, m[k]);
      var j: nat, x: nat, y: nat, i: nat :|
        lo <= x <= i < y <= hi && items[i].key == k && Answered(replies, from, to, items, j, x, y, i, m[k]);
      assert Answered(replies, from', to', items, j, x, y, i, m[k]);
    }
  }

  lemma BothSourced(replies: nat -> Outcome, from: nat, to: nat, l: map<string, string>, r: map<string, string>,
                    items: seq<BatchItem>, lo: nat, hi: nat)
    requires AllSourced(replies, from, to, l, items, lo, hi) && AllSourced(replies, from, to, r, items, lo, hi)
    ensures AllSourced(replies, from, to, l + r, items, lo, hi)
  {
  }

  lemma CutAt(items: seq<BatchItem>, lo: nat, hi: nat, n: nat)
    requires lo + n <= hi <= |items|
    ensures items[lo..hi][..n] == items[lo..lo + n] && items[lo..hi][n..] == items[lo + n..hi]
  {
  }

  lemma HalvesSourced(replies: nat -> Outcome, from: nat, middle: nat, to: nat, l: map<string, string>,
                      r: map<string, string>, items: seq<BatchItem>, lo: nat, mid: nat, hi: nat)
    requires from + 1 <= middle <= to && lo <= mid <= hi <= |items|
    requires AllSourced(replies, from + 1, middle, l, items, lo, mid)
    requires AllSourced(replies, middle, to, r, items, mid, hi)
    ensures AllSourced(replies, from, to, l + r, items, lo, hi)
  {
    Widen(replies, from, from + 1, middle, to, l, items, lo, lo, mid, hi);
    Widen(replies, from, middle, to, to, r, items, lo, mid, hi, hi);
    BothSourced(replies, from, to, l, r, items, lo, hi);
  }

  /** Every text that comes back is one accepted for some of the items from lo to hi. */
  ghost predicate RangeRun(replies: nat -> Outcome, next: nat, run: Run, items: seq<BatchItem>, lo: nat, hi: nat) {
    run.next > next && (run.result.Ok? ==> AllSourced(replies, next, run.next, run.result.value, items, lo, hi))
  }

  lemma SplitRun(replies: nat -> Outcome, next: nat, left: Run, right: Run, items: seq<BatchItem>, lo: nat, mid: nat,
                 hi: nat)
    requires lo <= mid <= hi <= |items|
    requires RangeRun(replies, next + 1, left, items, lo, mid) && RangeRun(replies, left.next, right, items, mid, hi)
    ensures RangeRun(replies, next, if left.result.Err? then left else Merge(left, right), items, lo, hi)
  {
    if left.result.Ok? && right.result.Ok? {
      HalvesSourced(replies, next, left.next, right.next, left.result.value, right.result.value, items, lo, mid, hi);
    }
  }

  /** What comes back has exactly the items' keys. */
  lemma {:induction false} TranslateKeys(replies: nat -> Outcome, next: nat, items: seq<BatchItem>, attempt: nat,
                                         splitDepth: nat)
    requires attempt < TRANSLATE_MAX_ATTEMPTS
    ensures var run := Translate(replies, next, items, attempt, splitDepth);
      run.result.Ok? ==> run.result.value.Keys == Keys(items)
    decreases |items|, TRANSLATE_MAX_ATTEMPTS - attempt
  {
    match Next(replies(next), items, attempt)
    case Return(m) => ReadReplyMeaning(replies(next).values, items);
    case Split(midpoint) =>
      var a, b := items[..midpoint], items[midpoint..];
      TranslateKeys(replies, next + 1, a, 0, splitDepth + 1);
      TranslateKeys(replies, Translate(replies, next + 1, a, 0, splitDepth + 1).next, b, 0, splitDepth + 1);
      KeysAppend(a, b);
      assert a + b == items;
    case Retry => TranslateKeys(replies, next + 1, items, attempt + 1, splitDepth);
    case GiveUp(_) =>
  }

  lemma RangeSplits(replies: nat -> Outcome, next: nat, part: seq<BatchItem>, items: seq<BatchItem>, lo: nat, hi: nat,
                    attempt: nat, splitDepth: nat, left: Run, right: Run)
    requires lo <= hi <= |items| && part == items[lo..hi] && attempt < TRANSLATE_MAX_ATTEMPTS
    requires Next(replies(next), part, attempt).Split?
    requires var mid := Next(replies(next), part, attempt).midpoint;
      left == Translate(replies, next + 1, part[..mid], 0, splitDepth + 1)
      && right == Translate(replies, left.next, part[mid..], 0, splitDepth + 1)
      && RangeRun(replies, next + 1, left, items, lo, lo + mid)
         && RangeRun(replies, left.next, right, items, lo + mid, hi)
    ensures RangeRun(replies, next, Translate(replies, next, part, attempt, splitDepth), items, lo, hi)
  {
    TranslateSplits(replies, next, part, attempt, splitDepth);
    SplitRun(replies, next, left, right, items, lo, lo + Next(replies(next), part, attempt).midpoint, hi);
  }

  lemma RangeRetries(replies: nat -> Outcome, next: nat, run: Run, items: seq<BatchItem>, lo: nat, hi: nat)
    requires lo <= hi <= |items| && RangeRun(replies, next + 1, run, items, lo, hi)
    ensures RangeRun(replies, next, run, items, lo, hi)
  {
    if run.result.Ok? {
      Widen(replies, next, next + 1, run.next, run.next, run.result.value, items, lo, lo, hi, hi);
    }
  }

  lemma {:induction false} RangeMeaning(replies: nat -> Outcome, next: nat, part: seq<BatchItem>, items: seq<BatchItem>,
                                        lo: nat, hi: nat, attempt: nat, splitDepth: nat)
    requires lo <= hi <= |items| && part == items[lo..hi] && attempt < TRANSLATE_MAX_ATTEMPTS
    ensures RangeRun(replies, next, Translate(replies, next, part, attempt, splitDepth), items, lo, hi)
    decreases |part|, TRANSLATE_MAX_ATTEMPTS - attempt
  {
    match Next(replies(next), part, attempt)
    case Return(m) => AcceptedIsSourced(replies, next, items, lo, hi);
    case Split(midpoint) =>
      CutAt(items, lo, hi, midpoint);
      var left := Translate(replies, next + 1, part[..midpoint], 0, splitDepth + 1);
      var right := Translate(replies, left.next, part[midpoint..], 0, splitDepth + 1);
      RangeMeaning(replies, next + 1, part[..midpoint], items, lo, lo + midpoint, 0, splitDepth + 1);
      RangeMeaning(replies, left.next, part[midpoint..], items, lo + midpoint, hi, 0, splitDepth + 1);
      RangeSplits(replies, next, part, items, lo, hi, attempt, splitDepth, left, right);
    case Retry =>
      RangeMeaning(replies, next + 1, part, items, lo, hi, attempt + 1, splitDepth);
      RangeRetries(replies, next, Translate(replies, next + 1, part, attempt + 1, splitDepth), items, lo, hi);
    case GiveUp(_) =>
  }

  /** When a batch comes back, it has exactly the items' keys, each with a non-blank text from a reply that was accepted
      for a run of the items: it covered every one of them. */
  lemma TranslateMeaning(replies: nat -> Outcome, next: nat, items: seq<BatchItem>, attempt: nat, splitDepth: nat)
    requires attempt < TRANSLATE_MAX_ATTEMPTS
    ensures var run := Translate(replies, next, items, attempt, splitDepth);
      run.next > next && (run.result.Ok? ==> Translated(replies, next, run.next, run.result.value, items))
  {
    assert items[0..|items|] == items;
    RangeMeaning(replies, next, items, items, 0, |items|, attempt, splitDepth);
    TranslateKeys(replies, next, items, attempt, splitDepth);
  }

  /** The prompt failed without timing out. */
  predicate FailedPlainly(outcome: Outcome, items: seq<BatchItem>) {
    Attempt(outcome, items).Err? && !IsPromptTimeoutError(Attempt(outcome, items).error)
  }

  /** The call ended with the error of its last prompt, put for these items on this attempt: a single item whose prompt
      timed out, or a second attempt, on whatever items, that failed as plainly as the first. */
  ghost predicate FailedOn(replies: nat -> Outcome, next: nat, error: string, items: seq<BatchItem>, attempt: nat) {
    && next > attempt
    && Attempt(replies(next - 1), items) == Err(error)
    && (if IsPromptTimeoutError(error) then |items| == 1 else attempt == 1)
    && (attempt == 1 ==> FailedPlainly(replies(next - 2), items))
  }

  lemma SubSlice<T>(s: seq<T>, cut: nat, lo: nat, hi: nat)
    requires cut <= |s| && lo <= hi
    ensures hi <= cut ==> s[..cut][lo..hi] == s[lo..hi]
    ensures cut + hi <= |s| ==> s[cut..][lo..hi] == s[cut + lo..cut + hi]
  {
  }

  lemma FailedInside(replies: nat -> Outcome, next: nat, error: string, items: seq<BatchItem>, midpoint: nat,
                     secondHalf: bool, n: nat, m: nat, last: nat) returns (lo: nat, hi: nat)
    requires midpoint <= |items| && n < m <= (if secondHalf then |items| - midpoint else midpoint)
    requires FailedOn(replies, next, error, (if secondHalf then items[midpoint..] else items[..midpoint])[n..m], last)
    ensures lo < hi <= |items| && FailedOn(replies, next, error, items[lo..hi], last)
  {
    SubSlice(items, midpoint, n, m);
    lo, hi := if secondHalf then midpoint + n else n, if secondHalf then midpoint + m else m;
  }

  /** A batch fails only because some run of consecutive items failed for good. */
  lemma {:induction false} FailureMeaning(replies: nat -> Outcome, next: nat, items: seq<BatchItem>, attempt: nat,
                                          splitDepth: nat)
    returns (lo: nat, hi: nat, last: nat)
    requires items != [] && attempt < TRANSLATE_MAX_ATTEMPTS
    requires Translate(replies, next, items, attempt, splitDepth).result.Err?
    requires attempt == 1 ==> next > 0 && FailedPlainly(replies(next - 1), items)
    ensures lo < hi <= |items| && last < TRANSLATE_MAX_ATTEMPTS
    ensures var run := Translate(replies, next, items, attempt, splitDepth);
      FailedOn(replies, run.next, run.result.error, items[lo..hi], last)
    decreases |items|, TRANSLATE_MAX_ATTEMPTS - attempt
  {
    match Next(replies(next), items, attempt)
    case Split(midpoint) =>
      var a, b := items[..midpoint], items[midpoint..];
      var left := Translate(replies, next + 1, a, 0, splitDepth + 1);
      if left.result.Err? {
        lo, hi, last := FailureMeaning(replies, next + 1, a, 0, splitDepth + 1);
        lo, hi := FailedInside(replies, left.next, left.result.error, items, midpoint, false, lo, hi, last);
      } else {
        var right := Translate(replies, left.next, b, 0, splitDepth + 1);
        lo, hi, last := FailureMeaning(replies, left.next, b, 0, splitDepth + 1);
        lo, hi := FailedInside(replies, right.next, right.result.error, items, midpoint, true, lo, hi, last);
      }
    case Retry =>
      lo, hi, last := FailureMeaning(replies, next + 1, items, attempt + 1, splitDepth);
    case GiveUp(_) =>
      lo, hi, last := 0, |items|, attempt;
      assert items[lo..hi] == items;
  }
}
