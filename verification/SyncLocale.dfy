/** The sync run itself (scripts/control-ui-i18n.ts): it reads a locale's files, decides key by key, asks the
    provider for what is missing and writes the files back. */
module SyncLocale {
  import opened Wrappers
  import opened Sequences
  import opened Text
  import opened LocaleTree
  import opened LocaleReadBack
  import opened Batching
  import opened BatchTranslation
  import opened PendingTranslation
  import opened Collation
  import opened SyncPlan
  import opened SyncFixpoint

  /** A locale's files on disk. */
  class Workspace {
    var locale: Option<TranslationMap>
    var meta: Option<LocaleMeta>
    var glossary: Option<seq<(string, string)>>
    var tm: seq<TmEntry>

    function View(): Files
      reads this
    {
      Files(locale, meta, glossary, tm)
    }

    constructor (files: Files)
      ensures View() == files
    {
      locale, meta, glossary, tm := files.locale, files.meta, files.glossary, files.tm;
    }

    method Write(files: Files)
      modifies this
      ensures View() == files
    {
      locale := files.locale;
      meta := files.meta;
      glossary := files.glossary;
      tm := files.tm;
    }
  }

  datatype Options = Options(checkOnly: bool, force: bool, write: bool, authOptional: bool, budget: real)

  datatype SyncOutcome = Synced(changed: bool, fallbackCount: nat, wrote: bool) | Skipped | Threw(error: string)

  predicate IsProviderAuthError(message: string) {
    var m := ToLower(message);
    Contains(m, "401") || Contains(m, "authentication_error") || Contains(m, "incorrect api key")
      || Contains(m, "invalid x-api-key")
  }

  /** An authentication error is told by one of four texts in the message, in any case of their letters. */
  lemma AuthErrorIff(message: string)
    ensures IsProviderAuthError(message)
            <==> exists part, i: nat :: part in {"401", "authentication_error", "incorrect api key",
              "invalid x-api-key"}
                                        && OccursAt(message, part, i)
  {
    ContainsLower(message, "401");
    ContainsLower(message, "authentication_error");
    ContainsLower(message, "incorrect api key");
    ContainsLower(message, "invalid x-api-key");
  }

  method LoadTranslationMemory(lines: seq<TmEntry>) returns (tm: Tm)
    ensures tm == LoadTm(lines)
  {
    tm := [];
    var i := 0;
    while i < |lines|
      invariant 0 <= i <= |lines| && tm == LoadTm(lines[..i])
    {
      assert lines[..i + 1][..i] == lines[..i];
      if lines[i].cacheKey != "" && !IsBlank(lines[i].translated) {
        tm := TmSet(tm, lines[i]);
      }
      i := i + 1;
    }
    assert lines[..i] == lines;
  }

  /** Among several usable entries with one text hash the last one is kept. */
  method BuildTranslationMemoryByTextHash(tm: Tm, locale: string) returns (byTextHash: map<string, TmEntry>)
    ensures forall h :: TextMatch(tm, locale, h) == if h in byTextHash then Some(byTextHash[h]) else None
  {
    byTextHash := map[];
    var i := 0;
    while i < |tm|
      invariant 0 <= i <= |tm|
      invariant forall h :: TextMatch(tm[..i], locale, h) == if h in byTextHash then Some(byTextHash[h]) else None
    {
      assert tm[..i + 1][..i] == tm[..i];
      if Usable(tm[i], locale) {
        byTextHash := byTextHash[tm[i].textHash := tm[i]];
      }
      i := i + 1;
    }
    assert tm[..i] == tm;
  }

  // ---- first pass

  function EarlyTexts(c: Config, s: Loaded, flat: FlatMap): map<string, string> {
    if flat == [] then map[]
    else
      var (key, text) := flat[|flat| - 1];
      var before := EarlyTexts(c, s, flat[..|flat| - 1]);
      if Decide(c, s, key, text).Pending? then before else before[key := FinalText(c, s, map[], key, text)]
  }

  lemma {:induction false} EarlyTextsAre(c: Config, s: Loaded, flat: FlatMap, i: nat)
    requires DistinctKeys(flat) && i < |flat|
    ensures var (key, early) := (flat[i].0, EarlyTexts(c, s, flat));
      if DecideAt(c, s, flat, i).Pending? then key !in early
      else key in early && early[key] == FinalText(c, s, map[], key, flat[i].1)
  {
    var n := |flat| - 1;
    EarlyTextsKeys(c, s, flat[..n]);
    if i < n { EarlyTextsAre(c, s, flat[..n], i); }
  }

  lemma {:induction false} EarlyTextsKeys(c: Config, s: Loaded, flat: FlatMap)
    ensures forall k :: k in EarlyTexts(c, s, flat) ==> exists i :: 0 <= i < |flat| && flat[i].0 == k
  {
    if flat != [] {
      var n := |flat| - 1;
      EarlyTextsKeys(c, s, flat[..n]);
      forall k | k in EarlyTexts(c, s, flat) ensures exists i :: 0 <= i < |flat| && flat[i].0 == k {
        if k in EarlyTexts(c, s, flat[..n]) { var i :| 0 <= i < n && flat[..n][i].0 == k; assert flat[i].0 == k; }
      }
    }
  }

  /** Entries copied for earlier keys do not show up under a later key's cache key. */
  lemma CopiesAreElsewhere(c: Config, s: Loaded, flat: FlatMap, i: nat)
    requires ValidConfig(c) && DistinctKeys(flat) && i < |flat|
    ensures var ck := CacheKeyOf(c, flat[i].0, flat[i].1);
      TmGet(SetAll(s.tm, TextUpdates(c, s, flat[..i])), ck) == TmGet(s.tm, ck)
  {
    var ck := CacheKeyOf(c, flat[i].0, flat[i].1);
    var ups := TextUpdates(c, s, flat[..i]);
    SetAllGet(s.tm, ups, ck);
    UpGetIs(ups, ck);
    forall u | u in ups ensures u.cacheKey != ck {
      TextUpdatesAre(c, s, flat[..i], u);
      var j: nat :| IsCopy(c, s, flat[..i], u, j);
      assert flat[j].0 != flat[i].0;
    }
  }

  lemma SetAllSnoc(tm: Tm, updates: seq<TmEntry>, e: TmEntry)
    ensures SetAll(tm, updates + [e]) == TmSet(SetAll(tm, updates), e)
  {
    assert (updates + [e])[..|updates|] == updates;
  }

  /** The first pass: what one more key does to the memory, the texts, the pending items and the fallback keys. */
  datatype Pass = Pass(tm: Tm, texts: map<string, string>, pending: seq<BatchItem>, fallbackKeys: seq<string>)

  function PassStep(c: Config, p: Pass, refresh: bool, d: Decision, key: string, text: string): Pass {
    match d
    case FromText(e) => p.(tm := TmSet(p.tm, Copy(c, e, key, text)), texts := p.texts[key := e.translated])
    case Pending => p.(pending := p.pending + [ItemOf(c, key, text)])
    case FromCache(t) => p.(texts := p.texts[key := t], fallbackKeys := p.fallbackKeys + if refresh then [key] else [])
    case KeepExisting(t) =>
      p.(texts := p.texts[key := t], fallbackKeys := p.fallbackKeys + if refresh then [key] else [])
  }

  function PassOver(c: Config, s: Loaded, flat: FlatMap): Pass {
    if flat == [] then Pass(s.tm, map[], [], [])
    else
      var (key, text) := flat[|flat| - 1];
      PassStep(c, PassOver(c, s, flat[..|flat| - 1]), key in s.was, Decide(c, s, key, text), key, text)
  }

  lemma PassStepTm(c: Config, p: Pass, refresh: bool, d: Decision, key: string, text: string, tm: Tm, ups: seq<TmEntry>)
    requires p.tm == SetAll(tm, ups)
    ensures PassStep(c, p, refresh, d, key, text).tm
         == SetAll(tm, ups + match d { case FromText(e) => [Copy(c, e, key, text)] case _ => [] })
  {
    if d.FromText? { SetAllSnoc(tm, ups, Copy(c, d.entry, key, text)); } else { assert ups + [] == ups; }
  }

  lemma {:induction false} PassOverTmIs(c: Config, s: Loaded, flat: FlatMap)
    ensures PassOver(c, s, flat).tm == SetAll(s.tm, TextUpdates(c, s, flat))
  {
    if flat != [] {
      var (key, text) := flat[|flat| - 1];
      var before := flat[..|flat| - 1];
      PassOverTmIs(c, s, before);
      PassStepTm(c, PassOver(c, s, before), key in s.was, Decide(c, s, key, text), key, text, s.tm,
        TextUpdates(c, s, before));
    }
  }

  lemma {:induction false} PassOverTextsAre(c: Config, s: Loaded, flat: FlatMap)
    ensures PassOver(c, s, flat).texts == EarlyTexts(c, s, flat)
  {
    if flat != [] { PassOverTextsAre(c, s, flat[..|flat| - 1]); }
  }

  lemma {:induction false} PassOverListsAre(c: Config, s: Loaded, flat: FlatMap)
    ensures PassOver(c, s, flat).pending == PendingItems(c, s, flat)
    ensures PassOver(c, s, flat).fallbackKeys == EarlyFallbacks(c, s, flat)
  {
    if flat != [] { PassOverListsAre(c, s, flat[..|flat| - 1]); }
  }

  lemma PassOverSnoc(c: Config, s: Loaded, flat: FlatMap, i: nat)
    requires i < |flat|
    ensures var (key, text) := flat[i];
      PassOver(c, s, flat[..i + 1])
      == PassStep(c, PassOver(c, s, flat[..i]), key in s.was, Decide(c, s, key, text), key, text)
  {
    assert flat[..i + 1][..i] == flat[..i];
  }

  lemma PassOverTm(c: Config, s: Loaded, flat: FlatMap, i: nat)
    requires ValidConfig(c) && DistinctKeys(flat) && i < |flat|
    ensures var ck := CacheKeyOf(c, flat[i].0, flat[i].1); TmGet(PassOver(c, s, flat[..i]).tm, ck) == TmGet(s.tm, ck)
  {
    PassOverTmIs(c, s, flat[..i]);
    CopiesAreElsewhere(c, s, flat, i);
  }

  /** The body of the pass, for one key. */
  method DecideKey(c: Config, s: Loaded, key: string, text: string, byTextHash: map<string, TmEntry>, p: Pass)
    returns (r: Pass)
    requires forall h :: TextMatch(s.tm, c.locale, h) == if h in byTextHash then Some(byTextHash[h]) else None
    requires TmGet(p.tm, CacheKeyOf(c, key, text)) == TmGet(s.tm, CacheKeyOf(c, key, text))
    ensures r == PassStep(c, p, key in s.was, Decide(c, s, key, text), key, text)
  {
    r := p;
    var textHash := c.hashText(text);
    var segmentCacheKey := c.cacheKey(key, textHash);
    var refresh := key in s.was;
    var cachedByText := if textHash in byTextHash then Some(byTextHash[textHash]) else None;
    match Choose(c.hasProvider, refresh, TmGet(p.tm, segmentCacheKey), cachedByText, MapGet(s.existing, key)) {
      case FromText(entry) =>
        var copy := entry.(cacheKey := segmentCacheKey, segmentId := key, sourcePath := c.sourcePath);
        r := r.(texts := r.texts[key := entry.translated], tm := TmSet(r.tm, copy));
      case Pending =>
        r := r.(pending := r.pending + [BatchItem(segmentCacheKey, key, text, textHash)]);
      case FromCache(t) =>
        r := r.(texts := r.texts[key := t], fallbackKeys := r.fallbackKeys + if refresh then [key] else []);
      case KeepExisting(t) =>
        r := r.(texts := r.texts[key := t], fallbackKeys := r.fallbackKeys + if refresh then [key] else []);
    }
  }

  method DecisionPass(c: Config, s: Loaded, flat: FlatMap, byTextHash: map<string, TmEntry>) returns (p: Pass)
    requires ValidConfig(c) && DistinctKeys(flat)
    requires forall h :: TextMatch(s.tm, c.locale, h) == if h in byTextHash then Some(byTextHash[h]) else None
    ensures p == PassOver(c, s, flat)
  {
    p := Pass(s.tm, map[], [], []);
    var i := 0;
    while i < |flat|
      invariant 0 <= i <= |flat| && p == PassOver(c, s, flat[..i])
    {
      PassOverTm(c, s, flat, i);
      PassOverSnoc(c, s, flat, i);
      p := DecideKey(c, s, flat[i].0, flat[i].1, byTextHash, p);
      i := i + 1;
    }
    assert flat[..i] == flat;
  }

  // ---- asking the provider

  ghost predicate DistinctItems(items: seq<BatchItem>) {
    forall i, j :: 0 <= i < j < |items| ==> items[i].key != items[j].key
  }

  lemma {:induction false} PendingDistinct(c: Config, s: Loaded, flat: FlatMap)
    requires DistinctKeys(flat)
    ensures DistinctItems(PendingItems(c, s, flat))
  {
    if flat != [] {
      var n := |flat| - 1;
      PendingDistinct(c, s, flat[..n]);
      var before := PendingItems(c, s, flat[..n]);
      forall i | 0 <= i < |before| ensures before[i].key != flat[n].0 {
        PendingItemsAre(c, s, flat[..n], before[i]);
        var j: nat :| IsPending(c, s, flat[..n], before[i], j);
        assert flat[j].0 != flat[n].0;
      }
    }
  }

  ghost predicate NonBlank(tr: Translations) { forall k :: k in tr ==> !IsBlank(tr[k]) }

  function StoreTexts(texts: map<string, string>, batch: seq<BatchItem>, tr: Translations): map<string, string>
    requires Keys(batch) <= tr.Keys
  {
    if batch == [] then texts
    else
      var item := batch[|batch| - 1];
      StoreTexts(texts, batch[..|batch| - 1], tr)[item.key := tr[item.key]]
  }

  lemma {:induction false} StoreTextsAt(texts: map<string, string>, batch: seq<BatchItem>, tr: Translations,
                                        key: string)
    requires Keys(batch) <= tr.Keys
    ensures var r := StoreTexts(texts, batch, tr);
      && (key in r <==> key in texts || key in Keys(batch))
      && (key in r ==> r[key] == if key in Keys(batch) then tr[key] else texts[key])
  {
    if batch != [] { StoreTextsAt(texts, batch[..|batch| - 1], tr, key); }
  }

  lemma StoreTextsIs(texts: map<string, string>, batch: seq<BatchItem>, tr: Translations)
    requires Keys(batch) == tr.Keys
    ensures StoreTexts(texts, batch, tr) == texts + tr
  {
    forall key ensures key in StoreTexts(texts, batch, tr) <==> key in texts + tr {
      StoreTextsAt(texts, batch, tr, key);
    }
    forall key | key in texts + tr ensures StoreTexts(texts, batch, tr)[key] == (texts + tr)[key] {
      StoreTextsAt(texts, batch, tr, key);
    }
  }

  lemma {:induction false} KeysPrefix(items: seq<BatchItem>, i: nat)
    requires i <= |items|
    ensures Keys(items[..i]) <= Keys(items)
  {
    KeysAppend(items[..i], items[i..]);
    Cut(items, i);
  }

  ghost predicate StoredPart(c: Config, part: seq<BatchItem>, tr: Translations, now: string, tm0: Tm, tm: Tm,
                             flat0: map<string, string>, nextFlat: map<string, string>) {
    Keys(part) <= tr.Keys && tm == SetAll(tm0, NewUpdates(c, part, tr, now)) && nextFlat == StoreTexts(flat0, part, tr)
  }

  lemma StoredPartSnoc(c: Config, part: seq<BatchItem>, item: BatchItem, tr: Translations, now: string, tm0: Tm, tm: Tm,
                       flat0: map<string, string>, nextFlat: map<string, string>)
    requires item.key in tr && StoredPart(c, part, tr, now, tm0, tm, flat0, nextFlat)
    ensures StoredPart(c, part + [item], tr, now, tm0, TmSet(tm, NewEntry(c, item, tr[item.key], now)),
                       flat0, nextFlat[item.key := tr[item.key]])
  {
    assert (part + [item])[..|part|] == part;
    SetAllSnoc(tm0, NewUpdates(c, part, tr, now), NewEntry(c, item, tr[item.key], now));
  }

  lemma KeyAt(batch: seq<BatchItem>, j: nat)
    requires j < |batch|
    ensures batch[j].key in Keys(batch) && batch[..j + 1] == batch[..j] + [batch[j]]
  {
    PrefixSnoc(batch, j);
    KeysAppend(batch[..j], [batch[j]]);
    KeysPrefix(batch, j + 1);
    assert Keys([batch[j]]) == {batch[j].key};
  }

  lemma NonBlankNotEmpty(s: string)
    requires !IsBlank(s)
    ensures s != ""
  {
  }

  /** The next item of a batch. */
  method StoreNext(c: Config, batch: seq<BatchItem>, j: nat, translated: Translations, now: string, ghost tm0: Tm,
                   tm: Tm, ghost flat0: map<string, string>, flat: map<string, string>)
    returns (nextTm: Tm, nextFlat: map<string, string>)
    requires j < |batch| && translated.Keys == Keys(batch) && NonBlank(translated)
    requires StoredPart(c, batch[..j], translated, now, tm0, tm, flat0, flat)
    ensures StoredPart(c, batch[..j + 1], translated, now, tm0, nextTm, flat0, nextFlat)
  {
    KeyAt(batch, j);
    NonBlankNotEmpty(translated[batch[j].key]);
    StoredPartSnoc(c, batch[..j], batch[j], translated, now, tm0, tm, flat0, flat);
    nextTm, nextFlat := StoreItem(c, batch[j], translated, now, tm, flat);
  }

  lemma StoredNothing(c: Config, batch: seq<BatchItem>, tr: Translations, now: string, tm0: Tm,
                      flat0: map<string, string>)
    ensures StoredPart(c, batch[..0], tr, now, tm0, tm0, flat0, flat0)
  {
  }

  lemma StoredAll(c: Config, batch: seq<BatchItem>, tr: Translations, now: string, tm0: Tm, tm: Tm,
                  flat0: map<string, string>, nextFlat: map<string, string>)
    requires tr.Keys == Keys(batch) && StoredPart(c, batch[..|batch|], tr, now, tm0, tm, flat0, nextFlat)
    ensures tm == SetAll(tm0, NewUpdates(c, batch, tr, now)) && nextFlat == flat0 + tr
  {
    assert batch[..|batch|] == batch;
    StoreTextsIs(flat0, batch, tr);
  }

  /** Storing one translated batch. */
  method StoreBatch(c: Config, batch: seq<BatchItem>, translated: Translations, now: string, tm0: Tm,
                    flat0: map<string, string>)
    returns (tm: Tm, nextFlat: map<string, string>)
    requires translated.Keys == Keys(batch) && NonBlank(translated)
    ensures tm == SetAll(tm0, NewUpdates(c, batch, translated, now)) && nextFlat == flat0 + translated
  {
    tm, nextFlat := tm0, flat0;
    StoredNothing(c, batch, translated, now, tm0, flat0);
    var j := 0;
    while j < |batch|
      invariant 0 <= j <= |batch| && StoredPart(c, batch[..j], translated, now, tm0, tm, flat0, nextFlat)
    {
      tm, nextFlat := StoreNext(c, batch, j, translated, now, tm0, tm, flat0, nextFlat);
      j := j + 1;
    }
    StoredAll(c, batch, translated, now, tm0, tm, flat0, nextFlat);
  }

  /** One item: an item without a text would be passed over. */
  method StoreItem(c: Config, item: BatchItem, translated: Translations, now: string, tm0: Tm,
                   flat0: map<string, string>)
    returns (tm: Tm, nextFlat: map<string, string>)
    ensures item.key !in translated || translated[item.key] == "" ==> tm == tm0 && nextFlat == flat0
    ensures item.key in translated && translated[item.key] != "" ==>
              && tm == TmSet(tm0, NewEntry(c, item, translated[item.key], now))
              && nextFlat == flat0[item.key := translated[item.key]]
  {
    tm, nextFlat := tm0, flat0;
    if item.key in translated && translated[item.key] != "" {
      nextFlat := nextFlat[item.key := translated[item.key]];
      tm := TmSet(tm, NewEntry(c, item, translated[item.key], now));
    }
  }

  lemma {:induction false} SetAllTwice(tm: Tm, a: seq<TmEntry>, b: seq<TmEntry>)
    ensures SetAll(SetAll(tm, a), b) == SetAll(tm, a + b)
  {
    if b == [] {
      assert a + b == a;
    } else {
      assert (a + b)[..|a + b| - 1] == a + b[..|b| - 1];
      SetAllTwice(tm, a, b[..|b| - 1]);
    }
  }

  lemma {:induction false} NewUpdatesAgree(c: Config, items: seq<BatchItem>, tr: Translations, tr': Translations,
                                           now: string)
    requires forall k :: k in Keys(items) ==> k in tr && k in tr' && tr[k] == tr'[k]
    ensures NewUpdates(c, items, tr, now) == NewUpdates(c, items, tr', now)
  {
    if items != [] { NewUpdatesAgree(c, items[..|items| - 1], tr, tr', now); }
  }

  lemma {:induction false} NewUpdatesAppend(c: Config, a: seq<BatchItem>, b: seq<BatchItem>, tr: Translations,
                                            now: string)
    ensures NewUpdates(c, a + b, tr, now) == NewUpdates(c, a, tr, now) + NewUpdates(c, b, tr, now)
  {
    if b == [] {
      assert a + b == a;
    } else {
      assert (a + b)[..|a + b| - 1] == a + b[..|b| - 1];
      NewUpdatesAppend(c, a, b[..|b| - 1], tr, now);
    }
  }

  lemma KeysDisjoint(a: seq<BatchItem>, b: seq<BatchItem>)
    requires DistinctItems(a + b)
    ensures Keys(a) !! Keys(b)
  {
    KeysAre(a);
    KeysAre(b);
    forall k | k in Keys(a) ensures k !in Keys(b) {
      var i :| 0 <= i < |a| && a[i].key == k;
      forall j | 0 <= j < |b| ensures b[j].key != k { assert (a + b)[i].key != (a + b)[|a| + j].key; }
    }
  }

  lemma UpdatesSoFar(c: Config, done: seq<BatchItem>, batch: seq<BatchItem>, tr: Translations, more: Translations,
                     now: string)
    requires DistinctItems(done + batch) && tr.Keys == Keys(done) && more.Keys == Keys(batch)
    ensures NewUpdates(c, done + batch, tr + more, now)
         == NewUpdates(c, done, tr, now) + NewUpdates(c, batch, more, now)
    ensures (tr + more).Keys == Keys(done + batch)
  {
    KeysDisjoint(done, batch);
    KeysAppend(done, batch);
    NewUpdatesAgree(c, done, tr, tr + more, now);
    NewUpdatesAgree(c, batch, more, tr + more, now);
    NewUpdatesAppend(c, done, batch, tr + more, now);
  }

  lemma MergeTexts(texts: map<string, string>, tr: Translations, more: Translations)
    ensures texts + tr + more == texts + (tr + more)
    ensures NonBlank(tr) && NonBlank(more) ==> NonBlank(tr + more)
  {
  }

  /** The translation loop after some batches: their items, their texts, and the memory and texts stored. */
  ghost predicate Stored(c: Config, done: seq<BatchItem>, tr: Translations, now: string, tm0: Tm, tm: Tm,
                         flat0: map<string, string>, nextFlat: map<string, string>) {
    && tr.Keys == Keys(done) && NonBlank(tr)
    && tm == SetAll(tm0, NewUpdates(c, done, tr, now)) && nextFlat == flat0 + tr
  }

  lemma StoredNone(c: Config, now: string, tm0: Tm, flat0: map<string, string>)
    ensures Stored(c, [], map[], now, tm0, tm0, flat0, flat0)
  {
  }

  lemma StoredMore(c: Config, done: seq<BatchItem>, batch: seq<BatchItem>, tr: Translations, more: Translations,
                   now: string, tm0: Tm, tm: Tm, tm': Tm, flat0: map<string, string>, flat: map<string, string>,
                   flat': map<string, string>)
    requires DistinctItems(done + batch)
    requires Stored(c, done, tr, now, tm0, tm, flat0, flat) && Stored(c, batch, more, now, tm, tm', flat, flat')
    ensures Stored(c, done + batch, tr + more, now, tm0, tm', flat0, flat')
  {
    UpdatesSoFar(c, done, batch, tr, more, now);
    MergeTexts(flat0, tr, more);
    SetAllTwice(tm0, NewUpdates(c, done, tr, now), NewUpdates(c, batch, more, now));
  }

  /** An error, or else the texts. */
  function ResultOf(error: Option<string>, tr: Translations): Result<Translations, string> {
    if error.Some? then Err(error.value) else Ok(tr)
  }

  /** One batch: translated and stored, or an error. */
  method TranslateAndStore(c: Config, provider: Provider, batch: seq<BatchItem>, now: string, tm0: Tm,
                           flat0: map<string, string>)
    returns (error: Option<string>, tm: Tm, nextFlat: map<string, string>, ghost tr: Translations)
    modifies provider
    ensures error.None? ==> Stored(c, batch, tr, now, tm0, tm, flat0, nextFlat)
    ensures var run := BatchTranslation.Translate(provider.replies, old(provider.next), batch, 0, 0);
      run.result == ResultOf(error, tr) && run.next == provider.next
  {
    var translated, _ := TranslateBatch(provider, batch, 0);
    TranslateMeaning(provider.replies, old(provider.next), batch, 0, 0);
    if translated.Err? { return Some(translated.error), tm0, flat0, map[]; }
    forall k | k in translated.value ensures !IsBlank(translated.value[k]) {
      assert Sourced(provider.replies, old(provider.next), provider.next, batch, 0, |batch|, k, translated.value[k]);
    }
    tm, nextFlat := StoreBatch(c, batch, translated.value, now, tm0, flat0);
    return None, tm, nextFlat, translated.value;
  }

  /** The provider was asked for the pending items in the batches of the packing loop, up to the first that failed. */
  ghost predicate AskedFor(replies: nat -> Outcome, from: nat, to: nat, pending: seq<BatchItem>,
                           budget: real, error: Option<string>, tr: Translations) {
    exists batches :: Packing(batches, pending, budget) && Greedy(batches, budget)
                      && TranslateAll(replies, from, batches) == Answer(ResultOf(error, tr), to)
  }

  /** Every pending key comes back with a non-blank text, or the run fails. */
  method TranslatePending(c: Config, provider: Provider, pending: seq<BatchItem>, budget: real, now: string,
                          tm0: Tm, flat0: map<string, string>)
    returns (error: Option<string>, tm: Tm, nextFlat: map<string, string>, ghost tr: Translations)
    requires budget > 0.0 && DistinctItems(pending)
    modifies provider
    ensures error.None? ==> Stored(c, pending, tr, now, tm0, tm, flat0, nextFlat)
    ensures AskedFor(provider.replies, old(provider.next), provider.next, pending, budget, error, tr)
  {
    var batches := BuildTranslationBatches(pending, budget);
    tm, nextFlat, tr, error := tm0, flat0, map[], None;
    ghost var done: seq<BatchItem> := [];
    StoredNone(c, now, tm0, flat0);
    var b := 0;
    while b < |batches|
      invariant 0 <= b <= |batches| && done == Concat(batches[..b]) && error.None?
      invariant Stored(c, done, tr, now, tm0, tm, flat0, nextFlat)
      invariant TranslateAll(provider.replies, old(provider.next), batches[..b]) == Answer(Ok(tr), provider.next)
    {
      ghost var more;
      ghost var tm1, flat1 := tm, nextFlat;
      PrefixDistinct(batches, b, pending);
      AllSnoc(provider.replies, old(provider.next), batches, b);
      error, tm, nextFlat, more := TranslateAndStore(c, provider, batches[b], now, tm, nextFlat);
      if error.Some? {
        FailureIsLasting(provider.replies, old(provider.next), batches, b + 1);
        return;
      }
      StoredMore(c, done, batches[b], tr, more, now, tm0, tm1, tm, flat0, flat1, nextFlat);
      tr, done := tr + more, done + batches[b];
      b := b + 1;
    }
    assert batches[..b] == batches;
  }

  lemma DistinctItemsPrefix(a: seq<BatchItem>, b: seq<BatchItem>)
    requires DistinctItems(a + b)
    ensures DistinctItems(a)
  {
    forall i, j | 0 <= i < j < |a| ensures a[i].key != a[j].key { assert (a + b)[i] == a[i] && (a + b)[j] == a[j]; }
  }

  lemma PrefixDistinct(batches: seq<seq<BatchItem>>, b: nat, pending: seq<BatchItem>)
    requires b < |batches| && Concat(batches) == pending && DistinctItems(pending)
    ensures Concat(batches[..b + 1]) == Concat(batches[..b]) + batches[b]
    ensures DistinctItems(Concat(batches[..b]) + batches[b])
  {
    PrefixSnoc(batches, b);
    ConcatSnoc(batches[..b], batches[b]);
    Cut(batches, b + 1);
    ConcatAppend(batches[..b + 1], batches[b + 1..]);
    DistinctItemsPrefix(Concat(batches[..b + 1]), Concat(batches[b + 1..]));
  }

  // ---- keys that are still without a text

  /** What the fallback pass adds: the source text of every pending item without a translation. */
  function LateTexts(texts: map<string, string>, items: seq<BatchItem>, tr: Translations): map<string, string> {
    if items == [] then texts
    else
      var item := items[|items| - 1];
      var before := LateTexts(texts, items[..|items| - 1], tr);
      if item.key in tr then before else before[item.key := item.text]
  }

  lemma {:induction false} LateTextsAre(texts: map<string, string>, items: seq<BatchItem>, tr: Translations,
                                        key: string)
    ensures key !in Keys(items) || key in tr ==>
              (key in LateTexts(texts, items, tr) <==> key in texts)
              && (key in texts ==> LateTexts(texts, items, tr)[key] == texts[key])
    ensures key in Keys(items) && key !in tr ==> key in LateTexts(texts, items, tr)
  {
    if items != [] { LateTextsAre(texts, items[..|items| - 1], tr, key); }
  }

  lemma {:induction false} LateTextAt(texts: map<string, string>, items: seq<BatchItem>, tr: Translations, j: nat)
    requires DistinctItems(items) && j < |items| && items[j].key !in tr
    ensures items[j].key in LateTexts(texts, items, tr) && LateTexts(texts, items, tr)[items[j].key] == items[j].text
  {
    var n := |items| - 1;
    if j < n {
      assert items[j].key != items[n].key;
      LateTextAt(texts, items[..n], tr, j);
    }
  }

  /** One item of the fallback pass: an existing text is kept unless forced. */
  method FallbackItem(item: BatchItem, existing: FlatMap, was: seq<string>, force: bool, texts: map<string, string>,
                      fallbackKeys: seq<string>)
    returns (nextFlat: map<string, string>, keys: seq<string>)
    ensures item.key in texts ==> nextFlat == texts && keys == fallbackKeys
    ensures item.key !in texts && MapGet(existing, item.key).Some? && !force ==>
              && nextFlat == texts[item.key := MapGet(existing, item.key).value]
              && keys == fallbackKeys + if item.key in was then [item.key] else []
    ensures item.key !in texts && (MapGet(existing, item.key).None? || force) ==>
              nextFlat == texts[item.key := item.text] && keys == fallbackKeys + [item.key]
  {
    nextFlat, keys := texts, fallbackKeys;
    if item.key in texts { return; }
    var kept := MapGet(existing, item.key);
    if kept.Some? && !force {
      nextFlat := nextFlat[item.key := kept.value];
      keys := keys + if item.key in was then [item.key] else [];
      return;
    }
    nextFlat := nextFlat[item.key := item.text];
    keys := keys + [item.key];
  }

  lemma LateSnocs(texts: map<string, string>, items: seq<BatchItem>, tr: Translations, j: nat)
    requires j < |items| && DistinctItems(items)
    ensures LateTexts(texts, items[..j + 1], tr)
         == (if items[j].key in tr then LateTexts(texts, items[..j], tr)
             else LateTexts(texts, items[..j], tr)[items[j].key := items[j].text])
    ensures LateFallbacks(items[..j + 1], tr)
         == LateFallbacks(items[..j], tr) + if items[j].key in tr then [] else [items[j].key]
    ensures items[j].key in LateTexts(texts, items[..j], tr) <==> items[j].key in texts
  {
    assert items[..j + 1][..j] == items[..j];
    LateTextsAre(texts, items[..j], tr, items[j].key);
    KeysAre(items[..j]);
    forall k | 0 <= k < j ensures items[..j][k].key != items[j].key { assert items[k].key != items[j].key; }
  }

  /** No item that is still without a text has an existing one, so each of them falls back to its source text. */
  method FallbackPass(s: Loaded, pending: seq<BatchItem>, force: bool, texts: map<string, string>, early: seq<string>,
                      ghost tr: Translations)
    returns (nextFlat: map<string, string>, fallbackKeys: seq<string>)
    requires DistinctItems(pending)
    requires forall j :: 0 <= j < |pending| ==>
               && (pending[j].key in texts <==> pending[j].key in tr)
               && (pending[j].key in tr || MapGet(s.existing, pending[j].key).None?)
    ensures nextFlat == LateTexts(texts, pending, tr) && fallbackKeys == early + LateFallbacks(pending, tr)
  {
    nextFlat, fallbackKeys := texts, early;
    var j := 0;
    while j < |pending|
      invariant 0 <= j <= |pending| && nextFlat == LateTexts(texts, pending[..j], tr)
      invariant fallbackKeys == early + LateFallbacks(pending[..j], tr)
    {
      LateSnocs(texts, pending, tr, j);
      nextFlat, fallbackKeys := FallbackItem(pending[j], s.existing, s.was, force, nextFlat, fallbackKeys);
      j := j + 1;
    }
    assert pending[..j] == pending;
  }

  /** After both passes every key has its decided text. */
  lemma FinalTextsAre(c: Config, s: Loaded, flat: FlatMap, tr: Translations, i: nat)
    requires DistinctKeys(flat) && i < |flat| && tr.Keys <= Keys(PendingItems(c, s, flat))
    ensures var final := LateTexts(EarlyTexts(c, s, flat) + tr, PendingItems(c, s, flat), tr);
      flat[i].0 in final && final[flat[i].0] == FinalText(c, s, tr, flat[i].0, flat[i].1)
  {
    var key, items := flat[i].0, PendingItems(c, s, flat);
    EarlyTextsAre(c, s, flat, i);
    LateTextsAre(EarlyTexts(c, s, flat) + tr, items, tr, key);
    PendingKey(c, s, flat, i);
    if DecideAt(c, s, flat, i).Pending? && key !in tr {
      PendingItemsAre(c, s, flat, ItemOf(c, key, flat[i].1));
      assert IsPending(c, s, flat, ItemOf(c, key, flat[i].1), i);
      var j :| 0 <= j < |items| && items[j] == ItemOf(c, key, flat[i].1);
      PendingDistinct(c, s, flat);
      LateTextAt(EarlyTexts(c, s, flat) + tr, items, tr, j);
    }
  }

  lemma PendingKey(c: Config, s: Loaded, flat: FlatMap, i: nat)
    requires DistinctKeys(flat) && i < |flat|
    ensures flat[i].0 in Keys(PendingItems(c, s, flat)) <==> DecideAt(c, s, flat, i).Pending?
  {
    var items, key := PendingItems(c, s, flat), flat[i].0;
    KeysAre(items);
    if key in Keys(items) {
      var j :| 0 <= j < |items| && items[j].key == key;
      PendingItemsAre(c, s, flat, items[j]);
      var k: nat :| IsPending(c, s, flat, items[j], k);
      assert k == i;
    }
    if DecideAt(c, s, flat, i).Pending? {
      PendingItemsAre(c, s, flat, ItemOf(c, key, flat[i].1));
      assert IsPending(c, s, flat, ItemOf(c, key, flat[i].1), i);
    }
  }

  /** Rebuilding the bundle in source order. */
  method BuildBundle(c: Config, s: Loaded, flat: FlatMap, nextFlat: map<string, string>, ghost tr: Translations)
    returns (nextMap: TranslationMap)
    requires forall i :: 0 <= i < |flat| ==>
               flat[i].0 in nextFlat && nextFlat[flat[i].0] == FinalText(c, s, tr, flat[i].0, flat[i].1)
    ensures nextMap == Rebuild(Nil, Texts(c, s, tr, flat))
  {
    nextMap := Nil;
    var i := 0;
    while i < |flat|
      invariant 0 <= i <= |flat| && nextMap == Rebuild(Nil, Texts(c, s, tr, flat[..i]))
    {
      RebuildSnoc(c, s, tr, flat, i);
      nextMap := SetNestedValue(nextMap, flat[i].0, nextFlat[flat[i].0]);
      i := i + 1;
    }
    assert flat[..i] == flat;
  }

  /** Comparing placeholders key by key. */
  method HasPlaceholderParity(c: Config, flat: FlatMap, nextFlat: map<string, string>) returns (parity: bool)
    requires forall i :: 0 <= i < |flat| ==> flat[i].0 in nextFlat
    ensures parity <==> forall i :: 0 <= i < |flat| ==> c.placeholders(flat[i].1) == c.placeholders(nextFlat[flat[i].0])
  {
    var i := 0;
    while i < |flat|
      invariant 0 <= i <= |flat|
      invariant forall k :: 0 <= k < i ==> c.placeholders(flat[k].1) == c.placeholders(nextFlat[flat[k].0])
    {
      if c.placeholders(flat[i].1) != c.placeholders(nextFlat[flat[i].0]) { return false; }
      i := i + 1;
    }
    return true;
  }

  lemma RebuildSnoc(c: Config, s: Loaded, tr: Translations, flat: FlatMap, i: nat)
    requires i < |flat|
    ensures Rebuild(Nil, Texts(c, s, tr, flat[..i + 1]))
         == SetNestedValue(Rebuild(Nil, Texts(c, s, tr, flat[..i])), flat[i].0,
            FinalText(c, s, tr, flat[i].0, flat[i].1))
  {
    TextsSnoc(c, s, tr, flat, i);
    var last := [(flat[i].0, FinalText(c, s, tr, flat[i].0, flat[i].1))];
    RebuildAppend(Nil, Texts(c, s, tr, flat[..i]), last);
    assert last[1..] == [];
  }

  lemma TextsSnoc(c: Config, s: Loaded, tr: Translations, flat: FlatMap, i: nat)
    requires i < |flat|
    ensures Texts(c, s, tr, flat[..i + 1])
         == Texts(c, s, tr, flat[..i]) + [(flat[i].0, FinalText(c, s, tr, flat[i].0, flat[i].1))]
  {
    assert flat[..i + 1][..i] == flat[..i];
  }

  /** `new Set` of a list without duplicates. */
  method Dedup(keys: seq<string>) returns (r: seq<string>)
    requires NoDup(keys)
    ensures r == keys
  {
    r := [];
    var i := 0;
    while i < |keys|
      invariant 0 <= i <= |keys| && r == keys[..i]
    {
      assert keys[i] !in keys[..i];
      if keys[i] !in r { r := r + [keys[i]]; }
      i := i + 1;
    }
  }

  // ---- the run

  lemma PendingHasNoExisting(c: Config, s: Loaded, flat: FlatMap, j: nat)
    requires !c.hasProvider && j < |PendingItems(c, s, flat)|
    ensures MapGet(s.existing, PendingItems(c, s, flat)[j].key).None?
  {
    var item := PendingItems(c, s, flat)[j];
    PendingItemsAre(c, s, flat, item);
    var i: nat :| IsPending(c, s, flat, item, i);
  }

  lemma PendingNotEarly(c: Config, s: Loaded, flat: FlatMap, j: nat)
    requires DistinctKeys(flat) && j < |PendingItems(c, s, flat)|
    ensures PendingItems(c, s, flat)[j].key !in EarlyTexts(c, s, flat)
  {
    var item := PendingItems(c, s, flat)[j];
    PendingItemsAre(c, s, flat, item);
    var i: nat :| IsPending(c, s, flat, item, i);
    EarlyTextsAre(c, s, flat, i);
  }

  /** What the run has after the provider: the memory and the texts, and the translations behind them. */
  ghost predicate AfterProvider(c: Config, s: Loaded, flat: FlatMap, tr: Translations, now: string, tm: Tm,
                                texts: map<string, string>) {
    && tr.Keys == (if c.hasProvider then Keys(PendingItems(c, s, flat)) else {}) && NonBlank(tr)
    && tm == NextTm(c, s, flat, tr, now) && texts == EarlyTexts(c, s, flat) + tr
  }

  lemma AfterProviderGood(c: Config, s: Loaded, flat: FlatMap, tr: Translations, now: string, tm: Tm,
                          texts: map<string, string>)
    requires DistinctKeys(flat) && AfterProvider(c, s, flat, tr, now, tm, texts)
    ensures GoodTranslations(c, s, flat, tr)
  {
    forall i | 0 <= i < |flat| && DecideAt(c, s, flat, i).Pending? && c.hasProvider
      ensures flat[i].0 in tr && !IsBlank(tr[flat[i].0])
    {
      PendingKey(c, s, flat, i);
    }
  }

  /** What the provider phase comes to: nothing is asked for unless there is a provider and something is pending. */
  ghost predicate Provided(c: Config, s: Loaded, flat: FlatMap, budget: real, replies: nat -> Outcome,
                           from: nat, to: nat, error: Option<string>, tr: Translations) {
    if c.hasProvider && PendingItems(c, s, flat) != [] then
      AskedFor(replies, from, to, PendingItems(c, s, flat), budget, error, tr)
    else error == None && tr == map[] && to == from
  }

  /** The provider phase: only with a provider, and only when something is pending. */
  method ProviderPhase(c: Config, provider: Provider, s: Loaded, flat: FlatMap, p: Pass, budget: real, now: string)
    returns (error: Option<string>, tm: Tm, texts: map<string, string>, ghost tr: Translations)
    requires budget > 0.0 && DistinctKeys(flat) && p == PassOver(c, s, flat)
    modifies provider
    ensures error.None? ==> AfterProvider(c, s, flat, tr, now, tm, texts)
    ensures Provided(c, s, flat, budget, provider.replies, old(provider.next), provider.next, error, tr)
  {
    PassOverTmIs(c, s, flat);
    PassOverTextsAre(c, s, flat);
    PassOverListsAre(c, s, flat);
    PendingDistinct(c, s, flat);
    if c.hasProvider && |p.pending| > 0 {
      error, tm, texts, tr := TranslatePending(c, provider, p.pending, budget, now, p.tm, p.texts);
    } else {
      if !c.hasProvider { NoNews(c, p.pending, now); }
      error, tm, texts, tr := None, p.tm, p.texts, map[];
    }
  }

  /** The fallback phase completes the texts and the fallback list. */
  method FallbackPhase(c: Config, s: Loaded, flat: FlatMap, p: Pass, force: bool, now: string, tm: Tm,
                       texts: map<string, string>, ghost tr: Translations)
    returns (nextFlat: map<string, string>, fallbackKeys: seq<string>)
    requires DistinctKeys(flat) && p == PassOver(c, s, flat) && AfterProvider(c, s, flat, tr, now, tm, texts)
    ensures forall i :: 0 <= i < |flat| ==>
              flat[i].0 in nextFlat && nextFlat[flat[i].0] == FinalText(c, s, tr, flat[i].0, flat[i].1)
    ensures fallbackKeys == Fallbacks(c, s, flat, tr)
  {
    PassOverListsAre(c, s, flat);
    PendingDistinct(c, s, flat);
    ghost var items := PendingItems(c, s, flat);
    forall j | 0 <= j < |items|
      ensures (items[j].key in texts <==> items[j].key in tr)
        && (items[j].key in tr || MapGet(s.existing, items[j].key).None?)
    {
      PendingNotEarly(c, s, flat, j);
      KeyAt(items, j);
      if !c.hasProvider { PendingHasNoExisting(c, s, flat, j); }
    }
    nextFlat, fallbackKeys := FallbackPass(s, p.pending, force, texts, p.fallbackKeys, tr);
    forall i | 0 <= i < |flat|
      ensures flat[i].0 in nextFlat && nextFlat[flat[i].0] == FinalText(c, s, tr, flat[i].0, flat[i].1)
    {
      FinalTextsAre(c, s, flat, tr, i);
    }
  }

  /** The files to be written, from the run's results. */
  method RenderFiles(c: Config, source: Source, files: Files, now: string, tm: Tm, nextFlat: map<string, string>,
                     fallbackKeys: seq<string>, ghost tr: Translations)
    returns (expected: Files)
    requires DistinctKeys(Flatten(source.tree))
    requires var (s, flat) := (Load(files), Flatten(source.tree));
      && tm == NextTm(c, s, flat, tr, now) && fallbackKeys == Fallbacks(c, s, flat, tr)
      && forall i :: 0 <= i < |flat| ==>
           flat[i].0 in nextFlat && nextFlat[flat[i].0] == FinalText(c, s, tr, flat[i].0, flat[i].1)
    ensures expected == Expected(c, source, files, tr, now)
  {
    var s, flat := Load(files), Flatten(source.tree);
    var nextMap := BuildBundle(c, s, flat, nextFlat, tr);
    FallbacksAre(c, s, flat, tr);
    var distinct := Dedup(fallbackKeys);
    var meta := NextMeta(c, source, files.meta, |flat|, distinct, now);
    var glossary := if files.glossary.Some? then files.glossary.value else [];
    var expectedGlossary := if glossary == [] then DEFAULT_GLOSSARY else glossary;
    expected := Files(Some(nextMap), Some(meta), Some(expectedGlossary), RenderTm(tm, c.leq));
  }

  /** Reading the source and the locale's files. */
  method LoadFiles(files: Files, source: Source) returns (s: Loaded, flat: FlatMap)
    ensures s == Load(files) && flat == Flatten(source.tree) && DistinctKeys(flat)
  {
    flat := FlattenTranslations(source.tree, "", []);
    FlattenDistinct(source.tree, "", []);
    var existing := FlattenTranslations(if files.locale.Some? then files.locale.value else Nil, "", []);
    var tm := LoadTranslationMemory(files.tm);
    s := Loaded(tm, existing, if files.meta.Some? then files.meta.value.fallbackKeys else []);
  }

  /** A completed run: the translations it obtained are good, and the files it compares with, and writes if asked to,
      are exactly the expected ones. */
  ghost predicate Completed(c: Config, source: Source, options: Options, now: string, before: Files, after: Files,
                            outcome: SyncOutcome, tr: Translations) {
    var expected := Expected(c, source, before, tr, now);
    && GoodTranslations(c, Load(before), Flatten(source.tree), tr)
    && outcome.Synced?
    && outcome.changed == (before != expected)
    && outcome.fallbackCount == |expected.meta.value.fallbackKeys|
    && outcome.wrote == (outcome.changed && options.write && !options.checkOnly)
    && after == if outcome.wrote then expected else before
  }

  /** One sync of one locale. What the provider was asked for, and what it came to, is told by `error` and `tr`. A
      failure
      of the provider is skipped or thrown, one of the placeholders thrown; both leave the disk alone. */
  method Sync(disk: Workspace, provider: Provider, c: Config, source: Source, options: Options, now: string)
    returns (outcome: SyncOutcome, ghost error: Option<string>, ghost tr: Translations)
    requires ValidConfig(c) && options.budget > 0.0
    modifies disk, provider
    ensures Provided(c, Load(old(disk.View())), Flatten(source.tree), options.budget, provider.replies,
                     old(provider.next), provider.next, error, tr)
    ensures var parity := ParityHolds(c, Load(old(disk.View())), tr, Flatten(source.tree));
      match error
      case Some(message) =>
        outcome == (if options.authOptional && IsProviderAuthError(message) then Skipped else Threw(message))
        && disk.View() == old(disk.View())
      case None =>
        if parity then Completed(c, source, options, now, old(disk.View()), disk.View(), outcome, tr)
        else outcome == Threw("placeholder mismatch") && disk.View() == old(disk.View())
  {
    var files := disk.View();
    var s, flat := LoadFiles(files, source);
    var failure, nextFlat, fallbackKeys, tm;
    failure, nextFlat, fallbackKeys, tm, tr := Translate(c, provider, s, flat, options, now);
    error := failure;
    if failure.Some? {
      outcome := if options.authOptional && IsProviderAuthError(failure.value) then Skipped else Threw(failure.value);
      return;
    }
    var parity := HasPlaceholderParity(c, flat, nextFlat);
    if !parity { return Threw("placeholder mismatch"), None, tr; }
    var expected := RenderFiles(c, source, files, now, tm, nextFlat, fallbackKeys, tr);
    outcome := Finish(disk, source, files, expected, options);
  }

  /** From the files read to the texts, the fallback list and the memory to be written. */
  method Translate(c: Config, provider: Provider, s: Loaded, flat: FlatMap, options: Options, now: string)
    returns (error: Option<string>, nextFlat: map<string, string>, fallbackKeys: seq<string>, tm: Tm,
      ghost tr: Translations)
    requires ValidConfig(c) && options.budget > 0.0 && DistinctKeys(flat)
    modifies provider
    ensures error.None? ==> GoodTranslations(c, s, flat, tr)
    ensures error.None? ==> tm == NextTm(c, s, flat, tr, now) && fallbackKeys == Fallbacks(c, s, flat, tr)
    ensures error.None? ==> forall i :: 0 <= i < |flat| ==>
              flat[i].0 in nextFlat && nextFlat[flat[i].0] == FinalText(c, s, tr, flat[i].0, flat[i].1)
    ensures Provided(c, s, flat, options.budget, provider.replies, old(provider.next), provider.next, error, tr)
  {
    var byTextHash := BuildTranslationMemoryByTextHash(s.tm, c.locale);
    var p := DecisionPass(c, s, flat, byTextHash);
    var texts;
    error, tm, texts, tr := ProviderPhase(c, provider, s, flat, p, options.budget, now);
    if error.Some? { return error, map[], [], tm, tr; }
    AfterProviderGood(c, s, flat, tr, now, tm, texts);
    nextFlat, fallbackKeys := FallbackPhase(c, s, flat, p, options.force, now, tm, texts, tr);
  }

  /** Every final text has its source text's placeholders. */
  ghost predicate ParityHolds(c: Config, s: Loaded, tr: Translations, flat: FlatMap) {
    forall i :: 0 <= i < |flat| ==>
      c.placeholders(flat[i].1) == c.placeholders(FinalText(c, s, tr, flat[i].0, flat[i].1))
  }

  /** Comparing with the disk and writing. */
  method Finish(disk: Workspace, source: Source, files: Files, expected: Files, options: Options)
    returns (outcome: SyncOutcome)
    requires files == disk.View() && expected.meta.Some?
    modifies disk
    ensures outcome.Synced? && outcome.changed == (files != expected)
    ensures outcome.fallbackCount == |expected.meta.value.fallbackKeys|
    ensures outcome.wrote == (outcome.changed && options.write && !options.checkOnly)
    ensures disk.View() == if outcome.wrote then expected else files
  {
    var changed := files.locale != expected.locale || files.meta != expected.meta || files.glossary != expected.glossary
                   || files.tm != expected.tm;
    var count := |expected.meta.value.fallbackKeys|;
    var sameSource := files.meta.Some? && files.meta.value.sourceHash == source.hash;
    if !changed || (sameSource && !options.force && !options.checkOnly && !options.write) {
      return Synced(changed, count, false);
    }
    if !options.checkOnly && options.write {
      disk.Write(expected);
    }
    return Synced(changed, count, !options.checkOnly && options.write && changed);
  }

  lemma ParityAgain(c: Config, source: Source, files: Files, tr: Translations, now: string)
    requires ValidConfig(c) && Faithful(Flatten(source.tree))
    requires GoodTranslations(c, Load(files), Flatten(source.tree), tr)
    requires ParityHolds(c, Load(files), tr, Flatten(source.tree))
    ensures ParityHolds(c, Load(Expected(c, source, files, tr, now)), map[], Flatten(source.tree))
  {
    var flat, s' := Flatten(source.tree), Load(Expected(c, source, files, tr, now));
    SameTexts(c, source, files, tr, now);
    TextsAre(c, Load(files), tr, flat);
    TextsAre(c, s', map[], flat);
    forall i | 0 <= i < |flat|
      ensures c.placeholders(flat[i].1) == c.placeholders(FinalText(c, s', map[], flat[i].0, flat[i].1))
    {
      assert Texts(c, s', map[], flat)[i] == Texts(c, Load(files), tr, flat)[i];
    }
  }

  /** After a written run with a provider no key is left in English. And where the source's keys survive being written,
      the run is a fixpoint: running again, whenever, asks the provider nothing, finds nothing changed and leaves the
      disk as it is. */
  method SyncTwice(disk: Workspace, provider: Provider, c: Config, source: Source, options: Options, now: string,
                   later: string)
    returns (first: SyncOutcome, second: SyncOutcome, ghost written: Files, ghost prompts: nat)
    requires ValidConfig(c) && options.budget > 0.0 && options.write && !options.checkOnly
    modifies disk, provider
    ensures first.Synced? && c.hasProvider ==> first.fallbackCount == 0
    ensures first.Synced? && Faithful(Flatten(source.tree)) ==> second == Synced(false, first.fallbackCount, false)
    ensures first.Synced? && Faithful(Flatten(source.tree)) ==> disk.View() == written && provider.next == prompts
  {
    ghost var files := disk.View();
    ghost var error, tr;
    first, error, tr := Sync(disk, provider, c, source, options, now);
    written, prompts := disk.View(), provider.next;
    if !first.Synced? { return first, first, written, prompts; }
    assert written == Expected(c, source, files, tr, now);
    if c.hasProvider { ProviderLeavesNoFallback(c, source, files, tr, now); }
    if Faithful(Flatten(source.tree)) {
      SyncIsFixpoint(c, source, files, tr, now, later);
      ParityAgain(c, source, files, tr, now);
    }
    second, error, tr := Sync(disk, provider, c, source, options, later);
  }
}
