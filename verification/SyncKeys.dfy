/** What one sync makes of each source key (scripts/control-ui-i18n.ts), told by the files it read alone: which text is
    written, whether the key is listed as a fallback, and what the translation memory then holds for it. */
module SyncKeys {
  import opened Wrappers
  import opened Sequences
  import opened Text
  import opened LocaleTree
  import opened LocaleReadBack
  import opened Batching
  import opened Collation
  import opened SyncPlan
  import opened SyncFixpoint

  // ---- the memory's lines

  ghost predicate HasLetter(s: string) { exists k :: 0 <= k < |s| && !IsSpace(s[k]) }

  lemma HasLetterIff(s: string)
    ensures HasLetter(s) <==> !IsBlank(s)
  {
    BlankIffAllSpace(s);
  }

  /** The line can be loaded under the key. */
  ghost predicate Loads(e: TmEntry, key: string) { e.cacheKey == key && HasLetter(e.translated) }

  /** Line j is the last one of the first n that can be loaded under the key. */
  ghost predicate LastLine(lines: seq<TmEntry>, n: nat, key: string, j: nat) {
    j < n <= |lines| && Loads(lines[j], key) && forall k :: j < k < n ==> !Loads(lines[k], key)
  }

  ghost predicate NoLine(lines: seq<TmEntry>, n: nat, key: string) {
    n <= |lines| && forall k :: 0 <= k < n ==> !Loads(lines[k], key)
  }

  lemma LoadStep(lines: seq<TmEntry>, n: nat, key: string)
    requires key != "" && n < |lines|
    ensures TmGet(LoadTm(lines[..n + 1]), key)
         == if Loads(lines[n], key) then Some(lines[n]) else TmGet(LoadTm(lines[..n]), key)
  {
    PrefixSnoc(lines, n);
    HasLetterIff(lines[n].translated);
    TmSetIs(LoadTm(lines[..n]), lines[n]);
  }

  lemma {:induction false} LoadsLast(lines: seq<TmEntry>, n: nat, key: string, j: nat)
    requires key != "" && LastLine(lines, n, key, j)
    ensures TmGet(LoadTm(lines[..n]), key) == Some(lines[j])
  {
    LoadStep(lines, n - 1, key);
    if j < n - 1 { LoadsLast(lines, n - 1, key, j); }
  }

  lemma {:induction false} LoadsNone(lines: seq<TmEntry>, n: nat, key: string)
    requires key != "" && NoLine(lines, n, key)
    ensures TmGet(LoadTm(lines[..n]), key) == None
  {
    if n > 0 {
      LoadStep(lines, n - 1, key);
      LoadsNone(lines, n - 1, key);
    }
  }

  /** A loaded memory holds under a key the last line with that key and a text that is not blank. */
  lemma LoadTmReads(lines: seq<TmEntry>, key: string, j: nat)
    requires key != ""
    ensures NoLine(lines, |lines|, key) ==> TmGet(LoadTm(lines), key) == None
    ensures LastLine(lines, |lines|, key, j) ==> TmGet(LoadTm(lines), key) == Some(lines[j])
  {
    assert lines[..|lines|] == lines;
    if NoLine(lines, |lines|, key) { LoadsNone(lines, |lines|, key); }
    if LastLine(lines, |lines|, key, j) { LoadsLast(lines, |lines|, key, j); }
  }

  /** An entry whose text can be used for any key with the same source text. */
  ghost predicate Suits(e: TmEntry, locale: string, hash: string) {
    e.tgtLang == locale && e.textHash == hash && hash != "" && HasLetter(e.translated)
  }

  /** Entry k is the last one of the first n that suits. */
  ghost predicate LastSuiting(tm: Tm, n: nat, locale: string, hash: string, k: nat) {
    k < n <= |tm| && Suits(tm[k], locale, hash) && forall j :: k < j < n ==> !Suits(tm[j], locale, hash)
  }

  ghost predicate NoneSuits(tm: Tm, locale: string, hash: string) {
    forall j :: 0 <= j < |tm| ==> !Suits(tm[j], locale, hash)
  }

  lemma MatchStep(tm: Tm, n: nat, locale: string, hash: string)
    requires n < |tm|
    ensures TextMatch(tm[..n + 1], locale, hash)
         == if Suits(tm[n], locale, hash) then Some(tm[n]) else TextMatch(tm[..n], locale, hash)
  {
    PrefixSnoc(tm, n);
    HasLetterIff(tm[n].translated);
  }

  lemma {:induction false} MatchesLast(tm: Tm, n: nat, locale: string, hash: string, k: nat)
    requires LastSuiting(tm, n, locale, hash, k)
    ensures TextMatch(tm[..n], locale, hash) == Some(tm[k])
  {
    MatchStep(tm, n - 1, locale, hash);
    if k < n - 1 { MatchesLast(tm, n - 1, locale, hash, k); }
  }

  lemma MatchesNone(tm: Tm, locale: string, hash: string)
    ensures TextMatch(tm, locale, hash).None? <==> NoneSuits(tm, locale, hash)
  {
    TextMatchIs(tm, locale, hash);
    forall j | 0 <= j < |tm| ensures Suits(tm[j], locale, hash) <==> Usable(tm[j], locale) && tm[j].textHash == hash {
      HasLetterIff(tm[j].translated);
    }
    assert forall j :: 0 <= j < |tm| ==> tm[j] in tm;
  }

  // ---- what is found, and what is left, of one key

  /** What a run finds of a key: a translation under the key's own cache key, a text in the old bundle, and whether the
      old metadata lists the key as a fallback. */
  datatype Found = Found(cached: Option<TmEntry>, existing: Option<string>, marked: bool)

  function OwnKey(c: Config, source: Source, i: nat): string
    requires i < |Flatten(source.tree)|
  {
    var (key, text) := Flatten(source.tree)[i];
    c.cacheKey(key, c.hashText(text))
  }

  function Find(c: Config, source: Source, files: Files, i: nat): Found
    requires i < |Flatten(source.tree)|
  {
    var key := Flatten(source.tree)[i].0;
    Found(TmGet(LoadTm(files.tm), OwnKey(c, source, i)),
          if files.locale.Some? then MapGet(Flatten(files.locale.value), key) else None,
          files.meta.Some? && key in files.meta.value.fallbackKeys)
  }

  /** The provider is asked anew for fallbacks. */
  predicate Refreshed(c: Config, found: Found) { c.hasProvider && found.marked }

  /** What a run leaves of a key: the text its bundle is built with, which is also what is read back from it if the
      source's keys survive that, whether the key is listed, and what the memory holds for it. */
  ghost predicate Leaves(c: Config, source: Source, files: Files, tr: Translations, now: string, i: nat, text: string,
                         listed: bool, entry: Option<TmEntry>)
    requires i < |Flatten(source.tree)|
  {
    var (flat, written) := (Flatten(source.tree), Expected(c, source, files, tr, now));
    var texts := Texts(c, Load(files), tr, flat);
    && written.locale == Some(Rebuild(Nil, texts)) && |texts| == |flat| && texts[i] == (flat[i].0, text)
    && (Faithful(flat) ==> MapGet(Flatten(Rebuild(Nil, texts)), flat[i].0) == Some(text))
    && written.meta.Some? && (flat[i].0 in written.meta.value.fallbackKeys <==> listed)
    && TmGet(LoadTm(written.tm), OwnKey(c, source, i)) == entry
  }

  /** A run with its configuration, and translations for all keys that it asks the provider for. */
  ghost predicate GoodRun(c: Config, source: Source, files: Files, tr: Translations) {
    ValidConfig(c) && GoodTranslations(c, Load(files), Flatten(source.tree), tr)
  }

  lemma FindIs(c: Config, source: Source, files: Files, i: nat)
    requires i < |Flatten(source.tree)|
    ensures var (s, found) := (Load(files), Find(c, source, files, i));
      var (key, text) := Flatten(source.tree)[i];
      && TmGet(s.tm, CacheKeyOf(c, key, text)) == found.cached && MapGet(s.existing, key) == found.existing
      && (key in s.was <==> found.marked)
  {
  }

  lemma LeavesAre(c: Config, source: Source, files: Files, tr: Translations, now: string, i: nat)
    requires GoodRun(c, source, files, tr) && i < |Flatten(source.tree)|
    ensures var (s, flat) := (Load(files), Flatten(source.tree));
      Leaves(c, source, files, tr, now, i, FinalText(c, s, tr, flat[i].0, flat[i].1), FallbackAt(c, s, flat, tr, i),
             CachedAfter(c, s, flat, tr, now, i))
  {
    var s, flat := Load(files), Flatten(source.tree);
    TextsAre(c, s, tr, flat);
    if Faithful(flat) { WrittenBundle(c, source, s, tr, i); }
    RereadMark(c, source, files, tr, now, i);
    RereadCached(c, source, files, tr, now, i);
  }

  // ---- the four cases

  /** A key that has its own translation keeps it, with its mark, unless the provider is to refresh it. */
  lemma CachedIsKept(c: Config, source: Source, files: Files, tr: Translations, now: string, i: nat)
    requires GoodRun(c, source, files, tr) && i < |Flatten(source.tree)|
    requires var found := Find(c, source, files, i); found.cached.Some? && !Refreshed(c, found)
    ensures var found := Find(c, source, files, i);
      Leaves(c, source, files, tr, now, i, found.cached.value.translated, found.marked, found.cached)
  {
    FindIs(c, source, files, i);
    LeavesAre(c, source, files, tr, now, i);
  }

  /** Failing that, a key that is marked or missing from the old bundle takes the translation last stored for its text
      under any key; it is no fallback any more, and the memory gets a copy for it. */
  lemma TextIsReused(c: Config, source: Source, files: Files, tr: Translations, now: string, i: nat, k: nat)
    requires GoodRun(c, source, files, tr) && i < |Flatten(source.tree)|
    requires var found := Find(c, source, files, i);
      (found.cached.None? || Refreshed(c, found)) && (found.existing.None? || found.marked)
    requires LastSuiting(LoadTm(files.tm), |LoadTm(files.tm)|, c.locale, c.hashText(Flatten(source.tree)[i].1), k)
    ensures var e := LoadTm(files.tm)[k];
      Leaves(c, source, files, tr, now, i, e.translated, false,
             Some(e.(cacheKey := OwnKey(c, source, i), segmentId := Flatten(source.tree)[i].0,
                     sourcePath := c.sourcePath)))
  {
    FindIs(c, source, files, i);
    LeavesAre(c, source, files, tr, now, i);
    var tm := LoadTm(files.tm);
    MatchesLast(tm, |tm|, c.locale, c.hashText(Flatten(source.tree)[i].1), k);
    assert tm[..|tm|] == tm;
  }

  /** Failing that too, the old bundle's text is kept, with its mark, unless the provider is to refresh it. */
  lemma ExistingIsKept(c: Config, source: Source, files: Files, tr: Translations, now: string, i: nat)
    requires GoodRun(c, source, files, tr) && i < |Flatten(source.tree)|
    requires var found := Find(c, source, files, i);
      found.cached.None? && found.existing.Some? && !Refreshed(c, found)
      && (found.marked ==> NoneSuits(LoadTm(files.tm), c.locale, c.hashText(Flatten(source.tree)[i].1)))
    ensures var found := Find(c, source, files, i);
      Leaves(c, source, files, tr, now, i, found.existing.value, found.marked, None)
  {
    FindIs(c, source, files, i);
    LeavesAre(c, source, files, tr, now, i);
    MatchesNone(LoadTm(files.tm), c.locale, c.hashText(Flatten(source.tree)[i].1));
  }

  /** Nothing the run finds gives the key a text. */
  ghost predicate NothingFound(c: Config, source: Source, files: Files, i: nat)
    requires i < |Flatten(source.tree)|
  {
    var found := Find(c, source, files, i);
    (Refreshed(c, found) || (found.cached.None? && found.existing.None?))
    && NoneSuits(LoadTm(files.tm), c.locale, c.hashText(Flatten(source.tree)[i].1))
  }

  lemma NothingFoundIff(c: Config, source: Source, files: Files, i: nat)
    requires i < |Flatten(source.tree)|
    ensures DecideAt(c, Load(files), Flatten(source.tree), i).Pending? <==> NothingFound(c, source, files, i)
  {
    FindIs(c, source, files, i);
    MatchesNone(LoadTm(files.tm), c.locale, c.hashText(Flatten(source.tree)[i].1));
  }

  /** A key is pending, with its text, hash and cache key, exactly when nothing found gives it a text. */
  lemma PendingIff(c: Config, source: Source, files: Files, i: nat)
    requires ValidConfig(c) && i < |Flatten(source.tree)|
    ensures var (key, text) := Flatten(source.tree)[i];
      BatchItem(OwnKey(c, source, i), key, text, c.hashText(text)) in PendingItems(c, Load(files), Flatten(source.tree))
      <==> NothingFound(c, source, files, i)
  {
    var s, flat := Load(files), Flatten(source.tree);
    var item := ItemOf(c, flat[i].0, flat[i].1);
    FlattenDistinct(source.tree, "", []);
    NothingFoundIff(c, source, files, i);
    PendingItemsAre(c, s, flat, item);
    if DecideAt(c, s, flat, i).Pending? { assert IsPending(c, s, flat, item, i); }
    if j: nat :| IsPending(c, s, flat, item, j) { assert flat[j].0 == flat[i].0; }
  }

  lemma PendingSnoc(c: Config, s: Loaded, flat: FlatMap, n: nat)
    requires n < |flat|
    ensures PendingItems(c, s, flat[..n + 1])
         == PendingItems(c, s, flat[..n])
            + if DecideAt(c, s, flat, n).Pending? then [ItemOf(c, flat[n].0, flat[n].1)] else []
  {
    PrefixSnoc(flat, n);
  }

  /** Pending items come in the order of the source. */
  lemma {:induction false} PendingInOrder(c: Config, s: Loaded, flat: FlatMap, n: nat)
    requires DistinctKeys(flat) && n <= |flat|
    ensures var items := PendingItems(c, s, flat[..n]);
      && (forall a :: 0 <= a < |items| ==> IndexOfKey(flat, items[a].key) < n)
      && forall a, b :: 0 <= a < b < |items| ==> IndexOfKey(flat, items[a].key) < IndexOfKey(flat, items[b].key)
  {
    if n > 0 {
      PendingInOrder(c, s, flat, n - 1);
      PendingSnoc(c, s, flat, n - 1);
      IndexOfKeyIs(flat, flat[n - 1].0, n - 1);
    }
  }

  /** The provider's texts are all a run needs: it has them all exactly when it has one that is not blank for every key
      for which nothing was found. */
  lemma GoodRunIff(c: Config, source: Source, files: Files, tr: Translations)
    requires c.hasProvider
    ensures var flat := Flatten(source.tree);
      GoodRun(c, source, files, tr)
      <==> ValidConfig(c) && forall i: nat :: i < |flat| && NothingFound(c, source, files, i)
                                              ==> flat[i].0 in tr && HasLetter(tr[flat[i].0])
  {
    var s, flat := Load(files), Flatten(source.tree);
    forall i: nat | i < |flat|
      ensures DecideAt(c, s, flat, i).Pending? <==> NothingFound(c, source, files, i)
      ensures flat[i].0 in tr ==> (HasLetter(tr[flat[i].0]) <==> !IsBlank(tr[flat[i].0]))
    {
      NothingFoundIff(c, source, files, i);
      if flat[i].0 in tr { HasLetterIff(tr[flat[i].0]); }
    }
    if GoodTranslations(c, s, flat, tr) {
      forall i: nat | i < |flat| && NothingFound(c, source, files, i) ensures flat[i].0 in tr
        && HasLetter(tr[flat[i].0])
      {
        assert Decide(c, s, flat[i].0, flat[i].1).Pending?;
      }
    }
  }

  /** With a provider a pending key takes the provider's text, is no fallback, and the memory has it from now on. */
  lemma PendingIsTranslated(c: Config, source: Source, files: Files, tr: Translations, now: string, i: nat)
    requires GoodRun(c, source, files, tr) && c.hasProvider
    requires i < |Flatten(source.tree)| && NothingFound(c, source, files, i)
    ensures var (key, text) := Flatten(source.tree)[i];
      key in tr && Leaves(c, source, files, tr, now, i, tr[key], false,
        Some(TmEntry(OwnKey(c, source, i), key, c.sourcePath, "en", c.locale, text, c.hashText(text), tr[key],
                     c.provider, c.model, now)))
  {
    NothingFoundIff(c, source, files, i);
    LeavesAre(c, source, files, tr, now, i);
  }

  /** Without one it keeps its source text and is listed as a fallback; the memory learns nothing. */
  lemma PendingFallsBack(c: Config, source: Source, files: Files, tr: Translations, now: string, i: nat)
    requires GoodRun(c, source, files, tr) && !c.hasProvider
    requires i < |Flatten(source.tree)| && NothingFound(c, source, files, i)
    ensures Leaves(c, source, files, tr, now, i, Flatten(source.tree)[i].1, true, None)
  {
    NothingFoundIff(c, source, files, i);
    FindIs(c, source, files, i);
    LeavesAre(c, source, files, tr, now, i);
  }

  // ---- what does not concern a source key

  lemma CopyIsOwn(c: Config, source: Source, s: Loaded, key: string) returns (i: nat)
    requires UpGet(TextUpdates(c, s, Flatten(source.tree)), key).Some?
    ensures i < |Flatten(source.tree)| && key == OwnKey(c, source, i)
  {
    var flat := Flatten(source.tree);
    UpGetIs(TextUpdates(c, s, flat), key);
    TextUpdatesAre(c, s, flat, UpGet(TextUpdates(c, s, flat), key).value);
    i :| IsCopy(c, s, flat, UpGet(TextUpdates(c, s, flat), key).value, i);
  }

  lemma NewIsOwn(c: Config, source: Source, s: Loaded, tr: Translations, now: string, key: string) returns (i: nat)
    requires UpGet(NewUpdates(c, PendingItems(c, s, Flatten(source.tree)), tr, now), key).Some?
    ensures i < |Flatten(source.tree)| && key == OwnKey(c, source, i)
  {
    var flat := Flatten(source.tree);
    var items := PendingItems(c, s, flat);
    var found := UpGet(NewUpdates(c, items, tr, now), key);
    UpGetIs(NewUpdates(c, items, tr, now), key);
    NewUpdatesAre(c, items, tr, now, found.value);
    var item :| IsNew(c, items, tr, now, found.value, item);
    PendingItemsAre(c, s, flat, item);
    i :| IsPending(c, s, flat, item, i);
  }

  /** What the memory holds under other cache keys stays. */
  lemma OtherEntriesStay(c: Config, source: Source, files: Files, tr: Translations, now: string, key: string)
    requires GoodRun(c, source, files, tr)
    requires forall i: nat :: i < |Flatten(source.tree)| ==> key != OwnKey(c, source, i)
    ensures TmGet(LoadTm(Expected(c, source, files, tr, now).tm), key) == TmGet(LoadTm(files.tm), key)
  {
    var s, flat := Load(files), Flatten(source.tree);
    var ups, news := TextUpdates(c, s, flat), NewUpdates(c, PendingItems(c, s, flat), tr, now);
    RereadTm(c, source, files, tr, now);
    SameMembersSameGet(LoadTm(Expected(c, source, files, tr, now).tm), NextTm(c, s, flat, tr, now), key);
    SetAllGet(SetAll(s.tm, ups), news, key);
    SetAllGet(s.tm, ups, key);
    if UpGet(ups, key).Some? { var i := CopyIsOwn(c, source, s, key); }
    if UpGet(news, key).Some? { var i := NewIsOwn(c, source, s, tr, now, key); }
  }

  // ---- the metadata

  /** The distinct keys of the source. */
  function KeySet(flat: FlatMap): set<string> { set i | 0 <= i < |flat| :: flat[i].0 }

  lemma {:induction false} KeySetSize(flat: FlatMap)
    requires DistinctKeys(flat)
    ensures |KeySet(flat)| == |flat|
  {
    if flat != [] {
      var n := |flat| - 1;
      KeySetSize(flat[..n]);
      assert KeySet(flat) == KeySet(flat[..n]) + {flat[n].0} && flat[n].0 !in KeySet(flat[..n]);
    }
  }

  lemma {:induction false} ElementsSize(keys: seq<string>)
    requires NoDup(keys)
    ensures |set k | k in keys| == |keys|
  {
    if keys != [] {
      var n := |keys| - 1;
      ElementsSize(keys[..n]);
      assert (set k | k in keys) == (set k | k in keys[..n]) + {keys[n]} && keys[n] !in keys[..n];
    }
  }

  lemma DifferenceSize<T>(a: set<T>, b: set<T>)
    requires b <= a
    ensures |a - b| == |a| - |b|
  {
    assert a == b + (a - b) && b * (a - b) == {};
  }

  /** The fallbacks are source keys, in order, none twice. */
  lemma ListedKeys(c: Config, source: Source, files: Files, tr: Translations, now: string)
    requires ValidConfig(c)
    ensures var keys := Expected(c, source, files, tr, now).meta.value.fallbackKeys;
      && NoDup(keys) && (forall k :: k in keys ==> k in KeySet(Flatten(source.tree)))
      && forall i, j :: 0 <= i < j < |keys| ==> c.leq(keys[i], keys[j])
  {
    var s, flat := Load(files), Flatten(source.tree);
    var all := Fallbacks(c, s, flat, tr);
    FlattenDistinct(source.tree, "", []);
    FallbacksAre(c, s, flat, tr);
    SortKeeps(all, Id, c.leq);
    SortSorts(all, Id, c.leq);
    NextMetaIs(c, source, files.meta, |flat|, all, now, all, now);
  }

  lemma UnlistedSize(flat: FlatMap, keys: seq<string>)
    requires DistinctKeys(flat) && NoDup(keys) && forall k :: k in keys ==> k in KeySet(flat)
    ensures |KeySet(flat)| == |flat| && |KeySet(flat) - (set k | k in keys)| == |flat| - |keys|
  {
    KeySetSize(flat);
    ElementsSize(keys);
    DifferenceSize(KeySet(flat), set k | k in keys);
  }

  /** The metadata counts the keys of the source, and as translated all that are not listed. */
  lemma MetaCounts(c: Config, source: Source, files: Files, tr: Translations, now: string)
    requires ValidConfig(c)
    ensures var (keys, meta) := (KeySet(Flatten(source.tree)), Expected(c, source, files, tr, now).meta.value);
      meta.totalKeys == |keys| && meta.translatedKeys == |keys - (set k | k in meta.fallbackKeys)|
  {
    var flat := Flatten(source.tree);
    FlattenDistinct(source.tree, "", []);
    ListedKeys(c, source, files, tr, now);
    UnlistedSize(flat, Expected(c, source, files, tr, now).meta.value.fallbackKeys);
    CountsAre(c, source, files.meta, |flat|, Fallbacks(c, Load(files), flat, tr), now);
  }

  lemma CountsAre(c: Config, source: Source, previous: Option<LocaleMeta>, n: nat, fallbacks: seq<string>, now: string)
    ensures var meta := NextMeta(c, source, previous, n, fallbacks, now);
      meta.totalKeys == n && meta.translatedKeys == n - |meta.fallbackKeys|
  {
  }

  /** It is of this locale and source; it names the provider in use, or else the last one known; and its date is the old
      one exactly if nothing else in it is new. */
  lemma MetaMeaning(c: Config, source: Source, files: Files, tr: Translations, now: string)
    ensures var meta := Expected(c, source, files, tr, now).meta.value;
      && meta.locale == c.locale && meta.sourceHash == source.hash && meta.workflow == 1
      && (c.hasProvider ==> meta.provider == c.provider && meta.model == c.model)
      && (!c.hasProvider && files.meta.Some?
          ==> meta.provider == files.meta.value.provider && meta.model == files.meta.value.model)
      && (!c.hasProvider && files.meta.None? ==> meta.provider == meta.model == "")
      && (meta.generatedAt == now || files.meta == Some(meta))
      && (forall date :: files.meta == Some(meta.(generatedAt := date)) ==> meta.generatedAt == date)
  {
  }

  /** A glossary that is missing or empty is replaced by the default one, any other is written as it was. */
  lemma GlossaryMeaning(c: Config, source: Source, files: Files, tr: Translations, now: string)
    ensures var glossary := Expected(c, source, files, tr, now).glossary;
      glossary == if files.glossary in {None, Some([])} then Some(DEFAULT_GLOSSARY) else files.glossary
  {
  }
}
