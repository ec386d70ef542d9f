/** Syncing what was just synced changes nothing (scripts/control-ui-i18n.ts). */
module SyncFixpoint {
  import opened Wrappers
  import opened Sequences
  import opened Text
  import opened LocaleTree
  import opened LocaleReadBack
  import opened Batching
  import opened Collation
  import opened SyncPlan

  // ---- the translation memory as a map

  ghost predicate DistinctTm(tm: Tm) { forall i, j :: 0 <= i < j < |tm| ==> tm[i].cacheKey != tm[j].cacheKey }

  ghost predicate AllLoadable(tm: Tm) { forall i :: 0 <= i < |tm| ==> Loadable(tm[i]) }

  lemma {:induction false} TmSetIs(tm: Tm, e: TmEntry)
    ensures forall k :: TmGet(TmSet(tm, e), k) == if k == e.cacheKey then Some(e) else TmGet(tm, k)
    ensures forall x :: x in TmSet(tm, e) ==> x == e || x in tm
  {
    if tm != [] { TmSetIs(tm[1..], e); }
  }

  lemma {:induction false} TmSetDistinct(tm: Tm, e: TmEntry)
    requires DistinctTm(tm)
    ensures DistinctTm(TmSet(tm, e))
  {
    if tm != [] {
      TmSetDistinct(tm[1..], e);
      TmSetIs(tm[1..], e);
      var r := TmSet(tm, e);
      forall j | 0 < j < |r| ensures r[0].cacheKey != r[j].cacheKey {
        assert r[j] in r[1..];
        if tm[0].cacheKey != e.cacheKey && r[j] != e { assert r[j] in tm[1..]; }
      }
      assert forall i, j :: 0 < i < j < |r| ==> r[i] == r[1..][i - 1] && r[j] == r[1..][j - 1];
    }
  }

  lemma TmSetLoadable(tm: Tm, e: TmEntry)
    requires AllLoadable(tm) && Loadable(e)
    ensures AllLoadable(TmSet(tm, e))
  {
    TmSetIs(tm, e);
    forall i | 0 <= i < |TmSet(tm, e)| ensures Loadable(TmSet(tm, e)[i]) { assert TmSet(tm, e)[i] in TmSet(tm, e); }
  }

  lemma {:induction false} LoadTmIs(lines: seq<TmEntry>)
    ensures DistinctTm(LoadTm(lines)) && AllLoadable(LoadTm(lines))
  {
    if lines != [] {
      LoadTmIs(lines[..|lines| - 1]);
      if Loadable(lines[|lines| - 1]) {
        TmSetDistinct(LoadTm(lines[..|lines| - 1]), lines[|lines| - 1]);
        TmSetLoadable(LoadTm(lines[..|lines| - 1]), lines[|lines| - 1]);
      }
    }
  }

  lemma {:induction false} SetAllIs(tm: Tm, updates: seq<TmEntry>)
    requires DistinctTm(tm) && AllLoadable(tm) && AllLoadable(updates)
    ensures DistinctTm(SetAll(tm, updates)) && AllLoadable(SetAll(tm, updates))
    ensures forall x :: x in SetAll(tm, updates) ==> x in tm || x in updates
  {
    if updates != [] {
      var n := |updates| - 1;
      SetAllIs(tm, updates[..n]);
      TmSetDistinct(SetAll(tm, updates[..n]), updates[n]);
      TmSetLoadable(SetAll(tm, updates[..n]), updates[n]);
      TmSetIs(SetAll(tm, updates[..n]), updates[n]);
    }
  }

  /** The last update of a key. */
  function UpGet(updates: seq<TmEntry>, key: string): Option<TmEntry> {
    if updates == [] then None
    else if updates[|updates| - 1].cacheKey == key then Some(updates[|updates| - 1])
    else UpGet(updates[..|updates| - 1], key)
  }

  lemma {:induction false} SetAllGet(tm: Tm, updates: seq<TmEntry>, key: string)
    ensures TmGet(SetAll(tm, updates), key) == if UpGet(updates, key).Some? then UpGet(updates, key) else TmGet(tm, key)
  {
    if updates != [] {
      SetAllGet(tm, updates[..|updates| - 1], key);
      TmSetIs(SetAll(tm, updates[..|updates| - 1]), updates[|updates| - 1]);
    }
  }

  lemma {:induction false} TmGetMember(tm: Tm, e: TmEntry)
    requires DistinctTm(tm)
    ensures e in tm <==> TmGet(tm, e.cacheKey) == Some(e)
  {
    if tm != [] {
      TmGetMember(tm[1..], e);
      if e in tm[1..] { var i :| 0 <= i < |tm[1..]| && tm[1..][i] == e; assert tm[i + 1] == e; }
    }
  }

  lemma TmGetKey(tm: Tm, key: string)
    ensures TmGet(tm, key).Some? ==> TmGet(tm, key).value.cacheKey == key
  {
  }

  lemma SameMembersSameGet(a: Tm, b: Tm, key: string)
    requires DistinctTm(a) && DistinctTm(b) && forall x :: x in a <==> x in b
    ensures TmGet(a, key) == TmGet(b, key)
  {
    TmGetKey(a, key);
    TmGetKey(b, key);
    if TmGet(a, key).Some? { TmGetMember(a, TmGet(a, key).value); TmGetMember(b, TmGet(a, key).value); }
    if TmGet(b, key).Some? { TmGetMember(a, TmGet(b, key).value); TmGetMember(b, TmGet(b, key).value); }
  }

  lemma {:induction false} LoadDistinct(lines: seq<TmEntry>)
    requires DistinctTm(lines) && AllLoadable(lines)
    ensures LoadTm(lines) == lines
  {
    if lines != [] {
      var n := |lines| - 1;
      LoadDistinct(lines[..n]);
      TmSetNew(lines[..n], lines[n]);
      assert lines == lines[..n] + [lines[n]];
    }
  }

  lemma {:induction false} TmSetNew(tm: Tm, e: TmEntry)
    requires forall i :: 0 <= i < |tm| ==> tm[i].cacheKey != e.cacheKey
    ensures TmSet(tm, e) == tm + [e]
  {
    if tm != [] { TmSetNew(tm[1..], e); }
  }

  /** Writing a memory and loading it again keeps every entry; writing it once more gives the same file. */
  lemma RenderLoad(tm: Tm, leq: Leq)
    requires TotalOrder(leq) && DistinctTm(tm) && AllLoadable(tm)
    ensures var file := RenderTm(tm, leq);
      && LoadTm(file) == file && RenderTm(file, leq) == file && DistinctTm(file)
      && (forall x :: x in file <==> x in tm)
  {
    var file := RenderTm(tm, leq);
    SortKeeps(tm, KeyOf, leq);
    SortSorts(tm, KeyOf, leq);
    assert NoDup(tm);
    forall i, j | 0 <= i < j < |file| ensures file[i].cacheKey != file[j].cacheKey {
      assert file[i] in file && file[j] in file;
      TmGetMember(tm, file[i]);
      TmGetMember(tm, file[j]);
    }
    forall i | 0 <= i < |file| ensures Loadable(file[i]) { assert file[i] in file; }
    LoadDistinct(file);
    SortOfSorted(file, KeyOf, leq);
  }

  // ---- matches by text hash

  ghost predicate HasText(tm: Tm, locale: string, hash: string) {
    exists e :: e in tm && Usable(e, locale) && e.textHash == hash
  }

  lemma {:induction false} TextMatchIs(tm: Tm, locale: string, hash: string)
    ensures TextMatch(tm, locale, hash).Some? <==> HasText(tm, locale, hash)
    ensures TextMatch(tm, locale, hash).Some? ==>
              var e := TextMatch(tm, locale, hash).value; e in tm && Usable(e, locale) && e.textHash == hash
  {
    if tm != [] {
      var n := |tm| - 1;
      TextMatchIs(tm[..n], locale, hash);
      assert tm == tm[..n] + [tm[n]];
    }
  }

  // ---- what the updates are

  lemma {:induction false} UpGetMember(updates: seq<TmEntry>, key: string)
    requires UpGet(updates, key).Some?
    ensures UpGet(updates, key).value in updates && UpGet(updates, key).value.cacheKey == key
  {
    var n := |updates| - 1;
    if updates[n].cacheKey != key {
      UpGetMember(updates[..n], key);
      InitAndLast(updates);
    }
  }

  lemma {:induction false} UpGetNone(updates: seq<TmEntry>, key: string, i: nat)
    requires UpGet(updates, key).None? && i < |updates|
    ensures updates[i].cacheKey != key
  {
    var n := |updates| - 1;
    if i < n { UpGetNone(updates[..n], key, i); }
  }

  lemma UpGetIs(updates: seq<TmEntry>, key: string)
    ensures UpGet(updates, key).Some?
         ==> UpGet(updates, key).value in updates && UpGet(updates, key).value.cacheKey == key
    ensures UpGet(updates, key).None? ==> forall u :: u in updates ==> u.cacheKey != key
  {
    if UpGet(updates, key).Some? {
      UpGetMember(updates, key);
    } else {
      forall i | 0 <= i < |updates| ensures updates[i].cacheKey != key { UpGetNone(updates, key, i); }
    }
  }

  function DecideAt(c: Config, s: Loaded, flat: FlatMap, i: nat): Decision
    requires i < |flat|
  {
    Decide(c, s, flat[i].0, flat[i].1)
  }

  ghost predicate IsCopy(c: Config, s: Loaded, flat: FlatMap, u: TmEntry, i: nat) {
    i < |flat| && DecideAt(c, s, flat, i).FromText? && u == Copy(c, DecideAt(c, s, flat, i).entry, flat[i].0, flat[i].1)
  }

  lemma {:induction false} TextUpdatesAre(c: Config, s: Loaded, flat: FlatMap, u: TmEntry)
    ensures u in TextUpdates(c, s, flat) <==> exists i: nat :: IsCopy(c, s, flat, u, i)
  {
    if flat != [] {
      var n := |flat| - 1;
      TextUpdatesAre(c, s, flat[..n], u);
      if i: nat :| IsCopy(c, s, flat[..n], u, i) { assert IsCopy(c, s, flat, u, i); }
      if i: nat :| IsCopy(c, s, flat, u, i) { assert i < n ==> IsCopy(c, s, flat[..n], u, i); }
      if DecideAt(c, s, flat, n).FromText? {
        assert IsCopy(c, s, flat, Copy(c, DecideAt(c, s, flat, n).entry, flat[n].0, flat[n].1), n);
      }
    }
  }

  ghost predicate IsPending(c: Config, s: Loaded, flat: FlatMap, item: BatchItem, i: nat) {
    i < |flat| && DecideAt(c, s, flat, i).Pending? && item == ItemOf(c, flat[i].0, flat[i].1)
  }

  lemma {:induction false} PendingItemsAre(c: Config, s: Loaded, flat: FlatMap, item: BatchItem)
    ensures item in PendingItems(c, s, flat) <==> exists i: nat :: IsPending(c, s, flat, item, i)
  {
    if flat != [] {
      var n := |flat| - 1;
      PendingItemsAre(c, s, flat[..n], item);
      if i: nat :| IsPending(c, s, flat[..n], item, i) { assert IsPending(c, s, flat, item, i); }
      if i: nat :| IsPending(c, s, flat, item, i) { assert i < n ==> IsPending(c, s, flat[..n], item, i); }
      if DecideAt(c, s, flat, n).Pending? { assert IsPending(c, s, flat, ItemOf(c, flat[n].0, flat[n].1), n); }
    }
  }

  ghost predicate IsNew(c: Config, items: seq<BatchItem>, tr: Translations, now: string, u: TmEntry, item: BatchItem) {
    item in items && item.key in tr && u == NewEntry(c, item, tr[item.key], now)
  }

  lemma {:induction false} NewUpdatesAre(c: Config, items: seq<BatchItem>, tr: Translations, now: string, u: TmEntry)
    ensures u in NewUpdates(c, items, tr, now) <==> exists item :: IsNew(c, items, tr, now, u, item)
  {
    if items != [] {
      var n := |items| - 1;
      NewUpdatesAre(c, items[..n], tr, now, u);
      assert items == items[..n] + [items[n]];
      if item :| IsNew(c, items[..n], tr, now, u, item) { assert IsNew(c, items, tr, now, u, item); }
      if item :| IsNew(c, items, tr, now, u, item) {
        assert item != items[n] ==> IsNew(c, items[..n], tr, now, u, item);
      }
      if items[n].key in tr { assert IsNew(c, items, tr, now, NewEntry(c, items[n], tr[items[n].key], now), items[n]); }
    }
  }

  /** What the memory holds for key i after the run. */
  function CachedAfter(c: Config, s: Loaded, flat: FlatMap, tr: Translations, now: string, i: nat): Option<TmEntry>
    requires i < |flat|
  {
    var (key, text) := flat[i];
    match DecideAt(c, s, flat, i)
    case FromText(e) => Some(Copy(c, e, key, text))
    case Pending => if key in tr then Some(NewEntry(c, ItemOf(c, key, text), tr[key], now))
                    else TmGet(s.tm, CacheKeyOf(c, key, text))
    case _ => TmGet(s.tm, CacheKeyOf(c, key, text))
  }

  lemma TextUpGet(c: Config, s: Loaded, flat: FlatMap, i: nat)
    requires ValidConfig(c) && DistinctKeys(flat) && i < |flat|
    ensures UpGet(TextUpdates(c, s, flat), CacheKeyOf(c, flat[i].0, flat[i].1))
         == match DecideAt(c, s, flat, i) { case FromText(e) => Some(Copy(c, e, flat[i].0, flat[i].1)) case _ => None }
  {
    var ck := CacheKeyOf(c, flat[i].0, flat[i].1);
    UpGetIs(TextUpdates(c, s, flat), ck);
    var got := UpGet(TextUpdates(c, s, flat), ck);
    if got.Some? {
      TextUpdatesAre(c, s, flat, got.value);
      var j: nat :| IsCopy(c, s, flat, got.value, j);
      assert flat[j].0 == flat[i].0;
    } else if DecideAt(c, s, flat, i).FromText? {
      var u := Copy(c, DecideAt(c, s, flat, i).entry, flat[i].0, flat[i].1);
      TextUpdatesAre(c, s, flat, u);
      assert IsCopy(c, s, flat, u, i);
    }
  }

  lemma NewUpGet(c: Config, s: Loaded, flat: FlatMap, tr: Translations, now: string, i: nat)
    requires ValidConfig(c) && DistinctKeys(flat) && i < |flat|
    ensures UpGet(NewUpdates(c, PendingItems(c, s, flat), tr, now), CacheKeyOf(c, flat[i].0, flat[i].1))
         == if DecideAt(c, s, flat, i).Pending? && flat[i].0 in tr
            then Some(NewEntry(c, ItemOf(c, flat[i].0, flat[i].1), tr[flat[i].0], now)) else None
  {
    var ck, items := CacheKeyOf(c, flat[i].0, flat[i].1), PendingItems(c, s, flat);
    var updates := NewUpdates(c, items, tr, now);
    UpGetIs(updates, ck);
    if UpGet(updates, ck).Some? {
      NewUpdatesAre(c, items, tr, now, UpGet(updates, ck).value);
      var item :| IsNew(c, items, tr, now, UpGet(updates, ck).value, item);
      PendingItemsAre(c, s, flat, item);
      var j: nat :| IsPending(c, s, flat, item, j);
      assert flat[j].0 == flat[i].0;
    } else if DecideAt(c, s, flat, i).Pending? && flat[i].0 in tr {
      var item := ItemOf(c, flat[i].0, flat[i].1);
      PendingItemsAre(c, s, flat, item);
      assert IsPending(c, s, flat, item, i);
      NewUpdatesAre(c, items, tr, now, NewEntry(c, item, tr[item.key], now));
      assert IsNew(c, items, tr, now, NewEntry(c, item, tr[item.key], now), item);
    }
  }

  lemma NextTmGet(c: Config, s: Loaded, flat: FlatMap, tr: Translations, now: string, i: nat)
    requires ValidConfig(c) && DistinctKeys(flat) && i < |flat|
    ensures TmGet(NextTm(c, s, flat, tr, now), CacheKeyOf(c, flat[i].0, flat[i].1))
         == CachedAfter(c, s, flat, tr, now, i)
  {
    var ck := CacheKeyOf(c, flat[i].0, flat[i].1);
    SetAllGet(SetAll(s.tm, TextUpdates(c, s, flat)), NewUpdates(c, PendingItems(c, s, flat), tr, now), ck);
    SetAllGet(s.tm, TextUpdates(c, s, flat), ck);
    TextUpGet(c, s, flat, i);
    NewUpGet(c, s, flat, tr, now, i);
  }

  lemma NextTmLoadable(c: Config, s: Loaded, flat: FlatMap, tr: Translations, now: string)
    requires ValidConfig(c) && DistinctTm(s.tm) && AllLoadable(s.tm) && GoodTranslations(c, s, flat, tr)
    ensures DistinctTm(NextTm(c, s, flat, tr, now)) && AllLoadable(NextTm(c, s, flat, tr, now))
    ensures forall x :: x in NextTm(c, s, flat, tr, now) ==>
              x in s.tm || x in TextUpdates(c, s, flat) || x in NewUpdates(c, PendingItems(c, s, flat), tr, now)
  {
    var ups, items := TextUpdates(c, s, flat), PendingItems(c, s, flat);
    forall k | 0 <= k < |ups| ensures Loadable(ups[k]) {
      TextUpdatesAre(c, s, flat, ups[k]);
      var i: nat :| IsCopy(c, s, flat, ups[k], i);
      TextMatchIs(s.tm, c.locale, c.hashText(flat[i].1));
    }
    SetAllIs(s.tm, ups);
    var news := NewUpdates(c, items, tr, now);
    forall k | 0 <= k < |news| ensures Loadable(news[k]) {
      NewUpdatesAre(c, items, tr, now, news[k]);
      var item :| IsNew(c, items, tr, now, news[k], item);
      PendingItemsAre(c, s, flat, item);
      var i: nat :| IsPending(c, s, flat, item, i);
    }
    SetAllIs(SetAll(s.tm, ups), news);
  }

  lemma CopyHasText(c: Config, s: Loaded, flat: FlatMap, u: TmEntry)
    requires u in TextUpdates(c, s, flat)
    ensures HasText(s.tm, c.locale, u.textHash)
  {
    TextUpdatesAre(c, s, flat, u);
    var i: nat :| IsCopy(c, s, flat, u, i);
    TextMatchIs(s.tm, c.locale, c.hashText(flat[i].1));
  }

  lemma {:induction false} NoNews(c: Config, items: seq<BatchItem>, now: string)
    ensures NewUpdates(c, items, map[], now) == []
  {
    if items != [] { NoNews(c, items[..|items| - 1], now); }
  }

  /** Without a provider a run adds only copies, so it knows no new text. */
  lemma NoNewText(c: Config, s: Loaded, flat: FlatMap, now: string, hash: string)
    requires ValidConfig(c) && !c.hasProvider && DistinctTm(s.tm) && AllLoadable(s.tm)
    requires HasText(NextTm(c, s, flat, map[], now), c.locale, hash)
    ensures HasText(s.tm, c.locale, hash)
  {
    NextTmLoadable(c, s, flat, map[], now);
    NoNews(c, PendingItems(c, s, flat), now);
    var e :| e in NextTm(c, s, flat, map[], now) && Usable(e, c.locale) && e.textHash == hash;
    if e !in s.tm { CopyHasText(c, s, flat, e); }
  }

  // ---- the fallback list

  predicate FallbackAt(c: Config, s: Loaded, flat: FlatMap, tr: Translations, i: nat)
    requires i < |flat|
  {
    match DecideAt(c, s, flat, i)
    case FromText(_) => false
    case Pending => flat[i].0 !in tr
    case _ => flat[i].0 in s.was
  }

  predicate EarlyAt(c: Config, s: Loaded, flat: FlatMap, i: nat)
    requires i < |flat|
  {
    var d := DecideAt(c, s, flat, i);
    (d.FromCache? || d.KeepExisting?) && flat[i].0 in s.was
  }

  /** The keys at the marked ones of the first n positions, each once. */
  ghost predicate Lists(keys: seq<string>, flat: FlatMap, n: nat, marks: set<nat>)
    requires n <= |flat|
  {
    NoDup(keys) && forall k :: k in keys <==> exists i: nat :: i < n && i in marks && flat[i].0 == k
  }

  lemma ListsMore(keys: seq<string>, flat: FlatMap, n: nat, marks: set<nat>)
    requires DistinctKeys(flat) && n < |flat| && Lists(keys, flat, n, marks)
    ensures Lists(keys + if n in marks then [flat[n].0] else [], flat, n + 1, marks)
  {
    var all := keys + if n in marks then [flat[n].0] else [];
    assert flat[n].0 !in keys;
    forall k ensures k in all <==> exists i: nat :: i < n + 1 && i in marks && flat[i].0 == k {
      assert k in all <==> k in keys || (n in marks && k == flat[n].0);
    }
  }

  lemma EarlySnoc(c: Config, s: Loaded, flat: FlatMap, n: nat)
    requires n < |flat|
    ensures EarlyFallbacks(c, s, flat[..n + 1])
         == EarlyFallbacks(c, s, flat[..n]) + if EarlyAt(c, s, flat, n) then [flat[n].0] else []
  {
    assert flat[..n + 1][..n] == flat[..n];
  }

  lemma {:induction false} EarlyListed(c: Config, s: Loaded, flat: FlatMap, n: nat, marks: set<nat>)
    requires DistinctKeys(flat) && n <= |flat|
    requires forall i: nat :: i < |flat| ==> (i in marks <==> EarlyAt(c, s, flat, i))
    ensures Lists(EarlyFallbacks(c, s, flat[..n]), flat, n, marks)
  {
    if n > 0 {
      EarlyListed(c, s, flat, n - 1, marks);
      EarlySnoc(c, s, flat, n - 1);
      ListsMore(EarlyFallbacks(c, s, flat[..n - 1]), flat, n - 1, marks);
    }
  }

  lemma EarlyFallbacksAre(c: Config, s: Loaded, flat: FlatMap)
    requires DistinctKeys(flat)
    ensures forall k :: k in EarlyFallbacks(c, s, flat) <==>
              exists i: nat :: i < |flat| && flat[i].0 == k && EarlyAt(c, s, flat, i)
    ensures NoDup(EarlyFallbacks(c, s, flat))
  {
    EarlyListed(c, s, flat, |flat|, set i: nat | i < |flat| && EarlyAt(c, s, flat, i));
    assert flat[..|flat|] == flat;
  }

  predicate LateAt(c: Config, s: Loaded, flat: FlatMap, tr: Translations, i: nat)
    requires i < |flat|
  {
    DecideAt(c, s, flat, i).Pending? && flat[i].0 !in tr
  }

  function LateOf(c: Config, s: Loaded, flat: FlatMap, tr: Translations): seq<string> {
    LateFallbacks(PendingItems(c, s, flat), tr)
  }

  lemma LateSnoc(c: Config, s: Loaded, flat: FlatMap, tr: Translations, n: nat)
    requires n < |flat|
    ensures LateOf(c, s, flat[..n + 1], tr)
         == LateOf(c, s, flat[..n], tr) + if LateAt(c, s, flat, tr, n) then [flat[n].0] else []
  {
    var items, item := PendingItems(c, s, flat[..n]), ItemOf(c, flat[n].0, flat[n].1);
    assert flat[..n + 1][..n] == flat[..n];
    assert (items + [item])[..|items|] == items && items + [] == items;
    assert PendingItems(c, s, flat[..n + 1]) == items + if DecideAt(c, s, flat, n).Pending? then [item] else [];
  }

  lemma {:induction false} LateListed(c: Config, s: Loaded, flat: FlatMap, tr: Translations, n: nat, marks: set<nat>)
    requires DistinctKeys(flat) && n <= |flat|
    requires forall i: nat :: i < |flat| ==> (i in marks <==> LateAt(c, s, flat, tr, i))
    ensures Lists(LateOf(c, s, flat[..n], tr), flat, n, marks)
  {
    if n > 0 {
      LateListed(c, s, flat, tr, n - 1, marks);
      LateSnoc(c, s, flat, tr, n - 1);
      ListsMore(LateOf(c, s, flat[..n - 1], tr), flat, n - 1, marks);
    }
  }

  lemma LateFallbacksAre(c: Config, s: Loaded, flat: FlatMap, tr: Translations)
    requires DistinctKeys(flat)
    ensures forall k :: k in LateOf(c, s, flat, tr) <==>
              exists i: nat :: i < |flat| && flat[i].0 == k && LateAt(c, s, flat, tr, i)
    ensures NoDup(LateOf(c, s, flat, tr))
  {
    LateListed(c, s, flat, tr, |flat|, set i: nat | i < |flat| && LateAt(c, s, flat, tr, i));
    assert flat[..|flat|] == flat;
  }

  /** Every key is listed at most once, and exactly when its text is a fallback. */
  lemma FallbacksAre(c: Config, s: Loaded, flat: FlatMap, tr: Translations)
    requires DistinctKeys(flat)
    ensures forall k :: k in Fallbacks(c, s, flat, tr) <==>
              exists i: nat :: i < |flat| && flat[i].0 == k && FallbackAt(c, s, flat, tr, i)
    ensures NoDup(Fallbacks(c, s, flat, tr))
  {
    EarlyFallbacksAre(c, s, flat);
    LateFallbacksAre(c, s, flat, tr);
    assert forall i: nat :: i < |flat| ==>
             (FallbackAt(c, s, flat, tr, i) <==> EarlyAt(c, s, flat, i) || LateAt(c, s, flat, tr, i));
    var early, late := EarlyFallbacks(c, s, flat), LateOf(c, s, flat, tr);
    forall k | k in early ensures k !in late {
      var i: nat :| i < |flat| && flat[i].0 == k && EarlyAt(c, s, flat, i);
      forall j: nat | j < |flat| && flat[j].0 == k ensures !LateAt(c, s, flat, tr, j) { assert i == j; }
    }
    NoDupAppend(early, late);
    forall k ensures k in early + late
      <==> exists i: nat :: i < |flat| && flat[i].0 == k && FallbackAt(c, s, flat, tr, i) {
      assert k in early + late <==> k in early || k in late;
    }
  }

  // ---- the state a second run starts from

  lemma {:induction false} TextsAre(c: Config, s: Loaded, tr: Translations, flat: FlatMap)
    ensures |Texts(c, s, tr, flat)| == |flat|
    ensures forall i :: 0 <= i < |flat| ==>
              Texts(c, s, tr, flat)[i] == (flat[i].0, FinalText(c, s, tr, flat[i].0, flat[i].1))
  {
    if flat != [] { TextsAre(c, s, tr, flat[..|flat| - 1]); }
  }

  lemma SameKeysDistinct(a: FlatMap, b: FlatMap)
    requires |a| == |b| && forall i :: 0 <= i < |a| ==> a[i].0 == b[i].0
    ensures DistinctKeys(a) == DistinctKeys(b)
  {
  }

  /** From the written bundle every source key is read back with its decided text. */
  lemma WrittenBundle(c: Config, source: Source, s: Loaded, tr: Translations, i: nat)
    requires Faithful(Flatten(source.tree)) && i < |Flatten(source.tree)|
    ensures var flat := Flatten(source.tree);
      DistinctKeys(flat)
      && MapGet(Flatten(Rebuild(Nil, Texts(c, s, tr, flat))), flat[i].0)
         == Some(FinalText(c, s, tr, flat[i].0, flat[i].1))
  {
    var flat := Flatten(source.tree);
    FlattenDistinct(source.tree, "", []);
    TextsAre(c, s, tr, flat);
    SameKeysFaithful(flat, Texts(c, s, tr, flat));
    SameKeysDistinct(flat, Texts(c, s, tr, flat));
    FaithfulReadsBack(Texts(c, s, tr, flat), i);
  }

  /** What the second run finds cached. */
  lemma RereadCached(c: Config, source: Source, files: Files, tr: Translations, now: string, i: nat)
    requires ValidConfig(c) && GoodTranslations(c, Load(files), Flatten(source.tree), tr)
    requires i < |Flatten(source.tree)|
    ensures var (s, flat) := (Load(files), Flatten(source.tree));
      TmGet(Load(Expected(c, source, files, tr, now)).tm, CacheKeyOf(c, flat[i].0, flat[i].1))
        == CachedAfter(c, s, flat, tr, now, i)
  {
    var s, flat := Load(files), Flatten(source.tree);
    FlattenDistinct(source.tree, "", []);
    RereadTm(c, source, files, tr, now);
    SameMembersSameGet(LoadTm(Expected(c, source, files, tr, now).tm), NextTm(c, s, flat, tr, now),
      CacheKeyOf(c, flat[i].0, flat[i].1));
    NextTmGet(c, s, flat, tr, now, i);
  }

  /** Which keys the second run finds marked. */
  lemma RereadMark(c: Config, source: Source, files: Files, tr: Translations, now: string, i: nat)
    requires ValidConfig(c) && i < |Flatten(source.tree)|
    ensures var (s, flat) := (Load(files), Flatten(source.tree));
      flat[i].0 in Load(Expected(c, source, files, tr, now)).was <==> FallbackAt(c, s, flat, tr, i)
  {
    FlattenDistinct(source.tree, "", []);
    MarkIs(c, Load(files), Flatten(source.tree), tr, i);
    NextMetaIs(c, source, files.meta, |Flatten(source.tree)|, Fallbacks(c, Load(files), Flatten(source.tree), tr), now,
               Fallbacks(c, Load(files), Flatten(source.tree), tr), now);
  }

  lemma MarkIs(c: Config, s: Loaded, flat: FlatMap, tr: Translations, i: nat)
    requires TotalOrder(c.leq) && DistinctKeys(flat) && i < |flat|
    ensures flat[i].0 in Sort(Fallbacks(c, s, flat, tr), Id, c.leq) <==> FallbackAt(c, s, flat, tr, i)
  {
    FallbacksAre(c, s, flat, tr);
    SortKeeps(Fallbacks(c, s, flat, tr), Id, c.leq);
    assert flat[i].0 in Fallbacks(c, s, flat, tr) <==> FallbackAt(c, s, flat, tr, i);
  }

  /** What the second run reads, in terms of the first one's decisions. */
  lemma Reread(c: Config, source: Source, files: Files, tr: Translations, now: string, i: nat)
    requires ValidConfig(c) && Faithful(Flatten(source.tree))
    requires GoodTranslations(c, Load(files), Flatten(source.tree), tr)
    requires i < |Flatten(source.tree)|
    ensures var (s, flat) := (Load(files), Flatten(source.tree));
      var s' := Load(Expected(c, source, files, tr, now));
      && TmGet(s'.tm, CacheKeyOf(c, flat[i].0, flat[i].1)) == CachedAfter(c, s, flat, tr, now, i)
      && MapGet(s'.existing, flat[i].0) == Some(FinalText(c, s, tr, flat[i].0, flat[i].1))
      && (flat[i].0 in s'.was <==> FallbackAt(c, s, flat, tr, i))
      && (!c.hasProvider && TextMatch(s.tm, c.locale, c.hashText(flat[i].1)).None?
          ==> TextMatch(s'.tm, c.locale, c.hashText(flat[i].1)).None?)
  {
    RereadCached(c, source, files, tr, now, i);
    WrittenBundle(c, source, Load(files), tr, i);
    RereadMark(c, source, files, tr, now, i);
    if !c.hasProvider && TextMatch(Load(files).tm, c.locale, c.hashText(Flatten(source.tree)[i].1)).None? {
      RereadNoText(c, source, files, now, c.hashText(Flatten(source.tree)[i].1));
    }
  }

  lemma RereadNoText(c: Config, source: Source, files: Files, now: string, hash: string)
    requires ValidConfig(c) && !c.hasProvider && TextMatch(Load(files).tm, c.locale, hash).None?
    ensures TextMatch(LoadTm(Expected(c, source, files, map[], now).tm), c.locale, hash).None?
  {
    if TextMatch(LoadTm(Expected(c, source, files, map[], now).tm), c.locale, hash).Some? {
      RereadText(c, source, files, now, hash);
    }
  }

  lemma RereadTm(c: Config, source: Source, files: Files, tr: Translations, now: string)
    requires ValidConfig(c) && GoodTranslations(c, Load(files), Flatten(source.tree), tr)
    ensures var tm := NextTm(c, Load(files), Flatten(source.tree), tr, now);
      var file := Expected(c, source, files, tr, now).tm;
      && LoadTm(file) == file == RenderTm(file, c.leq)
      && DistinctTm(tm) && DistinctTm(file) && (forall x :: x in file <==> x in tm)
  {
    LoadTmIs(files.tm);
    NextTmLoadable(c, Load(files), Flatten(source.tree), tr, now);
    RenderLoad(NextTm(c, Load(files), Flatten(source.tree), tr, now), c.leq);
  }

  lemma RereadText(c: Config, source: Source, files: Files, now: string, hash: string)
    requires ValidConfig(c) && !c.hasProvider
    requires TextMatch(LoadTm(Expected(c, source, files, map[], now).tm), c.locale, hash).Some?
    ensures TextMatch(Load(files).tm, c.locale, hash).Some?
  {
    var s, file := Load(files), Expected(c, source, files, map[], now).tm;
    RereadTm(c, source, files, map[], now);
    LoadTmIs(files.tm);
    TextMatchIs(file, c.locale, hash);
    assert HasText(NextTm(c, s, Flatten(source.tree), map[], now), c.locale, hash);
    NoNewText(c, s, Flatten(source.tree), now, hash);
    TextMatchIs(s.tm, c.locale, hash);
  }

  /** A key's second decision, given what its first one left behind. */
  lemma ChooseAgain(allow: bool, refresh: bool, cached: Option<TmEntry>, byText: Option<TmEntry>,
                    existing: Option<string>,
                    refresh': bool, cached': Option<TmEntry>, byText': Option<TmEntry>, final: string)
    requires match Choose(allow, refresh, cached, byText, existing)
             case FromCache(t) => cached' == cached && final == t && refresh' == refresh
             case FromText(e) => cached'.Some? && cached'.value.translated == final && !refresh'
             case KeepExisting(t) => cached' == cached && final == t && refresh' == refresh
             case Pending => if allow then cached'.Some? && cached'.value.translated == final && !refresh'
                             else cached' == cached && refresh'
    requires !allow && byText.None? ==> byText'.None?
    ensures var d := Choose(allow, refresh', cached', byText', Some(final));
      d == FromCache(final) || d == KeepExisting(final)
  {
  }

  /** The second run reuses every text, from the memory or from the bundle, and keeps every fallback mark. */
  lemma DecideAgain(c: Config, source: Source, files: Files, tr: Translations, now: string, i: nat)
    requires ValidConfig(c) && Faithful(Flatten(source.tree))
    requires GoodTranslations(c, Load(files), Flatten(source.tree), tr)
    requires i < |Flatten(source.tree)|
    ensures var (s, flat) := (Load(files), Flatten(source.tree));
      var s' := Load(Expected(c, source, files, tr, now));
      var (d, text) := (DecideAt(c, s', flat, i), FinalText(c, s, tr, flat[i].0, flat[i].1));
      && (d == FromCache(text) || d == KeepExisting(text))
      && (flat[i].0 in s'.was <==> FallbackAt(c, s, flat, tr, i))
  {
    var s, s' := Load(files), Load(Expected(c, source, files, tr, now));
    var flat := Flatten(source.tree);
    var (key, text) := flat[i];
    var ck, hash := CacheKeyOf(c, key, text), c.hashText(text);
    Reread(c, source, files, tr, now, i);
    ChooseAgain(c.hasProvider, key in s.was, TmGet(s.tm, ck), TextMatch(s.tm, c.locale, hash), MapGet(s.existing, key),
                key in s'.was, TmGet(s'.tm, ck), TextMatch(s'.tm, c.locale, hash), FinalText(c, s, tr, key, text));
  }

  // ---- the fixpoint

  ghost predicate AllReused(c: Config, s: Loaded, flat: FlatMap) {
    forall i: nat :: i < |flat| ==> DecideAt(c, s, flat, i).FromCache? || DecideAt(c, s, flat, i).KeepExisting?
  }

  lemma {:induction false} ReusedNothingToDo(c: Config, s: Loaded, flat: FlatMap)
    requires AllReused(c, s, flat)
    ensures TextUpdates(c, s, flat) == [] && PendingItems(c, s, flat) == []
  {
    if flat != [] {
      var n := |flat| - 1;
      forall i: nat | i < n ensures DecideAt(c, s, flat[..n], i) == DecideAt(c, s, flat, i) {}
      ReusedNothingToDo(c, s, flat[..n]);
      assert DecideAt(c, s, flat, n).FromCache? || DecideAt(c, s, flat, n).KeepExisting?;
    }
  }

  /** The second run has nothing to translate or to copy. */
  lemma NothingPending(c: Config, source: Source, files: Files, tr: Translations, now: string)
    requires ValidConfig(c) && Faithful(Flatten(source.tree))
    requires GoodTranslations(c, Load(files), Flatten(source.tree), tr)
    ensures var s' := Load(Expected(c, source, files, tr, now));
      && PendingItems(c, s', Flatten(source.tree)) == [] && TextUpdates(c, s', Flatten(source.tree)) == []
      && AllReused(c, s', Flatten(source.tree))
  {
    var flat, s' := Flatten(source.tree), Load(Expected(c, source, files, tr, now));
    forall i: nat | i < |flat| ensures DecideAt(c, s', flat, i).FromCache? || DecideAt(c, s', flat, i).KeepExisting? {
      DecideAgain(c, source, files, tr, now, i);
    }
    ReusedNothingToDo(c, s', flat);
  }

  lemma SameText(c: Config, source: Source, files: Files, tr: Translations, now: string, i: nat)
    requires ValidConfig(c) && Faithful(Flatten(source.tree))
    requires GoodTranslations(c, Load(files), Flatten(source.tree), tr)
    requires i < |Flatten(source.tree)|
    ensures var flat := Flatten(source.tree);
      FinalText(c, Load(Expected(c, source, files, tr, now)), map[], flat[i].0, flat[i].1)
      == FinalText(c, Load(files), tr, flat[i].0, flat[i].1)
  {
    DecideAgain(c, source, files, tr, now, i);
  }

  lemma SameTexts(c: Config, source: Source, files: Files, tr: Translations, now: string)
    requires ValidConfig(c) && Faithful(Flatten(source.tree))
    requires GoodTranslations(c, Load(files), Flatten(source.tree), tr)
    ensures Texts(c, Load(Expected(c, source, files, tr, now)), map[], Flatten(source.tree))
         == Texts(c, Load(files), tr, Flatten(source.tree))
  {
    var flat, s' := Flatten(source.tree), Load(Expected(c, source, files, tr, now));
    TextsAre(c, Load(files), tr, flat);
    TextsAre(c, s', map[], flat);
    forall i: nat | i < |flat| ensures Texts(c, s', map[], flat)[i] == Texts(c, Load(files), tr, flat)[i] {
      SameText(c, source, files, tr, now, i);
    }
  }

  lemma SameFallbacks(c: Config, source: Source, files: Files, tr: Translations, now: string)
    requires ValidConfig(c) && Faithful(Flatten(source.tree))
    requires GoodTranslations(c, Load(files), Flatten(source.tree), tr)
    ensures Sort(Fallbacks(c, Load(Expected(c, source, files, tr, now)), Flatten(source.tree), map[]), Id, c.leq)
         == Sort(Fallbacks(c, Load(files), Flatten(source.tree), tr), Id, c.leq)
  {
    var flat, s' := Flatten(source.tree), Load(Expected(c, source, files, tr, now));
    FlattenDistinct(source.tree, "", []);
    forall i: nat | i < |flat| ensures FallbackAt(c, s', flat, map[], i) <==> FallbackAt(c, Load(files), flat, tr, i) {
      DecideAgain(c, source, files, tr, now, i);
    }
    FallbacksAgree(c, s', map[], Load(files), tr, flat);
  }

  /** The sorted list depends only on which keys are fallbacks. */
  lemma FallbacksAgree(c: Config, s: Loaded, tr: Translations, s': Loaded, tr': Translations, flat: FlatMap)
    requires TotalOrder(c.leq) && DistinctKeys(flat)
    requires forall i: nat :: i < |flat| ==> (FallbackAt(c, s, flat, tr, i) <==> FallbackAt(c, s', flat, tr', i))
    ensures Sort(Fallbacks(c, s, flat, tr), Id, c.leq) == Sort(Fallbacks(c, s', flat, tr'), Id, c.leq)
  {
    FallbacksAre(c, s, flat, tr);
    FallbacksAre(c, s', flat, tr');
    SortSame(Fallbacks(c, s, flat, tr), Fallbacks(c, s', flat, tr'), c.leq);
  }

  lemma NextMetaIs(c: Config, source: Source, previous: Option<LocaleMeta>, n: nat, fallbacks: seq<string>, now: string,
                   again: seq<string>, later: string)
    requires Sort(again, Id, c.leq) == Sort(fallbacks, Id, c.leq)
    ensures NextMeta(c, source, previous, n, fallbacks, now).fallbackKeys == Sort(fallbacks, Id, c.leq)
    ensures var m := NextMeta(c, source, previous, n, fallbacks, now);
      NextMeta(c, source, Some(m), n, again, later) == m
  {
  }

  lemma SameTm(c: Config, source: Source, files: Files, tr: Translations, now: string, later: string)
    requires ValidConfig(c) && Faithful(Flatten(source.tree))
    requires GoodTranslations(c, Load(files), Flatten(source.tree), tr)
    ensures var written := Expected(c, source, files, tr, now);
      RenderTm(NextTm(c, Load(written), Flatten(source.tree), map[], later), c.leq) == written.tm
  {
    NothingPending(c, source, files, tr, now);
    RereadTm(c, source, files, tr, now);
  }

  /** Running again on the written files, at any later time, expects exactly those files: same bundle, same
      fallback keys, same memory, and nothing needs the provider. */
  lemma SyncIsFixpoint(c: Config, source: Source, files: Files, tr: Translations, now: string, later: string)
    requires ValidConfig(c) && Faithful(Flatten(source.tree))
    requires GoodTranslations(c, Load(files), Flatten(source.tree), tr)
    ensures var written := Expected(c, source, files, tr, now);
      && PendingItems(c, Load(written), Flatten(source.tree)) == []
      && Expected(c, source, written, map[], later) == written
  {
    var flat, written := Flatten(source.tree), Expected(c, source, files, tr, now);
    NothingPending(c, source, files, tr, now);
    assert Expected(c, source, written, map[], later).locale == written.locale by {
      SameTexts(c, source, files, tr, now);
    }
    assert Expected(c, source, written, map[], later).meta == written.meta by {
      SameFallbacks(c, source, files, tr, now);
      NextMetaIs(c, source, files.meta, |flat|, Fallbacks(c, Load(files), flat, tr), now,
                 Fallbacks(c, Load(written), flat, map[]), later);
    }
    assert Expected(c, source, written, map[], later).tm == written.tm by { SameTm(c, source, files, tr, now, later); }
  }

  /** After a run with a provider no key is a fallback. */
  lemma ProviderLeavesNoFallback(c: Config, source: Source, files: Files, tr: Translations, now: string)
    requires c.hasProvider
    requires GoodTranslations(c, Load(files), Flatten(source.tree), tr)
    ensures Expected(c, source, files, tr, now).meta.value.fallbackKeys == []
  {
    var s, flat := Load(files), Flatten(source.tree);
    var all := Fallbacks(c, s, flat, tr);
    assert all == [] by {
      assert all == [] || all[0] in all;
      FlattenDistinct(source.tree, "", []);
      FallbacksAre(c, s, flat, tr);
    }
    NextMetaIs(c, source, files.meta, |flat|, all, now, all, now);
  }

  // ---- sources that do not survive being written

  /** A locale whose bundle has every source key under its dotted name, and nothing else on disk. */
  function PlainFiles(flat: FlatMap): Files { Files(Some(DottedTree(flat)), None, None, []) }

  lemma PlainLoad(flat: FlatMap)
    requires DistinctKeys(flat)
    ensures Load(PlainFiles(flat)) == Loaded([], flat, [])
  {
    FlattenDottedTree([], flat);
    assert [] + flat == flat;
  }

  lemma PlainDecision(c: Config, flat: FlatMap, i: nat)
    requires DistinctKeys(flat) && i < |flat|
    ensures DecideAt(c, Loaded([], flat, []), flat, i) == KeepExisting(flat[i].1)
  {
    MapGetAt(flat, i);
  }

  lemma PlainTexts(c: Config, flat: FlatMap)
    requires DistinctKeys(flat)
    ensures Texts(c, Loaded([], flat, []), map[], flat) == flat
  {
    var s := Loaded([], flat, []);
    TextsAre(c, s, map[], flat);
    forall i: nat | i < |flat| ensures Texts(c, s, map[], flat)[i] == flat[i] { PlainDecision(c, flat, i); }
  }

  lemma PlainGood(c: Config, flat: FlatMap)
    requires DistinctKeys(flat)
    ensures GoodTranslations(c, Loaded([], flat, []), flat, map[])
  {
    forall i | 0 <= i < |flat| ensures !Decide(c, Loaded([], flat, []), flat[i].0, flat[i].1).Pending? {
      PlainDecision(c, flat, i);
    }
  }

  lemma PlainTm(c: Config, flat: FlatMap, now: string)
    requires DistinctKeys(flat)
    ensures NextTm(c, Loaded([], flat, []), flat, map[], now) == []
  {
    var s := Loaded([], flat, []);
    forall i: nat | i < |flat| ensures DecideAt(c, s, flat, i).FromCache? || DecideAt(c, s, flat, i).KeepExisting? {
      PlainDecision(c, flat, i);
    }
    ReusedNothingToDo(c, s, flat);
  }

  lemma PlainRun(c: Config, source: Source, now: string)
    ensures var flat := Flatten(source.tree);
      GoodTranslations(c, Load(PlainFiles(flat)), flat, map[])
      && Load(Expected(c, source, PlainFiles(flat), map[], now)).tm == []
      && Load(Expected(c, source, PlainFiles(flat), map[], now)).existing == Flatten(Rebuild(Nil, flat))
  {
    var flat := Flatten(source.tree);
    FlattenDistinct(source.tree, "", []);
    PlainLoad(flat);
    PlainGood(c, flat);
    PlainTexts(c, flat);
    PlainTm(c, flat, now);
  }

  /** The key at this place is not read back from a bundle built from the source. */
  predicate IsLost(flat: FlatMap, i: nat)
    requires i < |flat|
  {
    MapGet(Flatten(Rebuild(Nil, flat)), flat[i].0) == None
  }

  lemma LostIsPending(c: Config, source: Source, now: string, i: nat)
    requires i < |Flatten(source.tree)| && IsLost(Flatten(source.tree), i)
    ensures var flat := Flatten(source.tree);
      PendingItems(c, Load(Expected(c, source, PlainFiles(flat), map[], now)), flat) != []
  {
    var flat := Flatten(source.tree);
    var s' := Load(Expected(c, source, PlainFiles(flat), map[], now));
    PlainRun(c, source, now);
    assert DecideAt(c, s', flat, i).Pending?;
    PendingItemsAre(c, s', flat, ItemOf(c, flat[i].0, flat[i].1));
    assert IsPending(c, s', flat, ItemOf(c, flat[i].0, flat[i].1), i);
  }

  /** A key that begins with a dot is lost, and so is one whose path is comparable with a later one's. */
  lemma UnfaithfulLoses(flat: FlatMap) returns (i: nat)
    requires DistinctKeys(flat) && !Faithful(flat)
    ensures i < |flat| && IsLost(flat, i)
  {
    FaithfulMeans(flat);
    if NoneDotLed(flat) {
      var a, b :| 0 <= a < b < |flat| && ComparableKeys(flat[a].0, flat[b].0);
      ClobberedIsLost(flat, a, b);
      i := a;
    } else {
      i :| 0 <= i < |flat| && DotLed(flat[i].0);
      DotLedIsLost(flat, flat[i].0);
    }
  }

  /** Every run that gets its translations leaves nothing pending for the next one. */
  ghost predicate Settles(c: Config, source: Source, now: string) {
    forall files, tr :: GoodTranslations(c, Load(files), Flatten(source.tree), tr)
      ==> PendingItems(c, Load(Expected(c, source, files, tr, now)), Flatten(source.tree)) == []
  }

  /** With a provider or without, whatever the locale's files and the translations: a run leaves nothing pending for the
      next one exactly when no source key begins with a dot and no source key's path is a prefix of another's. */
  lemma FixpointIff(c: Config, source: Source, now: string)
    requires ValidConfig(c)
    ensures var flat := Flatten(source.tree);
      Settles(c, source, now)
      <==> (forall i :: 0 <= i < |flat| ==> !DotLed(flat[i].0))
           && (forall i, j :: 0 <= i < j < |flat| ==> !ComparableKeys(flat[i].0, flat[j].0))
  {
    var flat := Flatten(source.tree);
    FlattenDistinct(source.tree, "", []);
    FaithfulMeans(flat);
    if Faithful(flat) {
      forall files, tr | GoodTranslations(c, Load(files), flat, tr)
        ensures PendingItems(c, Load(Expected(c, source, files, tr, now)), flat) == []
      {
        NothingPending(c, source, files, tr, now);
      }
    } else {
      var i := UnfaithfulLoses(flat);
      PlainRun(c, source, now);
      LostIsPending(c, source, now, i);
    }
  }

  /** Both ways to fail occur. One is an object with a dotted key beside its first part. */
  lemma SourceCanClobber(c: Config, hash: string, now: string)
    requires ValidConfig(c)
    ensures !Settles(c, Source(Cons("a", Text("x"), Cons("a.b", Text("y"), Nil)), hash), now)
  {
    var source := Source(Cons("a", Text("x"), Cons("a.b", Text("y"), Nil)), hash);
    var flat := Flatten(source.tree);
    assert flat == [("a", "x"), ("a.b", "y")];
    SplitsAre();
    assert ComparableKeys(flat[0].0, flat[1].0);
    FixpointIff(c, source, now);
  }

  /** The other one is a key that begins with a dot. */
  lemma SourceCanLoseDot(c: Config, hash: string, now: string)
    requires ValidConfig(c)
    ensures !Settles(c, Source(Cons(".a", Text("x"), Nil), hash), now)
  {
    var source := Source(Cons(".a", Text("x"), Nil), hash);
    assert Flatten(source.tree) == [(".a", "x")];
    assert DotLed(Flatten(source.tree)[0].0);
    FixpointIff(c, source, now);
  }

  // ---- any source, with a provider

  lemma ProviderLeavesNoMark(c: Config, source: Source, files: Files, tr: Translations, now: string)
    requires c.hasProvider && GoodTranslations(c, Load(files), Flatten(source.tree), tr)
    ensures Load(Expected(c, source, files, tr, now)).was == []
  {
    ProviderLeavesNoFallback(c, source, files, tr, now);
  }

  lemma WrittenTexts(c: Config, source: Source, files: Files, tr: Translations, now: string)
    ensures Load(Expected(c, source, files, tr, now)).existing
         == Flatten(Rebuild(Nil, Texts(c, Load(files), tr, Flatten(source.tree))))
  {
  }

  /** Two runs on the same source read back the same keys, whatever their texts. */
  lemma SameKeysExist(c: Config, source: Source, files: Files, tr: Translations, now: string, files': Files,
                      tr': Translations, later: string, key: string)
    ensures MapGet(Load(Expected(c, source, files, tr, now)).existing, key).Some?
         == MapGet(Load(Expected(c, source, files', tr', later)).existing, key).Some?
  {
    var flat := Flatten(source.tree);
    WrittenTexts(c, source, files, tr, now);
    WrittenTexts(c, source, files', tr', later);
    TextsAre(c, Load(files), tr, flat);
    TextsAre(c, Load(files'), tr', flat);
    ReadBackByKeys(Texts(c, Load(files), tr, flat), Texts(c, Load(files'), tr', flat), key);
  }

  /** A key's third decision, given what its second one left behind. */
  lemma ChooseThird(cached: Option<TmEntry>, byText: Option<TmEntry>, existing: Option<string>,
                    cached': Option<TmEntry>, byText': Option<TmEntry>, existing': Option<string>)
    requires match Choose(true, false, cached, byText, existing)
             case FromCache(_) => cached' == cached
             case KeepExisting(_) => existing'.Some?
             case _ => cached'.Some?
    ensures !Choose(true, false, cached', byText', existing').Pending?
  {
  }

  /** After a provider run the memory has every text that was not kept from the bundle. */
  lemma CachedUnlessKept(c: Config, s: Loaded, flat: FlatMap, tr: Translations, now: string, i: nat)
    requires c.hasProvider && GoodTranslations(c, s, flat, tr) && i < |flat|
    ensures var (d, cached) := (DecideAt(c, s, flat, i), TmGet(s.tm, CacheKeyOf(c, flat[i].0, flat[i].1)));
      && (d.FromCache? ==> CachedAfter(c, s, flat, tr, now, i) == cached)
      && (d.FromText? || d.Pending? ==> CachedAfter(c, s, flat, tr, now, i).Some?)
      && (d.KeepExisting? ==> MapGet(s.existing, flat[i].0).Some?)
  {
  }

  /** What the third run finds of a key, by the second one's decision. */
  lemma ThirdReads(c: Config, source: Source, files: Files, tr: Translations, now: string, tr': Translations,
                   later: string, i: nat)
    requires ValidConfig(c) && c.hasProvider && i < |Flatten(source.tree)|
    requires GoodTranslations(c, Load(Expected(c, source, files, tr, now)), Flatten(source.tree), tr')
    ensures var (flat, second) := (Flatten(source.tree), Expected(c, source, files, tr, now));
      var s' := Load(Expected(c, source, second, tr', later));
      && TmGet(s'.tm, CacheKeyOf(c, flat[i].0, flat[i].1)) == CachedAfter(c, Load(second), flat, tr', later, i)
      && MapGet(s'.existing, flat[i].0).Some? == MapGet(Load(second).existing, flat[i].0).Some?
  {
    var flat, second := Flatten(source.tree), Expected(c, source, files, tr, now);
    RereadCached(c, source, second, tr', later, i);
    SameKeysExist(c, source, files, tr, now, second, tr', later, flat[i].0);
  }

  lemma ThirdDecision(c: Config, source: Source, files: Files, tr: Translations, now: string, tr': Translations,
                      later: string, i: nat)
    requires ValidConfig(c) && c.hasProvider && i < |Flatten(source.tree)|
    requires GoodTranslations(c, Load(files), Flatten(source.tree), tr)
    requires GoodTranslations(c, Load(Expected(c, source, files, tr, now)), Flatten(source.tree), tr')
    ensures var second := Expected(c, source, files, tr, now);
      !DecideAt(c, Load(Expected(c, source, second, tr', later)), Flatten(source.tree), i).Pending?
  {
    var flat, second := Flatten(source.tree), Expected(c, source, files, tr, now);
    var s, s' := Load(second), Load(Expected(c, source, second, tr', later));
    var (key, text) := flat[i];
    var ck, hash := CacheKeyOf(c, key, text), c.hashText(text);
    ProviderLeavesNoMark(c, source, files, tr, now);
    ProviderLeavesNoMark(c, source, second, tr', later);
    ThirdReads(c, source, files, tr, now, tr', later, i);
    CachedUnlessKept(c, s, flat, tr', later, i);
    ChooseThird(TmGet(s.tm, ck), TextMatch(s.tm, c.locale, hash), MapGet(s.existing, key),
                TmGet(s'.tm, ck), TextMatch(s'.tm, c.locale, hash), MapGet(s'.existing, key));
  }

  /** Whatever the source, keys that clobber each other or begin with a dot included: after two runs with a provider,
      the second one on the files that the first one wrote, nothing is pending any more. What the first bundle lost,
      the second run puts into the memory. */
  lemma TwoProviderRunsSettle(c: Config, source: Source, files: Files, tr: Translations, now: string,
                              tr': Translations, later: string)
    requires ValidConfig(c) && c.hasProvider
    requires GoodTranslations(c, Load(files), Flatten(source.tree), tr)
    requires GoodTranslations(c, Load(Expected(c, source, files, tr, now)), Flatten(source.tree), tr')
    ensures var second := Expected(c, source, files, tr, now);
      PendingItems(c, Load(Expected(c, source, second, tr', later)), Flatten(source.tree)) == []
  {
    var flat, third := Flatten(source.tree), Load(Expected(c, source, Expected(c, source, files, tr, now), tr', later));
    var items := PendingItems(c, third, flat);
    if items != [] {
      PendingItemsAre(c, third, flat, items[0]);
      var i: nat :| IsPending(c, third, flat, items[0], i);
      ThirdDecision(c, source, files, tr, now, tr', later, i);
    }
  }
}
