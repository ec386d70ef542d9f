/** What one sync of one locale decides and what it would write (scripts/control-ui-i18n.ts), as
    functions of the files it read and of the translations it obtained. */
module SyncPlan {
  import opened Wrappers
  import opened Text
  import opened LocaleTree
  import opened Batching
  import opened Collation

  const CONTROL_UI_I18N_WORKFLOW := 1
  const SOURCE_LOCALE := "en"
  const DEFAULT_GLOSSARY: seq<(string, string)> := [
    ("OpenClaw", "OpenClaw"), ("Gateway", "Gateway"), ("Control UI", "Control UI"), ("Skills", "Skills"),
    ("Tailscale", "Tailscale"), ("WhatsApp", "WhatsApp"), ("Telegram", "Telegram"), ("Discord", "Discord"),
    ("Signal", "Signal"), ("iMessage", "iMessage")]

  /** One line of the translation memory. */
  datatype TmEntry = TmEntry(cacheKey: string, segmentId: string, sourcePath: string, srcLang: string, tgtLang: string,
                             text: string, textHash: string, translated: string, provider: string, model: string,
                             updatedAt: string)

  /** An insertion-ordered map from cache keys to entries; every entry carries its own key. */
  type Tm = seq<TmEntry>

  datatype LocaleMeta = LocaleMeta(fallbackKeys: seq<string>, generatedAt: string, locale: string, model: string,
                                   provider: string, sourceHash: string, totalKeys: int, translatedKeys: int,
                                   workflow: int)

  /** The environment of a run. Hashing, collation and placeholder extraction are uninterpreted. */
  datatype Config = Config(locale: string, sourcePath: string, hasProvider: bool, provider: string, model: string,
                           hashText: string -> string, cacheKey: (string, string) -> string, leq: Leq,
                           placeholders: string -> seq<string>)

  ghost predicate ValidConfig(c: Config) {
    && TotalOrder(c.leq)
    && (forall a, h :: c.cacheKey(a, h) != "")
    && (forall a, b, h, g :: c.cacheKey(a, h) == c.cacheKey(b, g) ==> a == b && h == g)
  }

  datatype Source = Source(tree: TranslationMap, hash: string)

  datatype Files = Files(locale: Option<TranslationMap>, meta: Option<LocaleMeta>,
                         glossary: Option<seq<(string, string)>>, tm: seq<TmEntry>)

  // ---- the translation memory

  function TmGet(tm: Tm, key: string): Option<TmEntry> {
    if tm == [] then None else if tm[0].cacheKey == key then Some(tm[0]) else TmGet(tm[1..], key)
  }

  function TmSet(tm: Tm, e: TmEntry): Tm {
    if tm == [] then [e] else if tm[0].cacheKey == e.cacheKey then [e] + tm[1..] else [tm[0]] + TmSet(tm[1..], e)
  }

  function SetAll(tm: Tm, updates: seq<TmEntry>): Tm {
    if updates == [] then tm else TmSet(SetAll(tm, updates[..|updates| - 1]), updates[|updates| - 1])
  }

  predicate Loadable(e: TmEntry) { e.cacheKey != "" && !IsBlank(e.translated) }

  function LoadTm(lines: seq<TmEntry>): Tm {
    if lines == [] then []
    else
      var tm, e := LoadTm(lines[..|lines| - 1]), lines[|lines| - 1];
      if Loadable(e) then TmSet(tm, e) else tm
  }

  function KeyOf(e: TmEntry): string { e.cacheKey }

  function RenderTm(tm: Tm, leq: Leq): seq<TmEntry> { Sort(tm, KeyOf, leq) }

  predicate Usable(e: TmEntry, locale: string) { e.tgtLang == locale && e.textHash != "" && !IsBlank(e.translated) }

  /** The entry kept for a text hash: the last usable one. */
  function TextMatch(tm: Tm, locale: string, hash: string): Option<TmEntry> {
    if tm == [] then None
    else
      var e := tm[|tm| - 1];
      if Usable(e, locale) && e.textHash == hash then Some(e) else TextMatch(tm[..|tm| - 1], locale, hash)
  }

  // ---- deciding, key by key

  datatype Loaded = Loaded(tm: Tm, existing: FlatMap, was: seq<string>)

  function Load(files: Files): Loaded {
    Loaded(LoadTm(files.tm),
           Flatten(if files.locale.Some? then files.locale.value else Nil),
           if files.meta.Some? then files.meta.value.fallbackKeys else [])
  }

  datatype Decision = FromCache(text: string) | FromText(entry: TmEntry) | KeepExisting(text: string) | Pending

  function CacheKeyOf(c: Config, key: string, text: string): string { c.cacheKey(key, c.hashText(text)) }

  function Choose(allowTranslate: bool, refresh: bool, cached: Option<TmEntry>, byText: Option<TmEntry>,
                  existing: Option<string>): Decision {
    if cached.Some? && !(allowTranslate && refresh) then FromCache(cached.value.translated)
    else if byText.Some? && (refresh || existing.None?) then FromText(byText.value)
    else if existing.Some? && !(allowTranslate && refresh) then KeepExisting(existing.value)
    else Pending
  }

  function Decide(c: Config, s: Loaded, key: string, text: string): Decision {
    Choose(c.hasProvider, key in s.was, TmGet(s.tm, CacheKeyOf(c, key, text)),
      TextMatch(s.tm, c.locale, c.hashText(text)),
           MapGet(s.existing, key))
  }

  function Copy(c: Config, e: TmEntry, key: string, text: string): TmEntry {
    e.(cacheKey := CacheKeyOf(c, key, text), segmentId := key, sourcePath := c.sourcePath)
  }

  function ItemOf(c: Config, key: string, text: string): BatchItem {
    BatchItem(CacheKeyOf(c, key, text), key, text, c.hashText(text))
  }

  function NewEntry(c: Config, item: BatchItem, translated: string, now: string): TmEntry {
    TmEntry(item.cacheKey, item.key, c.sourcePath, SOURCE_LOCALE, c.locale, item.text, item.textHash, translated,
            c.provider, c.model, now)
  }

  function TextUpdates(c: Config, s: Loaded, flat: FlatMap): seq<TmEntry> {
    if flat == [] then []
    else
      var (key, text) := flat[|flat| - 1];
      TextUpdates(c, s, flat[..|flat| - 1])
      + match Decide(c, s, key, text) { case FromText(e) => [Copy(c, e, key, text)] case _ => [] }
  }

  function PendingItems(c: Config, s: Loaded, flat: FlatMap): seq<BatchItem> {
    if flat == [] then []
    else
      var (key, text) := flat[|flat| - 1];
      PendingItems(c, s, flat[..|flat| - 1]) + if Decide(c, s, key, text).Pending? then [ItemOf(c, key, text)] else []
  }

  function EarlyFallbacks(c: Config, s: Loaded, flat: FlatMap): seq<string> {
    if flat == [] then []
    else
      var (key, text) := flat[|flat| - 1];
      var d := Decide(c, s, key, text);
      EarlyFallbacks(c, s, flat[..|flat| - 1]) + if (d.FromCache? || d.KeepExisting?) && key in s.was then [key] else []
  }

  /** Translations obtained from the provider, by key. */
  type Translations = map<string, string>

  function NewUpdates(c: Config, items: seq<BatchItem>, tr: Translations, now: string): seq<TmEntry> {
    if items == [] then []
    else
      var item := items[|items| - 1];
      NewUpdates(c, items[..|items| - 1], tr, now)
      + if item.key in tr then [NewEntry(c, item, tr[item.key], now)] else []
  }

  function LateFallbacks(items: seq<BatchItem>, tr: Translations): seq<string> {
    if items == [] then []
    else
      var item := items[|items| - 1];
      LateFallbacks(items[..|items| - 1], tr) + if item.key in tr then [] else [item.key]
  }

  function FinalText(c: Config, s: Loaded, tr: Translations, key: string, text: string): string {
    match Decide(c, s, key, text)
    case FromCache(t) => t
    case FromText(e) => e.translated
    case KeepExisting(t) => t
    case Pending => if key in tr then tr[key] else text
  }

  // ---- the files a run would write

  function Texts(c: Config, s: Loaded, tr: Translations, flat: FlatMap): FlatMap {
    if flat == [] then []
    else
      var (key, text) := flat[|flat| - 1];
      Texts(c, s, tr, flat[..|flat| - 1]) + [(key, FinalText(c, s, tr, key, text))]
  }

  function NextTm(c: Config, s: Loaded, flat: FlatMap, tr: Translations, now: string): Tm {
    SetAll(SetAll(s.tm, TextUpdates(c, s, flat)), NewUpdates(c, PendingItems(c, s, flat), tr, now))
  }

  function Fallbacks(c: Config, s: Loaded, flat: FlatMap, tr: Translations): seq<string> {
    EarlyFallbacks(c, s, flat) + LateFallbacks(PendingItems(c, s, flat), tr)
  }

  function NextMeta(c: Config, source: Source, previous: Option<LocaleMeta>, totalKeys: nat, fallbacks: seq<string>,
                    now: string): LocaleMeta {
    var nextProvider := if c.hasProvider then c.provider else if previous.Some? then previous.value.provider else "";
    var nextModel := if c.hasProvider then c.model else if previous.Some? then previous.value.model else "";
    var sorted := Sort(fallbacks, Id, c.leq);
    var next := LocaleMeta(sorted, now, c.locale, nextModel, nextProvider, source.hash, totalKeys, totalKeys - |sorted|,
                            CONTROL_UI_I18N_WORKFLOW);
    if previous.Some? && previous.value.(generatedAt := now) == next then previous.value else next
  }

  function Expected(c: Config, source: Source, files: Files, tr: Translations, now: string): Files {
    var s, flat := Load(files), Flatten(source.tree);
    var glossary := if files.glossary.Some? then files.glossary.value else [];
    Files(Some(Rebuild(Nil, Texts(c, s, tr, flat))),
          Some(NextMeta(c, source, files.meta, |flat|, Fallbacks(c, s, flat, tr), now)),
          Some(if glossary == [] then DEFAULT_GLOSSARY else glossary),
          RenderTm(NextTm(c, s, flat, tr, now), c.leq))
  }

  /** What a run that got this far has: without a provider nothing, with one a non-blank text for
      every key that needed it. */
  ghost predicate GoodTranslations(c: Config, s: Loaded, flat: FlatMap, tr: Translations) {
    if c.hasProvider then
      forall i :: 0 <= i < |flat| && Decide(c, s, flat[i].0, flat[i].1).Pending?
        ==> flat[i].0 in tr && !IsBlank(tr[flat[i].0])
    else tr == map[]
  }
}
