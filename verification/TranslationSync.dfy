/**
 Synchronising one locale with the English source: what is reused, copied, translated or
 left in English, and what the run leaves behind for the next run.
 */
module TranslationSync {
  import opened Wrappers
  import opened Text
  import opened TranslationBatches
  import opened BatchTranslation
  import Keys = TranslationKeys

  type Entry = Keys.Entry

  const CONTROL_UI_I18N_WORKFLOW: nat := 1

  // One translation memory record, without its time stamp and source file name.
  datatype TmEntry = TmEntry(cacheKey: CacheKey, segmentId: string, text: string, textHash: string,
                             tgtLang: string, translated: string, provider: string, model: string)

  type Memory = map<CacheKey, TmEntry>

  datatype Meta = Meta(fallbackKeys: set<string>, locale: string, provider: string, model: string,
                       sourceHash: string, totalKeys: nat, translatedKeys: int, workflow: nat)

  // The files of one locale. A missing locale file reads as an empty object.
  datatype Disk = Disk(locale: Keys.Section, meta: Option<Meta>, tm: Memory)

  datatype Source = Source(entries: seq<Entry>, digest: string)

  // What a run takes from its surroundings. `hash` digests a text, `placeholders` lists the
  // placeholders of one; both may be any function.
  datatype Env = Env(locale: string, allowTranslate: bool, provider: string, model: string, authOptional: bool,
                     budget: int, hash: string -> string, placeholders: string -> set<string>)

  datatype Options = Options(checkOnly: bool, force: bool, write: bool)

  datatype SyncOutcome =
    | Done(changed: bool, fallbackCount: nat, wrote: bool)
    | AuthSkipped(fallbackCount: nat)
    | Threw(message: string)

  datatype Run = Run(outcome: SyncOutcome, disk: Disk, prompts: nat)

  function CacheNamespace(env: Env): string {
    "wf=1|engine=openclaw-llm|provider=" + env.provider + "|model=" + env.model
  }

  function CacheKeyOf(env: Env, e: Entry): CacheKey {
    CacheKey(CacheNamespace(env), env.locale, e.key, env.hash(e.text))
  }

  function ItemOf(env: Env, e: Entry): Item {
    Item(CacheKeyOf(env, e), e.key, e.text, env.hash(e.text))
  }

  predicate IsProviderAuthError(message: string) {
    var m := ToLower(message);
    Includes(m, "401") || Includes(m, "authentication_error") || Includes(m, "incorrect api key")
    || Includes(m, "invalid x-api-key")
  }

  // Records without a translation are dropped when the memory is read.
  function LoadTm(tm: Memory): Memory {
    map ck | ck in tm && !Blank(tm[ck].translated) :: tm[ck]
  }

  // ----- the memory by text -----

  predicate Eligible(entry: TmEntry, locale: string) {
    entry.tgtLang == locale && entry.textHash != "" && !Blank(entry.translated)
  }

  // The last eligible record of a text wins.
  function ByTextHash(tm: Memory, order: seq<CacheKey>, locale: string): map<string, TmEntry>
    requires forall ck | ck in order :: ck in tm
  {
    if order == [] then map[]
    else
      var byTextHash := ByTextHash(tm, order[..|order| - 1], locale);
      var entry := tm[order[|order| - 1]];
      if Eligible(entry, locale) then byTextHash[entry.textHash := entry] else byTextHash
  }

  method BuildTranslationMemoryByTextHash(tm: Memory, order: seq<CacheKey>, locale: string)
    returns (byTextHash: map<string, TmEntry>)
    requires forall ck | ck in order :: ck in tm
    ensures byTextHash == ByTextHash(tm, order, locale)
  {
    byTextHash := map[];
    for i := 0 to |order|
      invariant byTextHash == ByTextHash(tm, order[..i], locale)
    {
      assert order[..i + 1][..i] == order[..i];
      var entry := tm[order[i]];
      if entry.tgtLang != locale || entry.textHash == "" || Blank(entry.translated) {
        continue;
      }
      byTextHash := byTextHash[entry.textHash := entry];
    }
    assert order[..|order|] == order;
  }

  ghost predicate HasText(tm: Memory, locale: string, textHash: string) {
    exists ck :: ck in tm && Eligible(tm[ck], locale) && tm[ck].textHash == textHash
  }

  ghost predicate Enumerates(order: seq<CacheKey>, tm: Memory) {
    forall ck :: ck in order <==> ck in tm
  }

  // Whatever the order of the records, a text is found exactly when some record has it.
  lemma {:induction false} ByTextHashIs(tm: Memory, order: seq<CacheKey>, locale: string, textHash: string)
    requires forall ck | ck in order :: ck in tm
    ensures
      var byTextHash := ByTextHash(tm, order, locale);
      textHash in byTextHash <==>
        exists ck :: ck in order && Eligible(tm[ck], locale) && tm[ck].textHash == textHash
    ensures
      var byTextHash := ByTextHash(tm, order, locale);
      textHash in byTextHash ==>
        && Eligible(byTextHash[textHash], locale)
        && byTextHash[textHash].textHash == textHash
    decreases |order|
  {
    if order != [] {
      var front, last := order[..|order| - 1], order[|order| - 1];
      ByTextHashIs(tm, front, locale, textHash);
      assert last in order;
      assert order == front + [last];
    }
  }

  // The record found for a text is the last eligible one that has it.
  lemma {:induction false} LastRecordWins(tm: Memory, order: seq<CacheKey>, locale: string, textHash: string)
    returns (i: nat)
    requires forall ck | ck in order :: ck in tm
    requires textHash in ByTextHash(tm, order, locale)
    ensures i < |order| && Eligible(tm[order[i]], locale) && tm[order[i]].textHash == textHash
    ensures ByTextHash(tm, order, locale)[textHash] == tm[order[i]]
    ensures forall j | i < j < |order| :: !(Eligible(tm[order[j]], locale) && tm[order[j]].textHash == textHash)
    decreases |order|
  {
    var front, last := order[..|order| - 1], order[|order| - 1];
    assert order == front + [last];
    if Eligible(tm[last], locale) && tm[last].textHash == textHash {
      i := |order| - 1;
    } else {
      i := LastRecordWins(tm, front, locale, textHash);
    }
  }

  // ----- deciding each key -----

  datatype Inputs = Inputs(tm: Memory, byTextHash: map<string, TmEntry>, existing: map<string, string>,
                           fallback: set<string>)

  datatype Choice = Reuse(text: string, staysFallback: bool) | Copy(entry: TmEntry) | Pend

  function Choose(env: Env, inputs: Inputs, e: Entry): Choice {
    var ck := CacheKeyOf(env, e);
    var refresh := e.key in inputs.fallback;
    if ck in inputs.tm && !(env.allowTranslate && refresh) then
      Reuse(inputs.tm[ck].translated, refresh)
    else if env.hash(e.text) in inputs.byTextHash && (refresh || e.key !in inputs.existing) then
      Copy(inputs.byTextHash[env.hash(e.text)])
    else if e.key in inputs.existing && !(env.allowTranslate && refresh) then
      Reuse(inputs.existing[e.key], refresh)
    else
      Pend
  }

  datatype Draft = Draft(flat: map<string, string>, tm: Memory, pending: seq<Item>, fallback: set<string>)

  function CopyOf(entry: TmEntry, ck: CacheKey, key: string): TmEntry {
    entry.(cacheKey := ck, segmentId := key)
  }

  function Decide(env: Env, choice: Choice, e: Entry, draft: Draft): Draft {
    match choice
    case Reuse(text, staysFallback) =>
      draft.(flat := draft.flat[e.key := text],
             fallback := if staysFallback then draft.fallback + {e.key} else draft.fallback)
    case Copy(entry) =>
      draft.(flat := draft.flat[e.key := entry.translated],
             tm := draft.tm[CacheKeyOf(env, e) := CopyOf(entry, CacheKeyOf(env, e), e.key)])
    case Pend =>
      draft.(pending := draft.pending + [ItemOf(env, e)])
  }

  function Plan(env: Env, inputs: Inputs, entries: seq<Entry>): Draft {
    if entries == [] then Draft(map[], inputs.tm, [], {})
    else
      var last := entries[|entries| - 1];
      Decide(env, Choose(env, inputs, last), last, Plan(env, inputs, entries[..|entries| - 1]))
  }

  // The first loop of a run. It looks keys up in the memory it is extending; Plan looks them
  // up in the memory as loaded.
  method DecideKeys(env: Env, inputs: Inputs, entries: seq<Entry>) returns (draft: Draft)
    requires Keys.DistinctKeys(entries)
    ensures draft == Plan(env, inputs, entries)
  {
    var flat: map<string, string>, tm, pending, fallback: set<string> := map[], inputs.tm, [], {};
    for i := 0 to |entries|
      invariant Draft(flat, tm, pending, fallback) == Plan(env, inputs, entries[..i])
    {
      assert entries[..i + 1][..i] == entries[..i];
      var e := entries[i];
      var textHash := env.hash(e.text);
      var segmentCacheKey := CacheKeyOf(env, e);
      PlanKeepsOthers(env, inputs, entries[..i], e.key);
      var shouldRefreshFallback := e.key in inputs.fallback;
      if segmentCacheKey in tm && !(env.allowTranslate && shouldRefreshFallback) {
        flat := flat[e.key := tm[segmentCacheKey].translated];
        if shouldRefreshFallback {
          fallback := fallback + {e.key};
        }
      } else if textHash in inputs.byTextHash && (shouldRefreshFallback || e.key !in inputs.existing) {
        var cachedByText := inputs.byTextHash[textHash];
        flat := flat[e.key := cachedByText.translated];
        tm := tm[segmentCacheKey := CopyOf(cachedByText, segmentCacheKey, e.key)];
      } else if e.key in inputs.existing && !(env.allowTranslate && shouldRefreshFallback) {
        flat := flat[e.key := inputs.existing[e.key]];
        if shouldRefreshFallback {
          fallback := fallback + {e.key};
        }
      } else {
        pending := pending + [ItemOf(env, e)];
      }
    }
    assert entries[..|entries|] == entries;
    return Draft(flat, tm, pending, fallback);
  }

  // Deciding keys touches no memory record of a segment that is not among them.
  lemma {:induction false} PlanKeepsOthers(env: Env, inputs: Inputs, entries: seq<Entry>, key: string)
    requires key !in Keys.KeysOf(entries)
    ensures forall ck: CacheKey | ck.segmentId == key ::
              && (ck in Plan(env, inputs, entries).tm <==> ck in inputs.tm)
              && (ck in inputs.tm ==> Plan(env, inputs, entries).tm[ck] == inputs.tm[ck])
    ensures key !in Plan(env, inputs, entries).flat && key !in Plan(env, inputs, entries).fallback
    ensures key !in ItemKeys(Plan(env, inputs, entries).pending)
    decreases |entries|
  {
    if entries != [] {
      var front := entries[..|entries| - 1];
      assert entries == front + [entries[|entries| - 1]];
      assert entries[|entries| - 1].key in Keys.KeysOf(entries);
      PlanKeepsOthers(env, inputs, front, key);
    }
  }

  // ----- translating the pending keys -----

  function Fresh(env: Env, item: Item, value: string): TmEntry {
    TmEntry(item.cacheKey, item.key, item.text, item.textHash, env.locale, value, env.provider, env.model)
  }

  // Taking over the translations of one batch.
  function Absorb(env: Env, items: seq<Item>, values: map<string, string>, draft: Draft): Draft {
    if items == [] then draft
    else
      var last := items[|items| - 1];
      var before := Absorb(env, items[..|items| - 1], values, draft);
      if last.key in values && values[last.key] != "" then
        before.(flat := before.flat[last.key := values[last.key]],
                tm := before.tm[last.cacheKey := Fresh(env, last, values[last.key])])
      else before
  }

  method AbsorbBatch(env: Env, batch: seq<Item>, translated: map<string, string>, draft: Draft) returns (next: Draft)
    ensures next == Absorb(env, batch, translated, draft)
  {
    next := draft;
    for i := 0 to |batch|
      invariant next == Absorb(env, batch[..i], translated, draft)
    {
      assert batch[..i + 1][..i] == batch[..i];
      var item := batch[i];
      if item.key !in translated || translated[item.key] == "" {
        continue;
      }
      var value := translated[item.key];
      next := next.(flat := next.flat[item.key := value],
                    tm := next.tm[item.cacheKey := Fresh(env, item, value)]);
    }
    assert batch[..|batch|] == batch;
  }

  // One batch: its translations taken over, or the error it gave up with.
  function TranslateOne(env: Env, ask: Asker, first: nat, batch: seq<Item>, draft: Draft)
    : (Result<Draft, string>, nat)
  {
    var outcome := Translate(ask, first, batch, 0);
    match outcome.result
    case Err(message) => (Err(message), first + outcome.prompts)
    case Ok(values) => (Ok(Absorb(env, batch, values, draft)), first + outcome.prompts)
  }

  // All batches in turn; the first one that gives up ends the run.
  function TranslateBatches(env: Env, ask: Asker, first: nat, batches: seq<seq<Item>>, draft: Draft)
    : (Result<Draft, string>, nat)
    decreases |batches|
  {
    if batches == [] then (Ok(draft), first)
    else
      var (result, next) := TranslateOne(env, ask, first, batches[0], draft);
      if result.Err? then (result, next) else TranslateBatches(env, ask, next, batches[1..], result.value)
  }

  method TranslateBatchInto(env: Env, provider: Provider, ghost ask: Asker, first: nat, batch: seq<Item>, draft: Draft)
    returns (result: Result<Draft, string>, next: nat)
    requires Consults(ask, provider)
    ensures (result, next) == TranslateOne(env, ask, first, batch, draft)
  {
    var translated, after, _ := TranslateBatch(provider, ask, first, batch);
    next := after;
    if translated.Err? {
      return Err(translated.error), next;
    }
    var absorbed := AbsorbBatch(env, batch, translated.value, draft);
    return Ok(absorbed), next;
  }

  method TranslatePending(env: Env, provider: Provider, ghost ask: Asker, pending: seq<Item>, planned: Draft)
    returns (result: Result<Draft, string>, prompts: nat)
    requires Consults(ask, provider)
    ensures (result, prompts) == TranslateBatches(env, ask, 0, Greedy(pending, env.budget), planned)
  {
    var batches := BuildTranslationBatches(pending, env.budget);
    var draft := planned;
    prompts := 0;
    for n := 0 to |batches|
      invariant TranslateBatches(env, ask, 0, batches, planned)
             == TranslateBatches(env, ask, prompts, batches[n..], draft)
    {
      assert batches[n..][1..] == batches[n + 1..];
      result, prompts := TranslateBatchInto(env, provider, ask, prompts, batches[n], draft);
      if result.Err? {
        return;
      }
      draft := result.value;
    }
    return Ok(draft), prompts;
  }

  // ----- falling back -----

  // Pending keys without a translation keep their existing value, or read in English and
  // enter the ledger.
  function Fill(inputs: Inputs, force: bool, items: seq<Item>, draft: Draft): Draft {
    if items == [] then draft
    else
      var last := items[|items| - 1];
      var before := Fill(inputs, force, items[..|items| - 1], draft);
      if last.key in before.flat then before
      else if last.key in inputs.existing && !force then
        before.(flat := before.flat[last.key := inputs.existing[last.key]],
                fallback := if last.key in inputs.fallback then before.fallback + {last.key} else before.fallback)
      else
        before.(flat := before.flat[last.key := last.text], fallback := before.fallback + {last.key})
  }

  method FillPending(inputs: Inputs, force: bool, items: seq<Item>, draft: Draft) returns (filled: Draft)
    ensures filled == Fill(inputs, force, items, draft)
  {
    filled := draft;
    for i := 0 to |items|
      invariant filled == Fill(inputs, force, items[..i], draft)
    {
      assert items[..i + 1][..i] == items[..i];
      var item := items[i];
      if item.key in filled.flat {
        continue;
      }
      if item.key in inputs.existing && !force {
        filled := filled.(flat := filled.flat[item.key := inputs.existing[item.key]]);
        if item.key in inputs.fallback {
          filled := filled.(fallback := filled.fallback + {item.key});
        }
        continue;
      }
      filled := filled.(flat := filled.flat[item.key := item.text], fallback := filled.fallback + {item.key});
    }
    assert items[..|items|] == items;
  }

  // ----- the whole run -----

  function InputsOf(env: Env, disk: Disk, order: seq<CacheKey>): Inputs
    requires forall ck | ck in order :: ck in LoadTm(disk.tm)
  {
    Inputs(LoadTm(disk.tm), ByTextHash(LoadTm(disk.tm), order, env.locale),
           Keys.Flatten(disk.locale, "", map[]), if disk.meta.Some? then disk.meta.value.fallbackKeys else {})
  }

  function Lookup(flat: map<string, string>, key: string, default: string): string {
    if key in flat then flat[key] else default
  }

  predicate PlaceholdersMatch(env: Env, entries: seq<Entry>, flat: map<string, string>) {
    forall i | 0 <= i < |entries| ::
      env.placeholders(entries[i].text) == env.placeholders(Lookup(flat, entries[i].key, ""))
  }

  function Localised(entries: seq<Entry>, flat: map<string, string>): seq<Entry> {
    seq(|entries|, i requires 0 <= i < |entries| =>
      Keys.Entry(entries[i].key, Lookup(flat, entries[i].key, entries[i].text)))
  }

  // What the run would write.
  function NextDisk(env: Env, source: Source, disk: Disk, draft: Draft): Disk {
    var total := |source.entries|;
    var provider := if env.allowTranslate then env.provider
                    else if disk.meta.Some? then disk.meta.value.provider else "";
    var model := if env.allowTranslate then env.model
                 else if disk.meta.Some? then disk.meta.value.model else "";
    Disk(Keys.Rebuild(Localised(source.entries, draft.flat)),
         Some(Meta(draft.fallback, env.locale, provider, model, source.digest, total, total - |draft.fallback|,
                   CONTROL_UI_I18N_WORKFLOW)),
         draft.tm)
  }

  function Finish(env: Env, source: Source, disk: Disk, options: Options, draft: Draft, prompts: nat): Run {
    if !PlaceholdersMatch(env, source.entries, draft.flat) then Run(Threw("placeholder mismatch"), disk, prompts)
    else
      var next := NextDisk(env, source, disk, draft);
      var changed := next != disk;
      if !changed
         || (disk.meta.Some? && disk.meta.value.sourceHash == source.digest
             && !options.force && !options.checkOnly && !options.write)
      then Run(Done(changed, |draft.fallback|, false), disk, prompts)
      else
        var wrote := !options.checkOnly && options.write;
        Run(Done(changed, |draft.fallback|, wrote && changed), if wrote then next else disk, prompts)
  }

  function Sync(env: Env, source: Source, disk: Disk, order: seq<CacheKey>, options: Options, ask: Asker): Run
    requires forall ck | ck in order :: ck in LoadTm(disk.tm)
  {
    var inputs := InputsOf(env, disk, order);
    var planned := Plan(env, inputs, source.entries);
    if env.allowTranslate && planned.pending != [] then
      var (translated, prompts) := TranslateBatches(env, ask, 0, Greedy(planned.pending, env.budget), planned);
      match translated
      case Err(message) =>
        if env.authOptional && IsProviderAuthError(message) then
          Run(AuthSkipped(if disk.meta.Some? then |disk.meta.value.fallbackKeys| else 0), disk, prompts)
        else Run(Threw(message), disk, prompts)
      case Ok(draft) =>
        Finish(env, source, disk, options, Fill(inputs, options.force, planned.pending, draft), prompts)
    else
      Finish(env, source, disk, options, Fill(inputs, options.force, planned.pending, planned), 0)
  }

  method SyncLocale(env: Env, source: Source, disk: Disk, order: seq<CacheKey>, options: Options,
                    provider: Provider)
    returns (run: Run)
    requires Keys.DistinctKeys(source.entries)
    requires forall ck | ck in order :: ck in LoadTm(disk.tm)
    ensures run == Sync(env, source, disk, order, options, Asking(provider))
  {
    var tm := LoadTm(disk.tm);
    var tmByTextHash := BuildTranslationMemoryByTextHash(tm, order, env.locale);
    var existingFlat := Keys.FlattenTranslations(disk.locale, "", map[]);
    var previousFallbackKeys := if disk.meta.Some? then disk.meta.value.fallbackKeys else {};
    var inputs := Inputs(tm, tmByTextHash, existingFlat, previousFallbackKeys);
    var planned := DecideKeys(env, inputs, source.entries);
    var draft := planned;
    var prompts := 0;
    if env.allowTranslate && |planned.pending| > 0 {
      var translated;
      translated, prompts := TranslatePending(env, provider, Asking(provider), planned.pending, planned);
      if translated.Err? {
        if env.authOptional && IsProviderAuthError(translated.error) {
          return Run(AuthSkipped(|previousFallbackKeys|), disk, prompts);
        }
        return Run(Threw(translated.error), disk, prompts);
      }
      draft := translated.value;
    }
    draft := FillPending(inputs, options.force, planned.pending, draft);
    return Finish(env, source, disk, options, draft, prompts);
  }
}
