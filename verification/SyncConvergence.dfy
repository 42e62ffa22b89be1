/**
 What a locale run guarantees about the next one: an exact fallback ledger, a memory that
 agrees with the locale file, and no further changes or prompts.
 */
module SyncConvergence {
  import opened Wrappers
  import opened Text
  import opened TranslationBatches
  import opened BatchTranslation
  import opened TranslationSync
  import Keys = TranslationKeys

  // ----- after the deciding loop -----

  ghost predicate Decided(env: Env, inputs: Inputs, e: Entry, draft: Draft) {
    var ck := CacheKeyOf(env, e);
    match Choose(env, inputs, e)
    case Reuse(text, stays) =>
      && e.key in draft.flat && draft.flat[e.key] == text
      && (e.key in draft.fallback <==> stays)
      && (ck in draft.tm <==> ck in inputs.tm) && (ck in draft.tm ==> draft.tm[ck] == inputs.tm[ck])
    case Copy(entry) =>
      && e.key in draft.flat && draft.flat[e.key] == entry.translated
      && e.key !in draft.fallback
      && ck in draft.tm && draft.tm[ck] == CopyOf(entry, ck, e.key)
    case Pend =>
      && e.key !in draft.flat && e.key !in draft.fallback
      && ItemOf(env, e) in draft.pending
      && (ck in draft.tm <==> ck in inputs.tm) && (ck in draft.tm ==> draft.tm[ck] == inputs.tm[ck])
  }

  lemma DistinctPrefix(entries: seq<Entry>)
    requires entries != [] && Keys.DistinctKeys(entries)
    ensures Keys.DistinctKeys(entries[..|entries| - 1])
    ensures entries[|entries| - 1].key !in Keys.KeysOf(entries[..|entries| - 1])
    ensures Keys.KeysOf(entries) == Keys.KeysOf(entries[..|entries| - 1]) + {entries[|entries| - 1].key}
  {
    assert entries == entries[..|entries| - 1] + [entries[|entries| - 1]];
  }

  lemma {:induction false} PlanDecides(env: Env, inputs: Inputs, entries: seq<Entry>, e: Entry)
    requires Keys.DistinctKeys(entries) && e in entries
    ensures Decided(env, inputs, e, Plan(env, inputs, entries))
    decreases |entries|
  {
    var front, last := entries[..|entries| - 1], entries[|entries| - 1];
    DistinctPrefix(entries);
    if e == last {
      PlanKeepsOthers(env, inputs, front, e.key);
    } else {
      assert e in front by { assert entries == front + [last]; }
      PlanDecides(env, inputs, front, e);
    }
  }

  predicate DistinctItems(items: seq<Item>) {
    forall i, j | 0 <= i < j < |items| :: items[i].key != items[j].key
  }

  // Cache keys of items carry the item's key as their segment.
  predicate Keyed(items: seq<Item>) {
    forall item | item in items :: item.cacheKey.segmentId == item.key
  }

  lemma {:induction false} PlanShape(env: Env, inputs: Inputs, entries: seq<Entry>)
    requires Keys.DistinctKeys(entries)
    ensures
      var draft := Plan(env, inputs, entries);
      && draft.flat.Keys + ItemKeys(draft.pending) == Keys.KeysOf(entries)
      && draft.fallback <= draft.flat.Keys
      && DistinctItems(draft.pending)
    decreases |entries|
  {
    if entries != [] {
      var front, last := entries[..|entries| - 1], entries[|entries| - 1];
      DistinctPrefix(entries);
      PlanShape(env, inputs, front);
      var before := Plan(env, inputs, front);
    }
  }

  lemma KeysOfAppend(a: seq<Item>, b: seq<Item>)
    ensures ItemKeys(a + b) == ItemKeys(a) + ItemKeys(b)
    ensures |b| == 1 ==> ItemKeys(b) == {b[0].key}
  {
  }

  // Pending items are those of the keys decided so.
  ghost predicate Pending(env: Env, inputs: Inputs, entries: seq<Entry>, item: Item) {
    exists e :: e in entries && Choose(env, inputs, e) == Pend && item == ItemOf(env, e)
  }

  lemma {:induction false} PlanPends(env: Env, inputs: Inputs, entries: seq<Entry>, item: Item)
    requires item in Plan(env, inputs, entries).pending
    ensures Pending(env, inputs, entries, item)
    decreases |entries|
  {
    if entries != [] {
      var front, last := entries[..|entries| - 1], entries[|entries| - 1];
      if item in Plan(env, inputs, front).pending {
        PlanPends(env, inputs, front, item);
        var e :| e in front && Choose(env, inputs, e) == Pend && item == ItemOf(env, e);
        assert e in entries;
      } else {
        assert last in entries;
      }
    }
  }

  lemma PlanIsKeyed(env: Env, inputs: Inputs, entries: seq<Entry>)
    ensures Keyed(Plan(env, inputs, entries).pending)
  {
    var pending := Plan(env, inputs, entries).pending;
    forall item | item in pending ensures item.cacheKey.segmentId == item.key {
      PlanPends(env, inputs, entries, item);
    }
  }

  // Every text in the memory is one the lookup by text knew.
  ghost predicate KnownTexts(tm: Memory, inputs: Inputs, locale: string) {
    forall ck | ck in tm && Eligible(tm[ck], locale) :: tm[ck].textHash in inputs.byTextHash
  }

  ghost predicate ByTextIsSound(inputs: Inputs, locale: string) {
    forall h | h in inputs.byTextHash ::
      Eligible(inputs.byTextHash[h], locale) && inputs.byTextHash[h].textHash == h
  }

  ghost predicate NoBlanks(tm: Memory) {
    forall ck | ck in tm :: !Blank(tm[ck].translated)
  }

  lemma {:induction false} PlanMemory(env: Env, inputs: Inputs, entries: seq<Entry>)
    requires NoBlanks(inputs.tm) && KnownTexts(inputs.tm, inputs, env.locale) && ByTextIsSound(inputs, env.locale)
    ensures NoBlanks(Plan(env, inputs, entries).tm)
    ensures KnownTexts(Plan(env, inputs, entries).tm, inputs, env.locale)
    decreases |entries|
  {
    if entries != [] {
      PlanMemory(env, inputs, entries[..|entries| - 1]);
    }
  }

  // ----- after the provider -----

  // The draft has, for every one of these items, a translation that the memory agrees with.
  ghost predicate Absorbed(env: Env, items: seq<Item>, draft: Draft) {
    forall item | item in items ::
      && item.key in draft.flat
      && item.cacheKey in draft.tm
      && draft.tm[item.cacheKey] == Fresh(env, item, draft.flat[item.key])
      && !Blank(draft.flat[item.key])
  }

  // Two drafts differ at most in what concerns these keys.
  ghost predicate SameElsewhere(keys: set<string>, a: Draft, b: Draft) {
    && (forall key | key !in keys :: key in a.flat <==> key in b.flat)
    && (forall key | key !in keys && key in a.flat :: a.flat[key] == b.flat[key])
    && (forall ck: CacheKey | ck.segmentId !in keys :: ck in a.tm <==> ck in b.tm)
    && (forall ck: CacheKey | ck.segmentId !in keys && ck in a.tm :: a.tm[ck] == b.tm[ck])
    && a.fallback == b.fallback
    && a.flat.Keys <= b.flat.Keys
  }

  lemma {:induction false} AbsorbAdds(env: Env, items: seq<Item>, values: map<string, string>, draft: Draft, item: Item)
    requires Keyed(items) && DistinctItems(items) && item in items && item.key in values && values[item.key] != ""
    ensures
      var after := Absorb(env, items, values, draft);
      && item.key in after.flat && after.flat[item.key] == values[item.key]
      && item.cacheKey in after.tm && after.tm[item.cacheKey] == Fresh(env, item, values[item.key])
    decreases |items|
  {
    var front, last := items[..|items| - 1], items[|items| - 1];
    assert last in items;
    if item != last {
      assert item in front by { assert items == front + [last]; }
      AbsorbAdds(env, front, values, draft, item);
    }
  }

  lemma {:induction false} AbsorbKeeps(env: Env, items: seq<Item>, values: map<string, string>, draft: Draft,
                                       keys: set<string>)
    requires Keyed(items) && forall item | item in items :: item.key in keys
    ensures SameElsewhere(keys, draft, Absorb(env, items, values, draft))
    decreases |items|
  {
    if items != [] {
      var front, last := items[..|items| - 1], items[|items| - 1];
      assert last in items;
      AbsorbKeeps(env, front, values, draft, keys);
    }
  }

  lemma {:induction false} AbsorbNoBlanks(env: Env, items: seq<Item>, values: map<string, string>, draft: Draft)
    requires NoBlanks(draft.tm) && forall key | key in values :: !Blank(values[key])
    ensures NoBlanks(Absorb(env, items, values, draft).tm)
    decreases |items|
  {
    if items != [] {
      AbsorbNoBlanks(env, items[..|items| - 1], values, draft);
    }
  }

  // Absorbing a complete translation of the items.
  lemma AbsorbTranslation(env: Env, items: seq<Item>, values: map<string, string>, draft: Draft)
    requires Keyed(items) && DistinctItems(items) && values.Keys == ItemKeys(items)
    requires forall key | key in values :: !Blank(values[key])
    ensures Absorbed(env, items, Absorb(env, items, values, draft))
    ensures SameElsewhere(ItemKeys(items), draft, Absorb(env, items, values, draft))
    ensures NoBlanks(draft.tm) ==> NoBlanks(Absorb(env, items, values, draft).tm)
  {
    AbsorbKeeps(env, items, values, draft, ItemKeys(items));
    if NoBlanks(draft.tm) {
      AbsorbNoBlanks(env, items, values, draft);
    }
    forall item | item in items
      ensures item.key in values && values[item.key] != ""
    {
      assert item.key in ItemKeys(items);
    }
    forall item | item in items
      ensures
        var after := Absorb(env, items, values, draft);
        && item.key in after.flat && after.flat[item.key] == values[item.key]
        && item.cacheKey in after.tm && after.tm[item.cacheKey] == Fresh(env, item, values[item.key])
    {
      AbsorbAdds(env, items, values, draft, item);
    }
  }

  // The provider's reply to some prompt that asks for this key has this value for it.
  ghost predicate SaidBy(provider: Provider, key: string, value: string) {
    exists number: nat, attempt: nat, asked: seq<Item> {:trigger provider(number, attempt, asked)} ::
      Gives(provider(number, attempt, asked), asked, key, value)
  }

  ghost predicate Supplied(provider: Provider, items: seq<Item>, draft: Draft) {
    forall item | item in items :: item.key in draft.flat && SaidBy(provider, item.key, draft.flat[item.key])
  }

  // `after` is `before` with these items translated, as the provider said.
  ghost predicate Translated(env: Env, provider: Provider, items: seq<Item>, before: Draft, after: Draft) {
    && Absorbed(env, items, after) && Supplied(provider, items, after)
    && SameElsewhere(ItemKeys(items), before, after)
    && (NoBlanks(before.tm) ==> NoBlanks(after.tm))
  }

  lemma TranslatedChain(env: Env, provider: Provider, a: seq<Item>, b: seq<Item>, before: Draft, next: Draft,
                        after: Draft)
    requires Translated(env, provider, a, before, next) && Translated(env, provider, b, next, after) && Keyed(a)
    requires ItemKeys(a) !! ItemKeys(b)
    ensures Translated(env, provider, a + b, before, after)
  {
    KeysOfAppend(a, b);
  }

  lemma AbsorbedIsSupplied(env: Env, provider: Provider, lo: nat, hi: nat, items: seq<Item>,
                           values: map<string, string>, draft: Draft)
    requires Keyed(items) && DistinctItems(items) && TranslationOf(provider, lo, hi, items, values)
    ensures Supplied(provider, items, Absorb(env, items, values, draft))
  {
    forall item | item in items
      ensures
        var after := Absorb(env, items, values, draft);
        item.key in after.flat && SaidBy(provider, item.key, after.flat[item.key])
    {
      assert item.key in ItemKeys(items);
      AbsorbAdds(env, items, values, draft, item);
    }
  }

  lemma OneBatchAdds(env: Env, ask: Asker, provider: Provider, first: nat, batch: seq<Item>, draft: Draft)
    requires Faithful(ask, provider) && Keyed(batch) && DistinctItems(batch)
    requires TranslateOne(env, ask, first, batch, draft).0.Ok?
    ensures Translated(env, provider, batch, draft, TranslateOne(env, ask, first, batch, draft).0.value)
  {
    var outcome := Translate(ask, first, batch, 0);
    TranslateIsTotal(ask, provider, first, batch, 0);
    AbsorbTranslation(env, batch, outcome.result.value, draft);
    AbsorbedIsSupplied(env, provider, first, first + outcome.prompts, batch, outcome.result.value, draft);
  }

  lemma {:induction false} BatchesAdd(env: Env, ask: Asker, provider: Provider, first: nat, batches: seq<seq<Item>>,
                                      draft: Draft)
    requires Faithful(ask, provider) && Keyed(Flatten(batches)) && DistinctItems(Flatten(batches))
    requires TranslateBatches(env, ask, first, batches, draft).0.Ok?
    ensures Translated(env, provider, Flatten(batches), draft,
                       TranslateBatches(env, ask, first, batches, draft).0.value)
    decreases |batches|
  {
    if batches != [] {
      var (one, next) := TranslateOne(env, ask, first, batches[0], draft);
      FlattenSplits(batches);
      OneBatchAdds(env, ask, provider, first, batches[0], draft);
      BatchesAdd(env, ask, provider, next, batches[1..], one.value);
      TranslatedChain(env, provider, batches[0], Flatten(batches[1..]), draft, one.value,
                      TranslateBatches(env, ask, next, batches[1..], one.value).0.value);
    }
  }

  lemma FlattenSplits(batches: seq<seq<Item>>)
    requires batches != [] && Keyed(Flatten(batches)) && DistinctItems(Flatten(batches))
    ensures
      var rest := Flatten(batches[1..]);
      && Keyed(batches[0]) && DistinctItems(batches[0]) && Keyed(rest) && DistinctItems(rest)
      && ItemKeys(batches[0]) !! ItemKeys(rest)
      && ItemKeys(Flatten(batches)) == ItemKeys(batches[0]) + ItemKeys(rest)
  {
    var all, rest := Flatten(batches), Flatten(batches[1..]);
    assert all == batches[0] + rest;
    assert forall i | 0 <= i < |rest| :: rest[i] == all[|batches[0]| + i];
    assert forall i | 0 <= i < |batches[0]| :: batches[0][i] == all[i];
  }

  // ----- after falling back -----

  lemma {:induction false} FillKeeps(inputs: Inputs, force: bool, items: seq<Item>, draft: Draft)
    requires forall item | item in items :: item.key in draft.flat
    ensures Fill(inputs, force, items, draft) == draft
    decreases |items|
  {
    if items != [] {
      assert items[|items| - 1] in items;
      FillKeeps(inputs, force, items[..|items| - 1], draft);
    }
  }

  // Without a provider no pending key has an existing value, so each reads in English and
  // enters the ledger, whether or not the run is forced.
  lemma {:induction false} FillInEnglish(inputs: Inputs, force: bool, items: seq<Item>, draft: Draft)
    requires DistinctItems(items)
    requires forall item | item in items :: item.key !in draft.flat && item.key !in inputs.existing
    ensures InEnglish(items, draft, Fill(inputs, force, items, draft))
    decreases |items|
  {
    if items != [] {
      var front, last := items[..|items| - 1], items[|items| - 1];
      assert items == front + [last];
      FillInEnglish(inputs, force, front, draft);
      assert last in items;
      var filled := Fill(inputs, force, front, draft);
      LastIsNew(items);
      InEnglishStep(front, last, draft, filled);
    }
  }

  lemma LastIsNew(items: seq<Item>)
    requires items != [] && DistinctItems(items)
    ensures items[|items| - 1].key !in ItemKeys(items[..|items| - 1])
  {
    forall item | item in items[..|items| - 1]
      ensures item.key != items[|items| - 1].key
    {
      var i :| 0 <= i < |items| - 1 && items[i] == item;
    }
  }

  // `after` is `before` with these items filled in with their English text.
  ghost predicate InEnglish(items: seq<Item>, before: Draft, after: Draft) {
    && after.flat.Keys == before.flat.Keys + ItemKeys(items)
    && (forall item | item in items :: item.key in after.flat && after.flat[item.key] == item.text)
    && (forall key | key in before.flat :: after.flat[key] == before.flat[key])
    && after.fallback == before.fallback + ItemKeys(items)
    && after.tm == before.tm
  }

  lemma InEnglishStep(items: seq<Item>, item: Item, before: Draft, filled: Draft)
    requires InEnglish(items, before, filled)
    requires item.key !in before.flat && item.key !in ItemKeys(items)
    ensures InEnglish(items + [item], before, filled.(flat := filled.flat[item.key := item.text],
                                                      fallback := filled.fallback + {item.key}))
  {
    KeysOfAppend(items, [item]);
    forall other | other in items ensures other.key != item.key {
      assert other.key in ItemKeys(items);
    }
  }

  // ----- what every completed run leaves in memory -----

  // The draft a run finishes with, unless the provider gave up.
  function Final(env: Env, inputs: Inputs, entries: seq<Entry>, force: bool, ask: Asker): Result<Draft, string> {
    var planned := Plan(env, inputs, entries);
    if env.allowTranslate && planned.pending != [] then
      match TranslateBatches(env, ask, 0, Greedy(planned.pending, env.budget), planned).0
      case Err(message) => Err(message)
      case Ok(draft) => Ok(Fill(inputs, force, planned.pending, draft))
    else Ok(Fill(inputs, force, planned.pending, planned))
  }

  ghost predicate GoodInputs(inputs: Inputs, locale: string) {
    NoBlanks(inputs.tm) && KnownTexts(inputs.tm, inputs, locale) && ByTextIsSound(inputs, locale)
  }

  // Whether a key ends in the ledger when no provider is configured: an old fallback stays
  // unless another key's record supplies its text, and a new one is a key nothing is known of.
  predicate LedgerRule(env: Env, inputs: Inputs, e: Entry) {
    var cached := CacheKeyOf(env, e) in inputs.tm;
    var known := env.hash(e.text) in inputs.byTextHash;
    if e.key in inputs.fallback then cached || !known
    else !cached && !known && e.key !in inputs.existing
  }

  // The keys that a run has to find a text for: no record has its text, and either it is a
  // fallback to be refreshed or it has neither a record nor a value of its own.
  predicate MustFind(env: Env, inputs: Inputs, e: Entry) {
    && env.hash(e.text) !in inputs.byTextHash
    && if env.allowTranslate && e.key in inputs.fallback then true
       else CacheKeyOf(env, e) !in inputs.tm && e.key !in inputs.existing
  }

  // The record of a key: what the provider said is put on record; the record of another key
  // with its text is copied to it, if it is taken over; and else it is as it was.
  predicate RecordRule(env: Env, inputs: Inputs, e: Entry, text: string, tm: Memory) {
    var ck, textHash := CacheKeyOf(env, e), env.hash(e.text);
    var cached, refresh := ck in inputs.tm, e.key in inputs.fallback;
    if MustFind(env, inputs, e) && env.allowTranslate then
      && ck in tm
      && tm[ck] == TmEntry(ck, e.key, e.text, textHash, env.locale, text, env.provider, env.model)
    else if && textHash in inputs.byTextHash
            && (if cached then env.allowTranslate && refresh else refresh || e.key !in inputs.existing) then
      && ck in tm
      && tm[ck] == inputs.byTextHash[textHash].(cacheKey := ck, segmentId := e.key)
    else
      (ck in tm <==> cached) && (cached ==> tm[ck] == inputs.tm[ck])
  }

  lemma PendsExactly(env: Env, inputs: Inputs, e: Entry)
    ensures Choose(env, inputs, e) == Pend <==> MustFind(env, inputs, e)
  {
  }

  // Where the value of a key comes from if anything is known of it: its own record unless it
  // is to be refreshed, else, if it is a fallback or has no value yet, a record of its text,
  // else the value it has.
  predicate ValueRule(env: Env, inputs: Inputs, e: Entry, text: string) {
    var refresh := e.key in inputs.fallback;
    var cached, known := CacheKeyOf(env, e) in inputs.tm, env.hash(e.text) in inputs.byTextHash;
    && (cached && !(refresh && env.allowTranslate) ==> text == inputs.tm[CacheKeyOf(env, e)].translated)
    && (known && refresh && (env.allowTranslate || !cached) ==> text == inputs.byTextHash[env.hash(e.text)].translated)
    && (!cached && known && e.key !in inputs.existing ==> text == inputs.byTextHash[env.hash(e.text)].translated)
    && (!cached && e.key in inputs.existing && !refresh ==> text == inputs.existing[e.key])
    && (!cached && !known && e.key in inputs.existing && !env.allowTranslate ==> text == inputs.existing[e.key])
  }

  // The value of one key agrees with its cache record, if it has one.
  ghost predicate InTune(env: Env, e: Entry, draft: Draft) {
    && e.key in draft.flat
    && (CacheKeyOf(env, e) in draft.tm ==> draft.tm[CacheKeyOf(env, e)].translated == draft.flat[e.key])
  }

  // What one key comes to when nothing is pending for it.
  lemma DecidedIsInTune(env: Env, inputs: Inputs, e: Entry, planned: Draft, draft: Draft, keys: set<string>)
    requires Decided(env, inputs, e, planned) && Choose(env, inputs, e) != Pend
    requires SameElsewhere(keys, planned, draft) && e.key !in keys
    ensures InTune(env, e, draft) && ValueRule(env, inputs, e, draft.flat[e.key])
    ensures RecordRule(env, inputs, e, draft.flat[e.key], draft.tm)
    ensures env.allowTranslate ==> e.key !in planned.fallback
  {
  }

  lemma NotPending(env: Env, inputs: Inputs, entries: seq<Entry>, e: Entry)
    requires Keys.DistinctKeys(entries) && e in entries
    ensures e.key in ItemKeys(Plan(env, inputs, entries).pending) <==> Choose(env, inputs, e) == Pend
  {
    var pending := Plan(env, inputs, entries).pending;
    PlanDecides(env, inputs, entries, e);
    if item :| item in pending && item.key == e.key {
      PlanPends(env, inputs, entries, item);
      var other :| other in entries && Choose(env, inputs, other) == Pend && item == ItemOf(env, other);
      var i :| 0 <= i < |entries| && entries[i] == e;
      var j :| 0 <= j < |entries| && entries[j] == other;
      assert i == j;
    }
  }

  // One key after a run without a provider.
  ghost predicate SettledWithoutProvider(env: Env, inputs: Inputs, e: Entry, draft: Draft) {
    && InTune(env, e, draft)
    && ValueRule(env, inputs, e, draft.flat[e.key])
    && (e.key in draft.fallback <==> LedgerRule(env, inputs, e))
    && (MustFind(env, inputs, e) ==> draft.flat[e.key] == e.text)
    && RecordRule(env, inputs, e, draft.flat[e.key], draft.tm)
  }

  lemma KeyWithoutProvider(env: Env, inputs: Inputs, e: Entry, planned: Draft, draft: Draft)
    requires !env.allowTranslate && Decided(env, inputs, e, planned)
    requires draft.tm == planned.tm
    requires Choose(env, inputs, e) == Pend ==>
               e.key in draft.flat && draft.flat[e.key] == e.text && e.key in draft.fallback
    requires Choose(env, inputs, e) != Pend ==>
               e.key in draft.flat && draft.flat[e.key] == planned.flat[e.key]
               && (e.key in draft.fallback <==> e.key in planned.fallback)
    ensures SettledWithoutProvider(env, inputs, e, draft)
  {
  }

  lemma WithoutProvider(env: Env, inputs: Inputs, entries: seq<Entry>, force: bool, ask: Asker)
    requires Keys.DistinctKeys(entries) && GoodInputs(inputs, env.locale) && !env.allowTranslate
    ensures Final(env, inputs, entries, force, ask).Ok?
    ensures
      var draft := Final(env, inputs, entries, force, ask).value;
      && draft.flat.Keys == Keys.KeysOf(entries) && draft.fallback <= Keys.KeysOf(entries)
      && NoBlanks(draft.tm) && KnownTexts(draft.tm, inputs, env.locale)
      && forall e | e in entries :: SettledWithoutProvider(env, inputs, e, draft)
  {
    var planned := Plan(env, inputs, entries);
    PlanShape(env, inputs, entries);
    PlanMemory(env, inputs, entries);
    forall item | item in planned.pending
      ensures item.key !in planned.flat && item.key !in inputs.existing
    {
      PlanPends(env, inputs, entries, item);
      var e :| e in entries && Choose(env, inputs, e) == Pend && item == ItemOf(env, e);
      PlanDecides(env, inputs, entries, e);
    }
    FillInEnglish(inputs, force, planned.pending, planned);
    var draft := Fill(inputs, force, planned.pending, planned);
    forall e | e in entries
      ensures SettledWithoutProvider(env, inputs, e, draft)
    {
      PlanDecides(env, inputs, entries, e);
      NotPending(env, inputs, entries, e);
      KeyWithoutProvider(env, inputs, e, planned, draft);
    }
  }

  lemma PendingIsAbsorbed(env: Env, provider: Provider, e: Entry, pending: seq<Item>, draft: Draft)
    requires ItemOf(env, e) in pending && Absorbed(env, pending, draft) && Supplied(provider, pending, draft)
    ensures InTune(env, e, draft) && !Blank(draft.flat[e.key]) && SaidBy(provider, e.key, draft.flat[e.key])
    ensures CacheKeyOf(env, e) in draft.tm
    ensures draft.tm[CacheKeyOf(env, e)] == Fresh(env, ItemOf(env, e), draft.flat[e.key])
  {
  }

  lemma PendingTranslated(env: Env, ask: Asker, provider: Provider, planned: Draft) returns (draft: Draft)
    requires Faithful(ask, provider) && Keyed(planned.pending) && DistinctItems(planned.pending)
    requires planned.pending != []
    requires TranslateBatches(env, ask, 0, Greedy(planned.pending, env.budget), planned).0.Ok?
    ensures TranslateBatches(env, ask, 0, Greedy(planned.pending, env.budget), planned).0 == Ok(draft)
    ensures Translated(env, provider, planned.pending, planned, draft)
  {
    var batches := Greedy(planned.pending, env.budget);
    GreedyIsFewest(planned.pending, env.budget);
    assert Flatten(batches) == planned.pending;
    BatchesAdd(env, ask, provider, 0, batches, planned);
    draft := TranslateBatches(env, ask, 0, batches, planned).0.value;
  }

  // The provider stage, all batches having been translated.
  lemma ProviderStage(env: Env, inputs: Inputs, entries: seq<Entry>, ask: Asker, provider: Provider)
    returns (draft: Draft)
    requires Keys.DistinctKeys(entries) && GoodInputs(inputs, env.locale) && env.allowTranslate
    requires Faithful(ask, provider)
    requires Final(env, inputs, entries, false, ask).Ok?
    ensures forall force :: Final(env, inputs, entries, force, ask) == Ok(draft)
    ensures Translated(env, provider, Plan(env, inputs, entries).pending, Plan(env, inputs, entries), draft)
    ensures NoBlanks(draft.tm)
  {
    var planned := Plan(env, inputs, entries);
    PlanShape(env, inputs, entries);
    PlanIsKeyed(env, inputs, entries);
    PlanMemory(env, inputs, entries);
    draft := planned;
    if planned.pending != [] {
      draft := PendingTranslated(env, ask, provider, planned);
    }
    forall force {
      FillKeeps(inputs, force, planned.pending, draft);
    }
  }

  // One key after a run with a provider.
  ghost predicate SettledWithProvider(env: Env, inputs: Inputs, provider: Provider, e: Entry, draft: Draft) {
    && InTune(env, e, draft)
    && ValueRule(env, inputs, e, draft.flat[e.key])
    && (MustFind(env, inputs, e) ==> !Blank(draft.flat[e.key]) && SaidBy(provider, e.key, draft.flat[e.key]))
    && RecordRule(env, inputs, e, draft.flat[e.key], draft.tm)
  }

  lemma WithProvider(env: Env, inputs: Inputs, entries: seq<Entry>, ask: Asker, provider: Provider)
    returns (draft: Draft)
    requires Keys.DistinctKeys(entries) && GoodInputs(inputs, env.locale) && env.allowTranslate
    requires Faithful(ask, provider)
    requires Final(env, inputs, entries, false, ask).Ok?
    ensures forall force :: Final(env, inputs, entries, force, ask) == Ok(draft)
    ensures draft.flat.Keys == Keys.KeysOf(entries) && draft.fallback == {} && NoBlanks(draft.tm)
    ensures forall e | e in entries :: SettledWithProvider(env, inputs, provider, e, draft)
  {
    var planned := Plan(env, inputs, entries);
    draft := ProviderStage(env, inputs, entries, ask, provider);
    PlanShape(env, inputs, entries);
    forall e | e in entries
      ensures SettledWithProvider(env, inputs, provider, e, draft) && e.key !in planned.fallback
    {
      PlanDecides(env, inputs, entries, e);
      NotPending(env, inputs, entries, e);
      PendsExactly(env, inputs, e);
      if Choose(env, inputs, e) == Pend {
        PendingIsAbsorbed(env, provider, e, planned.pending, draft);
      } else {
        DecidedIsInTune(env, inputs, e, planned, draft, ItemKeys(planned.pending));
      }
    }
    AbsorbedKeys(env, planned.pending, draft);
    ProviderDomain(planned, draft, ItemKeys(planned.pending), Keys.KeysOf(entries));
    NoFallbackLeft(planned.fallback, entries);
  }

  lemma AbsorbedKeys(env: Env, items: seq<Item>, draft: Draft)
    requires Absorbed(env, items, draft)
    ensures ItemKeys(items) <= draft.flat.Keys
  {
  }

  lemma ProviderDomain(planned: Draft, draft: Draft, keys: set<string>, all: set<string>)
    requires planned.flat.Keys + keys == all && keys <= draft.flat.Keys
    requires forall key | key !in keys :: key in planned.flat <==> key in draft.flat
    ensures draft.flat.Keys == all
  {
  }

  lemma NoFallbackLeft(fallback: set<string>, entries: seq<Entry>)
    requires fallback <= Keys.KeysOf(entries) && forall e | e in entries :: e.key !in fallback
    ensures fallback == {}
  {
    forall key | key in Keys.KeysOf(entries) ensures key !in fallback {
      var e :| e in entries && e.key == key;
    }
  }

  // ----- one run, then the next -----

  lemma InputsAreGood(env: Env, disk: Disk, order: seq<CacheKey>)
    requires Enumerates(order, LoadTm(disk.tm))
    ensures GoodInputs(InputsOf(env, disk, order), env.locale)
    ensures forall h :: h in InputsOf(env, disk, order).byTextHash <==> HasText(LoadTm(disk.tm), env.locale, h)
  {
    var tm := LoadTm(disk.tm);
    forall h
      ensures h in ByTextHash(tm, order, env.locale) <==> HasText(tm, env.locale, h)
      ensures h in ByTextHash(tm, order, env.locale) ==>
                Eligible(ByTextHash(tm, order, env.locale)[h], env.locale)
                && ByTextHash(tm, order, env.locale)[h].textHash == h
    {
      ByTextHashIs(tm, order, env.locale, h);
    }
    forall ck | ck in tm && Eligible(tm[ck], env.locale)
      ensures tm[ck].textHash in ByTextHash(tm, order, env.locale)
    {
      ByTextHashIs(tm, order, env.locale, tm[ck].textHash);
    }
  }

  // The files of a locale agree with each other and with the source: the locale file has
  // exactly the source's keys with matching placeholders, the memory agrees with it, the
  // counts add up, and no text the memory knows is still in the ledger without its record.
  ghost predicate Settled(env: Env, source: Source, disk: Disk) {
    && disk.meta.Some?
    && var flat, meta, keys := Keys.Flatten(disk.locale, "", map[]), disk.meta.value, Keys.KeysOf(source.entries);
    && flat.Keys == keys
    && disk.locale == Keys.Rebuild(Localised(source.entries, flat))
    && PlaceholdersMatch(env, source.entries, flat)
    && NoBlanks(disk.tm)
    && (forall e | e in source.entries ::
          CacheKeyOf(env, e) in disk.tm ==> disk.tm[CacheKeyOf(env, e)].translated == flat[e.key])
    && meta.fallbackKeys <= keys
    && (forall e | e in source.entries && e.key in meta.fallbackKeys ::
          CacheKeyOf(env, e) in disk.tm || !HasText(disk.tm, env.locale, env.hash(e.text)))
    && meta == Meta(meta.fallbackKeys, env.locale, meta.provider, meta.model, source.digest,
                    |source.entries|, |keys - meta.fallbackKeys|, CONTROL_UI_I18N_WORKFLOW)
  }

  lemma {:induction false} KeysAreCounted(entries: seq<Entry>)
    requires Keys.DistinctKeys(entries)
    ensures |Keys.KeysOf(entries)| == |entries|
    decreases |entries|
  {
    if entries != [] {
      DistinctPrefix(entries);
      KeysAreCounted(entries[..|entries| - 1]);
    }
  }

  lemma CountsAddUp(keys: set<string>, part: set<string>)
    requires part <= keys
    ensures |keys - part| + |part| == |keys|
  {
    assert keys == (keys - part) + part;
  }

  lemma LocalisedKeys(entries: seq<Entry>, flat: map<string, string>)
    requires Keys.DistinctKeys(entries)
    ensures Keys.DistinctKeys(Localised(entries, flat))
    ensures Keys.KeysOf(Localised(entries, flat)) == Keys.KeysOf(entries)
  {
    var localised := Localised(entries, flat);
    assert forall i | 0 <= i < |entries| :: localised[i].key == entries[i].key;
    forall key ensures key in Keys.KeysOf(localised) <==> key in Keys.KeysOf(entries) {
      if e :| e in entries && e.key == key {
        var i :| 0 <= i < |entries| && entries[i] == e;
        assert localised[i] in localised;
      }
      if e :| e in localised && e.key == key {
        var i :| 0 <= i < |entries| && localised[i] == e;
        assert entries[i] in entries;
      }
    }
  }

  lemma LocalisedRoundTrip(entries: seq<Entry>, flat: map<string, string>)
    requires Keys.DistinctKeys(entries) && Keys.Recoverable(Keys.KeysOf(entries))
    requires flat.Keys == Keys.KeysOf(entries)
    ensures Keys.Flatten(Keys.Rebuild(Localised(entries, flat)), "", map[]) == flat
  {
    var localised := Localised(entries, flat);
    LocalisedKeys(entries, flat);
    Keys.RecoverableRoundTrip(localised);
    Keys.FlatMapIs(localised, Keys.Entry("", ""));
    forall key | key in flat ensures Keys.FlatMap(localised)[key] == flat[key] {
      var e :| e in localised && e.key == key;
      Keys.FlatMapIs(localised, e);
    }
  }

  ghost predicate GoodDraft(env: Env, source: Source, draft: Draft) {
    && draft.flat.Keys == Keys.KeysOf(source.entries) && draft.fallback <= Keys.KeysOf(source.entries)
    && NoBlanks(draft.tm)
    && (forall e | e in source.entries :: InTune(env, e, draft))
    && (forall e | e in source.entries && e.key in draft.fallback ::
          CacheKeyOf(env, e) in draft.tm || !HasText(draft.tm, env.locale, env.hash(e.text)))
  }

  lemma FinalIsGood(env: Env, source: Source, disk: Disk, order: seq<CacheKey>, force: bool, ask: Asker,
                    provider: Provider)
    requires Keys.DistinctKeys(source.entries) && Enumerates(order, LoadTm(disk.tm)) && Faithful(ask, provider)
    requires Final(env, InputsOf(env, disk, order), source.entries, force, ask).Ok?
    ensures GoodDraft(env, source, Final(env, InputsOf(env, disk, order), source.entries, force, ask).value)
    ensures env.allowTranslate ==>
              Final(env, InputsOf(env, disk, order), source.entries, force, ask).value.fallback == {}
  {
    var inputs := InputsOf(env, disk, order);
    InputsAreGood(env, disk, order);
    if env.allowTranslate {
      ForceChangesNothing(env, disk, source, order, force, false, ask, provider);
      var draft := WithProvider(env, inputs, source.entries, ask, provider);
      assert forall e | e in source.entries ::
        SettledWithProvider(env, inputs, provider, e, draft) ==> InTune(env, e, draft);
    } else {
      WithoutProvider(env, inputs, source.entries, force, ask);
      var draft := Final(env, inputs, source.entries, force, ask).value;
      forall e | e in source.entries && e.key in draft.fallback
        ensures CacheKeyOf(env, e) in draft.tm || !HasText(draft.tm, env.locale, env.hash(e.text))
      {
        assert SettledWithoutProvider(env, inputs, e, draft);
      }
    }
  }

  // The draft a run ends with does not depend on the force option: the branch it guards
  // would need a pending key with an existing value and no translation.
  lemma ForceChangesNothing(env: Env, disk: Disk, source: Source, order: seq<CacheKey>, force: bool, force': bool,
                            ask: Asker, provider: Provider)
    requires Keys.DistinctKeys(source.entries) && Enumerates(order, LoadTm(disk.tm)) && Faithful(ask, provider)
    ensures Final(env, InputsOf(env, disk, order), source.entries, force, ask)
         == Final(env, InputsOf(env, disk, order), source.entries, force', ask)
  {
    var inputs := InputsOf(env, disk, order);
    InputsAreGood(env, disk, order);
    var planned := Plan(env, inputs, source.entries);
    if env.allowTranslate {
      if Final(env, inputs, source.entries, false, ask).Ok? {
        var draft := WithProvider(env, inputs, source.entries, ask, provider);
      }
    } else {
      FillIgnoresForce(env, inputs, source.entries, force, force');
    }
  }

  lemma FillIgnoresForce(env: Env, inputs: Inputs, entries: seq<Entry>, force: bool, force': bool)
    requires Keys.DistinctKeys(entries) && !env.allowTranslate
    ensures var planned := Plan(env, inputs, entries);
            Fill(inputs, force, planned.pending, planned) == Fill(inputs, force', planned.pending, planned)
  {
    var planned := Plan(env, inputs, entries);
    forall item | item in planned.pending ensures item.key !in inputs.existing {
      PlanPends(env, inputs, entries, item);
    }
    FillWithoutExisting(inputs, force, force', planned.pending, planned);
  }

  lemma {:induction false} FillWithoutExisting(inputs: Inputs, force: bool, force': bool, items: seq<Item>,
                                               draft: Draft)
    requires forall item | item in items :: item.key !in inputs.existing
    ensures Fill(inputs, force, items, draft) == Fill(inputs, force', items, draft)
    decreases |items|
  {
    if items != [] {
      assert items[|items| - 1] in items;
      FillWithoutExisting(inputs, force, force', items[..|items| - 1], draft);
    }
  }

  lemma CompletedRun(env: Env, source: Source, disk: Disk, order: seq<CacheKey>, options: Options, ask: Asker)
    requires Enumerates(order, LoadTm(disk.tm))
    requires Sync(env, source, disk, order, options, ask).outcome.Done?
    ensures
      var final := Final(env, InputsOf(env, disk, order), source.entries, options.force, ask);
      var run := Sync(env, source, disk, order, options, ask);
      && final.Ok?
      && PlaceholdersMatch(env, source.entries, final.value.flat)
      && run == Finish(env, source, disk, options, final.value, run.prompts)
  {
  }

  lemma NextDiskIsSettled(env: Env, source: Source, disk: Disk, draft: Draft)
    requires Keys.DistinctKeys(source.entries) && Keys.Recoverable(Keys.KeysOf(source.entries))
    requires GoodDraft(env, source, draft) && PlaceholdersMatch(env, source.entries, draft.flat)
    ensures Settled(env, source, NextDisk(env, source, disk, draft))
    ensures Keys.Flatten(NextDisk(env, source, disk, draft).locale, "", map[]) == draft.flat
  {
    LocalisedRoundTrip(source.entries, draft.flat);
    KeysAreCounted(source.entries);
    CountsAddUp(Keys.KeysOf(source.entries), draft.fallback);
  }

  // A completed run that writes leaves settled files, and with a provider an empty ledger.
  lemma RunSettles(env: Env, source: Source, disk: Disk, order: seq<CacheKey>, options: Options, ask: Asker,
                   provider: Provider)
    requires Keys.DistinctKeys(source.entries) && Keys.Recoverable(Keys.KeysOf(source.entries))
    requires Enumerates(order, LoadTm(disk.tm)) && Faithful(ask, provider)
    requires options.write && !options.checkOnly
    requires Sync(env, source, disk, order, options, ask).outcome.Done?
    ensures
      var run := Sync(env, source, disk, order, options, ask);
      && Settled(env, source, run.disk)
      && Signed(env, run.disk.meta.value)
  {
    CompletedRun(env, source, disk, order, options, ask);
    FinalIsGood(env, source, disk, order, options.force, ask, provider);
    var draft := Final(env, InputsOf(env, disk, order), source.entries, options.force, ask).value;
    NextDiskIsSettled(env, source, disk, draft);
  }

  lemma {:induction false} PlanOfSettled(env: Env, inputs: Inputs, entries: seq<Entry>)
    requires Keys.DistinctKeys(entries) && Keys.KeysOf(entries) <= inputs.existing.Keys
    requires forall e | e in entries ::
        Choose(env, inputs, e) == Reuse(inputs.existing[e.key], e.key in inputs.fallback)
    ensures
      var keys := Keys.KeysOf(entries);
      Plan(env, inputs, entries) ==
        Draft(map key | key in keys :: inputs.existing[key], inputs.tm, [], keys * inputs.fallback)
    decreases |entries|
  {
    if entries != [] {
      DistinctPrefix(entries);
      assert entries[|entries| - 1] in entries;
      PlanOfSettled(env, inputs, entries[..|entries| - 1]);
    }
  }

  lemma ChooseWhenSettled(env: Env, inputs: Inputs, tm: Memory, e: Entry)
    requires inputs.tm == tm && e.key in inputs.existing
    requires CacheKeyOf(env, e) in tm ==> tm[CacheKeyOf(env, e)].translated == inputs.existing[e.key]
    requires e.key in inputs.fallback ==> CacheKeyOf(env, e) in tm || env.hash(e.text) !in inputs.byTextHash
    requires env.allowTranslate ==> inputs.fallback == {}
    ensures Choose(env, inputs, e) == Reuse(inputs.existing[e.key], e.key in inputs.fallback)
  {
  }

  // What a run over settled files needs to be a second run: the provider, if there is one,
  // already emptied the ledger and signed the files.
  ghost predicate Signed(env: Env, meta: Meta) {
    env.allowTranslate ==> meta.fallbackKeys == {} && meta.provider == env.provider && meta.model == env.model
  }

  lemma ChoicesWhenSettled(env: Env, source: Source, disk: Disk, order: seq<CacheKey>)
    requires Settled(env, source, disk) && Enumerates(order, LoadTm(disk.tm)) && Signed(env, disk.meta.value)
    ensures
      var inputs := InputsOf(env, disk, order);
      && inputs.tm == disk.tm && Keys.KeysOf(source.entries) == inputs.existing.Keys
      && inputs.fallback <= Keys.KeysOf(source.entries)
      && forall e | e in source.entries ::
        Choose(env, inputs, e) == Reuse(inputs.existing[e.key], e.key in inputs.fallback)
  {
    var inputs := InputsOf(env, disk, order);
    assert inputs.tm == LoadTm(disk.tm) == disk.tm;
    InputsAreGood(env, disk, order);
    forall e | e in source.entries
      ensures Choose(env, inputs, e) == Reuse(inputs.existing[e.key], e.key in inputs.fallback)
    {
      assert e.key in Keys.KeysOf(source.entries);
      ChooseWhenSettled(env, inputs, disk.tm, e);
    }
  }

  lemma PlanOfAllSettled(env: Env, inputs: Inputs, entries: seq<Entry>)
    requires Keys.DistinctKeys(entries) && Keys.KeysOf(entries) == inputs.existing.Keys
    requires inputs.fallback <= Keys.KeysOf(entries)
    requires forall e | e in entries ::
        Choose(env, inputs, e) == Reuse(inputs.existing[e.key], e.key in inputs.fallback)
    ensures Plan(env, inputs, entries) == Draft(inputs.existing, inputs.tm, [], inputs.fallback)
  {
    PlanOfSettled(env, inputs, entries);
    assert (map key | key in Keys.KeysOf(entries) :: inputs.existing[key]) == inputs.existing;
    assert Keys.KeysOf(entries) * inputs.fallback == inputs.fallback;
  }

  lemma PlanWhenSettled(env: Env, source: Source, disk: Disk, order: seq<CacheKey>)
    requires Keys.DistinctKeys(source.entries)
    requires Settled(env, source, disk) && Enumerates(order, LoadTm(disk.tm)) && Signed(env, disk.meta.value)
    ensures Plan(env, InputsOf(env, disk, order), source.entries)
         == Draft(Keys.Flatten(disk.locale, "", map[]), disk.tm, [], disk.meta.value.fallbackKeys)
  {
    ChoicesWhenSettled(env, source, disk, order);
    PlanOfAllSettled(env, InputsOf(env, disk, order), source.entries);
  }

  lemma NextDiskWhenSettled(env: Env, source: Source, disk: Disk)
    requires Keys.DistinctKeys(source.entries) && Settled(env, source, disk) && Signed(env, disk.meta.value)
    ensures NextDisk(env, source, disk,
                     Draft(Keys.Flatten(disk.locale, "", map[]), disk.tm, [], disk.meta.value.fallbackKeys)) == disk
  {
    KeysAreCounted(source.entries);
    var keys, fallback := Keys.KeysOf(source.entries), disk.meta.value.fallbackKeys;
    CountsAddUp(keys, fallback);
  }

  lemma SyncWithNothingPending(env: Env, source: Source, disk: Disk, order: seq<CacheKey>, options: Options, ask: Asker,
                               draft: Draft)
    requires Enumerates(order, LoadTm(disk.tm)) && draft.pending == []
    requires Plan(env, InputsOf(env, disk, order), source.entries) == draft
    ensures Sync(env, source, disk, order, options, ask) == Finish(env, source, disk, options, draft, 0)
  {
  }

  // Settled files are left alone: nothing changes and the provider, whatever it would say,
  // is not asked.
  lemma SettledIsStable(env: Env, source: Source, disk: Disk, order: seq<CacheKey>, options: Options, ask: Asker)
    requires Keys.DistinctKeys(source.entries)
    requires Settled(env, source, disk) && Enumerates(order, LoadTm(disk.tm)) && Signed(env, disk.meta.value)
    ensures Sync(env, source, disk, order, options, ask)
         == Run(Done(false, |disk.meta.value.fallbackKeys|, false), disk, 0)
  {
    var draft := Draft(Keys.Flatten(disk.locale, "", map[]), disk.tm, [], disk.meta.value.fallbackKeys);
    PlanWhenSettled(env, source, disk, order);
    NextDiskWhenSettled(env, source, disk);
    SyncWithNothingPending(env, source, disk, order, options, ask, draft);
  }

  lemma SettledWhateverProvider(env: Env, source: Source, disk: Disk, allow: bool)
    requires Settled(env, source, disk)
    ensures Settled(env.(allowTranslate := allow), source, disk)
  {
    var env' := env.(allowTranslate := allow);
    forall e: Entry ensures CacheKeyOf(env', e) == CacheKeyOf(env, e) {}
  }

  // Syncing converges in one run. With the source and the configured provider and model
  // unchanged, the run after a completed run changes nothing and makes no prompt, whatever
  // its options and the order in which it reads the memory, as long as it does not bring in
  // a provider the first run lacked.
  lemma SyncConverges(env: Env, source: Source, disk: Disk, order: seq<CacheKey>, options: Options, ask: Asker,
                      provider: Provider, run: Run, allow: bool, order': seq<CacheKey>, options': Options, ask': Asker)
    requires Keys.DistinctKeys(source.entries) && Keys.Recoverable(Keys.KeysOf(source.entries))
    requires Enumerates(order, LoadTm(disk.tm)) && Faithful(ask, provider)
    requires run == Sync(env, source, disk, order, options, ask) && run.outcome.Done?
    requires options.write && !options.checkOnly
    requires allow ==> env.allowTranslate
    requires Enumerates(order', LoadTm(run.disk.tm))
    ensures Sync(env.(allowTranslate := allow), source, run.disk, order', options', ask')
         == Run(Done(false, run.outcome.fallbackCount, false), run.disk, 0)
  {
    RunSettles(env, source, disk, order, options, ask, provider);
    FallbacksAreCounted(env, source, disk, order, options, ask);
    SettledWhateverProvider(env, source, run.disk, allow);
    SettledIsStable(env.(allowTranslate := allow), source, run.disk, order', options', ask');
  }

  lemma FallbacksAreCounted(env: Env, source: Source, disk: Disk, order: seq<CacheKey>, options: Options, ask: Asker)
    requires Enumerates(order, LoadTm(disk.tm))
    requires options.write && !options.checkOnly
    requires Sync(env, source, disk, order, options, ask).outcome.Done?
    ensures
      var run := Sync(env, source, disk, order, options, ask);
      run.disk.meta.Some? && run.outcome.fallbackCount == |run.disk.meta.value.fallbackKeys|
  {
    CompletedRun(env, source, disk, order, options, ask);
  }

  // What one key comes to. Its value is the one known, by ValueRule, or else, if one must be
  // found, what the provider said, or without a provider English. With a provider it is no
  // fallback, without one it is exactly by LedgerRule. Its record is by RecordRule.
  ghost predicate KeyIsAccounted(env: Env, inputs: Inputs, provider: Provider, e: Entry, flat: map<string, string>,
                                 fallback: set<string>, tm: Memory) {
    && e.key in flat
    && ValueRule(env, inputs, e, flat[e.key])
    && (e.key in fallback <==> !env.allowTranslate && LedgerRule(env, inputs, e))
    && (MustFind(env, inputs, e) ==>
          if env.allowTranslate then !Blank(flat[e.key]) && SaidBy(provider, e.key, flat[e.key])
          else flat[e.key] == e.text && e.key in fallback)
    && RecordRule(env, inputs, e, flat[e.key], tm)
  }

  ghost predicate AllAccounted(env: Env, inputs: Inputs, provider: Provider, entries: seq<Entry>,
                               flat: map<string, string>, fallback: set<string>, tm: Memory) {
    forall e | e in entries :: KeyIsAccounted(env, inputs, provider, e, flat, fallback, tm)
  }

  predicate SameRecord(ck: CacheKey, a: Memory, b: Memory) {
    (ck in a <==> ck in b) && (ck in a ==> a[ck] == b[ck])
  }

  // Records that are not those of the source's present texts are left alone.
  ghost predicate OthersKept(env: Env, entries: seq<Entry>, before: Memory, after: Memory) {
    forall ck | (forall e | e in entries :: CacheKeyOf(env, e) != ck) :: SameRecord(ck, before, after)
  }

  // Who the files name as their translator: the one configured, or without one whoever did
  // before.
  predicate SignedAs(env: Env, before: Option<Meta>, meta: Meta) {
    if env.allowTranslate then meta.provider == env.provider && meta.model == env.model
    else if before.Some? then meta.provider == before.value.provider && meta.model == before.value.model
    else meta.provider == "" && meta.model == ""
  }

  // What a run leaves that found `before`: the locale file has exactly the source's keys, the
  // ledger is part of them, the counts add up, every key is accounted for, and no other record
  // is touched.
  ghost predicate ExactLedger(env: Env, inputs: Inputs, provider: Provider, source: Source, before: Disk, disk: Disk) {
    && disk.meta.Some?
    && var flat, meta, keys := Keys.Flatten(disk.locale, "", map[]), disk.meta.value, Keys.KeysOf(source.entries);
    && flat.Keys == keys && meta.fallbackKeys <= keys
    && meta.totalKeys == |source.entries|
    && meta.translatedKeys + |meta.fallbackKeys| == meta.totalKeys
    && meta.translatedKeys == |keys - meta.fallbackKeys|
    && meta.locale == env.locale && meta.sourceHash == source.digest && meta.workflow == 1
    && SignedAs(env, before.meta, meta)
    && AllAccounted(env, inputs, provider, source.entries, flat, meta.fallbackKeys, disk.tm)
    && OthersKept(env, source.entries, inputs.tm, disk.tm)
  }

  lemma NextDiskLedger(env: Env, inputs: Inputs, provider: Provider, source: Source, disk: Disk, draft: Draft)
    requires Keys.DistinctKeys(source.entries) && Keys.Recoverable(Keys.KeysOf(source.entries))
    requires GoodDraft(env, source, draft)
    requires AllAccounted(env, inputs, provider, source.entries, draft.flat, draft.fallback, draft.tm)
    requires OthersKept(env, source.entries, inputs.tm, draft.tm)
    ensures ExactLedger(env, inputs, provider, source, disk, NextDisk(env, source, disk, draft))
  {
    LocalisedRoundTrip(source.entries, draft.flat);
    KeysAreCounted(source.entries);
    CountsAddUp(Keys.KeysOf(source.entries), draft.fallback);
  }

  lemma {:induction false} PlanKeepsRecord(env: Env, inputs: Inputs, entries: seq<Entry>, ck: CacheKey)
    requires forall e | e in entries :: CacheKeyOf(env, e) != ck
    ensures SameRecord(ck, inputs.tm, Plan(env, inputs, entries).tm)
    decreases |entries|
  {
    if entries != [] {
      assert entries[|entries| - 1] in entries;
      PlanKeepsRecord(env, inputs, entries[..|entries| - 1], ck);
    }
  }

  lemma {:induction false} AbsorbKeepsRecord(env: Env, items: seq<Item>, values: map<string, string>, draft: Draft,
                                             ck: CacheKey)
    requires forall item | item in items :: item.cacheKey != ck
    ensures SameRecord(ck, draft.tm, Absorb(env, items, values, draft).tm)
    decreases |items|
  {
    if items != [] {
      assert items[|items| - 1] in items;
      AbsorbKeepsRecord(env, items[..|items| - 1], values, draft, ck);
    }
  }

  lemma {:induction false} BatchesKeepRecord(env: Env, ask: Asker, first: nat, batches: seq<seq<Item>>, draft: Draft,
                                             ck: CacheKey)
    requires forall item | item in Flatten(batches) :: item.cacheKey != ck
    requires TranslateBatches(env, ask, first, batches, draft).0.Ok?
    ensures SameRecord(ck, draft.tm, TranslateBatches(env, ask, first, batches, draft).0.value.tm)
    decreases |batches|
  {
    if batches != [] {
      assert Flatten(batches) == batches[0] + Flatten(batches[1..]);
      var (one, next) := TranslateOne(env, ask, first, batches[0], draft);
      AbsorbKeepsRecord(env, batches[0], Translate(ask, first, batches[0], 0).result.value, draft, ck);
      BatchesKeepRecord(env, ask, next, batches[1..], one.value, ck);
    }
  }

  lemma {:induction false} FillKeepsMemory(inputs: Inputs, force: bool, items: seq<Item>, draft: Draft)
    ensures Fill(inputs, force, items, draft).tm == draft.tm
    decreases |items|
  {
    if items != [] {
      FillKeepsMemory(inputs, force, items[..|items| - 1], draft);
    }
  }

  lemma FinalKeepsRecord(env: Env, inputs: Inputs, entries: seq<Entry>, force: bool, ask: Asker, ck: CacheKey)
    requires Final(env, inputs, entries, force, ask).Ok?
    requires forall e | e in entries :: CacheKeyOf(env, e) != ck
    ensures SameRecord(ck, inputs.tm, Final(env, inputs, entries, force, ask).value.tm)
  {
    var planned := Plan(env, inputs, entries);
    PlanKeepsRecord(env, inputs, entries, ck);
    forall item | item in planned.pending ensures item.cacheKey != ck {
      PlanPends(env, inputs, entries, item);
    }
    if env.allowTranslate && planned.pending != [] {
      GreedyIsFewest(planned.pending, env.budget);
      BatchesKeepRecord(env, ask, 0, Greedy(planned.pending, env.budget), planned, ck);
      FillKeepsMemory(inputs, force, planned.pending,
                      TranslateBatches(env, ask, 0, Greedy(planned.pending, env.budget), planned).0.value);
    } else {
      FillKeepsMemory(inputs, force, planned.pending, planned);
    }
  }

  // A completed, writing run leaves an exact ledger exactly when the source's keys can be
  // nested and read back.
  lemma LedgerIsExact(env: Env, source: Source, disk: Disk, order: seq<CacheKey>, options: Options, ask: Asker,
                      provider: Provider, run: Run)
    requires Keys.DistinctKeys(source.entries)
    requires Enumerates(order, LoadTm(disk.tm)) && Faithful(ask, provider)
    requires run == Sync(env, source, disk, order, options, ask) && run.outcome.Done?
    requires options.write && !options.checkOnly
    ensures ExactLedger(env, InputsOf(env, disk, order), provider, source, disk, run.disk)
       <==> Keys.Recoverable(Keys.KeysOf(source.entries))
  {
    CompletedRun(env, source, disk, order, options, ask);
    FinalIsGood(env, source, disk, order, options.force, ask, provider);
    InputsAreGood(env, disk, order);
    var inputs := InputsOf(env, disk, order);
    var draft := Final(env, inputs, source.entries, options.force, ask).value;
    if Keys.Recoverable(Keys.KeysOf(source.entries)) {
      FinalLedger(env, inputs, source.entries, options.force, ask, provider);
      NextDiskLedger(env, inputs, provider, source, disk, draft);
    }
    if ExactLedger(env, inputs, provider, source, disk, NextDisk(env, source, disk, draft)) {
      LocalisedKeys(source.entries, draft.flat);
      Keys.RoundTripIsRecoverable(Localised(source.entries, draft.flat));
    }
  }

  lemma FinalLedger(env: Env, inputs: Inputs, entries: seq<Entry>, force: bool, ask: Asker, provider: Provider)
    requires Keys.DistinctKeys(entries) && GoodInputs(inputs, env.locale) && Faithful(ask, provider)
    requires Final(env, inputs, entries, force, ask).Ok?
    ensures
      var draft := Final(env, inputs, entries, force, ask).value;
      && AllAccounted(env, inputs, provider, entries, draft.flat, draft.fallback, draft.tm)
      && OthersKept(env, entries, inputs.tm, draft.tm)
  {
    if env.allowTranslate {
      var draft := WithProvider(env, inputs, entries, ask, provider);
      forall e | e in entries
        ensures SettledWithProvider(env, inputs, provider, e, draft)
      {
      }
    } else {
      WithoutProvider(env, inputs, entries, force, ask);
      forall e | e in entries
        ensures SettledWithoutProvider(env, inputs, e, Final(env, inputs, entries, force, ask).value)
      {
      }
    }
    forall ck | (forall e | e in entries :: CacheKeyOf(env, e) != ck)
      ensures SameRecord(ck, inputs.tm, Final(env, inputs, entries, force, ask).value.tm)
    {
      FinalKeepsRecord(env, inputs, entries, force, ask, ck);
    }
  }

  // The force option never changes what a run does.
  lemma ForceIsInert(env: Env, source: Source, disk: Disk, order: seq<CacheKey>, options: Options, ask: Asker,
                     provider: Provider)
    requires Keys.DistinctKeys(source.entries) && Enumerates(order, LoadTm(disk.tm)) && Faithful(ask, provider)
    ensures Sync(env, source, disk, order, options.(force := true), ask)
         == Sync(env, source, disk, order, options.(force := false), ask)
  {
    var inputs := InputsOf(env, disk, order);
    ForceChangesNothing(env, disk, source, order, true, false, ask, provider);
    var planned := Plan(env, inputs, source.entries);
    if env.allowTranslate && planned.pending != [] {
      var (translated, prompts) := TranslateBatches(env, ask, 0, Greedy(planned.pending, env.budget), planned);
    }
  }

  // How many batches are translated, the one that gives up included.
  function Attempted(env: Env, ask: Asker, first: nat, batches: seq<seq<Item>>, draft: Draft): nat
    decreases |batches|
  {
    if batches == [] then 0
    else
      var (one, next) := TranslateOne(env, ask, first, batches[0], draft);
      if one.Err? then 1 else 1 + Attempted(env, ask, next, batches[1..], one.value)
  }

  lemma {:induction false} BatchesPrompt(env: Env, ask: Asker, first: nat, batches: seq<seq<Item>>, draft: Draft)
    requires forall i | 0 <= i < |batches| :: batches[i] != []
    ensures
      var attempted := Attempted(env, ask, first, batches, draft);
      && attempted <= |batches| && (batches != [] ==> attempted >= 1)
      && TranslateBatches(env, ask, first, batches, draft).1 <= first + 4 * |Flatten(batches)| - 2 * attempted
      && (TranslateBatches(env, ask, first, batches, draft).0.Ok? ==> attempted == |batches|)
    decreases |batches|
  {
    if batches != [] {
      TranslateIsBounded(ask, first, batches[0], 0);
      var (one, next) := TranslateOne(env, ask, first, batches[0], draft);
      if one.Ok? {
        BatchesPrompt(env, ask, next, batches[1..], one.value);
      }
    }
  }

  // Four prompts per pending key at most, less two for every batch attempted; none without a
  // provider or pending keys.
  function MostPrompts(env: Env, ask: Asker, planned: Draft): int {
    if env.allowTranslate && planned.pending != [] then
      4 * |planned.pending| - 2 * Attempted(env, ask, 0, Greedy(planned.pending, env.budget), planned)
    else 0
  }

  lemma RunIsBounded(env: Env, source: Source, disk: Disk, order: seq<CacheKey>, options: Options, ask: Asker)
    requires Enumerates(order, LoadTm(disk.tm))
    ensures
      var planned := Plan(env, InputsOf(env, disk, order), source.entries);
      && Sync(env, source, disk, order, options, ask).prompts <= MostPrompts(env, ask, planned)
      && (planned.pending != [] ==> MostPrompts(env, ask, planned) <= 4 * |planned.pending| - 2)
  {
    var planned := Plan(env, InputsOf(env, disk, order), source.entries);
    if env.allowTranslate && planned.pending != [] {
      PendingPrompts(env, ask, planned);
    }
  }

  lemma PendingPrompts(env: Env, ask: Asker, planned: Draft)
    requires env.allowTranslate && planned.pending != []
    ensures TranslateBatches(env, ask, 0, Greedy(planned.pending, env.budget), planned).1
        <= MostPrompts(env, ask, planned)
    ensures MostPrompts(env, ask, planned) <= 4 * |planned.pending| - 2
  {
    var batches := Greedy(planned.pending, env.budget);
    GreedyIsFewest(planned.pending, env.budget);
    assert Flatten(batches) == planned.pending;
    BatchesPrompt(env, ask, 0, batches, planned);
  }

  // A run reports having written exactly when a file changed, and one that is not asked to
  // write changes none.
  ghost predicate WritesAsReported(disk: Disk, options: Options, run: Run) {
    && (!run.outcome.Done? || !options.write || options.checkOnly ==> run.disk == disk)
    && (run.outcome.Done? && run.outcome.wrote <==> run.disk != disk)
  }

  lemma FinishWritesAsReported(env: Env, source: Source, disk: Disk, options: Options, draft: Draft, prompts: nat)
    ensures WritesAsReported(disk, options, Finish(env, source, disk, options, draft, prompts))
  {
  }

  // Whatever happens in a run, it writes as reported; one that does not complete leaves every
  // file as it was.
  lemma OnlyWritesWhatItReports(env: Env, source: Source, disk: Disk, order: seq<CacheKey>, options: Options,
                                ask: Asker)
    requires Enumerates(order, LoadTm(disk.tm))
    ensures WritesAsReported(disk, options, Sync(env, source, disk, order, options, ask))
  {
    var inputs := InputsOf(env, disk, order);
    var planned := Plan(env, inputs, source.entries);
    if env.allowTranslate && planned.pending != [] {
      var (translated, prompts) := TranslateBatches(env, ask, 0, Greedy(planned.pending, env.budget), planned);
      if translated.Ok? {
        FinishWritesAsReported(env, source, disk, options,
                               Fill(inputs, options.force, planned.pending, translated.value), prompts);
      }
    } else {
      FinishWritesAsReported(env, source, disk, options, Fill(inputs, options.force, planned.pending, planned), 0);
    }
  }
}
