/**
 What one locale run reads, whom it asks for what, how it ends and what it reports.
 */
module SyncRuns {
  import opened Wrappers
  import opened Text
  import opened TranslationBatches
  import opened BatchTranslation
  import opened TranslationSync
  import opened SyncConvergence
  import Keys = TranslationKeys

  // ----- what a run reads -----

  // Records without a translation do not count, the ledger is the last one written, and of the
  // records of a text the last one in reading order is found.
  ghost predicate ReadFrom(env: Env, disk: Disk, order: seq<CacheKey>, inputs: Inputs) {
    && (forall ck :: ck in inputs.tm <==> ck in disk.tm && !Blank(disk.tm[ck].translated))
    && (forall ck | ck in inputs.tm :: inputs.tm[ck] == disk.tm[ck])
    && inputs.existing == Keys.Flatten(disk.locale, "", map[])
    && inputs.fallback == (if disk.meta.Some? then disk.meta.value.fallbackKeys else {})
    && (forall h :: h in inputs.byTextHash <==> HasText(inputs.tm, env.locale, h))
    && (forall h | h in inputs.byTextHash :: FoundLast(env, order, inputs, h))
  }

  ghost predicate FoundLast(env: Env, order: seq<CacheKey>, inputs: Inputs, textHash: string)
    requires textHash in inputs.byTextHash
  {
    exists i ::
      && 0 <= i < |order| && order[i] in inputs.tm && inputs.byTextHash[textHash] == inputs.tm[order[i]]
      && HasThisText(inputs.tm[order[i]], env.locale, textHash)
      && forall j | i < j < |order| :: order[j] in inputs.tm ==> !HasThisText(inputs.tm[order[j]], env.locale, textHash)
  }

  // A translation into this language of a text with this digest.
  predicate HasThisText(entry: TmEntry, locale: string, textHash: string) {
    entry.tgtLang == locale && entry.textHash == textHash && textHash != "" && !Blank(entry.translated)
  }

  lemma InputsAre(env: Env, disk: Disk, order: seq<CacheKey>)
    requires Enumerates(order, LoadTm(disk.tm))
    ensures ReadFrom(env, disk, order, InputsOf(env, disk, order))
  {
    var inputs := InputsOf(env, disk, order);
    InputsAreGood(env, disk, order);
    forall h | h in inputs.byTextHash
      ensures FoundLast(env, order, inputs, h)
    {
      var i := LastRecordWins(inputs.tm, order, env.locale, h);
      assert HasThisText(inputs.tm[order[i]], env.locale, h);
    }
  }

  lemma {:induction false} UpToBar(a: string, b: string, x: string, y: string)
    requires '|' !in a && '|' !in b && a + "|" + x == b + "|" + y
    ensures a == b && x == y
  {
    if a == "" || b == "" {
      assert (a + "|" + x)[0] == (b + "|" + y)[0];
      assert a == b == "";
      assert ("|" + x)[1..] == x && ("|" + y)[1..] == y && a + "|" + x == "|" + x && b + "|" + y == "|" + y;
    } else {
      assert (a + "|" + x)[0] == a[0] && (b + "|" + y)[0] == b[0];
      assert (a + "|" + x)[1..] == a[1..] + "|" + x && (b + "|" + y)[1..] == b[1..] + "|" + y;
      UpToBar(a[1..], b[1..], x, y);
      assert a == [a[0]] + a[1..] && b == [b[0]] + b[1..];
    }
  }

  // Records of different translators, languages, keys or texts are never taken for one another.
  // The known providers' names have no bar in them.
  lemma CacheKeysAreApart(a: Env, b: Env, e: Entry, f: Entry)
    requires '|' !in a.provider && '|' !in b.provider && CacheKeyOf(a, e) == CacheKeyOf(b, f)
    ensures a.provider == b.provider && a.model == b.model && a.locale == b.locale
    ensures e.key == f.key && a.hash(e.text) == b.hash(f.text)
  {
    var head := "wf=1|engine=openclaw-llm|provider=";
    var x, y := "model=" + a.model, "model=" + b.model;
    assert CacheNamespace(a) == head + (a.provider + "|" + x);
    assert CacheNamespace(b) == head + (b.provider + "|" + y);
    SameTail(head, a.provider + "|" + x, b.provider + "|" + y);
    UpToBar(a.provider, b.provider, x, y);
    SameTail("model=", a.model, b.model);
  }

  lemma SameTail(head: string, x: string, y: string)
    requires head + x == head + y
    ensures x == y
  {
    assert (head + x)[|head|..] == x && (head + y)[|head|..] == y;
  }

  // ----- whom it asks for what -----

  // The items of the keys a text must be found for, in the source's order.
  function ToFind(env: Env, inputs: Inputs, entries: seq<Entry>): seq<Item> {
    if entries == [] then []
    else
      var last := entries[|entries| - 1];
      ToFind(env, inputs, entries[..|entries| - 1])
      + if MustFind(env, inputs, last) then
          [Item(CacheKeyOf(env, last), last.key, last.text, env.hash(last.text))]
        else []
  }

  // Exactly these are pending.
  lemma {:induction false} PendingIsToFind(env: Env, inputs: Inputs, entries: seq<Entry>)
    ensures Plan(env, inputs, entries).pending == ToFind(env, inputs, entries)
    decreases |entries|
  {
    if entries != [] {
      PendsExactly(env, inputs, entries[|entries| - 1]);
      PendingIsToFind(env, inputs, entries[..|entries| - 1]);
    }
  }

  // Two providers reply alike to all prompts about these items only.
  ghost predicate AlikeOn(a: Asker, b: Asker, items: seq<Item>) {
    forall number: nat, attempt: nat, asked: seq<Item> {:trigger a(number, attempt, asked)} ::
      (forall item | item in asked :: item in items) ==> a(number, attempt, asked) == b(number, attempt, asked)
  }

  lemma {:induction false} TranslateAlike(a: Asker, b: Asker, first: nat, items: seq<Item>, attempt: nat)
    requires attempt < TRANSLATE_MAX_ATTEMPTS && AlikeOn(a, b, items)
    ensures Translate(a, first, items, attempt) == Translate(b, first, items, attempt)
    decreases |items|, TRANSLATE_MAX_ATTEMPTS - attempt
  {
    match a(first, attempt, items)
    case Translated(_) =>
    case TimedOut(_) =>
      if |items| > 1 {
        HalvesAlike(a, b, first, items);
      }
    case Failed(_) =>
      if attempt + 1 < TRANSLATE_MAX_ATTEMPTS {
        TranslateAlike(a, b, first + 1, items, attempt + 1);
      }
  }

  lemma {:induction false} HalvesAlike(a: Asker, b: Asker, first: nat, items: seq<Item>)
    requires |items| > 1 && AlikeOn(a, b, items)
    ensures TranslateHalves(a, first, items) == TranslateHalves(b, first, items)
    decreases |items|, 0
  {
    var midpoint := (|items| + 1) / 2;
    TranslateAlike(a, b, first + 1, items[..midpoint], 0);
    var left := Translate(a, first + 1, items[..midpoint], 0);
    TranslateAlike(a, b, first + 1 + left.prompts, items[midpoint..], 0);
  }

  lemma {:induction false} BatchesAlike(env: Env, a: Asker, b: Asker, first: nat, batches: seq<seq<Item>>, draft: Draft)
    requires AlikeOn(a, b, Flatten(batches))
    ensures TranslateBatches(env, a, first, batches, draft) == TranslateBatches(env, b, first, batches, draft)
    decreases |batches|
  {
    if batches != [] {
      assert Flatten(batches) == batches[0] + Flatten(batches[1..]);
      TranslateAlike(a, b, first, batches[0], 0);
      var (one, next) := TranslateOne(env, a, first, batches[0], draft);
      if one.Ok? {
        BatchesAlike(env, a, b, next, batches[1..], one.value);
      }
    }
  }

  // A run asks for nothing but the keys it must find: whatever two providers would say about
  // anything else, it goes the same.
  lemma AsksOnlyForWhatItMustFind(env: Env, source: Source, disk: Disk, order: seq<CacheKey>, options: Options,
                                  a: Asker, b: Asker)
    requires Enumerates(order, LoadTm(disk.tm))
    requires AlikeOn(a, b, ToFind(env, InputsOf(env, disk, order), source.entries))
    ensures Sync(env, source, disk, order, options, a) == Sync(env, source, disk, order, options, b)
  {
    var planned := Plan(env, InputsOf(env, disk, order), source.entries);
    PendingIsToFind(env, InputsOf(env, disk, order), source.entries);
    PendingAlike(env, a, b, planned);
  }

  lemma PendingAlike(env: Env, a: Asker, b: Asker, planned: Draft)
    requires AlikeOn(a, b, planned.pending)
    ensures TranslateBatches(env, a, 0, Greedy(planned.pending, env.budget), planned)
         == TranslateBatches(env, b, 0, Greedy(planned.pending, env.budget), planned)
  {
    GreedyIsFewest(planned.pending, env.budget);
    BatchesAlike(env, a, b, 0, Greedy(planned.pending, env.budget), planned);
  }

  // ----- how it ends -----

  predicate IsAuthPhrase(phrase: string) {
    phrase == "401" || phrase == "authentication_error" || phrase == "incorrect api key" || phrase == "invalid x-api-key"
  }

  // An error is one of credentials exactly when its message, in lower case, has one of four
  // phrases in it.
  lemma AuthErrorsAre(message: string)
    ensures IsProviderAuthError(message) <==>
              exists before, phrase, after :: IsAuthPhrase(phrase) && ToLower(message) == before + phrase + after
  {
    if IsProviderAuthError(message) {
      var phrase := AuthPhraseIn(message);
      IncludesIs(ToLower(message), phrase);
    }
    if before, phrase, after :| IsAuthPhrase(phrase) && ToLower(message) == before + phrase + after {
      IncludesIs(ToLower(message), phrase);
    }
  }

  lemma AuthPhraseIn(message: string) returns (phrase: string)
    requires IsProviderAuthError(message)
    ensures IsAuthPhrase(phrase) && Includes(ToLower(message), phrase)
  {
    var m := ToLower(message);
    phrase := if Includes(m, "401") then "401"
              else if Includes(m, "authentication_error") then "authentication_error"
              else if Includes(m, "incorrect api key") then "incorrect api key" else "invalid x-api-key";
  }

  // Unless all is translated, the last prompt got a hopeless reply with the message given.
  ghost predicate FailsAtLast(ask: Asker, first: nat, items: seq<Item>, result: Result<Draft, string>, next: nat) {
    result.Err? ==> next > first && HopelessAt(ask, next - 1, items, result.error)
  }

  lemma OneGivesUp(env: Env, ask: Asker, first: nat, batch: seq<Item>, draft: Draft)
    ensures
      var (result, next) := TranslateOne(env, ask, first, batch, draft);
      next >= first && FailsAtLast(ask, first, batch, result, next)
  {
    GivesUpWhenHopeless(ask, first, batch, 0);
  }

  lemma {:induction false} BatchesGiveUp(env: Env, ask: Asker, first: nat, batches: seq<seq<Item>>, draft: Draft)
    ensures
      var (result, next) := TranslateBatches(env, ask, first, batches, draft);
      FailsAtLast(ask, first, Flatten(batches), result, next)
    decreases |batches|
  {
    if batches != [] {
      assert Flatten(batches) == batches[0] + Flatten(batches[1..]);
      var (one, next) := TranslateOne(env, ask, first, batches[0], draft);
      OneGivesUp(env, ask, first, batches[0], draft);
      if one.Ok? {
        BatchesGiveUp(env, ask, next, batches[1..], one.value);
      }
    }
  }

  // The run's last prompt, about keys it must find, got a reply after which nothing is tried
  // any more, with this message.
  ghost predicate ProviderFailed(env: Env, inputs: Inputs, source: Source, ask: Asker, run: Run, message: string) {
    && env.allowTranslate && run.prompts > 0
    && HopelessAt(ask, run.prompts - 1, ToFind(env, inputs, source.entries), message)
  }

  // The run's values for all keys, by the rules for them, keep every text's placeholders, or
  // not.
  ghost predicate Valued(env: Env, inputs: Inputs, provider: Provider, source: Source, agree: bool) {
    exists flat, fallback, tm ::
      && AllAccounted(env, inputs, provider, source.entries, flat, fallback, tm)
      && (agree <==> forall e | e in source.entries :: env.placeholders(e.text) == env.placeholders(flat[e.key]))
  }

  // A run is skipped or throws for the provider's last message, throws for a mismatch of
  // placeholders, and else is done.
  ghost predicate EndsAs(env: Env, inputs: Inputs, source: Source, disk: Disk, ask: Asker, provider: Provider,
                         run: Run) {
    match run.outcome
    case AuthSkipped(count) =>
      && env.authOptional && count == |inputs.fallback|
      && exists message :: ProviderFailed(env, inputs, source, ask, run, message) && IsProviderAuthError(message)
    case Threw(message) =>
      || (ProviderFailed(env, inputs, source, ask, run, message)
          && !(env.authOptional && IsProviderAuthError(message)))
      || (message == "placeholder mismatch" && Valued(env, inputs, provider, source, false))
    case Done(_, _, _) =>
      Valued(env, inputs, provider, source, true)
  }

  lemma RunEnds(env: Env, source: Source, disk: Disk, order: seq<CacheKey>, options: Options, ask: Asker,
                provider: Provider, run: Run)
    requires Keys.DistinctKeys(source.entries) && Enumerates(order, LoadTm(disk.tm)) && Faithful(ask, provider)
    requires run == Sync(env, source, disk, order, options, ask)
    ensures EndsAs(env, InputsOf(env, disk, order), source, disk, ask, provider, run)
  {
    var inputs := InputsOf(env, disk, order);
    var final := Final(env, inputs, source.entries, options.force, ask);
    InputsAreGood(env, disk, order);
    if final.Ok? {
      FinalLedger(env, inputs, source.entries, options.force, ask, provider);
      FinishedEnds(env, inputs, source, disk, options, ask, provider, final.value, run);
    } else {
      var message := FailedRun(env, source, disk, order, options, ask, run);
    }
  }

  lemma FinishedEnds(env: Env, inputs: Inputs, source: Source, disk: Disk, options: Options, ask: Asker,
                     provider: Provider, draft: Draft, run: Run)
    requires AllAccounted(env, inputs, provider, source.entries, draft.flat, draft.fallback, draft.tm)
    requires run == Finish(env, source, disk, options, draft, run.prompts)
    ensures EndsAs(env, inputs, source, disk, ask, provider, run)
  {
    ValuedBy(env, inputs, provider, source, draft);
  }

  lemma FailedRun(env: Env, source: Source, disk: Disk, order: seq<CacheKey>, options: Options, ask: Asker, run: Run)
    returns (message: string)
    requires Enumerates(order, LoadTm(disk.tm)) && run == Sync(env, source, disk, order, options, ask)
    requires Final(env, InputsOf(env, disk, order), source.entries, options.force, ask).Err?
    ensures
      var inputs := InputsOf(env, disk, order);
      && ProviderFailed(env, inputs, source, ask, run, message)
      && run.outcome == (if env.authOptional && IsProviderAuthError(message) then AuthSkipped(|inputs.fallback|)
                         else Threw(message))
  {
    var inputs := InputsOf(env, disk, order);
    var planned := Plan(env, inputs, source.entries);
    var batches := Greedy(planned.pending, env.budget);
    var (result, next) := TranslateBatches(env, ask, 0, batches, planned);
    message := result.error;
    PendingGivesUp(env, ask, planned, batches, result, next);
    PendingIsToFind(env, inputs, source.entries);
  }

  lemma PendingGivesUp(env: Env, ask: Asker, planned: Draft, batches: seq<seq<Item>>, result: Result<Draft, string>,
                       next: nat)
    requires batches == Greedy(planned.pending, env.budget)
    requires (result, next) == TranslateBatches(env, ask, 0, batches, planned)
    ensures FailsAtLast(ask, 0, planned.pending, result, next)
  {
    GreedyIsFewest(planned.pending, env.budget);
    BatchesGiveUp(env, ask, 0, batches, planned);
  }

  lemma ValuedBy(env: Env, inputs: Inputs, provider: Provider, source: Source, draft: Draft)
    requires AllAccounted(env, inputs, provider, source.entries, draft.flat, draft.fallback, draft.tm)
    ensures Valued(env, inputs, provider, source, PlaceholdersMatch(env, source.entries, draft.flat))
  {
    PlaceholdersAre(env, source.entries, draft.flat);
    assert AllAccounted(env, inputs, provider, source.entries, draft.flat, draft.fallback, draft.tm);
  }

  lemma PlaceholdersAre(env: Env, entries: seq<Entry>, flat: map<string, string>)
    requires forall e | e in entries :: e.key in flat
    ensures PlaceholdersMatch(env, entries, flat)
       <==> forall e | e in entries :: env.placeholders(e.text) == env.placeholders(flat[e.key])
  {
    if forall e | e in entries :: env.placeholders(e.text) == env.placeholders(flat[e.key]) {
      assert forall i | 0 <= i < |entries| :: entries[i] in entries;
    }
  }

  // In every file written, each text has exactly the placeholders of its source text.
  lemma WrittenPlaceholdersAgree(env: Env, source: Source, disk: Disk, order: seq<CacheKey>, options: Options,
                                 ask: Asker, provider: Provider, run: Run)
    requires Keys.DistinctKeys(source.entries) && Keys.Recoverable(Keys.KeysOf(source.entries))
    requires Enumerates(order, LoadTm(disk.tm)) && Faithful(ask, provider)
    requires run == Sync(env, source, disk, order, options, ask) && run.outcome.Done?
    requires options.write && !options.checkOnly
    ensures
      var flat := Keys.Flatten(run.disk.locale, "", map[]);
      forall e | e in source.entries :: e.key in flat && env.placeholders(e.text) == env.placeholders(flat[e.key])
  {
    RunSettles(env, source, disk, order, options, ask, provider);
    var flat := Keys.Flatten(run.disk.locale, "", map[]);
    assert forall e | e in source.entries :: e.key in Keys.KeysOf(source.entries);
    PlaceholdersAre(env, source.entries, flat);
  }

  // ----- what it reports -----

  // A run with other options goes as a writing one would, up to the writing: it makes the same
  // prompts, ends alike, and reports a change exactly when the writing run would make one.
  ghost predicate ReportsFor(disk: Disk, options: Options, run: Run, writing: Run) {
    && run.prompts == writing.prompts
    && (run.outcome.Done? <==> writing.outcome.Done?)
    && (!run.outcome.Done? ==> run.outcome == writing.outcome)
    && (run.outcome.Done? ==>
          && (run.outcome.changed <==> writing.disk != disk)
          && writing.disk.meta.Some? && run.outcome.fallbackCount == |writing.disk.meta.value.fallbackKeys|)
    && run.disk == if options.write && !options.checkOnly then writing.disk else disk
  }

  lemma FinishReports(env: Env, source: Source, disk: Disk, options: Options, draft: Draft, prompts: nat)
    ensures ReportsFor(disk, options, Finish(env, source, disk, options, draft, prompts),
                       Finish(env, source, disk, options.(write := true, checkOnly := false), draft, prompts))
  {
  }

  lemma CheckingReports(env: Env, source: Source, disk: Disk, order: seq<CacheKey>, options: Options, ask: Asker)
    requires Enumerates(order, LoadTm(disk.tm))
    ensures ReportsFor(disk, options, Sync(env, source, disk, order, options, ask),
                       Sync(env, source, disk, order, options.(write := true, checkOnly := false), ask))
  {
    var inputs := InputsOf(env, disk, order);
    var planned := Plan(env, inputs, source.entries);
    if env.allowTranslate && planned.pending != [] {
      var (translated, prompts) := TranslateBatches(env, ask, 0, Greedy(planned.pending, env.budget), planned);
      if translated.Ok? {
        FinishReports(env, source, disk, options, Fill(inputs, options.force, planned.pending, translated.value),
                      prompts);
      }
    } else {
      FinishReports(env, source, disk, options, Fill(inputs, options.force, planned.pending, planned), 0);
    }
  }
}
