/**
 Translating one batch: two attempts, and a batch whose prompt timed out is halved and
 each half translated on its own. The provider is an arbitrary, possibly hostile, oracle.
 */
module BatchTranslation {
  import opened Wrappers
  import opened Text
  import opened TranslationBatches

  const TRANSLATE_MAX_ATTEMPTS: nat := 2

  const TIMED_OUT := "timed out"

  const MISSING := "missing translation for "

  // What one prompt yields: an error message, or the string-valued fields of the answer.
  datatype Reply = Failure(message: string) | Answer(values: map<string, string>)

  // The reply may depend on how many prompts were made before, on the attempt number and
  // on the items asked for.
  type Provider = (nat, nat, seq<Item>) -> Reply

  // How an attempt ends once its reply has been read.
  datatype Verdict = Translated(values: map<string, string>) | TimedOut(message: string) | Failed(message: string)

  // What comes back from a prompt with these particulars.
  type Asker = (nat, nat, seq<Item>) -> Verdict

  predicate IsPromptTimeoutError(message: string) {
    Includes(ToLower(message), TIMED_OUT)
  }

  function ItemKeys(items: seq<Item>): set<string> {
    set item | item in items :: item.key
  }

  predicate Usable(values: map<string, string>, key: string) {
    key in values && !Blank(values[key])
  }

  predicate Complete(values: map<string, string>, items: seq<Item>) {
    forall i | 0 <= i < |items| :: Usable(values, items[i].key)
  }

  function FirstMissing(values: map<string, string>, items: seq<Item>): string
    requires !Complete(values, items)
  {
    if !Usable(values, items[0].key) then items[0].key else FirstMissing(values, items[1..])
  }

  // An answer counts when it has a translation for every item; the first missing or blank
  // one is an error. Any error is classified by its message alone, so a missing key whose
  // name contains the timeout phrase is handled like a timeout.
  function Judge(reply: Reply, items: seq<Item>): Verdict {
    if reply.Answer? && Complete(reply.values, items) then
      Translated(map key | key in ItemKeys(items) && key in reply.values :: reply.values[key])
    else
      var message := if reply.Failure? then reply.message
                     else MISSING + FirstMissing(reply.values, items);
      if IsPromptTimeoutError(message) then TimedOut(message) else Failed(message)
  }

  function Asking(provider: Provider): Asker {
    (number: nat, attempt: nat, items: seq<Item>) => Judge(provider(number, attempt, items), items)
  }

  // `prompts` counts the prompts made, `depth` how deep the batch was split.
  datatype Outcome = Outcome(result: Result<map<string, string>, string>, prompts: nat, depth: nat)

  function Max(a: nat, b: nat): nat {
    if a < b then b else a
  }

  // The outcome of a batch split after a first, timed out prompt.
  function Joined(left: Outcome, right: Outcome): Outcome
    requires left.result.Ok?
  {
    Outcome(if right.result.Err? then right.result else Ok(left.result.value + right.result.value),
            1 + left.prompts + right.prompts,
            1 + Max(left.depth, right.depth))
  }

  function Translate(ask: Asker, first: nat, items: seq<Item>, attempt: nat): Outcome
    requires attempt < TRANSLATE_MAX_ATTEMPTS
    decreases |items|, TRANSLATE_MAX_ATTEMPTS - attempt
  {
    match ask(first, attempt, items)
    case Translated(values) => Outcome(Ok(values), 1, 0)
    case TimedOut(message) =>
      if |items| > 1 then TranslateHalves(ask, first, items) else Outcome(Err(message), 1, 0)
    case Failed(message) =>
      if attempt + 1 < TRANSLATE_MAX_ATTEMPTS then
        var retry := Translate(ask, first + 1, items, attempt + 1);
        retry.(prompts := 1 + retry.prompts)
      else
        Outcome(Err(message), 1, 0)
  }

  // A batch whose prompt, numbered `first`, timed out: the right half is only begun if the left
  // one is done.
  function TranslateHalves(ask: Asker, first: nat, items: seq<Item>): Outcome
    requires |items| > 1
    decreases |items|, 0
  {
    var midpoint := (|items| + 1) / 2;
    var left := Translate(ask, first + 1, items[..midpoint], 0);
    if left.result.Err? then Outcome(left.result, 1 + left.prompts, 1 + left.depth)
    else Joined(left, Translate(ask, first + 1 + left.prompts, items[midpoint..], 0))
  }

  // Reading one reply, item by item.
  method ReadReply(reply: Reply, items: seq<Item>) returns (verdict: Verdict)
    ensures verdict == Judge(reply, items)
  {
    var message: string;
    match reply {
      case Failure(text) => message := text;
      case Answer(values) =>
        var translated := map[];
        var i := 0;
        while i < |items| && items[i].key in values && !Blank(values[items[i].key])
          invariant 0 <= i <= |items|
          invariant Complete(values, items[..i])
          invariant translated == map key | key in ItemKeys(items[..i]) && key in values :: values[key]
        {
          translated := translated[items[i].key := values[items[i].key]];
          assert items[..i + 1] == items[..i] + [items[i]];
          i := i + 1;
        }
        if i == |items| {
          assert items[..i] == items;
          return Translated(translated);
        }
        FirstMissingAt(values, items, i);
        message := MISSING + items[i].key;
    }
    return if IsPromptTimeoutError(message) then TimedOut(message) else Failed(message);
  }

  lemma {:induction false} FirstMissingAt(values: map<string, string>, items: seq<Item>, i: nat)
    requires i < |items| && Complete(values, items[..i]) && !Usable(values, items[i].key)
    ensures !Complete(values, items)
    ensures FirstMissing(values, items) == items[i].key
  {
    if i > 0 {
      assert Usable(values, items[..i][0].key);
      assert items[1..][..i - 1] == items[..i][1..];
      FirstMissingAt(values, items[1..], i - 1);
    }
  }

  // An answer is taken for a timeout exactly when it is incomplete and the first key it omits
  // contains the timeout phrase; then a batch of several items is split instead of retried.
  lemma MissingKeyReadsAsTimeout(values: map<string, string>, items: seq<Item>)
    ensures Judge(Answer(values), items).TimedOut? <==>
              !Complete(values, items) && Includes(ToLower(FirstMissing(values, items)), TIMED_OUT)
  {
    if !Complete(values, items) {
      var key := FirstMissing(values, items);
      assert ToLower(MISSING + key) == MISSING + ToLower(key);
      if Includes(ToLower(key), TIMED_OUT) {
        IncludesAfter(MISSING, ToLower(key), TIMED_OUT);
      }
      if Includes(MISSING + ToLower(key), TIMED_OUT) {
        NoTimeoutInMissing(ToLower(key));
        IncludesOnlyAfter(MISSING, ToLower(key), TIMED_OUT);
      }
    }
  }

  // The phrase neither lies in the message's fixed part nor starts there.
  lemma NoTimeoutInMissing(key: string)
    ensures forall i | 0 <= i < |MISSING| :: !(TIMED_OUT <= MISSING[i..] + key)
  {
    forall i | 0 <= i < |MISSING| ensures !(TIMED_OUT <= MISSING[i..] + key) {
      assert MISSING[i] != 't' || (i + 2 < |MISSING| && (MISSING[i + 1] != 'i' || MISSING[i + 2] != 'm'));
      DiffersEarly(TIMED_OUT, MISSING[i..] + key);
    }
  }

  lemma DiffersEarly(part: string, s: string)
    requires |part| >= 3 && s != ""
    requires s[0] != part[0] || (|s| >= 3 && (s[1] != part[1] || s[2] != part[2]))
    ensures !(part <= s)
  {
  }

  lemma {:induction false} IncludesOnlyAfter(before: string, s: string, part: string)
    requires Includes(before + s, part)
    requires forall i | 0 <= i < |before| :: !(part <= before[i..] + s)
    ensures Includes(s, part)
  {
    if before == "" {
      assert before + s == s;
    } else {
      assert before[0..] == before && (before + s)[1..] == before[1..] + s;
      assert forall i | 0 <= i < |before| - 1 :: before[1..][i..] == before[i + 1..];
      IncludesOnlyAfter(before[1..], s, part);
    }
  }

  lemma {:induction false} TooShortToInclude(s: string, part: string)
    requires |s| < |part|
    ensures !Includes(s, part)
  {
    if s != "" {
      TooShortToInclude(s[1..], part);
    }
  }

  // An empty answer reads as a timeout exactly when the first key does.
  lemma NothingTranslated(first: Item, rest: seq<Item>)
    ensures !Judge(Answer(map[]), [first] + rest).Translated?
    ensures Judge(Answer(map[]), [first] + rest).TimedOut? <==> Includes(ToLower(first.key), TIMED_OUT)
  {
    var items := [first] + rest;
    assert items[0] == first && !Usable(map[], items[0].key);
    MissingKeyReadsAsTimeout(map[], items);
  }

  // For example: whether an empty answer to these two items is taken for a timeout depends on
  // which of them comes first.
  lemma KeyNamedLikeATimeout() returns (named: Item, other: Item)
    ensures Judge(Answer(map[]), [named] + [other]).TimedOut?
    ensures Judge(Answer(map[]), [other] + [named]).Failed?
  {
    named := Item(CacheKey("", "", "", ""), TIMED_OUT, "Timed out", "");
    other := Item(CacheKey("", "", "", ""), "ok", "OK", "");
    NothingTranslated(named, [other]);
    NothingTranslated(other, [named]);
    TimedOutReadsSo();
    TooShortToInclude(ToLower("ok"), TIMED_OUT);
  }

  lemma TimedOutReadsSo()
    ensures Includes(ToLower(TIMED_OUT), TIMED_OUT)
  {
    assert ToLower(TIMED_OUT) == TIMED_OUT;
  }

  lemma {:induction false} IncludesAfter(before: string, s: string, part: string)
    requires Includes(s, part)
    ensures Includes(before + s, part)
  {
    if before == "" {
      assert before + s == s;
    } else {
      assert (before + s)[1..] == before[1..] + s;
      IncludesAfter(before[1..], s, part);
    }
  }

  // `ask` stands for prompting this provider and reading its reply.
  ghost predicate Consults(ask: Asker, provider: Provider) {
    forall number: nat, attempt: nat, items: seq<Item> {:trigger provider(number, attempt, items)} ::
      ask(number, attempt, items) == Judge(provider(number, attempt, items), items)
  }

  method Prompt(provider: Provider, ghost ask: Asker, number: nat, attempt: nat, items: seq<Item>)
    returns (verdict: Verdict)
    requires Consults(ask, provider)
    ensures verdict == ask(number, attempt, items)
  {
    verdict := ReadReply(provider(number, attempt, items), items);
  }

  // The retry loop.
  method TranslateBatch(provider: Provider, ghost ask: Asker, first: nat, items: seq<Item>)
    returns (result: Result<map<string, string>, string>, next: nat, depth: nat)
    requires Consults(ask, provider)
    ensures next >= first
    ensures Outcome(result, next - first, depth) == Translate(ask, first, items, 0)
    decreases |items|
  {
    var lastError := "translation failed";
    next, depth := first, 0;
    for attempt := 0 to TRANSLATE_MAX_ATTEMPTS
      invariant next == first + attempt
      invariant attempt < TRANSLATE_MAX_ATTEMPTS ==>
        var rest := Translate(ask, next, items, attempt);
        Translate(ask, first, items, 0) == rest.(prompts := attempt + rest.prompts)
      invariant attempt == TRANSLATE_MAX_ATTEMPTS ==>
        Translate(ask, first, items, 0) == Outcome(Err(lastError), attempt, 0)
    {
      ghost var rest := Translate(ask, next, items, attempt);
      var verdict := Prompt(provider, ask, next, attempt, items);
      assert verdict.Translated? ==> rest == Outcome(Ok(verdict.values), 1, 0);
      next := next + 1;
      if verdict.Translated? {
        return Ok(verdict.values), next, 0;
      }
      lastError := verdict.message;
      if verdict.TimedOut? && |items| > 1 {
        var midpoint := (|items| + 1) / 2;
        var left, afterLeft, leftDepth := TranslateBatch(provider, ask, next, items[..midpoint]);
        if left.Err? {
          return left, afterLeft, 1 + leftDepth;
        }
        var right, afterRight, rightDepth := TranslateBatch(provider, ask, afterLeft, items[midpoint..]);
        result := if right.Err? then right else Ok(left.value + right.value);
        return result, afterRight, 1 + Max(leftDepth, rightDepth);
      }
      if verdict.TimedOut? {
        return Err(lastError), next, 0;
      }
    }
    return Err(lastError), next, 0;
  }

  // ----- what every provider can and cannot cause -----

  function Pow2(n: nat): nat {
    if n == 0 then 1 else 2 * Pow2(n - 1)
  }

  // At most this many prompts, and a split depth of at most the rounded-up binary logarithm of
  // n, that is, at most any d with n <= 2^d.
  ghost predicate Bounded(outcome: Outcome, n: nat, prompts: int) {
    && 1 <= outcome.prompts <= prompts
    && forall d: nat | n <= Pow2(d) :: outcome.depth <= d
  }

  // At most 4n - 2 prompts for n items, one less on the second attempt.
  lemma {:induction false} TranslateIsBounded(ask: Asker, first: nat, items: seq<Item>, attempt: nat)
    requires attempt < TRANSLATE_MAX_ATTEMPTS && items != []
    ensures Bounded(Translate(ask, first, items, attempt), |items|, 4 * |items| - 2 - attempt)
    decreases |items|, TRANSLATE_MAX_ATTEMPTS - attempt
  {
    match ask(first, attempt, items)
    case Translated(_) =>
    case TimedOut(_) =>
      if |items| > 1 {
        HalvesAreBounded(ask, first, items);
      }
    case Failed(_) =>
      if attempt + 1 < TRANSLATE_MAX_ATTEMPTS {
        TranslateIsBounded(ask, first + 1, items, attempt + 1);
      }
  }

  lemma {:induction false} HalvesAreBounded(ask: Asker, first: nat, items: seq<Item>)
    requires |items| > 1
    ensures Bounded(TranslateHalves(ask, first, items), |items|, 4 * |items| - 3)
    decreases |items|, 0
  {
    var midpoint := (|items| + 1) / 2;
    TranslateIsBounded(ask, first + 1, items[..midpoint], 0);
    var left := Translate(ask, first + 1, items[..midpoint], 0);
    if left.result.Ok? {
      TranslateIsBounded(ask, first + 1 + left.prompts, items[midpoint..], 0);
    }
  }

  // The reply is an answer with a usable text for every item asked for, and with this value
  // for this key, which is one of theirs.
  predicate Gives(reply: Reply, asked: seq<Item>, key: string, value: string) {
    && reply.Answer? && Complete(reply.values, asked)
    && key in ItemKeys(asked) && key in reply.values && reply.values[key] == value
  }

  // The provider replied with this value for this key to a prompt numbered in [lo, hi) about
  // items of this batch only.
  ghost predicate Given(provider: Provider, lo: nat, hi: nat, batch: seq<Item>, key: string, value: string) {
    exists number: nat, attempt: nat, asked: seq<Item> {:trigger provider(number, attempt, asked)} ::
      && lo <= number < hi
      && (forall item | item in asked :: item in batch)
      && Gives(provider(number, attempt, asked), asked, key, value)
  }

  // A translation of `batch` made by prompts numbered in [lo, hi): exactly the batch's keys,
  // nothing blank, and no value the provider did not give for that key.
  ghost predicate TranslationOf(provider: Provider, lo: nat, hi: nat, batch: seq<Item>, values: map<string, string>) {
    && values.Keys == ItemKeys(batch)
    && forall key | key in values :: !Blank(values[key]) && Given(provider, lo, hi, batch, key, values[key])
  }

  lemma TranslationsJoin(provider: Provider, lo: nat, mid: nat, hi: nat, a: seq<Item>, b: seq<Item>,
                         left: map<string, string>, right: map<string, string>, lo': nat)
    requires lo' <= lo <= mid <= hi
    requires TranslationOf(provider, lo, mid, a, left) && TranslationOf(provider, mid, hi, b, right)
    ensures TranslationOf(provider, lo', hi, a + b, left + right)
  {
    assert ItemKeys(a + b) == ItemKeys(a) + ItemKeys(b);
    forall key | key in left + right
      ensures !Blank((left + right)[key]) && Given(provider, lo', hi, a + b, key, (left + right)[key])
    {
      assert (left + right)[key] == if key in right then right[key] else left[key];
    }
  }

  // A reply is accepted exactly when it answers every item with a text that is not blank, and
  // then its texts for these items' keys are the translation, word for word.
  lemma AcceptedReplies(reply: Reply, items: seq<Item>)
    ensures Judge(reply, items).Translated? <==>
              reply.Answer? && forall item | item in items :: item.key in reply.values && !Blank(reply.values[item.key])
    ensures Judge(reply, items).Translated? ==>
              var values := Judge(reply, items).values;
              values.Keys == ItemKeys(items) && forall key | key in values :: Gives(reply, items, key, values[key])
  {
    if reply.Answer? {
      assert forall item | item in items :: exists i :: 0 <= i < |items| && items[i] == item;
      assert Complete(reply.values, items) <==> forall item | item in items :: Usable(reply.values, item.key);
    }
  }

  // Any other reply is an error with the provider's own message or naming the first item that
  // went without, and it is the message that tells a timeout from a failure.
  lemma RefusedReplies(reply: Reply, items: seq<Item>)
    requires !Judge(reply, items).Translated?
    ensures
      var message := Judge(reply, items).message;
      && (reply.Failure? ==> message == reply.message)
      && (reply.Answer? ==> exists i :: 0 <= i < |items| && FirstOmitted(reply.values, items, i)
                              && message == MISSING + items[i].key)
      && (Judge(reply, items).TimedOut? <==> Includes(ToLower(message), TIMED_OUT))
  {
    if reply.Answer? {
      var i := FirstMissingIs(reply.values, items);
    }
  }

  predicate FirstOmitted(values: map<string, string>, items: seq<Item>, i: nat)
    requires i < |items|
  {
    && !(items[i].key in values && !Blank(values[items[i].key]))
    && forall j | 0 <= j < i :: items[j].key in values && !Blank(values[items[j].key])
  }

  lemma {:induction false} FirstMissingIs(values: map<string, string>, items: seq<Item>) returns (i: nat)
    requires !Complete(values, items)
    ensures i < |items| && FirstOmitted(values, items, i) && FirstMissing(values, items) == items[i].key
  {
    i := 0;
    if Usable(values, items[0].key) {
      assert exists j :: 0 < j < |items| && !Usable(values, items[j].key);
      var j :| 0 < j < |items| && !Usable(values, items[j].key);
      assert items[1..][j - 1] == items[j];
      var k := FirstMissingIs(values, items[1..]);
      i := k + 1;
    }
  }

  // What `ask` takes for a translation is what the provider replied for exactly these items.
  ghost predicate Faithful(ask: Asker, provider: Provider) {
    forall number: nat, attempt: nat, items: seq<Item> | ask(number, attempt, items).Translated? ::
      Relayed(provider(number, attempt, items), items, ask(number, attempt, items).values)
  }

  ghost predicate Relayed(reply: Reply, items: seq<Item>, values: map<string, string>) {
    && values.Keys == ItemKeys(items)
    && forall key | key in values :: Gives(reply, items, key, values[key]) && !Blank(values[key])
  }

  // No provider, whatever it replies, gets anything else accepted.
  lemma AskingIsFaithful(provider: Provider)
    ensures Faithful(Asking(provider), provider)
  {
    forall number: nat, attempt: nat, items: seq<Item> | Asking(provider)(number, attempt, items).Translated?
      ensures Relayed(provider(number, attempt, items), items, Asking(provider)(number, attempt, items).values)
    {
      AcceptedReplies(provider(number, attempt, items), items);
    }
  }

  ghost predicate Sound(provider: Provider, first: nat, items: seq<Item>, outcome: Outcome) {
    outcome.result.Ok? ==> TranslationOf(provider, first, first + outcome.prompts, items, outcome.result.value)
  }

  lemma SplitIsSound(provider: Provider, first: nat, items: seq<Item>, midpoint: nat, left: Outcome, right: Outcome)
    requires midpoint <= |items| && left.result.Ok?
    requires Sound(provider, first + 1, items[..midpoint], left)
    requires Sound(provider, first + 1 + left.prompts, items[midpoint..], right)
    ensures Sound(provider, first, items, Joined(left, right))
  {
    assert items == items[..midpoint] + items[midpoint..];
    if right.result.Ok? {
      TranslationsJoin(provider, first + 1, first + 1 + left.prompts, first + 1 + left.prompts + right.prompts,
                       items[..midpoint], items[midpoint..], left.result.value, right.result.value, first);
    }
  }

  // A batch that does not give up is translated in full, with what the provider replied.
  lemma {:induction false} TranslateIsTotal(ask: Asker, provider: Provider, first: nat, items: seq<Item>, attempt: nat)
    requires attempt < TRANSLATE_MAX_ATTEMPTS && Faithful(ask, provider)
    ensures Sound(provider, first, items, Translate(ask, first, items, attempt))
    decreases |items|, TRANSLATE_MAX_ATTEMPTS - attempt
  {
    match ask(first, attempt, items)
    case Translated(_) =>
    case TimedOut(_) =>
      if |items| > 1 {
        HalvesAreTotal(ask, provider, first, items);
      }
    case Failed(_) =>
      if attempt + 1 < TRANSLATE_MAX_ATTEMPTS {
        TranslateIsTotal(ask, provider, first + 1, items, attempt + 1);
      }
  }

  lemma {:induction false} HalvesAreTotal(ask: Asker, provider: Provider, first: nat, items: seq<Item>)
    requires |items| > 1 && Faithful(ask, provider)
    ensures Sound(provider, first, items, TranslateHalves(ask, first, items))
    decreases |items|, 0
  {
    var midpoint := (|items| + 1) / 2;
    TranslateIsTotal(ask, provider, first + 1, items[..midpoint], 0);
    var left := Translate(ask, first + 1, items[..midpoint], 0);
    if left.result.Ok? {
      TranslateIsTotal(ask, provider, first + 1 + left.prompts, items[midpoint..], 0);
      var right := Translate(ask, first + 1 + left.prompts, items[midpoint..], 0);
      SplitIsSound(provider, first, items, midpoint, left, right);
    }
  }

  // ----- what is prompted for next -----

  // After an error that is no timeout the same items are asked for once more.
  lemma SecondAttempt(ask: Asker, first: nat, items: seq<Item>)
    requires ask(first, 0, items).Failed? && ask(first + 1, 1, items).Translated?
    ensures Translate(ask, first, items, 0) == Outcome(Ok(ask(first + 1, 1, items).values), 2, 0)
  {
  }

  // After a timeout each half is asked for, the first one being the larger, from the first
  // attempt on.
  lemma TwoHalves(ask: Asker, first: nat, items: seq<Item>, attempt: nat)
    requires attempt < TRANSLATE_MAX_ATTEMPTS && |items| > 1 && ask(first, attempt, items).TimedOut?
    requires
      var midpoint := |items| - |items| / 2;
      ask(first + 1, 0, items[..midpoint]).Translated? && ask(first + 2, 0, items[midpoint..]).Translated?
    ensures
      var midpoint := |items| - |items| / 2;
      Translate(ask, first, items, attempt) ==
        Outcome(Ok(ask(first + 1, 0, items[..midpoint]).values + ask(first + 2, 0, items[midpoint..]).values), 3, 1)
  {
    var midpoint := (|items| + 1) / 2;
    assert Translate(ask, first + 1, items[..midpoint], 0)
      == Outcome(Ok(ask(first + 1, 0, items[..midpoint]).values), 1, 0);
    assert Translate(ask, first, items, attempt) == TranslateHalves(ask, first, items);
  }

  // ----- giving up -----

  // A reply after which a batch is not tried any further: an error on the second attempt, or
  // any timeout of a prompt that cannot be split.
  predicate Hopeless(verdict: Verdict, attempt: nat, asked: seq<Item>, message: string) {
    && !verdict.Translated? && verdict.message == message
    && (if verdict.TimedOut? then |asked| <= 1 else attempt == TRANSLATE_MAX_ATTEMPTS - 1)
  }

  // This prompt, about items of the batch, got a hopeless reply with this message.
  ghost predicate HopelessAt(ask: Asker, number: nat, batch: seq<Item>, message: string) {
    exists attempt: nat, asked: seq<Item> {:trigger ask(number, attempt, asked)} ::
      (forall item | item in asked :: item in batch) && Hopeless(ask(number, attempt, asked), attempt, asked, message)
  }

  // Gives up, if at all, at the last reply, with its message.
  ghost predicate GivesUpAtLast(ask: Asker, first: nat, batch: seq<Item>, outcome: Outcome) {
    && outcome.prompts >= 1
    && (outcome.result.Err? ==> HopelessAt(ask, first + outcome.prompts - 1, batch, outcome.result.error))
  }

  // A batch gives up only at a hopeless reply, which is the last it prompts for, and with that
  // reply's message.
  lemma {:induction false} GivesUpWhenHopeless(ask: Asker, first: nat, items: seq<Item>, attempt: nat)
    requires attempt < TRANSLATE_MAX_ATTEMPTS
    ensures GivesUpAtLast(ask, first, items, Translate(ask, first, items, attempt))
    decreases |items|, TRANSLATE_MAX_ATTEMPTS - attempt
  {
    var verdict := ask(first, attempt, items);
    match verdict
    case Translated(_) =>
    case TimedOut(message) =>
      if |items| > 1 {
        HalvesGiveUpWhenHopeless(ask, first, items);
      } else {
        assert Hopeless(ask(first, attempt, items), attempt, items, message);
      }
    case Failed(message) =>
      if attempt + 1 < TRANSLATE_MAX_ATTEMPTS {
        GivesUpWhenHopeless(ask, first + 1, items, attempt + 1);
      } else {
        assert Hopeless(ask(first, attempt, items), attempt, items, message);
      }
  }

  lemma {:induction false} HalvesGiveUpWhenHopeless(ask: Asker, first: nat, items: seq<Item>)
    requires |items| > 1
    ensures GivesUpAtLast(ask, first, items, TranslateHalves(ask, first, items))
    decreases |items|, 0
  {
    var midpoint := (|items| + 1) / 2;
    GivesUpWhenHopeless(ask, first + 1, items[..midpoint], 0);
    var left := Translate(ask, first + 1, items[..midpoint], 0);
    if left.result.Ok? {
      GivesUpWhenHopeless(ask, first + 1 + left.prompts, items[midpoint..], 0);
    }
  }

  // ... and at every hopeless reply: nothing more is prompted for.
  lemma HopelessIsFinal(ask: Asker, first: nat, items: seq<Item>, attempt: nat, message: string)
    requires attempt < TRANSLATE_MAX_ATTEMPTS && Hopeless(ask(first, attempt, items), attempt, items, message)
    ensures Translate(ask, first, items, attempt) == Outcome(Err(message), 1, 0)
  {
  }

  // A provider that garbles every first answer and lets every second attempt on more than one
  // item time out.
  function WorstProvider(number: nat, attempt: nat, items: seq<Item>): Reply {
    if attempt == 0 then Failure("garbled")
    else if |items| > 1 then Failure(TIMED_OUT)
    else Answer(map key | key in ItemKeys(items) :: "ok")
  }

  ghost predicate GarblesThenTimesOut(ask: Asker) {
    forall number: nat, attempt: nat, items: seq<Item> {:trigger ask(number, attempt, items)} ::
      && (attempt == 0 ==> ask(number, attempt, items).Failed?)
      && (attempt > 0 && |items| > 1 ==> ask(number, attempt, items).TimedOut?)
      && (attempt > 0 && |items| == 1 ==> ask(number, attempt, items).Translated?)
  }

  lemma OkIsTranslated(items: seq<Item>)
    ensures Judge(Answer(map key | key in ItemKeys(items) :: "ok"), items).Translated?
  {
    var values := map key | key in ItemKeys(items) :: "ok";
    assert !IsSpace("ok"[0]);
    forall i | 0 <= i < |items| ensures Usable(values, items[i].key) {
      assert items[i] in items;
    }
  }

  lemma WorstProviderDoes()
    ensures GarblesThenTimesOut(Asking(WorstProvider))
  {
    forall number: nat, attempt: nat, items: seq<Item>
      ensures Asking(WorstProvider)(number, attempt, items) == Judge(WorstProvider(number, attempt, items), items)
      ensures attempt == 0 ==> Asking(WorstProvider)(number, attempt, items).Failed?
      ensures attempt > 0 && |items| > 1 ==> Asking(WorstProvider)(number, attempt, items).TimedOut?
      ensures attempt > 0 && |items| == 1 ==> Asking(WorstProvider)(number, attempt, items).Translated?
    {
      OkIsTranslated(items);
    }
  }

  // With such a provider both bounds are reached.
  lemma {:induction false} BoundsAreTight(ask: Asker, first: nat, items: seq<Item>)
    requires items != [] && GarblesThenTimesOut(ask)
    ensures Translate(ask, first, items, 0).result.Ok?
    ensures Translate(ask, first, items, 0).prompts == 4 * |items| - 2
    ensures forall d: nat | Translate(ask, first, items, 0).depth <= d :: |items| <= Pow2(d)
    decreases |items|
  {
    var retry := Translate(ask, first + 1, items, 1);
    assert Translate(ask, first, items, 0) == retry.(prompts := 1 + retry.prompts);
    if |items| == 1 {
      forall d: nat ensures 1 <= Pow2(d) { Pow2Positive(d); }
    } else {
      var midpoint := (|items| + 1) / 2;
      BoundsAreTight(ask, first + 2, items[..midpoint]);
      var left := Translate(ask, first + 2, items[..midpoint], 0);
      BoundsAreTight(ask, first + 2 + left.prompts, items[midpoint..]);
      assert retry == TranslateHalves(ask, first + 1, items);
      forall d: nat | Translate(ask, first, items, 0).depth <= d
        ensures |items| <= Pow2(d)
      {
        assert midpoint <= Pow2(d - 1);
      }
    }
  }

  lemma {:induction false} Pow2Positive(n: nat)
    ensures 1 <= Pow2(n)
  {
    if n > 0 {
      Pow2Positive(n - 1);
    }
  }
}
