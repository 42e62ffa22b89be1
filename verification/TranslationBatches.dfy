/**
 Grouping the keys that still need a translation into prompts: a single greedy pass
 under an item limit and a character budget.
 */
module TranslationBatches {

  // A cache key stands for the digest of its four parts. The parts are joined with the
  // segment id and the text digest last, and digests are taken to be collision free.
  datatype CacheKey = CacheKey(namespace: string, locale: string, segmentId: string, textHash: string)

  datatype Item = Item(cacheKey: CacheKey, key: string, text: string, textHash: string)

  const MAX_BATCH_ITEMS: nat := 20

  // The size estimate of one prompt.
  function EstimateBatchChars(items: seq<Item>): int {
    if items == [] then 2
    else EstimateBatchChars(items[..|items| - 1]) + |items[|items| - 1].key| + |items[|items| - 1].text| + 8
  }

  // What the batching loop accumulates for a batch. Each item is charged as a prompt of
  // its own, so every item costs 2 more here than in EstimateBatchChars.
  function LoopChars(items: seq<Item>): int {
    if items == [] then 2
    else LoopChars(items[..|items| - 1]) + EstimateBatchChars([items[|items| - 1]])
  }

  function Flatten<T>(parts: seq<seq<T>>): seq<T> {
    if parts == [] then [] else parts[0] + Flatten(parts[1..])
  }

  // A batch the loop may emit. The budget is a floor: comparing an integer length with a
  // fractional budget is comparing it with the budget rounded down.
  predicate Admissible(batch: seq<Item>, budget: int) {
    && 0 < |batch| <= MAX_BATCH_ITEMS
    && (|batch| == 1 || LoopChars(batch) <= budget)
  }

  // A batch that would fit one prompt by the size estimate of the prompt.
  predicate AdmissibleByEstimate(batch: seq<Item>, budget: int) {
    && 0 < |batch| <= MAX_BATCH_ITEMS
    && (|batch| == 1 || EstimateBatchChars(batch) <= budget)
  }

  // Which batches are allowed.
  type Fits = seq<Item> -> bool

  function ByLoop(budget: int): Fits {
    (batch: seq<Item>) => Admissible(batch, budget)
  }

  function ByEstimate(budget: int): Fits {
    (batch: seq<Item>) => AdmissibleByEstimate(batch, budget)
  }

  ghost predicate AllFit(batches: seq<seq<Item>>, fits: Fits) {
    forall i | 0 <= i < |batches| :: fits(batches[i])
  }

  // Every single item fits, no empty batch does, and a part of what fits does too.
  ghost predicate Hereditary(fits: Fits) {
    && !fits([]) && (forall item: Item :: fits([item]))
    && forall batch: seq<Item>, from: nat, to: nat | from < to <= |batch| && fits(batch) :: fits(batch[from..to])
  }

  // The greedy pass with an open batch.
  function Pack(current: seq<Item>, items: seq<Item>, fits: Fits): seq<seq<Item>>
    decreases |items|
  {
    if items == [] then
      if current == [] then [] else [current]
    else if current != [] && !fits(current + [items[0]]) then
      [current] + Pack([items[0]], items[1..], fits)
    else
      Pack(current + [items[0]], items[1..], fits)
  }

  // The batches of these items.
  function Greedy(items: seq<Item>, budget: int): seq<seq<Item>> {
    Pack([], items, ByLoop(budget))
  }

  // No admissible partition of the items has fewer batches.
  ghost predicate Fewest(batches: seq<seq<Item>>, items: seq<Item>, fits: Fits) {
    forall other | AllFit(other, fits) && Flatten(other) == items :: |batches| <= |other|
  }

  method BuildTranslationBatches(items: seq<Item>, budget: int) returns (batches: seq<seq<Item>>)
    ensures batches == Greedy(items, budget)
    ensures Flatten(batches) == items
    ensures forall i | 0 <= i < |batches| :: Admissible(batches[i], budget)
    ensures Fewest(batches, items, ByLoop(budget))
  {
    batches := [];
    var current: seq<Item> := [];
    var currentChars := 2;
    for n := 0 to |items|
      invariant currentChars == LoopChars(current)
      invariant Packing(batches, current, items, n, budget)
    {
      var item := items[n];
      var itemChars := EstimateBatchChars([item]);
      var wouldOverflow := |current| > 0 && currentChars + itemChars > budget;
      var reachedMaxItems := |current| >= MAX_BATCH_ITEMS;
      if wouldOverflow || reachedMaxItems {
        batches := batches + [current];
        current := [];
        currentChars := 2;
      }
      assert (current + [item])[..|current|] == current && [] + [item] == [item];
      current := current + [item];
      currentChars := currentChars + itemChars;
    }
    assert items[|items|..] == [];
    if |current| > 0 {
      batches := batches + [current];
    }
    GreedyIsFewest(items, budget);
  }

  // What the loop has done when it comes to item n.
  ghost predicate Packing(batches: seq<seq<Item>>, current: seq<Item>, items: seq<Item>, n: nat, budget: int) {
    && n <= |items|
    && (current == [] || Admissible(current, budget))
    && batches + Pack(current, items[n..], ByLoop(budget)) == Greedy(items, budget)
  }

  // The loop's two tests.
  predicate Closes(current: seq<Item>, item: Item, budget: int) {
    (|current| > 0 && LoopChars(current) + EstimateBatchChars([item]) > budget) || |current| >= MAX_BATCH_ITEMS
  }

  // They tell whether the open batch is admissible with one more item.
  lemma ClosesIs(current: seq<Item>, item: Item, budget: int)
    requires current == [] || Admissible(current, budget)
    ensures Closes(current, item, budget) <==> current != [] && !Admissible(current + [item], budget)
    ensures Closes(current, item, budget) ==> Admissible([item], budget)
    ensures !Closes(current, item, budget) ==> Admissible(current + [item], budget)
  {
    assert (current + [item])[..|current|] == current;
  }

  // The pass loses, repeats and reorders nothing, and all its batches fit.
  lemma {:induction false} PackConserves(current: seq<Item>, items: seq<Item>, fits: Fits)
    requires Hereditary(fits) && (current == [] || fits(current))
    ensures Flatten(Pack(current, items, fits)) == current + items
    ensures AllFit(Pack(current, items, fits), fits)
    decreases |items|
  {
    if items == [] {
      assert Flatten([current]) == current + Flatten([]) == current;
    } else if current != [] && !fits(current + [items[0]]) {
      PackConserves([items[0]], items[1..], fits);
      var rest := Pack([items[0]], items[1..], fits);
      assert ([current] + rest)[1..] == rest;
    } else {
      assert current == [] ==> current + [items[0]] == [items[0]];
      PackConserves(current + [items[0]], items[1..], fits);
    }
  }

  lemma PartFits(fits: Fits, batches: seq<seq<Item>>, from: nat, to: nat)
    requires Hereditary(fits) && batches != [] && fits(batches[0]) && from < to <= |batches[0]|
    ensures to <= |Flatten(batches)| && fits(Flatten(batches)[from..to])
  {
    assert Flatten(batches)[from..to] == batches[0][from..to];
  }

  // Whatever partition `other` covers a list of which `current + items` is a suffix, the
  // greedy pass needs no more batches for that suffix than `other` needs for the list.
  lemma {:induction false} PackStaysAhead(
      current: seq<Item>, items: seq<Item>, fits: Fits, other: seq<seq<Item>>, skipped: nat)
    requires Hereditary(fits) && (current == [] || fits(current))
    requires AllFit(other, fits)
    requires skipped <= |Flatten(other)|
    requires current + items == Flatten(other)[skipped..]
    ensures |Pack(current, items, fits)| <= |other|
    decreases |items|, |other|
  {
    if current + items == [] {
    } else if skipped >= |other[0]| {
      assert Flatten(other)[skipped..] == Flatten(other[1..])[skipped - |other[0]|..];
      PackStaysAhead(current, items, fits, other[1..], skipped - |other[0]|);
    } else if items == [] {
    } else if current != [] && !fits(current + [items[0]]) {
      var end := skipped + |current|;
      assert (current + [items[0]]) + items[1..] == Flatten(other)[skipped..];
      assert current + [items[0]] == Flatten(other)[skipped..end + 1];
      if end + 1 <= |other[0]| {
        PartFits(fits, other, skipped, end + 1);
        assert false;
      }
      assert items == Flatten(other)[end..];
      assert items == Flatten(other[1..])[end - |other[0]|..];
      assert [items[0]] + items[1..] == items;
      PackStaysAhead([items[0]], items[1..], fits, other[1..], end - |other[0]|);
    } else {
      assert current == [] ==> current + [items[0]] == [items[0]];
      assert current + items == (current + [items[0]]) + items[1..];
      PackStaysAhead(current + [items[0]], items[1..], fits, other, skipped);
    }
  }

  lemma PackIsFewest(items: seq<Item>, fits: Fits)
    requires Hereditary(fits)
    ensures Fewest(Pack([], items, fits), items, fits)
  {
    forall other | AllFit(other, fits) && Flatten(other) == items
      ensures |Pack([], items, fits)| <= |other|
    {
      PackStaysAhead([], items, fits, other, 0);
    }
  }

  // The batches hold the items in order, are admissible, and are the fewest that do and are.
  lemma GreedyIsFewest(items: seq<Item>, budget: int)
    ensures Flatten(Greedy(items, budget)) == items
    ensures forall i | 0 <= i < |Greedy(items, budget)| :: Admissible(Greedy(items, budget)[i], budget)
    ensures Fewest(Greedy(items, budget), items, ByLoop(budget))
  {
    LoopIsHereditary(budget);
    PackConserves([], items, ByLoop(budget));
    PackIsFewest(items, ByLoop(budget));
  }

  lemma EstimateOfOne(item: Item)
    ensures EstimateBatchChars([item]) == |item.key| + |item.text| + 10
  {
    assert [item][..0] == [];
  }

  // A contiguous part of a batch never costs more than the batch.
  lemma {:induction false} LoopCharsOfPart(batch: seq<Item>, from: nat, to: nat)
    requires from <= to <= |batch|
    ensures 2 <= LoopChars(batch[from..to]) <= LoopChars(batch)
    decreases |batch|
  {
    if batch != [] {
      var front := batch[..|batch| - 1];
      EstimateOfOne(batch[|batch| - 1]);
      if to == |batch| && from < to {
        LoopCharsOfPart(front, from, to - 1);
        assert front[from..to - 1] == batch[from..to][..to - from - 1];
        assert batch[from..to][to - from - 1] == batch[|batch| - 1];
      } else if from == to {
        LoopCharsOfPart(front, 0, |front|);
        assert front[0..|front|] == front;
      } else {
        LoopCharsOfPart(front, from, to);
        assert front[from..to] == batch[from..to];
      }
    }
  }

  lemma LoopIsHereditary(budget: int)
    ensures Hereditary(ByLoop(budget))
  {
    forall batch: seq<Item>, from: nat, to: nat | from < to <= |batch| && Admissible(batch, budget)
      ensures Admissible(batch[from..to], budget)
    {
      LoopCharsOfPart(batch, from, to);
    }
  }

  // ----- measured by the prompt estimate -----

  // The prompt estimate of a batch is below the cost the loop charged for it.
  lemma {:induction false} EstimateIsBelowLoopCost(batch: seq<Item>)
    ensures EstimateBatchChars(batch) == LoopChars(batch) - 2 * |batch|
    decreases |batch|
  {
    if batch != [] {
      EstimateIsBelowLoopCost(batch[..|batch| - 1]);
      EstimateOfOne(batch[|batch| - 1]);
    }
  }

  lemma {:induction false} EstimateOfPart(batch: seq<Item>, from: nat, to: nat)
    requires from <= to <= |batch|
    ensures 2 <= EstimateBatchChars(batch[from..to]) <= EstimateBatchChars(batch)
    decreases |batch|
  {
    if batch != [] {
      var front := batch[..|batch| - 1];
      if to == |batch| && from < to {
        EstimateOfPart(front, from, to - 1);
        assert front[from..to - 1] == batch[from..to][..to - from - 1];
        assert batch[from..to][to - from - 1] == batch[|batch| - 1];
      } else if from == to {
        EstimateOfPart(front, 0, |front|);
        assert front[0..|front|] == front;
      } else {
        EstimateOfPart(front, from, to);
        assert front[from..to] == batch[from..to];
      }
    }
  }

  lemma EstimateIsHereditary(budget: int)
    ensures Hereditary(ByEstimate(budget))
  {
    forall batch: seq<Item>, from: nat, to: nat | from < to <= |batch| && AdmissibleByEstimate(batch, budget)
      ensures AdmissibleByEstimate(batch[from..to], budget)
    {
      EstimateOfPart(batch, from, to);
    }
  }

  // The batches are the fewest by the prompt estimate exactly when the same pass charging by
  // that estimate makes as many; otherwise that pass makes fewer.
  lemma FewestByEstimateExactly(items: seq<Item>, budget: int)
    ensures Fewest(Greedy(items, budget), items, ByEstimate(budget))
       <==> |Greedy(items, budget)| == |Pack([], items, ByEstimate(budget))|
    ensures |Pack([], items, ByEstimate(budget))| <= |Greedy(items, budget)|
  {
    var batches := Greedy(items, budget);
    GreedyIsFewest(items, budget);
    EstimateIsHereditary(budget);
    forall i | 0 <= i < |batches| ensures AdmissibleByEstimate(batches[i], budget) {
      EstimateIsBelowLoopCost(batches[i]);
    }
    PackConserves([], items, ByEstimate(budget));
    PackIsFewest(items, ByEstimate(budget));
  }

  // Neighbouring items that fit one prompt by the estimate and not by the loop's sum.
  predicate InGap(part: seq<Item>, budget: int) {
    2 <= |part| <= MAX_BATCH_ITEMS && EstimateBatchChars(part) <= budget < LoopChars(part)
  }

  // Without such neighbours the batches are the fewest by the estimate too.
  lemma FewestWithoutGap(items: seq<Item>, budget: int)
    requires forall from: nat, to: nat | from < to <= |items| :: !InGap(items[from..to], budget)
    ensures Fewest(Greedy(items, budget), items, ByEstimate(budget))
  {
    forall other | AllFit(other, ByEstimate(budget)) && Flatten(other) == items
      ensures |Greedy(items, budget)| <= |other|
    {
      forall i | 0 <= i < |other| ensures Admissible(other[i], budget) {
        var from := PartOfFlatten(other, i);
        assert !InGap(items[from..from + |other[i]|], budget);
      }
      LoopIsHereditary(budget);
      PackStaysAhead([], items, ByLoop(budget), other, 0);
    }
  }

  lemma {:induction false} PartOfFlatten<T>(parts: seq<seq<T>>, i: nat) returns (from: nat)
    requires i < |parts|
    ensures from + |parts[i]| <= |Flatten(parts)| && Flatten(parts)[from..from + |parts[i]|] == parts[i]
  {
    if i == 0 {
      from := 0;
    } else {
      var before := PartOfFlatten(parts[1..], i - 1);
      from := |parts[0]| + before;
    }
  }

  // A gap does cost prompts: here both items fit one prompt of 24 estimated characters, yet
  // the loop makes two.
  lemma EstimateWouldAllowFewer() returns (items: seq<Item>, budget: int)
    ensures |Greedy(items, budget)| == 2 && !Fewest(Greedy(items, budget), items, ByEstimate(budget))
  {
    var item := Item(CacheKey("", "", "", ""), "a", "bc", "");
    items, budget := [item, item], 24;
    TwoCost(item);
    assert InGap(items, budget);
    GapOfTwo(item, item, budget);
  }

  lemma TwoCost(item: Item)
    ensures EstimateBatchChars([item, item]) == 2 * (|item.key| + |item.text|) + 18
    ensures LoopChars([item, item]) == EstimateBatchChars([item, item]) + 4
  {
    EstimateOfOne(item);
    assert [item, item][..1] == [item];
    EstimateIsBelowLoopCost([item, item]);
  }

  // Any two items in the gap do.
  lemma GapOfTwo(a: Item, b: Item, budget: int)
    requires InGap([a, b], budget)
    ensures |Greedy([a, b], budget)| == 2
    ensures !Fewest(Greedy([a, b], budget), [a, b], ByEstimate(budget))
  {
    var items, one := [a, b], [[a, b]];
    assert [] + [a] == [a] && [a] + [b] == items && items[1..] == [b] && [b][1..] == [];
    assert Pack([b], [], ByLoop(budget)) == [[b]];
    assert Greedy(items, budget) == Pack([a], [b], ByLoop(budget)) == [[a]] + [[b]];
    assert Flatten(one) == items by {
      assert one[0] + Flatten(one[1..]) == items + [];
    }
    assert AllFit(one, ByEstimate(budget));
  }
}
