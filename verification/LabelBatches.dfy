/** Regrouping the pages of open issues into work batches, up to a limit. */
module LabelBatches {

  const WORK_BATCH_SIZE: nat := 500

  datatype Page<T> = Page(nodes: seq<T>, hasNextPage: bool)

  // The limit may be any positive number, fractions included.
  datatype Limit = Unlimited | AtMost(n: real)

  datatype Batch<T> = Batch(batchIndex: nat, items: seq<T>, fetchedCount: nat)

  predicate Below(fetched: nat, limit: Limit) {
    limit.Unlimited? || fetched as real < limit.n
  }

  // The first count that is not below the limit, or all there are: a fractional limit rounds up.
  function Wanted(total: nat, limit: Limit): nat {
    if limit.Unlimited? || (total as real) <= limit.n then total
    else if limit.n <= 0.0 then 0
    else
      var floor := limit.n.Floor;
      if floor as real == limit.n then floor else floor + 1
  }

  lemma WantedIs(total: nat, limit: Limit)
    ensures Wanted(total, limit) <= total
    ensures forall n: nat | n < Wanted(total, limit) :: Below(n, limit)
    ensures Wanted(total, limit) < total ==> !Below(Wanted(total, limit), limit)
  {
  }

  lemma WantedIsUnique(total: nat, limit: Limit, n: nat)
    requires n <= total && (forall m: nat | m < n :: Below(m, limit)) && (n < total ==> !Below(n, limit))
    ensures n == Wanted(total, limit)
  {
    WantedIs(total, limit);
    assert n < Wanted(total, limit) ==> Below(n, limit);
    assert Wanted(total, limit) < n ==> Below(Wanted(total, limit), limit);
  }

  // What the pages offer: the nodes up to and including the page that says it is the last.
  function Offered<T>(pages: seq<Page<T>>): seq<T> {
    if pages == [] then []
    else if pages[0].hasNextPage then pages[0].nodes + Offered(pages[1..])
    else pages[0].nodes
  }

  function Nodes<T>(pages: seq<Page<T>>): seq<T> {
    if pages == [] then [] else Nodes(pages[..|pages| - 1]) + pages[|pages| - 1].nodes
  }

  // These are all nodes of the pages up to the first that has no next one, in order.
  lemma {:induction false} OfferedIs<T>(pages: seq<Page<T>>, last: nat)
    requires last < |pages| && !pages[last].hasNextPage && forall i | 0 <= i < last :: pages[i].hasNextPage
    ensures Offered(pages) == Nodes(pages[..last + 1])
  {
    NodesCons(pages[..last + 1]);
    if last > 0 {
      OfferedIs(pages[1..], last - 1);
      assert pages[1..][..last] == pages[..last + 1][1..];
    } else {
      assert pages[..1][1..] == [];
      assert pages[0].nodes + [] == pages[0].nodes;
    }
  }

  lemma {:induction false} NodesCons<T>(pages: seq<Page<T>>)
    requires pages != []
    ensures Nodes(pages) == pages[0].nodes + Nodes(pages[1..])
    decreases |pages|
  {
    if |pages| == 1 {
      assert pages[..0] == [] && pages[1..] == [];
    } else {
      var front, last := pages[..|pages| - 1], pages[|pages| - 1];
      NodesCons(front);
      assert pages[1..][..|pages| - 2] == front[1..];
    }
  }

  function Min(a: nat, b: nat): nat {
    if a < b then a else b
  }

  // The generator's variables after fetching these items: the full batches, and what is left
  // for the next one.
  ghost predicate Emitted<T>(fetched: seq<T>, results: seq<T>, batches: seq<Batch<T>>) {
    && |results| < WORK_BATCH_SIZE
    && |fetched| == |batches| * WORK_BATCH_SIZE + |results|
    && results == fetched[|batches| * WORK_BATCH_SIZE..]
    && forall k | 0 <= k < |batches| :: FullBatch(fetched, k, batches[k])
  }

  ghost predicate FullBatch<T>(fetched: seq<T>, k: nat, batch: Batch<T>) {
    && (k + 1) * WORK_BATCH_SIZE <= |fetched|
    && batch == Batch(k + 1, fetched[k * WORK_BATCH_SIZE..(k + 1) * WORK_BATCH_SIZE], (k + 1) * WORK_BATCH_SIZE)
  }

  lemma EmitOne<T>(fetched: seq<T>, results: seq<T>, batches: seq<Batch<T>>, node: T)
    requires Emitted(fetched, results, batches)
    ensures
      var more, kept := fetched + [node], results + [node];
      if |kept| >= WORK_BATCH_SIZE then Emitted(more, [], batches + [Batch(|batches| + 1, kept, |more|)])
      else Emitted(more, kept, batches)
  {
    var more, kept := fetched + [node], results + [node];
    forall k | 0 <= k < |batches| ensures FullBatch(more, k, batches[k]) {
      assert FullBatch(fetched, k, batches[k]);
      assert more[k * WORK_BATCH_SIZE..(k + 1) * WORK_BATCH_SIZE]
        == fetched[k * WORK_BATCH_SIZE..(k + 1) * WORK_BATCH_SIZE];
    }
    assert more[|batches| * WORK_BATCH_SIZE..] == kept;
    if |kept| >= WORK_BATCH_SIZE {
      assert more[|batches| * WORK_BATCH_SIZE..(|batches| + 1) * WORK_BATCH_SIZE] == kept;
      assert FullBatch(more, |batches|, Batch(|batches| + 1, kept, |more|));
    }
  }

  // The batches are these items cut every 500.
  ghost predicate CutInto<T>(items: seq<T>, batches: seq<Batch<T>>) {
    && (|batches| - 1) * WORK_BATCH_SIZE < |items| <= |batches| * WORK_BATCH_SIZE
    && forall k | 0 <= k < |batches| :: CutAt(items, k, batches[k])
  }

  // The k-th batch: its items, its number counted from 1, and the items fetched by then.
  ghost predicate CutAt<T>(items: seq<T>, k: nat, batch: Batch<T>) {
    var end := Min((k + 1) * WORK_BATCH_SIZE, |items|);
    && k * WORK_BATCH_SIZE <= end
    && batch == Batch(k + 1, items[k * WORK_BATCH_SIZE..end], end)
  }

  lemma LastBatch<T>(fetched: seq<T>, results: seq<T>, batches: seq<Batch<T>>)
    requires Emitted(fetched, results, batches)
    ensures
      CutInto(fetched, if |results| > 0 then batches + [Batch(|batches| + 1, results, |fetched|)] else batches)
  {
    forall k | 0 <= k < |batches| ensures CutAt(fetched, k, batches[k]) {
      assert FullBatch(fetched, k, batches[k]);
    }
    if |results| > 0 {
      assert fetched[|batches| * WORK_BATCH_SIZE..|fetched|] == results;
      assert CutAt(fetched, |batches|, Batch(|batches| + 1, results, |fetched|));
    }
  }

  // Of a page with this many nodes, `count` were taken, as many as the limit allowed.
  ghost predicate Took(size: nat, limit: Limit, fetched: nat, count: nat) {
    && count <= size
    && (count < size ==> !Below(fetched + count, limit))
    && forall n: nat | fetched <= n < fetched + count :: Below(n, limit)
  }

  // Taking over the nodes of one page, as far as the limit allows.
  method TakePage<T>(nodes: seq<T>, limit: Limit, ghost before: seq<T>, results: seq<T>, batches: seq<Batch<T>>,
                     fetchedCount: nat)
    returns (results': seq<T>, batches': seq<Batch<T>>, fetchedCount': nat)
    requires Emitted(before, results, batches) && |before| == fetchedCount
    ensures fetchedCount <= fetchedCount' && Took(|nodes|, limit, fetchedCount, fetchedCount' - fetchedCount)
    ensures Emitted(before + nodes[..fetchedCount' - fetchedCount], results', batches')
  {
    results', batches', fetchedCount' := results, batches, fetchedCount;
    assert before + nodes[..0] == before;
    var i := 0;
    while i < |nodes| && Below(fetchedCount', limit)
      invariant 0 <= i <= |nodes| && fetchedCount' == fetchedCount + i
      invariant forall n: nat | fetchedCount <= n < fetchedCount' :: Below(n, limit)
      invariant Emitted(before + nodes[..i], results', batches')
    {
      TakeOne(before, nodes, i, results', batches');
      results' := results' + [nodes[i]];
      fetchedCount' := fetchedCount' + 1;
      if |results'| >= WORK_BATCH_SIZE {
        batches' := batches' + [Batch(|batches'| + 1, results', fetchedCount')];
        results' := [];
      }
      i := i + 1;
    }
  }

  lemma TakeOne<T>(before: seq<T>, nodes: seq<T>, i: nat, results: seq<T>, batches: seq<Batch<T>>)
    requires i < |nodes| && Emitted(before + nodes[..i], results, batches)
    ensures
      var more, kept := before + nodes[..i + 1], results + [nodes[i]];
      if |kept| >= WORK_BATCH_SIZE then Emitted(more, [], batches + [Batch(|batches| + 1, kept, |before| + i + 1)])
      else Emitted(more, kept, batches)
  {
    assert before + nodes[..i + 1] == before + nodes[..i] + [nodes[i]];
    EmitOne(before + nodes[..i], results, batches, nodes[i]);
  }

  // These items have been taken from the pages before p, no more than the limit allows; while
  // it allows more, none has been left out.
  ghost predicate Fetching<T>(pages: seq<Page<T>>, limit: Limit, p: nat, hasNext: bool, taken: seq<T>) {
    && p <= |pages| && (hasNext ==> p < |pages|)
    && taken <= Offered(pages)
    && (Below(|taken|, limit) ==> Offered(pages) == taken + if hasNext then Offered(pages[p..]) else [])
    && forall n: nat | n < |taken| :: Below(n, limit)
  }

  lemma FetchedPage<T>(pages: seq<Page<T>>, limit: Limit, p: nat, taken: seq<T>, count: nat)
    requires pages != [] && !pages[|pages| - 1].hasNextPage
    requires Fetching(pages, limit, p, true, taken) && Below(|taken|, limit)
    requires Took(|pages[p].nodes|, limit, |taken|, count)
    ensures Fetching(pages, limit, p + 1, pages[p].hasNextPage, taken + pages[p].nodes[..count])
  {
    var page := pages[p];
    assert pages[p..][1..] == pages[p + 1..];
    var rest := if page.hasNextPage then Offered(pages[p + 1..]) else [];
    assert Offered(pages) == taken + page.nodes + rest;
    assert page.nodes == page.nodes[..count] + page.nodes[count..];
    assert Offered(pages) == (taken + page.nodes[..count]) + (page.nodes[count..] + rest);
    if count == |page.nodes| {
      assert page.nodes[count..] + rest == rest;
    }
  }

  lemma FetchedAll<T>(pages: seq<Page<T>>, limit: Limit, p: nat, hasNext: bool, taken: seq<T>)
    requires Fetching(pages, limit, p, hasNext, taken) && !(Below(|taken|, limit) && hasNext)
    ensures taken == Offered(pages)[..Wanted(|Offered(pages)|, limit)]
  {
    WantedIsUnique(|Offered(pages)|, limit, |taken|);
  }

  // For every finite sequence of pages and every limit, the batches are the first wanted
  // items cut every 500: in order, none lost or repeated, all but the last full.
  method FetchOpenLabelItemBatches<T>(pages: seq<Page<T>>, limit: Limit) returns (batches: seq<Batch<T>>)
    requires pages != [] && !pages[|pages| - 1].hasNextPage
    ensures CutInto(Offered(pages)[..Wanted(|Offered(pages)|, limit)], batches)
  {
    ghost var taken: seq<T> := [];
    var results: seq<T>, fetchedCount, p, hasNext := [], 0, 0, true;
    batches := [];
    assert pages[0..] == pages;
    while Below(fetchedCount, limit) && hasNext
      invariant |taken| == fetchedCount && Fetching(pages, limit, p, hasNext, taken)
      invariant Emitted(taken, results, batches)
      decreases |pages| - p
    {
      var page := pages[p];
      results, batches, fetchedCount := TakePage(page.nodes, limit, taken, results, batches, fetchedCount);
      ghost var count := fetchedCount - |taken|;
      FetchedPage(pages, limit, p, taken, count);
      taken := taken + page.nodes[..count];
      hasNext := page.hasNextPage;
      p := p + 1;
    }
    FetchedAll(pages, limit, p, hasNext, taken);
    LastBatch(taken, results, batches);
    if |results| > 0 {
      batches := batches + [Batch(|batches| + 1, results, fetchedCount)];
    }
  }
}
