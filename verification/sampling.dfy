/** `random_elastic_query`: repeated searches at random offsets until enough
    hits have been extracted. The random draws and the store's replies are
    supplied as input, one per batch. */
module Sampling {
  import opened Wrappers
  import opened Values
  import opened QueryReaders

  /** Defaults of `random_elastic_query`. */
  const DefaultBatchSize := 400
  const DefaultSamples := 1000000

  /** The `(from_, size)` of one sampling search. */
  datatype Window = Window(offset: int, size: int)

  /** `random_in_range()` given the value `draw` that `randint(0, count)`
      returned: a negative draw would be clamped to offset 0 with the batch
      shrunk by as much, so that the window still ends at the same place. */
  function RandomInRange(batchSize: int, draw: int): (w: Window)
    ensures w.offset >= 0
    ensures w.offset + w.size == draw + batchSize
    ensures draw >= 0 ==> w.offset == draw
    ensures draw < 0 ==> w.offset == 0
  {
    if draw < 0 then Window(0, batchSize + draw) else Window(draw, batchSize)
  }

  /** `randint(0, count)` never draws a negative value, so the clamp never
      happens: the offset lies in `[0, count]` and the size is the batch size. */
  lemma InRangeDrawNeverClamps(fullDocCount: nat, batchSize: int, draw: int)
    requires 0 <= draw <= fullDocCount
    ensures RandomInRange(batchSize, draw) == Window(draw, batchSize)
    ensures 0 <= RandomInRange(batchSize, draw).offset <= fullDocCount
  {
  }

  /** What a sampling run did: the yielded tuples, the searches it issued,
      the `sampled` counter, the warning counter, and the exception that
      ended it, if any. */
  datatype SampleRun = SampleRun(items: seq<Tuple>, requests: seq<Window>, sampled: int,
                                 warnings: nat, raised: Option<Exc>)

  /** The exception, if any, that ends the extraction loop over a reply. */
  function BatchRaised(reply: seq<Hit>, t: Target): Option<Exc> {
    Pass(reply, t, 0).raised
  }

  /** Batch `b`: the extraction loop over its reply, continuing the warning
      counter of the batches before it. */
  method SearchBatch(replies: seq<seq<Hit>>, b: nat, t: Target, prints: nat)
    returns (found: seq<Tuple>, raised: Option<Exc>, warnings: nat)
    requires b < |replies| && prints <= MaxWarnings
    ensures BatchItems(replies[..b + 1], t) == BatchItems(replies[..b], t) + found
    ensures raised == BatchRaised(replies[b], t)
    ensures warnings == Pass(replies[b], t, prints).warnings
    ensures warnings <= MaxWarnings
  {
    var page := ProcessHits(replies[b], t, prints);
    PassIgnoresWarnings(replies[b], t, prints, 0);
    BatchItemsSnoc(replies, t, b);
    return page.items, page.raised, page.warnings;
  }

  /** The tuples extracted from a sequence of replies, reply after reply. */
  function BatchItems(replies: seq<seq<Hit>>, t: Target): seq<Tuple> {
    if |replies| == 0 then []
    else BatchItems(replies[..|replies| - 1], t) + Pass(replies[|replies| - 1], t, 0).items
  }

  /** The warning counter after a sequence of replies: one counter runs
      through all of them, each reply's pass continuing where the last left it. */
  function BatchWarnings(replies: seq<seq<Hit>>, t: Target): nat {
    if |replies| == 0 then 0
    else Pass(replies[|replies| - 1], t, BatchWarnings(replies[..|replies| - 1], t)).warnings
  }

  /** The sampling loop of `random_elastic_query`. Batch `i` is searched with
      the window drawn from `draws[i]` and answered with `replies[i]`; the run
      stops when `sampled` reaches `nSamples`, when a hit raises, or when the
      supplied replies run out. */
  method RandomElasticQuery(t: Target, batchSize: int, nSamples: int, fullDocCount: nat,
                            draws: seq<int>, replies: seq<seq<Hit>>)
    returns (run: SampleRun)
    requires |draws| == |replies|
    requires forall i :: 0 <= i < |draws| ==> 0 <= draws[i] <= fullDocCount
    // `sampled` counts exactly the extracted hits.
    ensures run.sampled == |run.items|
    // One search per batch, each at an in-range offset with the full batch size.
    ensures |run.requests| <= |replies|
    ensures forall i :: 0 <= i < |run.requests| ==> run.requests[i] == Window(draws[i], batchSize)
    ensures forall i :: 0 <= i < |run.requests| ==> 0 <= run.requests[i].offset <= fullDocCount
    // The target is checked only before a batch: the last batch began below it ...
    ensures |run.requests| > 0 ==> |BatchItems(replies[..|run.requests| - 1], t)| < nSamples
    // ... and a run that ends normally before the replies run out has reached it.
    ensures run.raised.None? && |run.requests| < |replies| ==> run.sampled >= nSamples
    // The tuples are those of the searched batches, in order; a raise ends
    // the run with the batch that raised it.
    ensures run.items == BatchItems(replies[..|run.requests|], t)
    ensures run.raised.Some? ==> |run.requests| > 0
    ensures forall i :: 0 <= i < |run.requests| - 1 ==> BatchRaised(replies[i], t).None?
    ensures |run.requests| > 0 ==> run.raised == BatchRaised(replies[|run.requests| - 1], t)
    // One warning counter for the whole call, capped at `MaxWarnings`.
    ensures run.warnings == BatchWarnings(replies[..|run.requests|], t)
    ensures run.warnings <= MaxWarnings
  {
    var items: seq<Tuple> := [];
    var requests: seq<Window> := [];
    var sampled := 0;
    var prints: nat := 0;
    var raised: Option<Exc> := None;
    var b := 0;
    while raised.None? && sampled < nSamples && b < |replies|
      invariant b <= |replies|
      invariant |requests| == b
      invariant forall i :: 0 <= i < b ==> requests[i] == Window(draws[i], batchSize)
      invariant items == BatchItems(replies[..b], t)
      invariant sampled == |items|
      invariant b > 0 ==> |BatchItems(replies[..b - 1], t)| < nSamples
      invariant raised.Some? ==> b > 0
      invariant forall i :: 0 <= i < b - 1 ==> BatchRaised(replies[i], t).None?
      invariant b > 0 ==> raised == BatchRaised(replies[b - 1], t)
      invariant prints == BatchWarnings(replies[..b], t)
      invariant prints <= MaxWarnings
    {
      assert forall i :: 0 <= i < b ==> BatchRaised(replies[i], t).None?;
      var w := RandomInRange(batchSize, draws[b]);
      InRangeDrawNeverClamps(fullDocCount, batchSize, draws[b]);
      ghost var before := requests;
      requests := requests + [w];
      assert requests[..b] == before && requests[b] == Window(draws[b], batchSize);
      var found, warnings;
      found, raised, warnings := SearchBatch(replies, b, t, prints);
      items := items + found;
      sampled := sampled + |found|;
      prints := warnings;
      assert replies[..b + 1][..b] == replies[..b];
      b := b + 1;
    }
    return SampleRun(items, requests, sampled, prints, raised);
  }

  lemma BatchItemsSnoc(replies: seq<seq<Hit>>, t: Target, b: nat)
    requires b < |replies|
    ensures BatchItems(replies[..b + 1], t) == BatchItems(replies[..b], t) + Pass(replies[b], t, 0).items
  {
    assert replies[..b + 1][..b] == replies[..b];
  }

  /** Each batch contributes at most as many tuples as it has hits. */
  lemma {:induction false} BatchItemsBound(replies: seq<seq<Hit>>, t: Target, batchSize: nat)
    requires forall i :: 0 <= i < |replies| ==> |replies[i]| <= batchSize
    ensures |BatchItems(replies, t)| <= |replies| * batchSize
  {
    if |replies| > 0 {
      var init := replies[..|replies| - 1];
      var last := replies[|replies| - 1];
      BatchItemsBound(init, t, batchSize);
      assert BatchItems(replies, t) == BatchItems(init, t) + Pass(last, t, 0).items;
      assert |Pass(last, t, 0).items| <= |Extractions(last, t)| == |last| <= batchSize;
      assert |init| * batchSize + batchSize == (|init| + 1) * batchSize;
    }
  }

  /** When the store answers each search with at most `batchSize` hits, a run
      that reaches `nSamples` tuples issued at least `nSamples / batchSize`
      (rounded up) searches. */
  lemma BatchesNeeded(replies: seq<seq<Hit>>, t: Target, batchSize: nat, nSamples: int, n: nat)
    requires n <= |replies|
    requires forall i :: 0 <= i < n ==> |replies[i]| <= batchSize
    requires |BatchItems(replies[..n], t)| >= nSamples
    ensures n * batchSize >= nSamples
  {
    BatchItemsBound(replies[..n], t, batchSize);
  }

  /** With the defaults (batches of 400, a target of 1000000) and a store
      that answers each search with at most a batch of hits, reaching the
      target takes at least 2500 searches. */
  lemma DefaultSearchesNeeded(replies: seq<seq<Hit>>, t: Target, n: nat)
    requires n <= |replies|
    requires forall i :: 0 <= i < n ==> |replies[i]| <= DefaultBatchSize
    requires |BatchItems(replies[..n], t)| >= DefaultSamples
    ensures n >= DefaultSamples / DefaultBatchSize
  {
    BatchesNeeded(replies, t, DefaultBatchSize, DefaultSamples, n);
  }
}
