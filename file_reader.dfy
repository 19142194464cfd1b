/** `FileReaderService.filter_new_urls`: a batch is first thinned by the service's own Bloom filter, the
    survivors are checked against the shared store with `check_urls_batch`, and what the store reports
    as new is added to the Bloom filter and returned. The Bloom filter is modelled as the exact set of
    URLs added to it, so it has no false positives. */
module FileReader {
  import opened Wrappers
  import opened Seqs
  import opened SharedStore
  import opened RedisClients

  /** `[url for url in urls if url not in self.bloom]` */
  function Candidates(bloom: set<string>, urls: seq<string>): seq<string>
  {
    Filter(u => u !in bloom, urls)
  }

  /** What one call does: the URLs it returns, the Bloom filter afterwards, and the batch it sent to the
      store (`None` when the store was not consulted). */
  datatype FilterRun = FilterRun(result: seq<string>, bloom: set<string>, consulted: Option<seq<string>>)

  /** `filter_new_urls(urls)` */
  function FilterNew(bloom: set<string>, d: Store, urls: seq<string>): FilterRun
  {
    var candidates := Candidates(bloom, urls);
    if candidates == [] then FilterRun([], bloom, None)
    else
      var kept := Unprocessed(d, candidates);
      FilterRun(kept, bloom + (set u | u in kept), Some(candidates))
  }

  /** A URL already in the Bloom filter is neither sent to the store nor returned. */
  lemma BloomedNeverSent(bloom: set<string>, d: Store, urls: seq<string>, u: string)
    requires u in bloom
    ensures var run := FilterNew(bloom, d, urls);
            u !in run.result && (run.consulted.Some? ==> u !in run.consulted.value)
  {
    FilterMembers(v => v !in bloom, urls, u);
    if Candidates(bloom, urls) != [] {
      UnprocessedMembers(d, Candidates(bloom, urls), u);
    }
  }

  /** When every URL is in the Bloom filter the result is empty and the store is not consulted. */
  lemma AllBloomed(bloom: set<string>, d: Store, urls: seq<string>)
    requires forall i :: 0 <= i < |urls| ==> urls[i] in bloom
    ensures FilterNew(bloom, d, urls) == FilterRun([], bloom, None)
  {
    FilterDropsAll(u => u !in bloom, urls);
  }

  /** The result is the store's filter of the candidates, so it keeps exactly the input URLs that are in
      neither the Bloom filter nor the store's markers, in input order, duplicates included. */
  lemma ResultIsSubsequence(bloom: set<string>, d: Store, urls: seq<string>)
    ensures FilterNew(bloom, d, urls).result == Filter(u => u !in bloom && IsNew(d, u), urls)
  {
    FilterFilter(u => u !in bloom, u => IsNew(d, u), u => u !in bloom && IsNew(d, u), urls);
    assert Filter(u => IsNew(d, u), []) == [];
  }

  /** The Bloom filter only grows, and grows by exactly the URLs returned. */
  lemma ResultIsBloomed(bloom: set<string>, d: Store, urls: seq<string>)
    ensures var run := FilterNew(bloom, d, urls);
            && run.bloom == bloom + (set u | u in run.result)
            && (forall i :: 0 <= i < |run.result| ==> run.result[i] in run.bloom)
  {
  }

  /** Asking again for a URL the previous call returned yields nothing, whatever the store holds by
      then. */
  lemma RepeatYieldsNothing(bloom: set<string>, d: Store, urls: seq<string>, d': Store, u: string)
    requires u in FilterNew(bloom, d, urls).result
    ensures FilterNew(FilterNew(bloom, d, urls).bloom, d', [u]).result == []
  {
    var b := FilterNew(bloom, d, urls).bloom;
    assert u in b;
    FilterSingleton(v => v !in b, u);
  }

  /** The Bloom filter is updated after the whole batch is filtered, so a new URL listed twice in one
      batch is returned twice. */
  lemma DuplicatesBothPass(bloom: set<string>, d: Store, u: string)
    requires u !in bloom && IsNew(d, u)
    ensures FilterNew(bloom, d, [u, u]).result == [u, u]
  {
    assert [u, u][..1] == [u];
    FilterSingleton(v => v !in bloom, u);
    assert Candidates(bloom, [u, u]) == [u, u];
    UnprocessedWithoutMarkers(d, [u, u]);
  }

  /** The service: its Bloom filter and the store client it consults. */
  class FileReaderService {
    var bloom: set<string>
    const redis: ReaderRedisClient

    constructor (redis: ReaderRedisClient)
      ensures this.redis == redis && bloom == {}
    {
      this.redis := redis;
      bloom := {};
    }

    /** `filter_new_urls`: the comprehension, the early return, the store check and the loop of
        `self.bloom.add(url)`. */
    method FilterNewUrls(urls: seq<string>) returns (newUrls: seq<string>)
      modifies this
      ensures var run := FilterNew(old(bloom), redis.data, urls);
              newUrls == run.result && bloom == run.bloom
    {
      var candidates := Candidates(bloom, urls);
      if |candidates| == 0 {
        return [];
      }
      var pipelines;
      newUrls, pipelines := redis.CheckUrlsBatch(candidates);
      for i := 0 to |newUrls|
        invariant bloom == old(bloom) + (set j | 0 <= j < i :: newUrls[j])
      {
        bloom := bloom + {newUrls[i]};
      }
      assert (set j | 0 <= j < |newUrls| :: newUrls[j]) == (set u | u in newUrls) by {
        forall u | u in newUrls ensures u in (set j | 0 <= j < |newUrls| :: newUrls[j]) {
          var j :| 0 <= j < |newUrls| && newUrls[j] == u;
        }
      }
    }
  }
}
