/** The file reader's publisher: `publish_urls` reads the URL file like the downloader's publisher, but
    each chunk is thinned by the service's `filter_new_urls` (its Bloom filter, then the shared store)
    before one download request per surviving URL is published. The Bloom filter is threaded from
    chunk to chunk, so a URL published once is not published again by the same service. */
module ReaderPublisher {
  import opened Seqs
  import opened Text
  import opened Chunking
  import opened Corpus
  import opened SharedStore
  import opened Messaging
  import opened RedisClients
  import opened FileReader
  import opened Publishers

  /** Where a run over some chunks stands: the Bloom filter, the URLs published so far, and whether the
      run is still going (false once a chunk's channel assertion failed). */
  datatype ReaderState = ReaderState(bloom: set<string>, urls: seq<string>, ok: bool)

  /** `process_and_publish_chunk(urls, service)` for one chunk: the Bloom filter after
      `filter_new_urls`, the URLs published and whether the assertion held. The filter is updated
      before the assertion, so a failed chunk still leaves its URLs in the Bloom filter. */
  function ReaderChunk(bloom: set<string>, d: Store, open: bool, chunk: seq<string>): ReaderState
  {
    var run := FilterNew(bloom, d, chunk);
    if run.result == [] then ReaderState(run.bloom, [], true)
    else if !open then ReaderState(run.bloom, [], false)
    else ReaderState(run.bloom, run.result, true)
  }

  /** The chunks of one run handed to `process_and_publish_chunk` in order; a failed chunk ends the run. */
  function ReaderChunks(bloom: set<string>, d: Store, open: bool, chunks: seq<seq<string>>): ReaderState
    decreases |chunks|
  {
    if |chunks| == 0 then ReaderState(bloom, [], true)
    else
      var prev := ReaderChunks(bloom, d, open, chunks[..|chunks| - 1]);
      if !prev.ok then prev
      else
        var step := ReaderChunk(prev.bloom, d, open, chunks[|chunks| - 1]);
        ReaderState(step.bloom, prev.urls + step.urls, step.ok)
  }

  /** One more chunk after a run that has not stopped. */
  lemma ReaderSnoc(bloom: set<string>, d: Store, open: bool, chunks: seq<seq<string>>, c: seq<string>)
    requires ReaderChunks(bloom, d, open, chunks).ok
    ensures var prev := ReaderChunks(bloom, d, open, chunks);
            var step := ReaderChunk(prev.bloom, d, open, c);
            ReaderChunks(bloom, d, open, chunks + [c]) == ReaderState(step.bloom, prev.urls + step.urls, step.ok)
  {
    PrefixOfAppend(chunks, [c]);
  }

  /** With an open channel no chunk fails. */
  lemma {:induction false} OpenChannelCompletes(bloom: set<string>, d: Store, chunks: seq<seq<string>>)
    ensures ReaderChunks(bloom, d, true, chunks).ok
    decreases |chunks|
  {
    if |chunks| > 0 {
      OpenChannelCompletes(bloom, d, chunks[..|chunks| - 1]);
    }
  }

  /** With a closed channel nothing is published, and the run fails exactly when some chunk had a URL
      that passed both filters. */
  lemma {:induction false} ClosedChannelPublishesNothing(bloom: set<string>, d: Store, chunks: seq<seq<string>>)
    ensures ReaderChunks(bloom, d, false, chunks).urls == []
    decreases |chunks|
  {
    if |chunks| > 0 {
      ClosedChannelPublishesNothing(bloom, d, chunks[..|chunks| - 1]);
    }
  }

  /** What a run keeps: the Bloom filter only grows, by exactly the URLs published as long as no chunk
      failed; and every URL published occurs in the chunks, passed the store's check and was not in the
      Bloom filter at the start. */
  lemma {:induction false} ReaderRunSound(bloom: set<string>, d: Store, open: bool, chunks: seq<seq<string>>)
    ensures var r := ReaderChunks(bloom, d, open, chunks);
            && bloom <= r.bloom
            && (r.ok ==> r.bloom == bloom + (set u | u in r.urls))
            && (forall u :: u in r.urls ==> u in r.bloom && u in Flatten(chunks) && IsNew(d, u) && u !in bloom)
    decreases |chunks|
  {
    if |chunks| > 0 {
      var init := chunks[..|chunks| - 1];
      var c := chunks[|chunks| - 1];
      ReaderRunSound(bloom, d, open, init);
      FrontLast(chunks);
      FlattenSnoc(init, c);
      var prev := ReaderChunks(bloom, d, open, init);
      if prev.ok {
        var cands := Candidates(prev.bloom, c);
        forall u | u in FilterNew(prev.bloom, d, c).result
          ensures u in c && IsNew(d, u) && u !in prev.bloom
        {
          if cands != [] {
            UnprocessedMembers(d, cands, u);
          }
          FilterMembers(v => v !in prev.bloom, c, u);
        }
      }
    }
  }

  /** Completeness: when no chunk failed, every URL of the chunks that the store reports as new was
      either in the Bloom filter at the start or published. */
  lemma {:induction false} ReaderRunComplete(bloom: set<string>, d: Store, open: bool, chunks: seq<seq<string>>, u: string)
    requires ReaderChunks(bloom, d, open, chunks).ok
    requires u in Flatten(chunks) && IsNew(d, u)
    ensures u in bloom || u in ReaderChunks(bloom, d, open, chunks).urls
    decreases |chunks|
  {
    var init := chunks[..|chunks| - 1];
    var c := chunks[|chunks| - 1];
    FrontLast(chunks);
    FlattenSnoc(init, c);
    var prev := ReaderChunks(bloom, d, open, init);
    ReaderRunSound(bloom, d, open, init);
    if u in Flatten(init) {
      ReaderRunComplete(bloom, d, open, init, u);
    } else if u !in prev.bloom {
      var cands := Candidates(prev.bloom, c);
      FilterMembers(v => v !in prev.bloom, c, u);
      UnprocessedMembers(d, cands, u);
    }
  }

  /** A URL is published at most once per run when no chunk repeats a URL: later chunks find it in the
      Bloom filter. */
  lemma {:induction false} ReaderRunNoRepeats(bloom: set<string>, d: Store, open: bool, chunks: seq<seq<string>>)
    requires forall k :: 0 <= k < |chunks| ==> Distinct(chunks[k])
    ensures Distinct(ReaderChunks(bloom, d, open, chunks).urls)
    decreases |chunks|
  {
    if |chunks| > 0 {
      var init := chunks[..|chunks| - 1];
      var c := chunks[|chunks| - 1];
      ReaderRunNoRepeats(bloom, d, open, init);
      ReaderRunSound(bloom, d, open, init);
      var prev := ReaderChunks(bloom, d, open, init);
      if prev.ok {
        var cands := Candidates(prev.bloom, c);
        var step := FilterNew(prev.bloom, d, c).result;
        if cands != [] {
          FilterDistinct(v => v !in prev.bloom, c);
          FilterDistinct(u => IsNew(d, u), cands);
          forall u | u in step ensures u !in prev.bloom {
            UnprocessedMembers(d, cands, u);
            FilterMembers(v => v !in prev.bloom, c, u);
          }
        }
        var all := prev.urls + ReaderChunk(prev.bloom, d, open, c).urls;
        forall i, j | 0 <= i < j < |all| ensures all[i] != all[j] {
          if j >= |prev.urls| && i < |prev.urls| {
            assert all[i] in prev.urls && all[j] in step;
          }
        }
      }
    }
  }

  /** With an open channel a run publishes exactly the URLs of its chunks that were neither in the
      Bloom filter nor marked in the store. */
  lemma PublishesExactlyNew(bloom: set<string>, d: Store, chunks: seq<seq<string>>)
    ensures var r := ReaderChunks(bloom, d, true, chunks);
            (set u | u in r.urls) == (set u | u in Flatten(chunks) && IsNew(d, u) && u !in bloom)
  {
    OpenChannelCompletes(bloom, d, chunks);
    ReaderRunSound(bloom, d, true, chunks);
    forall u | u in Flatten(chunks) && IsNew(d, u) && u !in bloom
      ensures u in ReaderChunks(bloom, d, true, chunks).urls
    {
      ReaderRunComplete(bloom, d, true, chunks, u);
    }
  }

  /** A URL in the Bloom filter is never published again by the service, whatever the store holds. */
  lemma NeverRepublished(bloom: set<string>, d: Store, open: bool, chunks: seq<seq<string>>, u: string)
    requires u in bloom
    ensures u !in ReaderChunks(bloom, d, open, chunks).urls
  {
    ReaderRunSound(bloom, d, open, chunks);
  }

  /** On a closed channel the filter has already recorded a new URL when the assertion fails: the run
      fails, publishes nothing and leaves the URL in the Bloom filter, so by `NeverRepublished` the same
      service never publishes it, even once the channel is back. */
  lemma ClosedChannelLosesUrl(bloom: set<string>, d: Store, chunks: seq<seq<string>>, c: seq<string>, u: string)
    requires ReaderChunks(bloom, d, false, chunks).ok
    requires u in c && IsNew(d, u) && u !in bloom
    ensures var r := ReaderChunks(bloom, d, false, chunks + [c]);
            !r.ok && r.urls == [] && u in r.bloom
  {
    ReaderSnoc(bloom, d, false, chunks, c);
    ClosedChannelPublishesNothing(bloom, d, chunks);
    ReaderRunSound(bloom, d, false, chunks);
    var prev := ReaderChunks(bloom, d, false, chunks);
    assert prev.bloom == bloom;
    var cands := Candidates(prev.bloom, c);
    FilterMembers(v => v !in prev.bloom, c, u);
    UnprocessedMembers(d, cands, u);
    assert u in FilterNew(prev.bloom, d, c).result;
  }

  /** How a run over a file whose URLs are `urls` ends: the chunks flushed are the chunking of a prefix
      of the URLs (all of them when no chunk failed, and a failed chunk is the last one); the Bloom filter
      and the broker are those of the chunks' run. */
  ghost predicate ReaderOutcome(bloom0: set<string>, d: Store, open: bool, urls: seq<string>, n: nat, sent: seq<Published>,
                                ok: bool, chunks: seq<seq<string>>, bloom: set<string>, now: seq<Published>)
  {
    && chunks == Chunks(Flatten(chunks), n)
    && |Flatten(chunks)| <= |urls| && urls[..|Flatten(chunks)|] == Flatten(chunks)
    && (ok ==> chunks == Chunks(urls, n))
    && (!ok ==> |chunks| > 0 && ReaderChunks(bloom0, d, open, chunks[..|chunks| - 1]).ok)
    && ReaderRun(bloom0, d, open, chunks, sent, ok, bloom, now)
  }

  /** The Bloom filter, the outcome and the broker agree with the run over `chunks`. */
  ghost predicate ReaderRun(bloom0: set<string>, d: Store, open: bool, chunks: seq<seq<string>>, sent: seq<Published>,
                            ok: bool, bloom: set<string>, now: seq<Published>)
  {
    var r := ReaderChunks(bloom0, d, open, chunks);
    r.ok == ok && r.bloom == bloom && now == sent + DownloadRequests(r.urls)
  }

  /** `process_and_publish_chunk(urls, service)`: the service's filter, then, when it returned URLs, the
      channel assertion and one `{"url": u}` message per URL. `ok` is false when the assertion fails. */
  method ReaderProcessChunk(service: FileReaderService, broker: Broker, urls: seq<string>) returns (ok: bool)
    modifies service, broker
    ensures broker.channelOpen == old(broker.channelOpen)
    ensures var step := ReaderChunk(old(service.bloom), service.redis.data, old(broker.channelOpen), urls);
            && service.bloom == step.bloom && ok == step.ok
            && broker.published == old(broker.published) + DownloadRequests(step.urls)
  {
    var toPublish := service.FilterNewUrls(urls);
    if |toPublish| == 0 {
      AppendEmpty(old(broker.published));
      return true;
    }
    if !broker.channelOpen {
      AppendEmpty(old(broker.published));
      return false;
    }
    PublishDownloadRequests(broker, toPublish);
    return true;
  }

  /** `publish_urls(file_path, chunk_size, service)`: a missing or empty path is logged and nothing is
      read; otherwise the lines are read, buffered and flushed as in the downloader's publisher. */
  method ReaderPublishUrls(service: FileReaderService, broker: Broker, files: map<string, seq<string>>, filePath: string, chunkSize: int)
    returns (ok: bool, chunks: seq<seq<string>>)
    modifies service, broker
    ensures broker.channelOpen == old(broker.channelOpen)
    ensures filePath == "" || filePath !in files ==>
              ok && chunks == [] && broker.published == old(broker.published) && service.bloom == old(service.bloom)
    ensures filePath != "" && filePath in files ==>
              ReaderOutcome(old(service.bloom), service.redis.data, old(broker.channelOpen), CorpusUrls(files[filePath]),
                            EffectiveChunkSize(chunkSize), old(broker.published), ok, chunks, service.bloom, broker.published)
  {
    if filePath == "" || filePath !in files {
      return true, [];
    }
    ok, chunks := ReaderPublishLines(service, broker, files[filePath], chunkSize);
  }

  /** The line loop of `publish_urls` and its final flush. */
  method ReaderPublishLines(service: FileReaderService, broker: Broker, lines: seq<string>, chunkSize: int)
    returns (ok: bool, chunks: seq<seq<string>>)
    modifies service, broker
    ensures broker.channelOpen == old(broker.channelOpen)
    ensures ReaderOutcome(old(service.bloom), service.redis.data, old(broker.channelOpen), CorpusUrls(lines),
                          EffectiveChunkSize(chunkSize), old(broker.published), ok, chunks, service.bloom, broker.published)
  {
    ghost var n := EffectiveChunkSize(chunkSize);
    ghost var bloom0 := service.bloom;
    ghost var sent := broker.published;
    ghost var open := broker.channelOpen;
    var buffer: seq<string> := [];
    chunks := [];
    for i := 0 to |lines|
      invariant Buffered(lines[..i], chunks, buffer, n)
      invariant broker.channelOpen == open
      invariant ReaderRun(bloom0, service.redis.data, open, chunks, sent, true, service.bloom, broker.published)
    {
      var stopped;
      chunks, buffer, stopped := ReaderReadLineStep(service, broker, bloom0, sent, open, lines, i, chunks, buffer, chunkSize);
      if stopped {
        return false, chunks;
      }
    }
    TakeAll(lines);
    ok, chunks := ReaderFinalFlush(service, broker, bloom0, sent, open, lines, chunks, buffer, n);
  }

  /** The flush after the last line: a non-empty buffer becomes the last chunk. */
  method ReaderFinalFlush(service: FileReaderService, broker: Broker, ghost bloom0: set<string>, ghost sent: seq<Published>,
                          ghost open: bool, lines: seq<string>, chunks: seq<seq<string>>, buffer: seq<string>, ghost n: nat)
    returns (ok: bool, chunks': seq<seq<string>>)
    requires n >= 1 && Buffered(lines, chunks, buffer, n)
    requires broker.channelOpen == open
    requires ReaderRun(bloom0, service.redis.data, open, chunks, sent, true, service.bloom, broker.published)
    modifies service, broker
    ensures broker.channelOpen == open
    ensures ReaderOutcome(bloom0, service.redis.data, open, CorpusUrls(lines), n, sent, ok, chunks', service.bloom, broker.published)
  {
    if |buffer| > 0 {
      ok := ReaderFlush(service, broker, bloom0, sent, open, chunks, buffer);
      ReaderFinished(service.redis.data, open, lines, chunks, buffer, n, bloom0, sent, ok, service.bloom, broker.published);
      chunks' := chunks + [buffer];
    } else {
      AppendEmpty(Flatten(chunks));
      ok, chunks' := true, chunks;
      ReaderAllRead(service.redis.data, open, CorpusUrls(lines), chunks, n, bloom0, sent, ok, service.bloom, broker.published);
    }
  }

  /** One pass of the line loop: strip the line, skip it or buffer it, and flush a full buffer. */
  method ReaderReadLineStep(service: FileReaderService, broker: Broker, ghost bloom0: set<string>, ghost sent: seq<Published>,
                            ghost open: bool, lines: seq<string>, i: nat, chunks: seq<seq<string>>, buffer: seq<string>, chunkSize: int)
    returns (chunks': seq<seq<string>>, buffer': seq<string>, stopped: bool)
    requires i < |lines| && Buffered(lines[..i], chunks, buffer, EffectiveChunkSize(chunkSize))
    requires broker.channelOpen == open
    requires ReaderRun(bloom0, service.redis.data, open, chunks, sent, true, service.bloom, broker.published)
    modifies service, broker
    ensures broker.channelOpen == open
    ensures !stopped ==> && Buffered(lines[..i + 1], chunks', buffer', EffectiveChunkSize(chunkSize))
                         && ReaderRun(bloom0, service.redis.data, open, chunks', sent, true, service.bloom, broker.published)
    ensures stopped ==> ReaderOutcome(bloom0, service.redis.data, open, CorpusUrls(lines), EffectiveChunkSize(chunkSize),
                                      sent, false, chunks', service.bloom, broker.published)
  {
    chunks', buffer', stopped := chunks, buffer, false;
    var url := Strip(lines[i]);
    buffer' := if IsUrlLine(url) then buffer + [url] else buffer;
    LineBuffered(lines, i, chunks, buffer, chunkSize, buffer');
    if !IsUrlLine(url) || |buffer'| < chunkSize {
      return;
    }
    chunks', buffer', stopped := ReaderFlushFull(service, broker, bloom0, sent, open, lines, i, chunks, buffer', chunkSize);
  }

  /** Line `i` filled the buffer: flush it as the next chunk, or stop when the chunk fails. */
  method ReaderFlushFull(service: FileReaderService, broker: Broker, ghost bloom0: set<string>, ghost sent: seq<Published>,
                         ghost open: bool, lines: seq<string>, i: nat, chunks: seq<seq<string>>, full: seq<string>, chunkSize: int)
    returns (chunks': seq<seq<string>>, buffer': seq<string>, stopped: bool)
    requires i < |lines| && CorpusUrls(lines[..i + 1]) == Flatten(chunks) + full
    requires |full| == EffectiveChunkSize(chunkSize)
    requires forall j :: 0 <= j < |chunks| ==> |chunks[j]| == EffectiveChunkSize(chunkSize)
    requires broker.channelOpen == open
    requires ReaderRun(bloom0, service.redis.data, open, chunks, sent, true, service.bloom, broker.published)
    modifies service, broker
    ensures broker.channelOpen == open
    ensures !stopped ==> && Buffered(lines[..i + 1], chunks', buffer', EffectiveChunkSize(chunkSize))
                         && ReaderRun(bloom0, service.redis.data, open, chunks', sent, true, service.bloom, broker.published)
    ensures stopped ==> ReaderOutcome(bloom0, service.redis.data, open, CorpusUrls(lines), EffectiveChunkSize(chunkSize),
                                      sent, false, chunks', service.bloom, broker.published)
  {
    var chunkOk := ReaderFlush(service, broker, bloom0, sent, open, chunks, full);
    chunks' := chunks + [full];
    buffer' := [];
    stopped := !chunkOk;
    if stopped {
      ReaderStoppedAtChunk(service.redis.data, open, lines, i, chunks, full, EffectiveChunkSize(chunkSize), bloom0, sent,
                           service.bloom, broker.published);
      return;
    }
    Refilled(lines, i, chunks, full, EffectiveChunkSize(chunkSize));
  }

  /** One flush: `process_and_publish_chunk(urls_buffer, service)` extends the run by one chunk. */
  method ReaderFlush(service: FileReaderService, broker: Broker, ghost bloom0: set<string>, ghost sent: seq<Published>,
                     ghost open: bool, ghost chunks: seq<seq<string>>, buffer: seq<string>)
    returns (ok: bool)
    requires broker.channelOpen == open
    requires ReaderRun(bloom0, service.redis.data, open, chunks, sent, true, service.bloom, broker.published)
    modifies service, broker
    ensures broker.channelOpen == open
    ensures ReaderRun(bloom0, service.redis.data, open, chunks + [buffer], sent, ok, service.bloom, broker.published)
  {
    ok := ReaderProcessChunk(service, broker, buffer);
    ReaderRunSnoc(bloom0, service.redis.data, open, chunks, sent, old(service.bloom), old(broker.published), buffer, ok,
                  service.bloom, broker.published);
  }

  /** The run over one more chunk, from the state the run over the chunks before it left. */
  lemma ReaderRunSnoc(bloom0: set<string>, d: Store, open: bool, chunks: seq<seq<string>>, sent: seq<Published>,
                      bloom: set<string>, now: seq<Published>, c: seq<string>, ok: bool, bloom': set<string>, now': seq<Published>)
    requires ReaderRun(bloom0, d, open, chunks, sent, true, bloom, now)
    requires var step := ReaderChunk(bloom, d, open, c);
             bloom' == step.bloom && ok == step.ok && now' == now + DownloadRequests(step.urls)
    ensures ReaderRun(bloom0, d, open, chunks + [c], sent, ok, bloom', now')
  {
    var prev := ReaderChunks(bloom0, d, open, chunks);
    ReaderSnoc(bloom0, d, open, chunks, c);
    DownloadRequestsConcat(prev.urls, ReaderChunk(bloom, d, open, c).urls);
    AppendAssoc(sent, DownloadRequests(prev.urls), DownloadRequests(ReaderChunk(bloom, d, open, c).urls));
  }

  /** The chunks flushed so far are the chunking of a prefix of the file's URLs. */
  lemma PrefixChunked(lines: seq<string>, i: nat, chunks: seq<seq<string>>, n: nat)
    requires n >= 1 && i <= |lines| && CorpusUrls(lines[..i]) == Flatten(chunks)
    requires forall j :: 0 <= j < |chunks| ==> 0 < |chunks[j]| <= n
    requires forall j :: 0 <= j < |chunks| - 1 ==> |chunks[j]| == n
    ensures chunks == Chunks(Flatten(chunks), n)
    ensures |Flatten(chunks)| <= |CorpusUrls(lines)| && CorpusUrls(lines)[..|Flatten(chunks)|] == Flatten(chunks)
  {
    assert IsChunking(chunks, n);
    ChunkingUnique(chunks, Flatten(chunks), n);
    CorpusPrefix(lines, i);
  }

  /** A failed flush of a full buffer ends the run with that chunk last. */
  lemma ReaderStoppedAtChunk(d: Store, open: bool, lines: seq<string>, i: nat, chunks: seq<seq<string>>, full: seq<string>, n: nat,
                             bloom0: set<string>, sent: seq<Published>, bloom: set<string>, now: seq<Published>)
    requires n >= 1 && i < |lines| && CorpusUrls(lines[..i + 1]) == Flatten(chunks) + full
    requires |full| == n && forall j :: 0 <= j < |chunks| ==> |chunks[j]| == n
    requires ReaderChunks(bloom0, d, open, chunks).ok
    requires ReaderRun(bloom0, d, open, chunks + [full], sent, false, bloom, now)
    ensures ReaderOutcome(bloom0, d, open, CorpusUrls(lines), n, sent, false, chunks + [full], bloom, now)
  {
    ChunksAppended(lines, i + 1, chunks, full, n);
    PrefixOfAppend(chunks, [full]);
  }

  /** One more chunk, no longer than the others, after full chunks that held the URLs of the lines
      before it: the chunks are the chunking of a prefix of the file's URLs. */
  lemma ChunksAppended(lines: seq<string>, i: nat, chunks: seq<seq<string>>, last: seq<string>, n: nat)
    requires n >= 1 && i <= |lines| && CorpusUrls(lines[..i]) == Flatten(chunks) + last && 0 < |last| <= n
    requires forall j :: 0 <= j < |chunks| ==> |chunks[j]| == n
    ensures var cs := chunks + [last];
            && cs == Chunks(Flatten(cs), n)
            && |Flatten(cs)| <= |CorpusUrls(lines)| && CorpusUrls(lines)[..|Flatten(cs)|] == Flatten(cs)
  {
    var cs := chunks + [last];
    FlattenSnoc(chunks, last);
    forall j | 0 <= j < |cs| ensures 0 < |cs[j]| <= n {
      if j < |chunks| { assert cs[j] == chunks[j]; }
    }
    PrefixChunked(lines, i, cs, n);
  }

  /** The final flush of a partial buffer, successful or not. */
  lemma ReaderFinished(d: Store, open: bool, lines: seq<string>, chunks: seq<seq<string>>, buffer: seq<string>, n: nat,
                       bloom0: set<string>, sent: seq<Published>, ok: bool, bloom: set<string>, now: seq<Published>)
    requires n >= 1 && CorpusUrls(lines) == Flatten(chunks) + buffer && 0 < |buffer| < n
    requires forall j :: 0 <= j < |chunks| ==> |chunks[j]| == n
    requires ReaderChunks(bloom0, d, open, chunks).ok
    requires ReaderRun(bloom0, d, open, chunks + [buffer], sent, ok, bloom, now)
    ensures ReaderOutcome(bloom0, d, open, CorpusUrls(lines), n, sent, ok, chunks + [buffer], bloom, now)
  {
    TakeAll(lines);
    ChunksAppended(lines, |lines|, chunks, buffer, n);
    PrefixOfAppend(chunks, [buffer]);
    FlattenSnoc(chunks, buffer);
  }

  /** The whole file read with an empty buffer left: the chunks are the chunking of all its URLs. */
  lemma ReaderAllRead(d: Store, open: bool, urls: seq<string>, chunks: seq<seq<string>>, n: nat,
                      bloom0: set<string>, sent: seq<Published>, ok: bool, bloom: set<string>, now: seq<Published>)
    requires ok && n >= 1 && urls == Flatten(chunks)
    requires forall j :: 0 <= j < |chunks| ==> |chunks[j]| == n
    requires ReaderRun(bloom0, d, open, chunks, sent, ok, bloom, now)
    ensures ReaderOutcome(bloom0, d, open, urls, n, sent, ok, chunks, bloom, now)
  {
    assert IsChunking(chunks, n);
    ChunkingUnique(chunks, urls, n);
  }
}
