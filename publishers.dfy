/** The downloader service's publishers: `publish_embeddings`, which hands a stored image to the
    embedding queue, and `publish_urls` with `process_and_publish_chunk`, which read the URL file, buffer
    its URLs into chunks, filter each chunk through the shared store and publish one download request
    per new URL. */
module Publishers {
  import opened Seqs
  import opened Text
  import opened Chunking
  import opened Corpus
  import opened SharedStore
  import opened Messaging
  import opened RedisClients

  /** What `publish_embeddings` leaves on the broker: one embedding message when the publish goes
      through; when the channel is missing or the broker raises, the exception is logged and nothing is
      published. */
  function EmbeddingPublish(sent: seq<Published>, open: bool, fails: bool, imageId: int, imageUrl: string, imagePath: string): (r: seq<Published>)
    ensures open && !fails ==> |r| == |sent| + 1 && r[..|sent|] == sent
                                && r[|sent|] == Published(EmbeddingQueue, EmbeddingMessage(imageId, imageUrl, imagePath))
    ensures !(open && !fails) ==> r == sent
  {
    if open && !fails then sent + [Published(EmbeddingQueue, EmbeddingMessage(imageId, imageUrl, imagePath))] else sent
  }

  /** `publish_embeddings(image_id, image_url, image_path)`; `fails` says whether the broker raises. It
      never raises itself. */
  method PublishEmbeddings(broker: Broker, imageId: int, imageUrl: string, imagePath: string, fails: bool)
    modifies broker
    ensures broker.channelOpen == old(broker.channelOpen)
    ensures broker.published == EmbeddingPublish(old(broker.published), old(broker.channelOpen), fails, imageId, imageUrl, imagePath)
  {
    if broker.channelOpen && !fails {
      broker.Publish(EmbeddingQueue, EmbeddingMessage(imageId, imageUrl, imagePath));
    }
  }

  /** The effective chunk size: the buffer is flushed once `len(urls_buffer) >= chunk_size`, so a size
      below 1 flushes after every URL. */
  function EffectiveChunkSize(chunkSize: int): (n: nat)
    ensures n >= 1 && (chunkSize >= 1 ==> n == chunkSize)
  {
    if chunkSize < 1 then 1 else chunkSize
  }

  /** `process_and_publish_chunk(urls)`: the store's filter of the chunk, then, when it is not empty,
      the channel assertion and one `{"url": u}` message to the download queue per URL, in order. `ok`
      is false when the assertion fails (`AssertionError`, which escapes). */
  method ProcessAndPublishChunk(redis: RedisClient, broker: Broker, urls: seq<string>) returns (ok: bool)
    modifies broker
    ensures broker.channelOpen == old(broker.channelOpen)
    ensures var survivors := Unprocessed(redis.data, urls);
            && (ok <==> survivors == [] || old(broker.channelOpen))
            && broker.published == old(broker.published) + (if ok then DownloadRequests(survivors) else [])
  {
    var toPublish, pipelines := redis.CheckUrlsBatch(urls);
    if |toPublish| == 0 {
      return true;
    }
    if !broker.channelOpen {
      return false;
    }
    PublishDownloadRequests(broker, toPublish);
    return true;
  }

  /** The loop `for url in urls_to_publish`: one `{"url": url}` message to the download queue each. */
  method PublishDownloadRequests(broker: Broker, urls: seq<string>)
    requires broker.channelOpen
    modifies broker
    ensures broker.channelOpen && broker.published == old(broker.published) + DownloadRequests(urls)
  {
    for i := 0 to |urls|
      invariant broker.channelOpen
      invariant broker.published == old(broker.published) + DownloadRequests(urls[..i])
    {
      TakeSnoc(urls, i);
      DownloadRequestsConcat(urls[..i], [urls[i]]);
      AppendAssoc(old(broker.published), DownloadRequests(urls[..i]), DownloadRequests([urls[i]]));
      broker.Publish(DownloadQueue, UrlMessage(urls[i]));
    }
    TakeAll(urls);
  }

  /** `publish_urls(file_path, chunk_size)` over a file system given as a map from paths to lines: a
      missing or empty path is logged and nothing is read. `ok` is false when a chunk's publish failed
      its assertion, which ends the run; `chunks` are the buffers handed to
      `process_and_publish_chunk`, in order. */
  method PublishUrls(redis: RedisClient, broker: Broker, files: map<string, seq<string>>, filePath: string, chunkSize: int)
    returns (ok: bool, chunks: seq<seq<string>>)
    modifies broker
    ensures broker.channelOpen == old(broker.channelOpen)
    ensures filePath == "" || filePath !in files ==> ok && chunks == [] && broker.published == old(broker.published)
    ensures filePath != "" && filePath in files ==>
              RunOutcome(redis.data, old(broker.channelOpen), CorpusUrls(files[filePath]), EffectiveChunkSize(chunkSize),
                         old(broker.published), ok, chunks, broker.published)
  {
    if filePath == "" || filePath !in files {
      return true, [];
    }
    ok, chunks := PublishLines(redis, broker, files[filePath], chunkSize);
  }

  /** How a run over a file whose URLs are `urls` ends: the chunks flushed are the chunking of a prefix
      of the URLs (all of them when the run completes); it fails exactly when the channel is closed and
      some URL is new; and the broker then holds one download request per new URL, or nothing new on a
      failure. */
  ghost predicate RunOutcome(d: Store, open: bool, urls: seq<string>, n: nat, sent: seq<Published>,
                             ok: bool, chunks: seq<seq<string>>, now: seq<Published>)
  {
    && chunks == Chunks(Flatten(chunks), n)
    && |Flatten(chunks)| <= |urls| && urls[..|Flatten(chunks)|] == Flatten(chunks)
    && (ok <==> open || Unprocessed(d, urls) == [])
    && (ok ==> chunks == Chunks(urls, n))
    && now == sent + (if ok then DownloadRequests(Unprocessed(d, urls)) else [])
  }

  /** The line loop of `publish_urls` and its final flush. */
  method PublishLines(redis: RedisClient, broker: Broker, lines: seq<string>, chunkSize: int)
    returns (ok: bool, chunks: seq<seq<string>>)
    modifies broker
    ensures broker.channelOpen == old(broker.channelOpen)
    ensures RunOutcome(redis.data, old(broker.channelOpen), CorpusUrls(lines), EffectiveChunkSize(chunkSize),
                       old(broker.published), ok, chunks, broker.published)
  {
    ghost var n := EffectiveChunkSize(chunkSize);
    ghost var sent := broker.published;
    ghost var open := broker.channelOpen;
    var buffer: seq<string> := [];
    chunks := [];
    for i := 0 to |lines|
      invariant Buffered(lines[..i], chunks, buffer, n)
      invariant broker.channelOpen == open
      invariant PublishedSoFar(sent, redis.data, open, chunks, broker.published)
    {
      var stopped;
      chunks, buffer, stopped := ReadLineStep(redis, broker, sent, open, lines, i, chunks, buffer, chunkSize);
      if stopped {
        return false, chunks;
      }
    }
    TakeAll(lines);
    ok, chunks := FinalFlush(redis, broker, sent, open, lines, chunks, buffer, n);
  }

  /** The flush after the last line: a non-empty buffer becomes the last chunk. */
  method FinalFlush(redis: RedisClient, broker: Broker, ghost sent: seq<Published>, ghost open: bool, lines: seq<string>,
                    chunks: seq<seq<string>>, buffer: seq<string>, ghost n: nat)
    returns (ok: bool, chunks': seq<seq<string>>)
    requires n >= 1 && Buffered(lines, chunks, buffer, n)
    requires broker.channelOpen == open
    requires PublishedSoFar(sent, redis.data, open, chunks, broker.published)
    modifies broker
    ensures broker.channelOpen == open
    ensures RunOutcome(redis.data, open, CorpusUrls(lines), n, sent, ok, chunks', broker.published)
  {
    if |buffer| > 0 {
      var chunkOk := FlushBuffer(redis, broker, sent, open, chunks, buffer);
      FlattenSnoc(chunks, buffer);
      chunks' := chunks + [buffer];
      ok := chunkOk;
      if !chunkOk {
        TakeAll(lines);
        Stopped(redis.data, open, lines, |lines|, chunks', n, sent, broker.published, ok);
      } else {
        Completed(redis.data, open, CorpusUrls(lines), chunks', n, sent, broker.published, ok);
      }
    } else {
      AppendEmpty(Flatten(chunks));
      ok, chunks' := true, chunks;
      Completed(redis.data, open, CorpusUrls(lines), chunks', n, sent, broker.published, ok);
    }
  }

  /** One pass of the line loop: strip the line, skip it or buffer it, and flush a full buffer.
      `stopped` reports that the flush failed its channel assertion. */
  method ReadLineStep(redis: RedisClient, broker: Broker, ghost sent: seq<Published>, ghost open: bool, lines: seq<string>, i: nat,
                      chunks: seq<seq<string>>, buffer: seq<string>, chunkSize: int)
    returns (chunks': seq<seq<string>>, buffer': seq<string>, stopped: bool)
    requires i < |lines| && Buffered(lines[..i], chunks, buffer, EffectiveChunkSize(chunkSize))
    requires broker.channelOpen == open
    requires PublishedSoFar(sent, redis.data, open, chunks, broker.published)
    modifies broker
    ensures broker.channelOpen == open
    ensures !stopped ==> && Buffered(lines[..i + 1], chunks', buffer', EffectiveChunkSize(chunkSize))
                         && PublishedSoFar(sent, redis.data, open, chunks', broker.published)
    ensures stopped ==> RunOutcome(redis.data, open, CorpusUrls(lines), EffectiveChunkSize(chunkSize),
                                   sent, false, chunks', broker.published)
  {
    chunks', buffer', stopped := chunks, buffer, false;
    var url := Strip(lines[i]);
    buffer' := if IsUrlLine(url) then buffer + [url] else buffer;
    LineBuffered(lines, i, chunks, buffer, chunkSize, buffer');
    if !IsUrlLine(url) || |buffer'| < chunkSize {
      return;
    }
    chunks', buffer', stopped := FlushFull(redis, broker, sent, open, lines, i, chunks, buffer', chunkSize);
  }

  /** Line `i` filled the buffer: flush it as the next chunk and start an empty buffer, or stop when the
      chunk could not be published. */
  method FlushFull(redis: RedisClient, broker: Broker, ghost sent: seq<Published>, ghost open: bool, lines: seq<string>, i: nat,
                   chunks: seq<seq<string>>, full: seq<string>, chunkSize: int)
    returns (chunks': seq<seq<string>>, buffer': seq<string>, stopped: bool)
    requires i < |lines| && CorpusUrls(lines[..i + 1]) == Flatten(chunks) + full
    requires |full| == EffectiveChunkSize(chunkSize)
    requires forall j :: 0 <= j < |chunks| ==> |chunks[j]| == EffectiveChunkSize(chunkSize)
    requires broker.channelOpen == open
    requires PublishedSoFar(sent, redis.data, open, chunks, broker.published)
    modifies broker
    ensures broker.channelOpen == open
    ensures !stopped ==> && Buffered(lines[..i + 1], chunks', buffer', EffectiveChunkSize(chunkSize))
                         && PublishedSoFar(sent, redis.data, open, chunks', broker.published)
    ensures stopped ==> RunOutcome(redis.data, open, CorpusUrls(lines), EffectiveChunkSize(chunkSize),
                                   sent, false, chunks', broker.published)
  {
    var chunkOk := FlushBuffer(redis, broker, sent, open, chunks, full);
    chunks' := chunks + [full];
    buffer' := [];
    if !chunkOk {
      stopped := true;
      StoppedAtChunk(redis.data, open, lines, i, chunks, full, EffectiveChunkSize(chunkSize), sent, broker.published, false);
      return;
    }
    stopped := false;
    Refilled(lines, i, chunks, full, EffectiveChunkSize(chunkSize));
  }

  /** After a successful flush the chunks hold every URL read so far and the buffer is empty. */
  lemma Refilled(lines: seq<string>, i: nat, chunks: seq<seq<string>>, full: seq<string>, n: nat)
    requires i < |lines| && CorpusUrls(lines[..i + 1]) == Flatten(chunks) + full
    requires n >= 1 && |full| == n && forall j :: 0 <= j < |chunks| ==> |chunks[j]| == n
    ensures Buffered(lines[..i + 1], chunks + [full], [], n)
  {
    FlattenSnoc(chunks, full);
    assert full + [] == full;
  }

  /** The failed flush of a full buffer stops the run. */
  lemma StoppedAtChunk(d: Store, open: bool, lines: seq<string>, i: nat, chunks: seq<seq<string>>, full: seq<string>, n: nat,
                       sent: seq<Published>, now: seq<Published>, ok: bool)
    requires !open && now == sent && !ok && n >= 1
    requires i < |lines| && CorpusUrls(lines[..i + 1]) == Flatten(chunks) + full
    requires |full| == n && forall j :: 0 <= j < |chunks| ==> |chunks[j]| == n
    requires Unprocessed(d, full) != []
    ensures RunOutcome(d, open, CorpusUrls(lines), n, sent, ok, chunks + [full], now)
  {
    FlattenSnoc(chunks, full);
    var cs := chunks + [full];
    assert cs[|cs| - 1] == full;
    forall j | 0 <= j < |cs| - 1 ensures |cs[j]| == n {
      assert cs[j] == chunks[j];
    }
    Stopped(d, open, lines, i + 1, cs, n, sent, now, ok);
  }

  /** The loop's invariant: the URLs of the lines read so far are the flushed chunks followed by the
      buffer; every flushed chunk is full, and the buffer is not. */
  ghost predicate Buffered(read: seq<string>, chunks: seq<seq<string>>, buffer: seq<string>, n: nat)
  {
    && CorpusUrls(read) == Flatten(chunks) + buffer
    && (forall j :: 0 <= j < |chunks| ==> |chunks[j]| == n)
    && |buffer| < n
  }

  /** Reading line `i` appends its URL, if any, to the buffer's share of the URLs. */
  lemma ReadLine(lines: seq<string>, i: nat, chunks: seq<seq<string>>, buffer: seq<string>, n: nat)
    requires i < |lines| && Buffered(lines[..i], chunks, buffer, n)
    ensures var u := Strip(lines[i]);
            CorpusUrls(lines[..i + 1]) == Flatten(chunks) + buffer + (if IsUrlLine(u) then [u] else [])
  {
    assert lines[..i + 1][..i] == lines[..i];
  }

  /** After line `i` the buffer either stays short of a chunk and keeps the loop's invariant, or holds
      exactly one chunk's worth of URLs. */
  lemma LineBuffered(lines: seq<string>, i: nat, chunks: seq<seq<string>>, buffer: seq<string>, chunkSize: int, b: seq<string>)
    requires i < |lines| && Buffered(lines[..i], chunks, buffer, EffectiveChunkSize(chunkSize))
    requires b == if IsUrlLine(Strip(lines[i])) then buffer + [Strip(lines[i])] else buffer
    ensures CorpusUrls(lines[..i + 1]) == Flatten(chunks) + b
    ensures !IsUrlLine(Strip(lines[i])) || |b| < chunkSize ==> Buffered(lines[..i + 1], chunks, b, EffectiveChunkSize(chunkSize))
    ensures IsUrlLine(Strip(lines[i])) && |b| >= chunkSize ==> |b| == EffectiveChunkSize(chunkSize)
  {
    ReadLine(lines, i, chunks, buffer, EffectiveChunkSize(chunkSize));
    AppendEmpty(Flatten(chunks) + buffer);
  }

  /** What the broker holds after a run over `chunks` that has not stopped: the download requests for
      the chunks' new URLs after the messages `sent` before the run, and on a closed channel no such
      URL at all. */
  ghost predicate PublishedSoFar(sent: seq<Published>, d: Store, open: bool, chunks: seq<seq<string>>, now: seq<Published>)
  {
    && now == sent + DownloadRequests(Unprocessed(d, Flatten(chunks)))
    && (!open ==> Unprocessed(d, Flatten(chunks)) == [])
  }

  /** One flush of the buffer inside `publish_urls`: `process_and_publish_chunk(urls_buffer)`. */
  method FlushBuffer(redis: RedisClient, broker: Broker, ghost sent: seq<Published>, ghost open: bool,
                     ghost chunks: seq<seq<string>>, buffer: seq<string>)
    returns (ok: bool)
    requires broker.channelOpen == open
    requires PublishedSoFar(sent, redis.data, open, chunks, broker.published)
    modifies broker
    ensures broker.channelOpen == open
    ensures ok ==> PublishedSoFar(sent, redis.data, open, chunks + [buffer], broker.published)
    ensures !ok ==> && !open && Unprocessed(redis.data, buffer) != []
                    && broker.published == sent
                    && Unprocessed(redis.data, Flatten(chunks)) == []
  {
    ghost var before := broker.published;
    ok := ProcessAndPublishChunk(redis, broker, buffer);
    FlushOutcome(sent, redis.data, open, chunks, buffer, before, broker.published, ok);
  }

  /** What one flush leaves, in terms of the broker's messages before and after it. */
  lemma FlushOutcome(sent: seq<Published>, d: Store, open: bool, chunks: seq<seq<string>>, buffer: seq<string>,
                     before: seq<Published>, now: seq<Published>, ok: bool)
    requires PublishedSoFar(sent, d, open, chunks, before)
    requires ok <==> Unprocessed(d, buffer) == [] || open
    requires now == before + (if ok then DownloadRequests(Unprocessed(d, buffer)) else [])
    ensures ok ==> PublishedSoFar(sent, d, open, chunks + [buffer], now)
    ensures !ok ==> && !open && Unprocessed(d, buffer) != [] && now == sent && Unprocessed(d, Flatten(chunks)) == []
  {
    if ok {
      FlushedChunk(d, chunks, buffer);
      AppendAssoc(sent, DownloadRequests(Unprocessed(d, Flatten(chunks))), DownloadRequests(Unprocessed(d, buffer)));
      if !open {
        assert Unprocessed(d, Flatten(chunks + [buffer])) == [] + [];
      }
    } else {
      assert now == before + [];
      assert DownloadRequests([]) == [];
    }
  }

  /** Appending a flushed buffer to the chunks appends it to their concatenation and its survivors to
      theirs. */
  lemma FlushedChunk(d: Store, chunks: seq<seq<string>>, buffer: seq<string>)
    ensures Flatten(chunks + [buffer]) == Flatten(chunks) + buffer
    ensures Unprocessed(d, Flatten(chunks + [buffer])) == Unprocessed(d, Flatten(chunks)) + Unprocessed(d, buffer)
    ensures DownloadRequests(Unprocessed(d, Flatten(chunks + [buffer])))
            == DownloadRequests(Unprocessed(d, Flatten(chunks))) + DownloadRequests(Unprocessed(d, buffer))
  {
    FlattenSnoc(chunks, buffer);
    UnprocessedConcat(d, Flatten(chunks), buffer);
    DownloadRequestsConcat(Unprocessed(d, Flatten(chunks)), Unprocessed(d, buffer));
  }

  /** When a run stops at a failed chunk after line `i`, the chunks flushed so far are the chunking of a
      prefix of the file's URLs, some URL was new, and nothing was published. */
  lemma Stopped(d: Store, open: bool, lines: seq<string>, i: nat, chunks: seq<seq<string>>, n: nat, sent: seq<Published>, now: seq<Published>, ok: bool)
    requires !open && now == sent && !ok
    requires n >= 1 && i <= |lines| && |chunks| >= 1
    requires forall j :: 0 <= j < |chunks| - 1 ==> |chunks[j]| == n
    requires 0 < |chunks[|chunks| - 1]| <= n
    requires CorpusUrls(lines[..i]) == Flatten(chunks)
    requires Unprocessed(d, chunks[|chunks| - 1]) != []
    ensures RunOutcome(d, open, CorpusUrls(lines), n, sent, ok, chunks, now)
  {
    assert IsChunking(chunks, n);
    ChunkingUnique(chunks, Flatten(chunks), n);
    CorpusPrefix(lines, i);
    LastChunkNew(d, chunks, CorpusUrls(lines[i..]));
    assert sent + [] == sent;
  }

  /** The URLs of the first `i` lines are a prefix of the file's URLs, followed by those of the rest. */
  lemma CorpusPrefix(lines: seq<string>, i: nat)
    requires i <= |lines|
    ensures CorpusUrls(lines) == CorpusUrls(lines[..i]) + CorpusUrls(lines[i..])
    ensures |CorpusUrls(lines[..i])| <= |CorpusUrls(lines)|
    ensures CorpusUrls(lines)[..|CorpusUrls(lines[..i])|] == CorpusUrls(lines[..i])
  {
    assert lines == lines[..i] + lines[i..];
    CorpusConcat(lines[..i], lines[i..]);
    PrefixOfAppend(CorpusUrls(lines[..i]), CorpusUrls(lines[i..]));
  }

  /** A chunk with a new URL leaves a new URL in everything that starts with the chunks. */
  lemma LastChunkNew(d: Store, chunks: seq<seq<string>>, rest: seq<string>)
    requires |chunks| >= 1 && Unprocessed(d, chunks[|chunks| - 1]) != []
    ensures Unprocessed(d, Flatten(chunks) + rest) != []
  {
    var init, last := chunks[..|chunks| - 1], chunks[|chunks| - 1];
    FrontLast(chunks);
    FlattenSnoc(init, last);
    UnprocessedConcat(d, Flatten(init), last);
    UnprocessedConcat(d, Flatten(chunks), rest);
    assert |Unprocessed(d, Flatten(chunks) + rest)| >= |Unprocessed(d, last)|;
  }

  /** A run that read the whole file flushed exactly the chunking of its URLs and published a download
      request for each new one. */
  lemma Completed(d: Store, open: bool, urls: seq<string>, chunks: seq<seq<string>>, n: nat, sent: seq<Published>, now: seq<Published>, ok: bool)
    requires ok && n >= 1 && Flatten(chunks) == urls
    requires forall j :: 0 <= j < |chunks| - 1 ==> |chunks[j]| == n
    requires forall j :: 0 <= j < |chunks| ==> 0 < |chunks[j]| <= n
    requires PublishedSoFar(sent, d, open, chunks, now)
    ensures RunOutcome(d, open, urls, n, sent, ok, chunks, now)
  {
    assert IsChunking(chunks, n);
    ChunkingUnique(chunks, urls, n);
  }
}
