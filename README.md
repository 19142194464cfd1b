# URL admission and deduplication in image-search-app

This project models, in Dafny, how the image-search-app services decide which image URLs to fetch,
and how they keep from fetching the same one twice. A producer (`publish_urls` in the downloader
service, or its file-reader counterpart) reads a URL file line by line. It trims each line, skips
blank and `#` lines, and buffers the URLs into chunks. It filters each chunk through the shared Redis
store, and in the file reader also through an in-memory Bloom filter, then sends one `{"url": u}`
message per new URL to the download queue.

The consumer callback `process_url` runs `DownloaderService.download_image`, in the current version
and in the legacy one. That method:

- takes a per-URL lock;
- in the current version, validates the URL;
- checks the Bloom filter, then the `downloaded:` marker, then the `not_found:` marker;
- fetches the URL;
- on a 404, marks the URL as not found;
- otherwise writes the file and records it in the `images` table (an insert-or-get keyed by URL);
- on a truthy id, sets the downloaded marker, adds the URL to the Bloom filter and returns
  `(id, path)`;
- releases the lock in a `finally`.

A returned image is then handed to the embedding queue. On the embedding side, `process_message`
checks the three fields, asks for an embedding, indexes it, and counts an embedding or an error. On
the side, there are:

- two stand-alone downloaders with an in-progress set, a request counter for 200 answers and an
  exponential back-off;
- the connection-retry loops;
- `chunked_iterable`;
- `paginate_results`.

Modelling conventions:

- **Shared state is values.** The shared store is a `map<string, string>` and the `images` table is a
  map from URL to row, with a SERIAL counter. The Bloom filter is a set with no false positives. The
  metrics are natural-number counters. The message queue is the sequence of messages published.
- **Each step is a pure function.** One `download_image` call is a function `Download` from the world
  it runs in to the world after it, together with the collaborator calls it made and its outcome.
- **Collaborators are parameters.** What the network, the database and the collaborators do during
  one call is an `Env`: the HTTP answer, the set of collaborator calls that raise, and the database's
  behaviour.
- **Mutable objects are classes.** The source's objects become classes whose fields the methods
  update: `RedisClient`, `Database`, `DownloaderService`, `FileReaderService`, `ImageDownloader`, the
  broker and the counters. Each method's postcondition states the new state as the pure function of
  the old one. The properties are lemmas about those functions.
- **SHA-256 is a parameter.** It is `digest: string -> string`; where the shape of a file name
  matters, it is assumed to give 64 lower-case hexadecimal digits.
- **`urlparse` is simplified.** The model covers the scheme (letters first, then letters, digits, `+`,
  `-` and `.`, lower-cased), the network location after `//` up to the first `/`, `?` or `#`, and the
  `ValueError` on unbalanced brackets, which reads as an invalid URL.

Behaviours of the code that the model makes explicit:

- **`generate_filename` and host labels.** `generate_filename` takes the extension of everything
  before the first `?`. For a URL without a path, such as `http://example.com`, the host's last label
  becomes the extension (`.com`); see `Filenames.HostLabelBecomesExtension`.
- **The file reader can lose a URL.** The file reader's `filter_new_urls` adds the new URLs to the
  Bloom filter before the publish. When the channel is missing, the publish fails its assertion and
  those URLs are never offered again; see `ReaderPublisher.ClosedChannelLosesUrl`.
- **Duplicates in one chunk both pass.** `filter_new_urls` adds to the Bloom filter only after
  filtering, so two copies of a new URL in one chunk both pass; see `FileReader.DuplicatesBothPass`.
- **Marker-check errors differ between versions.** In the legacy `download_image` an exception from a
  marker check escapes the call, though the lock is still released. The current version catches it,
  counts it and returns `None`; see `Downloading.CheckFaultHandling`.
- **The legacy version fetches any URL.** The legacy `download_image` has no validation step, so it
  fetches URLs that the current version rejects; see `Downloading.LegacyFetchesUnvalidated`.
- **The two stand-alone downloaders differ in two ways.** `downloader_service/downloader.py` requests
  the URL as given, without stripping it. It also lets exceptions other than client, OS and runtime
  errors escape. `downloader/downloader.py` requests the stripped URL and catches every exception.

## Model

| member | source | states |
|---|---|---|
| `SharedStore.ExistsCount` | downloader_service/src/infrastructure/redis_client.py:37-39 | `EXISTS` on one key answers 0 or 1, and 1 exactly when the key is present |
| `SharedStore.NamespacesDisjoint` | downloader_service/src/infrastructure/redis_client.py:38-62 | the `downloaded:`, `not_found:` and `lock:` key spaces never overlap, and each maps URLs to keys one-to-one |
| `SharedStore.MarkDownloadedThenQuery` | downloader_service/src/infrastructure/redis_client.py:37-43 | after `cache_url_as_downloaded(u, p)` the URL reads as downloaded with value `p`; no other URL's downloaded answer, no not-found answer and no lock changes |
| `SharedStore.MarkNotFoundThenQuery` | downloader_service/src/infrastructure/redis_client.py:45-51 | after `cache_url_as_not_found(u)` the URL reads as not found; nothing else that is observable changes |
| `SharedStore.TryLockSemantics` | downloader_service/src/infrastructure/redis_client.py:53-59 | the lock is acquired iff `lock:u` was absent, it is then set to `in_progress`, a second acquire fails, and a failed acquire changes nothing |
| `SharedStore.UnlockThenLock` | downloader_service/src/infrastructure/redis_client.py:61-63 | release deletes `lock:u` whoever holds it, so the next acquire succeeds |
| `SharedStore.LocksKeepMarkers` | downloader_service/src/infrastructure/redis_client.py:53-63 | acquiring or releasing any lock leaves every downloaded and not-found answer as it was |
| `SharedStore.UnprocessedMembers` | downloader_service/src/infrastructure/redis_client.py:86-92 | a URL is in the batch result iff it is in the input and has neither marker |
| `SharedStore.UnprocessedKeepsDuplicates` | downloader_service/src/infrastructure/redis_client.py:86-92 | each new URL appears as often as in the input, and a marked one not at all |
| `SharedStore.UnprocessedWithoutMarkers` | file_reader_service/src/infrastructure/redis_client.py:25-44 | with no markers for any input URL, the result is the input itself |
| `SharedStore.UnprocessedConcat` | downloader_service/src/infrastructure/redis_client.py:86-92 | filtering is done URL by URL, so the filter of a concatenation is the concatenation of the filters |
| `SharedStore.BatchExample` | downloader_service/src/infrastructure/redis_client.py:65-92 | `["a","b","c"]` with `b` downloaded and `c` not found gives `["a"]` |
| `SharedStore.Keys` | downloader_service/src/infrastructure/redis_client.py:77-83 | the pipelined keys are the prefix followed by each URL, one per URL, in order |
| `RedisClients.RedisClient.constructor` | downloader_service/src/infrastructure/redis_client.py:20-35 | a client over a given store |
| `RedisClients.RedisClient.IsUrlDownloaded` | downloader_service/src/infrastructure/redis_client.py:37-39 | true iff `downloaded:u` exists |
| `RedisClients.RedisClient.CacheUrlAsDownloaded` | downloader_service/src/infrastructure/redis_client.py:41-43 | the store becomes the old one with `downloaded:u` set to the path |
| `RedisClients.RedisClient.IsUrlMarkedAsNotFound` | downloader_service/src/infrastructure/redis_client.py:45-47 | true iff `not_found:u` exists |
| `RedisClients.RedisClient.CacheUrlAsNotFound` | downloader_service/src/infrastructure/redis_client.py:49-51 | the store becomes the old one with `not_found:u` set to `true` |
| `RedisClients.RedisClient.AcquireDownloadLock` | downloader_service/src/infrastructure/redis_client.py:53-59 | SET-if-absent: acquired iff `lock:u` was absent, and the new store is `TryLock` of the old |
| `RedisClients.RedisClient.ReleaseDownloadLock` | downloader_service/src/infrastructure/redis_client.py:61-63 | the store loses `lock:u` and nothing else |
| `RedisClients.RedisClient.ExecuteExists` | downloader_service/src/infrastructure/redis_client.py:77-79 | one pipelined `EXISTS` answer per key, in order |
| `RedisClients.RedisClient.CheckUrlsBatch` | downloader_service/src/infrastructure/redis_client.py:65-92 | the result is the order-preserving filter of URLs with neither marker; an empty input opens no pipeline, any other opens exactly the two `EXISTS` pipelines; nothing is written |
| `RedisClients.ReaderRedisClient.constructor` | file_reader_service/src/infrastructure/redis_client.py:9-23 | a file-reader client over a given store |
| `RedisClients.ReaderRedisClient.ExecuteExists` | file_reader_service/src/infrastructure/redis_client.py:29-36 | one pipelined `EXISTS` answer per key, in order |
| `RedisClients.ReaderRedisClient.CheckUrlsBatch` | file_reader_service/src/infrastructure/redis_client.py:25-44 | the variant that keeps a URL when both answers are 0: the same order-preserving filter, no pipeline for an empty input |
| `Records.EmptyTable` | downloader_service/src/infrastructure/database.py:41-53 | the freshly created `images` table is empty and well formed |
| `Records.NewUrlInserted` | downloader_service/src/infrastructure/database.py:67-80 | a new URL gets a row with the next SERIAL id, which no other row has, and that id is returned |
| `Records.ExistingUrlKept` | downloader_service/src/infrastructure/database.py:67-86 | an existing URL adds no row, keeps its stored path and returns the existing id |
| `Records.StoreTwiceSameId` | downloader_service/src/infrastructure/database.py:67-86 | storing the same URL twice returns the same id both times and the second call changes no row |
| `Records.NoneOnlyWhenRowVanished` | downloader_service/src/infrastructure/database.py:82-89 | `None` comes back exactly when the insert conflicts and the select then finds no row; a failing query raises and changes nothing |
| `Records.StorePreservesWellFormed` | downloader_service/src/infrastructure/database.py:43-49 | one row per URL and distinct SERIAL ids are kept by every call |
| `Records.ReturnedIdNamesRow` | downloader_service/src/database.py:46-73 | a returned id is at least 1 and is the id of the URL's row |
| `Records.Database.constructor` | downloader_service/src/infrastructure/database.py:20-53 | a database starts with the empty table |
| `Records.Database.StoreImageRecord` | downloader_service/src/infrastructure/database.py:55-89 | the new table and the answer are `StoreRecord` of the old table (insert on conflict do nothing, then select) |
| `Messaging.DownloadRequests` | downloader_service/src/application/messaging/publishers.py:76-80 | one `{"url": u}` message to the download queue per URL, in order |
| `Messaging.DownloadRequestsConcat` | downloader_service/src/application/messaging/publishers.py:76-80 | publishing two batches in turn publishes their concatenation |
| `Messaging.RequestedUrls` | downloader_service/src/application/messaging/callbacks.py:18-22 | the URLs a consumer receives from the published messages, no more of them than messages |
| `Messaging.RequestedUrlsOfRequests` | downloader_service/src/application/messaging/publishers.py:76-80 | the download requests for a list of URLs carry exactly that list |
| `Messaging.Broker.constructor` | downloader_service/src/infrastructure/rabbitmq_client.py:72-89 | a broker with a given channel state and nothing published |
| `Messaging.Broker.Publish` | downloader_service/src/infrastructure/rabbitmq_client.py:72-89 | publishing on an open channel appends exactly the one message to its queue |
| `Corpus.CorpusUrls` | downloader_service/src/application/messaging/publishers.py:50-54 | the URLs of a file are its trimmed lines that are neither blank nor start with `#`, no more than there are lines |
| `Corpus.CorpusConcat` | downloader_service/src/application/messaging/publishers.py:50-54 | lines are read one at a time, so the URLs of two stretches of lines concatenate |
| `Corpus.CorpusUrlsAreStripped` | file_reader_service/src/application/publisher.py:25-29 | every URL is one of the lines with its surrounding white space removed |
| `Corpus.CommentAndBlankSkipped` | file_reader_service/src/application/publisher.py:25-29 | the lines `""`, `"#comment"` and one URL yield exactly that URL |
| `Publishers.EmbeddingPublish` | downloader_service/src/application/messaging/publishers.py:17-30 | with an open channel and no broker error exactly one message with `image_id`, `image_url` and `image_path` is appended to the embedding queue; otherwise nothing is published |
| `Publishers.PublishEmbeddings` | downloader_service/src/application/messaging/publishers.py:17-30 | the broker's messages become `EmbeddingPublish` of the old ones; the call never raises |
| `Publishers.EffectiveChunkSize` | downloader_service/src/application/messaging/publishers.py:56-58 | the flush test `len(buffer) >= chunk_size` makes any size below 1 act as 1 |
| `Publishers.ProcessAndPublishChunk` | downloader_service/src/application/messaging/publishers.py:63-81 | the store's filter of the chunk is published in order, one message each; an empty filter result publishes nothing; a missing channel with something to publish fails the assertion and publishes nothing |
| `Publishers.PublishUrls` | downloader_service/src/application/messaging/publishers.py:32-61 | a missing or empty path processes no chunk; otherwise the chunks are the chunking of the file's URLs (of a prefix when a chunk fails), and the broker holds one download request per new URL |
| `Publishers.PublishLines` | downloader_service/src/application/messaging/publishers.py:47-61 | the line loop and final flush end in `RunOutcome`: full chunks except a non-empty last, in file order, and the requests for their new URLs |
| `Publishers.ReadLineStep` | downloader_service/src/application/messaging/publishers.py:50-58 | one pass of the loop keeps the buffering invariant and the published-so-far invariant, or stops the run at a failed chunk |
| `Publishers.PublishDownloadRequests` | downloader_service/src/application/messaging/publishers.py:76-80 | on an open channel the broker keeps what it held and gains one download-queue message `{"url": u}` per URL, in the URLs' order |
| `Publishers.FinalFlush` | downloader_service/src/application/messaging/publishers.py:60-61 | after the last line a non-empty buffer is flushed as the last chunk and an empty one flushes nothing; either way the run ends in `RunOutcome` |
| `Publishers.FlushBuffer` | downloader_service/src/application/messaging/publishers.py:56-61 | a flush publishes the requests for the buffer's new URLs, or fails only on a closed channel with new URLs |
| `Publishers.Completed` | downloader_service/src/application/messaging/publishers.py:47-61 | a run that read the whole file flushed exactly the chunking of its URLs |
| `FileReader.BloomedNeverSent` | file_reader_service/src/domain/file_reader_service.py:33-37 | a URL already in the Bloom filter is neither sent to the store nor returned |
| `FileReader.AllBloomed` | file_reader_service/src/domain/file_reader_service.py:33-35 | when every URL is in the Bloom filter the result is `[]`, the filter is unchanged and the store is not consulted |
| `FileReader.ResultIsSubsequence` | file_reader_service/src/domain/file_reader_service.py:33-41 | the result is the input filtered to URLs outside the Bloom filter with neither marker, in order |
| `FileReader.ResultIsBloomed` | file_reader_service/src/domain/file_reader_service.py:38-39 | the Bloom filter grows by exactly the returned URLs |
| `FileReader.RepeatYieldsNothing` | file_reader_service/src/domain/file_reader_service.py:33-41 | asking again for a URL already returned yields `[]`, whatever the store says |
| `FileReader.DuplicatesBothPass` | file_reader_service/src/domain/file_reader_service.py:33-39 | two copies of a new URL in one batch are both returned |
| `FileReader.FileReaderService.constructor` | file_reader_service/src/domain/file_reader_service.py:18-24 | the service starts with an empty Bloom filter |
| `FileReader.FileReaderService.FilterNewUrls` | file_reader_service/src/domain/file_reader_service.py:26-41 | the result and the new Bloom filter are those of `FilterNew` on the old filter and the store |
| `ReaderPublisher.ReaderSnoc` | file_reader_service/src/application/publisher.py:31-36 | a run over one more chunk is the shorter run followed by that chunk's filter and publish |
| `ReaderPublisher.OpenChannelCompletes` | file_reader_service/src/application/publisher.py:43-53 | with an open channel every chunk is published |
| `ReaderPublisher.ClosedChannelPublishesNothing` | file_reader_service/src/application/publisher.py:43-48 | with no channel no download request is ever published |
| `ReaderPublisher.ReaderRunSound` | file_reader_service/src/application/publisher.py:39-54 | the Bloom filter only grows, and every URL published came from the chunks, was new in the store, was not in the filter before, and is in it now |
| `ReaderPublisher.ReaderRunComplete` | file_reader_service/src/application/publisher.py:39-54 | in a run that did not stop, every new URL of the chunks was in the filter before or is published |
| `ReaderPublisher.ReaderRunNoRepeats` | file_reader_service/src/domain/file_reader_service.py:33-41 | when no chunk repeats a URL, no URL is published twice in a run |
| `ReaderPublisher.PublishesExactlyNew` | file_reader_service/src/application/publisher.py:39-54 | with an open channel the URLs published are exactly the new URLs of the chunks not already in the filter |
| `ReaderPublisher.NeverRepublished` | file_reader_service/src/domain/file_reader_service.py:33 | a URL in the Bloom filter is never published |
| `ReaderPublisher.ClosedChannelLosesUrl` | file_reader_service/src/application/publisher.py:43-48 | with no channel, a new URL in a chunk ends in the Bloom filter although it was never published |
| `ReaderPublisher.ReaderProcessChunk` | file_reader_service/src/application/publisher.py:39-54 | the filter and the broker change as `ReaderChunk` says: the requests for `filter_new_urls(chunk)` in order, none on an empty result, the assertion failing on a missing channel |
| `ReaderPublisher.ReaderPublishUrls` | file_reader_service/src/application/publisher.py:15-36 | a missing file publishes nothing and leaves the filter; otherwise the chunks are the chunking of the file's URLs and the broker and filter are those of the chunk run |
| `ReaderPublisher.ReaderPublishLines` | file_reader_service/src/application/publisher.py:23-36 | the line loop and final flush end in `ReaderOutcome` |
| `ReaderPublisher.ReaderFinalFlush` | file_reader_service/src/application/publisher.py:35-36 | after the last line a non-empty buffer is flushed as the last chunk and an empty one flushes nothing; either way the run ends in `ReaderOutcome` |
| `ReaderPublisher.ReaderReadLineStep` | file_reader_service/src/application/publisher.py:25-33 | one pass of the loop keeps the buffering and run invariants, or stops the run at a failed chunk |
| `ReaderPublisher.ReaderFlush` | file_reader_service/src/application/publisher.py:32-36 | one flush extends the run by the buffer's chunk |
| `Chunking.ChunkedIterable` | downloader_service/utils.py:70-86 | a negative size raises (`islice` refuses it); otherwise the chunks are `Chunks(items, size)` |
| `Chunking.ChunksFlatten` | downloader_service/utils.py:81-86 | for a size of at least 1 the chunks concatenate to the input |
| `Chunking.ChunksShape` | downloader_service/utils.py:83-86 | every chunk is non-empty and at most `size` long, and all but the last are exactly `size` |
| `Chunking.ChunksBound` | downloader_service/utils.py:81-86 | the number of chunks is the least `c` with `c * size >= n` |
| `Chunking.ChunksCount` | downloader_service/utils.py:81-86 | the number of chunks is the ceiling of `n / size` |
| `Chunking.ChunksNone` | downloader_service/utils.py:83-85 | an empty input or a size of 0 yields no chunk |
| `Chunking.ChunkingUnique` | downloader_service/utils.py:81-86 | any list of chunks of that shape with the same concatenation is the generator's output |
| `Chunking.TenByThree` | downloader/downloader.py:122-131 | ten items by three give four chunks, the first `[0,1,2]` and the last `[9]` |
| `Pagination.Clamp` | api_service/src/application/pagination.py:21-23 | Python's clamping of a slice bound: negative bounds count from the end, and bounds past the end stop there |
| `Pagination.PageIsStretch` | api_service/src/application/pagination.py:21-23 | the page is the stretch of `results` from `(page-1)*size`, of length `min(start+size, n) - min(start, n)` |
| `Pagination.PageLength` | api_service/src/application/pagination.py:21-23 | a page has at most `size` items, exactly `size` when `page*size <= n` |
| `Pagination.PastTheEnd` | api_service/src/pagination.py:20-22 | a page starting at or past the end is empty |
| `Pagination.PagesArePrefix` | api_service/src/application/pagination.py:21-23 | pages 1 to `k` concatenate to the first `min(k*size, n)` items |
| `Pagination.PaginationExamples` | api_service/src/application/pagination.py:9-23 | page 1 of size 3 is `data[0:3]`, page 2 of size 5 is `data[5:10]` |
| `Retry.RetryConnection` | downloader_service/src/application/retry.py:13-38 | the loop's outcome, call count and sleeps are `RetrySpec` |
| `Retry.SuccessOnAttempt` | downloader_service/src/application/retry.py:26-36 | success on attempt `k` means `k` calls, `k-1` sleeps and a normal return |
| `Retry.PersistentFailure` | downloader_service/src/application/retry.py:26-38 | failing every time means `max_retries` calls, `max_retries-1` sleeps and a `ConnectionError` |
| `Retry.NoBudget` | downloader_service/src/application/retry.py:26-38 | `max_retries <= 0` means no call, no sleep and an immediate `ConnectionError` |
| `Retry.SleepsAreFixed` | downloader_service/src/application/retry.py:34-36 | every sleep lasts exactly `delay`, and there is never more than one sleep per call |
| `Retry.CancelledOnAttempt` | embedding_service/src/application/retry.py:13-25 | a cancellation, which `except Exception` does not catch, ends the loop at once with the calls and sleeps made so far |
| `Retry.ThreeFailures` | embedding_service/src/application/retry.py:13-25 | three failures with `max_retries=3` give 3 calls and 2 sleeps, then `ConnectionError` |
| `Urls.NetlocLength` | downloader_service/src/domain/download_service.py:149-152 | the network location runs up to the first `/`, `?` or `#` |
| `Urls.AcceptedParts` | downloader_service/src/domain/download_service.py:143-152 | an accepted URL has scheme `http` or `https` and a non-empty network location after `//` |
| `Urls.ValidUrlShape` | downloader_service/src/domain/download_service.py:143-152 | an accepted URL reads `scheme://` with a lower-cased scheme of `http` or `https`, then a character that starts a host |
| `Urls.ValidUrlFromParts` | downloader_service/src/domain/download_service.py:143-152 | conversely, `http` or `https`, `://`, a non-empty host and a path, query or nothing is accepted |
| `Urls.OtherSchemeRejected` | downloader_service/src/domain/download_service.py:143-152 | any other scheme is rejected even with a host |
| `Urls.OtherSchemeFromParts` | downloader_service/src/domain/download_service.py:143-152 | a URL `scheme://host…` with a lowercase scheme other than `http` and `https` is rejected even though its host is not empty |
| `Urls.FtpRejected` | downloader_service/tests/unittests/test_utils.py:26-29 | `ftp://example.com` is rejected |
| `Urls.NoColonRejected` | downloader_service/src/domain/download_service.py:143-152 | a string without `:` that does not start with `//` has no scheme and is rejected |
| `Urls.HttpExampleAccepted` | downloader_service/tests/unittests/test_utils.py:26-27 | `http://example.com` is accepted |
| `Urls.SchemelessExamplesRejected` | downloader_service/tests/unit/test_downloader_service.py:152 | `invalid` and `not-a-url` are rejected |
| `Filenames.WithoutQuery` | downloader_service/src/domain/download_service.py:168 | `url.split("?")[0]` is the longest prefix without `?` |
| `Filenames.FileExtension` | downloader_service/src/domain/download_service.py:168 | the extension starts with `.`, holds no other `.`, `/` or `?`, and is `.jpg` or a suffix of the URL before its query |
| `Filenames.FilenameShape` | downloader_service/src/domain/download_service.py:154-169 | the name is the 64-digit digest, then the extension |
| `Filenames.LegacyFilenameAgrees` | downloader_service/src/download_service.py:119-126 | the legacy name ignores the response and equals the current one |
| `Filenames.LocalPathInStorage` | downloader_service/src/domain/download_service.py:95-96 | the local path is `IMAGE_STORAGE_PATH/` followed by the file name |
| `Filenames.QueryIgnored` | downloader_service/src/domain/download_service.py:168 | the query string does not change the extension |
| `Filenames.ExtensionOfName` | downloader_service/src/domain/download_service.py:168 | the extension of a path is its last component's text from its last `.`, when something other than dots comes before that `.` |
| `Filenames.DefaultWithoutDot` | downloader_service/src/domain/download_service.py:168 | a last component without `.` gives `.jpg` |
| `Filenames.PngExample` | downloader_service/tests/unittests/test_utils.py:31-35 | `host/img.png` gives `.png` |
| `Filenames.HostLabelBecomesExtension` | downloader_service/src/domain/download_service.py:168 | a URL without a path takes its extension from the host's last label |
| `Downloading.Fetched` | downloader_service/src/domain/download_service.py:87-139 | from `session.get` on: a returned `(id, path)` means the response was written at `path`, the downloaded marker set, the URL added to the Bloom filter and one download counted. `None` leaves the filter and the download counter alone. It counts no error exactly when the answer was a 404 whose not-found marker was written, and then that marker is the store's only change. Otherwise it counts exactly one error and leaves the store as it was |
| `Downloading.Attempt` | downloader_service/src/domain/download_service.py:64-139 | the `try` body: a result only for a valid URL, after which it is downloaded, in the Bloom filter and counted once; `None` leaves the filter and the download counter alone, adds at most one error, and when it adds one the store is unchanged |
| `Downloading.Probe` | downloader_service/src/domain/download_service.py:76-139 | the marker checks and the fetch, with the same guarantees as `Attempt` |
| `Downloading.LegacyAttempt` | downloader_service/src/download_service.py:54-113 | the legacy outer `try` body, with the same guarantees |
| `Downloading.FetchedKeepsStore` | downloader_service/src/domain/download_service.py:87-118 | the fetch changes only the URL's own markers and never removes one |
| `Downloading.AttemptKeepsStore` | downloader_service/src/domain/download_service.py:64-118 | the same for the whole `try` body |
| `Downloading.ProbeKeepsStore` | downloader_service/src/domain/download_service.py:76-118 | the same for the marker checks and the fetch |
| `Downloading.LegacyAttemptKeepsStore` | downloader_service/src/download_service.py:54-104 | the same for the legacy version |
| `Downloading.LockHeldElsewhere` | downloader_service/src/domain/download_service.py:59-62 | in both versions a lock held elsewhere returns `None` after the one acquire call, with no release and no change |
| `Downloading.ReleasedOnceAtEnd` | downloader_service/src/domain/download_service.py:64-141 | once the lock is taken, the release is called exactly once, as the last call, on every path, and the lock is gone afterwards unless the release raised |
| `Downloading.LockedThenReleased` | downloader_service/src/domain/download_service.py:140-141 | acquire, lock-free calls, release has its only release at the end |
| `Downloading.InvalidUrlRejected` | downloader_service/src/domain/download_service.py:66-69 | an invalid URL counts one error, is never fetched, changes nothing else and returns `None` |
| `Downloading.TryLockUnlock` | downloader_service/src/infrastructure/redis_client.py:53-63 | taking a free lock and releasing it restores the store |
| `Downloading.AlreadyProcessedSkipped` | downloader_service/src/domain/download_service.py:71-82 | a URL in the Bloom filter or with either marker returns `None` in both versions, with no fetch and no counter change; the calls show which check answered: the filter, then the `downloaded:` marker, then the `not_found:` marker |
| `Downloading.ChecksInOrder` | downloader_service/src/domain/download_service.py:71-82 | the checks run in order in both versions. A Bloom hit makes only the lock calls, a `downloaded:` marker adds one check call, and a `not_found:` marker adds both check calls |
| `Downloading.FetchedFails` | downloader_service/src/domain/download_service.py:87-139 | the fetch fails exactly on an unreachable host, a status of 400 or more other than 404, a failing not-found write, a failing file write, a missing or falsy id, or a failing downloaded-marker write. Each such failure returns `None`, counts one error and leaves the store, the filter and the download counter unchanged |
| `Downloading.FailuresCounted` | downloader_service/src/domain/download_service.py:87-141 | end to end, in both versions, a failing fetch of a valid new URL returns `None` and counts one error. The URL stays out of the Bloom filter and the store is restored, so the URL is still new |
| `Downloading.NotFoundMarked` | downloader_service/src/domain/download_service.py:87-91 | a 404 sets the not-found marker, returns `None`, counts no error and writes nothing, after exactly the expected calls |
| `Downloading.SuccessfulDownload` | downloader_service/src/domain/download_service.py:93-114 | a new URL served successfully is stored at its local path, recorded with the returned id, marked downloaded with that path, added to the Bloom filter and counted once, and the lock is free again |
| `Downloading.LockOpsKeepMarkers` | downloader_service/src/infrastructure/redis_client.py:53-63 | the lock operations touch no marker and no other key |
| `Downloading.DownloadEffects` | downloader_service/src/domain/download_service.py:42-141 | one call adds at most one to the two counters together; a counted download leaves the URL marked and in the filter; other URLs' keys are untouched, no marker disappears, and a Bloom filter that only holds downloaded URLs keeps doing so |
| `Downloading.LegacyDownloadEffects` | downloader_service/src/download_service.py:41-117 | the same for the legacy version |
| `Downloading.LegacyAgreesOnValidUrls` | downloader_service/src/download_service.py:41-117 | for a valid URL whose marker checks do not raise, the two versions do the same |
| `Downloading.AttemptsAgree` | downloader_service/src/download_service.py:54-113 | the same statement for the two `try` bodies |
| `Downloading.CheckFaultHandling` | downloader_service/src/download_service.py:60-66 | a failing marker check is counted and swallowed by the current version, but escapes from the legacy one without a count; both release the lock |
| `Downloading.LegacyFetchesUnvalidated` | downloader_service/src/download_service.py:54-72 | the legacy version fetches a URL the current one rejects unfetched |
| `Downloading.SecondCallSkips` | downloader_service/src/domain/download_service.py:71-74 | after a successful download, a second call for the URL does not fetch, count or return an image |
| `Downloading.BloomAnswersFirst` | downloader_service/src/domain/download_service.py:71-74 | a valid URL in the Bloom filter is answered `None` before any store check or fetch and without a count: with the lock free, taking and releasing it are the only calls in both versions |
| `Downloading.NoRefetchAfterNotFound` | downloader_service/src/domain/download_service.py:80-91 | after a 404 the URL is never fetched again |
| `DownloadServices.BloomFilter.constructor` | downloader_service/src/domain/download_service.py:30-40 | the Bloom filter starts empty |
| `DownloadServices.BloomFilter.Add` | downloader_service/src/domain/download_service.py:110-111 | `bloom.add(url)` adds exactly the URL |
| `DownloadServices.Disk.constructor` | downloader_service/src/domain/download_service.py:98-100 | the image directory over given contents |
| `DownloadServices.Disk.Write` | downloader_service/src/domain/download_service.py:98-100 | after the write the file holds exactly the content |
| `DownloadServices.Metrics.constructor` | downloader_service/src/domain/download_service.py:108-137 | both counters start at 0 |
| `DownloadServices.Metrics.CountDownload` | downloader_service/src/domain/download_service.py:108 | `images_downloaded.inc()` adds one |
| `DownloadServices.Metrics.CountError` | downloader_service/src/domain/download_service.py:116-137 | `download_errors.inc()` adds one |
| `DownloadServices.FetchAndStore` | downloader_service/src/domain/download_service.py:87-139 | the objects change as `Fetched` says |
| `DownloadServices.ReleaseLock` | downloader_service/src/domain/download_service.py:140-141 | the `finally` deletes the lock, or raises and replaces the outcome |
| `DownloadServices.DownloaderService.constructor` | downloader_service/src/domain/download_service.py:30-40 | the service holds its collaborators and a fresh, empty Bloom filter |
| `DownloadServices.DownloaderService.DownloadImage` | downloader_service/src/domain/download_service.py:42-141 | the objects, the calls and the outcome are those of `Download` on the old state |
| `DownloadServices.DownloaderService.Try` | downloader_service/src/domain/download_service.py:64-139 | the same against `Attempt` |
| `DownloadServices.DownloaderService.Probe` | downloader_service/src/domain/download_service.py:76-139 | the same against `Downloading.Probe` |
| `DownloadServices.LegacyDownloaderService.constructor` | downloader_service/src/download_service.py:33-39 | the legacy service with a fresh, empty Bloom filter |
| `DownloadServices.LegacyDownloaderService.DownloadImage` | downloader_service/src/download_service.py:41-117 | the objects, the calls and the outcome are those of `LegacyDownload` on the old state |
| `DownloadServices.LegacyDownloaderService.Try` | downloader_service/src/download_service.py:54-113 | the same against `LegacyAttempt` |
| `Callbacks.PublishesIffDownloaded` | downloader_service/src/application/messaging/callbacks.py:29-32 | a message is published iff the download returned a result, and it carries that id, the URL and that path |
| `Callbacks.CallbacksAppendAtMostOne` | downloader_service/src/application/messaging/callbacks.py:18-32 | in both versions `message_callback` is `process_url`, runs `download_image` once, publishes at most one message, and only after a returned image |
| `Callbacks.SuccessPublishesEmbedding` | downloader_service/src/application/messaging/callbacks.py:25-32 | a new URL served successfully leads to exactly one embedding request, for the row's id, the URL and its local path |
| `Callbacks.LockedPublishesNothing` | downloader_service/src/messaging/callbacks.py:25-32 | while another consumer holds the lock nothing is published |
| `Callbacks.RedeliveryPublishesOnce` | downloader_service/src/application/messaging/callbacks.py:25-32 | a URL delivered twice is handed to the embedding queue at most once |
| `Callbacks.HandleUrl` | downloader_service/src/application/messaging/callbacks.py:25-32 | the service's objects and the broker change as `ProcessUrl` says |
| `Callbacks.LegacyHandleUrl` | downloader_service/src/messaging/callbacks.py:25-32 | the same against `LegacyProcessUrl` |
| `BatchDownloader.SkipsUnclaimed` | downloader/downloader.py:62-76 | an existing file or a name in progress returns at once and changes nothing |
| `BatchDownloader.DownloadEffects` | downloader/downloader.py:56-97 | the in-progress set ends as it started, so a claimed name is removed on every path; `request_count` grows by one exactly for a claimed 200; only the final file can appear, exactly for a claimed, saved 200 |
| `BatchDownloader.Downloader.constructor` | downloader/downloader.py:22-23 | an empty in-progress set and a zero count |
| `BatchDownloader.Downloader.DownloadImage` | downloader/downloader.py:56-97 | the state becomes `Fetched` of the old, and the stripped URL is requested exactly when the call claims it |
| `BatchDownloader.Downloader.ProcessBatch` | downloader/downloader.py:114-119 | the state becomes `Batch` of the old: one `download_image` per URL, in turn |
| `BatchDownloader.BatchEffects` | downloader/downloader.py:114-119 | after a batch the in-progress set is as before, the count grew by at most one per URL and no file disappeared |
| `BatchDownloader.SavedFileNotFetchedAgain` | downloader/downloader.py:62-68 | a URL listed twice whose first download was saved is counted once |
| `BatchDownloader.DownloadWithRetries` | downloader/downloader.py:100-111 | the loop's end, calls and sleeps are `RetriesFrom(act, 0, RETRIES)` |
| `BatchDownloader.FirstReturnStops` | downloader/downloader.py:104-107 | a `download_image` that returns is called once and nothing is slept |
| `BatchDownloader.BackoffAfterEveryFailure` | downloader/downloader.py:104-111 | with every attempt raising, `RETRIES` calls, each followed by a sleep of `2 ** attempt` seconds, the last included |
| `BatchDownloader.NoAttempts` | downloader/downloader.py:104 | with `RETRIES <= 0` there is no call |
| `BatchDownloader.RetriesBounded` | downloader/downloader.py:104-111 | never more than `RETRIES` calls, and one sleep per call that raised |
| `Paths.BasenameIsLastSplitPiece` | downloader_service/downloader.py:51 | `os.path.basename` and `split("/")[-1]` name the same file, which holds no `/` |
| `ImageDownloaders.SameFileName` | downloader_service/downloader.py:51 | the two stand-alone downloaders derive the same file name from a URL |
| `ImageDownloaders.SkipsUnclaimed` | downloader_service/downloader.py:54-62 | an existing final file or a name in progress returns at once, with nothing changed and nothing raised |
| `ImageDownloaders.DownloadEffects` | downloader_service/downloader.py:51-87 | the in-progress set ends as it started; the count grows by one exactly for a claimed 200; only the final file can appear; an exception escapes exactly for a claimed request that raised something other than a client, OS or runtime error |
| `ImageDownloaders.AgreesWithBatchDownloader` | downloader_service/downloader.py:51-87 | apart from which exceptions escape, both stand-alone downloaders keep their books alike |
| `ImageDownloaders.RequestCountCountsOks` | downloader_service/downloader.py:68-69 | over any sequence of calls the count grows by at most the number of 200 answers, and the in-progress set ends as it started |
| `ImageDownloaders.DistinctNamesCountEveryOk` | downloader_service/downloader.py:38-69 | from a fresh downloader, calls with distinct new file names count every 200 answer, so the count is exactly their number |
| `ImageDownloaders.ImageDownloader.constructor` | downloader_service/downloader.py:21-39 | the count starts at 0 and nothing is in progress |
| `ImageDownloaders.ImageDownloader.DownloadImage` | downloader_service/downloader.py:41-87 | the state and the escaping exception are `Download` of the old state; the URL is requested as given, unstripped, exactly when the call claims it |
| `ImageDownloaders.ImageDownloader.GetRequestCount` | downloader_service/downloader.py:89-96 | returns the current `request_count` |
| `MessageProcessing.InvalidMessageIgnored` | embedding_service/src/application/message_processor.py:16-22 | a missing or falsy `image_id`, `image_url` or `image_path` returns with no model call, no index call and no counter change |
| `MessageProcessing.ValidMessageAsksModelOnce` | embedding_service/src/application/message_processor.py:24-28 | a valid message asks the model once, for its `image_path`, and makes at most one index call, with its own fields and the embedding |
| `MessageProcessing.FalsyEmbeddingCountsError` | embedding_service/src/application/message_processor.py:36-38 | a falsy embedding counts one error and is not indexed |
| `MessageProcessing.TruthyEmbeddingIndexedOnce` | embedding_service/src/application/message_processor.py:25-35 | a truthy embedding is indexed once; success counts one embedding, an index exception counts one error and is not re-raised |
| `MessageProcessing.ExactlyOneCounter` | embedding_service/src/application/message_processor.py:24-38 | for a valid message whose model call returns, exactly one counter grows, by one, and the embedding counter exactly when indexing succeeded |
| `MessageProcessing.ModelExceptionCountsNothing` | embedding_service/src/application/message_processor.py:24 | an exception from the model, outside the `try`, leaves the call with no counter change and no index call |
| `MessageProcessing.Counters.constructor` | embedding_service/src/application/message_processor.py:9 | both counters start at 0 |
| `MessageProcessing.Collaborators.constructor` | embedding_service/src/application/message_processor.py:10-11 | the model and the index have received nothing yet |
| `MessageProcessing.Process` | embedding_service/src/application/message_processor.py:15-38 | the collaborators, counters and escaping exception are `ProcessMessage` of the old state |

## Left out

- Concurrency: `asyncio.Lock`, semaphores, `asyncio.gather` and races between consumers. Every call runs alone, and `process_batch` runs its downloads one after another.
- `BatchDownloader.Downloader.ProcessBatch`: runs its URLs in turn, so interleavings of concurrent downloads of the same file name are not covered.
- The lock's expiry (`ex=ttl`) and all clock time: latency histograms, `loop.time()` and the actual waiting of `sleep`. Sleeps are kept as a recorded list of durations.
- Network and file I/O: the HTTP answer, the write of a file and `safe_move_file` are parameters. In the stand-alone downloaders, whether a 200 body reached its final path is one flag, `saved`.
- Floating point: embeddings are JSON values whose only observed property is truthiness. The model's internals and Elasticsearch are left out.
- `chunk_size` for the file reader is read from the settings. The chunk size is a parameter in both producers.
- RabbitMQ connection, consumption and acknowledgement; the broker is the list of messages published and whether the channel exists.
- `downloader/config.py` is not part of this model, so `RETRIES`, `OUTPUT_DIR` and `TEMP_DIR` are parameters.
- `BatchDownloader.DownloadWithRetries`: its attempts are given as outcomes, not as runs of `download_image`. Since `download_image` catches every exception, the retry loop only ever makes the one call (`FirstReturnStops`).
- Python's `urlparse` removes or rejects some control characters and handles IPv6 literals and ports in ways the simplified parser does not model.
- Bloom filter false positives: the filter is the exact set of URLs added.
- Logging, printing, metrics registration and settings loading.
- Store and broker errors in the producers: the Redis clients behind `check_urls_batch` and `filter_new_urls` never raise, and neither does a publish to the download queue. In the source such an exception ends `publish_urls` with the earlier chunks, and the part of the failing chunk already sent, published; the model does not cover that. Only the closed-channel assertion stops a run.
- `Filenames.ImageStoragePath`: fixed to `/app/images`, the default of the `IMAGE_STORAGE_PATH` setting (downloader_service/src/infrastructure/config.py:41). A deployment that overrides the setting is not modelled.
- downloader_service/src/messaging/publishers.py, which the legacy callbacks import, is not part of this model. `Callbacks.LegacyProcessUrl` and `Callbacks.LegacyMessageCallback` assume it publishes embeddings the way the current `publish_embeddings` does.
