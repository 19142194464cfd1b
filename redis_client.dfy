/** The Redis clients of the downloader and of the file reader. Each holds the store it talks to as a
    `Store` field; every operation is one or two Redis commands on that map. */
module RedisClients {
  import opened Seqs
  import opened SharedStore

  /** One `pipe.exists(prefix + url)` per URL, in order: the pipeline's keys. */
  method QueueExists(prefix: string, urls: seq<string>) returns (pipe: seq<string>)
    ensures pipe == Keys(prefix, urls)
  {
    pipe := [];
    for i := 0 to |urls|
      invariant pipe == Keys(prefix, urls[..i])
    {
      KeysSnoc(prefix, urls, i);
      pipe := pipe + [prefix + urls[i]];
    }
    TakeAll(urls);
  }

  /** The downloader's `RedisClient` (the same operations exist, line for line, in its legacy copy). */
  class RedisClient {
    var data: Store

    constructor (initial: Store)
      ensures data == initial
    {
      data := initial;
    }

    method IsUrlDownloaded(url: string) returns (b: bool)
      ensures b <==> DownloadedKey(url) in data
    {
      b := ExistsCount(data, DownloadedKey(url)) == 1;
    }

    method CacheUrlAsDownloaded(url: string, path: string)
      modifies this
      ensures data == MarkDownloaded(old(data), url, path)
    {
      data := data[DownloadedKey(url) := path];
    }

    method IsUrlMarkedAsNotFound(url: string) returns (b: bool)
      ensures b <==> NotFoundKey(url) in data
    {
      b := ExistsCount(data, NotFoundKey(url)) == 1;
    }

    method CacheUrlAsNotFound(url: string)
      modifies this
      ensures data == MarkNotFound(old(data), url)
    {
      data := data[NotFoundKey(url) := NotFoundValue];
    }

    /** `SET lock:<url> in_progress NX`: acquired iff the key was absent. */
    method AcquireDownloadLock(url: string) returns (acquired: bool)
      modifies this
      ensures (data, acquired) == TryLock(old(data), url)
      ensures acquired <==> LockKey(url) !in old(data)
    {
      var key := LockKey(url);
      if key in data {
        acquired := false;
      } else {
        data := data[key := LockValue];
        acquired := true;
      }
    }

    method ReleaseDownloadLock(url: string)
      modifies this
      ensures data == Unlock(old(data), url)
    {
      data := data - {LockKey(url)};
    }

    /** `pipe.execute()` over a pipeline of `EXISTS` commands: one count per key, in order. */
    method ExecuteExists(pipe: seq<string>) returns (results: seq<int>)
      ensures |results| == |pipe|
      ensures forall i :: 0 <= i < |pipe| ==> results[i] == ExistsCount(data, pipe[i])
    {
      results := [];
      for i := 0 to |pipe|
        invariant |results| == i
        invariant forall j :: 0 <= j < i ==> results[j] == ExistsCount(data, pipe[j])
      {
        results := results + [ExistsCount(data, pipe[i])];
      }
    }

    /** `check_urls_batch`: an empty batch returns at once; otherwise one pipeline of `EXISTS
        downloaded:<url>`, one of `EXISTS not_found:<url>`, and the URLs for which neither answered 1.
        `pipelines` lists the pipelines sent, each as its keys. Nothing in the store changes. */
    method CheckUrlsBatch(urls: seq<string>) returns (filtered: seq<string>, pipelines: seq<seq<string>>)
      ensures filtered == Unprocessed(data, urls)
      ensures urls == [] ==> pipelines == []
      ensures urls != [] ==> pipelines == [Keys(DownloadedPrefix, urls), Keys(NotFoundPrefix, urls)]
    {
      if |urls| == 0 {
        return [], [];
      }
      var pipe := QueueExists(DownloadedPrefix, urls);
      var downloadedResults := ExecuteExists(pipe);
      var pipe2 := QueueExists(NotFoundPrefix, urls);
      var notFoundResults := ExecuteExists(pipe2);
      pipelines := [pipe, pipe2];
      filtered := [];
      for i := 0 to |urls|
        invariant filtered == Unprocessed(data, urls[..i])
      {
        UnprocessedSnoc(data, urls, i);
        if !(downloadedResults[i] == 1 || notFoundResults[i] == 1) {
          filtered := filtered + [urls[i]];
        }
      }
      TakeAll(urls);
    }
  }

  /** The file reader's `RedisClient`: only `check_urls_batch`, keeping a URL when both counts are 0. */
  class ReaderRedisClient {
    var data: Store

    constructor (initial: Store)
      ensures data == initial
    {
      data := initial;
    }

    method ExecuteExists(pipe: seq<string>) returns (results: seq<int>)
      ensures |results| == |pipe|
      ensures forall i :: 0 <= i < |pipe| ==> results[i] == ExistsCount(data, pipe[i])
    {
      results := [];
      for i := 0 to |pipe|
        invariant |results| == i
        invariant forall j :: 0 <= j < i ==> results[j] == ExistsCount(data, pipe[j])
      {
        results := results + [ExistsCount(data, pipe[i])];
      }
    }

    /** The file reader's `check_urls_batch`: the same two pipelines, and a URL is kept iff both answers
        are 0. Because `EXISTS` on one key answers 0 or 1, this keeps the same URLs as the downloader's
        "skip when either is 1". */
    method CheckUrlsBatch(urls: seq<string>) returns (filtered: seq<string>, pipelines: seq<seq<string>>)
      ensures filtered == Unprocessed(data, urls)
      ensures urls == [] ==> pipelines == []
      ensures urls != [] ==> pipelines == [Keys(DownloadedPrefix, urls), Keys(NotFoundPrefix, urls)]
    {
      if |urls| == 0 {
        return [], [];
      }
      var pipe := QueueExists(DownloadedPrefix, urls);
      var downloadedResults := ExecuteExists(pipe);
      var pipe2 := QueueExists(NotFoundPrefix, urls);
      var notFoundResults := ExecuteExists(pipe2);
      pipelines := [pipe, pipe2];
      filtered := [];
      for i := 0 to |urls|
        invariant filtered == Unprocessed(data, urls[..i])
      {
        UnprocessedSnoc(data, urls, i);
        if downloadedResults[i] == 0 && notFoundResults[i] == 0 {
          filtered := filtered + [urls[i]];
        }
      }
      TakeAll(urls);
    }
  }
}
