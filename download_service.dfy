/** The downloader's objects: the Bloom filter, the image directory, the metrics counters, and the
    two versions of `DownloaderService`, whose `download_image` methods are proved to do what
    `Downloading.Download` and `Downloading.LegacyDownload` say. */
module DownloadServices {
  import opened Wrappers
  import opened SharedStore
  import opened RedisClients
  import opened Records
  import opened Urls
  import opened Filenames
  import opened Downloading

  /** The service's `BloomFilter`, modelled as the exact set of URLs added to it (no false positives). */
  class BloomFilter {
    var members: set<string>

    constructor ()
      ensures members == {}
    {
      members := {};
    }

    /** `bloom.add(url)`. */
    method Add(url: string)
      modifies this
      ensures members == old(members) + {url}
    {
      members := members + {url};
    }
  }

  /** The image directory: file contents by path. */
  class Disk {
    var files: map<string, seq<bv8>>

    constructor (files: map<string, seq<bv8>>)
      ensures this.files == files
    {
      this.files := files;
    }

    /** `open(local_path, "wb")` and `f.write(content)`: the file now holds exactly the content. */
    method Write(path: string, content: seq<bv8>)
      modifies this
      ensures files == old(files)[path := content]
    {
      files := files[path := content];
    }
  }

  /** The `images_downloaded` and `download_errors` counters. */
  class Metrics {
    var downloaded: nat
    var errors: nat

    constructor ()
      ensures downloaded == 0 && errors == 0
    {
      downloaded, errors := 0, 0;
    }

    method CountDownload()
      modifies this
      ensures downloaded == old(downloaded) + 1 && errors == old(errors)
    {
      downloaded := downloaded + 1;
    }

    method CountError()
      modifies this
      ensures errors == old(errors) + 1 && downloaded == old(downloaded)
    {
      errors := errors + 1;
    }
  }

  /** The world the pure model speaks of, read off the objects. */
  function WorldOf(redis: RedisClient, database: Database, bloom: BloomFilter, disk: Disk, metrics: Metrics): World
    reads redis, database, bloom, disk, metrics
  {
    World(redis.data, database.table, bloom.members, disk.files, metrics.downloaded, metrics.errors)
  }

  /** The code both versions share, from `session.get` to the return of `(image_id, local_path)`:
      every error is caught, counted and turned into `None`. `made` lists the collaborator calls. */
  method FetchAndStore(redis: RedisClient, database: Database, bloom: BloomFilter, disk: Disk, metrics: Metrics,
                       url: string, env: Env, path: string)
    returns (r: Option<(nat, string)>, ghost made: seq<Call>)
    modifies redis, database, bloom, disk, metrics
    ensures var f := Fetched(old(WorldOf(redis, database, bloom, disk, metrics)), url, env, path);
            WorldOf(redis, database, bloom, disk, metrics) == f.world && made == f.calls && r == f.result
  {
    match env.fetch
    case Unreachable =>
      metrics.CountError();
      return None, [CallGet];
    case Response(status, body) =>
      if status == 404 {
        if NotFoundCacheFails in env.faults {
          metrics.CountError();
          return None, [CallGet, CallCacheNotFound];
        }
        redis.CacheUrlAsNotFound(url);
        return None, [CallGet, CallCacheNotFound];
      }
      if status >= 400 {
        metrics.CountError();
        return None, [CallGet];
      }
      if WriteFails in env.faults {
        metrics.CountError();
        return None, [CallGet, CallWrite];
      }
      disk.Write(path, body);
      var imageId := database.StoreImageRecord(url, path, env.db);
      if imageId.Failure? || imageId.value.None? || imageId.value.value == 0 {
        metrics.CountError();
        return None, [CallGet, CallWrite, CallStoreRecord];
      }
      if DownloadedCacheFails in env.faults {
        metrics.CountError();
        return None, [CallGet, CallWrite, CallStoreRecord, CallCacheDownloaded];
      }
      redis.CacheUrlAsDownloaded(url, path);
      metrics.CountDownload();
      bloom.Add(url);
      return Some((imageId.value.value, path)), [CallGet, CallWrite, CallStoreRecord, CallCacheDownloaded];
  }

  /** The `finally` of both versions: `release_download_lock(url)`; when it raises, its exception
      replaces the outcome. */
  method ReleaseLock(redis: RedisClient, url: string, env: Env, o: Outcome) returns (outcome: Outcome)
    modifies redis
    ensures redis.data == (if ReleaseFails in env.faults then old(redis.data) else Unlock(old(redis.data), url))
    ensures outcome == (if ReleaseFails in env.faults then Raised else o)
  {
    if ReleaseFails in env.faults {
      return Raised;
    }
    redis.ReleaseDownloadLock(url);
    return o;
  }

  /** The current `DownloaderService` (downloader_service/src/domain). Each method also returns, as
      `made`, the collaborator calls it made. */
  class DownloaderService {
    const redis: RedisClient
    const database: Database
    const bloom: BloomFilter
    const disk: Disk
    const metrics: Metrics
    const digest: string -> string

    constructor (database: Database, redis: RedisClient, disk: Disk, metrics: Metrics, digest: string -> string)
      ensures this.database == database && this.redis == redis && this.disk == disk && this.metrics == metrics
      ensures this.digest == digest && fresh(bloom) && bloom.members == {}
    {
      this.database := database;
      this.redis := redis;
      this.disk := disk;
      this.metrics := metrics;
      this.digest := digest;
      bloom := new BloomFilter();
    }

    function State(): World
      reads redis, database, bloom, disk, metrics
    {
      WorldOf(redis, database, bloom, disk, metrics)
    }

    /** `download_image(url)`. */
    method DownloadImage(url: string, env: Env) returns (outcome: Outcome, ghost made: seq<Call>)
      modifies redis, database, bloom, disk, metrics
      ensures var s := Download(old(State()), url, env, digest);
              State() == s.world && made == s.calls && outcome == s.result
    {
      if AcquireFails in env.faults {
        return Raised, [CallAcquire];
      }
      var acquired := redis.AcquireDownloadLock(url);
      if !acquired {
        return Returned(None), [CallAcquire];
      }
      var r, tried := Try(url, env);
      outcome := ReleaseLock(redis, url, env, Returned(r));
      made := [CallAcquire] + tried + [CallRelease];
    }

    /** The body of the `try`: every exception is caught, counted and turned into `None`. */
    method Try(url: string, env: Env) returns (r: Option<(nat, string)>, ghost made: seq<Call>)
      modifies redis, database, bloom, disk, metrics
      ensures var a := Attempt(old(State()), url, env, digest);
              State() == a.world && made == a.calls && r == a.result
    {
      if IsValidUrl(url) != Some(true) {
        metrics.CountError();
        return None, [];
      }
      if url in bloom.members {
        return None, [];
      }
      r, made := Probe(url, env, LocalPath(digest, url));
    }

    /** The two marker checks and the download. */
    method Probe(url: string, env: Env, path: string) returns (r: Option<(nat, string)>, ghost made: seq<Call>)
      modifies redis, database, bloom, disk, metrics
      ensures var a := Downloading.Probe(old(State()), url, env, path);
              State() == a.world && made == a.calls && r == a.result
    {
      if DownloadedCheckFails in env.faults {
        metrics.CountError();
        return None, [CallIsDownloaded];
      }
      var downloaded := redis.IsUrlDownloaded(url);
      if downloaded {
        return None, [CallIsDownloaded];
      }
      if NotFoundCheckFails in env.faults {
        metrics.CountError();
        return None, [CallIsDownloaded, CallIsNotFound];
      }
      var notFound := redis.IsUrlMarkedAsNotFound(url);
      if notFound {
        return None, [CallIsDownloaded, CallIsNotFound];
      }
      ghost var fetched;
      r, fetched := FetchAndStore(redis, database, bloom, disk, metrics, url, env, path);
      made := [CallIsDownloaded, CallIsNotFound] + fetched;
    }
  }

  /** The legacy `DownloaderService` (downloader_service/src), which uses the module-level Redis client
      and database. */
  class LegacyDownloaderService {
    const redis: RedisClient
    const database: Database
    const bloom: BloomFilter
    const disk: Disk
    const metrics: Metrics
    const digest: string -> string

    constructor (database: Database, redis: RedisClient, disk: Disk, metrics: Metrics, digest: string -> string)
      ensures this.database == database && this.redis == redis && this.disk == disk && this.metrics == metrics
      ensures this.digest == digest && fresh(bloom) && bloom.members == {}
    {
      this.database := database;
      this.redis := redis;
      this.disk := disk;
      this.metrics := metrics;
      this.digest := digest;
      bloom := new BloomFilter();
    }

    function State(): World
      reads redis, database, bloom, disk, metrics
    {
      WorldOf(redis, database, bloom, disk, metrics)
    }

    /** `download_image(url)`. */
    method DownloadImage(url: string, env: Env) returns (outcome: Outcome, ghost made: seq<Call>)
      modifies redis, database, bloom, disk, metrics
      ensures var s := LegacyDownload(old(State()), url, env, digest);
              State() == s.world && made == s.calls && outcome == s.result
    {
      if AcquireFails in env.faults {
        return Raised, [CallAcquire];
      }
      var acquired := redis.AcquireDownloadLock(url);
      if !acquired {
        return Returned(None), [CallAcquire];
      }
      var o, tried := Try(url, env);
      outcome := ReleaseLock(redis, url, env, o);
      made := [CallAcquire] + tried + [CallRelease];
    }

    /** The outer `try`: the store checks raise through it; the inner `try` around the download
        catches everything. */
    method Try(url: string, env: Env) returns (o: Outcome, ghost made: seq<Call>)
      modifies redis, database, bloom, disk, metrics
      ensures var a := LegacyAttempt(old(State()), url, env, digest);
              State() == a.world && made == a.calls && o == a.result
    {
      if url in bloom.members {
        return Returned(None), [];
      }
      if DownloadedCheckFails in env.faults {
        return Raised, [CallIsDownloaded];
      }
      var downloaded := redis.IsUrlDownloaded(url);
      if downloaded {
        return Returned(None), [CallIsDownloaded];
      }
      if NotFoundCheckFails in env.faults {
        return Raised, [CallIsDownloaded, CallIsNotFound];
      }
      var notFound := redis.IsUrlMarkedAsNotFound(url);
      if notFound {
        return Returned(None), [CallIsDownloaded, CallIsNotFound];
      }
      var r;
      ghost var fetched;
      r, fetched := FetchAndStore(redis, database, bloom, disk, metrics, url, env, LegacyLocalPath(digest, url, env.fetch));
      return Returned(r), [CallIsDownloaded, CallIsNotFound] + fetched;
    }
  }
}
