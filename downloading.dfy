/** `DownloaderService.download_image`, in the service's current form and in its legacy copy, as a
    function of the world it runs in: the shared store, the `images` table, the service's Bloom filter,
    the files on disk, the two metrics counters and the calls made to collaborators. What the network,
    the database and the collaborators do during one call is an `Env` given as a parameter. */
module Downloading {
  import opened Wrappers
  import opened SharedStore
  import opened Records
  import opened Urls
  import opened Filenames
  import opened Paths

  /** The collaborator calls `download_image` makes, in the order it makes them. */
  datatype Call =
    | CallAcquire          // redis_client.acquire_download_lock
    | CallIsDownloaded     // redis_client.is_url_downloaded
    | CallIsNotFound       // redis_client.is_url_marked_as_not_found
    | CallGet              // session.get
    | CallCacheNotFound    // redis_client.cache_url_as_not_found
    | CallWrite            // os.makedirs, open and write
    | CallStoreRecord      // database.store_image_record
    | CallCacheDownloaded  // redis_client.cache_url_as_downloaded
    | CallRelease          // redis_client.release_download_lock

  /** A collaborator call that raises instead of completing; it then changes nothing. */
  datatype Fault =
    | AcquireFails
    | DownloadedCheckFails
    | NotFoundCheckFails
    | NotFoundCacheFails
    | WriteFails
    | DownloadedCacheFails
    | ReleaseFails

  /** What `session.get` yields: a response with its status and body, or a client error raised before
      any response (connection refused, DNS failure, timeout). */
  datatype Fetch = Response(status: int, body: seq<bv8>) | Unreachable

  /** Everything outside the service during one call. */
  datatype Env = Env(fetch: Fetch, faults: set<Fault>, db: DbEnv)

  /** The state one call reads and changes. `downloaded` and `errors` are the `images_downloaded` and
      `download_errors` counters. */
  datatype World = World(store: Store, table: Table, bloom: set<string>, files: map<string, seq<bv8>>,
                         downloaded: nat, errors: nat)

  /** How a call ends: it returns `(image_id, local_path)` or `None`, or it raises. */
  datatype Outcome = Returned(result: Option<(nat, string)>) | Raised

  /** A stretch of one call: the world after it, the collaborator calls it made, in order, and what it
      produced. */
  datatype Step<R> = Step(world: World, calls: seq<Call>, result: R)

  /** An error caught by one of the `except` clauses: `download_errors.inc()` and `None`. */
  function Failed(w: World, calls: seq<Call>): Step<Option<(nat, string)>>
  {
    Step(w.(errors := w.errors + 1), calls, None)
  }

  /** The calls of a stretch take and release no lock. */
  predicate LockFree(calls: seq<Call>)
  {
    CallAcquire !in calls && CallRelease !in calls
  }

  /** Every key that is not one of `url`'s is as it was. */
  ghost predicate OtherKeysKept(d: Store, d': Store, url: string)
  {
    forall k :: k != DownloadedKey(url) && k != NotFoundKey(url) && k != LockKey(url) ==>
      (k in d' <==> k in d) && (k in d ==> d'[k] == d[k])
  }

  /** The store changed at most at the markers of `url`. */
  ghost predicate StoreOnlyAt(d: Store, d': Store, url: string)
  {
    (LockKey(url) in d' <==> LockKey(url) in d) && OtherKeysKept(d, d', url)
  }

  /** No marker is ever removed. */
  ghost predicate KeepsMarkers(d: Store, d': Store)
  {
    forall u :: (IsDownloaded(d, u) ==> IsDownloaded(d', u)) && (IsNotFound(d, u) ==> IsNotFound(d', u))
  }

  /** A 404 whose not-found marker is written without raising: the one way the download returns `None`
      without counting an error. */
  predicate NotFoundRecorded(env: Env)
  {
    env.fetch.Response? && env.fetch.status == 404 && NotFoundCacheFails !in env.faults
  }

  /** The part both versions share, from `session.get` on: a 404 records the not-found marker; another
      error status, a client error, a failed write, a missing id or a failed marker write count an
      error; otherwise the body is written to `path`, the row stored, the downloaded marker set, the
      success counted and the URL added to the Bloom filter. */
  function Fetched(w: World, url: string, env: Env, path: string): (s: Step<Option<(nat, string)>>)
    ensures |s.calls| >= 1 && s.calls[0] == CallGet && LockFree(s.calls)
    ensures s.result.Some? ==>
            && s.result.value.1 == path && s.result.value.0 >= 1
            && s.world.store == MarkDownloaded(w.store, url, path)
            && env.fetch.Response? && s.world.files == w.files[path := env.fetch.body]
            && s.world.bloom == w.bloom + {url} && s.world.downloaded == w.downloaded + 1
            && s.world.errors == w.errors
    ensures NotFoundRecorded(env) ==> s.result.None?
    ensures s.result.None? ==>
            && s.world.bloom == w.bloom && s.world.downloaded == w.downloaded
            && IsDownloaded(s.world.store, url) == IsDownloaded(w.store, url)
            && (s.world.errors == w.errors <==> NotFoundRecorded(env))
            && (NotFoundRecorded(env) ==> s.world.store == MarkNotFound(w.store, url))
            && (!NotFoundRecorded(env) ==> s.world.errors == w.errors + 1 && s.world.store == w.store)
  {
    match env.fetch
    case Unreachable => Failed(w, [CallGet])
    case Response(status, body) =>
      if status == 404 then
        if NotFoundCacheFails in env.faults then Failed(w, [CallGet, CallCacheNotFound])
        else Step(w.(store := MarkNotFound(w.store, url)), [CallGet, CallCacheNotFound], None)
      else if status >= 400 then Failed(w, [CallGet])
      else if WriteFails in env.faults then Failed(w, [CallGet, CallWrite])
      else
        var (t, stored) := StoreRecord(w.table, url, path, env.db);
        var w1 := w.(files := w.files[path := body], table := t);
        if stored.Failure? || stored.value.None? || stored.value.value == 0 then
          Failed(w1, [CallGet, CallWrite, CallStoreRecord])
        else if DownloadedCacheFails in env.faults then
          Failed(w1, [CallGet, CallWrite, CallStoreRecord, CallCacheDownloaded])
        else
          Step(w1.(store := MarkDownloaded(w.store, url, path), downloaded := w.downloaded + 1, bloom := w.bloom + {url}),
               [CallGet, CallWrite, CallStoreRecord, CallCacheDownloaded], Some((stored.value.value, path)))
  }

  /** The body of the current version's `try`: validation, the Bloom filter, then `Probe`. Every
      exception in it is caught and counted as an error. */
  function Attempt(w: World, url: string, env: Env, digest: string -> string): (s: Step<Option<(nat, string)>>)
    ensures LockFree(s.calls)
    ensures s.result.Some? ==>
            && IsValidUrl(url) == Some(true) && IsDownloaded(s.world.store, url)
            && s.world.bloom == w.bloom + {url} && s.world.downloaded == w.downloaded + 1 && s.world.errors == w.errors
    ensures s.result.None? ==>
            && s.world.bloom == w.bloom && s.world.downloaded == w.downloaded && s.world.errors <= w.errors + 1
            && (s.world.errors == w.errors + 1 ==> s.world.store == w.store)
  {
    if IsValidUrl(url) != Some(true) then Failed(w, [])
    else if url in w.bloom then Step(w, [], None)
    else Probe(w, url, env, LocalPath(digest, url))
  }

  /** The current version's two marker checks, each of which counts an error when it raises, then
      the download to `path`. */
  function Probe(w: World, url: string, env: Env, path: string): (s: Step<Option<(nat, string)>>)
    ensures LockFree(s.calls)
    ensures s.result.Some? ==>
            && IsDownloaded(s.world.store, url)
            && s.world.bloom == w.bloom + {url} && s.world.downloaded == w.downloaded + 1 && s.world.errors == w.errors
    ensures s.result.None? ==>
            && s.world.bloom == w.bloom && s.world.downloaded == w.downloaded && s.world.errors <= w.errors + 1
            && (s.world.errors == w.errors + 1 ==> s.world.store == w.store)
  {
    if DownloadedCheckFails in env.faults then Failed(w, [CallIsDownloaded])
    else if IsDownloaded(w.store, url) then Step(w, [CallIsDownloaded], None)
    else if NotFoundCheckFails in env.faults then Failed(w, [CallIsDownloaded, CallIsNotFound])
    else if IsNotFound(w.store, url) then Step(w, [CallIsDownloaded, CallIsNotFound], None)
    else
      var f := Fetched(w, url, env, path);
      Step(f.world, [CallIsDownloaded, CallIsNotFound] + f.calls, f.result)
  }

  /** The `finally`: `release_download_lock`, whose own exception replaces the call's outcome. */
  function Release(w: World, calls: seq<Call>, url: string, env: Env, o: Outcome): Step<Outcome>
  {
    if ReleaseFails in env.faults then Step(w, calls + [CallRelease], Raised)
    else Step(w.(store := Unlock(w.store, url)), calls + [CallRelease], o)
  }

  /** `download_image(url)` in its current form: take the lock or return `None`, run the body, release. */
  function Download(w: World, url: string, env: Env, digest: string -> string): Step<Outcome>
  {
    if AcquireFails in env.faults then Step(w, [CallAcquire], Raised)
    else
      var (d, acquired) := TryLock(w.store, url);
      if !acquired then Step(w, [CallAcquire], Returned(None))
      else
        var a := Attempt(w.(store := d), url, env, digest);
        Release(a.world, [CallAcquire] + a.calls, url, env, Returned(a.result))
  }

  /** The path the legacy copy writes to: the same join, with its `generate_filename(url, response)`. */
  function LegacyLocalPath(digest: string -> string, url: string, response: Fetch): string
  {
    Join(ImageStoragePath, LegacyGenerateFilename(digest, url, response))
  }

  /** The legacy copy's outer `try`: no validation, and the store checks sit outside the inner `try`, so
      their exceptions escape (after the `finally`). */
  function LegacyAttempt(w: World, url: string, env: Env, digest: string -> string): (s: Step<Outcome>)
    ensures LockFree(s.calls)
    ensures s.result.Returned? && s.result.result.Some? ==>
            && IsDownloaded(s.world.store, url)
            && s.world.bloom == w.bloom + {url} && s.world.downloaded == w.downloaded + 1 && s.world.errors == w.errors
    ensures !(s.result.Returned? && s.result.result.Some?) ==>
            && s.world.bloom == w.bloom && s.world.downloaded == w.downloaded && s.world.errors <= w.errors + 1
            && (s.world.errors == w.errors + 1 ==> s.world.store == w.store)
  {
    if url in w.bloom then Step(w, [], Returned(None))
    else if DownloadedCheckFails in env.faults then Step(w, [CallIsDownloaded], Raised)
    else if IsDownloaded(w.store, url) then Step(w, [CallIsDownloaded], Returned(None))
    else if NotFoundCheckFails in env.faults then Step(w, [CallIsDownloaded, CallIsNotFound], Raised)
    else if IsNotFound(w.store, url) then Step(w, [CallIsDownloaded, CallIsNotFound], Returned(None))
    else
      var f := Fetched(w, url, env, LegacyLocalPath(digest, url, env.fetch));
      Step(f.world, [CallIsDownloaded, CallIsNotFound] + f.calls, Returned(f.result))
  }

  /** The legacy `download_image(url)`. */
  function LegacyDownload(w: World, url: string, env: Env, digest: string -> string): Step<Outcome>
  {
    if AcquireFails in env.faults then Step(w, [CallAcquire], Raised)
    else
      var (d, acquired) := TryLock(w.store, url);
      if !acquired then Step(w, [CallAcquire], Returned(None))
      else
        var a := LegacyAttempt(w.(store := d), url, env, digest);
        Release(a.world, [CallAcquire] + a.calls, url, env, a.result)
  }

  lemma FetchedKeepsStore(w: World, url: string, env: Env, path: string)
    ensures var s := Fetched(w, url, env, path);
            StoreOnlyAt(w.store, s.world.store, url) && KeepsMarkers(w.store, s.world.store)
  {
  }

  lemma AttemptKeepsStore(w: World, url: string, env: Env, digest: string -> string)
    ensures var s := Attempt(w, url, env, digest);
            StoreOnlyAt(w.store, s.world.store, url) && KeepsMarkers(w.store, s.world.store)
  {
    if IsValidUrl(url) == Some(true) && url !in w.bloom {
      ProbeKeepsStore(w, url, env, LocalPath(digest, url));
    } else {
      assert Attempt(w, url, env, digest).world.store == w.store;
    }
  }

  lemma ProbeKeepsStore(w: World, url: string, env: Env, path: string)
    ensures var s := Probe(w, url, env, path);
            StoreOnlyAt(w.store, s.world.store, url) && KeepsMarkers(w.store, s.world.store)
  {
    var s := Probe(w, url, env, path);
    if s.world.store != w.store {
      FetchedKeepsStore(w, url, env, path);
    }
  }

  lemma LegacyAttemptKeepsStore(w: World, url: string, env: Env, digest: string -> string)
    ensures var s := LegacyAttempt(w, url, env, digest);
            StoreOnlyAt(w.store, s.world.store, url) && KeepsMarkers(w.store, s.world.store)
  {
    var s := LegacyAttempt(w, url, env, digest);
    if s.world.store != w.store {
      FetchedKeepsStore(w, url, env, LegacyLocalPath(digest, url, env.fetch));
    }
  }

  /** The service's Bloom filter only holds URLs the store has marked as downloaded. */
  ghost predicate BloomSound(w: World)
  {
    forall u :: u in w.bloom ==> IsDownloaded(w.store, u)
  }

  /** Whether the lock of `url` can be taken: `SET NX` succeeds and does not raise. */
  predicate Acquirable(w: World, url: string, env: Env)
  {
    AcquireFails !in env.faults && LockKey(url) !in w.store
  }

  /** While another consumer holds the lock both versions return `None` after the one attempt to take
      it, and change nothing. */
  lemma LockHeldElsewhere(w: World, url: string, env: Env, digest: string -> string)
    requires AcquireFails !in env.faults && LockKey(url) in w.store
    ensures Download(w, url, env, digest) == Step(w, [CallAcquire], Returned(None))
    ensures LegacyDownload(w, url, env, digest) == Step(w, [CallAcquire], Returned(None))
  {
  }

  /** Once the lock is taken it is released exactly once, by the last call, whatever happened in
      between; and the lock key is gone afterwards unless the release itself raised. */
  lemma ReleasedOnceAtEnd(w: World, url: string, env: Env, digest: string -> string)
    requires Acquirable(w, url, env)
    ensures var s := Download(w, url, env, digest);
            var l := LegacyDownload(w, url, env, digest);
            && ReleasedLast(s.calls) && ReleasedLast(l.calls)
            && (LockKey(url) in s.world.store <==> ReleaseFails in env.faults)
            && (LockKey(url) in l.world.store <==> ReleaseFails in env.faults)
  {
    var d := TryLock(w.store, url).0;
    var a := Attempt(w.(store := d), url, env, digest);
    var la := LegacyAttempt(w.(store := d), url, env, digest);
    AttemptKeepsStore(w.(store := d), url, env, digest);
    LegacyAttemptKeepsStore(w.(store := d), url, env, digest);
    LockedThenReleased(a.calls);
    LockedThenReleased(la.calls);
  }

  /** The calls start by taking the lock and end by releasing it, and neither happens in between. */
  predicate ReleasedLast(calls: seq<Call>)
  {
    && |calls| >= 2 && calls[0] == CallAcquire && calls[|calls| - 1] == CallRelease
    && LockFree(calls[1..|calls| - 1])
  }

  lemma LockedThenReleased(calls: seq<Call>)
    requires LockFree(calls)
    ensures ReleasedLast([CallAcquire] + calls + [CallRelease])
  {
    assert ([CallAcquire] + calls + [CallRelease])[1..|calls| + 1] == calls;
  }

  /** The current version rejects a URL that is not http(s) with a host before any other call: one
      error, no network call, and the store as it was once the lock is released. */
  lemma InvalidUrlRejected(w: World, url: string, env: Env, digest: string -> string)
    requires Acquirable(w, url, env) && IsValidUrl(url) != Some(true)
    ensures var s := Download(w, url, env, digest);
            && s.calls == [CallAcquire, CallRelease]
            && s.world.errors == w.errors + 1 && s.world.downloaded == w.downloaded
            && s.world.bloom == w.bloom && s.world.files == w.files && s.world.table == w.table
            && (ReleaseFails !in env.faults ==> s.result == Returned(None) && s.world.store == w.store)
            && (ReleaseFails in env.faults ==> s.result == Raised)
  {
    TryLockUnlock(w.store, url);
  }

  /** Taking a free lock and releasing it leaves the store as it was. */
  lemma TryLockUnlock(d: Store, url: string)
    requires LockKey(url) !in d
    ensures Unlock(TryLock(d, url).0, url) == d
  {
    assert Unlock(TryLock(d, url).0, url).Keys == d.Keys;
  }

  /** A URL the Bloom filter or a store marker already covers is not fetched: neither version calls
      `session.get`, counts anything or writes anything, and both return `None` once the lock is
      released. */
  lemma AlreadyProcessedSkipped(w: World, url: string, env: Env, digest: string -> string)
    requires Acquirable(w, url, env)
    requires url in w.bloom || IsDownloaded(w.store, url) || IsNotFound(w.store, url)
    requires DownloadedCheckFails !in env.faults && NotFoundCheckFails !in env.faults
    ensures var s := Download(w, url, env, digest);
            IsValidUrl(url) == Some(true) ==> Untouched(w, s, env)
    ensures Untouched(w, LegacyDownload(w, url, env, digest), env)
    ensures url in w.bloom ==>
            && (IsValidUrl(url) == Some(true) ==> Download(w, url, env, digest).calls == [CallAcquire, CallRelease])
            && LegacyDownload(w, url, env, digest).calls == [CallAcquire, CallRelease]
    ensures url !in w.bloom && IsDownloaded(w.store, url) ==>
            && (IsValidUrl(url) == Some(true) ==> Download(w, url, env, digest).calls == [CallAcquire, CallIsDownloaded, CallRelease])
            && LegacyDownload(w, url, env, digest).calls == [CallAcquire, CallIsDownloaded, CallRelease]
    ensures url !in w.bloom && !IsDownloaded(w.store, url) && IsNotFound(w.store, url) ==>
            && (IsValidUrl(url) == Some(true) ==>
                Download(w, url, env, digest).calls == [CallAcquire, CallIsDownloaded, CallIsNotFound, CallRelease])
            && LegacyDownload(w, url, env, digest).calls == [CallAcquire, CallIsDownloaded, CallIsNotFound, CallRelease]
  {
    TryLockUnlock(w.store, url);
    ChecksInOrder(w, url, env, digest);
  }

  /** The checks run in a fixed order in both versions: the Bloom filter, then the `downloaded:`
      marker, then the `not_found:` marker; the first that answers ends the call, which then only
      releases the lock. */
  lemma ChecksInOrder(w: World, url: string, env: Env, digest: string -> string)
    requires Acquirable(w, url, env)
    requires DownloadedCheckFails !in env.faults && NotFoundCheckFails !in env.faults
    ensures url in w.bloom ==>
            && (IsValidUrl(url) == Some(true) ==> Download(w, url, env, digest).calls == [CallAcquire, CallRelease])
            && LegacyDownload(w, url, env, digest).calls == [CallAcquire, CallRelease]
    ensures url !in w.bloom && IsDownloaded(w.store, url) ==>
            && (IsValidUrl(url) == Some(true) ==> Download(w, url, env, digest).calls == [CallAcquire, CallIsDownloaded, CallRelease])
            && LegacyDownload(w, url, env, digest).calls == [CallAcquire, CallIsDownloaded, CallRelease]
    ensures url !in w.bloom && !IsDownloaded(w.store, url) && IsNotFound(w.store, url) ==>
            && (IsValidUrl(url) == Some(true) ==>
                Download(w, url, env, digest).calls == [CallAcquire, CallIsDownloaded, CallIsNotFound, CallRelease])
            && LegacyDownload(w, url, env, digest).calls == [CallAcquire, CallIsDownloaded, CallIsNotFound, CallRelease]
  {
    LocksKeepMarkers(w.store, url, url);
    DownloadRuns(w, url, env, digest);
    Bracketed0(CallAcquire, CallRelease);
    Bracketed3(CallAcquire, CallIsDownloaded, CallRelease);
    Bracketed2(CallAcquire, CallIsDownloaded, CallIsNotFound, CallRelease);
  }

  /** A call that made no network request and changed nothing but its lock. */
  predicate Untouched(w: World, s: Step<Outcome>, env: Env)
  {
    && CallGet !in s.calls
    && s.world.errors == w.errors && s.world.downloaded == w.downloaded
    && s.world.bloom == w.bloom && s.world.files == w.files && s.world.table == w.table
    && (ReleaseFails !in env.faults ==> s.result == Returned(None) && s.world.store == w.store)
  }

  /** A new URL answered with 404 is marked not found, with no error counted and no file written. */
  lemma NotFoundMarked(w: World, url: string, env: Env, digest: string -> string, body: seq<bv8>)
    requires Acquirable(w, url, env) && IsValidUrl(url) == Some(true)
    requires url !in w.bloom && IsNew(w.store, url)
    requires env.fetch == Response(404, body) && env.faults == {}
    ensures var s := Download(w, url, env, digest);
            && s.result == Returned(None) && IsNotFound(s.world.store, url)
            && s.world.errors == w.errors && s.world.files == w.files && s.world.bloom == w.bloom
            && s.calls == [CallAcquire, CallIsDownloaded, CallIsNotFound, CallGet, CallCacheNotFound, CallRelease]
  {
    var d := TryLock(w.store, url).0;
    var w1 := w.(store := d);
    var path := LocalPath(digest, url);
    LocksKeepMarkers(w.store, url, url);
    DownloadRuns(w, url, env, digest);
    NotFoundAttempt(w1, url, env, digest, body);
    MarkNotFoundThenQuery(d, url, url);
    LocksKeepMarkers(MarkNotFound(d, url), url, url);
    Bracketed(CallAcquire, CallIsDownloaded, CallIsNotFound, CallGet, CallCacheNotFound, CallRelease);
  }

  /** Four calls between a first and a last one. */
  lemma Bracketed<T>(first: T, a: T, b: T, c: T, d: T, last: T)
    ensures [first] + [a, b, c, d] + [last] == [first, a, b, c, d, last]
  {
  }

  /** No call between a first and a last one. */
  lemma Bracketed0<T>(first: T, last: T)
    ensures [first] + [] + [last] == [first, last]
  {
  }

  /** Two calls between a first and a last one. */
  lemma Bracketed2<T>(first: T, a: T, b: T, last: T)
    ensures [first] + [a, b] + [last] == [first, a, b, last]
  {
  }

  /** One call between a first and a last one. */
  lemma Bracketed3<T>(first: T, a: T, last: T)
    ensures [first] + [a] + [last] == [first, a, last]
  {
  }

  /** The body of the current version on a new URL answered with 404. */
  lemma NotFoundAttempt(w: World, url: string, env: Env, digest: string -> string, body: seq<bv8>)
    requires IsValidUrl(url) == Some(true) && url !in w.bloom && IsNew(w.store, url)
    requires env.fetch == Response(404, body) && env.faults == {}
    ensures Attempt(w, url, env, digest)
         == Step(w.(store := MarkNotFound(w.store, url)), [CallIsDownloaded, CallIsNotFound, CallGet, CallCacheNotFound], None)
  {
    AttemptFetches(w, url, env, digest);
    FetchedNotFound(w, url, env, LocalPath(digest, url), body);
    assert [CallIsDownloaded, CallIsNotFound] + [CallGet, CallCacheNotFound] == [CallIsDownloaded, CallIsNotFound, CallGet, CallCacheNotFound];
  }

  /** A 404 with a marker write that does not raise records the not-found marker and nothing else. */
  lemma FetchedNotFound(w: World, url: string, env: Env, path: string, body: seq<bv8>)
    requires env.fetch == Response(404, body) && NotFoundCacheFails !in env.faults
    ensures Fetched(w, url, env, path) == Step(w.(store := MarkNotFound(w.store, url)), [CallGet, CallCacheNotFound], None)
  {
  }

  /** The stretch from `session.get` on fails: the host is unreachable, the status is 400 or more and
      not 404, a 404's marker write raises, the file write raises, the database yields no usable id, or
      the downloaded marker write raises. */
  predicate FetchFails(t: Table, url: string, env: Env, path: string)
  {
    match env.fetch
    case Unreachable => true
    case Response(status, _) =>
      if status == 404 then NotFoundCacheFails in env.faults
      else
        var stored := StoreRecord(t, url, path, env.db).1;
        || status >= 400 || WriteFails in env.faults
        || stored.Failure? || stored.value.None? || stored.value.value == 0
        || DownloadedCacheFails in env.faults
  }

  /** The download fails exactly on those paths, and each of them counts one error, returns `None` and
      leaves the store, the Bloom filter and the success counter as they were. */
  lemma FetchedFails(w: World, url: string, env: Env, path: string)
    ensures var f := Fetched(w, url, env, path);
            FetchFails(w.table, url, env, path) <==> f.result.None? && !NotFoundRecorded(env)
    ensures var f := Fetched(w, url, env, path);
            FetchFails(w.table, url, env, path) ==>
            && f.result == None && f.world.errors == w.errors + 1 && f.world.store == w.store
            && f.world.bloom == w.bloom && f.world.downloaded == w.downloaded
  {
  }

  /** End to end, for a valid new URL whose lock is free and whose checks and release do not raise:
      each failing path of the download returns `None`, counts one error, does not add the URL to the
      Bloom filter and sets no marker, so a later delivery tries the URL again. */
  lemma FailuresCounted(w: World, url: string, env: Env, digest: string -> string)
    requires Acquirable(w, url, env) && url !in w.bloom && IsNew(w.store, url)
    requires DownloadedCheckFails !in env.faults && NotFoundCheckFails !in env.faults && ReleaseFails !in env.faults
    ensures IsValidUrl(url) == Some(true) && FetchFails(w.table, url, env, LocalPath(digest, url)) ==>
            var s := Download(w, url, env, digest);
            && s.result == Returned(None) && s.world.errors == w.errors + 1 && s.world.downloaded == w.downloaded
            && url !in s.world.bloom && s.world.store == w.store && IsNew(s.world.store, url)
    ensures FetchFails(w.table, url, env, LegacyLocalPath(digest, url, env.fetch)) ==>
            var l := LegacyDownload(w, url, env, digest);
            && l.result == Returned(None) && l.world.errors == w.errors + 1 && l.world.downloaded == w.downloaded
            && url !in l.world.bloom && l.world.store == w.store && IsNew(l.world.store, url)
  {
    var d := TryLock(w.store, url).0;
    var w1 := w.(store := d);
    LocksKeepMarkers(w.store, url, url);
    DownloadRuns(w, url, env, digest);
    TryLockUnlock(w.store, url);
    FetchedFails(w1, url, env, LocalPath(digest, url));
    FetchedFails(w1, url, env, LegacyLocalPath(digest, url, env.fetch));
    if IsValidUrl(url) == Some(true) {
      AttemptFetches(w1, url, env, digest);
    }
  }

  /** With the lock free, both versions take it, run their body on the locked store and release. */
  lemma DownloadRuns(w: World, url: string, env: Env, digest: string -> string)
    requires Acquirable(w, url, env)
    ensures var w1 := w.(store := TryLock(w.store, url).0);
            var a := Attempt(w1, url, env, digest);
            Download(w, url, env, digest) == Release(a.world, [CallAcquire] + a.calls, url, env, Returned(a.result))
    ensures var w1 := w.(store := TryLock(w.store, url).0);
            var a := LegacyAttempt(w1, url, env, digest);
            LegacyDownload(w, url, env, digest) == Release(a.world, [CallAcquire] + a.calls, url, env, a.result)
  {
  }

  /** A valid new URL outside the Bloom filter, with marker checks that do not raise, is fetched. */
  lemma AttemptFetches(w: World, url: string, env: Env, digest: string -> string)
    requires IsValidUrl(url) == Some(true) && url !in w.bloom && IsNew(w.store, url)
    requires DownloadedCheckFails !in env.faults && NotFoundCheckFails !in env.faults
    ensures var f := Fetched(w, url, env, LocalPath(digest, url));
            Attempt(w, url, env, digest) == Step(f.world, [CallIsDownloaded, CallIsNotFound] + f.calls, f.result)
  {
  }

  /** A new URL served successfully is downloaded: its body is written to the local path named after
      the URL, the row is stored, the URL is marked downloaded with that path and added to the Bloom
      filter, one success is counted, the lock is released, and the row's id and the path are
      returned. */
  lemma SuccessfulDownload(w: World, url: string, env: Env, digest: string -> string, status: int, body: seq<bv8>)
    requires Acquirable(w, url, env) && IsValidUrl(url) == Some(true)
    requires url !in w.bloom && IsNew(w.store, url) && WellFormed(w.table)
    requires env.fetch == Response(status, body) && status < 400 && env.faults == {}
    requires env.db != QueryFails && (url in w.table.rows ==> env.db == Healthy)
    ensures var s := Download(w, url, env, digest);
            var path := LocalPath(digest, url);
            && s.result.Returned? && s.result.result.Some? && s.result.result.value.1 == path
            && url in s.world.table.rows && s.world.table.rows[url].id == s.result.result.value.0
            && path in s.world.files && s.world.files[path] == body
            && DownloadedKey(url) in s.world.store && s.world.store[DownloadedKey(url)] == path
            && LockKey(url) !in s.world.store
            && s.world.bloom == w.bloom + {url} && s.world.downloaded == w.downloaded + 1 && s.world.errors == w.errors
  {
    var d := TryLock(w.store, url).0;
    var w1 := w.(store := d);
    var path := LocalPath(digest, url);
    LocksKeepMarkers(w.store, url, url);
    DownloadRuns(w, url, env, digest);
    AttemptFetches(w1, url, env, digest);
    FetchedSucceeds(w1, url, env, path, status, body);
    NamespacesDisjoint(url, url);
  }

  /** A response below 400 with no fault and a usable database stores the row and returns its id. */
  lemma FetchedSucceeds(w: World, url: string, env: Env, path: string, status: int, body: seq<bv8>)
    requires WellFormed(w.table)
    requires env.fetch == Response(status, body) && status < 400 && env.faults == {}
    requires env.db != QueryFails && (url in w.table.rows ==> env.db == Healthy)
    ensures var f := Fetched(w, url, env, path);
            && f.result.Some? && url in f.world.table.rows && f.world.table.rows[url].id == f.result.value.0
            && f.world.files == w.files[path := body]
  {
    NoneOnlyWhenRowVanished(w.table, url, path, env.db);
    ReturnedIdNamesRow(w.table, url, path, env.db);
  }

  /** Taking and releasing a lock touch only the lock key. */
  lemma LockOpsKeepMarkers(d: Store, url: string)
    ensures KeepsMarkers(d, TryLock(d, url).0) && OtherKeysKept(d, TryLock(d, url).0, url)
    ensures KeepsMarkers(d, Unlock(d, url)) && OtherKeysKept(d, Unlock(d, url), url)
  {
    forall u ensures IsDownloaded(TryLock(d, url).0, u) == IsDownloaded(d, u) && IsNotFound(TryLock(d, url).0, u) == IsNotFound(d, u)
                  && IsDownloaded(Unlock(d, url), u) == IsDownloaded(d, u) && IsNotFound(Unlock(d, url), u) == IsNotFound(d, u)
    {
      LocksKeepMarkers(d, url, u);
    }
  }

  /** Each call counts at most one outcome: a success (the URL then marked downloaded and in the Bloom
      filter) or an error, never both; only `url`'s keys change, no marker is removed, and a sound Bloom
      filter stays sound. */
  lemma DownloadEffects(w: World, url: string, env: Env, digest: string -> string)
    ensures var s := Download(w, url, env, digest);
            && s.world.downloaded + s.world.errors <= w.downloaded + w.errors + 1
            && (s.world.downloaded > w.downloaded ==> IsDownloaded(s.world.store, url) && url in s.world.bloom)
            && OtherKeysKept(w.store, s.world.store, url) && KeepsMarkers(w.store, s.world.store)
            && (BloomSound(w) ==> BloomSound(s.world))
  {
    if Acquirable(w, url, env) {
      DownloadRuns(w, url, env, digest);
      var d := TryLock(w.store, url).0;
      var a := Attempt(w.(store := d), url, env, digest);
      AttemptKeepsStore(w.(store := d), url, env, digest);
      EffectsAcrossLock(w, a.world, Download(w, url, env, digest).world, url);
    }
  }

  /** The effects of a locked body, carried across taking the lock before it and releasing it after. */
  lemma EffectsAcrossLock(w: World, aw: World, w': World, url: string)
    requires StoreOnlyAt(TryLock(w.store, url).0, aw.store, url) && KeepsMarkers(TryLock(w.store, url).0, aw.store)
    requires aw.downloaded + aw.errors <= w.downloaded + w.errors + 1
    requires aw.downloaded > w.downloaded ==> IsDownloaded(aw.store, url) && url in aw.bloom
    requires aw.bloom == w.bloom || (aw.bloom == w.bloom + {url} && IsDownloaded(aw.store, url))
    requires w' == aw || w' == aw.(store := Unlock(aw.store, url))
    ensures && w'.downloaded + w'.errors <= w.downloaded + w.errors + 1
            && (w'.downloaded > w.downloaded ==> IsDownloaded(w'.store, url) && url in w'.bloom)
            && OtherKeysKept(w.store, w'.store, url) && KeepsMarkers(w.store, w'.store)
            && (BloomSound(w) ==> BloomSound(w'))
  {
    LockOpsKeepMarkers(w.store, url);
    LockOpsKeepMarkers(aw.store, url);
  }

  /** The same for the legacy copy. */
  lemma LegacyDownloadEffects(w: World, url: string, env: Env, digest: string -> string)
    ensures var s := LegacyDownload(w, url, env, digest);
            && s.world.downloaded + s.world.errors <= w.downloaded + w.errors + 1
            && (s.world.downloaded > w.downloaded ==> IsDownloaded(s.world.store, url) && url in s.world.bloom)
            && OtherKeysKept(w.store, s.world.store, url) && KeepsMarkers(w.store, s.world.store)
            && (BloomSound(w) ==> BloomSound(s.world))
  {
    if Acquirable(w, url, env) {
      DownloadRuns(w, url, env, digest);
      var d := TryLock(w.store, url).0;
      var a := LegacyAttempt(w.(store := d), url, env, digest);
      LegacyAttemptKeepsStore(w.(store := d), url, env, digest);
      EffectsAcrossLock(w, a.world, LegacyDownload(w, url, env, digest).world, url);
    }
  }

  /** For a valid URL, and when neither marker check raises, the legacy copy does exactly what the
      current version does. */
  lemma LegacyAgreesOnValidUrls(w: World, url: string, env: Env, digest: string -> string)
    requires IsValidUrl(url) == Some(true)
    requires DownloadedCheckFails !in env.faults && NotFoundCheckFails !in env.faults
    ensures LegacyDownload(w, url, env, digest) == Download(w, url, env, digest)
  {
    if Acquirable(w, url, env) {
      AttemptsAgree(w.(store := TryLock(w.store, url).0), url, env, digest);
    }
  }

  lemma AttemptsAgree(w: World, url: string, env: Env, digest: string -> string)
    requires IsValidUrl(url) == Some(true)
    requires DownloadedCheckFails !in env.faults && NotFoundCheckFails !in env.faults
    ensures var a := Attempt(w, url, env, digest);
            LegacyAttempt(w, url, env, digest) == Step(a.world, a.calls, Returned(a.result))
  {
    if url !in w.bloom && IsNew(w.store, url) {
      LegacyFilenameAgrees(digest, url, env.fetch);
      assert LegacyLocalPath(digest, url, env.fetch) == LocalPath(digest, url);
      AttemptFetches(w, url, env, digest);
    }
  }

  /** Where the versions differ: a marker check that raises is an error the current version counts and
      swallows, while in the legacy copy it escapes, uncounted; both still release the lock. */
  lemma CheckFaultHandling(w: World, url: string, env: Env, digest: string -> string)
    requires Acquirable(w, url, env) && IsValidUrl(url) == Some(true) && url !in w.bloom
    requires DownloadedCheckFails in env.faults && ReleaseFails !in env.faults
    ensures var s := Download(w, url, env, digest);
            s.result == Returned(None) && s.world.errors == w.errors + 1 && s.calls == [CallAcquire, CallIsDownloaded, CallRelease]
    ensures var l := LegacyDownload(w, url, env, digest);
            l.result == Raised && l.world.errors == w.errors && l.calls == [CallAcquire, CallIsDownloaded, CallRelease]
  {
    DownloadRuns(w, url, env, digest);
    Bracketed3(CallAcquire, CallIsDownloaded, CallRelease);
  }

  /** The legacy copy does not validate, so it fetches a URL the current version rejects, such as
      `ftp://example.com` (`FtpRejected`). */
  lemma LegacyFetchesUnvalidated(w: World, url: string, env: Env, digest: string -> string)
    requires Acquirable(w, url, env) && IsValidUrl(url) != Some(true) && url !in w.bloom && IsNew(w.store, url)
    requires DownloadedCheckFails !in env.faults && NotFoundCheckFails !in env.faults
    ensures CallGet in LegacyDownload(w, url, env, digest).calls
    ensures CallGet !in Download(w, url, env, digest).calls
  {
    LocksKeepMarkers(w.store, url, url);
    DownloadRuns(w, url, env, digest);
    var d := TryLock(w.store, url).0;
    var la := LegacyAttempt(w.(store := d), url, env, digest);
    var f := Fetched(w.(store := d), url, env, LegacyLocalPath(digest, url, env.fetch));
    assert la.calls == [CallIsDownloaded, CallIsNotFound] + f.calls;
    assert la.calls[2] == CallGet;
    assert ([CallAcquire] + la.calls + [CallRelease])[3] == CallGet;
  }

  /** After a successful download the next call for the same URL, whatever happens in it, fetches
      nothing, counts nothing and returns no image: the Bloom filter answers first. */
  lemma SecondCallSkips(w: World, url: string, env: Env, env': Env, digest: string -> string)
    requires Download(w, url, env, digest).result.Returned? && Download(w, url, env, digest).result.result.Some?
    ensures var s' := Download(Download(w, url, env, digest).world, url, env', digest);
            && CallGet !in s'.calls && s'.world.errors == Download(w, url, env, digest).world.errors
            && s'.world.downloaded == Download(w, url, env, digest).world.downloaded
            && !(s'.result.Returned? && s'.result.result.Some?)
  {
    var a := Attempt(w.(store := TryLock(w.store, url).0), url, env, digest);
    assert IsValidUrl(url) == Some(true) && url in a.world.bloom;
    BloomAnswersFirst(Download(w, url, env, digest).world, url, env', digest);
  }

  /** A valid URL already in the Bloom filter is answered without a fetch, a count or an image; with the
      lock free, taking and releasing it are the only calls. */
  lemma BloomAnswersFirst(w: World, url: string, env: Env, digest: string -> string)
    requires IsValidUrl(url) == Some(true) && url in w.bloom
    ensures var s := Download(w, url, env, digest);
            && CallGet !in s.calls && s.world.errors == w.errors && s.world.downloaded == w.downloaded
            && !(s.result.Returned? && s.result.result.Some?)
    ensures Acquirable(w, url, env) ==>
            Download(w, url, env, digest).calls == [CallAcquire, CallRelease]
            && LegacyDownload(w, url, env, digest).calls == [CallAcquire, CallRelease]
  {
    if AcquireFails !in env.faults && TryLock(w.store, url).1 {
      var w1 := w.(store := TryLock(w.store, url).0);
      assert Attempt(w1, url, env, digest) == Step(w1, [], None);
      assert LegacyAttempt(w1, url, env, digest) == Step(w1, [], Returned(None));
      Bracketed0(CallAcquire, CallRelease);
    }
  }

  /** A URL once answered 404 is never fetched again by the current version, as long as the marker
      checks do not raise. */
  lemma NoRefetchAfterNotFound(w: World, url: string, env: Env, env': Env, digest: string -> string, body: seq<bv8>)
    requires Acquirable(w, url, env) && IsValidUrl(url) == Some(true)
    requires url !in w.bloom && IsNew(w.store, url)
    requires env.fetch == Response(404, body) && env.faults == {}
    requires DownloadedCheckFails !in env'.faults && NotFoundCheckFails !in env'.faults
    ensures CallGet !in Download(Download(w, url, env, digest).world, url, env', digest).calls
  {
    NotFoundMarked(w, url, env, digest, body);
    var w1 := Download(w, url, env, digest).world;
    if AcquireFails !in env'.faults && LockKey(url) !in w1.store {
      AlreadyProcessedSkipped(w1, url, env', digest);
    }
  }
}
