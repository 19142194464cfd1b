/** The download queue's consumer callbacks, in the service's current form and in its legacy copy:
    `process_url` runs `download_image` once and, when it returns `(image_id, image_path)`, hands the
    image to the embedding queue with `publish_embeddings`; `message_callback` only delegates to it.
    An exception from `download_image` propagates out of both, and nothing is published. */
module Callbacks {
  import opened Wrappers
  import opened SharedStore
  import opened Records
  import opened Urls
  import opened Filenames
  import opened Messaging
  import opened Publishers
  import opened Downloading
  import opened DownloadServices

  /** What one callback leaves behind: the download's step and the messages published so far. */
  datatype Handled = Handled(download: Step<Outcome>, published: seq<Published>)

  /** The publish that follows a download: one embedding message for a returned `(id, path)`, nothing
      for `None` or an exception. `open` and `fails` describe the broker, as in `EmbeddingPublish`. */
  function AfterDownload(s: Step<Outcome>, url: string, sent: seq<Published>, open: bool, fails: bool): Handled
  {
    if s.result.Returned? && s.result.result.Some? then
      var (imageId, imagePath) := s.result.result.value;
      Handled(s, EmbeddingPublish(sent, open, fails, imageId, url, imagePath))
    else Handled(s, sent)
  }

  /** `process_url(url, downloader_service)` over the current service. */
  function ProcessUrl(w: World, url: string, env: Env, digest: string -> string, sent: seq<Published>, open: bool, fails: bool): Handled
  {
    AfterDownload(Download(w, url, env, digest), url, sent, open, fails)
  }

  /** `message_callback(url, downloader_service)`: it awaits `process_url` and nothing else. */
  function MessageCallback(w: World, url: string, env: Env, digest: string -> string, sent: seq<Published>, open: bool, fails: bool): Handled
  {
    ProcessUrl(w, url, env, digest, sent, open, fails)
  }

  /** `process_url` over the legacy service. */
  function LegacyProcessUrl(w: World, url: string, env: Env, digest: string -> string, sent: seq<Published>, open: bool, fails: bool): Handled
  {
    AfterDownload(LegacyDownload(w, url, env, digest), url, sent, open, fails)
  }

  /** The legacy `message_callback`. */
  function LegacyMessageCallback(w: World, url: string, env: Env, digest: string -> string, sent: seq<Published>, open: bool, fails: bool): Handled
  {
    LegacyProcessUrl(w, url, env, digest, sent, open, fails)
  }

  /** Whether a download step returned an image. */
  predicate GotImage(s: Step<Outcome>)
  {
    s.result.Returned? && s.result.result.Some?
  }

  /** A publish happens iff the download returned a result, and it carries that result's id and path
      with the callback's URL; a `None` result or an exception publishes nothing. */
  lemma PublishesIffDownloaded(s: Step<Outcome>, url: string, sent: seq<Published>, open: bool, fails: bool)
    requires open && !fails
    ensures var h := AfterDownload(s, url, sent, open, fails);
            && h.download == s
            && (GotImage(s) <==> |h.published| == |sent| + 1)
            && (GotImage(s) ==> h.published == sent + [Published(EmbeddingQueue, EmbeddingMessage(s.result.result.value.0, url, s.result.result.value.1))])
            && (!GotImage(s) ==> h.published == sent)
  {
  }

  /** Both callbacks of both versions publish at most one message per URL handled and never drop or
      alter what was published before; `message_callback` does exactly what `process_url` does. */
  lemma CallbacksAppendAtMostOne(w: World, url: string, env: Env, digest: string -> string, sent: seq<Published>, open: bool, fails: bool)
    ensures var h := MessageCallback(w, url, env, digest, sent, open, fails);
            && h == ProcessUrl(w, url, env, digest, sent, open, fails)
            && h.download == Download(w, url, env, digest)
            && |sent| <= |h.published| <= |sent| + 1 && h.published[..|sent|] == sent
            && (|h.published| > |sent| ==> GotImage(h.download))
    ensures var h := LegacyMessageCallback(w, url, env, digest, sent, open, fails);
            && h == LegacyProcessUrl(w, url, env, digest, sent, open, fails)
            && h.download == LegacyDownload(w, url, env, digest)
            && |sent| <= |h.published| <= |sent| + 1 && h.published[..|sent|] == sent
            && (|h.published| > |sent| ==> GotImage(h.download))
  {
    assert sent[..|sent|] == sent;
  }

  /** End to end: a new URL served successfully leads to exactly one embedding request, for the row's
      id, the callback's URL and the local path named after the URL. */
  lemma SuccessPublishesEmbedding(w: World, url: string, env: Env, digest: string -> string, status: int, body: seq<bv8>, sent: seq<Published>)
    requires Acquirable(w, url, env) && IsValidUrl(url) == Some(true)
    requires url !in w.bloom && IsNew(w.store, url) && WellFormed(w.table)
    requires env.fetch == Response(status, body) && status < 400 && env.faults == {}
    requires env.db != QueryFails && (url in w.table.rows ==> env.db == Healthy)
    ensures var h := ProcessUrl(w, url, env, digest, sent, true, false);
            && url in h.download.world.table.rows
            && h.published == sent + [Published(EmbeddingQueue, EmbeddingMessage(h.download.world.table.rows[url].id, url, LocalPath(digest, url)))]
  {
    SuccessfulDownload(w, url, env, digest, status, body);
  }

  /** While another consumer holds the lock nothing is published. */
  lemma LockedPublishesNothing(w: World, url: string, env: Env, digest: string -> string, sent: seq<Published>, open: bool, fails: bool)
    requires AcquireFails !in env.faults && LockKey(url) in w.store
    ensures ProcessUrl(w, url, env, digest, sent, open, fails).published == sent
    ensures LegacyProcessUrl(w, url, env, digest, sent, open, fails).published == sent
  {
    LockHeldElsewhere(w, url, env, digest);
  }

  /** A URL delivered twice gets at most one embedding request: after a successful first delivery the
      second publishes nothing, whatever happens in it. */
  lemma RedeliveryPublishesOnce(w: World, url: string, env: Env, env': Env, digest: string -> string, sent: seq<Published>, open: bool, fails: bool)
    ensures var h := ProcessUrl(w, url, env, digest, sent, open, fails);
            var h' := ProcessUrl(h.download.world, url, env', digest, h.published, open, fails);
            |h'.published| <= |sent| + 1
  {
    var h := ProcessUrl(w, url, env, digest, sent, open, fails);
    CallbacksAppendAtMostOne(w, url, env, digest, sent, open, fails);
    CallbacksAppendAtMostOne(h.download.world, url, env', digest, h.published, open, fails);
    if GotImage(h.download) {
      SecondCallSkips(w, url, env, env', digest);
    }
  }

  /** `process_url` over the current service's objects and the broker. */
  method HandleUrl(service: DownloaderService, broker: Broker, url: string, env: Env, fails: bool)
    returns (outcome: Outcome, ghost made: seq<Call>)
    modifies service.redis, service.database, service.bloom, service.disk, service.metrics, broker
    ensures var h := ProcessUrl(old(service.State()), url, env, service.digest, old(broker.published), old(broker.channelOpen), fails);
            && service.State() == h.download.world && made == h.download.calls && outcome == h.download.result
            && broker.published == h.published
  {
    outcome, made := service.DownloadImage(url, env);
    if outcome.Returned? && outcome.result.Some? {
      var (imageId, imagePath) := outcome.result.value;
      PublishEmbeddings(broker, imageId, url, imagePath, fails);
    }
  }

  /** `process_url` over the legacy service's objects and the broker. */
  method LegacyHandleUrl(service: LegacyDownloaderService, broker: Broker, url: string, env: Env, fails: bool)
    returns (outcome: Outcome, ghost made: seq<Call>)
    modifies service.redis, service.database, service.bloom, service.disk, service.metrics, broker
    ensures var h := LegacyProcessUrl(old(service.State()), url, env, service.digest, old(broker.published), old(broker.channelOpen), fails);
            && service.State() == h.download.world && made == h.download.calls && outcome == h.download.result
            && broker.published == h.published
  {
    outcome, made := service.DownloadImage(url, env);
    if outcome.Returned? && outcome.result.Some? {
      var (imageId, imagePath) := outcome.result.value;
      PublishEmbeddings(broker, imageId, url, imagePath, fails);
    }
  }
}
