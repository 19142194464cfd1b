/** What one HTTP request of the two stand-alone downloaders yields, shared by both of them. */
module Replies {
  /** The exception classes the downloaders tell apart: `aiohttp.ClientError`, `OSError`,
      `RuntimeError`, and any other `Exception`. */
  datatype Failure = ClientFailure | OsFailure | RuntimeFailure | OtherFailure

  /** `client.get(...)` answers with a status, or raises before answering. For a 200 answer `saved`
      says whether the body reached the final path: the temporary file was written and `safe_move_file`
      moved it (a failed write raises `OSError`, which both downloaders catch). */
  datatype Reply = Answered(status: int, saved: bool) | Failed(failure: Failure)

  /** The bookkeeping both downloaders keep: `files` is every path for which `os.path.exists` holds
      (the output directory itself included, so a URL ending in `/` is skipped), the file names being
      downloaded, and `request_count`. */
  datatype Bookkeeping = Bookkeeping(files: set<string>, inProgress: set<string>, requestCount: nat)
}

/** The first stand-alone downloader (downloader/downloader.py): module-level `in_progress_downloads`
    and `request_count`, `download_image`, `download_with_retries` with its exponential back-off, and
    `process_batch`. */
module BatchDownloader {
  import opened Wrappers
  import opened Text
  import opened Paths
  import opened Retry
  import opened Replies

  /** `os.path.basename(url.strip())`. */
  function FileName(url: string): string
  {
    Basename(Strip(url))
  }

  /** Whether `download_image` claims the URL: its final file is absent and no download of that file
      name is in progress. */
  predicate Claims(b: Bookkeeping, outputDir: string, url: string)
  {
    Join(outputDir, FileName(url)) !in b.files && FileName(url) !in b.inProgress
  }

  /** `download_image(client, url)`: skip an existing file or a name in progress; otherwise add the name,
      count a 200 answer and keep its file, and remove the name again in the `finally`. Every
      `Exception` inside the `try` is caught, so the call always returns. */
  function Fetched(b: Bookkeeping, outputDir: string, url: string, reply: Reply): Bookkeeping
  {
    var name := FileName(url);
    var finalPath := Join(outputDir, name);
    if finalPath in b.files || name in b.inProgress then b
    else
      var claimed := b.inProgress + {name};
      var after :=
        if reply.Answered? && reply.status == 200 then
          Bookkeeping(if reply.saved then b.files + {finalPath} else b.files, claimed, b.requestCount + 1)
        else b.(inProgress := claimed);
      after.(inProgress := after.inProgress - {name})
  }

  /** An existing final file or a file name already in progress returns at once and changes nothing. */
  lemma SkipsUnclaimed(b: Bookkeeping, outputDir: string, url: string, reply: Reply)
    requires !Claims(b, outputDir, url)
    ensures Fetched(b, outputDir, url, reply) == b
  {
  }

  /** What a call does: the set of names in progress is as before, so a claimed name is gone again
      whatever happened; `request_count` grows by one for a claimed 200 answer and never otherwise; the
      final file appears only for a claimed 200 answer whose body was saved, and no other file changes. */
  lemma DownloadEffects(b: Bookkeeping, outputDir: string, url: string, reply: Reply)
    ensures var r := Fetched(b, outputDir, url, reply);
            var finalPath := Join(outputDir, FileName(url));
            && r.inProgress == b.inProgress
            && (Claims(b, outputDir, url) ==> FileName(url) !in r.inProgress)
            && r.requestCount == b.requestCount + (if Claims(b, outputDir, url) && reply.Answered? && reply.status == 200 then 1 else 0)
            && r.files - {finalPath} == b.files - {finalPath}
            && (finalPath in r.files <==> finalPath in b.files || (Claims(b, outputDir, url) && reply == Answered(200, true)))
  {
    var name := FileName(url);
    if Claims(b, outputDir, url) {
      assert b.inProgress + {name} - {name} == b.inProgress;
    }
  }

  /** The module's globals and the files in `OUTPUT_DIR`. */
  class Downloader {
    var files: set<string>
    var inProgress: set<string>
    var requestCount: nat
    const outputDir: string

    constructor (outputDir: string, files: set<string>)
      ensures this.outputDir == outputDir && this.files == files && inProgress == {} && requestCount == 0
    {
      this.outputDir := outputDir;
      this.files := files;
      inProgress := {};
      requestCount := 0;
    }

    function State(): Bookkeeping
      reads this
    {
      Bookkeeping(files, inProgress, requestCount)
    }

    /** `download_image(client, url)`. `requested` is the URL handed to `client.get`, `None` when the
        call returns before the request. */
    method DownloadImage(url: string, reply: Reply) returns (requested: Option<string>)
      modifies this
      ensures State() == Fetched(old(State()), outputDir, url, reply)
      ensures requested == (if Claims(old(State()), outputDir, url) then Some(Strip(url)) else None)
    {
      var name := FileName(url);
      var finalPath := Join(outputDir, name);
      if finalPath in files {
        return None;
      }
      if name in inProgress {
        return None;
      }
      inProgress := inProgress + {name};
      requested := Some(Strip(url));
      if reply.Answered? && reply.status == 200 {
        requestCount := requestCount + 1;
        if reply.saved {
          files := files + {finalPath};
        }
      }
      if name in inProgress {
        inProgress := inProgress - {name};
      }
    }

    /** `process_batch(client, urls)`, with the downloads one after another: each URL gets its
        `download_with_retries`, which makes one `download_image` call since that call always returns
        (`FirstReturnStops`). `replies(u)` is the answer the server gives for `u`. */
    method ProcessBatch(urls: seq<string>, replies: string -> Reply) returns (requested: seq<string>)
      modifies this
      ensures State() == Batch(old(State()), outputDir, urls, replies)
      ensures |requested| <= |urls|
    {
      ghost var b0 := State();
      requested := [];
      for i := 0 to |urls|
        invariant State() == Batch(b0, outputDir, urls[..i], replies)
        invariant |requested| <= i
      {
        ghost var before := State();
        var r := DownloadImage(urls[i], replies(urls[i]));
        if r.Some? {
          requested := requested + [r.value];
        }
        BatchSnoc(b0, outputDir, urls, i, replies);
      }
      assert urls[..|urls|] == urls;
    }
  }

  /** The bookkeeping after downloading `urls` in order. */
  function Batch(b: Bookkeeping, outputDir: string, urls: seq<string>, replies: string -> Reply): Bookkeeping
  {
    if |urls| == 0 then b
    else
      var last := urls[|urls| - 1];
      Fetched(Batch(b, outputDir, urls[..|urls| - 1], replies), outputDir, last, replies(last))
  }

  /** A batch one URL longer is the shorter batch followed by one more download. */
  lemma BatchSnoc(b: Bookkeeping, outputDir: string, urls: seq<string>, i: nat, replies: string -> Reply)
    requires i < |urls|
    ensures Batch(b, outputDir, urls[..i + 1], replies) == Fetched(Batch(b, outputDir, urls[..i], replies), outputDir, urls[i], replies(urls[i]))
  {
    assert urls[..i + 1][..i] == urls[..i];
  }

  /** After a batch no name is left in progress that was not before, `request_count` grew by at most
      one per URL, and no file disappeared. */
  lemma {:induction false} BatchEffects(b: Bookkeeping, outputDir: string, urls: seq<string>, replies: string -> Reply)
    ensures var r := Batch(b, outputDir, urls, replies);
            && r.inProgress == b.inProgress
            && b.requestCount <= r.requestCount <= b.requestCount + |urls|
            && b.files <= r.files
    decreases |urls|
  {
    if |urls| > 0 {
      var last := urls[|urls| - 1];
      BatchEffects(b, outputDir, urls[..|urls| - 1], replies);
      DownloadEffects(Batch(b, outputDir, urls[..|urls| - 1], replies), outputDir, last, replies(last));
    }
  }

  /** A URL listed twice in one batch whose first download was saved is skipped the second time:
      no second request is counted for it. */
  lemma SavedFileNotFetchedAgain(b: Bookkeeping, outputDir: string, url: string, replies: string -> Reply)
    requires Claims(b, outputDir, url) && replies(url) == Answered(200, true)
    ensures Batch(b, outputDir, [url, url], replies).requestCount == b.requestCount + 1
  {
    assert [url, url][..1] == [url];
    assert [url][..0] == [];
    var once := Fetched(b, outputDir, url, replies(url));
    assert Batch(b, outputDir, [url], replies) == once;
    DownloadEffects(b, outputDir, url, replies(url));
    assert Join(outputDir, FileName(url)) in once.files;
    assert Batch(b, outputDir, [url, url], replies) == Fetched(once, outputDir, url, replies(url));
  }

  /** How `download_with_retries` ends: `download_image` returned, every attempt raised an `Exception`,
      or an exception the loop does not catch escaped. */
  datatype RetriesEnd = Downloaded | GaveUp | Escaped

  /** One run of `download_with_retries`: how it ends, how many `download_image` calls it made and the
      lengths of its sleeps in seconds, in order. */
  datatype RetriesRun = RetriesRun(end: RetriesEnd, calls: nat, sleeps: seq<nat>)

  function Pow2(n: nat): (r: nat)
    ensures r >= 1
  {
    if n == 0 then 1 else 2 * Pow2(n - 1)
  }

  /** The loop `for attempt in range(retries)` from `attempt` on; `act(k)` says how attempt `k` ends.
      After every caught failure, the last one included, it sleeps `2 ** attempt` seconds. */
  function RetriesFrom(act: nat -> Attempt, attempt: nat, retries: int): RetriesRun
    decreases retries - attempt
  {
    if attempt >= retries then RetriesRun(GaveUp, 0, [])
    else match act(attempt)
      case Succeeds => RetriesRun(Downloaded, 1, [])
      case Cancelled => RetriesRun(Escaped, 1, [])
      case Fails =>
        var rest := RetriesFrom(act, attempt + 1, retries);
        RetriesRun(rest.end, rest.calls + 1, [Pow2(attempt)] + rest.sleeps)
  }

  /** `download_with_retries(client, url)` with `RETRIES` as `retries`. */
  method DownloadWithRetries(act: nat -> Attempt, retries: int) returns (end: RetriesEnd, calls: nat, sleeps: seq<nat>)
    ensures RetriesRun(end, calls, sleeps) == RetriesFrom(act, 0, retries)
  {
    calls, sleeps := 0, [];
    var attempt: nat := 0;
    while attempt < retries
      invariant calls == attempt
      invariant var rest := RetriesFrom(act, attempt, retries);
                RetriesFrom(act, 0, retries) == RetriesRun(rest.end, rest.calls + calls, sleeps + rest.sleeps)
      decreases retries - attempt
    {
      calls := calls + 1;
      var result := act(attempt);
      if result == Succeeds {
        return Downloaded, calls, sleeps;
      }
      if result == Cancelled {
        return Escaped, calls, sleeps;
      }
      assert [Pow2(attempt)] + RetriesFrom(act, attempt + 1, retries).sleeps == RetriesFrom(act, attempt, retries).sleeps;
      sleeps := sleeps + [Pow2(attempt)];
      attempt := attempt + 1;
    }
    assert sleeps + [] == sleeps;
    return GaveUp, calls, sleeps;
  }

  /** A `download_image` that returns is called once and nothing is slept. */
  lemma FirstReturnStops(act: nat -> Attempt, retries: int)
    requires retries >= 1 && act(0) == Succeeds
    ensures RetriesFrom(act, 0, retries) == RetriesRun(Downloaded, 1, [])
  {
  }

  /** With every attempt raising, the loop makes `retries` calls and sleeps after each of them, the
      last included, for 1, 2, 4, ... seconds. */
  lemma {:induction false} BackoffAfterEveryFailure(act: nat -> Attempt, attempt: nat, retries: int)
    requires forall k :: act(k) == Fails
    ensures var r := RetriesFrom(act, attempt, retries);
            && r.end == GaveUp
            && r.calls == (if attempt < retries then retries - attempt else 0)
            && |r.sleeps| == r.calls
            && forall i :: 0 <= i < |r.sleeps| ==> r.sleeps[i] == Pow2(attempt + i)
    decreases retries - attempt
  {
    if attempt < retries {
      BackoffAfterEveryFailure(act, attempt + 1, retries);
      var rest := RetriesFrom(act, attempt + 1, retries);
      var r := RetriesFrom(act, attempt, retries);
      assert r.sleeps == [Pow2(attempt)] + rest.sleeps;
      forall i | 0 <= i < |r.sleeps| ensures r.sleeps[i] == Pow2(attempt + i) {
        if i > 0 {
          assert r.sleeps[i] == rest.sleeps[i - 1];
        }
      }
    }
  }

  /** With `RETRIES` at most zero no call is made. */
  lemma NoAttempts(act: nat -> Attempt, retries: int)
    requires retries <= 0
    ensures RetriesFrom(act, 0, retries) == RetriesRun(GaveUp, 0, [])
  {
  }

  /** The loop never makes more than `retries` calls, and it sleeps once per call that raised. */
  lemma {:induction false} RetriesBounded(act: nat -> Attempt, attempt: nat, retries: int)
    ensures var r := RetriesFrom(act, attempt, retries);
            && (attempt < retries ==> r.calls <= retries - attempt)
            && (attempt >= retries ==> r.calls == 0)
            && |r.sleeps| == (if r.end == GaveUp then r.calls else r.calls - 1)
    decreases retries - attempt
  {
    if attempt < retries && act(attempt) == Fails {
      RetriesBounded(act, attempt + 1, retries);
    }
  }
}
