/** The second stand-alone downloader (downloader_service/downloader.py): an `ImageDownloader` object
    with its own `in_progress_downloads` set and `request_count`. Unlike the first downloader it
    catches only `aiohttp.ClientError`, `OSError` and `RuntimeError`; any other exception leaves the
    call after the `finally`. */
module ImageDownloaders {
  import opened Wrappers
  import opened Text
  import opened Paths
  import opened Replies
  import BatchDownloader

  /** `url.strip().split("/")[-1]`. */
  function ImageFileName(url: string): string
  {
    var pieces := Split(Strip(url), '/');
    pieces[|pieces| - 1]
  }

  /** The two downloaders name a URL's file alike, and the name holds no `/`. */
  lemma SameFileName(url: string)
    ensures ImageFileName(url) == BatchDownloader.FileName(url)
    ensures '/' !in ImageFileName(url)
  {
    BasenameIsLastSplitPiece(Strip(url));
  }

  /** Whether `download_image` goes on to the request: no final file and no download of the same name
      in progress. */
  predicate Claims(b: Bookkeeping, outputDir: string, url: string)
  {
    Join(outputDir, ImageFileName(url)) !in b.files && ImageFileName(url) !in b.inProgress
  }

  /** Whether an exception leaves the call: a failure outside the three caught classes. */
  predicate Escapes(reply: Reply)
  {
    reply.Failed? && reply.failure == OtherFailure
  }

  /** The bookkeeping after one call, and whether an exception left it. */
  datatype Called = Called(after: Bookkeeping, raised: bool)

  /** `download_image(client, url)`: the two early returns, then the claim, the 200-only count and the
      final file, and the `finally` that discards the name on every path, the escaping one included. */
  function Download(b: Bookkeeping, outputDir: string, url: string, reply: Reply): Called
  {
    var name := ImageFileName(url);
    var finalPath := Join(outputDir, name);
    if finalPath in b.files || name in b.inProgress then Called(b, false)
    else
      var claimed := b.inProgress + {name};
      var after :=
        if reply.Answered? && reply.status == 200 then
          Bookkeeping(if reply.saved then b.files + {finalPath} else b.files, claimed, b.requestCount + 1)
        else b.(inProgress := claimed);
      Called(after.(inProgress := after.inProgress - {name}), Escapes(reply))
  }

  /** An existing final file or a name in progress returns at once: nothing changes, nothing is raised. */
  lemma SkipsUnclaimed(b: Bookkeeping, outputDir: string, url: string, reply: Reply)
    requires !Claims(b, outputDir, url)
    ensures Download(b, outputDir, url, reply) == Called(b, false)
  {
  }

  /** What a call does: the in-progress set is as before, so a claimed name is discarded on every path;
      `request_count` grows by one exactly for a claimed 200 answer; only the final file can appear; and
      an exception leaves the call exactly when the request raised something other than a client, OS or
      runtime error. */
  lemma DownloadEffects(b: Bookkeeping, outputDir: string, url: string, reply: Reply)
    ensures var c := Download(b, outputDir, url, reply);
            var finalPath := Join(outputDir, ImageFileName(url));
            && c.after.inProgress == b.inProgress
            && (Claims(b, outputDir, url) ==> ImageFileName(url) !in c.after.inProgress)
            && c.after.requestCount == b.requestCount + (if Claims(b, outputDir, url) && reply.Answered? && reply.status == 200 then 1 else 0)
            && c.after.files - {finalPath} == b.files - {finalPath}
            && (finalPath in c.after.files <==> finalPath in b.files || (Claims(b, outputDir, url) && reply == Answered(200, true)))
            && (c.raised <==> Claims(b, outputDir, url) && Escapes(reply))
  {
    var name := ImageFileName(url);
    if Claims(b, outputDir, url) {
      assert b.inProgress + {name} - {name} == b.inProgress;
    }
  }

  /** Apart from which exceptions escape, the two downloaders keep their books alike: both skip, claim,
      count and discard in the same way. */
  lemma AgreesWithBatchDownloader(b: Bookkeeping, outputDir: string, url: string, reply: Reply)
    ensures Download(b, outputDir, url, reply).after == BatchDownloader.Fetched(b, outputDir, url, reply)
    ensures !Escapes(reply) ==> !Download(b, outputDir, url, reply).raised
  {
    SameFileName(url);
  }

  /** The books after a sequence of calls, each with its server answer. */
  function Calls(b: Bookkeeping, outputDir: string, calls: seq<(string, Reply)>): Bookkeeping
  {
    if |calls| == 0 then b
    else
      var last := calls[|calls| - 1];
      Download(Calls(b, outputDir, calls[..|calls| - 1]), outputDir, last.0, last.1).after
  }

  /** The number of calls answered with status 200. */
  function Oks(calls: seq<(string, Reply)>): nat
  {
    if |calls| == 0 then 0
    else
      var last := calls[|calls| - 1];
      Oks(calls[..|calls| - 1]) + (if last.1.Answered? && last.1.status == 200 then 1 else 0)
  }

  /** Over any sequence of calls `request_count` grows by at most the number of 200 answers, and the
      in-progress set ends as it started. */
  lemma {:induction false} RequestCountCountsOks(b: Bookkeeping, outputDir: string, calls: seq<(string, Reply)>)
    ensures var r := Calls(b, outputDir, calls);
            && b.requestCount <= r.requestCount <= b.requestCount + Oks(calls)
            && Oks(calls) <= |calls|
            && r.inProgress == b.inProgress
    decreases |calls|
  {
    if |calls| > 0 {
      var last := calls[|calls| - 1];
      RequestCountCountsOks(b, outputDir, calls[..|calls| - 1]);
      DownloadEffects(Calls(b, outputDir, calls[..|calls| - 1]), outputDir, last.0, last.1);
    }
  }

  /** Starting from a fresh downloader, calls whose file names are all different and that find no file
      already present each count their 200 answer: `get_request_count` is then exactly the number of
      200 answers. */
  lemma {:induction false} DistinctNamesCountEveryOk(outputDir: string, files: set<string>, calls: seq<(string, Reply)>)
    requires forall i, j :: 0 <= i < j < |calls| ==> ImageFileName(calls[i].0) != ImageFileName(calls[j].0)
    requires forall i :: 0 <= i < |calls| ==> Join(outputDir, ImageFileName(calls[i].0)) !in files
    ensures Calls(Bookkeeping(files, {}, 0), outputDir, calls).requestCount == Oks(calls)
    ensures Calls(Bookkeeping(files, {}, 0), outputDir, calls).files <= files + set i | 0 <= i < |calls| :: Join(outputDir, ImageFileName(calls[i].0))
    decreases |calls|
  {
    if |calls| > 0 {
      var init := calls[..|calls| - 1];
      var last := calls[|calls| - 1];
      DistinctNamesCountEveryOk(outputDir, files, init);
      var before := Calls(Bookkeeping(files, {}, 0), outputDir, init);
      RequestCountCountsOks(Bookkeeping(files, {}, 0), outputDir, init);
      var lastPath := Join(outputDir, ImageFileName(last.0));
      assert lastPath !in before.files by {
        forall i | 0 <= i < |init| ensures lastPath != Join(outputDir, ImageFileName(init[i].0)) {
          assert init[i] == calls[i];
          SameFileName(init[i].0);
          SameFileName(last.0);
          JoinInjective(outputDir, ImageFileName(init[i].0), ImageFileName(last.0));
        }
      }
      DownloadEffects(before, outputDir, last.0, last.1);
    }
  }

  /** Joining one directory with two different slash-free names gives two different paths. */
  lemma JoinInjective(dir: string, a: string, b: string)
    requires '/' !in a && '/' !in b && a != b
    ensures Join(dir, a) != Join(dir, b)
  {
    var p := if dir == "" || dir[|dir| - 1] == '/' then dir else dir + "/";
    assert !StartsWith(a, "/") && !StartsWith(b, "/") by {
      if |a| >= 1 { assert a[0] in a; }
      if |b| >= 1 { assert b[0] in b; }
    }
    assert Join(dir, a) == p + a && Join(dir, b) == p + b;
    assert (p + a)[|p|..] == a && (p + b)[|p|..] == b;
  }

  /** The `ImageDownloader` object and the files in its output directory. */
  class ImageDownloader {
    var files: set<string>
    var inProgress: set<string>
    var requestCount: nat
    const outputDir: string
    const tempDir: string

    /** `ImageDownloader(config)`: the counter starts at 0 and nothing is in progress. */
    constructor (outputDir: string, tempDir: string, files: set<string>)
      ensures this.outputDir == outputDir && this.tempDir == tempDir && this.files == files
      ensures inProgress == {} && requestCount == 0
    {
      this.outputDir := outputDir;
      this.tempDir := tempDir;
      this.files := files;
      inProgress := {};
      requestCount := 0;
    }

    function State(): Bookkeeping
      reads this
    {
      Bookkeeping(files, inProgress, requestCount)
    }

    /** `download_image(client, url)`. `raised` says whether an exception left the call; `requested` is
        the URL handed to `client.get`, which is the URL as given, not stripped. */
    method DownloadImage(url: string, reply: Reply) returns (raised: bool, requested: Option<string>)
      modifies this
      ensures var c := Download(old(State()), outputDir, url, reply);
              State() == c.after && raised == c.raised
      ensures requested == (if Claims(old(State()), outputDir, url) then Some(url) else None)
    {
      var name := ImageFileName(url);
      var finalPath := Join(outputDir, name);
      if finalPath in files {
        return false, None;
      }
      if name in inProgress {
        return false, None;
      }
      inProgress := inProgress + {name};
      requested := Some(url);
      raised := false;
      match reply {
        case Answered(status, saved) =>
          if status == 200 {
            requestCount := requestCount + 1;
            if saved {
              files := files + {finalPath};
            }
          }
        case Failed(failure) =>
          raised := failure == OtherFailure;
      }
      inProgress := inProgress - {name};
    }

    /** `get_request_count()`. */
    method GetRequestCount() returns (n: nat)
      ensures n == requestCount
    {
      return requestCount;
    }
  }
}
