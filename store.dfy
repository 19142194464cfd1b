/** The shared Redis store as the services use it: a map from keys to string values, with three key
    namespaces per URL: `downloaded:<url>` (value: the local file path), `not_found:<url>` (value:
    `"true"`) and `lock:<url>` (value: `"in_progress"`). */
module SharedStore {
  import opened Seqs

  type Store = map<string, string>

  const DownloadedPrefix: string := "downloaded:"
  const NotFoundPrefix: string := "not_found:"
  const LockPrefix: string := "lock:"

  /** The value a not-found marker holds. */
  const NotFoundValue: string := "true"

  /** The value a held lock holds. */
  const LockValue: string := "in_progress"

  function DownloadedKey(url: string): string { DownloadedPrefix + url }
  function NotFoundKey(url: string): string { NotFoundPrefix + url }
  function LockKey(url: string): string { LockPrefix + url }

  /** `EXISTS key` for one key: 1 when present, 0 otherwise. */
  function ExistsCount(d: Store, key: string): (n: int)
    ensures n == 0 || n == 1
    ensures n == 1 <==> key in d
  {
    if key in d then 1 else 0
  }

  /** `is_url_downloaded`: `EXISTS downloaded:<url>` answered 1. */
  predicate IsDownloaded(d: Store, url: string) { ExistsCount(d, DownloadedKey(url)) == 1 }

  /** `is_url_marked_as_not_found`: `EXISTS not_found:<url>` answered 1. */
  predicate IsNotFound(d: Store, url: string) { ExistsCount(d, NotFoundKey(url)) == 1 }

  /** `cache_url_as_downloaded`: `SET downloaded:<url> <path>`. */
  function MarkDownloaded(d: Store, url: string, path: string): Store { d[DownloadedKey(url) := path] }

  /** `cache_url_as_not_found`: `SET not_found:<url> true`. */
  function MarkNotFound(d: Store, url: string): Store { d[NotFoundKey(url) := NotFoundValue] }

  /** `acquire_download_lock`: `SET lock:<url> in_progress NX EX ttl`, which answers `None` (not acquired)
      when the key exists and otherwise sets it. The expiry is not modelled. */
  function TryLock(d: Store, url: string): (Store, bool)
  {
    if LockKey(url) in d then (d, false) else (d[LockKey(url) := LockValue], true)
  }

  /** `release_download_lock`: `DEL lock:<url>`, whoever holds it. */
  function Unlock(d: Store, url: string): Store { d - {LockKey(url)} }

  /** Whether a URL has neither marker: the URLs `check_urls_batch` keeps. */
  predicate IsNew(d: Store, url: string) { !IsDownloaded(d, url) && !IsNotFound(d, url) }

  /** The result of `check_urls_batch`: the URLs with neither marker, in input order, duplicates kept. */
  function Unprocessed(d: Store, urls: seq<string>): seq<string>
  {
    Filter(u => IsNew(d, u), urls)
  }

  /** The keys `prefix + url` for each URL, in order: the commands queued on one pipeline. */
  function Keys(prefix: string, urls: seq<string>): (keys: seq<string>)
    ensures |keys| == |urls|
    ensures forall i :: 0 <= i < |urls| ==> keys[i] == prefix + urls[i]
  {
    if |urls| == 0 then [] else Keys(prefix, urls[..|urls| - 1]) + [prefix + urls[|urls| - 1]]
  }

  /** Two keys with different prefixes of the same length differ. */
  lemma PrefixesSeparate(p: string, q: string, u: string, v: string, k: nat)
    requires k < |p| && k < |q| && p[k] != q[k]
    ensures p + u != q + v
  {
    assert (p + u)[k] == p[k];
    assert (q + v)[k] == q[k];
  }

  /** A key determines the URL it was made from. */
  lemma PrefixInjective(p: string, u: string, v: string)
    requires p + u == p + v
    ensures u == v
  {
    assert u == (p + u)[|p|..];
    assert v == (p + v)[|p|..];
  }

  /** The three namespaces are disjoint, and within each a key names exactly one URL. */
  lemma NamespacesDisjoint(u: string, v: string)
    ensures DownloadedKey(u) != NotFoundKey(v)
    ensures DownloadedKey(u) != LockKey(v)
    ensures NotFoundKey(u) != LockKey(v)
    ensures DownloadedKey(u) == DownloadedKey(v) ==> u == v
    ensures NotFoundKey(u) == NotFoundKey(v) ==> u == v
    ensures LockKey(u) == LockKey(v) ==> u == v
  {
    PrefixesSeparate(DownloadedPrefix, NotFoundPrefix, u, v, 0);
    PrefixesSeparate(DownloadedPrefix, LockPrefix, u, v, 0);
    PrefixesSeparate(NotFoundPrefix, LockPrefix, u, v, 0);
    if DownloadedKey(u) == DownloadedKey(v) { PrefixInjective(DownloadedPrefix, u, v); }
    if NotFoundKey(u) == NotFoundKey(v) { PrefixInjective(NotFoundPrefix, u, v); }
    if LockKey(u) == LockKey(v) { PrefixInjective(LockPrefix, u, v); }
  }

  /** After `cache_url_as_downloaded(u, p)`, `is_url_downloaded(u)` holds and the stored value is `p`;
      every other URL's downloaded marker and every not-found marker answer as before. */
  lemma MarkDownloadedThenQuery(d: Store, u: string, p: string, v: string)
    ensures var d' := MarkDownloaded(d, u, p);
            && IsDownloaded(d', u) && d'[DownloadedKey(u)] == p
            && (v != u ==> IsDownloaded(d', v) == IsDownloaded(d, v))
            && IsNotFound(d', v) == IsNotFound(d, v)
            && (LockKey(v) in d' <==> LockKey(v) in d)
  {
    NamespacesDisjoint(u, v);
    NamespacesDisjoint(v, u);
  }

  /** After `cache_url_as_not_found(u)`, `is_url_marked_as_not_found(u)` holds; other markers answer as
      before. */
  lemma MarkNotFoundThenQuery(d: Store, u: string, v: string)
    ensures var d' := MarkNotFound(d, u);
            && IsNotFound(d', u)
            && (v != u ==> IsNotFound(d', v) == IsNotFound(d, v))
            && IsDownloaded(d', v) == IsDownloaded(d, v)
            && (LockKey(v) in d' <==> LockKey(v) in d)
  {
    NamespacesDisjoint(u, v);
    NamespacesDisjoint(v, u);
  }

  /** The lock is acquired iff `lock:<url>` was absent; afterwards the key is present either way, so a
      second attempt fails until a release. */
  lemma TryLockSemantics(d: Store, url: string)
    ensures var (d', acquired) := TryLock(d, url);
            && (acquired <==> LockKey(url) !in d)
            && LockKey(url) in d'
            && !TryLock(d', url).1
            && (acquired ==> d'[LockKey(url)] == LockValue)
            && (!acquired ==> d' == d)
  {
  }

  /** A release deletes the lock whatever it held, so the next acquisition succeeds. */
  lemma UnlockThenLock(d: Store, url: string)
    ensures LockKey(url) !in Unlock(d, url)
    ensures TryLock(Unlock(d, url), url).1
  {
  }

  /** Lock operations never change what any marker check answers. */
  lemma LocksKeepMarkers(d: Store, u: string, v: string)
    ensures IsDownloaded(TryLock(d, u).0, v) == IsDownloaded(d, v)
    ensures IsNotFound(TryLock(d, u).0, v) == IsNotFound(d, v)
    ensures IsDownloaded(Unlock(d, u), v) == IsDownloaded(d, v)
    ensures IsNotFound(Unlock(d, u), v) == IsNotFound(d, v)
  {
    NamespacesDisjoint(v, u);
  }

  /** The result holds exactly the URLs of the input that have neither marker. */
  lemma UnprocessedMembers(d: Store, urls: seq<string>, u: string)
    ensures u in Unprocessed(d, urls) <==> u in urls && IsNew(d, u)
  {
    FilterMembers(u => IsNew(d, u), urls, u);
  }

  /** Duplicates are kept: a new URL appears in the result as often as in the input. */
  lemma UnprocessedKeepsDuplicates(d: Store, urls: seq<string>, u: string)
    ensures multiset(Unprocessed(d, urls))[u] == if IsNew(d, u) then multiset(urls)[u] else 0
  {
    FilterMultiplicity(u => IsNew(d, u), urls, u);
  }

  /** With no markers present the batch comes back unchanged. */
  lemma UnprocessedWithoutMarkers(d: Store, urls: seq<string>)
    requires forall i :: 0 <= i < |urls| ==> IsNew(d, urls[i])
    ensures Unprocessed(d, urls) == urls
  {
    FilterKeepsAll(u => IsNew(d, u), urls);
  }

  /** The batch check can be applied chunk by chunk: it distributes over concatenation. */
  lemma UnprocessedConcat(d: Store, a: seq<string>, b: seq<string>)
    ensures Unprocessed(d, a + b) == Unprocessed(d, a) + Unprocessed(d, b)
  {
    FilterConcat(u => IsNew(d, u), a, b);
  }

  /** One more URL of the batch: kept at the end exactly when it is new. */
  lemma UnprocessedSnoc(d: Store, urls: seq<string>, i: nat)
    requires i < |urls|
    ensures Unprocessed(d, urls[..i + 1]) == Unprocessed(d, urls[..i]) + (if IsNew(d, urls[i]) then [urls[i]] else [])
  {
    TakeSnoc(urls, i);
    UnprocessedConcat(d, urls[..i], [urls[i]]);
    FilterSingleton(u => IsNew(d, u), urls[i]);
  }

  /** One more URL queued on a pipeline. */
  lemma KeysSnoc(prefix: string, urls: seq<string>, i: nat)
    requires i < |urls|
    ensures Keys(prefix, urls[..i + 1]) == Keys(prefix, urls[..i]) + [prefix + urls[i]]
  {
    PrefixOfAppend(urls[..i], [urls[i]]);
    TakeSnoc(urls, i);
  }

  /** The Redis client's test: with `b` downloaded and `c` not found, `["a", "b", "c"]` gives `["a"]`. */
  lemma BatchExample(d: Store)
    requires !IsDownloaded(d, "a") && !IsNotFound(d, "a")
    requires IsDownloaded(d, "b") && IsNotFound(d, "c")
    ensures Unprocessed(d, ["a", "b", "c"]) == ["a"]
  {
    var p := u => IsNew(d, u);
    var s := ["a", "b", "c"];
    assert s[..2] == ["a", "b"] && s[..2][..1] == ["a"] && s[..2][..1][..0] == [];
    assert !p("b") && !p("c") && p("a");
    assert Filter(p, ["a"]) == ["a"];
    assert Filter(p, ["a", "b"]) == ["a"];
    assert Filter(p, s) == ["a"];
  }
}
