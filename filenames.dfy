/** The name and location a downloaded image is stored under: the SHA-256 hex digest of its URL followed by
    the extension of the URL's path, or `.jpg` when the path has none. SHA-256 itself is a parameter: a
    `digest` function from strings to strings; where a property needs the digest to look like SHA-256's
    output (64 lower-case hex digits) that is a precondition. */
module Filenames {
  import opened Text
  import opened Paths

  /** `settings.IMAGE_STORAGE_PATH`, the directory images are written to. */
  const ImageStoragePath: string := "/app/images"

  /** The extension used when the URL's path has none. */
  const DefaultExtension: string := ".jpg"

  predicate IsHexDigit(c: char) { '0' <= c <= '9' || 'a' <= c <= 'f' }

  /** What `hashlib.sha256(...).hexdigest()` returns: 64 lower-case hexadecimal digits. */
  predicate IsHexDigest(h: string) { |h| == 64 && forall i :: 0 <= i < |h| ==> IsHexDigit(h[i]) }

  /** The URL with its query string cut off: `url.split("?")[0]`. */
  function WithoutQuery(url: string): (p: string)
    ensures '?' !in p
    ensures |p| <= |url| && url[..|p|] == p
  {
    SplitFirstPiece(url, '?');
    SplitPiecesAreSeparatorFree(url, '?', 0);
    Split(url, '?')[0]
  }

  /** `os.path.splitext(url.split("?")[0])[1] or ".jpg"`: never empty, always a dot followed by
      characters that are neither dots, slashes nor question marks. */
  function FileExtension(url: string): (e: string)
    ensures |e| >= 1 && e[0] == '.'
    ensures forall i :: 1 <= i < |e| ==> e[i] != '.' && e[i] != '/' && e[i] != '?'
    ensures e == DefaultExtension || (|e| < |WithoutQuery(url)| && WithoutQuery(url)[|WithoutQuery(url)| - |e|..] == e)
  {
    var p := WithoutQuery(url);
    var ext := Extension(p);
    ExtensionShape(p);
    if ext == "" then DefaultExtension
    else
      assert forall i :: 1 <= i < |ext| ==> ext[i] == p[|p| - |ext| + i];
      ext
  }

  /** `generate_filename(url)`: the URL's digest followed by its file extension. */
  function GenerateFilename(digest: string -> string, url: string): string
  {
    digest(url) + FileExtension(url)
  }

  /** The legacy `generate_filename(url, response)`: the response argument is accepted and ignored. */
  function LegacyGenerateFilename<R>(digest: string -> string, url: string, response: R): string
  {
    digest(url) + FileExtension(url)
  }

  /** The path the new service writes to and returns: `os.path.join(IMAGE_STORAGE_PATH, filename)`. */
  function LocalPath(digest: string -> string, url: string): string
  {
    Join(ImageStoragePath, GenerateFilename(digest, url))
  }

  /** With a SHA-256-shaped digest the name is 64 hex digits, a dot and the extension; everything
      before the first dot is the digest, so splitting at dots gives a 64-character first piece. */
  lemma FilenameShape(digest: string -> string, url: string)
    requires IsHexDigest(digest(url))
    ensures var name := GenerateFilename(digest, url);
            && |name| > 64 && name[..64] == digest(url) && name[64] == '.'
            && name[65..] == FileExtension(url)[1..]
            && Split(name, '.')[0] == digest(url)
  {
    var name := GenerateFilename(digest, url);
    var h := digest(url);
    assert name[..64] == h;
    assert forall i :: 0 <= i < 64 ==> name[i] == h[i] && name[i] != '.';
    FindAt(name, '.', 64);
    SplitFirstPiece(name, '.');
  }

  /** The legacy and the new service name a file alike, whatever the response. */
  lemma LegacyFilenameAgrees<R>(digest: string -> string, url: string, response: R)
    ensures LegacyGenerateFilename(digest, url, response) == GenerateFilename(digest, url)
  {
  }

  /** Files live directly in the storage directory: `/app/images/` followed by the file name. */
  lemma LocalPathInStorage(digest: string -> string, url: string)
    requires IsHexDigest(digest(url))
    ensures LocalPath(digest, url) == ImageStoragePath + "/" + GenerateFilename(digest, url)
  {
    var name := GenerateFilename(digest, url);
    FilenameShape(digest, url);
    assert name[0] == digest(url)[0];
    JoinRelative(ImageStoragePath, name);
  }

  /** A query string never contributes to the extension. */
  lemma QueryIgnored(path: string, query: string)
    requires '?' !in path
    ensures FileExtension(path + "?" + query) == FileExtension(path)
  {
    var url := path + "?" + query;
    FindAt(url, '?', |path|);
    SplitFirstPiece(url, '?');
    assert WithoutQuery(url) == path;
    FindAbsent(path, '?');
    SplitFirstPiece(path, '?');
    assert WithoutQuery(path) == path;
  }

  /** A last path component with a dot at `k`, no later dot and a character other than a dot before `k`
      gives the extension that starts at that dot. */
  lemma ExtensionOfName(dir: string, file: string, k: nat)
    requires '?' !in dir
    requires forall i :: 0 <= i < |file| ==> file[i] != '/' && file[i] != '?'
    requires k < |file| && file[k] == '.'
    requires forall i :: k < i < |file| ==> file[i] != '.'
    requires exists i :: 0 <= i < k && file[i] != '.'
    ensures FileExtension(dir + "/" + file) == file[k..]
  {
    var p := dir + "/" + file;
    var sep := |dir|;
    var dot := |dir| + 1 + k;
    assert forall i :: 0 <= i < |p| ==> p[i] != '?';
    FindAbsent(p, '?');
    SplitFirstPiece(p, '?');
    assert WithoutQuery(p) == p;
    assert forall i :: sep < i < |p| ==> p[i] == file[i - sep - 1];
    RFindIsLast(p, '.', dot);
    RFindIsLast(p, '/', sep);
    var j :| 0 <= j < k && file[j] != '.';
    assert p[sep + 1 + j] == file[j];
    assert HasNonDot(p, sep + 1, dot);
    assert p[dot..] == file[k..];
  }

  /** A last path component without a dot gives the default `.jpg`. */
  lemma DefaultWithoutDot(dir: string, stem: string)
    requires '?' !in dir
    requires forall i :: 0 <= i < |stem| ==> stem[i] != '/' && stem[i] != '?' && stem[i] != '.'
    ensures FileExtension(dir + "/" + stem) == DefaultExtension
  {
    var p := dir + "/" + stem;
    assert forall i :: 0 <= i < |p| ==> p[i] != '?';
    FindAbsent(p, '?');
    SplitFirstPiece(p, '?');
    assert WithoutQuery(p) == p;
    RFindIsLast(p, '/', |dir|);
    assert forall i :: |dir| < i < |p| ==> p[i] == stem[i - |dir| - 1];
    assert RFind(p, '.') <= |dir|;
  }

  /** The file name of the services' tests: below any host, `img.png` keeps `.png`. */
  lemma PngExample(host: string)
    requires '?' !in host
    ensures FileExtension(host + "/" + "img.png") == ".png"
  {
    var img := "img.png";
    assert img[0] != '.';
    ExtensionOfName(host, img, 3);
  }

  /** A URL with no path takes the host's last label as its extension: `http://example.com` is stored
      as `<digest>.com`. */
  lemma HostLabelBecomesExtension(scheme: string, host: string, k: nat)
    requires '?' !in scheme
    requires forall i :: 0 <= i < |host| ==> host[i] != '/' && host[i] != '?'
    requires 0 < k < |host| && host[k] == '.' && host[0] != '.'
    requires forall i :: k < i < |host| ==> host[i] != '.'
    ensures FileExtension(scheme + "://" + host) == host[k..]
  {
    assert scheme + "://" + host == (scheme + ":/") + "/" + host;
    ExtensionOfName(scheme + ":/", host, k);
  }
}
