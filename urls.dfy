/** The part of Python's `urllib.parse.urlparse` the downloader relies on: the scheme and the network
    location (authority), in the sense of sections 3.1 and 3.2 of RFC 3986, plus `is_valid_url`. */
module Urls {
  import opened Wrappers
  import opened Text

  predicate IsAsciiAlpha(c: char) { 'a' <= c <= 'z' || 'A' <= c <= 'Z' }

  /** The characters `urllib.parse` accepts in a scheme: letters, digits, `+`, `-` and `.`. */
  predicate IsSchemeChar(c: char) { IsAsciiAlpha(c) || '0' <= c <= '9' || c == '+' || c == '-' || c == '.' }

  /** The scheme and the components `urlparse` reports; only these two are modelled. */
  datatype ParsedUrl = ParsedUrl(scheme: string, netloc: string)

  /** The characters that end a network location: the start of a path, query or fragment. */
  predicate EndsNetloc(c: char) { c == '/' || c == '?' || c == '#' }

  /** The length of the network location at the start of `s`: up to the first `/`, `?` or `#`. */
  function NetlocLength(s: string): (r: nat)
    ensures r <= |s|
    ensures r < |s| ==> EndsNetloc(s[r])
    ensures forall i :: 0 <= i < r ==> !EndsNetloc(s[i])
  {
    if |s| == 0 || EndsNetloc(s[0]) then 0 else 1 + NetlocLength(s[1..])
  }

  /** The delimiter-free prefix ending at the first delimiter has the length `NetlocLength` reports. */
  lemma {:induction false} NetlocLengthIs(s: string, n: nat)
    requires n <= |s|
    requires forall i :: 0 <= i < n ==> !EndsNetloc(s[i])
    requires n < |s| ==> EndsNetloc(s[n])
    ensures NetlocLength(s) == n
    decreases n
  {
    if n > 0 {
      assert forall i :: 0 <= i < n - 1 ==> s[1..][i] == s[i + 1];
      NetlocLengthIs(s[1..], n - 1);
    }
  }

  /** Whether `s` holds one square bracket without the other, which `urlparse` refuses. */
  predicate UnbalancedBrackets(s: string) { ('[' in s) != (']' in s) }

  /** Whether `s` starts with a scheme followed by `:` at index `i`. */
  predicate HasSchemeAt(s: string, i: int)
  {
    0 < i < |s| && s[i] == ':' && IsAsciiAlpha(s[0]) && forall k :: 0 <= k < i ==> IsSchemeChar(s[k])
  }

  /** The scheme (lower-cased) and the text after its colon; an empty scheme and the whole string
      when the text before the first colon is not a scheme. */
  function SplitScheme(url: string): (string, string)
  {
    var i := Find(url, ':');
    if HasSchemeAt(url, i) then (Lower(url[..i]), url[i + 1..]) else ("", url)
  }

  /** `urlparse(url)`, reduced to scheme and netloc. `None` stands for the `ValueError` ("Invalid IPv6
      URL") it raises when the netloc holds one square bracket without its partner. */
  function UrlParse(url: string): Option<ParsedUrl>
  {
    var (scheme, rest) := SplitScheme(url);
    if StartsWith(rest, "//") then
      var netloc := rest[2..2 + NetlocLength(rest[2..])];
      if UnbalancedBrackets(netloc) then None else Some(ParsedUrl(scheme, netloc))
    else Some(ParsedUrl(scheme, ""))
  }

  /** `DownloaderService.is_valid_url`: the scheme is http or https and the netloc is not empty.
      `None` when parsing raises. */
  function IsValidUrl(url: string): Option<bool>
  {
    match UrlParse(url)
    case None => None
    case Some(p) => Some(p.scheme in {"http", "https"} && p.netloc != "")
  }

  /** Lower-casing leaves a string of lower-case letters unchanged. */
  lemma LowerOfLower(s: string)
    requires forall i :: 0 <= i < |s| ==> 'a' <= s[i] <= 'z'
    ensures Lower(s) == s
  {
  }

  /** What acceptance implies about the parts `SplitScheme` produces. */
  lemma AcceptedParts(url: string)
    requires IsValidUrl(url) == Some(true)
    ensures var (scheme, rest) := SplitScheme(url);
            && scheme in {"http", "https"}
            && StartsWith(rest, "//")
            && NetlocLength(rest[2..]) > 0
            && rest[0] == '/' && rest[1] == '/'
  {
    var rest := SplitScheme(url).1;
    assert rest[..2] == "//";
    assert rest[0] == rest[..2][0];
    assert rest[1] == rest[..2][1];
  }

  /** What acceptance implies: the text before the first colon is `http` or `https` in any letter case,
      the colon is followed by `//`, and at least one character follows that is none of `/`, `?`, `#`. */
  lemma ValidUrlShape(url: string)
    requires IsValidUrl(url) == Some(true)
    ensures var i := Find(url, ':');
            && HasSchemeAt(url, i)
            && Lower(url[..i]) in {"http", "https"}
            && i + 3 < |url| && url[i + 1..i + 3] == "//"
            && !EndsNetloc(url[i + 3])
  {
    var i := Find(url, ':');
    AcceptedParts(url);
    var scheme := SplitScheme(url).0;
    var rest := SplitScheme(url).1;
    assert scheme != "";
    assert HasSchemeAt(url, i);
    assert scheme == Lower(url[..i]);
    assert rest == url[i + 1..];
    assert !EndsNetloc(rest[2]) by { assert rest[2] == rest[2..][0]; }
    SlashesAfter(url, i, rest);
  }

  lemma SlashesAfter(url: string, i: int, rest: string)
    requires 0 <= i < |url| && rest == url[i + 1..]
    requires |rest| > 2 && rest[0] == '/' && rest[1] == '/' && !EndsNetloc(rest[2])
    ensures i + 3 < |url| && url[i + 1..i + 3] == "//" && !EndsNetloc(url[i + 3])
  {
    assert url[i + 1..i + 3] == rest[..2];
  }

  /** The netloc of `//host tail` is `host` when `host` holds no delimiter and `tail` starts with one. */
  lemma NetlocOfParts(rest: string, host: string, tail: string)
    requires rest == "//" + host + tail
    requires forall i :: 0 <= i < |host| ==> !EndsNetloc(host[i])
    requires tail == "" || EndsNetloc(tail[0])
    ensures rest[2..2 + NetlocLength(rest[2..])] == host
  {
    var after := rest[2..];
    assert after == host + tail;
    assert forall i :: 0 <= i < |host| ==> after[i] == host[i];
    assert |host| < |after| ==> after[|host|] == tail[0];
    NetlocLengthIs(after, |host|);
    assert after[..|host|] == host;
  }

  /** A lower-case scheme and its colon split off the text after the colon. */
  lemma SchemeOfParts(scheme: string, rest: string)
    requires |scheme| > 0 && forall i :: 0 <= i < |scheme| ==> 'a' <= scheme[i] <= 'z'
    ensures SplitScheme(scheme + ":" + rest) == (scheme, rest)
  {
    var url := scheme + ":" + rest;
    var n := |scheme|;
    FindAt(url, ':', n);
    assert HasSchemeAt(url, n);
    assert url[..n] == scheme;
    assert url[n + 1..] == rest;
    LowerOfLower(scheme);
  }

  /** `urlparse` on a string whose scheme part is known and whose authority is a host free of
      delimiters and brackets. */
  lemma ParseWithHost(url: string, scheme: string, host: string, tail: string)
    requires SplitScheme(url) == (scheme, "//" + host + tail)
    requires forall i :: 0 <= i < |host| ==> !EndsNetloc(host[i]) && host[i] != '[' && host[i] != ']'
    requires tail == "" || EndsNetloc(tail[0])
    ensures UrlParse(url) == Some(ParsedUrl(scheme, host))
  {
    var rest := "//" + host + tail;
    assert StartsWith(rest, "//");
    NetlocOfParts(rest, host, tail);
    assert !UnbalancedBrackets(host);
  }

  /** What suffices for acceptance: an http or https scheme, `://`, a non-empty host free of `/`, `?`,
      `#` and brackets, then nothing or a path, query or fragment. */
  lemma ValidUrlFromParts(scheme: string, host: string, tail: string)
    requires scheme == "http" || scheme == "https"
    requires host != "" && forall i :: 0 <= i < |host| ==> !EndsNetloc(host[i]) && host[i] != '[' && host[i] != ']'
    requires tail == "" || EndsNetloc(tail[0])
    ensures IsValidUrl(scheme + "://" + host + tail) == Some(true)
  {
    var rest := "//" + host + tail;
    var url := scheme + ":" + rest;
    assert url == scheme + "://" + host + tail;
    SchemeOfParts(scheme, rest);
    ParseWithHost(url, scheme, host, tail);
  }

  /** A lower-case scheme other than http or https, `://` and a host free of delimiters and brackets
      is rejected. */
  lemma OtherSchemeFromParts(scheme: string, host: string, tail: string)
    requires |scheme| > 0 && forall i :: 0 <= i < |scheme| ==> 'a' <= scheme[i] <= 'z'
    requires scheme != "http" && scheme != "https"
    requires forall i :: 0 <= i < |host| ==> !EndsNetloc(host[i]) && host[i] != '[' && host[i] != ']'
    requires tail == "" || EndsNetloc(tail[0])
    ensures IsValidUrl(scheme + "://" + host + tail) == Some(false)
  {
    var rest := "//" + host + tail;
    var url := scheme + ":" + rest;
    assert url == scheme + "://" + host + tail;
    SchemeOfParts(scheme, rest);
    ParseWithHost(url, scheme, host, tail);
  }

  /** A scheme other than http or https is rejected whatever follows it. */
  lemma OtherSchemeRejected(url: string, scheme: string, host: string, tail: string)
    requires scheme != "http" && scheme != "https"
    requires SplitScheme(url) == (scheme, "//" + host + tail)
    requires forall i :: 0 <= i < |host| ==> !EndsNetloc(host[i]) && host[i] != '[' && host[i] != ']'
    requires tail == "" || EndsNetloc(tail[0])
    ensures IsValidUrl(url) == Some(false)
  {
    ParseWithHost(url, scheme, host, tail);
  }

  /** `ftp://example.com` has a scheme, but not one the downloader accepts. */
  lemma FtpRejected()
    ensures IsValidUrl("ftp://example.com") == Some(false)
  {
    var url := "ftp://example.com";
    assert url == "ftp" + "://" + "example.com" + "";
    assert |"ftp"| == 3;
    OtherSchemeFromParts("ftp", "example.com", "");
  }

  /** A string with neither a colon nor a leading `//` has no scheme and is rejected. */
  lemma NoColonRejected(url: string)
    requires ':' !in url
    requires !StartsWith(url, "//")
    ensures IsValidUrl(url) == Some(false)
  {
    FindAbsent(url, ':');
    assert SplitScheme(url) == ("", url);
  }

  /** The accepted example of the downloader's tests. */
  lemma HttpExampleAccepted()
    ensures IsValidUrl("http://example.com") == Some(true)
  {
    var url := "http://example.com";
    assert url == "http" + "://" + "example.com" + "";
    ValidUrlFromParts("http", "example.com", "");
  }

  /** The rejected examples without a scheme. */
  lemma SchemelessExamplesRejected()
    ensures IsValidUrl("invalid") == Some(false)
    ensures IsValidUrl("not-a-url") == Some(false)
  {
    var a, b := "invalid", "not-a-url";
    assert a[..2] != "//" by { assert a[0] != '/'; }
    assert b[..2] != "//" by { assert b[0] != '/'; }
    NoColonRejected(a);
    NoColonRejected(b);
  }
}
