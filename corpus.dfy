/** The line filter both URL publishers apply while reading the URL file: every line is stripped of
    surrounding whitespace, and blank lines and lines starting with `#` are skipped. */
module Corpus {
  import opened Text

  /** A stripped line that the publishers keep. */
  predicate IsUrlLine(u: string)
  {
    u != [] && !StartsWith(u, "#")
  }

  /** The URLs a file with these lines contributes, in file order. */
  function CorpusUrls(lines: seq<string>): (urls: seq<string>)
    ensures |urls| <= |lines|
    ensures forall i :: 0 <= i < |urls| ==> IsUrlLine(urls[i])
  {
    if |lines| == 0 then []
    else
      var u := Strip(lines[|lines| - 1]);
      CorpusUrls(lines[..|lines| - 1]) + (if IsUrlLine(u) then [u] else [])
  }

  /** The filter works line by line, so a file's URLs are those of its first part followed by those of
      the rest. */
  lemma {:induction false} CorpusConcat(a: seq<string>, b: seq<string>)
    ensures CorpusUrls(a + b) == CorpusUrls(a) + CorpusUrls(b)
    decreases |b|
  {
    if |b| == 0 {
      assert a + b == a;
    } else {
      assert (a + b)[..|a + b| - 1] == a + b[..|b| - 1];
      CorpusConcat(a, b[..|b| - 1]);
    }
  }

  /** Each URL is some line, stripped: it has no surrounding whitespace. */
  lemma {:induction false} CorpusUrlsAreStripped(lines: seq<string>, i: nat)
    requires i < |CorpusUrls(lines)|
    ensures var u := CorpusUrls(lines)[i];
            !IsSpace(u[0]) && !IsSpace(u[|u| - 1]) && (exists j :: 0 <= j < |lines| && u == Strip(lines[j]))
    decreases |lines|
  {
    var init := lines[..|lines| - 1];
    var u := Strip(lines[|lines| - 1]);
    if i < |CorpusUrls(init)| {
      CorpusUrlsAreStripped(init, i);
      var j :| 0 <= j < |init| && CorpusUrls(init)[i] == Strip(init[j]);
      assert lines[j] == init[j];
    } else {
      assert CorpusUrls(lines)[i] == u;
      StripIsTrimmedInfix(lines[|lines| - 1]);
    }
  }

  /** The file reader's test: a blank line, a comment and one URL give exactly that URL. */
  lemma CommentAndBlankSkipped(url: string)
    requires IsUrlLine(url) && Strip(url) == url
    ensures CorpusUrls(["", "#comment", url]) == [url]
  {
    var lines := ["", "#comment", url];
    assert lines[..2] == ["", "#comment"] && lines[..2][..1] == [""] && lines[..2][..1][..0] == [];
    assert Strip("") == "";
    assert CorpusUrls([""]) == [];
    assert StartsWith("#comment", "#");
    assert Strip("#comment") == "#comment";
    assert CorpusUrls(["", "#comment"]) == [];
  }
}
