/** POSIX `os.path` operations on strings: `splitext`, `join` and `basename`. */
module Paths {
  import opened Text

  /** Whether some character of `p[lo..hi]` is not a dot. */
  predicate HasNonDot(p: string, lo: int, hi: int)
    requires 0 <= lo <= hi <= |p|
  {
    exists i :: lo <= i < hi && p[i] != '.'
  }

  /** `os.path.splitext(p)[1]`: the text from the last dot of the final `/`-component, provided that
      dot is not part of a run of leading dots of that component; otherwise the empty string. */
  function Extension(p: string): string
  {
    var sep := RFind(p, '/');
    var dot := RFind(p, '.');
    if dot > sep && HasNonDot(p, sep + 1, dot) then p[dot..] else ""
  }

  /** An extension is either empty, or a dot followed by a dot-free, slash-free tail of `p`, preceded in
      its component by at least one character that is not a dot. */
  lemma ExtensionShape(p: string)
    ensures var e := Extension(p);
            || e == ""
            || (&& |e| >= 1 && e[0] == '.'
                && |e| < |p| && p[|p| - |e|..] == e
                && (forall i :: 1 <= i < |e| ==> e[i] != '.' && e[i] != '/')
                && exists j :: 0 <= j < |p| - |e| && p[j] != '.' && p[j] != '/'
                               && forall m :: j < m < |p| - |e| ==> p[m] != '/')
  {
    var sep := RFind(p, '/');
    var dot := RFind(p, '.');
    if dot > sep && HasNonDot(p, sep + 1, dot) {
      var e := p[dot..];
      var j :| sep + 1 <= j < dot && p[j] != '.';
      assert p[|p| - |e|..] == e;
      assert forall i :: 1 <= i < |e| ==> e[i] == p[dot + i];
    }
  }

  /** `os.path.join(a, b)` for two components. */
  function Join(a: string, b: string): string
  {
    if StartsWith(b, "/") then b
    else if a == "" || a[|a| - 1] == '/' then a + b
    else a + "/" + b
  }

  /** Joining a directory that does not end in `/` with a relative name puts exactly one `/` between them. */
  lemma JoinRelative(a: string, b: string)
    requires a != "" && a[|a| - 1] != '/'
    requires b == "" || b[0] != '/'
    ensures Join(a, b) == a + "/" + b
  {
  }

  /** `os.path.basename(p)`: the text after the last `/`. */
  function Basename(p: string): string
  {
    p[RFind(p, '/') + 1..]
  }

  /** `basename` and `p.split("/")[-1]` agree, so the two ways the legacy downloaders derive a file
      name from a URL give the same name. */
  lemma BasenameIsLastSplitPiece(p: string)
    ensures Basename(p) == Split(p, '/')[|Split(p, '/')| - 1]
    ensures '/' !in Basename(p)
  {
    SplitLastPiece(p, '/');
  }
}
