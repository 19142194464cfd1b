/** The handful of Python `str` operations the services apply to URLs and corpus lines:
    `strip`, `find`, `rfind`, `split`, `startswith` and ASCII `lower`. Strings are `seq<char>`. */
module Text {

  /** `c.isspace()` in Python: the Unicode whitespace characters (categories Zs, and bidirectional
      classes WS, B and S), which is what `str.strip()` with no argument removes. */
  predicate IsSpace(c: char)
  {
    || c == ' '
    || '\t' <= c <= '\r'
    || '\U{1c}' <= c <= '\U{1f}'
    || c == '\U{85}' || c == '\U{a0}' || c == '\U{1680}'
    || '\U{2000}' <= c <= '\U{200a}'
    || c == '\U{2028}' || c == '\U{2029}' || c == '\U{202f}' || c == '\U{205f}' || c == '\U{3000}'
  }

  /** `s.lstrip()` */
  function TrimLeft(s: string): string
  {
    if |s| > 0 && IsSpace(s[0]) then TrimLeft(s[1..]) else s
  }

  /** `s.rstrip()` */
  function TrimRight(s: string): string
  {
    if |s| > 0 && IsSpace(s[|s| - 1]) then TrimRight(s[..|s| - 1]) else s
  }

  /** `s.strip()` */
  function Strip(s: string): string
  {
    TrimRight(TrimLeft(s))
  }

  /** The length of the leading run of whitespace. */
  function LeadingSpaces(s: string): (k: nat)
    ensures k <= |s|
  {
    if |s| > 0 && IsSpace(s[0]) then 1 + LeadingSpaces(s[1..]) else 0
  }

  /** The length of the trailing run of whitespace. */
  function TrailingSpaces(s: string): (k: nat)
    ensures k <= |s|
  {
    if |s| > 0 && IsSpace(s[|s| - 1]) then 1 + TrailingSpaces(s[..|s| - 1]) else 0
  }

  /** `lstrip` removes exactly the leading run of whitespace. */
  lemma {:induction false} TrimLeftRemovesPrefix(s: string)
    ensures TrimLeft(s) == s[LeadingSpaces(s)..]
    ensures forall i :: 0 <= i < LeadingSpaces(s) ==> IsSpace(s[i])
    ensures LeadingSpaces(s) < |s| ==> !IsSpace(s[LeadingSpaces(s)])
    decreases |s|
  {
    if |s| > 0 && IsSpace(s[0]) {
      var t := s[1..];
      TrimLeftRemovesPrefix(t);
      var k := LeadingSpaces(t);
      DropDrop(s, 1, k);
      forall i | 0 <= i < k + 1 ensures IsSpace(s[i]) {
        if i > 0 { assert s[i] == t[i - 1]; }
      }
      if k < |t| { assert s[k + 1] == t[k]; }
    } else {
      assert s[0..] == s;
    }
  }

  /** `rstrip` removes exactly the trailing run of whitespace. */
  lemma {:induction false} TrimRightRemovesSuffix(s: string)
    ensures TrimRight(s) == s[..|s| - TrailingSpaces(s)]
    ensures forall i :: |s| - TrailingSpaces(s) <= i < |s| ==> IsSpace(s[i])
    ensures TrailingSpaces(s) < |s| ==> !IsSpace(s[|s| - TrailingSpaces(s) - 1])
    decreases |s|
  {
    if |s| > 0 && IsSpace(s[|s| - 1]) {
      var t := s[..|s| - 1];
      TrimRightRemovesSuffix(t);
      var k := TrailingSpaces(t);
      assert t[..|t| - k] == s[..|s| - (k + 1)];
      forall i | |s| - (k + 1) <= i < |s| ensures IsSpace(s[i]) {
        if i < |s| - 1 { assert s[i] == t[i]; }
      }
      if k < |t| { assert s[|s| - (k + 1) - 1] == t[|t| - k - 1]; }
    } else {
      assert s[..|s|] == s;
    }
  }

  /** `strip` returns the middle part of its argument with whitespace at neither end. */
  lemma StripIsTrimmedInfix(s: string)
    ensures exists i, j :: 0 <= i <= j <= |s| && Strip(s) == s[i..j]
    ensures |Strip(s)| > 0 ==> !IsSpace(Strip(s)[0]) && !IsSpace(Strip(s)[|Strip(s)| - 1])
  {
    var i := LeadingSpaces(s);
    var t := s[i..];
    TrimLeftRemovesPrefix(s);
    TrimRightRemovesSuffix(t);
    var j := |t| - TrailingSpaces(t);
    assert Strip(s) == t[..j];
    assert t[..j] == s[i..i + j];
    if j > 0 {
      assert Strip(s)[0] == t[0];
      assert Strip(s)[j - 1] == t[j - 1];
    }
  }

  /** `s.startswith(prefix)` */
  predicate StartsWith(s: string, prefix: string)
  {
    |prefix| <= |s| && s[..|prefix|] == prefix
  }

  /** ASCII lower-casing of one character. */
  function LowerChar(c: char): char
  {
    if 'A' <= c <= 'Z' then (c as int + 32) as char else c
  }

  /** Lower-casing of a string made of ASCII characters (what `.lower()` does to a URL scheme). */
  function Lower(s: string): (r: string)
    ensures |r| == |s|
    ensures forall i :: 0 <= i < |s| ==> r[i] == LowerChar(s[i])
  {
    if |s| == 0 then [] else [LowerChar(s[0])] + Lower(s[1..])
  }

  /** `s.find(c)`: the first index of `c`, or -1. */
  function Find(s: string, c: char): (r: int)
    ensures -1 <= r < |s|
    ensures r >= 0 ==> s[r] == c
    ensures forall i :: 0 <= i < |s| && (r < 0 || i < r) ==> s[i] != c
  {
    if |s| == 0 then -1
    else if s[0] == c then 0
    else
      var k := Find(s[1..], c);
      if k < 0 then -1 else k + 1
  }

  /** `s.rfind(c)`: the last index of `c`, or -1. */
  function RFind(s: string, c: char): (r: int)
    ensures -1 <= r < |s|
    ensures r >= 0 ==> s[r] == c
    ensures forall i :: r < i < |s| ==> s[i] != c
  {
    if |s| == 0 then -1
    else if s[|s| - 1] == c then |s| - 1
    else RFind(s[..|s| - 1], c)
  }

  /** `s.split(c)` for a one-character separator: the maximal separator-free pieces, in order. */
  function Split(s: string, c: char): (r: seq<string>)
    ensures |r| >= 1
    decreases |s|
  {
    var k := Find(s, c);
    if k < 0 then [s] else [s[..k]] + Split(s[k + 1..], c)
  }

  /** The inverse of `Split`: `c.join(parts)`. */
  function JoinWith(parts: seq<string>, c: char): string
    requires |parts| >= 1
  {
    if |parts| == 1 then parts[0] else parts[0] + [c] + JoinWith(parts[1..], c)
  }

  /** Splitting then joining with the same separator gives the string back. */
  lemma {:induction false} SplitJoinRoundTrip(s: string, c: char)
    ensures JoinWith(Split(s, c), c) == s
    decreases |s|
  {
    var k := Find(s, c);
    if k >= 0 {
      var rest := s[k + 1..];
      SplitAfter(s, c, k, rest);
      SplitJoinRoundTrip(rest, c);
      assert s == s[..k] + [c] + rest;
    }
  }

  /** No piece of `s.split(c)` contains the separator. */
  lemma {:induction false} SplitPiecesAreSeparatorFree(s: string, c: char, i: nat)
    requires i < |Split(s, c)|
    ensures c !in Split(s, c)[i]
    decreases |s|
  {
    var k := Find(s, c);
    if k >= 0 && i > 0 {
      var rest := s[k + 1..];
      assert Split(s, c) == [s[..k]] + Split(rest, c);
      SplitPiecesAreSeparatorFree(rest, c, i - 1);
    }
  }

  /** The last piece of `s.split(c)` is the text after the last `c` (all of `s` when there is none). */
  lemma {:induction false} SplitLastPiece(s: string, c: char)
    ensures Split(s, c)[|Split(s, c)| - 1] == s[RFind(s, c) + 1..]
    decreases |s|
  {
    var k := Find(s, c);
    if k < 0 {
      LastPieceWithoutSeparator(s, c);
    } else {
      var t := s[k + 1..];
      SplitLastPiece(t, c);
      LastPieceAfter(s, c, k, t);
    }
  }

  /** Without `c` the only piece is `s`, and `rfind` reports -1. */
  lemma LastPieceWithoutSeparator(s: string, c: char)
    requires Find(s, c) < 0
    ensures Split(s, c)[|Split(s, c)| - 1] == s[RFind(s, c) + 1..]
  {
    assert Split(s, c) == [s];
    RFindAbsent(s, c);
    assert s[RFind(s, c) + 1..] == s;
  }

  /** The step of `SplitLastPiece` past the first occurrence at `k`. */
  lemma LastPieceAfter(s: string, c: char, k: int, t: string)
    requires k == Find(s, c) && k >= 0 && t == s[k + 1..]
    requires Split(t, c)[|Split(t, c)| - 1] == t[RFind(t, c) + 1..]
    ensures Split(s, c)[|Split(s, c)| - 1] == s[RFind(s, c) + 1..]
  {
    RFindAfter(s, c, k);
    LastPieceOfRest(s, c, k, t);
    ShiftedTail(s, k, t, RFind(t, c), RFind(s, c));
  }

  /** The text after index `r` of `s` is the text after index `j` of `t = s[k + 1..]` when `r` is `j`
      shifted by `k + 1`. */
  lemma ShiftedTail(s: string, k: nat, t: string, j: int, r: int)
    requires k + 1 <= |s| && t == s[k + 1..] && -1 <= j < |t| && r == k + 1 + j
    ensures s[r + 1..] == t[j + 1..]
  {
    DropDrop(s, k + 1, j + 1);
  }

  /** Dropping `a` elements and then `b` more drops `a + b`. */
  lemma DropDrop<T>(s: seq<T>, a: nat, b: nat)
    requires a + b <= |s|
    ensures s[a..][b..] == s[a + b..]
  {
  }

  /** Past the first occurrence at `k`, the pieces are the text before it followed by the pieces of
      the rest. */
  lemma SplitAfter(s: string, c: char, k: int, t: string)
    requires k == Find(s, c) && k >= 0 && t == s[k + 1..]
    ensures Split(s, c) == [s[..k]] + Split(t, c)
  {
  }

  /** Past the first occurrence, the last piece of the whole is the last piece of the rest. */
  lemma LastPieceOfRest(s: string, c: char, k: int, t: string)
    requires k == Find(s, c) && k >= 0 && t == s[k + 1..]
    ensures Split(s, c)[|Split(s, c)| - 1] == Split(t, c)[|Split(t, c)| - 1]
  {
    var rest := Split(t, c);
    SplitAfter(s, c, k, t);
    LastOfCons(s[..k], rest);
  }

  /** The last element of a sequence with one more element in front of it. */
  lemma LastOfCons<T>(x: T, rest: seq<T>)
    requires |rest| >= 1
    ensures |[x] + rest| == |rest| + 1 && ([x] + rest)[|rest|] == rest[|rest| - 1]
  {
  }

  /** Past an occurrence at `k`, `rfind` on the rest is `rfind` on the whole, shifted by `k + 1`. */
  lemma RFindAfter(s: string, c: char, k: nat)
    requires k < |s| && s[k] == c
    ensures RFind(s, c) == k + 1 + RFind(s[k + 1..], c)
  {
    var t := s[k + 1..];
    var j := RFind(t, c);
    if j >= 0 {
      assert s[k + 1 + j] == t[j];
      assert forall i :: k + 1 + j < i < |s| ==> s[i] == t[i - k - 1];
      RFindIsLast(s, c, k + 1 + j);
    } else {
      assert forall i :: k < i < |s| ==> s[i] == t[i - k - 1];
      RFindIsLast(s, c, k);
    }
  }

  /** A character found before any other occurrence is the one `find` reports. */
  lemma FindAt(s: string, c: char, k: nat)
    requires k < |s| && s[k] == c
    requires forall i :: 0 <= i < k ==> s[i] != c
    ensures Find(s, c) == k
  {
  }

  /** A string without `c` has no index for `find` to report. */
  lemma FindAbsent(s: string, c: char)
    requires forall i :: 0 <= i < |s| ==> s[i] != c
    ensures Find(s, c) == -1
  {
  }

  /** With no occurrence of `c`, `rfind` reports -1. */
  lemma {:induction false} RFindAbsent(s: string, c: char)
    requires forall i :: 0 <= i < |s| ==> s[i] != c
    ensures RFind(s, c) == -1
  {
  }

  /** An occurrence of `c` followed by no other occurrence is the one `rfind` reports. */
  lemma {:induction false} RFindIsLast(s: string, c: char, k: int)
    requires 0 <= k < |s| && s[k] == c
    requires forall i :: k < i < |s| ==> s[i] != c
    ensures RFind(s, c) == k
  {
  }

  /** The first piece of `s.split(c)` is the text before the first `c`, or all of `s`. */
  lemma SplitFirstPiece(s: string, c: char)
    ensures var k := Find(s, c);
            Split(s, c)[0] == if k < 0 then s else s[..k]
  {
  }
}
