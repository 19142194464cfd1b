/** `paginate_results(results, page, size)`: the page `page` (counted from 1) of `size` results, cut out
    of the full result list with a Python slice. Python slices clamp their bounds to the list and count
    negative bounds from the end, so the slice is modelled with those rules. */
module Pagination {

  /** A Python slice bound normalised against a list of length `n`: a negative bound counts from the
      end, and the result is clamped to `[0, n]`. */
  function Clamp(i: int, n: nat): (r: nat)
    ensures r <= n
    ensures 0 <= i <= n ==> r == i
    ensures i > n ==> r == n
    ensures i < 0 ==> r == if i + n < 0 then 0 else i + n
  {
    if i < 0 then (if i + n < 0 then 0 else i + n) else if i > n then n else i
  }

  /** `s[i:j]` in Python. */
  function PySlice<T>(s: seq<T>, i: int, j: int): seq<T>
  {
    var a, b := Clamp(i, |s|), Clamp(j, |s|);
    if a <= b then s[a..b] else []
  }

  /** `paginate_results`: `results[(page - 1) * size : (page - 1) * size + size]`. */
  function Paginate<T>(results: seq<T>, page: int, size: int): seq<T>
  {
    var start := (page - 1) * size;
    PySlice(results, start, start + size)
  }

  function Min(a: int, b: int): int { if a <= b then a else b }

  /** The pages 1 to `k`, one after another. */
  function Pages<T>(results: seq<T>, k: nat, size: int): seq<T>
  {
    if k == 0 then [] else Pages(results, k - 1, size) + Paginate(results, k, size)
  }

  /** For the pages the API can ask for (page and size at least 1) the result is the stretch of the
      list from `(page - 1) * size` to `page * size`, cut short at the list's end: element `i` of the page
      is element `(page - 1) * size + i` of the list. */
  lemma PageIsStretch<T>(results: seq<T>, page: int, size: int)
    requires page >= 1 && size >= 1
    ensures var start := (page - 1) * size;
            var r := Paginate(results, page, size);
            && |r| == Min(start + size, |results|) - Min(start, |results|)
            && forall i :: 0 <= i < |r| ==> r[i] == results[start + i]
  {
    var start := (page - 1) * size;
    assert start >= 0 by { NonNegativeProduct(page - 1, size); }
  }

  /** Page `k` is the stretch from `start = (k - 1) * size` to `start + size = k * size`, cut short at
      the end. */
  lemma PageStart<T>(results: seq<T>, k: int, size: int, start: int)
    requires k >= 1 && size >= 1 && start == (k - 1) * size
    ensures start >= 0 && start + size == k * size
    ensures Paginate(results, k, size) == results[Min(start, |results|)..Min(start + size, |results|)]
  {
    NonNegativeProduct(k - 1, size);
  }

  lemma NonNegativeProduct(a: int, b: int)
    requires a >= 0 && b >= 0
    ensures a * b >= 0
  {
  }

  /** A page holds at most `size` results, and exactly `size` when the list reaches `page * size`. */
  lemma PageLength<T>(results: seq<T>, page: int, size: int)
    requires page >= 1 && size >= 1
    ensures |Paginate(results, page, size)| <= size
    ensures page * size <= |results| ==> |Paginate(results, page, size)| == size
  {
    PageIsStretch(results, page, size);
    assert (page - 1) * size + size == page * size;
  }

  /** A page that starts at or past the end of the list is empty. */
  lemma PastTheEnd<T>(results: seq<T>, page: int, size: int)
    requires page >= 1 && size >= 1
    requires (page - 1) * size >= |results|
    ensures Paginate(results, page, size) == []
  {
    PageIsStretch(results, page, size);
  }

  /** Pages 1 to `k` are contiguous and do not overlap: together they are the first `k * size` results
      (the whole list when it is shorter). */
  lemma {:induction false} PagesArePrefix<T>(results: seq<T>, k: nat, size: int)
    requires size >= 1
    ensures Pages(results, k, size) == results[..Min(k * size, |results|)]
    decreases k
  {
    if k > 0 {
      PagesArePrefix(results, k - 1, size);
      var start := (k - 1) * size;
      PageStart(results, k, size, start);
      var lo := Min(start, |results|);
      var hi := Min(start + size, |results|);
      assert results[..lo] + results[lo..hi] == results[..hi];
    }
  }

  /** The API's tests: page 1 of size 3 is `data[0:3]`, page 2 of size 5 is `data[5:10]`. */
  lemma PaginationExamples<T>(data: seq<T>)
    requires |data| >= 10
    ensures Paginate(data, 1, 3) == data[0..3]
    ensures Paginate(data, 2, 5) == data[5..10]
  {
  }
}
