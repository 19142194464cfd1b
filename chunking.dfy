/** `chunked_iterable(iterable, size)`: successive `size`-element chunks pulled from one iterator with
    `itertools.islice` until a chunk comes back empty. */
module Chunking {
  import opened Wrappers
  import opened Seqs

  function Min(a: int, b: int): int { if a <= b then a else b }

  /** The message of the `ValueError` a negative stop argument makes `islice` raise. */
  const IsliceStopError: string := "ValueError: Stop argument for islice() must be None or an integer: 0 <= x <= sys.maxsize."

  /** The chunks the generator yields for a non-negative size; `size == 0` yields nothing, because the
      first `islice` is already empty. */
  function Chunks<T>(s: seq<T>, size: nat): seq<seq<T>>
    decreases |s|
  {
    if size == 0 || |s| == 0 then [] else [s[..Min(size, |s|)]] + Chunks(s[Min(size, |s|)..], size)
  }

  /** What a chunking into `size`-element pieces looks like: no piece is empty or longer than `size`,
      and every piece but the last is exactly `size` long. */
  predicate IsChunking<T>(cs: seq<seq<T>>, size: nat)
  {
    && (forall i :: 0 <= i < |cs| ==> 0 < |cs[i]| <= size)
    && (forall i :: 0 <= i < |cs| - 1 ==> |cs[i]| == size)
  }

  /** The generator's loop: `list(islice(it, size))` until it is empty. A negative size makes `islice`
      raise `ValueError`, reported here as a failure. */
  method ChunkedIterable<T>(items: seq<T>, size: int) returns (r: Result<seq<seq<T>>, string>)
    ensures size < 0 <==> r.Failure?
    ensures size >= 0 ==> r == Success(Chunks(items, size))
  {
    if size < 0 {
      return Failure(IsliceStopError);
    }
    var chunks: seq<seq<T>> := [];
    var pos := 0;
    while true
      invariant 0 <= pos <= |items|
      invariant chunks + Chunks(items[pos..], size) == Chunks(items, size)
      decreases |items| - pos
    {
      var take := Min(size, |items| - pos);
      var chunk := items[pos..pos + take];
      if |chunk| == 0 {
        break;
      }
      ChunksFrom(items, pos, size);
      AppendAssoc(chunks, [chunk], Chunks(items[pos + take..], size));
      chunks := chunks + [chunk];
      pos := pos + take;
    }
    AppendEmpty(chunks);
    return Success(chunks);
  }

  /** One step of the chunking from position `pos`: the next piece, then the chunking of the rest. */
  lemma ChunksFrom<T>(items: seq<T>, pos: nat, size: nat)
    requires pos < |items| && size >= 1
    ensures var take := Min(size, |items| - pos);
            Chunks(items[pos..], size) == [items[pos..pos + take]] + Chunks(items[pos + take..], size)
  {
    var take := Min(size, |items| - pos);
    assert items[pos..][..take] == items[pos..pos + take];
    assert items[pos..][take..] == items[pos + take..];
  }

  /** Concatenating the chunks gives the input back, for every positive size. */
  lemma {:induction false} ChunksFlatten<T>(s: seq<T>, size: nat)
    requires size >= 1
    ensures Flatten(Chunks(s, size)) == s
    decreases |s|
  {
    if |s| > 0 {
      var k := Min(size, |s|);
      ChunksFlatten(s[k..], size);
      assert s[..k] + s[k..] == s;
    }
  }

  /** The chunks are a chunking in the sense of `IsChunking`. */
  lemma {:induction false} ChunksShape<T>(s: seq<T>, size: nat)
    ensures IsChunking(Chunks(s, size), size)
    decreases |s|
  {
    if size > 0 && |s| > 0 {
      var k := Min(size, |s|);
      var rest := Chunks(s[k..], size);
      ChunksShape(s[k..], size);
      assert Chunks(s, size) == [s[..k]] + rest;
      if |rest| > 0 {
        assert |s[k..]| > 0;
        assert k == size;
      }
    }
  }

  /** There are just enough chunks to hold the input: `(count - 1) * size < n <= count * size`. */
  lemma {:induction false} ChunksBound<T>(s: seq<T>, size: nat)
    requires size >= 1
    ensures var count := |Chunks(s, size)|;
            (count - 1) * size < |s| <= count * size
    decreases |s|
  {
    if |s| > size {
      ChunksBound(s[size..], size);
      var m := |Chunks(s[size..], size)|;
      assert |Chunks(s, size)| == m + 1;
      assert (m + 1) * size == m * size + size;
    }
  }

  /** There are ⌈n / size⌉ chunks. */
  lemma ChunksCount<T>(s: seq<T>, size: nat)
    requires size >= 1
    ensures |Chunks(s, size)| == (|s| + size - 1) / size
  {
    ChunksBound(s, size);
    var count := |Chunks(s, size)|;
    assert (count - 1) * size == count * size - size;
    DivUnique(|s| + size - 1, size, count, |s| + size - 1 - count * size);
  }

  /** A quotient and remainder in range are the ones integer division produces. */
  lemma DivUnique(x: int, d: int, q: int, r: int)
    requires d > 0 && x == q * d + r && 0 <= r < d
    ensures x / d == q
  {
    var q', r' := x / d, x % d;
    assert x == q' * d + r' && 0 <= r' < d;
    assert (q - q') * d == r' - r;
    assert q - q' >= 1 ==> (q - q') * d >= d;
    assert q' - q >= 1 ==> (q' - q) * d >= d;
  }

  /** The empty input and the size 0 both give no chunks. */
  lemma ChunksNone<T>(s: seq<T>, size: nat)
    requires |s| == 0 || size == 0
    ensures Chunks(s, size) == []
  {
  }

  /** The chunking is determined by its concatenation: any chunking of `s` into `size`-element pieces is
      the one the generator yields. */
  lemma {:induction false} ChunkingUnique<T>(cs: seq<seq<T>>, s: seq<T>, size: nat)
    requires size >= 1
    requires IsChunking(cs, size) && Flatten(cs) == s
    ensures cs == Chunks(s, size)
    decreases |cs|
  {
    if |cs| > 0 {
      var k := Min(size, |s|);
      assert s == cs[0] + Flatten(cs[1..]);
      if |cs| == 1 {
        assert Flatten(cs[1..]) == [];
        assert s == cs[0];
        assert s[k..] == [];
      } else {
        assert |cs[0]| == size;
        assert |Flatten(cs[1..])| > 0 by {
          assert Flatten(cs[1..]) == cs[1] + Flatten(cs[2..]);
        }
        assert k == size;
        assert s[..k] == cs[0];
        assert s[k..] == Flatten(cs[1..]);
        ChunkingUnique(cs[1..], s[k..], size);
      }
    }
  }

  /** The downloader's test: ten items in chunks of three give four chunks, the first `[0, 1, 2]` and the
      last `[9]`. */
  lemma TenByThree()
    ensures var cs := Chunks([0, 1, 2, 3, 4, 5, 6, 7, 8, 9], 3);
            |cs| == 4 && cs[0] == [0, 1, 2] && cs[3] == [9]
  {
    var s := [0, 1, 2, 3, 4, 5, 6, 7, 8, 9];
    var s3, s6, s9 := s[3..], s[6..], s[9..];
    assert s3[3..] == s6 && s6[3..] == s9 && s9 == [9];
    assert s9[..1] == s9 && s9[1..] == [];
    assert Chunks(s9, 3) == [s9] + Chunks(s9[1..], 3) == [s9];
    assert Chunks(s6, 3) == [s6[..3]] + Chunks(s9, 3);
    assert Chunks(s3, 3) == [s3[..3]] + Chunks(s6, 3);
    assert Chunks(s, 3) == [s[..3]] + Chunks(s3, 3);
    assert s[..3] == [0, 1, 2];
  }
}
