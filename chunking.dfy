/**
  Fixed-size chunking, as the batch loops write it:

      for i := 0; i < len(s); i += size { end := min(i+size, len(s)); chunk := s[i:end] }

  Chunk k is s[k*size .. min((k+1)*size, |s|)]. The store accepts at most 25 writes
  (BatchWriteItem) or 100 reads (BatchGetItem) per request.
*/
module Chunking {

  const WriteBatchSize: nat := 25
  const ReadBatchSize: nat := 100

  function Min(a: int, b: int): int {
    if a < b then a else b
  }

  /** The number of iterations of the chunk loop over `len` elements. */
  function NumChunks(len: nat, size: nat): nat
    requires size > 0
  {
    (len + size - 1) / size
  }

  /** q <= x / d exactly when q * d <= x. */
  lemma DivBound(x: nat, d: nat, q: nat)
    requires d > 0
    ensures q <= x / d <==> q * d <= x
  {
    var r := x / d;
    assert x == r * d + x % d;
    if q <= r {
      assert q * d <= r * d;
    } else {
      assert q >= r + 1;
      assert q * d >= (r + 1) * d;
    }
  }

  /** The chunk loop runs its k-th iteration exactly when k * size < len. */
  lemma ChunkIndexBound(len: nat, size: nat, k: nat)
    requires size > 0
    ensures k < NumChunks(len, size) <==> k * size < len
  {
    DivBound(len + size - 1, size, k + 1);
    assert (k + 1) * size == k * size + size;
  }

  function Chunk<T>(s: seq<T>, size: nat, k: nat): (c: seq<T>)
    requires size > 0 && k < NumChunks(|s|, size)
    ensures 0 < |c| <= size
  {
    ChunkIndexBound(|s|, size, k);
    assert (k + 1) * size == k * size + size;
    s[k * size .. Min((k + 1) * size, |s|)]
  }

  /** All chunks the loop visits, in order. */
  function Chunks<T>(s: seq<T>, size: nat): (cs: seq<seq<T>>)
    requires size > 0
    ensures |cs| == NumChunks(|s|, size)
    ensures forall k :: 0 <= k < |cs| ==> 0 < |cs[k]| <= size && cs[k] == Chunk(s, size, k)
  {
    seq(NumChunks(|s|, size), k requires 0 <= k < NumChunks(|s|, size) => Chunk(s, size, k))
  }

  function Flatten<T>(cs: seq<seq<T>>): seq<T> {
    if cs == [] then [] else Flatten(cs[..|cs| - 1]) + cs[|cs| - 1]
  }

  /** The first k chunks, concatenated, are the first min(k*size, |s|) elements. */
  lemma {:induction false} FlattenChunksPrefix<T>(s: seq<T>, size: nat, k: nat)
    requires size > 0 && k <= NumChunks(|s|, size)
    ensures Flatten(Chunks(s, size)[..k]) == s[..Min(k * size, |s|)]
  {
    var cs := Chunks(s, size);
    if k > 0 {
      var j := k - 1;
      var lo, hi := j * size, k * size;
      assert hi == lo + size;
      FlattenChunksPrefix(s, size, j);
      ChunkIndexBound(|s|, size, j);
      assert cs[..k] == cs[..j] + [cs[j]];
      assert cs[j] == s[lo .. Min(hi, |s|)];
      assert Flatten(cs[..k]) == s[..lo] + s[lo .. Min(hi, |s|)];
    }
  }

  /** The chunks partition the input: concatenated in order they give it back. */
  lemma FlattenChunks<T>(s: seq<T>, size: nat)
    requires size > 0
    ensures Flatten(Chunks(s, size)) == s
  {
    var n := NumChunks(|s|, size);
    FlattenChunksPrefix(s, size, n);
    assert Chunks(s, size)[..n] == Chunks(s, size);
    if n > 0 {
      ChunkIndexBound(|s|, size, n);
    } else {
      ChunkIndexBound(|s|, size, 0);
    }
  }
}
