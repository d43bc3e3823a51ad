/**
  In-place sorting of a slice by an integer key, standing for the library sorts the
  program calls (sort.Slice with a "greater score first" comparison, sort.SliceStable
  with an "earlier candidate first" comparison). Both are expressed as an ascending sort
  on a key: a descending sort is an ascending sort on the negated key.
*/
module Sorting {

  /** Keys never decrease from left to right. */
  predicate SortedBy<T>(s: seq<T>, key: T -> int) {
    forall p, q :: 0 <= p < q < |s| ==> key(s[p]) <= key(s[q])
  }

  /** Exchanges two neighbours; the contents stay the same. */
  method SwapWithNext<T>(a: array<T>, j: int)
    requires 0 <= j < a.Length - 1
    modifies a
    ensures a[..] == old(a[..])[j := old(a[j + 1])][j + 1 := old(a[j])]
    ensures multiset(a[..]) == multiset(old(a[..]))
  {
    ghost var s := a[..];
    a[j], a[j + 1] := a[j + 1], a[j];
    assert s == s[..j] + [s[j], s[j + 1]] + s[j + 2..];
    assert a[..] == s[..j] + [s[j + 1], s[j]] + s[j + 2..];
  }

  /** Moves a[i] left past every larger key, so that a[..i+1] becomes sorted. */
  method InsertNext<T>(a: array<T>, key: T -> int, i: int)
    requires 0 <= i < a.Length
    requires SortedBy(a[..i], key)
    modifies a
    ensures SortedBy(a[..i + 1], key)
    ensures multiset(a[..]) == multiset(old(a[..]))
  {
    var j := i;
    while j > 0 && key(a[j]) < key(a[j - 1])
      invariant 0 <= j <= i
      invariant forall p, q :: 0 <= p < q <= i && p != j && q != j ==> key(a[p]) <= key(a[q])
      invariant forall q :: j < q <= i ==> key(a[j]) < key(a[q])
      invariant multiset(a[..]) == multiset(old(a[..]))
      decreases j
    {
      SwapWithNext(a, j - 1);
      j := j - 1;
    }
  }

  /** Insertion sort: sorted by the key, with the same elements as before. */
  method SortByKey<T>(a: array<T>, key: T -> int)
    modifies a
    ensures SortedBy(a[..], key)
    ensures multiset(a[..]) == multiset(old(a[..]))
  {
    for i := 0 to a.Length
      invariant SortedBy(a[..i], key)
      invariant multiset(a[..]) == multiset(old(a[..]))
    {
      InsertNext(a, key, i);
    }
    assert a[..a.Length] == a[..];
  }

  /** The image of a sequence under `f`, element by element. */
  function MapSeq<T, U>(s: seq<T>, f: T -> U): (r: seq<U>)
    ensures |r| == |s| && forall i :: 0 <= i < |s| ==> r[i] == f(s[i])
  {
    seq(|s|, i requires 0 <= i < |s| => f(s[i]))
  }

  lemma RemoveAt<T>(s: seq<T>, k: nat)
    requires k < |s|
    ensures multiset(s) == multiset(s[..k] + s[k + 1..]) + multiset{s[k]}
  {
    assert s == s[..k] + [s[k]] + s[k + 1..];
  }

  lemma Cancel<T>(p: multiset<T>, q: multiset<T>, x: T)
    requires p + multiset{x} == q + multiset{x}
    ensures p == q
  {
    forall y ensures p[y] == q[y] {
      assert (p + multiset{x})[y] == (q + multiset{x})[y];
    }
  }

  lemma MapConcat<T, U>(x: seq<T>, y: seq<T>, f: T -> U)
    ensures MapSeq(x + y, f) == MapSeq(x, f) + MapSeq(y, f)
  {
  }

  lemma MapStep<T, U>(a: seq<T>, b: seq<T>, k: nat, f: T -> U)
    requires a != [] && k < |b| && b[k] == a[0]
    requires multiset(MapSeq(a[1..], f)) == multiset(MapSeq(b[..k] + b[k + 1..], f))
    ensures multiset(MapSeq(a, f)) == multiset(MapSeq(b, f))
  {
    var x, y := b[..k], b[k + 1..];
    assert b == x + [b[k]] + y;
    assert a == [a[0]] + a[1..];
    MapConcat([a[0]], a[1..], f);
    MapConcat(x + [b[k]], y, f);
    MapConcat(x, [b[k]], f);
    MapConcat(x, y, f);
  }

  lemma {:induction false} MapPermutation<T, U>(a: seq<T>, b: seq<T>, f: T -> U)
    requires multiset(a) == multiset(b)
    ensures multiset(MapSeq(a, f)) == multiset(MapSeq(b, f))
    decreases |a|
  {
    if a == [] {
      assert b == [] by { assert |multiset(b)| == 0; }
    } else {
      assert a[0] in multiset(b);
      var k :| 0 <= k < |b| && b[k] == a[0];
      RemoveAt(a, 0);
      RemoveAt(b, k);
      assert a[..0] + a[1..] == a[1..];
      Cancel(multiset(a[1..]), multiset(b[..k] + b[k + 1..]), a[0]);
      MapPermutation(a[1..], b[..k] + b[k + 1..], f);
      MapStep(a, b, k, f);
    }
  }
}
