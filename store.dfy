/**
  The key-value store the repositories talk to, reduced to the semantics they rely on:
  raw attribute maps, BatchWriteItem as a sequence of puts, and Query as the
  descending, prefix-filtered, limited slice of one partition.
*/
module Store {
  import opened Wrappers
  import opened Text
  import opened Keys
  import opened Chunking

  /**
    A stored attribute value: a string, an (integral) number, a value of another type
    (a boolean stands for them all), or something the generic decoder rejects.
  */
  datatype AttrValue = S(s: string) | N(n: int) | B(b: bool) | Undecodable

  /** An item as the store holds it: attribute name to value. */
  type RawItem = map<string, AttrValue>

  /** The string held in attribute `name`, or "" when it is missing or not a string. */
  function StringAttr(item: RawItem, name: string): (s: string)
    ensures name in item && item[name].S? ==> s == item[name].s
    ensures !(name in item && item[name].S?) ==> s == ""
  {
    if name in item && item[name].S? then item[name].s else ""
  }

  /** The primary key of a raw item (attributes "PK" and "SK"). */
  function KeyOf(item: RawItem): Key {
    Key(StringAttr(item, "PK"), StringAttr(item, "SK"))
  }

  /** The table after putting `items` in order; a later put on the same key replaces an earlier one. */
  function PutAll(rows: map<Key, RawItem>, items: seq<RawItem>): map<Key, RawItem>
    decreases |items|
  {
    if items == [] then rows else PutAll(rows[KeyOf(items[0]) := items[0]], items[1..])
  }

  /** Writing a + b is writing a, then b: the basis of chunked writing. */
  lemma {:induction false} PutAllAppend(rows: map<Key, RawItem>, a: seq<RawItem>, b: seq<RawItem>)
    ensures PutAll(rows, a + b) == PutAll(PutAll(rows, a), b)
    decreases |a|
  {
    if a != [] {
      assert (a + b)[0] == a[0];
      assert (a + b)[1..] == a[1..] + b;
      PutAllAppend(rows[KeyOf(a[0]) := a[0]], a[1..], b);
    } else {
      assert a + b == b;
    }
  }

  /** After the puts, exactly the old keys and the written keys are present, and a key nobody wrote keeps its item. */
  lemma {:induction false} PutAllContents(rows: map<Key, RawItem>, items: seq<RawItem>, k: Key)
    ensures k in PutAll(rows, items) <==> k in rows || exists i :: 0 <= i < |items| && KeyOf(items[i]) == k
    ensures k in rows && (forall i :: 0 <= i < |items| ==> KeyOf(items[i]) != k) ==>
              k in PutAll(rows, items) && PutAll(rows, items)[k] == rows[k]
    decreases |items|
  {
    if items != [] {
      PutAllContents(rows[KeyOf(items[0]) := items[0]], items[1..], k);
      if k in rows || exists i :: 0 <= i < |items| && KeyOf(items[i]) == k {
        if k !in rows && KeyOf(items[0]) != k {
          var i :| 0 <= i < |items| && KeyOf(items[i]) == k;
          assert KeyOf(items[1..][i - 1]) == k;
        }
      }
      if exists i :: 0 <= i < |items| - 1 && KeyOf(items[1..][i]) == k {
        var i :| 0 <= i < |items| - 1 && KeyOf(items[1..][i]) == k;
        assert KeyOf(items[i + 1]) == k;
      }
    }
  }

  /** Requests that agree wherever their keys do: the order of the puts cannot matter. */
  predicate Consistent(items: seq<RawItem>) {
    forall p, q :: 0 <= p < |items| && 0 <= q < |items| && KeyOf(items[p]) == KeyOf(items[q]) ==> items[p] == items[q]
  }

  /** When requests agree wherever their keys do, every one of them is in place after the puts. */
  lemma {:induction false} PutAllConsistent(rows: map<Key, RawItem>, items: seq<RawItem>, i: nat)
    requires i < |items| && Consistent(items)
    ensures KeyOf(items[i]) in PutAll(rows, items) && PutAll(rows, items)[KeyOf(items[i])] == items[i]
    decreases |items|
  {
    var rest := items[1..];
    var rows' := rows[KeyOf(items[0]) := items[0]];
    assert Consistent(rest) by {
      forall p, q | 0 <= p < |rest| && 0 <= q < |rest| && KeyOf(rest[p]) == KeyOf(rest[q])
        ensures rest[p] == rest[q]
      {
        assert rest[p] == items[p + 1] && rest[q] == items[q + 1];
      }
    }
    if i > 0 {
      assert items[i] == rest[i - 1];
      PutAllConsistent(rows', rest, i - 1);
    } else if exists j :: 0 <= j < |rest| && KeyOf(rest[j]) == KeyOf(items[0]) {
      var j :| 0 <= j < |rest| && KeyOf(rest[j]) == KeyOf(items[0]);
      assert rest[j] == items[j + 1];
      PutAllConsistent(rows', rest, j);
    } else {
      PutAllContents(rows', rest, KeyOf(items[0]));
    }
  }

  /**
    The outcome of the BatchWriteItem loop over `reqs` in chunks of at most 25: either
    every chunk is accepted and all of `reqs` is written, or the first failing chunk
    `k` (the last of `batches`) stops the loop, chunks 0..k-1 have been written and
    nothing after them. `batches` are the requests sent, in order.
  */
  ghost predicate ChunkedWrite(before: map<Key, RawItem>, after: map<Key, RawItem>, reqs: seq<RawItem>,
                               failing: set<nat>, succeeded: bool, batches: seq<seq<RawItem>>)
  {
    var all := Chunks(reqs, WriteBatchSize);
    && (succeeded <==> forall c :: 0 <= c < |all| ==> c !in failing)
    && (succeeded ==> batches == all && after == PutAll(before, reqs))
    && (!succeeded ==> && 0 < |batches| <= |all| && batches == all[..|batches|]
                       && |batches| - 1 in failing && (forall c :: 0 <= c < |batches| - 1 ==> c !in failing)
                       && after == PutAll(before, Flatten(batches[..|batches| - 1])))
  }

  /**
    The chunk loop of a batch writer: for each chunk of at most 25 requests in turn,
    one BatchWriteItem; the first chunk the store rejects (its index is in `failing`)
    ends the loop. Returns the table afterwards and whether every chunk went through.
  */
  method WriteInChunks(before: map<Key, RawItem>, reqs: seq<RawItem>, failing: set<nat>)
    returns (after: map<Key, RawItem>, succeeded: bool, ghost batches: seq<seq<RawItem>>)
    ensures ChunkedWrite(before, after, reqs, failing, succeeded, batches)
  {
    ghost var all := Chunks(reqs, WriteBatchSize);
    after := before;
    var i := 0;
    var c := 0;
    while i < |reqs|
      invariant c <= |all| && i == c * WriteBatchSize
      invariant forall j :: 0 <= j < c ==> j !in failing
      invariant after == PutAll(before, reqs[..Min(i, |reqs|)])
      decreases |reqs| - i
    {
      var end := Min(i + WriteBatchSize, |reqs|);
      var chunk := reqs[i..end];
      WriteStep(before, reqs, c);
      if c in failing {
        StoppedWrite(before, after, reqs, failing, c);
        return after, false, all[..c + 1];
      }
      after := PutAll(after, chunk);
      i := i + WriteBatchSize;
      c := c + 1;
    }
    ChunkIndexBound(|reqs|, WriteBatchSize, c);
    assert reqs[..|reqs|] == reqs;
    CompletedWrite(before, after, reqs, failing);
    return after, true, all;
  }

  /** A write no chunk stopped: all of the requests are in the table. */
  lemma CompletedWrite(before: map<Key, RawItem>, after: map<Key, RawItem>, reqs: seq<RawItem>, failing: set<nat>)
    requires forall j :: 0 <= j < NumChunks(|reqs|, WriteBatchSize) ==> j !in failing
    requires after == PutAll(before, reqs)
    ensures ChunkedWrite(before, after, reqs, failing, true, Chunks(reqs, WriteBatchSize))
  {
  }

  /** One iteration of the chunk loop: chunk `c` is the next slice, and writing it extends the prefix written. */
  lemma WriteStep(before: map<Key, RawItem>, reqs: seq<RawItem>, c: nat)
    requires c * WriteBatchSize < |reqs|
    ensures c < NumChunks(|reqs|, WriteBatchSize)
    ensures var i, end := c * WriteBatchSize, Min(c * WriteBatchSize + WriteBatchSize, |reqs|);
            && Chunks(reqs, WriteBatchSize)[c] == reqs[i..end]
            && PutAll(PutAll(before, reqs[..i]), reqs[i..end]) == PutAll(before, reqs[..end])
  {
    ChunkIndexBound(|reqs|, WriteBatchSize, c);
    var i, end := c * WriteBatchSize, Min(c * WriteBatchSize + WriteBatchSize, |reqs|);
    PutAllAppend(before, reqs[..i], reqs[i..end]);
    assert reqs[..i] + reqs[i..end] == reqs[..end];
  }

  /** A write stopped by chunk `c`: the chunks before it are in the table and nothing else. */
  lemma StoppedWrite(before: map<Key, RawItem>, after: map<Key, RawItem>, reqs: seq<RawItem>, failing: set<nat>, c: nat)
    requires c < NumChunks(|reqs|, WriteBatchSize) && c in failing
    requires forall j :: 0 <= j < c ==> j !in failing
    requires after == PutAll(before, reqs[..Min(c * WriteBatchSize, |reqs|)])
    ensures ChunkedWrite(before, after, reqs, failing, false, Chunks(reqs, WriteBatchSize)[..c + 1])
  {
    var all := Chunks(reqs, WriteBatchSize);
    var batches := all[..c + 1];
    FlattenChunksPrefix(reqs, WriteBatchSize, c);
    assert batches[..|batches| - 1] == all[..c];
  }

  // ---------------------------------------------------------------------------
  // Query with ScanIndexForward = false
  // ---------------------------------------------------------------------------

  /**
    The keys a Query can return: partition `pk`, sort key beginning with `prefix`
    ("" when the query has no begins_with condition) and, when an exclusive start key
    is given, sort key strictly below it.
  */
  function Candidates<V>(m: map<Key, V>, pk: string, prefix: string, start: Option<Key>): (c: set<Key>)
    ensures forall k :: k in c <==> k in m && k.pk == pk && HasPrefix(k.sk, prefix) &&
                                    (start.Some? ==> Less(k.sk, start.value.sk))
  {
    set k | k in m && k.pk == pk && HasPrefix(k.sk, prefix) && (start.Some? ==> Less(k.sk, start.value.sk))
  }

  /** Highest sort key first, no two keys equal. */
  predicate DescendingBySortKey(keys: seq<Key>) {
    forall i, j :: 0 <= i < j < |keys| ==> Less(keys[j].sk, keys[i].sk)
  }

  /**
    `keys` is what a descending query over `cands` returns: candidates only, highest
    first, with no candidate skipped (every candidate left out sorts below every one
    returned), and as many as the limit allows.
  */
  predicate IsPage(cands: set<Key>, limit: Option<nat>, keys: seq<Key>) {
    && (forall i :: 0 <= i < |keys| ==> keys[i] in cands)
    && DescendingBySortKey(keys)
    && (forall k, i :: k in cands && k !in keys && 0 <= i < |keys| ==> Less(k.sk, keys[i].sk))
    && |keys| == (if limit.Some? then Min(limit.value, |cands|) else |cands|)
  }

  /** The items stored under `keys`, in the order of the keys. */
  function ItemsAt<V>(m: map<Key, V>, keys: seq<Key>): (items: seq<V>)
    requires forall i :: 0 <= i < |keys| ==> keys[i] in m
    ensures |items| == |keys| && forall i :: 0 <= i < |keys| ==> items[i] == m[keys[i]]
  {
    seq(|keys|, i requires 0 <= i < |keys| => m[keys[i]])
  }

  /** One page of a query and, when the limit stopped it, the key to resume after. */
  datatype Page = Page(keys: seq<Key>, lastEvaluated: Option<Key>)

  /** A finite set of keys of one partition has a key with the highest sort key. */
  lemma {:induction false} HighestExists(s: set<Key>, pk: string)
    requires s != {} && forall k :: k in s ==> k.pk == pk
    ensures exists top :: top in s && forall k :: k in s && k != top ==> Less(k.sk, top.sk)
    decreases |s|
  {
    var x :| x in s;
    var rest := s - {x};
    if rest == {} {
      assert s == {x};
    } else {
      HighestExists(rest, pk);
      var t :| t in rest && forall k :: k in rest && k != t ==> Less(k.sk, t.sk);
      LessTotal(x.sk, t.sk);
      if Less(x.sk, t.sk) {
        assert forall k :: k in s && k != t ==> Less(k.sk, t.sk);
      } else {
        forall k | k in s && k != x
          ensures Less(k.sk, x.sk)
        {
          if k != t {
            LessTransitive(k.sk, t.sk, x.sk);
          }
        }
      }
    }
  }

  /**
    The progress of taking keys highest first: `keys` are taken from `cands`, in
    descending order, above every key still `remaining`, and together they are all of
    `cands`.
  */
  ghost predicate Taking(cands: set<Key>, remaining: set<Key>, keys: seq<Key>) {
    && remaining <= cands
    && (forall i :: 0 <= i < |keys| ==> keys[i] in cands && keys[i] !in remaining)
    && (forall k :: k in cands && k !in remaining ==> k in keys)
    && |keys| + |remaining| == |cands|
    && DescendingBySortKey(keys)
    && (forall k, i :: k in remaining && 0 <= i < |keys| ==> Less(k.sk, keys[i].sk))
  }

  /** Taking the highest remaining key keeps Taking. */
  lemma TakeHighest(cands: set<Key>, remaining: set<Key>, keys: seq<Key>, top: Key)
    requires Taking(cands, remaining, keys)
    requires top in remaining && forall k :: k in remaining && k != top ==> Less(k.sk, top.sk)
    ensures Taking(cands, remaining - {top}, keys + [top])
  {
    assert |remaining - {top}| == |remaining| - 1;
  }

  /** Takes keys of one partition highest first until `limit` are taken or none are left. */
  method TakeDescending(cands: set<Key>, pk: string, limit: Option<nat>) returns (keys: seq<Key>)
    requires forall k :: k in cands ==> k.pk == pk
    ensures IsPage(cands, limit, keys)
  {
    var remaining := cands;
    keys := [];
    while remaining != {} && (limit.None? || |keys| < limit.value)
      invariant Taking(cands, remaining, keys)
      invariant limit.Some? ==> |keys| <= limit.value
      decreases |remaining|
    {
      HighestExists(remaining, pk);
      var top :| top in remaining && forall k :: k in remaining && k != top ==> Less(k.sk, top.sk);
      TakeHighest(cands, remaining, keys, top);
      keys := keys + [top];
      remaining := remaining - {top};
    }
  }

  /**
    Query(KeyConditionExpression on `pk` [and begins_with(SK, prefix)],
    ScanIndexForward = false, Limit, ExclusiveStartKey). A Limit below 1 is rejected
    by the store; otherwise the page holds the highest keys below the start key, and
    the last of them is handed back as LastEvaluatedKey when the limit was reached.
    The store's 1 MB page cut and its rejection of a start key from another partition
    are not modelled.
  */
  method Query<V>(m: map<Key, V>, pk: string, prefix: string, start: Option<Key>, limit: Option<int>)
    returns (r: Result<Page>)
    ensures r.Err? <==> limit.Some? && limit.value < 1
    ensures r.Err? ==> r.error == InvalidInput
    ensures r.Ok? ==> IsPage(Candidates(m, pk, prefix, start), if limit.Some? then Some(limit.value as nat) else None, r.value.keys)
    ensures r.Ok? ==> r.value.lastEvaluated ==
                        (if limit.Some? && |r.value.keys| == limit.value then Some(r.value.keys[|r.value.keys| - 1]) else None)
  {
    if limit.Some? && limit.value < 1 {
      return Err(InvalidInput);
    }
    var bound := if limit.Some? then Some(limit.value as nat) else None;
    var keys := TakeDescending(Candidates(m, pk, prefix, start), pk, bound);
    var last := if limit.Some? && |keys| == limit.value then Some(keys[|keys| - 1]) else None;
    return Ok(Page(keys, last));
  }
}
