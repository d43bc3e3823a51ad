/**
  The user feed table (backend/internal/repository/feed_repository_dynamodb.go): one
  item per (follower, post), written in chunked batches by fan-out and read back a page
  at a time, newest first. The repository object stands for the table: `rows` maps each
  primary key to the raw item stored there.
*/
module FeedRepository {
  import opened Wrappers
  import opened Text
  import opened Keys
  import opened Chunking
  import opened Store

  /** A feed entry: the follower's partition, the post's creation time, the post and its author, the expiry. */
  datatype UserFeedItem = UserFeedItem(pk: string, sk: string, postID: string, authorID: string, ttlTimestamp: int)

  datatype PaginatedFeed = PaginatedFeed(items: seq<UserFeedItem>, lastEvaluatedKey: Option<Key>)

  /** attributevalue.MarshalMap of a feed item: string attributes and a numeric TTL. */
  function MarshalFeedItem(item: UserFeedItem): (raw: RawItem)
    ensures KeyOf(raw) == Key(item.pk, item.sk)
  {
    map["PK" := S(item.pk), "SK" := S(item.sk), "PostID" := S(item.postID),
        "AuthorID" := S(item.authorID), "TTLTimestamp" := N(item.ttlTimestamp)]
  }

  function MarshalAll(items: seq<UserFeedItem>): (raws: seq<RawItem>)
    ensures |raws| == |items| && forall i :: 0 <= i < |items| ==> raws[i] == MarshalFeedItem(items[i])
  {
    seq(|items|, i requires 0 <= i < |items| => MarshalFeedItem(items[i]))
  }

  /** The generic decoder accepts the item (every attribute is a value it can represent). */
  predicate Decodable(raw: RawItem) {
    forall a :: a in raw ==> !raw[a].Undecodable?
  }

  /**
    The tolerant TTL decoding: a number is taken as it is, a string holding a signed
    64-bit decimal is parsed, and anything else (an unparseable string, another type,
    a missing attribute) gives 0.
  */
  function DecodeTTL(raw: RawItem): (ttl: int)
    ensures "TTLTimestamp" in raw && raw["TTLTimestamp"].N? ==> ttl == raw["TTLTimestamp"].n
    ensures "TTLTimestamp" in raw && raw["TTLTimestamp"].S? && ParseInt(raw["TTLTimestamp"].s).Some? ==>
              ttl == ParseInt(raw["TTLTimestamp"].s).value
    ensures "TTLTimestamp" in raw && raw["TTLTimestamp"].S? && ParseInt(raw["TTLTimestamp"].s).None? ==> ttl == 0
    ensures !("TTLTimestamp" in raw && (raw["TTLTimestamp"].N? || raw["TTLTimestamp"].S?)) ==> ttl == 0
  {
    if "TTLTimestamp" !in raw then 0
    else
      match raw["TTLTimestamp"]
      case N(n) => n
      case S(s) => ParseInt(s).GetOr(0)
      case _ => 0
  }

  /** One item of a feed page: None when the generic decoder rejects it, else its string fields and TTL. */
  function DecodeFeedItem(raw: RawItem): Option<UserFeedItem> {
    if !Decodable(raw) then None
    else Some(UserFeedItem(StringAttr(raw, "PK"), StringAttr(raw, "SK"), StringAttr(raw, "PostID"),
                           StringAttr(raw, "AuthorID"), DecodeTTL(raw)))
  }

  /** Decoding what fan-out writes gives the feed item back. */
  lemma DecodeMarshalled(item: UserFeedItem)
    ensures DecodeFeedItem(MarshalFeedItem(item)) == Some(item)
  {
    var raw := MarshalFeedItem(item);
    assert Decodable(raw);
  }

  /** The items of a page in order, with the ones the decoder rejects skipped. */
  function DecodeAll(raws: seq<RawItem>): (items: seq<UserFeedItem>)
    ensures |items| <= |raws|
    decreases |raws|
  {
    if raws == [] then []
    else
      DecodeAll(raws[..|raws| - 1]) +
      match DecodeFeedItem(raws[|raws| - 1]) case Some(item) => [item] case None => []
  }

  /** Nothing fan-out wrote is skipped: reading marshalled items back gives them all, in order. */
  lemma {:induction false} DecodeAllMarshalled(items: seq<UserFeedItem>)
    ensures DecodeAll(MarshalAll(items)) == items
    decreases |items|
  {
    if items != [] {
      var n := |items| - 1;
      assert MarshalAll(items)[..n] == MarshalAll(items[..n]);
      DecodeAllMarshalled(items[..n]);
      DecodeMarshalled(items[n]);
      assert items == items[..n] + [items[n]];
    }
  }

  /** The unmarshal loop over a page: the items under `page`, in order, skipping those the decoder rejects. */
  method DecodePage(m: map<Key, RawItem>, page: seq<Key>) returns (items: seq<UserFeedItem>)
    requires forall i :: 0 <= i < |page| ==> page[i] in m
    ensures items == DecodeAll(ItemsAt(m, page))
  {
    ghost var raws := ItemsAt(m, page);
    items := [];
    for i := 0 to |page|
      invariant items == DecodeAll(raws[..i])
    {
      assert raws[..i + 1][..i] == raws[..i];
      var decoded := DecodeFeedItem(m[page[i]]);
      if decoded.None? {
        continue;
      }
      items := items + [decoded.value];
    }
    assert raws[..|page|] == raws;
  }

  class DynamoDBFeedRepository {
    var rows: map<Key, RawItem>

    constructor ()
      ensures rows == map[]
    {
      rows := map[];
    }

    /**
      BatchAddToFeed: marshals every item first (any failure returns before a write),
      then writes them in BatchWriteItem chunks of at most 25, stopping at the first
      chunk the store rejects. `unmarshalable` are the items whose marshalling fails,
      `failing` the chunks the store rejects; `batches` are the requests sent.
    */
    method BatchAddToFeed(items: seq<UserFeedItem>, unmarshalable: set<nat>, failing: set<nat>)
      returns (o: Outcome, ghost batches: seq<seq<RawItem>>)
      modifies this
      ensures items == [] ==> o == Success && batches == [] && rows == old(rows)
      ensures (exists i :: 0 <= i < |items| && i in unmarshalable) ==>
                o == Failure(MarshalFailed) && batches == [] && rows == old(rows)
      ensures (forall i :: 0 <= i < |items| ==> i !in unmarshalable) ==>
                && ChunkedWrite(old(rows), rows, MarshalAll(items), failing, o.Success?, batches)
                && (o.Failure? ==> o.error == BatchWriteFailed)
    {
      batches := [];
      if |items| == 0 {
        return Success, batches;
      }
      var reqs := new RawItem[|items|](_ => map[]);
      for i := 0 to |items|
        invariant rows == old(rows)
        invariant forall j :: 0 <= j < i ==> reqs[j] == MarshalFeedItem(items[j]) && j !in unmarshalable
      {
        if i in unmarshalable {
          return Failure(MarshalFailed), batches;
        }
        reqs[i] := MarshalFeedItem(items[i]);
      }
      assert reqs[..] == MarshalAll(items);
      var after, ok;
      after, ok, batches := WriteInChunks(rows, reqs[..], failing);
      rows := after;
      return if ok then Success else Failure(BatchWriteFailed), batches;
    }

    /**
      GetUserFeed: one page of partition "USER#"+userID, newest first, at most `limit`
      items after `start`; items the decoder rejects are skipped, and the page's
      LastEvaluatedKey is passed back unchanged. `keys` are the keys the query returned.
    */
    method GetUserFeed(userID: string, limit: int, start: Option<Key>, outage: bool)
      returns (r: Result<PaginatedFeed>, ghost keys: seq<Key>)
      ensures r.Err? <==> outage || limit < 1
      ensures r.Ok? ==> IsPage(Candidates(rows, UserPartition(userID), "", start), Some(limit as nat), keys)
      ensures r.Ok? ==> (forall i :: 0 <= i < |keys| ==> keys[i] in rows) &&
                        r.value.items == DecodeAll(ItemsAt(rows, keys))
      ensures r.Ok? ==> |r.value.items| <= |keys| <= limit
      ensures r.Ok? ==> r.value.lastEvaluatedKey == (if |keys| == limit then Some(keys[|keys| - 1]) else None)
    {
      keys := [];
      if outage {
        return Err(Unavailable), keys;
      }
      var q := Query(rows, UserPartition(userID), "", start, Some(limit));
      if q.Err? {
        return Err(q.error), keys;
      }
      keys := q.value.keys;
      var items := DecodePage(rows, q.value.keys);
      return Ok(PaginatedFeed(items, q.value.lastEvaluated)), keys;
    }
  }
}
