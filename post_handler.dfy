/**
  The feed endpoint of the post handler (GetFeedPosts in
  backend/internal/handler/post_handler.go), with the HTTP plumbing taken away: who
  asks, the path and query parameters in, a response out.

  The follow feed is read from the feed repository. When it is sparse, it is backfilled
  with recommended post ids the reader has not seen yet. The candidate posts are then
  hydrated from the post repository, enriched with author names (one lookup per
  distinct author) and the viewer's likes, and put back into candidate order. The
  recommendation source is the parameter `recs`: its ranked post ids, or None when it
  fails. The user lookup is `users`, as in the post service.
*/
module PostHandler {
  import opened Wrappers
  import opened Text
  import opened Keys
  import opened Chunking
  import opened Store
  import opened Sorting
  import opened Cursor
  import opened PostRepository
  import opened FeedRepository
  import opened PostService

  /** Below this many feed ids the feed is backfilled with recommendations. */
  const FeedThreshold: int := 10
  /** Backfill stops once the candidate list reaches this length. */
  const FeedTotalTarget: int := 20
  /** How many recommendations are requested for a backfill. */
  const RecommendationLookout: int := 50
  /** The limit when the request gives none. */
  const DefaultLimit: string := "20"
  /** The name shown when an author's lookup fails. */
  const UnknownAuthor: string := "未知的使用者"

  const TwoTo31: int := 0x8000_0000
  const TwoTo32: int := 0x1_0000_0000

  /** What the endpoint answers: 401, 400, 500, or 200 with the posts and the cursor of the next page. */
  datatype FeedResponse = Unauthorized | BadRequest | ServerError | FeedPage(data: seq<PostFeedDTO>, nextKey: string)

  /** The conversion int32(x): the low 32 bits, read as a two's-complement number. */
  function Int32Wrap(x: int): (y: int)
    ensures -TwoTo31 <= y < TwoTo31
    ensures (y - x) % TwoTo32 == 0
    ensures -TwoTo31 <= x < TwoTo31 ==> y == x
  {
    (x + TwoTo31) % TwoTo32 - TwoTo31
  }

  /** The page size the feed is queried with: the "limit" parameter (default "20") through Atoi, errors ignored, then int32. */
  function FeedLimit(param: Option<string>): int {
    Int32Wrap(AtoiIgnoringError(param.GetOr(DefaultLimit)))
  }

  /** A request without a limit asks for 20 feed items. */
  lemma DefaultFeedLimit()
    ensures FeedLimit(None) == 20
  {
    assert NatToDecimal(2) == "2";
    assert NatToDecimal(20) == NatToDecimal(2) + [DigitChar(0)];
    assert IntToDecimal(20) == DefaultLimit;
    ParseIntOfDecimal(20);
  }

  /** Any limit from 1 to 2^31-1, written in decimal, is queried as given. */
  lemma DecimalLimitKept(n: nat)
    requires 1 <= n < TwoTo31
    ensures FeedLimit(Some(IntToDecimal(n))) == n
  {
    ParseIntOfDecimal(n);
  }

  /** A limit of 2^31 or more that still fits in int64 wraps: 2^32 + n, for instance, is queried as n. */
  lemma WrappedLimit(n: nat)
    requires n < TwoTo31
    ensures FeedLimit(Some(IntToDecimal(TwoTo32 + n))) == n
  {
    ParseIntOfDecimal(TwoTo32 + n);
  }

  /** The post ids of the feed items, in feed order. */
  function FeedIDs(items: seq<UserFeedItem>): (ids: seq<string>)
    ensures |ids| == |items| && forall i :: 0 <= i < |items| ==> ids[i] == items[i].postID
  {
    seq(|items|, i requires 0 <= i < |items| => items[i].postID)
  }

  /** The recommendations requested: the source's first RecommendationLookout ids. */
  function Lookout(recs: seq<string>): (r: seq<string>)
    ensures |r| <= RecommendationLookout && forall x :: x in r ==> x in recs
  {
    recs[..Min(|recs|, RecommendationLookout)]
  }

  /**
    Backfilling `ids` from `recs`: each recommendation not already listed is appended,
    and the list is closed as soon as an append brings it to FeedTotalTarget.
  */
  function Backfill(ids: seq<string>, recs: seq<string>): (r: seq<string>)
    ensures |ids| <= |r| && r[..|ids|] == ids
    ensures forall i :: |ids| <= i < |r| ==> r[i] in recs && r[i] !in ids
    ensures forall i, j :: |ids| <= i < j < |r| ==> r[i] != r[j]
    ensures |ids| < FeedTotalTarget ==> |r| <= FeedTotalTarget
    ensures |r| < FeedTotalTarget ==> forall x :: x in recs ==> x in r
    decreases |recs|
  {
    if recs == [] then ids
    else if recs[0] in ids then Backfill(ids, recs[1..])
    else if |ids| + 1 >= FeedTotalTarget then ids + [recs[0]]
    else
      var r := Backfill(ids + [recs[0]], recs[1..]);
      assert (ids + [recs[0]])[..|ids|] == ids;
      assert r[|ids|] == recs[0];
      r
  }

  /**
    The candidate post ids: the feed's ids in feed order, then — only when there are
    fewer than FeedThreshold of them and the recommendations could be fetched — the
    backfill. The feed's own ids are never filtered, even when they repeat.
  */
  function FeedCandidates(feed: seq<string>, recs: Option<seq<string>>): (ids: seq<string>)
    ensures |feed| <= |ids| && ids[..|feed|] == feed
    ensures recs.None? || |feed| >= FeedThreshold ==> ids == feed
    ensures forall i :: |feed| <= i < |ids| ==> recs.Some? && ids[i] in Lookout(recs.value) && ids[i] !in feed
    ensures forall i, j :: |feed| <= i < j < |ids| ==> ids[i] != ids[j]
    ensures |feed| < FeedThreshold ==> |ids| <= FeedTotalTarget
    ensures |feed| < FeedThreshold && recs.Some? && |ids| < FeedTotalTarget ==>
              forall x :: x in Lookout(recs.value) ==> x in ids
  {
    if |feed| < FeedThreshold && recs.Some? then Backfill(feed, Lookout(recs.value)) else feed
  }

  /** The candidate loop: collects the feed's ids and a seen-set, then backfills while the list is short. */
  method CollectCandidates(items: seq<UserFeedItem>, recs: Option<seq<string>>) returns (ids: seq<string>)
    ensures ids == FeedCandidates(FeedIDs(items), recs)
  {
    ids := [];
    var seen: map<string, bool> := map[];
    for i := 0 to |items|
      invariant |ids| == i && forall j :: 0 <= j < i ==> ids[j] == items[j].postID
      invariant forall id :: id in seen <==> id in ids
    {
      ids := ids + [items[i].postID];
      seen := seen[items[i].postID := true];
    }
    assert ids == FeedIDs(items);
    if |ids| < FeedThreshold && recs.Some? {
      var lookout := recs.value[..Min(|recs.value|, RecommendationLookout)];
      ghost var feed := ids;
      var j := 0;
      while j < |lookout|
        invariant 0 <= j <= |lookout| && |ids| < FeedTotalTarget
        invariant Backfill(ids, lookout[j..]) == Backfill(feed, lookout)
        invariant forall id :: id in seen <==> id in ids
      {
        var rec := lookout[j];
        assert lookout[j..][0] == rec && lookout[j..][1..] == lookout[j + 1..];
        if rec !in seen {
          ids := ids + [rec];
          seen := seen[rec := true];
          if |ids| >= FeedTotalTarget {
            break;
          }
        }
        j := j + 1;
      }
    }
  }

  /** The name shown for an author in the feed: the username, or UnknownAuthor when the lookup fails. */
  function FeedAuthorName(users: UserDirectory, authorID: string): string {
    var id := ParseUintIgnoringError(authorID);
    if id in users.usernames then users.usernames[id] else UnknownAuthor
  }

  /** One author through the cache: a hit reuses the name, a miss looks the user up and remembers the name. */
  method LookupAuthor(cache: map<string, string>, authorID: string, users: UserDirectory)
    returns (name: string, cache': map<string, string>)
    requires forall a :: a in cache ==> cache[a] == FeedAuthorName(users, a)
    ensures name == FeedAuthorName(users, authorID)
    ensures cache' == cache[authorID := name]
  {
    if authorID in cache {
      name := cache[authorID];
      cache' := cache;
    } else {
      var id := ParseUintIgnoringError(authorID);
      if id in users.usernames {
        name := users.usernames[id];
      } else {
        name := UnknownAuthor;
      }
      cache' := cache[authorID := name];
    }
  }

  /**
    The enrichment loop with its author cache: every post becomes a DTO with its author's
    name and the viewer's like, and `lookups` lists the author ids looked up, in order —
    each distinct author exactly once.
  */
  method PresentAll(posts: seq<Post>, liked: map<string, bool>, users: UserDirectory)
    returns (dtos: seq<PostFeedDTO>, ghost lookups: seq<string>)
    ensures |dtos| == |posts|
    ensures forall i :: 0 <= i < |posts| ==> dtos[i] == Enriched(posts[i], liked, users)
    ensures forall a :: a in lookups <==> exists i :: 0 <= i < |posts| && posts[i].authorID == a
    ensures forall p, q :: 0 <= p < q < |lookups| ==> lookups[p] != lookups[q]
  {
    var cache: map<string, string> := map[];
    dtos, lookups := [], [];
    for i := 0 to |posts|
      invariant |dtos| == i
      invariant forall j :: 0 <= j < i ==> dtos[j] == Enriched(posts[j], liked, users)
      invariant AuthorCache(posts, i, users, cache, lookups)
    {
      var post := posts[i];
      ghost var before, cacheBefore := lookups, cache;
      if post.authorID !in cache {
        lookups := lookups + [post.authorID];
      }
      var authorName;
      authorName, cache := LookupAuthor(cache, post.authorID, users);
      CacheStep(posts, i, users, cacheBefore, before, cache, lookups);
      var dto := Present(post, authorName, LikedIn(liked, post.postID));
      assert dto == Enriched(posts[i], liked, users);
      dtos := dtos + [dto];
    }
  }

  /** A feed DTO for a post: the post with its author's feed name and the viewer's like. */
  function Enriched(post: Post, liked: map<string, bool>, users: UserDirectory): PostFeedDTO {
    Present(post, FeedAuthorName(users, post.authorID), LikedIn(liked, post.postID))
  }

  /**
    The author cache after the first `i` posts: it holds the feed name of every author
    looked up, and `lookups` lists those authors in order, each once, exactly the authors
    of the first `i` posts.
  */
  ghost predicate AuthorCache(posts: seq<Post>, i: nat, users: UserDirectory, cache: map<string, string>, lookups: seq<string>)
    requires i <= |posts|
  {
    && (forall a :: a in cache ==> cache[a] == FeedAuthorName(users, a))
    && (forall a :: a in cache <==> a in lookups)
    && (forall a :: a in lookups <==> exists j :: 0 <= j < i && posts[j].authorID == a)
    && (forall p, q :: 0 <= p < q < |lookups| ==> lookups[p] != lookups[q])
  }

  /** One post through the cache keeps AuthorCache: a new author is looked up and appended, a known one is not. */
  lemma CacheStep(posts: seq<Post>, i: nat, users: UserDirectory, cacheBefore: map<string, string>, before: seq<string>,
                  cache: map<string, string>, lookups: seq<string>)
    requires i < |posts| && AuthorCache(posts, i, users, cacheBefore, before)
    requires cache == cacheBefore[posts[i].authorID := FeedAuthorName(users, posts[i].authorID)]
    requires lookups == if posts[i].authorID in cacheBefore then before else before + [posts[i].authorID]
    ensures AuthorCache(posts, i + 1, users, cache, lookups)
  {
  }

  /** Where postOrder puts an id: its last index among the candidates, or 0 when it is not one. */
  function CandidateIndex(ids: seq<string>, id: string): (k: nat)
    ensures id in ids ==> k < |ids| && ids[k] == id && forall j :: k < j < |ids| ==> ids[j] != id
    ensures id !in ids ==> k == 0
    decreases |ids|
  {
    if ids == [] then 0
    else if ids[|ids| - 1] == id then |ids| - 1
    else CandidateIndex(ids[..|ids| - 1], id)
  }

  /** The postOrder loop: each candidate id mapped to its index, a later occurrence overwriting an earlier one. */
  method BuildOrder(ids: seq<string>) returns (order: map<string, int>)
    ensures forall id :: id in order <==> id in ids
    ensures forall id :: id in order ==> order[id] == CandidateIndex(ids, id)
  {
    order := map[];
    for i := 0 to |ids|
      invariant forall id :: id in order <==> id in ids[..i]
      invariant forall id :: id in order ==> order[id] == CandidateIndex(ids[..i], id)
    {
      assert ids[..i + 1][..i] == ids[..i];
      order := order[ids[i] := i];
    }
    assert ids[..|ids|] == ids;
  }

  /** The reordering: the DTOs sorted by their candidate index, the same DTOs as before. */
  method OrderByCandidates(dtos: seq<PostFeedDTO>, ids: seq<string>) returns (sorted: seq<PostFeedDTO>)
    ensures multiset(sorted) == multiset(dtos)
    ensures forall p, q :: 0 <= p < q < |sorted| ==>
              CandidateIndex(ids, sorted[p].postID) <= CandidateIndex(ids, sorted[q].postID)
  {
    var order := BuildOrder(ids);
    var key := (d: PostFeedDTO) => if d.postID in order then order[d.postID] else 0;
    assert forall d :: key(d) == CandidateIndex(ids, d.postID);
    var a := new PostFeedDTO[|dtos|](i requires 0 <= i < |dtos| => dtos[i]);
    assert a[..] == dtos;
    SortByKey(a, key);
    sorted := a[..];
  }

  /**
    Ordered by candidate index, distinct candidate ids come out strictly in candidate
    order: the output is then a subsequence of the candidate list.
  */
  lemma CandidateOrder(ids: seq<string>, out: seq<string>)
    requires forall i :: 0 <= i < |out| ==> out[i] in ids
    requires forall p, q :: 0 <= p < q < |out| ==> out[p] != out[q]
    requires forall p, q :: 0 <= p < q < |out| ==> CandidateIndex(ids, out[p]) <= CandidateIndex(ids, out[q])
    ensures forall p, q :: 0 <= p < q < |out| ==> CandidateIndex(ids, out[p]) < CandidateIndex(ids, out[q])
    ensures forall p :: 0 <= p < |out| ==> ids[CandidateIndex(ids, out[p])] == out[p]
  {
  }

  class PostHandler {
    const postRepo: DynamoDBPostRepository
    const feedRepo: DynamoDBFeedRepository

    /** NewPostHandler, with the two repositories the feed endpoint reads. */
    constructor (postRepo: DynamoDBPostRepository, feedRepo: DynamoDBFeedRepository)
      ensures this.postRepo == postRepo && this.feedRepo == feedRepo
    {
      this.postRepo := postRepo;
      this.feedRepo := feedRepo;
    }

    /** The DTO shows a post stored under its id, with the feed's author name. */
    ghost predicate FromStore(d: PostFeedDTO, users: UserDirectory)
      reads this, postRepo
    {
      exists p :: p in postRepo.IndexedPosts(d.postID) && d == Present(p, FeedAuthorName(users, p.authorID), d.isLiked)
    }

    /**
      The posts of a feed page for `ids`: the ids that can be fetched, each shown once per
      fetch, in candidate order, each a stored post with its author's feed name; a post
      reads as liked only if the viewer's like is stored, exactly then when the like
      check went through, and never when it failed.
    */
    ghost predicate Hydrated(data: seq<PostFeedDTO>, ids: seq<string>, viewerID: string, users: UserDirectory,
                             fetchOutages: set<string>, likeFailing: set<nat>)
      reads this, postRepo
    {
      && multiset(ShownIDs(data)) == multiset(postRepo.Fetchable(ids, fetchOutages))
      && (forall p, q :: 0 <= p < q < |data| ==> CandidateIndex(ids, data[p].postID) <= CandidateIndex(ids, data[q].postID))
      && (forall i :: 0 <= i < |data| ==> FromStore(data[i], users))
      && (forall i :: 0 <= i < |data| && data[i].isLiked ==> LikeKey(data[i].postID, viewerID) in postRepo.records)
      && ((forall c :: c in likeFailing ==> c >= NumChunks(|ids|, ReadBatchSize)) ==>
            forall i :: 0 <= i < |data| ==> (data[i].isLiked <==> LikeKey(data[i].postID, viewerID) in postRepo.records))
      && ((exists c :: c in likeFailing && c < NumChunks(|ids|, ReadBatchSize)) ==> forall i :: 0 <= i < |data| ==> !data[i].isLiked)
    }

    /** Steps 3 and 4 of the endpoint: hydrate the candidates, check the viewer's likes, enrich and reorder. */
    method Hydrate(ids: seq<string>, viewerID: string, users: UserDirectory, fetchOutages: set<string>, likeFailing: set<nat>)
      returns (data: seq<PostFeedDTO>)
      requires postRepo.Valid()
      ensures Hydrated(data, ids, viewerID, users, fetchOutages, likeFailing)
    {
      var posts := postRepo.GetPostsByIDs(ids, fetchOutages);
      var check;
      ghost var requests;
      check, requests := postRepo.CheckIfPostsLikedBy(ids, viewerID, likeFailing);
      var liked: map<string, bool> := if check.Ok? then check.value else map[];
      var dtos;
      ghost var lookups;
      dtos, lookups := PresentAll(posts, liked, users);
      forall i | 0 <= i < |dtos|
        ensures dtos[i].postID == posts[i].postID
        ensures dtos[i].isLiked ==> LikeKey(dtos[i].postID, viewerID) in postRepo.records
        ensures check.Ok? ==> (dtos[i].isLiked <==> LikeKey(dtos[i].postID, viewerID) in postRepo.records)
        ensures check.Err? ==> !dtos[i].isLiked
      {
        assert posts[i].postID in ids;
      }
      data := OrderByCandidates(dtos, ids);
      ShownPosts(posts, dtos, data, viewerID, users, check.Ok?);
    }

    /**
      A feed page served for a valid request: the page is the user's feed read from
      `start`, at most `limit` items; the candidates are its post ids backfilled from the
      recommendations; no candidates give an empty page with no next_key, and otherwise the
      hydrated candidates with the page's LastEvaluatedKey as next_key.
    */
    ghost predicate Served(resp: FeedResponse, page: PaginatedFeed, feedKeys: seq<Key>, candidates: seq<string>,
                           viewerID: string, userID: string, limit: int, start: Option<Key>, users: UserDirectory,
                           recs: Option<seq<string>>, fetchOutages: set<string>, likeFailing: set<nat>)
      reads this, feedRepo, postRepo
    {
      && resp.FeedPage?
      && limit >= 1
      && IsPage(Store.Candidates(feedRepo.rows, UserPartition(userID), "", start), Some(limit as nat), feedKeys)
      && (forall i :: 0 <= i < |feedKeys| ==> feedKeys[i] in feedRepo.rows)
      && page.items == DecodeAll(ItemsAt(feedRepo.rows, feedKeys))
      && candidates == FeedCandidates(FeedIDs(page.items), recs)
      && (candidates == [] ==> resp == FeedPage([], ""))
      && (candidates != [] ==>
            && resp.nextKey == EncodeNextKey(page.lastEvaluatedKey)
            && page.lastEvaluatedKey == (if |feedKeys| == limit then Some(feedKeys[|feedKeys| - 1]) else None)
            && Hydrated(resp.data, candidates, viewerID, users, fetchOutages, likeFailing))
    }

    /** Steps 1 to 4 of the endpoint once the request is accepted: read the feed page, collect candidates, hydrate. */
    method ServeFeed(viewerID: string, userID: string, limit: int, start: Option<Key>, users: UserDirectory,
                     recs: Option<seq<string>>, feedOutage: bool, fetchOutages: set<string>, likeFailing: set<nat>)
      returns (resp: FeedResponse, ghost page: PaginatedFeed, ghost feedKeys: seq<Key>, ghost candidates: seq<string>)
      requires postRepo.Valid()
      ensures feedOutage || limit < 1 ==> resp == ServerError
      ensures !feedOutage && limit >= 1 ==>
                Served(resp, page, feedKeys, candidates, viewerID, userID, limit, start, users, recs, fetchOutages, likeFailing)
    {
      page, candidates := PaginatedFeed([], None), [];
      var feed;
      feed, feedKeys := feedRepo.GetUserFeed(userID, limit, start, feedOutage);
      if feed.Err? {
        return ServerError, page, feedKeys, candidates;
      }
      var feedPage := feed.value;
      page := feedPage;
      var ids := CollectCandidates(feedPage.items, recs);
      candidates := ids;
      if |ids| == 0 {
        return FeedPage([], ""), page, feedKeys, candidates;
      }
      var data := Hydrate(ids, viewerID, users, fetchOutages, likeFailing);
      resp := FeedPage(data, EncodeNextKey(feedPage.lastEvaluatedKey));
    }

    /**
      GetFeedPosts. `viewer` is the authenticated user id in the request context (None
      when there is none); `limitParam` the "limit" query parameter; `nextKey` the
      "next_key" query parameter ("" when absent). `page` and `feedKeys` are the feed page
      read, `candidates` the candidate ids.
    */
    method GetFeedPosts(viewer: Option<string>, userID: string, limitParam: Option<string>, nextKey: string,
                        users: UserDirectory, recs: Option<seq<string>>,
                        feedOutage: bool, fetchOutages: set<string>, likeFailing: set<nat>)
      returns (resp: FeedResponse, ghost page: PaginatedFeed, ghost feedKeys: seq<Key>, ghost candidates: seq<string>)
      requires postRepo.Valid()
      ensures viewer.None? ==> resp == Unauthorized
      ensures viewer == Some("") ==> resp == ServerError
      ensures viewer.Some? && viewer.value != "" && userID == "" ==> resp == BadRequest
      ensures viewer.Some? && viewer.value != "" && userID != "" && DecodeNextKey(nextKey).Err? ==> resp == BadRequest
      ensures (viewer.Some? && viewer.value != "" && userID != "" && DecodeNextKey(nextKey).Ok?
               && (feedOutage || FeedLimit(limitParam) < 1)) ==> resp == ServerError
      ensures resp.FeedPage? <==> (viewer.Some? && viewer.value != "" && userID != "" && DecodeNextKey(nextKey).Ok?
                                   && !feedOutage && FeedLimit(limitParam) >= 1)
      ensures resp.FeedPage? ==>
                Served(resp, page, feedKeys, candidates, viewer.value, userID, FeedLimit(limitParam),
                       DecodeNextKey(nextKey).value, users, recs, fetchOutages, likeFailing)
    {
      page, feedKeys, candidates := PaginatedFeed([], None), [], [];
      if viewer.None? {
        return Unauthorized, page, feedKeys, candidates;
      }
      var viewerID := viewer.value;
      if viewerID == "" {
        return ServerError, page, feedKeys, candidates;
      }
      if userID == "" {
        return BadRequest, page, feedKeys, candidates;
      }
      var limit := FeedLimit(limitParam);
      var start := DecodeNextKey(nextKey);
      if start.Err? {
        return BadRequest, page, feedKeys, candidates;
      }
      resp, page, feedKeys, candidates := ServeFeed(viewerID, userID, limit, start.value, users, recs,
                                                    feedOutage, fetchOutages, likeFailing);
    }

    /** What the reordering keeps: the ids shown, and where each DTO came from. */
    lemma ShownPosts(posts: seq<Post>, dtos: seq<PostFeedDTO>, sorted: seq<PostFeedDTO>, viewerID: string,
                     users: UserDirectory, likesKnown: bool)
      requires |dtos| == |posts| && multiset(sorted) == multiset(dtos)
      requires forall i :: 0 <= i < |posts| ==> posts[i] in postRepo.IndexedPosts(posts[i].postID)
      requires forall i :: 0 <= i < |posts| ==>
                 dtos[i] == Present(posts[i], FeedAuthorName(users, posts[i].authorID), dtos[i].isLiked)
      requires forall i :: 0 <= i < |dtos| && dtos[i].isLiked ==> LikeKey(dtos[i].postID, viewerID) in postRepo.records
      requires likesKnown ==>
                 forall i :: 0 <= i < |dtos| ==> (dtos[i].isLiked <==> LikeKey(dtos[i].postID, viewerID) in postRepo.records)
      requires !likesKnown ==> forall i :: 0 <= i < |dtos| ==> !dtos[i].isLiked
      ensures multiset(ShownIDs(sorted)) == multiset(PostIDs(posts))
      ensures forall i :: 0 <= i < |sorted| ==> FromStore(sorted[i], users)
      ensures forall i :: 0 <= i < |sorted| && sorted[i].isLiked ==> LikeKey(sorted[i].postID, viewerID) in postRepo.records
      ensures likesKnown ==>
                forall i :: 0 <= i < |sorted| ==> (sorted[i].isLiked <==> LikeKey(sorted[i].postID, viewerID) in postRepo.records)
      ensures !likesKnown ==> forall i :: 0 <= i < |sorted| ==> !sorted[i].isLiked
    {
      forall i | 0 <= i < |sorted|
        ensures FromStore(sorted[i], users)
        ensures sorted[i].isLiked ==> LikeKey(sorted[i].postID, viewerID) in postRepo.records
        ensures likesKnown ==> (sorted[i].isLiked <==> LikeKey(sorted[i].postID, viewerID) in postRepo.records)
        ensures !likesKnown ==> !sorted[i].isLiked
      {
        assert sorted[i] in multiset(dtos);
        var j :| 0 <= j < |dtos| && dtos[j] == sorted[i];
        assert posts[j] in postRepo.IndexedPosts(sorted[i].postID);
      }
      MapPermutation(sorted, dtos, (d: PostFeedDTO) => d.postID);
      assert ShownIDs(dtos) == PostIDs(posts);
    }
  }

  /** The post ids of a page's DTOs, in order. */
  function ShownIDs(data: seq<PostFeedDTO>): (ids: seq<string>)
    ensures |ids| == |data| && forall i :: 0 <= i < |data| ==> ids[i] == data[i].postID
  {
    MapSeq(data, (d: PostFeedDTO) => d.postID)
  }
}
