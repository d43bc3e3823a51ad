/**
  The post service (backend/internal/service/post_service.go): the layer between the
  HTTP handlers and the repositories. It completes posts and comments, fans a new post
  out to the author's followers' feeds, shapes posts for the client, and checks that a
  post (or comment) exists — and who owns a comment — before delegating a change.

  The user repository is a parameter, `users`: a username and a follower list per
  numeric user id, where an id without an entry is a lookup that fails. The fan-out's
  clock is the parameter `clock` (Unix seconds); store failures are the `...Outage`
  and `...Failing` parameters, as in the repositories.
*/
module PostService {
  import opened Wrappers
  import opened Text
  import opened Keys
  import opened Chunking
  import opened Store
  import opened PostRepository
  import opened FeedRepository

  datatype UserDirectory = UserDirectory(usernames: map<nat, string>, followers: map<nat, seq<nat>>)

  /** Feed entries expire 90 days after the fan-out. */
  const FeedTTLSeconds: int := 90 * 24 * 60 * 60

  /** models.PostFeedDTO: a post as the client receives it. */
  datatype PostFeedDTO = PostFeedDTO(
    postID: string, authorID: string, authorName: string, content: string,
    media: seq<MediaItem>, tags: seq<string>, location: Option<Location>,
    likeCount: int, commentCount: int, createdAt: string, updatedAt: string, isLiked: bool)

  /** The post's own fields, with the author's display name and the viewer's like. */
  function Present(p: Post, authorName: string, isLiked: bool): PostFeedDTO {
    PostFeedDTO(p.postID, p.authorID, authorName, p.content, p.media, p.tags, p.location,
                p.likeCount, p.commentCount, p.createdAt, p.updatedAt, isLiked)
  }

  /**
    The display name of an author: the username, or "User ID: " and the raw id when the
    lookup fails. The id is parsed with its error ignored, so text that is not a number
    is looked up as user 0.
  */
  function AuthorName(users: UserDirectory, authorID: string): string {
    var id := ParseUintIgnoringError(authorID);
    if id in users.usernames then users.usernames[id] else "User ID: " + authorID
  }

  /** Reading a liked-status map: a post id it lacks reads as false. */
  function LikedIn(liked: map<string, bool>, postID: string): bool {
    postID in liked && liked[postID]
  }

  /** An author id written in decimal finds its own user. */
  lemma AuthorNameOfDecimal(users: UserDirectory, n: nat)
    requires n < TwoTo64 && n in users.usernames
    ensures AuthorName(users, NatToDecimal(n)) == users.usernames[n]
  {
    ParseUintOfDecimal(n);
  }

  /** The followers fan-out reaches: none when the author id does not parse or the follower lookup fails. */
  function FollowersToReach(post: Post, users: UserDirectory): seq<nat> {
    match ParseUint(post.authorID)
    case None => []
    case Some(id) => if id in users.followers then users.followers[id] else []
  }

  /** The key of a follower's feed entry for a post: the follower's partition ("USER#%d"), sorted by the post's creation time. */
  function FeedKey(post: Post, follower: nat): Key {
    Key(UserPartition(NatToDecimal(follower)), post.createdAt)
  }

  /** The feed entry fan-out writes for one follower. */
  function FeedItemFor(post: Post, follower: nat, ttl: int): (item: UserFeedItem)
    ensures Key(item.pk, item.sk) == FeedKey(post, follower)
  {
    UserFeedItem(UserPartition(NatToDecimal(follower)), post.createdAt, post.postID, post.authorID, ttl)
  }

  function FanOutItems(post: Post, followers: seq<nat>, ttl: int): (items: seq<UserFeedItem>)
    ensures |items| == |followers| && forall i :: 0 <= i < |followers| ==> items[i] == FeedItemFor(post, followers[i], ttl)
  {
    seq(|followers|, i requires 0 <= i < |followers| => FeedItemFor(post, followers[i], ttl))
  }

  /** Two followers share a feed key only when they are the same follower. */
  lemma FeedKeyInjective(post: Post, f: nat, g: nat)
    requires FeedKey(post, f) == FeedKey(post, g)
    ensures f == g
  {
    TaggedInjective(UserTag, NatToDecimal(f), NatToDecimal(g));
    DigitsValueOfDecimal(f);
    DigitsValueOfDecimal(g);
  }

  /** Once fan-out's writes are all in, every follower's feed holds that follower's entry for the post. */
  lemma FanOutDelivers(rows: map<Key, RawItem>, post: Post, followers: seq<nat>, ttl: int, f: nat)
    requires f in followers
    ensures FeedKey(post, f) in PutAll(rows, MarshalAll(FanOutItems(post, followers, ttl)))
    ensures PutAll(rows, MarshalAll(FanOutItems(post, followers, ttl)))[FeedKey(post, f)]
              == MarshalFeedItem(FeedItemFor(post, f, ttl))
  {
    var items := FanOutItems(post, followers, ttl);
    var raws := MarshalAll(items);
    forall p, q | 0 <= p < |raws| && 0 <= q < |raws| && KeyOf(raws[p]) == KeyOf(raws[q])
      ensures raws[p] == raws[q]
    {
      FeedKeyInjective(post, followers[p], followers[q]);
    }
    var i :| 0 <= i < |followers| && followers[i] == f;
    PutAllConsistent(rows, raws, i);
  }

  /** Fan-out writes nowhere but the followers' feed keys for the post. */
  lemma FanOutLeavesOthers(rows: map<Key, RawItem>, post: Post, followers: seq<nat>, ttl: int, k: Key)
    requires forall f :: f in followers ==> k != FeedKey(post, f)
    ensures k in PutAll(rows, MarshalAll(FanOutItems(post, followers, ttl))) <==> k in rows
    ensures k in rows ==> PutAll(rows, MarshalAll(FanOutItems(post, followers, ttl)))[k] == rows[k]
  {
    var raws := MarshalAll(FanOutItems(post, followers, ttl));
    PutAllContents(rows, raws, k);
    assert forall i :: 0 <= i < |raws| ==> KeyOf(raws[i]) == FeedKey(post, followers[i]);
  }

  /**
    What a fan-out did to the feed table: nothing when there is no follower to reach;
    otherwise one feed entry per follower, in the follower list's order, handed to the
    feed repository's chunked batch write (`succeeded` and `batches` are its outcome).
  */
  ghost predicate FannedOut(before: map<Key, RawItem>, after: map<Key, RawItem>, post: Post, users: UserDirectory,
                            ttl: int, failing: set<nat>, sent: seq<UserFeedItem>, succeeded: bool, batches: seq<seq<RawItem>>)
  {
    var followers := FollowersToReach(post, users);
    && (followers == [] ==> sent == [] && after == before && batches == [])
    && (followers != [] ==> sent == FanOutItems(post, followers, ttl)
                            && ChunkedWrite(before, after, MarshalAll(sent), failing, succeeded, batches))
  }

  class PostService {
    const postRepo: DynamoDBPostRepository
    const feedRepo: DynamoDBFeedRepository

    /** NewPostService. */
    constructor (postRepo: DynamoDBPostRepository, feedRepo: DynamoDBFeedRepository)
      ensures this.postRepo == postRepo && this.feedRepo == feedRepo
    {
      this.postRepo := postRepo;
      this.feedRepo := feedRepo;
    }

    /**
      CreatePost: a post with the payload's author, content, media, tags and location,
      completed and stored by the repository, then fanned out. The fan-out runs in its
      own goroutine and its outcome never reaches the caller; here it runs to completion
      before the method returns.
    */
    method CreatePost(authorID: string, content: string, media: seq<MediaItem>, tags: seq<string>,
                      location: Option<Location>, now: string, newID: string, outage: bool,
                      users: UserDirectory, clock: int, failing: set<nat>)
      returns (r: Result<Post>, ghost sent: seq<UserFeedItem>, ghost succeeded: bool, ghost batches: seq<seq<RawItem>>)
      requires postRepo.Valid()
      modifies postRepo, feedRepo
      ensures postRepo.Valid()
      ensures r.Err? <==> outage
      ensures r.Err? ==> r.error == Unavailable && postRepo.records == old(postRepo.records)
                         && feedRepo.rows == old(feedRepo.rows)
      ensures r.Ok? ==> && r.value.authorID == authorID && r.value.content == content && r.value.media == media
                        && r.value.tags == tags && r.value.location == location
                        && r.value.likeCount == 0 && r.value.commentCount == 0
                        && r.value.postID == newID && r.value.createdAt == now
      ensures r.Ok? ==> postRepo.records == old(postRepo.records)[Key(r.value.pk, r.value.sk) := PostItem(r.value)]
      ensures r.Ok? ==> FannedOut(old(feedRepo.rows), feedRepo.rows, r.value, users, clock + FeedTTLSeconds,
                                  failing, sent, succeeded, batches)
    {
      var draft := Post("", "", "", "", "", "", authorID, content, media, tags, location, 0, 0, "", "");
      r := postRepo.CreatePost(draft, now, newID, outage);
      sent, succeeded, batches := [], false, [];
      if r.Ok? {
        sent, succeeded, batches := FanOutToFollowers(r.value, users, clock, failing);
      }
    }

    /**
      fanOutToFollowers: looks up the author's followers and writes one feed entry per
      follower, expiring FeedTTLSeconds after `clock`, in one batched write. Failures are
      only logged, so they show here as the ghost outcome and nothing else. When the
      write goes through, every follower's feed holds the post.
    */
    method FanOutToFollowers(post: Post, users: UserDirectory, clock: int, failing: set<nat>)
      returns (ghost sent: seq<UserFeedItem>, ghost succeeded: bool, ghost batches: seq<seq<RawItem>>)
      modifies feedRepo
      ensures FannedOut(old(feedRepo.rows), feedRepo.rows, post, users, clock + FeedTTLSeconds, failing, sent, succeeded, batches)
      ensures succeeded && sent != [] ==> forall f :: f in FollowersToReach(post, users) ==>
                FeedKey(post, f) in feedRepo.rows
                && feedRepo.rows[FeedKey(post, f)] == MarshalFeedItem(FeedItemFor(post, f, clock + FeedTTLSeconds))
    {
      sent, succeeded, batches := [], false, [];
      var author := ParseUint(post.authorID);
      if author.None? {
        return;
      }
      if author.value !in users.followers {
        return;
      }
      var followers := users.followers[author.value];
      if |followers| == 0 {
        return;
      }
      var ttl := clock + FeedTTLSeconds;
      var items: seq<UserFeedItem> := [];
      for i := 0 to |followers|
        invariant |items| == i
        invariant forall j :: 0 <= j < i ==> items[j] == FeedItemFor(post, followers[j], ttl)
      {
        items := items + [FeedItemFor(post, followers[i], ttl)];
      }
      assert items == FanOutItems(post, followers, ttl);
      ghost var before := feedRepo.rows;
      var o;
      o, batches := feedRepo.BatchAddToFeed(items, {}, failing);
      sent, succeeded := items, o.Success?;
      forall f | f in followers && succeeded
        ensures FeedKey(post, f) in feedRepo.rows
        ensures feedRepo.rows[FeedKey(post, f)] == MarshalFeedItem(FeedItemFor(post, f, ttl))
      {
        FanOutDelivers(before, post, followers, ttl, f);
      }
    }

    /**
      The viewer's likes among `posts`: none for an anonymous viewer, none when the check
      fails, and otherwise each post id mapped to whether the viewer's like is stored.
    */
    method ViewerLikes(posts: seq<Post>, viewerID: string, likeFailing: set<nat>) returns (liked: map<string, bool>)
      ensures forall id :: id in liked && liked[id] ==> viewerID != "" && LikeKey(id, viewerID) in postRepo.records
      ensures viewerID != "" && (forall c :: c in likeFailing ==> c >= NumChunks(|posts|, ReadBatchSize)) ==>
                forall j :: 0 <= j < |posts| ==>
                  posts[j].postID in liked && (liked[posts[j].postID] <==> LikeKey(posts[j].postID, viewerID) in postRepo.records)
      ensures (exists c :: c in likeFailing && c < NumChunks(|posts|, ReadBatchSize)) ==> liked == map[]
    {
      liked := map[];
      if viewerID != "" && |posts| > 0 {
        var ids: seq<string> := [];
        for i := 0 to |posts|
          invariant |ids| == i && forall j :: 0 <= j < i ==> ids[j] == posts[j].postID
        {
          ids := ids + [posts[i].postID];
        }
        var check;
        ghost var requests;
        check, requests := postRepo.CheckIfPostsLikedBy(ids, viewerID, likeFailing);
        if check.Ok? {
          liked := check.value;
          forall j | 0 <= j < |posts|
            ensures posts[j].postID in liked
          {
            assert ids[j] == posts[j].postID;
          }
        }
      }
    }

    /** The DTO loop: each post with its author's name (or "User ID: " and the id) and the viewer's like. */
    method PresentPosts(posts: seq<Post>, liked: map<string, bool>, users: UserDirectory) returns (dtos: seq<PostFeedDTO>)
      ensures |dtos| == |posts|
      ensures forall j :: 0 <= j < |posts| ==>
                dtos[j] == Present(posts[j], AuthorName(users, posts[j].authorID), LikedIn(liked, posts[j].postID))
    {
      dtos := [];
      for i := 0 to |posts|
        invariant |dtos| == i
        invariant forall j :: 0 <= j < i ==>
                    dtos[j] == Present(posts[j], AuthorName(users, posts[j].authorID), LikedIn(liked, posts[j].postID))
      {
        var authorName: string;
        var id := ParseUintIgnoringError(posts[i].authorID);
        if id in users.usernames {
          authorName := users.usernames[id];
        } else {
          authorName := "User ID: " + posts[i].authorID;
        }
        dtos := dtos + [Present(posts[i], authorName, LikedIn(liked, posts[i].postID))];
      }
    }

    /**
      GetPostsByUserID: the author's posts in the repository's order (newest first),
      each with the author's display name and, for a signed-in viewer, whether the viewer
      liked it. When the like check fails every post reads as not liked.
    */
    method GetPostsByUserID(userID: string, viewerID: string, outage: bool, likeFailing: set<nat>, users: UserDirectory)
      returns (r: Result<seq<PostFeedDTO>>, ghost keys: seq<Key>)
      requires postRepo.Valid()
      ensures r.Err? <==> outage
      ensures r.Err? ==> r.error == Unavailable
      ensures r.Ok? ==> IsPage(Candidates(postRepo.records, UserPartition(userID), PostTag, None), None, keys)
      ensures r.Ok? ==> |r.value| == |keys| && forall i :: 0 <= i < |keys| ==>
                && keys[i] in postRepo.records && postRepo.records[keys[i]].PostItem?
                && r.value[i] == Present(postRepo.records[keys[i]].post,
                                         AuthorName(users, postRepo.records[keys[i]].post.authorID), r.value[i].isLiked)
      ensures r.Ok? ==> forall i :: 0 <= i < |r.value| && r.value[i].isLiked ==>
                viewerID != "" && LikeKey(r.value[i].postID, viewerID) in postRepo.records
      ensures r.Ok? && viewerID != "" && (forall c :: c in likeFailing ==> c >= NumChunks(|keys|, ReadBatchSize)) ==>
                forall i :: 0 <= i < |r.value| ==> (r.value[i].isLiked <==> LikeKey(r.value[i].postID, viewerID) in postRepo.records)
      ensures r.Ok? && (exists c :: c in likeFailing && c < NumChunks(|keys|, ReadBatchSize)) ==>
                forall i :: 0 <= i < |r.value| ==> !r.value[i].isLiked
    {
      var found;
      found, keys := postRepo.GetPostsByUserID(userID, outage);
      if found.Err? {
        return Err(found.error), keys;
      }
      var posts := found.value;
      if |posts| == 0 {
        return Ok([]), keys;
      }
      var liked := ViewerLikes(posts, viewerID, likeFailing);
      var dtos := PresentPosts(posts, liked, users);
      return Ok(dtos), keys;
    }

    /**
      UpdatePost: looks the post up by id (a failed lookup is returned as it is), replaces
      its content and has the repository store the change. The post returned carries the
      new content and the timestamps it was read with.
    */
    method UpdatePost(postID: string, content: string, now: string, lookupOutage: bool, writeOutage: bool)
      returns (r: Result<Post>, ghost found: Option<Post>)
      requires postRepo.Valid()
      modifies postRepo
      ensures postRepo.Valid()
      ensures lookupOutage ==> r == Err(Unavailable)
      ensures !lookupOutage && old(postRepo.IndexedPosts(postID)) == {} ==> r == Err(PostNotFound)
      ensures found.Some? <==> !lookupOutage && old(postRepo.IndexedPosts(postID)) != {}
      ensures found.Some? ==> found.value in old(postRepo.IndexedPosts(postID)) && (r.Ok? <==> !writeOutage)
      ensures r.Err? ==> postRepo.records == old(postRepo.records)
      ensures r.Ok? ==> && found.Some? && r.value == found.value.(content := content)
                        && postRepo.records == old(postRepo.records)[Key(found.value.pk, found.value.sk) :=
                                                                      PostItem(UpdatedAsWritten(found.value, content, now))]
    {
      var existing := postRepo.GetPostByID(postID, lookupOutage);
      if existing.Err? {
        return Err(existing.error), None;
      }
      var post := existing.value;
      found := Some(post);
      postRepo.IndexedPostHasID(postID, post);
      post := post.(content := content);
      var o := postRepo.UpdatePost(post, now, writeOutage);
      if o.Failure? {
        return Err(o.error), found;
      }
      return Ok(post), found;
    }

    /**
      DeletePost: looks the post up by id and deletes it under the key rebuilt from its
      own author, id and creation time — the key it was stored under. Anyone may delete:
      the ownership check is not made.
    */
    method DeletePost(postID: string, lookupOutage: bool, deleteOutage: bool) returns (o: Outcome, ghost found: Option<Post>)
      requires postRepo.Valid()
      modifies postRepo
      ensures postRepo.Valid()
      ensures lookupOutage ==> o == Failure(Unavailable)
      ensures !lookupOutage && old(postRepo.IndexedPosts(postID)) == {} ==> o == Failure(PostNotFound)
      ensures found.Some? <==> !lookupOutage && old(postRepo.IndexedPosts(postID)) != {}
      ensures found.Some? ==> found.value in old(postRepo.IndexedPosts(postID)) && (o.Success? <==> !deleteOutage)
      ensures o.Failure? ==> postRepo.records == old(postRepo.records)
      ensures o.Success? ==> found.Some? && Key(found.value.pk, found.value.sk) in old(postRepo.records)
                             && postRepo.records == old(postRepo.records) - {Key(found.value.pk, found.value.sk)}
    {
      var existing := postRepo.GetPostByID(postID, lookupOutage);
      if existing.Err? {
        return Failure(existing.error), None;
      }
      var post := existing.value;
      postRepo.IndexedPostHasID(postID, post);
      o := postRepo.DeletePost(post.authorID, post.postID, post.createdAt, deleteOutage);
      return o, Some(post);
    }

    /** LikePost: any failed lookup is reported as "post not found" and changes nothing; otherwise the repository's AddLike. */
    method LikePost(postID: string, userID: string, now: string, lookupOutage: bool, likeOutage: bool)
      returns (o: Outcome, ghost found: Option<Post>)
      requires postRepo.Valid()
      modifies postRepo
      ensures postRepo.Valid()
      ensures found.Some? <==> !lookupOutage && old(postRepo.IndexedPosts(postID)) != {}
      ensures found.None? ==> o == Failure(PostNotFound)
      ensures o.Failure? ==> postRepo.records == old(postRepo.records)
      ensures found.Some? ==> && found.value in old(postRepo.IndexedPosts(postID))
                              && (o == Failure(Unavailable) <==> likeOutage)
                              && (o == Failure(AlreadyLiked) <==> !likeOutage && LikeKey(postID, userID) in old(postRepo.records))
                              && (o.Success? <==> !likeOutage && LikeKey(postID, userID) !in old(postRepo.records))
      ensures o.Success? ==>
                && found.Some?
                && postRepo.records ==
                     AddCounters(old(postRepo.records)[LikeKey(postID, userID) := LikeItem(NewLike(postID, userID, now))],
                                 Key(found.value.pk, found.value.sk), 1, 0)
    {
      var existing := postRepo.GetPostByID(postID, lookupOutage);
      if existing.Err? {
        return Failure(PostNotFound), None;
      }
      var post := existing.value;
      postRepo.IndexedPostHasID(postID, post);
      o := postRepo.AddLike(post, userID, now, likeOutage);
      return o, Some(post);
    }

    /** UnlikePost: any failed lookup is reported as "post not found" and changes nothing; otherwise the repository's RemoveLike. */
    method UnlikePost(postID: string, userID: string, lookupOutage: bool, unlikeOutage: bool)
      returns (o: Outcome, ghost found: Option<Post>)
      requires postRepo.Valid()
      modifies postRepo
      ensures postRepo.Valid()
      ensures found.Some? <==> !lookupOutage && old(postRepo.IndexedPosts(postID)) != {}
      ensures found.None? ==> o == Failure(PostNotFound)
      ensures o.Failure? ==> postRepo.records == old(postRepo.records)
      ensures found.Some? ==> && found.value in old(postRepo.IndexedPosts(postID))
                              && (o == Failure(Unavailable) <==> unlikeOutage)
                              && (o == Failure(NotLikedOrZero) <==>
                                    !unlikeOutage && (LikeKey(postID, userID) !in old(postRepo.records)
                                                      || old(postRepo.LikeCount(Key(found.value.pk, found.value.sk))) <= 0))
                              && (o.Success? <==> && !unlikeOutage && LikeKey(postID, userID) in old(postRepo.records)
                                                  && old(postRepo.LikeCount(Key(found.value.pk, found.value.sk))) > 0)
      ensures o.Success? ==>
                && found.Some?
                && postRepo.records ==
                     AddCounters(old(postRepo.records) - {LikeKey(postID, userID)}, Key(found.value.pk, found.value.sk), -1, 0)
    {
      var existing := postRepo.GetPostByID(postID, lookupOutage);
      if existing.Err? {
        return Failure(PostNotFound), None;
      }
      var post := existing.value;
      postRepo.IndexedPostHasID(postID, post);
      o := postRepo.RemoveLike(post, userID, unlikeOutage);
      return o, Some(post);
    }

    /**
      CreateComment: the author must be a known user (checked first, before the post);
      the comment carries the author's username. Any failed post lookup is reported as
      "post not found". Nothing changes unless the repository's write goes through.
    */
    method CreateComment(postID: string, authorID: string, content: string, now: string, newID: string,
                         users: UserDirectory, lookupOutage: bool, writeOutage: bool)
      returns (r: Result<Comment>, ghost found: Option<Post>)
      requires postRepo.Valid()
      modifies postRepo
      ensures postRepo.Valid()
      ensures ParseUintIgnoringError(authorID) !in users.usernames ==> r == Err(AuthorNotFound) && found.None?
      ensures found.Some? <==> ParseUintIgnoringError(authorID) in users.usernames
                               && !lookupOutage && old(postRepo.IndexedPosts(postID)) != {}
      ensures ParseUintIgnoringError(authorID) in users.usernames && found.None? ==> r == Err(PostNotFound)
      ensures found.Some? ==> found.value in old(postRepo.IndexedPosts(postID)) && (r.Err? <==> writeOutage)
      ensures r.Err? ==> postRepo.records == old(postRepo.records)
      ensures r.Ok? ==> && found.Some?
                        && r.value == Comment(PostPartition(postID), CommentSortKey(now, newID), newID, postID, authorID,
                                              users.usernames[ParseUintIgnoringError(authorID)], content, CommentEntity, now)
                        && postRepo.records == AddCounters(old(postRepo.records)[Key(r.value.pk, r.value.sk) := CommentItem(r.value)],
                                                           Key(found.value.pk, found.value.sk), 0, 1)
    {
      var id := ParseUintIgnoringError(authorID);
      if id !in users.usernames {
        return Err(AuthorNotFound), None;
      }
      var comment := Comment("", "", "", postID, authorID, users.usernames[id], content, "", "");
      var existing := postRepo.GetPostByID(postID, lookupOutage);
      if existing.Err? {
        return Err(PostNotFound), None;
      }
      var post := existing.value;
      postRepo.IndexedPostHasID(postID, post);
      r := postRepo.CreateComment(post, comment, now, newID, writeOutage);
      return r, Some(post);
    }

    /**
      DeleteComment: the comment is read first (a failed read is returned as it is); only
      its author may delete it; then any failed post lookup is reported as "post not
      found"; then the repository's DeleteComment.
    */
    method DeleteComment(postID: string, commentSK: string, userID: string,
                         readOutage: bool, lookupOutage: bool, deleteOutage: bool)
      returns (o: Outcome, ghost found: Option<Post>)
      requires postRepo.Valid()
      modifies postRepo
      ensures postRepo.Valid()
      ensures readOutage ==> o == Failure(Unavailable)
      ensures !readOutage && Key(PostPartition(postID), commentSK) !in old(postRepo.records) ==> o == Failure(CommentNotFound)
      ensures !readOutage && Key(PostPartition(postID), commentSK) in old(postRepo.records)
              && AsComment(old(postRepo.records)[Key(PostPartition(postID), commentSK)]).authorID != userID
              ==> o == Failure(NotAuthorized)
      ensures found.Some? <==> && !readOutage && Key(PostPartition(postID), commentSK) in old(postRepo.records)
                               && AsComment(old(postRepo.records)[Key(PostPartition(postID), commentSK)]).authorID == userID
                               && !lookupOutage && old(postRepo.IndexedPosts(postID)) != {}
      ensures && !readOutage && Key(PostPartition(postID), commentSK) in old(postRepo.records)
              && AsComment(old(postRepo.records)[Key(PostPartition(postID), commentSK)]).authorID == userID
              && (lookupOutage || old(postRepo.IndexedPosts(postID)) == {})
              ==> o == Failure(PostNotFound)
      ensures found.Some? ==> && found.value in old(postRepo.IndexedPosts(postID))
                              && (o == Failure(Unavailable) <==> deleteOutage)
                              && (o == Failure(TransactionCanceled) <==>
                                    !deleteOutage && old(postRepo.CommentCount(Key(found.value.pk, found.value.sk))) <= 0)
                              && (o.Success? <==>
                                    !deleteOutage && old(postRepo.CommentCount(Key(found.value.pk, found.value.sk))) > 0)
      ensures o.Failure? ==> postRepo.records == old(postRepo.records)
      ensures o.Success? ==> && Key(PostPartition(postID), commentSK) in old(postRepo.records)
                             && AsComment(old(postRepo.records)[Key(PostPartition(postID), commentSK)]).authorID == userID
                             && found.Some?
                             && postRepo.records == AddCounters(old(postRepo.records) - {Key(PostPartition(postID), commentSK)},
                                                                Key(found.value.pk, found.value.sk), 0, -1)
    {
      var comment := postRepo.GetCommentBySK(postID, commentSK, readOutage);
      if comment.Err? {
        return Failure(comment.error), None;
      }
      if comment.value.authorID != userID {
        return Failure(NotAuthorized), None;
      }
      var existing := postRepo.GetPostByID(postID, lookupOutage);
      if existing.Err? {
        return Failure(PostNotFound), None;
      }
      var post := existing.value;
      postRepo.IndexedPostHasID(postID, post);
      o := postRepo.DeleteComment(post, commentSK, deleteOutage);
      return o, Some(post);
    }
  }
}
