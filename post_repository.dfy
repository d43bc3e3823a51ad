/**
  The single-table post store (backend/internal/repository/post_repository_dynamodb.go).

  One table holds posts, likes and comments, keyed as described in module Keys. The
  repository object stands for the table: `records` maps each primary key to the
  record stored there. Store failures are the `outage` / `failing` parameters; the
  wall clock and fresh UUIDs are the `now` / `newID` parameters.
*/
module PostRepository {
  import opened Wrappers
  import opened Text
  import opened Keys
  import opened Chunking
  import opened Store

  datatype MediaItem = MediaItem(kind: string, url: string)

  /** A place name; latitude and longitude are floating point and not modelled. */
  datatype Location = Location(name: string)

  datatype Post = Post(
    pk: string, sk: string, gsi1pk: string, gsi1sk: string, entityType: string,
    postID: string, authorID: string, content: string,
    media: seq<MediaItem>, tags: seq<string>, location: Option<Location>,
    likeCount: int, commentCount: int, createdAt: string, updatedAt: string)

  datatype Like = Like(pk: string, sk: string, entityType: string, postID: string, userID: string, createdAt: string)

  datatype Comment = Comment(
    pk: string, sk: string, commentID: string, postID: string, authorID: string,
    authorName: string, content: string, entityType: string, createdAt: string)

  /** What can be stored under one primary key of the table. */
  datatype Item = PostItem(post: Post) | LikeItem(like: Like) | CommentItem(comment: Comment)

  const PostEntity: string := "POST"
  const LikeEntity: string := "LIKED_POST"
  const CommentEntity: string := "COMMENT"

  /** The key DeletePost rebuilds from a post's author, id and creation time ("POST#%s#%s"). */
  function DeletePostKey(authorID: string, postID: string, createdAt: string): Key {
    Key(UserTag + authorID, PostTag + createdAt + "#" + postID)
  }

  /** The like record AddLike writes. */
  function NewLike(postID: string, userID: string, now: string): (l: Like)
    ensures Key(l.pk, l.sk) == LikeKey(postID, userID)
  {
    Like(PostPartition(postID), UserPartition(userID), LikeEntity, postID, userID, now)
  }

  /** The item an ADD creates when nothing is stored under its key: the key and the counters only. */
  function CounterStub(k: Key): Post {
    Post(k.pk, k.sk, "", "", "", "", "", "", [], [], None, 0, 0, "", "")
  }

  /** The post stored at `k`, or the empty item an update there would start from. */
  function PostAt(m: map<Key, Item>, k: Key): Post {
    if k in m && m[k].PostItem? then m[k].post else CounterStub(k)
  }

  /** The store's ADD like_count :dl, comment_count :dc on key `k` (creating the item if absent). */
  function AddCounters(m: map<Key, Item>, k: Key, dl: int, dc: int): (m': map<Key, Item>)
    ensures k in m' && m'[k].PostItem?
    ensures m'[k].post.likeCount == PostAt(m, k).likeCount + dl
    ensures m'[k].post.commentCount == PostAt(m, k).commentCount + dc
    ensures forall k' :: k' != k ==> (k' in m' <==> k' in m) && (k' in m ==> m'[k'] == m[k'])
  {
    var p := PostAt(m, k);
    m[k := PostItem(p.(likeCount := p.likeCount + dl, commentCount := p.commentCount + dc))]
  }

  /**
    Reading any item into a Comment. The Comment and Like structs are not part of this
    model; it takes a comment's attribute names other than PK and SK to differ from those
    of likes and posts, so a like or post read this way carries only its key.
  */
  function AsComment(item: Item): Comment {
    match item
    case CommentItem(c) => c
    case LikeItem(l) => Comment(l.pk, l.sk, "", "", "", "", "", "", "")
    case PostItem(p) => Comment(p.pk, p.sk, "", "", "", "", "", "", "")
  }

  /** The layout invariant of one record: where each kind of record may live. */
  predicate WellPlaced(k: Key, item: Item) {
    match item
    case PostItem(p) =>
      && p.pk == k.pk && p.sk == k.sk && HasPrefix(k.pk, UserTag)
      && p.likeCount >= 0 && p.commentCount >= 0
      && (p.gsi1pk == "" ||
          (p.gsi1pk == PostPartition(p.postID) && k == DeletePostKey(p.authorID, p.postID, p.createdAt)))
    case LikeItem(l) =>
      k == LikeKey(l.postID, l.userID) && l.pk == k.pk && l.sk == k.sk
    case CommentItem(c) =>
      c.pk == k.pk && c.sk == k.sk && HasPrefix(k.pk, PostTag) && HasPrefix(k.sk, CommentTag)
  }

  predicate AllWellPlaced(m: map<Key, Item>) {
    forall k :: k in m ==> WellPlaced(k, m[k])
  }

  /** Counter updates on a post key keep the layout as long as the counters stay non-negative. */
  lemma AddCountersWellPlaced(m: map<Key, Item>, k: Key, dl: int, dc: int)
    requires AllWellPlaced(m) && HasPrefix(k.pk, UserTag)
    requires PostAt(m, k).likeCount + dl >= 0 && PostAt(m, k).commentCount + dc >= 0
    ensures AllWellPlaced(AddCounters(m, k, dl, dc))
  {
    var m' := AddCounters(m, k, dl, dc);
    forall k' | k' in m'
      ensures WellPlaced(k', m'[k'])
    {
      if k' != k {
        assert m'[k'] == m[k'];
      }
    }
  }

  /** At most one like per (post, user), and it is the record of that post and user. */
  lemma LikeRecordAt(m: map<Key, Item>, postID: string, userID: string)
    requires AllWellPlaced(m) && LikeKey(postID, userID) in m
    ensures m[LikeKey(postID, userID)].LikeItem?
    ensures m[LikeKey(postID, userID)].like.postID == postID
    ensures m[LikeKey(postID, userID)].like.userID == userID
  {
    var k := LikeKey(postID, userID);
    match m[k]
    case PostItem(p) =>
      PostAndLikePartitionsDiffer(k.pk);
    case CommentItem(c) =>
      LikeAndCommentSortKeysDiffer(k.sk);
    case LikeItem(l) =>
      LikeKeyInjective(l.postID, l.userID, postID, userID);
  }

  /** Posts are the only records in USER# partitions. */
  lemma UserPartitionHoldsPosts(m: map<Key, Item>, k: Key)
    requires AllWellPlaced(m) && k in m && HasPrefix(k.pk, UserTag)
    ensures m[k].PostItem?
  {
    PostAndLikePartitionsDiffer(k.pk);
  }

  /** Unliking right after liking restores the table exactly. */
  lemma UnlikeUndoesLike(m: map<Key, Item>, likeKey: Key, postKey: Key, l: Like)
    requires likeKey !in m && likeKey != postKey && postKey in m && m[postKey].PostItem?
    ensures AddCounters(AddCounters(m[likeKey := LikeItem(l)], postKey, 1, 0) - {likeKey}, postKey, -1, 0) == m
  {
    var m1 := AddCounters(m[likeKey := LikeItem(l)], postKey, 1, 0);
    var m2 := AddCounters(m1 - {likeKey}, postKey, -1, 0);
    assert PostAt(m1 - {likeKey}, postKey) == m[postKey].post.(likeCount := m[postKey].post.likeCount + 1);
    assert m2[postKey] == m[postKey];
    assert m2.Keys == m.Keys;
  }

  /** Deleting a comment right after creating it restores the table exactly. */
  lemma UncommentUndoesComment(m: map<Key, Item>, commentKey: Key, postKey: Key, c: Comment)
    requires commentKey !in m && commentKey != postKey && postKey in m && m[postKey].PostItem?
    ensures AddCounters(AddCounters(m[commentKey := CommentItem(c)], postKey, 0, 1) - {commentKey}, postKey, 0, -1) == m
  {
    var m1 := AddCounters(m[commentKey := CommentItem(c)], postKey, 0, 1);
    var m2 := AddCounters(m1 - {commentKey}, postKey, 0, -1);
    assert PostAt(m1 - {commentKey}, postKey) == m[postKey].post.(commentCount := m[postKey].post.commentCount + 1);
    assert m2[postKey] == m[postKey];
    assert m2.Keys == m.Keys;
  }

  /** The like keys CheckIfPostsLikedBy asks for, one per post id, in order. */
  function LikeKeys(postIDs: seq<string>, userID: string): (keys: seq<Key>)
    ensures |keys| == |postIDs|
    ensures forall i :: 0 <= i < |postIDs| ==> keys[i] == LikeKey(postIDs[i], userID)
  {
    seq(|postIDs|, i requires 0 <= i < |postIDs| => LikeKey(postIDs[i], userID))
  }

  function PostIDs(posts: seq<Post>): (ids: seq<string>)
    ensures |ids| == |posts| && forall i :: 0 <= i < |posts| ==> ids[i] == posts[i].postID
  {
    seq(|posts|, i requires 0 <= i < |posts| => posts[i].postID)
  }

  /** The post is one the recent-posts scan keeps: a POST record created at or after the cutoff. */
  predicate IsRecent(p: Post, cutoff: string) {
    p.entityType == PostEntity && !Less(p.createdAt, cutoff)
  }

  /**
    UpdatePost's effect as written: the new content goes to "content", and the timestamp
    to attribute "updatedAt", which no post field reads. The stored updated_at keeps the
    value it had, whatever `now` is.
  */
  function UpdatedAsWritten(p: Post, content: string, now: string): (q: Post)
    ensures q.content == content && q.updatedAt == p.updatedAt
    ensures q.(content := p.content) == p
  {
    p.(content := content)
  }

  /** UpdatePost's evident intent: new content, and updated_at refreshed to the time of the update. */
  function Updated(p: Post, content: string, now: string): (q: Post)
    ensures q.content == content && q.updatedAt == now
    ensures q.(content := p.content, updatedAt := p.updatedAt) == p
  {
    p.(content := content, updatedAt := now)
  }

  /** As written, an edit never moves updated_at, so a post edited later than it was created still shows its creation time. */
  lemma UpdateAsWrittenKeepsStaleTimestamp(p: Post, content: string, now: string)
    requires now != p.updatedAt
    ensures UpdatedAsWritten(p, content, now).updatedAt != now
    ensures Updated(p, content, now).updatedAt == now
  {
  }

  class DynamoDBPostRepository {
    var records: map<Key, Item>

    ghost predicate Valid()
      reads this
    {
      AllWellPlaced(records)
    }

    constructor ()
      ensures Valid() && records == map[]
    {
      records := map[];
    }

    /** The GSI1 lookup: posts indexed under GSI1PK = "POST#"+id, GSI1SK = "METADATA". */
    function IndexedPosts(postID: string): set<Post>
      reads this
    {
      set k | k in records && records[k].PostItem? && records[k].post.gsi1pk == PostPartition(postID)
                && records[k].post.gsi1sk == Metadata :: records[k].post
    }

    function LikeCount(k: Key): int
      reads this
    {
      PostAt(records, k).likeCount
    }

    function CommentCount(k: Key): int
      reads this
    {
      PostAt(records, k).commentCount
    }

    /** The ids GetPostsByIDs can fetch: requested, reachable, and present in the index. */
    function Fetchable(ids: seq<string>, outages: set<string>): (found: seq<string>)
      reads this
      ensures forall id :: id in found ==> id in ids
      decreases |ids|
    {
      if ids == [] then []
      else
        var last := ids[|ids| - 1];
        Fetchable(ids[..|ids| - 1], outages) + (if last !in outages && IndexedPosts(last) != {} then [last] else [])
    }

    /** The keys the recent-posts scan keeps. */
    function RecentKeys(cutoff: string): set<Key>
      reads this
    {
      set k | k in records && records[k].PostItem? && IsRecent(records[k].post, cutoff)
    }

    lemma IndexedPostHasID(postID: string, p: Post)
      requires Valid() && p in IndexedPosts(postID)
      ensures p.postID == postID && p.gsi1pk == PostPartition(postID)
      ensures HasPrefix(p.pk, UserTag) && Key(p.pk, p.sk) in records && records[Key(p.pk, p.sk)] == PostItem(p)
      ensures Key(p.pk, p.sk) == DeletePostKey(p.authorID, p.postID, p.createdAt)
    {
      var k :| k in records && records[k].PostItem? && records[k].post.gsi1pk == PostPartition(postID)
                && records[k].post.gsi1sk == Metadata && records[k].post == p;
      TaggedInjective(PostTag, p.postID, postID);
    }

    /** CreatePost: completes the post's keys, id and timestamps and puts it. */
    method CreatePost(draft: Post, now: string, newID: string, outage: bool) returns (r: Result<Post>)
      requires Valid() && draft.likeCount >= 0 && draft.commentCount >= 0
      modifies this
      ensures Valid()
      ensures r.Err? <==> outage
      ensures r.Err? ==> r.error == Unavailable && records == old(records)
      ensures r.Ok? ==> && r.value.postID == newID && r.value.createdAt == now && r.value.updatedAt == now
                        && r.value.pk == UserPartition(draft.authorID) && r.value.sk == PostSortKey(now, newID)
                        && r.value.gsi1pk == PostPartition(newID) && r.value.gsi1sk == Metadata
                        && r.value.entityType == PostEntity
      ensures r.Ok? ==> r.value.(pk := draft.pk, sk := draft.sk, gsi1pk := draft.gsi1pk, gsi1sk := draft.gsi1sk,
                                 entityType := draft.entityType, postID := draft.postID,
                                 createdAt := draft.createdAt, updatedAt := draft.updatedAt) == draft
      ensures r.Ok? ==> records == old(records)[Key(r.value.pk, r.value.sk) := PostItem(r.value)]
      ensures r.Ok? ==> r.value in IndexedPosts(newID)
      ensures r.Ok? ==> DeletePostKey(r.value.authorID, r.value.postID, r.value.createdAt) == Key(r.value.pk, r.value.sk)
    {
      var post := draft.(postID := newID, createdAt := now, updatedAt := now,
                         pk := UserPartition(draft.authorID), sk := PostSortKey(now, newID),
                         gsi1pk := PostPartition(newID), gsi1sk := Metadata, entityType := PostEntity);
      if outage {
        return Err(Unavailable);
      }
      records := records[Key(post.pk, post.sk) := PostItem(post)];
      assert records[Key(post.pk, post.sk)].post == post;
      return Ok(post);
    }

    /** DeletePost: deletes whatever is stored under the rebuilt key (there is no existence condition). */
    method DeletePost(authorID: string, postID: string, createdAt: string, outage: bool) returns (o: Outcome)
      requires Valid()
      modifies this
      ensures Valid()
      ensures o.Success? <==> !outage
      ensures o.Failure? ==> o.error == Unavailable && records == old(records)
      ensures o.Success? ==> records == old(records) - {DeletePostKey(authorID, postID, createdAt)}
    {
      if outage {
        return Failure(Unavailable);
      }
      records := records - {DeletePostKey(authorID, postID, createdAt)};
      return Success;
    }

    /** GetPostByID: the first item of the GSI1 query for the id, or "not found". */
    method GetPostByID(postID: string, outage: bool) returns (r: Result<Post>)
      requires Valid()
      ensures outage ==> r == Err(Unavailable)
      ensures !outage && IndexedPosts(postID) == {} ==> r == Err(PostNotFound)
      ensures !outage && IndexedPosts(postID) != {} ==> r.Ok? && r.value in IndexedPosts(postID)
      ensures r.Ok? ==> r.value.postID == postID
    {
      if outage {
        return Err(Unavailable);
      }
      var found := IndexedPosts(postID);
      if found == {} {
        return Err(PostNotFound);
      }
      var p :| p in found;
      IndexedPostHasID(postID, p);
      return Ok(p);
    }

    /**
      GetPostsByIDs: looks every id up and keeps the posts found; an id whose lookup
      fails is dropped without an error. The lookups run concurrently in the source, so
      only the multiset of returned ids is stated, not their order.
    */
    method GetPostsByIDs(ids: seq<string>, outages: set<string>) returns (posts: seq<Post>)
      requires Valid()
      ensures ids == [] ==> posts == []
      ensures multiset(PostIDs(posts)) == multiset(Fetchable(ids, outages))
      ensures forall i :: 0 <= i < |posts| ==> posts[i] in IndexedPosts(posts[i].postID) && posts[i].postID in ids
    {
      posts := [];
      for i := 0 to |ids|
        invariant PostIDs(posts) == Fetchable(ids[..i], outages)
        invariant forall j :: 0 <= j < |posts| ==> posts[j] in IndexedPosts(posts[j].postID) && posts[j].postID in ids[..i]
      {
        assert ids[..i + 1][..i] == ids[..i];
        var r := GetPostByID(ids[i], ids[i] in outages);
        if r.Ok? {
          posts := posts + [r.value];
          assert PostIDs(posts) == PostIDs(posts[..|posts| - 1]) + [r.value.postID];
        }
      }
      assert ids[..|ids|] == ids;
    }

    /**
      CheckIfPostsLikedBy: every requested id maps to whether the user's like record for
      it exists; the keys are fetched in BatchGetItem requests of at most 100 keys, and
      the first failing request fails the whole call. `requests` are the batches sent.
    */
    method CheckIfPostsLikedBy(postIDs: seq<string>, userID: string, failing: set<nat>)
      returns (r: Result<map<string, bool>>, ghost requests: seq<seq<Key>>)
      ensures postIDs == [] ==> r == Ok(map[]) && requests == []
      ensures r.Err? <==> exists c :: c in failing && c < NumChunks(|postIDs|, ReadBatchSize)
      ensures r.Ok? ==> forall id :: id in r.value <==> id in postIDs
      ensures r.Ok? ==> forall id :: id in r.value ==> (r.value[id] <==> LikeKey(id, userID) in records)
      ensures r.Ok? ==> requests == Chunks(LikeKeys(postIDs, userID), ReadBatchSize)
      ensures r.Err? ==> && 0 < |requests| <= NumChunks(|postIDs|, ReadBatchSize)
                         && requests == Chunks(LikeKeys(postIDs, userID), ReadBatchSize)[..|requests|]
                         && |requests| - 1 in failing
                         && forall c :: 0 <= c < |requests| - 1 ==> c !in failing
    {
      requests := [];
      if |postIDs| == 0 {
        return Ok(map[]), requests;
      }
      var liked: map<string, bool> := map[];
      for i := 0 to |postIDs|
        invariant forall id :: id in liked <==> id in postIDs[..i]
        invariant forall id :: id in liked ==> !liked[id]
      {
        assert postIDs[..i + 1] == postIDs[..i] + [postIDs[i]];
        liked := liked[postIDs[i] := false];
      }
      assert postIDs[..|postIDs|] == postIDs;
      var keys := LikeKeys(postIDs, userID);
      ghost var all := Chunks(keys, ReadBatchSize);
      var i := 0;
      var c := 0;
      while i < |keys|
        invariant c <= NumChunks(|keys|, ReadBatchSize) && i == c * ReadBatchSize
        invariant requests == all[..c]
        invariant forall j :: 0 <= j < c ==> j !in failing
        invariant forall id :: id in liked <==> id in postIDs
        invariant forall id :: id in liked ==> (liked[id] <==> id in postIDs[..Min(i, |keys|)] && LikeKey(id, userID) in records)
        decreases |keys| - i
      {
        ChunkIndexBound(|keys|, ReadBatchSize, c);
        var end := Min(i + ReadBatchSize, |keys|);
        var chunk := keys[i..end];
        assert chunk == all[c];
        requests := requests + [chunk];
        assert requests == all[..c + 1];
        if c in failing {
          return Err(Unavailable), requests;
        }
        liked := MarkLiked(liked, postIDs, userID, i, end, chunk);
        i := i + ReadBatchSize;
        c := c + 1;
      }
      ChunkIndexBound(|keys|, ReadBatchSize, c);
      assert postIDs[..|keys|] == postIDs;
      assert all[..c] == all;
      return Ok(liked), requests;
    }

    /**
      Reads one BatchGetItem response: every requested like key that is stored marks
      the post id recovered from its partition key ("POST#"+id) as liked.
    */
    method MarkLiked(liked: map<string, bool>, postIDs: seq<string>, userID: string, lo: nat, hi: nat, chunk: seq<Key>)
      returns (out: map<string, bool>)
      requires lo <= hi <= |postIDs| && chunk == LikeKeys(postIDs, userID)[lo..hi]
      requires forall id :: id in liked <==> id in postIDs
      requires forall id :: id in liked ==> (liked[id] <==> id in postIDs[..lo] && LikeKey(id, userID) in records)
      ensures forall id :: id in out <==> id in postIDs
      ensures forall id :: id in out ==> (out[id] <==> id in postIDs[..hi] && LikeKey(id, userID) in records)
    {
      out := liked;
      for j := 0 to |chunk|
        invariant forall id :: id in out <==> id in postIDs
        invariant forall id :: id in out ==> (out[id] <==> id in postIDs[..lo + j] && LikeKey(id, userID) in records)
      {
        assert postIDs[..lo + j + 1] == postIDs[..lo + j] + [postIDs[lo + j]];
        assert chunk[j] == LikeKey(postIDs[lo + j], userID);
        if chunk[j] in records {
          var postID := TrimPrefix(chunk[j].pk, PostTag);
          out := out[postID := true];
        }
      }
    }

    /** AddLike: puts the like only if none exists and adds 1 to like_count, both or neither. */
    method AddLike(post: Post, userID: string, now: string, outage: bool) returns (o: Outcome)
      requires Valid() && HasPrefix(post.pk, UserTag)
      modifies this
      ensures Valid()
      ensures o == Failure(Unavailable) <==> outage
      ensures o == Failure(AlreadyLiked) <==> !outage && LikeKey(post.postID, userID) in old(records)
      ensures o.Success? <==> !outage && LikeKey(post.postID, userID) !in old(records)
      ensures o.Failure? ==> records == old(records)
      ensures o.Success? ==> records == AddCounters(old(records)[LikeKey(post.postID, userID) := LikeItem(NewLike(post.postID, userID, now))],
                                                    Key(post.pk, post.sk), 1, 0)
      ensures o.Success? ==> LikeCount(Key(post.pk, post.sk)) == old(LikeCount(Key(post.pk, post.sk))) + 1
      ensures o.Success? ==> records[LikeKey(post.postID, userID)] == LikeItem(NewLike(post.postID, userID, now))
    {
      var likeKey := LikeKey(post.postID, userID);
      var postKey := Key(post.pk, post.sk);
      if outage {
        return Failure(Unavailable);
      }
      if likeKey in records {
        return Failure(AlreadyLiked);
      }
      PostAndLikePartitionsDiffer(post.pk);
      var withLike := records[likeKey := LikeItem(NewLike(post.postID, userID, now))];
      assert PostAt(withLike, postKey) == PostAt(records, postKey);
      AddCountersWellPlaced(withLike, postKey, 1, 0);
      records := AddCounters(withLike, postKey, 1, 0);
      return Success;
    }

    /** RemoveLike: deletes the like only if it exists and like_count > 0, then subtracts 1; both or neither. */
    method RemoveLike(post: Post, userID: string, outage: bool) returns (o: Outcome)
      requires Valid() && HasPrefix(post.pk, UserTag)
      modifies this
      ensures Valid()
      ensures o == Failure(Unavailable) <==> outage
      ensures o == Failure(NotLikedOrZero) <==>
                !outage && (LikeKey(post.postID, userID) !in old(records) || old(LikeCount(Key(post.pk, post.sk))) <= 0)
      ensures o.Success? <==> !outage && LikeKey(post.postID, userID) in old(records) && old(LikeCount(Key(post.pk, post.sk))) > 0
      ensures o.Failure? ==> records == old(records)
      ensures o.Success? ==> records == AddCounters(old(records) - {LikeKey(post.postID, userID)}, Key(post.pk, post.sk), -1, 0)
      ensures o.Success? ==> 0 <= LikeCount(Key(post.pk, post.sk)) == old(LikeCount(Key(post.pk, post.sk))) - 1
    {
      var likeKey := LikeKey(post.postID, userID);
      var postKey := Key(post.pk, post.sk);
      if outage {
        return Failure(Unavailable);
      }
      if likeKey !in records || PostAt(records, postKey).likeCount <= 0 {
        return Failure(NotLikedOrZero);
      }
      PostAndLikePartitionsDiffer(post.pk);
      var withoutLike := records - {likeKey};
      assert PostAt(withoutLike, postKey) == PostAt(records, postKey);
      AddCountersWellPlaced(withoutLike, postKey, -1, 0);
      records := AddCounters(withoutLike, postKey, -1, 0);
      return Success;
    }

    /** CreateComment: keys and stamps the comment, puts it and adds 1 to comment_count, both or neither. */
    method CreateComment(post: Post, comment: Comment, now: string, newID: string, outage: bool) returns (r: Result<Comment>)
      requires Valid() && HasPrefix(post.pk, UserTag)
      modifies this
      ensures Valid()
      ensures r.Err? <==> outage
      ensures r.Err? ==> r.error == Unavailable && records == old(records)
      ensures r.Ok? ==> r.value == comment.(pk := PostPartition(post.postID), sk := CommentSortKey(now, newID),
                                            commentID := newID, entityType := CommentEntity, createdAt := now)
      ensures r.Ok? ==> records == AddCounters(old(records)[Key(r.value.pk, r.value.sk) := CommentItem(r.value)],
                                                Key(post.pk, post.sk), 0, 1)
      ensures r.Ok? ==> CommentCount(Key(post.pk, post.sk)) == old(CommentCount(Key(post.pk, post.sk))) + 1
    {
      var c := comment.(pk := PostPartition(post.postID), sk := CommentSortKey(now, newID),
                        commentID := newID, entityType := CommentEntity, createdAt := now);
      var postKey := Key(post.pk, post.sk);
      if outage {
        return Err(Unavailable);
      }
      PostAndLikePartitionsDiffer(post.pk);
      var withComment := records[Key(c.pk, c.sk) := CommentItem(c)];
      assert PostAt(withComment, postKey) == PostAt(records, postKey);
      AddCountersWellPlaced(withComment, postKey, 0, 1);
      records := AddCounters(withComment, postKey, 0, 1);
      return Ok(c);
    }

    /**
      DeleteComment: the delete itself is unconditional; only the decrement is guarded
      by comment_count > 0. So the call succeeds whenever the count is positive, whether
      or not a comment is stored under `commentSK`.
    */
    method DeleteComment(post: Post, commentSK: string, outage: bool) returns (o: Outcome)
      requires Valid() && HasPrefix(post.pk, UserTag)
      modifies this
      ensures Valid()
      ensures o == Failure(Unavailable) <==> outage
      ensures o == Failure(TransactionCanceled) <==> !outage && old(CommentCount(Key(post.pk, post.sk))) <= 0
      ensures o.Success? <==> !outage && old(CommentCount(Key(post.pk, post.sk))) > 0
      ensures o.Failure? ==> records == old(records)
      ensures o.Success? ==> records == AddCounters(old(records) - {Key(PostPartition(post.postID), commentSK)},
                                                    Key(post.pk, post.sk), 0, -1)
      ensures o.Success? ==> 0 <= CommentCount(Key(post.pk, post.sk)) == old(CommentCount(Key(post.pk, post.sk))) - 1
    {
      var commentKey := Key(PostPartition(post.postID), commentSK);
      var postKey := Key(post.pk, post.sk);
      if outage {
        return Failure(Unavailable);
      }
      if PostAt(records, postKey).commentCount <= 0 {
        return Failure(TransactionCanceled);
      }
      PostAndLikePartitionsDiffer(post.pk);
      var withoutComment := records - {commentKey};
      assert PostAt(withoutComment, postKey) == PostAt(records, postKey);
      AddCountersWellPlaced(withoutComment, postKey, 0, -1);
      records := AddCounters(withoutComment, postKey, 0, -1);
      return Success;
    }

    /** GetCommentBySK: reads the item at ("POST#"+postID, commentSK) as a comment. */
    method GetCommentBySK(postID: string, commentSK: string, outage: bool) returns (r: Result<Comment>)
      ensures outage ==> r == Err(Unavailable)
      ensures !outage && Key(PostPartition(postID), commentSK) !in records ==> r == Err(CommentNotFound)
      ensures !outage && Key(PostPartition(postID), commentSK) in records ==>
                r == Ok(AsComment(records[Key(PostPartition(postID), commentSK)]))
    {
      var k := Key(PostPartition(postID), commentSK);
      if outage {
        return Err(Unavailable);
      }
      if k !in records {
        return Err(CommentNotFound);
      }
      return Ok(AsComment(records[k]));
    }

    /**
      GetRecentPosts: scans the table for POST records created at or after `cutoff`
      (string comparison, as the store compares strings). A scan returns items in no
      particular order, so only which posts come back is stated.
    */
    method GetRecentPosts(cutoff: string, outage: bool) returns (r: Result<seq<Post>>)
      requires Valid()
      ensures r.Err? <==> outage
      ensures r.Ok? ==> |r.value| == |RecentKeys(cutoff)|
      ensures r.Ok? ==> forall i :: 0 <= i < |r.value| ==> IsRecent(r.value[i], cutoff)
      ensures r.Ok? ==> forall k :: k in RecentKeys(cutoff) ==> records[k].post in r.value
      ensures r.Ok? ==> forall i :: 0 <= i < |r.value| ==> Key(r.value[i].pk, r.value[i].sk) in RecentKeys(cutoff)
    {
      if outage {
        return Err(Unavailable);
      }
      var all := RecentKeys(cutoff);
      var left := all;
      var posts: seq<Post> := [];
      ghost var taken: seq<Key> := [];
      while left != {}
        invariant left <= all
        invariant |posts| == |taken| && |taken| + |left| == |all|
        invariant forall i :: 0 <= i < |taken| ==> taken[i] in all && taken[i] !in left && posts[i] == records[taken[i]].post
        invariant forall k :: k in all && k !in left ==> k in taken
        decreases |left|
      {
        var k :| k in left;
        posts := posts + [records[k].post];
        taken := taken + [k];
        left := left - {k};
      }
      forall k | k in all
        ensures records[k].post in posts
      {
        var i :| 0 <= i < |taken| && taken[i] == k;
        assert posts[i] == records[k].post;
      }
      return Ok(posts);
    }

    /** GetPostsByUserID: the author's partition, sort keys beginning "POST#", newest first, no limit. */
    method GetPostsByUserID(userID: string, outage: bool) returns (r: Result<seq<Post>>, ghost keys: seq<Key>)
      requires Valid()
      ensures r.Err? <==> outage
      ensures r.Err? ==> r.error == Unavailable
      ensures r.Ok? ==> IsPage(Candidates(records, UserPartition(userID), PostTag, None), None, keys)
      ensures r.Ok? ==> |r.value| == |keys| && forall i :: 0 <= i < |keys| ==> records[keys[i]] == PostItem(r.value[i])
    {
      keys := [];
      if outage {
        return Err(Unavailable), keys;
      }
      var q := Query(records, UserPartition(userID), PostTag, None, None);
      var page := q.value.keys;
      keys := page;
      var m := records;
      forall i | 0 <= i < |page|
        ensures page[i] in m && m[page[i]].PostItem?
      {
        UserPartitionHoldsPosts(m, page[i]);
      }
      var posts := seq(|page|, i requires 0 <= i < |page| => m[page[i]].post);
      return Ok(posts), keys;
    }

    /**
      UpdatePost: sets the new content on the post's key. The timestamp is written to an
      attribute no post field reads, so the stored updated_at does not change.
    */
    method UpdatePost(post: Post, now: string, outage: bool) returns (o: Outcome)
      requires Valid() && HasPrefix(post.pk, UserTag)
      modifies this
      ensures Valid()
      ensures o.Success? <==> !outage
      ensures o.Failure? ==> o.error == Unavailable && records == old(records)
      ensures o.Success? ==> records == old(records)[Key(post.pk, post.sk) := PostItem(UpdatedAsWritten(PostAt(old(records), Key(post.pk, post.sk)), post.content, now))]
    {
      var k := Key(post.pk, post.sk);
      if outage {
        return Failure(Unavailable);
      }
      records := records[k := PostItem(UpdatedAsWritten(PostAt(records, k), post.content, now))];
      return Success;
    }
  }
}
