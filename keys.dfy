/**
  The single-table key layout shared by the post store, the user feed and the
  recommendation table: every record is addressed by a partition key `pk` and a
  sort key `sk`.

    post       pk = USER#<author>   sk = POST#<createdAt>#<postID>   (GSI1: POST#<postID> / METADATA)
    like       pk = POST#<postID>   sk = USER#<userID>
    comment    pk = POST#<postID>   sk = COMMENT#<createdAt>#<commentID>
    feed item  pk = USER#<follower> sk = <post createdAt>
    trending   pk = TRENDING#<algorithm version>  sk = <padded score>#<postID>
*/
module Keys {
  import opened Text

  datatype Key = Key(pk: string, sk: string)

  const UserTag: string := "USER#"
  const PostTag: string := "POST#"
  const CommentTag: string := "COMMENT#"
  const TrendingTag: string := "TRENDING#"
  const Metadata: string := "METADATA"

  /** "USER#" + id: an author's post partition, a like's sort key, a follower's feed partition. */
  function UserPartition(userID: string): (pk: string)
    ensures HasPrefix(pk, UserTag) && TrimPrefix(pk, UserTag) == userID
  {
    PrefixOfConcat(UserTag, userID);
    UserTag + userID
  }

  /** "POST#" + id: a post's GSI1 partition, and the partition holding its likes and comments. */
  function PostPartition(postID: string): (pk: string)
    ensures HasPrefix(pk, PostTag) && TrimPrefix(pk, PostTag) == postID
  {
    PrefixOfConcat(PostTag, postID);
    PostTag + postID
  }

  /** The sort key CreatePost gives a post: "POST#" + ts + "#" + id. */
  function PostSortKey(createdAt: string, postID: string): (sk: string)
    ensures HasPrefix(sk, PostTag)
  {
    PrefixOfConcat(PostTag, createdAt + "#" + postID);
    assert PostTag + createdAt + "#" + postID == PostTag + (createdAt + "#" + postID);
    PostTag + createdAt + "#" + postID
  }

  /** The primary key of a like record. */
  function LikeKey(postID: string, userID: string): (k: Key)
    ensures HasPrefix(k.pk, PostTag) && HasPrefix(k.sk, UserTag)
  {
    Key(PostPartition(postID), UserPartition(userID))
  }

  /** The sort key CreateComment gives a comment: "COMMENT#" + ts + "#" + commentID. */
  function CommentSortKey(createdAt: string, commentID: string): (sk: string)
    ensures HasPrefix(sk, CommentTag)
  {
    PrefixOfConcat(CommentTag, createdAt + "#" + commentID);
    assert CommentTag + createdAt + "#" + commentID == CommentTag + (createdAt + "#" + commentID);
    CommentTag + createdAt + "#" + commentID
  }

  /** Prefixing is injective: equal results come from equal suffixes. */
  lemma TaggedInjective(tag: string, a: string, b: string)
    requires tag + a == tag + b
    ensures a == b
  {
    assert a == (tag + a)[|tag|..];
    assert b == (tag + b)[|tag|..];
  }

  /** A record is liked at most once per (post, user): the like key determines both ids. */
  lemma LikeKeyInjective(p1: string, u1: string, p2: string, u2: string)
    requires LikeKey(p1, u1) == LikeKey(p2, u2)
    ensures p1 == p2 && u1 == u2
  {
    TaggedInjective(PostTag, p1, p2);
    TaggedInjective(UserTag, u1, u2);
  }

  /** Strings with different tags in front are different. */
  lemma TagsDiffer(s: string, t1: string, t2: string)
    requires HasPrefix(s, t1) && |t1| > 0 && |t2| > 0 && t1[0] != t2[0]
    ensures !HasPrefix(s, t2)
  {
    assert s[0] == t1[0];
  }

  /** Posts live in USER# partitions, likes and comments in POST# partitions. */
  lemma PostAndLikePartitionsDiffer(s: string)
    requires HasPrefix(s, UserTag)
    ensures !HasPrefix(s, PostTag)
  {
    TagsDiffer(s, UserTag, PostTag);
  }

  /** Like sort keys (USER#…) never collide with comment sort keys (COMMENT#…). */
  lemma LikeAndCommentSortKeysDiffer(s: string)
    requires HasPrefix(s, UserTag)
    ensures !HasPrefix(s, CommentTag)
  {
    TagsDiffer(s, UserTag, CommentTag);
  }
}
