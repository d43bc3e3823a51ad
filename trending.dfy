/**
  The global trending list (backend/internal/recommendation/trending.go): score the
  recent posts, sort them best first, keep the top 100 and store them under one
  partition, ordered by a sort key that starts with the formatted score.
*/
module Trending {
  import opened Wrappers
  import opened Text
  import opened Keys
  import opened Chunking
  import opened Store
  import opened Sorting
  import opened PostRepository
  import opened RecommendationRepository

  const LikeWeight: int := 1
  const CommentWeight: int := 0
  const LookbackDays: nat := 7
  const TrendingAlgorithmKey: string := "trending-v1.0"
  const MaxTrendingPosts: nat := 100

  /** A post id with its score. Scores are integral: both weights and both counts are. */
  datatype TrendingPost = TrendingPost(postID: string, score: int)

  /** likeCount * 1 + commentCount * 0: comments do not count. */
  function Score(p: Post): (s: int)
    ensures s == p.likeCount
  {
    p.likeCount * LikeWeight + p.commentCount * CommentWeight
  }

  /** Comments carry weight 0: changing the comment count leaves the score as it is. */
  lemma CommentsDoNotCount(p: Post, c: int)
    ensures Score(p.(commentCount := c)) == Score(p)
  {
  }

  function Scored(posts: seq<Post>): (list: seq<TrendingPost>)
    ensures |list| == |posts|
    ensures forall i :: 0 <= i < |posts| ==> list[i] == TrendingPost(posts[i].postID, Score(posts[i]))
  {
    seq(|posts|, i requires 0 <= i < |posts| => TrendingPost(posts[i].postID, Score(posts[i])))
  }

  /** The sort rank of a scored post: a higher score comes first. */
  function Rank(t: TrendingPost): int {
    -t.score
  }

  /**
    fmt's %010.2f of an integral score: at least ten characters, zero-padded after the
    sign, with two zero decimals.
  */
  function ScoreText(score: int): (t: string)
  {
    if score >= 0 then
      ZeroPad(NatToDecimal(score), 7) + ".00"
    else
      "-" + ZeroPad(NatToDecimal(-score), 6) + ".00"
  }

  /** %010.2f pads to at least ten characters and ends in two zero decimals. */
  lemma ScoreTextShape(score: int)
    ensures |ScoreText(score)| >= 10 && ScoreText(score)[|ScoreText(score)| - 3..] == ".00"
  {
  }

  /** Below ten million, the score text is exactly seven digits and ".00". */
  lemma ScoreTextOfSmallScore(score: int)
    requires 0 <= score < Pow10(7)
    ensures ScoreText(score) == FixedDigits(score, 7) + ".00"
  {
    ZeroPadIsFixedDigits(score, 7);
  }

  /** "<score>#<postID>": the sort key of a trending item. */
  function SortKey(score: int, postID: string): string {
    ScoreText(score) + "#" + postID
  }

  /** The item stored for one of the top posts. */
  function TrendingItem(t: TrendingPost, generatedAt: string): UserRecommendationItem {
    UserRecommendationItem(TrendingTag + TrendingAlgorithmKey, SortKey(t.score, t.postID), "", "",
                           t.postID, TrendingAlgorithmKey, generatedAt)
  }

  /** A trending item sits in the trending partition, and its sort key is the score text, '#', the post id. */
  lemma TrendingItemShape(t: TrendingPost, generatedAt: string)
    ensures var item := TrendingItem(t, generatedAt);
            && item.pk == TrendingTag + TrendingAlgorithmKey && item.algorithmVersion == TrendingAlgorithmKey
            && item.postID == t.postID && item.generatedAt == generatedAt
            && HasPrefix(item.sk, ScoreText(t.score)) && TrimPrefix(item.sk, ScoreText(t.score)) == "#" + t.postID
  {
    var score, tail := ScoreText(t.score), "#" + t.postID;
    assert TrendingItem(t, generatedAt).sk == score + tail;
    PrefixOfConcat(score, tail);
  }

  predicate NoHash(s: string) {
    forall i :: 0 <= i < |s| ==> s[i] != '#'
  }

  lemma ZeroPadDigits(s: string, w: nat)
    requires AllDigits(s)
    ensures AllDigits(ZeroPad(s, w))
  {
    var r := ZeroPad(s, w);
    if |s| < w {
      forall i | 0 <= i < |r|
        ensures IsDigit(r[i])
      {
        if i >= w - |s| {
          assert r[i] == s[i - (w - |s|)];
        }
      }
    }
  }

  /** The formatted score never contains the separator. */
  lemma ScoreTextHasNoHash(score: int)
    ensures NoHash(ScoreText(score))
  {
    var n: nat := if score >= 0 then score else -score;
    ZeroPadDigits(NatToDecimal(n), if score >= 0 then 7 else 6);
  }

  /** Splitting at the first '#': a prefix free of '#' is recovered, and so is the rest. */
  lemma {:induction false} SplitAtFirstHash(a: string, b: string, x: string, y: string)
    requires NoHash(a) && NoHash(b) && a + "#" + x == b + "#" + y
    ensures a == b && x == y
  {
    var l, r := a + "#" + x, b + "#" + y;
    assert l[|a|] == '#' && r[|b|] == '#';
    assert |a| == |b|;
    assert a == l[..|a|] && b == r[..|b|];
    assert x == l[|a| + 1..] && y == r[|b| + 1..];
  }

  /** Different posts never share a sort key, whatever their scores. */
  lemma SortKeysDistinct(s1: int, id1: string, s2: int, id2: string)
    requires id1 != id2
    ensures SortKey(s1, id1) != SortKey(s2, id2)
  {
    if SortKey(s1, id1) == SortKey(s2, id2) {
      ScoreTextHasNoHash(s1);
      ScoreTextHasNoHash(s2);
      SplitAtFirstHash(ScoreText(s1), ScoreText(s2), id1, id2);
    }
  }

  lemma SortKeyOfSmallScore(score: int, id: string)
    requires 0 <= score < Pow10(7)
    ensures SortKey(score, id) == FixedDigits(score, 7) + (".00#" + id)
  {
    var t := ScoreText(score);
    ScoreTextOfSmallScore(score);
    assert t + "#" + id == FixedDigits(score, 7) + (".00#" + id);
  }

  /** For scores from 0 to 9999999 the sort key orders trending items by score, as the store sorts them. */
  lemma SortKeyFollowsScore(a: int, b: int, id1: string, id2: string)
    requires 0 <= a < b < Pow10(7)
    ensures Less(SortKey(a, id1), SortKey(b, id2))
  {
    FixedDigitsOrder(a, b, 7);
    SortKeyOfSmallScore(a, id1);
    SortKeyOfSmallScore(b, id2);
    LessExtend(FixedDigits(a, 7), FixedDigits(b, 7), ".00#" + id1, ".00#" + id2);
  }

  lemma DecimalLeadingDigit(n: nat)
    requires n >= 10
    ensures NatToDecimal(n)[0] == NatToDecimal(n / 10)[0]
    ensures |NatToDecimal(n)| == |NatToDecimal(n / 10)| + 1
  {
  }

  lemma FixedDigitsLeadingDigit(n: nat, w: nat)
    requires w >= 2
    ensures FixedDigits(n, w)[0] == FixedDigits(n / 10, w - 1)[0]
  {
  }

  /** From ten million up the padding no longer lines the digits up: 10000000 sorts below 9999999. */
  lemma SortKeyOrderBreaksAtTenMillion(id: string)
    ensures Less(SortKey(10000000, id), SortKey(9999999, id))
  {
    assert Pow10(1) == 10 && Pow10(2) == 100 && Pow10(3) == 1000 && Pow10(4) == 10000;
    assert Pow10(5) == 100000 && Pow10(6) == 1000000 && Pow10(7) == 10000000;
    DecimalLeadingDigit(10000000);
    DecimalLeadingDigit(1000000);
    DecimalLeadingDigit(100000);
    DecimalLeadingDigit(10000);
    DecimalLeadingDigit(1000);
    DecimalLeadingDigit(100);
    DecimalLeadingDigit(10);
    var hi := NatToDecimal(10000000);
    assert |hi| == 8 && hi[0] == '1';
    assert ScoreText(10000000) == hi + ".00";
    FixedDigitsLeadingDigit(9999999, 7);
    FixedDigitsLeadingDigit(999999, 6);
    FixedDigitsLeadingDigit(99999, 5);
    FixedDigitsLeadingDigit(9999, 4);
    FixedDigitsLeadingDigit(999, 3);
    FixedDigitsLeadingDigit(99, 2);
    var lo := FixedDigits(9999999, 7);
    assert lo[0] == '9';
    ScoreTextOfSmallScore(9999999);
    assert SortKey(10000000, id)[0] == '1' && SortKey(9999999, id)[0] == '9';
  }

  /** Scores every post and sorts the list best first (sort.Slice on Score, greater first). */
  method RankPosts(posts: seq<Post>) returns (ranked: seq<TrendingPost>)
    ensures |ranked| == |posts|
    ensures multiset(ranked) == multiset(Scored(posts))
    ensures forall i, j :: 0 <= i < j < |ranked| ==> ranked[i].score >= ranked[j].score
  {
    var list := new TrendingPost[|posts|](_ => TrendingPost("", 0));
    for i := 0 to |posts|
      invariant forall j :: 0 <= j < i ==> list[j] == TrendingPost(posts[j].postID, Score(posts[j]))
    {
      list[i] := TrendingPost(posts[i].postID, Score(posts[i]));
    }
    assert list[..] == Scored(posts);
    SortByKey(list, Rank);
    ranked := list[..];
    assert forall i, j :: 0 <= i < j < |ranked| ==> Rank(ranked[i]) <= Rank(ranked[j]);
  }

  /** The stored items for a ranking, one per post, in the ranking's order. */
  function TrendingItems(ranked: seq<TrendingPost>, generatedAt: string): seq<UserRecommendationItem> {
    seq(|ranked|, i requires 0 <= i < |ranked| => TrendingItem(ranked[i], generatedAt))
  }

  /** The item loop: the items for the first `n` ranked posts, best first. */
  method TopItems(ranked: seq<TrendingPost>, n: nat, generatedAt: string) returns (items: seq<UserRecommendationItem>)
    requires n <= |ranked|
    ensures items == TrendingItems(ranked[..n], generatedAt)
  {
    var item := (t: TrendingPost) => TrendingItem(t, generatedAt);
    items := [];
    for i := 0 to n
      invariant |items| == i
      invariant forall j :: 0 <= j < i ==> items[j] == item(ranked[j])
    {
      items := items + [item(ranked[i])];
    }
    assert forall j :: 0 <= j < n ==> items[j] == TrendingItems(ranked[..n], generatedAt)[j];
  }

  /** The top of a ranking outscores the rest: nothing left out scores above anything kept. */
  lemma TopOutscoresRest(ranked: seq<TrendingPost>, n: nat)
    requires n <= |ranked|
    requires forall i, j :: 0 <= i < j < |ranked| ==> ranked[i].score >= ranked[j].score
    ensures forall i, j :: 0 <= i < n <= j < |ranked| ==> ranked[i].score >= ranked[j].score
  {
  }

  class TrendingRecommender {
    const postRepo: DynamoDBPostRepository
    const recoRepo: DynamoDBRecommendationRepository

    constructor (postRepo: DynamoDBPostRepository, recoRepo: DynamoDBRecommendationRepository)
      ensures this.postRepo == postRepo && this.recoRepo == recoRepo
    {
      this.postRepo := postRepo;
      this.recoRepo := recoRepo;
    }

    /** Steps 3 and 4: the items for the top of the ranking, written in one batch save. */
    method SaveTrending(ranked: seq<TrendingPost>, generatedAt: string, failing: set<nat>)
      returns (o: Outcome, ghost saved: seq<UserRecommendationItem>, ghost batches: seq<seq<RawItem>>)
      modifies recoRepo
      ensures saved == TrendingItems(ranked[..Min(|ranked|, MaxTrendingPosts)], generatedAt)
      ensures ChunkedWrite(old(recoRepo.rows), recoRepo.rows, RecommendationRepository.MarshalAll(saved),
                           failing, o.Success?, batches)
    {
      var numToSave := |ranked|;
      if numToSave > MaxTrendingPosts {
        numToSave := MaxTrendingPosts;
      }
      var items := TopItems(ranked, numToSave, generatedAt);
      saved := items;
      o, batches := recoRepo.SaveRecommendations(items, {}, failing);
    }

    /**
      GenerateRecommendations. `cutoff` is the instant LookbackDays before the run and
      `generatedAt` the run's timestamp; `recentOutage` and `failing` are the store's
      failures. `recent` are the posts fetched, `ranked` their scores after sorting,
      `saved` the items handed to SaveRecommendations and `batches` its writes.
    */
    method GenerateRecommendations(cutoff: string, generatedAt: string, recentOutage: bool, failing: set<nat>)
      returns (o: Outcome, ghost recent: seq<Post>, ghost ranked: seq<TrendingPost>,
               ghost saved: seq<UserRecommendationItem>, ghost batches: seq<seq<RawItem>>)
      requires postRepo.Valid()
      modifies recoRepo
      ensures recentOutage ==> o == Failure(RecentPostsFailed) && saved == [] && recoRepo.rows == old(recoRepo.rows)
      ensures !recentOutage ==>
                && |recent| == |postRepo.RecentKeys(cutoff)|
                && (forall k :: k in postRepo.RecentKeys(cutoff) ==> postRepo.records[k].post in recent)
                && (forall i :: 0 <= i < |recent| ==> IsRecent(recent[i], cutoff))
      ensures !recentOutage && recent == [] ==> o == Success && saved == [] && recoRepo.rows == old(recoRepo.rows)
      ensures !recentOutage && recent != [] ==>
                && multiset(ranked) == multiset(Scored(recent)) && |ranked| == |recent|
                && (forall i, j :: 0 <= i < j < |ranked| ==> ranked[i].score >= ranked[j].score)
                && saved == TrendingItems(ranked[..Min(|recent|, MaxTrendingPosts)], generatedAt)
                && ChunkedWrite(old(recoRepo.rows), recoRepo.rows, RecommendationRepository.MarshalAll(saved),
                                failing, o.Success?, batches)
                && (o.Failure? ==> o.error == SaveFailed)
    {
      recent, ranked, saved, batches := [], [], [], [];
      var fetched := postRepo.GetRecentPosts(cutoff, recentOutage);
      if fetched.Err? {
        return Failure(RecentPostsFailed), recent, ranked, saved, batches;
      }
      var posts := fetched.value;
      recent := posts;
      if |posts| == 0 {
        return Success, recent, ranked, saved, batches;
      }
      var order := RankPosts(posts);
      ranked := order;
      var so;
      so, saved, batches := SaveTrending(order, generatedAt, failing);
      if so.Failure? {
        return Failure(SaveFailed), recent, ranked, saved, batches;
      }
      return Success, recent, ranked, saved, batches;
    }
  }
}
