# implSNS post/feed pipeline in Dafny

This project models the post and feed pipeline of the implSNS backend (Go, DynamoDB) and
proves properties of the model. The pipeline has six parts:

- **The single-table post store.** Posts, likes and comments share one key space. The
  store offers transactional like/unlike and comment/uncomment operations, a batched
  liked-status check, and bulk hydration that drops ids it cannot find.
- **The home feed endpoint.** It reads the follow feed and backfills it with
  recommendations when it is sparse. It then hydrates and enriches the posts, restores
  the candidate order and hands out a base64 cursor.
- **Fan-out of a new post** to every follower's feed, and the chunked batch writers of
  the feed and recommendation tables.
- **The tolerant feed reader.** It skips malformed items and decodes a TTL stored as a
  number or a numeric string.
- **The trending recommender.** It scores posts, sorts them, keeps the top 100 and keys
  each one by a zero-padded score.
- **The in-memory token blacklist.**

Each repository and service that the source updates in place is a `class`:

- The repositories hold the table they stand for, as a `map` from primary key to record.
- The services and the handler hold references to the repositories.

Everything outside the model becomes a parameter:

- **Store failures:** `outage` flags, plus sets of failing chunk indices or failing ids.
- **The wall clock and UUIDs:** `now`, `newID`, `generatedAt`, `clock` and `cutoff`.
- **The user repository:** an abstract `UserDirectory` value holding usernames and
  follower lists.
- **The recommendation source of the feed endpoint:** the parameter `recs`.

Files, one module each:

| file | module | models |
|---|---|---|
| wrappers.dfy | Wrappers | Option, Result, Outcome and the error cases |
| text.dfy | Text | prefixes, byte-wise string order, `strconv` parsing with ignored errors, zero padding |
| keys.dfy | Keys | the `USER#` / `POST#` / `COMMENT#` / `TRENDING#` key layout |
| chunking.dfy | Chunking | the `for i := 0; i < n; i += size` chunk loops (25 for writes, 100 for reads) |
| store.dfy | Store | raw items, BatchWriteItem as puts, Query as a descending, limited slice |
| base64.dfy | Base64 | `base64.StdEncoding` (section 4 of RFC 4648, with padding) |
| cursor.dfy | Cursor | the `next_key` cursor |
| post_repository.dfy | PostRepository | `post_repository_dynamodb.go` |
| feed_repository.dfy | FeedRepository | `feed_repository_dynamodb.go` |
| recommendation_repository.dfy | RecommendationRepository | `recommendation_repository_dynamodb.go` |
| token_repository.dfy | TokenRepository | `memory_token_repository.go` |
| trending.dfy | Trending | `recommendation/trending.go` |
| sorting.dfy | Sorting | in-place insertion sort used for the two sorts |
| post_service.dfy | PostService | `service/post_service.go` |
| post_handler.dfy | PostHandler | `GetFeedPosts` in `handler/post_handler.go` |

## Model

| member | source | states |
|---|---|---|
| Text.TrimPrefix | backend/internal/repository/post_repository_dynamodb.go:137-138 | strings.TrimPrefix: when the prefix is there, prefix + result is the input; otherwise the input is returned unchanged |
| Text.ParseUintIgnoringError | backend/internal/handler/post_handler.go:259 | `strconv.ParseUint(s, 10, 64)` with its error ignored: below 2^64; the parsed value whenever the text is a valid uint64; 2^64-1 when the leading digits overflow before any other character is met; 0 on any other syntax error |
| Text.OverflowBeforeJunk | backend/internal/handler/post_handler.go:259 | digits worth 2^64 or more make ParseUint answer 2^64-1 whatever follows them |
| Text.JunkBeforeOverflow | backend/internal/handler/post_handler.go:259 | a non-digit after digits that still fit in uint64 makes ParseUint answer 0 |
| Text.AtoiIgnoringError | backend/internal/handler/post_handler.go:177 | `strconv.Atoi` with its error ignored: within int64; the parsed value when valid; when the digits after the sign overflow uint64 before any other character, the int64 bound of the sign; 0 when a syntax error comes first |
| Text.ParseIntOfDecimal | backend/internal/repository/feed_repository_dynamodb.go:135 | every int64 written in decimal parses back to itself |
| Text.FixedDigitsOrder | backend/internal/recommendation/trending.go:86 | zero-padded numbers of one width compare as strings exactly as the numbers do |
| Text.LessTransitive | backend/internal/repository/feed_repository_dynamodb.go:85-94 | the store's string order on sort keys is transitive (with LessTotal, LessAsymmetric and LessIrreflexive it is a strict total order) |
| Keys.UserPartition | backend/internal/repository/post_repository_dynamodb.go:372 | "USER#"+id begins with "USER#" and trimming the tag gives the id back |
| Keys.PostPartition | backend/internal/repository/post_repository_dynamodb.go:374 | "POST#"+id begins with "POST#" and trimming the tag gives the id back |
| Keys.LikeKey | backend/internal/repository/post_repository_dynamodb.go:150-151 | a like lives at ("POST#"+post, "USER#"+user) |
| Keys.LikeKeyInjective | backend/internal/repository/post_repository_dynamodb.go:150-151 | two likes share a key only if they are for the same post and user, so there is at most one like per (post, user) |
| Keys.CommentSortKey | backend/internal/repository/post_repository_dynamodb.go:254 | a comment's sort key begins with "COMMENT#" |
| Keys.PostAndLikePartitionsDiffer | backend/internal/repository/post_repository_dynamodb.go:372-375 | a "USER#" partition key is never a "POST#" one, so post records and like records never collide |
| Chunking.Chunks | backend/internal/repository/feed_repository_dynamodb.go:56-66 | the chunk loop yields ceil(n/size) chunks, each non-empty and at most `size` long, chunk k being elements k*size up to (k+1)*size |
| Chunking.FlattenChunks | backend/internal/repository/feed_repository_dynamodb.go:56-66 | the chunks concatenated in order are exactly the input |
| Chunking.FlattenChunksPrefix | backend/internal/repository/feed_repository_dynamodb.go:70-74 | the first k chunks concatenated are the first min(k*size, n) elements |
| Store.PutAllAppend | backend/internal/repository/feed_repository_dynamodb.go:57-75 | writing a+b is writing a and then b |
| Store.PutAllContents | backend/internal/repository/feed_repository_dynamodb.go:57-75 | after the puts, a key is present iff it was present or was written; a key nobody wrote keeps its item |
| Store.PutAllConsistent | backend/internal/repository/feed_repository_dynamodb.go:57-75 | when requests agree wherever their keys do, every request is in place after the puts |
| Store.WriteInChunks | backend/internal/repository/feed_repository_dynamodb.go:56-78 | the batch-write loop: either every chunk of at most 25 is written and the table is the old one plus all requests, or chunk k is the first failure and chunks 0..k-1 are written and nothing after them; the requests sent are the chunks in order |
| Store.TakeDescending | backend/internal/repository/feed_repository_dynamodb.go:85-94 | the keys taken are candidates, in strictly descending sort-key order, with no candidate skipped, min(limit, #candidates) of them |
| Store.HighestExists | backend/internal/repository/feed_repository_dynamodb.go:85-94 | a non-empty set of keys of one partition has a key above all the others |
| Store.Query | backend/internal/repository/feed_repository_dynamodb.go:85-99 | Query with ScanIndexForward=false: a limit below 1 is an error; otherwise a page as above, with LastEvaluatedKey the last key exactly when the limit was reached |
| Base64.Encode | backend/internal/handler/post_handler.go:300 | EncodeToString output is 4*ceil(n/3) characters long |
| Base64.EncodedCharacters | backend/internal/handler/post_handler.go:300 | EncodeToString writes only alphabet characters and '=' |
| Base64.DecodeEncode | backend/internal/handler/post_handler.go:180-188 | DecodeString(EncodeToString(b)) gives b back |
| Base64.RaggedLengthRejected | backend/internal/handler/post_handler.go:182-186 | text whose length (newlines aside) is not a multiple of 4 is rejected |
| Base64.ForeignCharRejected | backend/internal/handler/post_handler.go:182-186 | a character outside the alphabet, padding and newlines makes the text invalid |
| Cursor.ParseSerialize | backend/internal/handler/post_handler.go:299 | the key serialiser is injective: parsing gives the key back |
| Cursor.EncodeNextKey | backend/internal/handler/post_handler.go:297-301 | next_key is "" exactly when there is no LastEvaluatedKey |
| Cursor.DecodeNextKey | backend/internal/handler/post_handler.go:178-188 | an empty next_key means no start key; it is an error (400) exactly when it is non-empty and not valid base64 |
| Cursor.NextKeyRoundTrip | backend/internal/handler/post_handler.go:297-301 | through the injective serialiser standing for `json.Marshal`/`json.Unmarshal`, a next_key the endpoint handed out decodes to the key it came from (Go's own unmarshal does not restore it; see "## Left out") |
| PostRepository.NewLike | backend/internal/repository/post_repository_dynamodb.go:149-156 | the like record AddLike writes sits at the like key of its post and user |
| PostRepository.AddCounters | backend/internal/repository/post_repository_dynamodb.go:177-185 | ADD like_count, comment_count: the counters move by the deltas (from 0 on a missing item) and every other record is untouched |
| PostRepository.AddCountersWellPlaced | backend/internal/repository/post_repository_dynamodb.go:177-185 | a counter update that keeps both counters non-negative keeps the table's layout invariant |
| PostRepository.LikeRecordAt | backend/internal/repository/post_repository_dynamodb.go:150-151 | in a well-formed table, what sits at a like key is that post's like by that user |
| PostRepository.UnlikeUndoesLike | backend/internal/repository/post_repository_dynamodb.go:148-244 | liking and then unliking restores the table exactly |
| PostRepository.UncommentUndoesComment | backend/internal/repository/post_repository_dynamodb.go:248-337 | commenting and then deleting that comment restores the table exactly |
| PostRepository.UpdatedAsWritten | backend/internal/repository/post_repository_dynamodb.go:434-437 | the update as written: the content is replaced, updated_at keeps its old value, nothing else changes |
| PostRepository.Updated | backend/internal/repository/post_repository_dynamodb.go:434-437 | the intended update sets the content and updated_at and changes nothing else |
| PostRepository.UpdateAsWrittenKeepsStaleTimestamp | backend/internal/repository/post_repository_dynamodb.go:434 | as written, an edit leaves updated_at as it was, where the intended update moves it |
| PostRepository.DynamoDBPostRepository.IndexedPostHasID | backend/internal/repository/post_repository_dynamodb.go:490-507 | a post found under GSI1PK "POST#"+id has that id, is stored at its own key, and that key is the one DeletePost rebuilds |
| PostRepository.DynamoDBPostRepository.Fetchable | backend/internal/repository/post_repository_dynamodb.go:611-627 | the ids bulk hydration can return are all requested ids |
| PostRepository.DynamoDBPostRepository.CreatePost | backend/internal/repository/post_repository_dynamodb.go:363-393 | sets PK "USER#"+author, SK "POST#"+ts+"#"+id, GSI1PK "POST#"+id, GSI1SK "METADATA", type POST, created_at = updated_at = ts, keeps every other field, and puts it; the delete key of the result is its own key |
| PostRepository.DynamoDBPostRepository.DeletePost | backend/internal/repository/post_repository_dynamodb.go:460-487 | removes exactly the key rebuilt from (author, id, createdAt), unconditionally |
| PostRepository.DynamoDBPostRepository.GetPostByID | backend/internal/repository/post_repository_dynamodb.go:490-515 | an error when the index yields no item; otherwise a post from the index, with the requested id |
| PostRepository.DynamoDBPostRepository.GetPostsByIDs | backend/internal/repository/post_repository_dynamodb.go:557-631 | empty for empty input, never an error; the ids returned are, as a multiset, the requested ids whose lookup succeeds (failed ones dropped), each post found under its own id |
| PostRepository.DynamoDBPostRepository.CheckIfPostsLikedBy | backend/internal/repository/post_repository_dynamodb.go:85-146 | empty map for empty input; an error iff some chunk of at most 100 keys fails, with the earlier chunks sent and none after; otherwise an entry for exactly the requested ids, true iff the viewer's like record exists |
| PostRepository.DynamoDBPostRepository.MarkLiked | backend/internal/repository/post_repository_dynamodb.go:128-141 | reading one batch response marks exactly the requested ids of that batch whose like exists, recovering each id from its "POST#" partition key |
| PostRepository.DynamoDBPostRepository.AddLike | backend/internal/repository/post_repository_dynamodb.go:148-198 | succeeds iff the store is reachable and there is no like for (post, user), and then puts the like and adds 1 to like_count, both together; with a like already there: the "already liked" error and nothing changes |
| PostRepository.DynamoDBPostRepository.RemoveLike | backend/internal/repository/post_repository_dynamodb.go:201-245 | succeeds iff the store is reachable, the like exists and like_count > 0, and then deletes it and subtracts 1; otherwise nothing changes, so like_count never goes negative |
| PostRepository.DynamoDBPostRepository.CreateComment | backend/internal/repository/post_repository_dynamodb.go:248-295 | writes the comment at ("POST#"+post, "COMMENT#"+ts+"#"+id) and adds 1 to comment_count, both or neither |
| PostRepository.DynamoDBPostRepository.DeleteComment | backend/internal/repository/post_repository_dynamodb.go:298-337 | succeeds iff the store is reachable and comment_count is positive, and then deletes the key, whether or not a comment is there, and subtracts 1; otherwise nothing changes |
| PostRepository.DynamoDBPostRepository.GetCommentBySK | backend/internal/repository/post_repository_dynamodb.go:340-360 | "comment not found" when nothing is stored at ("POST#"+post, sk); otherwise the stored item read as a comment |
| PostRepository.DynamoDBPostRepository.GetRecentPosts | backend/internal/repository/post_repository_dynamodb.go:57-83 | the scan returns exactly the POST records created at or after the cutoff, each once |
| PostRepository.DynamoDBPostRepository.GetPostsByUserID | backend/internal/repository/post_repository_dynamodb.go:396-420 | the posts of partition "USER#"+user with sort key beginning "POST#", newest first, every one of them (the 1 MB page cut is not modelled; see "## Left out") |
| PostRepository.DynamoDBPostRepository.UpdatePost | backend/internal/repository/post_repository_dynamodb.go:423-457 | succeeds iff the store is reachable; the post at the given key gets the new content while its updated_at stays as it was; the rest of the table is untouched |
| FeedRepository.MarshalFeedItem | backend/internal/repository/feed_repository_dynamodb.go:41-53 | a marshalled feed item is stored under its own (PK, SK) |
| FeedRepository.DecodeMarshalled | backend/internal/repository/feed_repository_dynamodb.go:105-143 | decoding what fan-out writes gives the feed item back |
| FeedRepository.DecodeAll | backend/internal/repository/feed_repository_dynamodb.go:105-144 | malformed items are skipped, so there are at most as many items as raw items |
| FeedRepository.DecodeAllMarshalled | backend/internal/repository/feed_repository_dynamodb.go:105-144 | nothing fan-out wrote is skipped: all items come back in order |
| FeedRepository.DecodePage | backend/internal/repository/feed_repository_dynamodb.go:103-144 | the decode loop yields the page's items in order with malformed ones skipped |
| FeedRepository.DynamoDBFeedRepository.BatchAddToFeed | backend/internal/repository/feed_repository_dynamodb.go:36-79 | no writes for an empty list; a marshal failure returns before any write; otherwise the chunked write of at most 25 per batch stops at the first failing chunk |
| FeedRepository.DynamoDBFeedRepository.GetUserFeed | backend/internal/repository/feed_repository_dynamodb.go:82-153 | partition "USER#"+user, descending, at most `limit` keys from the start key, decoded with skips, and LastEvaluatedKey passed through |
| RecommendationRepository.MarshalRecommendation | backend/internal/repository/recommendation_repository_dynamodb.go:46-58 | a marshalled item is stored under its own (PK, SK), every field a string attribute |
| RecommendationRepository.DecodeRecommendation | backend/internal/repository/recommendation_repository_dynamodb.go:104-109 | unmarshalling succeeds iff every named field is absent or a string |
| RecommendationRepository.DecodeAll | backend/internal/repository/recommendation_repository_dynamodb.go:104-109 | the whole list fails iff some item fails; otherwise the items decoded in order |
| RecommendationRepository.DecodeAllMarshalled | backend/internal/repository/recommendation_repository_dynamodb.go:104-109 | reading back what was saved gives the items back |
| RecommendationRepository.DynamoDBRecommendationRepository.SaveRecommendations | backend/internal/repository/recommendation_repository_dynamodb.go:41-83 | no writes for an empty list; a marshal failure returns before any write; otherwise chunks of at most 25 in order, stopping at the first failure |
| RecommendationRepository.DynamoDBRecommendationRepository.GetGlobalTrending | backend/internal/repository/recommendation_repository_dynamodb.go:86-112 | partition "TRENDING#"+version, at most `limit` items, highest SK first |
| RecommendationRepository.DynamoDBRecommendationRepository.GetUserRecommendations | backend/internal/repository/recommendation_repository_dynamodb.go:116-142 | partition "USER#"+user, at most `limit` items, highest SK first |
| TokenRepository.AfterQuery | backend/internal/repository/memory_token_repository.go:40-42 | a query removes the token's entry only when it is strictly past expiry; every other entry stays |
| TokenRepository.BlacklistedUntilExpiry | backend/internal/repository/memory_token_repository.go:26-37 | after blacklisting with expiry e, the token is blacklisted at every now < e |
| TokenRepository.BlacklistOverwrites | backend/internal/repository/memory_token_repository.go:27 | blacklisting again overwrites the expiry: only the last one counts |
| TokenRepository.QueryAtExpiry | backend/internal/repository/memory_token_repository.go:36-40 | at now == expiry the token is not blacklisted and its entry stays |
| TokenRepository.MemoryTokenBlacklist.BlacklistToken | backend/internal/repository/memory_token_repository.go:26-31 | the entry is set to the new expiry; the token is blacklisted just before it |
| TokenRepository.MemoryTokenBlacklist.IsTokenBlacklisted | backend/internal/repository/memory_token_repository.go:34-44 | true iff present and not yet expired; false for a token never blacklisted; an expired entry is removed; every other entry is unchanged |
| Trending.Score | backend/internal/recommendation/trending.go:61 | the score is likes*1 + comments*0 |
| Trending.CommentsDoNotCount | backend/internal/recommendation/trending.go:61 | comments do not change the score |
| Trending.ScoreTextShape | backend/internal/recommendation/trending.go:86 | %010.2f of an integral score is at least 10 characters and ends ".00" |
| Trending.ScoreTextOfSmallScore | backend/internal/recommendation/trending.go:86 | below 10^7 the score text is the 7-digit zero-padded score followed by ".00" |
| Trending.TrendingItemShape | backend/internal/recommendation/trending.go:86-93 | each item has PK "TRENDING#trending-v1.0", version "trending-v1.0", its post id, and SK = score text + "#" + post id |
| Trending.SortKeysDistinct | backend/internal/recommendation/trending.go:86 | distinct post ids give distinct sort keys |
| Trending.SortKeyFollowsScore | backend/internal/recommendation/trending.go:85-90 | for scores 0 <= a < b < 10^7, the sort key of a is below that of b |
| Trending.SortKeyOrderBreaksAtTenMillion | backend/internal/recommendation/trending.go:85-90 | at 10^7 the string order of sort keys stops following the score order |
| Sorting.SortByKey | backend/internal/recommendation/trending.go:66-68 | the in-place sort leaves the array ordered by the key and a permutation of what it held |
| Trending.RankPosts | backend/internal/recommendation/trending.go:59-68 | the ranked list is a permutation of the scored posts, in non-increasing score order |
| Trending.TopItems | backend/internal/recommendation/trending.go:82-98 | the item loop builds the items of the first n ranked posts, in rank order |
| Trending.TopOutscoresRest | backend/internal/recommendation/trending.go:66-80 | no post left out scores higher than one kept |
| Trending.TrendingRecommender.SaveTrending | backend/internal/recommendation/trending.go:76-107 | saves the items of the top min(#posts, 100) ranked posts through the chunked write |
| Trending.TrendingRecommender.GenerateRecommendations | backend/internal/recommendation/trending.go:45-110 | a fetch error saves nothing; no recent posts means success with no save; otherwise a descending permutation of the scored posts, of which the first min(n, 100) are saved |
| PostService.AuthorNameOfDecimal | backend/internal/service/post_service.go:131-137 | an author id written in decimal finds its own user's name |
| PostService.FeedItemFor | backend/internal/service/post_service.go:79-88 | a follower's feed item is keyed ("USER#"+follower, post createdAt) |
| PostService.FeedKeyInjective | backend/internal/service/post_service.go:81 | distinct followers get distinct feed keys |
| PostService.FanOutDelivers | backend/internal/service/post_service.go:77-94 | after the write, every follower's feed holds the post's item |
| PostService.FanOutLeavesOthers | backend/internal/service/post_service.go:77-94 | the write touches no key other than the followers' feed keys |
| PostService.PostService.CreatePost | backend/internal/service/post_service.go:31-50 | the post is built from the payload with zero counters and stored; then fan-out runs |
| PostService.PostService.FanOutToFollowers | backend/internal/service/post_service.go:52-97 | an unparseable author, a lookup error or no followers give no writes; otherwise one BatchAddToFeed of one item per follower, and on success every follower's feed holds the post |
| PostService.PostService.ViewerLikes | backend/internal/service/post_service.go:111-124 | a post reads as liked only if the viewer is non-empty and the like exists; exactly then when the check succeeds; none when it fails |
| PostService.PostService.PresentPosts | backend/internal/service/post_service.go:126-154 | one DTO per post, in order, with the author's name or "User ID: "+id |
| PostService.PostService.GetPostsByUserID | backend/internal/service/post_service.go:99-157 | repository order kept; each DTO shows its stored post; isLiked all false without a viewer or when the check fails, otherwise the like record's existence |
| PostService.PostService.UpdatePost | backend/internal/service/post_service.go:160-177 | "post not found" without a write for an unknown id; otherwise the stored post's key gets the new content, its updated_at unchanged, and the post is returned with the new content |
| PostService.PostService.DeletePost | backend/internal/service/post_service.go:180-196 | "post not found" for an unknown id; otherwise deletes at the stored post's own key, with no ownership check |
| PostService.PostService.LikePost | backend/internal/service/post_service.go:198-212 | "post not found" for an unknown id, with no change; for a found post, success iff the store is reachable and the user has not liked it, with the like and the count written together |
| PostService.PostService.UnlikePost | backend/internal/service/post_service.go:215-228 | "post not found" for an unknown id, with no change; for a found post, success iff the store is reachable, the like exists and like_count > 0, with the like removed and the count lowered together |
| PostService.PostService.CreateComment | backend/internal/service/post_service.go:231-257 | "author not found" with no write when the lookup fails; otherwise the comment carries the looked-up username |
| PostService.PostService.DeleteComment | backend/internal/service/post_service.go:260-287 | a read error, a missing comment or a comment by someone else ("not authorized") deletes nothing; the author's own comment on an unknown post gives "post not found"; on a found post, success iff the store is reachable and comment_count > 0, deleting the comment and lowering the count together |
| PostHandler.Int32Wrap | backend/internal/handler/post_handler.go:194 | int32(x) lies in the int32 range, is congruent to x mod 2^32, and is x when x fits |
| PostHandler.DefaultFeedLimit | backend/internal/handler/post_handler.go:177 | without a limit parameter the limit is 20 |
| PostHandler.DecimalLimitKept | backend/internal/handler/post_handler.go:177-194 | a positive limit that fits in int32 is kept |
| PostHandler.WrappedLimit | backend/internal/handler/post_handler.go:177-194 | a limit of 2^32 + n wraps to n |
| PostHandler.Backfill | backend/internal/handler/post_handler.go:219-228 | keeps the ids and appends unseen recommendations, each once, stopping at 20; when it stops short every recommendation is in |
| PostHandler.Lookout | backend/internal/handler/post_handler.go:214 | at most 50 recommendations are requested |
| PostHandler.FeedCandidates | backend/internal/handler/post_handler.go:201-230 | the feed ids in order, then (only below 10 feed ids and when recommendations arrive) unseen recommendation ids, none twice, at most 20 in all; a fetch error leaves just the feed ids |
| PostHandler.CollectCandidates | backend/internal/handler/post_handler.go:201-230 | the loops build exactly the candidate list above |
| PostHandler.LookupAuthor | backend/internal/handler/post_handler.go:257-268 | a cache hit reuses the name and a miss looks it up; either way the name is the user's name or "未知的使用者" |
| PostHandler.PresentAll | backend/internal/handler/post_handler.go:253-285 | one enriched DTO per post, in order, with each distinct author looked up exactly once; isLiked reads a missing map entry as false |
| PostHandler.CandidateIndex | backend/internal/handler/post_handler.go:288-291 | the position map holds an id's last position in the candidate list |
| PostHandler.BuildOrder | backend/internal/handler/post_handler.go:288-291 | the loop maps exactly the candidate ids, each to its last position |
| PostHandler.OrderByCandidates | backend/internal/handler/post_handler.go:292-294 | the output is a permutation of the DTOs ordered by candidate position |
| PostHandler.CandidateOrder | backend/internal/handler/post_handler.go:288-294 | distinct output ids sorted by position appear in the candidate list in the same order (a subsequence) |
| PostHandler.PostHandler.Hydrate | backend/internal/handler/post_handler.go:237-294 | the fetchable candidates, in candidate order, each a stored post with the feed's author name; liked only if the like exists, exactly then when the check went through, never when it failed |
| PostHandler.PostHandler.ServeFeed | backend/internal/handler/post_handler.go:194-303 | a feed read error is 500; no candidates give an empty page and next_key ""; otherwise the hydrated candidates with the page's cursor |
| PostHandler.PostHandler.GetFeedPosts | backend/internal/handler/post_handler.go:163-305 | no viewer: 401; an empty viewer: 500; no userID: 400; malformed next_key: 400; a feed error or non-positive limit: 500; otherwise a page served as above |
| PostHandler.PostHandler.ShownPosts | backend/internal/handler/post_handler.go:238-294 | reordering keeps the fetched ids as a multiset, each DTO a stored post, and the liked facts |

## Left out

- Floating point. The score is a `float64` formatted with `%010.2f`. The model uses
  integer scores, so the text is always the integer part padded to at least 7 digits,
  followed by ".00".
- The `float64` branch of TTL decoding: a number attribute is an integer here.
- The latitude and longitude of a Location: they are floats. A Location keeps only its name.
- DynamoDB's expression strings, `attributevalue` marshalling and the SDK error types.
  The store is a map from key to record. Query is a filtered, descending, limited slice,
  and a transaction is a conditional all-or-nothing update. Errors become the cases of
  `Wrappers.Error`.
- Scan pagination and BatchGetItem's UnprocessedKeys: a scan or a batch read returns
  everything in one response.
- Cursor.DecodeNextKey: the JSON step of the cursor is an injective serialiser of the
  (PK, SK) pair, and a well-formed base64 that does not parse as a key gives no start
  key. Go behaves differently. `json.Marshal` of the LastEvaluatedKey writes each
  attribute as `{"Value": ...}`, and `json.Unmarshal` back into a
  `map[string]types.AttributeValue` cannot fill the interface values. The error is
  ignored, and the map is left with nil attribute values under "PK" and "SK". A request
  for a second page therefore does not resume at the key it was given, which the model
  does not show. Cursor.NextKeyRoundTrip holds for the serialiser, not for Go's JSON.
- Store.Query: two DynamoDB behaviours are not modelled.
  - The 1 MB page cut. A Query page stops at 1 MB of data and returns a LastEvaluatedKey
    even when the limit was not reached. The model cuts a page only at the limit.
    PostRepository.DynamoDBPostRepository.GetPostsByUserID sends one Query with no
    limit and never follows LastEvaluatedKey, so in the source a user with more than
    1 MB of posts gets only the first page; the model returns every post.
    FeedRepository.DynamoDBFeedRepository.GetUserFeed could likewise return a shorter
    page with a cursor.
  - A start key from another partition. Store.Candidates ignores the partition of the
    exclusive start key. DynamoDB rejects such a key with a ValidationException, which
    GetUserFeed passes on and GetFeedPosts answers with 500.
- The detached fan-out goroutine of CreatePost is a direct call.
- PostRepository.DynamoDBPostRepository.GetPostsByIDs: its lookups run as goroutines in
  the source; here they run in sequence, and the contract states only the multiset of
  returned ids, not their order.
- PostRepository.DynamoDBPostRepository.GetRecentPosts: a scan returns items in no
  particular order, so only which posts come back is stated.
- The wall clock, UUIDs, the lookback cutoff and the TTL clock are parameters.
- Trending.TrendingRecommender.GenerateRecommendations: the source calls `time.Now()`
  once per item; the model stamps every item with one `generatedAt`. Its "saved" also
  inherits SaveTrending's assumption that no item comes back unprocessed.
- Logging: no log line is modelled.
- The user repository (SQL) is an abstract `UserDirectory`. It maps user ids to
  usernames and to follower lists, and it stands in for `GetUserByID` and `GetFollowers`;
  a failed lookup is an id it does not hold. Their uint/string signature mismatch is not
  reconciled.
- The recommendation source of GetFeedPosts calls a method that the recommendation
  repository's interface does not declare. It is the parameter `recs`: ranked post ids,
  or None on error.
- GetFeedItemsByUserID is not modelled. It reads a `FEEDITEM#` prefix that nothing in
  the modelled code writes, and nothing in the feed path calls it.
- A viewer id of a type other than string in the request context is not modelled. The
  context holds either a string or nothing.
- PostHandler.OrderByCandidates: stability of `sort.SliceStable` is not stated. The
  posts it orders have distinct ids, one fetch per distinct candidate, so two of them
  never share a position.
- Trending.RankPosts: the order among equal scores is not stated; `sort.Slice` leaves
  it unspecified in the source too.
- PostRepository.DynamoDBPostRepository.AddLike: requires the post's PK to begin with
  "USER#". Every post it is given comes from the store's own index, where that holds.
- PostRepository.DynamoDBPostRepository.RemoveLike: requires "USER#" at the head of the
  post's PK, as AddLike does.
- PostRepository.DynamoDBPostRepository.CreateComment: requires "USER#" at the head of
  the post's PK, as AddLike does.
- PostRepository.DynamoDBPostRepository.DeleteComment: requires "USER#" at the head of
  the post's PK, as AddLike does.
- PostRepository.DynamoDBPostRepository.UpdatePost: requires "USER#" at the head of the
  post's PK, as AddLike does.
- PostRepository.DynamoDBPostRepository.CreatePost: requires non-negative counters in
  the draft. The service always passes zeros.
- RecommendationRepository.DecodeRecommendation: a number or other non-string attribute
  in a named field is an unmarshal error; no conversion between attribute types is
  modelled.
- Store.WriteInChunks: a chunk the store accepts counts as fully written. BatchWriteItem
  may return some items as UnprocessedItems; the source discards that response and
  never retries them, so a write it reports as successful may have left items unwritten.
- FeedRepository.DynamoDBFeedRepository.BatchAddToFeed: on success every item counts as
  stored, because Store.WriteInChunks does not model UnprocessedItems.
- RecommendationRepository.DynamoDBRecommendationRepository.SaveRecommendations: on
  success every row counts as saved, because Store.WriteInChunks does not model
  UnprocessedItems.
- Trending.TrendingRecommender.SaveTrending: on success every item counts as saved, for
  the same reason.
- PostService.PostService.FanOutToFollowers: "on success every follower's feed holds the
  post" assumes the store processed every item of every batch; unprocessed items are
  dropped silently in the source.
- TokenRepository.MemoryTokenBlacklist: the source's map has no mutex and HTTP handlers
  call it concurrently, where a concurrent read and write of a Go map is a fatal runtime
  error. The class models one call at a time.
- Trending.SortKeyFollowsScore: the score-to-key order is proved only below 10^7.
  Trending.SortKeyOrderBreaksAtTenMillion shows that it fails from there on.
- Authentication, routing, configuration, the other handlers and services, and the
  frontend are not part of this model.

## Findings

| source | as written | input that shows it | evidently intended | confidence | as-written member | corrected member |
|---|---|---|---|---|---|---|
| backend/internal/repository/post_repository_dynamodb.go:434 | UpdatePost sets attribute `updatedAt`, but the post model stores its update time under `updated_at` (backend/internal/models/post_model.go:19), so an edit never changes the update time that is read back | a post with updated_at = "t0", edited at now = "t1" | the edit sets `updated_at` to the time of the edit | not executed | PostRepository.UpdateAsWrittenKeepsStaleTimestamp | PostRepository.Updated |
