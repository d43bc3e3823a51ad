/** Option and Result, and the errors the post/feed pipeline can report. */
module Wrappers {

  datatype Option<T> = None | Some(value: T) {
    function GetOr(default: T): T {
      match this
      case Some(v) => v
      case None => default
    }
  }

  /** The distinct error outcomes of the modelled code (Go returns them as `error` values). */
  datatype Error =
    | PostNotFound          // GetPostByID: the index yields no item; the service says "post not found"
    | CommentNotFound       // GetCommentBySK: "comment not found"
    | AlreadyLiked          // AddLike: "transaction failed, possibly already liked"
    | NotLikedOrZero        // RemoveLike: "transaction failed, possibly not liked yet or count is zero"
    | TransactionCanceled   // DeleteComment: the counter condition failed, the raw SDK error is returned
    | NotAuthorized         // DeleteComment: "user not authorized to delete this comment"
    | AuthorNotFound        // CreateComment: "author not found"
    | Unavailable           // a store or network failure
    | InvalidInput          // a request the store rejects as malformed (e.g. Limit < 1)
    | MarshalFailed         // attributevalue.MarshalMap failed
    | UnmarshalFailed       // attributevalue.UnmarshalListOfMaps failed
    | BatchWriteFailed      // "failed to batch write ... items"
    | RecentPostsFailed     // "could not get recent posts"
    | SaveFailed            // "failed to save recommendations"

  datatype Result<T> = Ok(value: T) | Err(error: Error)

  /** The outcome of an operation whose only result is its `error` (nil or not). */
  datatype Outcome = Success | Failure(error: Error)
}
