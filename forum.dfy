/**
 * The forum operations the agent calls, shaped after `AbstractMoltbookClient`
 * (src/kyf/clients/base.py). Each call may succeed with any value or fail;
 * `ClientError` is a `MoltbookClientError` (the host guard or an API error
 * envelope), `OtherError` any other exception (transport errors, exhausted
 * retries, a body that is not an object or does not validate, the limiter's
 * IndexError).
 */
module Forum {
  import opened Wrappers
  import opened MoltbookModels
  import MoltbookClient

  datatype ForumError =
    | ClientError(error: MoltbookClient.ClientError)
    | OtherError(description: string)

  datatype ForumCall =
    | FetchHeartbeatCall(ok: bool)
    | GetPostsCall(sort: PostSortOrder, posts: Result<seq<Post>, ForumError>)
    | CreateCommentCall(comment: CreateCommentRequest, created: Result<Comment, ForumError>)
    | VoteCall(vote: VoteRequest, ok: bool)
    | CreatePostCall(post: CreatePostRequest, published: Result<Post, ForumError>)

  /**
   * How a request that tenacity gave up on with `reraise` reaches the agent:
   * a `MoltbookClientError` stays a client error, any other exception is
   * another error. Without `reraise` every failure would be `RetryError`,
   * another error.
   */
  function ForumErrorOf(e: MoltbookClient.RetriedError): (f: ForumError)
    ensures f.ClientError? <==> MoltbookClient.IsClientError(e)
    ensures f.ClientError? ==> e == MoltbookClient.Reraised(MoltbookClient.Client(f.error))
  {
    match e
    case Reraised(Client(c)) => ClientError(c)
    case Reraised(NotAnObject) => OtherError("AttributeError")
    case Reraised(LimiterIndexError) => OtherError("IndexError")
    case RetryError(_) => OtherError("RetryError")
  }

  class ForumClient {
    /** Every call so far, in order, with its outcome. */
    ghost var calls: seq<ForumCall>

    constructor ()
      ensures calls == []
    {
      calls := [];
    }

    method FetchHeartbeat() returns (r: Result<string, ForumError>)
      modifies this
      ensures calls == old(calls) + [FetchHeartbeatCall(r.Success?)]
    {
      r :| true;
      calls := calls + [FetchHeartbeatCall(r.Success?)];
    }

    method GetPosts(sort: PostSortOrder) returns (r: Result<seq<Post>, ForumError>)
      modifies this
      ensures calls == old(calls) + [GetPostsCall(sort, r)]
    {
      r :| true;
      calls := calls + [GetPostsCall(sort, r)];
    }

    method CreateComment(request: CreateCommentRequest) returns (r: Result<Comment, ForumError>)
      modifies this
      ensures calls == old(calls) + [CreateCommentCall(request, r)]
    {
      r :| true;
      calls := calls + [CreateCommentCall(request, r)];
    }

    method Vote(request: VoteRequest) returns (r: Result<(), ForumError>)
      modifies this
      ensures calls == old(calls) + [VoteCall(request, r.Success?)]
    {
      r :| true;
      calls := calls + [VoteCall(request, r.Success?)];
    }

    method CreatePost(request: CreatePostRequest) returns (r: Result<Post, ForumError>)
      modifies this
      ensures calls == old(calls) + [CreatePostCall(request, r)]
    {
      r :| true;
      calls := calls + [CreatePostCall(request, r)];
    }
  }
}
