/**
 * The forum API's enums, entities and request bodies (src/kyf/models/moltbook.py).
 * A request model is a datatype plus the predicate its pydantic Field constraints
 * impose; constructing a request validates it, so the `...Of` functions return a
 * Result whose failure stands for pydantic's ValidationError.
 */
module MoltbookModels {
  import opened Wrappers

  datatype ValidationError = ValidationError(model: string)

  // ---- Enums (StrEnum): the constructor and its wire value ----

  datatype VoteDirection = Upvote | Downvote {
    function Value(): string {
      match this
      case Upvote => "upvote"
      case Downvote => "downvote"
    }
  }

  /** `VoteDirection(s)`: the member whose value is `s`, if any. */
  function ParseVoteDirection(s: string): (r: Option<VoteDirection>)
    ensures r.Some? ==> r.value.Value() == s
  {
    if s == "upvote" then Some(Upvote)
    else if s == "downvote" then Some(Downvote)
    else None
  }

  datatype PostSortOrder = Hot | New | Top | Rising {
    function Value(): string {
      match this
      case Hot => "hot"
      case New => "new"
      case Top => "top"
      case Rising => "rising"
    }
  }

  function ParsePostSortOrder(s: string): (r: Option<PostSortOrder>)
    ensures r.Some? ==> r.value.Value() == s
  {
    if s == "hot" then Some(Hot)
    else if s == "new" then Some(PostSortOrder.New)
    else if s == "top" then Some(PostSortOrder.Top)
    else if s == "rising" then Some(Rising)
    else None
  }

  datatype CommentSortOrder = Top | New | Controversial {
    function Value(): string {
      match this
      case Top => "top"
      case New => "new"
      case Controversial => "controversial"
    }
  }

  function ParseCommentSortOrder(s: string): (r: Option<CommentSortOrder>)
    ensures r.Some? ==> r.value.Value() == s
  {
    if s == "top" then Some(CommentSortOrder.Top)
    else if s == "new" then Some(CommentSortOrder.New)
    else if s == "controversial" then Some(Controversial)
    else None
  }

  /** Each enum value parses back to its member, so the three enums have distinct values. */
  lemma EnumValuesRoundTrip(d: VoteDirection, p: PostSortOrder, c: CommentSortOrder)
    ensures ParseVoteDirection(d.Value()) == Some(d)
    ensures ParsePostSortOrder(p.Value()) == Some(p)
    ensures ParseCommentSortOrder(c.Value()) == Some(c)
  {
  }

  // ---- Response entities ----

  datatype Post = Post(
    id: string,
    title: string,
    body: Option<string>,
    url: Option<string>,
    author: Option<string>,
    submolt: Option<string>,
    score: int,
    commentCount: int,
    createdAt: Option<string>)

  datatype Comment = Comment(
    id: string,
    body: string,
    author: Option<string>,
    postId: Option<string>,
    parentId: Option<string>,
    score: int,
    createdAt: Option<string>)

  /** A Post built from its two required fields; every other field takes its default. */
  function NewPost(id: string, title: string): (p: Post)
    ensures p.id == id && p.title == title
    ensures p.body.None? && p.url.None? && p.author.None? && p.submolt.None? && p.createdAt.None?
    ensures p.score == 0 && p.commentCount == 0
  {
    Post(id, title, None, None, None, None, 0, 0, None)
  }

  /** A Comment built from its two required fields; every other field takes its default. */
  function NewComment(id: string, body: string): (c: Comment)
    ensures c.id == id && c.body == body
    ensures c.author.None? && c.postId.None? && c.parentId.None? && c.createdAt.None?
    ensures c.score == 0
  {
    Comment(id, body, None, None, None, 0, None)
  }

  // ---- Request models ----

  datatype CreatePostRequest = CreatePostRequest(
    title: string, body: Option<string>, url: Option<string>, submolt: string)

  predicate ValidCreatePostRequest(r: CreatePostRequest) {
    && 1 <= |r.title| <= 300
    && (r.body.None? || |r.body.value| <= 10000)
    && 1 <= |r.submolt|
  }

  function CreatePostRequestOf(title: string, body: Option<string>, url: Option<string>, submolt: string)
    : (r: Result<CreatePostRequest, ValidationError>)
    ensures r.Success? <==> 1 <= |title| <= 300 && (body.None? || |body.value| <= 10000) && submolt != ""
    ensures r.Success? ==> r.value == CreatePostRequest(title, body, url, submolt) && ValidCreatePostRequest(r.value)
  {
    var req := CreatePostRequest(title, body, url, submolt);
    if ValidCreatePostRequest(req) then Success(req) else Failure(ValidationError("CreatePostRequest"))
  }

  datatype CreateCommentRequest = CreateCommentRequest(postId: string, body: string, parentId: Option<string>)

  predicate ValidCreateCommentRequest(r: CreateCommentRequest) {
    1 <= |r.postId| && 1 <= |r.body| <= 5000
  }

  function CreateCommentRequestOf(postId: string, body: string, parentId: Option<string>)
    : (r: Result<CreateCommentRequest, ValidationError>)
    ensures r.Success? <==> postId != "" && 1 <= |body| <= 5000
    ensures r.Success? ==> r.value == CreateCommentRequest(postId, body, parentId) && ValidCreateCommentRequest(r.value)
  {
    var req := CreateCommentRequest(postId, body, parentId);
    if ValidCreateCommentRequest(req) then Success(req) else Failure(ValidationError("CreateCommentRequest"))
  }

  datatype VoteRequest = VoteRequest(targetId: string, direction: VoteDirection)

  predicate ValidVoteRequest(r: VoteRequest) {
    1 <= |r.targetId|
  }

  /** The direction arrives as its string value, as in `VoteRequest.model_validate`. */
  function VoteRequestOf(targetId: string, direction: string): (r: Result<VoteRequest, ValidationError>)
    ensures r.Success? <==> targetId != "" && (direction == "upvote" || direction == "downvote")
    ensures r.Success? ==> r.value.targetId == targetId && r.value.direction.Value() == direction
  {
    match ParseVoteDirection(direction)
    case Some(d) =>
      if ValidVoteRequest(VoteRequest(targetId, d)) then Success(VoteRequest(targetId, d))
      else Failure(ValidationError("VoteRequest"))
    case None => Failure(ValidationError("VoteRequest"))
  }

  datatype CreateSubmoltRequest = CreateSubmoltRequest(name: string, displayName: string, description: Option<string>)

  /** The character class of the pattern `^[a-zA-Z0-9_]+$`. */
  predicate IsNameChar(c: char) {
    ('a' <= c <= 'z') || ('A' <= c <= 'Z') || ('0' <= c <= '9') || c == '_'
  }

  predicate ValidCreateSubmoltRequest(r: CreateSubmoltRequest) {
    && 1 <= |r.name| <= 50
    && (forall i :: 0 <= i < |r.name| ==> IsNameChar(r.name[i]))
    && 1 <= |r.displayName| <= 100
    && (r.description.None? || |r.description.value| <= 500)
  }

  function CreateSubmoltRequestOf(name: string, displayName: string, description: Option<string>)
    : (r: Result<CreateSubmoltRequest, ValidationError>)
    ensures r.Success? ==> r.value == CreateSubmoltRequest(name, displayName, description) && ValidCreateSubmoltRequest(r.value)
    ensures r.Success? <==> ValidCreateSubmoltRequest(CreateSubmoltRequest(name, displayName, description))
  {
    var req := CreateSubmoltRequest(name, displayName, description);
    if ValidCreateSubmoltRequest(req) then Success(req) else Failure(ValidationError("CreateSubmoltRequest"))
  }

  /** A valid submolt name holds none of the characters that delimit a URL path or query. */
  lemma SubmoltNameIsQuerySafe(r: CreateSubmoltRequest, i: int)
    requires ValidCreateSubmoltRequest(r) && 0 <= i < |r.name|
    ensures r.name[i] !in {'/', '?', '&', '=', '#', ' '}
  {
  }

  datatype UpdateProfileRequest = UpdateProfileRequest(description: Option<string>, avatarUrl: Option<string>)

  predicate ValidUpdateProfileRequest(r: UpdateProfileRequest) {
    r.description.None? || |r.description.value| <= 500
  }

  function UpdateProfileRequestOf(description: Option<string>, avatarUrl: Option<string>)
    : (r: Result<UpdateProfileRequest, ValidationError>)
    ensures r.Success? <==> (description.None? || |description.value| <= 500)
    ensures r.Success? ==> r.value == UpdateProfileRequest(description, avatarUrl)
  {
    var req := UpdateProfileRequest(description, avatarUrl);
    if ValidUpdateProfileRequest(req) then Success(req) else Failure(ValidationError("UpdateProfileRequest"))
  }
}
