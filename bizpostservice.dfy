/** The post service of the business backend
    (`internal/service/impl/post_service.go`): guard chains in front of the
    `PostRepo` interface. The interface is a record of functions over a
    repository state `S`; a read returns a value, a write also returns the
    new state. The in-memory repository is one instance of it. */
module BizPostService {
  import opened Wrappers
  import opened ApiErrors
  import AuthContext
  import Text
  import BizRepos
  import MockRepos

  type DomainPost = MockRepos.DomainPost

  /** How a call fails: an API error, or a nil post being dereferenced. */
  datatype Failure = Api(error: ApiError) | NilPost

  /** The `PostRepo` interface. A lookup that finds nothing without an error
      (the in-memory repository's answer) is `Ok(None)`. */
  datatype PostRepo<!S> = PostRepo(
    listByBusiness: (S, int) -> Result<seq<DomainPost>, string>,
    getById: (S, int) -> Result<Option<DomainPost>, string>,
    create: (S, int, int, seq<int>, BizRepos.CreatePostRequest) -> (Result<int, string>, S),
    setGenres: (S, int, seq<int>) -> (Outcome<string>, S),
    incrementViewCount: (S, int) -> (Outcome<string>, S),
    anonymize: (S, int) -> (Outcome<string>, S),
    history: (S, string) -> Result<seq<DomainPost>, string>)

  const BadBusinessId: Failure := Api(NewApiError(InvalidInput, "businessId must be greater than 0"))
  const BadPostId: Failure := Api(NewApiError(InvalidInput, "postId must be greater than 0"))

  /** `List`: a positive business id, then the repository's list. */
  function List<S>(s: S, repo: PostRepo<S>, businessId: int): (r: Result<seq<DomainPost>, Failure>)
    ensures businessId <= 0 ==> r == Err(BadBusinessId)
    ensures businessId > 0 ==> match repo.listByBusiness(s, businessId)
      case Ok(posts) => r == Ok(posts)
      case Err(e) => r == Err(Api(NewApiError(OperationFailed, "failed to list posts: " + e)))
  {
    if businessId <= 0 then Err(BadBusinessId)
    else match repo.listByBusiness(s, businessId)
      case Err(e) => Err(Api(NewApiError(OperationFailed, "failed to list posts: " + e)))
      case Ok(posts) => Ok(posts)
  }

  /** `Get`: counts a view first, whatever that returns, then reads the post
      from the state the increment left. */
  function Get<S>(s: S, repo: PostRepo<S>, postId: int): (r: (Result<Option<DomainPost>, Failure>, S))
    ensures postId <= 0 ==> r == (Err(BadPostId), s)
    ensures postId > 0 ==>
      var after := repo.incrementViewCount(s, postId).1;
      r.1 == after
      && match repo.getById(after, postId)
        case Ok(p) => r.0 == Ok(p)
        case Err(e) => r.0 == Err(Api(NewApiError(NotFound, "post not found: " + e)))
  {
    if postId <= 0 then (Err(BadPostId), s)
    else
      var after := repo.incrementViewCount(s, postId).1;
      match repo.getById(after, postId)
      case Err(e) => (Err(Api(NewApiError(NotFound, "post not found: " + e))), after)
      case Ok(p) => (Ok(p), after)
  }

  /** `Create`: a positive business id, then a payload of the request type
      (`None` stands for any other type), then the repository. */
  function Create<S>(s: S, repo: PostRepo<S>, businessId: int, placeId: int, genreIds: seq<int>,
                     payload: Option<BizRepos.CreatePostRequest>): (r: (Result<int, Failure>, S))
    ensures businessId <= 0 ==> r == (Err(BadBusinessId), s)
    ensures businessId > 0 && payload.None? ==> r == (Err(Api(NewApiError(InvalidInput, "invalid payload type"))), s)
    ensures businessId > 0 && payload.Some? ==>
      var c := repo.create(s, businessId, placeId, genreIds, payload.value);
      r.1 == c.1
      && match c.0
        case Ok(id) => r.0 == Ok(id)
        case Err(e) => r.0 == Err(Api(NewApiError(OperationFailed, "failed to create post: " + e)))
  {
    if businessId <= 0 then (Err(BadBusinessId), s)
    else if payload.None? then (Err(Api(NewApiError(InvalidInput, "invalid payload type"))), s)
    else
      var c := repo.create(s, businessId, placeId, genreIds, payload.value);
      match c.0
      case Err(e) => (Err(Api(NewApiError(OperationFailed, "failed to create post: " + e))), c.1)
      case Ok(id) => (Ok(id), c.1)
  }

  /** `SetGenres`: the id is checked before the list, and either failure
      leaves the repository untouched. */
  function SetGenres<S>(s: S, repo: PostRepo<S>, postId: int, genreIds: seq<int>): (r: (Outcome<Failure>, S))
    ensures postId <= 0 ==> r == (Fail(BadPostId), s)
    ensures postId > 0 && genreIds == [] ==>
      r == (Fail(Api(NewApiError(InvalidInput, "at least one genre must be specified"))), s)
    ensures postId > 0 && genreIds != [] ==>
      var c := repo.setGenres(s, postId, genreIds);
      r.1 == c.1
      && match c.0
        case Pass => r.0 == Pass
        case Fail(e) => r.0 == Fail(Api(NewApiError(OperationFailed, "failed to set genres: " + e)))
  {
    if postId <= 0 then (Fail(BadPostId), s)
    else if |genreIds| == 0 then (Fail(Api(NewApiError(InvalidInput, "at least one genre must be specified"))), s)
    else
      var c := repo.setGenres(s, postId, genreIds);
      match c.0
      case Fail(e) => (Fail(Api(NewApiError(OperationFailed, "failed to set genres: " + e))), c.1)
      case Pass => (Pass, c.1)
  }

  /** Every check of `Anonymize` passes: a positive id, a business id in the
      context, a post found, and its author id, parsed as a decimal number
      with the parse error ignored, equal to the context's business id. */
  predicate MayAnonymize<S>(s: S, repo: PostRepo<S>, postId: int, ctx: AuthContext.Ctx) {
    postId > 0 && ctx.businessId.Some?
    && repo.getById(s, postId).Ok? && repo.getById(s, postId).value.Some?
    && Text.ParseInt64Value(repo.getById(s, postId).value.value.authorId) == ctx.businessId.value
  }

  /** `Anonymize`: the checks in order, and only when they all pass does the
      repository's `Anonymize` run. */
  function Anonymize<S>(s: S, repo: PostRepo<S>, postId: int, ctx: AuthContext.Ctx): (r: (Outcome<Failure>, S))
    ensures !MayAnonymize(s, repo, postId, ctx) ==> r.1 == s && r.0.Fail?
    ensures MayAnonymize(s, repo, postId, ctx) ==>
      var c := repo.anonymize(s, postId);
      r.1 == c.1
      && match c.0
        case Pass => r.0 == Pass
        case Fail(e) => r.0 == Fail(Api(NewApiError(OperationFailed, "failed to anonymize post: " + e)))
    ensures postId <= 0 ==> r.0 == Fail(BadPostId)
    ensures postId > 0 && ctx.businessId.None? ==>
      r.0 == Fail(Api(NewApiError(Unauthorized, "business ID not found in context")))
    ensures postId > 0 && ctx.businessId.Some? && repo.getById(s, postId).Err? ==>
      r.0 == Fail(Api(NewApiError(NotFound, "post not found: " + repo.getById(s, postId).error)))
    ensures postId > 0 && ctx.businessId.Some? && repo.getById(s, postId) == Ok(None) ==> r.0 == Fail(NilPost)
    ensures (postId > 0 && ctx.businessId.Some? && repo.getById(s, postId).Ok? && repo.getById(s, postId).value.Some?
             && Text.ParseInt64Value(repo.getById(s, postId).value.value.authorId) != ctx.businessId.value) ==>
      r.0 == Fail(Api(NewApiError(Forbidden, "you are not authorized to anonymize this post")))
  {
    if postId <= 0 then (Fail(BadPostId), s)
    else if ctx.businessId.None? then (Fail(Api(NewApiError(Unauthorized, "business ID not found in context"))), s)
    else match repo.getById(s, postId)
      case Err(e) => (Fail(Api(NewApiError(NotFound, "post not found: " + e))), s)
      case Ok(None) => (Fail(NilPost), s)
      case Ok(Some(post)) =>
        if Text.ParseInt64Value(post.authorId) != ctx.businessId.value then
          (Fail(Api(NewApiError(Forbidden, "you are not authorized to anonymize this post"))), s)
        else
          var c := repo.anonymize(s, postId);
          match c.0
          case Fail(e) => (Fail(Api(NewApiError(OperationFailed, "failed to anonymize post: " + e))), c.1)
          case Pass => (Pass, c.1)
  }

  /** `History`: a non-empty Google id, then the repository. */
  function History<S>(s: S, repo: PostRepo<S>, googleId: string): (r: Result<seq<DomainPost>, Failure>)
    ensures googleId == "" ==> r == Err(Api(NewApiError(InvalidInput, "googleId is required")))
    ensures googleId != "" ==> match repo.history(s, googleId)
      case Ok(posts) => r == Ok(posts)
      case Err(e) => r == Err(Api(NewApiError(OperationFailed, "failed to get post history: " + e)))
  {
    if googleId == "" then Err(Api(NewApiError(InvalidInput, "googleId is required")))
    else match repo.history(s, googleId)
      case Err(e) => Err(Api(NewApiError(OperationFailed, "failed to get post history: " + e)))
      case Ok(posts) => Ok(posts)
  }

  // ---------------------------------------------------------------------------
  // The in-memory repository behind the interface

  datatype MockPostState = MockPostState(posts: map<int, DomainPost>, nextId: int)

  /** The in-memory `PostRepo`: its methods as functions of the state. The
      order in which `ListByBusiness` walks the map is the parameter
      `order`; `SetGenres` and `History` are stubs. */
  function MockPostRepo(order: map<int, DomainPost> -> seq<DomainPost>): PostRepo<MockPostState> {
    PostRepo(
      (st: MockPostState, businessId: int) => Ok(order(st.posts)),
      (st: MockPostState, postId: int) => if postId in st.posts then Ok(Some(st.posts[postId])) else Ok(None),
      (st: MockPostState, businessId: int, placeId: int, genreIds: seq<int>, req: BizRepos.CreatePostRequest) =>
        (Ok(st.nextId), MockPostState(st.posts[st.nextId := MockRepos.NewPost(st.nextId, req)], st.nextId + 1)),
      (st: MockPostState, postId: int, genreIds: seq<int>) => (Pass, st),
      (st: MockPostState, postId: int) => (Pass, st.(posts := MockRepos.IncrementView(st.posts, postId))),
      (st: MockPostState, postId: int) => (Pass, st.(posts := MockRepos.AnonymizePost(st.posts, postId))),
      (st: MockPostState, googleId: string) => Ok([]))
  }

  /** Over the in-memory repository, `Get` of a stored post returns it with
      the view already counted. */
  lemma MockGetCountsView(st: MockPostState, order: map<int, DomainPost> -> seq<DomainPost>, postId: int)
    requires postId > 0 && postId in st.posts
    ensures var r := Get(st, MockPostRepo(order), postId);
      r.0 == Ok(Some(st.posts[postId].(viewCount := st.posts[postId].viewCount + 1)))
      && r.1.posts == MockRepos.IncrementView(st.posts, postId) && r.1.nextId == st.nextId
  {
  }

  /** Over the in-memory repository, `Get` of an absent post is not an
      error: it returns no post and changes nothing. */
  lemma MockGetAbsentIsNotAnError(st: MockPostState, order: map<int, DomainPost> -> seq<DomainPost>, postId: int)
    requires postId > 0 && postId !in st.posts
    ensures Get(st, MockPostRepo(order), postId) == (Ok(None), st)
  {
  }

  /** The in-memory repository stores new posts with an empty author id,
      which parses as 0, so a business with a positive id can never
      anonymize the post it has just created there. */
  lemma MockCreatedPostNotAnonymizable(st: MockPostState, order: map<int, DomainPost> -> seq<DomainPost>,
                                       businessId: int, placeId: int, genreIds: seq<int>,
                                       req: BizRepos.CreatePostRequest, ctx: AuthContext.Ctx)
    requires businessId > 0 && st.nextId > 0
    requires ctx.businessId.Some? && ctx.businessId.value != 0
    ensures var created := Create(st, MockPostRepo(order), businessId, placeId, genreIds, Some(req));
      created.0 == Ok(st.nextId)
      && Anonymize(created.1, MockPostRepo(order), st.nextId, ctx)
         == (Fail(Api(NewApiError(Forbidden, "you are not authorized to anonymize this post"))), created.1)
  {
    var created := Create(st, MockPostRepo(order), businessId, placeId, genreIds, Some(req));
    assert created.1.posts[st.nextId].authorId == "";
    assert Text.ParseInt64Value("") == 0 by {
      assert Text.SignedDigits("").None?;
    }
  }
}
