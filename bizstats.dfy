/** The stats service of the business backend
    (`internal/service/impl/stats_service.go`): an id check in front of the
    read-only `StatsRepo` interface, and the engagement formula. */
module BizStatsService {
  import opened Wrappers
  import opened ApiErrors

  /** `StatsRepo`: each query maps a business id to counts or an error. */
  datatype StatsRepo = StatsRepo(
    totalPosts: int -> Result<int, string>,
    totalReactions: int -> Result<int, string>,
    totalViews: int -> Result<int, string>,
    engagementStats: int -> Result<(int, int, int), string>)

  datatype StatsResponse = StatsResponse(total: int, caption: string)
  datatype EngagementResponse = EngagementResponse(postCount: int, reactionCount: int, viewCount: int, engagementRate: real)

  const BadBusinessId: ApiError := NewApiError(InvalidInput, "businessId must be greater than 0")

  /** The shape the three total getters share: the id check, then the
      count as the repository gave it, with its label. */
  function Total(businessId: int, query: int -> Result<int, string>, caption: string, what: string): (r: Result<StatsResponse, ApiError>)
    ensures businessId <= 0 ==> r == Err(BadBusinessId)
    ensures businessId > 0 ==> match query(businessId)
      case Ok(n) => r == Ok(StatsResponse(n, caption))
      case Err(e) => r == Err(NewApiError(OperationFailed, "failed to get total " + what + ": " + e))
  {
    if businessId <= 0 then Err(BadBusinessId)
    else match query(businessId)
      case Err(e) => Err(NewApiError(OperationFailed, "failed to get total " + what + ": " + e))
      case Ok(n) => Ok(StatsResponse(n, caption))
  }

  /** `GetTotalPosts`. */
  function GetTotalPosts(repo: StatsRepo, businessId: int): (r: Result<StatsResponse, ApiError>)
    ensures r == Total(businessId, repo.totalPosts, "Total Posts", "posts")
    ensures r.Ok? ==> r.value.caption == "Total Posts" && Ok(r.value.total) == repo.totalPosts(businessId)
  {
    Total(businessId, repo.totalPosts, "Total Posts", "posts")
  }

  /** `GetTotalReactions`. */
  function GetTotalReactions(repo: StatsRepo, businessId: int): (r: Result<StatsResponse, ApiError>)
    ensures r == Total(businessId, repo.totalReactions, "Total Reactions", "reactions")
    ensures r.Ok? ==> r.value.caption == "Total Reactions" && Ok(r.value.total) == repo.totalReactions(businessId)
  {
    Total(businessId, repo.totalReactions, "Total Reactions", "reactions")
  }

  /** `GetTotalViews`. */
  function GetTotalViews(repo: StatsRepo, businessId: int): (r: Result<StatsResponse, ApiError>)
    ensures r == Total(businessId, repo.totalViews, "Total Views", "views")
    ensures r.Ok? ==> r.value.caption == "Total Views" && Ok(r.value.total) == repo.totalViews(businessId)
  {
    Total(businessId, repo.totalViews, "Total Views", "views")
  }

  /** The engagement formula, `(reactions + views) / (posts * 100)`, on exact
      reals; no posts means a rate of 0. */
  function EngagementRate(postCount: int, reactionCount: int, viewCount: int): (rate: real)
    ensures postCount == 0 ==> rate == 0.0
    ensures postCount != 0 ==> rate * (postCount * 100) as real == (reactionCount + viewCount) as real
  {
    if postCount == 0 then 0.0
    else
      var d := (postCount * 100) as real;
      QuotientTimesDivisor((reactionCount + viewCount) as real, d);
      (reactionCount + viewCount) as real / d
  }

  /** Reals: dividing and multiplying back by a non-zero divisor is exact. */
  lemma QuotientTimesDivisor(x: real, d: real)
    requires d != 0.0
    ensures (x / d) * d == x
  {
  }

  /** With non-negative counts the rate is non-negative, and it grows with
      every reaction or view. */
  lemma EngagementRateMonotone(postCount: int, reactionCount: int, viewCount: int, extra: int)
    requires postCount > 0 && reactionCount >= 0 && viewCount >= 0 && extra > 0
    ensures EngagementRate(postCount, reactionCount, viewCount) >= 0.0
    ensures EngagementRate(postCount, reactionCount + extra, viewCount) > EngagementRate(postCount, reactionCount, viewCount)
  {
    var d := (postCount * 100) as real;
    var x := (reactionCount + viewCount) as real;
    QuotientSigns(x, extra as real, d);
    assert EngagementRate(postCount, reactionCount + extra, viewCount) == (x + extra as real) / d;
  }

  /** Reals: over a positive divisor a non-negative dividend gives a
      non-negative quotient, and a positive addend raises it. */
  lemma QuotientSigns(x: real, e: real, d: real)
    requires x >= 0.0 && e > 0.0 && d > 0.0
    ensures x / d >= 0.0
    ensures (x + e) / d > x / d
  {
    assert (x + e) / d == x / d + e / d;
    assert e / d > 0.0;
  }

  /** `GetEngagementRate`: the id check, then the three counts echoed with
      the rate. */
  function GetEngagementRate(repo: StatsRepo, businessId: int): (r: Result<EngagementResponse, ApiError>)
    ensures businessId <= 0 ==> r == Err(BadBusinessId)
    ensures businessId > 0 ==> match repo.engagementStats(businessId)
      case Ok((p, re, v)) => r == Ok(EngagementResponse(p, re, v, EngagementRate(p, re, v)))
      case Err(e) => r == Err(NewApiError(OperationFailed, "failed to calculate engagement rate: " + e))
  {
    if businessId <= 0 then Err(BadBusinessId)
    else match repo.engagementStats(businessId)
      case Err(e) => Err(NewApiError(OperationFailed, "failed to calculate engagement rate: " + e))
      case Ok((p, re, v)) => Ok(EngagementResponse(p, re, v, EngagementRate(p, re, v)))
  }
}
