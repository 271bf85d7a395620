/** The block and report services of the business backend
    (`internal/service/impl/block_report_service.go`): input checks in front
    of the `BlockRepo` and `ReportRepo` interfaces, records of functions over
    a repository state `S`. */
module BizBlockReportService {
  import opened Wrappers
  import opened ApiErrors
  import MockRepos
  import BizReportRepo
  import Text
  import Tables

  datatype BlockRepo<!S> = BlockRepo(
    create: (S, string, string) -> (Outcome<string>, S),
    delete: (S, string, string) -> (Outcome<string>, S))

  /** `ReportRepo`: the payload is an opaque value of type `P`. */
  datatype ReportRepo<!S, !P> = ReportRepo(create: (S, string, P) -> (Outcome<string>, S))

  const MissingIds: ApiError := NewApiError(InvalidInput, "blockerID and blockedID are required")

  /** `Block`: both ids present and different, then the repository; a
      refused call leaves the repository untouched. */
  function Block<S>(s: S, repo: BlockRepo<S>, blockerId: string, blockedId: string): (r: (Outcome<ApiError>, S))
    ensures blockerId == "" || blockedId == "" ==> r == (Fail(MissingIds), s)
    ensures blockerId != "" && blockerId == blockedId ==>
      r == (Fail(NewApiError(ValidationFailed, "cannot block yourself")), s)
    ensures blockerId != "" && blockedId != "" && blockerId != blockedId ==>
      var c := repo.create(s, blockerId, blockedId);
      r.1 == c.1
      && match c.0
        case Pass => r.0 == Pass
        case Fail(e) => r.0 == Fail(NewApiError(OperationFailed, "failed to block user: " + e))
  {
    if blockerId == "" || blockedId == "" then (Fail(MissingIds), s)
    else if blockerId == blockedId then (Fail(NewApiError(ValidationFailed, "cannot block yourself")), s)
    else
      var c := repo.create(s, blockerId, blockedId);
      match c.0
      case Fail(e) => (Fail(NewApiError(OperationFailed, "failed to block user: " + e)), c.1)
      case Pass => (Pass, c.1)
  }

  /** `Unblock`: both ids present, with no self-check, then the repository. */
  function Unblock<S>(s: S, repo: BlockRepo<S>, blockerId: string, blockedId: string): (r: (Outcome<ApiError>, S))
    ensures blockerId == "" || blockedId == "" ==> r == (Fail(MissingIds), s)
    ensures blockerId != "" && blockedId != "" ==>
      var c := repo.delete(s, blockerId, blockedId);
      r.1 == c.1
      && match c.0
        case Pass => r.0 == Pass
        case Fail(e) => r.0 == Fail(NewApiError(OperationFailed, "failed to unblock user: " + e))
  {
    if blockerId == "" || blockedId == "" then (Fail(MissingIds), s)
    else
      var c := repo.delete(s, blockerId, blockedId);
      match c.0
      case Fail(e) => (Fail(NewApiError(OperationFailed, "failed to unblock user: " + e)), c.1)
      case Pass => (Pass, c.1)
  }

  /** `CreateReport`: only the reporter id is checked; the payload goes to
      the repository as it came. */
  function CreateReport<S, P>(s: S, repo: ReportRepo<S, P>, reporterId: string, payload: P): (r: (Outcome<ApiError>, S))
    ensures reporterId == "" ==> r == (Fail(NewApiError(InvalidInput, "reporterID is required")), s)
    ensures reporterId != "" ==>
      var c := repo.create(s, reporterId, payload);
      r.1 == c.1
      && match c.0
        case Pass => r.0 == Pass
        case Fail(e) => r.0 == Fail(NewApiError(OperationFailed, "failed to create report: " + e))
  {
    if reporterId == "" then (Fail(NewApiError(InvalidInput, "reporterID is required")), s)
    else
      var c := repo.create(s, reporterId, payload);
      match c.0
      case Fail(e) => (Fail(NewApiError(OperationFailed, "failed to create report: " + e)), c.1)
      case Pass => (Pass, c.1)
  }

  // ---------------------------------------------------------------------------
  // Repositories behind the interfaces

  /** The in-memory `BlockRepo` over its key map. */
  function MockBlockRepo(): BlockRepo<map<string, bool>> {
    BlockRepo(
      (blocks: map<string, bool>, blocker: string, blocked: string) => (Pass, blocks[MockRepos.BlockKey(blocker, blocked) := true]),
      (blocks: map<string, bool>, blocker: string, blocked: string) => (Pass, blocks - {MockRepos.BlockKey(blocker, blocked)}))
  }

  /** Over the in-memory repository, blocking and then unblocking a pair
      succeeds twice and leaves no entry for the pair. */
  lemma MockBlockThenUnblock(blocks: map<string, bool>, blockerId: string, blockedId: string)
    requires blockerId != "" && blockedId != "" && blockerId != blockedId
    ensures var b := Block(blocks, MockBlockRepo(), blockerId, blockedId);
      var u := Unblock(b.1, MockBlockRepo(), blockerId, blockedId);
      b.0 == Pass && u.0 == Pass && u.1 == blocks - {MockRepos.BlockKey(blockerId, blockedId)}
  {
    MockRepos.BlockThenUnblock(blocks, blockerId, blockedId);
  }

  /** The GORM `ReportRepo` over the report table; its payload `None` is a
      value of another type. */
  function TableReportRepo(parseTime: string -> Option<int>): ReportRepo<seq<BizReportRepo.Report>, Option<BizReportRepo.CreateReportRequest>> {
    ReportRepo((rows: seq<BizReportRepo.Report>, reporterId: string, payload: Option<BizReportRepo.CreateReportRequest>) =>
      BizReportRepo.CreateReport(rows, reporterId, payload, parseTime))
  }

  /** Through the service, a second identical report over the table is
      refused as OPERATION_FAILED with the table's duplicate message, and the
      table keeps one row. */
  lemma SecondReportRefused(rows: seq<BizReportRepo.Report>, reporterId: string,
                            payload: Option<BizReportRepo.CreateReportRequest>, parseTime: string -> Option<int>)
    requires reporterId != ""
    requires BizReportRepo.CreateReport(rows, reporterId, payload, parseTime).0.Pass?
    ensures var first := CreateReport(rows, TableReportRepo(parseTime), reporterId, payload);
      var second := CreateReport(first.1, TableReportRepo(parseTime), reporterId, payload);
      first.0 == Pass && |first.1| == |rows| + 1
      && second == (Fail(NewApiError(OperationFailed, "failed to create report: " + BizReportRepo.DuplicateMessage)), first.1)
  {
    var first := CreateReport(rows, TableReportRepo(parseTime), reporterId, payload);
    var req := payload.value;
    var postId := Text.Int32(req.targetPostId);
    assert first.1[|rows|].userId == reporterId && first.1[|rows|].postId == postId;
    assert Tables.Any(first.1, BizReportRepo.SamePair(reporterId, postId)) by {
      assert BizReportRepo.SamePair(reporterId, postId)(first.1[|rows|]);
    }
  }
}
