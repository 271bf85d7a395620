/** Post moderation in the admin backend
    (`admin/service/admin_post_service.go`): reading one post, and deleting a
    post together with every report on it inside one transaction. */
module AdminPosts {
  import opened Wrappers
  import opened Tables
  import AdminReports

  /** A row of the post table. */
  datatype Post = Post(postId: int, placeId: int, userId: string, postDate: int, title: string, text: string,
                       numReaction: int, numView: int, genreId: int)

  datatype PostDetailResponse = PostDetailResponse(postId: int, placeId: int, userId: string, postDate: string,
                                                   title: string, text: string, numReaction: int, numView: int,
                                                   genreId: int)

  const ErrPostNotFound := "post not found"

  function PostHasId(id: int): Post -> bool { (p: Post) => p.postId == id }
  function PostIdIsNot(id: int): Post -> bool { (p: Post) => p.postId != id }
  function ReportIsNotOn(id: int): AdminReports.Report -> bool { (r: AdminReports.Report) => r.postId != id }

  /** `GetPostByID`: the first post with that id, its fields copied and its
      date rendered by `format`; otherwise `ErrPostNotFound`. */
  function GetPostById(posts: seq<Post>, postId: int, format: int -> string): (r: Result<PostDetailResponse, string>)
    ensures r.Err? <==> !Any(posts, PostHasId(postId))
    ensures r.Err? ==> r.error == ErrPostNotFound
    ensures r.Ok? ==> exists k :: (0 <= k < |posts| && posts[k].postId == postId
      && r.value == PostDetailResponse(posts[k].postId, posts[k].placeId, posts[k].userId, format(posts[k].postDate),
                                       posts[k].title, posts[k].text, posts[k].numReaction, posts[k].numView,
                                       posts[k].genreId))
  {
    match FindFirst(posts, PostHasId(postId))
    case None => Err(ErrPostNotFound)
    case Some(p) =>
      Ok(PostDetailResponse(p.postId, p.placeId, p.userId, format(p.postDate), p.title, p.text,
                            p.numReaction, p.numView, p.genreId))
  }

  /** `DeletePost` on the two tables. Inside the transaction the post is
      looked up, then its reports are deleted, then the post;
      `reportsError` and `postError` are the database's answers to the two
      deletes, and either failure rolls both back. */
  function DeletePostOutcome(posts: seq<Post>, reports: seq<AdminReports.Report>, postId: int,
                             reportsError: Option<string>, postError: Option<string>): (r: (Outcome<string>, seq<Post>, seq<AdminReports.Report>))
    ensures !Any(posts, PostHasId(postId)) ==> r == (Fail(ErrPostNotFound), posts, reports)
    ensures Any(posts, PostHasId(postId)) && reportsError.Some? ==>
      r == (Fail("failed to delete reports: " + reportsError.value), posts, reports)
    ensures Any(posts, PostHasId(postId)) && reportsError.None? && postError.Some? ==>
      r == (Fail("failed to delete post: " + postError.value), posts, reports)
    ensures r.0.Fail? ==> r.1 == posts && r.2 == reports
    ensures r.0.Pass? <==> Any(posts, PostHasId(postId)) && reportsError.None? && postError.None?
    ensures r.0.Pass? ==> (forall p :: p in r.1 <==> p in posts && p.postId != postId)
    ensures r.0.Pass? ==> (forall x :: x in r.2 <==> x in reports && x.postId != postId)
  {
    if !Any(posts, PostHasId(postId)) then (Fail(ErrPostNotFound), posts, reports)
    else if reportsError.Some? then (Fail("failed to delete reports: " + reportsError.value), posts, reports)
    else if postError.Some? then (Fail("failed to delete post: " + postError.value), posts, reports)
    else
      forall p {
        FilterMember(posts, PostIdIsNot(postId), p);
      }
      forall x {
        FilterMember(reports, ReportIsNotOn(postId), x);
      }
      (Pass, Filter(posts, PostIdIsNot(postId)), Filter(reports, ReportIsNotOn(postId)))
  }

  /** The cascade keeps order and multiplicity of what it keeps: the
      remaining reports are the reports on other posts, unchanged. */
  lemma DeleteKeepsOtherReports(posts: seq<Post>, reports: seq<AdminReports.Report>, postId: int)
    requires Any(posts, PostHasId(postId))
    ensures var r := DeletePostOutcome(posts, reports, postId, None, None);
      r.0 == Pass && IsSubsequence(r.2, reports)
      && (forall x: AdminReports.Report :: x.postId != postId ==> multiset(r.2)[x] == multiset(reports)[x])
      && |r.2| == |reports| - Count(reports, (x: AdminReports.Report) => x.postId == postId)
  {
    FilterIsSubsequence(reports, ReportIsNotOn(postId));
    forall x: AdminReports.Report | x.postId != postId
      ensures multiset(Filter(reports, ReportIsNotOn(postId)))[x] == multiset(reports)[x]
    {
      FilterMultiset(reports, ReportIsNotOn(postId), x);
    }
    FilterComplement(reports, ReportIsNotOn(postId), (x: AdminReports.Report) => x.postId == postId);
  }

  /** The two tables a transaction works on. */
  class Database {
    var posts: seq<Post>
    var reports: seq<AdminReports.Report>

    constructor (posts: seq<Post>, reports: seq<AdminReports.Report>)
      ensures this.posts == posts && this.reports == reports
    {
      this.posts := posts;
      this.reports := reports;
    }

    /** `DeletePost`: the transaction works on the tables in place and
      restores the snapshot taken at `BEGIN` on any error. */
    method DeletePost(postId: int, reportsError: Option<string>, postError: Option<string>) returns (r: Outcome<string>)
      modifies this
      ensures (r, posts, reports) == DeletePostOutcome(old(posts), old(reports), postId, reportsError, postError)
    {
      var savedPosts, savedReports := posts, reports;
      if FindFirst(posts, PostHasId(postId)).None? {
        return Fail(ErrPostNotFound);
      }
      if reportsError.Some? {
        return Fail("failed to delete reports: " + reportsError.value);
      }
      reports := Filter(reports, ReportIsNotOn(postId));
      if postError.Some? {
        posts, reports := savedPosts, savedReports;
        return Fail("failed to delete post: " + postError.value);
      }
      posts := Filter(posts, PostIdIsNot(postId));
      return Pass;
    }
  }
}
