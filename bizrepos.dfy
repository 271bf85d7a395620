/** The GORM repositories of the business backend
    (`internal/repository/impl`): the `business` table of business members,
    the `posts` table and the `reports` table, each a sequence of rows in
    primary-key order. "Rows affected" is the number of rows the WHERE clause
    matches. Database failures are not modelled; the clock is the parameter
    `now`. */
module BizRepos {
  import opened Wrappers
  import opened Tables
  import Text
  import Image

  const Anonymized: string := "[Anonymized]"

  // ---------------------------------------------------------------------------
  // business_member_repo.go

  /** A row of the `business` table. `anonymizedAt` is NULL until the member
      is anonymized; `profileImage` is a nullable BLOB. */
  datatype Member = Member(id: int, businessName: string, kanaBusinessName: string, zipCode: int,
                           address: string, phone: int, registDate: int,
                           profileImage: Option<seq<Image.Byte>>, userId: string, placeId: int,
                           anonymizedAt: Option<int>, isActive: bool)

  function MemberHasId(id: int): Member -> bool { (m: Member) => m.id == id }
  function MemberOfUser(googleId: string): Member -> bool { (m: Member) => m.userId == googleId }

  function MemberNotFound(id: int): string {
    "business member not found for id " + Text.IntToString(id)
  }

  /** `GetByGoogleID`: the first member whose userId is `googleId`, or an
      error when there is none. */
  function MemberByGoogleId(members: seq<Member>, googleId: string): (r: Result<Member, string>)
    ensures r.Ok? <==> Any(members, MemberOfUser(googleId))
    ensures r.Ok? ==> r.value in members && r.value.userId == googleId
  {
    match FindFirst(members, MemberOfUser(googleId))
    case None => Err("business member not found for userId " + googleId)
    case Some(m) => Ok(m)
  }

  /** The byte-length rule of `UpdateName`. */
  predicate NameFitsColumn(name: string) {
    name != "" && Text.Utf8Len(name) <= 50
  }

  /** `UpdateName`: a name that is empty or longer than 50 UTF-8 bytes is
      refused before the table is touched; otherwise every row with that id
      gets the new name, and no such row means "not found". */
  function UpdateNameSpec(members: seq<Member>, businessId: int, name: string): (r: (Outcome<string>, seq<Member>))
    ensures !NameFitsColumn(name) ==> r == (Fail("business name must be between 1 and 50 characters"), members)
    ensures r.0.Pass? <==> NameFitsColumn(name) && Any(members, MemberHasId(businessId))
    ensures NameFitsColumn(name) && !Any(members, MemberHasId(businessId)) ==> r == (Fail(MemberNotFound(businessId)), members)
    ensures |r.1| == |members|
    ensures forall k :: 0 <= k < |members| ==>
      r.1[k] == if r.0.Pass? && members[k].id == businessId then members[k].(businessName := name) else members[k]
  {
    if name == "" || Text.Utf8Len(name) > 50 then (Fail("business name must be between 1 and 50 characters"), members)
    else if !Any(members, MemberHasId(businessId)) then (Fail(MemberNotFound(businessId)), members)
    else (Pass, MapWhere(members, MemberHasId(businessId), (m: Member) => m.(businessName := name)))
  }

  /** `UpdateIcon`: empty data is refused before the table is touched;
      otherwise the matching rows get the new image. */
  function UpdateIconSpec(members: seq<Member>, businessId: int, icon: seq<Image.Byte>): (r: (Outcome<string>, seq<Member>))
    ensures icon == [] ==> r == (Fail("icon data cannot be empty"), members)
    ensures r.0.Pass? <==> icon != [] && Any(members, MemberHasId(businessId))
    ensures icon != [] && !Any(members, MemberHasId(businessId)) ==> r == (Fail(MemberNotFound(businessId)), members)
    ensures |r.1| == |members|
    ensures forall k :: 0 <= k < |members| ==>
      r.1[k] == if r.0.Pass? && members[k].id == businessId then members[k].(profileImage := Some(icon)) else members[k]
  {
    if |icon| == 0 then (Fail("icon data cannot be empty"), members)
    else if !Any(members, MemberHasId(businessId)) then (Fail(MemberNotFound(businessId)), members)
    else (Pass, MapWhere(members, MemberHasId(businessId), (m: Member) => m.(profileImage := Some(icon))))
  }

  /** The personal data `Anonymize` overwrites, and the stamp it sets. */
  function AnonymizedMember(m: Member, now: int): Member {
    m.(businessName := Anonymized, kanaBusinessName := Anonymized, phone := 0, address := Anonymized,
       profileImage := None, anonymizedAt := Some(now))
  }

  /** `Anonymize` on the member table. */
  function AnonymizeMemberSpec(members: seq<Member>, businessId: int, now: int): (r: (Outcome<string>, seq<Member>))
    ensures r.0.Pass? <==> Any(members, MemberHasId(businessId))
    ensures r.0.Fail? ==> r == (Fail(MemberNotFound(businessId)), members)
    ensures |r.1| == |members|
    ensures forall k :: 0 <= k < |members| ==>
      r.1[k] == if members[k].id == businessId then AnonymizedMember(members[k], now) else members[k]
  {
    if !Any(members, MemberHasId(businessId)) then (Fail(MemberNotFound(businessId)), members)
    else (Pass, MapWhere(members, MemberHasId(businessId), (m: Member) => AnonymizedMember(m, now)))
  }

  /** Anonymizing keeps the keys: every row keeps its id, userId and place,
      and no personal field of an anonymized row survives. */
  lemma AnonymizeKeepsKeys(members: seq<Member>, businessId: int, now: int, k: int)
    requires 0 <= k < |members|
    ensures var after := AnonymizeMemberSpec(members, businessId, now).1[k];
      after.id == members[k].id && after.userId == members[k].userId && after.placeId == members[k].placeId
      && after.registDate == members[k].registDate
      && (members[k].id == businessId ==>
            after.businessName == after.kanaBusinessName == after.address == Anonymized
            && after.phone == 0 && after.profileImage.None? && after.anonymizedAt == Some(now))
  {
  }

  class MemberTable {
    var rows: seq<Member>

    constructor (initial: seq<Member>)
      ensures rows == initial
    {
      rows := initial;
    }

    /** `GetByGoogleID`. */
    function GetByGoogleId(googleId: string): (r: Result<Member, string>)
      reads this
      ensures r == MemberByGoogleId(rows, googleId)
    {
      MemberByGoogleId(rows, googleId)
    }

    /** `UpdateName`. */
    method UpdateName(businessId: int, name: string) returns (r: Outcome<string>)
      modifies this
      ensures (r, rows) == UpdateNameSpec(old(rows), businessId, name)
    {
      if name == "" || Text.Utf8Len(name) > 50 {
        return Fail("business name must be between 1 and 50 characters");
      }
      var affected := Count(rows, MemberHasId(businessId));
      CountPositive(rows, MemberHasId(businessId));
      if affected == 0 {
        return Fail(MemberNotFound(businessId));
      }
      rows := MapWhere(rows, MemberHasId(businessId), (m: Member) => m.(businessName := name));
      return Pass;
    }

    /** `UpdateIcon`. */
    method UpdateIcon(businessId: int, icon: seq<Image.Byte>) returns (r: Outcome<string>)
      modifies this
      ensures (r, rows) == UpdateIconSpec(old(rows), businessId, icon)
    {
      if |icon| == 0 {
        return Fail("icon data cannot be empty");
      }
      var affected := Count(rows, MemberHasId(businessId));
      CountPositive(rows, MemberHasId(businessId));
      if affected == 0 {
        return Fail(MemberNotFound(businessId));
      }
      rows := MapWhere(rows, MemberHasId(businessId), (m: Member) => m.(profileImage := Some(icon)));
      return Pass;
    }

    /** `Anonymize`, with `NOW()` as `now`. */
    method Anonymize(businessId: int, now: int) returns (r: Outcome<string>)
      modifies this
      ensures (r, rows) == AnonymizeMemberSpec(old(rows), businessId, now)
    {
      var affected := Count(rows, MemberHasId(businessId));
      CountPositive(rows, MemberHasId(businessId));
      if affected == 0 {
        return Fail(MemberNotFound(businessId));
      }
      rows := MapWhere(rows, MemberHasId(businessId), (m: Member) => AnonymizedMember(m, now));
      return Pass;
    }
  }

  // ---------------------------------------------------------------------------
  // post_repo.go

  /** A row of the `posts` table, with the columns `post_repo.go` writes. */
  datatype Post = Post(id: int, userId: string, title: string, text: string, placeId: int,
                       numView: int, numReaction: int, postDate: int, genreId: int)

  /** The request `Create` expects as its payload. */
  datatype CreatePostRequest = CreatePostRequest(locationId: string, genreIds: seq<int>, title: string,
                                                 description: string, images: seq<string>)

  function PostHasId(id: int): Post -> bool { (p: Post) => p.id == id }
  function PostOfUser(googleId: string): Post -> bool { (p: Post) => p.userId == googleId }
  function PostDateKey(p: Post): (int, int) { (p.postDate, 0) }

  function PostNotFound(id: int): string {
    "post not found for id " + Text.IntToString(id)
  }

  /** `GetByID`: the post with that id, or "not found". */
  function PostById(posts: seq<Post>, postId: int): (r: Result<Post, string>)
    ensures r.Ok? <==> Any(posts, PostHasId(postId))
    ensures r.Ok? ==> r.value in posts && r.value.id == postId
    ensures r.Err? ==> r.error == PostNotFound(postId)
  {
    match FindFirst(posts, PostHasId(postId))
    case None => Err(PostNotFound(postId))
    case Some(p) => Ok(p)
  }

  /** The genre `Create` and `SetGenres` store: a post has a single genre. */
  function FirstGenre(genreIds: seq<int>): int {
    if |genreIds| > 0 then genreIds[0] else 0
  }

  /** `Create`: refuses a payload of the wrong type and an unknown business,
      then appends a post under the business's user id with zero counters
      and the first genre, taking the next auto-increment id. A `None`
      payload stands for a value that is not a `*CreatePostRequest`. */
  function CreatePostSpec(posts: seq<Post>, nextId: int, members: seq<Member>, businessId: int, placeId: int,
                          genreIds: seq<int>, payload: Option<CreatePostRequest>, now: int): (r: (Result<int, string>, seq<Post>, int))
    ensures payload.None? ==> r == (Err("invalid payload type: expected *domain.CreatePostRequest"), posts, nextId)
    ensures payload.Some? && !Any(members, MemberHasId(businessId)) ==> r.0.Err? && r.1 == posts && r.2 == nextId
    ensures r.0.Ok? <==> payload.Some? && Any(members, MemberHasId(businessId))
    ensures r.0.Ok? ==>
      r.0.value == nextId && r.2 == nextId + 1
      && var m := FindFirst(members, MemberHasId(businessId)).value;
      r.1 == posts + [Post(nextId, m.userId, payload.value.title, payload.value.description, placeId, 0, 0, now, FirstGenre(genreIds))]
  {
    if payload.None? then (Err("invalid payload type: expected *domain.CreatePostRequest"), posts, nextId)
    else
      match FindFirst(members, MemberHasId(businessId))
      case None => (Err("failed to find business member: record not found"), posts, nextId)
      case Some(m) =>
        var req := payload.value;
        (Ok(nextId), posts + [Post(nextId, m.userId, req.title, req.description, placeId, 0, 0, now, FirstGenre(genreIds))], nextId + 1)
  }

  /** `IncrementViewCount`: `numView + 1` on the matching post; no match is
      "not found". */
  function IncrementViewSpec(posts: seq<Post>, postId: int): (r: (Outcome<string>, seq<Post>))
    ensures r.0.Pass? <==> Any(posts, PostHasId(postId))
    ensures r.0.Fail? ==> r == (Fail(PostNotFound(postId)), posts)
    ensures |r.1| == |posts|
    ensures forall k :: 0 <= k < |posts| ==>
      r.1[k] == if posts[k].id == postId then posts[k].(numView := posts[k].numView + 1) else posts[k]
  {
    if !Any(posts, PostHasId(postId)) then (Fail(PostNotFound(postId)), posts)
    else (Pass, MapWhere(posts, PostHasId(postId), (p: Post) => p.(numView := p.numView + 1)))
  }

  /** `SetGenres`: an empty list succeeds without touching the table;
      otherwise the first genre is stored. */
  function SetGenresSpec(posts: seq<Post>, postId: int, genreIds: seq<int>): (r: (Outcome<string>, seq<Post>))
    ensures genreIds == [] ==> r == (Pass, posts)
    ensures genreIds != [] ==> (r.0.Pass? <==> Any(posts, PostHasId(postId)))
    ensures r.0.Fail? ==> r.1 == posts
    ensures |r.1| == |posts|
    ensures genreIds != [] ==> forall k :: 0 <= k < |posts| ==>
      r.1[k] == if posts[k].id == postId then posts[k].(genreId := genreIds[0]) else posts[k]
  {
    if |genreIds| == 0 then (Pass, posts)
    else if !Any(posts, PostHasId(postId)) then (Fail(PostNotFound(postId)), posts)
    else (Pass, MapWhere(posts, PostHasId(postId), (p: Post) => p.(genreId := genreIds[0])))
  }

  /** `Anonymize` on the posts table: title and text are overwritten. */
  function AnonymizePostSpec(posts: seq<Post>, postId: int): (r: (Outcome<string>, seq<Post>))
    ensures r.0.Pass? <==> Any(posts, PostHasId(postId))
    ensures r.0.Fail? ==> r == (Fail(PostNotFound(postId)), posts)
    ensures |r.1| == |posts|
    ensures forall k :: 0 <= k < |posts| ==>
      r.1[k] == if posts[k].id == postId then posts[k].(title := Anonymized, text := Anonymized) else posts[k]
  {
    if !Any(posts, PostHasId(postId)) then (Fail(PostNotFound(postId)), posts)
    else (Pass, MapWhere(posts, PostHasId(postId), (p: Post) => p.(title := Anonymized, text := Anonymized)))
  }

  /** `History`: the user's posts, newest first. Posts with the same date
      keep table order (SQL leaves that order open). */
  function History(posts: seq<Post>, googleId: string): seq<Post> {
    SortDesc(Filter(posts, PostOfUser(googleId)), PostDateKey)
  }

  /** `History` returns exactly the user's posts, each as often as stored,
      ordered by post date descending. */
  lemma HistoryCorrect(posts: seq<Post>, googleId: string, p: Post)
    ensures var h := History(posts, googleId);
      (forall i, j :: 0 <= i < j < |h| ==> h[i].postDate >= h[j].postDate)
      && multiset(h)[p] == (if p.userId == googleId then multiset(posts)[p] else 0)
  {
    var f := Filter(posts, PostOfUser(googleId));
    SortDescCorrect(f, PostDateKey);
    FilterMultiset(posts, PostOfUser(googleId), p);
  }

  /** `ListByBusiness`: the posts of the user behind a business id, newest
      first; an unknown business id has no posts. */
  function ListByBusiness(posts: seq<Post>, members: seq<Member>, businessId: int): (r: seq<Post>)
    ensures !Any(members, MemberHasId(businessId)) ==> r == []
    ensures Any(members, MemberHasId(businessId)) ==>
      r == History(posts, FindFirst(members, MemberHasId(businessId)).value.userId)
  {
    match FindFirst(members, MemberHasId(businessId))
    case None => []
    case Some(m) => History(posts, m.userId)
  }

  /** Ids handed out by the table are below its counter and distinct. */
  predicate IdsBelow(posts: seq<Post>, nextId: int) {
    (forall k :: 0 <= k < |posts| ==> posts[k].id < nextId)
    && (forall i, j :: 0 <= i < j < |posts| ==> posts[i].id != posts[j].id)
  }

  /** `Create` keeps post ids unique. */
  lemma CreateKeepsIdsUnique(posts: seq<Post>, nextId: int, members: seq<Member>, businessId: int, placeId: int,
                             genreIds: seq<int>, payload: Option<CreatePostRequest>, now: int)
    requires IdsBelow(posts, nextId)
    ensures var r := CreatePostSpec(posts, nextId, members, businessId, placeId, genreIds, payload, now);
      IdsBelow(r.1, r.2)
  {
  }

  class PostTable {
    var rows: seq<Post>
    /** The table's AUTO_INCREMENT counter. */
    var nextId: int

    constructor (initial: seq<Post>, next: int)
      ensures rows == initial && nextId == next
    {
      rows := initial;
      nextId := next;
    }

    /** `GetByID`. */
    function GetById(postId: int): (r: Result<Post, string>)
      reads this
      ensures r == PostById(rows, postId)
    {
      PostById(rows, postId)
    }

    /** `Create`, with `time.Now()` as `now`. */
    method Create(members: MemberTable, businessId: int, placeId: int, genreIds: seq<int>,
                  payload: Option<CreatePostRequest>, now: int) returns (r: Result<int, string>)
      modifies this
      ensures (r, rows, nextId) == CreatePostSpec(old(rows), old(nextId), members.rows, businessId, placeId, genreIds, payload, now)
    {
      if payload.None? {
        return Err("invalid payload type: expected *domain.CreatePostRequest");
      }
      var business := FindFirst(members.rows, MemberHasId(businessId));
      if business.None? {
        return Err("failed to find business member: record not found");
      }
      var genreId := 0;
      if |genreIds| > 0 {
        genreId := genreIds[0];
      }
      var id := nextId;
      rows := rows + [Post(id, business.value.userId, payload.value.title, payload.value.description, placeId, 0, 0, now, genreId)];
      nextId := nextId + 1;
      return Ok(id);
    }

    /** `IncrementViewCount`. */
    method IncrementViewCount(postId: int) returns (r: Outcome<string>)
      modifies this
      ensures (r, rows) == IncrementViewSpec(old(rows), postId)
      ensures nextId == old(nextId)
    {
      var affected := Count(rows, PostHasId(postId));
      CountPositive(rows, PostHasId(postId));
      if affected == 0 {
        return Fail(PostNotFound(postId));
      }
      rows := MapWhere(rows, PostHasId(postId), (p: Post) => p.(numView := p.numView + 1));
      return Pass;
    }

    /** `SetGenres`. */
    method SetGenres(postId: int, genreIds: seq<int>) returns (r: Outcome<string>)
      modifies this
      ensures (r, rows) == SetGenresSpec(old(rows), postId, genreIds)
      ensures nextId == old(nextId)
    {
      if |genreIds| == 0 {
        return Pass;
      }
      var affected := Count(rows, PostHasId(postId));
      CountPositive(rows, PostHasId(postId));
      if affected == 0 {
        return Fail(PostNotFound(postId));
      }
      rows := MapWhere(rows, PostHasId(postId), (p: Post) => p.(genreId := genreIds[0]));
      return Pass;
    }

    /** `Anonymize`. */
    method Anonymize(postId: int) returns (r: Outcome<string>)
      modifies this
      ensures (r, rows) == AnonymizePostSpec(old(rows), postId)
      ensures nextId == old(nextId)
    {
      var affected := Count(rows, PostHasId(postId));
      CountPositive(rows, PostHasId(postId));
      if affected == 0 {
        return Fail(PostNotFound(postId));
      }
      rows := MapWhere(rows, PostHasId(postId), (p: Post) => p.(title := Anonymized, text := Anonymized));
      return Pass;
    }
  }
}
