/** The member service of the business backend
    (`internal/service/impl/member_service.go`): validation and ownership
    checks in front of the `BusinessMemberRepo` interface, which is a record
    of functions over a repository state `S`. `http.DetectContentType`,
    base64 encoding and RFC 3339 formatting are the parameters `sniff`,
    `base64` and `formatTime`. */
module BizMemberService {
  import opened Wrappers
  import opened ApiErrors
  import AuthContext
  import Text
  import Image
  import BizRepos
  import MockRepos

  type Member = BizRepos.Member

  /** The `BusinessMemberRepo` interface; a lookup that finds nothing
      without an error is `Ok(None)`. */
  datatype MemberRepo<!S> = MemberRepo(
    getByGoogleId: (S, string) -> Result<Option<Member>, string>,
    updateName: (S, int, string) -> (Outcome<string>, S),
    updateIcon: (S, int, seq<Image.Byte>) -> (Outcome<string>, S),
    anonymize: (S, int) -> (Outcome<string>, S))

  /** `domain.BusinessMemberResponse`. */
  datatype MemberResponse = MemberResponse(id: int, businessName: string, gmail: string, registDate: string,
                                           iconImageUrl: string)

  const Png: string := "image/png"
  const Jpeg: string := "image/jpeg"
  const MaxIconBytes: int := 5 * 1024 * 1024

  /** The stored image; a NULL column reads as no bytes. */
  function ImageOf(m: Member): seq<Image.Byte> {
    if m.profileImage.Some? then m.profileImage.value else []
  }

  /** The icon URL of `GetBusinessDetails`: a data URL for a PNG or JPEG
      image, and the empty string for anything else. */
  function IconUrl(image: seq<Image.Byte>, sniff: seq<Image.Byte> -> string, base64: seq<Image.Byte> -> string): (url: string)
    ensures url != "" <==> |image| > 0 && sniff(image) in {Png, Jpeg}
    ensures url != "" ==> url == "data:" + sniff(image) + ";base64," + base64(image)
  {
    if |image| > 0 && (sniff(image) == Png || sniff(image) == Jpeg) then
      "data:" + sniff(image) + ";base64," + base64(image)
    else ""
  }

  /** `GetBusinessDetails`: both lookups run before either result is
      inspected for nil, so a missing member with a failing user lookup
      reads as "user not found". */
  function GetBusinessDetails<S>(s: S, repo: MemberRepo<S>, getUserById: string -> Result<Option<MockRepos.User>, string>,
                                 googleId: string, sniff: seq<Image.Byte> -> string, base64: seq<Image.Byte> -> string,
                                 formatTime: int -> string): (r: Result<MemberResponse, ApiError>)
    ensures googleId == "" ==> r == Err(NewApiError(InvalidInput, "googleId is required"))
    ensures googleId != "" && repo.getByGoogleId(s, googleId).Err? ==>
      r == Err(NewApiError(NotFound, "business member not found: " + repo.getByGoogleId(s, googleId).error))
    ensures googleId != "" && repo.getByGoogleId(s, googleId).Ok? && getUserById(googleId).Err? ==>
      r == Err(NewApiError(NotFound, "user not found"))
    ensures r.Ok? <==> (googleId != "" && repo.getByGoogleId(s, googleId).Ok? && repo.getByGoogleId(s, googleId).value.Some?
                        && getUserById(googleId).Ok? && getUserById(googleId).value.Some?)
    ensures r.Ok? ==>
      var m := repo.getByGoogleId(s, googleId).value.value;
      r.value == MemberResponse(m.id, m.businessName, getUserById(googleId).value.value.gmail, formatTime(m.registDate),
                                IconUrl(ImageOf(m), sniff, base64))
  {
    if googleId == "" then Err(NewApiError(InvalidInput, "googleId is required"))
    else match repo.getByGoogleId(s, googleId)
      case Err(e) => Err(NewApiError(NotFound, "business member not found: " + e))
      case Ok(member) =>
        match getUserById(googleId)
        case Err(_) => Err(NewApiError(NotFound, "user not found"))
        case Ok(user) =>
          if member.None? then Err(NewApiError(OperationFailed, "invalid business member type"))
          else if user.None? then Err(NewApiError(OperationFailed, "invalid user type"))
          else
            var m := member.value;
            Ok(MemberResponse(m.id, m.businessName, user.value.gmail, formatTime(m.registDate),
                              IconUrl(ImageOf(m), sniff, base64)))
  }

  /** The service's name rule: not blank after trimming, at most 50 code
      points. */
  predicate NameAcceptable(name: string) {
    Text.GoTrimSpace(name) != "" && |name| <= 50
  }

  /** The ownership check shared by the update methods: the first failure,
      or `None` when the context holds the target business id. */
  function OwnerCheck(ctx: AuthContext.Ctx, businessId: int, action: string): (r: Option<ApiError>)
    ensures r.None? <==> ctx.businessId == Some(businessId)
    ensures ctx.businessId.None? ==> r == Some(NewApiError(Unauthorized, "business ID not found in context"))
    ensures ctx.businessId.Some? && ctx.businessId.value != businessId ==>
      r == Some(NewApiError(Forbidden, "you are not authorized to " + action))
  {
    if ctx.businessId.None? then Some(NewApiError(Unauthorized, "business ID not found in context"))
    else if ctx.businessId.value != businessId then Some(NewApiError(Forbidden, "you are not authorized to " + action))
    else None
  }

  /** `UpdateBusinessName`: the name first, then ownership, then the
      repository; a refused call leaves the repository untouched. */
  function UpdateBusinessName<S>(s: S, repo: MemberRepo<S>, ctx: AuthContext.Ctx, businessId: int, name: string): (r: (Outcome<ApiError>, S))
    ensures !NameAcceptable(name) ==>
      r == (Fail(NewApiError(ValidationFailed, "business name must be between 1 and 50 characters")), s)
    ensures NameAcceptable(name) && ctx.businessId != Some(businessId) ==>
      r == (Fail(OwnerCheck(ctx, businessId, "update this business").value), s)
    ensures NameAcceptable(name) && ctx.businessId == Some(businessId) ==>
      var c := repo.updateName(s, businessId, name);
      r.1 == c.1
      && match c.0
        case Pass => r.0 == Pass
        case Fail(e) => r.0 == Fail(NewApiError(OperationFailed, "failed to update business name: " + e))
  {
    if Text.GoTrimSpace(name) == "" || |name| > 50 then
      (Fail(NewApiError(ValidationFailed, "business name must be between 1 and 50 characters")), s)
    else match OwnerCheck(ctx, businessId, "update this business")
      case Some(e) => (Fail(e), s)
      case None =>
        var c := repo.updateName(s, businessId, name);
        match c.0
        case Fail(e) => (Fail(NewApiError(OperationFailed, "failed to update business name: " + e)), c.1)
        case Pass => (Pass, c.1)
  }

  /** `UpdateBusinessIcon`: empty, then too large, then ownership, then the
      sniffed type, then the repository. */
  function UpdateBusinessIcon<S>(s: S, repo: MemberRepo<S>, ctx: AuthContext.Ctx, businessId: int, icon: seq<Image.Byte>,
                                 sniff: seq<Image.Byte> -> string): (r: (Outcome<ApiError>, S))
    ensures icon == [] ==> r == (Fail(NewApiError(InvalidInput, "icon data is required")), s)
    ensures icon != [] && |icon| > MaxIconBytes ==>
      r == (Fail(NewApiError(ImageTooLarge, "image size must not exceed 5MB")), s)
    ensures 0 < |icon| <= MaxIconBytes && ctx.businessId != Some(businessId) ==>
      r == (Fail(OwnerCheck(ctx, businessId, "update this business icon").value), s)
    ensures 0 < |icon| <= MaxIconBytes && ctx.businessId == Some(businessId) && sniff(icon) !in {Png, Jpeg} ==>
      r == (Fail(NewApiError(InvalidInput, "icon must be PNG or JPEG")), s)
    ensures r.1 != s ==> r.1 == repo.updateIcon(s, businessId, icon).1
    ensures (0 < |icon| <= MaxIconBytes && ctx.businessId == Some(businessId) && sniff(icon) in {Png, Jpeg}) ==>
      var c := repo.updateIcon(s, businessId, icon);
      r.1 == c.1
      && match c.0
        case Pass => r.0 == Pass
        case Fail(e) => r.0 == Fail(NewApiError(OperationFailed, "failed to update business icon: " + e))
  {
    if |icon| == 0 then (Fail(NewApiError(InvalidInput, "icon data is required")), s)
    else if |icon| > MaxIconBytes then (Fail(NewApiError(ImageTooLarge, "image size must not exceed 5MB")), s)
    else match OwnerCheck(ctx, businessId, "update this business icon")
      case Some(e) => (Fail(e), s)
      case None =>
        if sniff(icon) != Png && sniff(icon) != Jpeg then (Fail(NewApiError(InvalidInput, "icon must be PNG or JPEG")), s)
        else
          var c := repo.updateIcon(s, businessId, icon);
          match c.0
          case Fail(e) => (Fail(NewApiError(OperationFailed, "failed to update business icon: " + e)), c.1)
          case Pass => (Pass, c.1)
  }

  /** Who may anonymize a member: the member itself, or an administrator. */
  predicate MayAnonymizeMember(ctx: AuthContext.Ctx, businessId: int) {
    ctx.businessId.Some? && (ctx.businessId.value == businessId || ctx.role == Some("admin"))
  }

  /** `AnonymizeMember`: a business id must be in the context; the role is
      read with its absence ignored. */
  function AnonymizeMember<S>(s: S, repo: MemberRepo<S>, ctx: AuthContext.Ctx, businessId: int): (r: (Outcome<ApiError>, S))
    ensures ctx.businessId.None? ==> r == (Fail(NewApiError(Unauthorized, "business ID not found in context")), s)
    ensures ctx.businessId.Some? && !MayAnonymizeMember(ctx, businessId) ==>
      r == (Fail(NewApiError(Forbidden, "you are not authorized to anonymize this member")), s)
    ensures MayAnonymizeMember(ctx, businessId) ==>
      var c := repo.anonymize(s, businessId);
      r.1 == c.1
      && match c.0
        case Pass => r.0 == Pass
        case Fail(e) => r.0 == Fail(NewApiError(OperationFailed, "failed to anonymize member: " + e))
  {
    if ctx.businessId.None? then (Fail(NewApiError(Unauthorized, "business ID not found in context")), s)
    else
      var role := if ctx.role.Some? then ctx.role.value else "";
      if ctx.businessId.value != businessId && role != "admin" then
        (Fail(NewApiError(Forbidden, "you are not authorized to anonymize this member")), s)
      else
        var c := repo.anonymize(s, businessId);
        match c.0
        case Fail(e) => (Fail(NewApiError(OperationFailed, "failed to anonymize member: " + e)), c.1)
        case Pass => (Pass, c.1)
  }

  // ---------------------------------------------------------------------------
  // The member table behind the interface

  /** The GORM `BusinessMemberRepo` over the `business` table; the clock of
      `Anonymize` is `now`. */
  function TableMemberRepo(now: int): MemberRepo<seq<Member>> {
    MemberRepo(
      (rows: seq<Member>, googleId: string) =>
        match BizRepos.MemberByGoogleId(rows, googleId)
        case Ok(m) => Ok(Some(m))
        case Err(e) => Err(e),
      (rows: seq<Member>, businessId: int, name: string) => BizRepos.UpdateNameSpec(rows, businessId, name),
      (rows: seq<Member>, businessId: int, icon: seq<Image.Byte>) => BizRepos.UpdateIconSpec(rows, businessId, icon),
      (rows: seq<Member>, businessId: int) => BizRepos.AnonymizeMemberSpec(rows, businessId, now))
  }

  /** The service counts code points and the table counts UTF-8 bytes: a
      name of 17 to 50 three-byte characters passes the service's check and
      is refused by the table, so the owner gets OPERATION_FAILED and the
      table is unchanged. */
  lemma NameLimitsDisagree(rows: seq<Member>, now: int, businessId: int, name: string, ctx: AuthContext.Ctx)
    requires 17 <= |name| <= 50
    requires forall i :: 0 <= i < |name| ==> 0x800 <= name[i] as int < 0x1_0000 && !Text.IsGoSpace(name[i])
    requires ctx.businessId == Some(businessId)
    ensures NameAcceptable(name) && !BizRepos.NameFitsColumn(name)
    ensures UpdateBusinessName(rows, TableMemberRepo(now), ctx, businessId, name)
            == (Fail(NewApiError(OperationFailed, "failed to update business name: " + "business name must be between 1 and 50 characters")), rows)
  {
    Text.Utf8LenThreeByte(name);
    Text.TrimEmptyIff(name, Text.IsGoSpace);
    assert !Text.IsGoSpace(name[0]);
    var c := TableMemberRepo(now).updateName(rows, businessId, name);
    assert c == (Fail("business name must be between 1 and 50 characters"), rows);
  }
}
