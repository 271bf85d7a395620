/** The user backend's post handlers (`user/handlers/post_handler.go`):
    which query parameter names the post in `GetPostDetail`, and the
    validation chain of `CreatePost` with its data-URL stripping. The genre
    and place lookups belong to services that are not part of this model
    and are parameters; base64 decoding is a parameter too. */
module UserPostHandler {
  import opened Wrappers
  import opened UserDb
  import Text
  import Image
  import UserPostService
  import UserBusinessService

  /** An HTTP status and the `error` text of the JSON body. */
  datatype Failure = Failure(status: int, message: string)

  // ---------------------------------------------------------------------------
  // GetPostDetail

  /** `c.Query("postId")`, or `c.Query("id")` when that is empty. */
  function SelectPostId(postIdParam: string, idParam: string): (s: string)
    ensures postIdParam != "" ==> s == postIdParam
    ensures postIdParam == "" ==> s == idParam
  {
    if postIdParam != "" then postIdParam else idParam
  }

  /** `GetPostDetail`: an id that `strconv.Atoi` refuses is 400; the id is
      narrowed with `int32(...)` and any service error is 404. */
  function GetPostDetailOutcome(t: Snapshot, postIdParam: string, idParam: string): (r: (Result<UserPostService.PostDetail, Failure>, Snapshot))
    ensures Text.Atoi(SelectPostId(postIdParam, idParam)).None? ==> r == (Err(Failure(400, "invalid postId")), t)
    ensures Text.Atoi(SelectPostId(postIdParam, idParam)).Some? ==>
      var d := UserPostService.Detail(t, Text.Int32(Text.Atoi(SelectPostId(postIdParam, idParam)).value));
      (r.1 == d.1 && (r.0.Ok? <==> d.0.Ok?)
      && (d.0.Ok? ==> r.0.value == d.0.value)
      && (d.0.Err? ==> r.0.error == Failure(404, d.0.error)))
  {
    match Text.Atoi(SelectPostId(postIdParam, idParam))
    case None => (Err(Failure(400, "invalid postId")), t)
    case Some(n) =>
      var (detail, t1) := UserPostService.Detail(t, Text.Int32(n));
      match detail
      case Ok(d) => (Ok(d), t1)
      case Err(e) => (Err(Failure(404, e)), t1)
  }

  /** A non-empty `postId` wins over `id`, whatever `id` holds. */
  lemma PostIdWins(t: Snapshot, postIdParam: string, id1: string, id2: string)
    requires postIdParam != ""
    ensures GetPostDetailOutcome(t, postIdParam, id1) == GetPostDetailOutcome(t, postIdParam, id2)
  {
  }

  /** An id past the `int32` range is not refused but narrowed: the id
      n + 2^32 reads post n. */
  lemma WideIdWraps(t: Snapshot, n: int)
    requires 0 <= n < Text.TWO_31
    ensures GetPostDetailOutcome(t, Text.IntToString(n + Text.TWO_32), "") == GetPostDetailOutcome(t, Text.IntToString(n), "")
  {
    Text.AtoiIntToString(n + Text.TWO_32);
    Text.AtoiIntToString(n);
    assert Text.Int32(n + Text.TWO_32) == n by {
      assert (n + Text.TWO_32 + Text.TWO_31) % Text.TWO_32 == n + Text.TWO_31;
    }
  }

  // ---------------------------------------------------------------------------
  // CreatePost

  /** The JSON body of `CreatePost`. */
  datatype CreateRequest = CreateRequest(latitude: real, longitude: real, title: string, description: string,
                                         genre: string, images: seq<string>, placeId: int)

  /** gin's `binding:"required"`: a field holding its zero value is missing,
      so a latitude or longitude of exactly 0 is refused too. */
  predicate RequiredPresent(req: CreateRequest) {
    req.latitude != 0.0 && req.longitude != 0.0 && req.title != "" && req.description != "" && req.genre != ""
  }

  /** The prefix stripping on the first image: everything after the first
      comma, the whole string when there is none. The explicit empty result
      for a trailing comma is what slicing gives anyway. */
  function StripDataUrl(img: string): (r: string)
    ensures ',' !in img ==> r == img
    ensures ',' in img ==> r == img[Text.IndexOf(img, ',').value + 1..]
    ensures |r| <= |img|
  {
    match Text.IndexOf(img, ',')
    case None => img
    case Some(idx) => if idx + 1 < |img| then img[idx + 1..] else ""
  }

  /** The first comma of `a + [','] + b` is the one after `a` when `a` has
      none. */
  lemma FirstCommaAt(a: string, b: string)
    requires ',' !in a
    ensures Text.IndexOf(a + [','] + b, ',') == Some(|a|)
  {
    var s := a + [','] + b;
    assert s[|a|] == ',';
  }

  /** Stripping undoes the icon service's data-URL builder: the payload of
      `data:<mime>;base64,<text>` is `<text>` whenever the sniffed MIME type
      has no comma. */
  lemma StripIconDataUrl(data: seq<Image.Byte>, sniff: seq<Image.Byte> -> string, base64: seq<Image.Byte> -> string)
    requires ',' !in sniff(data)
    ensures StripDataUrl(UserBusinessService.DataUrl(data, sniff, base64)) == base64(data)
  {
    var a := "data:" + sniff(data) + ";base64";
    assert ',' !in a by {
      assert a == "data:" + sniff(data) + ";base64";
      forall i | 0 <= i < |a| ensures a[i] != ',' {
        if i >= 5 && i < 5 + |sniff(data)| {
          assert a[i] == sniff(data)[i - 5];
        }
      }
    }
    assert UserBusinessService.DataUrl(data, sniff, base64) == a + [','] + base64(data);
    FirstCommaAt(a, base64(data));
  }

  /** The stored image: only the first entry is read; an empty payload or a
      failed decode leaves the image empty and the request goes on. */
  function PostImage(images: seq<string>, decode: string -> Option<seq<Image.Byte>>): (r: seq<Image.Byte>)
    ensures images == [] ==> r == []
    ensures images != [] && StripDataUrl(images[0]) == "" ==> r == []
    ensures images != [] && StripDataUrl(images[0]) != "" ==> r == decode(StripDataUrl(images[0])).GetOr([])
  {
    if images == [] then []
    else
      var payload := StripDataUrl(images[0]);
      if payload == "" then []
      else match decode(payload)
        case None => []
        case Some(bytes) => bytes
  }

  /** Later images never matter. */
  lemma OnlyFirstImage(images: seq<string>, more: seq<string>, decode: string -> Option<seq<Image.Byte>>)
    requires images != []
    ensures PostImage(images + more, decode) == PostImage(images, decode)
  {
    assert (images + more)[0] == images[0];
  }

  /** Where the post is placed: a non-zero `placeId` is narrowed with
      `int32(...)` and used without a lookup; zero asks the place service,
      whose answer `findOrCreate` is. */
  function PlaceFor(req: CreateRequest, findOrCreate: Result<int, string>): (r: Result<int, Failure>)
    ensures req.placeId != 0 ==> r == Ok(Text.Int32(req.placeId))
    ensures req.placeId == 0 && findOrCreate.Err? ==> r == Err(Failure(500, "failed to register place"))
    ensures req.placeId == 0 && findOrCreate.Ok? ==> r == Ok(findOrCreate.value)
  {
    if req.placeId != 0 then Ok(Text.Int32(req.placeId))
    else match findOrCreate
      case Err(_) => Err(Failure(500, "failed to register place"))
      case Ok(id) => Ok(id)
  }

  datatype Created = Created(postId: int, placeId: int, latitude: real, longitude: real)

  /** The checks of `CreatePost` before anything is stored, in order:
      binding, title length, description length (both in code points), the
      genre, then the caller. The result is the post to insert. `request`
      is `None` for a body that does not decode; `genreId` and
      `findOrCreate` are the services' answers. */
  function BuildPost(request: Option<CreateRequest>, genreId: Option<int>, decode: string -> Option<seq<Image.Byte>>,
                     userId: string, findOrCreate: Result<int, string>, newId: int, now: int): (r: Result<Post, Failure>)
    ensures request.None? || !RequiredPresent(request.value) ==> r == Err(Failure(400, "invalid request format"))
    ensures r.Ok? ==> (request.Some? && RequiredPresent(request.value) && |request.value.title| <= 50
      && |request.value.description| <= 2000 && genreId.Some? && userId != "")
    ensures request.Some? && RequiredPresent(request.value) && |request.value.title| > 50 ==>
      r == Err(Failure(400, "title too long (max 50 characters)"))
    ensures request.Some? && RequiredPresent(request.value) && |request.value.title| <= 50 && |request.value.description| > 2000 ==>
      r == Err(Failure(400, "description too long (max 2000 characters)"))
    ensures (request.Some? && RequiredPresent(request.value) && |request.value.title| <= 50
      && |request.value.description| <= 2000 && genreId.None?) ==> r == Err(Failure(400, "無効なジャンルです"))
    ensures (request.Some? && RequiredPresent(request.value) && |request.value.title| <= 50
      && |request.value.description| <= 2000 && genreId.Some? && userId == "") ==> r == Err(Failure(401, "unauthorized"))
    ensures (request.Some? && RequiredPresent(request.value) && |request.value.title| <= 50
      && |request.value.description| <= 2000 && genreId.Some? && userId != "") ==>
      (r.Ok? <==> PlaceFor(request.value, findOrCreate).Ok?)
      && (r.Err? ==> r == Err(PlaceFor(request.value, findOrCreate).error))
    ensures r.Ok? ==> var req := request.value;
      (r.value.title == req.title && r.value.text == req.description && r.value.userId == userId
      && r.value.postImage == PostImage(req.images, decode) && r.value.genreId == Text.Int32(genreId.value)
      && PlaceFor(req, findOrCreate) == Ok(r.value.placeId)
      && r.value.numReaction == 0 && r.value.numView == 0 && r.value.postDate == now && r.value.postId == newId)
  {
    match request
    case None => Err(Failure(400, "invalid request format"))
    case Some(req) =>
      if !RequiredPresent(req) then Err(Failure(400, "invalid request format"))
      else if |req.title| > 50 then Err(Failure(400, "title too long (max 50 characters)"))
      else if |req.description| > 2000 then Err(Failure(400, "description too long (max 2000 characters)"))
      else match genreId
        case None => Err(Failure(400, "無効なジャンルです"))
        case Some(g) =>
          var image := PostImage(req.images, decode);
          if userId == "" then Err(Failure(401, "unauthorized"))
          else match PlaceFor(req, findOrCreate)
            case Err(f) => Err(f)
            case Ok(placeId) =>
              Ok(Post(newId, placeId, Text.Int32(g), userId, req.title, req.description, image, 0, 0, now))
  }

  /** An unknown genre is a 400 even for an unauthenticated caller: the
      genre is checked before the caller, and any known genre then meets
      the 401. */
  lemma GenreBeforeCaller(req: CreateRequest, g: int, decode: string -> Option<seq<Image.Byte>>, findOrCreate: Result<int, string>, newId: int, now: int)
    requires RequiredPresent(req) && |req.title| <= 50 && |req.description| <= 2000
    ensures BuildPost(Some(req), None, decode, "", findOrCreate, newId, now).error.status == 400
    ensures BuildPost(Some(req), Some(g), decode, "", findOrCreate, newId, now).error.status == 401
  {
  }

  /** The whole handler: the checks, the service's insert, then the place
      read-back, whose failure answers 500 with the post already stored.
      `place` is the place service's answer for the post's place. */
  function CreatePostOutcome(t: Snapshot, request: Option<CreateRequest>, genreId: Option<int>,
                             decode: string -> Option<seq<Image.Byte>>, userId: string,
                             findOrCreate: Result<int, string>, place: int -> Option<Place>,
                             newId: int, now: int): (r: (Result<Created, Failure>, Snapshot))
    ensures BuildPost(request, genreId, decode, userId, findOrCreate, newId, now).Err? ==>
      r == (Err(BuildPost(request, genreId, decode, userId, findOrCreate, newId, now).error), t)
    ensures BuildPost(request, genreId, decode, userId, findOrCreate, newId, now).Ok? ==>
      r.1 == t.(posts := t.posts + [BuildPost(request, genreId, decode, userId, findOrCreate, newId, now).value])
    ensures BuildPost(request, genreId, decode, userId, findOrCreate, newId, now).Ok? ==>
      (r.0.Ok? <==> place(BuildPost(request, genreId, decode, userId, findOrCreate, newId, now).value.placeId).Some?)
    ensures r.0.Ok? ==> (r.0.value.postId == newId && place(r.0.value.placeId).Some?
      && r.0.value.latitude == place(r.0.value.placeId).value.latitude
      && r.0.value.longitude == place(r.0.value.placeId).value.longitude)
  {
    match BuildPost(request, genreId, decode, userId, findOrCreate, newId, now)
    case Err(f) => (Err(f), t)
    case Ok(post) =>
      var (stored, t1) := UserPostService.Store(t, post);
      if stored.Fail? then (Err(Failure(500, "failed to create post")), t1)
      else match place(post.placeId)
        case None => (Err(Failure(500, "failed to fetch place info")), t1)
        case Some(p) => (Ok(Created(post.postId, post.placeId, p.latitude, p.longitude)), t1)
  }

  /** The service's own "title and text are required" check never fires
      from this handler: binding has already refused empty values. */
  lemma ServiceCheckUnreachable(t: Snapshot, request: Option<CreateRequest>, genreId: Option<int>,
                                decode: string -> Option<seq<Image.Byte>>, userId: string,
                                findOrCreate: Result<int, string>, newId: int, now: int)
    requires BuildPost(request, genreId, decode, userId, findOrCreate, newId, now).Ok?
    ensures UserPostService.Store(t, BuildPost(request, genreId, decode, userId, findOrCreate, newId, now).value).0 == Pass
  {
  }

  /** The handlers over the post service. */
  class PostHandler {
    const service: UserPostService.PostService

    constructor (service: UserPostService.PostService)
      ensures this.service == service
    {
      this.service := service;
    }

    /** `GetPostDetail`. */
    method GetPostDetail(postIdParam: string, idParam: string) returns (r: Result<UserPostService.PostDetail, Failure>)
      modifies service.db
      ensures (r, service.db.State()) == GetPostDetailOutcome(old(service.db.State()), postIdParam, idParam)
    {
      var postIdStr := postIdParam;
      if postIdStr == "" {
        postIdStr := idParam;
      }
      var postId := Text.Atoi(postIdStr);
      if postId.None? {
        return Err(Failure(400, "invalid postId"));
      }
      var detail := service.GetPostDetail(Text.Int32(postId.value));
      if detail.Err? {
        return Err(Failure(404, detail.error));
      }
      return Ok(detail.value);
    }

    /** `CreatePost`. */
    method CreatePost(request: Option<CreateRequest>, genreId: Option<int>, decode: string -> Option<seq<Image.Byte>>,
                      userId: string, findOrCreate: Result<int, string>, place: int -> Option<Place>,
                      newId: int, now: int) returns (r: Result<Created, Failure>)
      modifies service.db
      ensures (r, service.db.State())
           == CreatePostOutcome(old(service.db.State()), request, genreId, decode, userId, findOrCreate, place, newId, now)
    {
      var built := BuildPost(request, genreId, decode, userId, findOrCreate, newId, now);
      if built.Err? {
        return Err(built.error);
      }
      var post := built.value;
      var stored := service.CreatePost(post);
      if stored.Fail? {
        return Err(Failure(500, "failed to create post"));
      }
      var p := place(post.placeId);
      if p.None? {
        return Err(Failure(500, "failed to fetch place info"));
      }
      return Ok(Created(post.postId, post.placeId, p.value.latitude, p.value.longitude));
    }
  }
}
