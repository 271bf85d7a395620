/** The user backend's post service (`user/services/post_service.go`):
    post detail with its view count, post creation, the pin size, the
    reaction toggle, deletion by the owner and the reaction test. Each
    operation is a function from the tables before to the answer and the
    tables after; `PostService` runs the same steps on the database. */
module UserPostService {
  import opened Wrappers
  import opened Tables
  import opened UserDb

  function PostHasId(id: int): Post -> bool { (p: Post) => p.postId == id }
  function OnPost(id: int): Reaction -> bool { (x: Reaction) => x.postId == id }
  function IsReaction(userId: string, postId: int): Reaction -> bool {
    (x: Reaction) => x.userId == userId && x.postId == postId
  }
  function AtPlace(placeId: int): Post -> bool { (p: Post) => p.placeId == placeId }
  function LiveUserWithId(id: string): User -> bool { (u: User) => u.id == id && u.deletedAt.None? }
  function GenreWithId(id: int): Genre -> bool { (g: Genre) => g.genreId == id }
  function PlaceWithId(id: int): Place -> bool { (p: Place) => p.placeId == id }

  /** GORM's message for a `First` that matches no row. */
  const RecordNotFound := "record not found"

  datatype PostDetail = PostDetail(postId: int, placeId: int, genreId: int, userId: string, title: string,
                                   text: string, numView: int, numReaction: int, postDate: int,
                                   latitude: real, longitude: real, genreName: string)

  /** `numView + 1` on every row with that id. */
  function CountView(posts: seq<Post>, postId: int): (r: seq<Post>)
    ensures |r| == |posts|
    ensures forall k :: 0 <= k < |posts| ==>
      r[k] == if posts[k].postId == postId then posts[k].(numView := posts[k].numView + 1) else posts[k]
  {
    MapWhere(posts, PostHasId(postId), (p: Post) => p.(numView := p.numView + 1))
  }

  /** `GetPostDetail`: a missing post is "post not found" with no table
      touched. Otherwise the view is counted first, and the user, genre and
      place lookups that follow can still fail; the count stays. */
  function Detail(t: Snapshot, postId: int): (r: (Result<PostDetail, string>, Snapshot))
    ensures !Any(t.posts, PostHasId(postId)) ==> r == (Err("post not found"), t)
    ensures Any(t.posts, PostHasId(postId)) ==> r.1 == t.(posts := CountView(t.posts, postId))
    ensures r.0.Ok? <==> (Any(t.posts, PostHasId(postId))
      && Any(t.users, LiveUserWithId(FindFirst(t.posts, PostHasId(postId)).value.userId))
      && Any(t.genres, GenreWithId(FindFirst(t.posts, PostHasId(postId)).value.genreId))
      && Any(t.places, PlaceWithId(FindFirst(t.posts, PostHasId(postId)).value.placeId)))
  {
    match FindFirst(t.posts, PostHasId(postId))
    case None => (Err("post not found"), t)
    case Some(post) =>
      var t1 := t.(posts := CountView(t.posts, postId));
      var p := post.(numView := post.numView + 1);
      if !Any(t.users, LiveUserWithId(p.userId)) then (Err(RecordNotFound), t1)
      else match FindFirst(t.genres, GenreWithId(p.genreId))
        case None => (Err(RecordNotFound), t1)
        case Some(genre) =>
          match FindFirst(t.places, PlaceWithId(p.placeId))
          case None => (Err(RecordNotFound), t1)
          case Some(place) =>
            (Ok(PostDetail(p.postId, p.placeId, p.genreId, p.userId, p.title, p.text, p.numView, p.numReaction,
                           p.postDate, place.latitude, place.longitude, genre.genreName)), t1)
  }

  /** A successful detail reports the stored post's title, text and
      reactions, with its view count incremented, and takes the genre name
      and the coordinates from the first genre and place rows with the
      post's ids. */
  lemma DetailCopiesPost(t: Snapshot, postId: int)
    ensures var r := Detail(t, postId);
      r.0.Ok? ==> exists k :: (0 <= k < |t.posts| && t.posts[k].postId == postId
        && r.0.value.numView == t.posts[k].numView + 1 && r.0.value.numReaction == t.posts[k].numReaction
        && r.0.value.title == t.posts[k].title && r.0.value.text == t.posts[k].text)
    ensures var r := Detail(t, postId);
      r.0.Ok? ==> (r.0.value.postId == postId
        && r.0.value.genreName == FindFirst(t.genres, GenreWithId(r.0.value.genreId)).value.genreName
        && r.0.value.latitude == FindFirst(t.places, PlaceWithId(r.0.value.placeId)).value.latitude
        && r.0.value.longitude == FindFirst(t.places, PlaceWithId(r.0.value.placeId)).value.longitude)
  {
  }

  /** A found post's view is counted even when a later lookup fails. */
  lemma ViewCountedEvenOnFailure(t: Snapshot, postId: int)
    requires Any(t.posts, PostHasId(postId))
    ensures var r := Detail(t, postId);
      forall k :: 0 <= k < |t.posts| && t.posts[k].postId == postId ==> r.1.posts[k].numView == t.posts[k].numView + 1
  {
  }

  /** `CreatePost`: an empty title or text is refused and nothing is
      stored; otherwise the post is appended as given. */
  function Store(t: Snapshot, post: Post): (r: (Outcome<string>, Snapshot))
    ensures post.title == "" || post.text == "" ==> r == (Fail("title and text are required"), t)
    ensures post.title != "" && post.text != "" ==> r == (Pass, t.(posts := t.posts + [post]))
  {
    if post.title == "" || post.text == "" then (Fail("title and text are required"), t)
    else (Pass, t.(posts := t.posts + [post]))
  }

  /** `GetPinSize`: 1.3 for a place with at least 50 posts, else 1.0. */
  function GetPinSize(t: Snapshot, placeId: int): (size: real)
    ensures size == 1.3 <==> Count(t.posts, AtPlace(placeId)) >= 50
    ensures size == 1.0 <==> Count(t.posts, AtPlace(placeId)) < 50
  {
    if Count(t.posts, AtPlace(placeId)) >= 50 then 1.3 else 1.0
  }

  /** One more post at a place never shrinks its pin. */
  lemma PinSizeMonotone(t: Snapshot, post: Post)
    ensures GetPinSize(t.(posts := t.posts + [post]), post.placeId) >= GetPinSize(t, post.placeId)
  {
    CountAppend(t.posts, post, AtPlace(post.placeId));
  }

  /** `numReaction + delta` on every row with that id. */
  function AdjustReactions(posts: seq<Post>, postId: int, delta: int): (r: seq<Post>)
    ensures |r| == |posts|
    ensures forall k :: 0 <= k < |posts| ==>
      r[k] == if posts[k].postId == postId then posts[k].(numReaction := posts[k].numReaction + delta) else posts[k]
  {
    MapWhere(posts, PostHasId(postId), (p: Post) => p.(numReaction := p.numReaction + delta))
  }

    /** `AddReaction`: a toggle. An existing (user, post) reaction is deleted
      and the post's `numReaction` goes down by one; otherwise a reaction is
      inserted and it goes up by one. */
  function Toggle(t: Snapshot, userId: string, postId: int): (r: (Outcome<string>, Snapshot))
    ensures userId == "" ==> r == (Fail("userID is required"), t)
    ensures userId != "" ==> r.0 == Pass && r.1.users == t.users && r.1.sessions == t.sessions
    ensures userId != "" && Any(t.reactions, IsReaction(userId, postId)) ==>
      r.1.posts == AdjustReactions(t.posts, postId, -1)
      && multiset(r.1.reactions) == multiset(t.reactions) - multiset{Reaction(userId, postId)}
    ensures userId != "" && !Any(t.reactions, IsReaction(userId, postId)) ==>
      r.1 == t.(posts := AdjustReactions(t.posts, postId, 1), reactions := t.reactions + [Reaction(userId, postId)])
  {
    if userId == "" then (Fail("userID is required"), t)
    else match FindIndex(t.reactions, IsReaction(userId, postId))
      case Some(k) =>
        assert t.reactions[k] == Reaction(userId, postId);
        (Pass, t.(reactions := RemoveAt(t.reactions, k), posts := AdjustReactions(t.posts, postId, -1)))
      case None =>
        (Pass, t.(reactions := t.reactions + [Reaction(userId, postId)], posts := AdjustReactions(t.posts, postId, 1)))
  }

  /** The counter invariant: every post's `numReaction` is the number of its
      reaction rows. */
  predicate CountsAgree(t: Snapshot) {
    forall k :: 0 <= k < |t.posts| ==> t.posts[k].numReaction == Count(t.reactions, OnPost(t.posts[k].postId))
  }

  /** `AddReaction` keeps the counter invariant. */
  lemma AddReactionKeepsCounts(t: Snapshot, userId: string, postId: int)
    requires CountsAgree(t)
    ensures CountsAgree(Toggle(t, userId, postId).1)
  {
    if userId != "" {
      var after := Toggle(t, userId, postId).1;
      match FindIndex(t.reactions, IsReaction(userId, postId))
      case Some(i) =>
        forall k | 0 <= k < |after.posts|
          ensures after.posts[k].numReaction == Count(after.reactions, OnPost(after.posts[k].postId))
        {
          CountRemoveAt(t.reactions, i, OnPost(t.posts[k].postId));
        }
      case None =>
        forall k | 0 <= k < |after.posts|
          ensures after.posts[k].numReaction == Count(after.reactions, OnPost(after.posts[k].postId))
        {
          CountAppend(t.reactions, Reaction(userId, postId), OnPost(t.posts[k].postId));
        }
    }
  }

  /** At most one reaction row per (user, post) pair. */
  predicate UniqueReactions(t: Snapshot) {
    UniquePairs(t.reactions)
  }

  predicate UniquePairs(rs: seq<Reaction>) {
    forall i, j :: 0 <= i < j < |rs| ==> !(rs[i].userId == rs[j].userId && rs[i].postId == rs[j].postId)
  }

  /** With unique pairs, deleting the found row leaves no row for the pair. */
  lemma RemoveLeavesNone(rs: seq<Reaction>, userId: string, postId: int, i: nat)
    requires UniquePairs(rs) && FindIndex(rs, IsReaction(userId, postId)) == Some(i)
    ensures !Any(RemoveAt(rs, i), IsReaction(userId, postId))
  {
    var r := RemoveAt(rs, i);
    forall j | 0 <= j < |r|
      ensures !IsReaction(userId, postId)(r[j])
    {
      if j < i {
        assert r[j] == rs[..i][j];
      } else {
        assert r[j] == rs[j + 1];
      }
    }
  }

  /** `IsUserReacted`: whether a (user, post) reaction row exists. */
  function IsUserReacted(t: Snapshot, userId: string, postId: int): (b: bool)
    ensures b <==> exists k :: 0 <= k < |t.reactions| && t.reactions[k] == Reaction(userId, postId)
  {
    CountPositive(t.reactions, IsReaction(userId, postId));
    Count(t.reactions, IsReaction(userId, postId)) > 0
  }

  /** The toggle inserts only when no row exists, so it never creates a
      duplicate pair, and with unique pairs it flips `IsUserReacted`. */
  lemma AddReactionFlips(t: Snapshot, userId: string, postId: int)
    requires UniqueReactions(t) && userId != ""
    ensures UniqueReactions(Toggle(t, userId, postId).1)
    ensures IsUserReacted(Toggle(t, userId, postId).1, userId, postId) == !IsUserReacted(t, userId, postId)
  {
    var after := Toggle(t, userId, postId).1;
    match FindIndex(t.reactions, IsReaction(userId, postId))
    case Some(i) =>
      assert after.reactions == RemoveAt(t.reactions, i);
      forall j | 0 <= j < |after.reactions|
        ensures after.reactions[j] != Reaction(userId, postId)
      {
        if j >= i {
          assert after.reactions[j] == t.reactions[j + 1];
        }
      }
      assert IsUserReacted(t, userId, postId) by {
        assert t.reactions[i] == Reaction(userId, postId);
      }
    case None =>
      assert after.reactions[|t.reactions|] == Reaction(userId, postId);
      assert !IsUserReacted(t, userId, postId) by {
        forall k | 0 <= k < |t.reactions|
          ensures t.reactions[k] != Reaction(userId, postId)
        {
          assert !IsReaction(userId, postId)(t.reactions[k]);
        }
      }
  }

  /** Opposite adjustments cancel. */
  lemma AdjustCancels(posts: seq<Post>, postId: int, delta: int)
    ensures AdjustReactions(AdjustReactions(posts, postId, delta), postId, -delta) == posts
  {
  }

  /** Toggling a reaction that exists: the row goes and comes back at the
      end, the counters return. */
  lemma ToggleTwiceFromReacted(t: Snapshot, userId: string, postId: int)
    requires UniqueReactions(t) && userId != "" && Any(t.reactions, IsReaction(userId, postId))
    ensures var twice := Toggle(Toggle(t, userId, postId).1, userId, postId).1;
      twice.posts == t.posts && multiset(twice.reactions) == multiset(t.reactions)
  {
    var r := Reaction(userId, postId);
    var i := FindIndex(t.reactions, IsReaction(userId, postId)).value;
    assert t.reactions[i] == r;
    var once := Toggle(t, userId, postId).1;
    assert once.reactions == RemoveAt(t.reactions, i);
    RemoveLeavesNone(t.reactions, userId, postId, i);
    var twice := Toggle(once, userId, postId).1;
    assert multiset(twice.reactions) == multiset(once.reactions) + multiset{r};
    assert multiset(once.reactions) == multiset(t.reactions) - multiset{r};
    assert r in multiset(t.reactions);
    MultisetRemoveAdd(multiset(t.reactions), r);
    assert twice.posts == AdjustReactions(AdjustReactions(t.posts, postId, -1), postId, 1);
    AdjustCancels(t.posts, postId, -1);
    assert -(-1) == 1;
  }

  lemma MultisetRemoveAdd(m: multiset<Reaction>, r: Reaction)
    requires r in m
    ensures m - multiset{r} + multiset{r} == m
  {
  }

  /** Toggling a reaction that does not exist: the appended row is the one
      the second call finds and deletes, so the tables come back exactly. */
  lemma ToggleTwiceFromUnreacted(t: Snapshot, userId: string, postId: int)
    requires userId != "" && !Any(t.reactions, IsReaction(userId, postId))
    ensures Toggle(Toggle(t, userId, postId).1, userId, postId).1 == t
  {
    var once := Toggle(t, userId, postId).1;
    assert IsReaction(userId, postId)(once.reactions[|t.reactions|]);
    var k := FindIndex(once.reactions, IsReaction(userId, postId)).value;
    assert k == |t.reactions|;
    var twice := Toggle(once, userId, postId).1;
    assert twice.reactions == t.reactions by {
      assert once.reactions[..k] == t.reactions;
    }
    AdjustCancels(t.posts, postId, 1);
  }

  /** `DeletePost`: an empty user, a missing post and a post of another
      user are refused in that order, and nothing changes; otherwise the
      post is gone. */
  function Remove(t: Snapshot, postId: int, userId: string): (r: (Outcome<string>, Snapshot))
    ensures userId == "" ==> r == (Fail("userID is required"), t)
    ensures userId != "" && !Any(t.posts, PostHasId(postId)) ==> r == (Fail("post not found"), t)
    ensures userId != "" && Any(t.posts, PostHasId(postId)) && FindFirst(t.posts, PostHasId(postId)).value.userId != userId ==>
      r == (Fail("unauthorized: you can only delete your own posts"), t)
    ensures r.0.Pass? <==> userId != "" && Any(t.posts, PostHasId(postId)) && FindFirst(t.posts, PostHasId(postId)).value.userId == userId
    ensures r.0.Pass? ==> r.1 == t.(posts := r.1.posts) && (forall p :: p in r.1.posts <==> p in t.posts && p.postId != postId)
  {
    if userId == "" then (Fail("userID is required"), t)
    else match FindFirst(t.posts, PostHasId(postId))
      case None => (Fail("post not found"), t)
      case Some(post) =>
        if post.userId != userId then (Fail("unauthorized: you can only delete your own posts"), t)
        else
          forall p {
            FilterMember(t.posts, (q: Post) => q.postId != postId, p);
          }
          (Pass, t.(posts := Filter(t.posts, (q: Post) => q.postId != postId)))
  }

  /** Only the owner deletes: whoever else asks, the first post with that
      id stays. */
  lemma OnlyOwnerDeletes(t: Snapshot, postId: int, userId: string)
    requires Any(t.posts, PostHasId(postId)) && FindFirst(t.posts, PostHasId(postId)).value.userId != userId
    ensures Remove(t, postId, userId).0.Fail? && Remove(t, postId, userId).1 == t
  {
  }

  /** The post service over the shared database handle. */
  class PostService {
    const db: Database

    constructor (db: Database)
      ensures this.db == db
    {
      this.db := db;
    }

    /** `GetPostDetail`. */
    method GetPostDetail(postId: int) returns (r: Result<PostDetail, string>)
      modifies db
      ensures (r, db.State()) == Detail(old(db.State()), postId)
    {
      var found := FindFirst(db.posts, PostHasId(postId));
      if found.None? {
        return Err("post not found");
      }
      db.posts := CountView(db.posts, postId);
      var post := found.value.(numView := found.value.numView + 1);
      if !Any(db.users, LiveUserWithId(post.userId)) {
        return Err(RecordNotFound);
      }
      var genre := FindFirst(db.genres, GenreWithId(post.genreId));
      if genre.None? {
        return Err(RecordNotFound);
      }
      var place := FindFirst(db.places, PlaceWithId(post.placeId));
      if place.None? {
        return Err(RecordNotFound);
      }
      r := Ok(PostDetail(post.postId, post.placeId, post.genreId, post.userId, post.title, post.text,
                         post.numView, post.numReaction, post.postDate, place.value.latitude,
                         place.value.longitude, genre.value.genreName));
    }

    /** `CreatePost`. */
    method CreatePost(post: Post) returns (r: Outcome<string>)
      modifies db
      ensures (r, db.State()) == Store(old(db.State()), post)
    {
      if post.title == "" || post.text == "" {
        return Fail("title and text are required");
      }
      db.posts := db.posts + [post];
      return Pass;
    }

    /** `AddReaction`: the row is deleted or inserted, then the counter is
      moved. */
    method AddReaction(userId: string, postId: int) returns (r: Outcome<string>)
      modifies db
      ensures (r, db.State()) == Toggle(old(db.State()), userId, postId)
    {
      if userId == "" {
        return Fail("userID is required");
      }
      var existing := FindIndex(db.reactions, IsReaction(userId, postId));
      if existing.Some? {
        db.reactions := RemoveAt(db.reactions, existing.value);
        db.posts := MapWhere(db.posts, PostHasId(postId), (p: Post) => p.(numReaction := p.numReaction + -1));
        return Pass;
      }
      db.reactions := db.reactions + [Reaction(userId, postId)];
      db.posts := MapWhere(db.posts, PostHasId(postId), (p: Post) => p.(numReaction := p.numReaction + 1));
      return Pass;
    }

    /** `DeletePost`. */
    method DeletePost(postId: int, userId: string) returns (r: Outcome<string>)
      modifies db
      ensures (r, db.State()) == Remove(old(db.State()), postId, userId)
    {
      if userId == "" {
        return Fail("userID is required");
      }
      var post := FindFirst(db.posts, PostHasId(postId));
      if post.None? {
        return Fail("post not found");
      }
      if post.value.userId != userId {
        return Fail("unauthorized: you can only delete your own posts");
      }
      db.posts := Filter(db.posts, (q: Post) => q.postId != postId);
      return Pass;
    }
  }
}
