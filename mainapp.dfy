/** The signed-in application shell's state (`src/components/MainApp.tsx`):
    the reaction toggle, creating and deleting a pin, blocking a user and
    the view navigation around the logout screen. `Date.now()` and the
    ISO text of the current time are inputs. */
module MainAppState {
  import opened Wrappers
  import opened Tables
  import opened FrontTypes

  /** The main views. `previousView` only ever holds one of the first three. */
  datatype View = MapView | MyPage | Dashboard | Logout | DeleteAccount

  predicate Returnable(v: View) { v == MapView || v == MyPage || v == Dashboard }

  /** The signed-in user, as far as these handlers read it. */
  datatype AppUser = AppUser(googleId: string, role: string, blocks: Option<seq<Block>>)

  /** The component state these handlers touch. */
  datatype App = App(posts: seq<Post>, filteredPosts: seq<Post>, places: seq<Place>, selectedPost: Option<Post>,
                     reactedPosts: set<int>, currentView: View, previousView: View, isCreateModalOpen: bool,
                     createInitialLatitude: Option<real>, createInitialLongitude: Option<real>)

  // ---------------------------------------------------------------------------
  // Reactions

  function AddReactions(l: seq<Post>, postId: int, delta: int): (r: seq<Post>)
    ensures |r| == |l|
    ensures forall k :: 0 <= k < |l| ==>
      r[k] == (if l[k].postId == postId then l[k].(numReaction := l[k].numReaction + delta) else l[k])
  {
    MapWhere(l, (p: Post) => p.postId == postId, (p: Post) => p.(numReaction := p.numReaction + delta))
  }

  /** `handleReaction(postId)`: the direction is decided by whether the post
      was already reacted to; both lists and the open post move the same
      way and the set gains or loses the id. */
  function HandleReaction(s: App, postId: int): (r: App)
    ensures var delta := if postId in s.reactedPosts then -1 else 1;
      r.posts == AddReactions(s.posts, postId, delta)
      && r.filteredPosts == AddReactions(s.filteredPosts, postId, delta)
      && (s.selectedPost.Some? && s.selectedPost.value.postId == postId ==>
            r.selectedPost == Some(s.selectedPost.value.(numReaction := s.selectedPost.value.numReaction + delta)))
      && (!(s.selectedPost.Some? && s.selectedPost.value.postId == postId) ==> r.selectedPost == s.selectedPost)
    ensures (postId in r.reactedPosts) == (postId !in s.reactedPosts)
    ensures r.reactedPosts - {postId} == s.reactedPosts - {postId}
    ensures r == s.(posts := r.posts, filteredPosts := r.filteredPosts, selectedPost := r.selectedPost,
                    reactedPosts := r.reactedPosts)
  {
    var reacted := postId in s.reactedPosts;
    var delta := if reacted then -1 else 1;
    var selected :=
      match s.selectedPost
      case Some(p) => if p.postId == postId then Some(p.(numReaction := p.numReaction + delta)) else s.selectedPost
      case None => None;
    s.(posts := AddReactions(s.posts, postId, delta),
       filteredPosts := AddReactions(s.filteredPosts, postId, delta),
       reactedPosts := if reacted then s.reactedPosts - {postId} else s.reactedPosts + {postId},
       selectedPost := selected)
  }

  /** Adding and then taking back a count leaves every post as it was. */
  lemma AddReactionsCancel(l: seq<Post>, postId: int, delta: int)
    ensures AddReactions(AddReactions(l, postId, delta), postId, -delta) == l
  {
    var r := AddReactions(AddReactions(l, postId, delta), postId, -delta);
    assert |r| == |l|;
    forall k | 0 <= k < |l|
      ensures r[k] == l[k]
    {
    }
  }

  /** Reacting twice to the same post restores the whole state. */
  lemma ReactTwiceRestores(s: App, postId: int)
    ensures HandleReaction(HandleReaction(s, postId), postId) == s
  {
    var delta := if postId in s.reactedPosts then -1 else 1;
    AddReactionsCancel(s.posts, postId, delta);
    AddReactionsCancel(s.filteredPosts, postId, delta);
    var r := HandleReaction(HandleReaction(s, postId), postId);
    assert r.reactedPosts == s.reactedPosts;
  }

  // ---------------------------------------------------------------------------
  // Creating and deleting pins

  /** The new pin's fields, as `NewPostScreen` passes them. */
  datatype NewPin = NewPin(latitude: real, longitude: real, title: string, text: string, genre: string, images: seq<string>)

  /** `Math.max(0, Object.keys(genreLabels).indexOf(genre))`. */
  function CreatedGenreId(genre: string): (r: int)
    ensures 0 <= r < |GenreKeys|
    ensures IsGenreKey(genre) ==> GenreKeys[r] == genre
    ensures !IsGenreKey(genre) ==> r == 0
  {
    Max(0, KeyIndex(genre))
  }

  /** A genre key becomes the id `GENRE_MAP` gives it. */
  lemma CreatedGenreMatchesGenreMap(genre: string)
    requires IsGenreKey(genre)
    ensures CreatedGenreId(genre) == GenreMap[genre]
  {
    GenreTables();
  }

  /** `handleCreatePin`: one id from the clock for both the post and its
      place; the post is put first in both post lists and the place first in
      the places; the dialog closes and forgets its coordinates. */
  function HandleCreatePin(s: App, user: AppUser, pin: NewPin, nowMs: int, nowIso: string): (r: App)
    ensures |r.posts| == |s.posts| + 1 && r.posts[1..] == s.posts
    ensures |r.filteredPosts| == |s.filteredPosts| + 1 && r.filteredPosts[1..] == s.filteredPosts
    ensures |r.places| == |s.places| + 1 && r.places[1..] == s.places
    ensures r.posts[0] == r.filteredPosts[0]
    ensures r.posts[0] == Post(nowMs, nowMs, user.googleId, nowIso, pin.title, pin.text, pin.images, 0, Some(0),
                               CreatedGenreId(pin.genre))
    ensures r.places[0] == Place(nowMs, 1, pin.latitude, pin.longitude)
    ensures r.posts[0].placeId == r.places[0].placeId
    ensures !r.isCreateModalOpen && r.createInitialLatitude.None? && r.createInitialLongitude.None?
    ensures r.selectedPost == s.selectedPost && r.reactedPosts == s.reactedPosts && r.currentView == s.currentView
  {
    var post := Post(nowMs, nowMs, user.googleId, nowIso, pin.title, pin.text, pin.images, 0, Some(0),
                     CreatedGenreId(pin.genre));
    var place := Place(nowMs, 1, pin.latitude, pin.longitude);
    s.(posts := [post] + s.posts, places := [place] + s.places, filteredPosts := [post] + s.filteredPosts,
       isCreateModalOpen := false, createInitialLatitude := None, createInitialLongitude := None)
  }

  /** `handleDeletePin`: the post leaves both lists, whose other posts keep
      their order, and nothing is selected. */
  function HandleDeletePin(s: App, postId: int): (r: App)
    ensures forall p :: p in r.posts <==> p in s.posts && p.postId != postId
    ensures forall p :: p in r.filteredPosts <==> p in s.filteredPosts && p.postId != postId
    ensures forall p :: multiset(r.posts)[p] == if p.postId != postId then multiset(s.posts)[p] else 0
    ensures forall p :: multiset(r.filteredPosts)[p] == if p.postId != postId then multiset(s.filteredPosts)[p] else 0
    ensures IsSubsequence(r.posts, s.posts) && IsSubsequence(r.filteredPosts, s.filteredPosts)
    ensures r.selectedPost.None?
    ensures r == s.(posts := r.posts, filteredPosts := r.filteredPosts, selectedPost := None)
  {
    var keep := (p: Post) => p.postId != postId;
    forall p
      ensures (p in Filter(s.posts, keep) <==> p in s.posts && keep(p))
        && (p in Filter(s.filteredPosts, keep) <==> p in s.filteredPosts && keep(p))
    {
      FilterMember(s.posts, keep, p);
      FilterMember(s.filteredPosts, keep, p);
    }
    forall p
      ensures multiset(Filter(s.posts, keep))[p] == (if keep(p) then multiset(s.posts)[p] else 0)
        && multiset(Filter(s.filteredPosts, keep))[p] == (if keep(p) then multiset(s.filteredPosts)[p] else 0)
    {
      FilterMultiset(s.posts, keep, p);
      FilterMultiset(s.filteredPosts, keep, p);
    }
    FilterIsSubsequence(s.posts, keep);
    FilterIsSubsequence(s.filteredPosts, keep);
    s.(posts := Filter(s.posts, keep), filteredPosts := Filter(s.filteredPosts, keep), selectedPost := None)
  }

  /** A pin created and then deleted is gone again: the lists are what they
      were, provided no earlier post had the new id. */
  lemma CreateThenDelete(s: App, user: AppUser, pin: NewPin, nowMs: int, nowIso: string)
    requires forall k :: 0 <= k < |s.posts| ==> s.posts[k].postId != nowMs
    ensures HandleDeletePin(HandleCreatePin(s, user, pin, nowMs, nowIso), nowMs).posts == s.posts
  {
    var c := HandleCreatePin(s, user, pin, nowMs, nowIso);
    var keep := (p: Post) => p.postId != nowMs;
    assert c.posts == [c.posts[0]] + s.posts;
    FilterAppend([c.posts[0]], s.posts, keep);
    FilterAll(s.posts, keep);
  }

  // ---------------------------------------------------------------------------
  // Blocking

  predicate Blocked(blocks: seq<Block>, blockedId: string) {
    exists k :: 0 <= k < |blocks| && blocks[k].blockedId == blockedId
  }

  /** No user is blocked twice. */
  predicate DistinctBlocked(blocks: seq<Block>) {
    forall i, j :: 0 <= i < j < |blocks| ==> blocks[i].blockedId != blocks[j].blockedId
  }

  /** `handleBlockUser`: the user record handed to `onUpdateUser`, or `None`
      when the user is already blocked and no update is made. */
  function HandleBlockUser(user: AppUser, blockUserId: string, nowMs: int): (r: Option<AppUser>)
    ensures r.None? <==> Blocked(user.blocks.GetOr([]), blockUserId)
    ensures r.Some? ==> r.value == user.(blocks := Some(user.blocks.GetOr([]) + [Block(nowMs, user.googleId, blockUserId)]))
  {
    var current := user.blocks.GetOr([]);
    if Blocked(current, blockUserId) then None
    else Some(user.(blocks := Some(current + [Block(nowMs, user.googleId, blockUserId)])))
  }

  /** Blocking keeps the blocked ids distinct and always leaves the user
      blocked. */
  lemma BlockKeepsDistinct(user: AppUser, blockUserId: string, nowMs: int)
    requires DistinctBlocked(user.blocks.GetOr([]))
    ensures var after := HandleBlockUser(user, blockUserId, nowMs).GetOr(user);
      DistinctBlocked(after.blocks.GetOr([])) && Blocked(after.blocks.GetOr([]), blockUserId)
  {
    var current := user.blocks.GetOr([]);
    if !Blocked(current, blockUserId) {
      var next := current + [Block(nowMs, user.googleId, blockUserId)];
      assert next[|current|].blockedId == blockUserId;
      forall i, j | 0 <= i < j < |next|
        ensures next[i].blockedId != next[j].blockedId
      {
        if j == |current| {
          assert next[i] == current[i];
        }
      }
    }
  }

  // ---------------------------------------------------------------------------
  // Navigation

  /** `handleNavigate(view)`: going to the logout screen first remembers the
      current view when it is one to come back to. */
  function HandleNavigate(s: App, view: View): (r: App)
    requires view != DeleteAccount
    ensures r.currentView == view
    ensures view == Logout && Returnable(s.currentView) ==> r.previousView == s.currentView
    ensures !(view == Logout && Returnable(s.currentView)) ==> r.previousView == s.previousView
    ensures r == s.(currentView := view, previousView := r.previousView)
  {
    var previous := if view == Logout && Returnable(s.currentView) then s.currentView else s.previousView;
    s.(previousView := previous, currentView := view)
  }

  /** `handleLogoutBack`. */
  function HandleLogoutBack(s: App): (r: App)
    ensures r == s.(currentView := s.previousView)
  {
    s.(currentView := s.previousView)
  }

  /** Leaving the logout screen returns to the view it was entered from,
      and the remembered view is always one of map, my page and dashboard. */
  lemma LogoutAndBack(s: App, view: View)
    requires Returnable(s.currentView) && Returnable(s.previousView)
    requires view != DeleteAccount
    ensures HandleLogoutBack(HandleNavigate(s, Logout)).currentView == s.currentView
    ensures Returnable(HandleNavigate(s, view).previousView)
  {
  }
}
