/** The map's grouping of posts into pins (`src/components/MapViewScreen.tsx`):
    the posts that share a place become one pin, whose size and count badge
    depend on how many posts it holds. The icon's HTML and the map itself
    are left out. */
module MapPins {
  import opened Wrappers
  import opened Tables
  import opened FrontTypes

  /** The posts at place `placeId`, in input order. */
  function AtPlace(posts: seq<Post>, placeId: int): seq<Post> {
    Filter(posts, (p: Post) => p.placeId == placeId)
  }

  /** `groupedPosts`: the `reduce` that pushes each post, in turn, onto the
      list kept under its `placeId`. */
  function GroupPosts(posts: seq<Post>): (r: map<int, seq<Post>>)
    decreases |posts|
  {
    if posts == [] then map[]
    else
      var init := GroupPosts(posts[..|posts| - 1]);
      var last := posts[|posts| - 1];
      var key := last.placeId;
      init[key := (if key in init then init[key] else []) + [last]]
  }

  /** The grouping partitions the posts by place: there is a group exactly
      for each place some post has, and each group is the posts at that
      place, in input order. */
  lemma {:induction false} GroupsArePlaces(posts: seq<Post>, placeId: int)
    ensures placeId in GroupPosts(posts) <==> exists k :: 0 <= k < |posts| && posts[k].placeId == placeId
    ensures placeId in GroupPosts(posts) ==> GroupPosts(posts)[placeId] == AtPlace(posts, placeId)
    decreases |posts|
  {
    if posts != [] {
      var init := posts[..|posts| - 1];
      var last := posts[|posts| - 1];
      GroupsArePlaces(init, placeId);
      assert posts == init + [last];
      FilterAppend(init, [last], (p: Post) => p.placeId == placeId);
      assert Filter([last], (p: Post) => p.placeId == placeId) == (if last.placeId == placeId then [last] else []);
      if placeId !in GroupPosts(init) && last.placeId == placeId {
        AtPlaceEmpty(init, placeId);
      }
      if exists k :: 0 <= k < |posts| && posts[k].placeId == placeId {
        var k :| 0 <= k < |posts| && posts[k].placeId == placeId;
        if k < |init| {
          assert init[k].placeId == placeId;
        }
      }
    }
  }

  /** No post at a place: the filter keeps nothing. */
  lemma AtPlaceEmpty(posts: seq<Post>, placeId: int)
    requires forall k :: 0 <= k < |posts| ==> posts[k].placeId != placeId
    ensures AtPlace(posts, placeId) == []
  {
    var p := (x: Post) => x.placeId == placeId;
    if AtPlace(posts, placeId) != [] {
      var x := AtPlace(posts, placeId)[0];
      FilterMember(posts, p, x);
    }
  }

  /** Every post of a group is at that place and was in the input, and the
      group keeps the input's order; no group is empty. */
  lemma GroupMembers(posts: seq<Post>, placeId: int, x: Post)
    requires placeId in GroupPosts(posts)
    ensures x in GroupPosts(posts)[placeId] <==> x in posts && x.placeId == placeId
    ensures IsSubsequence(GroupPosts(posts)[placeId], posts)
    ensures |GroupPosts(posts)[placeId]| >= 1
  {
    GroupsArePlaces(posts, placeId);
    var p := (y: Post) => y.placeId == placeId;
    FilterMember(posts, p, x);
    FilterIsSubsequence(posts, p);
    var k :| 0 <= k < |posts| && posts[k].placeId == placeId;
    FilterMember(posts, p, posts[k]);
  }

  /** `getPinSizeClass(count)`. */
  function PinSizeClass(count: int): (r: string)
    ensures count >= 50 ==> r == "w-12 h-12"
    ensures 1 < count < 50 ==> r == "w-11 h-11"
    ensures count <= 1 ==> r == "w-10 h-10"
  {
    if count >= 50 then "w-12 h-12" else if count > 1 then "w-11 h-11" else "w-10 h-10"
  }

  /** The three sizes from small to large. */
  function SizeRank(sizeClass: string): (r: int)
    ensures 0 <= r <= 2
  {
    if sizeClass == "w-12 h-12" then 2 else if sizeClass == "w-11 h-11" then 1 else 0
  }

  /** More posts never make a pin smaller. */
  lemma PinSizeMonotone(c1: int, c2: int)
    requires c1 <= c2
    ensures SizeRank(PinSizeClass(c1)) <= SizeRank(PinSizeClass(c2))
  {
  }

  /** The count badge on a pin: shown only for more than one post. */
  function Badge(group: seq<Post>): (r: Option<int>)
    ensures r.Some? <==> |group| > 1
    ensures r.Some? ==> r.value == |group|
  {
    if |group| > 1 then Some(|group|) else None
  }

  /** A filter keeps something exactly when some element passes. */
  lemma {:induction false} KeepsOne<T>(s: seq<T>, p: T -> bool)
    ensures |Filter(s, p)| >= 1 <==> exists i :: 0 <= i < |s| && p(s[i])
    decreases |s|
  {
    if s != [] {
      KeepsOne(s[1..], p);
      if exists i :: 0 <= i < |s| && p(s[i]) {
        var i :| 0 <= i < |s| && p(s[i]);
        if i > 0 {
          assert p(s[1..][i - 1]);
        }
      }
      if exists i :: 0 <= i < |s[1..]| && p(s[1..][i]) {
        var i :| 0 <= i < |s[1..]| && p(s[1..][i]);
        assert p(s[i + 1]);
      }
    }
  }

  /** A filter keeps two elements exactly when two positions pass. */
  lemma {:induction false} KeepsTwo<T>(s: seq<T>, p: T -> bool)
    ensures |Filter(s, p)| >= 2 <==> exists i, j :: 0 <= i < j < |s| && p(s[i]) && p(s[j])
    decreases |s|
  {
    if s != [] {
      var t := s[1..];
      KeepsTwo(t, p);
      KeepsOne(t, p);
      if exists i, j :: 0 <= i < j < |s| && p(s[i]) && p(s[j]) {
        var i, j :| 0 <= i < j < |s| && p(s[i]) && p(s[j]);
        assert p(t[j - 1]);
        if i > 0 {
          assert p(t[i - 1]);
        }
      }
      if p(s[0]) && exists j :: 0 <= j < |t| && p(t[j]) {
        var j :| 0 <= j < |t| && p(t[j]);
        assert p(s[0]) && p(s[j + 1]);
      }
      if exists i, j :: 0 <= i < j < |t| && p(t[i]) && p(t[j]) {
        var i, j :| 0 <= i < j < |t| && p(t[i]) && p(t[j]);
        assert p(s[i + 1]) && p(s[j + 1]);
      }
    }
  }

  /** A pin carries a badge exactly when it is drawn larger than the
      smallest size, that is, when several posts share its place. */
  lemma BadgeIffShared(posts: seq<Post>, placeId: int)
    requires placeId in GroupPosts(posts)
    ensures Badge(GroupPosts(posts)[placeId]).Some? <==> SizeRank(PinSizeClass(|GroupPosts(posts)[placeId]|)) > 0
    ensures Badge(GroupPosts(posts)[placeId]).Some? <==>
      exists i, j :: 0 <= i < j < |posts| && posts[i].placeId == placeId && posts[j].placeId == placeId
  {
    GroupsArePlaces(posts, placeId);
    KeepsTwo(posts, (y: Post) => y.placeId == placeId);
  }
}
