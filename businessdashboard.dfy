/** The business dashboard's figures (`src/components/BusinessDashboard.tsx`):
    totals and the average over the business's posts, the five most reacted
    posts, and the genre key of a numeric genre id. */
module BusinessDashboardView {
  import opened Wrappers
  import opened Tables
  import opened FrontTypes
  import Sidebar

  /** A left fold of `f` over the posts, as `reduce((sum, p) => sum + f(p), 0)`. */
  function SumBy(posts: seq<Post>, f: Post -> int): int {
    if posts == [] then 0 else SumBy(posts[..|posts| - 1], f) + f(posts[|posts| - 1])
  }

  function Reactions(p: Post): int { p.numReaction }

  /** `post.numView || 0`: a missing view count counts as none. */
  function ViewsOrZero(p: Post): int { p.numView.GetOr(0) }

  /** The sum over two lists is the sum over each. */
  lemma {:induction false} SumByAppend(a: seq<Post>, b: seq<Post>, f: Post -> int)
    ensures SumBy(a + b, f) == SumBy(a, f) + SumBy(b, f)
    decreases |b|
  {
    if b != [] {
      assert (a + b)[..|a + b| - 1] == a + b[..|b| - 1];
      SumByAppend(a, b[..|b| - 1], f);
    } else {
      assert a + b == a;
    }
  }

  /** `totalReactions`. */
  function TotalReactions(posts: seq<Post>): int { SumBy(posts, Reactions) }

  /** `totalViews`. */
  function TotalViews(posts: seq<Post>): int { SumBy(posts, ViewsOrZero) }

  /** Each post adds its reactions to the first total, and its views to the
      second, or nothing when it has no view count; over two lists the
      totals add up. */
  lemma TotalsAdd(a: seq<Post>, b: seq<Post>, p: Post)
    ensures TotalReactions(a + [p]) == TotalReactions(a) + p.numReaction
    ensures TotalViews(a + [p]) == TotalViews(a) + (if p.numView.Some? then p.numView.value else 0)
    ensures TotalReactions(a + b) == TotalReactions(a) + TotalReactions(b)
    ensures TotalViews(a + b) == TotalViews(a) + TotalViews(b)
  {
    assert (a + [p])[..|a|] == a;
    SumByAppend(a, b, Reactions);
    SumByAppend(a, b, ViewsOrZero);
  }

  /** Views never go negative when no post has a negative count. */
  lemma {:induction false} TotalViewsNonNegative(posts: seq<Post>)
    requires forall k :: 0 <= k < |posts| ==> posts[k].numView.GetOr(0) >= 0
    ensures TotalViews(posts) >= 0
    decreases |posts|
  {
    if posts != [] {
      var init := posts[..|posts| - 1];
      TotalViewsNonNegative(init);
      assert ViewsOrZero(posts[|posts| - 1]) >= 0;
    }
  }

  /** Reals: from `a * c <= b` and `b < d * c` with `c > 0`, bounds on `b / c`. */
  lemma QuotientBetween(a: real, b: real, c: real, d: real)
    requires c > 0.0 && a * c <= b < d * c
    ensures a <= b / c < d
  {
    assert (b / c) * c == b;
  }

  /** `Math.round(total / count)`: the integer nearest to the quotient,
      halves rounded up. */
  function RoundQuotient(total: int, count: int): (r: int)
    requires count > 0
    ensures r as real - 0.5 <= total as real / count as real < r as real + 0.5
  {
    var r := (2 * total + count) / (2 * count);
    var m := (2 * total + count) % (2 * count);
    assert 2 * total + count == r * (2 * count) + m && 0 <= m < 2 * count;
    assert (r as real - 0.5) * count as real == (r * (2 * count) - count) as real / 2.0;
    assert total as real < (r as real + 0.5) * count as real;
    QuotientBetween(r as real - 0.5, total as real, count as real, r as real + 0.5);
    r
  }

  /** `avgReactions`: the rounded mean, or 0 with no posts. */
  function AverageReactions(posts: seq<Post>): (r: int)
    ensures posts == [] ==> r == 0
    ensures posts != [] ==> r as real - 0.5 <= TotalReactions(posts) as real / |posts| as real < r as real + 0.5
  {
    if |posts| > 0 then RoundQuotient(TotalReactions(posts), |posts|) else 0
  }

  // ---------------------------------------------------------------------------
  // Top posts

  function ReactionKey(p: Post): (int, int) { (p.numReaction, 0) }

  /** `topPosts`: a copy sorted by reactions, most first, cut to five. It
      holds posts of the input only, as many as there are up to five, most
      reacted first, and no post left out has more reactions than any post
      kept. */
  function TopPosts(posts: seq<Post>): (r: seq<Post>)
    ensures |r| == Min(5, |posts|)
    ensures multiset(r) <= multiset(posts)
    ensures forall i, j :: 0 <= i < j < |r| ==> r[i].numReaction >= r[j].numReaction
    ensures forall p, k :: p in multiset(posts) - multiset(r) && 0 <= k < |r| ==> p.numReaction <= r[k].numReaction
  {
    var s := SortDesc(posts, ReactionKey);
    SortDescCorrect(posts, ReactionKey);
    var n := Min(5, |posts|);
    PrefixOrdered(s, n);
    PrefixDominates(s, n);
    s[..n]
  }

  /** A prefix of the sorted posts is ordered by reactions and is part of
      the whole. */
  lemma PrefixOrdered(s: seq<Post>, n: nat)
    requires SortedDesc(s, ReactionKey) && n <= |s|
    ensures multiset(s[..n]) <= multiset(s)
    ensures forall i, j :: 0 <= i < j < n ==> s[..n][i].numReaction >= s[..n][j].numReaction
  {
    assert s == s[..n] + s[n..];
    forall i, j | 0 <= i < j < n
      ensures s[..n][i].numReaction >= s[..n][j].numReaction
    {
      assert KeyGe(ReactionKey(s[i]), ReactionKey(s[j]));
    }
  }

  /** No post after the prefix has more reactions than a post in it. */
  lemma PrefixDominates(s: seq<Post>, n: nat)
    requires SortedDesc(s, ReactionKey) && n <= |s|
    ensures forall p, k :: p in multiset(s) - multiset(s[..n]) && 0 <= k < n ==> p.numReaction <= s[..n][k].numReaction
  {
    assert s == s[..n] + s[n..];
    assert multiset(s) - multiset(s[..n]) == multiset(s[n..]);
    forall p, k | p in multiset(s) - multiset(s[..n]) && 0 <= k < n
      ensures p.numReaction <= s[..n][k].numReaction
    {
      assert p in s[n..];
      var j :| 0 <= j < |s[n..]| && s[n..][j] == p;
      assert KeyGe(ReactionKey(s[k]), ReactionKey(s[n + j]));
    }
  }

  // ---------------------------------------------------------------------------
  // Genre keys

  /** The first of `keys` whose `GENRE_MAP` id is `genreId`. */
  function FindKey(keys: seq<string>, genreId: int): (r: Option<string>)
    requires forall k :: 0 <= k < |keys| ==> keys[k] in GenreMap
    ensures r.Some? <==> exists k :: 0 <= k < |keys| && GenreMap[keys[k]] == genreId
    ensures r.Some? ==> r.value in keys && GenreMap[r.value] == genreId
  {
    if keys == [] then None
    else if GenreMap[keys[0]] == genreId then Some(keys[0])
    else
      var rest := FindKey(keys[1..], genreId);
      assert forall k :: 1 <= k < |keys| ==> keys[k] == keys[1..][k - 1];
      rest
  }

  /** `genreIdToKey`: the genre key `GENRE_MAP` gives this id, or "other"
      when none does. */
  function GenreIdToKey(genreId: int): (r: string)
    ensures IsGenreKey(r)
    ensures (exists k :: k in GenreMap && GenreMap[k] == genreId) ==> GenreMap[r] == genreId
    ensures !(exists k :: k in GenreMap && GenreMap[k] == genreId) ==> r == "other"
  {
    GenreTables();
    FoundIffMapped(genreId);
    FindKey(GenreKeys, genreId).GetOr("other")
  }

  /** Searching the keys in order finds an id exactly when some genre has
      it. */
  lemma FoundIffMapped(genreId: int)
    ensures (forall k :: 0 <= k < |GenreKeys| ==> GenreKeys[k] in GenreMap)
    ensures FindKey(GenreKeys, genreId).Some? <==> exists k :: k in GenreMap && GenreMap[k] == genreId
  {
    GenreTables();
    if exists k :: k in GenreMap && GenreMap[k] == genreId {
      var k :| k in GenreMap && GenreMap[k] == genreId;
      assert IsGenreKey(k);
      var i :| 0 <= i < |GenreKeys| && GenreKeys[i] == k;
      assert GenreMap[GenreKeys[i]] == genreId;
    }
  }

  /** Every genre maps back to itself, and any id outside 0..5 becomes
      "other". */
  lemma GenreIdToKeyInvertsGenreMap(key: string, genreId: int)
    requires IsGenreKey(key)
    ensures GenreIdToKey(GenreMap[key]) == key
    ensures !(0 <= genreId < 6) ==> GenreIdToKey(genreId) == "other"
  {
    GenreTables();
    var r := GenreIdToKey(GenreMap[key]);
    assert GenreMap[r] == GenreMap[key];
  }

  /** The dashboard's lookup agrees with the sidebar's table wherever that
      table has an entry. */
  lemma AgreesWithSidebar(genreId: int)
    requires genreId in Sidebar.GenreIdToKey
    ensures GenreIdToKey(genreId) == Sidebar.GenreIdToKey[genreId]
  {
    var key := Sidebar.GenreIdToKey[genreId];
    GenreTables();
    assert GenreMap[key] == genreId;
    GenreIdToKeyInvertsGenreMap(key, genreId);
  }
}
