/** The post list's search and filter panel (`src/components/Sidebar.tsx`):
    the effect that narrows the posts by keyword, genre and date, and the
    relative date shown next to each post. */
module Sidebar {
  import opened Wrappers
  import opened Tables
  import Text
  import opened FrontTypes

  const HourMs := 60 * 60 * 1000
  const DayMs := 24 * HourMs

  /** The genre selector: `'all'` or one genre key. */
  datatype GenreChoice = AllGenres | Genre(key: string)

  /** The date selector. */
  datatype DateFilter = AnyDate | Today | Week | Month

  /** What the effect reads from the browser: `toLowerCase`, `new Date(s)`
      (`None` for an invalid date, whose comparisons are all false) and the
      local calendar day `toDateString` names. */
  datatype Browser = Browser(lower: string -> string, parseDate: string -> Option<int>, localDay: int -> int)

  // ---------------------------------------------------------------------------
  // The three filters

  /** The keyword occurs, ignoring case, in the title or the text. */
  predicate KeywordMatch(b: Browser, keyword: string, post: Post) {
    Text.Contains(b.lower(post.title), b.lower(keyword)) || Text.Contains(b.lower(post.text), b.lower(keyword))
  }

  /** The genre test as written: `genreLabels[post.genreId] ===
      genreLabels[selected]`. The numeric id becomes the property name
      `String(genreId)`, which is never a genre key. */
  predicate GenreMatchAsWritten(selected: string, post: Post) {
    Lookup(GenreLabels, Text.IntToString(post.genreId)) == Lookup(GenreLabels, selected)
  }

  /** `genreIdToKey`: the component's id-to-key table. */
  const GenreIdToKey: map<int, string> :=
    map[0 := "food", 1 := "event", 2 := "scene", 3 := "store", 4 := "emergency", 5 := "other"]

  /** The genre test with the post's id first turned into its key by
      `genreIdToKey`. */
  predicate GenreMatch(selected: string, post: Post) {
    post.genreId in GenreIdToKey && Lookup(GenreLabels, GenreIdToKey[post.genreId]) == Lookup(GenreLabels, selected)
  }

  /** The date test against the current time `now`. */
  predicate DateMatch(b: Browser, filter: DateFilter, now: int, post: Post) {
    match filter
    case AnyDate => true
    case Today => b.parseDate(post.postDate).Some? && b.localDay(b.parseDate(post.postDate).value) == b.localDay(now)
    case Week => b.parseDate(post.postDate).Some? && b.parseDate(post.postDate).value >= now - 7 * DayMs
    case Month => b.parseDate(post.postDate).Some? && b.parseDate(post.postDate).value >= now - 30 * DayMs
  }

  /** A post stays in the list when it passes every active filter. */
  predicate Keeps(b: Browser, keyword: string, genre: GenreChoice, dates: DateFilter, now: int, post: Post) {
    (keyword != "" ==> KeywordMatch(b, keyword, post))
    && (genre.Genre? ==> GenreMatch(genre.key, post))
    && DateMatch(b, dates, now, post)
  }

  // ---------------------------------------------------------------------------
  // The effect

  /** The posts still listed after the keyword filter, after the genre
      filter too, and after all three. */
  function AfterKeyword(b: Browser, keyword: string): Post -> bool {
    (p: Post) => keyword != "" ==> KeywordMatch(b, keyword, p)
  }
  function AfterGenre(b: Browser, keyword: string, genre: GenreChoice): Post -> bool {
    (p: Post) => AfterKeyword(b, keyword)(p) && (genre.Genre? ==> GenreMatch(genre.key, p))
  }
  function AfterDate(b: Browser, keyword: string, genre: GenreChoice, dates: DateFilter, now: int): Post -> bool {
    (p: Post) => AfterGenre(b, keyword, genre)(p) && DateMatch(b, dates, now, p)
  }

  /** The effect body: a business user gets every post; anyone else gets the
      posts that pass the keyword, genre and date filters, in their original
      order. `filtered` is narrowed one filter at a time. */
  method FilterPosts(role: string, posts: seq<Post>, keyword: string, genre: GenreChoice, dates: DateFilter,
                     now: int, b: Browser) returns (filtered: seq<Post>)
    ensures role == "business" ==> filtered == posts
    ensures role != "business" ==> forall p :: p in filtered <==> p in posts && Keeps(b, keyword, genre, dates, now, p)
    ensures role != "business" ==> forall p :: multiset(filtered)[p] == if Keeps(b, keyword, genre, dates, now, p) then multiset(posts)[p] else 0
    ensures role != "business" ==> IsSubsequence(filtered, posts)
  {
    if role == "business" {
      return posts;
    }
    filtered := posts;
    if keyword != "" {
      filtered := Filter(filtered, (p: Post) => KeywordMatch(b, keyword, p));
    }
    KeywordStage(posts, b, keyword);
    if genre.Genre? {
      filtered := Filter(filtered, (p: Post) => GenreMatch(genre.key, p));
    }
    GenreStage(posts, b, keyword, genre);
    if dates != AnyDate {
      filtered := Filter(filtered, (p: Post) => DateMatch(b, dates, now, p));
    }
    DateStage(posts, b, keyword, genre, dates, now);
    assert filtered == Filter(posts, AfterDate(b, keyword, genre, dates, now));
    AfterDateKeeps(posts, filtered, b, keyword, genre, dates, now);
  }

  /** The three stages together keep exactly the posts `Keeps` accepts, each
      as often as it occurs, in their original order. */
  lemma AfterDateKeeps(posts: seq<Post>, f: seq<Post>, b: Browser, keyword: string, genre: GenreChoice, dates: DateFilter, now: int)
    requires f == Filter(posts, AfterDate(b, keyword, genre, dates, now))
    ensures forall p :: p in f <==> p in posts && Keeps(b, keyword, genre, dates, now, p)
    ensures forall p :: multiset(f)[p] == if Keeps(b, keyword, genre, dates, now, p) then multiset(posts)[p] else 0
    ensures IsSubsequence(f, posts)
  {
    var keep := AfterDate(b, keyword, genre, dates, now);
    forall p
      ensures (p in f <==> p in posts && Keeps(b, keyword, genre, dates, now, p))
        && multiset(f)[p] == (if Keeps(b, keyword, genre, dates, now, p) then multiset(posts)[p] else 0)
    {
      FilterMember(posts, keep, p);
      FilterMultiset(posts, keep, p);
      AfterDateIsKeeps(b, keyword, genre, dates, now, p);
    }
    FilterIsSubsequence(posts, keep);
  }

  /** The composed stage predicate is `Keeps`. */
  lemma AfterDateIsKeeps(b: Browser, keyword: string, genre: GenreChoice, dates: DateFilter, now: int, p: Post)
    ensures AfterDate(b, keyword, genre, dates, now)(p) == Keeps(b, keyword, genre, dates, now, p)
  {
    assert AfterKeyword(b, keyword)(p) == (keyword != "" ==> KeywordMatch(b, keyword, p));
    assert AfterGenre(b, keyword, genre)(p) == (AfterKeyword(b, keyword)(p) && (genre.Genre? ==> GenreMatch(genre.key, p)));
  }

  lemma KeywordStage(posts: seq<Post>, b: Browser, keyword: string)
    ensures (if keyword != "" then Filter(posts, (p: Post) => KeywordMatch(b, keyword, p)) else posts)
      == Filter(posts, AfterKeyword(b, keyword))
  {
    if keyword != "" {
      FilterFilter(posts, (p: Post) => true, (p: Post) => KeywordMatch(b, keyword, p), AfterKeyword(b, keyword));
      FilterAll(posts, (p: Post) => true);
    } else {
      FilterAll(posts, AfterKeyword(b, keyword));
    }
  }

  lemma GenreStage(posts: seq<Post>, b: Browser, keyword: string, genre: GenreChoice)
    ensures var s := Filter(posts, AfterKeyword(b, keyword));
      (if genre.Genre? then Filter(s, (p: Post) => GenreMatch(genre.key, p)) else s)
      == Filter(posts, AfterGenre(b, keyword, genre))
  {
    if genre.Genre? {
      FilterFilter(posts, AfterKeyword(b, keyword), (p: Post) => GenreMatch(genre.key, p), AfterGenre(b, keyword, genre));
    } else {
      FilterFilter(posts, AfterKeyword(b, keyword), (p: Post) => true, AfterGenre(b, keyword, genre));
      FilterAll(Filter(posts, AfterKeyword(b, keyword)), (p: Post) => true);
    }
  }

  lemma DateStage(posts: seq<Post>, b: Browser, keyword: string, genre: GenreChoice, dates: DateFilter, now: int)
    ensures var s := Filter(posts, AfterGenre(b, keyword, genre));
      (if dates != AnyDate then Filter(s, (p: Post) => DateMatch(b, dates, now, p)) else s)
      == Filter(posts, AfterDate(b, keyword, genre, dates, now))
  {
    FilterFilter(posts, AfterGenre(b, keyword, genre), (p: Post) => DateMatch(b, dates, now, p),
                 AfterDate(b, keyword, genre, dates, now));
    if dates == AnyDate {
      FilterAll(Filter(posts, AfterGenre(b, keyword, genre)), (p: Post) => DateMatch(b, dates, now, p));
    }
  }

  // ---------------------------------------------------------------------------
  // The genre test

  /** `String(n)` starts with a digit or a minus sign. */
  lemma IntToStringHead(n: int)
    ensures |Text.IntToString(n)| >= 1
    ensures Text.IsDigit(Text.IntToString(n)[0]) || Text.IntToString(n)[0] == '-'
  {
  }

  /** As written, choosing any genre empties the list: no post passes the
      genre test. */
  lemma GenreFilterRejectsAll(selected: string, post: Post)
    requires IsGenreKey(selected)
    ensures !GenreMatchAsWritten(selected, post)
  {
    var k := Text.IntToString(post.genreId);
    IntToStringHead(post.genreId);
    GenreTables();
  }

  /** As written, the genre stage of the effect leaves nothing of whatever
      list reaches it once a genre is chosen. */
  lemma GenreStageAsWrittenEmpties(s: seq<Post>, selected: string)
    requires IsGenreKey(selected)
    ensures Filter(s, (p: Post) => GenreMatchAsWritten(selected, p)) == []
  {
    var r := Filter(s, (p: Post) => GenreMatchAsWritten(selected, p));
    if r != [] {
      FilterMember(s, (p: Post) => GenreMatchAsWritten(selected, p), r[0]);
      GenreFilterRejectsAll(selected, r[0]);
    }
  }

  /** With `genreIdToKey` applied, a post passes exactly when its id names
      the chosen genre, and posts whose id has no key never pass. */
  lemma GenreMatchByKey(selected: string, post: Post)
    requires IsGenreKey(selected)
    ensures GenreMatch(selected, post) <==> post.genreId in GenreIdToKey && GenreIdToKey[post.genreId] == selected
    ensures GenreMatch(selected, post) <==> 0 <= post.genreId < |GenreKeys| && GenreKeys[post.genreId] == selected
  {
    GenreTables();
    if post.genreId in GenreIdToKey {
      assert IsGenreKey(GenreIdToKey[post.genreId]);
    }
  }

  /** The id-to-key table inverts `GENRE_MAP`. */
  lemma GenreIdToKeyInvertsGenreMap(key: string)
    requires IsGenreKey(key)
    ensures GenreMap[key] in GenreIdToKey && GenreIdToKey[GenreMap[key]] == key
  {
  }

  // ---------------------------------------------------------------------------
  // Relative dates

  /** How long ago a post was made, as `formatDate` words it. */
  datatype Age = JustNow | HoursAgo(hours: int) | DaysAgo(days: int)

  /** The whole hours between the post and now, as `Math.floor` of the
      millisecond difference over an hour; then the age shown. A post dated
      in the future is shown as just now. */
  function AgeOf(now: int, date: int): (r: Age)
    ensures r.JustNow? <==> now - date < HourMs
    ensures r.HoursAgo? ==> 1 <= r.hours < 24 && r.hours * HourMs <= now - date < (r.hours + 1) * HourMs
    ensures r.DaysAgo? ==> r.days >= 1 && r.days * DayMs <= now - date < (r.days + 1) * DayMs
  {
    var hours := (now - date) / HourMs;
    if hours < 1 then JustNow
    else if hours < 24 then HoursAgo(hours)
    else DaysAgo(hours / 24)
  }

  /** `formatDate`: the age as text. */
  function FormatDate(now: int, date: int): (r: string)
    ensures AgeOf(now, date).JustNow? ==> r == "たった今"
    ensures AgeOf(now, date).HoursAgo? ==> r == Text.IntToString(AgeOf(now, date).hours) + "時間前"
    ensures AgeOf(now, date).DaysAgo? ==> r == Text.IntToString(AgeOf(now, date).days) + "日前"
  {
    match AgeOf(now, date)
    case JustNow => "たった今"
    case HoursAgo(h) => Text.IntToString(h) + "時間前"
    case DaysAgo(d) => Text.IntToString(d) + "日前"
  }

  /** An age measured in one unit, to compare ages. */
  function AgeHours(a: Age): int {
    match a
    case JustNow => 0
    case HoursAgo(h) => h
    case DaysAgo(d) => 24 * d
  }

  /** An older post never shows a smaller age. */
  lemma AgeMonotone(now: int, d1: int, d2: int)
    requires d2 <= d1
    ensures AgeHours(AgeOf(now, d1)) <= AgeHours(AgeOf(now, d2))
  {
    var h1 := (now - d1) / HourMs;
    var h2 := (now - d2) / HourMs;
    assert h1 <= h2;
    assert h1 / 24 <= h2 / 24;
    if h1 >= 24 {
      assert 24 * (h1 / 24) <= 24 * (h2 / 24);
    } else if h2 >= 24 {
      assert 24 * (h2 / 24) >= 24;
    }
  }
}
