/** The user backend's business-profile service
    (`user/services/business_service.go`): dashboard statistics with
    per-day buckets, profile reads and partial updates, and the icon upload
    that stores the image as a data URL. Times are seconds since the Unix
    epoch, in UTC. */
module UserBusinessService {
  import opened Wrappers
  import opened Tables
  import opened UserDb
  import Text
  import Image

  const Day := 24 * 60 * 60
  const ErrNoProfile := "business profile not found"

  function OfUser(userId: string): Post -> bool { (p: Post) => p.userId == userId }
  function BusinessOf(userId: string): Business -> bool { (b: Business) => b.userId == userId }
  function Reactions(p: Post): int { p.numReaction }
  function Views(p: Post): int { p.numView }

  // ---------------------------------------------------------------------------
  // Statistics

  /** The exact sum of `f` over `s`. */
  function SumOf(s: seq<Post>, f: Post -> int): int
    decreases |s|
  {
    if s == [] then 0 else SumOf(s[..|s| - 1], f) + f(s[|s| - 1])
  }

  lemma SumOfSnoc(s: seq<Post>, x: Post, f: Post -> int)
    ensures SumOf(s + [x], f) == SumOf(s, f) + f(x)
  {
    assert (s + [x])[..|s|] == s;
  }

  /** Adding to an `int32` accumulator wraps once at the end as well as at
      every step. */
  lemma Int32Add(a: int, b: int)
    ensures Text.Int32(Text.Int32(a) + b) == Text.Int32(a + b)
  {
    var k := (Text.Int32(a) - a) / Text.TWO_32;
    assert Text.Int32(a) + b == (a + b) + k * Text.TWO_32;
  }

  /** `time.Time.Truncate(24 * time.Hour)`: the UTC midnight at or before `x`. */
  function DayStart(x: int): (r: int)
    ensures r <= x < r + Day && r % Day == 0
  {
    x - x % Day
  }

  /** The bucket test, both bounds strict: `After(dayStart) && Before(dayEnd)`. */
  function InDay(start: int): Post -> bool { (p: Post) => start < p.postDate < start + Day }

  datatype DayStat = DayStat(date: string, reactions: int, views: int)

  datatype BusinessStats = BusinessStats(totalPosts: int, totalReactions: int, totalViews: int,
                                         averageReactions: int, weeklyData: seq<DayStat>)

  /** The midnight of the day `i` days before `now`. */
  function BucketStart(now: int, i: int): int { DayStart(now - i * Day) }

  /** The day `i` days before `now`: its `"01/02"` label (rendered by
      `format`) and the `int32` sums over the posts strictly inside it. */
  function Bucket(posts: seq<Post>, now: int, i: int, format: int -> string): DayStat {
    var inside := Filter(posts, InDay(BucketStart(now, i)));
    DayStat(format(now - i * Day), Text.Int32(SumOf(inside, Reactions)), Text.Int32(SumOf(inside, Views)))
  }

  /** The seven buckets, oldest first. */
  function Week(posts: seq<Post>, now: int, format: int -> string): (r: seq<DayStat>)
    ensures |r| == 7 && forall j :: 0 <= j < 7 ==> r[j] == Bucket(posts, now, 6 - j, format)
  {
    seq(7, j requires 0 <= j < 7 => Bucket(posts, now, 6 - j, format))
  }

  /** The statistics over one user's posts: `int32` totals, the truncating
      average, and seven buckets. */
  function StatsOver(posts: seq<Post>, now: int, format: int -> string): (r: BusinessStats)
    ensures r.totalPosts == |posts| && |r.weeklyData| == 7
    ensures r.totalReactions == Text.Int32(SumOf(posts, Reactions)) && r.totalViews == Text.Int32(SumOf(posts, Views))
    ensures r.averageReactions == (if posts == [] then 0 else Text.QuoTrunc(r.totalReactions, |posts|))
    ensures forall j :: 0 <= j < 7 ==> r.weeklyData[j] == Bucket(posts, now, 6 - j, format)
  {
    var total := Text.Int32(SumOf(posts, Reactions));
    BusinessStats(|posts|, total, Text.Int32(SumOf(posts, Views)), if |posts| > 0 then Text.QuoTrunc(total, |posts|) else 0,
                  Week(posts, now, format))
  }

  /** The average is the wrapped reaction total divided by the post count,
      truncated toward zero, and 0 with no posts. */
  lemma AverageTruncates(posts: seq<Post>, now: int, format: int -> string)
    ensures var r := StatsOver(posts, now, format);
      (posts == [] ==> r.averageReactions == 0)
      && (posts != [] && r.totalReactions >= 0 ==> 0 <= r.totalReactions - r.averageReactions * |posts| < |posts|)
      && (posts != [] && r.totalReactions < 0 ==> -|posts| < r.totalReactions - r.averageReactions * |posts| <= 0)
  {
  }

  /** Seven buckets that agree one by one are the week. */
  lemma WeekIs(posts: seq<Post>, now: int, format: int -> string, weekly: seq<DayStat>)
    requires |weekly| == 7 && forall j :: 0 <= j < 7 ==> weekly[j] == Bucket(posts, now, 6 - j, format)
    ensures Week(posts, now, format) == weekly
  {
  }

  /** `GetBusinessStats`: "userID is required", then the statistics over
      the rows whose `userId` is the caller. */
  function BusinessStatsOf(t: Snapshot, userId: string, now: int, format: int -> string): (r: Result<BusinessStats, string>)
    ensures r.Err? <==> userId == ""
    ensures r.Err? ==> r.error == "userID is required"
    ensures r.Ok? ==> r.value == StatsOver(Filter(t.posts, OfUser(userId)), now, format)
  {
    if userId == "" then Err("userID is required") else Ok(StatsOver(Filter(t.posts, OfUser(userId)), now, format))
  }

  /** While the sums fit in `int32` the totals are exact. */
  lemma TotalsExact(posts: seq<Post>, now: int, format: int -> string)
    requires Text.InInt32(SumOf(posts, Reactions)) && Text.InInt32(SumOf(posts, Views))
    ensures StatsOver(posts, now, format).totalReactions == SumOf(posts, Reactions)
    ensures StatsOver(posts, now, format).totalViews == SumOf(posts, Views)
  {
  }

  /** The reaction total wraps around: two posts with 2^31 - 1 and 1
      reactions give -2^31. */
  lemma TotalWraps(a: Post, b: Post, now: int, format: int -> string)
    requires a.numReaction == Text.TWO_31 - 1 && b.numReaction == 1
    ensures StatsOver([a, b], now, format).totalReactions == -Text.TWO_31
  {
    assert [a, b][..1] == [a];
    assert [a][..0] == [];
    assert SumOf([a], Reactions) == Text.TWO_31 - 1;
    assert SumOf([a, b], Reactions) == Text.TWO_31;
  }

  /** The buckets are seven consecutive days, oldest first. */
  lemma BucketsConsecutive(now: int, j: int)
    requires 0 <= j < 6
    ensures BucketStart(now, 6 - (j + 1)) == BucketStart(now, 6 - j) + Day
  {
    var x := now - (6 - j) * Day;
    assert now - (6 - (j + 1)) * Day == x + Day;
    assert (x + Day) % Day == x % Day;
  }

  lemma BucketStartShift(now: int, i: int)
    ensures BucketStart(now, i) == DayStart(now) - i * Day
  {
    var x := now - i * Day;
    assert (x + i * Day) % Day == x % Day;
  }

  /** A post stamped exactly at one of the seven midnights is counted in no
      bucket: each day excludes its own start, and the day before excludes
      its end. */
  lemma MidnightCountsNowhere(p: Post, now: int, i: int, k: int)
    requires 0 <= i <= 6 && 0 <= k <= 6
    requires p.postDate == BucketStart(now, i)
    ensures !InDay(BucketStart(now, k))(p)
  {
    BucketStartShift(now, i);
    BucketStartShift(now, k);
  }

  /** No post is counted in two buckets. */
  lemma BucketsDisjoint(p: Post, now: int, i: int, k: int)
    requires 0 <= i <= 6 && 0 <= k <= 6 && i != k
    ensures !(InDay(BucketStart(now, i))(p) && InDay(BucketStart(now, k))(p))
  {
    BucketStartShift(now, i);
    BucketStartShift(now, k);
  }

  /** The inner loop of the weekly statistics: both `int32` sums over the
      posts inside one day. */
  method SumDay(posts: seq<Post>, start: int) returns (reactions: int, views: int)
    ensures reactions == Text.Int32(SumOf(Filter(posts, InDay(start)), Reactions))
    ensures views == Text.Int32(SumOf(Filter(posts, InDay(start)), Views))
  {
    reactions, views := 0, 0;
    var k := 0;
    while k < |posts|
      invariant 0 <= k <= |posts|
      invariant reactions == Text.Int32(SumOf(Filter(posts[..k], InDay(start)), Reactions))
      invariant views == Text.Int32(SumOf(Filter(posts[..k], InDay(start)), Views))
    {
      DayStep(posts, k, start, reactions, views);
      if InDay(start)(posts[k]) {
        reactions := Text.Int32(reactions + posts[k].numReaction);
        views := Text.Int32(views + posts[k].numView);
      }
      k := k + 1;
    }
    assert posts[..k] == posts;
  }

  /** One more post adds to the day's sums exactly when it lies inside the
      day. */
  lemma DayStep(posts: seq<Post>, k: nat, start: int, reactions: int, views: int)
    requires k < |posts|
    requires reactions == Text.Int32(SumOf(Filter(posts[..k], InDay(start)), Reactions))
    requires views == Text.Int32(SumOf(Filter(posts[..k], InDay(start)), Views))
    ensures var inside := Filter(posts[..k + 1], InDay(start));
      (if InDay(start)(posts[k]) then Text.Int32(reactions + posts[k].numReaction) else reactions)
        == Text.Int32(SumOf(inside, Reactions))
      && (if InDay(start)(posts[k]) then Text.Int32(views + posts[k].numView) else views)
        == Text.Int32(SumOf(inside, Views))
  {
    var before := Filter(posts[..k], InDay(start));
    assert posts[..k + 1] == posts[..k] + [posts[k]];
    FilterAppend(posts[..k], [posts[k]], InDay(start));
    if InDay(start)(posts[k]) {
      assert Filter(posts[..k + 1], InDay(start)) == before + [posts[k]];
      WrappedStep(before, posts[k], Reactions, reactions);
      WrappedStep(before, posts[k], Views, views);
    } else {
      assert Filter(posts[..k + 1], InDay(start)) == before;
    }
  }

  /** One wrapped accumulation step. */
  lemma WrappedStep(s: seq<Post>, x: Post, f: Post -> int, acc: int)
    requires acc == Text.Int32(SumOf(s, f))
    ensures Text.Int32(acc + f(x)) == Text.Int32(SumOf(s + [x], f))
  {
    SumOfSnoc(s, x, f);
    Int32Add(SumOf(s, f), f(x));
  }

  /** The totals loop: both `int32` sums over all the posts. */
  method SumTotals(posts: seq<Post>) returns (reactions: int, views: int)
    ensures reactions == Text.Int32(SumOf(posts, Reactions))
    ensures views == Text.Int32(SumOf(posts, Views))
  {
    reactions, views := 0, 0;
    var k := 0;
    while k < |posts|
      invariant 0 <= k <= |posts|
      invariant reactions == Text.Int32(SumOf(posts[..k], Reactions))
      invariant views == Text.Int32(SumOf(posts[..k], Views))
    {
      assert posts[..k + 1] == posts[..k] + [posts[k]];
      SumOfSnoc(posts[..k], posts[k], Reactions);
      SumOfSnoc(posts[..k], posts[k], Views);
      Int32Add(SumOf(posts[..k], Reactions), posts[k].numReaction);
      Int32Add(SumOf(posts[..k], Views), posts[k].numView);
      reactions := Text.Int32(reactions + posts[k].numReaction);
      views := Text.Int32(views + posts[k].numView);
      k := k + 1;
    }
    assert posts[..k] == posts;
  }

  // ---------------------------------------------------------------------------
  // Profile

  /** `GetBusinessProfile`: the caller's first business row, every field
      copied. */
  function GetBusinessProfile(t: Snapshot, userId: string): (r: Result<Business, string>)
    ensures userId == "" ==> r == Err("userID is required")
    ensures userId != "" && !Any(t.businesses, BusinessOf(userId)) ==> r == Err(ErrNoProfile)
    ensures r.Ok? ==> r.value in t.businesses && r.value.userId == userId
    ensures userId != "" && Any(t.businesses, BusinessOf(userId)) ==> r == Ok(FindFirst(t.businesses, BusinessOf(userId)).value)
  {
    if userId == "" then Err("userID is required")
    else match FindFirst(t.businesses, BusinessOf(userId))
      case None => Err(ErrNoProfile)
      case Some(b) => Ok(b)
  }

  /** The profile edit: each non-empty argument replaces its field. */
  function Edit(b: Business, name: string, kana: string, zipCode: string, address: string, phone: string): (r: Business)
    ensures r.businessName == (if name != "" then name else b.businessName)
    ensures r.kanaBusinessName == (if kana != "" then kana else b.kanaBusinessName)
    ensures r.zipCode == (if zipCode != "" then zipCode else b.zipCode)
    ensures r.address == (if address != "" then address else b.address)
    ensures r.phone == (if phone != "" then phone else b.phone)
    ensures r.businessId == b.businessId && r.registDate == b.registDate && r.profileImage == b.profileImage
    ensures r.userId == b.userId && r.placeId == b.placeId
  {
    var b1 := if name != "" then b.(businessName := name) else b;
    var b2 := if kana != "" then b1.(kanaBusinessName := kana) else b1;
    var b3 := if zipCode != "" then b2.(zipCode := zipCode) else b2;
    var b4 := if address != "" then b3.(address := address) else b3;
    if phone != "" then b4.(phone := phone) else b4
  }

  /** An edit with nothing supplied changes nothing, and an edit is
      idempotent. */
  lemma EditIdempotent(b: Business, name: string, kana: string, zipCode: string, address: string, phone: string)
    ensures Edit(b, "", "", "", "", "") == b
    ensures Edit(Edit(b, name, kana, zipCode, address, phone), name, kana, zipCode, address, phone)
         == Edit(b, name, kana, zipCode, address, phone)
  {
  }

  /** Loads the caller's row, applies `edit` and saves it back in place. */
  function SaveEdited(t: Snapshot, userId: string, edit: Business -> Business): (r: (Result<Business, string>, Snapshot))
    ensures !Any(t.businesses, BusinessOf(userId)) ==> r == (Err(ErrNoProfile), t)
    ensures Any(t.businesses, BusinessOf(userId)) ==> var k := FindIndex(t.businesses, BusinessOf(userId)).value;
      r == (Ok(edit(t.businesses[k])), t.(businesses := t.businesses[k := edit(t.businesses[k])]))
  {
    match FindIndex(t.businesses, BusinessOf(userId))
    case None => (Err(ErrNoProfile), t)
    case Some(k) =>
      var b := edit(t.businesses[k]);
      (Ok(b), t.(businesses := t.businesses[k := b]))
  }

  /** `UpdateBusinessProfile`. */
  function UpdateBusinessProfile(t: Snapshot, userId: string, name: string, kana: string, zipCode: string,
                                 address: string, phone: string): (r: (Result<Business, string>, Snapshot))
    ensures userId == "" ==> r == (Err("userID is required"), t)
    ensures userId != "" ==> r == SaveEdited(t, userId, b => Edit(b, name, kana, zipCode, address, phone))
  {
    if userId == "" then (Err("userID is required"), t)
    else SaveEdited(t, userId, b => Edit(b, name, kana, zipCode, address, phone))
  }

  /** The profile update touches one row of one table, and in that row only
      the fields given non-empty values. */
  lemma ProfileUpdateIsLocal(t: Snapshot, userId: string, name: string, kana: string, zipCode: string,
                             address: string, phone: string)
    requires userId != "" && Any(t.businesses, BusinessOf(userId))
    ensures var r := UpdateBusinessProfile(t, userId, name, kana, zipCode, address, phone);
      var k := FindIndex(t.businesses, BusinessOf(userId)).value;
      r.1 == t.(businesses := r.1.businesses) && |r.1.businesses| == |t.businesses|
      && (forall j :: 0 <= j < |t.businesses| && j != k ==> r.1.businesses[j] == t.businesses[j])
      && r.0 == Ok(r.1.businesses[k]) && r.0.value == Edit(t.businesses[k], name, kana, zipCode, address, phone)
  {
  }

  /** `UpdateBusinessName`: both arguments required. */
  function UpdateBusinessName(t: Snapshot, userId: string, name: string): (r: (Outcome<string>, Snapshot))
    ensures userId == "" || name == "" ==> r == (Fail("userID and name are required"), t)
    ensures userId != "" && name != "" && !Any(t.businesses, BusinessOf(userId)) ==> r == (Fail(ErrNoProfile), t)
    ensures userId != "" && name != "" && Any(t.businesses, BusinessOf(userId)) ==> r.0 == Pass
    ensures r.0.Pass? ==> r.1 == SaveEdited(t, userId, b => Edit(b, name, "", "", "", "")).1
  {
    if userId == "" || name == "" then (Fail("userID and name are required"), t)
    else match SaveEdited(t, userId, (b: Business) => b.(businessName := name))
      case (Err(e), t1) => (Fail(e), t1)
      case (Ok(_), t1) => (Pass, t1)
  }

  /** `UpdateBusinessAddress`: userID and address required; the zip code
      changes only when one is given. */
  function UpdateBusinessAddress(t: Snapshot, userId: string, address: string, zipCode: string): (r: (Outcome<string>, Snapshot))
    ensures userId == "" || address == "" ==> r == (Fail("userID and address are required"), t)
    ensures userId != "" && address != "" && !Any(t.businesses, BusinessOf(userId)) ==> r == (Fail(ErrNoProfile), t)
    ensures userId != "" && address != "" && Any(t.businesses, BusinessOf(userId)) ==> r.0 == Pass
    ensures r.0.Pass? ==> r.1 == SaveEdited(t, userId, b => Edit(b, "", "", zipCode, address, "")).1
  {
    if userId == "" || address == "" then (Fail("userID and address are required"), t)
    else match SaveEdited(t, userId, (b: Business) => if zipCode != "" then b.(address := address, zipCode := zipCode) else b.(address := address))
      case (Err(e), t1) => (Fail(e), t1)
      case (Ok(_), t1) => (Pass, t1)
  }

  /** `UpdateBusinessPhone`: both arguments required. */
  function UpdateBusinessPhone(t: Snapshot, userId: string, phone: string): (r: (Outcome<string>, Snapshot))
    ensures userId == "" || phone == "" ==> r == (Fail("userID and phone are required"), t)
    ensures userId != "" && phone != "" && !Any(t.businesses, BusinessOf(userId)) ==> r == (Fail(ErrNoProfile), t)
    ensures userId != "" && phone != "" && Any(t.businesses, BusinessOf(userId)) ==> r.0 == Pass
    ensures r.0.Pass? ==> r.1 == SaveEdited(t, userId, b => Edit(b, "", "", "", "", phone)).1
  {
    if userId == "" || phone == "" then (Fail("userID and phone are required"), t)
    else match SaveEdited(t, userId, (b: Business) => b.(phone := phone))
      case (Err(e), t1) => (Fail(e), t1)
      case (Ok(_), t1) => (Pass, t1)
  }

  // ---------------------------------------------------------------------------
  // Icon

  /** The data URL of an image: the sniffed MIME type and the base64 text,
      the shape of section 3 of RFC 2397. */
  function DataUrl(data: seq<Image.Byte>, sniff: seq<Image.Byte> -> string, base64: seq<Image.Byte> -> string): (r: string)
    ensures Text.HasPrefix(r, "data:")
    ensures |r| >= |base64(data)| && r[|r| - |base64(data)|..] == base64(data)
  {
    "data:" + sniff(data) + ";base64," + base64(data)
  }

  /** `UploadBusinessIcon`: a failed read, then a missing profile, abort;
      otherwise the data URL is stored as the profile image and returned.
      `data` is `None` when reading the upload fails. */
  function UploadBusinessIcon(t: Snapshot, userId: string, data: Option<seq<Image.Byte>>,
                              sniff: seq<Image.Byte> -> string, base64: seq<Image.Byte> -> string): (r: (Result<string, string>, Snapshot))
    ensures data.None? ==> r == (Err("failed to read image data"), t)
    ensures data.Some? && !Any(t.businesses, BusinessOf(userId)) ==> r == (Err(ErrNoProfile), t)
    ensures data.Some? && Any(t.businesses, BusinessOf(userId)) ==> r.0.Ok?
    ensures r.0.Ok? ==> (r.0.value == DataUrl(data.value, sniff, base64)
      && r.1 == SaveEdited(t, userId, (b: Business) => b.(profileImage := DataUrl(data.value, sniff, base64))).1)
  {
    match data
    case None => (Err("failed to read image data"), t)
    case Some(bytes) =>
      var url := DataUrl(bytes, sniff, base64);
      match SaveEdited(t, userId, (b: Business) => b.(profileImage := url))
      case (Err(e), t1) => (Err(e), t1)
      case (Ok(_), t1) => (Ok(url), t1)
  }

  /** One more day appended to the buckets built so far. */
  lemma WeekStep(posts: seq<Post>, now: int, format: int -> string, weekly: seq<DayStat>, i: int,
                 reactions: int, views: int)
    requires 0 <= i <= 6 && |weekly| == 6 - i
    requires forall j :: 0 <= j < |weekly| ==> weekly[j] == Bucket(posts, now, 6 - j, format)
    requires reactions == Text.Int32(SumOf(Filter(posts, InDay(BucketStart(now, i))), Reactions))
    requires views == Text.Int32(SumOf(Filter(posts, InDay(BucketStart(now, i))), Views))
    ensures var next := weekly + [DayStat(format(now - i * Day), reactions, views)];
      forall j :: 0 <= j < |next| ==> next[j] == Bucket(posts, now, 6 - j, format)
  {
    var next := weekly + [DayStat(format(now - i * Day), reactions, views)];
    assert next[|weekly|] == Bucket(posts, now, i, format);
    forall j | 0 <= j < |next|
      ensures next[j] == Bucket(posts, now, 6 - j, format)
    {
      if j < |weekly| {
        assert next[j] == weekly[j];
      }
    }
  }

  /** The service over the shared database handle. */
  class BusinessService {
    const db: Database

    constructor (db: Database)
      ensures this.db == db
    {
      this.db := db;
    }

    /** `GetBusinessStats`: one pass for the totals, then one pass per day
        from six days ago to today. */
    method GetBusinessStats(userId: string, now: int, format: int -> string) returns (r: Result<BusinessStats, string>)
      ensures r == BusinessStatsOf(db.State(), userId, now, format)
    {
      if userId == "" {
        return Err("userID is required");
      }
      var posts := Filter(db.posts, OfUser(userId));
      var totalReactions, totalViews := SumTotals(posts);
      var average := 0;
      if |posts| > 0 {
        average := Text.QuoTrunc(totalReactions, |posts|);
      }
      var weekly: seq<DayStat> := [];
      var i := 6;
      while i >= 0
        invariant -1 <= i <= 6 && |weekly| == 6 - i
        invariant forall j :: 0 <= j < |weekly| ==> weekly[j] == Bucket(posts, now, 6 - j, format)
      {
        var dayReactions, dayViews := SumDay(posts, BucketStart(now, i));
        WeekStep(posts, now, format, weekly, i, dayReactions, dayViews);
        weekly := weekly + [DayStat(format(now - i * Day), dayReactions, dayViews)];
        i := i - 1;
      }
      WeekIs(posts, now, format, weekly);
      assert StatsOver(posts, now, format) == BusinessStats(|posts|, totalReactions, totalViews, average, weekly);
      r := Ok(BusinessStats(|posts|, totalReactions, totalViews, average, weekly));
    }
  }
}
