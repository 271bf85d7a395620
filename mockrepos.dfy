/** The in-memory repositories of the business backend
    (`internal/repository/mock/mock_repos.go`): maps and slices guarded by a
    mutex, which is left out. Their lookups answer `nil, nil` for an absent
    key, modelled as `None`; their updates of an absent key succeed and do
    nothing. */
module MockRepos {
  import opened Wrappers
  import BizRepos
  import BizReportRepo
  import Image

  /** The user record the mock stores: id (the Google id), gmail and role. */
  datatype User = User(id: string, gmail: string, role: string)

  /** The `domain.Post` fields the mock reads and writes. */
  datatype DomainPost = DomainPost(id: int, authorId: string, locationId: string, title: string,
                                   description: string, viewCount: int, reactionCount: int, isActive: bool)

  // ---------------------------------------------------------------------------
  // MockAuthRepo

  /** `GetOrCreateUser` on a given user map: an existing user is returned
      unchanged, whatever gmail and role are passed; otherwise the new user is
      stored and returned. */
  function GetOrCreate(users: map<string, User>, googleId: string, gmail: string, role: string): (r: (User, map<string, User>))
    ensures googleId in users ==> r == (users[googleId], users)
    ensures googleId !in users ==> r.0 == User(googleId, gmail, role) && r.1 == users[googleId := r.0]
    ensures googleId in r.1 && r.1[googleId] == r.0
  {
    if googleId in users then (users[googleId], users)
    else
      var u := User(googleId, gmail, role);
      (u, users[googleId := u])
  }

  /** A second `GetOrCreateUser` with the same Google id changes nothing and
      returns the user of the first call. */
  lemma GetOrCreateIdempotent(users: map<string, User>, googleId: string, gmail: string, role: string, gmail': string, role': string)
    ensures var first := GetOrCreate(users, googleId, gmail, role);
      GetOrCreate(first.1, googleId, gmail', role') == first
  {
  }

  class MockAuthRepo {
    var users: map<string, User>
    var businessMembers: map<string, BizRepos.Member>

    constructor ()
      ensures users == map[] && businessMembers == map[]
    {
      users := map[];
      businessMembers := map[];
    }

    /** `GetOrCreateUser`. */
    method GetOrCreateUser(googleId: string, gmail: string, role: string) returns (u: User)
      modifies this
      ensures (u, users) == GetOrCreate(old(users), googleId, gmail, role)
      ensures businessMembers == old(businessMembers)
    {
      if googleId in users {
        return users[googleId];
      }
      u := User(googleId, gmail, role);
      users := users[googleId := u];
    }

    /** `GetUserByID`. */
    function GetUserById(googleId: string): (r: Option<User>)
      reads this
      ensures r.Some? <==> googleId in users
      ensures r.Some? ==> r.value == users[googleId]
    {
      if googleId in users then Some(users[googleId]) else None
    }

    /** `GetUserByGmail`: Go visits the map in an unspecified order and
      returns the first user with that gmail it meets, so any such user may
      come back. */
    method GetUserByGmail(gmail: string) returns (r: Option<User>)
      ensures r.Some? ==> r.value in users.Values && r.value.gmail == gmail
      ensures r.None? <==> forall id :: id in users ==> users[id].gmail != gmail
    {
      var pending := users.Keys;
      while pending != {}
        invariant pending <= users.Keys
        invariant forall id :: id in users && id !in pending ==> users[id].gmail != gmail
        decreases pending
      {
        var id :| id in pending;
        if users[id].gmail == gmail {
          return Some(users[id]);
        }
        pending := pending - {id};
      }
      return None;
    }

    /** `GetBusinessMemberByUserID`. */
    function GetBusinessMemberByUserId(userId: string): (r: Option<BizRepos.Member>)
      reads this
      ensures r.Some? <==> userId in businessMembers
      ensures r.Some? ==> r.value == businessMembers[userId]
    {
      if userId in businessMembers then Some(businessMembers[userId]) else None
    }
  }

  // ---------------------------------------------------------------------------
  // MockBusinessMemberRepo

  /** An update of one member's record, applied only when the key is
      present. */
  function UpdateMember(members: map<int, BizRepos.Member>, businessId: int, f: BizRepos.Member -> BizRepos.Member): (r: map<int, BizRepos.Member>)
    ensures r.Keys == members.Keys
    ensures forall id :: id in members && id != businessId ==> r[id] == members[id]
    ensures businessId in members ==> r[businessId] == f(members[businessId])
  {
    if businessId in members then members[businessId := f(members[businessId])] else members
  }

  class MockBusinessMemberRepo {
    var members: map<int, BizRepos.Member>

    constructor ()
      ensures members == map[]
    {
      members := map[];
    }

    /** `GetByGoogleID`: any member with that user id, in map order. */
    method GetByGoogleId(googleId: string) returns (r: Option<BizRepos.Member>)
      ensures r.Some? ==> r.value in members.Values && r.value.userId == googleId
      ensures r.None? <==> forall id :: id in members ==> members[id].userId != googleId
    {
      var pending := members.Items;
      while pending != {}
        invariant pending <= members.Items
        invariant forall id :: id in members && (id, members[id]) !in pending ==> members[id].userId != googleId
        decreases pending
      {
        var item :| item in pending;
        assert item.0 in members && members[item.0] == item.1;
        if item.1.userId == googleId {
          var id := item.0;
          assert id in members && members[id].userId == googleId;
          return Some(item.1);
        }
        pending := pending - {item};
      }
      return None;
    }

    /** `UpdateName`: only the name of that member changes. */
    method UpdateName(businessId: int, name: string)
      modifies this
      ensures members == UpdateMember(old(members), businessId, (m: BizRepos.Member) => m.(businessName := name))
    {
      if businessId in members {
        members := members[businessId := members[businessId].(businessName := name)];
      }
    }

    /** `UpdateIcon`: only the image of that member changes. */
    method UpdateIcon(businessId: int, icon: seq<Image.Byte>)
      modifies this
      ensures members == UpdateMember(old(members), businessId, (m: BizRepos.Member) => m.(profileImage := Some(icon)))
    {
      if businessId in members {
        members := members[businessId := members[businessId].(profileImage := Some(icon))];
      }
    }

    /** `Anonymize`: only the name, set to "[Anonymized]". */
    method Anonymize(businessId: int)
      modifies this
      ensures members == UpdateMember(old(members), businessId, (m: BizRepos.Member) => m.(businessName := BizRepos.Anonymized))
    {
      if businessId in members {
        members := members[businessId := members[businessId].(businessName := BizRepos.Anonymized)];
      }
    }
  }

  /** The mock's anonymization is weaker than the table's: only the name is
      replaced, and kana name, address, phone and image survive. */
  lemma MockAnonymizeKeepsPersonalData(members: map<int, BizRepos.Member>, businessId: int)
    requires businessId in members
    ensures var m := UpdateMember(members, businessId, (m: BizRepos.Member) => m.(businessName := BizRepos.Anonymized))[businessId];
      m.businessName == BizRepos.Anonymized
      && m.kanaBusinessName == members[businessId].kanaBusinessName && m.address == members[businessId].address
      && m.phone == members[businessId].phone && m.profileImage == members[businessId].profileImage
  {
  }

  // ---------------------------------------------------------------------------
  // MockPostRepo

  /** The post a `Create` call stores: counters at zero and active. */
  function NewPost(id: int, req: BizRepos.CreatePostRequest): DomainPost {
    DomainPost(id, "", req.locationId, req.title, req.description, 0, 0, true)
  }

  /** `IncrementViewCount` on a given post map: one more view on that post. */
  function IncrementView(posts: map<int, DomainPost>, postId: int): (r: map<int, DomainPost>)
    ensures r.Keys == posts.Keys
    ensures forall id :: id in posts && id != postId ==> r[id] == posts[id]
    ensures postId in posts ==> r[postId] == posts[postId].(viewCount := posts[postId].viewCount + 1)
  {
    if postId in posts then posts[postId := posts[postId].(viewCount := posts[postId].viewCount + 1)] else posts
  }

  /** `Anonymize` on a given post map: title and description of that post
      become "[Anonymized]". */
  function AnonymizePost(posts: map<int, DomainPost>, postId: int): (r: map<int, DomainPost>)
    ensures r.Keys == posts.Keys
    ensures forall id :: id in posts && id != postId ==> r[id] == posts[id]
    ensures postId in posts ==> r[postId] == posts[postId].(title := BizRepos.Anonymized, description := BizRepos.Anonymized)
  {
    if postId in posts then posts[postId := posts[postId].(title := BizRepos.Anonymized, description := BizRepos.Anonymized)] else posts
  }

  /** Every post is stored under its own id, and ids are below the counter. */
  predicate PostsKeyed(posts: map<int, DomainPost>, nextId: int) {
    forall id :: id in posts ==> posts[id].id == id && id < nextId
  }

  class MockPostRepo {
    var posts: map<int, DomainPost>
    var nextId: int

    /** `NewMockPostRepo`: empty, with the counter at 1. */
    constructor ()
      ensures posts == map[] && nextId == 1
    {
      posts := map[];
      nextId := 1;
    }

    /** `ListByBusiness`: every stored post, whatever the business id, in map
      order. */
    method ListByBusiness(businessId: int) returns (r: seq<DomainPost>)
      ensures |r| == |posts|
      ensures forall id :: id in posts ==> posts[id] in r
      ensures forall p :: p in r ==> p in posts.Values
    {
      var pending := posts.Items;
      r := [];
      while pending != {}
        invariant pending <= posts.Items
        invariant |r| + |pending| == |posts.Items|
        invariant forall id :: id in posts && (id, posts[id]) !in pending ==> posts[id] in r
        invariant forall p :: p in r ==> p in posts.Values
        decreases pending
      {
        var item :| item in pending;
        assert item.0 in posts && posts[item.0] == item.1;
        r := r + [item.1];
        pending := pending - {item};
      }
      assert |posts.Items| == |posts|;
    }

    /** `GetByID`. */
    function GetById(postId: int): (r: Option<DomainPost>)
      reads this
      ensures r.Some? <==> postId in posts
      ensures r.Some? ==> r.value == posts[postId]
    {
      if postId in posts then Some(posts[postId]) else None
    }

    /** `IncrementViewCount`: one more view on that post, nothing else. */
    method IncrementViewCount(postId: int)
      modifies this
      ensures posts == IncrementView(old(posts), postId)
      ensures nextId == old(nextId)
    {
      if postId in posts {
        posts := posts[postId := posts[postId].(viewCount := posts[postId].viewCount + 1)];
      }
    }

    /** `Create`: hands out the counter as the new id and advances it. */
    method Create(businessId: int, placeId: int, genreIds: seq<int>, req: BizRepos.CreatePostRequest) returns (postId: int)
      modifies this
      ensures postId == old(nextId) && nextId == old(nextId) + 1
      ensures posts == old(posts)[postId := NewPost(postId, req)]
    {
      postId := nextId;
      nextId := nextId + 1;
      posts := posts[postId := NewPost(postId, req)];
    }

    /** `Anonymize`: title and description become "[Anonymized]". */
    method Anonymize(postId: int)
      modifies this
      ensures posts == AnonymizePost(old(posts), postId)
      ensures nextId == old(nextId)
    {
      if postId in posts {
        posts := posts[postId := posts[postId].(title := BizRepos.Anonymized, description := BizRepos.Anonymized)];
      }
    }
  }

  /** Two `Create` calls return distinct, increasing ids and keep every post
      under its own id. */
  lemma CreateIdsIncrease(posts: map<int, DomainPost>, nextId: int, req: BizRepos.CreatePostRequest)
    requires PostsKeyed(posts, nextId)
    ensures nextId !in posts
    ensures PostsKeyed(posts[nextId := NewPost(nextId, req)], nextId + 1)
  {
  }

  // ---------------------------------------------------------------------------
  // MockBlockRepo, MockReportRepo, MockContactRepo

  /** The map key of a block: `blockerID + ":" + blockedID`. */
  function BlockKey(blockerId: string, blockedId: string): string {
    blockerId + ":" + blockedId
  }

  /** The key is not injective: ids containing ':' can name the same entry. */
  lemma BlockKeysCollide()
    ensures BlockKey("a:b", "c") == BlockKey("a", "b:c")
  {
  }

  class MockBlockRepo {
    var blocks: map<string, bool>

    constructor ()
      ensures blocks == map[]
    {
      blocks := map[];
    }

    method Create(blockerId: string, blockedId: string)
      modifies this
      ensures blocks == old(blocks)[BlockKey(blockerId, blockedId) := true]
    {
      blocks := blocks[BlockKey(blockerId, blockedId) := true];
    }

    method Delete(blockerId: string, blockedId: string)
      modifies this
      ensures blocks == old(blocks) - {BlockKey(blockerId, blockedId)}
    {
      blocks := blocks - {BlockKey(blockerId, blockedId)};
    }
  }

  /** Blocking and then unblocking the same pair leaves no entry for it, and
      the other entries as they were. */
  lemma BlockThenUnblock(blocks: map<string, bool>, blockerId: string, blockedId: string)
    ensures var after := blocks[BlockKey(blockerId, blockedId) := true] - {BlockKey(blockerId, blockedId)};
      BlockKey(blockerId, blockedId) !in after && after == blocks - {BlockKey(blockerId, blockedId)}
  {
  }

  /** The mock report store keeps every payload, in order, without looking
      at it; a payload that is not a report request is `None`. */
  class MockReportRepo {
    var reports: seq<Option<BizReportRepo.CreateReportRequest>>

    constructor ()
      ensures reports == []
    {
      reports := [];
    }

    method Create(reporterId: string, payload: Option<BizReportRepo.CreateReportRequest>)
      modifies this
      ensures reports == old(reports) + [payload]
    {
      reports := reports + [payload];
    }
  }

  /** The entry `MockContactRepo.Create` appends. */
  function ContactEntry(googleId: string, subject: string, message: string): (e: map<string, string>)
    ensures e.Keys == {"googleId", "subject", "message"}
    ensures e["googleId"] == googleId && e["subject"] == subject && e["message"] == message
  {
    map["googleId" := googleId, "subject" := subject, "message" := message]
  }

  class MockContactRepo {
    var contacts: seq<map<string, string>>

    constructor ()
      ensures contacts == []
    {
      contacts := [];
    }

    method Create(googleId: string, subject: string, message: string)
      modifies this
      ensures contacts == old(contacts) + [ContactEntry(googleId, subject, message)]
    {
      contacts := contacts + [ContactEntry(googleId, subject, message)];
    }
  }
}
