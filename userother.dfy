/** The user backend's small services (`user/services/other_service.go`):
    blocking, reporting a post, contacting the operators and applying to
    become a business. Each validates its arguments and then inserts or
    deletes rows. */
module UserOtherServices {
  import opened Wrappers
  import opened Tables
  import opened UserDb

  function NotPair(userId: string, blockerId: string): UserBlock -> bool {
    (x: UserBlock) => !(x.userId == userId && x.blockerId == blockerId)
  }
  function BlocksOf(userId: string): UserBlock -> bool { (x: UserBlock) => x.userId == userId }

  /** Whether `blockerId` has a block on `userId`. */
  predicate Blocks(t: Snapshot, userId: string, blockerId: string) {
    UserBlock(userId, blockerId) in t.blocks
  }

  /** `BlockUser`: always one more row, with no check that the two users
      differ or that the pair is new. */
  function AddBlock(t: Snapshot, userId: string, blockerId: string): (r: Snapshot)
    ensures |r.blocks| == |t.blocks| + 1 && r.blocks[..|t.blocks|] == t.blocks
    ensures Blocks(r, userId, blockerId)
    ensures r == t.(blocks := r.blocks)
  {
    assert (t.blocks + [UserBlock(userId, blockerId)])[..|t.blocks|] == t.blocks;
    t.(blocks := t.blocks + [UserBlock(userId, blockerId)])
  }

  /** `UnblockUser`: every row of the pair is deleted, none of any other. */
  function RemoveBlocks(t: Snapshot, userId: string, blockerId: string): (r: Snapshot)
    ensures forall x :: x in r.blocks <==> x in t.blocks && !(x.userId == userId && x.blockerId == blockerId)
    ensures forall x :: multiset(r.blocks)[x] == if !(x.userId == userId && x.blockerId == blockerId) then multiset(t.blocks)[x] else 0
    ensures IsSubsequence(r.blocks, t.blocks)
    ensures r == t.(blocks := r.blocks)
  {
    var p := NotPair(userId, blockerId);
    forall x
      ensures (x in Filter(t.blocks, p) <==> x in t.blocks && p(x)) && multiset(Filter(t.blocks, p))[x] == (if p(x) then multiset(t.blocks)[x] else 0)
    {
      FilterMember(t.blocks, p, x);
      FilterMultiset(t.blocks, p, x);
    }
    FilterIsSubsequence(t.blocks, NotPair(userId, blockerId));
    t.(blocks := Filter(t.blocks, NotPair(userId, blockerId)))
  }

  /** `GetBlockList(u)`: the rows in which `u` is the one blocked. */
  function BlockList(t: Snapshot, userId: string): (r: seq<UserBlock>)
    ensures forall x :: x in r <==> x in t.blocks && x.userId == userId
    ensures forall x :: multiset(r)[x] == if x.userId == userId then multiset(t.blocks)[x] else 0
    ensures IsSubsequence(r, t.blocks)
  {
    var p := BlocksOf(userId);
    forall x
      ensures (x in Filter(t.blocks, p) <==> x in t.blocks && p(x)) && multiset(Filter(t.blocks, p))[x] == (if p(x) then multiset(t.blocks)[x] else 0)
    {
      FilterMember(t.blocks, p, x);
      FilterMultiset(t.blocks, p, x);
    }
    FilterIsSubsequence(t.blocks, BlocksOf(userId));
    Filter(t.blocks, BlocksOf(userId))
  }

  /** One unblock undoes any number of blocks of the pair: blocking first
      makes no difference to what an unblock leaves. */
  lemma {:induction false} UnblockUndoesBlock(t: Snapshot, userId: string, blockerId: string)
    ensures RemoveBlocks(AddBlock(t, userId, blockerId), userId, blockerId) == RemoveBlocks(t, userId, blockerId)
    ensures !Blocks(RemoveBlocks(t, userId, blockerId), userId, blockerId)
  {
    var row := UserBlock(userId, blockerId);
    FilterAppend(t.blocks, [row], NotPair(userId, blockerId));
    assert Filter([row], NotPair(userId, blockerId)) == [];
    assert t.blocks + [row] == AddBlock(t, userId, blockerId).blocks;
  }

  /** Blocking yourself is accepted: the pair (u, u) is stored. */
  lemma SelfBlockStored(t: Snapshot, u: string)
    ensures Blocks(AddBlock(t, u, u), u, u) && |AddBlock(t, u, u).blocks| == |t.blocks| + 1
  {
  }

  /** A block made by `b` lists under the blocked user, not under `b`. */
  lemma BlockListsUnderBlocked(t: Snapshot, userId: string, blockerId: string)
    ensures UserBlock(userId, blockerId) in BlockList(AddBlock(t, userId, blockerId), userId)
    ensures userId != blockerId ==> BlockList(AddBlock(t, userId, blockerId), blockerId) == BlockList(t, blockerId)
  {
    var row := UserBlock(userId, blockerId);
    FilterAppend(t.blocks, [row], BlocksOf(blockerId));
    if userId != blockerId {
      assert Filter([row], BlocksOf(blockerId)) == [];
      assert AddBlock(t, userId, blockerId).blocks == t.blocks + [row];
    }
  }

  /** `CreateReport`: a reason is required; the report is stored pending,
      dated `now`. */
  function CreateReportOutcome(t: Snapshot, userId: string, postId: int, reason: string, now: int): (r: (Outcome<string>, Snapshot))
    ensures reason == "" <==> r.0.Fail?
    ensures reason == "" ==> r == (Fail("reason is required"), t)
    ensures reason != "" ==> r.1 == t.(reports := t.reports + [Report(userId, postId, reason, now, Pending)])
  {
    if reason == "" then (Fail("reason is required"), t)
    else (Pass, t.(reports := t.reports + [Report(userId, postId, reason, now, Pending)]))
  }

  /** `CreateContact`: subject and text are both required; stored pending. */
  function CreateContactOutcome(t: Snapshot, userId: string, subject: string, text: string): (r: (Outcome<string>, Snapshot))
    ensures subject == "" || text == "" <==> r.0.Fail?
    ensures r.0.Fail? ==> r == (Fail("subject and text are required"), t)
    ensures r.0.Pass? ==> r.1 == t.(contacts := t.contacts + [Contact(userId, subject, text, Pending)])
  {
    if subject == "" || text == "" then (Fail("subject and text are required"), t)
    else (Pass, t.(contacts := t.contacts + [Contact(userId, subject, text, Pending)]))
  }

  /** `CreateBusinessApplication`: business name, address and phone are
      required, the user id is not checked; stored pending. */
  function CreateApplicationOutcome(t: Snapshot, userId: string, businessName: string, address: string, phone: string): (r: (Outcome<string>, Snapshot))
    ensures businessName == "" || address == "" || phone == "" <==> r.0.Fail?
    ensures r.0.Fail? ==> r == (Fail("businessName, address, and phone are required"), t)
    ensures r.0.Pass? ==> r.1 == t.(applications := t.applications + [BusinessApplication(userId, businessName, address, phone, Pending)])
  {
    if businessName == "" || address == "" || phone == "" then (Fail("businessName, address, and phone are required"), t)
    else (Pass, t.(applications := t.applications + [BusinessApplication(userId, businessName, address, phone, Pending)]))
  }

  /** An application with an empty user id is accepted. */
  lemma AnonymousApplicationAccepted(t: Snapshot)
    ensures CreateApplicationOutcome(t, "", "shop", "Kochi", "0880000000").0 == Pass
  {
  }

  /** Every row these services insert starts pending. */
  lemma InsertedRowsPending(t: Snapshot, userId: string, postId: int, reason: string, now: int, subject: string, text: string)
    requires reason != "" && subject != "" && text != ""
    ensures var r := CreateReportOutcome(t, userId, postId, reason, now).1;
      |r.reports| == |t.reports| + 1 && r.reports[|t.reports|].status == Pending
    ensures var c := CreateContactOutcome(t, userId, subject, text).1;
      |c.contacts| == |t.contacts| + 1 && c.contacts[|t.contacts|].status == Pending
  {
  }

  /** `BlockService`. */
  class BlockService {
    const db: Database

    constructor (db: Database)
      ensures this.db == db
    {
      this.db := db;
    }

    method BlockUser(userId: string, blockerId: string)
      modifies db
      ensures db.State() == AddBlock(old(db.State()), userId, blockerId)
    {
      db.blocks := db.blocks + [UserBlock(userId, blockerId)];
    }

    method UnblockUser(userId: string, blockerId: string)
      modifies db
      ensures db.State() == RemoveBlocks(old(db.State()), userId, blockerId)
    {
      db.blocks := Filter(db.blocks, NotPair(userId, blockerId));
    }

    method GetBlockList(userId: string) returns (blocks: seq<UserBlock>)
      ensures blocks == BlockList(db.State(), userId)
    {
      blocks := Filter(db.blocks, BlocksOf(userId));
    }
  }

  /** `ReportService`, `ContactService` and `BusinessApplicationService`:
      each validates and then inserts one row. */
  class SubmissionService {
    const db: Database

    constructor (db: Database)
      ensures this.db == db
    {
      this.db := db;
    }

    method CreateReport(userId: string, postId: int, reason: string, now: int) returns (r: Outcome<string>)
      modifies db
      ensures (r, db.State()) == CreateReportOutcome(old(db.State()), userId, postId, reason, now)
    {
      if reason == "" {
        return Fail("reason is required");
      }
      db.reports := db.reports + [Report(userId, postId, reason, now, Pending)];
      return Pass;
    }

    method CreateContact(userId: string, subject: string, text: string) returns (r: Outcome<string>)
      modifies db
      ensures (r, db.State()) == CreateContactOutcome(old(db.State()), userId, subject, text)
    {
      if subject == "" || text == "" {
        return Fail("subject and text are required");
      }
      db.contacts := db.contacts + [Contact(userId, subject, text, Pending)];
      return Pass;
    }

    method CreateBusinessApplication(userId: string, businessName: string, address: string, phone: string) returns (r: Outcome<string>)
      modifies db
      ensures (r, db.State()) == CreateApplicationOutcome(old(db.State()), userId, businessName, address, phone)
    {
      if businessName == "" || address == "" || phone == "" {
        return Fail("businessName, address, and phone are required");
      }
      db.applications := db.applications + [BusinessApplication(userId, businessName, address, phone, Pending)];
      return Pass;
    }
  }
}
