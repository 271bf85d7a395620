/** The tables the user backend's services work on through the shared
    database handle: users and sessions, posts with their reactions, genres
    and places, business profiles, and the block, report, contact and
    business-application tables. */
module UserDb {
  import opened Wrappers
  import Image

  /** A user; GORM soft-deletes users, so `deletedAt` hides a row from every
      query while the row keeps its unique `googleId`. */
  datatype User = User(id: string, googleId: string, email: string, role: string, registrationDate: int,
                       deletedAt: Option<int>)

  datatype Session = Session(id: string, userId: string, sessionId: string, expiresAt: int)

  datatype Post = Post(postId: int, placeId: int, genreId: int, userId: string, title: string, text: string,
                       postImage: seq<Image.Byte>, numView: int, numReaction: int, postDate: int)

  /** One row per reaction of a user to a post. */
  datatype Reaction = Reaction(userId: string, postId: int)

  datatype Genre = Genre(genreId: int, genreName: string)

  /** Coordinates are stored and copied, never computed with. */
  datatype Place = Place(placeId: int, latitude: real, longitude: real)

  datatype Business = Business(businessId: int, businessName: string, kanaBusinessName: string, zipCode: string,
                               address: string, phone: string, registDate: int, profileImage: string,
                               userId: string, placeId: int)

  /** `userId` is the blocked user and `blockerId` the one who blocks. */
  datatype UserBlock = UserBlock(userId: string, blockerId: string)

  datatype Report = Report(userId: string, postId: int, reason: string, reportDate: int, status: string)

  datatype Contact = Contact(userId: string, subject: string, text: string, status: string)

  datatype BusinessApplication = BusinessApplication(userId: string, businessName: string, address: string,
                                                     phone: string, status: string)

  /** All tables at one moment. */
  datatype Snapshot = Snapshot(users: seq<User>, sessions: seq<Session>, posts: seq<Post>, reactions: seq<Reaction>,
                           genres: seq<Genre>, places: seq<Place>, businesses: seq<Business>,
                           blocks: seq<UserBlock>, reports: seq<Report>, contacts: seq<Contact>,
                           applications: seq<BusinessApplication>)

  const Pending := "pending"

  /** The database handle every user-side service shares. */
  class Database {
    var users: seq<User>
    var sessions: seq<Session>
    var posts: seq<Post>
    var reactions: seq<Reaction>
    var genres: seq<Genre>
    var places: seq<Place>
    var businesses: seq<Business>
    var blocks: seq<UserBlock>
    var reports: seq<Report>
    var contacts: seq<Contact>
    var applications: seq<BusinessApplication>

    constructor (t: Snapshot)
      ensures State() == t
    {
      users, sessions, posts, reactions := t.users, t.sessions, t.posts, t.reactions;
      genres, places, businesses := t.genres, t.places, t.businesses;
      blocks, reports, contacts, applications := t.blocks, t.reports, t.contacts, t.applications;
    }

    /** The tables as one value. */
    function State(): (t: Snapshot)
      reads this
      ensures t.users == users && t.sessions == sessions && t.posts == posts && t.reactions == reactions
      ensures t.genres == genres && t.places == places && t.businesses == businesses
      ensures t.blocks == blocks && t.reports == reports && t.contacts == contacts && t.applications == applications
    {
      Snapshot(users, sessions, posts, reactions, genres, places, businesses, blocks, reports, contacts, applications)
    }
  }
}
