/** The relational rows of the backend (WebSite/BackEnd/app/models/models.py) and
    the store that holds one table per field. Timestamps are abstract clock
    readings; surrogate `id` columns appear only where a service reads them. */
module Models {
  import opened Common
  import Tally

  datatype User = User(email: string, passwordHash: string, role: string, status: string)

  /** Sessions and email codes are kept in insertion order, which is also
      `created_at` order, so "newest" means "last". */
  datatype Session = Session(userId: Id, refreshTokenHash: string, expiresAt: Time, revokedAt: Option<Time>)

  datatype EmailCode = EmailCode(email: string, purpose: string, code: string, expiresAt: Time, usedAt: Option<Time>)

  datatype Profile = Profile(
    displayName: string, credibilityScore: int, helpfulnessScore: int, accuracyScore: int)

  datatype FileRecord = FileRecord(ownerId: Id, purpose: string, url: string)

  datatype VerificationRequest = VerificationRequest(
    userId: Id, status: string, docsFileId: Id, reviewerId: Option<Id>)

  datatype Category = Category(name: string, slug: string, sortOrder: int, status: string)

  datatype Tag = Tag(name: string, slug: string)

  /** `accuracyAvg` is the exact rational mean (the column is a float). */
  datatype Post = Post(
    authorId: Id, categoryId: Option<Id>, originalLanguage: string, status: string,
    helpfulCount: int, accuracyAvg: real, accuracyCount: int,
    createdAt: Time, publishedAt: Option<Time>)

  datatype PostTranslation = PostTranslation(
    postId: Id, language: string, title: string, content: string,
    translatedBy: string, model: Option<string>, status: string)

  datatype Reply = Reply(
    postId: Id, authorId: Id, content: string, helpfulCount: int, status: string, createdAt: Time)

  datatype ReplyTranslation = ReplyTranslation(
    replyId: Id, language: string, content: string, translatedBy: string, status: string)

  datatype Vote = Vote(userId: Id, targetType: string, targetId: Id)

  datatype Feedback = Feedback(userId: Id, postId: Id, rating: int, note: Option<string>)

  datatype Report = Report(
    reporterId: Id, targetType: string, targetId: Id, reason: string, evidence: Option<string>,
    originalStatus: Option<string>, status: string, resolvedAt: Option<Time>)

  /** Human decisions and admin audit records (`log_action` writes the same table). */
  datatype ModerationAction = ModerationAction(
    moderatorId: Id, targetType: string, targetId: Id, action: string, reason: Option<string>)

  /** One automated screening result. */
  datatype ModerationLog = ModerationLog(
    targetType: string, targetId: Id, userId: Id, riskScore: int,
    labels: seq<string>, decision: string, reason: string)

  datatype Appeal = Appeal(
    userId: Id, targetType: string, targetId: Id, reason: string,
    status: string, reviewerId: Option<Id>, reviewedAt: Option<Time>)

  /** `type` is a reserved word here, so the column is called `kind`. */
  datatype Notification = Notification(
    id: Id, userId: Id, kind: string, dedupeKey: Option<string>,
    payload: Option<Payload>, readAt: Option<Time>)

  // Column defaults.

  function NewPost(authorId: Id, createdAt: Time): Post {
    Post(authorId, None, "en", "draft", 0, 0.0, 0, createdAt, None)
  }

  function NewReply(postId: Id, authorId: Id, content: string, createdAt: Time): Reply {
    Reply(postId, authorId, content, 0, "visible", createdAt)
  }

  function NewProfile(displayName: string): Profile {
    Profile(displayName, 0, 0, 0)
  }

  function NewUser(email: string, passwordHash: string): User {
    User(email, passwordHash, "user", "active")
  }

  /** The post marked published; `published_at` is stamped only the first time. */
  function Publish(p: Post, now: Time): (r: Post)
    ensures r.status == "published" && r.publishedAt.Some?
    ensures p.publishedAt.Some? ==> r.publishedAt == p.publishedAt
    ensures r == p.(status := r.status, publishedAt := r.publishedAt)
  {
    p.(status := "published", publishedAt := if p.publishedAt.None? then Some(now) else p.publishedAt)
  }

  /** Publishing again, at any later time, changes nothing. */
  lemma PublishOnce(p: Post, t1: Time, t2: Time)
    ensures Publish(Publish(p, t1), t2) == Publish(p, t1)
  {
  }

  // Unique constraints, as predicates on the table contents.

  predicate TranslationsUnique(ts: seq<PostTranslation>) {
    forall i, j :: 0 <= i < j < |ts| ==>
      !(ts[i].postId == ts[j].postId && ts[i].language == ts[j].language)
  }

  predicate ReplyTranslationsUnique(ts: seq<ReplyTranslation>) {
    forall i, j :: 0 <= i < j < |ts| ==>
      !(ts[i].replyId == ts[j].replyId && ts[i].language == ts[j].language)
  }

  /** (user, target type, target) is unique, and a vote row holds nothing
      else, so no row occurs twice. */
  predicate VotesUnique(vs: seq<Vote>) {
    Tally.Distinct(vs)
  }

  predicate FeedbackUnique(fs: seq<Feedback>) {
    forall i, j :: 0 <= i < j < |fs| ==>
      !(fs[i].userId == fs[j].userId && fs[i].postId == fs[j].postId)
  }

  /** The request schema admits ratings 1 to 5 only. */
  predicate RatingsInRange(fs: seq<Feedback>) {
    forall i :: 0 <= i < |fs| ==> 1 <= fs[i].rating <= 5
  }

  predicate EmailsUnique(users: map<Id, User>) {
    forall a, b :: a in users && b in users && users[a].email == users[b].email ==> a == b
  }

  predicate CategorySlugsUnique(cs: map<Id, Category>) {
    forall a, b :: a in cs && b in cs && cs[a].slug == cs[b].slug ==> a == b
  }

  predicate TagSlugsUnique(ts: map<Id, Tag>) {
    forall a, b :: a in ts && b in ts && ts[a].slug == ts[b].slug ==> a == b
  }

  predicate NotificationIdsUnique(ns: seq<Notification>) {
    forall i, j :: 0 <= i < j < |ns| ==> ns[i].id != ns[j].id
  }

  /** No dedupe key appears twice for one user and type. The table has no such
      constraint: the notification service keeps it. */
  predicate DedupeUnique(ns: seq<Notification>) {
    forall i, j :: 0 <= i < j < |ns| && ns[i].dedupeKey.Some? && ns[i].dedupeKey.value != "" ==>
      !(ns[i].userId == ns[j].userId && ns[i].kind == ns[j].kind && ns[i].dedupeKey == ns[j].dedupeKey)
  }

  /** The invariants the notification service keeps on its table. */
  predicate NotificationsConsistent(ns: seq<Notification>) {
    NotificationIdsUnique(ns) && DedupeUnique(ns)
  }

  /** The database session: one field per table. Each service method states
      the unique constraints of the tables it writes as a pre- and a
      postcondition; a table it does not write keeps them by its frame. */
  class Db {
    var users: map<Id, User>
    var profiles: map<Id, Profile>          // keyed by user id
    var sessions: seq<Session>
    var emailCodes: seq<EmailCode>
    var aiUsage: map<(Id, Time), int>       // (user, day) -> count
    var files: map<Id, FileRecord>
    var verifications: map<Id, VerificationRequest>
    var categories: map<Id, Category>
    var tags: map<Id, Tag>
    var postTags: set<(Id, Id)>             // (post, tag)
    var posts: map<Id, Post>
    var translations: seq<PostTranslation>
    var replies: map<Id, Reply>
    var replyTranslations: seq<ReplyTranslation>
    var votes: seq<Vote>
    var feedback: seq<Feedback>
    var reports: map<Id, Report>
    var actions: seq<ModerationAction>
    var logs: seq<ModerationLog>
    var appeals: map<Id, Appeal>
    var notifications: seq<Notification>

    constructor ()
      ensures users == map[] && profiles == map[] && sessions == [] && emailCodes == []
      ensures aiUsage == map[] && files == map[] && verifications == map[]
      ensures categories == map[] && tags == map[] && postTags == {}
      ensures posts == map[] && translations == [] && replies == map[] && replyTranslations == []
      ensures votes == [] && feedback == [] && reports == map[] && actions == []
      ensures logs == [] && appeals == map[] && notifications == []
    {
      users, profiles, sessions, emailCodes := map[], map[], [], [];
      aiUsage, files, verifications := map[], map[], map[];
      categories, tags, postTags := map[], map[], {};
      posts, translations, replies, replyTranslations := map[], [], map[], [];
      votes, feedback, reports, actions := [], [], map[], [];
      logs, appeals, notifications := [], map[], [];
    }
  }

  /** The translation row of `postId` in `language`, if any (the first; there is
      at most one under `TranslationsUnique`). */
  function FindTranslation(ts: seq<PostTranslation>, postId: Id, language: string): (r: Option<nat>)
    ensures r.Some? ==> r.value < |ts| && ts[r.value].postId == postId && ts[r.value].language == language
    ensures r.Some? ==> forall i :: 0 <= i < r.value ==> !(ts[i].postId == postId && ts[i].language == language)
    ensures r.None? ==> forall i :: 0 <= i < |ts| ==> !(ts[i].postId == postId && ts[i].language == language)
  {
    if ts == [] then None
    else if ts[0].postId == postId && ts[0].language == language then Some(0)
    else match FindTranslation(ts[1..], postId, language)
      case None => None
      case Some(i) => Some(i + 1)
  }

  /** The title of the post's translation in `language`, or null when there is
      none (a `scalar_one_or_none` on the title column). */
  function TitleIn(ts: seq<PostTranslation>, postId: Id, language: string): Json {
    var i := FindTranslation(ts, postId, language);
    if i.Some? then JStr(ts[i.value].title) else JNull
  }

  /** The user's display name, or null when they have no profile. */
  function DisplayName(profiles: map<Id, Profile>, userId: Id): Json {
    if userId in profiles then JStr(profiles[userId].displayName) else JNull
  }
}
