/** Helpful votes and accuracy feedback
    (WebSite/BackEnd/app/services/interaction_service.py). Every counter the
    service writes is recomputed from the row sets, never incremented, so it
    equals its count over the rows once the call returns. The invariants
    `HelpfulConsistent` and `AccuracyConsistent` (every counter equals its
    count over the rows) are preserved by every call of this service: each
    method concludes them from their truth before the call, and does not
    demand them. They are not preserved by the whole system:
    `PostService.DeletePost`, `ReplyService.DeleteReply` and
    `ReplyService.AdminDeleteReply` delete a row without its votes or ratings,
    so an author's stored score can disagree with the rows until the next
    recount for that author. */
module InteractionService {
  import opened Common
  import opened Models
  import opened Strings
  import Tally
  import NotificationService

  // The row weights behind each count.

  /** 1 for a vote on the given target. */
  function On(kind: string, target: Id): Vote -> int {
    (v: Vote) => if v.targetType == kind && v.targetId == target then 1 else 0
  }

  /** The number of votes on a target: `helpful_count`. */
  function VoteCount(vs: seq<Vote>, kind: string, target: Id): int {
    Tally.SumOf(vs, On(kind, target))
  }

  /** The author of each post. */
  function PostAuthors(posts: map<Id, Post>): map<Id, Id> {
    map p | p in posts :: posts[p].authorId
  }

  /** The author of each reply. */
  function ReplyAuthors(replies: map<Id, Reply>): map<Id, Id> {
    map r | r in replies :: replies[r].authorId
  }

  /** Whether the vote is on a post or a reply the user wrote. */
  predicate Wrote(postAuthors: map<Id, Id>, replyAuthors: map<Id, Id>, v: Vote, user: Id) {
    || (v.targetType == "post" && v.targetId in postAuthors && postAuthors[v.targetId] == user)
    || (v.targetType == "reply" && v.targetId in replyAuthors && replyAuthors[v.targetId] == user)
  }

  function For(postAuthors: map<Id, Id>, replyAuthors: map<Id, Id>, user: Id): Vote -> int {
    (v: Vote) => if Wrote(postAuthors, replyAuthors, v, user) then 1 else 0
  }

  /** The votes on everything the user wrote: `helpfulness_score`. */
  function Helpfulness(vs: seq<Vote>, postAuthors: map<Id, Id>, replyAuthors: map<Id, Id>, user: Id): int {
    Tally.SumOf(vs, For(postAuthors, replyAuthors, user))
  }

  function RatingOn(postId: Id): Feedback -> int {
    (f: Feedback) => if f.postId == postId then f.rating else 0
  }

  function RatedOn(postId: Id): Feedback -> int {
    (f: Feedback) => if f.postId == postId then 1 else 0
  }

  function RatingBy(postAuthors: map<Id, Id>, user: Id): Feedback -> int {
    (f: Feedback) => if f.postId in postAuthors && postAuthors[f.postId] == user then f.rating else 0
  }

  function RatedBy(postAuthors: map<Id, Id>, user: Id): Feedback -> int {
    (f: Feedback) => if f.postId in postAuthors && postAuthors[f.postId] == user then 1 else 0
  }

  /** The number of ratings of a post: `accuracy_count`. */
  function RatingCount(fs: seq<Feedback>, postId: Id): int {
    Tally.SumOf(fs, RatedOn(postId))
  }

  function RatingSum(fs: seq<Feedback>, postId: Id): int {
    Tally.SumOf(fs, RatingOn(postId))
  }

  /** `AVG`, or 0 over no rows (`avg or 0`), as an exact rational. */
  function Mean(sum: int, count: int): (m: real)
    ensures count > 0 ==> m * count as real == sum as real
    ensures count <= 0 ==> m == 0.0
  {
    if count <= 0 then 0.0 else sum as real / count as real
  }

  /** The mean times the count gives back the sum. */
  lemma MeanTimesCount(sum: int, count: int)
    ensures count > 0 ==> Mean(sum, count) * count as real == sum as real
    ensures count <= 0 ==> Mean(sum, count) == 0.0
  {
  }

  /** Python's `round` of the quotient `n / d` to an integer: the nearest
      integer, and the even one of two equally near. */
  function RoundHalfEven(n: int, d: int): (r: int)
    requires d > 0
    ensures -d <= 2 * (n - r * d) <= d
    ensures 2 * (n - r * d) == d || 2 * (n - r * d) == -d ==> r % 2 == 0
  {
    var q := n / d;
    var m := n % d;
    assert n == q * d + m && 0 <= m < d;
    if 2 * m < d then q
    else if 2 * m > d then q + 1
    else if q % 2 == 0 then q
    else q + 1
  }

  lemma MulAtLeast(k: int, d: int)
    requires k >= 1 && d > 0
    ensures k * d >= d
  {
    assert (k - 1) * d >= 0;
  }

  lemma MulIsOne(k: int, d: int)
    requires d > 0 && k * d == d
    ensures k == 1
  {
  }

  /** The two conditions of `RoundHalfEven` single out its result. */
  lemma RoundHalfEvenUnique(n: int, d: int, r: int)
    requires d > 0
    requires -d <= 2 * (n - r * d) <= d
    requires 2 * (n - r * d) == d || 2 * (n - r * d) == -d ==> r % 2 == 0
    ensures r == RoundHalfEven(n, d)
  {
    var e := RoundHalfEven(n, d);
    assert (n - r * d) - (n - e * d) == (e - r) * d;
    assert (n - e * d) - (n - r * d) == (r - e) * d;
    if r < e {
      MulAtLeast(e - r, d);
      MulIsOne(e - r, d);
      assert false;
    } else if e < r {
      MulAtLeast(r - e, d);
      MulIsOne(r - e, d);
      assert false;
    }
  }

  /** The mean rating over everything the user wrote, rounded: `accuracy_score`. */
  function AccuracyScore(fs: seq<Feedback>, postAuthors: map<Id, Id>, user: Id): int {
    var c := Tally.SumOf(fs, RatedBy(postAuthors, user));
    if c <= 0 then 0 else RoundHalfEven(Tally.SumOf(fs, RatingBy(postAuthors, user)), c)
  }

  // The invariants.

  ghost predicate PostCountsOk(vs: seq<Vote>, posts: map<Id, Post>) {
    forall p {:trigger VoteCount(vs, "post", p)} :: p in posts ==> posts[p].helpfulCount == VoteCount(vs, "post", p)
  }

  ghost predicate ReplyCountsOk(vs: seq<Vote>, replies: map<Id, Reply>) {
    forall r {:trigger VoteCount(vs, "reply", r)} :: r in replies ==> replies[r].helpfulCount == VoteCount(vs, "reply", r)
  }

  ghost predicate ScoresOk(vs: seq<Vote>, postAuthors: map<Id, Id>, replyAuthors: map<Id, Id>,
                           profiles: map<Id, Profile>)
  {
    forall u {:trigger Helpfulness(vs, postAuthors, replyAuthors, u)} :: u in profiles ==> profiles[u].helpfulnessScore == Helpfulness(vs, postAuthors, replyAuthors, u)
  }

  /** Every helpful counter equals the number of votes it counts. */
  ghost predicate HelpfulConsistent(vs: seq<Vote>, posts: map<Id, Post>, replies: map<Id, Reply>,
                                    profiles: map<Id, Profile>)
  {
    && PostCountsOk(vs, posts) && ReplyCountsOk(vs, replies)
    && ScoresOk(vs, PostAuthors(posts), ReplyAuthors(replies), profiles)
  }

  ghost predicate PostAccuracyOk(fs: seq<Feedback>, posts: map<Id, Post>) {
    forall p {:trigger RatingCount(fs, p)} :: p in posts ==>
      && posts[p].accuracyCount == RatingCount(fs, p)
      && posts[p].accuracyAvg == Mean(RatingSum(fs, p), RatingCount(fs, p))
  }

  ghost predicate AccuracyScoresOk(fs: seq<Feedback>, postAuthors: map<Id, Id>, profiles: map<Id, Profile>) {
    forall u {:trigger AccuracyScore(fs, postAuthors, u)} :: u in profiles ==> profiles[u].accuracyScore == AccuracyScore(fs, postAuthors, u)
  }

  /** Every accuracy field equals the mean and count of the ratings it covers. */
  ghost predicate AccuracyConsistent(fs: seq<Feedback>, posts: map<Id, Post>, profiles: map<Id, Profile>) {
    PostAccuracyOk(fs, posts) && AccuracyScoresOk(fs, PostAuthors(posts), profiles)
  }

  // How one vote changes the counts.

  /** The vote table `vs'` holds `delta` more votes equal to `v` than `vs`: only
      the count of `v`'s target and the score of its author move, by `delta`. */
  ghost predicate VoteDelta(vs: seq<Vote>, vs': seq<Vote>, v: Vote, pa: map<Id, Id>, ra: map<Id, Id>, delta: int) {
    && (forall kind, t :: (VoteCount(vs', kind, t) ==
          VoteCount(vs, kind, t) + (if v.targetType == kind && v.targetId == t then delta else 0)))
    && (forall u :: (Helpfulness(vs', pa, ra, u) ==
          Helpfulness(vs, pa, ra, u) + (if Wrote(pa, ra, v, u) then delta else 0)))
  }

  /** Inserting a vote adds one to the count of its target and to the score of
      that target's author, and changes no other count. */
  lemma VoteAdded(vs: seq<Vote>, v: Vote, pa: map<Id, Id>, ra: map<Id, Id>)
    ensures VoteDelta(vs, vs + [v], v, pa, ra, 1)
  {
    forall kind, t ensures VoteCount(vs + [v], kind, t) ==
      VoteCount(vs, kind, t) + (if v.targetType == kind && v.targetId == t then 1 else 0)
    {
      Tally.SumOfAppend(vs, v, On(kind, t));
    }
    forall u ensures Helpfulness(vs + [v], pa, ra, u) ==
      Helpfulness(vs, pa, ra, u) + (if Wrote(pa, ra, v, u) then 1 else 0)
    {
      Tally.SumOfAppend(vs, v, For(pa, ra, u));
    }
  }

  /** Deleting a vote that exists takes one off the same counts; deleting one
      that does not exist changes nothing. */
  lemma VoteRemoved(vs: seq<Vote>, v: Vote, pa: map<Id, Id>, ra: map<Id, Id>)
    requires VotesUnique(vs)
    ensures VotesUnique(Tally.Without(vs, v))
    ensures VoteDelta(vs, Tally.Without(vs, v), v, pa, ra, if v in vs then -1 else 0)
  {
    Tally.WithoutKeepsDistinct(vs, v);
    var d := if v in vs then -1 else 0;
    forall kind, t ensures VoteCount(Tally.Without(vs, v), kind, t) ==
      VoteCount(vs, kind, t) + (if v.targetType == kind && v.targetId == t then d else 0)
    {
      Tally.SumOfWithout(vs, v, On(kind, t));
    }
    forall u ensures Helpfulness(Tally.Without(vs, v), pa, ra, u) ==
      Helpfulness(vs, pa, ra, u) + (if Wrote(pa, ra, v, u) then d else 0)
    {
      Tally.SumOfWithout(vs, v, For(pa, ra, u));
    }
  }

  /** After a vote change, moving the score of the author of the vote's
      target by `delta` makes every score right again. */
  lemma ScoresAfter(vs: seq<Vote>, vs': seq<Vote>, v: Vote, pa: map<Id, Id>, ra: map<Id, Id>, delta: int,
                    profiles: map<Id, Profile>, author: Id)
    requires ScoresOk(vs, pa, ra, profiles) && VoteDelta(vs, vs', v, pa, ra, delta) && Wrote(pa, ra, v, author)
    ensures ScoresOk(vs', pa, ra, BumpHelpfulness(profiles, author, delta))
    ensures SetHelpfulness(profiles, author, Helpfulness(vs', pa, ra, author))
         == BumpHelpfulness(profiles, author, delta)
  {
    var profiles' := BumpHelpfulness(profiles, author, delta);
    forall u | u in profiles' ensures profiles'[u].helpfulnessScore == Helpfulness(vs', pa, ra, u) {
      assert Wrote(pa, ra, v, u) <==> u == author;
    }
  }

  /** A vote table that is a post vote away from `vs` leaves every reply count
      right. */
  lemma ReplyCountsAfter(vs: seq<Vote>, vs': seq<Vote>, v: Vote, pa: map<Id, Id>, ra: map<Id, Id>, delta: int,
                         replies: map<Id, Reply>)
    requires ReplyCountsOk(vs, replies) && VoteDelta(vs, vs', v, pa, ra, delta) && v.targetType == "post"
    ensures ReplyCountsOk(vs', replies)
  {
    forall r | r in replies ensures replies[r].helpfulCount == VoteCount(vs', "reply", r) {
      assert VoteCount(vs', "reply", r) == VoteCount(vs, "reply", r);
    }
  }

  lemma PostCountsAfter(vs: seq<Vote>, vs': seq<Vote>, v: Vote, pa: map<Id, Id>, ra: map<Id, Id>, delta: int,
                        posts: map<Id, Post>)
    requires PostCountsOk(vs, posts) && VoteDelta(vs, vs', v, pa, ra, delta) && v.targetType == "reply"
    ensures PostCountsOk(vs', posts)
  {
    forall p | p in posts ensures posts[p].helpfulCount == VoteCount(vs', "post", p) {
      assert VoteCount(vs', "post", p) == VoteCount(vs, "post", p);
    }
  }

  /** A change to the posts that keeps every post's author and accuracy fields,
      and to the profiles that keeps every accuracy score, keeps the accuracy
      invariant. */
  lemma AccuracyFrame(fs: seq<Feedback>, posts: map<Id, Post>, profiles: map<Id, Profile>,
                      posts': map<Id, Post>, profiles': map<Id, Profile>)
    requires AccuracyConsistent(fs, posts, profiles)
    requires posts'.Keys == posts.Keys && profiles'.Keys == profiles.Keys
    requires forall p :: p in posts ==>
      && posts'[p].authorId == posts[p].authorId
      && posts'[p].accuracyCount == posts[p].accuracyCount && posts'[p].accuracyAvg == posts[p].accuracyAvg
    requires forall u :: u in profiles ==> profiles'[u].accuracyScore == profiles[u].accuracyScore
    ensures AccuracyConsistent(fs, posts', profiles')
  {
    assert PostAuthors(posts') == PostAuthors(posts);
  }

  /** The same for the helpful counters. */
  lemma HelpfulFrame(vs: seq<Vote>, posts: map<Id, Post>, replies: map<Id, Reply>, profiles: map<Id, Profile>,
                     posts': map<Id, Post>, profiles': map<Id, Profile>)
    requires HelpfulConsistent(vs, posts, replies, profiles)
    requires posts'.Keys == posts.Keys && profiles'.Keys == profiles.Keys
    requires forall p :: p in posts ==>
      posts'[p].authorId == posts[p].authorId && posts'[p].helpfulCount == posts[p].helpfulCount
    requires forall u :: u in profiles ==> profiles'[u].helpfulnessScore == profiles[u].helpfulnessScore
    ensures HelpfulConsistent(vs, posts', replies, profiles')
  {
    assert PostAuthors(posts') == PostAuthors(posts);
  }

  /** A vote change on a post or reply that no longer exists moves no counter
      and no score. */
  lemma VoteOnMissing(vs0: seq<Vote>, vs: seq<Vote>, v: Vote, delta: int, posts: map<Id, Post>,
                      replies: map<Id, Reply>, profiles: map<Id, Profile>)
    requires v.targetType == "post" ==> v.targetId !in posts
    requires v.targetType == "reply" ==> v.targetId !in replies
    requires HelpfulConsistent(vs0, posts, replies, profiles)
    requires VoteDelta(vs0, vs, v, PostAuthors(posts), ReplyAuthors(replies), delta)
    ensures HelpfulConsistent(vs, posts, replies, profiles)
  {
    var pa, ra := PostAuthors(posts), ReplyAuthors(replies);
    forall u | u in profiles ensures profiles[u].helpfulnessScore == Helpfulness(vs, pa, ra, u) {
      assert !Wrote(pa, ra, v, u);
    }
    forall p | p in posts ensures posts[p].helpfulCount == VoteCount(vs, "post", p) {
      assert VoteCount(vs, "post", p) == VoteCount(vs0, "post", p);
    }
    forall r | r in replies ensures replies[r].helpfulCount == VoteCount(vs, "reply", r) {
      assert VoteCount(vs, "reply", r) == VoteCount(vs0, "reply", r);
    }
  }

  // How one rating changes the accuracy fields.

  /** The rating table `fs'` differs from `fs` only in ratings of `postId`:
      every other post's count and sum, and the score of everyone but that
      post's author, are unchanged. */
  ghost predicate RatingsMoved(fs: seq<Feedback>, fs': seq<Feedback>, postId: Id, pa: map<Id, Id>) {
    && (forall p :: p != postId ==>
          RatingCount(fs', p) == RatingCount(fs, p) && RatingSum(fs', p) == RatingSum(fs, p))
    && (forall u :: !(postId in pa && pa[postId] == u) ==> AccuracyScore(fs', pa, u) == AccuracyScore(fs, pa, u))
  }

  /** Inserting a rating adds one to its post's count and its value to the
      post's sum. */
  lemma RatingAdded(fs: seq<Feedback>, f: Feedback, pa: map<Id, Id>)
    ensures RatingsMoved(fs, fs + [f], f.postId, pa)
    ensures RatingCount(fs + [f], f.postId) == RatingCount(fs, f.postId) + 1
    ensures RatingSum(fs + [f], f.postId) == RatingSum(fs, f.postId) + f.rating
  {
    forall p ensures RatingCount(fs + [f], p) == RatingCount(fs, p) + (if p == f.postId then 1 else 0)
                  && RatingSum(fs + [f], p) == RatingSum(fs, p) + (if p == f.postId then f.rating else 0)
    {
      Tally.SumOfAppend(fs, f, RatedOn(p));
      Tally.SumOfAppend(fs, f, RatingOn(p));
    }
    forall u | !(f.postId in pa && pa[f.postId] == u)
      ensures AccuracyScore(fs + [f], pa, u) == AccuracyScore(fs, pa, u)
    {
      Tally.SumOfAppend(fs, f, RatedBy(pa, u));
      Tally.SumOfAppend(fs, f, RatingBy(pa, u));
    }
  }

  /** Changing the value of the rating at `i` changes its post's sum by the
      difference and leaves every count alone. */
  lemma RatingChanged(fs: seq<Feedback>, i: nat, f: Feedback, pa: map<Id, Id>)
    requires i < |fs| && f.postId == fs[i].postId
    ensures RatingsMoved(fs, fs[i := f], f.postId, pa)
    ensures RatingCount(fs[i := f], f.postId) == RatingCount(fs, f.postId)
    ensures RatingSum(fs[i := f], f.postId) == RatingSum(fs, f.postId) - fs[i].rating + f.rating
  {
    forall p ensures RatingCount(fs[i := f], p) == RatingCount(fs, p)
                  && RatingSum(fs[i := f], p) == RatingSum(fs, p) + (if p == f.postId then f.rating - fs[i].rating else 0)
    {
      Tally.SumOfReplace(fs, i, f, RatedOn(p));
      Tally.SumOfReplace(fs, i, f, RatingOn(p));
    }
    forall u | !(f.postId in pa && pa[f.postId] == u)
      ensures AccuracyScore(fs[i := f], pa, u) == AccuracyScore(fs, pa, u)
    {
      Tally.SumOfReplace(fs, i, f, RatedBy(pa, u));
      Tally.SumOfReplace(fs, i, f, RatingBy(pa, u));
    }
  }

  /** Deleting the rating at `i` takes one off its post's count and its value
      off the post's sum. */
  lemma RatingDeleted(fs: seq<Feedback>, i: nat, pa: map<Id, Id>)
    requires i < |fs|
    ensures RatingsMoved(fs, fs[..i] + fs[i + 1..], fs[i].postId, pa)
    ensures RatingCount(fs[..i] + fs[i + 1..], fs[i].postId) == RatingCount(fs, fs[i].postId) - 1
    ensures RatingSum(fs[..i] + fs[i + 1..], fs[i].postId) == RatingSum(fs, fs[i].postId) - fs[i].rating
  {
    var f := fs[i];
    forall p ensures RatingCount(fs[..i] + fs[i + 1..], p) == RatingCount(fs, p) - (if p == f.postId then 1 else 0)
                  && RatingSum(fs[..i] + fs[i + 1..], p) == RatingSum(fs, p) - (if p == f.postId then f.rating else 0)
    {
      Tally.SumOfRemove(fs, i, RatedOn(p));
      Tally.SumOfRemove(fs, i, RatingOn(p));
    }
    forall u | !(f.postId in pa && pa[f.postId] == u)
      ensures AccuracyScore(fs[..i] + fs[i + 1..], pa, u) == AccuracyScore(fs, pa, u)
    {
      Tally.SumOfRemove(fs, i, RatedBy(pa, u));
      Tally.SumOfRemove(fs, i, RatingBy(pa, u));
    }
  }

  /** Recounting a post's ratings and its author's score after its ratings
      moved makes every accuracy field right again. */
  lemma RatingsRecounted(fs0: seq<Feedback>, fs: seq<Feedback>, posts: map<Id, Post>, profiles: map<Id, Profile>,
                         postId: Id)
    requires postId in posts
    requires AccuracyConsistent(fs0, posts, profiles) && RatingsMoved(fs0, fs, postId, PostAuthors(posts))
    ensures var posts' := SetPostAccuracy(posts, postId, Mean(RatingSum(fs, postId), RatingCount(fs, postId)),
                                          RatingCount(fs, postId));
      && PostAuthors(posts') == PostAuthors(posts)
      && AccuracyConsistent(fs, posts', SetAccuracyScore(profiles, posts[postId].authorId,
                                                         AccuracyScore(fs, PostAuthors(posts), posts[postId].authorId)))
  {
    var pa := PostAuthors(posts);
    var posts' := SetPostAccuracy(posts, postId, Mean(RatingSum(fs, postId), RatingCount(fs, postId)),
                                  RatingCount(fs, postId));
    assert PostAuthors(posts') == pa;
    forall p | p in posts'
      ensures posts'[p].accuracyCount == RatingCount(fs, p)
      ensures posts'[p].accuracyAvg == Mean(RatingSum(fs, p), RatingCount(fs, p))
    {
      if p != postId {
        assert posts'[p] == posts[p];
      }
    }
    var author := posts[postId].authorId;
    var profiles' := SetAccuracyScore(profiles, author, AccuracyScore(fs, pa, author));
    forall u | u in profiles' ensures profiles'[u].accuracyScore == AccuracyScore(fs, pa, u) {
      if u != author {
        assert profiles'[u] == profiles[u];
      }
    }
  }

  /** Ratings that moved on a post that no longer exists move no field. */
  lemma RatingsOnMissing(fs0: seq<Feedback>, fs: seq<Feedback>, posts: map<Id, Post>, profiles: map<Id, Profile>,
                         postId: Id)
    requires postId !in posts
    requires AccuracyConsistent(fs0, posts, profiles) && RatingsMoved(fs0, fs, postId, PostAuthors(posts))
    ensures AccuracyConsistent(fs, posts, profiles)
  {
  }

  /** Rewriting accuracy fields leaves the helpful invariant alone. */
  lemma AccuracyLeavesHelpful(vs: seq<Vote>, posts: map<Id, Post>, replies: map<Id, Reply>,
                              profiles: map<Id, Profile>, postId: Id, avg: real, count: int, author: Id, score: int)
    requires HelpfulConsistent(vs, posts, replies, profiles)
    ensures HelpfulConsistent(vs, SetPostAccuracy(posts, postId, avg, count), replies,
                              SetAccuracyScore(profiles, author, score))
  {
    HelpfulFrame(vs, posts, replies, profiles, SetPostAccuracy(posts, postId, avg, count),
                 SetAccuracyScore(profiles, author, score));
  }

  // Counter updates on the tables; each is a no-op when its row is missing.

  function SetPostHelpful(posts: map<Id, Post>, postId: Id, count: int): map<Id, Post> {
    if postId in posts then posts[postId := posts[postId].(helpfulCount := count)] else posts
  }

  function SetReplyHelpful(replies: map<Id, Reply>, replyId: Id, count: int): map<Id, Reply> {
    if replyId in replies then replies[replyId := replies[replyId].(helpfulCount := count)] else replies
  }

  function SetHelpfulness(profiles: map<Id, Profile>, userId: Id, score: int): map<Id, Profile> {
    if userId in profiles then profiles[userId := profiles[userId].(helpfulnessScore := score)] else profiles
  }

  function SetPostAccuracy(posts: map<Id, Post>, postId: Id, avg: real, count: int): map<Id, Post> {
    if postId in posts then posts[postId := posts[postId].(accuracyAvg := avg, accuracyCount := count)] else posts
  }

  function SetAccuracyScore(profiles: map<Id, Profile>, userId: Id, score: int): map<Id, Profile> {
    if userId in profiles then profiles[userId := profiles[userId].(accuracyScore := score)] else profiles
  }

  /** The author's score moved by `delta` (no change when they have no profile). */
  function BumpHelpfulness(profiles: map<Id, Profile>, userId: Id, delta: int): map<Id, Profile> {
    if userId in profiles then SetHelpfulness(profiles, userId, profiles[userId].helpfulnessScore + delta)
    else profiles
  }

  // The `_recompute_*` helpers: each rewrites one counter from the rows.

  method RecomputePostHelpful(db: Db, postId: Id)
    modifies db`posts
    ensures db.posts == SetPostHelpful(old(db.posts), postId, VoteCount(db.votes, "post", postId))
  {
    if postId in db.posts {
      db.posts := db.posts[postId := db.posts[postId].(helpfulCount := VoteCount(db.votes, "post", postId))];
    }
  }

  method RecomputeReplyHelpful(db: Db, replyId: Id)
    modifies db`replies
    ensures db.replies == SetReplyHelpful(old(db.replies), replyId, VoteCount(db.votes, "reply", replyId))
  {
    if replyId in db.replies {
      db.replies := db.replies[replyId := db.replies[replyId].(helpfulCount := VoteCount(db.votes, "reply", replyId))];
    }
  }

  /** `_recompute_user_helpfulness` (and `_recompute_reply_author_helpfulness`,
      which only calls it). */
  method RecomputeUserHelpfulness(db: Db, userId: Id)
    modifies db`profiles
    ensures db.profiles == SetHelpfulness(old(db.profiles), userId,
                                          Helpfulness(db.votes, PostAuthors(db.posts), ReplyAuthors(db.replies), userId))
  {
    if userId in db.profiles {
      var score := Helpfulness(db.votes, PostAuthors(db.posts), ReplyAuthors(db.replies), userId);
      db.profiles := db.profiles[userId := db.profiles[userId].(helpfulnessScore := score)];
    }
  }

  method RecomputePostAccuracy(db: Db, postId: Id)
    modifies db`posts
    ensures db.posts == SetPostAccuracy(old(db.posts), postId,
                                        Mean(RatingSum(db.feedback, postId), RatingCount(db.feedback, postId)),
                                        RatingCount(db.feedback, postId))
  {
    if postId in db.posts {
      var count := RatingCount(db.feedback, postId);
      var avg := Mean(RatingSum(db.feedback, postId), count);
      db.posts := db.posts[postId := db.posts[postId].(accuracyAvg := avg, accuracyCount := count)];
    }
  }

  method RecomputeUserAccuracy(db: Db, userId: Id)
    modifies db`profiles
    ensures db.profiles == SetAccuracyScore(old(db.profiles), userId,
                                            AccuracyScore(db.feedback, PostAuthors(db.posts), userId))
  {
    if userId in db.profiles {
      var score := AccuracyScore(db.feedback, PostAuthors(db.posts), userId);
      db.profiles := db.profiles[userId := db.profiles[userId].(accuracyScore := score)];
    }
  }

  /** Recounting a post's votes and its author's score after a vote on the
      post moved by `delta` gives a count and a score that moved by `delta`,
      and every counter right again. */
  lemma PostVoteRecounted(vs0: seq<Vote>, vs: seq<Vote>, v: Vote, delta: int, posts: map<Id, Post>,
                          replies: map<Id, Reply>, profiles: map<Id, Profile>, postId: Id)
    requires postId in posts && v.targetType == "post" && v.targetId == postId
    requires HelpfulConsistent(vs0, posts, replies, profiles)
    requires VoteDelta(vs0, vs, v, PostAuthors(posts), ReplyAuthors(replies), delta)
    ensures VoteCount(vs, "post", postId) == posts[postId].helpfulCount + delta
    ensures PostAuthors(SetPostHelpful(posts, postId, VoteCount(vs, "post", postId))) == PostAuthors(posts)
    ensures SetHelpfulness(profiles, posts[postId].authorId,
                           Helpfulness(vs, PostAuthors(posts), ReplyAuthors(replies), posts[postId].authorId))
         == BumpHelpfulness(profiles, posts[postId].authorId, delta)
    ensures HelpfulConsistent(vs, SetPostHelpful(posts, postId, VoteCount(vs, "post", postId)), replies,
                              BumpHelpfulness(profiles, posts[postId].authorId, delta))
  {
    var pa, ra := PostAuthors(posts), ReplyAuthors(replies);
    var author := posts[postId].authorId;
    var posts' := SetPostHelpful(posts, postId, VoteCount(vs, "post", postId));
    assert PostAuthors(posts') == pa;
    ScoresAfter(vs0, vs, v, pa, ra, delta, profiles, author);
    ReplyCountsAfter(vs0, vs, v, pa, ra, delta, replies);
  }

  lemma ReplyVoteRecounted(vs0: seq<Vote>, vs: seq<Vote>, v: Vote, delta: int, posts: map<Id, Post>,
                           replies: map<Id, Reply>, profiles: map<Id, Profile>, replyId: Id)
    requires replyId in replies && v.targetType == "reply" && v.targetId == replyId
    requires HelpfulConsistent(vs0, posts, replies, profiles)
    requires VoteDelta(vs0, vs, v, PostAuthors(posts), ReplyAuthors(replies), delta)
    ensures VoteCount(vs, "reply", replyId) == replies[replyId].helpfulCount + delta
    ensures ReplyAuthors(SetReplyHelpful(replies, replyId, VoteCount(vs, "reply", replyId))) == ReplyAuthors(replies)
    ensures SetHelpfulness(profiles, replies[replyId].authorId,
                           Helpfulness(vs, PostAuthors(posts), ReplyAuthors(replies), replies[replyId].authorId))
         == BumpHelpfulness(profiles, replies[replyId].authorId, delta)
    ensures HelpfulConsistent(vs, posts, SetReplyHelpful(replies, replyId, VoteCount(vs, "reply", replyId)),
                              BumpHelpfulness(profiles, replies[replyId].authorId, delta))
  {
    var pa, ra := PostAuthors(posts), ReplyAuthors(replies);
    var author := replies[replyId].authorId;
    var replies' := SetReplyHelpful(replies, replyId, VoteCount(vs, "reply", replyId));
    assert ReplyAuthors(replies') == ra;
    ScoresAfter(vs0, vs, v, pa, ra, delta, profiles, author);
    PostCountsAfter(vs0, vs, v, pa, ra, delta, posts);
  }

  /** Rewriting helpful counters leaves the accuracy invariant alone. */
  lemma HelpfulLeavesAccuracy(fs: seq<Feedback>, posts: map<Id, Post>, profiles: map<Id, Profile>,
                              postId: Id, count: int, author: Id, score: int)
    requires AccuracyConsistent(fs, posts, profiles)
    ensures AccuracyConsistent(fs, SetPostHelpful(posts, postId, count), SetHelpfulness(profiles, author, score))
  {
    AccuracyFrame(fs, posts, profiles, SetPostHelpful(posts, postId, count), SetHelpfulness(profiles, author, score));
  }

  lemma ScoreLeavesAccuracy(fs: seq<Feedback>, posts: map<Id, Post>, profiles: map<Id, Profile>,
                            author: Id, score: int)
    requires AccuracyConsistent(fs, posts, profiles)
    ensures AccuracyConsistent(fs, posts, SetHelpfulness(profiles, author, score))
  {
    AccuracyFrame(fs, posts, profiles, posts, SetHelpfulness(profiles, author, score));
  }

  /** The rows-to-counters step after a vote on a post, on values: the
      counters recomputed from `vs` keep the post authors, and when `vs0` is
      `delta` votes `v` away from `vs` with every counter right for `vs0`,
      each recomputed counter is the old one moved by `delta` and every
      counter is right for `vs`. The accuracy fields are untouched. */
  lemma PostRecount(vs0: seq<Vote>, vs: seq<Vote>, v: Vote, delta: int, fs: seq<Feedback>,
                    posts: map<Id, Post>, replies: map<Id, Reply>, profiles: map<Id, Profile>, postId: Id)
    requires postId in posts && v.targetType == "post" && v.targetId == postId
    ensures var author := posts[postId].authorId;
      var posts' := SetPostHelpful(posts, postId, VoteCount(vs, "post", postId));
      var profiles' := SetHelpfulness(profiles, author, Helpfulness(vs, PostAuthors(posts), ReplyAuthors(replies), author));
      && PostAuthors(posts') == PostAuthors(posts)
      && (HelpfulConsistent(vs0, posts, replies, profiles)
          && VoteDelta(vs0, vs, v, PostAuthors(posts), ReplyAuthors(replies), delta) ==>
            && HelpfulConsistent(vs, posts', replies, profiles')
            && posts' == SetPostHelpful(posts, postId, posts[postId].helpfulCount + delta)
            && profiles' == BumpHelpfulness(profiles, author, delta))
      && (AccuracyConsistent(fs, posts, profiles) ==> AccuracyConsistent(fs, posts', profiles'))
  {
    var author := posts[postId].authorId;
    var pa, ra := PostAuthors(posts), ReplyAuthors(replies);
    var posts' := SetPostHelpful(posts, postId, VoteCount(vs, "post", postId));
    assert PostAuthors(posts') == pa;
    if HelpfulConsistent(vs0, posts, replies, profiles) && VoteDelta(vs0, vs, v, pa, ra, delta) {
      PostVoteRecounted(vs0, vs, v, delta, posts, replies, profiles, postId);
    }
    if AccuracyConsistent(fs, posts, profiles) {
      HelpfulLeavesAccuracy(fs, posts, profiles, postId, VoteCount(vs, "post", postId),
                            author, Helpfulness(vs, pa, ra, author));
    }
  }

  /** The same step after a vote on a reply. */
  lemma ReplyRecount(vs0: seq<Vote>, vs: seq<Vote>, v: Vote, delta: int, fs: seq<Feedback>,
                     posts: map<Id, Post>, replies: map<Id, Reply>, profiles: map<Id, Profile>, replyId: Id)
    requires replyId in replies && v.targetType == "reply" && v.targetId == replyId
    ensures var author := replies[replyId].authorId;
      var replies' := SetReplyHelpful(replies, replyId, VoteCount(vs, "reply", replyId));
      var profiles' := SetHelpfulness(profiles, author, Helpfulness(vs, PostAuthors(posts), ReplyAuthors(replies), author));
      && ReplyAuthors(replies') == ReplyAuthors(replies)
      && (HelpfulConsistent(vs0, posts, replies, profiles)
          && VoteDelta(vs0, vs, v, PostAuthors(posts), ReplyAuthors(replies), delta) ==>
            && HelpfulConsistent(vs, posts, replies', profiles')
            && replies' == SetReplyHelpful(replies, replyId, replies[replyId].helpfulCount + delta)
            && profiles' == BumpHelpfulness(profiles, author, delta))
      && (AccuracyConsistent(fs, posts, profiles) ==> AccuracyConsistent(fs, posts, profiles'))
  {
    var author := replies[replyId].authorId;
    var pa, ra := PostAuthors(posts), ReplyAuthors(replies);
    var replies' := SetReplyHelpful(replies, replyId, VoteCount(vs, "reply", replyId));
    assert ReplyAuthors(replies') == ra;
    if HelpfulConsistent(vs0, posts, replies, profiles) && VoteDelta(vs0, vs, v, pa, ra, delta) {
      ReplyVoteRecounted(vs0, vs, v, delta, posts, replies, profiles, replyId);
    }
    if AccuracyConsistent(fs, posts, profiles) {
      ScoreLeavesAccuracy(fs, posts, profiles, author, Helpfulness(vs, pa, ra, author));
    }
  }

  /** The same step after ratings of a post moved: the recomputed accuracy
      fields keep the post authors, make every accuracy field right again when
      only ratings of the post moved since `fs0` and every field was right for
      `fs0`, and leave the helpful counters alone. */
  lemma RatingRecount(fs0: seq<Feedback>, fs: seq<Feedback>, vs: seq<Vote>,
                      posts: map<Id, Post>, replies: map<Id, Reply>, profiles: map<Id, Profile>, postId: Id)
    requires postId in posts
    ensures var author := posts[postId].authorId;
      var posts' := SetPostAccuracy(posts, postId, Mean(RatingSum(fs, postId), RatingCount(fs, postId)),
                                    RatingCount(fs, postId));
      var profiles' := SetAccuracyScore(profiles, author, AccuracyScore(fs, PostAuthors(posts), author));
      && PostAuthors(posts') == PostAuthors(posts)
      && (AccuracyConsistent(fs0, posts, profiles) && RatingsMoved(fs0, fs, postId, PostAuthors(posts)) ==>
            AccuracyConsistent(fs, posts', profiles'))
      && (HelpfulConsistent(vs, posts, replies, profiles) ==> HelpfulConsistent(vs, posts', replies, profiles'))
  {
    var author := posts[postId].authorId;
    var pa := PostAuthors(posts);
    var posts' := SetPostAccuracy(posts, postId, Mean(RatingSum(fs, postId), RatingCount(fs, postId)),
                                  RatingCount(fs, postId));
    assert PostAuthors(posts') == pa;
    if AccuracyConsistent(fs0, posts, profiles) && RatingsMoved(fs0, fs, postId, pa) {
      RatingsRecounted(fs0, fs, posts, profiles, postId);
    }
    if HelpfulConsistent(vs, posts, replies, profiles) {
      AccuracyLeavesHelpful(vs, posts, replies, profiles, postId,
                            Mean(RatingSum(fs, postId), RatingCount(fs, postId)),
                            RatingCount(fs, postId), author, AccuracyScore(fs, pa, author));
    }
  }

  /** The recount after a vote on a post was added or deleted:
      `_recompute_post_helpful`, then `_recompute_user_helpfulness` for the
      post's author. Both counters are rewritten from the rows, whatever they
      held before; `PostRecount` gives what that means for the invariants. */
  method RecountPostVotes(db: Db, postId: Id, ghost vs0: seq<Vote>, ghost v: Vote, ghost delta: int)
    requires postId in db.posts && v.targetType == "post" && v.targetId == postId
    modifies db`posts, db`profiles
    ensures db.posts == SetPostHelpful(old(db.posts), postId, VoteCount(db.votes, "post", postId))
    ensures db.profiles == SetHelpfulness(old(db.profiles), old(db.posts[postId]).authorId,
              Helpfulness(db.votes, PostAuthors(old(db.posts)), ReplyAuthors(db.replies), old(db.posts[postId]).authorId))
    ensures (&& HelpfulConsistent(vs0, old(db.posts), db.replies, old(db.profiles))
             && VoteDelta(vs0, db.votes, v, PostAuthors(old(db.posts)), ReplyAuthors(db.replies), delta)) ==>
      && HelpfulConsistent(db.votes, db.posts, db.replies, db.profiles)
      && db.posts == SetPostHelpful(old(db.posts), postId, old(db.posts[postId]).helpfulCount + delta)
      && db.profiles == BumpHelpfulness(old(db.profiles), old(db.posts[postId]).authorId, delta)
    ensures AccuracyConsistent(db.feedback, old(db.posts), old(db.profiles)) ==>
      AccuracyConsistent(db.feedback, db.posts, db.profiles)
  {
    var author := db.posts[postId].authorId;
    PostRecount(vs0, db.votes, v, delta, db.feedback, db.posts, db.replies, db.profiles, postId);
    RecomputePostHelpful(db, postId);
    RecomputeUserHelpfulness(db, author);
  }

  /** The same after a vote on a reply: `_recompute_reply_helpful`, then
      `_recompute_reply_author_helpfulness`. */
  method RecountReplyVotes(db: Db, replyId: Id, ghost vs0: seq<Vote>, ghost v: Vote, ghost delta: int)
    requires replyId in db.replies && v.targetType == "reply" && v.targetId == replyId
    modifies db`replies, db`profiles
    ensures db.replies == SetReplyHelpful(old(db.replies), replyId, VoteCount(db.votes, "reply", replyId))
    ensures db.profiles == SetHelpfulness(old(db.profiles), old(db.replies[replyId]).authorId,
              Helpfulness(db.votes, PostAuthors(db.posts), ReplyAuthors(old(db.replies)), old(db.replies[replyId]).authorId))
    ensures (&& HelpfulConsistent(vs0, db.posts, old(db.replies), old(db.profiles))
             && VoteDelta(vs0, db.votes, v, PostAuthors(db.posts), ReplyAuthors(old(db.replies)), delta)) ==>
      && HelpfulConsistent(db.votes, db.posts, db.replies, db.profiles)
      && db.replies == SetReplyHelpful(old(db.replies), replyId, old(db.replies[replyId]).helpfulCount + delta)
      && db.profiles == BumpHelpfulness(old(db.profiles), old(db.replies[replyId]).authorId, delta)
    ensures AccuracyConsistent(db.feedback, db.posts, old(db.profiles)) ==>
      AccuracyConsistent(db.feedback, db.posts, db.profiles)
  {
    var author := db.replies[replyId].authorId;
    ReplyRecount(vs0, db.votes, v, delta, db.feedback, db.posts, db.replies, db.profiles, replyId);
    RecomputeReplyHelpful(db, replyId);
    RecomputeUserHelpfulness(db, author);
  }

  /** The recount after a rating of a post was added, changed or deleted:
      `_recompute_post_accuracy`, then `_recompute_user_accuracy` for the
      post's author, both from the rows; `RatingRecount` gives what that means
      for the invariants. */
  method RecountRatings(db: Db, postId: Id, ghost fs0: seq<Feedback>)
    requires postId in db.posts
    modifies db`posts, db`profiles
    ensures db.posts == SetPostAccuracy(old(db.posts), postId,
                                        Mean(RatingSum(db.feedback, postId), RatingCount(db.feedback, postId)),
                                        RatingCount(db.feedback, postId))
    ensures db.profiles == SetAccuracyScore(old(db.profiles), old(db.posts[postId]).authorId,
                                            AccuracyScore(db.feedback, PostAuthors(old(db.posts)),
                                                          old(db.posts[postId]).authorId))
    ensures HelpfulConsistent(db.votes, old(db.posts), db.replies, old(db.profiles)) ==>
      HelpfulConsistent(db.votes, db.posts, db.replies, db.profiles)
    ensures (&& AccuracyConsistent(fs0, old(db.posts), old(db.profiles))
             && RatingsMoved(fs0, db.feedback, postId, PostAuthors(old(db.posts)))) ==>
      AccuracyConsistent(db.feedback, db.posts, db.profiles)
  {
    var author := db.posts[postId].authorId;
    RatingRecount(fs0, db.feedback, db.votes, db.posts, db.replies, db.profiles, postId);
    RecomputePostAccuracy(db, postId);
    RecomputeUserAccuracy(db, author);
  }

  // Notifications.

  /** The dedupe key of a vote or rating notification: its type, the target and
      the acting user. */
  function DedupeKey(kind: string, target: Id, userId: Id): string {
    kind + ":" + target + ":" + userId
  }

  function PostHelpfulPayload(ts: seq<PostTranslation>, postId: Id, post: Post, profiles: map<Id, Profile>,
                              userId: Id): Option<Payload>
  {
    Some(map["post_id" := JStr(postId), "post_title" := TitleIn(ts, postId, post.originalLanguage),
             "from_user_name" := DisplayName(profiles, userId)])
  }

  function ReplyHelpfulPayload(replyId: Id, reply: Reply, profiles: map<Id, Profile>, userId: Id): Option<Payload> {
    Some(map["reply_id" := JStr(replyId), "reply_excerpt" := JStr(Excerpt(reply.content)),
             "from_user_name" := DisplayName(profiles, userId)])
  }

  function RatedPayload(ts: seq<PostTranslation>, postId: Id, post: Post, profiles: map<Id, Profile>,
                        userId: Id, rating: int): Option<Payload>
  {
    Some(map["post_id" := JStr(postId), "post_title" := TitleIn(ts, postId, post.originalLanguage),
             "from_user_name" := DisplayName(profiles, userId), "rating" := JInt(rating)])
  }

  /** The notification table after notifying `authorId` of an action by
      `userId`: unchanged when they are the same user. */
  function NotifyOthers(rows: seq<Notification>, authorId: Id, userId: Id, kind: string, payload: Option<Payload>,
                        target: Id, nid: Id): seq<Notification>
  {
    if authorId == userId then rows
    else NotificationService.Create(rows, authorId, kind, payload, Some(DedupeKey(kind, target, userId)), nid).1
  }

  method NotifyAuthor(db: Db, authorId: Id, userId: Id, kind: string, payload: Option<Payload>, target: Id, nid: Id)
    requires NotificationsConsistent(db.notifications) && NotificationService.IdFresh(db.notifications, nid)
    modifies db`notifications
    ensures NotificationsConsistent(db.notifications)
    ensures db.notifications == NotifyOthers(old(db.notifications), authorId, userId, kind, payload, target, nid)
  {
    if authorId != userId {
      var _ := NotificationService.CreateNotification(db, authorId, kind, payload,
                                                      Some(DedupeKey(kind, target, userId)), nid);
    }
  }

  // Votes. Every counter a call touches is recomputed from the rows, so it
  // ends up equal to its count even when it was stale before (for instance
  // after a deletion elsewhere left rows behind); when every counter agreed
  // with the rows before the call, each touched one moves by exactly the
  // vote added or deleted and they all agree again.

  /** `mark_helpful_post`: 404 for an unknown post, 409 for a second vote by
      the same user; otherwise the vote is stored, the post's count and its
      author's score are recomputed from the votes (each one more than before
      the vote) and the author, when someone else, is notified once per voter. */
  method MarkHelpfulPost(db: Db, userId: Id, postId: Id, nid: Id) returns (r: Result<()>)
    requires VotesUnique(db.votes)
    requires NotificationsConsistent(db.notifications) && NotificationService.IdFresh(db.notifications, nid)
    modifies db`votes, db`posts, db`profiles, db`notifications
    ensures VotesUnique(db.votes) && NotificationsConsistent(db.notifications)
    ensures old(HelpfulConsistent(db.votes, db.posts, db.replies, db.profiles)) ==>
      HelpfulConsistent(db.votes, db.posts, db.replies, db.profiles)
    ensures old(AccuracyConsistent(db.feedback, db.posts, db.profiles)) ==>
      AccuracyConsistent(db.feedback, db.posts, db.profiles)
    ensures postId !in old(db.posts) ==> r == Err(AppError(404, "post_not_found"))
    ensures postId in old(db.posts) && Vote(userId, "post", postId) in old(db.votes) ==>
      r == Err(AppError(409, "already_voted"))
    ensures r.Err? ==>
      && db.votes == old(db.votes) && db.posts == old(db.posts)
      && db.profiles == old(db.profiles) && db.notifications == old(db.notifications)
    ensures r.Ok? ==>
      var post := old(db.posts[postId]);
      var pa, ra := PostAuthors(old(db.posts)), ReplyAuthors(db.replies);
      && db.votes == old(db.votes) + [Vote(userId, "post", postId)]
      && VoteCount(db.votes, "post", postId) == VoteCount(old(db.votes), "post", postId) + 1
      && Helpfulness(db.votes, pa, ra, post.authorId) == Helpfulness(old(db.votes), pa, ra, post.authorId) + 1
      && db.posts == SetPostHelpful(old(db.posts), postId, VoteCount(db.votes, "post", postId))
      && db.profiles == SetHelpfulness(old(db.profiles), post.authorId, Helpfulness(db.votes, pa, ra, post.authorId))
      && db.notifications == NotifyOthers(old(db.notifications), post.authorId, userId, "post_helpful",
           PostHelpfulPayload(old(db.translations), postId, post, old(db.profiles), userId), postId, nid)
    ensures r.Ok? && old(HelpfulConsistent(db.votes, db.posts, db.replies, db.profiles)) ==>
      && db.posts == SetPostHelpful(old(db.posts), postId, old(db.posts[postId]).helpfulCount + 1)
      && db.profiles == BumpHelpfulness(old(db.profiles), old(db.posts[postId]).authorId, 1)
  {
    if postId !in db.posts {
      return Err(AppError(404, "post_not_found"));
    }
    var post := db.posts[postId];
    var v := Vote(userId, "post", postId);
    if v in db.votes {
      return Err(AppError(409, "already_voted"));
    }
    var payload := PostHelpfulPayload(db.translations, postId, post, db.profiles, userId);
    VoteAdded(db.votes, v, PostAuthors(db.posts), ReplyAuthors(db.replies));
    Tally.DistinctAppend(db.votes, v);
    ghost var vs0 := db.votes;
    db.votes := db.votes + [v];
    RecountPostVotes(db, postId, vs0, v, 1);
    NotifyAuthor(db, post.authorId, userId, "post_helpful", payload, postId, nid);
    r := Ok(());
  }

  /** `unmark_helpful_post`: deletes the user's vote if there is one (never
      an error); when the post exists its count and its author's score are
      recomputed from the votes, each one less than before exactly when a
      vote was deleted. */
  method UnmarkHelpfulPost(db: Db, userId: Id, postId: Id)
    requires VotesUnique(db.votes)
    modifies db`votes, db`posts, db`profiles
    ensures VotesUnique(db.votes)
    ensures old(HelpfulConsistent(db.votes, db.posts, db.replies, db.profiles)) ==>
      HelpfulConsistent(db.votes, db.posts, db.replies, db.profiles)
    ensures old(AccuracyConsistent(db.feedback, db.posts, db.profiles)) ==>
      AccuracyConsistent(db.feedback, db.posts, db.profiles)
    ensures Vote(userId, "post", postId) !in db.votes
    ensures db.votes == Tally.Without(old(db.votes), Vote(userId, "post", postId))
    ensures VoteCount(db.votes, "post", postId) ==
      VoteCount(old(db.votes), "post", postId) - (if Vote(userId, "post", postId) in old(db.votes) then 1 else 0)
    ensures postId !in old(db.posts) ==> db.posts == old(db.posts) && db.profiles == old(db.profiles)
    ensures postId in old(db.posts) ==>
      var post := old(db.posts[postId]);
      var pa, ra := PostAuthors(old(db.posts)), ReplyAuthors(db.replies);
      var d := if Vote(userId, "post", postId) in old(db.votes) then -1 else 0;
      && Helpfulness(db.votes, pa, ra, post.authorId) == Helpfulness(old(db.votes), pa, ra, post.authorId) + d
      && db.posts == SetPostHelpful(old(db.posts), postId, VoteCount(db.votes, "post", postId))
      && db.profiles == SetHelpfulness(old(db.profiles), post.authorId, Helpfulness(db.votes, pa, ra, post.authorId))
    ensures postId in old(db.posts) && old(HelpfulConsistent(db.votes, db.posts, db.replies, db.profiles)) ==>
      var post := old(db.posts[postId]);
      var d := if Vote(userId, "post", postId) in old(db.votes) then -1 else 0;
      && db.posts == SetPostHelpful(old(db.posts), postId, post.helpfulCount + d)
      && db.profiles == BumpHelpfulness(old(db.profiles), post.authorId, d)
  {
    var v := Vote(userId, "post", postId);
    ghost var vs0 := db.votes;
    ghost var d := if v in db.votes then -1 else 0;
    VoteRemoved(db.votes, v, PostAuthors(db.posts), ReplyAuthors(db.replies));
    db.votes := Tally.Without(db.votes, v);
    if postId in db.posts {
      RecountPostVotes(db, postId, vs0, v, d);
    } else if HelpfulConsistent(vs0, db.posts, db.replies, db.profiles) {
      VoteOnMissing(vs0, db.votes, v, d, db.posts, db.replies, db.profiles);
    }
  }

  /** `mark_helpful_reply`: as for posts, with 404 `reply_not_found` and the
      reply's excerpt in the notification. */
  method MarkHelpfulReply(db: Db, userId: Id, replyId: Id, nid: Id) returns (r: Result<()>)
    requires VotesUnique(db.votes)
    requires NotificationsConsistent(db.notifications) && NotificationService.IdFresh(db.notifications, nid)
    modifies db`votes, db`replies, db`profiles, db`notifications
    ensures VotesUnique(db.votes) && NotificationsConsistent(db.notifications)
    ensures old(HelpfulConsistent(db.votes, db.posts, db.replies, db.profiles)) ==>
      HelpfulConsistent(db.votes, db.posts, db.replies, db.profiles)
    ensures old(AccuracyConsistent(db.feedback, db.posts, db.profiles)) ==>
      AccuracyConsistent(db.feedback, db.posts, db.profiles)
    ensures replyId !in old(db.replies) ==> r == Err(AppError(404, "reply_not_found"))
    ensures replyId in old(db.replies) && Vote(userId, "reply", replyId) in old(db.votes) ==>
      r == Err(AppError(409, "already_voted"))
    ensures r.Err? ==>
      && db.votes == old(db.votes) && db.replies == old(db.replies)
      && db.profiles == old(db.profiles) && db.notifications == old(db.notifications)
    ensures r.Ok? ==>
      var reply := old(db.replies[replyId]);
      var pa, ra := PostAuthors(db.posts), ReplyAuthors(old(db.replies));
      && db.votes == old(db.votes) + [Vote(userId, "reply", replyId)]
      && VoteCount(db.votes, "reply", replyId) == VoteCount(old(db.votes), "reply", replyId) + 1
      && Helpfulness(db.votes, pa, ra, reply.authorId) == Helpfulness(old(db.votes), pa, ra, reply.authorId) + 1
      && db.replies == SetReplyHelpful(old(db.replies), replyId, VoteCount(db.votes, "reply", replyId))
      && db.profiles == SetHelpfulness(old(db.profiles), reply.authorId, Helpfulness(db.votes, pa, ra, reply.authorId))
    ensures r.Ok? && old(HelpfulConsistent(db.votes, db.posts, db.replies, db.profiles)) ==>
      && db.replies == SetReplyHelpful(old(db.replies), replyId, old(db.replies[replyId]).helpfulCount + 1)
      && db.profiles == BumpHelpfulness(old(db.profiles), old(db.replies[replyId]).authorId, 1)
    ensures r.Ok? ==>
      db.notifications == NotifyOthers(old(db.notifications), old(db.replies[replyId]).authorId, userId,
        "reply_helpful", ReplyHelpfulPayload(replyId, old(db.replies[replyId]), db.profiles, userId), replyId, nid)
  {
    var replies0 := db.replies;
    r := CastReplyVote(db, userId, replyId);
    if r.Ok? {
      NotifyReplyAuthor(db, replyId, replies0[replyId], userId, nid);
    }
  }

  /** The part of `mark_helpful_reply` up to its commit and the recounts. */
  method CastReplyVote(db: Db, userId: Id, replyId: Id) returns (r: Result<()>)
    requires VotesUnique(db.votes)
    modifies db`votes, db`replies, db`profiles
    ensures VotesUnique(db.votes)
    ensures old(HelpfulConsistent(db.votes, db.posts, db.replies, db.profiles)) ==>
      HelpfulConsistent(db.votes, db.posts, db.replies, db.profiles)
    ensures old(AccuracyConsistent(db.feedback, db.posts, db.profiles)) ==>
      AccuracyConsistent(db.feedback, db.posts, db.profiles)
    ensures replyId !in old(db.replies) ==> r == Err(AppError(404, "reply_not_found"))
    ensures replyId in old(db.replies) && Vote(userId, "reply", replyId) in old(db.votes) ==>
      r == Err(AppError(409, "already_voted"))
    ensures r.Err? ==> db.votes == old(db.votes) && db.replies == old(db.replies) && db.profiles == old(db.profiles)
    ensures r.Ok? ==>
      var reply := old(db.replies[replyId]);
      var pa, ra := PostAuthors(db.posts), ReplyAuthors(old(db.replies));
      && db.votes == old(db.votes) + [Vote(userId, "reply", replyId)]
      && VoteCount(db.votes, "reply", replyId) == VoteCount(old(db.votes), "reply", replyId) + 1
      && Helpfulness(db.votes, pa, ra, reply.authorId) == Helpfulness(old(db.votes), pa, ra, reply.authorId) + 1
      && db.replies == SetReplyHelpful(old(db.replies), replyId, VoteCount(db.votes, "reply", replyId))
      && db.profiles == SetHelpfulness(old(db.profiles), reply.authorId, Helpfulness(db.votes, pa, ra, reply.authorId))
    ensures r.Ok? && old(HelpfulConsistent(db.votes, db.posts, db.replies, db.profiles)) ==>
      && db.replies == SetReplyHelpful(old(db.replies), replyId, old(db.replies[replyId]).helpfulCount + 1)
      && db.profiles == BumpHelpfulness(old(db.profiles), old(db.replies[replyId]).authorId, 1)
  {
    if replyId !in db.replies {
      return Err(AppError(404, "reply_not_found"));
    }
    var v := Vote(userId, "reply", replyId);
    if v in db.votes {
      return Err(AppError(409, "already_voted"));
    }
    VoteAdded(db.votes, v, PostAuthors(db.posts), ReplyAuthors(db.replies));
    Tally.DistinctAppend(db.votes, v);
    ghost var vs0 := db.votes;
    db.votes := db.votes + [v];
    RecountReplyVotes(db, replyId, vs0, v, 1);
    r := Ok(());
  }

  method NotifyReplyAuthor(db: Db, replyId: Id, reply: Reply, userId: Id, nid: Id)
    requires NotificationsConsistent(db.notifications) && NotificationService.IdFresh(db.notifications, nid)
    modifies db`notifications
    ensures NotificationsConsistent(db.notifications)
    ensures db.notifications == NotifyOthers(old(db.notifications), reply.authorId, userId, "reply_helpful",
                                             ReplyHelpfulPayload(replyId, reply, old(db.profiles), userId), replyId, nid)
  {
    NotifyAuthor(db, reply.authorId, userId, "reply_helpful", ReplyHelpfulPayload(replyId, reply, db.profiles, userId),
                 replyId, nid);
  }

  /** `unmark_helpful_reply`. */
  method UnmarkHelpfulReply(db: Db, userId: Id, replyId: Id)
    requires VotesUnique(db.votes)
    modifies db`votes, db`replies, db`profiles
    ensures VotesUnique(db.votes)
    ensures old(HelpfulConsistent(db.votes, db.posts, db.replies, db.profiles)) ==>
      HelpfulConsistent(db.votes, db.posts, db.replies, db.profiles)
    ensures old(AccuracyConsistent(db.feedback, db.posts, db.profiles)) ==>
      AccuracyConsistent(db.feedback, db.posts, db.profiles)
    ensures Vote(userId, "reply", replyId) !in db.votes
    ensures db.votes == Tally.Without(old(db.votes), Vote(userId, "reply", replyId))
    ensures VoteCount(db.votes, "reply", replyId) ==
      VoteCount(old(db.votes), "reply", replyId) - (if Vote(userId, "reply", replyId) in old(db.votes) then 1 else 0)
    ensures replyId !in old(db.replies) ==> db.replies == old(db.replies) && db.profiles == old(db.profiles)
    ensures replyId in old(db.replies) ==>
      var reply := old(db.replies[replyId]);
      var pa, ra := PostAuthors(db.posts), ReplyAuthors(old(db.replies));
      var d := if Vote(userId, "reply", replyId) in old(db.votes) then -1 else 0;
      && Helpfulness(db.votes, pa, ra, reply.authorId) == Helpfulness(old(db.votes), pa, ra, reply.authorId) + d
      && db.replies == SetReplyHelpful(old(db.replies), replyId, VoteCount(db.votes, "reply", replyId))
      && db.profiles == SetHelpfulness(old(db.profiles), reply.authorId, Helpfulness(db.votes, pa, ra, reply.authorId))
    ensures replyId in old(db.replies) && old(HelpfulConsistent(db.votes, db.posts, db.replies, db.profiles)) ==>
      var reply := old(db.replies[replyId]);
      var d := if Vote(userId, "reply", replyId) in old(db.votes) then -1 else 0;
      && db.replies == SetReplyHelpful(old(db.replies), replyId, reply.helpfulCount + d)
      && db.profiles == BumpHelpfulness(old(db.profiles), reply.authorId, d)
  {
    var v := Vote(userId, "reply", replyId);
    ghost var vs0 := db.votes;
    ghost var d := if v in db.votes then -1 else 0;
    VoteRemoved(db.votes, v, PostAuthors(db.posts), ReplyAuthors(db.replies));
    db.votes := Tally.Without(db.votes, v);
    if replyId in db.replies {
      RecountReplyVotes(db, replyId, vs0, v, d);
    } else if HelpfulConsistent(vs0, db.posts, db.replies, db.profiles) {
      VoteOnMissing(vs0, db.votes, v, d, db.posts, db.replies, db.profiles);
    }
  }

  // Accuracy feedback.

  /** The index of the user's rating of the post, if any. */
  function FindFeedback(fs: seq<Feedback>, userId: Id, postId: Id): (r: Option<nat>)
    ensures r.Some? ==> r.value < |fs| && fs[r.value].userId == userId && fs[r.value].postId == postId
    ensures r.None? ==> forall i :: 0 <= i < |fs| ==> !(fs[i].userId == userId && fs[i].postId == postId)
  {
    if fs == [] then None
    else if fs[0].userId == userId && fs[0].postId == postId then Some(0)
    else match FindFeedback(fs[1..], userId, postId)
      case None => None
      case Some(i) => Some(i + 1)
  }

  /** A rating by a user who had not rated the post, with a value the request
      schema admits, keeps both constraints of the rating table. */
  lemma NewFeedbackKeeps(fs: seq<Feedback>, f: Feedback)
    requires FeedbackUnique(fs) && RatingsInRange(fs) && 1 <= f.rating <= 5
    requires FindFeedback(fs, f.userId, f.postId).None?
    ensures FeedbackUnique(fs + [f]) && RatingsInRange(fs + [f])
  {
    assert forall i :: 0 <= i < |fs| ==> (fs + [f])[i] == fs[i];
  }

  /** `submit_accuracy_feedback`: 404 for an unknown post, 409 when the user
      has rated it already; otherwise the rating is stored, the post's count
      and mean and its author's score are recomputed from the ratings (the
      count one more than before, the sum taking the new rating in), and the
      author, when someone else, is notified once per rater. */
  method SubmitFeedback(db: Db, userId: Id, postId: Id, rating: int, note: Option<string>, nid: Id)
    returns (r: Result<()>)
    requires 1 <= rating <= 5
    requires FeedbackUnique(db.feedback) && RatingsInRange(db.feedback)
    requires NotificationsConsistent(db.notifications) && NotificationService.IdFresh(db.notifications, nid)
    modifies db`feedback, db`posts, db`profiles, db`notifications
    ensures FeedbackUnique(db.feedback) && RatingsInRange(db.feedback)
    ensures NotificationsConsistent(db.notifications)
    ensures old(HelpfulConsistent(db.votes, db.posts, db.replies, db.profiles)) ==>
      HelpfulConsistent(db.votes, db.posts, db.replies, db.profiles)
    ensures old(AccuracyConsistent(db.feedback, db.posts, db.profiles)) ==>
      AccuracyConsistent(db.feedback, db.posts, db.profiles)
    ensures postId !in old(db.posts) ==> r == Err(AppError(404, "post_not_found"))
    ensures postId in old(db.posts) && FindFeedback(old(db.feedback), userId, postId).Some? ==>
      r == Err(AppError(409, "already_rated"))
    ensures r.Err? ==>
      && db.feedback == old(db.feedback) && db.posts == old(db.posts)
      && db.profiles == old(db.profiles) && db.notifications == old(db.notifications)
    ensures r.Ok? ==>
      var post := old(db.posts[postId]);
      && postId in old(db.posts)
      && db.feedback == old(db.feedback) + [Feedback(userId, postId, rating, note)]
      && RatingCount(db.feedback, postId) == RatingCount(old(db.feedback), postId) + 1
      && RatingSum(db.feedback, postId) == RatingSum(old(db.feedback), postId) + rating
      && db.posts == SetPostAccuracy(old(db.posts), postId,
                                     Mean(RatingSum(db.feedback, postId), RatingCount(db.feedback, postId)),
                                     RatingCount(db.feedback, postId))
      && db.profiles == SetAccuracyScore(old(db.profiles), post.authorId,
                                         AccuracyScore(db.feedback, PostAuthors(old(db.posts)), post.authorId))
    ensures r.Ok? && old(AccuracyConsistent(db.feedback, db.posts, db.profiles)) ==>
      var count := old(db.posts[postId]).accuracyCount + 1;
      db.posts == SetPostAccuracy(old(db.posts), postId, Mean(RatingSum(db.feedback, postId), count), count)
    ensures r.Ok? ==>
      var post := old(db.posts[postId]);
      db.notifications == NotifyOthers(old(db.notifications), post.authorId, userId, "post_rated",
        RatedPayload(old(db.translations), postId, post, db.profiles, userId, rating), postId, nid)
  {
    var posts0 := db.posts;
    r := RecordFeedback(db, userId, postId, rating, note);
    if r.Ok? {
      var post := posts0[postId];
      NotifyAuthor(db, post.authorId, userId, "post_rated",
                   RatedPayload(db.translations, postId, post, db.profiles, userId, rating), postId, nid);
    }
  }

  /** The part of `submit_accuracy_feedback` up to its commit and the
      recounts. */
  method RecordFeedback(db: Db, userId: Id, postId: Id, rating: int, note: Option<string>) returns (r: Result<()>)
    requires 1 <= rating <= 5
    requires FeedbackUnique(db.feedback) && RatingsInRange(db.feedback)
    modifies db`feedback, db`posts, db`profiles
    ensures FeedbackUnique(db.feedback) && RatingsInRange(db.feedback)
    ensures old(HelpfulConsistent(db.votes, db.posts, db.replies, db.profiles)) ==>
      HelpfulConsistent(db.votes, db.posts, db.replies, db.profiles)
    ensures old(AccuracyConsistent(db.feedback, db.posts, db.profiles)) ==>
      AccuracyConsistent(db.feedback, db.posts, db.profiles)
    ensures postId !in old(db.posts) ==> r == Err(AppError(404, "post_not_found"))
    ensures postId in old(db.posts) && FindFeedback(old(db.feedback), userId, postId).Some? ==>
      r == Err(AppError(409, "already_rated"))
    ensures r.Err? ==> db.feedback == old(db.feedback) && db.posts == old(db.posts) && db.profiles == old(db.profiles)
    ensures r.Ok? ==>
      var post := old(db.posts[postId]);
      && postId in old(db.posts)
      && db.feedback == old(db.feedback) + [Feedback(userId, postId, rating, note)]
      && RatingCount(db.feedback, postId) == RatingCount(old(db.feedback), postId) + 1
      && RatingSum(db.feedback, postId) == RatingSum(old(db.feedback), postId) + rating
      && db.posts == SetPostAccuracy(old(db.posts), postId,
                                     Mean(RatingSum(db.feedback, postId), RatingCount(db.feedback, postId)),
                                     RatingCount(db.feedback, postId))
      && db.profiles == SetAccuracyScore(old(db.profiles), post.authorId,
                                         AccuracyScore(db.feedback, PostAuthors(old(db.posts)), post.authorId))
    ensures r.Ok? && old(AccuracyConsistent(db.feedback, db.posts, db.profiles)) ==>
      var count := old(db.posts[postId]).accuracyCount + 1;
      db.posts == SetPostAccuracy(old(db.posts), postId, Mean(RatingSum(db.feedback, postId), count), count)
  {
    if postId !in db.posts {
      return Err(AppError(404, "post_not_found"));
    }
    if FindFeedback(db.feedback, userId, postId).Some? {
      return Err(AppError(409, "already_rated"));
    }
    var f := Feedback(userId, postId, rating, note);
    ghost var fs0 := db.feedback;
    if AccuracyConsistent(fs0, db.posts, db.profiles) {
      assert RatingCount(fs0, postId) == db.posts[postId].accuracyCount;
    }
    RatingAdded(db.feedback, f, PostAuthors(db.posts));
    NewFeedbackKeeps(db.feedback, f);
    db.feedback := db.feedback + [f];
    RecountRatings(db, postId, fs0);
    r := Ok(());
  }

  lemma ChangedFeedbackKeeps(fs: seq<Feedback>, i: nat, f: Feedback)
    requires FeedbackUnique(fs) && RatingsInRange(fs) && 1 <= f.rating <= 5
    requires i < |fs| && f.userId == fs[i].userId && f.postId == fs[i].postId
    ensures FeedbackUnique(fs[i := f]) && RatingsInRange(fs[i := f])
  {
  }

  lemma DeletedFeedbackKeeps(fs: seq<Feedback>, i: nat)
    requires FeedbackUnique(fs) && RatingsInRange(fs) && i < |fs|
    ensures FeedbackUnique(fs[..i] + fs[i + 1..]) && RatingsInRange(fs[..i] + fs[i + 1..])
    ensures FindFeedback(fs[..i] + fs[i + 1..], fs[i].userId, fs[i].postId).None?
  {
    var t := fs[..i] + fs[i + 1..];
    assert forall k :: 0 <= k < |t| ==> t[k] == (if k < i then fs[k] else fs[k + 1]);
  }

  /** `update_accuracy_feedback`: 404 when the user has not rated the post;
      otherwise the rating's value and note are replaced and, when the post
      still exists, its count and mean and its author's score are recomputed
      from the ratings (the count as before, the sum taking the new value in
      place of the old one). No notification. */
  method UpdateFeedback(db: Db, userId: Id, postId: Id, rating: int, note: Option<string>) returns (r: Result<()>)
    requires 1 <= rating <= 5
    requires FeedbackUnique(db.feedback) && RatingsInRange(db.feedback)
    modifies db`feedback, db`posts, db`profiles
    ensures FeedbackUnique(db.feedback) && RatingsInRange(db.feedback)
    ensures old(HelpfulConsistent(db.votes, db.posts, db.replies, db.profiles)) ==>
      HelpfulConsistent(db.votes, db.posts, db.replies, db.profiles)
    ensures old(AccuracyConsistent(db.feedback, db.posts, db.profiles)) ==>
      AccuracyConsistent(db.feedback, db.posts, db.profiles)
    ensures r.Err? <==> FindFeedback(old(db.feedback), userId, postId).None?
    ensures r.Err? ==>
      && r.error == AppError(404, "feedback_not_found")
      && db.feedback == old(db.feedback) && db.posts == old(db.posts) && db.profiles == old(db.profiles)
    ensures r.Ok? ==>
      var i := FindFeedback(old(db.feedback), userId, postId).value;
      && db.feedback == old(db.feedback)[i := Feedback(userId, postId, rating, note)]
      && RatingCount(db.feedback, postId) == RatingCount(old(db.feedback), postId)
      && RatingSum(db.feedback, postId) == RatingSum(old(db.feedback), postId) - old(db.feedback[i]).rating + rating
      && (postId !in old(db.posts) ==> db.posts == old(db.posts) && db.profiles == old(db.profiles))
      && (postId in old(db.posts) ==>
            var post := old(db.posts[postId]);
            && db.posts == SetPostAccuracy(old(db.posts), postId,
                 Mean(RatingSum(db.feedback, postId), RatingCount(db.feedback, postId)), RatingCount(db.feedback, postId))
            && db.profiles == SetAccuracyScore(old(db.profiles), post.authorId,
                                               AccuracyScore(db.feedback, PostAuthors(old(db.posts)), post.authorId)))
    ensures r.Ok? && postId in old(db.posts) && old(AccuracyConsistent(db.feedback, db.posts, db.profiles)) ==>
      var count := old(db.posts[postId]).accuracyCount;
      db.posts == SetPostAccuracy(old(db.posts), postId, Mean(RatingSum(db.feedback, postId), count), count)
  {
    var found := FindFeedback(db.feedback, userId, postId);
    if found.None? {
      return Err(AppError(404, "feedback_not_found"));
    }
    var i := found.value;
    var f := Feedback(userId, postId, rating, note);
    ghost var fs0 := db.feedback;
    RatingChanged(db.feedback, i, f, PostAuthors(db.posts));
    ChangedFeedbackKeeps(db.feedback, i, f);
    db.feedback := db.feedback[i := f];
    if postId in db.posts {
      if AccuracyConsistent(fs0, db.posts, db.profiles) {
        assert RatingCount(fs0, postId) == db.posts[postId].accuracyCount;
      }
      RecountRatings(db, postId, fs0);
    } else if AccuracyConsistent(fs0, db.posts, db.profiles) {
      RatingsOnMissing(fs0, db.feedback, db.posts, db.profiles, postId);
    }
    r := Ok(());
  }

  /** `delete_accuracy_feedback`: 404 when the user has not rated the post;
      otherwise the rating is deleted and, when the post still exists, its
      count and mean and its author's score are recomputed from the ratings
      (the count one less than before, the sum leaving the rating out). */
  method DeleteFeedback(db: Db, userId: Id, postId: Id) returns (r: Result<()>)
    requires FeedbackUnique(db.feedback) && RatingsInRange(db.feedback)
    modifies db`feedback, db`posts, db`profiles
    ensures FeedbackUnique(db.feedback) && RatingsInRange(db.feedback)
    ensures old(HelpfulConsistent(db.votes, db.posts, db.replies, db.profiles)) ==>
      HelpfulConsistent(db.votes, db.posts, db.replies, db.profiles)
    ensures old(AccuracyConsistent(db.feedback, db.posts, db.profiles)) ==>
      AccuracyConsistent(db.feedback, db.posts, db.profiles)
    ensures FindFeedback(db.feedback, userId, postId).None?
    ensures r.Err? <==> FindFeedback(old(db.feedback), userId, postId).None?
    ensures r.Err? ==>
      && r.error == AppError(404, "feedback_not_found")
      && db.feedback == old(db.feedback) && db.posts == old(db.posts) && db.profiles == old(db.profiles)
    ensures r.Ok? ==>
      var i := FindFeedback(old(db.feedback), userId, postId).value;
      && db.feedback == old(db.feedback)[..i] + old(db.feedback)[i + 1..]
      && RatingCount(db.feedback, postId) == RatingCount(old(db.feedback), postId) - 1
      && RatingSum(db.feedback, postId) == RatingSum(old(db.feedback), postId) - old(db.feedback[i]).rating
      && (postId !in old(db.posts) ==> db.posts == old(db.posts) && db.profiles == old(db.profiles))
      && (postId in old(db.posts) ==>
            var post := old(db.posts[postId]);
            && db.posts == SetPostAccuracy(old(db.posts), postId,
                 Mean(RatingSum(db.feedback, postId), RatingCount(db.feedback, postId)), RatingCount(db.feedback, postId))
            && db.profiles == SetAccuracyScore(old(db.profiles), post.authorId,
                                               AccuracyScore(db.feedback, PostAuthors(old(db.posts)), post.authorId)))
    ensures r.Ok? && postId in old(db.posts) && old(AccuracyConsistent(db.feedback, db.posts, db.profiles)) ==>
      var count := old(db.posts[postId]).accuracyCount - 1;
      db.posts == SetPostAccuracy(old(db.posts), postId, Mean(RatingSum(db.feedback, postId), count), count)
  {
    var found := FindFeedback(db.feedback, userId, postId);
    if found.None? {
      return Err(AppError(404, "feedback_not_found"));
    }
    var i := found.value;
    ghost var fs0 := db.feedback;
    RatingDeleted(db.feedback, i, PostAuthors(db.posts));
    DeletedFeedbackKeeps(db.feedback, i);
    db.feedback := db.feedback[..i] + db.feedback[i + 1..];
    if postId in db.posts {
      if AccuracyConsistent(fs0, db.posts, db.profiles) {
        assert RatingCount(fs0, postId) == db.posts[postId].accuracyCount;
      }
      RecountRatings(db, postId, fs0);
    } else if AccuracyConsistent(fs0, db.posts, db.profiles) {
      RatingsOnMissing(fs0, db.feedback, db.posts, db.profiles, postId);
    }
    r := Ok(());
  }
}
