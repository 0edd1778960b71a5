/** Automated screening and human review of posts
    (WebSite/BackEnd/app/services/moderation_service.py). */
module ModerationService {
  import opened Common
  import opened Models
  import Settings
  import NotificationService

  /** What the classifier call produced. `Classified` carries the fields read from
      its result with their defaults already applied (a reply that is not JSON
      arrives as risk 0, no labels, `pass`); `AppFailure` is an application
      error with its code, `OtherFailure` any other exception with its class
      name (a risk score that is not an integer fails here too). */
  datatype Classification =
    | Classified(riskScore: int, labels: seq<string>, decision: string, reason: string)
    | AppFailure(code: string)
    | OtherFailure(className: string)

  datatype Screening = Screening(riskScore: int, labels: seq<string>, decision: string, reason: string)

  /** The decision is a function of the score alone. */
  function Decide(score: int, cfg: Settings.Config): (d: string)
    ensures d == "reject" <==> score >= cfg.rejectThreshold
    ensures d == "review" <==> cfg.reviewThreshold <= score < cfg.rejectThreshold
    ensures d == "pass" <==> score < cfg.reviewThreshold && score < cfg.rejectThreshold
  {
    if score >= cfg.rejectThreshold then "reject"
    else if score >= cfg.reviewThreshold then "review"
    else "pass"
  }

  function Severity(d: string): nat {
    if d == "reject" then 2 else if d == "review" then 1 else 0
  }

  /** A higher score never gives a milder decision. */
  lemma DecideMonotone(s1: int, s2: int, cfg: Settings.Config)
    requires s1 <= s2
    ensures Severity(Decide(s1, cfg)) <= Severity(Decide(s2, cfg))
  {
  }

  /** The screening record: the classifier's figures, or a fallback when it
      failed, with the decision recomputed from the score. */
  function Screen(c: Classification, cfg: Settings.Config): (r: Screening)
    ensures r.decision == Decide(r.riskScore, cfg)
    ensures c.Classified? ==> r.riskScore == c.riskScore && r.labels == c.labels && r.reason == c.reason
    ensures c.AppFailure? && c.code == "ai_not_configured" ==>
      r.riskScore == 0 && r.labels == ["ai_disabled"]
    ensures c.AppFailure? && c.code != "ai_not_configured" ==>
      r.riskScore == cfg.reviewThreshold && r.labels == ["ai_error", c.code]
    ensures c.OtherFailure? ==>
      r.riskScore == cfg.reviewThreshold && r.labels == ["ai_error", c.className]
  {
    var (score, labels, reason) :=
      match c
      case Classified(s, l, _, re) => (s, l, re)
      case AppFailure(code) =>
        if code == "ai_not_configured" then (0, ["ai_disabled"], "AI moderation disabled")
        else (cfg.reviewThreshold, ["ai_error", code], "AI moderation unavailable")
      case OtherFailure(name) => (cfg.reviewThreshold, ["ai_error", name], "AI moderation failed");
    Screening(score, labels, Decide(score, cfg), reason)
  }

  /** Thresholds as configured: positive, review below reject. */
  predicate SaneThresholds(cfg: Settings.Config) {
    0 < cfg.reviewThreshold < cfg.rejectThreshold
  }

  /** With the classifier switched off every post passes; any other failure
      sends it to review; the classifier's own decision never counts. */
  lemma {:induction false} FallbackDecisions(c: Classification, cfg: Settings.Config, d: string)
    requires SaneThresholds(cfg)
    ensures c.AppFailure? && c.code == "ai_not_configured" ==> Screen(c, cfg).decision == "pass"
    ensures c.AppFailure? && c.code != "ai_not_configured" ==> Screen(c, cfg).decision == "review"
    ensures c.OtherFailure? ==> Screen(c, cfg).decision == "review"
    ensures c.Classified? ==> Screen(c, cfg) == Screen(c.(decision := d), cfg)
  {
    var r := Screen(c, cfg);
    if c.AppFailure? && c.code != "ai_not_configured" {
      assert r.riskScore == cfg.reviewThreshold;
    }
  }

  /** Under the default settings (60 and 85) a score of 70 is held for review,
      even when the classifier itself said `pass`. */
  lemma DefaultThresholdsExample()
    ensures Screen(Classified(70, [], "pass", ""), Settings.Default).decision == "review"
    ensures Screen(Classified(85, [], "pass", ""), Settings.Default).decision == "reject"
    ensures Screen(Classified(59, [], "reject", ""), Settings.Default).decision == "pass"
  {
  }

  /** The post after screening: published when it passes, pending otherwise
      (a rejected post is not hidden). */
  function AfterScreening(p: Post, decision: string, now: Time): (r: Post)
    ensures decision == "pass" ==> r == Publish(p, now)
    ensures decision != "pass" ==> r == p.(status := "pending")
  {
    if decision == "pass" then Publish(p, now) else p.(status := "pending")
  }

  /** `screen_post`: never fails; appends exactly one log carrying the final
      figures and moves the post accordingly. */
  method ScreenPost(db: Db, postId: Id, title: string, content: string,
                    classify: (string, string) -> Classification, cfg: Settings.Config, now: Time)
    returns (log: ModerationLog)
    requires postId in db.posts
    modifies db`logs, db`posts
    ensures var s := Screen(classify(title, content), cfg);
      log == ModerationLog("post", postId, old(db.posts[postId].authorId), s.riskScore, s.labels, s.decision, s.reason)
    ensures db.logs == old(db.logs) + [log]
    ensures db.posts == old(db.posts)[postId := AfterScreening(old(db.posts[postId]), log.decision, now)]
  {
    var s := Screen(classify(title, content), cfg);
    var post := db.posts[postId];
    log := ModerationLog("post", postId, post.authorId, s.riskScore, s.labels, s.decision, s.reason);
    db.logs := db.logs + [log];
    db.posts := db.posts[postId := AfterScreening(post, s.decision, now)];
  }

  function OptStr(s: Option<string>): Json {
    if s.Some? then JStr(s.value) else JNull
  }

  function ReviewKey(postId: Id, action: string): string {
    "post_review:" + postId + ":" + action
  }

  /** Two different actions on one post carry different dedupe keys, so only a
      repeated action is swallowed by the gate. */
  lemma ReviewKeysDistinct(postId: Id, a1: string, a2: string)
    requires a1 != a2
    ensures ReviewKey(postId, a1) != ReviewKey(postId, a2)
  {
    var n := |"post_review:" + postId + ":"|;
    assert ReviewKey(postId, a1)[n..] == a1 && ReviewKey(postId, a2)[n..] == a2;
  }

  /** `resolve_post_review`: `approve` publishes, `reject` hides; any other action
      fails before anything changes. A success records the action and notifies
      the author. */
  method ResolvePostReview(db: Db, postId: Id, reviewerId: Id, action: string, reason: Option<string>,
                           now: Time, nid: Id)
    returns (r: Result<Post>)
    requires NotificationsConsistent(db.notifications) && NotificationService.IdFresh(db.notifications, nid)
    modifies db`posts, db`actions, db`notifications
    ensures NotificationsConsistent(db.notifications)
    ensures postId !in old(db.posts) ==> r == Err(AppError(404, "post_not_found"))
    ensures postId in old(db.posts) && action != "approve" && action != "reject" ==>
      r == Err(AppError(400, "invalid_action"))
    ensures r.Err? ==>
      db.posts == old(db.posts) && db.actions == old(db.actions) && db.notifications == old(db.notifications)
    ensures r.Ok? <==> postId in old(db.posts) && (action == "approve" || action == "reject")
    ensures r.Ok? ==>
      && r.value == (if action == "approve" then Publish(old(db.posts[postId]), now)
                     else old(db.posts[postId]).(status := "hidden"))
      && db.posts == old(db.posts)[postId := r.value]
      && db.actions == old(db.actions) + [ModerationAction(reviewerId, "post", postId, action, reason)]
      && db.notifications == NotificationService.Create(old(db.notifications), r.value.authorId,
           "post_reviewed", ReviewPayload(old(db.translations), postId, r.value, action, reason),
           Some(ReviewKey(postId, action)), nid).1
  {
    if postId !in db.posts {
      return Err(AppError(404, "post_not_found"));
    }
    var post := db.posts[postId];
    if action == "approve" {
      post := Publish(post, now);
    } else if action == "reject" {
      post := post.(status := "hidden");
    } else {
      return Err(AppError(400, "invalid_action"));
    }
    db.posts := db.posts[postId := post];
    db.actions := db.actions + [ModerationAction(reviewerId, "post", postId, action, reason)];
    var _ := NotificationService.CreateNotification(db, post.authorId, "post_reviewed",
      ReviewPayload(db.translations, postId, post, action, reason), Some(ReviewKey(postId, action)), nid);
    r := Ok(post);
  }

  /** The review notification's payload; the title is that of the original
      language, or null when that translation is missing. */
  function ReviewPayload(ts: seq<PostTranslation>, postId: Id, post: Post, action: string,
                         reason: Option<string>): Option<Payload>
  {
    Some(map["post_id" := JStr(postId),
             "post_title" := TitleIn(ts, postId, post.originalLanguage),
             "status" := JStr(post.status),
             "action" := JStr(action),
             "reason" := OptStr(reason)])
  }

  /** `resolve_appeal`: overwrites status, reviewer and review time, even on an
      appeal already resolved; the user is notified once per appeal. */
  method ResolveAppeal(db: Db, appealId: Id, reviewerId: Id, status: string, now: Time, nid: Id)
    returns (r: Result<Appeal>)
    requires NotificationsConsistent(db.notifications) && NotificationService.IdFresh(db.notifications, nid)
    modifies db`appeals, db`notifications
    ensures NotificationsConsistent(db.notifications)
    ensures appealId !in old(db.appeals) <==> r == Err(AppError(404, "appeal_not_found"))
    ensures r.Err? ==> db.appeals == old(db.appeals) && db.notifications == old(db.notifications)
    ensures r.Ok? ==>
      && r.value == old(db.appeals[appealId]).(status := status, reviewerId := Some(reviewerId), reviewedAt := Some(now))
      && db.appeals == old(db.appeals)[appealId := r.value]
      && db.notifications == NotificationService.Create(old(db.notifications), r.value.userId, "appeal_resolved",
           Some(map["appeal_id" := JStr(appealId), "status" := JStr(status)]), Some(appealId), nid).1
  {
    if appealId !in db.appeals {
      return Err(AppError(404, "appeal_not_found"));
    }
    var appeal := db.appeals[appealId].(status := status, reviewerId := Some(reviewerId), reviewedAt := Some(now));
    db.appeals := db.appeals[appealId := appeal];
    var _ := NotificationService.CreateNotification(db, appeal.userId, "appeal_resolved",
      Some(map["appeal_id" := JStr(appealId), "status" := JStr(status)]), Some(appealId), nid);
    r := Ok(appeal);
  }
}
