/** User reports of posts and replies and their resolution by a moderator
    (WebSite/BackEnd/app/services/report_service.py). A report remembers the
    target's status when it was filed, so that `restore` can put it back. */
module ReportService {
  import opened Common
  import opened Models
  import opened Strings
  import NotificationService

  /** `_get_target_status`: the target's current status, or null when it does
      not exist or the type is neither post nor reply. */
  function TargetStatus(posts: map<Id, Post>, replies: map<Id, Reply>, targetType: string, targetId: Id)
    : (r: Option<string>)
    ensures r.Some? <==> (targetType == "post" && targetId in posts) || (targetType == "reply" && targetId in replies)
  {
    if targetType == "post" then (if targetId in posts then Some(posts[targetId].status) else None)
    else if targetType == "reply" then (if targetId in replies then Some(replies[targetId].status) else None)
    else None
  }

  /** `_get_target_author`: the target's author, or null when it does not
      exist or the type is neither post nor reply. */
  function TargetAuthor(posts: map<Id, Post>, replies: map<Id, Reply>, targetType: string, targetId: Id)
    : (r: Option<Id>)
    ensures r.Some? <==> TargetStatus(posts, replies, targetType, targetId).Some?
  {
    if targetType == "post" then (if targetId in posts then Some(posts[targetId].authorId) else None)
    else if targetType == "reply" then (if targetId in replies then Some(replies[targetId].authorId) else None)
    else None
  }

  /** The status `restore` writes: the recorded one, or "published" when none
      was recorded (Python's `or` also skips the empty string). */
  function RestoreStatus(original: Option<string>): string {
    if original.Some? && original.value != "" then original.value else "published"
  }

  /** A reply stores only `hidden` or `visible`. */
  function ReplyStatus(status: string): string {
    if status == "hidden" then "hidden" else "visible"
  }

  /** `_apply_content_status` on the post and reply tables: 404 for a missing
      target, the new status on the target otherwise; a type that is neither
      post nor reply changes nothing. */
  function ApplyContent(posts: map<Id, Post>, replies: map<Id, Reply>, targetType: string, targetId: Id,
                        status: string): Result<(map<Id, Post>, map<Id, Reply>)>
  {
    if targetType == "post" then
      if targetId !in posts then Err(AppError(404, "post_not_found"))
      else Ok((posts[targetId := posts[targetId].(status := status)], replies))
    else if targetType == "reply" then
      if targetId !in replies then Err(AppError(404, "reply_not_found"))
      else Ok((posts, replies[targetId := replies[targetId].(status := ReplyStatus(status))]))
    else Ok((posts, replies))
  }

  /** Applying a status fails exactly on a missing post or reply; otherwise only
      the target's status moves, to the given status (for a reply, to `hidden`
      or `visible`), and the target's status is then what `_get_target_status`
      reads back. */
  lemma ApplyContentShape(posts: map<Id, Post>, replies: map<Id, Reply>, targetType: string, targetId: Id,
                          status: string)
    ensures var r := ApplyContent(posts, replies, targetType, targetId, status);
      && (r.Err? <==> (targetType == "post" && targetId !in posts) || (targetType == "reply" && targetId !in replies))
      && (r.Ok? && targetType == "post" ==>
            && r.value.1 == replies && r.value.0.Keys == posts.Keys
            && TargetStatus(r.value.0, r.value.1, targetType, targetId) == Some(status)
            && (forall p :: p in posts && p != targetId ==> r.value.0[p] == posts[p])
            && r.value.0[targetId] == posts[targetId].(status := status))
      && (r.Ok? && targetType == "reply" ==>
            && r.value.0 == posts && r.value.1.Keys == replies.Keys
            && TargetStatus(r.value.0, r.value.1, targetType, targetId) == Some(ReplyStatus(status))
            && (forall p :: p in replies && p != targetId ==> r.value.1[p] == replies[p])
            && r.value.1[targetId] == replies[targetId].(status := ReplyStatus(status)))
      && (r.Ok? && targetType != "post" && targetType != "reply" ==> r.value == (posts, replies))
  {
  }

  /** Applying a status keeps every target's author, so the author
      `resolve_report` looks up afterwards is the one the report was about. */
  lemma ApplyKeepsAuthors(posts: map<Id, Post>, replies: map<Id, Reply>, targetType: string, targetId: Id,
                          status: string, tt: string, t: Id)
    requires ApplyContent(posts, replies, targetType, targetId, status).Ok?
    ensures var after := ApplyContent(posts, replies, targetType, targetId, status).value;
      TargetAuthor(after.0, after.1, tt, t) == TargetAuthor(posts, replies, tt, t)
  {
  }

  /** Hiding a target and then restoring it from the status recorded before the
      hide gives back the tables as they were, whenever a reply's recorded
      status is one a reply can hold and a post's is not empty. */
  lemma HideThenRestore(posts: map<Id, Post>, replies: map<Id, Reply>, targetType: string, targetId: Id)
    requires TargetStatus(posts, replies, targetType, targetId).Some?
    requires TargetStatus(posts, replies, targetType, targetId).value != ""
    requires targetType == "reply" ==> replies[targetId].status in {"hidden", "visible"}
    ensures var hidden := ApplyContent(posts, replies, targetType, targetId, "hidden");
      && hidden.Ok?
      && TargetStatus(hidden.value.0, hidden.value.1, targetType, targetId) == Some("hidden")
      && ApplyContent(hidden.value.0, hidden.value.1, targetType, targetId,
                      RestoreStatus(TargetStatus(posts, replies, targetType, targetId))) == Ok((posts, replies))
  {
    var hidden := ApplyContent(posts, replies, targetType, targetId, "hidden");
    if targetType == "post" {
      var p := posts[targetId];
      assert hidden.value.0[targetId := p] == posts;
    } else {
      var p := replies[targetId];
      assert hidden.value.1[targetId := p] == replies;
    }
  }

  /** The method behind `_apply_content_status`. */
  method ApplyContentStatus(db: Db, targetType: string, targetId: Id, status: string) returns (r: Result<()>)
    modifies db`posts, db`replies
    ensures var spec := ApplyContent(old(db.posts), old(db.replies), targetType, targetId, status);
      && (r.Err? <==> spec.Err?)
      && (r.Err? ==> r.error == spec.error && db.posts == old(db.posts) && db.replies == old(db.replies))
      && (r.Ok? ==> (db.posts, db.replies) == spec.value)
  {
    if targetType == "post" {
      if targetId !in db.posts {
        return Err(AppError(404, "post_not_found"));
      }
      db.posts := db.posts[targetId := db.posts[targetId].(status := status)];
    }
    if targetType == "reply" {
      if targetId !in db.replies {
        return Err(AppError(404, "reply_not_found"));
      }
      db.replies := db.replies[targetId := db.replies[targetId].(status := if status == "hidden" then "hidden" else "visible")];
    }
    r := Ok(());
  }

  /** `create_report`: 400 for a target type other than post or reply;
      otherwise a pending report recording the target's current status, or
      null when the target does not exist (the report is filed regardless). */
  method CreateReport(db: Db, reporterId: Id, targetType: string, targetId: Id, reason: string,
                      evidence: Option<string>, newId: Id)
    returns (r: Result<Report>)
    requires newId !in db.reports
    modifies db`reports
    ensures r.Err? <==> targetType != "post" && targetType != "reply"
    ensures r.Err? ==> r.error == AppError(400, "invalid_target") && db.reports == old(db.reports)
    ensures r.Ok? ==>
      && r.value.status == "pending" && r.value.resolvedAt.None?
      && r.value == Report(reporterId, targetType, targetId, reason, evidence, r.value.originalStatus, "pending", None)
      && (targetType == "post" ==>
            r.value.originalStatus == if targetId in old(db.posts) then Some(old(db.posts[targetId]).status) else None)
      && (targetType == "reply" ==>
            r.value.originalStatus == if targetId in old(db.replies) then Some(old(db.replies[targetId]).status) else None)
      && db.reports == old(db.reports)[newId := r.value]
  {
    if targetType != "post" && targetType != "reply" {
      return Err(AppError(400, "invalid_target"));
    }
    var report := Report(reporterId, targetType, targetId, reason, evidence,
                         TargetStatus(db.posts, db.replies, targetType, targetId), "pending", None);
    db.reports := db.reports[newId := report];
    r := Ok(report);
  }

  /** The payload both resolution notifications carry: the original-language
      title of a reported post, or the excerpt of a reported reply. */
  function ResultPayload(reportId: Id, report: Report, posts: map<Id, Post>, ts: seq<PostTranslation>,
                         replies: map<Id, Reply>): Option<Payload>
  {
    var title := if report.targetType == "post" && report.targetId in posts
                 then TitleIn(ts, report.targetId, posts[report.targetId].originalLanguage) else JNull;
    var excerpt := if report.targetType == "reply" && report.targetId in replies
                   then JStr(Excerpt(replies[report.targetId].content)) else JNull;
    Some(map["report_id" := JStr(reportId), "status" := JStr(report.status),
             "target_type" := JStr(report.targetType), "post_title" := title, "reply_excerpt" := excerpt])
  }

  /** The notification table after a resolution: the reporter's
      `report_resolved` (keyed by the report id), then the author's
      `report_result` (keyed `{id}:author`) when the target has a non-empty
      author other than the reporter. */
  function NotifyParties(rows: seq<Notification>, reportId: Id, reporterId: Id, author: Option<Id>,
                         payload: Option<Payload>, nid1: Id, nid2: Id): seq<Notification>
  {
    var first := NotificationService.Create(rows, reporterId, "report_resolved", payload, Some(reportId), nid1).1;
    if author.Some? && author.value != "" && author.value != reporterId then
      NotificationService.Create(first, author.value, "report_result", payload, Some(reportId + ":author"), nid2).1
    else first
  }

  /** Resolving the same report again, with any outcome, notifies nobody again:
      both keys are already taken, so the table stays as the first resolution
      left it. */
  lemma {:induction false} NotifiedOnce(rows: seq<Notification>, reportId: Id, reporterId: Id, author: Option<Id>,
                                        p1: Option<Payload>, p2: Option<Payload>, n1: Id, n2: Id, m1: Id, m2: Id)
    requires reportId != ""
    ensures var once := NotifyParties(rows, reportId, reporterId, author, p1, n1, n2);
      NotifyParties(once, reportId, reporterId, author, p2, m1, m2) == once
  {
    var first := NotificationService.Create(rows, reporterId, "report_resolved", p1, Some(reportId), n1).1;
    NotificationService.CreateFillsSlot(rows, reporterId, "report_resolved", p1, reportId, n1);
    var once := NotifyParties(rows, reportId, reporterId, author, p1, n1, n2);
    var authorKey := reportId + ":author";
    assert authorKey != "" by { assert |authorKey| > 0; }
    if author.Some? && author.value != "" && author.value != reporterId {
      NotificationService.CreateKeepsSlot(first, author.value, "report_result", p1, authorKey, n2, reporterId, "report_resolved", reportId);
      assert NotificationService.SlotTaken(once, author.value, "report_result", authorKey);
    }
    assert NotificationService.SlotTaken(once, reporterId, "report_resolved", reportId);
    var again := NotificationService.Create(once, reporterId, "report_resolved", p2, Some(reportId), m1).1;
    assert again == once;
  }

  method NotifyReportParties(db: Db, reportId: Id, reporterId: Id, author: Option<Id>, payload: Option<Payload>,
                             nid1: Id, nid2: Id)
    requires NotificationsConsistent(db.notifications)
    requires NotificationService.IdFresh(db.notifications, nid1) && NotificationService.IdFresh(db.notifications, nid2)
    requires nid1 != nid2
    modifies db`notifications
    ensures NotificationsConsistent(db.notifications)
    ensures db.notifications == NotifyParties(old(db.notifications), reportId, reporterId, author, payload, nid1, nid2)
  {
    var _ := NotificationService.CreateNotification(db, reporterId, "report_resolved", payload, Some(reportId), nid1);
    if author.Some? && author.value != "" && author.value != reporterId {
      var _ := NotificationService.CreateNotification(db, author.value, "report_result", payload,
                                                      Some(reportId + ":author"), nid2);
    }
  }

  /** The report after `resolve_report` with a valid action. */
  function Resolved(report: Report, action: string, now: Time): Report {
    report.(status := if action == "reject" then "rejected" else "resolved", resolvedAt := Some(now))
  }

  /** The status `hide` or `restore` writes to the target. */
  function Written(action: string, report: Report): string {
    if action == "hide" then "hidden" else RestoreStatus(report.originalStatus)
  }

  /** `resolve_report`: 404 for an unknown report and 400 for an action other
      than hide, restore or reject, before anything changes; hide and restore
      then set the target's status and fail with 404 when it no longer
      exists; reject leaves it alone. The report is resolved or rejected and
      stamped, one `report_{action}` record is added, and the reporter and the
      target's author are notified. Nothing checks that the report is still
      pending. */
  method ResolveReport(db: Db, reportId: Id, moderatorId: Id, action: string, note: Option<string>, now: Time,
                       nid1: Id, nid2: Id)
    returns (r: Result<Report>)
    requires NotificationsConsistent(db.notifications)
    requires NotificationService.IdFresh(db.notifications, nid1) && NotificationService.IdFresh(db.notifications, nid2)
    requires nid1 != nid2
    modifies db`reports, db`posts, db`replies, db`actions, db`notifications
    ensures NotificationsConsistent(db.notifications)
    ensures reportId !in old(db.reports) ==> r == Err(AppError(404, "report_not_found"))
    ensures reportId in old(db.reports) && action !in {"hide", "restore", "reject"} ==>
      r == Err(AppError(400, "invalid_action"))
    ensures reportId in old(db.reports) && (action == "hide" || action == "restore") ==>
      var report := old(db.reports[reportId]);
      var applied := ApplyContent(old(db.posts), old(db.replies), report.targetType, report.targetId,
                                  Written(action, report));
      && (applied.Err? ==> r == Err(applied.error))
      && (r.Ok? ==> applied.Ok? && (db.posts, db.replies) == applied.value)
    ensures r.Err? ==>
      && db.reports == old(db.reports) && db.posts == old(db.posts) && db.replies == old(db.replies)
      && db.actions == old(db.actions) && db.notifications == old(db.notifications)
    ensures r.Ok? ==>
      var report := old(db.reports[reportId]);
      && reportId in old(db.reports) && action in {"hide", "restore", "reject"}
      && r.value == Resolved(report, action, now)
      && db.reports == old(db.reports)[reportId := r.value]
      && (action == "reject" ==> db.posts == old(db.posts) && db.replies == old(db.replies))
      && db.actions == old(db.actions) + [ModerationAction(moderatorId, report.targetType, report.targetId,
                                                           "report_" + action, note)]
      && db.notifications == NotifyParties(old(db.notifications), reportId, report.reporterId,
           TargetAuthor(db.posts, db.replies, report.targetType, report.targetId),
           ResultPayload(reportId, r.value, db.posts, db.translations, db.replies), nid1, nid2)
  {
    if reportId !in db.reports {
      return Err(AppError(404, "report_not_found"));
    }
    if action !in {"hide", "restore", "reject"} {
      return Err(AppError(400, "invalid_action"));
    }
    var report := db.reports[reportId];
    if action == "hide" || action == "restore" {
      var applied := ApplyContentStatus(db, report.targetType, report.targetId, Written(action, report));
      if applied.Err? {
        return Err(applied.error);
      }
    }
    var resolved := Resolved(report, action, now);
    db.reports := db.reports[reportId := resolved];
    db.actions := db.actions + [ModerationAction(moderatorId, report.targetType, report.targetId,
                                                 "report_" + action, note)];
    NotifyReportParties(db, reportId, report.reporterId,
                        TargetAuthor(db.posts, db.replies, report.targetType, report.targetId),
                        ResultPayload(reportId, resolved, db.posts, db.translations, db.replies), nid1, nid2);
    r := Ok(resolved);
  }
}
