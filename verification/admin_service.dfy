/** Administrators setting the status of accounts, posts and replies
    (WebSite/BackEnd/app/services/admin_service.py). Each change is audited by
    one `log_action` record (WebSite/BackEnd/app/services/audit_service.py). */
module AdminService {
  import opened Common
  import opened Models
  import NotificationService
  import Strings

  /** `log_action`'s row. */
  function Audit(adminId: Id, targetType: string, targetId: Id, action: string, reason: Option<string>): ModerationAction {
    ModerationAction(adminId, targetType, targetId, action, reason)
  }

  /** The dedupe key of an account-status notification: one per user and status. */
  function AccountStatusKey(userId: Id, status: string): string {
    "account_status:" + userId + ":" + status
  }

  /** Different users or different statuses never share a key, so each
      (user, status) pair is notified on its own. */
  lemma AccountStatusKeyInjective(u1: Id, s1: string, u2: Id, s2: string)
    requires ':' !in u1 && ':' !in u2
    ensures AccountStatusKey(u1, s1) == AccountStatusKey(u2, s2) <==> u1 == u2 && s1 == s2
  {
    var k1, k2 := AccountStatusKey(u1, s1), AccountStatusKey(u2, s2);
    var prefix := "account_status:";
    if k1 == k2 {
      assert k1[|prefix|..] == u1 + ":" + s1;
      assert k2[|prefix|..] == u2 + ":" + s2;
      ColonSplit(u1, s1, u2, s2);
    }
  }

  /** Text before the first ':' of `u + ":" + s` is `u` when `u` has none. */
  lemma ColonSplit(u1: string, s1: string, u2: string, s2: string)
    requires ':' !in u1 && ':' !in u2
    requires u1 + ":" + s1 == u2 + ":" + s2
    ensures u1 == u2 && s1 == s2
  {
    var k := u1 + ":" + s1;
    Strings.IndexOfJoined(u1, ':', s1);
    Strings.IndexOfJoined(u2, ':', s2);
    assert |u1| == |u2|;
    assert u1 == k[..|u1|];
    assert u2 == (u2 + ":" + s2)[..|u2|];
    assert s1 == k[|u1| + 1..];
    assert s2 == (u2 + ":" + s2)[|u2| + 1..];
  }

  /** `set_user_status`: 404 for an unknown user; otherwise the status is
      written, `user_{status}` is audited and the user is told through an
      `account_status` notification keyed by user and status. */
  method SetUserStatus(db: Db, userId: Id, status: string, adminId: Id, nid: Id) returns (r: Result<User>)
    requires NotificationsConsistent(db.notifications) && NotificationService.IdFresh(db.notifications, nid)
    modifies db`users, db`actions, db`notifications
    ensures NotificationsConsistent(db.notifications)
    ensures r.Err? <==> userId !in old(db.users)
    ensures r.Err? ==>
      && r.error == AppError(404, "user_not_found")
      && db.users == old(db.users) && db.actions == old(db.actions) && db.notifications == old(db.notifications)
    ensures r.Ok? ==>
      && r.value == old(db.users[userId]).(status := status)
      && db.users == old(db.users)[userId := r.value]
      && db.actions == old(db.actions) + [Audit(adminId, "user", userId, "user_" + status, None)]
      && db.notifications == NotificationService.Create(old(db.notifications), userId, "account_status",
           Some(map["status" := JStr(status)]), Some(AccountStatusKey(userId, status)), nid).1
  {
    if userId !in db.users {
      return Err(AppError(404, "user_not_found"));
    }
    var user := db.users[userId].(status := status);
    db.users := db.users[userId := user];
    db.actions := db.actions + [Audit(adminId, "user", userId, "user_" + status, None)];
    var _ := NotificationService.CreateNotification(db, userId, "account_status", Some(map["status" := JStr(status)]),
                                                    Some(AccountStatusKey(userId, status)), nid);
    r := Ok(user);
  }

  /** The notification rows after a sequence of status changes of one user. */
  function StatusNotices(rows: seq<Notification>, userId: Id, statuses: seq<string>, ids: seq<Id>): seq<Notification>
    requires |ids| == |statuses|
    decreases |statuses|
  {
    if statuses == [] then rows
    else StatusNotices(NotificationService.Create(rows, userId, "account_status",
                                                  Some(map["status" := JStr(statuses[0])]),
                                                  Some(AccountStatusKey(userId, statuses[0])), ids[0]).1,
                       userId, statuses[1..], ids[1..])
  }

  /** Once a user has been told of a status, being set to it again later, after
      any other changes, tells them nothing new: banning, unbanning and banning
      again notifies of the second ban not at all. */
  lemma {:induction false} StatusNotifiedOnce(rows: seq<Notification>, userId: Id, statuses: seq<string>,
                                              ids: seq<Id>, status: string, nid: Id)
    requires |ids| == |statuses|
    requires NotificationService.SlotTaken(rows, userId, "account_status", AccountStatusKey(userId, status))
    ensures var after := StatusNotices(rows, userId, statuses, ids);
      NotificationService.Create(after, userId, "account_status", Some(map["status" := JStr(status)]),
                                 Some(AccountStatusKey(userId, status)), nid).1 == after
    decreases |statuses|
  {
    var key := AccountStatusKey(userId, status);
    assert key != "" by { assert |key| > 0; }
    if statuses != [] {
      var k0 := AccountStatusKey(userId, statuses[0]);
      assert k0 != "" by { assert |k0| > 0; }
      NotificationService.CreateKeepsSlot(rows, userId, "account_status", Some(map["status" := JStr(statuses[0])]),
                                          k0, ids[0], userId, "account_status", key);
      StatusNotifiedOnce(NotificationService.Create(rows, userId, "account_status",
                                                    Some(map["status" := JStr(statuses[0])]), Some(k0), ids[0]).1,
                         userId, statuses[1..], ids[1..], status, nid);
    }
  }

  /** The post after `admin_set_post_status`: any status is written, and
      `published_at` is stamped only on the first publication. */
  function SetPostStatus(p: Post, status: string, now: Time): (r: Post)
    ensures r.status == status
    ensures status == "published" ==> r == Publish(p, now)
    ensures status != "published" ==> r == p.(status := status)
    ensures p.publishedAt.Some? ==> r.publishedAt == p.publishedAt
  {
    p.(status := status, publishedAt := if status == "published" && p.publishedAt.None? then Some(now) else p.publishedAt)
  }

  /** `published_at` is set once: whatever statuses an admin sets afterwards, it
      keeps the time of the first publication. */
  lemma {:induction false} PublishedAtSetOnce(p: Post, statuses: seq<string>, times: seq<Time>)
    requires |times| == |statuses|
    requires p.publishedAt.Some?
    ensures SetPostStatuses(p, statuses, times).publishedAt == p.publishedAt
    decreases |statuses|
  {
    if statuses != [] {
      PublishedAtSetOnce(SetPostStatus(p, statuses[0], times[0]), statuses[1..], times[1..]);
    }
  }

  /** A post after a series of admin status changes. */
  function SetPostStatuses(p: Post, statuses: seq<string>, times: seq<Time>): Post
    requires |times| == |statuses|
    decreases |statuses|
  {
    if statuses == [] then p else SetPostStatuses(SetPostStatus(p, statuses[0], times[0]), statuses[1..], times[1..])
  }

  /** `admin_set_post_status`: 404 for an unknown post; otherwise the status is
      written (with `published_at` set once) and `post_{status}` is audited
      with the given reason. */
  method AdminSetPostStatus(db: Db, postId: Id, adminId: Id, status: string, reason: Option<string>, now: Time)
    returns (r: Result<Post>)
    modifies db`posts, db`actions
    ensures r.Err? <==> postId !in old(db.posts)
    ensures r.Err? ==>
      r.error == AppError(404, "post_not_found") && db.posts == old(db.posts) && db.actions == old(db.actions)
    ensures r.Ok? ==>
      && r.value == SetPostStatus(old(db.posts[postId]), status, now)
      && db.posts == old(db.posts)[postId := r.value]
      && db.actions == old(db.actions) + [Audit(adminId, "post", postId, "post_" + status, reason)]
  {
    if postId !in db.posts {
      return Err(AppError(404, "post_not_found"));
    }
    var post := db.posts[postId].(status := status);
    if status == "published" && post.publishedAt.None? {
      post := post.(publishedAt := Some(now));
    }
    db.posts := db.posts[postId := post];
    db.actions := db.actions + [Audit(adminId, "post", postId, "post_" + status, reason)];
    r := Ok(post);
  }

  /** `admin_set_reply_status`: 404 for an unknown reply; otherwise the status
      is written as given (nothing limits it to visible or hidden) and
      `reply_{status}` is audited with the given reason. */
  method AdminSetReplyStatus(db: Db, replyId: Id, adminId: Id, status: string, reason: Option<string>)
    returns (r: Result<Reply>)
    modifies db`replies, db`actions
    ensures r.Err? <==> replyId !in old(db.replies)
    ensures r.Err? ==>
      r.error == AppError(404, "reply_not_found") && db.replies == old(db.replies) && db.actions == old(db.actions)
    ensures r.Ok? ==>
      && r.value == old(db.replies[replyId]).(status := status)
      && db.replies == old(db.replies)[replyId := r.value]
      && db.actions == old(db.actions) + [Audit(adminId, "reply", replyId, "reply_" + status, reason)]
  {
    if replyId !in db.replies {
      return Err(AppError(404, "reply_not_found"));
    }
    var reply := db.replies[replyId].(status := status);
    db.replies := db.replies[replyId := reply];
    db.actions := db.actions + [Audit(adminId, "reply", replyId, "reply_" + status, reason)];
    r := Ok(reply);
  }
}
