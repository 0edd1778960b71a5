/** Replies under a post (WebSite/BackEnd/app/services/reply_service.py):
    who may reply, the listing a reader sees, author edits and deletes, and the
    moderators' hide and restore. */
module ReplyService {
  import opened Common
  import opened Models
  import opened Strings
  import Query
  import NotificationService

  /** `create_reply`'s gate: anyone may reply to a published post; on a post in
      any other status only its author or an admin may. */
  predicate MayReply(post: Post, authorId: Id, isAdmin: bool) {
    post.status == "published" || post.authorId == authorId || isAdmin
  }

  /** The `reply_created` payload for the post's author. */
  function ReplyCreatedPayload(postId: Id, replyId: Id, title: Json, content: string, authorName: Json): Option<Payload> {
    Some(map["post_id" := JStr(postId), "reply_id" := JStr(replyId), "post_title" := title,
             "reply_excerpt" := JStr(Excerpt(content)), "from_user_name" := authorName])
  }

  /** `create_reply`: 404 when the post is missing or the caller may not reply
      to it, otherwise a new visible reply, and a `reply_created` notification
      to the post's author (also when they reply to themselves) keyed
      `reply:{id}`. */
  method CreateReply(db: Db, postId: Id, authorId: Id, content: string, isAdmin: bool, now: Time,
                     newId: Id, nid: Id)
    returns (r: Result<Reply>)
    requires newId !in db.replies
    requires NotificationsConsistent(db.notifications) && NotificationService.IdFresh(db.notifications, nid)
    modifies db`replies, db`notifications
    ensures NotificationsConsistent(db.notifications)
    ensures r.Err? <==> postId !in old(db.posts) || !MayReply(old(db.posts[postId]), authorId, isAdmin)
    ensures r.Err? ==>
      r.error == AppError(404, "post_not_found") &&
      db.replies == old(db.replies) && db.notifications == old(db.notifications)
    ensures r.Ok? ==>
      var post := db.posts[postId];
      && r.value == NewReply(postId, authorId, content, now)
      && r.value.status == "visible" && r.value.helpfulCount == 0
      && db.replies == old(db.replies)[newId := r.value]
      && db.notifications == NotificationService.Create(old(db.notifications), post.authorId, "reply_created",
           ReplyCreatedPayload(postId, newId, TitleIn(db.translations, postId, post.originalLanguage), content,
                               DisplayName(db.profiles, authorId)),
           Some("reply:" + newId), nid).1
  {
    if postId !in db.posts {
      return Err(AppError(404, "post_not_found"));
    }
    var post := db.posts[postId];
    if post.status != "published" && post.authorId != authorId && !isAdmin {
      return Err(AppError(404, "post_not_found"));
    }
    var reply := NewReply(postId, authorId, content, now);
    db.replies := db.replies[newId := reply];
    var payload := ReplyCreatedPayload(postId, newId, TitleIn(db.translations, postId, post.originalLanguage),
                                       content, DisplayName(db.profiles, authorId));
    var _ := NotificationService.CreateNotification(db, post.authorId, "reply_created", payload,
                                                    Some("reply:" + newId), nid);
    r := Ok(reply);
  }

  // ---- Listing ----

  /** The rows a query sees, in the (unspecified) order the table is scanned:
      the ids of `scan` that name a reply. */
  function ReplyRows(replies: map<Id, Reply>, scan: seq<Id>): (rows: seq<(Id, Reply)>)
    ensures |rows| <= |scan|
    ensures forall x :: x in rows <==> x.0 in scan && x.0 in replies && x.1 == replies[x.0]
  {
    if scan == [] then []
    else if scan[0] in replies then [(scan[0], replies[scan[0]])] + ReplyRows(replies, scan[1..])
    else ReplyRows(replies, scan[1..])
  }

  /** The `WHERE` clause of `list_replies`. */
  predicate Shown(reply: Reply, postId: Id, includeHidden: bool) {
    reply.postId == postId && (includeHidden || reply.status == "visible")
  }

  function Matching(rows: seq<(Id, Reply)>, postId: Id, includeHidden: bool): (m: seq<(Id, Reply)>)
    ensures |m| <= |rows|
    ensures forall x :: x in m <==> x in rows && Shown(x.1, postId, includeHidden)
  {
    if rows == [] then []
    else if Shown(rows[0].1, postId, includeHidden) then [rows[0]] + Matching(rows[1..], postId, includeHidden)
    else Matching(rows[1..], postId, includeHidden)
  }

  /** `ORDER BY created_at ASC`. */
  predicate EarlierFirst(a: (Id, Reply), b: (Id, Reply)) {
    a.1.createdAt <= b.1.createdAt
  }

  lemma EarlierFirstPreorder()
    ensures Query.TotalPreorder(EarlierFirst)
  {
  }

  /** `list_replies`: the post's replies, only the visible ones unless hidden
      ones are asked for, oldest first, windowed by limit and offset. */
  function ListReplies(replies: map<Id, Reply>, scan: seq<Id>, postId: Id, includeHidden: bool,
                       limit: nat, offset: nat): (r: seq<(Id, Reply)>)
    ensures |r| <= limit
    ensures forall i :: 0 <= i < |r| ==>
      r[i].0 in replies && r[i].1 == replies[r[i].0] && Shown(r[i].1, postId, includeHidden)
    ensures Query.SortedBy(r, EarlierFirst)
  {
    EarlierFirstPreorder();
    var matching := Matching(ReplyRows(replies, scan), postId, includeHidden);
    var sorted := Query.SortBy(matching, EarlierFirst);
    var r := Query.Window(sorted, limit, offset);
    WindowOfSorted(matching, sorted, r, offset);
    r
  }

  lemma WindowOfSorted(matching: seq<(Id, Reply)>, sorted: seq<(Id, Reply)>, r: seq<(Id, Reply)>, offset: nat)
    requires multiset(sorted) == multiset(matching) && Query.SortedBy(sorted, EarlierFirst)
    requires forall i :: 0 <= i < |r| ==> offset + i < |sorted| && r[i] == sorted[offset + i]
    ensures forall i :: 0 <= i < |r| ==> r[i] in matching
    ensures Query.SortedBy(r, EarlierFirst)
  {
    forall i | 0 <= i < |r|
      ensures r[i] in matching
    {
      var x := r[i];
      assert x == sorted[offset + i];
      assert x in multiset(sorted);
    }
    forall i, j | 0 <= i < j < |r|
      ensures EarlierFirst(r[i], r[j])
    {
      var x, y := r[i], r[j];
      assert x == sorted[offset + i];
      assert y == sorted[offset + j];
    }
  }

  /** With a window wide enough, every reply the filter admits is listed. */
  lemma {:induction false} ListRepliesComplete(replies: map<Id, Reply>, scan: seq<Id>, postId: Id,
                                               includeHidden: bool, limit: nat)
    requires forall id :: id in replies ==> id in scan
    requires limit >= |scan|
    ensures forall id :: id in replies && Shown(replies[id], postId, includeHidden) ==>
      (id, replies[id]) in ListReplies(replies, scan, postId, includeHidden, limit, 0)
  {
    EarlierFirstPreorder();
    var matching := Matching(ReplyRows(replies, scan), postId, includeHidden);
    var sorted := Query.SortBy(matching, EarlierFirst);
    var listed := ListReplies(replies, scan, postId, includeHidden, limit, 0);
    assert listed == sorted;
    forall id | id in replies && Shown(replies[id], postId, includeHidden)
      ensures (id, replies[id]) in listed
    {
      assert (id, replies[id]) in matching;
      assert (id, replies[id]) in multiset(sorted);
    }
  }

  // ---- Author edits ----

  /** The fields a `ReplyUpdateRequest` supplies (`exclude_unset`). */
  datatype ReplyUpdate = ReplyUpdate(content: Option<string>, status: Option<string>)

  /** The `setattr` loop: each supplied field overwrites the stored one. */
  function ApplyUpdate(reply: Reply, u: ReplyUpdate): (r: Reply)
    ensures r.postId == reply.postId && r.authorId == reply.authorId
    ensures r.helpfulCount == reply.helpfulCount && r.createdAt == reply.createdAt
    ensures r.content == (if u.content.Some? then u.content.value else reply.content)
    ensures r.status == (if u.status.Some? then u.status.value else reply.status)
  {
    var a := if u.content.Some? then reply.(content := u.content.value) else reply;
    if u.status.Some? then a.(status := u.status.value) else a
  }

  /** Sending the same update twice is the same as sending it once, and an
      empty update changes nothing. */
  lemma ApplyUpdateIdempotent(reply: Reply, u: ReplyUpdate)
    ensures ApplyUpdate(ApplyUpdate(reply, u), u) == ApplyUpdate(reply, u)
    ensures ApplyUpdate(reply, ReplyUpdate(None, None)) == reply
  {
  }

  /** Nothing restricts the status an author supplies: the author of a reply a
      moderator hid can make it visible again. */
  lemma AuthorCanUnhide(reply: Reply)
    requires reply.status == "hidden"
    ensures ApplyUpdate(reply, ReplyUpdate(None, Some("visible"))).status == "visible"
  {
  }

  /** `update_reply`: 404 for a missing reply, 403 for anyone but its author;
      otherwise the supplied fields are written. */
  method UpdateReply(db: Db, replyId: Id, authorId: Id, u: ReplyUpdate) returns (r: Result<Reply>)
    modifies db`replies
    ensures replyId !in old(db.replies) ==> r == Err(AppError(404, "reply_not_found"))
    ensures replyId in old(db.replies) && old(db.replies[replyId]).authorId != authorId ==>
      r == Err(AppError(403, "forbidden"))
    ensures r.Ok? <==> replyId in old(db.replies) && old(db.replies[replyId]).authorId == authorId
    ensures r.Ok? ==>
      r.value == ApplyUpdate(old(db.replies[replyId]), u) && db.replies == old(db.replies)[replyId := r.value]
    ensures r.Err? ==> db.replies == old(db.replies)
  {
    if replyId !in db.replies {
      return Err(AppError(404, "reply_not_found"));
    }
    var reply := db.replies[replyId];
    if reply.authorId != authorId {
      return Err(AppError(403, "forbidden"));
    }
    if u.content.Some? {
      reply := reply.(content := u.content.value);
    }
    if u.status.Some? {
      reply := reply.(status := u.status.value);
    }
    db.replies := db.replies[replyId := reply];
    r := Ok(reply);
  }

  /** `delete_reply`: 404 for a missing reply, 403 for anyone but its author;
      otherwise the row is removed. */
  method DeleteReply(db: Db, replyId: Id, authorId: Id) returns (r: Result<()>)
    modifies db`replies
    ensures replyId !in old(db.replies) ==> r == Err(AppError(404, "reply_not_found"))
    ensures replyId in old(db.replies) && old(db.replies[replyId]).authorId != authorId ==>
      r == Err(AppError(403, "forbidden"))
    ensures r.Ok? <==> replyId in old(db.replies) && old(db.replies[replyId]).authorId == authorId
    ensures r.Ok? ==> db.replies == old(db.replies) - {replyId}
    ensures r.Err? ==> db.replies == old(db.replies)
  {
    if replyId !in db.replies {
      return Err(AppError(404, "reply_not_found"));
    }
    if db.replies[replyId].authorId != authorId {
      return Err(AppError(403, "forbidden"));
    }
    db.replies := db.replies - {replyId};
    r := Ok(());
  }

  // ---- Moderator actions ----

  /** `admin_hide_reply` (`visible == false`) and `admin_restore_reply`
      (`visible == true`): 404 for a missing reply, otherwise only its status
      changes. */
  method AdminSetVisibility(db: Db, replyId: Id, visible: bool) returns (r: Result<Reply>)
    modifies db`replies
    ensures r.Err? <==> replyId !in old(db.replies)
    ensures r.Err? ==> r.error == AppError(404, "reply_not_found") && db.replies == old(db.replies)
    ensures r.Ok? ==>
      && r.value == old(db.replies[replyId]).(status := if visible then "visible" else "hidden")
      && db.replies == old(db.replies)[replyId := r.value]
      && (visible ==> Shown(r.value, r.value.postId, false))
      && (!visible ==> !Shown(r.value, r.value.postId, false))
  {
    if replyId !in db.replies {
      return Err(AppError(404, "reply_not_found"));
    }
    var reply := db.replies[replyId].(status := if visible then "visible" else "hidden");
    db.replies := db.replies[replyId := reply];
    r := Ok(reply);
  }

  /** `admin_delete_reply`: 404 for a missing reply, otherwise the row is
      removed whoever wrote it. */
  method AdminDeleteReply(db: Db, replyId: Id) returns (r: Result<()>)
    modifies db`replies
    ensures r.Err? <==> replyId !in old(db.replies)
    ensures r.Err? ==> r.error == AppError(404, "reply_not_found") && db.replies == old(db.replies)
    ensures r.Ok? ==> db.replies == old(db.replies) - {replyId}
  {
    if replyId !in db.replies {
      return Err(AppError(404, "reply_not_found"));
    }
    db.replies := db.replies - {replyId};
    r := Ok(());
  }
}
