/** In-app notifications (WebSite/BackEnd/app/services/notification_service.py):
    the dedupe gate every other service goes through, the per-user listing and
    the read markers. */
module NotificationService {
  import opened Common
  import opened Models
  import Query

  /** A dedupe key takes part in the lookup only when present and non-empty. */
  predicate Keyed(key: Option<string>) {
    key.Some? && key.value != ""
  }

  predicate SameSlot(n: Notification, userId: Id, kind: string, key: string) {
    n.userId == userId && n.kind == kind && n.dedupeKey == Some(key)
  }

  predicate SlotTaken(rows: seq<Notification>, userId: Id, kind: string, key: string) {
    exists i :: 0 <= i < |rows| && SameSlot(rows[i], userId, kind, key)
  }

  /** The existing row for (user, type, key), if any. */
  function FindExisting(rows: seq<Notification>, userId: Id, kind: string, key: string): (r: Option<nat>)
    ensures r.Some? ==> r.value < |rows| && SameSlot(rows[r.value], userId, kind, key)
    ensures r.None? <==> !SlotTaken(rows, userId, kind, key)
  {
    if rows == [] then None
    else if SameSlot(rows[0], userId, kind, key) then Some(0)
    else match FindExisting(rows[1..], userId, kind, key)
      case None =>
        assert forall i :: 1 <= i < |rows| ==> rows[i] == rows[1..][i - 1];
        None
      case Some(i) => Some(i + 1)
  }

  /** The notification `create_notification` returns, and the table after it. */
  function Create(rows: seq<Notification>, userId: Id, kind: string, payload: Option<Payload>,
                  key: Option<string>, newId: Id): (r: (Notification, seq<Notification>))
    ensures r.0.userId == userId && r.0.kind == kind && r.0.dedupeKey == key
    ensures r.0 in r.1
    // deduplicated exactly when a keyed row for the same user and type exists
    ensures r.1 == rows <==> Keyed(key) && SlotTaken(rows, userId, kind, key.value)
    ensures r.1 == rows ==> r.0 in rows
    ensures r.1 != rows ==> r.1 == rows + [r.0] && r.0.id == newId && r.0.payload == payload && r.0.readAt.None?
  {
    var row := Notification(newId, userId, kind, key, payload, None);
    if Keyed(key) then
      match FindExisting(rows, userId, kind, key.value)
      case Some(i) => (rows[i], rows)
      case None => assert rows + [row] != rows by { assert |rows + [row]| != |rows|; } (row, rows + [row])
    else
      assert rows + [row] != rows by { assert |rows + [row]| != |rows|; }
      (row, rows + [row])
  }

  predicate IdFresh(rows: seq<Notification>, id: Id) {
    forall i :: 0 <= i < |rows| ==> rows[i].id != id
  }

  /** The gate keeps the table free of duplicate keyed rows and of duplicate ids. */
  lemma CreateKeepsUnique(rows: seq<Notification>, userId: Id, kind: string, payload: Option<Payload>,
                          key: Option<string>, newId: Id)
    requires DedupeUnique(rows) && NotificationIdsUnique(rows) && IdFresh(rows, newId)
    ensures DedupeUnique(Create(rows, userId, kind, payload, key, newId).1)
    ensures NotificationIdsUnique(Create(rows, userId, kind, payload, key, newId).1)
  {
    var r := Create(rows, userId, kind, payload, key, newId);
    if r.1 != rows {
      assert Keyed(key) ==> !SlotTaken(rows, userId, kind, key.value);
    }
  }

  /** Creating the same keyed notification twice stores it once: the second call
      returns the first row, payload included, whatever payload and id it is given. */
  lemma {:induction false} CreateIdempotent(rows: seq<Notification>, userId: Id, kind: string,
                                            payload1: Option<Payload>, payload2: Option<Payload>,
                                            key: Option<string>, id1: Id, id2: Id)
    requires Keyed(key)
    ensures var first := Create(rows, userId, kind, payload1, key, id1);
            Create(first.1, userId, kind, payload2, key, id2).1 == first.1
    ensures var first := Create(rows, userId, kind, payload1, key, id1);
            DedupeUnique(rows) ==> Create(first.1, userId, kind, payload2, key, id2).0 == first.0
  {
    var first := Create(rows, userId, kind, payload1, key, id1);
    assert first.0 in first.1;
    var k :| 0 <= k < |first.1| && first.1[k] == first.0;
    assert SameSlot(first.1[k], userId, kind, key.value);
    if DedupeUnique(rows) {
      var second := Create(first.1, userId, kind, payload2, key, id2);
      var j := FindExisting(first.1, userId, kind, key.value).value;
      assert second.0 == first.1[j];
    }
  }

  /** A keyed create leaves every taken slot taken and takes its own. */
  lemma CreateKeepsSlot(rows: seq<Notification>, userId: Id, kind: string, payload: Option<Payload>, key: string,
                        newId: Id, u: Id, k: string, key2: string)
    requires key != ""
    requires SlotTaken(rows, u, k, key2)
    ensures SlotTaken(Create(rows, userId, kind, payload, Some(key), newId).1, u, k, key2)
    ensures SlotTaken(Create(rows, userId, kind, payload, Some(key), newId).1,
                                          userId, kind, key)
  {
    var r := Create(rows, userId, kind, payload, Some(key), newId);
    var i :| 0 <= i < |rows| && SameSlot(rows[i], u, k, key2);
    if r.1 != rows {
      assert r.1[i] == rows[i];
    }
    var j :| 0 <= j < |r.1| && r.1[j] == r.0;
    assert SameSlot(r.1[j], userId, kind, key);
  }

  /** After a keyed create its own slot is taken. */
  lemma CreateFillsSlot(rows: seq<Notification>, userId: Id, kind: string, payload: Option<Payload>, key: string,
                        newId: Id)
    requires key != ""
    ensures SlotTaken(Create(rows, userId, kind, payload, Some(key), newId).1,
                                          userId, kind, key)
  {
    var r := Create(rows, userId, kind, payload, Some(key), newId);
    var j :| 0 <= j < |r.1| && r.1[j] == r.0;
    assert SameSlot(r.1[j], userId, kind, key);
  }

  /** `create_notification`: the table gains the fresh row unless the gate finds one. */
  method CreateNotification(db: Db, userId: Id, kind: string, payload: Option<Payload>,
                            key: Option<string>, newId: Id) returns (n: Notification)
    requires NotificationsConsistent(db.notifications) && IdFresh(db.notifications, newId)
    modifies db`notifications
    ensures NotificationsConsistent(db.notifications)
    ensures (n, db.notifications) == Create(old(db.notifications), userId, kind, payload, key, newId)
  {
    CreateKeepsUnique(db.notifications, userId, kind, payload, key, newId);
    if Keyed(key) {
      var found := FindExisting(db.notifications, userId, kind, key.value);
      if found.Some? {
        return db.notifications[found.value];
      }
    }
    n := Notification(newId, userId, kind, key, payload, None);
    db.notifications := db.notifications + [n];
  }

  /** The rows of one user, oldest first. */
  function OfUser(rows: seq<Notification>, userId: Id): (r: seq<Notification>)
    ensures forall i :: 0 <= i < |r| ==> r[i].userId == userId
    ensures forall n :: n in r <==> n in rows && n.userId == userId
  {
    if rows == [] then []
    else
      var last := rows[|rows| - 1];
      assert rows == rows[..|rows| - 1] + [last];
      OfUser(rows[..|rows| - 1], userId) + (if last.userId == userId then [last] else [])
  }

  function Reverse<T>(s: seq<T>): (r: seq<T>)
    ensures |r| == |s|
    ensures forall i :: 0 <= i < |s| ==> r[i] == s[|s| - 1 - i]
  {
    if s == [] then [] else Reverse(s[1..]) + [s[0]]
  }

  /** `list_notifications`: one user's rows, newest first, then `LIMIT`/`OFFSET`. */
  function ListNotifications(rows: seq<Notification>, userId: Id, limit: nat, offset: nat): (r: seq<Notification>)
    ensures |r| <= limit
    ensures forall i :: 0 <= i < |r| ==> r[i].userId == userId && r[i] in rows
  {
    var mine := Reverse(OfUser(rows, userId));
    assert forall i :: 0 <= i < |mine| ==> mine[i] in OfUser(rows, userId);
    Query.Window(mine, limit, offset)
  }

  /** Newest first: a row added for a user heads that user's first page, ahead of
      what the page showed before; other users' pages do not change. */
  lemma {:induction false} ListAfterInsert(rows: seq<Notification>, n: Notification, userId: Id, limit: nat)
    ensures userId == n.userId ==>
      ListNotifications(rows + [n], userId, limit + 1, 0) == [n] + ListNotifications(rows, userId, limit, 0)
    ensures userId != n.userId ==>
      forall offset: nat :: ListNotifications(rows + [n], userId, limit, offset) == ListNotifications(rows, userId, limit, offset)
  {
    assert (rows + [n])[..|rows + [n]| - 1] == rows;
    var before := Reverse(OfUser(rows, userId));
    var after := Reverse(OfUser(rows + [n], userId));
    if userId == n.userId {
      assert after == [n] + before;
      var lhs := ListNotifications(rows + [n], userId, limit + 1, 0);
      var rhs := [n] + ListNotifications(rows, userId, limit, 0);
      assert |lhs| == |rhs|;
      forall i | 0 <= i < |lhs| ensures lhs[i] == rhs[i] {
        if i > 0 { assert rhs[i] == ListNotifications(rows, userId, limit, 0)[i - 1]; }
      }
    } else {
      assert after == before;
    }
  }

  function Mark(n: Notification, userId: Id, ids: Option<seq<Id>>, now: Time): Notification {
    if n.userId == userId && (ids.None? || n.id in ids.value) then n.(readAt := Some(now)) else n
  }

  /** The table after marking read: with `Some(ids)` the listed rows of the user
      (`mark_read`), with `None` all of them (`mark_all_read`). */
  function MarkAll(rows: seq<Notification>, userId: Id, ids: Option<seq<Id>>, now: Time): (r: seq<Notification>)
    ensures |r| == |rows|
    ensures forall i :: 0 <= i < |rows| ==> r[i] == Mark(rows[i], userId, ids, now)
  {
    seq(|rows|, i requires 0 <= i < |rows| => Mark(rows[i], userId, ids, now))
  }

  lemma MarkKeepsUnique(rows: seq<Notification>, userId: Id, ids: Option<seq<Id>>, now: Time)
    requires DedupeUnique(rows) && NotificationIdsUnique(rows)
    ensures DedupeUnique(MarkAll(rows, userId, ids, now)) && NotificationIdsUnique(MarkAll(rows, userId, ids, now))
  {
    var r := MarkAll(rows, userId, ids, now);
    assert forall i :: 0 <= i < |rows| ==>
      r[i].id == rows[i].id && r[i].userId == rows[i].userId && r[i].kind == rows[i].kind && r[i].dedupeKey == rows[i].dedupeKey;
  }

  /** The number of a user's rows still unread. */
  function Unread(rows: seq<Notification>, userId: Id): (c: nat)
    ensures c <= |rows|
  {
    if rows == [] then 0
    else Unread(rows[1..], userId) + (if rows[0].userId == userId && rows[0].readAt.None? then 1 else 0)
  }

  /** After `mark_all_read` the user has nothing unread; every other user's
      unread count is what it was. */
  lemma {:induction false} MarkAllClearsUnread(rows: seq<Notification>, userId: Id, now: Time, other: Id)
    requires other != userId
    ensures Unread(MarkAll(rows, userId, None, now), userId) == 0
    ensures Unread(MarkAll(rows, userId, None, now), other) == Unread(rows, other)
  {
    if rows != [] {
      MarkAllClearsUnread(rows[1..], userId, now, other);
      assert MarkAll(rows, userId, None, now)[1..] == MarkAll(rows[1..], userId, None, now);
    }
  }

  /** After `mark_read` the user's unread rows are exactly those not listed. */
  function UnreadUnlisted(rows: seq<Notification>, userId: Id, ids: seq<Id>): nat {
    if rows == [] then 0
    else
      var here := if rows[0].userId == userId && rows[0].readAt.None? && rows[0].id !in ids then 1 else 0;
      UnreadUnlisted(rows[1..], userId, ids) + here
  }

  lemma {:induction false} MarkReadLeavesUnlisted(rows: seq<Notification>, userId: Id, ids: seq<Id>, now: Time, other: Id)
    requires other != userId
    ensures Unread(MarkAll(rows, userId, Some(ids), now), userId) == UnreadUnlisted(rows, userId, ids)
    ensures Unread(MarkAll(rows, userId, Some(ids), now), other) == Unread(rows, other)
  {
    if rows != [] {
      MarkReadLeavesUnlisted(rows[1..], userId, ids, now, other);
      assert MarkAll(rows, userId, Some(ids), now)[1..] == MarkAll(rows[1..], userId, Some(ids), now);
    }
  }

  method MarkLoop(db: Db, userId: Id, ids: Option<seq<Id>>, now: Time)
    requires NotificationsConsistent(db.notifications)
    modifies db`notifications
    ensures NotificationsConsistent(db.notifications)
    ensures db.notifications == MarkAll(old(db.notifications), userId, ids, now)
  {
    ghost var rows := db.notifications;
    MarkKeepsUnique(rows, userId, ids, now);
    var i := 0;
    while i < |db.notifications|
      invariant |db.notifications| == |rows|
      invariant 0 <= i <= |rows|
      invariant forall k :: 0 <= k < i ==> db.notifications[k] == Mark(rows[k], userId, ids, now)
      invariant forall k :: i <= k < |rows| ==> db.notifications[k] == rows[k]
    {
      var n := db.notifications[i];
      if n.userId == userId && (ids.None? || n.id in ids.value) {
        db.notifications := db.notifications[i := n.(readAt := Some(now))];
      }
      i := i + 1;
    }
  }

  /** `mark_read`: sets `read_at` on the caller's listed rows and no others. */
  method MarkRead(db: Db, userId: Id, ids: seq<Id>, now: Time)
    requires NotificationsConsistent(db.notifications)
    modifies db`notifications
    ensures NotificationsConsistent(db.notifications)
    ensures db.notifications == MarkAll(old(db.notifications), userId, Some(ids), now)
  {
    MarkLoop(db, userId, Some(ids), now);
  }

  /** `mark_all_read`: sets `read_at` on every row of the caller and no others. */
  method MarkAllRead(db: Db, userId: Id, now: Time)
    requires NotificationsConsistent(db.notifications)
    modifies db`notifications
    ensures NotificationsConsistent(db.notifications)
    ensures db.notifications == MarkAll(old(db.notifications), userId, None, now)
  {
    MarkLoop(db, userId, None, now);
  }
}
