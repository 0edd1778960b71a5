/** Identity verification requests and their review
    (WebSite/BackEnd/app/services/verification_service.py). An approval lifts
    the user's credibility to at least the verified floor. */
module VerificationService {
  import opened Common
  import opened Models
  import NotificationService

  /** The credibility an approved user has at least. */
  const VerifiedFloor := 80

  /** `max(credibility_score, 80)`. */
  function Lifted(score: int): (r: int)
    ensures r >= VerifiedFloor && r >= score
    ensures r == score || r == VerifiedFloor
  {
    if score >= VerifiedFloor then score else VerifiedFloor
  }

  /** Approving again changes nothing, and a higher score stays higher. */
  lemma LiftedStable(a: int, b: int)
    ensures Lifted(Lifted(a)) == Lifted(a)
    ensures a <= b ==> Lifted(a) <= Lifted(b)
  {
  }

  /** `submit_verification`: a file row with purpose `verification` holding the
      document URL, and a pending request that points at it. */
  method SubmitVerification(db: Db, userId: Id, docsUrl: string, fileId: Id, requestId: Id)
    returns (r: VerificationRequest)
    requires fileId !in db.files && requestId !in db.verifications
    modifies db`files, db`verifications
    ensures db.files == old(db.files)[fileId := FileRecord(userId, "verification", docsUrl)]
    ensures r == VerificationRequest(userId, "pending", fileId, None)
    ensures db.verifications == old(db.verifications)[requestId := r]
  {
    db.files := db.files[fileId := FileRecord(userId, "verification", docsUrl)];
    r := VerificationRequest(userId, "pending", fileId, None);
    db.verifications := db.verifications[requestId := r];
  }

  /** The profile table after an approval for `userId`: a user without a
      profile gets none. */
  function LiftProfile(profiles: map<Id, Profile>, userId: Id): (r: map<Id, Profile>)
    ensures r.Keys == profiles.Keys
    ensures forall u :: u in profiles && u != userId ==> r[u] == profiles[u]
    ensures userId in profiles ==>
      && r[userId].credibilityScore >= VerifiedFloor
      && r[userId].credibilityScore >= profiles[userId].credibilityScore
      && (profiles[userId].credibilityScore >= VerifiedFloor ==> r[userId] == profiles[userId])
      && r[userId] == profiles[userId].(credibilityScore := r[userId].credibilityScore)
  {
    if userId in profiles
    then profiles[userId := profiles[userId].(credibilityScore := Lifted(profiles[userId].credibilityScore))]
    else profiles
  }

  /** Shared by approve and reject: 404 for an unknown request; otherwise the
      request takes `status` and the reviewing admin, the user gets a
      `verification_{outcome}` notification keyed by the request id, and
      `verification_{action}` is audited. Approval also lifts credibility. */
  method Review(db: Db, requestId: Id, reviewerId: Id, approve: bool, nid: Id) returns (r: Result<VerificationRequest>)
    requires NotificationsConsistent(db.notifications) && NotificationService.IdFresh(db.notifications, nid)
    modifies db`verifications, db`profiles, db`notifications, db`actions
    ensures NotificationsConsistent(db.notifications)
    ensures r.Err? <==> requestId !in old(db.verifications)
    ensures r.Err? ==>
      && r.error == AppError(404, "verification_not_found")
      && db.verifications == old(db.verifications) && db.profiles == old(db.profiles)
      && db.notifications == old(db.notifications) && db.actions == old(db.actions)
    ensures r.Ok? ==>
      var req := old(db.verifications[requestId]);
      && r.value == req.(status := if approve then "approved" else "rejected", reviewerId := Some(reviewerId))
      && db.verifications == old(db.verifications)[requestId := r.value]
      && db.profiles == (if approve then LiftProfile(old(db.profiles), req.userId) else old(db.profiles))
      && db.notifications == NotificationService.Create(old(db.notifications), req.userId,
           if approve then "verification_approved" else "verification_rejected",
           Some(map["request_id" := JStr(requestId)]), Some(requestId), nid).1
      && db.actions == old(db.actions) + [ModerationAction(reviewerId, "verification", requestId,
           if approve then "verification_approve" else "verification_reject", None)]
  {
    if requestId !in db.verifications {
      return Err(AppError(404, "verification_not_found"));
    }
    var req := db.verifications[requestId];
    var reviewed := req.(status := if approve then "approved" else "rejected", reviewerId := Some(reviewerId));
    db.verifications := db.verifications[requestId := reviewed];
    if approve && req.userId in db.profiles {
      var profile := db.profiles[req.userId];
      db.profiles := db.profiles[req.userId := profile.(credibilityScore := Lifted(profile.credibilityScore))];
    }
    var _ := NotificationService.CreateNotification(db, req.userId,
               if approve then "verification_approved" else "verification_rejected",
               Some(map["request_id" := JStr(requestId)]), Some(requestId), nid);
    db.actions := db.actions + [ModerationAction(reviewerId, "verification", requestId,
                                                 if approve then "verification_approve" else "verification_reject", None)];
    r := Ok(reviewed);
  }

  /** `approve_verification`. */
  method ApproveVerification(db: Db, requestId: Id, reviewerId: Id, nid: Id) returns (r: Result<VerificationRequest>)
    requires NotificationsConsistent(db.notifications) && NotificationService.IdFresh(db.notifications, nid)
    modifies db`verifications, db`profiles, db`notifications, db`actions
    ensures NotificationsConsistent(db.notifications)
    ensures r.Err? <==> requestId !in old(db.verifications)
    ensures r.Err? ==>
      && r.error == AppError(404, "verification_not_found")
      && db.verifications == old(db.verifications) && db.profiles == old(db.profiles)
      && db.notifications == old(db.notifications) && db.actions == old(db.actions)
    ensures r.Ok? ==>
      var req := old(db.verifications[requestId]);
      && r.value == req.(status := "approved", reviewerId := Some(reviewerId))
      && db.verifications == old(db.verifications)[requestId := r.value]
      && db.profiles == LiftProfile(old(db.profiles), req.userId)
      && (req.userId in db.profiles ==> db.profiles[req.userId].credibilityScore >= VerifiedFloor)
      && db.notifications == NotificationService.Create(old(db.notifications), req.userId, "verification_approved",
           Some(map["request_id" := JStr(requestId)]), Some(requestId), nid).1
      && db.actions == old(db.actions) + [ModerationAction(reviewerId, "verification", requestId, "verification_approve", None)]
  {
    r := Review(db, requestId, reviewerId, true, nid);
  }

  /** `reject_verification`: credibility is left alone. */
  method RejectVerification(db: Db, requestId: Id, reviewerId: Id, nid: Id) returns (r: Result<VerificationRequest>)
    requires NotificationsConsistent(db.notifications) && NotificationService.IdFresh(db.notifications, nid)
    modifies db`verifications, db`profiles, db`notifications, db`actions
    ensures NotificationsConsistent(db.notifications)
    ensures r.Err? <==> requestId !in old(db.verifications)
    ensures r.Err? ==>
      && r.error == AppError(404, "verification_not_found")
      && db.verifications == old(db.verifications)
      && db.notifications == old(db.notifications) && db.actions == old(db.actions)
    ensures r.Ok? ==>
      var req := old(db.verifications[requestId]);
      && r.value == req.(status := "rejected", reviewerId := Some(reviewerId))
      && db.verifications == old(db.verifications)[requestId := r.value]
      && db.notifications == NotificationService.Create(old(db.notifications), req.userId, "verification_rejected",
           Some(map["request_id" := JStr(requestId)]), Some(requestId), nid).1
      && db.actions == old(db.actions) + [ModerationAction(reviewerId, "verification", requestId, "verification_reject", None)]
    ensures db.profiles == old(db.profiles)
  {
    r := Review(db, requestId, reviewerId, false, nid);
  }

  /** Reviewing a request twice with the same outcome notifies its user once:
      the key is the request id. (Approving and then rejecting notifies twice,
      since the two outcomes are different notification types.) */
  lemma ReviewNotifiedOnce(rows: seq<Notification>, userId: Id, requestId: Id, kind: string, id1: Id, id2: Id)
    requires requestId != ""
    ensures var p := Some(map["request_id" := JStr(requestId)]);
      var first := NotificationService.Create(rows, userId, kind, p, Some(requestId), id1).1;
      NotificationService.Create(first, userId, kind, p, Some(requestId), id2).1 == first
  {
    var p := Some(map["request_id" := JStr(requestId)]);
    NotificationService.CreateIdempotent(rows, userId, kind, p, p, Some(requestId), id1, id2);
  }
}
