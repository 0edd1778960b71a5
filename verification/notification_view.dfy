/** How the frontend turns a stored notification into a dropdown entry
    (WebSite/FrontEnd/src/utils/notifications.ts): the kind shown, the message
    chosen from the payload, and the read flag. Translation (`t`) is left
    abstract: a message is the translation key with its argument. */
module NotificationView {
  import opened Common
  import opened Strings
  import ReplyService
  import InteractionService
  import ModerationService
  import ReportService
  import Models

  /** The four kinds the dropdown distinguishes. */
  datatype Kind = ReplyKind | HelpfulKind | VerifiedKind | SystemKind

  /** The kind's name, used in the title's translation key. */
  function KindName(k: Kind): (name: string)
    ensures name != ""
  {
    match k
    case ReplyKind => "reply"
    case HelpfulKind => "helpful"
    case VerifiedKind => "verified"
    case SystemKind => "system"
  }

  /** `resolveType`: the first of `reply`, `helpful`/`rated`,
      `verify`/`verification` the type mentions decides; anything else is a
      system notice. */
  function ResolveType(kind: string): (k: Kind)
    ensures Contains(kind, "reply") ==> k == ReplyKind
    ensures k == SystemKind <==>
      !Contains(kind, "reply") && !Contains(kind, "helpful") && !Contains(kind, "rated")
      && !Contains(kind, "verify") && !Contains(kind, "verification")
    ensures k == HelpfulKind ==> Contains(kind, "helpful") || Contains(kind, "rated")
    ensures k == VerifiedKind ==> Contains(kind, "verify") || Contains(kind, "verification")
  {
    if Contains(kind, "reply") then ReplyKind
    else if Contains(kind, "helpful") || Contains(kind, "rated") then HelpfulKind
    else if Contains(kind, "verify") || Contains(kind, "verification") then VerifiedKind
    else SystemKind
  }

  /** A type mentioning `reply` is a reply notice. */
  lemma ReplyType(kind: string, k: nat)
    requires k <= |kind| && IsPrefix("reply", kind[k..])
    ensures ResolveType(kind) == ReplyKind
  {
    ContainsAt(kind, "reply");
  }

  /** A type without `y` that mentions `helpful` or `rated` is a helpful notice. */
  lemma HelpfulType(kind: string, k: nat)
    requires 'y' !in kind
    requires k <= |kind| && (IsPrefix("helpful", kind[k..]) || IsPrefix("rated", kind[k..]))
    ensures ResolveType(kind) == HelpfulKind
  {
    MissingChar(kind, "reply", 'y');
    ContainsAt(kind, "helpful");
    ContainsAt(kind, "rated");
  }

  /** A type mentioning `verification` but without `y`, `h`, or an `r`
      followed by an `a`, is a verification notice. */
  lemma VerifiedType(kind: string, k: nat)
    requires 'y' !in kind && 'h' !in kind
    requires forall i :: 0 <= i < |kind| - 1 && kind[i] == 'r' ==> kind[i + 1] != 'a'
    requires k <= |kind| && IsPrefix("verification", kind[k..])
    ensures ResolveType(kind) == VerifiedKind
  {
    MissingChar(kind, "reply", 'y');
    MissingChar(kind, "helpful", 'h');
    MissingPair(kind, "rated");
    ContainsAt(kind, "verification");
  }

  /** A type without `y` or `f`, and without some letter of `rated`, is a
      system notice. */
  lemma SystemType(kind: string, c: char)
    requires 'y' !in kind && 'f' !in kind && c in "rated" && c !in kind
    ensures ResolveType(kind) == SystemKind
  {
    MissingChar(kind, "reply", 'y');
    MissingChar(kind, "helpful", 'f');
    MissingChar(kind, "rated", c);
    MissingChar(kind, "verify", 'y');
    MissingChar(kind, "verification", 'f');
  }

  /** The kinds the backend stores, as the dropdown shows them: a helpful vote
      on a reply counts as a reply notice. */
  lemma ReplyKinds(kind: string)
    requires kind == "reply_created" || kind == "reply_helpful"
    ensures ResolveType(kind) == ReplyKind
  {
    ReplyType(kind, 0);
  }

  lemma HelpfulKinds(kind: string)
    requires kind == "post_helpful" || kind == "post_rated"
    ensures ResolveType(kind) == HelpfulKind
  {
    HelpfulType(kind, 5);
  }

  lemma VerifiedKinds(kind: string)
    requires kind == "verification_approved" || kind == "verification_rejected"
    ensures ResolveType(kind) == VerifiedKind
  {
    VerifiedType(kind, 0);
  }

  /** Moderation outcomes and appeal decisions show as system notices. */
  lemma ReviewKinds(kind: string)
    requires kind == "post_reviewed" || kind == "appeal_resolved"
    ensures ResolveType(kind) == SystemKind
  {
    if kind == "post_reviewed" {
      SystemType(kind, 'a');
    } else {
      SystemType(kind, 't');
    }
  }

  /** Report outcomes, to the reporter and to the author, show as system notices. */
  lemma ReportKinds(kind: string)
    requires kind == "report_resolved" || kind == "report_result"
    ensures ResolveType(kind) == SystemKind
  {
    SystemType(kind, 'a');
  }

  /** Account status and password changes show as system notices. */
  lemma AccountKinds(kind: string)
    requires kind == "account_status" || kind == "password_changed"
    ensures ResolveType(kind) == SystemKind
  {
    if kind == "account_status" {
      SystemType(kind, 'r');
    } else {
      SystemType(kind, 't');
    }
  }

  /** A payload field read as `typeof payload.x === 'string'`. */
  function StrField(p: Payload, key: string): Option<string> {
    if key in p && p[key].JStr? then Some(p[key].str) else None
  }

  /** A string field that is present and non-empty, so truthy. */
  predicate Given(p: Payload, key: string) {
    StrField(p, key).Some? && StrField(p, key).value != ""
  }

  /** `id.slice(0, 6)`. */
  function Short(id: string): (r: string)
    ensures IsPrefix(r, id) && |r| == if |id| < 6 then |id| else 6
  {
    if |id| <= 6 then id else id[..6]
  }

  /** The dropdown message: a generic text, the payload's reason, or a
      reference to the related post, reply, report or appeal. */
  datatype Message =
    | Generic
    | Reason(text: string)
    | RelatedPost(id: string)
    | RelatedReply(id: string)
    | RelatedReport(id: string)
    | RelatedAppeal(id: string)

  /** `buildMessage`: no payload gives the generic text; a non-empty reason wins
      over every id; otherwise the first id present, in the order post, reply,
      report, appeal, is quoted by its first six characters. */
  function BuildMessage(payload: Option<Payload>): (m: Message)
    ensures payload.None? ==> m == Generic
    ensures m.Reason? <==> payload.Some? && Given(payload.value, "reason")
    ensures m.Reason? ==> m.text == payload.value["reason"].str
    ensures m.RelatedPost? <==> payload.Some? && !Given(payload.value, "reason") && Given(payload.value, "post_id")
    ensures m.RelatedReply? <==>
      payload.Some? && !Given(payload.value, "reason") && !Given(payload.value, "post_id")
      && Given(payload.value, "reply_id")
    ensures m.RelatedReport? <==>
      payload.Some? && !Given(payload.value, "reason") && !Given(payload.value, "post_id")
      && !Given(payload.value, "reply_id") && Given(payload.value, "report_id")
    ensures m.RelatedAppeal? <==>
      payload.Some? && !Given(payload.value, "reason") && !Given(payload.value, "post_id")
      && !Given(payload.value, "reply_id") && !Given(payload.value, "report_id") && Given(payload.value, "appeal_id")
    ensures m.RelatedPost? ==> m.id == Short(payload.value["post_id"].str)
    ensures m.RelatedReply? ==> m.id == Short(payload.value["reply_id"].str)
    ensures m.RelatedReport? ==> m.id == Short(payload.value["report_id"].str)
    ensures m.RelatedAppeal? ==> m.id == Short(payload.value["appeal_id"].str)
  {
    if payload.None? then Generic
    else
      var p := payload.value;
      if Given(p, "reason") then Reason(p["reason"].str)
      else if Given(p, "post_id") then RelatedPost(Short(p["post_id"].str))
      else if Given(p, "reply_id") then RelatedReply(Short(p["reply_id"].str))
      else if Given(p, "report_id") then RelatedReport(Short(p["report_id"].str))
      else if Given(p, "appeal_id") then RelatedAppeal(Short(p["appeal_id"].str))
      else Generic
  }

  /** A new reply's notice points at the post replied to. */
  lemma ReplyCreatedMessage(postId: Id, replyId: Id, title: Json, content: string, authorName: Json)
    requires postId != ""
    ensures BuildMessage(ReplyService.ReplyCreatedPayload(postId, replyId, title, content, authorName))
            == RelatedPost(Short(postId))
  {
  }

  /** A helpful vote or a rating on a post points at the post; a helpful vote
      on a reply points at the reply. */
  lemma VoteMessages(ts: seq<Models.PostTranslation>, postId: Id, post: Models.Post, replyId: Id,
                     reply: Models.Reply, profiles: map<Id, Models.Profile>, userId: Id, rating: int)
    requires postId != "" && replyId != ""
    ensures BuildMessage(InteractionService.PostHelpfulPayload(ts, postId, post, profiles, userId))
            == RelatedPost(Short(postId))
    ensures BuildMessage(InteractionService.RatedPayload(ts, postId, post, profiles, userId, rating))
            == RelatedPost(Short(postId))
    ensures BuildMessage(InteractionService.ReplyHelpfulPayload(replyId, reply, profiles, userId))
            == RelatedReply(Short(replyId))
  {
  }

  /** A review notice shows the moderator's reason when there is one, and
      points at the post otherwise. */
  lemma ReviewMessage(ts: seq<Models.PostTranslation>, postId: Id, post: Models.Post, action: string,
                      reason: Option<string>)
    requires postId != ""
    ensures reason.Some? && reason.value != "" ==>
      BuildMessage(ModerationService.ReviewPayload(ts, postId, post, action, reason)) == Reason(reason.value)
    ensures reason.None? || reason.value == "" ==>
      BuildMessage(ModerationService.ReviewPayload(ts, postId, post, action, reason)) == RelatedPost(Short(postId))
  {
  }

  /** A report outcome points at the report, whatever its target. */
  lemma ReportMessage(reportId: Id, report: Models.Report, posts: map<Id, Models.Post>,
                      ts: seq<Models.PostTranslation>, replies: map<Id, Models.Reply>)
    requires reportId != ""
    ensures BuildMessage(ReportService.ResultPayload(reportId, report, posts, ts, replies))
            == RelatedReport(Short(reportId))
  {
  }

  /** An appeal decision points at the appeal; verification outcomes, account
      status changes and password changes carry none of the fields the
      dropdown reads and show the generic text. */
  lemma OtherMessages(appealId: Id, status: string, requestId: Id, via: string)
    requires appealId != ""
    ensures BuildMessage(Some(map["appeal_id" := JStr(appealId), "status" := JStr(status)]))
            == RelatedAppeal(Short(appealId))
    ensures BuildMessage(Some(map["request_id" := JStr(requestId)])) == Generic
    ensures BuildMessage(Some(map["status" := JStr(status)])) == Generic
    ensures BuildMessage(Some(map["method" := JStr(via)])) == Generic
  {
  }

  /** A notification as the API returns it: `read_at` and `created_at` are
      ISO timestamps or null. */
  datatype Item = Item(id: Id, kind: string, payload: Option<Payload>, readAt: Option<string>,
                       createdAt: Option<string>)

  /** A dropdown entry; `titleKey` is the translation key of its title. */
  datatype Entry = Entry(id: Id, kind: Kind, titleKey: string, message: Message, timestamp: string, read: bool)

  /** `mapNotification`; `format` is the locale's date formatting. */
  function MapNotification(item: Item, format: string -> string): (e: Entry)
    ensures e.id == item.id && e.kind == ResolveType(item.kind) && e.message == BuildMessage(item.payload)
    ensures e.read <==> item.readAt.Some? && item.readAt.value != ""
    ensures e.titleKey == "notifications.labels." + KindName(e.kind)
    ensures item.createdAt.None? || item.createdAt.value == "" ==> e.timestamp == ""
  {
    var kind := ResolveType(item.kind);
    var created := if item.createdAt.Some? then item.createdAt.value else "";
    Entry(item.id, kind, "notifications.labels." + KindName(kind), BuildMessage(item.payload),
          if created == "" then "" else format(created), item.readAt.Some? && item.readAt.value != "")
  }

  /** A stored notification as the API serialises it; `iso` writes a time. */
  function Wire(n: Models.Notification, iso: Time -> string, created: Option<string>): Item {
    Item(n.id, n.kind, n.payload, if n.readAt.Some? then Some(iso(n.readAt.value)) else None, created)
  }

  /** An entry shows as read exactly when the stored notification has been
      marked read. */
  lemma ReadMatchesStore(n: Models.Notification, iso: Time -> string, created: Option<string>,
                         format: string -> string)
    requires forall t :: iso(t) != ""
    ensures MapNotification(Wire(n, iso, created), format).read <==> n.readAt.Some?
  {
  }

  /** Entries of different kinds have different titles. */
  lemma TitlesTellKindsApart(a: Item, b: Item, format: string -> string)
    requires ResolveType(a.kind) != ResolveType(b.kind)
    ensures MapNotification(a, format).titleKey != MapNotification(b, format).titleKey
  {
    var ka, kb := ResolveType(a.kind), ResolveType(b.kind);
    var prefix := "notifications.labels.";
    assert (prefix + KindName(ka))[|prefix|..] == KindName(ka);
    assert (prefix + KindName(kb))[|prefix|..] == KindName(kb);
  }
}
