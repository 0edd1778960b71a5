# Bridge-US: a Dafny model of the service layer and the content utilities

Bridge-US is a community Q&A site. Users write posts in one language. The
backend screens each post with an AI classifier and translates it into the
other supported languages. Readers vote posts and replies helpful, rate a
post's accuracy, report content and receive in-app notifications. Moderators
review screened posts, appeals, reports and identity verification requests.
The frontend turns stored rich text into previews and renders it for display.

This project models that core in Dafny and proves the properties the code
promises.

Backend (the FastAPI services under `WebSite/BackEnd/app/services/` and the
rows of `WebSite/BackEnd/app/models/models.py`):

- **Models** (`models.dfy`) holds every table as a field of one `Db` class.
  Unique constraints are predicates over the table contents. Each service
  method names the fields it writes (`modifies db`posts`), so every other
  table is unchanged by its frame.
- **Tally** and **Query** are the SQL the services lean on, as sequence
  operations:
  - `COUNT`, `SUM` and `AVG` as sums over a row sequence;
  - `ORDER BY` as a sort under a total preorder;
  - `LIMIT`/`OFFSET` as a window.
- One module per service:
  - `ModerationService`: automated screening and human review;
  - `PostService` and `PostTags`: creation, editing, publishing, translation
    fan-out and tagging;
  - `InteractionService`: helpful votes and accuracy feedback. Each counter a
    call writes is recomputed from the rows. The invariant that every counter
    equals its count over the rows is preserved by each of these calls, but
    not by the post and reply deletions (see "Left out");
  - `NotificationService`: the dedupe gate, listing and read markers;
  - `ReportService`, `ReplyService`, `AdminService`, `VerificationService`,
    `AiUsageService`, `AuthService`, `CategoryService` and `SearchService`.
- Each service call is one atomic step. An error raised before the commit
  leaves the store as it was. Where the code commits and then raises, the
  committed change stays: `register_user` and `reset_password_with_code`
  consume the email code even when they then fail.

Frontend:

- **PlainText** is `WebSite/FrontEnd/src/utils/text.ts`: flattening Editor.js
  JSON, HTML or markdown to plain text, and the preview.
- **NotificationView** is `WebSite/FrontEnd/src/utils/notifications.ts`: the
  dropdown entry built from a stored notification.
- **RichTextDisplay.tsx** is split four ways:
  - **MarkdownSyntax**: the regular expressions;
  - **InlineMarkdown**: links, bold and italic;
  - **MarkdownBlocks**: the line classifier and list grouping;
  - **HtmlSanitizer**: the HTML sanitiser.
  **RichText** ties them together as the component.
- **CreatePost** is `WebSite/FrontEnd/src/components/CreatePostPage.tsx`:
  validation, the tag picker and the request sent on publish.

Conventions:

- External services and libraries are parameters:
  - the AI classifier and translator are outcome values;
  - password hashing and JWTs are functions held in a `Crypto` value;
  - `JSON.parse`, `DOMParser`, HTML serialisation and date formatting are
    function parameters.
- Time is an abstract clock reading (`nat`) passed to each call.
- `accuracy_avg` is an exact rational (`real`). The integer accuracy score is
  rounded half to even, as Python's `round` does.
- Whitespace and case are ASCII. The configured database is SQLite, whose
  `LIKE` ignores ASCII case only.

## Model

| member | source | states |
|---|---|---|
| Models.Publish | WebSite/BackEnd/app/services/moderation_service.py:169-172 | the post becomes published with a publication time, an existing publication time is kept, and nothing else changes (as `publish_post` in post_service.py, lines 71-72) |
| Models.PublishOnce | WebSite/BackEnd/app/services/admin_service.py:44-45 | publishing an already published post again, at any time, changes nothing |
| Models.FindTranslation | WebSite/BackEnd/app/models/models.py:151-153 | returns the first translation row of the post in the language, and nothing exactly when there is none |
| AdminService.SetUserStatus | WebSite/BackEnd/app/services/admin_service.py:17-33 | unknown user gives 404 and changes nothing; otherwise the status is written, one `user_{status}` audit row is appended and an `account_status` notification with payload `{status}` is created under the key `account_status:{user}:{status}`, unless that key was already used |
| AdminService.AccountStatusKeyInjective | WebSite/BackEnd/app/services/admin_service.py:29 | two `account_status` keys are equal exactly when user and status are both equal (user ids hold no `:`) |
| AdminService.StatusNotifiedOnce | WebSite/BackEnd/app/services/admin_service.py:24-30 | once a user has been notified of a status, setting it again later creates no new notification |
| AdminService.SetPostStatus | WebSite/BackEnd/app/services/admin_service.py:43-45 | the status is written as given and `published_at` is stamped only when publishing a post that has none |
| AdminService.PublishedAtSetOnce | WebSite/BackEnd/app/services/admin_service.py:44-45 | after any sequence of admin status changes, `published_at` keeps the time of the first publication |
| AdminService.AdminSetPostStatus | WebSite/BackEnd/app/services/admin_service.py:36-49 | unknown post gives 404 with nothing changed; otherwise the post becomes `SetPostStatus` of it and one `post_{status}` audit row carrying the reason is appended |
| AdminService.AdminSetReplyStatus | WebSite/BackEnd/app/services/admin_service.py:52-63 | unknown reply gives 404 with nothing changed; otherwise the reply's status is the given one (any string) and one `reply_{status}` audit row carrying the reason is appended |
| AiUsageService.Enforce | WebSite/BackEnd/app/services/ai_usage_service.py:11-27 | a limit of 0 or less lets every call through untouched; no row for the day creates one at 1; a count at or above the limit refuses with 429 and keeps the count; otherwise the count goes up by one |
| AiUsageService.EnforceWithinLimit | WebSite/BackEnd/app/services/ai_usage_service.py:24-26 | with a positive limit, a count within the limit stays within it after any call |
| AiUsageService.LimitReached | WebSite/BackEnd/app/services/ai_usage_service.py:19-26 | from no use that day, exactly `limit` calls are let through and the next is refused with 429 |
| AiUsageService.LimitReachedFrom | WebSite/BackEnd/app/services/ai_usage_service.py:24-26 | from a count `c`, `k` further calls reach `c + k` while that stays within the limit |
| AiUsageService.EnforceAiLimit | WebSite/BackEnd/app/services/ai_usage_service.py:11-27 | the store's usage table afterwards is what `Enforce` gives for the user and day, and the error is `Enforce`'s |
| NotificationService.FindExisting | WebSite/BackEnd/app/services/notification_service.py:16-24 | returns the position of a row with the same user, type and key, and nothing exactly when no such row exists |
| NotificationService.Create | WebSite/BackEnd/app/services/notification_service.py:9-31 | the table is left as it was exactly when a non-empty key is given and a row of the same user, type and key exists, and that row is returned; otherwise one new unread row with the given payload is appended and returned |
| NotificationService.CreateKeepsUnique | WebSite/BackEnd/app/services/notification_service.py:9-31 | creating keeps at most one keyed row per user, type and key, and keeps ids unique when the new id is fresh |
| NotificationService.CreateIdempotent | WebSite/BackEnd/app/services/notification_service.py:16-26 | creating the same keyed notification twice leaves the table as the first call did and returns the same row |
| NotificationService.CreateKeepsSlot | WebSite/BackEnd/app/services/notification_service.py:9-31 | a taken (user, type, key) stays taken, and the one just used is taken afterwards |
| NotificationService.CreateFillsSlot | WebSite/BackEnd/app/services/notification_service.py:9-31 | after a keyed create the (user, type, key) is taken |
| NotificationService.CreateNotification | WebSite/BackEnd/app/services/notification_service.py:9-31 | the method returns the row and leaves the table `Create` describes, keeping the table's invariants |
| NotificationService.OfUser | WebSite/BackEnd/app/services/notification_service.py:39 | exactly the user's rows |
| NotificationService.Reverse | WebSite/BackEnd/app/services/notification_service.py:40 | the rows in reverse order, newest first for an insertion-ordered table |
| NotificationService.ListNotifications | WebSite/BackEnd/app/services/notification_service.py:34-44 | at most `limit` rows, every one of them a row of the table belonging to the user |
| NotificationService.ListAfterInsert | WebSite/BackEnd/app/services/notification_service.py:34-44 | a new notification heads its user's first page and leaves every other user's listing unchanged |
| NotificationService.MarkAll | WebSite/BackEnd/app/services/notification_service.py:47-64 | each row is marked read at `now` exactly when it is the user's and, for `mark_read`, listed; the others are untouched |
| NotificationService.MarkKeepsUnique | WebSite/BackEnd/app/services/notification_service.py:47-64 | marking read keeps keys and ids unique |
| NotificationService.MarkAllClearsUnread | WebSite/BackEnd/app/services/notification_service.py:58-64 | after `mark_all_read` the user has no unread notification and every other user's unread count is unchanged |
| NotificationService.MarkReadLeavesUnlisted | WebSite/BackEnd/app/services/notification_service.py:47-55 | after `mark_read` the user's unread notifications are exactly the unlisted unread ones, and other users' counts are unchanged |
| NotificationService.MarkLoop | WebSite/BackEnd/app/services/notification_service.py:53-63 | the loop leaves exactly the table `MarkAll` describes |
| NotificationService.MarkRead | WebSite/BackEnd/app/services/notification_service.py:47-55 | `mark_read` leaves the table `MarkAll` describes for the listed ids |
| NotificationService.MarkAllRead | WebSite/BackEnd/app/services/notification_service.py:58-64 | `mark_all_read` leaves the table `MarkAll` describes for every row of the user |
| AuthService.PaddedValue | WebSite/BackEnd/app/services/auth_service.py:116 | zero-padding a number to a width spells it modulo ten to that width in exactly that many digits |
| AuthService.PaddedOfValue | WebSite/BackEnd/app/services/auth_service.py:116 | re-padding the value of a digit string gives the string back |
| AuthService.ValueOfBound | WebSite/BackEnd/app/services/auth_service.py:116 | a digit string spells a number below ten to its length |
| AuthService.CodeRoundTrip | WebSite/BackEnd/app/services/auth_service.py:116 | every generated code is exactly six decimal digits, and every six-digit string is the code of exactly one number below one million |
| AuthService.SendEmailCode | WebSite/BackEnd/app/services/auth_service.py:115-135 | the code row with its expiry is always appended; the code is returned when mail is configured or the debug switch is on, and otherwise the call fails with 500 `email_not_configured` |
| AuthService.NewestCode | WebSite/BackEnd/app/services/auth_service.py:139-149 | finds the newest unused row matching address, purpose and code, and no later row matches; none found means no row matches |
| AuthService.ConsumeCodeSingleUse | WebSite/BackEnd/app/services/auth_service.py:138-153 | a successful verification marks exactly the newest match used, leaves every other row alone, and a code that had one match is refused with 400 on a second attempt |
| AuthService.VerifyEmailCode | WebSite/BackEnd/app/services/auth_service.py:138-153 | 400 `invalid_code` with the table unchanged when no unused code matches or the newest match has expired; otherwise that row is stamped used |
| AuthService.IssueTokens | WebSite/BackEnd/app/services/auth_service.py:51-62 | returns an access and a refresh token for the user and appends one session holding the refresh token's hash and its expiry |
| AuthService.NewestSession | WebSite/BackEnd/app/services/auth_service.py:72-78 | finds the newest session with the token's hash, and no later session has it; none found means none has it |
| AuthService.RefreshCheck | WebSite/BackEnd/app/services/auth_service.py:65-81 | every failure is 401 `invalid_refresh`; success needs a token of type `refresh` whose newest session exists |
| AuthService.RefreshAccessToken | WebSite/BackEnd/app/services/auth_service.py:65-81 | on a failed check nothing changes; otherwise new tokens for the session's user are returned and one session appended, the old one left as it is |
| AuthService.OldTokenStillValid | WebSite/BackEnd/app/services/auth_service.py:65-81 | refreshing does not revoke the token used: it still refreshes afterwards unless the new token hashes alike |
| AuthService.RevokeAll | WebSite/BackEnd/app/services/auth_service.py:178-186 | every session of the user is stamped revoked, the others are unchanged, and the count stays the same |
| AuthService.RevokeUserSessions | WebSite/BackEnd/app/services/auth_service.py:178-186 | the loop leaves exactly the sessions of `RevokeAll` |
| AuthService.RevokedCannotRefresh | WebSite/BackEnd/app/services/auth_service.py:178-186 | after revocation none of the user's refresh tokens refreshes, and other users' refresh results are unchanged |
| AuthService.RegisterUser | WebSite/BackEnd/app/services/auth_service.py:21-38 | the `register` code is consumed first (a bad code changes nothing); a taken address then gives 409 with the code spent and no user; otherwise a user with the hashed password and a profile are created and signed in; addresses stay unique |
| AuthService.AuthenticateUser | WebSite/BackEnd/app/services/auth_service.py:41-48 | 401 for an unknown address or a wrong password, 403 for a banned user with the right password, otherwise tokens and one new session; no session on error |
| AuthService.ChangePassword | WebSite/BackEnd/app/services/auth_service.py:102-111 | the new hash is stored, every session of the user revoked and one `password_changed` notification created, deduplicated per user and day |
| AuthService.ResetPassword | WebSite/BackEnd/app/services/auth_service.py:94-112 | fails with 401 exactly when the user is unknown or the current password does not verify, and then nothing changes; otherwise the password is changed with method `current_password` |
| AuthService.ResetPasswordWithCode | WebSite/BackEnd/app/services/auth_service.py:156-175 | the `reset` code is consumed first; an unknown address then gives 404 with the code spent; otherwise the password is changed with method `email_code` |
| AuthService.EnsureRootAdmin | WebSite/BackEnd/app/services/auth_service.py:189-210 | no change without both root settings; otherwise the root address is an admin afterwards: created with a `Root Admin` profile when missing, promoted when present, nothing changed when already an admin, and no other account is touched |
| CategoryService.CreateCategory | WebSite/BackEnd/app/services/category_service.py:15-30 | fails with 409 `category_exists` exactly when the slug is in use, and then nothing changes; otherwise the category is stored under the new id and one `category_create` audit row appended; slugs stay unique |
| CategoryService.ApplyCategoryUpdate | WebSite/BackEnd/app/services/category_service.py:45-46 | each field supplied in the update overwrites the stored one and each field left unset keeps its value |
| CategoryService.ApplyCategoryUpdateIdempotent | WebSite/BackEnd/app/services/category_service.py:45-46 | applying the same update twice is applying it once |
| CategoryService.UpdateCategory | WebSite/BackEnd/app/services/category_service.py:33-50 | 404 for an unknown id, 409 when a changed slug is used by another category, and no change on error; success exactly otherwise, with the update applied and one `category_update` audit row; slugs stay unique |
| CategoryService.Detach | WebSite/BackEnd/app/services/category_service.py:58-60 | the same posts, none of them in the category any more, each differing from before at most in its category, and posts of other categories unchanged |
| CategoryService.DeleteCategory | WebSite/BackEnd/app/services/category_service.py:53-63 | fails with 404 exactly for an unknown id, changing nothing; otherwise the category is removed, its posts are detached and one `category_delete` audit row appended |
| CategoryService.DefaultSlugsDistinct | WebSite/BackEnd/app/services/category_service.py:71-77 | the five default slugs are pairwise different |
| CategoryService.EnsureDefaultCategories | WebSite/BackEnd/app/services/category_service.py:66-79 | a non-empty registry is left alone; an empty one receives exactly the five defaults, active, with unique slugs; afterwards the registry is never empty, so a second run changes nothing |
| CategoryService.ListedBeforePreorder | WebSite/BackEnd/app/services/category_service.py:11 | ordering by sort order and then by name is a total preorder |
| CategoryService.CategoryRows | WebSite/BackEnd/app/services/category_service.py:11 | the rows are exactly the scanned ids that name a category, with that category |
| CategoryService.ListCategories | WebSite/BackEnd/app/services/category_service.py:10-12 | the listing is sorted by sort order and then name, and is a permutation of the scanned rows |
| CategoryService.ListCategoriesComplete | WebSite/BackEnd/app/services/category_service.py:10-12 | with a scan covering every category, the listing holds every category and nothing else |
| InteractionService.Mean | WebSite/BackEnd/app/services/interaction_service.py:208-221 | the average times the count gives the sum of the ratings, and the average is 0 when there are none |
| InteractionService.MeanTimesCount | WebSite/BackEnd/app/services/interaction_service.py:219 | the stored average times the count gives back the sum of the ratings, and is 0 over no ratings |
| InteractionService.RoundHalfEven | WebSite/BackEnd/app/services/interaction_service.py:274 | Python's `round`: the result is within half of the quotient, and on an exact half it is even |
| InteractionService.RoundHalfEvenUnique | WebSite/BackEnd/app/services/interaction_service.py:274 | those two conditions single out the result, so the rounding is fully determined |
| InteractionService.VoteAdded | WebSite/BackEnd/app/services/interaction_service.py:17 | inserting a vote adds one to the count of its target and to the score of the target's author, and to no other count or score |
| InteractionService.VoteRemoved | WebSite/BackEnd/app/services/interaction_service.py:44-50 | deleting the user's vote keeps votes unique and takes one off the same counts when it existed, and changes nothing when it did not |
| InteractionService.ScoresAfter | WebSite/BackEnd/app/services/interaction_service.py:224-241 | after a vote change, recounting the author of the vote's target moves that score by the change and makes every score right again |
| InteractionService.ReplyCountsAfter | WebSite/BackEnd/app/services/interaction_service.py:192-205 | a vote on a post leaves every reply count right |
| InteractionService.PostCountsAfter | WebSite/BackEnd/app/services/interaction_service.py:248-261 | a vote on a reply leaves every post count right |
| InteractionService.AccuracyFrame | WebSite/BackEnd/app/services/interaction_service.py:208-221 | a change that keeps every post's author and accuracy fields and every profile's accuracy score keeps the accuracy counters right |
| InteractionService.HelpfulFrame | WebSite/BackEnd/app/services/interaction_service.py:192-205 | a change that keeps every post's author and helpful count and every helpfulness score keeps the helpful counters right |
| InteractionService.VoteOnMissing | WebSite/BackEnd/app/services/interaction_service.py:52-56 | a vote change on a post or reply that no longer exists leaves every counter right without a recount |
| InteractionService.RatingAdded | WebSite/BackEnd/app/services/interaction_service.py:110-118 | inserting a rating adds one to its post's count and its value to the post's sum, and moves no other post's figures or other author's score |
| InteractionService.RatingChanged | WebSite/BackEnd/app/services/interaction_service.py:163-165 | changing a rating's value changes its post's sum by the difference and no count |
| InteractionService.RatingDeleted | WebSite/BackEnd/app/services/interaction_service.py:183-184 | deleting a rating takes one off its post's count and its value off the post's sum |
| InteractionService.RatingsRecounted | WebSite/BackEnd/app/services/interaction_service.py:208-275 | after the ratings of a post move, recounting that post and its author makes every accuracy field right again |
| InteractionService.RatingsOnMissing | WebSite/BackEnd/app/services/interaction_service.py:166-170 | ratings that moved on a post that no longer exists leave every accuracy field right |
| InteractionService.AccuracyLeavesHelpful | WebSite/BackEnd/app/services/interaction_service.py:208-221 | rewriting accuracy fields keeps the helpful counters right |
| InteractionService.HelpfulLeavesAccuracy | WebSite/BackEnd/app/services/interaction_service.py:192-205 | rewriting a post's helpful count and an author's helpfulness score, to any values, keeps the accuracy fields right |
| InteractionService.ScoreLeavesAccuracy | WebSite/BackEnd/app/services/interaction_service.py:224-241 | rewriting a helpfulness score to any value keeps the accuracy fields right |
| InteractionService.RecomputePostHelpful | WebSite/BackEnd/app/services/interaction_service.py:192-205 | the post's helpful count becomes the number of votes on it; an unknown post changes nothing |
| InteractionService.RecomputeReplyHelpful | WebSite/BackEnd/app/services/interaction_service.py:248-261 | the reply's helpful count becomes the number of votes on it; an unknown reply changes nothing |
| InteractionService.RecomputeUserHelpfulness | WebSite/BackEnd/app/services/interaction_service.py:224-245 | the profile's helpfulness score becomes the number of votes on the user's posts and replies; no profile means no change |
| InteractionService.RecomputePostAccuracy | WebSite/BackEnd/app/services/interaction_service.py:208-221 | the post's accuracy count and average become the count and mean of its ratings (0 over none) |
| InteractionService.RecomputeUserAccuracy | WebSite/BackEnd/app/services/interaction_service.py:264-275 | the profile's accuracy score becomes the mean rating over the user's posts, rounded half to even |
| InteractionService.PostVoteRecounted | WebSite/BackEnd/app/services/interaction_service.py:22-23 | after a vote on a post moved by a delta, the post's recount and its author's recount each move by that delta and every counter is right |
| InteractionService.ReplyVoteRecounted | WebSite/BackEnd/app/services/interaction_service.py:70-71 | the same for a vote on a reply |
| InteractionService.PostRecount | WebSite/BackEnd/app/services/interaction_service.py:192-245 | the counters recomputed after a post vote keep the post authors; when every counter was right before a vote change of `delta`, the post's count and its author's score move by `delta` and every counter is right again; the accuracy fields stay right |
| InteractionService.ReplyRecount | WebSite/BackEnd/app/services/interaction_service.py:224-261 | the same for the counters recomputed after a reply vote |
| InteractionService.RatingRecount | WebSite/BackEnd/app/services/interaction_service.py:208-275 | the accuracy fields recomputed after a change to a post's ratings keep the post authors, are all right again when they were right before, and leave the helpful counters right |
| InteractionService.RecountPostVotes | WebSite/BackEnd/app/services/interaction_service.py:22-23 | the post's count and its author's score become their recounts from the votes, whatever they held; when every counter was right before a vote change of `delta`, each moves by `delta` and every counter is right again; the accuracy fields stay right |
| InteractionService.RecountReplyVotes | WebSite/BackEnd/app/services/interaction_service.py:70-71 | the same after a reply vote: the reply's count and its author's score become their recounts, and move by the delta when they were right before |
| InteractionService.RecountRatings | WebSite/BackEnd/app/services/interaction_service.py:125-126 | the post's count and mean and its author's score become their recounts from the ratings; when every accuracy field was right before a change to this post's ratings, all are right again; the helpful counters stay right |
| InteractionService.NotifyAuthor | WebSite/BackEnd/app/services/interaction_service.py:24-40 | a notification goes to the author only when someone else acted, under the key `kind:target:user` |
| InteractionService.MarkHelpfulPost | WebSite/BackEnd/app/services/interaction_service.py:11-40 | 404 for an unknown post, 409 for a repeated vote, with nothing changed; otherwise the vote is stored, the post's count and its author's score become their recounts, each one more than before the vote, and the author is notified; when the counters were right before, each goes up by one and they stay right |
| InteractionService.UnmarkHelpfulPost | WebSite/BackEnd/app/services/interaction_service.py:43-56 | the user's vote is gone afterwards; when the post exists, its count and its author's score become their recounts, one less than before exactly when a vote was deleted; when the counters were right before, they stay right |
| InteractionService.MarkHelpfulReply | WebSite/BackEnd/app/services/interaction_service.py:59-84 | as for posts, with 404 `reply_not_found` and the reply's excerpt in the notification |
| InteractionService.CastReplyVote | WebSite/BackEnd/app/services/interaction_service.py:59-71 | the vote and recounts of `mark_helpful_reply` without the notification: the reply's count and its author's score become their recounts, one more than before the vote |
| InteractionService.NotifyReplyAuthor | WebSite/BackEnd/app/services/interaction_service.py:72-84 | the reply's author is notified of someone else's vote, with the reply's excerpt |
| InteractionService.UnmarkHelpfulReply | WebSite/BackEnd/app/services/interaction_service.py:87-100 | as for posts, for a reply |
| InteractionService.FindFeedback | WebSite/BackEnd/app/services/interaction_service.py:154-160 | finds the user's rating of the post, and none found means there is none |
| InteractionService.NewFeedbackKeeps | WebSite/BackEnd/app/services/interaction_service.py:109-121 | a first rating by a user, with a value from 1 to 5, keeps one rating per user and post and every value from 1 to 5 |
| InteractionService.SubmitFeedback | WebSite/BackEnd/app/services/interaction_service.py:103-148 | 404 for an unknown post, 409 for a second rating, with nothing changed; otherwise the rating is stored, the post's count and mean and its author's score become their recounts (the count one more than before, the sum plus the rating) and the author is notified; when the counters were right before, the stored count goes up by one and every counter stays right |
| InteractionService.RecordFeedback | WebSite/BackEnd/app/services/interaction_service.py:103-126 | the storage and recounts of `submit_accuracy_feedback` without the notification |
| InteractionService.ChangedFeedbackKeeps | WebSite/BackEnd/app/services/interaction_service.py:163-165 | replacing the value of a rating keeps both rating-table constraints |
| InteractionService.DeletedFeedbackKeeps | WebSite/BackEnd/app/services/interaction_service.py:183 | deleting a rating keeps both constraints, and the user has no rating of that post afterwards |
| InteractionService.UpdateFeedback | WebSite/BackEnd/app/services/interaction_service.py:151-170 | fails with 404 exactly when the user has not rated the post; otherwise the rating is replaced, the post's sum moves by the difference and its rating count stays; when the post exists its count, mean and author's score become their recounts |
| InteractionService.DeleteFeedback | WebSite/BackEnd/app/services/interaction_service.py:173-189 | fails with 404 exactly when the user has not rated the post; otherwise the rating is removed, the post's rating count drops by one and its sum by the rating; when the post exists its count, mean and author's score become their recounts |
| ModerationService.Decide | WebSite/BackEnd/app/services/moderation_service.py:48-53 | `reject` exactly at or above the reject threshold, `review` exactly from the review threshold up to below it, `pass` exactly below both |
| ModerationService.DecideMonotone | WebSite/BackEnd/app/services/moderation_service.py:48-53 | a higher risk score never gives a milder decision |
| ModerationService.Screen | WebSite/BackEnd/app/services/moderation_service.py:18-53 | the decision is always recomputed from the score; a classification keeps its score, labels and reason; `ai_not_configured` gives score 0 and `["ai_disabled"]`; any other failure gives the review threshold and `["ai_error", code or class name]` |
| ModerationService.FallbackDecisions | WebSite/BackEnd/app/services/moderation_service.py:24-53 | with the review threshold positive and below the reject threshold, the switched-off classifier passes, every other failure goes to review, and the classifier's own decision never changes the outcome |
| ModerationService.DefaultThresholdsExample | WebSite/BackEnd/app/core/config.py:26-27 | with the default thresholds 60 and 85, scores 70, 85 and 59 give review, reject and pass whatever the classifier said |
| ModerationService.AfterScreening | WebSite/BackEnd/app/services/moderation_service.py:67-72 | `pass` publishes the post, stamping `published_at` only when unset; any other decision makes it `pending` |
| ModerationService.ScreenPost | WebSite/BackEnd/app/services/moderation_service.py:17-80 | exactly one log row is appended, carrying the post, its author and the screened score, labels, decision and reason, and the post takes the status of that decision; no failure escapes |
| ModerationService.ReviewKeysDistinct | WebSite/BackEnd/app/services/moderation_service.py:196-207 | two different actions on one post have different dedupe keys, so only a repeated action is not notified again |
| ModerationService.ResolvePostReview | WebSite/BackEnd/app/services/moderation_service.py:162-208 | 404 for an unknown post, 400 for an action other than approve or reject, with nothing changed; otherwise approve publishes (keeping an earlier `published_at`) and reject hides, one moderation action is appended and the author is notified under `post_review:{post}:{action}` |
| ModerationService.ResolveAppeal | WebSite/BackEnd/app/services/moderation_service.py:135-152 | 404 exactly for an unknown appeal, changing nothing; otherwise status, reviewer and review time are overwritten, even on a resolved appeal, and the user is notified under the appeal id, so only the first resolution notifies |
| PostTags.NormalizeSlugs | WebSite/BackEnd/app/services/post_service.py:255 | at most as many slugs as given, each non-empty and lower-case |
| PostTags.Dedup | WebSite/BackEnd/app/services/post_service.py:255-271 | repetitions removed: the result has no repeats and holds exactly the slugs of the input |
| PostTags.MissingSlugs | WebSite/BackEnd/app/services/post_service.py:260 | exactly the normalised slugs the registry does not hold |
| PostTags.MissingKeepsDistinct | WebSite/BackEnd/app/services/post_service.py:260 | without repeats among the normalised slugs there are none among the missing ones |
| PostTags.AsWrittenFailsOnRepeats | WebSite/BackEnd/app/services/post_service.py:254-271 | as written, tagging fails exactly when two slugs normalise alike |
| PostTags.AsWrittenCaseRepeat | WebSite/BackEnd/app/services/post_service.py:255-271 | as written, two slugs differing only in case or surrounding blanks make tagging fail |
| PostTags.AsWrittenHousing | WebSite/BackEnd/app/services/post_service.py:255-271 | as written, the slugs `housing` and `Housing` make tagging fail |
| PostTags.EnsureTag | WebSite/BackEnd/app/services/post_service.py:261-265 | the slug's tag afterwards exists; it is created (name and slug equal) exactly when the slug was missing, and no existing tag changes |
| PostTags.EnsureTags | WebSite/BackEnd/app/services/post_service.py:259-265 | each slug has a tag afterwards, existing tags are unchanged, and the registry gains exactly the given slugs; slugs stay unique |
| PostTags.ApplyTags | WebSite/BackEnd/app/services/post_service.py:254-271 | the corrected `_apply_tags` of the first Findings row (repeats dropped after normalisation; the source as written fails on them, see `PostTags.AsWrittenHousing`): blank input leaves tags and links alone; otherwise missing tags are created, the post's tags become exactly the normalised slugs and other posts' links are untouched |
| PostService.LanguagesShape | WebSite/BackEnd/app/services/post_service.py:14-15 | every supported language is a non-empty, trimmed, comma-free entry of the setting, and every such entry is supported |
| PostService.DefaultLanguages | WebSite/BackEnd/app/services/post_service.py:14-15 | with the default setting the languages are `en`, `zh` and `ko` in that order |
| PostService.FindIffHas | WebSite/BackEnd/app/services/post_service.py:204-221 | the lookup finds a row exactly when the post has one in that language |
| PostService.FanOut | WebSite/BackEnd/app/services/post_service.py:174-201 | existing rows are kept as a prefix of the table the fan-out returns |
| PostService.FanOutErr | WebSite/BackEnd/app/services/post_service.py:174-201 | a failed fan-out fails with an error the translator returned for one of the target languages |
| PostService.FanOutAdds | WebSite/BackEnd/app/services/post_service.py:174-201 | the added rows are `ai` translations of this post, status `ready`, with the configured model, into target languages other than the source that had no row |
| PostService.FanOutCovers | WebSite/BackEnd/app/services/post_service.py:174-201 | afterwards every target language other than the source has a row |
| PostService.FanOutCovered | WebSite/BackEnd/app/services/post_service.py:174-201 | when every target language already has a row nothing is added and no translator is called |
| PostService.FanOutIdempotent | WebSite/BackEnd/app/services/post_service.py:174-201 | a second fan-out adds nothing |
| PostService.FanOutKeepsUnique | WebSite/BackEnd/app/services/post_service.py:174-201 | the fan-out keeps one row per post and language |
| PostService.FanOutStep | WebSite/BackEnd/app/services/post_service.py:177-201 | one turn: a skipped language goes on with the rest; a translator error on title or content ends the fan-out with it; otherwise one row is appended |
| PostService.TranslateFirst | WebSite/BackEnd/app/services/post_service.py:177-201 | one turn of the loop either fails as the fan-out does or leaves a table from which the fan-out over the remaining languages continues |
| PostService.TranslateMissing | WebSite/BackEnd/app/services/post_service.py:174-201 | the loop succeeds exactly when the fan-out does, leaving its table, and otherwise returns its error; rows stay unique |
| PostService.ToResponse | WebSite/BackEnd/app/services/post_service.py:204-221 | 500 `post_translation_missing` exactly when neither the requested nor the original language has a row; otherwise a row's title and content, in the requested language when it exists |
| PostService.ScreenThenTranslate | WebSite/BackEnd/app/services/post_service.py:46-101 | the post takes the screening's status, one log is appended, and the fan-out runs only when the post passed |
| PostService.StorePost | WebSite/BackEnd/app/services/post_service.py:23-44 | the post row, its `user` original translation and, for non-blank tags, exactly the normalised tags are stored, through the corrected `PostTags.ApplyTags` |
| PostService.SaveNewPost | WebSite/BackEnd/app/services/post_service.py:23-53 | a draft is stored without screening; a post asked for as `published` is screened and, when it passed, translated; a translator error rolls everything back |
| PostService.CreatePost | WebSite/BackEnd/app/services/post_service.py:18-53 | 400 for an unsupported language and 404 for an unknown category, with nothing stored; otherwise the post as `SaveNewPost` stores it |
| PostService.EditedChanges | WebSite/BackEnd/app/services/post_service.py:66-72 | an edit changes only category, status and publication time; a set publication time is never moved, and one is set exactly on a first move to `published` |
| PostService.RetitledKeepsUnique | WebSite/BackEnd/app/services/post_service.py:84-87 | rewriting a row's text keeps one row per post and language |
| PostService.EditText | WebSite/BackEnd/app/services/post_service.py:74-101 | the original translation's title and content are rewritten, the tags replaced when given (through the corrected `PostTags.ApplyTags`), and a post that is `published` is screened again and translated when it passed |
| PostService.SaveEdit | WebSite/BackEnd/app/services/post_service.py:66-106 | the post, translations and log end as `EditOutcome` says, with 500 when the original translation is missing; an error rolls every change back |
| PostService.UpdatePost | WebSite/BackEnd/app/services/post_service.py:56-106 | 404 for an unknown post, 403 for a caller neither author nor admin, 404 for an unknown category, all with nothing changed; otherwise the edit as `SaveEdit` makes it |
| PostService.PublishPost | WebSite/BackEnd/app/services/post_service.py:152-171 | 404 for an unknown post and 500 without an original translation, changing nothing; otherwise the post is screened on that text and translated when it passed |
| PostService.DeletePost | WebSite/BackEnd/app/services/post_service.py:108-116 | succeeds exactly for an existing post and its author or an admin, removing only the post row; 404 or 403 otherwise, changing nothing |
| PostService.StatusOnlyPublishes | WebSite/BackEnd/app/services/post_service.py:69-74 | an update that only sets the status to `published` publishes without screening, with no log and no translation |
| ReplyService.CreateReply | WebSite/BackEnd/app/services/reply_service.py:43-82 | fails with 404 `post_not_found` exactly when the post is missing or is unpublished and the caller is neither its author nor an admin, changing nothing; otherwise a new visible reply with no helpful votes is stored and the post's author is notified under `reply:{id}`, even when they replied to themselves |
| ReplyService.ReplyRows | WebSite/BackEnd/app/services/reply_service.py:13 | the scanned rows are exactly the scanned ids that name a reply, with that reply |
| ReplyService.Matching | WebSite/BackEnd/app/services/reply_service.py:13-15 | the rows kept are exactly those of the post, visible unless hidden ones are asked for |
| ReplyService.EarlierFirstPreorder | WebSite/BackEnd/app/services/reply_service.py:17 | ordering by creation time is a total preorder |
| ReplyService.ListReplies | WebSite/BackEnd/app/services/reply_service.py:10-19 | at most `limit` replies, each a stored reply of the post, visible unless hidden ones are asked for, sorted oldest first |
| ReplyService.WindowOfSorted | WebSite/BackEnd/app/services/reply_service.py:17 | a window of the sorted rows holds only matching rows and stays sorted |
| ReplyService.ListRepliesComplete | WebSite/BackEnd/app/services/reply_service.py:10-19 | with a scan covering every reply and a wide enough limit, every reply the filter admits is listed |
| ReplyService.ApplyUpdate | WebSite/BackEnd/app/services/reply_service.py:93-94 | each field supplied overwrites the stored one, unset fields keep theirs, and post, author, count and creation time never change |
| ReplyService.ApplyUpdateIdempotent | WebSite/BackEnd/app/services/reply_service.py:93-94 | sending the same update twice is sending it once, and an empty update changes nothing |
| ReplyService.AuthorCanUnhide | WebSite/BackEnd/app/services/reply_service.py:85-97 | nothing restricts the status an author sends, so a reply a moderator hid can be made visible again by its author |
| ReplyService.UpdateReply | WebSite/BackEnd/app/services/reply_service.py:85-97 | 404 for a missing reply, 403 for anyone but its author, with nothing changed; success exactly otherwise, storing the update |
| ReplyService.DeleteReply | WebSite/BackEnd/app/services/reply_service.py:100-108 | 404 for a missing reply, 403 for anyone but its author, with nothing changed; success exactly otherwise, removing only that row |
| ReplyService.AdminSetVisibility | WebSite/BackEnd/app/services/reply_service.py:111-130 | 404 exactly for a missing reply; otherwise only its status changes, to `hidden` (leaving the default listing) or `visible` (back in it) |
| ReplyService.AdminDeleteReply | WebSite/BackEnd/app/services/reply_service.py:133-139 | 404 exactly for a missing reply; otherwise that row alone is removed, whoever wrote it |
| ReportService.TargetStatus | WebSite/BackEnd/app/services/report_service.py:157-166 | a status is read exactly when the target is an existing post or reply |
| ReportService.TargetAuthor | WebSite/BackEnd/app/services/report_service.py:169-178 | an author is read exactly when the target exists |
| ReportService.ApplyContentShape | WebSite/BackEnd/app/services/report_service.py:142-154 | fails exactly on a missing post or reply; otherwise only the target's status moves, a reply's to `hidden` or `visible`, and `_get_target_status` then reads it back; any other type changes nothing |
| ReportService.ApplyKeepsAuthors | WebSite/BackEnd/app/services/report_service.py:142-178 | applying a status keeps every target's author |
| ReportService.HideThenRestore | WebSite/BackEnd/app/services/report_service.py:68-76 | hiding and then restoring from the status recorded before gives back the tables as they were, for a non-empty recorded status |
| ReportService.ApplyContentStatus | WebSite/BackEnd/app/services/report_service.py:142-154 | the method fails exactly when the table function does, changing nothing, and otherwise leaves its tables |
| ReportService.CreateReport | WebSite/BackEnd/app/services/report_service.py:11-32 | 400 `invalid_target` exactly for a type other than post or reply, with nothing stored; otherwise a pending, unresolved report recording the target's status then, or null when the target does not exist |
| ReportService.NotifiedOnce | WebSite/BackEnd/app/services/report_service.py:112-139 | resolving the same report again, with any outcome, notifies nobody again |
| ReportService.NotifyReportParties | WebSite/BackEnd/app/services/report_service.py:112-139 | the reporter is notified under the report id, and the target's author, when there is one other than the reporter, under `{report}:author` |
| ReportService.ResolveReport | WebSite/BackEnd/app/services/report_service.py:53-140 | 404 for an unknown report and 400 for an unknown action, changing nothing; hide and restore set the target's status (restore from the recorded status, else `published`) and fail with 404 on a missing target; the report becomes `resolved` or `rejected` and stamped, one `report_{action}` record is appended and the parties notified |
| VerificationService.Lifted | WebSite/BackEnd/app/services/verification_service.py:48 | the raised credibility is at least 80 and at least the old score, and is one of the two |
| VerificationService.LiftedStable | WebSite/BackEnd/app/services/verification_service.py:48 | raising twice is raising once, and raising keeps the order of scores |
| VerificationService.SubmitVerification | WebSite/BackEnd/app/services/verification_service.py:10-19 | one file row of purpose `verification` with the document address and one pending request pointing at it are stored |
| VerificationService.LiftProfile | WebSite/BackEnd/app/services/verification_service.py:45-48 | only the user's profile changes, only in its credibility, which ends at least 80 and not lower than before; a user without a profile gets none |
| VerificationService.Review | WebSite/BackEnd/app/services/verification_service.py:38-75 | 404 exactly for an unknown request, changing nothing; otherwise the request takes the outcome and the reviewing admin, credibility is raised on approval only, the user is notified under the request id and one `verification_{approve,reject}` action is appended |
| VerificationService.ApproveVerification | WebSite/BackEnd/app/services/verification_service.py:38-57 | 404 exactly for an unknown request, changing no table; otherwise the request row is approved by the reviewing admin, the user's credibility is raised to at least 80, the user gets one `verification_approved` notification keyed by the request id, and one `verification_approve` action is appended |
| VerificationService.RejectVerification | WebSite/BackEnd/app/services/verification_service.py:60-75 | 404 exactly for an unknown request, changing no table; otherwise the request row is rejected by the reviewing admin, the user gets one `verification_rejected` notification keyed by the request id, and one `verification_reject` action is appended; credibility never changes |
| VerificationService.ReviewNotifiedOnce | WebSite/BackEnd/app/services/verification_service.py:49-73 | reviewing a request twice with the same outcome notifies its user once |
| SearchService.TagParamShape | WebSite/BackEnd/app/services/search_service.py:11-15 | every normalised entry is a non-empty, trimmed, lower-case slug without a comma |
| SearchService.LowerKeepsShape | WebSite/BackEnd/app/services/search_service.py:14 | lower-casing keeps commas and surrounding whitespace where they are |
| SearchService.TagParamRoundTrip | WebSite/BackEnd/app/services/search_service.py:11-15 | any list of non-empty, trimmed, lower-case, comma-free slugs, joined with commas, normalises back to itself |
| SearchService.SearchRows | WebSite/BackEnd/app/services/search_service.py:28-53 | the corrected selection of the second Findings row: the rows are exactly the scanned posts the filters select, each once with its stored row; the source's join yields a post once per requested tag it carries (`SearchService.AsWrittenCountsTwice`) |
| SearchService.AsWrittenCountsTwice | WebSite/BackEnd/app/services/search_service.py:48-66 | as written, a post carrying two of the requested tags comes back at least twice (and `total` counts it twice), while the corrected rows hold it once |
| SearchService.SearchOrderPreorder | WebSite/BackEnd/app/services/search_service.py:55-60 | each of the three orderings is a total preorder |
| SearchService.SearchPosts | WebSite/BackEnd/app/services/search_service.py:18-68 | built on the corrected `SearchService.SearchRows` (second Findings row; as written a post with two requested tags appears and counts twice, `SearchService.AsWrittenCountsTwice`): the page holds at most `limit` selected posts, exactly as many as the window over `total` leaves, sorted by the requested order |
| SearchService.SearchTop | WebSite/BackEnd/app/services/search_service.py:55-68 | on a first page (offset 0), a selected post left off the page ranks no higher, in the requested order, than any post on it |
| SearchService.SearchPageDistinct | WebSite/BackEnd/app/services/search_service.py:55-68 | when the scan visits each post once, no page of results shows a post twice |
| SearchService.RowsOnce | WebSite/BackEnd/app/services/search_service.py:18-53 | with a scan that visits each post once, every corrected search row occurs once |
| SearchService.SearchRendersInLanguage | WebSite/BackEnd/app/services/search_service.py:28-67 | every post on the page has a translation in the requested language, so rendering never fails and shows that language |
| SearchService.TextMatchesContains | WebSite/BackEnd/app/services/search_service.py:35-42 | for a query without `%` or `_` the text filter is a case-insensitive substring test on title or content |
| SearchService.SearchTotal | WebSite/BackEnd/app/services/search_service.py:62-63 | when the scan visits each post once, `total` is the number of selected posts |
| SearchService.SelectedIn | WebSite/BackEnd/app/services/search_service.py:28-53 | exactly the scanned ids the filters select |
| SearchService.RowsCount | WebSite/BackEnd/app/services/search_service.py:62-63 | the corrected rows number exactly the selected ids of a scan without repeats |
| SearchService.Render | WebSite/BackEnd/app/services/search_service.py:67-111 | each row rendered in order as `_to_response` renders it; any failure is 500, and none occurs when every post has the language |
| SearchService.TagSlugs | WebSite/BackEnd/app/services/search_service.py:73-84 | every slug listed belongs to a scanned tag |
| SearchService.Hits | WebSite/BackEnd/app/services/search_service.py:80-84 | exactly the items matching the pattern |
| SearchService.MergedShape | WebSite/BackEnd/app/services/search_service.py:89-95 | the merge holds distinct terms from its inputs, at most `limit`, with the titles first when they are distinct and fit |
| SearchService.DedupPrefix | WebSite/BackEnd/app/services/search_service.py:89-95 | removing repeats from a prefix gives a prefix of the whole without repeats |
| SearchService.DedupDistinct | WebSite/BackEnd/app/services/search_service.py:89-95 | removing repeats from distinct entries changes nothing |
| SearchService.MergeSuggestions | WebSite/BackEnd/app/services/search_service.py:89-95 | the loop, stopping once `limit` is reached, leaves exactly the first `limit` distinct terms of titles then slugs |
| SearchService.SuggestTerms | WebSite/BackEnd/app/services/search_service.py:71-95 | without a query, the first `limit` slugs in ascending order; with one, the merge of the distinct matching titles and the matching slugs, each capped at `limit` |
| SearchService.SuggestionsMatch | WebSite/BackEnd/app/services/search_service.py:77-95 | every suggestion for a query without wildcards contains it, ignoring case, and is a stored title or a registry slug |
| SearchService.SuggestedSlugsFirst | WebSite/BackEnd/app/services/search_service.py:72-75 | without a query, a slug left off the list sorts after every listed one |
| SearchService.TrendingPreorder | WebSite/BackEnd/app/services/search_service.py:106 | the trending order is a total preorder |
| SearchService.PublishedRows | WebSite/BackEnd/app/services/search_service.py:105 | exactly the scanned published posts |
| SearchService.TrendingPosts | WebSite/BackEnd/app/services/search_service.py:98-111 | at most `limit` published posts, sorted by helpful count, then average accuracy, then newest |
| SearchService.TrendingTop | WebSite/BackEnd/app/services/search_service.py:103-108 | a published post left off the trending list ranks no higher than any post on it |
| Query.SortBy | WebSite/BackEnd/app/services/search_service.py:55-60 | `ORDER BY`: the rows sorted and a permutation of the input |
| Query.Window | WebSite/BackEnd/app/services/search_service.py:65 | `LIMIT`/`OFFSET`: at most `limit` rows, the consecutive rows from `offset` on |
| Query.TextLeAntisym | WebSite/BackEnd/app/services/search_service.py:73 | text ordering puts only equal strings both ways |
| Query.TextLePreorder | WebSite/BackEnd/app/services/search_service.py:73 | text ordering is a total preorder |
| Query.SortByMembers | WebSite/BackEnd/app/services/search_service.py:55-60 | sorting keeps exactly the rows it was given |
| Query.WindowOfSorted | WebSite/BackEnd/app/services/search_service.py:65 | a window of sorted rows is sorted |
| Query.WindowTop | WebSite/BackEnd/app/services/search_service.py:106-107 | `ORDER BY` then `LIMIT` keeps the top rows: anything left off ranks no higher than everything kept |
| PlainText.Contributions | WebSite/FrontEnd/src/utils/text.ts:14-21 | one part per block that has a text or an item list, never more parts than blocks |
| PlainText.ContributionsAppend | WebSite/FrontEnd/src/utils/text.ts:14-21 | blocks contribute independently: the parts of two runs of blocks are those of each, in order |
| PlainText.DropMarkChars | WebSite/FrontEnd/src/utils/text.ts:42 | the result holds exactly the characters of the input that are not markdown characters |
| PlainText.PlainTextCollapsed | WebSite/FrontEnd/src/utils/text.ts:1-45 | whatever the input and branch, the flattened text has no whitespace at either end, no two whitespace characters in a row and no whitespace but the plain space |
| PlainText.BlankIsEmpty | WebSite/FrontEnd/src/utils/text.ts:2-8 | blank input flattens to the empty text |
| PlainText.MarkdownPlainClean | WebSite/FrontEnd/src/utils/text.ts:39-44 | the markdown branch leaves none of the characters `` ` * _ > # - `` behind |
| PlainText.ImageDropped | WebSite/FrontEnd/src/utils/text.ts:40 | a markdown image disappears entirely |
| PlainText.LinkKeepsText | WebSite/FrontEnd/src/utils/text.ts:41 | a markdown link is replaced by its text |
| PlainText.StripRichText | WebSite/FrontEnd/src/utils/text.ts:1-45 | the loop over the blocks computes the flattened text `StripRichTextSpec` defines |
| PlainText.Preview | WebSite/FrontEnd/src/utils/text.ts:47-50 | text that fits is unchanged; longer text becomes its first `maxLength` characters followed by `...`, at most `maxLength + 3` characters |
| PlainText.PreviewText | WebSite/FrontEnd/src/utils/text.ts:47-50 | the preview of the flattened text, at most `maxLength + 3` characters |
| NotificationView.KindName | WebSite/FrontEnd/src/utils/notifications.ts:40 | every kind has a non-empty label name |
| NotificationView.ResolveType | WebSite/FrontEnd/src/utils/notifications.ts:5-10 | a type mentioning `reply` is a reply notice; the system kind is chosen exactly when none of the five words occurs; helpful and verified kinds only when one of their words occurs |
| NotificationView.ReplyType | WebSite/FrontEnd/src/utils/notifications.ts:6 | any type containing `reply` resolves to a reply notice |
| NotificationView.HelpfulType | WebSite/FrontEnd/src/utils/notifications.ts:7 | a type containing `helpful` or `rated` and no `y` resolves to a helpful notice |
| NotificationView.VerifiedType | WebSite/FrontEnd/src/utils/notifications.ts:8 | a type containing `verification` and none of the earlier words resolves to a verified notice |
| NotificationView.SystemType | WebSite/FrontEnd/src/utils/notifications.ts:9 | a type lacking letters of every earlier word resolves to a system notice |
| NotificationView.ReplyKinds | WebSite/FrontEnd/src/utils/notifications.ts:6 | the backend's `reply_created` and `reply_helpful` types show as reply notices |
| NotificationView.HelpfulKinds | WebSite/FrontEnd/src/utils/notifications.ts:7 | `post_helpful` and `post_rated` show as helpful notices |
| NotificationView.VerifiedKinds | WebSite/FrontEnd/src/utils/notifications.ts:8 | `verification_approved` and `verification_rejected` show as verified notices |
| NotificationView.ReviewKinds | WebSite/FrontEnd/src/utils/notifications.ts:9 | `post_reviewed` and `appeal_resolved` show as system notices |
| NotificationView.ReportKinds | WebSite/FrontEnd/src/utils/notifications.ts:9 | `report_resolved` and `report_result` show as system notices |
| NotificationView.AccountKinds | WebSite/FrontEnd/src/utils/notifications.ts:9 | `account_status` and `password_changed` show as system notices |
| NotificationView.Short | WebSite/FrontEnd/src/utils/notifications.ts:28-31 | the first six characters of the id, or all of it when shorter |
| NotificationView.BuildMessage | WebSite/FrontEnd/src/utils/notifications.ts:21-33 | no payload gives the generic text; a non-empty reason wins; otherwise the first non-empty id among post, reply, report and appeal is quoted by its first six characters, and the generic text when there is none |
| NotificationView.ReplyCreatedMessage | WebSite/FrontEnd/src/utils/notifications.ts:28 | a new-reply notice points at the post replied to |
| NotificationView.VoteMessages | WebSite/FrontEnd/src/utils/notifications.ts:28-29 | helpful votes and ratings on posts point at the post; a helpful vote on a reply points at the reply |
| NotificationView.ReviewMessage | WebSite/FrontEnd/src/utils/notifications.ts:23-28 | a review notice shows the moderator's non-empty reason, and points at the post otherwise |
| NotificationView.ReportMessage | WebSite/FrontEnd/src/utils/notifications.ts:30 | a report outcome points at the report, whichever payload the backend sent |
| NotificationView.OtherMessages | WebSite/FrontEnd/src/utils/notifications.ts:31-32 | an appeal decision points at the appeal; verification, account status and password notices show the generic text |
| NotificationView.MapNotification | WebSite/FrontEnd/src/utils/notifications.ts:35-45 | the entry keeps the id, resolves the type, builds the message, is read exactly when `read_at` is a non-empty string, and has an empty timestamp when `created_at` is missing |
| NotificationView.ReadMatchesStore | WebSite/FrontEnd/src/utils/notifications.ts:43 | an entry shows as read exactly when the stored notification has been marked read |
| NotificationView.TitlesTellKindsApart | WebSite/FrontEnd/src/utils/notifications.ts:40 | entries of different kinds have different titles |
| MarkdownSyntax.LinkLead | WebSite/FrontEnd/src/components/RichTextDisplay.tsx:139 | a link match at the start of the text is `[text](url)` with non-empty text free of `]` and a non-empty url free of `)` (the same pattern as text.ts, line 41) |
| MarkdownSyntax.LinkLeadComplete | WebSite/FrontEnd/src/components/RichTextDisplay.tsx:139 | every such link is matched, with exactly its text, url and length (the same pattern as text.ts, line 41) |
| MarkdownSyntax.ImageLead | WebSite/FrontEnd/src/components/RichTextDisplay.tsx:49 | an image match is `![alt](url)` with an alt free of `]` (possibly empty) and a non-empty url free of `)` (the same pattern as text.ts, line 40) |
| MarkdownSyntax.ImageLeadComplete | WebSite/FrontEnd/src/components/RichTextDisplay.tsx:49 | every such image is matched, with exactly its alt, url and length (the same pattern as text.ts, line 40) |
| MarkdownSyntax.BoldLead | WebSite/FrontEnd/src/components/RichTextDisplay.tsx:177 | a bold match is `**text**` with non-empty text free of `*` |
| MarkdownSyntax.BoldLeadComplete | WebSite/FrontEnd/src/components/RichTextDisplay.tsx:177 | every such bold run is matched, with exactly its text and length |
| MarkdownSyntax.ItalicLead | WebSite/FrontEnd/src/components/RichTextDisplay.tsx:192 | an italic match is `*text*` with non-empty text free of `*` |
| MarkdownSyntax.ItalicLeadComplete | WebSite/FrontEnd/src/components/RichTextDisplay.tsx:192 | every such italic run is matched, with exactly its text and length |
| MarkdownSyntax.LeadShape | WebSite/FrontEnd/src/components/RichTextDisplay.tsx:139-192 | for every pattern, a match at the start spells the pattern around its parts, and the parts meet the pattern's exclusions |
| MarkdownSyntax.LeadComplete | WebSite/FrontEnd/src/components/RichTextDisplay.tsx:139-192 | for every pattern, text of the pattern's shape is matched with exactly its parts |
| MarkdownSyntax.MatchAt | WebSite/FrontEnd/src/components/RichTextDisplay.tsx:139-192 | a match at a position starts there, is non-empty and ends within the text |
| MarkdownSyntax.MatchShape | WebSite/FrontEnd/src/components/RichTextDisplay.tsx:139-192 | a match at a position spells the pattern around its parts |
| MarkdownSyntax.MatchComplete | WebSite/FrontEnd/src/components/RichTextDisplay.tsx:139-192 | the pattern's shape at a position is matched there with exactly its parts |
| MarkdownSyntax.Find | WebSite/FrontEnd/src/components/RichTextDisplay.tsx:139-192 | `String.match` finds a match at or after the starting position |
| MarkdownSyntax.FindLeftmost | WebSite/FrontEnd/src/components/RichTextDisplay.tsx:139-192 | the match found is the leftmost: no position before it matches, and none matches at all when nothing is found |
| MarkdownSyntax.NoMatchAtEnd | WebSite/FrontEnd/src/components/RichTextDisplay.tsx:137 | no pattern matches at or past the end of the text |
| InlineMarkdown.Around | WebSite/FrontEnd/src/components/RichTextDisplay.tsx:142-145 | the text is the plain text before a match, the match and the rest, in order |
| InlineMarkdown.FormattingRoundTrip | WebSite/FrontEnd/src/components/RichTextDisplay.tsx:170-212 | the parts `parseInlineFormatting` produces spell the input again: nothing is lost, duplicated or reordered |
| InlineMarkdown.Reassemble | WebSite/FrontEnd/src/components/RichTextDisplay.tsx:179-188 | a part that spells the matched text, placed between the text before it and parts spelling the rest, spells the whole text |
| InlineMarkdown.FormattingWellFormed | WebSite/FrontEnd/src/components/RichTextDisplay.tsx:170-212 | every part is non-empty plain text or bold or italic text free of `*`, and never a link |
| InlineMarkdown.TokensRoundTrip | WebSite/FrontEnd/src/components/RichTextDisplay.tsx:132-168 | the parts `parseInlineMarkdown` produces spell the input again |
| InlineMarkdown.ReassembleLink | WebSite/FrontEnd/src/components/RichTextDisplay.tsx:140-159 | a link part between the formatted text before it and the parts of the rest spells the whole text |
| InlineMarkdown.TokensWellFormed | WebSite/FrontEnd/src/components/RichTextDisplay.tsx:132-168 | every part is well formed: links with non-empty text and url, emphasis without `*`, non-empty plain text |
| InlineMarkdown.NoStarsVerbatim | WebSite/FrontEnd/src/components/RichTextDisplay.tsx:206-208 | text without `*` is one plain part |
| InlineMarkdown.NoMarkupVerbatim | WebSite/FrontEnd/src/components/RichTextDisplay.tsx:162-208 | text without `[` or `*` is one plain part |
| InlineMarkdown.StarsPlain | WebSite/FrontEnd/src/components/RichTextDisplay.tsx:177-192 | a lone `**` is plain text, since neither pattern matches an empty run |
| InlineMarkdown.LinkAfterStars | WebSite/FrontEnd/src/components/RichTextDisplay.tsx:139 | in `**[t](u)**` the link is found after the two stars |
| InlineMarkdown.LinkBeforeBold | WebSite/FrontEnd/src/components/RichTextDisplay.tsx:137-164 | `**[t](u)**` renders as plain stars, the link and plain stars: links are taken before bold, so bold around a link is not applied |
| InlineMarkdown.ParseInlineFormatting | WebSite/FrontEnd/src/components/RichTextDisplay.tsx:170-212 | the loop produces exactly the parts `Formatting` defines |
| InlineMarkdown.ParseInlineMarkdown | WebSite/FrontEnd/src/components/RichTextDisplay.tsx:132-168 | the loop produces exactly the parts `Tokens` defines, and they spell the input again |
| MarkdownBlocks.SpacedRest | WebSite/FrontEnd/src/components/RichTextDisplay.tsx:77-100 | `\s+(.+)$`: a non-empty run of whitespace, then a non-empty remainder without a line terminator, returned as the capture |
| MarkdownBlocks.SpacedRestComplete | WebSite/FrontEnd/src/components/RichTextDisplay.tsx:77-100 | whitespace followed by a non-blank-led remainder is matched with that remainder as the capture |
| MarkdownBlocks.SpaceRunOf | WebSite/FrontEnd/src/components/RichTextDisplay.tsx:77 | the whitespace run of `ws + rest` is exactly `ws` when `rest` starts with no whitespace |
| MarkdownBlocks.DigitRun | WebSite/FrontEnd/src/components/RichTextDisplay.tsx:100 | the length of the leading run of digits |
| MarkdownBlocks.DigitRunOf | WebSite/FrontEnd/src/components/RichTextDisplay.tsx:100 | the digit run of `digits + rest` is exactly `digits` when `rest` starts with a non-digit |
| MarkdownBlocks.Classify | WebSite/FrontEnd/src/components/RichTextDisplay.tsx:47-123 | a line classified blank is all whitespace; a paragraph line is kept whole and is not blank |
| MarkdownBlocks.ImageLineComplete | WebSite/FrontEnd/src/components/RichTextDisplay.tsx:49-56 | a line that is exactly an image becomes an image with its address and its alt text, `Image` when the alt is empty |
| MarkdownBlocks.HeadingComplete | WebSite/FrontEnd/src/components/RichTextDisplay.tsx:77-82 | `##`, whitespace and text make a heading of that text |
| MarkdownBlocks.BulletComplete | WebSite/FrontEnd/src/components/RichTextDisplay.tsx:89-95 | `-`, whitespace and text make a bullet item of that text |
| MarkdownBlocks.ClassifyOrdered | WebSite/FrontEnd/src/components/RichTextDisplay.tsx:100-106 | digits, a dot and a spaced remainder make a numbered item of the remainder |
| MarkdownBlocks.OrderedComplete | WebSite/FrontEnd/src/components/RichTextDisplay.tsx:100-106 | `digits.`, whitespace and text make a numbered item of that text |
| MarkdownBlocks.BlankComplete | WebSite/FrontEnd/src/components/RichTextDisplay.tsx:111-114 | a line of whitespace only is blank |
| MarkdownBlocks.ClassifyAll | WebSite/FrontEnd/src/components/RichTextDisplay.tsx:47 | one classified line per line of the text, in order |
| MarkdownBlocks.FallbackAsWrittenInjects | WebSite/FrontEnd/src/components/RichTextDisplay.tsx:58-67 | as written, every `<` of the image address reaches the fallback markup unescaped, at its own position inside the template |
| MarkdownBlocks.EscapeHtml | WebSite/FrontEnd/src/components/RichTextDisplay.tsx:63-66 | the escaped address holds no `<`, `>` or `"` |
| MarkdownBlocks.FallbackInert | WebSite/FrontEnd/src/components/RichTextDisplay.tsx:58-67 | with the address escaped, no `<` lies between the template's fixed parts, whatever the address |
| MarkdownBlocks.ListsMaximal | WebSite/FrontEnd/src/components/RichTextDisplay.tsx:87-108 | consecutive list lines of one kind are grouped into one list: no two adjacent lists of the same kind |
| MarkdownBlocks.ItemsInOrder | WebSite/FrontEnd/src/components/RichTextDisplay.tsx:23-108 | the lists' items are exactly the list lines' items, in order |
| MarkdownBlocks.OthersInOrder | WebSite/FrontEnd/src/components/RichTextDisplay.tsx:47-123 | the non-list elements are exactly those the other lines make, in order |
| MarkdownBlocks.FlushList | WebSite/FrontEnd/src/components/RichTextDisplay.tsx:23-45 | `flushList` emits the pending bullet list, then the pending numbered list, and leaves nothing pending and no current kind |
| MarkdownBlocks.ExtendBullets | WebSite/FrontEnd/src/components/RichTextDisplay.tsx:91-95 | another bullet line while a bullet list is open extends that list |
| MarkdownBlocks.ExtendNumbered | WebSite/FrontEnd/src/components/RichTextDisplay.tsx:102-106 | another numbered line while a numbered list is open extends that list |
| MarkdownBlocks.StartBullets | WebSite/FrontEnd/src/components/RichTextDisplay.tsx:91-95 | a bullet line after anything else flushes what is pending and opens a bullet list |
| MarkdownBlocks.StartNumbered | WebSite/FrontEnd/src/components/RichTextDisplay.tsx:102-106 | a numbered line after anything else flushes what is pending and opens a numbered list |
| MarkdownBlocks.AddOther | WebSite/FrontEnd/src/components/RichTextDisplay.tsx:50-118 | an image, heading, blank or paragraph line flushes what is pending and adds its own element |
| MarkdownBlocks.ParseMarkdown | WebSite/FrontEnd/src/components/RichTextDisplay.tsx:16-130 | the line loop produces exactly the elements `Elements` defines for the classified lines |
| HtmlSanitizer.TrimLeadingC0 | WebSite/FrontEnd/src/components/RichTextDisplay.tsx:233 | the value without its leading C0 controls and spaces: a suffix of it that starts with neither |
| HtmlSanitizer.RemoveTabNewlineAppend | WebSite/FrontEnd/src/components/RichTextDisplay.tsx:233 | removing tabs and newlines works piecewise |
| HtmlSanitizer.RemoveTabNewlineKeeps | WebSite/FrontEnd/src/components/RichTextDisplay.tsx:233 | a value without tabs and newlines is unchanged |
| HtmlSanitizer.SchemeLead | WebSite/FrontEnd/src/components/RichTextDisplay.tsx:233 | a value the pattern catches starts with the scheme's own letters: no leading space, tab or newline |
| HtmlSanitizer.CorrectedCoversAsWritten | WebSite/FrontEnd/src/components/RichTextDisplay.tsx:233 | every value the pattern catches does run script as the browser reads it |
| HtmlSanitizer.AsWrittenMissesLeadingSpace | WebSite/FrontEnd/src/components/RichTextDisplay.tsx:233 | a `javascript:` value behind a leading space escapes the pattern although the browser runs it |
| HtmlSanitizer.AsWrittenKeepsScriptLink | WebSite/FrontEnd/src/components/RichTextDisplay.tsx:226-236 | as written, `href=" javascript:…"` is kept; the corrected rule removes it |
| HtmlSanitizer.CorrectedRemovesMore | WebSite/FrontEnd/src/components/RichTextDisplay.tsx:226-236 | the corrected rule removes every attribute the as-written rule removes |
| HtmlSanitizer.FilterAttrs | WebSite/FrontEnd/src/components/RichTextDisplay.tsx:226-236 | the corrected attribute loop of the third Findings row: exactly the attributes that are neither event handlers nor script URLs as the browser reads them are kept; the loop as written tests `/^javascript:/i` on the raw value (`HtmlSanitizer.DropAttrAsWritten`, `HtmlSanitizer.AsWrittenKeepsScriptLink`) |
| HtmlSanitizer.FilterKeepsAll | WebSite/FrontEnd/src/components/RichTextDisplay.tsx:226-236 | attributes none of which is removed are kept as they are |
| HtmlSanitizer.SanitizedIsClean | WebSite/FrontEnd/src/components/RichTextDisplay.tsx:223-237 | after sanitising with the corrected attribute test, no `script` or `style` element and no removable attribute remains at any depth |
| HtmlSanitizer.CleanUnchanged | WebSite/FrontEnd/src/components/RichTextDisplay.tsx:223-237 | clean content passes through unchanged |
| HtmlSanitizer.SanitizeIdempotent | WebSite/FrontEnd/src/components/RichTextDisplay.tsx:223-237 | sanitising twice is sanitising once |
| HtmlSanitizer.SanitizedHtml | WebSite/FrontEnd/src/components/RichTextDisplay.tsx:217-242 | when parsing throws, the content itself; otherwise the serialisation of a body clean under the corrected attribute test |
| RichText.HtmlHasBrackets | WebSite/FrontEnd/src/components/RichTextDisplay.tsx:9 | content taken for HTML holds both `<` and `>` |
| RichText.OpeningTagIsHtml | WebSite/FrontEnd/src/components/RichTextDisplay.tsx:9 | any `<` followed by a letter, with a `>` later, makes the content HTML |
| RichText.ClosingTagIsHtml | WebSite/FrontEnd/src/components/RichTextDisplay.tsx:9 | so does `</` followed by a letter, with a `>` later |
| RichText.LoneAngleNotTag | WebSite/FrontEnd/src/components/RichTextDisplay.tsx:9 | a `<` followed by neither a letter nor `/` starts no tag |
| RichText.TagInMiddle | WebSite/FrontEnd/src/components/RichTextDisplay.tsx:58-67 | a `<` and a letter inside a markup that ends in `>` open a tag there |
| RichText.NoCloseNotHtml | WebSite/FrontEnd/src/components/RichTextDisplay.tsx:9 | content without `>` is never taken for HTML |
| RichText.FallbackOpensTag | WebSite/FrontEnd/src/components/RichTextDisplay.tsx:49-67 | an image line whose address holds `<` and a letter but no `>` is rendered as markdown, and the fallback markup written for it opens a tag inside the address |
| RichText.Display | WebSite/FrontEnd/src/components/RichTextDisplay.tsx:8-254 | HTML content is shown sanitised with the corrected attribute test of the third Findings row (as written, `href=" javascript:…"` survives), and anything else as the markdown elements of its lines |
| RichText.PlainContentIsMarkdown | WebSite/FrontEnd/src/components/RichTextDisplay.tsx:9-130 | content without `<` renders as markdown, its lists grouped maximally and every item kept in order |
| CreatePost.Validate | WebSite/FrontEnd/src/components/CreatePostPage.tsx:50-72 | one message per failing field: the title when shorter than 10 after trimming, the category when empty, the content when shorter than 50 after flattening, each with the "required" key when empty; success exactly when there is none |
| CreatePost.AddTag | WebSite/FrontEnd/src/components/CreatePostPage.tsx:113-119 | the trimmed tag is appended exactly when it is non-empty, new, and fewer than five tags exist; otherwise nothing changes |
| CreatePost.AddTagValid | WebSite/FrontEnd/src/components/CreatePostPage.tsx:113-119 | adding keeps the tags distinct, trimmed, non-empty and at most five |
| CreatePost.RemoveTag | WebSite/FrontEnd/src/components/CreatePostPage.tsx:121-123 | the remaining tags are exactly the others |
| CreatePost.RemoveTagAppend | WebSite/FrontEnd/src/components/CreatePostPage.tsx:121-123 | removing works piecewise, so the remaining tags keep their order |
| CreatePost.RemoveAbsent | WebSite/FrontEnd/src/components/CreatePostPage.tsx:121-123 | removing an absent tag changes nothing |
| CreatePost.RemoveTagValid | WebSite/FrontEnd/src/components/CreatePostPage.tsx:121-123 | removing keeps the picker's invariant |
| CreatePost.RemoveUndoesAdd | WebSite/FrontEnd/src/components/CreatePostPage.tsx:113-123 | removing a tag just added gives back the tags before |
| CreatePost.SubmittedTags | WebSite/FrontEnd/src/components/CreatePostPage.tsx:85-88 | no empty tag is sent, at most one more than the picked tags, and the chosen category first |
| CreatePost.DropEmptyKeeps | WebSite/FrontEnd/src/components/CreatePostPage.tsx:85-88 | a list without empty strings is unchanged by the filter |
| CreatePost.SubmittedOfValid | WebSite/FrontEnd/src/components/CreatePostPage.tsx:85-88 | with a category chosen and valid picked tags, the category followed by exactly those tags is sent |
| CreatePost.HandlePublish | WebSite/FrontEnd/src/components/CreatePostPage.tsx:74-111 | nothing is sent unless validation passes; otherwise a pending post with the trimmed title and content, the submitted tags, no category id and the interface language |
| CreatePost.DropEmptyTwice | WebSite/FrontEnd/src/components/CreatePostPage.tsx:85-88 | filtering the tags and then the whole list drops the same strings as one filter |
| CreatePost.DropEmptyIdempotent | WebSite/FrontEnd/src/components/CreatePostPage.tsx:85-88 | filtering twice is filtering once |
| Strings.CollapseShape | WebSite/BackEnd/app/services/reply_service.py:57 | `" ".join(s.split())` leaves single plain spaces between words only, keeps every non-whitespace character in order, and never lengthens the text |
| Strings.ExcerptShape | WebSite/BackEnd/app/services/reply_service.py:57-59 | an excerpt is the collapsed text when it has at most 120 characters, and otherwise exactly its first 120 characters followed by `...` (the same excerpt as report_service.py, lines 109-110) |
| Strings.ILikeContains | WebSite/BackEnd/app/services/search_service.py:35-42 | a `%q%` pattern built from a query without wildcard characters matches exactly the texts that contain the query, ignoring ASCII case |

## Left out

- The AI client (`ai_service.py`): prompts, model fallback and the HTTP call are not modelled. Screening and translation take the classifier's or translator's outcome as a parameter: a result, not configured, an application error, or another failure.
- Password hashing, JWT encoding and decoding, and token hashing (`core/security.py`) are uninterpreted functions held in a `Crypto` value.
- Sending email (`email_service.py`) is I/O and is not modelled. The code row that `send_email_code` stores is modelled; the random code is a parameter.
- Wall-clock time: `datetime.now` is a `now` parameter and expiry is a comparison of clock readings. Calendar arithmetic (`admin_stats_service.py`) is not part of this model.
- Floating point: `accuracy_avg` is an exact rational, so rounding errors of the float column are not modelled.
- Concurrency and transactions: every call is one sequential step. The race between two concurrent identical votes, which the unique constraint turns into an IntegrityError, is not modelled; the membership check before the insert is.
- The FastAPI wiring (`api/*.py`, `main.py`, `core/auth.py`, the middleware) is not part of this model. Role checks that the routes impose appear as method parameters (`isAdmin`) where a service reads them.
- `revoke_refresh_token`, `list_users`, `list_logs`, `get_log`, `create_appeal`, `list_pending_posts`, `list_posts`, `get_post`, `list_user_replies`, `list_all_replies`, `get_latest_verification` and `list_verification_queue` are not modelled. They are single reads, filters or inserts without a check, and they add no behaviour beyond `Query.SortBy` and `Query.Window`, which `ListReplies`, `ListCategories` and the search model already use.
- The human-readable `detail` of an `AppError` is not modelled; the status code and the machine-readable code are.
- Unicode: whitespace, `str.strip`, `str.split`, `.lower()`, JavaScript's `\s` and `.trim()`, and SQL `ILIKE` are modelled on the ASCII set. Lengths count characters, so JavaScript's UTF-16 code units are not modelled.
- `JSON.parse`, `DOMParser`, `textContent`, HTML serialisation, `toLocaleString` and the i18n function `t` are parameters. A translated message is its key and argument.
- React rendering is not modelled: element keys, class names, `useMemo`/`useEffect` and the JSX tree. An element is its kind and its inline parts.
- The image element's `onError` handler runs in the browser after a failed load. Only the fallback markup it writes is modelled, without its indentation.
- In `handlePublish`, scrolling to the top, the `submitting` flag, the network call, its error message and the `onPublish` callback are not modelled. The request that would be sent is.
- Deleting a post or a reply (`PostService.DeletePost`, `ReplyService.DeleteReply`, `ReplyService.AdminDeleteReply`) removes only that row. `helpfulness_votes` has no foreign key, so the votes on the deleted target stay behind. `accuracy_feedbacks.post_id` is a foreign key without `ON DELETE`; whether the database then refuses the deletion or leaves the ratings behind depends on the database and is not modelled, so the model leaves them behind. Either way, the author's stored `helpfulness_score` and `accuracy_score` are not recomputed and can disagree with the rows until the next vote or rating recounts that author. The interaction calls therefore preserve `HelpfulConsistent` and `AccuracyConsistent` without requiring them, and each touched counter equals its recount from the rows whatever it held before.
- `NotificationService.ListNotifications`: its own contract states the bound and ownership only. The newest-first order is stated by `ListAfterInsert`, and only for the first page.
- `MarkdownBlocks.Classify`: its own contract states the blank and paragraph cases only. Each pattern's case is stated by the `…Complete` lemmas beside it.

## Findings

| source | as written | input that shows it | evidently intended | confidence | as-written member | corrected member |
|---|---|---|---|---|---|---|
| WebSite/BackEnd/app/services/post_service.py:253-271 | `_apply_tags` normalises the slugs but does not drop repeats. A slug that appears twice is inserted twice as a new tag, violating the unique slug, or linked twice to the post. | tags `["housing", "Housing"]` on a new post | repeats after normalisation are dropped, so the post is tagged once | high (not executed) | PostTags.AsWrittenHousing | PostTags.ApplyTags |
| WebSite/BackEnd/app/services/search_service.py:48-53, WebSite/BackEnd/app/services/search_service.py:62-66 | the tag filter joins `post_tags` and `tags` without `DISTINCT`. A post with two of the requested tags yields two rows, and `total` counts both. | a published post tagged `housing` and `visa`, searched with `tags=housing,visa` | each matching post once, and `total` the number of posts | medium (not executed) | SearchService.AsWrittenCountsTwice | SearchService.SearchTotal |
| WebSite/FrontEnd/src/components/RichTextDisplay.tsx:233 | `/^javascript:/i` is matched against the raw attribute value. The browser strips leading spaces and C0 controls, and removes tabs and newlines, before reading the scheme. | `<a href=" javascript:alert(1)">x</a>` | every `href`/`src` whose URL has the `javascript:` scheme is removed | high (not executed) | HtmlSanitizer.AsWrittenKeepsScriptLink | HtmlSanitizer.SanitizedIsClean |
| WebSite/FrontEnd/src/components/RichTextDisplay.tsx:58-67 | the image fallback writes the image address into `innerHTML` unescaped. Markdown content never holds a `<`, a letter and a later `>`, but the template's own `>` closes a tag the address opens. | the post `![a](x<img src=x onerror=alert&#40;1&#41;)`, whose address fails to load | the address is shown as text | high (not executed) | RichText.FallbackOpensTag | MarkdownBlocks.FallbackInert |
