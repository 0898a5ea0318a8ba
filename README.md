# Profile-access grants, notifications and likes

A Dafny model of the client logic of a social feed app. The app talks to a
hosted relational store. The model covers:

- **The access ledger** (`services/accessRequestService.js`). One user asks
  to see another user's profile. The owner accepts or rejects. Accepting
  creates a grant that expires 24 hours later and is meant to be used once.
  The viewer's screen checks the grant and then marks it used. The store's
  `profile_access_requests` and `profile_access_grants` tables are maps from
  row id to row.
- **The notification relay** (`services/notificationService.js`). This is
  the `notifications` table, again a map from row id to row. It offers
  insert, a listing per receiver (newest first), an unread test, and
  mark-all-read.
- **The request dialog** (`components/ProfileAccessModal.jsx`). It creates
  the request and then notifies the owner.
- **The notification row** (`components/NotificationItem.jsx`). It decides
  where a tap leads. For a request, its accept and reject buttons call the
  ledger, send the "granted" reply after a successful accept, and set the
  `isProcessing` / `isProcessed` flags.
- **The like button** (`components/PostCard.jsx`). It covers the local
  `likes` list, the `liked` test, the like/unlike toggle, the "liked your
  post" notification, and the like and comment counts.

Time is an integer clock in milliseconds. Every request to the store takes a
`Net` parameter: `Up`, or `Down(message)` for a store or network error. So
each error branch of the source is a branch of the model.

Each call that writes the store is modelled twice:

- A *step function* on table values (`RequestStep`, `AcceptStep`,
  `MarkAllRead`, …). It is the specification, and the lemmas are stated
  about it.
- A method of a class that holds the tables (`AccessLedger`,
  `NotificationStore`) or the component state (`ItemState`,
  `PostCardState`). The method changes the fields one store request at a
  time, as the source does, and is proved to end in the state that the step
  function gives.

Calls that only read are functions.

Points where the model follows the code rather than the intended design:

- `.single()` succeeds only when exactly one row matches. So the duplicate
  pre-check of `createAccessRequest` blocks only when it finds exactly one
  pending request. It fails open when its lookup errors. Once two pending
  requests exist, it no longer blocks at all.
- `checkProfileAccess` denies access when two unused grants exist for the
  same pair. This happens after a second request is accepted before the
  first grant was used.
- `useProfileAccess` has no condition: it marks the grant used whether or
  not the grant is expired or already used. Single use comes from the check
  filtering on `isused = false`. A second check after use fails its lookup.
  It does not report a distinct "already used" error.
- `acceptAccessRequest` ignores the error of its request delete. It reports
  success and leaves the request in place.

## Model

| member | source | states |
|---|---|---|
| `AccessRequestService.RequestStep` | services/accessRequestService.js:4-38 | Refused with "Request already pending", inserting nothing, exactly when the lookup goes through and exactly one pending row matches. Otherwise one pending row for (sender, receiver) is inserted under a fresh id, or nothing changes when the insert fails. The grants table is untouched. |
| `AccessRequestService.UniquePendingAtMostOne` | services/accessRequestService.js:7-13 | With at most one pending request per pair, the pre-check sees at most one row. |
| `AccessRequestService.OnlySamePairBlocks` | services/accessRequestService.js:7-17 | The pre-check is keyed on (sender, receiver, pending) only. Pending requests in the reverse direction or between other users never stop a new request. |
| `AccessRequestService.RequestKeepsUniquePending` | services/accessRequestService.js:7-27 | When the pre-check's lookup goes through, a request call keeps at most one pending request per pair. |
| `AccessRequestService.LookupFailureAdmitsDuplicate` | services/accessRequestService.js:7-19 | When the pre-check lookup fails, the request is still inserted. This leaves two pending rows for the same pair. |
| `AccessRequestService.DuplicatesNoLongerBlock` | services/accessRequestService.js:7-17 | Once two pending rows exist for a pair, `.single()` fails and a third request is inserted. |
| `AccessRequestService.RequestTwiceRefused` | services/accessRequestService.js:7-27 | Asking twice before the owner answers: the first request is inserted and the second is refused as already pending. |
| `AccessRequestService.AcceptStep` | services/accessRequestService.js:65-102 | Succeeds iff the grant insert succeeds. Failure leaves both tables unchanged, so the request stays. Success adds exactly one grant (grantedBy = owner, grantedTo = requester, expiresAt = now + 24h, unused). It then removes the request when the delete goes through, and returns success even when the delete fails. It keeps used grants used and keeps pending requests unique. |
| `AccessRequestService.AcceptReopensPair` | services/accessRequestService.js:86-97 | After a successful accept deletes the pair's pending request, a new request for the same pair is accepted by the pre-check. |
| `AccessRequestService.RejectStep` | services/accessRequestService.js:105-121 | Deletes exactly the request with the given id and creates no grant. Succeeds iff the delete goes through. |
| `AccessRequestService.CheckProfileAccess` | services/accessRequestService.js:124-163 | Fails exactly when the lookup fails or the number of unused grants for (grantedTo, grantedBy) is not one. Otherwise it names that sole grant. It allows access iff `now <= expiresAt` and reports it expired iff `now > expiresAt`. As a function, it writes nothing. |
| `AccessRequestService.AcceptedGrantIsFound` | services/accessRequestService.js:143-158 | For a pair without unused grants, the grant just accepted gives access at every time up to and including now + 24h. It is reported expired strictly after that. |
| `AccessRequestService.SecondGrantBlocksCheck` | services/accessRequestService.js:126-136 | Accepting a request for a pair that still holds an unused grant leaves two unused grants. The check then fails at every time. |
| `AccessRequestService.UseStep` | services/accessRequestService.js:166-185 | Sets `isUsed` and `usedAt = now` on that grant id only, with no expiry or prior-use condition. Every other row is unchanged. An unknown id changes nothing. |
| `AccessRequestService.UseHidesGrant` | services/accessRequestService.js:168-174 | After marking a grant used, the unused grants of every pair are the previous ones minus exactly that grant. |
| `AccessRequestService.UsedGrantIsNotSeenAgain` | services/accessRequestService.js:124-185 | Once the grant that a check allowed is marked used, every later check for that pair fails, at any time. |
| `AccessRequestService.DeleteStep` | services/accessRequestService.js:188-204 | Removes the grant with that id whatever its `isUsed` value. Nothing else changes. |
| `AccessRequestService.DeleteOnlyHides` | services/accessRequestService.js:190-193 | Deleting a grant removes exactly that grant from every pair's unused grants. |
| `AccessRequestService.AccessLedger.CreateAccessRequest` | services/accessRequestService.js:4-38 | The pre-check and then the insert, on the tables in place. The resulting tables and result are those of `RequestStep`. |
| `AccessRequestService.AccessLedger.AcceptAccessRequest` | services/accessRequestService.js:65-102 | The grant insert and then the request delete, in place. The resulting tables and result are those of `AcceptStep`. |
| `AccessRequestService.AccessLedger.RejectAccessRequest` | services/accessRequestService.js:105-121 | The delete in place. The resulting tables and result are those of `RejectStep`. |
| `AccessRequestService.AccessLedger.UseProfileAccess` | services/accessRequestService.js:166-185 | The update in place. The resulting tables and result are those of `UseStep`. |
| `AccessRequestService.AccessLedger.DeleteProfileAccess` | services/accessRequestService.js:188-204 | The delete in place. The resulting tables and result are those of `DeleteStep`. |
| `NotificationService.InsertNotification` | services/notificationService.js:3-22 | Inserts exactly the given row under a fresh id and changes no other row. |
| `NotificationService.NotificationStore.CreateNotification` | services/notificationService.js:3-22 | Succeeds iff the insert goes through. The table is then `InsertNotification` of the old one, or unchanged on failure. |
| `NotificationService.NewestFirstIsSortedListing` | services/notificationService.js:26-33 | The store's newest-first order lists every given row exactly once, sorted by `createdAt` descending. |
| `NotificationService.FetchNotifications` | services/notificationService.js:24-45 | On success: only rows whose receiver is the argument, every such row exactly once, ordered by `createdAt` descending. Fails iff the lookup fails. |
| `NotificationService.CheckUnreadNotifications` | services/notificationService.js:47-66 | `hasUnread` holds iff the lookup goes through and some row for that receiver is unread. |
| `NotificationService.MarkAllRead` | services/notificationService.js:68-87 | Afterwards the receiver has no unread row. Only the read flag changes. Rows of other receivers, and rows already read, are unchanged. |
| `NotificationService.MarkAllReadIdempotent` | services/notificationService.js:70-75 | Marking read twice gives the same table as marking it once. |
| `NotificationService.MarkedHasNoUnread` | services/notificationService.js:47-87 | After marking a receiver's rows read, the unread check for that receiver is negative. |
| `NotificationService.NotificationStore.MarkNotificationsAsRead` | services/notificationService.js:68-87 | On success the table is `MarkAllRead` of the old one and the call returns the ids that were unread. On failure nothing changes. |
| `ProfileAccessModal.RequestProfileAccess` | components/ProfileAccessModal.jsx:5-72 | Cancel writes nothing. Yes creates the request (sender = requester, receiver = profile owner). On success it inserts exactly one unread `profile_access_request` notification from sender to receiver carrying the new request id, unless that insert fails, and it ends in `onSuccess` either way. On failure it inserts no notification and ends in `onError` with the request's message. |
| `NotificationItem.HandleClick` | components/NotificationItem.jsx:20-58 | A request notification never navigates. A granted one opens `/viewerProfile` with userId = sender and the payload's grant id. Any other type opens `postDetails` with the payload's post and comment ids. A payload that does not parse navigates nowhere. |
| `NotificationItem.ItemState.HandleAcceptRequest` | components/NotificationItem.jsx:60-91 | Accepts with the payload's request id, item sender as requester and item receiver as owner. After a successful accept it sends an unread `profile_access_granted` reply with sender and receiver swapped, carrying the grant id. `isProcessed` becomes true only on success, and `isProcessing` is reset. At most one action succeeds per item. |
| `NotificationItem.ItemState.HandleRejectRequest` | components/NotificationItem.jsx:93-112 | Rejects with the payload's request id and writes no notification. `isProcessed` becomes true only on success, and `isProcessing` is reset. |
| `PostCard.FilterLikes` | components/PostCard.jsx:173-174 | The filtered list holds exactly the likes of the list that are by the user (or by others), and is no longer than the list. |
| `PostCard.Liked` | components/PostCard.jsx:283 | `liked` holds iff some like in the list has the current user's id. |
| `PostCard.ToggleLike` | components/PostCard.jsx:170-188 | Flips `liked`. Unliking keeps exactly the likes by other users. Liking appends exactly one `{userId, postId}` at the end and keeps the rest. |
| `PostCard.FilterLikesAppend` | components/PostCard.jsx:173-174 | Filtering commutes with concatenation, so unliking keeps the other likes in their original order. |
| `PostCard.FilterLikesNoneByUser` | components/PostCard.jsx:173 | Removing the user's likes from a list without any changes nothing. |
| `PostCard.FilterLikesSplit` | components/PostCard.jsx:173-174 | The user's likes and the others' likes together account for the whole list. |
| `PostCard.LikeThenUnlikeRestores` | components/PostCard.jsx:170-188 | Starting from not liked, a like followed by an unlike restores the original list. |
| `PostCard.ToggleLikeCount` | components/PostCard.jsx:381-383 | The shown count, `likes.length`, rises by one on a like. On an unlike it falls by the number of the user's likes, so by one when the user has a single like. |
| `PostCard.CommentCount` | components/PostCard.jsx:390-392 | The comment count is `comments[0].count` when present, and 0 otherwise. |
| `PostCard.PostCardState.constructor` | components/PostCard.jsx:123-129 | The list starts as `item.postLikes`, or empty when it is absent. |
| `PostCard.PostCardState.SyncLikes` | components/PostCard.jsx:127-129 | When the prop changes, the list is reset to `item.postLikes`, or empty. |
| `PostCard.PostCardState.OnLike` | components/PostCard.jsx:170-208 | The list becomes `ToggleLike` of the old list, whatever the write returns. A "liked your post" notification with payload `{postId}` is inserted only when liking, the like write succeeds, the liker is not the post's author and the insert goes through. |
| `Protocol.RequestAcceptView` | components/NotificationItem.jsx:60-91 | The full exchange: request, request notice (no navigation), accept (deletes that request), reply (opens the owner's profile with the grant), check (access up to 24h, expired after), use. After the use, every later check fails. |
| `Protocol.ReplyOpensGranterProfile` | components/NotificationItem.jsx:66-77 | The granted reply goes to the requester and opens the owner's profile with the grant id it carries. |
| `Protocol.LikeNoticeOpensPost` | components/PostCard.jsx:192-203 | Tapping a like notification opens the liked post. |

## Left out

- Feed reconciliation, pagination and the realtime change streams. They live in screens that are not part of this model.
- `getAccessRequests` (services/accessRequestService.js:41-62) is left out. It is a listing that the modelled components never call, and the model's requests carry no creation time to order by.
- The store client itself. Each table is a map and each query a filter. Each network or store error is the `Net` parameter of that call. Row ids come from a counter standing for the store's id generator. `created_at` of a notification is the clock value the caller passes.
- Races between sessions are left out. Calls are sequential, so the non-atomic pre-check/insert and check/use pairs are never interleaved.
- Wall-clock and time-zone effects of `setHours(getHours() + 24)` are left out. The lifetime is a fixed 24 hours in milliseconds. Date formatting with `moment` is left out.
- JSON encoding of the `data` column is left out. Payloads are a datatype, and `Malformed` stands for text that `JSON.parse` rejects.
- `NotificationService.FetchNotifications`: returns row ids rather than rows joined with the sender's profile. The order among rows with the same `createdAt` is left unspecified.
- The `if (!data)` branch of `checkProfileAccess` is not modelled. `.single()` either errors or returns one row, so that branch cannot be reached.
- `NotificationItem.ItemState.HandleAcceptRequest`: `isProcessing` is true only while the store calls are awaited. A sequential model cannot observe that span, so the buttons' disabling during a call is stated only as the precondition that a handler runs from an enabled state.
- The likes-table writes `createPostLike` / `removePostLike` are left out (services/postService.js is not part of this model). Only their success or failure is modelled, as the `likeWrite` parameter.
- Alerts, logging, navigation effects other than the route chosen, media, sharing, video, styling, CommentItem, ImageModal and the auth-driven layout are left out.
