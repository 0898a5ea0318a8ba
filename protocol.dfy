/**
 * The access-grant protocol across both sessions: the requester's dialog
 * writes the request and a `profile_access_request` notification; the
 * owner's item accepts it, which writes the grant and a
 * `profile_access_granted` reply; the requester's tap on the reply opens the
 * owner's profile, whose screen (app/(main)/viewerProfile.jsx) checks the
 * grant for (current user, userId of the route) and then marks the grant of
 * the route as used.
 */
module Protocol {
  import opened Store
  import opened AccessRequestService
  import opened NotificationService
  import opened ProfileAccessModal
  import opened NotificationItem
  import opened PostCard

  /**
   * The whole exchange, from a pair with nothing pending and no unused grant:
   * the request is written; the owner's notice does not navigate and names
   * the request, which the accept deletes; the reply opens the owner's
   * profile with the new grant; the check there allows access up to 24 hours
   * after the accept and reports it expired after that; once the grant is
   * marked used, every later check fails.
   */
  lemma {:induction false} RequestAcceptView(
    l: Ledger, requestId: RowId, grantId: RowId, requester: UserId, owner: UserId,
    askedAt: Time, acceptedAt: Time, viewedAt: Time, laterAt: Time, lookup: Net)
    requires requestId !in l.requests && grantId !in l.grants
    requires PendingMatches(l.requests, requester, owner) == {}
    requires UnusedGrants(l.grants, requester, owner) == {}
    ensures var asked := RequestStep(l, requestId, requester, owner, Up, Up);
            var notice := RequestNotice(requester, owner, requestId, askedAt);
            var accepted := AcceptStep(asked.after, grantId, RequestIdOf(notice.data),
                                       notice.senderId, notice.receiverId, acceptedAt, Up, Up);
            var reply := GrantedNotice(notice, grantId, acceptedAt);
            var route := HandleClick(reply);
            && asked.result == Ok(requestId)
            && HandleClick(notice) == Stay
            && accepted.result == Ok(grantId)
            && requestId !in accepted.after.requests
            && reply.receiverId == requester
            && route == ViewerProfile(owner, Some(grantId))
            && CheckProfileAccess(accepted.after.grants, reply.receiverId, route.userId, viewedAt, Up)
                 == (if viewedAt <= acceptedAt + GrantLifetime then Granted(grantId) else Expired(grantId))
            && (viewedAt <= acceptedAt + GrantLifetime ==>
                 CheckProfileAccess(UseStep(accepted.after, grantId, viewedAt, Up).after.grants,
                                    reply.receiverId, route.userId, laterAt, lookup) == LookupFailed)
  {
    var asked := RequestStep(l, requestId, requester, owner, Up, Up);
    assert !PrecheckFinds(l.requests, requester, owner, Up);
    var notice := RequestNotice(requester, owner, requestId, askedAt);
    AcceptedGrantIsFound(asked.after, grantId, RequestIdOf(notice.data), requester, owner, acceptedAt, Up, viewedAt);
    var accepted := AcceptStep(asked.after, grantId, RequestIdOf(notice.data), requester, owner, acceptedAt, Up, Up);
    if viewedAt <= acceptedAt + GrantLifetime {
      UsedGrantIsNotSeenAgain(accepted.after, requester, owner, viewedAt, viewedAt, laterAt, lookup);
    }
  }

  /** The access-granted reply goes to the requester and opens the owner's profile with the grant it names. */
  lemma ReplyOpensGranterProfile(item: Notification, grantId: RowId, now: Time)
    ensures GrantedNotice(item, grantId, now).receiverId == item.senderId
    ensures HandleClick(GrantedNotice(item, grantId, now)) == ViewerProfile(item.receiverId, Some(grantId))
  {
  }

  /** Tapping a like notification opens the liked post. */
  lemma LikeNoticeOpensPost(likerId: UserId, item: Post, now: Time)
    ensures HandleClick(LikeNotice(likerId, item, now)) == PostDetails(Some(item.id), None)
  {
  }
}
