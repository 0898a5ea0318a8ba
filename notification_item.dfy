/**
 * One row of the notification list (components/NotificationItem.jsx): where
 * a tap leads, and the accept / reject buttons of an access request with
 * their `isProcessing` / `isProcessed` flags.
 */
module NotificationItem {
  import opened Store
  import opened AccessRequestService
  import opened NotificationService

  /** Where a tap sends the user. */
  datatype Route =
    | Stay
    | ViewerProfile(userId: UserId, grantId: Option<RowId>)
    | PostDetails(postId: Option<RowId>, commentId: Option<RowId>)

  const GrantedTitle: string := "granted your profile access request"

  /** `data?.requestId`: absent unless the payload names a request. */
  function RequestIdOf(p: Payload): Option<RowId>
  {
    if p.RequestRef? then Some(p.requestId) else None
  }

  /**
   * handleClick: access requests never navigate; a granted access opens the
   * granter's profile with the grant id from the payload; anything else opens
   * the post the payload names. A payload that does not parse goes nowhere.
   */
  function HandleClick(n: Notification): (r: Route)
    ensures n.kind.ProfileAccessRequest? || n.data.Malformed? ==> r == Stay
    ensures r.ViewerProfile? <==> n.kind.ProfileAccessGranted? && !n.data.Malformed?
    ensures r.ViewerProfile? ==> r.userId == n.senderId && (r.grantId.Some? <==> n.data.GrantRef?)
    ensures r.ViewerProfile? && n.data.GrantRef? ==> r.grantId == Some(n.data.grantId)
    ensures r.PostDetails? <==> n.kind.Untyped? && !n.data.Malformed?
    ensures r.PostDetails? && n.data.PostRef? ==> r == PostDetails(Some(n.data.postId), n.data.commentId)
  {
    match n.kind
    case ProfileAccessRequest => Stay
    case ProfileAccessGranted =>
      if n.data.Malformed? then Stay
      else ViewerProfile(n.senderId, if n.data.GrantRef? then Some(n.data.grantId) else None)
    case Untyped =>
      match n.data
      case Malformed => Stay
      case PostRef(postId, commentId) => PostDetails(Some(postId), commentId)
      case _ => PostDetails(None, None)
  }

  /** The reply sent after an accept: sender and receiver of the request swapped. */
  function GrantedNotice(item: Notification, grantId: RowId, now: Time): Notification
  {
    Notification(item.receiverId, item.senderId, GrantedTitle, ProfileAccessGranted, GrantRef(grantId), false, now)
  }

  /** The two state flags of one rendered item. */
  class ItemState {
    var isProcessing: bool
    var isProcessed: bool
    /** How many accept or reject actions of this item have succeeded. */
    ghost var successes: nat

    /**
     * Between handler runs nothing is in flight, and the item is processed
     * exactly when one action has succeeded.
     */
    ghost predicate Valid()
      reads this
    {
      !isProcessing && successes == (if isProcessed then 1 else 0)
    }

    /** `disabled={isProcessing || isProcessed}` on both buttons, negated. */
    predicate ButtonsEnabled()
      reads this
    {
      !isProcessing && !isProcessed
    }

    constructor ()
      ensures Valid() && ButtonsEnabled() && successes == 0
    {
      isProcessing, isProcessed := false, false;
      successes := 0;
    }

    /**
     * handleAcceptRequest, reachable only through the enabled accept button
     * of an access-request item. The grant goes to the item's sender; on
     * success the reply goes back to that sender.
     */
    method HandleAcceptRequest(
      item: Notification, ledger: AccessLedger, relay: NotificationStore,
      now: Time, insert: Net, delete: Net, notify: Net)
      requires item.kind.ProfileAccessRequest?
      requires Valid() && ButtonsEnabled() && ledger.Valid() && relay.Valid()
      modifies this, ledger, relay
      ensures Valid() && ledger.Valid() && relay.Valid()
      ensures successes <= 1
      ensures item.data.Malformed? ==> !isProcessed && unchanged(ledger, relay)
      ensures !item.data.Malformed? ==>
        var s := AcceptStep(old(ledger.State()), old(ledger.nextGrantId), RequestIdOf(item.data),
                            item.senderId, item.receiverId, now, insert, delete);
        && ledger.State() == s.after
        && isProcessed == s.result.Ok?
        && relay.rows == if s.result.Ok? && notify.Up?
                         then InsertNotification(old(relay.rows), old(relay.nextId), GrantedNotice(item, s.result.value, now))
                         else old(relay.rows)
    {
      isProcessing := true;
      if !item.data.Malformed? {
        var result := ledger.AcceptAccessRequest(RequestIdOf(item.data), item.senderId, item.receiverId, now, insert, delete);
        if result.Ok? {
          var notifyResult := relay.CreateNotification(GrantedNotice(item, result.value, now), notify);
          isProcessed := true;
          successes := successes + 1;
        }
      }
      isProcessing := false;
    }

    /** handleRejectRequest: deletes the request and sends no notification. */
    method HandleRejectRequest(item: Notification, ledger: AccessLedger, relay: NotificationStore, delete: Net)
      requires item.kind.ProfileAccessRequest?
      requires Valid() && ButtonsEnabled() && ledger.Valid() && relay.Valid()
      modifies this, ledger
      ensures Valid() && ledger.Valid()
      ensures successes <= 1
      ensures item.data.Malformed? ==> !isProcessed && unchanged(ledger)
      ensures !item.data.Malformed? ==>
        var s := RejectStep(old(ledger.State()), RequestIdOf(item.data), delete);
        ledger.State() == s.after && isProcessed == s.result.Ok?
    {
      isProcessing := true;
      if !item.data.Malformed? {
        var result := ledger.RejectAccessRequest(RequestIdOf(item.data), delete);
        if result.Ok? {
          isProcessed := true;
          successes := successes + 1;
        }
      }
      isProcessing := false;
    }
  }
}
