/**
 * The "view profile request" dialog (components/ProfileAccessModal.jsx):
 * Cancel does nothing; Yes creates an access request and, when that
 * succeeds, tells the profile owner through a `profile_access_request`
 * notification.
 */
module ProfileAccessModal {
  import opened Store
  import opened AccessRequestService
  import opened NotificationService

  /** The two buttons of the dialog. */
  datatype Choice = Cancel | Yes

  /** Which callback the dialog ends in: none, `onSuccess()` or `onError(msg)`. */
  datatype ModalOutcome = Dismissed | Sent | Refused(msg: string)

  const RequestTitle: string := "wants to view your profile"

  /** The notification the owner receives for a new request. */
  function RequestNotice(senderId: UserId, receiverId: UserId, requestId: RowId, now: Time): Notification
  {
    Notification(senderId, receiverId, RequestTitle, ProfileAccessRequest, RequestRef(requestId), false, now)
  }

  /**
   * The dialog, from the button pressed to the callback. A failed
   * notification write is only logged: the caller still hears of success.
   */
  method RequestProfileAccess(
    choice: Choice, senderId: UserId, receiverId: UserId,
    ledger: AccessLedger, relay: NotificationStore,
    now: Time, lookup: Net, insert: Net, notify: Net) returns (o: ModalOutcome)
    requires ledger.Valid() && relay.Valid()
    modifies ledger, relay
    ensures ledger.Valid() && relay.Valid()
    ensures choice.Cancel? ==> o == Dismissed && unchanged(ledger, relay)
    ensures choice.Yes? ==>
      var s := RequestStep(old(ledger.State()), old(ledger.nextRequestId), senderId, receiverId, lookup, insert);
      && ledger.State() == s.after
      && (s.result.Ok? ==>
            o == Sent &&
            relay.rows == if notify.Up?
                          then InsertNotification(old(relay.rows), old(relay.nextId), RequestNotice(senderId, receiverId, s.result.value, now))
                          else old(relay.rows))
      && (s.result.Failed? ==> o == Refused(s.result.msg) && relay.rows == old(relay.rows))
  {
    if choice.Cancel? {
      return Dismissed;
    }
    var result := ledger.CreateAccessRequest(senderId, receiverId, lookup, insert);
    if result.Ok? {
      var notifyResult := relay.CreateNotification(RequestNotice(senderId, receiverId, result.value, now), notify);
      o := Sent;
    } else {
      o := Refused(result.msg);
    }
  }
}
