/**
 * The notification relay: the `notifications` table and the four calls of
 * services/notificationService.js. Inserting and marking read change the
 * table (methods of `NotificationStore`, proved against step functions);
 * listing and the unread test only read it (functions).
 */
module NotificationService {
  import opened Store

  /** The `type` column: absent for likes and comments, or one of the two access kinds. */
  datatype NotificationType = Untyped | ProfileAccessRequest | ProfileAccessGranted

  /**
   * The `data` column, a JSON text in the store, given here by what it
   * decodes to; `Malformed` is a text that `JSON.parse` rejects.
   */
  datatype Payload =
    | RequestRef(requestId: RowId)
    | GrantRef(grantId: RowId)
    | PostRef(postId: RowId, commentId: Option<RowId>)
    | Malformed

  /** A row of `notifications`; `createdAt` is the store's clock at insert time. */
  datatype Notification = Notification(
    senderId: UserId,
    receiverId: UserId,
    title: string,
    kind: NotificationType,
    data: Payload,
    isRead: bool,
    createdAt: Time)

  type NotificationTable = map<RowId, Notification>

  /** createNotification: the given row under a fresh id; no other row changes. */
  function InsertNotification(t: NotificationTable, id: RowId, n: Notification): (t': NotificationTable)
    requires id !in t
    ensures t'.Keys == t.Keys + {id}
    ensures t'[id] == n
    ensures forall k :: k in t ==> t'[k] == t[k]
  {
    t[id := n]
  }

  /** The rows addressed to `receiverId`. */
  function ForReceiver(t: NotificationTable, receiverId: UserId): set<RowId>
  {
    set id | id in t && t[id].receiverId == receiverId
  }

  /** The rows addressed to `receiverId` that are not read yet. */
  function UnreadFor(t: NotificationTable, receiverId: UserId): set<RowId>
  {
    set id | id in t && t[id].receiverId == receiverId && !t[id].isRead
  }

  /** `{ success, hasUnread }` of checkUnreadNotifications. */
  datatype UnreadCheck = UnreadCheck(success: bool, hasUnread: bool)

  /**
   * checkUnreadNotifications: one unread row for the receiver is enough; a
   * failed lookup reports no unread rows.
   */
  function CheckUnreadNotifications(t: NotificationTable, receiverId: UserId, lookup: Net): (u: UnreadCheck)
    ensures u.success <==> lookup.Up?
    ensures u.hasUnread <==> lookup.Up? && exists id :: id in t && t[id].receiverId == receiverId && !t[id].isRead
  {
    if lookup.Down? then UnreadCheck(false, false)
    else
      var unread := UnreadFor(t, receiverId);
      assert forall id :: id in t && t[id].receiverId == receiverId && !t[id].isRead ==> id in unread;
      UnreadCheck(true, unread != {})
  }

  /**
   * markNotificationsAsRead: every unread row of the receiver becomes read;
   * only the read flag changes, and only on those rows.
   */
  function MarkAllRead(t: NotificationTable, receiverId: UserId): (t': NotificationTable)
    ensures t'.Keys == t.Keys
    ensures UnreadFor(t', receiverId) == {}
    ensures forall id :: id in t ==> t'[id] == t[id].(isRead := t'[id].isRead)
    ensures forall id :: id in t && (t[id].receiverId != receiverId || t[id].isRead) ==> t'[id] == t[id]
  {
    map id | id in t :: if id in UnreadFor(t, receiverId) then t[id].(isRead := true) else t[id]
  }

  /** Marking read twice leaves the table as marking it once. */
  lemma MarkAllReadIdempotent(t: NotificationTable, receiverId: UserId)
    ensures MarkAllRead(MarkAllRead(t, receiverId), receiverId) == MarkAllRead(t, receiverId)
  {
  }

  /** After marking read, the unread check for that receiver is negative. */
  lemma MarkedHasNoUnread(t: NotificationTable, receiverId: UserId, lookup: Net)
    ensures !CheckUnreadNotifications(MarkAllRead(t, receiverId), receiverId, lookup).hasUnread
  {
  }

  // ---------------------------------------------------------------------------
  // Listing, newest first
  // ---------------------------------------------------------------------------

  /** `id` is among the newest rows of `ids`. */
  ghost predicate IsNewest(t: NotificationTable, ids: set<RowId>, id: RowId)
    requires ids <= t.Keys
  {
    id in ids && forall j :: j in ids ==> t[j].createdAt <= t[id].createdAt
  }

  lemma {:induction false} NewestExists(t: NotificationTable, ids: set<RowId>)
    requires ids <= t.Keys && ids != {}
    ensures exists id :: IsNewest(t, ids, id)
    decreases ids
  {
    var x :| x in ids;
    if ids == {x} {
      assert IsNewest(t, ids, x);
    } else {
      NewestExists(t, ids - {x});
      var y :| IsNewest(t, ids - {x}, y);
      if t[x].createdAt <= t[y].createdAt {
        assert IsNewest(t, ids, y);
      } else {
        assert IsNewest(t, ids, x);
      }
    }
  }

  /**
   * The store's `order('created_at', { ascending: false })`: a newest row
   * first, then the rest in the same order. Which of several rows with the
   * same timestamp comes first is left open, as the store leaves it.
   */
  ghost function NewestFirst(t: NotificationTable, ids: set<RowId>): seq<RowId>
    requires ids <= t.Keys
    decreases ids
  {
    if ids == {} then []
    else
      NewestExists(t, ids);
      var id :| IsNewest(t, ids, id);
      [id] + NewestFirst(t, ids - {id})
  }

  lemma {:induction false} NewestFirstIsSortedListing(t: NotificationTable, ids: set<RowId>)
    requires ids <= t.Keys
    ensures var s := NewestFirst(t, ids);
            && |s| == |ids|
            && (forall i :: 0 <= i < |s| ==> s[i] in ids)
            && (forall id :: id in ids ==> id in s)
            && (forall i, j :: 0 <= i < j < |s| ==> s[i] != s[j])
            && (forall i, j :: 0 <= i < j < |s| ==> t[s[j]].createdAt <= t[s[i]].createdAt)
    decreases ids
  {
    if ids != {} {
      var s := NewestFirst(t, ids);
      var id := s[0];
      var rest := NewestFirst(t, ids - {id});
      assert IsNewest(t, ids, id) && s == [id] + rest;
      NewestFirstIsSortedListing(t, ids - {id});
      forall k | k in ids
        ensures k in s
      {
        if k != id {
          assert k in rest;
        }
      }
    }
  }

  /**
   * fetchNotifications: the ids of the receiver's rows, each once, newest
   * first; nothing addressed to anyone else.
   */
  ghost function FetchNotifications(t: NotificationTable, receiverId: UserId, lookup: Net): (r: Outcome<seq<RowId>>)
    ensures r.Ok? <==> lookup.Up?
    ensures r.Ok? ==> |r.value| == |ForReceiver(t, receiverId)|
    ensures r.Ok? ==> forall i :: 0 <= i < |r.value| ==> r.value[i] in t && t[r.value[i]].receiverId == receiverId
    ensures r.Ok? ==> forall id :: id in t && t[id].receiverId == receiverId ==> id in r.value
    ensures r.Ok? ==> forall i, j :: 0 <= i < j < |r.value| ==> r.value[i] != r.value[j]
    ensures r.Ok? ==> forall i, j :: 0 <= i < j < |r.value| ==> t[r.value[j]].createdAt <= t[r.value[i]].createdAt
  {
    if lookup.Down? then Failed("Error fetching notifications")
    else
      var mine := ForReceiver(t, receiverId);
      NewestFirstIsSortedListing(t, mine);
      Ok(NewestFirst(t, mine))
  }

  // ---------------------------------------------------------------------------
  // The table, changed in place
  // ---------------------------------------------------------------------------

  /** The `notifications` table, with the next id the store hands out. */
  class NotificationStore {
    var rows: NotificationTable
    var nextId: RowId

    ghost predicate Valid()
      reads this
    {
      forall id :: id in rows ==> id < nextId
    }

    constructor ()
      ensures Valid() && rows == map[]
    {
      rows, nextId := map[], 0;
    }

    method CreateNotification(n: Notification, insert: Net) returns (r: Outcome<RowId>)
      requires Valid()
      modifies this
      ensures Valid()
      ensures r.Ok? <==> insert.Up?
      ensures r.Ok? ==> r.value == old(nextId)
      ensures rows == if insert.Up? then InsertNotification(old(rows), old(nextId), n) else old(rows)
    {
      if insert.Down? {
        return Failed("Error notification posts");
      }
      r := Ok(nextId);
      rows := rows[nextId := n];
      nextId := nextId + 1;
    }

    /** Returns the ids of the rows it updated, as the source's `.select()` does. */
    method MarkNotificationsAsRead(receiverId: UserId, update: Net) returns (r: Outcome<set<RowId>>)
      requires Valid()
      modifies this
      ensures Valid() && nextId == old(nextId)
      ensures r.Ok? <==> update.Up?
      ensures r.Ok? ==> r.value == UnreadFor(old(rows), receiverId)
      ensures rows == if update.Up? then MarkAllRead(old(rows), receiverId) else old(rows)
    {
      if update.Down? {
        return Failed("");
      }
      var updated := UnreadFor(rows, receiverId);
      rows := map id | id in rows :: if id in updated then rows[id].(isRead := true) else rows[id];
      r := Ok(updated);
    }
  }
}
