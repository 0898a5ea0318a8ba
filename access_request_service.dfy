/**
 * The profile-access ledger: the `profile_access_requests` and
 * `profile_access_grants` tables and the six calls that read and write them
 * (services/accessRequestService.js).
 *
 * Each call is given twice: as a step function on the table values, which
 * is the specification and carries the properties, and as a method of
 * `AccessLedger`, which changes the tables one store request at a time, as
 * the service does, and is proved to end in the state the step function
 * gives. `checkProfileAccess` only reads, so it is a function.
 */
module AccessRequestService {
  import opened Store

  /** A row of `profile_access_requests`. */
  datatype AccessRequest = AccessRequest(senderId: UserId, receiverId: UserId, status: string)

  /** A row of `profile_access_grants`: `grantedby` is the profile owner, `grantedto` the viewer. */
  datatype AccessGrant = AccessGrant(
    grantedBy: UserId,
    grantedTo: UserId,
    expiresAt: Time,
    isUsed: bool,
    usedAt: Option<Time>)

  type RequestTable = map<RowId, AccessRequest>
  type GrantTable = map<RowId, AccessGrant>

  /** The two tables the service works on. */
  datatype Ledger = Ledger(requests: RequestTable, grants: GrantTable)

  /** The tables after one service call, and what the call returned. */
  datatype Step<+T> = Step(after: Ledger, result: T)

  const PendingStatus: string := "pending"
  const AlreadyPendingMsg: string := "Request already pending"

  /** A grant expires 24 hours (in milliseconds) after it is created. */
  const GrantLifetime: int := 24 * 60 * 60 * 1000

  // ---------------------------------------------------------------------------
  // Queries
  // ---------------------------------------------------------------------------

  predicate IsPendingFor(q: AccessRequest, senderId: UserId, receiverId: UserId)
  {
    q.senderId == senderId && q.receiverId == receiverId && q.status == PendingStatus
  }

  /** The rows the pre-check of `createAccessRequest` selects. */
  function PendingMatches(requests: RequestTable, senderId: UserId, receiverId: UserId): set<RowId>
  {
    set id | id in requests && IsPendingFor(requests[id], senderId, receiverId)
  }

  /**
   * The pre-check finds a request when its lookup goes through and `.single()`
   * sees exactly one matching row; on any error the source reads "nothing found".
   */
  predicate PrecheckFinds(requests: RequestTable, senderId: UserId, receiverId: UserId, lookup: Net)
  {
    lookup.Up? && |PendingMatches(requests, senderId, receiverId)| == 1
  }

  /** At most one pending request per (sender, receiver) pair. */
  ghost predicate UniquePending(requests: RequestTable)
  {
    forall i, j ::
      i in requests && j in requests &&
      requests[i].status == PendingStatus && requests[j].status == PendingStatus &&
      requests[i].senderId == requests[j].senderId &&
      requests[i].receiverId == requests[j].receiverId
      ==> i == j
  }

  /** The rows `checkProfileAccess` selects: unused grants from `grantedBy` to `grantedTo`. */
  function UnusedGrants(grants: GrantTable, grantedTo: UserId, grantedBy: UserId): set<RowId>
  {
    set id | id in grants && grants[id].grantedTo == grantedTo && grants[id].grantedBy == grantedBy && !grants[id].isUsed
  }

  /** `used` never reverts for a grant that is still there. */
  ghost predicate UsedStaysUsed(before: GrantTable, after: GrantTable)
  {
    forall id :: id in before && id in after && before[id].isUsed ==> after[id].isUsed
  }

  /** The three answers of `checkProfileAccess`. */
  datatype AccessCheck =
    | LookupFailed            // { success: false, hasAccess: false }
    | Expired(grantId: RowId) // { success: true, hasAccess: false, isExpired: true }
    | Granted(grantId: RowId) // { success: true, hasAccess: true, data }
  {
    predicate HasAccess() { Granted? }
  }

  lemma SingletonSet(s: set<RowId>, x: RowId)
    requires |s| == 1 && x in s
    ensures s == {x}
  {
    assert |s - {x}| == 0;
  }

  /**
   * checkProfileAccess: the one unused grant for the pair, then the strict
   * expiry test `now > expiresAt`. Zero rows or several rows make `.single()`
   * fail, which the source reports as a failed lookup; it never writes.
   */
  function CheckProfileAccess(grants: GrantTable, grantedTo: UserId, grantedBy: UserId, now: Time, lookup: Net): (c: AccessCheck)
    ensures c.LookupFailed? <==> lookup.Down? || |UnusedGrants(grants, grantedTo, grantedBy)| != 1
    ensures c.Granted? ==>
      UnusedGrants(grants, grantedTo, grantedBy) == {c.grantId} && now <= grants[c.grantId].expiresAt
    ensures c.Expired? ==>
      UnusedGrants(grants, grantedTo, grantedBy) == {c.grantId} && now > grants[c.grantId].expiresAt
  {
    var unused := UnusedGrants(grants, grantedTo, grantedBy);
    if lookup.Down? || |unused| != 1 then LookupFailed
    else
      var id :| id in unused;
      SingletonSet(unused, id);
      if now > grants[id].expiresAt then Expired(id) else Granted(id)
  }

  // ---------------------------------------------------------------------------
  // Steps: each call's effect on the tables
  // ---------------------------------------------------------------------------

  /**
   * createAccessRequest: refused with "Request already pending" when the
   * pre-check finds a request; otherwise one pending row is inserted under
   * the id the store hands out, unless the insert fails.
   */
  function RequestStep(l: Ledger, freshId: RowId, senderId: UserId, receiverId: UserId, lookup: Net, insert: Net): (s: Step<Outcome<RowId>>)
    requires freshId !in l.requests
    ensures s.after.grants == l.grants
    ensures s.result.Ok? <==> !PrecheckFinds(l.requests, senderId, receiverId, lookup) && insert.Up?
    ensures PrecheckFinds(l.requests, senderId, receiverId, lookup) ==> s == Step(l, Failed(AlreadyPendingMsg))
    ensures s.result.Failed? ==> s.after == l
    ensures s.result.Ok? ==>
      s.result.value == freshId &&
      s.after.requests == l.requests[freshId := AccessRequest(senderId, receiverId, PendingStatus)]
  {
    if PrecheckFinds(l.requests, senderId, receiverId, lookup) then
      Step(l, Failed(AlreadyPendingMsg))
    else if insert.Down? then
      Step(l, Failed(insert.message))
    else
      Step(l.(requests := l.requests[freshId := AccessRequest(senderId, receiverId, PendingStatus)]), Ok(freshId))
  }

  /**
   * acceptAccessRequest: insert a grant from the owner (`receiverId`) to the
   * requester (`senderId`) expiring 24 hours from `now`; only if that insert
   * succeeds, delete the request. The delete's own error is not looked at, so
   * a failed delete still returns success with the request in place. `None`
   * stands for a request id missing from the payload: the delete matches no row.
   */
  function AcceptStep(
    l: Ledger, freshId: RowId, requestId: Option<RowId>, senderId: UserId, receiverId: UserId,
    now: Time, insert: Net, delete: Net): (s: Step<Outcome<RowId>>)
    requires freshId !in l.grants
    ensures s.result.Ok? <==> insert.Up?
    ensures s.result.Failed? ==> s.after == l
    ensures s.result.Ok? ==>
      s.result.value == freshId &&
      s.after.grants == l.grants[freshId := AccessGrant(receiverId, senderId, now + GrantLifetime, false, None)]
    ensures s.result.Ok? ==>
      s.after.requests == if delete.Up? && requestId.Some? then l.requests - {requestId.value} else l.requests
    ensures UsedStaysUsed(l.grants, s.after.grants)
    ensures UniquePending(l.requests) ==> UniquePending(s.after.requests)
  {
    if insert.Down? then
      Step(l, Failed(insert.message))
    else
      var grants := l.grants[freshId := AccessGrant(receiverId, senderId, now + GrantLifetime, false, None)];
      var requests := if delete.Up? && requestId.Some? then l.requests - {requestId.value} else l.requests;
      Step(Ledger(requests, grants), Ok(freshId))
  }

  /** rejectAccessRequest: delete the request with that id, and nothing else. */
  function RejectStep(l: Ledger, requestId: Option<RowId>, delete: Net): (s: Step<Outcome<()>>)
    ensures s.after.grants == l.grants
    ensures s.result.Ok? <==> delete.Up?
    ensures s.after.requests == if delete.Up? && requestId.Some? then l.requests - {requestId.value} else l.requests
    ensures UniquePending(l.requests) ==> UniquePending(s.after.requests)
  {
    if delete.Down? then Step(l, Failed(delete.message))
    else if requestId.None? then Step(l, Ok(()))
    else Step(l.(requests := l.requests - {requestId.value}), Ok(()))
  }

  /**
   * useProfileAccess: set `isused` and `usedat` on the grant with that id,
   * with no condition on expiry or earlier use. An id with no row changes nothing.
   */
  function UseStep(l: Ledger, grantId: RowId, now: Time, update: Net): (s: Step<Outcome<()>>)
    ensures s.after.requests == l.requests
    ensures s.result.Ok? <==> update.Up?
    ensures s.after.grants.Keys == l.grants.Keys
    ensures update.Up? && grantId in l.grants ==>
      s.after.grants[grantId] == l.grants[grantId].(isUsed := true, usedAt := Some(now))
    ensures forall id :: id in l.grants && (id != grantId || update.Down?) ==> s.after.grants[id] == l.grants[id]
    ensures UsedStaysUsed(l.grants, s.after.grants)
  {
    if update.Down? then Step(l, Failed(update.message))
    else if grantId !in l.grants then Step(l, Ok(()))
    else
      var g := l.grants[grantId];
      Step(l.(grants := l.grants[grantId := g.(isUsed := true, usedAt := Some(now))]), Ok(()))
  }

  /** deleteProfileAccess: remove the grant with that id, used or not. */
  function DeleteStep(l: Ledger, grantId: RowId, delete: Net): (s: Step<Outcome<()>>)
    ensures s.after.requests == l.requests
    ensures s.result.Ok? <==> delete.Up?
    ensures s.after.grants == if delete.Up? then l.grants - {grantId} else l.grants
    ensures delete.Up? ==> grantId !in s.after.grants
    ensures UsedStaysUsed(l.grants, s.after.grants)
  {
    if delete.Down? then Step(l, Failed(delete.message))
    else Step(l.(grants := l.grants - {grantId}), Ok(()))
  }

  // ---------------------------------------------------------------------------
  // Properties of the protocol
  // ---------------------------------------------------------------------------

  /** Under `UniquePending` the pre-check never sees more than one row. */
  lemma {:induction false} UniquePendingAtMostOne(requests: RequestTable, senderId: UserId, receiverId: UserId)
    requires UniquePending(requests)
    ensures |PendingMatches(requests, senderId, receiverId)| <= 1
  {
    var m := PendingMatches(requests, senderId, receiverId);
    if m != {} {
      var x :| x in m;
      assert m == {x};
    }
  }

  /**
   * The pre-check is keyed only on (sender, receiver, pending): when no such
   * row exists, pending requests in the other direction or between other
   * users do not stop a new one.
   */
  lemma OnlySamePairBlocks(l: Ledger, freshId: RowId, senderId: UserId, receiverId: UserId, lookup: Net)
    requires freshId !in l.requests
    requires forall id :: id in l.requests ==> !IsPendingFor(l.requests[id], senderId, receiverId)
    ensures RequestStep(l, freshId, senderId, receiverId, lookup, Up).result == Ok(freshId)
  {
  }

  /** When the pre-check's lookup goes through, a request keeps at most one pending row per pair. */
  lemma {:induction false} RequestKeepsUniquePending(l: Ledger, freshId: RowId, senderId: UserId, receiverId: UserId, insert: Net)
    requires freshId !in l.requests
    requires UniquePending(l.requests)
    ensures UniquePending(RequestStep(l, freshId, senderId, receiverId, Up, insert).after.requests)
  {
    var s := RequestStep(l, freshId, senderId, receiverId, Up, insert);
    if s.result.Ok? {
      UniquePendingAtMostOne(l.requests, senderId, receiverId);
      var m := PendingMatches(l.requests, senderId, receiverId);
      assert |m| == 0;
      forall id | id in l.requests
        ensures !IsPendingFor(l.requests[id], senderId, receiverId)
      {
        assert id !in m;
      }
    }
  }

  /**
   * The pre-check fails open: when its lookup fails, a second pending request
   * for the same pair is inserted next to the first.
   */
  lemma LookupFailureAdmitsDuplicate()
    ensures var l := Ledger(map[0 := AccessRequest("r", "s", PendingStatus)], map[]);
            var s := RequestStep(l, 1, "r", "s", Down("network"), Up);
            s.result == Ok(1) && !UniquePending(s.after.requests)
  {
    var l := Ledger(map[0 := AccessRequest("r", "s", PendingStatus)], map[]);
    var s := RequestStep(l, 1, "r", "s", Down("network"), Up);
    assert s.after.requests[0] == s.after.requests[1];
  }

  /**
   * Once two pending rows exist for a pair, `.single()` fails and the
   * pre-check no longer stops a third.
   */
  lemma {:induction false} DuplicatesNoLongerBlock(l: Ledger, freshId: RowId, senderId: UserId, receiverId: UserId, i: RowId, j: RowId)
    requires freshId !in l.requests
    requires i in l.requests && j in l.requests && i != j
    requires IsPendingFor(l.requests[i], senderId, receiverId) && IsPendingFor(l.requests[j], senderId, receiverId)
    ensures RequestStep(l, freshId, senderId, receiverId, Up, Up).result == Ok(freshId)
  {
    var m := PendingMatches(l.requests, senderId, receiverId);
    assert m == (m - {i, j}) + {i, j};
    assert |{i, j}| == 2;
  }

  /** Asking twice before the owner answers: the second request is refused. */
  lemma {:induction false} RequestTwiceRefused(l: Ledger, first: RowId, second: RowId, senderId: UserId, receiverId: UserId, insert: Net)
    requires first !in l.requests && second !in l.requests && first != second
    requires PendingMatches(l.requests, senderId, receiverId) == {}
    ensures var s1 := RequestStep(l, first, senderId, receiverId, Up, Up);
            s1.result == Ok(first) &&
            RequestStep(s1.after, second, senderId, receiverId, Up, insert) == Step(s1.after, Failed(AlreadyPendingMsg))
  {
    var s1 := RequestStep(l, first, senderId, receiverId, Up, Up);
    assert PendingMatches(s1.after.requests, senderId, receiverId) == {first} by {
      forall id | id in s1.after.requests && id != first
        ensures !IsPendingFor(s1.after.requests[id], senderId, receiverId)
      {
        assert id in l.requests && s1.after.requests[id] == l.requests[id];
        assert id !in PendingMatches(l.requests, senderId, receiverId);
      }
    }
  }

  /**
   * Once a request is accepted and its row deleted, the same requester can
   * ask the same owner again.
   */
  lemma AcceptReopensPair(
    l: Ledger, freshGrant: RowId, freshRequest: RowId, requestId: RowId,
    senderId: UserId, receiverId: UserId, now: Time)
    requires freshGrant !in l.grants && freshRequest !in l.requests
    requires UniquePending(l.requests)
    requires requestId in PendingMatches(l.requests, senderId, receiverId)
    ensures var s := AcceptStep(l, freshGrant, Some(requestId), senderId, receiverId, now, Up, Up);
            RequestStep(s.after, freshRequest, senderId, receiverId, Up, Up).result == Ok(freshRequest)
  {
  }

  /**
   * A grant that is the pair's only unused one is found by the check: it gives
   * access up to and including `now + 24h` and reports it expired after that.
   */
  lemma {:induction false} AcceptedGrantIsFound(
    l: Ledger, freshId: RowId, requestId: Option<RowId>, senderId: UserId, receiverId: UserId,
    now: Time, delete: Net, later: Time)
    requires freshId !in l.grants
    requires UnusedGrants(l.grants, senderId, receiverId) == {}
    ensures var s := AcceptStep(l, freshId, requestId, senderId, receiverId, now, Up, delete);
            CheckProfileAccess(s.after.grants, senderId, receiverId, later, Up)
              == if later <= now + GrantLifetime then Granted(freshId) else Expired(freshId)
  {
    var s := AcceptStep(l, freshId, requestId, senderId, receiverId, now, Up, delete);
    assert UnusedGrants(s.after.grants, senderId, receiverId) == {freshId} by {
      forall id | id in s.after.grants && id != freshId
        ensures id !in UnusedGrants(s.after.grants, senderId, receiverId)
      {
        assert id !in UnusedGrants(l.grants, senderId, receiverId);
      }
    }
  }

  /**
   * A second accepted request for a pair that still holds an unused grant
   * leaves two unused rows, and `.single()` then denies access at any time.
   */
  lemma {:induction false} SecondGrantBlocksCheck(
    l: Ledger, freshId: RowId, requestId: Option<RowId>, senderId: UserId, receiverId: UserId,
    now: Time, delete: Net, later: Time, lookup: Net, earlier: RowId)
    requires freshId !in l.grants
    requires earlier in UnusedGrants(l.grants, senderId, receiverId)
    ensures var s := AcceptStep(l, freshId, requestId, senderId, receiverId, now, Up, delete);
            CheckProfileAccess(s.after.grants, senderId, receiverId, later, lookup) == LookupFailed
  {
    var s := AcceptStep(l, freshId, requestId, senderId, receiverId, now, Up, delete);
    var unused := UnusedGrants(s.after.grants, senderId, receiverId);
    assert {earlier, freshId} <= unused;
    assert |{earlier, freshId}| == 2;
  }

  /** Marking a grant used takes exactly that grant out of every check's view. */
  lemma UseHidesGrant(l: Ledger, grantId: RowId, now: Time, grantedTo: UserId, grantedBy: UserId)
    ensures UnusedGrants(UseStep(l, grantId, now, Up).after.grants, grantedTo, grantedBy)
            == UnusedGrants(l.grants, grantedTo, grantedBy) - {grantId}
  {
  }

  /**
   * Single use: once the grant a check allowed is marked used, every later
   * check for that pair fails, whatever the clock says.
   */
  lemma {:induction false} UsedGrantIsNotSeenAgain(
    l: Ledger, grantedTo: UserId, grantedBy: UserId, now: Time, usedAt: Time, later: Time, lookup: Net)
    requires CheckProfileAccess(l.grants, grantedTo, grantedBy, now, Up).Granted?
    ensures var id := CheckProfileAccess(l.grants, grantedTo, grantedBy, now, Up).grantId;
            CheckProfileAccess(UseStep(l, id, usedAt, Up).after.grants, grantedTo, grantedBy, later, lookup) == LookupFailed
  {
    var id := CheckProfileAccess(l.grants, grantedTo, grantedBy, now, Up).grantId;
    UseHidesGrant(l, id, usedAt, grantedTo, grantedBy);
  }

  /** Deleting a grant can only take rows out of a check's view. */
  lemma DeleteOnlyHides(l: Ledger, grantId: RowId, delete: Net, grantedTo: UserId, grantedBy: UserId)
    ensures UnusedGrants(DeleteStep(l, grantId, delete).after.grants, grantedTo, grantedBy)
            == UnusedGrants(l.grants, grantedTo, grantedBy) - (if delete.Up? then {grantId} else {})
  {
  }

  // ---------------------------------------------------------------------------
  // The tables, changed in place
  // ---------------------------------------------------------------------------

  /** The two tables, with the next id the store hands out for each. */
  class AccessLedger {
    var requests: RequestTable
    var grants: GrantTable
    var nextRequestId: RowId
    var nextGrantId: RowId

    /** Every row's id was handed out before. */
    ghost predicate Valid()
      reads this
    {
      && (forall id :: id in requests ==> id < nextRequestId)
      && (forall id :: id in grants ==> id < nextGrantId)
    }

    function State(): Ledger
      reads this
    {
      Ledger(requests, grants)
    }

    constructor ()
      ensures Valid() && State() == Ledger(map[], map[])
    {
      requests, grants := map[], map[];
      nextRequestId, nextGrantId := 0, 0;
    }

    method CreateAccessRequest(senderId: UserId, receiverId: UserId, lookup: Net, insert: Net) returns (r: Outcome<RowId>)
      requires Valid()
      modifies this
      ensures Valid() && nextGrantId == old(nextGrantId)
      ensures var s := RequestStep(old(State()), old(nextRequestId), senderId, receiverId, lookup, insert);
              State() == s.after && r == s.result
    {
      var existing := PendingMatches(requests, senderId, receiverId);
      if lookup.Up? && |existing| == 1 {
        return Failed(AlreadyPendingMsg);
      }
      if insert.Down? {
        return Failed(insert.message);
      }
      r := Ok(nextRequestId);
      requests := requests[nextRequestId := AccessRequest(senderId, receiverId, PendingStatus)];
      nextRequestId := nextRequestId + 1;
    }

    method AcceptAccessRequest(
      requestId: Option<RowId>, senderId: UserId, receiverId: UserId,
      now: Time, insert: Net, delete: Net) returns (r: Outcome<RowId>)
      requires Valid()
      modifies this
      ensures Valid() && nextRequestId == old(nextRequestId)
      ensures var s := AcceptStep(old(State()), old(nextGrantId), requestId, senderId, receiverId, now, insert, delete);
              State() == s.after && r == s.result
    {
      var expiresAt := now + GrantLifetime;
      if insert.Down? {
        return Failed(insert.message);
      }
      r := Ok(nextGrantId);
      grants := grants[nextGrantId := AccessGrant(receiverId, senderId, expiresAt, false, None)];
      nextGrantId := nextGrantId + 1;
      if delete.Up? && requestId.Some? {
        requests := requests - {requestId.value};
      }
    }

    method RejectAccessRequest(requestId: Option<RowId>, delete: Net) returns (r: Outcome<()>)
      requires Valid()
      modifies this
      ensures Valid() && nextRequestId == old(nextRequestId) && nextGrantId == old(nextGrantId)
      ensures var s := RejectStep(old(State()), requestId, delete);
              State() == s.after && r == s.result
    {
      if delete.Down? {
        return Failed(delete.message);
      }
      if requestId.Some? {
        requests := requests - {requestId.value};
      }
      r := Ok(());
    }

    method UseProfileAccess(grantId: RowId, now: Time, update: Net) returns (r: Outcome<()>)
      requires Valid()
      modifies this
      ensures Valid() && nextRequestId == old(nextRequestId) && nextGrantId == old(nextGrantId)
      ensures var s := UseStep(old(State()), grantId, now, update);
              State() == s.after && r == s.result
    {
      if update.Down? {
        return Failed(update.message);
      }
      if grantId in grants {
        grants := grants[grantId := grants[grantId].(isUsed := true, usedAt := Some(now))];
      }
      r := Ok(());
    }

    method DeleteProfileAccess(grantId: RowId, delete: Net) returns (r: Outcome<()>)
      requires Valid()
      modifies this
      ensures Valid() && nextRequestId == old(nextRequestId) && nextGrantId == old(nextGrantId)
      ensures var s := DeleteStep(old(State()), grantId, delete);
              State() == s.after && r == s.result
    {
      if delete.Down? {
        return Failed(delete.message);
      }
      grants := grants - {grantId};
      r := Ok(());
    }
  }
}
