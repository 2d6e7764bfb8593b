/** The friendship table and the friend-request state machine of
    server/src/services/friendsService.ts.

    A record is keyed by the directed pair (sender, receiver) and carries a
    status. A request creates a PENDING record, accepting sets it to
    ACCEPTED, refusing deletes it, and the friend list is read off the
    ACCEPTED records. */
module FriendsService {

  import opened Common

  datatype Status = Pending | Accepted | Blocked

  /** The table's compound key `senderId_receiverId`. */
  datatype Key = Key(sender: UserId, receiver: UserId)

  datatype Friendship = Friendship(sender: UserId, receiver: UserId, status: Status)

  /** The `friendship` table. */
  type Rows = map<Key, Status>

  const SelfRequestError := "Vous ne pouvez pas vous ajouter vous-même."
  const ExistingLinkError := "Une demande d'ami ou une amitié existe déjà avec cet utilisateur."
  const AcceptError := "Impossible d'accepter la demande (introuvable ou erreur serveur)."
  const RefuseError := "Impossible de refuser la demande (introuvable ou erreur serveur)."

  /** Some record joins `a` and `b`, in either direction and with any status. */
  predicate Linked(rows: Rows, a: UserId, b: UserId)
  {
    Key(a, b) in rows || Key(b, a) in rows
  }

  /** Nobody has a record with themselves. */
  ghost predicate NoSelfRecords(rows: Rows)
  {
    forall k :: k in rows ==> k.sender != k.receiver
  }

  /** At most one record per unordered pair of users. */
  ghost predicate OnePerPair(rows: Rows)
  {
    forall k :: k in rows ==> Key(k.receiver, k.sender) !in rows || k.sender == k.receiver
  }

  ghost predicate Valid(rows: Rows)
  {
    NoSelfRecords(rows) && OnePerPair(rows)
  }

  /** What a service call returns (or throws), and the table after it. */
  datatype Step<+T> = Step(result: Result<T>, rows: Rows)

  /** `sendRequestService(senderId, receiverId)`. */
  function SendRequestStep(rows: Rows, store: Store, senderId: UserId, receiverId: UserId): (s: Step<Friendship>)
    ensures senderId == receiverId ==> s == Step(Err(SelfRequestError), rows)
    ensures senderId != receiverId && store.Down? ==> s == Step(Err(store.error), rows)
    ensures senderId != receiverId && store.Up? && Linked(rows, senderId, receiverId) ==>
              s == Step(Err(ExistingLinkError), rows)
    ensures s.result.Ok? <==> senderId != receiverId && store.Up? && !Linked(rows, senderId, receiverId)
    ensures s.result.Err? ==> s.rows == rows
    ensures s.result.Ok? ==>
              && s.result.value == Friendship(senderId, receiverId, Pending)
              && s.rows.Keys == rows.Keys + {Key(senderId, receiverId)}
              && |s.rows| == |rows| + 1
              && s.rows[Key(senderId, receiverId)] == Pending
              && forall k :: k in rows ==> s.rows[k] == rows[k]
  {
    if senderId == receiverId then Step(Err(SelfRequestError), rows)
    else if store.Down? then Step(Err(store.error), rows)
    else if Linked(rows, senderId, receiverId) then Step(Err(ExistingLinkError), rows)
    else
      var key := Key(senderId, receiverId);
      assert rows.Keys + {key} == rows[key := Pending].Keys;
      Step(Ok(Friendship(senderId, receiverId, Pending)), rows[key := Pending])
  }

  /** `acceptRequestService(receiverId, senderIdToAccept)`: an update of the
      record keyed (senderIdToAccept, receiverId), whatever its status. */
  function AcceptStep(rows: Rows, store: Store, receiverId: UserId, senderIdToAccept: UserId): (s: Step<Friendship>)
    ensures s.result.Ok? <==> store.Up? && Key(senderIdToAccept, receiverId) in rows
    ensures s.result.Err? ==> s == Step(Err(AcceptError), rows)
    ensures s.result.Ok? ==>
              && s.result.value == Friendship(senderIdToAccept, receiverId, Accepted)
              && s.rows.Keys == rows.Keys
              && s.rows[Key(senderIdToAccept, receiverId)] == Accepted
              && forall k :: k in rows && k != Key(senderIdToAccept, receiverId) ==> s.rows[k] == rows[k]
  {
    var key := Key(senderIdToAccept, receiverId);
    if store.Down? || key !in rows then Step(Err(AcceptError), rows)
    else Step(Ok(Friendship(senderIdToAccept, receiverId, Accepted)), rows[key := Accepted])
  }

  /** `refuseRequestService(receiverId, senderIdToRefuse)`: a delete of the
      record keyed (senderIdToRefuse, receiverId), whatever its status. */
  function RefuseStep(rows: Rows, store: Store, receiverId: UserId, senderIdToRefuse: UserId): (s: Step<Friendship>)
    ensures s.result.Ok? <==> store.Up? && Key(senderIdToRefuse, receiverId) in rows
    ensures s.result.Err? ==> s == Step(Err(RefuseError), rows)
    ensures s.result.Ok? ==>
              && s.result.value == Friendship(senderIdToRefuse, receiverId, rows[Key(senderIdToRefuse, receiverId)])
              && s.rows.Keys == rows.Keys - {Key(senderIdToRefuse, receiverId)}
              && forall k :: k in s.rows ==> s.rows[k] == rows[k]
  {
    var key := Key(senderIdToRefuse, receiverId);
    if store.Down? || key !in rows then Step(Err(RefuseError), rows)
    else Step(Ok(Friendship(senderIdToRefuse, receiverId, rows[key])), rows - {key})
  }

  /** `getReceivedRequestsService(userId)`: the PENDING records addressed to
      `userId` (the joined sender profile is not modelled). */
  function ReceivedRequests(rows: Rows, userId: UserId): (r: set<Friendship>)
    ensures forall f :: f in r ==> f.receiver == userId && f.status == Pending
    ensures forall sender :: Friendship(sender, userId, Pending) in r <==>
              Key(sender, userId) in rows && rows[Key(sender, userId)] == Pending
  {
    set k | k in rows && k.receiver == userId && rows[k] == Pending :: Friendship(k.sender, k.receiver, Pending)
  }

  /** `getFriendsListService(userId)`: the other end of every ACCEPTED
      record that involves `userId`. */
  function FriendsList(rows: Rows, userId: UserId): (r: set<UserId>)
    ensures forall v :: v in r <==> IsFriendship(rows, userId, v)
  {
    var r := set k | k in rows && rows[k] == Accepted && (k.sender == userId || k.receiver == userId)
                 :: if k.sender == userId then k.receiver else k.sender;
    assert forall v :: IsFriendship(rows, userId, v) ==> v in r by {
      forall v | IsFriendship(rows, userId, v) ensures v in r {
        var k := if Key(userId, v) in rows && rows[Key(userId, v)] == Accepted then Key(userId, v) else Key(v, userId);
        assert k in rows && rows[k] == Accepted;
        assert (if k.sender == userId then k.receiver else k.sender) == v;
      }
    }
    r
  }

  /** An ACCEPTED record joins `u` and `v`, in either direction. */
  predicate IsFriendship(rows: Rows, u: UserId, v: UserId)
  {
    || (Key(u, v) in rows && rows[Key(u, v)] == Accepted)
    || (Key(v, u) in rows && rows[Key(v, u)] == Accepted)
  }

  /** Friendship is mutual: v is among u's friends iff u is among v's. */
  lemma FriendsSymmetric(rows: Rows, u: UserId, v: UserId)
    ensures v in FriendsList(rows, u) <==> u in FriendsList(rows, v)
  {
  }

  /** On a valid table nobody is their own friend. */
  lemma NoSelfFriendship(rows: Rows, u: UserId)
    requires Valid(rows)
    ensures u !in FriendsList(rows, u)
  {
  }

  /** A request still pending from v to u means v is not (yet) u's friend. */
  lemma {:induction false} PendingIsNotFriend(rows: Rows, u: UserId, v: UserId)
    requires Valid(rows)
    requires Friendship(v, u, Pending) in ReceivedRequests(rows, u)
    ensures v !in FriendsList(rows, u) && u !in FriendsList(rows, v)
  {
    assert Key(v, u) in rows && rows[Key(v, u)] == Pending;
    assert Key(v, u).sender != Key(v, u).receiver;
    assert Key(u, v) !in rows;
  }

  /** Sending a request keeps the table valid. */
  lemma {:induction false} SendRequestPreservesValid(rows: Rows, store: Store, senderId: UserId, receiverId: UserId)
    requires Valid(rows)
    ensures Valid(SendRequestStep(rows, store, senderId, receiverId).rows)
  {
    var s := SendRequestStep(rows, store, senderId, receiverId);
    if s.result.Ok? {
      forall k | k in s.rows
        ensures k.sender != k.receiver && Key(k.receiver, k.sender) !in s.rows
      {
        if k != Key(senderId, receiverId) {
          assert k in rows;
          assert Key(k.receiver, k.sender) !in rows;
          assert Key(k.receiver, k.sender) != Key(senderId, receiverId);
        }
      }
    }
  }

  /** A successful request shows up, and only there, among the receiver's
      received requests. */
  lemma SentRequestIsReceived(rows: Rows, store: Store, senderId: UserId, receiverId: UserId, u: UserId)
    requires SendRequestStep(rows, store, senderId, receiverId).result.Ok?
    ensures Friendship(senderId, receiverId, Pending) in ReceivedRequests(SendRequestStep(rows, store, senderId, receiverId).rows, receiverId)
    ensures u != receiverId ==> ReceivedRequests(SendRequestStep(rows, store, senderId, receiverId).rows, u) == ReceivedRequests(rows, u)
  {
  }

  /** Accepting keeps the table valid (no key is added or removed). */
  lemma AcceptPreservesValid(rows: Rows, store: Store, receiverId: UserId, senderIdToAccept: UserId)
    requires Valid(rows)
    ensures Valid(AcceptStep(rows, store, receiverId, senderIdToAccept).rows)
  {
  }

  /** After a successful accept both users list each other as friends and
      the request is gone from the receiver's received requests. */
  lemma AcceptMakesFriends(rows: Rows, store: Store, receiverId: UserId, senderIdToAccept: UserId)
    requires AcceptStep(rows, store, receiverId, senderIdToAccept).result.Ok?
    ensures senderIdToAccept in FriendsList(AcceptStep(rows, store, receiverId, senderIdToAccept).rows, receiverId)
    ensures receiverId in FriendsList(AcceptStep(rows, store, receiverId, senderIdToAccept).rows, senderIdToAccept)
    ensures Friendship(senderIdToAccept, receiverId, Pending) !in ReceivedRequests(AcceptStep(rows, store, receiverId, senderIdToAccept).rows, receiverId)
  {
  }

  /** Accept looks at the key only: a BLOCKED or already ACCEPTED record is
      accepted just the same. */
  lemma AcceptIgnoresPriorStatus(rows: Rows, receiverId: UserId, senderIdToAccept: UserId, prior: Status)
    ensures AcceptStep(rows[Key(senderIdToAccept, receiverId) := prior], Up, receiverId, senderIdToAccept).result
         == Ok(Friendship(senderIdToAccept, receiverId, Accepted))
  {
  }

  /** The key is directed: on a valid table the author of a request cannot
      accept it from the other side. */
  lemma {:induction false} RequesterCannotAccept(rows: Rows, store: Store, requester: UserId, addressee: UserId)
    requires Valid(rows)
    requires Key(requester, addressee) in rows
    ensures AcceptStep(rows, store, requester, addressee).result == Err(AcceptError)
  {
    assert Key(requester, addressee).sender != Key(requester, addressee).receiver;
  }

  /** Refusing keeps the table valid. */
  lemma RefusePreservesValid(rows: Rows, store: Store, receiverId: UserId, senderIdToRefuse: UserId)
    requires Valid(rows)
    ensures Valid(RefuseStep(rows, store, receiverId, senderIdToRefuse).rows)
  {
  }

  /** After a refusal on a valid table nothing links the two users any more,
      so either of them may send a fresh request. */
  lemma {:induction false} RefuseAllowsNewRequest(rows: Rows, store: Store, receiverId: UserId, senderIdToRefuse: UserId)
    requires Valid(rows)
    requires RefuseStep(rows, store, receiverId, senderIdToRefuse).result.Ok?
    ensures SendRequestStep(RefuseStep(rows, store, receiverId, senderIdToRefuse).rows, Up, senderIdToRefuse, receiverId).result.Ok?
    ensures SendRequestStep(RefuseStep(rows, store, receiverId, senderIdToRefuse).rows, Up, receiverId, senderIdToRefuse).result.Ok?
  {
    var key := Key(senderIdToRefuse, receiverId);
    assert key.sender != key.receiver;
    assert Key(receiverId, senderIdToRefuse) !in rows;
  }

  /** The in-memory stand-in for the `friendship` table. */
  class FriendshipTable {
    var rows: Rows

    constructor ()
      ensures rows == map[]
    {
      rows := map[];
    }

    /** Rejects a self request, then any record between the two users,
        then inserts (senderId, receiverId) as PENDING. */
    method SendRequest(store: Store, senderId: UserId, receiverId: UserId) returns (res: Result<Friendship>)
      modifies this
      ensures Step(res, rows) == SendRequestStep(old(rows), store, senderId, receiverId)
      ensures Valid(old(rows)) ==> Valid(rows)
    {
      if Valid(rows) {
        SendRequestPreservesValid(rows, store, senderId, receiverId);
      }
      if senderId == receiverId {
        return Err(SelfRequestError);
      }
      if store.Down? {
        return Err(store.error);
      }
      var existing := Linked(rows, senderId, receiverId);
      if existing {
        return Err(ExistingLinkError);
      }
      rows := rows[Key(senderId, receiverId) := Pending];
      res := Ok(Friendship(senderId, receiverId, Pending));
    }

    /** Sets the record (senderIdToAccept, receiverId) to ACCEPTED. */
    method AcceptRequest(store: Store, receiverId: UserId, senderIdToAccept: UserId) returns (res: Result<Friendship>)
      modifies this
      ensures Step(res, rows) == AcceptStep(old(rows), store, receiverId, senderIdToAccept)
      ensures Valid(old(rows)) ==> Valid(rows)
    {
      var key := Key(senderIdToAccept, receiverId);
      if store.Down? || key !in rows {
        return Err(AcceptError);
      }
      rows := rows[key := Accepted];
      res := Ok(Friendship(senderIdToAccept, receiverId, Accepted));
    }

    /** Deletes the record (senderIdToRefuse, receiverId). */
    method RefuseRequest(store: Store, receiverId: UserId, senderIdToRefuse: UserId) returns (res: Result<Friendship>)
      modifies this
      ensures Step(res, rows) == RefuseStep(old(rows), store, receiverId, senderIdToRefuse)
      ensures Valid(old(rows)) ==> Valid(rows)
    {
      var key := Key(senderIdToRefuse, receiverId);
      if store.Down? || key !in rows {
        return Err(RefuseError);
      }
      res := Ok(Friendship(senderIdToRefuse, receiverId, rows[key]));
      rows := rows - {key};
    }
  }
}
