/** The list state of client/src/hooks/useFriends.ts: the friends, the
    received requests and the directory of users, replaced after API calls;
    accepting or refusing a request prunes it from the list once the API
    call has succeeded. */
module UseFriends {

  import opened Common
  import opened Schema
  import Seqs

  /** A received request as the client lists it, with its sender's profile. */
  datatype ReceivedRequest = ReceivedRequest(senderId: UserId, receiverId: UserId, sender: User)

  function NotFrom(senderId: UserId): ReceivedRequest -> bool
  {
    (r: ReceivedRequest) => r.senderId != senderId
  }

  /** `r.filter(req => req.senderId !== senderId)`. */
  function WithoutSender(requests: seq<ReceivedRequest>, senderId: UserId): (r: seq<ReceivedRequest>)
    ensures forall q :: q in r <==> q in requests && q.senderId != senderId
    ensures |r| <= |requests|
  {
    Seqs.Filter(requests, NotFrom(senderId))
  }

  /** Pruning works piecewise, so the surviving requests keep their order. */
  lemma PruneKeepsOrder(a: seq<ReceivedRequest>, b: seq<ReceivedRequest>, senderId: UserId)
    ensures WithoutSender(a + b, senderId) == WithoutSender(a, senderId) + WithoutSender(b, senderId)
  {
    Seqs.FilterAppend(a, b, NotFrom(senderId));
  }

  /** A list with no request of the sender is left exactly as it was. */
  lemma PruneOtherSenderIsIdentity(requests: seq<ReceivedRequest>, senderId: UserId)
    requires forall q :: q in requests ==> q.senderId != senderId
    ensures WithoutSender(requests, senderId) == requests
  {
    Seqs.FilterKeepsAll(requests, NotFrom(senderId));
  }

  /** Pruning twice for the same sender is pruning once. */
  lemma PruneIdempotent(requests: seq<ReceivedRequest>, senderId: UserId)
    ensures WithoutSender(WithoutSender(requests, senderId), senderId) == WithoutSender(requests, senderId)
  {
    Seqs.FilterIdempotent(requests, NotFrom(senderId));
  }

  /** The hook's state. `friendsReloads` counts the `loadFriends()` calls
      that accepting starts without waiting for them. */
  class FriendsHook {
    var friends: seq<User>
    var requests: seq<ReceivedRequest>
    var allUsers: seq<User>
    var friendsReloads: nat

    constructor ()
      ensures friends == [] && requests == [] && allUsers == [] && friendsReloads == 0
    {
      friends := [];
      requests := [];
      allUsers := [];
      friendsReloads := 0;
    }

    /** `loadFriends()`, with the list the API answered. */
    method LoadFriends(fetched: seq<User>)
      modifies this
      ensures friends == fetched
      ensures requests == old(requests) && allUsers == old(allUsers) && friendsReloads == old(friendsReloads)
    {
      friends := fetched;
    }

    /** `loadRequests()`, with the list the API answered. */
    method LoadRequests(fetched: seq<ReceivedRequest>)
      modifies this
      ensures requests == fetched
      ensures friends == old(friends) && allUsers == old(allUsers) && friendsReloads == old(friendsReloads)
    {
      requests := fetched;
    }

    /** `loadAllUsers()`, with the list the API answered. */
    method LoadAllUsers(fetched: seq<User>)
      modifies this
      ensures allUsers == fetched
      ensures friends == old(friends) && requests == old(requests) && friendsReloads == old(friendsReloads)
    {
      allUsers := fetched;
    }

    /** `acceptRequest(senderId)`; `apiOk` is whether the API call resolved.
        If it threw, nothing changes; otherwise the sender's requests are
        pruned and a friends reload is started. */
    method AcceptRequest(senderId: UserId, apiOk: bool)
      modifies this
      ensures apiOk ==> requests == WithoutSender(old(requests), senderId) && friendsReloads == old(friendsReloads) + 1
      ensures !apiOk ==> requests == old(requests) && friendsReloads == old(friendsReloads)
      ensures friends == old(friends) && allUsers == old(allUsers)
      ensures forall q :: q in requests ==> q.senderId != senderId || !apiOk
    {
      if !apiOk {
        return;
      }
      requests := WithoutSender(requests, senderId);
      friendsReloads := friendsReloads + 1;
    }

    /** `refuseRequest(senderId)`: the same pruning, and no reload. */
    method RefuseRequest(senderId: UserId, apiOk: bool)
      modifies this
      ensures requests == (if apiOk then WithoutSender(old(requests), senderId) else old(requests))
      ensures friends == old(friends) && allUsers == old(allUsers) && friendsReloads == old(friendsReloads)
    {
      if !apiOk {
        return;
      }
      requests := WithoutSender(requests, senderId);
    }
  }
}
