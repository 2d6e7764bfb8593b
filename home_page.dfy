/** The state and the list filters of client/src/pages/HomePage.tsx
    (without its JSX): changing the view resets the search and the
    selections, sending routes the typed text to the selected friend and/or
    group, the search lists strangers whose name contains the text, and the
    group panel lists the friends not yet in the selected group. */
module HomePage {

  import opened Common
  import opened Schema
  import opened JsText
  import Seqs
  import GroupsService
  import FriendsService
  import UseMessages

  datatype View = FriendsView | GroupsView | SearchView | RequestsView

  /** The list `changeView` (re)loads once the state is reset. */
  datatype Load = NoLoad | LoadGroups | LoadAllUsers | LoadRequests

  function LoadFor(view: View): (l: Load)
    ensures l == NoLoad <==> view == FriendsView
    ensures l == LoadGroups <==> view == GroupsView
    ensures l == LoadAllUsers <==> view == SearchView
    ensures l == LoadRequests <==> view == RequestsView
  {
    match view
    case FriendsView => NoLoad
    case GroupsView => LoadGroups
    case SearchView => LoadAllUsers
    case RequestsView => LoadRequests
  }

  /** `String(selectedFriend.id)` when a friend is selected. */
  function FriendTarget(selected: Option<User>): (r: Option<UserId>)
    ensures r.Some? <==> selected.Some?
    ensures r.Some? ==> r.value == selected.value.id
  {
    match selected
    case None => None
    case Some(friend) => Some(friend.id)
  }

  /** `selectedGroup.id` when a group is selected. */
  function GroupTarget(selected: Option<GroupsService.GroupView>): (r: Option<GroupId>)
    ensures r.Some? <==> selected.Some?
    ensures r.Some? ==> r.value == selected.value.group.id
  {
    match selected
    case None => None
    case Some(view) => Some(view.group.id)
  }

  // --------------------------------------------------------------- search

  /** `friends.friends.map(f => f.id)`. */
  function Ids(users: seq<User>): (r: seq<UserId>)
    ensures |r| == |users|
    ensures forall i :: 0 <= i < |users| ==> r[i] == users[i].id
  {
    if users == [] then [] else [users[0].id] + Ids(users[1..])
  }

  lemma {:induction false} IdsMembership(users: seq<User>, id: UserId)
    ensures id in Ids(users) <==> exists f :: f in users && f.id == id
  {
    if id in Ids(users) {
      var i :| 0 <= i < |users| && Ids(users)[i] == id;
      assert users[i] in users;
    }
  }

  /** The callback of the search filter. */
  function Matches(friendIds: seq<UserId>, userId: string, searchText: string): User -> bool
  {
    (u: User) => Includes(u.username, searchText) && u.id !in friendIds && !Includes(userId, u.id)
  }

  /** `searchResults`: nothing while the text is blank; otherwise the users
      whose name contains the text, who are not friends, and whose id does
      not occur inside the current user's id, in directory order. */
  function SearchResults(allUsers: seq<User>, friends: seq<User>, userId: string, searchText: string): (r: seq<User>)
    ensures IsBlank(searchText) ==> r == []
    ensures !IsBlank(searchText) ==> forall u :: u in r <==>
              && u in allUsers && Includes(u.username, searchText)
              && !(exists f :: f in friends && f.id == u.id)
              && !Includes(userId, u.id)
    ensures |r| <= |allUsers|
  {
    TrimEmptyIffBlank(searchText);
    if Trim(searchText) == "" then []
    else
      var friendIds := Ids(friends);
      assert forall u: User :: u.id in friendIds <==> exists f :: f in friends && f.id == u.id by {
        forall u: User ensures u.id in friendIds <==> exists f :: f in friends && f.id == u.id {
          IdsMembership(friends, u.id);
        }
      }
      Seqs.Filter(allUsers, Matches(friendIds, userId, searchText))
  }

  /** The current user never finds themselves: every string includes itself. */
  lemma CurrentUserNeverListed(allUsers: seq<User>, friends: seq<User>, userId: string, searchText: string, u: User)
    requires u.id == userId
    ensures u !in SearchResults(allUsers, friends, userId, searchText)
  {
    IncludesSelf(userId);
  }

  /** The id test is a substring test, not an equality: a user whose id
      occurs inside the current user's id is hidden too. */
  lemma SubstringIdHidden(allUsers: seq<User>, friends: seq<User>, userId: string, searchText: string, u: User, i: int)
    requires OccursAt(userId, u.id, i)
    ensures u !in SearchResults(allUsers, friends, userId, searchText)
  {
  }

  /** When ids all have the current user's length (as generated uuids do),
      the substring test is exactly "not the current user". */
  lemma SameLengthIdsExcludeOnlySelf(allUsers: seq<User>, friends: seq<User>, userId: string, searchText: string)
    requires !IsBlank(searchText)
    requires forall u :: u in allUsers ==> |u.id| == |userId|
    ensures forall u :: u in SearchResults(allUsers, friends, userId, searchText) <==>
              && u in allUsers && Includes(u.username, searchText)
              && !(exists f :: f in friends && f.id == u.id)
              && u.id != userId
  {
    forall u | u in allUsers
      ensures Includes(userId, u.id) <==> u.id == userId
    {
      SameLengthIncludesIsEquality(userId, u.id);
    }
  }

  // ---------------------------------------------------- available friends

  /** `selectedGroup.members.some(m => String(m.userId) === String(f.id))`. */
  predicate HasMember(members: seq<Membership>, userId: UserId)
  {
    exists i | 0 <= i < |members| :: members[i].userId == userId
  }

  function NotMemberOf(members: seq<Membership>): User -> bool
  {
    (f: User) => !HasMember(members, f.id)
  }

  /** `availableFriends`: nothing without a selected group; otherwise the
      friends with no membership in it, in friend-list order. */
  function AvailableFriends(friends: seq<User>, selectedGroup: Option<GroupsService.GroupView>): (r: seq<User>)
    ensures selectedGroup.None? ==> r == []
    ensures selectedGroup.Some? ==> forall f :: f in r <==>
              f in friends && !(exists m :: m in selectedGroup.value.members && m.userId == f.id)
  {
    match selectedGroup
    case None => []
    case Some(group) => Seqs.Filter(friends, NotMemberOf(group.members))
  }

  /** Once the server has added a friend to a group, the group's refreshed
      member list no longer offers that friend. */
  lemma AddedFriendNoLongerAvailable(db: GroupsService.GroupDb, friendships: FriendsService.Rows,
                                     groupId: GroupId, friend: User, requesterId: UserId, now: Time, friends: seq<User>)
    requires GroupsService.AddMemberStep(db, friendships, Up, groupId, friend.id, requesterId, now).result.Ok?
    ensures var after := GroupsService.AddMemberStep(db, friendships, Up, groupId, friend.id, requesterId, now).db;
            var view := GroupsService.GroupView(after.groups[groupId], GroupsService.MembersOf(after.members, groupId), []);
            friend !in AvailableFriends(friends, Some(view))
  {
    var after := GroupsService.AddMemberStep(db, friendships, Up, groupId, friend.id, requesterId, now).db;
    var added := Membership(friend.id, groupId, Member, now);
    assert added in after.members;
    assert added in GroupsService.MembersOf(after.members, groupId);
  }

  // ---------------------------------------------------------------- state

  /** The page's state variables. */
  class Page {
    var view: View
    var selectedFriend: Option<User>
    var selectedGroup: Option<GroupsService.GroupView>
    var searchText: string
    var messageText: string

    constructor ()
      ensures view == FriendsView && selectedFriend.None? && selectedGroup.None?
      ensures searchText == "" && messageText == ""
    {
      view := FriendsView;
      selectedFriend := None;
      selectedGroup := None;
      searchText := "";
      messageText := "";
    }

    /** `changeView(next)`: the view is set, the search text and both
        selections cleared; the answer is the list to load next. */
    method ChangeView(next: View) returns (load: Load)
      modifies this
      ensures view == next && searchText == "" && selectedFriend.None? && selectedGroup.None?
      ensures messageText == old(messageText)
      ensures load == LoadFor(next)
    {
      view := next;
      searchText := "";
      selectedFriend := None;
      selectedGroup := None;
      load := LoadFor(next);
    }

    /** `sendMessage()`: nothing while the typed text is blank; otherwise
        the text goes to the selected friend and/or group through the
        messages hook, and the input is cleared. */
    method SendMessage(hook: UseMessages.MessagesHook)
      modifies this, hook
      ensures IsBlank(old(messageText)) ==> messageText == old(messageText) && hook.calls == old(hook.calls)
      ensures !IsBlank(old(messageText)) ==>
                && messageText == ""
                && hook.calls == old(hook.calls) + UseMessages.SendCalls(old(messageText), FriendTarget(selectedFriend), GroupTarget(selectedGroup))
      ensures view == old(view) && selectedFriend == old(selectedFriend) && selectedGroup == old(selectedGroup)
      ensures searchText == old(searchText)
      ensures hook.messages == old(hook.messages) && hook.socket == old(hook.socket) && hook.ops == old(hook.ops)
      ensures hook.listening == old(hook.listening)
    {
      TrimEmptyIffBlank(messageText);
      if Trim(messageText) == "" {
        return;
      }
      var receiverId: Option<UserId> := None;
      var groupId: Option<GroupId> := None;
      if selectedFriend.Some? {
        receiverId := Some(selectedFriend.value.id);
      }
      if selectedGroup.Some? {
        groupId := Some(selectedGroup.value.group.id);
      }
      hook.SendMessage(messageText, receiverId, groupId);
      messageText := "";
    }
  }
}
