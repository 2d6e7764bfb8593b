/** The group and membership tables of server/src/services/groupsService.ts.
    A group is created with its creator as ADMIN; members are added as
    MEMBER after an existence and a duplicate check. */
module GroupsService {

  import opened Common
  import opened Schema
  import Seqs
  import FriendsService

  const GroupNotFoundError := "Groupe introuvable"
  const AlreadyMemberError := "Cet utilisateur est déjà dans le groupe."
  const MembersQueryError := "Erreur lors de la récupération des membres du groupe."

  /** The `group` table (by id) and the `groupMember` table (in insertion order). */
  datatype GroupDb = GroupDb(groups: map<GroupId, Group>, members: seq<Membership>)

  /** Every membership names an existing group, and no user is in a group twice. */
  ghost predicate Valid(db: GroupDb)
  {
    && (forall i :: 0 <= i < |db.members| ==> db.members[i].groupId in db.groups)
    && (forall i, j :: 0 <= i < j < |db.members| ==>
          db.members[i].userId != db.members[j].userId || db.members[i].groupId != db.members[j].groupId)
  }

  /** What a service call returns (or throws), and the tables after it. */
  datatype Step<+T> = Step(result: Result<T>, db: GroupDb)

  /** The group returned with `include: { members: true }`. */
  datatype GroupWithMembers = GroupWithMembers(group: Group, members: seq<Membership>)

  /** A group as `getUserGroupsService` returns it: its members and at most
      its latest message. */
  datatype GroupView = GroupView(group: Group, members: seq<Membership>, messages: seq<Message>)

  function InGroup(groupId: GroupId): Membership -> bool
  {
    (m: Membership) => m.groupId == groupId
  }

  /** The memberships of one group, in table order. */
  function MembersOf(members: seq<Membership>, groupId: GroupId): (r: seq<Membership>)
    ensures forall m :: m in r <==> m in members && m.groupId == groupId
  {
    Seqs.Filter(members, InGroup(groupId))
  }

  /** `group.members.some(m => m.userId === userId)`. */
  predicate IsMember(members: seq<Membership>, userId: UserId, groupId: GroupId)
  {
    exists m :: m in members && m.userId == userId && m.groupId == groupId
  }

  /** `createGroupService(name, creatorId)`; `id` and `now` are the id and
      timestamp the store generates. */
  function CreateGroupStep(db: GroupDb, store: Store, name: string, creatorId: UserId, id: GroupId, now: Time)
    : (s: Step<GroupWithMembers>)
    requires id !in db.groups
    ensures store.Down? ==> s == Step(Err(store.error), db)
    ensures s.result.Ok? <==> store.Up?
    ensures s.result.Err? ==> s.db == db
    ensures s.result.Ok? ==>
              && s.result.value.group == Group(id, name, creatorId, now)
              && s.result.value.members == [Membership(creatorId, id, Admin, now)]
              && s.db.groups == db.groups[id := s.result.value.group]
              && s.db.members == db.members + s.result.value.members
  {
    if store.Down? then Step(Err(store.error), db)
    else
      var group := Group(id, name, creatorId, now);
      var admin := Membership(creatorId, id, Admin, now);
      Step(Ok(GroupWithMembers(group, [admin])), GroupDb(db.groups[id := group], db.members + [admin]))
  }

  /** `addMemberToGroupService(groupId, userIdToAdd, requesterId)`. The
      friendship between requester and new member is looked up and then not
      used; `now` is the store's timestamp. */
  function AddMemberStep(db: GroupDb, friendships: FriendsService.Rows, store: Store,
                         groupId: GroupId, userIdToAdd: UserId, requesterId: UserId, now: Time)
    : (s: Step<Membership>)
    ensures store.Down? ==> s == Step(Err(store.error), db)
    ensures store.Up? && groupId !in db.groups ==> s == Step(Err(GroupNotFoundError), db)
    ensures store.Up? && groupId in db.groups && IsMember(db.members, userIdToAdd, groupId) ==>
              s == Step(Err(AlreadyMemberError), db)
    ensures s.result.Ok? <==> store.Up? && groupId in db.groups && !IsMember(db.members, userIdToAdd, groupId)
    ensures s.result.Err? ==> s.db == db
    ensures s.result.Ok? ==>
              && s.result.value == Membership(userIdToAdd, groupId, Member, now)
              && s.db == GroupDb(db.groups, db.members + [s.result.value])
  {
    if store.Down? then Step(Err(store.error), db)
    else if groupId !in db.groups then Step(Err(GroupNotFoundError), db)
    else if IsMember(db.members, userIdToAdd, groupId) then Step(Err(AlreadyMemberError), db)
    else
      var areFriends := FriendsService.IsFriendship(friendships, requesterId, userIdToAdd);
      var member := Membership(userIdToAdd, groupId, Member, now);
      Step(Ok(member), GroupDb(db.groups, db.members + [member]))
  }

  /** `getGroupMembersService(groupId)`; a store failure is reported with
      the service's own message. */
  function GroupMembersResult(db: GroupDb, store: Store, groupId: GroupId): (r: Result<seq<Membership>>)
    ensures r.Err? <==> store.Down?
    ensures r.Err? ==> r.error == MembersQueryError
    ensures r.Ok? ==> r.value == MembersOf(db.members, groupId)
  {
    if store.Down? then Err(MembersQueryError) else Ok(MembersOf(db.members, groupId))
  }

  /** `messages: { take: 1, orderBy: { createdAt: 'desc' } }` of one group:
      no message, or one of its messages with the latest `createdAt`. */
  function LatestMessage(messages: seq<Message>, groupId: GroupId): (r: seq<Message>)
    ensures |r| <= 1
    ensures r == [] <==> forall m :: m in messages ==> m.groupId != Some(groupId)
    ensures r != [] ==> r[0] in messages && r[0].groupId == Some(groupId)
    ensures r != [] ==> forall m :: m in messages && m.groupId == Some(groupId) ==> m.createdAt <= r[0].createdAt
  {
    var own := Seqs.Filter(messages, (m: Message) => m.groupId == Some(groupId));
    match Seqs.MaxBy(own, CreatedAt)
    case None => []
    case Some(latest) =>
      assert forall m :: m in own ==> CreatedAt(m) <= CreatedAt(latest) by {
        forall m | m in own ensures CreatedAt(m) <= CreatedAt(latest) {
          var i :| 0 <= i < |own| && own[i] == m;
        }
      }
      [latest]
  }

  /** `getUserGroupsService(userId)`: every group with a membership of
      `userId`, keyed by group id, with all its members and its latest message. */
  function UserGroups(db: GroupDb, messages: seq<Message>, userId: UserId): (r: map<GroupId, GroupView>)
    ensures forall id :: id in r <==> id in db.groups && IsMember(db.members, userId, id)
    ensures forall id :: id in r ==>
              && r[id].group == db.groups[id]
              && r[id].members == MembersOf(db.members, id)
              && r[id].messages == LatestMessage(messages, id)
  {
    map id | id in db.groups && IsMember(db.members, userId, id)
      :: GroupView(db.groups[id], MembersOf(db.members, id), LatestMessage(messages, id))
  }

  /** A fresh group has exactly one member: its creator, as ADMIN. */
  lemma {:induction false} CreatedGroupHasOnlyItsAdmin(db: GroupDb, store: Store, name: string, creatorId: UserId, id: GroupId, now: Time)
    requires Valid(db) && id !in db.groups
    requires CreateGroupStep(db, store, name, creatorId, id, now).result.Ok?
    ensures MembersOf(CreateGroupStep(db, store, name, creatorId, id, now).db.members, id)
         == [Membership(creatorId, id, Admin, now)]
    ensures id in UserGroups(CreateGroupStep(db, store, name, creatorId, id, now).db, [], creatorId)
  {
    var admin := Membership(creatorId, id, Admin, now);
    Seqs.FilterAppend(db.members, [admin], InGroup(id));
    Seqs.FilterKeepsNone(db.members, InGroup(id));
    assert Seqs.Filter([admin], InGroup(id)) == [admin] by {
      assert [admin][1..] == [];
    }
    assert admin in db.members + [admin];
  }

  /** Creating a group keeps the tables valid. */
  lemma {:induction false} CreateGroupPreservesValid(db: GroupDb, store: Store, name: string, creatorId: UserId, id: GroupId, now: Time)
    requires Valid(db) && id !in db.groups
    ensures Valid(CreateGroupStep(db, store, name, creatorId, id, now).db)
  {
    var s := CreateGroupStep(db, store, name, creatorId, id, now);
    if s.result.Ok? {
      var ms := s.db.members;
      assert forall i :: 0 <= i < |db.members| ==> ms[i] == db.members[i];
      forall i, j | 0 <= i < j < |ms|
        ensures ms[i].userId != ms[j].userId || ms[i].groupId != ms[j].groupId
      {
        if j == |db.members| {
          assert ms[i].groupId in db.groups;
        }
      }
    }
  }

  /** Adding a member keeps the tables valid: no (user, group) membership is
      ever duplicated. */
  lemma {:induction false} AddMemberPreservesValid(db: GroupDb, friendships: FriendsService.Rows, store: Store,
                                                  groupId: GroupId, userIdToAdd: UserId, requesterId: UserId, now: Time)
    requires Valid(db)
    ensures Valid(AddMemberStep(db, friendships, store, groupId, userIdToAdd, requesterId, now).db)
  {
    var s := AddMemberStep(db, friendships, store, groupId, userIdToAdd, requesterId, now);
    if s.result.Ok? {
      var ms := s.db.members;
      assert forall i :: 0 <= i < |db.members| ==> ms[i] == db.members[i];
      forall i, j | 0 <= i < j < |ms|
        ensures ms[i].userId != ms[j].userId || ms[i].groupId != ms[j].groupId
      {
        if j == |db.members| {
          assert ms[i] in db.members;
        }
      }
    }
  }

  /** A successful add appends exactly the new membership to that group's
      member list and leaves every other group's list as it was. */
  lemma {:induction false} AddMemberAppendsOne(db: GroupDb, friendships: FriendsService.Rows, store: Store,
                                              groupId: GroupId, userIdToAdd: UserId, requesterId: UserId, now: Time,
                                              other: GroupId)
    requires AddMemberStep(db, friendships, store, groupId, userIdToAdd, requesterId, now).result.Ok?
    ensures MembersOf(AddMemberStep(db, friendships, store, groupId, userIdToAdd, requesterId, now).db.members, groupId)
         == MembersOf(db.members, groupId) + [Membership(userIdToAdd, groupId, Member, now)]
    ensures other != groupId ==>
              (MembersOf(AddMemberStep(db, friendships, store, groupId, userIdToAdd, requesterId, now).db.members, other)
               == MembersOf(db.members, other))
    ensures groupId in UserGroups(AddMemberStep(db, friendships, store, groupId, userIdToAdd, requesterId, now).db, [], userIdToAdd)
  {
    var added := Membership(userIdToAdd, groupId, Member, now);
    Seqs.FilterAppend(db.members, [added], InGroup(groupId));
    Seqs.FilterAppend(db.members, [added], InGroup(other));
    assert [added][1..] == [];
    assert added in db.members + [added];
  }

  /** The friendship lookup is not enforced and the requester is not
      checked: the outcome depends on neither. */
  lemma AddMemberIgnoresFriendshipAndRequester(db: GroupDb, store: Store, groupId: GroupId, userIdToAdd: UserId, now: Time,
                                               f1: FriendsService.Rows, requester1: UserId,
                                               f2: FriendsService.Rows, requester2: UserId)
    ensures AddMemberStep(db, f1, store, groupId, userIdToAdd, requester1, now)
         == AddMemberStep(db, f2, store, groupId, userIdToAdd, requester2, now)
  {
  }

  /** The in-memory stand-in for the `group` and `groupMember` tables. */
  class GroupTables {
    var groups: map<GroupId, Group>
    var members: seq<Membership>

    function Db(): GroupDb
      reads this
    {
      GroupDb(groups, members)
    }

    constructor ()
      ensures groups == map[] && members == []
    {
      groups := map[];
      members := [];
    }

    /** Inserts the group together with its creator's ADMIN membership. */
    method CreateGroup(store: Store, name: string, creatorId: UserId, id: GroupId, now: Time)
      returns (res: Result<GroupWithMembers>)
      requires id !in groups
      modifies this
      ensures Step(res, Db()) == CreateGroupStep(old(Db()), store, name, creatorId, id, now)
      ensures Valid(old(Db())) ==> Valid(Db())
    {
      if Valid(Db()) {
        CreateGroupPreservesValid(Db(), store, name, creatorId, id, now);
      }
      if store.Down? {
        return Err(store.error);
      }
      var group := Group(id, name, creatorId, now);
      var admin := Membership(creatorId, id, Admin, now);
      groups := groups[id := group];
      members := members + [admin];
      res := Ok(GroupWithMembers(group, [admin]));
    }

    /** Finds the group, rejects an existing member, looks the friendship
        up, then inserts a MEMBER membership. */
    method AddMember(friendships: FriendsService.FriendshipTable, store: Store,
                     groupId: GroupId, userIdToAdd: UserId, requesterId: UserId, now: Time)
      returns (res: Result<Membership>)
      modifies this
      ensures Step(res, Db()) == AddMemberStep(old(Db()), friendships.rows, store, groupId, userIdToAdd, requesterId, now)
      ensures Valid(old(Db())) ==> Valid(Db())
    {
      if Valid(Db()) {
        AddMemberPreservesValid(Db(), friendships.rows, store, groupId, userIdToAdd, requesterId, now);
      }
      if store.Down? {
        return Err(store.error);
      }
      if groupId !in groups {
        return Err(GroupNotFoundError);
      }
      var isAlreadyMember := IsMember(members, userIdToAdd, groupId);
      if isAlreadyMember {
        return Err(AlreadyMemberError);
      }
      var areFriends := FriendsService.IsFriendship(friendships.rows, requesterId, userIdToAdd);
      var member := Membership(userIdToAdd, groupId, Member, now);
      members := members + [member];
      res := Ok(member);
    }
  }
}
