/** The handlers of server/src/controllers/groupsController.ts: each maps
    the authenticated user, the request fields and the service's outcome to
    a status code and a body. */
module GroupsController {

  import opened Common
  import opened Schema
  import opened GroupsService
  import FriendsService

  const NotAuthenticatedError := "Non authentifié"
  const MissingNameError := "Le nom du groupe est requis"
  const GroupCreatedMessage := "Groupe créé !"
  const CreateFailedError := "Erreur lors de la création du groupe"
  const GroupsQueryError := "Erreur récupération des groupes"
  const MissingIdsError := "ID du groupe et de l'utilisateur requis"
  const MemberAddedMessage := "Ami ajouté au groupe avec succès !"

  /** The response of a handler and the group tables after it. */
  datatype Outcome<+T> = Outcome(response: Response<T>, db: GroupDb)

  /** `createGroup`: 401 without a user, 400 without a name, then 201 with
      the new group, or 500 when the service throws. */
  function CreateGroup(db: GroupDb, store: Store, userId: Option<UserId>, name: Option<string>, id: GroupId, now: Time)
    : (o: Outcome<GroupWithMembers>)
    requires id !in db.groups
    ensures !Truthy(userId) ==> o == Outcome(Response(401, ErrorBody(NotAuthenticatedError)), db)
    ensures Truthy(userId) && !Truthy(name) ==> o == Outcome(Response(400, ErrorBody(MissingNameError)), db)
    ensures Truthy(userId) && Truthy(name) && store.Down? ==> o == Outcome(Response(500, ErrorBody(CreateFailedError)), db)
    ensures o.response.status == 201 <==> Truthy(userId) && Truthy(name) && store.Up?
    ensures o.response.status == 201 ==>
              && o.response.body.InfoData? && o.response.body.message == GroupCreatedMessage
              && o.response.body.data.group == Group(id, name.value, userId.value, now)
              && o.response.body.data.members == [Membership(userId.value, id, Admin, now)]
              && o.db == CreateGroupStep(db, store, name.value, userId.value, id, now).db
  {
    if !Truthy(userId) then Outcome(Response(401, ErrorBody(NotAuthenticatedError)), db)
    else if !Truthy(name) then Outcome(Response(400, ErrorBody(MissingNameError)), db)
    else
      var step := CreateGroupStep(db, store, name.value, userId.value, id, now);
      match step.result
      case Ok(group) => Outcome(Response(201, InfoData(GroupCreatedMessage, group)), step.db)
      case Err(_) => Outcome(Response(500, ErrorBody(CreateFailedError)), step.db)
  }

  /** `getMyGroups`: 401 without a user, 200 with the user's groups, 500
      when the store fails. */
  function GetMyGroups(db: GroupDb, messages: seq<Message>, store: Store, userId: Option<UserId>)
    : (r: Response<map<GroupId, GroupView>>)
    ensures !Truthy(userId) ==> r == Response(401, ErrorBody(NotAuthenticatedError))
    ensures Truthy(userId) && store.Down? ==> r == Response(500, ErrorBody(GroupsQueryError))
    ensures r.status == 200 <==> Truthy(userId) && store.Up?
    ensures r.status == 200 ==>
              r.body.Json? && forall g :: g in r.body.data <==> g in db.groups && IsMember(db.members, userId.value, g)
    ensures r.status == 200 ==> forall g :: g in r.body.data ==>
              && r.body.data[g].group == db.groups[g]
              && r.body.data[g].members == MembersOf(db.members, g)
              && r.body.data[g].messages == LatestMessage(messages, g)
  {
    if !Truthy(userId) then Response(401, ErrorBody(NotAuthenticatedError))
    else if store.Down? then Response(500, ErrorBody(GroupsQueryError))
    else Response(200, Json(UserGroups(db, messages, userId.value)))
  }

  /** `addMember`: 401 without a user, 400 without both ids, then 200, or
      400 with the service's error. */
  function AddMember(db: GroupDb, friendships: FriendsService.Rows, store: Store, userId: Option<UserId>,
                     groupId: Option<GroupId>, userIdToAdd: Option<UserId>, now: Time): (o: Outcome<()>)
    ensures !Truthy(userId) ==> o == Outcome(Response(401, ErrorBody(NotAuthenticatedError)), db)
    ensures Truthy(userId) && !(Truthy(groupId) && Truthy(userIdToAdd)) ==>
              o == Outcome(Response(400, ErrorBody(MissingIdsError)), db)
    ensures o.response.status in {200, 400, 401}
    ensures o.response.status == 401 <==> !Truthy(userId)
    ensures o.response.status != 200 ==> o.db == db
    ensures Truthy(userId) && Truthy(groupId) && Truthy(userIdToAdd) && store.Down? ==>
              o == Outcome(Response(400, ErrorBody(store.error)), db)
    ensures Truthy(userId) && Truthy(groupId) && Truthy(userIdToAdd) && store.Up? && groupId.value !in db.groups ==>
              o == Outcome(Response(400, ErrorBody(GroupNotFoundError)), db)
    ensures Truthy(userId) && Truthy(groupId) && Truthy(userIdToAdd) && store.Up? && groupId.value in db.groups
            && IsMember(db.members, userIdToAdd.value, groupId.value) ==>
              o == Outcome(Response(400, ErrorBody(AlreadyMemberError)), db)
    ensures o.response.status == 200 <==>
              && Truthy(userId) && Truthy(groupId) && Truthy(userIdToAdd) && store.Up?
              && groupId.value in db.groups && !IsMember(db.members, userIdToAdd.value, groupId.value)
    ensures o.response.status == 200 ==>
              && o.response.body == Info(MemberAddedMessage)
              && o.db == GroupDb(db.groups, db.members + [Membership(userIdToAdd.value, groupId.value, Member, now)])
  {
    if !Truthy(userId) then Outcome(Response(401, ErrorBody(NotAuthenticatedError)), db)
    else if !Truthy(groupId) || !Truthy(userIdToAdd) then Outcome(Response(400, ErrorBody(MissingIdsError)), db)
    else
      var step := AddMemberStep(db, friendships, store, groupId.value, userIdToAdd.value, userId.value, now);
      match step.result
      case Ok(_) => Outcome(Response(200, Info(MemberAddedMessage)), step.db)
      case Err(e) => Outcome(Response(400, ErrorBody(e)), step.db)
  }

  /** A second addition of the same user to the same group is a 400 with
      the service's message, and the tables do not change. */
  lemma {:induction false} SecondAddIs400(db: GroupDb, friendships: FriendsService.Rows, requester: UserId,
                                          groupId: GroupId, user: UserId, now: Time, later: Time)
    requires requester != "" && groupId != "" && user != ""
    requires AddMember(db, friendships, Up, Some(requester), Some(groupId), Some(user), now).response.status == 200
    ensures var after := AddMember(db, friendships, Up, Some(requester), Some(groupId), Some(user), now).db;
            AddMember(after, friendships, Up, Some(requester), Some(groupId), Some(user), later)
              == Outcome(Response(400, ErrorBody(AlreadyMemberError)), after)
  {
    var after := AddMember(db, friendships, Up, Some(requester), Some(groupId), Some(user), now).db;
    assert Membership(user, groupId, Member, now) in after.members;
  }

  /** The creator of a new group finds it among their groups. */
  lemma CreatorSeesNewGroup(db: GroupDb, messages: seq<Message>, userId: UserId, name: string, id: GroupId, now: Time)
    requires id !in db.groups && userId != "" && name != ""
    ensures var after := CreateGroup(db, Up, Some(userId), Some(name), id, now).db;
            id in GetMyGroups(after, messages, Up, Some(userId)).body.data
  {
    var after := CreateGroup(db, Up, Some(userId), Some(name), id, now).db;
    assert Membership(userId, id, Admin, now) in after.members;
  }
}
