/** The handlers of server/src/controllers/messagesController.ts. The two
    send handlers validate, persist through the messages service and only
    then emit `receive_message`: a direct message to the receiver's room and
    then to the sender's room, a group message to the group's room. The
    socket server is recorded as a log of emissions. */
module MessagesController {

  import opened Common
  import opened Schema
  import opened MessagesService
  import Seqs

  const NotAuthenticatedError := "Non authentifié"
  const MissingDataError := "Données manquantes"
  const DirectSendError := "Erreur envoi message privé"
  const DirectQueryError := "Erreur récupération messages privés"
  const GroupQueryError := "Erreur récupération messages groupe"
  const ReceiveMessage := "receive_message"

  /** `io.to(room).emit(event, payload)`. */
  datatype Emission = Emission(room: string, event: string, payload: Message)

  /** What a send handler answers, the tables after it and what it emits. */
  datatype SendOutcome = SendOutcome(response: Response<Message>, db: MessageDb, emitted: seq<Emission>)

  /** Every emitted message is one the tables hold. */
  ghost predicate EmittedArePersisted(emitted: seq<Emission>, db: MessageDb)
  {
    forall e :: e in emitted ==> e.payload in db.messages
  }

  /** `sendDM`: 401 without a user, 400 without receiver or content, then
      the service; on success 201 and two emissions, on failure 500 and
      none. */
  function SendDM(db: MessageDb, store: Store, userId: Option<UserId>, receiverId: Option<UserId>, content: Option<string>,
                  conversationId: ConversationId, messageId: MessageId, now: Time): (o: SendOutcome)
    requires FreshConversationId(db, conversationId) && FreshMessageId(db, messageId)
    ensures !Truthy(userId) ==> o == SendOutcome(Response(401, ErrorBody(NotAuthenticatedError)), db, [])
    ensures Truthy(userId) && !(Truthy(receiverId) && Truthy(content)) ==>
              o == SendOutcome(Response(400, ErrorBody(MissingDataError)), db, [])
    ensures Truthy(userId) && Truthy(receiverId) && Truthy(content) && store.Down? ==>
              o == SendOutcome(Response(500, ErrorBody(DirectSendError)), db, [])
    ensures o.response.status == 201 <==> Truthy(userId) && Truthy(receiverId) && Truthy(content) && store.Up?
    ensures o.emitted != [] <==> o.response.status == 201
    ensures o.response.status == 201 ==>
              && o.response.body.Json?
              && o.db.messages == db.messages + [o.response.body.data]
              && o.response.body.data.authorId == userId.value
              && o.response.body.data.content == content.value
              && o.db == SendDirectStep(db, store, userId.value, receiverId.value, content.value, conversationId, messageId, now).db
              && o.emitted == [Emission(receiverId.value, ReceiveMessage, o.response.body.data),
                               Emission(userId.value, ReceiveMessage, o.response.body.data)]
    ensures EmittedArePersisted(o.emitted, o.db)
  {
    if !Truthy(userId) then SendOutcome(Response(401, ErrorBody(NotAuthenticatedError)), db, [])
    else if !Truthy(receiverId) || !Truthy(content) then SendOutcome(Response(400, ErrorBody(MissingDataError)), db, [])
    else
      var step := SendDirectStep(db, store, userId.value, receiverId.value, content.value, conversationId, messageId, now);
      match step.result
      case Err(_) => SendOutcome(Response(500, ErrorBody(DirectSendError)), step.db, [])
      case Ok(message) =>
        SendOutcome(Response(201, Json(message)), step.db,
                    [Emission(receiverId.value, ReceiveMessage, message), Emission(userId.value, ReceiveMessage, message)])
  }

  /** `sendGroupMsg`: 401 without a user, 400 without group or content,
      then the service; on success 201 and one emission to the group's
      room, on failure 400 with the service's error and none. */
  function SendGroupMsg(db: MessageDb, groups: map<GroupId, Group>, store: Store, userId: Option<UserId>,
                        groupId: Option<GroupId>, content: Option<string>, messageId: MessageId, now: Time): (o: SendOutcome)
    requires FreshMessageId(db, messageId)
    ensures !Truthy(userId) ==> o == SendOutcome(Response(401, ErrorBody(NotAuthenticatedError)), db, [])
    ensures Truthy(userId) && !(Truthy(groupId) && Truthy(content)) ==>
              o == SendOutcome(Response(400, ErrorBody(MissingDataError)), db, [])
    ensures Truthy(userId) && Truthy(groupId) && Truthy(content) && store.Up? && groupId.value !in groups ==>
              o == SendOutcome(Response(400, ErrorBody(MessagesService.GroupNotFoundError)), db, [])
    ensures Truthy(userId) && Truthy(groupId) && Truthy(content) && store.Down? ==>
              o == SendOutcome(Response(400, ErrorBody(store.error)), db, [])
    ensures o.response.status == 201 <==>
              Truthy(userId) && Truthy(groupId) && Truthy(content) && store.Up? && groupId.value in groups
    ensures o.response.status != 201 ==> o.db == db && o.emitted == []
    ensures o.response.status == 201 ==>
              && o.response.body == Json(Message(messageId, content.value, now, userId.value, groupId, None))
              && o.db == MessageDb(db.conversations, db.messages + [o.response.body.data])
              && o.emitted == [Emission(groupId.value, ReceiveMessage, o.response.body.data)]
    ensures EmittedArePersisted(o.emitted, o.db)
  {
    if !Truthy(userId) then SendOutcome(Response(401, ErrorBody(NotAuthenticatedError)), db, [])
    else if !Truthy(groupId) || !Truthy(content) then SendOutcome(Response(400, ErrorBody(MissingDataError)), db, [])
    else
      var step := SendGroupStep(db, groups, store, userId.value, groupId.value, content.value, messageId, now);
      match step.result
      case Err(e) => SendOutcome(Response(400, ErrorBody(e)), step.db, [])
      case Ok(message) => SendOutcome(Response(201, Json(message)), step.db, [Emission(groupId.value, ReceiveMessage, message)])
  }

  /** `getDMs`: 401 without a user, 200 with the conversation's history,
      500 when the store fails. */
  function GetDMs(db: MessageDb, store: Store, userId: Option<UserId>, contactId: UserId): (r: Response<seq<Message>>)
    ensures !Truthy(userId) ==> r == Response(401, ErrorBody(NotAuthenticatedError))
    ensures Truthy(userId) && store.Down? ==> r == Response(500, ErrorBody(DirectQueryError))
    ensures r.status == 200 <==> Truthy(userId) && store.Up?
    ensures r.status == 200 ==> r.body.Json? && r.body.data == DirectMessages(db, userId.value, contactId)
  {
    if !Truthy(userId) then Response(401, ErrorBody(NotAuthenticatedError))
    else if store.Down? then Response(500, ErrorBody(DirectQueryError))
    else Response(200, Json(DirectMessages(db, userId.value, contactId)))
  }

  /** `getGroupMsgs`: no user check of its own; 200 with the group's
      history, 500 when the store fails. */
  function GetGroupMsgs(db: MessageDb, store: Store, groupId: GroupId): (r: Response<seq<Message>>)
    ensures store.Down? ==> r == Response(500, ErrorBody(GroupQueryError))
    ensures store.Up? ==> r.status == 200 && r.body.Json?
    ensures store.Up? ==> forall m :: m in r.body.data <==> m in db.messages && m.groupId == Some(groupId)
    ensures store.Up? ==> Seqs.SortedBy(r.body.data, CreatedAt)
    ensures store.Up? ==> multiset(r.body.data) == multiset(Seqs.Filter(db.messages, InGroupChat(groupId)))
  {
    if store.Down? then Response(500, ErrorBody(GroupQueryError))
    else Response(200, Json(GroupMessages(db, groupId)))
  }

  /** A direct message that was answered 201 is in the history both users
      read back. */
  lemma SentDMIsReadBack(db: MessageDb, sender: UserId, receiver: UserId, content: string,
                         conversationId: ConversationId, messageId: MessageId, now: Time)
    requires FreshConversationId(db, conversationId) && FreshMessageId(db, messageId)
    requires sender != "" && receiver != "" && content != ""
    ensures var o := SendDM(db, Up, Some(sender), Some(receiver), Some(content), conversationId, messageId, now);
            && o.response.body.data in GetDMs(o.db, Up, Some(sender), receiver).body.data
            && o.response.body.data in GetDMs(o.db, Up, Some(receiver), sender).body.data
  {
    SentDirectMessageInHistory(db, sender, receiver, content, conversationId, messageId, now);
  }

  /** The socket server: the log of every emission so far. */
  class Emitter {
    var log: seq<Emission>

    constructor ()
      ensures log == []
    {
      log := [];
    }

    method Emit(room: string, event: string, payload: Message)
      modifies this
      ensures log == old(log) + [Emission(room, event, payload)]
    {
      log := log + [Emission(room, event, payload)];
    }
  }

  /** `sendDM` against the tables and the socket server: persist first,
      then emit to the receiver's room and to the sender's room. */
  method HandleSendDM(tables: MessageTables, io: Emitter, store: Store, userId: Option<UserId>,
                      receiverId: Option<UserId>, content: Option<string>,
                      conversationId: ConversationId, messageId: MessageId, now: Time)
    returns (response: Response<Message>)
    requires FreshConversationId(tables.Db(), conversationId) && FreshMessageId(tables.Db(), messageId)
    modifies tables, io
    ensures var o := SendDM(old(tables.Db()), store, userId, receiverId, content, conversationId, messageId, now);
            response == o.response && tables.Db() == o.db && io.log == old(io.log) + o.emitted
    ensures EmittedArePersisted(old(io.log), old(tables.Db())) ==> EmittedArePersisted(io.log, tables.Db())
  {
    if !Truthy(userId) {
      return Response(401, ErrorBody(NotAuthenticatedError));
    }
    if !Truthy(receiverId) || !Truthy(content) {
      return Response(400, ErrorBody(MissingDataError));
    }
    var result := tables.SendDirectMessage(store, userId.value, receiverId.value, content.value, conversationId, messageId, now);
    if result.Err? {
      return Response(500, ErrorBody(DirectSendError));
    }
    io.Emit(receiverId.value, ReceiveMessage, result.value);
    io.Emit(userId.value, ReceiveMessage, result.value);
    response := Response(201, Json(result.value));
  }

  /** `sendGroupMsg` against the tables and the socket server: persist
      first, then emit to the group's room. */
  method HandleSendGroupMsg(tables: MessageTables, io: Emitter, groups: map<GroupId, Group>, store: Store,
                            userId: Option<UserId>, groupId: Option<GroupId>, content: Option<string>,
                            messageId: MessageId, now: Time)
    returns (response: Response<Message>)
    requires FreshMessageId(tables.Db(), messageId)
    modifies tables, io
    ensures var o := SendGroupMsg(old(tables.Db()), groups, store, userId, groupId, content, messageId, now);
            response == o.response && tables.Db() == o.db && io.log == old(io.log) + o.emitted
    ensures EmittedArePersisted(old(io.log), old(tables.Db())) ==> EmittedArePersisted(io.log, tables.Db())
  {
    if !Truthy(userId) {
      return Response(401, ErrorBody(NotAuthenticatedError));
    }
    if !Truthy(groupId) || !Truthy(content) {
      return Response(400, ErrorBody(MissingDataError));
    }
    var result := tables.SendGroupMessage(groups, store, userId.value, groupId.value, content.value, messageId, now);
    if result.Err? {
      return Response(400, ErrorBody(result.error));
    }
    io.Emit(groupId.value, ReceiveMessage, result.value);
    response := Response(201, Json(result.value));
  }
}
