/** The handlers of server/src/controllers/friendsController.ts: each maps
    the authenticated user, the request fields and the service's outcome to
    a status code and a body. */
module FriendsController {

  import opened Common
  import opened FriendsService

  const NotAuthenticatedSendError := "Utilisateur non authentifié"
  const NotAuthenticatedError := "Non authentifié"
  const MissingReceiverError := "L'ID du destinataire est manquant"
  const RequestSentMessage := "Demande d'ami envoyée !"
  const SendFallbackError := "Erreur lors de l'envoi de la demande"
  const RequestsQueryError := "Erreur lors de la récupération des demandes."
  const AcceptedMessage := "Ami accepté avec succès !"
  const RefusedMessage := "Demande refusée."
  const FriendsQueryError := "Erreur lors de la récupération des amis."

  /** The response of a handler and the friendship table after it. */
  datatype Outcome<+T> = Outcome(response: Response<T>, rows: Rows)

  /** `error.message || fallback`. */
  function MessageOr(message: string, fallback: string): (r: string)
    ensures fallback != "" ==> r != ""
    ensures message != "" ==> r == message
    ensures message == "" ==> r == fallback
  {
    if message != "" then message else fallback
  }

  /** `sendRequest`: 401 without a user, 400 without a receiver, then the
      service: 201 with the new record, or 400 with its error. */
  function SendRequest(rows: Rows, store: Store, userId: Option<UserId>, receiverId: Option<UserId>)
    : (o: Outcome<Friendship>)
    ensures !Truthy(userId) ==> o == Outcome(Response(401, ErrorBody(NotAuthenticatedSendError)), rows)
    ensures Truthy(userId) && !Truthy(receiverId) ==> o == Outcome(Response(400, ErrorBody(MissingReceiverError)), rows)
    ensures o.response.status in {201, 400, 401}
    ensures o.response.status == 401 <==> !Truthy(userId)
    ensures o.response.status != 201 ==> o.rows == rows
    ensures Truthy(userId) && Truthy(receiverId) && SendRequestStep(rows, store, userId.value, receiverId.value).result.Err? ==>
              o == Outcome(Response(400, ErrorBody(MessageOr(SendRequestStep(rows, store, userId.value, receiverId.value).result.error,
                                                             SendFallbackError))), rows)
    ensures o.response.status == 201 <==>
              Truthy(userId) && Truthy(receiverId) && SendRequestStep(rows, store, userId.value, receiverId.value).result.Ok?
    ensures o.response.status == 201 ==>
              && o.response.body == InfoData(RequestSentMessage, Friendship(userId.value, receiverId.value, Pending))
              && o.rows == SendRequestStep(rows, store, userId.value, receiverId.value).rows
  {
    if !Truthy(userId) then Outcome(Response(401, ErrorBody(NotAuthenticatedSendError)), rows)
    else if !Truthy(receiverId) then Outcome(Response(400, ErrorBody(MissingReceiverError)), rows)
    else
      var step := SendRequestStep(rows, store, userId.value, receiverId.value);
      match step.result
      case Ok(record) => Outcome(Response(201, InfoData(RequestSentMessage, record)), step.rows)
      case Err(e) => Outcome(Response(400, ErrorBody(MessageOr(e, SendFallbackError))), step.rows)
  }

  /** Asking oneself as a friend reaches the service and comes back as a
      400 carrying the service's message. */
  lemma SelfRequestIs400(rows: Rows, store: Store, u: UserId)
    requires u != ""
    ensures SendRequest(rows, store, Some(u), Some(u)) == Outcome(Response(400, ErrorBody(SelfRequestError)), rows)
  {
  }

  /** `getReceivedRequests`: 401 without a user, 200 with the pending
      requests, 500 when the store fails. */
  function GetReceivedRequests(rows: Rows, store: Store, userId: Option<UserId>): (r: Response<set<Friendship>>)
    ensures !Truthy(userId) ==> r == Response(401, ErrorBody(NotAuthenticatedError))
    ensures Truthy(userId) && store.Down? ==> r == Response(500, ErrorBody(RequestsQueryError))
    ensures r.status == 200 <==> Truthy(userId) && store.Up?
    ensures r.status == 200 ==>
              r.body.Json? && forall sender :: Friendship(sender, userId.value, Pending) in r.body.data <==>
                Key(sender, userId.value) in rows && rows[Key(sender, userId.value)] == Pending
    ensures r.status == 200 ==> forall f :: f in r.body.data ==> f.receiver == userId.value && f.status == Pending
    ensures r.status == 200 ==> r.body.data == ReceivedRequests(rows, userId.value)
  {
    if !Truthy(userId) then Response(401, ErrorBody(NotAuthenticatedError))
    else if store.Down? then Response(500, ErrorBody(RequestsQueryError))
    else Response(200, Json(ReceivedRequests(rows, userId.value)))
  }

  /** `acceptRequest`: the caller is the receiver and the path parameter the
      sender; 200 on success, 400 with the service's error otherwise. */
  function AcceptRequest(rows: Rows, store: Store, userId: Option<UserId>, senderId: UserId): (o: Outcome<()>)
    ensures !Truthy(userId) ==> o == Outcome(Response(401, ErrorBody(NotAuthenticatedError)), rows)
    ensures o.response.status in {200, 400, 401}
    ensures o.response.status == 200 <==> Truthy(userId) && store.Up? && Key(senderId, userId.value) in rows
    ensures o.response.status == 200 ==>
              && o.response.body == Info(AcceptedMessage) && IsFriendship(o.rows, userId.value, senderId)
              && o.rows == rows[Key(senderId, userId.value) := Accepted]
    ensures o.response.status == 400 ==> o == Outcome(Response(400, ErrorBody(AcceptError)), rows)
    ensures Truthy(userId) && !(store.Up? && Key(senderId, userId.value) in rows) ==>
              o == Outcome(Response(400, ErrorBody(AcceptError)), rows)
  {
    if !Truthy(userId) then Outcome(Response(401, ErrorBody(NotAuthenticatedError)), rows)
    else
      var step := AcceptStep(rows, store, userId.value, senderId);
      match step.result
      case Ok(_) => Outcome(Response(200, Info(AcceptedMessage)), step.rows)
      case Err(e) => Outcome(Response(400, ErrorBody(e)), step.rows)
  }

  /** `refuseRequest`: the caller is the receiver and the path parameter the
      sender; 200 once the record is deleted, 400 with the service's error. */
  function RefuseRequest(rows: Rows, store: Store, userId: Option<UserId>, senderId: UserId): (o: Outcome<()>)
    ensures !Truthy(userId) ==> o == Outcome(Response(401, ErrorBody(NotAuthenticatedError)), rows)
    ensures o.response.status in {200, 400, 401}
    ensures o.response.status == 200 <==> Truthy(userId) && store.Up? && Key(senderId, userId.value) in rows
    ensures o.response.status == 200 ==>
              o.response.body == Info(RefusedMessage) && o.rows == rows - {Key(senderId, userId.value)}
    ensures o.response.status == 400 ==> o == Outcome(Response(400, ErrorBody(RefuseError)), rows)
    ensures Truthy(userId) && !(store.Up? && Key(senderId, userId.value) in rows) ==>
              o == Outcome(Response(400, ErrorBody(RefuseError)), rows)
  {
    if !Truthy(userId) then Outcome(Response(401, ErrorBody(NotAuthenticatedError)), rows)
    else
      var step := RefuseStep(rows, store, userId.value, senderId);
      assert step.result.Ok? ==> step.rows == rows - {Key(senderId, userId.value)};
      match step.result
      case Ok(_) => Outcome(Response(200, Info(RefusedMessage)), step.rows)
      case Err(e) => Outcome(Response(400, ErrorBody(e)), step.rows)
  }

  /** `getFriends`: 401 without a user, 200 with the friend ids, 500 when
      the store fails. */
  function GetFriends(rows: Rows, store: Store, userId: Option<UserId>): (r: Response<set<UserId>>)
    ensures !Truthy(userId) ==> r == Response(401, ErrorBody(NotAuthenticatedError))
    ensures Truthy(userId) && store.Down? ==> r == Response(500, ErrorBody(FriendsQueryError))
    ensures r.status == 200 <==> Truthy(userId) && store.Up?
    ensures r.status == 200 ==> r.body.Json? && forall v :: v in r.body.data <==> IsFriendship(rows, userId.value, v)
  {
    if !Truthy(userId) then Response(401, ErrorBody(NotAuthenticatedError))
    else if store.Down? then Response(500, ErrorBody(FriendsQueryError))
    else Response(200, Json(FriendsList(rows, userId.value)))
  }

  /** Only the addressee can accept: the requester calling accept on their
      own request gets a 400 and the table is unchanged. */
  lemma RequesterAcceptIs400(rows: Rows, store: Store, requester: UserId, addressee: UserId)
    requires Valid(rows) && requester != "" && requester != addressee
    requires Key(requester, addressee) in rows
    ensures AcceptRequest(rows, store, Some(requester), addressee) == Outcome(Response(400, ErrorBody(AcceptError)), rows)
  {
    RequesterCannotAccept(rows, store, requester, addressee);
  }

  /** After a 200 from accept, each of the two users has the other in their
      friend list. */
  lemma AcceptedFriendsListEachOther(rows: Rows, store: Store, receiver: UserId, sender: UserId)
    requires receiver != "" && sender != ""
    requires AcceptRequest(rows, store, Some(receiver), sender).response.status == 200
    ensures var after := AcceptRequest(rows, store, Some(receiver), sender).rows;
            && GetFriends(after, Up, Some(receiver)).body.data == FriendsList(after, receiver)
            && sender in FriendsList(after, receiver) && receiver in FriendsList(after, sender)
  {
    var after := AcceptRequest(rows, store, Some(receiver), sender).rows;
    FriendsSymmetric(after, receiver, sender);
  }
}
