# ChatApp core in Dafny

This project models the core of ChatApp, a chat application. It has an
Express/Prisma server and a React client. The model covers:

- **Server services.** These are the relational bookkeeping behind the app.
  - The friendship table is keyed by the directed pair (sender, receiver) and carries a status (PENDING, ACCEPTED, BLOCKED).
  - The group and membership tables: a creator joins as ADMIN, later members join as MEMBER, and no one joins twice.
  - Direct conversations and messages: there is one conversation per unordered pair of users, found or created on first use. A message belongs to a conversation or to a group. Histories are sorted by `createdAt`.
  - The user table: emails are unique and the password is stored hashed.
- **Server request gates.**
  - The email and password validators of registration.
  - The status-code decisions of the auth, friends, groups and messages controllers.
  - Bearer-token extraction in the authentication middleware.
  - The persist-then-emit rule of the send handlers. A direct message is emitted to the receiver's room, then to the sender's room. A group message is emitted to the group's room.
- **Client list state.**
  - The search and available-friends filters of the home page, and its `changeView` and `sendMessage` state changes.
  - Request pruning in the friends hook.
  - The message-list and socket lifecycle of the messages hook.

Module layout follows the source, one module per file:

- `FriendsService`, `GroupsService`, `MessagesService` and `AuthService` hold the services.
- `AuthController`, `AuthMiddleware`, `FriendsController`, `GroupsController` and `MessagesController` hold the server's gates.
- `HomePage`, `UseFriends` and `UseMessages` hold the client state.
- `Common` holds ids, `Option`/`Result`, the store's availability and the HTTP response shape.
- `Schema` holds the rows shared by several services.
- `Seqs` holds filter, stable sort and maximum.
- `JsText` holds the ECMAScript `\s` class, `trim` and `includes`.

How the model is built:

- Each database table is a class (`FriendshipTable`, `GroupTables`, `MessageTables`, `UserTable`).
- Each imperative service operation is a method on its table class. The method's postcondition equals a value-level step function on the old table, such as `SendRequestStep` or `AddMemberStep`. That function returns the result (or the thrown error) together with the new table.
- The controllers are pure functions over these step functions. The lemmas are stated about these functions too.
- The database's availability is a parameter, `Store = Up | Down(error)`. It reaches the `catch` branches.
- Generated ids and timestamps are parameters. A precondition requires fresh ids, as the generator guarantees.
- `bcrypt.hash` and `jwt.verify` are function parameters.

## Model

| member | source | states |
|---|---|---|
| FriendsService.SendRequestStep | server/src/services/friendsService.ts:5-34 | Sending to oneself throws the self error and leaves the table unchanged. If any record links the two users, in either direction and with any status, it throws the existing-link error and changes nothing. A store failure throws the store's own error and changes nothing. Otherwise exactly one record is added: key (sender, receiver), status PENDING. Every other record is unchanged. |
| FriendsService.ReceivedRequests | server/src/services/friendsService.ts:36-57 | The result is exactly the PENDING records whose receiver is the user. |
| FriendsService.AcceptStep | server/src/services/friendsService.ts:59-76 | Succeeds iff the store is up and the directed key (senderIdToAccept, receiverId) exists. It then sets that record to ACCEPTED, and the key set and other records are unchanged. Otherwise it throws the accept error and the table is unchanged. |
| FriendsService.RefuseStep | server/src/services/friendsService.ts:78-92 | Succeeds iff the store is up and the directed key exists. It then deletes exactly that key and returns the deleted record. Otherwise it throws the refuse error and the table is unchanged. |
| FriendsService.FriendsList | server/src/services/friendsService.ts:94-129 | v is listed iff an ACCEPTED record joins the user and v, in either direction. |
| FriendsService.FriendsSymmetric | server/src/services/friendsService.ts:94-122 | v is a friend of u iff u is a friend of v. |
| FriendsService.NoSelfFriendship | server/src/services/friendsService.ts:7-9 | On a valid table (no self-records, one record per unordered pair) nobody is their own friend. |
| FriendsService.PendingIsNotFriend | server/src/services/friendsService.ts:36-57 | On a valid table, a request still pending from v to u means neither user lists the other as a friend. |
| FriendsService.SendRequestPreservesValid | server/src/services/friendsService.ts:5-29 | Sending keeps both invariants: no self-records, and at most one record per unordered pair. |
| FriendsService.SentRequestIsReceived | server/src/services/friendsService.ts:22-27 | A successful request appears among the receiver's received requests. Every other user's received requests are unchanged. |
| FriendsService.AcceptPreservesValid | server/src/services/friendsService.ts:59-76 | Accepting keeps the table valid. |
| FriendsService.AcceptMakesFriends | server/src/services/friendsService.ts:59-76 | After a successful accept, each user lists the other as a friend, and the request is no longer pending. |
| FriendsService.AcceptIgnoresPriorStatus | server/src/services/friendsService.ts:61-71 | Accept succeeds whatever the record's prior status (PENDING, ACCEPTED or BLOCKED). |
| FriendsService.RequesterCannotAccept | server/src/services/friendsService.ts:61-67 | On a valid table, the author of a request cannot accept it as if it had come from the other side. |
| FriendsService.RefusePreservesValid | server/src/services/friendsService.ts:78-92 | Refusing keeps the table valid. |
| FriendsService.RefuseAllowsNewRequest | server/src/services/friendsService.ts:78-92 | After a refusal on a valid table, either user can send a fresh request. |
| FriendsService.FriendshipTable.SendRequest | server/src/services/friendsService.ts:5-34 | The new table and the result are those of `SendRequestStep`. Validity is preserved. |
| FriendsService.FriendshipTable.AcceptRequest | server/src/services/friendsService.ts:59-76 | The new table and the result are those of `AcceptStep`. Validity is preserved. |
| FriendsService.FriendshipTable.RefuseRequest | server/src/services/friendsService.ts:78-92 | The new table and the result are those of `RefuseStep`. Validity is preserved. |
| GroupsService.CreateGroupStep | server/src/services/groupsService.ts:7-28 | Succeeds iff the store is up; a failure throws the store's error and changes nothing. It inserts the group and one membership: the creator, as ADMIN. It returns the group with that single member. |
| GroupsService.UserGroups | server/src/services/groupsService.ts:31-59 | A group is returned iff it has a membership of the user. Each returned group carries all of its members and `LatestMessage`. |
| GroupsService.LatestMessage | server/src/services/groupsService.ts:49-52 | Returns at most one message. It is empty iff the group has no message; otherwise it holds one of the group's messages with the greatest `createdAt`. |
| GroupsService.AddMemberStep | server/src/services/groupsService.ts:62-95 | A store failure throws the store's error. An unknown group throws "Groupe introuvable". A user who is already a member throws the duplicate error. In both cases nothing changes. Otherwise exactly one membership is appended (that user, that group, role MEMBER) and the groups are unchanged. |
| GroupsService.MembersOf | server/src/services/groupsService.ts:99-100 | A membership is listed iff it belongs to the group. |
| GroupsService.GroupMembersResult | server/src/services/groupsService.ts:97-109 | A store failure gives the members-query error. Otherwise the result is exactly the group's memberships, in table order. |
| GroupsService.CreatedGroupHasOnlyItsAdmin | server/src/services/groupsService.ts:9-23 | A new group's member list is exactly [creator as ADMIN], and the group is among the creator's groups. |
| GroupsService.CreateGroupPreservesValid | server/src/services/groupsService.ts:7-28 | Creating a group keeps two invariants: every membership names an existing group, and no (user, group) pair appears twice. |
| GroupsService.AddMemberPreservesValid | server/src/services/groupsService.ts:62-95 | Adding a member keeps both invariants, so a (user, group) membership is never duplicated. |
| GroupsService.AddMemberAppendsOne | server/src/services/groupsService.ts:83-91 | The group's member list grows by exactly the new MEMBER. Every other group's list is unchanged. The group joins the new member's groups. |
| GroupsService.AddMemberIgnoresFriendshipAndRequester | server/src/services/groupsService.ts:73-81 | The outcome does not depend on the friendship table or the requester, so adding a non-friend succeeds. |
| GroupsService.GroupTables.CreateGroup | server/src/services/groupsService.ts:7-28 | The new tables and the result are those of `CreateGroupStep`. Validity is preserved. |
| GroupsService.GroupTables.AddMember | server/src/services/groupsService.ts:62-95 | The new tables and the result are those of `AddMemberStep`. Validity is preserved. |
| MessagesService.FindConversation | server/src/services/messagesService.ts:9-16 | The result is a conversation of the table joining the two users in either order. It is None iff there is no such conversation. |
| MessagesService.SendDirectStep | server/src/services/messagesService.ts:8-39 | Succeeds iff the store is up; a failure returns the store's error and changes nothing. An existing conversation for the pair is reused and the conversation table is unchanged. Otherwise exactly one conversation (sender, receiver) is appended. Exactly one message is appended, with the given content, author = sender, no group, and that conversation's id. |
| MessagesService.SendGroupStep | server/src/services/messagesService.ts:67-83 | A store failure throws the store's error. A missing group throws "Groupe introuvable" and creates nothing. Otherwise exactly one message is appended (content, author, group, no conversation). Membership of the sender is not checked. |
| MessagesService.DirectMessages | server/src/services/messagesService.ts:42-63 | Empty when the pair has no conversation. Otherwise it holds exactly that conversation's messages (the same multiset), ascending by `createdAt`. |
| MessagesService.GroupMessages | server/src/services/messagesService.ts:86-95 | Exactly the messages with that group id (the same multiset), ascending by `createdAt`. |
| MessagesService.FindConversationSymmetric | server/src/services/messagesService.ts:11-14 | The lookup gives the same answer for (a, b) and (b, a). |
| MessagesService.DirectMessagesSymmetric | server/src/services/messagesService.ts:42-63 | `getDirectMessages(u, v)` equals `getDirectMessages(v, u)`. |
| MessagesService.ReplyReusesConversation | server/src/services/messagesService.ts:9-25 | When the other user of an existing pair writes, the existing conversation is reused and no conversation is added. |
| MessagesService.SelfMessageCreatesSelfConversation | server/src/services/messagesService.ts:8-25 | There is no self check: writing to oneself creates a conversation (u, u). |
| MessagesService.SendDirectPreservesValid | server/src/services/messagesService.ts:18-36 | Sending keeps three invariants: at most one conversation per unordered pair, one destination per message, and every conversation id a message names exists. |
| MessagesService.SentDirectMessageInHistory | server/src/services/messagesService.ts:27-36 | A sent direct message is in the pair's history, whichever user reads it. |
| MessagesService.FindAfterAppend | server/src/services/messagesService.ts:18-25 | Once a pair's conversation is created, later lookups for that pair find it. |
| MessagesService.SentGroupMessageInHistory | server/src/services/messagesService.ts:71-80 | A sent group message is in that group's history. Every other group's history is unchanged. |
| MessagesService.SendGroupPreservesValid | server/src/services/messagesService.ts:67-83 | Sending a group message keeps the tables valid, and every group message still names an existing group. |
| MessagesService.MessageTables.SendDirectMessage | server/src/services/messagesService.ts:8-39 | The new tables and the result are those of `SendDirectStep`. Validity is preserved. |
| MessagesService.MessageTables.SendGroupMessage | server/src/services/messagesService.ts:67-83 | The new tables and the result are those of `SendGroupStep`. Validity and group references are preserved. |
| AuthService.RegisterStep | server/src/services/AuthService.ts:8-35 | A store failure throws the store's error and adds nothing. A taken email throws "L'utilisateur existe déjà" and adds nothing. Otherwise exactly one row is appended: the email, `hash(password)`, the username. The result is that row without its password. |
| AuthService.Public | server/src/services/AuthService.ts:26-31 | The returned record has the row's id, email, username and createdAt, and no password field. |
| AuthService.RegisterPreservesUniqueEmails | server/src/services/AuthService.ts:10-25 | Registration keeps emails unique. |
| AuthService.SecondRegistrationFails | server/src/services/AuthService.ts:10-16 | After an email is registered, any later registration with it fails, whatever the password and username. |
| AuthService.StoredPasswordIsHash | server/src/services/AuthService.ts:18-23 | The stored password is `hash(password)`. The stored row has the returned id and the given email. |
| AuthService.UserTable.RegisterUser | server/src/services/AuthService.ts:8-35 | The new table and the result are those of `RegisterStep`. Email uniqueness is preserved. |
| AuthController.EmailValidIffPattern | server/src/controllers/AuthController.ts:7 | The email validator accepts a string iff it is a run without white space or '@', then '@', then such a run, then '.', then such a run. |
| AuthController.PasswordValidIffPattern | server/src/controllers/AuthController.ts:10 | The password validator accepts a string iff its length in UTF-16 code units is at least 8, it has no line terminator, and contains a-z, A-Z, 0-9 and one of the listed special characters. |
| AuthController.Register | server/src/controllers/AuthController.ts:13-43 | Any empty field gives 400 first. An invalid email gives 400 "Email non valide" whatever the password. A valid email with an invalid password gives 400 "Mot de passe non valide". Every 400 leaves the user table unchanged. A taken email gives 500 with the service's message as is; any other store error gives 500 behind the generic prefix. The answer is 200 iff all checks pass, the store is up and the email is free; the user is then appended and the body carries that user's public record. Otherwise the answer is 500 and the table is unchanged. |
| AuthController.AstralCharactersCountTwice | server/src/controllers/AuthController.ts:10 | The length test counts UTF-16 code units: "aA1!" followed by two astral emoji (six characters, eight units) is accepted, while the same with two Latin-1 letters is not. |
| JsText.Utf16Length | server/src/controllers/AuthController.ts:10 | A string's JavaScript length lies between its character count and twice that, and equals the character count iff no character is astral. |
| AuthController.DuplicateEmailIs500 | server/src/controllers/AuthController.ts:34-41 | A taken email gives 500 with the service's message, and no user is added. |
| AuthController.InvalidPasswordNeedsValidEmail | server/src/controllers/AuthController.ts:19-24 | "Mot de passe non valide" is answered only for a valid email. |
| AuthController.LoginGate | server/src/controllers/AuthController.ts:48-50 | The answer is 400 "Remplissez les champs manquants" iff the email or the password is missing or empty. |
| AuthMiddleware.Split | server/src/middlewares/auth.middleware.ts:17 | The result has at least one field, and no field contains the separator. |
| AuthMiddleware.JoinSplit | server/src/middlewares/auth.middleware.ts:17 | Joining the fields of a split gives back the header. |
| AuthMiddleware.SplitJoin | server/src/middlewares/auth.middleware.ts:17 | Splitting joined separator-free fields gives back the same fields. |
| AuthMiddleware.TokenIsSecondField | server/src/middlewares/auth.middleware.ts:17 | For "scheme token extra…" the token is the second field. Extra fields are ignored. |
| AuthMiddleware.NoSpaceNoToken | server/src/middlewares/auth.middleware.ts:17-21 | A header without a space, such as "Bearer", has no token. |
| AuthMiddleware.Authenticate | server/src/middlewares/auth.middleware.ts:10-32 | A missing or empty header gives 401 "Token manquant". A missing or empty second field gives 401 "format de token invalide". The answer is 403 iff the verifier rejects the token. The request passes iff the verifier accepts it, and then carries the payload's user id. |
| AuthMiddleware.BearerTokenPasses | server/src/middlewares/auth.middleware.ts:17-28 | "Bearer <token>" with an accepted token passes, with the payload's user id. |
| AuthMiddleware.AuthRequest.AuthenticateToken | server/src/middlewares/auth.middleware.ts:10-32 | On rejection the response is set, `next` is not called and `userId` is untouched. On success `userId` is set from the payload, `next` is called exactly once and no response is written. |
| FriendsController.SendRequest | server/src/controllers/friendsController.ts:10-36 | No user gives 401. No receiver gives 400 without calling the service. 401 is answered iff there is no user. The answer is 201, with the PENDING record, iff the service succeeds. When the service throws, the answer is 400 with `error.message || fallback`. Every non-201 leaves the table unchanged. |
| FriendsController.MessageOr | server/src/controllers/friendsController.ts:33 | A non-empty message is kept; an empty one is replaced by the fallback, so a non-empty fallback always yields a non-empty message. |
| FriendsController.SelfRequestIs400 | server/src/controllers/friendsController.ts:30-34 | A request to oneself comes back 400 with the service's message. |
| FriendsController.GetReceivedRequests | server/src/controllers/friendsController.ts:38-49 | No user gives 401 and a store failure gives 500. Otherwise the answer is 200 with exactly the pending requests addressed to the user: every listed record is PENDING and addressed to the user, and every such record of the table is listed. |
| FriendsController.AcceptRequest | server/src/controllers/friendsController.ts:51-64 | No user gives 401. The caller is the receiver and the path parameter the sender. The answer is 200 iff that key exists and the store is up; that record alone becomes ACCEPTED and the two users are then friends. For an authenticated caller, a missing key or a store failure gives 400 with the service's message, and the table is unchanged. |
| FriendsController.RefuseRequest | server/src/controllers/friendsController.ts:66-79 | The same gates as accept. A 200 deletes exactly that key. For an authenticated caller, a missing key or a store failure gives 400, which carries the service's message and leaves the table unchanged. |
| FriendsController.GetFriends | server/src/controllers/friendsController.ts:81-92 | No user gives 401 and a store failure gives 500. Otherwise the answer is 200 with exactly the user's friends. |
| FriendsController.RequesterAcceptIs400 | server/src/controllers/friendsController.ts:51-62 | The requester calling accept on their own request gets 400, and the table is unchanged. |
| FriendsController.AcceptedFriendsListEachOther | server/src/controllers/friendsController.ts:51-60 | After a 200 from accept, each user's friend list holds the other. |
| GroupsController.CreateGroup | server/src/controllers/groupsController.ts:11-25 | No user gives 401 and no name gives 400, in both cases without the service. A store failure gives 500. The answer is 201 otherwise, with the group and its single ADMIN member. |
| GroupsController.GetMyGroups | server/src/controllers/groupsController.ts:28-38 | No user gives 401 and a store failure gives 500. Otherwise the answer is 200 with exactly the groups the user belongs to, each with the group row, all of its memberships and its latest message. |
| GroupsController.AddMember | server/src/controllers/groupsController.ts:41-58 | No user gives 401. 401 is answered iff there is no user. A missing group id or user id gives 400. A store failure, an unknown group or an existing membership gives 400 with the service's message. The answer is 200 iff the group exists, the user is not yet a member and the store is up; exactly one MEMBER row is then added. Every other outcome leaves the tables unchanged. |
| GroupsController.SecondAddIs400 | server/src/controllers/groupsController.ts:51-57 | Adding the same user to the same group a second time gives 400 with the duplicate message, and changes nothing. |
| GroupsController.CreatorSeesNewGroup | server/src/controllers/groupsController.ts:19-34 | The creator of a new group finds it in `getMyGroups`. |
| MessagesController.SendDM | server/src/controllers/messagesController.ts:10-29 | No user gives 401. A missing receiver or content gives 400. A store failure gives 500. None of these persists or emits anything. The answer is 201 iff the message is persisted; the tables are then those of `SendDirectStep`, the conversation being reused or created. It then emits `receive_message` to the receiver's room and then to the sender's room, and every emitted message is persisted. |
| MessagesController.SendGroupMsg | server/src/controllers/messagesController.ts:45-62 | The same gates as `sendDM`, but a service error (a missing group or a store failure) gives 400 with its message. The answer is 201 iff the group exists and the store is up. It then appends exactly one message, leaves the conversations unchanged, and emits only to the group's room, after persisting. |
| MessagesController.GetDMs | server/src/controllers/messagesController.ts:31-43 | No user gives 401 and a store failure gives 500. Otherwise the answer is 200 with the pair's history. |
| MessagesController.GetGroupMsgs | server/src/controllers/messagesController.ts:64-72 | There is no user check. A store failure gives 500. Otherwise the answer is 200 with exactly the group's messages (the same multiset, so no repeats), sorted by `createdAt`. |
| MessagesController.SentDMIsReadBack | server/src/controllers/messagesController.ts:18-25 | A 201 direct message is in the history both users read back. |
| MessagesController.HandleSendDM | server/src/controllers/messagesController.ts:10-29 | The response, the tables and the emission log are those of `SendDM`. Emissions only ever carry persisted messages. |
| MessagesController.HandleSendGroupMsg | server/src/controllers/messagesController.ts:45-62 | The response, the tables and the emission log are those of `SendGroupMsg`. Emissions only ever carry persisted messages. |
| MessagesController.Emitter.Emit | server/src/controllers/messagesController.ts:22-23 | The emission (room, event, payload) is appended to the log. |
| HomePage.LoadFor | client/src/pages/HomePage.tsx:50-52 | The groups view loads groups, search loads all users, requests loads requests, and the friends view loads nothing. |
| HomePage.Page.ChangeView | client/src/pages/HomePage.tsx:44-53 | Sets the view. Clears the search text and both selections. Keeps the typed message. Returns the load that the view needs. |
| HomePage.Page.SendMessage | client/src/pages/HomePage.tsx:55-71 | Blank text does nothing. Otherwise the hook receives the direct call iff a friend is selected and the group call iff a group is selected, and the input is cleared. |
| HomePage.FriendTarget | client/src/pages/HomePage.tsx:61-63 | The receiver is set iff a friend is selected, and is that friend's id. |
| HomePage.GroupTarget | client/src/pages/HomePage.tsx:65-67 | The group is set iff a group is selected, and is that group's id. |
| HomePage.SearchResults | client/src/pages/HomePage.tsx:73-85 | Empty while the search text is blank. Otherwise a user is listed iff they are in the directory, their name contains the text (case-sensitive), they are not a friend, and their id is not a substring of the current user id. |
| HomePage.CurrentUserNeverListed | client/src/pages/HomePage.tsx:83 | The current user never appears in the search results. |
| HomePage.SubstringIdHidden | client/src/pages/HomePage.tsx:83 | Any user whose id occurs inside the current user id is hidden. |
| HomePage.SameLengthIdsExcludeOnlySelf | client/src/pages/HomePage.tsx:80-84 | When all ids have the same length, the id test means exactly "not the current user". |
| HomePage.AvailableFriends | client/src/pages/HomePage.tsx:87-96 | Empty without a selected group. Otherwise a friend is listed iff the group has no membership with that friend's id. |
| HomePage.AddedFriendNoLongerAvailable | client/src/pages/HomePage.tsx:88-95 | After the server adds a friend to a group, the refreshed group no longer offers that friend. |
| UseFriends.WithoutSender | client/src/hooks/useFriends.ts:37 | A request survives iff its sender is not the given one. |
| UseFriends.PruneKeepsOrder | client/src/hooks/useFriends.ts:37 | Pruning works piecewise over concatenation, so the surviving requests keep their order. |
| UseFriends.PruneOtherSenderIsIdentity | client/src/hooks/useFriends.ts:43 | A list without requests from that sender is unchanged. |
| UseFriends.PruneIdempotent | client/src/hooks/useFriends.ts:43 | Pruning twice is pruning once. |
| UseFriends.FriendsHook.AcceptRequest | client/src/hooks/useFriends.ts:35-39 | Nothing changes if the API call fails. Otherwise the sender's requests are pruned and a friends reload is started. |
| UseFriends.FriendsHook.RefuseRequest | client/src/hooks/useFriends.ts:41-44 | Nothing changes if the API call fails. Otherwise the sender's requests are pruned, and no reload is started. |
| UseFriends.FriendsHook.LoadFriends | client/src/hooks/useFriends.ts:19-21 | The friend list is replaced by the fetched one. Nothing else changes. |
| UseFriends.FriendsHook.LoadRequests | client/src/hooks/useFriends.ts:23-25 | The request list is replaced by the fetched one. Nothing else changes. |
| UseFriends.FriendsHook.LoadAllUsers | client/src/hooks/useFriends.ts:27-29 | The user directory is replaced by the fetched one. Nothing else changes. |
| UseMessages.ConnectOps | client/src/hooks/useMessages.ts:20-30 | Connecting opens the socket first, touches only that socket, and emits only `join_user_room` with the user id, as its last step. |
| UseMessages.CleanupOps | client/src/hooks/useMessages.ts:32-41 | Clean-up touches only that socket. It detaches the handler, emits `leave_user_room`, and ends with the disconnect. |
| UseMessages.CountEmits | client/src/hooks/useMessages.ts:30 | The count is zero iff the log has no emission of that event. |
| UseMessages.ConnectAndCleanupEmitOnceEach | client/src/hooks/useMessages.ts:29-41 | One connect and its clean-up add exactly one `join_user_room` and exactly one `leave_user_room`. |
| UseMessages.SendCalls | client/src/hooks/useMessages.ts:53-60 | The direct call is made iff a friend id is given, and the group call iff a group id is given. The direct call comes first when both are given. |
| UseMessages.MessagesHook.Connect | client/src/hooks/useMessages.ts:16-30 | No socket is opened without both a user id and a token. Otherwise the socket is stored in the ref, the handler is attached, and `join_user_room` is emitted once. |
| UseMessages.MessagesHook.Cleanup | client/src/hooks/useMessages.ts:32-41 | Detaches the handler, emits `leave_user_room` and disconnects. The ref is cleared only if it still holds this socket. |
| UseMessages.MessagesHook.Receive | client/src/hooks/useMessages.ts:27 | While the handler is attached, the message is appended at the end, without filtering by conversation. Earlier entries are unchanged. |
| UseMessages.MessagesHook.LoadFriendMessages | client/src/hooks/useMessages.ts:44-46 | The list is replaced, and no room is joined. |
| UseMessages.MessagesHook.LoadGroupMessages | client/src/hooks/useMessages.ts:48-51 | The list is replaced. Then, if there is a socket, `join_group_room` is emitted for the group. |
| UseMessages.MessagesHook.SendMessage | client/src/hooks/useMessages.ts:53-60 | The API calls are those of `SendCalls`. |
| UseMessages.ConnectThenCleanup | client/src/hooks/useMessages.ts:16-41 | A connect followed by its clean-up restores the ref and the attached handlers, and logs exactly the connect steps and then the clean-up steps. |
| JsText.TrimEmptyIffBlank | client/src/pages/HomePage.tsx:56 | `s.trim()` is empty iff every character of s is ECMAScript white space. |
| JsText.SameLengthIncludesIsEquality | client/src/pages/HomePage.tsx:83 | For strings of equal length, `includes` is equality. |
| Seqs.SortBy | server/src/services/messagesService.ts:56 | The result is sorted by the key and is a permutation of the input. |
| Seqs.MaxBy | server/src/services/groupsService.ts:50-51 | The result is None iff the input is empty. Otherwise it is an element with the greatest key. |

## Left out

- Socket.io's own machinery is not modelled: rooms, fan-out, the connection handlers in server/src/app.ts, and the lack of handshake authentication. Emissions are recorded as a log of (room, event, payload).
- Referential integrity of user ids is not checked: with the store up, `SendRequestStep`, `CreateGroupStep`, `AddMemberStep` and `SendDirectStep` accept an id no user row carries and insert the row. Prisma's foreign-key failure for such an id (the 400 or 500 of the handler's `catch`) is modelled only as a `Down(error)` store.
- Prisma, bcrypt and `jsonwebtoken` are abstract. Tables are sequences and maps. `hash` and `verify` are function parameters. `SALT_ROUNDS` and `JWT_SECRET` live inside them.
- A store failure is one `Store` value per call. A failure between the two writes of `sendDirectMessage` (conversation created, then the message insert fails) is not modelled.
- The find-then-create races in `sendRequestService` and `sendDirectMessage` are concurrency concerns. The model runs every operation sequentially.
- Joined profiles are not modelled: the `author`, `sender`, `receiver` and `user` includes. Messages carry `authorId` only.
- FriendsService.FriendsList: returns the set of friend ids rather than the list of profile objects. On a valid table the list has one entry per friend.
- FriendsService.ReceivedRequests, FriendsService.FriendsList, GroupsService.UserGroups: queries without `orderBy` return sets or maps, because the store's order is unspecified. Member lists keep table order.
- Seqs.SortBy: ties on `createdAt` are kept in table order. This is one order the store may return; the store's tie-break is not specified.
- AuthController.Register: request fields are strings or absent. Non-string JSON values and their coercion by `RegExp.test` are not modelled. The generic 500 body appends the thrown value's message, not JavaScript's `String(error)` form.
- `AuthController.login` beyond its missing-field check is not modelled. It calls `loginUser`, which `AuthService` does not define.
- The route wiring in server/src/routes is not modelled. groups.ts:19 names a `getGroupMembers` handler that the controller does not have. auth.ts:13-17 is a simulated login.
- The React rendering is not modelled. This covers the JSX of HomePage.tsx, the HomePage effects on lines 31-42, `createGroup` (line 98 onwards), and the other components and pages.
- UseMessages.MessagesHook.SendMessage and HomePage.Page.SendMessage: a rejected API call is not modelled. In the source it stops the second call and leaves the input uncleared.
- The axios wrappers in client/src/services, `useGroups`, and `useFriends.sendRequest` are plain HTTP calls and are not modelled.
- `UserService` and `UsersController`, seed data, configuration and bootstrap are not part of this model.
