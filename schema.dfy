/** The rows of the relational schema that more than one service reads:
    users, groups, memberships, direct conversations and messages.
    The friendship table belongs to FriendsService alone. */
module Schema {

  import opened Common

  /** A `user` row; `password` holds the hash, never the plaintext. */
  datatype UserRow = UserRow(id: UserId, email: string, password: string, username: string, createdAt: Time)

  /** The projection `registerUser` returns: every column but the password. */
  datatype PublicUser = PublicUser(id: UserId, email: string, username: string, createdAt: Time)

  /** The user profile the client lists (`User` in the client's types). */
  datatype User = User(id: UserId, username: string, email: string)

  datatype Role = Admin | Member

  /** A `group` row. */
  datatype Group = Group(id: GroupId, name: string, creatorId: UserId, createdAt: Time)

  /** A `groupMember` row. */
  datatype Membership = Membership(userId: UserId, groupId: GroupId, role: Role, joinedAt: Time)

  /** A `directMessage` row: the conversation between two users. */
  datatype Conversation = Conversation(id: ConversationId, user1Id: UserId, user2Id: UserId)

  /** A `message` row. It is attached to a direct conversation or to a group. */
  datatype Message = Message(
    id: MessageId,
    content: string,
    createdAt: Time,
    authorId: UserId,
    groupId: Option<GroupId>,
    directMessageId: Option<ConversationId>)

  /** The sort key of `orderBy: { createdAt: ... }`. */
  function CreatedAt(m: Message): Time
  {
    m.createdAt
  }

  /** A message has exactly one destination: a conversation or a group. */
  predicate HasOneDestination(m: Message)
  {
    m.groupId.Some? != m.directMessageId.Some?
  }
}
