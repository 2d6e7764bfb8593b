/** Direct conversations and messages of server/src/services/messagesService.ts.
    A direct message goes into the one conversation of its two users,
    created on first use; a group message goes to an existing group; the
    histories are filtered and sorted by `createdAt`. */
module MessagesService {

  import opened Common
  import opened Schema
  import Seqs

  const GroupNotFoundError := "Groupe introuvable"

  /** The `directMessage` table and the `message` table, in insertion order. */
  datatype MessageDb = MessageDb(conversations: seq<Conversation>, messages: seq<Message>)

  /** What a service call returns (or throws), and the tables after it. */
  datatype Step<+T> = Step(result: Result<T>, db: MessageDb)

  /** The `OR` of the lookup: the conversation joins `a` and `b` in either order. */
  predicate Between(c: Conversation, a: UserId, b: UserId)
  {
    (c.user1Id == a && c.user2Id == b) || (c.user1Id == b && c.user2Id == a)
  }

  /** `directMessage.findFirst` for the pair: the first conversation of the
      table that joins `a` and `b`. */
  function FindConversation(conversations: seq<Conversation>, a: UserId, b: UserId): (r: Option<Conversation>)
    ensures r.Some? ==> r.value in conversations && Between(r.value, a, b)
    ensures r.None? <==> forall c :: c in conversations ==> !Between(c, a, b)
  {
    if conversations == [] then None
    else if Between(conversations[0], a, b) then Some(conversations[0])
    else FindConversation(conversations[1..], a, b)
  }

  /** At most one conversation per unordered pair of users. */
  ghost predicate OneConversationPerPair(conversations: seq<Conversation>)
  {
    forall i, j :: 0 <= i < j < |conversations| ==>
      !Between(conversations[i], conversations[j].user1Id, conversations[j].user2Id)
  }

  /** Every message has one destination and a direct message names an
      existing conversation. */
  ghost predicate MessagesWellFormed(db: MessageDb)
  {
    forall m :: m in db.messages ==>
      && HasOneDestination(m)
      && (m.directMessageId.Some? ==> exists c :: c in db.conversations && c.id == m.directMessageId.value)
  }

  ghost predicate Valid(db: MessageDb)
  {
    OneConversationPerPair(db.conversations) && MessagesWellFormed(db)
  }

  /** Every group message names a group of the `group` table. */
  ghost predicate GroupsExist(db: MessageDb, groups: map<GroupId, Group>)
  {
    forall m :: m in db.messages && m.groupId.Some? ==> m.groupId.value in groups
  }

  /** The ids the store generates are not in use. */
  predicate FreshConversationId(db: MessageDb, id: ConversationId)
  {
    forall c :: c in db.conversations ==> c.id != id
  }

  predicate FreshMessageId(db: MessageDb, id: MessageId)
  {
    forall m :: m in db.messages ==> m.id != id
  }

  /** `sendDirectMessage(senderId, receiverId, content)`: the conversation of
      the pair is found or created, then the message is attached to it.
      `conversationId`, `messageId` and `now` are what the store generates. */
  function SendDirectStep(db: MessageDb, store: Store, senderId: UserId, receiverId: UserId, content: string,
                          conversationId: ConversationId, messageId: MessageId, now: Time): (s: Step<Message>)
    requires FreshConversationId(db, conversationId) && FreshMessageId(db, messageId)
    ensures s.result.Ok? <==> store.Up?
    ensures s.result.Err? ==> s.db == db
    ensures store.Down? ==> s.result == Err(store.error)
    ensures s.result.Ok? ==>
              && s.db.messages == db.messages + [s.result.value]
              && s.result.value.id == messageId
              && s.result.value.content == content
              && s.result.value.authorId == senderId
              && s.result.value.createdAt == now
              && s.result.value.groupId.None?
    ensures s.result.Ok? && FindConversation(db.conversations, senderId, receiverId).Some? ==>
              && s.db.conversations == db.conversations
              && s.result.value.directMessageId == Some(FindConversation(db.conversations, senderId, receiverId).value.id)
    ensures s.result.Ok? && FindConversation(db.conversations, senderId, receiverId).None? ==>
              && s.db.conversations == db.conversations + [Conversation(conversationId, senderId, receiverId)]
              && s.result.value.directMessageId == Some(conversationId)
  {
    if store.Down? then Step(Err(store.error), db)
    else
      var found := FindConversation(db.conversations, senderId, receiverId);
      var conversation := if found.Some? then found.value else Conversation(conversationId, senderId, receiverId);
      var conversations := if found.Some? then db.conversations else db.conversations + [conversation];
      var message := Message(messageId, content, now, senderId, None, Some(conversation.id));
      Step(Ok(message), MessageDb(conversations, db.messages + [message]))
  }

  /** `sendGroupMessage(senderId, groupId, content)`: the group must exist;
      membership of the sender is not checked. */
  function SendGroupStep(db: MessageDb, groups: map<GroupId, Group>, store: Store, senderId: UserId, groupId: GroupId,
                         content: string, messageId: MessageId, now: Time): (s: Step<Message>)
    requires FreshMessageId(db, messageId)
    ensures store.Down? ==> s == Step(Err(store.error), db)
    ensures store.Up? && groupId !in groups ==> s == Step(Err(GroupNotFoundError), db)
    ensures s.result.Ok? <==> store.Up? && groupId in groups
    ensures s.result.Err? ==> s.db == db
    ensures s.result.Ok? ==>
              && s.result.value == Message(messageId, content, now, senderId, Some(groupId), None)
              && s.db == MessageDb(db.conversations, db.messages + [s.result.value])
  {
    if store.Down? then Step(Err(store.error), db)
    else if groupId !in groups then Step(Err(GroupNotFoundError), db)
    else
      var message := Message(messageId, content, now, senderId, Some(groupId), None);
      Step(Ok(message), MessageDb(db.conversations, db.messages + [message]))
  }

  function InConversation(id: ConversationId): Message -> bool
  {
    (m: Message) => m.directMessageId == Some(id)
  }

  function InGroupChat(id: GroupId): Message -> bool
  {
    (m: Message) => m.groupId == Some(id)
  }

  /** `getDirectMessages(userId, contactId)`: nothing when the pair has no
      conversation, else that conversation's messages, oldest first. */
  function DirectMessages(db: MessageDb, userId: UserId, contactId: UserId): (r: seq<Message>)
    ensures FindConversation(db.conversations, userId, contactId).None? ==> r == []
    ensures Seqs.SortedBy(r, CreatedAt)
    ensures FindConversation(db.conversations, userId, contactId).Some? ==>
              multiset(r) == multiset(Seqs.Filter(db.messages, InConversation(FindConversation(db.conversations, userId, contactId).value.id)))
  {
    match FindConversation(db.conversations, userId, contactId)
    case None => []
    case Some(conversation) => Seqs.SortBy(Seqs.Filter(db.messages, InConversation(conversation.id)), CreatedAt)
  }

  /** `getGroupMessages(groupId)`: exactly the group's messages, oldest first. */
  function GroupMessages(db: MessageDb, groupId: GroupId): (r: seq<Message>)
    ensures Seqs.SortedBy(r, CreatedAt)
    ensures multiset(r) == multiset(Seqs.Filter(db.messages, InGroupChat(groupId)))
    ensures forall m :: m in r <==> m in db.messages && m.groupId == Some(groupId)
  {
    var own := Seqs.Filter(db.messages, InGroupChat(groupId));
    var r := Seqs.SortBy(own, CreatedAt);
    assert forall m :: m in r <==> m in own by {
      forall m ensures m in r <==> m in own {
        Seqs.SortByMembers(own, CreatedAt, m);
      }
    }
    r
  }

  /** The lookup is symmetric in its two users. */
  lemma {:induction false} FindConversationSymmetric(conversations: seq<Conversation>, a: UserId, b: UserId)
    ensures FindConversation(conversations, a, b) == FindConversation(conversations, b, a)
  {
    if conversations != [] {
      FindConversationSymmetric(conversations[1..], a, b);
    }
  }

  /** The history between two users is the same from either side. */
  lemma DirectMessagesSymmetric(db: MessageDb, u: UserId, v: UserId)
    ensures DirectMessages(db, u, v) == DirectMessages(db, v, u)
  {
    FindConversationSymmetric(db.conversations, u, v);
  }

  /** Whichever of the two users writes, the conversation already joining
      them is reused: no second conversation appears. */
  lemma ReplyReusesConversation(db: MessageDb, store: Store, u: UserId, v: UserId, content: string,
                                conversationId: ConversationId, messageId: MessageId, now: Time)
    requires FreshConversationId(db, conversationId) && FreshMessageId(db, messageId)
    requires FindConversation(db.conversations, u, v).Some?
    ensures SendDirectStep(db, store, v, u, content, conversationId, messageId, now).db.conversations == db.conversations
  {
    FindConversationSymmetric(db.conversations, u, v);
  }

  /** With no self check, a user writing to themselves gets a conversation
      with themselves. */
  lemma SelfMessageCreatesSelfConversation(db: MessageDb, u: UserId, content: string,
                                           conversationId: ConversationId, messageId: MessageId, now: Time)
    requires FreshConversationId(db, conversationId) && FreshMessageId(db, messageId)
    requires FindConversation(db.conversations, u, u).None?
    ensures Conversation(conversationId, u, u) in SendDirectStep(db, Up, u, u, content, conversationId, messageId, now).db.conversations
  {
  }

  /** Sending a direct message keeps the tables valid: in particular a
      conversation is created only for a pair that had none. */
  lemma {:induction false} SendDirectPreservesValid(db: MessageDb, store: Store, senderId: UserId, receiverId: UserId, content: string,
                                                   conversationId: ConversationId, messageId: MessageId, now: Time)
    requires Valid(db)
    requires FreshConversationId(db, conversationId) && FreshMessageId(db, messageId)
    ensures Valid(SendDirectStep(db, store, senderId, receiverId, content, conversationId, messageId, now).db)
  {
    var s := SendDirectStep(db, store, senderId, receiverId, content, conversationId, messageId, now);
    if s.result.Ok? {
      var cs := s.db.conversations;
      if FindConversation(db.conversations, senderId, receiverId).None? {
        var added := Conversation(conversationId, senderId, receiverId);
        assert cs == db.conversations + [added];
        forall i, j | 0 <= i < j < |cs|
          ensures !Between(cs[i], cs[j].user1Id, cs[j].user2Id)
        {
          if j == |db.conversations| {
            assert cs[i] in db.conversations;
          }
        }
        assert forall c :: c in db.conversations ==> c in cs;
      }
      var m := s.result.value;
      assert exists c :: c in cs && c.id == m.directMessageId.value;
      forall x | x in s.db.messages
        ensures HasOneDestination(x)
        ensures x.directMessageId.Some? ==> exists c :: c in cs && c.id == x.directMessageId.value
      {
        if x != m {
          assert x in db.messages;
          if x.directMessageId.Some? {
            var c :| c in db.conversations && c.id == x.directMessageId.value;
            assert c in cs;
          }
        }
      }
    }
  }

  /** A sent direct message is in the history of the pair, read from either side. */
  lemma {:induction false} SentDirectMessageInHistory(db: MessageDb, senderId: UserId, receiverId: UserId, content: string,
                                                     conversationId: ConversationId, messageId: MessageId, now: Time)
    requires FreshConversationId(db, conversationId) && FreshMessageId(db, messageId)
    ensures var s := SendDirectStep(db, Up, senderId, receiverId, content, conversationId, messageId, now);
            && s.result.value in DirectMessages(s.db, senderId, receiverId)
            && s.result.value in DirectMessages(s.db, receiverId, senderId)
  {
    var s := SendDirectStep(db, Up, senderId, receiverId, content, conversationId, messageId, now);
    var m := s.result.value;
    var found := FindConversation(db.conversations, senderId, receiverId);
    var id := if found.Some? then found.value.id else conversationId;
    if found.None? {
      FindAfterAppend(db.conversations, Conversation(conversationId, senderId, receiverId), senderId, receiverId);
    }
    assert FindConversation(s.db.conversations, senderId, receiverId).Some?;
    assert FindConversation(s.db.conversations, senderId, receiverId).value.id == id;
    Seqs.FilterAppend(db.messages, [m], InConversation(id));
    assert [m][1..] == [];
    var own := Seqs.Filter(s.db.messages, InConversation(id));
    assert m in own;
    Seqs.SortByMembers(own, CreatedAt, m);
    DirectMessagesSymmetric(s.db, senderId, receiverId);
  }

  /** Appending a conversation to a table with none for the pair makes it
      the one the lookup finds. */
  lemma {:induction false} FindAfterAppend(conversations: seq<Conversation>, c: Conversation, a: UserId, b: UserId)
    requires FindConversation(conversations, a, b).None? && Between(c, a, b)
    ensures FindConversation(conversations + [c], a, b) == Some(c)
  {
    if conversations != [] {
      assert (conversations + [c])[1..] == conversations[1..] + [c];
      FindAfterAppend(conversations[1..], c, a, b);
    }
  }

  /** A sent group message is in that group's history, and every other
      group's history is unchanged. */
  lemma {:induction false} SentGroupMessageInHistory(db: MessageDb, groups: map<GroupId, Group>, senderId: UserId, groupId: GroupId,
                                                    content: string, messageId: MessageId, now: Time, other: GroupId)
    requires FreshMessageId(db, messageId) && groupId in groups
    ensures var s := SendGroupStep(db, groups, Up, senderId, groupId, content, messageId, now);
            && s.result.value in GroupMessages(s.db, groupId)
            && (other != groupId ==> GroupMessages(s.db, other) == GroupMessages(db, other))
  {
    var s := SendGroupStep(db, groups, Up, senderId, groupId, content, messageId, now);
    var m := s.result.value;
    assert m in GroupMessages(s.db, groupId) by {
      assert m in s.db.messages && m.groupId == Some(groupId);
    }
    if other != groupId {
      Seqs.FilterAppend(db.messages, [m], InGroupChat(other));
      assert Seqs.Filter([m], InGroupChat(other)) == [] by {
        Seqs.FilterKeepsNone([m], InGroupChat(other));
      }
      assert Seqs.Filter(s.db.messages, InGroupChat(other)) == Seqs.Filter(db.messages, InGroupChat(other));
    }
  }

  /** Sending a group message keeps the tables valid and every group
      message pointing at an existing group. */
  lemma SendGroupPreservesValid(db: MessageDb, groups: map<GroupId, Group>, store: Store, senderId: UserId, groupId: GroupId,
                                content: string, messageId: MessageId, now: Time)
    requires Valid(db) && GroupsExist(db, groups) && FreshMessageId(db, messageId)
    ensures Valid(SendGroupStep(db, groups, store, senderId, groupId, content, messageId, now).db)
    ensures GroupsExist(SendGroupStep(db, groups, store, senderId, groupId, content, messageId, now).db, groups)
  {
  }

  /** The in-memory stand-in for the `directMessage` and `message` tables. */
  class MessageTables {
    var conversations: seq<Conversation>
    var messages: seq<Message>

    function Db(): MessageDb
      reads this
    {
      MessageDb(conversations, messages)
    }

    constructor ()
      ensures conversations == [] && messages == []
    {
      conversations := [];
      messages := [];
    }

    method SendDirectMessage(store: Store, senderId: UserId, receiverId: UserId, content: string,
                             conversationId: ConversationId, messageId: MessageId, now: Time)
      returns (res: Result<Message>)
      requires FreshConversationId(Db(), conversationId) && FreshMessageId(Db(), messageId)
      modifies this
      ensures Step(res, Db()) == SendDirectStep(old(Db()), store, senderId, receiverId, content, conversationId, messageId, now)
      ensures Valid(old(Db())) ==> Valid(Db())
    {
      if Valid(Db()) {
        SendDirectPreservesValid(Db(), store, senderId, receiverId, content, conversationId, messageId, now);
      }
      if store.Down? {
        return Err(store.error);
      }
      var conversation := FindConversation(conversations, senderId, receiverId);
      if conversation.None? {
        var created := Conversation(conversationId, senderId, receiverId);
        conversations := conversations + [created];
        conversation := Some(created);
      }
      var message := Message(messageId, content, now, senderId, None, Some(conversation.value.id));
      messages := messages + [message];
      res := Ok(message);
    }

    method SendGroupMessage(groups: map<GroupId, Group>, store: Store, senderId: UserId, groupId: GroupId,
                            content: string, messageId: MessageId, now: Time)
      returns (res: Result<Message>)
      requires FreshMessageId(Db(), messageId)
      modifies this
      ensures Step(res, Db()) == SendGroupStep(old(Db()), groups, store, senderId, groupId, content, messageId, now)
      ensures Valid(old(Db())) && GroupsExist(old(Db()), groups) ==> Valid(Db()) && GroupsExist(Db(), groups)
    {
      if store.Down? {
        return Err(store.error);
      }
      if groupId !in groups {
        return Err(GroupNotFoundError);
      }
      var message := Message(messageId, content, now, senderId, Some(groupId), None);
      messages := messages + [message];
      res := Ok(message);
    }
  }
}
