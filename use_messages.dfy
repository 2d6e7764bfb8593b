/** The message-list state machine of client/src/hooks/useMessages.ts: a
    socket is opened per user (when a token is stored), received messages
    are appended, loaded histories replace the list, and loading a group's
    history joins that group's room. The socket is recorded as a log of
    operations. */
module UseMessages {

  import opened Common
  import opened Schema

  /** A socket the client library opened, told apart by a number. */
  type SocketId = nat

  const JoinUserRoom := "join_user_room"
  const LeaveUserRoom := "leave_user_room"
  const JoinGroupRoom := "join_group_room"

  /** What the hook does to a socket. */
  datatype SocketOp =
    | Open(socket: SocketId)
    | Listen(socket: SocketId)      // s.on('receive_message', handleReceive)
    | Unlisten(socket: SocketId)    // s.off('receive_message', handleReceive)
    | Emit(socket: SocketId, event: string, argument: string)
    | Disconnect(socket: SocketId)

  /** A call of the messages API. */
  datatype ApiCall = SendDirect(friendId: UserId, content: string) | SendGroup(groupId: GroupId, content: string)

  /** The effect's set-up: open, attach the handler, join the user's room. */
  function ConnectOps(userId: UserId, s: SocketId): (ops: seq<SocketOp>)
    ensures |ops| == 3 && ops[0] == Open(s)
    ensures forall i :: 0 <= i < |ops| ==> ops[i].socket == s
    ensures forall i :: 0 <= i < |ops| && ops[i].Emit? ==> ops[i] == Emit(s, JoinUserRoom, userId)
    ensures ops[|ops| - 1] == Emit(s, JoinUserRoom, userId)
  {
    [Open(s), Listen(s), Emit(s, JoinUserRoom, userId)]
  }

  /** The effect's clean-up: detach the handler, leave, disconnect. */
  function CleanupOps(userId: UserId, s: SocketId): (ops: seq<SocketOp>)
    ensures |ops| == 3 && ops[|ops| - 1] == Disconnect(s)
    ensures forall i :: 0 <= i < |ops| ==> ops[i].socket == s && !ops[i].Open? && !ops[i].Listen?
    ensures Unlisten(s) in ops && Emit(s, LeaveUserRoom, userId) in ops
  {
    [Unlisten(s), Emit(s, LeaveUserRoom, userId), Disconnect(s)]
  }

  /** The calls of `sendMessage(content, friendId, groupId)`: the direct
      message first when a friend is given, then the group message when a
      group is given. */
  function SendCalls(content: string, friendId: Option<UserId>, groupId: Option<GroupId>): (calls: seq<ApiCall>)
    ensures |calls| == (if Truthy(friendId) then 1 else 0) + (if Truthy(groupId) then 1 else 0)
    ensures Truthy(friendId) ==> SendDirect(friendId.value, content) in calls
    ensures Truthy(groupId) ==> SendGroup(groupId.value, content) in calls
    ensures forall c :: c in calls && c.SendDirect? ==> Truthy(friendId) && c == SendDirect(friendId.value, content)
    ensures forall c :: c in calls && c.SendGroup? ==> Truthy(groupId) && c == SendGroup(groupId.value, content)
    ensures Truthy(friendId) && Truthy(groupId) ==> calls[0].SendDirect? && calls[1].SendGroup?
  {
    (if Truthy(friendId) then [SendDirect(friendId.value, content)] else [])
    + (if Truthy(groupId) then [SendGroup(groupId.value, content)] else [])
  }

  /** How many emissions of `event` a log holds. */
  function CountEmits(ops: seq<SocketOp>, event: string): (n: nat)
    ensures n <= |ops|
    ensures n == 0 <==> forall i :: 0 <= i < |ops| ==> !(ops[i].Emit? && ops[i].event == event)
  {
    if ops == [] then 0
    else (if ops[0].Emit? && ops[0].event == event then 1 else 0) + CountEmits(ops[1..], event)
  }

  lemma {:induction false} CountEmitsAppend(a: seq<SocketOp>, b: seq<SocketOp>, event: string)
    ensures CountEmits(a + b, event) == CountEmits(a, event) + CountEmits(b, event)
  {
    if a != [] {
      assert (a + b)[1..] == a[1..] + b;
      CountEmitsAppend(a[1..], b, event);
    } else {
      assert a + b == b;
    }
  }

  /** One connect and its clean-up join the user's room exactly once and
      leave it exactly once. */
  lemma ConnectAndCleanupEmitOnceEach(userId: UserId, s: SocketId, before: seq<SocketOp>)
    ensures var after := before + ConnectOps(userId, s) + CleanupOps(userId, s);
            && CountEmits(after, JoinUserRoom) == CountEmits(before, JoinUserRoom) + 1
            && CountEmits(after, LeaveUserRoom) == CountEmits(before, LeaveUserRoom) + 1
  {
    var c, d := ConnectOps(userId, s), CleanupOps(userId, s);
    CountEmitsAppend(before + c, d, JoinUserRoom);
    CountEmitsAppend(before, c, JoinUserRoom);
    CountEmitsAppend(before + c, d, LeaveUserRoom);
    CountEmitsAppend(before, c, LeaveUserRoom);
  }

  /** The hook's state: the list, `socketRef.current`, the sockets whose
      handler is attached, and the logs of socket operations and API calls. */
  class MessagesHook {
    const userId: UserId
    var messages: seq<Message>
    var socket: Option<SocketId>
    var listening: set<SocketId>
    var ops: seq<SocketOp>
    var calls: seq<ApiCall>

    /** The ref holds a socket only while its handler is attached. */
    ghost predicate Valid()
      reads this
    {
      socket.Some? ==> socket.value in listening
    }

    constructor (userId: UserId)
      ensures this.userId == userId
      ensures messages == [] && socket == None && listening == {} && ops == [] && calls == []
      ensures Valid()
    {
      this.userId := userId;
      messages := [];
      socket := None;
      listening := {};
      ops := [];
      calls := [];
    }

    /** The effect on `[userId]`, with the stored token and the socket the
        library would open; no socket without both a user id and a token. */
    method Connect(token: Option<string>, s: SocketId) returns (started: Option<SocketId>)
      requires Valid()
      modifies this
      ensures Valid()
      ensures !Truthy(Some(userId)) || !Truthy(token) ==>
                started == None && ops == old(ops) && socket == old(socket) && listening == old(listening)
      ensures Truthy(Some(userId)) && Truthy(token) ==>
                && started == Some(s) && socket == Some(s) && listening == old(listening) + {s}
                && ops == old(ops) + ConnectOps(userId, s)
      ensures messages == old(messages) && calls == old(calls)
    {
      if !Truthy(Some(userId)) || !Truthy(token) {
        return None;
      }
      ops := ops + [Open(s)];
      socket := Some(s);
      listening := listening + {s};
      ops := ops + [Listen(s), Emit(s, JoinUserRoom, userId)];
      started := Some(s);
    }

    /** The clean-up the effect returns for socket `s`: the ref is cleared
        only if it still holds `s`. */
    method Cleanup(s: SocketId)
      requires Valid()
      modifies this
      ensures Valid()
      ensures ops == old(ops) + CleanupOps(userId, s)
      ensures listening == old(listening) - {s}
      ensures socket == (if old(socket) == Some(s) then None else old(socket))
      ensures messages == old(messages) && calls == old(calls)
    {
      listening := listening - {s};
      ops := ops + [Unlisten(s), Emit(s, LeaveUserRoom, userId), Disconnect(s)];
      if socket == Some(s) {
        socket := None;
      }
    }

    /** `handleReceive(msg)` fired by socket `s`: appended at the end when
        the handler is attached, whatever conversation it belongs to. */
    method Receive(s: SocketId, msg: Message)
      modifies this
      ensures messages == (if s in listening then old(messages) + [msg] else old(messages))
      ensures socket == old(socket) && listening == old(listening) && ops == old(ops) && calls == old(calls)
    {
      if s in listening {
        messages := messages + [msg];
      }
    }

    /** `loadFriendMessages(friendId)`, with the history the API answered:
        the list is replaced; no room is joined. */
    method LoadFriendMessages(fetched: seq<Message>)
      modifies this
      ensures messages == fetched
      ensures socket == old(socket) && listening == old(listening) && ops == old(ops) && calls == old(calls)
    {
      messages := fetched;
    }

    /** `loadGroupMessages(groupId)`: the list is replaced, then the group's
        room is joined on the current socket, if there is one. */
    method LoadGroupMessages(groupId: GroupId, fetched: seq<Message>)
      modifies this
      ensures messages == fetched
      ensures ops == old(ops) + (if socket.Some? then [Emit(socket.value, JoinGroupRoom, groupId)] else [])
      ensures socket == old(socket) && listening == old(listening) && calls == old(calls)
    {
      messages := fetched;
      if socket.Some? {
        ops := ops + [Emit(socket.value, JoinGroupRoom, groupId)];
      }
    }

    /** `sendMessage(content, friendId, groupId)`. */
    method SendMessage(content: string, friendId: Option<UserId>, groupId: Option<GroupId>)
      modifies this
      ensures calls == old(calls) + SendCalls(content, friendId, groupId)
      ensures messages == old(messages) && socket == old(socket) && listening == old(listening) && ops == old(ops)
    {
      if Truthy(friendId) {
        calls := calls + [SendDirect(friendId.value, content)];
      }
      if Truthy(groupId) {
        calls := calls + [SendGroup(groupId.value, content)];
      }
    }
  }

  /** A connect followed by its clean-up leaves the ref and the attached
      handlers as they were before, and the log holds exactly one join and
      one leave of the user's room. */
  method ConnectThenCleanup(hook: MessagesHook, token: string, s: SocketId)
    requires hook.Valid() && hook.socket == None && s !in hook.listening && hook.userId != "" && token != ""
    modifies hook
    ensures hook.socket == None && hook.listening == old(hook.listening)
    ensures hook.ops == old(hook.ops) + ConnectOps(hook.userId, s) + CleanupOps(hook.userId, s)
  {
    var started := hook.Connect(Some(token), s);
    hook.Cleanup(s);
  }
}
