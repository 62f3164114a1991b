/**
 * `handleSendDirectMessage` and `handleGetDirectMessageHistory`. A direct message
 * from a registered socket is trimmed and checked, the receiver must be a stored
 * user, the row is stored, the receiver's first connected socket (if any) gets the
 * message and a notification, and the sender gets a confirmation. The history
 * request returns the newest messages of the conversation, oldest first. Both
 * handlers report a failure to the socket and do not rethrow.
 */
module SendDirectMessage {
  import opened Wrappers
  import opened Seqs
  import opened Text
  import opened JsMaps
  import opened Store
  import opened Transport
  import opened Session
  import opened SocketUtils

  /** The `messageData` of a direct message; each field may be missing. */
  datatype DmInput = DmInput(receiverUserId: Option<UserId>, text: Option<string>)

  /** The outcome of the checks before the row is stored. */
  datatype Checked =
    | Rejected(error: Error)
    | Accepted(sender: Connection, receiver: User, text: string)

  /** Lines 5-34: sender, text, receiver id, emptiness, length, stored receiver, in the order the code checks them. */
  function Check(s: Server, sock: SocketId, d: DmInput): (r: Checked) {
    match UserOf(s, sock)
    case None => Rejected(Error("Sender not found in connected users"))
    case Some(sender) =>
      match d.text
      case None => Rejected(TypeError)
      case Some(raw) =>
        var text := Trim(raw);
        if !Truthy(d.receiverUserId) then Rejected(Error("Receiver user ID is required"))
        else if text == "" then Rejected(Error("Message text cannot be empty"))
        else if |text| > MAX_MESSAGE_LENGTH then Rejected(Error("Message too long. Maximum length is 2000 characters"))
        else match FindUser(s.db, d.receiverUserId.value)
          case None => Rejected(Error("Receiver not found"))
          case Some(receiver) => Accepted(sender, receiver, text)
  }

  /** The catch block: the error goes to the socket and the handler returns normally. */
  function Fail(s: Server, sock: SocketId, e: Error): (r: Result)
    ensures r.outcome == Completed
    ensures r.server.connected == s.connected && r.server.byUserId == s.byUserId && r.server.rooms == s.rooms
  {
    Result(s.Send(ToSocket(sock), "direct_message_error", DirectMessageError("Failed to send direct message", e)), Completed)
  }

  /** The row the handler stores. */
  function NewDirectMessage(sender: Connection, receiver: User, text: string, id: Id, now: Time): DirectMessage {
    DirectMessage(id, text, sender.userId, receiver.id, now, false, None)
  }

  /** The message payload of lines 54-64. */
  function DirectPayload(sender: Connection, receiver: User, text: string, id: Id): DirectChat {
    DirectChat(id, text, sender.username, sender.userId, receiver.id, receiver.username, "direct_message", false)
  }

  /** The `dm_notification` of lines 82-89 (its `notificationType` is always 'direct_message'). */
  function DmNotice(sender: Connection, text: string): Payload {
    DmNotification("New message from " + sender.username, Preview(text), sender.userId, sender.username)
  }

  /** Lines 67-90: the message and the notification to the receiver's first socket, when it has one. */
  function NotifyReceiver(s: Server, sock: SocketId, m: DirectChat, notice: Payload): (r: Server)
    ensures r.connected == s.connected && r.byUserId == s.byUserId && r.rooms == s.rooms && r.db == s.db
  {
    match FirstSocketOf(s.connected, m.receiverUserId)
    case None => s
    case Some(target) =>
      s.Send(ToRoomExcept(target, sock), "receive_direct_message", Direct(m, None))
       .Send(ToRoomExcept(target, sock), "dm_notification", notice)
  }

  /** Lines 37-97, once the checks have passed. */
  function Deliver(s: Server, sock: SocketId, sender: Connection, receiver: User, text: string, id: Id, now: Time)
    : (r: Result)
    ensures r.outcome == Completed
    ensures r.server.connected == s.connected && r.server.byUserId == s.byUserId && r.server.rooms == s.rooms
  {
    match CreateDirectMessage(s.db, NewDirectMessage(sender, receiver, text, id, now))
    case None => Fail(s, sock, StoreError)
    case Some(db') =>
      var m := DirectPayload(sender, receiver, text, id);
      var s1 := NotifyReceiver(s.(db := db'), sock, m, DmNotice(sender, text));
      Result(s1.Send(ToSocket(sock), "direct_message_sent", Direct(m, Some("delivered"))), Completed)
  }

  /** The whole send handler; `id` and `now` are the id and time the store gives the new row. */
  function SendDm(s: Server, sock: SocketId, d: DmInput, id: Id, now: Time): (r: Result) {
    match Check(s, sock, d)
    case Rejected(e) => Fail(s, sock, e)
    case Accepted(sender, receiver, text) => Deliver(s, sock, sender, receiver, text, id, now)
  }

  /** The send handler run on the server object. */
  method HandleSendDirectMessage(srv: ChatServer, sock: SocketId, d: DmInput, id: Id, now: Time) returns (outcome: Outcome)
    modifies srv
    ensures srv.State() == SendDm(old(srv.State()), sock, d, id, now).server
    ensures outcome == SendDm(old(srv.State()), sock, d, id, now).outcome
  {
    outcome := Completed;
    var checked := Check(srv.State(), sock, d);
    if checked.Rejected? {
      srv.Send(ToSocket(sock), "direct_message_error", DirectMessageError("Failed to send direct message", checked.error));
      return;
    }
    var sender, receiver, text := checked.sender, checked.receiver, checked.text;
    var created := CreateDirectMessage(srv.db, NewDirectMessage(sender, receiver, text, id, now));
    if created.None? {
      srv.Send(ToSocket(sock), "direct_message_error", DirectMessageError("Failed to send direct message", StoreError));
      return;
    }
    srv.db := created.value;
    var m := DirectPayload(sender, receiver, text, id);
    var target := FirstSocketOf(srv.connected, m.receiverUserId);
    if target.Some? {
      srv.Send(ToRoomExcept(target.value, sock), "receive_direct_message", Direct(m, None));
      srv.Send(ToRoomExcept(target.value, sock), "dm_notification", DmNotice(sender, text));
    }
    srv.Send(ToSocket(sock), "direct_message_sent", Direct(m, Some("delivered")));
  }

  // ---- History ----

  /** The `requestData` of a history request; `limit` defaults to 50. */
  datatype HistoryInput = HistoryInput(otherUserId: Option<UserId>, limit: Option<nat>, before: Option<Time>)

  const DEFAULT_HISTORY_LIMIT := 50

  /** One stored direct message as the history formats it. */
  function FormatDirect(db: Db, m: DirectMessage): DirectChat {
    DirectChat(m.id, m.content, UsernameOf(db, m.senderId), m.senderId, m.receiverId, UsernameOf(db, m.receiverId),
               "direct_message", m.isDeleted)
  }

  /** `messages.reverse().map(format)` on rows already in oldest-first order. */
  function FormatDirectHistory(db: Db, ms: seq<DirectMessage>): (r: seq<DirectChat>)
    ensures |r| == |ms|
    ensures forall i :: 0 <= i < |ms| ==> r[i] == FormatDirect(db, ms[i])
  {
    if ms == [] then [] else [FormatDirect(db, ms[0])] + FormatDirectHistory(db, ms[1..])
  }

  /** The handler of lines 108-172. */
  function History(s: Server, sock: SocketId, q: HistoryInput): (r: Result)
    ensures r.outcome == Completed
    ensures r.server.connected == s.connected && r.server.byUserId == s.byUserId && r.server.rooms == s.rooms
    ensures r.server.db == s.db && |r.server.log| == |s.log| + 1 && r.server.log[..|s.log|] == s.log
  {
    match UserOf(s, sock)
    case None =>
      Result(s.Send(ToSocket(sock), "direct_message_history_error", DirectMessageHistoryError(Error("User not found"))),
             Completed)
    case Some(user) =>
      if !Truthy(q.otherUserId) then
        Result(s.Send(ToSocket(sock), "direct_message_history_error",
                      DirectMessageHistoryError(Error("Other user ID is required"))), Completed)
      else
        var other := q.otherUserId.value;
        var rows := NewestDirectMessages(s.db, user.userId, other, q.before, q.limit.GetOr(DEFAULT_HISTORY_LIMIT));
        Result(s.Send(ToSocket(sock), "direct_message_history",
                      DirectMessageHistory(other, FormatDirectHistory(s.db, rows))), Completed)
  }

  /** The history handler run on the server object. */
  method HandleGetDirectMessageHistory(srv: ChatServer, sock: SocketId, q: HistoryInput) returns (outcome: Outcome)
    modifies srv
    ensures srv.State() == History(old(srv.State()), sock, q).server
    ensures outcome == History(old(srv.State()), sock, q).outcome
  {
    outcome := Completed;
    var user := srv.connected.Get(sock);
    if user.None? {
      srv.Send(ToSocket(sock), "direct_message_history_error", DirectMessageHistoryError(Error("User not found")));
      return;
    }
    if !Truthy(q.otherUserId) {
      srv.Send(ToSocket(sock), "direct_message_history_error", DirectMessageHistoryError(Error("Other user ID is required")));
      return;
    }
    var other := q.otherUserId.value;
    var rows := NewestDirectMessages(srv.db, user.value.userId, other, q.before, q.limit.GetOr(DEFAULT_HISTORY_LIMIT));
    srv.Send(ToSocket(sock), "direct_message_history", DirectMessageHistory(other, FormatDirectHistory(srv.db, rows)));
  }

  // ---- Properties ----

  /**
   * The checks, in order: an unregistered sender, a missing text (read before anything
   * else about it), a missing receiver id, a text blank after trimming, a trimmed text
   * over 2000 characters, a receiver that is not stored. Accepted input carries the
   * trimmed text and the stored receiver.
   */
  lemma CheckSpec(s: Server, sock: SocketId, d: DmInput)
    ensures var r := Check(s, sock, d);
      && (UserOf(s, sock).None? ==> r == Rejected(Error("Sender not found in connected users")))
      && (UserOf(s, sock).Some? && d.text.None? ==> r == Rejected(TypeError))
      && (UserOf(s, sock).Some? && d.text.Some? ==>
            var text := Trim(d.text.value);
            && (!Truthy(d.receiverUserId) ==> r == Rejected(Error("Receiver user ID is required")))
            && (Truthy(d.receiverUserId) && text == "" ==> r == Rejected(Error("Message text cannot be empty")))
            && (r.Accepted? <==> Truthy(d.receiverUserId) && text != "" && |text| <= 2000
                                 && HasUser(s.db, d.receiverUserId.value))
            && (r.Accepted? ==> r.text == text && r.receiver.id == d.receiverUserId.value && r.receiver in s.db.users
                                && r.sender == UserOf(s, sock).value))
  {
  }

  /** A rejected message stores nothing; the only change is `direct_message_error` to the sender, and nothing is rethrown. */
  lemma RejectedChangesNothing(s: Server, sock: SocketId, d: DmInput, id: Id, now: Time)
    requires Check(s, sock, d).Rejected?
    ensures var r := SendDm(s, sock, d, id, now);
      && r.outcome == Completed
      && r.server == s.Send(ToSocket(sock), "direct_message_error",
                            DirectMessageError("Failed to send direct message", Check(s, sock, d).error))
  {
  }

  /**
   * An accepted message from a stored sender is stored as an undeleted row from the
   * sender to the receiver with the trimmed text, and the last emit confirms it to the
   * sender with status 'delivered'. The receiver's first connected socket, if any, gets
   * the message and then a notification titled with the sender's name and carrying the
   * 50-character preview; with no connected socket nothing but the confirmation is sent.
   */
  lemma DeliverSpec(s: Server, sock: SocketId, sender: Connection, receiver: User, text: string, id: Id, now: Time)
    requires HasUser(s.db, sender.userId) && receiver in s.db.users
    ensures var r := Deliver(s, sock, sender, receiver, text, id, now);
      var m := DirectPayload(sender, receiver, text, id);
      var target := FirstSocketOf(s.connected, receiver.id);
      && r.server.db.directMessages == s.db.directMessages + [DirectMessage(id, text, sender.userId, receiver.id, now, false, None)]
      && r.server.connected == s.connected && r.server.byUserId == s.byUserId && r.server.rooms == s.rooms
      && |r.server.log| == |s.log| + (if target.Some? then 3 else 1)
      && r.server.log[..|s.log|] == s.log
      && r.server.log[|r.server.log| - 1] == Emit(ToSocket(sock), "direct_message_sent", Direct(m, Some("delivered")))
      && (target.Some? ==>
            && s.connected.entries[target.value].userId == receiver.id
            && r.server.log[|s.log|] == Emit(ToRoomExcept(target.value, sock), "receive_direct_message", Direct(m, None))
            && r.server.log[|s.log| + 1] == Emit(ToRoomExcept(target.value, sock), "dm_notification",
                 DmNotification("New message from " + sender.username, Preview(text), sender.userId, sender.username)))
  {
    assert HasUser(s.db, receiver.id);
  }

  /** A sender whose own row is gone gets `direct_message_error` with the store failure and nothing is stored. */
  lemma StoreFailureReported(s: Server, sock: SocketId, sender: Connection, receiver: User, text: string, id: Id, now: Time)
    requires !HasUser(s.db, sender.userId)
    ensures Deliver(s, sock, sender, receiver, text, id, now).server
         == s.Send(ToSocket(sock), "direct_message_error", DirectMessageError("Failed to send direct message", StoreError))
  {
  }

  /** A history request from an unregistered socket, or without the other user's id, gets its error back. */
  lemma HistoryErrors(s: Server, sock: SocketId, q: HistoryInput)
    ensures var e := History(s, sock, q).server.log[|s.log|];
      && e.target == ToSocket(sock)
      && (UserOf(s, sock).None? ==> e == Emit(ToSocket(sock), "direct_message_history_error",
                                              DirectMessageHistoryError(Error("User not found"))))
      && (UserOf(s, sock).Some? && !Truthy(q.otherUserId) ==>
            e == Emit(ToSocket(sock), "direct_message_history_error",
                      DirectMessageHistoryError(Error("Other user ID is required"))))
  {
  }

  /**
   * The history request of a registered socket returns, to that socket only, the last
   * `limit` (default 50) messages exchanged with the other user in either direction and
   * before the cut-off, oldest first, deleted ones included.
   */
  lemma HistorySpec(s: Server, sock: SocketId, q: HistoryInput)
    requires UserOf(s, sock).Some? && Truthy(q.otherUserId)
    ensures var e := History(s, sock, q).server.log[|s.log|];
      var matching := Filter(s.db.directMessages, Conversation(UserOf(s, sock).value.userId, q.otherUserId.value, q.before));
      && e.target == ToSocket(sock) && e.event == "direct_message_history"
      && e.payload.DirectMessageHistory? && e.payload.otherUserId == q.otherUserId.value
      && e.payload.history == FormatDirectHistory(s.db, TakeLast(matching, q.limit.GetOr(DEFAULT_HISTORY_LIMIT)))
  {
    HistoryEmit(s, sock, q);
    NewestDirectMessagesSpec(s.db, UserOf(s, sock).value.userId, q.otherUserId.value, q.before,
                             q.limit.GetOr(DEFAULT_HISTORY_LIMIT));
  }

  /** The history a registered socket asks for is one emit back to it. */
  lemma HistoryEmit(s: Server, sock: SocketId, q: HistoryInput)
    requires UserOf(s, sock).Some? && Truthy(q.otherUserId)
    ensures History(s, sock, q).server.log[|s.log|]
         == Emit(ToSocket(sock), "direct_message_history",
                 DirectMessageHistory(q.otherUserId.value,
                   FormatDirectHistory(s.db, NewestDirectMessages(s.db, UserOf(s, sock).value.userId, q.otherUserId.value,
                                                                  q.before, q.limit.GetOr(DEFAULT_HISTORY_LIMIT)))))
  {
  }

  /** Formatting the last `n` rows formats each of them, in place. */
  lemma FormatLast(db: Db, matching: seq<DirectMessage>, n: nat)
    ensures |FormatDirectHistory(db, TakeLast(matching, n))| == (if n < |matching| then n else |matching|)
    ensures forall i :: 0 <= i < |TakeLast(matching, n)| ==>
      FormatDirectHistory(db, TakeLast(matching, n))[i] == FormatDirect(db, matching[|matching| - |TakeLast(matching, n)| + i])
  {
    var rows := TakeLast(matching, n);
    var h := FormatDirectHistory(db, rows);
    assert forall i :: 0 <= i < |rows| ==> h[i] == FormatDirect(db, rows[i]);
  }

  /** Both participants of a conversation, asking with the same limit and cut-off, receive the same messages. */
  lemma HistorySameForBoth(s: Server, a: SocketId, b: SocketId, limit: Option<nat>, before: Option<Time>)
    requires UserOf(s, a).Some? && UserOf(s, b).Some?
    requires UserOf(s, a).value.userId != "" && UserOf(s, b).value.userId != ""
    ensures var ra := History(s, a, HistoryInput(Some(UserOf(s, b).value.userId), limit, before));
      var rb := History(s, b, HistoryInput(Some(UserOf(s, a).value.userId), limit, before));
      ra.server.log[|s.log|].payload.history == rb.server.log[|s.log|].payload.history
  {
    DirectHistorySymmetric(s.db, UserOf(s, a).value.userId, UserOf(s, b).value.userId, before,
                           limit.GetOr(DEFAULT_HISTORY_LIMIT));
  }

  /** Sending a direct message leaves the registry as it was, so the registry invariant is kept. */
  lemma SendPreservesConsistent(s: Server, sock: SocketId, d: DmInput, id: Id, now: Time)
    requires Consistent(s)
    ensures Consistent(SendDm(s, sock, d, id, now).server)
  {
    SameRegistryConsistent(s, SendDm(s, sock, d, id, now).server);
  }
}
