/**
 * `handleDeleteMessage`: a registered socket soft-deletes one of its own channel
 * messages. The channel room (but the sender), the sender's socket and its
 * confirmation all get the same response. A message that is already deleted is
 * answered the same way, marked `alreadyDeleted`, without touching the store.
 * Failures go to the socket as `message_delete_error` and are not rethrown.
 */
module DeleteMessage {
  import opened Wrappers
  import opened Seqs
  import opened JsMaps
  import opened Store
  import opened Transport
  import opened Session

  /** The catch block. */
  function Fail(s: Server, sock: SocketId, messageId: Option<Id>, e: Error): (r: Result)
    ensures r.outcome == Completed
  {
    Result(s.Send(ToSocket(sock), "message_delete_error", MessageDeleteError(messageId, e)), Completed)
  }

  /** Lines 46-48 and 70-74: the response to the room but the sender, to the sender, and the confirmation. */
  function Announce(s: Server, sock: SocketId, resp: Payload, channelId: Room): (r: Server)
    ensures r.connected == s.connected && r.byUserId == s.byUserId && r.rooms == s.rooms && r.db == s.db
    ensures r.log == s.log + [Emit(ToRoomExcept(channelId, sock), "message_deleted", resp),
                              Emit(ToSocket(sock), "message_deleted", resp),
                              Emit(ToSocket(sock), "message_delete_success", resp)]
  {
    s.Send(ToRoomExcept(channelId, sock), "message_deleted", resp)
     .Send(ToSocket(sock), "message_deleted", resp)
     .Send(ToSocket(sock), "message_delete_success", resp)
  }

  /** The whole handler; `messageId` is `deleteData.messageId` and `now` the deletion time. */
  function Delete(s: Server, sock: SocketId, messageId: Option<Id>, now: Time): (r: Result)
    ensures r.outcome == Completed
    ensures r.server.connected == s.connected && r.server.byUserId == s.byUserId && r.server.rooms == s.rooms
  {
    match UserOf(s, sock)
    case None => Fail(s, sock, messageId, Error("User not found in connected users"))
    case Some(user) =>
      if !Truthy(messageId) then Fail(s, sock, messageId, Error("Invalid delete data: messageId is required"))
      else match FindMessageIndex(s.db, messageId.value)
        case None => Fail(s, sock, messageId, Error("Message not found"))
        case Some(i) =>
          var m := s.db.messages[i];
          if m.userId != user.userId then Fail(s, sock, messageId, Error("You can only delete your own messages"))
          else if m.isDeleted then
            Result(Announce(s, sock, MessageDeleted(messageId.value, m.channelId, user.username, true), m.channelId),
                   Completed)
          else
            Result(Announce(s.(db := SoftDeleteMessage(s.db, i, now)), sock,
                            MessageDeleted(messageId.value, m.channelId, user.username, false), m.channelId),
                   Completed)
  }

  /** The handler run on the server object. */
  method HandleDeleteMessage(srv: ChatServer, sock: SocketId, messageId: Option<Id>, now: Time) returns (outcome: Outcome)
    modifies srv
    ensures srv.State() == Delete(old(srv.State()), sock, messageId, now).server
    ensures outcome == Delete(old(srv.State()), sock, messageId, now).outcome
  {
    outcome := Completed;
    var user := srv.connected.Get(sock);
    var e: Error;
    if user.None? {
      e := Error("User not found in connected users");
    } else if !Truthy(messageId) {
      e := Error("Invalid delete data: messageId is required");
    } else {
      var found := FindMessageIndex(srv.db, messageId.value);
      if found.None? {
        e := Error("Message not found");
      } else {
        var m := srv.db.messages[found.value];
        if m.userId != user.value.userId {
          e := Error("You can only delete your own messages");
        } else {
          if !m.isDeleted {
            srv.db := SoftDeleteMessage(srv.db, found.value, now);
          }
          var resp := MessageDeleted(messageId.value, m.channelId, user.value.username, m.isDeleted);
          srv.Send(ToRoomExcept(m.channelId, sock), "message_deleted", resp);
          srv.Send(ToSocket(sock), "message_deleted", resp);
          srv.Send(ToSocket(sock), "message_delete_success", resp);
          return;
        }
      }
    }
    srv.Send(ToSocket(sock), "message_delete_error", MessageDeleteError(messageId, e));
  }

  // ---- Properties ----

  /** Whether the socket's user may delete the message: it exists and the user wrote it. */
  predicate MayDelete(s: Server, sock: SocketId, messageId: Option<Id>) {
    UserOf(s, sock).Some? && Truthy(messageId) && FindMessageIndex(s.db, messageId.value).Some?
    && s.db.messages[FindMessageIndex(s.db, messageId.value).value].userId == UserOf(s, sock).value.userId
  }

  /**
   * The errors, in order: an unregistered socket, a missing id, an unknown id, a message
   * written by someone else. Each leaves everything but the log unchanged and appends
   * only `message_delete_error` carrying the requested id.
   */
  lemma DeleteErrors(s: Server, sock: SocketId, messageId: Option<Id>, now: Time)
    requires !MayDelete(s, sock, messageId)
    ensures var r := Delete(s, sock, messageId, now).server;
      && (UserOf(s, sock).None? ==> r == Reported(s, sock, messageId, "User not found in connected users"))
      && (UserOf(s, sock).Some? && !Truthy(messageId) ==>
            r == Reported(s, sock, messageId, "Invalid delete data: messageId is required"))
      && (UserOf(s, sock).Some? && Truthy(messageId) && FindMessageIndex(s.db, messageId.value).None? ==>
            r == Reported(s, sock, messageId, "Message not found"))
      && (UserOf(s, sock).Some? && Truthy(messageId) && FindMessageIndex(s.db, messageId.value).Some? ==>
            r == Reported(s, sock, messageId, "You can only delete your own messages"))
  {
  }

  /** The state after reporting `message` to the socket and changing nothing else. */
  function Reported(s: Server, sock: SocketId, messageId: Option<Id>, message: string): Server {
    s.Send(ToSocket(sock), "message_delete_error", MessageDeleteError(messageId, Error(message)))
  }

  /**
   * The owner's delete marks exactly that row deleted at `now` (the rest of the store is
   * unchanged); a row already deleted keeps its original deletion time. The response names
   * the message, its channel and the deleting user, it says whether the row was already
   * deleted, and it goes to the channel room but the sender, and twice to the sender.
   */
  lemma DeleteSpec(s: Server, sock: SocketId, messageId: Option<Id>, now: Time)
    requires MayDelete(s, sock, messageId)
    ensures var r := Delete(s, sock, messageId, now);
      var i := FindMessageIndex(s.db, messageId.value).value;
      var m := s.db.messages[i];
      var resp := MessageDeleted(messageId.value, m.channelId, UserOf(s, sock).value.username, m.isDeleted);
      && r.server.db == (if m.isDeleted then s.db else SoftDeleteMessage(s.db, i, now))
      && r.server.db.messages[i].isDeleted
      && r.server.db.messages[i].deletedAt == (if m.isDeleted then m.deletedAt else Some(now))
      && r.server.log == s.log + [Emit(ToRoomExcept(m.channelId, sock), "message_deleted", resp),
                                  Emit(ToSocket(sock), "message_deleted", resp),
                                  Emit(ToSocket(sock), "message_delete_success", resp)]
      && r.server.connected == s.connected && r.server.byUserId == s.byUserId && r.server.rooms == s.rooms
  {
  }

  /** Any change to the store is the soft delete of a message the socket's own user wrote. */
  lemma OnlyOwnMessagesChange(s: Server, sock: SocketId, messageId: Option<Id>, now: Time)
    ensures var r := Delete(s, sock, messageId, now);
      r.server.db != s.db ==>
        && MayDelete(s, sock, messageId)
        && var i := FindMessageIndex(s.db, messageId.value).value;
           !s.db.messages[i].isDeleted && r.server.db == SoftDeleteMessage(s.db, i, now)
  {
  }

  /**
   * Deleting twice is the same as deleting once as far as the store goes, and the second
   * response reports the message as already deleted.
   */
  lemma DeleteIdempotent(s: Server, sock: SocketId, messageId: Option<Id>, now: Time, later: Time)
    requires MayDelete(s, sock, messageId)
    ensures var r1 := Delete(s, sock, messageId, now);
      var r2 := Delete(r1.server, sock, messageId, later);
      && r2.server.db == r1.server.db
      && r2.server.log[|r2.server.log| - 1].payload.alreadyDeleted
  {
    var r1 := Delete(s, sock, messageId, now);
    var i := FindMessageIndex(s.db, messageId.value).value;
    var id := messageId.value;
    if !s.db.messages[i].isDeleted {
      var db1 := SoftDeleteMessage(s.db, i, now);
      FindIndexSame(s.db.messages, db1.messages, MessageWithId(id));
    }
  }

  /** Deleting leaves the registry as it was, so the registry invariant is kept. */
  lemma DeletePreservesConsistent(s: Server, sock: SocketId, messageId: Option<Id>, now: Time)
    requires Consistent(s)
    ensures Consistent(Delete(s, sock, messageId, now).server)
  {
  }
}
