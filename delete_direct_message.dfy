/**
 * `handleDeleteDirectMessage`: a registered socket soft-deletes a direct message it
 * sent. The response goes to the conversation's room (but the sender), to the
 * sender, and as a confirmation. Unlike the channel handler there is no
 * already-deleted branch: a repeated delete stamps the row again. Failures go to
 * the socket as `dm_delete_error` and are not rethrown.
 */
module DeleteDirectMessage {
  import opened Wrappers
  import opened Seqs
  import opened Store
  import opened Transport
  import opened Session
  import opened JoinDM

  /** The state after reporting `message` to the socket and changing nothing else. */
  function Reported(s: Server, sock: SocketId, messageId: Option<Id>, message: string): Server {
    s.Send(ToSocket(sock), "dm_delete_error", DmDeleteError(messageId, Error(message)))
  }

  /** Lines 58-62: the response to the conversation room but the sender, to the sender, and the confirmation. */
  function Announce(s: Server, sock: SocketId, resp: Payload, room: Room): (r: Server)
    ensures r.connected == s.connected && r.byUserId == s.byUserId && r.rooms == s.rooms && r.db == s.db
    ensures r.log == s.log + [Emit(ToRoomExcept(room, sock), "dm_deleted", resp),
                              Emit(ToSocket(sock), "dm_deleted", resp),
                              Emit(ToSocket(sock), "dm_delete_success", resp)]
  {
    s.Send(ToRoomExcept(room, sock), "dm_deleted", resp)
     .Send(ToSocket(sock), "dm_deleted", resp)
     .Send(ToSocket(sock), "dm_delete_success", resp)
  }

  /** The whole handler; `messageId` is `deleteData.messageId` and `now` the deletion time. */
  function DeleteDm(s: Server, sock: SocketId, messageId: Option<Id>, now: Time): (r: Result)
    ensures r.outcome == Completed
    ensures r.server.connected == s.connected && r.server.byUserId == s.byUserId && r.server.rooms == s.rooms
  {
    match UserOf(s, sock)
    case None => Result(Reported(s, sock, messageId, "User not found in connected users"), Completed)
    case Some(user) =>
      if !Truthy(messageId) then Result(Reported(s, sock, messageId, "Invalid delete data: messageId is required"), Completed)
      else match FindDirectMessageIndex(s.db, messageId.value)
        case None => Result(Reported(s, sock, messageId, "Direct message not found"), Completed)
        case Some(i) =>
          var m := s.db.directMessages[i];
          if m.senderId != user.userId then
            Result(Reported(s, sock, messageId, "You can only delete your own direct messages"), Completed)
          else
            Result(Announce(s.(db := SoftDeleteDirectMessage(s.db, i, now)), sock,
                            DmDeleted(messageId.value, m.senderId, m.receiverId, user.username),
                            DmRoom(m.senderId, m.receiverId)),
                   Completed)
  }

  /** The handler run on the server object. */
  method HandleDeleteDirectMessage(srv: ChatServer, sock: SocketId, messageId: Option<Id>, now: Time)
    returns (outcome: Outcome)
    modifies srv
    ensures srv.State() == DeleteDm(old(srv.State()), sock, messageId, now).server
    ensures outcome == DeleteDm(old(srv.State()), sock, messageId, now).outcome
  {
    outcome := Completed;
    var user := srv.connected.Get(sock);
    var message: string;
    if user.None? {
      message := "User not found in connected users";
    } else if !Truthy(messageId) {
      message := "Invalid delete data: messageId is required";
    } else {
      var found := FindDirectMessageIndex(srv.db, messageId.value);
      if found.None? {
        message := "Direct message not found";
      } else {
        var m := srv.db.directMessages[found.value];
        if m.senderId != user.value.userId {
          message := "You can only delete your own direct messages";
        } else {
          srv.db := SoftDeleteDirectMessage(srv.db, found.value, now);
          var resp := DmDeleted(messageId.value, m.senderId, m.receiverId, user.value.username);
          var room := DmRoom(m.senderId, m.receiverId);
          srv.Send(ToRoomExcept(room, sock), "dm_deleted", resp);
          srv.Send(ToSocket(sock), "dm_deleted", resp);
          srv.Send(ToSocket(sock), "dm_delete_success", resp);
          return;
        }
      }
    }
    srv.Send(ToSocket(sock), "dm_delete_error", DmDeleteError(messageId, Error(message)));
  }

  // ---- Properties ----

  /** Whether the socket's user may delete the direct message: it exists and the user sent it. */
  predicate MayDelete(s: Server, sock: SocketId, messageId: Option<Id>) {
    UserOf(s, sock).Some? && Truthy(messageId) && FindDirectMessageIndex(s.db, messageId.value).Some?
    && s.db.directMessages[FindDirectMessageIndex(s.db, messageId.value).value].senderId == UserOf(s, sock).value.userId
  }

  /**
   * The errors, in order: an unregistered socket, a missing id, an unknown id, a message
   * sent by someone else (its receiver included). Each changes nothing but appending
   * `dm_delete_error` with the requested id.
   */
  lemma DeleteErrors(s: Server, sock: SocketId, messageId: Option<Id>, now: Time)
    requires !MayDelete(s, sock, messageId)
    ensures var r := DeleteDm(s, sock, messageId, now).server;
      && (UserOf(s, sock).None? ==> r == Reported(s, sock, messageId, "User not found in connected users"))
      && (UserOf(s, sock).Some? && !Truthy(messageId) ==>
            r == Reported(s, sock, messageId, "Invalid delete data: messageId is required"))
      && (UserOf(s, sock).Some? && Truthy(messageId) && FindDirectMessageIndex(s.db, messageId.value).None? ==>
            r == Reported(s, sock, messageId, "Direct message not found"))
      && (UserOf(s, sock).Some? && Truthy(messageId) && FindDirectMessageIndex(s.db, messageId.value).Some? ==>
            r == Reported(s, sock, messageId, "You can only delete your own direct messages"))
  {
  }

  /**
   * The sender's delete marks exactly that row deleted at `now`, and the response naming
   * both participants and the deleting user goes to the room of the conversation (the
   * room `handleJoinDM` puts either participant in) but the sender, and twice to the sender.
   */
  lemma DeleteSpec(s: Server, sock: SocketId, messageId: Option<Id>, now: Time)
    requires MayDelete(s, sock, messageId)
    ensures var r := DeleteDm(s, sock, messageId, now);
      var i := FindDirectMessageIndex(s.db, messageId.value).value;
      var m := s.db.directMessages[i];
      var resp := DmDeleted(messageId.value, m.senderId, m.receiverId, UserOf(s, sock).value.username);
      var room := DmRoom(m.senderId, m.receiverId);
      && r.server.db == SoftDeleteDirectMessage(s.db, i, now)
      && r.server.db.directMessages[i].isDeleted && r.server.db.directMessages[i].deletedAt == Some(now)
      && room == DmRoom(m.receiverId, m.senderId)
      && r.server.log == s.log + [Emit(ToRoomExcept(room, sock), "dm_deleted", resp),
                                  Emit(ToSocket(sock), "dm_deleted", resp),
                                  Emit(ToSocket(sock), "dm_delete_success", resp)]
  {
    var m := s.db.directMessages[FindDirectMessageIndex(s.db, messageId.value).value];
    DmRoomSymmetric(m.senderId, m.receiverId);
  }

  /**
   * With no already-deleted check, deleting again succeeds once more and moves the
   * deletion time to the later call's time.
   */
  lemma RepeatDeleteRestamps(s: Server, sock: SocketId, messageId: Option<Id>, now: Time, later: Time)
    requires MayDelete(s, sock, messageId)
    ensures var r1 := DeleteDm(s, sock, messageId, now);
      var r2 := DeleteDm(r1.server, sock, messageId, later);
      var i := FindDirectMessageIndex(s.db, messageId.value).value;
      && MayDelete(r1.server, sock, messageId)
      && r2.server.db.directMessages[i].isDeleted
      && r2.server.db.directMessages[i].deletedAt == Some(later)
      && r2.server.log[|r2.server.log| - 1].event == "dm_delete_success"
  {
    var i := FindDirectMessageIndex(s.db, messageId.value).value;
    var db1 := SoftDeleteDirectMessage(s.db, i, now);
    FindIndexSame(s.db.directMessages, db1.directMessages, DirectWithId(messageId.value));
  }

  /** Any change to the store is the soft delete of a direct message the socket's own user sent. */
  lemma OnlyOwnMessagesChange(s: Server, sock: SocketId, messageId: Option<Id>, now: Time)
    ensures var r := DeleteDm(s, sock, messageId, now);
      r.server.db != s.db ==>
        && MayDelete(s, sock, messageId)
        && r.server.db == SoftDeleteDirectMessage(s.db, FindDirectMessageIndex(s.db, messageId.value).value, now)
  {
  }
}
