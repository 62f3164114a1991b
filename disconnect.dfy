/**
 * `handleDisconnect`: the socket of a registered user goes away. The user is stored
 * as offline, a pending typing indicator is cleared, the current channel hears that
 * the user left, both registry entries are removed and the remaining sockets get the
 * new users list and a `user_disconnected` notice. If the store update fails, the
 * catch block still removes the registry entries and sends the users list. Nothing
 * is rethrown.
 */
module Disconnect {
  import opened Wrappers
  import opened JsMaps
  import opened Store
  import opened Transport
  import opened Session
  import TypingEvents

  /** Lines 60-75: both Maps lose the user, then the users list and the notice to everyone else. */
  function Unregister(s: Server, sock: SocketId, user: Connection): (r: Server)
    ensures r.connected == s.connected.Delete(sock) && r.byUserId == s.byUserId.Delete(user.userId)
    ensures r.rooms == s.rooms && r.db == s.db
    ensures r.log == s.log + [Emit(BroadcastExcept(sock), "users_list", UsersList(UniqueUsers(r))),
                              Emit(BroadcastExcept(sock), "user_disconnected",
                                   UserDisconnected(user.username, user.userId, |UniqueUsers(r)|))]
  {
    var s1 := s.(connected := s.connected.Delete(sock), byUserId := s.byUserId.Delete(user.userId));
    var users := UniqueUsers(s1);
    s1.Send(BroadcastExcept(sock), "users_list", UsersList(users))
      .Send(BroadcastExcept(sock), "user_disconnected", UserDisconnected(user.username, user.userId, |users|))
  }

  /** Lines 32-46: clear the typing indicator, then leave the current channel and tell it. */
  function LeaveChannel(s: Server, sock: SocketId, user: Connection): (r: Server)
    ensures r.byUserId == s.byUserId && r.db == s.db
    ensures r.connected == TypingEvents.Cleanup(s, sock).connected
    ensures r.rooms == if user.currentChannel == "" then s.rooms else Leave(s.rooms, sock, user.currentChannel)
  {
    var s1 := TypingEvents.Cleanup(s, sock);
    if user.currentChannel == "" then s1
    else
      s1.(rooms := Leave(s1.rooms, sock, user.currentChannel))
        .Send(ToRoomExcept(user.currentChannel, sock), "user_channel_left",
              UserChannelLeft(user.username, user.userId, user.currentChannel, None, Some("disconnected")))
  }

  /** Lines 83-105: the cleanup when the store update throws. */
  function Salvage(s: Server, sock: SocketId): (r: Server)
    ensures r.rooms == s.rooms && r.db == s.db
    ensures UserOf(s, sock).None? ==> r.connected == s.connected && r.byUserId == s.byUserId
    ensures UserOf(s, sock).Some? ==>
              r.connected == s.connected.Delete(sock)
              && r.byUserId == (if UserOf(s, sock).value.userId != "" then s.byUserId.Delete(UserOf(s, sock).value.userId)
                                else s.byUserId)
    ensures r.log == s.log + [Emit(BroadcastExcept(sock), "users_list", UsersList(UniqueUsers(r)))]
  {
    var s1 := match UserOf(s, sock)
      case None => s
      case Some(user) =>
        s.(connected := s.connected.Delete(sock),
           byUserId := if user.userId != "" then s.byUserId.Delete(user.userId) else s.byUserId);
    s1.Send(BroadcastExcept(sock), "users_list", UsersList(UniqueUsers(s1)))
  }

  /** The whole handler. */
  function Disconnected(s: Server, sock: SocketId): (r: Result)
    ensures r.outcome == Completed
  {
    match UserOf(s, sock)
    case None => Result(s, Completed)
    case Some(user) =>
      match UpdateUserStatus(s.db, user.userId, Offline, None)
      case None => Result(Salvage(s, sock), Completed)
      case Some(db') => Result(Unregister(LeaveChannel(s.(db := db'), sock, user), sock, user), Completed)
  }

  /** The handler run on the server object. */
  method HandleDisconnect(srv: ChatServer, sock: SocketId) returns (outcome: Outcome)
    modifies srv
    ensures srv.State() == Disconnected(old(srv.State()), sock).server
    ensures outcome == Disconnected(old(srv.State()), sock).outcome
  {
    outcome := Completed;
    var user := srv.connected.Get(sock);
    if user.None? {
      return;
    }
    var updated := UpdateUserStatus(srv.db, user.value.userId, Offline, None);
    if updated.None? {
      SalvageOn(srv, sock);
      return;
    }
    srv.db := updated.value;
    LeaveChannelOn(srv, sock, user.value);
    UnregisterOn(srv, sock, user.value);
  }

  /** Lines 83-105 on the server object. */
  method SalvageOn(srv: ChatServer, sock: SocketId)
    modifies srv
    ensures srv.State() == Salvage(old(srv.State()), sock)
  {
    var user := srv.connected.Get(sock);
    if user.Some? {
      srv.connected := srv.connected.Delete(sock);
      if user.value.userId != "" {
        srv.byUserId := srv.byUserId.Delete(user.value.userId);
      }
    }
    srv.Send(BroadcastExcept(sock), "users_list", UsersList(UniqueUsers(srv.State())));
  }

  /** Lines 32-46 on the server object. */
  method LeaveChannelOn(srv: ChatServer, sock: SocketId, user: Connection)
    modifies srv
    ensures srv.State() == LeaveChannel(old(srv.State()), sock, user)
  {
    TypingEvents.CleanupTypingStatus(srv, sock);
    if user.currentChannel != "" {
      srv.rooms := Leave(srv.rooms, sock, user.currentChannel);
      srv.Send(ToRoomExcept(user.currentChannel, sock), "user_channel_left",
               UserChannelLeft(user.username, user.userId, user.currentChannel, None, Some("disconnected")));
    }
  }

  /** Lines 60-75 on the server object. */
  method UnregisterOn(srv: ChatServer, sock: SocketId, user: Connection)
    modifies srv
    ensures srv.State() == Unregister(old(srv.State()), sock, user)
  {
    srv.connected := srv.connected.Delete(sock);
    srv.byUserId := srv.byUserId.Delete(user.userId);
    var users := UniqueUsers(srv.State());
    srv.Send(BroadcastExcept(sock), "users_list", UsersList(users));
    srv.Send(BroadcastExcept(sock), "user_disconnected", UserDisconnected(user.username, user.userId, |users|));
  }

  // ---- Properties ----

  /** A socket with no record disconnects without any effect. */
  lemma UnknownSocketIgnored(s: Server, sock: SocketId)
    requires UserOf(s, sock).None?
    ensures Disconnected(s, sock).server == s
  {
  }

  /**
   * Whichever path is taken, the socket's record is gone afterwards, and so is the
   * user's entry in `usersByUserId` (on the normal path even when that entry named
   * another socket). The last emit is a broadcast to everyone but the socket.
   */
  lemma DisconnectForgetsUser(s: Server, sock: SocketId)
    requires UserOf(s, sock).Some?
    ensures var r := Disconnected(s, sock).server;
      var user := UserOf(s, sock).value;
      && UserOf(r, sock).None?
      && (HasUser(s.db, user.userId) || user.userId != "" ==> r.byUserId.Get(user.userId).None?)
      && |r.log| > |s.log| && r.log[|r.log| - 1].target == BroadcastExcept(sock)
  {
    var user := UserOf(s, sock).value;
    GetAfterDelete(s.connected, sock, sock);
    if HasUser(s.db, user.userId) {
      var db' := UpdateUserStatus(s.db, user.userId, Offline, None).value;
      var s1 := LeaveChannel(s.(db := db'), sock, user);
      GetAfterDelete(s1.connected, sock, sock);
      GetAfterDelete(s1.byUserId, user.userId, user.userId);
    } else {
      GetAfterDelete(s.byUserId, user.userId, user.userId);
    }
  }

  /**
   * On the normal path the user is stored as offline, the current channel (when there is
   * one) is left and told with reason 'disconnected', and the last two emits are the users
   * list of the new registry and the notice carrying that list's length.
   */
  lemma NormalPath(s: Server, sock: SocketId)
    requires UserOf(s, sock).Some? && HasUser(s.db, UserOf(s, sock).value.userId)
    ensures var r := Disconnected(s, sock).server;
      var user := UserOf(s, sock).value;
      var users := UniqueUsers(r);
      && StatusOf(r.db, user.userId) == Some(Offline)
      && (user.currentChannel != "" && sock in s.rooms && user.currentChannel != sock ==>
            !InRoom(r.rooms, sock, user.currentChannel))
      && |r.log| >= |s.log| + 2
      && r.log[|r.log| - 2] == Emit(BroadcastExcept(sock), "users_list", UsersList(users))
      && r.log[|r.log| - 1] == Emit(BroadcastExcept(sock), "user_disconnected",
                                    UserDisconnected(user.username, user.userId, |users|))
  {
    var user := UserOf(s, sock).value;
    StatusAfterUpdate(s.db, user.userId, Offline, None);
    var db' := UpdateUserStatus(s.db, user.userId, Offline, None).value;
    var l := LeaveChannel(s.(db := db'), sock, user);
    assert Disconnected(s, sock).server == Unregister(l, sock, user);
    if user.currentChannel != "" && sock in s.rooms && user.currentChannel != sock {
      LeaveSpec(s.rooms, sock, user.currentChannel);
    }
  }

  /**
   * The normal path in full: the user is stored as offline, the current channel (when
   * there is one) is left and told with reason 'disconnected', the last two emits are the
   * users list and the notice carrying that list's length, and under the invariant that
   * list leaves out the user who left.
   */
  lemma DisconnectSpec(s: Server, sock: SocketId)
    requires UserOf(s, sock).Some? && HasUser(s.db, UserOf(s, sock).value.userId)
    ensures var r := Disconnected(s, sock).server;
      var user := UserOf(s, sock).value;
      var users := UniqueUsers(r);
      && StatusOf(r.db, user.userId) == Some(Offline)
      && (user.currentChannel != "" && sock in s.rooms && user.currentChannel != sock ==>
            !InRoom(r.rooms, sock, user.currentChannel))
      && |r.log| >= |s.log| + 2
      && r.log[|r.log| - 2] == Emit(BroadcastExcept(sock), "users_list", UsersList(users))
      && r.log[|r.log| - 1] == Emit(BroadcastExcept(sock), "user_disconnected",
                                    UserDisconnected(user.username, user.userId, |users|))
    ensures Consistent(s) ==> forall c :: c in UniqueUsers(Disconnected(s, sock).server) ==>
              c.id != sock && c.userId != UserOf(s, sock).value.userId
  {
    NormalPath(s, sock);
    if Consistent(s) {
      DepartedUserNotListed(s, sock);
    }
  }

  /**
   * When the store update throws, the catch block still forgets the socket (and the
   * user's entry, when the record has a user id), changes no room and sends exactly one
   * users list to everyone else, which under the invariant leaves out the user.
   */
  lemma StoreFailureSalvages(s: Server, sock: SocketId)
    requires UserOf(s, sock).Some? && !HasUser(s.db, UserOf(s, sock).value.userId)
    ensures var r := Disconnected(s, sock).server;
      var user := UserOf(s, sock).value;
      && UserOf(r, sock).None?
      && (user.userId != "" ==> r.byUserId.Get(user.userId).None?)
      && r.rooms == s.rooms && r.db == s.db
      && r.log == s.log + [Emit(BroadcastExcept(sock), "users_list", UsersList(UniqueUsers(r)))]
      && (Consistent(s) ==> forall c :: c in UniqueUsers(r) ==> c.id != sock && c.userId != user.userId)
  {
    var user := UserOf(s, sock).value;
    GetAfterDelete(s.connected, sock, sock);
    GetAfterDelete(s.byUserId, user.userId, user.userId);
    if Consistent(s) {
      DepartedUserNotListed(s, sock);
    }
  }

  /**
   * Under the invariant the users list that goes out, on either path, holds no record
   * of the socket that left nor any record of its user: the record is deleted, and no
   * other socket carried that user id.
   */
  lemma DepartedUserNotListed(s: Server, sock: SocketId)
    requires Consistent(s) && UserOf(s, sock).Some?
    ensures forall c :: c in UniqueUsers(Disconnected(s, sock).server) ==>
              c.id != sock && c.userId != UserOf(s, sock).value.userId
  {
    var r := Disconnected(s, sock).server;
    var user := UserOf(s, sock).value;
    if HasUser(s.db, user.userId) {
      var s0 := s.(db := UpdateUserStatus(s.db, user.userId, Offline, None).value);
      CleanupKeepsOthers(s0, sock);
      assert r == Unregister(LeaveChannel(s0, sock, user), sock, user);
    }
    OthersListed(s, r, sock);
  }

  /** Typing cleanup rewrites at most the socket's own record. */
  lemma CleanupKeepsOthers(s: Server, sock: SocketId)
    ensures var c := TypingEvents.Cleanup(s, sock).connected;
      forall k :: k in c.entries && k != sock ==> k in s.connected.entries && c.entries[k] == s.connected.entries[k]
  {
  }

  /**
   * Under the invariant, a registry that keeps only other sockets' records, unchanged,
   * lists no record of the socket nor any record with its user id.
   */
  lemma OthersListed(s: Server, r: Server, sock: SocketId)
    requires Consistent(s) && sock in s.connected.entries
    requires forall k :: k in r.connected.entries ==>
               k != sock && k in s.connected.entries && r.connected.entries[k] == s.connected.entries[k]
    ensures forall c :: c in UniqueUsers(r) ==> c.id != sock && c.userId != s.connected.entries[sock].userId
  {
    forall c | c in UniqueUsers(r) ensures c.id != sock && c.userId != s.connected.entries[sock].userId {
      var u :| u in r.byUserId.keys && u in r.byUserId.entries && r.byUserId.entries[u] in r.connected.entries
               && r.connected.entries[r.byUserId.entries[u]] == c;
      var k := r.byUserId.entries[u];
      if c.userId == s.connected.entries[sock].userId {
        OneSocketPerUser(s, k, sock);
      }
    }
  }

  /**
   * The channel hears the departure after any typing cleanup: when the user was typing
   * somewhere, the first emit is the typing stop with reason 'user_disconnected'.
   */
  lemma TypingClearedFirst(s: Server, sock: SocketId)
    requires UserOf(s, sock).Some? && HasUser(s.db, UserOf(s, sock).value.userId)
    requires UserOf(s, sock).value.isTyping && Truthy(UserOf(s, sock).value.typingInChannel)
    ensures var r := Disconnected(s, sock).server;
      var user := UserOf(s, sock).value;
      var channel := user.typingInChannel.value;
      && |r.log| > |s.log|
      && r.log[|s.log|] == Emit(ToRoomExcept(channel, sock), "user_typing",
                                UserTyping(user.username, user.userId, channel, false, Some("user_disconnected")))
  {
    var user := UserOf(s, sock).value;
    var db' := UpdateUserStatus(s.db, user.userId, Offline, None).value;
    var s0 := s.(db := db');
    var c := TypingEvents.Cleanup(s0, sock);
    var l := LeaveChannel(s0, sock, user);
    assert c.log[|s.log|] == Emit(ToRoomExcept(user.typingInChannel.value, sock), "user_typing",
                                  UserTyping(user.username, user.userId, user.typingInChannel.value, false, Some("user_disconnected")));
    assert c.log <= l.log;
  }

  /**
   * The normal path keeps the registry invariant: the socket's record and its user's
   * entry go together, and no other record pointed at that entry.
   */
  lemma DisconnectPreservesConsistent(s: Server, sock: SocketId)
    requires Consistent(s)
    ensures Consistent(Disconnected(s, sock).server)
  {
    var r := Disconnected(s, sock).server;
    if UserOf(s, sock).Some? {
      var user := UserOf(s, sock).value;
      var s1 := if HasUser(s.db, user.userId) then LeaveChannel(s.(db := UpdateUserStatus(s.db, user.userId, Offline, None).value), sock, user) else s;
      TypingEvents.TypingPreservesConsistent(s.(db := s1.db), sock, None, 0);
      assert Consistent(s1);
      forall k | k in r.connected.entries
        ensures r.connected.entries[k].userId in r.byUserId.entries
        ensures r.byUserId.entries[r.connected.entries[k].userId] == k
      {
        assert k != sock && k in s1.connected.entries;
        if s1.connected.entries[k].userId == user.userId {
          OneSocketPerUser(s1, k, sock);
        }
      }
    }
  }
}
