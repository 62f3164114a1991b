/**
 * `handleUserJoin`: registers a socket for a user. An older socket of the same
 * user is told to go away and dropped first; then the channel is checked, the
 * stored user is marked online, both Maps are set, the channel room is joined, the
 * oldest 50 messages of the channel are sent, and the users list goes out.
 * Any failure removes this socket's registration again, reports `join_error`
 * and rethrows.
 */
module UserJoin {
  import opened Wrappers
  import opened JsMaps
  import opened Store
  import opened Transport
  import opened Session

  /** The `userData` of a `user_join` event. */
  datatype JoinData = JoinData(userId: UserId, username: string, channel: Room)

  const HISTORY_LIMIT: nat := 50

  const SESSION_REPLACED: Payload := ForceDisconnect("new_session", "You have been logged in from another device")

  /** Drops the registration of an older socket of the same user. */
  function Evict(s: Server, sock: SocketId, userId: UserId): (r: Server)
    ensures r.db == s.db && s.log <= r.log
    ensures r.rooms.Keys <= s.rooms.Keys
    ensures sock in s.rooms ==> sock in r.rooms && r.rooms[sock] == s.rooms[sock]
  {
    match s.byUserId.Get(userId)
    case Some(prev) =>
      if prev != "" && prev != sock then
        var s1 :=
          if prev in s.rooms then s.Send(ToSocket(prev), "force_disconnect", SESSION_REPLACED).(rooms := Drop(s.rooms, prev))
          else s;
        s1.(connected := s1.connected.Delete(prev), byUserId := s1.byUserId.Delete(userId))
      else s
    case None => s
  }

  /** Undoes this socket's registration, reports `join_error` and rethrows. */
  function Fail(s: Server, sock: SocketId, userId: UserId, e: Error): (r: Result)
    ensures r.outcome == Raised(e)
    ensures r.server.connected.entries.Keys <= s.connected.entries.Keys && sock !in r.server.connected.entries
    ensures r.server.rooms == s.rooms && r.server.db == s.db && s.log <= r.server.log
  {
    var s1 := if s.connected.Has(sock) then s.(connected := s.connected.Delete(sock)) else s;
    var s2 := if s1.byUserId.Get(userId) == Some(sock) then s1.(byUserId := s1.byUserId.Delete(userId)) else s1;
    Result(s2.Send(ToSocket(sock), "join_error", JoinError("Failed to join the chat", e)), Raised(e))
  }

  /** The record stored for the new session. */
  function NewRecord(sock: SocketId, d: JoinData, now: Time): Connection {
    Connection(sock, d.username, d.userId, Online.Name(), d.channel, now, None, None, None, false, None, None, None)
  }

  /** Stores the updated user row and the record in both Maps, and joins the channel room. */
  function Admit(s: Server, sock: SocketId, d: JoinData, db': Db, now: Time): Server {
    s.(db := db',
       connected := s.connected.Set(sock, NewRecord(sock, d, now)),
       byUserId := s.byUserId.Set(d.userId, sock),
       rooms := Transport.Join(s.rooms, sock, d.channel))
  }

  /** The oldest messages of the channel, formatted as the join handler sends them. */
  function JoinHistory(db: Db, channel: Room): seq<ChatMessage> {
    FormatHistory(db, OldestChannelMessages(db, channel, HISTORY_LIMIT), channel, "channel", true)
  }

  /** Sends `message_history`, unless the history query failed (that failure is swallowed). */
  function SendHistory(s: Server, sock: SocketId, channel: Room, historyFails: bool): (r: Server)
    ensures r.connected == s.connected && r.byUserId == s.byUserId && r.rooms == s.rooms && r.db == s.db
    ensures s.log <= r.log
  {
    if historyFails then s
    else s.Send(ToSocket(sock), "message_history", MessageHistory(channel, JoinHistory(s.db, channel)))
  }

  /** The users list to both sides, `user_joined` to the socket, `user_channel_joined` to the room. */
  function Announce(s: Server, sock: SocketId, d: JoinData, name: Option<string>): (r: Server)
    ensures r.connected == s.connected && r.byUserId == s.byUserId && r.rooms == s.rooms && r.db == s.db
    ensures s.log <= r.log
  {
    var users := UniqueUsers(s);
    s.Send(ToSocket(sock), "users_list", UsersList(users))
     .Send(BroadcastExcept(sock), "users_list", UsersList(users))
     .Send(ToSocket(sock), "user_joined",
           UserJoined(d.username, d.userId, d.channel, "Successfully joined channel #" + NameText(name)))
     .Send(ToRoomExcept(d.channel, sock), "user_channel_joined",
           UserChannelJoined(d.username, d.userId, d.channel, None))
  }

  /** Everything after the eviction: the channel check, the store update, registration and announcements. */
  function Register(s: Server, sock: SocketId, d: JoinData, now: Time, historyFails: bool): (r: Result) {
    match FindChannel(s.db, d.channel)
    case None => Fail(s, sock, d.userId, Error("Channel with ID " + d.channel + " does not exist"))
    case Some(ch) =>
      match UpdateUserStatus(s.db, d.userId, Online, Some(now))
      case None => Fail(s, sock, d.userId, StoreError)
      case Some(db') =>
        var s2 := SendHistory(Admit(s, sock, d, db', now), sock, d.channel, historyFails);
        Result(Announce(s2, sock, d, ch.name), Completed)
  }

  /** The whole handler; `historyFails` stands for a failure of the history query. */
  function JoinChat(s: Server, sock: SocketId, d: JoinData, now: Time, historyFails: bool): Result {
    Register(Evict(s, sock, d.userId), sock, d, now, historyFails)
  }

  /** The handler run on the server object, step by step. */
  method HandleUserJoin(srv: ChatServer, sock: SocketId, d: JoinData, now: Time, historyFails: bool)
    returns (outcome: Outcome)
    modifies srv
    ensures srv.State() == JoinChat(old(srv.State()), sock, d, now, historyFails).server
    ensures outcome == JoinChat(old(srv.State()), sock, d, now, historyFails).outcome
  {
    EvictOldSocket(srv, sock, d.userId);
    ghost var s1 := srv.State();
    var channel := FindChannel(srv.db, d.channel);
    if channel.None? {
      outcome := RollBack(srv, sock, d.userId, Error("Channel with ID " + d.channel + " does not exist"));
      return;
    }
    var updated := UpdateUserStatus(srv.db, d.userId, Online, Some(now));
    if updated.None? {
      outcome := RollBack(srv, sock, d.userId, StoreError);
      return;
    }
    AdmitOn(srv, sock, d, updated.value, now);
    if !historyFails {
      srv.Send(ToSocket(sock), "message_history", MessageHistory(d.channel, JoinHistory(srv.db, d.channel)));
    }
    AnnounceJoin(srv, sock, d, channel.value.name);
    outcome := Completed;
  }

  /** The registration step on the server object. */
  method AdmitOn(srv: ChatServer, sock: SocketId, d: JoinData, db': Db, now: Time)
    modifies srv
    ensures srv.State() == Admit(old(srv.State()), sock, d, db', now)
  {
    srv.db := db';
    srv.connected := srv.connected.Set(sock, NewRecord(sock, d, now));
    srv.byUserId := srv.byUserId.Set(d.userId, sock);
    srv.rooms := Transport.Join(srv.rooms, sock, d.channel);
  }

  /** Lines 137-160 on the server object. */
  method AnnounceJoin(srv: ChatServer, sock: SocketId, d: JoinData, name: Option<string>)
    modifies srv
    ensures srv.State() == Announce(old(srv.State()), sock, d, name)
  {
    var users := UniqueUsers(srv.State());
    srv.Send(ToSocket(sock), "users_list", UsersList(users));
    srv.Send(BroadcastExcept(sock), "users_list", UsersList(users));
    srv.Send(ToSocket(sock), "user_joined",
             UserJoined(d.username, d.userId, d.channel, "Successfully joined channel #" + NameText(name)));
    srv.Send(ToRoomExcept(d.channel, sock), "user_channel_joined",
             UserChannelJoined(d.username, d.userId, d.channel, None));
  }

  /** Lines 17-34 on the server object. */
  method EvictOldSocket(srv: ChatServer, sock: SocketId, userId: UserId)
    modifies srv
    ensures srv.State() == Evict(old(srv.State()), sock, userId)
  {
    var existing := srv.byUserId.Get(userId);
    if existing.Some? && existing.value != "" && existing.value != sock {
      if existing.value in srv.rooms {
        srv.Send(ToSocket(existing.value), "force_disconnect", SESSION_REPLACED);
        srv.rooms := Drop(srv.rooms, existing.value);
      }
      srv.connected := srv.connected.Delete(existing.value);
      srv.byUserId := srv.byUserId.Delete(userId);
    }
  }

  /** The catch block on the server object. */
  method RollBack(srv: ChatServer, sock: SocketId, userId: UserId, e: Error) returns (outcome: Outcome)
    modifies srv
    ensures srv.State() == Fail(old(srv.State()), sock, userId, e).server
    ensures outcome == Raised(e)
  {
    if srv.connected.Has(sock) {
      srv.connected := srv.connected.Delete(sock);
    }
    if srv.byUserId.Get(userId) == Some(sock) {
      srv.byUserId := srv.byUserId.Delete(userId);
    }
    srv.Send(ToSocket(sock), "join_error", JoinError("Failed to join the chat", e));
    outcome := Raised(e);
  }

  /** After the eviction the handler touches no other socket's record or rooms, and only appends to the log. */
  lemma RegisterFrame(s: Server, sock: SocketId, d: JoinData, now: Time, historyFails: bool, other: SocketId)
    requires other != sock
    ensures var r := Register(s, sock, d, now, historyFails).server;
      && (other in r.connected.entries ==> other in s.connected.entries)
      && (other in r.rooms ==> other in s.rooms)
      && s.log <= r.log
  {
    match FindChannel(s.db, d.channel)
    case None =>
    case Some(ch) =>
      match UpdateUserStatus(s.db, d.userId, Online, Some(now))
      case None =>
      case Some(db') =>
        var a := Admit(s, sock, d, db', now);
        assert a.connected.entries == s.connected.entries[sock := NewRecord(sock, d, now)];
        assert a.rooms.Keys == s.rooms.Keys && a.log == s.log;
        var s2 := SendHistory(a, sock, d.channel, historyFails);
        assert Register(s, sock, d, now, historyFails).server == Announce(s2, sock, d, ch.name);
  }

  /**
   * Eviction: when the user id maps to a different, non-empty socket id, that socket's
   * record and rooms are gone afterwards whatever else happens, a still-live old socket
   * is sent `force_disconnect` with reason 'new_session', and on success the user id
   * maps to the new socket.
   */
  lemma EvictsOldSession(s: Server, sock: SocketId, d: JoinData, now: Time, historyFails: bool)
    requires s.byUserId.Valid() && s.connected.Valid()
    requires s.byUserId.Get(d.userId).Some? && s.byUserId.Get(d.userId).value !in {"", sock}
    ensures var prev := s.byUserId.Get(d.userId).value;
      var r := JoinChat(s, sock, d, now, historyFails);
      && prev !in r.server.connected.entries
      && prev !in r.server.rooms
      && (prev in s.rooms ==> Emit(ToSocket(prev), "force_disconnect", SESSION_REPLACED) in r.server.log)
      && (r.outcome == Completed ==> r.server.byUserId.Get(d.userId) == Some(sock))
  {
    var prev := s.byUserId.Get(d.userId).value;
    var s1 := Evict(s, sock, d.userId);
    assert prev !in s1.connected.entries && prev !in s1.rooms;
    assert prev in s.rooms ==> Emit(ToSocket(prev), "force_disconnect", SESSION_REPLACED) in s1.log;
    RegisterFrame(s1, sock, d, now, historyFails, prev);
  }

  /**
   * A join naming a channel that does not exist raises, reports `join_error` last, leaves
   * this socket with no record and the user id not pointing at it, and changes no row.
   */
  lemma UnknownChannelFails(s: Server, sock: SocketId, d: JoinData, now: Time, historyFails: bool)
    requires !HasChannel(s.db, d.channel)
    ensures var r := JoinChat(s, sock, d, now, historyFails);
      var e := Error("Channel with ID " + d.channel + " does not exist");
      && r.outcome == Raised(e)
      && sock !in r.server.connected.entries
      && r.server.byUserId.Get(d.userId) != Some(sock)
      && r.server.db == s.db
      && r.server.log[|r.server.log| - 1] == Emit(ToSocket(sock), "join_error", JoinError("Failed to join the chat", e))
  {
  }

  /**
   * The error path deletes `usersByUserId[userId]` only when it still points at this
   * socket; an entry pointing elsewhere survives.
   */
  lemma FailKeepsForeignOwner(s: Server, sock: SocketId, userId: UserId, e: Error)
    requires s.byUserId.Get(userId).Some? && s.byUserId.Get(userId).value != sock
    ensures Fail(s, sock, userId, e).server.byUserId == s.byUserId
    ensures sock !in Fail(s, sock, userId, e).server.connected.entries
  {
  }

  /**
   * A successful join stores a record for this socket with the requested channel and
   * status 'ONLINE', maps the user id to the socket, joins the channel room and marks
   * the stored user online.
   */
  lemma JoinSuccess(s: Server, sock: SocketId, d: JoinData, now: Time, historyFails: bool)
    requires HasChannel(s.db, d.channel) && HasUser(s.db, d.userId)
    ensures var r := JoinChat(s, sock, d, now, historyFails);
      && r.outcome == Completed
      && r.server.connected.Get(sock) == Some(NewRecord(sock, d, now))
      && NewRecord(sock, d, now).status == "ONLINE" && NewRecord(sock, d, now).currentChannel == d.channel
      && r.server.byUserId.Get(d.userId) == Some(sock)
      && (sock in s.rooms ==> InRoom(r.server.rooms, sock, d.channel))
      && StatusOf(r.server.db, d.userId) == Some(Online)
  {
    var s1 := Evict(s, sock, d.userId);
    var ch := FindChannel(s1.db, d.channel).value;
    var db' := UpdateUserStatus(s1.db, d.userId, Online, Some(now)).value;
    StatusAfterUpdate(s1.db, d.userId, Online, Some(now));
    var a := Admit(s1, sock, d, db', now);
    assert a.connected.entries == s1.connected.entries[sock := NewRecord(sock, d, now)];
    assert a.byUserId.entries == s1.byUserId.entries[d.userId := sock];
    assert sock in s.rooms ==> InRoom(a.rooms, sock, d.channel);
    var s2 := SendHistory(a, sock, d.channel, historyFails);
    var r := Announce(s2, sock, d, ch.name);
    assert r.rooms == a.rooms;
    assert JoinChat(s, sock, d, now, historyFails) == Result(r, Completed);
  }

  /**
   * A failure of the history query changes nothing but the missing `message_history`
   * event: the join still completes with the same registry and rooms, and otherwise the
   * join history is sent to the socket.
   */
  lemma HistoryIsOptional(s: Server, sock: SocketId, d: JoinData, now: Time)
    requires HasChannel(s.db, d.channel) && HasUser(s.db, d.userId)
    ensures var ok := JoinChat(s, sock, d, now, false);
      var failed := JoinChat(s, sock, d, now, true);
      && failed.outcome == Completed
      && failed.server.connected == ok.server.connected
      && failed.server.byUserId == ok.server.byUserId
      && failed.server.rooms == ok.server.rooms
      && Emit(ToSocket(sock), "message_history", MessageHistory(d.channel, JoinHistory(ok.server.db, d.channel)))
         in ok.server.log
  {
    var s1 := Evict(s, sock, d.userId);
    var db' := UpdateUserStatus(s1.db, d.userId, Online, Some(now)).value;
    var a := Admit(s1, sock, d, db', now);
    var s2 := SendHistory(a, sock, d.channel, false);
    assert s2.log[|s2.log| - 1] == Emit(ToSocket(sock), "message_history", MessageHistory(d.channel, JoinHistory(db', d.channel)));
    assert s2.log <= JoinChat(s, sock, d, now, false).server.log;
  }

  /** The join history holds the first 50 messages of the channel, each with its stored id, text and deletion flag. */
  lemma JoinHistoryIsOldest(db: Db, channel: Room)
    ensures var h := JoinHistory(db, channel);
      var all := ChannelMessages(db, channel);
      && |h| == (if |all| < HISTORY_LIMIT then |all| else HISTORY_LIMIT)
      && forall i :: 0 <= i < |h| ==> h[i].id == all[i].id && h[i].text == all[i].content && h[i].isDeleted == Some(all[i].isDeleted)
  {
  }

  /** A join keeps the registry invariant, on success and on failure alike. */
  lemma JoinPreservesConsistent(s: Server, sock: SocketId, d: JoinData, now: Time, historyFails: bool)
    requires Consistent(s) && sock != ""
    ensures Consistent(JoinChat(s, sock, d, now, historyFails).server)
  {
    var s1 := Evict(s, sock, d.userId);
    EvictPreservesConsistent(s, sock, d.userId);
    match FindChannel(s1.db, d.channel)
    case None => FailPreservesConsistent(s1, sock, d.userId, Error("Channel with ID " + d.channel + " does not exist"));
    case Some(ch) =>
      match UpdateUserStatus(s1.db, d.userId, Online, Some(now))
      case None => FailPreservesConsistent(s1, sock, d.userId, StoreError);
      case Some(db') => AdmitPreservesConsistent(s1, sock, d, db', now);
  }

  lemma EvictPreservesConsistent(s: Server, sock: SocketId, userId: UserId)
    requires Consistent(s)
    ensures var r := Evict(s, sock, userId);
      && Consistent(r)
      && forall k :: k in r.connected.entries && k != sock ==> r.connected.entries[k].userId != userId
  {
    var r := Evict(s, sock, userId);
    forall k | k in r.connected.entries && k != sock ensures r.connected.entries[k].userId != userId {
      assert r.connected.entries[k] == s.connected.entries[k];
    }
  }

  lemma AdmitPreservesConsistent(s: Server, sock: SocketId, d: JoinData, db': Db, now: Time)
    requires Consistent(s) && sock != ""
    requires forall k :: k in s.connected.entries && k != sock ==> s.connected.entries[k].userId != d.userId
    ensures Consistent(Admit(s, sock, d, db', now))
  {
    var r := Admit(s, sock, d, db', now);
    forall k | k in r.connected.entries
      ensures r.connected.entries[k].userId in r.byUserId.entries
      ensures r.byUserId.entries[r.connected.entries[k].userId] == k
    {
      if k != sock {
        assert r.connected.entries[k] == s.connected.entries[k];
      }
    }
  }

  lemma FailPreservesConsistent(s: Server, sock: SocketId, userId: UserId, e: Error)
    requires Consistent(s)
    ensures Consistent(Fail(s, sock, userId, e).server)
  {
  }
}
