/**
 * `handleTypingEvents`: typing indicators. Start and stop mark the connection record
 * and tell the other sockets in the channel; the channel is the one the event names
 * or else the record's current channel. A failure sends `typing_error` and rethrows.
 * `cleanupTypingStatus` clears a pending indicator (on disconnect) and tells the room.
 */
module TypingEvents {
  import opened Wrappers
  import opened JsMaps
  import opened Store
  import opened Transport
  import opened Session

  /** The catch block of either handler; `event` is 'typing_start' or 'typing_stop'. */
  function Fail(s: Server, sock: SocketId, event: string, e: Error): (r: Result)
    ensures r.outcome == Raised(e)
    ensures r.server.connected == s.connected && r.server.byUserId == s.byUserId
    ensures r.server.rooms == s.rooms && r.server.db == s.db
  {
    Result(s.Send(ToSocket(sock), "typing_error", TypingError("Failed to broadcast typing status", event, e)), Raised(e))
  }

  /** `data?.channel || user.currentChannel`. */
  function TypingChannel(requested: Option<Room>, user: Connection): Room {
    OrElse(requested, user.currentChannel)
  }

  /** `handleTypingStart`; `requested` is `data?.channel` (absent when `data` is) and `now` the start time. */
  function TypingStart(s: Server, sock: SocketId, requested: Option<Room>, now: Time): (r: Result) {
    match UserOf(s, sock)
    case None => Fail(s, sock, "typing_start", Error("User not found in connected users"))
    case Some(user) =>
      var channel := TypingChannel(requested, user);
      if channel == "" then Fail(s, sock, "typing_start", Error("No channel specified for typing event"))
      else
        var u := user.(isTyping := true, typingInChannel := Some(channel), typingStartedAt := Some(now));
        var s1 := s.(connected := s.connected.Set(sock, u));
        Result(s1.Send(ToRoomExcept(channel, sock), "user_typing", UserTyping(u.username, u.userId, channel, true, None)),
               Completed)
  }

  /** `handleTypingStop`; `now` is the stop time. */
  function TypingStop(s: Server, sock: SocketId, requested: Option<Room>, now: Time): (r: Result) {
    match UserOf(s, sock)
    case None => Fail(s, sock, "typing_stop", Error("User not found in connected users"))
    case Some(user) =>
      var channel := TypingChannel(requested, user);
      if channel == "" then Fail(s, sock, "typing_stop", Error("No channel specified for typing event"))
      else
        var u := user.(isTyping := false, typingInChannel := None, typingStoppedAt := Some(now));
        var s1 := s.(connected := s.connected.Set(sock, u));
        Result(s1.Send(ToRoomExcept(channel, sock), "user_typing", UserTyping(u.username, u.userId, channel, false, None)),
               Completed)
  }

  /** `cleanupTypingStatus` applied to the record stored under `sock`. */
  function Cleanup(s: Server, sock: SocketId): (r: Server)
    ensures r.byUserId == s.byUserId && r.rooms == s.rooms && r.db == s.db
  {
    match UserOf(s, sock)
    case None => s
    case Some(user) =>
      if user.isTyping && Truthy(user.typingInChannel) then
        var channel := user.typingInChannel.value;
        var s1 := s.Send(ToRoomExcept(channel, sock), "user_typing",
                         UserTyping(user.username, user.userId, channel, false, Some("user_disconnected")));
        s1.(connected := s1.connected.Set(sock, user.(isTyping := false, typingInChannel := None)))
      else s
  }

  /** `handleTypingStart` run on the server object. */
  method HandleTypingStart(srv: ChatServer, sock: SocketId, requested: Option<Room>, now: Time) returns (outcome: Outcome)
    modifies srv
    ensures srv.State() == TypingStart(old(srv.State()), sock, requested, now).server
    ensures outcome == TypingStart(old(srv.State()), sock, requested, now).outcome
  {
    var user := srv.connected.Get(sock);
    var e: Error;
    if user.None? {
      e := Error("User not found in connected users");
    } else {
      var channel := TypingChannel(requested, user.value);
      if channel != "" {
        var u := user.value.(isTyping := true, typingInChannel := Some(channel), typingStartedAt := Some(now));
        srv.SetUser(sock, u);
        srv.Send(ToRoomExcept(channel, sock), "user_typing", UserTyping(u.username, u.userId, channel, true, None));
        return Completed;
      }
      e := Error("No channel specified for typing event");
    }
    srv.Send(ToSocket(sock), "typing_error", TypingError("Failed to broadcast typing status", "typing_start", e));
    outcome := Raised(e);
  }

  /** `handleTypingStop` run on the server object. */
  method HandleTypingStop(srv: ChatServer, sock: SocketId, requested: Option<Room>, now: Time) returns (outcome: Outcome)
    modifies srv
    ensures srv.State() == TypingStop(old(srv.State()), sock, requested, now).server
    ensures outcome == TypingStop(old(srv.State()), sock, requested, now).outcome
  {
    var user := srv.connected.Get(sock);
    var e: Error;
    if user.None? {
      e := Error("User not found in connected users");
    } else {
      var channel := TypingChannel(requested, user.value);
      if channel != "" {
        var u := user.value.(isTyping := false, typingInChannel := None, typingStoppedAt := Some(now));
        srv.SetUser(sock, u);
        srv.Send(ToRoomExcept(channel, sock), "user_typing", UserTyping(u.username, u.userId, channel, false, None));
        return Completed;
      }
      e := Error("No channel specified for typing event");
    }
    srv.Send(ToSocket(sock), "typing_error", TypingError("Failed to broadcast typing status", "typing_stop", e));
    outcome := Raised(e);
  }

  /** `cleanupTypingStatus` run on the server object. */
  method CleanupTypingStatus(srv: ChatServer, sock: SocketId)
    modifies srv
    ensures srv.State() == Cleanup(old(srv.State()), sock)
  {
    var user := srv.connected.Get(sock);
    if user.Some? && user.value.isTyping && Truthy(user.value.typingInChannel) {
      var channel := user.value.typingInChannel.value;
      srv.Send(ToRoomExcept(channel, sock), "user_typing",
               UserTyping(user.value.username, user.value.userId, channel, false, Some("user_disconnected")));
      srv.SetUser(sock, user.value.(isTyping := false, typingInChannel := None));
    }
  }

  // ---- Properties ----

  /**
   * Start: an unregistered socket, or no channel either named or current, raises after
   * `typing_error` and changes nothing else. Otherwise the record is marked as typing in
   * the named channel (else the current one) since `now`, and only that channel's other
   * sockets hear it; the rooms and the store do not change.
   */
  lemma TypingStartSpec(s: Server, sock: SocketId, requested: Option<Room>, now: Time)
    ensures var r := TypingStart(s, sock, requested, now);
      && (r.outcome.Raised? <==> UserOf(s, sock).None? || TypingChannel(requested, UserOf(s, sock).value) == "")
      && (r.outcome.Raised? ==> r.server == s.Send(ToSocket(sock), "typing_error",
                                  TypingError("Failed to broadcast typing status", "typing_start", r.outcome.error)))
      && (UserOf(s, sock).Some? && TypingChannel(requested, UserOf(s, sock).value) == "" ==>
            r.outcome == Raised(Error("No channel specified for typing event")))
      && (!r.outcome.Raised? ==>
            var user := UserOf(s, sock).value;
            var channel := if Truthy(requested) then requested.value else user.currentChannel;
            && UserOf(r.server, sock) == Some(user.(isTyping := true, typingInChannel := Some(channel),
                                                    typingStartedAt := Some(now)))
            && r.server.log == s.log + [Emit(ToRoomExcept(channel, sock), "user_typing",
                                             UserTyping(user.username, user.userId, channel, true, None))]
            && r.server.rooms == s.rooms && r.server.db == s.db && r.server.byUserId == s.byUserId)
  {
  }

  /**
   * Stop: the same errors; otherwise the record is no longer typing anywhere, stopped at
   * `now`, and the chosen channel's other sockets hear it.
   */
  lemma TypingStopSpec(s: Server, sock: SocketId, requested: Option<Room>, now: Time)
    ensures var r := TypingStop(s, sock, requested, now);
      && (r.outcome.Raised? <==> UserOf(s, sock).None? || TypingChannel(requested, UserOf(s, sock).value) == "")
      && (r.outcome.Raised? ==> r.server == s.Send(ToSocket(sock), "typing_error",
                                  TypingError("Failed to broadcast typing status", "typing_stop", r.outcome.error)))
      && (!r.outcome.Raised? ==>
            var user := UserOf(s, sock).value;
            var channel := if Truthy(requested) then requested.value else user.currentChannel;
            && UserOf(r.server, sock) == Some(user.(isTyping := false, typingInChannel := None, typingStoppedAt := Some(now)))
            && r.server.log == s.log + [Emit(ToRoomExcept(channel, sock), "user_typing",
                                             UserTyping(user.username, user.userId, channel, false, None))]
            && r.server.rooms == s.rooms && r.server.db == s.db && r.server.byUserId == s.byUserId)
  {
  }

  /**
   * A start followed by a stop for the same channel leaves the record not typing, tells
   * the same room twice, first `isTyping: true` and then `false`, and changes nothing
   * else on the record but the two timestamps.
   */
  lemma StartThenStop(s: Server, sock: SocketId, requested: Option<Room>, t1: Time, t2: Time)
    requires UserOf(s, sock).Some? && TypingChannel(requested, UserOf(s, sock).value) != ""
    ensures var r1 := TypingStart(s, sock, requested, t1);
      var r2 := TypingStop(r1.server, sock, requested, t2);
      var user := UserOf(s, sock).value;
      var channel := TypingChannel(requested, user);
      && r2.outcome == Completed
      && UserOf(r2.server, sock) == Some(user.(isTyping := false, typingInChannel := None,
                                               typingStartedAt := Some(t1), typingStoppedAt := Some(t2)))
      && r2.server.log == s.log + [Emit(ToRoomExcept(channel, sock), "user_typing",
                                        UserTyping(user.username, user.userId, channel, true, None)),
                                   Emit(ToRoomExcept(channel, sock), "user_typing",
                                        UserTyping(user.username, user.userId, channel, false, None))]
  {
  }

  /**
   * Cleanup tells the room a typing record was typing in, with reason
   * 'user_disconnected', and clears the flags; a record not typing (or typing nowhere)
   * is left alone. Running it twice is the same as once.
   */
  lemma CleanupSpec(s: Server, sock: SocketId)
    ensures var r := Cleanup(s, sock);
      && Cleanup(r, sock) == r
      && (UserOf(r, sock).Some? ==> !(UserOf(r, sock).value.isTyping && Truthy(UserOf(r, sock).value.typingInChannel)))
      && (r != s <==> UserOf(s, sock).Some? && UserOf(s, sock).value.isTyping && Truthy(UserOf(s, sock).value.typingInChannel))
      && (r != s ==>
            var user := UserOf(s, sock).value;
            var channel := user.typingInChannel.value;
            && r.log == s.log + [Emit(ToRoomExcept(channel, sock), "user_typing",
                                      UserTyping(user.username, user.userId, channel, false, Some("user_disconnected")))]
            && UserOf(r, sock) == Some(user.(isTyping := false, typingInChannel := None)))
  {
  }

  /** None of the three changes a record's socket id or user id, so the registry invariant is kept. */
  lemma TypingPreservesConsistent(s: Server, sock: SocketId, requested: Option<Room>, now: Time)
    requires Consistent(s)
    ensures Consistent(TypingStart(s, sock, requested, now).server)
    ensures Consistent(TypingStop(s, sock, requested, now).server)
    ensures Consistent(Cleanup(s, sock))
  {
    if UserOf(s, sock).Some? {
      var user := UserOf(s, sock).value;
      var channel := TypingChannel(requested, user);
      if channel != "" {
        UpdateRecordPreservesConsistent(s, sock,
          user.(isTyping := true, typingInChannel := Some(channel), typingStartedAt := Some(now)),
          TypingStart(s, sock, requested, now).server);
        UpdateRecordPreservesConsistent(s, sock,
          user.(isTyping := false, typingInChannel := None, typingStoppedAt := Some(now)),
          TypingStop(s, sock, requested, now).server);
      } else {
        SameRegistryConsistent(s, TypingStart(s, sock, requested, now).server);
        SameRegistryConsistent(s, TypingStop(s, sock, requested, now).server);
      }
      if user.isTyping && Truthy(user.typingInChannel) {
        UpdateRecordPreservesConsistent(s, sock, user.(isTyping := false, typingInChannel := None), Cleanup(s, sock));
      }
    } else {
      SameRegistryConsistent(s, TypingStart(s, sock, requested, now).server);
      SameRegistryConsistent(s, TypingStop(s, sock, requested, now).server);
    }
  }
}
