/**
 * `handleJoinChannel`: moves a registered socket from its current channel to
 * another one. The requested id is trimmed and must name an existing channel;
 * only then is the previous room left (with `user_channel_left` to the ones who
 * stay), the new room joined, the record's `currentChannel` and
 * `lastChannelSwitch` updated, the oldest 50 messages sent and the switch
 * announced. Any failure sends `channel_join_error` and rethrows.
 */
module JoinChannel {
  import opened Wrappers
  import opened Text
  import opened JsMaps
  import opened Store
  import opened Transport
  import opened Session

  const HISTORY_LIMIT: nat := 50

  /** The catch block: report the error with the channel as requested, and rethrow. */
  function Fail(s: Server, sock: SocketId, requested: Option<string>, e: Error): (r: Result)
    ensures r.outcome == Raised(e)
    ensures r.server.connected == s.connected && r.server.byUserId == s.byUserId
    ensures r.server.rooms == s.rooms && r.server.db == s.db && s.log <= r.server.log
  {
    Result(s.Send(ToSocket(sock), "channel_join_error", ChannelJoinError("Failed to join channel", requested, e)), Raised(e))
  }

  /** The history sent after a switch: the oldest 50 messages, typed 'text', without deletion flags. */
  function SwitchHistory(db: Db, channel: Room): seq<ChatMessage> {
    FormatHistory(db, OldestChannelMessages(db, channel, HISTORY_LIMIT), channel, "text", false)
  }

  /** The record after the switch. */
  function Switched(user: Connection, channel: Room, now: Time): Connection {
    user.(currentChannel := channel, lastChannelSwitch := Some(now))
  }

  /** Leaves the previous room, if there is one, and tells its other members. */
  function LeavePrevious(s: Server, sock: SocketId, user: Connection, channel: Room): (r: Server)
    ensures r.connected == s.connected && r.byUserId == s.byUserId && r.db == s.db && s.log <= r.log
    ensures r.rooms == if user.currentChannel != "" then Leave(s.rooms, sock, user.currentChannel) else s.rooms
  {
    var prev := user.currentChannel;
    if prev != "" then
      s.(rooms := Leave(s.rooms, sock, prev))
       .Send(ToRoomExcept(prev, sock), "user_channel_left",
             UserChannelLeft(user.username, user.userId, prev, Some(channel), None))
    else s
  }

  /** Joins the new room, updates the record, sends the history and announces the switch. */
  function EnterChannel(s: Server, sock: SocketId, user: Connection, channel: Room, name: Option<string>,
                        now: Time, historyFails: bool): (r: Server)
    ensures r.byUserId == s.byUserId && r.db == s.db && s.log <= r.log
    ensures r.connected == s.connected.Set(sock, Switched(user, channel, now))
    ensures r.rooms == Transport.Join(s.rooms, sock, channel)
  {
    var prev := user.currentChannel;
    var s1 := s.(rooms := Transport.Join(s.rooms, sock, channel),
                 connected := s.connected.Set(sock, Switched(user, channel, now)));
    var s2 :=
      if historyFails then s1
      else s1.Send(ToSocket(sock), "message_history", MessageHistory(channel, SwitchHistory(s1.db, channel)));
    s2.Send(ToSocket(sock), "channel_joined", ChannelJoined(channel, prev, "Successfully joined channel #" + NameText(name)))
      .Send(ToRoomExcept(channel, sock), "user_channel_joined",
            UserChannelJoined(user.username, user.userId, channel, Some(prev)))
  }

  /** The whole handler; `requested` is `channelData.channel`, absent when the field is missing. */
  function SwitchChannel(s: Server, sock: SocketId, requested: Option<string>, now: Time, historyFails: bool): (r: Result) {
    match UserOf(s, sock)
    case None => Fail(s, sock, requested, Error("User not found in connected users"))
    case Some(user) =>
      match requested
      case None => Fail(s, sock, requested, TypeError)
      case Some(raw) =>
        var channel := Trim(raw);
        if channel == "" then Fail(s, sock, requested, Error("Channel ID cannot be empty"))
        else
          match FindChannel(s.db, channel)
          case None => Fail(s, sock, requested, Error("Channel with ID " + channel + " does not exist"))
          case Some(ch) =>
            Result(EnterChannel(LeavePrevious(s, sock, user, channel), sock, user, channel, ch.name, now, historyFails),
                   Completed)
  }

  /** A successful request is the previous room's leave followed by the new room's entry. */
  lemma SwitchSucceeds(s: Server, sock: SocketId, raw: string, now: Time, historyFails: bool)
    requires UserOf(s, sock).Some? && Trim(raw) != "" && FindChannel(s.db, Trim(raw)).Some?
    ensures SwitchChannel(s, sock, Some(raw), now, historyFails)
         == Result(EnterChannel(LeavePrevious(s, sock, UserOf(s, sock).value, Trim(raw)), sock, UserOf(s, sock).value,
                                Trim(raw), FindChannel(s.db, Trim(raw)).value.name, now, historyFails), Completed)
  {
  }

  /** The leave step on the server object. */
  method LeavePreviousOn(srv: ChatServer, sock: SocketId, user: Connection, channel: Room)
    modifies srv
    ensures srv.State() == LeavePrevious(old(srv.State()), sock, user, channel)
  {
    var prev := user.currentChannel;
    if prev != "" {
      srv.rooms := Leave(srv.rooms, sock, prev);
      srv.Send(ToRoomExcept(prev, sock), "user_channel_left",
               UserChannelLeft(user.username, user.userId, prev, Some(channel), None));
    }
  }

  /** The entry step on the server object. */
  method EnterChannelOn(srv: ChatServer, sock: SocketId, user: Connection, channel: Room, name: Option<string>,
                        now: Time, historyFails: bool)
    modifies srv
    ensures srv.State() == EnterChannel(old(srv.State()), sock, user, channel, name, now, historyFails)
  {
    var prev := user.currentChannel;
    srv.rooms := Transport.Join(srv.rooms, sock, channel);
    srv.SetUser(sock, Switched(user, channel, now));
    if !historyFails {
      srv.Send(ToSocket(sock), "message_history", MessageHistory(channel, SwitchHistory(srv.db, channel)));
    }
    srv.Send(ToSocket(sock), "channel_joined",
             ChannelJoined(channel, prev, "Successfully joined channel #" + NameText(name)));
    srv.Send(ToRoomExcept(channel, sock), "user_channel_joined",
             UserChannelJoined(user.username, user.userId, channel, Some(prev)));
  }

  /** The handler run on the server object, step by step. */
  method HandleJoinChannel(srv: ChatServer, sock: SocketId, requested: Option<string>, now: Time, historyFails: bool)
    returns (outcome: Outcome)
    modifies srv
    ensures srv.State() == SwitchChannel(old(srv.State()), sock, requested, now, historyFails).server
    ensures outcome == SwitchChannel(old(srv.State()), sock, requested, now, historyFails).outcome
  {
    var user := srv.connected.Get(sock);
    var failure: Option<Error> := None;
    if user.None? {
      failure := Some(Error("User not found in connected users"));
    } else if requested.None? {
      failure := Some(TypeError);
    } else {
      var channel := Trim(requested.value);
      if channel == "" {
        failure := Some(Error("Channel ID cannot be empty"));
      } else {
        var record := FindChannel(srv.db, channel);
        if record.None? {
          failure := Some(Error("Channel with ID " + channel + " does not exist"));
        } else {
          SwitchSucceeds(srv.State(), sock, requested.value, now, historyFails);
          LeavePreviousOn(srv, sock, user.value, channel);
          EnterChannelOn(srv, sock, user.value, channel, record.value.name, now, historyFails);
        }
      }
    }
    if failure.Some? {
      srv.Send(ToSocket(sock), "channel_join_error", ChannelJoinError("Failed to join channel", requested, failure.value));
      outcome := Raised(failure.value);
    } else {
      outcome := Completed;
    }
  }

  /**
   * Every failure (unregistered socket, missing field, blank id after trimming, unknown
   * channel) raises and changes nothing but appending `channel_join_error` with the
   * channel as requested: no room is left and `currentChannel` stays as it was. The
   * failures are exactly these cases.
   */
  lemma FailureChangesNothing(s: Server, sock: SocketId, requested: Option<string>, now: Time, historyFails: bool)
    ensures var r := SwitchChannel(s, sock, requested, now, historyFails);
      var ok := UserOf(s, sock).Some? && requested.Some? && Trim(requested.value) != ""
                && HasChannel(s.db, Trim(requested.value));
      && (r.outcome.Raised? <==> !ok)
      && (r.outcome.Raised? ==>
            r.server == s.Send(ToSocket(sock), "channel_join_error",
                               ChannelJoinError("Failed to join channel", requested, r.outcome.error)))
      && (UserOf(s, sock).None? ==> r.outcome == Raised(Error("User not found in connected users")))
      && (UserOf(s, sock).Some? && requested.Some? && Trim(requested.value) == "" ==>
            r.outcome == Raised(Error("Channel ID cannot be empty")))
      && (UserOf(s, sock).Some? && requested.Some? && Trim(requested.value) != "" && !HasChannel(s.db, Trim(requested.value)) ==>
            r.outcome == Raised(Error("Channel with ID " + Trim(requested.value) + " does not exist")))
  {
  }

  /**
   * A successful switch stores the trimmed id as `currentChannel` (keeping every other
   * field of the record but `lastChannelSwitch`), leaves the previous room unless it is
   * the socket's own or the new one, joins the new room, and changes no other record.
   */
  lemma SwitchSuccess(s: Server, sock: SocketId, raw: string, now: Time, historyFails: bool)
    requires UserOf(s, sock).Some? && Trim(raw) != "" && HasChannel(s.db, Trim(raw))
    ensures var user := UserOf(s, sock).value;
      var prev := user.currentChannel;
      var r := SwitchChannel(s, sock, Some(raw), now, historyFails);
      && r.outcome == Completed
      && r.server.connected.Get(sock) == Some(user.(currentChannel := Trim(raw), lastChannelSwitch := Some(now)))
      && r.server.connected.keys == s.connected.keys
      && (forall k :: k in s.connected.entries && k != sock ==> r.server.connected.Get(k) == s.connected.Get(k))
      && r.server.byUserId == s.byUserId && r.server.db == s.db
      && (sock in s.rooms ==> InRoom(r.server.rooms, sock, Trim(raw)))
      && (sock in s.rooms && prev != "" && prev != sock && prev != Trim(raw) ==> !InRoom(r.server.rooms, sock, prev))
  {
    var user := UserOf(s, sock).value;
    var prev := user.currentChannel;
    var channel := Trim(raw);
    SwitchSucceeds(s, sock, raw, now, historyFails);
    var s1 := LeavePrevious(s, sock, user, channel);
    if sock in s.rooms {
      assert sock in s1.rooms;
      JoinSpec(s1.rooms, sock, channel);
      if prev != "" && prev != sock && prev != channel {
        LeaveSpec(s.rooms, sock, prev);
      }
    }
  }

  /**
   * The previous channel: `channel_joined` reports the `currentChannel` held before the
   * call, and `user_channel_left` is sent to the previous room exactly when there was one.
   */
  lemma ReportsPreviousChannel(s: Server, sock: SocketId, raw: string, now: Time, historyFails: bool)
    requires UserOf(s, sock).Some? && Trim(raw) != "" && HasChannel(s.db, Trim(raw))
    ensures var user := UserOf(s, sock).value;
      var prev := user.currentChannel;
      var channel := Trim(raw);
      var r := SwitchChannel(s, sock, Some(raw), now, historyFails);
      var left := Emit(ToRoomExcept(prev, sock), "user_channel_left",
                       UserChannelLeft(user.username, user.userId, prev, Some(channel), None));
      && r.server.log[|r.server.log| - 2].payload.ChannelJoined?
      && r.server.log[|r.server.log| - 2].payload.previous == prev
      && (prev != "" <==> left in r.server.log[|s.log|..])
  {
    var user := UserOf(s, sock).value;
    var prev := user.currentChannel;
    var channel := Trim(raw);
    var left := Emit(ToRoomExcept(prev, sock), "user_channel_left",
                     UserChannelLeft(user.username, user.userId, prev, Some(channel), None));
    var s1 := LeavePrevious(s, sock, user, channel);
    var ch := FindChannel(s.db, channel).value;
    SwitchSucceeds(s, sock, raw, now, historyFails);
    var r := EnterChannel(s1, sock, user, channel, ch.name, now, historyFails);
    EnterChannelLog(s1, sock, user, channel, ch.name, now, historyFails);
    if prev != "" {
      assert s1.log[|s.log|] == left;
      assert r.log[|s.log|] == left;
    } else {
      assert s1 == s;
    }
  }

  /** The entry step ends with `channel_joined` and `user_channel_joined` and sends no `user_channel_left`. */
  lemma EnterChannelLog(s: Server, sock: SocketId, user: Connection, channel: Room, name: Option<string>,
                        now: Time, historyFails: bool)
    ensures var r := EnterChannel(s, sock, user, channel, name, now, historyFails);
      && |r.log| >= |s.log| + 2
      && r.log[|r.log| - 2] == Emit(ToSocket(sock), "channel_joined",
                                    ChannelJoined(channel, user.currentChannel, "Successfully joined channel #" + NameText(name)))
      && forall i :: |s.log| <= i < |r.log| ==> r.log[i].event != "user_channel_left"
  {
  }

  /**
   * Rejoining the current channel still leaves and rejoins it: `user_channel_left` is sent,
   * the socket ends up in the room and the history is sent again.
   */
  lemma RejoinCurrentChannel(s: Server, sock: SocketId, raw: string, now: Time)
    requires UserOf(s, sock).Some? && UserOf(s, sock).value.currentChannel == Trim(raw)
    requires Trim(raw) != "" && HasChannel(s.db, Trim(raw)) && sock in s.rooms
    ensures var user := UserOf(s, sock).value;
      var r := SwitchChannel(s, sock, Some(raw), now, false);
      && Emit(ToRoomExcept(Trim(raw), sock), "user_channel_left",
              UserChannelLeft(user.username, user.userId, Trim(raw), Some(Trim(raw)), None)) in r.server.log
      && InRoom(r.server.rooms, sock, Trim(raw))
      && Emit(ToSocket(sock), "message_history", MessageHistory(Trim(raw), SwitchHistory(s.db, Trim(raw)))) in r.server.log
  {
    var user := UserOf(s, sock).value;
    var channel := Trim(raw);
    var s1 := LeavePrevious(s, sock, user, channel);
    var r := SwitchChannel(s, sock, Some(raw), now, false).server;
    assert s1.log[|s.log|] == r.log[|s.log|];
    assert r.log[|s1.log|] == Emit(ToSocket(sock), "message_history", MessageHistory(channel, SwitchHistory(s.db, channel)));
  }

  /**
   * A failure of the history query does not abort the switch: the registry, the rooms and
   * the outcome are the same as when it succeeds.
   */
  lemma HistoryFailureTolerated(s: Server, sock: SocketId, requested: Option<string>, now: Time)
    ensures var ok := SwitchChannel(s, sock, requested, now, false);
      var failed := SwitchChannel(s, sock, requested, now, true);
      && failed.outcome == ok.outcome
      && failed.server.connected == ok.server.connected
      && failed.server.byUserId == ok.server.byUserId
      && failed.server.rooms == ok.server.rooms
  {
    if UserOf(s, sock).Some? && requested.Some? && Trim(requested.value) != "" && FindChannel(s.db, Trim(requested.value)).Some? {
      SwitchSucceeds(s, sock, requested.value, now, false);
      SwitchSucceeds(s, sock, requested.value, now, true);
    }
  }

  /** A switch keeps the registry invariant. */
  lemma SwitchPreservesConsistent(s: Server, sock: SocketId, requested: Option<string>, now: Time, historyFails: bool)
    requires Consistent(s)
    ensures Consistent(SwitchChannel(s, sock, requested, now, historyFails).server)
  {
    var r := SwitchChannel(s, sock, requested, now, historyFails);
    if r.outcome == Completed {
      var user := UserOf(s, sock).value;
      var channel := Trim(requested.value);
      SwitchSucceeds(s, sock, requested.value, now, historyFails);
      UpdateRecordPreservesConsistent(s, sock, Switched(user, channel, now), r.server);
    } else {
      SameRegistryConsistent(s, r.server);
    }
  }
}
