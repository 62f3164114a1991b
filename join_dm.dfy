/**
 * `handleJoinDM`: puts a registered socket in the room of a direct-message
 * conversation and remembers the conversation on the record. The room id is
 * the two user ids sorted and joined with '-', so both participants compute
 * the same room.
 */
module JoinDM {
  import opened Wrappers
  import opened Text
  import opened JsMaps
  import opened Transport
  import opened Session

  /** `[a, b].sort().join('-')`. */
  function DmRoom(a: UserId, b: UserId): Room {
    if LexLe(a, b) then a + "-" + b else b + "-" + a
  }

  /** The room id does not depend on which participant computes it. */
  lemma DmRoomSymmetric(a: UserId, b: UserId)
    ensures DmRoom(a, b) == DmRoom(b, a)
  {
    LexTotal(a, b);
    if LexLe(a, b) && LexLe(b, a) {
      LexAntisymmetric(a, b);
    }
  }

  /** The room id is the smaller id, '-', and the larger one. */
  lemma DmRoomSorted(a: UserId, b: UserId)
    ensures var r := DmRoom(a, b);
      (r == a + "-" + b && LexLe(a, b)) || (r == b + "-" + a && LexLe(b, a))
  {
    LexTotal(a, b);
  }

  function Fail(s: Server, sock: SocketId, e: Error): (r: Result)
    ensures r.outcome == Raised(e)
  {
    Result(s.Send(ToSocket(sock), "dm_join_error", DmJoinError("Failed to join DM room", e)), Raised(e))
  }

  /** The whole handler; `otherUserId` is `data.otherUserId`. */
  function JoinDm(s: Server, sock: SocketId, otherUserId: Option<UserId>): (r: Result) {
    match UserOf(s, sock)
    case None => Fail(s, sock, Error("User not found in connected users"))
    case Some(user) =>
      if !Truthy(otherUserId) then Fail(s, sock, Error("Other user ID is required for joining DM"))
      else
        var other := otherUserId.value;
        var room := DmRoom(user.userId, other);
        var s1 := s.(rooms := Transport.Join(s.rooms, sock, room),
                     connected := s.connected.Set(sock, user.(currentDM := Some(other), currentDMRoom := Some(room))));
        Result(s1.Send(ToSocket(sock), "dm_joined", DmJoined(other, room)), Returned(room))
  }

  /** The handler run on the server object. */
  method HandleJoinDm(srv: ChatServer, sock: SocketId, otherUserId: Option<UserId>) returns (outcome: Outcome)
    modifies srv
    ensures srv.State() == JoinDm(old(srv.State()), sock, otherUserId).server
    ensures outcome == JoinDm(old(srv.State()), sock, otherUserId).outcome
  {
    var user := srv.connected.Get(sock);
    if user.None? {
      var e := Error("User not found in connected users");
      srv.Send(ToSocket(sock), "dm_join_error", DmJoinError("Failed to join DM room", e));
      return Raised(e);
    }
    if !Truthy(otherUserId) {
      var e := Error("Other user ID is required for joining DM");
      srv.Send(ToSocket(sock), "dm_join_error", DmJoinError("Failed to join DM room", e));
      return Raised(e);
    }
    var other := otherUserId.value;
    var room := DmRoom(user.value.userId, other);
    srv.rooms := Transport.Join(srv.rooms, sock, room);
    srv.SetUser(sock, user.value.(currentDM := Some(other), currentDMRoom := Some(room)));
    srv.Send(ToSocket(sock), "dm_joined", DmJoined(other, room));
    outcome := Returned(room);
  }

  /**
   * An unregistered socket or a missing `otherUserId` raises and changes nothing but
   * appending `dm_join_error`; the record is untouched. Otherwise the socket joins the
   * room shared with the other user, the record gets `currentDM` and `currentDMRoom`,
   * and the room id is returned.
   */
  lemma JoinDmSpec(s: Server, sock: SocketId, otherUserId: Option<UserId>)
    ensures var r := JoinDm(s, sock, otherUserId);
      && (r.outcome.Raised? <==> UserOf(s, sock).None? || !Truthy(otherUserId))
      && (r.outcome.Raised? ==>
            r.server == s.Send(ToSocket(sock), "dm_join_error", DmJoinError("Failed to join DM room", r.outcome.error)))
      && (UserOf(s, sock).Some? && !Truthy(otherUserId) ==>
            r.outcome == Raised(Error("Other user ID is required for joining DM")))
      && (!r.outcome.Raised? ==>
            var user := UserOf(s, sock).value;
            var room := DmRoom(user.userId, otherUserId.value);
            && r.outcome == Returned(room)
            && room == DmRoom(otherUserId.value, user.userId)
            && r.server.connected.Get(sock) == Some(user.(currentDM := otherUserId, currentDMRoom := Some(room)))
            && (sock in s.rooms ==> InRoom(r.server.rooms, sock, room))
            && r.server.byUserId == s.byUserId)
  {
    if UserOf(s, sock).Some? && Truthy(otherUserId) {
      DmRoomSymmetric(UserOf(s, sock).value.userId, otherUserId.value);
    }
  }

  /** Joining the same conversation again returns the same room and leaves the record and the rooms as they were. */
  lemma JoinDmIdempotent(s: Server, sock: SocketId, otherUserId: Option<UserId>)
    ensures var r1 := JoinDm(s, sock, otherUserId);
      var r2 := JoinDm(r1.server, sock, otherUserId);
      && r2.outcome == r1.outcome
      && r2.server.connected == r1.server.connected
      && r2.server.rooms == r1.server.rooms
  {
    var r1 := JoinDm(s, sock, otherUserId);
    if r1.outcome.Returned? {
      var user := UserOf(s, sock).value;
      var user1 := UserOf(r1.server, sock).value;
      assert user1.userId == user.userId;
      assert user1.(currentDM := otherUserId, currentDMRoom := user1.currentDMRoom) == user1;
      assert r1.server.connected.Set(sock, user1) == r1.server.connected;
    }
  }

  /** Joining a conversation keeps the registry invariant. */
  lemma JoinDmPreservesConsistent(s: Server, sock: SocketId, otherUserId: Option<UserId>)
    requires Consistent(s)
    ensures Consistent(JoinDm(s, sock, otherUserId).server)
  {
    var r := JoinDm(s, sock, otherUserId);
    if r.outcome.Returned? {
      var user := UserOf(s, sock).value;
      UpdateRecordPreservesConsistent(s, sock, user.(currentDM := otherUserId, currentDMRoom := Some(r.outcome.value)), r.server);
    }
  }
}
