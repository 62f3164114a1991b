/**
 * `handleStatusUpdate`: a registered socket changes its presence. The new status is
 * lower-cased and put on the connection record first; only then is it looked up in
 * the status enum map. A recognised status is stored and the users list goes to
 * everyone; otherwise the handler throws, with the record already changed.
 */
module StatusUpdate {
  import opened Wrappers
  import opened Text
  import opened JsMaps
  import opened Store
  import opened Transport
  import opened Session

  /** `statusEnumMap[normalized]` for an own key of the map. */
  function StatusFromName(normalized: string): (r: Option<Status>)
    ensures r.Some? ==> ToLower(r.value.Name()) == normalized
  {
    if normalized == "online" then Some(Online)
    else if normalized == "away" then Some(Away)
    else if normalized == "busy" then Some(Busy)
    else if normalized == "offline" then Some(Offline)
    else None
  }

  /**
   * The lower-case keys an object literal inherits that are truthy: `statusEnumMap` has
   * them too, so they pass the check and reach the store, which rejects them.
   */
  predicate InheritedKey(normalized: string) {
    normalized == "constructor" || normalized == "__proto__"
  }

  /** The whole handler; `newStatus` is the event argument, `None` when it is missing. */
  function UpdateStatus(s: Server, sock: SocketId, newStatus: Option<string>): (r: Result)
    ensures r.server.byUserId == s.byUserId && r.server.rooms == s.rooms
    ensures UserOf(s, sock).None? || newStatus.None? ==> r.server == s
    ensures UserOf(s, sock).Some? && newStatus.Some? ==>
      r.server.connected == s.connected.Set(sock, UserOf(s, sock).value.(status := ToLower(newStatus.value)))
  {
    match UserOf(s, sock)
    case None => Result(s, Raised(Error("User not found in connected users")))
    case Some(user) =>
      match newStatus
      case None => Result(s, Raised(TypeError))
      case Some(raw) =>
        var normalized := ToLower(raw);
        var s1 := s.(connected := s.connected.Set(sock, user.(status := normalized)));
        match StatusFromName(normalized)
        case None =>
          if InheritedKey(normalized) then Result(s1, Raised(StoreError))
          else Result(s1, Raised(Error("Invalid status: " + raw)))
        case Some(st) =>
          match UpdateUserStatus(s1.db, user.userId, st, None)
          case None => Result(s1, Raised(StoreError))
          case Some(db') =>
            var s2 := s1.(db := db');
            var users := UniqueUsers(s2);
            Result(s2.Send(BroadcastExcept(sock), "users_list", UsersList(users))
                     .Send(ToSocket(sock), "users_list", UsersList(users)), Completed)
  }

  /** The handler run on the server object. */
  method HandleStatusUpdate(srv: ChatServer, sock: SocketId, newStatus: Option<string>) returns (outcome: Outcome)
    modifies srv
    ensures srv.State() == UpdateStatus(old(srv.State()), sock, newStatus).server
    ensures outcome == UpdateStatus(old(srv.State()), sock, newStatus).outcome
  {
    var user := srv.connected.Get(sock);
    if user.None? {
      return Raised(Error("User not found in connected users"));
    }
    if newStatus.None? {
      return Raised(TypeError);
    }
    var normalized := ToLower(newStatus.value);
    srv.SetUser(sock, user.value.(status := normalized));
    var st := StatusFromName(normalized);
    if st.None? {
      if InheritedKey(normalized) {
        return Raised(StoreError);
      }
      return Raised(Error("Invalid status: " + newStatus.value));
    }
    var updated := UpdateUserStatus(srv.db, user.value.userId, st.value, None);
    if updated.None? {
      return Raised(StoreError);
    }
    srv.db := updated.value;
    var users := UniqueUsers(srv.State());
    srv.Send(BroadcastExcept(sock), "users_list", UsersList(users));
    srv.Send(ToSocket(sock), "users_list", UsersList(users));
    outcome := Completed;
  }

  // ---- Properties ----

  /** Each enum value is recognised under its lower-case name, and under no other name. */
  lemma StatusNamesRoundTrip(st: Status, name: string)
    ensures StatusFromName(ToLower(st.Name())) == Some(st)
    ensures StatusFromName(name) == Some(st) ==> name == ToLower(st.Name())
  {
    LowerName(st);
  }

  /** The lower-case form of each enum name, character by character. */
  lemma LowerName(st: Status)
    ensures ToLower(st.Name()) == match st
      case Online => "online" case Away => "away" case Busy => "busy" case Offline => "offline"
  {
    var n := st.Name();
    var r := ToLower(n);
    assert |r| == |n|;
    forall i | 0 <= i < |n| ensures r[i] == LowerChar(n[i]) {
    }
  }

  /**
   * A recognised status (in any letter case) from a stored, registered user is stored,
   * put on the record in lower case, and the users list built after the change goes to
   * every other socket and then to this one.
   */
  lemma UpdateStatusSpec(s: Server, sock: SocketId, raw: string)
    requires UserOf(s, sock).Some? && HasUser(s.db, UserOf(s, sock).value.userId)
    requires StatusFromName(ToLower(raw)).Some?
    ensures var r := UpdateStatus(s, sock, Some(raw));
      var user := UserOf(s, sock).value;
      var st := StatusFromName(ToLower(raw)).value;
      && r.outcome == Completed
      && UserOf(r.server, sock) == Some(user.(status := ToLower(raw)))
      && StatusOf(r.server.db, user.userId) == Some(st)
      && |r.server.log| == |s.log| + 2
      && r.server.log[|s.log|] == Emit(BroadcastExcept(sock), "users_list", UsersList(UniqueUsers(r.server)))
      && r.server.log[|s.log| + 1] == Emit(ToSocket(sock), "users_list", UsersList(UniqueUsers(r.server)))
      && r.server.byUserId == s.byUserId && r.server.rooms == s.rooms
  {
    var user := UserOf(s, sock).value;
    StatusAfterUpdate(s.db, user.userId, StatusFromName(ToLower(raw)).value, None);
  }

  /**
   * An unrecognised status still lands on the record, lower-cased, but nothing is stored
   * or sent and the handler throws "Invalid status: " with the status as given (or a
   * store error for an inherited key).
   */
  lemma InvalidStatusKeptOnRecord(s: Server, sock: SocketId, raw: string)
    requires UserOf(s, sock).Some? && StatusFromName(ToLower(raw)).None?
    ensures var r := UpdateStatus(s, sock, Some(raw));
      && UserOf(r.server, sock) == Some(UserOf(s, sock).value.(status := ToLower(raw)))
      && r.server.db == s.db && r.server.log == s.log
      && r.outcome == Raised(if InheritedKey(ToLower(raw)) then StoreError else Error("Invalid status: " + raw))
  {
  }

  /** The handler does not depend on the letter case of a recognised status. */
  lemma CaseInsensitive(s: Server, sock: SocketId, a: string, b: string)
    requires ToLower(a) == ToLower(b) && StatusFromName(ToLower(a)).Some?
    ensures UpdateStatus(s, sock, Some(a)) == UpdateStatus(s, sock, Some(b))
  {
  }

  /** An unregistered socket or a missing status throws before anything changes. */
  lemma RejectedBeforeChange(s: Server, sock: SocketId, newStatus: Option<string>)
    requires UserOf(s, sock).None? || newStatus.None?
    ensures UpdateStatus(s, sock, newStatus).server == s
    ensures UpdateStatus(s, sock, newStatus).outcome.Raised?
  {
  }

  /** Changing the status keeps the registry invariant. */
  lemma UpdateStatusPreservesConsistent(s: Server, sock: SocketId, newStatus: Option<string>)
    requires Consistent(s)
    ensures Consistent(UpdateStatus(s, sock, newStatus).server)
  {
    if UserOf(s, sock).Some? && newStatus.Some? {
      var user := UserOf(s, sock).value;
      UpdateRecordPreservesConsistent(s, sock, user.(status := ToLower(newStatus.value)), UpdateStatus(s, sock, newStatus).server);
    }
  }
}
