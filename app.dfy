/**
 * The socket handlers wired in `server/src/app.js`, an earlier and simpler variant of
 * the handler modules: the same two module-level Maps, but a smaller user record that
 * also keeps the current channel's display name, no error events except for a failed
 * store write, and channel names looked up with a fallback to the id.
 */
module App {
  import opened Wrappers
  import opened Seqs
  import opened Text
  import opened JsMaps
  import opened Store
  import opened Transport

  type UserId = string

  /** The user record this variant stores in `connectedUsers`. */
  datatype AppUser = AppUser(id: SocketId, username: string, userId: UserId, currentChannel: Room, currentChannelName: string)

  /** The message payload of lines 207-216 (`isSystem` is always false; the timestamp is left out). */
  datatype AppChat = AppChat(id: Id, text: string, username: string, userId: UserId, channel: Room, channelName: string)

  /** The payloads this variant emits. */
  datatype AppPayload =
    | UsersList(users: seq<AppUser>)
    | ChannelJoined(channel: Room, channelName: string, previousChannel: Room, previousChannelName: string)
    | ReceiveMessage(chat: AppChat)
    | MessageNotification(title: string, message: string, channel: Room, channelName: string, messageId: Id, username: string)
    | UserTyping(username: string, channel: Room, channelName: string, isTyping: bool)
    | MessageError(message: string)

  /** The `userData` of `user_join`. */
  datatype JoinData = JoinData(userId: UserId, username: string, channel: Room)

  /** The `messageData` of `send_message`; either field may be missing. */
  datatype MessageData = MessageData(text: Option<string>, channel: Option<Room>)

  datatype AppState = AppState(
    connected: JsMap<AppUser>,
    byUserId: JsMap<SocketId>,
    rooms: Rooms,
    db: Db,
    log: seq<Emit<AppPayload>>)
  {
    function Send(t: Target, event: string, p: AppPayload): (r: AppState)
      ensures r.connected == connected && r.byUserId == byUserId && r.rooms == rooms && r.db == db
      ensures r.log == log + [Emit(t, event, p)]
    {
      this.(log := log + [Emit(t, event, p)])
    }
  }

  /**
   * The registry invariant of this variant: both Maps well formed, socket ids non-empty,
   * each record under its own socket id, and `usersByUserId` mapping each record's user
   * id back to its socket.
   */
  ghost predicate Consistent(s: AppState) {
    s.connected.Valid() && s.byUserId.Valid()
    && (forall u :: u in s.byUserId.entries ==> s.byUserId.entries[u] != "")
    && (forall k :: k in s.connected.entries ==> s.connected.entries[k].id == k)
    && (forall k :: k in s.connected.entries ==>
          var u := s.connected.entries[k].userId;
          u in s.byUserId.entries && s.byUserId.entries[u] == k)
  }

  /** Lines 119-124 and 345-350: the users list built from `usersByUserId`. */
  function UniqueUsers(s: AppState): seq<AppUser> {
    Resolve(s.byUserId.keys, s.byUserId.entries, s.connected.entries)
  }

  /** `getChannelName`: the stored name of the channel, or the id itself (a failed lookup gives the id too). */
  function GetChannelName(db: Db, channelId: Room): string {
    match FindChannel(db, channelId)
    case Some(c) => OrElse(c.name, channelId)
    case None => channelId
  }

  // ---- user_join ----

  /** Lines 64-72: a different socket registered for the user is disconnected and forgotten. */
  function Evict(s: AppState, sock: SocketId, userId: UserId): (r: AppState)
    ensures r.db == s.db && r.log == s.log
  {
    match s.byUserId.Get(userId)
    case Some(prev) =>
      if prev != "" && prev != sock then
        s.(rooms := Drop(s.rooms, prev), connected := s.connected.Delete(prev), byUserId := s.byUserId.Delete(userId))
      else s
    case None => s
  }

  /** Lines 84-108: the channel id and display name to store for the requested channel. */
  function ResolveChannel(db: Db, channel: Room): (Room, string) {
    if channel == "general" then
      match FindChannelByName(db, "general")
      case Some(c) => (c.id, "general")
      case None => ("general", "general")
    else (channel, GetChannelName(db, channel))
  }

  /** Lines 74-127: the record is stored with the resolved channel, the socket joins it, and the users list goes out. */
  function Register(s: AppState, sock: SocketId, d: JoinData): (r: AppState)
    ensures r.db == s.db
  {
    var (channelId, name) := ResolveChannel(s.db, d.channel);
    var s1 := s.(connected := s.connected.Set(sock, AppUser(sock, d.username, d.userId, channelId, name)),
                 byUserId := s.byUserId.Set(d.userId, sock),
                 rooms := Join(s.rooms, sock, channelId));
    var users := UniqueUsers(s1);
    s1.Send(ToSocket(sock), "users_list", UsersList(users)).Send(Everyone, "users_list", UsersList(users))
  }

  /** The whole `user_join` handler. */
  function UserJoin(s: AppState, sock: SocketId, d: JoinData): (r: AppState)
    ensures r.db == s.db
  {
    Register(Evict(s, sock, d.userId), sock, d)
  }

  // ---- join_channel ----

  /** The whole `join_channel` handler; an unregistered socket is ignored. */
  function JoinChannel(s: AppState, sock: SocketId, channelId: Room): (r: AppState)
    ensures r.db == s.db && r.byUserId == s.byUserId
  {
    match s.connected.Get(sock)
    case None => s
    case Some(user) =>
      var name := GetChannelName(s.db, channelId);
      var left := if user.currentChannel != "" then Leave(s.rooms, sock, user.currentChannel) else s.rooms;
      var s1 := s.(rooms := Join(left, sock, channelId),
                   connected := s.connected.Set(sock, user.(currentChannel := channelId, currentChannelName := name)));
      s1.Send(ToSocket(sock), "channel_joined",
              ChannelJoined(channelId, name, user.currentChannel, user.currentChannelName))
  }

  // ---- send_message ----

  /** Lines 244-258: the connected records to notify, in the order of `connectedUsers`. */
  function Recipients(connected: JsMap<AppUser>, sock: SocketId, channelId: Room, members: seq<Id>): seq<AppUser> {
    Filter(connected.Values(), (u: AppUser) => u.userId in members && u.currentChannel != channelId && u.id != sock)
  }

  /** Lines 262-273: the notification each recipient gets. */
  function Notice(m: AppChat): AppPayload {
    MessageNotification("New message in #" + m.channelName,
                        m.username + ": " + Prefix(m.text, 50) + (if |m.text| > 50 then "..." else ""),
                        m.channel, m.channelName, m.id, m.username)
  }

  /** The `forEach` of lines 261-274: one `message_notification` per recipient, in order. */
  function NotifyAll(s: AppState, recipients: seq<AppUser>, n: AppPayload): (r: AppState)
    ensures r.connected == s.connected && r.byUserId == s.byUserId && r.rooms == s.rooms && r.db == s.db
    ensures |r.log| == |s.log| + |recipients| && r.log[..|s.log|] == s.log
    ensures forall i :: 0 <= i < |recipients| ==>
      r.log[|s.log| + i] == Emit(ToRoom(recipients[i].id), "message_notification", n)
  {
    if recipients == [] then s
    else
      var prev := NotifyAll(s, recipients[..|recipients| - 1], n);
      prev.Send(ToRoom(recipients[|recipients| - 1].id), "message_notification", n)
  }

  /** Whether `send_message` goes ahead: a registered socket, a channel, a text and a user id (lines 172-184). */
  predicate Proceeds(s: AppState, sock: SocketId, d: MessageData) {
    s.connected.Get(sock).Some?
    && OrElse(d.channel, s.connected.Get(sock).value.currentChannel) != ""
    && Truthy(d.text) && s.connected.Get(sock).value.userId != ""
  }

  /** The row `send_message` stores: the text as given, not trimmed. */
  function NewRow(user: AppUser, text: string, channelId: Room, id: Id, now: Time): Message {
    Message(id, text, user.userId, channelId, None, now, false, None)
  }

  /** Lines 186-292, once the guard has passed. */
  function Deliver(s: AppState, sock: SocketId, user: AppUser, text: string, channelId: Room, id: Id, now: Time)
    : (r: AppState)
    ensures r.connected == s.connected && r.byUserId == s.byUserId && r.rooms == s.rooms
  {
    match CreateMessage(s.db, NewRow(user, text, channelId, id, now))
    case None => s.Send(ToSocket(sock), "message_error", MessageError("Failed to send message: database error."))
    case Some(db') =>
      var m := AppChat(id, text, UsernameOf(db', user.userId), user.userId, channelId, GetChannelName(s.db, channelId));
      var s1 := s.(db := db').Send(ToRoom(channelId), "receive_message", ReceiveMessage(m));
      NotifyAll(s1, Recipients(s1.connected, sock, channelId, MemberIds(db', channelId)), Notice(m))
  }

  /** The whole `send_message` handler; `id` and `now` are the id and time the store gives the new row. */
  function SendMessage(s: AppState, sock: SocketId, d: MessageData, id: Id, now: Time): (r: AppState)
    ensures r.connected == s.connected && r.byUserId == s.byUserId && r.rooms == s.rooms
  {
    if !Proceeds(s, sock, d) then s
    else
      var user := s.connected.Get(sock).value;
      Deliver(s, sock, user, d.text.value, OrElse(d.channel, user.currentChannel), id, now)
  }

  // ---- typing_start, typing_stop, disconnect ----

  /** `typing_start` (`isTyping` true) and `typing_stop` (false); `requested` is `data?.channel`. */
  function Typing(s: AppState, sock: SocketId, requested: Option<Room>, isTyping: bool): (r: AppState) {
    match s.connected.Get(sock)
    case None => s
    case Some(user) =>
      var channelId := OrElse(requested, user.currentChannel);
      s.Send(ToRoomExcept(channelId, sock), "user_typing",
             UserTyping(user.username, channelId, GetChannelName(s.db, channelId), isTyping))
  }

  /** The `disconnect` handler. */
  function Disconnect(s: AppState, sock: SocketId): (r: AppState)
    ensures r.db == s.db
  {
    match s.connected.Get(sock)
    case None => s
    case Some(user) =>
      var s1 := s.(rooms := if user.currentChannel != "" then Leave(s.rooms, sock, user.currentChannel) else s.rooms,
                   connected := s.connected.Delete(sock),
                   byUserId := s.byUserId.Delete(user.userId));
      s1.Send(BroadcastExcept(sock), "users_list", UsersList(UniqueUsers(s1)))
  }

  /** The module-level Maps, the socket rooms, the store and the emit log, updated in place by the handlers. */
  class AppServer {
    var connected: JsMap<AppUser>
    var byUserId: JsMap<SocketId>
    var rooms: Rooms
    var db: Db
    var log: seq<Emit<AppPayload>>

    function State(): AppState
      reads this
    {
      AppState(connected, byUserId, rooms, db, log)
    }

    constructor (db0: Db, live: Rooms)
      ensures State() == AppState(Empty(), Empty(), live, db0, [])
    {
      connected := Empty();
      byUserId := Empty();
      rooms := live;
      db := db0;
      log := [];
    }

    method Send(t: Target, event: string, p: AppPayload)
      modifies this
      ensures State() == old(State()).Send(t, event, p)
    {
      log := log + [Emit(t, event, p)];
    }

    /** The `user_join` handler. */
    method HandleUserJoin(sock: SocketId, d: JoinData)
      modifies this
      ensures State() == UserJoin(old(State()), sock, d)
    {
      EvictPrevious(sock, d.userId);
      RegisterUser(sock, d);
    }

    /** Lines 74-127 on the server object. */
    method RegisterUser(sock: SocketId, d: JoinData)
      modifies this
      ensures State() == Register(old(State()), sock, d)
    {
      ghost var evicted := connected;
      var user := AppUser(sock, d.username, d.userId, d.channel, "general");
      connected := connected.Set(sock, user);
      byUserId := byUserId.Set(d.userId, sock);
      var channelId, name := d.channel, "general";
      if d.channel == "general" {
        var general := FindChannelByName(db, "general");
        if general.Some? {
          channelId := general.value.id;
        }
      } else {
        name := GetChannelName(db, d.channel);
      }
      assert (channelId, name) == ResolveChannel(db, d.channel);
      SetTwice(evicted, sock, user, user.(currentChannel := channelId, currentChannelName := name));
      connected := connected.Set(sock, user.(currentChannel := channelId, currentChannelName := name));
      rooms := Join(rooms, sock, channelId);
      ghost var s0 := old(State());
      assert State() == s0.(connected := s0.connected.Set(sock, AppUser(sock, d.username, d.userId, channelId, name)),
                            byUserId := s0.byUserId.Set(d.userId, sock),
                            rooms := Join(s0.rooms, sock, channelId));
      var users := UniqueUsers(State());
      Send(ToSocket(sock), "users_list", UsersList(users));
      Send(Everyone, "users_list", UsersList(users));
    }

    /** Lines 64-72 on the server object. */
    method EvictPrevious(sock: SocketId, userId: UserId)
      modifies this
      ensures State() == Evict(old(State()), sock, userId)
    {
      var prev := byUserId.Get(userId);
      if prev.Some? && prev.value != "" && prev.value != sock {
        rooms := Drop(rooms, prev.value);
        connected := connected.Delete(prev.value);
        byUserId := byUserId.Delete(userId);
      }
    }

    /** The `join_channel` handler. */
    method HandleJoinChannel(sock: SocketId, channelId: Room)
      modifies this
      ensures State() == JoinChannel(old(State()), sock, channelId)
    {
      var user := connected.Get(sock);
      if user.Some? {
        var name := GetChannelName(db, channelId);
        if user.value.currentChannel != "" {
          rooms := Leave(rooms, sock, user.value.currentChannel);
        }
        rooms := Join(rooms, sock, channelId);
        connected := connected.Set(sock, user.value.(currentChannel := channelId, currentChannelName := name));
        Send(ToSocket(sock), "channel_joined",
             ChannelJoined(channelId, name, user.value.currentChannel, user.value.currentChannelName));
      }
    }

    /** The `send_message` handler. */
    method HandleSendMessage(sock: SocketId, d: MessageData, id: Id, now: Time)
      modifies this
      ensures State() == SendMessage(old(State()), sock, d, id, now)
    {
      if !Proceeds(State(), sock, d) {
        return;
      }
      var user := connected.Get(sock).value;
      var channelId := OrElse(d.channel, user.currentChannel);
      var text := d.text.value;
      var channelName := GetChannelName(db, channelId);
      var created := CreateMessage(db, NewRow(user, text, channelId, id, now));
      if created.None? {
        Send(ToSocket(sock), "message_error", MessageError("Failed to send message: database error."));
        return;
      }
      db := created.value;
      var m := AppChat(id, text, UsernameOf(db, user.userId), user.userId, channelId, channelName);
      Send(ToRoom(channelId), "receive_message", ReceiveMessage(m));
      var recipients := Recipients(connected, sock, channelId, MemberIds(db, channelId));
      SendNotifications(recipients, Notice(m));
    }

    /** The notification loop of lines 261-274. */
    method SendNotifications(recipients: seq<AppUser>, n: AppPayload)
      modifies this
      ensures State() == NotifyAll(old(State()), recipients, n)
    {
      ghost var s0 := State();
      var i := 0;
      while i < |recipients|
        invariant 0 <= i <= |recipients|
        invariant connected == s0.connected && byUserId == s0.byUserId && rooms == s0.rooms && db == s0.db
        invariant log == NotifyAll(s0, recipients[..i], n).log
      {
        assert recipients[..i + 1][..i] == recipients[..i];
        log := log + [Emit(ToRoom(recipients[i].id), "message_notification", n)];
        i := i + 1;
      }
      assert recipients[..i] == recipients;
    }

    /** The `typing_start` and `typing_stop` handlers. */
    method HandleTyping(sock: SocketId, requested: Option<Room>, isTyping: bool)
      modifies this
      ensures State() == Typing(old(State()), sock, requested, isTyping)
    {
      var user := connected.Get(sock);
      if user.Some? {
        var channelId := OrElse(requested, user.value.currentChannel);
        Send(ToRoomExcept(channelId, sock), "user_typing",
             UserTyping(user.value.username, channelId, GetChannelName(db, channelId), isTyping));
      }
    }

    /** The `disconnect` handler. */
    method HandleDisconnect(sock: SocketId)
      modifies this
      ensures State() == Disconnect(old(State()), sock)
    {
      var user := connected.Get(sock);
      if user.Some? {
        if user.value.currentChannel != "" {
          rooms := Leave(rooms, sock, user.value.currentChannel);
        }
        connected := connected.Delete(sock);
        byUserId := byUserId.Delete(user.value.userId);
        Send(BroadcastExcept(sock), "users_list", UsersList(UniqueUsers(State())));
      }
    }
  }

  // ---- Properties ----

  /** The name is the stored channel's name when it has a non-empty one, and the id otherwise. */
  lemma GetChannelNameSpec(db: Db, channelId: Room)
    ensures var r := GetChannelName(db, channelId);
      && (r != channelId ==> exists c :: c in db.channels && c.id == channelId && c.name == Some(r))
      && (!HasChannel(db, channelId) ==> r == channelId)
  {
  }

  /**
   * The literal "general" resolves to the id of the first channel named "general" when
   * there is one and stays "general" otherwise; any other id is kept, with its name
   * looked up.
   */
  lemma ResolveChannelSpec(db: Db, channel: Room)
    ensures var (id, name) := ResolveChannel(db, channel);
      && (channel == "general" && FindChannelByName(db, "general").Some? ==>
            id == FindChannelByName(db, "general").value.id && name == "general"
            && exists c :: c in db.channels && c.id == id && c.name == Some("general"))
      && (channel == "general" && FindChannelByName(db, "general").None? ==>
            id == "general" && name == "general" && forall c :: c in db.channels ==> c.name != Some("general"))
      && (channel != "general" ==> id == channel && name == GetChannelName(db, channel))
  {
  }

  /**
   * A join for a user registered under a different socket disconnects that socket and
   * removes its record; afterwards the user id maps to the new socket, whose record
   * carries the resolved channel.
   */
  lemma JoinReplacesSession(s: AppState, sock: SocketId, d: JoinData)
    ensures var r := UserJoin(s, sock, d);
      var (channelId, name) := ResolveChannel(s.db, d.channel);
      && r.byUserId.Get(d.userId) == Some(sock)
      && r.connected.Get(sock) == Some(AppUser(sock, d.username, d.userId, channelId, name))
      && (forall prev :: s.byUserId.Get(d.userId) == Some(prev) && prev != "" && prev != sock ==>
            r.connected.Get(prev).None? && prev !in r.rooms)
      && |r.log| == |s.log| + 2
      && r.log[|s.log|] == Emit(ToSocket(sock), "users_list", UsersList(UniqueUsers(r)))
      && r.log[|s.log| + 1] == Emit(Everyone, "users_list", UsersList(UniqueUsers(r)))
  {
  }

  /** Under the invariant the users list holds exactly the connected records. */
  lemma UsersListIsConnected(s: AppState)
    requires Consistent(s)
    ensures forall c :: c in UniqueUsers(s) ==> c in s.connected.entries.Values
    ensures forall k :: k in s.connected.entries ==> s.connected.entries[k] in UniqueUsers(s)
  {
    forall k | k in s.connected.entries ensures s.connected.entries[k] in UniqueUsers(s) {
      assert s.connected.entries[k].userId in s.byUserId.keys;
    }
  }

  /** The state of the example below: one live socket `s1`, nothing registered, an empty store. */
  function RejoinStart(): AppState {
    AppState(Empty(), Empty(), map["s1" := {}], Db([], [], [], [], []), [])
  }

  /** The first join of the example registers user `a` on socket `s1`. */
  lemma RejoinFirstJoin()
    ensures var s1 := UserJoin(RejoinStart(), "s1", JoinData("a", "ann", "c"));
      && s1.byUserId == JsMap(["a"], map["a" := "s1"])
      && s1.connected == JsMap(["s1"], map["s1" := AppUser("s1", "ann", "a", "c", "c")])
      && s1.db == Db([], [], [], [], [])
  {
    var s0 := RejoinStart();
    assert ResolveChannel(s0.db, "c") == ("c", "c");
    assert Evict(s0, "s1", "a") == s0;
  }

  /**
   * The second join of the example, from any state with that registry: user `b` on the
   * same socket adds a second user id pointing at `s1`, and the record becomes `b`'s.
   */
  lemma RejoinSecondJoin(s1: AppState)
    requires s1.byUserId == JsMap(["a"], map["a" := "s1"])
    requires s1.connected == JsMap(["s1"], map["s1" := AppUser("s1", "ann", "a", "c", "c")])
    requires s1.db == Db([], [], [], [], [])
    ensures var s2 := UserJoin(s1, "s1", JoinData("b", "bob", "c"));
      && s2.byUserId == JsMap(["a", "b"], map["a" := "s1", "b" := "s1"])
      && s2.connected == JsMap(["s1"], map["s1" := AppUser("s1", "bob", "b", "c", "c")])
  {
    assert ResolveChannel(s1.db, "c") == ("c", "c");
    assert s1.byUserId.Get("b") == None;
    assert Evict(s1, "s1", "b") == s1;
  }

  /**
   * The invariant is only one-way: a socket that joins again under another user id
   * leaves the first id pointing at it, and the users list then shows the same record
   * twice.
   */
  lemma RejoinDuplicatesUser()
    ensures var s2 := UserJoin(UserJoin(RejoinStart(), "s1", JoinData("a", "ann", "c")), "s1", JoinData("b", "bob", "c"));
      && Consistent(s2)
      && UniqueUsers(s2) == [AppUser("s1", "bob", "b", "c", "c"), AppUser("s1", "bob", "b", "c", "c")]
  {
    var s1 := UserJoin(RejoinStart(), "s1", JoinData("a", "ann", "c"));
    RejoinFirstJoin();
    RejoinSecondJoin(s1);
    RejoinRegistry(UserJoin(s1, "s1", JoinData("b", "bob", "c")));
  }

  /** The registry the example ends with is consistent and lists `s1`'s record once per user id. */
  lemma RejoinRegistry(s2: AppState)
    requires s2.byUserId == JsMap(["a", "b"], map["a" := "s1", "b" := "s1"])
    requires s2.connected == JsMap(["s1"], map["s1" := AppUser("s1", "bob", "b", "c", "c")])
    ensures Consistent(s2)
    ensures UniqueUsers(s2) == [AppUser("s1", "bob", "b", "c", "c"), AppUser("s1", "bob", "b", "c", "c")]
  {
    var bob := AppUser("s1", "bob", "b", "c", "c");
    var us := UniqueUsers(s2);
    assert |us| == 2 && us[0] == bob && us[1] == bob;
  }

  /** A join keeps the invariant when socket ids are non-empty. */
  lemma JoinPreservesConsistent(s: AppState, sock: SocketId, d: JoinData)
    requires Consistent(s) && sock != ""
    ensures Consistent(UserJoin(s, sock, d))
  {
    var e := Evict(s, sock, d.userId);
    forall k | k in e.connected.entries && k != sock ensures e.connected.entries[k].userId != d.userId {
      assert e.connected.entries[k] == s.connected.entries[k];
    }
    var r := UserJoin(s, sock, d);
    forall k | k in r.connected.entries
      ensures r.connected.entries[k].userId in r.byUserId.entries
      ensures r.byUserId.entries[r.connected.entries[k].userId] == k
    {
      if k != sock {
        assert r.connected.entries[k] == e.connected.entries[k];
      }
    }
  }

  /**
   * `join_channel` from an unregistered socket changes nothing. Otherwise the record now
   * names the new channel and its looked-up name, the previous room is left (unless it is
   * the new one), the new one joined, and the confirmation reports the previous id and name.
   */
  lemma JoinChannelSpec(s: AppState, sock: SocketId, channelId: Room)
    ensures var r := JoinChannel(s, sock, channelId);
      && (s.connected.Get(sock).None? ==> r == s)
      && (s.connected.Get(sock).Some? ==>
            var user := s.connected.Get(sock).value;
            var name := GetChannelName(s.db, channelId);
            && r.connected.Get(sock) == Some(user.(currentChannel := channelId, currentChannelName := name))
            && r.log == s.log + [Emit(ToSocket(sock), "channel_joined",
                                      ChannelJoined(channelId, name, user.currentChannel, user.currentChannelName))]
            && (sock in s.rooms ==> InRoom(r.rooms, sock, channelId))
            && ((sock in s.rooms && user.currentChannel != "" && user.currentChannel != channelId
                 && user.currentChannel != sock) ==> !InRoom(r.rooms, sock, user.currentChannel)))
  {
  }

  /** `join_channel` keeps the invariant. */
  lemma JoinChannelPreservesConsistent(s: AppState, sock: SocketId, channelId: Room)
    requires Consistent(s)
    ensures Consistent(JoinChannel(s, sock, channelId))
  {
    var r := JoinChannel(s, sock, channelId);
    if s.connected.Get(sock).Some? {
      forall k | k in r.connected.entries
        ensures r.connected.entries[k].id == k
        ensures r.connected.entries[k].userId in r.byUserId.entries
        ensures r.byUserId.entries[r.connected.entries[k].userId] == k
      {
        if k != sock {
          assert r.connected.entries[k] == s.connected.entries[k];
        }
      }
    }
  }

  /** A message from an unregistered socket, or without a channel, a text or a user id, is dropped silently. */
  lemma DroppedMessageChangesNothing(s: AppState, sock: SocketId, d: MessageData, id: Id, now: Time)
    requires !Proceeds(s, sock, d)
    ensures SendMessage(s, sock, d, id, now) == s
  {
  }

  /**
   * The recipients are exactly the connected records whose user is a member of the
   * channel, who are looking at another channel, and who are not the sender.
   */
  lemma RecipientsExact(connected: JsMap<AppUser>, sock: SocketId, channelId: Room, db: Db)
    requires connected.Valid()
    ensures forall u :: u in Recipients(connected, sock, channelId, MemberIds(db, channelId)) <==>
      (exists k :: k in connected.entries && connected.entries[k] == u)
      && IsMember(db, u.userId, channelId) && u.currentChannel != channelId && u.id != sock
  {
    var vs := connected.Values();
    forall u ensures u in vs <==> exists k :: k in connected.entries && connected.entries[k] == u {
      if u in vs {
        var i :| 0 <= i < |vs| && vs[i] == u;
        assert connected.keys[i] in connected.entries;
      }
      if exists k :: k in connected.entries && connected.entries[k] == u {
        var k :| k in connected.entries && connected.entries[k] == u;
        var i :| 0 <= i < |connected.keys| && connected.keys[i] == k;
        assert vs[i] == u;
      }
    }
  }

  /** The notification text is the sender's name and the 50-character preview of the text. */
  lemma NoticePreview(m: AppChat)
    ensures Notice(m).message == m.username + ": " + Preview(m.text)
    ensures |m.text| <= 50 ==> Notice(m).message == m.username + ": " + m.text
  {
  }

  /**
   * A message that goes ahead from a stored user into an existing channel is stored as
   * given, goes to the whole channel room (the sender included, unlike the handler
   * modules), and each recipient then gets one notification, in order.
   */
  lemma SendMessageSpec(s: AppState, sock: SocketId, d: MessageData, id: Id, now: Time)
    requires Proceeds(s, sock, d)
    requires var user := s.connected.Get(sock).value;
      HasUser(s.db, user.userId) && HasChannel(s.db, OrElse(d.channel, user.currentChannel))
    ensures var r := SendMessage(s, sock, d, id, now);
      var user := s.connected.Get(sock).value;
      var channelId := OrElse(d.channel, user.currentChannel);
      var recipients := Recipients(s.connected, sock, channelId, MemberIds(s.db, channelId));
      && r.db.messages == s.db.messages + [NewRow(user, d.text.value, channelId, id, now)]
      && |r.log| == |s.log| + 1 + |recipients|
      && r.log[|s.log|].target == ToRoom(channelId) && r.log[|s.log|].event == "receive_message"
      && r.log[|s.log|].payload.ReceiveMessage? && r.log[|s.log|].payload.chat.text == d.text.value
      && (forall i :: 0 <= i < |recipients| ==>
            r.log[|s.log| + 1 + i].target == ToRoom(recipients[i].id)
            && r.log[|s.log| + 1 + i].event == "message_notification")
  {
    var user := s.connected.Get(sock).value;
    var channelId := OrElse(d.channel, user.currentChannel);
    var db' := DeliverStores(s, sock, user, d.text.value, channelId, id, now);
    var m := AppChat(id, d.text.value, UsernameOf(db', user.userId), user.userId, channelId, GetChannelName(s.db, channelId));
    var s1 := s.(db := db').Send(ToRoom(channelId), "receive_message", ReceiveMessage(m));
    var r := NotifyAll(s1, Recipients(s.connected, sock, channelId, MemberIds(s.db, channelId)), Notice(m));
    assert SendMessage(s, sock, d, id, now) == r;
    assert r.db == db' && |s1.log| == |s.log| + 1;
    assert s1.log[|s.log|] == Emit(ToRoom(channelId), "receive_message", ReceiveMessage(m));
    assert r.log[|s.log|] == s1.log[|s.log|];
  }

  /** Lines 188-199 succeed when the user and the channel exist, and the member list is read from the grown store. */
  lemma DeliverStores(s: AppState, sock: SocketId, user: AppUser, text: string, channelId: Room, id: Id, now: Time)
    returns (db': Db)
    requires HasUser(s.db, user.userId) && HasChannel(s.db, channelId)
    ensures db' == s.db.(messages := s.db.messages + [NewRow(user, text, channelId, id, now)])
    ensures Deliver(s, sock, user, text, channelId, id, now)
         == var m := AppChat(id, text, UsernameOf(db', user.userId), user.userId, channelId, GetChannelName(s.db, channelId));
            NotifyAll(s.(db := db').Send(ToRoom(channelId), "receive_message", ReceiveMessage(m)),
                      Recipients(s.connected, sock, channelId, MemberIds(s.db, channelId)), Notice(m))
  {
    db' := CreateMessage(s.db, NewRow(user, text, channelId, id, now)).value;
    assert MemberIds(db', channelId) == MemberIds(s.db, channelId);
  }

  /** A failed store write sends only `message_error` to the sender. */
  lemma StoreFailureReported(s: AppState, sock: SocketId, d: MessageData, id: Id, now: Time)
    requires Proceeds(s, sock, d)
    requires !HasUser(s.db, s.connected.Get(sock).value.userId)
    ensures SendMessage(s, sock, d, id, now)
         == s.Send(ToSocket(sock), "message_error", MessageError("Failed to send message: database error."))
  {
  }

  /**
   * A typing event from a registered socket tells the other sockets in the named channel,
   * or else the current one, with that channel's looked-up name; there is no check for a
   * missing channel. An unregistered socket is ignored.
   */
  lemma TypingSpec(s: AppState, sock: SocketId, requested: Option<Room>, isTyping: bool)
    ensures var r := Typing(s, sock, requested, isTyping);
      && (s.connected.Get(sock).None? ==> r == s)
      && (s.connected.Get(sock).Some? ==>
            var user := s.connected.Get(sock).value;
            var channelId := if Truthy(requested) then requested.value else user.currentChannel;
            r == s.Send(ToRoomExcept(channelId, sock), "user_typing",
                        UserTyping(user.username, channelId, GetChannelName(s.db, channelId), isTyping)))
  {
  }

  /**
   * Disconnecting a registered socket removes its record and its user's entry and tells
   * everyone else the new users list; an unregistered socket leaves everything unchanged.
   */
  lemma DisconnectSpec(s: AppState, sock: SocketId)
    ensures var r := Disconnect(s, sock);
      && (s.connected.Get(sock).None? ==> r == s)
      && (s.connected.Get(sock).Some? ==>
            var user := s.connected.Get(sock).value;
            && r.connected.Get(sock).None? && r.byUserId.Get(user.userId).None?
            && r.log == s.log + [Emit(BroadcastExcept(sock), "users_list", UsersList(UniqueUsers(r)))]
            && (forall k :: k != sock ==> r.connected.Get(k) == s.connected.Get(k))
            && (forall u :: u != user.userId ==> r.byUserId.Get(u) == s.byUserId.Get(u)))
  {
  }

  /** Disconnecting keeps the invariant: the record and its user's entry go together. */
  lemma DisconnectPreservesConsistent(s: AppState, sock: SocketId)
    requires Consistent(s)
    ensures Consistent(Disconnect(s, sock))
  {
    var r := Disconnect(s, sock);
    if s.connected.Get(sock).Some? {
      var user := s.connected.Get(sock).value;
      forall k | k in r.connected.entries
        ensures r.connected.entries[k].userId in r.byUserId.entries
        ensures r.byUserId.entries[r.connected.entries[k].userId] == k
      {
        assert r.connected.entries[k] == s.connected.entries[k];
      }
    }
  }
}
