/**
 * The connection registry shared by the socket handlers: `connectedUsers`
 * (socket id to connection record) and `usersByUserId` (user id to socket id),
 * both JavaScript Maps, together with socket rooms, the store and the log of
 * emitted events. The handler modules take this state as a `ChatServer` object
 * and describe each handler by a function from the old state to the new one.
 */
module Session {
  import opened Wrappers
  import opened Seqs
  import opened JsMaps
  import opened Store
  import opened Transport

  type UserId = string

  /** The record a handler keeps per connected socket (the object stored in `connectedUsers`). */
  datatype Connection = Connection(
    id: SocketId,
    username: string,
    userId: UserId,
    status: string,
    currentChannel: string,
    joinedAt: Time,
    lastChannelSwitch: Option<Time>,
    currentDM: Option<UserId>,
    currentDMRoom: Option<Room>,
    isTyping: bool,
    typingInChannel: Option<Room>,
    typingStartedAt: Option<Time>,
    typingStoppedAt: Option<Time>)

  /** What a handler throws: an `Error` with a message, a `TypeError` from reading a field of `undefined`, or a store failure. */
  datatype Error = Error(message: string) | TypeError | StoreError

  /** How a handler call ends: normally, returning a value, or with an exception escaping the handler. */
  datatype Outcome = Completed | Returned(value: string) | Raised(error: Error)

  datatype UserRef = UserRef(id: UserId, username: string)

  /** A channel message as the handlers send it (`receive_message`, `message_sent`, `message_history`). */
  datatype ChatMessage = ChatMessage(
    id: Id, text: string, username: string, userId: UserId, channel: Room,
    channelName: Option<string>, messageType: string, isDeleted: Option<bool>,
    mentionedUser: Option<UserRef>)

  /** A direct message as the handlers send it. */
  datatype DirectChat = DirectChat(
    id: Id, text: string, username: string, userId: UserId,
    receiverUserId: UserId, receiverUsername: string, messageType: string, isDeleted: bool)

  /** The payloads of the events the handlers emit (timestamps are left out). */
  datatype Payload =
    | ForceDisconnect(forceReason: string, message: string)
    | UsersList(users: seq<Connection>)
    | MessageHistory(channel: Room, messages: seq<ChatMessage>)
    | UserJoined(joinedName: string, joinedId: UserId, joinedChannel: Room, message: string)
    | UserChannelJoined(username: string, userId: UserId, channel: Room, previousChannel: Option<Room>)
    | UserChannelLeft(username: string, userId: UserId, channel: Room, newChannel: Option<Room>, reason: Option<string>)
    | JoinError(message: string, error: Error)
    | ChannelJoined(channel: Room, previous: Room, message: string)
    | ChannelJoinError(message: string, requestedChannel: Option<string>, error: Error)
    | DmJoined(otherUserId: UserId, dmRoom: Room)
    | DmJoinError(message: string, error: Error)
    | ChannelChat(chat: ChatMessage, status: Option<string>)
    | Notification(title: string, message: string, channel: Room, channelName: Option<string>,
                   messageId: Id, username: string, userId: UserId, notificationType: string)
    | MessageSendError(message: string, originalText: Option<string>, requested: Option<Room>, error: Error)
    | Direct(dm: DirectChat, status: Option<string>)
    | DmNotification(title: string, message: string, senderId: UserId, senderUsername: string)
    | DirectMessageError(message: string, error: Error)
    | DirectMessageHistory(otherUserId: UserId, history: seq<DirectChat>)
    | DirectMessageHistoryError(error: Error)
    | MessageDeleted(messageId: Id, channelId: Room, deletedBy: string, alreadyDeleted: bool)
    | MessageDeleteError(deleteId: Option<Id>, error: Error)
    | DmDeleted(messageId: Id, senderId: UserId, receiverId: UserId, deletedBy: string)
    | DmDeleteError(deleteId: Option<Id>, error: Error)
    | UserTyping(username: string, userId: UserId, channel: Room, isTyping: bool, reason: Option<string>)
    | TypingError(message: string, event: string, error: Error)
    | UserDisconnected(username: string, userId: UserId, activeUsersCount: nat)
    | ErrorReport(eventType: string, message: string)

  type Event = Emit<Payload>

  /** The whole state a handler can observe or change. */
  datatype Server = Server(
    connected: JsMap<Connection>,
    byUserId: JsMap<SocketId>,
    rooms: Rooms,
    db: Db,
    log: seq<Event>)
  {
    /** Appends one emit to the log. */
    function Send(t: Target, event: string, p: Payload): (r: Server)
      ensures r.connected == connected && r.byUserId == byUserId && r.rooms == rooms && r.db == db
      ensures r.log == log + [Emit(t, event, p)]
    {
      this.(log := log + [Emit(t, event, p)])
    }
  }

  /** The result of one handler call. */
  datatype Result = Result(server: Server, outcome: Outcome)

  /** `connectedUsers.get(socket.id)`. */
  function UserOf(s: Server, sock: SocketId): Option<Connection> {
    s.connected.Get(sock)
  }

  /**
   * The registry invariant: both Maps are well formed, socket ids are non-empty, each
   * record is stored under its own socket id, and `usersByUserId` maps the user id of each connected record back
   * to that record's socket.
   */
  ghost predicate Consistent(s: Server) {
    s.connected.Valid() && s.byUserId.Valid()
    && (forall u :: u in s.byUserId.entries ==> s.byUserId.entries[u] != "")
    && (forall k :: k in s.connected.entries ==> s.connected.entries[k].id == k)
    && (forall k :: k in s.connected.entries ==>
          var u := s.connected.entries[k].userId;
          u in s.byUserId.entries && s.byUserId.entries[u] == k)
  }

  /** The invariant speaks only of the two Maps. */
  lemma SameRegistryConsistent(s: Server, r: Server)
    requires Consistent(s) && r.connected == s.connected && r.byUserId == s.byUserId
    ensures Consistent(r)
  {
  }

  /** Under the invariant there is at most one connected socket per user id. */
  lemma OneSocketPerUser(s: Server, a: SocketId, b: SocketId)
    requires Consistent(s)
    requires a in s.connected.entries && b in s.connected.entries
    requires s.connected.entries[a].userId == s.connected.entries[b].userId
    ensures a == b
  {
  }

  /**
   * Replacing a connected record by one with the same socket id and user id (the handlers
   * assign fields of the shared record) keeps the invariant, whatever else changes
   * besides the two Maps.
   */
  lemma UpdateRecordPreservesConsistent(s: Server, sock: SocketId, c: Connection, r: Server)
    requires Consistent(s) && sock in s.connected.entries
    requires c.id == sock && c.userId == s.connected.entries[sock].userId
    requires r.connected == s.connected.Set(sock, c) && r.byUserId == s.byUserId
    ensures Consistent(r)
  {
    assert r.connected.keys == s.connected.keys;
    forall k | k in r.connected.entries
      ensures r.connected.entries[k].id == k
      ensures r.connected.entries[k].userId in r.byUserId.entries
      ensures r.byUserId.entries[r.connected.entries[k].userId] == k
    {
      if k != sock {
        assert r.connected.entries[k] == s.connected.entries[k];
      }
    }
  }

  /**
   * `getUniqueUsers()`: the keys of `usersByUserId` in insertion order, each mapped
   * through `connectedUsers`, with the ones that do not resolve dropped.
   */
  function UniqueUsers(s: Server): seq<Connection> {
    Resolve(s.byUserId.keys, s.byUserId.entries, s.connected.entries)
  }

  /**
   * Under the invariant the users list contains exactly the connected records: every
   * connected record appears, and every entry is a connected record.
   */
  lemma UniqueUsersAreConnected(s: Server)
    requires Consistent(s)
    ensures forall c :: c in UniqueUsers(s) ==> c in s.connected.entries.Values
    ensures forall k :: k in s.connected.entries ==> s.connected.entries[k] in UniqueUsers(s)
  {
    forall k | k in s.connected.entries ensures s.connected.entries[k] in UniqueUsers(s) {
      var u := s.connected.entries[k].userId;
      assert u in s.byUserId.keys;
    }
  }

  /**
   * `Array.from(connectedUsers.entries()).find(([, u]) => u.userId === userId)`: the first
   * socket, in insertion order, whose record has that user id.
   */
  function FirstSocketOf(connected: JsMap<Connection>, userId: UserId): (r: Option<SocketId>)
    ensures r.Some? ==> r.value in connected.keys && r.value in connected.entries && connected.entries[r.value].userId == userId
    ensures r.Some? ==> forall k :: k in connected.keys[..IndexOf(connected.keys, r.value)] && k in connected.entries
                                    ==> connected.entries[k].userId != userId
    ensures r.None? <==> forall k :: k in connected.keys && k in connected.entries ==> connected.entries[k].userId != userId
  {
    match FindIndex(connected.keys, (k: SocketId) => k in connected.entries && connected.entries[k].userId == userId)
    case None => None
    case Some(i) =>
      IndexOfFirst(connected.keys, i);
      Some(connected.keys[i])
  }

  /** The position of the first occurrence of `x` in `s`. */
  function IndexOf(s: seq<SocketId>, x: SocketId): (r: nat)
    ensures r <= |s|
    ensures x in s ==> r < |s| && s[r] == x && x !in s[..r]
  {
    if s == [] || s[0] == x then 0 else 1 + IndexOf(s[1..], x)
  }

  lemma IndexOfFirst(s: seq<SocketId>, i: nat)
    requires i < |s|
    ensures IndexOf(s, s[i]) <= i
  {
    if i > 0 && s[0] != s[i] {
      IndexOfFirst(s[1..], i - 1);
    }
  }

  /** The name a template literal prints for a nullable channel name (`${null}` is "null"). */
  function NameText(name: Option<string>): string {
    match name
    case Some(n) => n
    case None => "null"
  }

  /** A stored channel message as the history queries format it for one channel. */
  function FormatStored(db: Db, m: Message, channel: Room, messageType: string, withDeleted: bool): ChatMessage {
    ChatMessage(m.id, m.content, UsernameOf(db, m.userId), m.userId, channel, None, messageType,
                if withDeleted then Some(m.isDeleted) else None,
                match m.mentionedUserId
                case Some(u) => if HasUser(db, u) then Some(UserRef(u, UsernameOf(db, u))) else None
                case None => None)
  }

  /** `messages.map(format)`: one entry per stored message, in the same order. */
  function FormatHistory(db: Db, ms: seq<Message>, channel: Room, messageType: string, withDeleted: bool)
    : (r: seq<ChatMessage>)
    ensures |r| == |ms|
    ensures forall i :: 0 <= i < |ms| ==> r[i] == FormatStored(db, ms[i], channel, messageType, withDeleted)
  {
    if ms == [] then []
    else
      [FormatStored(db, ms[0], channel, messageType, withDeleted)]
      + FormatHistory(db, ms[1..], channel, messageType, withDeleted)
  }

  /** Nothing is registered and nothing has been sent. */
  function Initial(db: Db): (s: Server)
    ensures Consistent(s) && UniqueUsers(s) == []
  {
    Server(Empty(), Empty(), map[], db, [])
  }

  /**
   * The mutable form of the same state: the two module-level Maps, the socket rooms,
   * the store and the emit log, as fields that the handlers update in place.
   */
  class ChatServer {
    var connected: JsMap<Connection>
    var byUserId: JsMap<SocketId>
    var rooms: Rooms
    var db: Db
    var log: seq<Event>

    function State(): Server
      reads this
    {
      Server(connected, byUserId, rooms, db, log)
    }

    constructor (db0: Db, live: Rooms)
      ensures State() == Server(Empty(), Empty(), live, db0, [])
    {
      connected := Empty();
      byUserId := Empty();
      rooms := live;
      db := db0;
      log := [];
    }

    /** Records one emit. */
    method Send(t: Target, event: string, p: Payload)
      modifies this
      ensures State() == old(State()).Send(t, event, p)
    {
      log := log + [Emit(t, event, p)];
    }

    /** Replaces the record stored under `sock` (the handlers assign fields of the shared record). */
    method SetUser(sock: SocketId, c: Connection)
      modifies this
      ensures State() == old(State()).(connected := old(connected).Set(sock, c))
    {
      connected := connected.Set(sock, c);
    }
  }
}
