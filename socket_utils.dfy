/**
 * Helpers shared by the socket handlers: payload validators that collect error
 * strings, the connection check, the message formatter, the error-event payload
 * and the body of the typing timeout.
 */
module SocketUtils {
  import opened Wrappers
  import opened Text
  import opened JsMaps
  import opened Store
  import opened Transport
  import opened Session

  /** `{ isValid, errors }`. */
  datatype Validation = Validation(isValid: bool, errors: seq<string>)

  /** A `userData` object; each field may be missing. */
  datatype UserInput = UserInput(userId: Option<string>, username: Option<string>, channel: Option<string>)

  /** A `messageData` object as the validator reads it. */
  datatype MessageInput = MessageInput(text: Option<string>, channel: Option<string>, messageType: Option<string>)

  const MAX_USERNAME_LENGTH := 50
  const MAX_CHANNEL_LENGTH := 100
  const MAX_MESSAGE_LENGTH := 2000

  /** `!s || s.trim().length === 0`. */
  predicate Blank(s: Option<string>) {
    s.None? || Trim(s.value) == ""
  }

  /** `s && s.length > n`: present and longer than `n` before trimming. */
  predicate Longer(s: Option<string>, n: nat) {
    s.Some? && s.value != "" && |s.value| > n
  }

  /** Appends `e` when `c` holds, as one `if (...) errors.push(e)`. */
  function PushIf(errors: seq<string>, c: bool, e: string): (r: seq<string>)
    ensures forall x :: x in r <==> x in errors || (c && x == e)
    ensures |r| == |errors| + (if c then 1 else 0)
  {
    if c then errors + [e] else errors
  }

  /** `validateUserData`. */
  function ValidateUserData(d: Option<UserInput>): (r: Validation)
    ensures r.isValid <==> r.errors == []
    ensures d.None? ==> r.errors == ["User data is required"]
    ensures d.Some? ==> r == CheckUserFields(d.value)
  {
    match d
    case None => Validation(false, ["User data is required"])
    case Some(u) => CheckUserFields(u)
  }

  /** The five checks `validateUserData` makes on a present object, each adding its own error. */
  function CheckUserFields(u: UserInput): (r: Validation)
    ensures r.isValid <==> r.errors == []
    ensures "User ID is required" in r.errors <==> !Truthy(u.userId)
    ensures "Username is required and cannot be empty" in r.errors <==> Blank(u.username)
    ensures "Channel is required and cannot be empty" in r.errors <==> Blank(u.channel)
    ensures "Username cannot exceed 50 characters" in r.errors <==> Longer(u.username, MAX_USERNAME_LENGTH)
    ensures "Channel name cannot exceed 100 characters" in r.errors <==> Longer(u.channel, MAX_CHANNEL_LENGTH)
    ensures |r.errors| <= 5
  {
    var errors := UserErrors(!Truthy(u.userId), Blank(u.username), Blank(u.channel),
                             Longer(u.username, MAX_USERNAME_LENGTH), Longer(u.channel, MAX_CHANNEL_LENGTH));
    Validation(errors == [], errors)
  }

  /** The pushes of `validateUserData`, given the outcome of each check in source order. */
  function UserErrors(noId: bool, noName: bool, noChannel: bool, longName: bool, longChannel: bool): (r: seq<string>)
    ensures "User ID is required" in r <==> noId
    ensures "Username is required and cannot be empty" in r <==> noName
    ensures "Channel is required and cannot be empty" in r <==> noChannel
    ensures "Username cannot exceed 50 characters" in r <==> longName
    ensures "Channel name cannot exceed 100 characters" in r <==> longChannel
    ensures |r| <= 5
  {
    var e0 := PushIf([], noId, "User ID is required");
    var e1 := PushIf(e0, noName, "Username is required and cannot be empty");
    var e2 := PushIf(e1, noChannel, "Channel is required and cannot be empty");
    var e3 := PushIf(e2, longName, "Username cannot exceed 50 characters");
    var e4 := PushIf(e3, longChannel, "Channel name cannot exceed 100 characters");
    // The five messages have pairwise different lengths, so they are distinct.
    assert |"User ID is required"| == 19 && |"Username is required and cannot be empty"| == 40;
    assert |"Channel is required and cannot be empty"| == 39 && |"Username cannot exceed 50 characters"| == 36;
    assert |"Channel name cannot exceed 100 characters"| == 41;
    e4
  }

  /** `validateMessageData`. */
  function ValidateMessageData(d: Option<MessageInput>): (r: Validation)
    ensures r.isValid <==> r.errors == []
    ensures d.None? ==> r.errors == ["Message data is required"]
    ensures d.Some? ==>
      && ("Message text is required and cannot be empty" in r.errors <==> Blank(d.value.text))
      && ("Message cannot exceed 2000 characters" in r.errors <==> Longer(d.value.text, MAX_MESSAGE_LENGTH))
      && (r.isValid <==> !Blank(d.value.text) && |d.value.text.value| <= MAX_MESSAGE_LENGTH)
  {
    match d
    case None => Validation(false, ["Message data is required"])
    case Some(m) =>
      var e0 := PushIf([], Blank(m.text), "Message text is required and cannot be empty");
      var e1 := PushIf(e0, Longer(m.text, MAX_MESSAGE_LENGTH), "Message cannot exceed 2000 characters");
      assert |"Message text is required and cannot be empty"| == 44 && |"Message cannot exceed 2000 characters"| == 37;
      Validation(e1 == [], e1)
  }

  /** A `channelData` object as the validator reads it. */
  datatype ChannelInput = ChannelInput(channel: Option<string>)

  /** `validateChannelData`. */
  function ValidateChannelData(d: Option<ChannelInput>): (r: Validation)
    ensures r.isValid <==> r.errors == []
    ensures d.None? ==> r.errors == ["Channel data is required"]
    ensures d.Some? ==>
      && ("Channel name is required and cannot be empty" in r.errors <==> Blank(d.value.channel))
      && ("Channel name cannot exceed 100 characters" in r.errors <==> Longer(d.value.channel, MAX_CHANNEL_LENGTH))
      && (r.isValid <==> !Blank(d.value.channel) && |d.value.channel.value| <= MAX_CHANNEL_LENGTH)
  {
    match d
    case None => Validation(false, ["Channel data is required"])
    case Some(c) =>
      var e0 := PushIf([], Blank(c.channel), "Channel name is required and cannot be empty");
      var e1 := PushIf(e0, Longer(c.channel, MAX_CHANNEL_LENGTH), "Channel name cannot exceed 100 characters");
      assert |"Channel name is required and cannot be empty"| == 44 && |"Channel name cannot exceed 100 characters"| == 41;
      Validation(e1 == [], e1)
  }

  /** Whitespace-only text is rejected, and so is text one character over the cap, but exactly 2000 is accepted. */
  lemma MessageLengthBoundary(t: string)
    ensures AllSpace(t) ==> !ValidateMessageData(Some(MessageInput(Some(t), None, None))).isValid
    ensures |t| == MAX_MESSAGE_LENGTH && !AllSpace(t) ==> ValidateMessageData(Some(MessageInput(Some(t), None, None))).isValid
    ensures |t| == MAX_MESSAGE_LENGTH + 1 ==> !ValidateMessageData(Some(MessageInput(Some(t), None, None))).isValid
  {
    TrimSpec(t);
  }

  /** `{ isValid, error }` or `{ isValid: true, user }`. */
  datatype ConnectionCheck = Invalid(error: string) | ValidConnection(user: Connection)

  /** `validateSocketConnection`: a socket without an id is invalid, and so is one that is not registered. */
  function ValidateSocketConnection(sock: Option<SocketId>, connected: JsMap<Connection>): (r: ConnectionCheck)
    ensures r.ValidConnection? <==> Truthy(sock) && sock.value in connected.entries
    ensures r.ValidConnection? ==> r.user == connected.entries[sock.value]
    ensures !Truthy(sock) ==> r == Invalid("Invalid socket connection")
    ensures Truthy(sock) && sock.value !in connected.entries ==> r == Invalid("User not found in connected users")
  {
    if !Truthy(sock) then Invalid("Invalid socket connection")
    else match connected.Get(sock.value)
      case None => Invalid("User not found in connected users")
      case Some(u) => ValidConnection(u)
  }

  /** The object `formatMessage` builds (its id and timestamp come from the clock and are a parameter / left out). */
  datatype FormattedMessage = FormattedMessage(
    id: Id, text: Option<string>, username: string, userId: UserId,
    channel: string, messageType: string, edited: bool)

  /** `formatMessage`. */
  function FormatMessage(d: MessageInput, u: Connection, id: Id): (r: FormattedMessage)
    ensures r.channel == (if Truthy(d.channel) then d.channel.value else u.currentChannel)
    ensures r.messageType == (if Truthy(d.messageType) then d.messageType.value else "text")
    ensures !r.edited
    ensures r.text == d.text && r.username == u.username && r.userId == u.userId && r.id == id
  {
    FormattedMessage(id, d.text, u.username, u.userId, OrElse(d.channel, u.currentChannel),
                     OrElse(d.messageType, "text"), false)
  }

  /** What can be passed to `emitError` as the error. */
  datatype Thrown = ErrorObject(message: Option<string>) | Text(text: string) | Nothing

  /** The `message` field of the error event: a string, or the error object itself. */
  datatype Shown = Shown(text: string) | WholeObject

  /** `error?.message || error || 'An unexpected error occurred'`. */
  function ErrorMessage(e: Thrown): (r: Shown)
    ensures e.ErrorObject? && Truthy(e.message) ==> r == Shown(e.message.value)
    ensures e.ErrorObject? && !Truthy(e.message) ==> r == WholeObject
    ensures e.Text? && e.text != "" ==> r == Shown(e.text)
    ensures (e.Nothing? || e == Text("")) ==> r == Shown("An unexpected error occurred")
  {
    match e
    case ErrorObject(m) => if Truthy(m) then Shown(m.value) else WholeObject
    case Text(t) => if t != "" then Shown(t) else Shown("An unexpected error occurred")
    case Nothing => Shown("An unexpected error occurred")
  }

  /** `emitError(socket, eventType, error)`: one `error` event to the socket whose type is the event type. */
  function EmitError(s: Server, sock: SocketId, eventType: string, e: Thrown): (r: Server)
    ensures r.log == s.log + [Emit(ToSocket(sock), "error",
                                   ErrorReport(eventType, match ErrorMessage(e) case Shown(t) => t case WholeObject => "[object]"))]
    ensures r.connected == s.connected && r.byUserId == s.byUserId && r.rooms == s.rooms && r.db == s.db
  {
    var text := match ErrorMessage(e) case Shown(t) => t case WholeObject => "[object]";
    s.Send(ToSocket(sock), "error", ErrorReport(eventType, text))
  }

  /**
   * The `user` object the timer's closure captured when it was armed. While nothing has
   * replaced it, it is the record stored under the socket, and the timer reads and
   * clears that record's flags. Once a later `user_join` has stored a new record under
   * the socket, or the disconnect handler has deleted it, the closure holds a detached
   * object that only the timer still sees; `Detached` carries that object's fields.
   */
  datatype Armed = Stored | Detached(user: Connection)

  /** What firing the timer leaves: the server and the captured object. */
  datatype Fired = Fired(server: Server, armed: Armed)

  /** The current fields of the captured object. */
  function Held(s: Server, sock: SocketId, armed: Armed): Option<Connection> {
    match armed
    case Stored => UserOf(s, sock)
    case Detached(u) => Some(u)
  }

  /** The condition the timer body tests. */
  predicate StillTyping(u: Connection, channel: Room) {
    u.isTyping && u.typingInChannel == Some(channel)
  }

  /** The stop the room hears when the timer fires on `u`. */
  function TimeoutStop(sock: SocketId, u: Connection, channel: Room): Event {
    Emit(ToRoomExcept(channel, sock), "user_typing", UserTyping(u.username, u.userId, channel, false, Some("timeout")))
  }

  /**
   * The body of the timer that `createTypingTimeout` arms: if the captured object is
   * still typing in `channel`, the room hears a stop with reason 'timeout' carrying
   * that object's name, and the object's flags are cleared; otherwise nothing happens.
   * Clearing a detached object leaves the stored records alone. (`Stored` with no
   * record under the socket has no counterpart in the program: a deleted record is
   * detached.)
   */
  function TypingTimeout(s: Server, sock: SocketId, armed: Armed, channel: Room): (r: Fired)
  {
    match armed
    case Stored =>
      (match UserOf(s, sock)
       case Some(u) =>
         if StillTyping(u, channel) then
           var s1 := s.(log := s.log + [TimeoutStop(sock, u, channel)]);
           Fired(s1.(connected := s1.connected.Set(sock, u.(isTyping := false, typingInChannel := None))), Stored)
         else Fired(s, Stored)
       case None => Fired(s, Stored))
    case Detached(u) =>
      if StillTyping(u, channel) then
        Fired(s.(log := s.log + [TimeoutStop(sock, u, channel)]), Detached(u.(isTyping := false, typingInChannel := None)))
      else Fired(s, armed)
  }

  /**
   * The timer acts on the object it captured: the state changes exactly when that
   * object is still typing in the channel, and then the room hears one stop naming
   * that object and the object's flags are cleared, in the store of records only when
   * it is still stored there. Rooms, the store and the user map are untouched, and
   * since the flags are cleared a second firing changes nothing.
   */
  lemma TypingTimeoutSpec(s: Server, sock: SocketId, armed: Armed, channel: Room)
    ensures var r := TypingTimeout(s, sock, armed, channel);
      && r.server.rooms == s.rooms && r.server.db == s.db && r.server.byUserId == s.byUserId
      && (r != Fired(s, armed) <==> Held(s, sock, armed).Some? && StillTyping(Held(s, sock, armed).value, channel))
      && (Held(s, sock, armed).Some? && StillTyping(Held(s, sock, armed).value, channel) ==>
            r.server.log == s.log + [TimeoutStop(sock, Held(s, sock, armed).value, channel)]
            && Held(r.server, sock, r.armed) == Some(Held(s, sock, armed).value.(isTyping := false, typingInChannel := None)))
      && (armed.Detached? ==> r.server.connected == s.connected && r.armed.Detached?)
      && (Held(r.server, sock, r.armed).Some? ==> !StillTyping(Held(r.server, sock, r.armed).value, channel))
      && TypingTimeout(r.server, sock, r.armed, channel) == r
  {
  }

  /**
   * The case the closure exists for: the socket's record was replaced by a new one
   * that is not typing, yet the old object still was; the timer still tells the room
   * that the old object stopped, and the new record is left as it is.
   */
  lemma ReplacedRecordStillStops(s: Server, sock: SocketId, prior: Connection, channel: Room)
    requires StillTyping(prior, channel)
    requires UserOf(s, sock).Some? && !UserOf(s, sock).value.isTyping
    ensures var r := TypingTimeout(s, sock, Detached(prior), channel);
      && r.server.log == s.log + [TimeoutStop(sock, prior, channel)]
      && UserOf(r.server, sock) == UserOf(s, sock)
  {
  }

  /** The same timer body, applied to the server object in place; the captured object comes back out. */
  method FireTypingTimeout(srv: ChatServer, sock: SocketId, armed: Armed, channel: Room) returns (after: Armed)
    modifies srv
    ensures Fired(srv.State(), after) == TypingTimeout(old(srv.State()), sock, armed, channel)
  {
    after := armed;
    match armed
    case Stored =>
      var u := srv.connected.Get(sock);
      if u.Some? && StillTyping(u.value, channel) {
        srv.log := srv.log + [TimeoutStop(sock, u.value, channel)];
        srv.SetUser(sock, u.value.(isTyping := false, typingInChannel := None));
      }
    case Detached(u) =>
      if StillTyping(u, channel) {
        srv.log := srv.log + [TimeoutStop(sock, u, channel)];
        after := Detached(u.(isTyping := false, typingInChannel := None));
      }
  }
}
