/**
 * `handleSendMessage`: a channel message from a registered socket. The text is
 * trimmed and checked, the channel must exist, an `@name` mention is resolved
 * against the stored users, the message is stored and fanned out: to the channel
 * room, back to the sender, to the mentioned user, and as a notification to the
 * connected members who are looking at another channel. Any failure sends
 * `message_send_error` and rethrows.
 */
module SendMessage {
  import opened Wrappers
  import opened Seqs
  import opened Text
  import opened JsMaps
  import opened Store
  import opened Transport
  import opened Session
  import opened SocketUtils

  // ---- The mention regex `/@(\w+)/` ----

  /** The longest prefix of `s` made of word characters. */
  function WordRun(s: string): (r: string)
    ensures r <= s
    ensures forall i :: 0 <= i < |r| ==> IsWordChar(r[i])
    ensures |r| == |s| || !IsWordChar(s[|r|])
  {
    if s != [] && IsWordChar(s[0]) then [s[0]] + WordRun(s[1..]) else []
  }

  /** Whether an '@' followed by a word character starts at position `i`. */
  predicate MentionStart(s: string, i: nat) {
    i + 1 < |s| && s[i] == '@' && IsWordChar(s[i + 1])
  }

  /** The position of the leftmost match of `/@\w/` at or after `i`. */
  function MentionFrom(s: string, i: nat): (r: Option<nat>)
    requires i <= |s|
    ensures r.Some? ==> i <= r.value && MentionStart(s, r.value)
    ensures r.Some? ==> forall j :: i <= j < r.value ==> !MentionStart(s, j)
    ensures r.None? <==> forall j :: i <= j < |s| ==> !MentionStart(s, j)
    decreases |s| - i
  {
    if i == |s| then None
    else if MentionStart(s, i) then Some(i)
    else MentionFrom(s, i + 1)
  }

  /** `s.match(/@(\w+)/)?.[1]`: the word after the leftmost '@' that has one. */
  function Mention(s: string): Option<string> {
    match MentionFrom(s, 0)
    case None => None
    case Some(i) => Some(WordRun(s[i + 1..]))
  }

  /**
   * A mention exists iff some '@' is followed by a word character; it is then the whole
   * run of word characters after the leftmost such '@', and it is never empty.
   */
  lemma MentionSpec(s: string)
    ensures Mention(s).None? <==> forall j :: 0 <= j < |s| ==> !MentionStart(s, j)
    ensures Mention(s).Some? ==> exists i :: MentionStart(s, i) && Mention(s) == Some(WordRun(s[i + 1..]))
                                            && forall j :: 0 <= j < i ==> !MentionStart(s, j)
    ensures Mention(s).Some? ==> Mention(s).value != [] && forall k :: 0 <= k < |Mention(s).value| ==> IsWordChar(Mention(s).value[k])
  {
    match MentionFrom(s, 0)
    case None =>
    case Some(i) =>
      assert s[i + 1..][0] == s[i + 1];
  }

  /** The stored user the text mentions, when the mention names one. */
  function MentionedUser(db: Db, text: string): (r: Option<User>)
    ensures r.Some? <==> Mention(text).Some? && FindUserByUsername(db, Mention(text).value).Some?
    ensures r.Some? ==> r.value in db.users && r.value.username == Mention(text).value
  {
    match Mention(text)
    case None => None
    case Some(name) => FindUserByUsername(db, name)
  }

  // ---- The handler ----

  /** The outcome of the checks before anything is stored. */
  datatype Checked =
    | Rejected(error: Error)
    | Accepted(user: Connection, channel: Room, text: string, record: Channel)

  /** Lines 11-53: the sender, the channel, the text and the channel record, in the order the code checks them. */
  function Check(s: Server, sock: SocketId, d: MessageInput): (r: Checked) {
    match UserOf(s, sock)
    case None => Rejected(Error("User not found in connected users"))
    case Some(user) =>
      var channel := OrElse(d.channel, user.currentChannel);
      match d.text
      case None => Rejected(TypeError)
      case Some(raw) =>
        var text := Trim(raw);
        if channel == "" then Rejected(Error("No channel ID specified and user has no current channel"))
        else if text == "" then Rejected(Error("Message text cannot be empty after trimming"))
        else if |text| > MAX_MESSAGE_LENGTH then Rejected(Error("Message too long. Maximum length is 2000 characters"))
        else match FindChannel(s.db, channel)
          case None => Rejected(Error("Channel #" + channel + " does not exist"))
          case Some(ch) => Accepted(user, channel, text, ch)
  }

  /** The catch block. */
  function Fail(s: Server, sock: SocketId, d: MessageInput, e: Error): (r: Result)
    ensures r.outcome == Raised(e)
  {
    Result(s.Send(ToSocket(sock), "message_send_error", MessageSendError("Failed to send message", d.text, d.channel, e)),
           Raised(e))
  }

  /** The row the handler stores. */
  function NewMessage(db: Db, user: Connection, text: string, ch: Channel, id: Id, now: Time): Message {
    var mentioned := MentionedUser(db, text);
    Message(id, text, user.userId, ch.id, if mentioned.Some? then Some(mentioned.value.id) else None, now, false, None)
  }

  /** The message payload of lines 98-115. */
  function Payload(db: Db, d: MessageInput, user: Connection, text: string, ch: Channel, id: Id): ChatMessage {
    var mentioned := MentionedUser(db, text);
    ChatMessage(id, text, user.username, user.userId, ch.id, ch.name, OrElse(d.messageType, "text"), None,
                if mentioned.Some? then Some(UserRef(mentioned.value.id, mentioned.value.username)) else None)
  }

  /** Lines 127-145: the mention notification to the first socket of the mentioned user, if any. */
  function NotifyMention(s: Server, sock: SocketId, mentioned: Option<User>, m: ChatMessage, ch: Channel): (r: Server)
    ensures r.connected == s.connected && r.byUserId == s.byUserId && r.rooms == s.rooms && r.db == s.db
    ensures s.log <= r.log
  {
    if mentioned.None? then s
    else match FirstSocketOf(s.connected, mentioned.value.id)
      case None => s
      case Some(target) =>
        s.Send(ToRoomExcept(target, sock), "mention_notification",
               Notification("You were mentioned in #" + NameText(ch.name), m.username + ": " + m.text, ch.id, ch.name,
                            m.id, m.username, m.userId, "mention"))
  }

  /** Lines 152-157: the records to notify, in the order of `connectedUsers`. */
  function NotifyTargets(connected: JsMap<Connection>, sock: SocketId, channel: Room, members: seq<Id>): seq<Connection> {
    Filter(connected.Values(), (u: Connection) => u.id != sock && u.currentChannel != channel && u.userId in members)
  }

  /** The notification each target gets. */
  function ChannelNotification(m: ChatMessage, ch: Channel): Payload {
    Notification("New message in #" + NameText(ch.name), m.username + ": " + Preview(m.text), ch.id, ch.name,
                 m.id, m.username, m.userId, "channel_message")
  }

  /** The `forEach` of lines 160-172: one `message_notification` per target, in order. */
  function NotifyAll(s: Server, sock: SocketId, targets: seq<Connection>, n: Payload): (r: Server)
    ensures r.connected == s.connected && r.byUserId == s.byUserId && r.rooms == s.rooms && r.db == s.db
    ensures |r.log| == |s.log| + |targets| && r.log[..|s.log|] == s.log
    ensures forall i :: 0 <= i < |targets| ==>
      r.log[|s.log| + i] == Emit(ToRoomExcept(targets[i].id, sock), "message_notification", n)
  {
    if targets == [] then s
    else
      var prev := NotifyAll(s, sock, targets[..|targets| - 1], n);
      prev.Send(ToRoomExcept(targets[|targets| - 1].id, sock), "message_notification", n)
  }

  /**
   * Lines 117-175 on a store that already holds the message: the room, the sender, the
   * mentioned user, then each notification target.
   */
  function Publish(s: Server, sock: SocketId, m: ChatMessage, mentioned: Option<User>, ch: Channel, channel: Room,
                   members: seq<Id>): (r: Server)
    ensures r.connected == s.connected && r.byUserId == s.byUserId && r.rooms == s.rooms && r.db == s.db
  {
    var s1 := s.Send(ToRoomExcept(ch.id, sock), "receive_message", ChannelChat(m, None))
               .Send(ToSocket(sock), "message_sent", ChannelChat(m, Some("delivered")));
    var s2 := NotifyMention(s1, sock, mentioned, m, ch);
    NotifyAll(s2, sock, NotifyTargets(s2.connected, sock, channel, members), ChannelNotification(m, ch))
  }

  /**
   * What `Publish` sends: first the message to the room but the sender, then the
   * confirmation to the sender, and last one notification per target, in order.
   */
  lemma PublishLog(s: Server, sock: SocketId, m: ChatMessage, mentioned: Option<User>, ch: Channel, channel: Room,
                   members: seq<Id>)
    ensures var r := Publish(s, sock, m, mentioned, ch, channel, members);
      var targets := NotifyTargets(s.connected, sock, channel, members);
      && |r.log| >= |s.log| + 2 + |targets|
      && r.log[|s.log|] == Emit(ToRoomExcept(ch.id, sock), "receive_message", ChannelChat(m, None))
      && r.log[|s.log| + 1] == Emit(ToSocket(sock), "message_sent", ChannelChat(m, Some("delivered")))
      && forall i :: 0 <= i < |targets| ==>
           r.log[|r.log| - |targets| + i] == Emit(ToRoomExcept(targets[i].id, sock), "message_notification", ChannelNotification(m, ch))
  {
    var s1 := s.Send(ToRoomExcept(ch.id, sock), "receive_message", ChannelChat(m, None))
               .Send(ToSocket(sock), "message_sent", ChannelChat(m, Some("delivered")));
    var s2 := NotifyMention(s1, sock, mentioned, m, ch);
    var r := Publish(s, sock, m, mentioned, ch, channel, members);
    assert s1.log[|s.log|] == Emit(ToRoomExcept(ch.id, sock), "receive_message", ChannelChat(m, None));
    assert s1.log[|s.log| + 1] == Emit(ToSocket(sock), "message_sent", ChannelChat(m, Some("delivered")));
    assert s1.log <= s2.log && s2.log == r.log[..|s2.log|];
    assert r.log[|s.log|] == s2.log[|s.log|] == s1.log[|s.log|];
    assert r.log[|s.log| + 1] == s2.log[|s.log| + 1] == s1.log[|s.log| + 1];
  }

  /** Lines 55-175, once the checks have passed. */
  function Deliver(s: Server, sock: SocketId, d: MessageInput, user: Connection, channel: Room, text: string,
                   ch: Channel, id: Id, now: Time): (r: Result)
  {
    match CreateMessage(s.db, NewMessage(s.db, user, text, ch, id, now))
    case None => Fail(s, sock, d, StoreError)
    case Some(db') =>
      Result(Publish(s.(db := db'), sock, Payload(s.db, d, user, text, ch, id), MentionedUser(s.db, text), ch, channel,
                     MemberIds(s.db, ch.id)),
             Completed)
  }

  /** The whole handler; `id` and `now` are the id and time the store gives the new row. */
  function SendChannelMessage(s: Server, sock: SocketId, d: MessageInput, id: Id, now: Time): (r: Result) {
    match Check(s, sock, d)
    case Rejected(e) => Fail(s, sock, d, e)
    case Accepted(user, channel, text, ch) => Deliver(s, sock, d, user, channel, text, ch, id, now)
  }

  /** The handler run on the server object. */
  method HandleSendMessage(srv: ChatServer, sock: SocketId, d: MessageInput, id: Id, now: Time) returns (outcome: Outcome)
    modifies srv
    ensures srv.State() == SendChannelMessage(old(srv.State()), sock, d, id, now).server
    ensures outcome == SendChannelMessage(old(srv.State()), sock, d, id, now).outcome
  {
    var checked := Check(srv.State(), sock, d);
    if checked.Rejected? {
      srv.Send(ToSocket(sock), "message_send_error", MessageSendError("Failed to send message", d.text, d.channel, checked.error));
      return Raised(checked.error);
    }
    var user, channel, text, ch := checked.user, checked.channel, checked.text, checked.record;
    var db0 := srv.db;
    var created := CreateMessage(db0, NewMessage(db0, user, text, ch, id, now));
    if created.None? {
      srv.Send(ToSocket(sock), "message_send_error", MessageSendError("Failed to send message", d.text, d.channel, StoreError));
      return Raised(StoreError);
    }
    srv.db := created.value;
    PublishMessage(srv, sock, Payload(db0, d, user, text, ch, id), MentionedUser(db0, text), ch, channel, MemberIds(db0, ch.id));
    outcome := Completed;
  }

  /** `Publish` on the server object. */
  method PublishMessage(srv: ChatServer, sock: SocketId, m: ChatMessage, mentioned: Option<User>, ch: Channel,
                        channel: Room, members: seq<Id>)
    modifies srv
    ensures srv.State() == Publish(old(srv.State()), sock, m, mentioned, ch, channel, members)
  {
    srv.Send(ToRoomExcept(ch.id, sock), "receive_message", ChannelChat(m, None));
    srv.Send(ToSocket(sock), "message_sent", ChannelChat(m, Some("delivered")));
    SendMentionNotification(srv, sock, mentioned, m, ch);
    SendNotifications(srv, sock, NotifyTargets(srv.connected, sock, channel, members), ChannelNotification(m, ch));
  }

  /** `NotifyMention` on the server object. */
  method SendMentionNotification(srv: ChatServer, sock: SocketId, mentioned: Option<User>, m: ChatMessage, ch: Channel)
    modifies srv
    ensures srv.State() == NotifyMention(old(srv.State()), sock, mentioned, m, ch)
  {
    if mentioned.Some? {
      var target := FirstSocketOf(srv.connected, mentioned.value.id);
      if target.Some? {
        srv.Send(ToRoomExcept(target.value, sock), "mention_notification",
                 Notification("You were mentioned in #" + NameText(ch.name), m.username + ": " + m.text, ch.id, ch.name,
                              m.id, m.username, m.userId, "mention"));
      }
    }
  }

  /** The `forEach` loop of lines 160-172 on the server object. */
  method SendNotifications(srv: ChatServer, sock: SocketId, targets: seq<Connection>, n: Payload)
    modifies srv
    ensures srv.State() == NotifyAll(old(srv.State()), sock, targets, n)
  {
    ghost var s0 := srv.State();
    var i := 0;
    while i < |targets|
      invariant 0 <= i <= |targets|
      invariant srv.connected == s0.connected && srv.byUserId == s0.byUserId && srv.rooms == s0.rooms && srv.db == s0.db
      invariant srv.log == NotifyAll(s0, sock, targets[..i], n).log
    {
      assert targets[..i + 1][..i] == targets[..i];
      srv.log := srv.log + [Emit(ToRoomExcept(targets[i].id, sock), "message_notification", n)];
      i := i + 1;
    }
    assert targets[..i] == targets;
  }

  // ---- Properties ----

  /**
   * The checks, in order: an unregistered socket, a missing text, no channel (neither
   * given nor current), a text blank after trimming, a trimmed text over 2000 characters,
   * an unknown channel. Accepted input has the channel given or else the current one and
   * the trimmed text.
   */
  lemma CheckSpec(s: Server, sock: SocketId, d: MessageInput)
    ensures var r := Check(s, sock, d);
      && (UserOf(s, sock).None? ==> r == Rejected(Error("User not found in connected users")))
      && (UserOf(s, sock).Some? ==>
            var channel := OrElse(d.channel, UserOf(s, sock).value.currentChannel);
            && (d.text.None? ==> r == Rejected(TypeError))
            && (d.text.Some? ==>
                  var text := Trim(d.text.value);
                  && (channel == "" ==> r == Rejected(Error("No channel ID specified and user has no current channel")))
                  && (channel != "" && text == "" ==> r == Rejected(Error("Message text cannot be empty after trimming")))
                  && (r.Accepted? <==> channel != "" && text != "" && |text| <= 2000 && HasChannel(s.db, channel))
                  && (r.Accepted? ==> r.channel == channel && r.text == text && r.record.id == channel
                                      && r.user == UserOf(s, sock).value)))
  {
  }

  /** A rejected message stores nothing and changes nothing but appending `message_send_error` with the original text. */
  lemma RejectedChangesNothing(s: Server, sock: SocketId, d: MessageInput, id: Id, now: Time)
    requires Check(s, sock, d).Rejected?
    ensures var r := SendChannelMessage(s, sock, d, id, now);
      && r.outcome == Raised(Check(s, sock, d).error)
      && r.server == s.Send(ToSocket(sock), "message_send_error",
                            MessageSendError("Failed to send message", d.text, d.channel, Check(s, sock, d).error))
  {
  }

  /** An accepted message goes on to `Deliver` with what the checks found. */
  lemma AcceptedDelivers(s: Server, sock: SocketId, d: MessageInput, id: Id, now: Time)
    requires Check(s, sock, d).Accepted?
    ensures var c := Check(s, sock, d);
      SendChannelMessage(s, sock, d, id, now) == Deliver(s, sock, d, c.user, c.channel, c.text, c.record, id, now)
  {
  }

  /**
   * Delivery by a stored user to an existing channel stores the row with the given text,
   * the channel's id and the id of the mentioned user when the mention names a stored
   * user (and no id otherwise); the channel room hears it except the sender, and the
   * sender gets it back with status 'delivered'. The registry and the rooms are unchanged.
   */
  lemma DeliverStoresAndSends(s: Server, sock: SocketId, d: MessageInput, user: Connection, channel: Room, text: string,
                              ch: Channel, id: Id, now: Time)
    requires HasUser(s.db, user.userId) && ch in s.db.channels
    ensures var r := Deliver(s, sock, d, user, channel, text, ch, id, now);
      var row := NewMessage(s.db, user, text, ch, id, now);
      var m := Payload(s.db, d, user, text, ch, id);
      && r.outcome == Completed
      && r.server.db.messages == s.db.messages + [row]
      && row.content == text && row.channelId == ch.id && row.userId == user.userId
      && (row.mentionedUserId.Some? <==> Mention(text).Some? && FindUserByUsername(s.db, Mention(text).value).Some?)
      && |r.server.log| >= |s.log| + 2
      && r.server.log[|s.log|] == Emit(ToRoomExcept(ch.id, sock), "receive_message", ChannelChat(m, None))
      && r.server.log[|s.log| + 1] == Emit(ToSocket(sock), "message_sent", ChannelChat(m, Some("delivered")))
      && m.messageType == OrElse(d.messageType, "text") && m.text == text
      && r.server.connected == s.connected && r.server.byUserId == s.byUserId && r.server.rooms == s.rooms
  {
    var db' := DeliverIsPublish(s, sock, d, user, channel, text, ch, id, now);
    PublishLog(s.(db := db'), sock, Payload(s.db, d, user, text, ch, id), MentionedUser(s.db, text), ch, channel,
               MemberIds(s.db, ch.id));
  }

  /**
   * The mention notification goes to the first connected socket of the mentioned user
   * (and, being sent with `socket.to`, never reaches the sender); when that user has no
   * connected socket, or nobody is mentioned, none is sent.
   */
  lemma MentionNotificationTarget(s: Server, sock: SocketId, mentioned: Option<User>, m: ChatMessage, ch: Channel)
    ensures var r := NotifyMention(s, sock, mentioned, m, ch);
      && (|r.log| == |s.log| + 1 <==> mentioned.Some? && FirstSocketOf(s.connected, mentioned.value.id).Some?)
      && (|r.log| == |s.log| + 1 ==>
            var target := FirstSocketOf(s.connected, mentioned.value.id).value;
            && r.log[|s.log|].target == ToRoomExcept(target, sock)
            && s.connected.entries[target].userId == mentioned.value.id
            && r.log[|s.log|].payload.notificationType == "mention")
      && (|r.log| != |s.log| + 1 ==> r == s)
  {
  }

  /**
   * The notification targets are exactly the connected records that are not the sender,
   * are looking at another channel, and whose user is a member of the channel.
   */
  lemma NotifyTargetsExact(s: Server, sock: SocketId, channel: Room, db: Db, channelId: Id)
    requires s.connected.Valid()
    ensures forall u :: u in NotifyTargets(s.connected, sock, channel, MemberIds(db, channelId)) <==>
      (exists k :: k in s.connected.entries && s.connected.entries[k] == u)
      && u.id != sock && u.currentChannel != channel && IsMember(db, u.userId, channelId)
  {
    var vs := s.connected.Values();
    forall u ensures u in vs <==> exists k :: k in s.connected.entries && s.connected.entries[k] == u {
      if u in vs {
        var i :| 0 <= i < |vs| && vs[i] == u;
        assert s.connected.keys[i] in s.connected.entries;
      }
      if exists k :: k in s.connected.entries && s.connected.entries[k] == u {
        var k :| k in s.connected.entries && s.connected.entries[k] == u;
        var i :| 0 <= i < |s.connected.keys| && s.connected.keys[i] == k;
        assert vs[i] == u;
      }
    }
  }

  /**
   * Delivery gives each notification target, in order, one `message_notification` through
   * `socket.to(its socket)`, titled with the channel name and carrying the
   * 50-character preview; nothing else follows them.
   */
  lemma NotificationsPerTarget(s: Server, sock: SocketId, d: MessageInput, user: Connection, channel: Room, text: string,
                               ch: Channel, id: Id, now: Time)
    requires HasUser(s.db, user.userId) && ch in s.db.channels
    ensures var r := Deliver(s, sock, d, user, channel, text, ch, id, now);
      var targets := NotifyTargets(s.connected, sock, channel, MemberIds(s.db, ch.id));
      var n := ChannelNotification(Payload(s.db, d, user, text, ch, id), ch);
      && |r.server.log| >= |targets|
      && (forall i :: 0 <= i < |targets| ==>
            r.server.log[|r.server.log| - |targets| + i] == Emit(ToRoomExcept(targets[i].id, sock), "message_notification", n))
  {
    var db' := DeliverIsPublish(s, sock, d, user, channel, text, ch, id, now);
    var s0 := s.(db := db');
    PublishLog(s0, sock, Payload(s.db, d, user, text, ch, id), MentionedUser(s.db, text), ch, channel,
               MemberIds(s.db, ch.id));
    assert NotifyTargets(s0.connected, sock, channel, MemberIds(s.db, ch.id))
        == NotifyTargets(s.connected, sock, channel, MemberIds(s.db, ch.id));
  }

  /** Delivery by a stored user to an existing channel stores the row and publishes it. */
  lemma DeliverIsPublish(s: Server, sock: SocketId, d: MessageInput, user: Connection, channel: Room, text: string,
                         ch: Channel, id: Id, now: Time) returns (db': Db)
    requires HasUser(s.db, user.userId) && ch in s.db.channels
    ensures CreateMessage(s.db, NewMessage(s.db, user, text, ch, id, now)) == Some(db')
    ensures Deliver(s, sock, d, user, channel, text, ch, id, now)
         == Result(Publish(s.(db := db'), sock, Payload(s.db, d, user, text, ch, id), MentionedUser(s.db, text), ch, channel,
                           MemberIds(s.db, ch.id)), Completed)
  {
    var mentioned := MentionedUser(s.db, text);
    assert mentioned.Some? ==> HasUser(s.db, mentioned.value.id);
    assert HasChannel(s.db, ch.id);
    db' := CreateMessage(s.db, NewMessage(s.db, user, text, ch, id, now)).value;
  }
}
