/**
 * `client/src/hooks/sockets/useSocketEvents.js`: the chat page's socket listeners.
 * They are set up only once the socket, the user and the active channel are all
 * known; they keep the connected-users list, the set of users typing in the active
 * channel and the cross-channel notification, and pass the active channel's
 * messages to the message list.
 */
module SocketEvents {
  import opened Wrappers
  import opened ChatHelpers

  /** The client's user. */
  datatype ClientUser = ClientUser(id: string, username: string)

  /** The `user_join` payload of lines 39-43 and 52-56. */
  datatype JoinPayload = JoinPayload(username: string, userId: string, channel: string)

  /** A channel message as received (`receive_message`, `message_sent`). */
  datatype Incoming = Incoming(id: string, text: string, username: string, channel: string)

  /** `message_notification`. */
  datatype NotificationData = NotificationData(title: string, message: string, channel: string, channelName: string, username: string)

  /** The notification shown (lines 103-108). */
  datatype Toast = Toast(title: string, message: string, channelId: string, channelName: string)

  /** `user_typing`. */
  datatype TypingData = TypingData(username: string, channel: string, isTyping: bool)

  /** The hook's state; `appended` records the calls to `appendNewMessage`. */
  datatype EventsState = EventsState(
    connectedUsers: seq<Option<Connected>>, typingUsers: set<string>,
    notification: Option<Toast>, appended: seq<Incoming>)

  /** Lines 25-31: whether the listeners are set up at all. */
  predicate Ready(socket: bool, user: Option<ClientUser>, activeChannelId: Option<string>) {
    socket && user.Some? && Truthy(activeChannelId)
  }

  /** Lines 25-44: the `user_join` the effect emits, if any. */
  function JoinOnSetup(socket: bool, user: Option<ClientUser>, activeChannelId: Option<string>, connected: bool)
    : (r: Option<JoinPayload>)
    ensures r.Some? <==> Ready(socket, user, activeChannelId) && connected
    ensures r.Some? ==> r.value == JoinPayload(user.value.username, user.value.id, activeChannelId.value)
  {
    if Ready(socket, user, activeChannelId) && connected then
      Some(JoinPayload(user.value.username, user.value.id, activeChannelId.value))
    else None
  }

  /**
   * The handlers below exist only once `Ready` holds; `active` is the active channel id
   * and `me` the user they were set up for.
   */

  /** `onReceiveMessage` and `onMessageSent` (lines 66-77). */
  function OnMessage(st: EventsState, active: string, m: Incoming): (r: EventsState) {
    if m.channel == active then st.(appended := st.appended + [m]) else st
  }

  /** `onMessageNotification` (lines 88-110). */
  function OnNotification(st: EventsState, active: string, me: ClientUser, n: NotificationData): (r: EventsState) {
    if n.username == me.username then st
    else if n.channel != active then st.(notification := Some(Toast(n.title, n.message, n.channel, n.channelName)))
    else st
  }

  /** `onUsersList` (lines 113-115). */
  function OnUsersList(st: EventsState, users: seq<Option<Connected>>): (r: EventsState) {
    st.(connectedUsers := users)
  }

  /** `onUserTyping` (lines 118-130). */
  function OnUserTyping(st: EventsState, active: string, d: TypingData): (r: EventsState) {
    if d.channel != active then st
    else if d.isTyping then st.(typingUsers := st.typingUsers + {d.username})
    else st.(typingUsers := st.typingUsers - {d.username})
  }

  /** The hook's state as fields that the listeners assign. */
  class SocketEventsHook {
    const active: string
    const me: ClientUser
    var connectedUsers: seq<Option<Connected>>
    var typingUsers: set<string>
    var notification: Option<Toast>
    var appended: seq<Incoming>

    function State(): EventsState
      reads this
    {
      EventsState(connectedUsers, typingUsers, notification, appended)
    }

    constructor (activeChannelId: string, user: ClientUser)
      ensures active == activeChannelId && me == user && State() == EventsState([], {}, None, [])
    {
      active := activeChannelId;
      me := user;
      connectedUsers := [];
      typingUsers := {};
      notification := None;
      appended := [];
    }

    method HandleMessage(m: Incoming)
      modifies this
      ensures State() == OnMessage(old(State()), active, m)
    {
      if m.channel == active {
        appended := appended + [m];
      }
    }

    method HandleNotification(n: NotificationData)
      modifies this
      ensures State() == OnNotification(old(State()), active, me, n)
    {
      var isCurrentChannel := n.channel == active;
      var isFromSelf := n.username == me.username;
      if isFromSelf {
        return;
      }
      if !isCurrentChannel {
        notification := Some(Toast(n.title, n.message, n.channel, n.channelName));
      }
    }

    method HandleUsersList(users: seq<Option<Connected>>)
      modifies this
      ensures State() == OnUsersList(old(State()), users)
    {
      connectedUsers := users;
    }

    method HandleUserTyping(d: TypingData)
      modifies this
      ensures State() == OnUserTyping(old(State()), active, d)
    {
      if d.channel == active {
        var newSet := typingUsers;
        if d.isTyping {
          newSet := newSet + {d.username};
        } else {
          newSet := newSet - {d.username};
        }
        typingUsers := newSet;
      }
    }
  }

  // ---- Properties ----

  /**
   * A typing event for the active channel adds the username when typing and removes it
   * otherwise, and no other name changes; an event for another channel changes nothing.
   */
  lemma TypingSpec(st: EventsState, active: string, d: TypingData)
    ensures var r := OnUserTyping(st, active, d);
      && (d.channel != active ==> r == st)
      && (d.channel == active ==> (d.username in r.typingUsers <==> d.isTyping))
      && (forall u :: u != d.username ==> (u in r.typingUsers <==> u in st.typingUsers))
      && r.connectedUsers == st.connectedUsers && r.notification == st.notification && r.appended == st.appended
  {
  }

  /** A later stop undoes an earlier start for a name that was not typing before. */
  lemma StartThenStop(st: EventsState, active: string, name: string)
    requires name !in st.typingUsers
    ensures OnUserTyping(OnUserTyping(st, active, TypingData(name, active, true)), active, TypingData(name, active, false)) == st
  {
  }

  /** Only messages of the active channel reach the list. */
  lemma MessageSpec(st: EventsState, active: string, m: Incoming)
    ensures var r := OnMessage(st, active, m);
      && (m.channel == active ==> r.appended == st.appended + [m])
      && (m.channel != active ==> r == st)
  {
  }

  /** A notification is shown exactly when it comes from someone else about another channel. */
  lemma NotificationSpec(st: EventsState, active: string, me: ClientUser, n: NotificationData)
    ensures var r := OnNotification(st, active, me, n);
      && (r != st <==> n.username != me.username && n.channel != active
                       && st.notification != Some(Toast(n.title, n.message, n.channel, n.channelName)))
      && (r != st ==> r.notification == Some(Toast(n.title, n.message, n.channel, n.channelName)))
  {
  }

  /** The users list replaces the previous one wholesale. */
  lemma UsersListReplaces(st: EventsState, a: seq<Option<Connected>>, b: seq<Option<Connected>>)
    ensures OnUsersList(OnUsersList(st, a), b) == OnUsersList(st, b)
    ensures OnUsersList(st, a).connectedUsers == a
  {
  }
}
