/**
 * `client/src/hooks/messages/useMessageInput.js`: the message box. Sending emits a
 * direct message when a conversation is open and otherwise a channel message, then
 * clears the box and stops the typing indicator; each keystroke starts the indicator
 * and re-arms a timer that stops it.
 */
module MessageInput {
  import opened Wrappers
  import opened Text
  import Session
  import TypingEvents

  /** What the hook emits. */
  datatype ClientEmit =
    | SendDirect(text: string, receiverUserId: string)      // send_direct_message
    | SendChannel(text: string, channel: string)            // send_message
    | TypingStart(messageType: string, targetId: string)    // typing_start
    | TypingStop(messageType: string, targetId: string)     // typing_stop

  /** Where the box sends to: the open conversation wins over the active channel. */
  datatype Target = ToDm(userId: string) | ToChannel(channelId: string) | Nowhere

  /** The `if (activeDmId) … else if (activeChannelId)` tests of the hook. */
  function TargetOf(activeChannelId: Option<string>, activeDmId: Option<string>): (t: Target)
    ensures Truthy(activeDmId) ==> t == ToDm(activeDmId.value)
    ensures !Truthy(activeDmId) && Truthy(activeChannelId) ==> t == ToChannel(activeChannelId.value)
    ensures !Truthy(activeDmId) && !Truthy(activeChannelId) ==> t == Nowhere
  {
    if Truthy(activeDmId) then ToDm(activeDmId.value)
    else if Truthy(activeChannelId) then ToChannel(activeChannelId.value)
    else Nowhere
  }

  /** The message emit of lines 28-38. */
  function SendFor(t: Target, text: string): seq<ClientEmit> {
    match t
    case ToDm(u) => [SendDirect(text, u)]
    case ToChannel(c) => [SendChannel(text, c)]
    case Nowhere => []
  }

  /** The typing emits of lines 49-53 and 69-73 and of the timer. */
  function TypingFor(t: Target, start: bool): seq<ClientEmit> {
    match t
    case ToDm(u) => [if start then TypingStart("direct_message", u) else TypingStop("direct_message", u)]
    case ToChannel(c) => [if start then TypingStart("channel", c) else TypingStop("channel", c)]
    case Nowhere => []
  }

  /** The box's text, whether a stop timer is armed, and what has been emitted. */
  datatype InputState = InputState(currentMessage: string, timerArmed: bool, emitted: seq<ClientEmit>)

  /** `handleSendMessage` (lines 23-54). */
  function Send(st: InputState, socket: bool, t: Target, text: string): (r: InputState) {
    if Trim(text) == "" || !socket then st
    else InputState("", false, st.emitted + SendFor(t, Trim(text)) + TypingFor(t, false))
  }

  /** `handleInputChange` (lines 61-88). */
  function InputChange(st: InputState, socket: bool, t: Target, text: string): (r: InputState) {
    if !socket then st.(currentMessage := text)
    else InputState(text, true, st.emitted + TypingFor(t, true))
  }

  /** The timer body of lines 81-87. */
  function TimerFires(st: InputState, t: Target): (r: InputState) {
    if st.timerArmed then st.(timerArmed := false, emitted := st.emitted + TypingFor(t, false)) else st
  }

  /** The hook's state: the text in the box, the timer reference, and the socket's outgoing log. */
  class MessageInputHook {
    const socket: bool
    const activeChannelId: Option<string>
    const activeDmId: Option<string>
    var currentMessage: string
    var timerArmed: bool
    var emitted: seq<ClientEmit>

    function State(): InputState
      reads this
    {
      InputState(currentMessage, timerArmed, emitted)
    }

    constructor (hasSocket: bool, channel: Option<string>, dm: Option<string>)
      ensures socket == hasSocket && activeChannelId == channel && activeDmId == dm
      ensures State() == InputState("", false, [])
    {
      socket := hasSocket;
      activeChannelId := channel;
      activeDmId := dm;
      currentMessage := "";
      timerArmed := false;
      emitted := [];
    }

    /** Emits the typing event of the current target, if there is one. */
    method EmitTyping(start: bool)
      modifies this
      ensures State() == old(State()).(emitted := old(emitted) + TypingFor(TargetOf(activeChannelId, activeDmId), start))
    {
      if Truthy(activeDmId) {
        emitted := emitted + [if start then TypingStart("direct_message", activeDmId.value) else TypingStop("direct_message", activeDmId.value)];
      } else if Truthy(activeChannelId) {
        emitted := emitted + [if start then TypingStart("channel", activeChannelId.value) else TypingStop("channel", activeChannelId.value)];
      }
    }

    method HandleSendMessage(messageText: string)
      modifies this
      ensures State() == Send(old(State()), socket, TargetOf(activeChannelId, activeDmId), messageText)
    {
      if Trim(messageText) == "" || !socket {
        return;
      }
      if Truthy(activeDmId) {
        emitted := emitted + [SendDirect(Trim(messageText), activeDmId.value)];
      } else if Truthy(activeChannelId) {
        emitted := emitted + [SendChannel(Trim(messageText), activeChannelId.value)];
      }
      currentMessage := "";
      timerArmed := false;
      EmitTyping(false);
    }

    method HandleInputChange(text: string)
      modifies this
      ensures State() == InputChange(old(State()), socket, TargetOf(activeChannelId, activeDmId), text)
    {
      currentMessage := text;
      if !socket {
        return;
      }
      EmitTyping(true);
      timerArmed := true;
    }

    method FireTypingTimer()
      modifies this
      ensures State() == TimerFires(old(State()), TargetOf(activeChannelId, activeDmId))
    {
      if timerArmed {
        timerArmed := false;
        EmitTyping(false);
      }
    }
  }

  // ---- Properties ----

  /** Blank text, or no socket, emits nothing and keeps the box as it is. */
  lemma BlankSendsNothing(st: InputState, socket: bool, t: Target, text: string)
    requires AllSpace(text) || !socket
    ensures Send(st, socket, t, text) == st
  {
    TrimSpec(text);
  }

  /**
   * A send with an open conversation emits a direct message to that user with the trimmed
   * text and then stops the DM typing indicator; with only a channel it sends to the
   * channel and stops the channel indicator. The box is cleared and the timer disarmed.
   */
  lemma SendSpec(st: InputState, channel: Option<string>, dm: Option<string>, text: string)
    requires !AllSpace(text)
    ensures var r := Send(st, true, TargetOf(channel, dm), text);
      && r.currentMessage == "" && !r.timerArmed
      && (Truthy(dm) ==> r.emitted == st.emitted + [SendDirect(Trim(text), dm.value), TypingStop("direct_message", dm.value)])
      && (!Truthy(dm) && Truthy(channel) ==>
            r.emitted == st.emitted + [SendChannel(Trim(text), channel.value), TypingStop("channel", channel.value)])
      && (!Truthy(dm) && !Truthy(channel) ==> r.emitted == st.emitted)
  {
    TrimSpec(text);
  }

  /** A keystroke emits the start of the indicator for the current target and arms the timer. */
  lemma InputChangeSpec(st: InputState, channel: Option<string>, dm: Option<string>, text: string)
    ensures var r := InputChange(st, true, TargetOf(channel, dm), text);
      && r.currentMessage == text && r.timerArmed
      && (Truthy(dm) ==> r.emitted == st.emitted + [TypingStart("direct_message", dm.value)])
      && (!Truthy(dm) && Truthy(channel) ==> r.emitted == st.emitted + [TypingStart("channel", channel.value)])
  {
  }

  /** After a send the timer is disarmed, so it emits no second stop. */
  lemma NoStopAfterSend(st: InputState, t: Target, text: string)
    requires !AllSpace(text)
    ensures TimerFires(Send(st, true, t, text), t) == Send(st, true, t, text)
  {
    TrimSpec(text);
  }

  /**
   * The `channel` field of an emitted payload as the server reads it (`data?.channel`):
   * only `send_message` carries one. The typing payloads carry `messageType` and
   * `targetId` instead, so the server's typing handlers (`typingEvents.js`) find no
   * channel and use the sender's current channel, even for typing in a direct conversation.
   */
  function ChannelField(e: ClientEmit): Option<string> {
    match e
    case SendChannel(_, c) => Some(c)
    case _ => None
  }

  lemma TypingGoesToCurrentChannel(t: Target, user: Session.Connection)
    ensures forall e :: e in TypingFor(t, true) + TypingFor(t, false) ==>
      TypingEvents.TypingChannel(ChannelField(e), user) == user.currentChannel
  {
  }
}
