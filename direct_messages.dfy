/**
 * `client/src/hooks/messages/useDirectMessages.js`: the client's list of the
 * messages exchanged with one other user. Incoming and sent messages are appended
 * when they belong to the conversation; deletions mark a message deleted in place
 * rather than removing it.
 */
module DirectMessages {
  import opened Wrappers
  import opened Seqs
  import opened Text
  import opened ClientLists

  /** A direct message as the client holds it; `content` is set only by a deletion. */
  datatype Dm = Dm(id: string, text: string, userId: string, receiverUserId: string, isDeleted: bool, content: Option<string>)

  function IdOf(): Dm -> string {
    (m: Dm) => m.id
  }

  /** The filter of line 48. */
  function NotDeleted(): Dm -> bool {
    (m: Dm) => !m.isDeleted
  }

  datatype Fetch = Loaded(data: seq<Dm>) | Failed(message: string)

  /** `direct_message_history`: the list sent, for whom. */
  datatype HistoryData = HistoryData(otherUserId: string, messages: seq<Dm>)

  /** `dm_deleted` and `dm_delete_success`. */
  datatype DeleteData = DeleteData(messageId: string, senderId: string, receiverId: string)

  /** `dm_delete_error`; either field may be missing. */
  datatype ErrorData = ErrorData(messageId: Option<string>, error: Option<string>)

  datatype DmState = DmState(messages: seq<Dm>, loading: bool, error: Option<string>)

  const DELETED_TEXT := "This message was deleted."

  /** Lines 22-55: no other user clears the list; a response keeps its undeleted messages. */
  function FetchMessages(st: DmState, otherUserId: Option<string>, result: Fetch): (r: DmState) {
    if !Truthy(otherUserId) then st.(messages := [])
    else
      match result
      case Loaded(data) => st.(messages := Filter(data, NotDeleted()), loading := false, error := None)
      case Failed(msg) => st.(loading := false, error := Some(msg))
  }

  /** `appendNewMessage` (lines 62-70). */
  function Append(st: DmState, m: Dm): (r: DmState) {
    st.(messages := AppendNew(st.messages, m, IdOf()))
  }

  /** One message of the `map` of lines 79-81. */
  function MarkIfId(m: Dm, id: string): Dm {
    if m.id == id then m.(isDeleted := true, content := Some(DELETED_TEXT)) else m
  }

  /** `deleteMessage` (lines 77-83): the matching messages are marked deleted where they are. */
  function MarkDeleted(ms: seq<Dm>, id: string): (r: seq<Dm>)
    ensures |r| == |ms|
    ensures forall i :: 0 <= i < |ms| ==> r[i] == MarkIfId(ms[i], id)
  {
    seq(|ms|, i requires 0 <= i < |ms| => MarkIfId(ms[i], id))
  }

  /** Whether a message belongs to the conversation with `other` (line 92). */
  predicate InConversation(m: Dm, other: string) {
    m.userId == other || m.receiverUserId == other
  }

  /**
   * The socket handlers are registered only while there is another user (lines 87 and
   * 135); `other` is `None` or empty otherwise, and then every event is ignored.
   */
  function OnReceive(st: DmState, other: Option<string>, m: Dm): (r: DmState) {
    if Truthy(other) && InConversation(m, other.value) && !m.isDeleted then Append(st, m) else st
  }

  /** `handleDirectMessageHistory` (lines 98-111): the list is replaced only for this conversation. */
  function OnHistory(st: DmState, other: Option<string>, h: HistoryData): (r: DmState) {
    if Truthy(other) && h.otherUserId == other.value then st.(messages := h.messages, loading := false) else st
  }

  /** `handleDirectMessageSent` (lines 114-118): only a message to the other user. */
  function OnSent(st: DmState, other: Option<string>, m: Dm): (r: DmState) {
    if Truthy(other) && m.receiverUserId == other.value && !m.isDeleted then Append(st, m) else st
  }

  /** `handleDmDeleted` and `handleDmDeleteSuccess` (lines 138-150). */
  function OnDeleted(st: DmState, other: Option<string>, d: DeleteData): (r: DmState) {
    if Truthy(other) && (d.senderId == other.value || d.receiverId == other.value)
    then st.(messages := MarkDeleted(st.messages, d.messageId))
    else st
  }

  /** The test of line 156: the error says the message is already gone. */
  predicate AlreadyGone(error: Option<string>) {
    error.Some? && (Contains(error.value, "already deleted") || Contains(error.value, "not found"))
  }

  function TextOf(s: Option<string>): string {
    match s
    case Some(v) => v
    case None => "undefined"
  }

  /** `handleDmDeleteError` (lines 153-164). */
  function OnDeleteError(st: DmState, other: Option<string>, e: ErrorData): (r: DmState) {
    if !Truthy(other) then st
    else if !AlreadyGone(e.error) then st.(error := Some("Failed to delete direct message: " + TextOf(e.error)))
    else if Truthy(e.messageId) then st.(messages := MarkDeleted(st.messages, e.messageId.value))
    else st
  }

  /**
   * The effect of lines 180-214, run when the other user changes: with a connected socket
   * the hook shows loading and waits for the socket's history; without one it fetches
   * over HTTP at once; without another user it empties the list.
   */
  function ConversationChanged(st: DmState, other: Option<string>, socketConnected: bool, result: Fetch): (r: DmState) {
    if Truthy(other) && socketConnected then st.(loading := true, error := None)
    else if Truthy(other) then FetchMessages(st, other, result)
    else st.(messages := [], loading := false)
  }

  /** The fallback timer of lines 193-197: it fetches over HTTP only if no socket history arrived. */
  function FallbackFires(st: DmState, other: Option<string>, socketResponded: bool, result: Fetch): (r: DmState) {
    if socketResponded then st else FetchMessages(st, other, result)
  }

  /** The hook's state as fields that the handlers assign; `socketResponseReceived` is the ref of line 16. */
  class DirectMessagesHook {
    var otherUserId: Option<string>
    var messages: seq<Dm>
    var loading: bool
    var error: Option<string>
    var socketResponseReceived: bool

    function State(): DmState
      reads this
    {
      DmState(messages, loading, error)
    }

    constructor (other: Option<string>)
      ensures otherUserId == other && State() == DmState([], false, None) && !socketResponseReceived
    {
      otherUserId := other;
      messages := [];
      loading := false;
      error := None;
      socketResponseReceived := false;
    }

    /** The conversation switches to `other`: the ref is reset and the effect of lines 180-214 runs. */
    method ChangeConversation(other: Option<string>, socketConnected: bool, result: Fetch)
      modifies this
      ensures otherUserId == other && !socketResponseReceived
      ensures State() == ConversationChanged(old(State()), other, socketConnected, result)
    {
      otherUserId := other;
      socketResponseReceived := false;
      if Truthy(other) && socketConnected {
        loading := true;
        error := None;
      } else if Truthy(other) {
        if result.Loaded? {
          messages := Filter(result.data, NotDeleted());
          error := None;
        } else {
          error := Some(result.message);
        }
        loading := false;
      } else {
        messages := [];
        loading := false;
      }
    }

    /** The HTTP fallback timer goes off. */
    method FireFallback(result: Fetch)
      modifies this
      ensures otherUserId == old(otherUserId) && socketResponseReceived == old(socketResponseReceived)
      ensures State() == FallbackFires(old(State()), otherUserId, old(socketResponseReceived), result)
    {
      if socketResponseReceived {
        return;
      }
      if !Truthy(otherUserId) {
        messages := [];
      } else if result.Loaded? {
        messages := Filter(result.data, NotDeleted());
        error := None;
        loading := false;
      } else {
        error := Some(result.message);
        loading := false;
      }
    }

    method AppendNewMessage(m: Dm)
      modifies this
      ensures otherUserId == old(otherUserId) && socketResponseReceived == old(socketResponseReceived)
      ensures State() == Append(old(State()), m)
    {
      if exists x :: x in messages && x.id == m.id {
        return;
      }
      messages := messages + [m];
    }

    method HandleNewDirectMessage(m: Dm)
      modifies this
      ensures otherUserId == old(otherUserId) && socketResponseReceived == old(socketResponseReceived)
      ensures State() == OnReceive(old(State()), old(otherUserId), m)
    {
      if Truthy(otherUserId) && InConversation(m, otherUserId.value) && !m.isDeleted {
        AppendNewMessage(m);
      }
    }

    method HandleDirectMessageSent(m: Dm)
      modifies this
      ensures otherUserId == old(otherUserId) && socketResponseReceived == old(socketResponseReceived)
      ensures State() == OnSent(old(State()), old(otherUserId), m)
    {
      if Truthy(otherUserId) && m.receiverUserId == otherUserId.value && !m.isDeleted {
        AppendNewMessage(m);
      }
    }

    method HandleDirectMessageHistory(h: HistoryData)
      modifies this
      ensures otherUserId == old(otherUserId)
      ensures socketResponseReceived == (old(socketResponseReceived) || (Truthy(otherUserId) && h.otherUserId == otherUserId.value))
      ensures State() == OnHistory(old(State()), old(otherUserId), h)
    {
      if Truthy(otherUserId) && h.otherUserId == otherUserId.value {
        messages := h.messages;
        loading := false;
        socketResponseReceived := true;
      }
    }

    /** `deleteMessage` (lines 77-83). */
    method DeleteMessage(id: string)
      modifies this
      ensures otherUserId == old(otherUserId) && socketResponseReceived == old(socketResponseReceived)
      ensures State() == old(State()).(messages := MarkDeleted(old(messages), id))
    {
      messages := MarkDeleted(messages, id);
    }

    /** `handleDmDeleted` and `handleDmDeleteSuccess` (lines 138-150). */
    method HandleDmDeleted(d: DeleteData)
      modifies this
      ensures otherUserId == old(otherUserId) && socketResponseReceived == old(socketResponseReceived)
      ensures State() == OnDeleted(old(State()), old(otherUserId), d)
    {
      if Truthy(otherUserId) && (d.senderId == otherUserId.value || d.receiverId == otherUserId.value) {
        DeleteMessage(d.messageId);
      }
    }

    method HandleDmDeleteError(e: ErrorData)
      modifies this
      ensures otherUserId == old(otherUserId) && socketResponseReceived == old(socketResponseReceived)
      ensures State() == OnDeleteError(old(State()), old(otherUserId), e)
    {
      if !Truthy(otherUserId) {
        return;
      }
      if !AlreadyGone(e.error) {
        error := Some("Failed to delete direct message: " + TextOf(e.error));
      } else if Truthy(e.messageId) {
        messages := MarkDeleted(messages, e.messageId.value);
      }
    }
  }

  // ---- Properties ----

  /**
   * A fetched history shows only the messages not deleted, in their order (the filter
   * keeps order: `Seqs.FilterConcat`).
   */
  lemma FetchDropsDeleted(st: DmState, other: string, data: seq<Dm>)
    requires other != ""
    ensures var r := FetchMessages(st, Some(other), Loaded(data));
      && (forall m :: m in r.messages <==> m in data && !m.isDeleted)
      && r.messages == Filter(data, NotDeleted())
      && r.error == None && !r.loading
  {
  }

  /**
   * Marking keeps the list's length and order: each message with the id is now deleted
   * and shows the deletion text, and every other message is untouched. Marking twice is
   * marking once.
   */
  lemma MarkDeletedSpec(ms: seq<Dm>, id: string)
    ensures var r := MarkDeleted(ms, id);
      && |r| == |ms|
      && (forall i :: 0 <= i < |ms| && ms[i].id == id ==>
            r[i].isDeleted && r[i].content == Some(DELETED_TEXT) && r[i].id == id && r[i].text == ms[i].text)
      && (forall i :: 0 <= i < |ms| && ms[i].id != id ==> r[i] == ms[i])
      && MarkDeleted(r, id) == r
  {
  }

  /**
   * An incoming message goes in exactly when it is from or to the other user and is not
   * deleted (and its id is new); a sent one only when it is to the other user.
   */
  lemma ConversationFilter(st: DmState, other: string, m: Dm)
    requires other != ""
    requires forall x :: x in st.messages ==> x.id != m.id
    ensures OnReceive(st, Some(other), m).messages == st.messages + [m] <==> InConversation(m, other) && !m.isDeleted
    ensures OnSent(st, Some(other), m).messages == st.messages + [m] <==> m.receiverUserId == other && !m.isDeleted
  {
    assert st.messages + [m] != st.messages by {
      assert |st.messages + [m]| != |st.messages|;
    }
  }

  /**
   * Switching with a connected socket keeps the list and shows loading until the socket's
   * history or the fallback arrives; without a socket the list is the HTTP result at once;
   * without another user the list is emptied.
   */
  lemma ConversationChangedSpec(st: DmState, other: Option<string>, socketConnected: bool, result: Fetch)
    ensures var r := ConversationChanged(st, other, socketConnected, result);
      && (Truthy(other) && socketConnected ==> r.messages == st.messages && r.loading && r.error == None)
      && (Truthy(other) && !socketConnected && result.Loaded? ==>
            !r.loading && r.error == None && forall m :: m in r.messages <==> m in result.data && !m.isDeleted)
      && (Truthy(other) && !socketConnected && result.Failed? ==>
            r.messages == st.messages && !r.loading && r.error == Some(result.message))
      && (!Truthy(other) ==> r.messages == [] && !r.loading && r.error == st.error)
  {
  }

  /** Once the socket's history for the conversation has arrived, the fallback timer changes nothing. */
  lemma FallbackAfterHistory(st: DmState, other: string, h: HistoryData, result: Fetch)
    requires other != "" && h.otherUserId == other
    ensures var s1 := OnHistory(st, Some(other), h);
      FallbackFires(s1, Some(other), true, result) == s1 && s1.messages == h.messages && !s1.loading
  {
  }

  /** A history for another conversation leaves the list alone; one for this conversation replaces it as sent. */
  lemma HistorySpec(st: DmState, other: string, h: HistoryData)
    requires other != ""
    ensures h.otherUserId != other ==> OnHistory(st, Some(other), h) == st
    ensures h.otherUserId == other ==> OnHistory(st, Some(other), h).messages == h.messages
  {
  }

  /**
   * A delete error that says the message is already deleted or not found marks it deleted
   * instead of showing an error; any other error is shown and the list kept.
   */
  lemma DeleteErrorSpec(st: DmState, other: string, e: ErrorData)
    requires other != ""
    ensures var r := OnDeleteError(st, Some(other), e);
      && (AlreadyGone(e.error) ==> r.error == st.error)
      && (AlreadyGone(e.error) && Truthy(e.messageId) ==> r.messages == MarkDeleted(st.messages, e.messageId.value))
      && (!AlreadyGone(e.error) ==>
            r.error == Some("Failed to delete direct message: " + TextOf(e.error)) && r.messages == st.messages)
  {
  }

  /**
   * The server's "Direct message not found" (`deleteDirectMessage.js`) therefore marks the
   * message deleted on the client, while its ownership error is shown to the user.
   */
  lemma ServerNotFoundMarksDeleted(st: DmState, other: string, id: string)
    requires other != "" && id != ""
    ensures OnDeleteError(st, Some(other), ErrorData(Some(id), Some("Direct message not found"))).messages
         == MarkDeleted(st.messages, id)
    ensures !AlreadyGone(Some("You can only delete your own direct messages"))
  {
    var s := "Direct message not found";
    assert "not found" <= s[15..];
    NoNotOrAlr("You can only delete your own direct messages");
  }

  /** A string in which neither "alr" nor "not" occurs contains neither phrase. */
  lemma NoNotOrAlr(s: string)
    requires forall i :: 0 <= i < |s| - 2 ==> !(s[i] == 'a' && s[i + 1] == 'l' && s[i + 2] == 'r')
    requires forall i :: 0 <= i < |s| - 2 ==> !(s[i] == 'n' && s[i + 1] == 'o' && s[i + 2] == 't')
    ensures !Contains(s, "already deleted") && !Contains(s, "not found")
  {
    forall i | 0 <= i <= |s| - 15 ensures !("already deleted" <= s[i..]) {
      assert s[i..][0] == s[i] && s[i..][1] == s[i + 1] && s[i..][2] == s[i + 2];
    }
    forall i | 0 <= i <= |s| - 9 ensures !("not found" <= s[i..]) {
      assert s[i..][0] == s[i] && s[i..][1] == s[i + 1] && s[i..][2] == s[i + 2];
    }
  }
}
