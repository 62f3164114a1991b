/**
 * `client/src/hooks/messages/useChannelMessages.js`: the client's list of the active
 * channel's messages, the error shown to the user, and the set of message ids whose
 * deletion is in progress. The updaters are functions on the hook's state; the hook
 * object applies them to its fields as React applies the state setters.
 */
module ChannelMessages {
  import opened Wrappers
  import opened Seqs
  import opened Text
  import opened ClientLists

  /** A channel message as the client holds it (the fields the hook reads). */
  datatype Message = Message(id: string, text: string, username: string, channel: string)

  /** `msg => msg.id`. */
  function IdOf(): Message -> string {
    (m: Message) => m.id
  }

  /** The outcome of the history request. */
  datatype Fetch = Loaded(data: seq<Message>) | Failed(message: string)

  /** The payload of `message_deleted` and `message_delete_success`. */
  datatype DeleteData = DeleteData(messageId: string, channelId: Option<string>)

  /** The payload of `message_delete_error`; either field may be missing. */
  datatype ErrorData = ErrorData(messageId: Option<string>, error: Option<string>)

  datatype HookState = HookState(messages: seq<Message>, loading: bool, error: Option<string>, deleting: set<string>)

  /** Lines 26-64: no channel clears the list; otherwise the response replaces it, or its error is shown. */
  function FetchMessages(st: HookState, channelId: Option<string>, result: Fetch): (r: HookState)
    ensures r.deleting == st.deleting
  {
    if !Truthy(channelId) then st.(messages := [])
    else
      match result
      case Loaded(data) => st.(messages := data, loading := false, error := None)
      case Failed(msg) => st.(loading := false, error := Some(msg))
  }

  /** `appendNewMessage` (lines 71-80). */
  function Append(st: HookState, m: Message): (r: HookState)
    ensures r.loading == st.loading && r.error == st.error && r.deleting == st.deleting
  {
    st.(messages := AppendNew(st.messages, m, IdOf()))
  }

  /** `deleteMessage` (lines 87-112): nothing while the id is being deleted; otherwise mark it and drop it. */
  function Delete(st: HookState, id: string): (r: HookState)
    ensures r.loading == st.loading && r.error == st.error
  {
    if id in st.deleting then st
    else st.(deleting := st.deleting + {id}, messages := RemoveKey(st.messages, id, IdOf()))
  }

  /** The timer body of lines 103-109: the id stops being in progress. */
  function ForgetDeleting(st: HookState, id: string): (r: HookState) {
    st.(deleting := st.deleting - {id})
  }

  /** `handleMessageDeleted` and `handleDeleteSuccess` (lines 119-132): only for the hook's channel. */
  function OnDeleted(st: HookState, channelId: Option<string>, d: DeleteData): (r: HookState) {
    if d.channelId == channelId then Delete(st, d.messageId) else st
  }

  /** `errorData.error?.includes('already deleted')`. */
  predicate AlreadyDeleted(error: Option<string>) {
    error.Some? && Contains(error.value, "already deleted")
  }

  /** How a template literal prints a possibly missing string. */
  function TextOf(s: Option<string>): string {
    match s
    case Some(v) => v
    case None => "undefined"
  }

  /** `handleDeleteError` (lines 135-159). */
  function OnDeleteError(st: HookState, e: ErrorData): (r: HookState)
    ensures r.loading == st.loading
  {
    var st1 :=
      if !AlreadyDeleted(e.error) then st.(error := Some("Failed to delete message: " + TextOf(e.error)))
      else if Truthy(e.messageId) then st.(messages := RemoveKey(st.messages, e.messageId.value, IdOf()))
      else st;
    if Truthy(e.messageId) then st1.(deleting := st1.deleting - {e.messageId.value}) else st1
  }

  /** The effect of lines 175-182, run when the channel changes. */
  function ChannelChanged(st: HookState, channelId: Option<string>, result: Fetch): (r: HookState) {
    if Truthy(channelId) then FetchMessages(st, channelId, result)
    else st.(messages := [], deleting := {})
  }

  /** The hook's state as fields that the handlers assign. */
  class ChannelMessagesHook {
    var channelId: Option<string>
    var messages: seq<Message>
    var loading: bool
    var error: Option<string>
    var deleting: set<string>

    function State(): HookState
      reads this
    {
      HookState(messages, loading, error, deleting)
    }

    constructor (channel: Option<string>)
      ensures channelId == channel && State() == HookState([], false, None, {})
    {
      channelId := channel;
      messages := [];
      loading := false;
      error := None;
      deleting := {};
    }

    method AppendNewMessage(m: Message)
      modifies this
      ensures channelId == old(channelId) && State() == Append(old(State()), m)
    {
      if exists x :: x in messages && x.id == m.id {
        return;
      }
      messages := messages + [m];
    }

    method DeleteMessage(id: string)
      modifies this
      ensures channelId == old(channelId) && State() == Delete(old(State()), id)
    {
      if id in deleting {
        return;
      }
      deleting := deleting + {id};
      messages := RemoveKey(messages, id, IdOf());
    }

    method HandleMessageDeleted(d: DeleteData)
      modifies this
      ensures channelId == old(channelId) && State() == OnDeleted(old(State()), old(channelId), d)
    {
      if d.channelId == channelId {
        DeleteMessage(d.messageId);
      }
    }

    method HandleDeleteError(e: ErrorData)
      modifies this
      ensures channelId == old(channelId) && State() == OnDeleteError(old(State()), e)
    {
      if !AlreadyDeleted(e.error) {
        error := Some("Failed to delete message: " + TextOf(e.error));
      } else if Truthy(e.messageId) {
        messages := RemoveKey(messages, e.messageId.value, IdOf());
      }
      if Truthy(e.messageId) {
        deleting := deleting - {e.messageId.value};
      }
    }
  }

  // ---- Properties ----

  /** A message whose id is already listed changes nothing; a new one goes at the end, and ids stay unique. */
  lemma AppendSpec(st: HookState, m: Message)
    requires UniqueKeys(st.messages, IdOf())
    ensures var r := Append(st, m);
      && ((exists x :: x in st.messages && x.id == m.id) ==> r == st)
      && ((forall x :: x in st.messages ==> x.id != m.id) ==> r.messages == st.messages + [m])
      && UniqueKeys(r.messages, IdOf())
  {
    AppendKeepsKeysUnique(st.messages, m, IdOf());
  }

  /**
   * A delete already in progress changes nothing. Otherwise the id joins the set and
   * every message with it leaves the list, the others staying; a second delete of the
   * same id then changes nothing.
   */
  lemma DeleteSpec(st: HookState, id: string)
    ensures var r := Delete(st, id);
      && (id in st.deleting ==> r == st)
      && (id !in st.deleting ==>
            r.deleting == st.deleting + {id}
            && (forall x :: x in r.messages <==> x in st.messages && x.id != id))
      && (id !in st.deleting && UniqueKeys(st.messages, IdOf()) ==>
            forall i :: 0 <= i < |st.messages| && st.messages[i].id == id ==>
              r.messages == st.messages[..i] + st.messages[i + 1..])
      && (id !in st.deleting && (forall x :: x in st.messages ==> x.id != id) ==> r.messages == st.messages)
      && Delete(r, id) == r
  {
    if id !in st.deleting {
      forall i | 0 <= i < |st.messages| && UniqueKeys(st.messages, IdOf()) && st.messages[i].id == id
        ensures Delete(st, id).messages == st.messages[..i] + st.messages[i + 1..]
      {
        RemoveUnique(st.messages, i, IdOf());
      }
      if forall x :: x in st.messages ==> x.id != id {
        RemoveAbsent(st.messages, id, IdOf());
      }
    }
  }

  /**
   * Without a channel the list is emptied and nothing else changes. With one, a loaded
   * response replaces the list and clears the error; a failed one shows its message and
   * keeps the list already shown. Loading is over either way.
   */
  lemma FetchSpec(st: HookState, channelId: Option<string>, result: Fetch)
    ensures var r := FetchMessages(st, channelId, result);
      && (!Truthy(channelId) ==> r.messages == [] && r.loading == st.loading && r.error == st.error)
      && (Truthy(channelId) && result.Loaded? ==>
            r.messages == result.data && r.error == None && !r.loading)
      && (Truthy(channelId) && result.Failed? ==>
            r.messages == st.messages && r.error == Some(result.message) && !r.loading)
  {
  }

  /** A delete event for another channel is ignored. */
  lemma OtherChannelIgnored(st: HookState, channelId: Option<string>, d: DeleteData)
    requires d.channelId != channelId
    ensures OnDeleted(st, channelId, d) == st
  {
  }

  /**
   * A delete error that says "already deleted" removes the message instead of showing an
   * error; any other shows "Failed to delete message: …" and keeps the list. Either way a
   * given id leaves the in-progress set.
   */
  lemma DeleteErrorSpec(st: HookState, e: ErrorData)
    ensures var r := OnDeleteError(st, e);
      && (AlreadyDeleted(e.error) ==> r.error == st.error)
      && (AlreadyDeleted(e.error) && Truthy(e.messageId) ==>
            forall x :: x in r.messages <==> x in st.messages && x.id != e.messageId.value)
      && (AlreadyDeleted(e.error) && Truthy(e.messageId) && UniqueKeys(st.messages, IdOf()) ==>
            forall i :: 0 <= i < |st.messages| && st.messages[i].id == e.messageId.value ==>
              r.messages == st.messages[..i] + st.messages[i + 1..])
      && (!AlreadyDeleted(e.error) ==>
            r.error == Some("Failed to delete message: " + TextOf(e.error)) && r.messages == st.messages)
      && (Truthy(e.messageId) ==> r.deleting == st.deleting - {e.messageId.value})
      && (!Truthy(e.messageId) ==> r.deleting == st.deleting)
  {
    if AlreadyDeleted(e.error) && Truthy(e.messageId) {
      forall i | 0 <= i < |st.messages| && UniqueKeys(st.messages, IdOf()) && st.messages[i].id == e.messageId.value
        ensures OnDeleteError(st, e).messages == st.messages[..i] + st.messages[i + 1..]
      {
        RemoveUnique(st.messages, i, IdOf());
      }
    }
  }

  /** Without a channel the list and the in-progress set are emptied. */
  lemma NoChannelClears(st: HookState, channelId: Option<string>, result: Fetch)
    requires !Truthy(channelId)
    ensures ChannelChanged(st, channelId, result) == st.(messages := [], deleting := {})
  {
  }

  /**
   * None of the delete errors the server sends (`deleteMessage.js`) says "already
   * deleted", so the branch that removes the message on such an error is never taken.
   */
  lemma ServerErrorsAreShown()
    ensures !AlreadyDeleted(Some("Message not found"))
    ensures !AlreadyDeleted(Some("You can only delete your own messages"))
    ensures !AlreadyDeleted(Some("User not found in connected users"))
    ensures !AlreadyDeleted(Some("Invalid delete data: messageId is required"))
  {
    NotContainsAlready("Message not found");
    NotContainsAlready("You can only delete your own messages");
    NotContainsAlready("User not found in connected users");
    NotContainsAlready("Invalid delete data: messageId is required");
  }

  /** A string in which "alr" never occurs does not contain "already deleted". */
  lemma NotContainsAlready(s: string)
    requires forall i :: 0 <= i < |s| - 2 ==> !(s[i] == 'a' && s[i + 1] == 'l' && s[i + 2] == 'r')
    ensures !Contains(s, "already deleted")
  {
    forall i | 0 <= i <= |s| - 15 ensures !("already deleted" <= s[i..]) {
      assert !(s[i] == 'a' && s[i + 1] == 'l' && s[i + 2] == 'r');
      assert s[i..][0] == s[i] && s[i..][1] == s[i + 1] && s[i..][2] == s[i + 2];
    }
  }
}
