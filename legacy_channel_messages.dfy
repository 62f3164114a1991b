/**
 * `client/src/hooks/useChannelMessages.js`, the older form of the channel-messages
 * hook: no deletion handling, and an `enabled` flag that clears the list instead of
 * fetching.
 */
module LegacyChannelMessages {
  import opened Wrappers
  import opened ClientLists
  import ChannelMessages

  type Message = ChannelMessages.Message
  type Response = ChannelMessages.Fetch

  datatype LegacyState = LegacyState(messages: seq<Message>, loading: bool, error: Option<string>)

  /** Lines 8-35: no channel clears the list without a request; otherwise the response replaces it, or its error is shown. */
  function Fetch(st: LegacyState, channelId: Option<string>, result: Response): (r: LegacyState) {
    if !Truthy(channelId) then st.(messages := [])
    else
      if result.Loaded? then st.(messages := result.data, loading := false, error := None)
      else st.(loading := false, error := Some(result.message))
  }

  /** `appendNewMessage` (lines 38-48). */
  function Append(st: LegacyState, m: Message): (r: LegacyState) {
    st.(messages := AppendNew(st.messages, m, ChannelMessages.IdOf()))
  }

  /** The effect of lines 51-57. */
  function Effect(st: LegacyState, channelId: Option<string>, enabled: bool, result: Response): (r: LegacyState) {
    if enabled then Fetch(st, channelId, result) else st.(messages := [])
  }

  /** The hook's state as fields. */
  class LegacyChannelMessagesHook {
    var messages: seq<Message>
    var loading: bool
    var error: Option<string>

    function State(): LegacyState
      reads this
    {
      LegacyState(messages, loading, error)
    }

    constructor ()
      ensures State() == LegacyState([], false, None)
    {
      messages := [];
      loading := false;
      error := None;
    }

    method AppendNewMessage(m: Message)
      modifies this
      ensures State() == Append(old(State()), m)
    {
      if exists x :: x in messages && x.id == m.id {
        return;
      }
      messages := messages + [m];
    }

    method RunEffect(channelId: Option<string>, enabled: bool, result: Response)
      modifies this
      ensures State() == Effect(old(State()), channelId, enabled, result)
    {
      if !enabled || !Truthy(channelId) {
        messages := [];
        return;
      }
      if result.Loaded? {
        messages := result.data;
        error := None;
      } else {
        error := Some(result.message);
      }
      loading := false;
    }
  }

  // ---- Properties ----

  /**
   * A listed id leaves the list as it was; a new one is added at the end, so the list
   * grows by one and the earlier messages keep their order.
   */
  lemma AppendSpec(st: LegacyState, m: Message)
    ensures var r := Append(st, m);
      && ((exists x :: x in st.messages && x.id == m.id) ==> r == st)
      && ((forall x :: x in st.messages ==> x.id != m.id) ==>
            |r.messages| == |st.messages| + 1 && r.messages[..|st.messages|] == st.messages
            && r.messages[|st.messages|] == m)
  {
  }

  /** Disabled, the list is emptied and nothing else changes; without a channel the same holds when enabled. */
  lemma EffectClears(st: LegacyState, channelId: Option<string>, enabled: bool, result: Response)
    requires !enabled || !Truthy(channelId)
    ensures Effect(st, channelId, enabled, result) == st.(messages := [])
  {
  }

  /** With a channel and a successful response, the list is the response and no error is shown. */
  lemma EffectLoads(st: LegacyState, channelId: Option<string>, data: seq<Message>)
    requires Truthy(channelId)
    ensures Effect(st, channelId, true, ChannelMessages.Loaded(data)) == LegacyState(data, false, None)
  {
  }
}
