/**
 * `client/src/hooks/channels/useActiveChannel.js`: which channel is open. The open
 * channel object is looked up by id, and when nothing is selected and channels are
 * loaded, the channel named "general" is picked, or else the first one.
 */
module ActiveChannel {
  import opened Wrappers
  import opened Seqs

  /** The fields of a channel the hook reads. */
  datatype ChannelItem = ChannelItem(id: string, name: string)

  function HasId(id: string): ChannelItem -> bool {
    (c: ChannelItem) => c.id == id
  }

  function IsGeneral(): ChannelItem -> bool {
    (c: ChannelItem) => c.name == "general"
  }

  /**
   * `channels.find((c) => c.id === activeChannelId) || null` (lines 14-17): the first
   * channel with the selected id; nothing when no id is selected or none matches.
   */
  function Lookup(channels: seq<ChannelItem>, activeChannelId: Option<string>): (r: Option<ChannelItem>)
    ensures activeChannelId.None? ==> r.None?
    ensures r.Some? ==> r.value in channels && Some(r.value.id) == activeChannelId
  {
    match activeChannelId
    case None => None
    case Some(id) => Find(channels, HasId(id))
  }

  /** The selection effect (lines 20-38): the id selected after it runs. */
  function SelectDefault(channels: seq<ChannelItem>, activeChannelId: Option<string>): (r: Option<string>) {
    if |channels| > 0 && !Truthy(activeChannelId) then
      match Find(channels, IsGeneral())
      case Some(g) => Some(g.id)
      case None => Some(channels[0].id)
    else activeChannelId
  }

  // ---- Properties ----

  /** The lookup finds the first channel with the selected id, and nothing iff there is none. */
  lemma LookupSpec(channels: seq<ChannelItem>, id: string)
    ensures Lookup(channels, Some(id)).None? <==> forall c :: c in channels ==> c.id != id
    ensures Lookup(channels, Some(id)).Some? ==>
      exists i :: 0 <= i < |channels| && channels[i] == Lookup(channels, Some(id)).value
                  && forall j :: 0 <= j < i ==> channels[j].id != id
  {
    match FindIndex(channels, HasId(id))
    case None =>
    case Some(i) =>
      assert Find(channels, HasId(id)) == Some(channels[i]);
  }

  /**
   * With nothing selected, the first channel named "general" in list order is selected
   * (names may repeat, and `find` stops at the first).
   */
  lemma SelectsGeneral(channels: seq<ChannelItem>, activeChannelId: Option<string>, i: nat)
    requires !Truthy(activeChannelId)
    requires i < |channels| && channels[i].name == "general"
    requires forall j :: 0 <= j < i ==> channels[j].name != "general"
    ensures SelectDefault(channels, activeChannelId) == Some(channels[i].id)
  {
    assert IsGeneral()(channels[i]);
    assert FindIndex(channels, IsGeneral()) == Some(i);
  }

  /** Without a "general" channel, the first channel is selected. */
  lemma SelectsFirst(channels: seq<ChannelItem>, activeChannelId: Option<string>)
    requires !Truthy(activeChannelId) && |channels| > 0
    requires forall c :: c in channels ==> c.name != "general"
    ensures SelectDefault(channels, activeChannelId) == Some(channels[0].id)
  {
  }

  /** A selection is never overridden, and an empty list selects nothing. */
  lemma KeepsSelection(channels: seq<ChannelItem>, activeChannelId: Option<string>)
    requires Truthy(activeChannelId) || channels == []
    ensures SelectDefault(channels, activeChannelId) == activeChannelId
  {
  }

  /**
   * After the effect picks a channel, the lookup finds a channel for it; and when the
   * picked id is non-empty, the effect re-running on the new selection changes nothing.
   */
  lemma SelectionResolves(channels: seq<ChannelItem>, activeChannelId: Option<string>)
    requires |channels| > 0 && !Truthy(activeChannelId)
    ensures Lookup(channels, SelectDefault(channels, activeChannelId)).Some?
    ensures Truthy(SelectDefault(channels, activeChannelId)) ==>
      SelectDefault(channels, SelectDefault(channels, activeChannelId)) == SelectDefault(channels, activeChannelId)
  {
    var r := SelectDefault(channels, activeChannelId);
    match Find(channels, IsGeneral())
    case Some(g) =>
      assert HasId(g.id)(g);
    case None =>
      assert HasId(channels[0].id)(channels[0]);
  }
}
