/**
 * `client/src/hooks/messages/useActiveDirectMessage.js`: the user of the open direct
 * conversation, looked up in the connected-users list.
 */
module ActiveDm {
  import opened Wrappers
  import opened Seqs
  import opened ChatHelpers

  /** `u.userId === activeDmId && u.userId !== currentUserId` (line 18). */
  function Qualifies(activeDmId: Option<string>, currentUserId: Option<string>): Connected -> bool {
    (u: Connected) => activeDmId == Some(u.userId) && currentUserId != Some(u.userId)
  }

  /**
   * `connectedUsers.find(…) || null` (lines 15-21): the first connected user whose id
   * is the open conversation's and is not the current user's own.
   */
  function ActiveDmUser(connectedUsers: seq<Connected>, activeDmId: Option<string>, currentUserId: Option<string>)
    : (r: Option<Connected>)
    ensures r.Some? ==> r.value in connectedUsers
    ensures r.Some? ==> activeDmId == Some(r.value.userId) && currentUserId != Some(r.value.userId)
    ensures r.None? <==> forall u :: u in connectedUsers ==> !Qualifies(activeDmId, currentUserId)(u)
  {
    match FindIndex(connectedUsers, Qualifies(activeDmId, currentUserId))
    case None => None
    case Some(i) => Some(connectedUsers[i])
  }

  // ---- Properties ----

  /** The result is the first qualifying entry in list order. */
  lemma FirstMatch(connectedUsers: seq<Connected>, activeDmId: Option<string>, currentUserId: Option<string>, i: nat)
    requires i < |connectedUsers| && Qualifies(activeDmId, currentUserId)(connectedUsers[i])
    requires forall j :: 0 <= j < i ==> !Qualifies(activeDmId, currentUserId)(connectedUsers[j])
    ensures ActiveDmUser(connectedUsers, activeDmId, currentUserId) == Some(connectedUsers[i])
  {
    var k := FindIndex(connectedUsers, Qualifies(activeDmId, currentUserId));
    assert k.Some?;
    assert k.value == i;
  }

  /** Opening a conversation with oneself shows nobody; no open conversation shows nobody. */
  lemma SelfOrNoneIsNull(connectedUsers: seq<Connected>, activeDmId: Option<string>, currentUserId: Option<string>)
    requires activeDmId == currentUserId || activeDmId.None?
    ensures ActiveDmUser(connectedUsers, activeDmId, currentUserId).None?
  {
  }
}
