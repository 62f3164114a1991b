/**
 * The display formatters of `client/src/utils/chatHelpers.js`: chat messages,
 * the current user's chip, the direct-message list and the online-member list,
 * each built from what the server sends.
 */
module ChatHelpers {
  import opened Wrappers
  import opened Seqs
  import opened Text
  import opened ChatUtils

  /** A message as the client holds it; the username may be missing. */
  datatype ClientMessage = ClientMessage(
    id: string, messageType: Option<string>, username: Option<string>, text: string,
    isSystem: bool, isDeleted: Option<bool>)

  /** The `user` part of a displayed message. */
  datatype Avatar = Avatar(name: Option<string>, initials: string, bgColor: Option<string>)

  /** A message as it is displayed (the formatted timestamp is left out). */
  datatype Shown = Shown(
    id: string, messageType: Option<string>, user: Avatar, content: string,
    isSystem: bool, isOwn: bool, isDeleted: Option<bool>)

  /** Lines 11-26: one message; `current` is `user?.username`. */
  function Show(m: ClientMessage, current: Option<string>): Shown {
    Shown(m.id, m.messageType,
          Avatar(m.username, Initials(OrElse(m.username, "SY")),
                 if m.isSystem then Some("bg-gray-500") else Color(OrElse(m.username, "System"))),
          m.text, m.isSystem, m.username == current, m.isDeleted)
  }

  /**
   * `formatMessagesForDisplay`: one entry per message, in order, copying id, text and
   * deletion flag. A message is the reader's own exactly when the usernames are equal
   * (two missing usernames count as equal, as `undefined === undefined`); system
   * messages are grey, any other takes the palette colour of its username (or of
   * "System"), and the initials are those of the username, or "SY" without one.
   */
  function FormatMessagesForDisplay(ms: seq<ClientMessage>, current: Option<string>): (r: seq<Shown>)
    ensures |r| == |ms|
    ensures forall i :: 0 <= i < |ms| ==>
      && r[i].id == ms[i].id && r[i].content == ms[i].text && r[i].isDeleted == ms[i].isDeleted
      && r[i].messageType == ms[i].messageType && r[i].isSystem == ms[i].isSystem
      && (r[i].isOwn <==> ms[i].username == current)
      && (ms[i].isSystem ==> r[i].user.bgColor == Some("bg-gray-500"))
      && (!ms[i].isSystem ==> r[i].user.bgColor == Color(OrElse(ms[i].username, "System")))
      && (!ms[i].isSystem ==> r[i].user.bgColor.Some? && r[i].user.bgColor.value in PALETTE)
      && r[i].user.initials == Initials(OrElse(ms[i].username, "SY"))
      && (!Truthy(ms[i].username) ==> r[i].user.initials == "SY")
  {
    seq(|ms|, i requires 0 <= i < |ms| => Show(ms[i], current))
  }

  /** The logged-in user as the client knows it. */
  datatype CurrentUser = CurrentUser(id: string, username: string, status: Option<string>)

  datatype Chip = Chip(name: string, initials: string, bgColor: Option<string>, status: string)

  /** `formatCurrentUserData` (lines 36-45): `null` without a user; the status defaults to "Online". */
  function FormatCurrentUserData(user: Option<CurrentUser>): (r: Option<Chip>)
    ensures r.Some? <==> user.Some?
    ensures r.Some? ==> r.value.name == user.value.username
                        && r.value.initials == Initials(user.value.username)
                        && (Truthy(user.value.status) ==> r.value.status == user.value.status.value)
                        && (!Truthy(user.value.status) ==> r.value.status == "Online")
  {
    match user
    case None => None
    case Some(u) => Some(Chip(u.username, Initials(u.username), Color(u.username), OrElse(u.status, "Online")))
  }

  /** An entry of the server's users list; the list may hold `null`s. */
  datatype Connected = Connected(userId: string, username: string, status: Option<string>)

  /** `status?.toLowerCase() || fallback`. */
  function StatusText(status: Option<string>, fallback: string): (r: string)
    ensures status.Some? && status.value != "" ==> r == ToLower(status.value)
    ensures status.None? || status.value == "" ==> r == fallback
  {
    match status
    case Some(s) => if ToLower(s) != "" then ToLower(s) else fallback
    case None => fallback
  }

  datatype DmUser = DmUser(id: string, name: string, initials: string, bgColor: Option<string>, status: string)
  datatype DmEntry = DmEntry(user: DmUser, unreadCount: nat)

  /** The filter of line 56: a non-null entry for someone other than the reader. */
  function NotReader(reader: Option<string>): Option<Connected> -> bool {
    (c: Option<Connected>) => c.Some? && Some(c.value.userId) != reader
  }

  function DmEntryOf(c: Connected): DmEntry {
    DmEntry(DmUser(c.userId, c.username, Initials(c.username), Color(c.username), StatusText(c.status, "Online")), 0)
  }

  /**
   * `formatDirectMessages` (lines 54-67); `reader` is `user?.id`. Each remaining entry,
   * in order, becomes a DM entry with no unread messages and its status lower-cased
   * ("Online" when missing).
   */
  function FormatDirectMessages(us: seq<Option<Connected>>, reader: Option<string>): (r: seq<DmEntry>)
    ensures var kept := Filter(us, NotReader(reader));
      && |r| == |kept|
      && forall i :: 0 <= i < |r| ==> r[i] == DmEntryOf(kept[i].value)
  {
    var kept := Filter(us, NotReader(reader));
    seq(|kept|, i requires 0 <= i < |kept| => DmEntryOf(kept[i].value))
  }

  datatype Member = Member(id: string, userId: string, name: string, initials: string, bgColor: Option<string>, status: string)

  /** The filter of lines 81-86: a username and a user id that is not blank. */
  function Listable(): Option<Connected> -> bool {
    (c: Option<Connected>) => c.Some? && c.value.userId != "" && c.value.username != "" && Trim(c.value.userId) != ""
  }

  function MemberOf(c: Connected): Member {
    Member(c.userId, c.userId, c.username, Initials(c.username), Color(c.username), StatusText(c.status, "online"))
  }

  /**
   * `formatOnlineMembers` (lines 75-95): `[]` when the argument is not an array;
   * otherwise the listable entries in order, with `id` set to the user id.
   */
  function FormatOnlineMembers(us: Option<seq<Option<Connected>>>): (r: seq<Member>)
    ensures us.None? ==> r == []
    ensures us.Some? ==> var kept := Filter(us.value, Listable());
      && |r| == |kept|
      && forall i :: 0 <= i < |r| ==> r[i] == MemberOf(kept[i].value)
  {
    match us
    case None => []
    case Some(list) =>
      var kept := Filter(list, Listable());
      seq(|kept|, i requires 0 <= i < |kept| => MemberOf(kept[i].value))
  }

  /**
   * The DM list never shows the reader, shows every other connected user, and marks
   * every entry as read.
   */
  lemma DirectMessagesExcludeReader(us: seq<Option<Connected>>, reader: string)
    ensures var r := FormatDirectMessages(us, Some(reader));
      && (forall i :: 0 <= i < |r| ==> r[i].user.id != reader && r[i].unreadCount == 0)
      && (forall c :: Some(c) in us && c.userId != reader ==> exists i :: 0 <= i < |r| && r[i] == DmEntryOf(c))
  {
    var kept := Filter(us, NotReader(Some(reader)));
    var r := FormatDirectMessages(us, Some(reader));
    forall c | Some(c) in us && c.userId != reader ensures exists i :: 0 <= i < |r| && r[i] == DmEntryOf(c) {
      var i :| 0 <= i < |kept| && kept[i] == Some(c);
      assert r[i] == DmEntryOf(c);
    }
  }

  /** Every listed member has a username and a non-blank id, which is also its user id. */
  lemma OnlineMembersListable(us: seq<Option<Connected>>)
    ensures var r := FormatOnlineMembers(Some(us));
      forall i :: 0 <= i < |r| ==> r[i].id == r[i].userId && r[i].name != "" && Trim(r[i].userId) != ""
  {
    var kept := Filter(us, Listable());
    var r := FormatOnlineMembers(Some(us));
    forall i | 0 <= i < |r| ensures r[i].id == r[i].userId && r[i].name != "" && Trim(r[i].userId) != "" {
      assert Listable()(kept[i]);
      assert r[i] == MemberOf(kept[i].value);
    }
  }

  /** Every entry with a username and a non-blank user id is listed. */
  lemma OnlineMembersComplete(us: seq<Option<Connected>>, c: Connected)
    requires Some(c) in us && c.username != "" && Trim(c.userId) != ""
    ensures var r := FormatOnlineMembers(Some(us));
      exists i :: 0 <= i < |r| && r[i] == MemberOf(c)
  {
    var kept := Filter(us, Listable());
    var r := FormatOnlineMembers(Some(us));
    assert Trim("") == "";
    assert c.userId != "";
    assert Listable()(Some(c));
    assert Some(c) in kept;
    var i :| 0 <= i < |kept| && kept[i] == Some(c);
    assert r[i] == MemberOf(kept[i].value);
  }
}
