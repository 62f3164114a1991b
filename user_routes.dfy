/**
 * The authenticated REST routes of `server/src/routes/user.js`: the requester's
 * profile, the channels they may see, channel creation with its member rows,
 * channel deletion, and a channel's message history. Each route is a function
 * from the store (and the request) to the new store and the HTTP response; the
 * member list of a new channel is built by a loop, as the source builds it.
 */
module UserRoutes {
  import opened Wrappers
  import opened Seqs
  import opened Store

  /** The `mentionedUser` / `user` selections of the history query. */
  datatype Author = Author(id: Id, username: string)

  /** One formatted history entry (the timestamp is left out). */
  datatype Entry = Entry(id: Id, text: string, username: string, userId: Id, mentionedUser: Option<Author>)

  datatype Body =
    | ErrorBody(error: string)
    | Profile(user: Option<User>)
    | Channels(channels: seq<Channel>)
    | Created(channel: Channel)
    | Notice(message: string)
    | History(entries: seq<Entry>)

  datatype Response = Response(status: nat, body: Body)

  /** The store after a route and the response it sends. */
  datatype Reply = Reply(db: Db, response: Response)

  // ---- GET /me ----

  /** Lines 12-34: the requester's row, or `null` when it no longer exists. */
  function Me(db: Db, requester: Id): (r: Response)
    ensures r.status == 200 && r.body.Profile?
    ensures r.body.user.Some? <==> HasUser(db, requester)
    ensures r.body.user.Some? ==> r.body.user.value in db.users && r.body.user.value.id == requester
  {
    Response(200, Profile(FindUser(db, requester)))
  }

  // ---- GET /channels ----

  /** The `where` of lines 41-57: public, or private with a membership row for the requester. */
  function VisibleTo(db: Db, requester: Id): Channel -> bool {
    (c: Channel) => !c.isPrivate || (c.isPrivate && IsMember(db, requester, c.id))
  }

  /** Lines 37-67: the visible channels in table order. */
  function ListChannels(db: Db, requester: Id): Response {
    Response(200, Channels(Filter(db.channels, VisibleTo(db, requester))))
  }

  // ---- POST /channels ----

  /** The request body; each field may be missing. */
  datatype NewChannel = NewChannel(name: Option<string>, description: Option<string>, isPrivate: Option<bool>)

  const MAX_NAME_LENGTH := 100
  const MAX_DESCRIPTION_LENGTH := 255

  /** Lines 78-86: the 400 answer for an over-long name or description, checked in that order. */
  function Validate(d: NewChannel): (r: Option<Response>)
    ensures r.Some? <==> (Truthy(d.name) && |d.name.value| > MAX_NAME_LENGTH)
                         || (Truthy(d.description) && |d.description.value| > MAX_DESCRIPTION_LENGTH)
    ensures r.Some? ==> r.value.status == 400 && r.value.body.ErrorBody?
    ensures Truthy(d.name) && |d.name.value| > MAX_NAME_LENGTH ==>
              r == Some(Response(400, ErrorBody("Name exceeds 100 characters.")))
  {
    if Truthy(d.name) && |d.name.value| > MAX_NAME_LENGTH then
      Some(Response(400, ErrorBody("Name exceeds 100 characters.")))
    else if Truthy(d.description) && |d.description.value| > MAX_DESCRIPTION_LENGTH then
      Some(Response(400, ErrorBody("Description exceeds 255 characters")))
    else None
  }

  /** Whether the body makes a private channel (`isPrivate` is falsy when missing). */
  predicate IsPrivate(d: NewChannel) {
    d.isPrivate == Some(true)
  }

  /** The rows the `forEach` of lines 109-116 pushes: every other user, in table order. */
  function OtherMembers(users: seq<User>, creator: Id, channelId: Id): (r: seq<Member>)
    ensures forall m :: m in r <==> m.channelId == channelId && m.userId != creator
                                    && exists u :: u in users && u.id == m.userId
  {
    if users == [] then []
    else
      var last := users[|users| - 1];
      var rest := OtherMembers(users[..|users| - 1], creator, channelId);
      assert forall u :: u in users <==> u in users[..|users| - 1] || u == last;
      rest + (if last.id != creator then [Member(last.id, channelId)] else [])
  }

  /** `channelMembersToCreate` of lines 97-117: the creator first, then everyone else for a public channel. */
  function MembersToCreate(users: seq<User>, creator: Id, channelId: Id, isPrivate: bool): seq<Member> {
    [Member(creator, channelId)] + (if isPrivate then [] else OtherMembers(users, creator, channelId))
  }

  /** Lines 97-117, as the loop the source runs. */
  method BuildMembersToCreate(users: seq<User>, creator: Id, channelId: Id, isPrivate: bool) returns (rows: seq<Member>)
    ensures rows == MembersToCreate(users, creator, channelId, isPrivate)
  {
    rows := [Member(creator, channelId)];
    if !isPrivate {
      var i := 0;
      while i < |users|
        invariant 0 <= i <= |users|
        invariant rows == [Member(creator, channelId)] + OtherMembers(users[..i], creator, channelId)
      {
        if users[i].id != creator {
          rows := rows + [Member(users[i].id, channelId)];
        }
        assert users[..i + 1][..i] == users[..i];
        i := i + 1;
      }
      assert users[..i] == users;
    }
  }

  /**
   * `createMany({ data: rows, skipDuplicates: true })`: each row not yet in the table is
   * appended, in order; a row already there (or earlier in the batch) is skipped.
   */
  function InsertMissing(members: seq<Member>, rows: seq<Member>): (r: seq<Member>)
    ensures members <= r
    ensures forall m :: m in r <==> m in members || m in rows
    ensures Distinct(members) ==> Distinct(r)
    decreases rows
  {
    if rows == [] then members
    else
      var next := if rows[0] in members then members else members + [rows[0]];
      assert forall m :: m in rows <==> m == rows[0] || m in rows[1..];
      InsertMissing(next, rows[1..])
  }

  /**
   * Lines 70-130. After validation the channel row is created; the member rows then go
   * in unless one names a user that does not exist, in which case the whole batch fails
   * with a 500 and the channel stays behind.
   */
  function CreateChannel(db: Db, requester: Id, d: NewChannel, newId: Id): (r: Reply)
    ensures Validate(d).Some? ==> r == Reply(db, Validate(d).value)
  {
    match Validate(d)
    case Some(bad) => Reply(db, bad)
    case None =>
      var ch := Channel(newId, d.name, d.description, IsPrivate(d));
      var db1 := db.(channels := db.channels + [ch]);
      var rows := MembersToCreate(db1.users, requester, newId, IsPrivate(d));
      if exists m :: m in rows && !HasUser(db1, m.userId) then
        Reply(db1, Response(500, ErrorBody("Internal server error")))
      else
        Reply(db1.(members := InsertMissing(db1.members, rows)), Response(201, Created(ch)))
  }

  // ---- DELETE /channels/:id ----

  /** Lines 133-159: 404 for an unknown id; otherwise the channel goes, and its memberships and messages with it. */
  function DeleteChannel(db: Db, id: Id): (r: Reply)
    ensures r.db.users == db.users && r.db.directMessages == db.directMessages
  {
    if FindChannel(db, id).None? then Reply(db, Response(404, ErrorBody("Channel not found")))
    else
      var db' := db.(channels := Filter(db.channels, (c: Channel) => c.id != id),
                     members := Filter(db.members, (m: Member) => m.channelId != id),
                     messages := Filter(db.messages, (m: Message) => m.channelId != id));
      Reply(db', Response(200, Notice("Channel deleted successfully")))
  }

  // ---- GET /channels/:channelId/messages ----

  const DEFAULT_LIMIT := 50

  /** Lines 209-216: one history entry. */
  function FormatEntry(db: Db, m: Message): Entry {
    Entry(m.id, m.content, UsernameOf(db, m.userId), m.userId,
          match m.mentionedUserId
          case Some(u) => if HasUser(db, u) then Some(Author(u, UsernameOf(db, u))) else None
          case None => None)
  }

  function FormatEntries(db: Db, ms: seq<Message>): (r: seq<Entry>)
    ensures |r| == |ms|
    ensures forall i :: 0 <= i < |ms| ==> r[i] == FormatEntry(db, ms[i])
  {
    if ms == [] then [] else [FormatEntry(db, ms[0])] + FormatEntries(db, ms[1..])
  }

  /** Lines 162-223: members only; then the newest `limit` messages before the cut-off, oldest first. */
  function ChannelHistory(db: Db, requester: Id, channelId: Id, limit: Option<nat>, before: Option<Time>): Response {
    if !IsMember(db, requester, channelId) then Response(403, ErrorBody("Not a member of this channel"))
    else Response(200, History(FormatEntries(db, NewestChannelMessages(db, channelId, before, limit.GetOr(DEFAULT_LIMIT)))))
  }

  /** The `where` of lines 183-186. */
  function InHistory(channelId: Id, before: Option<Time>): Message -> bool {
    (m: Message) => m.channelId == channelId && Before(m.createdAt, before)
  }

  // ---- Properties ----

  /** The listed channels are exactly the public ones and the private ones the requester belongs to, in table order. */
  lemma ListChannelsSpec(db: Db, requester: Id)
    ensures var r := ListChannels(db, requester);
      && r.status == 200
      && (forall c :: c in r.body.channels <==> c in db.channels && (!c.isPrivate || IsMember(db, requester, c.id)))
      && |r.body.channels| <= |db.channels|
  {
  }

  /** A private channel's member rows are the creator's row alone; a public one's are the creator's and one per other user. */
  lemma MembersToCreateSpec(users: seq<User>, creator: Id, channelId: Id, isPrivate: bool)
    ensures var rows := MembersToCreate(users, creator, channelId, isPrivate);
      && rows[0] == Member(creator, channelId)
      && (isPrivate ==> rows == [Member(creator, channelId)])
      && (forall m :: m in rows <==>
            (m.channelId == channelId
             && (m.userId == creator || (!isPrivate && exists u :: u in users && u.id == m.userId))))
  {
  }

  /** An over-long name or description is refused with a 400 before anything is stored. */
  lemma CreateRejected(db: Db, requester: Id, d: NewChannel, newId: Id)
    requires (Truthy(d.name) && |d.name.value| > MAX_NAME_LENGTH)
             || (Truthy(d.description) && |d.description.value| > MAX_DESCRIPTION_LENGTH)
    ensures var r := CreateChannel(db, requester, d, newId);
      && r.db == db && r.response.status == 400
      && (Truthy(d.name) && |d.name.value| > MAX_NAME_LENGTH ==>
            r.response.body == ErrorBody("Name exceeds 100 characters."))
      && (!(Truthy(d.name) && |d.name.value| > MAX_NAME_LENGTH) ==>
            r.response.body == ErrorBody("Description exceeds 255 characters"))
  {
  }

  /**
   * A valid request from an existing user creates the channel and answers 201. A private
   * channel gets exactly one member row, the creator's; a public one gets a row for the
   * creator and for every user, and none twice when the table had no duplicates.
   */
  lemma CreateChannelSpec(db: Db, requester: Id, d: NewChannel, newId: Id)
    requires Validate(d).None? && HasUser(db, requester)
    requires forall m :: m in db.members ==> m.channelId != newId
    ensures var r := CreateChannel(db, requester, d, newId);
      var ch := Channel(newId, d.name, d.description, IsPrivate(d));
      && r.response == Response(201, Created(ch))
      && r.db.channels == db.channels + [ch]
      && db.members <= r.db.members
      && (Distinct(db.members) ==> Distinct(r.db.members))
      && (forall u :: Member(u, newId) in r.db.members <==>
            u == requester || (!IsPrivate(d) && exists x :: x in db.users && x.id == u))
      && (forall m :: m in r.db.members ==> m in db.members || m.channelId == newId)
  {
    var rows := MembersToCreate(db.users, requester, newId, IsPrivate(d));
    forall m | m in rows ensures HasUser(db, m.userId) {
      if m.userId != requester {
        var x :| x in db.users && x.id == m.userId;
      }
    }
  }

  /** A member row for a user who no longer exists fails the batch: 500, yet the channel row stays. */
  lemma CreateForMissingCreator(db: Db, requester: Id, d: NewChannel, newId: Id)
    requires Validate(d).None? && !HasUser(db, requester)
    ensures var r := CreateChannel(db, requester, d, newId);
      && r.response == Response(500, ErrorBody("Internal server error"))
      && r.db == db.(channels := db.channels + [Channel(newId, d.name, d.description, IsPrivate(d))])
  {
    var db1 := db.(channels := db.channels + [Channel(newId, d.name, d.description, IsPrivate(d))]);
    assert Member(requester, newId) in MembersToCreate(db1.users, requester, newId, IsPrivate(d));
  }

  /**
   * An unknown id gets a 404 and changes nothing. Otherwise the channel, its memberships
   * and its messages are gone, everything else stays, and the foreign keys still resolve.
   */
  lemma DeleteChannelSpec(db: Db, id: Id)
    ensures var r := DeleteChannel(db, id);
      && (!HasChannel(db, id) ==> r == Reply(db, Response(404, ErrorBody("Channel not found"))))
      && (HasChannel(db, id) ==>
            && r.response == Response(200, Notice("Channel deleted successfully"))
            && !HasChannel(r.db, id)
            && (forall c :: c in r.db.channels <==> c in db.channels && c.id != id)
            && (forall m :: m in r.db.members <==> m in db.members && m.channelId != id)
            && (forall m :: m in r.db.messages <==> m in db.messages && m.channelId != id))
      && (Valid(db) ==> Valid(r.db))
  {
    var r := DeleteChannel(db, id);
    if HasChannel(db, id) && Valid(db) {
      forall m | m in r.db.messages
        ensures HasChannel(r.db, m.channelId)
      {
        var c :| c in db.channels && c.id == m.channelId;
        assert c in r.db.channels;
      }
    }
  }

  /** A requester without a membership row gets a 403. */
  lemma HistoryForbidden(db: Db, requester: Id, channelId: Id, limit: Option<nat>, before: Option<Time>)
    requires !IsMember(db, requester, channelId)
    ensures ChannelHistory(db, requester, channelId, limit, before) == Response(403, ErrorBody("Not a member of this channel"))
  {
  }

  /**
   * A member gets the newest `limit` (50 by default) of the channel's messages before the
   * cut-off, oldest first: the last entries of the matching rows in creation order.
   */
  lemma HistorySpec(db: Db, requester: Id, channelId: Id, limit: Option<nat>, before: Option<Time>)
    requires IsMember(db, requester, channelId)
    ensures var r := ChannelHistory(db, requester, channelId, limit, before);
      var matching := Filter(db.messages, InHistory(channelId, before));
      var n := limit.GetOr(DEFAULT_LIMIT);
      && r.status == 200 && r.body.History?
      && |r.body.entries| == (if n < |matching| then n else |matching|)
      && (forall i :: 0 <= i < |r.body.entries| ==>
            r.body.entries[i] == FormatEntry(db, matching[|matching| - |r.body.entries| + i]))
  {
    var matching := Filter(db.messages, InHistory(channelId, before));
    NewestChannelMessagesSpec(db, channelId, before, limit.GetOr(DEFAULT_LIMIT));
    FilterExt(db.messages, (m: Message) => m.channelId == channelId && Before(m.createdAt, before), InHistory(channelId, before));
  }
}
