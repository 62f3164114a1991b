/**
 * The relational store behind the chat server: users, channels, memberships,
 * channel messages and direct messages. Each table is a sequence in creation
 * order, which the model takes to be `createdAt` order. Lookups by a unique key
 * return the first match; an update of a missing row fails, as Prisma's does;
 * a create whose foreign keys do not resolve fails.
 */
module Store {
  import opened Wrappers
  import opened Seqs

  type Id = string
  /** A point in time; only its order matters. */
  type Time = int

  /** The `Status` enum of the schema. */
  datatype Status = Online | Away | Busy | Offline {
    /** The enum value as it is stored and sent (`Status.ONLINE` is the string "ONLINE"). */
    function Name(): string {
      match this
      case Online => "ONLINE"
      case Away => "AWAY"
      case Busy => "BUSY"
      case Offline => "OFFLINE"
    }
  }

  datatype User = User(id: Id, username: string, status: Status, lastLoginAt: Option<Time>)

  datatype Channel = Channel(id: Id, name: Option<string>, description: Option<string>, isPrivate: bool)

  datatype Member = Member(userId: Id, channelId: Id)

  datatype Message = Message(
    id: Id, content: string, userId: Id, channelId: Id, mentionedUserId: Option<Id>,
    createdAt: Time, isDeleted: bool, deletedAt: Option<Time>)

  datatype DirectMessage = DirectMessage(
    id: Id, content: string, senderId: Id, receiverId: Id,
    createdAt: Time, isDeleted: bool, deletedAt: Option<Time>)

  datatype Db = Db(
    users: seq<User>, channels: seq<Channel>, members: seq<Member>,
    messages: seq<Message>, directMessages: seq<DirectMessage>)

  /** Foreign keys of the message tables resolve. */
  ghost predicate Valid(db: Db) {
    (forall m :: m in db.messages ==>
       HasUser(db, m.userId) && HasChannel(db, m.channelId)
       && (m.mentionedUserId.Some? ==> HasUser(db, m.mentionedUserId.value)))
    && (forall d :: d in db.directMessages ==> HasUser(db, d.senderId) && HasUser(db, d.receiverId))
  }

  predicate HasUser(db: Db, id: Id) {
    exists u :: u in db.users && u.id == id
  }

  predicate HasChannel(db: Db, id: Id) {
    exists c :: c in db.channels && c.id == id
  }

  /** The `where: { id }` filter on users. */
  function WithId(id: Id): User -> bool {
    (u: User) => u.id == id
  }

  /** `prisma.user.findUnique({ where: { id } })`. */
  function FindUser(db: Db, id: Id): (r: Option<User>)
    ensures r.Some? <==> HasUser(db, id)
    ensures r.Some? ==> r.value in db.users && r.value.id == id
  {
    Find(db.users, WithId(id))
  }

  /** `prisma.user.findUnique({ where: { username } })`. */
  function FindUserByUsername(db: Db, name: string): (r: Option<User>)
    ensures r.Some? ==> r.value in db.users && r.value.username == name
    ensures r.None? <==> forall u :: u in db.users ==> u.username != name
  {
    Find(db.users, (u: User) => u.username == name)
  }

  /** The username of a user id, as an `include: { user }` reads it; `""` only if the key dangles. */
  function UsernameOf(db: Db, id: Id): string {
    match FindUser(db, id)
    case Some(u) => u.username
    case None => ""
  }

  /** `prisma.channel.findUnique({ where: { id } })`. */
  function FindChannel(db: Db, id: Id): (r: Option<Channel>)
    ensures r.Some? <==> HasChannel(db, id)
    ensures r.Some? ==> r.value in db.channels && r.value.id == id
  {
    Find(db.channels, (c: Channel) => c.id == id)
  }

  /** `prisma.channel.findFirst({ where: { name } })`. */
  function FindChannelByName(db: Db, name: string): (r: Option<Channel>)
    ensures r.Some? ==> r.value in db.channels && r.value.name == Some(name)
    ensures r.None? <==> forall c :: c in db.channels ==> c.name != Some(name)
  {
    Find(db.channels, (c: Channel) => c.name == Some(name))
  }

  /** Whether a membership row links the user to the channel. */
  predicate IsMember(db: Db, userId: Id, channelId: Id) {
    Member(userId, channelId) in db.members
  }

  /** The user ids of a channel's members, as `channel.members.map(m => m.user.id)`. */
  function MemberIds(db: Db, channelId: Id): (r: seq<Id>)
    ensures forall u :: u in r <==> IsMember(db, u, channelId)
  {
    MemberIdsOf(db.members, channelId)
  }

  function MemberIdsOf(ms: seq<Member>, channelId: Id): (r: seq<Id>)
    ensures forall u :: u in r <==> Member(u, channelId) in ms
  {
    if ms == [] then []
    else (if ms[0].channelId == channelId then [ms[0].userId] else []) + MemberIdsOf(ms[1..], channelId)
  }

  /** `prisma.user.update({ where: { id }, data: { status, lastLoginAt? } })`; `None` when the row is missing. */
  function UpdateUserStatus(db: Db, id: Id, status: Status, login: Option<Time>): (r: Option<Db>)
    ensures r.Some? <==> HasUser(db, id)
    ensures r.Some? ==> (r.value.channels == db.channels && r.value.members == db.members
                         && r.value.messages == db.messages && r.value.directMessages == db.directMessages)
    ensures r.Some? ==> (|r.value.users| == |db.users|
                         && forall i :: 0 <= i < |db.users| ==> r.value.users[i].id == db.users[i].id)
  {
    match FindIndex(db.users, WithId(id))
    case None => None
    case Some(i) =>
      var u := db.users[i];
      var u' := u.(status := status, lastLoginAt := if login.Some? then login else u.lastLoginAt);
      Some(db.(users := db.users[i := u']))
  }

  /** The stored status of a user, when the user exists. */
  function StatusOf(db: Db, id: Id): Option<Status> {
    match FindUser(db, id)
    case Some(u) => Some(u.status)
    case None => None
  }

  /** After a successful status update the user reads back with the new status. */
  lemma StatusAfterUpdate(db: Db, id: Id, status: Status, login: Option<Time>)
    requires HasUser(db, id)
    ensures StatusOf(UpdateUserStatus(db, id, status, login).value, id) == Some(status)
  {
    var db' := UpdateUserStatus(db, id, status, login).value;
    FindIndexSame(db.users, db'.users, WithId(id));
  }

  /** `prisma.message.create`: appends the row unless a foreign key does not resolve. */
  function CreateMessage(db: Db, m: Message): (r: Option<Db>)
    ensures r.Some? <==> (HasUser(db, m.userId) && HasChannel(db, m.channelId)
                          && (m.mentionedUserId.Some? ==> HasUser(db, m.mentionedUserId.value)))
    ensures r.Some? ==> r.value == db.(messages := db.messages + [m])
  {
    if HasUser(db, m.userId) && HasChannel(db, m.channelId)
      && (m.mentionedUserId.Some? ==> HasUser(db, m.mentionedUserId.value))
    then Some(db.(messages := db.messages + [m]))
    else None
  }

  /** `prisma.directMessage.create`: appends the row unless a foreign key does not resolve. */
  function CreateDirectMessage(db: Db, d: DirectMessage): (r: Option<Db>)
    ensures r.Some? <==> HasUser(db, d.senderId) && HasUser(db, d.receiverId)
    ensures r.Some? ==> r.value == db.(directMessages := db.directMessages + [d])
  {
    if HasUser(db, d.senderId) && HasUser(db, d.receiverId)
    then Some(db.(directMessages := db.directMessages + [d]))
    else None
  }

  /** A create preserves the foreign-key invariant because it checks the keys first. */
  lemma CreatePreservesValid(db: Db, m: Message, d: DirectMessage)
    requires Valid(db)
    ensures CreateMessage(db, m).Some? ==> Valid(CreateMessage(db, m).value)
    ensures CreateDirectMessage(db, d).Some? ==> Valid(CreateDirectMessage(db, d).value)
  {
    if CreateMessage(db, m).Some? {
      var db' := CreateMessage(db, m).value;
      assert db'.users == db.users && db'.channels == db.channels;
      assert forall x :: x in db'.messages ==> x in db.messages || x == m;
    }
    if CreateDirectMessage(db, d).Some? {
      var db' := CreateDirectMessage(db, d).value;
      assert db'.users == db.users;
      assert forall x :: x in db'.directMessages ==> x in db.directMessages || x == d;
    }
  }

  /** The `where: { id }` filter on channel messages. */
  function MessageWithId(id: Id): Message -> bool {
    (m: Message) => m.id == id
  }

  /** The `where: { id }` filter on direct messages. */
  function DirectWithId(id: Id): DirectMessage -> bool {
    (m: DirectMessage) => m.id == id
  }

  /** The position of the message with this id. */
  function FindMessageIndex(db: Db, id: Id): (r: Option<nat>)
    ensures r.Some? ==> r.value < |db.messages| && db.messages[r.value].id == id
    ensures r.None? <==> forall m :: m in db.messages ==> m.id != id
  {
    FindIndex(db.messages, MessageWithId(id))
  }

  /** The position of the direct message with this id. */
  function FindDirectMessageIndex(db: Db, id: Id): (r: Option<nat>)
    ensures r.Some? ==> r.value < |db.directMessages| && db.directMessages[r.value].id == id
    ensures r.None? <==> forall m :: m in db.directMessages ==> m.id != id
  {
    FindIndex(db.directMessages, DirectWithId(id))
  }

  /** `update({ data: { isDeleted: true, deletedAt } })` on the channel message at `i`; only that row changes. */
  function SoftDeleteMessage(db: Db, i: nat, now: Time): (r: Db)
    requires i < |db.messages|
    ensures |r.messages| == |db.messages|
    ensures r.messages[i].isDeleted && r.messages[i].deletedAt == Some(now)
    ensures r.messages[i].(isDeleted := db.messages[i].isDeleted, deletedAt := db.messages[i].deletedAt)
      == db.messages[i]
    ensures forall j :: 0 <= j < |db.messages| && j != i ==> r.messages[j] == db.messages[j]
    ensures r == db.(messages := r.messages)
  {
    db.(messages := db.messages[i := db.messages[i].(isDeleted := true, deletedAt := Some(now))])
  }

  /** The same soft delete on the direct message at `i`. */
  function SoftDeleteDirectMessage(db: Db, i: nat, now: Time): (r: Db)
    requires i < |db.directMessages|
    ensures |r.directMessages| == |db.directMessages|
    ensures r.directMessages[i].isDeleted && r.directMessages[i].deletedAt == Some(now)
    ensures r.directMessages[i].(isDeleted := db.directMessages[i].isDeleted,
                                 deletedAt := db.directMessages[i].deletedAt) == db.directMessages[i]
    ensures forall j :: 0 <= j < |db.directMessages| && j != i ==> r.directMessages[j] == db.directMessages[j]
    ensures r == db.(directMessages := r.directMessages)
  {
    db.(directMessages := db.directMessages[i := db.directMessages[i].(isDeleted := true, deletedAt := Some(now))])
  }

  /** A channel's messages in createdAt order. */
  function ChannelMessages(db: Db, channelId: Id): (r: seq<Message>)
    ensures forall m :: m in r <==> m in db.messages && m.channelId == channelId
  {
    Filter(db.messages, (m: Message) => m.channelId == channelId)
  }

  /** `findMany({ where: { channelId }, orderBy: { createdAt: 'asc' }, take: n })`: the OLDEST n. */
  function OldestChannelMessages(db: Db, channelId: Id, n: nat): (r: seq<Message>)
    ensures r <= ChannelMessages(db, channelId)
    ensures |r| == if n < |ChannelMessages(db, channelId)| then n else |ChannelMessages(db, channelId)|
  {
    Take(ChannelMessages(db, channelId), n)
  }

  /** Whether a row falls before an optional `createdAt < before` cut-off. */
  predicate Before(createdAt: Time, before: Option<Time>) {
    before.None? || createdAt < before.value
  }

  /** A descending `findMany` with `take: n` and an optional cut-off, then `reverse()`: the newest n, oldest first. */
  function NewestChannelMessages(db: Db, channelId: Id, before: Option<Time>, n: nat): (r: seq<Message>)
  {
    var matching := Filter(db.messages, (m: Message) => m.channelId == channelId && Before(m.createdAt, before));
    Reverse(Take(Reverse(matching), n))
  }

  /** The direct messages exchanged between `a` and `b`, in both directions. */
  predicate Between(d: DirectMessage, a: Id, b: Id) {
    (d.senderId == a && d.receiverId == b) || (d.senderId == b && d.receiverId == a)
  }

  /** The `where` filter of the DM history query. */
  function Conversation(a: Id, b: Id, before: Option<Time>): DirectMessage -> bool {
    (d: DirectMessage) => Between(d, a, b) && Before(d.createdAt, before)
  }

  /** The DM history query: both directions, optional cut-off, newest n, oldest first. */
  function NewestDirectMessages(db: Db, a: Id, b: Id, before: Option<Time>, n: nat): (r: seq<DirectMessage>)
  {
    var matching := Filter(db.directMessages, Conversation(a, b, before));
    Reverse(Take(Reverse(matching), n))
  }

  /** The newest-first query reversed is exactly the last n matching rows in creation order. */
  lemma NewestChannelMessagesSpec(db: Db, channelId: Id, before: Option<Time>, n: nat)
    ensures var matching := Filter(db.messages, (m: Message) => m.channelId == channelId && Before(m.createdAt, before));
      NewestChannelMessages(db, channelId, before, n) == TakeLast(matching, n)
  {
    var matching := Filter(db.messages, (m: Message) => m.channelId == channelId && Before(m.createdAt, before));
    NewestReversedIsTakeLast(matching, n);
  }

  /** The same for the DM history: the last n messages of the conversation, each in either direction. */
  lemma NewestDirectMessagesSpec(db: Db, a: Id, b: Id, before: Option<Time>, n: nat)
    ensures NewestDirectMessages(db, a, b, before, n) == TakeLast(Filter(db.directMessages, Conversation(a, b, before)), n)
    ensures forall d :: d in NewestDirectMessages(db, a, b, before, n) ==> d in db.directMessages && Between(d, a, b)
  {
    var matching := Filter(db.directMessages, Conversation(a, b, before));
    NewestReversedIsTakeLast(matching, n);
    var r := TakeLast(matching, n);
    assert r == matching[|matching| - |r|..];
    forall d | d in r ensures d in db.directMessages && Between(d, a, b) {
      assert d in matching;
      assert Conversation(a, b, before)(d);
    }
  }

  /** The history of a conversation is the same whichever side asks for it. */
  lemma {:induction false} DirectHistorySymmetric(db: Db, a: Id, b: Id, before: Option<Time>, n: nat)
    ensures NewestDirectMessages(db, a, b, before, n) == NewestDirectMessages(db, b, a, before, n)
  {
    FilterExt(db.directMessages, Conversation(a, b, before), Conversation(b, a, before));
  }

  lemma {:induction false} FilterExt<T(!new)>(s: seq<T>, p: T -> bool, q: T -> bool)
    requires forall x :: p(x) == q(x)
    ensures Filter(s, p) == Filter(s, q)
  {
    if s != [] {
      FilterExt(s[1..], p, q);
    }
  }
}
