/**
 * The part of socket.io the handlers rely on. Every live socket sits in its own
 * room (named by its id) and in the rooms it has joined. An emit is recorded
 * with the target it was addressed to, and `Receivers` resolves that target
 * against room membership at the moment of the emit.
 */
module Transport {

  type SocketId = string
  type Room = string

  /** The live sockets and, for each, the rooms it has joined besides its own. */
  type Rooms = map<SocketId, set<Room>>

  datatype Target =
    | ToSocket(id: SocketId)                           // socket.emit(...)
    | ToRoomExcept(room: Room, sender: SocketId)       // socket.to(room).emit(...)
    | ToRoom(room: Room)                               // io.to(room).emit(...)
    | BroadcastExcept(sender: SocketId)                // socket.broadcast.emit(...)
    | Everyone                                         // io.emit(...)

  /** One recorded emit. */
  datatype Emit<P> = Emit(target: Target, event: string, payload: P)

  /** Whether socket `s` is live and in room `r`. */
  predicate InRoom(rooms: Rooms, s: SocketId, r: Room) {
    s in rooms && (r == s || r in rooms[s])
  }

  /** The sockets an emit reaches. */
  function Receivers(t: Target, rooms: Rooms): (r: set<SocketId>)
    ensures r <= rooms.Keys
  {
    match t
    case ToSocket(id) => if id in rooms then {id} else {}
    case ToRoomExcept(room, sender) => set s | s in rooms && InRoom(rooms, s, room) && s != sender
    case ToRoom(room) => set s | s in rooms && InRoom(rooms, s, room)
    case BroadcastExcept(sender) => set s | s in rooms && s != sender
    case Everyone => rooms.Keys
  }

  /** `socket.join(room)`; a socket that is no longer live joins nothing. */
  function Join(rooms: Rooms, s: SocketId, r: Room): Rooms {
    if s in rooms then rooms[s := rooms[s] + {r}] else rooms
  }

  /** `socket.leave(room)`. */
  function Leave(rooms: Rooms, s: SocketId, r: Room): Rooms {
    if s in rooms then rooms[s := rooms[s] - {r}] else rooms
  }

  /** `socket.disconnect(true)`: the socket stops being live and leaves every room. */
  function Drop(rooms: Rooms, s: SocketId): Rooms {
    rooms - {s}
  }

  /** Joining puts a live socket in the room and changes no other socket's rooms. */
  lemma JoinSpec(rooms: Rooms, s: SocketId, r: Room)
    requires s in rooms
    ensures InRoom(Join(rooms, s, r), s, r)
    ensures Join(rooms, s, r).Keys == rooms.Keys
    ensures forall t, q :: t != s ==> (InRoom(Join(rooms, s, r), t, q) <==> InRoom(rooms, t, q))
    ensures forall q :: InRoom(rooms, s, q) ==> InRoom(Join(rooms, s, r), s, q)
  {
  }

  /** Leaving takes the socket out of the room unless it is the socket's own room. */
  lemma LeaveSpec(rooms: Rooms, s: SocketId, r: Room)
    requires s in rooms && r != s
    ensures !InRoom(Leave(rooms, s, r), s, r)
    ensures forall t, q :: t != s ==> (InRoom(Leave(rooms, s, r), t, q) <==> InRoom(rooms, t, q))
    ensures forall q :: q != r ==> (InRoom(Leave(rooms, s, r), s, q) <==> InRoom(rooms, s, q))
  {
  }

  /** `socket.to(room)` reaches every other member of the room and never the sender. */
  lemma ToRoomExceptSpec(rooms: Rooms, room: Room, sender: SocketId)
    ensures sender !in Receivers(ToRoomExcept(room, sender), rooms)
    ensures forall s :: s in Receivers(ToRoomExcept(room, sender), rooms) <==> InRoom(rooms, s, room) && s != sender
    ensures Receivers(ToRoom(room), rooms) == Receivers(ToRoomExcept(room, sender), rooms)
      + (if InRoom(rooms, sender, room) then {sender} else {})
  {
  }
}
