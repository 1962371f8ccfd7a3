/**
 * The chat tables: rooms for a pair of users and the messages posted in
 * them. A room is found or created for a pair put in canonical order (lower
 * user id first), under a uniqueness constraint on (user1, user2). Saving a
 * message stamps it with the current time and then saves its room, which
 * refreshes the room's `updated_at`.
 *
 * Timestamps are an abstract clock: every read of "now" advances it by one,
 * so two timestamps taken at different moments are different.
 */
module ChatModels {
  import opened Wrappers

  /** A row of the ChatRoom table. */
  datatype Room = Room(id: nat, user1: nat, user2: nat, updatedAt: nat)

  /** A row of the Message table. */
  datatype Message = Message(id: nat, room: nat, sender: nat, text: string, sentAt: nat)

  predicate SamePair(room: Room, a: nat, b: nat)
  {
    room.user1 == a && room.user2 == b
  }

  /**
   * What the ChatRoom table guarantees: ids follow insertion order, no two
   * rows share (user1, user2) (the `unique_together` constraint), every row
   * is in canonical order, and no `updated_at` lies in the future.
   */
  ghost predicate RoomsValid(rooms: seq<Room>, clock: nat)
  {
    && (forall i :: 0 <= i < |rooms| ==> rooms[i].id == i + 1)
    && (forall i :: 0 <= i < |rooms| ==> rooms[i].user1 <= rooms[i].user2 && rooms[i].updatedAt <= clock)
    && (forall i, j :: 0 <= i < |rooms| && 0 <= j < |rooms| && SamePair(rooms[j], rooms[i].user1, rooms[i].user2) ==> i == j)
  }

  /**
   * What the Message table guarantees: ids follow insertion order, every
   * message belongs to an existing room, and `sent_at` strictly increases
   * along the log (each one was the clock's value when it was written).
   */
  ghost predicate MessagesValid(messages: seq<Message>, roomCount: nat, clock: nat)
  {
    && (forall i :: 0 <= i < |messages| ==> messages[i].id == i + 1)
    && (forall i :: 0 <= i < |messages| ==> 1 <= messages[i].room <= roomCount && messages[i].sentAt <= clock)
    && (forall i, j :: 0 <= i < j < |messages| ==> messages[i].sentAt < messages[j].sentAt)
  }

  /** The first row holding exactly the pair (a, b), if any: the lookup half of get-or-create. */
  function FindRoom(rooms: seq<Room>, a: nat, b: nat): (r: Option<nat>)
    ensures r.Some? ==> r.value < |rooms| && SamePair(rooms[r.value], a, b)
    ensures r.Some? ==> forall k :: 0 <= k < r.value ==> !SamePair(rooms[k], a, b)
    ensures r.None? ==> forall k :: 0 <= k < |rooms| ==> !SamePair(rooms[k], a, b)
  {
    if |rooms| == 0 then None
    else if SamePair(rooms[0], a, b) then Some(0)
    else match FindRoom(rooms[1..], a, b)
      case None => None
      case Some(k) => Some(k + 1)
  }

  /** A row holding the pair with no such row before it is the one the lookup finds. */
  lemma FindRoomFirst(rooms: seq<Room>, a: nat, b: nat, i: nat)
    requires i < |rooms| && SamePair(rooms[i], a, b)
    requires forall k :: 0 <= k < i ==> !SamePair(rooms[k], a, b)
    ensures FindRoom(rooms, a, b) == Some(i)
  {
  }

  /** The message table's guarantees survive one more room and a later clock. */
  lemma MessagesValidGrow(messages: seq<Message>, roomCount: nat, clock: nat)
    requires MessagesValid(messages, roomCount, clock)
    ensures MessagesValid(messages, roomCount + 1, clock + 1)
  {
  }

  /** The outcome of `get_room`: the room, and the table and clock afterwards. */
  datatype GetRoomResult = GetRoomResult(room: Room, rooms: seq<Room>, clock: nat)

  /**
   * `ChatRoom.get_room(u1, u2)`: swap so that the lower id comes first, then
   * return the existing row for that pair or append a new one whose
   * `updated_at` is the current time.
   */
  function GetOrCreate(rooms: seq<Room>, clock: nat, u1: nat, u2: nat): (r: GetRoomResult)
    ensures r.room.user1 <= r.room.user2
    ensures {r.room.user1, r.room.user2} == {u1, u2}
    ensures r.room in r.rooms
  {
    var a := if u1 > u2 then u2 else u1;
    var b := if u1 > u2 then u1 else u2;
    match FindRoom(rooms, a, b)
    case Some(i) => GetRoomResult(rooms[i], rooms, clock)
    case None =>
      var room := Room(|rooms| + 1, a, b, clock + 1);
      GetRoomResult(room, rooms + [room], clock + 1)
  }

  /** The order of the two users does not matter: both calls give the same room and the same table. */
  lemma GetRoomSymmetric(rooms: seq<Room>, clock: nat, u1: nat, u2: nat)
    ensures GetOrCreate(rooms, clock, u1, u2) == GetOrCreate(rooms, clock, u2, u1)
  {
  }

  /** A user may open a room with themselves; both of its users are that user. */
  lemma SelfRoomAllowed(rooms: seq<Room>, clock: nat, u: nat)
    ensures GetOrCreate(rooms, clock, u, u).room.user1 == u
    ensures GetOrCreate(rooms, clock, u, u).room.user2 == u
  {
  }

  /**
   * get-or-create either returns an existing row and leaves the table and
   * clock alone, or appends exactly one new row stamped with a fresh time;
   * either way the table constraints still hold.
   */
  lemma GetRoomKeepsTable(rooms: seq<Room>, clock: nat, u1: nat, u2: nat)
    requires RoomsValid(rooms, clock)
    ensures var r := GetOrCreate(rooms, clock, u1, u2);
      && RoomsValid(r.rooms, r.clock)
      && r.clock >= clock
      && (r.room in rooms ==> r.rooms == rooms && r.clock == clock)
      && (r.room !in rooms ==>
            && r.rooms == rooms + [r.room]
            && r.room.id == |rooms| + 1
            && r.clock == clock + 1
            && r.room.updatedAt == r.clock)
  {
    var a := if u1 > u2 then u2 else u1;
    var b := if u1 > u2 then u1 else u2;
    var r := GetOrCreate(rooms, clock, u1, u2);
    match FindRoom(rooms, a, b)
    case Some(i) =>
    case None =>
      assert r.room.updatedAt == clock + 1;
      assert r.room !in rooms;
  }

  /**
   * Calling get-or-create again, with the pair in either order, returns the
   * same room and leaves the table and clock as the first call left them.
   */
  lemma GetRoomRepeat(rooms: seq<Room>, clock: nat, u1: nat, u2: nat, swap: bool)
    requires RoomsValid(rooms, clock)
    ensures var first := GetOrCreate(rooms, clock, u1, u2);
      var second := if swap then GetOrCreate(first.rooms, first.clock, u2, u1)
                    else GetOrCreate(first.rooms, first.clock, u1, u2);
      second == first
  {
    var a := if u1 > u2 then u2 else u1;
    var b := if u1 > u2 then u1 else u2;
    var first := GetOrCreate(rooms, clock, u1, u2);
    GetRoomKeepsTable(rooms, clock, u1, u2);
    GetRoomSymmetric(first.rooms, first.clock, u1, u2);
    assert SamePair(first.room, a, b);
    match FindRoom(first.rooms, a, b)
    case None =>
      assert false;
    case Some(i) =>
      var j :| 0 <= j < |first.rooms| && first.rooms[j] == first.room;
      assert SamePair(first.rooms[j], first.rooms[i].user1, first.rooms[i].user2);
  }

  /** In a valid table, two rooms for the same unordered pair of users are the same room. */
  lemma OneRoomPerPair(rooms: seq<Room>, clock: nat, i: nat, j: nat)
    requires RoomsValid(rooms, clock)
    requires i < |rooms| && j < |rooms|
    requires {rooms[i].user1, rooms[i].user2} == {rooms[j].user1, rooms[j].user2}
    ensures i == j
  {
    var x, y := rooms[i], rooms[j];
    assert x.user1 in {y.user1, y.user2} && x.user2 in {y.user1, y.user2};
    assert y.user1 in {x.user1, x.user2} && y.user2 in {x.user1, x.user2};
    assert SamePair(rooms[j], rooms[i].user1, rooms[i].user2);
  }

  /** The chat tables of one database: users (id to username), rooms, messages, and the clock. */
  class ChatDb {
    var users: map<nat, string>
    var rooms: seq<Room>
    var messages: seq<Message>
    var clock: nat

    ghost predicate Valid()
      reads this
    {
      && RoomsValid(rooms, clock)
      && MessagesValid(messages, |rooms|, clock)
      && (forall i :: 0 <= i < |rooms| ==> rooms[i].user1 in users && rooms[i].user2 in users)
      && (forall i :: 0 <= i < |messages| ==> messages[i].sender in users)
    }

    constructor (users: map<nat, string>)
      ensures Valid()
      ensures this.users == users && rooms == [] && messages == [] && clock == 0
    {
      this.users := users;
      rooms, messages, clock := [], [], 0;
    }

    /** `ChatRoom.get_room(u1, u2)`, scanning the table for the canonical pair before inserting. */
    method GetRoom(u1: nat, u2: nat) returns (room: Room)
      requires Valid() && u1 in users && u2 in users
      modifies this
      ensures Valid()
      ensures GetRoomResult(room, rooms, clock) == GetOrCreate(old(rooms), old(clock), u1, u2)
      ensures users == old(users) && messages == old(messages)
    {
      var a, b := u1, u2;
      if a > b {
        a, b := b, a;
      }
      GetRoomKeepsTable(rooms, clock, u1, u2);
      var i := 0;
      while i < |rooms|
        invariant 0 <= i <= |rooms|
        invariant forall k :: 0 <= k < i ==> !SamePair(rooms[k], a, b)
      {
        if SamePair(rooms[i], a, b) {
          FindRoomFirst(rooms, a, b, i);
          room := rooms[i];
          return;
        }
        i := i + 1;
      }
      assert FindRoom(rooms, a, b).None?;
      MessagesValidGrow(messages, |rooms|, clock);
      clock := clock + 1;
      room := Room(|rooms| + 1, a, b, clock);
      rooms := rooms + [room];
    }

    /**
     * `Message.save` for a new message: the row is inserted with `sent_at`
     * set to now, then its room is saved, which sets the room's `updated_at`
     * to a now read a moment later. No other room changes.
     */
    method SaveMessage(roomId: nat, sender: nat, text: string) returns (msg: Message)
      requires Valid() && 1 <= roomId <= |rooms| && sender in users
      modifies this
      ensures Valid()
      ensures msg == Message(|old(messages)| + 1, roomId, sender, text, old(clock) + 1)
      ensures messages == old(messages) + [msg]
      ensures clock == msg.sentAt + 1
      ensures rooms == old(rooms)[roomId - 1 := old(rooms)[roomId - 1].(updatedAt := clock)]
      ensures users == old(users)
    {
      clock := clock + 1;
      msg := Message(|messages| + 1, roomId, sender, text, clock);
      messages := messages + [msg];
      clock := clock + 1;
      rooms := rooms[roomId - 1 := rooms[roomId - 1].(updatedAt := clock)];
    }

    /** `ChatRoom.objects.filter(id=roomId).update(updated_at=t)`: touches that row if it exists. */
    method SetUpdatedAt(roomId: nat, t: nat)
      requires Valid() && t <= clock
      modifies this`rooms
      ensures Valid()
      ensures 1 <= roomId <= |old(rooms)| ==> rooms == old(rooms)[roomId - 1 := old(rooms)[roomId - 1].(updatedAt := t)]
      ensures !(1 <= roomId <= |old(rooms)|) ==> rooms == old(rooms)
    {
      if 1 <= roomId <= |rooms| {
        rooms := rooms[roomId - 1 := rooms[roomId - 1].(updatedAt := t)];
      }
    }
  }
}
