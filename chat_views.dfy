/**
 * The two chat endpoints with logic of their own: `chat_with` opens (or
 * finds) the room between the requesting user and another user, and
 * `latest_room` reports the requesting user's most recently active room and
 * its other participant.
 */
module ChatViews {
  import opened Wrappers
  import opened ChatModels

  /** `Q(user1=user) | Q(user2=user)`. */
  predicate Involves(room: Room, user: nat)
  {
    room.user1 == user || room.user2 == user
  }

  /**
   * The room `filter(...).order_by("-updated_at").first()` returns: among
   * the rooms involving `user`, one with the greatest `updated_at` (the
   * first such row in table order), or none when the user has no room.
   */
  function LatestRoom(rooms: seq<Room>, user: nat): (r: Option<Room>)
    ensures r.None? <==> forall i :: 0 <= i < |rooms| ==> !Involves(rooms[i], user)
    ensures r.Some? ==> r.value in rooms && Involves(r.value, user)
    ensures r.Some? ==> forall i :: 0 <= i < |rooms| && Involves(rooms[i], user) ==> rooms[i].updatedAt <= r.value.updatedAt
  {
    if rooms == [] then None
    else
      var rest := LatestRoom(rooms[1..], user);
      if !Involves(rooms[0], user) then rest
      else if rest.Some? && rest.value.updatedAt > rooms[0].updatedAt then rest
      else Some(rooms[0])
  }

  /**
   * `room.user2 if room.user1 == user else room.user1`: always one of the
   * room's users; for a room the user is in, the room's other user (the user
   * themselves in a self-room).
   */
  function Partner(room: Room, user: nat): (partner: nat)
    ensures partner == room.user1 || partner == room.user2
    ensures Involves(room, user) ==> {user, partner} == {room.user1, room.user2}
    ensures Involves(room, user) && room.user1 != room.user2 ==> partner != user
  {
    if room.user1 == user then room.user2 else room.user1
  }

  /**
   * Right after a message is stored in room `idx` with a time later than
   * every timestamp in the table, that room is the latest room of every user
   * in it: the "append touches room" guarantee.
   */
  lemma TouchedRoomIsLatest(rooms: seq<Room>, clock: nat, idx: nat, t: nat, user: nat)
    requires RoomsValid(rooms, clock)
    requires idx < |rooms| && clock < t && Involves(rooms[idx], user)
    ensures LatestRoom(rooms[idx := rooms[idx].(updatedAt := t)], user) == Some(rooms[idx].(updatedAt := t))
  {
    var rs := rooms[idx := rooms[idx].(updatedAt := t)];
    var r := LatestRoom(rs, user);
    assert rs[idx].updatedAt == t;
    assert forall k :: 0 <= k < |rs| && k != idx ==> rs[k].updatedAt < t;
    var k :| 0 <= k < |rs| && rs[k] == r.value;
    assert k == idx;
  }

  /** The JSON answer of `latest_room`. */
  datatype LatestResponse =
    | NoContent                                  // status 204, no recent conversation
    | LatestJson(roomId: nat, partner: string)   // {"room_id": ..., "partner": username}

  /** `latest_room` for the logged-in `user`; it only reads the tables. */
  function LatestRoomView(db: ChatDb, user: nat): (resp: LatestResponse)
    reads db
    requires db.Valid()
    ensures resp.NoContent? <==> forall i :: 0 <= i < |db.rooms| ==> !Involves(db.rooms[i], user)
    ensures resp.LatestJson? ==>
      exists i ::
        && 0 <= i < |db.rooms|
        && db.rooms[i].id == resp.roomId
        && Involves(db.rooms[i], user)
        && resp.partner == db.users[Partner(db.rooms[i], user)]
        && forall j :: 0 <= j < |db.rooms| && Involves(db.rooms[j], user) ==> db.rooms[j].updatedAt <= db.rooms[i].updatedAt
  {
    match LatestRoom(db.rooms, user)
    case None => NoContent
    case Some(room) =>
      var i :| 0 <= i < |db.rooms| && db.rooms[i] == room;
      LatestJson(room.id, db.users[Partner(room, user)])
  }

  /** What `chat_with` answers. */
  datatype ChatWithResponse =
    | NotFound404                                // get_object_or_404 found no such user
    | RoomJson(roomId: nat, partner: string)     // AJAX request: {"room_id": ..., "partner": username}
    | RedirectToRoom(roomId: nat)                // otherwise: redirect to the room page

  /**
   * `chat_with(request, user_id)`: resolve the other user (404 if there is
   * none, and no room is created), then `get_room(request.user, other)`.
   */
  method ChatWith(db: ChatDb, requestUser: nat, userId: nat, ajax: bool) returns (resp: ChatWithResponse)
    requires db.Valid() && requestUser in db.users
    modifies db
    ensures db.Valid()
    ensures userId !in old(db.users) ==> resp == NotFound404 && unchanged(db)
    ensures userId in old(db.users) ==>
      var r := GetOrCreate(old(db.rooms), old(db.clock), requestUser, userId);
      && db.rooms == r.rooms && db.clock == r.clock
      && db.messages == old(db.messages) && db.users == old(db.users)
      && resp == (if ajax then RoomJson(r.room.id, db.users[userId]) else RedirectToRoom(r.room.id))
  {
    if userId !in db.users {
      return NotFound404;
    }
    var room := db.GetRoom(requestUser, userId);
    if ajax {
      resp := RoomJson(room.id, db.users[userId]);
    } else {
      resp := RedirectToRoom(room.id);
    }
  }
}
