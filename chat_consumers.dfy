/**
 * The WebSocket consumer of the chat: one instance per connection. On
 * connect it rejects anonymous users, joins the room's broadcast group and
 * sends the room's recent history; each received payload is stored as a
 * message and broadcast to the group; group events are forwarded to the
 * client unchanged; disconnecting leaves the group.
 *
 * The channel layer is modelled as one object holding the group memberships
 * and, per channel, the events delivered to it; a group send reaches every
 * current member in one step. Payloads and events are already-decoded
 * records (no JSON, no ISO 8601 text).
 */
module ChatConsumers {
  import opened ChatModels
  import Text

  /** The number of messages sent as history on connect. */
  const HistoryLimit: nat := 30

  /** `f"chat_{room_id}"`: the group name starts with `chat_` and the rest is the room id in decimal. */
  function GroupName(roomId: nat): (name: string)
    ensures |name| > 5
    ensures name[..5] == "chat_"
    ensures name[5..] == Text.NatToString(roomId)
  {
    "chat_" + Text.NatToString(roomId)
  }

  /** Different rooms never share a broadcast group. */
  lemma GroupNamesDistinct(m: nat, n: nat)
    requires m != n
    ensures GroupName(m) != GroupName(n)
  {
    if GroupName(m) == GroupName(n) {
      Text.PrefixedNatInjective("chat_", m, n);
    }
  }

  // ---------------------------------------------------------------------
  // History

  /** The messages of one room, in table order (`Message.objects.filter(room_id=...)`). */
  function RoomMessages(log: seq<Message>, roomId: nat): (r: seq<Message>)
    ensures |r| <= |log|
    ensures forall m :: m in r <==> m in log && m.room == roomId
  {
    if log == [] then []
    else RoomMessages(log[..|log| - 1], roomId)
         + (if log[|log| - 1].room == roomId then [log[|log| - 1]] else [])
  }

  function Reverse<T>(s: seq<T>): (r: seq<T>)
    ensures |r| == |s|
    ensures forall i :: 0 <= i < |s| ==> r[i] == s[|s| - 1 - i]
  {
    seq(|s|, i requires 0 <= i < |s| => s[|s| - 1 - i])
  }

  /** Python's `s[:k]` for a non-negative `k`. */
  function Take<T>(s: seq<T>, k: nat): (r: seq<T>)
    ensures |r| == if k < |s| then k else |s|
    ensures forall i :: 0 <= i < |r| ==> r[i] == s[i]
  {
    if k < |s| then s[..k] else s
  }

  /** Strictly increasing `sent_at` along a sequence of messages. */
  ghost predicate Chronological(ms: seq<Message>)
  {
    forall i, j :: 0 <= i < j < |ms| ==> ms[i].sentAt < ms[j].sentAt
  }

  /**
   * Filtering keeps the log's order, so a room's messages are chronological
   * and their reverse is the room's messages sorted newest first: the result
   * of `order_by("-sent_at")`, which is unique because sent_at values differ.
   */
  lemma {:induction false} RoomMessagesChronological(log: seq<Message>, roomId: nat)
    requires Chronological(log)
    ensures Chronological(RoomMessages(log, roomId))
    ensures var newestFirst := Reverse(RoomMessages(log, roomId));
      forall i, j :: 0 <= i < j < |newestFirst| ==> newestFirst[i].sentAt > newestFirst[j].sentAt
  {
    if log != [] {
      var init := log[..|log| - 1];
      var last := log[|log| - 1];
      assert Chronological(init);
      RoomMessagesChronological(init, roomId);
      var r := RoomMessages(init, roomId);
      forall m | m in r
        ensures m.sentAt < last.sentAt
      {
        var k :| 0 <= k < |init| && init[k] == m;
      }
      var r' := RoomMessages(log, roomId);
      forall i, j | 0 <= i < j < |r'|
        ensures r'[i].sentAt < r'[j].sentAt
      {
        if j == |r| {
          assert r'[i] in r;
        }
      }
    }
  }

  /**
   * `_get_history`: the room's messages newest first, the first `limit` of
   * them, reversed again so that the oldest comes first. That is the last
   * `min(limit, n)` messages of the room, in the order they were stored.
   */
  function HistoryMessages(log: seq<Message>, roomId: nat, limit: nat): (ms: seq<Message>)
    ensures var rm := RoomMessages(log, roomId);
      var k := if limit < |rm| then limit else |rm|;
      ms == rm[|rm| - k..]
  {
    NewestKept(RoomMessages(log, roomId), limit);
    Reverse(Take(Reverse(RoomMessages(log, roomId)), limit))
  }

  /**
   * The history is the last `min(limit, n)` messages of the room, in the
   * order they were stored; every one of them belongs to the room.
   */
  lemma HistoryIsNewestSuffix(log: seq<Message>, roomId: nat, limit: nat)
    ensures var rm := RoomMessages(log, roomId);
      var k := if limit < |rm| then limit else |rm|;
      && HistoryMessages(log, roomId, limit) == rm[|rm| - k..]
      && forall m :: m in HistoryMessages(log, roomId, limit) ==> m in log && m.room == roomId
  {
    var rm := RoomMessages(log, roomId);
    var k := if limit < |rm| then limit else |rm|;
    forall m | m in rm[|rm| - k..]
      ensures m in rm
    {
      var i :| 0 <= i < k && rm[|rm| - k..][i] == m;
      assert m == rm[|rm| - k + i];
    }
  }

  /** Reversing, keeping the first `limit` and reversing back keeps the last `min(limit, n)` elements. */
  lemma NewestKept<T>(s: seq<T>, limit: nat)
    ensures var k := if limit < |s| then limit else |s|;
      Reverse(Take(Reverse(s), limit)) == s[|s| - k..]
  {
    var k := if limit < |s| then limit else |s|;
    var r := Reverse(s);
    var t := Take(r, limit);
    var h := Reverse(t);
    var suffix := s[|s| - k..];
    assert |h| == k == |suffix|;
    forall i | 0 <= i < k
      ensures h[i] == suffix[i]
    {
      assert h[i] == t[k - 1 - i];
      assert t[k - 1 - i] == r[k - 1 - i];
      assert r[k - 1 - i] == s[|s| - k + i];
    }
  }

  /** With no more than `limit` messages, the history is the room's whole log in stored order. */
  lemma ShortHistoryIsWholeLog(log: seq<Message>, roomId: nat, limit: nat)
    requires |RoomMessages(log, roomId)| <= limit
    ensures HistoryMessages(log, roomId, limit) == RoomMessages(log, roomId)
  {
    HistoryIsNewestSuffix(log, roomId, limit);
  }

  /** One entry of a `chat_history` event. */
  datatype HistoryItem = HistoryItem(id: nat, sender: string, text: string, sentAt: nat)

  /** The events sent to a client. */
  datatype Event =
    | ChatHistoryEvent(messages: seq<HistoryItem>)
    | ChatMessageEvent(id: nat, sender: string, text: string, sentAt: nat)

  /** The list comprehension of `_get_history`: id, sender's username, text and `sent_at` of each message. */
  function HistoryItems(ms: seq<Message>, users: map<nat, string>): (items: seq<HistoryItem>)
    requires forall m :: m in ms ==> m.sender in users
    ensures |items| == |ms|
    ensures forall i :: 0 <= i < |ms| ==>
      items[i] == HistoryItem(ms[i].id, users[ms[i].sender], ms[i].text, ms[i].sentAt)
  {
    if ms == [] then []
    else [HistoryItem(ms[0].id, users[ms[0].sender], ms[0].text, ms[0].sentAt)] + HistoryItems(ms[1..], users)
  }

  /**
   * `_get_history(limit)` for room `roomId`: one item per message among the
   * room's last `min(limit, n)`, oldest first, each carrying the message's
   * id, its sender's username, its text and its time.
   */
  function History(log: seq<Message>, users: map<nat, string>, roomId: nat, limit: nat): (items: seq<HistoryItem>)
    requires forall m :: m in log ==> m.sender in users
    ensures var rm := RoomMessages(log, roomId);
      var k := if limit < |rm| then limit else |rm|;
      && |items| == k
      && forall i :: 0 <= i < k ==>
           var m := rm[|rm| - k + i];
           items[i] == HistoryItem(m.id, users[m.sender], m.text, m.sentAt)
  {
    HistoryIsNewestSuffix(log, roomId, limit);
    HistoryItems(HistoryMessages(log, roomId, limit), users)
  }

  // ---------------------------------------------------------------------
  // Channel layer

  /** The events queued for a channel so far. */
  function Inbox(inbox: map<nat, seq<Event>>, channel: nat): seq<Event>
  {
    if channel in inbox then inbox[channel] else []
  }

  /** `group_send`: every member receives the event once, and nobody else receives anything. */
  function Deliver(inbox: map<nat, seq<Event>>, members: set<nat>, event: Event): (r: map<nat, seq<Event>>)
    ensures forall c :: c in members ==> Inbox(r, c) == Inbox(inbox, c) + [event]
    ensures forall c :: c !in members ==> Inbox(r, c) == Inbox(inbox, c)
  {
    map c | c in inbox.Keys + members :: Inbox(inbox, c) + (if c in members then [event] else [])
  }

  class ChannelLayer {
    var groups: map<string, set<nat>>
    var inbox: map<nat, seq<Event>>

    constructor ()
      ensures groups == map[] && inbox == map[]
    {
      groups, inbox := map[], map[];
    }

    function Members(group: string): set<nat>
      reads this
    {
      if group in groups then groups[group] else {}
    }

    /** `group_add`. */
    method GroupAdd(group: string, channel: nat)
      modifies this
      ensures groups == old(groups)[group := old(Members(group)) + {channel}]
      ensures inbox == old(inbox)
    {
      groups := groups[group := Members(group) + {channel}];
    }

    /** `group_discard`: a channel that is not a member is left as it is. */
    method GroupDiscard(group: string, channel: nat)
      modifies this
      ensures groups == old(groups)[group := old(Members(group)) - {channel}]
      ensures inbox == old(inbox)
    {
      groups := groups[group := Members(group) - {channel}];
    }

    /** `group_send`. */
    method GroupSend(group: string, event: Event)
      modifies this
      ensures groups == old(groups)
      ensures inbox == Deliver(old(inbox), Members(group), event)
    {
      inbox := Deliver(inbox, Members(group), event);
    }
  }

  /** A channel that has left the group gets nothing from a later send to that group. */
  lemma LeftChannelGetsNothing(inbox: map<nat, seq<Event>>, members: set<nat>, channel: nat, event: Event)
    ensures Inbox(Deliver(inbox, members - {channel}, event), channel) == Inbox(inbox, channel)
    ensures channel in members ==> Inbox(Deliver(inbox, members, event), channel) == Inbox(inbox, channel) + [event]
  {
  }

  // ---------------------------------------------------------------------
  // The consumer

  /** `scope["user"]`: missing, the anonymous user, or a logged-in user's id. */
  datatype ScopeUser = NoUser | Anonymous | Authenticated(id: nat)

  /** Where a connection is in its life. */
  datatype Phase = Connecting | Rejected | Joined | Left

  /** What one `receive` call ends in. */
  datatype ReceiveOutcome =
    | Broadcast(event: Event)   // stored and sent to the group
    | MissingMessageKey         // `data["message"]` raised KeyError: nothing stored or sent
    | NoSuchRoom                // the route's room id names no room: the insert fails, nothing stored or sent

  class ChatConsumer {
    const channelName: nat
    const routeRoomId: nat      // scope["url_route"]["kwargs"]["room_id"]
    const user: ScopeUser       // scope["user"]
    const db: ChatDb
    const layer: ChannelLayer
    var roomId: nat
    var roomGroupName: string
    var phase: Phase
    var sent: seq<Event>        // what `send` has written to this client, in order

    constructor (channelName: nat, routeRoomId: nat, user: ScopeUser, db: ChatDb, layer: ChannelLayer)
      ensures this.channelName == channelName && this.routeRoomId == routeRoomId && this.user == user
      ensures this.db == db && this.layer == layer
      ensures phase == Connecting && sent == []
    {
      this.channelName, this.routeRoomId, this.user := channelName, routeRoomId, user;
      this.db, this.layer := db, layer;
      roomId, roomGroupName := routeRoomId, GroupName(routeRoomId);
      phase, sent := Connecting, [];
    }

    /**
     * `connect`: record the room and its group; close a missing or anonymous
     * user's connection without joining anything; otherwise join the group,
     * accept, and send exactly one `chat_history` event. Whether the user is
     * one of the room's two participants is not checked.
     */
    method Connect()
      requires phase == Connecting && db.Valid()
      modifies this, layer
      ensures roomId == routeRoomId && roomGroupName == GroupName(routeRoomId)
      ensures !user.Authenticated? ==>
        && phase == Rejected && sent == old(sent)
        && layer.groups == old(layer.groups) && layer.inbox == old(layer.inbox)
      ensures user.Authenticated? ==>
        && phase == Joined
        && channelName in layer.Members(roomGroupName)
        && layer.groups == old(layer.groups)[roomGroupName := old(layer.Members(GroupName(routeRoomId))) + {channelName}]
        && layer.inbox == old(layer.inbox)
        && sent == old(sent) + [ChatHistoryEvent(History(db.messages, db.users, routeRoomId, HistoryLimit))]
    {
      roomId := routeRoomId;
      roomGroupName := GroupName(roomId);
      if !user.Authenticated? {
        phase := Rejected;
        return;
      }
      layer.GroupAdd(roomGroupName, channelName);
      phase := Joined;
      var history := History(db.messages, db.users, roomId, HistoryLimit);
      sent := sent + [ChatHistoryEvent(history)];
    }

    /** `disconnect(code)`: leave the group, whatever the code; a no-op on membership if not a member. */
    method Disconnect(code: int)
      requires phase != Connecting
      modifies this, layer
      ensures layer.groups == old(layer.groups)[roomGroupName := old(layer.Members(roomGroupName)) - {channelName}]
      ensures channelName !in layer.Members(roomGroupName)
      ensures layer.inbox == old(layer.inbox)
      ensures phase == Left && sent == old(sent)
      ensures roomId == old(roomId) && roomGroupName == old(roomGroupName)
    {
      layer.GroupDiscard(roomGroupName, channelName);
      phase := Left;
    }

    /** `_save_message`: insert the message (which touches the room), then set `updated_at` to its `sent_at`. */
    method SaveMessage(text: string) returns (msg: Message)
      requires db.Valid() && user.Authenticated? && user.id in db.users
      requires 1 <= roomId <= |db.rooms|
      modifies db
      ensures db.Valid()
      ensures msg == Message(|old(db.messages)| + 1, roomId, user.id, text, old(db.clock) + 1)
      ensures db.messages == old(db.messages) + [msg]
      ensures db.rooms == old(db.rooms)[roomId - 1 := old(db.rooms)[roomId - 1].(updatedAt := msg.sentAt)]
      ensures db.users == old(db.users)
      ensures db.clock == old(db.clock) + 2
    {
      msg := db.SaveMessage(roomId, user.id, text);
      db.SetUpdatedAt(roomId, msg.sentAt);
    }

    /**
     * `receive`: read the `message` field, store it as a message of this
     * connection's room sent by this connection's user, then send one
     * `chat_message` event carrying the stored id, username, text and time
     * to every member of the group.
     */
    method Receive(data: map<string, string>) returns (outcome: ReceiveOutcome)
      requires phase == Joined && db.Valid()
      requires user.Authenticated? && user.id in db.users
      modifies db, layer
      ensures db.Valid()
      ensures "message" !in data ==>
        outcome == MissingMessageKey && unchanged(db) && unchanged(layer)
      ensures "message" in data && !(1 <= roomId <= |old(db.rooms)|) ==>
        outcome == NoSuchRoom && unchanged(db) && unchanged(layer)
      ensures "message" in data && 1 <= roomId <= |old(db.rooms)| ==>
        var msg := Message(|old(db.messages)| + 1, roomId, user.id, data["message"], old(db.clock) + 1);
        && db.messages == old(db.messages) + [msg]
        && db.rooms == old(db.rooms)[roomId - 1 := old(db.rooms)[roomId - 1].(updatedAt := msg.sentAt)]
        && db.users == old(db.users)
        && db.clock == old(db.clock) + 2
        && outcome == Broadcast(ChatMessageEvent(msg.id, db.users[user.id], msg.text, msg.sentAt))
        && layer.groups == old(layer.groups)
        && layer.inbox == Deliver(old(layer.inbox), layer.Members(roomGroupName), outcome.event)
    {
      if "message" !in data {
        return MissingMessageKey;
      }
      if !(1 <= roomId <= |db.rooms|) {
        return NoSuchRoom;
      }
      var msg := SaveMessage(data["message"]);
      var event := ChatMessageEvent(msg.id, db.users[msg.sender], msg.text, msg.sentAt);
      layer.GroupSend(roomGroupName, event);
      outcome := Broadcast(event);
    }

    /** `chat_message(event)`: forward a group event to the client unchanged. */
    method ChatMessage(event: Event)
      modifies this`sent
      ensures sent == old(sent) + [event]
    {
      sent := sent + [event];
    }
  }
}
