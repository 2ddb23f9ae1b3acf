/**
 * How one inbound realtime event changes a store: the lobby channel's
 * `ROOM_UPDATE` fold over the room store, the room channel's append to the
 * message store, the close codes that ask for a fresh room list, and the
 * addresses the two channels are opened at.
 */
module ChannelEvents {
  import opened ChatTypes
  import opened RoomOrder

  /** `{...room, messages: [...room.messages, m]}`, or `[m]` when the room had no list. */
  function WithLastMessage(room: Room, m: Message): (r: Room)
    ensures r.id == room.id && r.user1Id == room.user1Id && r.user2Id == room.user2Id
    ensures MessagesOf(r) == MessagesOf(room) + [m]
    ensures LastTime(r) == m.createdAt
  {
    room.(messages := Some(match room.messages
                           case None => [m]
                           case Some(ms) => ms + [m]))
  }

  /** `rooms.some(r => r.id === roomId)` */
  predicate HasRoom(rooms: seq<Room>, roomId: string)
  {
    exists i :: 0 <= i < |rooms| && rooms[i].id == roomId
  }

  /** The callback given to `map`: the targeted room gets the message, the others are returned as they are. */
  function Touch(room: Room, roomId: string, m: Message): Room
  {
    if room.id == roomId then WithLastMessage(room, m) else room
  }

  /** `rooms.map(...)`: the message is appended to every room with the given id. */
  function AppendToRoom(rooms: seq<Room>, roomId: string, m: Message): (r: seq<Room>)
    ensures |r| == |rooms|
    ensures forall i :: 0 <= i < |rooms| ==> r[i] == Touch(rooms[i], roomId, m)
  {
    if |rooms| == 0 then [] else [Touch(rooms[0], roomId, m)] + AppendToRoom(rooms[1..], roomId, m)
  }

  /** The result of folding a `ROOM_UPDATE` into the room store. */
  datatype RoomUpdateOutcome =
    | RefetchRooms            // unknown room: store kept, the full list is fetched again
    | Reordered(rooms: seq<Room>)

  /** The `setRooms` updater of the lobby channel's `ROOM_UPDATE` branch. */
  function ApplyRoomUpdate(rooms: seq<Room>, roomId: string, m: Message): (out: RoomUpdateOutcome)
  {
    if !HasRoom(rooms, roomId) then RefetchRooms
    else Reordered(SortByLatest(AppendToRoom(rooms, roomId, m)))
  }

  lemma {:induction false} AppendKeepsIds(rooms: seq<Room>, roomId: string, m: Message)
    ensures Ids(AppendToRoom(rooms, roomId, m)) == Ids(rooms)
  {
    if |rooms| > 0 {
      AppendKeepsIds(rooms[1..], roomId, m);
      var r := AppendToRoom(rooms, roomId, m);
      assert r[1..] == AppendToRoom(rooms[1..], roomId, m);
    }
  }

  lemma ConsCount(h: Room, t: seq<Room>, x: Room)
    ensures multiset([h] + t)[x] == (if h == x then 1 else 0) + multiset(t)[x]
  {
    assert multiset([h] + t) == multiset{h} + multiset(t);
  }

  /** A room other than the targeted one appears after the map exactly as often as before. */
  lemma {:induction false} AppendKeepsOtherRooms(rooms: seq<Room>, roomId: string, m: Message, x: Room)
    requires x.id != roomId
    ensures multiset(AppendToRoom(rooms, roomId, m))[x] == multiset(rooms)[x]
  {
    if |rooms| > 0 {
      var head := Touch(rooms[0], roomId, m);
      var tail := AppendToRoom(rooms[1..], roomId, m);
      AppendKeepsOtherRooms(rooms[1..], roomId, m, x);
      ConsCount(head, tail, x);
      assert rooms == [rooms[0]] + rooms[1..];
      ConsCount(rooms[0], rooms[1..], x);
      assert head == x <==> rooms[0] == x by {
        if rooms[0].id == roomId {
          assert head.id == roomId;
        }
      }
    }
  }

  /** Every room after the map is an untouched other room, or a targeted room with the message appended. */
  lemma AppendedRoomOrigin(rooms: seq<Room>, roomId: string, m: Message, x: Room)
    ensures x in AppendToRoom(rooms, roomId, m) <==>
      (x.id != roomId && x in rooms) ||
      (exists y :: y in rooms && y.id == roomId && x == WithLastMessage(y, m))
  {
    var r := AppendToRoom(rooms, roomId, m);
    if x in r {
      var i :| 0 <= i < |r| && r[i] == x;
      assert rooms[i] in rooms;
    }
    if x.id != roomId && x in rooms {
      var i :| 0 <= i < |rooms| && rooms[i] == x;
      assert r[i] == x;
    }
    if exists y :: y in rooms && y.id == roomId && x == WithLastMessage(y, m) {
      var y :| y in rooms && y.id == roomId && x == WithLastMessage(y, m);
      var i :| 0 <= i < |rooms| && rooms[i] == y;
      assert r[i] == x;
    }
  }

  /**
   * The `ROOM_UPDATE` fold. An unknown room id asks for a refetch and leaves
   * the store as it is. A known one yields a store that holds the same ids,
   * holds every other room unchanged and as often as before, holds every
   * targeted room with the message appended, is sorted latest-first, and keeps
   * tied rooms in their prior order.
   */
  lemma RoomUpdateFold(rooms: seq<Room>, roomId: string, m: Message)
    ensures ApplyRoomUpdate(rooms, roomId, m).RefetchRooms? <==> !HasRoom(rooms, roomId)
    ensures HasRoom(rooms, roomId) ==>
      var r := ApplyRoomUpdate(rooms, roomId, m).rooms;
      && |r| == |rooms|
      && multiset(Ids(r)) == multiset(Ids(rooms))
      && (forall x: Room :: x.id != roomId ==> multiset(r)[x] == multiset(rooms)[x])
      && (forall x :: x in r <==>
            (x.id != roomId && x in rooms) ||
            (exists y :: y in rooms && y.id == roomId && x == WithLastMessage(y, m)))
      && SortedByLatest(r)
      && (forall k :: WithKey(r, k) == WithKey(AppendToRoom(rooms, roomId, m), k))
  {
    if HasRoom(rooms, roomId) {
      var touched := AppendToRoom(rooms, roomId, m);
      var r := SortByLatest(touched);
      SortKeepsIds(touched);
      AppendKeepsIds(rooms, roomId, m);
      forall x: Room | x.id != roomId ensures multiset(r)[x] == multiset(rooms)[x] {
        AppendKeepsOtherRooms(rooms, roomId, m, x);
      }
      forall x ensures x in r <==>
          (x.id != roomId && x in rooms) ||
          (exists y :: y in rooms && y.id == roomId && x == WithLastMessage(y, m)) {
        assert x in r <==> x in multiset(touched);
        AppendedRoomOrigin(rooms, roomId, m, x);
      }
      forall k ensures WithKey(r, k) == WithKey(touched, k) {
        SortIsStable(touched, k);
      }
    }
  }

  /** Applying the same update twice appends the message twice: the fold is not idempotent. */
  lemma RepeatedUpdateAppendsTwice(room: Room, m: Message)
    ensures var once := ApplyRoomUpdate([room], room.id, m);
      && once.Reordered?
      && ApplyRoomUpdate(once.rooms, room.id, m).Reordered?
      && MessagesOf(ApplyRoomUpdate(once.rooms, room.id, m).rooms[0]) == MessagesOf(room) + [m, m]
  {
    assert HasRoom([room], room.id);
    var once := ApplyRoomUpdate([room], room.id, m);
    assert once.rooms == [WithLastMessage(room, m)] by {
      assert multiset(once.rooms) == multiset([WithLastMessage(room, m)]);
      assert |once.rooms| == 1;
      assert once.rooms[0] in multiset(once.rooms);
    }
    assert HasRoom(once.rooms, room.id);
    var twice := ApplyRoomUpdate(once.rooms, room.id, m);
    assert twice.rooms == [WithLastMessage(WithLastMessage(room, m), m)] by {
      var t := [WithLastMessage(WithLastMessage(room, m), m)];
      assert multiset(twice.rooms) == multiset(t);
      assert |twice.rooms| == 1;
      assert twice.rooms[0] in multiset(twice.rooms);
    }
  }

  /**
   * A room whose new message is later than the other room's latest moves
   * ahead of it: from `[r2, r1]`, an update of `r1` yields `[r1 + m, r2]`.
   */
  lemma UpdatedRoomMovesAhead(r2: Room, r1: Room, m: Message)
    requires r1.id != r2.id && LastTime(r2) < m.createdAt
    ensures ApplyRoomUpdate([r2, r1], r1.id, m) == Reordered([WithLastMessage(r1, m), r2])
  {
    var u := WithLastMessage(r1, m);
    assert [r2, r1][1].id == r1.id;
    assert AppendToRoom([r2, r1], r1.id, m) == [r2, u];
    assert SortByLatest([u]) == [u] by {
      assert [u][1..] == [];
    }
    assert SortByLatest([r2, u]) == InsertByLatest(r2, [u]) by {
      assert [r2, u][1..] == [u];
    }
    assert InsertByLatest(r2, [u]) == [u] + InsertByLatest(r2, []) by {
      assert [u][1..] == [];
    }
  }

  /** What the lobby channel's `onmessage` does with one event. */
  datatype LobbyOutcome = LobbyOutcome(rooms: seq<Room>, refetch: bool)

  function LobbyChannelStep(rooms: seq<Room>, e: InboundEvent): (out: LobbyOutcome)
    ensures out.refetch <==> e.RoomUpdate? && !HasRoom(rooms, e.roomId)
    ensures !e.RoomUpdate? || out.refetch ==> out.rooms == rooms
  {
    if e.RoomUpdate? then
      match ApplyRoomUpdate(rooms, e.roomId, e.lastMessage)
      case RefetchRooms => LobbyOutcome(rooms, true)
      case Reordered(r) => LobbyOutcome(r, false)
    else
      LobbyOutcome(rooms, false)
  }

  /**
   * What the room channel's `onmessage` does with one event: the store only
   * ever grows at its tail, by exactly the payload of a `NEW_MESSAGE`, with no
   * check against entries already there.
   */
  function RoomChannelStep(messages: seq<Message>, e: InboundEvent): (r: seq<Message>)
    ensures messages <= r
    ensures |r| == |messages| + 1 <==> e.NewMessage?
    ensures |r| == |messages| <==> !e.NewMessage?
    ensures e.NewMessage? ==> r[|messages|] == e.message
  {
    if e.NewMessage? then messages + [e.message] else messages
  }

  /** Close codes 4001 and 4002 mean the realtime token was refused. */
  predicate IsReservedCloseCode(code: int)
  {
    code == 4001 || code == 4002
  }

  /** `${WS_BASE_URL}/room/${roomId}?token=${token}` */
  function RoomUrl(roomId: string, token: string): string
  {
    WS_BASE_URL + "/room/" + roomId + "?token=" + token
  }

  /** `${WS_BASE_URL}/rooms?token=${token}` */
  function LobbyUrl(token: string): string
  {
    WS_BASE_URL + "/rooms?token=" + token
  }

  /** A room channel never shares its address with a lobby channel, whatever the tokens. */
  lemma RoomAndLobbyUrlsDiffer(roomId: string, t1: string, t2: string)
    ensures RoomUrl(roomId, t1) != LobbyUrl(t2)
  {
    var n := |WS_BASE_URL|;
    assert RoomUrl(roomId, t1)[n + 5] == '/';
    assert LobbyUrl(t2)[n + 5] == 's';
  }

  lemma RoomUrlLayout(id: string, t: string)
    ensures var n := |WS_BASE_URL + "/room/"|;
      && RoomUrl(id, t)[n + |id|] == '?'
      && forall i :: 0 <= i < |id| ==> RoomUrl(id, t)[n + i] == id[i]
  {
    var p := WS_BASE_URL + "/room/";
    assert RoomUrl(id, t) == p + id + "?token=" + t;
  }

  /** The room id and token can be read back from a room channel's address when the id holds no `?`. */
  lemma RoomUrlIdentifiesRoom(id1: string, t1: string, id2: string, t2: string)
    requires '?' !in id1 && '?' !in id2
    requires RoomUrl(id1, t1) == RoomUrl(id2, t2)
    ensures id1 == id2 && t1 == t2
  {
    var p := WS_BASE_URL + "/room/";
    var u1, u2 := RoomUrl(id1, t1), RoomUrl(id2, t2);
    assert u1 == p + id1 + "?token=" + t1;
    assert u2 == p + id2 + "?token=" + t2;
    RoomUrlLayout(id1, t1);
    RoomUrlLayout(id2, t2);
    if |id1| < |id2| {
      assert false;
    } else if |id2| < |id1| {
      assert false;
    } else {
      assert id1 == u1[|p|..|p| + |id1|] == u2[|p|..|p| + |id2|] == id2;
      assert t1 == u1[|p| + |id1| + 7..] == u2[|p| + |id2| + 7..] == t2;
    }
  }
}
