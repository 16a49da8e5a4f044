/** The Redis-backed whiteboard server of src/redis/whiteboard.go: a registry
    of rooms, each with its connected clients, its current scene and a
    save-debounce flag, fed by the client read loops and by the Redis
    subscriber. Each locked region is one atomic method; the `*Space` a
    handler holds is always the room its id names, because a room is
    deleted only once its last client has gone. Connections are numbered,
    Redis publications are appended to a log, writes to client sockets are
    returned as recipient sets, the `space_whiteboards` table is a map from
    space id to its saved scene, and the save timer firing is an explicit
    call. */
module WhiteboardServer {
  import opened Wrappers
  import Decimal
  import MapValues

  /** The save timer's delay, in milliseconds (`3 * time.Second`). */
  const DebounceMs := 3000

  /** A JSON value the server passes through without reading it: a string,
      or any other value as its raw text (`null` is `NonString("null")`). */
  datatype JsonValue = JString(s: string) | NonString(text: string)

  /** A decoded JSON object. */
  type Message = map<string, JsonValue>

  /** `WhiteboardState`. The raw `elements` and `appState` are `None` when
      empty. */
  datatype WhiteboardState = WhiteboardState(
    msgType: string,
    elements: Option<JsonValue>,
    appState: Option<JsonValue>,
    roomId: string)

  /** A `space_whiteboards` row. */
  datatype Stored = Stored(elements: Option<JsonValue>, appState: Option<JsonValue>)

  /** `Space`: the numeric space id (0 when the room id is not a number),
      connection to nickname, the scene, and the debounce state. */
  datatype Room = Room(
    spaceId: nat,
    clients: map<nat, string>,
    state: WhiteboardState,
    lastModified: int,
    saveScheduled: bool)

  /** What goes out on Redis: a scene message on `whiteboard:updates`, or a
      participants list on `whiteboard:participants`. */
  datatype Publication =
    | Update(message: WhiteboardState)
    | Participants(roomId: string, participants: seq<string>)

  function Channel(p: Publication): string {
    match p
    case Update(_) => "whiteboard:updates"
    case Participants(_, _) => "whiteboard:participants"
  }

  /** The space id of a room: `fmt.Sscanf(roomID, "%d", &spaceID)`, leaving
      0 when the scan fails. */
  function SpaceIdOf(roomId: string): nat {
    Decimal.ScanUint(roomId).GetOr(0)
  }

  /** A numeric room id names its own space, however it is followed, and a
      room id that does not start with a digit names none. */
  lemma SpaceIdOfNumeral(n: nat, rest: string)
    requires n < 0x1_0000_0000_0000_0000
    requires rest == [] || !Decimal.IsDigit(rest[0])
    ensures SpaceIdOf(Decimal.NatToString(n) + rest) == n
    ensures rest != [] ==> SpaceIdOf(rest) == 0
  {
    Decimal.ScanUintOfNumeral(n, rest);
  }

  /** The room a first connection creates: the stored scene when the space
      id is non-zero and a row was found, else `[]` and `{}`. */
  function NewRoom(spaceId: nat, stored: Option<Stored>): (r: Room)
    ensures r.clients == map[] && !r.saveScheduled && r.spaceId == spaceId
    ensures r.state.msgType == "scene-update" && r.state.roomId == ""
    ensures spaceId != 0 && stored.Some? ==>
      r.state.elements == stored.value.elements && r.state.appState == stored.value.appState
    ensures spaceId == 0 || stored.None? ==>
      r.state.elements == Some(NonString("[]")) && r.state.appState == Some(NonString("{}"))
  {
    var elements, appState :=
      if spaceId != 0 && stored.Some? then stored.value.elements else Some(NonString("[]")),
      if spaceId != 0 && stored.Some? then stored.value.appState else Some(NonString("{}"));
    Room(spaceId, map[], WhiteboardState("scene-update", elements, appState, ""), 0, false)
  }

  /** The read loop's rewrite of a client message: an empty type becomes
      `scene-update` and the room id is the connection's own. */
  function Normalize(m: WhiteboardState, roomId: string): (r: WhiteboardState)
    ensures r.msgType != "" && r.roomId == roomId
    ensures m.msgType != "" ==> r.msgType == m.msgType
    ensures m.msgType == "" ==> r.msgType == "scene-update"
    ensures r.elements == m.elements && r.appState == m.appState
  {
    m.(msgType := if m.msgType == "" then "scene-update" else m.msgType, roomId := roomId)
  }

  /** `json.Marshal` of a `WhiteboardState`: an empty `elements` is written
      as `null`; an empty `appState` and an empty room id are omitted. */
  function Encode(s: WhiteboardState): Message {
    map["type" := JString(s.msgType), "elements" := s.elements.GetOr(NonString("null"))]
    + (if s.appState.Some? then map["appState" := s.appState.value] else map[])
    + (if s.roomId != "" then map["roomId" := JString(s.roomId)] else map[])
  }

  function StringField(m: Message, key: string): (r: Option<string>)
    ensures r.Some? <==> key in m && m[key].JString?
    ensures r.Some? ==> m[key] == JString(r.value)
  {
    if key in m && m[key].JString? then Some(m[key].s) else None
  }

  function Field(m: Message, key: string): (r: Option<JsonValue>)
    ensures r.Some? <==> key in m
    ensures r.Some? ==> r.value == m[key]
  {
    if key in m then Some(m[key]) else None
  }

  /** The subscriber's accepted form of a Redis payload (`None` when it is
      not a JSON object): the message must hold a string `type` and a string
      `roomId`; its state is the message read back into a
      `WhiteboardState`. */
  function Accepted(payload: Option<Message>): (r: Option<WhiteboardState>)
    ensures r.Some? <==>
      payload.Some? && StringField(payload.value, "type").Some? && StringField(payload.value, "roomId").Some?
    ensures r.Some? ==>
      && r.value.msgType == StringField(payload.value, "type").value
      && r.value.roomId == StringField(payload.value, "roomId").value
      && r.value.elements == Field(payload.value, "elements")
      && r.value.appState == Field(payload.value, "appState")
  {
    if payload.None? then None
    else
      var m := payload.value;
      var t, room := StringField(m, "type"), StringField(m, "roomId");
      if t.None? || room.None? then None
      else Some(WhiteboardState(t.value, Field(m, "elements"), Field(m, "appState"), room.value))
  }

  /** What a read loop publishes comes back to every subscriber as the same
      message for the same room, except that an empty `elements` returns as
      `null`. */
  lemma PublishedIsAccepted(m: WhiteboardState, roomId: string)
    requires roomId != ""
    ensures var s := Normalize(m, roomId);
      Accepted(Some(Encode(s))) == Some(s.(elements := Some(s.elements.GetOr(NonString("null")))))
  {
    var s := Normalize(m, roomId);
    var e := Encode(s);
    assert e["type"] == JString(s.msgType) && e["roomId"] == JString(roomId);
    assert e["elements"] == s.elements.GetOr(NonString("null"));
    assert s.appState.Some? ==> e["appState"] == s.appState.value;
  }

  /** `scheduleRoomSave` on an existing room at time `now`: it always
      records the change time; only when no save is pending does it mark
      one pending and arm (or reset) the timer, whose due time it returns. */
  function Schedule(r: Room, now: int): (res: (Room, Option<int>))
    ensures res.0.saveScheduled && res.0.lastModified == now
    ensures res.0.spaceId == r.spaceId && res.0.clients == r.clients && res.0.state == r.state
    ensures res.1.Some? <==> !r.saveScheduled
    ensures res.1.Some? ==> res.1.value == now + DebounceMs
  {
    (r.(lastModified := now, saveScheduled := true), if r.saveScheduled then None else Some(now + DebounceMs))
  }

  /** A run of `scheduleRoomSave` calls at `times`, with the timers armed. */
  function ScheduleRun(r: Room, times: seq<int>): (Room, seq<int>)
    decreases |times|
  {
    if times == [] then (r, [])
    else
      var (r1, due) := Schedule(r, times[0]);
      var (r2, dues) := ScheduleRun(r1, times[1..]);
      (r2, (if due.Some? then [due.value] else []) + dues)
  }

  /** While a save is pending, further changes arm nothing and only move
      `lastModified`. */
  lemma {:induction false} PendingArmsNothing(r: Room, times: seq<int>)
    requires r.saveScheduled
    ensures ScheduleRun(r, times).1 == []
    ensures var r2 := ScheduleRun(r, times).0;
      r2.saveScheduled && r2.clients == r.clients && r2.state == r.state && r2.spaceId == r.spaceId
    ensures times != [] ==> ScheduleRun(r, times).0.lastModified == times[|times| - 1]
    ensures times == [] ==> ScheduleRun(r, times).0 == r
    decreases |times|
  {
    if times != [] {
      var r1 := Schedule(r, times[0]).0;
      PendingArmsNothing(r1, times[1..]);
      if |times| > 1 {
        assert times[1..][|times[1..]| - 1] == times[|times| - 1];
      }
    }
  }

  /** A burst of changes with no save pending arms exactly one timer, due
      `DebounceMs` after the FIRST change of the burst: later changes do not
      push the save back. */
  lemma BurstArmsOnce(r: Room, times: seq<int>)
    requires !r.saveScheduled && times != []
    ensures ScheduleRun(r, times).1 == [times[0] + DebounceMs]
    ensures ScheduleRun(r, times).0.saveScheduled
    ensures ScheduleRun(r, times).0.lastModified == times[|times| - 1]
  {
    var r1 := Schedule(r, times[0]).0;
    PendingArmsNothing(r1, times[1..]);
    if |times| > 1 {
      assert times[1..][|times[1..]| - 1] == times[|times| - 1];
    }
  }

  /** `saveRoomState` on an existing room: the pending flag is cleared on
      every path, and the scene is returned for saving only when the room
      has a space id. */
  function Fire(r: Room): (res: (Room, Option<Stored>))
    ensures !res.0.saveScheduled
    ensures res.0 == r.(saveScheduled := false)
    ensures res.1.Some? <==> r.spaceId != 0
    ensures res.1.Some? ==> res.1.value == Stored(r.state.elements, r.state.appState)
  {
    (r.(saveScheduled := false), if r.spaceId == 0 then None else Some(Stored(r.state.elements, r.state.appState)))
  }

  /** After the timer fires, the next change arms a fresh timer. */
  lemma FireRearms(r: Room, now: int)
    ensures Schedule(Fire(r).0, now).1 == Some(now + DebounceMs)
  {
  }

  /** Each connection is a client of the room it names. */
  ghost predicate ConnsInRooms(rooms: map<string, Room>, conns: map<nat, string>) {
    forall c :: c in conns ==> conns[c] in rooms && c in rooms[conns[c]].clients
  }

  /** Each client of a room is a connection naming that room. */
  ghost predicate ClientsAreConns(rooms: map<string, Room>, conns: map<nat, string>) {
    forall r, c :: r in rooms && c in rooms[r].clients ==> c in conns && conns[c] == r
  }

  /** No room is empty. */
  ghost predicate LiveRooms(rooms: map<string, Room>) {
    forall r :: r in rooms ==> rooms[r].clients != map[]
  }

  /** Each room's space id is read from its id. */
  ghost predicate SpaceIds(rooms: map<string, Room>) {
    forall r {:trigger SpaceIdOf(r)} :: r in rooms ==> rooms[r].spaceId == SpaceIdOf(r)
  }

  /** The registry's shape: connections and room clients are the same
      thing, seen from either side, and no room is empty. */
  ghost predicate Registry(rooms: map<string, Room>, conns: map<nat, string>) {
    ConnsInRooms(rooms, conns) && ClientsAreConns(rooms, conns) && LiveRooms(rooms)
  }

  /** Adding connection `c` to room `r`, new or existing. */
  lemma RegistryJoin(rooms: map<string, Room>, conns: map<nat, string>, r: string, room: Room, c: nat, name: string)
    requires Registry(rooms, conns) && c !in conns
    requires r in rooms ==> room.clients == rooms[r].clients
    requires r !in rooms ==> room.clients == map[]
    ensures Registry(rooms[r := room.(clients := room.clients[c := name])], conns[c := r])
  {
    var joined := room.(clients := room.clients[c := name]);
    var rooms', conns' := rooms[r := joined], conns[c := r];
    forall d | d in conns' ensures conns'[d] in rooms' && d in rooms'[conns'[d]].clients {
      if d != c && conns[d] == r {
        assert d in rooms[r].clients;
      }
    }
    assert ConnsInRooms(rooms', conns');
    forall q, d | q in rooms' && d in rooms'[q].clients ensures d in conns' && conns'[d] == q {
      if q == r {
        if d != c {
          assert r in rooms && d in rooms[r].clients;
        }
      } else {
        assert d in rooms[q].clients;
      }
    }
    assert ClientsAreConns(rooms', conns');
    assert c in joined.clients;
    assert LiveRooms(rooms');
  }

  /** Replacing a room's scene or debounce state. */
  lemma RegistryKeep(rooms: map<string, Room>, conns: map<nat, string>, r: string, room: Room)
    requires Registry(rooms, conns) && r in rooms
    requires room.clients == rooms[r].clients && room.spaceId == rooms[r].spaceId
    ensures Registry(rooms[r := room], conns)
  {
    var rooms' := rooms[r := room];
    assert forall q :: q in rooms' ==> rooms'[q].clients == rooms[q].clients && rooms'[q].spaceId == rooms[q].spaceId;
  }

  /** The rooms after connection `c` of room `r` leaves: the room goes when
      it empties, and no other room changes. */
  function LeaveRoom(rooms: map<string, Room>, r: string, c: nat): (res: map<string, Room>)
    requires r in rooms
    ensures forall q :: q in res <==> q in rooms && (q != r || rooms[r].clients - {c} != map[])
    ensures r in res ==> res[r] == rooms[r].(clients := rooms[r].clients - {c})
    ensures forall q :: q in rooms && q != r ==> res[q] == rooms[q]
  {
    var remaining := rooms[r].clients - {c};
    if remaining == map[] then rooms - {r} else rooms[r := rooms[r].(clients := remaining)]
  }

  lemma RegistryLeave(rooms: map<string, Room>, conns: map<nat, string>, c: nat)
    requires Registry(rooms, conns) && c in conns
    ensures Registry(LeaveRoom(rooms, conns[c], c), conns - {c})
  {
    var r := conns[c];
    var rooms', conns' := LeaveRoom(rooms, r, c), conns - {c};
    forall d | d in conns' ensures conns'[d] in rooms' && d in rooms'[conns'[d]].clients {
      var q := conns[d];
      assert d in rooms[q].clients;
      if q == r {
        assert d in rooms[r].clients - {c};
      }
    }
    assert ConnsInRooms(rooms', conns');
    forall q, d | q in rooms' && d in rooms'[q].clients ensures d in conns' && conns'[d] == q {
      assert d in rooms[q].clients;
    }
    assert ClientsAreConns(rooms', conns');
  }

  /** The room a connection on `roomId` joins: the existing one, or a new
      one seeded from the row `db` holds for the room's space. */
  function Opened(rooms: map<string, Room>, db: map<nat, Stored>, roomId: string): (room: Room)
    ensures roomId in rooms ==> room == rooms[roomId]
    ensures roomId !in rooms ==>
      room == NewRoom(SpaceIdOf(roomId), if SpaceIdOf(roomId) in db then Some(db[SpaceIdOf(roomId)]) else None)
  {
    if roomId in rooms then rooms[roomId]
    else
      var spaceId := SpaceIdOf(roomId);
      NewRoom(spaceId, if spaceId in db then Some(db[spaceId]) else None)
  }

  /** The table after the last client of `room` leaves: its scene is saved
      under its space id, unless that is 0. */
  function SaveOnClose(db: map<nat, Stored>, room: Room): (r: map<nat, Stored>)
    ensures room.spaceId == 0 ==> r == db
    ensures room.spaceId != 0 ==> r.Keys == db.Keys + {room.spaceId}
    ensures room.spaceId != 0 ==> r[room.spaceId] == Stored(room.state.elements, room.state.appState)
    ensures forall s :: s in db && s != room.spaceId ==> r[s] == db[s]
  {
    if room.spaceId == 0 then db else db[room.spaceId := Stored(room.state.elements, room.state.appState)]
  }

  class Server {
    /** `rooms`, by room id. */
    var rooms: map<string, Room>
    /** The room id each connection handler was opened on. */
    var conns: map<nat, string>
    /** The `space_whiteboards` table, by space id. */
    var db: map<nat, Stored>
    /** Everything published to Redis, in order. */
    var published: seq<Publication>
    /** A source of fresh connection names. */
    var nextConn: nat

    ghost predicate Valid()
      reads this`rooms, this`conns, this`nextConn
    {
      Registry(rooms, conns) && SpaceIds(rooms) && (forall c :: c in conns ==> c < nextConn)
    }

    /** `NewWhiteboardServer` over a database holding `db`. */
    constructor (db: map<nat, Stored>)
      ensures Valid()
      ensures rooms == map[] && conns == map[] && this.db == db && published == []
    {
      rooms, conns, this.db, published, nextConn := map[], map[], db, [], 0;
    }

    /** `broadcastParticipants`: a room's nicknames, one per client, in the
        map's order, published for the room; nothing for an unknown room. */
    method BroadcastParticipants(roomId: string) returns (participants: seq<string>)
      modifies this`published
      ensures roomId in rooms ==>
        && MapValues.Lists(participants, rooms[roomId].clients)
        && published == old(published) + [Participants(roomId, participants)]
      ensures roomId !in rooms ==> participants == [] && published == old(published)
    {
      participants := [];
      if roomId in rooms {
        ghost var order: seq<nat>;
        participants, order := MapValues.Values(rooms[roomId].clients);
        published := published + [Participants(roomId, participants)];
      }
    }

    /** The locked part of the connect path for a non-empty room id: the
        room is created if missing, loading the stored scene only for a
        non-zero space id, and the new connection joins it. */
    method Register(roomId: string, nickname: string) returns (c: nat)
      requires Valid() && roomId != ""
      modifies this`rooms, this`conns, this`nextConn
      ensures Valid() && c !in old(conns)
      ensures var room := Opened(old(rooms), db, roomId);
        rooms == old(rooms)[roomId := room.(clients := room.clients[c := nickname])]
      ensures conns == old(conns)[c := roomId]
    {
      var room := Opened(rooms, db, roomId);
      c := nextConn;
      nextConn := nextConn + 1;
      RegistryJoin(rooms, conns, roomId, room, c, nickname);
      rooms := rooms[roomId := room.(clients := room.clients[c := nickname])];
      conns := conns[c := roomId];
    }

    /** The connect path of `HandleWebSocket` on room `roomId`, where
        `nickName` is the connection's `nickName` local, `None` when it is
        absent or not a string. An empty id closes the connection at once.
        A missing nickname makes the unchecked type assertion panic before
        anything is registered. Otherwise the connection joins the room, the
        room's state is sent back and its participants are published. */
    method Connect(roomId: string, nickName: Option<string>)
      returns (conn: Option<nat>, initial: Option<WhiteboardState>, participants: seq<string>)
      requires Valid()
      modifies this`rooms, this`conns, this`nextConn, this`published
      ensures Valid()
      ensures roomId == "" || nickName.None? ==>
        conn.None? && initial.None? && rooms == old(rooms) && conns == old(conns) && published == old(published)
      ensures roomId != "" && nickName.Some? ==>
        var room := Opened(old(rooms), db, roomId);
        && conn.Some? && conn.value !in old(conns)
        && rooms == old(rooms)[roomId := room.(clients := room.clients[conn.value := nickName.value])]
        && conns == old(conns)[conn.value := roomId]
        && initial == Some(room.state)
        && MapValues.Lists(participants, rooms[roomId].clients)
        && published == old(published) + [Participants(roomId, participants)]
    {
      if roomId == "" || nickName.None? {
        return None, None, [];
      }
      ghost var room := Opened(rooms, db, roomId);
      var c := Register(roomId, nickName.value);
      conn, initial := Some(c), Some(rooms[roomId].state);
      participants := BroadcastParticipants(roomId);
    }

    /** One message read by the connection's loop: normalised and published
        on `whiteboard:updates`. The room itself is changed only when the
        message comes back from Redis. */
    method Inbound(conn: nat, message: WhiteboardState)
      requires Valid() && conn in conns
      modifies this`published
      ensures published == old(published) + [Update(Normalize(message, conns[conn]))]
    {
      published := published + [Update(Normalize(message, conns[conn]))];
    }

    /** `subscribeToRedis` for one payload at time `now`. A payload that is
        not an object, lacks a string `type` or `roomId`, or names an unknown
        room is skipped. Otherwise a `scene-update` becomes the room's state
        and schedules a save, any other type leaves the room alone, and the
        payload goes to every client of the room. */
    method OnPubSub(payload: Option<Message>, now: int) returns (recipients: set<nat>, due: Option<int>)
      requires Valid()
      modifies this`rooms
      ensures Valid()
      ensures var a := Accepted(payload);
        if a.None? || a.value.roomId !in old(rooms) then
          recipients == {} && due.None? && rooms == old(rooms)
        else
          var id := a.value.roomId;
          && recipients == old(rooms)[id].clients.Keys
          && (a.value.msgType == "scene-update" ==>
                id in rooms && (rooms[id], due) == Schedule(old(rooms)[id].(state := a.value), now)
                && rooms == old(rooms)[id := rooms[id]])
          && (a.value.msgType != "scene-update" ==> due.None? && rooms == old(rooms))
    {
      recipients, due := {}, None;
      var a := Accepted(payload);
      if a.None? || a.value.roomId !in rooms {
        return;
      }
      var id := a.value.roomId;
      if a.value.msgType == "scene-update" {
        RegistryKeep(rooms, conns, id, rooms[id].(state := a.value));
        rooms := rooms[id := rooms[id].(state := a.value)];
        due := ScheduleRoomSave(id, now);
      }
      recipients := rooms[id].clients.Keys;
    }

    /** `scheduleRoomSave(roomId)` at time `now`; nothing for an unknown
        room. */
    method ScheduleRoomSave(roomId: string, now: int) returns (due: Option<int>)
      requires Valid()
      modifies this`rooms
      ensures Valid()
      ensures roomId in old(rooms) ==>
        roomId in rooms && (rooms[roomId], due) == Schedule(old(rooms)[roomId], now) && rooms == old(rooms)[roomId := rooms[roomId]]
      ensures roomId !in old(rooms) ==> due.None? && rooms == old(rooms)
    {
      due := None;
      if roomId in rooms {
        var room := rooms[roomId];
        room := room.(lastModified := now);
        if !room.saveScheduled {
          room := room.(saveScheduled := true);
          due := Some(now + DebounceMs);
        }
        RegistryKeep(rooms, conns, roomId, room);
        rooms := rooms[roomId := room];
      }
    }

    /** The save timer of room `roomId` fires: `saveRoomState`. */
    method SaveTimerFired(roomId: string)
      requires Valid()
      modifies this`rooms, this`db
      ensures Valid()
      ensures roomId in old(rooms) ==>
        var (room, save) := Fire(old(rooms)[roomId]);
        && rooms == old(rooms)[roomId := room]
        && db == (if save.Some? then old(db)[room.spaceId := save.value] else old(db))
      ensures roomId !in old(rooms) ==> rooms == old(rooms) && db == old(db)
    {
      if roomId !in rooms {
        return;
      }
      var room := rooms[roomId];
      if room.spaceId == 0 {
        RegistryKeep(rooms, conns, roomId, room.(saveScheduled := false));
        rooms := rooms[roomId := room.(saveScheduled := false)];
        return;
      }
      RegistryKeep(rooms, conns, roomId, room.(saveScheduled := false));
      rooms := rooms[roomId := room.(saveScheduled := false)];
      db := db[room.spaceId := Stored(room.state.elements, room.state.appState)];
    }

    /** The locked part of the clean-up: connection `conn` leaves its room,
        which goes when it empties. */
    method Leave(conn: nat)
      requires Valid() && conn in conns
      modifies this`rooms, this`conns
      ensures Valid()
      ensures conns == old(conns) - {conn}
      ensures rooms == LeaveRoom(old(rooms), old(conns)[conn], conn)
    {
      RegistryLeave(rooms, conns, conn);
      rooms := LeaveRoom(rooms, conns[conn], conn);
      conns := conns - {conn};
    }

    /** The deferred clean-up of connection `conn`: it leaves its room. The
        last client out saves the scene (only under a non-zero space id) and
        deletes the room; otherwise the remaining participants are
        published. */
    method Disconnect(conn: nat) returns (participants: seq<string>)
      requires Valid() && conn in conns
      modifies this`rooms, this`conns, this`db, this`published
      ensures Valid()
      ensures conns == old(conns) - {conn}
      ensures rooms == LeaveRoom(old(rooms), old(conns)[conn], conn)
      ensures db == if old(conns)[conn] in rooms then old(db) else SaveOnClose(old(db), old(rooms)[old(conns)[conn]])
      ensures old(conns)[conn] !in rooms ==> published == old(published) && participants == []
      ensures old(conns)[conn] in rooms ==>
        && MapValues.Lists(participants, rooms[old(conns)[conn]].clients)
        && published == old(published) + [Participants(old(conns)[conn], participants)]
    {
      var id := conns[conn];
      var room := rooms[id];
      assert room == old(rooms)[old(conns)[conn]];
      Leave(conn);
      ghost var shape := (rooms, conns, nextConn);
      assert Valid();
      participants := [];
      var closed := id !in rooms;
      if closed {
        db := SaveOnClose(db, room);
        assert (rooms, conns, nextConn) == shape;
        assert db == SaveOnClose(old(db), old(rooms)[old(conns)[conn]]);
      } else {
        participants := BroadcastParticipants(id);
        assert db == old(db);
        assert (rooms, conns, nextConn) == shape;
      }
    }
  }

  /** With a numeric room id, the last client out saves the scene and the
      next first client gets it back. */
  method LastLeaveThenRejoinRestores(server: Server, conn: nat, nickname: string)
    returns (initial: Option<WhiteboardState>)
    requires server.Valid() && conn in server.conns
    requires var id := server.conns[conn]; server.rooms[id].clients.Keys == {conn} && SpaceIdOf(id) != 0
    modifies server
    ensures var room := old(server.rooms)[old(server.conns)[conn]];
      initial.Some? && initial.value.elements == room.state.elements && initial.value.appState == room.state.appState
  {
    var id := server.conns[conn];
    ghost var room := server.rooms[id];
    assert room.clients - {conn} == map[];
    var _ := server.Disconnect(conn);
    var _, restored, _ := server.Connect(id, Some(nickname));
    initial := restored;
  }
}
