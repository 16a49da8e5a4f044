/** The stand-alone whiteboard handler of
    src/handlers/whiteboard/whiteboard_handler.go: a process-wide registry of
    rooms, each with its connected clients and its current scene, kept by
    the connection handlers without Redis or a database. Each locked region
    is one atomic method; connections are numbered, and every write to
    client sockets is returned as the set of connections written to. */
module WhiteboardHandler {
  import opened Wrappers
  import MapValues
  import WhiteboardServer

  type JsonValue = WhiteboardServer.JsonValue

  /** The handler's own `WhiteboardState`, which also carries the sender's
      username. The raw `elements` and `appState` are `None` when empty. */
  datatype WhiteboardState = WhiteboardState(
    msgType: string,
    elements: Option<JsonValue>,
    appState: Option<JsonValue>,
    roomId: string,
    username: string)

  /** `Room`: connection to username, and the scene. */
  datatype Room = Room(clients: map<nat, string>, state: WhiteboardState)

  /** The username a connection is known by: the `username` query
      parameter, or "anonymous" when it is missing or empty. */
  function UsernameOf(query: string): (name: string)
    ensures name != ""
    ensures query != "" ==> name == query
    ensures query == "" ==> name == "anonymous"
  {
    if query == "" then "anonymous" else query
  }

  /** A room made by a first connection: an empty scene and no clients. */
  const FreshRoom := Room(map[], WhiteboardState("scene-update", Some(WhiteboardServer.NonString("[]")), None, "", ""))

  /** The read loop's rewrite of a client message: an empty type becomes
      `scene-update`, and the room id and username are the connection's. */
  function Stamp(m: WhiteboardState, roomId: string, username: string): (r: WhiteboardState)
    ensures r.msgType != "" && r.roomId == roomId && r.username == username
    ensures m.msgType != "" ==> r.msgType == m.msgType
    ensures m.msgType == "" ==> r.msgType == "scene-update"
    ensures r.elements == m.elements && r.appState == m.appState
  {
    m.(msgType := if m.msgType == "" then "scene-update" else m.msgType, roomId := roomId, username := username)
  }

  /** The scene a room keeps after a stamped message: the message itself
      when it is a `scene-update`, the old scene otherwise. */
  function NextScene(state: WhiteboardState, message: WhiteboardState): (r: WhiteboardState)
    ensures message.msgType == "scene-update" ==> r == message
    ensures message.msgType != "scene-update" ==> r == state
  {
    if message.msgType == "scene-update" then message else state
  }

  /** The scene a room keeps after a run of stamped messages. */
  function SceneAfter(state: WhiteboardState, messages: seq<WhiteboardState>): WhiteboardState
    decreases |messages|
  {
    if messages == [] then state else SceneAfter(NextScene(state, messages[0]), messages[1..])
  }

  /** Messages of other types never touch the scene. */
  lemma {:induction false} SceneAfterOthers(state: WhiteboardState, messages: seq<WhiteboardState>)
    requires forall i :: 0 <= i < |messages| ==> messages[i].msgType != "scene-update"
    ensures SceneAfter(state, messages) == state
    decreases |messages|
  {
    if messages != [] {
      SceneAfterOthers(NextScene(state, messages[0]), messages[1..]);
    }
  }

  /** The room keeps the latest `scene-update` of a run, whatever other
      messages came after it. */
  lemma SceneAfterLatest(state: WhiteboardState, messages: seq<WhiteboardState>, k: nat)
    requires k < |messages| && messages[k].msgType == "scene-update"
    requires forall i :: k < i < |messages| ==> messages[i].msgType != "scene-update"
    ensures SceneAfter(state, messages) == messages[k]
  {
    SceneAfterSplit(state, messages[..k + 1], messages[k + 1..]);
    assert messages == messages[..k + 1] + messages[k + 1..];
    SceneAfterLast(state, messages[..k + 1]);
    SceneAfterOthers(SceneAfter(state, messages[..k + 1]), messages[k + 1..]);
  }

  /** Folding over two runs is folding over the first, then the second. */
  lemma {:induction false} SceneAfterSplit(state: WhiteboardState, a: seq<WhiteboardState>, b: seq<WhiteboardState>)
    ensures SceneAfter(state, a + b) == SceneAfter(SceneAfter(state, a), b)
    decreases |a|
  {
    if a != [] {
      assert (a + b)[0] == a[0] && (a + b)[1..] == a[1..] + b;
      SceneAfterSplit(NextScene(state, a[0]), a[1..], b);
    } else {
      assert a + b == b;
    }
  }

  /** A run ending in a `scene-update` leaves that scene. */
  lemma {:induction false} SceneAfterLast(state: WhiteboardState, messages: seq<WhiteboardState>)
    requires messages != [] && messages[|messages| - 1].msgType == "scene-update"
    ensures SceneAfter(state, messages) == messages[|messages| - 1]
    decreases |messages|
  {
    if |messages| > 1 {
      SceneAfterLast(NextScene(state, messages[0]), messages[1..]);
    }
  }

  /** Each connection is a client of the room it names. */
  ghost predicate ConnsInRooms(rooms: map<string, Room>, conns: map<nat, string>) {
    forall c :: c in conns ==> conns[c] in rooms && c in rooms[conns[c]].clients
  }

  /** Each client of a room is a connection naming that room. */
  ghost predicate ClientsAreConns(rooms: map<string, Room>, conns: map<nat, string>) {
    forall r, c :: r in rooms && c in rooms[r].clients ==> c in conns && conns[c] == r
  }

  /** No room is empty. */
  ghost predicate LiveRooms(rooms: map<string, Room>) {
    forall r :: r in rooms ==> rooms[r].clients != map[]
  }

  ghost predicate Registry(rooms: map<string, Room>, conns: map<nat, string>) {
    ConnsInRooms(rooms, conns) && ClientsAreConns(rooms, conns) && LiveRooms(rooms)
  }

  /** Adding connection `c` to room `r`, new or existing. */
  lemma RegistryJoin(rooms: map<string, Room>, conns: map<nat, string>, r: string, room: Room, c: nat, name: string)
    requires Registry(rooms, conns) && c !in conns
    requires r in rooms ==> room.clients == rooms[r].clients
    requires r !in rooms ==> room.clients == map[]
    ensures Registry(rooms[r := room.(clients := room.clients[c := name])], conns[c := r])
  {
    var joined := room.(clients := room.clients[c := name]);
    var rooms', conns' := rooms[r := joined], conns[c := r];
    forall d | d in conns' ensures conns'[d] in rooms' && d in rooms'[conns'[d]].clients {
      if d != c && conns[d] == r {
        assert d in rooms[r].clients;
      }
    }
    assert ConnsInRooms(rooms', conns');
    forall q, d | q in rooms' && d in rooms'[q].clients ensures d in conns' && conns'[d] == q {
      if q == r {
        if d != c {
          assert r in rooms && d in rooms[r].clients;
        }
      } else {
        assert d in rooms[q].clients;
      }
    }
    assert ClientsAreConns(rooms', conns');
    assert c in joined.clients;
    assert LiveRooms(rooms');
  }

  /** Replacing a room's scene. */
  lemma RegistryKeep(rooms: map<string, Room>, conns: map<nat, string>, r: string, room: Room)
    requires Registry(rooms, conns) && r in rooms && room.clients == rooms[r].clients
    ensures Registry(rooms[r := room], conns)
  {
    var rooms' := rooms[r := room];
    assert forall q :: q in rooms' ==> rooms'[q].clients == rooms[q].clients;
  }

  /** The rooms after connection `c` of room `r` leaves: the room goes when
      it empties, and no other room changes. */
  function LeaveRoom(rooms: map<string, Room>, r: string, c: nat): (res: map<string, Room>)
    requires r in rooms
    ensures forall q :: q in res <==> q in rooms && (q != r || rooms[r].clients - {c} != map[])
    ensures r in res ==> res[r] == rooms[r].(clients := rooms[r].clients - {c})
    ensures forall q :: q in rooms && q != r ==> res[q] == rooms[q]
  {
    var remaining := rooms[r].clients - {c};
    if remaining == map[] then rooms - {r} else rooms[r := rooms[r].(clients := remaining)]
  }

  lemma RegistryLeave(rooms: map<string, Room>, conns: map<nat, string>, c: nat)
    requires Registry(rooms, conns) && c in conns
    ensures Registry(LeaveRoom(rooms, conns[c], c), conns - {c})
  {
    var r := conns[c];
    var rooms', conns' := LeaveRoom(rooms, r, c), conns - {c};
    forall d | d in conns' ensures conns'[d] in rooms' && d in rooms'[conns'[d]].clients {
      var q := conns[d];
      assert d in rooms[q].clients;
      if q == r {
        assert d in rooms[r].clients - {c};
      }
    }
    assert ConnsInRooms(rooms', conns');
    forall q, d | q in rooms' && d in rooms'[q].clients ensures d in conns' && conns'[d] == q {
      assert d in rooms[q].clients;
    }
    assert ClientsAreConns(rooms', conns');
  }

  /** The package's `rooms` map and the connections its handlers serve. */
  class Rooms {
    var rooms: map<string, Room>
    /** The room id each connection handler was opened on. */
    var conns: map<nat, string>
    /** The username each connection handler stamps on its messages. */
    var usernames: map<nat, string>
    /** A source of fresh connection names. */
    var nextConn: nat

    ghost predicate Valid()
      reads this`rooms, this`conns, this`usernames, this`nextConn
    {
      && Registry(rooms, conns)
      && (forall c :: c in usernames <==> c in conns)
      && (forall c :: c in conns ==> c < nextConn)
    }

    constructor ()
      ensures Valid()
      ensures rooms == map[] && conns == map[]
    {
      rooms, conns, usernames, nextConn := map[], map[], map[], 0;
    }

    /** `broadcastParticipants`: the room's usernames, one per client, in
        the map's order, written to every client of the room; nothing for an
        unknown room. */
    method BroadcastParticipants(roomId: string) returns (participants: seq<string>, recipients: set<nat>)
      ensures roomId in rooms ==>
        MapValues.Lists(participants, rooms[roomId].clients) && recipients == rooms[roomId].clients.Keys
      ensures roomId !in rooms ==> participants == [] && recipients == {}
    {
      participants, recipients := [], {};
      if roomId in rooms {
        ghost var order: seq<nat>;
        participants, order := MapValues.Values(rooms[roomId].clients);
        recipients := rooms[roomId].clients.Keys;
      }
    }

    /** The locked part of the connect path for a non-empty room id: the
        room is created if missing, an existing one is reused as it is, and
        the new connection joins it under `username`. */
    method Register(roomId: string, username: string) returns (c: nat)
      requires Valid() && roomId != ""
      modifies this`rooms, this`conns, this`usernames, this`nextConn
      ensures Valid() && c !in old(conns)
      ensures var room := if roomId in old(rooms) then old(rooms)[roomId] else FreshRoom;
        rooms == old(rooms)[roomId := room.(clients := room.clients[c := username])]
      ensures conns == old(conns)[c := roomId] && usernames == old(usernames)[c := username]
    {
      var room := if roomId in rooms then rooms[roomId] else FreshRoom;
      c := nextConn;
      nextConn := nextConn + 1;
      RegistryJoin(rooms, conns, roomId, room, c, username);
      rooms := rooms[roomId := room.(clients := room.clients[c := username])];
      conns := conns[c := roomId];
      usernames := usernames[c := username];
    }

    /** The connect path of `WhiteboardWebSocketHandler` with URL room id
        `roomId` and `username` query parameter `query`: an empty id closes
        the connection at once. Otherwise the connection joins the room, the
        room's state is sent back and the participants are written to every
        client of the room. */
    method Connect(roomId: string, query: string)
      returns (conn: Option<nat>, initial: Option<WhiteboardState>, participants: seq<string>, recipients: set<nat>)
      requires Valid()
      modifies this`rooms, this`conns, this`usernames, this`nextConn
      ensures Valid()
      ensures roomId == "" ==>
        && conn.None? && initial.None? && recipients == {}
        && rooms == old(rooms) && conns == old(conns) && usernames == old(usernames)
      ensures roomId != "" ==>
        var room := if roomId in old(rooms) then old(rooms)[roomId] else FreshRoom;
        && conn.Some? && conn.value !in old(conns)
        && rooms == old(rooms)[roomId := room.(clients := room.clients[conn.value := UsernameOf(query)])]
        && conns == old(conns)[conn.value := roomId]
        && usernames == old(usernames)[conn.value := UsernameOf(query)]
        && initial == Some(room.state)
        && MapValues.Lists(participants, rooms[roomId].clients)
        && recipients == rooms[roomId].clients.Keys
    {
      if roomId == "" {
        return None, None, [], {};
      }
      var username := UsernameOf(query);
      var c := Register(roomId, username);
      conn, initial := Some(c), Some(rooms[roomId].state);
      participants, recipients := BroadcastParticipants(roomId);
    }

    /** One message read by connection `conn`'s loop: stamped, kept as the
        room's scene when it is a `scene-update`, and written to every client
        of the room, the sender included. */
    method Inbound(conn: nat, message: WhiteboardState) returns (sent: WhiteboardState, recipients: set<nat>)
      requires Valid() && conn in conns
      modifies this`rooms
      ensures Valid()
      ensures var id := conns[conn];
        && sent == Stamp(message, id, usernames[conn])
        && rooms == old(rooms)[id := old(rooms)[id].(state := NextScene(old(rooms)[id].state, sent))]
        && recipients == rooms[id].clients.Keys
    {
      var id := conns[conn];
      sent := Stamp(message, id, usernames[conn]);
      var room := rooms[id].(state := NextScene(rooms[id].state, sent));
      RegistryKeep(rooms, conns, id, room);
      rooms := rooms[id := room];
      recipients := rooms[id].clients.Keys;
    }

    /** The locked part of the clean-up: connection `conn` leaves its room,
        which goes when it empties. */
    method Leave(conn: nat)
      requires Valid() && conn in conns
      modifies this`rooms, this`conns, this`usernames
      ensures Valid()
      ensures conns == old(conns) - {conn} && usernames == old(usernames) - {conn}
      ensures rooms == LeaveRoom(old(rooms), old(conns)[conn], conn)
    {
      RegistryLeave(rooms, conns, conn);
      rooms := LeaveRoom(rooms, conns[conn], conn);
      conns := conns - {conn};
      usernames := usernames - {conn};
    }

    /** The deferred clean-up of connection `conn`: it leaves its room; an
        emptied room is deleted, otherwise the remaining participants are
        written to the remaining clients. */
    method Disconnect(conn: nat) returns (participants: seq<string>, recipients: set<nat>)
      requires Valid() && conn in conns
      modifies this`rooms, this`conns, this`usernames
      ensures Valid()
      ensures conns == old(conns) - {conn} && usernames == old(usernames) - {conn}
      ensures rooms == LeaveRoom(old(rooms), old(conns)[conn], conn)
      ensures old(conns)[conn] !in rooms ==> participants == [] && recipients == {}
      ensures old(conns)[conn] in rooms ==>
        && MapValues.Lists(participants, rooms[old(conns)[conn]].clients)
        && recipients == rooms[old(conns)[conn]].clients.Keys
        && conn !in recipients
    {
      var id := conns[conn];
      Leave(conn);
      participants, recipients := [], {};
      if id in rooms {
        participants, recipients := BroadcastParticipants(id);
      }
    }
  }

  /** A connection's messages carry the username of its own `username`
      query parameter (or "anonymous"), whatever else joins or leaves. */
  method ConnectThenInboundStampsUsername(rooms: Rooms, roomId: string, query: string, message: WhiteboardState)
    returns (sent: WhiteboardState)
    requires rooms.Valid() && roomId != ""
    modifies rooms
    ensures sent.username == UsernameOf(query) && sent.roomId == roomId
  {
    var conn, initial, participants, told := rooms.Connect(roomId, query);
    var recipients;
    sent, recipients := rooms.Inbound(conn.value, message);
  }
}
