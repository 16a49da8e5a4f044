/** The space server of src/redis/pubsub.go: per space, the connected
    players and a capped chat log, kept by the WebSocket handlers and by the
    Redis subscriber. Each locked region is one atomic method. The `*Player`
    structs shared between the `spaces` maps and the connection handlers are
    modelled as a table from connection to struct, so the map entries hold
    connections and an overwritten entry leaves its struct orphaned as in
    the source. Redis publications are appended to a log; writes to client
    sockets are returned as recipient sets. */
module SpaceServer {
  import opened Wrappers
  import Decimal
  import MapValues
  import Presence

  type Position = Presence.Position

  /** The default spawn point. */
  const SpawnX := 850
  const SpawnY := 1040
  /** The length the chat log of a space is cut to. */
  const ChatCap := 50

  /** `Player` without its connection. */
  datatype Player = Player(id: string, name: string, spaceId: string, nickname: string, position: Position, status: string)

  datatype ChatMessage = ChatMessage(time: int, content: string, author: string)

  /** The user record the join reads from the database; a missing record
      reads as the zero value. */
  datatype User = User(name: string, nickname: string, status: string)

  /** The `userId` local of a connection. The auth middleware stores the
      token's `id` claim as the JWT library decodes it: a float64. */
  datatype Local = Float64(f: real) | Uint(u: nat) | Missing

  /** What the auth middleware stores for a token whose `id` claim is `n`. */
  function MiddlewareLocal(n: nat): Local {
    Float64(n as real)
  }

  /** `c.Locals("userId").(uint)` as written: the comma-ok assertion holds
      only when the local holds a `uint`. */
  function UserIdAsWritten(v: Local): (r: Option<nat>)
    ensures r.Some? <==> v.Uint?
    ensures r.Some? ==> r.value == v.u
  {
    if v.Uint? then Some(v.u) else None
  }

  /** As written, no id the middleware stores is ever read back. */
  lemma AsWrittenNeverReadsMiddlewareId(n: nat)
    ensures UserIdAsWritten(MiddlewareLocal(n)) == None
  {
  }

  /** The intended read: a float64 claim converted as the middleware's own
      `uint(id)` does (truncating a non-negative value), a `uint` as it is. */
  function UserIdIntended(v: Local): (r: Option<nat>)
    ensures v.Uint? ==> r == Some(v.u)
    ensures v.Float64? && v.f >= 0.0 ==> r.Some? && r.value as real <= v.f < r.value as real + 1.0
    ensures v.Missing? || (v.Float64? && v.f < 0.0) ==> r == None
  {
    match v
    case Uint(u) => Some(u)
    case Float64(f) => if f >= 0.0 then Some(f.Floor as nat) else None
    case Missing => None
  }

  /** The intended read gives back every id the middleware stores. */
  lemma IntendedReadsMiddlewareId(n: nat)
    ensures UserIdIntended(MiddlewareLocal(n)) == Some(n)
  {
    assert (n as real).Floor == n;
  }

  /** A JSON value inside a decoded `content` object, told apart only by
      whether it is a string. */
  datatype JsonValue = JString(s: string) | NotString

  /** `message.Content`: an object, or `None` when it is anything else. */
  type Content = Option<map<string, JsonValue>>

  /** The string under `key`, if `content` is an object holding one. */
  function StringField(content: Content, key: string): (r: Option<string>)
    ensures r.Some? <==> content.Some? && key in content.value && content.value[key].JString?
  {
    if content.Some? && key in content.value && content.value[key].JString? then Some(content.value[key].s) else None
  }

  /** A message read from a Redis channel. */
  datatype RedisMessage = RedisMessage(msgType: string, content: Content)

  /** What the server publishes to Redis, by kind. */
  datatype Publication =
    | PlayerJoined(player: Player)
    | PositionUpdate(player: Player)
    | ChatPosted(spaceId: string, content: string, author: string)
    | PlayerLeft(playerId: string, playerName: string, spaceId: string, playerNickname: string)

  function Channel(p: Publication): string {
    match p
    case PlayerJoined(_) => "game:events"
    case PositionUpdate(_) => "game:positions"
    case ChatPosted(_, _, _) => "game:chat"
    case PlayerLeft(_, _, _, _) => "game:events"
  }

  function Min(a: int, b: int): int { if a <= b then a else b }

  /** Append a chat message and keep only the newest 50. */
  function AppendCapped(log: seq<ChatMessage>, m: ChatMessage): (r: seq<ChatMessage>)
    ensures |r| == Min(|log| + 1, ChatCap)
    ensures r[|r| - 1] == m
    ensures r == (log + [m])[|log| + 1 - |r|..]
    ensures |log| < ChatCap ==> r == log + [m]
  {
    var messages := log + [m];
    if |messages| > ChatCap then messages[|messages| - ChatCap..] else messages
  }

  /** The log after posting `ms` in order to an empty one. */
  function PostAll(ms: seq<ChatMessage>): seq<ChatMessage>
    decreases |ms|
  {
    if ms == [] then [] else AppendCapped(PostAll(ms[..|ms| - 1]), ms[|ms| - 1])
  }

  /** The log holds exactly the newest (at most) 50 messages posted, oldest
      first: the oldest are dropped first. */
  lemma {:induction false} PostAllKeepsNewest(ms: seq<ChatMessage>)
    ensures PostAll(ms) == ms[|ms| - Min(|ms|, ChatCap)..]
    decreases |ms|
  {
    if ms != [] {
      var n := |ms|;
      var init, last := ms[..n - 1], ms[n - 1];
      assert PostAll(ms) == AppendCapped(PostAll(init), last);
      PostAllKeepsNewest(init);
      var k := n - 1 - Min(n - 1, ChatCap);
      SnocSlice(ms, k);
      CapWindow(PostAll(init), last, ms, k);
    }
  }

  /** Appending to the window of the newest messages before `last` gives the
      window of the newest messages up to `last`. */
  lemma CapWindow(window: seq<ChatMessage>, last: ChatMessage, ms: seq<ChatMessage>, k: nat)
    requires k <= |ms| && window + [last] == ms[k..] && |window| == Min(|ms| - 1, ChatCap)
    ensures AppendCapped(window, last) == ms[|ms| - Min(|ms|, ChatCap)..]
  {
    if |window| == ChatCap {
      assert ms[k..][1..] == ms[k + 1..];
    }
  }

  /** A slice that reaches the end is the slice of all but the last element,
      then the last element. */
  lemma SnocSlice<T>(s: seq<T>, k: nat)
    requires k < |s|
    ensures s[k..] == s[..|s| - 1][k..] + [s[|s| - 1]]
  {
  }

  /** A client frame after decoding. An absent `position` or `content` is
      `None` and decodes to the zero value. */
  datatype ClientFrame =
    | NonText
    | Unparseable
    | Text(msgType: string, position: Option<Position>, content: Option<string>)

  /** Whether a chat message from Redis holds the strings the handler asserts:
      with a string `space_id`, `content` and `author` must be strings too
      (a failed assertion panics). */
  predicate ChatWellTyped(content: Content) {
    StringField(content, "space_id").Some? ==>
      StringField(content, "content").Some? && StringField(content, "author").Some?
  }

  /** Every space has a player, and every entry points to a live `*Player`
      filed under its own id and space. */
  ghost predicate Linked(spaces: map<string, map<string, nat>>, players: map<nat, Player>) {
    && (forall s :: s in spaces ==> spaces[s] != map[])
    && (forall s, id :: s in spaces && id in spaces[s] ==>
          spaces[s][id] in players && players[spaces[s][id]].id == id && players[spaces[s][id]].spaceId == s)
  }

  /** Every chat log is within the cap. */
  ghost predicate Capped(chats: map<string, seq<ChatMessage>>) {
    forall s :: s in chats ==> |chats[s]| <= ChatCap
  }

  /** Moving a connection's player, or setting its status, keeps the links. */
  lemma LinkedUpdate(spaces: map<string, map<string, nat>>, players: map<nat, Player>, c: nat, p: Player)
    requires Linked(spaces, players) && c in players
    requires p.id == players[c].id && p.spaceId == players[c].spaceId
    ensures Linked(spaces, players[c := p])
  {
  }

  /** The registry after the entry under `id` in space `space` is deleted:
      the space goes when that leaves it empty, and only it changes. */
  function Leave(spaces: map<string, map<string, nat>>, space: string, id: string): (r: map<string, map<string, nat>>)
    ensures r.Keys <= spaces.Keys
    ensures forall s :: s in spaces && s != space ==> s in r && r[s] == spaces[s]
    ensures space in r <==> space in spaces && spaces[space] - {id} != map[]
    ensures space in r ==> r[space] == spaces[space] - {id} && id !in r[space]
  {
    if space in spaces then
      var remaining := spaces[space] - {id};
      if remaining == map[] then spaces - {space} else spaces[space := remaining]
    else spaces
  }

  /** Dropping a connection together with the entry filed under its player's
      id and space keeps the links. */
  lemma LinkedRemove(spaces: map<string, map<string, nat>>, players: map<nat, Player>, c: nat)
    requires Linked(spaces, players) && c in players
    ensures Linked(Leave(spaces, players[c].spaceId, players[c].id), players - {c})
  {
  }

  /** Registering a new connection under its player's id and space keeps the
      links; the struct the entry pointed to before stays behind. */
  lemma LinkedJoin(spaces: map<string, map<string, nat>>, players: map<nat, Player>,
                   s: string, id: string, c: nat, p: Player)
    requires Linked(spaces, players) && c !in players && p.id == id && p.spaceId == s
    ensures Linked(spaces[s := (if s in spaces then spaces[s] else map[])[id := c]], players[c := p])
  {
    var members := if s in spaces then spaces[s] else map[];
    assert id in members[id := c];
  }

  lemma CappedUpdate(chats: map<string, seq<ChatMessage>>, s: string, log: seq<ChatMessage>)
    requires Capped(chats) && |log| <= ChatCap
    ensures Capped(chats[s := log])
  {
  }

  /** The status loop after visiting every space not in `todo`: `hit` holds
      the connections whose `*Player` got the status. */
  ghost predicate StatusProgress(spaces: map<string, map<string, nat>>, before: map<nat, Player>, players: map<nat, Player>,
                                 hit: set<nat>, delivered: map<string, set<string>>, todo: set<string>,
                                 user: string, status: string) {
    && Linked(spaces, players)
    && StatusDelivered(spaces, delivered, todo, user)
    && StatusReached(spaces, hit, todo, user)
    && StatusChanged(before, players, hit, user, status)
  }

  /** The spaces visited so far that hold the user, each with its players. */
  ghost predicate StatusDelivered(spaces: map<string, map<string, nat>>, delivered: map<string, set<string>>,
                                  todo: set<string>, user: string) {
    && (forall s :: s in delivered <==> s in spaces && s !in todo && user in spaces[s])
    && (forall s :: s in delivered ==> delivered[s] == spaces[s].Keys)
  }

  /** Every visited space's entry for the user was reached. */
  ghost predicate StatusReached(spaces: map<string, map<string, nat>>, hit: set<nat>, todo: set<string>, user: string) {
    forall s :: s in spaces && s !in todo && user in spaces[s] ==> spaces[s][user] in hit
  }

  /** Exactly the reached players have the new status. */
  ghost predicate StatusChanged(before: map<nat, Player>, players: map<nat, Player>, hit: set<nat>,
                                user: string, status: string) {
    && players.Keys == before.Keys
    && (forall c :: c in hit ==> c in before && before[c].id == user && players[c] == before[c].(status := status))
    && (forall c :: c in players && c !in hit ==> players[c] == before[c])
  }

  /** One space of the status loop, holding the user. */
  lemma StatusStep(spaces: map<string, map<string, nat>>, before: map<nat, Player>, players: map<nat, Player>,
                   hit: set<nat>, delivered: map<string, set<string>>, todo: set<string>,
                   user: string, status: string, s: string)
    requires StatusProgress(spaces, before, players, hit, delivered, todo, user, status)
    requires s in todo && todo <= spaces.Keys && user in spaces[s]
    ensures spaces[s][user] in players
    ensures var c := spaces[s][user];
      StatusProgress(spaces, before, players[c := players[c].(status := status)], hit + {c},
                     delivered[s := spaces[s].Keys], todo - {s}, user, status)
  {
    var c := spaces[s][user];
    LinkedUpdate(spaces, players, c, players[c].(status := status));
    DeliveredStep(spaces, delivered, todo, user, s);
    ReachedStep(spaces, hit, todo, user, s);
    ChangedStep(before, players, hit, user, status, c);
  }

  lemma DeliveredStep(spaces: map<string, map<string, nat>>, delivered: map<string, set<string>>,
                      todo: set<string>, user: string, s: string)
    requires StatusDelivered(spaces, delivered, todo, user)
    requires s in todo && s in spaces && user in spaces[s]
    ensures StatusDelivered(spaces, delivered[s := spaces[s].Keys], todo - {s}, user)
  {
  }

  lemma ReachedStep(spaces: map<string, map<string, nat>>, hit: set<nat>, todo: set<string>, user: string, s: string)
    requires StatusReached(spaces, hit, todo, user)
    requires s in spaces && user in spaces[s]
    ensures StatusReached(spaces, hit + {spaces[s][user]}, todo - {s}, user)
  {
  }

  lemma ChangedStep(before: map<nat, Player>, players: map<nat, Player>, hit: set<nat>,
                    user: string, status: string, c: nat)
    requires StatusChanged(before, players, hit, user, status)
    requires c in players && players.Keys == before.Keys && players[c].id == user
    ensures StatusChanged(before, players[c := players[c].(status := status)], hit + {c}, user, status)
  {
  }

  /** One space of the status loop, not holding the user. */
  lemma StatusSkip(spaces: map<string, map<string, nat>>, before: map<nat, Player>, players: map<nat, Player>,
                   hit: set<nat>, delivered: map<string, set<string>>, todo: set<string>,
                   user: string, status: string, s: string)
    requires StatusProgress(spaces, before, players, hit, delivered, todo, user, status)
    requires s in todo && todo <= spaces.Keys && user !in spaces[s]
    ensures StatusProgress(spaces, before, players, hit, delivered, todo - {s}, user, status)
  {
  }

  /** What the finished status loop has done. */
  lemma StatusDone(spaces: map<string, map<string, nat>>, before: map<nat, Player>, players: map<nat, Player>,
                   hit: set<nat>, delivered: map<string, set<string>>, user: string, status: string)
    requires StatusProgress(spaces, before, players, hit, delivered, {}, user, status)
    ensures Linked(spaces, players) && players.Keys == before.Keys
    ensures forall s :: s in delivered <==> s in spaces && user in spaces[s]
    ensures forall s :: s in delivered ==> delivered[s] == spaces[s].Keys
    ensures forall s :: s in spaces && user in spaces[s] ==> players[spaces[s][user]].status == status
    ensures forall c :: c in players ==>
      players[c] == before[c] || (before[c].id == user && players[c] == before[c].(status := status))
  {
  }

  /** The loop of `handleStatusUpdate` over every space: wherever `user`
      has an entry, that entry's `*Player` gets the status and the space's
      players are told. */
  method SetStatusEverywhere(spaces: map<string, map<string, nat>>, players: map<nat, Player>,
                             user: string, status: string)
    returns (delivered: map<string, set<string>>, ps: map<nat, Player>)
    requires Linked(spaces, players)
    ensures Linked(spaces, ps) && ps.Keys == players.Keys
    ensures forall s :: s in delivered <==> s in spaces && user in spaces[s]
    ensures forall s :: s in delivered ==> delivered[s] == spaces[s].Keys
    ensures forall s :: s in spaces && user in spaces[s] ==> ps[spaces[s][user]].status == status
    ensures forall c :: c in ps ==>
      ps[c] == players[c] || (players[c].id == user && ps[c] == players[c].(status := status))
  {
    delivered, ps := map[], players;
    ghost var hit: set<nat> := {};
    var todo := spaces.Keys;
    while todo != {}
      invariant todo <= spaces.Keys
      invariant StatusProgress(spaces, players, ps, hit, delivered, todo, user, status)
      decreases |todo|
    {
      var s :| s in todo;
      if user in spaces[s] {
        StatusStep(spaces, players, ps, hit, delivered, todo, user, status, s);
        var c := spaces[s][user];
        ps := ps[c := ps[c].(status := status)];
        hit := hit + {c};
        delivered := delivered[s := spaces[s].Keys];
      } else {
        StatusSkip(spaces, players, ps, hit, delivered, todo, user, status, s);
      }
      todo := todo - {s};
    }
    StatusDone(spaces, players, ps, hit, delivered, user, status);
  }

  /** The players of space `s`, by id, as the `spaces` map shows them. */
  function Roster(spaces: map<string, map<string, nat>>, players: map<nat, Player>, s: string): (r: map<string, Player>)
    requires Linked(spaces, players)
    ensures s in spaces ==> r.Keys == spaces[s].Keys
    ensures s !in spaces ==> r == map[]
    ensures forall id :: id in r ==> r[id].id == id && r[id].spaceId == s
  {
    if s in spaces then map id | id in spaces[s] :: players[spaces[s][id]] else map[]
  }

  /** The `existing_players` list for `id` joining a space whose players are
      `roster`, each filed under its own id: every player except one filed
      under `id`, each once. */
  method ExistingPlayers(roster: map<string, Player>, id: string) returns (existing: seq<Player>)
    requires forall k :: k in roster ==> roster[k].id == k
    ensures |existing| == |roster.Keys - {id}|
    ensures forall q :: q in existing ==> q.id != id && q.id in roster && roster[q.id] == q
    ensures forall k :: k in roster && k != id ==> roster[k] in existing
  {
    ghost var order: seq<string>;
    existing, order := MapValues.Values(roster - {id});
    ListedOthers(roster, id, existing);
  }

  /** A listing of the roster without `id` has every other player once. */
  lemma ListedOthers(roster: map<string, Player>, id: string, existing: seq<Player>)
    requires forall k :: k in roster ==> roster[k].id == k
    requires MapValues.Lists(existing, roster - {id})
    ensures |existing| == |roster.Keys - {id}|
    ensures forall q :: q in existing ==> q.id != id && q.id in roster && roster[q.id] == q
    ensures forall k :: k in roster && k != id ==> roster[k] in existing
  {
    var others := roster - {id};
    MapValues.ListsCovers(existing, others);
    assert others.Keys == roster.Keys - {id};
    ListedOthersSound(roster, id, existing);
    forall k | k in roster && k != id
      ensures roster[k] in existing
    {
      assert k in others && others[k] == roster[k];
    }
  }

  /** Each listed player is filed under its own id, which is not `id`. */
  lemma ListedOthersSound(roster: map<string, Player>, id: string, existing: seq<Player>)
    requires forall k :: k in roster ==> roster[k].id == k
    requires forall i :: 0 <= i < |existing| ==> exists k :: k in roster - {id} && (roster - {id})[k] == existing[i]
    ensures forall q :: q in existing ==> q.id != id && q.id in roster && roster[q.id] == q
  {
    forall q | q in existing
      ensures q.id != id && q.id in roster && roster[q.id] == q
    {
      var i :| 0 <= i < |existing| && existing[i] == q;
      var k :| k in roster - {id} && (roster - {id})[k] == existing[i];
    }
  }

  class Server {
    /** `spaces`: space id, then player id, to the connection whose
        `*Player` the entry points to. */
    var spaces: map<string, map<string, nat>>
    /** The `*Player` each connection handler holds. */
    var players: map<nat, Player>
    var spaceChats: map<string, seq<ChatMessage>>
    /** Everything published to Redis, in order. */
    var published: seq<Publication>
    /** A source of fresh connection names. */
    var nextConn: nat

    ghost predicate Valid()
      reads this
    {
      && Linked(spaces, players)
      && (forall c :: c in players ==> c < nextConn)
      && spaces.Keys <= spaceChats.Keys
      && Capped(spaceChats)
    }

    constructor ()
      ensures Valid()
      ensures spaces == map[] && players == map[] && spaceChats == map[] && published == []
    {
      spaces, players, spaceChats, published, nextConn := map[], map[], map[], [], 0;
    }

    /** The locked part of the join: file a new connection's player under
        its id in its space, creating the space with an empty chat log when
        it has no player map. */
    method Register(p: Player) returns (c: nat)
      requires Valid()
      modifies this`spaces, this`players, this`spaceChats, this`nextConn
      ensures Valid() && c !in old(players)
      ensures players == old(players)[c := p]
      ensures spaces == old(spaces)[p.spaceId := (if p.spaceId in old(spaces) then old(spaces)[p.spaceId] else map[])[p.id := c]]
      ensures spaceChats == (if p.spaceId in old(spaces) then old(spaceChats) else old(spaceChats)[p.spaceId := []])
    {
      c := nextConn;
      var members: map<string, nat> := map[];
      if p.spaceId in spaces {
        members := spaces[p.spaceId];
      } else {
        spaceChats := spaceChats[p.spaceId := []];
      }
      LinkedJoin(spaces, players, p.spaceId, p.id, c, p);
      spaces := spaces[p.spaceId := members[p.id := c]];
      players := players[c := p];
      nextConn := nextConn + 1;
    }

    /** The join section of `HandleWebSocket` for user `userId` (`None` when
        the connection carries no user id, which ends the handler) entering
        space `spaceId`. Returns the new connection, the chat history sent
        to the joiner (`None` when empty, so not sent) and the
        `existing_players` list. */
    method Join(userId: Option<nat>, user: Option<User>, spaceId: string)
      returns (conn: Option<nat>, history: Option<seq<ChatMessage>>, existing: seq<Player>)
      requires Valid()
      modifies this
      ensures Valid()
      ensures userId.None? ==>
        conn.None? && history.None? && existing == [] &&
        spaces == old(spaces) && players == old(players) && spaceChats == old(spaceChats) && published == old(published)
      ensures userId.Some? ==> conn.Some? && conn.value !in old(players)
      ensures userId.Some? ==>
        var id := Decimal.NatToString(userId.value);
        var u := user.GetOr(User("", "", ""));
        var p := Player(id, u.name, spaceId, u.nickname, Presence.Position(SpawnX, SpawnY), u.status);
        var roster := Roster(old(spaces), old(players), spaceId);
        && players == old(players)[conn.value := p]
        && spaces == old(spaces)[spaceId := (if spaceId in old(spaces) then old(spaces)[spaceId] else map[])[id := conn.value]]
        && spaceChats == (if spaceId in old(spaces) then old(spaceChats) else old(spaceChats)[spaceId := []])
        && history == (if spaceChats[spaceId] == [] then None else Some(spaceChats[spaceId]))
        && |existing| == |roster.Keys - {id}|
        && (forall q :: q in existing ==> q.id != id && q.spaceId == spaceId && q.id in roster && roster[q.id] == q)
        && (forall other :: other in roster && other != id ==> roster[other] in existing)
        && published == old(published) + [PlayerJoined(p)]
    {
      if userId.None? {
        return None, None, [];
      }
      var u := if user.Some? then user.value else User("", "", "");
      var id := Decimal.NatToString(userId.value);
      var p := Player(id, u.name, spaceId, u.nickname, Presence.Position(SpawnX, SpawnY), u.status);
      var roster := Roster(spaces, players, spaceId);
      existing := ExistingPlayers(roster, id);
      var c := Register(p);
      var chatHistory := spaceChats[spaceId];
      history := if |chatHistory| > 0 then Some(chatHistory) else None;
      published := published + [PlayerJoined(p)];
      conn := Some(c);
    }

    /** One frame read by `handlePlayerMessages` on connection `conn`. A
        `position_update` moves the connection's own `*Player` (which the
        space map no longer shows if a later join of the same user replaced
        the entry) and publishes it; a `chat_message` publishes the text
        under the player's nickname; anything else changes nothing. */
    method OnFrame(conn: nat, frame: ClientFrame)
      requires Valid() && conn in players
      modifies this`players, this`published
      ensures Valid()
      ensures frame.Text? && frame.msgType == "position_update" ==>
        var p := old(players)[conn].(position := frame.position.GetOr(Presence.Position(0, 0)));
        players == old(players)[conn := p] && published == old(published) + [PositionUpdate(p)]
      ensures frame.Text? && frame.msgType == "chat_message" ==>
        var p := old(players)[conn];
        players == old(players) &&
        published == old(published) + [ChatPosted(p.spaceId, frame.content.GetOr(""), p.nickname)]
      ensures !(frame.Text? && frame.msgType in {"position_update", "chat_message"}) ==>
        players == old(players) && published == old(published)
    {
      if frame.Text? {
        var p := players[conn];
        if frame.msgType == "position_update" {
          p := p.(position := if frame.position.Some? then frame.position.value else Presence.Position(0, 0));
          LinkedUpdate(spaces, players, conn, p);
          players := players[conn := p];
          published := published + [PositionUpdate(p)];
        } else if frame.msgType == "chat_message" {
          published := published + [ChatPosted(p.spaceId, if frame.content.Some? then frame.content.value else "", p.nickname)];
        }
      }
    }

    /** `handlePlayerDisconnect` for connection `conn`: the entry under the
        player's id is deleted (whichever connection it belongs to), the
        space goes when it empties, its chat log stays. */
    method Disconnect(conn: nat)
      requires Valid() && conn in players
      modifies this
      ensures Valid()
      ensures var p := old(players)[conn];
        && players == old(players) - {conn}
        && spaces == Leave(old(spaces), p.spaceId, p.id)
        && spaceChats == old(spaceChats)
        && published == old(published) + [PlayerLeft(p.id, p.name, p.spaceId, p.nickname)]
    {
      var p := players[conn];
      LinkedRemove(spaces, players, conn);
      if p.spaceId in spaces {
        var remaining := spaces[p.spaceId] - {p.id};
        if remaining == map[] {
          spaces := spaces - {p.spaceId};
        } else {
          spaces := spaces[p.spaceId := remaining];
        }
      }
      players := players - {conn};
      published := published + [PlayerLeft(p.id, p.name, p.spaceId, p.nickname)];
    }

    /** `handleStatusUpdate`: with a string `user_id` and a string `status`
        (any string: the value is not validated), every space holding that
        user gets the status on the user's `*Player` and a `status_update`
        addressed to all its players. */
    method StatusUpdate(content: Content) returns (delivered: map<string, set<string>>)
      requires Valid()
      modifies this`players
      ensures Valid()
      ensures players.Keys == old(players).Keys
      ensures StringField(content, "user_id").None? || StringField(content, "status").None? ==>
        delivered == map[] && players == old(players)
      ensures StringField(content, "user_id").Some? && StringField(content, "status").Some? ==>
        var user, status := StringField(content, "user_id").value, StringField(content, "status").value;
        && (forall s :: s in delivered <==> s in spaces && user in spaces[s])
        && (forall s :: s in delivered ==> delivered[s] == spaces[s].Keys)
        && (forall s :: s in spaces && user in spaces[s] ==> players[spaces[s][user]].status == status)
        && (forall c :: c in players ==>
              players[c] == old(players)[c] ||
              (old(players)[c].id == user && players[c] == old(players)[c].(status := status)))
    {
      delivered := map[];
      var userField := StringField(content, "user_id");
      var statusField := StringField(content, "status");
      if userField.None? || statusField.None? {
        return;
      }
      var user, status := userField.value, statusField.value;
      delivered, players := SetStatusEverywhere(spaces, players, user, status);
    }

    /** `handleChatMessage` for a message read from `game:chat` at time
        `now`: with a string `space_id` the message is logged (even when the
        space has no players) and sent to the space's players if the space
        exists. */
    method HandleChat(content: Content, now: int) returns (delivered: map<string, set<string>>)
      requires Valid() && ChatWellTyped(content)
      modifies this`spaceChats
      ensures Valid()
      ensures StringField(content, "space_id").None? ==> spaceChats == old(spaceChats) && delivered == map[]
      ensures StringField(content, "space_id").Some? ==>
        var s := StringField(content, "space_id").value;
        var m := ChatMessage(now, StringField(content, "content").value, StringField(content, "author").value);
        && spaceChats == old(spaceChats)[s := AppendCapped(if s in old(spaceChats) then old(spaceChats)[s] else [], m)]
        && delivered == (if s in spaces then map[s := spaces[s].Keys] else map[])
    {
      delivered := map[];
      var spaceField := StringField(content, "space_id");
      if spaceField.None? {
        return;
      }
      var s := spaceField.value;
      var m := ChatMessage(now, StringField(content, "content").value, StringField(content, "author").value);
      if s !in spaceChats {
        spaceChats := spaceChats[s := []];
      }
      CappedUpdate(spaceChats, s, AppendCapped(spaceChats[s], m));
      spaceChats := spaceChats[s := AppendCapped(spaceChats[s], m)];
      if s in spaces {
        delivered := map[s := spaces[s].Keys];
      }
    }

    /** `broadcastToSpacePlayers`: a message whose content names a string
        `space_id` goes to every player of that space; nothing changes. */
    method Broadcast(content: Content) returns (delivered: map<string, set<string>>)
      requires Valid()
      ensures StringField(content, "space_id").None? ==> delivered == map[]
      ensures StringField(content, "space_id").Some? ==>
        var s := StringField(content, "space_id").value;
        delivered == (if s in spaces then map[s := spaces[s].Keys] else map[])
    {
      delivered := map[];
      var spaceField := StringField(content, "space_id");
      if spaceField.Some? && spaceField.value in spaces {
        delivered := map[spaceField.value := spaces[spaceField.value].Keys];
      }
    }

    /** The subscriber's switch on the channel a message arrived on. */
    method Dispatch(channel: string, message: RedisMessage, now: int) returns (delivered: map<string, set<string>>)
      requires Valid()
      requires channel == "game:chat" ==> ChatWellTyped(message.content)
      modifies this`players, this`spaceChats
      ensures Valid()
      ensures channel != "user:status_updates" ==> players == old(players)
      ensures channel != "game:chat" ==> spaceChats == old(spaceChats)
    {
      if channel == "user:status_updates" {
        delivered := StatusUpdate(message.content);
      } else if channel == "game:chat" {
        delivered := HandleChat(message.content, now);
      } else {
        delivered := Broadcast(message.content);
      }
    }
  }

  /** As written, a join authenticated by the middleware takes the
      "unable to get userId" branch and changes nothing. */
  method AuthenticatedJoinAsWritten(server: Server, n: nat, user: Option<User>, spaceId: string)
    returns (conn: Option<nat>)
    requires server.Valid()
    modifies server
    ensures conn.None?
    ensures server.players == old(server.players) && server.spaces == old(server.spaces)
    ensures server.published == old(server.published)
  {
    AsWrittenNeverReadsMiddlewareId(n);
    var c, _, _ := server.Join(UserIdAsWritten(MiddlewareLocal(n)), user, spaceId);
    conn := c;
  }

  /** With the intended read, the same join registers the player under the
      token's id. */
  method AuthenticatedJoin(server: Server, n: nat, user: Option<User>, spaceId: string)
    returns (conn: Option<nat>)
    requires server.Valid()
    modifies server
    ensures conn.Some? && conn.value in server.players
    ensures server.players[conn.value].id == Decimal.NatToString(n)
    ensures server.published == old(server.published) + [PlayerJoined(server.players[conn.value])]
  {
    IntendedReadsMiddlewareId(n);
    var c, _, _ := server.Join(UserIdIntended(MiddlewareLocal(n)), user, spaceId);
    conn := c;
  }

  /** Rejoining a space after its last player left starts an empty chat log:
      the disconnect drops the space but keeps its log, and the join of a
      space with no player map resets the log. */
  method RejoinWipesHistory(server: Server, conn: nat, userId: nat, user: User)
    returns (history: Option<seq<ChatMessage>>)
    requires server.Valid() && conn in server.players
    requires var p := server.players[conn];
      p.spaceId in server.spaces && server.spaces[p.spaceId].Keys == {p.id}
    modifies server
    ensures history.None?
  {
    var space := server.players[conn].spaceId;
    server.Disconnect(conn);
    var c, h, e := server.Join(Some(userId), Some(user), space);
    history := h;
  }
}
