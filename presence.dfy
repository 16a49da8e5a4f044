/** The client's presence store (web/src/hooks/useWebSocket.ts): a record
    from player id to `{id, name, position}` that every decoded server
    envelope is folded into. */
module Presence {
  import opened Wrappers

  /** An integer pixel position. */
  datatype Position = Position(x: int, y: int)

  /** The client's record of one player. */
  datatype Player = Player(id: string, name: string, position: Position)

  /** A decoded server envelope, by its `type` tag. Every tag the switch does
      not name (the server also sends `status_update`, `chat_message` and
      `chat_history`) is `Unrecognised`. */
  datatype ServerEvent =
    | PlayerJoined(playerId: string, playerName: string, position: Position)
    | PositionUpdate(playerId: string, position: Position)
    | PlayerLeft(playerId: string)
    | ExistingPlayers(players: seq<Player>)
    | Unrecognised(tag: string)

  type Store = map<string, Player>

  /** The store's invariant: every entry is filed under its own id. */
  ghost predicate KeysMatchIds(s: Store) {
    forall k :: k in s ==> s[k].id == k
  }

  /** `players[i]` is the last player in the list with its id. */
  ghost predicate LastWithId(players: seq<Player>, i: nat)
    requires i < |players|
  {
    forall j :: i < j < |players| ==> players[j].id != players[i].id
  }

  ghost function IdsOf(players: seq<Player>): set<string> {
    set i | 0 <= i < |players| :: players[i].id
  }

  lemma IdsOfSnoc(players: seq<Player>)
    requires players != []
    ensures IdsOf(players) == IdsOf(players[..|players| - 1]) + {players[|players| - 1].id}
  {
    var init := players[..|players| - 1];
    forall k | k in IdsOf(players) ensures k in IdsOf(init) + {players[|players| - 1].id} {
      var i :| 0 <= i < |players| && players[i].id == k;
      if i < |init| { assert init[i] == players[i]; }
    }
    forall k | k in IdsOf(init) ensures k in IdsOf(players) {
      var i :| 0 <= i < |init| && init[i].id == k;
      assert players[i] == init[i];
    }
  }

  lemma LastWithIdInit(players: seq<Player>)
    requires players != []
    ensures forall i :: 0 <= i < |players| - 1 && LastWithId(players, i) ==>
      LastWithId(players[..|players| - 1], i) && players[i].id != players[|players| - 1].id
  {
    var init := players[..|players| - 1];
    forall i | 0 <= i < |init| && LastWithId(players, i) ensures LastWithId(init, i) {
      forall j | i < j < |init| ensures init[j].id != init[i].id {
        assert init[j] == players[j] && init[i] == players[i];
      }
    }
  }

  /** The record the `existing_players` loop builds: one entry per listed
      player keyed by its id, a later duplicate overwriting an earlier one. */
  function Collect(players: seq<Player>): (m: Store)
    ensures KeysMatchIds(m)
    ensures m.Keys == IdsOf(players)
    ensures forall i :: 0 <= i < |players| && LastWithId(players, i) ==> m[players[i].id] == players[i]
  {
    if players == [] then map[]
    else
      var init := players[..|players| - 1];
      var p := players[|players| - 1];
      IdsOfSnoc(players);
      LastWithIdInit(players);
      Collect(init)[p.id := p]
  }

  /** The `forEach` loop of the `existing_players` case. */
  method CollectExisting(players: seq<Player>) returns (m: Store)
    ensures m == Collect(players)
  {
    m := map[];
    var i := 0;
    while i < |players|
      invariant 0 <= i <= |players|
      invariant m == Collect(players[..i])
    {
      assert players[..i + 1][..i] == players[..i];
      m := m[players[i].id := players[i]];
      i := i + 1;
    }
    assert players[..i] == players;
  }

  /** The store after one envelope. */
  function Apply(s: Store, ev: ServerEvent): (r: Store)
    // player_joined inserts or overwrites exactly the joiner's entry
    ensures ev.PlayerJoined? ==>
      && r.Keys == s.Keys + {ev.playerId}
      && r[ev.playerId] == Player(ev.playerId, ev.playerName, ev.position)
      && forall k :: k in s && k != ev.playerId ==> r[k] == s[k]
    // position_update for a known id moves only that player
    ensures ev.PositionUpdate? && ev.playerId in s ==>
      && r.Keys == s.Keys
      && r[ev.playerId].position == ev.position
      && r[ev.playerId].id == s[ev.playerId].id
      && r[ev.playerId].name == s[ev.playerId].name
      && forall k :: k in s && k != ev.playerId ==> r[k] == s[k]
    // position_update for an unknown id creates nothing and changes nothing
    ensures ev.PositionUpdate? && ev.playerId !in s ==> r == s
    // player_left removes that id and nothing else
    ensures ev.PlayerLeft? ==>
      && r.Keys == s.Keys - {ev.playerId}
      && forall k :: k in r ==> r[k] == s[k]
    // existing_players replaces the whole store
    ensures ev.ExistingPlayers? ==> r.Keys == IdsOf(ev.players) && KeysMatchIds(r)
    ensures ev.ExistingPlayers? ==>
      forall i :: 0 <= i < |ev.players| && LastWithId(ev.players, i) ==> r[ev.players[i].id] == ev.players[i]
    // any other tag is ignored
    ensures ev.Unrecognised? ==> r == s
  {
    match ev
    case PlayerJoined(id, name, pos) => s[id := Player(id, name, pos)]
    case PositionUpdate(id, pos) => if id in s then s[id := s[id].(position := pos)] else s
    case PlayerLeft(id) => s - {id}
    case ExistingPlayers(ps) => Collect(ps)
    case Unrecognised(_) => s
  }

  /** Every envelope keeps every entry filed under its own id. */
  lemma ApplyKeepsKeysMatchIds(s: Store, ev: ServerEvent)
    requires KeysMatchIds(s)
    ensures KeysMatchIds(Apply(s, ev))
  {
  }

  /** Applying the same envelope twice gives the store applying it once gives;
      in particular for `position_update`. */
  lemma ApplyIdempotent(s: Store, ev: ServerEvent)
    ensures Apply(Apply(s, ev), ev) == Apply(s, ev)
  {
    var once := Apply(s, ev);
    match ev
    case PositionUpdate(id, pos) =>
      if id in s {
        assert once[id].position == pos;
        assert once[id := once[id].(position := pos)] == once;
      }
    case _ =>
  }

  /** The store after a sequence of envelopes, in arrival order. */
  function ApplyAll(s: Store, evs: seq<ServerEvent>): Store
    decreases |evs|
  {
    if evs == [] then s else ApplyAll(Apply(s, evs[0]), evs[1..])
  }

  /** The invariant holds after any sequence of envelopes. */
  lemma {:induction false} ApplyAllKeepsKeysMatchIds(s: Store, evs: seq<ServerEvent>)
    requires KeysMatchIds(s)
    ensures KeysMatchIds(ApplyAll(s, evs))
    decreases |evs|
  {
    if evs != [] {
      ApplyKeepsKeysMatchIds(s, evs[0]);
      ApplyAllKeepsKeysMatchIds(Apply(s, evs[0]), evs[1..]);
    }
  }

  /** The name a `player_left` toast shows, looked up in `s` with the
      source's `?.name || 'A player'` fallback. */
  function NameOrDefault(s: Store, id: string): string {
    if id in s && s[id].name != "" then s[id].name else "A player"
  }

  /** The toast name as the source computes it: looked up in the store AFTER
      the entry was deleted. */
  function LeftNameAsWritten(s: Store, id: string): string {
    NameOrDefault(Apply(s, PlayerLeft(id)), id)
  }

  /** As written, the lookup can never find the departing player. */
  lemma LeftNameAsWrittenIsAlwaysDefault(s: Store, id: string)
    ensures LeftNameAsWritten(s, id) == "A player"
  {
  }

  /** The toast name looked up BEFORE the deletion, as intended. */
  function LeftName(s: Store, id: string): (n: string)
    ensures id in s && s[id].name != "" ==> n == s[id].name
    ensures id !in s || s[id].name == "" ==> n == "A player"
  {
    NameOrDefault(s, id)
  }

  /** A known named player leaving: the source's toast says "A player", the
      intended toast names them. */
  lemma LeftNameCounterexample()
    ensures var s := map["7" := Player("7", "Ada", Position(0, 0))];
      LeftNameAsWritten(s, "7") == "A player" && LeftName(s, "7") == "Ada"
  {
  }

  /** The notification an envelope raises. */
  datatype Toast = NoToast | Success(text: string) | Error(text: string)

  function ToastFor(s: Store, ev: ServerEvent): Toast {
    match ev
    case PlayerJoined(_, name, _) => Success(name + " joined the space")
    case PlayerLeft(id) => Error(LeftName(s, id) + " left the space")
    case _ => NoToast
  }

  /** The hook's mutable state: `playersRef.current`. */
  class PresenceClient {
    var players: Store

    constructor ()
      ensures players == map[]
    {
      players := map[];
    }

    /** The `onmessage` handler for one decoded envelope. */
    method OnMessage(ev: ServerEvent) returns (toast: Toast)
      modifies this
      ensures players == Apply(old(players), ev)
      ensures toast == ToastFor(old(players), ev)
    {
      match ev
      case PlayerJoined(id, name, pos) =>
        toast := Success(name + " joined the space");
        players := players[id := Player(id, name, pos)];
      case PositionUpdate(id, pos) =>
        if id in players {
          players := players[id := players[id].(position := pos)];
        }
        toast := NoToast;
      case PlayerLeft(id) =>
        var name := LeftName(players, id);
        players := players - {id};
        toast := Error(name + " left the space");
      case ExistingPlayers(ps) =>
        players := CollectExisting(ps);
        toast := NoToast;
      case Unrecognised(_) =>
        toast := NoToast;
    }
  }
}
