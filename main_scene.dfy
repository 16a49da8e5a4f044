/** The networked Phaser scene (web/src/components/space/MainScene.ts): it
    mirrors the presence store as remote sprites, picks the local player's
    direction and idle frame, and throttles outbound position updates. */
module MainScene {
  import opened Wrappers
  import Presence

  datatype Direction = Left | Right | Up | Down

  /** The first and last sprite-sheet frame of an animation. */
  datatype FrameRange = FrameRange(first: nat, last: nat)

  /** The animations `create` registers for each direction. */
  function Animation(d: Direction): FrameRange {
    match d
    case Right => FrameRange(0, 3)
    case Up => FrameRange(4, 7)
    case Left => FrameRange(8, 11)
    case Down => FrameRange(12, 15)
  }

  /** `getIdleFrame` (and the identical table inside `update`): the still
      frame shown for the last direction is the first frame of that
      direction's walking animation. */
  function IdleFrame(d: Direction): (f: nat)
    ensures f == Animation(d).first
    ensures Animation(d).first <= f <= Animation(d).last
  {
    match d
    case Left => 8
    case Right => 0
    case Up => 4
    case Down => 12
  }

  /** The cursor keys held down during a tick. */
  datatype CursorKeys = CursorKeys(left: bool, right: bool, up: bool, down: bool)

  /** The direction a tick moves in: left before right before up before down. */
  function Steer(k: CursorKeys): (d: Option<Direction>)
    ensures d == Some(Left) <==> k.left
    ensures d == Some(Right) <==> !k.left && k.right
    ensures d == Some(Up) <==> !k.left && !k.right && k.up
    ensures d == Some(Down) <==> !k.left && !k.right && !k.up && k.down
    ensures d == None <==> !k.left && !k.right && !k.up && !k.down
  {
    if k.left then Some(Left)
    else if k.right then Some(Right)
    else if k.up then Some(Up)
    else if k.down then Some(Down)
    else None
  }

  const Speed := 200

  /** The velocity `update` gives the local sprite. */
  datatype Velocity = Velocity(vx: int, vy: int)

  function VelocityFor(d: Option<Direction>): (v: Velocity)
    ensures d == None <==> v == Velocity(0, 0)
    ensures d.Some? ==> (v.vx == 0) != (v.vy == 0)
  {
    match d
    case None => Velocity(0, 0)
    case Some(Left) => Velocity(-Speed, 0)
    case Some(Right) => Velocity(Speed, 0)
    case Some(Up) => Velocity(0, -Speed)
    case Some(Down) => Velocity(0, Speed)
  }

  /** What the local sprite shows after a tick. */
  datatype Shown = Walking(direction: Direction) | Still(frame: nat)

  /** The remote sprites `updateOtherPlayers` should leave behind: one per
      stored player other than the local user, at the stored position. */
  function RemoteView(store: Presence.Store, localUserId: string): (v: map<string, Presence.Position>)
    ensures v.Keys == store.Keys - {localUserId}
    ensures forall id :: id in v ==> v[id] == store[id].position
  {
    map id | id in store && id != localUserId :: store[id].position
  }

  /** The last accepted send time, starting from `start` before any send. */
  function LastSent(sent: seq<int>, start: int): int {
    if sent == [] then start else sent[|sent| - 1]
  }

  /** The send throttle over a run of ticks in which the player moved and the
      socket was open: a tick is accepted when it is strictly more than
      `limit` after the last accepted one (initially `start`). Accepted ticks
      are therefore strictly more than `limit` apart. */
  function Sampled(ticks: seq<int>, start: int, limit: int): (sent: seq<int>)
    ensures |sent| <= |ticks|
    ensures forall i :: 0 < i < |sent| ==> sent[i] - sent[i - 1] > limit
    ensures |sent| > 0 ==> sent[0] - start > limit
    ensures forall t :: t in sent ==> t in ticks
    decreases |ticks|
  {
    if ticks == [] then []
    else
      var init := ticks[..|ticks| - 1];
      var t := ticks[|ticks| - 1];
      var before := Sampled(init, start, limit);
      assert forall u :: u in init ==> u in ticks;
      if t - LastSent(before, start) > limit then before + [t] else before
  }

  /** With a 50 ms limit and the source's initial `lastSentTime` of 0, ticks
      at 0, 10, 40 and 60 ms send only at 60: the tick at 0 is not more than
      50 after 0. */
  lemma SampledExample()
    ensures Sampled([0, 10, 40, 60], 0, 50) == [60]
  {
    assert [0, 10, 40, 60][..3] == [0, 10, 40];
    assert [0, 10, 40][..2] == [0, 10];
    assert [0, 10][..1] == [0];
    assert [0][..0] == [];
  }

  /** The first loop of `updateOtherPlayers` has turned `before` into
      `sprites`: a missing sprite was created at the stored position, a sprite
      elsewhere was moved there, and the local user was skipped. */
  ghost predicate Placed(before: map<string, Presence.Position>, store: Presence.Store, localUserId: string,
                   sprites: map<string, Presence.Position>, created: set<string>, moved: set<string>) {
    && (forall k :: k in sprites <==> k in before || (k in store && k != localUserId))
    && (forall k :: k in store && k != localUserId ==> k in sprites && sprites[k] == store[k].position)
    && (forall k :: k in before && (k !in store || k == localUserId) ==> k in sprites && sprites[k] == before[k])
    && (forall k :: k in created <==> k in store && k != localUserId && k !in before)
    && (forall k :: k in moved <==>
          k in store && k != localUserId && k in before && before[k] != store[k].position)
  }

  /** That loop, over the store's ids in some order; `seen` holds the
      entries visited so far. */
  method PlaceAll(before: map<string, Presence.Position>, store: Presence.Store, localUserId: string)
    returns (sprites: map<string, Presence.Position>, created: set<string>, moved: set<string>)
    ensures Placed(before, store, localUserId, sprites, created, moved)
  {
    sprites := before;
    created, moved := {}, {};
    ghost var seen: Presence.Store := map[];
    var todo := store.Keys;
    while todo != {}
      invariant todo <= store.Keys
      invariant forall k :: k in seen <==> k in store && k !in todo
      invariant forall k :: k in seen ==> seen[k] == store[k]
      invariant Placed(before, seen, localUserId, sprites, created, moved)
      decreases |todo|
    {
      var id :| id in todo;
      todo := todo - {id};
      PlaceStep(before, seen, localUserId, sprites, created, moved, id, store[id]);
      seen := seen[id := store[id]];
      if id != localUserId {
        var pos := store[id].position;
        if id !in sprites {
          sprites := sprites[id := pos];
          created := created + {id};
        } else if sprites[id] != pos {
          sprites := sprites[id := pos];
          moved := moved + {id};
        }
      }
    }
    assert seen == store;
  }

  /** One id of that loop. */
  lemma PlaceStep(before: map<string, Presence.Position>, seen: Presence.Store, localUserId: string,
                  sprites: map<string, Presence.Position>, created: set<string>, moved: set<string>,
                  id: string, p: Presence.Player)
    requires Placed(before, seen, localUserId, sprites, created, moved) && id !in seen
    ensures id != localUserId && id !in sprites ==>
      Placed(before, seen[id := p], localUserId, sprites[id := p.position], created + {id}, moved)
    ensures id != localUserId && id in sprites && sprites[id] != p.position ==>
      Placed(before, seen[id := p], localUserId, sprites[id := p.position], created, moved + {id})
    ensures id != localUserId && id in sprites && sprites[id] == p.position ==>
      Placed(before, seen[id := p], localUserId, sprites, created, moved)
    ensures id == localUserId ==>
      Placed(before, seen[id := p], localUserId, sprites, created, moved)
  {
  }

  /** The scene's own state. */
  class Scene {
    const localUserId: string
    /** `VITE_WS_RATE_LIMIT`, in milliseconds. */
    const rateLimit: int
    /** `otherPlayers`, one sprite position per remote player. */
    var otherPlayers: map<string, Presence.Position>
    var lastSentTime: int
    var lastDirection: Direction
    var shown: Shown
    /** Times of the ticks at which the player moved with the socket open. */
    ghost var eligibleTicks: seq<int>
    /** Times of the ticks that sent a position. */
    ghost var sentAt: seq<int>

    ghost predicate Valid()
      reads this
    {
      && localUserId !in otherPlayers
      && sentAt == Sampled(eligibleTicks, 0, rateLimit)
      && lastSentTime == LastSent(sentAt, 0)
    }

    constructor (localUserId: string, rateLimit: int)
      ensures Valid()
      ensures this.localUserId == localUserId && this.rateLimit == rateLimit
      ensures otherPlayers == map[] && lastSentTime == 0 && lastDirection == Down
      ensures sentAt == []
    {
      this.localUserId := localUserId;
      this.rateLimit := rateLimit;
      otherPlayers := map[];
      lastSentTime := 0;
      lastDirection := Down;
      shown := Still(IdleFrame(Down));
      eligibleTicks := [];
      sentAt := [];
    }

    /** `updateOtherPlayers`: create a sprite for each new remote player, move
        the ones whose stored position changed, destroy the ones no longer in
        the store. The local user never gets a sprite. */
    method UpdateOtherPlayers(store: Presence.Store) returns (created: set<string>, moved: set<string>, destroyed: set<string>)
      requires localUserId !in otherPlayers
      modifies this`otherPlayers
      ensures otherPlayers == RemoteView(store, localUserId)
      ensures forall id :: id in created <==> id in otherPlayers && id !in old(otherPlayers)
      ensures forall id :: id in moved <==>
        id in old(otherPlayers) && id in otherPlayers && old(otherPlayers)[id] != otherPlayers[id]
      ensures forall id :: id in destroyed <==> id in old(otherPlayers) && id !in store
    {
      created, moved := PlaceSprites(store);
      destroyed := DestroyStale(store);
      assert otherPlayers.Keys == RemoteView(store, localUserId).Keys;
    }

    /** The first loop of `updateOtherPlayers`, over the store's ids. */
    method PlaceSprites(store: Presence.Store) returns (created: set<string>, moved: set<string>)
      modifies this`otherPlayers
      ensures Placed(old(otherPlayers), store, localUserId, otherPlayers, created, moved)
    {
      otherPlayers, created, moved := PlaceAll(otherPlayers, store, localUserId);
    }

    /** The second loop of `updateOtherPlayers`, over the sprites: a sprite
        whose id is not among the store's ids is destroyed. */
    method DestroyStale(store: Presence.Store) returns (destroyed: set<string>)
      modifies this`otherPlayers
      ensures forall id :: id in otherPlayers <==> id in old(otherPlayers) && id in store
      ensures forall id :: id in otherPlayers ==> otherPlayers[id] == old(otherPlayers)[id]
      ensures forall id :: id in destroyed <==> id in old(otherPlayers) && id !in store
    {
      ghost var before := otherPlayers;
      destroyed := {};
      var sprites := otherPlayers.Keys;
      while sprites != {}
        invariant sprites <= before.Keys
        invariant forall id :: id in otherPlayers <==> id in before && (id in sprites || id in store)
        invariant forall id :: id in otherPlayers ==> otherPlayers[id] == before[id]
        invariant forall id :: id in destroyed <==> id in before && id !in sprites && id !in store
        decreases |sprites|
      {
        var id :| id in sprites;
        sprites := sprites - {id};
        if id !in store {
          otherPlayers := otherPlayers - {id};
          destroyed := destroyed + {id};
        }
      }
    }

    /** One `update(time)` tick. The physics body is at (`px`, `py`) and the
        socket exists and is open when `socketOpen`. */
    method Update(time: int, keys: CursorKeys, px: real, py: real, socketOpen: bool, store: Presence.Store)
      returns (velocity: Velocity, sent: Option<Presence.Position>)
      requires Valid()
      modifies this
      ensures Valid()
      ensures velocity == VelocityFor(Steer(keys))
      ensures Steer(keys).Some? ==> lastDirection == Steer(keys).value && shown == Walking(lastDirection)
      ensures Steer(keys).None? ==> lastDirection == old(lastDirection) && shown == Still(IdleFrame(lastDirection))
      ensures sent.Some? <==> Steer(keys).Some? && socketOpen && time - old(lastSentTime) > rateLimit
      ensures sent.Some? ==> sent.value == Presence.Position(px.Floor, py.Floor) && lastSentTime == time
      ensures sent.Some? ==> sentAt == old(sentAt) + [time]
      ensures sent.None? ==> lastSentTime == old(lastSentTime) && sentAt == old(sentAt)
      ensures otherPlayers == RemoteView(store, localUserId)
    {
      var moved := false;
      var direction := Steer(keys);
      velocity := VelocityFor(direction);
      if direction.Some? {
        lastDirection := direction.value;
        shown := Walking(lastDirection);
        moved := true;
      } else {
        shown := Still(IdleFrame(lastDirection));
      }

      sent := None;
      if moved && socketOpen {
        eligibleTicks := eligibleTicks + [time];
        assert eligibleTicks[..|eligibleTicks| - 1] == old(eligibleTicks);
        if time - lastSentTime > rateLimit {
          sent := Some(Presence.Position(px.Floor, py.Floor));
          lastSentTime := time;
          sentAt := sentAt + [time];
        }
      }

      var _, _, _ := UpdateOtherPlayers(store);
    }
  }
}
