# Haven: a Dafny model of its shared state

Haven is a virtual office. Players walk around a shared map, chat, draw on a
shared whiteboard and keep a kanban board. This project models the logic
under the React, Phaser and Fiber plumbing that keeps that shared state, and
proves properties of the model. Every piece is a finite map or sequence
transition, or a small state machine; the model follows the code's own
structure, one module per source file:

- `Presence` (web/src/hooks/useWebSocket.ts): the client's presence store,
  from player id to `{id, name, position}`. Decoded server envelopes are
  folded into it. It is a pure `Apply` function plus a class holding
  `playersRef.current`.
- `MainScene` (web/src/components/space/MainScene.ts): the networked Phaser
  scene. It mirrors the store as remote sprites, skipping the local user. It
  also picks the direction and idle frame, and throttles outbound position
  updates.
- `WhiteboardClient` (web/src/pages/WhiteBoard.tsx): the live whiteboard
  client. It has a lock that drops inbound scene updates (released by an
  explicit timer step), the participants list and the `handleChange` send
  gate.
- `ElementMerge` (web/src/pages/WhiteBoard.tsx lines 1-111): the
  last-writer-wins `reconcileElements` and `filterElements` of an earlier
  client. That code is INACTIVE: it survives only as comments and is never
  compiled into the running client.
- `SpaceServer` (src/redis/pubsub.go): the space server. Per space it keeps
  the connected players and a chat log capped at 50. It handles joins,
  frames, disconnects, status updates and chat from Redis.
- `WhiteboardServer` (src/redis/whiteboard.go): the Redis-backed whiteboard
  room registry. It has a save debounce, a `space_whiteboards` table and
  the Redis subscriber.
- `WhiteboardHandler` (src/handlers/whiteboard/whiteboard_handler.go): the
  stand-alone whiteboard room registry.
- `Collision` (web/src/pages/Space/utils/collision.ts): the closed-interval
  rectangle overlap test.
- `SpriteFrames` (web/src/pages/Space/entities/Sprite.ts): the sprite frame
  counter.
- `LegacyCanvas` (web/src/pages/Space.tsx): the legacy canvas game. It cuts
  the collision grid into rows, places the boundaries, moves the map rigidly
  or not at all, and tracks the key flags and key priority.
- `Kanban` (web/src/components/space/KanbanBoard/useKanbanSSE.tsx and
  KanbanBoard.tsx): the kanban list updates, the fetch mapping and the
  column partition.

These modules support the others:

- `Wrappers` holds `Option`.
- `Decimal` renders numbers in decimal (Go's `%d`, JavaScript's
  `toString()`) and scans them back (Go's `Sscanf` into a `uint`).
- `MapValues` models Go's `range` over a map appending values, in an
  unspecified order.

Each server handler's locked region is one atomic method on a class.
Timers become explicit "fired" methods. Redis publications are appended to
a `published` log. Writes to sockets are returned as sets of recipient
connections.

Three behaviours of the code worth knowing:

- The send throttle starts from `lastSentTime = 0` and uses a strict `>`.
  A tick at time 0 therefore does not send with a 50 ms limit
  (`MainScene.SampledExample`).
- The `player_left` toast in web/src/hooks/useWebSocket.ts looks its name
  up after the deletion, so it always reads "A player". The model keeps
  that version as `Presence.LeftNameAsWritten`; its client class uses the
  corrected lookup (see Findings).
- A status update stores any string. The value is not validated.

The whiteboard server (src/redis/whiteboard.go) and the stand-alone
whiteboard handler (src/handlers/whiteboard/whiteboard_handler.go) each
keep their own room registry, with different room records: the server's
room also carries a space id and a save debounce. The model mirrors that
duplication with one registry invariant per module, so `RegistryJoin`,
`RegistryKeep`, `RegistryLeave` and `LeaveRoom` appear in both.

## Model

| member | source | states |
|---|---|---|
| Presence.Apply | web/src/hooks/useWebSocket.ts:27-87 | player_joined inserts or overwrites exactly the joiner's entry; position_update for a known id changes only that player's position; for an unknown id the store is unchanged; player_left removes that id only; existing_players replaces the store with one entry per listed id, the last duplicate winning; any other tag changes nothing |
| Presence.Collect | web/src/hooks/useWebSocket.ts:73-83 | the existing_players record has exactly the listed ids as keys, files each player under its own id, and keeps the last listed player with each id |
| Presence.CollectExisting | web/src/hooks/useWebSocket.ts:74-82 | the `forEach` loop builds exactly that record |
| Presence.ApplyKeepsKeysMatchIds | web/src/hooks/useWebSocket.ts:28-83 | every envelope keeps every entry filed under its own `id` |
| Presence.ApplyAllKeepsKeysMatchIds | web/src/hooks/useWebSocket.ts:24-88 | that invariant holds after any sequence of envelopes |
| Presence.ApplyIdempotent | web/src/hooks/useWebSocket.ts:45-62 | applying the same envelope (in particular the same position_update) twice gives the store applying it once gives |
| Presence.LeftNameAsWrittenIsAlwaysDefault | web/src/hooks/useWebSocket.ts:65-69 | as written, the player_left toast's lookup runs after the deletion and always yields "A player" |
| Presence.LeftName | web/src/hooks/useWebSocket.ts:69 | the intended toast name: the departing player's stored name when it is non-empty, else "A player" |
| Presence.LeftNameCounterexample | web/src/hooks/useWebSocket.ts:65-69 | a known player "Ada" leaving: the source's toast says "A player", the intended one "Ada" |
| Presence.PresenceClient.constructor | web/src/hooks/useWebSocket.ts:16 | the store starts empty |
| Presence.PresenceClient.OnMessage | web/src/hooks/useWebSocket.ts:24-88 | the handler's new store is `Apply` of the old one, and its toast is the joiner's name or the departing player's name looked up before deletion |
| MainScene.IdleFrame | web/src/components/space/MainScene.ts:121-129 | the idle frame of each direction (left 8, right 0, up 4, down 12) is the first frame of that direction's walking animation (lines 83-109) |
| MainScene.Steer | web/src/components/space/MainScene.ts:192-212 | left beats right beats up beats down, each if and only if its key and no higher key is down; no key gives no direction |
| MainScene.VelocityFor | web/src/components/space/MainScene.ts:188-211 | no direction gives zero velocity, and any direction gives motion along exactly one axis |
| MainScene.RemoteView | web/src/components/space/MainScene.ts:135-182 | the sprites `updateOtherPlayers` should leave: the store's ids minus the local user, each at its stored position |
| MainScene.Sampled | web/src/components/space/MainScene.ts:225-241 | the throttle sends at most once per eligible tick, only at eligible ticks; the first send is more than `limit` after the initial time, and consecutive sends are strictly more than `limit` apart |
| MainScene.SampledExample | web/src/components/space/MainScene.ts:9 | with `lastSentTime` starting at 0 and a 50 ms limit, ticks at 0, 10, 40 and 60 send only at 60 |
| MainScene.PlaceAll | web/src/components/space/MainScene.ts:135-171 | the first loop creates a sprite at the stored position for each new remote id, moves each existing sprite whose position differs, skips the local user, and leaves other sprites alone; `created` and `moved` are exactly those ids |
| MainScene.PlaceStep | web/src/components/space/MainScene.ts:137-170 | one id of that loop keeps the loop's property in each of its four branches |
| MainScene.Scene.constructor | web/src/components/space/MainScene.ts:9-14 | no remote sprites, `lastSentTime` 0, facing down, nothing sent |
| MainScene.Scene.UpdateOtherPlayers | web/src/components/space/MainScene.ts:131-183 | afterwards the sprites are exactly `RemoteView(store)`; created, moved and destroyed are exactly the ids added, repositioned and removed. A second call with the same store therefore changes nothing |
| MainScene.Scene.PlaceSprites | web/src/components/space/MainScene.ts:135-171 | the first loop on the scene's sprite map, as `PlaceAll` |
| MainScene.Scene.DestroyStale | web/src/components/space/MainScene.ts:172-182 | exactly the sprites whose id is not in the store are destroyed; the others keep their position |
| MainScene.Scene.Update | web/src/components/space/MainScene.ts:185-250 | velocity and direction follow the key priority; `lastDirection` changes only when a key is down, else the idle frame of it is shown; a position is sent iff the player moved, the socket is open and `time - lastSentTime > limit`; the sent position is the floor of the body's; `lastSentTime` changes only on a send; the sends so far are `Sampled` of the eligible ticks; the sprites end as `RemoteView(store)` |
| WhiteboardClient.SceneElements | web/src/pages/WhiteBoard.tsx:165-172 | a string `elements` is decoded, an inline array is used as it is, and an absent field leaves the scene |
| WhiteboardClient.Receive | web/src/pages/WhiteBoard.tsx:153-187 | a scene-update is applied iff the API is ready and the lock is free; applying it takes the lock and arms the release, even when decoding fails; participants-update replaces the list, `[]` when absent; everything else changes nothing |
| WhiteboardClient.LockedDropsScenes | web/src/pages/WhiteBoard.tsx:157-161 | while the lock is held, no run of inbound frames changes the scene or frees the lock: scene updates are dropped, not queued |
| WhiteboardClient.BurstAppliesFirst | web/src/pages/WhiteBoard.tsx:157-180 | of a burst of scene updates before the release fires, only the first is applied |
| WhiteboardClient.Outgoing | web/src/pages/WhiteBoard.tsx:226-251 | `handleChange` sends iff the socket is open, elements are present, the lock is free, the user is not drawing and the elements differ from the last sent; it sends the elements themselves |
| WhiteboardClient.RepeatSendsNothing | web/src/pages/WhiteBoard.tsx:237-250 | right after a send, the same elements are not sent again |
| WhiteboardClient.Board.constructor | web/src/pages/WhiteBoard.tsx:120-130 | not connected, no participants, nothing sent, lock free, not drawing |
| WhiteboardClient.Board.ApiReady | web/src/pages/WhiteBoard.tsx:133-204 | handing over the API (line 321) makes it ready and, since it is a dependency of the socket effect (line 204), closes the open socket: nothing is sent until the next `onopen` |
| WhiteboardClient.Board.OnOpen | web/src/pages/WhiteBoard.tsx:146-151 | open sets connected |
| WhiteboardClient.Board.OnClose | web/src/pages/WhiteBoard.tsx:189-193 | the current socket's close sets disconnected, clears the participants and leaves nothing to send on |
| WhiteboardClient.Board.StaleClose | web/src/pages/WhiteBoard.tsx:189-204 | the close of a socket the effect re-run replaced clears the connection flag and the participants, and leaves the current socket's open state alone |
| WhiteboardClient.Board.OnMessage | web/src/pages/WhiteBoard.tsx:153-187 | the handler's state change is exactly `Receive` |
| WhiteboardClient.Board.LockTimerFired | web/src/pages/WhiteBoard.tsx:177-179 | only the release timer clears the lock |
| WhiteboardClient.Board.PointerDown | web/src/pages/WhiteBoard.tsx:210-212 | pointer down sets drawing |
| WhiteboardClient.Board.PointerUp | web/src/pages/WhiteBoard.tsx:215-217 | pointer up clears drawing |
| WhiteboardClient.Board.HandleChange | web/src/pages/WhiteBoard.tsx:226-251 | sends what `Outgoing` allows; a send records the elements as last sent and appends them to the sent log, and no send changes neither |
| ElementMerge.FilterElements | web/src/pages/WhiteBoard.tsx:45-47 | (inactive source) keeps exactly the elements that are not deleted and not of type `selection` |
| ElementMerge.FilterElementsAppend | web/src/pages/WhiteBoard.tsx:45-47 | (inactive source) the filter keeps the input's order: filtering a concatenation filters each part |
| ElementMerge.FilterElementsIdempotent | web/src/pages/WhiteBoard.tsx:45-47 | (inactive source) filtering twice equals filtering once |
| ElementMerge.IndexById | web/src/pages/WhiteBoard.tsx:88-89 | (inactive source) the id map has exactly the ids present, each mapped to an element of the list carrying that id, and to the LAST such element, as `new Map` keeps the last entry per key |
| ElementMerge.Pick | web/src/pages/WhiteBoard.tsx:95-98 | (inactive source) the winner is one of the two copies with the later timestamp; a tie or a missing local copy gives the remote copy |
| ElementMerge.MergedRemote | web/src/pages/WhiteBoard.tsx:94-99 | (inactive source) one merged element per remote element |
| ElementMerge.MergedRemoteAt | web/src/pages/WhiteBoard.tsx:94-99 | (inactive source) merged position `i` is remote element `i` resolved against its local copy |
| ElementMerge.NewLocalMembers | web/src/pages/WhiteBoard.tsx:101-106 | (inactive source) the appended part holds exactly the local elements no remote element carries that changed after the last sync |
| ElementMerge.ReconcileShape | web/src/pages/WhiteBoard.tsx:83-109 | (inactive source) the result lists, in remote order, one element per remote element with its id and at least its timestamp, then exactly the new local-only elements; a local-only element not changed since the last sync is dropped |
| ElementMerge.LastWriterWinsExample | web/src/pages/WhiteBoard.tsx:97 | (inactive source) a local copy updated at 100 beats a remote copy at 90 and loses to one at 150 |
| ElementMerge.ReconcileElements | web/src/pages/WhiteBoard.tsx:83-109 | (inactive source) the imperative merge computes exactly `Reconcile` |
| ElementMerge.RemoteIds | web/src/pages/WhiteBoard.tsx:88 | (inactive source) exactly the ids of the remote elements |
| ElementMerge.LocalIndex | web/src/pages/WhiteBoard.tsx:89 | (inactive source) the local map, filled element by element, is `IndexById` |
| ElementMerge.MergeRemote | web/src/pages/WhiteBoard.tsx:94-99 | (inactive source) the loop over the remote elements computes `MergedRemote` |
| ElementMerge.NewLocalOnly | web/src/pages/WhiteBoard.tsx:102-106 | (inactive source) the loop over the local elements computes `NewLocal` |
| Decimal.NatToString | src/redis/pubsub.go:247 | a numeral is non-empty, all digits, and has at least two digits from 10 on |
| Decimal.ValueOfNatToString | src/redis/pubsub.go:247 | reading back the decimal numeral of `n` gives `n` |
| Decimal.NatToStringInjective | src/redis/pubsub.go:247 | distinct user ids render as distinct id strings |
| Decimal.DigitPrefix | src/redis/whiteboard.go:226 | the longest leading run of digits |
| Decimal.DigitPrefixOfNumeral | src/redis/whiteboard.go:226 | the digit run of a numeral followed by nothing or a non-digit is that numeral |
| Decimal.ScanUint | src/redis/whiteboard.go:225-228 | no leading digit gives no value; a value read always fits a 64-bit `uint` |
| Decimal.ScanUintOfNumeral | src/redis/whiteboard.go:226 | the numeral of an in-range number, followed by nothing or a non-digit, scans to that number |
| MapValues.ListsCovers | src/redis/pubsub.go:265-271 | a listing of a map's values has one entry per key: every key's value is in it and every entry is some key's value |
| MapValues.DistinctLength | src/redis/whiteboard.go:330-333 | a duplicate-free list of exactly the keys is as long as the map |
| MapValues.Values | src/handlers/whiteboard/whiteboard_handler.go:156-159 | `range` over a map appending values lists each key's value exactly once, in some key order |
| SpaceServer.StringField | src/redis/pubsub.go:92-105 | a field is read iff the content is an object holding a string there |
| SpaceServer.AppendCapped | src/redis/pubsub.go:155-163 | the log grows to at most 50, the new message is last, the result is the newest suffix of log-plus-message, and below the cap nothing is dropped |
| SpaceServer.PostAllKeepsNewest | src/redis/pubsub.go:155-163 | after any run of posts the log is exactly the newest (at most) 50 messages, oldest first |
| SpaceServer.Leave | src/redis/pubsub.go:360-367 | deleting a player's entry changes only its space, which is dropped when it empties |
| SpaceServer.LinkedUpdate | src/redis/pubsub.go:337 | replacing a live player by one with the same id and space (a position update) keeps every entry filed under its own id and space |
| SpaceServer.LinkedRemove | src/redis/pubsub.go:360-367 | a disconnect keeps every entry pointing at a live player filed under its own id and space |
| SpaceServer.LinkedJoin | src/redis/pubsub.go:259-272 | a join keeps those links, leaving an overwritten player's struct behind |
| SpaceServer.StatusDone | src/redis/pubsub.go:110-132 | after the status loop, exactly the spaces holding the user were told, each with its players, the user's player in each has the status, and nothing else changed |
| SpaceServer.SetStatusEverywhere | src/redis/pubsub.go:110-132 | the loop over all spaces sets the user's status wherever the user has an entry, changes no other player, and addresses each such space's players |
| SpaceServer.Roster | src/redis/pubsub.go:266 | the players of a space by id, each filed under its own id and space |
| SpaceServer.ExistingPlayers | src/redis/pubsub.go:265-271 | the existing_players list has every player of the space except the joiner, each exactly once, and nothing else |
| SpaceServer.ListedOthers | src/redis/pubsub.go:265-271 | any listing of the roster without the joiner has each other player once |
| SpaceServer.Server.constructor | src/redis/pubsub.go:53-66 | no spaces, no chats, nothing published |
| SpaceServer.Server.Register | src/redis/pubsub.go:259-272 | the player is filed under its id in its space, replacing any earlier entry; a space with no player map is created with an empty chat log |
| SpaceServer.Server.Join | src/redis/pubsub.go:226-307 | without a user id nothing happens; otherwise the player (its id the decimal of the user id, at (850, 1040), zero-valued when the user lookup fails) is registered; the chat history is sent only when non-empty; existing_players lists every other player of the space; player_joined is published |
| SpaceServer.Server.OnFrame | src/redis/pubsub.go:320-355 | position_update replaces the connection's own position and publishes it; chat_message publishes the text under the nickname; anything else, including non-text and unparseable frames, changes nothing |
| SpaceServer.Server.Disconnect | src/redis/pubsub.go:360-377 | the entry under the player's id is deleted, the space goes when it empties, the chat log stays, player_left is published |
| SpaceServer.Server.StatusUpdate | src/redis/pubsub.go:91-133 | missing or non-string `user_id` or `status` changes nothing; otherwise any status value is set on the user's player in every space holding them, and those spaces' players are told |
| SpaceServer.Server.HandleChat | src/redis/pubsub.go:135-177 | with a string `space_id` the message is logged through `AppendCapped` even when the space has no players, and sent only when the space exists; without one nothing changes |
| SpaceServer.Server.Broadcast | src/redis/pubsub.go:204-224 | a message naming a string `space_id` goes to every player of that space, and to no one otherwise |
| SpaceServer.Server.Dispatch | src/redis/pubsub.go:80-87 | only status updates touch the players, and only chat touches the chat logs |
| SpaceServer.UserIdAsWritten | src/redis/pubsub.go:228-232 | the comma-ok `.(uint)` read of the `userId` local succeeds iff the local holds a `uint`, and then gives that value |
| SpaceServer.AsWrittenNeverReadsMiddlewareId | src/middleware/auth-middleware.go:32-50 | the float64 claim the auth middleware stores is never read back by the as-written assertion |
| SpaceServer.UserIdIntended | src/middleware/auth-middleware.go:32-43 | the intended read converts a non-negative float64 claim as the middleware's `uint(id)` does (truncation), keeps a `uint`, and gives nothing for a missing local |
| SpaceServer.IntendedReadsMiddlewareId | src/middleware/auth-middleware.go:50 | the intended read gives back every id the middleware stores |
| SpaceServer.AuthenticatedJoinAsWritten | src/redis/pubsub.go:226-232 | as written, a join the middleware authenticated takes the "unable to get userId" branch: no connection, no player, nothing published |
| SpaceServer.AuthenticatedJoin | src/redis/pubsub.go:226-304 | with the intended read, the same join registers the player under the decimal of the token's id and publishes player_joined |
| SpaceServer.RejoinWipesHistory | src/redis/pubsub.go:260-263 | rejoining after the last player left sends no chat history: disconnect dropped the space but kept its log, and the join of a missing space resets the log (lines 364-366) |
| WhiteboardServer.SpaceIdOfNumeral | src/redis/whiteboard.go:225-228 | a numeric room id names its own space, and an id not starting with a digit leaves the space id 0 |
| WhiteboardServer.NewRoom | src/redis/whiteboard.go:232-255 | a first connection creates a room with no clients and type scene-update, holding the stored scene when the space id is non-zero and a row exists, else `[]` and `{}` |
| WhiteboardServer.Normalize | src/redis/whiteboard.go:309-313 | an empty type becomes scene-update, any other is kept, and the room id is the connection's |
| WhiteboardServer.StringField | src/redis/whiteboard.go:167-175 | a string field is read iff present as a string |
| WhiteboardServer.Field | src/redis/whiteboard.go:187-189 | a field is read iff present |
| WhiteboardServer.Accepted | src/redis/whiteboard.go:167-189 | a payload is accepted iff it holds a string `type` and a string `roomId`, and is read back with those and its elements and appState |
| WhiteboardServer.PublishedIsAccepted | src/redis/whiteboard.go:309-316 | what a read loop publishes comes back from Redis accepted, for the same room, unchanged except that absent elements return as JSON null |
| WhiteboardServer.Schedule | src/redis/whiteboard.go:105-123 | a change always records its time and marks a save pending; a timer is armed, due 3 s later, iff none was pending |
| WhiteboardServer.PendingArmsNothing | src/redis/whiteboard.go:108-111 | while a save is pending, further changes arm nothing and only move `lastModified` |
| WhiteboardServer.BurstArmsOnce | src/redis/whiteboard.go:105-123 | a burst of changes arms exactly one timer, due 3 s after the first change: at most one save is pending |
| WhiteboardServer.Fire | src/redis/whiteboard.go:135-147 | saving clears the pending flag on every path, and hands over the scene only when the space id is non-zero |
| WhiteboardServer.FireRearms | src/redis/whiteboard.go:105-146 | after a save the next change arms a fresh timer |
| WhiteboardServer.LeaveRoom | src/redis/whiteboard.go:264-285 | a leaving client is removed from its room, which is deleted when it empties; no other room changes |
| WhiteboardServer.RegistryJoin | src/redis/whiteboard.go:232-261 | a connect keeps connections and room clients in agreement and rooms non-empty |
| WhiteboardServer.RegistryKeep | src/redis/whiteboard.go:186-190 | replacing a room's state, keeping its clients and space id, keeps that agreement |
| WhiteboardServer.RegistryLeave | src/redis/whiteboard.go:263-285 | a disconnect keeps that agreement |
| WhiteboardServer.Opened | src/redis/whiteboard.go:232-256 | an existing room is reused; a missing one is created from the table row of its space id |
| WhiteboardServer.SaveOnClose | src/redis/whiteboard.go:267-281 | the last client out saves the scene under the room's space id, and saves nothing when it is 0 |
| WhiteboardServer.Server.constructor | src/redis/whiteboard.go:53-70 | no rooms, nothing published, the given table |
| WhiteboardServer.Server.BroadcastParticipants | src/redis/whiteboard.go:320-341 | publishes one nickname per client of the room; nothing for an unknown room |
| WhiteboardServer.Server.Register | src/redis/whiteboard.go:225-261 | the room is opened (created if missing) and the connection joins it under its nickname |
| WhiteboardServer.Server.Connect | src/redis/whiteboard.go:217-300 | an empty room id changes nothing; a missing or non-string `nickName` local (the unchecked assertion at line 230 panics) changes nothing; otherwise the client joins under that nickname, gets the room's state and the participants are published |
| WhiteboardServer.Server.Inbound | src/redis/whiteboard.go:302-317 | a client message is normalised and published; the room is not changed here |
| WhiteboardServer.Server.OnPubSub | src/redis/whiteboard.go:155-202 | a payload that is not accepted or names an unknown room is skipped; a scene-update replaces the room state and schedules a save; any accepted message goes to every client of the room |
| WhiteboardServer.Server.ScheduleRoomSave | src/redis/whiteboard.go:93-124 | `Schedule` on an existing room; nothing for an unknown one |
| WhiteboardServer.Server.SaveTimerFired | src/redis/whiteboard.go:126-153 | `Fire` on an existing room, saving the scene in the table when it has a space id |
| WhiteboardServer.Server.Leave | src/redis/whiteboard.go:263-285 | the connection leaves and an emptied room is deleted |
| WhiteboardServer.Server.Disconnect | src/redis/whiteboard.go:263-292 | the connection leaves; the last client out saves the scene (only under a non-zero space id) and the room is deleted; otherwise the remaining participants are published |
| WhiteboardServer.LastLeaveThenRejoinRestores | src/redis/whiteboard.go:239-281 | when the room id names a non-zero space, the scene the last client leaves behind is the scene the next first client gets |
| WhiteboardHandler.UsernameOf | src/handlers/whiteboard/whiteboard_handler.go:53-56 | a missing username becomes "anonymous", any other is kept |
| WhiteboardHandler.Stamp | src/handlers/whiteboard/whiteboard_handler.go:117-123 | an empty type becomes scene-update and the room id and username are the connection's |
| WhiteboardHandler.NextScene | src/handlers/whiteboard/whiteboard_handler.go:126-129 | only a scene-update replaces the room state |
| WhiteboardHandler.SceneAfterOthers | src/handlers/whiteboard/whiteboard_handler.go:126-129 | messages of other types never change the scene |
| WhiteboardHandler.SceneAfterLatest | src/handlers/whiteboard/whiteboard_handler.go:109-139 | a room keeps the latest scene-update of any run of messages |
| WhiteboardHandler.SceneAfterSplit | src/handlers/whiteboard/whiteboard_handler.go:109-139 | the run's effect is the first part's, then the second's |
| WhiteboardHandler.SceneAfterLast | src/handlers/whiteboard/whiteboard_handler.go:126-129 | a run ending in a scene-update leaves that scene |
| WhiteboardHandler.LeaveRoom | src/handlers/whiteboard/whiteboard_handler.go:80-93 | a leaving client is removed from its room, which is deleted when it empties; no other room changes |
| WhiteboardHandler.RegistryJoin | src/handlers/whiteboard/whiteboard_handler.go:59-75 | a connect keeps connections and room clients in agreement and rooms non-empty |
| WhiteboardHandler.RegistryKeep | src/handlers/whiteboard/whiteboard_handler.go:126-129 | replacing a room's state, keeping its clients, keeps that agreement |
| WhiteboardHandler.RegistryLeave | src/handlers/whiteboard/whiteboard_handler.go:80-93 | a disconnect keeps that agreement |
| WhiteboardHandler.Rooms.constructor | src/handlers/whiteboard/whiteboard_handler.go:37 | no rooms |
| WhiteboardHandler.Rooms.BroadcastParticipants | src/handlers/whiteboard/whiteboard_handler.go:143-173 | one username per client of the room, written to every client of the room; nothing for an unknown room |
| WhiteboardHandler.Rooms.Register | src/handlers/whiteboard/whiteboard_handler.go:59-75 | a missing room is created with type scene-update and elements `[]`, an existing one is reused unchanged, and the connection joins it |
| WhiteboardHandler.Rooms.Connect | src/handlers/whiteboard/whiteboard_handler.go:43-106 | an empty room id changes nothing, connections and usernames included; otherwise the client joins under its username (or "anonymous"), which is recorded for that connection alone, gets the room's state, and the participants go to every client |
| WhiteboardHandler.Rooms.Inbound | src/handlers/whiteboard/whiteboard_handler.go:109-139 | a message is stamped, kept as the scene only when it is a scene-update, and written to every client of the room, the sender included |
| WhiteboardHandler.Rooms.Leave | src/handlers/whiteboard/whiteboard_handler.go:80-88 | the connection leaves and an emptied room is deleted |
| WhiteboardHandler.Rooms.Disconnect | src/handlers/whiteboard/whiteboard_handler.go:78-96 | only the leaver's connection and username go; an emptied room is deleted and no one is told; otherwise the remaining clients, not the leaver, get the remaining participants |
| WhiteboardHandler.ConnectThenInboundStampsUsername | src/handlers/whiteboard/whiteboard_handler.go:53-123 | a message read by a connection is stamped with that connection's own username from its query parameter, and with its room id |
| Collision.CollisionIsCommonPoint | web/src/pages/Space/utils/collision.ts:7-12 | for rectangles of non-negative size, colliding is the same as both closed x-ranges and both closed y-ranges sharing a point |
| Collision.CollisionSymmetric | web/src/pages/Space/utils/collision.ts:7-12 | the order of the arguments does not matter |
| Collision.TouchingEdgesCollide | web/src/pages/Space/utils/collision.ts:8-11 | rectangles that only touch at an edge collide |
| Collision.SeparatedDoNotCollide | web/src/pages/Space/utils/collision.ts:8-11 | rectangles separated on any side do not collide |
| Collision.SelfCollision | web/src/pages/Space/utils/collision.ts:7-12 | a rectangle of non-negative size collides with itself |
| Collision.CollisionTranslationInvariant | web/src/pages/Space/utils/collision.ts:7-12 | moving both rectangles by the same vector does not change the result |
| Collision.CollisionRelativeMove | web/src/pages/Space/utils/collision.ts:7-12 | moving one rectangle is moving the other the opposite way |
| SpriteFrames.Advance | web/src/pages/Space/entities/Sprite.ts:53-60 | without movement nothing changes; moving with more than one frame counts one draw; `max` is kept; the frame changes only when the count is a multiple of the period |
| SpriteFrames.AdvanceInRange | web/src/pages/Space/entities/Sprite.ts:57-59 | a frame in `[0, max)` stays there |
| SpriteFrames.AdvanceIsCyclicStep | web/src/pages/Space/entities/Sprite.ts:57-59 | on a moving draw the frame steps to `(val + 1) % max` exactly when the count reaches a multiple of the period |
| SpriteFrames.SingleFrameStays | web/src/pages/Space/entities/Sprite.ts:54-59 | a single-frame sprite always shows frame 0 |
| SpriteFrames.PeriodStepsOnce | web/src/pages/Space/entities/Sprite.ts:54-59 | from a count that is a multiple of the period, `n` moving draws (up to the period) add `n` to the count, and the frame steps once, at the `period`-th draw |
| SpriteFrames.Sprite.constructor | web/src/pages/Space/entities/Sprite.ts:14-36 | a new sprite shows frame 0 of `max` (1 by default), has counted no draws and is not moving |
| SpriteFrames.Sprite.Draw | web/src/pages/Space/entities/Sprite.ts:38-61 | without an image the frames stay; otherwise they `Advance` with period 5 (`SPRITE_ANIMATION_FRAME_RATE`) |
| LegacyCanvas.ChunkRows | web/src/pages/Space.tsx:230-233 | the row loop computes exactly `Chunks` |
| LegacyCanvas.ChunksShape | web/src/pages/Space.tsx:230-233 | every row has 1 to 120 cells and every row but the last exactly 120 |
| LegacyCanvas.ConcatChunksPrefix | web/src/pages/Space.tsx:230-233 | the first `m` rows joined are the first `120 m` cells |
| LegacyCanvas.ChunksConcat | web/src/pages/Space.tsx:230-233 | joining the rows gives back the grid |
| LegacyCanvas.ChunkCell | web/src/pages/Space.tsx:230-233 | cell `n` is column `n % 120` of row `n / 120` |
| LegacyCanvas.CellOfRow | web/src/pages/Space.tsx:230-233 | column `j` of row `i` is cell `120 i + j` |
| LegacyCanvas.BoundaryPositions | web/src/pages/Space.tsx:235-246 | the nested loops compute exactly `Marks`, row by row, left to right |
| LegacyCanvas.RowMarksExactly | web/src/pages/Space.tsx:236-245 | a row prefix places a boundary at a point iff one of its cells is 107127 and lies there |
| LegacyCanvas.MarksUpToExactly | web/src/pages/Space.tsx:235-246 | a prefix of rows places a boundary at a point iff one of its cells is 107127 and lies there |
| LegacyCanvas.MarksExactly | web/src/pages/Space.tsx:235-246 | the rows place a boundary at a point iff some cell `(i, j)` is 107127 and the point is `(48 j - 1900, 48 i - 2700)` |
| LegacyCanvas.BoundariesOfGrid | web/src/pages/Space.tsx:230-246 | over the flat grid: a boundary lies at a point iff some cell `n` holds 107127 and the point is that of row `n / 120`, column `n % 120` |
| LegacyCanvas.ShiftAll | web/src/pages/Space.tsx:299-316 | shifting keeps the number of movables |
| LegacyCanvas.StepIsRigid | web/src/pages/Space.tsx:271-316 | a step moves nothing or moves every movable by the same vector, so distances between movables are kept |
| LegacyCanvas.StepKeepsClear | web/src/pages/Space.tsx:271-316 | a step that is taken never puts a boundary on the player, so a clear player stays clear |
| LegacyCanvas.Press | web/src/pages/Space.tsx:335-356 | key events change only the flag of `w`, `a`, `s` or `d`; other keys change nothing |
| LegacyCanvas.PressRelease | web/src/pages/Space.tsx:335-356 | releasing a key undoes pressing it when it was not held |
| LegacyCanvas.Chosen | web/src/pages/Space.tsx:319-322 | `w` beats `s` beats `a` beats `d`, each iff its key and no higher key is held; at most one direction per frame |
| LegacyCanvas.Canvas.constructor | web/src/pages/Space.tsx:205-248 | the movables are the map at the offset followed by the boundaries of the grid; the player shows frame 0 of 4, facing down |
| LegacyCanvas.Canvas.KeyDown | web/src/pages/Space.tsx:335-345 | `Press` with the key down |
| LegacyCanvas.Canvas.KeyUp | web/src/pages/Space.tsx:347-356 | `Press` with the key up |
| LegacyCanvas.Canvas.HandleMovement | web/src/pages/Space.tsx:266-317 | the player is marked moving and turned even when blocked; the movables change by exactly `Step`: all shift by the same vector unless some boundary, shifted, would collide with the player |
| LegacyCanvas.Canvas.ShiftMovables | web/src/pages/Space.tsx:300-315 | every movable is shifted one step in place |
| LegacyCanvas.Canvas.Animate | web/src/pages/Space.tsx:250-323 | the player's frames advance, with period 15, by the previous frame's `moving` flag (lines 128-135, 261); then at most one key, by priority, moves the movables by `Step` |
| Kanban.Filter | web/src/components/space/KanbanBoard/useKanbanSSE.tsx:116 | a filter returns only accepted tasks of the input and is no longer than it |
| Kanban.FilterCounts | web/src/components/space/KanbanBoard/useKanbanSSE.tsx:116 | a filter keeps every accepted task as often as it occurs and drops every other task entirely |
| Kanban.FilterConcat | web/src/components/space/KanbanBoard/useKanbanSSE.tsx:116 | a filter keeps the relative order of what it keeps |
| Kanban.FilterAll | web/src/components/space/KanbanBoard/useKanbanSSE.tsx:116 | a filter that accepts every task changes nothing |
| Kanban.SetStatus | web/src/components/space/KanbanBoard/useKanbanSSE.tsx:90-94 | length and order are kept; exactly the tasks with that id get the new status, all else unchanged |
| Kanban.SetStatusIdempotent | web/src/components/space/KanbanBoard/useKanbanSSE.tsx:90-94 | the same update twice equals it once |
| Kanban.SetStatusUnknownId | web/src/components/space/KanbanBoard/useKanbanSSE.tsx:90-94 | an update for an id no task has changes nothing |
| Kanban.WithoutIdExact | web/src/components/space/KanbanBoard/useKanbanSSE.tsx:116 | after a delete no task has the id, every other task keeps its count, and order is kept |
| Kanban.UpdateTaskStatus | web/src/components/space/KanbanBoard/useKanbanSSE.tsx:71-101 | a request that goes through updates the list and returns true; one that throws leaves it and returns false |
| Kanban.DeleteTask | web/src/components/space/KanbanBoard/useKanbanSSE.tsx:103-123 | a request that goes through removes the id and returns true; one that throws leaves the list and returns false |
| Kanban.CreateTask | web/src/components/space/KanbanBoard/useKanbanSSE.tsx:47-69 | creating never changes the list; it only reports whether the request went through |
| Kanban.FromRecord | web/src/components/space/KanbanBoard/useKanbanSSE.tsx:25-33 | the task id is the decimal numeral of the record's id, reading back as that number; description and due date default to ""; the other fields are copied |
| Kanban.FromRecords | web/src/components/space/KanbanBoard/useKanbanSSE.tsx:25-33 | one task per record, in order |
| Kanban.FromRecordsDistinctIds | web/src/components/space/KanbanBoard/useKanbanSSE.tsx:26 | records with distinct ids give tasks with distinct ids |
| Kanban.Load | web/src/components/space/KanbanBoard/useKanbanSSE.tsx:13-42 | rows replace the list; an error reply or a thrown request keeps the list and sets "Failed to load tasks" |
| Kanban.ColumnsDistinct | web/src/components/space/KanbanBoard/KanbanBoard.tsx:6-11 | the column ids are distinct, which `ColumnOfTask` uses for at most one column per task |
| Kanban.ColumnExact | web/src/components/space/KanbanBoard/KanbanBoard.tsx:58 | a column shows each task with its status as often as it occurs, no other task, in list order |
| Kanban.ColumnOfTask | web/src/components/space/KanbanBoard/KanbanBoard.tsx:52-60 | a task is in a column iff its status is that column's id; a task shown by one column is shown by no other; a status matching no column shows nowhere |
| Kanban.DragEnd | web/src/components/space/KanbanBoard/KanbanBoard.tsx:21-30 | a drop with no target does nothing; otherwise the dragged task's status update is requested |
| Kanban.DropMovesTask | web/src/components/space/KanbanBoard/KanbanBoard.tsx:21-30 | a drop that goes through puts the dragged task in the target column and in no other, when ids are distinct |

## Left out

- JSON encoding and decoding and socket I/O are outside the model. Frames
  arrive already decoded; a frame `JSON.parse` rejects in the presence hook
  (web/src/hooks/useWebSocket.ts:25) is not modelled.
- `SpaceServer.Server.HandleChat` requires a string `content` and `author`
  whenever `space_id` is a string. The source's type assertions panic
  otherwise (src/redis/pubsub.go:148-149).
- Concurrency is left out: goroutines, mutexes, Redis fan-out and the
  socket write errors the source logs. Each locked region is one atomic
  method, so interleavings between regions are not modelled.
- Timers are explicit calls: `WhiteboardClient.Board.LockTimerFired` (the
  50 ms lock release) and `WhiteboardServer.Server.SaveTimerFired` (the 3 s
  save). Stopping the save timer on the last disconnect leaves no trace in
  the model.
- Clocks are parameters (`now`, `time`). A JavaScript `Date` conversion of
  `createdAt` is taken as already converted.
- The database is abstract. In the whiteboard server it is a map from
  space id to the saved scene, and `saveWhiteboardState`'s create-or-update
  is a map update; its errors are not modelled. A failed user lookup on join
  reads as the zero-value user (the source logs and closes, then carries on
  with the zero value).
- The HTTP requests of the kanban hook are a `requestOk` parameter.
  `createTask`'s POST body and `SpaceID` parsing are not modelled.
- MainScene.Scene.Update: the physics body position is a parameter. The
  Phaser velocity, animation and camera calls are reduced to the returned
  `velocity` and the `shown` field.
- Floating point: positions are integers, and Go's float64 positions are
  integers too. MainScene floors the body position (`Math.floor`) as the
  source does. Canvas sizing and the player's on-screen rectangle are a
  parameter of `LegacyCanvas.Canvas`.
- Drawing is left out: images, `drawImage`, text, the map sprite's own
  frame counter (it has one frame and never moves), and the
  `player.sprites` guard (always set in the source).
- Unicode and string casing are left out: ids, names and statuses are
  plain `seq<char>`.
- web/src/components/space/KanbanBoard/types.ts declares `Task` with three
  statuses but not `TaskType`, the name the hook imports. Statuses are
  therefore arbitrary strings, which is what the `as` casts amount to at run
  time.
- The scene setup of web/src/pages/Space/mainscene.ts is not part of this
  model. Its key-priority and idle-frame logic is the same as in MainScene.
- The whiteboard's Redis channel `whiteboard:participants` is
  subscribed, but its participants messages name no `type` the subscriber
  treats specially. They are accepted and broadcast like any non-scene
  message (`WhiteboardServer.Server.OnPubSub`).
- SpaceServer.Server.Dispatch: its contract states only which state each
  channel may change. What each branch does is the contract of
  `StatusUpdate`, `HandleChat` and `Broadcast`.
- Presence.PresenceClient.OnMessage: the toast for player_left uses the
  corrected lookup `Presence.LeftName` (before the deletion), not the
  source's lookup after it, which is `Presence.LeftNameAsWritten` (see
  Findings).
- Presence.Apply: pubsub.go:265-288 sends `existing_players` with a null
  content when the joiner is alone in the space. In the client,
  `forEach` on null throws and the previous store stays. The model takes
  the content as a list, so a null content is not modelled.
- Decimal.ScanUint: Go's `Sscanf("%d")` skips leading spaces. The model
  gives no value for a room id that starts with a space.
- MainScene.Scene.Update: `limit` is an integer parameter. When
  `VITE_WS_RATE_LIMIT` is undefined, the comparison with it is always false
  and the source never sends; that case is not modelled.
- MainScene.Scene.Update: the early return when `this.cursors` is not yet
  set (MainScene.ts:186) is not modelled. Each tick is taken to have its
  cursor keys.
- WhiteboardServer.Server.Connect: src/cmd/app/main.go mounts only the
  stand-alone handler, so this server's connect path is never reached in
  the running program. It is modelled as written.
- ElementMerge.MergedRemote: its own contract states only the length. Its
  meaning is stated by `MergedRemoteAt` and `ReconcileShape`.

## Findings

| source | as written | input that shows it | evidently intended | confidence | as-written member | corrected member |
|---|---|---|---|---|---|---|
| web/src/hooks/useWebSocket.ts:65-69 | the player_left toast looks the name up in the copy the entry was just deleted from, so it always says "A player left the space" | store `{"7": Ada}`, envelope player_left for "7" | the departing player's name, looked up before the deletion ("Ada left the space") | not executed | Presence.LeftNameAsWritten (Presence.LeftNameAsWrittenIsAlwaysDefault, Presence.LeftNameCounterexample) | Presence.LeftName (used by Presence.PresenceClient.OnMessage) |
| src/redis/pubsub.go:228 | the space handler reads the `userId` local with `.(uint)`, but the auth middleware stores the token's `id` claim as the float64 the JWT library decodes (src/middleware/auth-middleware.go:32, 50), so the assertion fails and the handler returns | a token with `id` 7: the local holds float64 7, `.(uint)` gives ok false, and the join registers no player | the id read back as the number the middleware checked (`uint(id)`, the user 7) | not executed | SpaceServer.UserIdAsWritten (SpaceServer.AsWrittenNeverReadsMiddlewareId, SpaceServer.AuthenticatedJoinAsWritten) | SpaceServer.UserIdIntended (SpaceServer.IntendedReadsMiddlewareId, SpaceServer.AuthenticatedJoin) |
