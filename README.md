# Flower-garden room server: a verified model

`server.js` is the authoritative in-memory server of a cooperative
flower-collecting game. It keeps two process-wide tables: `rooms` maps a room
code to a room, and `players` maps a socket id to a lobby entry. Its socket
handlers do four things:

- create, join and leave rooms;
- start, restart and end a game in a room;
- apply in-game events to the room's game state: collecting flowers and
  power-ups, hitting bosses, spawning items, updating the clock;
- relay messages (movement, chat) without keeping any state.

This project models the handlers that change state, in the source's own
imperative form. Class `Registry.Server` holds the two tables as `map`
fields, and each handler is a method that checks the source's guards and
updates the tables in place. Each method's postcondition gives its new state
in terms of a specification function of the old state. The properties of
those functions are proved as lemmas. The invariant `Server.Valid()` is
preserved by every handler:

- every room has between 1 and 8 members;
- its owner is one of its members;
- it holds a game state exactly while `gameActive` is set;
- every player entry is filed under its own id.

Modules:

- `Common` (common.dfy): `Option` and `Find`, the first-match search behind `find` and `indexOf`.
- `Game` (game.dfy): the game state (`players` with scores, `flowers`, `powerUps`, `bosses`, `timeRemaining`) and its rules as functions, with the collect-once, scoring and boss-bonus lemmas.
- `Ranking` (ranking.dfy): the ranking that `endGame` broadcasts. It is a stable sort by non-increasing score; JavaScript's `Array.prototype.sort` is stable.
- `Rooms` (rooms.dfy): room and player records, the room invariant, what a departure does, and the initial game state.
- `Registry` (registry.dfy): class `Server` with one method per handler.

The source throws a `TypeError` in two places when the `players` table lacks
an entry, and the model reproduces the state each throw leaves behind:

- `createInitialGameState` finds a member with no entry. The start or restart
  then changes nothing (`InitialGameState` is `None`).
- The owner-transfer line `players[room.owner].isOwner = true` finds no entry
  for the new owner. The member removal and the new `room.owner` stay in
  place, and no `ownerChanged` event goes out (`NewOwner` is `None`).

Such entries can go missing because `leaveRoom` deletes the caller's entry
even when it names a room the caller is not in. They can also go missing
because one socket can create or join a second room.

Values the source emits are returned by the methods:

- `JoinRoom` returns the join outcome.
- `LeaveRoom` and `Disconnect` return the new owner announced by `ownerChanged`.
- `EndGame` returns the ranking.
- The collect and attack methods return whether their broadcast goes out.

The three join rejections are told apart in the model (`RoomNotFound`,
`RoomFull`, `GameInProgress`). The source sends all three to the client as
the same `roomNotFound` event.

A room holds at most 8 players (`MAX_PLAYERS_PER_ROOM`). The only size guard
in `startGame` rejects a room with fewer than one player (server.js:249), and
the room invariant already rules that case out.

## Model

| member | source | states |
|---|---|---|
| `Common.Find` | server.js:293 | The result is the index of the first element meeting the predicate, or None exactly when no element does (the semantics of `find`) |
| `Rooms.IndexOf` | server.js:199 | `indexOf`: the first position of the member, or None exactly when it is not a member |
| `Rooms.RemoveFirst` | server.js:199-202 | `splice(indexOf(id), 1)`: a non-member leaves the list unchanged. For a member, exactly its first occurrence is cut out, so the list shortens by one and the rest keep their order |
| `Rooms.RemoveFirstEffect` | server.js:199-202 | Splicing out the leaver removes exactly one occurrence of it (none if absent), shortens the list by one exactly when it was a member, and keeps the remaining members in join order |
| `Rooms.Leave` | server.js:199-223 | The room is gone exactly when no member remains. Otherwise the remaining members are the list with the leaver spliced out, the owner passes to the first of them only when the owner left, and the id and game fields are kept |
| `Rooms.LeaveDeletes` | server.js:213-218 | A departure deletes the room exactly when the leaver was its only member |
| `Rooms.LeaveKeepsRoomValid` | server.js:199-223 | After a departure the remaining room is non-empty and within capacity, and its owner is a member: the first remaining member if the owner left, the same owner otherwise. The order of the others is kept and the game fields are untouched |
| `Rooms.JoinThenLeave` | server.js:155-223 | A newcomer who joins and then leaves restores the room's members and owner exactly |
| `Rooms.TableAfterLeave` | server.js:205-223 | The leaver's entry is deleted. An announced new owner is flagged as owner, only that entry's `isOwner` flag may change, and every other entry is unchanged |
| `Rooms.NewOwner` | server.js:221-226 | `ownerChanged` names a new owner exactly when the owner left a room that survives and the first remaining member has an entry. The name is that member, who is not the leaver |
| `Rooms.RoomsAfterLeave` | server.js:213-218 | The room is deleted from the rooms table exactly when it empties, and otherwise holds what remains. Every other room is unchanged |
| `Rooms.GamePlayers` | server.js:61-71 | One entry per member, in member order, built from that member's table entry with score 0. None exactly when some member has no entry |
| `Rooms.InitialFlowerField` | server.js:73-84 | Exactly 50 flowers, the one at position i having id i and not collected |
| `Rooms.InitialGameState` | server.js:45-87 | A state exists exactly when every member has an entry. It then holds 50 uncollected flowers with ids 0 to 49, no power-ups or bosses, 900 seconds on the clock, and it satisfies the game invariant |
| `Rooms.StartingLineup` | server.js:61-70 | When entries are filed under their own ids, the new game lists exactly the members in member order, with their names and colours, all scores 0 and a total of 0 |
| `Game.AddScore` | server.js:298-302 | Awarding points keeps the list's length and every entry's id, name and colour, and leaves the entries of other players unchanged |
| `Game.AddScoreEffect` | server.js:299-302 | Awarding points raises the score of that player's first entry by exactly that amount, keeping its other fields, and raises the total by that amount, or by nothing when the player has no entry. Every other entry is unchanged, later ones with the same id included |
| `Game.CollectFlower` | server.js:293-302 | The collection keeps the game invariant (collected iff a collector is recorded) and leaves power-ups, bosses and clock unchanged |
| `Game.CollectFlowerOnce` | server.js:294-296 | Collecting the same flower again, by anyone, is a no-op |
| `Game.CollectFlowerMarks` | server.js:293-296 | A collectible flower, the first with the given id, flips to collected by the `playerId` the message names and is no longer collectible, and every other flower is untouched. Otherwise nothing changes |
| `Game.CollectFlowerScores` | server.js:298-302 | The collector's first entry gains exactly 1 in its score, only on an effective collection, and keeps its id, name and colour. Every other entry is unchanged, later ones with the collector's id included. The total grows by 1 exactly when the flower was collectible and the collector has an entry |
| `Game.CollectPowerUp` | server.js:371-375 | Keeps the game invariant and changes neither scores, flowers nor bosses |
| `Game.CollectPowerUpOnce` | server.js:371-375 | A power-up is collected at most once and records its first collector. A missing or collected one is left alone, the list keeps its length, and no other power-up changes |
| `Game.DamageMultiplier` | server.js:420 | `damageMultiplier \|\| 1`: a given non-zero multiplier is used as is, a missing or zero one becomes 1, and the result is never 0 |
| `Game.Bonus` | server.js:436 | The defeat bonus is 20 or 30, and it is 30 exactly when the multiplier is above 1 |
| `Game.AttackBoss` | server.js:426-438 | A hit keeps the invariant that a boss is defeated exactly when its health is at most 0, and keeps the boss list's length and ids |
| `Game.AttackBossEffect` | server.js:426-438 | A missing or defeated boss leaves the game untouched. Otherwise the boss loses exactly the multiplier, is defeated iff health is at most 0, keeps its id and maximum health, and other bosses are untouched. The hitter's first entry gains the 20 or 30 bonus in its score exactly when this hit defeated the boss and keeps its other fields. Every other entry is unchanged, later ones with the hitter's id included, and the total grows by that bonus |
| `Game.BossBonusOnce` | server.js:427-437 | Over any series of hits the total score grows by 0, 20 or 30. It grows only if the boss was alive before and is defeated after, and a defeated boss absorbs all hits unchanged |
| `Game.NewFlowers` | server.js:321-329 | Spawned flowers: one per given id, in order, uncollected |
| `Game.SpawnFlowers` | server.js:321-329 | Existing flowers stay in front, the new uncollected ones follow, and the game invariant holds |
| `Game.SpawnPowerUp` | server.js:346-352 | Appending an uncollected power-up keeps the game invariant |
| `Game.SpawnBoss` | server.js:393-407 | Appending a boss with health 50 that is not defeated keeps the game invariant |
| `Ranking.InsertSorted` | server.js:472 | Inserting a player into a ranking ordered by non-increasing score keeps it ordered |
| `Ranking.InsertPermutation` | server.js:472 | Inserting adds exactly that player to the ranking |
| `Ranking.InsertStable` | server.js:472 | The inserted player goes in front of every entry with the same score |
| `Ranking.SortByScoreSorted` | server.js:472 | The ranking is ordered by non-increasing score |
| `Ranking.SortByScorePermutation` | server.js:472 | The ranking is a permutation of the game's players |
| `Ranking.SortByScoreStable` | server.js:472 | Players with equal scores keep their game order (stable sort) |
| `Registry.Server.constructor` | server.js:36-37 | The server starts with both tables empty and valid |
| `Registry.Server.FreshCode` | server.js:96-99 | The code returned is unused, and it is the first unused one of the generated codes |
| `Registry.Server.CreateRoom` | server.js:94-119 | The new code was unused. The room has the creator as sole member and owner, no active game and no state. The creator's entry has colour `COLORS[0]` and `isOwner` set |
| `Registry.Server.JoinRoom` | server.js:135-166 | The three rejections, in the source's order, change nothing. A successful join appends the joiner after the existing members, leaves the owner alone, and gives the joiner colour `COLORS[n % 8]`, where n is the old member count, with `isOwner` false |
| `Registry.Server.Depart` | server.js:199-223 | Removes the member and its entry, deletes an emptied room, hands an owner's room to the first remaining member, and keeps the server invariant |
| `Registry.Server.LeaveRoom` | server.js:191-223 | No effect for an unknown room. Otherwise it performs the departure above |
| `Registry.Server.Disconnect` | server.js:522-552 | Uses the room in the player's entry. No effect when the entry or the room is missing. Otherwise it performs the departure above |
| `Registry.Server.CreateInitialGameState` | server.js:45-87 | Its two loops compute exactly `InitialGameState` of the room's members and the players table |
| `Registry.Server.StartGame` | server.js:243-254 | Takes effect exactly for the owner of an existing inactive room whose members all have entries. The room is then active with a fresh initial state, and otherwise nothing changes |
| `Registry.Server.RestartGame` | server.js:487-497 | As `StartGame` but also replaces a running game |
| `Registry.Server.EndGame` | server.js:464-476 | For the owner of a room with a running game it returns the ranking of the game's players, and the room becomes inactive with no state. Otherwise nothing changes |
| `Registry.Server.CollectFlower` | server.js:284-302 | Ignored unless a game is running. Otherwise the room's game becomes `Game.CollectFlower` of it, and the method reports whether the flower was collectible |
| `Registry.Server.CollectPowerUp` | server.js:361-375 | Ignored unless a game is running. Otherwise it applies `Game.CollectPowerUp` and reports whether the power-up was collectible |
| `Registry.Server.AttackBoss` | server.js:416-438 | Ignored unless a game is running. Otherwise it applies `Game.AttackBoss` with the defaulted multiplier and reports whether the boss existed undefeated |
| `Registry.Server.SpawnFlowers` | server.js:313-329 | Owner only and while a game is running: its loop appends one uncollected flower per id |
| `Registry.Server.SpawnPowerUp` | server.js:338-352 | Owner only and while a game is running: appends an uncollected power-up |
| `Registry.Server.SpawnBoss` | server.js:386-407 | Owner only and while a game is running: appends a full-health boss |
| `Registry.Server.UpdateTime` | server.js:448-455 | Owner only and while a game is running: stores the new remaining time |

## Left out

- Transport and output: the Express and HTTP setup, the static routes, `server.listen`, socket `join`/`leave`, every `emit` and every `console.log` (server.js:1-18, server.js:572-575). Emitted payloads appear only as method results.
- Random room codes: `generateRoomCode` (server.js:40-42) is replaced by the parameter `codes`, the sequence of codes the generator would produce.
- Registry.Server.FreshCode: requires that `codes` contains an unused code, because the source's loop would not terminate otherwise. Registry.Server.CreateRoom inherits that requirement.
- Floating-point geometry: player and flower positions, the flower `type`, and the play area of the initial state (server.js:52-57, server.js:66-67, server.js:75-81) are not modelled.
- Pure relays: `playerMove` and `chatMessage` (server.js:265-281, server.js:508-519) keep no state.
- Copied payload fields: the position and type fields copied by the spawn handlers, and a boss's special-attack fields, are not modelled.
- Message fields: every field a handler reads from its message (`roomId`, `playerId`, `flowerId`, `powerUpId`, `bossId`, `playerName`) is assumed present and of the expected type. A `collectFlower` or `collectPowerUp` message without `playerId` makes the source mark the item collected with `collectedBy` undefined (server.js:287, server.js:295-296, server.js:364, server.js:373-374). The model's invariant that an item is collected exactly when a collector is recorded relies on this assumption.
- Numbers: JavaScript numbers are modelled as integers. Fractional, `NaN` or non-numeric multipliers and ids are not modelled; a `null` or missing multiplier is `None`.
- Aliasing: rooms and game states are values inside the server's tables, not shared objects. The `gameStarted` payload and `room.gameState` being one object is not modelled.
- The record's `socketId` field always equals the player id and is not stored.
- Inherited `Object` properties: `rooms` is a plain JavaScript object, so a room code such as `constructor`, `toString` or `__proto__` finds an inherited value. `joinRoom` then throws at `room.players.length` (server.js:144) and `leaveRoom` at `room.players.indexOf` (server.js:199), both without changing state and without emitting anything. The model treats such codes as missing: `JoinRoom` returns `RoomNotFound` and `LeaveRoom` does nothing. The other handlers stop at their `gameActive` or owner guard for such a code, as the model does.
- Process crash: after one of the two `TypeError`s above, the model keeps the state the throw leaves. Whether the process survives the exception is not modelled.
