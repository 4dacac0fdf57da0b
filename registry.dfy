/** The server's two process-wide tables and its socket handlers. Each
    handler is a method of `Server` that checks the source's guards and then
    updates `rooms` and `players` in place; what it returns is the payload of
    the reply or broadcast that the source emits. */
module Registry {
  import opened Common
  import opened Game
  import opened Ranking
  import opened Rooms

  /** A game is running in the room `code`. */
  predicate Active(rooms: map<RoomCode, Room>, code: RoomCode) {
    code in rooms && rooms[code].gameActive && rooms[code].gameState.Some?
  }

  /** A game is running in `code` and `caller` owns the room. */
  predicate OwnerActive(rooms: map<RoomCode, Room>, code: RoomCode, caller: PlayerId) {
    Active(rooms, code) && rooms[code].owner == caller
  }

  function GameOf(rooms: map<RoomCode, Room>, code: RoomCode): GameState
    requires Active(rooms, code)
  {
    rooms[code].gameState.value
  }

  /** The rooms table with the game of `code` replaced by `g`. */
  function WithGame(rooms: map<RoomCode, Room>, code: RoomCode, g: GameState): map<RoomCode, Room>
    requires code in rooms
  {
    rooms[code := rooms[code].(gameState := Some(g))]
  }

  class Server {
    var rooms: map<RoomCode, Room>
    var players: map<PlayerId, Player>

    /** Every stored room keeps its invariant, and every player entry is filed
        under its own id. */
    ghost predicate Valid()
      reads this
    {
      && (forall code :: code in rooms ==> RoomValid(code, rooms[code]))
      && (forall pid :: pid in players ==> players[pid].id == pid)
    }

    constructor ()
      ensures Valid() && rooms == map[] && players == map[]
    {
      rooms := map[];
      players := map[];
    }

    // -------------------------------------------------------------------------
    // Lobby

    /** The `do … while (rooms[roomId])` loop of `createRoom`: draws codes
        from `codes`, the generator's output in order, until one is unused. */
    method FreshCode(codes: seq<RoomCode>) returns (code: RoomCode)
      requires exists i :: 0 <= i < |codes| && codes[i] !in rooms
      ensures code !in rooms
      ensures exists i :: 0 <= i < |codes| && codes[i] == code && forall j :: 0 <= j < i ==> codes[j] in rooms
    {
      var i := 0;
      code := codes[0];
      while code in rooms
        invariant 0 <= i < |codes| && code == codes[i]
        invariant forall j :: 0 <= j < i ==> codes[j] in rooms
        decreases |codes| - i
      {
        i := i + 1;
        code := codes[i];
      }
    }

    /** `createRoom`: a room under a fresh code, with the creator as its only
        member and owner and no game. */
    method CreateRoom(pid: PlayerId, name: string, codes: seq<RoomCode>) returns (code: RoomCode)
      requires Valid()
      requires exists i :: 0 <= i < |codes| && codes[i] !in rooms
      modifies this
      ensures Valid()
      ensures code !in old(rooms) && code in codes
      ensures rooms == old(rooms)[code := Room(code, pid, [pid], false, None)]
      ensures players == old(players)[pid := Player(pid, name, code, COLORS[0], true)]
    {
      code := FreshCode(codes);
      players := players[pid := Player(pid, name, code, COLORS[0], true)];
      rooms := rooms[code := Room(code, pid, [pid], false, None)];
    }

    /** `joinRoom`: rejected, with nothing changed, when the room is missing,
        full or playing; otherwise the joiner is appended to the members and
        gets the colour of its position. */
    method JoinRoom(pid: PlayerId, name: string, code: RoomCode) returns (outcome: JoinOutcome)
      requires Valid()
      modifies this
      ensures Valid()
      ensures outcome == RoomNotFound <==> code !in old(rooms)
      ensures code in old(rooms) ==>
        outcome == (if |old(rooms)[code].players| >= MAX_PLAYERS_PER_ROOM then RoomFull
                    else if old(rooms)[code].gameActive then GameInProgress
                    else Joined)
      ensures outcome != Joined ==> rooms == old(rooms) && players == old(players)
      ensures outcome == Joined ==>
        var room := old(rooms)[code];
        && rooms == old(rooms)[code := room.(players := room.players + [pid])]
        && players == old(players)[pid := Player(pid, name, code, COLORS[|room.players| % |COLORS|], false)]
    {
      if code !in rooms {
        return RoomNotFound;
      }
      var room := rooms[code];
      if |room.players| >= MAX_PLAYERS_PER_ROOM {
        return RoomFull;
      }
      if room.gameActive {
        return GameInProgress;
      }
      players := players[pid := Player(pid, name, code, COLORS[|room.players| % |COLORS|], false)];
      rooms := rooms[code := room.(players := room.players + [pid])];
      outcome := Joined;
    }

    /** What `leaveRoom` and `disconnect` share once the room is known: remove
        the member and its entry, delete an emptied room, otherwise hand an
        owner's room to the first remaining member. Returns the new owner that
        `ownerChanged` announces. */
    method Depart(code: RoomCode, pid: PlayerId) returns (newOwner: Option<PlayerId>)
      requires Valid() && code in rooms
      modifies this
      ensures Valid()
      ensures rooms == RoomsAfterLeave(old(rooms), code, pid)
      ensures players == TableAfterLeave(old(players), old(rooms)[code], pid)
      ensures newOwner == NewOwner(old(players), old(rooms)[code], pid)
    {
      var room := rooms[code];
      LeaveKeepsRoomValid(code, room, pid);
      var rest := room.players;
      var index := IndexOf(rest, pid);
      if index.Some? {
        rest := rest[..index.value] + rest[index.value + 1..];
      }
      players := players - {pid};
      newOwner := None;
      if rest == [] {
        rooms := rooms - {code};
        return;
      }
      if room.owner == pid {
        var owner := rest[0];
        rooms := rooms[code := room.(players := rest, owner := owner)];
        // The source's `players[room.owner].isOwner = true` throws when the
        // new owner has no entry; the changes made so far stay.
        if owner in players {
          players := players[owner := players[owner].(isOwner := true)];
          newOwner := Some(owner);
        }
      } else {
        rooms := rooms[code := room.(players := rest)];
      }
    }

    /** `leaveRoom`: nothing happens when the named room does not exist. */
    method LeaveRoom(pid: PlayerId, code: RoomCode) returns (newOwner: Option<PlayerId>)
      requires Valid()
      modifies this
      ensures Valid()
      ensures code !in old(rooms) ==> rooms == old(rooms) && players == old(players) && newOwner == None
      ensures code in old(rooms) ==>
        && rooms == RoomsAfterLeave(old(rooms), code, pid)
        && players == TableAfterLeave(old(players), old(rooms)[code], pid)
        && newOwner == NewOwner(old(players), old(rooms)[code], pid)
    {
      if code !in rooms {
        return None;
      }
      newOwner := Depart(code, pid);
    }

    /** `disconnect`: the room is the one in the player's entry; nothing
        happens when the player has no entry or that room no longer exists. */
    method Disconnect(pid: PlayerId) returns (newOwner: Option<PlayerId>)
      requires Valid()
      modifies this
      ensures Valid()
      ensures pid !in old(players) || old(players)[pid].roomId !in old(rooms) ==>
        rooms == old(rooms) && players == old(players) && newOwner == None
      ensures pid in old(players) && old(players)[pid].roomId in old(rooms) ==>
        var code := old(players)[pid].roomId;
        && rooms == RoomsAfterLeave(old(rooms), code, pid)
        && players == TableAfterLeave(old(players), old(rooms)[code], pid)
        && newOwner == NewOwner(old(players), old(rooms)[code], pid)
    {
      if pid !in players {
        return None;
      }
      var code := players[pid].roomId;
      if code !in rooms {
        return None;
      }
      newOwner := Depart(code, pid);
    }

    // -------------------------------------------------------------------------
    // Game sessions

    /** `createInitialGameState`: one entry per member, in member order, with
        score 0, and fifty fresh flowers; None where the source throws because
        a member has no entry in the players table. */
    method CreateInitialGameState(room: Room) returns (g: Option<GameState>)
      ensures g == InitialGameState(room.players, players)
    {
      var ps: seq<GamePlayer> := [];
      for k := 0 to |room.players|
        invariant |ps| == k
        invariant forall i :: 0 <= i < k ==> room.players[i] in players
        invariant forall i :: 0 <= i < k ==>
          ps[i] == GamePlayer(players[room.players[i]].id, players[room.players[i]].name,
                              players[room.players[i]].color, 0)
      {
        var pid := room.players[k];
        if pid !in players {
          return None;
        }
        var p := players[pid];
        ps := ps + [GamePlayer(p.id, p.name, p.color, 0)];
      }
      var fs: seq<Flower> := [];
      for i := 0 to INITIAL_FLOWERS
        invariant |fs| == i
        invariant forall j :: 0 <= j < i ==> fs[j] == Flower(j, false, None)
      {
        fs := fs + [Flower(i, false, None)];
      }
      assert fs == InitialFlowerField();
      var lineup := GamePlayers(room.players, players);
      assert lineup.Some?;
      assert |lineup.value| == |ps|;
      assert forall i :: 0 <= i < |ps| ==> lineup.value[i] == ps[i];
      assert lineup.value == ps;
      g := Some(GameState(ps, fs, [], [], GAME_TIME));
    }

    /** `startGame`: only the owner of an existing room without a running game
        may start one; the room then holds a fresh game state. */
    method StartGame(caller: PlayerId, code: RoomCode) returns (started: bool)
      requires Valid()
      modifies this
      ensures Valid()
      ensures players == old(players)
      ensures started <==>
        && code in old(rooms) && !old(rooms)[code].gameActive && old(rooms)[code].owner == caller
        && InitialGameState(old(rooms)[code].players, old(players)).Some?
      ensures started ==>
        rooms == old(rooms)[code := old(rooms)[code].(
          gameActive := true, gameState := InitialGameState(old(rooms)[code].players, old(players)))]
      ensures !started ==> rooms == old(rooms)
    {
      if code !in rooms || rooms[code].gameActive || rooms[code].owner != caller || |rooms[code].players| < 1 {
        return false;
      }
      var room := rooms[code];
      var g := CreateInitialGameState(room);
      if g.None? {
        return false;
      }
      rooms := rooms[code := room.(gameActive := true, gameState := g)];
      started := true;
    }

    /** `restartGame`: like `startGame` but without the check that no game is
        running, so a running game is replaced by a fresh one. */
    method RestartGame(caller: PlayerId, code: RoomCode) returns (started: bool)
      requires Valid()
      modifies this
      ensures Valid()
      ensures players == old(players)
      ensures started <==>
        && code in old(rooms) && old(rooms)[code].owner == caller
        && InitialGameState(old(rooms)[code].players, old(players)).Some?
      ensures started ==>
        rooms == old(rooms)[code := old(rooms)[code].(
          gameActive := true, gameState := InitialGameState(old(rooms)[code].players, old(players)))]
      ensures !started ==> rooms == old(rooms)
    {
      if code !in rooms || rooms[code].owner != caller {
        return false;
      }
      var room := rooms[code];
      var g := CreateInitialGameState(room);
      if g.None? {
        return false;
      }
      rooms := rooms[code := room.(gameActive := true, gameState := g)];
      started := true;
    }

    /** `endGame`: the owner ends a running game; the players ranked by score
        are returned and the room has no game any more. */
    method EndGame(caller: PlayerId, code: RoomCode) returns (winners: Option<seq<GamePlayer>>)
      requires Valid()
      modifies this
      ensures Valid()
      ensures players == old(players)
      ensures winners.Some? <==> OwnerActive(old(rooms), code, caller)
      ensures OwnerActive(old(rooms), code, caller) ==>
        && winners.value == SortByScore(GameOf(old(rooms), code).players)
        && rooms == old(rooms)[code := old(rooms)[code].(gameActive := false, gameState := None)]
      ensures !OwnerActive(old(rooms), code, caller) ==> rooms == old(rooms)
    {
      if code !in rooms || !rooms[code].gameActive || rooms[code].owner != caller {
        return None;
      }
      var room := rooms[code];
      winners := Some(SortByScore(room.gameState.value.players));
      rooms := rooms[code := room.(gameActive := false, gameState := None)];
    }

    // -------------------------------------------------------------------------
    // In-game events (ignored unless a game is running)

    /** `collectFlower`: returns whether `flowerCollected` is broadcast. */
    method CollectFlower(code: RoomCode, fid: ItemId, pid: PlayerId) returns (collected: bool)
      requires Valid()
      modifies this
      ensures Valid()
      ensures players == old(players)
      ensures collected <==> Active(old(rooms), code) && FlowerCollectible(GameOf(old(rooms), code), fid)
      ensures rooms == if Active(old(rooms), code)
                       then WithGame(old(rooms), code, Game.CollectFlower(GameOf(old(rooms), code), fid, pid))
                       else old(rooms)
    {
      if code !in rooms || !rooms[code].gameActive {
        return false;
      }
      var g := rooms[code].gameState.value;
      collected := FlowerCollectible(g, fid);
      rooms := WithGame(rooms, code, Game.CollectFlower(g, fid, pid));
    }

    /** `collectPowerUp`: returns whether `powerUpCollected` is broadcast. */
    method CollectPowerUp(code: RoomCode, id: ItemId, pid: PlayerId) returns (collected: bool)
      requires Valid()
      modifies this
      ensures Valid()
      ensures players == old(players)
      ensures collected <==> Active(old(rooms), code) && PowerUpCollectible(GameOf(old(rooms), code), id)
      ensures rooms == if Active(old(rooms), code)
                       then WithGame(old(rooms), code, Game.CollectPowerUp(GameOf(old(rooms), code), id, pid))
                       else old(rooms)
    {
      if code !in rooms || !rooms[code].gameActive {
        return false;
      }
      var g := rooms[code].gameState.value;
      collected := PowerUpCollectible(g, id);
      rooms := WithGame(rooms, code, Game.CollectPowerUp(g, id, pid));
    }

    /** `attackBoss`: `multiplier` is the message's `damageMultiplier` field.
        Returns whether `bossUpdated` is broadcast (the boss exists and was not
        yet defeated). */
    method AttackBoss(code: RoomCode, bossId: ItemId, pid: PlayerId, multiplier: Option<int>)
      returns (updated: bool)
      requires Valid()
      modifies this
      ensures Valid()
      ensures players == old(players)
      ensures updated <==>
        && Active(old(rooms), code)
        && var g := GameOf(old(rooms), code);
           BossIndex(g.bosses, bossId).Some? && !g.bosses[BossIndex(g.bosses, bossId).value].defeated
      ensures rooms == if Active(old(rooms), code)
                       then WithGame(old(rooms), code,
                              Game.AttackBoss(GameOf(old(rooms), code), bossId, pid, DamageMultiplier(multiplier)))
                       else old(rooms)
    {
      if code !in rooms || !rooms[code].gameActive {
        return false;
      }
      var g := rooms[code].gameState.value;
      var index := BossIndex(g.bosses, bossId);
      updated := index.Some? && !g.bosses[index.value].defeated;
      rooms := WithGame(rooms, code, Game.AttackBoss(g, bossId, pid, DamageMultiplier(multiplier)));
    }

    /** `spawnFlowers` (owner only): appends one uncollected flower per id. */
    method SpawnFlowers(caller: PlayerId, code: RoomCode, ids: seq<ItemId>)
      requires Valid()
      modifies this
      ensures Valid()
      ensures players == old(players)
      ensures rooms == if OwnerActive(old(rooms), code, caller)
                       then WithGame(old(rooms), code, Game.SpawnFlowers(GameOf(old(rooms), code), ids))
                       else old(rooms)
    {
      if code !in rooms || !rooms[code].gameActive || rooms[code].owner != caller {
        return;
      }
      var g := rooms[code].gameState.value;
      var fs := g.flowers;
      for k := 0 to |ids|
        invariant |fs| == |g.flowers| + k
        invariant fs[..|g.flowers|] == g.flowers
        invariant forall j :: 0 <= j < k ==> fs[|g.flowers| + j] == Flower(ids[j], false, None)
      {
        fs := fs + [Flower(ids[k], false, None)];
      }
      assert fs == g.flowers + NewFlowers(ids);
      rooms := WithGame(rooms, code, g.(flowers := fs));
    }

    /** `spawnPowerUp` (owner only): appends one uncollected power-up. */
    method SpawnPowerUp(caller: PlayerId, code: RoomCode, id: ItemId)
      requires Valid()
      modifies this
      ensures Valid()
      ensures players == old(players)
      ensures rooms == if OwnerActive(old(rooms), code, caller)
                       then WithGame(old(rooms), code, Game.SpawnPowerUp(GameOf(old(rooms), code), id))
                       else old(rooms)
    {
      if code !in rooms || !rooms[code].gameActive || rooms[code].owner != caller {
        return;
      }
      rooms := WithGame(rooms, code, Game.SpawnPowerUp(rooms[code].gameState.value, id));
    }

    /** `spawnBoss` (owner only): appends a boss with full health. */
    method SpawnBoss(caller: PlayerId, code: RoomCode, id: ItemId)
      requires Valid()
      modifies this
      ensures Valid()
      ensures players == old(players)
      ensures rooms == if OwnerActive(old(rooms), code, caller)
                       then WithGame(old(rooms), code, Game.SpawnBoss(GameOf(old(rooms), code), id))
                       else old(rooms)
    {
      if code !in rooms || !rooms[code].gameActive || rooms[code].owner != caller {
        return;
      }
      rooms := WithGame(rooms, code, Game.SpawnBoss(rooms[code].gameState.value, id));
    }

    /** `updateTime` (owner only): stores the owner's clock reading. */
    method UpdateTime(caller: PlayerId, code: RoomCode, timeRemaining: int)
      requires Valid()
      modifies this
      ensures Valid()
      ensures players == old(players)
      ensures rooms == if OwnerActive(old(rooms), code, caller)
                       then WithGame(old(rooms), code, GameOf(old(rooms), code).(timeRemaining := timeRemaining))
                       else old(rooms)
    {
      if code !in rooms || !rooms[code].gameActive || rooms[code].owner != caller {
        return;
      }
      rooms := WithGame(rooms, code, rooms[code].gameState.value.(timeRemaining := timeRemaining));
    }
  }
}
