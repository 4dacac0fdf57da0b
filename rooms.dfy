/** Rooms and lobby players as the server stores them, the invariant every
    room keeps, and what a departure and a game start do to a room. The
    `Server` class in module Registry applies these to its tables. */
module Rooms {
  import opened Common
  import opened Game

  type RoomCode = string

  const MAX_PLAYERS_PER_ROOM: nat := 8
  const COLORS: seq<string> := [
    "#FF6B8B", "#64B5F6", "#81C784", "#FFD54F",
    "#BA68C8", "#4FC3F7", "#AED581", "#FF9E80"
  ]

  /** An entry of the process-wide `players` table (the socket id is the
      player id, so it is not stored twice). */
  datatype Player = Player(id: PlayerId, name: string, roomId: RoomCode, color: string, isOwner: bool)

  /** An entry of the process-wide `rooms` table; `players` lists member ids
      in join order. */
  datatype Room = Room(
    id: RoomCode,
    owner: PlayerId,
    players: seq<PlayerId>,
    gameActive: bool,
    gameState: Option<GameState>)

  /** The outcome of `joinRoom`. The source answers all three rejections with
      the same `roomNotFound` event; the model keeps them apart. */
  datatype JoinOutcome = Joined | RoomNotFound | RoomFull | GameInProgress

  /** A stored room is never empty, never over capacity, its owner is one of
      its members, and it has a game state exactly while a game is active. */
  predicate RoomValid(code: RoomCode, r: Room) {
    && r.id == code
    && 1 <= |r.players| <= MAX_PLAYERS_PER_ROOM
    && r.owner in r.players
    && (r.gameActive <==> r.gameState.Some?)
    && (r.gameState.Some? ==> GameValid(r.gameState.value))
  }

  // ---------------------------------------------------------------------------
  // Removing a member (`indexOf` followed by `splice(index, 1)`)

  function IndexOf(s: seq<PlayerId>, x: PlayerId): (r: Option<nat>)
    ensures r.Some? ==> r.value < |s| && s[r.value] == x && x !in s[..r.value]
    ensures r.None? <==> x !in s
  {
    Find(s, (y: PlayerId) => y == x)
  }

  function RemoveFirst(s: seq<PlayerId>, x: PlayerId): (r: seq<PlayerId>)
    ensures x !in s ==> r == s
    ensures x in s ==> |r| == |s| - 1
    ensures x in s ==> exists i :: 0 <= i < |s| && s[i] == x && x !in s[..i] && r == s[..i] + s[i + 1..]
  {
    match IndexOf(s, x)
    case None => s
    case Some(i) => s[..i] + s[i + 1..]
  }

  /** `a` is `b` with some elements deleted, the rest in their order. */
  ghost predicate Subsequence(a: seq<PlayerId>, b: seq<PlayerId>)
    decreases |b|
  {
    if a == [] then true
    else if b == [] then false
    else (a[0] == b[0] && Subsequence(a[1..], b[1..])) || Subsequence(a, b[1..])
  }

  lemma {:induction false} SubsequenceRefl(s: seq<PlayerId>)
    ensures Subsequence(s, s)
    decreases |s|
  {
    if s != [] {
      SubsequenceRefl(s[1..]);
    }
  }

  lemma {:induction false} SubsequenceDrop(s: seq<PlayerId>, i: nat)
    requires i < |s|
    ensures Subsequence(s[..i] + s[i + 1..], s)
    decreases i
  {
    var a := s[..i] + s[i + 1..];
    if i == 0 {
      assert a == s[1..];
      if a != [] {
        SubsequenceRefl(a);
      }
    } else {
      SubsequenceDrop(s[1..], i - 1);
      assert a[0] == s[0];
      assert a[1..] == s[1..][..i - 1] + s[1..][i..];
    }
  }

  /** Removing a member takes out exactly one occurrence of it (none when it
      is absent) and keeps everybody else in join order. */
  lemma RemoveFirstEffect(s: seq<PlayerId>, x: PlayerId)
    ensures multiset(RemoveFirst(s, x)) == multiset(s) - multiset{x}
    ensures |RemoveFirst(s, x)| == if x in s then |s| - 1 else |s|
    ensures Subsequence(RemoveFirst(s, x), s)
  {
    match IndexOf(s, x)
    case None =>
      assert multiset(s)[x] == 0;
      SubsequenceRefl(s);
    case Some(i) =>
      assert RemoveFirst(s, x) == s[..i] + s[i + 1..];
      MultisetDrop(s, i);
      SubsequenceDrop(s, i);
  }

  lemma MultisetDrop(s: seq<PlayerId>, i: nat)
    requires i < |s|
    ensures multiset(s[..i] + s[i + 1..]) == multiset(s) - multiset{s[i]}
  {
    assert s == s[..i] + [s[i]] + s[i + 1..];
  }

  // ---------------------------------------------------------------------------
  // Departure (`leaveRoom` and `disconnect`)

  /** The room after `pid` leaves it, or None when it has become empty and is
      deleted. An owner who leaves hands the room to the first remaining
      member. */
  function Leave(room: Room, pid: PlayerId): (r: Option<Room>)
    ensures r.None? <==> RemoveFirst(room.players, pid) == []
    ensures r.Some? ==>
      && r.value.players == RemoveFirst(room.players, pid)
      && r.value.owner == (if room.owner == pid then r.value.players[0] else room.owner)
      && r.value.id == room.id && r.value.gameActive == room.gameActive && r.value.gameState == room.gameState
  {
    var rest := RemoveFirst(room.players, pid);
    if rest == [] then None
    else if room.owner == pid then Some(room.(players := rest, owner := rest[0]))
    else Some(room.(players := rest))
  }

  /** A room is deleted exactly when its last member leaves. */
  lemma LeaveDeletes(room: Room, pid: PlayerId)
    requires |room.players| >= 1
    ensures Leave(room, pid).None? <==> room.players == [pid]
  {
  }

  /** A departure keeps the room invariant: the room that remains is not
      empty, its owner is still a member (the first remaining member when the
      owner left, the same owner otherwise), the other members keep their
      order, and the game is untouched. */
  lemma LeaveKeepsRoomValid(code: RoomCode, room: Room, pid: PlayerId)
    requires RoomValid(code, room)
    ensures Leave(room, pid).Some? ==>
      var r := Leave(room, pid).value;
      && RoomValid(code, r)
      && r.owner == (if room.owner == pid then r.players[0] else room.owner)
      && Subsequence(r.players, room.players)
      && |r.players| == (if pid in room.players then |room.players| - 1 else |room.players|)
      && r.gameActive == room.gameActive && r.gameState == room.gameState
  {
    var rest := RemoveFirst(room.players, pid);
    RemoveFirstEffect(room.players, pid);
    if rest != [] && room.owner != pid {
      assert multiset(room.players)[room.owner] > 0;
      assert multiset(rest)[room.owner] == multiset(room.players)[room.owner];
      assert room.owner in multiset(rest);
    }
  }

  /** Joining and then leaving again restores a room: appending a newcomer to
      the members and removing it gives back the same members and owner. */
  lemma JoinThenLeave(code: RoomCode, room: Room, pid: PlayerId)
    requires RoomValid(code, room) && pid !in room.players
    ensures Leave(room.(players := room.players + [pid]), pid) == Some(room)
  {
    var s := room.players + [pid];
    assert s[|room.players|] == pid && s[..|room.players|] == room.players;
    assert IndexOf(s, pid) == Some(|room.players|);
    assert RemoveFirst(s, pid) == room.players;
  }

  /** The players table after `pid` leaves `room`: `pid`'s entry is deleted,
      a new owner's entry, when it still exists, is flagged as owner, and
      every other entry is left as it was. */
  function TableAfterLeave(table: map<PlayerId, Player>, room: Room, pid: PlayerId): (t: map<PlayerId, Player>)
    ensures t.Keys == table.Keys - {pid}
    ensures forall p :: p in t ==> t[p].(isOwner := table[p].isOwner) == table[p]
    ensures NewOwner(table, room, pid).Some? ==> t[NewOwner(table, room, pid).value].isOwner
    ensures forall p :: p in t && Some(p) != NewOwner(table, room, pid) ==> t[p] == table[p]
  {
    var t0 := table - {pid};
    match Leave(room, pid)
    case None => t0
    case Some(r) =>
      if room.owner == pid && r.owner in t0 then t0[r.owner := t0[r.owner].(isOwner := true)]
      else t0
  }

  /** The new owner that `ownerChanged` announces; None when ownership did not
      change, or when the new owner has no entry (where the source throws). */
  function NewOwner(table: map<PlayerId, Player>, room: Room, pid: PlayerId): (r: Option<PlayerId>)
    ensures r.Some? <==>
      room.owner == pid && Leave(room, pid).Some? && Leave(room, pid).value.owner in table
      && Leave(room, pid).value.owner != pid
    ensures r.Some? ==> r.value == Leave(room, pid).value.owner && r.value in table && r.value != pid
  {
    match Leave(room, pid)
    case None => None
    case Some(r) => if room.owner == pid && r.owner in table && r.owner != pid then Some(r.owner) else None
  }

  /** The rooms table after `pid` leaves room `code`: an emptied room is
      deleted, otherwise it is replaced by what remains; other rooms are
      untouched. */
  function RoomsAfterLeave(rooms: map<RoomCode, Room>, code: RoomCode, pid: PlayerId): (m: map<RoomCode, Room>)
    requires code in rooms
    ensures m.Keys <= rooms.Keys && rooms.Keys - {code} <= m.Keys
    ensures code in m <==> Leave(rooms[code], pid).Some?
    ensures code in m ==> m[code] == Leave(rooms[code], pid).value
    ensures forall c :: c in rooms && c != code ==> m[c] == rooms[c]
  {
    match Leave(rooms[code], pid)
    case None => rooms - {code}
    case Some(r) => rooms[code := r]
  }

  // ---------------------------------------------------------------------------
  // The state of a new game (`createInitialGameState`)

  /** One entry per member, in member order, with score 0; None when some
      member has no entry in the players table (the source throws there). */
  function GamePlayers(members: seq<PlayerId>, table: map<PlayerId, Player>): (r: Option<seq<GamePlayer>>)
    ensures r.Some? <==> forall i :: 0 <= i < |members| ==> members[i] in table
    ensures r.Some? ==> |r.value| == |members|
    ensures r.Some? ==> forall i :: 0 <= i < |members| ==>
              r.value[i] == GamePlayer(table[members[i]].id, table[members[i]].name, table[members[i]].color, 0)
  {
    if members == [] then Some([])
    else if members[0] !in table then None
    else
      var p := table[members[0]];
      match GamePlayers(members[1..], table)
      case None => None
      case Some(rest) => Some([GamePlayer(p.id, p.name, p.color, 0)] + rest)
  }

  /** Fifty uncollected flowers with ids 0 to 49. */
  function InitialFlowerField(): (fs: seq<Flower>)
    ensures |fs| == INITIAL_FLOWERS
    ensures forall i :: 0 <= i < |fs| ==> fs[i] == Flower(i, false, None)
  {
    seq(INITIAL_FLOWERS, i requires 0 <= i < INITIAL_FLOWERS => Flower(i, false, None))
  }

  function InitialGameState(members: seq<PlayerId>, table: map<PlayerId, Player>): (r: Option<GameState>)
    ensures r.Some? <==> forall i :: 0 <= i < |members| ==> members[i] in table
    ensures r.Some? ==> GameValid(r.value)
    ensures r.Some? ==> r.value.powerUps == [] && r.value.bosses == [] && r.value.timeRemaining == GAME_TIME
    ensures r.Some? ==> |r.value.flowers| == INITIAL_FLOWERS
    ensures r.Some? ==> forall i :: 0 <= i < INITIAL_FLOWERS ==> r.value.flowers[i] == Flower(i, false, None)
  {
    match GamePlayers(members, table)
    case None => None
    case Some(ps) => Some(GameState(ps, InitialFlowerField(), [], [], GAME_TIME))
  }

  lemma {:induction false} TotalScoreZero(ps: seq<GamePlayer>)
    requires forall i :: 0 <= i < |ps| ==> ps[i].score == 0
    ensures TotalScore(ps) == 0
  {
    if ps != [] {
      TotalScoreZero(ps[1..]);
    }
  }

  /** When every table entry is filed under its own id, a new game lists the
      members themselves, in member order, nobody has scored yet, and every
      member's entry carries that member's name and colour. */
  lemma StartingLineup(members: seq<PlayerId>, table: map<PlayerId, Player>)
    requires forall p :: p in table ==> table[p].id == p
    requires InitialGameState(members, table).Some?
    ensures var ps := InitialGameState(members, table).value.players;
      && |ps| == |members|
      && (forall i :: 0 <= i < |ps| ==>
            ps[i].id == members[i] && ps[i].score == 0
            && ps[i].name == table[members[i]].name && ps[i].color == table[members[i]].color)
      && TotalScore(ps) == 0
  {
    TotalScoreZero(InitialGameState(members, table).value.players);
  }
}
