/** The in-game state of one room (`room.gameState` in server.js) and the
    rules that change it: collecting flowers and power-ups, hitting bosses,
    spawning items and the owner's clock update. Each rule is a function from
    the old state to the new one; the server applies it in place. */
module Game {
  import opened Common

  type PlayerId = string
  type ItemId = int

  const GAME_TIME: int := 900
  const INITIAL_FLOWERS: nat := 50
  const BOSS_HEALTH: int := 50
  const BOSS_BONUS: nat := 20
  const GIANT_BOSS_BONUS: nat := 30

  /** A player's in-game entry; positions are not modelled. */
  datatype GamePlayer = GamePlayer(id: PlayerId, name: string, color: string, score: nat)
  datatype Flower = Flower(id: ItemId, collected: bool, collectedBy: Option<PlayerId>)
  datatype PowerUp = PowerUp(id: ItemId, collected: bool, collectedBy: Option<PlayerId>)
  datatype Boss = Boss(id: ItemId, health: int, maxHealth: int, defeated: bool)
  datatype GameState = GameState(
    players: seq<GamePlayer>,
    flowers: seq<Flower>,
    powerUps: seq<PowerUp>,
    bosses: seq<Boss>,
    timeRemaining: int)

  /** One hit on a boss: who claims it and the damage multiplier in effect. */
  datatype Hit = Hit(player: PlayerId, multiplier: int)

  // ---------------------------------------------------------------------------
  // Invariant of a game state

  /** A collected item records its collector, an uncollected one does not. */
  predicate FlowerValid(f: Flower) { f.collected <==> f.collectedBy.Some? }
  predicate PowerUpValid(u: PowerUp) { u.collected <==> u.collectedBy.Some? }
  /** A boss is defeated exactly when its health has dropped to zero or below. */
  predicate BossValid(b: Boss) { b.defeated <==> b.health <= 0 }

  predicate GameValid(g: GameState) {
    && (forall i :: 0 <= i < |g.flowers| ==> FlowerValid(g.flowers[i]))
    && (forall i :: 0 <= i < |g.powerUps| ==> PowerUpValid(g.powerUps[i]))
    && (forall i :: 0 <= i < |g.bosses| ==> BossValid(g.bosses[i]))
  }

  // ---------------------------------------------------------------------------
  // Lookups by id (first match, as `find` does)

  function PlayerIndex(ps: seq<GamePlayer>, pid: PlayerId): (r: Option<nat>)
    ensures r.Some? ==> r.value < |ps| && ps[r.value].id == pid
    ensures r.Some? ==> forall j :: 0 <= j < r.value ==> ps[j].id != pid
    ensures r.None? ==> forall j :: 0 <= j < |ps| ==> ps[j].id != pid
  {
    Find(ps, (p: GamePlayer) => p.id == pid)
  }

  function FlowerIndex(fs: seq<Flower>, id: ItemId): (r: Option<nat>)
    ensures r.Some? ==> r.value < |fs| && fs[r.value].id == id
    ensures r.Some? ==> forall j :: 0 <= j < r.value ==> fs[j].id != id
    ensures r.None? ==> forall j :: 0 <= j < |fs| ==> fs[j].id != id
  {
    Find(fs, (f: Flower) => f.id == id)
  }

  function PowerUpIndex(us: seq<PowerUp>, id: ItemId): (r: Option<nat>)
    ensures r.Some? ==> r.value < |us| && us[r.value].id == id
    ensures r.Some? ==> forall j :: 0 <= j < r.value ==> us[j].id != id
    ensures r.None? ==> forall j :: 0 <= j < |us| ==> us[j].id != id
  {
    Find(us, (u: PowerUp) => u.id == id)
  }

  function BossIndex(bs: seq<Boss>, id: ItemId): (r: Option<nat>)
    ensures r.Some? ==> r.value < |bs| && bs[r.value].id == id
    ensures r.Some? ==> forall j :: 0 <= j < r.value ==> bs[j].id != id
    ensures r.None? ==> forall j :: 0 <= j < |bs| ==> bs[j].id != id
  {
    Find(bs, (b: Boss) => b.id == id)
  }

  // ---------------------------------------------------------------------------
  // Scores

  function TotalScore(ps: seq<GamePlayer>): nat {
    if ps == [] then 0 else ps[0].score + TotalScore(ps[1..])
  }

  /** Adds `n` points to the first entry whose id is `pid`; nothing happens when
      there is none (the source's `if (player)`). */
  function AddScore(ps: seq<GamePlayer>, pid: PlayerId, n: nat): (r: seq<GamePlayer>)
    ensures |r| == |ps|
    ensures forall j :: 0 <= j < |ps| ==>
              r[j].id == ps[j].id && r[j].name == ps[j].name && r[j].color == ps[j].color
    ensures forall j :: 0 <= j < |ps| && ps[j].id != pid ==> r[j] == ps[j]
  {
    match PlayerIndex(ps, pid)
    case None => ps
    case Some(k) => ps[k := ps[k].(score := ps[k].score + n)]
  }

  lemma {:induction false} TotalScoreUpdate(ps: seq<GamePlayer>, k: nat, x: GamePlayer)
    requires k < |ps|
    ensures TotalScore(ps[k := x]) == TotalScore(ps) - ps[k].score + x.score
  {
    if k == 0 {
      assert ps[k := x][1..] == ps[1..];
    } else {
      TotalScoreUpdate(ps[1..], k - 1, x);
      assert ps[k := x][1..] == ps[1..][k - 1 := x];
    }
  }

  /** Awarding `n` points to `pid` raises the sum of all scores by exactly `n`
      when `pid` has an entry, and leaves it unchanged otherwise; only the
      first entry for `pid` gains. */
  lemma {:induction false} AddScoreEffect(ps: seq<GamePlayer>, pid: PlayerId, n: nat)
    ensures TotalScore(AddScore(ps, pid, n))
            == TotalScore(ps) + (if PlayerIndex(ps, pid).Some? then n else 0)
    ensures PlayerIndex(ps, pid).Some? ==>
              var k := PlayerIndex(ps, pid).value;
              AddScore(ps, pid, n)[k] == ps[k].(score := ps[k].score + n)
    ensures forall j :: 0 <= j < |ps| && Some(j) != PlayerIndex(ps, pid) ==>
              AddScore(ps, pid, n)[j] == ps[j]
  {
    match PlayerIndex(ps, pid)
    case None =>
    case Some(k) =>
      var x := ps[k].(score := ps[k].score + n);
      var r := ps[k := x];
      assert AddScore(ps, pid, n) == r;
      assert forall j :: 0 <= j < |ps| && j != k ==> r[j] == ps[j];
      TotalScoreUpdate(ps, k, x);
  }

  // ---------------------------------------------------------------------------
  // Flowers

  /** The first flower with this id exists and has not been collected. */
  predicate FlowerCollectible(g: GameState, fid: ItemId) {
    match FlowerIndex(g.flowers, fid)
    case None => false
    case Some(i) => !g.flowers[i].collected
  }

  /** `collectFlower`: mark the flower collected by `pid` and give `pid` one
      point, unless the flower is missing or already collected. */
  function CollectFlower(g: GameState, fid: ItemId, pid: PlayerId): (r: GameState)
    ensures GameValid(g) ==> GameValid(r)
    ensures r.powerUps == g.powerUps && r.bosses == g.bosses && r.timeRemaining == g.timeRemaining
  {
    match FlowerIndex(g.flowers, fid)
    case None => g
    case Some(i) =>
      if g.flowers[i].collected then g
      else g.(flowers := g.flowers[i := g.flowers[i].(collected := true, collectedBy := Some(pid))],
              players := AddScore(g.players, pid, 1))
  }

  /** Collecting a flower a second time, by anyone, changes nothing. */
  lemma CollectFlowerOnce(g: GameState, fid: ItemId, p: PlayerId, q: PlayerId)
    ensures CollectFlower(CollectFlower(g, fid, p), fid, q) == CollectFlower(g, fid, p)
  {
    var g1 := CollectFlower(g, fid, p);
    match FlowerIndex(g.flowers, fid)
    case None =>
    case Some(i) =>
      if !g.flowers[i].collected {
        SameFlowerIndex(g.flowers, g1.flowers, fid);
      }
  }

  /** The flower side of a collection: the first flower with that id flips to
      collected by `pid` (the `playerId` the message names) when it was
      collectible, every other flower is untouched, and nothing else changes. */
  lemma CollectFlowerMarks(g: GameState, fid: ItemId, pid: PlayerId)
    ensures var r := CollectFlower(g, fid, pid);
      && |r.flowers| == |g.flowers|
      && (!FlowerCollectible(g, fid) ==> r == g)
      && (FlowerCollectible(g, fid) ==>
            var i := FlowerIndex(g.flowers, fid).value;
            && r.flowers[i] == Flower(fid, true, Some(pid)) && !FlowerCollectible(r, fid)
            && forall j :: 0 <= j < |g.flowers| && j != i ==> r.flowers[j] == g.flowers[j])
      && (forall j :: 0 <= j < |g.flowers| && g.flowers[j].collected ==> r.flowers[j] == g.flowers[j])
      && (forall j :: 0 <= j < |g.flowers| && g.flowers[j].id != fid ==> r.flowers[j] == g.flowers[j])
  {
  }

  /** The score side of a collection: the collector's first entry gains
      exactly one point on the first collection only and keeps its other
      fields, the sum of all scores grows by that point, and every other entry,
      a later one with the same id included, is unchanged. */
  lemma CollectFlowerScores(g: GameState, fid: ItemId, pid: PlayerId)
    ensures var r := CollectFlower(g, fid, pid);
      && |r.players| == |g.players|
      && (forall j :: 0 <= j < |g.players| && Some(j) != PlayerIndex(g.players, pid) ==> r.players[j] == g.players[j])
      && (PlayerIndex(g.players, pid).Some? ==>
            var k := PlayerIndex(g.players, pid).value;
            r.players[k] == g.players[k].(score := g.players[k].score + (if FlowerCollectible(g, fid) then 1 else 0)))
      && TotalScore(r.players) == TotalScore(g.players)
           + (if FlowerCollectible(g, fid) && PlayerIndex(g.players, pid).Some? then 1 else 0)
  {
    AddScoreEffect(g.players, pid, 1);
  }

  lemma SameFlowerIndex(a: seq<Flower>, b: seq<Flower>, id: ItemId)
    requires |a| == |b| && forall j :: 0 <= j < |a| ==> a[j].id == b[j].id
    ensures FlowerIndex(a, id) == FlowerIndex(b, id)
  {
  }

  // ---------------------------------------------------------------------------
  // Power-ups

  predicate PowerUpCollectible(g: GameState, id: ItemId) {
    match PowerUpIndex(g.powerUps, id)
    case None => false
    case Some(i) => !g.powerUps[i].collected
  }

  /** `collectPowerUp`: like a flower, but no score changes. */
  function CollectPowerUp(g: GameState, id: ItemId, pid: PlayerId): (r: GameState)
    ensures GameValid(g) ==> GameValid(r)
    ensures r.players == g.players && r.flowers == g.flowers && r.bosses == g.bosses
    ensures r.timeRemaining == g.timeRemaining
  {
    match PowerUpIndex(g.powerUps, id)
    case None => g
    case Some(i) =>
      if g.powerUps[i].collected then g
      else g.(powerUps := g.powerUps[i := g.powerUps[i].(collected := true, collectedBy := Some(pid))])
  }

  /** A power-up flips to collected at most once and keeps its first collector;
      a collection changes no other power-up. */
  lemma CollectPowerUpOnce(g: GameState, id: ItemId, p: PlayerId, q: PlayerId)
    ensures CollectPowerUp(CollectPowerUp(g, id, p), id, q) == CollectPowerUp(g, id, p)
    ensures (PowerUpCollectible(g, id) ==>
               var i := PowerUpIndex(g.powerUps, id).value;
               CollectPowerUp(g, id, p).powerUps[i] == PowerUp(id, true, Some(p)))
    ensures |CollectPowerUp(g, id, p).powerUps| == |g.powerUps|
    ensures PowerUpCollectible(g, id) ==>
              forall j :: 0 <= j < |g.powerUps| && j != PowerUpIndex(g.powerUps, id).value ==>
                CollectPowerUp(g, id, p).powerUps[j] == g.powerUps[j]
    ensures !PowerUpCollectible(g, id) ==> CollectPowerUp(g, id, p) == g
  {
    var g1 := CollectPowerUp(g, id, p);
    match PowerUpIndex(g.powerUps, id)
    case None =>
    case Some(i) =>
      if !g.powerUps[i].collected {
        SamePowerUpIndex(g.powerUps, g1.powerUps, id);
      }
  }

  lemma SamePowerUpIndex(a: seq<PowerUp>, b: seq<PowerUp>, id: ItemId)
    requires |a| == |b| && forall j :: 0 <= j < |a| ==> a[j].id == b[j].id
    ensures PowerUpIndex(a, id) == PowerUpIndex(b, id)
  {
  }

  // ---------------------------------------------------------------------------
  // Bosses

  /** `data.damageMultiplier || 1`: a missing or zero multiplier counts as 1. */
  function DamageMultiplier(given: Option<int>): (m: int)
    ensures m != 0
    ensures given.Some? && given.value != 0 ==> m == given.value
    ensures given.None? || given.value == 0 ==> m == 1
  {
    match given
    case None => 1
    case Some(v) => if v == 0 then 1 else v
  }

  /** The defeat bonus: more for a hit made with a multiplier above 1. */
  function Bonus(m: int): (b: nat)
    ensures b == BOSS_BONUS || b == GIANT_BOSS_BONUS
    ensures b == GIANT_BOSS_BONUS <==> m > 1
  {
    if m > 1 then GIANT_BOSS_BONUS else BOSS_BONUS
  }

  /** `attackBoss`: a boss that is not yet defeated loses `m` health; when its
      health reaches zero or less it becomes defeated and `pid` earns the
      bonus. A missing or defeated boss is left alone. */
  function AttackBoss(g: GameState, bossId: ItemId, pid: PlayerId, m: int): (r: GameState)
    ensures GameValid(g) ==> GameValid(r)
    ensures r.flowers == g.flowers && r.powerUps == g.powerUps && r.timeRemaining == g.timeRemaining
    ensures |r.bosses| == |g.bosses| && forall j :: 0 <= j < |g.bosses| ==> r.bosses[j].id == g.bosses[j].id
  {
    match BossIndex(g.bosses, bossId)
    case None => g
    case Some(i) =>
      var b := g.bosses[i];
      if b.defeated then g
      else
        var health := b.health - 1 * m;
        if health <= 0 then
          g.(bosses := g.bosses[i := b.(health := health, defeated := true)],
             players := AddScore(g.players, pid, Bonus(m)))
        else
          g.(bosses := g.bosses[i := b.(health := health)])
  }

  /** One hit: a missing or defeated boss leaves the game untouched;
      otherwise the boss loses exactly `m` health, is defeated iff its health
      is now at most zero and keeps its id and maximum health, the other
      bosses are untouched, the hitter's first entry gains the bonus exactly
      when this hit defeated the boss and keeps its other fields, every other
      entry is unchanged, and the sum of scores grows by that bonus. */
  lemma AttackBossEffect(g: GameState, bossId: ItemId, pid: PlayerId, m: int)
    ensures BossIndex(g.bosses, bossId).None? ==> AttackBoss(g, bossId, pid, m) == g
    ensures BossIndex(g.bosses, bossId).Some? ==>
            var i := BossIndex(g.bosses, bossId).value;
            var r := AttackBoss(g, bossId, pid, m);
      && (g.bosses[i].defeated ==> r == g)
      && (!g.bosses[i].defeated ==>
            && r.bosses[i] == g.bosses[i].(health := g.bosses[i].health - m, defeated := g.bosses[i].health - m <= 0)
            && (forall j :: 0 <= j < |g.bosses| && j != i ==> r.bosses[j] == g.bosses[j])
            && TotalScore(r.players) == TotalScore(g.players)
                 + (if r.bosses[i].defeated && PlayerIndex(g.players, pid).Some? then Bonus(m) else 0))
      && |r.players| == |g.players|
      && (forall j :: 0 <= j < |g.players| && Some(j) != PlayerIndex(g.players, pid) ==> r.players[j] == g.players[j])
      && (PlayerIndex(g.players, pid).Some? ==>
            var k := PlayerIndex(g.players, pid).value;
            r.players[k] == g.players[k].(score := g.players[k].score
              + (if !g.bosses[i].defeated && g.bosses[i].health - m <= 0 then Bonus(m) else 0)))
  {
    AddScoreEffect(g.players, pid, Bonus(m));
  }

  lemma SameBossIndex(a: seq<Boss>, b: seq<Boss>, id: ItemId)
    requires |a| == |b| && forall j :: 0 <= j < |a| ==> a[j].id == b[j].id
    ensures BossIndex(a, id) == BossIndex(b, id)
  {
  }

  /** A series of hits on one boss, in order. */
  function Attacks(g: GameState, bossId: ItemId, hits: seq<Hit>): GameState
    decreases |hits|
  {
    if hits == [] then g
    else Attacks(AttackBoss(g, bossId, hits[0].player, hits[0].multiplier), bossId, hits[1..])
  }

  /** However many hits a boss takes, its bonus is paid at most once: the sum
      of scores grows by 0, 20 or 30, and it grows only if the boss was alive
      before the series and is defeated after it. A defeated boss absorbs
      every hit without any change. */
  lemma {:induction false} BossBonusOnce(g: GameState, bossId: ItemId, hits: seq<Hit>)
    requires BossIndex(g.bosses, bossId).Some?
    ensures var i := BossIndex(g.bosses, bossId).value;
            var r := Attacks(g, bossId, hits);
      && |r.bosses| == |g.bosses|
      && (g.bosses[i].defeated ==> r == g)
      && TotalScore(r.players) - TotalScore(g.players) in {0, BOSS_BONUS, GIANT_BOSS_BONUS}
      && (TotalScore(r.players) != TotalScore(g.players) ==>
            !g.bosses[i].defeated && r.bosses[i].defeated)
    decreases |hits|
  {
    if hits != [] {
      var i := BossIndex(g.bosses, bossId).value;
      var m := hits[0].multiplier;
      var g1 := AttackBoss(g, bossId, hits[0].player, m);
      AttackBossEffect(g, bossId, hits[0].player, m);
      SameBossIndex(g.bosses, g1.bosses, bossId);
      BossBonusOnce(g1, bossId, hits[1..]);
      if !g.bosses[i].defeated && g1.bosses[i].defeated {
        assert Attacks(g1, bossId, hits[1..]) == g1;
      }
    }
  }

  // ---------------------------------------------------------------------------
  // Spawning and the clock (owner-only handlers)

  /** The items `spawnFlowers` appends: one uncollected flower per id. */
  function NewFlowers(ids: seq<ItemId>): (fs: seq<Flower>)
    ensures |fs| == |ids|
    ensures forall k :: 0 <= k < |ids| ==> fs[k] == Flower(ids[k], false, None)
  {
    if ids == [] then [] else [Flower(ids[0], false, None)] + NewFlowers(ids[1..])
  }

  function SpawnFlowers(g: GameState, ids: seq<ItemId>): (r: GameState)
    ensures GameValid(g) ==> GameValid(r)
    ensures |r.flowers| == |g.flowers| + |ids| && r.flowers[..|g.flowers|] == g.flowers
    ensures forall k :: 0 <= k < |ids| ==> r.flowers[|g.flowers| + k] == Flower(ids[k], false, None)
  {
    g.(flowers := g.flowers + NewFlowers(ids))
  }

  function SpawnPowerUp(g: GameState, id: ItemId): (r: GameState)
    ensures GameValid(g) ==> GameValid(r)
  {
    g.(powerUps := g.powerUps + [PowerUp(id, false, None)])
  }

  /** A new boss starts with full health (50) and not defeated. */
  function SpawnBoss(g: GameState, id: ItemId): (r: GameState)
    ensures GameValid(g) ==> GameValid(r)
  {
    g.(bosses := g.bosses + [Boss(id, BOSS_HEALTH, BOSS_HEALTH, false)])
  }
}
