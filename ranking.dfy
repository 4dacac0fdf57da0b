/** The ranking `endGame` broadcasts: the game's players ordered by
    non-increasing score. JavaScript's `Array.prototype.sort` is stable, so
    players with equal scores keep their order in the game; the model is a
    stable insertion sort with that comparator. */
module Ranking {
  import opened Game

  predicate SortedByScore(s: seq<GamePlayer>) {
    forall i, j :: 0 <= i < j < |s| ==> s[i].score >= s[j].score
  }

  /** Inserts `x` in front of the first entry whose score is not higher than
      `x`'s, so `x` goes before entries with an equal score. */
  function Insert(x: GamePlayer, t: seq<GamePlayer>): seq<GamePlayer> {
    if t == [] || x.score >= t[0].score then [x] + t
    else [t[0]] + Insert(x, t[1..])
  }

  function SortByScore(s: seq<GamePlayer>): seq<GamePlayer> {
    if s == [] then [] else Insert(s[0], SortByScore(s[1..]))
  }

  /** The entries of `s` whose score is `sc`, in their order in `s`. */
  function WithScore(s: seq<GamePlayer>, sc: nat): seq<GamePlayer> {
    if s == [] then []
    else (if s[0].score == sc then [s[0]] else []) + WithScore(s[1..], sc)
  }

  lemma {:induction false} InsertSorted(x: GamePlayer, t: seq<GamePlayer>)
    requires SortedByScore(t)
    ensures SortedByScore(Insert(x, t))
    ensures Insert(x, t)[0] == x || (t != [] && Insert(x, t)[0] == t[0])
  {
    if t == [] || x.score >= t[0].score {
    } else {
      InsertSorted(x, t[1..]);
      var r := Insert(x, t[1..]);
      assert r[0].score <= t[0].score;
    }
  }

  lemma {:induction false} InsertPermutation(x: GamePlayer, t: seq<GamePlayer>)
    ensures multiset(Insert(x, t)) == multiset(t) + multiset{x}
  {
    if t == [] || x.score >= t[0].score {
    } else {
      InsertPermutation(x, t[1..]);
      assert t == [t[0]] + t[1..];
    }
  }

  lemma {:induction false} InsertStable(x: GamePlayer, t: seq<GamePlayer>, sc: nat)
    ensures WithScore(Insert(x, t), sc)
            == (if x.score == sc then [x] else []) + WithScore(t, sc)
  {
    var r := Insert(x, t);
    if t == [] || x.score >= t[0].score {
      assert r[0] == x && r[1..] == t;
    } else {
      InsertStable(x, t[1..], sc);
      assert r[0] == t[0] && r[1..] == Insert(x, t[1..]);
      assert WithScore(t, sc) == (if t[0].score == sc then [t[0]] else []) + WithScore(t[1..], sc);
    }
  }

  /** The ranking is ordered by non-increasing score. */
  lemma {:induction false} SortByScoreSorted(s: seq<GamePlayer>)
    ensures SortedByScore(SortByScore(s))
  {
    if s != [] {
      SortByScoreSorted(s[1..]);
      InsertSorted(s[0], SortByScore(s[1..]));
    }
  }

  /** The ranking is a permutation of the players: every entry appears exactly
      as often as in the game. */
  lemma {:induction false} SortByScorePermutation(s: seq<GamePlayer>)
    ensures multiset(SortByScore(s)) == multiset(s)
    ensures |SortByScore(s)| == |s|
  {
    if s != [] {
      SortByScorePermutation(s[1..]);
      InsertPermutation(s[0], SortByScore(s[1..]));
      assert s == [s[0]] + s[1..];
    }
    assert |multiset(SortByScore(s))| == |multiset(s)|;
  }

  /** Stability: for every score, the players holding it appear in the ranking
      in the same order as in the game. */
  lemma {:induction false} SortByScoreStable(s: seq<GamePlayer>, sc: nat)
    ensures WithScore(SortByScore(s), sc) == WithScore(s, sc)
  {
    if s != [] {
      SortByScoreStable(s[1..], sc);
      InsertStable(s[0], SortByScore(s[1..]), sc);
    }
  }
}
