/**
 * The score ranking shared by the victory overlay and the player list:
 * `[...players].sort((a, b) => b.score - a.score)`.  The copy is sorted, so
 * the caller's list is left as it was; `Array.prototype.sort` is stable, so
 * players with equal scores keep their relative order.  The sort is written
 * here as a stable insertion sort, which is one algorithm with exactly that
 * result.
 */
module Ranking {
  import opened GameTypes

  /** Scores never increase along `s`. */
  predicate ScoresDescending(s: seq<Player>) {
    forall i, j :: 0 <= i < j < |s| ==> s[i].score >= s[j].score
  }

  /** The players of `s` that have score `score`, in their order in `s`. */
  function WithScore(s: seq<Player>, score: int): (t: seq<Player>)
    ensures |t| <= |s|
  {
    if s == [] then []
    else WithScore(s[..|s| - 1], score) + (if s[|s| - 1].score == score then [s[|s| - 1]] else [])
  }

  /**
   * Places `p` into the descending list `sorted`: after every player whose
   * score is at least `p.score`, before the first with a lower score.
   */
  function InsertByScore(sorted: seq<Player>, p: Player): (r: seq<Player>)
    ensures |r| == |sorted| + 1
  {
    if sorted == [] then [p]
    else if sorted[0].score < p.score then [p] + sorted
    else [sorted[0]] + InsertByScore(sorted[1..], p)
  }

  /** Insertion adds exactly the one player. */
  lemma {:induction false} InsertPermutes(sorted: seq<Player>, p: Player)
    ensures multiset(InsertByScore(sorted, p)) == multiset(sorted) + multiset{p}
    decreases |sorted|
  {
    if sorted != [] && sorted[0].score >= p.score {
      InsertPermutes(sorted[1..], p);
      assert sorted == [sorted[0]] + sorted[1..];
    }
  }

  /** The inserted player or the old head leads the result. */
  lemma InsertHead(sorted: seq<Player>, p: Player)
    ensures InsertByScore(sorted, p)[0] == (if sorted == [] || sorted[0].score < p.score then p else sorted[0])
  {
  }

  /** A player scoring at least the head of a descending list may go in front of it. */
  lemma DescendingCons(q: Player, s: seq<Player>)
    requires ScoresDescending(s)
    requires s != [] ==> s[0].score <= q.score
    ensures ScoresDescending([q] + s)
  {
    var r := [q] + s;
    forall i, j | 0 <= i < j < |r|
      ensures r[i].score >= r[j].score
    {
      assert r[j] == s[j - 1];
      if i > 0 {
        assert r[i] == s[i - 1];
      } else {
        assert s[0].score >= s[j - 1].score;
      }
    }
  }

  /** Inserting into a descending list gives a descending list. */
  lemma {:induction false} InsertKeepsDescending(sorted: seq<Player>, p: Player)
    requires ScoresDescending(sorted)
    ensures ScoresDescending(InsertByScore(sorted, p))
    decreases |sorted|
  {
    if sorted == [] {
      DescendingCons(p, []);
    } else if sorted[0].score < p.score {
      DescendingCons(p, sorted);
    } else {
      var tail := sorted[1..];
      assert ScoresDescending(tail) by {
        forall i, j | 0 <= i < j < |tail| ensures tail[i].score >= tail[j].score {
          assert tail[i] == sorted[i + 1] && tail[j] == sorted[j + 1];
        }
      }
      InsertKeepsDescending(tail, p);
      InsertHead(tail, p);
      DescendingCons(sorted[0], InsertByScore(tail, p));
    }
  }

  /** The list sorted by score, highest first; ties keep their input order. */
  function SortByScore(players: seq<Player>): (sorted: seq<Player>)
    ensures |sorted| == |players|
  {
    if players == [] then []
    else InsertByScore(SortByScore(players[..|players| - 1]), players[|players| - 1])
  }

  /** The sorted list holds exactly the input players, with scores non-increasing. */
  lemma SortByScorePermutes(players: seq<Player>)
    ensures multiset(SortByScore(players)) == multiset(players)
    ensures ScoresDescending(SortByScore(players))
  {
    SortByScoreSameMultiset(players);
    SortByScoreDescending(players);
  }

  /** Sorting neither adds nor drops a player. */
  lemma {:induction false} SortByScoreSameMultiset(players: seq<Player>)
    ensures multiset(SortByScore(players)) == multiset(players)
  {
    if players != [] {
      var init := players[..|players| - 1];
      SortByScoreSameMultiset(init);
      InsertPermutes(SortByScore(init), players[|players| - 1]);
      assert players == init + [players[|players| - 1]];
    }
  }

  /** Scores never increase along the sorted list. */
  lemma {:induction false} SortByScoreDescending(players: seq<Player>)
    ensures ScoresDescending(SortByScore(players))
  {
    if players != [] {
      var init := players[..|players| - 1];
      SortByScoreDescending(init);
      InsertKeepsDescending(SortByScore(init), players[|players| - 1]);
    }
  }

  /** Inserting `p` adds it at the end of its own score class and leaves the other classes alone. */
  lemma {:induction false} InsertKeepsClasses(sorted: seq<Player>, p: Player, score: int)
    requires ScoresDescending(sorted)
    ensures WithScore(InsertByScore(sorted, p), score)
         == WithScore(sorted, score) + (if p.score == score then [p] else [])
    decreases |sorted|
  {
    if sorted == [] {
      assert WithScore([p], score) == WithScore([], score) + (if p.score == score then [p] else []);
    } else if sorted[0].score < p.score {
      InsertInFront(sorted, p, score);
    } else {
      InsertKeepsClasses(sorted[1..], p, score);
      InsertBehind(sorted, p, score);
    }
  }

  /** When `p` outscores the whole list it goes in front, ahead of players that all score below it. */
  lemma InsertInFront(sorted: seq<Player>, p: Player, score: int)
    requires ScoresDescending(sorted) && sorted != [] && sorted[0].score < p.score
    ensures WithScore(InsertByScore(sorted, p), score)
         == WithScore(sorted, score) + (if p.score == score then [p] else [])
  {
    assert InsertByScore(sorted, p) == [p] + sorted;
    WithScoreFront(p, sorted, score);
    if p.score == score {
      NoneWithScore(sorted, score);
    }
  }

  /** When the head stays in front, the classes follow from those of the tail. */
  lemma InsertBehind(sorted: seq<Player>, p: Player, score: int)
    requires sorted != [] && sorted[0].score >= p.score
    requires WithScore(InsertByScore(sorted[1..], p), score)
          == WithScore(sorted[1..], score) + (if p.score == score then [p] else [])
    ensures WithScore(InsertByScore(sorted, p), score)
         == WithScore(sorted, score) + (if p.score == score then [p] else [])
  {
    var rest := sorted[1..];
    var inserted := InsertByScore(rest, p);
    assert InsertByScore(sorted, p) == [sorted[0]] + inserted;
    WithScoreFront(sorted[0], inserted, score);
    WithScoreFront(sorted[0], rest, score);
    assert sorted == [sorted[0]] + rest;
  }

  /** `WithScore` of a list with one more player in front. */
  lemma {:induction false} WithScoreFront(q: Player, s: seq<Player>, score: int)
    ensures WithScore([q] + s, score) == (if q.score == score then [q] else []) + WithScore(s, score)
    decreases |s|
  {
    if s != [] {
      var t := [q] + s;
      assert t[..|t| - 1] == [q] + s[..|s| - 1];
      WithScoreFront(q, s[..|s| - 1], score);
    } else {
      assert [q] + s == [q];
      assert WithScore([q], score) == WithScore([], score) + (if q.score == score then [q] else []);
    }
  }

  /** A descending list led by a score below `score` holds no player with that score. */
  lemma {:induction false} NoneWithScore(s: seq<Player>, score: int)
    requires ScoresDescending(s)
    requires s != [] ==> s[0].score < score
    ensures WithScore(s, score) == []
    decreases |s|
  {
    if s != [] {
      NoneWithScore(s[..|s| - 1], score);
    }
  }

  /**
   * Stability: for every score, the players with that score appear in the
   * sorted list in the same order as in the input.
   */
  lemma {:induction false} SortByScoreStable(players: seq<Player>, score: int)
    ensures WithScore(SortByScore(players), score) == WithScore(players, score)
  {
    if players != [] {
      var init, last := players[..|players| - 1], players[|players| - 1];
      SortByScoreStable(init, score);
      SortByScoreDescending(init);
      InsertKeepsClasses(SortByScore(init), last, score);
    }
  }
}
