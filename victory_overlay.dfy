/**
 * The end-of-game overlay: players ranked by score, the winner, a medal per
 * rank and the `#k` rank labels.  The final time it shows is `FormatTime`.
 */
module VictoryOverlay {
  import opened Text
  import opened GameTypes
  import opened GameUtils
  import opened Ranking

  /** `sortedPlayers[0]`: the first-ranked player, absent for an empty room. */
  function Winner(players: seq<Player>): (w: Option<Player>)
    ensures w.None? <==> players == []
    ensures w.Some? ==> w.value in players && forall p :: p in players ==> w.value.score >= p.score
  {
    var sorted := SortByScore(players);
    SortByScorePermutes(players);
    if sorted == [] then None
    else
      assert forall p :: p in players ==> p in multiset(sorted);
      assert sorted[0] in multiset(players);
      Some(sorted[0])
  }

  /** The icon `getMedalIcon` shows beside a rank. */
  datatype MedalIcon = Trophy | LargeMedal | SmallMedal | NoIcon

  /** `getMedalIcon(index)`. */
  function MedalFor(index: nat): (m: MedalIcon)
    ensures m == Trophy <==> index == 0
    ensures m.LargeMedal? || m.SmallMedal? <==> index == 1 || index == 2
    ensures m == NoIcon <==> index >= 3
  {
    if index == 0 then Trophy
    else if index == 1 then LargeMedal
    else if index == 2 then SmallMedal
    else NoIcon
  }

  /** `#{index + 1}`: a hash sign followed by the one-based rank in decimal. */
  function RankLabel(index: nat): (tag: string)
    ensures |tag| >= 2 && tag[0] == '#'
    ensures AllDigits(tag[1..]) && DigitsValue(tag[1..]) == index + 1
  {
    NatToStringRoundTrip(index + 1);
    var tag := "#" + NatToString(index + 1);
    assert tag[1..] == NatToString(index + 1);
    tag
  }

  /** One row of the ranking: the player, rank label, medal, and whether it is highlighted as the winner's. */
  datatype VictoryRow = VictoryRow(player: Player, rank: string, medal: MedalIcon, highlighted: bool)

  /** The rows `sortedPlayers.map(...)` renders, best score first. */
  function VictoryRows(players: seq<Player>): (rows: seq<VictoryRow>)
    ensures |rows| == |players|
    ensures forall k :: 0 <= k < |rows| ==>
              && rows[k].player == SortByScore(players)[k]
              && rows[k].rank == RankLabel(k)
              && rows[k].medal == MedalFor(k)
              && (rows[k].highlighted <==> k == 0)
  {
    var sorted := SortByScore(players);
    seq(|sorted|, k requires 0 <= k < |sorted| => VictoryRow(sorted[k], RankLabel(k), MedalFor(k), k == 0))
  }

  /** The rows show every player exactly once, scores never increase down the list, and the first row is the winner's. */
  lemma VictoryRowsRanked(players: seq<Player>)
    ensures var rows := VictoryRows(players);
      && multiset(seq(|rows|, k requires 0 <= k < |rows| => rows[k].player)) == multiset(players)
      && (forall i, j :: 0 <= i < j < |rows| ==> rows[i].player.score >= rows[j].player.score)
      && (rows != [] ==> Winner(players) == Some(rows[0].player))
  {
    var rows := VictoryRows(players);
    SortByScorePermutes(players);
    assert seq(|rows|, k requires 0 <= k < |rows| => rows[k].player) == SortByScore(players);
  }
}
