/**
 * The sidebar list of players: ranked by score like the victory overlay,
 * each row marked "(You)" when it is the viewer's own player and showing a
 * crown for the host and a plain user icon for everyone else.
 */
module PlayerList {
  import opened GameTypes
  import opened Ranking

  datatype RowIcon = Crown | UserIcon

  datatype PlayerRow = PlayerRow(player: Player, isYou: bool, icon: RowIcon)

  /** `player.id === currentPlayerId`: an absent current id matches no player. */
  predicate IsViewer(p: Player, currentPlayerId: Option<string>) {
    currentPlayerId == Some(p.id)
  }

  /** One row per player, best score first. */
  function PlayerRows(players: seq<Player>, currentPlayerId: Option<string>): (rows: seq<PlayerRow>)
    ensures |rows| == |players|
    ensures forall k :: 0 <= k < |rows| ==>
              && rows[k].player == SortByScore(players)[k]
              && (rows[k].isYou <==> currentPlayerId.Some? && rows[k].player.id == currentPlayerId.value)
              && (rows[k].icon == Crown <==> rows[k].player.isHost)
  {
    var sorted := SortByScore(players);
    seq(|sorted|, k requires 0 <= k < |sorted| =>
      PlayerRow(sorted[k], IsViewer(sorted[k], currentPlayerId), if sorted[k].isHost then Crown else UserIcon))
  }

  /** How many players of `s` have id `id`. */
  function IdCount(s: seq<Player>, id: string): nat {
    if s == [] then 0 else (if s[0].id == id then 1 else 0) + IdCount(s[1..], id)
  }

  lemma {:induction false} IdCountAppend(s: seq<Player>, p: Player, id: string)
    ensures IdCount(s + [p], id) == IdCount(s, id) + (if p.id == id then 1 else 0)
    decreases |s|
  {
    if s != [] {
      assert (s + [p])[1..] == s[1..] + [p];
      IdCountAppend(s[1..], p, id);
    }
  }

  lemma {:induction false} IdCountInsert(sorted: seq<Player>, p: Player, id: string)
    ensures IdCount(InsertByScore(sorted, p), id) == IdCount(sorted, id) + (if p.id == id then 1 else 0)
    decreases |sorted|
  {
    if sorted == [] {
    } else if sorted[0].score < p.score {
      assert ([p] + sorted)[1..] == sorted;
    } else {
      var rest := InsertByScore(sorted[1..], p);
      IdCountInsert(sorted[1..], p, id);
      assert ([sorted[0]] + rest)[1..] == rest;
    }
  }

  /** The ranking has as many players with a given id as the input. */
  lemma {:induction false} IdCountSorted(players: seq<Player>, id: string)
    ensures IdCount(SortByScore(players), id) == IdCount(players, id)
  {
    if players != [] {
      var init, last := players[..|players| - 1], players[|players| - 1];
      IdCountSorted(init, id);
      IdCountInsert(SortByScore(init), last, id);
      IdCountAppend(init, last, id);
      assert players == init + [last];
    }
  }

  lemma {:induction false} IdCountZero(s: seq<Player>, id: string)
    ensures IdCount(s, id) == 0 <==> forall k :: 0 <= k < |s| ==> s[k].id != id
    decreases |s|
  {
    if s != [] {
      IdCountZero(s[1..], id);
      assert forall k :: 1 <= k < |s| ==> s[k] == s[1..][k - 1];
    }
  }

  lemma {:induction false} IdCountOne(s: seq<Player>, id: string)
    requires IdCount(s, id) == 1
    ensures exists k :: 0 <= k < |s| && s[k].id == id && forall j :: 0 <= j < |s| && j != k ==> s[j].id != id
    decreases |s|
  {
    assert forall k :: 1 <= k < |s| ==> s[k] == s[1..][k - 1];
    if s[0].id == id {
      IdCountZero(s[1..], id);
      assert forall j :: 0 <= j < |s| && j != 0 ==> s[j].id != id;
    } else {
      IdCountOne(s[1..], id);
      var k :| 0 <= k < |s[1..]| && s[1..][k].id == id && forall j :: 0 <= j < |s[1..]| && j != k ==> s[1..][j].id != id;
      assert forall j :: 0 <= j < |s| && j != k + 1 ==> s[j].id != id;
    }
  }

  /**
   * With player ids unique in the room, "(You)" is shown on exactly one row
   * when the viewer has a player, and on none otherwise.
   */
  lemma YouExactlyOnce(players: seq<Player>, currentPlayerId: string)
    requires IdCount(players, currentPlayerId) <= 1
    ensures var rows := PlayerRows(players, Some(currentPlayerId));
      && ((exists i :: 0 <= i < |players| && players[i].id == currentPlayerId) ==>
            exists k :: 0 <= k < |rows| && rows[k].isYou && forall j :: 0 <= j < |rows| && j != k ==> !rows[j].isYou)
      && ((forall i :: 0 <= i < |players| ==> players[i].id != currentPlayerId) ==>
            forall k :: 0 <= k < |rows| ==> !rows[k].isYou)
  {
    var sorted := SortByScore(players);
    IdCountSorted(players, currentPlayerId);
    IdCountZero(players, currentPlayerId);
    IdCountZero(sorted, currentPlayerId);
    var rows := PlayerRows(players, Some(currentPlayerId));
    if IdCount(players, currentPlayerId) == 1 {
      IdCountOne(sorted, currentPlayerId);
      var k :| 0 <= k < |sorted| && sorted[k].id == currentPlayerId
        && forall j :: 0 <= j < |sorted| && j != k ==> sorted[j].id != currentPlayerId;
      assert rows[k].isYou && forall j :: 0 <= j < |rows| && j != k ==> !rows[j].isYou;
    }
  }
}
