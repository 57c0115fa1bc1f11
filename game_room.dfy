/**
 * The room page's local mirror of the game: the room, its players, the
 * viewer's own player, the claimed numbers with their colours, the chat,
 * and the victory overlay.  Each handler of the page is one method on
 * `RoomPage`, taken as one step.  What the store answers (query results,
 * the replies of the `claim_number`, `start_game` and `reset_game`
 * procedures, the rows realtime events carry) comes in as parameters; the
 * rows the page asks the store to insert come out as `Write`s.
 */
module GameRoomPage {
  import opened Text
  import opened GameTypes
  import opened GameUtils
  import opened Lobby

  /** A fetched claim: its number, who claimed it, and the colour joined in from the claimer's player row. */
  datatype ClaimRow = ClaimRow(number: int, playerId: string, playerColor: Option<string>)

  /** The reply of a server procedure: an error, or `{success, error?, finished?}`. */
  datatype RpcReply = RpcError | RpcResult(success: bool, finished: bool)

  /** `players.find(p => p.session_id === sessionId) || null`. */
  function PlayerOfSession(players: seq<Player>, sessionId: string): Option<Player> {
    if players == [] then None
    else if players[0].sessionId == sessionId then Some(players[0])
    else PlayerOfSession(players[1..], sessionId)
  }

  /**
   * The viewer's player is the first player of the list with this tab's
   * session, and there is none exactly when no player has that session.
   */
  lemma {:induction false} PlayerOfSessionFirst(players: seq<Player>, sessionId: string)
    ensures var me := PlayerOfSession(players, sessionId);
      && (me.None? <==> forall p :: p in players ==> p.sessionId != sessionId)
      && (me.Some? ==> exists k :: 0 <= k < |players| && players[k] == me.value && players[k].sessionId == sessionId
                                && forall j :: 0 <= j < k ==> players[j].sessionId != sessionId)
  {
    if players != [] && players[0].sessionId != sessionId {
      var rest := players[1..];
      PlayerOfSessionFirst(rest, sessionId);
      assert players == [players[0]] + rest;
      var me := PlayerOfSession(rest, sessionId);
      if me.Some? {
        var k :| 0 <= k < |rest| && rest[k] == me.value && rest[k].sessionId == sessionId
                && forall j :: 0 <= j < k ==> rest[j].sessionId != sessionId;
        assert players[k + 1] == me.value;
        assert forall j :: 0 <= j < k + 1 ==> players[j].sessionId != sessionId by {
          assert forall j :: 1 <= j < k + 1 ==> players[j] == rest[j - 1];
        }
      }
    }
  }

  /** A player appended after players of other sessions is the one found for its session. */
  lemma PlayerOfSessionAppended(players: seq<Player>, newcomer: Player)
    requires forall p :: p in players ==> p.sessionId != newcomer.sessionId
    ensures PlayerOfSession(players + [newcomer], newcomer.sessionId) == Some(newcomer)
  {
    var all := players + [newcomer];
    PlayerOfSessionFirst(all, newcomer.sessionId);
    var me := PlayerOfSession(all, newcomer.sessionId);
    assert newcomer in all;
    var k :| 0 <= k < |all| && all[k] == me.value && all[k].sessionId == newcomer.sessionId;
    assert forall j :: 0 <= j < |players| ==> all[j] in players;
  }

  /** The claim value kept for a fetched claim: a missing or empty colour shows as cyan. */
  function ClaimInfoOf(c: ClaimRow): ClaimInfo {
    ClaimInfo(c.playerId, ColorOr(c.playerColor))
  }

  /** The map `claimedData.forEach(c => claimedMap.set(c.number, ...))` leaves: a later claim of a number overrides an earlier one. */
  function ClaimedMapOf(claims: seq<ClaimRow>): map<int, ClaimInfo> {
    if claims == [] then map[]
    else ClaimedMapOf(claims[..|claims| - 1])[claims[|claims| - 1].number := ClaimInfoOf(claims[|claims| - 1])]
  }

  /** The snapshot map has exactly the fetched numbers as keys. */
  lemma {:induction false} ClaimedMapKeys(claims: seq<ClaimRow>)
    ensures ClaimedMapOf(claims).Keys == set i | 0 <= i < |claims| :: claims[i].number
  {
    if claims != [] {
      var init, last := claims[..|claims| - 1], claims[|claims| - 1];
      ClaimedMapKeys(init);
      var all := set i | 0 <= i < |claims| :: claims[i].number;
      var before := set i | 0 <= i < |init| :: init[i].number;
      forall n | n in all
        ensures n in before + {last.number}
      {
        var i :| 0 <= i < |claims| && claims[i].number == n;
        if i < |init| {
          assert init[i].number == n;
        }
      }
      forall n | n in before
        ensures n in all
      {
        var i :| 0 <= i < |init| && init[i].number == n;
        assert claims[i].number == n;
      }
    }
  }

  /** Every colour in the snapshot map is non-empty. */
  lemma {:induction false} ClaimedMapColours(claims: seq<ClaimRow>)
    ensures forall n :: n in ClaimedMapOf(claims) ==> ClaimedMapOf(claims)[n].playerColor != ""
  {
    if claims != [] {
      ClaimedMapColours(claims[..|claims| - 1]);
    }
  }

  /** Each fetched number maps to the last fetched claim of that number, its colour defaulting to cyan. */
  lemma {:induction false} ClaimedMapLastWins(claims: seq<ClaimRow>, i: nat)
    requires i < |claims|
    requires forall j :: i < j < |claims| ==> claims[j].number != claims[i].number
    ensures claims[i].number in ClaimedMapOf(claims)
    ensures ClaimedMapOf(claims)[claims[i].number] == ClaimInfoOf(claims[i])
  {
    if i < |claims| - 1 {
      var init := claims[..|claims| - 1];
      assert init[i] == claims[i];
      ClaimedMapLastWins(init, i);
    }
  }

  /** `claimedData.forEach(...)`, building the map one claim at a time. */
  method BuildClaimedMap(claims: seq<ClaimRow>) returns (claimedMap: map<int, ClaimInfo>)
    ensures claimedMap == ClaimedMapOf(claims)
  {
    claimedMap := map[];
    for i := 0 to |claims|
      invariant claimedMap == ClaimedMapOf(claims[..i])
    {
      assert claims[..i + 1][..i] == claims[..i];
      var c := claims[i];
      claimedMap := claimedMap[c.number := ClaimInfo(c.playerId, ColorOr(c.playerColor))];
    }
    assert claims[..|claims|] == claims;
  }

  /** `finished_at - started_at` when the room is finished and both timestamps are set. */
  function VictoryTime(room: GameRoom): (t: Option<int>)
    ensures t.Some? <==> room.status == Finished && room.startedAt.Some? && room.finishedAt.Some?
    ensures t.Some? ==> room.startedAt.value + t.value == room.finishedAt.value
  {
    if room.status == Finished && room.startedAt.Some? && room.finishedAt.Some? then
      Some(room.finishedAt.value - room.startedAt.value)
    else None
  }

  /** `room.grid_seed || room.room_code`: the seed the number layout is drawn from. */
  function LayoutSeed(room: GameRoom): (seed: string)
    ensures room.gridSeed.Some? && room.gridSeed.value != "" ==> seed == room.gridSeed.value
    ensures room.gridSeed.None? || room.gridSeed.value == "" ==> seed == room.roomCode
  {
    if room.gridSeed.Some? && room.gridSeed.value != "" then room.gridSeed.value else room.roomCode
  }

  class RoomPage {
    /** The code in the page's address, and this tab's game session. */
    const roomCode: string
    const sessionId: string

    var room: Option<GameRoom>
    var players: seq<Player>
    var currentPlayer: Option<Player>
    var claimedNumbers: map<int, ClaimInfo>
    var messages: seq<ChatMessage>
    var isLoading: bool
    var showVictory: bool
    var finalTime: int

    /** The viewer's player is always the first player of this session in the list, or none. */
    ghost predicate Valid()
      reads this
    {
      currentPlayer == PlayerOfSession(players, sessionId)
    }

    constructor (roomCode: string, sessionId: string)
      ensures Valid()
      ensures this.roomCode == roomCode && this.sessionId == sessionId
      ensures room == None && players == [] && currentPlayer == None && claimedNumbers == map[]
      ensures messages == [] && isLoading && !showVictory && finalTime == 0
    {
      this.roomCode, this.sessionId := roomCode, sessionId;
      room, players, currentPlayer, claimedNumbers := None, [], None, map[];
      messages, isLoading, showVictory, finalTime := [], true, false, 0;
    }

    /**
     * `fetchData`: the room is looked up by the page's code in `rooms`;
     * `playersData`, `claimData` and `messagesData` are the replies of the
     * other three queries (`None` when a query returned nothing).  An
     * unknown room sends the viewer home and leaves the page loading.
     */
    method LoadSnapshot(rooms: seq<GameRoom>, playersData: Option<seq<Player>>,
                        claimData: Option<seq<ClaimRow>>, messagesData: Option<seq<ChatMessage>>)
      returns (goHome: bool)
      requires Valid()
      modifies this
      ensures Valid()
      ensures goHome <==> roomCode != "" && sessionId != "" && SingleRoom(rooms, roomCode).None?
      ensures roomCode == "" || sessionId == "" || goHome ==>
                && room == old(room) && players == old(players) && currentPlayer == old(currentPlayer)
                && claimedNumbers == old(claimedNumbers) && messages == old(messages)
                && isLoading == old(isLoading) && showVictory == old(showVictory) && finalTime == old(finalTime)
      ensures roomCode != "" && sessionId != "" && !goHome ==>
                Snapshot(SingleRoom(rooms, roomCode).value, playersData, claimData, messagesData,
                         old(players), old(claimedNumbers), old(messages), old(showVictory), old(finalTime))
    {
      goHome := false;
      if roomCode == "" || sessionId == "" {
        return;
      }
      var found := SingleRoom(rooms, roomCode);
      if found.None? {
        goHome := true;
        return;
      }
      ApplySnapshot(found.value, playersData, claimData, messagesData);
    }

    /**
     * The page after a snapshot of `found`: each fetched list replaces the
     * old one, the claims become `ClaimedMapOf` the fetched claims, a
     * finished room shows the overlay with its time, and loading is over.
     */
    ghost predicate Snapshot(found: GameRoom, playersData: Option<seq<Player>>,
                             claimData: Option<seq<ClaimRow>>, messagesData: Option<seq<ChatMessage>>,
                             players0: seq<Player>, claimed0: map<int, ClaimInfo>, messages0: seq<ChatMessage>,
                             victory0: bool, time0: int)
      reads this
    {
      && room == Some(found)
      && players == (if playersData.Some? then playersData.value else players0)
      && claimedNumbers == (if claimData.Some? then ClaimedMapOf(claimData.value) else claimed0)
      && messages == (if messagesData.Some? then messagesData.value else messages0)
      && showVictory == (VictoryTime(found).Some? || victory0)
      && finalTime == (if VictoryTime(found).Some? then VictoryTime(found).value else time0)
      && !isLoading
    }

    /** The part of `fetchData` after the room was found. */
    method ApplySnapshot(found: GameRoom, playersData: Option<seq<Player>>,
                         claimData: Option<seq<ClaimRow>>, messagesData: Option<seq<ChatMessage>>)
      requires Valid()
      modifies this
      ensures Valid()
      ensures Snapshot(found, playersData, claimData, messagesData,
                       old(players), old(claimedNumbers), old(messages), old(showVictory), old(finalTime))
    {
      OnPlayersChanged(playersData);
      ReplaceClaims(claimData);
      var newMessages := if messagesData.Some? then messagesData.value else messages;
      var elapsed := VictoryTime(found);
      var victory := elapsed.Some? || showVictory;
      var time := if elapsed.Some? then elapsed.value else finalTime;
      room, messages := Some(found), newMessages;
      showVictory, finalTime, isLoading := victory, time, false;
    }

    /** The claims part of the snapshot: the fetched claims, when there are any, replace the map. */
    method ReplaceClaims(claimData: Option<seq<ClaimRow>>)
      requires Valid()
      modifies this
      ensures Valid()
      ensures claimedNumbers == if claimData.Some? then ClaimedMapOf(claimData.value) else old(claimedNumbers)
      ensures room == old(room) && players == old(players) && currentPlayer == old(currentPlayer)
      ensures messages == old(messages) && showVictory == old(showVictory) && finalTime == old(finalTime)
      ensures isLoading == old(isLoading)
    {
      if claimData.Some? {
        claimedNumbers := BuildClaimedMap(claimData.value);
      }
    }

    /**
     * A change to the room row: the room is replaced, and a finished room
     * with both timestamps shows the overlay with its time.  Nothing else
     * changes; in particular the claims stay and the overlay is never hidden.
     */
    method OnRoomUpdate(newRoom: GameRoom)
      requires Valid()
      modifies this
      ensures Valid()
      ensures room == Some(newRoom)
      ensures showVictory <==> old(showVictory) || VictoryTime(newRoom).Some?
      ensures finalTime == if VictoryTime(newRoom).Some? then VictoryTime(newRoom).value else old(finalTime)
      ensures claimedNumbers == old(claimedNumbers) && players == old(players)
      ensures currentPlayer == old(currentPlayer) && messages == old(messages) && isLoading == old(isLoading)
    {
      room := Some(newRoom);
      var time := VictoryTime(newRoom);
      if time.Some? {
        finalTime := time.value;
        showVictory := true;
      }
    }

    /** A change to the room's players: the list is fetched again (`data`) and the viewer's player looked up in it. */
    method OnPlayersChanged(data: Option<seq<Player>>)
      requires Valid()
      modifies this
      ensures Valid()
      ensures players == if data.Some? then data.value else old(players)
      ensures room == old(room) && claimedNumbers == old(claimedNumbers) && messages == old(messages)
      ensures showVictory == old(showVictory) && finalTime == old(finalTime) && isLoading == old(isLoading)
    {
      if data.Some? {
        players := data.value;
        currentPlayer := PlayerOfSession(players, sessionId);
      }
    }

    /**
     * A new claim: a copy of the map with that number set to the claimer and
     * the colour fetched for them (`color`), cyan when none was found.
     */
    method OnClaimInserted(number: int, playerId: string, color: Option<string>)
      requires Valid()
      modifies this
      ensures Valid()
      ensures claimedNumbers == old(claimedNumbers)[number := ClaimInfo(playerId, ColorOr(color))]
      ensures number in claimedNumbers && claimedNumbers[number].playerId == playerId
      ensures forall n :: n != number ==> (n in claimedNumbers <==> n in old(claimedNumbers))
      ensures forall n :: n != number && n in claimedNumbers ==> claimedNumbers[n] == old(claimedNumbers)[n]
      // a second delivery of the same event would leave the map as this one did
      ensures claimedNumbers[number := ClaimInfo(playerId, ColorOr(color))] == claimedNumbers
      ensures room == old(room) && players == old(players) && currentPlayer == old(currentPlayer)
      ensures messages == old(messages) && showVictory == old(showVictory) && finalTime == old(finalTime)
      ensures isLoading == old(isLoading)
    {
      claimedNumbers := claimedNumbers[number := ClaimInfo(playerId, ColorOr(color))];
    }

    /** A new chat message goes at the end; earlier messages stay, and repeats are kept. */
    method OnChatInserted(message: ChatMessage)
      requires Valid()
      modifies this
      ensures Valid()
      ensures messages == old(messages) + [message]
      ensures room == old(room) && players == old(players) && claimedNumbers == old(claimedNumbers)
      ensures showVictory == old(showVictory) && finalTime == old(finalTime) && isLoading == old(isLoading)
    {
      messages := messages + [message];
    }

    /** The guard of `handleNumberClick`: a room in play, a player of ours, the current target, not yet claimed. */
    predicate MayClaim(number: int)
      reads this
    {
      && room.Some? && currentPlayer.Some? && room.value.status == Playing
      && number == room.value.currentTarget
      && number !in claimedNumbers
    }

    /**
     * `handleNumberClick`: asks the server to claim the number only when
     * `MayClaim` holds; `reply` is the server's answer.  The page's own
     * state never changes here (a claim shows up through its realtime
     * event).  A successful claim posts "finished the game" when it ended
     * the game, or a milestone message on every tenth number.
     */
    method HandleNumberClick(number: int, reply: RpcReply) returns (claimRequested: bool, writes: seq<Write>)
      ensures claimRequested <==> MayClaim(number)
      ensures room.Some? && GridDisabled() ==> !claimRequested
      ensures writes != [] ==> claimRequested && reply.RpcResult? && reply.success
      ensures claimRequested && reply.RpcResult? && reply.success && reply.finished ==>
                writes == [InsertSystemMessage(room.value.id, currentPlayer.value.playerName + " finished the game!")]
      ensures claimRequested && reply.RpcResult? && reply.success && !reply.finished ==>
                writes == if number % 10 == 0
                          then [InsertSystemMessage(room.value.id, currentPlayer.value.playerName + " reached number " + IntToString(number) + "!")]
                          else []
    {
      writes := [];
      if !MayClaim(number) {
        return false, [];
      }
      claimRequested := true;
      if reply.RpcError? || !reply.success {
        return;
      }
      var roomId, name := room.value.id, currentPlayer.value.playerName;
      if reply.finished {
        writes := [InsertSystemMessage(roomId, name + " finished the game!")];
      } else if number % 10 == 0 {
        writes := [InsertSystemMessage(roomId, name + " reached number " + IntToString(number) + "!")];
      }
    }

    /**
     * `joinRoomAsPlayer`, with `joinName` the name typed.  `existingData` is
     * the reply for the room's players (`None` on error) and `newId`,
     * `createdAt` the id and timestamp the store gives an inserted row
     * (`None` when the insert failed).
     */
    method JoinAsPlayer(joinName: string, existingData: Option<seq<Player>>, newId: Option<string>, createdAt: string)
      returns (writes: seq<Write>)
      requires Valid()
      modifies this
      ensures Valid()
      ensures room == old(room) && claimedNumbers == old(claimedNumbers) && messages == old(messages)
      ensures showVictory == old(showVictory) && finalTime == old(finalTime) && isLoading == old(isLoading)
      ensures old(room).None? || sessionId == "" || IsBlank(joinName) || existingData.None? ==>
                writes == [] && players == old(players) && currentPlayer == old(currentPlayer)
      ensures old(room).Some? && sessionId != "" && !IsBlank(joinName) && existingData.Some? ==>
                var existing := existingData.value;
                var mine := PlayerOfSession(existing, sessionId);
                && (mine.Some? ==> writes == [] && players == existing && currentPlayer == mine)
                && (mine.None? && |existing| >= RoomCapacity ==>
                      writes == [] && players == old(players) && currentPlayer == old(currentPlayer))
                && (mine.None? && |existing| < RoomCapacity ==>
                      var name := Trim(joinName);
                      var color := PlayerColors[|existing|].hsl;
                      && |writes| >= 1
                      && writes[0] == InsertPlayer(old(room).value.id, name, color, false, sessionId)
                      && (newId.None? ==> |writes| == 1 && players == old(players) && currentPlayer == old(currentPlayer))
                      && (newId.Some? ==>
                            var joined := Player(newId.value, old(room).value.id, name, color, 0, false, sessionId, createdAt);
                            && writes == [writes[0], InsertSystemMessage(old(room).value.id, name + " joined the room")]
                            && players == existing + [joined] && currentPlayer == Some(joined)))
    {
      writes := [];
      if room.None? || sessionId == "" {
        return;
      }
      var trimmedName := Trim(joinName);
      if trimmedName == "" {
        return;
      }
      if existingData.None? {
        return;
      }
      var existing := existingData.value;
      var existingMe := PlayerOfSession(existing, sessionId);
      PlayerOfSessionFirst(existing, sessionId);
      if existingMe.Some? {
        currentPlayer := existingMe;
        players := existing;
        return;
      }
      if |existing| >= RoomCapacity {
        return;
      }
      var colorIndex := |existing|;
      var playerColor := PlayerColors[colorIndex].hsl;
      var roomId := room.value.id;
      writes := [InsertPlayer(roomId, trimmedName, playerColor, false, sessionId)];
      if newId.None? {
        return;
      }
      var inserted := Player(newId.value, roomId, trimmedName, playerColor, 0, false, sessionId, createdAt);
      writes := writes + [InsertSystemMessage(roomId, trimmedName + " joined the room")];
      PlayerOfSessionAppended(existing, inserted);
      currentPlayer := Some(inserted);
      players := existing + [inserted];
    }

    /** `sendMessage`: posted under the viewer's player, only when the room and that player are known. */
    method SendMessage(message: string) returns (writes: seq<Write>)
      ensures room.None? || currentPlayer.None? ==> writes == []
      ensures room.Some? && currentPlayer.Some? ==>
                writes == [InsertChatMessage(room.value.id, currentPlayer.value.id, currentPlayer.value.playerName, message)]
    {
      if room.None? || currentPlayer.None? {
        return [];
      }
      writes := [InsertChatMessage(room.value.id, currentPlayer.value.id, currentPlayer.value.playerName, message)];
    }

    /** `startGame`: the server decides; a successful start is announced, nothing else changes. */
    method StartGame(reply: RpcReply) returns (startRequested: bool, writes: seq<Write>)
      ensures startRequested <==> room.Some? && sessionId != ""
      ensures writes != [] <==> startRequested && reply.RpcResult? && reply.success
      ensures writes != [] ==> writes == [InsertSystemMessage(room.value.id, "Game started! Find the numbers in order!")]
    {
      if room.None? || sessionId == "" {
        return false, [];
      }
      startRequested := true;
      writes := [];
      if reply.RpcError? || !reply.success {
        return;
      }
      writes := [InsertSystemMessage(room.value.id, "Game started! Find the numbers in order!")];
    }

    /**
     * `handlePlayAgain`: when the server accepts the reset the claims are
     * cleared and the overlay hidden; an error or a refusal changes nothing.
     */
    method PlayAgain(reply: RpcReply) returns (writes: seq<Write>)
      requires Valid()
      modifies this
      ensures Valid()
      ensures var reset := old(room).Some? && sessionId != "" && reply.RpcResult? && reply.success;
        && (reset ==> claimedNumbers == map[] && !showVictory
                      && writes == [InsertSystemMessage(old(room).value.id, "Room reset! Ready for a new game.")])
        && (!reset ==> claimedNumbers == old(claimedNumbers) && showVictory == old(showVictory) && writes == [])
      ensures room == old(room) && players == old(players) && currentPlayer == old(currentPlayer)
      ensures messages == old(messages) && finalTime == old(finalTime) && isLoading == old(isLoading)
    {
      writes := [];
      if room.None? || sessionId == "" {
        return;
      }
      if reply.RpcError? || !reply.success {
        return;
      }
      claimedNumbers := map[];
      showVictory := false;
      writes := [InsertSystemMessage(room.value.id, "Room reset! Ready for a new game.")];
    }

    /** The grid is inert unless the room is in play (`disabled={room.status !== 'playing'}`). */
    predicate GridDisabled()
      reads this
      requires room.Some?
    {
      room.value.status != Playing
    }
  }
}
