/**
 * The lobby page: the form a player fills in, and the create-room and
 * join-room procedures with their checks and the rows they write.  The
 * store's replies (the inserted room's id, whether an insert failed, the
 * rows a query returned) are parameters; the rows written are results.
 */
module Lobby {
  import opened Text
  import opened GameTypes
  import opened GameUtils

  /** The toasts that end a procedure early. */
  datatype Notice = EnterName | EnterRoomCode | RoomNotFound | GameInProgress | RoomFull | CreateFailed | JoinFailed

  datatype Outcome = Rejected(notice: Notice) | NavigateTo(path: string)

  const MinGridNumbers: int := 9
  const MaxGridNumbers: int := 100
  const DefaultGridNumbers: int := 25
  const NameMaxLength: nat := 20

  /** The form's state: the name, the room code typed to join, and the grid size for a new room. */
  class LobbyForm {
    var playerName: string
    var roomCode: string
    var maxNumbers: int

    /** The name fits its field, the code is upper case and at most 6 characters, and the slider is in range. */
    ghost predicate Valid()
      reads this
    {
      && |playerName| <= NameMaxLength
      && |roomCode| <= RoomCodeLength && ToUpper(roomCode) == roomCode
      && MinGridNumbers <= maxNumbers <= MaxGridNumbers
    }

    constructor ()
      ensures Valid()
      ensures playerName == "" && roomCode == "" && maxNumbers == DefaultGridNumbers
    {
      playerName, roomCode, maxNumbers := "", "", DefaultGridNumbers;
    }

    /** The name field keeps at most 20 characters. */
    method SetPlayerName(value: string)
      requires Valid()
      modifies this
      ensures Valid()
      ensures playerName == Limited(value, NameMaxLength)
      ensures roomCode == old(roomCode) && maxNumbers == old(maxNumbers)
    {
      playerName := Limited(value, NameMaxLength);
    }

    /** The code field keeps at most 6 characters and stores them upper-cased. */
    method SetRoomCode(value: string)
      requires Valid()
      modifies this
      ensures Valid()
      ensures roomCode == ToUpper(Limited(value, RoomCodeLength))
      ensures playerName == old(playerName) && maxNumbers == old(maxNumbers)
    {
      roomCode := ToUpper(Limited(value, RoomCodeLength));
      UpperIdempotent(Limited(value, RoomCodeLength));
    }

    /** The range slider only produces whole numbers from 9 to 100. */
    method SetMaxNumbers(value: int)
      requires Valid() && MinGridNumbers <= value <= MaxGridNumbers
      modifies this
      ensures Valid()
      ensures maxNumbers == value
      ensures playerName == old(playerName) && roomCode == old(roomCode)
    {
      maxNumbers := value;
    }
  }

  /** What a text field with `maxLength` keeps of a value: its first `maxLength` characters. */
  function Limited(value: string, maxLength: nat): (kept: string)
    ensures |kept| <= maxLength && |kept| <= |value| && kept == value[..|kept|]
    ensures |value| <= maxLength ==> kept == value
  {
    if |value| <= maxLength then value else value[..maxLength]
  }

  /** Upper-casing an upper-cased string changes nothing. */
  lemma UpperIdempotent(s: string)
    ensures ToUpper(ToUpper(s)) == ToUpper(s)
  {
  }

  /** `${newRoomCode}_${Date.now()}`. */
  function GridSeed(roomCode: string, now: nat): (seed: string)
    ensures |seed| > |roomCode| + 1
    ensures seed[..|roomCode|] == roomCode && seed[|roomCode|] == '_'
    ensures AllDigits(seed[|roomCode| + 1..]) && DigitsValue(seed[|roomCode| + 1..]) == now
  {
    NatToStringRoundTrip(now);
    var seed := roomCode + "_" + NatToString(now);
    assert seed[|roomCode| + 1..] == NatToString(now);
    seed
  }

  /**
   * `createRoom`.  `newRoomCode` is the code `generateRoomCode` drew and
   * `now` the clock reading; `roomId` is the id of the inserted room, or
   * `None` when the room insert failed, and `playerInserted` whether the
   * host's player row went in.
   */
  method CreateRoom(playerName: string, sessionId: string, maxNumbers: int, newRoomCode: string, now: nat,
                    roomId: Option<string>, playerInserted: bool)
    returns (writes: seq<Write>, outcome: Outcome)
    ensures IsBlank(playerName) ==> writes == [] && outcome == Rejected(EnterName)
    ensures !IsBlank(playerName) ==>
              && |writes| >= 1
              && writes[0] == InsertRoom(newRoomCode, sessionId, maxNumbers, GridSeed(newRoomCode, now))
    ensures !IsBlank(playerName) && roomId.Some? ==>
              && |writes| >= 2
              && writes[1] == InsertPlayer(roomId.value, Trim(playerName), PlayerColors[0].hsl, true, sessionId)
    ensures outcome.NavigateTo? <==> !IsBlank(playerName) && roomId.Some? && playerInserted
    ensures outcome.NavigateTo? ==>
              && outcome.path == "/room/" + newRoomCode
              && |writes| == 3 && writes[2] == InsertSystemMessage(roomId.value, Trim(playerName) + " created the room")
    ensures outcome.Rejected? && !IsBlank(playerName) ==> outcome.notice == CreateFailed
    ensures !IsBlank(playerName) && roomId.None? ==> |writes| == 1
    ensures !IsBlank(playerName) && roomId.Some? && !playerInserted ==> |writes| == 2
  {
    if IsBlank(playerName) {
      return [], Rejected(EnterName);
    }
    var name := Trim(playerName);
    var gridSeed := GridSeed(newRoomCode, now);
    writes := [InsertRoom(newRoomCode, sessionId, maxNumbers, gridSeed)];
    if roomId.None? {
      return writes, Rejected(CreateFailed);
    }
    var room := roomId.value;
    writes := writes + [InsertPlayer(room, name, PlayerColors[0].hsl, true, sessionId)];
    if !playerInserted {
      return writes, Rejected(CreateFailed);
    }
    writes := writes + [InsertSystemMessage(room, name + " created the room")];
    outcome := NavigateTo("/room/" + newRoomCode);
  }

  /** `.eq('room_code', code).single()`: the one room with that code; no room, or several, is an error. */
  function SingleRoom(rooms: seq<GameRoom>, code: string): (r: Option<GameRoom>)
    ensures r.Some? ==> r.value in rooms && r.value.roomCode == code
    ensures r.Some? <==> |MatchingRooms(rooms, code)| == 1
  {
    var matches := MatchingRooms(rooms, code);
    if |matches| == 1 then Some(matches[0]) else None
  }

  function MatchingRooms(rooms: seq<GameRoom>, code: string): (m: seq<GameRoom>)
    ensures forall r :: r in m ==> r in rooms && r.roomCode == code
    ensures forall r :: r in rooms && r.roomCode == code ==> r in m
  {
    if rooms == [] then []
    else (if rooms[0].roomCode == code then [rooms[0]] else []) + MatchingRooms(rooms[1..], code)
  }

  /** The code the room is looked up by: `roomCode.toUpperCase().trim()`. */
  function LookupKey(roomCode: string): (key: string)
  {
    Trim(ToUpper(roomCode))
  }

  /**
   * `joinRoom`.  `rooms` is the room table the code is looked up in;
   * `existing` is the reply to the query for the room's players (`None`
   * when it failed), and `playerInserted` whether the new player row went in.
   */
  method JoinRoom(playerName: string, roomCode: string, sessionId: string, rooms: seq<GameRoom>,
                  existing: Option<seq<Player>>, playerInserted: bool)
    returns (writes: seq<Write>, outcome: Outcome)
    ensures IsBlank(playerName) ==> writes == [] && outcome == Rejected(EnterName)
    ensures !IsBlank(playerName) && IsBlank(roomCode) ==> writes == [] && outcome == Rejected(EnterRoomCode)
    ensures !IsBlank(playerName) && !IsBlank(roomCode) ==>
              var room := SingleRoom(rooms, LookupKey(roomCode));
              && (room.None? ==> writes == [] && outcome == Rejected(RoomNotFound))
              && (room.Some? && room.value.status != Waiting ==> writes == [] && outcome == Rejected(GameInProgress))
              && (room.Some? && room.value.status == Waiting && existing.Some? && |existing.value| >= RoomCapacity ==>
                    writes == [] && outcome == Rejected(RoomFull))
              && (room.Some? && room.value.status == Waiting && existing.Some? && |existing.value| < RoomCapacity
                  && (exists p :: p in existing.value && p.sessionId == sessionId) ==>
                    writes == [] && outcome == NavigateTo("/room/" + ToUpper(roomCode)))
    ensures writes != [] ==>
              && !IsBlank(playerName) && !IsBlank(roomCode)
              && var room := SingleRoom(rooms, LookupKey(roomCode));
              && room.Some? && room.value.status == Waiting
              && var count := if existing.Some? then |existing.value| else 0;
              && count < RoomCapacity
              && (existing.Some? ==> forall p :: p in existing.value ==> p.sessionId != sessionId)
              && writes[0] == InsertPlayer(room.value.id, Trim(playerName), PlayerColors[count].hsl, false, sessionId)
    ensures !IsBlank(playerName) && !IsBlank(roomCode) ==>
              var room := SingleRoom(rooms, LookupKey(roomCode));
              var count := if existing.Some? then |existing.value| else 0;
              (&& room.Some? && room.value.status == Waiting && count < RoomCapacity
               && (existing.Some? ==> forall p :: p in existing.value ==> p.sessionId != sessionId)) ==>
                && writes != []
                && writes[0] == InsertPlayer(room.value.id, Trim(playerName), PlayerColors[count].hsl, false, sessionId)
    ensures writes != [] && !playerInserted ==> |writes| == 1 && outcome == Rejected(JoinFailed)
    ensures outcome.NavigateTo? ==> outcome.path == "/room/" + ToUpper(roomCode)
    ensures writes != [] ==>
              && (outcome.NavigateTo? <==> playerInserted)
              && (playerInserted ==> |writes| == 2 && writes[1] == InsertSystemMessage(writes[0].roomId, Trim(playerName) + " joined the room"))
  {
    if IsBlank(playerName) {
      return [], Rejected(EnterName);
    }
    if IsBlank(roomCode) {
      return [], Rejected(EnterRoomCode);
    }
    var name := Trim(playerName);
    var found := SingleRoom(rooms, LookupKey(roomCode));
    if found.None? {
      return [], Rejected(RoomNotFound);
    }
    var room := found.value;
    if room.status != Waiting {
      return [], Rejected(GameInProgress);
    }
    if existing.Some? && |existing.value| >= RoomCapacity {
      return [], Rejected(RoomFull);
    }
    if existing.Some? {
      var me := Find(existing.value, (p: Player) => p.sessionId == sessionId);
      if me.Some? {
        return [], NavigateTo("/room/" + ToUpper(roomCode));
      }
    }
    var colorIndex := if existing.Some? then |existing.value| else 0;
    writes := [InsertPlayer(room.id, name, PlayerColors[colorIndex].hsl, false, sessionId)];
    if !playerInserted {
      return writes, Rejected(JoinFailed);
    }
    writes := writes + [InsertSystemMessage(room.id, name + " joined the room")];
    outcome := NavigateTo("/room/" + ToUpper(roomCode));
  }

  /**
   * A code typed into the form (upper case, at most 6 characters) that finds
   * a room with a 6-character code is that code exactly, so the page the
   * join navigates to is the room that was found.
   */
  lemma JoinNavigatesToFoundRoom(roomCode: string, rooms: seq<GameRoom>)
    requires |roomCode| <= RoomCodeLength && ToUpper(roomCode) == roomCode
    requires SingleRoom(rooms, LookupKey(roomCode)).Some?
    requires |SingleRoom(rooms, LookupKey(roomCode)).value.roomCode| == RoomCodeLength
    ensures ToUpper(roomCode) == SingleRoom(rooms, LookupKey(roomCode)).value.roomCode
  {
    TrimKeepsFull(roomCode);
  }
}
