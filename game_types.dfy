/**
 * The records the game exchanges with its backing store (rooms, players,
 * claims, chat messages) and the small value types shared by the client
 * components.  Nullable columns are `Option`s; timestamps are the
 * millisecond values `new Date(...).getTime()` gives for them.
 */
module GameTypes {

  datatype Option<T> = None | Some(value: T)

  datatype RoomStatus = Waiting | Playing | Finished

  datatype GameRoom = GameRoom(
    id: string,
    roomCode: string,
    hostId: string,
    maxNumbers: int,
    status: RoomStatus,
    currentTarget: int,
    gridSeed: Option<string>,
    startedAt: Option<int>,
    finishedAt: Option<int>,
    createdAt: string)

  datatype Player = Player(
    id: string,
    roomId: string,
    playerName: string,
    playerColor: string,
    score: int,
    isHost: bool,
    sessionId: string,
    createdAt: string)

  datatype ChatMessage = ChatMessage(
    id: string,
    roomId: string,
    playerId: Option<string>,
    playerName: string,
    message: string,
    isSystem: bool,
    createdAt: string)

  /** A row the client asks the store to insert. */
  datatype Write =
    | InsertRoom(roomCode: string, hostId: string, maxNumbers: int, gridSeed: string)
    | InsertPlayer(roomId: string, playerName: string, playerColor: string, isHost: bool, sessionId: string)
    | InsertSystemMessage(roomId: string, message: string)
    | InsertChatMessage(roomId: string, playerId: string, playerName: string, message: string)

  /** The value the client keeps per claimed number. */
  datatype ClaimInfo = ClaimInfo(playerId: string, playerColor: string)

  /** One laid-out number: percentage coordinates and a rotation in degrees. */
  datatype NumberPosition = NumberPosition(number: int, x: real, y: real, rotation: real)

  /** The most players a room takes; both ways of joining refuse a room that already has this many. */
  const RoomCapacity: nat := 4

  /** The colour shown when a claim's or a chat author's colour is unknown (the first palette entry). */
  const FallbackColor: string := "hsl(180, 100%, 50%)"

  /** `color || 'hsl(180, 100%, 50%)'`: a missing or empty colour falls back to cyan. */
  function ColorOr(color: Option<string>): (c: string)
    ensures c != ""
    ensures color.Some? && color.value != "" ==> c == color.value
    ensures color.None? || color.value == "" ==> c == FallbackColor
  {
    if color.Some? && color.value != "" then color.value else FallbackColor
  }

  /**
   * Index of the first element satisfying `p`, or `|s|` when there is none:
   * the search behind `Array.prototype.find` and the early-return loops.
   */
  function FindIndex<T>(s: seq<T>, p: T -> bool): (k: nat)
    ensures k <= |s|
    ensures forall j :: 0 <= j < k ==> !p(s[j])
    ensures k < |s| ==> p(s[k])
  {
    if s == [] then 0
    else if p(s[0]) then 0
    else 1 + FindIndex(s[1..], p)
  }

  /** `s.find(p)`: the first element satisfying `p`, if any. */
  function Find<T>(s: seq<T>, p: T -> bool): (r: Option<T>)
    ensures r.Some? ==> r.value in s && p(r.value)
    ensures r.None? ==> forall j :: 0 <= j < |s| ==> !p(s[j])
    ensures r.Some? ==> exists k :: 0 <= k < |s| && s[k] == r.value && forall j :: 0 <= j < k ==> !p(s[j])
  {
    var k := FindIndex(s, p);
    if k < |s| then Some(s[k]) else None
  }

  function Abs(v: real): (a: real)
    ensures a >= 0.0 && (a == v || a == -v)
  {
    if v < 0.0 then -v else v
  }

  function Max(a: real, b: real): (m: real)
    ensures m >= a && m >= b && (m == a || m == b)
  {
    if a >= b then a else b
  }

  function Min(a: real, b: real): (m: real)
    ensures m <= a && m <= b && (m == a || m == b)
  {
    if a <= b then a else b
  }
}
