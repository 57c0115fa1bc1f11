# Fast Eyes — a verified model of the client core

Fast Eyes is a multiplayer race. Up to four players in a room hunt for the
numbers 1, 2, 3, … scattered over a shared board, and each claims the
current target by clicking it first. This project models, in Dafny, the
client-side logic the game is built from:

- **The seeded layout pipeline.** This covers:
  - the 32-bit string hash that seeds `seededRandom`;
  - the stream of draws it produces;
  - the Fisher–Yates `shuffleArray`;
  - the canvas layout: a shuffled ⌈√n⌉ × ⌈√n⌉ grid, with jitter, clamp and rotation;
  - the scattered layout: rejection sampling with at most 50 attempts per number;
  - the click hit-test.
- **The shared helpers.** These are room codes, the four-colour palette,
  `formatTime` and `getGridDimensions`.
- **The room page's local mirror of the game (`RoomPage`).** It holds the
  room, the players, the viewer's own player, the claimed numbers, the chat
  and the victory overlay. It has one method per handler: the snapshot, the
  realtime room, player, claim and chat events, the claim click, joining
  from the room page, chat, start and play-again.
- **The lobby.** This is the form state, `createRoom` and `joinRoom`, with
  their checks in the order the page makes them and the rows they insert.
- **The small pure rules.** These are:
  - the score ranking, which is a stable sort;
  - the winner, the medals and the rank labels;
  - the player list's "(You)" and host markers;
  - the chat colour lookup and the submit rule;
  - the find-in-page key guard.

Modules follow the source files:

| module | file |
|---|---|
| `Text` | JavaScript `trim`, `toUpperCase` and number printing |
| `GameTypes` | `src/types/game.ts` |
| `GameUtils` | `src/lib/gameUtils.ts` |
| `CanvasGrid` | `src/components/game/CanvasNumberGrid.tsx` |
| `NumberGrid` | `src/components/game/NumberGrid.tsx` |
| `Ranking` | the score ranking shared by the overlay and the player list |
| `VictoryOverlay` | `src/components/game/VictoryOverlay.tsx` |
| `PlayerList` | `src/components/game/PlayerList.tsx` |
| `ChatBox` | `src/components/game/ChatBox.tsx` |
| `AntiCheat` | `src/hooks/useAntiCheat.ts` |
| `Lobby` | `src/pages/Index.tsx` |
| `GameRoomPage` | `src/pages/GameRoom.tsx` |

**Randomness.** The generator's floating-point update `Math.sin(hash) * 10000`
is a parameter `step: real -> real`. A draw is the fractional part of the
state after that many steps, so every draw lies in [0, 1) whatever `step`
is. The seed hash is modelled exactly. Characters become UTF-16 code units,
as `charCodeAt` reads them. The statements `hash = ((hash << 5) - hash) + char;
hash = hash & hash` are proved to be one step `hash = int32(31 * hash + char)`.

**The backing store.** Query results, the replies of the server procedures
`claim_number`, `start_game` and `reset_game`, and the rows realtime events
carry are all parameters. The rows the client asks the store to insert are
results, as `Write` values. Each handler is taken as one step.

**Mutable state.** State is modelled where the source mutates it:
- the shuffle works in place on an `array`;
- the generator, the chat input, the lobby form and the room page are
  classes whose methods state their whole new state.

## Model

| member | source | states |
|---|---|---|
| GameUtils.ToInt32 | src/lib/gameUtils.ts:6-7 | ECMAScript ToInt32: the result is a signed 32-bit integer congruent to the input modulo 2^32, and a 32-bit input is returned unchanged |
| GameUtils.HashStep | src/lib/gameUtils.ts:6-7 | one seed-hash step always yields a signed 32-bit integer |
| GameUtils.ShiftFormIsHashStep | src/lib/gameUtils.ts:6-7 | the shift-and-mask statements compute exactly `int32(31 * hash + char)` for every hash and character code |
| GameUtils.CodeUnits | src/lib/gameUtils.ts:5 | a character is one or two UTF-16 code units below 0x10000, and a BMP character is its own code |
| GameUtils.Utf16 | src/lib/gameUtils.ts:4-5 | a string has at least as many code units as characters and is empty exactly when it has none |
| GameUtils.HashOf | src/lib/gameUtils.ts:3-8 | folding the hash step over code units stays in the 32-bit range and starts from 0 |
| GameUtils.SeedHash | src/lib/gameUtils.ts:3-8 | the seed hash is a signed 32-bit integer and the empty seed hashes to 0 |
| GameUtils.HashSeed | src/lib/gameUtils.ts:3-8 | the hashing loop yields `SeedHash(seed)`, so equal seeds give equal initial states and equal streams |
| GameUtils.Frac | src/lib/gameUtils.ts:12 | `v - floor(v)` lies in [0, 1) and differs from `v` by a whole number |
| GameUtils.Draw | src/lib/gameUtils.ts:10-13 | every value of the stream lies in [0, 1) |
| GameUtils.SeededRandom.constructor | src/lib/gameUtils.ts:2-9 | a new generator starts at the seed hash with nothing drawn |
| GameUtils.SeededRandom.Next | src/lib/gameUtils.ts:10-13 | each call returns the next value of the stream, in [0, 1), and advances the stream by one |
| GameUtils.ScaledIndex | src/lib/gameUtils.ts:21 | `floor(r * n)` for a draw r in [0, 1) is an index in [0, n), so the swap partner j satisfies 0 ≤ j ≤ i |
| GameUtils.Swap | src/lib/gameUtils.ts:22 | the destructuring swap exchanges positions i and j and leaves every other position alone |
| GameUtils.SwapPermutes | src/lib/gameUtils.ts:22 | a swap keeps the multiset of elements |
| GameUtils.SwapKeepsDistinct | src/lib/gameUtils.ts:22 | a swap keeps a repetition-free list repetition-free |
| GameUtils.Shuffled | src/lib/gameUtils.ts:19-22 | defines the Fisher–Yates loop from index i down, draw k swapping i with floor(draw·(i+1)); `ShuffleArray` is proved equal to it and `ShuffledPermutes`/`ShuffledKeepsDistinct` carry its properties |
| GameUtils.ShuffledPermutes | src/lib/gameUtils.ts:20-23 | the whole shuffle keeps the length and the multiset of elements |
| GameUtils.ShuffledKeepsDistinct | src/lib/gameUtils.ts:20-23 | the shuffle of a repetition-free list is repetition-free |
| GameUtils.DrawAndSwap | src/lib/gameUtils.ts:21-22 | one loop turn takes one draw, swaps index i with `floor(draw * (i + 1))` and leaves the turns from i − 1 on |
| GameUtils.FisherYatesInPlace | src/lib/gameUtils.ts:20-23 | the in-place loop leaves the array equal to the specified shuffle of its old contents, taking one draw per index from the last down to 1 |
| GameUtils.ShuffleArray | src/lib/gameUtils.ts:16-26 | a fresh array holding the seed's shuffle of the input, a permutation of it; the input is not modified |
| GameUtils.RoomCodeAlphabetFacts | src/lib/gameUtils.ts:29 | the alphabet has 32 symbols, upper-case letters other than I and O and digits 2–9 |
| GameUtils.GenerateRoomCode | src/lib/gameUtils.ts:28-35 | the code has exactly 6 characters, character k being the alphabet symbol `floor(draw_k * 32)` picks |
| GameUtils.PlayerColorsFacts | src/lib/gameUtils.ts:41-46 | exactly four colours with pairwise distinct hsl values, cyan first and equal to the fallback colour |
| GameUtils.JsRemainder | src/lib/gameUtils.ts:51-52 | JavaScript `%` takes the sign of the dividend: the mathematical remainder for non-negative values, in (−b, 0] otherwise |
| GameUtils.Pad2 | src/lib/gameUtils.ts:54 | defines `padStart(2, '0')` of the decimal string; properties in `Pad2Small` |
| GameUtils.FormatTime | src/lib/gameUtils.ts:48-55 | defines `formatTime` with floor division and JavaScript remainders; properties in `FormatTimeFields`, `TimeDecomposition` and `FormatTimeReadsBack` |
| GameUtils.Pad2Small | src/lib/gameUtils.ts:54 | a padded field below 100 is exactly two digits reading back as the number |
| GameUtils.SplitDisplay | src/lib/gameUtils.ts:54 | the three fields of `m:ss.cc` are recovered from their positions in the string |
| GameUtils.DisplayFields | src/lib/gameUtils.ts:54 | the displayed fields read back as minutes, seconds and hundredths |
| GameUtils.FormatTimeFields | src/lib/gameUtils.ts:49-54 | for a non-negative time, the floors and JavaScript remainders are the plain quotients and remainders |
| GameUtils.TimeDecomposition | src/lib/gameUtils.ts:49-52 | seconds are below 60, hundredths below 100, and minutes, seconds, hundredths and the last digit add up to the time |
| GameUtils.FormatTimeReadsBack | src/lib/gameUtils.ts:48-55 | for ms ≥ 0 the display has the shape `MM:SS.cc` and reads back as ms div 60000, (ms div 1000) mod 60 and (ms mod 1000) div 10 |
| GameUtils.GetGridDimensions | src/lib/gameUtils.ts:57-64 | the grid is square with side 5–10, has room for up to 100 numbers, and is the smallest such square above 5 |
| GameUtils.GridDimensionsMonotone | src/lib/gameUtils.ts:57-64 | more numbers never give a smaller grid |
| Text.Trim | src/components/game/ChatBox.tsx:26-27 | `trim()` is the infix left after removing whitespace at both ends: it starts and ends with non-whitespace and is empty exactly for all-whitespace input |
| Text.TrimIdempotent | src/components/game/ChatBox.tsx:26-27 | trimming a trimmed string changes nothing |
| Text.TrimKeepsFull | src/pages/Index.tsx:112 | a trim that keeps every character returns the string unchanged |
| Text.NatToString | src/components/game/VictoryOverlay.tsx:120 | `toString()` of a natural number is a non-empty string of digits without a leading zero |
| Text.NatToStringRoundTrip | src/components/game/VictoryOverlay.tsx:120 | the printed digits read back as the number |
| Text.PadStart | src/lib/gameUtils.ts:54 | `padStart` keeps the string as a suffix and fills up to the width with the pad character |
| Text.PaddedValue | src/lib/gameUtils.ts:54 | a zero-padded rendering reads back as the number |
| Text.UpperChar | src/pages/Index.tsx:308 | `toUpperCase` turns a lower-case ASCII letter into its capital and leaves every other character as it is |
| Text.ToUpper | src/pages/Index.tsx:308 | `toUpperCase` keeps the length and maps each character by `UpperChar`; idempotence in `Lobby.UpperIdempotent` |
| Text.IntToString | src/pages/GameRoom.tsx:366 | a number in a template string prints as digits reading back as the number, after a minus sign when it is negative |
| GameTypes.ColorOr | src/pages/GameRoom.tsx:88 | `color \|\| 'hsl(180, 100%, 50%)'`: a present, non-empty colour is kept, otherwise cyan; never empty |
| GameTypes.Find | src/components/game/ChatBox.tsx:33 | `find` returns the first element satisfying the predicate, or nothing when none does |
| CanvasGrid.GridSize | src/components/game/CanvasNumberGrid.tsx:39 | ⌈√n⌉ is the least g with g·g ≥ n |
| CanvasGrid.CellExtent | src/components/game/CanvasNumberGrid.tsx:40-41 | the cell side `100 / gridSize` is positive |
| CanvasGrid.Clamp | src/components/game/CanvasNumberGrid.tsx:62-63 | the clamp lies in [6, 94] and leaves a value already inside unchanged |
| CanvasGrid.RowsCells | src/components/game/CanvasNumberGrid.tsx:46-51 | the first rows of the grid list each cell of those rows exactly once |
| CanvasGrid.RowMajor | src/components/game/CanvasNumberGrid.tsx:46-51 | defines the cell list the nested loops build; properties in `RowMajorCells`, and `GridPositions` is proved to build it |
| CanvasGrid.RowMajorCells | src/components/game/CanvasNumberGrid.tsx:46-51 | before shuffling the list has g·g entries, each (row, col) of the grid exactly once |
| CanvasGrid.GridPositions | src/components/game/CanvasNumberGrid.tsx:46-51 | the nested loops push the cells in row-major order |
| CanvasGrid.Jitter | src/components/game/CanvasNumberGrid.tsx:62-63 | the jitter moves a coordinate by at most a quarter cell either way |
| CanvasGrid.ClampMonotone | src/components/game/CanvasNumberGrid.tsx:62-63 | clamping preserves order |
| CanvasGrid.ShuffledGrid | src/components/game/CanvasNumberGrid.tsx:53-56 | the shuffled cell list is a permutation of the grid, without repetitions, every cell inside the grid |
| CanvasGrid.PositionAt | src/components/game/CanvasNumberGrid.tsx:59-69 | defines one placement: clamped, jittered centre from draws k and k + 1, rotation from draw k + 2; `PositionAtPlaced` bounds it |
| CanvasGrid.Placements | src/components/game/CanvasNumberGrid.tsx:58-71 | defines what the placement loop has built after `count` turns, of length `count`; entries in `PlacementsEntries`, and `PlaceNumbers` is proved to build it |
| CanvasGrid.Layout | src/components/game/CanvasNumberGrid.tsx:35-75 | defines `numberPositions` for n numbers from a stream state, of length n; entries in `LayoutEntries`, properties in `LayoutProperties`, and `NumberPositions` is proved equal to it |
| CanvasGrid.PlacedIn | src/components/game/CanvasNumberGrid.tsx:59-69 | states where a number placed in a cell may lie: in [6, 94]², within a quarter cell of the centre up to the clamp, rotation in [−15, 15); proved of every placement by `PositionAtPlaced` |
| CanvasGrid.PlacementsEntries | src/components/game/CanvasNumberGrid.tsx:58-71 | entry k is number k + 1 placed in cell k with draws 3k, 3k + 1 and 3k + 2 of the loop |
| CanvasGrid.LayoutEntries | src/components/game/CanvasNumberGrid.tsx:58-71 | entry k carries number k + 1 and is placed in the k-th shuffled cell |
| CanvasGrid.PositionAtPlaced | src/components/game/CanvasNumberGrid.tsx:59-69 | a placed number lies in [6, 94]², within a quarter cell of its cell centre up to the clamp, with rotation in [−15, 15) |
| CanvasGrid.LayoutProperties | src/components/game/CanvasNumberGrid.tsx:35-75 | numbers 1..n in order, distinct numbers in distinct cells, and each placed in its cell as above |
| CanvasGrid.NumberPositions | src/components/game/CanvasNumberGrid.tsx:35-75 | the imperative computation yields exactly `Layout(n)` for the seed's stream |
| CanvasGrid.ShuffleGridPositions | src/components/game/CanvasNumberGrid.tsx:46-56 | building and shuffling the cells in place gives the specified shuffled grid, using g·g − 1 draws |
| CanvasGrid.PlaceNumbers | src/components/game/CanvasNumberGrid.tsx:58-71 | the placement loop yields the specified placements, three draws per number |
| CanvasGrid.PlaceNumber | src/components/game/CanvasNumberGrid.tsx:59-70 | one turn draws x, y and rotation in that order and places the number as specified |
| CanvasGrid.Hit | src/components/game/CanvasNumberGrid.tsx:192-199 | states the loop's test: unclaimed, and within 5.5 of the click on both axes; `HandleClick` and `HandleMouseMove` are proved against it |
| CanvasGrid.HandleClick | src/components/game/CanvasNumberGrid.tsx:177-204 | disabled reports nothing; otherwise the first unclaimed position within 5.5 on both axes is reported; a claimed number never is |
| CanvasGrid.HandleMouseMove | src/components/game/CanvasNumberGrid.tsx:207-236 | the pointer cursor shows exactly when enabled and a click would hit an unclaimed number |
| NumberGrid.AnyTooCloseExactly | src/components/game/NumberGrid.tsx:48-51 | `some` holds exactly when some placed number is within 9.6 on both axes |
| NumberGrid.SpotCoord | src/components/game/NumberGrid.tsx:43-44 | a draw scaled by `padding + r * (100 - 2 * padding - cellSize)` lies in [8, 80) |
| NumberGrid.Rotation | src/components/game/NumberGrid.tsx:58 | `(random() - 0.5) * 30` lies in [−15, 15) |
| NumberGrid.DrawSpot | src/components/game/NumberGrid.tsx:43-44 | one attempt takes the next two draws of the stream, x from the first and y from the second, both scaled into the area |
| NumberGrid.Search | src/components/game/NumberGrid.tsx:42-52 | the search from attempt a ends after at least a and at most 50 attempts |
| NumberGrid.SearchBounds | src/components/game/NumberGrid.tsx:42-52 | the search ends with a spot in the area that is clear of every placed number unless all 50 attempts were used |
| NumberGrid.SearchStopsAtFirstClear | src/components/game/NumberGrid.tsx:42-52 | the search keeps the spot of its last attempt, and every earlier attempt was rejected as too close, so it stops at the first clear spot or at the 50th attempt |
| NumberGrid.FindSpot | src/components/game/NumberGrid.tsx:38-52 | the do/while loop computes exactly `Search` from the current draw, taking two draws per attempt |
| NumberGrid.Scatter | src/components/game/NumberGrid.tsx:31-63 | defines the whole scattered layout for n numbers from a stream state, of length n; `ScatterPositions` is proved equal to it and `ScatteredSpacing` carries its spacing |
| NumberGrid.ScatterOne | src/components/game/NumberGrid.tsx:38-59 | one turn of the outer loop yields the specified entry for the next number and advances the stream past its search and its rotation draw |
| NumberGrid.ScatterPositions | src/components/game/NumberGrid.tsx:31-63 | the computation yields exactly `Scatter(maxNumbers)` for the seed's stream, so equal seeds and counts give equal layouts; entry i is numbered i + 1, in the area, with rotation in [−15, 15), clear of earlier numbers unless it used 50 attempts |
| NumberGrid.ScatteredSpacing | src/components/game/NumberGrid.tsx:37-60 | numbers strictly increase along the layout, and a number placed in under 50 attempts is clear of every earlier number |
| NumberGrid.CellViewOf | src/components/game/NumberGrid.tsx:74-91 | defines the props one number button receives; stated per cell by `CellViews` |
| NumberGrid.CellViews | src/components/game/NumberGrid.tsx:73-92 | one button per position: claimed iff its number is a key of the map (with that colour), target iff it equals the current target, pressable iff neither disabled nor claimed |
| NumberGrid.ExactlyOneTarget | src/components/game/NumberGrid.tsx:86 | with numbers 1..n and a target among them, exactly one button is the target |
| Ranking.InsertPermutes | src/components/game/VictoryOverlay.tsx:22 | inserting a player adds exactly that player |
| Ranking.InsertKeepsDescending | src/components/game/VictoryOverlay.tsx:22 | inserting into a list sorted by descending score keeps it sorted |
| Ranking.SortByScore | src/components/game/VictoryOverlay.tsx:22 | the sorted copy has as many players as the input |
| Ranking.SortByScoreSameMultiset | src/components/game/VictoryOverlay.tsx:22 | sorting neither adds nor drops a player |
| Ranking.SortByScoreDescending | src/components/game/VictoryOverlay.tsx:22 | scores never increase along the sorted copy |
| Ranking.SortByScorePermutes | src/components/game/PlayerList.tsx:12 | the sorted copy is a permutation of the players with non-increasing scores |
| Ranking.InsertKeepsClasses | src/components/game/VictoryOverlay.tsx:22 | inserting a player appends it to its own score class and leaves every other class as it was |
| Ranking.SortByScoreStable | src/components/game/VictoryOverlay.tsx:22 | the sort is stable: players with equal scores keep their input order |
| VictoryOverlay.Winner | src/components/game/VictoryOverlay.tsx:23 | the winner is absent only for an empty room, and otherwise a player whose score is at least every player's |
| VictoryOverlay.MedalFor | src/components/game/VictoryOverlay.tsx:60-65 | a trophy exactly at index 0, a medal exactly at indices 1 and 2, nothing from index 3 on |
| VictoryOverlay.RankLabel | src/components/game/VictoryOverlay.tsx:120 | the label is `#` followed by digits reading back as index + 1 |
| VictoryOverlay.VictoryRows | src/components/game/VictoryOverlay.tsx:104-138 | row k shows the k-th ranked player, rank label k + 1 and medal k, and only the first row is highlighted |
| VictoryOverlay.VictoryRowsRanked | src/components/game/VictoryOverlay.tsx:22-23 | the rows show every player exactly once, scores never increase down the rows, and the first row is the winner's |
| PlayerList.PlayerRows | src/components/game/PlayerList.tsx:17-60 | one row per player in ranked order, "(You)" exactly where the id is the viewer's, a crown exactly for the host |
| PlayerList.IdCountSorted | src/components/game/PlayerList.tsx:12 | sorting keeps how many players carry a given id |
| PlayerList.YouExactlyOnce | src/components/game/PlayerList.tsx:48-50 | with unique ids, "(You)" appears on exactly one row when the viewer has a player and on none otherwise |
| ChatBox.PlayerColor | src/components/game/ChatBox.tsx:32-35 | the colour of the first player with that name; cyan when there is none or its colour is empty; never empty |
| ChatBox.MessageLines | src/components/game/ChatBox.tsx:46-71 | one line per message, in order: system messages plainly, others under their author's colour |
| ChatBox.ChatInput.constructor | src/components/game/ChatBox.tsx:17 | the input starts empty |
| ChatBox.SendDisabled | src/components/game/ChatBox.tsx:88 | states `disabled={!input.trim()}`; `ChatInput.Submit` sends exactly when it is false and `SentMessageTrimmed` shows a sent message never disables it |
| ChatBox.ChatInput.Type | src/components/game/ChatBox.tsx:80 | the field holds what was typed |
| ChatBox.ChatInput.Submit | src/components/game/ChatBox.tsx:24-30 | something is sent exactly when the send button is enabled; then the trimmed input is sent and the field cleared; otherwise the field is kept |
| ChatBox.SentMessageTrimmed | src/components/game/ChatBox.tsx:24-30 | a sent message is non-empty, has no whitespace at either end, and is its own trim |
| AntiCheat.KeyDownPrevented | src/hooks/useAntiCheat.ts:5-21 | defines `handleKeyDown` as whether the default is prevented; properties in `BlockedKeys`, `UpperCaseLettersPass` and `PlainKeysPass` |
| AntiCheat.BlockedKeys | src/hooks/useAntiCheat.ts:5-21 | a key press is prevented exactly for Ctrl/Cmd with "f" or "g", and for F3 |
| AntiCheat.UpperCaseLettersPass | src/hooks/useAntiCheat.ts:7-15 | the comparison is case-sensitive: "F" and "G" pass whatever the modifiers |
| AntiCheat.PlainKeysPass | src/hooks/useAntiCheat.ts:17-20 | without modifiers only F3 is prevented |
| AntiCheat.ContextMenuPrevented | src/hooks/useAntiCheat.ts:23-26 | the context menu is always prevented |
| Lobby.LobbyForm.constructor | src/pages/Index.tsx:17-19 | empty name and code, 25 numbers |
| Lobby.LobbyForm.SetPlayerName | src/pages/Index.tsx:237-244 | the name field keeps at most 20 characters; nothing else changes |
| Lobby.LobbyForm.SetRoomCode | src/pages/Index.tsx:306-312 | the code field keeps at most 6 characters, upper-cased; nothing else changes |
| Lobby.LobbyForm.SetMaxNumbers | src/pages/Index.tsx:263-270 | the slider sets a number of 9 to 100; nothing else changes |
| Lobby.Limited | src/pages/Index.tsx:243 | `maxLength` keeps a prefix of at most that many characters, the whole value when it fits |
| Lobby.UpperIdempotent | src/pages/Index.tsx:308 | upper-casing twice is upper-casing once |
| Lobby.GridSeed | src/pages/Index.tsx:37-38 | the seed is the room code, `_`, then digits reading back as the clock value |
| Lobby.CreateRoom | src/pages/Index.tsx:23-84 | a blank name is rejected before any insert; the room is inserted with its seed, then the host with colour 0 and is_host set; a failed room insert writes nothing more, a failed host insert nothing after it; navigation happens exactly when both inserts succeed, after the "created the room" message |
| Lobby.LookupKey | src/pages/Index.tsx:112 | defines the lookup code `roomCode.toUpperCase().trim()`; `JoinRoom` looks rooms up by it and `JoinNavigatesToFoundRoom` relates it to the code navigated to |
| Lobby.SingleRoom | src/pages/Index.tsx:109-113 | `.single()` finds a room with that code exactly when exactly one matches |
| Lobby.MatchingRooms | src/pages/Index.tsx:109-112 | the matches are exactly the rooms with that code |
| Lobby.JoinRoom | src/pages/Index.tsx:86-187 | the checks in order: blank name, blank code, lookup by the upper-cased trimmed code, status, full (4 or more) before the returning-session check; every joiner who passes them is inserted with colour `PLAYER_COLORS[count]`, count below 4, and only such a joiner; a failed insert ends in the join-failed notice with nothing more written |
| Lobby.JoinNavigatesToFoundRoom | src/pages/Index.tsx:176 | for a code typed into the form, the page navigated to is the code of the room that was found |
| GameRoomPage.PlayerOfSession | src/pages/GameRoom.tsx:73-74 | defines `players.find(p => p.session_id === sessionId) || null`; properties in `PlayerOfSessionFirst` and `PlayerOfSessionAppended` |
| GameRoomPage.PlayerOfSessionFirst | src/pages/GameRoom.tsx:73-74 | the viewer's player is the first player with this session, and is absent exactly when no player has it |
| GameRoomPage.PlayerOfSessionAppended | src/pages/GameRoom.tsx:272-273 | a newly joined player is the one found for its session |
| GameRoomPage.ClaimedMapOf | src/pages/GameRoom.tsx:83-91 | defines the map the `forEach` leaves; properties in `ClaimedMapKeys`, `ClaimedMapColours` and `ClaimedMapLastWins`, and `BuildClaimedMap` is proved to build it |
| GameRoomPage.ClaimedMapKeys | src/pages/GameRoom.tsx:83-91 | the snapshot map's keys are exactly the fetched numbers |
| GameRoomPage.ClaimedMapColours | src/pages/GameRoom.tsx:88 | every colour in the snapshot map is non-empty |
| GameRoomPage.ClaimedMapLastWins | src/pages/GameRoom.tsx:85-90 | each number maps to its last fetched claim, colour defaulting to cyan |
| GameRoomPage.BuildClaimedMap | src/pages/GameRoom.tsx:84-91 | the `forEach` loop builds the specified snapshot map |
| GameRoomPage.VictoryTime | src/pages/GameRoom.tsx:106-111 | a time exists exactly for a finished room with both timestamps, and start plus time is the finish |
| GameRoomPage.LayoutSeed | src/pages/GameRoom.tsx:605 | the room's grid seed when present and non-empty, otherwise its code |
| GameRoomPage.RoomPage.constructor | src/pages/GameRoom.tsx:29-36 | the initial state: nothing loaded, loading, no overlay |
| GameRoomPage.RoomPage.LoadSnapshot | src/pages/GameRoom.tsx:41-121 | without code or session nothing happens; an unknown room sends the viewer home; otherwise each fetched list replaces the old one, claims become the snapshot map, a finished room shows the overlay with its time, and loading ends |
| GameRoomPage.RoomPage.ApplySnapshot | src/pages/GameRoom.tsx:63-113 | the snapshot after the room was found, keeping the viewer's player in step with the players |
| GameRoomPage.RoomPage.ReplaceClaims | src/pages/GameRoom.tsx:78-92 | fetched claims replace the map; nothing else changes |
| GameRoomPage.RoomPage.OnRoomUpdate | src/pages/GameRoom.tsx:134-144 | the room is replaced; the overlay is shown with the time only for a finished room with both timestamps, and is never hidden; claims are untouched |
| GameRoomPage.RoomPage.OnPlayersChanged | src/pages/GameRoom.tsx:150-159 | a fetched list replaces the players and the viewer's player is looked up again |
| GameRoomPage.RoomPage.OnClaimInserted | src/pages/GameRoom.tsx:166-181 | only the claimed number's entry is set, in a copy; every other entry is unchanged; delivering the same event again would leave the map as it is |
| GameRoomPage.RoomPage.OnChatInserted | src/pages/GameRoom.tsx:188-190 | the message is appended; earlier messages stay and duplicates are kept |
| GameRoomPage.RoomPage.MayClaim | src/pages/GameRoom.tsx:329-331 | states the guard of `handleNumberClick`; `HandleNumberClick` requests a claim exactly when it holds |
| GameRoomPage.RoomPage.GridDisabled | src/pages/GameRoom.tsx:609 | states `disabled={room.status !== 'playing'}`; `HandleNumberClick` never requests a claim while it holds |
| GameRoomPage.RoomPage.HandleNumberClick | src/pages/GameRoom.tsx:328-373 | the claim is requested exactly for a playing room, a known player, the current target and an unclaimed number, so never while the grid is disabled (line 609); the page state never changes; a successful claim posts the finish message or, on multiples of 10, the milestone |
| GameRoomPage.RoomPage.JoinAsPlayer | src/pages/GameRoom.tsx:206-284 | blank names are refused; an existing record of the session is reused without insert; 4 or more players are refused; otherwise colour `PLAYER_COLORS[count]` and the players become the existing ones plus the new player, who is the viewer's |
| GameRoomPage.RoomPage.SendMessage | src/pages/GameRoom.tsx:375-389 | a message is posted under the viewer's player only when room and player are known |
| GameRoomPage.RoomPage.StartGame | src/pages/GameRoom.tsx:286-326 | the start is requested when room and session are known, and announced exactly when the server accepts |
| GameRoomPage.RoomPage.PlayAgain | src/pages/GameRoom.tsx:391-434 | a successful reset clears the claims and hides the overlay; an error or refusal leaves both as they were |

## Left out

- Floating point: all coordinates and draws are exact reals. IEEE rounding, and the actual values `Math.sin` produces, are not modelled. The generator update is the parameter `step`.
- `Math.ceil(Math.sqrt(n))` is modelled as the least g with g·g ≥ n. The two agree on exact arithmetic.
- `toUpperCase` is modelled for the ASCII letters only. Other characters are left unchanged.
- `Math.random`, `Date.now` and `generateSessionId` are parameters: the six room-code draws, the clock value and the session id. `generateSessionId` itself is not modelled.
- The bodies of the server procedures `claim_number`, `start_game` and `reset_game` are not part of this model. Their replies are parameters. The cross-client arbitration between claims happens in the database.
- Store and network plumbing is not modelled:
  - the fetches themselves and channel subscription and removal;
  - toasts, navigation side effects, clipboard, localStorage and the console.
- Inserts are reported as `Write` values. Whether a best-effort chat insert succeeded is not modelled.
- Exceptions thrown by queries: a failed query is modelled as an absent reply.
- Interleaving of awaited handlers within one client is not modelled. Each handler is one atomic step.
- The busy flags `isCreating`, `isJoining` and `isJoiningRoom` are not modelled. Nor is the `joinName` field of the room page, whose value is the parameter `joinName`.
- The canvas drawing (`drawCanvas`), the confetti and all styling are not modelled. `handleMouseMove` is modelled for the cursor it chooses only.
- Lobby.LobbyForm.SetPlayerName: the browser's `maxLength` is modelled as truncating a typed value. Pasting and IME editing are not distinguished.
- Lobby.LobbyForm.SetRoomCode: likewise, the browser's `maxLength` of 6 is modelled as truncating the upper-cased value. Pasting and IME editing are not distinguished.
- Lobby.JoinRoom: the page it navigates to uses the upper-cased but untrimmed code, as the source does. `Lobby.JoinNavigatesToFoundRoom` shows that this is the found room's code for anything the form lets through.
- GameRoomPage.RoomPage.JoinAsPlayer: the inserted row is rebuilt from the values sent, plus the id and timestamp the store returns. Score 0 and is_host false are the column defaults.
- GameRoomPage.RoomPage.JoinAsPlayer: a null player list returned without an error is treated as a failed query (no insert). The source would go on as if the room had no players.
- GameRoomPage.RoomPage.StartGame: the start button is disabled below two players (src/pages/GameRoom.tsx:579). That is a rendering condition, not a check `startGame` makes, and it is not modelled.
- useGameSession, GameTimer, TargetIndicator, NumberCell and NotFound are not part of this model (session bootstrap, wall-clock timers, display only). NumberCell's `disabled || isClaimed` appears in `NumberGrid.CellViews`.
