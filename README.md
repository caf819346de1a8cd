# Nearby tic-tac-toe: game protocol and session coordinator

A Dafny model of the peer-to-peer game protocol of an Android tic-tac-toe
game played over Nearby Connections (star topology: one host, several
opponents). It covers two parts of `TicTacToeViewModel.kt`:

- **The message codec.** The textual wire messages `PLAY(player,row,col)` and
  `NEWGAME(boardSize,players,assignedPlayerNumber)` each have an encoder
  (`toPayload`), a prefix classifier (`isPlay` / `isNewGame`) and a decoder
  (`toPlay` / `toNewGame`). The Kotlin string operations they rely on are
  written out: `Int.toString`, `String.toInt`, `removeSurrounding`,
  `split` and three-way destructuring. Module `Ints` (`ints.dfy`) and
  module `Codec` (`codec.dfy`).
- **The session coordinator.** The `TicTacToeViewModel` class becomes a
  Dafny class (`session.dfy`, module `Session`). It holds `isHost`,
  `boardSize`, the current board engine `game`, the published `GameState`
  snapshot, and an `outbox`. The outbox is the sequence of
  `(endpoint, payload)` pairs handed to the transport's `sendPayload`.
  Every callback and user intent is one method. The pure side of the
  protocol lives in module `Protocol` (`protocol.dfy`): who is sent what,
  the host's relay filter, the player-number permutation, and the
  classification of an inbound payload.

The board engine `TicTacToe` is imported by the view model, but its source is
not part of this model. Module `Engine` (`engine.dfy`) keeps only the three
members the coordinator uses:
- `playerTurn`;
- `isPlayedBucket`;
- `play`, which marks a free cell; an occupied cell keeps its first mark.

The engine's turn rotation and its win and tie rules are not modelled. After
every move the turn cursor, the winner and the game-over flag are left
unconstrained, and the snapshot is proved to copy whatever the engine holds.
The engine's board is an object of its own (`Engine.Board`). `newGame` puts a
reference to it into the snapshot (`board = game.board`), and later moves
mark it in place. `play` copies only the turn, the winner and the flag, so
the screen sees a move exactly when the snapshot's board is still the
engine's own. After `onConnectionResult` or `stopClient` the snapshot holds
`GameState.Uninitialized`'s board again. That board stays as it is until
the next `newGame`, even though moves still reach the engine that
`lateinit game` keeps.

The shuffle `(1..n+1).shuffled()` is an input of `HostNewGame`. Its
`requires` says the input is a permutation of 1..n+1. The success listener
of `startAdvertising` is the event method `OnAdvertisingStarted`.

What the Kotlin code does at the edges:
- A tagged payload whose fields do not split into three or do not parse
  makes `toInt` or the destructuring throw. A `PLAY` that arrives before any
  game makes the access to `lateinit game` throw. In both cases the throw
  happens before any state changes or any send. `onPayloadReceived` has no
  `try`/`catch`, so the exception leaves the callback.
- `onConnectionResult` appends the endpoint on STATUS_OK whatever the role
  and whether or not a game is running.
- On a non-host, `nextGame` only navigates. The coordinator's state does not
  change.
- The decoder ignores fields after the third one, for example
  `PLAY(1,2,3,4)`. `toInt` also accepts a leading `+` and leading zeros
  (`Ints.ParseInt`).

## Model

| member | source | states |
|---|---|---|
| Ints.IntToString | app/src/main/java/com/yourcompany/android/tictactoe/viewmodel/TicTacToeViewModel.kt:283-284 | rendering an `Int` as in a string template gives a non-empty string, with a '-' exactly for negatives and digits otherwise |
| Ints.ParseInt | app/src/main/java/com/yourcompany/android/tictactoe/viewmodel/TicTacToeViewModel.kt:286-290 | `toInt` succeeds only on an optional sign followed by at least one digit; an unsigned, `+` or `-` digit string parses to its value when that fits in 32 bits and fails otherwise, so a leading `+` and leading zeros are accepted |
| Ints.ParseIntToString | app/src/main/java/com/yourcompany/android/tictactoe/viewmodel/TicTacToeViewModel.kt:284-289 | parsing a rendered `Int` gives it back, for every 32-bit value |
| Ints.IntToStringHasNoDelimiters | app/src/main/java/com/yourcompany/android/tictactoe/viewmodel/TicTacToeViewModel.kt:284 | a rendered number never contains ',' or ')', so it cannot break the framing |
| Codec.RemoveSurrounding | app/src/main/java/com/yourcompany/android/tictactoe/viewmodel/TicTacToeViewModel.kt:288 | `removeSurrounding` strips prefix and suffix exactly when both are present and fit; otherwise the string comes back unchanged |
| Codec.Split | app/src/main/java/com/yourcompany/android/tictactoe/viewmodel/TicTacToeViewModel.kt:288 | `split(",")` yields at least one piece and no piece contains the delimiter |
| Codec.SplitJoin | app/src/main/java/com/yourcompany/android/tictactoe/viewmodel/TicTacToeViewModel.kt:288 | splitting pieces joined with the delimiter gives back the pieces, when no piece contains the delimiter |
| Codec.JoinSplit | app/src/main/java/com/yourcompany/android/tictactoe/viewmodel/TicTacToeViewModel.kt:288 | joining the pieces of a split gives back the original string |
| Codec.Frame | app/src/main/java/com/yourcompany/android/tictactoe/viewmodel/TicTacToeViewModel.kt:283-284 | the `"TAG($a,$b,$c)"` template yields a string that starts with `TAG(` and ends with `)` |
| Codec.Unframe | app/src/main/java/com/yourcompany/android/tictactoe/viewmodel/TicTacToeViewModel.kt:286-290 | decoding fails exactly when the unframed body splits into fewer than three pieces (`MissingField`) or one of the first three does not parse; otherwise the result is the three parsed fields in order, and any later field is ignored |
| Codec.UnframeFrame | app/src/main/java/com/yourcompany/android/tictactoe/viewmodel/TicTacToeViewModel.kt:283-290 | the shared TAG(a,b,c) framing round-trips for all 32-bit fields |
| Codec.IsPlay | app/src/main/java/com/yourcompany/android/tictactoe/viewmodel/TicTacToeViewModel.kt:281 | `isPlay` tests the `PLAY` prefix, and a payload it accepts never carries the `NEWGAME` prefix |
| Codec.EncodePlay | app/src/main/java/com/yourcompany/android/tictactoe/viewmodel/TicTacToeViewModel.kt:283-284 | an encoded `Play` is classified as a play and never as a new game |
| Codec.DecodePlay | app/src/main/java/com/yourcompany/android/tictactoe/viewmodel/TicTacToeViewModel.kt:286-290 | `toPlay` succeeds exactly when the unframing does, taking the fields as player, row and column in that order; a payload classified as a play decodes only if it is framed as `PLAY(...)` |
| Codec.DecodeEncodePlay | app/src/main/java/com/yourcompany/android/tictactoe/viewmodel/TicTacToeViewModel.kt:283-290 | `toPlay(toPayload(p)) == p` for every `Play`, negative fields included |
| Codec.IsNewGame | app/src/main/java/com/yourcompany/android/tictactoe/viewmodel/TicTacToeViewModel.kt:295 | `isNewGame` tests the `NEWGAME` prefix, and a payload it accepts never carries the `PLAY` prefix |
| Codec.EncodeNewGame | app/src/main/java/com/yourcompany/android/tictactoe/viewmodel/TicTacToeViewModel.kt:297-298 | an encoded `NewGame` is classified as a new game and never as a play |
| Codec.DecodeNewGame | app/src/main/java/com/yourcompany/android/tictactoe/viewmodel/TicTacToeViewModel.kt:300-305 | `toNewGame` succeeds exactly when the unframing does, taking the fields as board size, player count and assigned number in that order; a payload classified as a new game decodes only if it is framed as `NEWGAME(...)` |
| Codec.DecodeEncodeNewGame | app/src/main/java/com/yourcompany/android/tictactoe/viewmodel/TicTacToeViewModel.kt:297-305 | `toNewGame(toPayload(g)) == g` for every `NewGame` |
| Codec.DecodePlayIgnoresExtraFields | app/src/main/java/com/yourcompany/android/tictactoe/viewmodel/TicTacToeViewModel.kt:286-290 | the three-way destructuring ignores any fourth and later field |
| Engine.MarkedKeepsMarks | app/src/main/java/com/yourcompany/android/tictactoe/viewmodel/TicTacToeViewModel.kt:187-190 | after `game.play` the cell is occupied; an occupied cell keeps its mark and no other cell changes |
| Engine.TicTacToe.IsPlayedBucket | app/src/main/java/com/yourcompany/android/tictactoe/viewmodel/TicTacToeViewModel.kt:170 | a cell counts as played exactly when a move there, by any player, would leave the board as it is |
| Engine.TicTacToe.constructor | app/src/main/java/com/yourcompany/android/tictactoe/viewmodel/TicTacToeViewModel.kt:233 | a new engine has the given size and player count and a fresh, empty board object |
| Engine.TicTacToe.Play | app/src/main/java/com/yourcompany/android/tictactoe/viewmodel/TicTacToeViewModel.kt:190 | the engine marks its board in place for the player unless the cell is already occupied |
| Protocol.Fanout | app/src/main/java/com/yourcompany/android/tictactoe/viewmodel/TicTacToeViewModel.kt:173-175 | sending one payload to a list of targets produces exactly one send per target, in list order, each carrying that payload |
| Protocol.Without | app/src/main/java/com/yourcompany/android/tictactoe/viewmodel/TicTacToeViewModel.kt:57 | `filter { it != endpointId }` keeps every other endpoint as often as it occurs and drops the sender entirely |
| Protocol.RelaySkipsSender | app/src/main/java/com/yourcompany/android/tictactoe/viewmodel/TicTacToeViewModel.kt:56-60 | the host's relay never goes back to the sender, and every other opponent receives the play as often as it is listed |
| Protocol.PermutationCoversAll | app/src/main/java/com/yourcompany/android/tictactoe/viewmodel/TicTacToeViewModel.kt:202 | a permutation of 1..m contains every number 1..m |
| Protocol.AssignmentsDecode | app/src/main/java/com/yourcompany/android/tictactoe/viewmodel/TicTacToeViewModel.kt:204-212 | opponent i is the recipient of the i-th NEWGAME, and that NEWGAME decodes to (boardSize, playerCount, numbers[i]) |
| Protocol.DealtNumbers | app/src/main/java/com/yourcompany/android/tictactoe/viewmodel/TicTacToeViewModel.kt:202-212 | the numbers dealt to opponents are distinct, lie in 1..n+1 and differ from the host's; together with the host's they cover 1..n+1 |
| Protocol.Receive | app/src/main/java/com/yourcompany/android/tictactoe/viewmodel/TicTacToeViewModel.kt:45-63 | an inbound payload is a new game exactly when it is BYTES, carries the `NEWGAME` prefix and decodes, and a play exactly when it is BYTES, carries the `PLAY` prefix and decodes; the result is the decoded message |
| Protocol.ReceiveEncodedPlay | app/src/main/java/com/yourcompany/android/tictactoe/viewmodel/TicTacToeViewModel.kt:45-61 | a peer receiving an encoded `PLAY` handles exactly that move |
| Protocol.ReceiveEncodedNewGame | app/src/main/java/com/yourcompany/android/tictactoe/viewmodel/TicTacToeViewModel.kt:45-51 | a peer receiving an encoded `NEWGAME` handles exactly that assignment |
| Protocol.ReceiveUntagged | app/src/main/java/com/yourcompany/android/tictactoe/viewmodel/TicTacToeViewModel.kt:45-63 | a payload that is not BYTES, or has neither tag, is ignored |
| Session.TicTacToeViewModel.constructor | app/src/main/java/com/yourcompany/android/tictactoe/viewmodel/TicTacToeViewModel.kt:28-36 | a new coordinator is a non-host with board size 0, no game, the uninitialized snapshot and nothing sent |
| Session.TicTacToeViewModel.OnAdvertisingStarted | app/src/main/java/com/yourcompany/android/tictactoe/viewmodel/TicTacToeViewModel.kt:140-143 | once advertising succeeds this peer is the host with the chosen board size |
| Session.TicTacToeViewModel.OnConnectionResult | app/src/main/java/com/yourcompany/android/tictactoe/viewmodel/TicTacToeViewModel.kt:100-122 | status code STATUS_OK (0) appends the endpoint to the end of the opponent list and resets every other snapshot field; every other code (rejected, error, unknown) changes nothing |
| Session.TicTacToeViewModel.StopClient | app/src/main/java/com/yourcompany/android/tictactoe/viewmodel/TicTacToeViewModel.kt:257-266 | `isHost` becomes false, `boardSize` 0 and the snapshot uninitialized |
| Session.TicTacToeViewModel.GoToHome | app/src/main/java/com/yourcompany/android/tictactoe/viewmodel/TicTacToeViewModel.kt:252-255 | leaving resets the session as `stopClient` does |
| Session.TicTacToeViewModel.OnDisconnected | app/src/main/java/com/yourcompany/android/tictactoe/viewmodel/TicTacToeViewModel.kt:124-127 | losing any peer resets the whole session |
| Session.TicTacToeViewModel.OnCleared | app/src/main/java/com/yourcompany/android/tictactoe/viewmodel/TicTacToeViewModel.kt:268-271 | discarding the view model resets the session |
| Session.TicTacToeViewModel.SendPlay | app/src/main/java/com/yourcompany/android/tictactoe/viewmodel/TicTacToeViewModel.kt:178-185 | one encoded `PLAY` is appended to the outbox for the given endpoint |
| Session.TicTacToeViewModel.SendPlayToAll | app/src/main/java/com/yourcompany/android/tictactoe/viewmodel/TicTacToeViewModel.kt:57-59 | a loop of `sendPlay` appends exactly `Fanout(targets, PLAY)` to the outbox |
| Session.TicTacToeViewModel.SendNewGame | app/src/main/java/com/yourcompany/android/tictactoe/viewmodel/TicTacToeViewModel.kt:217-229 | one encoded `NEWGAME` is appended to the outbox for the given endpoint |
| Session.TicTacToeViewModel.ApplyMove | app/src/main/java/com/yourcompany/android/tictactoe/viewmodel/TicTacToeViewModel.kt:187-196 | the engine marks its board; the snapshot takes the engine's turn, winner and game-over flag and keeps its board reference and other fields, so the screen shows the mark exactly when that reference is the engine's board |
| Session.TicTacToeViewModel.Play | app/src/main/java/com/yourcompany/android/tictactoe/viewmodel/TicTacToeViewModel.kt:167-176 | with no game, out of turn, or on an occupied cell, nothing changes and nothing is sent; otherwise the local player's mark goes on the engine's board, the snapshot follows as in `ApplyMove`, and one `PLAY(localPlayer, position)` goes to each opponent, in list order |
| Session.TicTacToeViewModel.StartNewGame | app/src/main/java/com/yourcompany/android/tictactoe/viewmodel/TicTacToeViewModel.kt:231-242 | a fresh engine with a fresh empty board of the given size and player count; the snapshot takes the local player, the engine's values and a reference to its board, and keeps its opponents |
| Session.TicTacToeViewModel.SendAssignments | app/src/main/java/com/yourcompany/android/tictactoe/viewmodel/TicTacToeViewModel.kt:204-212 | the `forEachIndexed` loop appends exactly one NEWGAME per opponent, in list order, with opponent i given numbers[i] |
| Session.TicTacToeViewModel.HostNewGame | app/src/main/java/com/yourcompany/android/tictactoe/viewmodel/TicTacToeViewModel.kt:198-215 | given a permutation `players` of 1..n+1, the host becomes `players[0]`, opponent i is sent `NEWGAME(boardSize, n+1, players[i+1])`, and a fresh board is started |
| Session.TicTacToeViewModel.NextGame | app/src/main/java/com/yourcompany/android/tictactoe/viewmodel/TicTacToeViewModel.kt:244-250 | the host deals a new game as `hostNewGame` does; a non-host changes nothing |
| Session.TicTacToeViewModel.OnPayloadReceived | app/src/main/java/com/yourcompany/android/tictactoe/viewmodel/TicTacToeViewModel.kt:41-64 | a NEWGAME starts the assigned game and leaves the previous engine untouched; a PLAY is applied without a turn check, shown as in `ApplyMove`, and on the host only relayed to every opponent except the sender; anything else, or a PLAY before the first game, changes nothing and sends nothing |

## Left out

- Every `ConnectionsClient` call is left out: advertising, discovery,
  connection requests and accepts, and the `stop*` calls. They belong to a
  foreign SDK. Sends are appends to the outbox. `startDiscovering`,
  `onEndpointFound`, `onEndpointLost`, `onConnectionInitiated` and
  `onPayloadTransferUpdate` make only such calls, log, or navigate, so they
  have no model.
- Navigation through `TicTacToeRouter`, `Log` calls and LiveData observation
  are left out. They are UI and logging.
- The random `localUsername` (a UUID) is left out. It is sent only to the
  SDK.
- Randomness: the shuffle is a parameter of `HostNewGame` and `NextGame`.
- Concurrency of the callback streams is left out. Every callback is one
  atomic method call.
- UTF-8 conversion is left out: payloads are ASCII strings. The JVM's
  `toInt` also accepts non-ASCII decimal digits; the model accepts only
  '0'..'9'.
- Exceptions are not modelled. A malformed tagged payload, or a `PLAY`
  before the first game, throws in the Kotlin code, and the exception leaves
  `onPayloadReceived` uncaught. What the transport or the process then does
  is not modelled. The model ends the call there, with the state unchanged
  and nothing sent, which is the state at the point of the throw. A local
  `play` before the first game likewise changes nothing here, where Kotlin
  throws.
- The board engine's source, `TicTacToe`, is not part of this model.
  `GameState` is not part of it either.
- Engine.TicTacToe.Play: leaves `playerTurn`, `playerWon` and `isOver`
  unconstrained. The engine's turn rotation and win and tie rules are not
  shown. The treatment of an occupied cell (it keeps its first mark) and of
  positions off the board (they are marked like any other) is also an
  assumption about code that is not shown.
- Engine.TicTacToe.constructor: leaves the initial `playerTurn`,
  `playerWon` and `isOver` unconstrained, for the same reason.
- `GameState.Uninitialized` is fixed as local player 0, turn 0, winner 0,
  not over, empty board, no opponents, because its definition is not shown.
  The only fact the coordinator relies on is that it has no opponents.
- The engine's board is an N×N array in the Kotlin code. The model keeps it
  as an object holding the map of occupied cells. The sharing between engine
  and snapshot is modelled, but the grid layout and the zero "empty" value
  are not.
- `GameState.Uninitialized`'s board is `null` in the model. It is treated as
  empty, because its definition is not shown.
- Protocol.Without: states the multiset of the filtered list, not that
  `filter` keeps the original order.
- The Compose screens, `TicTacToeViewModelFactory` and the router's
  `Screen` cases are left out: they are UI presentation.
