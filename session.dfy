/**
 * The session coordinator, `TicTacToeViewModel`: role and board-size
 * bookkeeping, the board engine of the current game, the published
 * `GameState` snapshot, and an outbox standing for every `sendPayload` call
 * made to the Nearby Connections client. Each callback and user intent is one
 * atomic method call.
 */
module Session {
  import opened Ints
  import opened Engine
  import opened Codec
  import opened Protocol

  /** `ConnectionsStatusCodes.STATUS_OK`, the only status code `onConnectionResult` acts on. */
  const STATUS_OK: Int32 := 0

  /**
   * The snapshot the screens observe. `board` is a reference to a board
   * object: the engine's own board after a new game starts, and `null`, standing
   * for `GameState.Uninitialized`'s board, which no engine ever marks, otherwise.
   */
  datatype GameState = GameState(
    localPlayer: Int32,
    playerTurn: Int32,
    playerWon: Int32,
    isOver: bool,
    board: Board?,
    opponents: seq<EndpointId>)

  /** `GameState.Uninitialized`: no game, no opponents. */
  const Uninitialized: GameState := GameState(0, 0, 0, false, null, [])

  class TicTacToeViewModel {
    var isHost: bool
    var boardSize: Int32
    /** `lateinit var game`: `null` until the first game starts. */
    var game: TicTacToe?
    var state: GameState
    /** Every payload handed to the transport, oldest first. */
    var outbox: seq<Send>

    constructor ()
      ensures !isHost && boardSize == 0 && game == null
      ensures state == Uninitialized && outbox == []
    {
      isHost := false;
      boardSize := 0;
      game := null;
      state := Uninitialized;
      outbox := [];
    }

    /** The current engine and its board: what a move may change. */
    ghost function EngineRepr(): set<object>
      reads this
    {
      if game == null then {} else {game, game.board}
    }

    /** The cells the screen draws from the snapshot's board. */
    ghost function ShownCells(): map<Position, Int32>
      reads this, state.board
    {
      if state.board == null then map[] else state.board.cells
    }

    /** A local move at `position` is accepted: a game exists, it is the local player's turn and the cell is free. */
    predicate AcceptsLocalMove(position: Position)
      reads this, game, if game == null then null else game.board
    {
      game != null && game.playerTurn == state.localPlayer && !game.IsPlayedBucket(position)
    }

    /**
     * The snapshot after a move: turn, winner and game-over flag copied from
     * the engine; the board reference and everything else kept.
     */
    ghost predicate ShowsMove(before: GameState)
      reads this, game
      requires game != null
    {
      state == before.(playerTurn := game.playerTurn, playerWon := game.playerWon, isOver := game.isOver)
    }

    /** The snapshot after a new game: the given local player, the fresh engine's turn, winner and flag, and a reference to its board. */
    ghost predicate ShowsNewGame(before: GameState, localPlayer: Int32)
      reads this, game
      requires game != null
    {
      state == before.(localPlayer := localPlayer, playerTurn := game.playerTurn, playerWon := game.playerWon,
                       isOver := game.isOver, board := game.board)
    }

    // -------------------------------------------------------------------------
    // Connection lifecycle

    /** The success listener of `startAdvertising`: this peer hosts a game of the chosen board size. */
    method OnAdvertisingStarted(boardSize: Int32)
      modifies this`isHost, this`boardSize
      ensures isHost && this.boardSize == boardSize
    {
      this.isHost := true;
      this.boardSize := boardSize;
    }

    /**
     * `onConnectionResult`: on STATUS_OK the endpoint joins the end of the
     * opponent list and every other snapshot field is reset; the
     * STATUS_CONNECTION_REJECTED, STATUS_ERROR and unknown-code branches only
     * log, so any other status code changes nothing.
     */
    method OnConnectionResult(endpointId: EndpointId, statusCode: Int32)
      modifies this`state
      ensures statusCode == STATUS_OK ==> state == Uninitialized.(opponents := old(state.opponents) + [endpointId])
      ensures statusCode != STATUS_OK ==> state == old(state)
    {
      if statusCode == STATUS_OK {
        var opponents := state.opponents + [endpointId];
        state := Uninitialized.(opponents := opponents);
      }
    }

    /** `stopClient`: back to a non-host with no board size, no opponents and no game on screen. */
    method StopClient()
      modifies this`isHost, this`boardSize, this`state
      ensures !isHost && boardSize == 0 && state == Uninitialized
    {
      isHost := false;
      boardSize := 0;
      state := Uninitialized;
    }

    /** `goToHome`: the "leave" intent. */
    method GoToHome()
      modifies this`isHost, this`boardSize, this`state
      ensures !isHost && boardSize == 0 && state == Uninitialized
    {
      StopClient();
    }

    /** `onDisconnected`: losing any peer ends the whole session. */
    method OnDisconnected(endpointId: EndpointId)
      modifies this`isHost, this`boardSize, this`state
      ensures !isHost && boardSize == 0 && state == Uninitialized
    {
      GoToHome();
    }

    /** `onCleared`: the view model is being discarded. */
    method OnCleared()
      modifies this`isHost, this`boardSize, this`state
      ensures !isHost && boardSize == 0 && state == Uninitialized
    {
      StopClient();
    }

    // -------------------------------------------------------------------------
    // Sending

    /** `sendPlay`. */
    method SendPlay(opponentEndpointId: EndpointId, player: Int32, position: Position)
      modifies this`outbox
      ensures outbox == old(outbox) + [Send(opponentEndpointId, EncodePlay(Codec.Play(player, position)))]
    {
      outbox := outbox + [Send(opponentEndpointId, EncodePlay(Codec.Play(player, position)))];
    }

    /** `targets.forEach { sendPlay(it, player, position) }`. */
    method SendPlayToAll(targets: seq<EndpointId>, player: Int32, position: Position)
      modifies this`outbox
      ensures outbox == old(outbox) + Fanout(targets, EncodePlay(Codec.Play(player, position)))
    {
      var i := 0;
      while i < |targets|
        invariant 0 <= i <= |targets|
        modifies this`outbox
        invariant outbox == old(outbox) + Fanout(targets[..i], EncodePlay(Codec.Play(player, position)))
      {
        assert targets[..i + 1][..i] == targets[..i];
        SendPlay(targets[i], player, position);
        i := i + 1;
      }
      assert targets[..i] == targets;
    }

    /** `sendNewGame`. */
    method SendNewGame(opponentEndpointId: EndpointId, boardSize: Int32, players: Int32, assignedPlayerNumber: Int32)
      modifies this`outbox
      ensures outbox == old(outbox) + [Send(opponentEndpointId, EncodeNewGame(NewGame(boardSize, players, assignedPlayerNumber)))]
    {
      outbox := outbox + [Send(opponentEndpointId, EncodeNewGame(NewGame(boardSize, players, assignedPlayerNumber)))];
    }

    // -------------------------------------------------------------------------
    // Moves

    /**
     * The private `play(player, position)`: the engine marks its board and the
     * snapshot copies the engine's turn, winner and game-over flag. The snapshot's
     * board is not reassigned: the screen sees the new mark exactly when that
     * board is the engine's own, and otherwise keeps what it showed.
     */
    method ApplyMove(player: Int32, position: Position)
      requires game != null
      modifies this`state, game, game.board
      ensures game.board.cells == Marked(old(game.board.cells), player, position)
      ensures ShowsMove(old(state))
      ensures ShownCells() == if old(state.board) == game.board then game.board.cells else old(ShownCells())
    {
      game.Play(player, position);
      state := state.(playerTurn := game.playerTurn, playerWon := game.playerWon, isOver := game.isOver);
    }

    /**
     * The public `play(position)`, the local player's move. Out of turn, on an
     * occupied cell, or with no game yet, nothing happens. Otherwise the
     * local player's mark goes on the free cell and one PLAY goes to each
     * opponent, in list order.
     */
    method Play(position: Position)
      modifies this`state, this`outbox, EngineRepr()
      ensures !old(AcceptsLocalMove(position)) ==>
        state == old(state) && outbox == old(outbox) && (game != null ==> unchanged(game, game.board))
      ensures old(AcceptsLocalMove(position)) ==>
        && game != null
        && game.board.cells == old(game.board.cells)[position := old(state.localPlayer)]
        && ShowsMove(old(state))
        && ShownCells() == (if old(state.board) == game.board then game.board.cells else old(ShownCells()))
        && outbox == old(outbox) + Fanout(old(state.opponents), EncodePlay(Codec.Play(old(state.localPlayer), position)))
    {
      if game == null {
        return;
      }
      var localPlayer := state.localPlayer;
      if game.playerTurn != localPlayer {
        return;
      }
      if game.IsPlayedBucket(position) {
        return;
      }
      ApplyMove(localPlayer, position);
      SendPlayToAll(state.opponents, localPlayer, position);
    }

    // -------------------------------------------------------------------------
    // New games

    /** The private `newGame`: a fresh engine and a snapshot for it. */
    method StartNewGame(localPlayer: Int32, boardSize: Int32, players: Int32)
      modifies this`game, this`state
      ensures game != null && fresh(game) && fresh(game.board)
      ensures game.boardSize == boardSize && game.players == players && game.board.cells == map[]
      ensures ShowsNewGame(old(state), localPlayer) && ShownCells() == map[]
    {
      game := new TicTacToe(boardSize, players);
      state := state.(localPlayer := localPlayer, playerTurn := game.playerTurn, playerWon := game.playerWon,
                      isOver := game.isOver, board := game.board);
    }

    /** `opponents.forEachIndexed { i, o -> sendNewGame(o, boardSize, playerCount, numbers[i]) }`. */
    method SendAssignments(opponents: seq<EndpointId>, boardSize: Int32, playerCount: Int32, numbers: seq<Int32>)
      requires |opponents| <= |numbers|
      modifies this`outbox
      ensures outbox == old(outbox) + Assignments(opponents, boardSize, playerCount, numbers)
    {
      var i := 0;
      while i < |opponents|
        invariant 0 <= i <= |opponents|
        invariant outbox == old(outbox) + Assignments(opponents[..i], boardSize, playerCount, numbers)
      {
        AssignmentsExtend(opponents, i, boardSize, playerCount, numbers);
        SendNewGame(opponents[i], boardSize, playerCount, numbers[i]);
        i := i + 1;
      }
      assert opponents[..i] == opponents;
    }

    /** What `hostNewGame` leaves behind, `players` being the permutation it dealt from. */
    twostate predicate HostedNewGame(players: seq<Int32>)
      reads this, game, if game == null then null else game.board
      requires |players| == |old(state.opponents)| + 1 <= MAX_INT
    {
      && game != null && fresh(game)
      && game.boardSize == old(boardSize) && game.players == |players| as Int32 && game.board.cells == map[]
      && ShowsNewGame(old(state), players[0])
      && outbox == old(outbox) + Assignments(old(state.opponents), old(boardSize), |players| as Int32, players[1..])
    }

    /**
     * `hostNewGame`, with the shuffled list `(1..n+1).shuffled()` passed in as
     * `players`: the host keeps `players[0]` and opponent `i` is sent
     * NEWGAME(boardSize, n+1, players[i + 1]), in list order.
     */
    method HostNewGame(players: seq<Int32>)
      requires |state.opponents| < MAX_INT
      requires IsPlayerPermutation(players, |state.opponents| + 1)
      modifies this`game, this`state, this`outbox
      ensures HostedNewGame(players)
    {
      var count := |players| as Int32;
      SendAssignments(state.opponents, boardSize, count, players[1..]);
      StartNewGame(players[0], boardSize, count);
    }

    /** `nextGame`: the host deals a new game at once; any other peer waits for the host's NEWGAME. */
    method NextGame(players: seq<Int32>)
      requires isHost ==> |state.opponents| < MAX_INT && IsPlayerPermutation(players, |state.opponents| + 1)
      modifies this`game, this`state, this`outbox
      ensures old(isHost) ==> HostedNewGame(players)
      ensures !old(isHost) ==> game == old(game) && state == old(state) && outbox == old(outbox)
    {
      if isHost {
        HostNewGame(players);
      }
    }

    // -------------------------------------------------------------------------
    // Inbound messages

    /**
     * `onPayloadReceived`. A NEWGAME starts the assigned game. A PLAY is
     * applied as it stands (the sender is trusted: no turn check) and, on the
     * host, relayed to every opponent except the sender. Anything else, and a
     * PLAY before any game exists, changes nothing.
     */
    method OnPayloadReceived(endpointId: EndpointId, payload: Payload)
      modifies this`game, this`state, this`outbox, EngineRepr()
      ensures isHost == old(isHost) && boardSize == old(boardSize)
      ensures Receive(payload) == Ignored || (Receive(payload).InPlay? && old(game) == null) ==>
        && game == old(game) && state == old(state) && outbox == old(outbox)
        && (game != null ==> unchanged(game, game.board))
      ensures Receive(payload).InNewGame? ==>
        var g := Receive(payload).newGame;
        && game != null && fresh(game) && fresh(game.board)
        && game.boardSize == g.boardSize && game.players == g.players && game.board.cells == map[]
        && ShowsNewGame(old(state), g.assignedPlayerNumber)
        && outbox == old(outbox)
        && (old(game) != null ==> unchanged(old(game), old(game).board))
      ensures Receive(payload).InPlay? && old(game) != null ==>
        var p := Receive(payload).play;
        && game == old(game)
        && game.board.cells == Marked(old(game.board.cells), p.player, p.position)
        && ShowsMove(old(state))
        && ShownCells() == (if old(state.board) == game.board then game.board.cells else old(ShownCells()))
        && outbox == old(outbox) + (if isHost then Fanout(Without(old(state.opponents), endpointId), EncodePlay(p)) else [])
    {
      match Receive(payload)
      case InNewGame(g) =>
        StartNewGame(g.assignedPlayerNumber, g.boardSize, g.players);
      case InPlay(p) =>
        if game == null {
          return;
        }
        ApplyMove(p.player, p.position);
        if isHost {
          SendPlayToAll(Without(state.opponents, endpointId), p.player, p.position);
        }
      case Ignored =>
    }
  }
}
