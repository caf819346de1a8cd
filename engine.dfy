/**
 * The board engine `TicTacToe` as the session coordinator sees it. Its own
 * source is not part of this model, so only the three members the coordinator
 * uses are modelled: the turn cursor `playerTurn`, the occupied-cell test
 * `IsPlayedBucket` and the move `Play`. Board size, turn rotation and win or
 * tie detection are the engine's own rules: the model leaves the turn cursor,
 * the winner and the game-over flag unconstrained after every move.
 */
module Engine {
  import opened Ints

  /** A board cell, Kotlin's `Pair<Int, Int>` of (row, column). */
  datatype Position = Position(row: Int32, col: Int32)

  /** The board after `player` marks `position`: a cell, once marked, keeps its first mark. */
  function Marked(cells: map<Position, Int32>, player: Int32, position: Position): map<Position, Int32>
  {
    if position in cells then cells else cells[position := player]
  }

  /** Marking never erases or overwrites a cell, and the marked cell is then occupied. */
  lemma MarkedKeepsMarks(cells: map<Position, Int32>, player: Int32, position: Position)
    ensures position in Marked(cells, player, position)
    ensures Marked(cells, player, position)[position] == if position in cells then cells[position] else player
    ensures forall q | q in cells :: q in Marked(cells, player, position) && Marked(cells, player, position)[q] == cells[q]
    ensures forall q | q in Marked(cells, player, position) :: q in cells || q == position
  {
  }

  /**
   * The engine's board object. The engine marks it in place, and the published
   * snapshot holds a reference to it (not a copy), so a screen showing the
   * snapshot sees every mark the engine makes.
   */
  class Board {
    /** The occupied cells and the player who marked each. */
    var cells: map<Position, Int32>

    constructor ()
      ensures cells == map[]
    {
      cells := map[];
    }
  }

  class TicTacToe {
    const boardSize: Int32
    const players: Int32
    const board: Board
    var playerTurn: Int32
    var playerWon: Int32
    var isOver: bool

    /** A fresh, empty board for `players` players. */
    constructor (boardSize: Int32, players: Int32)
      ensures this.boardSize == boardSize && this.players == players
      ensures fresh(board) && board.cells == map[]
    {
      this.boardSize := boardSize;
      this.players := players;
      board := new Board();
      playerTurn := *;
      playerWon := *;
      isOver := *;
    }

    /** A cell is played exactly when a move there, by any player, would leave the board as it is. */
    predicate IsPlayedBucket(position: Position)
      reads board
      ensures IsPlayedBucket(position) <==> forall player: Int32 :: Marked(board.cells, player, position) == board.cells
    {
      if position in board.cells then true
      else
        assert Marked(board.cells, 0, position) != board.cells by {
          assert position in Marked(board.cells, 0, position);
        }
        false
    }

    method Play(player: Int32, position: Position)
      modifies this, board
      ensures board.cells == Marked(old(board.cells), player, position)
    {
      board.cells := Marked(board.cells, player, position);
      playerTurn := *;
      playerWon := *;
      isOver := *;
    }
  }
}
