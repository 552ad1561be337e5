/** The `game` object of the engine: the board, the turn and the winner as
    state updated in place, and the operations on them. Each operation is
    proved to do what the matching function of `Rules` says. */
module Game {
  import opened Board
  import opened Rules

  class TicTacToe {
    /** `board`: the array is fixed, its cells change. */
    const board: array2<char>
    /** `currentPlayer`: 0 while X is to move, 1 while O is. */
    var currentPlayer: int
    /** `winner`: undefined until `updateWinner` decides the game. */
    var winner: Winner

    /** The object invariant: a 3x3 board of '.', 'X' and 'O', a player
        number in {0, 1}, a winner that is undefined or 0, 1 or 2. */
    ghost predicate Valid()
      reads this, board
    {
      board.Length0 == 3 && board.Length1 == 3 && ValidState(State())
    }

    /** The cells, row by row. */
    ghost function Cells(): (g: Grid)
      reads this, board
      requires board.Length0 == 3 && board.Length1 == 3
      ensures IsGrid(g)
      ensures forall i, j | InBounds(i, j) :: g[i][j] == board[i, j]
    {
      [[board[0, 0], board[0, 1], board[0, 2]],
       [board[1, 0], board[1, 1], board[1, 2]],
       [board[2, 0], board[2, 1], board[2, 2]]]
    }

    /** The whole state as a value. */
    ghost function State(): GameState
      reads this, board
      requires board.Length0 == 3 && board.Length1 == 3
    {
      GameState(Cells(), currentPlayer, winner)
    }

    /** Start-up: every cell '.', player 1 to move, no winner. */
    constructor ()
      ensures Valid() && fresh(board)
      ensures State() == InitialState()
    {
      board := new char[3, 3]((i, j) => EmptyCell);
      currentPlayer := Player1;
      winner := Undefined;
      new;
      SameCells(Cells(), EmptyBoard());
    }

    /** `empty`: the cell at an in-bounds location holds '.'. */
    function IsEmpty(row: int, col: int): (r: bool)
      reads this, board
      requires Valid() && InBounds(row, col)
      ensures r <==> Playable(State(), row, col)
    {
      board[row, col] == EmptyCell
    }

    /** `noWinner`: the game is not decided. */
    function NoWinner(): (r: bool)
      reads this, board
      requires Valid()
      ensures r <==> !State().winner.Decided?
    {
      winner == Undefined
    }

    /** `currentPlayerSymbol`: 'X' for player 1 and 'O' for player 2, the
        mark that `mapToPlayer` sends back to the same player. */
    function CurrentPlayerSymbol(): (c: char)
      reads this, board
      requires Valid()
      ensures c == (if currentPlayer == Player1 then 'X' else 'O')
      ensures MapToPlayer(c) == Decided(currentPlayer)
    {
      PlayerSymbols[currentPlayer]
    }

    /** `toggleCurrentPlayer`: flip the turn and emit `playerChange`. */
    method ToggleCurrentPlayer() returns (e: Event)
      requires Valid()
      modifies this`currentPlayer
      ensures Valid()
      ensures currentPlayer == Toggled(old(currentPlayer))
      ensures e == PlayerChange(currentPlayer)
    {
      currentPlayer := ((currentPlayer as bv2) ^ 1) as int;
      e := PlayerChange(currentPlayer);
    }

    /** `updateWinner`: rows, then columns, then the two diagonals, then the
        tie test, each later test only while `winner` is undefined. */
    method UpdateWinner()
      requires Valid()
      modifies this`winner
      ensures Valid()
      ensures winner == UpdatedWinner(Cells(), old(winner))
    {
      ghost var b := Cells();
      // rows
      for i := 0 to 3
        invariant winner == old(winner)
        invariant forall k | 0 <= k < i :: !RowLine(b, k)
      {
        if board[i, 0] != EmptyCell && board[i, 0] == board[i, 1] && board[i, 0] == board[i, 2] {
          winner := MapToPlayer(board[i, 0]);
          break;
        }
      }
      assert winner == RowsChecked(b, old(winner));
      // columns
      if winner == Undefined {
        for i := 0 to 3
          invariant winner == Undefined
          invariant forall k | 0 <= k < i :: !ColLine(b, k)
        {
          if board[0, i] != EmptyCell && board[0, i] == board[1, i] && board[0, i] == board[2, i] {
            winner := MapToPlayer(board[0, i]);
            break;
          }
        }
      }
      assert winner == ColumnsChecked(b, RowsChecked(b, old(winner)));
      // diagonals
      if winner == Undefined {
        if board[0, 0] != EmptyCell && board[0, 0] == board[1, 1] && board[0, 0] == board[2, 2] {
          winner := MapToPlayer(board[0, 0]);
        }
      }
      if winner == Undefined {
        if board[0, 2] != EmptyCell && board[0, 2] == board[1, 1] && board[0, 2] == board[2, 0] {
          winner := MapToPlayer(board[0, 2]);
        }
      }
      assert winner == DiagonalsChecked(b, ColumnsChecked(b, RowsChecked(b, old(winner))));
      // tie: every cell has been played
      if winner == Undefined {
        var isTie := true;
        label outer:
        for r := 0 to 3
          invariant isTie
          invariant forall a, c | 0 <= a < r && 0 <= c < 3 :: board[a, c] != EmptyCell
        {
          for c := 0 to 3
            invariant isTie
            invariant forall k | 0 <= k < c :: board[r, k] != EmptyCell
          {
            if board[r, c] == EmptyCell {
              isTie := false;
              break outer;
            }
          }
        }
        assert isTie <==> Full(b);
        if isTie {
          winner := Decided(TieCode);
        }
      }
    }

    /** `place`: write the current player's symbol into one cell. The cell is
        not checked: a marked cell is overwritten. */
    method Place(row: int, col: int)
      requires Valid() && InBounds(row, col)
      modifies board
      ensures Valid()
      ensures State() == PlaceStep(old(State()), row, col)
    {
      ghost var before := Cells();
      var symbol := PlayerSymbols[currentPlayer];
      board[row, col] := symbol;
      BoardAfter(before, row, col, symbol, Cells());
    }

    /** `reset`: every cell back to '.', player 1 to move, no winner. */
    method Reset()
      requires Valid()
      modifies this, board
      ensures Valid()
      ensures State() == InitialState()
    {
      for i := 0 to 3
        invariant forall a, c | 0 <= a < i && 0 <= c < 3 :: board[a, c] == EmptyCell
      {
        for j := 0 to 3
          invariant forall a, c | 0 <= a < i && 0 <= c < 3 :: board[a, c] == EmptyCell
          invariant forall c | 0 <= c < j :: board[i, c] == EmptyCell
        {
          board[i, j] := EmptyCell;
        }
      }
      currentPlayer := Player1;
      winner := Undefined;
      SameCells(Cells(), EmptyBoard());
    }

    /** `playRound`: place, evaluate, then either pass the turn (emitting
        `playerChange`) or end the game (emitting `gameOver` with the winner). */
    method PlayRound(row: int, col: int) returns (emitted: seq<Event>)
      requires Valid() && InBounds(row, col)
      modifies this, board
      ensures Valid()
      ensures (State(), emitted) == PlayRoundStep(old(State()), row, col)
    {
      Place(row, col);
      UpdateWinner();
      if NoWinner() {
        var e := ToggleCurrentPlayer();
        emitted := [e];
      } else {
        emitted := [GameOver(winner.code)];
      }
    }

    /** `tryRound`: drop a click that is out of bounds or on a marked cell;
        otherwise emit `playRound` tagged with the mover's symbol, whose
        handler in the engine is `playRound`. */
    method TryRound(row: int, col: int) returns (emitted: seq<Event>)
      requires Valid()
      modifies this, board
      ensures Valid()
      ensures (State(), emitted) == TryRoundStep(old(State()), row, col)
    {
      if Oob(row, col) {
        return [];
      }
      if !IsEmpty(row, col) {
        return [];
      }
      var symbol := CurrentPlayerSymbol();
      var handled := PlayRound(row, col);
      emitted := [Event.PlayRound(row, col, symbol)] + handled;
    }
  }

  /** A client: calling `reset` twice leaves the state a single call leaves. */
  method ResetTwice(g: TicTacToe)
    requires g.Valid()
    modifies g, g.board
    ensures g.Valid() && g.State() == InitialState()
  {
    g.Reset();
    ghost var once := g.State();
    g.Reset();
    assert g.State() == once;
  }
}
