/** The game engine as a state machine on values: what a move does to the
    board, the turn and the winner, and which notifications it emits. */
module Rules {
  import opened Board

  /** The notifications the engine emits, in the order it emits them. */
  datatype Event =
    | PlayRound(row: int, col: int, symbol: char)  // a validated move, tagged with the mover's symbol
    | PlayerChange(player: int)                    // the turn passed to `player`
    | GameOver(winner: int)                        // the game ended with this winner code

  /** The engine's state: `board`, `currentPlayer` and `winner`. */
  datatype GameState = GameState(board: Grid, currentPlayer: int, winner: Winner)

  predicate ValidState(s: GameState) {
    && WellFormed(s.board)
    && (s.currentPlayer == Player1 || s.currentPlayer == Player2)
    && ValidWinner(s.winner)
  }

  /** The state at start-up and after `reset`. */
  function InitialState(): (s: GameState)
    ensures ValidState(s)
    ensures forall i, j | InBounds(i, j) :: s.board[i][j] == EmptyCell
    ensures s.currentPlayer == Player1 && s.winner == Undefined
  {
    GameState(EmptyBoard(), Player1, Undefined)
  }

  /** `currentPlayer ^= 1`. */
  function Toggled(p: int): (q: int)
    requires p == Player1 || p == Player2
    ensures q == Player1 || q == Player2
    ensures q != p
  {
    ((p as bv2) ^ 1) as int
  }

  /** The location is on the board and its cell is '.'. */
  predicate Playable(s: GameState, row: int, col: int)
    requires IsGrid(s.board)
  {
    InBounds(row, col) && s.board[row][col] == EmptyCell
  }

  /** `place`: the current player's symbol goes into one cell, with no check
      that the cell is empty. */
  function PlaceStep(s: GameState, row: int, col: int): (t: GameState)
    requires ValidState(s) && InBounds(row, col)
    ensures ValidState(t)
    ensures t.board[row][col] == PlayerSymbol(s.currentPlayer)
    ensures forall i, j | InBounds(i, j) && (i, j) != (row, col) :: t.board[i][j] == s.board[i][j]
    ensures t.currentPlayer == s.currentPlayer && t.winner == s.winner
  {
    s.(board := SetCell(s.board, row, col, PlayerSymbol(s.currentPlayer)))
  }

  /** `playRound`: place, evaluate, then pass the turn or end the game. */
  function PlayRoundStep(s: GameState, row: int, col: int): (r: (GameState, seq<Event>))
    requires ValidState(s) && InBounds(row, col)
    ensures ValidState(r.0)
    ensures r.0.board == PlaceStep(s, row, col).board
    ensures r.0.winner == UpdatedWinner(r.0.board, s.winner)
    ensures r.0.winner == Undefined ==>
      r.0.currentPlayer == Toggled(s.currentPlayer) && r.1 == [PlayerChange(r.0.currentPlayer)]
    ensures r.0.winner.Decided? ==>
      r.0.currentPlayer == s.currentPlayer && r.1 == [GameOver(r.0.winner.code)]
  {
    var placed := PlaceStep(s, row, col);
    var w := UpdatedWinner(placed.board, placed.winner);
    if w == Undefined then
      var p := Toggled(placed.currentPlayer);
      (placed.(winner := w, currentPlayer := p), [PlayerChange(p)])
    else
      (placed.(winner := w), [GameOver(w.code)])
  }

  /** `tryRound`: a move out of bounds or onto a marked cell is dropped;
      any other is forwarded to `playRound`, tagged with the mover's symbol.
      Whether the game is already decided is not looked at. */
  function TryRoundStep(s: GameState, row: int, col: int): (r: (GameState, seq<Event>))
    requires ValidState(s)
    ensures ValidState(r.0)
    ensures r.1 != [] <==> Playable(s, row, col)
    ensures !Playable(s, row, col) ==> r == (s, [])
    ensures Playable(s, row, col) ==>
      var (t, emitted) := PlayRoundStep(s, row, col);
      r.0 == t && r.1 == [PlayRound(row, col, PlayerSymbol(s.currentPlayer))] + emitted
  {
    if Oob(row, col) then (s, [])
    else if s.board[row][col] != EmptyCell then (s, [])
    else
      var (t, emitted) := PlayRoundStep(s, row, col);
      (t, [PlayRound(row, col, PlayerSymbol(s.currentPlayer))] + emitted)
  }

  /** A sequence of clicks, each passed to `tryRound`: the final state and
      every notification, in order. Each click emits nothing or two
      notifications. */
  function Run(s: GameState, moves: seq<(int, int)>): (r: (GameState, seq<Event>))
    requires ValidState(s)
    ensures ValidState(r.0)
    ensures |r.1| % 2 == 0 && |r.1| <= 2 * |moves|
    decreases |moves|
  {
    if moves == [] then (s, [])
    else
      var step := TryRoundStep(s, moves[0].0, moves[0].1);
      var rest := Run(step.0, moves[1..]);
      (rest.0, step.1 + rest.1)
  }

  /** Run of a non-empty list of clicks: the first, then the rest. */
  lemma RunFirst(s: GameState, moves: seq<(int, int)>, t: GameState, emitted: seq<Event>)
    requires ValidState(s) && moves != []
    requires TryRoundStep(s, moves[0].0, moves[0].1) == (t, emitted)
    ensures Run(s, moves) == (Run(t, moves[1..]).0, emitted + Run(t, moves[1..]).1)
  {
  }

  /** Clicks in two batches act as the clicks of both, in order. */
  lemma {:induction false} RunConcat(s: GameState, a: seq<(int, int)>, b: seq<(int, int)>)
    requires ValidState(s)
    ensures Run(s, a + b) == (Run(Run(s, a).0, b).0, Run(s, a).1 + Run(Run(s, a).0, b).1)
    decreases |a|
  {
    if a == [] {
      assert a + b == b;
      assert Run(s, a) == (s, []);
      assert [] + Run(s, b).1 == Run(s, b).1;
    } else {
      var ab := a + b;
      var step := TryRoundStep(s, a[0].0, a[0].1);
      var t := step.0;
      var mid := Run(t, a[1..]);
      var last := Run(mid.0, b);
      var whole := Run(t, a[1..] + b);
      assert whole == (last.0, mid.1 + last.1) by {
        RunConcat(t, a[1..], b);
      }
      assert Run(s, a) == (mid.0, step.1 + mid.1) by {
        RunFirst(s, a, t, step.1);
      }
      assert Run(s, ab) == (whole.0, step.1 + whole.1) by {
        assert ab[0] == a[0] && ab[1..] == a[1..] + b;
        RunFirst(s, ab, t, step.1);
      }
      assert step.1 + (mid.1 + last.1) == (step.1 + mid.1) + last.1;
    }
  }

  // ---------------------------------------------------------------------
  // The outcome, once decided, never changes under `tryRound`.

  /** How the winner relates to the board in every state play can reach:
      undecided means no complete line and an empty cell left; a player's win
      means some line is complete, that player owns every complete line and is
      still to move; a tie means a full board with no complete line. */
  predicate Coherent(s: GameState)
    requires ValidState(s)
  {
    && (s.winner == Undefined ==> !Full(s.board) && forall k | 0 <= k < 8 :: !Winning(s.board, k))
    && (s.winner.Decided? && s.winner.code != TieCode ==>
          && s.currentPlayer == s.winner.code
          && (exists k | 0 <= k < 8 :: Winning(s.board, k))
          && forall k | 0 <= k < 8 && Winning(s.board, k) :: LineMark(s.board, k) == PlayerSymbol(s.winner.code))
    && (s.winner == Decided(TieCode) ==> Full(s.board) && forall k | 0 <= k < 8 :: !Winning(s.board, k))
  }

  /** A line complete after writing `c` into an empty cell was complete
      before, or runs through that cell and so is made of `c`. */
  lemma NewLineHasMark(b: Grid, row: int, col: int, c: char, k: int)
    requires IsGrid(b) && InBounds(row, col) && b[row][col] == EmptyCell && c != EmptyCell
    requires 0 <= k < 8 && Winning(SetCell(b, row, col, c), k) && !Winning(b, k)
    ensures LineMark(SetCell(b, row, col, c), k) == c
  {
  }

  /** Every complete line of a board that `UpdatedWinner` evaluates, when all
      are made of the symbol of `p`, makes `p` the winner (rows included). */
  lemma OwnedLinesDecide(b: Grid, w: Winner, p: int)
    requires WellFormed(b) && (p == Player1 || p == Player2)
    requires w == Undefined || w == Decided(p)
    requires exists k | 0 <= k < 8 :: Winning(b, k)
    requires forall k | 0 <= k < 8 && Winning(b, k) :: LineMark(b, k) == PlayerSymbol(p)
    ensures UpdatedWinner(b, w) == Decided(p)
  {
    LinesAgree(b);
    if w == Undefined {
      var k := FirstWinningFrom(b, 0);
      UpdatedWinnerIsReference(b);
    }
  }

  /** One `tryRound` keeps the state coherent and never changes a decided
      winner or, once decided, whose turn it is. */
  lemma TryRoundKeepsOutcome(s: GameState, row: int, col: int)
    requires ValidState(s) && Coherent(s)
    ensures var t := TryRoundStep(s, row, col).0;
      && Coherent(t)
      && (s.winner.Decided? ==> t.winner == s.winner && t.currentPlayer == s.currentPlayer)
  {
    if Playable(s, row, col) {
      var c := PlayerSymbol(s.currentPlayer);
      var b' := SetCell(s.board, row, col, c);
      var t := TryRoundStep(s, row, col).0;
      assert t.board == b';
      if s.winner == Decided(TieCode) {
        assert false;  // a full board has no playable cell
      }
      // every complete line of the new board is made of the mover's symbol
      forall k | 0 <= k < 8 && Winning(b', k)
        ensures LineMark(b', k) == c
      {
        if !Winning(s.board, k) {
          NewLineHasMark(s.board, row, col, c, k);
        }
      }
      // a complete line stays complete: only an empty cell was written
      forall k | 0 <= k < 8 && Winning(s.board, k)
        ensures Winning(b', k)
      {
        assert At(s.board, LineCells(k)[0]) != EmptyCell;
      }
      if exists k | 0 <= k < 8 :: Winning(b', k) {
        OwnedLinesDecide(b', s.winner, s.currentPlayer);
      } else {
        FreshEvaluation(b');
      }
    }
  }

  lemma InitialIsCoherent()
    ensures Coherent(InitialState())
  {
    var b := InitialState().board;
    assert b[0][0] == EmptyCell;
    forall k | 0 <= k < 8 ensures !Winning(b, k) {
      assert At(b, LineCells(k)[0]) == EmptyCell;
    }
  }

  /** However many clicks follow, a decided game keeps its winner and its
      current player (so `currentPlayerSymbol` no longer changes). */
  lemma {:induction false} RunKeepsOutcome(s: GameState, moves: seq<(int, int)>)
    requires ValidState(s) && Coherent(s)
    ensures Coherent(Run(s, moves).0)
    ensures s.winner.Decided? ==>
      Run(s, moves).0.winner == s.winner && Run(s, moves).0.currentPlayer == s.currentPlayer
    decreases |moves|
  {
    if moves != [] {
      TryRoundKeepsOutcome(s, moves[0].0, moves[0].1);
      RunKeepsOutcome(TryRoundStep(s, moves[0].0, moves[0].1).0, moves[1..]);
    }
  }

  /** In every state reached by play from the start, `winner` classifies
      the board as `updateWinner` describes it: a player exactly when some
      line is complete (and then every complete line is that player's), a
      tie exactly when no line is complete and the board is full, undefined
      exactly when no line is complete and a cell is still empty. */
  lemma ReachableOutcome(moves: seq<(int, int)>)
    ensures var s := Run(InitialState(), moves).0;
      && ((s.winner == Decided(Player1) || s.winner == Decided(Player2)) <==> exists k | 0 <= k < 8 :: Winning(s.board, k))
      && (s.winner == Decided(TieCode) <==> (forall k | 0 <= k < 8 :: !Winning(s.board, k)) && Full(s.board))
      && (s.winner == Undefined <==> (forall k | 0 <= k < 8 :: !Winning(s.board, k)) && !Full(s.board))
      && forall k | 0 <= k < 8 && Winning(s.board, k) ::
           s.winner.Decided? && s.winner.code != TieCode && LineMark(s.board, k) == PlayerSymbol(s.winner.code)
  {
    InitialIsCoherent();
    RunKeepsOutcome(InitialState(), moves);
  }

  /** `tryRound` does not look at `winner`: after a win, a click on an empty
      cell still places the winner's symbol and emits `gameOver` once more,
      with the same winner and the same player to move. */
  lemma WonGameAcceptsMove(s: GameState, row: int, col: int)
    requires ValidState(s) && Coherent(s) && Playable(s, row, col)
    requires s.winner == Decided(Player1) || s.winner == Decided(Player2)
    ensures var (t, emitted) := TryRoundStep(s, row, col);
      && t.board == SetCell(s.board, row, col, PlayerSymbol(s.winner.code))
      && t.winner == s.winner && t.currentPlayer == s.currentPlayer
      && emitted == [PlayRound(row, col, PlayerSymbol(s.winner.code)), GameOver(s.winner.code)]
  {
    TryRoundKeepsOutcome(s, row, col);
  }

  // ---------------------------------------------------------------------
  // Turn alternation: while undecided, the player to move is X exactly when
  // both players have made the same number of marks.

  predicate Balanced(s: GameState)
    requires IsGrid(s.board)
  {
    s.winner == Undefined ==> Count(s.board, 'X') == Count(s.board, 'O') + s.currentPlayer
  }

  lemma TryRoundKeepsBalance(s: GameState, row: int, col: int)
    requires ValidState(s) && Coherent(s) && Balanced(s)
    ensures Balanced(TryRoundStep(s, row, col).0)
  {
    if Playable(s, row, col) && s.winner == Undefined {
      var c := PlayerSymbol(s.currentPlayer);
      CountSetEmpty(s.board, row, col, c, 'X');
      CountSetEmpty(s.board, row, col, c, 'O');
    } else if Playable(s, row, col) {
      TryRoundKeepsOutcome(s, row, col);
    }
  }

  lemma {:induction false} RunKeepsBalance(s: GameState, moves: seq<(int, int)>)
    requires ValidState(s) && Coherent(s) && Balanced(s)
    ensures Balanced(Run(s, moves).0)
    decreases |moves|
  {
    if moves != [] {
      var t := TryRoundStep(s, moves[0].0, moves[0].1).0;
      TryRoundKeepsBalance(s, moves[0].0, moves[0].1);
      TryRoundKeepsOutcome(s, moves[0].0, moves[0].1);
      RunKeepsBalance(t, moves[1..]);
    }
  }

  /** From the start, while the game is undecided, X has made as many marks
      as O when X is to move, and one more when O is to move. */
  lemma TurnsAlternate(moves: seq<(int, int)>)
    ensures var s := Run(InitialState(), moves).0;
      s.winner == Undefined ==>
        (s.currentPlayer == Player1 <==> Count(s.board, 'X') == Count(s.board, 'O'))
        && (s.currentPlayer == Player2 <==> Count(s.board, 'X') == Count(s.board, 'O') + 1)
  {
    InitialIsCoherent();
    EmptyBoardCounts('X');
    EmptyBoardCounts('O');
    RunKeepsBalance(InitialState(), moves);
  }

  // ---------------------------------------------------------------------
  // Full boards and two complete games.

  /** A full board accepts no further move. */
  lemma FullBoardRejects(s: GameState, row: int, col: int)
    requires ValidState(s) && Full(s.board)
    ensures TryRoundStep(s, row, col) == (s, [])
  {
  }
}
