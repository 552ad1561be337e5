/** Two complete games played through `tryRound` from the initial state. */
module Games {
  import opened Board
  import opened Rules

  /** One accepted move, spelled out: the board after it, the winner and
      the player to move given, the two notifications it emits. */
  lemma AcceptedMove(s: GameState, row: int, col: int, t: GameState)
    requires ValidState(s) && Playable(s, row, col)
    requires t.board == SetCell(s.board, row, col, PlayerSymbol(s.currentPlayer))
    requires t.winner == UpdatedWinner(t.board, s.winner)
    requires t.currentPlayer == if t.winner == Undefined then Toggled(s.currentPlayer) else s.currentPlayer
    ensures TryRoundStep(s, row, col) == (t, [PlayRound(row, col, PlayerSymbol(s.currentPlayer)),
      if t.winner == Undefined then PlayerChange(t.currentPlayer) else GameOver(t.winner.code)])
  {
    var ev := if t.winner == Undefined then PlayerChange(t.currentPlayer) else GameOver(t.winner.code);
    assert [PlayRound(row, col, PlayerSymbol(s.currentPlayer))] + [ev]
        == [PlayRound(row, col, PlayerSymbol(s.currentPlayer)), ev];
  }

  /** X fills the top row while O plays the centre and the middle left:
      X wins, the turn stays with X, and the last notification is `gameOver`. */
  lemma TopRowGame()
    ensures var (s, emitted) := Run(InitialState(), [(0, 0), (1, 1), (0, 1), (1, 0), (0, 2)]);
      && s.winner == Decided(Player1)
      && s.currentPlayer == Player1
      && emitted[|emitted| - 1] == GameOver(Player1)
  {
    var moves := [(0, 0), (1, 1), (0, 1), (1, 0), (0, 2)];
    var s0 := InitialState();
    var s1 := GameState([['X', '.', '.'], ['.', '.', '.'], ['.', '.', '.']], Player2, Undefined);
    var s2 := GameState([['X', '.', '.'], ['.', 'O', '.'], ['.', '.', '.']], Player1, Undefined);
    var s3 := GameState([['X', 'X', '.'], ['.', 'O', '.'], ['.', '.', '.']], Player2, Undefined);
    var s4 := GameState([['X', 'X', '.'], ['O', 'O', '.'], ['.', '.', '.']], Player1, Undefined);
    var s5 := GameState([['X', 'X', 'X'], ['O', 'O', '.'], ['.', '.', '.']], Player1, Decided(Player1));
    CornerOpening();
    TopRowMove2();
    TopRowMove3();
    TopRowMove4();
    TopRowMove5();
    RunFirst(s4, moves[4..], s5, [PlayRound(0, 2, 'X'), GameOver(Player1)]);
    RunFirst(s3, moves[3..], s4, [PlayRound(1, 0, 'O'), PlayerChange(Player1)]);
    RunFirst(s2, moves[2..], s3, [PlayRound(0, 1, 'X'), PlayerChange(Player2)]);
    RunFirst(s1, moves[1..], s2, [PlayRound(1, 1, 'O'), PlayerChange(Player1)]);
    RunFirst(s0, moves[0..], s1, [PlayRound(0, 0, 'X'), PlayerChange(Player2)]);
  }

  /** After the top-row win a further click on an empty cell is still
      played: X's mark goes in and `gameOver` is emitted a second time. */
  lemma ClickAfterTopRowWin()
    ensures TryRoundStep(GameState([['X', 'X', 'X'], ['O', 'O', '.'], ['.', '.', '.']], Player1, Decided(Player1)), 2, 2)
         == (GameState([['X', 'X', 'X'], ['O', 'O', '.'], ['.', '.', 'X']], Player1, Decided(Player1)),
             [PlayRound(2, 2, 'X'), GameOver(Player1)])
  {
    var s := GameState([['X', 'X', 'X'], ['O', 'O', '.'], ['.', '.', '.']], Player1, Decided(Player1));
    var t := GameState([['X', 'X', 'X'], ['O', 'O', '.'], ['.', '.', 'X']], Player1, Decided(Player1));
    BoardAfter(s.board, 2, 2, 'X', t.board);
    AcceptedMove(s, 2, 2, t);
  }

  /** A drawn game: nine moves (an opening of five, an ending of four) fill
      the board with no line and give a tie. */
  lemma DrawnGame()
    ensures var (s, emitted) := Run(InitialState(), [(0, 0), (0, 2), (0, 1), (1, 0), (1, 2)]
                                                    + [(1, 1), (2, 0), (2, 1), (2, 2)]);
      && s == DrawnFinal()
      && s.winner == Decided(TieCode)
      && emitted[|emitted| - 1] == GameOver(TieCode)
  {
    DrawnOpening();
    DrawnEnding();
    RunConcat(InitialState(), [(0, 0), (0, 2), (0, 1), (1, 0), (1, 2)], [(1, 1), (2, 0), (2, 1), (2, 2)]);
  }

  /** The state the drawn game ends in. */
  function DrawnFinal(): GameState {
    GameState([['X', 'X', 'O'], ['O', 'O', 'X'], ['X', 'O', 'X']], Player1, Decided(TieCode))
  }

  /** After the draw no click is accepted, and nothing changes. */
  lemma DrawnGameIsOver(row: int, col: int)
    ensures ValidState(DrawnFinal()) && TryRoundStep(DrawnFinal(), row, col) == (DrawnFinal(), [])
  {
    FullBoardRejects(DrawnFinal(), row, col);
  }

  /** The first five moves of the drawn game. */
  lemma DrawnOpening()
    ensures Run(InitialState(), [(0, 0), (0, 2), (0, 1), (1, 0), (1, 2)]).0
         == GameState([['X', 'X', 'O'], ['O', '.', 'X'], ['.', '.', '.']], Player2, Undefined)
  {
    var moves := [(0, 0), (0, 2), (0, 1), (1, 0), (1, 2)];
    var s0 := InitialState();
    var s1 := GameState([['X', '.', '.'], ['.', '.', '.'], ['.', '.', '.']], Player2, Undefined);
    var s2 := GameState([['X', '.', 'O'], ['.', '.', '.'], ['.', '.', '.']], Player1, Undefined);
    var s3 := GameState([['X', 'X', 'O'], ['.', '.', '.'], ['.', '.', '.']], Player2, Undefined);
    var s4 := GameState([['X', 'X', 'O'], ['O', '.', '.'], ['.', '.', '.']], Player1, Undefined);
    var s5 := GameState([['X', 'X', 'O'], ['O', '.', 'X'], ['.', '.', '.']], Player2, Undefined);
    CornerOpening();
    DrawnMove2();
    DrawnMove3();
    DrawnMove4();
    DrawnMove5();
    RunFirst(s4, moves[4..], s5, [PlayRound(1, 2, 'X'), PlayerChange(Player2)]);
    RunFirst(s3, moves[3..], s4, [PlayRound(1, 0, 'O'), PlayerChange(Player1)]);
    RunFirst(s2, moves[2..], s3, [PlayRound(0, 1, 'X'), PlayerChange(Player2)]);
    RunFirst(s1, moves[1..], s2, [PlayRound(0, 2, 'O'), PlayerChange(Player1)]);
    RunFirst(s0, moves[0..], s1, [PlayRound(0, 0, 'X'), PlayerChange(Player2)]);
  }

  /** The last four moves of the drawn game. */
  lemma DrawnEnding()
    ensures var (s, emitted) := Run(GameState([['X', 'X', 'O'], ['O', '.', 'X'], ['.', '.', '.']], Player2, Undefined),
                                    [(1, 1), (2, 0), (2, 1), (2, 2)]);
      && s == DrawnFinal()
      && emitted != [] && emitted[|emitted| - 1] == GameOver(TieCode)
  {
    var moves := [(1, 1), (2, 0), (2, 1), (2, 2)];
    var s5 := GameState([['X', 'X', 'O'], ['O', '.', 'X'], ['.', '.', '.']], Player2, Undefined);
    var s6 := GameState([['X', 'X', 'O'], ['O', 'O', 'X'], ['.', '.', '.']], Player1, Undefined);
    var s7 := GameState([['X', 'X', 'O'], ['O', 'O', 'X'], ['X', '.', '.']], Player2, Undefined);
    var s8 := GameState([['X', 'X', 'O'], ['O', 'O', 'X'], ['X', 'O', '.']], Player1, Undefined);
    var s9 := DrawnFinal();
    DrawnMove6();
    DrawnMove7();
    DrawnMove8();
    DrawnMove9();
    RunFirst(s8, moves[3..], s9, [PlayRound(2, 2, 'X'), GameOver(TieCode)]);
    RunFirst(s7, moves[2..], s8, [PlayRound(2, 1, 'O'), PlayerChange(Player1)]);
    RunFirst(s6, moves[1..], s7, [PlayRound(2, 0, 'X'), PlayerChange(Player2)]);
    RunFirst(s5, moves[0..], s6, [PlayRound(1, 1, 'O'), PlayerChange(Player1)]);
  }

  // The individual moves of the two games.

  /** X opens in the top-left corner (the first move of both games). */
  lemma CornerOpening()
    ensures TryRoundStep(InitialState(), 0, 0)
         == (GameState([['X', '.', '.'], ['.', '.', '.'], ['.', '.', '.']], Player2, Undefined),
             [PlayRound(0, 0, 'X'), PlayerChange(Player2)])
  {
    var s := InitialState();
    var t := GameState([['X', '.', '.'], ['.', '.', '.'], ['.', '.', '.']], Player2, Undefined);
    assert s.board == EmptyBoard();
    BoardAfter(s.board, 0, 0, 'X', t.board);
    AcceptedMove(s, 0, 0, t);
  }

  lemma TopRowMove2()
    ensures TryRoundStep(GameState([['X', '.', '.'], ['.', '.', '.'], ['.', '.', '.']], Player2, Undefined), 1, 1)
         == (GameState([['X', '.', '.'], ['.', 'O', '.'], ['.', '.', '.']], Player1, Undefined),
             [PlayRound(1, 1, 'O'), PlayerChange(Player1)])
  {
    var s := GameState([['X', '.', '.'], ['.', '.', '.'], ['.', '.', '.']], Player2, Undefined);
    var t := GameState([['X', '.', '.'], ['.', 'O', '.'], ['.', '.', '.']], Player1, Undefined);
    BoardAfter(s.board, 1, 1, 'O', t.board);
    AcceptedMove(s, 1, 1, t);
  }

  lemma TopRowMove3()
    ensures TryRoundStep(GameState([['X', '.', '.'], ['.', 'O', '.'], ['.', '.', '.']], Player1, Undefined), 0, 1)
         == (GameState([['X', 'X', '.'], ['.', 'O', '.'], ['.', '.', '.']], Player2, Undefined),
             [PlayRound(0, 1, 'X'), PlayerChange(Player2)])
  {
    var s := GameState([['X', '.', '.'], ['.', 'O', '.'], ['.', '.', '.']], Player1, Undefined);
    var t := GameState([['X', 'X', '.'], ['.', 'O', '.'], ['.', '.', '.']], Player2, Undefined);
    BoardAfter(s.board, 0, 1, 'X', t.board);
    AcceptedMove(s, 0, 1, t);
  }

  lemma TopRowMove4()
    ensures TryRoundStep(GameState([['X', 'X', '.'], ['.', 'O', '.'], ['.', '.', '.']], Player2, Undefined), 1, 0)
         == (GameState([['X', 'X', '.'], ['O', 'O', '.'], ['.', '.', '.']], Player1, Undefined),
             [PlayRound(1, 0, 'O'), PlayerChange(Player1)])
  {
    var s := GameState([['X', 'X', '.'], ['.', 'O', '.'], ['.', '.', '.']], Player2, Undefined);
    var t := GameState([['X', 'X', '.'], ['O', 'O', '.'], ['.', '.', '.']], Player1, Undefined);
    BoardAfter(s.board, 1, 0, 'O', t.board);
    AcceptedMove(s, 1, 0, t);
  }

  lemma TopRowMove5()
    ensures TryRoundStep(GameState([['X', 'X', '.'], ['O', 'O', '.'], ['.', '.', '.']], Player1, Undefined), 0, 2)
         == (GameState([['X', 'X', 'X'], ['O', 'O', '.'], ['.', '.', '.']], Player1, Decided(Player1)),
             [PlayRound(0, 2, 'X'), GameOver(Player1)])
  {
    var s := GameState([['X', 'X', '.'], ['O', 'O', '.'], ['.', '.', '.']], Player1, Undefined);
    var t := GameState([['X', 'X', 'X'], ['O', 'O', '.'], ['.', '.', '.']], Player1, Decided(Player1));
    BoardAfter(s.board, 0, 2, 'X', t.board);
    AcceptedMove(s, 0, 2, t);
  }

  lemma DrawnMove2()
    ensures TryRoundStep(GameState([['X', '.', '.'], ['.', '.', '.'], ['.', '.', '.']], Player2, Undefined), 0, 2)
         == (GameState([['X', '.', 'O'], ['.', '.', '.'], ['.', '.', '.']], Player1, Undefined),
             [PlayRound(0, 2, 'O'), PlayerChange(Player1)])
  {
    var s := GameState([['X', '.', '.'], ['.', '.', '.'], ['.', '.', '.']], Player2, Undefined);
    var t := GameState([['X', '.', 'O'], ['.', '.', '.'], ['.', '.', '.']], Player1, Undefined);
    BoardAfter(s.board, 0, 2, 'O', t.board);
    AcceptedMove(s, 0, 2, t);
  }

  lemma DrawnMove3()
    ensures TryRoundStep(GameState([['X', '.', 'O'], ['.', '.', '.'], ['.', '.', '.']], Player1, Undefined), 0, 1)
         == (GameState([['X', 'X', 'O'], ['.', '.', '.'], ['.', '.', '.']], Player2, Undefined),
             [PlayRound(0, 1, 'X'), PlayerChange(Player2)])
  {
    var s := GameState([['X', '.', 'O'], ['.', '.', '.'], ['.', '.', '.']], Player1, Undefined);
    var t := GameState([['X', 'X', 'O'], ['.', '.', '.'], ['.', '.', '.']], Player2, Undefined);
    BoardAfter(s.board, 0, 1, 'X', t.board);
    AcceptedMove(s, 0, 1, t);
  }

  lemma DrawnMove4()
    ensures TryRoundStep(GameState([['X', 'X', 'O'], ['.', '.', '.'], ['.', '.', '.']], Player2, Undefined), 1, 0)
         == (GameState([['X', 'X', 'O'], ['O', '.', '.'], ['.', '.', '.']], Player1, Undefined),
             [PlayRound(1, 0, 'O'), PlayerChange(Player1)])
  {
    var s := GameState([['X', 'X', 'O'], ['.', '.', '.'], ['.', '.', '.']], Player2, Undefined);
    var t := GameState([['X', 'X', 'O'], ['O', '.', '.'], ['.', '.', '.']], Player1, Undefined);
    BoardAfter(s.board, 1, 0, 'O', t.board);
    AcceptedMove(s, 1, 0, t);
  }

  lemma DrawnMove5()
    ensures TryRoundStep(GameState([['X', 'X', 'O'], ['O', '.', '.'], ['.', '.', '.']], Player1, Undefined), 1, 2)
         == (GameState([['X', 'X', 'O'], ['O', '.', 'X'], ['.', '.', '.']], Player2, Undefined),
             [PlayRound(1, 2, 'X'), PlayerChange(Player2)])
  {
    var s := GameState([['X', 'X', 'O'], ['O', '.', '.'], ['.', '.', '.']], Player1, Undefined);
    var t := GameState([['X', 'X', 'O'], ['O', '.', 'X'], ['.', '.', '.']], Player2, Undefined);
    BoardAfter(s.board, 1, 2, 'X', t.board);
    AcceptedMove(s, 1, 2, t);
  }

  lemma DrawnMove6()
    ensures TryRoundStep(GameState([['X', 'X', 'O'], ['O', '.', 'X'], ['.', '.', '.']], Player2, Undefined), 1, 1)
         == (GameState([['X', 'X', 'O'], ['O', 'O', 'X'], ['.', '.', '.']], Player1, Undefined),
             [PlayRound(1, 1, 'O'), PlayerChange(Player1)])
  {
    var s := GameState([['X', 'X', 'O'], ['O', '.', 'X'], ['.', '.', '.']], Player2, Undefined);
    var t := GameState([['X', 'X', 'O'], ['O', 'O', 'X'], ['.', '.', '.']], Player1, Undefined);
    BoardAfter(s.board, 1, 1, 'O', t.board);
    AcceptedMove(s, 1, 1, t);
  }

  lemma DrawnMove7()
    ensures TryRoundStep(GameState([['X', 'X', 'O'], ['O', 'O', 'X'], ['.', '.', '.']], Player1, Undefined), 2, 0)
         == (GameState([['X', 'X', 'O'], ['O', 'O', 'X'], ['X', '.', '.']], Player2, Undefined),
             [PlayRound(2, 0, 'X'), PlayerChange(Player2)])
  {
    var s := GameState([['X', 'X', 'O'], ['O', 'O', 'X'], ['.', '.', '.']], Player1, Undefined);
    var t := GameState([['X', 'X', 'O'], ['O', 'O', 'X'], ['X', '.', '.']], Player2, Undefined);
    BoardAfter(s.board, 2, 0, 'X', t.board);
    AcceptedMove(s, 2, 0, t);
  }

  lemma DrawnMove8()
    ensures TryRoundStep(GameState([['X', 'X', 'O'], ['O', 'O', 'X'], ['X', '.', '.']], Player2, Undefined), 2, 1)
         == (GameState([['X', 'X', 'O'], ['O', 'O', 'X'], ['X', 'O', '.']], Player1, Undefined),
             [PlayRound(2, 1, 'O'), PlayerChange(Player1)])
  {
    var s := GameState([['X', 'X', 'O'], ['O', 'O', 'X'], ['X', '.', '.']], Player2, Undefined);
    var t := GameState([['X', 'X', 'O'], ['O', 'O', 'X'], ['X', 'O', '.']], Player1, Undefined);
    assert t.board[2][2] == EmptyCell;
    BoardAfter(s.board, 2, 1, 'O', t.board);
    AcceptedMove(s, 2, 1, t);
  }

  lemma DrawnMove9()
    ensures TryRoundStep(GameState([['X', 'X', 'O'], ['O', 'O', 'X'], ['X', 'O', '.']], Player1, Undefined), 2, 2)
         == (DrawnFinal(),
             [PlayRound(2, 2, 'X'), GameOver(TieCode)])
  {
    var s := GameState([['X', 'X', 'O'], ['O', 'O', 'X'], ['X', 'O', '.']], Player1, Undefined);
    var t := DrawnFinal();
    BoardAfter(s.board, 2, 2, 'X', t.board);
    AcceptedMove(s, 2, 2, t);
  }
}
