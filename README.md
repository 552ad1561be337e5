# Tic-tac-toe game engine in Dafny

This project models the game engine of a browser tic-tac-toe game: the
`game` closure of `src/js/tic-tac-toe.js`. The engine holds three things:

- a 3x3 board of `'.'`, `'X'` and `'O'`;
- `currentPlayer`, which is 0 while X is to move and 1 while O is;
- `winner`, which is `undefined`, the mover's number, or 2 for a tie.

It reacts to clicks. `tryRound` drops a click that is out of bounds or on a
marked cell; otherwise it emits `playRound`. `playRound` places the mark,
runs `updateWinner`, and then either flips the turn (emitting `playerChange`)
or emits `gameOver`.

The model has four modules:

- `Board` (board.dfy): the grid, its cells and lines. `UpdatedWinner` is the
  exact sequence of tests `updateWinner` makes. `ReferenceOutcome` is an
  independent definition: the first complete line decides, a full board
  without a line is a tie. A lemma proves the two equal on every
  well-formed board when `winner` starts undefined. They can differ on a
  board holding other characters, whose complete lines map to undefined,
  and when `winner` already holds a value.
- `Rules` (rules.dfy): the engine as a state machine on values. `GameState`
  is the state and `Event` the notifications, returned in the order they are
  emitted. `PlaceStep`, `PlayRoundStep` and `TryRoundStep` are the
  operations. `Run` feeds a list of clicks to `tryRound`. The lemmas show
  that the outcome, once decided, never changes, and that turns alternate.
- `Game` (game.dfy): the engine as the source writes it. A class with an
  `array2<char>` board and the `currentPlayer` and `winner` fields. Every
  method is proved to produce exactly the state and notifications of the
  matching function. For `UpdateWinner` that function is
  `Board.UpdatedWinner`; for the others it is a `Rules` function.
  `UpdateWinner` keeps the source's loops with `break` and its labelled
  double loop for the tie test.
- `Games` (games.dfy): complete games played through `Run`. One is a win
  along the top row; the other is the usual drawn sequence
  X(0,0) O(0,2) X(0,1) O(1,0) X(1,2) O(1,1) X(2,0) O(2,1) X(2,2).

One might expect a finished game, an occupied cell or an off-board
location to be refused with an error, and a finished game to accept no
further moves. The engine does neither, and the model follows the code:

- No move is ever refused with an error. `tryRound` just returns without
  emitting anything.
- `tryRound` never looks at `winner`. A decided game stays "frozen" only
  because the page unbinds its click handlers on `gameOver`. The engine
  itself accepts a click on an empty cell after a win. It places the
  winner's mark (the turn did not pass) and emits `gameOver` again
  (`Rules.WonGameAcceptsMove`, `Games.ClickAfterTopRowWin`). The outcome and
  the player to move still never change (`Rules.RunKeepsOutcome`).
- `updateWinner` does not clear `winner` first. Its rows loop may overwrite
  a decided value. This is why `UpdatedWinner` takes the old winner as an
  argument. Under play through `tryRound`, every complete line belongs to
  the recorded winner, so the overwrite writes the same value
  (`Rules.TryRoundKeepsOutcome`).
- `place` checks nothing. Called directly, it overwrites a marked cell.

## Model

| member | source | states |
|---|---|---|
| Board.Oob | src/js/tic-tac-toe.js:68-70 | true exactly when row or column lies outside 0..2 |
| Board.MapToPlayer | src/js/tic-tac-toe.js:100 | 'X' maps to player 1 (0) and 'O' to player 2 (1); any other cell value maps to undefined; the mapped number indexes back to the same symbol |
| Board.PlayerSymbol | src/js/tic-tac-toe.js:41-44 | player 0 plays 'X' and player 1 plays 'O'; the symbol is a mark other than '.' and maps back to its player |
| Board.EmptyBoard | src/js/tic-tac-toe.js:47-52 | the initial board is well formed and every cell is '.' |
| Board.UpdatedWinner | src/js/tic-tac-toe.js:99-165 | the evaluation keeps `winner` in {undefined, 0, 1, 2}; it never takes a decision back; when a winner is already set and no row is complete, it leaves the winner unchanged |
| Board.UpdatedWinnerIsReference | src/js/tic-tac-toe.js:95-165 | starting from an undefined winner on a well-formed board, the evaluation equals the reference outcome: the owner of the first complete line, else a tie on a full board, else undefined |
| Board.FirstLineDecides | src/js/tic-tac-toe.js:102-146 | precedence: when line k is the first complete line in the order rows, columns, main diagonal, anti-diagonal, its mark decides the winner |
| Board.FreshEvaluation | src/js/tic-tac-toe.js:95-98 | a player wins exactly when some line is complete; a tie exactly when no line is complete and no cell is '.'; undefined exactly when no line is complete and some cell is '.' |
| Board.LinesAgree | src/js/tic-tac-toe.js:102-146 | each row, column and diagonal test of the engine is the corresponding reference line, with the same mark |
| Board.CountSetEmpty | src/js/tic-tac-toe.js:214-217 | writing a symbol into an empty cell adds one of that symbol and leaves the count of every other mark unchanged |
| Rules.InitialState | src/js/tic-tac-toe.js:49-59 | the start state: all nine cells '.', player 1 to move, winner undefined |
| Rules.Toggled | src/js/tic-tac-toe.js:84-85 | `currentPlayer ^= 1` keeps the player in {0, 1} and always changes it |
| Rules.PlaceStep | src/js/tic-tac-toe.js:214-217 | the cell gets the current player's symbol; every other cell, `currentPlayer` and `winner` are unchanged |
| Rules.PlayRoundStep | src/js/tic-tac-toe.js:231-241 | after placing and evaluating, exactly one of two things happens: with no winner the turn flips and `playerChange` is emitted with the new player; with a winner the turn stays and `gameOver` is emitted with the winner |
| Rules.TryRoundStep | src/js/tic-tac-toe.js:193-206 | a notification is emitted exactly when the cell is in bounds and '.'; otherwise state and output are unchanged and empty; when playable, `playRound` tagged with the mover's symbol comes first, then what `playRound` emits |
| Rules.Run | src/js/tic-tac-toe.js:252 | successive clicks, each delivered to the `tryRound` handler (the page emits `tryRound` per click at line 284); the state stays valid and each click emits either nothing or two notifications |
| Rules.RunConcat | src/js/tic-tac-toe.js:193-206 | `Run` over two batches of clicks: the final states chain and the notifications concatenate, in order |
| Rules.TryRoundKeepsOutcome | src/js/tic-tac-toe.js:193-241 | one click keeps `winner` consistent with the board (undefined: no complete line and a '.' left; a player: some line complete and every complete line theirs, that player to move; tie: full board, no line); a decided winner and, once decided, the player to move never change |
| Rules.RunKeepsOutcome | src/js/tic-tac-toe.js:193-241 | the same holds for any sequence of clicks |
| Rules.ReachableOutcome | src/js/tic-tac-toe.js:95-165 | in every state that clicks from the start reach: the winner is a player exactly when some line is complete, and every complete line holds that player's symbol; a tie exactly when no line is complete and the board is full; undefined exactly when no line is complete and a cell is '.' |
| Rules.WonGameAcceptsMove | src/js/tic-tac-toe.js:193-206 | after a win, a click on an empty cell is still played: the winner's symbol is placed, winner and turn stay, and `playRound` then `gameOver` are emitted again |
| Rules.TurnsAlternate | src/js/tic-tac-toe.js:84-87 | from the start, while undecided, X is to move exactly when both players have the same number of marks, and O exactly when X has one more |
| Rules.FullBoardRejects | src/js/tic-tac-toe.js:196-202 | on a full board every click is dropped: no change, no notification |
| Games.TopRowGame | src/js/tic-tac-toe.js:193-241 | X(0,0) O(1,1) X(0,1) O(1,0) X(0,2) ends with X the winner, X still to move, and `gameOver` for player 1 as the last notification |
| Games.ClickAfterTopRowWin | src/js/tic-tac-toe.js:193-206 | a click on (2,2) after that win places an X and emits `gameOver` for player 1 again |
| Games.DrawnGame | src/js/tic-tac-toe.js:148-164 | the nine-move drawn sequence ends in a tie on the full board, with `gameOver` for the tie as the last notification |
| Games.DrawnGameIsOver | src/js/tic-tac-toe.js:196-202 | after the draw no click is accepted and nothing changes |
| Game.TicTacToe.constructor | src/js/tic-tac-toe.js:49-59 | a fresh 3x3 board of '.', player 1 to move, winner undefined |
| Game.TicTacToe.IsEmpty | src/js/tic-tac-toe.js:79-81 | for an in-bounds location, true exactly when the cell is '.' |
| Game.TicTacToe.NoWinner | src/js/tic-tac-toe.js:91-93 | true exactly when the winner is undefined |
| Game.TicTacToe.CurrentPlayerSymbol | src/js/tic-tac-toe.js:187-189 | 'X' for player 1 and 'O' for player 2, the symbol that maps back to the current player |
| Game.TicTacToe.ToggleCurrentPlayer | src/js/tic-tac-toe.js:84-87 | flips the field in place and returns `playerChange` with the new player |
| Game.TicTacToe.UpdateWinner | src/js/tic-tac-toe.js:99-165 | the loops with `break` and the labelled tie loop leave `winner` equal to `UpdatedWinner` of the board and the old winner |
| Game.TicTacToe.Place | src/js/tic-tac-toe.js:214-217 | the array now holds the `PlaceStep` state (one cell written, nothing else changed) |
| Game.TicTacToe.Reset | src/js/tic-tac-toe.js:220-229 | the nested loops clear every cell; the state is the initial state whatever it was before |
| Game.TicTacToe.PlayRound | src/js/tic-tac-toe.js:231-241 | new state and emitted notifications are exactly those of `PlayRoundStep` |
| Game.TicTacToe.TryRound | src/js/tic-tac-toe.js:193-206 | new state and emitted notifications are exactly those of `TryRoundStep` |
| Game.ResetTwice | src/js/tic-tac-toe.js:220-229 | calling `reset` twice leaves the same state as calling it once |

## Left out

- The `events` publish/subscribe bus (src/js/tic-tac-toe.js:2-30) is left
  out: it dispatches callbacks. Notifications are returned as `Event`
  values, in emission order. The `playRound` handler wiring at line 253
  is the call from `TryRound` to `PlayRound`; line 252 is modelled by
  `Run`. The `playerChange` handler (line 254) is `updatePlayer`, which
  only prints.
- `updatePlayer` (lines 243-248), `gameOver`'s messages (lines 168-182) and
  every `console.log` are left out; they only print. The `gameOver`
  notification itself is modelled.
- `displayController` (lines 262-318) and the `DOMContentLoaded` hook are
  left out: they are DOM writes and listener binding. Unbinding the click
  handlers after `gameOver` is what stops play on the page.
- setup.js is not part of this model. It is bootstrap scripting: package
  managers, git and file rewriting.
- Game.TicTacToe.Place requires an in-bounds location. The source trusts
  its caller here, and an out-of-bounds call would fail or write a stray
  property in JavaScript.
- Rows and columns are mathematical integers. JavaScript numbers that are
  not integers, and non-numeric `row`/`col` values from `data`, are not
  modelled.
- `tryRound` adds the symbol to the caller's `data` object (line 204).
  The model does not mutate that object, because its only reader is the
  notification. Instead the symbol is carried in the `PlayRound` event.
