/** The 3x3 board of the tic-tac-toe engine: cells, locations, the eight
    lines, and the win/tie evaluation that `updateWinner` performs. */
module Board {

  /** Player numbers and the tie code used for `winner`. */
  const Player1: int := 0
  const Player2: int := 1
  const TieCode: int := 2

  /** The character of a cell nobody has played. */
  const EmptyCell: char := '.'

  /** `playerSymbol`: the index is the player number. */
  const PlayerSymbols: seq<char> := ['X', 'O']

  /** The board as rows of cells. */
  type Grid = seq<seq<char>>

  /** The `winner` variable: `undefined`, or a player number or the tie code. */
  datatype Winner = Undefined | Decided(code: int)

  predicate IsGrid(b: Grid) {
    |b| == 3 && forall i | 0 <= i < 3 :: |b[i]| == 3
  }

  predicate InBounds(row: int, col: int) {
    0 <= row < 3 && 0 <= col < 3
  }

  /** The three values a cell may hold. */
  predicate IsMark(c: char) {
    c == EmptyCell || c == 'X' || c == 'O'
  }

  predicate WellFormed(b: Grid) {
    IsGrid(b) && forall i, j | 0 <= i < 3 && 0 <= j < 3 :: IsMark(b[i][j])
  }

  predicate ValidWinner(w: Winner) {
    w.Decided? ==> w.code == Player1 || w.code == Player2 || w.code == TieCode
  }

  /** `oob`: the location lies outside the board. */
  function Oob(row: int, col: int): (r: bool)
    ensures r <==> !InBounds(row, col)
  {
    row >= 3 || col >= 3 || row < 0 || col < 0
  }

  /** `mapToPlayer`: 'X' is player 1, 'O' player 2; any other key is absent. */
  function MapToPlayer(c: char): (w: Winner)
    ensures w.Decided? <==> c == 'X' || c == 'O'
    ensures w.Decided? ==> (w.code == Player1 || w.code == Player2) && PlayerSymbols[w.code] == c
  {
    if c == 'X' then Decided(Player1) else if c == 'O' then Decided(Player2) else Undefined
  }

  /** `playerSymbol[p]`. */
  function PlayerSymbol(p: int): (c: char)
    requires p == Player1 || p == Player2
    ensures IsMark(c) && c != EmptyCell
    ensures c == (if p == Player1 then 'X' else 'O')
    ensures MapToPlayer(c) == Decided(p)
  {
    PlayerSymbols[p]
  }

  /** The board after writing `c` into one cell. */
  function SetCell(b: Grid, row: int, col: int, c: char): (b': Grid)
    requires IsGrid(b) && InBounds(row, col)
    ensures IsGrid(b') && b'[row][col] == c
    ensures forall i, j | InBounds(i, j) && (i, j) != (row, col) :: b'[i][j] == b[i][j]
    ensures WellFormed(b) && IsMark(c) ==> WellFormed(b')
  {
    b[row := b[row][col := c]]
  }

  /** The board every game starts from. */
  function EmptyBoard(): (b: Grid)
    ensures WellFormed(b)
    ensures forall i, j | InBounds(i, j) :: b[i][j] == EmptyCell
  {
    [[EmptyCell, EmptyCell, EmptyCell],
     [EmptyCell, EmptyCell, EmptyCell],
     [EmptyCell, EmptyCell, EmptyCell]]
  }

  /** No cell is '.'. */
  predicate Full(b: Grid)
    requires IsGrid(b)
  {
    forall i, j | 0 <= i < 3 && 0 <= j < 3 :: b[i][j] != EmptyCell
  }

  // The four tests of `updateWinner`, written as the engine writes them.

  predicate RowLine(b: Grid, i: int)
    requires IsGrid(b) && 0 <= i < 3
  {
    b[i][0] != EmptyCell && b[i][0] == b[i][1] && b[i][0] == b[i][2]
  }

  predicate ColLine(b: Grid, i: int)
    requires IsGrid(b) && 0 <= i < 3
  {
    b[0][i] != EmptyCell && b[0][i] == b[1][i] && b[0][i] == b[2][i]
  }

  predicate MainDiagonal(b: Grid)
    requires IsGrid(b)
  {
    b[0][0] != EmptyCell && b[0][0] == b[1][1] && b[0][0] == b[2][2]
  }

  predicate AntiDiagonal(b: Grid)
    requires IsGrid(b)
  {
    b[0][2] != EmptyCell && b[0][2] == b[1][1] && b[0][2] == b[2][0]
  }

  /** The rows loop: the first complete row decides; it overwrites whatever
      `winner` held before. */
  function RowsChecked(b: Grid, w: Winner): Winner
    requires IsGrid(b)
  {
    if RowLine(b, 0) then MapToPlayer(b[0][0])
    else if RowLine(b, 1) then MapToPlayer(b[1][0])
    else if RowLine(b, 2) then MapToPlayer(b[2][0])
    else w
  }

  /** The columns loop, run only while `winner` is undefined. */
  function ColumnsChecked(b: Grid, w: Winner): Winner
    requires IsGrid(b)
  {
    if w.Decided? then w
    else if ColLine(b, 0) then MapToPlayer(b[0][0])
    else if ColLine(b, 1) then MapToPlayer(b[0][1])
    else if ColLine(b, 2) then MapToPlayer(b[0][2])
    else w
  }

  /** The main diagonal, then the anti-diagonal, each only while undefined. */
  function DiagonalsChecked(b: Grid, w: Winner): Winner
    requires IsGrid(b)
  {
    var w1 := if w == Undefined && MainDiagonal(b) then MapToPlayer(b[0][0]) else w;
    if w1 == Undefined && AntiDiagonal(b) then MapToPlayer(b[0][2]) else w1
  }

  /** The tie test, only while undefined. */
  function TieChecked(b: Grid, w: Winner): Winner
    requires IsGrid(b)
  {
    if w == Undefined && Full(b) then Decided(TieCode) else w
  }

  /** The value `updateWinner` leaves in `winner`, given the board and the
      value `winner` held when it was called. */
  function UpdatedWinner(b: Grid, w: Winner): (r: Winner)
    requires IsGrid(b)
    ensures WellFormed(b) && ValidWinner(w) ==> ValidWinner(r)
    // a decision is never taken back on a well-formed board
    ensures WellFormed(b) && w.Decided? ==> r.Decided?
    // once decided, only a complete row can change the decision
    ensures w.Decided? && !RowLine(b, 0) && !RowLine(b, 1) && !RowLine(b, 2) ==> r == w
  {
    TieChecked(b, DiagonalsChecked(b, ColumnsChecked(b, RowsChecked(b, w))))
  }

  // An independent description of the evaluation: eight lines in the order
  // rows 0..2, columns 0..2, main diagonal, anti-diagonal.

  function LineCells(k: int): (l: seq<(int, int)>)
    requires 0 <= k < 8
    ensures |l| == 3 && forall m | 0 <= m < 3 :: InBounds(l[m].0, l[m].1)
  {
    if k < 3 then [(k, 0), (k, 1), (k, 2)]
    else if k < 6 then [(0, k - 3), (1, k - 3), (2, k - 3)]
    else if k == 6 then [(0, 0), (1, 1), (2, 2)]
    else [(0, 2), (1, 1), (2, 0)]
  }

  function At(b: Grid, p: (int, int)): char
    requires IsGrid(b) && InBounds(p.0, p.1)
  {
    b[p.0][p.1]
  }

  /** The mark on the first cell of line `k`. */
  function LineMark(b: Grid, k: int): char
    requires IsGrid(b) && 0 <= k < 8
  {
    At(b, LineCells(k)[0])
  }

  /** Line `k` holds three equal marks other than '.'. */
  predicate Winning(b: Grid, k: int)
    requires IsGrid(b) && 0 <= k < 8
  {
    var l := LineCells(k);
    At(b, l[0]) != EmptyCell && At(b, l[1]) == At(b, l[0]) && At(b, l[2]) == At(b, l[0])
  }

  /** The first winning line at or after `k`, or 8 when there is none. */
  function FirstWinningFrom(b: Grid, k: int): (r: int)
    requires IsGrid(b) && 0 <= k <= 8
    ensures k <= r <= 8
    ensures r < 8 ==> Winning(b, r)
    ensures forall j | k <= j < r :: !Winning(b, j)
    decreases 8 - k
  {
    if k == 8 then 8 else if Winning(b, k) then k else FirstWinningFrom(b, k + 1)
  }

  /** The outcome of a board: the owner of its first winning line, else a tie
      when the board is full, else undecided. */
  function ReferenceOutcome(b: Grid): Winner
    requires IsGrid(b)
  {
    var k := FirstWinningFrom(b, 0);
    if k < 8 then MapToPlayer(LineMark(b, k))
    else if Full(b) then Decided(TieCode)
    else Undefined
  }

  lemma FirstWinningIs(b: Grid, k: int)
    requires IsGrid(b) && 0 <= k < 8
    requires Winning(b, k) && forall j | 0 <= j < k :: !Winning(b, j)
    ensures FirstWinningFrom(b, 0) == k
  {
  }

  /** The engine's tests are the reference lines. */
  lemma LinesAgree(b: Grid)
    requires IsGrid(b)
    ensures forall i | 0 <= i < 3 :: RowLine(b, i) == Winning(b, i) && b[i][0] == LineMark(b, i)
    ensures forall i | 0 <= i < 3 :: ColLine(b, i) == Winning(b, 3 + i) && b[0][i] == LineMark(b, 3 + i)
    ensures MainDiagonal(b) == Winning(b, 6) && b[0][0] == LineMark(b, 6)
    ensures AntiDiagonal(b) == Winning(b, 7) && b[0][2] == LineMark(b, 7)
  {
  }

  /** Evaluating a board with `winner` undefined gives its reference outcome:
      rows before columns before the diagonals, and a tie only when no line
      was found. */
  lemma UpdatedWinnerIsReference(b: Grid)
    requires WellFormed(b)
    ensures UpdatedWinner(b, Undefined) == ReferenceOutcome(b)
  {
    LinesAgree(b);
    var k := FirstWinningFrom(b, 0);
    assert forall j | 0 <= j < k :: !Winning(b, j);
    if k == 0 {
    } else if k == 1 {
      assert !Winning(b, 0);
    } else if k == 2 {
      assert !Winning(b, 0) && !Winning(b, 1);
    } else {
      assert !Winning(b, 0) && !Winning(b, 1) && !Winning(b, 2);
      if k == 4 {
        assert !Winning(b, 3);
      } else if k == 5 {
        assert !Winning(b, 3) && !Winning(b, 4);
      } else if k >= 6 {
        assert !Winning(b, 3) && !Winning(b, 4) && !Winning(b, 5);
        if k == 7 {
          assert !Winning(b, 6);
        } else if k == 8 {
          assert !Winning(b, 6) && !Winning(b, 7);
        }
      }
    }
  }

  /** Line precedence: the first winning line, in checking order, decides. */
  lemma FirstLineDecides(b: Grid, k: int)
    requires WellFormed(b) && 0 <= k < 8
    requires Winning(b, k) && forall j | 0 <= j < k :: !Winning(b, j)
    ensures UpdatedWinner(b, Undefined) == MapToPlayer(LineMark(b, k))
  {
    UpdatedWinnerIsReference(b);
    FirstWinningIs(b, k);
  }

  /** What `updateWinner` leaves in an undefined `winner` on a well-formed
      board: a player exactly when some line is complete, the tie code exactly
      when no line is complete and no cell is empty, undefined otherwise. */
  lemma FreshEvaluation(b: Grid)
    requires WellFormed(b)
    ensures var r := UpdatedWinner(b, Undefined);
      && ((r == Decided(Player1) || r == Decided(Player2)) <==> exists k | 0 <= k < 8 :: Winning(b, k))
      && (r == Decided(TieCode) <==> (forall k | 0 <= k < 8 :: !Winning(b, k)) && Full(b))
      && (r == Undefined <==> (forall k | 0 <= k < 8 :: !Winning(b, k)) && !Full(b))
  {
    UpdatedWinnerIsReference(b);
    var k := FirstWinningFrom(b, 0);
    if k < 8 {
      var p := LineCells(k)[0];
      assert IsMark(b[p.0][p.1]);
    }
  }

  // Counting marks.

  function CountInRow(r: seq<char>, m: char): nat
  {
    if r == [] then 0 else (if r[0] == m then 1 else 0) + CountInRow(r[1..], m)
  }

  /** The number of cells holding `m`. */
  function Count(b: Grid, m: char): nat
  {
    if b == [] then 0 else CountInRow(b[0], m) + Count(b[1..], m)
  }

  lemma {:induction false} CountInRowUpdate(r: seq<char>, j: int, c: char, m: char)
    requires 0 <= j < |r|
    ensures CountInRow(r[j := c], m)
         == CountInRow(r, m) - (if r[j] == m then 1 else 0) + (if c == m then 1 else 0)
  {
    if j > 0 {
      assert r[j := c][1..] == r[1..][j - 1 := c];
      CountInRowUpdate(r[1..], j - 1, c, m);
    }
  }

  lemma {:induction false} CountUpdate(b: Grid, row: int, col: int, c: char, m: char)
    requires 0 <= row < |b| && 0 <= col < |b[row]|
    ensures Count(b[row := b[row][col := c]], m)
         == Count(b, m) - (if b[row][col] == m then 1 else 0) + (if c == m then 1 else 0)
  {
    if row == 0 {
      CountInRowUpdate(b[0], col, c, m);
      assert b[row := b[row][col := c]][1..] == b[1..];
    } else {
      assert b[row := b[row][col := c]][1..] == b[1..][row - 1 := b[row][col := c]];
      CountUpdate(b[1..], row - 1, col, c, m);
    }
  }

  /** Writing `c` into an empty cell adds one `c` and no other mark. */
  lemma CountSetEmpty(b: Grid, row: int, col: int, c: char, m: char)
    requires IsGrid(b) && InBounds(row, col) && b[row][col] == EmptyCell && m != EmptyCell
    ensures Count(SetCell(b, row, col, c), m) == Count(b, m) + (if c == m then 1 else 0)
  {
    CountUpdate(b, row, col, c, m);
  }

  lemma EmptyBoardCounts(m: char)
    requires m != EmptyCell
    ensures Count(EmptyBoard(), m) == 0
  {
    var e := [EmptyCell, EmptyCell, EmptyCell];
    assert CountInRow(e[2..], m) == 0;
    assert CountInRow(e[1..], m) == 0;
    assert CountInRow(e, m) == 0;
    var b := EmptyBoard();
    assert b == [e, e, e];
    assert Count(b[2..], m) == 0;
    assert Count(b[1..], m) == 0;
  }

  /** Two boards with the same cells are the same board. */
  lemma SameCells(b: Grid, b': Grid)
    requires IsGrid(b) && IsGrid(b')
    requires forall i, j | InBounds(i, j) :: b[i][j] == b'[i][j]
    ensures b == b'
  {
    forall i | 0 <= i < 3 ensures b[i] == b'[i] {
      assert forall j | 0 <= j < 3 :: b[i][j] == b'[i][j];
    }
  }

  /** A board that differs from `b` exactly in one cell, which holds `c`, is
      `SetCell(b, row, col, c)`. */
  lemma BoardAfter(b: Grid, row: int, col: int, c: char, b': Grid)
    requires IsGrid(b) && IsGrid(b') && InBounds(row, col)
    requires b'[row][col] == c
    requires forall i, j | InBounds(i, j) && (i, j) != (row, col) :: b'[i][j] == b[i][j]
    ensures SetCell(b, row, col, c) == b'
  {
    SameCells(SetCell(b, row, col, c), b');
  }
}
