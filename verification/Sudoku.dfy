/** Sudoku boards: what it means for one to be free of conflicts, and which rearrangements keep it so.

    Two cells see each other when they share a row, a column or a block.  A board is consistent when no two
    cells that see each other show the same digit; a puzzle is dealt with a full consistent board, its solution. */
module Sudoku {

  /** Nine rows of nine digits; 0 is an empty cell. */
  type Grid = seq<seq<int>>

  predicate IsGrid(g: Grid) {
    |g| == 9 && forall r :: 0 <= r < 9 ==> |g[r]| == 9
  }

  type Board = g: Grid | IsGrid(g) witness seq(9, _ => seq(9, _ => 0))

  /** A cell, by row and column. */
  datatype Cell = Cell(r: int, c: int) {
    predicate On() { 0 <= r < 9 && 0 <= c < 9 }

    /** The number of its block, counted along the rows. */
    function Block(): int { r / 3 * 3 + c / 3 }
  }

  function Get(b: Board, p: Cell): int
    requires p.On()
  {
    b[p.r][p.c]
  }

  /** Two different cells that share a row, a column or a block. */
  predicate Sees(p: Cell, q: Cell) {
    p != q && (p.r == q.r || p.c == q.c || (p.r / 3 == q.r / 3 && p.c / 3 == q.c / 3))
  }

  predicate ClashFree(b: Board, p: Cell, q: Cell)
    requires p.On() && q.On()
  {
    Sees(p, q) && Get(b, p) != 0 ==> Get(b, p) != Get(b, q)
  }

  /** A partial solution: digits 0 to 9, and no digit twice in a row, a column or a block. */
  ghost predicate Consistent(b: Board) {
    && (forall p: Cell :: p.On() ==> 0 <= Get(b, p) <= 9)
    && (forall p: Cell, q: Cell :: p.On() && q.On() ==> ClashFree(b, p, q))
  }

  ghost predicate Full(b: Board) { forall p: Cell :: p.On() ==> Get(b, p) != 0 }

  /** Where the puzzle has a digit, the solution has the same. */
  ghost predicate AgreesWith(puzzle: Board, solution: Board) {
    forall p: Cell :: p.On() && Get(puzzle, p) != 0 ==> Get(solution, p) == Get(puzzle, p)
  }

  /** A puzzle with its solution. */
  ghost predicate Dealt(puzzle: Board, solution: Board) {
    Consistent(solution) && Full(solution) && AgreesWith(puzzle, solution)
  }

  /** The clues of a dealt puzzle do not conflict. */
  lemma CluesConsistent(puzzle: Board, solution: Board)
    requires Dealt(puzzle, solution)
    ensures Consistent(puzzle)
  {
    forall p: Cell | p.On() ensures 0 <= Get(puzzle, p) <= 9 {
      assert Get(puzzle, p) != 0 ==> Get(solution, p) == Get(puzzle, p);
    }
    forall p: Cell, q: Cell | p.On() && q.On() ensures ClashFree(puzzle, p, q) {
      assert ClashFree(solution, p, q);
    }
  }

  // ----- rearrangements

  function Other(x: int, y: int, i: int): int {
    if i == x then y else if i == y then x else i
  }

  function SwapRows(x: int, y: int, p: Cell): Cell { Cell(Other(x, y, p.r), p.c) }

  function SwapColumns(x: int, y: int, p: Cell): Cell { Cell(p.r, Other(x, y, p.c)) }

  function Transpose(p: Cell): Cell { Cell(p.c, p.r) }

  /** Exchanging two rows of one band moves cells that see each other to cells that do. */
  lemma SwapRowsKeepsSight(x: int, y: int, p: Cell, q: Cell)
    requires 0 <= x < 9 && 0 <= y < 9 && x / 3 == y / 3 && p.On() && q.On()
    ensures SwapRows(x, y, p).On()
    ensures Sees(p, q) ==> Sees(SwapRows(x, y, p), SwapRows(x, y, q))
  {
  }

  /** And so does exchanging two columns of one stack. */
  lemma SwapColumnsKeepsSight(x: int, y: int, p: Cell, q: Cell)
    requires 0 <= x < 9 && 0 <= y < 9 && x / 3 == y / 3 && p.On() && q.On()
    ensures SwapColumns(x, y, p).On()
    ensures Sees(p, q) ==> Sees(SwapColumns(x, y, p), SwapColumns(x, y, q))
  {
  }

  /** A renaming of the digits: 0 stays, 1 to 9 are permuted. */
  predicate IsRenaming(names: seq<int>) {
    && |names| == 10 && names[0] == 0
    && (forall i :: 1 <= i < 10 ==> 1 <= names[i] <= 9)
    && (forall i, j :: 1 <= i < j < 10 ==> names[i] != names[j])
  }

  // ----- the board everything starts from

  const PUZZLE: Board :=
    [[1, 0, 0, 0, 0, 8, 0, 0, 9],
     [0, 0, 2, 0, 0, 0, 0, 0, 8],
     [0, 8, 0, 5, 4, 9, 0, 0, 0],
     [0, 4, 0, 2, 0, 0, 9, 0, 0],
     [3, 0, 9, 0, 0, 0, 2, 0, 1],
     [0, 0, 1, 0, 0, 5, 0, 4, 0],
     [0, 0, 0, 9, 1, 2, 0, 3, 0],
     [7, 0, 0, 0, 0, 0, 1, 0, 0],
     [2, 0, 0, 7, 0, 0, 0, 0, 6]]

  const SOLUTION: Board :=
    [[1, 3, 4, 6, 2, 8, 5, 7, 9],
     [9, 5, 2, 1, 3, 7, 4, 6, 8],
     [6, 8, 7, 5, 4, 9, 3, 1, 2],
     [5, 4, 6, 2, 7, 1, 9, 8, 3],
     [3, 7, 9, 4, 8, 6, 2, 5, 1],
     [8, 2, 1, 3, 9, 5, 6, 4, 7],
     [4, 6, 8, 9, 1, 2, 7, 3, 5],
     [7, 9, 5, 8, 6, 3, 1, 2, 4],
     [2, 1, 3, 7, 5, 4, 8, 9, 6]]

  predicate NineDigits(s: seq<int>) {
    && |s| == 9
    && (forall i :: 0 <= i < 9 ==> 1 <= s[i] <= 9)
    && (forall i, j :: 0 <= i < j < 9 ==> s[i] != s[j])
  }

  function Row(b: Board, r: int): seq<int>
    requires 0 <= r < 9
  {
    b[r]
  }

  function Column(b: Board, c: int): seq<int>
    requires 0 <= c < 9
  {
    [b[0][c], b[1][c], b[2][c], b[3][c], b[4][c], b[5][c], b[6][c], b[7][c], b[8][c]]
  }

  function BlockOf(b: Board, k: int): seq<int>
    requires 0 <= k < 9
  {
    var r, c := k / 3 * 3, k % 3 * 3;
    [b[r][c], b[r][c + 1], b[r][c + 2],
     b[r + 1][c], b[r + 1][c + 1], b[r + 1][c + 2],
     b[r + 2][c], b[r + 2][c + 1], b[r + 2][c + 2]]
  }

  lemma FirstRows(k: int)
    requires 0 <= k < 3
    ensures NineDigits(Row(SOLUTION, k))
  {
    assert k == 0 || k == 1 || k == 2;
  }

  lemma MiddleRows(k: int)
    requires 3 <= k < 6
    ensures NineDigits(Row(SOLUTION, k))
  {
    assert k == 3 || k == 4 || k == 5;
  }

  lemma LastRows(k: int)
    requires 6 <= k < 9
    ensures NineDigits(Row(SOLUTION, k))
  {
    assert k == 6 || k == 7 || k == 8;
  }

  lemma FirstColumns(k: int)
    requires 0 <= k < 3
    ensures NineDigits(Column(SOLUTION, k))
  {
    assert k == 0 || k == 1 || k == 2;
  }

  lemma MiddleColumns(k: int)
    requires 3 <= k < 6
    ensures NineDigits(Column(SOLUTION, k))
  {
    assert k == 3 || k == 4 || k == 5;
  }

  lemma LastColumns(k: int)
    requires 6 <= k < 9
    ensures NineDigits(Column(SOLUTION, k))
  {
    assert k == 6 || k == 7 || k == 8;
  }

  lemma FirstBlocks(k: int)
    requires 0 <= k < 3
    ensures NineDigits(BlockOf(SOLUTION, k))
  {
    assert k == 0 || k == 1 || k == 2;
  }

  lemma MiddleBlocks(k: int)
    requires 3 <= k < 6
    ensures NineDigits(BlockOf(SOLUTION, k))
  {
    assert k == 3 || k == 4 || k == 5;
  }

  lemma LastBlocks(k: int)
    requires 6 <= k < 9
    ensures NineDigits(BlockOf(SOLUTION, k))
  {
    assert k == 6 || k == 7 || k == 8;
  }

  lemma SolutionUnits(k: int)
    requires 0 <= k < 9
    ensures NineDigits(Row(SOLUTION, k)) && NineDigits(Column(SOLUTION, k)) && NineDigits(BlockOf(SOLUTION, k))
  {
    hide NineDigits, Row, Column, BlockOf, SOLUTION;
    if k < 3 {
      FirstRows(k);
      FirstColumns(k);
      FirstBlocks(k);
    } else if k < 6 {
      MiddleRows(k);
      MiddleColumns(k);
      MiddleBlocks(k);
    } else {
      LastRows(k);
      LastColumns(k);
      LastBlocks(k);
    }
  }

  ghost predicate AllUnits(b: Board) {
    forall k :: 0 <= k < 9 ==> NineDigits(Row(b, k)) && NineDigits(Column(b, k)) && NineDigits(BlockOf(b, k))
  }

  lemma DifferentInUnit(s: seq<int>, i: int, j: int)
    requires NineDigits(s) && 0 <= i < 9 && 0 <= j < 9 && i != j
    ensures s[i] != s[j]
  {
  }

  lemma InColumn(b: Board, p: Cell)
    requires p.On()
    ensures Column(b, p.c)[p.r] == Get(b, p)
  {
  }

  /** The place of a cell in its block. */
  function Spot(p: Cell): int { p.r % 3 * 3 + p.c % 3 }

  lemma InBlock(b: Board, p: Cell)
    requires p.On()
    ensures 0 <= p.Block() < 9 && 0 <= Spot(p) < 9
    ensures BlockOf(b, p.Block())[Spot(p)] == Get(b, p)
  {
    var k := p.Block();
    assert k / 3 == p.r / 3 && k % 3 == p.c / 3;
    assert p.r == k / 3 * 3 + p.r % 3 && p.c == k % 3 * 3 + p.c % 3;
    assert p.r % 3 == 0 || p.r % 3 == 1 || p.r % 3 == 2;
    assert p.c % 3 == 0 || p.c % 3 == 1 || p.c % 3 == 2;
  }

  lemma SeenWhere(p: Cell, q: Cell)
    requires p.On() && q.On() && Sees(p, q)
    ensures p.r == q.r ==> p.c != q.c
    ensures p.r != q.r && p.c != q.c ==> p.Block() == q.Block() && Spot(p) != Spot(q)
  {
  }

  lemma UnitsKeepApart(b: Board, p: Cell, q: Cell)
    requires AllUnits(b) && p.On() && q.On() && Sees(p, q)
    ensures Get(b, p) != Get(b, q)
  {
    hide NineDigits, Column, BlockOf, Sees, Spot, Cell.Block;
    SeenWhere(p, q);
    if p.r == q.r {
      assert NineDigits(Row(b, p.r));
      DifferentInUnit(Row(b, p.r), p.c, q.c);
    } else if p.c == q.c {
      assert NineDigits(Column(b, p.c));
      InColumn(b, p);
      InColumn(b, q);
      DifferentInUnit(Column(b, p.c), p.r, q.r);
    } else {
      InBlock(b, p);
      InBlock(b, q);
      assert NineDigits(BlockOf(b, p.Block()));
      DifferentInUnit(BlockOf(b, p.Block()), Spot(p), Spot(q));
    }
  }

  /** A board whose rows, columns and blocks all hold nine different digits is a solution. */
  lemma UnitsMakeSolution(b: Board)
    requires AllUnits(b)
    ensures Consistent(b) && Full(b)
  {
    hide Column, BlockOf;
    forall p: Cell | p.On() ensures 1 <= Get(b, p) <= 9 { assert NineDigits(Row(b, p.r)); }
    forall p: Cell, q: Cell | p.On() && q.On() ensures ClashFree(b, p, q) {
      if Sees(p, q) { UnitsKeepApart(b, p, q); }
    }
  }

  lemma BaseAgrees()
    ensures AgreesWith(PUZZLE, SOLUTION)
  {
    forall p: Cell | p.On() ensures Get(PUZZLE, p) != 0 ==> Get(SOLUTION, p) == Get(PUZZLE, p) {
      if p.r < 3 {
        assert p.r == 0 || p.r == 1 || p.r == 2;
      } else if p.r < 6 {
        assert p.r == 3 || p.r == 4 || p.r == 5;
      } else {
        assert p.r == 6 || p.r == 7 || p.r == 8;
      }
    }
  }

  /** The board written into the program is a puzzle with its solution. */
  lemma BaseDealt()
    ensures Dealt(PUZZLE, SOLUTION)
  {
    hide NineDigits, Row, Column, BlockOf, PUZZLE, SOLUTION;
    forall k | 0 <= k < 9
      ensures NineDigits(Row(SOLUTION, k)) && NineDigits(Column(SOLUTION, k)) && NineDigits(BlockOf(SOLUTION, k))
    {
      SolutionUnits(k);
    }
    UnitsMakeSolution(SOLUTION);
    BaseAgrees();
  }
}
