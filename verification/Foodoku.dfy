/** The distributed game: nine blocks that judge placements together, and a coordinator. */
module Foodoku {

  // The blocks each hold a ninth of the board and judge a placement by asking the other blocks of their band and
  // stack; the coordinator deals boards, shows solutions and passes placements on.

  import opened Sudoku
  import opened BoardGen

  // ----- the rules of the game, on the whole board

  datatype Game = Game(clues: Board, board: Board, solution: Board)

  datatype Command = New(rand: nat -> nat) | Solve | Place(block: int, cell: int, digit: int)

  function Set(b: Board, p: Cell, d: int): Board
    requires p.On()
  {
    b[p.r := b[p.r][p.c := d]]
  }

  /** The cell at row `r` and column `c` of a block. */
  function Global(block: int, r: int, c: int): (p: Cell)
    requires 0 <= block < 9 && 0 <= r < 3 && 0 <= c < 3
    ensures p.On() && p.Block() == block
  {
    Cell(block / 3 * 3 + r, block % 3 * 3 + c)
  }

  /** The cell with number `cell` in a block. */
  function CellAt(block: int, cell: int): (p: Cell)
    requires 0 <= block < 9 && 0 <= cell < 9
    ensures p.On() && p.Block() == block
  {
    Global(block, cell / 3, cell % 3)
  }

  predicate InRange(block: int, cell: int, digit: int) { 0 <= block < 9 && 0 <= cell < 9 && 1 <= digit <= 9 }

  /** A digit may go where the clues leave a gap and neither the cell nor one that it sees holds the digit. */
  ghost predicate Allowed(clues: Board, board: Board, p: Cell, digit: int)
    requires p.On()
  {
    Get(clues, p) == 0 && forall q: Cell :: q.On() && (q == p || Sees(p, q)) ==> Get(board, q) != digit
  }

  /** The game after one command. */
  ghost function After(g: Game, c: Command): Game {
    match c
    case New(rand) =>
      BaseDigits();
      var clues := Deal(PUZZLE, rand);
      Game(clues, clues, Deal(SOLUTION, rand))
    case Solve => Game(g.solution, g.solution, g.solution)
    case Place(block, cell, digit) =>
      if InRange(block, cell, digit) && Allowed(g.clues, g.board, CellAt(block, cell), digit)
      then g.(board := Set(g.board, CellAt(block, cell), digit))
      else g
  }

  ghost function Play(g: Game, cs: seq<Command>): Game {
    if cs == [] then g else After(Play(g, cs[..|cs| - 1]), cs[|cs| - 1])
  }

  ghost predicate Fair(g: Game) {
    && Dealt(g.clues, g.solution)
    && Consistent(g.board)
    && AgreesWith(g.clues, g.board)
  }

  lemma SetGet(b: Board, p: Cell, d: int, q: Cell)
    requires p.On() && q.On()
    ensures Get(Set(b, p, d), q) == if q == p then d else Get(b, q)
  {
  }

  lemma PlaceIsFair(g: Game, p: Cell, d: int)
    requires Fair(g) && p.On() && 1 <= d <= 9 && Allowed(g.clues, g.board, p, d)
    ensures Fair(g.(board := Set(g.board, p, d)))
  {
    hide Set, Get, Sees;
    var b := Set(g.board, p, d);
    forall q: Cell | q.On() ensures 0 <= Get(b, q) <= 9 && (Get(g.clues, q) != 0 ==> Get(b, q) == Get(g.clues, q)) {
      SetGet(g.board, p, d, q);
    }
    forall q: Cell, u: Cell | q.On() && u.On() ensures ClashFree(b, q, u) {
      SetGet(g.board, p, d, q);
      SetGet(g.board, p, d, u);
      SeesBothWays(q, u);
      assert ClashFree(g.board, q, u);
    }
  }

  /** A placement in a gap is refused exactly when the cell holds that digit already or the board would no
      longer be consistent. */
  lemma AllowedIffConsistent(g: Game, p: Cell, d: int)
    requires Fair(g) && p.On() && 1 <= d <= 9
    ensures Allowed(g.clues, g.board, p, d)
      <==> Get(g.clues, p) == 0 && Get(g.board, p) != d && Consistent(Set(g.board, p, d))
  {
    hide Set, Get, Sees, Dealt;
    if Allowed(g.clues, g.board, p, d) { PlaceIsFair(g, p, d); }
    var b := Set(g.board, p, d);
    if Get(g.board, p) != d && Consistent(b) {
      forall q: Cell | q.On() && (q == p || Sees(p, q)) ensures Get(g.board, q) != d {
        SeesBothWays(p, q);
        SetGet(g.board, p, d, p);
        SetGet(g.board, p, d, q);
        assert ClashFree(b, p, q);
      }
    }
  }

  lemma SeesBothWays(p: Cell, q: Cell)
    ensures Sees(p, q) == Sees(q, p) && !Sees(p, p)
  {
  }

  lemma AfterIsFair(g: Game, c: Command)
    requires c.New? || Fair(g)
    ensures Fair(After(g, c))
  {
    hide PUZZLE, SOLUTION, Deal, Consistent, Full, AgreesWith, Allowed, Set;
    match c {
      case New(rand) =>
        NewBoardIsDealt(rand);
        CluesConsistent(Deal(PUZZLE, rand), Deal(SOLUTION, rand));
        SelfAgrees(Deal(PUZZLE, rand));
      case Solve => SelfAgrees(g.solution);
      case Place(block, cell, digit) =>
        if InRange(block, cell, digit) && Allowed(g.clues, g.board, CellAt(block, cell), digit) {
          PlaceIsFair(g, CellAt(block, cell), digit);
        }
    }
  }

  lemma SelfAgrees(b: Board)
    ensures AgreesWith(b, b)
  {
  }

  /** However a game is played after a board has been dealt, no row, column or block ever holds a digit twice,
      and the clues stay as they are. */
  lemma {:induction false} PlayIsFair(g: Game, cs: seq<Command>)
    requires |cs| > 0 && cs[0].New?
    ensures Fair(Play(g, cs))
  {
    var before := cs[..|cs| - 1];
    if |cs| > 1 { PlayIsFair(g, before); }
    AfterIsFair(Play(g, before), cs[|cs| - 1]);
  }

  /** Showing the solution of a fair game fills the board without a conflict, in agreement with the clues; and after
      that no cell can be changed. */
  lemma SolveSolves(g: Game, p: Cell, d: int)
    requires Fair(g) && p.On()
    ensures var h := After(g, Solve);
      && Full(h.board) && Consistent(h.board) && AgreesWith(g.clues, h.board)
      && Verdict(h.clues, h.board, p, d) == ReadOnly
  {
    hide Consistent, AgreesWith, Get;
  }

  /** Commands take effect one after another. */
  lemma {:induction false} PlayOn(g: Game, cs: seq<Command>, ds: seq<Command>)
    ensures Play(g, cs + ds) == Play(Play(g, cs), ds)
    ensures ds != [] ==> Play(g, ds) == Play(After(g, ds[0]), ds[1..])
    decreases |ds|
  {
    hide After;
    if ds == [] {
      assert cs + ds == cs;
    } else {
      var before, last := ds[..|ds| - 1], ds[|ds| - 1];
      assert (cs + ds)[..|cs + ds| - 1] == cs + before && (cs + ds)[|cs + ds| - 1] == last;
      PlayOn(g, cs, before);
      if before != [] {
        assert ds[1..][..|ds| - 2] == before[1..] && ds[0] == before[0];
      }
    }
  }

  /** However a game was played since its board was dealt, showing the solution solves that board. */
  lemma PlayIsSolved(g: Game, cs: seq<Command>)
    requires |cs| > 0 && cs[0].New?
    ensures Dealt(Play(g, cs).clues, Play(g, cs + [Solve]).board)
  {
    hide After, Dealt;
    PlayIsFair(g, cs);
    PlayOn(g, cs, [Solve]);
    SolveIs(Play(g, cs));
  }

  lemma SolveIs(g: Game)
    requires Fair(g)
    ensures Dealt(g.clues, Play(g, [Solve]).board)
  {
    assert [Solve][..0] == [];
    assert Play(g, []) == g;
  }

  /** A board that has been filled in is a solution of its puzzle. */
  lemma FilledIsSolved(g: Game)
    requires Fair(g) && Full(g.board)
    ensures Dealt(g.clues, g.board)
  {
  }

  // ----- the judgement of a block

  datatype Reply = InvalidRange | ReadOnly | BlockConflict | RowConflict | ColumnConflict | Placed

  ghost predicate BlockHolds(b: Board, p: Cell, d: int) { exists q: Cell :: q.On() && q.Block() == p.Block() && Get(b, q) == d }

  ghost predicate RowHolds(b: Board, p: Cell, d: int)
    requires p.On()
  {
    exists q: Cell :: q.On() && q.r == p.r && Get(b, q) == d
  }

  ghost predicate ColumnHolds(b: Board, p: Cell, d: int)
    requires p.On()
  {
    exists q: Cell :: q.On() && q.c == p.c && Get(b, q) == d
  }

  /** The answer to a placement, read off the whole board. */
  ghost function Verdict(clues: Board, board: Board, p: Cell, d: int): (r: Reply)
    requires p.On()
    ensures r != InvalidRange
  {
    if Get(clues, p) != 0 then ReadOnly
    else if BlockHolds(board, p, d) then BlockConflict
    else if RowHolds(board, p, d) then RowConflict
    else if ColumnHolds(board, p, d) then ColumnConflict
    else Placed
  }

  lemma PlacedIffAllowed(clues: Board, board: Board, p: Cell, d: int)
    requires p.On()
    ensures Verdict(clues, board, p, d).Placed? <==> Allowed(clues, board, p, d)
  {
    hide Get;
    if Verdict(clues, board, p, d).Placed? {
      forall q: Cell | q.On() && (q == p || Sees(p, q)) ensures Get(board, q) != d {}
    }
    if Allowed(clues, board, p, d) {
      forall q: Cell | q.On() && (q.Block() == p.Block() || q.r == p.r || q.c == p.c) ensures Get(board, q) != d {
        assert q == p || Sees(p, q);
      }
    }
  }

  lemma Refused(g: Game, block: int, cell: int, d: int)
    requires !InRange(block, cell, d)
    ensures After(g, Place(block, cell, d)) == g
  {
  }

  /** An accepted digit goes into its cell, and nothing else changes. */
  lemma PlaceChanges(g: Game, block: int, cell: int, d: int)
    requires InRange(block, cell, d)
    ensures var h, p := After(g, Place(block, cell, d)), CellAt(block, cell);
      && h.clues == g.clues && h.solution == g.solution
      && forall q: Cell :: q.On() ==>
        Get(h.board, q) == if Verdict(g.clues, g.board, p, d).Placed? && q == p then d else Get(g.board, q)
  {
    hide Get, Set, CellAt, Verdict, Allowed;
    var p := CellAt(block, cell);
    PlacedIffAllowed(g.clues, g.board, p, d);
    forall q: Cell | q.On() ensures Get(Set(g.board, p, d), q) == if q == p then d else Get(g.board, q) { SetGet(g.board, p, d, q); }
  }

  /** The other two blocks of a band. */
  function RowNeighbours(block: int): (n: (int, int))
    requires 0 <= block < 9
    ensures forall k :: 0 <= k < 9 ==> (k / 3 == block / 3 <==> k == block || k == n.0 || k == n.1)
    ensures 0 <= n.0 < 9 && 0 <= n.1 < 9 && n.0 != n.1 && n.0 != block && n.1 != block
  {
    var base := block / 3 * 3;
    ((block + 1) % 3 + base, (block + 2) % 3 + base)
  }

  /** The other two blocks of a stack. */
  function ColumnNeighbours(block: int): (n: (int, int))
    requires 0 <= block < 9
    ensures forall k :: 0 <= k < 9 ==> (k % 3 == block % 3 <==> k == block || k == n.0 || k == n.1)
    ensures 0 <= n.0 < 9 && 0 <= n.1 < 9 && n.0 != n.1 && n.0 != block && n.1 != block
  {
    var three, six := (block + 3) % 9, (block + 6) % 9;
    (if three / 3 == block / 3 then six else three, if six / 3 == block / 3 then three else six)
  }

  lemma GlobalOf(p: Cell)
    requires p.On()
    ensures 0 <= p.Block() < 9 && 0 <= p.r % 3 < 3 && 0 <= p.c % 3 < 3
    ensures Global(p.Block(), p.r % 3, p.c % 3) == p
    ensures p.Block() / 3 == p.r / 3 && p.Block() % 3 == p.c / 3
  {
    var k := p.Block();
    assert k / 3 == p.r / 3 && k % 3 == p.c / 3;
    assert p.r / 3 * 3 + p.r % 3 == p.r && p.c / 3 * 3 + p.c % 3 == p.c;
  }

  ghost predicate Small(a: array2<int>) { a.Length0 == 3 && a.Length1 == 3 }

  ghost predicate Has(a: array2<int>, d: int)
    requires Small(a)
    reads a
  {
    exists i, j :: 0 <= i < 3 && 0 <= j < 3 && a[i, j] == d
  }

  ghost predicate HasInRow(a: array2<int>, row: int, d: int)
    requires Small(a) && 0 <= row < 3
    reads a
  {
    exists j :: 0 <= j < 3 && a[row, j] == d
  }

  ghost predicate HasInColumn(a: array2<int>, col: int, d: int)
    requires Small(a) && 0 <= col < 3
    reads a
  {
    exists i :: 0 <= i < 3 && a[i, col] == d
  }

  method CheckConflict(values: array<int>, digit: int) returns (conflict: int)
    requires values.Length == 3
    ensures conflict == if digit in values[..] then 1 else 0
  {
    for i := 0 to 3
      invariant digit !in values[..i]
    {
      if values[i] == digit { return 1; }
    }
    return 0;
  }

  class Block {
    const A: array2<int>
    const B: array2<int>

    ghost predicate Valid() { Small(A) && Small(B) && A != B }

    constructor ()
      ensures Valid() && fresh(A) && fresh(B)
    {
      A := new int[3, 3];
      B := new int[3, 3];
    }

    /** Command `n`: a new ninth of a board. */
    method Receive(values: seq<int>)
      requires Valid() && |values| == 9
      modifies A, B
      ensures forall i, j :: 0 <= i < 3 && 0 <= j < 3 ==> A[i, j] == values[3 * i + j] && B[i, j] == values[3 * i + j]
    {
      for i := 0 to 3
        invariant forall k, j :: 0 <= k < i && 0 <= j < 3 ==> A[k, j] == values[3 * k + j] && B[k, j] == values[3 * k + j]
      {
        for j := 0 to 3
          invariant forall k, l :: 0 <= k < i && 0 <= l < 3 ==> A[k, l] == values[3 * k + l] && B[k, l] == values[3 * k + l]
          invariant forall l :: 0 <= l < j ==> A[i, l] == values[3 * i + l] && B[i, l] == values[3 * i + l]
        {
          A[i, j] := values[3 * i + j];
          B[i, j] := A[i, j];
        }
      }
    }

    /** Command `r`, asked by a block of the same band. */
    method AnswerRow(row: int, digit: int) returns (reply: int)
      requires Valid() && 0 <= row < 3
      ensures reply == if HasInRow(B, row, digit) then 1 else 0
    {
      var values := new int[3];
      for j := 0 to 3
        invariant forall l :: 0 <= l < j ==> values[l] == B[row, l]
      {
        values[j] := B[row, j];
      }
      reply := CheckConflict(values, digit);
      assert digit in values[..] <==> HasInRow(B, row, digit) by {
        assert forall l :: 0 <= l < 3 ==> values[..][l] == B[row, l];
      }
    }

    /** Command `c`, asked by a block of the same stack. */
    method AnswerColumn(col: int, digit: int) returns (reply: int)
      requires Valid() && 0 <= col < 3
      ensures reply == if HasInColumn(B, col, digit) then 1 else 0
    {
      var values := new int[3];
      for i := 0 to 3
        invariant forall l :: 0 <= l < i ==> values[l] == B[l, col]
      {
        values[i] := B[i, col];
      }
      reply := CheckConflict(values, digit);
      assert digit in values[..] <==> HasInColumn(B, col, digit) by {
        assert forall l :: 0 <= l < 3 ==> values[..][l] == B[l, col];
      }
    }

    method Contains(digit: int) returns (found: bool)
      requires Valid()
      ensures found == Has(B, digit)
    {
      for i := 0 to 3
        invariant forall k, l :: 0 <= k < i && 0 <= l < 3 ==> B[k, l] != digit
      {
        for j := 0 to 3
          invariant forall k, l :: 0 <= k < i && 0 <= l < 3 ==> B[k, l] != digit
          invariant forall l :: 0 <= l < j ==> B[i, l] != digit
        {
          if B[i, j] == digit { return true; }
        }
      }
      return false;
    }

    /** Command `p`, with the blocks at the other ends of the four pipes. */
    method Place(cell: int, digit: int, row1: Block, row2: Block, col1: Block, col2: Block) returns (reply: Reply)
      requires Valid() && row1.Valid() && row2.Valid() && col1.Valid() && col2.Valid() && 0 <= cell < 9
      modifies B
      ensures reply == old(
        if A[cell / 3, cell % 3] != 0 then ReadOnly
        else if Has(B, digit) then BlockConflict
        else if HasInRow(row1.B, cell / 3, digit) || HasInRow(row2.B, cell / 3, digit) then RowConflict
        else if HasInColumn(col1.B, cell % 3, digit) || HasInColumn(col2.B, cell % 3, digit) then ColumnConflict
        else Placed)
      ensures forall i, j :: 0 <= i < 3 && 0 <= j < 3 ==>
        B[i, j] == if reply.Placed? && i == cell / 3 && j == cell % 3 then digit else old(B[i, j])
    {
      hide Has, HasInRow, HasInColumn;
      var row, col := cell / 3, cell % 3;
      if A[row, col] != 0 { return ReadOnly; }
      var found := Contains(digit);
      if found { return BlockConflict; }
      var response1 := row1.AnswerRow(row, digit);
      var response2 := row2.AnswerRow(row, digit);
      if response1 != 0 { return RowConflict; }
      if response2 != 0 { return RowConflict; }
      response1 := col1.AnswerColumn(col, digit);
      response2 := col2.AnswerColumn(col, digit);
      if response1 != 0 { return ColumnConflict; }
      if response2 != 0 { return ColumnConflict; }
      B[row, col] := digit;
      return Placed;
    }
  }

  // ----- the nine blocks together

  /** Array `a` holds the ninth of board `b` with number `k`. */
  ghost predicate HoldsBlock(a: array2<int>, b: Board, k: int)
    requires 0 <= k < 9
    reads a
  {
    Small(a) && forall r, c :: 0 <= r < 3 && 0 <= c < 3 ==> a[r, c] == Get(b, Global(k, r, c))
  }

  lemma BlockKnows(a: array2<int>, b: Board, p: Cell, d: int)
    requires p.On() && 0 <= p.Block() < 9 && HoldsBlock(a, b, p.Block())
    ensures Has(a, d) <==> BlockHolds(b, p, d)
  {
    hide Get;
    if Has(a, d) {
      var i, j :| 0 <= i < 3 && 0 <= j < 3 && a[i, j] == d;
      assert Global(p.Block(), i, j).On();
    }
    if BlockHolds(b, p, d) {
      var q: Cell :| q.On() && q.Block() == p.Block() && Get(b, q) == d;
      GlobalOf(q);
      assert a[q.r % 3, q.c % 3] == d;
    }
  }

  /** Setting a cell changes one cell of one block. */
  lemma SetInBlock(b: Board, k: int, cell: int, d: int, l: int, r: int, c: int)
    requires 0 <= k < 9 && 0 <= cell < 9 && 0 <= l < 9 && 0 <= r < 3 && 0 <= c < 3
    ensures Get(Set(b, CellAt(k, cell), d), Global(l, r, c))
      == if l == k && r == cell / 3 && c == cell % 3 then d else Get(b, Global(l, r, c))
  {
    hide Get, Set;
    SetGet(b, CellAt(k, cell), d, Global(l, r, c));
  }

  lemma OtherBlock(a: array2<int>, was: Board, k: int, cell: int, d: int, l: int)
    requires 0 <= k < 9 && 0 <= cell < 9 && 0 <= l < 9 && l != k && HoldsBlock(a, was, l)
    ensures HoldsBlock(a, Set(was, CellAt(k, cell), d), l)
  {
    hide Get, Set, Global, CellAt;
    forall r, c | 0 <= r < 3 && 0 <= c < 3 ensures a[r, c] == Get(Set(was, CellAt(k, cell), d), Global(l, r, c)) {
      SetInBlock(was, k, cell, d, l, r, c);
    }
  }

  lemma RowKnown(own: array2<int>, a1: array2<int>, a2: array2<int>, b: Board, k: int, row: int, col: int, d: int)
    requires 0 <= k < 9 && 0 <= row < 3 && 0 <= col < 3
    requires HoldsBlock(own, b, k) && HoldsBlock(a1, b, RowNeighbours(k).0) && HoldsBlock(a2, b, RowNeighbours(k).1)
    requires !Has(own, d)
    ensures HasInRow(a1, row, d) || HasInRow(a2, row, d) <==> RowHolds(b, Global(k, row, col), d)
  {
    hide Get, RowNeighbours;
    var p, n := Global(k, row, col), RowNeighbours(k);
    BlockKnows(own, b, p, d);
    if HasInRow(a1, row, d) {
      var j :| 0 <= j < 3 && a1[row, j] == d;
      assert Global(n.0, row, j).r == p.r;
    }
    if HasInRow(a2, row, d) {
      var j :| 0 <= j < 3 && a2[row, j] == d;
      assert Global(n.1, row, j).r == p.r;
    }
    if RowHolds(b, p, d) {
      var q: Cell :| q.On() && q.r == p.r && Get(b, q) == d;
      GlobalOf(q);
      var j := q.c % 3;
      assert q.Block() / 3 == k / 3 && q.r % 3 == row;
      assert q.Block() != k;
      assert q.Block() == n.0 ==> a1[row, j] == d;
      assert q.Block() == n.1 ==> a2[row, j] == d;
    }
  }

  lemma ColumnKnown(own: array2<int>, a1: array2<int>, a2: array2<int>, b: Board, k: int, row: int, col: int, d: int)
    requires 0 <= k < 9 && 0 <= row < 3 && 0 <= col < 3
    requires HoldsBlock(own, b, k) && HoldsBlock(a1, b, ColumnNeighbours(k).0) && HoldsBlock(a2, b, ColumnNeighbours(k).1)
    requires !Has(own, d)
    ensures HasInColumn(a1, col, d) || HasInColumn(a2, col, d) <==> ColumnHolds(b, Global(k, row, col), d)
  {
    hide Get, ColumnNeighbours;
    var p, n := Global(k, row, col), ColumnNeighbours(k);
    BlockKnows(own, b, p, d);
    if HasInColumn(a1, col, d) {
      var i :| 0 <= i < 3 && a1[i, col] == d;
      assert Global(n.0, i, col).c == p.c;
    }
    if HasInColumn(a2, col, d) {
      var i :| 0 <= i < 3 && a2[i, col] == d;
      assert Global(n.1, i, col).c == p.c;
    }
    if ColumnHolds(b, p, d) {
      var q: Cell :| q.On() && q.c == p.c && Get(b, q) == d;
      GlobalOf(q);
      var i := q.r % 3;
      assert q.Block() % 3 == k % 3 && q.c % 3 == col;
      assert q.Block() != k;
      assert q.Block() == n.0 ==> a1[i, col] == d;
      assert q.Block() == n.1 ==> a2[i, col] == d;
    }
  }

  ghost function At(arrays: seq<array2<int>>, r: int, c: int): int
    requires |arrays| == 9 && (forall k :: 0 <= k < 9 ==> Small(arrays[k])) && 0 <= r < 9 && 0 <= c < 9
    reads arrays
  {
    var a := arrays[r / 3 * 3 + c / 3];
    assert Small(a);
    a[r % 3, c % 3]
  }

  /** The board that nine arrays make up. */
  ghost function Joined(arrays: seq<array2<int>>): Board
    requires |arrays| == 9 && forall k :: 0 <= k < 9 ==> Small(arrays[k])
    reads arrays
  {
    seq(9, r requires 0 <= r < 9 reads arrays => seq(9, c requires 0 <= c < 9 reads arrays => At(arrays, r, c)))
  }

  lemma JoinedHolds(arrays: seq<array2<int>>, k: nat)
    requires k < |arrays| == 9 && forall l :: 0 <= l < 9 ==> Small(arrays[l])
    ensures HoldsBlock(arrays[k], Joined(arrays), k)
  {
    forall r, c | 0 <= r < 3 && 0 <= c < 3 ensures arrays[k][r, c] == Get(Joined(arrays), Global(k, r, c)) {
      var p := Global(k, r, c);
      assert p.r / 3 * 3 + p.c / 3 == k && p.r % 3 == r && p.c % 3 == c;
    }
  }

  /** The board that one array holds. */
  ghost function Whole(a: array2<int>): (b: Board)
    requires Square(a)
    reads a
    ensures Holds(a, b)
  {
    seq(9, r requires 0 <= r < 9 reads a => seq(9, c requires 0 <= c < 9 reads a => a[r, c]))
  }

  /** Row `k` of block `i` stands in its place in the message. */
  ghost predicate RowSent(message: seq<int>, b: Board, i: int, k: int)
    requires 0 <= i < 9
  {
    && 0 <= k < 3 && 3 * k + 3 <= |message|
    && message[3 * k] == Get(b, Global(i, k, 0))
    && message[3 * k + 1] == Get(b, Global(i, k, 1))
    && message[3 * k + 2] == Get(b, Global(i, k, 2))
  }

  lemma RowAdded(message: seq<int>, row: seq<int>, b: Board, i: int, r: int)
    requires 0 <= i < 9 && 0 <= r < 3 && |message| == 3 * r && |row| == 3
    requires forall c :: 0 <= c < 3 ==> row[c] == Get(b, Global(i, r, c))
    requires forall k :: 0 <= k < r ==> RowSent(message, b, i, k)
    ensures forall k :: 0 <= k <= r ==> RowSent(message + row, b, i, k)
  {
    hide Get, Global;
    forall k | 0 <= k <= r ensures RowSent(message + row, b, i, k) {
      assert k < r ==> RowSent(message, b, i, k);
    }
  }

  lemma Sent(message: seq<int>, b: Board, i: int, r: int, c: int)
    requires 0 <= i < 9 && |message| == 9 && 0 <= r < 3 && 0 <= c < 3 && RowSent(message, b, i, r)
    ensures message[3 * r + c] == Get(b, Global(i, r, c))
  {
    hide Get, Global;
    if c == 0 {
    } else if c == 1 {
    } else {
      assert c == 2;
    }
  }

  method MakeBlocks() returns (bs: seq<Block>)
    ensures |bs| == 9 && (forall k :: 0 <= k < 9 ==> bs[k].Valid() && fresh(bs[k].A) && fresh(bs[k].B))
    ensures forall k, l :: 0 <= k < l < 9 ==> bs[k].A != bs[l].A && bs[k].B != bs[l].B
    ensures forall k, l :: 0 <= k < 9 && 0 <= l < 9 ==> bs[k].A != bs[l].B
  {
    bs := [];
    for i := 0 to 9
      invariant |bs| == i && (forall k :: 0 <= k < i ==> bs[k].Valid() && fresh(bs[k].A) && fresh(bs[k].B))
      invariant forall k, l :: 0 <= k < l < i ==> bs[k].A != bs[l].A && bs[k].B != bs[l].B
      invariant forall k, l :: 0 <= k < i && 0 <= l < i ==> bs[k].A != bs[l].B
    {
      var b := new Block();
      bs := bs + [b];
    }
  }

  class Session {
    const blocks: seq<Block>
    const A: array2<int>
    const S: array2<int>
    ghost var game: Game

    ghost predicate Shape() {
      && |blocks| == 9 && (forall k :: 0 <= k < 9 ==> blocks[k].Valid())
      && (forall k, l :: 0 <= k < l < 9 ==> blocks[k].A != blocks[l].A && blocks[k].B != blocks[l].B)
      && (forall k, l :: 0 <= k < 9 && 0 <= l < 9 ==> blocks[k].A != blocks[l].B)
      && Square(A) && Square(S) && A != S && Apart(A) && Apart(S)
    }

    ghost predicate Apart(a: array2<int>)
      requires |blocks| == 9
    {
      forall k :: 0 <= k < 9 ==> a != blocks[k].A && a != blocks[k].B
    }

    ghost function Buffers(): set<object> {
      (set b | b in blocks :: b.A) + (set b | b in blocks :: b.B)
    }

    /** Every block holds its ninth of the clues and of the board, and the solution is at hand. */
    ghost predicate Valid()
      reads this, S, Buffers()
    {
      && Shape()
      && (forall k :: 0 <= k < 9 ==> HoldsBlock(blocks[k].A, game.clues, k) && HoldsBlock(blocks[k].B, game.board, k))
      && Holds(S, game.solution)
    }

    /** Starts the blocks; until the first deal, all boards hold whatever memory held. */
    constructor ()
      ensures Valid() && fresh(Buffers()) && fresh(A) && fresh(S)
    {
      hide Joined, Whole, At, HoldsBlock, Holds, Get, Global;
      var bs := MakeBlocks();
      blocks := bs;
      A := new int[9, 9];
      S := new int[9, 9];
      new;
      ghost var clues := seq(9, k requires 0 <= k < 9 => blocks[k].A);
      ghost var boards := seq(9, k requires 0 <= k < 9 => blocks[k].B);
      game := Game(Joined(clues), Joined(boards), Whole(S));
      forall k | 0 <= k < 9 ensures HoldsBlock(blocks[k].A, game.clues, k) && HoldsBlock(blocks[k].B, game.board, k) {
        JoinedHolds(clues, k);
        JoinedHolds(boards, k);
      }
    }

    /** One row of a block. */
    method SliceRow(from: array2<int>, ghost b: Board, i: int, r: int) returns (row: seq<int>)
      requires Holds(from, b) && 0 <= i < 9 && 0 <= r < 3
      ensures |row| == 3 && forall c :: 0 <= c < 3 ==> row[c] == Get(b, Global(i, r, c))
    {
      hide Get, Global, Holds;
      row := [];
      var top, left := i / 3 * 3, i % 3 * 3;
      for c := 0 to 3
        invariant |row| == c && forall l :: 0 <= l < c ==> row[l] == Get(b, Global(i, r, l))
      {
        CellOfBlock(from, b, i, r, c);
        row := row + [from[top + r, left + c]];
      }
    }

    /** The nine numbers sent to a block. */
    method Slice(from: array2<int>, ghost b: Board, i: int) returns (message: seq<int>)
      requires Holds(from, b) && 0 <= i < 9
      ensures |message| == 9
      ensures forall r, c :: 0 <= r < 3 && 0 <= c < 3 ==> message[3 * r + c] == Get(b, Global(i, r, c))
    {
      hide Get, Global, Holds, RowSent;
      message := [];
      for r := 0 to 3
        invariant |message| == 3 * r && forall k :: 0 <= k < r ==> RowSent(message, b, i, k)
      {
        var row := SliceRow(from, b, i, r);
        RowAdded(message, row, b, i, r);
        message := message + row;
      }
      forall r, c | 0 <= r < 3 && 0 <= c < 3 ensures message[3 * r + c] == Get(b, Global(i, r, c)) {
        Sent(message, b, i, r, c);
      }
    }

    lemma CellOfBlock(from: array2<int>, b: Board, i: int, r: int, c: int)
      requires Holds(from, b) && 0 <= i < 9 && 0 <= r < 3 && 0 <= c < 3
      ensures Square(from) && 0 <= i / 3 * 3 + r < 9 && 0 <= i % 3 * 3 + c < 9
      ensures from[i / 3 * 3 + r, i % 3 * 3 + c] == Get(b, Global(i, r, c))
    {
      hide Get;
    }

    /** Sends a board to the blocks, each its ninth. */
    method Send(from: array2<int>, ghost b: Board)
      requires Shape() && Apart(from) && Holds(from, b)
      modifies Buffers()
      ensures forall k :: 0 <= k < 9 ==> HoldsBlock(blocks[k].A, b, k) && HoldsBlock(blocks[k].B, b, k)
    {
      hide Get, Global;
      for i := 0 to 9
        invariant Holds(from, b)
        invariant forall k :: 0 <= k < i ==> HoldsBlock(blocks[k].A, b, k) && HoldsBlock(blocks[k].B, b, k)
      {
        var message := Slice(from, b, i);
        var block := blocks[i];
        block.Receive(message);
        assert HoldsBlock(block.A, b, i) && HoldsBlock(block.B, b, i);
      }
    }

    /** Command `n`: every block shows its ninth of the board dealt. */
    method NewGame(rand: nat -> nat)
      requires Shape()
      modifies this`game, A, S, Buffers()
      ensures Valid()
      ensures forall g: Game :: game == After(g, New(rand))
      ensures Digits(PUZZLE) && Digits(SOLUTION)
      ensures forall k :: 0 <= k < 9 ==>
        HoldsBlock(blocks[k].A, Deal(PUZZLE, rand), k) && HoldsBlock(blocks[k].B, Deal(PUZZLE, rand), k)
      ensures Holds(A, Deal(PUZZLE, rand)) && Holds(S, Deal(SOLUTION, rand))
    {
      hide Deal, Holds, HoldsBlock, Digits, PUZZLE, SOLUTION;
      NewBoard(A, S, rand);
      game := Game(Deal(PUZZLE, rand), Deal(PUZZLE, rand), Deal(SOLUTION, rand));
      Send(A, game.clues);
    }

    /** Command `s`: every block shows its ninth of the solution. */
    method ShowSolution()
      requires Valid()
      modifies this`game, Buffers()
      ensures Valid() && game == After(old(game), Solve)
      ensures forall k :: 0 <= k < 9 ==>
        HoldsBlock(blocks[k].A, old(game.solution), k) && HoldsBlock(blocks[k].B, old(game.solution), k)
    {
      hide Holds, HoldsBlock;
      Send(S, game.solution);
      game := Game(game.solution, game.solution, game.solution);
    }

    /** Command `p`: the judgement of one block and its four neighbours is that of the whole board; an accepted digit
        goes into its cell, and nothing else changes. */
    method PlaceDigit(b: int, c: int, d: int) returns (reply: Reply)
      requires Valid()
      modifies this`game, Buffers()
      ensures Valid() && game == After(old(game), Place(b, c, d))
      ensures reply == if InRange(b, c, d) then Verdict(old(game).clues, old(game).board, CellAt(b, c), d) else InvalidRange
      ensures reply.InvalidRange? <==> !(0 <= b < 9 && 0 <= c < 9 && 1 <= d <= 9)
      ensures game.clues == old(game.clues) && game.solution == old(game.solution)
      ensures forall q: Cell :: q.On() ==>
        Get(game.board, q) == if reply.Placed? && q == CellAt(b, c) then d else Get(old(game.board), q)
    {
      hide Get, Set, Allowed, Global, CellAt, Verdict, Fair, Valid, After, Finding, HoldsBlock, Holds;
      if b < 0 || b >= 9 || c < 0 || c >= 9 || d < 1 || d > 9 {
        Refused(game, b, c, d);
        return InvalidRange;
      }
      PlaceChanges(game, b, c, d);
      reply := Judge(b, c, d);
    }

    /** What block `b` finds out from its own ninth and those of its neighbours. */
    ghost function Finding(b: int, c: int, d: int): Reply
      requires Shape() && InRange(b, c, d)
      reads Buffers()
    {
      var n, m := RowNeighbours(b), ColumnNeighbours(b);
      if blocks[b].A[c / 3, c % 3] != 0 then ReadOnly
      else if Has(blocks[b].B, d) then BlockConflict
      else if HasInRow(blocks[n.0].B, c / 3, d) || HasInRow(blocks[n.1].B, c / 3, d) then RowConflict
      else if HasInColumn(blocks[m.0].B, c % 3, d) || HasInColumn(blocks[m.1].B, c % 3, d) then ColumnConflict
      else Placed
    }

    /** The finding of one block and its four neighbours is that of the whole board. */
    lemma FindingIsVerdict(b: int, c: int, d: int)
      requires Valid() && InRange(b, c, d)
      ensures Finding(b, c, d) == Verdict(game.clues, game.board, CellAt(b, c), d)
    {
      hide Get, RowNeighbours, ColumnNeighbours, Global, BlockHolds, RowHolds, ColumnHolds, Has, HasInRow, HasInColumn;
      var row, col, p := c / 3, c % 3, CellAt(b, c);
      var n, m := RowNeighbours(b), ColumnNeighbours(b);
      BlockKnows(blocks[b].B, game.board, p, d);
      if !Has(blocks[b].B, d) {
        RowKnown(blocks[b].B, blocks[n.0].B, blocks[n.1].B, game.board, b, row, col, d);
        ColumnKnown(blocks[b].B, blocks[m.0].B, blocks[m.1].B, game.board, b, row, col, d);
      }
      assert HoldsBlock(blocks[b].A, game.clues, b);
    }

    /** Passes the placement to block `b`, which asks its neighbours. */
    method Ask(b: int, c: int, d: int, ghost was: Board) returns (reply: Reply)
      requires Shape() && InRange(b, c, d) && HoldsBlock(blocks[b].B, was, b)
      modifies blocks[b].B
      ensures reply == old(Finding(b, c, d))
      ensures HoldsBlock(blocks[b].B, if reply.Placed? then Set(was, CellAt(b, c), d) else was, b)
    {
      hide Get, Set, Global, CellAt, Has, HasInRow, HasInColumn;
      var n, m := RowNeighbours(b), ColumnNeighbours(b);
      hide RowNeighbours, ColumnNeighbours;
      reply := blocks[b].Place(c, d, blocks[n.0], blocks[n.1], blocks[m.0], blocks[m.1]);
      if reply.Placed? {
        forall r, l | 0 <= r < 3 && 0 <= l < 3
          ensures blocks[b].B[r, l] == Get(Set(was, CellAt(b, c), d), Global(b, r, l))
        {
          SetInBlock(was, b, c, d, b, r, l);
        }
      }
    }

    method Judge(b: int, c: int, d: int) returns (reply: Reply)
      requires Valid() && InRange(b, c, d)
      modifies this`game, Buffers()
      ensures Valid() && game == After(old(game), Place(b, c, d))
      ensures reply == Verdict(old(game).clues, old(game).board, CellAt(b, c), d)
    {
      hide Get, Set, Allowed, Global, CellAt, Verdict, HoldsBlock, Holds, Finding;
      FindingIsVerdict(b, c, d);
      PlacedIffAllowed(game.clues, game.board, CellAt(b, c), d);
      reply := Ask(b, c, d, game.board);
      if reply.Placed? {
        forall k | 0 <= k < 9 && k != b
          ensures HoldsBlock(blocks[k].B, Set(game.board, CellAt(b, c), d), k)
        {
          OtherBlock(blocks[k].B, game.board, b, c, d, k);
        }
        game := game.(board := Set(game.board, CellAt(b, c), d));
      }
    }

    /** The coordinator's loop over commands. */
    method Run(commands: seq<Command>)
      requires Valid()
      modifies this`game, A, S, Buffers()
      ensures Valid() && game == Play(old(game), commands)
    {
      hide After, Verdict;
      for i := 0 to |commands|
        invariant Valid() && game == Play(old(game), commands[..i])
      {
        assert commands[..i + 1][..i] == commands[..i];
        match commands[i] {
          case New(rand) => NewGame(rand);
          case Solve => ShowSolution();
          case Place(b, c, d) =>
            var _ := PlaceDigit(b, c, d);
        }
      }
      assert commands[..|commands|] == commands;
    }
  }
}
