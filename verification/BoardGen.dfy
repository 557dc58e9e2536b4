/** Dealing a board: digits are renamed, rows and columns change places, and the board may be turned over;
    `rand(k)` is the k-th random number drawn. */
module BoardGen {

  // The nine digits are renamed, rows and columns change places within their bands and stacks, and the board may
  // be turned over.

  import opened Collections
  import opened Sudoku

  // ----- what is dealt

  /** The place drawn for exchange number `k` when the random number is `x`. */
  function Place(x: nat, k: nat): (j: nat)
    requires 1 <= k <= 8
    ensures 1 <= j <= 10 - k
  {
    1 + x % (10 - k)
  }

  /** The names of the digits after `k` exchanges of the shuffle. */
  function Names(rand: nat -> nat, k: nat): (names: seq<int>)
    requires k <= 8
    ensures IsRenaming(names)
  {
    if k == 0 then [0, 1, 2, 3, 4, 5, 6, 7, 8, 9]
    else
      var was := Names(rand, k - 1);
      var i, j := 10 - k, Place(rand(k - 1), k);
      was[i := was[j]][j := was[i]]
  }

  /** One exchange of the shuffle: the names of two digits change places. */
  lemma NamesStep(rand: nat -> nat, k: nat, d: int)
    requires k < 8 && 0 <= d <= 9
    ensures var i, j := 9 - k, 1 + rand(k) % (9 - k);
      Names(rand, k + 1)[d] == Names(rand, k)[if d == i then j else if d == j then i else d]
  {
    assert Place(rand(k), k + 1) == 1 + rand(k) % (9 - k);
    hide Place;
  }

  lemma RenamingHas(names: seq<int>, v: int)
    requires IsRenaming(names) && 1 <= v <= 9
    ensures exists d :: 1 <= d <= 9 && names[d] == v
  {
    var shifted: seq<nat> := seq(9, d requires 0 <= d < 9 => names[d + 1] - 1);
    DistinctBound(shifted, 9);
    assert v - 1 in shifted;
    var d :| 0 <= d < |shifted| && shifted[d] == v - 1;
    assert names[d + 1] == v;
  }

  /** The digits beyond place `i` have got the names they have in `names`. */
  predicate SettledBeyond(was: seq<int>, names: seq<int>, i: nat) {
    |was| == |names| == 10 && forall d :: i < d < 10 ==> was[d] == names[d]
  }

  lemma NameOf(was: seq<int>, names: seq<int>, i: int) returns (j: int)
    requires IsRenaming(was) && IsRenaming(names) && 1 <= i <= 9 && SettledBeyond(was, names, i)
    ensures 1 <= j <= i && was[j] == names[i]
  {
    RenamingHas(was, names[i]);
    j :| 1 <= j <= 9 && was[j] == names[i];
  }

  function Drawn(draws: seq<nat>): nat -> nat { (k: nat) => if k < |draws| then draws[k] else 0 }

  lemma {:induction false} NamesSame(rand: nat -> nat, rand': nat -> nat, k: nat)
    requires k <= 8 && forall x :: 0 <= x < k ==> rand(x) == rand'(x)
    ensures Names(rand, k) == Names(rand', k)
  {
    hide IsRenaming, Place;
    if k > 0 { NamesSame(rand, rand', k - 1); }
  }

  lemma {:induction false} NamesReach(names: seq<int>, k: nat) returns (draws: seq<nat>)
    requires IsRenaming(names) && k <= 8
    ensures |draws| == k && SettledBeyond(Names(Drawn(draws), k), names, 9 - k)
  {
    hide IsRenaming, Names;
    if k == 0 {
      draws := [];
      TenNames(Names(Drawn(draws), 0));
      TenNames(names);
    } else {
      var before := NamesReach(names, k - 1);
      var was := Names(Drawn(before), k - 1);
      assert IsRenaming(was);
      var j := NameOf(was, names, 10 - k);
      draws := before + [j - 1];
      NamesSame(Drawn(before), Drawn(draws), k - 1);
      OneMoreName(names, Drawn(draws), k - 1, j);
    }
  }

  lemma TenNames(names: seq<int>)
    requires IsRenaming(names)
    ensures |names| == 10
  {
  }

  lemma OneMoreName(names: seq<int>, rand: nat -> nat, k: nat, j: nat)
    requires k < 8 && SettledBeyond(Names(rand, k), names, 9 - k)
    requires rand(k) == j - 1 && 1 <= j <= 9 - k && Names(rand, k)[j] == names[9 - k]
    ensures SettledBeyond(Names(rand, k + 1), names, 8 - k)
  {
    Remainder(j - 1, 9 - k);
    assert |Names(rand, k + 1)| == 10;
    hide Names;
    forall d | 8 - k < d < 10 ensures Names(rand, k + 1)[d] == names[d] { NamesStep(rand, k, d); }
  }

  lemma Remainder(x: nat, n: nat)
    requires x < n
    ensures x % n == x
  {
  }

  /** Every renaming of the digits comes up for some random numbers. */
  lemma EveryRenaming(names: seq<int>)
    requires IsRenaming(names)
    ensures exists rand: nat -> nat :: Names(rand, 8) == names
  {
    hide IsRenaming;
    var draws := NamesReach(names, 8);
    var was := Names(Drawn(draws), 8);
    var j := NameOf(was, names, 1);
    assert IsRenaming(was) && IsRenaming(names);
    AllSettled(was, names);
  }

  lemma AllSettled(was: seq<int>, names: seq<int>)
    requires IsRenaming(was) && IsRenaming(names) && SettledBeyond(was, names, 1) && was[1] == names[1]
    ensures was == names
  {
  }

  /** Where the cell that ends up at `p` comes from, when `k` bands have had two of their rows exchanged. */
  function RowSource(rand: nat -> nat, k: nat, p: Cell): (q: Cell)
    requires k <= 3 && p.On()
    ensures q.On()
  {
    if k == 0 then p
    else RowSource(rand, k - 1, SwapRows(3 * k - 3 + rand(2 * k + 6) % 3, 3 * k - 3 + rand(2 * k + 7) % 3, p))
  }

  /** The same for columns, after the rows are done. */
  function ColumnSource(rand: nat -> nat, k: nat, p: Cell): (q: Cell)
    requires k <= 3 && p.On()
    ensures q.On()
  {
    if k == 0 then RowSource(rand, 3, p)
    else ColumnSource(rand, k - 1, SwapColumns(3 * k - 3 + rand(2 * k + 12) % 3, 3 * k - 3 + rand(2 * k + 13) % 3, p))
  }

  function Source(rand: nat -> nat, p: Cell): (q: Cell)
    requires p.On()
    ensures q.On()
  {
    ColumnSource(rand, 3, if rand(20) % 2 != 0 then p else Transpose(p))
  }

  ghost predicate Digits(b: Board) { forall p: Cell :: p.On() ==> 0 <= Get(b, p) <= 9 }

  /** Board `b` with its cells moved and its digits renamed. */
  ghost function Deal(b: Board, rand: nat -> nat): Board
    requires Digits(b)
  {
    seq(9, r requires 0 <= r < 9 => seq(9, c requires 0 <= c < 9 => Names(rand, 8)[Get(b, Source(rand, Cell(r, c)))]))
  }

  lemma DealAt(b: Board, rand: nat -> nat, p: Cell)
    requires Digits(b) && p.On()
    ensures 0 <= Get(b, Source(rand, p)) <= 9 && |Names(rand, 8)| == 10
    ensures Get(Deal(b, rand), p) == Names(rand, 8)[Get(b, Source(rand, p))]
  {
    hide Source, Names;
    assert p == Cell(p.r, p.c);
  }

  lemma {:induction false} RowSourceKeepsSight(rand: nat -> nat, k: nat, p: Cell, q: Cell)
    requires k <= 3 && p.On() && q.On() && Sees(p, q)
    ensures Sees(RowSource(rand, k, p), RowSource(rand, k, q))
  {
    if k > 0 {
      var x, y := 3 * k - 3 + rand(2 * k + 6) % 3, 3 * k - 3 + rand(2 * k + 7) % 3;
      SwapRowsKeepsSight(x, y, p, q);
      RowSourceKeepsSight(rand, k - 1, SwapRows(x, y, p), SwapRows(x, y, q));
    }
  }

  lemma {:induction false} ColumnSourceKeepsSight(rand: nat -> nat, k: nat, p: Cell, q: Cell)
    requires k <= 3 && p.On() && q.On() && Sees(p, q)
    ensures Sees(ColumnSource(rand, k, p), ColumnSource(rand, k, q))
  {
    if k == 0 {
      RowSourceKeepsSight(rand, 3, p, q);
    } else {
      var x, y := 3 * k - 3 + rand(2 * k + 12) % 3, 3 * k - 3 + rand(2 * k + 13) % 3;
      SwapColumnsKeepsSight(x, y, p, q);
      ColumnSourceKeepsSight(rand, k - 1, SwapColumns(x, y, p), SwapColumns(x, y, q));
    }
  }

  /** Cells that see each other come from cells that saw each other. */
  lemma SourceKeepsSight(rand: nat -> nat, p: Cell, q: Cell)
    requires p.On() && q.On() && Sees(p, q)
    ensures Sees(Source(rand, p), Source(rand, q))
  {
    if rand(20) % 2 != 0 {
      ColumnSourceKeepsSight(rand, 3, p, q);
    } else {
      ColumnSourceKeepsSight(rand, 3, Transpose(p), Transpose(q));
    }
  }

  lemma NamesApart(rand: nat -> nat, d: int, e: int)
    requires 0 <= d <= 9 && 0 <= e <= 9
    ensures |Names(rand, 8)| == 10 && 0 <= Names(rand, 8)[d] <= 9
    ensures (Names(rand, 8)[d] == 0 <==> d == 0) && (Names(rand, 8)[d] == Names(rand, 8)[e] <==> d == e)
  {
    hide Names;
    var names := Names(rand, 8);
    assert IsRenaming(names);
    assert d != 0 ==> 1 <= names[d] <= 9;
    assert e != 0 ==> 1 <= names[e] <= 9;
  }

  lemma DealConsistent(rand: nat -> nat, b: Board)
    requires Digits(b) && Consistent(b)
    ensures Consistent(Deal(b, rand))
  {
    hide Source, Names, Sees, IsRenaming, Deal;
    var t := Deal(b, rand);
    forall p: Cell | p.On() ensures 0 <= Get(t, p) <= 9 {
      DealAt(b, rand, p);
      NamesApart(rand, Get(b, Source(rand, p)), 0);
    }
    forall p: Cell, q: Cell | p.On() && q.On() ensures ClashFree(t, p, q) {
      if Sees(p, q) {
        DealAt(b, rand, p);
        DealAt(b, rand, q);
        SourceKeepsSight(rand, p, q);
        NamesApart(rand, Get(b, Source(rand, p)), Get(b, Source(rand, q)));
        assert ClashFree(b, Source(rand, p), Source(rand, q));
      }
    }
  }

  /** Whatever the random numbers, dealing a puzzle and its solution alike gives a puzzle and its solution. */
  lemma DealIsDealt(rand: nat -> nat, puzzle: Board, solution: Board)
    requires Dealt(puzzle, solution) && Digits(puzzle)
    ensures Digits(solution) && Dealt(Deal(puzzle, rand), Deal(solution, rand))
  {
    hide Source, Names, Consistent, Sees, IsRenaming, Deal;
    assert Digits(solution) by { DigitsOf(solution); }
    DealConsistent(rand, solution);
    forall p: Cell | p.On()
      ensures Get(Deal(solution, rand), p) != 0
      ensures Get(Deal(puzzle, rand), p) != 0 ==> Get(Deal(solution, rand), p) == Get(Deal(puzzle, rand), p)
    {
      DealAt(puzzle, rand, p);
      DealAt(solution, rand, p);
      var from := Source(rand, p);
      NamesApart(rand, Get(solution, from), 0);
      NamesApart(rand, Get(puzzle, from), 0);
      assert Get(solution, from) != 0;
      assert Get(puzzle, from) != 0 ==> Get(solution, from) == Get(puzzle, from);
    }
  }

  lemma DigitsOf(b: Board)
    requires Consistent(b)
    ensures Digits(b)
  {
  }

  // ----- the program

  ghost predicate Square(a: array2<int>) { a.Length0 == 9 && a.Length1 == 9 }

  /** Array `a` holds board `b`. */
  ghost predicate Holds(a: array2<int>, b: Board)
    reads a
  {
    Square(a) && forall r, c :: 0 <= r < 9 && 0 <= c < 9 ==> a[r, c] == Get(b, Cell(r, c))
  }

  ghost predicate RowsDone(a: array2<int>, b: Board, rand: nat -> nat, k: nat)
    requires k <= 3
    reads a
  {
    Square(a) && forall r, c :: 0 <= r < 9 && 0 <= c < 9 ==> a[r, c] == Get(b, RowSource(rand, k, Cell(r, c)))
  }

  ghost predicate ColumnsDone(a: array2<int>, b: Board, rand: nat -> nat, k: nat)
    requires k <= 3
    reads a
  {
    Square(a) && forall r, c :: 0 <= r < 9 && 0 <= c < 9 ==> a[r, c] == Get(b, ColumnSource(rand, k, Cell(r, c)))
  }

  method ShuffleNames(P: array<int>, rand: nat -> nat)
    requires P[..] == [0, 1, 2, 3, 4, 5, 6, 7, 8, 9]
    modifies P
    ensures P.Length == 10 && P[..] == Names(rand, 8)
  {
    var i := 8;
    while i > 0
      invariant 0 <= i <= 8 && P.Length == 10 && P[..] == Names(rand, 8 - i)
    {
      var j := rand(8 - i) % (i + 1);
      ghost var was := P[..];
      P[1 + i], P[1 + j] := P[1 + j], P[1 + i];
      assert P[..] == was[1 + i := was[1 + j]][1 + j := was[1 + i]];
      i := i - 1;
    }
  }

  method ExchangeRows(B: array2<int>, C: array2<int>, x: nat, y: nat)
    requires B != C && Square(B) && Square(C) && x < 9 && y < 9
    modifies B, C
    ensures forall r, c :: 0 <= r < 9 && 0 <= c < 9 ==> B[r, c] == old(B[Other(x, y, r), c])
    ensures forall r, c :: 0 <= r < 9 && 0 <= c < 9 ==> C[r, c] == old(C[Other(x, y, r), c])
  {
    for j := 0 to 9
      invariant forall r, c :: 0 <= r < 9 && 0 <= c < 9 ==> B[r, c] == old(B[if c < j then Other(x, y, r) else r, c])
      invariant forall r, c :: 0 <= r < 9 && 0 <= c < 9 ==> C[r, c] == old(C[if c < j then Other(x, y, r) else r, c])
    {
      B[x, j], B[y, j] := B[y, j], B[x, j];
      C[x, j], C[y, j] := C[y, j], C[x, j];
    }
  }

  method ExchangeColumns(B: array2<int>, C: array2<int>, x: nat, y: nat)
    requires B != C && Square(B) && Square(C) && x < 9 && y < 9
    modifies B, C
    ensures forall r, c :: 0 <= r < 9 && 0 <= c < 9 ==> B[r, c] == old(B[r, Other(x, y, c)])
    ensures forall r, c :: 0 <= r < 9 && 0 <= c < 9 ==> C[r, c] == old(C[r, Other(x, y, c)])
  {
    for i := 0 to 9
      invariant forall r, c :: 0 <= r < 9 && 0 <= c < 9 ==> B[r, c] == old(B[r, if r < i then Other(x, y, c) else c])
      invariant forall r, c :: 0 <= r < 9 && 0 <= c < 9 ==> C[r, c] == old(C[r, if r < i then Other(x, y, c) else c])
    {
      B[i, x], B[i, y] := B[i, y], B[i, x];
      C[i, x], C[i, y] := C[i, y], C[i, x];
    }
  }

  lemma RowStep(rand: nat -> nat, band: nat, r: int, c: int)
    requires band < 3 && 0 <= r < 9 && 0 <= c < 9
    ensures
      var x, y := 3 * band + rand(8 + 2 * band) % 3, 3 * band + rand(9 + 2 * band) % 3;
      RowSource(rand, band + 1, Cell(r, c)) == RowSource(rand, band, Cell(Other(x, y, r), c))
  {
  }

  lemma ColumnStep(rand: nat -> nat, stack: nat, r: int, c: int)
    requires stack < 3 && 0 <= r < 9 && 0 <= c < 9
    ensures
      var x, y := 3 * stack + rand(14 + 2 * stack) % 3, 3 * stack + rand(15 + 2 * stack) % 3;
      ColumnSource(rand, stack + 1, Cell(r, c)) == ColumnSource(rand, stack, Cell(r, Other(x, y, c)))
  {
  }

  method ShuffleBand(B: array2<int>, C: array2<int>, rand: nat -> nat, band: nat)
    requires B != C && band < 3 && RowsDone(B, PUZZLE, rand, band) && RowsDone(C, SOLUTION, rand, band)
    modifies B, C
    ensures RowsDone(B, PUZZLE, rand, band + 1) && RowsDone(C, SOLUTION, rand, band + 1)
  {
    hide PUZZLE, SOLUTION, RowSource, Get;
    var k := 3 * band;
    var s, t := rand(8 + 2 * band) % 3, rand(9 + 2 * band) % 3;
    if s != t { ExchangeRows(B, C, k + s, k + t); }
    forall r, c | 0 <= r < 9 && 0 <= c < 9
      ensures B[r, c] == Get(PUZZLE, RowSource(rand, band + 1, Cell(r, c)))
      ensures C[r, c] == Get(SOLUTION, RowSource(rand, band + 1, Cell(r, c)))
    {
      RowStep(rand, band, r, c);
    }
  }

  method ShuffleStack(B: array2<int>, C: array2<int>, rand: nat -> nat, stack: nat)
    requires B != C && stack < 3 && ColumnsDone(B, PUZZLE, rand, stack) && ColumnsDone(C, SOLUTION, rand, stack)
    modifies B, C
    ensures ColumnsDone(B, PUZZLE, rand, stack + 1) && ColumnsDone(C, SOLUTION, rand, stack + 1)
  {
    hide PUZZLE, SOLUTION, ColumnSource, Get;
    var k := 3 * stack;
    var s, t := rand(14 + 2 * stack) % 3, rand(15 + 2 * stack) % 3;
    if s != t { ExchangeColumns(B, C, k + s, k + t); }
    forall r, c | 0 <= r < 9 && 0 <= c < 9
      ensures B[r, c] == Get(PUZZLE, ColumnSource(rand, stack + 1, Cell(r, c)))
      ensures C[r, c] == Get(SOLUTION, ColumnSource(rand, stack + 1, Cell(r, c)))
    {
      ColumnStep(rand, stack, r, c);
    }
  }

  /** The two loops over bands and stacks. */
  method Rearrange(B: array2<int>, C: array2<int>, rand: nat -> nat)
    requires B != C && Square(B) && Square(C) && Holds(B, PUZZLE) && Holds(C, SOLUTION)
    modifies B, C
    ensures Square(B) && Square(C) && ColumnsDone(B, PUZZLE, rand, 3) && ColumnsDone(C, SOLUTION, rand, 3)
  {
    hide PUZZLE, SOLUTION, RowsDone, ColumnsDone, Holds;
    StartRows(B, PUZZLE, rand);
    StartRows(C, SOLUTION, rand);
    for band: int := 0 to 3
      invariant RowsDone(B, PUZZLE, rand, band) && RowsDone(C, SOLUTION, rand, band)
    {
      ShuffleBand(B, C, rand, band);
    }
    StartColumns(B, PUZZLE, rand);
    StartColumns(C, SOLUTION, rand);
    for stack: int := 0 to 3
      invariant ColumnsDone(B, PUZZLE, rand, stack) && ColumnsDone(C, SOLUTION, rand, stack)
    {
      ShuffleStack(B, C, rand, stack);
    }
  }

  lemma StartRows(a: array2<int>, b: Board, rand: nat -> nat)
    requires Holds(a, b)
    ensures RowsDone(a, b, rand, 0)
  {
  }

  lemma StartColumns(a: array2<int>, b: Board, rand: nat -> nat)
    requires RowsDone(a, b, rand, 3)
    ensures ColumnsDone(a, b, rand, 0)
  {
    hide RowSource;
  }

  lemma PickedFrom(from: array2<int>, b: Board, rand: nat -> nat, i: int, j: int)
    requires ColumnsDone(from, b, rand, 3) && Digits(b) && 0 <= i < 9 && 0 <= j < 9
    ensures (if rand(20) % 2 != 0 then from[i, j] else from[j, i]) == Get(b, Source(rand, Cell(i, j)))
    ensures 0 <= Get(b, Source(rand, Cell(i, j))) <= 9
  {
    hide ColumnSource;
  }

  /** Fills one array from another through the names, turned over or not. */
  method Fill(t: array2<int>, from: array2<int>, P: array<int>, ghost b: Board, rand: nat -> nat)
    requires t != from && Square(t) && Square(from) && Digits(b) && ColumnsDone(from, b, rand, 3) && P.Length == 10 && P[..] == Names(rand, 8)
    modifies t
    ensures Holds(t, Deal(b, rand))
  {
    hide Source, Names, IsRenaming, ColumnsDone, Get, Deal;
    for i := 0 to 9
      invariant forall r, c :: 0 <= r < i && 0 <= c < 9 ==> t[r, c] == P[Get(b, Source(rand, Cell(r, c)))]
    {
      for j := 0 to 9
        invariant forall r, c :: 0 <= r < i && 0 <= c < 9 ==> t[r, c] == P[Get(b, Source(rand, Cell(r, c)))]
        invariant forall c :: 0 <= c < j ==> t[i, c] == P[Get(b, Source(rand, Cell(i, c)))]
      {
        var d := if rand(20) % 2 != 0 then from[i, j] else from[j, i];
        PickedFrom(from, b, rand, i, j);
        t[i, j] := P[d];
      }
    }
    forall r, c | 0 <= r < 9 && 0 <= c < 9 ensures t[r, c] == Get(Deal(b, rand), Cell(r, c)) {
      DealAt(b, rand, Cell(r, c));
    }
  }

  /** The boards written into the program. */
  method BaseBoards() returns (B: array2<int>, C: array2<int>)
    ensures fresh(B) && fresh(C) && B != C && Square(B) && Square(C) && Holds(B, PUZZLE) && Holds(C, SOLUTION)
  {
    hide PUZZLE, SOLUTION;
    B := new int[9, 9]((i, j) requires 0 <= i < 9 && 0 <= j < 9 => PUZZLE[i][j]);
    C := new int[9, 9]((i, j) requires 0 <= i < 9 && 0 <= j < 9 => SOLUTION[i][j]);
  }

  /** Deals a board into `A` and its solution into `S`. */
  method NewBoard(A: array2<int>, S: array2<int>, rand: nat -> nat)
    requires A != S && Square(A) && Square(S)
    modifies A, S
    ensures Digits(PUZZLE) && Digits(SOLUTION)
    ensures Holds(A, Deal(PUZZLE, rand)) && Holds(S, Deal(SOLUTION, rand))
  {
    hide PUZZLE, SOLUTION, Deal, ColumnsDone, Names, Digits, Holds;
    BaseDigits();
    var P := new int[10](i => i);
    assert P[..] == [0, 1, 2, 3, 4, 5, 6, 7, 8, 9];
    ShuffleNames(P, rand);
    var B, C := BaseBoards();
    Rearrange(B, C, rand);
    Fill(A, B, P, PUZZLE, rand);
    Fill(S, C, P, SOLUTION, rand);
  }

  lemma BaseDigits()
    ensures Digits(PUZZLE) && Digits(SOLUTION)
  {
    hide PUZZLE, SOLUTION;
    BaseDealt();
    CluesConsistent(PUZZLE, SOLUTION);
  }

  /** What `NewBoard` leaves in its arrays is a puzzle and its solution, for all random numbers. */
  lemma NewBoardIsDealt(rand: nat -> nat)
    ensures Digits(PUZZLE) && Digits(SOLUTION) && Dealt(Deal(PUZZLE, rand), Deal(SOLUTION, rand))
  {
    hide PUZZLE, SOLUTION, Deal, Dealt;
    BaseDealt();
    BaseDigits();
    DealIsDealt(rand, PUZZLE, SOLUTION);
  }
}
