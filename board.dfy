/**
 * The mutable constraint engine: one board, its queens (one per row) and an
 * attack-count grid that placeQueen and removeQueen update incrementally.
 */
module Boards {
  import opened Geometry
  import opened Placements

  /** The SquareOperation handed to the traversals: squareAdd or squareSub. */
  datatype SquareOperation = Add | Sub

  function Delta(op: SquareOperation): int {
    match op
    case Add => 1
    case Sub => -1
  }

  /** Cells that traverseXYSpace visits: the queen's row and column, without its own square. */
  predicate OnRowOrColumn(row: int, col: int, r: int, c: int) {
    (r == row && c != col) || (c == col && r != row)
  }

  // The four diagonal rays of traverseDiagonalSpace, named after its comments
  // ("up" means a smaller column, "left" a smaller row).
  predicate UpLeft(row: int, col: int, r: int, c: int) { r < row && row - r == col - c }
  predicate UpRight(row: int, col: int, r: int, c: int) { r > row && r - row == col - c }
  predicate DownLeft(row: int, col: int, r: int, c: int) { r < row && row - r == c - col }
  predicate DownRight(row: int, col: int, r: int, c: int) { r > row && r - row == c - col }

  /** Cells that traverseDiagonalSpace visits. */
  predicate OnDiagonalRays(row: int, col: int, r: int, c: int) {
    UpLeft(row, col, r, c) || UpRight(row, col, r, c) || DownLeft(row, col, r, c) || DownRight(row, col, r, c)
  }

  /** Own square, row and column, diagonal rays: disjoint, and together exactly the attacked cells. */
  lemma AttackPattern(row: int, col: int, r: int, c: int)
    ensures Attacks(row, col, r, c) <==>
      (r == row && c == col) || OnRowOrColumn(row, col, r, c) || OnDiagonalRays(row, col, r, c)
    ensures !(r == row && c == col && OnRowOrColumn(row, col, r, c))
    ensures !(r == row && c == col && OnDiagonalRays(row, col, r, c))
    ensures !(OnRowOrColumn(row, col, r, c) && OnDiagonalRays(row, col, r, c))
  {
  }

  class Board {
    const boardSize: nat
    /** Column of the queen in each row, or -1 for an empty row. */
    const queens: array<int>
    /** board[r, c]: how many placed queens occupy or attack square (r, c). */
    const board: array2<int>
    var queensPlaced: int

    /** Array dimensions agree with boardSize. */
    ghost predicate Shape()
      reads this
    {
      queens.Length == boardSize && board.Length0 == boardSize && board.Length1 == boardSize
    }

    /** The board invariant: the tally counts the queens, the grid counts attacks, the queens are legal. */
    ghost predicate Valid()
      reads this, queens, board
    {
      Shape() &&
      WellFormed(queens[..]) &&
      queensPlaced == Placed(queens[..]) &&
      Legal(queens[..]) &&
      forall r, c :: 0 <= r < boardSize && 0 <= c < boardSize ==> board[r, c] == CoverCount(queens[..], r, c)
    }

    /** Board(int boardSize): all rows empty, all counts 0, no queen placed. */
    constructor (boardSize: nat)
      ensures this.boardSize == boardSize && Valid()
      ensures fresh(queens) && fresh(board)
      ensures queensPlaced == 0
      ensures forall i :: 0 <= i < boardSize ==> queens[i] == NoQueen
      ensures forall r, c :: 0 <= r < boardSize && 0 <= c < boardSize ==> board[r, c] == 0
    {
      this.boardSize := boardSize;
      board := new int[boardSize, boardSize]((_, _) => 0);
      var q := new int[boardSize];
      for i := 0 to boardSize
        modifies q
        invariant forall k :: 0 <= k < i ==> q[k] == NoQueen
      {
        q[i] := NoQueen;
      }
      queens := q;
      queensPlaced := 0;
      new;
      assert queens[..] == Empty(boardSize);
      PlacedNone(queens[..]);
      forall r, c | 0 <= r < boardSize && 0 <= c < boardSize
        ensures board[r, c] == CoverCount(queens[..], r, c)
      {
        EmptyUncovered(boardSize, r, c);
      }
    }

    /** Board(Board b): a deep copy in freshly allocated arrays. */
    constructor Copy(b: Board)
      requires b.Shape()
      ensures boardSize == b.boardSize && queensPlaced == b.queensPlaced
      ensures Shape() && fresh(queens) && fresh(board)
      ensures queens[..] == b.queens[..]
      ensures forall r, c :: 0 <= r < boardSize && 0 <= c < boardSize ==> board[r, c] == b.board[r, c]
      ensures b.Valid() ==> Valid()
    {
      boardSize := b.boardSize;
      queensPlaced := b.queensPlaced;
      var n := b.boardSize;
      var g := new int[n, n];
      for row := 0 to n
        modifies g
        invariant forall r, c :: 0 <= r < row && 0 <= c < n ==> g[r, c] == b.board[r, c]
      {
        for c := 0 to n
          invariant forall r, k :: 0 <= r < row && 0 <= k < n ==> g[r, k] == b.board[r, k]
          invariant forall k :: 0 <= k < c ==> g[row, k] == b.board[row, k]
        {
          g[row, c] := b.board[row, c];
        }
      }
      board := g;
      var q := new int[n];
      for i := 0 to n
        modifies q
        invariant forall k :: 0 <= k < i ==> q[k] == b.queens[k]
      {
        q[i] := b.queens[i];
      }
      queens := q;
      new;
      assert queens[..] == b.queens[..];
    }

    /** getQueensPlaced: the tally, which is the number of occupied rows. */
    function GetQueensPlaced(): (k: int)
      requires Valid()
      reads this, queens, board
      ensures k == Placed(queens[..]) && 0 <= k <= boardSize
      ensures k == boardSize <==> Full(queens[..])
    {
      PlacedFull(queens[..]);
      queensPlaced
    }

    /** isSquareCovered: some placed queen occupies or attacks (row, col). */
    function IsSquareCovered(row: int, col: int): (covered: bool)
      requires Valid() && 0 <= row < boardSize && 0 <= col < boardSize
      reads this, queens, board
      ensures covered <==> exists q :: 0 <= q < boardSize && queens[q] != NoQueen && Attacks(q, queens[q], row, col)
    {
      UncoveredIffNoAttacker(queens[..], row, col);
      board[row, col] > 0
    }

    /** placeFormsRow: (row, col) is collinear with some pair of placed queens. */
    method PlaceFormsRow(row: int, col: int) returns (forms: bool)
      requires Valid()
      ensures forms == FormsLine(queens[..], row, col)
    {
      if queensPlaced < 2 {
        FewerThanTwoFormNoLine(queens[..], row, col);
        return false;
      }
      for q1Idx := 0 to boardSize
        invariant forall a, b :: 0 <= a < q1Idx && a < b < boardSize && queens[a] != NoQueen && queens[b] != NoQueen ==>
          !Collinear(row, col, a, queens[a], b, queens[b])
      {
        if queens[q1Idx] != NoQueen {
          for q2Idx := q1Idx + 1 to boardSize
            invariant forall a, b :: 0 <= a < q1Idx && a < b < boardSize && queens[a] != NoQueen && queens[b] != NoQueen ==>
              !Collinear(row, col, a, queens[a], b, queens[b])
            invariant forall b :: q1Idx < b < q2Idx && queens[b] != NoQueen ==>
              !Collinear(row, col, q1Idx, queens[q1Idx], b, queens[b])
          {
            if queens[q2Idx] != NoQueen {
              var row1, col1 := q1Idx, queens[q1Idx];
              var row2, col2 := q2Idx, queens[q2Idx];
              if Collinear(row, col, row1, col1, row2, col2) {
                return true;
              }
            }
          }
        }
      }
      return false;
    }

    /** squareAdd: one more attack on (row, col). */
    method SquareAdd(row: int, col: int)
      requires Shape() && 0 <= row < boardSize && 0 <= col < boardSize
      modifies board
      ensures forall r, c :: 0 <= r < boardSize && 0 <= c < boardSize ==>
        board[r, c] == old(board[r, c]) + (if r == row && c == col then 1 else 0)
    {
      board[row, col] := board[row, col] + 1;
    }

    /** squareSub: one attack fewer on (row, col). */
    method SquareSub(row: int, col: int)
      requires Shape() && 0 <= row < boardSize && 0 <= col < boardSize
      modifies board
      ensures forall r, c :: 0 <= r < boardSize && 0 <= c < boardSize ==>
        board[r, c] == old(board[r, c]) - (if r == row && c == col then 1 else 0)
    {
      board[row, col] := board[row, col] - 1;
    }

    /** op.operate(row, col) for the operation handed to a traversal. */
    method Operate(op: SquareOperation, row: int, col: int)
      requires Shape() && 0 <= row < boardSize && 0 <= col < boardSize
      modifies board
      ensures forall r, c :: 0 <= r < boardSize && 0 <= c < boardSize ==>
        board[r, c] == old(board[r, c]) + (if r == row && c == col then Delta(op) else 0)
    {
      match op
      case Add => SquareAdd(row, col);
      case Sub => SquareSub(row, col);
    }

    /** traverseXYSpace: apply op to every other cell of the queen's row and column. */
    method TraverseXYSpace(row: int, col: int, op: SquareOperation)
      requires Shape() && 0 <= row < boardSize && 0 <= col < boardSize
      modifies board
      ensures forall r, c :: 0 <= r < boardSize && 0 <= c < boardSize ==>
        board[r, c] == old(board[r, c]) + (if OnRowOrColumn(row, col, r, c) then Delta(op) else 0)
    {
      for i := 0 to boardSize
        invariant forall r, c :: 0 <= r < boardSize && 0 <= c < boardSize ==>
          board[r, c] == old(board[r, c]) +
            (if OnRowOrColumn(row, col, r, c) && (if r == row then c < i else r < i) then Delta(op) else 0)
      {
        if col != i {
          Operate(op, row, i);
        }
        if row != i {
          Operate(op, i, col);
        }
      }
    }

    /** traverseDiagonalSpace: apply op along the four diagonal rays, stopping at the edges. */
    method TraverseDiagonalSpace(row: int, col: int, op: SquareOperation)
      requires Shape() && 0 <= row < boardSize && 0 <= col < boardSize
      modifies board
      ensures forall r, c :: 0 <= r < boardSize && 0 <= c < boardSize ==>
        board[r, c] == old(board[r, c]) + (if OnDiagonalRays(row, col, r, c) then Delta(op) else 0)
    {
      var n, d := boardSize, Delta(op);

      // up/left
      var colUp, rowLeft := col - 1, row - 1;
      while colUp >= 0 && rowLeft >= 0
        invariant -1 <= rowLeft < row && -1 <= colUp < col && row - rowLeft == col - colUp
        invariant forall r, c :: 0 <= r < n && 0 <= c < n ==>
          board[r, c] == old(board[r, c]) + (if UpLeft(row, col, r, c) && rowLeft < r then d else 0)
      {
        Operate(op, rowLeft, colUp);
        colUp, rowLeft := colUp - 1, rowLeft - 1;
      }

      // up/right
      label BeforeUpRight:
      var rowRight;
      colUp, rowRight := col - 1, row + 1;
      while colUp >= 0 && rowRight < n
        invariant row < rowRight <= n && -1 <= colUp < col && rowRight - row == col - colUp
        invariant forall r, c :: 0 <= r < n && 0 <= c < n ==>
          board[r, c] == old@BeforeUpRight(board[r, c]) + (if UpRight(row, col, r, c) && r < rowRight then d else 0)
      {
        Operate(op, rowRight, colUp);
        colUp, rowRight := colUp - 1, rowRight + 1;
      }

      // down/left
      label BeforeDownLeft:
      var colDown;
      colDown, rowLeft := col + 1, row - 1;
      while colDown < n && rowLeft >= 0
        invariant -1 <= rowLeft < row && col < colDown <= n && row - rowLeft == colDown - col
        invariant forall r, c :: 0 <= r < n && 0 <= c < n ==>
          board[r, c] == old@BeforeDownLeft(board[r, c]) + (if DownLeft(row, col, r, c) && rowLeft < r then d else 0)
      {
        Operate(op, rowLeft, colDown);
        colDown, rowLeft := colDown + 1, rowLeft - 1;
      }

      // down/right
      label BeforeDownRight:
      colDown, rowRight := col + 1, row + 1;
      while colDown < n && rowRight < n
        invariant row < rowRight <= n && col < colDown <= n && rowRight - row == colDown - col
        invariant forall r, c :: 0 <= r < n && 0 <= c < n ==>
          board[r, c] == old@BeforeDownRight(board[r, c]) + (if DownRight(row, col, r, c) && r < rowRight then d else 0)
      {
        Operate(op, rowRight, colDown);
        colDown, rowRight := colDown + 1, rowRight + 1;
      }
    }

    /**
     * placeQueen: refuse a covered square or one that forms a line with two placed
     * queens; otherwise put the queen down and add its attack pattern to the grid.
     */
    method PlaceQueen(row: int, col: int) returns (ok: bool)
      requires Valid() && 0 <= row < boardSize && 0 <= col < boardSize
      modifies this, queens, board
      ensures Valid()
      ensures ok <==> CanPlace(old(queens[..]), row, col)
      ensures !ok ==> unchanged(this, queens, board)
      ensures ok ==> old(queens[row]) == NoQueen && queens[..] == old(queens[..])[row := col]
      ensures ok ==> queensPlaced == old(queensPlaced) + 1
      ensures ok ==> forall r, c :: 0 <= r < boardSize && 0 <= c < boardSize ==>
        board[r, c] == old(board[r, c]) + (if Attacks(row, col, r, c) then 1 else 0)
    {
      ghost var qs := queens[..];
      if IsSquareCovered(row, col) {
        return false;
      }
      var forms := PlaceFormsRow(row, col);
      if forms {
        return false;
      }
      if qs[row] != NoQueen {
        assert false;
      }

      board[row, col] := board[row, col] + 1;
      queens[row] := col;
      queensPlaced := queensPlaced + 1;

      TraverseXYSpace(row, col, Add);
      TraverseDiagonalSpace(row, col, Add);

      assert queens[..] == qs[row := col];
      PlacedUpdate(qs, row, col);
      PlaceKeepsLegal(qs, row, col);
      forall r, c | 0 <= r < boardSize && 0 <= c < boardSize
        ensures board[r, c] == old(board[r, c]) + (if Attacks(row, col, r, c) then 1 else 0)
        ensures board[r, c] == CoverCount(queens[..], r, c)
      {
        AttackPattern(row, col, r, c);
        CoverUpdate(qs, row, col, r, c);
      }
      ok := true;
    }

    /**
     * removeQueen: the sanity check fails (ok == false, state untouched) unless the
     * square's count is exactly 1; otherwise subtract the attack pattern of (row, col).
     */
    method RemoveQueen(row: int, col: int) returns (ok: bool)
      requires Shape() && 0 <= row < boardSize && 0 <= col < boardSize
      modifies this, queens, board
      ensures ok <==> old(board[row, col]) == 1
      ensures !ok ==> unchanged(this, queens, board)
      ensures ok ==> queens[..] == old(queens[..])[row := NoQueen] && queensPlaced == old(queensPlaced) - 1
      ensures ok ==> forall r, c :: 0 <= r < boardSize && 0 <= c < boardSize ==>
        board[r, c] == old(board[r, c]) - (if Attacks(row, col, r, c) then 1 else 0)
      ensures old(Valid()) && old(queens[row]) == col ==> ok && Valid()
    {
      ghost var qs := queens[..];
      ghost var wasValid := Valid();
      if board[row, col] != 1 {
        if wasValid && qs[row] == col {
          OccupiedCountIsOne(qs, row);
          assert false;
        }
        return false;
      }

      board[row, col] := board[row, col] - 1;
      queens[row] := NoQueen;
      queensPlaced := queensPlaced - 1;

      TraverseXYSpace(row, col, Sub);
      TraverseDiagonalSpace(row, col, Sub);

      assert queens[..] == qs[row := NoQueen];
      forall r, c | 0 <= r < boardSize && 0 <= c < boardSize
        ensures board[r, c] == old(board[r, c]) - (if Attacks(row, col, r, c) then 1 else 0)
      {
        AttackPattern(row, col, r, c);
      }
      if wasValid && qs[row] == col {
        var qs' := qs[row := NoQueen];
        assert qs'[row := col] == qs;
        PlacedUpdate(qs', row, col);
        RemoveKeepsLegal(qs, row);
        forall r, c | 0 <= r < boardSize && 0 <= c < boardSize
          ensures board[r, c] == CoverCount(queens[..], r, c)
        {
          CoverUpdate(qs', row, col, r, c);
        }
      }
      ok := true;
    }

    /**
     * The place/remove round trip that search performs around each column: a
     * successful placeQueen(row, col) followed at once by removeQueen(row, col)
     * passes the sanity check and restores queens, tally and grid exactly.
     */
    method PlaceThenRemove(row: int, col: int) returns (placed: bool, sane: bool)
      requires Valid() && 0 <= row < boardSize && 0 <= col < boardSize
      modifies this, queens, board
      ensures Valid()
      ensures placed <==> CanPlace(old(queens[..]), row, col)
      ensures placed ==> sane
      ensures queens[..] == old(queens[..]) && queensPlaced == old(queensPlaced)
      ensures forall r, c :: 0 <= r < boardSize && 0 <= c < boardSize ==> board[r, c] == old(board[r, c])
    {
      sane := true;
      placed := PlaceQueen(row, col);
      if placed {
        sane := RemoveQueen(row, col);
        assert queens[..] == old(queens[..]);
      }
    }
  }
}
