/**
 * The backtracking driver. Search(board, row) tries every column of `row`,
 * recurses on success and always takes the queen off again; full boards are
 * captured as deep copies.
 *
 * Solutions, Columns and Attempt are the reference definition of what the search
 * collects, in order, as sequences of queen columns; the lemmas below prove that
 * reference sound (only solutions extending the current board), complete (every
 * such solution) and free of duplicates.
 */
module Algorithms {
  import opened Geometry
  import opened Placements
  import opened Boards

  /** The solutions collected by searching rows row.. of placement qs (board size |qs|). */
  ghost function Solutions(qs: seq<int>, row: nat): seq<seq<int>>
    requires WellFormed(qs)
    decreases |qs| - row, 2, 0
  {
    if row >= |qs| then [] else Columns(qs, row, |qs|)
  }

  /** The solutions collected while trying columns 0 .. k-1 in `row`, in that order. */
  ghost function Columns(qs: seq<int>, row: nat, k: nat): seq<seq<int>>
    requires WellFormed(qs) && row < |qs| && k <= |qs|
    decreases |qs| - row, 1, k
  {
    if k == 0 then [] else Columns(qs, row, k - 1) + Attempt(qs, row, k - 1)
  }

  /** The solutions collected by trying column col in `row`. */
  ghost function Attempt(qs: seq<int>, row: nat, col: nat): seq<seq<int>>
    requires WellFormed(qs) && row < |qs| && col < |qs|
    decreases |qs| - row, 0, 0
  {
    if !CanPlace(qs, row, col) then []
    else if Placed(qs[row := col]) == |qs| then [qs[row := col]]
    else Solutions(qs[row := col], row + 1)
  }

  /** The board Algorithm.search(boardSize, col) hands to the recursion: one queen at (0, col). */
  function Seed(n: nat, col: int): (qs: seq<int>)
    requires 0 <= col < n
    ensures |qs| == n && WellFormed(qs) && qs[0] == col
    ensures Placed(qs) == 1
  {
    var qs := Empty(n)[0 := col];
    PlacedPrefix(qs, 1);
    qs
  }

  /** `s` extends `qs`: it keeps every queen that qs has placed. */
  ghost predicate Extends(s: seq<int>, qs: seq<int>) {
    |s| == |qs| && forall r :: 0 <= r < |qs| && qs[r] != NoQueen ==> s[r] == qs[r]
  }

  /** Rows before `row` hold a queen and the remaining rows are empty. */
  ghost predicate FilledUpTo(qs: seq<int>, row: nat) {
    row <= |qs| &&
    (forall r :: 0 <= r < row ==> qs[r] != NoQueen) &&
    (forall r :: row <= r < |qs| ==> qs[r] == NoQueen)
  }

  /** No element occurs twice. */
  ghost predicate Distinct(ss: seq<seq<int>>) {
    forall i, j :: 0 <= i < j < |ss| ==> ss[i] != ss[j]
  }

  // ---------------------------------------------------------------------------
  // Soundness: everything collected is a full legal board extending the start.

  lemma {:induction false} SolutionsSound(qs: seq<int>, row: nat)
    requires WellFormed(qs) && Legal(qs)
    ensures forall s :: s in Solutions(qs, row) ==> IsSolution(s) && Extends(s, qs)
    decreases |qs| - row, 2, 0
  {
    if row < |qs| {
      ColumnsSound(qs, row, |qs|);
    }
  }

  lemma {:induction false} ColumnsSound(qs: seq<int>, row: nat, k: nat)
    requires WellFormed(qs) && Legal(qs) && row < |qs| && k <= |qs|
    ensures forall s :: s in Columns(qs, row, k) ==> IsSolution(s) && Extends(s, qs) && s[row] < k
    decreases |qs| - row, 1, k
  {
    if k > 0 {
      ColumnsSound(qs, row, k - 1);
      AttemptSound(qs, row, k - 1);
    }
  }

  lemma {:induction false} AttemptSound(qs: seq<int>, row: nat, col: nat)
    requires WellFormed(qs) && Legal(qs) && row < |qs| && col < |qs|
    ensures forall s :: s in Attempt(qs, row, col) ==> IsSolution(s) && Extends(s, qs) && s[row] == col
    decreases |qs| - row, 0, 0
  {
    if CanPlace(qs, row, col) {
      if qs[row] != NoQueen {
        OccupiedRowCovered(qs, row, col);
      }
      var qs' := qs[row := col];
      PlaceKeepsLegal(qs, row, col);
      if Placed(qs') == |qs| {
        PlacedFull(qs');
      } else {
        SolutionsSound(qs', row + 1);
      }
    }
  }

  // ---------------------------------------------------------------------------
  // Completeness: every full legal board extending a board filled up to `row` is collected.

  /** A column that a solution extending qs uses in `row` is accepted by placeQueen. */
  lemma ExtensionCanPlace(qs: seq<int>, row: nat, s: seq<int>)
    requires WellFormed(qs) && FilledUpTo(qs, row) && row < |qs|
    requires IsSolution(s) && Extends(s, qs)
    ensures CanPlace(qs, row, s[row])
  {
    var col := s[row];
    UncoveredIffNoAttacker(qs, row, col);
    forall q | 0 <= q < |qs| && qs[q] != NoQueen
      ensures !Attacks(q, qs[q], row, col)
    {
      assert q < row && !Attacks(q, s[q], row, s[row]);
    }
    if FormsLine(qs, row, col) {
      var q1, q2 :| 0 <= q1 < q2 < |qs| && qs[q1] != NoQueen && qs[q2] != NoQueen &&
        Collinear(row, col, q1, qs[q1], q2, qs[q2]);
      assert q2 < row && !Collinear(q1, s[q1], q2, s[q2], row, col);
      CollinearSwap12(q1, s[q1], row, col, q2, s[q2]);
      CollinearSwap23(q1, s[q1], q2, s[q2], row, col);
      assert false;
    }
  }

  lemma {:induction false} SolutionsComplete(qs: seq<int>, row: nat, s: seq<int>)
    requires WellFormed(qs) && FilledUpTo(qs, row) && row < |qs|
    requires IsSolution(s) && Extends(s, qs)
    ensures s in Solutions(qs, row)
    decreases |qs| - row, 2, 0
  {
    ColumnsComplete(qs, row, |qs|, s);
  }

  lemma {:induction false} ColumnsComplete(qs: seq<int>, row: nat, k: nat, s: seq<int>)
    requires WellFormed(qs) && FilledUpTo(qs, row) && row < |qs| && k <= |qs|
    requires IsSolution(s) && Extends(s, qs) && s[row] < k
    ensures s in Columns(qs, row, k)
    decreases |qs| - row, 1, k
  {
    if s[row] == k - 1 {
      AttemptComplete(qs, row, s);
    } else {
      ColumnsComplete(qs, row, k - 1, s);
    }
  }

  lemma {:induction false} AttemptComplete(qs: seq<int>, row: nat, s: seq<int>)
    requires WellFormed(qs) && FilledUpTo(qs, row) && row < |qs|
    requires IsSolution(s) && Extends(s, qs)
    ensures 0 <= s[row] < |qs| && s in Attempt(qs, row, s[row])
    decreases |qs| - row, 0, 0
  {
    var col := s[row];
    ExtensionCanPlace(qs, row, s);
    var qs' := qs[row := col];
    assert FilledUpTo(qs', row + 1);
    PlacedPrefix(qs', row + 1);
    if row + 1 == |qs| {
      assert s == qs';
    } else {
      SolutionsComplete(qs', row + 1, s);
    }
  }

  // ---------------------------------------------------------------------------
  // No duplicates: different columns in `row` give different boards.

  lemma {:induction false} SolutionsDistinct(qs: seq<int>, row: nat)
    requires WellFormed(qs) && Legal(qs)
    ensures Distinct(Solutions(qs, row))
    decreases |qs| - row, 2, 0
  {
    if row < |qs| {
      ColumnsDistinct(qs, row, |qs|);
    }
  }

  lemma {:induction false} ColumnsDistinct(qs: seq<int>, row: nat, k: nat)
    requires WellFormed(qs) && Legal(qs) && row < |qs| && k <= |qs|
    ensures Distinct(Columns(qs, row, k))
    decreases |qs| - row, 1, k
  {
    if k > 0 {
      var left, right := Columns(qs, row, k - 1), Attempt(qs, row, k - 1);
      ColumnsDistinct(qs, row, k - 1);
      AttemptDistinct(qs, row, k - 1);
      ColumnsSound(qs, row, k - 1);
      AttemptSound(qs, row, k - 1);
      var all := left + right;
      forall i, j | 0 <= i < j < |all|
        ensures all[i] != all[j]
      {
        if j >= |left| && i < |left| {
          assert all[i] in left && all[j] in right;
          assert all[i][row] < k - 1 == all[j][row];
        } else if i >= |left| {
          assert all[i] == right[i - |left|] && all[j] == right[j - |left|];
        }
      }
    }
  }

  lemma {:induction false} AttemptDistinct(qs: seq<int>, row: nat, col: nat)
    requires WellFormed(qs) && Legal(qs) && row < |qs| && col < |qs|
    ensures Distinct(Attempt(qs, row, col))
    decreases |qs| - row, 0, 0
  {
    if CanPlace(qs, row, col) && Placed(qs[row := col]) != |qs| {
      if qs[row] != NoQueen {
        OccupiedRowCovered(qs, row, col);
      }
      PlaceKeepsLegal(qs, row, col);
      SolutionsDistinct(qs[row := col], row + 1);
    }
  }

  // ---------------------------------------------------------------------------
  // The public entry point, as written and corrected.

  /** The empty board accepts its first queen anywhere in row 0. */
  lemma FirstPlacementSucceeds(n: nat, col: int)
    requires 0 <= col < n
    ensures CanPlace(Empty(n), 0, col)
  {
    EmptyUncovered(n, 0, col);
    PlacedNone(Empty(n));
    FewerThanTwoFormNoLine(Empty(n), 0, col);
  }

  /** What Algorithm.search(n, col) returns: the recursion from row 1 after seeding (0, col). */
  ghost function RootSolutions(n: nat, col: int): seq<seq<int>>
    requires 0 <= col < n
  {
    Solutions(Seed(n, col), 1)
  }

  /** From two rows up, the public search returns exactly the solutions with queen (0, col), once each. */
  lemma RootSolutionsExact(n: nat, col: int, s: seq<int>)
    requires 2 <= n && 0 <= col < n
    ensures s in RootSolutions(n, col) <==> IsSolution(s) && |s| == n && s[0] == col
    ensures Distinct(RootSolutions(n, col))
  {
    var seed := Seed(n, col);
    FirstPlacementSucceeds(n, col);
    assert seed == Empty(n)[0 := col];
    PlaceKeepsLegal(Empty(n), 0, col);
    SolutionsSound(seed, 1);
    SolutionsDistinct(seed, 1);
    if IsSolution(s) && |s| == n && s[0] == col {
      SolutionsComplete(seed, 1, s);
    }
  }

  /** On the 1-by-1 board the public search misses the one solution [0]. */
  lemma RootSearchMissesSingleQueen()
    ensures IsSolution([0])
    ensures RootSolutions(1, 0) == []
  {
  }

  /** Corrected entry point: a seed that already fills the board is itself a solution. */
  ghost function CorrectedRootSolutions(n: nat, col: int): seq<seq<int>>
    requires 0 <= col < n
  {
    Attempt(Empty(n), 0, col)
  }

  /** The corrected entry point returns exactly the solutions with queen (0, col), once each, for every n. */
  lemma CorrectedRootSolutionsExact(n: nat, col: int, s: seq<int>)
    requires 0 <= col < n
    ensures s in CorrectedRootSolutions(n, col) <==> IsSolution(s) && |s| == n && s[0] == col
    ensures Distinct(CorrectedRootSolutions(n, col))
  {
    PlacedNone(Empty(n));
    AttemptSound(Empty(n), 0, col);
    AttemptDistinct(Empty(n), 0, col);
    if IsSolution(s) && |s| == n && s[0] == col {
      assert FilledUpTo(Empty(n), 0);
      AttemptComplete(Empty(n), 0, s);
    }
  }

  /** Concatenating the searches from every start column (the command-line driver's loop). */
  ghost function AllStartColumns(n: nat, k: nat): seq<seq<int>>
    requires k <= n
  {
    if k == 0 then [] else AllStartColumns(n, k - 1) + RootSolutions(n, k - 1)
  }

  /** From two rows up, the start columns partition the search: their concatenation is the whole search. */
  lemma {:induction false} StartColumnsPartition(n: nat, k: nat)
    requires 2 <= n && k <= n
    ensures AllStartColumns(n, k) == Columns(Empty(n), 0, k)
  {
    if k > 0 {
      StartColumnsPartition(n, k - 1);
      FirstPlacementSucceeds(n, k - 1);
      assert Empty(n)[0 := k - 1] == Seed(n, k - 1);
      PlacedPrefix(Seed(n, k - 1), 1);
    }
  }

  /** Hence the driver finds every solution of the n-by-n board exactly once. */
  lemma AllSolutionsExact(n: nat, s: seq<int>)
    requires 2 <= n
    ensures s in AllStartColumns(n, n) <==> IsSolution(s) && |s| == n
    ensures Distinct(AllStartColumns(n, n))
  {
    StartColumnsPartition(n, n);
    SolutionsSound(Empty(n), 0);
    SolutionsDistinct(Empty(n), 0);
    if IsSolution(s) && |s| == n {
      PlacedNone(Empty(n));
      assert FilledUpTo(Empty(n), 0);
      SolutionsComplete(Empty(n), 0, s);
    }
  }

  /** An accepted column that fills the board contributes that one board. */
  lemma AttemptFills(qs: seq<int>, row: nat, col: nat)
    requires WellFormed(qs) && row < |qs| && col < |qs| && CanPlace(qs, row, col)
    requires Placed(qs[row := col]) == |qs|
    ensures Attempt(qs, row, col) == [qs[row := col]]
  {
  }

  /** An accepted column that leaves rows empty contributes the search of the next row. */
  lemma AttemptDescends(qs: seq<int>, row: nat, col: nat)
    requires WellFormed(qs) && row < |qs| && col < |qs| && CanPlace(qs, row, col)
    requires Placed(qs[row := col]) != |qs|
    ensures WellFormed(qs[row := col]) && Attempt(qs, row, col) == Solutions(qs[row := col], row + 1)
  {
  }

  /** `s` is a captured solution: a valid full board of size n whose queens are `expected`. */
  ghost predicate Captures(s: Board, expected: seq<int>, n: nat)
    reads s, s.queens, s.board
  {
    s.Valid() && s.boardSize == n && s.queensPlaced == n && s.queens[..] == expected
  }

  class Algorithm {
    const boardSize: nat

    constructor (boardSize: nat)
      ensures this.boardSize == boardSize
    {
      this.boardSize := boardSize;
    }

    /**
     * search(board, row): collect copies of every full board reachable by placing
     * queens in rows row.., and hand the board back exactly as it came in.
     */
    method Search(board: Board, row: nat) returns (rv: seq<Board>)
      requires board.Valid() && board.boardSize == boardSize
      modifies board, board.queens, board.board
      decreases boardSize - row, 1, 0
      ensures board.Valid()
      ensures board.queens[..] == old(board.queens[..]) && board.queensPlaced == old(board.queensPlaced)
      ensures forall r, c :: 0 <= r < boardSize && 0 <= c < boardSize ==> board.board[r, c] == old(board.board[r, c])
      ensures row >= boardSize ==> rv == []
      ensures |rv| == |Solutions(old(board.queens[..]), row)|
      ensures forall i :: 0 <= i < |rv| ==> Captures(rv[i], Solutions(old(board.queens[..]), row)[i], boardSize)
      ensures forall i :: 0 <= i < |rv| ==> fresh(rv[i]) && fresh(rv[i].queens) && fresh(rv[i].board)
    {
      ghost var qs := board.queens[..];
      rv := [];
      if row >= boardSize {
        return;
      }
      for col := 0 to boardSize
        invariant board.Valid() && board.queens[..] == qs && board.queensPlaced == old(board.queensPlaced)
        invariant |rv| == |Columns(qs, row, col)|
        invariant forall i :: 0 <= i < |rv| ==> Captures(rv[i], Columns(qs, row, col)[i], boardSize)
        invariant forall i :: 0 <= i < |rv| ==> fresh(rv[i]) && fresh(rv[i].queens) && fresh(rv[i].board)
      {
        assert Columns(qs, row, col + 1) == Columns(qs, row, col) + Attempt(qs, row, col);
        var found := TryColumn(board, row, col);
        rv := rv + found;
      }
    }

    /**
     * One turn of search's loop: try placeQueen(row, col); on success descend,
     * then always removeQueen.
     */
    method TryColumn(board: Board, row: nat, col: nat) returns (found: seq<Board>)
      requires board.Valid() && board.boardSize == boardSize && row < boardSize && col < boardSize
      modifies board, board.queens, board.board
      decreases boardSize - row, 0, 1
      ensures board.Valid()
      ensures board.queens[..] == old(board.queens[..]) && board.queensPlaced == old(board.queensPlaced)
      ensures |found| == |Attempt(old(board.queens[..]), row, col)|
      ensures forall i :: 0 <= i < |found| ==> Captures(found[i], Attempt(old(board.queens[..]), row, col)[i], boardSize)
      ensures forall i :: 0 <= i < |found| ==> fresh(found[i]) && fresh(found[i].queens) && fresh(found[i].board)
    {
      ghost var qs := board.queens[..];
      found := [];
      var placed := board.PlaceQueen(row, col);
      if placed {
        found := Descend(board, row, col, qs);
        var sane := board.RemoveQueen(row, col);
        assert sane;
        assert board.queens[..] == qs;
      }
    }

    /**
     * The successful branch of search's loop, after placeQueen(row, col) on a board
     * whose queens were `qs`: capture a copy of a full board, or search the next row.
     */
    method Descend(board: Board, row: nat, col: nat, ghost qs: seq<int>) returns (found: seq<Board>)
      requires board.Valid() && board.boardSize == boardSize && row < boardSize && col < boardSize
      requires |qs| == boardSize && WellFormed(qs) && qs[row] == NoQueen && CanPlace(qs, row, col)
      requires board.queens[..] == qs[row := col]
      modifies board, board.queens, board.board
      decreases boardSize - row, 0, 0
      ensures board.Valid()
      ensures board.queens[..] == old(board.queens[..]) && board.queensPlaced == old(board.queensPlaced)
      ensures board.queens[row] == col
      ensures |found| == |Attempt(qs, row, col)|
      ensures forall i :: 0 <= i < |found| ==> Captures(found[i], Attempt(qs, row, col)[i], boardSize)
      ensures forall i :: 0 <= i < |found| ==> fresh(found[i]) && fresh(found[i].queens) && fresh(found[i].board)
    {
      ghost var placed := qs[row := col];
      if board.GetQueensPlaced() == boardSize {
        AttemptFills(qs, row, col);
        var copy := new Board.Copy(board);
        assert Captures(copy, placed, boardSize);
        found := [copy];
      } else {
        AttemptDescends(qs, row, col);
        found := Search(board, row + 1);
      }
    }

    /** search(boardSize, col): seed (0, col) on an empty board, then search from row 1. */
    static method SearchFrom(boardSize: nat, col: int) returns (rv: seq<Board>)
      requires 0 <= col < boardSize
      ensures |rv| == |RootSolutions(boardSize, col)|
      ensures forall i :: 0 <= i < |rv| ==> rv[i].queens[..] == RootSolutions(boardSize, col)[i]
      ensures forall s :: s in rv ==> s.Valid() && s.boardSize == boardSize && s.queensPlaced == boardSize
      ensures forall s :: s in rv ==> fresh(s) && fresh(s.queens) && fresh(s.board)
    {
      var algorithm := new Algorithm(boardSize);
      var b := new Board(boardSize);
      FirstPlacementSucceeds(boardSize, col);
      assert b.queens[..] == Empty(boardSize);
      var placed := b.PlaceQueen(0, col);
      assert b.queens[..] == Seed(boardSize, col);
      rv := algorithm.Search(b, 1);
    }

    /** Corrected search(boardSize, col): a seed that fills the board is returned as a solution. */
    static method SearchFromCorrected(boardSize: nat, col: int) returns (rv: seq<Board>)
      requires 0 <= col < boardSize
      ensures |rv| == |CorrectedRootSolutions(boardSize, col)|
      ensures forall i :: 0 <= i < |rv| ==> rv[i].queens[..] == CorrectedRootSolutions(boardSize, col)[i]
      ensures forall s :: s in rv ==> s.Valid() && s.boardSize == boardSize && s.queensPlaced == boardSize
      ensures forall s :: s in rv ==> fresh(s) && fresh(s.queens) && fresh(s.board)
    {
      var algorithm := new Algorithm(boardSize);
      var b := new Board(boardSize);
      FirstPlacementSucceeds(boardSize, col);
      assert b.queens[..] == Empty(boardSize);
      var placed := b.PlaceQueen(0, col);
      assert b.queens[..] == Seed(boardSize, col);
      if b.GetQueensPlaced() == boardSize {
        var copy := new Board.Copy(b);
        rv := [copy];
      } else {
        rv := algorithm.Search(b, 1);
      }
    }
  }
}
