/**
 * Value-level view of a board: the queens array as a sequence, one entry per row,
 * holding the queen's column or -1 when the row is empty. The constraint engine in
 * Boards keeps its mutable state equal to the functions defined here.
 */
module Placements {
  import opened Geometry

  /** Marker for a row without a queen. */
  const NoQueen := -1

  /** Every row is empty or holds a column inside the square n-by-n board. */
  predicate WellFormed(qs: seq<int>) {
    forall r :: 0 <= r < |qs| ==> qs[r] == NoQueen || 0 <= qs[r] < |qs|
  }

  /** The board of size n with no queen on it. */
  function Empty(n: nat): (qs: seq<int>)
    ensures |qs| == n && WellFormed(qs)
    ensures forall r :: 0 <= r < n ==> qs[r] == NoQueen
  {
    seq(n, _ => NoQueen)
  }

  /** Number of rows that hold a queen. */
  function Placed(qs: seq<int>): nat {
    if qs == [] then 0
    else Placed(qs[..|qs| - 1]) + (if qs[|qs| - 1] != NoQueen then 1 else 0)
  }

  /** Number of placed queens that occupy or attack square (r, c). */
  function CoverCount(qs: seq<int>, r: int, c: int): nat {
    if qs == [] then 0
    else
      var last := |qs| - 1;
      CoverCount(qs[..last], r, c) + (if qs[last] != NoQueen && Attacks(last, qs[last], r, c) then 1 else 0)
  }

  /** Board.placeFormsRow's question: two placed queens and (row, col) lie on one line. */
  ghost predicate FormsLine(qs: seq<int>, row: int, col: int) {
    exists q1, q2 :: 0 <= q1 < q2 < |qs| && qs[q1] != NoQueen && qs[q2] != NoQueen &&
      Collinear(row, col, q1, qs[q1], q2, qs[q2])
  }

  /** Board.placeQueen accepts (row, col): the square is not covered and forms no line. */
  ghost predicate CanPlace(qs: seq<int>, row: int, col: int) {
    CoverCount(qs, row, col) == 0 && !FormsLine(qs, row, col)
  }

  /** No two placed queens attack each other and no three lie on one line. */
  ghost predicate Legal(qs: seq<int>) {
    (forall i, j :: 0 <= i < j < |qs| && qs[i] != NoQueen && qs[j] != NoQueen ==>
       !Attacks(i, qs[i], j, qs[j])) &&
    (forall i, j, k :: 0 <= i < j < k < |qs| && qs[i] != NoQueen && qs[j] != NoQueen && qs[k] != NoQueen ==>
       !Collinear(i, qs[i], j, qs[j], k, qs[k]))
  }

  /** Every row holds a queen. */
  ghost predicate Full(qs: seq<int>) {
    forall r :: 0 <= r < |qs| ==> qs[r] != NoQueen
  }

  /** A solution of the puzzle: one legal queen in every row. */
  ghost predicate IsSolution(qs: seq<int>) {
    WellFormed(qs) && Full(qs) && Legal(qs)
  }

  // ---------------------------------------------------------------------------
  // Counting placed queens

  /** The tally never exceeds the board size, and reaches it exactly on a full board. */
  lemma {:induction false} PlacedFull(qs: seq<int>)
    ensures Placed(qs) <= |qs|
    ensures Placed(qs) == |qs| <==> Full(qs)
    decreases |qs|
  {
    if qs != [] {
      var p := qs[..|qs| - 1];
      PlacedFull(p);
      assert forall r :: 0 <= r < |p| ==> p[r] == qs[r];
    }
  }

  /** A board without queens has tally 0. */
  lemma {:induction false} PlacedNone(qs: seq<int>)
    requires forall r :: 0 <= r < |qs| ==> qs[r] == NoQueen
    ensures Placed(qs) == 0
    decreases |qs|
  {
    if qs != [] {
      var p := qs[..|qs| - 1];
      assert forall r :: 0 <= r < |p| ==> p[r] == qs[r];
      PlacedNone(p);
    }
  }

  /** Rows before `row` all hold a queen and the rest are empty: the tally is `row`. */
  lemma {:induction false} PlacedPrefix(qs: seq<int>, row: nat)
    requires row <= |qs|
    requires forall r :: 0 <= r < row ==> qs[r] != NoQueen
    requires forall r :: row <= r < |qs| ==> qs[r] == NoQueen
    ensures Placed(qs) == row
    decreases |qs|
  {
    if |qs| == row {
      PlacedFull(qs);
    } else {
      var p := qs[..|qs| - 1];
      assert forall r :: 0 <= r < |p| ==> p[r] == qs[r];
      PlacedPrefix(p, row);
    }
  }

  /** Putting a queen into an empty row raises the tally by one. */
  lemma {:induction false} PlacedUpdate(qs: seq<int>, row: nat, col: int)
    requires row < |qs| && qs[row] == NoQueen && col != NoQueen
    ensures Placed(qs[row := col]) == Placed(qs) + 1
    decreases |qs|
  {
    var last := |qs| - 1;
    var qs' := qs[row := col];
    if row == last {
      assert qs'[..last] == qs[..last];
    } else {
      assert qs'[..last] == qs[..last][row := col];
      PlacedUpdate(qs[..last], row, col);
    }
  }

  /** One placed queen gives a tally of at least one. */
  lemma {:induction false} PlacedAtLeastOne(qs: seq<int>, q: nat)
    requires q < |qs| && qs[q] != NoQueen
    ensures Placed(qs) >= 1
    decreases |qs|
  {
    var last := |qs| - 1;
    if q < last {
      PlacedAtLeastOne(qs[..last], q);
    }
  }

  /** Two placed queens give a tally of at least two. */
  lemma {:induction false} PlacedAtLeastTwo(qs: seq<int>, q1: nat, q2: nat)
    requires q1 < q2 < |qs| && qs[q1] != NoQueen && qs[q2] != NoQueen
    ensures Placed(qs) >= 2
    decreases |qs|
  {
    var last := |qs| - 1;
    if q2 == last {
      PlacedAtLeastOne(qs[..last], q1);
    } else {
      PlacedAtLeastTwo(qs[..last], q1, q2);
    }
  }

  /** Board.placeFormsRow's shortcut is sound: with fewer than two queens no line can form. */
  lemma FewerThanTwoFormNoLine(qs: seq<int>, row: int, col: int)
    requires Placed(qs) < 2
    ensures !FormsLine(qs, row, col)
  {
    if FormsLine(qs, row, col) {
      var q1, q2 :| 0 <= q1 < q2 < |qs| && qs[q1] != NoQueen && qs[q2] != NoQueen &&
        Collinear(row, col, q1, qs[q1], q2, qs[q2]);
      PlacedAtLeastTwo(qs, q1, q2);
    }
  }

  // ---------------------------------------------------------------------------
  // Attack counts

  /** A square's count is 0 exactly when no placed queen occupies or attacks it. */
  lemma {:induction false} UncoveredIffNoAttacker(qs: seq<int>, r: int, c: int)
    ensures CoverCount(qs, r, c) == 0 <==>
      forall q :: 0 <= q < |qs| && qs[q] != NoQueen ==> !Attacks(q, qs[q], r, c)
    decreases |qs|
  {
    if qs != [] {
      var p := qs[..|qs| - 1];
      UncoveredIffNoAttacker(p, r, c);
      assert forall q :: 0 <= q < |p| ==> p[q] == qs[q];
    }
  }

  /** A board without queens has every count 0. */
  lemma EmptyUncovered(n: nat, r: int, c: int)
    ensures CoverCount(Empty(n), r, c) == 0
  {
    UncoveredIffNoAttacker(Empty(n), r, c);
  }

  /** Putting a queen into an empty row adds its own attack pattern to every count. */
  lemma {:induction false} CoverUpdate(qs: seq<int>, row: nat, col: int, r: int, c: int)
    requires row < |qs| && qs[row] == NoQueen && col != NoQueen
    ensures CoverCount(qs[row := col], r, c) == CoverCount(qs, r, c) + (if Attacks(row, col, r, c) then 1 else 0)
    decreases |qs|
  {
    var last := |qs| - 1;
    var qs' := qs[row := col];
    if row == last {
      assert qs'[..last] == qs[..last];
    } else {
      assert qs'[..last] == qs[..last][row := col];
      CoverUpdate(qs[..last], row, col, r, c);
    }
  }

  /** A square attacked by exactly one placed queen has count 1. */
  lemma {:induction false} SoleAttacker(qs: seq<int>, q: nat, r: int, c: int)
    requires q < |qs| && qs[q] != NoQueen && Attacks(q, qs[q], r, c)
    requires forall p :: 0 <= p < |qs| && p != q && qs[p] != NoQueen ==> !Attacks(p, qs[p], r, c)
    ensures CoverCount(qs, r, c) == 1
    decreases |qs|
  {
    var last := |qs| - 1;
    var p := qs[..last];
    assert forall i :: 0 <= i < |p| ==> p[i] == qs[i];
    if q == last {
      UncoveredIffNoAttacker(p, r, c);
    } else {
      SoleAttacker(p, q, r, c);
    }
  }

  /** On a legal board each occupied square has count exactly 1. */
  lemma OccupiedCountIsOne(qs: seq<int>, row: nat)
    requires Legal(qs) && row < |qs| && qs[row] != NoQueen
    ensures CoverCount(qs, row, qs[row]) == 1
  {
    forall p | 0 <= p < |qs| && p != row && qs[p] != NoQueen
      ensures !Attacks(p, qs[p], row, qs[row])
    {
      if p > row {
        assert !Attacks(row, qs[row], p, qs[p]);
      }
    }
    SoleAttacker(qs, row, row, qs[row]);
  }

  /** Every square of an occupied row is covered, so no second queen fits in that row. */
  lemma OccupiedRowCovered(qs: seq<int>, row: nat, col: int)
    requires row < |qs| && qs[row] != NoQueen
    ensures CoverCount(qs, row, col) > 0
  {
    UncoveredIffNoAttacker(qs, row, col);
    assert Attacks(row, qs[row], row, col);
  }

  // ---------------------------------------------------------------------------
  // Legality under placement and removal

  /** An accepted placement keeps the board legal. */
  lemma PlaceKeepsLegal(qs: seq<int>, row: nat, col: int)
    requires WellFormed(qs) && Legal(qs)
    requires row < |qs| && 0 <= col < |qs| && qs[row] == NoQueen
    requires CanPlace(qs, row, col)
    ensures WellFormed(qs[row := col]) && Legal(qs[row := col])
  {
    var qs' := qs[row := col];
    UncoveredIffNoAttacker(qs, row, col);
    forall i, j | 0 <= i < j < |qs'| && qs'[i] != NoQueen && qs'[j] != NoQueen
      ensures !Attacks(i, qs'[i], j, qs'[j])
    {
      if i == row {
        assert !Attacks(j, qs[j], row, col);
      } else if j == row {
        assert !Attacks(i, qs[i], row, col);
      }
    }
    forall i, j, k | 0 <= i < j < k < |qs'| && qs'[i] != NoQueen && qs'[j] != NoQueen && qs'[k] != NoQueen
      ensures !Collinear(i, qs'[i], j, qs'[j], k, qs'[k])
    {
      if i == row {
        assert !Collinear(row, col, j, qs[j], k, qs[k]);
      } else if j == row {
        assert !Collinear(row, col, i, qs[i], k, qs[k]);
        CollinearSwap12(i, qs[i], row, col, k, qs[k]);
      } else if k == row {
        assert !Collinear(row, col, i, qs[i], j, qs[j]);
        CollinearSwap12(i, qs[i], row, col, j, qs[j]);
        CollinearSwap23(i, qs[i], j, qs[j], row, col);
      }
    }
  }

  /** Taking a queen off keeps the board legal. */
  lemma RemoveKeepsLegal(qs: seq<int>, row: nat)
    requires WellFormed(qs) && Legal(qs) && row < |qs|
    ensures WellFormed(qs[row := NoQueen]) && Legal(qs[row := NoQueen])
  {
  }
}
