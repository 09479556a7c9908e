/**
 * Lattice geometry of the board: which squares a queen covers, and the exact
 * integer test for three points lying on one straight line.
 * Points are (row, column) pairs; rows play the part of x, columns of y.
 */
module Geometry {

  /** A queen at (qr, qc) occupies or attacks (r, c): same row, column, diagonal or anti-diagonal. */
  predicate Attacks(qr: int, qc: int, r: int, c: int) {
    r == qr || c == qc || r - c == qr - qc || r + c == qr + qc
  }

  /** Board.collinear: the cross-product test, with no division and no floating point. */
  predicate Collinear(x1: int, y1: int, x2: int, y2: int, x3: int, y3: int) {
    (y1 - y2) * (x1 - x3) == (y1 - y3) * (x1 - x2)
  }

  /** The point (x, y) satisfies the line equation a*x + b*y == d. */
  ghost predicate OnLine(a: int, b: int, d: int, x: int, y: int) {
    a * x + b * y == d
  }

  /** Independent reference: some proper line a*x + b*y == d passes through all three points. */
  ghost predicate OnCommonLine(x1: int, y1: int, x2: int, y2: int, x3: int, y3: int) {
    exists a: int, b: int, d: int ::
      (a != 0 || b != 0) && OnLine(a, b, d, x1, y1) && OnLine(a, b, d, x2, y2) && OnLine(a, b, d, x3, y3)
  }

  lemma ProductZero(a: int, e: int)
    requires a != 0 && a * e == 0
    ensures e == 0
  {
  }

  /** Two vectors orthogonal to the same nonzero normal (a, b) have zero cross product. */
  lemma ParallelCross(a: int, b: int, ux: int, uy: int, vx: int, vy: int)
    requires a != 0 || b != 0
    requires a * ux + b * uy == 0 && a * vx + b * vy == 0
    ensures uy * vx == vy * ux
  {
    if a != 0 {
      calc {
        a * (uy * vx - vy * ux);
        (a * vx) * uy - (a * ux) * vy;
        { assert a * vx == -(b * vy); assert a * ux == -(b * uy); }
        (-(b * vy)) * uy - (-(b * uy)) * vy;
        0;
      }
      ProductZero(a, uy * vx - vy * ux);
    } else {
      assert b * uy == 0 && b * vy == 0;
      ProductZero(b, uy);
      ProductZero(b, vy);
    }
  }

  /**
   * The line through (x1, y1) and a second point (x2, y2) with normal (y1 - y2, x2 - x1):
   * it passes through both, and through (x3, y3) exactly when the test holds.
   */
  lemma LineThrough(x1: int, y1: int, x2: int, y2: int, x3: int, y3: int)
    ensures OnLine(y1 - y2, x2 - x1, (y1 - y2) * x1 + (x2 - x1) * y1, x1, y1)
    ensures OnLine(y1 - y2, x2 - x1, (y1 - y2) * x1 + (x2 - x1) * y1, x2, y2)
    ensures Collinear(x1, y1, x2, y2, x3, y3) ==>
      OnLine(y1 - y2, x2 - x1, (y1 - y2) * x1 + (x2 - x1) * y1, x3, y3)
  {
    var a, b := y1 - y2, x2 - x1;
    assert a * x2 + b * y2 - (a * x1 + b * y1) == a * (x2 - x1) + b * (y2 - y1);
    assert a * x3 + b * y3 - (a * x1 + b * y1) == a * (x3 - x1) + b * (y3 - y1);
    assert a * (x3 - x1) + b * (y3 - y1) == (y1 - y3) * (x1 - x2) - (y1 - y2) * (x1 - x3);
  }

  /** Collinear points lie on a common proper line. */
  lemma CollinearOnCommonLine(x1: int, y1: int, x2: int, y2: int, x3: int, y3: int)
    requires Collinear(x1, y1, x2, y2, x3, y3)
    ensures OnCommonLine(x1, y1, x2, y2, x3, y3)
  {
    if x1 != x2 || y1 != y2 {
      LineThrough(x1, y1, x2, y2, x3, y3);
      var a, b := y1 - y2, x2 - x1;
      assert OnLine(a, b, a * x1 + b * y1, x3, y3);
    } else if x1 != x3 || y1 != y3 {
      LineThrough(x1, y1, x3, y3, x2, y2);
      var a, b := y1 - y3, x3 - x1;
      assert OnLine(a, b, a * x1 + b * y1, x2, y2);
    } else {
      assert OnLine(1, 0, x1, x1, y1) && OnLine(1, 0, x1, x2, y2) && OnLine(1, 0, x1, x3, y3);
    }
  }

  /** Points on a common proper line pass the cross-product test. */
  lemma CommonLineCollinear(x1: int, y1: int, x2: int, y2: int, x3: int, y3: int)
    requires OnCommonLine(x1, y1, x2, y2, x3, y3)
    ensures Collinear(x1, y1, x2, y2, x3, y3)
  {
    var a, b, d :| (a != 0 || b != 0) && OnLine(a, b, d, x1, y1) && OnLine(a, b, d, x2, y2) && OnLine(a, b, d, x3, y3);
    assert a * (x1 - x2) + b * (y1 - y2) == 0;
    assert a * (x1 - x3) + b * (y1 - y3) == 0;
    ParallelCross(a, b, x1 - x2, y1 - y2, x1 - x3, y1 - y3);
  }

  /** The cross-product test holds exactly when the three points lie on one line. */
  lemma CollinearIffCommonLine(x1: int, y1: int, x2: int, y2: int, x3: int, y3: int)
    ensures Collinear(x1, y1, x2, y2, x3, y3) <==> OnCommonLine(x1, y1, x2, y2, x3, y3)
  {
    if Collinear(x1, y1, x2, y2, x3, y3) {
      CollinearOnCommonLine(x1, y1, x2, y2, x3, y3);
    }
    if OnCommonLine(x1, y1, x2, y2, x3, y3) {
      CommonLineCollinear(x1, y1, x2, y2, x3, y3);
    }
  }

  /** Exchanging the first two points does not change the test. */
  lemma CollinearSwap12(x1: int, y1: int, x2: int, y2: int, x3: int, y3: int)
    ensures Collinear(x1, y1, x2, y2, x3, y3) == Collinear(x2, y2, x1, y1, x3, y3)
  {
    var lhs := (y1 - y2) * (x1 - x3) - (y1 - y3) * (x1 - x2);
    var rhs := (y2 - y1) * (x2 - x3) - (y2 - y3) * (x2 - x1);
    assert lhs == -y1 * x3 - y2 * x1 + y2 * x3 + y1 * x2 + y3 * x1 - y3 * x2;
    assert rhs == -y2 * x3 - y1 * x2 + y1 * x3 + y2 * x1 + y3 * x2 - y3 * x1;
    assert rhs == -lhs;
  }

  /** Exchanging the last two points does not change the test. */
  lemma CollinearSwap23(x1: int, y1: int, x2: int, y2: int, x3: int, y3: int)
    ensures Collinear(x1, y1, x2, y2, x3, y3) == Collinear(x1, y1, x3, y3, x2, y2)
  {
  }
}
