/**
 * Grid coordinates, the x -> y -> z visiting order of every nested loop in
 * WorldGenerator, and the position of a cell in that order.
 */
module Grid {

  datatype Cell = Cell(x: int, y: int, z: int)

  /** Strict lexicographic order on (x, y, z): x outermost, z innermost. */
  predicate Before(a: Cell, b: Cell)
  {
    a.x < b.x || (a.x == b.x && (a.y < b.y || (a.y == b.y && a.z < b.z)))
  }

  /** A sequence of cells in strictly increasing visiting order. */
  ghost predicate Increasing(s: seq<Cell>)
  {
    forall i, j :: 0 <= i < j < |s| ==> Before(s[i], s[j])
  }

  lemma IncreasingConcat(s: seq<Cell>, t: seq<Cell>)
    requires Increasing(s) && Increasing(t)
    requires forall a, b :: a in s && b in t ==> Before(a, b)
    ensures Increasing(s + t)
  {
    forall i, j | 0 <= i < j < |s + t|
      ensures Before((s + t)[i], (s + t)[j])
    {
      if j < |s| {
        assert (s + t)[i] == s[i] && (s + t)[j] == s[j];
      } else if i >= |s| {
        assert (s + t)[i] == t[i - |s|] && (s + t)[j] == t[j - |s|];
      } else {
        assert (s + t)[i] in s && (s + t)[j] in t;
      }
    }
  }

  predicate InBounds(c: Cell, w: int, h: int, d: int)
  {
    0 <= c.x < w && 0 <= c.y < h && 0 <= c.z < d
  }

  /** How many cells a dense x/y/z loop has visited before reaching (x, y, z). */
  function Linear(c: Cell, h: int, d: int): int
  {
    (c.x * h + c.y) * d + c.z
  }

  lemma LinearRowEnd(x: int, y: int, h: int, d: int)
    ensures Linear(Cell(x, y, d), h, d) == Linear(Cell(x, y + 1, 0), h, d)
  {
    assert (x * h + y + 1) * d == (x * h + y) * d + d;
  }

  lemma LinearPlaneEnd(x: int, h: int, d: int)
    ensures Linear(Cell(x, h, 0), h, d) == Linear(Cell(x + 1, 0, 0), h, d)
  {
    assert x * h + h == (x + 1) * h;
  }

  /** One row-major step: (i, j) with 0 <= j < m sits at i*m + j, below n*m. */
  lemma RowMajorRange(i: int, j: int, n: int, m: int)
    requires 0 <= i < n && 0 <= j < m
    ensures 0 <= i * m + j < n * m
  {
    MulNonNegative(i, m);
    MulStep(i + 1, n - i - 1, m);
    MulNonNegative(n - i - 1, m);
    MulStep(i, 1, m);
  }

  lemma MulNonNegative(a: int, b: int)
    requires 0 <= a && 0 <= b
    ensures 0 <= a * b
  {
  }

  lemma MulStep(a: int, k: int, m: int)
    ensures (a + k) * m == a * m + k * m
  {
  }

  /** Row-major positions follow lexicographic order. */
  lemma RowMajorOrder(i1: int, j1: int, i2: int, j2: int, m: int)
    requires 0 <= j1 < m && 0 <= j2 < m
    requires i1 < i2 || (i1 == i2 && j1 < j2)
    ensures i1 * m + j1 < i2 * m + j2
  {
    if i1 < i2 {
      var k := i2 - i1;
      assert i2 * m == i1 * m + k * m;
      assert k * m == (k - 1) * m + m;
      assert (k - 1) * m >= 0;
    }
  }

  /** The dense loop visits cells at positions 0 .. w*h*d - 1. */
  lemma LinearInRange(c: Cell, w: int, h: int, d: int)
    requires InBounds(c, w, h, d)
    ensures 0 <= Linear(c, h, d) < w * h * d
  {
    RowMajorRange(c.x, c.y, w, h);
    RowMajorRange(c.x * h + c.y, c.z, w * h, d);
  }

  /**
   * Visiting order and draw position agree: a cell visited earlier has a
   * smaller position, and conversely. In particular, distinct cells get
   * distinct positions, so every cell consumes a draw of its own.
   */
  lemma LinearOrder(a: Cell, b: Cell, w: int, h: int, d: int)
    requires InBounds(a, w, h, d) && InBounds(b, w, h, d)
    ensures Before(a, b) <==> Linear(a, h, d) < Linear(b, h, d)
    ensures a == b <==> Linear(a, h, d) == Linear(b, h, d)
  {
    if Before(a, b) {
      LinearBefore(a, b, h, d);
    } else if Before(b, a) {
      LinearBefore(b, a, h, d);
    } else {
      assert a == b;
    }
  }

  lemma LinearBefore(a: Cell, b: Cell, h: int, d: int)
    requires 0 <= a.y < h && 0 <= b.y < h && 0 <= a.z < d && 0 <= b.z < d
    requires Before(a, b)
    ensures Linear(a, h, d) < Linear(b, h, d)
  {
    if a.x == b.x && a.y == b.y {
      RowMajorOrder(a.x * h + a.y, a.z, b.x * h + b.y, b.z, d);
    } else {
      RowMajorOrder(a.x, a.y, b.x, b.y, h);
      RowMajorOrder(a.x * h + a.y, a.z, b.x * h + b.y, b.z, d);
    }
  }
}
