/** The cyclic shifts of the image handle (jduimage/_toClassifyMixin.py). Each computes the
    index vector `(arange(n) + offset) % n` and re-indexes one axis with it. */
module ToClassifyMixin {
  import opened Arrays

  /** `(np.arange(n) + offset) % n`: a rotation of 0..n-1. */
  function ShiftIndexes(n: nat, offset: int): (idx: seq<nat>)
    ensures |idx| == n
    ensures forall k | 0 <= k < n :: idx[k] == (k + offset) % n < n
    ensures forall v | 0 <= v < n :: v in idx
  {
    var idx := seq(n, k requires 0 <= k < n => (k + offset) % n);
    forall v | 0 <= v < n
      ensures v in idx
    {
      ShiftIndexHit(v, offset, n);
      assert idx[(v - offset) % n] == v;
    }
    idx
  }

  /** `vertical_shift(offset)`: column j of the result is column (j + offset) mod width of
      the image; the shape is kept, and an array of rank other than 2 and 3 is left as it
      is. */
  function VerticalShift(d: Data, offset: int): (r: Data)
    requires WellFormed(d)
    ensures WellFormed(r) && r.Shape() == d.Shape()
    ensures d.Plane? ==> r.Plane? && forall i, j | 0 <= i < d.Height() && 0 <= j < d.Width() ::
              r.values.rows[i][j] == d.values.rows[i][(j + offset) % d.Width()]
    ensures d.Stack? ==> r.Stack? && forall i, j | 0 <= i < d.Height() && 0 <= j < d.Width() ::
              r.vectors.rows[i][j] == d.vectors.rows[i][(j + offset) % d.Width()]
    ensures d.Other? ==> r == d
  {
    match d
    case Plane(g) => Plane(ShiftColumns(g, offset))
    case Stack(k, g) =>
      var s := ShiftColumns(g, offset);
      assert forall i, j | 0 <= i < |g.rows| && 0 <= j < g.width :: s.rows[i][j] == g.rows[i][(j + offset) % g.width];
      Stack(k, s)
    case Other(_) => d
  }

  /** `horizontal_shift(offset)`: row i of the result is row (i + offset) mod height of the
      image; the shape is kept, and an array of rank other than 2 and 3 is left as it is. */
  function HorizontalShift(d: Data, offset: int): (r: Data)
    requires WellFormed(d)
    ensures WellFormed(r) && r.Shape() == d.Shape()
    ensures d.Plane? ==> r.Plane? && forall i, j | 0 <= i < d.Height() && 0 <= j < d.Width() ::
              r.values.rows[i][j] == d.values.rows[(i + offset) % d.Height()][j]
    ensures d.Stack? ==> r.Stack? && forall i, j | 0 <= i < d.Height() && 0 <= j < d.Width() ::
              r.vectors.rows[i][j] == d.vectors.rows[(i + offset) % d.Height()][j]
    ensures d.Other? ==> r == d
  {
    match d
    case Plane(g) => Plane(ShiftRows(g, offset))
    case Stack(k, g) =>
      var s := ShiftRows(g, offset);
      assert forall i, j | 0 <= i < |g.rows| && 0 <= j < g.width :: s.rows[i][j] == g.rows[(i + offset) % |g.rows|][j];
      Stack(k, s)
    case Other(_) => d
  }

  lemma MulAtLeast(a: int, n: int)
    requires a >= 1 && n > 0
    ensures a * n >= n
  {
  }

  /** Euclidean remainders are unique. */
  lemma ModUnique(x: int, n: int, q: int, m: int)
    requires n > 0 && 0 <= m < n && x == q * n + m
    ensures x % n == m
  {
    var q', m' := x / n, x % n;
    assert x == q' * n + m';
    if q' > q {
      MulAtLeast(q' - q, n);
    } else if q' < q {
      MulAtLeast(q - q', n);
    }
  }

  /** Reducing before adding an offset does not change the remainder. */
  lemma ModAddMod(x: int, a: int, n: int)
    requires n > 0
    ensures (x % n + a) % n == (x + a) % n
  {
    var m := (x + a) % n;
    var q := (x + a) / n;
    var p := x / n;
    assert x + a == q * n + m;
    assert x == p * n + x % n;
    assert (q - p) * n == q * n - p * n;
    ModUnique(x % n + a, n, q - p, m);
  }

  /** Index (v - offset) mod n of the rotation is v. */
  lemma ShiftIndexHit(v: int, offset: int, n: int)
    requires 0 <= v < n
    ensures 0 <= (v - offset) % n < n && ((v - offset) % n + offset) % n == v
  {
    ModAddMod(v - offset, offset, n);
    assert v - offset + offset == v;
    ModMultiple(v, 0, n);
  }

  /** An index shifted by b and then by a is the index shifted by a + b. */
  lemma ComposeMod(i: int, a: int, b: int, n: int)
    requires n > 0
    ensures ((i + b) % n + a) % n == (i + (a + b)) % n
  {
    ModAddMod(i + b, a, n);
    assert i + b + a == i + (a + b);
  }

  /** Adding a multiple of n does not change the remainder of an index in [0, n). */
  lemma ModMultiple(j: int, k: int, n: int)
    requires n > 0 && 0 <= j < n
    ensures (j + k * n) % n == j
  {
    ModUnique(j + k * n, n, k, j);
  }

  /** The column re-indexing of a grid by `ShiftIndexes`. */
  function ShiftColumns<P>(g: Grid<P>, offset: int): (r: Grid<P>)
    requires Rectangular(g)
    ensures Rectangular(r) && |r.rows| == |g.rows| && r.width == g.width
    ensures forall i, j | 0 <= i < |g.rows| && 0 <= j < g.width ::
              r.rows[i][j] == g.rows[i][(j + offset) % g.width]
  {
    GatherColumns(g, ShiftIndexes(g.width, offset))
  }

  /** The row re-indexing of a grid by `ShiftIndexes`. */
  function ShiftRows<P>(g: Grid<P>, offset: int): (r: Grid<P>)
    requires Rectangular(g)
    ensures Rectangular(r) && |r.rows| == |g.rows| && r.width == g.width
    ensures forall i, j | 0 <= i < |g.rows| && 0 <= j < g.width ::
              r.rows[i][j] == g.rows[(i + offset) % |g.rows|][j]
  {
    GatherRows(g, ShiftIndexes(|g.rows|, offset))
  }

  lemma {:induction false} ShiftColumnsCompose<P>(g: Grid<P>, a: int, b: int)
    requires Rectangular(g)
    ensures ShiftColumns(ShiftColumns(g, a), b) == ShiftColumns(g, a + b)
  {
    var once := ShiftColumns(g, a);
    var twice := ShiftColumns(once, b);
    var direct := ShiftColumns(g, a + b);
    var w := g.width;
    forall i, j | 0 <= i < |g.rows| && 0 <= j < w
      ensures twice.rows[i][j] == direct.rows[i][j]
    {
      var k := (j + b) % w;
      assert twice.rows[i][j] == once.rows[i][k];
      assert once.rows[i][k] == g.rows[i][(k + a) % w];
      ComposeMod(j, a, b, w);
      assert direct.rows[i][j] == g.rows[i][(j + (a + b)) % w];
    }
    GridExtensional(twice, direct);
  }

  /** Row i of a row shift is row (i + offset) mod height, without the pixel-level detail. */
  lemma ShiftRowsRow<P>(g: Grid<P>, offset: int, i: int)
    requires Rectangular(g) && 0 <= i < |g.rows|
    ensures ShiftRows(g, offset).rows[i] == g.rows[(i + offset) % |g.rows|]
  {
  }

  lemma {:induction false} ShiftRowsCompose<P>(g: Grid<P>, a: int, b: int)
    requires Rectangular(g)
    ensures ShiftRows(ShiftRows(g, a), b) == ShiftRows(g, a + b)
  {
    var once := ShiftRows(g, a);
    var twice := ShiftRows(once, b);
    var direct := ShiftRows(g, a + b);
    var h := |g.rows|;
    forall i | 0 <= i < h
      ensures twice.rows[i] == direct.rows[i]
    {
      var k := (i + b) % h;
      ShiftRowsRow(once, b, i);
      assert twice.rows[i] == once.rows[k];
      ShiftRowsRow(g, a, k);
      ShiftRowsRow(g, a + b, i);
      ComposeMod(i, a, b, h);
      var m := (i + (a + b)) % h;
      assert once.rows[k] == g.rows[m];
      assert direct.rows[i] == g.rows[m];
    }
    assert twice.rows == direct.rows;
  }

  lemma {:induction false} ShiftColumnsPeriodic<P>(g: Grid<P>, k: int)
    requires Rectangular(g)
    ensures ShiftColumns(g, k * g.width) == g
  {
    var r := ShiftColumns(g, k * g.width);
    forall i, j | 0 <= i < |g.rows| && 0 <= j < g.width
      ensures r.rows[i][j] == g.rows[i][j]
    {
      ModMultiple(j, k, g.width);
    }
    GridExtensional(r, g);
  }

  lemma {:induction false} ShiftRowsPeriodic<P>(g: Grid<P>, k: int)
    requires Rectangular(g)
    ensures ShiftRows(g, k * |g.rows|) == g
  {
    var r := ShiftRows(g, k * |g.rows|);
    forall i, j | 0 <= i < |g.rows| && 0 <= j < g.width
      ensures r.rows[i][j] == g.rows[i][j]
    {
      ModMultiple(i, k, |g.rows|);
    }
    GridExtensional(r, g);
  }

  /** Shifting the columns by a, then by b, shifts them by a + b. */
  lemma {:induction false} VerticalShiftCompose(d: Data, a: int, b: int)
    requires WellFormed(d)
    ensures VerticalShift(VerticalShift(d, a), b) == VerticalShift(d, a + b)
  {
    match d
    case Plane(g) => ShiftColumnsCompose(g, a, b);
    case Stack(_, g) => ShiftColumnsCompose(g, a, b);
    case Other(_) =>
  }

  /** Shifting the columns by a multiple of the width, 0 included, changes nothing. */
  lemma {:induction false} VerticalShiftPeriodic(d: Data, k: int)
    requires WellFormed(d)
    ensures VerticalShift(d, k * d.Width()) == d
  {
    match d
    case Plane(g) => ShiftColumnsPeriodic(g, k);
    case Stack(_, g) => ShiftColumnsPeriodic(g, k);
    case Other(_) =>
  }

  /** Shifting the columns by offset and then by -offset restores the image. */
  lemma VerticalShiftUndo(d: Data, offset: int)
    requires WellFormed(d)
    ensures VerticalShift(VerticalShift(d, offset), -offset) == d
  {
    var back := VerticalShift(VerticalShift(d, offset), -offset);
    VerticalShiftCompose(d, offset, -offset);
    assert back == VerticalShift(d, 0);
    match d
    case Plane(g) => ShiftColumnsPeriodic(g, 0);
    case Stack(_, g) => ShiftColumnsPeriodic(g, 0);
    case Other(_) =>
  }

  /** Shifting the rows by a, then by b, shifts them by a + b. */
  lemma {:induction false} HorizontalShiftCompose(d: Data, a: int, b: int)
    requires WellFormed(d)
    ensures HorizontalShift(HorizontalShift(d, a), b) == HorizontalShift(d, a + b)
  {
    match d
    case Plane(g) => ShiftRowsCompose(g, a, b);
    case Stack(_, g) => ShiftRowsCompose(g, a, b);
    case Other(_) =>
  }

  /** Shifting the rows by a multiple of the height, 0 included, changes nothing. */
  lemma {:induction false} HorizontalShiftPeriodic(d: Data, k: int)
    requires WellFormed(d)
    ensures HorizontalShift(d, k * d.Height()) == d
  {
    match d
    case Plane(g) => ShiftRowsPeriodic(g, k);
    case Stack(_, g) => ShiftRowsPeriodic(g, k);
    case Other(_) =>
  }

  /** Shifting the rows by offset and then by -offset restores the image. */
  lemma HorizontalShiftUndo(d: Data, offset: int)
    requires WellFormed(d)
    ensures HorizontalShift(HorizontalShift(d, offset), -offset) == d
  {
    var back := HorizontalShift(HorizontalShift(d, offset), -offset);
    HorizontalShiftCompose(d, offset, -offset);
    assert back == HorizontalShift(d, 0);
    match d
    case Plane(g) => ShiftRowsPeriodic(g, 0);
    case Stack(_, g) => ShiftRowsPeriodic(g, 0);
    case Other(_) =>
  }
}
