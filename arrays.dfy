/** The part of NumPy's ndarray that the image handle relies on: a height × width grid of
    uint8 pixels (one value per pixel for a 2-D array, a vector of channel values for a
    3-D one), basic slicing with Python's index normalisation, and integer-array indexing
    along one axis. */
module Arrays {

  /** An element of a uint8 array. */
  type byte = x: int | 0 <= x < 256

  /** A grid stored row by row. The width is kept explicitly, so that a grid without rows
      keeps its width, as NumPy's shape (0, w) does. */
  datatype Grid<P> = Grid(width: nat, rows: seq<seq<P>>)

  predicate Rectangular<P>(g: Grid<P>) {
    forall i | 0 <= i < |g.rows| :: |g.rows[i]| == g.width
  }

  /** The array an image handle holds. `Plane` has shape (height, width), `Stack` has shape
      (height, width, depth); `Other` stands for an array of rank four or more, of which only
      the shape is modelled. */
  datatype Data =
    | Plane(values: Grid<byte>)
    | Stack(depth: nat, vectors: Grid<seq<byte>>)
    | Other(dims: seq<nat>)
  {
    /** NumPy's `shape`. */
    function Shape(): seq<nat> {
      match this
      case Plane(g) => [|g.rows|, g.width]
      case Stack(k, g) => [|g.rows|, g.width, k]
      case Other(s) => s
    }

    function Rank(): nat {
      |Shape()|
    }

    function Height(): nat
      requires Rank() >= 2
    {
      Shape()[0]
    }

    function Width(): nat
      requires Rank() >= 2
    {
      Shape()[1]
    }
  }

  /** Every row has `width` pixels and every pixel of a `Stack` has `depth` values. */
  predicate WellFormed(d: Data)
    ensures WellFormed(d) ==> d.Rank() >= 2
    ensures WellFormed(d) && d.Plane? ==> d.Height() == |d.values.rows| && d.Width() == d.values.width
    ensures WellFormed(d) && d.Stack? ==> d.Height() == |d.vectors.rows| && d.Width() == d.vectors.width
  {
    match d
    case Plane(g) => Rectangular(g)
    case Stack(k, g) =>
      && Rectangular(g)
      && forall i, j | 0 <= i < |g.rows| && 0 <= j < g.width :: |g.rows[i][j]| == k
    case Other(s) => |s| >= 4
  }

  function Min(a: int, b: int): int {
    if a <= b then a else b
  }

  function Max(a: int, b: int): int {
    if a <= b then b else a
  }

  /** A bound of the slice `a[i:…]` or `a[…:i]` of a sequence of length `n`, as Python
      normalises it: a negative bound counts from the end, and the result is clamped to
      [0, n]. */
  function SliceIndex(i: int, n: nat): (b: nat)
    ensures b <= n
    ensures 0 <= i ==> b == Min(i, n)
    ensures i < 0 && 0 <= i + n ==> b == i + n
    ensures i + n < 0 ==> b == 0
  {
    if i < 0 then (if i + n < 0 then 0 else i + n) else Min(i, n)
  }

  /** The half-open index range [lo, hi) that the slice `a[s:e]` selects from a sequence of
      length `n`; it is empty when the normalised end lies before the normalised start. */
  function SliceRange(s: int, e: int, n: nat): (b: (nat, nat))
    ensures b.0 <= b.1 <= n
    ensures b.0 == SliceIndex(s, n)
    ensures b.1 == Max(SliceIndex(s, n), SliceIndex(e, n))
  {
    var lo := SliceIndex(s, n);
    var hi := SliceIndex(e, n);
    (lo, if hi < lo then lo else hi)
  }

  /** `w` is the height × width block of `g` whose top-left pixel is (top, left). */
  ghost predicate GridWindow<P>(w: Grid<P>, g: Grid<P>, top: int, left: int, height: int, width: int) {
    && Rectangular(w) && Rectangular(g)
    && 0 <= top && 0 <= left
    && |w.rows| == height && w.width == width
    && top + height <= |g.rows| && left + width <= g.width
    && forall i, j | 0 <= i < height && 0 <= j < width :: w.rows[i][j] == g.rows[top + i][left + j]
  }

  /** `r` is the height × width block of `d` whose top-left pixel is (top, left): same kind of
      array, same trailing dimensions, and pixel (i, j) of `r` is pixel (top + i, left + j)
      of `d`. */
  ghost predicate IsWindowOf(r: Data, d: Data, top: int, left: int, height: int, width: int) {
    && 0 <= top && 0 <= left && 0 <= height && 0 <= width
    && match (r, d)
       case (Plane(rg), Plane(dg)) => GridWindow(rg, dg, top, left, height, width)
       case (Stack(rk, rg), Stack(dk, dg)) => rk == dk && GridWindow(rg, dg, top, left, height, width)
       case (Other(rs), Other(ds)) =>
         && |ds| >= 2
         && top + height <= ds[0] && left + width <= ds[1]
         && rs == [height, width] + ds[2..]
       case _ => false
  }

  /** Rows [r0, r1) and columns [c0, c1) of a rectangular grid. */
  function Window<P>(g: Grid<P>, r0: nat, r1: nat, c0: nat, c1: nat): (w: Grid<P>)
    requires Rectangular(g) && r0 <= r1 <= |g.rows| && c0 <= c1 <= g.width
    ensures GridWindow(w, g, r0, c0, r1 - r0, c1 - c0)
  {
    Grid(c1 - c0, seq(r1 - r0, i requires 0 <= i < r1 - r0 => g.rows[r0 + i][c0..c1]))
  }

  /** NumPy's basic slicing `d[r0:r1, c0:c1]` (step 1) on the first two axes. */
  function Slice(d: Data, r0: int, r1: int, c0: int, c1: int): (r: Data)
    requires WellFormed(d)
    ensures WellFormed(r)
    ensures var rows := SliceRange(r0, r1, d.Height());
            var cols := SliceRange(c0, c1, d.Width());
            IsWindowOf(r, d, rows.0, cols.0, rows.1 - rows.0, cols.1 - cols.0)
  {
    var rows := SliceRange(r0, r1, d.Height());
    var cols := SliceRange(c0, c1, d.Width());
    match d
    case Plane(g) => Plane(Window(g, rows.0, rows.1, cols.0, cols.1))
    case Stack(k, g) =>
      var w := Window(g, rows.0, rows.1, cols.0, cols.1);
      assert forall i, j | 0 <= i < |w.rows| && 0 <= j < w.width :: w.rows[i][j] == g.rows[rows.0 + i][cols.0 + j];
      Stack(k, w)
    case Other(s) => Other([rows.1 - rows.0, cols.1 - cols.0] + s[2..])
  }

  /** Integer-array indexing on the column axis, `g[:, idx]`: column j of the result is
      column idx[j] of `g`. */
  function GatherColumns<P>(g: Grid<P>, idx: seq<nat>): (r: Grid<P>)
    requires Rectangular(g)
    requires forall k | 0 <= k < |idx| :: idx[k] < g.width
    ensures Rectangular(r) && |r.rows| == |g.rows| && r.width == |idx|
    ensures forall i, j | 0 <= i < |g.rows| && 0 <= j < |idx| :: r.rows[i][j] == g.rows[i][idx[j]]
  {
    Grid(|idx|, seq(|g.rows|, i requires 0 <= i < |g.rows| =>
                      seq(|idx|, j requires 0 <= j < |idx| => g.rows[i][idx[j]])))
  }

  /** Integer-array indexing on the row axis, `g[idx, :]`: row i of the result is row
      idx[i] of `g`. */
  function GatherRows<P>(g: Grid<P>, idx: seq<nat>): (r: Grid<P>)
    requires Rectangular(g)
    requires forall k | 0 <= k < |idx| :: idx[k] < |g.rows|
    ensures Rectangular(r) && |r.rows| == |idx| && r.width == g.width
    ensures forall i | 0 <= i < |idx| :: r.rows[i] == g.rows[idx[i]]
    ensures forall i, j | 0 <= i < |idx| && 0 <= j < g.width :: r.rows[i][j] == g.rows[idx[i]][j]
  {
    Grid(g.width, seq(|idx|, i requires 0 <= i < |idx| => g.rows[idx[i]]))
  }

  /** Two rectangular grids with the same dimensions and the same pixels are equal. */
  lemma GridExtensional<P>(x: Grid<P>, y: Grid<P>)
    requires Rectangular(x) && Rectangular(y)
    requires x.width == y.width && |x.rows| == |y.rows|
    requires forall i, j | 0 <= i < |x.rows| && 0 <= j < x.width :: x.rows[i][j] == y.rows[i][j]
    ensures x == y
  {
    forall i | 0 <= i < |x.rows|
      ensures x.rows[i] == y.rows[i]
    {
      assert |x.rows[i]| == |y.rows[i]|;
    }
  }
}
