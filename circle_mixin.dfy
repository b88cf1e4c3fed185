/** The integer parts of jduimage/_circleMixin.py: the corner list of `get_corners` and the
    argument guard of `ring`. */
module CircleMixin {
  import opened Errors
  import opened Arrays

  /** An (x, y) point: x along the width, y along the height. */
  type Corner = (int, int)

  /** p and q lie on a common horizontal or vertical line. */
  predicate Aligned(p: Corner, q: Corner) {
    p.0 == q.0 || p.1 == q.1
  }

  /** p and q differ in exactly one coordinate. */
  predicate Side(p: Corner, q: Corner) {
    (p.0 == q.0) != (p.1 == q.1)
  }

  /** `get_corners()`: (0, 0), (0, height), (width, height), (width, 0). */
  function Corners(d: Data): (pts: seq<Corner>)
    requires WellFormed(d)
    ensures |pts| == 4 && pts[0] == (0, 0) && pts[2] == (d.Width(), d.Height())
    ensures forall k | 0 <= k < 4 ::
              (pts[k].0 == 0 || pts[k].0 == d.Width()) && (pts[k].1 == 0 || pts[k].1 == d.Height())
    ensures Aligned(pts[0], pts[1]) && Aligned(pts[1], pts[2]) && Aligned(pts[2], pts[3]) && Aligned(pts[3], pts[0])
    ensures d.Width() > 0 && d.Height() > 0 ==>
              && Side(pts[0], pts[1]) && Side(pts[1], pts[2]) && Side(pts[2], pts[3]) && Side(pts[3], pts[0])
              && forall k, l | 0 <= k < l < 4 :: pts[k] != pts[l]
  {
    [(0, 0), (0, d.Height()), (d.Width(), d.Height()), (d.Width(), 0)]
  }

  /** Twice the signed area of a closed polygon (the shoelace formula). */
  function TwiceSignedArea(pts: seq<Corner>): int {
    if |pts| < 2 then 0 else Shoelace(pts, 0)
  }

  function Shoelace(pts: seq<Corner>, k: nat): int
    requires |pts| >= 2 && k <= |pts|
    decreases |pts| - k
  {
    if k == |pts| then 0
    else
      var p, q := pts[k], if k + 1 == |pts| then pts[0] else pts[k + 1];
      p.0 * q.1 - q.0 * p.1 + Shoelace(pts, k + 1)
  }

  /** The corners enclose the whole image. With x to the right and y downwards the signed
      area is negative, so on screen the list runs top-left, bottom-left, bottom-right,
      top-right. */
  lemma CornersEncloseImage(d: Data)
    requires WellFormed(d)
    ensures TwiceSignedArea(Corners(d)) == -2 * (d.Width() * d.Height())
  {
    var pts := Corners(d);
    var w: int, h: int := d.Width(), d.Height();
    assert Shoelace(pts, 4) == 0;
    assert Shoelace(pts, 3) == 0;
    assert Shoelace(pts, 2) == -(w * h);
    assert Shoelace(pts, 1) == -(w * h) - (w * h);
    assert Shoelace(pts, 0) == -(w * h) - (w * h);
  }

  /** `ring(center, radii)`'s guard, as written: the length of `center` is tested twice and
      that of `radii` never; `max` of an empty `radii` raises the interpreter's own
      ValueError (its wording differs between CPython versions; the one kept here is one of
      them, and no contract depends on it); then every radius must lie strictly between 0
      and half the smaller side. */
  function RingGuard(d: Data, center: seq<int>, radii: seq<int>): (r: Outcome)
    requires WellFormed(d)
    ensures r.Pass? <==>
              && |center| == 2 && |radii| > 0
              && forall k | 0 <= k < |radii| :: 0 < radii[k] < Min(d.Height(), d.Width()) / 2
    ensures |center| != 2 ==> r == Fail(ValueError("center requires 2 coordinates"))
    ensures r.Fail? ==> r.error.ValueError?
  {
    if |center| != 2 then Fail(ValueError("center requires 2 coordinates"))
    else if |center| != 2 then Fail(ValueError("radi requires 2 values"))
    else if |radii| == 0 then Fail(ValueError("max() arg is an empty sequence"))
    else if Largest(radii) >= Min(d.Height(), d.Width()) / 2 then Fail(ValueError("radiis have to be < radius"))
    else if Smallest(radii) <= 0 then Fail(ValueError("radiis have to be > 0"))
    else Pass
  }

  /** The guard as its second message says it was meant: `radii` must hold two values. */
  function RingGuardChecked(d: Data, center: seq<int>, radii: seq<int>): (r: Outcome)
    requires WellFormed(d)
    ensures r.Pass? <==>
              && |center| == 2 && |radii| == 2
              && 0 < radii[0] < Min(d.Height(), d.Width()) / 2
              && 0 < radii[1] < Min(d.Height(), d.Width()) / 2
    ensures |center| == 2 && |radii| != 2 ==> r == Fail(ValueError("radi requires 2 values"))
  {
    if |center| != 2 then Fail(ValueError("center requires 2 coordinates"))
    else if |radii| != 2 then Fail(ValueError("radi requires 2 values"))
    else if Largest(radii) >= Min(d.Height(), d.Width()) / 2 then Fail(ValueError("radiis have to be < radius"))
    else if Smallest(radii) <= 0 then Fail(ValueError("radiis have to be > 0"))
    else Pass
  }

  /** The guard as written lets three radii through on a 20 × 20 image; the intended one
      rejects them. */
  lemma RingGuardAcceptsThreeRadii(d: Data)
    requires WellFormed(d) && d.Height() == 20 && d.Width() == 20
    ensures RingGuard(d, [10, 10], [1, 2, 3]).Pass?
    ensures RingGuardChecked(d, [10, 10], [1, 2, 3]) == Fail(ValueError("radi requires 2 values"))
  {
  }

  /** Python's `max` of a non-empty list. */
  function Largest(s: seq<int>): (m: int)
    requires |s| > 0
    ensures (forall k | 0 <= k < |s| :: s[k] <= m) && m in s
  {
    if |s| == 1 then s[0] else Max(s[0], Largest(s[1..]))
  }

  /** Python's `min` of a non-empty list. */
  function Smallest(s: seq<int>): (m: int)
    requires |s| > 0
    ensures (forall k | 0 <= k < |s| :: m <= s[k]) && m in s
  {
    if |s| == 1 then s[0] else Min(s[0], Smallest(s[1..]))
  }
}
