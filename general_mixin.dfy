/** General operations of the image handle (jduimage/_generalMixin.py): channel selection,
    splitting in two, negation, and the argument guard of blurring. */
module GeneralMixin {
  import opened Errors
  import opened Arrays
  import ImageCrop

  /** Component c of every pixel of a multi-channel grid. */
  function Component(g: Grid<seq<byte>>, depth: nat, c: nat): (r: Grid<byte>)
    requires Rectangular(g) && c < depth
    requires forall i, j | 0 <= i < |g.rows| && 0 <= j < g.width :: |g.rows[i][j]| == depth
    ensures Rectangular(r) && |r.rows| == |g.rows| && r.width == g.width
    ensures forall i, j | 0 <= i < |g.rows| && 0 <= j < g.width :: r.rows[i][j] == g.rows[i][j][c]
  {
    Grid(g.width, seq(|g.rows|, i requires 0 <= i < |g.rows| =>
                        seq(g.width, j requires 0 <= j < g.width => g.rows[i][j][c])))
  }

  /** OpenCV's limit on the number of channels of an array (CV_CN_MAX). */
  const MaxChannels := 512

  /** `channel(c)`: a 2-D image is left as it is, whatever c; a multi-channel one is split
      into its planes by OpenCV and plane c is kept, c being a Python list index (a negative
      c counts from the last plane). OpenCV splits an empty array into no planes, so every
      c is then out of range. */
  function Channel(d: Data, c: int): (r: Result<Data>)
    requires WellFormed(d) && !d.Other?
    requires d.Stack? ==> 1 <= d.depth <= MaxChannels
    ensures d.Plane? ==> r == Ok(d)
    ensures d.Stack? ==>
              var planes := if d.Height() == 0 || d.Width() == 0 then 0 else d.depth;
              (r.Ok? <==> -planes <= c < planes) && (r.Err? ==> r.error == IndexError)
    ensures d.Stack? && r.Ok? ==>
              var index := if c < 0 then c + d.depth else c;
              && WellFormed(r.value) && r.value.Plane?
              && r.value.Height() == d.Height() && r.value.Width() == d.Width()
              && forall i, j | 0 <= i < d.Height() && 0 <= j < d.Width() ::
                   r.value.values.rows[i][j] == d.vectors.rows[i][j][index]
  {
    match d
    case Plane(_) => Ok(d)
    case Stack(k, g) =>
      var planes := if |g.rows| == 0 || g.width == 0 then 0 else k;
      var index := if c < 0 then c + planes else c;
      if 0 <= index < planes then Ok(Plane(Component(g, k, index))) else Err(IndexError)
  }

  /** The directions `split` accepts. */
  const Directions: seq<string> := ["h", "horizontal", "v", "vertical"]

  predicate IsHorizontal(direction: string) {
    direction == "h" || direction == "horizontal"
  }

  predicate IsVertical(direction: string) {
    direction == "v" || direction == "vertical"
  }

  /** `split`'s position: the string "mid", or an index. */
  datatype Position = Mid | At(index: int)

  /** The index a position stands for along an axis of length n: "mid" is n // 2. */
  function Resolve(position: Position, n: nat): (p: int)
    ensures position.Mid? ==> 2 * p <= n < 2 * p + 2
    ensures position.At? ==> p == position.index
  {
    match position
    case Mid => n / 2
    case At(i) => i
  }

  /** `split(direction, position)`: two crops of `d`, neither of which changes it. A
      horizontal split at row p gives rows 0..p and rows p..height-1, both inclusive; a
      vertical split does the same on columns. */
  function Split(d: Data, direction: string, position: Position): (r: Result<(Data, Data)>)
    requires WellFormed(d)
    ensures direction !in Directions ==> r == Err(ValueError("Wrong orientation"))
    ensures IsHorizontal(direction) ==>
              var p := Resolve(position, d.Height());
              && (r.Ok? <==> 0 < p < d.Height() && d.Width() > 0)
              && (r.Ok? ==>
                    && WellFormed(r.value.0) && WellFormed(r.value.1)
                    && IsWindowOf(r.value.0, d, 0, 0, p + 1, d.Width())
                    && IsWindowOf(r.value.1, d, p, 0, d.Height() - p, d.Width()))
    ensures IsVertical(direction) ==>
              var p := Resolve(position, d.Width());
              && (r.Ok? <==> 0 < p < d.Width() && d.Height() > 0)
              && (r.Ok? ==>
                    && WellFormed(r.value.0) && WellFormed(r.value.1)
                    && IsWindowOf(r.value.0, d, 0, 0, d.Height(), p + 1)
                    && IsWindowOf(r.value.1, d, 0, p, d.Height(), d.Width() - p))
    ensures r.Err? && direction in Directions ==> r.error.ValueError?
  {
    if direction !in Directions then Err(ValueError("Wrong orientation"))
    else
      var height, width := d.Height(), d.Width();
      var p := Resolve(position, if IsHorizontal(direction) then height else width);
      var br1: ImageCrop.Point := if IsHorizontal(direction) then (p, width) else (height, p);
      var tl2: ImageCrop.Point := if IsHorizontal(direction) then (p, 0) else (0, p);
      var first := ImageCrop.Crop(d, (0, 0), br1);
      if first.Err? then Err(first.error)
      else
        var second := ImageCrop.Crop(d, tl2, (height, width));
        if second.Err? then Err(second.error)
        else Ok((first.value, second.value))
  }

  /** The two halves of a horizontal split share row p: their heights add up to one more
      than the image's, and the last row of the first half is the first row of the second. */
  lemma HorizontalSplitSharesRow(d: Data, direction: string, position: Position)
    requires WellFormed(d) && IsHorizontal(direction)
    requires Split(d, direction, position).Ok?
    ensures var (first, second) := Split(d, direction, position).value;
            var p := Resolve(position, d.Height());
            && first.Height() + second.Height() == d.Height() + 1
            && first.Width() == second.Width() == d.Width()
            && (d.Plane? ==> first.values.rows[p] == second.values.rows[0] == d.values.rows[p])
            && (d.Stack? ==> first.vectors.rows[p] == second.vectors.rows[0] == d.vectors.rows[p])
  {
  }

  /** The two halves of a vertical split share column p. */
  lemma VerticalSplitSharesColumn(d: Data, direction: string, position: Position)
    requires WellFormed(d) && IsVertical(direction)
    requires Split(d, direction, position).Ok?
    ensures var (first, second) := Split(d, direction, position).value;
            var p := Resolve(position, d.Width());
            && first.Width() + second.Width() == d.Width() + 1
            && first.Height() == second.Height() == d.Height()
            && (d.Plane? ==> forall i | 0 <= i < d.Height() ::
                  first.values.rows[i][p] == second.values.rows[i][0] == d.values.rows[i][p])
            && (d.Stack? ==> forall i | 0 <= i < d.Height() ::
                  first.vectors.rows[i][p] == second.vectors.rows[i][0] == d.vectors.rows[i][p])
  {
  }

  /** "mid" cannot split an image of a single row horizontally. */
  lemma MidSplitOfOneRowFails(d: Data)
    requires WellFormed(d) && d.Height() == 1
    ensures Split(d, "h", Mid).Err?
  {
  }

  /** uint8 bitwise negation `~v`: every one of the eight bits flipped, which for a
      uint8 is 255 - v. */
  function Invert(v: byte): (r: byte)
    ensures r + v == 255
  {
    255 - v
  }

  /** `Invert` is the bitwise negation of the eight bits of a uint8. */
  lemma InvertIsBitwiseNot(v: byte)
    ensures Invert(v) as bv8 == !(v as bv8)
    ensures (!(v as bv8)) as int == Invert(v)
  {
    var b := v as bv8;
    ByteAsBits(v);
    ComplementValue(b);
    BitsAsByte(!b);
  }

  lemma ByteAsBits(v: byte)
    ensures (v as bv8) as int == v
  {
  }

  lemma BitsAsByte(b: bv8)
    ensures (b as int) as bv8 == b
  {
  }

  /** Flipping the eight bits of b is subtracting b from 0xFF. */
  lemma ComplementValue(b: bv8)
    ensures 0xFF - b == !b
    ensures (0xFF - b) as int == 255 - b as int
  {
  }

  /** `negate()`: only a 2-D image is accepted; every pixel is replaced by its uint8
      bitwise negation, and the shape is kept. */
  function Negate(d: Data): (r: Result<Data>)
    requires WellFormed(d)
    ensures r.Err? <==> d.Rank() != 2
    ensures r.Err? ==> r.error == ValueError("Negation only on 2D images")
    ensures r.Ok? ==>
              && WellFormed(r.value) && r.value.Plane? && r.value.Shape() == d.Shape()
              && forall i, j | 0 <= i < d.Height() && 0 <= j < d.Width() ::
                   r.value.values.rows[i][j] == 255 - d.values.rows[i][j]
  {
    match d
    case Plane(g) =>
      Ok(Plane(Grid(g.width, seq(|g.rows|, i requires 0 <= i < |g.rows| =>
                                  seq(g.width, j requires 0 <= j < g.width => Invert(g.rows[i][j]))))))
    case _ => Err(ValueError("Negation only on 2D images"))
  }

  /** Negating twice gives back the image. */
  lemma NegateTwice(d: Data)
    requires WellFormed(d) && d.Rank() == 2
    ensures Negate(d).Ok? && Negate(Negate(d).value) == Ok(d)
  {
    var once := Negate(d).value;
    var twice := Negate(once).value;
    GridExtensional(twice.values, d.values);
  }

  /** The filters `blur` accepts. */
  const BlurMethods: seq<string> := ["gauss", "average", "median", "bilateral"]

  /** The guard `blur` runs before any filtering: the filter name first, then the size. */
  function BlurGuard(size: int, filter: string): (r: Outcome)
    ensures r.Pass? <==> filter in BlurMethods && size >= 3 && size % 2 == 1
    ensures filter !in BlurMethods ==> r == Fail(ValueError("Unexpected method"))
    ensures filter in BlurMethods && size < 3 ==> r == Fail(ValueError("Size too small, must be bigger than 3."))
    ensures filter in BlurMethods && size >= 3 && size % 2 == 0 ==> r == Fail(ValueError("Size must be odd"))
  {
    if filter !in BlurMethods then Fail(ValueError("Unexpected method"))
    else if size < 3 then Fail(ValueError("Size too small, must be bigger than 3."))
    else if size % 2 == 0 then Fail(ValueError("Size must be odd"))
    else Pass
  }
}
