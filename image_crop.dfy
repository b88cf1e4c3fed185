/** Rectangle extraction on the image handle (jduimage/__init__.py): `crop`, whose
    bottom-right corner is inclusive, and `crop2`, a window of a requested size. */
module ImageCrop {
  import opened Errors
  import opened Arrays

  /** A coordinate pair (row, column), as the lists `tl` and `br` are read. */
  type Point = (int, int)

  /** `crop(tl, br)`: three guards, then the slice `data[tl0 : br0 + 1, tl1 : br1 + 1]`. The
      corner br is inclusive and the slice end is clamped, so an accepted crop is never
      empty. */
  function Crop(d: Data, tl: Point, br: Point): (r: Result<Data>)
    requires WellFormed(d)
    ensures r.Err? <==>
              || tl.0 < 0 || tl.1 < 0
              || br.0 > d.Height() || br.1 > d.Width()
              || tl.0 >= br.0 || tl.1 >= br.1
    ensures tl.0 < 0 || tl.1 < 0 ==> r == Err(ValueError("Wrong tl"))
    ensures tl.0 >= 0 && tl.1 >= 0 && (br.0 > d.Height() || br.1 > d.Width()) ==>
              r == Err(ValueError("Wrong br"))
    ensures tl.0 >= 0 && tl.1 >= 0 && br.0 <= d.Height() && br.1 <= d.Width() && (tl.0 >= br.0 || tl.1 >= br.1) ==>
              r == Err(ValueError("br must be bigger than tl"))
    ensures r.Ok? ==> WellFormed(r.value)
    ensures r.Ok? ==> IsWindowOf(r.value, d, tl.0, tl.1, Min(br.0 + 1, d.Height()) - tl.0, Min(br.1 + 1, d.Width()) - tl.1)
    ensures r.Ok? ==> r.value.Height() >= 1 && r.value.Width() >= 1
  {
    if tl.0 < 0 || tl.1 < 0 then Err(ValueError("Wrong tl"))
    else if br.0 > d.Height() || br.1 > d.Width() then Err(ValueError("Wrong br"))
    else if tl.0 >= br.0 || tl.1 >= br.1 then Err(ValueError("br must be bigger than tl"))
    else Ok(Slice(d, tl.0, br.0 + 1, tl.1, br.1 + 1))
  }

  /** `crop2(tl, height, width)`: only the top-left corner is checked, then the slice
      `data[tl0 : tl0 + height, tl1 : tl1 + width]` is taken with Python's slice rules. */
  function Crop2(d: Data, tl: Point, height: int, width: int): (r: Result<Data>)
    requires WellFormed(d)
    ensures r.Err? <==> tl.0 < 0 || tl.1 < 0
    ensures r.Err? ==> r.error == ValueError("Wrong tl")
    ensures r.Ok? ==> WellFormed(r.value)
    ensures r.Ok? ==>
              var rows := SliceRange(tl.0, tl.0 + height, d.Height());
              var cols := SliceRange(tl.1, tl.1 + width, d.Width());
              IsWindowOf(r.value, d, rows.0, cols.0, rows.1 - rows.0, cols.1 - cols.0)
  {
    if tl.0 < 0 || tl.1 < 0 then Err(ValueError("Wrong tl"))
    else Ok(Slice(d, tl.0, tl.0 + height, tl.1, tl.1 + width))
  }

  /** The pixel of `crop`'s result in its last row and last column is the source pixel at
      br itself whenever br lies inside the image: the bottom-right corner is inclusive. */
  lemma CropIncludesBottomRight(d: Data, tl: Point, br: Point)
    requires WellFormed(d) && !d.Other?
    requires Crop(d, tl, br).Ok?
    requires br.0 < d.Height() && br.1 < d.Width()
    ensures var r := Crop(d, tl, br).value;
            r.Height() == br.0 - tl.0 + 1 && r.Width() == br.1 - tl.1 + 1
    ensures d.Plane? ==> Crop(d, tl, br).value.values.rows[br.0 - tl.0][br.1 - tl.1] == d.values.rows[br.0][br.1]
    ensures d.Stack? ==> Crop(d, tl, br).value.vectors.rows[br.0 - tl.0][br.1 - tl.1] == d.vectors.rows[br.0][br.1]
  {
  }

  /** An accepted `crop` is the `crop2` whose size spans tl to br inclusive. */
  lemma CropIsCrop2(d: Data, tl: Point, br: Point)
    requires WellFormed(d)
    requires Crop(d, tl, br).Ok?
    ensures Crop(d, tl, br) == Crop2(d, tl, br.0 - tl.0 + 1, br.1 - tl.1 + 1)
  {
  }

  /** With a non-negative requested size, `crop2` never returns more than requested; it
      returns exactly the requested size when the window fits, and nothing when it starts
      beyond the image. */
  lemma Crop2Size(d: Data, tl: Point, height: int, width: int)
    requires WellFormed(d)
    requires tl.0 >= 0 && tl.1 >= 0 && height >= 0 && width >= 0
    ensures var r := Crop2(d, tl, height, width).value;
            && r.Height() <= height && r.Width() <= width
            && (tl.0 + height <= d.Height() ==> r.Height() == height)
            && (tl.1 + width <= d.Width() ==> r.Width() == width)
            && (tl.0 >= d.Height() ==> r.Height() == 0)
            && (tl.1 >= d.Width() ==> r.Width() == 0)
  {
  }

  /** From tl = (0, 0), a negative `height` -k is a negative slice end, which Python counts
      from the last row: of an image of H rows, H - k rows are kept. */
  lemma Crop2NegativeHeight(d: Data, k: int)
    requires WellFormed(d) && 0 < k <= d.Height()
    ensures Crop2(d, (0, 0), -k, d.Width()).value.Height() == d.Height() - k
  {
  }

  /** When tl0 + height is not negative but lies above tl0, the slice end is before the
      start and the crop is empty: a negative `height` counts from the last row only when
      tl0 + height < 0. */
  lemma Crop2NegativeHeightEmpty(d: Data, tl: Point, k: int)
    requires WellFormed(d) && tl.0 >= 0 && tl.1 >= 0 && 0 < k <= tl.0
    ensures Crop2(d, tl, -k, d.Width()).value.Height() == 0
  {
  }
}
