/** The image handle (`Image`, built on `ImageStructure` and the mixins): one `data` field
    that operations replace, and the properties derived from it on every read. */
module Jduimage {
  import opened Errors
  import opened Arrays
  import ImageStructure
  import ImageCrop
  import GeneralMixin
  import ToClassifyMixin

  class Image {
    var data: Data

    predicate Valid()
      reads this
    {
      WellFormed(data)
    }

    /** `Image(array)`: the array is stored as it is. */
    constructor (a: Data)
      requires WellFormed(a)
      ensures Valid() && data == a
    {
      data := a;
    }

    /** The constructor's type dispatch: a TypeError for anything that is neither a path
        nor an array; for a path, what loading it gave. */
    static method Create(input: ImageStructure.Input, loaded: Option<Data>) returns (r: Result<Image>)
      requires input.ArrayInput? ==> WellFormed(input.ndarray)
      requires loaded.Some? ==> WellFormed(loaded.value)
      ensures var d := ImageStructure.FromInput(input, loaded);
              && (d.Err? ==> r == Err(d.error))
              && (d.Ok? ==> r.Ok? && fresh(r.value) && r.value.Valid() && r.value.data == d.value)
    {
      var d := ImageStructure.FromInput(input, loaded);
      if d.Err? {
        return Err(d.error);
      }
      var image := new Image(d.value);
      return Ok(image);
    }

    /** `shape`: read from the current data. */
    function Shape(): (s: seq<nat>)
      reads this
      requires Valid()
      ensures |s| >= 2
      ensures data.Plane? ==> s == [|data.values.rows|, data.values.width]
      ensures data.Stack? ==> s == [|data.vectors.rows|, data.vectors.width, data.depth]
      ensures data.Other? ==> s == data.dims
    {
      data.Shape()
    }

    /** `height`: the number of rows of the current data. */
    function Height(): (h: nat)
      reads this
      requires Valid()
      ensures h == Shape()[0]
      ensures data.Plane? ==> h == |data.values.rows|
      ensures data.Stack? ==> h == |data.vectors.rows|
    {
      Shape()[0]
    }

    /** `width`: the number of columns of the current data. */
    function Width(): (w: nat)
      reads this
      requires Valid()
      ensures w == Shape()[1]
      ensures data.Plane? ==> forall i | 0 <= i < Height() :: |data.values.rows[i]| == w
      ensures data.Stack? ==> forall i | 0 <= i < Height() :: |data.vectors.rows[i]| == w
    {
      Shape()[1]
    }

    /** `dim`: the length of the shape; 2 exactly for a single-channel grid and 3 exactly
        for a multi-channel one. */
    function Dim(): (n: nat)
      reads this
      requires Valid()
      ensures n == |Shape()|
      ensures n == 2 <==> data.Plane?
      ensures n == 3 <==> data.Stack?
    {
      |Shape()|
    }

    /** `deepcopy()`: a new image holding the same data. */
    method DeepCopy() returns (copy: Image)
      requires Valid()
      ensures fresh(copy) && copy.Valid() && copy.data == data
    {
      copy := new Image(data);
    }

    /** `crop(tl, br, inplace)`: in place, the data is replaced and nothing is returned;
        otherwise a new image is returned and the data is kept. */
    method Crop(tl: ImageCrop.Point, br: ImageCrop.Point, inplace: bool) returns (r: Result<Option<Image>>)
      requires Valid()
      modifies this
      ensures Valid()
      ensures var c := ImageCrop.Crop(old(data), tl, br);
              && (c.Err? ==> r == Err(c.error) && data == old(data))
              && (c.Ok? && inplace ==> r == Ok(None) && data == c.value)
              && (c.Ok? && !inplace ==>
                    && data == old(data)
                    && r.Ok? && r.value.Some? && fresh(r.value.value)
                    && r.value.value.Valid() && r.value.value.data == c.value)
    {
      var c := ImageCrop.Crop(data, tl, br);
      if c.Err? {
        return Err(c.error);
      }
      if inplace {
        data := c.value;
        return Ok(None);
      }
      var image := new Image(c.value);
      return Ok(Some(image));
    }

    /** `crop2(tl, height, width, inplace)`, with the same in-place convention as `crop`. */
    method Crop2(tl: ImageCrop.Point, height: int, width: int, inplace: bool) returns (r: Result<Option<Image>>)
      requires Valid()
      modifies this
      ensures Valid()
      ensures var c := ImageCrop.Crop2(old(data), tl, height, width);
              && (c.Err? ==> r == Err(c.error) && data == old(data))
              && (c.Ok? && inplace ==> r == Ok(None) && data == c.value)
              && (c.Ok? && !inplace ==>
                    && data == old(data)
                    && r.Ok? && r.value.Some? && fresh(r.value.value)
                    && r.value.value.Valid() && r.value.value.data == c.value)
    {
      var c := ImageCrop.Crop2(data, tl, height, width);
      if c.Err? {
        return Err(c.error);
      }
      if inplace {
        data := c.value;
        return Ok(None);
      }
      var image := new Image(c.value);
      return Ok(Some(image));
    }

    /** `channel(c)`: the data becomes plane c of a multi-channel image. */
    method Channel(c: int) returns (r: Outcome)
      requires Valid() && !data.Other?
      requires data.Stack? ==> 1 <= data.depth <= GeneralMixin.MaxChannels
      modifies this
      ensures Valid()
      ensures var s := GeneralMixin.Channel(old(data), c);
              && (s.Err? ==> r == Fail(s.error) && data == old(data))
              && (s.Ok? ==> r == Pass && data == s.value)
    {
      var s := GeneralMixin.Channel(data, c);
      if s.Err? {
        return Fail(s.error);
      }
      data := s.value;
      return Pass;
    }

    /** `split(direction, position)`: two new images; this one is not changed. */
    method Split(direction: string, position: GeneralMixin.Position) returns (r: Result<(Image, Image)>)
      requires Valid()
      ensures var s := GeneralMixin.Split(data, direction, position);
              && (s.Err? ==> r == Err(s.error))
              && (s.Ok? ==>
                    && r.Ok? && fresh(r.value.0) && fresh(r.value.1)
                    && r.value.0.Valid() && r.value.1.Valid()
                    && r.value.0.data == s.value.0 && r.value.1.data == s.value.1)
    {
      var s := GeneralMixin.Split(data, direction, position);
      if s.Err? {
        return Err(s.error);
      }
      var first := new Image(s.value.0);
      var second := new Image(s.value.1);
      return Ok((first, second));
    }

    /** `negate()`. */
    method Negate() returns (r: Outcome)
      requires Valid()
      modifies this
      ensures Valid()
      ensures var n := GeneralMixin.Negate(old(data));
              && (n.Err? ==> r == Fail(n.error) && data == old(data))
              && (n.Ok? ==> r == Pass && data == n.value)
    {
      var n := GeneralMixin.Negate(data);
      if n.Err? {
        return Fail(n.error);
      }
      data := n.value;
      return Pass;
    }

    /** `blur(size, method)`: the guard runs first and, when it fails, nothing is filtered.
        `filtered` is what OpenCV's filter returns for the current data. */
    method Blur(size: int, filter: string, filtered: Data) returns (r: Outcome)
      requires Valid() && WellFormed(filtered)
      modifies this
      ensures Valid()
      ensures r == GeneralMixin.BlurGuard(size, filter)
      ensures r.Fail? ==> data == old(data)
      ensures r.Pass? ==> data == filtered
    {
      r := GeneralMixin.BlurGuard(size, filter);
      if r.Pass? {
        data := filtered;
      }
    }

    /** `vertical_shift(offset)`: the new index vector, then the re-indexed columns. */
    method VerticalShift(offset: int)
      requires Valid()
      modifies this
      ensures Valid()
      ensures data == ToClassifyMixin.VerticalShift(old(data), offset)
      ensures Shape() == old(Shape())
    {
      var newIndexes := ToClassifyMixin.ShiftIndexes(Width(), offset);
      if Dim() == 3 {
        data := Stack(data.depth, GatherColumns(data.vectors, newIndexes));
      } else if Dim() == 2 {
        data := Plane(GatherColumns(data.values, newIndexes));
      }
    }

    /** `horizontal_shift(offset)`: the new index vector, then the re-indexed rows. */
    method HorizontalShift(offset: int)
      requires Valid()
      modifies this
      ensures Valid()
      ensures data == ToClassifyMixin.HorizontalShift(old(data), offset)
      ensures Shape() == old(Shape())
    {
      var newIndexes := ToClassifyMixin.ShiftIndexes(Height(), offset);
      if Dim() == 3 {
        data := Stack(data.depth, GatherRows(data.vectors, newIndexes));
      } else if Dim() == 2 {
        data := Plane(GatherRows(data.values, newIndexes));
      }
    }
  }
}
